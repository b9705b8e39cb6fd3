/** `template.format(name=...)` for templates whose only replacement field
    is `{name}`. */
module StrFormat {

  const NameField: string := "{name}"

  /** Replaces each `{name}` field of the template by `name` and copies the
      rest; meant for templates whose other text has no braces, for which
      Python's brace escapes and errors do not arise. */
  function FormatName(template: string, name: string): string
    decreases |template|
  {
    if |template| == 0 then ""
    else if |template| >= |NameField| && template[..|NameField|] == NameField then
      name + FormatName(template[|NameField|..], name)
    else [template[0]] + FormatName(template[1..], name)
  }

  /** Text without a replacement field is copied unchanged. */
  lemma {:induction false} FormatLiteral(text: string, name: string)
    requires '{' !in text
    ensures FormatName(text, name) == text
    decreases |text|
  {
    if |text| > 0 {
      assert text[0] != '{';
      FormatLiteral(text[1..], name);
      assert text == [text[0]] + text[1..];
    }
  }

  /** A template that starts with the `{name}` field formats to the name
      before the rest. */
  lemma FormatLeadingField(suffix: string, name: string)
    ensures FormatName(NameField + suffix, name) == name + FormatName(suffix, name)
  {
    var t := NameField + suffix;
    assert t[..|NameField|] == NameField;
    assert t[|NameField|..] == suffix;
  }

  /** A leading character other than `{` is copied. */
  lemma FormatLeadingChar(c: char, rest: string, name: string)
    requires c != '{'
    ensures FormatName([c] + rest, name) == [c] + FormatName(rest, name)
  {
    var t := [c] + rest;
    assert t[0] == c && t[1..] == rest;
    assert |t| >= |NameField| ==> t[..|NameField|][0] != NameField[0];
  }

  /** A template with one `{name}` field between literal text without
      braces formats to that text around the name. */
  lemma {:induction false} FormatOneField(prefix: string, suffix: string, name: string)
    requires '{' !in prefix && '{' !in suffix
    requires '}' !in prefix && '}' !in suffix
    ensures FormatName(prefix + NameField + suffix, name) == prefix + name + suffix
    decreases |prefix|
  {
    var template := prefix + NameField + suffix;
    if |prefix| == 0 {
      assert template == NameField + suffix;
      FormatLeadingField(suffix, name);
      FormatLiteral(suffix, name);
    } else {
      var c, rest := prefix[0], prefix[1..];
      var tail := rest + NameField + suffix;
      assert c in prefix;
      assert template == [c] + tail;
      FormatOneField(rest, suffix, name);
      calc {
        FormatName(template, name);
        { FormatLeadingChar(c, tail, name); }
        [c] + FormatName(tail, name);
        [c] + (rest + name + suffix);
        { assert prefix == [c] + rest; }
        prefix + name + suffix;
      }
    }
  }
}
