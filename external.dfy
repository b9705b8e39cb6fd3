/** The handlers of the external router: greetings, a logging demo, an
    error demo and a dependency demo. Each returns its response model, or
    the exception it raises. */
module External {
  import opened Wrappers
  import opened Exceptions
  import opened StrFormat
  import opened PaginationParams
  import opened SingletonDependency

  /** Supported greeting languages; each member's value is its code. */
  datatype Language = En | Es | Fr {
    function Value(): string {
      match this
      case En => "en"
      case Es => "es"
      case Fr => "fr"
    }
  }

  /** `Language(s)`: the member whose value is `s`, if there is one. */
  function ParseLanguage(s: string): (r: Option<Language>)
    ensures r.Some? ==> r.value.Value() == s
    ensures r.None? ==> forall l: Language :: l.Value() != s
  {
    if s == "en" then Some(En)
    else if s == "es" then Some(Es)
    else if s == "fr" then Some(Fr)
    else None
  }

  /** The audience every fixed greeting addresses. */
  const Audience: string := "SQuaRE Services Bootcamp"

  /** The text in front of the addressee in each language's greeting. */
  function GreetingPrefix(language: Language): string {
    match language
    case En => "Hello, "
    case Es => "¡Hola, "
    case Fr => "Bonjour, "
  }

  datatype GreetingResponse = GreetingResponse(greeting: string, language: Language)

  /** A greeting request; the language defaults to English. */
  datatype GreetingRequest = GreetingRequest(name: string, language: Language := En)

  /** An error demo request; `customError` defaults to true. */
  datatype ErrorRequest = ErrorRequest(customError: bool := true)

  datatype DependencyDemoResponse = DependencyDemoResponse(
    page: int, limit: int, order: SortOrder, persistentValue: string)

  /** GET /hello. */
  function GetGreeting(): (r: string)
    ensures r == "Hello, SQuaRE Services Bootcamp!"
    ensures r == GetMultilingualGreeting(En).greeting
  {
    "Hello, SQuaRE Services Bootcamp!"
  }

  /** GET /en-greeting. */
  function GetEnglishGreeting(): (r: GreetingResponse)
    ensures r.language == En && r.greeting == GetGreeting()
    ensures r == GetMultilingualGreeting()
  {
    GreetingResponse("Hello, SQuaRE Services Bootcamp!", En)
  }

  /** The fixed greetings of GET /greeting, by language. */
  function Greetings(language: Language): string {
    match language
    case En => "Hello, SQuaRE Services Bootcamp!"
    case Es => "¡Hola, SQuaRE Services Bootcamp!"
    case Fr => "Bonjour, SQuaRE Services Bootcamp!"
  }

  /** Each fixed greeting is the language's prefix before the audience. */
  lemma GreetingsAddressAudience(language: Language)
    ensures Greetings(language) == GreetingPrefix(language) + Audience + "!"
  {
    match language
    case En => EnglishGreetingAddressesAudience();
    case Es => SpanishGreetingAddressesAudience();
    case Fr => FrenchGreetingAddressesAudience();
  }

  lemma EnglishGreetingAddressesAudience()
    ensures Greetings(En) == GreetingPrefix(En) + Audience + "!"
  {
    assert "Hello, SQuaRE Services Bootcamp!" == "Hello, " + Audience + "!";
  }

  lemma SpanishGreetingAddressesAudience()
    ensures Greetings(Es) == GreetingPrefix(Es) + Audience + "!"
  {
    assert "¡Hola, SQuaRE Services Bootcamp!" == "¡Hola, " + Audience + "!";
  }

  lemma FrenchGreetingAddressesAudience()
    ensures Greetings(Fr) == GreetingPrefix(Fr) + Audience + "!"
  {
    assert "Bonjour, SQuaRE Services Bootcamp!" == "Bonjour, " + Audience + "!";
  }

  /** GET /greeting?language=...; the language defaults to English. */
  function GetMultilingualGreeting(language: Language := En): (r: GreetingResponse)
    ensures r.language == language
    ensures r.greeting == GreetingPrefix(language) + Audience + "!"
  {
    GreetingsAddressAudience(language);
    GreetingResponse(Greetings(language), language)
  }

  /** GET /greeting/{language}: its own copy of the greeting table. */
  function GetMultilingualGreetingPath(language: Language): (r: GreetingResponse)
    ensures r == GetMultilingualGreeting(language)
  {
    var greetings := map[En := "Hello, SQuaRE Services Bootcamp!",
                         Es := "¡Hola, SQuaRE Services Bootcamp!",
                         Fr := "Bonjour, SQuaRE Services Bootcamp!"];
    assert language in greetings by { assert language.En? || language.Es? || language.Fr?; }
    GreetingResponse(greetings[language], language)
  }

  /** The greeting templates of the POST handlers, by language. */
  function GreetingTemplate(language: Language): string {
    match language
    case En => "Hello, {name}!"
    case Es => "¡Hola, {name}!"
    case Fr => "Bonjour, {name}!"
  }

  /** POST /greeting: the template of the requested language filled with
      the requested name. */
  function PostGreeting(data: GreetingRequest): (r: GreetingResponse)
    ensures r.language == data.language
    ensures r.greeting == GreetingPrefix(data.language) + data.name + "!"
  {
    assert GreetingTemplate(data.language) == GreetingPrefix(data.language) + NameField + "!";
    FormatOneField(GreetingPrefix(data.language), "!", data.name);
    GreetingResponse(FormatName(GreetingTemplate(data.language), data.name), data.language)
  }

  /** POST /log-demo: logs the request, then answers as POST /greeting. */
  function PostLogDemo(data: GreetingRequest): (r: GreetingResponse)
    ensures r == PostGreeting(data)
  {
    var templates := map[En := "Hello, {name}!", Es := "¡Hola, {name}!", Fr := "Bonjour, {name}!"];
    assert data.language in templates by { assert data.language.En? || data.language.Es? || data.language.Fr?; }
    assert templates[data.language] == GreetingPrefix(data.language) + NameField + "!";
    FormatOneField(GreetingPrefix(data.language), "!", data.name);
    GreetingResponse(FormatName(templates[data.language], data.name), data.language)
  }

  /** Addressing the bootcamp by POST gives the fixed greeting of GET. */
  lemma PostGreetingToAudience(language: Language)
    ensures PostGreeting(GreetingRequest(Audience, language)).greeting
         == GetMultilingualGreeting(language).greeting
  {
  }

  /** POST /error-demo never answers: it raises the reportable internal
      error when asked to (the default) and a generic runtime error
      otherwise, both answered with status 500. */
  function PostErrorDemo(data: ErrorRequest): (r: Result<(), Error>)
    ensures r.Failure? && r.error.StatusCode() == 500
    ensures r.error.DemoInternalError? <==> data.customError
    ensures r.error.RuntimeError? <==> !data.customError
  {
    if data.customError then
      Failure(DemoInternalError("A custom error occurred.", Some("Hello error!")))
    else
      Failure(RuntimeError("A generic error occurred."))
  }

  /** GET /dependency-demo, given its resolved dependencies. */
  function GetDependencyDemo(pagination: Pagination, persistentValue: string): (r: DependencyDemoResponse)
    ensures r.page == pagination.page && r.limit == pagination.limit && r.order == pagination.order
    ensures r.persistentValue == persistentValue
  {
    DependencyDemoResponse(pagination.page, pagination.limit, pagination.order, persistentValue)
  }

  /** GET /dependency-demo with the singleton resolved for the request: it
      raises while the singleton is uninitialised, and otherwise reports
      the pagination and the singleton's value. */
  method ResolveDependencyDemo(pagination: Pagination, dependency: ExampleSingletonDependency)
    returns (r: Result<DependencyDemoResponse, Error>)
    ensures r.Failure? <==> dependency.state.None?
    ensures r.Failure? ==> r.error == NotInitializedError()
    ensures r.Success? ==> r.value == GetDependencyDemo(pagination, dependency.state.value)
    ensures dependency.Valid() && r.Success? ==> IsPersistentValue(r.value.persistentValue)
  {
    var value := dependency.Call();
    if value.Failure? {
      return Failure(value.error);
    }
    return Success(GetDependencyDemo(pagination, value.value));
  }
}
