/** A class-based dependency that holds one persistent value across
    requests: it must be initialised before use, and closing it forgets the
    value. */
module SingletonDependency {
  import opened Wrappers
  import opened Exceptions

  const Adjectives: seq<string> := ["speedy", "ponderous", "furious", "careful", "mammoth", "crafty"]

  const Animals: seq<string> := ["cat", "dog", "sloth", "snail", "rabbit", "turtle"]

  /** A value `init` can store: an adjective, a space, an animal. */
  predicate IsPersistentValue(s: string) {
    exists i, j :: 0 <= i < |Adjectives| && 0 <= j < |Animals| && s == Adjectives[i] + " " + Animals[j]
  }

  /** The error every call raises while the state is unset. */
  function NotInitializedError(): Error {
    DemoInternalError(NotInitializedMessage, None)
  }

  class ExampleSingletonDependency {
    /** `None` until `init`, and again after `aclose`. */
    var state: Option<string>

    /** Every stored value is one `init` can produce. */
    ghost predicate Valid()
      reads this
    {
      state.Some? ==> IsPersistentValue(state.value)
    }

    /** A fresh dependency holds no state. */
    constructor ()
      ensures state == None && Valid()
    {
      state := None;
    }

    /** Stores a randomly chosen "adjective animal" pair; the choice of
        `random.choice` is left open. */
    method Init()
      modifies this
      ensures state.Some? && IsPersistentValue(state.value) && Valid()
    {
      assert Adjectives[0] in Adjectives && Animals[0] in Animals;
      var adjective :| adjective in Adjectives;
      var animal :| animal in Animals;
      state := Some(adjective + " " + animal);
    }

    /** Provides the stored value, or raises while the state is unset; the
        state is only read. */
    method Call() returns (r: Result<string, Error>)
      ensures r.Failure? <==> state.None?
      ensures r.Failure? ==> r.error == NotInitializedError()
      ensures r.Success? ==> r.value == state.value
      ensures Valid() && r.Success? ==> IsPersistentValue(r.value)
    {
      if state.None? {
        return Failure(NotInitializedError());
      }
      return Success(state.value);
    }

    /** Forgets the state, so calls raise again until the next `init`. */
    method Aclose()
      modifies this
      ensures state == None && Valid()
    {
      state := None;
    }
  }

  /** One life of the dependency: a call before `init` raises, calls after
      `init` return one and the same persistent value, and a call after
      `aclose` raises as before. */
  method Lifecycle() returns (beforeInit: Result<string, Error>, first: Result<string, Error>,
                              second: Result<string, Error>, afterClose: Result<string, Error>)
    ensures beforeInit == Failure(NotInitializedError())
    ensures first.Success? && IsPersistentValue(first.value) && second == first
    ensures afterClose == beforeInit
  {
    var dependency := new ExampleSingletonDependency();
    beforeInit := dependency.Call();
    dependency.Init();
    first := dependency.Call();
    second := dependency.Call();
    dependency.Aclose();
    afterClose := dependency.Call();
  }
}
