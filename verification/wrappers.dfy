/** Optional values and results, for the source's null values and exceptions. */
module Wrappers {

  datatype Option<+T> = None | Some(value: T) {
    function GetOr(default: T): T {
      match this
      case Some(v) => v
      case None => default
    }
  }

  datatype Result<+T, +E> = Success(value: T) | Failure(error: E)

  /** What the last entry of a log that gives a value gives, else what there was. */
  function LastGiven<E, T>(log: seq<E>, given: E -> Option<T>, initially: Option<T>): Option<T> {
    if log == [] then initially
    else if given(log[|log| - 1]).Some? then given(log[|log| - 1])
    else LastGiven(log[..|log| - 1], given, initially)
  }

  lemma {:induction false} LastGivenOfFirst<E, T>(first: E, rest: seq<E>, given: E -> Option<T>, initially: Option<T>)
    ensures LastGiven([first] + rest, given, initially) ==
            LastGiven(rest, given, if given(first).Some? then given(first) else initially)
    decreases |rest|
  {
    if rest == [] {
      assert [first] + rest == [first] && [first][..0] == [];
    } else {
      var front := rest[..|rest| - 1];
      LastGivenOfFirst(first, front, given, initially);
      assert ([first] + rest)[..|rest|] == [first] + front;
    }
  }
}
