/** A value or none; in readers and decoders, none is an error. */
module Options {
  import opened Sequences

  datatype Option<+T> = None | Some(value: T)

  /** A list with others before it, if there is one. */
  function Before<T>(first: seq<T>, r: Option<seq<T>>): Option<seq<T>> {
    match r
    case None => None
    case Some(others) => Some(first + others)
  }

  lemma NoneBefore<T>(r: Option<seq<T>>)
    ensures Before([], r) == r
    ensures r.Some? ==> Before(r.value, Some([])) == r
  {
    if r.Some? {
      assert [] + r.value == r.value && r.value + [] == r.value;
    }
  }

  lemma TwoBefore<T>(a: seq<T>, b: seq<T>, r: Option<seq<T>>)
    ensures Before(a, Before(b, r)) == Before(a + b, r)
  {
    if r.Some? {
      Associate(a, b, r.value);
    }
  }
}
