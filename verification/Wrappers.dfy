// Shared result types: the source returns (value, error) pairs and (value, ok) pairs.
module Wrappers {
  datatype Option<+T> = None | Some(value: T)

  datatype Result<+T, +E> = Ok(value: T) | Err(error: E)

  /** A list computed from the back; its first failure is the failure of the whole. */
  function Prepend<T, E>(r: Result<seq<T>, E>, before: seq<T>): Result<seq<T>, E> {
    if r.Err? then r else Ok(before + r.value)
  }

  lemma {:induction false} PrependEmpty<T, E>(r: Result<seq<T>, E>)
    ensures Prepend(r, []) == r
  {
    if r.Ok? {
      assert [] + r.value == r.value;
    }
  }

  lemma {:induction false} PrependMore<T, E>(r: Result<seq<T>, E>, more: seq<T>, before: seq<T>)
    ensures Prepend(Prepend(r, more), before) == Prepend(r, before + more)
  {
    if r.Ok? {
      assert before + (more + r.value) == (before + more) + r.value;
    }
  }

  lemma {:induction false} PrependEnd<T, E>(before: seq<T>)
    ensures Prepend(Result<seq<T>, E>.Ok([]), before) == Ok(before)
  {
    assert before + [] == before;
  }
}
