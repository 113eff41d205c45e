/** Types every other module of the model shares. */
module Prelude {

  datatype Option<+T> = None | Some(value: T)

  datatype Result<+T, +E> = Ok(value: T) | Err(error: E)

  /** Instants and durations are counted in microseconds, the precision of timestamptz. */
  type Time = int

  const SECOND: Time := 1_000_000
  const MINUTE: Time := 60 * SECOND
  const HOUR: Time := 60 * MINUTE

  function Elements<T>(list: seq<T>): set<T> {
    set x | x in list
  }

  lemma Reassociate<T>(a: seq<T>, b: seq<T>, c: seq<T>)
    ensures a + (b + c) == (a + b) + c
  {
  }

  lemma {:induction false} ElementsOfDistinct<T>(list: seq<T>)
    requires forall k, l :: 0 <= k < l < |list| ==> list[k] != list[l]
    ensures |Elements(list)| == |list|
  {
    if list != [] {
      ElementsOfDistinct(list[1..]);
      assert list[0] !in list[1..];
      assert Elements(list) == {list[0]} + Elements(list[1..]);
    }
  }
}
