/** Bounded views of growing sequences. */
module Sequences {

  function LastN<T>(s: seq<T>, n: nat): seq<T> {
    if |s| <= n then s else s[|s| - n..]
  }

  /** Dropping from the front to make room and appending keeps exactly the last n. */
  lemma LastNSnoc<T>(s: seq<T>, n: nat, x: T)
    requires n > 0
    ensures LastN(s + [x], n) == (if |LastN(s, n)| >= n then LastN(s, n)[1..] else LastN(s, n)) + [x]
  {
  }
}
