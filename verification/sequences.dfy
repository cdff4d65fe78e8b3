/** Facts about sequences that proofs name instead of finding them over and over. */
module Sequences {

  function ToSet<T>(s: seq<T>): set<T> {
    set x <- s
  }

  lemma OneMore<T>(s: seq<T>, k: nat)
    requires k < |s|
    ensures s[..k + 1] == s[..k] + [s[k]]
    ensures k == |s| - 1 ==> s == s[..k] + [s[k]]
  {
  }

  lemma NoneMore<T>(a: seq<T>, b: seq<T>)
    ensures a + b[..0] == a
  {
  }

  lemma Continues<T>(a: seq<T>, b: seq<T>)
    requires a <= b
    ensures b == a + b[|a|..]
  {
  }

  lemma TailMore<T>(s: seq<T>, x: T)
    requires s != []
    ensures (s + [x])[1..] == s[1..] + [x]
  {
  }

  lemma Associate<T>(a: seq<T>, b: seq<T>, c: seq<T>)
    ensures a + (b + c) == (a + b) + c
  {
  }
}
