/** Facts about sequences that the proofs by recursion on a list share. */
module Seqs {

  lemma Assoc<T>(x: seq<T>, y: seq<T>, z: seq<T>)
    ensures x + (y + z) == (x + y) + z
  {}

  lemma ConsAppend<T>(a: seq<T>, b: seq<T>)
    requires a != []
    ensures (a + b)[0] == a[0] && (a + b)[1..] == a[1..] + b
  {}

  lemma EmptyAppend<T>(b: seq<T>)
    ensures [] + b == b && b + [] == b
  {}

  /** A loop that erases from `cur` while it iterates over what was `all`: the element
      at its position is the next one of `all`. */
  lemma Next<T>(cur: seq<T>, i: nat, all: seq<T>, k: nat)
    requires i < |cur| && k <= |all| && cur[i..] == all[k..]
    ensures k < |all| && cur[i] == all[k] && all[..k + 1] == all[..k] + [all[k]]
    ensures cur[i + 1..] == all[k + 1..] && cur[..i + 1] == cur[..i] + [all[k]]
  {
    assert cur[i] == cur[i..][0] == all[k..][0];
    assert cur[i + 1..] == cur[i..][1..] == all[k + 1..];
  }

  lemma Erased<T>(cur: seq<T>, i: nat)
    requires i < |cur|
    ensures var r := cur[..i] + cur[i + 1..]; r[..i] == cur[..i] && r[i..] == cur[i + 1..]
  {}

  lemma Whole<T>(s: seq<T>)
    ensures s[..|s|] == s && s[0..] == s && s[..0] == []
  {}
}
