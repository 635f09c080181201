/** The sort at the end of get_unused_prefixes_list, src/distorm/prefix.c: every pass
    compares one element with all the others, those behind it included. */
module Yak {

  ghost predicate SortedTo(s: seq<nat>, n: nat)
    requires n <= |s|
  {
    forall i, j :: 0 <= i < j < n ==> s[i] <= s[j]
  }

  ghost predicate MaxAt(s: seq<nat>, m: nat)
    requires m < |s|
  {
    forall i :: 0 <= i < |s| ==> s[i] <= s[m]
  }

  ghost predicate AtLeast(s: seq<nat>, n: nat, m: nat)
    requires n <= |s| && m < |s|
  {
    forall i :: 0 <= i < n ==> s[i] <= s[m]
  }

  /** The pass of element `i` has got to `j`: what is before `i` stays sorted; element
      `i` has met the ones before `j`, and the largest one once it has met them all. */
  ghost predicate Passing(s: seq<nat>, i: nat, j: nat) {
    && i < |s| && j <= |s| && SortedTo(s, i)
    && (j <= i ==> AtLeast(s, j, i)) && (j < i ==> MaxAt(s, i - 1))
    && (0 < i <= j ==> MaxAt(s, i))
    && (i == 0 ==> AtLeast(s, j, 0))
  }

  function Swapped(s: seq<nat>, i: nat, j: nat): seq<nat>
    requires i < |s| && j < |s|
  {
    s[i := s[j]][j := s[i]]
  }

  lemma SwapKeepsElements(s: seq<nat>, i: nat, j: nat)
    requires i < |s| && j < |s|
    ensures multiset(Swapped(s, i, j)) == multiset(s)
  {}

  lemma PassingOn(s: seq<nat>, i: nat, j: nat)
    requires Passing(s, i, j) && j < |s|
    ensures Passing(if s[j] > s[i] then Swapped(s, i, j) else s, i, j + 1)
  {
    var s' := if s[j] > s[i] then Swapped(s, i, j) else s;
    forall k, m | 0 <= k < m < i ensures s'[k] <= s'[m] {
      assert s[k] <= s[m];
    }
  }

  /** One pass moves element `i` to its place among those before it and leaves the
      largest one at `i`. */
  method Pass(a: array<nat>, i: nat)
    requires i < a.Length && SortedTo(a[..], i) && (i > 0 ==> MaxAt(a[..], i - 1))
    modifies a
    ensures SortedTo(a[..], i + 1) && MaxAt(a[..], i)
    ensures multiset(a[..]) == multiset(old(a[..]))
  {
    hide Passing, SortedTo, MaxAt, Swapped;
    var j := 0;
    PassStart(a[..], i);
    while j < a.Length
      invariant 0 <= j <= a.Length && Passing(a[..], i, j)
      invariant multiset(a[..]) == multiset(old(a[..]))
    {
      PassingOn(a[..], i, j);
      SwapKeepsElements(a[..], i, j);
      if a[j] > a[i] { Exchange(a, i, j); }
      j := j + 1;
    }
    PassEnd(a[..], i);
  }

  method Exchange(a: array<nat>, i: nat, j: nat)
    requires i < a.Length && j < a.Length
    modifies a
    ensures a[..] == Swapped(old(a[..]), i, j)
  {
    a[i], a[j] := a[j], a[i];
  }

  lemma PassStart(s: seq<nat>, i: nat)
    requires i < |s| && SortedTo(s, i) && (i > 0 ==> MaxAt(s, i - 1))
    ensures Passing(s, i, 0)
  {}

  lemma PassEnd(s: seq<nat>, i: nat)
    requires Passing(s, i, |s|)
    ensures SortedTo(s, i + 1) && MaxAt(s, i)
  {}

  method Sort(a: array<nat>)
    modifies a
    ensures SortedTo(a[..], a.Length) && multiset(a[..]) == multiset(old(a[..]))
  {
    for i := 0 to a.Length
      invariant SortedTo(a[..], i) && (i > 0 ==> MaxAt(a[..], i - 1))
      invariant multiset(a[..]) == multiset(old(a[..]))
    {
      Pass(a, i);
    }
  }
}
