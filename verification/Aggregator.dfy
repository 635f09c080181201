/** Adding up the values of a metric over several beats: the storage of src/common/metric.h,
    src/common/aggregator.cpp and src/common/sum_aggregator.cpp. */
module Aggregators {
  import opened Metrics

  type Entry = (string, U64)
  type Reading = seq<Entry>   // a map in the order of its names

  // ----- the order of names -----

  predicate Less(a: string, b: string) {
    if b == [] then false
    else if a == [] then true
    else a[0] < b[0] || (a[0] == b[0] && Less(a[1..], b[1..]))
  }

  lemma {:induction false} LessIsTotal(a: string, b: string)
    ensures Less(a, b) || Less(b, a) || a == b
    ensures !(Less(a, b) && Less(b, a)) && (a == b ==> !Less(a, b))
    decreases a
  {
    if a != [] && b != [] && a[0] == b[0] {
      LessIsTotal(a[1..], b[1..]);
      if a[1..] == b[1..] { assert a == [a[0]] + a[1..] && b == [b[0]] + b[1..]; }
    }
  }

  ghost predicate Sorted(names: seq<string>) {
    forall i, j :: 0 <= i < j < |names| ==> Less(names[i], names[j])
  }

  ghost function Names(r: Reading): (names: seq<string>)
    ensures |names| == |r| && forall i :: 0 <= i < |r| ==> names[i] == r[i].0
  {
    seq(|r|, i requires 0 <= i < |r| => r[i].0)
  }

  ghost function NameSet(r: Reading): set<string> { set e | e in r :: e.0 }

  /** Two ordered lists of the same names are the same list. */
  lemma {:induction false} SortedUnique(a: seq<string>, b: seq<string>)
    requires Sorted(a) && Sorted(b) && forall x :: x in a <==> x in b
    ensures a == b
    decreases a
  {
    assert (a != [] ==> a[0] in a) && (b != [] ==> b[0] in b);
    if a != [] && b != [] {
      SameFirst(a, b);
      forall x ensures x in a[1..] <==> x in b[1..] {
        LessIsTotal(x, a[0]);
        assert x in a[1..] ==> Less(a[0], x);
        assert x in b[1..] ==> Less(b[0], x);
        assert x in a <==> x == a[0] || x in a[1..];
        assert x in b <==> x == b[0] || x in b[1..];
      }
      SortedUnique(a[1..], b[1..]);
      assert a == [a[0]] + a[1..] && b == [b[0]] + b[1..];
    }
  }

  lemma SameFirst(a: seq<string>, b: seq<string>)
    requires Sorted(a) && Sorted(b) && a != [] && b != [] && forall x :: x in a <==> x in b
    ensures a[0] == b[0]
  {
    assert a[0] in b && b[0] in a;
    var i :| 0 <= i < |b| && b[i] == a[0];
    var j :| 0 <= j < |a| && a[j] == b[0];
    LessIsTotal(a[0], b[0]);
  }

  // ----- the arithmetic of 64-bit counters -----

  function Plus(x: U64, y: U64): U64 { (x + y) % 0x1_0000_0000_0000_0000 }

  function Minus(x: U64, y: U64): U64 { (x - y) % 0x1_0000_0000_0000_0000 }

  /** How far the names of two readings agree, from `i` on. */
  ghost function Agree(a: Reading, b: Reading, i: nat): (n: nat)
    ensures i <= |a| && i <= |b| ==> i <= n <= |a| && n <= |b|
    decreases |a| - i
  {
    if i < |a| && i < |b| && a[i].0 == b[i].0 then Agree(a, b, i + 1) else i
  }

  /** The first `n` values of `a` are combined with those of `b`. */
  ghost function Merged(f: (U64, U64) -> U64, a: Reading, b: Reading, n: nat): (r: Reading)
    requires n <= |a| && n <= |b|
    ensures |r| == |a| && forall i :: 0 <= i < |a| ==> r[i] == (a[i].0, if i < n then f(a[i].1, b[i].1) else a[i].1)
  {
    seq(|a|, i requires 0 <= i < |a| => (var v: U64 := if i < n then f(a[i].1, b[i].1) else a[i].1; (a[i].0, v)))
  }

  lemma {:induction false} AgreeAll(a: Reading, b: Reading, i: nat)
    requires i <= |a| && i <= |b| && forall k :: 0 <= k < i ==> a[k].0 == b[k].0
    ensures Names(a) == Names(b) <==> Agree(a, b, i) == |a| == |b|
    decreases |a| - i
  {
    if i < |a| && i < |b| {
      if a[i].0 == b[i].0 {
        AgreeAll(a, b, i + 1);
      } else {
        assert Names(a)[i] != Names(b)[i];
      }
    } else if |a| == |b| {
      assert Names(a) == Names(b);
    } else {
      assert |Names(a)| != |Names(b)|;
    }
  }

  lemma SameNames(a: Reading, b: Reading)
    requires Sorted(Names(a)) && Sorted(Names(b))
    ensures NameSet(a) == NameSet(b) <==> Agree(a, b, 0) == |a| == |b|
  {
    AgreeAll(a, b, 0);
    NameSetHas(a);
    NameSetHas(b);
    if NameSet(a) == NameSet(b) { SortedUnique(Names(a), Names(b)); }
  }

  lemma NameSetHas(a: Reading)
    ensures forall x :: x in Names(a) <==> x in NameSet(a)
  {
    forall x ensures x in Names(a) <==> x in NameSet(a) {
      if x in Names(a) {
        var i :| 0 <= i < |a| && Names(a)[i] == x;
        assert a[i] in a;
      }
      if x in NameSet(a) {
        var e :| e in a && e.0 == x;
        var i :| 0 <= i < |a| && a[i] == e;
        assert Names(a)[i] == x;
      }
    }
  }

  /** Subtracting what was added gives back the storage. */
  lemma AddThenSubtract(a: Reading, b: Reading)
    requires Names(a) == Names(b)
    ensures Agree(a, b, 0) == |a| == |b|
    ensures Agree(Merged(Plus, a, b, |a|), b, 0) == |a|
    ensures Merged(Minus, Merged(Plus, a, b, |a|), b, |a|) == a
  {
    AgreeAll(a, b, 0);
    var c := Merged(Plus, a, b, |a|);
    assert Names(c) == Names(b);
    AgreeAll(c, b, 0);
    var d := Merged(Minus, c, b, |a|);
    forall i | 0 <= i < |a| ensures d[i] == a[i] { MinusUndoes(a[i].1, b[i].1); }
  }

  lemma MinusUndoes(x: U64, y: U64)
    ensures Minus(Plus(x, y), y) == x
  {}

  lemma MergedNone(f: (U64, U64) -> U64, a: Reading, b: Reading)
    ensures Merged(f, a, b, 0) == a
  {}

  /** One step of the loops of `+=` and `-=`. */
  lemma MergedNext(f: (U64, U64) -> U64, a: Reading, b: Reading, i: nat)
    requires i < |a| && i < |b|
    ensures var r := Merged(f, a, b, i);
      |r| == |a| && r[i] == a[i] && r[i := (a[i].0, f(a[i].1, b[i].1))] == Merged(f, a, b, i + 1)
  {}

  lemma MergedNames(f: (U64, U64) -> U64, a: Reading, b: Reading, n: nat)
    requires n <= |a| && n <= |b|
    ensures Names(Merged(f, a, b, n)) == Names(a) && |Merged(f, a, b, n)| == |a|
  {}

  lemma AgreeNext(a: Reading, b: Reading, i: nat)
    requires i <= |a| && i <= |b|
    ensures Agree(a, b, i) == if i < |a| && i < |b| && a[i].0 == b[i].0 then Agree(a, b, i + 1) else i
  {}

  class Storage {
    var vals: Reading

    ghost predicate Valid()
      reads this
    {
      Sorted(Names(vals))
    }

    constructor ()
      ensures Valid() && vals == []
    {
      vals := [];
    }

    /** operator+=: fails exactly if the names differ, and then leaves the sums up to there. */
    method Add(other: Reading) returns (ok: bool)
      requires Valid() && Sorted(Names(other))
      modifies this
      ensures Valid() && (ok <==> NameSet(old(vals)) == NameSet(other))
      ensures Agree(old(vals), other, 0) <= |old(vals)| && Agree(old(vals), other, 0) <= |other|
      ensures vals == Merged(Plus, old(vals), other, Agree(old(vals), other, 0))
    {
      hide Merged, Agree, Names, NameSet, Sorted, Plus;
      SameNames(vals, other);
      MergedNone(Plus, vals, other);
      var i := 0;
      while i < |vals| && i < |other|
        invariant i <= |vals| == |old(vals)| && i <= |other| && Agree(old(vals), other, 0) == Agree(old(vals), other, i)
        invariant vals == Merged(Plus, old(vals), other, i)
      {
        MergedNext(Plus, old(vals), other, i);
        MergedNames(Plus, old(vals), other, i);
        AgreeNext(old(vals), other, i);
        if vals[i].0 != other[i].0 {
          return false;
        }
        vals := vals[i := (vals[i].0, Plus(vals[i].1, other[i].1))];
        i := i + 1;
      }
      MergedNames(Plus, old(vals), other, i);
      AgreeNext(old(vals), other, i);
      if i < |vals| { return false; }
      if i < |other| { return false; }
      ok := true;
    }

    /** operator-=. */
    method Subtract(other: Reading) returns (ok: bool)
      requires Valid() && Sorted(Names(other))
      modifies this
      ensures Valid() && (ok <==> NameSet(old(vals)) == NameSet(other))
      ensures Agree(old(vals), other, 0) <= |old(vals)| && Agree(old(vals), other, 0) <= |other|
      ensures vals == Merged(Minus, old(vals), other, Agree(old(vals), other, 0))
    {
      hide Merged, Agree, Names, NameSet, Sorted, Minus;
      SameNames(vals, other);
      MergedNone(Minus, vals, other);
      var i := 0;
      while i < |vals| && i < |other|
        invariant i <= |vals| == |old(vals)| && i <= |other| && Agree(old(vals), other, 0) == Agree(old(vals), other, i)
        invariant vals == Merged(Minus, old(vals), other, i)
      {
        MergedNext(Minus, old(vals), other, i);
        MergedNames(Minus, old(vals), other, i);
        AgreeNext(old(vals), other, i);
        if vals[i].0 != other[i].0 {
          return false;
        }
        vals := vals[i := (vals[i].0, Minus(vals[i].1, other[i].1))];
        i := i + 1;
      }
      MergedNames(Minus, old(vals), other, i);
      AgreeNext(old(vals), other, i);
      if i < |vals| { return false; }
      if i < |other| { return false; }
      ok := true;
    }
  }

  // ----- readings of a metric -----

  /** `names` are the names of the metric, in their order. */
  ghost predicate NamesIn(met: Metric, names: seq<string>)
    reads met
  {
    Sorted(names) && forall x :: x in names <==> x in met.refs
  }

  ghost predicate IsReading(met: Metric, names: seq<string>, r: Reading)
    requires NamesIn(met, names)
    reads met, set x | x in met.refs :: met.refs[x]
  {
    Names(r) == names && |r| == |names|
    && forall i :: 0 <= i < |names| ==> names[i] in met.refs && r[i].1 == met.refs[names[i]].value
  }

  method Checkpoint(met: Metric, names: seq<string>) returns (r: Reading)
    requires NamesIn(met, names)
    ensures IsReading(met, names, r)
  {
    r := [];
    for i := 0 to |names|
      invariant |r| == i && forall k :: 0 <= k < i ==> r[k] == (names[k], met.refs[names[k]].value)
    {
      assert names[i] in met.refs;
      r := r + [(names[i], met.refs[names[i]].value)];
    }
  }

  /** Whenever two names stand for one cell, the values agree. */
  ghost predicate AliasesAgree(refs: map<string, Cell>, r: Reading) {
    forall i, j :: 0 <= i < |r| && 0 <= j < |r| && r[i].0 in refs && r[j].0 in refs && refs[r[i].0] == refs[r[j].0] ==>
      r[i].1 == r[j].1
  }

  /** How many entries come before the first whose name does not exist, from `i` on. */
  ghost function Found(refs: map<string, Cell>, r: Reading, i: nat): (n: nat)
    requires i <= |r|
    ensures i <= n <= |r| && (n < |r| ==> r[n].0 !in refs)
    ensures forall k :: i <= k < n ==> r[k].0 in refs
    decreases |r| - i
  {
    if i < |r| && r[i].0 in refs then Found(refs, r, i + 1) else i
  }

  /** The last of the first `n` entries that stands for the cell, or -1. */
  ghost function LastFor(refs: map<string, Cell>, r: Reading, n: nat, c: Cell): (k: int)
    requires n <= |r|
    ensures -1 <= k < n && (k >= 0 ==> r[k].0 in refs && refs[r[k].0] == c)
    ensures forall j :: k < j < n && r[j].0 in refs ==> refs[r[j].0] != c
  {
    if n == 0 then -1
    else if r[n - 1].0 in refs && refs[r[n - 1].0] == c then n - 1
    else LastFor(refs, r, n - 1, c)
  }

  /** What a cell that held `v` holds once the first `n` entries are written. */
  ghost function Written(refs: map<string, Cell>, r: Reading, n: nat, c: Cell, v: U64): U64
    requires n <= |r|
  {
    var k := LastFor(refs, r, n, c);
    if k < 0 then v else r[k].1
  }

  /** The values are written back, up to the first name that does not exist; of several values for
      one cell the last one stays. */
  method Restore(met: Metric, r: Reading) returns (ok: bool)
    modifies set x | x in met.refs :: met.refs[x]
    ensures ok <==> forall e :: e in r ==> e.0 in met.refs
    ensures forall x :: x in met.refs ==>
              met.refs[x].value == Written(met.refs, r, Found(met.refs, r, 0), met.refs[x], old(met.refs[x].value))
    ensures ok && AliasesAgree(met.refs, r) ==> forall e :: e in r ==> met.refs[e.0].value == e.1
    ensures forall x :: x in met.refs && (forall e :: e in r && e.0 in met.refs ==> met.refs[e.0] != met.refs[x]) ==>
              met.refs[x].value == old(met.refs[x].value)
  {
    hide AliasesAgree, Found, Written;
    ghost var refs := met.refs;
    var i := 0;
    ok := true;
    forall x | x in refs ensures refs[x].value == Written(refs, r, 0, refs[x], refs[x].value) {
      NothingWritten(refs, r, refs[x], refs[x].value);
    }
    while i < |r| && ok
      invariant i <= |r| && met.refs == refs
      invariant Found(refs, r, 0) == if ok then Found(refs, r, i) else i
      invariant !ok ==> i < |r| && r[i].0 !in refs
      invariant forall x :: x in refs ==> refs[x].value == Written(refs, r, i, refs[x], old(refs[x].value))
      decreases |r| - i, ok
    {
      FoundNext(refs, r, i);
      if r[i].0 !in met.refs {
        ok := false;
      } else {
        met.refs[r[i].0].value := r[i].1;
        forall x | x in refs
          ensures refs[x].value == Written(refs, r, i + 1, refs[x], old(refs[x].value))
        {
          WrittenNext(refs, r, i, refs[x], old(refs[x].value));
        }
        i := i + 1;
      }
    }
    if ok { FoundNext(refs, r, i); }
    AllExist(refs, r);
    forall x | x in refs && (forall e :: e in r && e.0 in refs ==> refs[e.0] != refs[x])
      ensures refs[x].value == old(refs[x].value)
    {
      RestoredOnly(refs, r, i, x, old(refs[x].value));
    }
    if ok && AliasesAgree(refs, r) {
      forall e | e in r ensures refs[e.0].value == e.1 {
        RestoredAll(refs, r, e, old(refs[e.0].value));
      }
    }
  }

  lemma NothingWritten(refs: map<string, Cell>, r: Reading, c: Cell, v: U64)
    ensures Written(refs, r, 0, c, v) == v
  {}

  lemma AllExist(refs: map<string, Cell>, r: Reading)
    ensures Found(refs, r, 0) == |r| <==> forall e :: e in r ==> e.0 in refs
  {
    hide Found;
    var n := Found(refs, r, 0);
    if n < |r| { assert r[n] in r; }
  }

  lemma FoundNext(refs: map<string, Cell>, r: Reading, i: nat)
    requires i <= |r|
    ensures Found(refs, r, i) == if i < |r| && r[i].0 in refs then Found(refs, r, i + 1) else i
  {}

  lemma WrittenNext(refs: map<string, Cell>, r: Reading, i: nat, c: Cell, v: U64)
    requires i < |r| && r[i].0 in refs
    ensures Written(refs, r, i + 1, c, v) == if refs[r[i].0] == c then r[i].1 else Written(refs, r, i, c, v)
  {}

  /** No other cell is written. */
  lemma RestoredOnly(refs: map<string, Cell>, r: Reading, n: nat, x: string, v: U64)
    requires n <= |r| && x in refs && forall e :: e in r && e.0 in refs ==> refs[e.0] != refs[x]
    ensures Written(refs, r, n, refs[x], v) == v
  {
    forall j | 0 <= j < n && r[j].0 in refs ensures refs[r[j].0] != refs[x] { assert r[j] in r; }
  }

  lemma RestoredAll(refs: map<string, Cell>, r: Reading, e: Entry, v: U64)
    requires AliasesAgree(refs, r) && e in r && e.0 in refs
    ensures Written(refs, r, |r|, refs[e.0], v) == e.1
  {
    var i :| 0 <= i < |r| && r[i] == e;
    assert LastFor(refs, r, |r|, refs[e.0]) >= i;
  }

  // ----- beats -----

  /** The values read at a beat, and how many of them have been added. */
  datatype Taken = Taken(r: Reading, added: nat)

  function Part(b: Taken, i: nat): nat { if i < b.added && i < |b.r| then b.r[i].1 else 0 }

  /** The sum, over the beats, of the `i`-th value where it was added; it is not bounded. */
  ghost function Sum(bs: seq<Taken>, i: nat): nat {
    if bs == [] then 0 else Sum(bs[..|bs| - 1], i) + Part(bs[|bs| - 1], i)
  }

  /** The same cells have the same sums if every beat has added the values of both names or of none. */
  lemma {:induction false} SumsAgree(seen: map<string, Cell>, bs: seq<Taken>, names: seq<string>, i: nat, j: nat)
    requires i < |names| && j < |names| && forall b :: b in bs ==> BeatLike(b, names, seen)
    requires Same(seen, names[i], names[j])
    requires forall b :: b in bs ==> (i < b.added <==> j < b.added)
    ensures Sum(bs, i) == Sum(bs, j)
  {
    if bs != [] {
      var n := |bs| - 1;
      assert bs[n] in bs && forall b :: b in bs[..n] ==> b in bs;
      SumsAgree(seen, bs[..n], names, i, j);
    }
  }

  /** The value is the sum of the `i`-th values modulo 2^64. */
  ghost predicate IsSum(v: U64, bs: seq<Taken>, i: nat) {
    v == Sum(bs, i) % 0x1_0000_0000_0000_0000
  }

  /** The storage holds, under every name, the sum of what was added modulo 2^64. */
  ghost predicate Holds(vals: Reading, names: seq<string>, bs: seq<Taken>) {
    Names(vals) == names && |vals| == |names| && forall i :: 0 <= i < |names| ==> IsSum(vals[i].1, bs, i)
  }

  lemma HoldsFirst(r: Reading)
    ensures Holds(r, Names(r), [Taken(r, |r|)])
  {
    var b := Taken(r, |r|);
    forall i | 0 <= i < |r| ensures Sum([b], i) == r[i].1 { assert [b][..0] == []; }
  }

  lemma HoldsNames(vals: Reading, names: seq<string>, bs: seq<Taken>)
    requires Holds(vals, names, bs)
    ensures Names(vals) == names && |vals| == |names|
  {}

  /** A beat adds to the first `n` values. */
  lemma HoldsNext(vals: Reading, names: seq<string>, bs: seq<Taken>, r: Reading, n: nat)
    requires Holds(vals, names, bs) && n <= |vals| && n <= |r|
    ensures Holds(Merged(Plus, vals, r, n), names, bs + [Taken(r, n)])
  {
    MergedNames(Plus, vals, r, n);
    hide Sum, Plus, IsSum, Merged, Names;
    forall i | 0 <= i < |names| ensures IsSum(Merged(Plus, vals, r, n)[i].1, bs + [Taken(r, n)], i) {
      IsSumNext(vals[i].1, bs, Taken(r, n), i);
    }
  }

  lemma IsSumNext(v: U64, bs: seq<Taken>, b: Taken, i: nat)
    requires IsSum(v, bs, i) && b.added <= |b.r|
    ensures IsSum(if i < b.added then Plus(v, b.r[i].1) else v, bs + [b], i)
  {
    hide Sum, Plus;
    SumNext(bs, b, i);
    if i < b.added { PlusMod(Sum(bs, i), v, b.r[i].1); }
  }

  lemma SumNext(bs: seq<Taken>, b: Taken, i: nat)
    ensures Sum(bs + [b], i) == Sum(bs, i) + Part(b, i)
  {
    assert (bs + [b])[..|bs|] == bs && (bs + [b])[|bs|] == b;
  }

  lemma PlusMod(s: nat, x: U64, v: U64)
    requires x == s % 0x1_0000_0000_0000_0000
    ensures Plus(x, v) == (s + v) % 0x1_0000_0000_0000_0000
  {
    var q := s / 0x1_0000_0000_0000_0000;
    assert s + v == 0x1_0000_0000_0000_0000 * q + (x + v);
  }

  predicate Same(refs: map<string, Cell>, x: string, y: string) {
    x in refs && y in refs && refs[x] == refs[y]
  }

  /** The values that were added are those of the names, and agree wherever two names stand for one cell. */
  ghost predicate BeatLike(b: Taken, names: seq<string>, seen: map<string, Cell>) {
    && b.added <= |b.r| && b.added <= |names|
    && forall i, j :: 0 <= i < b.added && 0 <= j < b.added && Same(seen, names[i], names[j]) ==> b.r[i].1 == b.r[j].1
  }

  ghost predicate AllLike(bs: seq<Taken>, names: seq<string>, seen: map<string, Cell>) {
    forall b :: b in bs ==> BeatLike(b, names, seen)
  }

  lemma AllLikeNext(bs: seq<Taken>, names: seq<string>, seen: map<string, Cell>, b: Taken)
    requires AllLike(bs, names, seen) && BeatLike(b, names, seen)
    ensures AllLike(bs + [b], names, seen)
  {
    hide BeatLike;
  }

  /** Every value was added at every beat. */
  ghost predicate Complete(bs: seq<Taken>, names: seq<string>) {
    forall b :: b in bs ==> b.added == |names|
  }

  /** How many names two lists have in common before the first difference. */
  ghost function Common(a: seq<string>, b: seq<string>): (n: nat)
    ensures n <= |a| && n <= |b| && a[..n] == b[..n]
    ensures n < |a| && n < |b| ==> a[n] != b[n]
    decreases a
  {
    if a != [] && b != [] && a[0] == b[0] then
      var n := Common(a[1..], b[1..]);
      assert a[..1 + n] == [a[0]] + a[1..][..n] && b[..1 + n] == [b[0]] + b[1..][..n];
      1 + n
    else 0
  }

  /** As far as the names agree the values are added. */
  lemma AgreeIsCommon(a: Reading, b: Reading)
    ensures Agree(a, b, 0) == Common(Names(a), Names(b))
  {
    AgreeFirst(a, b, 0);
    var n, m := Agree(a, b, 0), Common(Names(a), Names(b));
    assert forall k :: 0 <= k < m ==> Names(a)[..m][k] == Names(b)[..m][k];
  }

  lemma {:induction false} AgreeFirst(a: Reading, b: Reading, i: nat)
    requires i <= |a| && i <= |b|
    ensures var n := Agree(a, b, i);
            && (forall k :: i <= k < n ==> a[k].0 == b[k].0) && (n < |a| && n < |b| ==> a[n].0 != b[n].0)
    decreases |a| - i
  {
    if i < |a| && i < |b| && a[i].0 == b[i].0 { AgreeFirst(a, b, i + 1); }
  }

  /** The names stand for the same cells as before: none is ever bound anew. */
  ghost predicate SameCells(refs: map<string, Cell>, seen: map<string, Cell>, names: seq<string>) {
    forall x :: x in names ==> x in refs && x in seen && refs[x] == seen[x]
  }

  lemma ReadingLike(met: Metric, seen: map<string, Cell>, names: seq<string>, now: seq<string>, r: Reading)
    requires NamesIn(met, now) && IsReading(met, now, r)
    requires SameCells(met.refs, seen, names[..Common(names, now)])
    ensures BeatLike(Taken(r, Common(names, now)), names, seen)
  {
    var n := Common(names, now);
    forall i | 0 <= i < n
      ensures names[i] in met.refs && names[i] in seen && met.refs[names[i]] == seen[names[i]]
      ensures r[i].1 == met.refs[names[i]].value
    {
      assert names[..n][i] == now[..n][i];
      assert names[..n][i] in names[..n];
    }
  }

  lemma CommonSelf(names: seq<string>)
    ensures Common(names, names) == |names| && names[..|names|] == names
  {}

  /** The last of the names that stands for the cell. */
  ghost function LastName(refs: map<string, Cell>, names: seq<string>, c: Cell): (k: int)
    ensures -1 <= k < |names| && (k >= 0 ==> names[k] in refs && refs[names[k]] == c)
    ensures forall j :: k < j < |names| && names[j] in refs ==> refs[names[j]] != c
  {
    if names == [] then -1
    else
      var n := |names| - 1;
      if names[n] in refs && refs[names[n]] == c then n else LastName(refs, names[..n], c)
  }

  lemma LastForName(refs: map<string, Cell>, r: Reading, c: Cell)
    ensures LastFor(refs, r, |r|, c) == LastName(refs, Names(r), c)
  {
    var i, j := LastFor(refs, r, |r|, c), LastName(refs, Names(r), c);
    assert forall k :: 0 <= k < |r| ==> Names(r)[k] == r[k].0;
    assert i >= 0 ==> r[i].0 == Names(r)[i];
    assert j >= 0 ==> r[j].0 == Names(r)[j];
  }

  /** What the cell behind a name holds once the sums are written back. */
  lemma SumWritten(refs: map<string, Cell>, vals: Reading, names: seq<string>, bs: seq<Taken>, i: nat, v: U64)
    requires Holds(vals, names, bs) && i < |names| && names[i] in refs
    ensures var k := LastName(refs, names, refs[names[i]]);
            k >= 0 && Written(refs, vals, |vals|, refs[names[i]], v) == Sum(bs, k) % 0x1_0000_0000_0000_0000
  {
    hide Sum, LastFor, LastName, Names;
    LastForName(refs, vals, refs[names[i]]);
  }

  lemma AllFound(refs: map<string, Cell>, vals: Reading, names: seq<string>)
    requires Names(vals) == names && forall x :: x in names ==> x in refs
    ensures Found(refs, vals, 0) == |vals| && forall e :: e in vals ==> e.0 in refs
  {
    hide Found;
    forall k | 0 <= k < |vals| ensures vals[k].0 in refs { assert Names(vals)[k] in names; }
  }

  /** If all values were added it does not matter which of a cell's names is the last. */
  lemma AnySum(refs: map<string, Cell>, seen: map<string, Cell>, names: seq<string>, bs: seq<Taken>, i: nat)
    requires AllLike(bs, names, seen) && Complete(bs, names) && SameCells(refs, seen, names) && i < |names|
    ensures names[i] in refs && var k := LastName(refs, names, refs[names[i]]); k >= 0 && Sum(bs, k) == Sum(bs, i)
  {
    hide Sum, BeatLike, LastName;
    assert names[i] in names;
    var k := LastName(refs, names, refs[names[i]]);
    assert names[k] in names;
    SumsAgree(seen, bs, names, k, i);
  }

  class SumAggregator {
    var met: Metric?
    var first: bool
    var storage: Storage
    ghost var beats: seq<Taken>
    ghost var names: seq<string>      // at the first beat
    ghost var seen: map<string, Cell> // the cells behind the names at the first beat

    ghost predicate Valid()
      reads this, storage
    {
      && storage.Valid() && first == (beats == [])
      && AllLike(beats, names, seen)
      && if first then storage.vals == [] else Holds(storage.vals, names, beats)
    }

    constructor ()
      ensures Valid() && fresh(storage) && met == null && beats == []
    {
      met, first, beats, names, seen := null, true, [], [], map[];
      storage := new Storage();
    }

    /** The metric is set once. */
    method Init(m: Metric) returns (ok: bool)
      requires Valid()
      modifies this`met
      ensures Valid() && (ok <==> old(met) == null) && met == if ok then m else old(met)
    {
      if met != null { return false; }
      met := m;
      ok := true;
    }

    /** One beat; `now` are the names of the metric.  It fails exactly if they are not those of the first
        beat, and has then added the values of the names before the first difference. */
    method Beat(now: seq<string>) returns (ok: bool)
      requires Valid() && met != null && NamesIn(met, now)
      requires !first ==> SameCells(met.refs, seen, names[..Common(names, now)])
      modifies this`first, this`beats, this`names, this`seen, storage
      ensures Valid() && !first && names == if old(first) then now else old(names)
      ensures ok <==> old(first) || now == old(names)
      ensures exists r :: IsReading(met, now, r) && beats == old(beats) + [Taken(r, Common(names, now))]
    {
      if first {
        first := false;
        DoFirstBeat(now);
        ok := true;
      } else {
        ok := DoBeat(now);
      }
    }

    method DoFirstBeat(now: seq<string>)
      requires storage.Valid() && met != null && NamesIn(met, now) && beats == [] && !first
      modifies this`beats, this`names, this`seen, storage
      ensures Valid() && names == now && exists r :: IsReading(met, now, r) && beats == [Taken(r, Common(names, now))]
    {
      hide Holds, Sum, AliasesAgree, AllLike, BeatLike, Sorted, Common;
      var r := Checkpoint(met, now);
      HoldsFirst(r);
      CommonSelf(now);
      ReadingLike(met, met.refs, now, now, r);
      AllLikeOne(now, met.refs, Taken(r, |r|));
      storage.vals := r;
      beats, names, seen := [Taken(r, |r|)], now, met.refs;
    }

    method DoBeat(now: seq<string>) returns (ok: bool)
      requires Valid() && met != null && NamesIn(met, now) && !first
      requires SameCells(met.refs, seen, names[..Common(names, now)])
      modifies this`beats, storage
      ensures Valid() && (ok <==> now == names)
      ensures exists r :: IsReading(met, now, r) && beats == old(beats) + [Taken(r, Common(names, now))]
    {
      hide Agree, Sum, AliasesAgree, Sorted, Holds, AllLike, BeatLike, Merged, Names, NameSet, IsSum, Common;
      var r := Checkpoint(met, now);
      HoldsNames(storage.vals, names, beats);
      SameNames(storage.vals, r);
      AgreeAll(storage.vals, r, 0);
      AgreeIsCommon(storage.vals, r);
      HoldsNext(storage.vals, names, beats, r, Common(names, now));
      ReadingLike(met, seen, names, now, r);
      AllLikeNext(beats, names, seen, Taken(r, Common(names, now)));
      ok := storage.Add(r);
      beats := beats + [Taken(r, Common(names, now))];
    }

    /** The end: the metric shows the sums of what was added; of several names for one cell the last
        one counts, which makes no difference if no beat has failed. */
    method LastBeat() returns (ok: bool)
      requires Valid() && met != null && !first && SameCells(met.refs, seen, names)
      modifies set x | x in met.refs :: met.refs[x]
      ensures ok && forall i :: 0 <= i < |names| ==>
                var k := LastName(met.refs, names, met.refs[names[i]]);
                k >= 0 && met.refs[names[i]].value == Sum(beats, k) % 0x1_0000_0000_0000_0000
      ensures Complete(beats, names) ==>
                forall i :: 0 <= i < |names| ==> met.refs[names[i]].value == Sum(beats, i) % 0x1_0000_0000_0000_0000
    {
      hide Sum, Sorted, AllLike, Holds, Complete, Found, Written, LastName, Names;
      HoldsNames(storage.vals, names, beats);
      AllFound(met.refs, storage.vals, names);
      ghost var vals := storage.vals;
      ok := Restore(met, storage.vals);
      forall i | 0 <= i < |names|
        ensures var k := LastName(met.refs, names, met.refs[names[i]]);
                k >= 0 && met.refs[names[i]].value == Sum(beats, k) % 0x1_0000_0000_0000_0000
      {
        assert names[i] in names;
        SumWritten(met.refs, vals, names, beats, i, old(met.refs[names[i]].value));
      }
      if Complete(beats, names) {
        forall i | 0 <= i < |names|
          ensures met.refs[names[i]].value == Sum(beats, i) % 0x1_0000_0000_0000_0000
        {
          AnySum(met.refs, seen, names, beats, i);
        }
      }
    }
  }

  lemma AllLikeOne(names: seq<string>, seen: map<string, Cell>, b: Taken)
    requires BeatLike(b, names, seen)
    ensures AllLike([b], names, seen)
  {}
}
