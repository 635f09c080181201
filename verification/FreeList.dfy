/** The reference allocators of src/libluabind/ref.cpp and src/libluabind/weak_ref.cpp:
    free lists threaded through the Lua table that they allocate from. */
module FreeList {

  datatype Value = Nil | Num(n: int) | Obj(id: nat)

  /** The integer keys of a Lua table; a missing key is nil. */
  type Cells = map<int, Value>

  function Get(t: Cells, k: int): Value { if k in t then t[k] else Nil }

  /** lua_rawseti: storing nil removes the key. */
  function Put(t: Cells, k: int, v: Value): Cells {
    if v == Nil then map i | i in t && i != k :: t[i] else t[k := v]
  }

  /** lua_tonumber. */
  function ToInt(v: Value): int { if v.Num? then v.n else 0 }

  lemma GetPut(t: Cells, k: int, v: Value, i: int)
    ensures Get(Put(t, k, v), i) == if i == k then v else Get(t, i)
  {}

  const FREELIST := 1   // FREELIST_REF and freelist_ref
  const SIZES := 2      // ARRAYSIZE_REF and count_ref
  const REFNIL := -1

  // ----- the allocator as a set -----

  /** The references in use with their values, the freed ones in the order in which
      they will be used again, and the last one ever made; the first `base` are not
      the allocator's. */
  datatype Alloc = Alloc(live: map<int, Value>, free: seq<int>, base: int, top: int)

  ghost predicate Ok(a: Alloc) {
    && SIZES <= a.base <= a.top
    && (forall i, j :: 0 <= i < j < |a.free| ==> a.free[i] != a.free[j])
    && (forall r :: r in a.live ==> r !in a.free)
    && (forall r :: a.base < r <= a.top <==> r in a.live || r in a.free)
  }

  function Take(a: Alloc, v: Value): (r: (Alloc, int)) {
    if a.free != [] then (a.(live := a.live[a.free[0] := v], free := a.free[1..]), a.free[0])
    else (a.(live := a.live[a.top + 1 := v], top := a.top + 1), a.top + 1)
  }

  function Give(a: Alloc, r: int): Alloc {
    a.(live := a.live - {r}, free := [r] + a.free)
  }

  /** A new reference is none of those in use and leaves them as they are. */
  lemma TakeIsFresh(a: Alloc, v: Value)
    requires Ok(a)
    ensures var (a', r) := Take(a, v);
            && Ok(a') && r !in a.live && r > SIZES
            && a'.live == a.live[r := v]
  {
    var (a', r) := Take(a, v);
    if a.free != [] {
      assert r in a.free;
      assert a.free == [r] + a.free[1..];
    }
  }

  lemma GiveOk(a: Alloc, r: int)
    requires Ok(a) && r in a.live
    ensures Ok(Give(a, r))
  {
    var a' := Give(a, r);
    assert forall x :: x in a'.free <==> x == r || x in a.free;
  }

  // ----- the allocator as a chain through the table -----

  /** From `start` the cells lead through exactly `free` and then end. */
  ghost predicate Chain(t: Cells, start: int, free: seq<int>)
    decreases |free|
  {
    if free == [] then start == 0
    else start == free[0] != 0 && Chain(t, ToInt(Get(t, start)), free[1..])
  }

  /** The table stores `a`. */
  ghost predicate Stores(t: Cells, a: Alloc) {
    && Ok(a)
    && Chain(t, ToInt(Get(t, FREELIST)), a.free)
    && forall r :: r in a.live ==> Get(t, r) == a.live[r]
  }

  /** Taking the first element off the chain, and putting one on it. */
  function Popped(t: Cells, v: Value): Cells {
    var r := ToInt(Get(t, FREELIST));
    Put(Put(t, FREELIST, Get(t, r)), r, v)
  }

  function Pushed(t: Cells, r: int): Cells {
    Put(Put(t, r, Get(t, FREELIST)), FREELIST, Num(r))
  }

  /** A chain does not depend on the cells beside it. */
  lemma {:induction false} ChainFrame(t: Cells, t': Cells, start: int, free: seq<int>)
    requires Chain(t, start, free)
    requires forall r :: r in free ==> Get(t', r) == Get(t, r)
    ensures Chain(t', start, free)
    decreases |free|
  {
    if free != [] {
      assert start in free;
      ChainFrame(t, t', ToInt(Get(t, start)), free[1..]);
    }
  }

  /** A table leads through one chain only. */
  lemma {:induction false} ChainUnique(t: Cells, start: int, f: seq<int>, g: seq<int>)
    requires Chain(t, start, f) && Chain(t, start, g)
    ensures f == g
    decreases |f|
  {
    if f != [] && g != [] {
      ChainUnique(t, ToInt(Get(t, start)), f[1..], g[1..]);
      assert f == [f[0]] + f[1..] && g == [g[0]] + g[1..];
    }
  }

  lemma PopStores(t: Cells, a: Alloc, v: Value)
    requires Stores(t, a) && ToInt(Get(t, FREELIST)) != 0
    ensures a.free != [] && ToInt(Get(t, FREELIST)) == a.free[0]
    ensures Stores(Popped(t, v), Take(a, v).0)
  {
    TakeIsFresh(a, v);
    var r := a.free[0];
    var t' := Popped(t, v);
    assert a.free == [r] + a.free[1..];
    forall k ensures Get(t', k) == if k == r then v else if k == FREELIST then Get(t, r) else Get(t, k) {
      GetPut(t, FREELIST, Get(t, r), k);
      GetPut(Put(t, FREELIST, Get(t, r)), r, v, k);
    }
    ChainFrame(t, t', ToInt(Get(t, r)), a.free[1..]);
  }

  /** With an empty chain a cell behind all others is used. */
  lemma AppendStores(t: Cells, a: Alloc, v: Value, t': Cells)
    requires Stores(t, a) && ToInt(Get(t, FREELIST)) == 0
    requires forall k :: Get(t', k) == if k == a.top + 1 then v else if k == SIZES then Get(t', SIZES) else Get(t, k)
    ensures a.free == [] && Stores(t', Take(a, v).0)
  {
    TakeIsFresh(a, v);
  }

  lemma LiveAbove(t: Cells, a: Alloc, r: int)
    requires Stores(t, a)
    ensures SIZES <= a.base <= a.top && (r in a.live ==> a.base < r <= a.top)
  {}

  lemma PushedGet(t: Cells, r: int, k: int)
    ensures Get(Pushed(t, r), k) == if k == FREELIST then Num(r) else if k == r then Get(t, FREELIST) else Get(t, k)
  {
    GetPut(t, r, Get(t, FREELIST), k);
    GetPut(Put(t, r, Get(t, FREELIST)), FREELIST, Num(r), k);
  }

  lemma PushStores(t: Cells, a: Alloc, r: int)
    requires Stores(t, a) && r in a.live
    ensures Stores(Pushed(t, r), Give(a, r))
  {
    GiveOk(a, r);
    var t', a' := Pushed(t, r), Give(a, r);
    forall k ensures Get(t', k) == if k == FREELIST then Num(r) else if k == r then Get(t, FREELIST) else Get(t, k) {
      PushedGet(t, r, k);
    }
    ChainFrame(t, t', ToInt(Get(t, FREELIST)), a.free);
    assert a'.free[1..] == a.free && a'.free[0] == r;
  }

  /** Giving a reference back is right exactly for one that is in use: one that is not
      leaves a table which stores no allocator that owns the same cells. */
  lemma PushIff(t: Cells, a: Alloc, r: int)
    requires Stores(t, a) && r > 0
    ensures (exists a' :: Stores(Pushed(t, r), a') && a'.base == a.base && a'.top == a.top) <==> r in a.live
  {
    if r in a.live {
      PushStores(t, a, r);
    }
    forall a' | Stores(Pushed(t, r), a') && a'.base == a.base && a'.top == a.top
      ensures r in a.live
    {
      PushedGet(t, r, FREELIST);
      PushedGet(t, r, r);
      assert a'.free != [] && a'.free[0] == r && r in a'.free;
      if r !in a.live {
        assert r in a.free;
        var i :| 0 <= i < |a.free| && a.free[i] == r;
        BackToStart(t, a.free, i, a'.free[1..], ToInt(Get(t, FREELIST)), r);
      }
    }
  }

  /** The free references count as in use, with whatever their cells hold. */
  ghost function Lost(t: Cells, a: Alloc): Alloc {
    a.(live := map r | r in a.live.Keys + (set x | x in a.free) :: Get(t, r), free := [])
  }

  /** Giving back reference 0, which none has been given, ends the chain: the free references are lost for
      good, and that is harmless exactly if there are none. */
  lemma PushZero(t: Cells, a: Alloc)
    requires Stores(t, a)
    ensures Stores(Pushed(t, 0), Lost(t, a))
    ensures forall r :: r in a.live ==> r in Lost(t, a).live && Lost(t, a).live[r] == a.live[r]
    ensures Stores(Pushed(t, 0), a) <==> a.free == []
  {
    var t', a' := Pushed(t, 0), Lost(t, a);
    forall k ensures Get(t', k) == if k == FREELIST then Num(0) else if k == 0 then Get(t, FREELIST) else Get(t, k) {
      PushedGet(t, 0, k);
    }
    if a.free == [] {
      assert a'.free == a.free && Chain(t', 0, []);
    }
  }

  /** A reference given back twice closes a circle: the chain that follows it comes
      back to it. */
  lemma {:induction false} BackToStart(t: Cells, free: seq<int>, i: nat, rest: seq<int>, start: int, r: int)
    requires Chain(t, start, free) && i < |free| && free[i] == r && r != FREELIST && FREELIST !in free
    requires Chain(Pushed(t, r), start, rest)
    ensures r in rest
    decreases i
  {
    if free[0] != r {
      PushedGet(t, r, free[0]);
      assert rest[0] == free[0];
      assert forall x :: x in free[1..] ==> x in free;
      BackToStart(t, free[1..], i - 1, rest[1..], ToInt(Get(t, start)), r);
    }
  }

  // ----- runs -----

  /** What a user does with references, and what the garbage collector does with the
      values of weak ones. */
  datatype Op = Ref(v: Value) | Unref(r: int) | Collect(r: int)

  ghost predicate Legal(a: Alloc, op: Op) {
    match op
    case Ref(_) => true
    case Unref(r) => r in a.live
    case Collect(r) => r in a.live
  }

  function Apply(a: Alloc, op: Op): Alloc {
    match op
    case Ref(v) => Take(a, v).0
    case Unref(r) => Give(a, r)
    case Collect(r) => a.(live := a.live[r := Nil])
  }

  ghost predicate LegalRun(a: Alloc, ops: seq<Op>)
    decreases |ops|
  {
    ops == [] || (Legal(a, ops[0]) && LegalRun(Apply(a, ops[0]), ops[1..]))
  }

  function Run(a: Alloc, ops: seq<Op>): Alloc
    decreases |ops|
  {
    if ops == [] then a else Run(Apply(a, ops[0]), ops[1..])
  }

  /** Over every run of legal operations a reference in use keeps its value until it is
      given back or collected, and the chain stays one without circles. */
  lemma {:induction false} LiveStaysLive(a: Alloc, ops: seq<Op>, r: int)
    requires Ok(a) && LegalRun(a, ops) && r in a.live
    requires forall i :: 0 <= i < |ops| ==> ops[i] != Unref(r) && ops[i] != Collect(r)
    ensures Ok(Run(a, ops)) && r in Run(a, ops).live && Run(a, ops).live[r] == a.live[r]
    decreases |ops|
  {
    if ops != [] {
      assert ops[0] != Unref(r) && ops[0] != Collect(r);
      match ops[0] {
        case Ref(v) => TakeIsFresh(a, v);
        case Unref(q) => GiveOk(a, q);
        case Collect(q) => assert Ok(Apply(a, ops[0]));
      }
      LiveStaysLive(Apply(a, ops[0]), ops[1..], r);
    }
  }

  /** A reference whose value the collector has cleared stays in use without one over every such run,
      so no other value can get it, until it is given back. */
  lemma CollectedStays(a: Alloc, r: int, ops: seq<Op>)
    requires Ok(a) && r in a.live && LegalRun(Apply(a, Collect(r)), ops)
    requires forall i :: 0 <= i < |ops| ==> ops[i] != Unref(r) && ops[i] != Collect(r)
    ensures var a' := Run(Apply(a, Collect(r)), ops); r in a'.live && r !in a'.free && a'.live[r] == Nil
  {
    assert Ok(Apply(a, Collect(r)));
    LiveStaysLive(Apply(a, Collect(r)), ops, r);
  }

  // ----- ref.cpp -----

  /** checkint: the value of a number, -1 for anything else. */
  function CheckInt(v: Value): int { if v.Num? then v.n else -1 }

  class Registry {
    var cells: Cells   // the integer keys of the registry
    var n: Value       // its field "n"
    var sizes: Value   // its entry in the table of sizes, which cell SIZES refers to
    ghost var alloc: Alloc

    /** The number of elements that is written down somewhere, or -1. */
    function Noted(): int
      reads this
    {
      if CheckInt(n) >= 0 then CheckInt(n)
      else if Get(cells, SIZES) != Nil then CheckInt(sizes)
      else -1
    }

    /** Where new references are made: behind the number of elements noted, or else
        behind the first `alloc.top` cells, which are all in use. */
    ghost predicate SizeOk()
      reads this
    {
      if Noted() >= 0 then alloc.top == if Noted() < SIZES then SIZES else Noted()
      else if Get(cells, FREELIST) == Nil then alloc.top == alloc.base == SIZES
      else
        && alloc.top == alloc.base && Get(cells, alloc.top + 1) == Nil
        && forall k :: 1 <= k <= alloc.top && k != SIZES ==> Get(cells, k) != Nil
    }

    ghost predicate Valid()
      reads this
    {
      Stores(cells, alloc) && SizeOk()
    }

    /** A registry that others have used before, but not through ref. */
    constructor (cells: Cells, n: Value, ghost base: int)
      requires ToInt(Get(cells, FREELIST)) == 0 && Get(cells, SIZES) == Nil && base >= SIZES
      requires if CheckInt(n) >= 0 then base == if CheckInt(n) < SIZES then SIZES else CheckInt(n)
               else if Get(cells, FREELIST) == Nil then base == SIZES
               else Get(cells, base + 1) == Nil && forall k :: 1 <= k <= base && k != SIZES ==> Get(cells, k) != Nil
      ensures Valid() && alloc == Alloc(map[], [], base, base)
    {
      this.cells, this.n, sizes := cells, n, Nil;
      alloc := Alloc(map[], [], base, base);
    }

    method GetSizes()
      modifies this
      ensures Get(cells, SIZES) != Nil && Noted() == old(Noted()) && n == old(n) && alloc == old(alloc)
      ensures forall k :: k != SIZES ==> Get(cells, k) == Get(old(cells), k)
    {
      if Get(cells, SIZES) == Nil {
        forall k ensures Get(Put(cells, SIZES, Obj(0)), k) == if k == SIZES then Obj(0) else Get(cells, k) {
          GetPut(cells, SIZES, Obj(0), k);
        }
        sizes := Nil;
        cells := Put(cells, SIZES, Obj(0));
      }
    }

    /** luaL_setn. */
    method SetN(m: int)
      requires m >= 0
      modifies this
      ensures Noted() == m && alloc == old(alloc)
      ensures forall k :: k != SIZES ==> Get(cells, k) == Get(old(cells), k)
    {
      if CheckInt(n) >= 0 {
        n := Num(m);
      } else {
        GetSizes();
        sizes := Num(m);
      }
    }

    /** luaL_getn: what is noted, or else the elements are counted. */
    method GetN() returns (m: int)
      requires Valid()
      modifies this
      ensures alloc == old(alloc) && alloc.top == if m < SIZES then SIZES else m
      ensures forall k :: k != SIZES ==> Get(cells, k) == Get(old(cells), k)
    {
      m := CheckInt(n);
      if m >= 0 { return; }
      GetSizes();
      m := CheckInt(sizes);
      if m >= 0 { return; }
      m := 1;
      while Get(cells, m) != Nil
        invariant 1 <= m <= alloc.top + 1
        invariant Get(cells, FREELIST) == Nil ==> m == 1
        decreases alloc.top + 1 - m
      {
        m := m + 1;
      }
      m := m - 1;
    }

    method Ref(v: Value) returns (ref: int)
      requires Valid()
      modifies this
      ensures Valid()
      ensures (alloc, ref) == if v == Nil then (old(alloc), REFNIL) else Take(old(alloc), v)
    {
      if v == Nil {
        return REFNIL;
      }
      hide Chain, Stores, Ok, Take, Put;
      ghost var t := cells;
      ref := ToInt(Get(cells, FREELIST));
      if ref != 0 {
        PopStores(t, alloc, v);
        cells := Put(cells, FREELIST, Get(cells, ref));
      } else {
        ref := GetN();
        if ref < SIZES {
          ref := SIZES;
        }
        ref := ref + 1;
        SetN(ref);
      }
      forall k ensures Get(Put(cells, ref, v), k) == if k == ref then v else Get(cells, k) {
        GetPut(cells, ref, v, k);
      }
      cells := Put(cells, ref, v);
      if ToInt(Get(t, FREELIST)) == 0 {
        AppendStores(t, alloc, v, cells);
      }
      alloc := Take(alloc, v).0;
    }

    method Unref(ref: int)
      requires Valid() && (ref > 0 ==> ref in alloc.live)
      requires ref == 0 ==> Noted() >= 0 || Get(cells, FREELIST) != Nil
      modifies this
      ensures Valid()
      ensures alloc == if ref > 0 then Give(old(alloc), ref)
                       else if ref == 0 then Lost(old(cells), old(alloc))
                       else old(alloc)
    {
      hide Stores, Put;
      if ref >= 0 {
        LiveAbove(cells, alloc, ref);
        if ref > 0 { PushStores(cells, alloc, ref); } else { PushZero(cells, alloc); }
        ghost var t := cells;
        ghost var a := if ref > 0 then Give(alloc, ref) else Lost(cells, alloc);
        forall k ensures Get(Pushed(cells, ref), k) ==
                         if k == FREELIST then Num(ref) else if k == ref then Get(cells, FREELIST) else Get(cells, k) {
          PushedGet(cells, ref, k);
        }
        cells := Put(cells, ref, Get(cells, FREELIST));
        cells := Put(cells, FREELIST, Num(ref));
        alloc := a;
        assert cells == Pushed(t, ref);
      }
    }
  }

  // ----- weak_ref.cpp -----

  /** What several handles share. */
  class Impl {
    var count: int
    const ref: int
    ghost var holders: set<Handle>   // the handles that share it

    constructor (ref: int)
      ensures count == 0 && this.ref == ref && holders == {}
    {
      count, this.ref, holders := 0, ref, {};
    }

    method Join(h: Handle)
      requires h !in holders && count == |holders|
      modifies this
      ensures holders == old(holders) + {h} && count == |holders|
    {
      count := count + 1;
      holders := holders + {h};
    }

    /** The count goes down by one; `last` says that it has reached zero. */
    method Drop(h: Handle) returns (last: bool)
      requires h in holders && count == |holders|
      modifies this
      ensures holders == old(holders) - {h} && count == |holders|
      ensures last == (count == 0) == (old(holders) == {h})
    {
      Single(holders, h);
      count := count - 1;
      holders := holders - {h};
      last := count == 0;
    }

    /** The count is right: the holders are handles that refer to this object. */
    ghost predicate Counted(handles: set<Handle>)
      reads this, handles
    {
      count == |holders| > 0 && holders <= handles && forall h :: h in holders ==> h.impl == this
    }
  }

  /** A weak_ref object. */
  class Handle {
    var impl: Impl?

    constructor (impl: Impl?)
      ensures this.impl == impl
    {
      this.impl := impl;
    }
  }

  lemma Single(hs: set<Handle>, h: Handle)
    requires h in hs
    ensures |hs - {h}| == |hs| - 1
    ensures |hs| == 1 <==> hs == {h}
  {
    assert hs == hs - {h} + {h};
  }

  /** The shared objects and the references in use belong together one by one. */
  ghost predicate Owned(impls: set<Impl>, live: map<int, Value>) {
    && (forall i :: i in impls ==> i.ref in live)
    && (forall i, j :: i in impls && j in impls && i.ref == j.ref ==> i == j)
    && (forall r :: r in live ==> exists i :: i in impls && i.ref == r)
  }

  class WeakTable {
    var cells: Cells
    ghost var alloc: Alloc
    ghost var handles: set<Handle>
    ghost var impls: set<Impl>

    /** The cells store the allocator, and cell 2 counts the references. */
    ghost predicate TableOk()
      reads this
    {
      Stores(cells, alloc) && Get(cells, SIZES) == Num(alloc.top)
    }

    /** Every reference in use belongs to one shared object, whose count is the number
        of handles that share it, at least one. */
    ghost predicate Valid()
      reads this, handles, impls
    {
      TableOk() && Owned(impls, alloc.live) && Linked(handles, impls)
    }

    ghost predicate Linked(handles: set<Handle>, impls: set<Impl>)
      reads handles, impls
    {
      && (forall h :: h in handles && h.impl != null ==> h.impl in impls && h in h.impl.holders)
      && (forall i :: i in impls ==> i.Counted(handles))
    }

    /** get_weak_table, the first time. */
    constructor ()
      ensures Valid() && alloc == Alloc(map[], [], SIZES, SIZES) && handles == {} && impls == {}
    {
      cells := map[FREELIST := Num(0), SIZES := Num(SIZES)];
      alloc := Alloc(map[], [], SIZES, SIZES);
      handles, impls := {}, {};
    }

    /** The allocation in the constructor of impl. */
    method Allocate(v: Value) returns (ref: int)
      requires TableOk()
      modifies this`cells, this`alloc
      ensures TableOk() && (alloc, ref) == Take(old(alloc), v)
    {
      ghost var t := cells;
      ref := ToInt(Get(cells, FREELIST));
      if ref == 0 {
        ref := ToInt(Get(cells, SIZES)) + 1;
        forall k ensures Get(Put(Put(t, SIZES, Num(ref)), ref, v), k) ==
          if k == ref then v else if k == SIZES then Num(ref) else Get(t, k)
        {
          GetPut(t, SIZES, Num(ref), k);
          GetPut(Put(t, SIZES, Num(ref)), ref, v, k);
        }
        cells := Put(cells, SIZES, Num(ref));
        cells := Put(cells, ref, v);
        AppendStores(t, alloc, v, cells);
      } else {
        PopStores(t, alloc, v);
        TakeIsFresh(alloc, v);
        GetPut(t, FREELIST, Get(t, ref), SIZES);
        GetPut(Put(t, FREELIST, Get(t, ref)), ref, v, SIZES);
        cells := Put(cells, FREELIST, Get(cells, ref));
        cells := Put(cells, ref, v);
      }
      alloc := Take(alloc, v).0;
    }

    /** The destructor of impl. */
    method Release(ref: int)
      requires TableOk() && ref in alloc.live
      modifies this`cells, this`alloc
      ensures TableOk() && alloc == Give(old(alloc), ref)
    {
      PushStores(cells, alloc, ref);
      PushedGet(cells, ref, SIZES);
      cells := Put(cells, ref, Get(cells, FREELIST));
      cells := Put(cells, FREELIST, Num(ref));
      alloc := Give(alloc, ref);
    }

    /** The collector forgets the value of a weak reference. */
    method Collected(ref: int)
      requires Valid() && ref in alloc.live
      modifies this`cells, this`alloc
      ensures Valid() && alloc == Apply(old(alloc), Collect(ref))
    {
      ghost var t := cells;
      forall k ensures Get(Put(cells, ref, Nil), k) == if k == ref then Nil else Get(cells, k) {
        GetPut(cells, ref, Nil, k);
      }
      cells := Put(cells, ref, Nil);
      ChainFrame(t, cells, ToInt(Get(t, FREELIST)), alloc.free);
      alloc := alloc.(live := alloc.live[ref := Nil]);
    }

    /** weak_ref(L, index): a new reference with one handle. */
    method Create(v: Value) returns (h: Handle)
      requires Valid()
      modifies this
      ensures Valid() && fresh(h) && h.impl != null && fresh(h.impl)
      ensures handles == old(handles) + {h} && impls == old(impls) + {h.impl} && h.impl.holders == {h}
      ensures (alloc, h.impl.ref) == Take(old(alloc), v)
    {
      TakeIsFresh(alloc, v);
      hide Stores, Owned, Ok;
      ghost var live := alloc.live;
      var ref := Allocate(v);
      assert Linked(handles, impls);
      assert alloc.live == live[ref := v];
      h := Adopt(ref, live);
    }

    /** A handle for a reference just made. */
    method Adopt(ref: int, ghost live: map<int, Value>) returns (h: Handle)
      requires TableOk() && Owned(impls, live) && Linked(handles, impls)
      requires ref !in live && alloc.live.Keys == live.Keys + {ref}
      modifies this`handles, this`impls
      ensures Valid() && fresh(h) && h.impl != null && fresh(h.impl) && h.impl.ref == ref
      ensures handles == old(handles) + {h} && impls == old(impls) + {h.impl} && h.impl.holders == {h}
    {
      hide Stores, Owned;
      h := NewHandle(ref);
      NewOwner(impls, live, h.impl, alloc.live);
      First(h, h.impl);
    }

    method NewHandle(ref: int) returns (h: Handle)
      ensures fresh(h) && h.impl != null && fresh(h.impl) && h.impl.ref == ref
    {
      var impl := new Impl(ref);
      h := new Handle(impl);
    }

    /** The first handle of a new object. */
    method First(h: Handle, impl: Impl)
      requires TableOk() && Owned(impls + {impl}, alloc.live) && Linked(handles, impls)
      requires h !in handles && impl !in impls && h.impl == impl
      modifies this`handles, this`impls, impl
      ensures Valid() && handles == old(handles) + {h} && impls == old(impls) + {impl} && impl.holders == {h}
    {
      hide Stores, Owned;
      ghost var impls0 := impls;
      forall k | k in handles && k.impl != null ensures k.impl != impl { assert k.impl in impls; }
      impl.count := 1;
      impl.holders := {h};
      handles, impls := handles + {h}, impls + {impl};
      forall i | i in impls0 ensures i.Counted(handles) { assert i.Counted(handles - {h}); }
    }

    lemma NewOwner(impls: set<Impl>, live: map<int, Value>, i: Impl, live': map<int, Value>)
      requires Owned(impls, live) && i.ref !in live && live'.Keys == live.Keys + {i.ref}
      ensures Owned(impls + {i}, live')
    {}

    /** weak_ref(other). */
    method Copy(other: Handle) returns (h: Handle)
      requires Valid() && other in handles
      modifies this`handles, impls
      ensures Valid() && fresh(h) && h.impl == other.impl && alloc == old(alloc)
      ensures handles == old(handles) + {h} && impls == old(impls)
      ensures h.impl != null ==> h.impl.holders == old(other.impl.holders) + {h}
    {
      hide Stores, Owned;
      h := new Handle(other.impl);
      Another(h);
    }

    /** Another handle of an object that has one. */
    method Another(h: Handle)
      requires Valid() && h !in handles && (h.impl != null ==> h.impl in impls)
      modifies this`handles, impls
      ensures Valid() && handles == old(handles) + {h}
      ensures h.impl != null ==> h.impl.holders == old(h.impl.holders) + {h}
    {
      hide Stores, Owned;
      if h.impl != null {
        h.impl.Join(h);
      }
      handles := handles + {h};
      forall k | k in handles && k.impl != null
        ensures k.impl in impls && k in k.impl.holders
      {
        assert k != h ==> k in handles - {h};
      }
      forall i | i in impls && i != h.impl ensures i.Counted(handles) { assert h !in i.holders; }
    }

    /** ~weak_ref: the reference is given back with its last handle, and not before. */
    method Destroy(h: Handle)
      requires Valid() && h in handles
      modifies this, impls
      ensures Valid() && handles == old(handles) - {h}
      ensures var last := h.impl != null && old(h.impl.holders) == {h};
              && alloc == (if last then Give(old(alloc), h.impl.ref) else old(alloc))
              && impls == (if last then old(impls) - {h.impl} else old(impls))
    {
      hide Stores, Give, Owned, Linked;
      var last := Leave(h);
      if last {
        OwnedLive(impls, alloc.live, h.impl);
        Disowned(impls, alloc, h.impl);
        Release(h.impl.ref);
        impls := impls - {h.impl};
      }
    }

    /** The handle `h` leaves its object; `last` says that no other is left. */
    method Leave(h: Handle) returns (last: bool)
      requires Linked(handles, impls) && h in handles
      modifies this`handles, impls
      ensures handles == old(handles) - {h} && (h.impl != null ==> h.impl in impls)
      ensures last == (h.impl != null && old(h.impl.holders) == {h})
      ensures Linked(handles, if last then impls - {h.impl} else impls)
    {
      last := false;
      handles := handles - {h};
      if h.impl == null {
        forall i | i in impls ensures i.Counted(handles) { assert h !in i.holders; }
      } else {
        last := h.impl.Drop(h);
        forall i | i in impls && i != h.impl ensures i.Counted(handles) { assert h !in i.holders; }
        assert !last ==> h.impl.Counted(handles);
      }
    }

    lemma OwnedLive(impls: set<Impl>, live: map<int, Value>, i: Impl)
      requires Owned(impls, live) && i in impls
      ensures i.ref in live
    {}

    lemma Disowned(impls: set<Impl>, a: Alloc, i: Impl)
      requires Owned(impls, a.live) && i in impls
      ensures Owned(impls - {i}, Give(a, i.ref).live)
    {}
  }
}
