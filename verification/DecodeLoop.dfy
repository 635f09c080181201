/** internal_decode of src/distorm/decoder.c: the entries that it writes tile the input. */
module DecodeLoop {
  import opened Basics
  import opened Seqs
  import opened Prefixes
  import opened Decoder
  import opened Yak

  /** An entry of the result; `db` is the byte of an entry that only defines a byte. */
  datatype DecodedInst = DecodedInst(offset: int, size: nat, db: Option<Byte>)

  datatype DecodeResult = Success | MemoryError

  function Sizes(es: seq<DecodedInst>): nat {
    if es == [] then 0 else es[0].size + Sizes(es[1..])
  }

  /** The entries lie next to each other from `p` to `q`, each with at least one byte, and
      the ones that define a byte show the byte at their place. */
  ghost predicate Tiles(es: seq<DecodedInst>, input: seq<Byte>, base: int, p: nat, q: nat)
    decreases |es|
  {
    if es == [] then p == q
    else
      && es[0].offset == base + p && es[0].size >= 1 && p + es[0].size <= |input|
      && (es[0].db.Some? ==> es[0].size == 1 && es[0].db.value == input[p])
      && Tiles(es[1..], input, base, p + es[0].size, q)
  }

  lemma {:induction false} SizesAppend(a: seq<DecodedInst>, b: seq<DecodedInst>)
    ensures Sizes(a + b) == Sizes(a) + Sizes(b)
  {
    EmptyAppend(b);
    if a != [] {
      ConsAppend(a, b);
      SizesAppend(a[1..], b);
    }
  }

  lemma {:induction false} TilesAppend(a: seq<DecodedInst>, b: seq<DecodedInst>, input: seq<Byte>, base: int, p: nat,
                                       m: nat, q: nat)
    requires Tiles(a, input, base, p, m) && Tiles(b, input, base, m, q)
    ensures Tiles(a + b, input, base, p, q)
    decreases |a|
  {
    EmptyAppend(b);
    if a != [] {
      ConsAppend(a, b);
      TilesAppend(a[1..], b, input, base, p + a[0].size, m, q);
    }
  }

  /** Tiles cover exactly what lies between their ends. */
  lemma {:induction false} TilesCover(es: seq<DecodedInst>, input: seq<Byte>, base: int, p: nat, q: nat)
    requires Tiles(es, input, base, p, q)
    ensures Sizes(es) == q - p
    decreases |es|
  {
    if es != [] { TilesCover(es[1..], input, base, p + es[0].size, q); }
  }

  /** The entries that define the bytes from `p` to `q` one by one. */
  function Bytes(input: seq<Byte>, base: int, p: nat, q: nat): (es: seq<DecodedInst>)
    requires p <= q <= |input|
    ensures |es| == q - p
    decreases q - p
  {
    if p == q then []
    else Bytes(input, base, p, q - 1) + [DecodedInst(base + q - 1, 1, Some(input[q - 1]))]
  }

  lemma OneTile(e: DecodedInst, input: seq<Byte>, base: int, p: nat)
    requires e.offset == base + p && e.size >= 1 && p + e.size <= |input|
    requires e.db.Some? ==> e.size == 1 && e.db.value == input[p]
    ensures Tiles([e], input, base, p, p + e.size) && Sizes([e]) == e.size
  {
    assert [e][1..] == [];
  }

  lemma {:induction false} BytesTile(input: seq<Byte>, base: int, p: nat, q: nat)
    requires p <= q <= |input|
    ensures Tiles(Bytes(input, base, p, q), input, base, p, q)
    decreases q - p
  {
    if p < q {
      BytesTile(input, base, p, q - 1);
      OneTile(DecodedInst(base + q - 1, 1, Some(input[q - 1])), input, base, q - 1);
      TilesAppend(Bytes(input, base, p, q - 1), [DecodedInst(base + q - 1, 1, Some(input[q - 1]))], input, base, p,
                  q - 1, q);
    }
  }

  /** Writes an entry. */
  method Put(result: array<DecodedInst>, nextPos: nat, e: DecodedInst) returns (next: nat)
    requires nextPos < result.Length
    modifies result
    ensures next == nextPos + 1 && result[..next] == old(result[..nextPos]) + [e]
  {
    result[nextPos] := e;
    next := nextPos + 1;
  }

  /** The loops that define dropped prefixes byte by byte. */
  method PutBytes(result: array<DecodedInst>, nextPos: nat, input: seq<Byte>, from0: nat, to0: nat, offset: int,
                  ghost base: int)
    returns (next: nat)
    requires from0 <= to0 <= |input| && nextPos + (to0 - from0) <= result.Length && offset == base + from0
    modifies result
    ensures next == nextPos + (to0 - from0)
    ensures result[..next] == old(result[..nextPos]) + Bytes(input, base, from0, to0)
  {
    var p, off := from0, offset;
    next := nextPos;
    EmptyAppend(result[..nextPos]);
    while p < to0
      invariant from0 <= p <= to0 && off == base + p && next == nextPos + (p - from0)
      invariant result[..next] == old(result[..nextPos]) + Bytes(input, base, from0, p)
    {
      ghost var done := old(result[..nextPos]);
      Assoc(done, Bytes(input, base, from0, p), [DecodedInst(off, 1, Some(input[p]))]);
      next := Put(result, next, DecodedInst(off, 1, Some(input[p])));
      p, off := p + 1, off + 1;
    }
  }

  // ----- unused prefixes -----

  /** The places of the prefixes of these kinds, in their order. */
  ghost function PlacesOf(input: seq<Byte>, dt: DecodeType, s: nat, c: nat, kinds: set<Kind>): (r: seq<nat>)
    requires s <= c <= |input| && AllPrefixes(input, dt, s, c)
    ensures forall i :: 0 <= i < |r| ==> s <= r[i] < c
    decreases c - s
  {
    if s == c then []
    else PlacesOf(input, dt, s, c - 1, kinds) + (if KindOf(input[c - 1], dt).value in kinds then [c - 1] else [])
  }

  lemma {:induction false} PlacesSorted(input: seq<Byte>, dt: DecodeType, s: nat, c: nat, kinds: set<Kind>)
    requires s <= c <= |input| && AllPrefixes(input, dt, s, c)
    ensures var r := PlacesOf(input, dt, s, c, kinds); SortedTo(r, |r|)
    decreases c - s
  {
    hide KindOf;
    if s < c { PlacesSorted(input, dt, s, c - 1, kinds); }
  }

  /** How often `x` is in the list. */
  function Count(a: seq<nat>, x: nat): nat { multiset(a)[x] }

  lemma {:induction false} PlacesCount(input: seq<Byte>, dt: DecodeType, s: nat, c: nat, kinds: set<Kind>, x: nat)
    requires s <= c <= |input| && AllPrefixes(input, dt, s, c)
    ensures Count(PlacesOf(input, dt, s, c, kinds), x) ==
            if s <= x < c && KindOf(input[x], dt).value in kinds then 1 else 0
    decreases c - s
  {
    hide KindOf, AllPrefixes, PlacesOf, Count;
    if s == c {
      PlacesNone(input, dt, s, kinds, x);
    } else {
      PlacesStep(input, dt, s, c, kinds);
      PlacesCount(input, dt, s, c - 1, kinds, x);
      var rest, more := PlacesOf(input, dt, s, c - 1, kinds), KindOf(input[c - 1], dt).value in kinds;
      CountAppend(rest, more, c - 1, x);
    }
  }

  lemma PlacesNone(input: seq<Byte>, dt: DecodeType, s: nat, kinds: set<Kind>, x: nat)
    requires s <= |input| && AllPrefixes(input, dt, s, s)
    ensures Count(PlacesOf(input, dt, s, s, kinds), x) == 0
  {}

  lemma PlacesStep(input: seq<Byte>, dt: DecodeType, s: nat, c: nat, kinds: set<Kind>)
    requires s < c <= |input| && AllPrefixes(input, dt, s, c)
    ensures AllPrefixes(input, dt, s, c - 1) && KindOf(input[c - 1], dt).Some?
    ensures PlacesOf(input, dt, s, c, kinds) ==
            PlacesOf(input, dt, s, c - 1, kinds) + (if KindOf(input[c - 1], dt).value in kinds then [c - 1] else [])
  {
    hide KindOf;
  }

  lemma CountAppend(a: seq<nat>, more: bool, y: nat, x: nat)
    ensures Count(a + (if more then [y] else []), x) == Count(a, x) + (if more && x == y then 1 else 0)
  {
    if !more { EmptyAppend(a); }
  }

  /** Sorting leaves no choice. */
  lemma {:induction false} SortedUnique(a: seq<nat>, b: seq<nat>)
    requires SortedTo(a, |a|) && SortedTo(b, |b|) && multiset(a) == multiset(b)
    ensures a == b
    decreases |a|
  {
    assert |multiset(a)| == |a| && |multiset(b)| == |b|;
    if a != [] {
      LeastFirst(a, b);
      TailElements(a);
      TailElements(b);
      SortedUnique(a[1..], b[1..]);
    }
  }

  lemma LeastFirst(a: seq<nat>, b: seq<nat>)
    requires a != [] && b != [] && SortedTo(a, |a|) && SortedTo(b, |b|) && multiset(a) == multiset(b)
    ensures a[0] == b[0]
  {
    assert a[0] in multiset(b) && b[0] in multiset(a);
  }

  lemma TailElements(a: seq<nat>)
    requires a != []
    ensures a == [a[0]] + a[1..] && multiset(a[1..]) == multiset(a) - multiset{a[0]}
  {
    assert a == [a[0]] + a[1..];
  }

  /** The place of the prefix of kind `k`, if it is one of `total`. */
  function Listed(pos: map<Kind, nat>, total: set<Kind>, k: Kind): (r: seq<nat>)
    requires total <= pos.Keys
  {
    if k in total then [pos[k]] else []
  }

  function UnusedList(pos: map<Kind, nat>, total: set<Kind>): seq<nat>
    requires total <= pos.Keys
  {
    Listed(pos, total, OpSize) + Listed(pos, total, AddrSize) + Listed(pos, total, LokRep)
    + Listed(pos, total, SegOvrd) + Listed(pos, total, Rex)
  }

  lemma ListedCounts(pos: map<Kind, nat>, total: set<Kind>, x: nat, k: Kind)
    requires total <= pos.Keys
    ensures Count(Listed(pos, total, k), x) == if k in total && pos[k] == x then 1 else 0
  {}

  lemma UnusedSum(pos: map<Kind, nat>, total: set<Kind>, x: nat)
    requires total <= pos.Keys
    ensures Count(UnusedList(pos, total), x) ==
      Count(Listed(pos, total, OpSize), x) + Count(Listed(pos, total, AddrSize), x) +
        Count(Listed(pos, total, LokRep), x)
      + Count(Listed(pos, total, SegOvrd), x) + Count(Listed(pos, total, Rex), x)
  {
    hide Listed;
  }

  lemma PlacedAt(input: seq<Byte>, dt: DecodeType, s: nat, c: nat, pos: map<Kind, nat>, x: nat, k: Kind)
    requires s <= c <= |input| && AllPrefixes(input, dt, s, c) && Positions(input, dt, s, c, pos) && k in pos
    ensures pos[k] == x <==> s <= x < c && KindOf(input[x], dt) == Some(k)
  {
    hide KindOf;
    if s <= x < c { assert pos[KindOf(input[x], dt).value] == x; }
  }

  /** The list holds every place once. */
  lemma UnusedCounts(input: seq<Byte>, dt: DecodeType, s: nat, c: nat, pos: map<Kind, nat>, total: set<Kind>, x: nat)
    requires s <= c <= |input| && AllPrefixes(input, dt, s, c) && Positions(input, dt, s, c, pos) && total <= pos.Keys
    ensures Count(UnusedList(pos, total), x) == if s <= x < c && KindOf(input[x], dt).value in total then 1 else 0
  {
    hide KindOf, Positions, Listed, UnusedList, Count;
    forall k | k in total
      ensures pos[k] == x <==> s <= x < c && KindOf(input[x], dt) == Some(k)
    {
      PlacedAt(input, dt, s, c, pos, x, k);
    }
    forall k: Kind
      ensures Count(Listed(pos, total, k), x) == if k in total && pos[k] == x then 1 else 0
    {
      ListedCounts(pos, total, x, k);
    }
    UnusedSum(pos, total, x);
    if s <= x < c {
      match KindOf(input[x], dt).value { case LokRep => case SegOvrd => case OpSize => case AddrSize => case Rex => }
    }
  }

  /** What get_unused_prefixes_list starts from: the disabled prefixes are enabled again. */
  function Restored(pos: map<Kind, nat>, total: set<Kind>, input: seq<Byte>): set<Kind>
    requires forall k :: k in pos ==> pos[k] < |input|
  {
    total
    + (if Rex in pos then {Rex} else {})
    + (if Rex in pos && OpSize in pos && RexW(input[pos[Rex]]) then {OpSize} else {})
    + (if SegOvrd in pos then {SegOvrd} else {})
  }

  lemma KindsArePlaced(input: seq<Byte>, dt: DecodeType, s: nat, c: nat, pos: map<Kind, nat>)
    requires s <= c <= |input| && AllPrefixes(input, dt, s, c) && Positions(input, dt, s, c, pos)
    ensures KindsIn(input, dt, s, c) == pos.Keys && (forall k :: k in pos ==> pos[k] < |input|)
    ensures RexValidAt(input, dt, s, c) <==> Rex in pos && pos[Rex] == c - 1
    ensures Effective(input, dt, s, c) <= pos.Keys
  {
    hide KindOf;
  }

  /** After that every prefix counts, but for the one that became part of the opcode. */
  lemma RestoredAll(input: seq<Byte>, dt: DecodeType, s: nat, c: nat, pos: map<Kind, nat>, gone: Option<Kind>)
    requires s <= c <= |input| && AllPrefixes(input, dt, s, c) && Positions(input, dt, s, c, pos) && gone != Some(Rex)
    ensures forall k :: k in pos ==> pos[k] < |input|
    ensures var all := Effective(input, dt, s, c);
            Restored(if gone.Some? then pos - {gone.value} else pos,
                     if gone.Some? then all - {gone.value} else all, input) ==
            if gone.Some? then KindsIn(input, dt, s, c) - {gone.value} else KindsIn(input, dt, s, c)
    ensures KindsIn(input, dt, s, c) == pos.Keys
  {
    hide KindOf, KindsIn;
    KindsArePlaced(input, dt, s, c, pos);
    hide Positions, AllPrefixes;
    var pos' := if gone.Some? then pos - {gone.value} else pos;
    var all := Effective(input, dt, s, c);
    var total := if gone.Some? then all - {gone.value} else all;
    assert Rex in pos ==> Rex in pos' && pos'[Rex] == pos[Rex];
    forall k | k in pos' ensures k in Restored(pos', total, input) {
      match k { case LokRep => case SegOvrd => case OpSize => case AddrSize => case Rex => }
    }
  }

  lemma SameList(pos: map<Kind, nat>, pos0: map<Kind, nat>, total: set<Kind>)
    requires total <= pos.Keys && forall k :: k in pos ==> k in pos0 && pos[k] == pos0[k]
    ensures total <= pos0.Keys && UnusedList(pos, total) == UnusedList(pos0, total)
  {}

  lemma ListedElements(input: seq<Byte>, dt: DecodeType, s: nat, c: nat, pos: map<Kind, nat>, total: set<Kind>)
    requires s <= c <= |input| && AllPrefixes(input, dt, s, c) && Positions(input, dt, s, c, pos) && total <= pos.Keys
    ensures multiset(UnusedList(pos, total)) == multiset(PlacesOf(input, dt, s, c, total))
  {
    forall x: nat ensures Count(UnusedList(pos, total), x) == Count(PlacesOf(input, dt, s, c, total), x) {
      UnusedCounts(input, dt, s, c, pos, total, x);
      PlacesCount(input, dt, s, c, total, x);
    }
    SameCounts(UnusedList(pos, total), PlacesOf(input, dt, s, c, total));
  }

  lemma SameCounts(a: seq<nat>, b: seq<nat>)
    requires forall x: nat :: Count(a, x) == Count(b, x)
    ensures multiset(a) == multiset(b)
  {
    forall x: nat ensures multiset(a)[x] == multiset(b)[x] { assert Count(a, x) == Count(b, x); }
  }

  /** get_unused_prefixes_list: the places of the prefixes that nothing made use of. */
  method UnusedPrefixes(ps: PrefixState, input: seq<Byte>, used: set<Kind>, ghost dt: DecodeType, ghost c: nat,
                        ghost pos0: map<Kind, nat>) returns (ptrs: array<nat>)
    requires ps.start <= c <= |input| && AllPrefixes(input, dt, ps.start, c) && Positions(input, dt, ps.start, c, pos0)
    requires (forall k :: k in ps.pos ==> ps.pos[k] < |input|) && Restored(ps.pos, ps.total, input) <= ps.pos.Keys
    requires forall k :: k in ps.pos ==> k in pos0 && ps.pos[k] == pos0[k]
    ensures fresh(ptrs) && ptrs[..] == PlacesOf(input, dt, ps.start, c, Restored(ps.pos, ps.total, input) - used)
  {
    hide UnusedList, Restored, KindOf, PlacesOf, SortedTo;
    var total := Restored(ps.pos, ps.total, input) - used;
    var list := UnusedList(ps.pos, total);
    SameList(ps.pos, pos0, total);
    ListedElements(input, dt, ps.start, c, pos0, total);
    PlacesSorted(input, dt, ps.start, c, total);
    ptrs := new nat[|list|](i requires 0 <= i < |list| => list[i]);
    assert ptrs[..] == list;
    Sort(ptrs);
    SortedUnique(ptrs[..], PlacesOf(input, dt, ps.start, c, total));
  }

  /** The entries of the unused prefixes: all at the place where the instruction starts. */
  function UnusedEntries(input: seq<Byte>, ptrs: seq<nat>, offset: int): (es: seq<DecodedInst>)
    requires forall i :: 0 <= i < |ptrs| ==> ptrs[i] < |input|
    ensures |es| == |ptrs|
  {
    seq(|ptrs|, i requires 0 <= i < |ptrs| => DecodedInst(offset, 1, Some(input[ptrs[i]])))
  }

  lemma {:induction false} UnusedSizes(input: seq<Byte>, ptrs: seq<nat>, offset: int)
    requires forall i :: 0 <= i < |ptrs| ==> ptrs[i] < |input|
    ensures Sizes(UnusedEntries(input, ptrs, offset)) == |ptrs|
    decreases |ptrs|
  {
    if ptrs != [] {
      UnusedSizes(input, ptrs[1..], offset);
      assert UnusedEntries(input, ptrs, offset)[1..] == UnusedEntries(input, ptrs[1..], offset);
    }
  }

  method PutUnused(result: array<DecodedInst>, nextPos: nat, input: seq<Byte>, ptrs: array<nat>, offset: int)
    returns (next: nat)
    requires nextPos + ptrs.Length <= result.Length && forall i :: 0 <= i < ptrs.Length ==> ptrs[i] < |input|
    modifies result
    ensures next == nextPos + ptrs.Length
    ensures result[..next] == old(result[..nextPos]) + UnusedEntries(input, ptrs[..], offset)
  {
    next := nextPos;
    ghost var all := UnusedEntries(input, ptrs[..], offset);
    EmptyAppend(result[..nextPos]);
    for i := 0 to ptrs.Length
      invariant next == nextPos + i && result[..next] == old(result[..nextPos]) + all[..i]
    {
      Assoc(old(result[..nextPos]), all[..i], [all[i]]);
      next := Put(result, next, DecodedInst(offset, 1, Some(input[ptrs[i]])));
      assert all[..i + 1] == all[..i] + [all[i]];
    }
    assert all[..ptrs.Length] == all;
  }

  // ----- what is to be listed -----

  /** The entries of one round of the loop at `p`, where the next round starts, and the
      number of unused prefixes: dropped prefixes, then the instruction behind the ones it
      does not use, or, if there is no instruction, its prefixes and its first byte. */
  ghost function Round(t: Tables, input: seq<Byte>, dt: DecodeType, usedBy: nat -> set<Kind>, base: int, p: nat)
    : (r: (seq<DecodedInst>, nat, nat))
    requires TablesOk(t) && p < |input|
    ensures p < r.1 <= |input|
  {
    var last := RunEnd(input, dt, p);
    var s := RunStart(input, dt, p, last, last);
    var (es, next, n) := RestEntries(t, input, dt, usedBy, base, s, last);
    (Bytes(input, base, p, s) + es, next, n)
  }

  /** What follows the dropped prefixes: at the end of the input the kept ones by themselves. */
  ghost function RestEntries(t: Tables, input: seq<Byte>, dt: DecodeType, usedBy: nat -> set<Kind>, base: int, s: nat,
                             last: nat)
    : (r: (seq<DecodedInst>, nat, nat))
    requires TablesOk(t) && s <= last <= |input| && AllPrefixes(input, dt, s, last)
    ensures last <= r.1 <= |input| && (last < |input| ==> last < r.1)
  {
    if last == |input| then (Bytes(input, base, s, last), last, 0)
    else OneEntries(t, input, dt, usedBy, base, s, last)
  }

  /** The entries of a round behind the dropped prefixes, if there is an instruction to
      decode. */
  ghost function OneEntries(t: Tables, input: seq<Byte>, dt: DecodeType, usedBy: nat -> set<Kind>, base: int, s: nat,
                            c: nat)
    : (r: (seq<DecodedInst>, nat, nat))
    requires TablesOk(t) && s <= c < |input| && AllPrefixes(input, dt, s, c)
    ensures c < r.1 <= |input|
  {
    var (end, kind) := InstrAt(t, input, dt, s, c);
    if end.None? && input[c] != WAIT then
      (Bytes(input, base, s, c) + [DecodedInst(base + c, 1, Some(input[c]))], c + 1, 0)
    else
      var next := if end.Some? then end.value else c + 1;
      var ptrs := PlacesOf(input, dt, s, c, UnusedKinds(t, input, dt, usedBy, s, c));
      (UnusedEntries(input, ptrs, base + s) + [DecodedInst(base + s, next - s, None)], next, |ptrs|)
  }

  /** The prefixes from `s` on that the instruction at `c` neither contains nor uses. */
  ghost function UnusedKinds(t: Tables, input: seq<Byte>, dt: DecodeType, usedBy: nat -> set<Kind>, s: nat,
                             c: nat): set<Kind>
    requires TablesOk(t) && s <= c <= |input| && AllPrefixes(input, dt, s, c)
  {
    var (end, kind) := InstrAt(t, input, dt, s, c);
    (if kind.Some? then KindsIn(input, dt, s, c) - {kind.value} else KindsIn(input, dt, s, c))
    - (if end.Some? then usedBy(c) else {})
  }

  ghost function Listing(t: Tables, input: seq<Byte>, dt: DecodeType, usedBy: nat -> set<Kind>, base: int,
                         p: nat): seq<DecodedInst>
    requires TablesOk(t) && p <= |input|
    decreases |input| - p
  {
    if p == |input| then []
    else
      var (es, next, _) := Round(t, input, dt, usedBy, base, p);
      es + Listing(t, input, dt, usedBy, base, next)
  }

  /** The number of unused prefixes in the listing. */
  ghost function UnusedTotal(t: Tables, input: seq<Byte>, dt: DecodeType, usedBy: nat -> set<Kind>, base: int,
                             p: nat): nat
    requires TablesOk(t) && p <= |input|
    decreases |input| - p
  {
    if p == |input| then 0
    else
      var (_, next, n) := Round(t, input, dt, usedBy, base, p);
      n + UnusedTotal(t, input, dt, usedBy, base, next)
  }

  lemma OneInstruction(offset: int, size: nat, input: seq<Byte>, base: int, p: nat)
    requires offset == base + p && size >= 1 && p + size <= |input|
    ensures Tiles([DecodedInst(offset, size, None)], input, base, p, p + size)
    ensures Sizes([DecodedInst(offset, size, None)]) == size
  {
    OneTile(DecodedInst(offset, size, None), input, base, p);
  }

  lemma BytesSizes(input: seq<Byte>, base: int, p: nat, q: nat)
    requires p <= q <= |input|
    ensures Sizes(Bytes(input, base, p, q)) == q - p
  {
    BytesTile(input, base, p, q);
    TilesCover(Bytes(input, base, p, q), input, base, p, q);
  }

  /** Every round accounts for the bytes it consumes and for its unused prefixes; without
      any of those its entries tile the bytes. */
  lemma RoundTiles(t: Tables, input: seq<Byte>, dt: DecodeType, usedBy: nat -> set<Kind>, base: int, p: nat)
    requires TablesOk(t) && p < |input|
    ensures var (es, next, n) := Round(t, input, dt, usedBy, base, p);
            Sizes(es) == next - p + n && (n == 0 ==> Tiles(es, input, base, p, next)) && es != []
  {
    hide Bytes, RestEntries, Sizes, Tiles, KindOf;
    var last := RunEnd(input, dt, p);
    var s := RunStart(input, dt, p, last, last);
    var dropped := Bytes(input, base, p, s);
    BytesTile(input, base, p, s);
    BytesSizes(input, base, p, s);
    var (rest, next, n) := RestEntries(t, input, dt, usedBy, base, s, last);
    RestTiles(t, input, dt, usedBy, base, s, last);
    SizesAppend(dropped, rest);
    if n == 0 { TilesAppend(dropped, rest, input, base, p, s, next); }
    NotEmpty(dropped + rest, next - p + n);
  }

  lemma NotEmpty(es: seq<DecodedInst>, n: nat)
    requires Sizes(es) == n > 0
    ensures es != []
  {}

  lemma RestTiles(t: Tables, input: seq<Byte>, dt: DecodeType, usedBy: nat -> set<Kind>, base: int, s: nat, last: nat)
    requires TablesOk(t) && s <= last <= |input| && AllPrefixes(input, dt, s, last)
    ensures var (es, next, n) := RestEntries(t, input, dt, usedBy, base, s, last);
            Sizes(es) == next - s + n && (n == 0 ==> Tiles(es, input, base, s, next))
  {
    if last == |input| {
      BytesTile(input, base, s, last);
      BytesSizes(input, base, s, last);
    } else {
      OneTiles(t, input, dt, usedBy, base, s, last);
    }
  }

  lemma OneTiles(t: Tables, input: seq<Byte>, dt: DecodeType, usedBy: nat -> set<Kind>, base: int, s: nat, c: nat)
    requires TablesOk(t) && s <= c < |input| && AllPrefixes(input, dt, s, c)
    ensures var (es, next, n) := OneEntries(t, input, dt, usedBy, base, s, c);
            Sizes(es) == next - s + n && (n == 0 ==> Tiles(es, input, base, s, next)) && es != []
  {
    hide InstrAt, KindOf, PlacesOf, UnusedKinds, Bytes, UnusedEntries, Tiles, Sizes;
    var (es, next, n) := OneEntries(t, input, dt, usedBy, base, s, c);
    if InstrAt(t, input, dt, s, c).0.None? && input[c] != WAIT {
      var kept, e := Bytes(input, base, s, c), DecodedInst(base + c, 1, Some(input[c]));
      BytesTile(input, base, s, c);
      BytesSizes(input, base, s, c);
      OneTile(e, input, base, c);
      assert es == kept + [e];
      hide *;
      SizesAppend(kept, [e]);
      TilesAppend(kept, [e], input, base, s, c, c + 1);
    } else {
      var ptrs := PlacesOf(input, dt, s, c, UnusedKinds(t, input, dt, usedBy, s, c));
      var unused, e := UnusedEntries(input, ptrs, base + s), [DecodedInst(base + s, next - s, None)];
      UnusedSizes(input, ptrs, base + s);
      OneInstruction(base + s, next - s, input, base, s);
      assert es == unused + e && |unused| == n;
      hide *;
      SizesAppend(unused, e);
      if n == 0 { EmptyAppend(e); }
    }
  }

  lemma {:induction false} BytesAt(input: seq<Byte>, base: int, p: nat, q: nat, i: nat)
    requires p <= q <= |input| && i < q - p
    ensures Bytes(input, base, p, q)[i] == DecodedInst(base + p + i, 1, Some(input[p + i]))
    decreases q - p
  {
    if i < q - 1 - p { BytesAt(input, base, p, q - 1, i); }
  }

  /** The entries from `k` on define the bytes from `p` to `q` one by one. */
  ghost predicate Defines(es: seq<DecodedInst>, k: nat, input: seq<Byte>, base: int, p: nat, q: nat)
    requires p <= q <= |input|
  {
    && k + (q - p) <= |es|
    && forall i :: k <= i < k + (q - p) ==> es[i] == DecodedInst(base + p + (i - k), 1, Some(input[p + (i - k)]))
  }

  lemma BytesDefine(a: seq<DecodedInst>, input: seq<Byte>, base: int, p: nat, q: nat, b: seq<DecodedInst>)
    requires p <= q <= |input|
    ensures Defines(a + Bytes(input, base, p, q) + b, |a|, input, base, p, q)
  {
    var es := a + Bytes(input, base, p, q) + b;
    forall i | |a| <= i < |a| + (q - p)
      ensures es[i] == DecodedInst(base + p + (i - |a|), 1, Some(input[p + (i - |a|)]))
    {
      BytesAt(input, base, p, q, i - |a|);
    }
  }

  /** What a round shows of a run of prefixes from `p` to `last`, of which those from `s` on count: the
      bytes before these, one by one; then, if an instruction follows or WAIT, the prefixes that
      it makes no use of and the instruction with all its prefixes; else the other prefixes and the
      byte that is no instruction, one by one. */
  lemma RoundShows(t: Tables, input: seq<Byte>, dt: DecodeType, usedBy: nat -> set<Kind>, base: int, p: nat, s: nat,
                   last: nat)
    requires TablesOk(t) && p < |input| && p <= s <= last <= |input| && AllPrefixes(input, dt, p, last)
    requires (last < |input| ==> KindOf(input[last], dt).None?) && LongestDistinct(input, dt, p, s, last)
    ensures AllPrefixes(input, dt, s, last)
    ensures var (es, next, n) := Round(t, input, dt, usedBy, base, p);
            Defines(es, 0, input, base, p, s) &&
            if last == |input| then
              next == last && n == 0 && |es| == last - p && Defines(es, s - p, input, base, s, last)
            else
              var (end, kind) := InstrAt(t, input, dt, s, last);
              if end.None? && input[last] != 0x9b then
                next == last + 1 && n == 0 && |es| == next - p && Defines(es, s - p, input, base, s, next)
              else
                && next == (if end.Some? then end.value else last + 1)
                && Shows(es, s - p, input, base + s, next - s, n,
                         PlacesOf(input, dt, s, last, KindsIn(input, dt, s, last) - Used(end, kind, usedBy(last))))
  {
    hide Bytes, InstrAt, KindOf, PlacesOf, Defines, KindsIn, UnusedEntries, UnusedKinds, OneEntries, Shows, Used;
    RunUnique(input, dt, p, s, last);
    hide RunEnd, RunStart, AllPrefixes, LongestDistinct;
    var dropped := Bytes(input, base, p, s);
    var rest := RestEntries(t, input, dt, usedBy, base, s, last).0;
    BytesDefine([], input, base, p, s, rest);
    assert [] + dropped + rest == dropped + rest;
    if last == |input| {
      BytesDefine(dropped, input, base, s, last, []);
      assert dropped + rest + [] == dropped + rest;
    } else {
      OneShows(t, input, dt, usedBy, base, s, last, dropped);
    }
  }

  /** What the instruction has used up of its prefixes. */
  function Used(end: Option<nat>, kind: Option<Kind>, used: set<Kind>): set<Kind> {
    (if end.Some? then used else {}) + (if kind.Some? then {kind.value} else {})
  }

  /** Behind `k` entries, `es` shows the prefixes at `unused` and then an instruction of `size` bytes, all
      of them at `offset`. */
  ghost predicate Shows(es: seq<DecodedInst>, k: nat, input: seq<Byte>, offset: int, size: nat, n: nat,
                        unused: seq<nat>)
    requires forall i :: 0 <= i < |unused| ==> unused[i] < |input|
  {
    && n == |unused| && |es| == k + n + 1 && es[k + n] == DecodedInst(offset, size, None)
    && forall i :: k <= i < k + n ==> es[i] == DecodedInst(offset, 1, Some(input[unused[i - k]]))
  }

  lemma OneShows(t: Tables, input: seq<Byte>, dt: DecodeType, usedBy: nat -> set<Kind>, base: int, s: nat, c: nat,
                 dropped: seq<DecodedInst>)
    requires TablesOk(t) && s <= c < |input| && AllPrefixes(input, dt, s, c)
    ensures var (rest, next, n) := OneEntries(t, input, dt, usedBy, base, s, c); var es := dropped + rest;
            var (end, kind) := InstrAt(t, input, dt, s, c);
            if end.None? && input[c] != 0x9b then
              next == c + 1 && n == 0 && |rest| == next - s && Defines(es, |dropped|, input, base, s, next)
            else
              && next == (if end.Some? then end.value else c + 1)
              && Shows(es, |dropped|, input, base + s, next - s, n,
                       PlacesOf(input, dt, s, c, KindsIn(input, dt, s, c) - Used(end, kind, usedBy(c))))
  {
    hide Bytes, InstrAt, KindOf, PlacesOf, Defines, KindsIn, UnusedEntries, UnusedKinds, AllPrefixes, Used;
    var (end, kind) := InstrAt(t, input, dt, s, c);
    var (rest, next, n) := OneEntries(t, input, dt, usedBy, base, s, c);
    if end.None? && input[c] != WAIT {
      NextByte(input, base, s, c);
      BytesDefine(dropped, input, base, s, c + 1, []);
      assert dropped + rest + [] == dropped + rest;
    } else {
      UnusedAre(t, input, dt, usedBy, s, c);
      EntriesAt(input, PlacesOf(input, dt, s, c, UnusedKinds(t, input, dt, usedBy, s, c)), base + s);
    }
  }

  lemma NextByte(input: seq<Byte>, base: int, s: nat, q: nat)
    requires s <= q < |input|
    ensures Bytes(input, base, s, q + 1) == Bytes(input, base, s, q) + [DecodedInst(base + q, 1, Some(input[q]))]
  {}

  lemma EntriesAt(input: seq<Byte>, ptrs: seq<nat>, offset: int)
    requires forall i :: 0 <= i < |ptrs| ==> ptrs[i] < |input|
    ensures forall i :: 0 <= i < |ptrs| ==>
              UnusedEntries(input, ptrs, offset)[i] == DecodedInst(offset, 1, Some(input[ptrs[i]]))
  {}

  lemma UnusedAre(t: Tables, input: seq<Byte>, dt: DecodeType, usedBy: nat -> set<Kind>, s: nat, c: nat)
    requires TablesOk(t) && s <= c <= |input| && AllPrefixes(input, dt, s, c)
    ensures var (end, kind) := InstrAt(t, input, dt, s, c);
            UnusedKinds(t, input, dt, usedBy, s, c) == KindsIn(input, dt, s, c) - Used(end, kind, usedBy(c))
  {
    hide InstrAt, KindsIn;
  }

  /** The listing accounts for every byte of the input once and for every unused prefix
      once more. */
  lemma {:induction false} ListingSizes(t: Tables, input: seq<Byte>, dt: DecodeType, usedBy: nat -> set<Kind>,
                                        base: int, p: nat)
    requires TablesOk(t) && p <= |input|
    ensures var n := UnusedTotal(t, input, dt, usedBy, base, p);
            && Sizes(Listing(t, input, dt, usedBy, base, p)) == |input| - p + n
            && (n == 0 ==> Tiles(Listing(t, input, dt, usedBy, base, p), input, base, p, |input|))
    decreases |input| - p
  {
    if p < |input| {
      RoundTiles(t, input, dt, usedBy, base, p);
      var (es, next, n) := Round(t, input, dt, usedBy, base, p);
      ListingSizes(t, input, dt, usedBy, base, next);
      var rest := Listing(t, input, dt, usedBy, base, next);
      SizesAppend(es, rest);
      if UnusedTotal(t, input, dt, usedBy, base, p) == 0 {
        TilesAppend(es, rest, input, base, p, next, |input|);
      }
    }
  }

  /** The entries tile the input if and only if every prefix is used: an unused prefix is
      listed beside an instruction that counts it too. */
  lemma ListingTiles(t: Tables, input: seq<Byte>, dt: DecodeType, usedBy: nat -> set<Kind>, base: int)
    requires TablesOk(t)
    ensures Tiles(Listing(t, input, dt, usedBy, base, 0), input, base, 0, |input|) <==>
            UnusedTotal(t, input, dt, usedBy, base, 0) == 0
  {
    ListingSizes(t, input, dt, usedBy, base, 0);
    var es := Listing(t, input, dt, usedBy, base, 0);
    if Tiles(es, input, base, 0, |input|) { TilesCover(es, input, base, 0, |input|); }
  }

  // ----- the loop -----

  /** In 64 bits a REX prefix counts only right before the instruction, and may disable an
      operand size prefix; most segment overrides are ignored. */
  method Adjust64(ps: PrefixState, input: seq<Byte>, code: nat)
    requires ps.start <= ps.last == code <= |input| && !ps.rexValid
    requires AllPrefixes(input, Decode64Bits, ps.start, code)
    requires Positions(input, Decode64Bits, ps.start, code, ps.pos) && ps.total == ps.pos.Keys
    modifies ps`total, ps`rexValid
    ensures ps.total == Effective(input, Decode64Bits, ps.start, code)
    ensures ps.rexValid == RexValidAt(input, Decode64Bits, ps.start, code)
  {
    hide KindOf, KindsIn, Positions, AllPrefixes, Occurs;
    KindsArePlaced(input, Decode64Bits, ps.start, code, ps.pos);
    SegmentPlaced(input, Decode64Bits, ps.start, code, ps.pos);
    if Rex in ps.total {
      if ps.pos[Rex] != code - 1 {
        ps.total := ps.total - {Rex};
      } else {
        ps.rexValid := true;
        if RexW(input[ps.pos[Rex]]) {
          ps.total := ps.total - {OpSize};
        }
      }
    }
    if SegOvrd in ps.total {
      if IgnoredSegment(input[ps.pos[SegOvrd]]) {
        ps.total := ps.total - {SegOvrd};
      }
    }
  }

  lemma SegmentPlaced(input: seq<Byte>, dt: DecodeType, s: nat, c: nat, pos: map<Kind, nat>)
    requires s <= c <= |input| && AllPrefixes(input, dt, s, c) && Positions(input, dt, s, c, pos)
    ensures Occurs(input, s, c, IgnoredSegment) <==> SegOvrd in pos && IgnoredSegment(input[pos[SegOvrd]])
  {
    if i :| s <= i < c && IgnoredSegment(input[i]) { assert KindOf(input[i], dt) == Some(SegOvrd); }
  }

  /** Outside of 64 bits all prefixes apply. */
  lemma AllApply(input: seq<Byte>, dt: DecodeType, s: nat, c: nat, pos: map<Kind, nat>)
    requires dt != Decode64Bits && s <= c <= |input| && AllPrefixes(input, dt, s, c) && Positions(input, dt, s, c, pos)
    ensures Effective(input, dt, s, c) == pos.Keys && !RexValidAt(input, dt, s, c)
  {
    hide KindOf, AllPrefixes, Occurs, Positions;
    KindsArePlaced(input, dt, s, c, pos);
    forall i | s <= i < c ensures KindOf(input[i], dt) != Some(Rex) { NoRex(input[i], dt); }
  }

  lemma NoRex(b: Byte, dt: DecodeType)
    requires dt != Decode64Bits
    ensures KindOf(b, dt) != Some(Rex)
  {}

  /** The part of a round behind the dropped prefixes: the instruction at `code`, whose
      prefixes start at `ps.start`.  An entry that turns out to need others before it is
      taken back first. */
  method DecodeOne(t: Tables, input: seq<Byte>, past: nat -> Byte, code: nat, codeLen: int, codeOffset: int,
                   ps: PrefixState, dt: DecodeType, usedBy: nat -> set<Kind>, result: array<DecodedInst>, nextPos0: nat,
                   startOffset: int, ghost base: int)
    returns (res: DecodeResult, nextPos: nat, size: nat, ghost es: seq<DecodedInst>)
    requires TablesOk(t) && codeLen > 0 && code + codeLen == |input| && codeOffset == base + code
    requires ps.start <= ps.last == code && ps.special == 0 && !ps.rexValid && Distinct(input, dt, ps.start, code)
    requires AllPrefixes(input, dt, ps.start, code) && Positions(input, dt, ps.start, code, ps.pos)
    requires ps.total == ps.pos.Keys && startOffset == base + ps.start && nextPos0 <= result.Length
    modifies ps, result
    ensures 1 <= size <= codeLen && result[..nextPos0] == old(result[..nextPos0])
    ensures es == OneEntries(t, input, dt, usedBy, base, old(ps.start), code).0
    ensures code + size == OneEntries(t, input, dt, usedBy, base, old(ps.start), code).1
    ensures res == Success <==> nextPos0 + |es| <= result.Length
    ensures res == Success ==> nextPos == nextPos0 + |es| && result[..nextPos] == result[..nextPos0] + es
  {
    hide KindOf, InstrAt, Effective, Bytes, PlacesOf, Restored, Positions, AllPrefixes, Distinct, UnusedKinds,
         UnusedEntries;
    ghost var pos, start := ps.pos, ps.start;
    var ok, used;
    ok, size, used := DecodeWithPrefixes(t, input, past, code, codeLen, codeOffset, ps, dt, usedBy, base);
    es := OneEntries(t, input, dt, usedBy, base, start, code).0;
    if ok {
      var ptrs := UnusedPrefixes(ps, input, used, dt, code, pos);
      res, nextPos := PutInstruction(result, nextPos0, input, ptrs, startOffset, size + (code - ps.start));
    } else {
      ps.last := ps.last + ps.special;
      res, nextPos := PutNothing(result, nextPos0, input, ps.start, code, startOffset, base);
    }
  }

  /** decode_inst once the prefixes have been adjusted to the decoding mode. */
  method DecodeWithPrefixes(t: Tables, input: seq<Byte>, past: nat -> Byte, code: nat, codeLen: int, codeOffset: int,
                            ps: PrefixState, dt: DecodeType, usedBy: nat -> set<Kind>, ghost base: int)
    returns (ok: bool, size: nat, used: set<Kind>)
    requires TablesOk(t) && codeLen > 0 && code + codeLen == |input| && codeOffset == base + code
    requires ps.start <= ps.last == code && ps.special == 0 && !ps.rexValid && Distinct(input, dt, ps.start, code)
    requires AllPrefixes(input, dt, ps.start, code) && Positions(input, dt, ps.start, code, ps.pos)
    requires ps.total == ps.pos.Keys
    modifies ps
    ensures ps.start == old(ps.start) && ps.last + ps.special == code && 1 <= size <= codeLen
    ensures (forall k :: k in ps.pos ==> ps.pos[k] < |input| && k in old(ps.pos) && ps.pos[k] == old(ps.pos)[k])
    ensures var end := InstrAt(t, input, dt, ps.start, code).0;
            && ok == (end.Some? || input[code] == WAIT)
            && code + size == (if end.Some? then end.value else code + 1)
    ensures Restored(ps.pos, ps.total, input) <= ps.pos.Keys
    ensures ok ==> Restored(ps.pos, ps.total, input) - used == UnusedKinds(t, input, dt, usedBy, ps.start, code)
  {
    hide KindOf, InstrAt, Effective, Restored, Positions, AllPrefixes, Distinct;
    if dt == Decode64Bits {
      Adjust64(ps, input, code);
    } else {
      AllApply(input, dt, ps.start, code, ps.pos);
    }
    RestoredAll(input, dt, ps.start, code, ps.pos, InstrAt(t, input, dt, ps.start, code).1);
    ok, size, used := DecodeInst(t, input, past, code, codeLen, codeOffset, ps, dt, usedBy, base);
  }

  /** An instruction behind its unused prefixes. */
  method PutInstruction(result: array<DecodedInst>, nextPos0: nat, input: seq<Byte>, ptrs: array<nat>, offset: int,
                        size: nat)
    returns (res: DecodeResult, nextPos: nat)
    requires nextPos0 <= result.Length && forall i :: 0 <= i < ptrs.Length ==> ptrs[i] < |input|
    modifies result
    ensures result[..nextPos0] == old(result[..nextPos0])
    ensures var es := UnusedEntries(input, ptrs[..], offset) + [DecodedInst(offset, size, None)];
            && (res == Success <==> nextPos0 + |es| <= result.Length)
            && (res == Success ==> nextPos == nextPos0 + |es| && result[..nextPos] == result[..nextPos0] + es)
  {
    res, nextPos := MemoryError, nextPos0;
    if nextPos0 + 1 > result.Length { return; }
    if ptrs.Length > 0 {
      if nextPos0 + 1 + ptrs.Length > result.Length { return; }
      nextPos := PutUnused(result, nextPos, input, ptrs, offset);
    }
    ghost var unused := UnusedEntries(input, ptrs[..], offset);
    var e := DecodedInst(offset, size, None);
    Assoc(old(result[..nextPos0]), unused, [e]);
    EmptyAppend(old(result[..nextPos0]));
    assert result[..nextPos] == old(result[..nextPos0]) + unused;
    nextPos := Put(result, nextPos, e);
    Prefixed(result[..nextPos], old(result[..nextPos0]), unused + [e]);
    res := Success;
  }

  lemma Prefixed(all: seq<DecodedInst>, a: seq<DecodedInst>, b: seq<DecodedInst>)
    requires all == a + b
    ensures |a| <= |all| && all[..|a|] == a
  {}

  /** The prefixes and the first byte of what is no instruction. */
  method PutNothing(result: array<DecodedInst>, nextPos0: nat, input: seq<Byte>, start: nat, code: nat, offset: int,
                    ghost base: int)
    returns (res: DecodeResult, nextPos: nat)
    requires nextPos0 <= result.Length && start <= code < |input| && offset == base + start
    modifies result
    ensures result[..nextPos0] == old(result[..nextPos0])
    ensures var es := Bytes(input, base, start, code) + [DecodedInst(base + code, 1, Some(input[code]))];
            && (res == Success <==> nextPos0 + |es| <= result.Length)
            && (res == Success ==> nextPos == nextPos0 + |es| && result[..nextPos] == result[..nextPos0] + es)
  {
    res, nextPos := MemoryError, nextPos0;
    if nextPos0 + 1 + (code - start) > result.Length { return; }
    nextPos := PutBytes(result, nextPos, input, start, code, offset, base);
    ghost var e := DecodedInst(base + code, 1, Some(input[code]));
    Assoc(old(result[..nextPos0]), Bytes(input, base, start, code), [e]);
    nextPos := Put(result, nextPos, DecodedInst(offset + (code - start), 1, Some(input[code])));
    Prefixed(result[..nextPos], old(result[..nextPos0]), Bytes(input, base, start, code) + [e]);
    res := Success;
  }

  /** internal_decode: with room for all of it, the result is the listing of the input;
      otherwise the entries counted are the first ones of it.  The loop ends because every
      round consumes at least one byte. */
  method InternalDecode(t: Tables, input: seq<Byte>, past: nat -> Byte, codeOffset0: int, dt: DecodeType,
                        usedBy: nat -> set<Kind>, result: array<DecodedInst>) returns (res: DecodeResult, count: nat)
    requires TablesOk(t)
    modifies result
    ensures count <= result.Length
    ensures var all := Listing(t, input, dt, usedBy, codeOffset0, 0);
            && (res == Success <==> |all| <= result.Length)
            && (res == Success ==> result[..count] == all)
            && result[..count] <= all
  {
    hide KindOf, Round, LongestDistinct, Distinct, AllPrefixes, Positions, OneEntries, Bytes;
    ghost var base := codeOffset0;
    ghost var all := Listing(t, input, dt, usedBy, base, 0);
    var codeOffset, code, codeLen := codeOffset0, 0, |input|;
    count, res := 0, Success;
    EmptyAppend(all);
    while codeLen > 0
      invariant code + codeLen == |input| && codeOffset == base + code && codeLen >= 0
      invariant res == Success && count <= result.Length
      invariant result[..count] + Listing(t, input, dt, usedBy, base, code) == all
      decreases codeLen
    {
      ghost var done, rest := result[..count], Round(t, input, dt, usedBy, base, code);
      ghost var more := Listing(t, input, dt, usedBy, base, rest.1);
      Assoc(done, rest.0, more);
      var next;
      res, count, next := DecodeRound(t, input, past, code, codeOffset, dt, usedBy, result, count, base);
      if res == MemoryError {
        NoRoom(done, rest.0, more, result[..count], all, result.Length);
        return;
      }
      codeOffset, codeLen, code := codeOffset + (next - code), codeLen - (next - code), next;
    }
    EmptyAppend(result[..count]);
  }

  lemma NoRoom(done: seq<DecodedInst>, es: seq<DecodedInst>, more: seq<DecodedInst>, part: seq<DecodedInst>,
               all: seq<DecodedInst>, room: nat)
    requires all == done + es + more && part <= done + es && |done| + |es| > room
    ensures part <= all && |all| > room
  {}

  /** One round of the loop. */
  method DecodeRound(t: Tables, input: seq<Byte>, past: nat -> Byte, code0: nat, codeOffset0: int, dt: DecodeType,
                     usedBy: nat -> set<Kind>, result: array<DecodedInst>, count0: nat, ghost base: int)
    returns (res: DecodeResult, count: nat, next: nat)
    requires TablesOk(t) && code0 < |input| && codeOffset0 == base + code0 && count0 <= result.Length
    modifies result
    ensures next == Round(t, input, dt, usedBy, base, code0).1 || res == MemoryError
    ensures var es := Round(t, input, dt, usedBy, base, code0).0; var done := old(result[..count0]);
            && (res == Success <==> count0 + |es| <= result.Length) && count <= result.Length
            && (res == Success ==> result[..count] == done + es)
            && result[..count] <= done + es
  {
    hide KindOf, Bytes, RestEntries, Positions, Distinct, AllPrefixes, LongestDistinct;
    var ps := new PrefixState(code0);
    var fits := ReadPrefixes(result, count0, input, code0, codeOffset0, dt, ps, base);
    ghost var done, dropped := old(result[..count0]), Bytes(input, base, code0, ps.start);
    ghost var es := RestEntries(t, input, dt, usedBy, base, ps.start, ps.last).0;
    res, count, next := MemoryError, count0, ps.last;
    Assoc(done, dropped, es);
    if !fits { return; }
    count := count0 + (ps.start - code0);
    res, count, next :=
      DecodeRest(t, input, past, ps, codeOffset0 + (ps.start - code0), dt, usedBy, result, count, base);
  }

  /** The part of a round behind the dropped prefixes. */
  method DecodeRest(t: Tables, input: seq<Byte>, past: nat -> Byte, ps: PrefixState, startOffset: int, dt: DecodeType,
                    usedBy: nat -> set<Kind>, result: array<DecodedInst>, count0: nat, ghost base: int)
    returns (res: DecodeResult, count: nat, next: nat)
    requires TablesOk(t) && ps.start <= ps.last <= |input| && startOffset == base + ps.start && count0 <= result.Length
    requires AllPrefixes(input, dt, ps.start, ps.last) && Distinct(input, dt, ps.start, ps.last)
    requires Positions(input, dt, ps.start, ps.last, ps.pos) && ps.total == ps.pos.Keys && ps.special == 0
    requires !ps.rexValid
    modifies ps, result
    ensures next == old(RestEntries(t, input, dt, usedBy, base, ps.start, ps.last).1) || res == MemoryError
    ensures var es := old(RestEntries(t, input, dt, usedBy, base, ps.start, ps.last).0);
            var done := old(result[..count0]);
            && (res == Success <==> count0 + |es| <= result.Length) && count <= result.Length
            && (res == Success ==> result[..count] == done + es)
            && result[..count] <= done + es
  {
    hide KindOf, Bytes, OneEntries, Positions, Distinct, AllPrefixes;
    res, count, next := MemoryError, count0, ps.last;
    if ps.last == |input| {
      if count + (ps.last - ps.start) > result.Length { return; }
      count := PutBytes(result, count, input, ps.start, ps.last, startOffset, base);
      res := Success;
    } else {
      var nextPos, size;
      ghost var es;
      res, nextPos, size, es :=
        DecodeOne(t, input, past, ps.last, |input| - ps.last, startOffset + (ps.last - ps.start), ps, dt,
                                          usedBy, result, count, startOffset, base);
      next := next + size;
      if res == MemoryError { return; }
      count := nextPos;
    }
  }

  /** The prefixes of the instruction at `code`; the ones before `ps.start` are dropped. */
  method ReadPrefixes(result: array<DecodedInst>, count: nat, input: seq<Byte>, code: nat, codeOffset: int,
                      dt: DecodeType, ps: PrefixState, ghost base: int) returns (fits: bool)
    requires code < |input| && codeOffset == base + code && count <= result.Length
    requires ps.start == ps.last == code && ps.pos == map[] && ps.total == {}
    modifies result, ps`start, ps`last, ps`pos, ps`total
    ensures ps.last == RunEnd(input, dt, code) && code <= ps.start <= ps.last <= |input|
    ensures ps.start == RunStart(input, dt, code, ps.last, ps.last)
    ensures AllPrefixes(input, dt, ps.start, ps.last) && Distinct(input, dt, ps.start, ps.last)
    ensures Positions(input, dt, ps.start, ps.last, ps.pos) && ps.total == ps.pos.Keys
    ensures fits <==> count + (ps.start - code) <= result.Length
    ensures result[..count] == old(result[..count])
    ensures fits ==> result[..count + (ps.start - code)] == result[..count] + Bytes(input, base, code, ps.start)
  {
    hide Bytes;
    fits := true;
    EmptyAppend(result[..count]);
    NoBytes(input, base, code);
    if KindOf(input[code], dt).Some? {
      ps.DecodePrefixes(input, code, dt);
      RunUnique(input, dt, code, ps.start, ps.last);
      if ps.start != code {
        if count + (ps.start - code) > result.Length { return false; }
        var next := PutBytes(result, count, input, code, ps.start, codeOffset, base);
        Prefixed(result[..next], old(result[..count]), Bytes(input, base, code, ps.start));
      }
    }
  }

  lemma NoBytes(input: seq<Byte>, base: int, p: nat)
    requires p <= |input|
    ensures Bytes(input, base, p, p) == []
  {}
}
