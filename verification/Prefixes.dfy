/** The prefixes of an x86 instruction: src/distorm/prefix.c. */
module Prefixes {
  import opened Basics

  datatype DecodeType = Decode16Bits | Decode32Bits | Decode64Bits

  /** The groups of prefixes; an instruction has at most one of each. */
  datatype Kind = LokRep | SegOvrd | OpSize | AddrSize | Rex

  const ALL_KINDS: set<Kind> := {LokRep, SegOvrd, OpSize, AddrSize, Rex}

  const INST_MAXIMUM_SIZE := 15

  /** get_prefix_flag. */
  function KindOf(b: Byte, dt: DecodeType): Option<Kind> {
    if 0x40 <= b <= 0x4f then (if dt == Decode64Bits then Some(Rex) else None)
    else if b == 0xf0 || b == 0xf2 || b == 0xf3 then Some(LokRep)
    else if b == 0x2e || b == 0x36 || b == 0x3e || b == 0x26 || b == 0x64 || b == 0x65 then Some(SegOvrd)
    else if b == 0x66 then Some(OpSize)
    else if b == 0x67 then Some(AddrSize)
    else None
  }

  /** The bytes from `lo` to `hi` are prefixes. */
  ghost predicate AllPrefixes(input: seq<Byte>, dt: DecodeType, lo: nat, hi: nat)
    requires hi <= |input|
  {
    forall i :: lo <= i < hi ==> KindOf(input[i], dt).Some?
  }

  /** No two of the prefixes from `lo` to `hi` are of the same kind. */
  ghost predicate Distinct(input: seq<Byte>, dt: DecodeType, lo: nat, hi: nat)
    requires hi <= |input|
  {
    forall i, j :: lo <= i < j < hi ==> KindOf(input[i], dt) != KindOf(input[j], dt)
  }

  /** The last prefixes of a run that can belong to one instruction: as many as possible
      without a repeated kind. */
  ghost predicate LongestDistinct(input: seq<Byte>, dt: DecodeType, lo: nat, start: nat, hi: nat)
    requires hi <= |input|
  {
    lo <= start <= hi && Distinct(input, dt, start, hi) &&
    forall s :: lo <= s <= hi && Distinct(input, dt, s, hi) ==> start <= s
  }

  /** `pos` says where the prefix of each kind is, for the prefixes from `lo` to `hi`. */
  ghost predicate Positions(input: seq<Byte>, dt: DecodeType, lo: nat, hi: nat, pos: map<Kind, nat>)
    requires hi <= |input|
  {
    && (forall i :: lo <= i < hi ==> KindOf(input[i], dt).Some? && KindOf(input[i], dt).value in pos
                                       && pos[KindOf(input[i], dt).value] == i)
    && (forall k :: k in pos ==> lo <= pos[k] < hi && KindOf(input[pos[k]], dt) == Some(k))
  }

  /** The end of the run of prefixes that starts at `p`. */
  ghost function RunEnd(input: seq<Byte>, dt: DecodeType, p: nat): (r: nat)
    requires p <= |input|
    ensures p <= r <= |input| && AllPrefixes(input, dt, p, r) && (r < |input| ==> KindOf(input[r], dt).None?)
    decreases |input| - p
  {
    if p < |input| && KindOf(input[p], dt).Some? then RunEnd(input, dt, p + 1) else p
  }

  /** The first of its prefixes that counts. */
  ghost function RunStart(input: seq<Byte>, dt: DecodeType, p: nat, last: nat, s: nat): (r: nat)
    requires p <= s <= last <= |input| && Distinct(input, dt, s, last)
    ensures LongestDistinct(input, dt, p, r, last)
    decreases s
  {
    if s > p && Distinct(input, dt, s - 1, last) then RunStart(input, dt, p, last, s - 1) else s
  }

  /** There is only one way to find them. */
  lemma {:induction false} RunUnique(input: seq<Byte>, dt: DecodeType, p: nat, start: nat, last: nat)
    requires p <= last <= |input| && AllPrefixes(input, dt, p, last)
    requires last < |input| ==> KindOf(input[last], dt).None?
    requires LongestDistinct(input, dt, p, start, last)
    ensures last == RunEnd(input, dt, p) && start == RunStart(input, dt, p, last, last)
  {
    RunEndUnique(input, dt, p, last);
  }

  lemma {:induction false} RunEndUnique(input: seq<Byte>, dt: DecodeType, p: nat, last: nat)
    requires p <= last <= |input| && AllPrefixes(input, dt, p, last)
    requires last < |input| ==> KindOf(input[last], dt).None?
    ensures last == RunEnd(input, dt, p)
    decreases last - p
  {
    if p < last { RunEndUnique(input, dt, p + 1, last); }
  }

  /** Extending a run by a byte of a new kind keeps its start; a repeated kind moves it
      behind the first occurrence. */
  lemma ExtendRun(input: seq<Byte>, dt: DecodeType, lo: nat, start: nat, hi: nat, k: Kind, pos: map<Kind, nat>)
    requires hi < |input| && LongestDistinct(input, dt, lo, start, hi) && Positions(input, dt, start, hi, pos)
    requires KindOf(input[hi], dt) == Some(k)
    ensures lo <= (if k in pos then pos[k] + 1 else start) <= hi + 1
    ensures LongestDistinct(input, dt, lo, if k in pos then pos[k] + 1 else start, hi + 1)
  {
    hide KindOf;
    var start', end := if k in pos then pos[k] + 1 else start, hi + 1;
    if k in pos { assert KindOf(input[pos[k]], dt) == KindOf(input[hi], dt); }
    forall s | lo <= s <= end && Distinct(input, dt, s, end)
      ensures start' <= s
    {
      if s <= hi { assert Distinct(input, dt, s, hi); }
    }
    forall i, j | start' <= i < j < end
      ensures KindOf(input[i], dt) != KindOf(input[j], dt)
    {
      assert KindOf(input[i], dt).Some? && pos[KindOf(input[i], dt).value] == i;
    }
  }

  /** At most five prefixes are taken into account. */
  lemma AtMostFive(input: seq<Byte>, dt: DecodeType, lo: nat, hi: nat)
    requires lo <= hi <= |input| && Distinct(input, dt, lo, hi) && AllPrefixes(input, dt, lo, hi)
    ensures hi - lo <= 5
  {
    CountKinds(input, dt, lo, hi);
    FiveKinds(KindsIn(input, dt, lo, hi));
  }

  lemma FiveKinds(s: set<Kind>)
    ensures |s| <= 5
  {
    forall k | k in s
      ensures k in ALL_KINDS
    {
      match k { case LokRep => case SegOvrd => case OpSize => case AddrSize => case Rex => }
    }
    Subset(s, ALL_KINDS);
    assert |ALL_KINDS| == 5;
  }

  ghost function KindsIn(input: seq<Byte>, dt: DecodeType, lo: nat, hi: nat): (r: set<Kind>)
    requires lo <= hi <= |input| && AllPrefixes(input, dt, lo, hi)
    ensures forall k :: k in r ==> exists i :: lo <= i < hi && KindOf(input[i], dt) == Some(k)
    ensures forall i :: lo <= i < hi ==> KindOf(input[i], dt).value in r
    decreases hi - lo
  {
    if lo == hi then {} else KindsIn(input, dt, lo, hi - 1) + {KindOf(input[hi - 1], dt).value}
  }

  lemma {:induction false} CountKinds(input: seq<Byte>, dt: DecodeType, lo: nat, hi: nat)
    requires lo <= hi <= |input| && Distinct(input, dt, lo, hi) && AllPrefixes(input, dt, lo, hi)
    ensures |KindsIn(input, dt, lo, hi)| == hi - lo
    decreases hi - lo
  {
    if lo < hi {
      CountKinds(input, dt, lo, hi - 1);
    }
  }

  lemma {:induction false} Subset(a: set<Kind>, b: set<Kind>)
    requires a <= b
    ensures |a| <= |b|
    decreases |a|
  {
    if a != {} {
      var x :| x in a;
      Subset(a - {x}, b - {x});
    }
  }

  lemma NoPrefixes(input: seq<Byte>, dt: DecodeType, p: nat)
    requires p <= |input|
    ensures AllPrefixes(input, dt, p, p) && LongestDistinct(input, dt, p, p, p) && Positions(input, dt, p, p, map[])
  {}

  lemma ExtendAll(input: seq<Byte>, dt: DecodeType, lo: nat, hi: nat)
    requires hi < |input| && AllPrefixes(input, dt, lo, hi) && KindOf(input[hi], dt).Some?
    ensures AllPrefixes(input, dt, lo, hi + 1)
  {}

  /** What the scan knows of the prefixes it keeps. */
  lemma RunFacts(input: seq<Byte>, dt: DecodeType, lo: nat, start: nat, hi: nat)
    requires hi <= |input| && AllPrefixes(input, dt, lo, hi) && LongestDistinct(input, dt, lo, start, hi)
    ensures lo <= start <= hi && Distinct(input, dt, start, hi) && hi - start <= 5
  {
    AtMostFive(input, dt, start, hi);
  }

  class PrefixState {
    var start: nat           // the first prefix taken into account
    var last: nat            // behind the last one
    var pos: map<Kind, nat>  // where the prefix of a kind is
    var total: set<Kind>     // the kinds that apply
    var rexValid: bool       // a REX prefix stands right before the instruction
    var special: nat         // prefixes that became part of the instruction

    constructor (code: nat)
      ensures start == last == code && pos == map[] && total == {} && !rexValid && special == 0
    {
      start, last, pos, total, rexValid, special := code, code, map[], {}, false, 0;
    }

    /** decode_prefixes: the scan stays within the input, stops at the first byte that
        is no prefix, and keeps the longest end of the run without a repetition. */
    method DecodePrefixes(input: seq<Byte>, code0: nat, dt: DecodeType)
      requires code0 <= |input| && pos == map[] && total == {}
      modifies this`start, this`last, this`pos, this`total
      ensures code0 <= last <= |input| && AllPrefixes(input, dt, code0, last)
      ensures last < |input| ==> KindOf(input[last], dt).None?
      ensures LongestDistinct(input, dt, code0, start, last) && last - start <= 5
      ensures Positions(input, dt, start, last, pos) && total == pos.Keys
    {
      hide KindOf, AllPrefixes, LongestDistinct, Positions, Distinct;
      NoPrefixes(input, dt, code0);
      var code, codeLen := code0, |input| - code0;
      start := code;
      codeLen := codeLen - 1;
      while codeLen >= 0 || code - start >= INST_MAXIMUM_SIZE
        invariant code0 <= start <= code <= |input| && codeLen == |input| - code - 1
        invariant AllPrefixes(input, dt, code0, code)
        invariant LongestDistinct(input, dt, code0, start, code)
        invariant Positions(input, dt, start, code, pos) && total == pos.Keys
        decreases codeLen + 1
      {
        RunFacts(input, dt, code0, start, code);
        var kind := KindOf(input[code], dt);
        if kind.None? {
          break;
        }
        ExtendRun(input, dt, code0, start, code, kind.value, pos);
        ExtendAll(input, dt, code0, code);
        Note(kind.value, code, input, dt);
        code := code + 1;
        codeLen := codeLen - 1;
      }
      RunFacts(input, dt, code0, start, code);
      last := code;
    }

    /** The last `k` prefixes, of which the first is of kind `kind`, become part of the opcode. */
    method Fold(k: nat, kind: Kind)
      requires k <= last
      modifies this`last, this`special, this`total, this`pos
      ensures last == old(last) - k && special == k && total == old(total) - {kind} && pos == old(pos) - {kind}
    {
      last := last - k;
      special := k;
      total := total - {kind};
      pos := pos - {kind};
    }

    /** One prefix: if its kind occurred before, everything up to that is dropped. */
    method Note(k: Kind, code: nat, ghost input: seq<Byte>, ghost dt: DecodeType)
      requires start <= code < |input| && KindOf(input[code], dt) == Some(k)
      requires Positions(input, dt, start, code, pos) && total == pos.Keys && Distinct(input, dt, start, code)
      modifies this`start, this`pos, this`total
      ensures start == if k in old(pos) then old(pos)[k] + 1 else old(start)
      ensures Positions(input, dt, start, code + 1, pos) && total == pos.Keys
    {
      hide KindOf, Positions, Distinct, Behind;
      if k in total {
        var first := pos[k];
        total := set j | j in pos && pos[j] >= first;
        PositionsDropped(input, dt, start, code, pos, k);
        pos := Behind(pos, first);
        start := PrefixMin(pos, code);
        Least(input, dt, old(start), code, old(pos), first, start);
      } else {
        PositionsAdded(input, dt, start, code, pos, k);
        total := total + {k};
      }
      pos := pos[k := code];
    }
  }

  /** PREFIX_MIN: the first of the positions, `def` if there are none before it. */
  method PrefixMin(pos: map<Kind, nat>, def: nat) returns (m: nat)
    ensures m <= def && (m < def ==> exists j :: j in pos && pos[j] == m)
    ensures forall j :: j in pos ==> m <= pos[j]
  {
    m := def;
    var others := pos.Keys;
    while others != {}
      invariant others <= pos.Keys
      invariant m <= def && (m < def ==> exists j :: j in pos && pos[j] == m)
      invariant forall j :: j in pos && j !in others ==> m <= pos[j]
      decreases |others|
    {
      var j :| j in others;
      if pos[j] < m { m := pos[j]; }
      others := others - {j};
    }
  }

  /** The positions behind `first`. */
  function Behind(pos: map<Kind, nat>, first: nat): map<Kind, nat> {
    map j | j in pos && pos[j] > first :: pos[j]
  }

  lemma PositionsAdded(input: seq<Byte>, dt: DecodeType, lo: nat, hi: nat, pos: map<Kind, nat>, k: Kind)
    requires lo <= hi < |input| && Positions(input, dt, lo, hi, pos) && k !in pos && KindOf(input[hi], dt) == Some(k)
    ensures Positions(input, dt, lo, hi + 1, pos[k := hi])
  {
    hide KindOf;
  }

  lemma PositionsDropped(input: seq<Byte>, dt: DecodeType, lo: nat, hi: nat, pos: map<Kind, nat>, k: Kind)
    requires hi < |input| && Positions(input, dt, lo, hi, pos) && k in pos && KindOf(input[hi], dt) == Some(k)
    ensures Positions(input, dt, pos[k] + 1, hi + 1, Behind(pos, pos[k])[k := hi])
    ensures (set j | j in pos && pos[j] >= pos[k]) == Behind(pos, pos[k]).Keys + {k}
    ensures lo <= pos[k] < hi
    ensures forall j :: j in Behind(pos, pos[k]) ==>
              j in pos && Behind(pos, pos[k])[j] == pos[j] && pos[k] < pos[j] < hi
  {
    hide KindOf, Positions, Behind;
    DroppedKinds(input, dt, lo, hi, pos, k);
    PositionsBehind(input, dt, lo, hi, pos, pos[k] + 1);
    PositionsAdded(input, dt, pos[k] + 1, hi, Behind(pos, pos[k]), k);
  }

  lemma DroppedKinds(input: seq<Byte>, dt: DecodeType, lo: nat, hi: nat, pos: map<Kind, nat>, k: Kind)
    requires hi < |input| && Positions(input, dt, lo, hi, pos) && k in pos
    ensures lo <= pos[k] < hi && k !in Behind(pos, pos[k])
    ensures (set j | j in pos && pos[j] >= pos[k]) == Behind(pos, pos[k]).Keys + {k}
    ensures forall j :: j in Behind(pos, pos[k]) ==>
              j in pos && Behind(pos, pos[k])[j] == pos[j] && pos[k] < pos[j] < hi
  {
    hide KindOf;
    forall j | j in pos && pos[j] >= pos[k]
      ensures j in Behind(pos, pos[k]) || j == k
    {
      assert KindOf(input[pos[j]], dt) == Some(j) && KindOf(input[pos[k]], dt) == Some(k);
    }
  }

  lemma PositionsBehind(input: seq<Byte>, dt: DecodeType, lo: nat, hi: nat, pos: map<Kind, nat>, lo': nat)
    requires hi <= |input| && Positions(input, dt, lo, hi, pos) && lo < lo' <= hi
    ensures Positions(input, dt, lo', hi, Behind(pos, lo' - 1))
  {
    hide KindOf;
  }

  /** The least position behind `first` is the next one. */
  lemma Least(input: seq<Byte>, dt: DecodeType, lo: nat, hi: nat, pos: map<Kind, nat>, first: nat, least: nat)
    requires hi <= |input| && Positions(input, dt, lo, hi, pos) && lo <= first < hi && first < least <= hi
    requires forall j :: j in Behind(pos, first) ==> least <= Behind(pos, first)[j]
    ensures least == first + 1
  {
    if first + 1 < hi {
      var j := KindOf(input[first + 1], dt).value;
      assert pos[j] == first + 1 && j in Behind(pos, first);
    }
  }
}
