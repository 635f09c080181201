/** What src/distorm/decoder.c makes of the bytes of an instruction, in terms of the bytes, the mode and
    the flags of the instruction alone: what its prefixes mean, where its opcode ends, and how long
    its operands are. */
module Instructions {
  import opened Basics
  import opened Prefixes
  import opened Decoder

  // ----- numbers -----

  /** Operands of 16 bits: the prefix toggles the size outside of 64 bits, and sets it there. */
  predicate Short(c: Context) {
    match c.dt
    case Decode16Bits => OpSize !in c.total
    case Decode32Bits => OpSize in c.total
    case Decode64Bits => OpSize in c.total
  }

  /** A full immediate of eight bytes: in 64 bits, without the prefix, for an instruction that is
      promoted by REX.W and has it. */
  predicate Wide(c: Context) {
    && c.dt == Decode64Bits && OpSize !in c.total && Rex in c.total && c.rex / 8 % 2 == 1
    && c.flags.bits64 && c.flags.preRex
  }

  /** The bytes of the operands that are numbers. */
  lemma NumberBytes(c: Context, input: seq<Byte>, p: nat)
    ensures OperandBytes(c, Imm8, input, p) == OperandBytes(c, RelByte, input, p) == 1
    ensures OperandBytes(c, Imm16, input, p) == 2 && OperandBytes(c, Imm32, input, p) == 4
    ensures OperandBytes(c, ImmFull, input, p) == if Short(c) then 2 else if Wide(c) then 8 else 4
    ensures OperandBytes(c, RelFull, input, p) == if Short(c) then 2 else 4
    ensures OperandBytes(c, FarPointer, input, p) == if Short(c) then 4 else 6
    ensures c.dt == Decode16Bits ==> OperandBytes(c, MemOffset, input, p) == if AddrSize in c.total then 4 else 2
    ensures c.dt == Decode32Bits ==> OperandBytes(c, MemOffset, input, p) == if AddrSize in c.total then 2 else 4
    ensures c.dt == Decode64Bits ==> OperandBytes(c, MemOffset, input, p) == if AddrSize in c.total then 4 else 8
  {}

  /** In 16 and 32 bits a full immediate has two bytes if and only if just one of the 16-bit mode and
      the operand-size prefix is there. */
  lemma FullImmediate(c: Context, input: seq<Byte>, p: nat)
    requires c.dt != Decode64Bits
    ensures OperandBytes(c, ImmFull, input, p) == 2 <==> (c.dt == Decode16Bits) != (OpSize in c.total)
    ensures OperandBytes(c, ImmFull, input, p) in {2, 4}
  {}

  // ----- memory -----

  /** Addresses of 16 bits. */
  predicate ShortAddress(c: Context) {
    (c.dt == Decode16Bits && AddrSize !in c.total) || (c.dt == Decode32Bits && AddrSize in c.total)
  }

  /** Table 2-1 of the processor manual: the bytes behind a ModR/M byte with 16-bit addresses. */
  function Table16(mod: nat, rm: nat): nat
    requires mod < 4 && rm < 8
  {
    if mod == 1 then 1 else if mod == 2 then 2 else if mod == 0 && rm == 6 then 2 else 0
  }

  /** Tables 2-2 and 2-3: with other addresses; `sib` is the base of the SIB byte that follows if `rm` is 4. */
  function Table32(mod: nat, rm: nat, sib: nat): nat
    requires mod < 4 && rm < 8 && sib < 8
  {
    match mod
    case 0 => if rm == 4 then (if sib == 5 then 5 else 1) else if rm == 5 then 4 else 0
    case 1 => if rm == 4 then 2 else 1
    case 2 => if rm == 4 then 5 else 4
    case _ => 0
  }

  lemma AddressTable(c: Context, op: OpType, input: seq<Byte>, p: nat)
    requires op == Memory || op == RegMem
    ensures OperandBytes(c, op, input, p) ==
            var (mod, rm) := (c.modrm / 0x40, c.modrm % 8);
            if ShortAddress(c) then Table16(mod, rm) else Table32(mod, rm, if p < |input| then input[p] % 8 else 0)
  {}

  // ----- registers -----

  /** The control registers are 0, 2, 3, 4 and 8; the last is reached by REX.R, or by a LOCK prefix
      in 32 bits.  The debug registers 4 and 5 do not exist; there are six segment registers, and the
      second, CS, is no destination.  Memory is not a register, and numbers are always there. */
  lemma RegistersExist(c: Context, first: bool, input: seq<Byte>, p: nat)
    ensures var reg, more := c.modrm / 8 % 8, c.rex / 4 % 2 == 1 || (c.dt == Decode32Bits && c.lock);
            && (OperandExists(c, ControlReg, first) <==> if more then reg == 0 else reg in {0, 2, 3, 4})
            && (OperandExists(c, DebugReg, first) <==> reg !in {4, 5})
            && (OperandExists(c, SegmentReg, first) <==> reg in {0, 2, 3, 4, 5} || (reg == 1 && !first))
    ensures OperandExists(c, Memory, first) <==> c.modrm < 0xc0
    ensures OperandExists(c, RegMem, first) && OperandExists(c, Register, first)
    ensures !OperandExists(c, NoOperand, first) && !OperandExists(c, Dummy, first)
    ensures forall op :: op in {ControlReg, DebugReg, SegmentReg, Register} ==> OperandBytes(c, op, input, p) == 0
    ensures forall op :: op in {Imm8, Imm16, Imm32, ImmFull, RelByte, RelFull, FarPointer, MemOffset} ==>
              OperandExists(c, op, first)
  {}

  // ----- the length of an instruction -----

  /** The operands that an instruction has, in their order, each with whether it is the first. */
  function Present(ii: InstInfo): seq<(OpType, bool)> {
    (if ii.d in {NoOperand, Dummy} then [] else [(ii.d, true)])
    + ((if ii.s in {NoOperand, Dummy} then [] else [(ii.s, false)])
       + ((if !ii.flags.useOp3 || ii.op3 in {NoOperand, Dummy} then [] else [(ii.op3, false)])
          + (if ii.flags.useOp4 then [(ii.op4, false)] else [])))
  }

  function Length(c: Context, ops: seq<(OpType, bool)>, input: seq<Byte>, p: nat): nat {
    if ops == [] then 0
    else
      var n := OperandBytes(c, ops[0].0, input, p);
      n + Length(c, ops[1..], input, p + n)
  }

  ghost predicate AllExist(c: Context, ops: seq<(OpType, bool)>) {
    forall i :: 0 <= i < |ops| ==> OperandExists(c, ops[i].0, ops[i].1)
  }

  /** Operands that follow each other from `p` to `e`. */
  ghost predicate Spans(c: Context, ops: seq<(OpType, bool)>, input: seq<Byte>, p: nat, e: nat) {
    AllExist(c, ops) && e == p + Length(c, ops, input, p) <= |input|
  }

  lemma SpansNone(c: Context, input: seq<Byte>, p: nat, e: nat)
    ensures Spans(c, [], input, p, e) <==> e == p <= |input|
  {}

  lemma SpansOne(c: Context, op: OpType, first: bool, ops: seq<(OpType, bool)>, input: seq<Byte>, p: nat, e: nat)
    ensures var n := OperandBytes(c, op, input, p);
            Spans(c, [(op, first)] + ops, input, p, e) <==>
            OperandExists(c, op, first) && Spans(c, ops, input, p + n, e)
    ensures var r := OperandEnd(c, op, first, input, p); var n := OperandBytes(c, op, input, p);
            r == if OperandExists(c, op, first) && p + n <= |input| then Some(p + n) else None
    ensures Spans(c, ops, input, p, e) ==> p <= e <= |input|
  {
    hide OperandBytes, OperandExists;
    var all := [(op, first)] + ops;
    assert all[1..] == ops && all[0] == (op, first);
    if AllExist(c, all) {
      assert OperandExists(c, all[0].0, all[0].1);
      forall i | 0 <= i < |ops| ensures OperandExists(c, ops[i].0, ops[i].1) { assert all[i + 1] == ops[i]; }
    }
  }

  /** The operands of an instruction lie one behind the other, and all of them must exist and be there. */
  lemma OperandsLength(c: Context, ii: InstInfo, input: seq<Byte>, p: nat, e: nat)
    requires p <= |input|
    ensures OperandsEnd(c, ii, input, p) == Some(e) <==> Spans(c, Present(ii), input, p, e)
  {
    hide OperandBytes, OperandExists, OperandEnd, Spans;
    var o1 := if ii.d in {NoOperand, Dummy} then [] else [(ii.d, true)];
    var o2 := if ii.s in {NoOperand, Dummy} then [] else [(ii.s, false)];
    var o3 := if !ii.flags.useOp3 || ii.op3 in {NoOperand, Dummy} then [] else [(ii.op3, false)];
    var o4 := if ii.flags.useOp4 then [(ii.op4, false)] else [];
    var r1 := Then(Some(p), Real(ii.d), c, ii.d, true, input);
    var r2 := Then(r1, Real(ii.s), c, ii.s, false, input);
    var r3 := Then(r2, ii.flags.useOp3 && Real(ii.op3), c, ii.op3, false, input);
    var r4 := Then(r3, ii.flags.useOp4, c, ii.op4, false, input);
    OneMore(c, Real(ii.d), ii.d, true, o2 + (o3 + o4), input, Some(p), e);
    OneMore(c, Real(ii.s), ii.s, false, o3 + o4, input, r1, e);
    OneMore(c, ii.flags.useOp3 && Real(ii.op3), ii.op3, false, o4, input, r2, e);
    OneMore(c, ii.flags.useOp4, ii.op4, false, [], input, r3, e);
    Concatenated(o1, o2, o3, o4);
    if r4.Some? { SpansNone(c, input, r4.value, e); }
  }

  lemma Concatenated<T>(o1: seq<T>, o2: seq<T>, o3: seq<T>, o4: seq<T>)
    ensures [] + (o2 + (o3 + o4)) == o2 + (o3 + o4) && [] + (o3 + o4) == o3 + o4 && [] + o4 == o4 && o4 + [] == o4
  {}

  /** What is left to span once one operand has been read, or left out. */
  ghost predicate Remaining(c: Context, ops: seq<(OpType, bool)>, input: seq<Byte>, r: Option<nat>, e: nat) {
    r.Some? && r.value <= |input| && Spans(c, ops, input, r.value, e)
  }

  lemma OneMore(c: Context, present: bool, op: OpType, first: bool, ops: seq<(OpType, bool)>, input: seq<Byte>,
                r: Option<nat>, e: nat)
    requires r.Some? ==> r.value <= |input|
    ensures var r' := Then(r, present, c, op, first, input);
            && (r'.Some? ==> r'.value <= |input|)
            && (Remaining(c, (if present then [(op, first)] else []) + ops, input, r, e) <==>
                Remaining(c, ops, input, r', e))
  {
    hide OperandBytes, OperandExists, OperandEnd, Spans;
    if r.Some? {
      if present {
        SpansOne(c, op, first, ops, input, r.value, e);
        SpansOne(c, op, first, ops, input, r.value + OperandBytes(c, op, input, r.value), e);
      } else {
        assert [] + ops == ops;
      }
    }
  }

  /** The end of an instruction whose opcode ends at `q`: it is allowed in its mode, its ModR/M byte is
      there if it has one, and a register where that is demanded; its operands exist and are there;
      it is not longer than fifteen bytes; an opcode byte of 3DNow and a comparison type below 8 are
      there if they belong to it. */
  lemma InstructionLength(t: Tables, input: seq<Byte>, ii: InstInfo, q: nat, start: nat, dt: DecodeType,
                          total: set<Kind>, lock: bool, rex: Byte, e: nat)
    requires TablesOk(t) && q <= |input|
    ensures var modrm := ii.d !in {NoOperand, Dummy} && ii.flags.includeModrm;
            var p0 := if modrm then q + 1 else q;
            var c := Context(dt, total, lock, rex, ii.flags, if modrm && q < |input| then input[q] else 0);
            var p := p0 + Length(c, Present(ii), input, p0);
            InstructionEnd(t, input, ii, q, start, dt, total, lock, rex) == Some(e) <==>
            && (if dt == Decode64Bits then !ii.flags.invalid64 else !ii.flags.only64)
            && (modrm ==> q < |input| && (ii.flags.modRR ==> input[q] >= 0xc0))
            && AllExist(c, Present(ii)) && p <= |input|
            && (if ii.flags.fetch3DNow then
                  p < |input| && t.table3DNow[input[p]].Info?
                  && Ends(t.table3DNow[input[p]].info, input, p + 1, start, e)
                else Ends(ii, input, p, start, e))
  {
    hide OperandsEnd, Length, Present, AllExist, Suffixed, Ends;
    var modrm := NeedsModrm(ii);
    var p0 := if modrm then q + 1 else q;
    var c := Context(dt, total, lock, rex, ii.flags, ModrmOf(ii, input, q));
    if p0 <= |input| {
      var p := p0 + Length(c, Present(ii), input, p0);
      SpansIff(c, ii, input, p0);
      EndsIff(ii, input, p, start, e);
      if p < |input| && t.table3DNow[input[p]].Info? { EndsIff(t.table3DNow[input[p]].info, input, p + 1, start, e); }
    }
  }

  lemma SpansIff(c: Context, ii: InstInfo, input: seq<Byte>, p: nat)
    requires p <= |input|
    ensures var e := p + Length(c, Present(ii), input, p);
            OperandsEnd(c, ii, input, p) == if AllExist(c, Present(ii)) && e <= |input| then Some(e) else None
  {
    hide OperandsEnd, Length, Present, AllExist;
    var r := OperandsEnd(c, ii, input, p);
    OperandsLength(c, ii, input, p, p + Length(c, Present(ii), input, p));
    if r.Some? { OperandsLength(c, ii, input, p, r.value); }
  }

  /** The instruction ends at `e` if its operands end at `p`. */
  ghost predicate Ends(ii: InstInfo, input: seq<Byte>, p: nat, start: nat, e: nat) {
    && p - start <= 15
    && (if ii.flags.pseudoOpcode then p < |input| && input[p] < 8 && e == p + 1 else e == p)
  }

  lemma EndsIff(ii: InstInfo, input: seq<Byte>, p: nat, start: nat, e: nat)
    ensures Suffixed(ii, input, p, start) == Some(e) <==> Ends(ii, input, p, start, e)
  {}

  // ----- prefixes -----

  /** A byte from `lo` to `hi` is one of these. */
  ghost predicate Has(input: seq<Byte>, lo: nat, hi: nat, bytes: set<int>)
    requires hi <= |input|
  {
    exists i :: lo <= i < hi && input[i] in bytes
  }

  /** A REX prefix right before the instruction. */
  ghost predicate RexThere(input: seq<Byte>, dt: DecodeType, lo: nat, hi: nat)
    requires lo <= hi <= |input|
  {
    dt == Decode64Bits && lo < hi && 0x40 <= input[hi - 1] <= 0x4f
  }

  /** Which prefixes apply to an instruction: LOCK and the repetitions, and the address size, wherever
      they stand; in 64 bits REX right before the instruction only, no operand size beside REX.W, and
      no segments if one of CS, DS, ES and SS is among them. */
  lemma PrefixesApply(input: seq<Byte>, dt: DecodeType, lo: nat, hi: nat)
    requires lo <= hi <= |input| && AllPrefixes(input, dt, lo, hi)
    ensures RexValidAt(input, dt, lo, hi) <==> RexThere(input, dt, lo, hi)
    ensures var all := Effective(input, dt, lo, hi);
            && (LokRep in all <==> Has(input, lo, hi, {0xf0, 0xf2, 0xf3}))
            && (AddrSize in all <==> Has(input, lo, hi, {0x67}))
            && (Rex in all <==> RexThere(input, dt, lo, hi))
            && (OpSize in all <==>
                 Has(input, lo, hi, {0x66}) && !(RexThere(input, dt, lo, hi) && input[hi - 1] >= 0x48))
            && (SegOvrd in all <==>
                 Has(input, lo, hi, {0x26, 0x2e, 0x36, 0x3e, 0x64, 0x65})
                 && !(dt == Decode64Bits && Has(input, lo, hi, {0x26, 0x2e, 0x36, 0x3e})))
  {
    hide KindOf, KindsIn, AllPrefixes, Occurs, Has;
    KindHas(input, dt, lo, hi, LokRep, {0xf0, 0xf2, 0xf3}) by { KindBytes(dt); }
    KindHas(input, dt, lo, hi, AddrSize, {0x67}) by { KindBytes(dt); }
    KindHas(input, dt, lo, hi, OpSize, {0x66}) by { KindBytes(dt); }
    KindHas(input, dt, lo, hi, SegOvrd, {0x26, 0x2e, 0x36, 0x3e, 0x64, 0x65}) by { KindBytes(dt); }
    RexIff(input, dt, lo, hi);
    IgnoredHas(input, lo, hi);
  }

  /** The bytes of the kinds of prefixes; those of REX are none outside of 64 bits. */
  lemma KindBytes(dt: DecodeType)
    ensures forall b: Byte :: KindOf(b, dt) == Some(LokRep) <==> b in {0xf0, 0xf2, 0xf3}
    ensures forall b: Byte :: KindOf(b, dt) == Some(AddrSize) <==> b in {0x67}
    ensures forall b: Byte :: KindOf(b, dt) == Some(OpSize) <==> b in {0x66}
    ensures forall b: Byte :: KindOf(b, dt) == Some(SegOvrd) <==> b in {0x26, 0x2e, 0x36, 0x3e, 0x64, 0x65}
    ensures forall b: Byte :: KindOf(b, dt) == Some(Rex) <==> dt == Decode64Bits && 0x40 <= b < 0x50
  {}

  lemma KindHas(input: seq<Byte>, dt: DecodeType, lo: nat, hi: nat, k: Kind, bytes: set<int>)
    requires lo <= hi <= |input| && AllPrefixes(input, dt, lo, hi)
    requires forall b: Byte :: KindOf(b, dt) == Some(k) <==> b in bytes
    ensures k in KindsIn(input, dt, lo, hi) <==> Has(input, lo, hi, bytes)
  {
    hide KindOf;
    if i :| lo <= i < hi && input[i] in bytes { assert KindOf(input[i], dt).value == k; }
  }

  lemma RexIff(input: seq<Byte>, dt: DecodeType, lo: nat, hi: nat)
    requires lo <= hi <= |input| && AllPrefixes(input, dt, lo, hi)
    ensures RexValidAt(input, dt, lo, hi) <==> RexThere(input, dt, lo, hi)
    ensures RexThere(input, dt, lo, hi) ==>
              Rex in KindsIn(input, dt, lo, hi) && (RexW(input[hi - 1]) <==> input[hi - 1] >= 0x48)
  {
    if RexThere(input, dt, lo, hi) { assert KindOf(input[hi - 1], dt).value == Rex; }
  }

  lemma IgnoredHas(input: seq<Byte>, lo: nat, hi: nat)
    requires hi <= |input|
    ensures Occurs(input, lo, hi, IgnoredSegment) <==> Has(input, lo, hi, {0x26, 0x2e, 0x36, 0x3e})
    ensures Occurs(input, lo, hi, IsLock) <==> Has(input, lo, hi, {0xf0})
  {
    if i :| lo <= i < hi && input[i] in {0x26, 0x2e, 0x36, 0x3e} { assert IgnoredSegment(input[i]); }
    if i :| lo <= i < hi && input[i] in {0xf0} { assert IsLock(input[i]); }
  }

  // ----- opcodes -----

  /** What a place of a table holds: an instruction whose opcode ends at `e`, or none. */
  predicate Holds(n: Node, e: nat, r: Option<(InstInfo, nat)>) {
    r == if n.Info? then Some((n.info, e)) else None
  }

  /** An opcode of one byte, with or without the REG bits of the byte behind it, or of one or two bytes
      if its table is divided: then the second byte belongs to it from C0 on.  In 64 bits 63 is MOVSXD. */
  lemma FirstByte(t: Tables, input: seq<Byte>, p: nat, rexValid: bool, dt: DecodeType)
    requires TablesOk(t) && p < |input| && !t.root[input[p]].Full?
    ensures var n := t.root[input[p]]; var r := Lookup(t, input, p, rexValid, dt);
            match n
            case Null => r == None
            case Info(ii) =>
              r == Some((if input[p] == 0x63 then (if dt == Decode64Bits then t.movsxd else t.arpl) else ii, p + 1))
            case Group(kids) => if p + 1 < |input| then Holds(kids[input[p + 1] / 8 % 8], p + 1, r) else r == None
            case Divided(kids) =>
              if p + 1 >= |input| then r == None
              else if input[p + 1] < 0xc0 then Holds(kids[input[p + 1] / 8 % 8], p + 1, r)
              else Holds(kids[input[p + 1] - 0xb8], p + 2, r)
  {
    assert WellFormed(t.root[input[p]]);
  }

  /** An opcode of two bytes.  Behind a mandatory prefix a REX prefix may stand between them.  In a
      divided table an instruction goes by the REG bits if it says so or if the byte behind is below C0,
      and by that byte otherwise; the byte belongs to the opcode unless it is the ModR/M byte. */
  lemma SecondByte(t: Tables, input: seq<Byte>, p: nat, rexValid: bool, dt: DecodeType)
    requires TablesOk(t) && p < |input| && t.root[input[p]].Full?
    ensures |t.root[input[p]].kids| == 256
    ensures var q := if rexValid then p + 2 else p + 1; var r := Lookup(t, input, p, rexValid, dt);
            if q >= |input| then r == None
            else
              match t.root[input[p]].kids[input[q]]
              case Null => r == None
              case Info(ii) => r == Some((if input[p] == input[q] == 0x0f then t.info3DNow else ii, q + 1))
              case Group(kids) =>
                if input[p] == input[q] == 0x0f then r == Some((t.info3DNow, q + 1))
                else if q + 1 < |input| then |kids| == 8 && Holds(kids[input[q + 1] / 8 % 8], q + 1, r)
                else r == None
              case Divided(kids) =>
                if input[p] == input[q] == 0x0f then r == Some((t.info3DNow, q + 1))
                else if q + 1 >= |input| then r == None
                else
                  |kids| == 72 &&
                  var b := input[q + 1];
                  var byReg := kids[b / 8 % 8];
                  var n := if b < 0xc0 || (byReg.Info? && byReg.info.flags.notDivided) then byReg else kids[b - 0xb8];
                  Holds(n, if n.Info? && n.info.flags.includeModrm then q + 1 else q + 2, r)
              case Full(_) => input[p] == input[q] == 0x0f ==> r == Some((t.info3DNow, q + 1))
  {
    assert WellFormed(t.root[input[p]]);
    var q := if rexValid then p + 2 else p + 1;
    if q < |input| { assert WellFormed(t.root[input[p]].kids[input[q]]); }
  }

  /** An opcode of three bytes, or of four, which no table may divide. */
  lemma ThirdByte(t: Tables, input: seq<Byte>, p: nat, rexValid: bool, dt: DecodeType)
    requires TablesOk(t) && p < |input| && t.root[input[p]].Full? && |t.root[input[p]].kids| == 256
    requires var q := if rexValid then p + 2 else p + 1;
             q < |input| && t.root[input[p]].kids[input[q]].Full? && !(input[p] == input[q] == 0x0f)
    ensures var q := if rexValid then p + 2 else p + 1; var r := Lookup(t, input, p, rexValid, dt);
            var second := t.root[input[p]].kids[input[q]].kids;
            |second| == 256 &&
            if q + 1 >= |input| then r == None
            else
              match second[input[q + 1]]
              case Null => r == None
              case Info(ii) => r == Some((ii, q + 2))
              case Group(kids) =>
                if q + 2 < |input| then |kids| == 8 && Holds(kids[input[q + 2] / 8 % 8], q + 2, r) else r == None
              case Divided(_) => r == None
              case Full(third) =>
                |third| == 256 && if q + 2 < |input| then Holds(third[input[q + 2]], q + 3, r) else r == None
  {
    assert WellFormed(t.root[input[p]]);
    var q := if rexValid then p + 2 else p + 1;
    var n := t.root[input[p]].kids[input[q]];
    assert WellFormed(n);
    if q + 1 < |input| {
      WalkThird(t, n.kids[input[q + 1]], input, q + 2);
    }
  }

  lemma WalkThird(t: Tables, n: Node, input: seq<Byte>, p: nat)
    requires WellFormed(n) && p <= |input|
    ensures var r := Walk(t, n, 3, input, p);
            match n
            case Null => r == None
            case Info(ii) => r == Some((ii, p))
            case Group(kids) => if p < |input| then Holds(kids[input[p] / 8 % 8], p, r) else r == None
            case Divided(_) => r == None
            case Full(kids) => if p < |input| then Holds(kids[input[p]], p + 1, r) else r == None
  {
    if n.Full? && p < |input| { assert WellFormed(n.kids[input[p]]); }
  }

  /** The prefix that may be the first byte of an opcode: 66, F2 or F3 right before the instruction, or
      right before its REX prefix if there is room for both. */
  lemma MandatoryPrefix(t: Tables, input: seq<Byte>, start: nat, code: nat, rexValid: bool, dt: DecodeType)
    requires TablesOk(t) && start <= code <= |input| && RexOk(input, start, code, rexValid)
    ensures var k := if rexValid then 2 else 1;
            var p := if rexValid && start + 2 > code then code - 1 else code - k;
            var plain := Lookup(t, input, code, false, dt);
            var r := Locate(t, input, start, code, rexValid, dt);
            if start < code && input[p] in {0x66, 0xf2, 0xf3} && Lookup(t, input, code - k, rexValid, dt).Some? then
              && p == code - k
              && r == Some((Lookup(t, input, code - k, rexValid, dt).value.0,
                            Lookup(t, input, code - k, rexValid, dt).value.1, k))
              && MandatoryKind(input, start, code, rexValid) == if input[p] == 0x66 then OpSize else LokRep
            else r == if plain.Some? then Some((plain.value.0, plain.value.1, 0)) else None
  {
    hide Lookup;
    LocateIs(t, input, start, code, rexValid, dt);
  }

  /** An instruction that moves a full immediate into a register. */
  ghost predicate MovesImmediate(n: Node) {
    n.Info? && n.info.d == Register && n.info.s == ImmFull
    && n.info.flags == Flags(false, false, false, false, false, false, false, false, true, true, false)
  }

  /** 66 B8 34 12 90 90: in 32 and in 64 bits the prefix makes it an instruction of four bytes, in 16 bits
      one of six. */
  lemma PrefixedMove(t: Tables, dt: DecodeType)
    requires TablesOk(t) && t.root[0x66].Null? && MovesImmediate(t.root[0xb8])
    ensures var input := [0x66, 0xb8, 0x34, 0x12, 0x90, 0x90];
            AllPrefixes(input, dt, 0, 1) &&
            InstrAt(t, input, dt, 0, 1).0 == if dt == Decode16Bits then Some(6) else Some(4)
  {
    hide Lookup, KindOf, Effective, Has, InstrAt, Length, Present, AllExist, MandatoryKind, InstructionEnd, Locate;
    var input: seq<Byte> := [0x66, 0xb8, 0x34, 0x12, 0x90, 0x90];
    assert AllPrefixes(input, dt, 0, 1) by { KindBytes(dt); }
    PrefixesApply(input, dt, 0, 1);
    InstrIs(t, input, dt, 0, 1);
    FirstByte(t, input, 0, false, dt);
    FirstByte(t, input, 1, false, dt);
    MandatoryPrefix(t, input, 0, 1, false, dt);
    var ii := t.root[0xb8].info;
    var total := Effective(input, dt, 0, 1);
    assert OpSize in total by { assert Has(input, 0, 1, {0x66}) by { OneByte(input); } }
    var lock := LokRep in total && Occurs(input, 0, 1, IsLock);
    var e := if dt == Decode16Bits then 6 else 4;
    InstructionLength(t, input, ii, 2, 0, dt, total, lock, 0, e);
    var c := Context(dt, total, lock, 0, ii.flags, 0);
    MoveLength(c, ii, input);
  }

  lemma OneByte(input: seq<Byte>)
    requires input != [] && input[0] == 0x66
    ensures Has(input, 0, 1, {0x66})
  {
    assert input[0] in {0x66};
  }

  lemma MoveLength(c: Context, ii: InstInfo, input: seq<Byte>)
    requires MovesImmediate(Info(ii)) && OpSize in c.total
    ensures AllExist(c, Present(ii))
    ensures Length(c, Present(ii), input, 2) == if c.dt == Decode16Bits then 4 else 2
  {
    assert Present(ii) == [(Register, true), (ImmFull, false)];
    RegistersExist(c, true, input, 2);
    NumberBytes(c, input, 2);
    hide OperandBytes, OperandExists;
    var ops := [(Register, true), (ImmFull, false)];
    assert ops[1..] == [(ImmFull, false)] && [(ImmFull, false)][1..] == [];
    assert Length(c, [(ImmFull, false)], input, 2) == OperandBytes(c, ImmFull, input, 2);
  }
}
