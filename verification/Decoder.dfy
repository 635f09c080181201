/** The decoding loop of diStorm: src/distorm/decoder.c, dis_instructions.c and the
    bytes that operands.c consumes.  Texts are not modelled. */
module Decoder {
  import opened Basics
  import opened Prefixes

  // ----- the instruction tables -----

  /** Operands, by what they read: immediates, offsets and addresses have bytes of their
      own, memory operands need a ModR/M byte. */
  datatype OpType =
    | NoOperand | Dummy
    | Imm8 | Imm16 | Imm32 | ImmFull | RelByte | RelFull | FarPointer | MemOffset
    | Memory | RegMem
    | ControlReg | DebugReg | SegmentReg
    | Register

  datatype Flags = Flags(includeModrm: bool, notDivided: bool, useOp3: bool, useOp4: bool, modRR: bool,
                         fetch3DNow: bool, pseudoOpcode: bool, invalid64: bool, bits64: bool, preRex: bool,
                           only64: bool)

  datatype InstInfo = InstInfo(d: OpType, s: OpType, op3: OpType, op4: OpType, flags: Flags)

  /** A node of the trie: nothing, an instruction, or a list by the next byte, by its REG
      bits, or by either. */
  datatype Node =
    | Null | Info(info: InstInfo)
    | Full(kids: seq<Node>) | Group(kids: seq<Node>) | Divided(kids: seq<Node>)

  datatype Tables = Tables(root: seq<Node>, table3DNow: seq<Node>, info3DNow: InstInfo, arpl: InstInfo,
                           movsxd: InstInfo)

  ghost predicate Leaf(n: Node) { n.Null? || n.Info? }

  ghost predicate Leaves(kids: seq<Node>) { forall i :: 0 <= i < |kids| ==> Leaf(kids[i]) }

  ghost predicate WellFormed(n: Node) {
    match n
    case Null => true
    case Info(_) => true
    case Full(kids) => |kids| == 256 && forall i :: 0 <= i < |kids| ==> WellFormed(kids[i])
    case Group(kids) => |kids| == 8 && Leaves(kids)
    case Divided(kids) => |kids| == 72 && Leaves(kids)
  }

  /** The prefixes that can begin an instruction begin longer ones only. */
  ghost predicate TablesOk(t: Tables) {
    && |t.root| == 256 && (forall i :: 0 <= i < 256 ==> WellFormed(t.root[i]))
    && |t.table3DNow| == 256 && Leaves(t.table3DNow)
    && (t.root[0x66].Full? || t.root[0x66].Null?)
    && (t.root[0xf2].Full? || t.root[0xf2].Null?)
    && (t.root[0xf3].Full? || t.root[0xf3].Null?)
  }

  const DIVIDED_MODRM := 0xc0
  const ESCAPE_3DNOW := 0x0f
  const ARPL := 0x63
  const WAIT := 0x9b
  const CMP_MAX_RANGE := 8

  function RegBits(b: Byte): (r: nat)
    ensures r < 8
  {
    b / 8 % 8
  }

  /** A byte of memory: of the input, or of what happens to lie behind it. */
  function At(input: seq<Byte>, past: nat -> Byte, i: nat): Byte {
    if i < |input| then input[i] else past(i)
  }

  // ----- walking the trie -----

  function InfoAt(n: Node, p: nat): Option<(InstInfo, nat)> {
    if n.Info? then Some((n.info, p)) else None
  }

  /** An instruction that is not divided although its node is, or any below the divide,
      goes by the REG bits. */
  function DividedKid(kids: seq<Node>, b: Byte): Node
    requires |kids| == 72 && Leaves(kids)
  {
    var byReg := kids[RegBits(b)];
    if byReg.Info? && (byReg.info.flags.notDivided || b < DIVIDED_MODRM) then byReg
    else if b >= DIVIDED_MODRM then kids[b - DIVIDED_MODRM + 8]
    else byReg
  }

  /** What the trie holds for the bytes at `p` below node `n`, which is reached after
      `level` bytes, and where the opcode ends.  Only bytes of the input are looked at. */
  function Walk(t: Tables, n: Node, level: nat, input: seq<Byte>, p: nat): Option<(InstInfo, nat)>
    requires WellFormed(n)
    decreases n
  {
    match n
    case Null => None
    case Info(_) => if p <= |input| && level <= 4 then InfoAt(n, p) else None
    case Group(kids) => if p < |input| && level <= 3 then InfoAt(kids[RegBits(input[p])], p) else None
    case Divided(kids) =>
      if p >= |input| then None
      else if level == 1 then
        if input[p] < DIVIDED_MODRM then InfoAt(kids[RegBits(input[p])], p)
        else InfoAt(kids[input[p] - DIVIDED_MODRM + 8], p + 1)
      else if level == 2 then
        var k := DividedKid(kids, input[p]);
        InfoAt(k, if k.Info? && !k.info.flags.includeModrm then p + 1 else p)
      else None
    case Full(kids) =>
      if p < |input| && level <= 3 then Walk(t, kids[input[p]], level + 1, input, p + 1) else None
  }

  /** What the tables hold for the bytes at `p`; a REX prefix behind a mandatory prefix
      is skipped. */
  function Lookup(t: Tables, input: seq<Byte>, p: nat, rexValid: bool, dt: DecodeType): Option<(InstInfo, nat)>
    requires TablesOk(t)
  {
    if p >= |input| then None
    else
      match t.root[input[p]]
      case Info(ii) =>
        Some((if input[p] != ARPL then ii else if dt == Decode64Bits then t.movsxd else t.arpl, p + 1))
      case Full(kids) =>
        var q := if rexValid then p + 2 else p + 1;
        if q >= |input| || kids[input[q]].Null? then None
        else if input[p] == ESCAPE_3DNOW && input[q] == ESCAPE_3DNOW then Some((t.info3DNow, q + 1))
        else Walk(t, kids[input[q]], 2, input, q + 1)
      case n => Walk(t, n, 1, input, p + 1)
  }

  /** The cursor of the decoder. */
  class CodeInfo {
    var code: nat
    var codeLen: int
    var codeOffset: int

    constructor (code: nat, codeLen: int, codeOffset: int)
      ensures this.code == code && this.codeLen == codeLen && this.codeOffset == codeOffset
    {
      this.code, this.codeLen, this.codeOffset := code, codeLen, codeOffset;
    }

    /** Position, remaining length and offset move in step. */
    ghost predicate InStep(n: int, base: int)
      reads this
    {
      code + codeLen == n && codeOffset == base + code
    }

    method Set(code: nat, codeLen: int, codeOffset: int)
      modifies this
      ensures this.code == code && this.codeLen == codeLen && this.codeOffset == codeOffset
    {
      this.code, this.codeLen, this.codeOffset := code, codeLen, codeOffset;
    }

    /** Consumes `k` bytes if there are as many. */
    method Skip(k: nat, ghost n: int, ghost base: int) returns (ok: bool)
      requires InStep(n, base) && codeLen >= 0
      modifies this
      ensures ok <==> old(codeLen) >= k
      ensures ok ==> InStep(n, base) && code == old(code) + k && codeLen >= 0
      ensures !ok ==> code == old(code)
    {
      codeLen := codeLen - k;
      if codeLen < 0 {
        return false;
      }
      code := code + k;
      codeOffset := codeOffset + k;
      ok := true;
    }
  }

  /** locate_raw_inst: the walk through up to four tables, written out.  It may look at
      one byte behind the input, but that byte never decides anything. */
  method LocateRaw(t: Tables, input: seq<Byte>, past: nat -> Byte, ci: CodeInfo, rexValid: bool, dt: DecodeType,
                   ghost base: int)
    returns (ii: Option<InstInfo>)
    requires TablesOk(t) && ci.InStep(|input|, base)
    modifies ci
    ensures ii.Some? ==> ci.InStep(|input|, base)
    ensures Lookup(t, input, old(ci.code), rexValid, dt) == if ii.Some? then Some((ii.value, ci.code)) else None
  {
    var code, codeLen, codeOffset := ci.code, ci.codeLen, ci.codeOffset;
    if codeLen <= 0 {
      return None;
    }
    var index0 := input[code];
    var node := t.root[index0];
    assert WellFormed(node);
    if node.Null? {
      return None;
    }
    if node.Info? {
      ci.Set(code + 1, codeLen - 1, codeOffset + 1);
      if index0 == ARPL {
        return Some(if dt == Decode64Bits then t.movsxd else t.arpl);
      }
      return Some(node.info);
    }
    if !node.Full? {
      ii := LocateList(t, input, ci, node, code, codeLen, codeOffset, base);
      return;
    }
    if rexValid {
      codeLen := codeLen - 1;
      if codeLen <= 0 { return None; }
      code := code + 1;
      codeOffset := codeOffset + 1;
    }
    codeLen := codeLen - 1;
    if codeLen <= 0 { return None; }
    code := code + 1;
    codeOffset := codeOffset + 1;
    var index1 := input[code];
    node := node.kids[index1];
    if node.Null? {
      return None;
    }
    if index0 == ESCAPE_3DNOW && index1 == ESCAPE_3DNOW {
      ci.Set(code + 1, codeLen - 1, codeOffset + 1);
      return Some(t.info3DNow);
    }
    ii := LocateSecond(t, input, past, ci, node, code, codeLen, codeOffset, base);
  }

  /** An instruction of one byte and the REG bits, or of one or two bytes. */
  method LocateList(t: Tables, input: seq<Byte>, ci: CodeInfo, node: Node,
                    code0: nat, codeLen0: int, codeOffset0: int, ghost base: int) returns (ii: Option<InstInfo>)
    requires WellFormed(node) && (node.Group? || node.Divided?)
    requires codeLen0 > 0 && code0 + codeLen0 == |input| && codeOffset0 == base + code0
    modifies ci
    ensures ii.Some? ==> ci.InStep(|input|, base)
    ensures Walk(t, node, 1, input, code0 + 1) == if ii.Some? then Some((ii.value, ci.code)) else None
  {
    var code, codeLen, codeOffset := code0, codeLen0, codeOffset0;
    if node.Group? {
      codeLen := codeLen - 1;
      if codeLen <= 0 { return None; }
      code := code + 1;
      codeOffset := codeOffset + 1;
      ci.Set(code, codeLen, codeOffset);
      return AsInfo(node.kids[RegBits(input[code])]);
    }
    codeLen := codeLen - 1;
    if codeLen <= 0 { return None; }
    code := code + 1;
    codeOffset := codeOffset + 1;
    var index1 := input[code];
    if index1 < DIVIDED_MODRM {
      index1 := RegBits(index1);
    } else {
      codeLen := codeLen - 1;
      if codeLen < 0 { return None; }
      code := code + 1;
      codeOffset := codeOffset + 1;
      index1 := index1 - (DIVIDED_MODRM - 8);
    }
    ci.Set(code, codeLen, codeOffset);
    return AsInfo(node.kids[index1]);
  }

  function AsInfo(n: Node): Option<InstInfo> {
    if n.Info? then Some(n.info) else None
  }

  /** The part of locate_raw_inst from the second table on; `code` is at its byte. */
  method LocateSecond(t: Tables, input: seq<Byte>, past: nat -> Byte, ci: CodeInfo, node1: Node,
                      code0: nat, codeLen0: int, codeOffset0: int, ghost base: int) returns (ii: Option<InstInfo>)
    requires WellFormed(node1) && !node1.Null?
    requires codeLen0 > 0 && code0 + codeLen0 == |input| && codeOffset0 == base + code0
    modifies ci
    ensures ii.Some? ==> ci.InStep(|input|, base)
    ensures Walk(t, node1, 2, input, code0 + 1) == if ii.Some? then Some((ii.value, ci.code)) else None
  {
    var code, codeLen, codeOffset := code0 + 1, codeLen0 - 1, codeOffset0 + 1;
    if node1.Info? {
      if codeLen < 0 { return None; }
      ci.Set(code, codeLen, codeOffset);
      return Some(node1.info);
    }
    if node1.Group? {
      if codeLen <= 0 { return None; }
      ci.Set(code, codeLen, codeOffset);
      return AsInfo(node1.kids[RegBits(input[code])]);
    }
    if node1.Divided? {
      if codeLen <= 0 { return None; }
      var index2 := input[code];
      ii := AsInfo(node1.kids[RegBits(index2)]);
      if ii.Some? && (ii.value.flags.notDivided || index2 < DIVIDED_MODRM) {
        ii := AsInfo(node1.kids[RegBits(index2)]);
      } else if index2 >= DIVIDED_MODRM {
        ii := AsInfo(node1.kids[index2 - DIVIDED_MODRM + 8]);
      }
      if ii.Some? && !ii.value.flags.includeModrm {
        codeLen := codeLen - 1;
        if codeLen < 0 { return None; }
        code := code + 1;
        codeOffset := codeOffset + 1;
      }
      ci.Set(code, codeLen, codeOffset);
      return;
    }
    if codeLen < 0 { return None; }
    var node := node1.kids[At(input, past, code)];
    assert WellFormed(node);
    assert Walk(t, node1, 2, input, code) == if code < |input| then Walk(t, node, 3, input, code + 1) else None;
    code, codeLen, codeOffset := code + 1, codeLen - 1, codeOffset + 1;
    if node.Info? {
      if codeLen < 0 { return None; }
      ci.Set(code, codeLen, codeOffset);
      return Some(node.info);
    }
    if node.Group? {
      if codeLen <= 0 { return None; }
      ci.Set(code, codeLen, codeOffset);
      return AsInfo(node.kids[RegBits(input[code])]);
    }
    if node.Full? {
      if codeLen < 0 { return None; }
      ghost var third := node;
      node := node.kids[At(input, past, code)];
      assert WellFormed(node);
      assert Walk(t, third, 3, input, code) == if code < |input| then Walk(t, node, 4, input, code + 1) else None;
      if node.Info? {
        codeLen := codeLen - 1;
        if codeLen < 0 { return None; }
        ci.Set(code + 1, codeLen, codeOffset + 1);
        return Some(node.info);
      }
    }
    return None;
  }

  /** The walk consumes at least the byte it starts with, never more than there are, and
      at least two for an instruction that starts with a prefix. */
  lemma {:induction false} WalkBounds(t: Tables, n: Node, level: nat, input: seq<Byte>, p: nat)
    requires WellFormed(n)
    ensures var r := Walk(t, n, level, input, p); r.Some? ==> p <= r.value.1 <= |input|
    decreases n
  {
    if n.Full? && p < |input| && level <= 3 {
      WalkBounds(t, n.kids[input[p]], level + 1, input, p + 1);
    }
  }

  lemma LookupBounds(t: Tables, input: seq<Byte>, p: nat, rexValid: bool, dt: DecodeType)
    requires TablesOk(t)
    ensures var r := Lookup(t, input, p, rexValid, dt);
            r.Some? ==> p < r.value.1 <= |input| &&
                        (t.root[input[p]].Full? ==> r.value.1 >= p + (if rexValid then 3 else 2))
  {
    if p < |input| {
      match t.root[input[p]]
      case Full(kids) =>
        var q := if rexValid then p + 2 else p + 1;
        if q < |input| { WalkBounds(t, kids[input[q]], 2, input, q + 1); }
      case n => WalkBounds(t, n, 1, input, p + 1);
    }
  }

  // ----- mandatory prefixes -----

  /** The place of a prefix that may be the first byte of the opcode of the instruction
      at `code`: the last one, or the one before a REX prefix. */
  function MandatoryAt(input: seq<Byte>, start: nat, code: nat, rexValid: bool): Option<nat>
    requires start <= code <= |input|
  {
    if start == code then None
    else
      var p := if rexValid && start + 2 <= code then code - 2 else code - 1;
      if input[p] == 0xf3 || input[p] == 0xf2 || input[p] == 0x66 then Some(p) else None
  }

  /** The kind of that prefix. */
  function MandatoryKind(input: seq<Byte>, start: nat, code: nat, rexValid: bool): Kind
    requires start <= code <= |input|
  {
    var m := MandatoryAt(input, start, code, rexValid);
    if m.Some? && input[m.value] == 0x66 then OpSize else LokRep
  }

  /** The instruction at `code`, where its opcode ends, and how many of the prefixes
      before it belong to the opcode. */
  function Locate(t: Tables, input: seq<Byte>, start: nat, code: nat, rexValid: bool, dt: DecodeType)
    : Option<(InstInfo, nat, nat)>
    requires TablesOk(t) && start <= code <= |input| && RexOk(input, start, code, rexValid)
  {
    var m := MandatoryAt(input, start, code, rexValid);
    var k := if rexValid then 2 else 1;
    if m.Some? && Lookup(t, input, code - k, rexValid, dt).Some? then
      var r := Lookup(t, input, code - k, rexValid, dt).value;
      Some((r.0, r.1, k))
    else
      var r := Lookup(t, input, code, false, dt);
      if r.Some? then Some((r.value.0, r.value.1, 0)) else None
  }

  /** A valid REX prefix is the byte before the instruction. */
  ghost predicate RexOk(input: seq<Byte>, start: nat, code: nat, rexValid: bool)
    requires start <= code <= |input|
  {
    rexValid ==> start < code && 0x40 <= input[code - 1] <= 0x4f
  }

  lemma LocateBounds(t: Tables, input: seq<Byte>, start: nat, code: nat, rexValid: bool, dt: DecodeType)
    requires TablesOk(t) && start <= code <= |input| && RexOk(input, start, code, rexValid)
    ensures var r := Locate(t, input, start, code, rexValid, dt);
            r.Some? ==> code < r.value.1 <= |input| && start + r.value.2 <= code
  {
    var m := MandatoryAt(input, start, code, rexValid);
    var k := if rexValid then 2 else 1;
    if m.Some? { LookupBounds(t, input, code - k, rexValid, dt); }
    LookupBounds(t, input, code, false, dt);
  }

  lemma LocateIs(t: Tables, input: seq<Byte>, start: nat, code: nat, rexValid: bool, dt: DecodeType)
    requires TablesOk(t) && start <= code <= |input| && RexOk(input, start, code, rexValid)
    ensures var k: nat := if rexValid then 2 else 1;
            var plain := Lookup(t, input, code, false, dt);
            var none: Option<(InstInfo, nat, nat)> :=
              if plain.Some? then Some((plain.value.0, plain.value.1, 0)) else None;
            if MandatoryAt(input, start, code, rexValid).Some? then
              k <= code &&
              var r := Lookup(t, input, code - k, rexValid, dt);
              Locate(t, input, start, code, rexValid, dt) == if r.Some? then Some((r.value.0, r.value.1, k)) else none
            else Locate(t, input, start, code, rexValid, dt) == none
  {
    hide Lookup;
  }

  /** locate_inst. */
  method LocateInst(t: Tables, input: seq<Byte>, past: nat -> Byte, ci: CodeInfo, ps: PrefixState, dt: DecodeType,
                    ghost base: int)
    returns (ii: Option<InstInfo>)
    requires TablesOk(t) && ci.InStep(|input|, base) && ci.code <= |input|
    requires ps.start <= ps.last == ci.code && ps.special == 0 && RexOk(input, ps.start, ci.code, ps.rexValid)
    modifies ci, ps`last, ps`special, ps`pos, ps`total
    ensures ii.Some? ==> ci.InStep(|input|, base)
    ensures ps.last + ps.special == old(ci.code) && ps.start <= ps.last
    ensures var k := MandatoryKind(input, ps.start, old(ci.code), ps.rexValid);
            if ps.special > 0 then ps.total == old(ps.total) - {k} && ps.pos == old(ps.pos) - {k}
            else ps.total == old(ps.total) && ps.pos == old(ps.pos)
    ensures Locate(t, input, ps.start, old(ci.code), ps.rexValid, dt) ==
            if ii.Some? then Some((ii.value, ci.code, ps.special)) else None
    ensures ii.None? ==> ps.special == 0
  {
    hide Lookup, MandatoryAt, MandatoryKind, Locate, RexOk;
    LocateIs(t, input, ps.start, ci.code, ps.rexValid, dt);
    ii := None;
    var code, codeLen, codeOffset := ci.code, ci.codeLen, ci.codeOffset;
    LookupBounds(t, input, code, false, dt);
    var lastBC := LastPrefix(input, ps);
    if lastBC == 0xf3 || lastBC == 0xf2 || lastBC == 0x66 {
      var k := if ps.rexValid then 2 else 1;
      LookupBounds(t, input, code - k, ps.rexValid, dt);
      ci.Set(code - k, codeLen + k, codeOffset - k);
      ii := LocateRaw(t, input, past, ci, ps.rexValid, dt, base);
      if ii.Some? {
        ps.Fold(k, if lastBC == 0x66 then OpSize else LokRep);
      } else {
        ci.Set(code, codeLen, codeOffset);
      }
    }
    if ii.None? {
      ii := LocateRaw(t, input, past, ci, false, dt, base);
    }
  }

  /** The byte that may be a mandatory prefix, 0 if there is none. */
  method LastPrefix(input: seq<Byte>, ps: PrefixState) returns (lastBC: Byte)
    requires ps.start <= ps.last <= |input| && RexOk(input, ps.start, ps.last, ps.rexValid)
    ensures var m := MandatoryAt(input, ps.start, ps.last, ps.rexValid);
            && (m.Some? <==> lastBC == 0xf3 || lastBC == 0xf2 || lastBC == 0x66)
            && (m.Some? ==>
                MandatoryKind(input, ps.start, ps.last, ps.rexValid) == if lastBC == 0x66 then OpSize else LokRep)
            && (m.Some? ==> ps.start + (if ps.rexValid then 2 else 1) <= ps.last)
  {
    lastBC := 0;
    if ps.start < ps.last {
      if ps.rexValid && ps.start <= ps.last - 2 {
        lastBC := input[ps.last - 2];
      } else {
        lastBC := input[ps.last - 1];
      }
    }
  }

  // ----- operands -----

  /** What the prefixes and the flags of an instruction mean for its operands; `rex` is
      zero unless a REX prefix is valid. */
  datatype Context = Context(dt: DecodeType, total: set<Kind>, lock: bool, rex: Byte, flags: Flags, modrm: Byte)

  function AddrSizeAffect(c: Context): DecodeType {
    if AddrSize !in c.total then c.dt
    else
      match c.dt
      case Decode16Bits => Decode32Bits
      case Decode32Bits => Decode16Bits
      case Decode64Bits => Decode32Bits
  }

  function OpSizeAffect(c: Context): DecodeType {
    match c.dt
    case Decode16Bits => if OpSize in c.total then Decode32Bits else c.dt
    case Decode32Bits => if OpSize in c.total then Decode16Bits else c.dt
    case Decode64Bits =>
      if OpSize in c.total then Decode16Bits
      else if (c.flags.bits64 && !c.flags.preRex) || (Rex in c.total && c.rex / 8 % 2 == 1) then Decode64Bits
      else Decode32Bits
  }

  function Mod(modrm: Byte): int { modrm / 64 % 4 }
  function Rm(modrm: Byte): int { modrm % 8 }

  /** A SIB byte follows the ModR/M byte (tables 2-1 to 2-3 of the processor manual). */
  predicate HasSib(addr: DecodeType, modrm: Byte) {
    addr != Decode16Bits && Mod(modrm) != 3 && Rm(modrm) == 4
  }

  /** The length of the displacement after the ModR/M byte and the SIB byte, if any. */
  function Displacement(addr: DecodeType, modrm: Byte, sib: Byte): nat {
    if Mod(modrm) == 3 then 0
    else if Mod(modrm) == 1 then 1
    else if addr == Decode16Bits then (if Mod(modrm) == 2 || Rm(modrm) == 6 then 2 else 0)
    else if Mod(modrm) == 2 || Rm(modrm) == 5 || (Rm(modrm) == 4 && sib % 8 == 5) then 4
    else 0
  }

  /** The bytes that an operand reads from position `p` on. */
  function OperandBytes(c: Context, op: OpType, input: seq<Byte>, p: nat): nat {
    match op
    case Imm8 => 1
    case RelByte => 1
    case Imm16 => 2
    case Imm32 => 4
    case ImmFull =>
      if OpSizeAffect(c) == Decode16Bits then 2
      else if OpSizeAffect(c) == Decode64Bits && c.flags.bits64 && c.flags.preRex then 8
      else 4
    case RelFull => if OpSizeAffect(c) == Decode16Bits then 2 else 4
    case FarPointer => if OpSizeAffect(c) == Decode16Bits then 4 else 6
    case MemOffset => match AddrSizeAffect(c) { case Decode16Bits => 2 case Decode32Bits => 4 case Decode64Bits => 8 }
    case Memory => AddressBytes(c, input, p)
    case RegMem => AddressBytes(c, input, p)
    case _ => 0
  }

  function AddressBytes(c: Context, input: seq<Byte>, p: nat): nat {
    var addr := AddrSizeAffect(c);
    if HasSib(addr, c.modrm) then
      1 + Displacement(addr, c.modrm, if p < |input| then input[p] else 0)
    else Displacement(addr, c.modrm, 0)
  }

  /** Operands that do not exist: no memory where there must be, no such register. */
  predicate OperandExists(c: Context, op: OpType, first: bool) {
    var reg := RegBits(c.modrm);
    match op
    case NoOperand => false
    case Dummy => false
    case Memory => Mod(c.modrm) != 3
    case ControlReg =>
      var r := if c.rex / 4 % 2 == 1 || (c.dt == Decode32Bits && c.lock) then reg + 8 else reg;
      r == 0 || r == 2 || r == 3 || r == 4 || r == 8
    case DebugReg => reg != 4 && reg != 5
    case SegmentReg => reg < 6 && !(first && reg == 1)
    case _ => true
  }

  function OperandEnd(c: Context, op: OpType, first: bool, input: seq<Byte>, p: nat): Option<nat> {
    var q := p + OperandBytes(c, op, input, p);
    if OperandExists(c, op, first) && q <= |input| then Some(q) else None
  }

  /** extract_sib: the displacement that goes with a SIB byte. */
  method ExtractSib(ci: CodeInfo, mod: int, sib: Byte, ghost n: int, ghost base: int) returns (ok: bool)
    requires ci.InStep(n, base) && ci.codeLen >= 0 && 0 <= mod < 3
    modifies ci
    ensures var k := if mod == 1 then 1 else if mod == 2 || sib % 8 == 5 then 4 else 0;
            && (ok <==> old(ci.codeLen) >= k)
            && (ok ==> ci.InStep(n, base) && ci.code == old(ci.code) + k && ci.codeLen >= 0)
  {
    ok := true;
    if mod == 0 {
      if sib % 8 == 5 {
        ok := ci.Skip(4, n, base);
      }
    } else if mod == 1 {
      ok := ci.Skip(1, n, base);
    } else {
      ok := ci.Skip(4, n, base);
    }
  }

  /** extract_modrm: what follows a ModR/M byte, case by case. */
  method ExtractModrm(input: seq<Byte>, ci: CodeInfo, c: Context, ghost base: int) returns (ok: bool)
    requires ci.InStep(|input|, base) && ci.codeLen >= 0
    modifies ci
    ensures ok <==> old(ci.code) + AddressBytes(c, input, old(ci.code)) <= |input|
    ensures ok ==> ci.InStep(|input|, base) && ci.codeLen >= 0
                   && ci.code == old(ci.code) + AddressBytes(c, input, old(ci.code))
  {
    var mod, rm := Mod(c.modrm), Rm(c.modrm);
    ok := true;
    if mod == 3 {
      return;
    }
    if AddrSizeAffect(c) == Decode16Bits {
      if mod == 0 {
        if rm == 6 {
          ok := ci.Skip(2, |input|, base);
        }
      } else if mod == 1 {
        ok := ci.Skip(1, |input|, base);
      } else {
        ok := ci.Skip(2, |input|, base);
      }
      return;
    }
    if rm == 4 {
      if ci.codeLen < 1 {
        return false;
      }
      var sib := input[ci.code];
      ok := ci.Skip(1, |input|, base);
      ok := ExtractSib(ci, mod, sib, |input|, base);
      return;
    }
    if mod == 0 {
      if rm == 5 {
        ok := ci.Skip(4, |input|, base);
      }
    } else if mod == 1 {
      ok := ci.Skip(1, |input|, base);
    } else {
      ok := ci.Skip(4, |input|, base);
    }
  }

  /** extract_operand. */
  method ExtractOperand(input: seq<Byte>, ci: CodeInfo, c: Context, op: OpType, first: bool, ghost base: int)
    returns (ok: bool)
    requires ci.InStep(|input|, base) && ci.codeLen >= 0
    modifies ci
    ensures ok ==> ci.InStep(|input|, base) && ci.codeLen >= 0
    ensures OperandEnd(c, op, first, input, old(ci.code)) == if ok then Some(ci.code) else None
  {
    hide AddressBytes, OperandBytes, OperandExists, Number, Mod;
    OperandIs(c, op, first, input, ci.code);
    if Number(op) {
      ok := ExtractNumber(input, ci, c, op, base);
      return;
    }
    if op == Memory || op == RegMem {
      if op == Memory && Mod(c.modrm) == 3 {
        return false;
      }
      ok := ExtractModrm(input, ci, c, base);
      return;
    }
    ok := CheckRegister(c, op, first);
  }

  lemma OperandIs(c: Context, op: OpType, first: bool, input: seq<Byte>, p: nat)
    ensures Number(op) ==> OperandExists(c, op, first) && op != Memory && op != RegMem
    ensures op == Memory || op == RegMem ==>
              OperandBytes(c, op, input, p) == AddressBytes(c, input, p)
              && OperandExists(c, op, first) == (op == RegMem || Mod(c.modrm) != 3)
    ensures !Number(op) && op != Memory && op != RegMem ==> OperandBytes(c, op, input, p) == 0
  {
    hide AddressBytes;
  }

  /** The operands that consume nothing: some registers do not exist. */
  method CheckRegister(c: Context, op: OpType, first: bool) returns (ok: bool)
    requires !Number(op) && op != Memory && op != RegMem
    ensures ok == OperandExists(c, op, first)
  {
    var reg := RegBits(c.modrm);
    ok := true;
    match op {
      case ControlReg =>
        if c.rex / 4 % 2 == 1 {
          reg := reg + 8;
        } else if c.dt == Decode32Bits && c.lock {
          reg := reg + 8;
        }
        ok := reg == 0 || reg == 2 || reg == 3 || reg == 4 || reg == 8;
      case DebugReg => ok := !(reg == 4 || reg == 5);
      case SegmentReg => ok := !(first && reg == 1) && reg <= 5;
      case Register =>
      case NoOperand => ok := false;
      case Dummy => ok := false;
    }
  }

  /** The operands that are numbers behind the opcode. */
  predicate Number(op: OpType) {
    op == Imm8 || op == RelByte || op == Imm16 || op == Imm32 || op == ImmFull || op == RelFull || op == FarPointer
    || op == MemOffset
  }

  method ExtractNumber(input: seq<Byte>, ci: CodeInfo, c: Context, op: OpType, ghost base: int) returns (ok: bool)
    requires Number(op) && ci.InStep(|input|, base) && ci.codeLen >= 0
    modifies ci
    ensures ok <==> old(ci.code) + OperandBytes(c, op, input, old(ci.code)) <= |input|
    ensures ok ==>
              ci.InStep(|input|, base) && ci.codeLen >= 0
              && ci.code == old(ci.code) + OperandBytes(c, op, input, old(ci.code))
  {
    hide OpSizeAffect, AddrSizeAffect;
    match op {
      case Imm8 => ok := ci.Skip(1, |input|, base);
      case RelByte => ok := ci.Skip(1, |input|, base);
      case Imm16 => ok := ci.Skip(2, |input|, base);
      case Imm32 => ok := ci.Skip(4, |input|, base);
      case ImmFull =>
        if OpSizeAffect(c) == Decode16Bits {
          ok := ci.Skip(2, |input|, base);
        } else if OpSizeAffect(c) == Decode64Bits && c.flags.bits64 && c.flags.preRex {
          ok := ci.Skip(8, |input|, base);
        } else {
          ok := ci.Skip(4, |input|, base);
        }
      case RelFull => ok := ci.Skip(if OpSizeAffect(c) == Decode16Bits then 2 else 4, |input|, base);
      case FarPointer => ok := ci.Skip(if OpSizeAffect(c) == Decode16Bits then 4 else 6, |input|, base);
      case MemOffset =>
        var addr := AddrSizeAffect(c);
        ok :=
          ci.Skip(match addr { case Decode16Bits => 2 case Decode32Bits => 4 case Decode64Bits => 8 }, |input|, base);
    }
  }

  // ----- one instruction -----

  predicate Real(op: OpType) { op != NoOperand && op != Dummy }

  predicate NeedsModrm(ii: InstInfo) { Real(ii.d) && ii.flags.includeModrm }

  function ModrmOf(ii: InstInfo, input: seq<Byte>, q: nat): Byte {
    if NeedsModrm(ii) && q < |input| then input[q] else 0
  }

  function Then(r: Option<nat>, present: bool, c: Context, op: OpType, first: bool, input: seq<Byte>): Option<nat> {
    if r.None? || !present then r else OperandEnd(c, op, first, input, r.value)
  }

  /** Where the operands of an instruction end that start at `p0`. */
  function OperandsEnd(c: Context, ii: InstInfo, input: seq<Byte>, p0: nat): Option<nat> {
    var p1 := Then(Some(p0), Real(ii.d), c, ii.d, true, input);
    var p2 := Then(p1, Real(ii.s), c, ii.s, false, input);
    var p3 := Then(p2, ii.flags.useOp3 && Real(ii.op3), c, ii.op3, false, input);
    Then(p3, ii.flags.useOp4, c, ii.op4, false, input)
  }

  predicate Allowed(ii: InstInfo, dt: DecodeType) {
    if dt == Decode64Bits then !ii.flags.invalid64 else !ii.flags.only64
  }

  /** Where the whole instruction ends, if it is one: valid in its mode, with operands
      that exist, of at most fifteen bytes from its first prefix on, and complete. */
  function InstructionEnd(t: Tables, input: seq<Byte>, ii: InstInfo, q: nat, start: nat, dt: DecodeType,
                          total: set<Kind>, lock: bool, rex: Byte): Option<nat>
    requires TablesOk(t)
  {
    var modrm := ModrmOf(ii, input, q);
    if !Allowed(ii, dt) || (NeedsModrm(ii) && (q >= |input| || (ii.flags.modRR && modrm < DIVIDED_MODRM))) then None
    else
      var p :=
        OperandsEnd(Context(dt, total, lock, rex, ii.flags, modrm), ii, input, if NeedsModrm(ii) then q + 1 else q);
      if p.None? then None else Completed(t, input, ii, p.value, start)
  }

  /** What follows the operands: the opcode byte of a 3DNow instruction, the comparison type. */
  function Completed(t: Tables, input: seq<Byte>, ii: InstInfo, p: nat, start: nat): Option<nat>
    requires TablesOk(t)
  {
    if !ii.flags.fetch3DNow then Suffixed(ii, input, p, start)
    else if p < |input| && t.table3DNow[input[p]].Info? then Suffixed(t.table3DNow[input[p]].info, input, p + 1, start)
    else None
  }

  /** The comparison type of an instruction that has one as its last byte. */
  function Suffixed(ii: InstInfo, input: seq<Byte>, p: nat, start: nat): Option<nat> {
    if p > start + INST_MAXIMUM_SIZE then None
    else if !ii.flags.pseudoOpcode then Some(p)
    else if p < |input| && input[p] < CMP_MAX_RANGE then Some(p + 1)
    else None
  }

  lemma InstructionEndBounds(t: Tables, input: seq<Byte>, ii: InstInfo, q: nat, start: nat, dt: DecodeType,
                             total: set<Kind>, lock: bool, rex: Byte)
    requires TablesOk(t) && q <= |input|
    ensures var e := InstructionEnd(t, input, ii, q, start, dt, total, lock, rex);
            e.Some? ==> q <= e.value <= |input| && e.value <= start + INST_MAXIMUM_SIZE + 1
  {
    hide OperandsEnd, Completed;
    var modrm := ModrmOf(ii, input, q);
    var p0 := if NeedsModrm(ii) then q + 1 else q;
    if p0 <= |input| {
      var c := Context(dt, total, lock, rex, ii.flags, modrm);
      OperandsEndBounds(c, ii, input, p0);
      var p := OperandsEnd(c, ii, input, p0);
      if p.Some? { CompletedBounds(t, input, ii, p.value, start); }
    }
  }

  lemma OperandsEndBounds(c: Context, ii: InstInfo, input: seq<Byte>, p: nat)
    requires p <= |input|
    ensures var e := OperandsEnd(c, ii, input, p); e.Some? ==> p <= e.value <= |input|
  {
    hide OperandBytes, OperandExists, Real;
  }

  lemma CompletedBounds(t: Tables, input: seq<Byte>, ii: InstInfo, p: nat, start: nat)
    requires TablesOk(t) && p <= |input|
    ensures var e := Completed(t, input, ii, p, start);
            e.Some? ==> p <= e.value <= |input| && e.value <= start + INST_MAXIMUM_SIZE + 1
  {}

  /** The value of a valid REX prefix. */
  function RexByte(input: seq<Byte>, code: nat, rexValid: bool): Byte
    requires code <= |input| && (rexValid ==> code > 0)
  {
    if rexValid then input[code - 1] else 0
  }

  predicate Locked(input: seq<Byte>, total: set<Kind>, pos: map<Kind, nat>) {
    LokRep in total && LokRep in pos && pos[LokRep] < |input| && input[pos[LokRep]] == 0xf0
  }

  // ----- the meaning of the prefixes -----

  predicate RexW(b: Byte) { b / 8 % 2 == 1 }

  predicate IsLock(b: Byte) { b == 0xf0 }

  /** The segments that 64 bits decoding ignores. */
  predicate IgnoredSegment(b: Byte) { b == 0x2e || b == 0x36 || b == 0x3e || b == 0x26 }

  /** A REX prefix counts only right before the instruction. */
  ghost predicate RexValidAt(input: seq<Byte>, dt: DecodeType, start: nat, code: nat)
    requires start <= code <= |input|
  {
    start < code && KindOf(input[code - 1], dt) == Some(Rex)
  }

  /** The kinds of the prefixes from `start` to `code` that apply: in 64 bits not a REX
      prefix elsewhere, an operand size overruled by REX.W or an ignored segment. */
  ghost function Effective(input: seq<Byte>, dt: DecodeType, start: nat, code: nat): set<Kind>
    requires start <= code <= |input| && AllPrefixes(input, dt, start, code)
  {
    var rexValid := RexValidAt(input, dt, start, code);
    KindsIn(input, dt, start, code)
    - (if rexValid then {} else {Rex})
    - (if rexValid && RexW(input[code - 1]) then {OpSize} else {})
    - (if dt == Decode64Bits && Occurs(input, start, code, IgnoredSegment) then {SegOvrd} else {})
  }

  ghost predicate Occurs(input: seq<Byte>, start: nat, code: nat, p: Byte -> bool)
    requires code <= |input|
  {
    exists i :: start <= i < code && p(input[i])
  }

  /** The end of the instruction at `code` with the prefixes from `start` on, if it is one,
      and the kind of the prefix that became part of its opcode. */
  ghost function InstrAt(t: Tables, input: seq<Byte>, dt: DecodeType, start: nat, code: nat)
    : (r: (Option<nat>, Option<Kind>))
    requires TablesOk(t) && start <= code <= |input| && AllPrefixes(input, dt, start, code)
    ensures r.0.Some? ==> code < r.0.value <= |input|
    ensures r.1.Some? ==> r.1.value != Rex
  {
    var rexValid := RexValidAt(input, dt, start, code);
    LocateBounds(t, input, start, code, rexValid, dt);
    var r := Locate(t, input, start, code, rexValid, dt);
    if r.None? then (None, None)
    else
      var kind := if r.value.2 > 0 then Some(MandatoryKind(input, start, code, rexValid)) else None;
      var total :=
        if kind.Some? then Effective(input, dt, start, code) - {kind.value} else Effective(input, dt, start, code);
      var lock := LokRep in total && Occurs(input, start, code, IsLock);
      var rex := RexByte(input, code, rexValid);
      InstructionEndBounds(t, input, r.value.0, r.value.1, start, dt, total, lock, rex);
      (InstructionEnd(t, input, r.value.0, r.value.1, start, dt, total, lock, rex), kind)
  }

  /** decode_inst: either the instruction, or its first byte by itself, which is an
      instruction only if it is WAIT.  `usedBy` says which prefixes the text of the
      instruction at a place makes use of. */
  method DecodeInst(t: Tables, input: seq<Byte>, past: nat -> Byte, code: nat, codeLen: int, codeOffset: int,
                    ps: PrefixState, dt: DecodeType, usedBy: nat -> set<Kind>, ghost base: int)
    returns (ok: bool, size: nat, used: set<Kind>)
    requires TablesOk(t) && codeLen > 0 && code + codeLen == |input| && codeOffset == base + code
    requires ps.start <= ps.last == code && ps.special == 0 && Distinct(input, dt, ps.start, code)
    requires AllPrefixes(input, dt, ps.start, code) && Positions(input, dt, ps.start, code, ps.pos)
    requires ps.total == Effective(input, dt, ps.start, code) && ps.rexValid == RexValidAt(input, dt, ps.start, code)
    modifies ps`last, ps`special, ps`pos, ps`total
    ensures ps.last + ps.special == code && ps.start <= ps.last
    ensures var (end, kind) := InstrAt(t, input, dt, ps.start, code);
            && ps.pos == (if kind.Some? then old(ps.pos) - {kind.value} else old(ps.pos))
            && ps.total == (if kind.Some? then old(ps.total) - {kind.value} else old(ps.total))
            && if end.Some? then ok && code + size == end.value && used == usedBy(code)
               else size == 1 && ok == (input[code] == WAIT) && used == {}
    ensures 1 <= size <= codeLen
  {
    hide InstrAt, Positions, Distinct, AllPrefixes, Effective, RexValidAt;
    var ci := new CodeInfo(code, codeLen, codeOffset);
    ok := ReadInst(t, input, past, ci, ps, dt, base);
    size, used := 1, {};
    if ok {
      size := ci.codeOffset - codeOffset;
      used := usedBy(code);
    } else if input[code] == WAIT {
      ok := true;
    }
  }

  /** The instruction itself: its opcode and what follows. */
  method ReadInst(t: Tables, input: seq<Byte>, past: nat -> Byte, ci: CodeInfo, ps: PrefixState, dt: DecodeType,
                  ghost base: int)
    returns (ok: bool)
    requires TablesOk(t) && ci.InStep(|input|, base) && ci.code < |input|
    requires ps.start <= ps.last == ci.code && ps.special == 0
    requires AllPrefixes(input, dt, ps.start, ci.code) && Positions(input, dt, ps.start, ci.code, ps.pos)
    requires ps.total == Effective(input, dt, ps.start, ci.code)
    requires ps.rexValid == RexValidAt(input, dt, ps.start, ci.code)
    modifies ci, ps`last, ps`special, ps`pos, ps`total
    ensures ok ==> ci.InStep(|input|, base)
    ensures ps.last + ps.special == old(ci.code) && ps.start <= ps.last
    ensures var (end, kind) := InstrAt(t, input, dt, ps.start, old(ci.code));
            && ps.pos == (if kind.Some? then old(ps.pos) - {kind.value} else old(ps.pos))
            && ps.total == (if kind.Some? then old(ps.total) - {kind.value} else old(ps.total))
            && end == if ok then Some(ci.code) else None
  {
    hide Locate, InstructionEnd, KindOf, InstrAt, Positions, Distinct, AllPrefixes, Effective, Locked, MandatoryKind,
         RexOk, RexByte, RexValidAt, Occurs;
    var code := ci.code;
    InstrIs(t, input, dt, ps.start, code);
    LocateBounds(t, input, ps.start, code, ps.rexValid, dt);
    EffectivePlaced(input, dt, ps.start, code, ps.pos);
    var ii := LocateInst(t, input, past, ci, ps, dt, base);
    ok := false;
    if ii.Some? {
      LockedIff(input, dt, ps.start, code, old(ps.pos), ps.pos, ps.total);
      ok := FinishInst(t, input, past, ci, ii.value, ps.start, dt, ps.total, Locked(input, ps.total, ps.pos),
                       RexByte(input, code, ps.rexValid), base);
    }
  }

  /** The instruction from what is located and what its prefixes mean. */
  lemma InstrIs(t: Tables, input: seq<Byte>, dt: DecodeType, start: nat, code: nat)
    requires TablesOk(t) && start <= code <= |input| && AllPrefixes(input, dt, start, code)
    ensures RexOk(input, start, code, RexValidAt(input, dt, start, code))
    ensures RexValidAt(input, dt, start, code) ==> code > 0
    ensures var rexValid := RexValidAt(input, dt, start, code);
            var r := Locate(t, input, start, code, rexValid, dt);
            if r.None? then InstrAt(t, input, dt, start, code) == (None, None)
            else
              var kind := if r.value.2 > 0 then Some(MandatoryKind(input, start, code, rexValid)) else None;
              var all := Effective(input, dt, start, code);
              var total := if kind.Some? then all - {kind.value} else all;
              var lock := LokRep in total && Occurs(input, start, code, IsLock);
              var rex := RexByte(input, code, rexValid);
              InstrAt(t, input, dt, start, code) ==
                (InstructionEnd(t, input, r.value.0, r.value.1, start, dt, total, lock, rex), kind)
  {}

  lemma EffectivePlaced(input: seq<Byte>, dt: DecodeType, start: nat, code: nat, pos: map<Kind, nat>)
    requires start <= code <= |input| && AllPrefixes(input, dt, start, code) && Positions(input, dt, start, code, pos)
    ensures Effective(input, dt, start, code) <= pos.Keys
  {
    hide KindOf, RexValidAt, Occurs;
  }

  lemma LockedIff(input: seq<Byte>, dt: DecodeType, start: nat, code: nat, pos: map<Kind, nat>, pos': map<Kind, nat>,
                  total: set<Kind>)
    requires start <= code <= |input| && Positions(input, dt, start, code, pos)
    requires forall k :: k in pos' ==> k in pos && pos'[k] == pos[k]
    requires LokRep in total ==> LokRep in pos'
    ensures Locked(input, total, pos') <==> LokRep in total && Occurs(input, start, code, IsLock)
  {
    if i :| start <= i < code && input[i] == 0xf0 { assert KindOf(input[i], dt) == Some(LokRep); }
  }

  /** The part of decode_inst after the opcode. */
  method FinishInst(t: Tables, input: seq<Byte>, past: nat -> Byte, ci: CodeInfo, ii: InstInfo, start: nat,
                    dt: DecodeType, total: set<Kind>, lock: bool, rex: Byte, ghost base: int) returns (ok: bool)
    requires TablesOk(t) && ci.InStep(|input|, base) && ci.codeLen >= 0
    modifies ci
    ensures ok ==> ci.InStep(|input|, base)
    ensures InstructionEnd(t, input, ii, old(ci.code), start, dt, total, lock, rex) ==
            if ok then Some(ci.code) else None
  {
    hide OperandsEnd, Completed, ModrmOf, NeedsModrm;
    if dt == Decode64Bits && ii.flags.invalid64 { return false; }
    if dt != Decode64Bits && ii.flags.only64 { return false; }
    var modrm;
    ok, modrm := ReadModrm(input, past, ci, ii, base);
    if !ok { return; }
    var c := Context(dt, total, lock, rex, ii.flags, modrm);
    ok := ExtractOperands(input, ci, c, ii, base);
    if !ok { return; }
    ok := Complete(t, input, past, ci, ii, start, base);
  }

  method Complete(t: Tables, input: seq<Byte>, past: nat -> Byte, ci: CodeInfo, ii: InstInfo, start: nat,
                  ghost base: int)
    returns (ok: bool)
    requires TablesOk(t) && ci.InStep(|input|, base) && ci.codeLen >= 0
    modifies ci
    ensures ok ==> ci.InStep(|input|, base)
    ensures Completed(t, input, ii, old(ci.code), start) == if ok then Some(ci.code) else None
  {
    hide Suffixed;
    var found := ii;
    if ii.flags.fetch3DNow {
      var node := t.table3DNow[At(input, past, ci.code)];
      if !node.Info? { return false; }
      ok := ci.Skip(1, |input|, base);
      if !ok { return; }
      found := node.info;
    }
    ok := ReadSuffix(input, past, ci, found, start, base);
  }

  /** The ModR/M byte, if there is one. */
  method ReadModrm(input: seq<Byte>, past: nat -> Byte, ci: CodeInfo, ii: InstInfo, ghost base: int)
    returns (ok: bool, modrm: Byte)
    requires ci.InStep(|input|, base) && ci.codeLen >= 0
    modifies ci
    ensures ok <==>
              !(NeedsModrm(ii)
                && (old(ci.code) >= |input| || (ii.flags.modRR && ModrmOf(ii, input, old(ci.code)) < DIVIDED_MODRM)))
    ensures ok ==> ci.InStep(|input|, base) && ci.codeLen >= 0 && modrm == ModrmOf(ii, input, old(ci.code))
                   && ci.code == if NeedsModrm(ii) then old(ci.code) + 1 else old(ci.code)
  {
    modrm, ok := 0, true;
    if Real(ii.d) && ii.flags.includeModrm {
      modrm := At(input, past, ci.code);
      ok := ci.Skip(1, |input|, base);
      if !ok { return; }
      if ii.flags.modRR && modrm < DIVIDED_MODRM { ok := false; }
    }
  }

  /** The length check and the comparison type. */
  method ReadSuffix(input: seq<Byte>, past: nat -> Byte, ci: CodeInfo, ii: InstInfo, start: nat, ghost base: int)
    returns (ok: bool)
    requires ci.InStep(|input|, base) && ci.codeLen >= 0
    modifies ci
    ensures ok ==> ci.InStep(|input|, base)
    ensures Suffixed(ii, input, old(ci.code), start) == if ok then Some(ci.code) else None
  {
    if ci.code - start > INST_MAXIMUM_SIZE { return false; }
    ok := true;
    if ii.flags.pseudoOpcode {
      var cmpType := At(input, past, ci.code);
      ok := cmpType < CMP_MAX_RANGE;
      var enough := ci.Skip(1, |input|, base);
      ok := ok && enough;
    }
  }

  /** The up to four operands. */
  method ExtractOperands(input: seq<Byte>, ci: CodeInfo, c: Context, ii: InstInfo, ghost base: int) returns (ok: bool)
    requires ci.InStep(|input|, base) && ci.codeLen >= 0
    modifies ci
    ensures ok ==> ci.InStep(|input|, base) && ci.codeLen >= 0
    ensures OperandsEnd(c, ii, input, old(ci.code)) == if ok then Some(ci.code) else None
  {
    hide OperandEnd;
    ok := true;
    if Real(ii.d) {
      ok := ExtractOperand(input, ci, c, ii.d, true, base);
    }
    if ok && Real(ii.s) {
      ok := ExtractOperand(input, ci, c, ii.s, false, base);
    }
    if ok && ii.flags.useOp3 && Real(ii.op3) {
      ok := ExtractOperand(input, ci, c, ii.op3, false, base);
    }
    if ok && ii.flags.useOp4 {
      ok := ExtractOperand(input, ci, c, ii.op4, false, base);
    }
  }
}
