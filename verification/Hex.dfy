/** The hexadecimal printers of src/distorm/textdefs.c. */
module Hex {
  import opened Basics
  import opened Seqs

  const MAX_TEXT_SIZE := 60

  const NIBBLES: string := "0123456789abcdef"

  function Digit(t: nat): char
    requires t < 16
  {
    NIBBLES[t]
  }

  /** The value of a digit, or of any other character 16. */
  function DigitValue(c: char): nat {
    if '0' <= c <= '9' then c as nat - '0' as nat
    else if 'a' <= c <= 'f' then c as nat - 'a' as nat + 10
    else 16
  }

  lemma DigitRoundTrip(t: nat)
    requires t < 16
    ensures DigitValue(Digit(t)) == t
    ensures Digit(t) == '0' <==> t == 0
  {}

  // ----- numbers -----

  /** The digits of `x`, most significant first, without leading zeros. */
  function Digits(x: nat): string {
    (if x < 16 then "" else Digits(x / 16)) + [Digit(x % 16)]
  }

  function Canonical(x: nat): string { "0x" + Digits(x) }

  function ParseDigits(s: string): nat {
    if s == [] then 0 else 16 * ParseDigits(s[..|s| - 1]) + DigitValue(s[|s| - 1])
  }

  function Parse(s: string): nat
    requires |s| >= 2
  {
    ParseDigits(s[2..])
  }

  /** A printed number parses to itself, and has no leading zero unless it is zero. */
  lemma {:induction false} DigitsRoundTrip(x: nat)
    ensures ParseDigits(Digits(x)) == x
    ensures Digits(x)[0] == '0' <==> x == 0
  {
    var s := Digits(x);
    var n := |s| - 1;
    assert s[..n] == if x < 16 then "" else Digits(x / 16);
    DigitRoundTrip(x % 16);
    if x >= 16 { DigitsRoundTrip(x / 16); }
  }

  lemma CanonicalRoundTrip(x: nat, y: nat)
    ensures Parse(Canonical(x)) == x
    ensures Canonical(x) == Canonical(y) <==> x == y
  {
    DigitsRoundTrip(x);
    DigitsRoundTrip(y);
    assert Canonical(x)[2..] == Digits(x) && Canonical(y)[2..] == Digits(y);
  }

  /** `x` without its last `k` nibbles. */
  function Shr(x: nat, k: nat): nat { if k == 0 then x else Shr(x, k - 1) / 16 }

  /** What is printed of the leading part `y` of a number: nothing if it is zero. */
  function Lead(y: nat): string { if y == 0 then "" else Digits(y) }

  lemma LeadNext(x: nat, k: nat)
    ensures var y, t := Shr(x, k + 1), Shr(x, k) % 16;
            Lead(Shr(x, k)) == if y == 0 && t == 0 then Lead(y) else Lead(y) + [Digit(t)]
  {}

  /** The same behind a text: a nibble is written unless all so far are zero. */
  lemma LeadStep(v: nat, k: nat, before: string)
    ensures var y, t := Shr(v, k + 1), Shr(v, k) % 16;
            var add := if |Lead(y)| != 0 || t != 0 then [Digit(t)] else [];
            before + Lead(y) + add == before + Lead(Shr(v, k)) && |Lead(Shr(v, k))| == |Lead(y)| + |add|
  {
    hide Lead, Shr, Digit;
    var y, t := Shr(v, k + 1), Shr(v, k) % 16;
    LeadNext(v, k);
    EmptyIff(y);
    EmptyAppend(before + Lead(y));
    Assoc(before, Lead(y), [Digit(t)]);
  }

  lemma {:induction false} ShrZero(x: nat, k: nat, bound: nat)
    requires x < bound && bound == Pow16(k)
    ensures Shr(x, k) == 0
    decreases k
  {
    if k > 0 {
      ShrShift(x, k - 1);
      ShrZero(x / 16, k - 1, Pow16(k - 1));
    }
  }

  function Pow16(k: nat): nat { if k == 0 then 1 else 16 * Pow16(k - 1) }

  lemma {:induction false} ShrShift(x: nat, k: nat)
    ensures Shr(x, k + 1) == Shr(x / 16, k)
    decreases k
  {
    if k > 0 { ShrShift(x, k - 1); }
  }

  lemma Pow16Is()
    ensures Pow16(4) == 0x1_0000 && Pow16(8) == 0x1_0000_0000 && Pow16(16) == 0x1_0000_0000_0000_0000
  {
    assert Pow16(4) == 0x1_0000;
    assert Pow16(8) == 0x1_0000_0000;
    assert Pow16(12) == 0x1_0000_0000_0000;
  }

  /** The nibbles of a number made of two halves are those of the halves. */
  lemma {:induction false} ShrHalves(hi: nat, lo: nat, n: nat, k: nat)
    requires k <= n
    ensures Shr(hi * Pow16(n) + lo, k) == hi * Pow16(n - k) + Shr(lo, k)
    decreases k
  {
    hide Shr, Pow16;
    if k == 0 {
      ShrNone(hi * Pow16(n) + lo);
      ShrNone(lo);
    } else {
      ShrHalves(hi, lo, n, k - 1);
      ShrNext(hi * Pow16(n) + lo, k);
      ShrNext(lo, k);
      TimesSixteen(hi, n - k);
      Sixteens(hi * Pow16(n - k), Shr(lo, k - 1));
    }
  }

  lemma ShrNext(x: nat, k: nat)
    requires k > 0
    ensures Shr(x, k) == Shr(x, k - 1) / 16
  {}

  lemma TimesSixteen(h: nat, k: nat)
    ensures h * Pow16(k + 1) == 16 * (h * Pow16(k))
  {
    var p := Pow16(k);
    assert h * (16 * p) == 16 * (h * p);
  }

  // ----- dumps -----

  /** Two digits for every byte. */
  function Dump(bytes: seq<Byte>): string {
    if bytes == [] then "" else [Digit(bytes[0] / 16), Digit(bytes[0] % 16)] + Dump(bytes[1..])
  }

  function ParseDump(s: string): seq<nat> {
    if |s| < 2 then [] else [16 * DigitValue(s[0]) + DigitValue(s[1])] + ParseDump(s[2..])
  }

  lemma {:induction false} DumpRoundTrip(bytes: seq<Byte>)
    ensures ParseDump(Dump(bytes)) == bytes
  {
    if bytes != [] {
      DumpRoundTrip(bytes[1..]);
      DigitRoundTrip(bytes[0] / 16);
      DigitRoundTrip(bytes[0] % 16);
      assert Dump(bytes)[2..] == Dump(bytes[1..]);
    }
  }

  /** A value as the processor stores it. */
  function LittleEndian(x: nat, n: nat): (bytes: seq<Byte>)
    ensures |bytes| == n
  {
    if n == 0 then [] else [x % 256] + LittleEndian(x / 256, n - 1)
  }

  /** RULONG: four bytes as a number. */
  function Dword(src: seq<Byte>, at: nat): (r: nat)
    requires at + 4 <= |src|
    ensures r < 0x1_0000_0000
  {
    Weighted(src[at], 1) + Weighted(src[at + 1], 0x100) + Weighted(src[at + 2], 0x1_0000) +
      Weighted(src[at + 3], 0x100_0000)
  }

  function Weighted(b: nat, w: nat): nat { b * w }

  /** Eight bytes as a number. */
  function Qword(src: seq<Byte>): nat
    requires |src| == 8
  {
    Dword(src, 4) * 0x1_0000_0000 + Dword(src, 0)
  }

  // ----- the printers -----

  class WString {
    var pos: nat
    const p: array<char>

    ghost predicate Valid()
      reads this, p
    {
      p.Length == MAX_TEXT_SIZE && pos < p.Length && p[pos] == '\0'
    }

    ghost function Text(): string
      reads this, p
      requires pos <= p.Length
    {
      p[..pos]
    }

    constructor ()
      ensures Valid() && Text() == "" && fresh(p)
    {
      pos := 0;
      p := new char[MAX_TEXT_SIZE](_ => '\0');
    }

    /** One character of the buffer. */
    method Write(c: char)
      requires pos < p.Length
      modifies this`pos, p
      ensures pos == old(pos) + 1 && Text() == old(Text()) + [c]
    {
      p[pos] := c;
      pos := pos + 1;
    }

    method Terminate()
      requires p.Length == MAX_TEXT_SIZE && pos < p.Length
      modifies p
      ensures Valid() && Text() == old(Text())
    {
      p[pos] := '\0';
    }

    /** A nibble, left out if it is zero and nothing has been written before it. */
    method Nibble(t: nat, i: nat) returns (next: nat)
      requires t < 16 && pos < p.Length
      modifies this`pos, p
      ensures next == (if i != 0 || t != 0 then i + 1 else i) && pos <= old(pos) + 1 <= p.Length
      ensures Text() == old(Text()) + (if i != 0 || t != 0 then [Digit(t)] else [])
    {
      next := i;
      if i != 0 || t != 0 {
        Write(Digit(t));
        next := i + 1;
      } else {
        EmptyAppend(Text());
      }
    }

    /** The loops over the nibbles of `x`, which are those of `v` from `shift` on: behind
        what has been written of the nibbles above them. */
    method WriteNibbles(x: nat, hi: nat, lo: nat, i0: nat, ghost v: nat, ghost shift: nat, ghost before: string)
      returns (i: nat)
      requires lo <= hi && pos + (hi - lo) < p.Length
      requires forall k :: lo <= k < hi ==> Shr(x, k) % 16 == Shr(v, k + shift) % 16
      requires Text() == before + Lead(Shr(v, hi + shift)) && i0 == |Lead(Shr(v, hi + shift))|
      modifies this`pos, p
      ensures pos <= old(pos) + (hi - lo) < p.Length
      ensures Text() == before + Lead(Shr(v, lo + shift)) && i == |Lead(Shr(v, lo + shift))|
    {
      hide Lead, Shr, Digit;
      i := i0;
      var k := hi;
      while k != lo
        invariant lo <= k <= hi && pos <= old(pos) + (hi - k)
        invariant Text() == before + Lead(Shr(v, k + shift)) && i == |Lead(Shr(v, k + shift))|
        decreases k
      {
        k := k - 1;
        var t := Shr(x, k) % 16;
        LeadStep(v, k + shift, before);
        i := Nibble(t, i);
      }
    }

    /** "0x", the leading digits, the last digit and the end of the text. */
    method Begin(ghost v: nat, ghost n: nat) returns (ghost before: string)
      requires pos + 2 < p.Length && Shr(v, n) == 0
      modifies this`pos, p
      ensures pos == old(pos) + 2
      ensures before == old(Text()) + "0x" && Text() == before + Lead(Shr(v, n)) && |Lead(Shr(v, n))| == 0
    {
      ghost var text := Text();
      Write('0');
      Write('x');
      before := text + "0x";
      Assoc(text, "0", "x");
      assert "0" + "x" == "0x";
      EmptyAppend(before);
    }

    method End(t: nat, ghost v: nat, ghost text: string, ghost before: string)
      requires p.Length == MAX_TEXT_SIZE && pos + 1 < p.Length && t == v % 16 && before == text + "0x"
      requires Text() == before + Lead(Shr(v, 1))
      modifies this`pos, p
      ensures Valid() && Text() == text + Canonical(v)
    {
      Write(Digit(t));
      Terminate();
      assert Shr(v, 1) == Shr(v, 0) / 16 == v / 16;
      assert Digits(v) == Lead(v / 16) + [Digit(v % 16)];
      Assoc(before, Lead(v / 16), [Digit(t)]);
      Assoc(text, "0x", Digits(v));
    }

    /** str_code_hw prints the lowest 16 bits. */
    method StrCodeHw(x: nat)
      requires Valid() && pos + 6 < p.Length
      modifies this`pos, p
      ensures Valid() && Text() == old(Text()) + Canonical(x % 0x1_0000)
    {
      ghost var v, text := x % 0x1_0000, Text();
      Pow16Is();
      ShrZero(v, 4, 0x1_0000);
      Word4(x);
      ghost var before := Begin(v, 4);
      var i := WriteNibbles(x, 4, 1, 0, v, 0, before);
      End(x % 16, v, text, before);
    }

    /** str_code_hdw. */
    method StrCodeHdw(x: nat)
      requires Valid() && pos + 10 < p.Length && x < 0x1_0000_0000
      modifies this`pos, p
      ensures Valid() && Text() == old(Text()) + Canonical(x)
    {
      ghost var text := Text();
      Pow16Is();
      ShrZero(x, 8, 0x1_0000_0000);
      ghost var before := Begin(x, 8);
      var i := WriteNibbles(x, 8, 1, 0, x, 0, before);
      End(x % 16, x, text, before);
    }

    /** str_off64. */
    method StrOff64(x: nat)
      requires Valid() && pos + 18 < p.Length && x < 0x1_0000_0000_0000_0000
      modifies this`pos, p
      ensures Valid() && Text() == old(Text()) + Canonical(x)
    {
      ghost var text := Text();
      Pow16Is();
      ShrZero(x, 16, 0x1_0000_0000_0000_0000);
      ghost var before := Begin(x, 16);
      var i := WriteNibbles(x, 16, 1, 0, x, 0, before);
      End(x % 16, x, text, before);
    }

    /** str_code_hqw: eight bytes of memory are printed like their little-endian value. */
    method StrCodeHqw(src: seq<Byte>)
      requires Valid() && pos + 18 < p.Length && |src| == 8
      modifies this`pos, p
      ensures Valid() && Text() == old(Text()) + Canonical(Qword(src))
    {
      hide Qword, Dword, Shr, Lead;
      ghost var v, text := Qword(src), Text();
      QwordHalves(src);
      ghost var before := Begin(v, 16);
      var hi, lo := Dword(src, 4), Dword(src, 0);
      var i := WriteNibbles(hi, 8, 0, 0, v, 8, before);
      i := WriteNibbles(lo, 8, 1, i, v, 0, before);
      End(lo % 16, v, text, before);
    }

    /** The two nibbles of one byte. */
    method Pair(t: nat, t': nat, ghost b: Byte)
      requires t == b / 16 && t' == b % 16 && pos + 2 <= p.Length
      modifies this`pos, p
      ensures pos == old(pos) + 2 && Text() == old(Text()) + Dump([b])
    {
      hide Dump, Digit;
      ghost var text := Text();
      Write(Digit(t));
      Write(Digit(t'));
      DumpOne(b);
      Assoc(text, [Digit(t)], [Digit(t')]);
      assert [Digit(t)] + [Digit(t')] == [Digit(t), Digit(t')];
    }

    /** str_hex_sp_w: a space and the two bytes as they lie in memory. */
    method StrHexSpW(x: nat)
      requires Valid() && pos + 5 < p.Length && x < 0x1_0000
      modifies this`pos, p
      ensures Valid() && Text() == old(Text()) + (" " + Dump(LittleEndian(x, 2)))
    {
      ghost var text := Text();
      Write(' ');
      DumpWord(x, text);
      Terminate();
    }

    method DumpWord(x: nat, ghost text: string)
      requires pos + 4 <= p.Length && x < 0x1_0000 && Text() == text + " "
      modifies this`pos, p
      ensures pos == old(pos) + 4 && Text() == text + (" " + Dump(LittleEndian(x, 2)))
    {
      WordBytes(x);
      hide Dump, LittleEndian;
      Pair(x / 16 % 16, x % 16, x % 256);
      Pair(x / 4096, x / 256 % 16, x / 256);
      Assoc(text + " ", Dump([x % 256]), Dump([x / 256]));
      Assoc(text, " ", Dump([x % 256]) + Dump([x / 256]));
    }

    /** str_hex_sp_dw: a space and the four bytes. */
    method StrHexSpDw(x: nat)
      requires Valid() && pos + 9 < p.Length && x < 0x1_0000_0000
      modifies this`pos, p
      ensures Valid() && Text() == old(Text()) + (" " + Dump(LittleEndian(x, 4)))
    {
      ghost var text := Text();
      Write(' ');
      Assoc(text, " ", "");
      EmptyAppend(" ");
      EmptyAppend(text + " ");
      DumpDword(x, text + " ");
      Assoc(text, " ", Dump(LittleEndian(x, 4)));
      Terminate();
    }

    /** The eight nibbles of a double word, byte by byte. */
    method DumpDword(x: nat, ghost text: string)
      requires pos + 8 <= p.Length && x < 0x1_0000_0000 && Text() == text
      modifies this`pos, p
      ensures pos == old(pos) + 8 && Text() == text + Dump(LittleEndian(x, 4))
    {
      DwordNibbles(x);
      DwordBytes(x);
      hide Dump, LittleEndian;
      Pair(x / 16 % 16, x % 16, x % 256);
      Pair(x / 0x1000 % 16, x / 0x100 % 16, x / 0x100 % 256);
      Pair(x / 0x10_0000 % 16, x / 0x1_0000 % 16, x / 0x1_0000 % 256);
      Pair(x / 0x1000_0000, x / 0x100_0000 % 16, x / 0x100_0000);
      FourDumps(text, Dump([x % 256]), Dump([x / 0x100 % 256]), Dump([x / 0x1_0000 % 256]), Dump([x / 0x100_0000]));
    }

    /** str_hex_sp_qw: a space and the eight bytes. */
    method StrHexSpQw(src: seq<Byte>)
      requires Valid() && pos + 17 < p.Length && |src| == 8
      modifies this`pos, p
      ensures Valid() && Text() == old(Text()) + (" " + Dump(src))
    {
      hide LittleEndian, Dump, Dword;
      ghost var text := Text();
      Write(' ');
      DwordMemory(src, 0);
      DwordMemory(src, 4);
      DumpAppend(src[0..4], src[4..8]);
      assert src[0..4] + src[4..8] == src;
      DumpDword(Dword(src, 0), text + " ");
      DumpDword(Dword(src, 4), text + " " + Dump(src[0..4]));
      Assoc(text + " ", Dump(src[0..4]), Dump(src[4..8]));
      Assoc(text, " ", Dump(src));
      Terminate();
    }
  }

  lemma {:induction false} DumpAppend(a: seq<Byte>, b: seq<Byte>)
    ensures Dump(a + b) == Dump(a) + Dump(b)
  {
    EmptyAppend(b);
    EmptyAppend(Dump(b));
    if a != [] {
      ConsAppend(a, b);
      DumpAppend(a[1..], b);
      Assoc([Digit(a[0] / 16), Digit(a[0] % 16)], Dump(a[1..]), Dump(b));
    }
  }

  lemma DumpOne(b: Byte)
    ensures Dump([b]) == [Digit(b / 16), Digit(b % 16)]
  {
    assert [b][1..] == [];
  }

  lemma ByteNibbles(x: nat)
    ensures x % 256 / 16 == x / 16 % 16 && x % 256 % 16 == x % 16
  {
    var q, r := x / 256, x % 256;
    Sixteens(16 * q, r);
    Sixteens(q, r / 16);
  }

  /** Dividing twice. */
  lemma Divided(x: nat)
    ensures x / 0x100 / 16 == x / 0x1000
  {}

  lemma DividedWord(x: nat)
    ensures x / 0x1_0000 / 16 == x / 0x10_0000 && x / 256 / 256 == x / 0x1_0000
  {}

  lemma DividedHigh(x: nat)
    ensures x / 0x100_0000 / 16 == x / 0x1000_0000 && x / 0x1_0000 / 256 == x / 0x100_0000
  {}

  lemma WordBytes(x: nat)
    requires x < 0x1_0000
    ensures Dump(LittleEndian(x, 2)) == Dump([x % 256]) + Dump([x / 256])
    ensures x % 256 / 16 == x / 16 % 16 && x % 256 % 16 == x % 16
    ensures x / 256 / 16 == x / 4096 && x / 256 < 256
  {
    ByteNibbles(x);
    Divided(x);
    LittleEndianIs(x, 2);
    LittleEndianIs(x / 256, 1);
    assert x / 256 % 256 == x / 256;
    hide *;
    DumpAppend([x % 256], [x / 256]);
  }

  /** The nibbles of the bytes of a double word. */
  lemma DwordNibbles(x: nat)
    requires x < 0x1_0000_0000
    ensures x % 256 / 16 == x / 16 % 16 && x % 256 % 16 == x % 16
    ensures x / 0x100 % 256 / 16 == x / 0x1000 % 16 && x / 0x100 % 256 % 16 == x / 0x100 % 16
    ensures x / 0x1_0000 % 256 / 16 == x / 0x10_0000 % 16 && x / 0x1_0000 % 256 % 16 == x / 0x1_0000 % 16
    ensures x / 0x100_0000 / 16 == x / 0x1000_0000 && x / 0x100_0000 < 256
  {
    ByteNibbles(x);
    ByteNibbles(x / 0x100);
    ByteNibbles(x / 0x1_0000);
    Divided(x);
    DividedWord(x);
    DividedHigh(x);
  }

  lemma DwordBytes(x: nat)
    requires x < 0x1_0000_0000
    ensures x / 0x100_0000 < 256
    ensures Dump(LittleEndian(x, 4)) ==
            Dump([x % 256]) + (Dump([x / 0x100 % 256]) + (Dump([x / 0x1_0000 % 256]) + Dump([x / 0x100_0000])))
  {
    hide LittleEndian, Dump;
    var y, z, d: nat := x / 0x100, x / 0x1_0000, x / 0x100_0000;
    DividedWord(x);
    DividedHigh(x);
    LittleEndianIs(x, 4);
    LittleEndianIs(y, 3);
    LittleEndianIs(z, 2);
    LittleEndianIs(d, 1);
    assert d < 256 && d % 256 == d;
    FourBytes(LittleEndian(x, 4), x % 256, y % 256, z % 256, d);
  }

  lemma FourBytes(s: seq<Byte>, a: Byte, b: Byte, c: Byte, d: Byte)
    requires s == [a] + ([b] + ([c] + [d]))
    ensures Dump(s) == Dump([a]) + (Dump([b]) + (Dump([c]) + Dump([d])))
  {
    hide Dump;
    DumpAppend([a], [b] + ([c] + [d]));
    DumpAppend([b], [c] + [d]);
    DumpAppend([c], [d]);
  }

  lemma LittleEndianIs(x: nat, n: nat)
    requires n > 0
    ensures LittleEndian(x, n) == [x % 256] + LittleEndian(x / 256, n - 1)
    ensures n == 1 ==> LittleEndian(x, n) == [x % 256]
  {}

  lemma FourDumps(text: string, a: string, b: string, c: string, d: string)
    ensures text + (a + (b + (c + d))) == text + a + b + c + d
  {}

  /** Four bytes are the little-endian form of their value. */
  lemma DwordMemory(src: seq<Byte>, at: nat)
    requires at + 4 <= |src|
    ensures LittleEndian(Dword(src, at), 4) == src[at..at + 4]
  {
    hide LittleEndian, Dword;
    var x := Dword(src, at);
    var a: nat, b: nat, c: nat, d: nat := src[at], src[at + 1], src[at + 2], src[at + 3];
    DwordIs(src, at);
    LowByte(b + 0x100 * c + 0x1_0000 * d, a);
    LittleEndianIs(x, 4);
    LowByte(c + 0x100 * d, b);
    LittleEndianIs(b + 0x100 * c + 0x1_0000 * d, 3);
    LowByte(d, c);
    LittleEndianIs(c + 0x100 * d, 2);
    LowByte(0, d);
    LittleEndianIs(d, 1);
    assert src[at..at + 4] == [a] + ([b] + ([c] + [d]));
  }

  lemma DwordIs(src: seq<Byte>, at: nat)
    requires at + 4 <= |src|
    ensures var a: nat, b: nat, c: nat, d: nat := src[at], src[at + 1], src[at + 2], src[at + 3];
            Dword(src, at) == 256 * (b + 0x100 * c + 0x1_0000 * d) + a
  {}

  lemma LowByte(q: nat, b: Byte)
    ensures (256 * q + b) / 256 == q && (256 * q + b) % 256 == b
  {}

  lemma EmptyIff(y: nat)
    ensures Lead(y) == "" <==> y == 0
    ensures |Lead(y)| == 0 <==> y == 0
  {}

  lemma Word4(x: nat)
    ensures forall k :: 1 <= k < 4 ==> Shr(x, k) % 16 == Shr(x % 0x1_0000, k) % 16
    ensures x % 16 == x % 0x1_0000 % 16
  {
    Pow16Is();
    hide Shr, Pow16;
    Sixteens(4096 * (x / 0x1_0000), x % 0x1_0000);
    forall k | 1 <= k < 4 ensures Shr(x, k) % 16 == Shr(x % 0x1_0000, k) % 16 {
      HalfNibble(x / 0x1_0000, x % 0x1_0000, 4, k);
    }
  }

  /** The last nibbles of a number are those of its lower half. */
  lemma HalfNibble(hi: nat, lo: nat, n: nat, k: nat)
    requires k < n
    ensures Shr(hi * Pow16(n) + lo, k) % 16 == Shr(lo, k) % 16
  {
    hide Shr, Pow16;
    ShrHalves(hi, lo, n, k);
    TimesSixteen(hi, n - k - 1);
    Sixteens(hi * Pow16(n - k - 1), Shr(lo, k));
  }

  lemma Sixteens(a: nat, b: nat)
    ensures (16 * a + b) % 16 == b % 16 && (16 * a + b) / 16 == a + b / 16
  {}

  lemma QwordHalves(src: seq<Byte>)
    requires |src| == 8
    ensures var v, hi, lo := Qword(src), Dword(src, 4), Dword(src, 0);
            && Shr(v, 16) == 0 && v % 16 == lo % 16
            && (forall k :: 0 <= k < 8 ==> Shr(hi, k) % 16 == Shr(v, k + 8) % 16)
            && (forall k :: 1 <= k < 8 ==> Shr(lo, k) % 16 == Shr(v, k) % 16)
  {
    var v, hi, lo := Qword(src), Dword(src, 4), Dword(src, 0);
    Pow16Is();
    hide Dword, Shr;
    ShrZero(v, 16, 0x1_0000_0000_0000_0000);
    forall k | 0 <= k < 8 ensures Shr(lo, k) % 16 == Shr(v, k) % 16 {
      HalfNibble(hi, lo, 8, k);
    }
    ShrHalves(hi, lo, 8, 8);
    ShrZero(lo, 8, 0x1_0000_0000);
    ShrNone(v);
    ShrNone(lo);
    forall k | 0 <= k < 8 ensures Shr(hi, k) % 16 == Shr(v, k + 8) % 16 {
      ShrTwice(v, 8, k);
    }
  }

  lemma ShrNone(x: nat)
    ensures Shr(x, 0) == x
  {}

  lemma {:induction false} ShrTwice(x: nat, j: nat, k: nat)
    ensures Shr(x, j + k) == Shr(Shr(x, j), k)
    decreases k
  {
    if k > 0 { ShrTwice(x, j, k - 1); }
  }
}
