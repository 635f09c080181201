/** The Internet checksum of slirp (src/slirp/cksum.c), proved equal to the
    definition in sections 1 and 2 of RFC 1071, with the overflow bound of its
    32-bit `int` accumulator. */
module Cksum {
  import opened Basics

  newtype int32 = x: int | -0x8000_0000 <= x < 0x8000_0000

  // ----- the reference definition: RFC 1071, network byte order -----

  /** The 16-bit value whose more significant byte is `hi`. */
  function Word(hi: int, lo: int): int { 256 * hi + lo }

  /** One's complement addition of 16-bit words: the carry is added back in. */
  function OnesAdd(a: nat, b: nat): nat {
    (a + b) % 65536 + (a + b) / 65536
  }

  /** The one's complement sum of the big-endian words of `b`, zero padded. */
  function RfcSum(b: seq<Byte>): nat
    decreases |b|
  {
    if |b| == 0 then 0
    else if |b| == 1 then OnesAdd(Word(b[0], 0), 0)
    else OnesAdd(Word(b[0], b[1]), RfcSum(b[2..]))
  }

  function RfcChecksum(b: seq<Byte>): int { 65535 - RfcSum(b) }

  /** A 16-bit value as a little-endian host stores a network-order one. */
  function Swap16(x: int): int { x % 256 * 256 + x / 256 }

  // ----- sums without carries -----

  /** The plain sum of the little-endian words of `b`, zero padded. */
  function WordSum(b: seq<Byte>): nat
    decreases |b|
  {
    if |b| == 0 then 0
    else if |b| == 1 then b[0]
    else Word(b[1], b[0]) + WordSum(b[2..])
  }

  /** The representative of `t` modulo 65535 that end-around carry produces:
      zero only for zero. */
  function Norm(t: nat): nat {
    if t == 0 then 0 else (t - 1) % 65535 + 1
  }

  lemma NormStep(a: nat, k: nat)
    requires a > 0 || k == 0
    ensures Norm(a + 65535 * k) == Norm(a)
  {
    if a > 0 {
      ModAdd(a - 1, k);
      assert a + 65535 * k - 1 == (a - 1) + 65535 * k;
    }
  }

  lemma {:induction false} ModAdd(x: nat, k: nat)
    ensures (x + 65535 * k) % 65535 == x % 65535
    decreases k
  {
    if k > 0 {
      ModAdd(x, k - 1);
      assert x + 65535 * k == (x + 65535 * (k - 1)) + 65535;
      assert forall y: nat :: (y + 65535) % 65535 == y % 65535;
    }
  }

  /** Every value is its representative plus a multiple of 65535. */
  lemma NormQuotient(t: nat) returns (k: nat)
    ensures t == Norm(t) + 65535 * k && Norm(t) <= 65535
    ensures Norm(t) == 0 <==> t == 0
  {
    k := if t == 0 then 0 else (t - 1) / 65535;
  }

  /** Representatives may be taken before adding. */
  lemma NormAdd(a: nat, b: nat)
    ensures Norm(Norm(a) + b) == Norm(a + b)
  {
    var k := NormQuotient(a);
    NormStep(Norm(a) + b, k);
    assert a + b == (Norm(a) + b) + 65535 * k;
  }

  lemma NormAddSame(a: nat, a': nat, x: nat)
    requires Norm(a) == Norm(a')
    ensures Norm(a + x) == Norm(a' + x)
  {
    NormAdd(a, x);
    NormAdd(a', x);
  }

  lemma NormIdempotent(a: nat)
    ensures Norm(Norm(a)) == Norm(a)
  {
    NormAdd(a, 0);
  }

  lemma NormScale(a: nat)
    ensures Norm(256 * Norm(a)) == Norm(256 * a)
  {
    var k := NormQuotient(a);
    NormStep(256 * Norm(a), 256 * k);
    assert 256 * a == 256 * Norm(a) + 65535 * (256 * k);
  }

  lemma NormSmall(a: nat)
    requires a <= 65535
    ensures Norm(a) == a
  {}

  lemma OnesAddNorm(a: nat, b: nat)
    requires a <= 65535 && b <= 65535
    ensures OnesAdd(a, b) == Norm(a + b) <= 65535
  {
    if a + b > 65535 {
      NormStep(a + b - 65535, 1);
      NormSmall(a + b - 65535);
    } else {
      NormSmall(a + b);
    }
  }

  lemma SwapNorm(a: nat)
    ensures Swap16(Norm(a)) == Norm(256 * a)
    ensures 0 <= Swap16(Norm(a)) <= 65535
  {
    var k := NormQuotient(a);
    NormScale(a);
    var x := Norm(a);
    assert 256 * x == Swap16(x) + 65535 * (x / 256);
    assert 0 <= Swap16(x) <= 65535;
    NormStep(Swap16(x), x / 256);
    NormSmall(Swap16(x));
  }

  lemma SwapInvolution(x: int)
    requires 0 <= x <= 65535
    ensures Swap16(Swap16(x)) == x && 0 <= Swap16(x) <= 65535
  {
    WordBytes(x % 256, x / 256);
  }

  lemma WordBytes(hi: int, lo: int)
    requires 0 <= hi < 256 && 0 <= lo < 256
    ensures Word(hi, lo) / 256 == hi && Word(hi, lo) % 256 == lo
  {}

  lemma SwapComplement(x: int)
    requires 0 <= x <= 65535
    ensures Swap16(65535 - x) == 65535 - Swap16(x)
  {
    assert (65535 - x) % 256 == 255 - x % 256 && (65535 - x) / 256 == 255 - x / 256;
  }

  /** Moving every byte up by one position multiplies the sum by 256 modulo
      65535: section 2(B) of RFC 1071. */
  lemma {:induction false} ShiftByOne(x: Byte, t: seq<Byte>) returns (k: nat)
    ensures x + 256 * WordSum(t) == WordSum([x] + t) + 65535 * k
    ensures k + x <= WordSum([x] + t)
    decreases |t|
  {
    hide WordSum, Word;
    if |t| == 0 {
      WordSumShort(x);
      assert t == [] && [x] + t == [x];
      k := 0;
    } else if |t| == 1 {
      WordSumShort(t[0]);
      WordSumTwo(x, t[0], []);
      assert t == [t[0]] && [x] + t == [x, t[0]] + [];
      ShiftStep(x, t[0], 0, 0, 0, 0);
      k := 0;
    } else {
      var k' := ShiftByOne(t[1], t[2..]);
      WordSumTwo(t[0], t[1], t[2..]);
      WordSumTwo(x, t[0], [t[1]] + t[2..]);
      assert t == [t[0], t[1]] + t[2..] && [x] + t == [x, t[0]] + ([t[1]] + t[2..]);
      ShiftStep(x, t[0], t[1], WordSum(t[2..]), WordSum([t[1]] + t[2..]), k');
      k := k' + t[1];
    }
  }

  lemma ShiftStep(x: Byte, t0: Byte, t1: Byte, s: nat, s': nat, k: nat)
    ensures t1 + 256 * s == s' + 65535 * k ==> x + 256 * (Word(t1, t0) + s) == Word(t0, x) + s' + 65535 * (k + t1)
    ensures Word(t0, x) == 256 * t0 + x
    ensures k + t1 <= s' ==> k + t1 + x <= Word(t0, x) + s'
  {}

  lemma WordSumTwo(lo: Byte, hi: Byte, t: seq<Byte>)
    ensures WordSum([lo, hi] + t) == Word(hi, lo) + WordSum(t)
  {
    assert ([lo, hi] + t)[2..] == t;
  }

  lemma WordSumShort(x: Byte)
    ensures WordSum([]) == 0 && WordSum([x]) == x
  {}

  lemma ShiftNorm(x: Byte, t: seq<Byte>)
    ensures Norm(x + 256 * WordSum(t)) == Norm(WordSum([x] + t))
  {
    var k := ShiftByOne(x, t);
    NormStep(WordSum([x] + t), k);
  }

  /** Byte order independence, section 2(B) of RFC 1071: the little-endian sum is
      the network-order one with its bytes exchanged. */
  lemma {:induction false} RfcSumIsNorm(b: seq<Byte>)
    ensures RfcSum(b) == Norm(256 * WordSum(b)) <= 65535
    decreases |b|
  {
    NormSmall(0);
    hide Norm, OnesAdd;
    if |b| == 1 {
      OnesAddNorm(Word(b[0], 0), 0);
    } else if |b| > 1 {
      RfcSumIsNorm(b[2..]);
      OnesAddNorm(Word(b[0], b[1]), RfcSum(b[2..]));
      SwappedWord(b[0], b[1], WordSum(b[2..]));
    }
  }

  lemma SwappedWord(hi: Byte, lo: Byte, rest: nat)
    ensures Norm(Word(hi, lo) + Norm(256 * rest)) == Norm(256 * (Word(lo, hi) + rest))
  {
    var w := Word(hi, lo);
    NormAdd(256 * rest, w);
    assert 256 * (Word(lo, hi) + rest) == (w + 256 * rest) + 65535 * lo;
    NormStep(w + 256 * rest, lo);
  }

  /** What the routine must return for `b`: the complement of the network-order
      sum, as a little-endian host holds it. */
  function Expected(b: seq<Byte>): int { Swap16(RfcChecksum(b)) }

  lemma ExpectedIsNorm(b: seq<Byte>)
    ensures Expected(b) == 65535 - Norm(WordSum(b))
    ensures 0 <= Expected(b) <= 65535
  {
    RfcSumIsNorm(b);
    var k := NormQuotient(WordSum(b));
    SwapNorm(WordSum(b));
    hide Norm, WordSum, RfcSum;
    SwapComplement(RfcSum(b));
    SwapInvolution(Norm(WordSum(b)));
  }

  // ----- the routine -----

  /** The macro REDUCE followed by ADDCARRY. */
  method Reduce(sum: int32) returns (r: int32)
    requires sum >= 0
    ensures r as int == Norm(sum as int) <= 65535
  {
    var lo, hi := sum % 65536, sum / 65536;
    r := lo + hi;
    if r > 65535 { r := r - 65535; }
    NormStep((lo + hi) as int, hi as int);
    if (lo + hi) as int > 65535 {
      NormStep((lo + hi) as int - 65535, 1);
      NormSmall((lo + hi) as int - 65535);
    } else {
      NormSmall((lo + hi) as int);
    }
  }

  /** The number of bytes summed by the unrolled loops, before any reduction. */
  function BulkBytes(n: nat, odd: bool): nat {
    var m := if odd && n > 0 then n - 1 else n;
    m / 8 * 8
  }

  /** The accumulator cannot overflow, whatever the bytes: at most this many are
      summed before it is reduced. */
  const BULK_LIMIT := 65536

  /** Dropping a word from the front. */
  lemma {:induction false} WordSumAppend(a: seq<Byte>, c: seq<Byte>)
    requires |a| % 2 == 0
    ensures WordSum(a + c) == WordSum(a) + WordSum(c)
    decreases |a|
  {
    if |a| == 0 {
      assert a + c == c;
    } else {
      WordSumAppend(a[2..], c);
      assert (a + c)[2..] == a[2..] + c;
    }
  }

  lemma {:induction false} WordSumBound(a: seq<Byte>)
    requires |a| % 2 == 0
    ensures WordSum(a) <= 65535 * (|a| / 2)
    decreases |a|
  {
    if |a| > 0 {
      WordSumBound(a[2..]);
      assert |a| / 2 == |a[2..]| / 2 + 1;
    }
  }

  lemma WordSumNext(b: seq<Byte>, p: nat, q: nat, j: nat)
    requires q == p + 2 * j && q + 2 <= |b|
    ensures WordSum(b[p..q + 2]) == WordSum(b[p..q]) + Word(b[q + 1], b[q])
    ensures 0 <= Word(b[q + 1], b[q]) <= 65535
  {
    hide WordSum;
    assert b[p..q + 2] == b[p..q] + [b[q], b[q + 1]];
    WordSumAppend(b[p..q], [b[q], b[q + 1]]);
    WordSumTwo(b[q], b[q + 1], []);
    WordSumShort(0);
    assert [b[q], b[q + 1]] + [] == [b[q], b[q + 1]];
  }

  lemma SumFits(a: seq<Byte>, words: nat)
    requires |a| == 2 * words <= BULK_LIMIT
    ensures WordSum(a) < 0x8000_0000
  {
    WordSumBound(a);
    hide WordSum;
  }

  /** `k` consecutive unrolled statements `sum += w[i]`. */
  method AddWords(b: seq<Byte>, ghost start: nat, ghost j: nat, w: nat, k: nat, sum: int32) returns (r: int32)
    requires w == start + 2 * j && w + 2 * k <= |b|
    requires w + 2 * k - start <= BULK_LIMIT
    requires sum as int == WordSum(b[start..w])
    ensures r as int == WordSum(b[start..w + 2 * k])
  {
    r := sum;
    hide WordSum, Word;
    for i := 0 to k
      invariant r as int == WordSum(b[start..w + 2 * i])
    {
      var q := w + 2 * i;
      WordSumNext(b, start, q, j + i);
      SumFits(b[start..q + 2], j + i + 1);
      r := r + Word(b[q + 1], b[q]) as int32;
    }
  }

  /** The whole groups of four words between `start` and `n` are within the limit. */
  predicate InBounds(start: nat, n: nat) {
    start <= n && (n - start) / 8 * 8 <= BULK_LIMIT
  }

  /** A group of words that is there does not reach beyond the limit. */
  lemma BulkFits(start: nat, w: nat, k: nat, more: nat, n: nat)
    requires InBounds(start, n) && w == start + 8 * k && w + 8 * more <= n
    ensures w + 8 * more - start <= BULK_LIMIT
  {
    assert k + more <= (n - start) / 8;
  }

  /** Both unrolled loops: sixteen words at a time, then four. */
  method SumUnrolled(data: seq<Byte>, start: nat, n: nat) returns (sum: int32, w: nat, mlen: int32, ghost j: nat)
    requires n <= |data| < 0x8000_0000 && InBounds(start, n)
    ensures start <= w == start + 2 * j <= n && mlen as int == n - w < 8
    ensures sum as int == WordSum(data[start..w])
  {
    sum, w, mlen, j := 0, start, (n - start) as int32, 0;
    ghost var k: nat := 0;
    hide WordSum, InBounds;
    assert data[start..w] == [];
    EmptySum();
    mlen := mlen - 32;
    while mlen >= 0
      invariant -32 <= mlen as int && w + mlen as int + 32 == n
      invariant w == start + 8 * k <= n
      invariant sum as int == WordSum(data[start..w])
    {
      BulkFits(start, w, k, 4, n);
      sum := AddWords(data, start, 4 * k, w, 16, sum);
      w, k := w + 32, k + 4;
      mlen := mlen - 32;
    }
    mlen := mlen + 32;
    mlen := mlen - 8;
    while mlen >= 0
      invariant -8 <= mlen as int && w + mlen as int + 8 == n
      invariant w == start + 8 * k <= n
      invariant sum as int == WordSum(data[start..w])
    {
      BulkFits(start, w, k, 1, n);
      sum := AddWords(data, start, 4 * k, w, 4, sum);
      w, k := w + 8, k + 1;
      mlen := mlen - 8;
    }
    mlen := mlen + 8;
    j := 4 * k;
  }

  /** `sum` stands for the words from `start` to `w`. */
  ghost predicate SumsTo(data: seq<Byte>, start: nat, w: nat, sum: nat) {
    start <= w <= |data| && Norm(sum) == Norm(WordSum(data[start..w]))
  }

  lemma TailStep(data: seq<Byte>, start: nat, j: nat, w: nat, sum: nat)
    requires w == start + 2 * j && w + 2 <= |data| && SumsTo(data, start, w, sum)
    ensures 0 <= Word(data[w + 1], data[w]) <= 65535
    ensures SumsTo(data, start, w + 2, sum + Word(data[w + 1], data[w]))
  {
    hide Norm, WordSum, Word;
    WordSumNext(data, start, w, j);
    NormAddSame(sum, WordSum(data[start..w]), Word(data[w + 1], data[w]));
  }

  /** The last loop, one word at a time, from a reduced sum; `mlen` is left at -1
      when a byte remains and at -2 when none does. */
  method SumTail(data: seq<Byte>, ghost start: nat, ghost j0: nat, mid: nat, n: nat, sum0: int32)
    returns (sum: int32, w: nat, mlen: int32, ghost j: nat)
    requires mid == start + 2 * j0 <= n <= |data| && n - mid < 8
    requires 0 <= sum0 as int <= 65535 && SumsTo(data, start, mid, sum0 as int)
    ensures start <= w == start + 2 * j <= n && n - w < 2 && mlen as int == n - w - 2
    ensures 0 <= sum as int <= 4 * 65535 && SumsTo(data, start, w, sum as int)
  {
    hide SumsTo, Word;
    sum, w, mlen, j := sum0, mid, (n - mid) as int32, j0;
    mlen := mlen - 2;
    while mlen >= 0
      invariant w == start + 2 * j <= n && mid <= w && mlen as int == n - w - 2
      invariant 0 <= sum as int <= 65535 * (j - j0 + 1) && SumsTo(data, start, w, sum as int)
    {
      var x: int := Word(data[w + 1], data[w]);
      TailStep(data, start, j, w, sum as int);
      sum := sum + x as int32;
      w, j := w + 2, j + 1;
      mlen := mlen - 2;
    }
  }

  /** The end of a byte-swapped sum: it is shifted back and the bytes left over at
      either end are added; `mlen` is -1 when only the first byte still is. */
  method Unswap(c0: Byte, ghost t: seq<Byte>, rest: seq<Byte>, sum0: int32) returns (sum: int32, mlen: int32)
    requires |t| % 2 == 0 && |rest| < 2
    requires 0 <= sum0 as int <= 4 * 65535 && Norm(sum0 as int) == Norm(WordSum(t))
    ensures -1 <= mlen <= 0 && 0 <= sum as int <= 257 * 65535
    ensures Norm(sum as int + if mlen == -1 then c0 else 0) == Norm(WordSum([c0] + t + rest))
  {
    hide Norm, WordSum;
    sum := Reduce(sum0);
    sum := sum * 256;
    if |rest| == 1 {
      var c1 := rest[0];
      sum := sum + Word(c1, c0) as int32;
      mlen := 0;
      OddByteHigh(c0, t, c1);
      assert rest == [c1];
    } else {
      mlen := -1;
      ShiftFinish(c0, t);
      assert [c0] + t + rest == [c0] + t;
    }
  }

  /** The routine up to its label `cont`: `data` holds the m_len bytes of the
      buffer, `odd` says whether its address is odd; `mlen` is -1 when the byte `c0`
      is still to be added. */
  method Accumulate(data: seq<Byte>, odd: bool, len: int32) returns (sum: int32, mlen: int32, c0: Byte)
    requires |data| < 0x8000_0000 && len >= 0
    requires BulkBytes(|Prefix(data, len as int)|, odd) <= BULK_LIMIT
    ensures 0 <= sum && (mlen == -1 ==> sum as int <= 257 * 65535)
    ensures Norm(sum as int + if mlen == -1 then c0 else 0) == Norm(WordSum(Prefix(data, len as int)))
  {
    hide Norm, WordSum, Word, Prefix, BulkBytes;
    sum, mlen, c0 := 0, 0, 0;
    ghost var b := Prefix(data, len as int);
    EmptySum();
    NormZero();
    PrefixIs(data, len as int);
    if |data| == 0 { return; }
    mlen := |data| as int32;
    if len < mlen { mlen := len; }
    var end: nat, w: nat, swapped := mlen as nat, 0, false;
    BulkIs(end, odd);
    if odd && mlen > 0 {
      sum := Reduce(sum);
      sum := sum * 256;
      c0 := data[w];
      w := w + 1;
      swapped := true;
    }
    ghost var start := w;
    ghost var j;
    sum, w, mlen, j := SumUnrolled(data, w, end);
    if mlen == 0 && !swapped {
      return;
    }
    NormIdempotent(WordSum(data[start..w]));
    sum := Reduce(sum);
    sum, w, mlen, j := SumTail(data, start, j, w, end, sum);
    ghost var t := data[start..w];
    if swapped {
      Rejoin(data, w, end);
      sum, mlen := Unswap(c0, t, data[w..end], sum);
    } else if mlen == -1 {
      c0 := data[w];
      NextByte(data, w);
      LastByte(t, c0);
      NormAddSame(sum as int, WordSum(t), c0);
    }
  }

  lemma NormZero()
    ensures Norm(0) == 0
  {}

  lemma PrefixIs(data: seq<Byte>, len: nat)
    ensures Prefix(data, len) == data[..if len < |data| then len else |data|] ==
            data[0..if len < |data| then len else |data|]
  {}

  lemma BulkIs(n: nat, odd: bool)
    ensures var start := if odd && n > 0 then 1 else 0;
            start <= n && BulkBytes(n, odd) == (n - start) / 8 * 8
            && (BulkBytes(n, odd) <= BULK_LIMIT <==> InBounds(start, n))
  {}

  lemma BulkEven(n: nat, odd: bool) returns (words: nat)
    ensures BulkBytes(n, odd) == 2 * words && (BulkBytes(n, odd) > BULK_LIMIT ==> 2 * words >= BULK_LIMIT + 8)
  {
    var groups := (if odd && n > 0 then n - 1 else n) / 8;
    words := 4 * groups;
  }

  lemma NextByte(data: seq<Byte>, w: nat)
    requires w < |data|
    ensures data[0..w] + [data[w]] == data[0..w + 1]
  {}

  lemma Rejoin(data: seq<Byte>, w: nat, end: nat)
    requires 1 <= w <= end <= |data|
    ensures [data[0]] + data[1..w] + data[w..end] == data[..end]
  {}

  /** The bytes summed: no more than the buffer holds. */
  function Prefix(data: seq<Byte>, len: nat): seq<Byte> {
    if len < |data| then data[..len] else data
  }

  method Checksum(data: seq<Byte>, odd: bool, len: int32) returns (r: int32)
    requires |data| < 0x8000_0000 && len >= 0
    requires BulkBytes(|Prefix(data, len as int)|, odd) <= BULK_LIMIT
    ensures r as int == Expected(Prefix(data, len as int))
  {
    var sum, mlen, c0 := Accumulate(data, odd, len);
    ExpectedIsNorm(Prefix(data, len as int));
    hide Norm, WordSum, Expected;
    if mlen == -1 {
      var c1: Byte := 0;
      sum := sum + Word(c1, c0) as int32;
    }
    sum := Reduce(sum);
    r := 65535 - sum; // ~sum & 0xffff of a 16-bit value
  }

  lemma EmptySum()
    ensures WordSum([]) == 0
  {}

  lemma LastByte(t: seq<Byte>, x: Byte)
    requires |t| % 2 == 0
    ensures WordSum(t + [x]) == WordSum(t) + x
  {
    WordSumAppend(t, [x]);
  }

  /** Scaling the reduced sum of the swapped part and adding the first byte. */
  lemma ShiftFinish(x: Byte, t: seq<Byte>)
    ensures Norm(256 * Norm(WordSum(t)) + x) == Norm(WordSum([x] + t))
  {
    NormScale(WordSum(t));
    NormAdd(256 * Norm(WordSum(t)), x);
    NormAdd(256 * WordSum(t), x);
    ShiftNorm(x, t);
  }

  lemma OddByteHigh(x: Byte, t: seq<Byte>, y: Byte)
    requires |t| % 2 == 0
    ensures Norm(256 * Norm(WordSum(t)) + Word(y, x)) == Norm(WordSum([x] + t + [y]))
  {
    hide Norm, WordSum;
    assert [x] + t + [y] == [x] + (t + [y]);
    var s, w: nat := WordSum(t), Word(y, x);
    NormScale(s);
    NormAddSame(256 * Norm(s), 256 * s, w);
    LastByte(t, y);
    assert x + 256 * WordSum(t + [y]) == 256 * s + w;
    ShiftNorm(x, t + [y]);
  }

  // ----- what the result is good for -----

  /** The packet `b` with the 16-bit value `f` stored in its field at offset `k`. */
  function WithField(b: seq<Byte>, k: nat, f: nat): seq<Byte>
    requires k + 2 <= |b| && f <= 65535
  {
    b[..k] + [f % 256, f / 256] + b[k + 2..]
  }

  lemma FieldSum(b: seq<Byte>, k: nat, f: nat)
    requires k % 2 == 0 && k + 2 <= |b| && f <= 65535
    ensures WordSum(WithField(b, k, f)) == WordSum(WithField(b, k, 0)) + f
  {
    hide WordSum;
    FieldIs(b[..k], f % 256, f / 256, b[k + 2..]);
    FieldIs(b[..k], 0, 0, b[k + 2..]);
  }

  lemma FieldIs(a: seq<Byte>, lo: Byte, hi: Byte, c: seq<Byte>)
    requires |a| % 2 == 0
    ensures WordSum(a + [lo, hi] + c) == WordSum(a) + Word(hi, lo) + WordSum(c)
  {
    hide WordSum;
    assert a + [lo, hi] + c == a + ([lo, hi] + c);
    WordSumAppend(a, [lo, hi] + c);
    WordSumTwo(lo, hi, c);
  }

  /** A packet sums to zero exactly when its checksum field, at an even offset,
      holds the checksum computed with that field zero; 0xffff also passes for a
      checksum of zero, the other one's complement zero. */
  lemma VerifiesIffChecksumStored(b: seq<Byte>, k: nat, f: nat)
    requires k % 2 == 0 && k + 2 <= |b| && f <= 65535
    ensures var c := Expected(WithField(b, k, 0));
            Expected(WithField(b, k, f)) == 0 <==> f == c || (c == 0 && f == 65535)
  {
    var s := WordSum(WithField(b, k, 0));
    ExpectedIsNorm(WithField(b, k, 0));
    ExpectedIsNorm(WithField(b, k, f));
    FieldSum(b, k, f);
    var q := NormQuotient(s);
    NormAdd(s, f);
    hide *;
    FullNorm(Norm(s), f);
  }

  lemma FullNorm(x: nat, f: nat)
    requires x <= 65535 && f <= 65535
    ensures Norm(x + f) == 65535 <==> x + f == 65535 || (x == 65535 && f == 65535)
  {
    if x + f > 65535 {
      NormStep(x + f - 65535, 1);
      NormSmall(x + f - 65535);
    } else {
      NormSmall(x + f);
    }
  }

  /** No sum of the unrolled loops can overflow a 32-bit `int`. */
  ghost predicate NeverOverflows(n: nat, odd: bool) {
    forall b: seq<Byte> :: |b| == BulkBytes(n, odd) ==> WordSum(b) < 0x8000_0000
  }

  lemma {:induction false} AllOnesSum(k: nat)
    ensures WordSum(seq(2 * k, _ => 255)) == 65535 * k
    decreases k
  {
    if k > 0 {
      AllOnesSum(k - 1);
      var b: seq<Byte> := seq(2 * k, _ => 255);
      var c: seq<Byte> := seq(2 * (k - 1), _ => 255);
      assert b[2..] == c;
    }
  }

  /** The bound on the length is exact: one more pass of the loop of four words can
      overflow the accumulator. */
  lemma OverflowBoundary(n: nat, odd: bool)
    ensures NeverOverflows(n, odd) <==> BulkBytes(n, odd) <= BULK_LIMIT
  {
    hide WordSum, BulkBytes;
    var words := BulkEven(n, odd);
    if 2 * words <= BULK_LIMIT {
      forall b: seq<Byte> | |b| == 2 * words
        ensures WordSum(b) < 0x8000_0000
      {
        SumFits(b, words);
      }
    } else {
      var b: seq<Byte> := seq(2 * words, _ => 255);
      Overflows(words);
      assert |b| == 2 * words && WordSum(b) >= 0x8000_0000;
    }
  }

  lemma Overflows(words: nat)
    requires 2 * words >= BULK_LIMIT + 8
    ensures WordSum(seq(2 * words, _ => 255)) >= 0x8000_0000
  {
    hide WordSum;
    AllOnesSum(words);
  }
}
