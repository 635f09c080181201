/** Addresses of the mediator: src/network/net_typedefs.h and src/common/mac.h. */
module Net {

  /** An IPv4 socket address; the null address has neither host nor port. */
  datatype Addr = Addr(ip: nat, port: nat)

  const NULL_ADDR := Addr(0, 0)

  predicate ValidAddr(a: Addr) { a.port != 0 && a.ip != 0 }

  /** An address needs a host and a port; with both it is one. */
  lemma HostAndPort(ip: nat, port: nat)
    ensures !ValidAddr(NULL_ADDR) && !ValidAddr(Addr(0, port)) && !ValidAddr(Addr(ip, 0))
    ensures ValidAddr(Addr(ip + 1, port + 1))
  {}

  /** A MAC address as the program holds it: its first byte is the lowest one of the
      64-bit value. */
  type Mac = m: nat | m < 0x1_0000_0000_0000

  const NO_MAC: Mac := 0
  const BROADCAST: Mac := 0xffff_ffff_ffff

  type Packet = seq<bv8>

  /** The same bytes in the opposite order. */
  function Swap16(x: nat): (r: nat)
    requires x < 0x1_0000
    ensures r < 0x1_0000
  {
    x % 256 * 256 + x / 256
  }

  function Swap32(x: nat): (r: nat)
    requires x < 0x1_0000_0000
    ensures r < 0x1_0000_0000
  {
    Swap16(x % 0x1_0000) * 0x1_0000 + Swap16(x / 0x1_0000)
  }

  /** The MAC address given to node `id` of a cluster with prefix `base`. */
  function MacOf(base: nat, id: nat): Mac
    requires base < 0x1_0000_0000 && id < 0x1_0000
  {
    Swap32(base) + Swap16(id) * 0x1_0000_0000
  }

  lemma Quotient(m: nat, unit: nat, low: nat, rest: nat)
    requires low < unit && m == low + unit * rest
    ensures m / unit == rest && m % unit == low
  {
    var q, r := m / unit, m % unit;
    assert m == unit * q + r;
    NoMultiple(unit, rest - q, r - low) by { assert unit * (rest - q) == unit * rest - unit * q; }
  }

  lemma NoMultiple(unit: int, d: int, x: int)
    requires unit * d == x && -unit < x < unit
    ensures d == 0
  {
    if d > 0 {
      NotNegative(unit, d - 1);
    } else if d < 0 {
      NotNegative(unit, -d - 1);
    }
  }

  lemma NotNegative(x: int, y: int)
    requires x >= 0 && y >= 0
    ensures x * y >= 0
  {}

  lemma Swap16Bytes(x: nat)
    requires x < 0x1_0000
    ensures Swap16(x) == x / 0x100 + 0x100 * (x % 0x100)
  {}

  lemma FromBytes(m: nat, b0: nat, b1: nat, b2: nat, b3: nat, b4: nat, b5: nat)
    requires b0 < 0x100 && b1 < 0x100 && b2 < 0x100 && b3 < 0x100 && b4 < 0x100 && b5 < 0x100
    requires m == b0 + 0x100 * b1 + 0x1_0000 * b2 + 0x100_0000 * b3 + 0x1_0000_0000 * b4 + 0x100_0000_0000 * b5
    ensures m % 0x100 == b0 && m / 0x100 % 0x100 == b1 && m / 0x1_0000 % 0x100 == b2
    ensures m / 0x100_0000 % 0x100 == b3 && m / 0x1_0000_0000 % 0x100 == b4 && m / 0x100_0000_0000 == b5
  {
    var r1 := b1 + 0x100 * b2 + 0x1_0000 * b3 + 0x100_0000 * b4 + 0x1_0000_0000 * b5;
    var r2 := b2 + 0x100 * b3 + 0x1_0000 * b4 + 0x100_0000 * b5;
    var r3 := b3 + 0x100 * b4 + 0x1_0000 * b5;
    var r4 := b4 + 0x100 * b5;
    Quotient(m, 0x100, b0, r1);
    Quotient(m, 0x1_0000, b0 + 0x100 * b1, r2);
    Quotient(m, 0x100_0000, b0 + 0x100 * b1 + 0x1_0000 * b2, r3);
    Quotient(m, 0x1_0000_0000, b0 + 0x100 * b1 + 0x1_0000 * b2 + 0x100_0000 * b3, r4);
    Quotient(m, 0x100_0000_0000, b0 + 0x100 * b1 + 0x1_0000 * b2 + 0x100_0000 * b3 + 0x1_0000_0000 * b4, b5);
    Quotient(r1, 0x100, b1, r2);
    Quotient(r2, 0x100, b2, r3);
    Quotient(r3, 0x100, b3, r4);
    Quotient(r4, 0x100, b4, b5);
  }

  lemma Swap32Bytes(x: nat)
    requires x < 0x1_0000_0000
    ensures Swap32(x) == x / 0x100_0000 + 0x100 * (x / 0x1_0000 % 0x100) + 0x1_0000 * (x / 0x100 % 0x100)
                         + 0x100_0000 * (x % 0x100)
  {
    hide Swap16;
    var lo, hi := x % 0x1_0000, x / 0x1_0000;
    Swap16Bytes(lo);
    Swap16Bytes(hi);
    FromBytes(x, lo % 0x100, lo / 0x100, hi % 0x100, hi / 0x100, 0, 0);
  }

  /** Its bytes on the wire, the first of which is the lowest: the four of the prefix and the two of
      the id, each from the highest down. */
  lemma MacOfBytes(base: nat, id: nat)
    requires base < 0x1_0000_0000 && id < 0x1_0000
    ensures var m := MacOf(base, id);
            && m % 0x100 == base / 0x100_0000
            && m / 0x100 % 0x100 == base / 0x1_0000 % 0x100
            && m / 0x1_0000 % 0x100 == base / 0x100 % 0x100
            && m / 0x100_0000 % 0x100 == base % 0x100
            && m / 0x1_0000_0000 % 0x100 == id / 0x100
            && m / 0x100_0000_0000 == id % 0x100
  {
    Swap32Bytes(base);
    Swap16Bytes(id);
    FromBytes(MacOf(base, id), base / 0x100_0000, base / 0x1_0000 % 0x100, base / 0x100 % 0x100, base % 0x100,
              id / 0x100, id % 0x100);
  }

  lemma Swap16Injective(x: nat, y: nat)
    requires x < 0x1_0000 && y < 0x1_0000 && Swap16(x) == Swap16(y)
    ensures x == y
  {}

  lemma Swap32Injective(x: nat, y: nat)
    requires x < 0x1_0000_0000 && y < 0x1_0000_0000 && Swap32(x) == Swap32(y)
    ensures x == y
  {
    Swap16Injective(x % 0x1_0000, y % 0x1_0000);
    Swap16Injective(x / 0x1_0000, y / 0x1_0000);
  }

  /** With a prefix the mediator accepts, every node has a usable address of its own. */
  lemma MacOfIsUsable(base: nat, id: nat, id': nat)
    requires 0 < base <= 0xffff_ff00 && id < 0x1_0000 && id' < 0x1_0000
    ensures MacOf(base, id) != NO_MAC && MacOf(base, id) != BROADCAST
    ensures MacOf(base, id) == MacOf(base, id') <==> id == id'
  {
    SwapExtremes();
    hide Swap16, Swap32;
    if Swap32(base) == 0 { Swap32Injective(base, 0); }
    if Swap32(base) == 0xffff_ffff { Swap32Injective(base, 0xffff_ffff); }
    if Swap16(id) == Swap16(id') { Swap16Injective(id, id'); }
  }

  lemma SwapExtremes()
    ensures Swap32(0) == 0 && Swap32(0xffff_ffff) == 0xffff_ffff
  {
    var x: nat := 0xffff_ffff;
    assert x % 0x1_0000 == 0xffff && x / 0x1_0000 == 0xffff;
    assert Swap16(0xffff) == 0xffff;
  }
}
