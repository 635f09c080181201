/** The DHCP server of slirp: src/slirp/bootp.c. */
module Dhcp {
  import opened Basics
  import opened Seqs

  type Bytes = seq<Byte>

  const NB_ADDR := 200
  const START_ADDR := 10
  const OPT_LEN := 312

  // ----- the addresses -----

  /** Bitwise or of two numbers. */
  function Or(a: nat, b: nat): nat
    decreases a + b
  {
    if a == 0 then b else if b == 0 then a
    else 2 * Or(a / 2, b / 2) + (if a % 2 == 1 || b % 2 == 1 then 1 else 0)
  }

  function Pow2(k: nat): nat { if k == 0 then 1 else 2 * Pow2(k - 1) }

  /** The address of slot `i` in the network `net`. */
  function AddressOf(net: nat, i: nat): nat { Or(net, i + START_ADDR) }

  ghost predicate Injective(net: nat) {
    forall i: nat, j: nat :: i < NB_ADDR && j < NB_ADDR && AddressOf(net, i) == AddressOf(net, j) ==> i == j
  }

  /** Bit `k` of a number, and whether its last `k` bits are all zero. */
  function Bit(a: nat, k: nat): nat { if k == 0 then a % 2 else Bit(a / 2, k - 1) }

  function LowZero(a: nat, k: nat): bool { k == 0 || (a % 2 == 0 && LowZero(a / 2, k - 1)) }

  function Doubled(q: nat, k: nat): nat { if k == 0 then q else 2 * Doubled(q, k - 1) }

  lemma {:induction false} HalvedQuotient(a: nat, k: nat) returns (q: nat)
    requires LowZero(a, k)
    ensures a == Doubled(q, k)
  {
    if k == 0 { q := a; } else { q := HalvedQuotient(a / 2, k - 1); }
  }

  lemma {:induction false} DoubledLowZero(q: nat, k: nat)
    ensures LowZero(Doubled(q, k), k)
  {
    if k > 0 {
      var d := Doubled(q, k - 1);
      DoubledLowZero(q, k - 1);
      assert Doubled(q, k) == 2 * d && (2 * d) / 2 == d && (2 * d) % 2 == 0;
    }
  }

  lemma LowByte(a: nat)
    ensures LowZero(a, 8) <==> a % 256 == 0
  {
    if LowZero(a, 8) {
      var q := HalvedQuotient(a, 8);
      EightTimes(q);
    }
    if a % 256 == 0 {
      EightTimes(a / 256);
      DoubledLowZero(a / 256, 8);
    }
  }

  lemma EightTimes(q: nat)
    ensures Doubled(q, 8) == 256 * q
  {
    assert Doubled(q, 1) == 2 * q;
    assert Doubled(q, 3) == 8 * q;
    assert Doubled(q, 5) == 32 * q;
    assert Doubled(q, 7) == 128 * q;
  }

  lemma {:induction false} SomeBit(a: nat, n: nat) returns (k: nat)
    requires !LowZero(a, n)
    ensures k < n && Bit(a, k) == 1
  {
    if a % 2 == 1 {
      k := 0;
    } else {
      var j := SomeBit(a / 2, n - 1);
      k := j + 1;
    }
  }

  /** Zero bits are filled up by addition. */
  lemma {:induction false} OrDisjoint(a: nat, x: nat, k: nat)
    requires LowZero(a, k) && x < Pow2(k)
    ensures Or(a, x) == a + x
    decreases k
  {
    if k > 0 && a > 0 && x > 0 { OrDisjoint(a / 2, x / 2, k - 1); }
  }

  /** A bit that is set already does not show. */
  lemma {:induction false} OrAbsorbs(a: nat, x: nat, k: nat)
    requires Bit(a, k) == 1 && Bit(x, k) == 0
    ensures Or(a, x) == Or(a, x + Pow2(k))
    decreases k
  {
    if k > 0 {
      OrAbsorbs(a / 2, x / 2, k - 1);
      assert (x + 2 * Pow2(k - 1)) / 2 == x / 2 + Pow2(k - 1);
    }
  }

  /** All slots have addresses of their own exactly if the low byte of the network is zero. */
  lemma DistinctAddresses(net: nat)
    ensures Injective(net) <==> net % 256 == 0
  {
    LowByte(net);
    Powers();
    if net % 256 == 0 {
      forall i: nat, j: nat | i < NB_ADDR && j < NB_ADDR && AddressOf(net, i) == AddressOf(net, j)
        ensures i == j
      {
        OrDisjoint(net, i + START_ADDR, 8);
        OrDisjoint(net, j + START_ADDR, 8);
      }
    } else {
      var k := SomeBit(net, 8);
      var i := FreeSlot(k);
      OrAbsorbs(net, i + START_ADDR, k);
      assert AddressOf(net, i) == AddressOf(net, i + Pow2(k));
    }
  }

  /** Then they are the ones from 10 to 209 behind it. */
  lemma AddressRange(net: nat, i: nat)
    requires net % 256 == 0 && i < NB_ADDR
    ensures net + 10 <= AddressOf(net, i) == net + 10 + i <= net + 209
  {
    LowByte(net);
    Powers();
    OrDisjoint(net, i + START_ADDR, 8);
  }

  lemma Powers()
    ensures Pow2(0) == 1 && Pow2(1) == 2 && Pow2(2) == 4 && Pow2(3) == 8 && Pow2(4) == 16
    ensures Pow2(5) == 32 && Pow2(6) == 64 && Pow2(7) == 128 && Pow2(8) == 256
  {
    assert Pow2(3) == 8;
    assert Pow2(6) == 64;
  }

  /** For every bit there are two slots whose numbers differ in it alone. */
  lemma FreeSlot(k: nat) returns (i: nat)
    requires k < 8
    ensures Bit(i + START_ADDR, k) == 0 && i + Pow2(k) < NB_ADDR && Pow2(k) > 0
  {
    Powers();
    i := if k == 1 then 2 else if k == 3 then 6 else if k == 4 then 22
         else if k == 5 then 54 else if k == 6 then 118 else 0;
    assert Bit(10, 0) == Bit(12, 1) == Bit(10, 2) == Bit(16, 3) == 0;
    assert Bit(32, 4) == Bit(16, 3) && Bit(64, 5) == Bit(32, 4) && Bit(128, 6) == Bit(64, 5);
    assert Bit(10, 7) == Bit(5, 6) == Bit(2, 5) == Bit(1, 4) == Bit(0, 3) == 0;
  }

  // ----- the table of clients -----

  datatype Client = Client(taken: bool, mac: Bytes)

  const NO_MAC: Bytes := [0, 0, 0, 0, 0, 0]
  const FREE := Client(false, NO_MAC)

  /** The first free slot, and the first slot of a MAC address, or -1. */
  function FirstFree(cs: seq<Client>): (i: int)
    ensures -1 <= i < |cs|
    ensures i >= 0 ==> !cs[i].taken && forall j :: 0 <= j < i ==> cs[j].taken
    ensures i < 0 ==> forall j :: 0 <= j < |cs| ==> cs[j].taken
  {
    if cs == [] then -1
    else if !cs[0].taken then 0
    else
      var i := FirstFree(cs[1..]);
      if i < 0 then -1 else i + 1
  }

  function FirstOf(cs: seq<Client>, mac: Bytes): (i: int)
    ensures -1 <= i < |cs|
    ensures i >= 0 ==> cs[i].mac == mac && forall j :: 0 <= j < i ==> cs[j].mac != mac
    ensures i < 0 ==> forall j :: 0 <= j < |cs| ==> cs[j].mac != mac
  {
    if cs == [] then -1
    else if cs[0].mac == mac then 0
    else
      var i := FirstOf(cs[1..], mac);
      if i < 0 then -1 else i + 1
  }

  datatype Request = Discover(mac: Bytes) | Ask(mac: Bytes)

  /** A new slot for the client, or -1 if there is none left. */
  function Lease(cs: seq<Client>, mac: Bytes): (seq<Client>, int) {
    var i := FirstFree(cs);
    if i < 0 then (cs, -1) else (cs[i := Client(true, mac)], i)
  }

  /** A discovery always takes a new slot; a request takes the first one of the client,
      and a new one only if it has none. */
  function Serve(cs: seq<Client>, r: Request): (seq<Client>, int) {
    match r
    case Discover(mac) => Lease(cs, mac)
    case Ask(mac) =>
      var i := FirstOf(cs, mac);
      if i >= 0 then (cs[i := Client(true, mac)], i) else Lease(cs, mac)
  }

  /** A client that asks and has a slot gets the first one it has; any other request takes the first
      free slot, and is turned down only if there is none. */
  lemma ServeChooses(cs: seq<Client>, r: Request)
    ensures var (cs', i) := Serve(cs, r);
            if r.Ask? && exists k :: 0 <= k < |cs| && cs[k].mac == r.mac then
              && 0 <= i < |cs| && cs[i].mac == r.mac && (forall j :: 0 <= j < i ==> cs[j].mac != r.mac)
              && cs' == cs[i := Client(true, r.mac)]
            else if exists k :: 0 <= k < |cs| && !cs[k].taken then
              && 0 <= i < |cs| && !cs[i].taken && (forall j :: 0 <= j < i ==> cs[j].taken)
              && cs' == cs[i := Client(true, r.mac)]
            else i == -1 && cs' == cs
  {
    hide FirstFree, FirstOf;
  }

  function Run(cs: seq<Client>, rs: seq<Request>): seq<Client>
    decreases |rs|
  {
    if rs == [] then cs else Run(Serve(cs, rs[0]).0, rs[1..])
  }

  /** Slots are taken from the front, and a free one has no MAC address. */
  ghost predicate Ok(cs: seq<Client>) {
    && |cs| == NB_ADDR
    && (forall i, j :: 0 <= i < j < |cs| && cs[j].taken ==> cs[i].taken)
    && (forall i :: 0 <= i < |cs| && !cs[i].taken ==> cs[i].mac == NO_MAC)
  }

  /** A slot, once bound, keeps its client, and the first slot of a client stays that. */
  lemma ServeKeeps(cs: seq<Client>, r: Request, k: nat)
    requires Ok(cs) && k < NB_ADDR && cs[k].taken
    ensures var (cs', i) := Serve(cs, r);
            && Ok(cs') && cs'[k] == cs[k]
            && (FirstOf(cs, cs[k].mac) == k ==> FirstOf(cs', cs[k].mac) == k)
            && (i >= 0 ==> cs'[i] == Client(true, r.mac))
            && (i < 0 ==> cs' == cs)
  {
    var (cs', i) := Serve(cs, r);
    hide FirstFree, FirstOf;
    assert forall j :: 0 <= j < |cs| && cs[j].taken ==> cs'[j] == cs[j];
  }

  /** Over any run of requests a bound slot keeps its client, and a client that asks gets
      the address it was given first, however often it has discovered others. */
  lemma {:induction false} BoundForGood(cs: seq<Client>, rs: seq<Request>, k: nat)
    requires Ok(cs) && k < NB_ADDR && cs[k].taken
    ensures var cs' := Run(cs, rs);
            && Ok(cs') && cs'[k] == cs[k]
            && (FirstOf(cs, cs[k].mac) == k ==> Serve(cs', Ask(cs[k].mac)).1 == k)
    decreases |rs|
  {
    if rs == [] {
    } else {
      ServeKeeps(cs, rs[0], k);
      BoundForGood(Serve(cs, rs[0]).0, rs[1..], k);
    }
  }

  /** In a network whose low byte is zero no address is ever given to two clients. */
  lemma LeaseIsExclusive(net: nat, cs: seq<Client>, r1: Request, rs: seq<Request>, r2: Request)
    requires Ok(cs) && net % 256 == 0
    requires var (cs1, i) := Serve(cs, r1); var (_, j) := Serve(Run(cs1, rs), r2);
             0 <= i < NB_ADDR && 0 <= j < NB_ADDR && AddressOf(net, i) == AddressOf(net, j)
    ensures r1.mac == r2.mac
  {
    var (cs1, i) := Serve(cs, r1);
    ServeBinds(cs, r1);
    BoundForGood(cs1, rs, i);
    var cs2 := Run(cs1, rs);
    ServeKeeps(cs2, r2, i);
    var j := Serve(cs2, r2).1;
    DistinctAddresses(net);
    assert i == j;
  }

  lemma ServeBinds(cs: seq<Client>, r: Request)
    requires Ok(cs)
    ensures var (cs', i) := Serve(cs, r);
            Ok(cs') && i < NB_ADDR && (i >= 0 ==> cs'[i] == Client(true, r.mac))
  {
    hide FirstFree, FirstOf;
  }

  // ----- options -----

  const COOKIE: Bytes := [99, 130, 83, 99]
  const PAD: Byte := 0
  const NETMASK: Byte := 1
  const GATEWAY: Byte := 3
  const DNS: Byte := 6
  const HOSTNAME: Byte := 12
  const LEASE_TIME: Byte := 51
  const MSG_TYPE: Byte := 53
  const SRV_ID: Byte := 54
  const END: Byte := 255

  const DHCPDISCOVER := 1
  const DHCPOFFER := 2
  const DHCPREQUEST := 3
  const DHCPACK := 5

  datatype Opt = Opt(tag: Byte, data: Bytes)

  ghost predicate Encodable(opts: seq<Opt>) {
    forall i :: 0 <= i < |opts| ==> opts[i].tag != PAD && opts[i].tag != END && |opts[i].data| < 256
  }

  /** Section 2 of RFC 2132: tag, length, data. */
  function Encode(opts: seq<Opt>): Bytes
    requires Encodable(opts)
  {
    if opts == [] then [] else [opts[0].tag, |opts[0].data|] + opts[0].data + Encode(opts[1..])
  }

  /** The value of the last message type option, `t` if there is none. */
  function LastType(opts: seq<Opt>, t: Byte): Byte {
    if opts == [] then t
    else LastType(opts[1..], if opts[0].tag == MSG_TYPE && opts[0].data != [] then opts[0].data[0] else t)
  }

  /** The loop of dhcp_decode from a place on; `past` is the byte behind the buffer. */
  function TypeIn(s: Bytes, t: Byte, past: Byte): Byte
    decreases |s|
  {
    if s == [] then t
    else if s[0] == PAD then TypeIn(s[1..], t, past)
    else if s[0] == END || |s| == 1 then t
    else
      var len := s[1];
      var t' := if s[0] == MSG_TYPE && len >= 1 then (if |s| > 2 then s[2] else past) else t;
      if 2 + len >= |s| then t' else TypeIn(s[2 + len..], t', past)
  }

  function DecodeType(buf: Bytes, past: Byte): Byte {
    if |buf| < 5 || buf[..4] != COOKIE then 0 else TypeIn(buf[4..], 0, past)
  }

  /** Whatever the options and whatever follows their end: the decoder finds the message
      type that was encoded. */
  lemma {:induction false} DecodeEncode(opts: seq<Opt>, rest: Bytes, t: Byte, past: Byte)
    requires Encodable(opts)
    ensures TypeIn(Encode(opts) + [END] + rest, t, past) == LastType(opts, t)
    decreases |opts|
  {
    var s := Encode(opts) + [END] + rest;
    if opts == [] {
      assert s[0] == END;
    } else {
      var o, e := opts[0], Encode(opts[1..]);
      var t' := if o.tag == MSG_TYPE && o.data != [] then o.data[0] else t;
      hide TypeIn;
      TypeStep(o, e, [END] + rest, t, past);
      Assoc(e, [END], rest);
      Assoc(Encode(opts), [END], rest);
      DecodeEncode(opts[1..], rest, t', past);
    }
  }

  /** The decoder passes over one encoded option. */
  lemma TypeStep(o: Opt, e: Bytes, r: Bytes, t: Byte, past: Byte)
    requires o.tag != PAD && o.tag != END && |o.data| < 256 && r != []
    ensures TypeIn(([o.tag, |o.data|] + o.data + e) + r, t, past) ==
            TypeIn(e + r, if o.tag == MSG_TYPE && o.data != [] then o.data[0] else t, past)
  {
    SplitOption(o.tag, o.data, e, r);
  }

  lemma SplitOption(tag: Byte, data: Bytes, e: Bytes, r: Bytes)
    requires |data| < 256 && r != []
    ensures var s := ([tag, |data|] + data + e) + r;
            && |s| > 2 + |data| && s[0] == tag && s[1] == |data| && (data != [] ==> s[2] == data[0])
            && s[2 + |data|..] == e + r
  {}

  /** dhcp_decode. */
  method DhcpDecode(buf: Bytes, past: Byte) returns (msgType: Byte)
    ensures msgType == DecodeType(buf, past)
  {
    msgType := 0;
    if |buf| < 5 || buf[..4] != COOKIE {
      return;
    }
    var p := 4;
    while p < |buf|
      invariant 4 <= p
      invariant TypeIn(if p < |buf| then buf[p..] else [], msgType, past) == DecodeType(buf, past)
      decreases |buf| - p
    {
      var tag := buf[p];
      ghost var s := buf[p..];
      if tag == PAD {
        p := p + 1;
        assert s[1..] == if p < |buf| then buf[p..] else [];
      } else if tag == END {
        break;
      } else {
        p := p + 1;
        if p >= |buf| {
          break;
        }
        var len := buf[p];
        p := p + 1;
        if tag == MSG_TYPE && len >= 1 {
          msgType := if p < |buf| then buf[p] else past;
        }
        p := p + len;
        assert p < |buf| ==> s[2 + len..] == buf[p..];
      }
    }
  }

  function CommonOpts(offer: bool, server: Bytes): seq<Opt> {
    [Opt(MSG_TYPE, [if offer then DHCPOFFER else DHCPACK]), Opt(SRV_ID, server), Opt(NETMASK, [0xff, 0xff, 0xff, 0])]
  }

  function RouterOpts(server: Bytes, dns: Bytes, restricted: bool): seq<Opt> {
    if restricted then [] else [Opt(GATEWAY, server), Opt(DNS, dns)]
  }

  /** The options of an answer. */
  function ReplyOpts(offer: bool, server: Bytes, dns: Bytes, restricted: bool, hostname: Bytes): (r: seq<Opt>)
    requires |server| == 4 && |dns| == 4 && |hostname| <= 32
    ensures Encodable(r)
  {
    CommonOpts(offer, server) + RouterOpts(server, dns, restricted)
    + [Opt(LEASE_TIME, [0, 1, 0x51, 0x80])]
    + (if hostname == [] then [] else [Opt(HOSTNAME, hostname)])
  }

  /** An answer is decoded to its own message type. */
  lemma ReplyDecodes(offer: bool, server: Bytes, dns: Bytes, restricted: bool, hostname: Bytes, rest: Bytes, past: Byte)
    requires |server| == 4 && |dns| == 4 && |hostname| <= 32
    ensures DecodeType(COOKIE + (Encode(ReplyOpts(offer, server, dns, restricted, hostname)) + [END] + rest), past) ==
            if offer then DHCPOFFER else DHCPACK
  {
    var opts := ReplyOpts(offer, server, dns, restricted, hostname);
    var body := Encode(opts) + [END] + rest;
    DecodeEncode(opts, rest, 0, past);
    assert (COOKIE + body)[..4] == COOKIE && (COOKIE + body)[4..] == body;
    TypeFirst(opts);
  }

  lemma {:induction false} TypeFirst(opts: seq<Opt>)
    requires opts != [] && opts[0].tag == MSG_TYPE && opts[0].data != []
    requires forall i :: 0 < i < |opts| ==> opts[i].tag != MSG_TYPE
    ensures LastType(opts, 0) == opts[0].data[0]
  {
    NoType(opts[1..], opts[0].data[0]);
  }

  lemma {:induction false} NoType(opts: seq<Opt>, t: Byte)
    requires forall i :: 0 <= i < |opts| ==> opts[i].tag != MSG_TYPE
    ensures LastType(opts, t) == t
    decreases |opts|
  {
    if opts != [] { NoType(opts[1..], t); }
  }

  lemma {:induction false} EncodePush(opts: seq<Opt>, o: Opt)
    requires Encodable(opts) && Encodable([o])
    ensures Encodable(opts + [o]) && Encode(opts + [o]) == Encode(opts) + ([o.tag, |o.data|] + o.data)
  {
    var one := [o.tag, |o.data|] + o.data;
    if opts == [] {
      assert [] + [o] == [o] && [o][1..] == [];
      EmptyAppend(one);
    } else {
      EncodePush(opts[1..], o);
      ConsAppend(opts, [o]);
      Assoc([opts[0].tag, |opts[0].data|] + opts[0].data, Encode(opts[1..]), one);
    }
  }

  /** The options of an answer, byte by byte: the kind of the message (2 is an offer, 5 an
      acknowledgement), the server, the netmask, the gateway and the name server unless the network is
      restricted, a lease of a day, and the name of the host if it has one. */
  lemma ReplyBytes(offer: bool, server: Bytes, dns: Bytes, restricted: bool, hostname: Bytes)
    requires |server| == 4 && |dns| == 4 && |hostname| <= 32
    ensures Encode(ReplyOpts(offer, server, dns, restricted, hostname)) ==
            [53, 1, if offer then 2 else 5] + ([54, 4] + server) + [1, 4, 255, 255, 255, 0]
            + (if restricted then [] else ([3, 4] + server) + ([6, 4] + dns))
            + ([51, 4] + BigEndian(24 * 3600))
            + (if hostname == [] then [] else [12, |hostname|] + hostname)
  {
    hide Encode, CommonOpts, RouterOpts, BigEndian, Encodable;
    var common, router := CommonOpts(offer, server), RouterOpts(server, dns, restricted);
    var lease, name := [Opt(LEASE_TIME, [0, 1, 0x51, 0x80])], if hostname == [] then [] else [Opt(HOSTNAME, hostname)];
    CommonBytes(offer, server);
    RouterBytes(server, dns, restricted);
    LeaseBytes();
    NameBytes(hostname);
    EncodeAppend(common, router);
    EncodeAppend(common + router, lease);
    EncodeAppend(common + router + lease, name);
  }

  lemma LeaseBytes()
    ensures Encodable([Opt(LEASE_TIME, [0, 1, 0x51, 0x80])])
    ensures Encode([Opt(LEASE_TIME, [0, 1, 0x51, 0x80])]) == [51, 4] + BigEndian(24 * 3600)
  {
    EncodeOne(LEASE_TIME, [0, 1, 0x51, 0x80]);
  }

  lemma NameBytes(hostname: Bytes)
    requires |hostname| <= 32
    ensures var name := if hostname == [] then [] else [Opt(HOSTNAME, hostname)];
            Encodable(name) && Encode(name) == if hostname == [] then [] else [12, |hostname|] + hostname
  {
    EncodeNone();
    if hostname != [] { EncodeOne(HOSTNAME, hostname); }
  }

  /** A number of 32 bits, the highest byte first. */
  function BigEndian(x: nat): Bytes
    requires x < 0x1_0000_0000
  {
    [x / 0x100_0000, x / 0x1_0000 % 0x100, x / 0x100 % 0x100, x % 0x100]
  }

  lemma EncodeNone()
    ensures Encode([]) == []
  {}

  lemma EncodeOne(tag: Byte, data: Bytes)
    requires tag != PAD && tag != END && |data| < 256
    ensures Encodable([Opt(tag, data)]) && Encode([Opt(tag, data)]) == [tag, |data|] + data
  {
    assert [Opt(tag, data)][1..] == [];
    EmptyAppend([tag, |data|] + data);
  }

  lemma {:induction false} EncodeAppend(a: seq<Opt>, b: seq<Opt>)
    requires Encodable(a) && Encodable(b)
    ensures Encodable(a + b) && Encode(a + b) == Encode(a) + Encode(b)
  {
    EmptyAppend(b);
    EmptyAppend(Encode(b));
    if a != [] {
      EncodeAppend(a[1..], b);
      ConsAppend(a, b);
      Assoc([a[0].tag, |a[0].data|] + a[0].data, Encode(a[1..]), Encode(b));
    }
  }

  lemma CommonBytes(offer: bool, server: Bytes)
    requires |server| == 4
    ensures Encodable(CommonOpts(offer, server))
    ensures Encode(CommonOpts(offer, server)) ==
            [53, 1, if offer then 2 else 5] + ([54, 4] + server) + [1, 4, 255, 255, 255, 0]
  {
    hide Encode;
    var kind, mask := Opt(MSG_TYPE, [if offer then DHCPOFFER else DHCPACK]), Opt(NETMASK, [0xff, 0xff, 0xff, 0]);
    assert CommonOpts(offer, server) == [kind] + [Opt(SRV_ID, server)] + [mask];
    EncodeOne(kind.tag, kind.data);
    EncodeOne(SRV_ID, server);
    EncodeOne(mask.tag, mask.data);
    EncodeAppend([kind], [Opt(SRV_ID, server)]);
    EncodeAppend([kind] + [Opt(SRV_ID, server)], [mask]);
  }

  lemma RouterBytes(server: Bytes, dns: Bytes, restricted: bool)
    requires |server| == 4 && |dns| == 4
    ensures Encodable(RouterOpts(server, dns, restricted))
    ensures Encode(RouterOpts(server, dns, restricted)) ==
            if restricted then [] else ([3, 4] + server) + ([6, 4] + dns)
  {
    hide Encode;
    EncodeNone();
    if !restricted {
      assert RouterOpts(server, dns, restricted) == [Opt(GATEWAY, server)] + [Opt(DNS, dns)];
      EncodeOne(GATEWAY, server);
      EncodeOne(DNS, dns);
      EncodeAppend([Opt(GATEWAY, server)], [Opt(DNS, dns)]);
    }
  }

  // ----- the server -----

  /** The address of the client, the kind of the answer and its options. */
  datatype Answer = Answer(address: nat, offer: bool, options: Bytes)

  /** What the options of an answer are: behind the cookie, padded with zeros. */
  ghost predicate Carries(options: Bytes, opts: seq<Opt>)
    requires Encodable(opts)
  {
    |options| == OPT_LEN &&
    exists n: nat :: options == COOKIE + (Encode(opts) + [END] + Zeros(n))
  }

  function Zeros(n: nat): Bytes { seq(n, _ => 0) }

  /** The options of an answer fill their 312 bytes: the cookie, the options, their end, and zeros. */
  lemma AnswerBytes(options: Bytes, opts: seq<Opt>, past: Byte)
    requires Encodable(opts) && Carries(options, opts)
    ensures |options| == 312 && 4 + |Encode(opts)| < 312
    ensures options[..4] == [99, 130, 83, 99] && options[4..4 + |Encode(opts)|] == Encode(opts)
    ensures options[4 + |Encode(opts)|] == 255
    ensures forall i :: 5 + |Encode(opts)| <= i < |options| ==> options[i] == 0
    ensures DecodeType(options, past) == LastType(opts, 0)
  {
    hide Encode, TypeIn;
    var n: nat :| options == COOKIE + (Encode(opts) + [END] + Zeros(n));
    DecodeEncode(opts, Zeros(n), 0, past);
    assert options[4..] == Encode(opts) + [END] + Zeros(n);
  }

  class Server {
    const net: nat
    const clients: array<Client>
    const address: Bytes
    const dns: Bytes
    const restricted: bool
    const hostname: Bytes

    ghost predicate Valid()
      reads clients
    {
      clients.Length == NB_ADDR && Ok(clients[..]) && |address| == 4 && |dns| == 4 && |hostname| <= 32
    }

    constructor (net: nat, address: Bytes, dns: Bytes, restricted: bool, hostname: Bytes)
      requires |address| == 4 && |dns| == 4 && |hostname| <= 32
      ensures Valid() && clients[..] == seq(200, _ => FREE)
    {
      this.net, this.address, this.dns, this.restricted, this.hostname := net, address, dns, restricted, hostname;
      clients := new Client[NB_ADDR](_ => FREE);
    }

    /** get_new_addr. */
    method GetNewAddr() returns (i: int)
      requires clients.Length == NB_ADDR
      modifies clients
      ensures i == FirstFree(old(clients[..]))
      ensures clients[..] == if i < 0 then old(clients[..]) else old(clients[..])[i := old(clients[i]).(taken := true)]
    {
      i := 0;
      while i < NB_ADDR
        invariant 0 <= i <= NB_ADDR && forall j :: 0 <= j < i ==> clients[j].taken
      {
        if !clients[i].taken {
          clients[i] := clients[i].(taken := true);
          return;
        }
        i := i + 1;
      }
      i := -1;
    }

    /** find_addr. */
    method FindAddr(mac: Bytes) returns (i: int)
      requires clients.Length == NB_ADDR
      modifies clients
      ensures i == FirstOf(old(clients[..]), mac)
      ensures clients[..] == if i < 0 then old(clients[..]) else old(clients[..])[i := old(clients[i]).(taken := true)]
    {
      i := 0;
      while i < NB_ADDR
        invariant 0 <= i <= NB_ADDR && forall j :: 0 <= j < i ==> clients[j].mac != mac
      {
        if mac == clients[i].mac {
          clients[i] := clients[i].(taken := true);
          return;
        }
        i := i + 1;
      }
      i := -1;
    }

    /** Writes an option at `q`. */
    method Put(buf: array<Byte>, q: nat, o: Opt) returns (next: nat)
      requires q + 2 + |o.data| <= buf.Length && |o.data| < 256
      modifies buf
      ensures next == q + 2 + |o.data| && buf[..next] == old(buf[..q]) + ([o.tag, |o.data|] + o.data)
      ensures forall m :: next <= m < buf.Length ==> buf[m] == old(buf[m])
    {
      buf[q], buf[q + 1] := o.tag, |o.data|;
      for k := 0 to |o.data|
        invariant buf[..q + 2 + k] == old(buf[..q]) + ([o.tag, |o.data|] + o.data[..k])
        invariant forall m :: q + 2 + k <= m < buf.Length ==> buf[m] == old(buf[m])
      {
        buf[q + 2 + k] := o.data[k];
        assert buf[..q + 2 + k + 1] == buf[..q + 2 + k] + [o.data[k]];
        assert o.data[..k + 1] == o.data[..k] + [o.data[k]];
      }
      assert o.data[..|o.data|] == o.data;
      next := q + 2 + |o.data|;
    }

    /** The first `q` bytes are the cookie and these options, the others zero. */
    ghost predicate Building(buf: array<Byte>, q: nat, opts: seq<Opt>)
      reads buf
    {
      && buf.Length == OPT_LEN && q <= OPT_LEN && Encodable(opts)
      && buf[..q] == COOKIE + Encode(opts) && forall m :: q <= m < OPT_LEN ==> buf[m] == 0
    }

    method Append(buf: array<Byte>, q: nat, o: Opt, ghost opts: seq<Opt>) returns (next: nat)
      requires Building(buf, q, opts) && o.tag != PAD && o.tag != END && |o.data| < 256 && q + 2 + |o.data| <= OPT_LEN
      modifies buf
      ensures Building(buf, next, opts + [o]) && next == q + 2 + |o.data|
    {
      OneEncodable(o);
      EncodePush(opts, o);
      Assoc(COOKIE, Encode(opts), [o.tag, |o.data|] + o.data);
      hide Encode;
      next := Put(buf, q, o);
    }

    /** The options of an answer, one after the other. */
    method BuildOptions(offer: bool) returns (buf: array<Byte>)
      requires Valid()
      ensures fresh(buf) && Carries(buf[..], ReplyOpts(offer, address, dns, restricted, hostname))
    {
      hide Encode, Encodable, Building, ReplyOpts;
      buf := new Byte[OPT_LEN](_ => 0);
      buf[0], buf[1], buf[2], buf[3] := 99, 130, 83, 99;
      assert buf[..4] == COOKIE;
      StartBuilding(buf);
      var q := BuildCommon(buf, offer);
      q := BuildRouter(buf, q, CommonOpts(offer, address));
      ghost var opts := CommonOpts(offer, address) + RouterOpts(address, dns, restricted);
      q := Append(buf, q, Opt(LEASE_TIME, [0, 1, 0x51, 0x80]), opts);
      opts := opts + [Opt(LEASE_TIME, [0, 1, 0x51, 0x80])];
      if hostname != [] {
        q := Append(buf, q, Opt(HOSTNAME, hostname), opts);
        opts := opts + [Opt(HOSTNAME, hostname)];
      }
      AllOpts(offer, opts);
      Finish(buf, q, opts);
    }

    method BuildCommon(buf: array<Byte>, offer: bool) returns (q: nat)
      requires Valid() && Building(buf, 4, [])
      modifies buf
      ensures Building(buf, q, CommonOpts(offer, address)) && q == 19
    {
      hide Encode, Encodable, Building;
      var kind, id := Opt(MSG_TYPE, [if offer then DHCPOFFER else DHCPACK]), Opt(SRV_ID, address);
      q := Append(buf, 4, kind, []);
      q := Append(buf, q, id, [] + [kind]);
      q := Append(buf, q, Opt(NETMASK, [0xff, 0xff, 0xff, 0]), [] + [kind] + [id]);
      assert [] + [kind] + [id] + [Opt(NETMASK, [0xff, 0xff, 0xff, 0])] == CommonOpts(offer, address);
    }

    method BuildRouter(buf: array<Byte>, q0: nat, ghost opts: seq<Opt>) returns (q: nat)
      requires Valid() && Building(buf, q0, opts) && q0 + 12 <= OPT_LEN
      modifies buf
      ensures Building(buf, q, opts + RouterOpts(address, dns, restricted)) && q <= q0 + 12
    {
      hide Encode, Encodable, Building;
      q := q0;
      if !restricted {
        q := Append(buf, q, Opt(GATEWAY, address), opts);
        q := Append(buf, q, Opt(DNS, dns), opts + [Opt(GATEWAY, address)]);
        assert opts + [Opt(GATEWAY, address)] + [Opt(DNS, dns)] == opts + RouterOpts(address, dns, restricted);
      } else {
        EmptyAppend(opts);
      }
    }

    lemma StartBuilding(buf: array<Byte>)
      requires buf.Length == OPT_LEN && buf[..4] == COOKIE && forall m :: 4 <= m < OPT_LEN ==> buf[m] == 0
      ensures Building(buf, 4, [])
    {
      EmptyAppend(COOKIE);
    }

    lemma AllOpts(offer: bool, opts: seq<Opt>)
      requires Valid()
      requires opts ==
               CommonOpts(offer, address) + RouterOpts(address, dns, restricted) + [Opt(LEASE_TIME, [0, 1, 0x51, 0x80])]
                       + (if hostname == [] then [] else [Opt(HOSTNAME, hostname)])
      ensures opts == ReplyOpts(offer, address, dns, restricted, hostname)
    {}

    /** One option by itself. */
    lemma OneEncodable(o: Opt)
      requires o.tag != PAD && o.tag != END && |o.data| < 256
      ensures Encodable([o])
    {}

    /** The end of the options. */
    method Finish(buf: array<Byte>, q: nat, ghost opts: seq<Opt>)
      requires Building(buf, q, opts) && q < OPT_LEN
      modifies buf
      ensures Carries(buf[..], opts)
    {
      hide Encode;
      buf[q] := END;
      assert buf[q + 1..] == Zeros(OPT_LEN - q - 1);
      assert buf[..] == buf[..q] + [END] + buf[q + 1..];
      assert buf[..] == COOKIE + (Encode(opts) + [END] + Zeros(OPT_LEN - q - 1));
    }

    /** bootp_reply, for a message with the options `vend` from the client `mac`;
        `memory` says whether there is a buffer for the answer. */
    method Reply(vend: Bytes, past: Byte, mac: Bytes, memory: bool) returns (a: Option<Answer>)
      requires Valid()
      modifies clients
      ensures Valid()
      ensures var t := DecodeType(vend, past); var cs := old(clients[..]);
              if t !in {0, 1, 3} || !memory then a == None && clients[..] == cs
              else
                var (cs', i) := Serve(cs, if t == 1 then Discover(mac) else Ask(mac));
                && clients[..] == cs'
                && (a.Some? <==> i >= 0)
                && (a.Some? ==>
                    i < NB_ADDR && a.value.address == AddressOf(net, i) && a.value.offer == (t == 1))
                && (a.Some? ==> Carries(a.value.options, ReplyOpts(a.value.offer, address, dns, restricted, hostname)))
    {
      var t := DhcpDecode(vend, past);
      if t == 0 {
        t := DHCPREQUEST;
      }
      if t != DHCPDISCOVER && t != DHCPREQUEST {
        return None;
      }
      if !memory {
        return None;
      }
      hide Ok, Serve, DecodeType;
      ServeBinds(clients[..], if t == DHCPDISCOVER then Discover(mac) else Ask(mac));
      var i := TakeSlot(t == DHCPDISCOVER, mac);
      if i < 0 {
        return None;
      }
      var buf := BuildOptions(t == DHCPDISCOVER);
      a := Some(Answer(AddressOf(net, i), t == DHCPDISCOVER, buf[..]));
    }

    /** The slot for an answer: a new one after a discovery, otherwise the client's first if it has one. */
    method TakeSlot(discover: bool, mac: Bytes) returns (i: int)
      requires clients.Length == NB_ADDR
      modifies clients
      ensures (clients[..], i) == Serve(old(clients[..]), if discover then Discover(mac) else Ask(mac))
    {
      hide FirstFree, FirstOf;
      i := -1;
      if !discover {
        i := FindAddr(mac);
      }
      if i < 0 {
        i := NewSlot(mac);
      }
    }

    method NewSlot(mac: Bytes) returns (i: int)
      requires clients.Length == NB_ADDR
      modifies clients
      ensures (clients[..], i) == Lease(old(clients[..]), mac)
    {
      hide FirstFree;
      ghost var cs := clients[..];
      i := GetNewAddr();
      if i >= 0 {
        clients[i] := clients[i].(mac := mac);
        assert clients[..] == cs[i := Client(true, mac)];
      }
    }
  }
}
