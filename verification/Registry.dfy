/** The registration of nodes in src/network/switch.cpp: `nodes_` in the order of its
    iteration, `mac_map_`, and what is known of every node ever created. */
module Registry {
  import opened Seqs
  import opened Net
  import opened Nodes

  datatype Reg = Reg(nodes: seq<Node>, macs: map<Mac, Node>, recs: map<Node, NodeRec>)

  const NO_NODES := Reg([], map[], map[])

  /** The invariant of the registry: the map leads to registered nodes with a MAC
      address only, and every registered node with one is what the map holds for it. */
  ghost predicate RegOk(reg: Reg) {
    && NoDup(reg.nodes)
    && (forall n :: n in reg.nodes ==> n in reg.recs)
    && (forall m :: m in reg.macs ==> MappedOk(reg, m))
    && (forall n :: n in reg.nodes ==> NodeOk(reg, n))
  }

  ghost predicate NodeOk(reg: Reg, n: Node)
    requires n in reg.recs
  {
    reg.recs[n].mac != NO_MAC ==> reg.recs[n].mac in reg.macs && reg.macs[reg.recs[n].mac] == n
  }

  ghost predicate MappedOk(reg: Reg, m: Mac)
    requires m in reg.macs
  {
    var n := reg.macs[m];
    n in reg.nodes && n in reg.recs && reg.recs[n].mac != NO_MAC && m != NO_MAC
  }

  ghost predicate NoDup(s: seq<Node>) {
    forall i, j :: 0 <= i < j < |s| ==> s[i] != s[j]
  }

  /** Two registered nodes never share a MAC address. */
  lemma NoSharedMac(reg: Reg, a: Node, b: Node)
    requires RegOk(reg) && a in reg.nodes && b in reg.nodes
    requires reg.recs[a].mac == reg.recs[b].mac != NO_MAC
    ensures a == b
  {
    assert NodeOk(reg, a) && NodeOk(reg, b);
  }

  // ----- looking up and inserting -----

  /** The first of `nodes` with this address. */
  function FirstAt(nodes: seq<Node>, recs: map<Node, NodeRec>, addr: Addr): (n: Node?)
    requires forall x :: x in nodes ==> x in recs
    ensures n == null <==> forall x :: x in nodes ==> recs[x].addr != addr
    ensures n != null ==> n in nodes && recs[n].addr == addr
  {
    if nodes == [] then null
    else if recs[nodes[0]].addr == addr then nodes[0]
    else FirstAt(nodes[1..], recs, addr)
  }

  function FindAddr(reg: Reg, addr: Addr): Node?
    requires forall x :: x in reg.nodes ==> x in reg.recs
  {
    if ValidAddr(addr) then FirstAt(reg.nodes, reg.recs, addr) else null
  }

  /** The set of nodes is ordered by their place in memory; a new one falls at `at`. */
  function InsertAt(nodes: seq<Node>, at: nat, n: Node): seq<Node>
    requires at <= |nodes|
  {
    nodes[..at] + [n] + nodes[at..]
  }

  function AddNode(reg: Reg, at: nat, n: Node, r: NodeRec): Reg
    requires at <= |reg.nodes|
  {
    Reg(InsertAt(reg.nodes, at, n), if r.mac == NO_MAC then reg.macs else reg.macs[r.mac := n], reg.recs[n := r])
  }

  /** Ports that became known as nodes under the same address. */
  predicate Duplicate(r: NodeRec, addr: Addr) {
    r.mac == NO_MAC && r.id == 0 && r.addr == addr
  }

  function DuplicateAt(addr: Addr): NodeRec -> bool {
    r => Duplicate(r, addr)
  }

  /** `nodes` without the ones that `gone` holds of. */
  function Without(nodes: seq<Node>, recs: map<Node, NodeRec>, gone: NodeRec -> bool): (r: seq<Node>)
    requires forall x :: x in nodes ==> x in recs
    ensures forall x :: x in r ==> x in nodes && !gone(recs[x])
    ensures forall x :: x in nodes && !gone(recs[x]) ==> x in r
    ensures |r| <= |nodes|
  {
    if nodes == [] then []
    else if gone(recs[nodes[0]]) then Without(nodes[1..], recs, gone)
    else [nodes[0]] + Without(nodes[1..], recs, gone)
  }

  function EraseDup(reg: Reg, addr: Addr): Reg
    requires forall x :: x in reg.nodes ==> x in reg.recs
  {
    if ValidAddr(addr) then reg.(nodes := Without(reg.nodes, reg.recs, DuplicateAt(addr))) else reg
  }

  // ----- the two forms of register_node -----

  /** Whether registering `mac` at `addr` creates a node. */
  predicate MacNeedsNode(reg: Reg, mac: Mac, addr: Addr)
    requires forall x :: x in reg.nodes ==> x in reg.recs
  {
    mac == NO_MAC || (mac != BROADCAST && mac !in reg.macs && FindAddr(reg, addr) == null)
  }

  predicate IdNeedsNode(reg: Reg, mac: Mac, addr: Addr)
    requires forall x :: x in reg.nodes ==> x in reg.recs
  {
    mac !in reg.macs && FindAddr(reg, addr) == null
  }

  /** The memory of a new node is not in use. */
  ghost predicate IsNew(reg: Reg, born: Node?) {
    born != null && born !in reg.recs
  }

  /** A known node sends from `addr`. */
  function Readdressed(reg: Reg, n: Node, addr: Addr): Reg
    requires n in reg.recs && forall x :: x in reg.nodes ==> x in reg.recs
  {
    var r := reg.recs[n];
    if r.addr == addr then reg
    else if !ValidAddr(r.addr) then EraseDup(reg.(recs := reg.recs[n := r.(addr := addr)]), addr)
    else reg.(recs := reg.recs[n := r.(id := 0, addr := addr)])
  }

  /** A known node gets what it lacks of an id and a MAC address. */
  function Identified(reg: Reg, n: Node, mac: Mac, id: nat): Reg
    requires n in reg.recs
  {
    var r := reg.recs[n];
    var r1 := if r.id == 0 then r.(id := id) else r;
    reg.(recs := reg.recs[n := if r.mac == NO_MAC then r1.(mac := mac) else r1],
         macs := if r.mac == NO_MAC then reg.macs[mac := n] else reg.macs)
  }

  /** A node becomes known by the address its packets carry. */
  function RegisterMac(reg: Reg, mac: Mac, addr: Addr, at: nat, born: Node?, elapsed: nat): (r: (Reg, Node?))
    requires RegOk(reg) && at <= |reg.nodes| && (MacNeedsNode(reg, mac, addr) ==> IsNew(reg, born))
  {
    var newRec := NewRec(addr, mac, 0, elapsed);
    if mac == NO_MAC then
      (AddNode(reg, at, born, newRec), born)
    else if mac == BROADCAST then
      (reg, null)
    else if mac !in reg.macs then
      var port := FindAddr(reg, addr);
      if port == null then (AddNode(reg, at, born, newRec), born)
      else (reg.(recs := reg.recs[port := reg.recs[port].(mac := mac)], macs := reg.macs[mac := port]), port)
    else
      (Readdressed(reg, reg.macs[mac], addr), reg.macs[mac])
  }

  /** A node becomes known by the id in its timing messages; `mac` is the address
      constructed from it. */
  function RegisterId(reg: Reg, mac: Mac, id: nat, addr: Addr, at: nat, born: Node?, elapsed: nat): (r: (Reg, Node))
    requires RegOk(reg) && at <= |reg.nodes| && (IdNeedsNode(reg, mac, addr) ==> IsNew(reg, born))
  {
    var found := if mac in reg.macs then reg.macs[mac] else FindAddr(reg, addr);
    if found == null then
      (AddNode(reg, at, born, NewRec(NULL_ADDR, mac, id, elapsed)), born)
    else (Identified(reg, found, mac, id), found)
  }

  lemma RegisterMacUnfold(reg: Reg, mac: Mac, addr: Addr, at: nat, born: Node?, elapsed: nat)
    requires RegOk(reg) && at <= |reg.nodes| && (MacNeedsNode(reg, mac, addr) ==> IsNew(reg, born))
    ensures mac in reg.macs ==> reg.macs[mac] in reg.recs
    ensures FindAddr(reg, addr) != null ==> FindAddr(reg, addr) in reg.recs
    ensures var r := RegisterMac(reg, mac, addr, at, born, elapsed);
            if MacNeedsNode(reg, mac, addr) then r == (AddNode(reg, at, born, NewRec(addr, mac, 0, elapsed)), born)
            else if mac == BROADCAST then r == (reg, null)
            else if mac !in reg.macs then
              var port := FindAddr(reg, addr);
              r == (reg.(recs := reg.recs[port := reg.recs[port].(mac := mac)], macs := reg.macs[mac := port]), port)
            else r == (Readdressed(reg, reg.macs[mac], addr), reg.macs[mac])
  {
    hide NoDup, NodeOk, EraseDup;
    if mac in reg.macs { assert MappedOk(reg, mac); }
  }

  lemma RegisterIdUnfold(reg: Reg, mac: Mac, id: nat, addr: Addr, at: nat, born: Node?, elapsed: nat)
    requires RegOk(reg) && at <= |reg.nodes| && (IdNeedsNode(reg, mac, addr) ==> IsNew(reg, born))
    ensures mac in reg.macs ==> reg.macs[mac] in reg.recs
    ensures FindAddr(reg, addr) != null ==> FindAddr(reg, addr) in reg.recs
    ensures var r := RegisterId(reg, mac, id, addr, at, born, elapsed);
            if IdNeedsNode(reg, mac, addr) then r == (AddNode(reg, at, born, NewRec(NULL_ADDR, mac, id, elapsed)), born)
            else
              var found := if mac in reg.macs then reg.macs[mac] else FindAddr(reg, addr);
              r == (Identified(reg, found, mac, id), found)
  {
    hide NoDup, NodeOk, EraseDup;
    if mac in reg.macs { assert MappedOk(reg, mac); }
  }

  const OBSOLETE_S := 300

  function ObsoleteAt(now: nat): NodeRec -> bool {
    r => ObsoleteRec(r, OBSOLETE_S, now)
  }

  /** Obsolete ports are forgotten, the synchronized nodes started. */
  function StartNodes(reg: Reg, now: nat): (r: Reg)
    requires forall x :: x in reg.nodes ==> x in reg.recs
    ensures r.recs.Keys == reg.recs.Keys
  {
    Reg(Without(reg.nodes, reg.recs, ObsoleteAt(now)), reg.macs, Started(reg.recs, reg.nodes))
  }

  function Started(recs: map<Node, NodeRec>, nodes: seq<Node>): (r: map<Node, NodeRec>)
    ensures r.Keys == recs.Keys
  {
    map n | n in recs :: StartedRec(recs[n], n in nodes)
  }

  function StartedRec(r: NodeRec, registered: bool): NodeRec {
    if registered && SyncValid(r) then r.(running := true) else r
  }

  lemma StartedNext(recs: map<Node, NodeRec>, done: seq<Node>, n: Node)
    requires n in recs
    ensures Started(recs, done + [n]) ==
            if SyncValid(recs[n]) then Started(recs, done)[n := recs[n].(running := true)] else Started(recs, done)
  {}

  /** Starting a node changes nothing that matters for its being obsolete or started. */
  lemma StartedAt(recs: map<Node, NodeRec>, done: seq<Node>, n: Node)
    requires n in recs
    ensures var r := Started(recs, done)[n];
            && SyncValid(r) == SyncValid(recs[n]) && r.(running := true) == recs[n].(running := true)
            && forall timeout, now :: ObsoleteRec(r, timeout, now) == ObsoleteRec(recs[n], timeout, now)
  {}

  lemma StartedNone(recs: map<Node, NodeRec>)
    ensures Started(recs, []) == recs
  {}

  // ----- what registration guarantees -----

  lemma InsertAtElements(nodes: seq<Node>, at: nat, n: Node)
    requires at <= |nodes|
    ensures forall x :: x in InsertAt(nodes, at, n) <==> x in nodes || x == n
    ensures NoDup(nodes) && n !in nodes ==> NoDup(InsertAt(nodes, at, n))
  {
    assert nodes == nodes[..at] + nodes[at..];
  }

  lemma {:induction false} WithoutAppend(a: seq<Node>, n: Node, recs: map<Node, NodeRec>, gone: NodeRec -> bool)
    requires n in recs && forall x :: x in a ==> x in recs
    ensures Without(a + [n], recs, gone) == Without(a, recs, gone) + (if gone(recs[n]) then [] else [n])
  {
    var last := if gone(recs[n]) then [] else [n];
    if a == [] {
      assert a + [n] == [n] && [n][1..] == [];
    } else {
      WithoutAppend(a[1..], n, recs, gone);
      ConsAppend(a, [n]);
      Assoc([a[0]], Without(a[1..], recs, gone), last);
    }
  }

  /** A loop that erases from `cur` while it iterates over what was `all` stands at `i`, after `k`
      steps: what it has kept and what it has not yet seen. */
  ghost predicate Erasing(cur: seq<Node>, i: nat, all: seq<Node>, k: nat, recs: map<Node, NodeRec>,
                          gone: NodeRec -> bool)
    requires forall x :: x in all ==> x in recs
  {
    && i <= |cur| && k <= |all| && cur[i..] == all[k..]
    && cur[..i] == Without(all[..k], recs, gone)
  }

  lemma ErasingStart(all: seq<Node>, recs: map<Node, NodeRec>, gone: NodeRec -> bool)
    requires forall x :: x in all ==> x in recs
    ensures Erasing(all, 0, all, 0, recs, gone)
  {}

  lemma ErasingNext(cur: seq<Node>, i: nat, all: seq<Node>, k: nat, recs: map<Node, NodeRec>, gone: NodeRec -> bool)
    requires forall x :: x in all ==> x in recs
    requires Erasing(cur, i, all, k, recs, gone) && i < |cur|
    ensures k < |all| && cur[i] in all && all[..k + 1] == all[..k] + [cur[i]]
    ensures if gone(recs[cur[i]]) then Erasing(cur[..i] + cur[i + 1..], i, all, k + 1, recs, gone)
            else Erasing(cur, i + 1, all, k + 1, recs, gone)
  {
    Next(cur, i, all, k);
    Erased(cur, i);
    WithoutAppend(all[..k], cur[i], recs, gone);
    hide Without;
  }

  lemma ErasingEnd(cur: seq<Node>, all: seq<Node>, k: nat, recs: map<Node, NodeRec>, gone: NodeRec -> bool)
    requires forall x :: x in all ==> x in recs
    requires Erasing(cur, |cur|, all, k, recs, gone)
    ensures all[..k] == all && cur == Without(all, recs, gone)
  {
    hide Without;
    assert |all[k..]| == 0;
    Whole(all);
    Whole(cur);
  }

  lemma {:induction false} WithoutNoDup(nodes: seq<Node>, recs: map<Node, NodeRec>, gone: NodeRec -> bool)
    requires NoDup(nodes) && forall x :: x in nodes ==> x in recs
    ensures NoDup(Without(nodes, recs, gone))
  {
    if nodes != [] {
      WithoutNoDup(nodes[1..], recs, gone);
      assert nodes[0] !in nodes[1..];
    }
  }

  lemma AddNodeOk(reg: Reg, at: nat, n: Node, r: NodeRec)
    requires RegOk(reg) && at <= |reg.nodes| && n !in reg.recs
    requires r.mac == NO_MAC || r.mac !in reg.macs
    ensures var reg' := AddNode(reg, at, n, r);
            && RegOk(reg') && n in reg'.nodes && reg'.recs == reg.recs[n := r]
            && reg'.macs == if r.mac == NO_MAC then reg.macs else reg.macs[r.mac := n]
  {
    InsertAtElements(reg.nodes, at, n);
    hide NoDup, InsertAt, MappedOk, NodeOk;
    var reg' := AddNode(reg, at, n, r);
    forall m | m in reg'.macs ensures MappedOk(reg', m) { AddedMac(reg, at, n, r, m); }
    forall x | x in reg'.nodes ensures x in reg'.recs && NodeOk(reg', x) { AddedNode(reg, at, n, r, x); }
  }

  lemma AddedMac(reg: Reg, at: nat, n: Node, r: NodeRec, m: Mac)
    requires RegOk(reg) && at <= |reg.nodes| && n !in reg.recs && m in AddNode(reg, at, n, r).macs
    ensures MappedOk(AddNode(reg, at, n, r), m)
  {
    InsertAtElements(reg.nodes, at, n);
    hide NoDup, InsertAt, NodeOk;
    if m in reg.macs && m != r.mac { assert MappedOk(reg, m); }
  }

  lemma AddedNode(reg: Reg, at: nat, n: Node, r: NodeRec, x: Node)
    requires RegOk(reg) && at <= |reg.nodes| && n !in reg.recs && (r.mac == NO_MAC || r.mac !in reg.macs)
    requires x in AddNode(reg, at, n, r).nodes
    ensures x in AddNode(reg, at, n, r).recs && NodeOk(AddNode(reg, at, n, r), x)
  {
    InsertAtElements(reg.nodes, at, n);
    hide NoDup, InsertAt, MappedOk;
    if x != n { assert NodeOk(reg, x); }
  }

  lemma MapFacts(reg: Reg, mac: Mac)
    requires RegOk(reg) && mac in reg.macs
    ensures var n := reg.macs[mac]; n in reg.nodes && n in reg.recs && reg.recs[n].mac != NO_MAC && mac != NO_MAC
  {
    assert MappedOk(reg, mac);
  }

  lemma KnownNodes(reg: Reg)
    requires RegOk(reg)
    ensures forall n :: n in reg.nodes ==> n in reg.recs
  {}

  lemma EraseDupOk(reg: Reg, addr: Addr, n: Node)
    requires RegOk(reg) && n in reg.nodes && n in reg.recs && reg.recs[n].mac != NO_MAC
    ensures var reg' := EraseDup(reg, addr);
            RegOk(reg') && n in reg'.nodes && reg'.recs == reg.recs && reg'.macs == reg.macs
  {
    if ValidAddr(addr) { PurgeOk(reg, DuplicateAt(addr)); }
  }

  /** Forgetting nodes that have no MAC address never forgets a mapped one. */
  lemma PurgeOk(reg: Reg, gone: NodeRec -> bool)
    requires RegOk(reg)
    requires forall r :: gone(r) ==> r.mac == NO_MAC
    ensures RegOk(reg.(nodes := Without(reg.nodes, reg.recs, gone)))
  {
    WithoutNoDup(reg.nodes, reg.recs, gone);
  }

  /** A node that has its MAC address in the map may change in everything else. */
  lemma SameMacOk(reg: Reg, n: Node, r: NodeRec)
    requires RegOk(reg) && n in reg.recs && r.mac == reg.recs[n].mac
    ensures RegOk(reg.(recs := reg.recs[n := r]))
  {
    var reg' := reg.(recs := reg.recs[n := r]);
    forall m | m in reg'.macs ensures MappedOk(reg', m) { assert MappedOk(reg, m); }
  }

  /** A registered node takes a MAC address that is not in the map. */
  lemma NewMacOk(reg: Reg, n: Node, r: NodeRec)
    requires RegOk(reg) && n in reg.nodes && r.mac != NO_MAC && r.mac !in reg.macs
    ensures RegOk(reg.(recs := reg.recs[n := r], macs := reg.macs[r.mac := n]))
  {
    var reg' := reg.(recs := reg.recs[n := r], macs := reg.macs[r.mac := n]);
    forall m | m in reg'.macs
      ensures MappedOk(reg', m)
    {
      if m != r.mac { assert MappedOk(reg, m); }
    }
  }

  /** A packet's sender is registered under its address, whoever had the address of
      its port before. */
  lemma RegisterMacOk(reg: Reg, mac: Mac, addr: Addr, at: nat, born: Node?, elapsed: nat)
    requires RegOk(reg) && at <= |reg.nodes| && (MacNeedsNode(reg, mac, addr) ==> IsNew(reg, born))
    ensures var (reg', n) := RegisterMac(reg, mac, addr, at, born, elapsed);
            && RegOk(reg')
            && (n == null <==> mac == BROADCAST)
            && (n != null ==> n in reg'.nodes && reg'.recs[n].addr == addr)
            && (mac != NO_MAC && mac != BROADCAST ==> mac in reg'.macs && reg'.macs[mac] == n)
  {
    hide RegOk, EraseDup, AddNode;
    KnownNodes(reg);
    if mac == NO_MAC {
      AddNodeOk(reg, at, born, NewRec(addr, mac, 0, elapsed));
    } else if mac == BROADCAST {
    } else if mac !in reg.macs {
      var port := FindAddr(reg, addr);
      if port == null {
        AddNodeOk(reg, at, born, NewRec(addr, mac, 0, elapsed));
      } else {
        NewMacOk(reg, port, reg.recs[port].(mac := mac));
      }
    } else {
      MapFacts(reg, mac);
      var n := reg.macs[mac];
      var r := reg.recs[n];
      SameMacOk(reg, n, r.(addr := addr));
      SameMacOk(reg, n, r.(id := 0, addr := addr));
      EraseDupOk(reg.(recs := reg.recs[n := r.(addr := addr)]), addr, n);
    }
  }

  lemma RegisterIdOk(reg: Reg, mac: Mac, id: nat, addr: Addr, at: nat, born: Node?, elapsed: nat)
    requires RegOk(reg) && at <= |reg.nodes| && mac != NO_MAC && (IdNeedsNode(reg, mac, addr) ==> IsNew(reg, born))
    ensures var (reg', n) := RegisterId(reg, mac, id, addr, at, born, elapsed);
            && RegOk(reg') && n in reg'.nodes && reg'.recs[n].mac != NO_MAC
            && (id != 0 ==> SyncValid(reg'.recs[n]))
  {
    hide RegOk, AddNode;
    KnownNodes(reg);
    var found := if mac in reg.macs then reg.macs[mac] else FindAddr(reg, addr);
    if found == null {
      AddNodeOk(reg, at, born, NewRec(NULL_ADDR, mac, id, elapsed));
    } else {
      if mac in reg.macs { MapFacts(reg, mac); }
      var r := reg.recs[found];
      var r1 := if r.id == 0 then r.(id := id) else r;
      if r.mac == NO_MAC {
        NewMacOk(reg, found, r1.(mac := mac));
      } else {
        SameMacOk(reg, found, r1);
      }
    }
  }

  lemma StartNodesOk(reg: Reg, now: nat)
    requires RegOk(reg)
    ensures var reg' := StartNodes(reg, now);
            && RegOk(reg')
            && (forall n :: n in reg.nodes && SyncValid(reg.recs[n]) ==> n in reg'.nodes && reg'.recs[n].running)
            && (forall m :: m in reg.macs ==> reg.macs[m] in reg'.nodes)
  {
    WithoutNoDup(reg.nodes, reg.recs, ObsoleteAt(now));
    hide NoDup;
    var reg' := StartNodes(reg, now);
    forall m | m in reg'.macs ensures MappedOk(reg', m) { MapFacts(reg, m); }
  }

  /** A barrier forgets the ports that have never had a MAC address or an id and have been silent for
      more than 300 seconds, and no other node; it starts the synchronized ones and changes nothing
      else of what is known. */
  lemma PortsForgotten(reg: Reg, now: nat, n: Node)
    requires RegOk(reg) && n in reg.nodes
    ensures n in reg.recs
    ensures var reg' := StartNodes(reg, now); var r := reg.recs[n];
            && n in reg'.recs && reg'.recs[n] == r.(running := r.running || (r.mac != NO_MAC && r.id != 0))
            && (n in reg'.nodes <==>
                 r.mac != NO_MAC || r.id != 0
                 || now - (if r.realtime <= now then r.realtime else 0) <= 300_000_000)
  {
    hide NoDup, NodeOk, MappedOk;
  }

  // ----- what registration leaves alone -----

  /** Nothing changes but what is known of `n`; the only nodes that are forgotten are ports at
      the same address that never became nodes. */
  ghost predicate ChangesOnly(reg: Reg, reg': Reg, n: Node?, mac: Mac, addr: Addr) {
    && (forall x :: x in reg.recs && x != n ==> x in reg'.recs && reg'.recs[x] == reg.recs[x])
    && (forall x :: x in reg.nodes && x !in reg'.nodes ==> x in reg.recs && Duplicate(reg.recs[x], addr))
    && (forall x :: x in reg'.nodes ==> x in reg.nodes || x == n)
    && (forall m :: m in reg.macs && m != mac ==> m in reg'.macs && reg'.macs[m] == reg.macs[m])
    && (forall m :: m in reg'.macs ==> m in reg.macs || (m == mac && reg'.macs[m] == n))
  }

  lemma AddNodeChanges(reg: Reg, at: nat, n: Node, r: NodeRec, addr: Addr)
    requires RegOk(reg) && at <= |reg.nodes| && n !in reg.recs
    ensures ChangesOnly(reg, AddNode(reg, at, n, r), n, r.mac, addr)
    ensures forall x :: x in reg.nodes ==> x in AddNode(reg, at, n, r).nodes
  {
    InsertAtElements(reg.nodes, at, n);
  }

  lemma NothingChanges(reg: Reg, n: Node?, mac: Mac, addr: Addr)
    requires RegOk(reg)
    ensures ChangesOnly(reg, reg, n, mac, addr)
  {}

  lemma RecChanges(reg: Reg, n: Node, r: NodeRec, mac: Mac, addr: Addr)
    requires RegOk(reg)
    ensures ChangesOnly(reg, reg.(recs := reg.recs[n := r]), n, mac, addr)
    ensures ChangesOnly(reg, reg.(recs := reg.recs[n := r], macs := reg.macs[mac := n]), n, mac, addr)
  {}

  lemma EraseChanges(reg: Reg, n: Node, r: NodeRec, mac: Mac, addr: Addr)
    requires RegOk(reg) && n in reg.nodes && r.mac != NO_MAC
    ensures forall x :: x in reg.nodes ==> x in reg.recs[n := r]
    ensures ChangesOnly(reg, EraseDup(reg.(recs := reg.recs[n := r]), addr), n, mac, addr)
    ensures EraseDup(reg.(recs := reg.recs[n := r]), addr).recs == reg.recs[n := r]
  {
    KnownNodes(reg);
    hide RegOk;
  }

  predicate AddressesOnly(r: NodeRec, r': NodeRec) {
    r'.(mac := r.mac, addr := r.addr, id := r.id) == r
  }

  predicate Moved(r: NodeRec, addr: Addr) { ValidAddr(r.addr) && r.addr != addr }

  predicate Completed(r: NodeRec, r': NodeRec) {
    r'.(id := r.id, mac := r.mac) == r && (r.id != 0 ==> r'.id == r.id) && (r.mac != NO_MAC ==> r'.mac == r.mac)
  }

  /** Registering a sender changes its node alone, and of that the addresses alone, but for the
      id that is withdrawn when the MAC address was in use at another port. */
  lemma RegisterMacChanges(reg: Reg, mac: Mac, addr: Addr, at: nat, born: Node?, elapsed: nat)
    requires RegOk(reg) && at <= |reg.nodes| && (MacNeedsNode(reg, mac, addr) ==> IsNew(reg, born))
    ensures var (reg', n) := RegisterMac(reg, mac, addr, at, born, elapsed);
            && ChangesOnly(reg, reg', n, mac, addr)
            && (n != null && n in reg.recs ==> n in reg'.recs && AddressesOnly(reg.recs[n], reg'.recs[n]))
            && (n != null && n in reg.recs && n in reg'.recs ==>
                 reg'.recs[n].id == if mac in reg.macs && Moved(reg.recs[n], addr) then 0 else reg.recs[n].id)
  {
    hide ChangesOnly, FirstAt, EraseDup, AddNode;
    if mac == NO_MAC {
      AddNodeChanges(reg, at, born, NewRec(addr, mac, 0, elapsed), addr);
    } else if mac == BROADCAST {
      NothingChanges(reg, null, mac, addr);
    } else if mac !in reg.macs {
      var port := FindAddr(reg, addr);
      if port == null {
        AddNodeChanges(reg, at, born, NewRec(addr, mac, 0, elapsed), addr);
      } else {
        RecChanges(reg, port, reg.recs[port].(mac := mac), mac, addr);
      }
    } else {
      assert MappedOk(reg, mac);
      var n := reg.macs[mac];
      NothingChanges(reg, n, mac, addr);
      EraseChanges(reg, n, reg.recs[n].(addr := addr), mac, addr);
      RecChanges(reg, n, reg.recs[n].(id := 0, addr := addr), mac, addr);
    }
  }

  /** Registering by id fills in what the node lacks and changes nothing that it has. */
  lemma RegisterIdChanges(reg: Reg, mac: Mac, id: nat, addr: Addr, at: nat, born: Node?, elapsed: nat)
    requires RegOk(reg) && at <= |reg.nodes| && mac != NO_MAC && (IdNeedsNode(reg, mac, addr) ==> IsNew(reg, born))
    ensures var (reg', n) := RegisterId(reg, mac, id, addr, at, born, elapsed);
            && ChangesOnly(reg, reg', n, mac, addr) && (forall x :: x in reg.nodes ==> x in reg'.nodes)
            && (n in reg.recs ==> n in reg'.recs && Completed(reg.recs[n], reg'.recs[n]))
  {
    hide ChangesOnly, FirstAt, AddNode;
    var found := if mac in reg.macs then reg.macs[mac] else FindAddr(reg, addr);
    if found == null {
      AddNodeChanges(reg, at, born, NewRec(NULL_ADDR, mac, id, elapsed), addr);
    } else {
      if mac in reg.macs { assert MappedOk(reg, mac); }
      var r := reg.recs[found];
      var r1 := if r.id == 0 then r.(id := id) else r;
      RecChanges(reg, found, if r.mac == NO_MAC then r1.(mac := mac) else r1, mac, addr);
    }
  }

  /** No node is forgotten by the program's memory, and no reported time is lost. */
  ghost predicate KeepsTimes(a: map<Node, NodeRec>, b: map<Node, NodeRec>) {
    forall n :: n in a ==> n in b && b[n].simtime >= a[n].simtime
  }

  lemma RegisterMacKeepsTimes(reg: Reg, mac: Mac, addr: Addr, at: nat, born: Node?, elapsed: nat)
    requires RegOk(reg) && at <= |reg.nodes| && (MacNeedsNode(reg, mac, addr) ==> IsNew(reg, born))
    ensures KeepsTimes(reg.recs, RegisterMac(reg, mac, addr, at, born, elapsed).0.recs)
  {
    hide RegisterMac, RegOk;
    RegisterMacChanges(reg, mac, addr, at, born, elapsed);
  }

  lemma RegisterIdKeepsTimes(reg: Reg, mac: Mac, id: nat, addr: Addr, at: nat, born: Node?, elapsed: nat)
    requires RegOk(reg) && at <= |reg.nodes| && (IdNeedsNode(reg, mac, addr) ==> IsNew(reg, born))
    ensures KeepsTimes(reg.recs, RegisterId(reg, mac, id, addr, at, born, elapsed).0.recs)
  {}

  // ----- who is found, and what becomes of it -----

  /** `n` is the first registered node with the address `addr`. */
  ghost predicate FirstThere(reg: Reg, addr: Addr, n: Node)
    requires forall x :: x in reg.nodes ==> x in reg.recs
  {
    exists i :: 0 <= i < |reg.nodes| && reg.nodes[i] == n && reg.recs[n].addr == addr
                && forall j :: 0 <= j < i ==> reg.recs[reg.nodes[j]].addr != addr
  }

  /** No node can be found by this address. */
  ghost predicate NoneThere(reg: Reg, addr: Addr)
    requires forall x :: x in reg.nodes ==> x in reg.recs
  {
    !ValidAddr(addr) || forall n :: n in reg.nodes ==> reg.recs[n].addr != addr
  }

  lemma {:induction false} FirstAtIs(nodes: seq<Node>, recs: map<Node, NodeRec>, addr: Addr, i: nat)
    requires (forall x :: x in nodes ==> x in recs) && i < |nodes|
    requires recs[nodes[i]].addr == addr && forall j :: 0 <= j < i ==> recs[nodes[j]].addr != addr
    ensures FirstAt(nodes, recs, addr) == nodes[i]
  {
    if i > 0 {
      assert nodes[1..][i - 1] == nodes[i];
      FirstAtIs(nodes[1..], recs, addr, i - 1);
    }
  }

  lemma FoundIs(reg: Reg, addr: Addr)
    requires forall x :: x in reg.nodes ==> x in reg.recs
    ensures NoneThere(reg, addr) <==> FindAddr(reg, addr) == null
    ensures forall n :: ValidAddr(addr) && FirstThere(reg, addr, n) ==> FindAddr(reg, addr) == n
  {
    forall n | ValidAddr(addr) && FirstThere(reg, addr, n) ensures FindAddr(reg, addr) == n {
      var i :| 0 <= i < |reg.nodes| && reg.nodes[i] == n && reg.recs[n].addr == addr
               && forall j :: 0 <= j < i ==> reg.recs[reg.nodes[j]].addr != addr;
      FirstAtIs(reg.nodes, reg.recs, addr, i);
    }
  }

  /** One of the nodes at an address is the first. */
  lemma FirstOrNone(reg: Reg, addr: Addr)
    requires forall x :: x in reg.nodes ==> x in reg.recs
    ensures NoneThere(reg, addr) || exists n :: n in reg.nodes && FirstThere(reg, addr, n)
  {
    if k :| 0 <= k < |reg.nodes| && reg.recs[reg.nodes[k]].addr == addr {
      var i := 0;
      while reg.recs[reg.nodes[i]].addr != addr
        invariant 0 <= i <= k && forall j :: 0 <= j < i ==> reg.recs[reg.nodes[j]].addr != addr
        decreases k - i
      {
        i := i + 1;
      }
      assert FirstThere(reg, addr, reg.nodes[i]);
    }
  }

  /** A node as it is created: at rest, with nothing reported yet. */
  ghost predicate JustCreated(reg: Reg, reg': Reg, at: nat, n: Node?, addr: Addr, mac: Mac, id: nat, elapsed: nat)
    requires at <= |reg.nodes|
  {
    && n != null && n in reg'.recs && reg'.recs == reg.recs[n := reg'.recs[n]]
    && reg'.nodes == reg.nodes[..at] + [n] + reg.nodes[at..]
    && var r := reg'.recs[n];
       && r.addr == addr && r.mac == mac && r.id == id && !r.running && !r.warned
       && r.simtime == 0 && r.realtime == elapsed && r.seqno == 0
  }

  /** A new MAC address goes to the first port that is registered at the sender's address, and no
      node is created; only if there is none, or the address is no address, the sender is new. */
  lemma RegisterMacFinds(reg: Reg, mac: Mac, addr: Addr, at: nat, born: Node?, elapsed: nat)
    requires RegOk(reg) && at <= |reg.nodes| && (MacNeedsNode(reg, mac, addr) ==> IsNew(reg, born))
    requires mac != NO_MAC && mac != BROADCAST && mac !in reg.macs
    ensures var (reg', n) := RegisterMac(reg, mac, addr, at, born, elapsed);
            && reg'.macs == reg.macs[mac := n]
            && (forall x :: ValidAddr(addr) && FirstThere(reg, addr, x) ==>
                 n == x && reg'.nodes == reg.nodes && x in reg.recs
                 && reg'.recs == reg.recs[x := reg.recs[x].(mac := mac)])
            && (NoneThere(reg, addr) ==> n == born && JustCreated(reg, reg', at, born, addr, mac, 0, elapsed))
  {
    FoundIs(reg, addr);
    RegisterMacUnfold(reg, mac, addr, at, born, elapsed);
    hide RegOk, FindAddr, RegisterMac, FirstThere, NoneThere;
  }

  /** A sender without a MAC address is always a new port, and the broadcast address nobody's. */
  lemma RegisterMacSpecial(reg: Reg, mac: Mac, addr: Addr, at: nat, born: Node?, elapsed: nat)
    requires RegOk(reg) && at <= |reg.nodes| && (MacNeedsNode(reg, mac, addr) ==> IsNew(reg, born))
    ensures var (reg', n) := RegisterMac(reg, mac, addr, at, born, elapsed);
            && (mac == NO_MAC ==>
                 n == born && reg'.macs == reg.macs && JustCreated(reg, reg', at, born, addr, mac, 0, elapsed))
            && (mac == BROADCAST ==> reg' == reg && n == null)
  {
    RegisterMacUnfold(reg, mac, addr, at, born, elapsed);
    hide RegOk, FindAddr, RegisterMac;
  }

  /** A known sender: nothing changes at its own address; a node that had none yet gets it, and the
      ports that were registered there before it are forgotten, all of them; otherwise the node moves
      and loses its id, and nobody is forgotten. */
  lemma RegisterMacKnown(reg: Reg, mac: Mac, addr: Addr, at: nat, born: Node?, elapsed: nat)
    requires RegOk(reg) && at <= |reg.nodes| && (MacNeedsNode(reg, mac, addr) ==> IsNew(reg, born))
    requires mac in reg.macs && mac != BROADCAST
    ensures var (reg', n) := RegisterMac(reg, mac, addr, at, born, elapsed);
            n == reg.macs[mac] && n in reg.recs && reg'.macs == reg.macs &&
            var r := reg.recs[n];
            && (r.addr == addr ==> reg' == reg)
            && (r.addr != addr ==>
                 reg'.recs == reg.recs[n := r.(addr := addr, id := if ValidAddr(r.addr) then 0 else r.id)])
            && (r.addr == addr || ValidAddr(r.addr) || !ValidAddr(addr) ==> reg'.nodes == reg.nodes)
            && (r.addr != addr && !ValidAddr(r.addr) && ValidAddr(addr) ==>
                 forall x :: x in reg'.nodes <==>
                   x in reg.nodes && x in reg.recs
                   && !(reg.recs[x].addr == addr && reg.recs[x].mac == NO_MAC && reg.recs[x].id == 0))
  {
    RegisterMacUnfold(reg, mac, addr, at, born, elapsed);
    MapFacts(reg, mac);
    KnownNodes(reg);
    hide RegOk, FindAddr, RegisterMac, MacNeedsNode, IsNew;
  }

  /** A timing message is about the node that has the MAC address made from its id, else about the
      first node registered at its address; else about a new one, which gets no address. */
  lemma RegisterIdFinds(reg: Reg, mac: Mac, id: nat, addr: Addr, at: nat, born: Node?, elapsed: nat)
    requires RegOk(reg) && at <= |reg.nodes| && mac != NO_MAC && (IdNeedsNode(reg, mac, addr) ==> IsNew(reg, born))
    ensures var (reg', n) := RegisterId(reg, mac, id, addr, at, born, elapsed);
            && (mac in reg.macs ==> n == reg.macs[mac])
            && (forall x :: mac !in reg.macs && ValidAddr(addr) && FirstThere(reg, addr, x) ==> n == x)
            && (mac !in reg.macs && NoneThere(reg, addr) ==>
                 n == born && reg'.macs == reg.macs[mac := n]
                 && JustCreated(reg, reg', at, born, NULL_ADDR, mac, id, elapsed))
            && (mac in reg.macs || !NoneThere(reg, addr) ==>
                 reg'.nodes == reg.nodes && n in reg.recs &&
                 var r := reg.recs[n];
                 && reg'.recs == reg.recs[n := r.(id := if r.id == 0 then id else r.id,
                                                  mac := if r.mac == NO_MAC then mac else r.mac)]
                 && reg'.macs == if r.mac == NO_MAC then reg.macs[mac := n] else reg.macs)
  {
    FoundIs(reg, addr);
    RegisterIdUnfold(reg, mac, id, addr, at, born, elapsed);
    hide RegOk, FindAddr, RegisterId, FirstThere, NoneThere;
  }
}
