/** The switch of the mediator, src/network/switch.cpp, with the message handlers of
    src/network/control_packet_processor.cpp: its methods work on the nodes and the
    queue in place and do what the steps of module Mediator say. */
module Switches {
  import opened Seqs
  import opened Net
  import opened Nodes
  import opened Registry
  import opened Scheduler
  import opened Clock
  import opened Mediator
  import Protocol

  ghost function Recs(ns: set<Node>): (r: map<Node, NodeRec>)
    reads ns
    ensures r.Keys == ns
  {
    map n | n in ns :: n.Rec()
  }

  class Switch {
    const cfg: Config
    const scheduler: Scheduler
    var nodes: seq<Node>           // nodes_, in the order of iteration
    var macMap: map<Mac, Node>     // mac_map_
    var gt: nat
    var nextgt: nat
    var quantum: real
    var lastSync: nat
    var lastQtime: nat
    var lastQpacks: nat
    var packs: nat                 // Stats::n_packs_
    var syncStarted: bool
    ghost var known: set<Node>     // every node ever created

    function Now(): Time
      reads this
    {
      Time(gt, nextgt, quantum, lastSync, lastQtime, lastQpacks, packs, syncStarted)
    }

    ghost function View(): State
      reads this, scheduler, known
    {
      State(Reg(nodes, macMap, Recs(known)), scheduler.messages, Now())
    }

    ghost predicate Valid()
      reads this, scheduler, known
    {
      Inv(cfg, View())
    }

    constructor (cfg: Config)
      requires Legal(cfg)
      ensures Valid() && View() == Init(cfg) && fresh(scheduler) && fresh(known) && this.cfg == cfg
    {
      this.cfg := cfg;
      scheduler := new Scheduler();
      nodes, macMap, known := [], map[], {};
      gt, nextgt, quantum := 0, Floor(cfg.qmin), cfg.qmax;
      lastSync, lastQtime, lastQpacks, packs, syncStarted := 0, 0, 0, 0, false;
      InitTimeOk(cfg);
    }

    // ----- registration -----

    /** find_node by address. */
    method FindNode(addr: Addr) returns (node: Node?)
      requires forall n :: n in nodes ==> n in known
      ensures node == FindAddr(View().reg, addr)
    {
      if !ValidAddr(addr) {
        return null;
      }
      var i := 0;
      assert nodes[0..] == nodes;
      while i < |nodes|
        invariant 0 <= i <= |nodes|
        invariant FirstAt(nodes[i..], Recs(known), addr) == FindAddr(View().reg, addr)
      {
        if nodes[i].dataAddr == addr {
          return nodes[i];
        }
        assert nodes[i..][1..] == nodes[i + 1..];
        i := i + 1;
      }
      node := null;
    }

    /** The test in the loop of erase_dup_nodes. */
    method IsDuplicate(node: Node, addr: Addr, ghost recs: map<Node, NodeRec>) returns (duplicate: bool)
      requires node in known && node in recs && Recs(known) == recs
      ensures duplicate == DuplicateAt(addr)(recs[node])
    {
      duplicate := node.mac == NO_MAC && node.nodeid == 0 && node.dataAddr == addr;
    }

    /** erase_dup_nodes. */
    method EraseDupNodes(addr: Addr)
      requires forall n :: n in nodes ==> n in known
      modifies this`nodes
      ensures View() == old(View()).(reg := EraseDup(old(View().reg), addr))
    {
      if ValidAddr(addr) {
        EraseDuplicates(addr);
      }
    }

    /** The loop of erase_dup_nodes. */
    method EraseDuplicates(addr: Addr)
      requires forall n :: n in nodes ==> n in known
      modifies this`nodes
      ensures nodes == Without(old(nodes), Recs(known), DuplicateAt(addr))
    {
      hide Without, Recs, Erasing;
      var i := 0;
      ghost var k := 0;
      ghost var all, recs, gone := nodes, Recs(known), DuplicateAt(addr);
      ErasingStart(all, recs, gone);
      while i < |nodes|
        invariant i <= |nodes| && Recs(known) == recs
        invariant Erasing(nodes, i, all, k, recs, gone)
        decreases |nodes| - i
      {
        var node := nodes[i];
        ErasingNext(nodes, i, all, k, recs, gone);
        var duplicate := IsDuplicate(node, addr, recs);
        if duplicate {
          nodes := nodes[..i] + nodes[i + 1..];
        } else {
          i := i + 1;
        }
        k := k + 1;
      }
      ErasingEnd(nodes, all, k, recs, gone);
    }

    /** A node just created enters the set of nodes at `at`. */
    method AddNode(node: Node, at: nat)
      requires at <= |nodes| && node !in known
      modifies this`nodes, this`macMap, this`known
      ensures known == old(known) + {node}
      ensures View() == old(View()).(reg := Registry.AddNode(old(View().reg), at, node, node.Rec()))
    {
      RecsAdd(known, node);
      label L:
      nodes := InsertAt(nodes, at, node);
      if node.mac != NO_MAC {
        macMap := macMap[node.mac := node];
      }
      known := known + {node};
      SameRecs@L(known);
      hide Recs;
    }

    /** A registered node takes a MAC address. */
    method SetMac(n: Node, mac: Mac)
      requires n in known
      modifies n`mac, this`macMap
      ensures var s := old(View());
              View() == WithRec(s.(reg := s.reg.(macs := s.reg.macs[mac := n])), n, s.reg.recs[n].(mac := mac))
    {
      n.mac := mac;
      macMap := macMap[mac := n];
    }

    method SetAddr(n: Node, addr: Addr)
      requires n in known
      modifies n`dataAddr
      ensures View() == WithRec(old(View()), n, old(View()).reg.recs[n].(addr := addr))
    {
      n.dataAddr := addr;
    }

    method SetId(n: Node, id: nat)
      requires n in known
      modifies n`nodeid
      ensures View() == WithRec(old(View()), n, old(View()).reg.recs[n].(id := id))
    {
      n.nodeid := id;
    }

    /** What View says about one node. */
    lemma RecOf(n: Node)
      requires n in known
      ensures n in View().reg.recs && View().reg.recs[n] == n.Rec()
    {}

    /** register_node for a packet's sender. */
    method RegisterMac(mac: Mac, addr: Addr, at: nat, elapsed: nat) returns (node: Node?, ghost born: Node?)
      requires Valid() && at <= |nodes|
      modifies this, known
      ensures born == null || fresh(born)
      ensures known == old(known) + Born(born)
      ensures MacNeedsNode(old(View().reg), mac, addr) ==> born != null
      ensures var (reg, n) := Registry.RegisterMac(old(View().reg), mac, addr, at, born, elapsed);
              View() == old(View()).(reg := reg) && node == n
    {
      hide Recs, FindAddr, EraseDup, Inv, RegOk, Registry.RegisterMac, Registry.AddNode, Readdressed;
      ghost var reg := View().reg;
      KnownAll();
      born := null;
      if mac == NO_MAC {
        node := new Node(addr, mac, 0, elapsed);
        born := node;
        RegisterMacUnfold(reg, mac, addr, at, born, elapsed);
        AddNode(node, at);
        return;
      }
      if mac == BROADCAST {
        RegisterMacUnfold(reg, mac, addr, at, born, elapsed);
        return null, null;
      }
      if mac !in macMap {
        node := FindNode(addr);
        if node != null {
          RegisterMacUnfold(reg, mac, addr, at, born, elapsed);
          SetMac(node, mac);
          return;
        }
        node := new Node(addr, mac, 0, elapsed);
        born := node;
        RegisterMacUnfold(reg, mac, addr, at, born, elapsed);
        AddNode(node, at);
        return;
      }
      RegisterMacUnfold(reg, mac, addr, at, born, elapsed);
      node := macMap[mac];
      Readdress(node, addr);
    }

    /** The part of register_node for the sender of a packet that is known by its MAC address. */
    method Readdress(node: Node, addr: Addr)
      requires node in known && forall n :: n in nodes ==> n in known
      modifies this`nodes, node`nodeid, node`dataAddr
      ensures View() == old(View()).(reg := Readdressed(old(View().reg), node, addr))
    {
      hide Recs, EraseDup;
      RecOf(node);
      var oldaddr := node.dataAddr;
      if oldaddr == addr {
        return;
      }
      if !ValidAddr(oldaddr) {
        SetAddr(node, addr);
        EraseDupNodes(addr);
        return;
      }
      SetId(node, 0);
      SetAddr(node, addr);
    }

    lemma KnownAll()
      requires Valid()
      ensures forall n :: n in nodes ==> n in known
      ensures Sorted(scheduler.messages) && forall m :: m in scheduler.messages ==> m.node in known
      ensures lastQtime <= gt && lastQpacks <= packs && quantum >= 0.0
      ensures Legal(cfg) && RegOk(View().reg)
    {}

    lemma MappedKnown(mac: Mac)
      requires Valid() && mac in macMap
      ensures macMap[mac] in known
    {
      assert MappedOk(View().reg, mac);
    }

    /** register_node for a timing message; `mac` is constructed from the id. */
    method RegisterId(id: nat, addr: Addr, at: nat, elapsed: nat) returns (node: Node, ghost born: Node?)
      requires Valid() && at <= |nodes| && id < 0x1_0000
      modifies this, known
      ensures born == null || fresh(born)
      ensures known == old(known) + Born(born)
      ensures IdNeedsNode(old(View().reg), MacOf(cfg.macBase, id), addr) ==> born != null
      ensures var (reg, n) := Registry.RegisterId(old(View().reg), MacOf(cfg.macBase, id), id, addr, at, born, elapsed);
              View() == old(View()).(reg := reg) && node == n
    {
      hide Recs, FindAddr, MacOf, Inv, RegOk, Registry.RegisterId, Registry.AddNode, Identified;
      ghost var reg := View().reg;
      KnownAll();
      born := null;
      var mac := MacOf(cfg.macBase, id);
      var found: Node?;
      if mac in macMap {
        found := macMap[mac];
      } else {
        found := FindNode(addr);
      }
      if found != null {
        RegisterIdUnfold(reg, mac, id, addr, at, born, elapsed);
        Identify(found, mac, id);
        return found, null;
      }
      node := new Node(NULL_ADDR, mac, id, elapsed);
      born := node;
      RegisterIdUnfold(reg, mac, id, addr, at, born, elapsed);
      AddNode(node, at);
    }

    /** The part of register_node for a timing message of a known node. */
    method Identify(found: Node, mac: Mac, id: nat)
      requires found in known
      modifies this`macMap, found`nodeid, found`mac
      ensures View() == old(View()).(reg := Identified(old(View().reg), found, mac, id))
    {
      hide Recs;
      RecOf(found);
      if found.nodeid == 0 {
        SetId(found, id);
      }
      RecOf(found);
      if found.mac == NO_MAC {
        SetMac(found, mac);
      }
    }

    // ----- the barrier -----

    /** simtime_advance: the slowest synchronized node decides. */
    method SimtimeAdvance(ntime: nat) returns (advance: bool)
      requires Valid()
      modifies this`syncStarted
      ensures View() == Begun(old(View()))
      ensures advance == Reached(old(View()).reg, ntime, nextgt)
    {
      var t0: nat := if ntime != 0 then ntime else ULONG_MAX;
      ghost var start := t0;
      var i := 0;
      Whole(nodes);
      while i < |nodes|
        invariant 0 <= i <= |nodes|
        invariant Slowest(nodes[i..], Recs(known), t0) == Slowest(nodes, Recs(known), start)
      {
        var node := nodes[i];
        if node.nodeid != 0 && node.mac != NO_MAC {
          var t := node.simtime;
          t0 := if t < t0 then t else t0;
        }
        assert nodes[i..][1..] == nodes[i + 1..];
        i := i + 1;
      }
      if gt == 0 && !syncStarted {
        syncStarted := true;
      }
      advance := t0 >= nextgt;
    }

    /** compute_quantum. */
    method ComputeQuantum(nsent: nat, pqmax: nat)
      requires lastQtime <= gt && lastQpacks <= packs
      modifies this`quantum, this`lastQtime, this`lastQpacks
      ensures Now() ==
              old(Now()).(quantum := NewQuantum(cfg, old(Now()), nsent, pqmax), lastQtime := gt, lastQpacks := packs)
    {
      hide Scaled, PacketRate, Below, Above, Exactly;
      var qtime, qpacks := gt, packs;
      var duration := qtime - lastQtime;
      if nsent > 0 {
        quantum := cfg.qmin;
        lastQtime, lastQpacks := qtime, qpacks;
        return;
      }
      if cfg.qmin == cfg.qmax {
        quantum := cfg.qmax;
        lastQtime, lastQpacks := qtime, qpacks;
        return;
      }
      var qmax := if pqmax > 0 then pqmax as real else cfg.qmax;
      var packets := qpacks - lastQpacks;
      var q := PacketRate(duration, packets);
      var nq := quantum;
      if Below(q, quantum) || (Exactly(q, quantum) && packets > 0) {
        nq := Scaled(nq, cfg.qdown);
      } else if Above(q, quantum) {
        nq := Scaled(nq, cfg.qup);
      }
      if nq < cfg.qmin {
        nq := cfg.qmin;
      } else if nq > qmax {
        nq := qmax;
      }
      quantum := nq;
      lastQtime, lastQpacks := qtime, qpacks;
    }

    method SetRunning(n: Node, running: bool)
      requires n in known
      modifies n`running
      ensures View() == WithRec(old(View()), n, old(View()).reg.recs[n].(running := running))
      ensures Recs(known) == old(Recs(known))[n := old(Recs(known))[n].(running := running)]
    {
      n.running := running;
    }

    /** The body of the loop of start_nodes; `done` are the nodes it has been run for. */
    method StartUnlessObsolete(node: Node, elapsed: nat, ghost recs: map<Node, NodeRec>, ghost done: seq<Node>)
      returns (obsolete: bool)
      requires node in known && node in recs && Recs(known) == Started(recs, done)
      modifies node`running
      ensures obsolete == ObsoleteAt(elapsed)(recs[node]) && Recs(known) == Started(recs, done + [node])
    {
      StartedNext(recs, done, node);
      StartedAt(recs, done, node);
      RecOf(node);
      hide Started;
      obsolete := node.Obsolete(OBSOLETE_S, elapsed);
      if !obsolete && node.nodeid != 0 && node.mac != NO_MAC {
        SetRunning(node, true);
      }
    }

    /** start_nodes: obsolete ports are erased while the rest is started. */
    method StartNodes(elapsed: nat)
      requires forall n :: n in nodes ==> n in known
      modifies this`nodes, known`running
      ensures View() == old(View()).(reg := Registry.StartNodes(old(View().reg), elapsed))
    {
      hide Without, Started, Recs, Erasing;
      var i := 0;
      ghost var k := 0;
      ghost var all, recs, gone := nodes, Recs(known), ObsoleteAt(elapsed);
      ErasingStart(all, recs, gone);
      StartedNone(recs);
      while i < |nodes|
        invariant i <= |nodes| && k <= |all|
        invariant Erasing(nodes, i, all, k, recs, gone)
        invariant Recs(known) == Started(recs, all[..k])
        decreases |nodes| - i
      {
        var node := nodes[i];
        ErasingNext(nodes, i, all, k, recs, gone);
        var obsolete := StartUnlessObsolete(node, elapsed, recs, all[..k]);
        if obsolete {
          nodes := nodes[..i] + nodes[i + 1..];
        } else {
          i := i + 1;
        }
        k := k + 1;
      }
      ErasingEnd(nodes, all, k, recs, gone);
    }

    /** GT_advance. */
    method GTAdvance()
      requires quantum >= 0.0
      modifies this`gt, this`nextgt
      ensures Now() == old(Now()).(gt := old(nextgt), nextgt := old(nextgt) + Round(quantum))
    {
      gt := nextgt;
      nextgt := nextgt + Round(quantum);
    }

    /** send_sync; `sent` says whether the socket takes the message. */
    method SendSync(force: bool, sent: bool) returns (out: seq<Output>)
      modifies this`lastSync
      ensures (Now(), out) == Mediator.SendSync(old(Now()), force, sent)
    {
      if !force && lastSync > 0 && gt <= lastSync {
        return [];
      }
      out := [];
      if sent {
        out := [Announce(nextgt)];
        lastSync := gt;
      }
    }

    /** really_send of the messages that a barrier releases. */
    method ReallySend(sent: seq<Message>, barrier: nat) returns (out: seq<Output>)
      requires forall m :: m in sent ==> m.node in known
      ensures out == Releases(sent, Recs(known), barrier)
    {
      out := [];
      Whole(sent);
      for i := 0 to |sent|
        invariant out + Releases(sent[i..], Recs(known), barrier) == Releases(sent, Recs(known), barrier)
      {
        var m := sent[i];
        var o := Release(m, barrier, ValidAddr(m.node.dataAddr));
        assert sent[i..][0] == m && sent[i..][1..] == sent[i + 1..];
        Assoc(out, [o], Releases(sent[i + 1..], Recs(known), barrier));
        out := out + [o];
      }
      EmptyAppend(out);
    }

    /** The messages that are due at the barrier are sent. */
    method ReleaseDue() returns (nsent: nat, top: nat, out: seq<Output>)
      requires Sorted(scheduler.messages) && forall m :: m in scheduler.messages ==> m.node in known
      modifies scheduler
      ensures var q := old(View()).queue;
              && View() == old(View()).(queue := Later(q, nextgt))
              && nsent == |Due(q, nextgt)| && top == TopTime(Later(q, nextgt))
      ensures out == Releases(Due(old(scheduler.messages), nextgt), Recs(known), nextgt)
    {
      hide Due, Later, TopTime, Sorted, Recs, Releases;
      var sent;
      nsent, top, sent := scheduler.SendPackets(nextgt);
      out := ReallySend(sent, nextgt);
    }

    /** The new quantum, the restart of the nodes and the new time. */
    method CloseQuantum(nsent: nat, pqmax: nat, elapsed: nat)
      requires (forall n :: n in nodes ==> n in known) && lastQtime <= gt && lastQpacks <= packs
      requires NewQuantum(cfg, Now(), nsent, pqmax) >= 0.0
      modifies this, known
      ensures known == old(known)
      ensures var s := old(View());
              View() == State(Registry.StartNodes(s.reg, elapsed), s.queue,
                              Advance(s.time, NewQuantum(cfg, s.time, nsent, pqmax)))
    {
      hide NewQuantum, Registry.StartNodes, Round, Recs;
      ComputeQuantum(nsent, pqmax);
      StartNodes(elapsed);
      GTAdvance();
    }

    /** The next quantum is not negative. */
    lemma QuantumFits()
      requires Valid()
      ensures var s := View();
              var left := TopTime(Later(s.queue, nextgt));
              (left > 0 ==> left > gt)
              && NewQuantum(cfg, s.time, |Due(s.queue, nextgt)|, if left > 0 then left - gt else 0) >= 0.0
    {
      hide NewQuantum, Due, Later;
      var s := View();
      QuantumBounds(cfg, s.time, |Due(s.queue, nextgt)|, TopTime(Later(s.queue, nextgt)));
    }

    /** What sync_cluster does once the barrier is reached, up to the announcement. */
    method PassBarrier(elapsed: nat) returns (out: seq<Output>)
      requires Valid() && syncStarted
      modifies this, scheduler, known
      ensures known == old(known)
      ensures (View(), out) == AtBarrier(cfg, old(View()), elapsed)
    {
      hide NewQuantum, Due, Later, TopTime, Advance, Registry.StartNodes, Releases, Inv, Sorted, Recs;
      QuantumFits();
      KnownAll();
      var nsent, top;
      nsent, top, out := ReleaseDue();
      CloseQuantum(nsent, if top > 0 then top - gt else 0, elapsed);
    }

    /** sync_cluster. */
    method SyncCluster(ntime: nat, env: Reading) returns (out: seq<Output>)
      requires Valid()
      modifies this, scheduler, known
      ensures Valid() && known == old(known)
      ensures (View(), out) == Mediator.SyncCluster(cfg, old(View()), ntime, env)
    {
      hide AtBarrier, Recs;
      SyncClusterKeeps(cfg, View(), ntime, env);
      var advance := SimtimeAdvance(ntime);
      out := [];
      if advance {
        out := PassBarrier(env.elapsed);
        var announced := SendSync(false, env.syncSent);
        out := out + announced;
      }
    }

    /** setSimtime of a registered node. */
    method Record(n: Node, st: nat, sn: nat, elapsed: nat)
      requires n in known
      modifies n
      ensures View() == WithRec(old(View()), n, Reported(old(View()).reg.recs[n], st, sn, elapsed))
    {
      n.SetSimtime(st, sn, elapsed);
    }

    /** timeout. */
    method TimeOut(env: Reading) returns (out: seq<Output>)
      requires Valid()
      modifies this, scheduler, known
      ensures Valid() && known == old(known)
      ensures (View(), out) == Mediator.TimeOut(cfg, old(View()), env)
    {
      Protocol.TimeOutInv(cfg, View(), env);
      hide Inv, Mediator.SyncCluster;
      out := [];
      if gt > 0 {
        out := SyncCluster(gt, env);
      }
      var announced := SendSync(true, env.forcedSent);
      out := out + announced;
    }

    /** A node is told on; once is enough. */
    method Warn(n: Node)
      requires n in known
      modifies n`warned
      ensures View() == WithRec(old(View()), n, old(View()).reg.recs[n].(warned := true))
    {
      n.Warning();
    }

    /** heartbeat_node. */
    method HeartbeatNode(n: Node, env: Reading) returns (out: seq<Output>)
      requires Valid() && n in known
      modifies this, scheduler, known
      ensures Valid() && known == old(known)
      ensures (View(), out) == Mediator.HeartbeatNode(cfg, old(View()), n, env)
    {
      hide Inv, Mediator.SyncCluster, Recs, Mediator.HeartbeatNode;
      ghost var s := View();
      Protocol.HeartbeatInv(cfg, s, n, env);
      Protocol.HeartbeatUnfold(cfg, s, n, env);
      RecOf(n);
      out := [];
      if !ValidAddr(n.dataAddr) {
        Warn(n);
      }
      RecOf(n);
      if n.nodeid != 0 && n.mac != NO_MAC {
        SetRunning(n, true);
        RecOf(n);
        out := SyncCluster(n.simtime, env);
      }
    }

    /** stop_node. */
    method StopNode(n: Node, env: Reading) returns (out: seq<Output>)
      requires Valid() && n in known
      modifies this, scheduler, known
      ensures Valid() && known == old(known)
      ensures (View(), out) == Mediator.StopNode(cfg, old(View()), n, env)
    {
      hide Inv, Mediator.SyncCluster, Recs, Mediator.StopNode;
      ghost var s := View();
      Protocol.StopInv(cfg, s, n, env);
      Protocol.StopWarns(cfg, s, n, env);
      Protocol.StopUnfold(cfg, s, n, env);
      RecOf(n);
      out := [];
      if !ValidAddr(n.dataAddr) {
        Warn(n);
        out := SendSync(true, env.forcedSent);
      }
      RecOf(n);
      if n.nodeid != 0 && n.mac != NO_MAC {
        var released := SyncCluster(n.simtime, env);
        SetRunning(n, false);
        out := out + released;
      }
    }

    // ----- packets -----

    /** send: at once if the packet would arrive within the quantum, unless queueing is
        forced; otherwise through the queue. */
    method Send(n: Node, packet: Packet, delay: nat, stamp: nat) returns (o: Output)
      requires Valid() && n in known
      modifies scheduler
      ensures Valid()
      ensures var (queue, o') := Mediator.Send(cfg, old(View()), n, packet, delay, stamp);
              View() == old(View()).(queue := queue) && o == o'
    {
      hide Inv, Recs, Mediator.Send, Insert, Pending, Round;
      SendInv(cfg, View(), n, packet, delay, stamp);
      SendUnfold(cfg, View(), n, packet, delay, stamp);
      RecOf(n);
      KnownAll();
      if !syncStarted || (!cfg.forceQueue && delay <= Round(quantum)) {
        o := Forward(n, packet, ValidAddr(n.dataAddr));
      } else {
        var m := Message(packet, n, gt + delay, stamp);
        o := if Pending(scheduler.messages, m) then Lose(m) else Accept(m);
        scheduler.Schedule(packet, n, gt + delay, stamp);
      }
    }

    /** broadcast. */
    method Broadcast(packet: Packet, delay: nat -> nat, stamp: nat -> nat) returns (out: seq<Output>)
      requires Valid()
      modifies scheduler
      ensures Valid()
      ensures (View(), out) == Mediator.Broadcast(cfg, old(View()), 0, packet, delay, stamp)
    {
      ghost var whole := Mediator.Broadcast(cfg, View(), 0, packet, delay, stamp);
      out := [];
      EmptyAppend(whole.1);
      KnownAll();
      hide Inv, Mediator.Send;
      for i := 0 to |nodes|
        invariant Valid() && i <= |View().reg.nodes|
        invariant var (s, rest) := Mediator.Broadcast(cfg, View(), i, packet, delay, stamp);
                  whole == (s, out + rest)
      {
        ghost var s := View();
        BroadcastUnfold(cfg, s, i, packet, delay, stamp);
        var o := Send(nodes[i], packet, delay(i), stamp(i));
        Assoc(out, [o], Mediator.Broadcast(cfg, View(), i + 1, packet, delay, stamp).1);
        out := out + [o];
      }
      BroadcastEnd(cfg, View(), packet, delay, stamp);
      EmptyAppend(out);
    }

    /** process_packet; `at` and `elapsed` are for a node that may have to be created. */
    method ProcessPacket(packet: Packet, src: Mac, dst: Mac, from: Addr, slirp: bool, vde: bool, at: nat, elapsed: nat,
                         delay: nat -> nat, stamp: nat -> nat) returns (out: seq<Output>, ghost e: Event)
      requires Valid() && at <= |nodes|
      modifies this, scheduler, known
      ensures Valid() && EventOk(cfg, old(View()), e)
      ensures e ==
              Data(packet, src, dst, from, slirp, vde, Env(at, e.env.born, Reading(elapsed, false, false)), delay,
                   stamp)
      ensures known == old(known) + Born(e.env.born) && (e.env.born == null || fresh(e.env.born))
      ensures (View(), out) == Step(cfg, old(View()), e)
    {
      hide EventOk, Mediator.Admit, Mediator.Route, RegOk, TimeOk, Sorted, Step, Recs;
      ghost var s := View();
      var registered;
      registered, e := Admit(packet, src, dst, from, slirp, vde, at, elapsed, delay, stamp);
      ProcessUnfold(cfg, s, e);
      out := Route(packet, dst, registered, delay, stamp, e);
      CountInv(cfg, View());
      packs := packs + 1;
    }

    /** The part of process_packet that registers the sender. */
    method Admit(packet: Packet, src: Mac, dst: Mac, from: Addr, slirp: bool, vde: bool, at: nat, elapsed: nat,
                 ghost delay: nat -> nat, ghost stamp: nat -> nat) returns (registered: bool, ghost e: Event)
      requires Valid() && at <= |nodes|
      modifies this, scheduler, known
      ensures Valid() && EventOk(cfg, old(View()), e)
      ensures e ==
              Data(packet, src, dst, from, slirp, vde, Env(at, e.env.born, Reading(elapsed, false, false)), delay,
                   stamp)
      ensures known == old(known) + Born(e.env.born) && (e.env.born == null || fresh(e.env.born))
      ensures (View(), registered) == Mediator.Admit(cfg, old(View()), e)
    {
      ghost var s := View();
      ghost var born: Node? := null;
      var bcast := dst == BROADCAST;
      registered := true;
      hide Registry.RegisterMac;
      if !vde && !slirp {
        registered := false;
        if bcast || |packet| > 14 {
          var node;
          node, born := RegisterMac(src, from, at, elapsed);
          registered := node != null;
        }
      }
      e := Data(packet, src, dst, from, slirp, vde, Env(at, born, Reading(elapsed, false, false)), delay, stamp);
      AdmitInv(cfg, s, e);
    }

    /** The part of process_packet that passes the packet on. */
    method Route(packet: Packet, dst: Mac, registered: bool, delay: nat -> nat, stamp: nat -> nat, ghost e: Event)
      returns (out: seq<Output>)
      requires Valid()
      requires e.Data? && e.packet == packet && e.dst == dst && e.delay == delay && e.stamp == stamp
      modifies scheduler
      ensures Valid()
      ensures (View(), out) == Mediator.Route(cfg, old(View()), e, registered)
    {
      out := [];
      if dst == BROADCAST {
        out := Broadcast(packet, delay, stamp);
      } else if registered && dst in macMap {
        MappedKnown(dst);
        var o := Send(macMap[dst], packet, delay(0), stamp(0));
        out := [o];
      }
    }
  }

  /** One round of the heartbeat thread of src/network/mediator_server.cpp. */
  method Beat(switch: Switch, env: Reading) returns (out: seq<Output>)
    requires switch.Valid()
    modifies switch, switch.scheduler, switch.known
    ensures switch.Valid() && switch.known == old(switch.known)
    ensures (switch.View(), out) == Step(switch.cfg, old(switch.View()), Timer(Env(0, null, env)))
  {
    hide Inv, TimeOut;
    out := [];
    if switch.syncStarted {
      out := switch.TimeOut(env);
    }
  }

  // ----- control messages -----

  class ControlPacketProcessor {
    const switch: Switch

    constructor (switch: Switch)
      ensures this.switch == switch
    {
      this.switch := switch;
    }

    /** port_reply; `replied` says whether the reply could be sent. */
    method PortReply(from: Addr, replied: bool, at: nat, elapsed: nat) returns (ghost e: Event)
      requires switch.Valid() && at <= |switch.nodes|
      modifies switch, switch.scheduler, switch.known
      ensures switch.Valid() && EventOk(switch.cfg, old(switch.View()), e)
      ensures e == PortRequest(from, replied, Env(at, e.env.born, Reading(elapsed, false, false)))
      ensures switch.known == old(switch.known) + Born(e.env.born) && (e.env.born == null || fresh(e.env.born))
      ensures (switch.View(), []) == Step(switch.cfg, old(switch.View()), e)
    {
      ghost var s := switch.View();
      ghost var born: Node? := null;
      if replied {
        var node;
        node, born := switch.RegisterMac(NO_MAC, from, at, elapsed);
      }
      e := PortRequest(from, replied, Env(at, born, Reading(elapsed, false, false)));
      Protocol.StepInv(switch.cfg, s, e);
    }

    /** process_timing_message. */
    method ProcessTimingMessage(ghost kind: Kind, id: nat, tstamp: nat, seqno: nat, from: Addr, at: nat, env: Reading)
      returns (node: Node, ghost e: Event)
      requires switch.Valid() && at <= |switch.nodes| && id < 0x1_0000 && tstamp <= ULONG_MAX
      modifies switch, switch.scheduler, switch.known
      ensures switch.Valid() && node in switch.known && EventOk(switch.cfg, old(switch.View()), e)
      ensures e == Timing(kind, id, tstamp, seqno, from, Env(at, e.env.born, env))
      ensures switch.known == old(switch.known) + Born(e.env.born) && (e.env.born == null || fresh(e.env.born))
      ensures (switch.View(), node) == Report(switch.cfg, old(switch.View()), e)
    {
      hide Inv, EventOk, Registry.RegisterId, Report, IdNeedsNode, Recs, Reported, MacOf;
      ghost var s := switch.View();
      ghost var born;
      node, born := switch.RegisterId(id, from, at, env.elapsed);
      e := Timing(kind, id, tstamp, seqno, from, Env(at, born, env));
      TimingOk(switch.cfg, s, e);
      ReportInv(switch.cfg, s, e);
      ReportUnfold(switch.cfg, s, e);
      switch.Record(node, tstamp, seqno, env.elapsed);
    }

    /** The messages about time: a heartbeat or a start, a stop, and the question for it. */
    method Process(kind: Kind, id: nat, tstamp: nat, seqno: nat, from: Addr, at: nat, env: Reading)
      returns (out: seq<Output>, ghost e: Event)
      requires switch.Valid() && at <= |switch.nodes| && id < 0x1_0000 && tstamp <= ULONG_MAX
      modifies switch, switch.scheduler, switch.known
      ensures switch.Valid() && EventOk(switch.cfg, old(switch.View()), e)
      ensures e == Timing(kind, id, tstamp, seqno, from, Env(at, e.env.born, env))
      ensures switch.known == old(switch.known) + Born(e.env.born) && (e.env.born == null || fresh(e.env.born))
      ensures (switch.View(), out) == Step(switch.cfg, old(switch.View()), e)
    {
      hide Inv, HeartbeatNode, StopNode, TimeOut, Report, Step, EventOk, Recs;
      ghost var s := switch.View();
      var node;
      node, e := ProcessTimingMessage(kind, id, tstamp, seqno, from, at, env);
      TimingUnfold(switch.cfg, s, e);
      out := [];
      match kind {
        case Heartbeat => out := switch.HeartbeatNode(node, env);
        case Stop => out := switch.StopNode(node, env);
        case TimeQuery =>
          switch.RecOf(node);
          if node.nodeid != 0 && node.mac != NO_MAC {
            out := switch.TimeOut(env);
          }
      }
    }
  }

  ghost function Born(n: Node?): set<Node> {
    if n == null then {} else {n}
  }

  lemma RecsAdd(ns: set<Node>, n: Node)
    requires n !in ns
    ensures Recs(ns + {n}) == Recs(ns)[n := n.Rec()]
  {}

  twostate lemma SameRecs(ns: set<Node>)
    requires unchanged(ns)
    ensures Recs(ns) == old(Recs(ns))
  {}
}
