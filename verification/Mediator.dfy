/** The mediator as a state machine: every message, packet or time-out is one step.
    src/network/switch.cpp, src/network/control_packet_processor.cpp. */
module Mediator {
  import opened Net
  import opened Nodes
  import opened Registry
  import opened Scheduler
  import opened Clock

  datatype State = State(reg: Reg, queue: seq<Message>, time: Time)

  /** What a step shows to the outside: barriers announced to the nodes, packets put
      into the queue or lost there, packets released at a barrier and packets sent at
      once; `wired` says whether the destination had a port to send to. */
  datatype Output =
    | Announce(barrier: nat)
    | Accept(m: Message)
    | Lose(m: Message)
    | Release(m: Message, barrier: nat, wired: bool)
    | Forward(node: Node, packet: Packet, wired: bool)

  /** The real time and whether the socket takes an announcement at a barrier and one
      that is forced. */
  datatype Reading = Reading(elapsed: nat, syncSent: bool, forcedSent: bool)

  /** What the surroundings contribute to a step: besides, the memory of a new node and
      its place in the set of nodes. */
  datatype Env = Env(at: nat, born: Node?, now: Reading)

  datatype Kind = Heartbeat | Stop | TimeQuery

  /** `delay` and `stamp` give the latency of the timing model and the real time at
      the n-th packet that the step sends. */
  datatype Event =
    | PortRequest(from: Addr, replied: bool, env: Env)
    | Timing(kind: Kind, id: nat, tstamp: nat, seqno: nat, from: Addr, env: Env)
    | Timer(env: Env)
    | Data(packet: Packet, src: Mac, dst: Mac, from: Addr, slirp: bool, vde: bool, env: Env,
           delay: nat -> nat, stamp: nat -> nat)

  // ----- the barrier -----

  /** The least of `t0` and the times of the synchronized nodes. */
  function Slowest(nodes: seq<Node>, recs: map<Node, NodeRec>, t0: nat): nat
    requires forall n :: n in nodes ==> n in recs
  {
    if nodes == [] then t0
    else
      var r := recs[nodes[0]];
      Slowest(nodes[1..], recs, if SyncValid(r) && r.simtime < t0 then r.simtime else t0)
  }

  /** simtime_advance. */
  function Reached(reg: Reg, ntime: nat, barrier: nat): bool
    requires forall n :: n in reg.nodes ==> n in reg.recs
  {
    Slowest(reg.nodes, reg.recs, if ntime != 0 then ntime else ULONG_MAX) >= barrier
  }

  /** Every synchronized node has reported at least the time `t`. */
  predicate AllAt(reg: Reg, t: nat)
    requires forall n :: n in reg.nodes ==> n in reg.recs
  {
    forall n :: n in reg.nodes && SyncValid(reg.recs[n]) ==> reg.recs[n].simtime >= t
  }

  // ----- the steps -----

  /** send_sync. */
  function SendSync(t: Time, force: bool, sent: bool): (Time, seq<Output>) {
    if !force && t.lastSync > 0 && t.gt <= t.lastSync then (t, [])
    else if sent then (t.(lastSync := t.gt), [Announce(t.nextgt)])
    else (t, [])
  }

  /** really_send for every message of a barrier. */
  function Releases(due: seq<Message>, recs: map<Node, NodeRec>, barrier: nat): (r: seq<Output>)
    requires forall m :: m in due ==> m.node in recs
    ensures |r| == |due| && forall i :: 0 <= i < |r| ==>
              due[i].node in recs && r[i] == Release(due[i], barrier, DataValid(recs[due[i].node]))
  {
    if due == [] then []
    else [Release(due[0], barrier, DataValid(recs[due[0].node]))] + Releases(due[1..], recs, barrier)
  }

  ghost predicate Inv(c: Config, s: State) {
    && Legal(c) && RegOk(s.reg) && TimeOk(c, s.time) && Sorted(s.queue)
    && forall m :: m in s.queue ==> m.node in s.reg.recs && m.simtime >= s.time.gt
  }

  function Init(c: Config): (s: State)
    requires Legal(c)
    ensures Inv(c, s)
  {
    InitTimeOk(c);
    State(NO_NODES, [], InitTime(c))
  }

  /** The first call of simtime_advance starts the synchronization. */
  function Begun(s: State): State {
    if s.time.gt == 0 then s.(time := s.time.(started := true)) else s
  }

  /** The part of sync_cluster after simtime_advance, up to the announcement. */
  function AtBarrier(c: Config, s: State, elapsed: nat): (State, seq<Output>)
    requires Inv(c, s)
  {
    var t := s.time;
    var due, left := Due(s.queue, t.nextgt), Later(s.queue, t.nextgt);
    var top := TopTime(left);
    QuantumBounds(c, t, |due|, top);
    var quantum := NewQuantum(c, t, |due|, if top > 0 then top - t.gt else 0);
    (State(StartNodes(s.reg, elapsed), left, Advance(t, quantum)), Releases(due, s.reg.recs, t.nextgt))
  }

  /** sync_cluster, told of a node at `ntime`. */
  function SyncCluster(c: Config, s: State, ntime: nat, env: Reading): (State, seq<Output>)
    requires Inv(c, s)
  {
    var s0 := Begun(s);
    if !Reached(s.reg, ntime, s.time.nextgt) then (s0, [])
    else
      var (s1, o1) := AtBarrier(c, s0, env.elapsed);
      var (t', o2) := SendSync(s1.time, false, env.syncSent);
      (s1.(time := t'), o1 + o2)
  }

  function TimeOut(c: Config, s: State, env: Reading): (State, seq<Output>)
    requires Inv(c, s)
  {
    var (s1, o) := if s.time.gt > 0 then SyncCluster(c, s, s.time.gt, env) else (s, []);
    var (t', o') := SendSync(s1.time, true, env.forcedSent);
    (s1.(time := t'), o + o')
  }

  function WithRec(s: State, n: Node, r: NodeRec): State {
    s.(reg := s.reg.(recs := s.reg.recs[n := r]))
  }

  lemma WithSameRec(s: State, n: Node)
    requires n in s.reg.recs
    ensures WithRec(s, n, s.reg.recs[n]) == s
  {
    assert s.reg.recs[n := s.reg.recs[n]] == s.reg.recs;
  }

  lemma WithRecTwice(s: State, n: Node, r: NodeRec, r': NodeRec)
    ensures WithRec(WithRec(s, n, r), n, r') == WithRec(s, n, r')
  {
    assert s.reg.recs[n := r][n := r'] == s.reg.recs[n := r'];
  }

  /** heartbeat_node. */
  function HeartbeatNode(c: Config, s: State, n: Node, env: Reading): (State, seq<Output>)
    requires Inv(c, s) && n in s.reg.recs
    ensures Inv(c, WithRec(s, n, s.reg.recs[n]))
  {
    assert s.reg.recs[n := s.reg.recs[n]] == s.reg.recs;
    var r := s.reg.recs[n];
    var r1 := if DataValid(r) then r else r.(warned := true);
    if SyncValid(r) then
      SameMacInv(c, s, n, r1.(running := true));
      SyncCluster(c, WithRec(s, n, r1.(running := true)), r.simtime, env)
    else (WithRec(s, n, r1), [])
  }

  /** stop_node. */
  function StopNode(c: Config, s: State, n: Node, env: Reading): (State, seq<Output>)
    requires Inv(c, s) && n in s.reg.recs
  {
    var r := s.reg.recs[n];
    var (t1, o1) := if DataValid(r) then (s.time, []) else SendSync(s.time, true, env.forcedSent);
    var r1 := if DataValid(r) then r else r.(warned := true);
    var s1 := WithRec(s, n, r1).(time := t1);
    SameMacInv(c, s, n, r1);
    if SyncValid(r) then
      var (s2, o2) := SyncCluster(c, s1, r.simtime, env);
      SyncClusterKeeps(c, s1, r.simtime, env);
      (WithRec(s2, n, s2.reg.recs[n].(running := false)), o1 + o2)
    else (s1, o1)
  }

  lemma SameMacInv(c: Config, s: State, n: Node, r: NodeRec)
    requires Inv(c, s) && n in s.reg.recs && r.mac == s.reg.recs[n].mac
    ensures Inv(c, WithRec(s, n, r))
  {
    SameMacOk(s.reg, n, r);
  }

  lemma AtBarrierInv(c: Config, s: State, elapsed: nat)
    requires Inv(c, s) && s.time.started
    ensures Inv(c, AtBarrier(c, s, elapsed).0)
    ensures AtBarrier(c, s, elapsed).0.reg.recs.Keys == s.reg.recs.Keys
  {
    hide NewQuantum, Due, Later, TopTime, Registry.StartNodes, Releases, RegOk, Sorted, TimeOk;
    BarrierTimeOk(c, s);
    StartNodesOk(s.reg, elapsed);
    SplitSorted(s.queue, s.time.nextgt);
  }

  /** The clock after a barrier. */
  lemma BarrierTimeOk(c: Config, s: State)
    requires Inv(c, s) && s.time.started
    ensures var t, due, left := s.time, Due(s.queue, s.time.nextgt), Later(s.queue, s.time.nextgt);
            var top := TopTime(left);
            && (top > 0 ==> top > t.nextgt) && t.nextgt >= t.gt
            && NewQuantum(c, t, |due|, if top > 0 then top - t.gt else 0) >= 0.0
            && TimeOk(c, Advance(t, NewQuantum(c, t, |due|, if top > 0 then top - t.gt else 0)))
  {
    hide NewQuantum, Due, Later, RegOk, Sorted;
    var t, due, left := s.time, Due(s.queue, s.time.nextgt), Later(s.queue, s.time.nextgt);
    var top := TopTime(left);
    QuantumBounds(c, t, |due|, top);
    AdvanceOk(c, t, NewQuantum(c, t, |due|, if top > 0 then top - t.gt else 0));
  }

  lemma SyncClusterKeeps(c: Config, s: State, ntime: nat, env: Reading)
    requires Inv(c, s)
    ensures Inv(c, SyncCluster(c, s, ntime, env).0)
    ensures SyncCluster(c, s, ntime, env).0.reg.recs.Keys == s.reg.recs.Keys
  {
    var s0 := Begun(s);
    AtBarrierInv(c, s0, env.elapsed);
    hide Reached, AtBarrier;
    SendSyncKeeps(c, AtBarrier(c, s0, env.elapsed).0.time, false, env.syncSent);
  }

  lemma SendSyncKeeps(c: Config, t: Time, force: bool, sent: bool)
    requires TimeOk(c, t)
    ensures TimeOk(c, SendSync(t, force, sent).0)
    ensures SendSync(t, force, sent).0.(lastSync := t.lastSync) == t
  {}

  /** The part of a timing message that all its kinds share: the node is registered
      and its time recorded. */
  function Report(c: Config, s: State, e: Event): (State, Node)
    requires Inv(c, s) && e.Timing? && EventOk(c, s, e)
  {
    RegisterIdOk(s.reg, MacOf(c.macBase, e.id), e.id, e.from, e.env.at, e.env.born, e.env.now.elapsed);
    MacOfIsUsable(c.macBase, e.id, e.id);
    var (reg, n) := RegisterId(s.reg, MacOf(c.macBase, e.id), e.id, e.from, e.env.at, e.env.born, e.env.now.elapsed);
    (WithRec(s.(reg := reg), n, Reported(reg.recs[n], e.tstamp, e.seqno, e.env.now.elapsed)), n)
  }

  /** The world outside keeps to its part: new memory is new, numbers have their width. */
  ghost predicate EventOk(c: Config, s: State, e: Event)
    requires Inv(c, s)
  {
    && e.env.at <= |s.reg.nodes| && (NeedsNode(c, s, e) ==> IsNew(s.reg, e.env.born))
    && (e.Timing? ==> e.id < 0x1_0000 && e.tstamp <= ULONG_MAX)
  }

  predicate Registers(e: Event) {
    match e
    case PortRequest(_, replied, _) => replied
    case Timing(_, _, _, _, _, _) => true
    case Timer(_) => false
    case Data(packet, _, dst, _, slirp, vde, _, _, _) => !vde && !slirp && (dst == BROADCAST || |packet| > 14)
  }

  /** Whether the step creates a node. */
  ghost predicate NeedsNode(c: Config, s: State, e: Event)
    requires Inv(c, s)
  {
    Registers(e) &&
    match e
    case PortRequest(_, _, _) => true
    case Timing(_, id, _, _, from, _) => id < 0x1_0000 && IdNeedsNode(s.reg, MacOf(c.macBase, id), from)
    case Data(_, src, _, from, _, _, _, _, _) => MacNeedsNode(s.reg, src, from)
  }

  /** A packet for one node: at once, or later through the queue. */
  function Send(c: Config, s: State, n: Node, packet: Packet, delay: nat, stamp: nat): (seq<Message>, Output)
    requires Inv(c, s) && n in s.reg.recs
  {
    if !s.time.started || (!c.forceQueue && delay <= Round(s.time.quantum)) then
      (s.queue, Forward(n, packet, DataValid(s.reg.recs[n])))
    else
      var m := Message(packet, n, s.time.gt + delay, stamp);
      (Insert(s.queue, m), if Pending(s.queue, m) then Lose(m) else Accept(m))
  }

  lemma SendUnfold(c: Config, s: State, n: Node, packet: Packet, delay: nat, stamp: nat)
    requires Inv(c, s) && n in s.reg.recs
    ensures s.time.quantum >= 0.0
    ensures Send(c, s, n, packet, delay, stamp) ==
            if !s.time.started || (!c.forceQueue && delay <= Round(s.time.quantum)) then
              (s.queue, Forward(n, packet, DataValid(s.reg.recs[n])))
            else
              var m := Message(packet, n, s.time.gt + delay, stamp);
              (Insert(s.queue, m), if Pending(s.queue, m) then Lose(m) else Accept(m))
  {
    hide RegOk, Sorted, Round, Insert, Pending;
  }

  lemma SendInv(c: Config, s: State, n: Node, packet: Packet, delay: nat, stamp: nat)
    requires Inv(c, s) && n in s.reg.recs
    ensures Inv(c, s.(queue := Send(c, s, n, packet, delay, stamp).0))
  {
    InsertSorted(s.queue, Message(packet, n, s.time.gt + delay, stamp));
  }

  /** A packet for all nodes from the `k`-th on. */
  function Broadcast(c: Config, s: State, k: nat, packet: Packet, delay: nat -> nat, stamp: nat -> nat)
    : (r: (State, seq<Output>))
    requires Inv(c, s) && k <= |s.reg.nodes|
    ensures Inv(c, r.0) && r.0.reg == s.reg && r.0.time == s.time
    decreases |s.reg.nodes| - k
  {
    if k == |s.reg.nodes| then (s, [])
    else
      SendInv(c, s, s.reg.nodes[k], packet, delay(k), stamp(k));
      var (queue, o) := Send(c, s, s.reg.nodes[k], packet, delay(k), stamp(k));
      var (s', rest) := Broadcast(c, s.(queue := queue), k + 1, packet, delay, stamp);
      (s', [o] + rest)
  }

  lemma BroadcastUnfold(c: Config, s: State, k: nat, packet: Packet, delay: nat -> nat, stamp: nat -> nat)
    requires Inv(c, s) && k < |s.reg.nodes|
    ensures s.reg.nodes[k] in s.reg.recs
    ensures var (queue, o) := Send(c, s, s.reg.nodes[k], packet, delay(k), stamp(k));
            Inv(c, s.(queue := queue)) &&
            var (s', rest) := Broadcast(c, s.(queue := queue), k + 1, packet, delay, stamp);
            Broadcast(c, s, k, packet, delay, stamp) == (s', [o] + rest)
  {
    SendInv(c, s, s.reg.nodes[k], packet, delay(k), stamp(k));
  }

  lemma BroadcastEnd(c: Config, s: State, packet: Packet, delay: nat -> nat, stamp: nat -> nat)
    requires Inv(c, s)
    ensures Broadcast(c, s, |s.reg.nodes|, packet, delay, stamp) == (s, [])
  {}

  /** The sender of a packet is registered unless it is one of the gateways or the
      packet is empty. */
  function Admit(c: Config, s: State, e: Event): (State, bool)
    requires Inv(c, s) && e.Data? && EventOk(c, s, e)
  {
    if e.vde || e.slirp then (s, true)
    else if Registers(e) then
      var (reg, n) := RegisterMac(s.reg, e.src, e.from, e.env.at, e.env.born, e.env.now.elapsed);
      (s.(reg := reg), n != null)
    else (s, false)
  }

  lemma AdmitInv(c: Config, s: State, e: Event)
    requires Inv(c, s) && e.Data? && EventOk(c, s, e)
    ensures Inv(c, Admit(c, s, e).0)
  {
    if Registers(e) {
      RegisterMacOk(s.reg, e.src, e.from, e.env.at, e.env.born, e.env.now.elapsed);
      RegisterMacKeepsTimes(s.reg, e.src, e.from, e.env.at, e.env.born, e.env.now.elapsed);
    }
    hide RegisterMac, RegOk;
  }

  /** A packet goes to all nodes or to the owner of its destination address. */
  function Route(c: Config, s: State, e: Event, registered: bool): (State, seq<Output>)
    requires Inv(c, s) && e.Data?
  {
    if e.dst == BROADCAST then Broadcast(c, s, 0, e.packet, e.delay, e.stamp)
    else if registered && e.dst in s.reg.macs then
      assert MappedOk(s.reg, e.dst);
      var (queue, o) := Send(c, s, s.reg.macs[e.dst], e.packet, e.delay(0), e.stamp(0));
      (s.(queue := queue), [o])
    else (s, [])
  }

  /** process_packet. */
  function ProcessPacket(c: Config, s: State, e: Event): (State, seq<Output>)
    requires Inv(c, s) && e.Data? && EventOk(c, s, e)
  {
    AdmitInv(c, s, e);
    var (s1, registered) := Admit(c, s, e);
    var (s2, o) := Route(c, s1, e, registered);
    (Counted(s2), o)
  }

  function Counted(s: State): State {
    s.(time := s.time.(packs := s.time.packs + 1))
  }

  lemma CountInv(c: Config, s: State)
    requires Inv(c, s)
    ensures Inv(c, Counted(s))
  {}

  function Step(c: Config, s: State, e: Event): (State, seq<Output>)
    requires Inv(c, s) && EventOk(c, s, e)
  {
    match e
    case PortRequest(from, replied, env) =>
      if replied then (s.(reg := RegisterMac(s.reg, NO_MAC, from, env.at, env.born, env.now.elapsed).0), [])
      else (s, [])
    case Timing(kind, _, _, _, _, env) =>
      var (s1, n) := Report(c, s, e);
      ReportInv(c, s, e);
      (match kind
       case Heartbeat => HeartbeatNode(c, s1, n, env.now)
       case Stop => StopNode(c, s1, n, env.now)
       case TimeQuery => if SyncValid(s1.reg.recs[n]) then TimeOut(c, s1, env.now) else (s1, []))
    case Timer(env) => if s.time.started then TimeOut(c, s, env.now) else (s, [])
    case Data(_, _, _, _, _, _, _, _, _) => ProcessPacket(c, s, e)
  }

  lemma ReportInv(c: Config, s: State, e: Event)
    requires Inv(c, s) && e.Timing? && EventOk(c, s, e)
    ensures var (s1, n) := Report(c, s, e);
            && Inv(c, s1) && n in s1.reg.nodes && s1.reg.recs[n].mac != NO_MAC
            && s1.time == s.time && s1.queue == s.queue
  {
    MacOfIsUsable(c.macBase, e.id, e.id);
    RegisterIdOk(s.reg, MacOf(c.macBase, e.id), e.id, e.from, e.env.at, e.env.born, e.env.now.elapsed);
    var (reg, n) := RegisterId(s.reg, MacOf(c.macBase, e.id), e.id, e.from, e.env.at, e.env.born, e.env.now.elapsed);
    SameMacInv(c, s.(reg := reg), n, Reported(reg.recs[n], e.tstamp, e.seqno, e.env.now.elapsed));
  }

  lemma TimingOk(c: Config, s: State, e: Event)
    requires Inv(c, s) && e.Timing? && e.id < 0x1_0000 && e.tstamp <= ULONG_MAX && e.env.at <= |s.reg.nodes|
    requires IdNeedsNode(s.reg, MacOf(c.macBase, e.id), e.from) ==> IsNew(s.reg, e.env.born)
    ensures EventOk(c, s, e)
  {
    hide RegOk, TimeOk, Sorted, IdNeedsNode, MacOf;
  }

  lemma ReportUnfold(c: Config, s: State, e: Event)
    requires Inv(c, s) && e.Timing? && EventOk(c, s, e)
    ensures RegOk(s.reg) && (IdNeedsNode(s.reg, MacOf(c.macBase, e.id), e.from) ==> IsNew(s.reg, e.env.born))
    ensures var (reg, n) :=
            RegisterId(s.reg, MacOf(c.macBase, e.id), e.id, e.from, e.env.at, e.env.born, e.env.now.elapsed);
            n in reg.recs &&
            Report(c, s, e) ==
              (WithRec(s.(reg := reg), n, Reported(reg.recs[n], e.tstamp, e.seqno, e.env.now.elapsed)), n)
  {
    MacOfIsUsable(c.macBase, e.id, e.id);
    RegisterIdOk(s.reg, MacOf(c.macBase, e.id), e.id, e.from, e.env.at, e.env.born, e.env.now.elapsed);
    hide RegOk, TimeOk, Sorted, RegisterId, IdNeedsNode, MacOf, Reported;
  }

  lemma TimingUnfold(c: Config, s: State, e: Event)
    requires Inv(c, s) && e.Timing? && EventOk(c, s, e)
    ensures var (s1, n) := Report(c, s, e);
            && Inv(c, s1) && n in s1.reg.recs
            && Step(c, s, e) ==
               match e.kind
               case Heartbeat => HeartbeatNode(c, s1, n, e.env.now)
               case Stop => StopNode(c, s1, n, e.env.now)
               case TimeQuery => if SyncValid(s1.reg.recs[n]) then TimeOut(c, s1, e.env.now) else (s1, [])
  {
    ReportInv(c, s, e);
    hide Report, Sorted, TimeOk, HeartbeatNode, StopNode, TimeOut;
  }

  lemma ProcessUnfold(c: Config, s: State, e: Event)
    requires Inv(c, s) && e.Data? && EventOk(c, s, e)
    ensures var (s1, registered) := Admit(c, s, e);
            Inv(c, s1) &&
            var (s2, o) := Route(c, s1, e, registered);
            Step(c, s, e) == (Counted(s2), o)
  {
    AdmitInv(c, s, e);
  }
}
