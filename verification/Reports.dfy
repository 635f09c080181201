/** What is recorded of the nodes: time reports and registrations, step by step and over runs,
    in terms of the state before and the event alone. */
module Reports {
  import opened Seqs
  import opened Net
  import opened Nodes
  import opened Registry
  import opened Scheduler
  import opened Clock
  import opened Mediator
  import opened Protocol

  // ----- time reports -----

  /** The node that a timing message is about: the one with the MAC address made from its id, else
      the first one registered at the sender's address, else a new one. */
  ghost predicate Reporter(c: Config, s: State, e: Event, n: Node)
    requires Inv(c, s) && EventOk(c, s, e) && e.Timing?
  {
    var mac := MacOf(c.macBase, e.id);
    if mac in s.reg.macs then n == s.reg.macs[mac]
    else if !NoneThere(s.reg, e.from) then FirstThere(s.reg, e.from, n)
    else n == e.env.born
  }

  lemma SomeReporter(c: Config, s: State, e: Event)
    requires Inv(c, s) && EventOk(c, s, e) && e.Timing?
    ensures exists n :: Reporter(c, s, e, n)
  {
    FirstOrNone(s.reg, e.from);
    hide FirstThere, NoneThere, RegOk;
    FoundIs(s.reg, e.from);
    if MacOf(c.macBase, e.id) in s.reg.macs {
      assert Reporter(c, s, e, s.reg.macs[MacOf(c.macBase, e.id)]);
    } else if NoneThere(s.reg, e.from) {
      assert Reporter(c, s, e, e.env.born);
    } else {
      var n :| n in s.reg.nodes && FirstThere(s.reg, e.from, n);
      assert Reporter(c, s, e, n);
    }
  }

  /** What was known of `n`, 0 if nothing. */
  function TimeOf(recs: map<Node, NodeRec>, n: Node): nat { if n in recs then recs[n].simtime else 0 }

  function IdOf(recs: map<Node, NodeRec>, n: Node): nat { if n in recs then recs[n].id else 0 }

  function AddrOf(recs: map<Node, NodeRec>, n: Node): Addr { if n in recs then recs[n].addr else NULL_ADDR }

  predicate Runs(recs: map<Node, NodeRec>, n: Node) { n in recs && recs[n].running }

  predicate HasBeenWarned(recs: map<Node, NodeRec>, n: Node) { n in recs && recs[n].warned }

  /** Nothing changes of what is known of the nodes but whether they run and have been warned. */
  ghost predicate SameButRunning(a: map<Node, NodeRec>, b: map<Node, NodeRec>) {
    forall n :: n in a ==> n in b && b[n].(running := a[n].running, warned := a[n].warned) == a[n]
  }

  lemma SyncClusterSame(c: Config, s: State, ntime: nat, env: Reading)
    requires Inv(c, s)
    ensures SameButRunning(s.reg.recs, SyncCluster(c, s, ntime, env).0.reg.recs)
  {
    hide AtBarrier, Reached, SendSync, Inv;
    ClusterUnfold(c, s, ntime, env);
    AtBarrierSame(c, Begun(s), env.elapsed);
  }

  lemma AtBarrierSame(c: Config, s: State, elapsed: nat)
    requires Inv(c, s)
    ensures SameButRunning(s.reg.recs, AtBarrier(c, s, elapsed).0.reg.recs)
  {
    hide NewQuantum, Due, Later, Releases, RegOk, Sorted, TimeOk, Advance, TopTime, Without;
  }

  lemma TimeOutSame(c: Config, s: State, env: Reading)
    requires Inv(c, s)
    ensures SameButRunning(s.reg.recs, TimeOut(c, s, env).0.reg.recs)
  {
    hide SyncCluster, SendSync, Inv;
    TimeOutUnfold(c, s, env);
    SyncClusterSame(c, s, s.time.gt, env);
  }

  lemma HeartbeatSame(c: Config, s: State, n: Node, env: Reading)
    requires Inv(c, s) && n in s.reg.recs
    ensures SameButRunning(s.reg.recs, HeartbeatNode(c, s, n, env).0.reg.recs)
  {
    hide SyncCluster, HeartbeatNode, Inv;
    HeartbeatUnfold(c, s, n, env);
    var r := s.reg.recs[n];
    var s1 := if DataValid(r) then s else WithRec(s, n, r.(warned := true));
    SyncClusterSame(c, WithRec(s1, n, s1.reg.recs[n].(running := true)), r.simtime, env);
  }

  lemma StopSame(c: Config, s: State, n: Node, env: Reading)
    requires Inv(c, s) && n in s.reg.recs
    ensures SameButRunning(s.reg.recs, StopNode(c, s, n, env).0.reg.recs)
  {
    hide SyncCluster, StopNode, Inv, Stays, SameTimes;
    StopWarns(c, s, n, env);
    StopUnfold(c, s, n, env);
    SyncClusterSame(c, Warned(s, n, env).0, s.reg.recs[n].simtime, env);
  }

  /** What registering the reporter makes of the nodes. */
  lemma ReporterRegistered(c: Config, s: State, e: Event, n: Node)
    requires Inv(c, s) && EventOk(c, s, e) && e.Timing? && Reporter(c, s, e, n)
    ensures RegOk(s.reg) && (IdNeedsNode(s.reg, MacOf(c.macBase, e.id), e.from) ==> IsNew(s.reg, e.env.born))
    ensures var (reg, n') :=
            RegisterId(s.reg, MacOf(c.macBase, e.id), e.id, e.from, e.env.at, e.env.born, e.env.now.elapsed);
            && n' == n && n in reg.recs
            && (forall x :: x in s.reg.recs && x != n ==> x in reg.recs && reg.recs[x] == s.reg.recs[x])
            && (forall x :: x in reg.nodes <==> x in s.reg.nodes || x == n)
            && (n in s.reg.recs ==> n in s.reg.nodes)
            && reg.recs[n].simtime == TimeOf(s.reg.recs, n) && reg.recs[n].mac != NO_MAC
            && reg.recs[n].addr == AddrOf(s.reg.recs, n)
            && reg.recs[n].running == Runs(s.reg.recs, n) && reg.recs[n].warned == HasBeenWarned(s.reg.recs, n)
            && reg.recs[n].id == if IdOf(s.reg.recs, n) == 0 then e.id else IdOf(s.reg.recs, n)
  {
    hide MacOf, NoneThere, FirstThere, RegisterId, Report, Sorted, TimeOk;
    var mac := MacOf(c.macBase, e.id);
    MacOfIsUsable(c.macBase, e.id, e.id);
    FoundIs(s.reg, e.from);
    RegisterIdFinds(s.reg, mac, e.id, e.from, e.env.at, e.env.born, e.env.now.elapsed);
    if mac in s.reg.macs { MapFacts(s.reg, mac); }
  }

  /** What the recording itself does, for the one node and for all others. */
  lemma ReportIs(c: Config, s: State, e: Event, n: Node)
    requires Inv(c, s) && EventOk(c, s, e) && e.Timing? && Reporter(c, s, e, n)
    ensures var (s1, n') := Report(c, s, e);
            && n' == n && n in s1.reg.recs && s1.time == s.time && s1.queue == s.queue
            && (forall x :: x in s.reg.recs && x != n ==> x in s1.reg.recs && s1.reg.recs[x] == s.reg.recs[x])
            && (forall x :: x in s1.reg.nodes <==> x in s.reg.nodes || x == n)
            && (n in s.reg.recs ==> n in s.reg.nodes)
            && var r := s1.reg.recs[n];
               && r.simtime == (if e.tstamp > TimeOf(s.reg.recs, n) then e.tstamp else TimeOf(s.reg.recs, n))
               && r.realtime == e.env.now.elapsed && r.seqno == e.seqno
               && r.id == (if IdOf(s.reg.recs, n) == 0 then e.id else IdOf(s.reg.recs, n)) && r.mac != NO_MAC
               && r.addr == AddrOf(s.reg.recs, n)
               && r.running == Runs(s.reg.recs, n) && r.warned == HasBeenWarned(s.reg.recs, n)
  {
    hide MacOf, Reporter, RegisterId, Report, RegOk, Sorted, TimeOk, IdNeedsNode, IdOf, TimeOf, AddrOf, Runs,
         HasBeenWarned;
    ReportUnfold(c, s, e);
    ReporterRegistered(c, s, e, n);
  }

  lemma HeardSame(c: Config, s: State, e: Event)
    requires Inv(c, s) && EventOk(c, s, e) && e.Timing?
    ensures SameButRunning(Report(c, s, e).0.reg.recs, Step(c, s, e).0.reg.recs)
  {
    hide Report, Step, HeartbeatNode, StopNode, TimeOut, RegOk, Sorted, TimeOk;
    TimingUnfold(c, s, e);
    var (s1, n) := Report(c, s, e);
    match e.kind {
      case Heartbeat => HeartbeatSame(c, s1, n, e.env.now);
      case Stop => StopSame(c, s1, n, e.env.now);
      case TimeQuery => TimeOutSame(c, s1, e.env.now);
    }
  }

  /** A time report is recorded: the time of its node becomes the reported one unless that is older,
      with the number of the message and the real time of its arrival, and an id that was missing is
      filled in.  Nothing is recorded of any other node. */
  lemma ReportRecorded(c: Config, s: State, e: Event, n: Node)
    requires Inv(c, s) && EventOk(c, s, e) && e.Timing? && Reporter(c, s, e, n)
    ensures var s' := Step(c, s, e).0;
            && n in s'.reg.recs
            && var r := s'.reg.recs[n];
               && r.simtime == (if e.tstamp > TimeOf(s.reg.recs, n) then e.tstamp else TimeOf(s.reg.recs, n))
               && r.realtime == e.env.now.elapsed && r.seqno == e.seqno
               && r.id == (if IdOf(s.reg.recs, n) == 0 then e.id else IdOf(s.reg.recs, n)) && r.mac != NO_MAC
               && r.addr == AddrOf(s.reg.recs, n)
    ensures forall x :: x in s.reg.recs && x != n ==>
              x in Step(c, s, e).0.reg.recs
              && Step(c, s, e).0.reg.recs[x].(running := s.reg.recs[x].running, warned := s.reg.recs[x].warned) ==
                 s.reg.recs[x]
  {
    hide Report, Reporter, Step, IdOf, TimeOf, AddrOf, Runs, HasBeenWarned, Inv;
    ReportIs(c, s, e, n);
    HeardSame(c, s, e);
  }

  /** No other event changes what a node has reported. */
  lemma NothingReported(c: Config, s: State, e: Event, n: Node)
    requires Inv(c, s) && EventOk(c, s, e) && !e.Timing? && n in s.reg.recs
    ensures var s' := Step(c, s, e).0;
            && n in s'.reg.recs
            && var (r, r') := (s.reg.recs[n], s'.reg.recs[n]);
               r'.simtime == r.simtime && r'.realtime == r.realtime && r'.seqno == r.seqno
  {
    match e
    case PortRequest(from, replied, env) =>
      if replied { SenderKeepsReports(s.reg, NO_MAC, from, env.at, env.born, env.now.elapsed, n); }
    case Timer(env) =>
      hide TimeOut, RegOk, TimeOk, Sorted;
      TimeOutSame(c, s, env.now);
    case Data(_, src, _, from, _, _, env, _, _) => PacketKeepsReports(c, s, e, n);
  }

  lemma SenderKeepsReports(reg: Reg, mac: Mac, addr: Addr, at: nat, born: Node?, elapsed: nat, n: Node)
    requires RegOk(reg) && at <= |reg.nodes| && (MacNeedsNode(reg, mac, addr) ==> IsNew(reg, born)) && n in reg.recs
    ensures var reg' := RegisterMac(reg, mac, addr, at, born, elapsed).0;
            && n in reg'.recs
            && var (r, r') := (reg.recs[n], reg'.recs[n]);
               r'.simtime == r.simtime && r'.realtime == r.realtime && r'.seqno == r.seqno
  {
    hide RegisterMac, RegOk, MacNeedsNode, IsNew;
    RegisterMacChanges(reg, mac, addr, at, born, elapsed);
  }

  lemma PacketKeepsReports(c: Config, s: State, e: Event, n: Node)
    requires Inv(c, s) && EventOk(c, s, e) && e.Data? && n in s.reg.recs
    ensures var s' := Step(c, s, e).0;
            && n in s'.reg.recs
            && var (r, r') := (s.reg.recs[n], s'.reg.recs[n]);
               r'.simtime == r.simtime && r'.realtime == r.realtime && r'.seqno == r.seqno
  {
    hide Step, Route, RegOk, TimeOk, Sorted, RegisterMac, MacNeedsNode, IsNew;
    ProcessUnfold(c, s, e);
    RouteReaches(c, Admit(c, s, e).0, e, Admit(c, s, e).1);
    if Registers(e) && !e.vde && !e.slirp {
      SenderKeepsReports(s.reg, e.src, e.from, e.env.at, e.env.born, e.env.now.elapsed, n);
    }
  }

  /** What the time of `n` is to be after a run: the latest of what it was and all its reports. */
  ghost function Latest(c: Config, s: State, es: seq<Event>, n: Node, t: nat): nat
    requires Inv(c, s) && Possible(c, s, es)
    decreases |es|
  {
    if es == [] then t
    else
      StepInv(c, s, es[0]);
      var e := es[0];
      Latest(c, Step(c, s, e).0, es[1..], n, if e.Timing? && Reporter(c, s, e, n) && e.tstamp > t then e.tstamp else t)
  }

  /** Over every run a node's time is the latest that it has reported. */
  lemma {:induction false} LatestReport(c: Config, s: State, es: seq<Event>, n: Node)
    requires Inv(c, s) && Possible(c, s, es) && n in s.reg.recs
    ensures var s' := Run(c, s, es).0;
            n in s'.reg.recs && s'.reg.recs[n].simtime == Latest(c, s, es, n, s.reg.recs[n].simtime)
    decreases |es|
  {
    hide Step, Inv, Reporter;
    if es != [] {
      StepInv(c, s, es[0]);
      TimeAfter(c, s, es[0], n);
      var s1 := Step(c, s, es[0]).0;
      LatestReport(c, s1, es[1..], n);
      assert Run(c, s, es).0 == Run(c, s1, es[1..]).0;
      assert Latest(c, s, es, n, s.reg.recs[n].simtime) == Latest(c, s1, es[1..], n, s1.reg.recs[n].simtime);
    }
  }

  lemma TimeAfter(c: Config, s: State, e: Event, n: Node)
    requires Inv(c, s) && EventOk(c, s, e) && n in s.reg.recs
    ensures var s' := Step(c, s, e).0; var t := s.reg.recs[n].simtime;
            && n in s'.reg.recs
            && s'.reg.recs[n].simtime == if e.Timing? && Reporter(c, s, e, n) && e.tstamp > t then e.tstamp else t
  {
    hide Step, Inv, Reporter;
    if e.Timing? && Reporter(c, s, e, n) {
      ReportRecorded(c, s, e, n);
    } else if e.Timing? {
      SomeReporter(c, s, e);
      var x :| Reporter(c, s, e, x);
      ReportRecorded(c, s, e, x);
    } else {
      NothingReported(c, s, e, n);
    }
  }

  // ----- progress -----

  /** A report makes the mediator pass the barrier: its node is synchronized then, and neither it nor
      any other synchronized node is short of the barrier. */
  ghost predicate Ready(s: State, e: Event, n: Node)
    requires e.Timing? && forall x :: x in s.reg.nodes ==> x in s.reg.recs
  {
    && (e.id != 0 || IdOf(s.reg.recs, n) != 0)
    && (e.tstamp >= s.time.nextgt || TimeOf(s.reg.recs, n) >= s.time.nextgt)
    && forall x :: x in s.reg.nodes && x != n && SyncValid(s.reg.recs[x]) ==> s.reg.recs[x].simtime >= s.time.nextgt
  }

  /** Progress: a heartbeat or a stop passes the barrier if and only if all are at it with this
      report; if they are, time moves there, and if not, it stays. */
  lemma Progress(c: Config, s: State, e: Event, n: Node)
    requires Inv(c, s) && EventOk(c, s, e) && e.Timing? && e.kind != TimeQuery && Reporter(c, s, e, n)
    ensures forall x :: x in s.reg.nodes ==> x in s.reg.recs
    ensures var s' := Step(c, s, e).0;
            if Ready(s, e, n) then s'.time.gt == s.time.nextgt
            else s'.time.gt == s.time.gt && s'.time.nextgt == s.time.nextgt
    ensures Crosses(c, s, e) <==> Ready(s, e, n)
  {
    hide Step, Reporter, RegOk, TimeOk, Sorted, Report, Passes, Stays, NewsAt;
    KnownInv(c, s);
    KnownNodes(s.reg);
    ReportIs(c, s, e, n);
    ReportInv(c, s, e);
    ReadyIff(c, s, e, n);
    StepEffect(c, s, e);
    var (s', o) := Step(c, s, e);
    if Ready(s, e, n) {
      PassesTime(c, s, s', o, NewsAt(c, s, e));
    } else {
      StaysTime(s, s', o);
    }
  }

  lemma StaysTime(s: State, s': State, o: seq<Output>)
    requires Stays(s, s', o)
    ensures s'.time.gt == s.time.gt && s'.time.nextgt == s.time.nextgt
  {
    hide Announced, Accepted, Released, KeepsTimes;
  }

  lemma ReadyIff(c: Config, s: State, e: Event, n: Node)
    requires Inv(c, s) && EventOk(c, s, e) && e.Timing? && e.kind != TimeQuery && Reporter(c, s, e, n)
    requires forall x :: x in s.reg.nodes ==> x in s.reg.recs
    ensures Crosses(c, s, e) <==> Ready(s, e, n)
  {
    hide Reporter, RegOk, TimeOk, Sorted, Report, AllAt;
    ReportIs(c, s, e, n);
    ReportInv(c, s, e);
    var s1 := Report(c, s, e).0;
    KnownInv(c, s1);
    AllAtIff(s.reg, s1.reg, n, s.time.nextgt);
  }

  /** All are at a time if the one whose record has changed is, and so are the others. */
  lemma AllAtIff(a: Reg, b: Reg, n: Node, t: nat)
    requires (forall x :: x in a.nodes ==> x in a.recs) && (forall x :: x in b.nodes ==> x in b.recs) && n in b.recs
    requires forall x :: x in a.recs && x != n ==> x in b.recs && b.recs[x] == a.recs[x]
    requires forall x :: x in b.nodes <==> x in a.nodes || x == n
    ensures AllAt(b, t) <==>
            && (SyncValid(b.recs[n]) ==> b.recs[n].simtime >= t)
            && forall x :: x in a.nodes && x != n && SyncValid(a.recs[x]) ==> a.recs[x].simtime >= t
  {
    if AllAt(b, t) {
      forall x | x in a.nodes && x != n && SyncValid(a.recs[x]) ensures a.recs[x].simtime >= t {
        assert x in b.nodes && SyncValid(b.recs[x]);
      }
    }
  }

  // ----- announcements -----

  /** The number of announcements of a forced one. */
  function Forced(t: nat, sent: bool): seq<nat> { if sent then [t] else [] }

  /** Reaching a barrier is announced once, unless a barrier has been announced at the same time before. */
  lemma ClusterAnnounces(c: Config, s: State, ntime: nat, env: Reading)
    requires Inv(c, s)
    ensures forall n :: n in s.reg.nodes ==> n in s.reg.recs
    ensures var (s', o) := SyncCluster(c, s, ntime, env);
            s'.time.lastSync == if Announced(o) == [] then s.time.lastSync else s'.time.gt
    ensures var (s', o) := SyncCluster(c, s, ntime, env);
            Announced(o) ==
              if Reached(s.reg, ntime, s.time.nextgt) then
                Forced(s'.time.nextgt, News(env.syncSent, s.time.lastSync, s.time.nextgt) > 0)
              else []
  {
    hide AtBarrier, Reached, RegOk, Sorted, TimeOk, Announced;
    ClusterUnfold(c, s, ntime, env);
    NoOutput();
    var s0 := Begun(s);
    BarrierTime(c, s0, env.elapsed);
    BarrierReleases(c, s0, env.elapsed);
    var (s1, o1) := AtBarrier(c, s0, env.elapsed);
    var (t', o2) := SendSync(s1.time, false, env.syncSent);
    OutputAppend(o1, o2);
    OneAnnouncement(t'.nextgt);
    EmptyAppend(Announced(o2));
  }

  /** The old barrier is announced again: by the timer, to a node that asks, and when a node stops that
      has no port of its own to be told at. */
  ghost predicate Repeats(s: State, e: Event, n: Node)
    requires e.Timing?
  {
    match e.kind
    case Heartbeat => false
    case Stop => !ValidAddr(AddrOf(s.reg.recs, n))
    case TimeQuery => e.id != 0 || IdOf(s.reg.recs, n) != 0
  }

  /** What a timing message announces while the barrier lies ahead: the current barrier again if it
      is to be repeated, and then the new one if this was the last report that was missing. */
  lemma ReportAnnounces(c: Config, s: State, e: Event, n: Node)
    requires Inv(c, s) && EventOk(c, s, e) && e.Timing? && Reporter(c, s, e, n) && s.time.gt < s.time.nextgt
    ensures forall x :: x in s.reg.nodes ==> x in s.reg.recs
    ensures var (s', o) := Step(c, s, e);
            Announced(o) ==
              Forced(s.time.nextgt, Repeats(s, e, n) && e.env.now.forcedSent)
              + Forced(s'.time.nextgt, e.kind != TimeQuery && Ready(s, e, n) && e.env.now.syncSent)
    ensures Step(c, s, e).0.time.lastSync ==
            if e.kind != TimeQuery && Ready(s, e, n) && e.env.now.syncSent then s.time.nextgt
            else if Repeats(s, e, n) && e.env.now.forcedSent then s.time.gt
            else s.time.lastSync
  {
    hide Step, Reporter, RegOk, TimeOk, Sorted, Report, HeartbeatNode, StopNode, TimeOut, Announced, AllAt, Ready,
         Stays, Passes;
    KnownInv(c, s);
    ReportIs(c, s, e, n);
    ReportInv(c, s, e);
    TimingUnfold(c, s, e);
    NoOutput();
    var s1 := Report(c, s, e).0;
    KnownInv(c, s1);
    match e.kind {
      case Heartbeat =>
        Progress(c, s, e, n);
        HeartbeatAnnounces(c, s1, n, e.env.now);
      case Stop =>
        Progress(c, s, e, n);
        StopAnnounces(c, s1, n, e.env.now);
      case TimeQuery =>
        TimeOutEffect(c, s1, e.env.now);
        TimeOutLast(c, s1, e.env.now);
    }
  }

  lemma TimeOutLast(c: Config, s: State, env: Reading)
    requires Inv(c, s) && s.time.gt < s.time.nextgt
    ensures TimeOut(c, s, env).0.time.lastSync == if env.forcedSent then s.time.gt else s.time.lastSync
  {
    hide SyncCluster, RegOk, Sorted, Reached;
    TimeOutUnfold(c, s, env);
    ClusterUnfold(c, s, s.time.gt, env);
    TimeOutReached(s.reg, s.time.gt, s.time.nextgt);
  }

  lemma HeartbeatAnnounces(c: Config, s: State, n: Node, env: Reading)
    requires Inv(c, s) && n in s.reg.nodes && s.time.gt < s.time.nextgt
    requires forall x :: x in s.reg.nodes ==> x in s.reg.recs
    ensures var (s', o) := HeartbeatNode(c, s, n, env);
            Announced(o) ==
              Forced(s'.time.nextgt, SyncValid(s.reg.recs[n]) && AllAt(s.reg, s.time.nextgt) && env.syncSent)
    ensures var s' := HeartbeatNode(c, s, n, env).0;
            s'.time.lastSync ==
              if SyncValid(s.reg.recs[n]) && AllAt(s.reg, s.time.nextgt) && env.syncSent then s'.time.gt
              else s.time.lastSync
  {
    hide SyncCluster, HeartbeatNode, RegOk, Sorted, Reached, Announced, AllAt;
    HeartbeatUnfold(c, s, n, env);
    NoOutput();
    var r := s.reg.recs[n];
    var r1 := if DataValid(r) then r else r.(warned := true);
    WithRecTwice(s, n, r.(warned := true), r1.(running := true));
    RecSameTimes(s, n, r1.(running := true));
    var s1 := WithRec(s, n, r1.(running := true));
    SameTimesAt(s.reg, s1.reg, s.time.nextgt);
    if SyncValid(r) {
      ReachedIff(s1.reg, n, s.time.nextgt);
      ClusterAnnounces(c, s1, r.simtime, env);
    }
  }

  lemma StopAnnounces(c: Config, s: State, n: Node, env: Reading)
    requires Inv(c, s) && n in s.reg.nodes && s.time.gt < s.time.nextgt
    requires forall x :: x in s.reg.nodes ==> x in s.reg.recs
    ensures var (s', o) := StopNode(c, s, n, env);
            Announced(o) ==
              Forced(s.time.nextgt, !ValidAddr(s.reg.recs[n].addr) && env.forcedSent)
              + Forced(s'.time.nextgt, SyncValid(s.reg.recs[n]) && AllAt(s.reg, s.time.nextgt) && env.syncSent)
    ensures var s' := StopNode(c, s, n, env).0;
            s'.time.lastSync ==
              if SyncValid(s.reg.recs[n]) && AllAt(s.reg, s.time.nextgt) && env.syncSent then s'.time.gt
              else if !ValidAddr(s.reg.recs[n].addr) && env.forcedSent then s.time.gt
              else s.time.lastSync
  {
    hide SyncCluster, StopNode, RegOk, Sorted, Reached, Announced, AllAt, Stays;
    StopWarns(c, s, n, env);
    StopUnfold(c, s, n, env);
    NoOutput();
    OneAnnouncement(s.time.nextgt);
    var r := s.reg.recs[n];
    var (s1, o1) := Warned(s, n, env);
    SameTimesAt(s.reg, s1.reg, s.time.nextgt);
    if SyncValid(r) {
      ReachedIff(s1.reg, n, s.time.nextgt);
      ClusterAnnounces(c, s1, r.simtime, env);
      OutputAppend(o1, SyncCluster(c, s1, r.simtime, env).1);
    }
  }

  /** The timer repeats the barrier that lies ahead once the synchronization has begun, and no packet
      or port request announces anything. */
  lemma OthersAnnounce(c: Config, s: State, e: Event)
    requires Inv(c, s) && EventOk(c, s, e) && !e.Timing? && s.time.gt < s.time.nextgt
    ensures Announced(Step(c, s, e).1) ==
            Forced(s.time.nextgt, e.Timer? && s.time.started && e.env.now.forcedSent)
    ensures Step(c, s, e).0.time.lastSync ==
            if e.Timer? && s.time.started && e.env.now.forcedSent then s.time.gt else s.time.lastSync
  {
    hide TimeOut, ProcessPacket, RegisterMac, RegOk, Sorted, TimeOk, Announced, Step;
    NoOutput();
    if e.Data? {
      PacketReaches(c, s, e);
      NothingAnnounced(Step(c, s, e).1);
      PacketLast(c, s, e);
    } else {
      OtherSteps(c, s, e);
      if e.Timer? {
        TimeOutEffect(c, s, e.env.now);
        TimeOutLast(c, s, e.env.now);
      }
    }
  }

  lemma OtherSteps(c: Config, s: State, e: Event)
    requires Inv(c, s) && EventOk(c, s, e) && (e.Timer? || e.PortRequest?)
    ensures Step(c, s, e).1 == if e.Timer? && s.time.started then TimeOut(c, s, e.env.now).1 else []
    ensures Step(c, s, e).0.time == if e.Timer? && s.time.started then TimeOut(c, s, e.env.now).0.time else s.time
  {
    hide TimeOut, RegisterMac, RegOk, Sorted, TimeOk;
  }

  lemma PacketLast(c: Config, s: State, e: Event)
    requires Inv(c, s) && EventOk(c, s, e) && e.Data?
    ensures Step(c, s, e).0.time.lastSync == s.time.lastSync
  {
    hide Step, Broadcast, Send, RegisterMac, RegOk, Sorted, TimeOk;
    ProcessUnfold(c, s, e);
  }

  lemma {:induction false} NothingAnnounced(o: seq<Output>)
    requires forall i :: 0 <= i < |o| ==> !o[i].Announce?
    ensures Announced(o) == []
  {
    if o != [] { NothingAnnounced(o[1..]); }
  }

  // ----- the clock -----

  /** What is released at the barrier of `s`, and the time to the message that is latest of the rest,
      decide about the next quantum. */
  function NextOne(c: Config, s: State): real
    requires Inv(c, s)
  {
    var top := TopTime(Later(s.queue, s.time.nextgt));
    NewQuantum(c, s.time, |Due(s.queue, s.time.nextgt)|, if top > s.time.gt then top - s.time.gt else 0)
  }

  /** The clock behind the barrier of `s`; from there the next quantum is measured. */
  ghost predicate ClockBehind(c: Config, s: State, t: Time)
    requires Inv(c, s)
  {
    && t.gt == s.time.nextgt && t.quantum == NextOne(c, s) >= 0.0 && t.nextgt == t.gt + Round(t.quantum)
    && t.lastQtime == s.time.gt && t.lastQpacks == t.packs == s.time.packs && t.started
  }

  /** The clock when no barrier is passed. */
  ghost predicate ClockBefore(s: State, t: Time, packs: nat, started: bool) {
    t.(lastSync := s.time.lastSync) == s.time.(packs := packs, started := started)
  }

  lemma AtBarrierClock(c: Config, s: State, elapsed: nat)
    requires Inv(c, s) && s.time.started
    ensures ClockBehind(c, s, AtBarrier(c, s, elapsed).0.time)
  {
    hide NewQuantum, Due, Later, Registry.StartNodes, Releases, RegOk, Sorted, TopTime, Round, Legal;
    LaterBeyond(s.queue, s.time.nextgt);
    BarrierTime(c, s, elapsed);
  }

  lemma ClusterClock(c: Config, s: State, ntime: nat, env: Reading)
    requires Inv(c, s)
    ensures forall n :: n in s.reg.nodes ==> n in s.reg.recs
    ensures var t := SyncCluster(c, s, ntime, env).0.time;
            if Reached(s.reg, ntime, s.time.nextgt) then ClockBehind(c, s, t)
            else ClockBefore(s, t, s.time.packs, true)
  {
    hide AtBarrier, Reached, RegOk, Sorted, NewQuantum, Due, Later, TopTime, Round;
    ClusterUnfold(c, s, ntime, env);
    var s0 := Begun(s);
    if Reached(s.reg, ntime, s.time.nextgt) {
      AtBarrierClock(c, s0, env.elapsed);
      SameNextOne(c, s, s0);
    }
  }

  /** The next quantum does not depend on what else a step changes. */
  lemma SameNextOne(c: Config, s: State, s0: State)
    requires Inv(c, s) && Inv(c, s0) && s0.queue == s.queue
    requires s0.time.(lastSync := s.time.lastSync, started := s.time.started) == s.time
    ensures NextOne(c, s0) == NextOne(c, s)
    ensures forall t :: ClockBehind(c, s0, t) ==> ClockBehind(c, s, t)
  {
    hide Due, Later, TopTime, Round, PacketRate, Below, Above, Exactly, Scaled, RegOk, Sorted;
  }

  /** What a time report does to the clock: the next quantum is the one computed from the traffic since
      the last barrier and from the messages waiting, and it is measured from here on.  The first
      report of a synchronized node starts the synchronization; else the clock stands still. */
  lemma ReportClock(c: Config, s: State, e: Event, n: Node)
    requires Inv(c, s) && EventOk(c, s, e) && e.Timing? && e.kind != TimeQuery && Reporter(c, s, e, n)
    ensures forall x :: x in s.reg.nodes ==> x in s.reg.recs
    ensures var t := Step(c, s, e).0.time;
            if Ready(s, e, n) then ClockBehind(c, s, t)
            else ClockBefore(s, t, s.time.packs, s.time.started || e.id != 0 || IdOf(s.reg.recs, n) != 0)
  {
    hide Step, Reporter, RegOk, TimeOk, Sorted, Report, HeartbeatNode, StopNode, AllAt, Ready, ClockBehind, ClockBefore;
    KnownInv(c, s);
    ReportIs(c, s, e, n);
    ReportInv(c, s, e);
    TimingUnfold(c, s, e);
    ReadyIff(c, s, e, n);
    var s1 := Report(c, s, e).0;
    KnownInv(c, s1);
    SameNextOne(c, s, s1);
    SameBefore(s, s1);
    match e.kind {
      case Heartbeat => HeartbeatClock(c, s1, n, e.env.now);
      case Stop => StopClock(c, s1, n, e.env.now);
    }
  }

  lemma SameBefore(s: State, s1: State)
    requires s1.time.(lastSync := s.time.lastSync) == s.time
    ensures forall t, packs, started :: ClockBefore(s1, t, packs, started) ==> ClockBefore(s, t, packs, started)
  {}

  lemma HeartbeatClock(c: Config, s: State, n: Node, env: Reading)
    requires Inv(c, s) && n in s.reg.nodes && forall x :: x in s.reg.nodes ==> x in s.reg.recs
    ensures var t := HeartbeatNode(c, s, n, env).0.time; var sync := SyncValid(s.reg.recs[n]);
            if sync && AllAt(s.reg, s.time.nextgt) then ClockBehind(c, s, t)
            else ClockBefore(s, t, s.time.packs, s.time.started || sync)
  {
    hide SyncCluster, HeartbeatNode, RegOk, Sorted, TimeOk, Reached, AllAt, ClockBehind;
    HeartbeatUnfold(c, s, n, env);
    var r := s.reg.recs[n];
    var r1 := if DataValid(r) then r else r.(warned := true);
    WithRecTwice(s, n, r.(warned := true), r1.(running := true));
    RecSameTimes(s, n, r1.(running := true));
    var s1 := WithRec(s, n, r1.(running := true));
    SameTimesAt(s.reg, s1.reg, s.time.nextgt);
    if SyncValid(r) {
      ReachedIff(s1.reg, n, s.time.nextgt);
      ClusterClock(c, s1, r.simtime, env);
      SameNextOne(c, s, s1);
    }
  }

  lemma StopClock(c: Config, s: State, n: Node, env: Reading)
    requires Inv(c, s) && n in s.reg.nodes && forall x :: x in s.reg.nodes ==> x in s.reg.recs
    ensures var t := StopNode(c, s, n, env).0.time; var sync := SyncValid(s.reg.recs[n]);
            if sync && AllAt(s.reg, s.time.nextgt) then ClockBehind(c, s, t)
            else ClockBefore(s, t, s.time.packs, s.time.started || sync)
  {
    hide SyncCluster, StopNode, RegOk, Sorted, TimeOk, Reached, AllAt, ClockBehind, Stays;
    StopWarns(c, s, n, env);
    StopUnfold(c, s, n, env);
    var r := s.reg.recs[n];
    var s1 := Warned(s, n, env).0;
    SameTimesAt(s.reg, s1.reg, s.time.nextgt);
    if SyncValid(r) {
      ReachedIff(s1.reg, n, s.time.nextgt);
      ClusterClock(c, s1, r.simtime, env);
      SameNextOne(c, s, s1);
    }
  }

  /** While the barrier lies ahead every other event leaves the clock alone; packets are counted. */
  lemma OthersClock(c: Config, s: State, e: Event)
    requires Inv(c, s) && EventOk(c, s, e) && s.time.gt < s.time.nextgt && (e.Timing? ==> e.kind == TimeQuery)
    ensures ClockBefore(s, Step(c, s, e).0.time, s.time.packs + if e.Data? then 1 else 0, s.time.started)
  {
    hide Step, RegOk, Sorted, TimeOut, Report, RegisterMac, ClockBefore;
    match e
    case PortRequest(_, _, _) => PortTime(c, s, e);
    case Timer(env) =>
      TimerTime(c, s, e);
      TimeOutClock(c, s, env.now);
    case Data(_, _, _, _, _, _, _, _, _) => PacketTime(c, s, e);
    case Timing(_, _, _, _, _, env) =>
      ReportInv(c, s, e);
      TimingUnfold(c, s, e);
      var s1 := Report(c, s, e).0;
      SameBefore(s, s1);
      TimeOutClock(c, s1, env.now);
      StandsStill(s1);
  }

  lemma StandsStill(s: State)
    ensures ClockBefore(s, s.time, s.time.packs, s.time.started)
  {}

  lemma PortTime(c: Config, s: State, e: Event)
    requires Inv(c, s) && EventOk(c, s, e) && e.PortRequest?
    ensures ClockBefore(s, Step(c, s, e).0.time, s.time.packs, s.time.started)
  {
    hide RegisterMac, RegOk, Sorted, TimeOk;
  }

  lemma TimerTime(c: Config, s: State, e: Event)
    requires Inv(c, s) && EventOk(c, s, e) && e.Timer?
    ensures Step(c, s, e).0.time == (if s.time.started then TimeOut(c, s, e.env.now).0.time else s.time)
    ensures ClockBefore(s, s.time, s.time.packs, s.time.started)
  {
    hide TimeOut, RegOk, Sorted, TimeOk;
  }

  lemma PacketTime(c: Config, s: State, e: Event)
    requires Inv(c, s) && EventOk(c, s, e) && e.Data?
    ensures ClockBefore(s, Step(c, s, e).0.time, s.time.packs + 1, s.time.started)
  {
    hide Step, Broadcast, Send, RegisterMac, RegOk, Sorted, TimeOk;
    ProcessUnfold(c, s, e);
  }

  lemma TimeOutClock(c: Config, s: State, env: Reading)
    requires Inv(c, s) && s.time.gt < s.time.nextgt
    ensures ClockBefore(s, TimeOut(c, s, env).0.time, s.time.packs, s.time.started)
  {
    hide SyncCluster, RegOk, Sorted, Reached;
    TimeOutUnfold(c, s, env);
    ClusterClock(c, s, s.time.gt, env);
    TimeOutReached(s.reg, s.time.gt, s.time.nextgt);
  }

  // ----- running and warned -----

  /** A barrier starts the synchronized nodes, and short of it nothing happens to them. */
  lemma ClusterMarks(c: Config, s: State, ntime: nat, env: Reading, n: Node)
    requires Inv(c, s) && n in s.reg.nodes
    ensures forall x :: x in s.reg.nodes ==> x in s.reg.recs
    ensures var recs := SyncCluster(c, s, ntime, env).0.reg.recs; var r := s.reg.recs[n];
            && n in recs && recs[n].warned == r.warned
            && (recs[n].running <==> r.running || (Reached(s.reg, ntime, s.time.nextgt) && SyncValid(r)))
  {
    hide AtBarrier, Reached, SendSync, RegOk, Sorted, TimeOk;
    ClusterUnfold(c, s, ntime, env);
    if Reached(s.reg, ntime, s.time.nextgt) {
      KnownInv(c, s);
      BarrierStarts(c, Begun(s), env.elapsed, n);
    }
  }

  lemma BarrierStarts(c: Config, s: State, elapsed: nat, n: Node)
    requires Inv(c, s) && n in s.reg.nodes
    ensures n in s.reg.recs
    ensures var recs := AtBarrier(c, s, elapsed).0.reg.recs; var r := s.reg.recs[n];
            n in recs && recs[n] == r.(running := r.running || SyncValid(r))
  {
    hide NewQuantum, Due, Later, Releases, RegOk, Sorted, TimeOk, Advance, TopTime, Without;
    KnownInv(c, s);
    PortsForgotten(s.reg, elapsed, n);
  }

  /** A node that reports is warned about once it has no port.  A heartbeat sets a synchronized node
      running, a stop has it stand still, and a barrier sets all the others running; no other node
      changes in this. */
  lemma ReportMarks(c: Config, s: State, e: Event, n: Node)
    requires Inv(c, s) && EventOk(c, s, e) && e.Timing? && e.kind != TimeQuery && Reporter(c, s, e, n)
    ensures forall x :: x in s.reg.nodes ==> x in s.reg.recs
    ensures var recs := Step(c, s, e).0.reg.recs; var sync := e.id != 0 || IdOf(s.reg.recs, n) != 0;
            && n in recs
            && (recs[n].warned <==> HasBeenWarned(s.reg.recs, n) || !ValidAddr(AddrOf(s.reg.recs, n)))
            && (recs[n].running <==> if sync then e.kind == Heartbeat else Runs(s.reg.recs, n))
    ensures var recs := Step(c, s, e).0.reg.recs;
            forall x :: x in s.reg.nodes && x != n ==>
              var r := s.reg.recs[x];
              && x in recs && recs[x].warned == r.warned
              && (recs[x].running <==> r.running || (Ready(s, e, n) && SyncValid(r)))
  {
    hide Step, Reporter, RegOk, TimeOk, Sorted, Report, HeartbeatNode, StopNode, AllAt, Ready;
    KnownInv(c, s);
    ReportIs(c, s, e, n);
    ReportInv(c, s, e);
    TimingUnfold(c, s, e);
    ReadyIff(c, s, e, n);
    var s1 := Report(c, s, e).0;
    KnownInv(c, s1);
    forall x | x in s1.reg.nodes ensures Marks(c, s1, n, e.kind, Step(c, s, e).0.reg.recs, x) {
      match e.kind {
        case Heartbeat => HeartbeatMarks(c, s1, n, e.env.now, x);
        case Stop => StopMarks(c, s1, n, e.env.now, x);
      }
    }
  }

  /** What a heartbeat or a stop of `n` makes of the marks of `x`. */
  ghost predicate Marks(c: Config, s: State, n: Node, kind: Kind, recs: map<Node, NodeRec>, x: Node)
    requires Inv(c, s) && n in s.reg.nodes && x in s.reg.nodes && forall y :: y in s.reg.nodes ==> y in s.reg.recs
  {
    var r, m := s.reg.recs[x], s.reg.recs[n];
    && x in recs && recs[x].warned == (r.warned || (x == n && !ValidAddr(r.addr)))
    && (recs[x].running <==>
         if x == n && SyncValid(m) then kind == Heartbeat
         else r.running || (SyncValid(m) && AllAt(s.reg, s.time.nextgt) && SyncValid(r)))
  }

  lemma HeartbeatMarks(c: Config, s: State, n: Node, env: Reading, x: Node)
    requires Inv(c, s) && n in s.reg.nodes && x in s.reg.nodes && forall y :: y in s.reg.nodes ==> y in s.reg.recs
    ensures Marks(c, s, n, Heartbeat, HeartbeatNode(c, s, n, env).0.reg.recs, x)
  {
    hide SyncCluster, HeartbeatNode, RegOk, Sorted, TimeOk, Reached, AllAt;
    HeartbeatUnfold(c, s, n, env);
    var r := s.reg.recs[n];
    var r1 := if DataValid(r) then r else r.(warned := true);
    WithRecTwice(s, n, r.(warned := true), r1.(running := true));
    RecSameTimes(s, n, r1.(running := true));
    var s1 := WithRec(s, n, r1.(running := true));
    SameTimesAt(s.reg, s1.reg, s.time.nextgt);
    if SyncValid(r) {
      ReachedIff(s1.reg, n, s.time.nextgt);
      ClusterMarks(c, s1, r.simtime, env, x);
    }
  }

  lemma StopMarks(c: Config, s: State, n: Node, env: Reading, x: Node)
    requires Inv(c, s) && n in s.reg.nodes && x in s.reg.nodes && forall y :: y in s.reg.nodes ==> y in s.reg.recs
    ensures Marks(c, s, n, Stop, StopNode(c, s, n, env).0.reg.recs, x)
  {
    hide SyncCluster, StopNode, RegOk, Sorted, TimeOk, Reached, AllAt, Stays;
    StopWarns(c, s, n, env);
    StopUnfold(c, s, n, env);
    var r := s.reg.recs[n];
    var s1 := Warned(s, n, env).0;
    SameTimesAt(s.reg, s1.reg, s.time.nextgt);
    if SyncValid(r) {
      ReachedIff(s1.reg, n, s.time.nextgt);
      ClusterMarks(c, s1, r.simtime, env, x);
    }
  }

  // ----- registrations -----

  /** The nodes to which packets for `addr` go. */
  ghost function NodesAt(reg: Reg, addr: Addr): set<Node> {
    set n | n in reg.nodes && n in reg.recs && reg.recs[n].addr == addr
  }

  /** A port request answered, then the first packet from there, with a new MAC address: the packet
      makes no second node of the port, but gives its address to a node registered there. */
  lemma PortThenPacket(c: Config, s: State, p: Event, e: Event)
    requires Inv(c, s) && EventOk(c, s, p) && p.PortRequest? && p.replied && ValidAddr(p.from)
    requires var s1 := Step(c, s, p).0;
             Inv(c, s1) && EventOk(c, s1, e) && e.Data? && Registers(e) && e.from == p.from
             && e.src != NO_MAC && e.src != BROADCAST && e.src !in s1.reg.macs
    ensures var s1, s2 := Step(c, s, p).0, Step(c, Step(c, s, p).0, e).0;
            && NodesAt(s1.reg, p.from) == NodesAt(s.reg, p.from) + {p.env.born} && s2.reg.nodes == s1.reg.nodes
            && NodesAt(s2.reg, p.from) == NodesAt(s1.reg, p.from)
            && e.src in s2.reg.macs && s2.reg.macs[e.src] in NodesAt(s1.reg, p.from)
  {
    hide RegisterMac, Step, Inv;
    PortRegistered(c, s, p);
    var s1 := Step(c, s, p).0;
    PacketRegistered(c, s1, e);
  }

  /** The sender of a packet is registered at the address it comes from, unless it is a gateway or the
      packet has no more than its header and is no broadcast; then the registry stays as it is. */
  lemma SenderRegistered(c: Config, s: State, e: Event)
    requires Inv(c, s) && EventOk(c, s, e) && e.Data?
    ensures var reg := Step(c, s, e).0.reg;
            if e.vde || e.slirp || (e.dst != BROADCAST && |e.packet| <= 14) || e.src == BROADCAST then reg == s.reg
            else
              && (e.src != NO_MAC ==> e.src in reg.macs && reg.macs[e.src] in NodesAt(reg, e.from))
              && (e.src == NO_MAC ==>
                   reg.macs == s.reg.macs && e.env.born != null
                   && NodesAt(reg, e.from) == NodesAt(s.reg, e.from) + {e.env.born})
  {
    hide RegisterMac, Inv, Step, Route, Admit;
    ProcessUnfold(c, s, e);
    RouteReaches(c, Admit(c, s, e).0, e, Admit(c, s, e).1);
    AdmitSenders(c, s, e);
  }

  lemma AdmitSenders(c: Config, s: State, e: Event)
    requires Inv(c, s) && EventOk(c, s, e) && e.Data?
    ensures var reg := Admit(c, s, e).0.reg;
            if e.vde || e.slirp || (e.dst != BROADCAST && |e.packet| <= 14) || e.src == BROADCAST then reg == s.reg
            else
              && (e.src != NO_MAC ==> e.src in reg.macs && reg.macs[e.src] in NodesAt(reg, e.from))
              && (e.src == NO_MAC ==>
                   reg.macs == s.reg.macs && e.env.born != null
                   && NodesAt(reg, e.from) == NodesAt(s.reg, e.from) + {e.env.born})
  {
    hide RegisterMac, TimeOk, Sorted;
    if Registers(e) {
      RegisterMacOk(s.reg, e.src, e.from, e.env.at, e.env.born, e.env.now.elapsed);
      RegisterMacSpecial(s.reg, e.src, e.from, e.env.at, e.env.born, e.env.now.elapsed);
      if e.src == NO_MAC { InsertAtElements(s.reg.nodes, e.env.at, e.env.born); }
    }
  }

  lemma PortRegistered(c: Config, s: State, p: Event)
    requires Inv(c, s) && EventOk(c, s, p) && p.PortRequest? && p.replied
    ensures var s1 := Step(c, s, p).0;
            && p.env.born in s1.reg.nodes && p.env.born in s1.reg.recs && s1.reg.recs[p.env.born].addr == p.from
            && NodesAt(s1.reg, p.from) == NodesAt(s.reg, p.from) + {p.env.born}
  {
    hide RegisterMac, TimeOk, Sorted;
    RegisterMacSpecial(s.reg, NO_MAC, p.from, p.env.at, p.env.born, p.env.now.elapsed);
    InsertAtElements(s.reg.nodes, p.env.at, p.env.born);
  }

  lemma PacketRegistered(c: Config, s: State, e: Event)
    requires Inv(c, s) && EventOk(c, s, e) && e.Data? && Registers(e) && ValidAddr(e.from)
    requires e.src != NO_MAC && e.src != BROADCAST && e.src !in s.reg.macs && NodesAt(s.reg, e.from) != {}
    ensures var s2 := Step(c, s, e).0;
            && s2.reg.nodes == s.reg.nodes && NodesAt(s2.reg, e.from) == NodesAt(s.reg, e.from)
            && e.src in s2.reg.macs && s2.reg.macs[e.src] in NodesAt(s.reg, e.from)
  {
    hide RegisterMac, Inv, Step, Route, Admit;
    ProcessUnfold(c, s, e);
    RouteReaches(c, Admit(c, s, e).0, e, Admit(c, s, e).1);
    AdmitRegisters(c, s, e);
  }

  lemma AdmitRegisters(c: Config, s: State, e: Event)
    requires Inv(c, s) && EventOk(c, s, e) && e.Data? && Registers(e) && ValidAddr(e.from)
    requires e.src != NO_MAC && e.src != BROADCAST && e.src !in s.reg.macs && NodesAt(s.reg, e.from) != {}
    ensures var s2 := Admit(c, s, e).0;
            && s2.reg.nodes == s.reg.nodes && NodesAt(s2.reg, e.from) == NodesAt(s.reg, e.from)
            && e.src in s2.reg.macs && s2.reg.macs[e.src] in NodesAt(s.reg, e.from)
  {
    hide RegisterMac, TimeOk, Sorted, FirstThere;
    FirstOrNone(s.reg, e.from);
    var k :| k in NodesAt(s.reg, e.from);
    assert !NoneThere(s.reg, e.from);
    var n :| n in s.reg.nodes && FirstThere(s.reg, e.from, n);
    FirstIsThere(s.reg, e.from, n);
    RegisterMacFinds(s.reg, e.src, e.from, e.env.at, e.env.born, e.env.now.elapsed);
    SameAddress(s.reg, n, e.src, e.from);
  }

  lemma SameAddress(reg: Reg, n: Node, mac: Mac, addr: Addr)
    requires n in reg.recs
    ensures NodesAt(reg.(recs := reg.recs[n := reg.recs[n].(mac := mac)], macs := reg.macs[mac := n]), addr) ==
            NodesAt(reg, addr)
  {}

  lemma FirstIsThere(reg: Reg, addr: Addr, n: Node)
    requires (forall x :: x in reg.nodes ==> x in reg.recs) && FirstThere(reg, addr, n)
    ensures n in NodesAt(reg, addr)
  {}
}
