/** What the mediator guarantees over whole runs. */
module Protocol {
  import opened Seqs
  import opened Net
  import opened Nodes
  import opened Registry
  import opened Scheduler
  import opened Clock
  import opened Mediator

  // ----- reading the output -----

  function Announced(o: seq<Output>): seq<nat> {
    if o == [] then [] else (if o[0].Announce? then [o[0].barrier] else []) + Announced(o[1..])
  }

  function Accepted(o: seq<Output>): multiset<Message> {
    if o == [] then multiset{} else (if o[0].Accept? then multiset{o[0].m} else multiset{}) + Accepted(o[1..])
  }

  function Released(o: seq<Output>): multiset<Message> {
    if o == [] then multiset{} else (if o[0].Release? then multiset{o[0].m} else multiset{}) + Released(o[1..])
  }

  lemma {:induction false} OutputAppend(a: seq<Output>, b: seq<Output>)
    ensures Announced(a + b) == Announced(a) + Announced(b)
    ensures Accepted(a + b) == Accepted(a) + Accepted(b)
    ensures Released(a + b) == Released(a) + Released(b)
  {
    EmptyAppend(b);
    EmptyAppend(Announced(b));
    if a != [] {
      OutputAppend(a[1..], b);
      ConsAppend(a, b);
      var x, y, z := if a[0].Announce? then [a[0].barrier] else [],
                     if a[0].Accept? then multiset{a[0].m} else multiset{},
                     if a[0].Release? then multiset{a[0].m} else multiset{};
      assert Announced(a + b) == x + Announced(a[1..] + b);
      assert Accepted(a + b) == y + Accepted(a[1..] + b);
      assert Released(a + b) == z + Released(a[1..] + b);
      assert Announced(a) == x + Announced(a[1..]);
      hide *;
      Assoc(x, Announced(a[1..]), Announced(b));
    }
  }

  lemma {:induction false} ReleasesRead(due: seq<Message>, recs: map<Node, NodeRec>, barrier: nat)
    requires forall m :: m in due ==> m.node in recs
    ensures var o := Releases(due, recs, barrier);
            Announced(o) == [] && Accepted(o) == multiset{} && Released(o) == multiset(due)
  {
    hide Announced, Accepted, Released, Releases;
    if due == [] {
      NoOutput();
      NoReleases(recs, barrier);
    } else {
      var m, rest := due[0], due[1..];
      ReleasesRead(rest, recs, barrier);
      assert due == [m] + rest;
      ReleasesNext(m, rest, recs, barrier);
      OneOutput(Release(m, barrier, DataValid(recs[m.node])));
      OutputAppend([Release(m, barrier, DataValid(recs[m.node]))], Releases(rest, recs, barrier));
    }
  }

  lemma NoReleases(recs: map<Node, NodeRec>, barrier: nat)
    ensures Releases([], recs, barrier) == []
  {}

  lemma ReleasesNext(m: Message, rest: seq<Message>, recs: map<Node, NodeRec>, barrier: nat)
    requires m.node in recs && forall x :: x in rest ==> x.node in recs
    ensures Releases([m] + rest, recs, barrier) ==
            [Release(m, barrier, DataValid(recs[m.node]))] + Releases(rest, recs, barrier)
  {
    assert ([m] + rest)[1..] == rest;
  }

  // ----- the two kinds of step -----

  /** No barrier is passed: time, quantum and the waiting messages stay; messages may be
      added, and only the current barrier is announced. */
  ghost predicate Stays(s: State, s': State, o: seq<Output>) {
    && s'.time.(lastSync := s.time.lastSync, started := s.time.started, packs := s.time.packs) == s.time
    && KeepsTimes(s.reg.recs, s'.reg.recs)
    && multiset(s'.queue) == multiset(s.queue) + Accepted(o)
    && (forall i :: 0 <= i < |o| ==> !o[i].Release?) && Released(o) == multiset{}
    && (forall i :: 0 <= i < |Announced(o)| ==> Announced(o)[i] == s.time.nextgt)
  }

  /** The barrier is passed: what was due is released, the rest waits on, and the last
      `n` announcements are of the new barrier. */
  ghost predicate Passes(c: Config, s: State, s': State, o: seq<Output>, n: nat) {
    && s'.time.gt == s.time.nextgt
    && 0.0 <= s'.time.quantum && s'.time.nextgt == s'.time.gt + Round(s'.time.quantum)
    && KeepsTimes(s.reg.recs, s'.reg.recs)
    && s'.queue == Later(s.queue, s.time.nextgt)
    && Released(o) == multiset(Due(s.queue, s.time.nextgt)) && Accepted(o) == multiset{}
    && ReleasesDue(s, o)
    && QuantumFits(c, s, s'.time.quantum)
    && AnnouncesNew(Announced(o), s.time.nextgt, s'.time.nextgt, n)
  }

  ghost predicate ReleasesDue(s: State, o: seq<Output>) {
    forall i :: 0 <= i < |o| && o[i].Release? ==> o[i].barrier == s.time.nextgt && o[i].m in Due(s.queue, s.time.nextgt)
  }

  /** The quantum after a barrier: the minimum if packets were released, otherwise
      limited by the maximum or by the latest message that still waits. */
  ghost predicate QuantumFits(c: Config, s: State, quantum: real) {
    var top := TopTime(Later(s.queue, s.time.nextgt));
    && c.qmin <= quantum
    && (Due(s.queue, s.time.nextgt) != [] ==> quantum == c.qmin)
    && (quantum <= c.qmax || (top > s.time.nextgt && quantum <= (top - s.time.gt) as real))
  }

  /** The old barrier any number of times, then `n` times the new one. */
  ghost predicate AnnouncesNew(a: seq<nat>, before: nat, next: nat, n: nat) {
    n <= |a| && forall i :: 0 <= i < |a| ==> a[i] == if i < |a| - n then before else next
  }

  /** What is known once the event has been heard: a time report is recorded. */
  function Heard(c: Config, s: State, e: Event): (h: State)
    requires Inv(c, s) && EventOk(c, s, e)
    ensures Inv(c, h) && h.time == s.time && h.queue == s.queue
  {
    if e.Timing? then ReportInv(c, s, e); Report(c, s, e).0 else s
  }

  /** A time report of a synchronized node finds them all at the barrier. */
  ghost predicate Advances(c: Config, s: State, e: Event)
    requires Inv(c, s) && EventOk(c, s, e)
  {
    e.Timing? && e.kind != TimeQuery &&
    var (s1, n) := Report(c, s, e);
    ReportInv(c, s, e);
    SyncValid(s1.reg.recs[n]) && AllAt(s1.reg, s.time.nextgt)
  }

  /** A time-out, or a question for the time, finds all nodes at a barrier that does not lie
      ahead of the global time. */
  ghost predicate Nudges(c: Config, s: State, e: Event)
    requires Inv(c, s) && EventOk(c, s, e)
  {
    && 0 < s.time.gt && s.time.nextgt <= s.time.gt && AllAt(Heard(c, s, e).reg, s.time.nextgt)
    && ((e.Timer? && s.time.started)
        || (e.Timing? && e.kind == TimeQuery
            && var (s1, n) := Report(c, s, e); ReportInv(c, s, e); SyncValid(s1.reg.recs[n])))
  }

  /** The event makes the mediator pass the barrier. */
  ghost predicate Crosses(c: Config, s: State, e: Event)
    requires Inv(c, s) && EventOk(c, s, e)
  {
    Advances(c, s, e) || Nudges(c, s, e)
  }

  /** Whether the new barrier is announced after global time has moved to `gt`: not if the last
      announcement was made there. */
  function News(sent: bool, lastSync: nat, gt: nat): nat {
    if sent && (lastSync == 0 || gt > lastSync) then 1 else 0
  }

  /** How often an event that passes the barrier announces the new one. */
  function NewsAt(c: Config, s: State, e: Event): nat
    requires Inv(c, s) && EventOk(c, s, e)
  {
    match e
    case Timing(kind, _, _, _, _, env) =>
      (match kind
       case Heartbeat => News(env.now.syncSent, s.time.lastSync, s.time.nextgt)
       case Stop =>
         var (s1, n) := Report(c, s, e);
         ReportInv(c, s, e);
         News(env.now.syncSent, Warned(s1, n, env.now).0.time.lastSync, s.time.nextgt)
       case TimeQuery => News(env.now.syncSent, s.time.lastSync, s.time.nextgt) + if env.now.forcedSent then 1 else 0)
    case Timer(env) => News(env.now.syncSent, s.time.lastSync, s.time.nextgt) + if env.now.forcedSent then 1 else 0
    case _ => 0
  }

  /** While the barrier lies ahead only a time report passes it, and the new one is announced once
      if the socket takes it. */
  lemma NewsExact(c: Config, s: State, e: Event)
    requires Inv(c, s) && EventOk(c, s, e) && s.time.gt < s.time.nextgt
    ensures Crosses(c, s, e) <==> Advances(c, s, e)
    ensures Advances(c, s, e) ==> NewsAt(c, s, e) == if e.env.now.syncSent then 1 else 0
  {
    hide AllAt, RegOk, Sorted, SyncValid;
    if e.Timing? {
      hide Report;
      ReportInv(c, s, e);
    }
  }

  // ----- the parts of a step -----

  lemma {:induction false} SlowestIsLeast(nodes: seq<Node>, recs: map<Node, NodeRec>, t0: nat, t: nat)
    requires forall n :: n in nodes ==> n in recs
    ensures Slowest(nodes, recs, t0) >= t <==>
            t0 >= t && forall n :: n in nodes && SyncValid(recs[n]) ==> recs[n].simtime >= t
  {
    if nodes != [] {
      var r := recs[nodes[0]];
      SlowestIsLeast(nodes[1..], recs, if SyncValid(r) && r.simtime < t0 then r.simtime else t0, t);
      assert nodes == [nodes[0]] + nodes[1..];
    }
  }

  /** The test for the barrier is exact when it is told of a synchronized node. */
  lemma ReachedIff(reg: Reg, n: Node, barrier: nat)
    requires RegOk(reg) && n in reg.nodes && SyncValid(reg.recs[n])
    ensures Reached(reg, reg.recs[n].simtime, barrier) <==> AllAt(reg, barrier)
  {
    var ntime := reg.recs[n].simtime;
    SlowestIsLeast(reg.nodes, reg.recs, if ntime != 0 then ntime else ULONG_MAX, barrier);
    if ntime == 0 && barrier > 0 {
      assert !AllAt(reg, barrier);
    } else if ntime == 0 {
      assert AllAt(reg, barrier);
    }
  }

  lemma SyncClusterEffect(c: Config, s: State, ntime: nat, env: Reading)
    requires Inv(c, s)
    ensures var (s', o) := SyncCluster(c, s, ntime, env);
            if Reached(s.reg, ntime, s.time.nextgt) then
              Passes(c, s, s', o, News(env.syncSent, s.time.lastSync, s.time.nextgt))
            else Stays(s, s', o) && s'.queue == s.queue && s'.reg == s.reg && o == []
  {
    hide Inv, AtBarrier, Reached, Passes, Announced, Accepted, Released;
    ClusterUnfold(c, s, ntime, env);
    SameQueue(s, Begun(s));
    if Reached(s.reg, ntime, s.time.nextgt) {
      var s0 := Begun(s);
      AtBarrierEffect(c, s0, env.elapsed);
      var (s1, o1) := AtBarrier(c, s0, env.elapsed);
      FromBegun(c, s, s0, s1, o1);
      PassesTime(c, s, s1, o1, 0);
      PassesSync(c, s, s1, o1, 0, false, env.syncSent);
    } else {
      NoOutput();
    }
  }

  lemma ClusterUnfold(c: Config, s: State, ntime: nat, env: Reading)
    requires Inv(c, s)
    ensures Inv(c, Begun(s)) && forall n :: n in s.reg.nodes ==> n in s.reg.recs
    ensures Begun(s).time.started || !Reached(s.reg, ntime, s.time.nextgt)
    ensures var (s1, o1) := AtBarrier(c, Begun(s), env.elapsed);
            var (t', o2) := SendSync(s1.time, false, env.syncSent);
            SyncCluster(c, s, ntime, env) ==
              if Reached(s.reg, ntime, s.time.nextgt) then (s1.(time := t'), o1 + o2) else (Begun(s), [])
  {
    KnownInv(c, s);
    hide AtBarrier, Reached, SendSync, RegOk, Sorted;
  }

  lemma NoOutput()
    ensures Announced([]) == [] && Accepted([]) == multiset{} && Released([]) == multiset{}
  {}

  lemma SameQueue(s: State, s0: State)
    requires s0 == Begun(s)
    ensures s0.queue == s.queue && s0.reg == s.reg && s0.time.gt == s.time.gt && s0.time.nextgt == s.time.nextgt
    ensures s0.time.lastSync == s.time.lastSync
  {}

  lemma FromBegun(c: Config, s: State, s0: State, s1: State, o: seq<Output>)
    requires Passes(c, s0, s1, o, 0)
    requires s0.queue == s.queue && s0.reg == s.reg && s0.time.gt == s.time.gt && s0.time.nextgt == s.time.nextgt
    ensures Passes(c, s, s1, o, 0)
  {
    hide Due, Later, Announced, Accepted, Released, AnnouncesNew, KeepsTimes, TopTime, Round;
  }

  lemma PassesTime(c: Config, s: State, s': State, o: seq<Output>, n: nat)
    requires Passes(c, s, s', o, n)
    ensures s'.time.gt == s.time.nextgt
  {
    hide Due, Later, Announced, Accepted, Released, AnnouncesNew, KeepsTimes, QuantumFits, ReleasesDue, Round;
  }

  /** Whatever is announced behind a barrier is the new one. */
  lemma PassesSync(c: Config, s: State, s1: State, o1: seq<Output>, n: nat, force: bool, sent: bool)
    requires Passes(c, s, s1, o1, n)
    ensures var (t', o2) := SendSync(s1.time, force, sent); Passes(c, s, s1.(time := t'), o1 + o2, n + |o2|)
    ensures |SendSync(s1.time, force, sent).1| ==
            if force then (if sent then 1 else 0) else News(sent, s1.time.lastSync, s1.time.gt)
  {
    hide Round, Due, Later, Announced, Accepted, Released, AnnouncesNew, QuantumFits, KeepsTimes;
    var (t', o2) := SendSync(s1.time, force, sent);
    OneAnnouncement(s1.time.nextgt);
    OutputAppend(o1, o2);
    AnnouncedLast(Announced(o1), s.time.nextgt, s1.time.nextgt, n, |o2|);
    assert o2 == if |o2| == 1 then [Announce(s1.time.nextgt)] else [];
  }

  /** The announcement at the end of a barrier is not suppressed if no barrier was announced at
      the new time before. */
  lemma PassesAnnounced(c: Config, s: State, s1: State, o1: seq<Output>, sent: bool)
    requires Passes(c, s, s1, o1, 0) && s1.time.lastSync < s1.time.gt
    ensures var (t', o2) := SendSync(s1.time, false, sent);
            Passes(c, s, s1.(time := t'), o1 + o2, if sent then 1 else 0)
  {
    hide Passes;
    PassesSync(c, s, s1, o1, 0, false, sent);
  }

  lemma OneAnnouncement(t: nat)
    ensures var o := [Announce(t)];
            Announced(o) == [t] && Accepted(o) == multiset{} && Released(o) == multiset{}
    ensures Announced([]) == [] && Accepted([]) == multiset{} && Released([]) == multiset{}
  {
    assert [Announce(t)][1..] == [];
  }

  lemma AnnouncedLast(a: seq<nat>, before: nat, next: nat, n: nat, more: nat)
    requires AnnouncesNew(a, before, next, n) && more <= 1
    ensures AnnouncesNew(a + (if more == 1 then [next] else []), before, next, n + more)
  {}

  lemma AtBarrierEffect(c: Config, s: State, elapsed: nat)
    requires Inv(c, s) && s.time.started
    ensures var (s', o) := AtBarrier(c, s, elapsed); Passes(c, s, s', o, 0)
    ensures AtBarrier(c, s, elapsed).0.time.lastSync == s.time.lastSync
  {
    hide Inv, AtBarrier, Due, Later, Registry.StartNodes, Releases, Announced, Accepted, Released, KeepsTimes,
         QuantumFits, ReleasesDue, Round;
    BarrierQueue(c, s, elapsed);
    BarrierTime(c, s, elapsed);
    BarrierReleases(c, s, elapsed);
  }

  lemma BarrierQueue(c: Config, s: State, elapsed: nat)
    requires Inv(c, s)
    ensures var (s', o) := AtBarrier(c, s, elapsed);
            s'.queue == Later(s.queue, s.time.nextgt) && KeepsTimes(s.reg.recs, s'.reg.recs)
  {
    KnownInv(c, s);
    StartKeepsTimes(s.reg, elapsed);
    hide NewQuantum, Due, Later, Registry.StartNodes, Releases, RegOk, Sorted, TimeOk, KeepsTimes;
  }

  lemma BarrierTime(c: Config, s: State, elapsed: nat)
    requires Inv(c, s)
    ensures var (s', o) := AtBarrier(c, s, elapsed);
            && s'.time.gt == s.time.nextgt && s'.time.lastSync == s.time.lastSync
            && 0.0 <= s'.time.quantum && s'.time.nextgt == s'.time.gt + Round(s'.time.quantum)
            && QuantumFits(c, s, s'.time.quantum)
  {
    KnownInv(c, s);
    hide NewQuantum, Due, Later, Registry.StartNodes, Releases, RegOk, Sorted, TopTime, Round;
    var t := s.time;
    LaterBeyond(s.queue, t.nextgt);
    QuantumBounds(c, t, |Due(s.queue, t.nextgt)|, TopTime(Later(s.queue, t.nextgt)));
  }

  lemma BarrierReleases(c: Config, s: State, elapsed: nat)
    requires Inv(c, s)
    ensures var (s', o) := AtBarrier(c, s, elapsed);
            && Announced(o) == [] && Accepted(o) == multiset{} && Released(o) == multiset(Due(s.queue, s.time.nextgt))
            && ReleasesDue(s, o)
  {
    hide NewQuantum, Due, Later, Registry.StartNodes, Releases, RegOk, Sorted, TimeOk, Announced, Accepted, Released,
         TopTime, Round;
    KnownInv(c, s);
    AtBarrierOutput(c, s, elapsed);
    ReleasesRead(Due(s.queue, s.time.nextgt), s.reg.recs, s.time.nextgt);
  }

  lemma AtBarrierOutput(c: Config, s: State, elapsed: nat)
    requires Inv(c, s)
    ensures forall m :: m in Due(s.queue, s.time.nextgt) ==> m.node in s.reg.recs
    ensures AtBarrier(c, s, elapsed).1 == Releases(Due(s.queue, s.time.nextgt), s.reg.recs, s.time.nextgt)
  {
    hide NewQuantum, Due, Later, Registry.StartNodes, Releases, RegOk, Sorted, TimeOk, TopTime, Round;
  }

  lemma LaterBeyond(q: seq<Message>, t: nat)
    ensures TopTime(Later(q, t)) > 0 ==> TopTime(Later(q, t)) > t
  {}

  lemma StartKeepsTimes(reg: Reg, elapsed: nat)
    requires forall x :: x in reg.nodes ==> x in reg.recs
    ensures KeepsTimes(reg.recs, Registry.StartNodes(reg, elapsed).recs)
  {}

  // ----- putting the parts together -----

  lemma StaysThenStays(s: State, s1: State, s2: State, o1: seq<Output>, o2: seq<Output>)
    requires Stays(s, s1, o1) && Stays(s1, s2, o2)
    ensures Stays(s, s2, o1 + o2)
  {
    OutputAppend(o1, o2);
    hide Announced, Accepted, Released;
  }

  lemma StaysThenPasses(c: Config, s: State, s1: State, s2: State, o1: seq<Output>, o2: seq<Output>, n: nat)
    requires Stays(s, s1, o1) && s1.queue == s.queue && Accepted(o1) == multiset{}
    requires Passes(c, s1, s2, o2, n)
    ensures Passes(c, s, s2, o1 + o2, n)
  {
    hide Announced, Accepted, Released, Due, Later, TopTime, Round;
    OutputAppend(o1, o2);
  }

  /** Changing what is known of a node, but for its time. */
  lemma RecStays(s: State, n: Node, r: NodeRec)
    requires n in s.reg.recs && r.simtime >= s.reg.recs[n].simtime
    ensures Stays(s, WithRec(s, n, r), [])
  {}

  lemma SendSyncStays(c: Config, s: State, sent: bool)
    ensures var (t', o) := SendSync(s.time, true, sent);
            Stays(s, s.(time := t'), o) && Accepted(o) == multiset{}
  {
    OneAnnouncement(s.time.nextgt);
  }

  /** The nodes and what the barrier depends on are the same. */
  ghost predicate SameTimes(a: Reg, b: Reg)
    requires forall n :: n in a.nodes ==> n in a.recs
  {
    && b.nodes == a.nodes
    && forall n :: n in a.nodes ==>
         n in b.recs && b.recs[n].simtime == a.recs[n].simtime && SyncValid(b.recs[n]) == SyncValid(a.recs[n])
  }

  /** sync_cluster after a step has begun without touching the barrier. */
  lemma SyncAfter(c: Config, s: State, s1: State, o1: seq<Output>, n: Node, env: Reading)
    requires Inv(c, s) && Inv(c, s1) && Stays(s, s1, o1)
    requires s1.queue == s.queue && Accepted(o1) == multiset{} && SameTimes(s.reg, s1.reg)
    requires n in s.reg.nodes && SyncValid(s.reg.recs[n])
    ensures var (s2, o2) := SyncCluster(c, s1, s.reg.recs[n].simtime, env);
            if AllAt(s.reg, s.time.nextgt) then
              Passes(c, s, s2, o1 + o2, News(env.syncSent, s1.time.lastSync, s.time.nextgt))
            else Stays(s, s2, o1 + o2)
  {
    KnownInv(c, s);
    hide SyncCluster, Reached, RegOk, TimeOk, Sorted, Passes, Announced, Accepted, Released, KeepsTimes;
    var ntime := s.reg.recs[n].simtime;
    ReachedIff(s1.reg, n, s.time.nextgt);
    SyncClusterEffect(c, s1, ntime, env);
    SameTimesAt(s.reg, s1.reg, s.time.nextgt);
    var (s2, o2) := SyncCluster(c, s1, ntime, env);
    if AllAt(s.reg, s.time.nextgt) {
      StaysThenPasses(c, s, s1, s2, o1, o2, News(env.syncSent, s1.time.lastSync, s.time.nextgt));
    } else {
      StaysThenStays(s, s1, s2, o1, o2);
    }
  }

  lemma SameTimesAt(a: Reg, b: Reg, t: nat)
    requires (forall n :: n in a.nodes ==> n in a.recs) && SameTimes(a, b)
    ensures (forall n :: n in b.nodes ==> n in b.recs) && (AllAt(a, t) <==> AllAt(b, t))
  {}

  lemma HeartbeatEffect(c: Config, s: State, n: Node, env: Reading)
    requires Inv(c, s) && n in s.reg.nodes
    ensures var (s', o) := HeartbeatNode(c, s, n, env);
            if SyncValid(s.reg.recs[n]) && AllAt(s.reg, s.time.nextgt) then
              Passes(c, s, s', o, News(env.syncSent, s.time.lastSync, s.time.nextgt))
            else Stays(s, s', o)
  {
    KnownInv(c, s);
    hide SyncCluster, HeartbeatNode, RegOk, TimeOk, Sorted, Passes, Stays, AllAt;
    var r := s.reg.recs[n];
    var r1 := if DataValid(r) then r else r.(warned := true);
    HeartbeatUnfold(c, s, n, env);
    WithSameRec(s, n);
    WithRecTwice(s, n, r.(warned := true), r1.(running := true));
    RecStays(s, n, r1);
    RecStays(s, n, r1.(running := true));
    RecSameTimes(s, n, r1.(running := true));
    var s1 := WithRec(s, n, r1.(running := true));
    if SyncValid(r) {
      EmptyAppend(SyncCluster(c, s1, r.simtime, env).1);
      NoOutput();
      SyncAfter(c, s, s1, [], n, env);
    }
  }

  lemma RecSameTimes(s: State, n: Node, r: NodeRec)
    requires (forall x :: x in s.reg.nodes ==> x in s.reg.recs) && n in s.reg.recs
    requires r.simtime == s.reg.recs[n].simtime && SyncValid(r) == SyncValid(s.reg.recs[n])
    ensures SameTimes(s.reg, WithRec(s, n, r).reg)
  {}

  lemma RecAfter(c: Config, s: State, s2: State, o: seq<Output>, n: Node, r: NodeRec, k: nat)
    requires n in s2.reg.recs && r.simtime == s2.reg.recs[n].simtime
    ensures Passes(c, s, s2, o, k) ==> Passes(c, s, WithRec(s2, n, r), o, k)
    ensures Stays(s, s2, o) ==> Stays(s, WithRec(s2, n, r), o)
  {
    hide Announced, Accepted, Released, Due, Later, Round, AnnouncesNew, QuantumFits, ReleasesDue;
  }

  /** What stop_node has done before it looks at the barrier. */
  function Warned(s: State, n: Node, env: Reading): (State, seq<Output>)
    requires n in s.reg.recs
  {
    var r := s.reg.recs[n];
    if DataValid(r) then (s, [])
    else
      var (t, o) := SendSync(s.time, true, env.forcedSent);
      (WithRec(s, n, r.(warned := true)).(time := t), o)
  }

  lemma StopUnfold(c: Config, s: State, n: Node, env: Reading)
    requires Inv(c, s) && n in s.reg.recs && Inv(c, Warned(s, n, env).0)
    ensures var (s1, o1) := Warned(s, n, env); var r := s.reg.recs[n];
            var (s2, o2) := SyncCluster(c, s1, r.simtime, env);
            if SyncValid(r) then
              n in s2.reg.recs && StopNode(c, s, n, env) == (WithRec(s2, n, s2.reg.recs[n].(running := false)), o1 + o2)
            else StopNode(c, s, n, env) == (s1, o1)
  {
    SyncClusterKeeps(c, Warned(s, n, env).0, s.reg.recs[n].simtime, env);
    WithSameRec(s, n);
    hide SyncCluster, Inv;
  }

  lemma HeartbeatUnfold(c: Config, s: State, n: Node, env: Reading)
    requires Inv(c, s) && n in s.reg.recs
    ensures var r := s.reg.recs[n];
            var s1 := if DataValid(r) then s else WithRec(s, n, r.(warned := true));
            var s2 := WithRec(s1, n, s1.reg.recs[n].(running := true));
            Inv(c, s2) &&
            HeartbeatNode(c, s, n, env) == if SyncValid(r) then SyncCluster(c, s2, r.simtime, env) else (s1, [])
  {
    var r := s.reg.recs[n];
    var r2 := (if DataValid(r) then r else r.(warned := true)).(running := true);
    SameMacInv(c, s, n, r2);
    WithSameRec(s, n);
    WithRecTwice(s, n, r.(warned := true), r2);
    hide Inv, SyncCluster;
  }

  lemma StopEffect(c: Config, s: State, n: Node, env: Reading)
    requires Inv(c, s) && n in s.reg.nodes
    ensures var (s', o) := StopNode(c, s, n, env);
            if SyncValid(s.reg.recs[n]) && AllAt(s.reg, s.time.nextgt) then
              Passes(c, s, s', o, News(env.syncSent, Warned(s, n, env).0.time.lastSync, s.time.nextgt))
            else Stays(s, s', o)
  {
    KnownInv(c, s);
    hide SyncCluster, StopNode, RegOk, TimeOk, Sorted, Passes, Stays, AllAt, Warned, SameTimes;
    var r := s.reg.recs[n];
    var (s1, o1) := Warned(s, n, env);
    StopWarns(c, s, n, env);
    StopUnfold(c, s, n, env);
    if SyncValid(r) {
      SyncAfter(c, s, s1, o1, n, env);
      var (s2, o2) := SyncCluster(c, s1, r.simtime, env);
      RecAfter(c, s, s2, o1 + o2, n, s2.reg.recs[n].(running := false),
               News(env.syncSent, s1.time.lastSync, s.time.nextgt));
    }
  }

  lemma StopWarns(c: Config, s: State, n: Node, env: Reading)
    requires Inv(c, s) && n in s.reg.recs
    ensures var (s1, o1) := Warned(s, n, env);
            && Inv(c, s1) && Stays(s, s1, o1) && Accepted(o1) == multiset{}
            && s1.queue == s.queue && s1.reg.nodes == s.reg.nodes && SameTimes(s.reg, s1.reg)
  {
    hide RegOk, TimeOk, Accepted, Announced, Released, KeepsTimes;
    var r := s.reg.recs[n];
    var r1 := if DataValid(r) then r else r.(warned := true);
    RecStays(s, n, r1);
    SameMacInv(c, s, n, r1);
    SendSyncKeeps(c, s.time, true, env.forcedSent);
    SendSyncStays(c, s, env.forcedSent);
    NoOutput();
    KnownNodes(s.reg);
  }

  /** A time-out never moves global time.  It repeats the current barrier and changes nothing else, unless
      that barrier does not lie ahead and no node is short of it: then it is passed. */
  lemma TimeOutEffect(c: Config, s: State, env: Reading)
    requires Inv(c, s)
    ensures var (s', o) := TimeOut(c, s, env); var forced := if env.forcedSent then 1 else 0;
            && s'.time.gt == s.time.gt
            && (if 0 < s.time.gt && s.time.nextgt <= s.time.gt && AllAt(s.reg, s.time.nextgt) then
                  Passes(c, s, s', o, News(env.syncSent, s.time.lastSync, s.time.nextgt) + forced)
                else
                  && Stays(s, s', o) && s'.queue == s.queue && s'.reg == s.reg
                  && Announced(o) == seq(forced, _ => s.time.nextgt))
  {
    hide SyncCluster, Reached, Slowest, RegOk, Sorted, Passes, Announced, Accepted, Released, KeepsTimes;
    TimeOutUnfold(c, s, env);
    SyncClusterEffect(c, s, s.time.gt, env);
    TimeOutReached(s.reg, s.time.gt, s.time.nextgt);
    var (s1, o1) := if s.time.gt > 0 then SyncCluster(c, s, s.time.gt, env) else (s, []);
    var (t', o') := SendSync(s1.time, true, env.forcedSent);
    if 0 < s.time.gt && s.time.nextgt <= s.time.gt && AllAt(s.reg, s.time.nextgt) {
      PassesTime(c, s, s1, o1, News(env.syncSent, s.time.lastSync, s.time.nextgt));
      PassesSync(c, s, s1, o1, News(env.syncSent, s.time.lastSync, s.time.nextgt), true, env.forcedSent);
    } else {
      NothingStays(s);
      SendSyncStays(c, s1, env.forcedSent);
      OneAnnouncement(s.time.nextgt);
      EmptyAppend(o');
      StaysThenStays(s, s1, s1.(time := t'), [], o');
    }
  }

  lemma NothingStays(s: State)
    ensures Stays(s, s, [])
  {}

  lemma TimeOutUnfold(c: Config, s: State, env: Reading)
    requires Inv(c, s)
    ensures s.time.gt <= s.time.nextgt && forall n :: n in s.reg.nodes ==> n in s.reg.recs
    ensures var (s1, o1) := if s.time.gt > 0 then SyncCluster(c, s, s.time.gt, env) else (s, []);
            var (t', o') := SendSync(s1.time, true, env.forcedSent);
            TimeOut(c, s, env) == (s1.(time := t'), o1 + o')
  {
    hide SyncCluster, SendSync;
  }

  lemma TimeOutReached(reg: Reg, gt: nat, barrier: nat)
    requires forall n :: n in reg.nodes ==> n in reg.recs
    ensures gt > 0 ==> (Reached(reg, gt, barrier) <==> gt >= barrier && AllAt(reg, barrier))
  {
    SlowestIsLeast(reg.nodes, reg.recs, gt, barrier);
  }

  /** With a minimum quantum below one tick a time-out can pass the barrier: here it moves from 5 to 6. */
  lemma TimeOutCanPass(env: Reading)
    ensures var c := Config(1, 0.25, 10.0, 4.0, 0.5, false);
            var s := State(NO_NODES, [], Time(5, 5, 0.25, 0, 0, 0, 0, true));
            Inv(c, s) && TimeOut(c, s, env).0.time.gt == 5 && TimeOut(c, s, env).0.time.nextgt == 6
  {
    var c := Config(1, 0.25, 10.0, 4.0, 0.5, false);
    var s := State(NO_NODES, [], Time(5, 5, 0.25, 0, 0, 0, 0, true));
    assert Floor(0.25) == 0 && Round(0.25) == 0 && Round(1.0) == 1;
    assert NewQuantum(c, s.time, 0, 0) == 1.0;
    assert Due([], 5) == [] && Later([], 5) == [];
    assert AtBarrier(c, s, env.elapsed).0.time.nextgt == 6;
  }

  lemma ReportEffect(c: Config, s: State, e: Event)
    requires Inv(c, s) && e.Timing? && EventOk(c, s, e)
    ensures var (s1, _) := Report(c, s, e); Stays(s, s1, [])
  {
    var mac := MacOf(c.macBase, e.id);
    RegisterIdOk(s.reg, mac, e.id, e.from, e.env.at, e.env.born, e.env.now.elapsed);
    MacOfIsUsable(c.macBase, e.id, e.id);
    RegisterIdKeepsTimes(s.reg, mac, e.id, e.from, e.env.at, e.env.born, e.env.now.elapsed);
  }

  lemma SendEffect(c: Config, s: State, n: Node, packet: Packet, delay: nat, stamp: nat)
    requires Inv(c, s) && n in s.reg.recs
    ensures var (queue, o) := Send(c, s, n, packet, delay, stamp); Stays(s, s.(queue := queue), [o])
  {
    hide Send, Inv, Stays, Announced, Accepted, Released;
    SendResult(c, s, n, packet, delay, stamp);
    var (queue, o) := Send(c, s, n, packet, delay, stamp);
    OneOutput(o);
    Added(s, queue, o);
  }

  lemma SendResult(c: Config, s: State, n: Node, packet: Packet, delay: nat, stamp: nat)
    requires Inv(c, s) && n in s.reg.recs
    ensures var (queue, o) := Send(c, s, n, packet, delay, stamp);
            !o.Announce? && !o.Release?
            && multiset(queue) == multiset(s.queue) + (if o.Accept? then multiset{o.m} else multiset{})
  {
    hide Insert, Pending, RegOk, TimeOk, Sorted, Send, Round;
    SendUnfold(c, s, n, packet, delay, stamp);
    InsertCounts(s.queue, Message(packet, n, s.time.gt + delay, stamp));
  }

  lemma InsertCounts(q: seq<Message>, m: Message)
    requires Sorted(q)
    ensures multiset(Insert(q, m)) == multiset(q) + (if Pending(q, m) then multiset{} else multiset{m})
  {
    InsertLosesIff(q, m);
  }

  lemma Added(s: State, queue: seq<Message>, o: Output)
    requires multiset(queue) == multiset(s.queue) + Accepted([o])
    requires Announced([o]) == [] && Released([o]) == multiset{} && !o.Release?
    ensures Stays(s, s.(queue := queue), [o])
  {
    hide Announced, Accepted, Released;
  }

  lemma OneOutput(x: Output)
    ensures Announced([x]) == if x.Announce? then [x.barrier] else []
    ensures Accepted([x]) == if x.Accept? then multiset{x.m} else multiset{}
    ensures Released([x]) == if x.Release? then multiset{x.m} else multiset{}
  {
    assert [x][1..] == [];
  }

  lemma {:induction false} BroadcastEffect(c: Config, s: State, k: nat, packet: Packet, delay: nat -> nat,
                                           stamp: nat -> nat)
    requires Inv(c, s) && k <= |s.reg.nodes|
    ensures var (s', o) := Broadcast(c, s, k, packet, delay, stamp); Stays(s, s', o)
    decreases |s.reg.nodes| - k
  {
    if k < |s.reg.nodes| {
      var n := s.reg.nodes[k];
      SendInv(c, s, n, packet, delay(k), stamp(k));
      SendEffect(c, s, n, packet, delay(k), stamp(k));
      var (queue, o) := Send(c, s, n, packet, delay(k), stamp(k));
      var s1 := s.(queue := queue);
      BroadcastEffect(c, s1, k + 1, packet, delay, stamp);
      var (s', rest) := Broadcast(c, s1, k + 1, packet, delay, stamp);
      assert Broadcast(c, s, k, packet, delay, stamp) == (s', [o] + rest);
      hide Send, Broadcast;
      StaysThenStays(s, s1, s', [o], rest);
    }
  }

  lemma AdmitEffect(c: Config, s: State, e: Event)
    requires Inv(c, s) && e.Data? && EventOk(c, s, e)
    ensures Stays(s, Admit(c, s, e).0, [])
  {
    if Registers(e) {
      RegisterMacKeepsTimes(s.reg, e.src, e.from, e.env.at, e.env.born, e.env.now.elapsed);
    }
    hide RegisterMac;
  }

  lemma RouteEffect(c: Config, s: State, e: Event, registered: bool)
    requires Inv(c, s) && e.Data?
    ensures var (s', o) := Route(c, s, e, registered); Stays(s, s', o)
  {
    if e.dst == BROADCAST {
      BroadcastEffect(c, s, 0, e.packet, e.delay, e.stamp);
    } else if registered && e.dst in s.reg.macs {
      assert MappedOk(s.reg, e.dst);
      SendEffect(c, s, s.reg.macs[e.dst], e.packet, e.delay(0), e.stamp(0));
    }
  }

  lemma ProcessPacketEffect(c: Config, s: State, e: Event)
    requires Inv(c, s) && e.Data? && EventOk(c, s, e)
    ensures var (s', o) := ProcessPacket(c, s, e); Stays(s, s', o)
  {
    AdmitInv(c, s, e);
    AdmitEffect(c, s, e);
    var (s1, registered) := Admit(c, s, e);
    RouteEffect(c, s1, e, registered);
    hide Admit, Route, Inv;
    var (s2, o) := Route(c, s1, e, registered);
    EmptyAppend(o);
    StaysThenStays(s, s1, s2, [], o);
    hide Announced, Accepted, Released;
  }

  // ----- one step -----

  lemma StepInv(c: Config, s: State, e: Event)
    requires Inv(c, s) && EventOk(c, s, e)
    ensures Inv(c, Step(c, s, e).0)
  {
    match e
    case PortRequest(from, replied, env) =>
      if replied { RegisterMacOk(s.reg, NO_MAC, from, env.at, env.born, env.now.elapsed); }
    case Timing(kind, _, _, _, _, env) =>
      ReportInv(c, s, e);
      var (s1, n) := Report(c, s, e);
      match kind {
        case Heartbeat => HeartbeatInv(c, s1, n, env.now);
        case Stop => StopInv(c, s1, n, env.now);
        case TimeQuery => TimeOutInv(c, s1, env.now);
      }
    case Timer(env) => TimeOutInv(c, s, env.now);
    case Data(_, _, _, _, _, _, _, _, _) => ProcessPacketInv(c, s, e);
  }

  lemma TimeOutInv(c: Config, s: State, env: Reading)
    requires Inv(c, s)
    ensures Inv(c, TimeOut(c, s, env).0)
  {
    SyncClusterKeeps(c, s, s.time.gt, env);
    var s1 := if s.time.gt > 0 then SyncCluster(c, s, s.time.gt, env).0 else s;
    hide SyncCluster;
    SendSyncKeeps(c, s1.time, true, env.forcedSent);
  }

  lemma HeartbeatInv(c: Config, s: State, n: Node, env: Reading)
    requires Inv(c, s) && n in s.reg.recs
    ensures Inv(c, HeartbeatNode(c, s, n, env).0)
  {
    var r := s.reg.recs[n];
    var r1 := if DataValid(r) then r else r.(warned := true);
    SameMacInv(c, s, n, r1);
    SameMacInv(c, s, n, r1.(running := true));
    SyncClusterKeeps(c, WithRec(s, n, r1.(running := true)), r.simtime, env);
  }

  lemma StopInv(c: Config, s: State, n: Node, env: Reading)
    requires Inv(c, s) && n in s.reg.recs
    ensures Inv(c, StopNode(c, s, n, env).0)
  {
    StopWarns(c, s, n, env);
    StopUnfold(c, s, n, env);
    var s1 := Warned(s, n, env).0;
    SyncClusterKeeps(c, s1, s.reg.recs[n].simtime, env);
    if SyncValid(s.reg.recs[n]) {
      var s2 := SyncCluster(c, s1, s.reg.recs[n].simtime, env).0;
      SameMacInv(c, s2, n, s2.reg.recs[n].(running := false));
      hide *;
    }
  }

  lemma ProcessPacketInv(c: Config, s: State, e: Event)
    requires Inv(c, s) && e.Data? && EventOk(c, s, e)
    ensures Inv(c, ProcessPacket(c, s, e).0)
  {
    AdmitInv(c, s, e);
    var (s1, registered) := Admit(c, s, e);
    RouteInv(c, s1, e, registered);
  }

  lemma RouteInv(c: Config, s: State, e: Event, registered: bool)
    requires Inv(c, s) && e.Data?
    ensures Inv(c, Route(c, s, e, registered).0)
  {
    if e.dst != BROADCAST && registered && e.dst in s.reg.macs {
      assert MappedOk(s.reg, e.dst);
      SendInv(c, s, s.reg.macs[e.dst], e.packet, e.delay(0), e.stamp(0));
    }
  }

  /** Barrier safety, one step: the barrier is passed exactly when a synchronized node reports and
      none is short of the barrier, or when a time-out finds that it does not lie ahead; every
      other step repeats the current barrier at most and releases nothing. */
  lemma StepEffect(c: Config, s: State, e: Event)
    requires Inv(c, s) && EventOk(c, s, e)
    ensures var (s', o) := Step(c, s, e);
            if Crosses(c, s, e) then Passes(c, s, s', o, NewsAt(c, s, e)) else Stays(s, s', o)
    ensures Nudges(c, s, e) ==> Step(c, s, e).0.time.gt == s.time.gt
  {
    match e
    case PortRequest(from, replied, env) => PortEffect(c, s, e);
    case Timing(kind, _, _, _, _, env) => TimingEffect(c, s, e);
    case Timer(env) => TimerEffect(c, s, e);
    case Data(_, _, _, _, _, _, _, _, _) => DataEffect(c, s, e);
  }

  lemma PortEffect(c: Config, s: State, e: Event)
    requires Inv(c, s) && EventOk(c, s, e) && e.PortRequest?
    ensures var (s', o) := Step(c, s, e); !Crosses(c, s, e) && Stays(s, s', o)
  {
    hide RegisterMac, RegOk, Sorted, TimeOk, KeepsTimes;
    NoOutput();
    NothingStays(s);
    if e.replied { RegisterMacKeepsTimes(s.reg, NO_MAC, e.from, e.env.at, e.env.born, e.env.now.elapsed); }
  }

  lemma TimerEffect(c: Config, s: State, e: Event)
    requires Inv(c, s) && EventOk(c, s, e) && e.Timer?
    ensures var (s', o) := Step(c, s, e);
            if Crosses(c, s, e) then Passes(c, s, s', o, NewsAt(c, s, e)) else Stays(s, s', o)
    ensures Step(c, s, e).0.time.gt == s.time.gt
  {
    hide TimeOut, RegOk, Sorted, TimeOk, AllAt, Passes, Stays;
    NothingStays(s);
    TimeOutEffect(c, s, e.env.now);
  }

  lemma DataEffect(c: Config, s: State, e: Event)
    requires Inv(c, s) && EventOk(c, s, e) && e.Data?
    ensures var (s', o) := Step(c, s, e); !Crosses(c, s, e) && Stays(s, s', o)
  {
    hide ProcessPacket, Stays, Inv;
    ProcessPacketEffect(c, s, e);
  }

  lemma TimingEffect(c: Config, s: State, e: Event)
    requires Inv(c, s) && EventOk(c, s, e) && e.Timing?
    ensures var (s', o) := Step(c, s, e);
            if Crosses(c, s, e) then Passes(c, s, s', o, NewsAt(c, s, e)) else Stays(s, s', o)
    ensures Nudges(c, s, e) ==> Step(c, s, e).0.time.gt == s.time.gt
  {
    hide Passes, Stays, Inv, Report, Announced, Accepted, Released, Step, AllAt;
    ReportInv(c, s, e);
    ReportEffect(c, s, e);
    NoOutput();
    var (s1, n) := Report(c, s, e);
    var (s', o) := Step(c, s, e);
    EmptyAppend(o);
    HeardEffect(c, s, e);
    if Crosses(c, s, e) {
      StaysThenPasses(c, s, s1, s', [], o, NewsAt(c, s, e));
    } else {
      StaysThenStays(s, s1, s', [], o);
    }
  }

  /** What a time report does once it is recorded. */
  lemma HeardEffect(c: Config, s: State, e: Event)
    requires Inv(c, s) && EventOk(c, s, e) && e.Timing?
    ensures var (s1, _) := Report(c, s, e); var (s', o) := Step(c, s, e);
            && (if Crosses(c, s, e) then Passes(c, s1, s', o, NewsAt(c, s, e)) else Stays(s1, s', o))
            && (Nudges(c, s, e) ==> s'.time.gt == s.time.gt)
  {
    hide Passes, Stays, Inv, Report, HeartbeatNode, StopNode, TimeOut, AllAt;
    ReportInv(c, s, e);
    var (s1, n) := Report(c, s, e);
    KnownInv(c, s1);
    match e.kind {
      case Heartbeat => HeartbeatEffect(c, s1, n, e.env.now);
      case Stop => StopEffect(c, s1, n, e.env.now);
      case TimeQuery =>
        NothingStays(s1);
        TimeOutEffect(c, s1, e.env.now);
    }
  }

  lemma KnownInv(c: Config, s: State)
    requires Inv(c, s)
    ensures forall n :: n in s.reg.nodes ==> n in s.reg.recs
  {}

  /** The delivery window, one step: whatever leaves the queue leaves it at the new global
      time, when it is due and no later than the quantum just closed allows; whatever was
      due has left, and the rest is still there. */
  lemma StepDelivery(c: Config, s: State, e: Event, i: nat)
    requires Inv(c, s) && EventOk(c, s, e)
    requires var (s', o) := Step(c, s, e); i < |o| && o[i].Release?
    ensures var (s', o) := Step(c, s, e); var m := o[i].m;
            && Crosses(c, s, e) && o[i].barrier == s'.time.gt == s.time.nextgt && m in s.queue
            && s.time.gt <= m.simtime <= s'.time.gt <= m.simtime + Round(s.time.quantum)
            && forall m' :: m' in s.queue ==> (m' in s'.queue <==> m'.simtime > s'.time.gt)
  {
    hide Step, Crosses, RegOk, Sorted, Announced, Accepted, Released, KeepsTimes, AnnouncesNew, QuantumFits, Due, Later;
    StepEffect(c, s, e);
  }

  // ----- who gets a packet -----

  /** The node and the packet of an output that is no announcement. */
  function Addressed(o: Output): (Node, Packet)
    requires !o.Announce?
  {
    match o
    case Accept(m) => (m.node, m.packet)
    case Lose(m) => (m.node, m.packet)
    case Release(m, _, _) => (m.node, m.packet)
    case Forward(n, packet, _) => (n, packet)
  }

  /** A broadcast goes to every registered node once, in the order of the nodes. */
  lemma {:induction false} BroadcastReaches(c: Config, s: State, k: nat, packet: Packet, delay: nat -> nat,
                                            stamp: nat -> nat)
    requires Inv(c, s) && k <= |s.reg.nodes|
    ensures var o := Broadcast(c, s, k, packet, delay, stamp).1;
            && |o| == |s.reg.nodes| - k
            && forall i :: 0 <= i < |o| ==> !o[i].Announce? && Addressed(o[i]) == (s.reg.nodes[k + i], packet)
    decreases |s.reg.nodes| - k
  {
    hide Inv;
    if k == |s.reg.nodes| {
      BroadcastEnd(c, s, packet, delay, stamp);
    } else {
      BroadcastUnfold(c, s, k, packet, delay, stamp);
      BroadcastReaches(c, s.(queue := Send(c, s, s.reg.nodes[k], packet, delay(k), stamp(k)).0), k + 1, packet, delay,
                       stamp);
    }
  }

  lemma AdmitSender(c: Config, s: State, e: Event)
    requires Inv(c, s) && e.Data? && EventOk(c, s, e)
    ensures Admit(c, s, e).1 <==> e.vde || e.slirp || (Registers(e) && e.src != BROADCAST)
  {
    if Registers(e) { RegisterMacOk(s.reg, e.src, e.from, e.env.at, e.env.born, e.env.now.elapsed); }
    hide RegisterMac;
  }

  lemma RouteReaches(c: Config, s: State, e: Event, registered: bool)
    requires Inv(c, s) && e.Data?
    ensures var (s', o) := Route(c, s, e, registered);
            && s'.reg == s.reg
            && (forall i :: 0 <= i < |o| ==> !o[i].Announce?)
            && (if e.dst == BROADCAST then
                  |o| == |s.reg.nodes| && forall i :: 0 <= i < |o| ==> Addressed(o[i]) == (s.reg.nodes[i], e.packet)
                else if registered && e.dst in s.reg.macs then
                  |o| == 1 && Addressed(o[0]) == (s.reg.macs[e.dst], e.packet)
                else o == [])
  {
    if e.dst == BROADCAST {
      hide *;
      BroadcastReaches(c, s, 0, e.packet, e.delay, e.stamp);
      BroadcastRoute(c, s, e, registered);
    } else if registered && e.dst in s.reg.macs {
      assert MappedOk(s.reg, e.dst);
      hide Inv, Broadcast;
    }
  }

  lemma BroadcastRoute(c: Config, s: State, e: Event, registered: bool)
    requires Inv(c, s) && e.Data? && e.dst == BROADCAST
    ensures Route(c, s, e, registered) == Broadcast(c, s, 0, e.packet, e.delay, e.stamp)
  {
    hide Inv, Broadcast;
  }

  /** A packet goes to all registered nodes if it is a broadcast, otherwise to the one node that has
      its destination address, if its sender could be registered or is a gateway; else to none. */
  lemma PacketReaches(c: Config, s: State, e: Event)
    requires Inv(c, s) && e.Data? && EventOk(c, s, e)
    ensures var (s', o) := Step(c, s, e);
            var sender := e.vde || e.slirp || (|e.packet| > 14 && e.src != BROADCAST);
            && (forall i :: 0 <= i < |o| ==> !o[i].Announce?)
            && (if e.dst == BROADCAST then
                  |o| == |s'.reg.nodes| && forall i :: 0 <= i < |o| ==> Addressed(o[i]) == (s'.reg.nodes[i], e.packet)
                else if sender && e.dst in s'.reg.macs then
                  |o| == 1 && Addressed(o[0]) == (s'.reg.macs[e.dst], e.packet)
                else o == [])
  {
    hide Inv, Admit, Step, Route;
    ProcessUnfold(c, s, e);
    AdmitSender(c, s, e);
    var (s1, registered) := Admit(c, s, e);
    RouteReaches(c, s1, e, registered);
  }

  // ----- whole runs -----

  /** Every event is one that the outside can bring about when it comes. */
  ghost predicate Possible(c: Config, s: State, es: seq<Event>)
    requires Inv(c, s)
    decreases |es|
  {
    es == [] ||
    (EventOk(c, s, es[0]) &&
     (StepInv(c, s, es[0]);
      Possible(c, Step(c, s, es[0]).0, es[1..])))
  }

  function Run(c: Config, s: State, es: seq<Event>): (r: (State, seq<Output>))
    requires Inv(c, s) && Possible(c, s, es)
    ensures Inv(c, r.0)
    decreases |es|
  {
    if es == [] then (s, [])
    else
      var (s1, o1) := Step(c, s, es[0]);
      StepInv(c, s, es[0]);
      var (s2, o2) := Run(c, s1, es[1..]);
      (s2, o1 + o2)
  }

  /** Conservation: over any run the messages accepted by the queue are those released
      by it and those still waiting, each as often. */
  lemma {:induction false} RunConserves(c: Config, s: State, es: seq<Event>)
    requires Inv(c, s) && Possible(c, s, es)
    ensures var (s', o) := Run(c, s, es);
            multiset(s.queue) + Accepted(o) == Released(o) + multiset(s'.queue)
    decreases |es|
  {
    if es != [] {
      StepInv(c, s, es[0]);
      var (s1, o1) := Step(c, s, es[0]);
      var (s2, o2) := Run(c, s1, es[1..]);
      StepConserves(c, s, es[0]);
      RunConserves(c, s1, es[1..]);
      OutputAppend(o1, o2);
      assert Run(c, s, es) == (s2, o1 + o2);
      hide *;
      Balance(multiset(s.queue), Accepted(o1), Released(o1), multiset(s1.queue),
              Accepted(o2), Released(o2), multiset(s2.queue));
    }
  }

  lemma Balance(q: multiset<Message>, a: multiset<Message>, r: multiset<Message>, q1: multiset<Message>,
                a': multiset<Message>, r': multiset<Message>, q2: multiset<Message>)
    requires q + a == r + q1 && q1 + a' == r' + q2
    ensures q + (a + a') == (r + r') + q2
  {
    assert q + (a + a') == (q + a) + a' == r + (q1 + a');
  }

  lemma StepConserves(c: Config, s: State, e: Event)
    requires Inv(c, s) && EventOk(c, s, e)
    ensures var (s', o) := Step(c, s, e);
            multiset(s.queue) + Accepted(o) == Released(o) + multiset(s'.queue)
  {
    hide Step, Crosses, Inv, Due, Later, Announced, Accepted, Released, KeepsTimes, AnnouncesNew, QuantumFits,
         ReleasesDue;
    StepEffect(c, s, e);
    DueOrLater(s.queue, s.time.nextgt);
  }

  ghost predicate Nondecreasing(a: seq<nat>) {
    forall i, j :: 0 <= i < j < |a| ==> a[i] <= a[j]
  }

  ghost predicate Between(a: seq<nat>, lo: nat, hi: nat) {
    forall i :: 0 <= i < |a| ==> lo <= a[i] <= hi
  }

  lemma NondecreasingAppend(a: seq<nat>, b: seq<nat>, lo: nat, mid: nat, hi: nat)
    requires Nondecreasing(a) && Nondecreasing(b) && Between(a, lo, mid) && Between(b, mid, hi) && lo <= mid <= hi
    ensures Nondecreasing(a + b) && Between(a + b, lo, hi)
  {}

  /** Announced barriers never decrease, time never goes back, and no reported time is
      forgotten. */
  lemma {:induction false} RunIsMonotone(c: Config, s: State, es: seq<Event>)
    requires Inv(c, s) && Possible(c, s, es)
    ensures var (s', o) := Run(c, s, es);
            && s.time.gt <= s'.time.gt && s.time.nextgt <= s'.time.nextgt
            && KeepsTimes(s.reg.recs, s'.reg.recs)
            && Nondecreasing(Announced(o)) && Between(Announced(o), s.time.nextgt, s'.time.nextgt)
    decreases |es|
  {
    if es != [] {
      StepInv(c, s, es[0]);
      var (s1, o1) := Step(c, s, es[0]);
      var (s2, o2) := Run(c, s1, es[1..]);
      StepIsMonotone(c, s, es[0]);
      RunIsMonotone(c, s1, es[1..]);
      OutputAppend(o1, o2);
      hide Inv, Possible, Step, Nondecreasing, Between, Crosses, NewsAt, AnnouncesNew;
      NewBarrier(Announced(o1), s.time.nextgt, s1.time.nextgt, if Crosses(c, s, es[0]) then NewsAt(c, s, es[0]) else 0);
      NondecreasingAppend(Announced(o1), Announced(o2), s.time.nextgt, s1.time.nextgt, s2.time.nextgt);
    }
  }

  /** One step announces the current barrier any number of times and then, when it passes it, the new
      one.  While the barrier lies ahead, which it always does for a minimum quantum of at least one
      tick, the new barrier lies strictly further and is announced once if the socket takes it. */
  lemma StepIsMonotone(c: Config, s: State, e: Event)
    requires Inv(c, s) && EventOk(c, s, e)
    ensures var (s', o) := Step(c, s, e);
            && s.time.gt <= s'.time.gt && s.time.nextgt <= s'.time.nextgt
            && KeepsTimes(s.reg.recs, s'.reg.recs)
            && AnnouncesNew(Announced(o), s.time.nextgt, s'.time.nextgt,
                            if Crosses(c, s, e) then NewsAt(c, s, e) else 0)
            && (Crosses(c, s, e) && s.time.gt < s.time.nextgt ==>
                 s'.time.gt > s.time.gt && NewsAt(c, s, e) == if e.env.now.syncSent then 1 else 0)
            && (Crosses(c, s, e) && c.qmin >= 1.0 ==> s'.time.nextgt > s.time.nextgt)
  {
    hide Step, Crosses, Inv, Due, Later, Announced, Accepted, Released, KeepsTimes, QuantumFits, ReleasesDue, NewsAt,
         Round;
    StepEffect(c, s, e);
    StepInv(c, s, e);
    TimeFacts(c, s);
    TimeFacts(c, Step(c, s, e).0);
    if s.time.gt < s.time.nextgt { NewsExact(c, s, e); }
  }

  lemma TimeFacts(c: Config, s: State)
    requires Inv(c, s)
    ensures s.time.gt <= s.time.nextgt && (c.qmin >= 1.0 ==> s.time.gt < s.time.nextgt)
  {
    BarrierAhead(c);
  }

  lemma NewBarrier(a: seq<nat>, before: nat, next: nat, n: nat)
    requires AnnouncesNew(a, before, next, n) && before <= next
    ensures Nondecreasing(a) && Between(a, before, next)
  {}

  /** Barrier safety over a run: the nodes synchronized when the barrier at `gt` was passed
      are never behind it again. */
  lemma NeverBehind(c: Config, s: State, e: Event, es: seq<Event>, n: Node)
    requires Inv(c, s) && EventOk(c, s, e) && Crosses(c, s, e)
    requires Inv(c, Step(c, s, e).0) && Possible(c, Step(c, s, e).0, es)
    requires var s1 := Heard(c, s, e); n in s1.reg.recs && n in s1.reg.nodes && SyncValid(s1.reg.recs[n])
    ensures var (s1, _) := Step(c, s, e); var (s2, _) := Run(c, s1, es);
            s1.time.gt == s.time.nextgt && n in s2.reg.recs && s2.reg.recs[n].simtime >= s1.time.gt
  {
    hide Step, Run, Possible, Inv, Heard, Crosses, Passes, Stays;
    CrossTimes(c, s, e);
    StepEffect(c, s, e);
    PassesTime(c, s, Step(c, s, e).0, Step(c, s, e).1, NewsAt(c, s, e));
    RunIsMonotone(c, Step(c, s, e).0, es);
  }

  /** All synchronized nodes are at a barrier that is passed, and a step keeps the times it found
      after hearing the event. */
  lemma CrossTimes(c: Config, s: State, e: Event)
    requires Inv(c, s) && EventOk(c, s, e) && Crosses(c, s, e)
    ensures KeepsTimes(Heard(c, s, e).reg.recs, Step(c, s, e).0.reg.recs)
    ensures forall x :: x in Heard(c, s, e).reg.nodes ==> x in Heard(c, s, e).reg.recs
    ensures AllAt(Heard(c, s, e).reg, s.time.nextgt)
  {
    hide Step, Report, Inv, Due, Later, Announced, Accepted, Released, AnnouncesNew, QuantumFits, ReleasesDue, NewsAt,
         Round, KeepsTimes;
    KnownInv(c, Heard(c, s, e));
    if e.Timing? {
      HeardEffect(c, s, e);
    } else {
      StepEffect(c, s, e);
    }
  }

  /** The state after the first `k` events of a run. */
  function StateAfter(c: Config, s: State, es: seq<Event>, k: nat): (r: State)
    requires Inv(c, s) && Possible(c, s, es) && k <= |es|
    ensures Inv(c, r) && Possible(c, r, es[k..])
    decreases k
  {
    if k == 0 then
      assert es[0..] == es;
      s
    else
      StepInv(c, s, es[0]);
      assert es[1..][k - 1..] == es[k..];
      StateAfter(c, Step(c, s, es[0]).0, es[1..], k - 1)
  }

  lemma LaterState(c: Config, s: State, es: seq<Event>, k: nat)
    requires Inv(c, s) && Possible(c, s, es) && k < |es|
    ensures EventOk(c, s, es[0])
    ensures var s1 := Step(c, s, es[0]).0;
            && Inv(c, s1) && Possible(c, s1, es[1..])
            && StateAfter(c, s, es, 0) == s && StateAfter(c, s1, es[1..], 0) == s1
            && StateAfter(c, s, es, k + 1) == StateAfter(c, s1, es[1..], k)
  {
    StepInv(c, s, es[0]);
    hide Step, Inv;
  }

  /** Event `k` of the run releases `m`, at the first barrier at or after its time and
      within the quantum that this barrier closes. */
  ghost predicate DeliveredAt(c: Config, s: State, es: seq<Event>, k: nat, m: Message)
    requires Inv(c, s) && Possible(c, s, es) && k < |es|
  {
    var a, e := StateAfter(c, s, es, k), es[k];
    EventOk(c, a, e) &&
    var (b, o) := Step(c, a, e);
    && m in a.queue && m in Released(o) && m !in b.queue
    && a.time.gt <= m.simtime <= b.time.gt == a.time.nextgt
    && b.time.gt - m.simtime <= Round(a.time.quantum)
  }

  /** The delivery window over a run: a waiting message stays until global time passes
      its time, and the event that moves global time there releases it. */
  lemma {:induction false} DeliveryWindow(c: Config, s: State, es: seq<Event>, m: Message)
    requires Inv(c, s) && Possible(c, s, es) && m in s.queue
    ensures var (s', _) := Run(c, s, es);
            && (s'.time.gt < m.simtime ==> m in s'.queue)
            && (s'.time.gt > s.time.gt && s'.time.gt >= m.simtime ==>
                 exists k :: 0 <= k < |es| && DeliveredAt(c, s, es, k, m))
    decreases |es|
  {
    if es != [] {
      var e := es[0];
      StepInv(c, s, e);
      StepEffect(c, s, e);
      StepIsMonotone(c, s, e);
      var s1 := Step(c, s, e).0;
      RunIsMonotone(c, s1, es[1..]);
      assert es[0..] == es;
      if Crosses(c, s, e) && s.time.nextgt >= m.simtime {
        ReleasedNow(c, s, es, m);
      } else {
        WaitsOn(c, s, e, m);
        DeliveryWindow(c, s1, es[1..], m);
        DeliveredLater(c, s, es, m);
      }
    }
  }

  lemma ReleasedNow(c: Config, s: State, es: seq<Event>, m: Message)
    requires Inv(c, s) && Possible(c, s, es) && m in s.queue && es != []
    requires Crosses(c, s, es[0]) && s.time.nextgt >= m.simtime
    ensures DeliveredAt(c, s, es, 0, m)
  {
    hide Step, Crosses, RegOk, Sorted, Due, Later, Released, Announced, Accepted, KeepsTimes, AnnouncesNew, QuantumFits,
         ReleasesDue;
    StepEffect(c, s, es[0]);
    assert m in Due(s.queue, s.time.nextgt);
    assert m in multiset(Due(s.queue, s.time.nextgt));
  }

  lemma WaitsOn(c: Config, s: State, e: Event, m: Message)
    requires Inv(c, s) && EventOk(c, s, e) && m in s.queue
    requires !(Crosses(c, s, e) && s.time.nextgt >= m.simtime)
    ensures m in Step(c, s, e).0.queue
    ensures Crosses(c, s, e) ==> Step(c, s, e).0.time.gt < m.simtime
    ensures !Crosses(c, s, e) ==> Step(c, s, e).0.time.gt == s.time.gt
  {
    hide Step, Crosses, Inv, Passes, Stays, NewsAt;
    StepEffect(c, s, e);
    var (s', o) := Step(c, s, e);
    if Crosses(c, s, e) {
      PassesLeaves(c, s, s', o, NewsAt(c, s, e), m);
    } else {
      StaysLeaves(s, s', o, m);
    }
  }

  lemma StaysLeaves(s: State, s': State, o: seq<Output>, m: Message)
    requires Stays(s, s', o) && m in s.queue
    ensures m in s'.queue && s'.time.gt == s.time.gt
  {
    hide Announced, Accepted, Released, KeepsTimes;
    assert m in multiset(s.queue);
    assert m in multiset(s'.queue);
  }

  lemma PassesLeaves(c: Config, s: State, s': State, o: seq<Output>, n: nat, m: Message)
    requires Passes(c, s, s', o, n) && m in s.queue && s.time.nextgt < m.simtime
    ensures m in s'.queue && s'.time.gt < m.simtime
  {
    hide Announced, Accepted, Released, KeepsTimes, Due, Later, AnnouncesNew, QuantumFits, ReleasesDue;
  }

  lemma DeliveredLater(c: Config, s: State, es: seq<Event>, m: Message)
    requires Inv(c, s) && Possible(c, s, es) && es != []
    ensures Inv(c, Step(c, s, es[0]).0) && Possible(c, Step(c, s, es[0]).0, es[1..])
    ensures (exists k :: 0 <= k < |es[1..]| && DeliveredAt(c, Step(c, s, es[0]).0, es[1..], k, m)) ==>
            exists k :: 0 <= k < |es| && DeliveredAt(c, s, es, k, m)
  {
    hide Step, Inv, Possible, StateAfter;
    LaterState(c, s, es, 0);
    var s1 := Step(c, s, es[0]).0;
    if k :| 0 <= k < |es[1..]| && DeliveredAt(c, s1, es[1..], k, m) {
      LaterState(c, s, es, k);
      assert es[k + 1] == es[1..][k];
      assert DeliveredAt(c, s, es, k + 1, m);
    }
  }

  // ----- exactly once -----

  /** What event `k` of a run shows to the outside. */
  function OutputAt(c: Config, s: State, es: seq<Event>, k: nat): seq<Output>
    requires Inv(c, s) && Possible(c, s, es) && k < |es|
  {
    assert es[k..][0] == es[k];
    Step(c, StateAfter(c, s, es, k), es[k]).1
  }

  lemma {:induction false} NextState(c: Config, s: State, es: seq<Event>, k: nat)
    requires Inv(c, s) && Possible(c, s, es) && k < |es|
    ensures var a := StateAfter(c, s, es, k);
            EventOk(c, a, es[k]) && Step(c, a, es[k]) == (StateAfter(c, s, es, k + 1), OutputAt(c, s, es, k))
    decreases k
  {
    hide Step, Inv, StateAfter, EventOk;
    assert es[k..][0] == es[k];
    LaterState(c, s, es, k);
    LaterState(c, s, es, 0);
    if k > 0 {
      var s1 := Step(c, s, es[0]).0;
      assert es[1..][k - 1] == es[k];
      LaterState(c, s, es, k - 1);
      NextState(c, s1, es[1..], k - 1);
    }
  }

  lemma {:induction false} SortedOnce(q: seq<Message>, m: Message)
    requires Sorted(q)
    ensures multiset(q)[m] <= 1
  {
    if q != [] {
      SortedTail(q);
      SortedOnce(q[1..], m);
      hide Sorted;
      assert multiset(q) == multiset{q[0]} + multiset(q[1..]);
      if m == q[0] {
        assert m !in q[1..];
      }
    }
  }

  /** An event releases a message once and for all: it has been waiting, and waits no more. */
  lemma ReleaseRemoves(c: Config, s: State, e: Event, m: Message)
    requires Inv(c, s) && EventOk(c, s, e) && m in Released(Step(c, s, e).1)
    ensures var (s', o) := Step(c, s, e);
            Released(o)[m] == 1 && m in s.queue && m !in s'.queue && Accepted(o) == multiset{}
  {
    hide Step, Crosses, RegOk, TimeOk, Sorted, Due, Later, Announced, Accepted, Released, KeepsTimes, AnnouncesNew,
         QuantumFits, ReleasesDue;
    StepEffect(c, s, e);
    DueOrLater(s.queue, s.time.nextgt);
    SortedOnce(s.queue, m);
  }

  lemma NotAmong(m: Message, q: seq<Message>, more: multiset<Message>, gone: multiset<Message>, left: seq<Message>)
    requires m !in q && m !in more && multiset(q) + more == gone + multiset(left)
    ensures m !in left
  {
    assert m !in multiset(q) && m !in multiset(q) + more;
    assert m !in multiset(left);
  }

  /** What does not wait stays away until it is accepted. */
  lemma {:induction false} StaysAway(c: Config, s: State, es: seq<Event>, m: Message, i: nat, j: nat)
    requires Inv(c, s) && Possible(c, s, es) && i <= j <= |es|
    requires m !in StateAfter(c, s, es, i).queue
    requires forall k :: i <= k < j ==> m !in Accepted(OutputAt(c, s, es, k))
    ensures m !in StateAfter(c, s, es, j).queue
    decreases j
  {
    hide Inv, Possible, StateAfter, OutputAt, Accepted;
    if i < j {
      StaysAway(c, s, es, m, i, j - 1);
      AwayNext(c, s, es, m, j - 1);
    }
  }

  lemma AwayNext(c: Config, s: State, es: seq<Event>, m: Message, k: nat)
    requires Inv(c, s) && Possible(c, s, es) && k < |es|
    requires m !in StateAfter(c, s, es, k).queue && m !in Accepted(OutputAt(c, s, es, k))
    ensures m !in StateAfter(c, s, es, k + 1).queue
  {
    hide Step, Inv, Possible, StateAfter, OutputAt, Accepted, Released, EventOk;
    NextState(c, s, es, k);
    var a, b, o := StateAfter(c, s, es, k), StateAfter(c, s, es, k + 1), OutputAt(c, s, es, k);
    StepConserves(c, a, es[k]);
    NotAmong(m, a.queue, Accepted(o), Released(o), b.queue);
  }

  /** Exactly once: if two events of a run release the same message, it has been accepted again in
      between. */
  lemma ReleasedOnce(c: Config, s: State, es: seq<Event>, m: Message, i: nat, j: nat)
    requires Inv(c, s) && Possible(c, s, es) && i < j < |es|
    requires m in Released(OutputAt(c, s, es, i)) && m in Released(OutputAt(c, s, es, j))
    ensures Released(OutputAt(c, s, es, i))[m] == Released(OutputAt(c, s, es, j))[m] == 1
    ensures exists k :: i < k < j && m in Accepted(OutputAt(c, s, es, k))
  {
    hide Step, Inv, Possible, StateAfter, OutputAt, Accepted, Released, EventOk;
    NextState(c, s, es, i);
    NextState(c, s, es, j);
    ReleaseRemoves(c, StateAfter(c, s, es, i), es[i], m);
    ReleaseRemoves(c, StateAfter(c, s, es, j), es[j], m);
    if forall k :: i < k < j ==> m !in Accepted(OutputAt(c, s, es, k)) {
      StaysAway(c, s, es, m, i + 1, j);
      assert false;
    }
  }

  /** A run from the start: every message taken into the queue has been released once or still
      waits, and it waits for a time that has not passed; the announced barriers never decrease. */
  lemma FromStart(c: Config, es: seq<Event>)
    requires Legal(c) && Possible(c, Init(c), es)
    ensures var (s, o) := Run(c, Init(c), es);
            && Accepted(o) == Released(o) + multiset(s.queue)
            && (forall m :: m in s.queue ==> s.time.gt <= m.simtime)
            && Nondecreasing(Announced(o)) && Between(Announced(o), Floor(c.qmin), s.time.nextgt)
            && forall a, b ::
                 a in s.reg.nodes && b in s.reg.nodes && s.reg.recs[a].mac == s.reg.recs[b].mac != NO_MAC ==> a == b
  {
    RunConserves(c, Init(c), es);
    RunIsMonotone(c, Init(c), es);
    var (s, o) := Run(c, Init(c), es);
    hide Run, Possible, Init, Released, Accepted, Announced, Nondecreasing, Between, TimeOk, Sorted;
    StartEmpty(c);
    assert multiset(Init(c).queue) + Accepted(o) == Accepted(o);
    forall a, b | a in s.reg.nodes && b in s.reg.nodes && s.reg.recs[a].mac == s.reg.recs[b].mac != NO_MAC
      ensures a == b
    {
      NoSharedMac(s.reg, a, b);
    }
  }

  lemma StartEmpty(c: Config)
    requires Legal(c)
    ensures Init(c).queue == [] && Init(c).reg.nodes == [] && Init(c).reg.macs == map[]
    ensures var t := Init(c).time;
            && t.gt == 0 && t.nextgt == Floor(c.qmin) && t.quantum == c.qmax && !t.started
            && t.lastSync == t.lastQtime == t.lastQpacks == t.packs == 0
  {}

  /** A packet is sent at once before the synchronization has begun, and afterwards unless queueing is
      forced if it is due before the current quantum could end; it reaches a node that has a port.
      Otherwise it waits for its time, beyond the next barrier unless forced to, and is lost if
      one with the same time and stamp waits. */
  lemma QueuedBeyondBarrier(c: Config, s: State, n: Node, packet: Packet, delay: nat, stamp: nat)
    requires Inv(c, s) && n in s.reg.recs
    ensures s.time.quantum >= 0.0
    ensures var (queue, o) := Send(c, s, n, packet, delay, stamp);
            && (o.Forward? <==> !s.time.started || (!c.forceQueue && delay <= Round(s.time.quantum)))
            && (o.Forward? ==> queue == s.queue && o == Forward(n, packet, ValidAddr(s.reg.recs[n].addr)))
            && (!o.Forward? ==> (o.Accept? || o.Lose?) && o.m == Message(packet, n, s.time.gt + delay, stamp))
            && (!o.Forward? && !c.forceQueue ==> o.m.simtime > s.time.nextgt)
            && (!o.Forward? ==>
                 (o.Lose? <==> exists x :: x in s.queue && x.simtime == s.time.gt + delay && x.realtime == stamp))
  {
    hide Insert, RegOk, Sorted;
    var m := Message(packet, n, s.time.gt + delay, stamp);
    PendingIff(s.queue, m);
  }

  lemma PendingIff(q: seq<Message>, m: Message)
    ensures Pending(q, m) <==> exists x :: x in q && x.simtime == m.simtime && x.realtime == m.realtime
  {}

  /** A node that is synchronized, registered and short of the barrier. */
  ghost predicate Lags(s: State, n: Node, barrier: nat)
    requires forall x :: x in s.reg.nodes ==> x in s.reg.recs
  {
    n in s.reg.nodes && SyncValid(s.reg.recs[n]) && s.reg.recs[n].simtime < barrier
  }

  /** A stopped node still counts: as long as it stays registered under its id and does
      not report a later time, no event moves global time. */
  lemma {:induction false} LaggardHoldsBarrier(c: Config, s: State, es: seq<Event>, n: Node)
    requires Inv(c, s) && Possible(c, s, es)
    requires forall k :: 0 <= k <= |es| ==> Lags(StateAfter(c, s, es, k), n, s.time.nextgt)
    ensures var (s', o) := Run(c, s, es);
            s'.time.gt == s.time.gt && s'.time.nextgt == s.time.nextgt && Released(o) == multiset{}
    decreases |es|
  {
    if es != [] {
      var e, rest := es[0], es[1..];
      StepInv(c, s, e);
      var (s1, o1) := Step(c, s, e);
      var (s2, o2) := Run(c, s1, rest);
      assert Run(c, s, es) == (s2, o1 + o2);
      LaterState(c, s, es, 0);
      LaggardStep(c, s, e, n) by {
        assert Lags(StateAfter(c, s, es, 0), n, s.time.nextgt) && Lags(StateAfter(c, s, es, 1), n, s.time.nextgt);
      }
      hide Step, Inv, Possible, Run, Lags, Released, StateAfter;
      forall k | 0 <= k <= |rest|
        ensures Lags(StateAfter(c, s1, rest, k), n, s1.time.nextgt)
      {
        LaterState(c, s, es, k);
        assert Lags(StateAfter(c, s, es, k + 1), n, s.time.nextgt);
      }
      LaggardHoldsBarrier(c, s1, rest, n);
      OutputAppend(o1, o2);
    }
  }

  lemma LaggardStep(c: Config, s: State, e: Event, n: Node)
    requires Inv(c, s) && EventOk(c, s, e) && Lags(s, n, s.time.nextgt)
    requires Inv(c, Step(c, s, e).0) && Lags(Step(c, s, e).0, n, s.time.nextgt)
    ensures !Crosses(c, s, e)
    ensures var (s', o) := Step(c, s, e);
            s'.time.gt == s.time.gt && s'.time.nextgt == s.time.nextgt && Released(o) == multiset{}
  {
    hide Step, Crosses, Inv, Passes, Announced, Accepted, Released, KeepsTimes;
    StepEffect(c, s, e);
    if Crosses(c, s, e) {
      AdvancePasses(c, s, e, n);
    }
  }

  /** After a barrier no node that was synchronized is short of it. */
  lemma AdvancePasses(c: Config, s: State, e: Event, n: Node)
    requires Inv(c, s) && EventOk(c, s, e) && Crosses(c, s, e)
    requires n in s.reg.nodes && SyncValid(s.reg.recs[n])
    ensures var (s', _) := Step(c, s, e); n in s'.reg.recs && s'.reg.recs[n].simtime >= s.time.nextgt
  {
    hide Step, Report, Crosses, RegOk, Sorted, TimeOk;
    CrossTimes(c, s, e);
    if e.Timing? { ReportKeepsNodes(c, s, e, n); }
  }

  /** A time report takes no node out of the synchronization. */
  lemma ReportKeepsNodes(c: Config, s: State, e: Event, n: Node)
    requires Inv(c, s) && EventOk(c, s, e) && e.Timing?
    requires n in s.reg.nodes && SyncValid(s.reg.recs[n])
    ensures var (s1, _) := Report(c, s, e); n in s1.reg.nodes && n in s1.reg.recs && SyncValid(s1.reg.recs[n])
  {
    MacOfIsUsable(c.macBase, e.id, e.id);
    if NeedsNode(c, s, e) { InsertAtElements(s.reg.nodes, e.env.at, e.env.born); }
  }

  /** A node that reports its stop is still part of the synchronization. */
  lemma StopKeepsNode(c: Config, s: State, e: Event)
    requires Inv(c, s) && EventOk(c, s, e) && e.Timing? && e.kind == Stop
    ensures var (s1, n) := Report(c, s, e); var (s', _) := Step(c, s, e);
            n in s1.reg.recs && (SyncValid(s1.reg.recs[n]) ==>
              n in s'.reg.nodes && n in s'.reg.recs && SyncValid(s'.reg.recs[n]) && !s'.reg.recs[n].running)
  {
    ReportInv(c, s, e);
    var (s1, n) := Report(c, s, e);
    var r := s1.reg.recs[n];
    StopWarns(c, s1, n, e.env.now);
    StopUnfold(c, s1, n, e.env.now);
    var s2 := Warned(s1, n, e.env.now).0;
    SyncClusterKeeps(c, s2, r.simtime, e.env.now);
    SyncClusterKeepsNode(c, s2, r.simtime, e.env.now, n);
    hide Report, Inv, SyncCluster, StopNode, Stays;
  }

  lemma SyncClusterKeepsNode(c: Config, s: State, ntime: nat, env: Reading, n: Node)
    requires Inv(c, s) && n in s.reg.nodes
    ensures var s' := SyncCluster(c, s, ntime, env).0;
            SyncValid(s.reg.recs[n]) ==> n in s'.reg.nodes && n in s'.reg.recs && SyncValid(s'.reg.recs[n])
  {
    StartNodesOk(s.reg, env.elapsed);
  }
}
