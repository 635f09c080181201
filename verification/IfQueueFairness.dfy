/** How long a session of the batch queue of src/slirp/if.c waits for its turn when packets
    arrive between the rounds of if_start. */
module IfQueueFairness {
  import opened Seqs
  import opened IfQueueModel

  /** `so` has a session in the batch queue. */
  ghost predicate Waits(q: Queues, so: Socket?) {
    Ok(q) && Find(q.batch, so) >= 0
  }

  /** How many batch sessions have their turn before that of `so`. */
  function Ahead(q: Queues, so: Socket?): nat
    requires Ok(q) && Find(q.batch, so) >= 0
  {
    TurnsTo(Find(q.batch, so), q.next, |q.batch|)
  }

  /** From place `t` round to place `p` of `n`; -1 stands for the start. */
  function TurnsTo(p: nat, t: int, n: nat): nat
    requires p < n && -1 <= t < n
  {
    if t < 0 then p else if p >= t then p - t else n - t + p
  }

  /** The sockets of the batch sessions that one call of if_start serves, in order. */
  function Served(q: Queues, budget: nat): seq<Socket?>
    requires Ok(q)
    decreases budget
  {
    if Count(q) == 0 || budget == 0 then []
    else
      SendOk(q);
      (if q.fast == [] then [Chosen(q).so] else []) + Served(Send(q).0, budget - 1)
  }

  lemma FindUnique(ss: seq<Session>, so: Socket?, i: nat)
    requires DistinctSockets(ss) && i < |ss| && ss[i].so == so
    ensures Find(ss, so) == i
  {}

  /** A round of if_start brings every other batch session one turn nearer, if it is the batch queue's. */
  lemma AheadSend(q: Queues, so: Socket?)
    requires Waits(q, so) && Count(q) > 0
    ensures q.fast == [] && Chosen(q).so == so ==> Ahead(q, so) == 0
    ensures !(q.fast == [] && Chosen(q).so == so) ==>
              && Waits(Send(q).0, so)
              && Ahead(Send(q).0, so) == Ahead(q, so) - (if q.fast == [] then 1 else 0)
  {
    hide Flatten, Of, Find;
    SendOk(q);
    if q.fast == [] {
      NonEmptyBatch(q);
      var k, p := Turn(q), Find(q.batch, so);
      if Chosen(q).so == so {
        FindUnique(q.batch, so, k);
      } else {
        FindServed(q.batch, k, so, Send(q).0.batch);
      }
    }
  }

  lemma FindServed(ss: seq<Session>, k: nat, so: Socket?, t: seq<Session>)
    requires k < |ss| && ss[k].packets != [] && t == Serve(ss, k) && DistinctSockets(t)
    requires Find(ss, so) >= 0 && ss[k].so != so
    ensures var p := Find(ss, so);
            p != k && Find(t, so) == if |ss[k].packets| == 1 && p > k then p - 1 else p
  {
    var p := Find(ss, so);
    hide Find;
    FindUnique(t, so, if |ss[k].packets| == 1 && p > k then p - 1 else p);
  }

  // ----- what an arrival changes -----

  /** Whether a packet of `so` gets its session moved. */
  predicate BecomesGreedy(q: Queues, so: Socket?) {
    so != null && Greedy(Row(q, so) + 1, |Pending(q, so)| + 1)
  }

  /** How many more turns `so` has to wait for once a packet of `other` has been queued.  `t` is the
      place where round robin goes on, or -1 for the start of the queue. */
  function Delay(q: Queues, other: Socket?, lowDelay: bool, so: Socket?): int
    requires Ok(q) && Find(q.batch, so) >= 0
  {
    DelayOf(BecomesGreedy(q, other), other == null || !lowDelay,
            Find(q.batch, so), Find(q.batch, other), q.next, |q.batch|)
  }

  /** The same for places: `p` waits, and the packet is for the session at `i`, or a new one if that is -1. */
  function DelayOf(greedy: bool, bulk: bool, p: int, i: int, t: int, n: nat): int {
    if !greedy then
      // a new session at the end comes before the next turn of one that has had its turn
      if i < 0 && bulk && p < t then 1 else 0
    else if i < 0 then
      // a new session at the front
      if t < 0 || p < t then 1 else 0
    else if i == p then
      // its own session: it comes first, or has to wait for the next round
      if t < 0 || t > p then -p else if t == p then 0 else n - 1 - p
    else if i == t then
      // the session whose turn it is takes round robin back to the front
      if p > i then i else 1 + i - n
    else if 0 <= t < i then
      if p > i then -1 else 0
    else
      if p < i then 1 else 0
  }

  /** The places of the batch sessions and of round robin after a packet has been put. */
  lemma PutPlaces(q: Queues, other: Socket?, lowDelay: bool, m: Mbuf, so: Socket?)
    requires Waits(q, so)
    ensures var (q1, p1) := Put(q, other, lowDelay, m); var i := Find(q.batch, other);
      && Waits(q1, so) && Find(q1.batch, so) == Find(q.batch, so) && q1.next == q.next
      && |q1.batch| == |q.batch| + (if p1.Batch? && i < 0 then 1 else 0)
      && (i >= 0 ==> p1 == Batch(i)) && (i < 0 && p1.Batch? ==> p1.at == |q.batch|)
      && (i < 0 ==> (p1.Batch? <==> other == null || !lowDelay))
      && (i >= 0 ==> q1.batch[i].so == other)
  {
    PutOk(q, other, lowDelay, m);
    var (q1, p1) := Put(q, other, lowDelay, m);
    var p := Find(q.batch, so);
    assert q1.batch[p].so == so;
    hide Find;
    FindUnique(q1.batch, so, p);
  }

  /** The places after a downgrade. */
  lemma DowngradePlaces(q: Queues, p1: Place, so: Socket?)
    requires Waits(q, so)
    requires match p1 case Fast(i) => i < |q.fast| case Batch(i) => i < |q.batch|
    requires Ok(Downgrade(q, p1))
    ensures var (q', p) := (Downgrade(q, p1), Find(q.batch, so));
      && |q'.batch| == |q.batch| + (if p1.Fast? then 1 else 0)
      && Find(q'.batch, so) == if p1.Batch? && p >= p1.at then (if p == p1.at then 0 else p) else p + 1
  {
    var (q', p) := (Downgrade(q, p1), Find(q.batch, so));
    hide Find;
    FindUnique(q'.batch, so, if p1.Batch? && p >= p1.at then (if p == p1.at then 0 else p) else p + 1);
  }

  /** What an arrival does to the turn of a waiting session, exactly. */
  lemma EnqueueDelays(q: Queues, other: Socket?, lowDelay: bool, m: Mbuf, so: Socket?)
    requires Waits(q, so)
    ensures Waits(Enqueue(q, other, lowDelay, m), so)
    ensures Ahead(Enqueue(q, other, lowDelay, m), so) == Ahead(q, so) + Delay(q, other, lowDelay, so)
  {
    hide Find, Put, Downgrade, Pending, Row, Greedy, Enqueue, Ok, BecomesGreedy, TurnsTo, DelayOf;
    EnqueueIsFifo(q, other, lowDelay, m, other);
    PutPlaces(q, other, lowDelay, m, so);
    EnqueueNext(q, other, lowDelay, m);
    PlaceOf(q.batch, other, so);
    NextIsPlace(q);
    var p, i, t, n := Find(q.batch, so), Find(q.batch, other), q.next, |q.batch|;
    var bulk := other == null || !lowDelay;
    if BecomesGreedy(q, other) {
      var (q1, p1) := Put(q, other, lowDelay, m);
      var q2 := q1.(row := q.row[other := Row(q, other) + 1]);
      SamePlaces(q1, q2, so);
      DowngradePlaces(q2, p1, so);
      DowngradeNext(q2, p1);
      GreedyTurns(p, i, t, n, bulk);
    } else {
      PlainTurns(p, i, t, n, bulk);
    }
  }

  /** Enqueue in its two steps. */
  lemma EnqueueNext(q: Queues, other: Socket?, lowDelay: bool, m: Mbuf)
    ensures var ((q1, p1), q') := (Put(q, other, lowDelay, m), Enqueue(q, other, lowDelay, m));
      if BecomesGreedy(q, other) then
        other != null && q' == Downgrade(q1.(row := q.row[other := Row(q, other) + 1]), p1)
      else q'.batch == q1.batch && q'.next == q1.next
  {
    hide Pending, Greedy, Put, Downgrade, Row;
  }

  lemma NextIsPlace(q: Queues)
    requires Ok(q)
    ensures -1 <= q.next < |q.batch| || |q.batch| == 0
  {}

  lemma SamePlaces(q1: Queues, q2: Queues, so: Socket?)
    requires Waits(q1, so) && q2.fast == q1.fast && q2.batch == q1.batch && q2.next == q1.next
    ensures Waits(q2, so)
  {}

  lemma DowngradeNext(q: Queues, p: Place)
    requires match p case Fast(i) => i < |q.fast| case Batch(i) => i < |q.batch|
    ensures Downgrade(q, p).next ==
            if p.Batch? && q.next == p.at then 0
            else if p.Batch? then (if 0 <= q.next < p.at then q.next + 1 else q.next)
            else if q.next < 0 then q.next else q.next + 1
  {}

  lemma PlainTurns(p: nat, i: int, t: int, n: nat, bulk: bool)
    requires p < n && -1 <= t < n && -1 <= i < n
    ensures TurnsTo(p, t, if bulk && i < 0 then n + 1 else n) == TurnsTo(p, t, n) + DelayOf(false, bulk, p, i, t, n)
  {}

  lemma GreedyTurns(p: nat, i: int, t: int, n: nat, bulk: bool)
    requires p < n && -1 <= t < n && -1 <= i < n
    ensures i >= 0 ==>
      TurnsTo(if p == i then 0 else if p > i then p else p + 1,
              if t == i then 0 else if 0 <= t < i then t + 1 else t, n)
      == TurnsTo(p, t, n) + DelayOf(true, bulk, p, i, t, n)
    ensures i < 0 ==>
      TurnsTo(p + 1, if t < 0 then t else t + 1, n + 1) == TurnsTo(p, t, n) + DelayOf(true, bulk, p, i, t, n)
  {}

  lemma PlaceOf(ss: seq<Session>, other: Socket?, so: Socket?)
    requires Find(ss, so) >= 0
    ensures Find(ss, other) == Find(ss, so) <==> other == so
    ensures Find(ss, other) < |ss|
  {}

  /** A session that is moved gets the next turn of the batch queue exactly if round robin stands at the
      start of the queue, as it does when the last session has been served, or at that session. */
  lemma TakesTheTurn(q: Queues, other: Socket, lowDelay: bool, m: Mbuf)
    requires Waits(q, other) && BecomesGreedy(q, other)
    ensures var q' := Enqueue(q, other, lowDelay, m);
            Waits(q', other)
            && (Ahead(q', other) == 0 <==> q.next < 0 || q.next == Find(q.batch, other) || |q.batch| == 1)
  {
    hide Find, Pending, Row, Greedy, Enqueue;
    EnqueueDelays(q, other, lowDelay, m, other);
  }

  // ----- runs -----

  /** The sockets of the batch sessions served in a run. */
  function RunServed(q: Queues, ops: seq<Op>): seq<Socket?>
    requires Ok(q)
    decreases |ops|
  {
    if ops == [] then [] else StepServed(q, ops[0]) + RunServed(Step(q, ops[0]).0, ops[1..])
  }

  function StepServed(q: Queues, op: Op): seq<Socket?>
    requires Ok(q)
  {
    match op
    case Output(so, lowDelay, m, budget) =>
      EnqueueIsFifo(q, so, lowDelay, m, so);
      Served(Enqueue(q, so, lowDelay, m), budget)
    case Resume(budget) => Served(q, budget)
  }

  /** By how many turns the arrivals of a run put `so` back. */
  function Delays(q: Queues, ops: seq<Op>, so: Socket?): int
    requires Waits(q, so) && so !in RunServed(q, ops)
    decreases |ops|
  {
    if ops == [] then 0
    else
      StepWaits(q, ops[0], so);
      (if ops[0].Output? then Delay(q, ops[0].so, ops[0].lowDelay, so) else 0)
      + Delays(Step(q, ops[0]).0, ops[1..], so)
  }

  lemma {:induction false} StartWaits(q: Queues, budget: nat, so: Socket?)
    requires Waits(q, so) && so !in Served(q, budget)
    ensures Waits(Start(q, budget).0, so)
    ensures |Served(q, budget)| + Ahead(Start(q, budget).0, so) == Ahead(q, so)
    decreases budget
  {
    hide Ok, Find, Chosen, Send, Flatten, Ahead, Count;
    if Count(q) == 0 || budget == 0 {
      StartDone(q, budget);
    } else {
      SendOk(q);
      AheadSend(q, so);
      StartUnfold(q, budget);
      var first := if q.fast == [] then [Chosen(q).so] else [];
      assert Served(q, budget) == first + Served(Send(q).0, budget - 1);
      assert so !in first && so !in Served(Send(q).0, budget - 1);
      StartWaits(Send(q).0, budget - 1, so);
    }
  }

  lemma StepWaits(q: Queues, op: Op, so: Socket?)
    requires Waits(q, so) && so !in StepServed(q, op)
    ensures Waits(Step(q, op).0, so)
    ensures |StepServed(q, op)| + Ahead(Step(q, op).0, so) ==
            Ahead(q, so) + if op.Output? then Delay(q, op.so, op.lowDelay, so) else 0
  {
    hide Ok, Find, Served, Start, Enqueue, Ahead, Delay;
    match op
    case Output(other, lowDelay, m, budget) =>
      EnqueueDelays(q, other, lowDelay, m, so);
      StartWaits(Enqueue(q, other, lowDelay, m), budget, so);
    case Resume(budget) =>
      StartWaits(q, budget, so);
  }

  /** Fairness over any run: while a batch session waits, every packet that leaves the batch queue
      brings it one turn nearer, and nothing puts it back but the arrivals for which Delay says so.
      Without those, fewer packets than there are batch sessions leave before it has its turn. */
  lemma {:induction false} RunWaits(q: Queues, ops: seq<Op>, so: Socket?)
    requires Waits(q, so) && so !in RunServed(q, ops)
    ensures Waits(Run(q, ops).0, so)
    ensures |RunServed(q, ops)| + Ahead(Run(q, ops).0, so) == Ahead(q, so) + Delays(q, ops, so)
    ensures Delays(q, ops, so) <= 0 ==> |RunServed(q, ops)| < |q.batch|
    decreases |ops|
  {
    hide Step, StepServed, Delay, Find, Ok;
    if ops != [] {
      var q1 := Step(q, ops[0]).0;
      assert so !in StepServed(q, ops[0]) && so !in RunServed(q1, ops[1..]);
      StepWaits(q, ops[0], so);
      RunWaits(q1, ops[1..], so);
    }
  }

  // ----- starvation -----

  /** Packets of two sessions in turn, each handed in when the link is ready for one. */
  function Alternate(x: Socket, y: Socket, ms: seq<Mbuf>): seq<Op>
    decreases |ms|
  {
    if ms == [] then [] else [Output(y, false, ms[0], 1)] + Alternate(y, x, ms[1..])
  }

  /** `d` has had its turn and still waits, and it is the turn of `x` behind it. */
  ghost predicate Starving(q: Queues, d: Session, x: Socket, y: Socket, m: Mbuf) {
    q.fast == [] && q.batch == [d, Session(x, [m])] && q.next == 1 && d.packets != [] && Row(q, y) == 0
    && d.so != x && d.so != y && x != y
  }

  /** `d` stays where it is, and the other two change places. */
  lemma StarvingStep(q: Queues, d: Session, x: Socket, y: Socket, m: Mbuf, m': Mbuf)
    requires Starving(q, d, x, y, m)
    ensures Ok(q) && Starving(Step(q, Output(y, false, m', 1)).0, d, y, x, m')
    ensures Step(q, Output(y, false, m', 1)).1 == [Sent(x, m)]
  {
    hide Enqueue, Send, Pending, Flatten, Start, Of, Find;
    var q1 := Enqueue(q, y, false, m');
    NotThere(q.batch, y);
    NewLast(q, y, m');
    assert q1.batch == [d, Session(x, [m]), Session(y, [m'])];
    OneOf(q1, 1);
    Waiting(q1, 1);
    SendBatch(q1);
    assert Serve(q1.batch, 1) == [d, Session(y, [m'])];
    EnqueueIsFifo(q, y, false, m', y);
    StartOne(q1);
  }

  lemma StartOne(q: Queues)
    requires Ok(q) && Count(q) > 0
    ensures Ok(Send(q).0) && Start(q, 1) == (Send(q).0, [Sent(Chosen(q).so, Send(q).1)])
  {
    hide Send, Flatten, Ok;
    StartUnfold(q, 1);
    StartDone(Send(q).0, 0);
    EmptyAppend([Sent(Chosen(q).so, Send(q).1)]);
  }

  lemma NotThere(ss: seq<Session>, so: Socket?)
    requires forall i :: 0 <= i < |ss| ==> ss[i].so != so
    ensures Find(ss, so) < 0
  {}

  /** A session that is not greedy joins the end of the batch queue. */
  lemma NewLast(q: Queues, so: Socket, m: Mbuf)
    requires Find(q.batch, so) < 0 && Row(q, so) < 5
    ensures Enqueue(q, so, false, m) == q.(batch := q.batch + [Session(so, [m])], row := q.row[so := Row(q, so) + 1])
  {
    hide Find, Pending;
  }

  /** The packets of a session in the batch queue. */
  lemma OneOf(q: Queues, i: nat)
    requires DistinctSockets(q.batch) && q.fast == [] && i < |q.batch|
    ensures Pending(q, q.batch[i].so) == q.batch[i].packets
  {
    var ss, so := q.batch, q.batch[i].so;
    OfSplit(ss, i, so);
    OfNone(ss[..i], so);
    OfNone(ss[i + 1..], so);
    OfNone([], so);
    hide Of;
  }

  lemma {:induction false} Waiting(q: Queues, i: nat)
    requires i < |q.batch| && q.batch[i].packets != []
    ensures Count(q) > 0
  {
    FlattenSplit(q.batch, i);
  }

  /** A round that serves the batch queue. */
  lemma SendBatch(q: Queues)
    requires Ok(q) && q.fast == [] && Count(q) > 0
    ensures q.batch != [] && q.batch[Turn(q)].packets != [] && Chosen(q) == q.batch[Turn(q)]
    ensures var (k, s) := (Turn(q), q.batch[Turn(q)]);
      && Send(q).1 == s.packets[0]
      && Send(q).0 == q.(batch := Serve(q.batch, k),
           next := if k + 1 == |q.batch| then -1 else if |s.packets| == 1 then k else k + 1,
           row := if s.so != null && |Pending(q, s.so)| == 1 then q.row[s.so := 0] else q.row)
  {
    hide Flatten, Pending, Serve;
    NonEmptyBatch(q);
  }

  /** While two other sessions with one packet at a time take turns, `d` is never served. */
  lemma {:induction false} NeverServed(q: Queues, d: Session, x: Socket, y: Socket, m: Mbuf, ms: seq<Mbuf>)
    requires Ok(q) && Starving(q, d, x, y, m)
    ensures var (q', sent) := Run(q, Alternate(x, y, ms));
            q'.fast == [] && q'.batch != [] && q'.batch[0] == d && |sent| == |ms| && SentOf(sent, d.so) == []
    decreases |ms|
  {
    hide Step;
    if ms == [] {
      SentOfNone(d.so);
    } else {
      var op, rest := Output(y, false, ms[0], 1), Alternate(y, x, ms[1..]);
      StarvingStep(q, d, x, y, m, ms[0]);
      var q1 := Step(q, op).0;
      NeverServed(q1, d, y, x, ms[0], ms[1..]);
      RunCons(q, op, rest);
      SentOfCons(Sent(x, m), Run(q1, rest).1, d.so);
    }
  }

  lemma RunCons(q: Queues, op: Op, rest: seq<Op>)
    requires Ok(q)
    ensures var (q1, sent) := Step(q, op); var (q2, more) := Run(q1, rest); Run(q, [op] + rest) == (q2, sent + more)
  {
    hide Step;
    assert ([op] + rest)[1..] == rest;
  }

  /** The state in which `d` has been served once and still has `b`. */
  lemma StarvingStart(d: Socket, x: Socket, y: Socket, a: Mbuf, b: Mbuf, c: Mbuf)
    requires d != x && d != y && x != y
    ensures Ok(EMPTY)
    ensures var q1 := Step(EMPTY, Output(d, false, a, 0)); var q2 := Step(q1.0, Output(d, false, b, 0));
            var q3 := Step(q2.0, Output(x, false, c, 1));
            q1.1 == [] && q2.1 == [] && q3.1 == [Sent(d, a)] && Starving(q3.0, Session(d, [b]), x, y, c)
  {
    hide Enqueue, Send, Pending, Flatten, Start, Of, Find;
    var e1 := Queues([], [Session(d, [a])], -1, map[d := 1]);
    var e2 := Queues([], [Session(d, [a, b])], -1, map[d := 2]);
    var e3 := Queues([], [Session(d, [a, b]), Session(x, [c])], -1, map[d := 2, x := 1]);
    QueueOnly(EMPTY, d, a, e1) by {
      NotThere(EMPTY.batch, d);
      NewLast(EMPTY, d, a);
      assert [] + [Session(d, [a])] == [Session(d, [a])];
    }
    QueueOnly(e1, d, b, e2) by {
      AtLast(e1, 0, b);
      assert [a] + [b] == [a, b];
    }
    assert e3 == Enqueue(e2, x, false, c) by {
      NotThere(e2.batch, x);
      NewLast(e2, x, c);
    }
    EnqueueIsFifo(e2, x, false, c, x);
    OneOf(e3, 0);
    Waiting(e3, 0);
    SendBatch(e3);
    assert Serve(e3.batch, 0) == [Session(d, [b]), Session(x, [c])] by { assert [a, b][1..] == [b]; }
    StartOne(e3);
  }

  /** if_output while the link is not ready. */
  lemma QueueOnly(q: Queues, so: Socket, m: Mbuf, q': Queues)
    requires Ok(q) && q' == Enqueue(q, so, false, m)
    ensures Ok(q') && Step(q, Output(so, false, m, 0)) == (q', [])
  {
    hide Enqueue, Pending, Flatten, Ok;
    EnqueueIsFifo(q, so, false, m, so);
    StartDone(q', 0);
  }

  /** A packet joins a session of the batch queue that is not greedy. */
  lemma AtLast(q: Queues, i: nat, m: Mbuf)
    requires Ok(q) && i < |q.batch| && q.batch[i].so != null && Row(q, q.batch[i].so) < 5
    ensures var so := q.batch[i].so;
            Enqueue(q, so, false, m) == q.(batch := Append(q.batch, i, m), row := q.row[so := Row(q, so) + 1])
  {
    hide Find, Pending;
    FindUnique(q.batch, q.batch[i].so, i);
  }

  /** From the start: however many packets are sent, a session with a packet left is not served again. */
  lemma Starvation(d: Socket, x: Socket, y: Socket, a: Mbuf, b: Mbuf, c: Mbuf, ms: seq<Mbuf>)
    requires d != x && d != y && x != y
    ensures var ops :=
            [Output(d, false, a, 0)] + ([Output(d, false, b, 0)] + ([Output(x, false, c, 1)] + Alternate(x, y, ms)));
            Ok(EMPTY) && var (q', sent) := Run(EMPTY, ops);
            |sent| == |ms| + 1 && SentOf(sent, d) == [a] && Pending(q', d) == [b]
  {
    hide Step, Pending, Starving;
    StarvingStart(d, x, y, a, b, c);
    var q1 := Step(EMPTY, Output(d, false, a, 0)).0;
    var q2 := Step(q1, Output(d, false, b, 0)).0;
    var q3 := Step(q2, Output(x, false, c, 1)).0;
    var rest := Alternate(x, y, ms);
    NeverServed(q3, Session(d, [b]), x, y, c, ms);
    RunCons(q2, Output(x, false, c, 1), rest);
    RunCons(q1, Output(d, false, b, 0), [Output(x, false, c, 1)] + rest);
    RunCons(EMPTY, Output(d, false, a, 0), [Output(d, false, b, 0)] + ([Output(x, false, c, 1)] + rest));
    var (q', sent) := Run(q3, rest);
    SentOfCons(Sent(d, a), sent, d);
    OneOf(q', 0);
    assert [] + ([] + ([Sent(d, a)] + sent)) == [Sent(d, a)] + sent;
  }
}
