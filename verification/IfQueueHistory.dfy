/** Which sessions src/slirp/if.c moves to the batch queue, told by what has been handed in and sent
    before instead of by its counters. */
module IfQueueHistory {
  import opened Seqs
  import opened IfQueueModel

  /** The packets of a session handed in, and those of them sent, since none was waiting. */
  datatype Stretch = Stretch(handed: nat, sent: nat)

  const PAUSE := Stretch(0, 0)

  function After(q: Queues, op: Op, so: Socket, h: Stretch): Stretch
    requires Ok(q)
  {
    var (q1, sent) := Step(q, op);
    if Pending(q1, so) == [] then PAUSE
    else Stretch(h.handed + (if op.Output? && op.so == so then 1 else 0), h.sent + |SentOf(sent, so)|)
  }

  /** The stretch of `so` after a run that begins with the stretch `h`. */
  function History(q: Queues, ops: seq<Op>, so: Socket, h: Stretch): Stretch
    requires Ok(q)
    decreases |ops|
  {
    if ops == [] then h else History(Step(q, ops[0]).0, ops[1..], so, After(q, ops[0], so, h))
  }

  /** The counters of the session say what has happened. */
  ghost predicate Told(q: Queues, so: Socket, h: Stretch) {
    && Row(q, so) == h.handed && h.handed == h.sent + |Pending(q, so)|
    && (Pending(q, so) == [] ==> h == PAUSE)
  }

  /** Output resets the number of packets in a row when the last one leaves, and only then. */
  lemma {:induction false} StartRow(q: Queues, budget: nat, so: Socket)
    requires Ok(q)
    ensures var q' := Start(q, budget).0;
            && (Pending(q, so) == [] ==> Pending(q', so) == [])
            && Row(q', so) == if Pending(q', so) == [] && Pending(q, so) != [] then 0 else Row(q, so)
    decreases budget
  {
    hide Pending, Ok, Send, Chosen, Start, Flatten, Row;
    if Count(q) != 0 && budget != 0 {
      SendOk(q);
      SendIsFifo(q, so);
      SendRow(q, so);
      StartUnfold(q, budget);
      StartRow(Send(q).0, budget - 1, so);
    } else {
      StartDone(q, budget);
    }
  }

  lemma SendRow(q: Queues, so: Socket)
    requires Ok(q) && Count(q) > 0
    ensures Row(Send(q).0, so) == if Chosen(q).so == so && |Pending(q, so)| == 1 then 0 else Row(q, so)
  {
    hide Flatten, Pending, Serve;
    if q.fast == [] { NonEmptyBatch(q); }
  }

  lemma EnqueueTold(q: Queues, other: Socket?, low: bool, m: Mbuf, so: Socket)
    requires Ok(q)
    ensures Ok(Enqueue(q, other, low, m))
    ensures Row(Enqueue(q, other, low, m), so) == Row(q, so) + if other == so then 1 else 0
    ensures |Pending(Enqueue(q, other, low, m), so)| == |Pending(q, so)| + if other == so then 1 else 0
  {
    hide Pending, Ok, Enqueue, Put, Greedy;
    EnqueueIsFifo(q, other, low, m, so);
    EnqueueRow(q, other, low, m);
    if other == null { PutRow(q, other, low, m); }
  }

  lemma PutRow(q: Queues, so: Socket?, low: bool, m: Mbuf)
    ensures Put(q, so, low, m).0.row == q.row
  {
    hide Find, Append;
  }

  lemma StepTold(q: Queues, op: Op, so: Socket, h: Stretch)
    requires Ok(q) && Told(q, so, h)
    ensures Told(Step(q, op).0, so, After(q, op, so, h))
  {
    hide Pending, Ok, Enqueue, Start, SentOf, Row;
    StepKeepsSession(q, op, so);
    AcceptedOne(op, so);
    match op
    case Output(other, low, m, budget) =>
      EnqueueTold(q, other, low, m, so);
      StartRow(Enqueue(q, other, low, m), budget, so);
    case Resume(budget) => StartRow(q, budget, so);
  }

  lemma AcceptedOne(op: Op, so: Socket?)
    ensures |Accepted([op], so)| == if op.Output? && op.so == so then 1 else 0
  {
    assert [op][1..] == [];
  }

  lemma {:induction false} RunTold(q: Queues, ops: seq<Op>, so: Socket, h: Stretch)
    requires Ok(q) && Told(q, so, h)
    ensures Told(Run(q, ops).0, so, History(q, ops, so, h))
    decreases |ops|
  {
    hide Told, Step, After, Ok;
    if ops != [] {
      StepTold(q, ops[0], so, h);
      RunTold(Step(q, ops[0]).0, ops[1..], so, After(q, ops[0], so, h));
    }
  }

  lemma NothingTold(so: Socket)
    ensures Ok(EMPTY) && Told(EMPTY, so, PAUSE)
  {}

  /** Over every run from empty queues: a packet moves its session to the front of the batch queue if
      and only if at least five have been handed in before it without a pause and at least three of
      these have been sent; otherwise no session is moved. */
  lemma MovedIff(ops: seq<Op>, so: Socket, low: bool, m: Mbuf)
    ensures Ok(EMPTY)
    ensures var (q, h) := (Run(EMPTY, ops).0, History(EMPTY, ops, so, PAUSE)); var q' := Enqueue(q, so, low, m);
            && h.handed == h.sent + |Pending(q, so)|
            && (if h.handed >= 5 && h.sent >= 3 then
                  q'.batch != [] && EndsIn(q'.batch[0], so, m) && PlacesKept(q'.fast, q.fast)
                else PlacesKept(q.fast, q'.fast) && PlacesKept(q.batch, q'.batch) && q'.next == q.next)
  {
    hide Ok, Run, History, Enqueue, Pending, Row, EndsIn, PlacesKept;
    NothingTold(so);
    RunTold(EMPTY, ops, so, PAUSE);
    EnqueuePlace(Run(EMPTY, ops).0, so, low, m);
  }
}
