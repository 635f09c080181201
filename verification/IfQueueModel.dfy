/** The output queues of src/slirp/if.c as values: two sequences of sessions, each
    with its waiting packets, and the place where round robin resumes.  The lemmas
    here say what the queueing discipline guarantees; module IfQueue proves that
    the linked rings of the program behave like this. */
module IfQueueModel {
  import opened Seqs

  /** A packet buffer.  The four links are shared by the two kinds of ring it can be
      in: `ifq` links the heads of the sessions of a queue, `ifs` the packets of one
      session. */
  class Mbuf {
    var ifqNext: Mbuf?
    var ifqPrev: Mbuf?
    var ifsNext: Mbuf?
    var ifsPrev: Mbuf?
    var so: Socket?

    constructor ()
      ensures so == null
    {
      so := null;
    }
  }

  class Socket {
    var iptos: bv8
    var queued: int   // packets of this socket in the queues
    var nqueued: int  // packets queued in a row, since none was waiting
  }

  const IPTOS_LOWDELAY: bv8 := 0x10

  datatype Session = Session(so: Socket?, packets: seq<Mbuf>)

  /** `next` is the batch session to serve next, or -1 for the start of the queue;
      `row` gives, per socket, the packets queued in a row. */
  datatype Queues = Queues(fast: seq<Session>, batch: seq<Session>, next: int, row: map<Socket, int>)

  const EMPTY := Queues([], [], -1, map[])

  function Row(q: Queues, so: Socket): int {
    if so in q.row then q.row[so] else 0
  }

  // ----- what is waiting -----

  /** The packets of session `so` waiting in `ss`, in order. */
  function Of(ss: seq<Session>, so: Socket?): seq<Mbuf> {
    if ss == [] then []
    else Own(ss[0], so) + Of(ss[1..], so)
  }

  /** Everything waiting for `so`, the fast queue first. */
  function Pending(q: Queues, so: Socket?): seq<Mbuf> {
    Of(q.fast, so) + Of(q.batch, so)
  }

  /** The packets of session `s` if it is one of `so`. */
  function Own(s: Session, so: Socket?): seq<Mbuf> {
    if s.so == so then s.packets else []
  }

  function Flatten(ss: seq<Session>): seq<Mbuf> {
    if ss == [] then [] else ss[0].packets + Flatten(ss[1..])
  }

  function Count(q: Queues): nat { |Flatten(q.fast)| + |Flatten(q.batch)| }

  /** No session is empty, a session has at most one place in the batch queue, and
      `next` is a place in it. */
  ghost predicate Ok(q: Queues) {
    NoneEmpty(q.fast) && NoneEmpty(q.batch) && DistinctSockets(q.batch) && -1 <= q.next < |q.batch|
  }

  ghost predicate NoneEmpty(ss: seq<Session>) {
    forall i :: 0 <= i < |ss| ==> ss[i].packets != []
  }

  ghost predicate DistinctSockets(ss: seq<Session>) {
    forall i, j :: 0 <= i < j < |ss| ==> ss[i].so != ss[j].so
  }

  // ----- if_output -----

  /** The last place of `so` in `ss`, or -1. */
  function Find(ss: seq<Session>, so: Socket?): (i: int)
    ensures -1 <= i < |ss|
    ensures i >= 0 ==> ss[i].so == so
    ensures forall j :: i < j < |ss| ==> ss[j].so != so
  {
    if ss == [] then -1
    else if ss[|ss| - 1].so == so then |ss| - 1
    else Find(ss[..|ss| - 1], so)
  }

  function Append(ss: seq<Session>, i: nat, m: Mbuf): seq<Session>
    requires i < |ss|
  {
    ss[i := Session(ss[i].so, ss[i].packets + [m])]
  }

  /** Where a packet was put: session `at` of one of the two queues. */
  datatype Place = Fast(at: nat) | Batch(at: nat)

  /** The choice of queue and session for a packet of `so`. */
  function Put(q: Queues, so: Socket?, lowDelay: bool, m: Mbuf): (r: (Queues, Place))
    ensures match r.1 case Fast(i) => i < |r.0.fast| case Batch(i) => i < |r.0.batch|
  {
    var i := Find(q.batch, so);
    if i >= 0 then
      (q.(batch := Append(q.batch, i, m)), Batch(i))
    else if so != null && lowDelay then
      var last := |q.fast| - 1;
      if last >= 0 && q.fast[last].so == so then
        (q.(fast := Append(q.fast, last, m)), Fast(last))
      else
        (q.(fast := q.fast + [Session(so, [m])]), Fast(|q.fast|))
    else
      (q.(batch := q.batch + [Session(so, [m])]), Batch(|q.batch|))
  }

  function Remove<T>(s: seq<T>, i: nat): seq<T>
    requires i < |s|
  {
    s[..i] + s[i + 1..]
  }

  /** The session at `p` goes to the front of the batch queue; round robin goes on
      at the same session as before. */
  function Downgrade(q: Queues, p: Place): Queues
    requires match p case Fast(i) => i < |q.fast| case Batch(i) => i < |q.batch|
  {
    match p
    case Fast(i) =>
      q.(fast := Remove(q.fast, i), batch := [q.fast[i]] + q.batch,
         next := if q.next < 0 then q.next else q.next + 1)
    case Batch(i) =>
      q.(batch := [q.batch[i]] + Remove(q.batch, i),
         next := if q.next == i then 0 else if 0 <= q.next < i then q.next + 1 else q.next)
  }

  /** Six packets queued in a row, three of them already sent. */
  predicate Greedy(row: int, queued: int) {
    row >= 6 && row - queued >= 3
  }

  /** One call of if_output, before it starts the output. */
  function Enqueue(q: Queues, so: Socket?, lowDelay: bool, m: Mbuf): Queues {
    var (q1, p) := Put(q, so, lowDelay, m);
    if so == null then q1
    else
      var row := Row(q, so) + 1;
      var q2 := q1.(row := q.row[so := row]);
      if Greedy(row, |Pending(q, so)| + 1) then Downgrade(q2, p) else q2
  }

  lemma EnqueueRow(q: Queues, so: Socket?, low: bool, m: Mbuf)
    ensures var q' := Enqueue(q, so, low, m); var put := Put(q, so, low, m).0;
            && (so == null ==> q' == put && q'.row == q.row)
            && (so != null ==> q'.row == q.row[so := Row(q, so) + 1])
            && (so != null && !Greedy(Row(q, so) + 1, |Pending(q, so)| + 1) ==> q' == put.(row := q'.row))
  {
    hide Pending, Greedy, Append, Find, Remove, Ok;
  }

  lemma EnqueueGreedy(q: Queues, so: Socket?, low: bool, m: Mbuf)
    requires so != null && Greedy(Row(q, so) + 1, |Pending(q, so)| + 1)
    ensures var (q1, p) := Put(q, so, low, m);
            Enqueue(q, so, low, m) == Downgrade(q1.(row := q.row[so := Row(q, so) + 1]), p)
  {
    hide Pending, Greedy, Put, Downgrade;
  }

  // ----- if_start -----

  /** What is left of session `i` once its first packet has gone. */
  function Serve(ss: seq<Session>, i: nat): seq<Session>
    requires i < |ss| && ss[i].packets != []
  {
    if |ss[i].packets| == 1 then Remove(ss, i)
    else ss[i := Session(ss[i].so, ss[i].packets[1..])]
  }

  function Turn(q: Queues): int { if q.next >= 0 then q.next else 0 }

  /** The session whose turn it is. */
  function Chosen(q: Queues): Session
    requires Ok(q) && Count(q) > 0
  {
    if q.fast != [] then q.fast[0]
    else
      NonEmptyBatch(q);
      q.batch[Turn(q)]
  }

  lemma NonEmptyBatch(q: Queues)
    requires Count(q) > 0 && q.fast == []
    ensures q.batch != []
  {}

  /** One round of the loop of if_start. */
  function Send(q: Queues): (r: (Queues, Mbuf))
    requires Ok(q) && Count(q) > 0
  {
    var s := Chosen(q);
    var m := s.packets[0];
    var row := if s.so != null && |Pending(q, s.so)| == 1 then q.row[s.so := 0] else q.row;
    if q.fast != [] then
      (q.(fast := Serve(q.fast, 0), row := row), m)
    else
      NonEmptyBatch(q);
      var k := Turn(q);
      var next := if k + 1 == |q.batch| then -1 else if |s.packets| == 1 then k else k + 1;
      (q.(batch := Serve(q.batch, k), next := next, row := row), m)
  }

  // ----- sessions are first-in first-out -----

  lemma {:induction false} OfAppend(a: seq<Session>, b: seq<Session>, so: Socket?)
    ensures Of(a + b, so) == Of(a, so) + Of(b, so)
  {
    EmptyAppend(b);
    EmptyAppend(Of(b, so));
    if a != [] {
      OfAppend(a[1..], b, so);
      ConsAppend(a, b);
      Assoc(Own(a[0], so), Of(a[1..], so), Of(b, so));
    }
  }

  lemma OfSplit(ss: seq<Session>, i: nat, so: Socket?)
    requires i < |ss|
    ensures Of(ss, so) == Of(ss[..i], so) + Own(ss[i], so) + Of(ss[i + 1..], so)
  {
    assert ss == ss[..i] + ss[i..];
    OfAppend(ss[..i], ss[i..], so);
  }

  lemma {:induction false} OfNone(ss: seq<Session>, so: Socket?)
    requires forall i :: 0 <= i < |ss| ==> ss[i].so != so
    ensures Of(ss, so) == []
  {
    if ss != [] { OfNone(ss[1..], so); }
  }

  lemma OfReplace(ss: seq<Session>, i: nat, s: Session, so: Socket?)
    requires i < |ss|
    ensures Of(ss[i := s], so) == Of(ss[..i], so) + Own(s, so) + Of(ss[i + 1..], so)
  {
    var t := ss[i := s];
    OfSplit(t, i, so);
    assert t[..i] == ss[..i] && t[i + 1..] == ss[i + 1..];
  }

  lemma OfRemove(ss: seq<Session>, i: nat, so: Socket?)
    requires i < |ss|
    ensures Of(Remove(ss, i), so) == Of(ss[..i], so) + Of(ss[i + 1..], so)
  {
    OfAppend(ss[..i], ss[i + 1..], so);
  }

  lemma OfPush(ss: seq<Session>, s: Session, so: Socket?)
    ensures Of(ss + [s], so) == Of(ss, so) + Own(s, so)
  {
    OfAppend(ss, [s], so);
    assert [s][1..] == [];
  }

  lemma OfLast(ss: seq<Session>, i: nat, m: Mbuf, so: Socket?)
    requires i < |ss|
    requires forall j :: i < j < |ss| ==> ss[j].so != ss[i].so
    ensures Of(Append(ss, i, m), so) == Of(ss, so) + (if so == ss[i].so then [m] else [])
  {
    var s := Session(ss[i].so, ss[i].packets + [m]);
    OfSplit(ss, i, so);
    OfReplace(ss, i, s, so);
    if so == ss[i].so { OfNone(ss[i + 1..], so); }
    hide Of;
    var a, b := Of(ss[..i], so), ss[i].packets;
    if so == ss[i].so {
      assert a + (b + [m]) + [] == a + b + [] + [m];
    }
  }

  /** A session has only one place in the batch queue, so a packet put there is the
      last one. */
  lemma PutPending(q: Queues, so: Socket?, lowDelay: bool, m: Mbuf, other: Socket?)
    requires Ok(q)
    ensures var (q1, _) := Put(q, so, lowDelay, m);
            Pending(q1, other) == Pending(q, other) + (if other == so then [m] else [])
  {
    hide Of;
    var (q1, p) := Put(q, so, lowDelay, m);
    var s := Session(so, [m]);
    match p
    case Batch(i) =>
      if i < |q.batch| {
        OfLast(q.batch, i, m, other);
      } else {
        OfPush(q.batch, s, other);
      }
    case Fast(i) =>
      if other == so { OfNone(q.batch, so); }
      if i < |q.fast| {
        OfLast(q.fast, i, m, other);
      } else {
        OfPush(q.fast, s, other);
      }
  }

  /** A downgrade leaves every session's packets in order. */
  lemma DowngradePending(q: Queues, p: Place, other: Socket?)
    requires match p case Fast(i) => i == |q.fast| - 1 case Batch(i) => i < |q.batch|
    requires match p
             case Fast(i) => forall j :: 0 <= j < |q.batch| ==> q.batch[j].so != q.fast[i].so
             case Batch(i) => forall j :: 0 <= j < |q.batch| && j != i ==> q.batch[j].so != q.batch[i].so
    ensures Pending(Downgrade(q, p), other) == Pending(q, other)
  {
    hide Of;
    match p
    case Fast(i) =>
      DowngradeFast(q, i, other);
    case Batch(i) =>
      var s := q.batch[i];
      var rest := Remove(q.batch, i);
      OfSplit(q.batch, i, other);
      OfRemove(q.batch, i, other);
      OfFront(s, rest, other);
      if other == s.so {
        OfNone(q.batch[..i], other);
        OfNone(q.batch[i + 1..], other);
      }
  }

  lemma DowngradeFast(q: Queues, i: nat, other: Socket?)
    requires i == |q.fast| - 1
    requires forall j :: 0 <= j < |q.batch| ==> q.batch[j].so != q.fast[i].so
    ensures Pending(Downgrade(q, Fast(i)), other) == Pending(q, other)
  {
    hide Of;
    var s := q.fast[i];
    assert q.fast == Remove(q.fast, i) + [s];
    OfPush(Remove(q.fast, i), s, other);
    OfFront(s, q.batch, other);
  }

  lemma OfFront(s: Session, ss: seq<Session>, so: Socket?)
    ensures Of([s] + ss, so) == Own(s, so) + Of(ss, so)
  {
    assert ([s] + ss)[1..] == ss;
  }

  function LastPacket(s: Session): Mbuf
    requires s.packets != []
  {
    s.packets[|s.packets| - 1]
  }

  lemma PutOk(q: Queues, so: Socket?, lowDelay: bool, m: Mbuf)
    requires Ok(q)
    ensures var (q1, p) := Put(q, so, lowDelay, m);
            && Ok(q1) && q1.row == q.row && q1.next == q.next
            && match p
               case Fast(i) => i == |q1.fast| - 1 && q1.fast[i].so == so && LastPacket(q1.fast[i]) == m
                 && forall j :: 0 <= j < |q1.batch| ==> q1.batch[j].so != so
               case Batch(i) => q1.batch[i].so == so && LastPacket(q1.batch[i]) == m
  {}

  /** if_output appends the packet to its session and touches no other, whichever
      queue it picks and whether or not it downgrades the session. */
  lemma EnqueueIsFifo(q: Queues, so: Socket?, lowDelay: bool, m: Mbuf, other: Socket?)
    requires Ok(q)
    ensures Ok(Enqueue(q, so, lowDelay, m))
    ensures Pending(Enqueue(q, so, lowDelay, m), other) ==
            Pending(q, other) + (if other == so then [m] else [])
  {
    hide Pending, Of, Put, Downgrade, Greedy, NoneEmpty;
    var (q1, p) := Put(q, so, lowDelay, m);
    PutOk(q, so, lowDelay, m);
    PutPending(q, so, lowDelay, m, other);
    if so != null {
      var row := Row(q, so) + 1;
      var q2 := q1.(row := q.row[so := row]);
      if Greedy(row, |Pending(q, so)| + 1) {
        DowngradePending(q2, p, other);
        DowngradeOk(q2, p);
        SamePending(q1, q2, other);
      } else {
        SamePending(q1, q2, other);
      }
    }
  }

  lemma SamePending(q: Queues, q': Queues, so: Socket?)
    requires q'.fast == q.fast && q'.batch == q.batch
    ensures Pending(q', so) == Pending(q, so)
  {}

  lemma DowngradeOk(q: Queues, p: Place)
    requires Ok(q)
    requires match p case Fast(i) => i < |q.fast| case Batch(i) => i < |q.batch|
    requires match p case Fast(i) => (forall j :: 0 <= j < |q.batch| ==> q.batch[j].so != q.fast[i].so)
             case Batch(i) => true
    ensures Ok(Downgrade(q, p))
  {}

  function LastOf(ss: seq<Session>): Session
    requires ss != []
  {
    ss[|ss| - 1]
  }

  ghost predicate InBatch(q: Queues, so: Socket?) {
    exists i :: 0 <= i < |q.batch| && q.batch[i].so == so
  }

  /** The last packet of the session `s` of `so` is `m`. */
  predicate EndsIn(s: Session, so: Socket?, m: Mbuf) {
    s.so == so && s.packets != [] && s.packets[|s.packets| - 1] == m
  }

  /** The sessions of a queue keep their places, but for new ones behind them. */
  ghost predicate PlacesKept(ss: seq<Session>, t: seq<Session>) {
    |t| >= |ss| && forall i :: 0 <= i < |ss| ==> t[i].so == ss[i].so
  }

  lemma PutPlace(q: Queues, so: Socket?, low: bool, m: Mbuf)
    requires Ok(q)
    ensures var (q1, p) := Put(q, so, low, m);
            && (p.Fast? <==> !InBatch(q, so) && so != null && low)
            && (if p.Fast? then q1.batch == q.batch else q1.fast == q.fast)
            && PlacesKept(q.batch, q1.batch) && PlacesKept(q.fast, q1.fast)
            && (p.Fast? ==> PlacesKept(q1.fast[..p.at], q.fast))
            && (p.Fast? ==> |q1.fast| == if q.fast != [] && LastOf(q.fast).so == so then |q.fast| else |q.fast| + 1)
            && (p.Batch? && !InBatch(q, so) ==> p.at == |q.batch| && |q1.batch| == |q.batch| + 1)
  {
    hide Of;
    if Find(q.batch, so) >= 0 { assert q.batch[Find(q.batch, so)].so == so; }
  }

  /** The session whose turn it is stays in its turn. */
  lemma DowngradePlace(q: Queues, p: Place)
    requires match p case Fast(i) => i < |q.fast| case Batch(i) => i < |q.batch|
    ensures var q' := Downgrade(q, p);
            && q'.batch != [] && q'.batch[0] == (match p case Fast(i) => q.fast[i] case Batch(i) => q.batch[i])
            && (p.Batch? ==> q'.fast == q.fast)
            && (p.Fast? && p.at == |q.fast| - 1 ==> q'.fast == q.fast[..p.at])
            && (0 <= q.next < |q.batch| ==> 0 <= q'.next < |q'.batch| && q'.batch[q'.next] == q.batch[q.next])
  {}

  lemma GreedyIff(q: Queues, so: Socket?)
    ensures so != null ==> (Greedy(Row(q, so) + 1, |Pending(q, so)| + 1) <==>
                            Row(q, so) + 1 >= 6 && Row(q, so) - |Pending(q, so)| >= 3)
  {
    hide Row, Pending;
  }

  /** Which queue a packet ends up in.  Unless it is the sixth in a row, or a later one, and three of them
      have been sent, no session is moved: an interactive packet joins the end of the fast queue, if
      its session has nothing in the batch queue, in its own session if that is the last one there, and
      another one without a session in the batch queue joins the end of that.  A session that is moved,
      from whatever queue, comes first in the batch queue.  Round robin goes on at the session whose
      turn it was. */
  lemma EnqueuePlace(q: Queues, so: Socket?, low: bool, m: Mbuf)
    requires Ok(q)
    ensures var q' := Enqueue(q, so, low, m);
            var moved := so != null && Row(q, so) + 1 >= 6 && Row(q, so) - |Pending(q, so)| >= 3;
            && (InBatch(q, so) || so == null || !low ==> q'.fast == q.fast)
            && (moved ==> q'.batch != [] && EndsIn(q'.batch[0], so, m) && PlacesKept(q'.fast, q.fast))
            && (!moved ==>
                 q'.next == q.next && PlacesKept(q.fast, q'.fast) && PlacesKept(q.batch, q'.batch))
            && (!moved && !InBatch(q, so) && so != null && low ==>
                 q'.batch == q.batch && q'.fast != [] && EndsIn(LastOf(q'.fast), so, m)
                 && |q'.fast| == if q.fast != [] && LastOf(q.fast).so == so then |q.fast| else |q.fast| + 1)
            && (!moved && !InBatch(q, so) && (so == null || !low) ==>
                 |q'.batch| == |q.batch| + 1 && EndsIn(LastOf(q'.batch), so, m))
            && (q.next >= 0 ==> 0 <= q'.next < |q'.batch| && q'.batch[q'.next].so == q.batch[q.next].so)
  {
    hide Of, Pending, Row, Greedy, DistinctSockets, Put, Downgrade, Enqueue;
    GreedyIff(q, so);
    EnqueueRow(q, so, low, m);
    PutOk(q, so, low, m);
    PutPlace(q, so, low, m);
    if so != null && Greedy(Row(q, so) + 1, |Pending(q, so)| + 1) {
      var (q1, p) := Put(q, so, low, m);
      EnqueueGreedy(q, so, low, m);
      DowngradePlace(q1.(row := q.row[so := Row(q, so) + 1]), p);
    }
  }

  lemma ServeOf(ss: seq<Session>, i: nat, so: Socket?)
    requires i < |ss| && ss[i].packets != []
    requires forall j :: 0 <= j < i ==> ss[j].so != ss[i].so
    ensures if so == ss[i].so then Of(ss, so) == [ss[i].packets[0]] + Of(Serve(ss, i), so)
            else Of(ss, so) == Of(Serve(ss, i), so)
  {
    hide Of;
    var s := ss[i];
    var rest := Session(s.so, s.packets[1..]);
    OfSplit(ss, i, so);
    if |s.packets| == 1 {
      OfRemove(ss, i, so);
    } else {
      OfReplace(ss, i, rest, so);
    }
    if so == s.so {
      OfNone(ss[..i], so);
      assert s.packets == [s.packets[0]] + s.packets[1..];
      var b := Of(ss[i + 1..], so);
      assert [s.packets[0]] + (s.packets[1..] + b) == s.packets + b;
    }
  }

  /** if_start takes the oldest packet of some session and touches no other; the
      batch queue waits until the fast queue is empty. */
  lemma SendIsFifo(q: Queues, other: Socket?)
    requires Ok(q) && Count(q) > 0
    ensures if other == Chosen(q).so then Pending(q, other) == [Send(q).1] + Pending(Send(q).0, other)
            else Pending(Send(q).0, other) == Pending(q, other)
    ensures q.fast != [] ==> Send(q).0.batch == q.batch && Send(q).0.next == q.next
  {
    hide Of;
    if q.fast != [] {
      ServeOf(q.fast, 0, other);
      if other == q.fast[0].so {
        assert [Send(q).1] + (Of(Serve(q.fast, 0), other) + Of(q.batch, other)) ==
               Of(q.fast, other) + Of(q.batch, other);
      }
    } else {
      NonEmptyBatch(q);
      ServeOf(q.batch, Turn(q), other);
      OfNone(q.fast, other);
    }
  }

  lemma ServeKeeps(ss: seq<Session>, i: nat)
    requires i < |ss| && NoneEmpty(ss)
    ensures NoneEmpty(Serve(ss, i)) && (DistinctSockets(ss) ==> DistinctSockets(Serve(ss, i)))
  {}

  lemma SendOk(q: Queues)
    requires Ok(q) && Count(q) > 0
    ensures Ok(Send(q).0) && Count(Send(q).0) == Count(q) - 1
  {
    if q.fast != [] {
      ServeKeeps(q.fast, 0);
      FlattenServe(q.fast, 0);
    } else {
      NonEmptyBatch(q);
      ServeKeeps(q.batch, Turn(q));
      FlattenServe(q.batch, Turn(q));
    }
  }

  lemma {:induction false} FlattenAppend(a: seq<Session>, b: seq<Session>)
    ensures Flatten(a + b) == Flatten(a) + Flatten(b)
  {
    EmptyAppend(b);
    EmptyAppend(Flatten(b));
    if a != [] {
      FlattenAppend(a[1..], b);
      ConsAppend(a, b);
      Assoc(a[0].packets, Flatten(a[1..]), Flatten(b));
    }
  }

  lemma FlattenSplit(ss: seq<Session>, i: nat)
    requires i < |ss|
    ensures Flatten(ss) == Flatten(ss[..i]) + ss[i].packets + Flatten(ss[i + 1..])
  {
    assert ss == ss[..i] + ss[i..];
    FlattenAppend(ss[..i], ss[i..]);
  }

  lemma FlattenServe(ss: seq<Session>, i: nat)
    requires i < |ss| && ss[i].packets != []
    ensures |Flatten(Serve(ss, i))| == |Flatten(ss)| - 1
    ensures i == 0 ==> Flatten(ss) == [ss[0].packets[0]] + Flatten(Serve(ss, 0))
  {
    hide Flatten;
    FlattenSplit(ss, i);
    FlattenAppend([], []);
    var s := ss[i];
    assert s.packets == [s.packets[0]] + s.packets[1..];
    assert ss[..0] == [];
    if |s.packets| == 1 {
      FlattenAppend(ss[..i], ss[i + 1..]);
      FlattenNil();
    } else {
      var t := Serve(ss, i);
      FlattenSplit(t, i);
      FlattenNil();
      assert t[..i] == ss[..i] && t[i + 1..] == ss[i + 1..];
    }
  }

  lemma FlattenNil()
    ensures Flatten([]) == []
  {}

  // ----- the order of output -----

  /** The first elements of all rows. */
  function Heads<T>(rows: seq<seq<T>>): (r: seq<T>)
    requires forall i :: 0 <= i < |rows| ==> rows[i] != []
    ensures |r| == |rows|
  {
    if rows == [] then [] else [rows[0][0]] + Heads(rows[1..])
  }

  /** A row without its first element, unless nothing is left of it. */
  function Tail<T>(row: seq<T>): seq<seq<T>>
    requires row != []
  {
    if |row| == 1 then [] else [row[1..]]
  }

  function Tails<T>(rows: seq<seq<T>>): (r: seq<seq<T>>)
    requires forall i :: 0 <= i < |rows| ==> rows[i] != []
    ensures forall i :: 0 <= i < |r| ==> r[i] != []
  {
    if rows == [] then [] else Tail(rows[0]) + Tails(rows[1..])
  }

  function Total<T>(rows: seq<seq<T>>): nat {
    if rows == [] then 0 else |rows[0]| + Total(rows[1..])
  }

  lemma {:induction false} TotalAppend<T>(a: seq<seq<T>>, b: seq<seq<T>>)
    ensures Total(a + b) == Total(a) + Total(b)
  {
    if a == [] {
      assert a + b == b;
    } else {
      TotalAppend(a[1..], b);
      assert (a + b)[1..] == a[1..] + b;
    }
  }

  lemma {:induction false} TotalTails<T>(rows: seq<seq<T>>)
    requires forall i :: 0 <= i < |rows| ==> rows[i] != []
    ensures Total(Tails(rows)) == Total(rows) - |rows|
  {
    if rows != [] {
      TotalTails(rows[1..]);
      TotalAppend(Tail(rows[0]), Tails(rows[1..]));
      if |rows[0]| > 1 { assert Tail(rows[0])[1..] == []; }
    }
  }

  /** The fair order: one packet of every session per round, until all are gone. */
  function Columns<T>(rows: seq<seq<T>>): seq<T>
    requires forall i :: 0 <= i < |rows| ==> rows[i] != []
    decreases Total(rows)
  {
    TotalTails(rows);
    if rows == [] then [] else Heads(rows) + Columns(Tails(rows))
  }

  /** One packet of the first row, which then goes to the end. */
  function Rotate<T>(rows: seq<seq<T>>): (r: seq<seq<T>>)
    requires rows != [] && forall i :: 0 <= i < |rows| ==> rows[i] != []
    ensures forall i :: 0 <= i < |r| ==> r[i] != []
  {
    rows[1..] + Tail(rows[0])
  }

  lemma TotalRotate<T>(rows: seq<seq<T>>)
    requires rows != [] && forall i :: 0 <= i < |rows| ==> rows[i] != []
    ensures Total(Rotate(rows)) == Total(rows) - 1
  {
    TotalAppend(rows[1..], Tail(rows[0]));
    if |rows[0]| > 1 { assert Tail(rows[0])[1..] == []; }
  }

  function RoundRobin<T>(rows: seq<seq<T>>): seq<T>
    requires forall i :: 0 <= i < |rows| ==> rows[i] != []
    decreases Total(rows)
  {
    if rows == [] then []
    else
      TotalRotate(rows);
      [rows[0][0]] + RoundRobin(Rotate(rows))
  }

  /** A pass over `rows` sends their heads and leaves their tails behind `done`. */
  lemma {:induction false} OnePass<T>(rows: seq<seq<T>>, done: seq<seq<T>>)
    requires forall i :: 0 <= i < |rows| ==> rows[i] != []
    requires forall i :: 0 <= i < |done| ==> done[i] != []
    ensures RoundRobin(rows + done) == Heads(rows) + RoundRobin(done + Tails(rows))
    decreases |rows|
  {
    EmptyAppend(done);
    if rows == [] {
      EmptyAppend(RoundRobin(done));
    } else {
      var all, x, next := rows + done, [rows[0][0]], done + Tail(rows[0]);
      ConsAppend(rows, done);
      Assoc(rows[1..], done, Tail(rows[0]));
      OnePass(rows[1..], next);
      Assoc(done, Tail(rows[0]), Tails(rows[1..]));
      Assoc(x, Heads(rows[1..]), RoundRobin(next + Tails(rows[1..])));
    }
  }

  lemma {:induction false} RoundRobinIsFair<T>(rows: seq<seq<T>>)
    requires forall i :: 0 <= i < |rows| ==> rows[i] != []
    ensures RoundRobin(rows) == Columns(rows)
    decreases Total(rows)
  {
    if rows != [] {
      OnePass(rows, []);
      assert rows + [] == rows && [] + Tails(rows) == Tails(rows);
      TotalTails(rows);
      RoundRobinIsFair(Tails(rows));
    }
  }

  lemma ColumnsStep<T>(rows: seq<seq<T>>)
    requires rows != [] && forall i :: 0 <= i < |rows| ==> rows[i] != []
    ensures Columns(rows) == [rows[0][0]] + Columns(Rotate(rows))
  {
    RoundRobinIsFair(rows);
    RoundRobinIsFair(Rotate(rows));
  }

  /** The packets of each session. */
  function Rows(ss: seq<Session>): (r: seq<seq<Mbuf>>)
    requires NoneEmpty(ss)
    ensures |r| == |ss| && forall i :: 0 <= i < |r| ==> r[i] == ss[i].packets != []
  {
    seq(|ss|, i requires 0 <= i < |ss| => ss[i].packets)
  }

  /** The batch sessions in the order of their turns. */
  function Turns(q: Queues): (r: seq<Session>)
    requires Ok(q)
    ensures NoneEmpty(r)
  {
    q.batch[Turn(q)..] + q.batch[..Turn(q)]
  }

  /** The order in which everything now waiting leaves if nothing else arrives: the
      fast queue first come first served, then the batch sessions, one packet each
      per round, beginning where round robin stopped. */
  function Order(q: Queues): seq<Mbuf>
    requires Ok(q)
  {
    Flatten(q.fast) + Columns(Rows(Turns(q)))
  }

  /** The batch queue after a packet of its session `k`: `rest` is what the session
      keeps. */
  lemma BatchAfterSend(q: Queues, a: seq<Session>, rest: seq<Session>, b: seq<Session>)
    requires Ok(q) && q.fast == [] && Count(q) > 0 && Turn(q) < |q.batch|
    requires a == q.batch[..Turn(q)] && b == q.batch[Turn(q) + 1..]
    requires var s := q.batch[Turn(q)];
             rest == if |s.packets| == 1 then [] else [Session(s.so, s.packets[1..])]
    ensures Send(q).0.batch == a + rest + b
    ensures Send(q).0.next == if b == [] then -1 else |a + rest|
  {
    hide Flatten, Of;
  }

  lemma TurnsAfterSend(q: Queues)
    requires Ok(q) && q.fast == [] && Count(q) > 0
    ensures Ok(Send(q).0) && Turns(q) != []
    ensures Rows(Turns(Send(q).0)) == Rotate(Rows(Turns(q)))
  {
    hide Flatten, Of, Send, Turns, Rows, Rotate, DistinctSockets;
    SendOk(q);
    NonEmptyBatch(q);
    var k, s := Turn(q), q.batch[Turn(q)];
    var a, b := q.batch[..k], q.batch[k + 1..];
    var rest := if |s.packets| == 1 then [] else [Session(s.so, s.packets[1..])];
    BatchAfterSend(q, a, rest, b);
    TurnsAre(Send(q).0, a, rest, b);
    TurnsFrom(q, a, s, b);
    RowsRotate(s, b + a, rest);
  }

  lemma TurnsFrom(q: Queues, a: seq<Session>, s: Session, b: seq<Session>)
    requires Ok(q) && q.batch == a + [s] + b && Turn(q) == |a|
    ensures Turns(q) == [s] + (b + a)
  {}

  lemma TurnsAre(q: Queues, a: seq<Session>, rest: seq<Session>, b: seq<Session>)
    requires Ok(q) && q.batch == a + rest + b
    requires q.next == if b == [] then -1 else |a + rest|
    ensures Turns(q) == (b + a) + rest
  {
    assert q.batch[|a + rest|..] == b && q.batch[..|a + rest|] == a + rest;
    if b == [] { assert q.batch[0..] == a + rest && q.batch[..0] == []; }
  }

  lemma RowsRotate(s: Session, others: seq<Session>, rest: seq<Session>)
    requires s.packets != [] && NoneEmpty(others)
    requires rest == if |s.packets| == 1 then [] else [Session(s.so, s.packets[1..])]
    ensures NoneEmpty([s] + others) && NoneEmpty(others + rest)
    ensures Rows(others + rest) == Rotate(Rows([s] + others))
  {}

  /** if_start sends the first packet of the order and keeps the rest of it. */
  lemma OrderStep(q: Queues)
    requires Ok(q) && Count(q) > 0
    ensures Ok(Send(q).0) && Order(q) == [Send(q).1] + Order(Send(q).0)
  {
    hide Ok, Count, Flatten, Send, Turns, Columns, Rows;
    SendOk(q);
    if q.fast != [] {
      OrderFastStep(q);
    } else {
      OrderBatchStep(q);
    }
  }

  lemma OrderFastStep(q: Queues)
    requires Ok(q) && q.fast != [] && Count(q) > 0
    ensures Ok(Send(q).0) && Turns(Send(q).0) == Turns(q)
    ensures Flatten(q.fast) == [Send(q).1] + Flatten(Send(q).0.fast)
  {
    hide Of, Flatten;
    SendOk(q);
    FlattenServe(q.fast, 0);
    assert q.fast[..0] == [];
    FlattenNil();
  }

  lemma OrderBatchStep(q: Queues)
    requires Ok(q) && q.fast == [] && Count(q) > 0
    ensures Ok(Send(q).0) && Order(q) == [Send(q).1] + Order(Send(q).0)
  {
    hide Ok, Count, Flatten, Send, Turns, Columns, Rotate;
    TurnsAfterSend(q);
    BatchFirst(q);
    ColumnsStep(Rows(Turns(q)));
    FlattenNil();
  }

  lemma BatchFirst(q: Queues)
    requires Ok(q) && q.fast == [] && Count(q) > 0
    ensures Send(q).0.fast == [] && Turns(q) != [] && Turns(q)[0].packets != [] && Turns(q)[0].packets[0] == Send(q).1
  {
    hide Of, Flatten;
    NonEmptyBatch(q);
    assert q.batch[Turn(q)..][0] == q.batch[Turn(q)];
  }

  /** A packet on its way, with the session it belongs to. */
  datatype Sent = Sent(so: Socket?, m: Mbuf)

  function Packets(sent: seq<Sent>): seq<Mbuf> {
    seq(|sent|, i requires 0 <= i < |sent| => sent[i].m)
  }

  /** One call of if_start when the link takes `budget` packets. */
  function Start(q: Queues, budget: nat): (r: (Queues, seq<Sent>))
    requires Ok(q)
    ensures Ok(r.0)
    decreases budget
  {
    if Count(q) == 0 || budget == 0 then (q, [])
    else
      SendOk(q);
      var (q', m) := Send(q);
      var (q'', rest) := Start(q', budget - 1);
      (q'', [Sent(Chosen(q).so, m)] + rest)
  }

  lemma {:induction false} OrderLength(q: Queues)
    requires Ok(q)
    ensures |Order(q)| == Count(q)
    decreases Count(q)
  {
    if Count(q) > 0 {
      OrderStep(q);
      SendOk(q);
      OrderLength(Send(q).0);
    } else {
      AllEmpty(q);
    }
  }

  lemma AllEmpty(q: Queues)
    requires Ok(q) && Count(q) == 0
    ensures q.fast == [] && q.batch == [] && Order(q) == []
  {}

  /** if_start sends the first packets of the order, as many as the link takes; with
      an unlimited link it empties both queues. */
  lemma {:induction false} StartFollowsOrder(q: Queues, budget: nat)
    requires Ok(q)
    ensures var (q', sent) := Start(q, budget);
            && |sent| == (if budget < Count(q) then budget else Count(q))
            && Order(q) == Packets(sent) + Order(q')
            && Count(q') == Count(q) - |sent|
    decreases budget
  {
    hide Order, Send, Chosen, Flatten, Start, Ok;
    var (q', sent) := Start(q, budget);
    if Count(q) == 0 || budget == 0 {
      StartDone(q, budget);
      assert Packets(sent) == [];
    } else {
      OrderStep(q);
      SendOk(q);
      StartUnfold(q, budget);
      var (q1, m) := Send(q);
      StartFollowsOrder(q1, budget - 1);
      PacketsCons(Sent(Chosen(q).so, m), Start(q1, budget - 1).1, Order(q'));
    }
  }

  lemma PacketsCons(s: Sent, rest: seq<Sent>, last: seq<Mbuf>)
    ensures Packets([s] + rest) + last == [s.m] + (Packets(rest) + last)
  {}

  lemma StartDone(q: Queues, budget: nat)
    requires Ok(q) && (Count(q) == 0 || budget == 0)
    ensures Start(q, budget) == (q, [])
  {}

  lemma StartUnfold(q: Queues, budget: nat)
    requires Ok(q) && Count(q) > 0 && budget > 0
    ensures Ok(Send(q).0)
    ensures var (q', rest) := Start(Send(q).0, budget - 1);
            Start(q, budget) == (q', [Sent(Chosen(q).so, Send(q).1)] + rest)
  {
    SendOk(q);
  }

  // ----- whole runs -----

  /** A call of if_output followed by the output it starts, or output started by the
      main loop. */
  datatype Op = Output(so: Socket?, lowDelay: bool, m: Mbuf, budget: nat) | Resume(budget: nat)

  function Step(q: Queues, op: Op): (r: (Queues, seq<Sent>))
    requires Ok(q)
    ensures Ok(r.0)
  {
    match op
    case Output(so, lowDelay, m, budget) =>
      EnqueueIsFifo(q, so, lowDelay, m, so);
      Start(Enqueue(q, so, lowDelay, m), budget)
    case Resume(budget) => Start(q, budget)
  }

  function Run(q: Queues, ops: seq<Op>): (r: (Queues, seq<Sent>))
    requires Ok(q)
    ensures Ok(r.0)
    decreases |ops|
  {
    if ops == [] then (q, [])
    else
      var (q1, sent) := Step(q, ops[0]);
      var (q2, rest) := Run(q1, ops[1..]);
      (q2, sent + rest)
  }

  /** The packets of `so` handed to if_output, in order. */
  function Accepted(ops: seq<Op>, so: Socket?): seq<Mbuf> {
    if ops == [] then []
    else (if ops[0].Output? && ops[0].so == so then [ops[0].m] else []) + Accepted(ops[1..], so)
  }

  /** The packets of `so` among those sent, in order. */
  function SentOf(sent: seq<Sent>, so: Socket?): seq<Mbuf> {
    if sent == [] then []
    else (if sent[0].so == so then [sent[0].m] else []) + SentOf(sent[1..], so)
  }

  lemma {:induction false} SentOfAppend(a: seq<Sent>, b: seq<Sent>, so: Socket?)
    ensures SentOf(a + b, so) == SentOf(a, so) + SentOf(b, so)
  {
    EmptyAppend(b);
    EmptyAppend(SentOf(b, so));
    if a != [] {
      SentOfAppend(a[1..], b, so);
      ConsAppend(a, b);
      Assoc(if a[0].so == so then [a[0].m] else [], SentOf(a[1..], so), SentOf(b, so));
    }
  }

  lemma {:induction false} StartKeepsSession(q: Queues, budget: nat, so: Socket?)
    requires Ok(q)
    ensures Pending(q, so) == SentOf(Start(q, budget).1, so) + Pending(Start(q, budget).0, so)
    decreases budget
  {
    hide Pending, Ok, SentOf, Send, Chosen, Start, Flatten;
    if Count(q) != 0 && budget != 0 {
      SendOk(q);
      SendIsFifo(q, so);
      StartUnfold(q, budget);
      var q1 := Send(q).0;
      StartKeepsSession(q1, budget - 1, so);
      var (q', rest) := Start(q1, budget - 1);
      var s := Sent(Chosen(q).so, Send(q).1);
      SentOfCons(s, rest, so);
      Assoc(SentOf([s], so), SentOf(rest, so), Pending(q', so));
    } else {
      StartDone(q, budget);
      SentOfNone(so);
      EmptyAppend(Pending(q, so));
    }
  }

  lemma SentOfNone(so: Socket?)
    ensures SentOf([], so) == []
  {}

  lemma SentOfCons(s: Sent, rest: seq<Sent>, so: Socket?)
    ensures SentOf([s], so) == if s.so == so then [s.m] else []
    ensures SentOf([s] + rest, so) == SentOf([s], so) + SentOf(rest, so)
  {
    SentOfAppend([s], rest, so);
    assert [s][1..] == [];
  }

  /** Conservation and order over any run: for every session, what was handed in is
      what was sent followed by what is still waiting, in the same order, whatever
      the queues its packets went through. */
  lemma {:induction false} RunIsFifo(q: Queues, ops: seq<Op>, so: Socket?)
    requires Ok(q)
    ensures var (q', sent) := Run(q, ops);
            Pending(q, so) + Accepted(ops, so) == SentOf(sent, so) + Pending(q', so)
    decreases |ops|
  {
    if ops == [] {
      assert Accepted(ops, so) == [];
    } else {
      var (q1, sent) := Step(q, ops[0]);
      var (q2, rest) := Run(q1, ops[1..]);
      RunIsFifo(q1, ops[1..], so);
      SentOfAppend(sent, rest, so);
      StepKeepsSession(q, ops[0], so);
      hide Pending, SentOf, Accepted;
      RunGlue(Pending(q, so), Accepted([ops[0]], so), SentOf(sent, so), Pending(q1, so),
              Accepted(ops[1..], so), SentOf(rest, so), Pending(q2, so));
      AcceptedCons(ops, so);
    }
  }

  lemma AcceptedCons(ops: seq<Op>, so: Socket?)
    requires ops != []
    ensures Accepted(ops, so) == Accepted([ops[0]], so) + Accepted(ops[1..], so)
  {
    assert [ops[0]][1..] == [];
  }

  lemma StepKeepsSession(q: Queues, op: Op, so: Socket?)
    requires Ok(q)
    ensures Pending(q, so) + Accepted([op], so) == SentOf(Step(q, op).1, so) + Pending(Step(q, op).0, so)
  {
    assert [op][1..] == [];
    hide Enqueue, Start, Pending, SentOf, Ok;
    match op
    case Output(s, lowDelay, m, budget) =>
      EnqueueIsFifo(q, s, lowDelay, m, so);
      StartKeepsSession(Enqueue(q, s, lowDelay, m), budget, so);
    case Resume(budget) =>
      StartKeepsSession(q, budget, so);
      EmptyAppend(Pending(q, so));
  }

  lemma RunGlue(p: seq<Mbuf>, a: seq<Mbuf>, s: seq<Mbuf>, p1: seq<Mbuf>,
                a': seq<Mbuf>, s': seq<Mbuf>, p2: seq<Mbuf>)
    requires p + a == s + p1 && p1 + a' == s' + p2
    ensures p + (a + a') == (s + s') + p2
  {
    assert p + (a + a') == (p + a) + a' == s + (p1 + a');
  }
}
