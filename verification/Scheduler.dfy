/** The queue of delayed messages: src/network/scheduler.h and src/network/scheduler.cpp. */
module Scheduler {
  import opened Seqs
  import opened Net
  import opened Nodes

  datatype Message = Message(packet: Packet, node: Node, simtime: nat, realtime: nat)

  /** PrioritizeMessages: the later message comes first. */
  predicate Before(x: Message, y: Message) {
    x.simtime > y.simtime || (x.simtime == y.simtime && x.realtime > y.realtime)
  }

  /** Two messages that neither precede each other are one to the queue. */
  predicate SameKey(x: Message, y: Message) {
    x.simtime == y.simtime && x.realtime == y.realtime
  }

  ghost predicate Sorted(q: seq<Message>) {
    forall i, j :: 0 <= i < j < |q| ==> Before(q[i], q[j])
  }

  /** The queue holds a message with the key of `m`. */
  predicate Pending(q: seq<Message>, m: Message) {
    exists i :: 0 <= i < |q| && SameKey(q[i], m)
  }

  /** Insertion into an ordered set. */
  function Insert(q: seq<Message>, m: Message): (r: seq<Message>)
    ensures forall x :: x in r ==> x in q || x == m
  {
    if q == [] then [m]
    else if Before(m, q[0]) then [m] + q
    else if Before(q[0], m) then [q[0]] + Insert(q[1..], m)
    else q
  }

  /** What a barrier at time `t` releases, in the order of release. */
  function Due(q: seq<Message>, t: nat): (r: seq<Message>)
    ensures forall m :: m in r ==> m in q && m.simtime <= t
    ensures forall m :: m in q && m.simtime <= t ==> m in r
  {
    if q == [] then []
    else if t >= q[0].simtime then [q[0]] + Due(q[1..], t)
    else Due(q[1..], t)
  }

  function Later(q: seq<Message>, t: nat): (r: seq<Message>)
    ensures forall m :: m in r ==> m in q && m.simtime > t
    ensures forall m :: m in q && m.simtime > t ==> m in r
    ensures |r| <= |q|
  {
    if q == [] then []
    else if t >= q[0].simtime then Later(q[1..], t)
    else [q[0]] + Later(q[1..], t)
  }

  /** The time of the message at the head of the queue, 0 if there is none. */
  function TopTime(q: seq<Message>): nat { if q == [] then 0 else q[0].simtime }

  // ----- the queue as a set of messages -----

  lemma SortedTail(q: seq<Message>)
    requires Sorted(q) && q != []
    ensures Sorted(q[1..]) && q == [q[0]] + q[1..]
    ensures forall y :: y in q[1..] ==> Before(q[0], y)
  {}

  lemma ConsSorted(x: Message, q: seq<Message>)
    requires Sorted(q) && forall y :: y in q ==> Before(x, y)
    ensures Sorted([x] + q)
  {}

  lemma {:induction false} InsertSorted(q: seq<Message>, m: Message)
    requires Sorted(q)
    ensures Sorted(Insert(q, m))
  {
    if q != [] {
      SortedTail(q);
      if Before(m, q[0]) {
        ConsSorted(m, q);
      } else if Before(q[0], m) {
        InsertSorted(q[1..], m);
        ConsSorted(q[0], Insert(q[1..], m));
      }
    }
  }

  /** Whether `m` has its key in the queue, seen from the head. */
  lemma PendingStep(q: seq<Message>, m: Message)
    requires Sorted(q) && q != []
    ensures Before(m, q[0]) ==> !Pending(q, m)
    ensures Before(q[0], m) ==> (Pending(q, m) <==> Pending(q[1..], m))
    ensures !Before(m, q[0]) && !Before(q[0], m) ==> Pending(q, m)
  {
    if !Before(m, q[0]) && !Before(q[0], m) { assert SameKey(q[0], m); }
    if Before(q[0], m) {
      if i :| 0 <= i < |q| && SameKey(q[i], m) { assert SameKey(q[1..][i - 1], m); }
      if i :| 0 <= i < |q[1..]| && SameKey(q[1..][i], m) { assert SameKey(q[i + 1], m); }
    }
  }

  lemma InsertedElements(q: seq<Message>, rest: seq<Message>, m: Message)
    requires q != [] && multiset(rest) == multiset(q[1..]) + multiset{m}
    ensures multiset([q[0]] + rest) == multiset(q) + multiset{m}
  {
    assert q == [q[0]] + q[1..];
  }

  /** A message is lost exactly if one with the same time and the same arrival stamp
      is already waiting; otherwise it is added and nothing else changes. */
  lemma {:induction false} InsertLosesIff(q: seq<Message>, m: Message)
    requires Sorted(q)
    ensures Pending(q, m) ==> Insert(q, m) == q
    ensures !Pending(q, m) ==> multiset(Insert(q, m)) == multiset(q) + multiset{m}
  {
    hide Before, Pending, Sorted;
    if q == [] {
      NonePending(m);
    } else {
      SortedTail(q);
      PendingStep(q, m);
      if Before(q[0], m) && !Before(m, q[0]) {
        InsertLosesIff(q[1..], m);
        if !Pending(q, m) { InsertedElements(q, Insert(q[1..], m), m); }
      }
    }
  }

  lemma NonePending(m: Message)
    ensures !Pending([], m)
  {}

  /** Nothing is lost or sent twice at a barrier. */
  lemma {:induction false} DueOrLater(q: seq<Message>, t: nat)
    ensures multiset(q) == multiset(Due(q, t)) + multiset(Later(q, t))
    ensures |Due(q, t)| + |Later(q, t)| == |q|
  {
    if q != [] {
      DueOrLater(q[1..], t);
      assert q == [q[0]] + q[1..];
    }
  }

  lemma NoneLater(q: seq<Message>, t: nat)
    requires forall m :: m in q ==> m.simtime <= t
    ensures Later(q, t) == []
  {}

  /** What a barrier sends leaves in the order of the queue: the message due last
      goes first. */
  lemma {:induction false} SplitSorted(q: seq<Message>, t: nat)
    requires Sorted(q)
    ensures Sorted(Due(q, t)) && Sorted(Later(q, t))
    ensures q == Later(q, t) + Due(q, t)
  {
    if q != [] {
      SortedTail(q);
      SplitSorted(q[1..], t);
      var d, l := Due(q[1..], t), Later(q[1..], t);
      hide Sorted;
      Assoc([q[0]], l, d);
      if t >= q[0].simtime {
        NoneLater(q[1..], t);
        ConsSorted(q[0], d);
        EmptyAppend(Due(q, t));
      } else {
        ConsSorted(q[0], l);
      }
    } else {
      EmptyAppend<Message>([]);
    }
  }

  /** The head of the queue is its latest message, not its earliest: it is the
      earliest only if all that wait are due at the same time. */
  lemma TopIsLatest(q: seq<Message>)
    requires Sorted(q) && q != []
    ensures forall m :: m in q ==> m.simtime <= TopTime(q)
    ensures (forall m :: m in q ==> TopTime(q) <= m.simtime) <==>
            (forall m, m' :: m in q && m' in q ==> m.simtime == m'.simtime)
  {}

  lemma {:induction false} DueLaterAppend(a: seq<Message>, m: Message, t: nat)
    ensures Due(a + [m], t) == Due(a, t) + (if t >= m.simtime then [m] else [])
    ensures Later(a + [m], t) == Later(a, t) + (if t >= m.simtime then [] else [m])
  {
    var d, l := if t >= m.simtime then [m] else [], if t >= m.simtime then [] else [m];
    if a == [] {
      assert a + [m] == [m] && [m][1..] == [];
    } else {
      DueLaterAppend(a[1..], m, t);
      ConsAppend(a, [m]);
      Assoc([a[0]], Due(a[1..], t), d);
      Assoc([a[0]], Later(a[1..], t), l);
    }
  }

  // ----- the scheduler -----

  class Scheduler {
    var messages: seq<Message>

    ghost predicate Valid()
      reads this
    {
      Sorted(messages)
    }

    constructor ()
      ensures Valid() && messages == []
    {
      messages := [];
    }

    method Schedule(packet: Packet, node: Node, st: nat, rt: nat)
      requires Valid()
      modifies this
      ensures Valid() && messages == Insert(old(messages), Message(packet, node, st, rt))
    {
      var m := Message(packet, node, st, rt);
      InsertSorted(messages, m);
      messages := Insert(messages, m);
    }

    /** Hands the messages due at `stime` over for sending, in the order of `sent`. */
    method SendPackets(stime: nat) returns (np: nat, tt: nat, sent: seq<Message>)
      requires Valid()
      modifies this
      ensures Valid() && messages == Later(old(messages), stime) && sent == Due(old(messages), stime)
      ensures np == |sent| && tt == TopTime(messages)
    {
      hide Due, Later, Sorted;
      ghost var q := messages;
      ghost var k := 0;
      var i := 0;
      np, sent := 0, [];
      NothingYet(stime);
      while i < |messages|
        invariant 0 <= i <= |messages| && k <= |q| && np == |sent|
        invariant messages[..i] == Later(q[..k], stime) && messages[i..] == q[k..]
        invariant sent == Due(q[..k], stime)
        decreases |messages| - i
      {
        var m := messages[i];
        Next(messages, i, q, k);
        DueLaterAppend(q[..k], m, stime);
        if stime >= m.simtime {
          sent := sent + [m];
          Erased(messages, i);
          messages := messages[..i] + messages[i + 1..];
          np := np + 1;
        } else {
          i := i + 1;
        }
        k := k + 1;
      }
      assert q[..k] == q && messages[..i] == messages;
      SplitSorted(q, stime);
      tt := TopTime(messages);
    }
  }

  lemma NothingYet(t: nat)
    ensures Due([], t) == [] && Later([], t) == []
  {}
}
