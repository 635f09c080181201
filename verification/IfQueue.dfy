/** The linked output queues of src/slirp/if.c, proved to behave like the values of
    module IfQueueModel.  Each queue is a circular list of session heads; each session
    is a circular list of its packets, entered at its head. */
module IfQueue {
  import opened Seqs
  import opened IfQueueModel

  // ----- circular lists -----

  ghost function Succ(i: int, n: int): int { if i + 1 == n then 0 else i + 1 }

  ghost predicate NoDup(r: seq<Mbuf>) {
    forall i, j :: 0 <= i < j < |r| ==> r[i] != r[j]
  }

  ghost predicate Disjoint(r: seq<Mbuf>, s: seq<Mbuf>) {
    forall m :: m in r ==> m !in s
  }

  /** `r` is a ring of session heads. */
  ghost predicate QueueRing(r: seq<Mbuf>)
    reads (set m | m in r)`ifqNext, (set m | m in r)`ifqPrev
  {
    forall i :: 0 <= i < |r| ==> r[i].ifqNext == r[Succ(i, |r|)] && r[Succ(i, |r|)].ifqPrev == r[i]
  }

  /** `r` is a ring of packets. */
  ghost predicate PacketRing(r: seq<Mbuf>)
    reads (set m | m in r)`ifsNext, (set m | m in r)`ifsPrev
  {
    forall i :: 0 <= i < |r| ==> r[i].ifsNext == r[Succ(i, |r|)] && r[Succ(i, |r|)].ifsPrev == r[i]
  }

  /** insque: `a` goes behind `b`, element `k` of ring `r`; ring `other` is not touched. */
  method Insque(a: Mbuf, b: Mbuf, ghost r: seq<Mbuf>, ghost k: nat, ghost other: seq<Mbuf>)
    returns (ghost r': seq<Mbuf>)
    requires k < |r| && r[k] == b && a !in r && NoDup(r) && QueueRing(r)
    requires QueueRing(other) && Disjoint(other, r) && a !in other
    modifies a`ifqNext, a`ifqPrev, b`ifqNext, b.ifqNext`ifqPrev
    ensures r' == r[..k + 1] + [a] + r[k + 1..]
    ensures NoDup(r') && QueueRing(r') && QueueRing(other)
  {
    r' := r[..k + 1] + [a] + r[k + 1..];
    Inserted(r, k, a);
    ghost var n := r[Succ(k, |r|)];
    assert b.ifqNext == n && n in r;
    a.ifqNext := b.ifqNext;
    b.ifqNext := a;
    a.ifqPrev := b;
    assert a.ifqNext == n;
    a.ifqNext.ifqPrev := a;
    forall i | 0 <= i < |r'|
      ensures r'[i].ifqNext == r'[Succ(i, |r'|)] && r'[Succ(i, |r'|)].ifqPrev == r'[i]
    {
      if i != k && i != k + 1 {
        ghost var j := if i < k then i else i - 1;
        assert old(r[j].ifqNext == r[Succ(j, |r|)] && r[Succ(j, |r|)].ifqPrev == r[j]);
        assert r[j] != b && r[Succ(j, |r|)] != n;
      }
    }
    forall i | 0 <= i < |other|
      ensures other[i].ifqNext == other[Succ(i, |other|)] && other[Succ(i, |other|)].ifqPrev == other[i]
    {
      assert other[i] !in r && other[Succ(i, |other|)] !in r;
    }
  }

  lemma Inserted(r: seq<Mbuf>, k: nat, a: Mbuf)
    requires k < |r| && a !in r && NoDup(r)
    ensures var r' := r[..k + 1] + [a] + r[k + 1..];
            && |r'| == |r| + 1 && NoDup(r') && r'[k] == r[k] && r'[k + 1] == a
            && r'[Succ(k + 1, |r'|)] == r[Succ(k, |r|)]
            && forall i :: 0 <= i < |r'| && i != k && i != k + 1 ==>
                 var j := if i < k then i else i - 1;
                 r'[i] == r[j] && r'[Succ(i, |r'|)] == r[Succ(j, |r|)]
  {}

  /** remque: element `k` leaves ring `r`. */
  method Remque(a: Mbuf, ghost r: seq<Mbuf>, ghost k: nat, ghost other: seq<Mbuf>)
    requires 0 < k < |r| && r[k] == a && NoDup(r) && QueueRing(r)
    requires a.ifqPrev != null && a.ifqNext != null
    requires QueueRing(other) && Disjoint(other, r)
    modifies a`ifqPrev, a.ifqPrev`ifqNext, a.ifqNext`ifqPrev
    ensures NoDup(Remove(r, k)) && QueueRing(Remove(r, k)) && QueueRing(other)
  {
    ghost var r' := Remove(r, k);
    Removed(r, k);
    ghost var p, n := r[k - 1], r[Succ(k, |r|)];
    assert a.ifqNext == n && a.ifqPrev == p by { assert Succ(k - 1, |r|) == k; }
    a.ifqNext.ifqPrev := a.ifqPrev;
    a.ifqPrev.ifqNext := a.ifqNext;
    a.ifqPrev := null;
    forall i | 0 <= i < |r'|
      ensures r'[i].ifqNext == r'[Succ(i, |r'|)] && r'[Succ(i, |r'|)].ifqPrev == r'[i]
    {
      if i != k - 1 {
        ghost var j := if i < k - 1 then i else i + 1;
        assert old(r[j].ifqNext == r[Succ(j, |r|)] && r[Succ(j, |r|)].ifqPrev == r[j]);
        assert r[j] != p && r[Succ(j, |r|)] != n && r[Succ(j, |r|)] != a;
      }
    }
    forall i | 0 <= i < |other|
      ensures other[i].ifqNext == other[Succ(i, |other|)] && other[Succ(i, |other|)].ifqPrev == other[i]
    {
      assert other[i] !in r && other[Succ(i, |other|)] !in r;
    }
  }

  lemma Removed(r: seq<Mbuf>, k: nat)
    requires 0 < k < |r| && NoDup(r)
    ensures var r' := Remove(r, k);
            && |r'| == |r| - 1 && NoDup(r') && r'[k - 1] == r[k - 1]
            && r'[Succ(k - 1, |r'|)] == r[Succ(k, |r|)]
            && forall i :: 0 <= i < |r'| && i != k - 1 ==>
                 var j := if i < k - 1 then i else i + 1;
                 r'[i] == r[j] && r'[Succ(i, |r'|)] == r[Succ(j, |r|)]
  {}

  /** ifs_insque at the end of a session: `m` goes behind the last packet. */
  method IfsInsque(m: Mbuf, last: Mbuf, ghost r: seq<Mbuf>)
    requires r != [] && last == r[|r| - 1] && m !in r && NoDup(r) && PacketRing(r)
    modifies m`ifsNext, m`ifsPrev, last`ifsNext, last.ifsNext`ifsPrev
    ensures NoDup(r + [m]) && PacketRing(r + [m])
  {
    ghost var r' := r + [m];
    assert last.ifsNext == r[Succ(|r| - 1, |r|)] == r[0];
    m.ifsNext := last.ifsNext;
    last.ifsNext := m;
    m.ifsPrev := last;
    m.ifsNext.ifsPrev := m;
    forall i | 0 <= i < |r'|
      ensures r'[i].ifsNext == r'[Succ(i, |r'|)] && r'[Succ(i, |r'|)].ifsPrev == r'[i]
    {
      if i < |r| - 1 { assert r'[i] == r[i] && r'[i + 1] == r[i + 1]; }
    }
  }

  /** ifs_remque of the head of a session with more packets. */
  method IfsRemque(m: Mbuf, ghost r: seq<Mbuf>)
    requires |r| > 1 && m == r[0] && NoDup(r) && PacketRing(r)
    requires m.ifsPrev != null && m.ifsNext != null
    modifies m.ifsPrev`ifsNext, m.ifsNext`ifsPrev
    ensures NoDup(r[1..]) && PacketRing(r[1..])
  {
    ghost var r' := r[1..];
    assert m.ifsNext == r[1] && m.ifsPrev == r[|r| - 1] by { assert Succ(|r| - 1, |r|) == 0; }
    m.ifsPrev.ifsNext := m.ifsNext;
    m.ifsNext.ifsPrev := m.ifsPrev;
    forall i | 0 <= i < |r'|
      ensures r'[i].ifsNext == r'[Succ(i, |r'|)] && r'[Succ(i, |r'|)].ifsPrev == r'[i]
    {
      if i < |r'| - 1 { assert r'[i] == r[i + 1] && r'[i + 1] == r[i + 2]; }
    }
  }

  // ----- sessions -----

  /** No packet is in two sessions. */
  ghost predicate Apart(ss: seq<Session>) {
    forall i, j, m :: 0 <= i < j < |ss| && m in ss[i].packets ==> m !in ss[j].packets
  }

  ghost predicate Within(ss: seq<Session>, members: set<Mbuf>) {
    forall i, m :: 0 <= i < |ss| && m in ss[i].packets ==> m in members
  }

  /** The packets of every session form a ring and carry its socket. */
  ghost predicate Linked(ss: seq<Session>, members: set<Mbuf>)
    requires Within(ss, members)
    reads members`ifsNext, members`ifsPrev, members`so
  {
    forall i :: 0 <= i < |ss| ==> LinkedSession(ss[i])
  }

  ghost predicate LinkedSession(s: Session)
    reads (set m | m in s.packets)`ifsNext, (set m | m in s.packets)`ifsPrev, (set m | m in s.packets)`so
  {
    NoDup(s.packets) && PacketRing(s.packets) && forall m :: m in s.packets ==> m.so == s.so
  }

  ghost predicate Sound(ss: seq<Session>, members: set<Mbuf>)
    reads members`ifsNext, members`ifsPrev, members`so
  {
    Within(ss, members) && Linked(ss, members) && Apart(ss)
  }

  /** `r` holds the queue `head` and the heads of its sessions. */
  ghost predicate HeadsOf(r: seq<Mbuf>, head: Mbuf, ss: seq<Session>) {
    && |r| == |ss| + 1 && r[0] == head
    && forall i :: 0 <= i < |ss| ==> ss[i].packets != [] && r[i + 1] == ss[i].packets[0]
  }

  /** `ifm` joins session `i` of `ss`, whose head is `ifq`. */
  method Join(ifm: Mbuf, ifq: Mbuf, so: Socket?, ghost ss: seq<Session>, ghost i: nat, ghost members: set<Mbuf>)
    requires i < |ss| && ss[i].packets != [] && ifq == ss[i].packets[0] && so == ss[i].so
    requires Sound(ss, members) && ifm !in members
    modifies ifm`so, ifm`ifsNext, ifm`ifsPrev, members`ifsPrev, members`ifsNext
    ensures var t := Append(ss, i, ifm); var ms := members + {ifm};
            Sound(t, ms)
  {
    ghost var r := ss[i].packets;
    assert LinkedSession(ss[i]);
    assert r[Succ(|r| - 1, |r|)].ifsPrev == r[|r| - 1];
    assert r[|r| - 1].ifsNext == r[Succ(|r| - 1, |r|)];
    ifm.so := so;
    IfsInsque(ifm, ifq.ifsPrev, r);
    ghost var t := Append(ss, i, ifm);
    forall j | 0 <= j < |t|
      ensures LinkedSession(t[j])
    {
      if j != i {
        assert old(LinkedSession(ss[j]));
      }
    }
  }

  /** A session of new packets can be placed anywhere. */
  lemma InsertSession(a: seq<Session>, b: seq<Session>, s: Session, members: set<Mbuf>)
    requires Sound(a + b, members) && LinkedSession(s)
    requires forall m :: m in s.packets ==> m !in members
    ensures var t := a + [s] + b; var ms := members + (set m | m in s.packets);
            Sound(t, ms)
  {
    var ss, t := a + b, a + [s] + b;
    forall j | 0 <= j < |t|
      ensures LinkedSession(t[j]) && (j != |a| ==> forall m :: m in t[j].packets ==> m in members)
    {
      if j < |a| { assert t[j] == ss[j]; }
      else if j > |a| { assert t[j] == ss[j - 1]; }
    }
    forall j, k, m | 0 <= j < k < |t| && m in t[j].packets
      ensures m !in t[k].packets
    {
      if j != |a| && k != |a| {
        assert t[j] == ss[if j < |a| then j else j - 1] && t[k] == ss[if k < |a| then k else k - 1];
      }
    }
  }

  /** A new session of the packet `ifm`, as the last of the ring `r`, behind `ifq`. */
  method NewSession(ifm: Mbuf, ifq: Mbuf, so: Socket?, ghost r: seq<Mbuf>, ghost other: seq<Mbuf>,
                    ghost a: seq<Session>, ghost b: seq<Session>, ghost members: set<Mbuf>)
    requires r != [] && ifq == r[|r| - 1] && ifm !in r && NoDup(r) && QueueRing(r)
    requires QueueRing(other) && Disjoint(other, r) && ifm !in other
    requires Sound(a + b, members) && ifm !in members
    requires ifq.ifqNext != null
    modifies ifm, ifq`ifqNext, ifq.ifqNext`ifqPrev
    ensures ifm.so == so
    ensures QueueRing(r + [ifm]) && QueueRing(other)
    ensures var t := a + [Session(so, [ifm])] + b; var ms := members + {ifm};
            Sound(t, ms)
  {
    ghost var ss := a + b;
    ifm.so := so;
    ifm.ifsNext, ifm.ifsPrev := ifm, ifm;
    ghost var r' := Insque(ifm, ifq, r, |r| - 1, other);
    assert r' == r + [ifm];
    forall j | 0 <= j < |ss|
      ensures LinkedSession(ss[j])
    {
      assert old(LinkedSession(ss[j]));
    }
    InsertSession(a, b, Session(so, [ifm]), members);
    assert (set m | m in [ifm]) == {ifm};
  }

  /** Session `i` of `batch` moves to the front of it. */
  lemma MoveToFront(fast: seq<Session>, batch: seq<Session>, i: nat, members: set<Mbuf>, t: seq<Session>)
    requires i < |batch| && t == fast + ([batch[i]] + Remove(batch, i))
    requires var ss := fast + batch; Sound(ss, members)
    ensures Sound(t, members)
  {
    var ss, n := fast + batch, |fast|;
    forall x | 0 <= x < |t|
      ensures t[x] == ss[if x < n then x else if x == n then n + i else if x <= n + i then x - 1 else x]
    {}
    forall x, y, m | 0 <= x < y < |t| && m in t[x].packets
      ensures m !in t[y].packets
    {
      var x' := if x < n then x else if x == n then n + i else if x <= n + i then x - 1 else x;
      var y' := if y < n then y else if y == n then n + i else if y <= n + i then y - 1 else y;
      assert x' != y' && t[x] == ss[x'] && t[y] == ss[y'];
    }
  }

  /** Ring `r` with `m` right behind its queue. */
  ghost function ToFront(r: seq<Mbuf>, m: Mbuf): seq<Mbuf>
    requires r != []
  {
    [r[0], m] + r[1..]
  }

  lemma RemoveElements(r: seq<Mbuf>, n: nat)
    requires n < |r| && NoDup(r)
    ensures forall m :: m in Remove(r, n) <==> m in r && m != r[n]
  {
    forall m | m in r && m != r[n]
      ensures m in Remove(r, n)
    {
      var i :| 0 <= i < |r| && r[i] == m;
      assert Remove(r, n)[if i < n then i else i - 1] == m;
    }
  }

  lemma ToFrontElements(r: seq<Mbuf>, m: Mbuf)
    requires r != []
    ensures forall x :: x in ToFront(r, m) <==> x in r || x == m
  {
    assert r == [r[0]] + r[1..];
  }

  /** remque and insque: element `n` of ring `r` goes to the front of ring `s`, or of
      its own ring if `own`. */
  method MoveFront(m: Mbuf, front: Mbuf, ghost r: seq<Mbuf>, ghost n: nat, ghost s: seq<Mbuf>, ghost own: bool)
    returns (ghost r': seq<Mbuf>, ghost s': seq<Mbuf>)
    requires 0 < n < |r| && r[n] == m && s != [] && front == if own then r[0] else s[0]
    requires NoDup(r) && NoDup(s) && QueueRing(r) && QueueRing(s) && Disjoint(r, s) && Disjoint(s, r)
    modifies (set x | x in r + s)`ifqNext, (set x | x in r + s)`ifqPrev
    ensures r' == if own then ToFront(Remove(r, n), m) else Remove(r, n)
    ensures s' == if own then s else ToFront(s, m)
    ensures NoDup(r') && NoDup(s') && QueueRing(r') && QueueRing(s')
  {
    RingBack(r);
    assert m.ifqNext == r[Succ(n, |r|)] && r[n].ifqPrev == r[n - 1];
    RemoveElements(r, n);
    ghost var rest := Remove(r, n);
    Remque(m, r, n, s);
    assert m !in rest && m !in s;
    ghost var moved := InsertFront(m, front, if own then rest else s, if own then s else rest);
    r', s' := if own then moved else rest, if own then s else moved;
  }

  /** insque behind the head `front` of a ring. */
  method InsertFront(m: Mbuf, front: Mbuf, ghost r: seq<Mbuf>, ghost other: seq<Mbuf>)
    returns (ghost r': seq<Mbuf>)
    requires r != [] && front == r[0] && m !in r && m !in other
    requires NoDup(r) && QueueRing(r) && QueueRing(other) && Disjoint(other, r)
    modifies m`ifqNext, m`ifqPrev, (set x | x in r)`ifqNext, (set x | x in r)`ifqPrev
    ensures r' == ToFront(r, m) && NoDup(r') && QueueRing(r') && QueueRing(other)
  {
    assert front.ifqNext == r[Succ(0, |r|)] && front.ifqNext in r;
    AtFront(r, m);
    r' := Insque(m, front, r, 0, other);
  }

  lemma AtFront(r: seq<Mbuf>, m: Mbuf)
    requires r != []
    ensures r[..0 + 1] + [m] + r[0 + 1..] == ToFront(r, m)
  {}

  /** Element `n` of ring `r` leaves the queue; if it is followed by another packet
      in its session, that one takes its place. */
  method LeaveRing(ifm: Mbuf, ghost r: seq<Mbuf>, ghost n: nat, ghost other: seq<Mbuf>) returns (ghost r': seq<Mbuf>)
    requires 0 < n < |r| && r[n] == ifm && NoDup(r) && QueueRing(r)
    requires QueueRing(other) && Disjoint(other, r)
    requires ifm.ifsNext != null && (ifm.ifsNext != ifm ==> ifm.ifsNext !in r && ifm.ifsNext !in other)
    modifies (set m | m in r)`ifqNext, (set m | m in r)`ifqPrev, ifm.ifsNext`ifqNext, ifm.ifsNext`ifqPrev
    ensures r' == if ifm.ifsNext == ifm then Remove(r, n) else r[n := ifm.ifsNext]
    ensures NoDup(r') && QueueRing(r') && QueueRing(other)
  {
    RingBack(r);
    assert ifm.ifqNext == r[Succ(n, |r|)] && r[n].ifqPrev == r[n - 1];
    var ifqt: Mbuf := ifm.ifqPrev;
    Remque(ifm, r, n, other);
    r' := Remove(r, n);
    if ifm.ifsNext != ifm {
      var next: Mbuf := ifm.ifsNext;
      assert r'[n - 1] == ifqt && ifqt.ifqNext == r'[Succ(n - 1, |r'|)];
      InsertRemoved(r, n, next);
      r' := Insque(next, ifqt, r', n - 1, other);
    }
  }

  lemma InsertRemoved(r: seq<Mbuf>, n: nat, m: Mbuf)
    requires 0 < n < |r|
    ensures var r' := Remove(r, n); r'[..n - 1 + 1] + [m] + r'[n - 1 + 1..] == r[n := m]
  {}

  /** The head `ifm` of session `k` leaves its session. */
  method LeaveSession(ifm: Mbuf, ghost ss: seq<Session>, ghost k: nat, ghost members: set<Mbuf>)
    requires k < |ss| && ss[k].packets != [] && ss[k].packets[0] == ifm
    requires Sound(ss, members)
    modifies members`ifsNext, members`ifsPrev
    ensures var t := Serve(ss, k); Sound(t, members)
  {
    ghost var p := ss[k].packets;
    assert LinkedSession(ss[k]);
    HeadLinks(ss[k]);
    if ifm.ifsNext != ifm {
      IfsRemque(ifm, p);
    }
    forall j | 0 <= j < |ss| && j != k
      ensures LinkedSession(ss[j])
    {
      OtherPackets(ss, j, k);
      assert old(LinkedSession(ss[j]));
    }
    ServeLinked(ss, k, members);
  }

  lemma OtherPackets(ss: seq<Session>, j: nat, k: nat)
    requires j < |ss| && k < |ss| && j != k && Apart(ss)
    ensures forall m :: m in ss[j].packets ==> m !in ss[k].packets
  {}

  lemma ServeLinked(ss: seq<Session>, k: nat, members: set<Mbuf>)
    requires k < |ss| && ss[k].packets != [] && Within(ss, members) && Apart(ss)
    requires forall j :: 0 <= j < |ss| && j != k ==> LinkedSession(ss[j])
    requires |ss[k].packets| > 1 ==> LinkedSession(Session(ss[k].so, ss[k].packets[1..]))
    ensures var t := Serve(ss, k); Sound(t, members)
  {
    var t := Serve(ss, k);
    forall j | 0 <= j < |t|
      ensures LinkedSession(t[j]) && forall m :: m in t[j].packets ==> m in members
    {
      ServeAt(ss, k, j);
    }
    ServeApart(ss, k);
  }

  /** The packet that leaves is in no session any more. */
  lemma Gone(ss: seq<Session>, k: nat, members: set<Mbuf>)
    requires k < |ss| && ss[k].packets != []
    requires Sound(ss, members)
    ensures Within(Serve(ss, k), members - {ss[k].packets[0]})
  {
    var t, p := Serve(ss, k), ss[k].packets;
    assert LinkedSession(ss[k]) && p[0] in p;
    forall j, m | 0 <= j < |t| && m in t[j].packets
      ensures m in members - {p[0]}
    {
      ServeAt(ss, k, j);
      if |p| > 1 && j == k {
        assert m in p[1..];
      } else {
        var x := if |p| == 1 && j >= k then j + 1 else j;
        assert m in ss[x].packets && x != k;
      }
    }
  }

  lemma HeadLinks(s: Session)
    requires LinkedSession(s) && s.packets != []
    ensures var p := s.packets;
            && p[0].ifsNext == (if |p| == 1 then p[0] else p[1])
            && p[0].ifsPrev == p[|p| - 1] && p[|p| - 1].ifsNext == p[0]
            && (|p| > 1 ==> p[1] != p[0])
  {
    var p := s.packets;
    assert p[0].ifsNext == p[Succ(0, |p|)];
    assert p[Succ(|p| - 1, |p|)].ifsPrev == p[|p| - 1];
    assert p[|p| - 1].ifsNext == p[Succ(|p| - 1, |p|)];
  }

  lemma ServeAt(ss: seq<Session>, k: nat, j: nat)
    requires k < |ss| && ss[k].packets != [] && j < |Serve(ss, k)|
    ensures Serve(ss, k)[j] ==
            if |ss[k].packets| == 1 then ss[if j < k then j else j + 1]
            else if j == k then Session(ss[k].so, ss[k].packets[1..]) else ss[j]
  {}

  lemma ServeApart(ss: seq<Session>, k: nat)
    requires k < |ss| && ss[k].packets != [] && Apart(ss)
    ensures Apart(Serve(ss, k))
  {
    var t := Serve(ss, k);
    forall x, y, m | 0 <= x < y < |t| && m in t[x].packets
      ensures m !in t[y].packets
    {
      ServeAt(ss, k, x);
      ServeAt(ss, k, y);
      var one := |ss[k].packets| == 1;
      var x' := if one && x >= k then x + 1 else x;
      var y' := if one && y >= k then y + 1 else y;
      assert m in ss[x'].packets && x' < y';
      assert m !in ss[y'].packets;
    }
  }

  /** The search for a session of `so`, backwards from the end of a queue. */
  method SearchBack(head: Mbuf, so: Socket?, ghost ss: seq<Session>, ghost r: seq<Mbuf>)
    returns (ifq: Mbuf, ghost i: int)
    requires HeadsOf(r, head, ss) && QueueRing(r) && NoDup(r)
    requires forall i :: 0 <= i < |ss| ==> r[i + 1].so == ss[i].so
    ensures i == Find(ss, so) < |ss| && ifq == r[Find(ss, so) + 1]
  {
    RingBack(r);
    i := |ss| - 1;
    ifq := head.ifqPrev;
    assert ss[..|ss|] == ss;
    while ifq != head
      invariant -1 <= i < |ss| && ifq == r[i + 1]
      invariant Find(ss[..i + 1], so) == Find(ss, so)
      decreases i
    {
      FindStep(ss, i, so);
      if so == ifq.so {
        return;
      }
      ifq := ifq.ifqPrev;
      i := i - 1;
    }
    FindStep(ss, i, so);
  }

  lemma FindStep(ss: seq<Session>, i: int, so: Socket?)
    requires -1 <= i < |ss|
    ensures Find(ss[..i + 1], so) == if i >= 0 && ss[i].so != so then Find(ss[..i], so) else i
  {
    if i >= 0 { assert ss[..i + 1][..i] == ss[..i]; }
  }

  lemma RingBack(r: seq<Mbuf>)
    requires QueueRing(r) && r != []
    ensures forall i :: 0 < i < |r| ==> r[i].ifqPrev == r[i - 1]
    ensures r[0].ifqPrev == r[|r| - 1] && r[|r| - 1].ifqNext == r[0]
  {
    forall i | 0 <= i < |r|
      ensures r[Succ(i, |r|)].ifqPrev == r[i]
    {}
    forall i | 0 < i < |r|
      ensures r[i].ifqPrev == r[i - 1]
    {
      assert Succ(i - 1, |r|) == i;
    }
    assert Succ(|r| - 1, |r|) == 0;
  }

  // ----- the two queues -----

  /** What the links stand for: the value of the queues, the packets that may be in
      them, and the rings of the fast and the batch queue. */
  datatype View = View(q: Queues, members: set<Mbuf>, fr: seq<Mbuf>, br: seq<Mbuf>)

  class Queue {
    var ifQueued: int
    const fastq: Mbuf
    const batchq: Mbuf
    var nextM: Mbuf
    ghost var view: View

    /** The rings hold the heads of the sessions and nothing else. */
    ghost predicate Rings(v: View) {
      && HeadsOf(v.fr, fastq, v.q.fast) && HeadsOf(v.br, batchq, v.q.batch)
      && NoDup(v.fr) && NoDup(v.br) && Disjoint(v.fr, v.br) && Disjoint(v.br, v.fr)
      && (forall m :: m in v.fr ==> m == fastq || m in v.members)
      && (forall m :: m in v.br ==> m == batchq || m in v.members)
    }

    /** Everything but the links of the two rings. */
    ghost predicate Base(v: View)
      reads this`nextM, {fastq, batchq}`so, v.members`ifsNext, v.members`ifsPrev, v.members`so
    {
      && Ok(v.q) && Rings(v) && Sound(v.q.fast + v.q.batch, v.members)
      && fastq != batchq && fastq !in v.members && batchq !in v.members
      && fastq.so == null && batchq.so == null
      && nextM == (if v.q.next < 0 then batchq else v.br[v.q.next + 1])
    }

    /** What the links must be for the sessions of `v.q`. */
    ghost predicate Shape(v: View)
      reads this`nextM, {fastq, batchq} + v.members
    {
      Base(v) && QueueRing(v.fr) && QueueRing(v.br)
    }

    constructor ()
      ensures Shape(view) && view.q == EMPTY && view.members == {} && ifQueued == 0
      ensures fresh(fastq) && fresh(batchq)
    {
      fastq := new Mbuf();
      batchq := new Mbuf();
      nextM := fastq;
      new;
      ifQueued := 0;
      fastq.ifqNext, fastq.ifqPrev := fastq, fastq;
      batchq.ifqNext, batchq.ifqPrev := batchq, batchq;
      nextM := batchq;
      view := View(EMPTY, {}, [fastq], [batchq]);
      EmptyRings(view);
      AloneInRing(fastq);
      AloneInRing(batchq);
    }

    lemma EmptyRings(v: View)
      requires v == View(EMPTY, {}, [fastq], [batchq]) && fastq != batchq
      ensures Ok(v.q) && Rings(v) && Sound(v.q.fast + v.q.batch, v.members)
    {}

    lemma AloneInRing(m: Mbuf)
      requires m.ifqNext == m && m.ifqPrev == m
      ensures QueueRing([m])
    {
      assert Succ(0, |[m]|) == 0;
    }

    /** A session head carries the socket of its session. */
    lemma HeadSockets(v: View)
      requires Shape(v)
      ensures forall i :: 0 <= i < |v.q.fast| ==> v.fr[i + 1].so == v.q.fast[i].so
      ensures forall i :: 0 <= i < |v.q.batch| ==> v.br[i + 1].so == v.q.batch[i].so
    {
      var ss := v.q.fast + v.q.batch;
      forall i | 0 <= i < |ss|
        ensures ss[i].packets[0].so == ss[i].so
      {
        assert LinkedSession(ss[i]) && ss[i].packets[0] in ss[i].packets;
      }
      assert forall i :: 0 <= i < |v.q.fast| ==> v.q.fast[i] == ss[i];
      assert forall i :: 0 <= i < |v.q.batch| ==> v.q.batch[i] == ss[|v.q.fast| + i];
    }

    /** `ifm` joins session `k`, whose head is `ifq`; `q'` is the outcome. */
    method JoinSession(ifm: Mbuf, ifq: Mbuf, so: Socket?, ghost k: nat, ghost v: View, ghost q': Queues)
      returns (ghost v': View)
      requires Shape(v) && ifm !in v.members && ifm != fastq && ifm != batchq
      requires var ss := v.q.fast + v.q.batch;
               k < |ss| && ss[k].packets != [] && ifq == ss[k].packets[0] && so == ss[k].so
               && |q'.fast| == |v.q.fast| && q'.fast + q'.batch == Append(ss, k, ifm)
      requires Ok(q') && q'.next == v.q.next
      modifies ifm, v.members
      ensures Shape(v') && v' == View(q', v.members + {ifm}, v.fr, v.br)
    {
      ghost var ss := v.q.fast + v.q.batch;
      Join(ifm, ifq, so, ss, k, v.members);
      SameHeads(v.fr, fastq, v.q.fast, v.br, batchq, v.q.batch, q'.fast, q'.batch, k, ifm);
      v' := View(q', v.members + {ifm}, v.fr, v.br);
    }

    /** `ifm` starts a session at the end of the fast queue, behind `ifq`. */
    method StartFast(ifm: Mbuf, ifq: Mbuf, so: Socket?, ghost v: View, ghost q': Queues)
      returns (ghost v': View)
      requires Shape(v) && ifm !in v.members && ifm != fastq && ifm != batchq
      requires ifq == v.fr[|v.q.fast|] && ifq.ifqNext != null
      requires q' == v.q.(fast := v.q.fast + [Session(so, [ifm])])
      modifies ifm, fastq, v.members
      ensures Shape(v') && v' == View(q', v.members + {ifm}, v.fr + [ifm], v.br)
    {
      NewSession(ifm, ifq, so, v.fr, v.br, v.q.fast, v.q.batch, v.members);
      v' := View(q', v.members + {ifm}, v.fr + [ifm], v.br);
    }

    /** `ifm` starts a session at the end of the batch queue, behind `ifq`. */
    method StartBatch(ifm: Mbuf, ifq: Mbuf, so: Socket?, ghost v: View, ghost q': Queues)
      returns (ghost v': View)
      requires Shape(v) && ifm !in v.members && ifm != fastq && ifm != batchq
      requires ifq == v.br[|v.q.batch|] && ifq.ifqNext != null
      requires q' == v.q.(batch := v.q.batch + [Session(so, [ifm])]) && Ok(q')
      modifies ifm, batchq, v.members
      ensures Shape(v') && v' == View(q', v.members + {ifm}, v.fr, v.br + [ifm])
    {
      ghost var ss, s := v.q.fast + v.q.batch, Session(so, [ifm]);
      assert ss + [] == ss;
      NewSession(ifm, ifq, so, v.br, v.fr, ss, [], v.members);
      assert ss + [s] + [] == q'.fast + q'.batch;
      v' := View(q', v.members + {ifm}, v.fr, v.br + [ifm]);
    }

    /** The last entries of both rings. */
    lemma LastEntries(v: View)
      requires Shape(v)
      ensures fastq.ifqPrev == v.fr[|v.q.fast|] && v.fr[|v.q.fast|].ifqNext == fastq
      ensures batchq.ifqPrev == v.br[|v.q.batch|] && v.br[|v.q.batch|].ifqNext == batchq
    {
      RingBack(v.fr);
      RingBack(v.br);
    }

    /** if_output for a session that has no place in the batch queue. */
    method PutNew(so: Socket?, lowDelay: bool, ifm: Mbuf, ghost v: View) returns (ghost v': View)
      requires Shape(v) && ifm !in v.members && ifm != fastq && ifm != batchq
      requires Find(v.q.batch, so) < 0
      modifies ifm, fastq, batchq, v.members
      ensures Shape(v') && v'.q == Put(v.q, so, lowDelay, ifm).0
      ensures v'.members == v.members + {ifm}
    {
      ghost var put := Put(v.q, so, lowDelay, ifm);
      PutOk(v.q, so, lowDelay, ifm);
      LastEntries(v);
      HeadSockets(v);
      if so != null && lowDelay {
        PutJoins(v.q, so, lowDelay, ifm);
        var ifq := fastq.ifqPrev;
        if ifq.so == so {
          v' := JoinSession(ifm, ifq, so, |v.q.fast| - 1, v, put.0);
        } else {
          v' := StartFast(ifm, ifq, so, v, put.0);
        }
      } else {
        var ifq := batchq.ifqPrev;
        v' := StartBatch(ifm, ifq, so, v, put.0);
      }
    }

    /** if_output for a session with a place in the batch queue. */
    method JoinBatch(so: Socket?, lowDelay: bool, ifm: Mbuf, ifq: Mbuf, ghost i: nat, ghost v: View)
      returns (ghost v': View)
      requires Shape(v) && ifm !in v.members && ifm != fastq && ifm != batchq
      requires i == Find(v.q.batch, so) < |v.q.batch| && ifq == v.br[i + 1]
      modifies ifm, v.members
      ensures Shape(v') && v'.q == Put(v.q, so, lowDelay, ifm).0
      ensures v'.members == v.members + {ifm}
    {
      PutOk(v.q, so, lowDelay, ifm);
      PutJoins(v.q, so, lowDelay, ifm);
      v' := JoinSession(ifm, ifq, so, |v.q.fast| + i, v, Put(v.q, so, lowDelay, ifm).0);
    }

    /** The part of if_output that chooses a queue and a session. */
    method PutPacket(so: Socket?, lowDelay: bool, ifm: Mbuf, ghost v: View) returns (ghost v': View)
      requires Shape(v) && ifm !in v.members && ifm != fastq && ifm != batchq
      modifies ifm, fastq, batchq, v.members
      ensures Shape(v') && v'.q == Put(v.q, so, lowDelay, ifm).0
      ensures v'.members == v.members + {ifm}
    {
      HeadSockets(v);
      var ifq;
      ghost var i;
      ifq, i := SearchBack(batchq, so, v.q.batch, v.br);
      if ifq != batchq {
        v' := JoinBatch(so, lowDelay, ifm, ifq, i, v);
      } else {
        v' := PutNew(so, lowDelay, ifm, v);
      }
    }

    /** The downgrade at the end of if_output: the session at `p`, whose last packet is
        `ifm`, goes to the front of the batch queue. */
    method DowngradeSession(ifm: Mbuf, ghost p: Place, ghost v: View) returns (ghost v': View)
      requires Shape(v) && (match p
               case Fast(i) => i == |v.q.fast| - 1 && ifm == LastPacket(v.q.fast[i])
               case Batch(i) => i < |v.q.batch| && ifm == LastPacket(v.q.batch[i]))
      requires Ok(Downgrade(v.q, p))
      modifies fastq, batchq, v.members
      ensures Shape(v') && v'.q == Downgrade(v.q, p) && v'.members == v.members
    {
      LastLink(v, p);
      ghost var own, i := p.Batch?, p.at;
      var head: Mbuf := ifm.ifsNext;
      ghost var r, s := MoveFront(head, batchq, if own then v.br else v.fr, i + 1, if own then v.fr else v.br, own);
      if own {
        v' := View(Downgrade(v.q, p), v.members, s, r);
        BaseOwnFront(v, i, v');
      } else {
        v' := View(Downgrade(v.q, p), v.members, r, s);
        BaseOtherFront(v, i, v');
      }
    }

    lemma BaseOwnFront(v: View, i: nat, v': View)
      requires Base(v) && i < |v.q.batch| && Ok(v'.q) && NoDup(v'.br)
      requires v' == View(Downgrade(v.q, Place.Batch(i)), v.members, v.fr, ToFront(Remove(v.br, i + 1), v.br[i + 1]))
      ensures Base(v')
    {
      FrontHeads(v.br, batchq, v.q.batch, i, v.q.next, v'.q);
      MoveToFront(v.q.fast, v.q.batch, i, v.members, v'.q.fast + v'.q.batch);
    }

    lemma BaseOtherFront(v: View, i: nat, v': View)
      requires Base(v) && i == |v.q.fast| - 1 && Ok(v'.q) && NoDup(v'.fr) && NoDup(v'.br)
      requires v' == View(Downgrade(v.q, Place.Fast(i)), v.members, Remove(v.fr, i + 1), ToFront(v.br, v.fr[i + 1]))
      ensures Base(v')
    {
      RemoveElements(v.fr, i + 1);
      ToFrontElements(v.br, v.fr[i + 1]);
      assert v.q.fast + v.q.batch == v'.q.fast + v'.q.batch;
    }

    /** The last packet of a session leads back to its head. */
    lemma LastLink(v: View, p: Place)
      requires Shape(v)
      requires match p case Fast(i) => i < |v.q.fast| case Batch(i) => i < |v.q.batch|
      ensures match p
              case Fast(i) => LastPacket(v.q.fast[i]).ifsNext == v.fr[i + 1]
              case Batch(i) => LastPacket(v.q.batch[i]).ifsNext == v.br[i + 1]
    {
      var ss := v.q.fast + v.q.batch;
      match p
      case Fast(i) => assert LinkedSession(ss[i]); HeadLinks(ss[i]);
      case Batch(i) => assert LinkedSession(ss[|v.q.fast| + i]); HeadLinks(ss[|v.q.fast| + i]);
    }

    /** Only the first packet of a session is in a queue. */
    lemma SecondPacket(v: View, k: nat)
      requires Shape(v) && k < |v.q.fast + v.q.batch|
      ensures var p := (v.q.fast + v.q.batch)[k].packets;
              && p != [] && LinkedSession((v.q.fast + v.q.batch)[k])
              && (|p| > 1 ==> p[1] !in v.fr && p[1] !in v.br)
              && p[0].ifsNext == (if |p| == 1 then p[0] else p[1])
    {
      var ss := v.q.fast + v.q.batch;
      var p := ss[k].packets;
      assert LinkedSession(ss[k]);
      HeadLinks(ss[k]);
      if |p| > 1 {
        assert p[1] in p;
        forall i | 0 <= i < |ss|
          ensures ss[i].packets != [] && ss[i].packets[0] != p[1]
        {
          assert ss[i].packets[0] in ss[i].packets;
        }
        forall i | 0 <= i < |v.fr|
          ensures v.fr[i] != p[1]
        {
          if i > 0 { assert ss[i - 1] == v.q.fast[i - 1]; }
        }
        forall i | 0 <= i < |v.br|
          ensures v.br[i] != p[1]
        {
          if i > 0 { assert ss[|v.q.fast| + i - 1] == v.q.batch[i - 1]; }
        }
      }
    }

    /** The first packet of the fast queue is taken out. */
    method TakeFast(ifm: Mbuf, ghost v: View, ghost q': Queues) returns (ghost v': View)
      requires Shape(v) && v.q.fast != [] && ifm == v.fr[1]
      requires q'.fast == Serve(v.q.fast, 0) && q'.batch == v.q.batch && q'.next == v.q.next && Ok(q')
      modifies fastq, v.members
      ensures Shape(v') && v'.q == q' && v'.members == v.members - {ifm} && ifm.so == old(ifm.so)
    {
      ServeFront(v.q.fast, v.q.batch);
      SecondPacket(v, 0);
      ghost var r := TakeOut(ifm, fastq, v.fr, v.q.fast, 0, v.br, v.q.fast + v.q.batch, 0, v.members);
      v' := View(q', v.members - {ifm}, r, v.br);
    }

    /** With an empty fast queue the batch sessions are all there are. */
    lemma BatchAlone(v: View, k: nat)
      requires Shape(v) && v.q.fast == [] && k < |v.q.batch|
      ensures Sound(v.q.batch, v.members)
      ensures var p := v.q.batch[k].packets;
              && p != [] && p[0].ifsNext == (if |p| == 1 then p[0] else p[1])
              && (|p| > 1 ==> p[1] !in v.fr && p[1] !in v.br)
    {
      hide *;
      ShapeSound(v);
      AloneWhole(v.q);
      SecondPacket(v, k);
      assert (v.q.fast + v.q.batch)[k] == v.q.batch[k];
    }

    lemma ShapeSound(v: View)
      requires Shape(v)
      ensures Sound(v.q.fast + v.q.batch, v.members)
    {}

    lemma AloneWhole(q: Queues)
      requires q.fast == []
      ensures q.fast + q.batch == q.batch
    {}

    lemma NextInBatch(v: View, k: nat)
      requires Shape(v) && k < |v.q.batch|
      ensures v.br[k + 1].ifqNext == if k + 1 == |v.q.batch| then batchq else v.br[k + 2]
    {
      assert v.br[k + 1].ifqNext == v.br[Succ(k + 1, |v.br|)];
    }

    /** The packet of batch session `k` is taken out; the session behind it is next. */
    method TakeBatch(ifm: Mbuf, ghost k: nat, ghost v: View, ghost q': Queues) returns (ghost v': View)
      requires Shape(v) && v.q.fast == [] && k < |v.q.batch| && ifm == v.br[k + 1]
      requires q'.fast == [] && q'.batch == Serve(v.q.batch, k) && Ok(q')
      requires q'.next == if k + 1 == |v.q.batch| then -1 else if |v.q.batch[k].packets| == 1 then k else k + 1
      modifies this`nextM, batchq, v.members
      ensures Shape(v') && v'.q == q' && v'.members == v.members - {ifm} && ifm.so == old(ifm.so)
    {
      hide *;
      BatchAlone(v, k);
      NextInBatch(v, k);
      BatchParts(v, k);
      nextM := ifm.ifqNext;
      ghost var r := TakeOut(ifm, batchq, v.br, v.q.batch, k, v.fr, v.q.batch, k, v.members);
      v' := View(q', v.members - {ifm}, v.fr, r);
      BatchShape(v, k, v');
    }

    /** What Shape says while the fast queue is empty. */
    lemma BatchParts(v: View, k: nat)
      requires Shape(v) && v.q.fast == [] && k < |v.q.batch|
      ensures v.fr == [fastq] && HeadsOf(v.br, batchq, v.q.batch) && |v.br| == |v.q.batch| + 1
      ensures NoDup(v.br) && QueueRing(v.fr) && QueueRing(v.br) && Disjoint(v.fr, v.br) && Disjoint(v.br, v.fr)
      ensures forall m :: m in v.br ==> m == batchq || m in v.members
      ensures fastq != batchq && fastq !in v.members && batchq !in v.members && fastq.so == null && batchq.so == null
      ensures v.q.batch[k].packets != [] && v.br[k + 1] == v.q.batch[k].packets[0]
    {
      hide NoDup, QueueRing, Disjoint, Sound, DistinctSockets;
      assert v.fr == [fastq];
    }

    lemma BatchShape(v: View, k: nat, v': View)
      requires k < |v.q.batch| && v.q.batch[k].packets != [] && |v.br| == |v.q.batch| + 1
      requires Ok(v'.q) && v'.q.fast == [] && v'.q.batch == Serve(v.q.batch, k)
      requires v'.q.next == if k + 1 == |v.q.batch| then -1 else if |v.q.batch[k].packets| == 1 then k else k + 1
      requires v'.br == if |v.q.batch[k].packets| == 1 then Remove(v.br, k + 1)
               else v.br[k + 1 := v.q.batch[k].packets[1]]
      requires v'.fr == [fastq] && HeadsOf(v'.br, batchq, v'.q.batch)
      requires NoDup(v'.br) && QueueRing(v'.fr) && QueueRing(v'.br) && Disjoint(v'.fr, v'.br) && Disjoint(v'.br, v'.fr)
      requires forall m :: m in v'.br ==> m == batchq || m in v'.members
      requires fastq != batchq && fastq !in v'.members && batchq !in v'.members && fastq.so == null && batchq.so == null
      requires Sound(v'.q.batch, v'.members)
      requires nextM == if k + 1 == |v.q.batch| then batchq else v.br[k + 2]
      ensures Shape(v')
    {
      hide QueueRing, Disjoint, Sound, Ok;
      AloneWhole(v'.q);
    }

    /** The counters agree with what is queued. */
    ghost predicate Counters(v: View)
      reads this`ifQueued, v.q.row.Keys`queued, v.q.row.Keys`nqueued
    {
      && ifQueued == Count(v.q) && Tracked(v.q)
      && forall so :: so in v.q.row ==> so.nqueued == v.q.row[so] && so.queued == |Pending(v.q, so)|
    }

    ghost predicate Valid()
      reads this, {fastq, batchq} + view.members, view.q.row.Keys
    {
      Shape(view) && Counters(view)
    }

    /** The first entries of both rings. */
    lemma FirstEntries(v: View)
      requires Shape(v)
      ensures fastq.ifqNext == if v.q.fast == [] then fastq else v.fr[1]
      ensures batchq.ifqNext == if v.q.batch == [] then batchq else v.br[1]
      ensures v.q.fast != [] ==> v.fr[1] != fastq
    {
      assert v.fr[0].ifqNext == v.fr[Succ(0, |v.fr|)];
      assert v.br[0].ifqNext == v.br[Succ(0, |v.br|)];
    }

    /** The part of the loop of if_start that takes a packet out of the queues. */
    method Dequeue(ghost v: View) returns (ifm: Mbuf, ghost v': View)
      requires Shape(v) && Count(v.q) > 0
      modifies this`nextM, fastq, batchq, v.members
      ensures Shape(v') && (v'.q, ifm) == Send(v.q) && v'.members == v.members - {ifm}
      ensures ifm.so == Chosen(v.q).so
    {
      FirstEntries(v);
      HeadSockets(v);
      SendOk(v.q);
      ghost var q' := Send(v.q).0;
      if fastq.ifqNext != fastq {
        ifm := fastq.ifqNext;
        v' := TakeFast(ifm, v, q');
      } else {
        NonEmptyBatch(v.q);
        if nextM != batchq {
          ifm := nextM;
        } else {
          ifm := batchq.ifqNext;
        }
        v' := TakeBatch(ifm, Turn(v.q), v, q');
      }
    }

    /** The counters after a packet of `so` has been sent. */
    method CountSent(so: Socket?, ghost v: View, ghost v': View)
      requires Ok(v.q) && Count(v.q) > 0 && Counters(v) && v'.q == Send(v.q).0 && so == Chosen(v.q).so
      modifies this`ifQueued, v.q.row.Keys`queued, v.q.row.Keys`nqueued
      ensures Counters(v')
    {
      hide Send, Ok, Tracked, Pending, Count;
      SendOk(v.q);
      ChosenTracked(v.q);
      SendCounters(v.q);
      ifQueued := ifQueued - 1;
      if so != null {
        so.queued := so.queued - 1;
        if so.queued == 0 {
          so.nqueued := 0;
        }
      }
    }

    /** One round of the loop of if_start. */
    method SendPacket() returns (ghost sent: Sent)
      requires Valid() && Count(view.q) > 0
      modifies this, fastq, batchq, view.members, view.q.row.Keys`queued, view.q.row.Keys`nqueued
      ensures Valid() && view.q == Send(old(view.q)).0
      ensures sent == Sent(Chosen(old(view.q)).so, Send(old(view.q)).1)
      ensures view.members == old(view.members) - {sent.m} && view.q.row.Keys == old(view.q.row.Keys)
    {
      hide Send, Tracked, Pending, Count, Base;
      ghost var v := view;
      ShapeOk(v);
      SendTracked(v.q);
      var ifm;
      ghost var v';
      ifm, v' := Dequeue(v);
      CountSent(ifm.so, v, v');
      sent := Sent(ifm.so, ifm);
      SetView(v');
    }

    twostate lemma SameCounters(v: View, new v': View)
      requires old(Counters(v)) && v'.q == v.q
      requires ifQueued == old(ifQueued) && unchanged(v.q.row.Keys)
      ensures Counters(v')
    {}

    /** Updating the ghost view changes no link and no counter. */
    twostate lemma SameShape(v: View)
      requires old(Shape(v) && Counters(v))
      requires nextM == old(nextM) && ifQueued == old(ifQueued)
      requires unchanged({fastq, batchq} + v.members) && unchanged(v.q.row.Keys)
      ensures Shape(v) && Counters(v)
    {}

    ghost method SetView(v: View)
      requires Shape(v) && Counters(v)
      modifies this`view
      ensures Valid() && view == v
    {
      label L:
      view := v;
      SameShape@L(v);
    }

    /** if_start; the link takes `budget` packets before slirp_can_output refuses. */
    method IfStart(budget: nat) returns (ghost sent: seq<Sent>)
      requires Valid()
      modifies this, fastq, batchq, view.members, view.q.row.Keys`queued, view.q.row.Keys`nqueued
      ensures Valid() && (view.q, sent) == Start(old(view.q), budget)
      ensures view.members <= old(view.members) && view.q.row.Keys == old(view.q.row.Keys)
    {
      hide *;
      ValidOk();
      sent := [];
      var credit: nat := budget;
      ghost var done := Start(view.q, budget);
      EmptyAppend(done.1);
      while ifQueued != 0
        invariant Valid()
        invariant view.members <= old(view.members) && view.q.row.Keys == old(view.q.row.Keys)
        invariant Ok(view.q) && done == (Start(view.q, credit).0, sent + Start(view.q, credit).1)
        decreases credit
      {
        ValidOk();
        if credit == 0 {
          break;
        }
        StartUnfold(view.q, credit);
        ghost var rest := Start(Send(view.q).0, credit - 1).1;
        ghost var s := SendPacket();
        Assoc(sent, [s], rest);
        sent := sent + [s];
        credit := credit - 1;
      }
      ValidOk();
      StartDone(view.q, credit);
      EmptyAppend(sent);
    }

    /** The counters after a packet of `so` has been queued. */
    method CountQueued(so: Socket?, low: bool, ifm: Mbuf, ghost q: Queues, ghost v: View)
      requires Ok(q) && ifQueued == Count(q) && Tracked(q) && v.q == Enqueue(q, so, low, ifm)
      requires forall s :: s in q.row ==> s.nqueued == q.row[s] && s.queued == |Pending(q, s)|
      requires so != null && so !in q.row ==> so.queued == 0 && so.nqueued == 0
      modifies this`ifQueued, One(so)`queued, One(so)`nqueued
      ensures Counters(v)
      ensures so != null ==> so.nqueued == Row(q, so) + 1 && so.queued == |Pending(q, so)| + 1
    {
      hide Count, Pending, Enqueue, Ok, Tracked, Of, Flatten;
      EnqueueCounters(q, so, low, ifm);
      ifQueued := ifQueued + 1;
      if so != null {
        so.queued := so.queued + 1;
        so.nqueued := so.nqueued + 1;
      }
    }

    /** The counters of the sockets are no part of the shape. */
    lemma ShapeAnyRow(v: View, row: map<Socket, int>)
      requires Shape(v)
      ensures Shape(v.(q := v.q.(row := row)))
    {}

    lemma ValidOk()
      requires Valid()
      ensures Ok(view.q) && ifQueued == Count(view.q)
    {
      ShapeOk(view);
    }

    lemma ShapeOk(v: View)
      requires Shape(v)
      ensures Ok(v.q)
    {}

    /** if_output up to the output: the packet is queued, and its session downgraded if
        it has become greedy. */
    method QueueOutput(so: Socket?, low: bool, ifm: Mbuf)
      requires Valid() && ifm !in view.members && ifm != fastq && ifm != batchq
      requires so != null && so !in view.q.row ==> so.queued == 0 && so.nqueued == 0
      modifies this, ifm, fastq, batchq, view.members
      modifies One(so)`queued, One(so)`nqueued
      ensures Valid() && view.q == Enqueue(old(view.q), so, low, ifm)
      ensures view.members == old(view.members) + {ifm}
      ensures view.q.row.Keys == old(view.q.row.Keys) + One(so)
    {
      hide *;
      ghost var q := view.q;
      ghost var v := PutCounted(so, low, ifm);
      EnqueueRow(q, so, low, ifm);
      RowKeys(q, so);
      Settle(so, low, ifm, v);
    }

    /** What is left once the packet is queued and counted. */
    method Settle(so: Socket?, low: bool, ifm: Mbuf, ghost v: View)
      requires Ok(view.q) && Shape(v) && v.q == Put(view.q, so, low, ifm).0
      requires Counters(v.(q := Enqueue(view.q, so, low, ifm)))
      requires so != null ==> so.nqueued == Row(view.q, so) + 1 && so.queued == |Pending(view.q, so)| + 1
      modifies this`view, fastq, batchq, v.members
      ensures Valid() && view.q == Enqueue(old(view.q), so, low, ifm) && view.members == v.members
    {
      label L:
      ghost var v' := DowngradeGreedy(so, low, ifm, view.q, v);
      hide *;
      SameCounters@L(v.(q := v'.q), v');
      SetView(v');
    }

    /** The packet is queued and counted. */
    method PutCounted(so: Socket?, low: bool, ifm: Mbuf) returns (ghost v: View)
      requires Valid() && ifm !in view.members && ifm != fastq && ifm != batchq
      requires so != null && so !in view.q.row ==> so.queued == 0 && so.nqueued == 0
      modifies this`ifQueued, ifm, fastq, batchq, view.members
      modifies One(so)`queued, One(so)`nqueued
      ensures Ok(view.q) && Shape(v) && v.q == Put(view.q, so, low, ifm).0
      ensures v.members == view.members + {ifm}
      ensures Counters(v.(q := Enqueue(view.q, so, low, ifm)))
      ensures so != null ==> so.nqueued == Row(view.q, so) + 1 && so.queued == |Pending(view.q, so)| + 1
    {
      hide Enqueue, Put, Find, Ok, Base, Tracked, Count, Pending, QueueRing, Row;
      ShapeOk(view);
      v := PutPacket(so, low, ifm, view);
      CountQueued(so, low, ifm, view.q, v.(q := Enqueue(view.q, so, low, ifm)));
    }

    /** The test for a greedy session, and its downgrade. */
    method DowngradeGreedy(so: Socket?, low: bool, ifm: Mbuf, ghost q: Queues, ghost v: View)
      returns (ghost v': View)
      requires Ok(q) && Shape(v) && v.q == Put(q, so, low, ifm).0
      requires so != null ==> so.nqueued == Row(q, so) + 1 && so.queued == |Pending(q, so)| + 1
      modifies fastq, batchq, v.members
      ensures Shape(v') && v'.q == Enqueue(q, so, low, ifm) && v'.members == v.members
      ensures so != null && so.nqueued >= 6 && so.nqueued - so.queued >= 3 ==> IsFirst(v'.q.batch, so)
    {
      hide Put, Find, Ok, Base, Pending, QueueRing, Enqueue;
      EnqueueRow(q, so, low, ifm);
      GreedyFirst(q, so, low, ifm);
      v' := v;
      if so != null {
        ghost var row := q.row[so := Row(q, so) + 1];
        ShapeAnyRow(v, row);
        v' := v.(q := v.q.(row := row));
        if so.nqueued >= 6 && so.nqueued - so.queued >= 3 {
          v' := DowngradeLast(so, low, ifm, q, v');
        }
      }
    }

    /** The session that has just received `ifm` is downgraded. */
    method DowngradeLast(so: Socket?, low: bool, ifm: Mbuf, ghost q: Queues, ghost v: View)
      returns (ghost v': View)
      requires Ok(q) && Shape(v) && so != null
      requires v.q == Put(q, so, low, ifm).0.(row := q.row[so := Row(q, so) + 1])
      requires Greedy(Row(q, so) + 1, |Pending(q, so)| + 1)
      modifies fastq, batchq, v.members
      ensures Shape(v') && v'.q == Enqueue(q, so, low, ifm) && v'.members == v.members
    {
      hide *;
      PutOk(q, so, low, ifm);
      EnqueueIsFifo(q, so, low, ifm, so);
      ghost var p := Put(q, so, low, ifm).1;
      EnqueueGreedy(q, so, low, ifm);
      v' := DowngradeSession(ifm, p, v);
    }

    /** if_output, called with an mbuf that is in neither queue. */
    method IfOutput(so: Socket?, ifm: Mbuf, linkUp: bool, budget: nat) returns (ghost sent: seq<Sent>)
      requires Valid() && ifm !in view.members && ifm != fastq && ifm != batchq
      requires so != null && so !in view.q.row ==> so.queued == 0 && so.nqueued == 0
      modifies this, ifm, fastq, batchq, view.members, One(so)`queued, One(so)`nqueued
      modifies view.q.row.Keys`queued, view.q.row.Keys`nqueued
      ensures Valid()
      ensures (view.q, sent) == old(Step(view.q, Output(so, LowDelay(so), ifm, if linkUp then budget else 0)))
    {
      hide *;
      var low := LowDelay(so);
      ValidOk();
      OutputStep(view.q, so, low, ifm, if linkUp then budget else 0);
      ghost var out := Step(view.q, Output(so, low, ifm, if linkUp then budget else 0));
      QueueOutput(so, low, ifm);
      sent := [];
      if linkUp {
        sent := IfStart(budget);
      }
    }
  }

  /** The head of session `k` of a queue leaves it and its session; `ss` are the
      sessions of both queues. */
  method TakeOut(ifm: Mbuf, ghost b: Mbuf, ghost r: seq<Mbuf>, ghost own: seq<Session>, ghost k: nat,
                 ghost other: seq<Mbuf>, ghost ss: seq<Session>, ghost n: nat, ghost members: set<Mbuf>)
    returns (ghost r': seq<Mbuf>)
    requires HeadsOf(r, b, own) && k < |own| && ifm == r[k + 1] && n < |ss| && ss[n] == own[k]
    requires NoDup(r) && QueueRing(r) && QueueRing(other) && Disjoint(other, r) && Disjoint(r, other)
    requires forall m :: m in r ==> m == b || m in members
    requires Sound(ss, members)
    requires ifm.ifsNext == if |own[k].packets| == 1 then ifm else own[k].packets[1]
    requires |own[k].packets| > 1 ==> own[k].packets[1] !in r && own[k].packets[1] !in other
    modifies members`ifqNext, members`ifqPrev, members`ifsNext, members`ifsPrev, b`ifqNext, b`ifqPrev
    ensures r' == if |own[k].packets| == 1 then Remove(r, k + 1) else r[k + 1 := own[k].packets[1]]
    ensures HeadsOf(r', b, Serve(own, k)) && NoDup(r') && QueueRing(r') && QueueRing(other)
    ensures Disjoint(other, r') && Disjoint(r', other)
    ensures forall m :: m in r' ==> m == b || m in members - {ifm}
    ensures var t := Serve(ss, n); var ms := members - {ifm}; Sound(t, ms)
  {
    hide Serve, HeadsOf, NoDup, QueueRing, PacketRing, LinkedSession, Apart, Remove;
    HeadOfSession(r, b, own, k);
    Gone(ss, n, members);
    r' := LeaveRing(ifm, r, k + 1, other);
    LeaveSession(ifm, ss, n, members);
    TakenHeads(r, b, own, k, r');
  }

  ghost predicate IsFirst(ss: seq<Session>, so: Socket?) { ss != [] && ss[0].so == so }

  lemma GreedyFirst(q: Queues, so: Socket?, low: bool, m: Mbuf)
    requires Ok(q)
    ensures so != null && Row(q, so) + 1 >= 6 && Row(q, so) - |Pending(q, so)| >= 3 ==>
              IsFirst(Enqueue(q, so, low, m).batch, so)
  {
    hide Ok, Enqueue, Row, Pending;
    EnqueuePlace(q, so, low, m);
  }

  function LowDelay(so: Socket?): (low: bool)
    reads so
    ensures low <==> so != null && so.iptos / 16 % 2 == 1
  {
    so != null && so.iptos & IPTOS_LOWDELAY != 0
  }

  ghost function One(so: Socket?): set<Socket> {
    if so == null then {} else {so}
  }

  /** Every waiting session has counters. */
  ghost predicate Tracked(q: Queues) {
    Owned(q.fast, q.row.Keys) && Owned(q.batch, q.row.Keys)
  }

  /** The sessions are those of `sockets`, or of none. */
  ghost predicate Owned(ss: seq<Session>, sockets: set<Socket>) {
    forall i :: 0 <= i < |ss| && ss[i].so != null ==> ss[i].so in sockets
  }

  /** What the operations on a queue keep of it. */
  lemma OwnedAppend(ss: seq<Session>, sockets: set<Socket>, i: nat, m: Mbuf)
    requires Owned(ss, sockets) && i < |ss|
    ensures Owned(Append(ss, i, m), sockets)
  {}

  lemma OwnedRemove(ss: seq<Session>, sockets: set<Socket>, i: nat)
    requires Owned(ss, sockets) && i < |ss|
    ensures Owned(Remove(ss, i), sockets) && Owned([ss[i]], sockets)
  {}

  lemma OwnedBoth(a: seq<Session>, b: seq<Session>, sockets: set<Socket>)
    requires Owned(a, sockets) && Owned(b, sockets)
    ensures Owned(a + b, sockets)
  {}

  lemma OwnedMore(ss: seq<Session>, sockets: set<Socket>, so: Socket?)
    requires Owned(ss, sockets)
    ensures Owned(ss, sockets + One(so))
  {}

  lemma OwnedOne(so: Socket?, m: Mbuf, sockets: set<Socket>)
    ensures Owned([Session(so, [m])], sockets + One(so))
  {}

  lemma ChosenTracked(q: Queues)
    requires Ok(q) && Count(q) > 0 && Tracked(q)
    ensures Chosen(q).so != null ==> Chosen(q).so in q.row
  {
    if q.fast == [] { NonEmptyBatch(q); }
  }

  /** What sending a packet does to the counters. */
  lemma SendCounters(q: Queues)
    requires Ok(q) && Count(q) > 0 && Tracked(q)
    ensures var (q', _) := Send(q); var c := Chosen(q).so;
            && q'.row.Keys == q.row.Keys && Tracked(q')
            && forall so :: so in q.row ==>
                 && |Pending(q', so)| == |Pending(q, so)| - (if so == c then 1 else 0)
                 && q'.row[so] == if so == c && |Pending(q', so)| == 0 then 0 else q.row[so]
  {
    var (q', _) := Send(q);
    var c := Chosen(q).so;
    ChosenTracked(q);
    forall so | so in q.row
      ensures |Pending(q', so)| == |Pending(q, so)| - (if so == c then 1 else 0)
      ensures q'.row[so] == if so == c && |Pending(q', so)| == 0 then 0 else q.row[so]
    {
      SendIsFifo(q, so);
    }
    SendTracked(q);
  }

  lemma SendTracked(q: Queues)
    requires Ok(q) && Count(q) > 0 && Tracked(q)
    ensures Send(q).0.row.Keys == q.row.Keys && Tracked(Send(q).0)
  {
    ChosenTracked(q);
    var q' := Send(q).0;
    if q.fast != [] {
      forall i | 0 <= i < |q'.fast| && q'.fast[i].so != null
        ensures q'.fast[i].so in q.row
      {
        ServeAt(q.fast, 0, i);
      }
    } else {
      NonEmptyBatch(q);
      forall i | 0 <= i < |q'.batch| && q'.batch[i].so != null
        ensures q'.batch[i].so in q.row
      {
        ServeAt(q.batch, Turn(q), i);
      }
    }
  }

  /** What queueing a packet does to the counters. */
  lemma EnqueueCounters(q: Queues, so: Socket?, low: bool, m: Mbuf)
    requires Ok(q) && Tracked(q)
    ensures var q' := Enqueue(q, so, low, m);
            && Count(q') == Count(q) + 1 && Tracked(q')
            && q'.row == (if so == null then q.row else q.row[so := Row(q, so) + 1])
            && (forall s :: s in q'.row ==> |Pending(q', s)| == |Pending(q, s)| + (if s == so then 1 else 0))
            && (so != null && so !in q.row ==> Pending(q, so) == [])
  {
    hide Of, Enqueue, Flatten, Ok;
    var q' := Enqueue(q, so, low, m);
    forall s | s in q'.row
      ensures |Pending(q', s)| == |Pending(q, s)| + (if s == so then 1 else 0)
    {
      EnqueueIsFifo(q, so, low, m, s);
    }
    EnqueueCount(q, so, low, m);
    EnqueueTracked(q, so, low, m);
    EnqueueRow(q, so, low, m);
    if so != null && so !in q.row {
      OfNone(q.fast, so);
      OfNone(q.batch, so);
    }
  }

  lemma RowKeys(q: Queues, so: Socket?)
    ensures (if so == null then q.row else q.row[so := Row(q, so) + 1]).Keys == q.row.Keys + One(so)
  {}

  lemma OutputStep(q: Queues, so: Socket?, low: bool, m: Mbuf, budget: nat)
    requires Ok(q)
    ensures Ok(Enqueue(q, so, low, m))
    ensures Start(Enqueue(q, so, low, m), 0) == (Enqueue(q, so, low, m), [])
    ensures Step(q, Output(so, low, m, budget)) == Start(Enqueue(q, so, low, m), budget)
  {
    EnqueueIsFifo(q, so, low, m, so);
  }

  lemma EnqueueTracked(q: Queues, so: Socket?, low: bool, m: Mbuf)
    requires Ok(q) && Tracked(q)
    ensures Tracked(Enqueue(q, so, low, m))
  {
    hide Owned, Put, Downgrade, Pending, Greedy, Ok;
    PutOk(q, so, low, m);
    PutOwned(q, so, low, m);
    RowKeys(q, so);
    EnqueueRow(q, so, low, m);
    if so != null && Greedy(Row(q, so) + 1, |Pending(q, so)| + 1) {
      var (q1, p) := Put(q, so, low, m);
      DowngradeOwned(q1.(row := q.row[so := Row(q, so) + 1]), p);
    }
  }

  lemma PutOwned(q: Queues, so: Socket?, low: bool, m: Mbuf)
    requires Tracked(q)
    ensures var q' := Put(q, so, low, m).0; var sockets := q.row.Keys + One(so);
            Owned(q'.fast, sockets) && Owned(q'.batch, sockets)
  {
    hide Owned;
    var sockets := q.row.Keys + One(so);
    OwnedMore(q.fast, q.row.Keys, so);
    OwnedMore(q.batch, q.row.Keys, so);
    OwnedOne(so, m, q.row.Keys);
    match Put(q, so, low, m).1
    case Fast(i) =>
      if i < |q.fast| { OwnedAppend(q.fast, sockets, i, m); }
      else { OwnedBoth(q.fast, [Session(so, [m])], sockets); }
    case Batch(i) =>
      if i < |q.batch| { OwnedAppend(q.batch, sockets, i, m); }
      else { OwnedBoth(q.batch, [Session(so, [m])], sockets); }
  }

  lemma DowngradeOwned(q: Queues, p: Place)
    requires match p case Fast(i) => i < |q.fast| case Batch(i) => i < |q.batch|
    requires Tracked(q)
    ensures Tracked(Downgrade(q, p))
  {
    hide Owned;
    match p
    case Fast(i) =>
      OwnedRemove(q.fast, q.row.Keys, i);
      OwnedBoth([q.fast[i]], q.batch, q.row.Keys);
    case Batch(i) =>
      OwnedRemove(q.batch, q.row.Keys, i);
      OwnedBoth([q.batch[i]], Remove(q.batch, i), q.row.Keys);
  }

  lemma FlattenOne(ss: seq<Session>, i: nat, m: Mbuf)
    requires i < |ss|
    ensures |Flatten(Append(ss, i, m))| == |Flatten(ss)| + 1
  {
    FlattenSplit(ss, i);
    var t := Append(ss, i, m);
    FlattenSplit(t, i);
    assert t[..i] == ss[..i] && t[i + 1..] == ss[i + 1..];
  }

  lemma FlattenNew(a: seq<Session>, s: Session)
    ensures |Flatten(a + [s])| == |Flatten([s] + a)| == |Flatten(a)| + |s.packets|
  {
    FlattenAppend(a, [s]);
    assert [s][1..] == [] && ([s] + a)[1..] == a;
  }

  lemma FlattenRemove(ss: seq<Session>, i: nat)
    requires i < |ss|
    ensures |Flatten(Remove(ss, i))| == |Flatten(ss)| - |ss[i].packets|
  {
    FlattenSplit(ss, i);
    FlattenAppend(ss[..i], ss[i + 1..]);
  }

  lemma PutCount(q: Queues, so: Socket?, low: bool, m: Mbuf)
    requires Ok(q)
    ensures Count(Put(q, so, low, m).0) == Count(q) + 1
  {
    var (q', p) := Put(q, so, low, m);
    hide Flatten;
    match p
    case Fast(i) => if i < |q.fast| { FlattenOne(q.fast, i, m); } else { FlattenNew(q.fast, Session(so, [m])); }
    case Batch(i) => if i < |q.batch| { FlattenOne(q.batch, i, m); } else { FlattenNew(q.batch, Session(so, [m])); }
  }

  lemma DowngradeCount(q: Queues, p: Place)
    requires match p case Fast(i) => i < |q.fast| case Batch(i) => i < |q.batch|
    ensures Count(Downgrade(q, p)) == Count(q)
  {
    hide Flatten;
    match p
    case Fast(i) => FlattenRemove(q.fast, i); FlattenNew(q.batch, q.fast[i]);
    case Batch(i) => FlattenRemove(q.batch, i); FlattenNew(Remove(q.batch, i), q.batch[i]);
  }

  lemma EnqueueCount(q: Queues, so: Socket?, low: bool, m: Mbuf)
    requires Ok(q)
    ensures Count(Enqueue(q, so, low, m)) == Count(q) + 1
  {
    PutCount(q, so, low, m);
    var (q1, p) := Put(q, so, low, m);
    if so != null {
      DowngradeCount(q1.(row := q.row[so := Row(q, so) + 1]), p);
    }
  }

  /** A packet that finds its session changes nothing but that session. */
  lemma PutJoins(q: Queues, so: Socket?, lowDelay: bool, m: Mbuf)
    requires Ok(q)
    ensures var (q', p) := Put(q, so, lowDelay, m); var ss := q.fast + q.batch;
            match p
            case Fast(i) => i < |q.fast| ==>
              i == |q.fast| - 1 && ss[i] == q.fast[i] && q'.fast + q'.batch == Append(ss, i, m)
            case Batch(i) => i < |q.batch| ==>
              ss[|q.fast| + i] == q.batch[i] && q'.fast + q'.batch == Append(ss, |q.fast| + i, m)
  {}

  lemma ServeFront(a: seq<Session>, b: seq<Session>)
    requires a != [] && a[0].packets != []
    ensures Serve(a, 0) + b == Serve(a + b, 0) && (a + b)[0] == a[0]
  {}

  lemma HeadOfSession(r: seq<Mbuf>, b: Mbuf, ss: seq<Session>, k: nat)
    requires HeadsOf(r, b, ss) && k < |ss|
    ensures |r| == |ss| + 1 && ss[k].packets != [] && r[k + 1] == ss[k].packets[0]
  {}

  /** The ring of a queue after the head of session `k` has left. */
  lemma TakenHeads(r: seq<Mbuf>, b: Mbuf, ss: seq<Session>, k: nat, r': seq<Mbuf>)
    requires HeadsOf(r, b, ss) && k < |ss| && NoDup(r)
    requires r' == if |ss[k].packets| == 1 then Remove(r, k + 1) else r[k + 1 := ss[k].packets[1]]
    ensures HeadsOf(r', b, Serve(ss, k)) && r[k + 1] == ss[k].packets[0]
    ensures forall m :: m in r' ==> (m in r && m != r[k + 1]) || (|ss[k].packets| > 1 && m == ss[k].packets[1])
  {
    var t := Serve(ss, k);
    RemoveElements(r, k + 1);
    forall i | 0 <= i < |t|
      ensures t[i].packets != [] && r'[i + 1] == t[i].packets[0]
    {
      ServeAt(ss, k, i);
    }
  }

  /** The ring of the batch queue after session `i` has moved to the front. */
  lemma FrontHeads(r: seq<Mbuf>, b: Mbuf, ss: seq<Session>, i: nat, next: int, q': Queues)
    requires HeadsOf(r, b, ss) && i < |ss| && NoDup(r) && next < |ss|
    requires q'.batch == [ss[i]] + Remove(ss, i)
    requires q'.next == if next == i then 0 else if 0 <= next < i then next + 1 else next
    ensures var r' := ToFront(Remove(r, i + 1), r[i + 1]);
            && HeadsOf(r', b, q'.batch)
            && (forall m :: m in r' <==> m in r)
            && (next >= 0 ==> r[next + 1] == r'[q'.next + 1])
  {
    RemoveElements(r, i + 1);
    ToFrontElements(Remove(r, i + 1), r[i + 1]);
  }

  /** Appending a packet moves no session and changes no head. */
  lemma SameHeads(fr: seq<Mbuf>, f: Mbuf, fast: seq<Session>, br: seq<Mbuf>, b: Mbuf, batch: seq<Session>,
                  fast': seq<Session>, batch': seq<Session>, k: nat, m: Mbuf)
    requires HeadsOf(fr, f, fast) && HeadsOf(br, b, batch)
    requires k < |fast + batch| && |fast'| == |fast| && fast' + batch' == Append(fast + batch, k, m)
    ensures HeadsOf(fr, f, fast') && HeadsOf(br, b, batch')
  {
    var ss, t := fast + batch, fast' + batch';
    forall i | 0 <= i < |fast|
      ensures fast'[i].packets != [] && fast'[i].packets[0] == fast[i].packets[0]
    {
      assert fast'[i] == t[i] && fast[i] == ss[i];
    }
    forall i | 0 <= i < |batch|
      ensures batch'[i].packets != [] && batch'[i].packets[0] == batch[i].packets[0]
    {
      assert batch'[i] == t[|fast| + i] && batch[i] == ss[|fast| + i];
    }
  }
}
