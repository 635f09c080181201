/** The nodes known to the mediator: src/network/node.h and src/network/node.cpp. */
module Nodes {
  import opened Net

  /** What the mediator knows about a node. */
  datatype NodeRec = NodeRec(addr: Addr, mac: Mac, id: nat, running: bool,
                             simtime: nat, realtime: nat, seqno: nat, warned: bool)

  /** A node is part of the synchronization once it has an id and a MAC address. */
  predicate SyncValid(r: NodeRec) { r.id != 0 && r.mac != NO_MAC }

  predicate DataValid(r: NodeRec) { ValidAddr(r.addr) }

  function NewRec(addr: Addr, mac: Mac, id: nat, elapsed: nat): NodeRec {
    NodeRec(addr, mac, id, false, 0, elapsed, 0, false)
  }

  /** A time report; reports can arrive out of order and never turn time back. */
  function Reported(r: NodeRec, st: nat, sn: nat, elapsed: nat): NodeRec {
    r.(simtime := if st > r.simtime then st else r.simtime, realtime := elapsed, seqno := sn)
  }

  /** A port that never got a MAC address or an id, not heard of for `timeout`
      seconds; a clock that went backwards makes it as old as the clock. */
  predicate ObsoleteRec(r: NodeRec, timeout: nat, now: nat) {
    r.mac == NO_MAC && r.id == 0 &&
    now > (if r.realtime > now then 0 else r.realtime) + timeout * 1000000
  }

  class Node {
    var dataAddr: Addr
    var mac: Mac
    var nodeid: nat
    var running: bool
    var simtime: nat
    var realtime: nat
    var seqno: nat
    var warned: bool

    function Rec(): NodeRec
      reads this
    {
      NodeRec(dataAddr, mac, nodeid, running, simtime, realtime, seqno, warned)
    }

    constructor (addr: Addr, mac: Mac, id: nat, elapsed: nat)
      ensures Rec() == NewRec(addr, mac, id, elapsed)
    {
      dataAddr, this.mac, nodeid, running := addr, mac, id, false;
      simtime, realtime, seqno, warned := 0, elapsed, 0, false;
    }

    method SetSimtime(st: nat, sn: nat, elapsed: nat)
      modifies this
      ensures Rec() == Reported(old(Rec()), st, sn, elapsed)
      ensures simtime == (if st > old(simtime) then st else old(simtime)) && realtime == elapsed && seqno == sn
      ensures unchanged(`dataAddr) && unchanged(`mac) && unchanged(`nodeid) && unchanged(`running)
    {
      realtime := elapsed;
      if st > simtime {
        simtime := st;
      }
      seqno := sn;
    }

    method Warning()
      modifies this`warned
      ensures Rec() == old(Rec()).(warned := true)
    {
      if warned {
        return;
      }
      warned := true;
    }

    method Obsolete(timeout: nat, now: nat) returns (r: bool)
      ensures r == ObsoleteRec(Rec(), timeout, now)
      ensures r <==> mac == NO_MAC && nodeid == 0
                     && now - (if realtime <= now then realtime else 0) > timeout * 1000000
    {
      var t := if realtime > now then 0 else realtime;
      r := mac == NO_MAC && nodeid == 0 && now > t + timeout * 1000000;
    }
  }
}
