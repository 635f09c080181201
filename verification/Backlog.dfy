/** The contention model of src/network/net_dest_based.cpp: packets to one destination
    queue up behind each other, and what a quantum cannot serve is carried over. */
module Backlog {
  import opened Net

  // ----- the accumulated latency -----

  /** The loop of calc_acc_lat: every packet adds its contention and takes its slot. */
  function Accumulated(queue: seq<real>, slot: real): real {
    if queue == [] then 0.0
    else
      var acc := Accumulated(queue[..|queue| - 1], slot) + queue[|queue| - 1] - slot;
      if acc < 0.0 then 0.0 else acc
  }

  function Sum(queue: seq<real>): real {
    if queue == [] then 0.0 else Sum(queue[..|queue| - 1]) + queue[|queue| - 1]
  }

  /** What the packets from the `k`-th on leave behind if they are served without a
      pause. */
  function Excess(queue: seq<real>, slot: real, k: nat): real
    requires k <= |queue|
  {
    Sum(queue[k..]) - slot * (|queue| - k) as real
  }

  ghost predicate NonNegative(queue: seq<real>) {
    forall i :: 0 <= i < |queue| ==> queue[i] >= 0.0
  }

  lemma ExcessStep(queue: seq<real>, slot: real, k: nat)
    requires k < |queue|
    ensures Excess(queue, slot, k) == Excess(queue[..|queue| - 1], slot, k) + queue[|queue| - 1] - slot
  {
    var n := |queue| - 1;
    SumDrop(queue, k);
    OneMore(slot, n - k);
  }

  lemma SumDrop(queue: seq<real>, k: nat)
    requires k < |queue|
    ensures Sum(queue[k..]) == Sum(queue[..|queue| - 1][k..]) + queue[|queue| - 1]
  {
    assert queue[k..] == queue[..|queue| - 1][k..] + [queue[|queue| - 1]];
    SumPush(queue[..|queue| - 1][k..], queue[|queue| - 1]);
  }

  lemma OneMore(slot: real, n: nat)
    ensures slot * (n + 1) as real == slot * n as real + slot
  {
    assert (n + 1) as real == n as real + 1.0;
  }

  /** The accumulated latency is the largest excess of any end of the queue, the empty
      one included. */
  lemma {:induction false} AccumulatedIsLargestExcess(queue: seq<real>, slot: real)
    ensures forall k :: 0 <= k <= |queue| ==> Excess(queue, slot, k) <= Accumulated(queue, slot)
    ensures exists k :: 0 <= k <= |queue| && Excess(queue, slot, k) == Accumulated(queue, slot)
    decreases |queue|
  {
    var n := |queue|;
    assert queue[n..] == [];
    assert Excess(queue, slot, n) == 0.0;
    if n > 0 {
      var rest := queue[..n - 1];
      AccumulatedIsLargestExcess(rest, slot);
      forall k | 0 <= k < n
        ensures Excess(queue, slot, k) == Excess(rest, slot, k) + queue[n - 1] - slot
      {
        ExcessStep(queue, slot, k);
      }
      var j :| 0 <= j <= n - 1 && Excess(rest, slot, j) == Accumulated(rest, slot);
      if Accumulated(queue, slot) != 0.0 {
        assert Excess(queue, slot, j) == Accumulated(queue, slot);
      }
    }
  }

  /** Contention that is not negative is carried over at most once, and only as much
      of it is served as the slots allow. */
  lemma {:induction false} CarriedBounds(queue: seq<real>, slot: real)
    requires NonNegative(queue) && slot >= 0.0
    ensures 0.0 <= Accumulated(queue, slot) <= Sum(queue)
    ensures Accumulated(queue, slot) >= Sum(queue) - slot * |queue| as real
    decreases |queue|
  {
    AccumulatedIsLargestExcess(queue, slot);
    assert queue[0..] == queue;
    assert Excess(queue, slot, 0) <= Accumulated(queue, slot);
    if queue != [] {
      CarriedBounds(queue[..|queue| - 1], slot);
    }
  }

  // ----- the model over time -----

  /** The time that every packet of a quantum gets. */
  function Slot(quantum: nat, packets: nat): real {
    if packets > 0 then quantum as real / packets as real else 0.0
  }

  datatype Model = Model(queues: map<Mac, seq<real>>, quantum: nat)

  datatype Event = Packet(dst: Mac, contention: real) | Quantum(gt: nat, nextgt: nat)

  function QueueOf(m: Model, dst: Mac): seq<real> { if dst in m.queues then m.queues[dst] else [] }

  /** What is left of a queue when a quantum ends. */
  function Carried(queue: seq<real>, quantum: nat): seq<real> {
    var acc := Accumulated(queue, Slot(quantum, |queue|));
    if queue == [] || acc == 0.0 then [] else [acc]
  }

  function CarriedAll(queues: map<Mac, seq<real>>, quantum: nat): map<Mac, seq<real>> {
    map d | d in queues :: Carried(queues[d], quantum)
  }

  function NextQuantum(gt: nat, nextgt: nat): nat { if nextgt < gt then 10 else nextgt - gt }

  function Apply(m: Model, e: Event): Model {
    match e
    case Packet(dst, contention) => m.(queues := m.queues[dst := QueueOf(m, dst) + [contention]])
    case Quantum(gt, nextgt) =>
      Model(CarriedAll(m.queues, m.quantum), NextQuantum(gt, nextgt))
  }

  function Run(m: Model, es: seq<Event>): Model
    decreases |es|
  {
    if es == [] then m else Run(Apply(m, es[0]), es[1..])
  }

  /** The contention of all packets to `dst`, and the time of all quanta that ended. */
  function Load(es: seq<Event>, dst: Mac): real {
    if es == [] then 0.0
    else (if es[0].Packet? && es[0].dst == dst then es[0].contention else 0.0) + Load(es[1..], dst)
  }

  function Served(m: Model, es: seq<Event>): nat
    decreases |es|
  {
    if es == [] then 0 else (if es[0].Quantum? then m.quantum else 0) + Served(Apply(m, es[0]), es[1..])
  }

  lemma SumPush(queue: seq<real>, x: real)
    ensures Sum(queue + [x]) == Sum(queue) + x
  {
    assert (queue + [x])[..|queue|] == queue;
  }

  /** A quantum takes at most its own length from a queue, and adds nothing. */
  lemma CarriedKeeps(queue: seq<real>, quantum: nat)
    requires NonNegative(queue)
    ensures NonNegative(Carried(queue, quantum)) && |Carried(queue, quantum)| <= 1
    ensures forall i :: 0 <= i < |Carried(queue, quantum)| ==> Carried(queue, quantum)[i] > 0.0
    ensures Sum(queue) - quantum as real <= Sum(Carried(queue, quantum)) <= Sum(queue)
  {
    var n := |queue|;
    var slot := Slot(quantum, n);
    if queue != [] {
      assert slot * n as real == quantum as real;
    }
    CarriedBounds(queue, slot);
    SumPush([], Accumulated(queue, slot));
    assert [] + [Accumulated(queue, slot)] == [Accumulated(queue, slot)];
  }

  lemma ApplyKeeps(m: Model, e: Event, dst: Mac)
    requires NonNegative(QueueOf(m, dst)) && (e.Packet? ==> e.contention >= 0.0)
    ensures NonNegative(QueueOf(Apply(m, e), dst))
    ensures var before := Sum(QueueOf(m, dst)) + Load([e], dst);
            before - Served(m, [e]) as real <= Sum(QueueOf(Apply(m, e), dst)) <= before
  {
    hide NonNegative, Sum, QueueOf, Apply, Load, Served;
    OneEvent(m, e, dst);
    match e {
      case Packet(d, contention) => PacketKeeps(m, d, contention, dst);
      case Quantum(gt, nextgt) => QuantumKeeps(m, gt, nextgt, dst);
    }
  }

  lemma OneEvent(m: Model, e: Event, dst: Mac)
    ensures Load([e], dst) == if e.Packet? && e.dst == dst then e.contention else 0.0
    ensures Served(m, [e]) == if e.Quantum? then m.quantum else 0
  {
    assert [e][1..] == [];
  }

  lemma PacketKeeps(m: Model, d: Mac, contention: real, dst: Mac)
    requires NonNegative(QueueOf(m, dst)) && contention >= 0.0
    ensures var q := QueueOf(Apply(m, Packet(d, contention)), dst);
            NonNegative(q) && Sum(q) == Sum(QueueOf(m, dst)) + if d == dst then contention else 0.0
  {
    hide Sum;
    if d == dst { SumPush(QueueOf(m, dst), contention); }
  }

  lemma QuantumKeeps(m: Model, gt: nat, nextgt: nat, dst: Mac)
    requires NonNegative(QueueOf(m, dst))
    ensures var q := QueueOf(Apply(m, Quantum(gt, nextgt)), dst);
            NonNegative(q) && Sum(QueueOf(m, dst)) - m.quantum as real <= Sum(q) <= Sum(QueueOf(m, dst))
  {
    CarriedKeeps(QueueOf(m, dst), m.quantum);
    CarriedNothing(m.quantum);
    hide Sum, Carried, NonNegative;
  }

  lemma CarriedNothing(quantum: nat)
    ensures Carried([], quantum) == []
  {}

  lemma LoadCons(m: Model, es: seq<Event>, dst: Mac)
    requires es != []
    ensures Load(es, dst) == Load([es[0]], dst) + Load(es[1..], dst)
    ensures Served(m, es) == Served(m, [es[0]]) + Served(Apply(m, es[0]), es[1..])
  {
    assert [es[0]][1..] == [];
  }

  /** Over any run the backlog of a destination lies between the contention that the
      ended quanta cannot have served and all the contention there was. */
  lemma {:induction false} BacklogOverRun(m: Model, es: seq<Event>, dst: Mac)
    requires NonNegative(QueueOf(m, dst))
    requires forall i :: 0 <= i < |es| && es[i].Packet? ==> es[i].contention >= 0.0
    ensures var q := QueueOf(Run(m, es), dst); var before := Sum(QueueOf(m, dst)) + Load(es, dst);
            NonNegative(q) && before - Served(m, es) as real <= Sum(q) <= before
    decreases |es|
  {
    if es != [] {
      ApplyKeeps(m, es[0], dst);
      LoadCons(m, es, dst);
      hide Apply, Load, Served, Sum, QueueOf;
      BacklogOverRun(Apply(m, es[0]), es[1..], dst);
    }
  }

  // ----- the timing model -----

  /** The fixed latencies of the network. */
  datatype Parameters = Parameters(knc: real, ksw: real, bandwidth: real, hops: nat, headSize: real,
                                   vlArb: real, relLk: real, bcast: nat, unknownMac: nat)

  function ZeroLoad(p: Parameters, size: nat): real
    requires p.bandwidth > 0.0
  {
    p.knc + size as real * 8.0 / p.bandwidth + p.hops as real * (p.ksw + p.headSize * 8.0 / p.bandwidth)
  }

  function Contention(p: Parameters, size: nat): real
    requires p.bandwidth > 0.0
  {
    size as real * 8.0 / p.bandwidth + p.vlArb + p.relLk
  }

  predicate Modelled(m: Mac) { m % 256 == 0xFA }

  /** The nodes of a cluster are modelled if and only if its prefix begins with FA. */
  lemma ClusterModelled(base: nat, id: nat)
    requires base < 0x1_0000_0000 && id < 0x1_0000
    ensures Modelled(MacOf(base, id)) <==> 0xfa00_0000 <= base < 0xfb00_0000
  {
    MacOfBytes(base, id);
  }

  /** What the latencies consist of: without hops and data the adapters alone; eight bits of time for
      every byte of a packet; for every hop the switch and the head of the packet.  A packet keeps its
      destination busy for its own bits, the arbitration and the release. */
  lemma LatencyParts(p: Parameters, size: nat)
    requires p.bandwidth > 0.0
    ensures p.hops == 0 ==> ZeroLoad(p, 0) == p.knc
    ensures ZeroLoad(p, size + 1) == ZeroLoad(p, size) + 8.0 / p.bandwidth
    ensures ZeroLoad(p.(hops := p.hops + 1), size) == ZeroLoad(p, size) + (p.ksw + 8.0 * p.headSize / p.bandwidth)
    ensures Contention(p, 0) == p.vlArb + p.relLk
    ensures Contention(p, size + 1) == Contention(p, size) + 8.0 / p.bandwidth
  {
    MoreBits(size as real, p.bandwidth);
    OneMore(p.ksw + p.headSize * 8.0 / p.bandwidth, p.hops);
  }

  lemma MoreBits(x: real, b: real)
    requires b > 0.0
    ensures (x + 1.0) * 8.0 / b == x * 8.0 / b + 8.0 / b
  {}

  /** The time of a quantum is shared out among its packets. */
  lemma SlotsFill(quantum: nat, packets: nat)
    ensures Slot(quantum, packets) * packets as real == if packets > 0 then quantum as real else 0.0
    ensures packets == 0 ==> Slot(quantum, packets) == 0.0
  {}

  /** A quantum that would be negative counts as one of ten ticks. */
  lemma QuantumStarts(m: Model, gt: nat, nextgt: nat)
    ensures nextgt >= gt ==> gt + Apply(m, Quantum(gt, nextgt)).quantum == nextgt
    ensures nextgt < gt ==> Apply(m, Quantum(gt, nextgt)).quantum == 10
  {}

  class DestBased {
    const p: Parameters
    var queues: map<Mac, seq<real>>
    var quantum: nat
    var latency: int
    var traceLat: real

    ghost function View(): Model
      reads this
    {
      Model(queues, quantum)
    }

    constructor (p: Parameters)
      ensures View() == Model(map[], 0) && this.p == p
    {
      this.p := p;
      queues, quantum, latency, traceLat := map[], 0, 0, 0.0;
    }

    /** calc_acc_lat at the end of a quantum. */
    method AccumulatedLatency(queue: seq<real>, slot: real) returns (acc: real)
      ensures acc == Accumulated(queue, slot)
    {
      acc := 0.0;
      for i := 0 to |queue|
        invariant acc == Accumulated(queue[..i], slot)
      {
        assert queue[..i + 1][..i] == queue[..i];
        acc := acc + queue[i] - slot;
        if acc < 0.0 {
          acc := 0.0;
        }
      }
      assert queue[..|queue|] == queue;
    }

    /** The body of the loop of startquantum: the queue is cleared but for its backlog. */
    method CloseQueue(d: Mac)
      requires d in queues
      modifies this`queues
      ensures queues == old(queues)[d := Carried(old(queues)[d], quantum)]
    {
      var queue := queues[d];
      if queue != [] {
        var acc := AccumulatedLatency(queue, Slot(quantum, |queue|));
        queues := queues[d := []];
        if acc != 0.0 {
          queues := queues[d := [acc]];
        }
      }
    }

    method StartQuantum(gt: nat, nextgt: nat)
      modifies this`queues, this`quantum
      ensures View() == Apply(old(View()), Quantum(gt, nextgt))
    {
      hide Carried;
      ghost var before := queues;
      var todo := queues.Keys;
      while todo != {}
        invariant todo <= queues.Keys == before.Keys && quantum == old(quantum)
        invariant forall d :: d in before ==> queues[d] == if d in todo then before[d] else Carried(before[d], quantum)
        decreases |todo|
      {
        var d :| d in todo;
        CloseQueue(d);
        todo := todo - {d};
      }
      assert queues == CarriedAll(before, quantum);
      quantum := if nextgt < gt then 10 else nextgt - gt;
    }

    /** packet_event: a packet to a modelled destination waits for the backlog there, at
        the place that an even spacing within the quantum gives it. */
    method PacketEvent(src: Mac, dst: Mac, size: nat, bcast: bool)
      requires p.bandwidth > 0.0
      modifies this`queues, this`latency, this`traceLat
      ensures View() == if Modelled(src) && Modelled(dst) then Apply(old(View()), Packet(dst, Contention(p, size)))
                        else old(View())
      ensures var slot := Slot(quantum, |QueueOf(old(View()), dst)| + 1); var queue := QueueOf(old(View()), dst);
              if !Modelled(src) then latency == p.unknownMac && traceLat == latency as real
              else if !Modelled(dst) then
                latency == (if bcast then p.bcast else p.unknownMac) && traceLat == latency as real
              else
                && traceLat == ZeroLoad(p, size) + Accumulated(queue, slot)
                && latency == (traceLat + slot * |queue| as real).Floor
    {
      if Modelled(src) {
        if Modelled(dst) {
          var lat, ttl := ZeroLoad(p, size), Contention(p, size);
          var queue := [];
          traceLat := lat;
          if dst in queues {
            queue := queues[dst];
            var slot := Slot(quantum, |queue| + 1);
            var acc := AccumulatedLatency(queue, slot);
            traceLat := lat + acc;
            lat := lat + acc + slot * |queue| as real;
          }
          queues := queues[dst := queue + [ttl]];
          latency := lat.Floor;
        } else {
          latency := if bcast then p.bcast else p.unknownMac;
          traceLat := latency as real;
        }
      } else {
        latency := p.unknownMac;
        traceLat := latency as real;
      }
    }
  }
}
