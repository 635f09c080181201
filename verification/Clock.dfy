/** Global time and the adaptive quantum of src/network/switch.cpp. */
module Clock {

  /** The limits given on the command line. */
  datatype Config = Config(macBase: nat, qmin: real, qmax: real, qup: real, qdown: real, forceQueue: bool)

  /** What src/network/mediator.cpp accepts; a quantum is a time span. */
  ghost predicate Legal(c: Config) {
    && 0.0 <= c.qmin <= c.qmax && c.qup >= 1.0 && c.qdown <= 1.0
    && 0 < c.macBase <= 0xffff_ff00
  }

  /** Nodes must report a time of at least `nextgt` before time moves there from `gt`. */
  datatype Time = Time(gt: nat, nextgt: nat, quantum: real, lastSync: nat,
                       lastQtime: nat, lastQpacks: nat, packs: nat, started: bool)

  const ULONG_MAX: nat := 0xffff_ffff_ffff_ffff

  /** Rounding to the nearest integer. */
  function Round(x: real): (r: nat)
    requires x >= 0.0
    ensures x - 0.5 < r as real <= x + 0.5
  {
    (x + 0.5).Floor
  }

  function Floor(x: real): nat
    requires x >= 0.0
  {
    x.Floor
  }

  function InitTime(c: Config): Time
    requires c.qmin >= 0.0
  {
    Time(0, Floor(c.qmin), c.qmax, 0, 0, 0, 0, false)
  }

  ghost predicate TimeOk(c: Config, t: Time) {
    && t.quantum >= c.qmin >= 0.0
    && Floor(c.qmin) <= t.nextgt - t.gt <= Round(t.quantum)
    && t.lastQtime <= t.gt && t.lastQpacks <= t.packs && t.lastSync <= t.gt
    && (t.gt > 0 ==> t.started)
  }

  /** The time between two packets, as a floating-point division gives it. */
  datatype Rate = Finite(gap: real) | Infinite | NotANumber

  function PacketRate(duration: nat, packs: nat): Rate {
    if packs > 0 then Finite(duration as real / packs as real)
    else if duration > 0 then Infinite
    else NotANumber
  }

  predicate Below(r: Rate, q: real) { r.Finite? && r.gap < q }

  predicate Above(r: Rate, q: real) { r.Infinite? || (r.Finite? && r.gap > q) }

  predicate Exactly(r: Rate, q: real) { r.Finite? && r.gap == q }

  function Scaled(quantum: real, factor: real): real { quantum * factor }

  /** compute_quantum, after a barrier that sent `nsent` messages; `pqmax` is the time
      to the pending message that the scheduler reports, or 0. */
  function NewQuantum(c: Config, t: Time, nsent: nat, pqmax: nat): real
    requires t.lastQtime <= t.gt && t.lastQpacks <= t.packs
  {
    if nsent > 0 then c.qmin
    else if c.qmin == c.qmax then c.qmax
    else
      var limit := if pqmax > 0 then pqmax as real else c.qmax;
      var packs := t.packs - t.lastQpacks;
      var q := PacketRate(t.gt - t.lastQtime, packs);
      var nq := if Below(q, t.quantum) || (Exactly(q, t.quantum) && packs > 0) then Scaled(t.quantum, c.qdown)
                else if Above(q, t.quantum) then Scaled(t.quantum, c.qup)
                else t.quantum;
      if nq < c.qmin then c.qmin else if nq > limit then limit else nq
  }

  /** GT_advance, with the quantum just computed. */
  function Advance(t: Time, quantum: real): Time
    requires quantum >= 0.0
  {
    t.(gt := t.nextgt, nextgt := t.nextgt + Round(quantum), quantum := quantum,
       lastQtime := t.gt, lastQpacks := t.packs)
  }

  // ----- bounds -----

  lemma RoundMonotone(x: real, y: real)
    requires 0.0 <= x <= y
    ensures Floor(x) <= Round(x) <= Round(y)
  {
    assert x < x.Floor as real + 1.0;
    assert y + 0.5 < (y + 0.5).Floor as real + 1.0;
  }

  lemma InitTimeOk(c: Config)
    requires Legal(c)
    ensures TimeOk(c, InitTime(c))
  {
    RoundMonotone(c.qmin, c.qmax);
  }

  /** The quantum never falls below its minimum although it is clipped to the time of
      the pending message instead of the maximum: what the scheduler keeps lies beyond
      the next barrier, and that is at least the minimum away. */
  lemma QuantumBounds(c: Config, t: Time, nsent: nat, top: nat)
    requires Legal(c) && TimeOk(c, t) && (top > 0 ==> top > t.nextgt)
    ensures var pqmax := if top > 0 then top - t.gt else 0;
            var q := NewQuantum(c, t, nsent, pqmax);
            && c.qmin <= q
            && q <= (if pqmax as real > c.qmax then pqmax as real else c.qmax)
            && (nsent > 0 ==> q == c.qmin)
            && (nsent == 0 && top > 0 && c.qmin != c.qmax ==> q <= pqmax as real)
  {
    if top > 0 {
      assert top - t.gt >= Floor(c.qmin) + 1;
      assert c.qmin < c.qmin.Floor as real + 1.0;
    }
  }

  /** The value nearest to `x` between `lo` and `hi`. */
  function Clipped(x: real, lo: real, hi: real): (r: real)
    requires lo <= hi
    ensures lo <= r <= hi && (x <= lo ==> r == lo) && (x >= hi ==> r == hi) && (lo <= x <= hi ==> r == x)
  {
    if x < lo then lo else if x > hi then hi else x
  }

  /** The upper limit of a quantum. */
  function Limit(c: Config, pqmax: nat): real { if pqmax > 0 then pqmax as real else c.qmax }

  /** At least one packet per quantum since the last barrier, on average. */
  predicate Busy(t: Time) {
    t.packs > t.lastQpacks && (t.gt - t.lastQtime) as real <= t.quantum * (t.packs - t.lastQpacks) as real
  }

  /** Fewer packets than that. */
  predicate Quiet(t: Time) { (t.gt - t.lastQtime) as real > t.quantum * (t.packs - t.lastQpacks) as real }

  /** The next quantum, exactly.  After a release it is the minimum, which is also the only one if it
      equals the maximum.  Otherwise a busy quantum is shortened, a quiet one lengthened, and it stays
      if nothing can be told because neither time has passed nor a packet come; then it is clipped. */
  lemma QuantumAdapts(c: Config, t: Time, nsent: nat, pqmax: nat)
    requires Legal(c) && TimeOk(c, t) && (pqmax > 0 ==> pqmax as real >= c.qmin)
    ensures var q := NewQuantum(c, t, nsent, pqmax);
            && (nsent > 0 ==> q == c.qmin)
            && (nsent == 0 && c.qmin == c.qmax ==> q == c.qmax)
            && (nsent == 0 && c.qmin < c.qmax && !Busy(t) && !Quiet(t) ==>
                 q == Clipped(t.quantum, c.qmin, Limit(c, pqmax)) && t.gt == t.lastQtime && t.packs == t.lastQpacks)
  {
    hide NewQuantum, Busy, Quiet, Clipped, Scaled, Floor, Round;
    NextQuantum(c, t, nsent, pqmax);
  }

  lemma BusyQuantum(c: Config, t: Time, pqmax: nat)
    requires Legal(c) && TimeOk(c, t) && (pqmax > 0 ==> pqmax as real >= c.qmin) && c.qmin < c.qmax && Busy(t)
    ensures NewQuantum(c, t, 0, pqmax) == Clipped(t.quantum * c.qdown, c.qmin, Limit(c, pqmax))
  {
    hide NewQuantum, Busy, Quiet, Clipped, Scaled, TimeOk;
    NextQuantum(c, t, 0, pqmax);
    ScaledIs(t.quantum, c.qdown);
  }

  lemma QuietQuantum(c: Config, t: Time, pqmax: nat)
    requires Legal(c) && TimeOk(c, t) && (pqmax > 0 ==> pqmax as real >= c.qmin) && c.qmin < c.qmax && Quiet(t)
    ensures NewQuantum(c, t, 0, pqmax) == Clipped(t.quantum * c.qup, c.qmin, Limit(c, pqmax))
  {
    hide NewQuantum, Busy, Quiet, Clipped, Scaled, TimeOk;
    NextQuantum(c, t, 0, pqmax);
    ScaledIs(t.quantum, c.qup);
  }

  lemma ScaledIs(x: real, y: real)
    ensures Scaled(x, y) == x * y
  {}

  /** The same without a multiplication. */
  lemma NextQuantum(c: Config, t: Time, nsent: nat, pqmax: nat)
    requires Legal(c) && TimeOk(c, t) && (pqmax > 0 ==> pqmax as real >= c.qmin)
    ensures var q := NewQuantum(c, t, nsent, pqmax);
            if nsent > 0 then q == c.qmin
            else if c.qmin == c.qmax then q == c.qmax
            else if Busy(t) then q == Clipped(Scaled(t.quantum, c.qdown), c.qmin, Limit(c, pqmax))
            else if Quiet(t) then q == Clipped(Scaled(t.quantum, c.qup), c.qmin, Limit(c, pqmax))
            else q == Clipped(t.quantum, c.qmin, Limit(c, pqmax)) && t.gt == t.lastQtime && t.packs == t.lastQpacks
    ensures !(Busy(t) && Quiet(t))
  {
    hide Below, Above, Exactly, PacketRate, Busy, Quiet, Scaled, Floor, Round;
    RateIs(t);
    BusyOrQuiet(t);
  }

  lemma BusyOrQuiet(t: Time)
    ensures !(Busy(t) && Quiet(t))
  {}

  lemma ScaledBounds(q: real, factor: real)
    requires q >= 0.0
    ensures factor >= 0.0 ==> Scaled(q, factor) >= 0.0
    ensures factor <= 1.0 ==> Scaled(q, factor) <= q && (factor < 1.0 && q > 0.0 ==> Scaled(q, factor) < q)
    ensures factor >= 1.0 ==> Scaled(q, factor) >= q && (factor > 1.0 && q > 0.0 ==> Scaled(q, factor) > q)
  {}

  lemma ScaledGrows(x: real, y: real, factor: real)
    requires x <= y && factor >= 0.0
    ensures Scaled(x, factor) <= Scaled(y, factor)
  {}

  /** A busy quantum above the minimum becomes strictly shorter. */
  lemma BusyShrinks(c: Config, t: Time, pqmax: nat)
    requires Legal(c) && TimeOk(c, t) && (pqmax > 0 ==> pqmax as real >= c.qmin)
    requires c.qmin < c.qmax && c.qdown < 1.0 && Busy(t) && t.quantum > c.qmin
    ensures c.qmin <= NewQuantum(c, t, 0, pqmax) < t.quantum
  {
    hide NewQuantum, Busy, Floor, Round, Scaled;
    NextQuantum(c, t, 0, pqmax);
    ScaledBounds(t.quantum, c.qdown);
  }

  /** A quiet one that is positive and below the limit becomes strictly longer. */
  lemma QuietGrows(c: Config, t: Time, pqmax: nat)
    requires Legal(c) && TimeOk(c, t) && (pqmax > 0 ==> pqmax as real >= c.qmin)
    requires c.qmin < c.qmax && c.qup > 1.0 && Quiet(t) && 0.0 < t.quantum < Limit(c, pqmax)
    ensures t.quantum < NewQuantum(c, t, 0, pqmax) <= Limit(c, pqmax)
  {
    hide NewQuantum, Busy, Quiet, Floor, Round, Scaled;
    NextQuantum(c, t, 0, pqmax);
    ScaledBounds(t.quantum, c.qup);
  }

  /** The clock at barriers that follow each other without anything being released at them or
      waiting behind them. */
  ghost predicate Idle(c: Config, ts: seq<Time>) {
    && ts != [] && (forall i :: 0 <= i < |ts| ==> TimeOk(c, ts[i]))
    && forall i :: 0 < i < |ts| ==> ts[i].quantum == NewQuantum(c, ts[i - 1], 0, 0)
  }

  /** What `n` factors `x` make of `q`. */
  function Geometric(q: real, x: real, n: nat): real {
    if n == 0 then q else Geometric(q, x, n - 1) * x
  }

  function Last(ts: seq<Time>): Time
    requires ts != []
  {
    ts[|ts| - 1]
  }

  lemma IdlePrefix(c: Config, ts: seq<Time>)
    requires Idle(c, ts) && |ts| > 1
    ensures var before := ts[..|ts| - 1];
            && Idle(c, before) && before[0] == ts[0] && TimeOk(c, Last(before)) && Last(before) == ts[|ts| - 2]
            && Last(ts).quantum == NewQuantum(c, Last(before), 0, 0)
  {
    hide TimeOk, NewQuantum;
  }

  lemma GeometricStart(q: real, x: real, n: nat)
    requires n == 0
    ensures Geometric(q, x, n) == q
  {}

  lemma GeometricNext(q: real, x: real, n: nat)
    requires n > 0
    ensures Geometric(q, x, n) == Scaled(Geometric(q, x, n - 1), x)
  {}

  lemma {:induction false} GeometricBounds(q: real, x: real, n: nat)
    requires q >= 0.0 && x >= 0.0
    ensures Geometric(q, x, n) >= 0.0
    ensures (x <= 1.0 ==> Geometric(q, x, n) <= q) && (x >= 1.0 ==> Geometric(q, x, n) >= q)
  {
    hide Scaled, Geometric;
    if n == 0 {
      GeometricStart(q, x, n);
    } else {
      GeometricBounds(q, x, n - 1);
      GeometricNext(q, x, n);
      ScaledBounds(Geometric(q, x, n - 1), x);
    }
  }

  lemma Shrunk(g: real, down: real, lo: real, hi: real)
    requires 0.0 <= lo <= hi && 0.0 <= down <= 1.0 && 0.0 <= g <= hi
    ensures Clipped(Scaled(Clipped(g, lo, hi), down), lo, hi) == Clipped(Scaled(g, down), lo, hi)
  {
    hide Scaled, Clipped;
    if g <= lo {
      ScaledBounds(lo, down);
      ScaledGrows(g, lo, down);
    }
  }

  lemma Grown(g: real, up: real, lo: real, hi: real)
    requires 0.0 <= lo <= g && lo <= hi && up >= 1.0
    ensures Clipped(Scaled(Clipped(g, lo, hi), up), lo, hi) == Clipped(Scaled(g, up), lo, hi)
  {
    hide Scaled, Clipped;
    if g >= hi {
      ScaledBounds(hi, up);
      ScaledGrows(hi, g, up);
    }
  }

  /** While traffic stays busy the quantum shrinks geometrically down to its minimum. */
  lemma {:induction false} BusyQuanta(c: Config, ts: seq<Time>, n: nat)
    requires Legal(c) && c.qmin < c.qmax && c.qdown >= 0.0 && Idle(c, ts) && ts[0].quantum <= c.qmax
    requires forall i :: 0 <= i < |ts| - 1 ==> Busy(ts[i])
    requires |ts| == n + 1
    ensures Last(ts).quantum == Clipped(Geometric(ts[0].quantum, c.qdown, n), c.qmin, c.qmax)
    decreases n
  {
    hide NewQuantum, Busy, Quiet, Floor, Round, Geometric, Clipped, Scaled;
    if n == 0 {
      GeometricStart(ts[0].quantum, c.qdown, n);
    } else {
      IdlePrefix(c, ts);
      var before := ts[..n];
      BusyQuanta(c, before, n - 1);
      assert Last(before) == ts[n - 1];
      NextQuantum(c, Last(before), 0, 0);
      GeometricNext(ts[0].quantum, c.qdown, n);
      GeometricBounds(ts[0].quantum, c.qdown, n - 1);
      Shrunk(Geometric(ts[0].quantum, c.qdown, n - 1), c.qdown, c.qmin, c.qmax);
    }
  }

  /** While it stays quiet the quantum grows geometrically up to its maximum. */
  lemma {:induction false} QuietQuanta(c: Config, ts: seq<Time>, n: nat)
    requires Legal(c) && c.qmin < c.qmax && Idle(c, ts) && ts[0].quantum <= c.qmax
    requires forall i :: 0 <= i < |ts| - 1 ==> Quiet(ts[i])
    requires |ts| == n + 1
    ensures Last(ts).quantum == Clipped(Geometric(ts[0].quantum, c.qup, n), c.qmin, c.qmax)
    decreases n
  {
    hide NewQuantum, Busy, Quiet, Floor, Round, Geometric, Clipped, Scaled;
    if n == 0 {
      GeometricStart(ts[0].quantum, c.qup, n);
    } else {
      IdlePrefix(c, ts);
      var before := ts[..n];
      QuietQuanta(c, before, n - 1);
      assert Last(before) == ts[n - 1];
      NextQuantum(c, Last(before), 0, 0);
      GeometricNext(ts[0].quantum, c.qup, n);
      GeometricBounds(ts[0].quantum, c.qup, n - 1);
      Grown(Geometric(ts[0].quantum, c.qup, n - 1), c.qup, c.qmin, c.qmax);
    }
  }

  /** So n busy quanta in a row reach the minimum if n times the part of it that one takes away is
      at least what the first was too long. */
  lemma BusyReachesMinimum(c: Config, ts: seq<Time>)
    requires Legal(c) && c.qmin < c.qmax && Idle(c, ts)
    requires forall i :: 0 <= i < |ts| - 1 ==> Busy(ts[i])
    requires ts[0].quantum - c.qmin <= (|ts| - 1) as real * ((1.0 - c.qdown) * c.qmin)
    ensures Last(ts).quantum == c.qmin
  {
    hide NewQuantum, Busy, Floor, Round;
    LinearShrinking(c, ts);
  }

  lemma {:induction false} LinearShrinking(c: Config, ts: seq<Time>)
    requires Legal(c) && c.qmin < c.qmax && Idle(c, ts)
    requires forall i :: 0 <= i < |ts| - 1 ==> Busy(ts[i])
    ensures Last(ts).quantum == c.qmin
            || Last(ts).quantum <= ts[0].quantum - (|ts| - 1) as real * ((1.0 - c.qdown) * c.qmin)
  {
    hide NewQuantum, Busy, TimeOk, Scaled, Limit;
    if |ts| > 1 {
      IdlePrefix(c, ts);
      var before := ts[..|ts| - 1];
      LinearShrinking(c, before);
      hide Idle;
      AboveMinimum(c, Last(before));
      NextQuantum(c, Last(before), 0, 0);
      ScaledBounds(c.qmin, c.qdown);
      TakenAway(Last(before).quantum, c.qdown, c.qmin, (|ts| - 2) as real);
    }
  }

  lemma AboveMinimum(c: Config, t: Time)
    requires TimeOk(c, t)
    ensures t.quantum >= c.qmin >= 0.0
  {}

  lemma NotNegative(x: real, y: real)
    requires x >= 0.0 && y >= 0.0
    ensures x * y >= 0.0
  {}

  lemma TakenAway(q: real, down: real, lo: real, n: real)
    requires 0.0 <= lo <= q && down <= 1.0
    ensures Scaled(q, down) <= q - (1.0 - down) * lo
    ensures (n + 1.0) * ((1.0 - down) * lo) == n * ((1.0 - down) * lo) + (1.0 - down) * lo
  {
    NotNegative(q - lo, 1.0 - down);
  }

  /** And n quiet ones the maximum, if growing by the same as at first would do. */
  lemma QuietReachesMaximum(c: Config, ts: seq<Time>)
    requires Legal(c) && c.qmin < c.qmax && Idle(c, ts) && ts[0].quantum <= c.qmax
    requires forall i :: 0 <= i < |ts| - 1 ==> Quiet(ts[i])
    requires c.qmax - ts[0].quantum <= (|ts| - 1) as real * ((c.qup - 1.0) * ts[0].quantum)
    ensures Last(ts).quantum == c.qmax
  {
    hide NewQuantum, Quiet, Floor, Round;
    LinearGrowth(c, ts);
  }

  lemma {:induction false} LinearGrowth(c: Config, ts: seq<Time>)
    requires Legal(c) && c.qmin < c.qmax && Idle(c, ts) && ts[0].quantum <= c.qmax
    requires forall i :: 0 <= i < |ts| - 1 ==> Quiet(ts[i])
    ensures ts[0].quantum <= Last(ts).quantum <= c.qmax
    ensures Last(ts).quantum == c.qmax
            || Last(ts).quantum >= ts[0].quantum + (|ts| - 1) as real * ((c.qup - 1.0) * ts[0].quantum)
  {
    hide NewQuantum, Quiet, Busy, TimeOk, Scaled;
    if |ts| > 1 {
      IdlePrefix(c, ts);
      AboveMinimum(c, ts[0]);
      var before := ts[..|ts| - 1];
      LinearGrowth(c, before);
      hide Idle;
      AboveMinimum(c, Last(before));
      NextQuantum(c, Last(before), 0, 0);
      ScaledBounds(Last(before).quantum, c.qup);
      Added(Last(before).quantum, c.qup, ts[0].quantum, (|ts| - 2) as real);
    }
  }

  lemma Added(q: real, up: real, first: real, n: real)
    requires 0.0 <= first <= q && up >= 1.0
    ensures Scaled(q, up) >= q + (up - 1.0) * first
    ensures (n + 1.0) * ((up - 1.0) * first) == n * ((up - 1.0) * first) + (up - 1.0) * first
  {
    NotNegative(q - first, up - 1.0);
  }

  /** The tests of compute_quantum without the division. */
  lemma RateIs(t: Time)
    requires t.lastQtime <= t.gt && t.lastQpacks <= t.packs && t.quantum >= 0.0
    ensures var packs := t.packs - t.lastQpacks; var r := PacketRate(t.gt - t.lastQtime, packs);
            && (Below(r, t.quantum) || (Exactly(r, t.quantum) && packs > 0) <==> Busy(t))
            && (Above(r, t.quantum) <==> Quiet(t))
            && (!Busy(t) && !Quiet(t) ==> packs == 0 && t.gt == t.lastQtime)
  {
    var duration, packs := t.gt - t.lastQtime, t.packs - t.lastQpacks;
    if packs > 0 { GapIs(duration as real, packs as real, t.quantum); }
    assert packs == 0 ==> t.quantum * packs as real == 0.0;
  }

  lemma GapIs(duration: real, packs: real, q: real)
    requires packs > 0.0
    ensures duration / packs <= q <==> duration <= q * packs
  {
    var gap := duration / packs;
    assert gap * packs == duration;
    if gap <= q { assert (q - gap) * packs >= 0.0; } else { assert (gap - q) * packs > 0.0; }
  }

  lemma AdvanceOk(c: Config, t: Time, q: real)
    requires Legal(c) && TimeOk(c, t) && t.started && q >= c.qmin
    ensures TimeOk(c, Advance(t, q))
  {
    RoundMonotone(c.qmin, q);
  }

  /** The barrier lies ahead of the global time whatever happens, if and only if the
      minimum quantum is at least one tick. */
  lemma BarrierAhead(c: Config)
    requires Legal(c)
    ensures (forall t :: TimeOk(c, t) ==> t.gt < t.nextgt) <==> c.qmin >= 1.0
    ensures InitTime(c).gt < InitTime(c).nextgt <==> c.qmin >= 1.0
  {
    InitTimeOk(c);
    if c.qmin < 1.0 { assert TimeOk(c, InitTime(c)); }
  }
}
