/** The resampling of measured series for a chart: web/graphic_data.rb. */
module Resample {
  import opened Basics

  const NANOS_IN_MILI: real := 1000000.0

  datatype Row = Row(nanos: real, value: real)

  /** What series_datacheck accepts. */
  ghost predicate Checked(data: seq<Row>) {
    data != [] && forall i, j :: 0 <= i < j < |data| ==> data[i].nanos <= data[j].nanos
  }

  ghost predicate Increasing(xs: seq<real>) {
    forall i, j :: 0 <= i < j < |xs| ==> xs[i] < xs[j]
  }

  function Milli(r: Row): real { r.nanos / NANOS_IN_MILI }

  /** The first row after `x`, found by looking at them one by one. */
  function FirstAfter(data: seq<Row>, x: real): (j: nat)
    ensures j <= |data| && (j < |data| ==> Milli(data[j]) > x)
    ensures forall i :: 0 <= i < j ==> Milli(data[i]) <= x
  {
    if data == [] || Milli(data[0]) > x then 0 else 1 + FirstAfter(data[1..], x)
  }

  /** `x` lies in a segment of the series: not before its first row, before its last. */
  ghost predicate Covers(data: seq<Row>, x: real) {
    data != [] && Milli(data[0]) <= x < Milli(data[|data| - 1])
  }

  /** The slope of the segment that ends with row `j`. */
  function Slope(data: seq<Row>, j: nat, factor: Option<real>): real
    requires 0 < j < |data| && Milli(data[j]) != Milli(data[j - 1])
  {
    var s := (data[j].value - data[j - 1].value) / (Milli(data[j]) - Milli(data[j - 1]));
    if factor.Some? then s * factor.value else s
  }

  /** The value of the series at `x`, by a search of its own. */
  function ValueAt(data: seq<Row>, x: real, factor: Option<real>): real
    requires Covers(data, x)
  {
    Slope(data, FirstAfter(data, x), factor)
  }

  /** A place is the first after `x` if the rows up to it are not after `x` and it is. */
  lemma FirstAfterUnique(data: seq<Row>, x: real, j: nat)
    requires 0 < j < |data| && Checked(data) && Milli(data[j - 1]) <= x < Milli(data[j])
    ensures FirstAfter(data, x) == j && Covers(data, x)
  {
    assert j < |data| - 1 ==> data[j].nanos <= data[|data| - 1].nanos;
    forall i | 0 <= i < j ensures Milli(data[i]) <= x {
      assert i < j - 1 ==> data[i].nanos <= data[j - 1].nanos;
    }
  }

  /** The value there is the slope of the segment. */
  lemma ValueIs(data: seq<Row>, x: real, j: nat, factor: Option<real>)
    requires 0 < j < |data| && Checked(data) && Milli(data[j - 1]) <= x < Milli(data[j])
    ensures Covers(data, x) && ValueAt(data, x, factor) == Slope(data, j, factor)
  {
    FirstAfterUnique(data, x, j);
  }

  /** The first `k` marks have their values. */
  ghost predicate Valued(data: seq<Row>, xs: seq<real>, factor: Option<real>, points: seq<real>) {
    |points| <= |xs| && forall i :: 0 <= i < |points| ==>
      Covers(data, xs[i]) && points[i] == ValueAt(data, xs[i], factor)
  }

  lemma ValuedNext(data: seq<Row>, xs: seq<real>, factor: Option<real>, points: seq<real>, j: nat)
    requires Checked(data) && Valued(data, xs, factor, points) && |points| < |xs|
    requires 0 < j < |data| && Milli(data[j - 1]) <= xs[|points|] < Milli(data[j])
    ensures Valued(data, xs, factor, points + [Slope(data, j, factor)])
  {
    ValueIs(data, xs[|points|], j, factor);
  }

  lemma NoneValued(data: seq<Row>, xs: seq<real>, factor: Option<real>)
    ensures Valued(data, xs, factor, [])
  {}

  lemma SlopeIs(data: seq<Row>, j: nat, factor: Option<real>)
    requires 0 < j < |data| && Milli(data[j]) != Milli(data[j - 1])
    ensures var s := (data[j].value - data[j - 1].value) / (Milli(data[j]) - Milli(data[j - 1]));
            Slope(data, j, factor) == if factor.Some? then s * factor.value else s
  {}

  lemma MarksOn(xs: seq<real>, i: nat)
    requires Increasing(xs) && i < |xs|
    ensures i + 1 < |xs| ==> xs[i] < xs[i + 1]
  {}

  /** The loop over the rows of a series.  Every mark before its last row gets the slope of
      the one segment that it lies in; nothing is ever divided by zero. */
  method ResampleSeries(data: seq<Row>, xs: seq<real>, factor: Option<real>) returns (points: seq<real>)
    requires Checked(data) && Increasing(xs) && xs != [] && Milli(data[0]) <= xs[0]
    ensures Valued(data, xs, factor, points) && |points| <= |xs|
    ensures |points| < |xs| ==> xs[|points|] >= Milli(data[|data| - 1])
  {
    hide Valued, Slope, Increasing;
    points := [];
    NoneValued(data, xs, factor);
    var index := 0;
    var last := data[0];
    var lastNanos := Milli(last);
    var r := 1;
    while r < |data|
      invariant 1 <= r <= |data| && last == data[r - 1] && lastNanos == Milli(last)
      invariant index == |points| < |xs| && lastNanos <= xs[index]
      invariant Valued(data, xs, factor, points)
    {
      var row := data[r];
      var nanos := Milli(row);
      while index < |xs| && nanos > xs[index]
        invariant index == |points| <= |xs| && (index < |xs| ==> lastNanos <= xs[index])
        invariant Valued(data, xs, factor, points)
      {
        ValuedNext(data, xs, factor, points, r);
        SlopeIs(data, r, factor);
        MarksOn(xs, index);
        var value := (row.value - last.value) / (nanos - lastNanos);
        if factor.Some? {
          value := value * factor.value;
        }
        assert value == Slope(data, r, factor);
        points := points + [value];
        index := index + 1;
      }
      if index == |xs| {
        break;
      }
      last := row;
      lastNanos := nanos;
      r := r + 1;
    }
  }

  // ----- the marks -----

  function Delta(min: real, max: real, n: nat): real
    requires n > 0
  {
    (max - min) / n as real
  }

  /** The middle of the `i`-th of `n` equal parts between `min` and `max`. */
  function Mark(min: real, max: real, n: nat, i: nat): real
    requires n > 0
  {
    (min + i as real * Delta(min, max, n) + Delta(min, max, n) / 2.0) / NANOS_IN_MILI
  }

  function Marks(min: real, max: real, n: nat): (xs: seq<real>)
    requires n > 0
    ensures |xs| == n && forall i :: 0 <= i < n ==> xs[i] == Mark(min, max, n, i)
  {
    seq(n, i requires 0 <= i < n => Mark(min, max, n, i))
  }

  lemma Times(a: real, b: real, d: real)
    requires a < b && d > 0.0
    ensures a * d < b * d
  {
    assert (b - a) * d > 0.0;
  }

  lemma Parts(min: real, max: real, n: nat)
    requires n > 0 && min < max
    ensures Delta(min, max, n) > 0.0 && n as real * Delta(min, max, n) == max - min
  {}

  lemma MarkGrows(min: real, max: real, n: nat, i: nat, j: nat, d: real)
    requires i < j < n && d == Delta(min, max, n) > 0.0
    ensures Mark(min, max, n, i) < Mark(min, max, n, j)
  {
    hide Delta;
    Times(i as real, j as real, d);
    var u, v := min + i as real * d + d / 2.0, min + j as real * d + d / 2.0;
    assert u < v && Mark(min, max, n, i) == u / NANOS_IN_MILI && Mark(min, max, n, j) == v / NANOS_IN_MILI;
  }

  /** With a positive overlap the marks increase and lie strictly inside of it. */
  lemma MarksInside(min: real, max: real, n: nat)
    requires n > 0 && min < max
    ensures Increasing(Marks(min, max, n))
    ensures forall i :: 0 <= i < n ==> min / NANOS_IN_MILI < Marks(min, max, n)[i] < max / NANOS_IN_MILI
  {
    var d := Delta(min, max, n);
    Parts(min, max, n);
    hide Delta;
    forall i, j | 0 <= i < j < n ensures Marks(min, max, n)[i] < Marks(min, max, n)[j] {
      MarkGrows(min, max, n, i, j, d);
    }
    forall i | 0 <= i < n ensures min / NANOS_IN_MILI < Marks(min, max, n)[i] < max / NANOS_IN_MILI {
      MarkInside(min, max, n, i, d);
      var u := min + i as real * d + d / 2.0;
      assert Marks(min, max, n)[i] == Mark(min, max, n, i) == u / NANOS_IN_MILI;
    }
  }

  lemma MarkInside(min: real, max: real, n: nat, i: nat, d: real)
    requires i < n && d > 0.0 && n as real * d == max - min
    ensures min < min + i as real * d + d / 2.0 < max
  {
    if i > 0 { Times(0.0, i as real, d); }
    assert i as real * d <= (n - 1) as real * d by {
      if i < n - 1 { Times(i as real, (n - 1) as real, d); }
    }
    assert (n - 1) as real * d == n as real * d - d;
  }

  /** The marks are equally far from each other, and the first is as far from the start as the last is
      from the end. */
  lemma MarksEven(min: real, max: real, n: nat, i: nat)
    requires n > 0 && i < n
    ensures i > 0 ==> Marks(min, max, n)[i] - Marks(min, max, n)[i - 1] == (max - min) / n as real / 1000000.0
    ensures Marks(min, max, n)[0] - min / 1000000.0 == max / 1000000.0 - Marks(min, max, n)[n - 1]
  {
    var d := Delta(min, max, n);
    assert n as real * d == max - min;
    hide Delta;
    if i > 0 { assert i as real * d == (i - 1) as real * d + d; }
    assert (n - 1) as real * d == n as real * d - d;
    assert 0 as real * d == 0.0;
  }

  // ----- all series -----

  function Start(data: seq<Row>): real
    requires data != []
  {
    data[0].nanos
  }

  function End(data: seq<Row>): real
    requires data != []
  {
    data[|data| - 1].nanos
  }

  ghost predicate AllChecked(series: seq<seq<Row>>) {
    forall s :: 0 <= s < |series| ==> series[s] != [] && Checked(series[s])
  }

  /** From the latest start to the earliest end of all series. */
  ghost predicate IsOverlap(series: seq<seq<Row>>, min: real, max: real)
    requires AllChecked(series)
  {
    && (forall s :: 0 <= s < |series| ==> Start(series[s]) <= min && max <= End(series[s]))
    && (exists s :: 0 <= s < |series| && min == Start(series[s]))
    && (exists s :: 0 <= s < |series| && max == End(series[s]))
  }

  /** Every series has a segment for every mark if and only if the overlap is positive. */
  lemma CoveredIff(series: seq<seq<Row>>, min: real, max: real, n: nat)
    requires n > 0 && AllChecked(series) && IsOverlap(series, min, max)
    ensures (forall s, i :: 0 <= s < |series| && 0 <= i < n ==> Covers(series[s], Marks(min, max, n)[i])) <==> min < max
  {
    if min < max {
      MarksInside(min, max, n);
    } else {
      var s :| 0 <= s < |series| && max == End(series[s]);
      MarkBehind(min, max, n);
      assert !Covers(series[s], Marks(min, max, n)[0]);
    }
  }

  /** Without an overlap the first mark lies at or behind its end. */
  lemma MarkBehind(min: real, max: real, n: nat)
    requires n > 0 && min >= max
    ensures Mark(min, max, n, 0) >= max / NANOS_IN_MILI
  {
    var d := Delta(min, max, n);
    assert n as real * d == max - min;
    assert (n - 1) as real * d <= 0.0;
    assert n as real * d == (n - 1) as real * d + d;
    hide Delta;
    assert min + 0.0 * d + d / 2.0 >= max;
  }

  method Overlap(series: seq<seq<Row>>) returns (min: real, max: real)
    requires series != [] && AllChecked(series)
    ensures IsOverlap(series, min, max)
  {
    min, max := Start(series[0]), End(series[0]);
    for k := 0 to |series|
      invariant forall s :: 0 <= s < k ==> Start(series[s]) <= min && max <= End(series[s])
      invariant exists s :: 0 <= s < |series| && min == Start(series[s])
      invariant exists s :: 0 <= s < |series| && max == End(series[s])
    {
      if Start(series[k]) > min { min := Start(series[k]); }
      if End(series[k]) < max { max := End(series[k]); }
    }
  }

  /** No mark is left out if all lie before the end. */
  lemma AllMarks(xs: seq<real>, k: nat, end: real)
    requires k <= |xs| && (k < |xs| ==> xs[k] >= end) && forall i :: 0 <= i < |xs| ==> xs[i] < end
    ensures k == |xs|
  {}

  /** graphic_transform_data: if all series overlap, every one gets a value for every mark,
      the one that a search in the series finds. */
  method Transform(series: seq<seq<Row>>, n: nat, factor: Option<real>) returns (xs: seq<real>, all: seq<seq<real>>)
    requires n > 0 && series != [] && AllChecked(series)
    requires forall s, r :: 0 <= s < |series| && 0 <= r < |series| ==> Start(series[s]) < End(series[r])
    ensures Increasing(xs) && exists min, max :: IsOverlap(series, min, max) && xs == Marks(min, max, n)
    ensures |xs| == n && |all| == |series|
    ensures forall s :: 0 <= s < |series| ==> |all[s]| == n && Valued(series[s], xs, factor, all[s])
  {
    hide Increasing, Valued, Delta;
    var min, max := Overlap(series);
    MarksInside(min, max, n);
    xs := Marks(min, max, n);
    all := [];
    for s := 0 to |series|
      invariant |all| == s && forall r :: 0 <= r < s ==> |all[r]| == n && Valued(series[r], xs, factor, all[r])
    {
      var points := ResampleSeries(series[s], xs, factor);
      AllMarks(xs, |points|, Milli(series[s][|series[s]| - 1]));
      all := all + [points];
    }
  }
}
