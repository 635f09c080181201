/** The tree of metrics: src/common/metric.h.  A metric knows its own names and ratios and
    those of its parts, under a prefix, and passes every addition on to the metrics that it
    is a part of. */
module Metrics {

  type U64 = x: int | 0 <= x < 0x1_0000_0000_0000_0000

  /** A counter that a metric refers to. */
  class Cell {
    var value: U64

    constructor ()
      ensures value == 0
    {
      value := 0;
    }
  }

  type Key = (Metric, string)        // a name, in a metric
  type Links = map<Metric, seq<Key>> // for every metric, those it is a part of and the prefix used there
  type Refs = map<Key, Cell>
  type Ratios = map<Key, (string, string)>

  // ----- the specification -----

  /** No metric is a part of itself: `depth` decreases towards the wholes. */
  ghost predicate Layered(links: Links, depth: Metric -> nat) {
    forall m :: m in links ==> Above(links, links[m], depth, depth(m))
  }

  ghost predicate Above(links: Links, sups: seq<Key>, depth: Metric -> nat, d: nat) {
    forall i :: 0 <= i < |sups| ==> sups[i].0 in links && depth(sups[i].0) < d
  }

  /** Everywhere a name of `m` has to appear: in `m` itself and, under the accumulated
      prefix, in whatever `m` is a part of, directly or not. */
  ghost function Targets(links: Links, depth: Metric -> nat, m: Metric, name: string): seq<Key>
    requires Layered(links, depth) && m in links
    decreases depth(m), |links[m]| + 1
  {
    [(m, name)] + SupTargets(links, depth, m, 0, name)
  }

  /** The same for the wholes of `m` from the `i`-th on. */
  ghost function SupTargets(links: Links, depth: Metric -> nat, m: Metric, i: nat, name: string): seq<Key>
    requires Layered(links, depth) && m in links && i <= |links[m]|
    decreases depth(m), |links[m]| - i
  {
    if i == |links[m]| then []
    else
      assert Above(links, links[m], depth, depth(m));
      Targets(links, depth, links[m][i].0, links[m][i].1 + name) + SupTargets(links, depth, m, i + 1, name)
  }

  /** Entries are put in one after the other, up to the first whose name is taken. */
  ghost function Insert(refs: Refs, puts: seq<(Key, Cell)>): (bool, Refs)
    decreases puts
  {
    if puts == [] then (true, refs)
    else if puts[0].0 in refs then (false, refs)
    else Insert(refs[puts[0].0 := puts[0].1], puts[1..])
  }

  ghost function Tagged(keys: seq<Key>, c: Cell): (puts: seq<(Key, Cell)>)
    ensures |puts| == |keys| && forall i :: 0 <= i < |keys| ==> puts[i] == (keys[i], c)
  {
    seq(|keys|, i requires 0 <= i < |keys| => (keys[i], c))
  }

  // ----- what an addition does -----

  /** Exactly the new entries are put in, or there is an exception: when a name is taken or
      arrives twice. */
  lemma InsertIff(refs: Refs, puts: seq<(Key, Cell)>)
    ensures Insert(refs, puts).0 <==>
              && (forall i :: 0 <= i < |puts| ==> puts[i].0 !in refs)
              && (forall i, j :: 0 <= i < j < |puts| ==> puts[i].0 != puts[j].0)
    ensures forall k :: k in refs ==> k in Insert(refs, puts).1 && Insert(refs, puts).1[k] == refs[k]
    ensures forall k :: k in Insert(refs, puts).1 && k !in refs ==> exists i :: 0 <= i < |puts| && k == puts[i].0
    ensures Insert(refs, puts).0 ==>
              forall i :: 0 <= i < |puts| ==>
                puts[i].0 in Insert(refs, puts).1 && Insert(refs, puts).1[puts[i].0] == puts[i].1
  {
    hide Insert;
    InsertSucceeds(refs, puts);
    InsertGrows(refs, puts);
    if Insert(refs, puts).0 { InsertBrings(refs, puts); }
  }

  lemma {:induction false} InsertSucceeds(refs: Refs, puts: seq<(Key, Cell)>)
    ensures Insert(refs, puts).0 <==>
              && (forall i :: 0 <= i < |puts| ==> puts[i].0 !in refs)
              && (forall i, j :: 0 <= i < j < |puts| ==> puts[i].0 != puts[j].0)
    decreases puts
  {
    if puts != [] && puts[0].0 !in refs {
      InsertSucceeds(refs[puts[0].0 := puts[0].1], puts[1..]);
      hide Insert;
      assert forall i :: 0 < i < |puts| ==> puts[1..][i - 1] == puts[i];
    }
  }

  lemma {:induction false} InsertGrows(refs: Refs, puts: seq<(Key, Cell)>)
    ensures forall k :: k in refs ==> k in Insert(refs, puts).1 && Insert(refs, puts).1[k] == refs[k]
    ensures forall k :: k in Insert(refs, puts).1 && k !in refs ==> exists i :: 0 <= i < |puts| && k == puts[i].0
    decreases puts
  {
    if puts != [] && puts[0].0 !in refs {
      var rest, refs1 := puts[1..], refs[puts[0].0 := puts[0].1];
      InsertGrows(refs1, rest);
      assert Insert(refs, puts) == Insert(refs1, rest);
      forall k | k in Insert(refs, puts).1 && k !in refs ensures exists i :: 0 <= i < |puts| && k == puts[i].0 {
        if k != puts[0].0 {
          assert k !in refs1 && k in Insert(refs1, rest).1;
          var i :| 0 <= i < |rest| && k == rest[i].0;
          assert puts[i + 1].0 == k;
        }
      }
    }
  }

  lemma {:induction false} InsertBrings(refs: Refs, puts: seq<(Key, Cell)>)
    requires Insert(refs, puts).0
    ensures forall i :: 0 <= i < |puts| ==>
              puts[i].0 in Insert(refs, puts).1 && Insert(refs, puts).1[puts[i].0] == puts[i].1
    decreases puts
  {
    if puts != [] {
      var refs1 := refs[puts[0].0 := puts[0].1];
      InsertBrings(refs1, puts[1..]);
      InsertGrows(refs1, puts[1..]);
      assert forall i :: 0 < i < |puts| ==> puts[1..][i - 1] == puts[i];
    }
  }

  ghost function Up(link: Key, name: string): Key { (link.0, link.1 + name) }

  /** What a metric knows is known, under the prefix, to whatever it is a part of. */
  ghost predicate Visible(links: Links, refs: Refs) {
    forall k, i :: k in refs && k.0 in links && 0 <= i < |links[k.0]| ==> Shown(links, refs, k, i)
  }

  ghost predicate Shown(links: Links, refs: Refs, k: Key, i: int)
    requires k in refs && k.0 in links && 0 <= i < |links[k.0]|
  {
    var up := Up(links[k.0][i], k.1);
    up in refs && refs[up] == refs[k]
  }

  /** The targets are metrics, and none is deeper than `m`. */
  lemma {:induction false} TargetsAbove(links: Links, depth: Metric -> nat, m: Metric, name: string)
    requires Layered(links, depth) && m in links
    ensures forall k :: k in Targets(links, depth, m, name) ==>
              k.0 in links && (k == (m, name) || depth(k.0) < depth(m))
    decreases depth(m), |links[m]| + 1
  {
    SupTargetsAbove(links, depth, m, 0, name);
  }

  lemma {:induction false} SupTargetsAbove(links: Links, depth: Metric -> nat, m: Metric, i: nat, name: string)
    requires Layered(links, depth) && m in links && i <= |links[m]|
    ensures forall k :: k in SupTargets(links, depth, m, i, name) ==> k.0 in links && depth(k.0) < depth(m)
    decreases depth(m), |links[m]| - i
  {
    if i < |links[m]| {
      assert Above(links, links[m], depth, depth(m));
      TargetsAbove(links, depth, links[m][i].0, links[m][i].1 + name);
      SupTargetsAbove(links, depth, m, i + 1, name);
    }
  }

  /** With a target, its own wholes are targets too. */
  lemma {:induction false} TargetsClosed(links: Links, depth: Metric -> nat, m: Metric, name: string, k: Key, j: nat)
    requires Layered(links, depth) && m in links && k in Targets(links, depth, m, name)
    requires k.0 in links && j < |links[k.0]|
    ensures Up(links[k.0][j], k.1) in Targets(links, depth, m, name)
    decreases depth(m), |links[m]| + 1
  {
    if k == (m, name) {
      SupTargetsHas(links, depth, m, 0, name, j);
    } else {
      SupTargetsClosed(links, depth, m, 0, name, k, j);
    }
  }

  lemma {:induction false} SupTargetsHas(links: Links, depth: Metric -> nat, m: Metric, i: nat, name: string, j: nat)
    requires Layered(links, depth) && m in links && i <= j < |links[m]|
    ensures Up(links[m][j], name) in SupTargets(links, depth, m, i, name)
    decreases j - i
  {
    assert Above(links, links[m], depth, depth(m));
    if i < j {
      SupTargetsHas(links, depth, m, i + 1, name, j);
    } else {
      assert Targets(links, depth, links[m][i].0, links[m][i].1 + name)[0] == Up(links[m][j], name);
    }
  }

  lemma {:induction false} SupTargetsClosed(links: Links, depth: Metric -> nat, m: Metric, i: nat, name: string, k: Key,
                                            j: nat)
    requires Layered(links, depth) && m in links && i <= |links[m]| && k in SupTargets(links, depth, m, i, name)
    requires k.0 in links && j < |links[k.0]|
    ensures Up(links[k.0][j], k.1) in SupTargets(links, depth, m, i, name)
    decreases depth(m), |links[m]| - i
  {
    assert Above(links, links[m], depth, depth(m));
    if k in Targets(links, depth, links[m][i].0, links[m][i].1 + name) {
      TargetsClosed(links, depth, links[m][i].0, links[m][i].1 + name, k, j);
    } else {
      SupTargetsClosed(links, depth, m, i + 1, name, k, j);
    }
  }

  /** All but the names in `loose`, which an addition that failed half way has left, are shown above,
      and never by way of such a name. */
  ghost predicate Solid(links: Links, refs: Refs, loose: set<Key>) {
    loose <= refs.Keys &&
    forall k, i :: k in refs && k !in loose && k.0 in links && 0 <= i < |links[k.0]| ==> Firm(links, refs, loose, k, i)
  }

  ghost predicate Firm(links: Links, refs: Refs, loose: set<Key>, k: Key, i: int)
    requires k in refs && k.0 in links && 0 <= i < |links[k.0]|
  {
    Shown(links, refs, k, i) && Up(links[k.0][i], k.1) !in loose
  }

  lemma SolidIsVisible(links: Links, refs: Refs)
    ensures Solid(links, refs, {}) <==> Visible(links, refs)
  {
    if Visible(links, refs) {
      forall k: Key, i | k in refs && k.0 in links && 0 <= i < |links[k.0]| ensures Firm(links, refs, {}, k, i) {
        assert Shown(links, refs, k, i);
      }
    }
    if Solid(links, refs, {}) {
      forall k: Key, i | k in refs && k.0 in links && 0 <= i < |links[k.0]| ensures Shown(links, refs, k, i) {
        assert Firm(links, refs, {}, k, i);
      }
    }
  }

  /** What a metric knows is known everywhere above it, under the accumulated prefix, as the same cell. */
  lemma KnownEverywhere(links: Links, depth: Metric -> nat, refs: Refs, m: Metric, name: string)
    requires Layered(links, depth) && m in links && Visible(links, refs) && (m, name) in refs
    ensures forall k :: k in Targets(links, depth, m, name) ==> k in refs && refs[k] == refs[(m, name)]
  {
    SolidIsVisible(links, refs);
    SolidEverywhere(links, depth, refs, {}, m, name);
  }

  lemma {:induction false} SolidEverywhere(links: Links, depth: Metric -> nat, refs: Refs, loose: set<Key>, m: Metric,
                                           name: string)
    requires Layered(links, depth) && m in links && Solid(links, refs, loose) && (m, name) in refs
    requires (m, name) !in loose
    ensures forall k :: k in Targets(links, depth, m, name) ==> k in refs && refs[k] == refs[(m, name)]
    decreases depth(m), |links[m]| + 1
  {
    SolidAbove(links, depth, refs, loose, m, 0, name);
  }

  lemma {:induction false} SolidAbove(links: Links, depth: Metric -> nat, refs: Refs, loose: set<Key>, m: Metric,
                                      i: nat, name: string)
    requires Layered(links, depth) && m in links && Solid(links, refs, loose) && (m, name) in refs
    requires (m, name) !in loose
    requires i <= |links[m]|
    ensures forall k :: k in SupTargets(links, depth, m, i, name) ==> k in refs && refs[k] == refs[(m, name)]
    decreases depth(m), |links[m]| - i
  {
    if i < |links[m]| {
      assert Above(links, links[m], depth, depth(m));
      assert Firm(links, refs, loose, (m, name), i);
      SolidEverywhere(links, depth, refs, loose, links[m][i].0, links[m][i].1 + name);
      SolidAbove(links, depth, refs, loose, m, i + 1, name);
    }
  }

  /** What an addition leaves behind if it fails: the names it has made so far. */
  ghost function Left(refs: Refs, r: (bool, Refs)): (left: set<Key>)
    ensures forall k :: k in left ==> k !in refs && k in r.1
  {
    if r.0 then {} else r.1.Keys - refs.Keys
  }

  /** A new name is visible everywhere, and so is still all that was visible. */
  lemma AddVisible(links: Links, depth: Metric -> nat, refs: Refs, m: Metric, name: string, elem: Cell)
    requires Layered(links, depth) && m in links && Visible(links, refs)
    requires Insert(refs, Tagged(Targets(links, depth, m, name), elem)).0
    ensures Visible(links, Insert(refs, Tagged(Targets(links, depth, m, name), elem)).1)
  {
    hide Visible, Solid, Layered, Targets, Insert;
    SolidIsVisible(links, refs);
    AddSolid(links, depth, refs, {}, m, name, elem);
    assert {} + Left(refs, Insert(refs, Tagged(Targets(links, depth, m, name), elem))) == {};
    SolidIsVisible(links, Insert(refs, Tagged(Targets(links, depth, m, name), elem)).1);
  }

  /** An addition that fails half way loosens no name but those it has made itself. */
  lemma AddSolid(links: Links, depth: Metric -> nat, refs: Refs, loose: set<Key>, m: Metric, name: string, elem: Cell)
    requires Layered(links, depth) && m in links && Solid(links, refs, loose)
    ensures var r := Insert(refs, Tagged(Targets(links, depth, m, name), elem));
            Solid(links, r.1, loose + Left(refs, r))
  {
    hide Insert, Layered, Targets;
    var t := Targets(links, depth, m, name);
    var puts := Tagged(t, elem);
    var r := Insert(refs, puts);
    var loose' := loose + Left(refs, r);
    InsertIff(refs, puts);
    forall k: Key, i | k in r.1 && k !in loose' && k.0 in links && 0 <= i < |links[k.0]|
      ensures Firm(links, r.1, loose', k, i)
    {
      if k in refs {
        assert Firm(links, refs, loose, k, i);
      } else {
        AddedKey(refs, t, elem, k);
        TargetsClosed(links, depth, m, name, k, i);
        AddedKey(refs, t, elem, Up(links[k.0][i], k.1));
      }
    }
  }

  lemma AddedKey(refs: Refs, t: seq<Key>, elem: Cell, k: Key)
    requires Insert(refs, Tagged(t, elem)).0
    ensures k in t ==> k in Insert(refs, Tagged(t, elem)).1 && Insert(refs, Tagged(t, elem)).1[k] == elem
    ensures k in Insert(refs, Tagged(t, elem)).1 ==> k in refs || k in t
    ensures k in t ==> k !in refs
  {
    var puts := Tagged(t, elem);
    InsertIff(refs, puts);
    if k in t {
      var i :| 0 <= i < |t| && t[i] == k;
      assert puts[i] == (k, elem);
    }
  }

  // ----- ratios -----

  /** A ratio is put in at every target `t`, with its terms `num` and `den` under the same prefixes. */
  ghost function PutRatios(refs: Refs, ratios: Ratios, t: seq<Key>, num: seq<Key>, den: seq<Key>): (bool, Ratios)
    requires |t| == |num| == |den|
    decreases t
  {
    if t == [] then (true, ratios)
    else if t[0] in refs || num[0] !in refs || den[0] !in refs then (false, ratios)
    else PutRatios(refs, ratios[t[0] := (num[0].1, den[0].1)], t[1..], num[1..], den[1..])
  }

  ghost function AddRatioOf(links: Links, depth: Metric -> nat, refs: Refs, ratios: Ratios,
                            m: Metric, name: string, num: string, den: string): (bool, Ratios)
    requires Layered(links, depth) && m in links
  {
    TargetsAligned(links, depth, m, name, num);
    TargetsAligned(links, depth, m, name, den);
    PutRatios(refs, ratios, Targets(links, depth, m, name), Targets(links, depth, m, num),
              Targets(links, depth, m, den))
  }

  /** The metrics above `m` and the prefixes used there do not depend on the name. */
  lemma {:induction false} TargetsAppend(links: Links, depth: Metric -> nat, m: Metric, a: string, b: string)
    requires Layered(links, depth) && m in links
    ensures Appended(Targets(links, depth, m, a), Targets(links, depth, m, a + b), b)
    decreases depth(m), |links[m]| + 1
  {
    SupTargetsAppend(links, depth, m, 0, a, b);
  }

  lemma {:induction false} SupTargetsAppend(links: Links, depth: Metric -> nat, m: Metric, i: nat, a: string, b: string)
    requires Layered(links, depth) && m in links && i <= |links[m]|
    ensures Appended(SupTargets(links, depth, m, i, a), SupTargets(links, depth, m, i, a + b), b)
    decreases depth(m), |links[m]| - i
  {
    if i < |links[m]| {
      assert Above(links, links[m], depth, depth(m));
      var (s, p) := links[m][i];
      assert p + (a + b) == (p + a) + b;
      TargetsAppend(links, depth, s, p + a, b);
      SupTargetsAppend(links, depth, m, i + 1, a, b);
    }
  }

  ghost predicate Appended(t: seq<Key>, t': seq<Key>, b: string) {
    |t'| == |t| && forall i :: 0 <= i < |t| ==> t'[i] == (t[i].0, t[i].1 + b)
  }

  lemma TargetsAligned(links: Links, depth: Metric -> nat, m: Metric, a: string, b: string)
    requires Layered(links, depth) && m in links
    ensures |Targets(links, depth, m, a)| == |Targets(links, depth, m, b)|
  {
    PathsOf(links, depth, m, a);
    PathsOf(links, depth, m, b);
  }

  /** The paths up from `m`: the targets of the empty name. */
  lemma PathsOf(links: Links, depth: Metric -> nat, m: Metric, name: string)
    requires Layered(links, depth) && m in links
    ensures Appended(Targets(links, depth, m, ""), Targets(links, depth, m, name), name)
  {
    TargetsAppend(links, depth, m, "", name);
    assert "" + name == name;
  }

  lemma {:induction false} PutRatiosIff(refs: Refs, ratios: Ratios, t: seq<Key>, num: seq<Key>, den: seq<Key>)
    requires |t| == |num| == |den|
    ensures PutRatios(refs, ratios, t, num, den).0 <==>
              forall i :: 0 <= i < |t| ==> t[i] !in refs && num[i] in refs && den[i] in refs
    decreases t
  {
    if t != [] && t[0] !in refs && num[0] in refs && den[0] in refs {
      var (t', n', d') := (t[1..], num[1..], den[1..]);
      PutRatiosIff(refs, ratios[t[0] := (num[0].1, den[0].1)], t', n', d');
      assert forall i :: 0 < i < |t| ==> t'[i - 1] == t[i] && n'[i - 1] == num[i] && d'[i - 1] == den[i];
    }
  }

  /** The same target is always given the same terms. */
  ghost predicate Consistent(t: seq<Key>, num: seq<Key>, den: seq<Key>)
    requires |t| == |num| == |den|
  {
    forall i, j :: 0 <= i < j < |t| && t[i] == t[j] ==> num[i].1 == num[j].1 && den[i].1 == den[j].1
  }

  lemma PutRatiosAt(refs: Refs, ratios: Ratios, t: seq<Key>, num: seq<Key>, den: seq<Key>)
    requires |t| == |num| == |den| && Consistent(t, num, den) && PutRatios(refs, ratios, t, num, den).0
    ensures var r := PutRatios(refs, ratios, t, num, den).1;
      && (forall k :: k in ratios ==> k in r)
      && (forall k :: k in r ==> k in ratios || k in t)
      && (forall k :: k in ratios && k !in t ==> r[k] == ratios[k])
      && (forall i :: 0 <= i < |t| ==> t[i] in r && r[t[i]] == (num[i].1, den[i].1))
  {
    hide PutRatios;
    PutRatiosKeys(refs, ratios, t, num, den);
    forall k | k in ratios && k !in t ensures PutRatios(refs, ratios, t, num, den).1[k] == ratios[k] {
      PutRatiosLeaves(refs, ratios, t, num, den, k);
    }
    forall i | 0 <= i < |t| ensures PutRatios(refs, ratios, t, num, den).1[t[i]] == (num[i].1, den[i].1) {
      PutRatiosHas(refs, ratios, t, num, den, i);
    }
  }

  lemma {:induction false} PutRatiosKeys(refs: Refs, ratios: Ratios, t: seq<Key>, num: seq<Key>, den: seq<Key>)
    requires |t| == |num| == |den| && PutRatios(refs, ratios, t, num, den).0
    ensures PutRatios(refs, ratios, t, num, den).1.Keys == ratios.Keys + set k | k in t
    decreases t
  {
    if t != [] {
      PutRatiosKeys(refs, ratios[t[0] := (num[0].1, den[0].1)], t[1..], num[1..], den[1..]);
      hide PutRatios;
      assert (set k | k in t) == {t[0]} + set k | k in t[1..] by {
        assert t == [t[0]] + t[1..];
      }
    }
  }

  lemma {:induction false} PutRatiosLeaves(refs: Refs, ratios: Ratios, t: seq<Key>, num: seq<Key>, den: seq<Key>,
                                           k: Key)
    requires |t| == |num| == |den| && k in ratios && k !in t
    ensures var r := PutRatios(refs, ratios, t, num, den).1; k in r && r[k] == ratios[k]
    decreases t
  {
    if t != [] && t[0] !in refs && num[0] in refs && den[0] in refs {
      PutRatiosLeaves(refs, ratios[t[0] := (num[0].1, den[0].1)], t[1..], num[1..], den[1..], k);
    }
  }

  /** A target that comes up again later is given the same terms. */
  lemma {:induction false} PutRatiosHas(refs: Refs, ratios: Ratios, t: seq<Key>, num: seq<Key>, den: seq<Key>, i: nat)
    requires |t| == |num| == |den| && Consistent(t, num, den) && PutRatios(refs, ratios, t, num, den).0 && i < |t|
    ensures var r := PutRatios(refs, ratios, t, num, den).1; t[i] in r && r[t[i]] == (num[i].1, den[i].1)
    decreases t
  {
    var (t', n', d') := (t[1..], num[1..], den[1..]);
    var ratios1 := ratios[t[0] := (num[0].1, den[0].1)];
    assert Consistent(t', n', d') by {
      assert forall j :: 0 <= j < |t'| ==> t'[j] == t[j + 1] && n'[j] == num[j + 1] && d'[j] == den[j + 1];
    }
    if i > 0 {
      PutRatiosHas(refs, ratios1, t', n', d', i - 1);
    } else if t[0] in t' {
      var j :| 0 <= j < |t'| && t'[j] == t[0];
      PutRatiosHas(refs, ratios1, t', n', d', j);
      assert t[j + 1] == t[0] && n'[j] == num[j + 1] && d'[j] == den[j + 1];
    } else {
      PutRatiosLeaves(refs, ratios1, t', n', d', t[0]);
    }
  }

  /** What a metric adds to a ratio on the way up. */
  ghost function Shifted(p: string, r: (string, string)): (string, string) { (p + r.0, p + r.1) }

  ghost predicate RatiosVisible(links: Links, ratios: Ratios) {
    forall k, i :: k in ratios && k.0 in links && 0 <= i < |links[k.0]| ==> RatioShown(links, ratios, k, i)
  }

  ghost predicate RatioShown(links: Links, ratios: Ratios, k: Key, i: int)
    requires k in ratios && k.0 in links && 0 <= i < |links[k.0]|
  {
    var up := Up(links[k.0][i], k.1);
    up in ratios && ratios[up] == Shifted(links[k.0][i].1, ratios[k])
  }

  /** No other part has a ratio that shows under the name of a target, unless with the same terms:
      the check that add_ratio does not make. */
  ghost predicate NoClash(links: Links, ratios: Ratios, t: seq<Key>, num: seq<Key>, den: seq<Key>)
    requires |t| == |num| == |den|
  {
    forall k, i, j :: k in ratios && k !in t && k.0 in links && 0 <= i < |links[k.0]| && 0 <= j < |t| ==>
      t[j] == Up(links[k.0][i], k.1) ==> Shifted(links[k.0][i].1, ratios[k]) == (num[j].1, den[j].1)
  }

  lemma RatioConsistent(links: Links, depth: Metric -> nat, m: Metric, name: string, num: string, den: string)
    requires Layered(links, depth) && m in links
    ensures var (t, n, d) :=
            (Targets(links, depth, m, name), Targets(links, depth, m, num), Targets(links, depth, m, den));
      |t| == |n| == |d| && Consistent(t, n, d)
  {
    PathsOf(links, depth, m, name);
    PathsOf(links, depth, m, num);
    PathsOf(links, depth, m, den);
    var paths, t := Targets(links, depth, m, ""), Targets(links, depth, m, name);
    forall i, j | 0 <= i < j < |t| && t[i] == t[j] ensures paths[i].1 == paths[j].1 {
      SuffixCancels(paths[i].1, paths[j].1, name);
    }
  }

  lemma SuffixCancels(p: string, q: string, name: string)
    requires p + name == q + name
    ensures p == q
  {
    assert |p + name| == |p| + |name| && |q + name| == |q| + |name|;
    assert p == (p + name)[..|p|] && q == (q + name)[..|q|];
  }

  /** add_ratio fails exactly if a term is missing in the metric itself or the name is taken by
      a plain name somewhere; the terms are never missing further up. */
  lemma AddRatioIff(links: Links, depth: Metric -> nat, refs: Refs, ratios: Ratios, m: Metric, name: string,
                    num: string, den: string)
    requires Layered(links, depth) && m in links && Visible(links, refs)
    ensures AddRatioOf(links, depth, refs, ratios, m, name, num, den).0 <==>
              (m, num) in refs && (m, den) in refs && forall k :: k in Targets(links, depth, m, name) ==> k !in refs
  {
    var (t, n, d) := (Targets(links, depth, m, name), Targets(links, depth, m, num), Targets(links, depth, m, den));
    RatioConsistent(links, depth, m, name, num, den);
    PutRatiosIff(refs, ratios, t, n, d);
    assert n[0] == (m, num) && d[0] == (m, den);
    if (m, num) in refs { KnownEverywhere(links, depth, refs, m, num); }
    if (m, den) in refs { KnownEverywhere(links, depth, refs, m, den); }
  }

  /** The ratios stay visible if and only if there is no clash. */
  lemma AddRatioVisible(links: Links, depth: Metric -> nat, refs: Refs, ratios: Ratios, m: Metric, name: string,
                        num: string, den: string)
    requires Layered(links, depth) && m in links && RatiosVisible(links, ratios)
    requires AddRatioOf(links, depth, refs, ratios, m, name, num, den).0
    ensures |Targets(links, depth, m, name)| == |Targets(links, depth, m, num)| == |Targets(links, depth, m, den)|
    ensures RatiosVisible(links, AddRatioOf(links, depth, refs, ratios, m, name, num, den).1) <==>
              NoClash(links, ratios, Targets(links, depth, m, name), Targets(links, depth, m, num),
                      Targets(links, depth, m, den))
  {
    hide Targets, SupTargets;
    var (t, n, d) := (Targets(links, depth, m, name), Targets(links, depth, m, num), Targets(links, depth, m, den));
    RatioConsistent(links, depth, m, name, num, den);
    PutRatiosAt(refs, ratios, t, n, d);
    var r := PutRatios(refs, ratios, t, n, d).1;
    if NoClash(links, ratios, t, n, d) {
      forall k: Key, i | k in r && k.0 in links && 0 <= i < |links[k.0]| ensures RatioShown(links, r, k, i) {
        if k in t {
          var j :| 0 <= j < |t| && t[j] == k;
          var j' := NextTarget(links, depth, m, name, num, den, j, i);
        } else {
          assert RatioShown(links, ratios, k, i);
        }
      }
    }
    if RatiosVisible(links, r) {
      forall k: Key, i, j
        | k in ratios && k !in t && k.0 in links && 0 <= i < |links[k.0]| && 0 <= j < |t|
          && t[j] == Up(links[k.0][i], k.1)
        ensures Shifted(links[k.0][i].1, ratios[k]) == (n[j].1, d[j].1)
      {
        assert RatioShown(links, r, k, i);
      }
    }
  }

  /** Whether it succeeds or fails half way, add_ratio leaves what is shown under other names. */
  lemma OtherRatiosStay(links: Links, depth: Metric -> nat, refs: Refs, ratios: Ratios, m: Metric, name: string,
                        num: string, den: string, k: Key, i: nat)
    requires Layered(links, depth) && m in links && k in ratios && k.0 in links && i < |links[k.0]|
    requires RatioShown(links, ratios, k, i)
    requires k !in Targets(links, depth, m, name) && Up(links[k.0][i], k.1) !in Targets(links, depth, m, name)
    ensures var r := AddRatioOf(links, depth, refs, ratios, m, name, num, den).1;
            k in r && r[k] == ratios[k] && RatioShown(links, r, k, i)
  {
    hide Targets, SupTargets, PutRatios, Layered;
    TargetsAligned(links, depth, m, name, num);
    TargetsAligned(links, depth, m, name, den);
    var (t, n, d) := (Targets(links, depth, m, name), Targets(links, depth, m, num), Targets(links, depth, m, den));
    PutRatiosLeaves(refs, ratios, t, n, d, k);
    PutRatiosLeaves(refs, ratios, t, n, d, Up(links[k.0][i], k.1));
  }

  /** The target that the `j`-th one has above it, in step for a ratio and its terms. */
  lemma NextTarget(links: Links, depth: Metric -> nat, m: Metric, name: string, num: string, den: string, j: nat,
                   i: nat) returns (j': nat)
    requires Layered(links, depth) && m in links && j < |Targets(links, depth, m, name)|
    requires var k := Targets(links, depth, m, name)[j]; k.0 in links && i < |links[k.0]|
    ensures |Targets(links, depth, m, name)| == |Targets(links, depth, m, num)| == |Targets(links, depth, m, den)|
    ensures j' < |Targets(links, depth, m, name)|
    ensures var l := links[Targets(links, depth, m, name)[j].0][i];
      && Targets(links, depth, m, name)[j'] == Up(l, Targets(links, depth, m, name)[j].1)
      && Targets(links, depth, m, num)[j'].1 == l.1 + Targets(links, depth, m, num)[j].1
      && Targets(links, depth, m, den)[j'].1 == l.1 + Targets(links, depth, m, den)[j].1
  {
    hide Targets, SupTargets;
    PathsOf(links, depth, m, name);
    PathsOf(links, depth, m, num);
    PathsOf(links, depth, m, den);
    var paths := Targets(links, depth, m, "");
    var l := links[paths[j].0][i];
    TargetsClosed(links, depth, m, "", paths[j], i);
    j' :| 0 <= j' < |paths| && paths[j'] == Up(l, paths[j].1);
    assert forall x: string :: (l.1 + paths[j].1) + x == l.1 + (paths[j].1 + x);
  }

  /** Every ratio's terms are names of the same metric. */
  ghost predicate TermsKnown(refs: Refs, ratios: Ratios) {
    forall k :: k in ratios ==> (k.0, ratios[k].0) in refs && (k.0, ratios[k].1) in refs
  }

  /** No addition of a ratio, failed or not, leaves one without its terms. */
  lemma AddRatioKnown(links: Links, depth: Metric -> nat, refs: Refs, ratios: Ratios, m: Metric, name: string,
                      num: string, den: string)
    requires Layered(links, depth) && m in links && TermsKnown(refs, ratios)
    ensures TermsKnown(refs, AddRatioOf(links, depth, refs, ratios, m, name, num, den).1)
  {
    PathsOf(links, depth, m, name);
    PathsOf(links, depth, m, num);
    PathsOf(links, depth, m, den);
    PutRatiosKnown(refs, ratios, Targets(links, depth, m, name), Targets(links, depth, m, num),
                   Targets(links, depth, m, den));
  }

  lemma {:induction false} PutRatiosKnown(refs: Refs, ratios: Ratios, t: seq<Key>, num: seq<Key>, den: seq<Key>)
    requires |t| == |num| == |den| && TermsKnown(refs, ratios)
    requires forall i :: 0 <= i < |t| ==> t[i].0 == num[i].0 == den[i].0
    ensures TermsKnown(refs, PutRatios(refs, ratios, t, num, den).1)
    decreases t
  {
    if t != [] && t[0] !in refs && num[0] in refs && den[0] in refs {
      PutRatiosKnown(refs, ratios[t[0] := (num[0].1, den[0].1)], t[1..], num[1..], den[1..]);
    }
  }

  /** A ratio divides the same two cells wherever it is visible. */
  lemma RatioSame(links: Links, refs: Refs, ratios: Ratios, k: Key, i: nat)
    requires Visible(links, refs) && RatiosVisible(links, ratios) && TermsKnown(refs, ratios)
    requires k in ratios && k.0 in links && i < |links[k.0]|
    ensures var up := Up(links[k.0][i], k.1);
      && up in ratios && (up.0, ratios[up].0) in refs && (up.0, ratios[up].1) in refs
      && (k.0, ratios[k].0) in refs && (k.0, ratios[k].1) in refs
      && refs[(up.0, ratios[up].0)] == refs[(k.0, ratios[k].0)]
      && refs[(up.0, ratios[up].1)] == refs[(k.0, ratios[k].1)]
  {
    assert RatioShown(links, ratios, k, i);
    assert Shown(links, refs, (k.0, ratios[k].0), i) && Shown(links, refs, (k.0, ratios[k].1), i);
  }

  // ----- linking -----

  /** The entries that a link brings in: all names of the part, under the prefix, in their order. */
  ghost function LinkPuts(links: Links, depth: Metric -> nat, m: Metric, prefix: string,
                          names: map<string, Cell>, order: seq<string>): seq<(Key, Cell)>
    requires Layered(links, depth) && m in links && forall x :: x in order ==> x in names
    decreases order
  {
    if order == [] then []
    else
      Tagged(Targets(links, depth, m, prefix + order[0]), names[order[0]])
      + LinkPuts(links, depth, m, prefix, names, order[1..])
  }

  /** The same for its ratios. */
  ghost function LinkRatios(links: Links, depth: Metric -> nat, refs: Refs, ratios: Ratios, m: Metric, prefix: string,
                            names: map<string, (string, string)>, order: seq<string>): (bool, Ratios)
    requires Layered(links, depth) && m in links && forall x :: x in order ==> x in names
    decreases order
  {
    if order == [] then (true, ratios)
    else
      var (num, den) := names[order[0]];
      var r := AddRatioOf(links, depth, refs, ratios, m, prefix + order[0], prefix + num, prefix + den);
      if r.0 then LinkRatios(links, depth, refs, r.1, m, prefix, names, order[1..]) else r
  }

  /** The links without those to `m`. */
  function Without(sups: seq<Key>, m: Metric): (r: seq<Key>)
    ensures forall i :: 0 <= i < |r| ==> r[i] in sups && r[i].0 != m
    ensures forall i :: 0 <= i < |sups| && sups[i].0 != m ==> sups[i] in r
  {
    if sups == [] then [] else if sups[0].0 == m then Without(sups[1..], m) else [sups[0]] + Without(sups[1..], m)
  }

  function Inserted(rest: seq<Key>, i: nat, k: Key): (r: seq<Key>)
    requires i <= |rest|
    ensures k in r && forall x :: x in r ==> x in rest || x == k
    ensures forall x :: x in rest ==> x in r
  {
    assert rest == rest[..i] + rest[i..];
    rest[..i] + [k] + rest[i..]
  }

  /** sups[m] = prefix, in a map whose keys are ordered by address: `at` is the place of `m`. */
  function WithSup(sups: seq<Key>, m: Metric, prefix: string, at: nat): (r: seq<Key>)
    ensures (m, prefix) in r && forall i :: 0 <= i < |r| ==> r[i] == (m, prefix) || (r[i] in sups && r[i].0 != m)
    ensures forall i :: 0 <= i < |sups| && sups[i].0 != m ==> sups[i] in r
  {
    var rest := Without(sups, m);
    Inserted(rest, if at <= |rest| then at else |rest|, (m, prefix))
  }

  ghost predicate NamesOf<V>(entries: map<Key, V>, m: Metric, names: map<string, V>) {
    forall x :: (x in names <==> (m, x) in entries) && (x in names ==> names[x] == entries[(m, x)])
  }

  /** What a link leaves behind if it fails at one of the names. */
  ghost function LinkLeft(links: Links, depth: Metric -> nat, refs: Refs, m: Metric, prefix: string,
                          names: map<string, Cell>, order: seq<string>): set<Key>
    requires Layered(links, depth) && m in links && forall x :: x in order ==> x in names
    decreases order
  {
    if order == [] then {}
    else
      var r := Insert(refs, Tagged(Targets(links, depth, m, prefix + order[0]), names[order[0]]));
      if r.0 then LinkLeft(links, depth, r.1, m, prefix, names, order[1..]) else Left(refs, r)
  }

  /** A name of a part, once put in, is known to the whole; a link that fails at a name loosens no
      others than those made for it. */
  lemma {:induction false} LinkPutsSolid(links: Links, depth: Metric -> nat, refs: Refs, loose: set<Key>, m: Metric,
                                         prefix: string, names: map<string, Cell>, order: seq<string>)
    requires Layered(links, depth) && m in links && (forall x :: x in order ==> x in names) && Solid(links, refs, loose)
    ensures var r := Insert(refs, LinkPuts(links, depth, m, prefix, names, order));
      && Solid(links, r.1, loose + LinkLeft(links, depth, refs, m, prefix, names, order))
      && (forall k :: k in refs ==> k in r.1 && r.1[k] == refs[k])
      && (r.0 ==>
            && LinkLeft(links, depth, refs, m, prefix, names, order) == {}
            && (forall k :: k in r.1 && k !in refs ==> k.0 in links && depth(k.0) <= depth(m))
            && (forall x :: x in order ==> PutFor(refs, r.1, m, prefix + x, names[x])))
    decreases order
  {
    hide Solid, Layered, Targets, SupTargets, Insert;
    if order == [] {
      InsertNone(refs);
      assert loose + {} == loose;
    } else {
      var t, c := Targets(links, depth, m, prefix + order[0]), names[order[0]];
      var rest := LinkPuts(links, depth, m, prefix, names, order[1..]);
      var r := Insert(refs, Tagged(t, c));
      InsertConcat(refs, Tagged(t, c), rest);
      AddSolid(links, depth, refs, loose, m, prefix + order[0], c);
      InsertIff(refs, Tagged(t, c));
      if r.0 {
        assert loose + Left(refs, r) == loose;
        LinkPutsSolid(links, depth, r.1, loose, m, prefix, names, order[1..]);
        TargetsAbove(links, depth, m, prefix + order[0]);
        TargetFirst(links, depth, m, prefix + order[0]);
        forall k | k in r.1 && k !in refs ensures k in t { AddedKey(refs, t, c, k); }
        AddedKey(refs, t, c, (m, prefix + order[0]));
        assert forall x :: x in order ==> x == order[0] || x in order[1..];
      }
    }
  }

  /** A name that was not there stands for `c`. */
  ghost predicate PutFor(refs: Refs, refs': Refs, m: Metric, name: string, c: Cell) {
    (m, name) !in refs && (m, name) in refs' && refs'[(m, name)] == c
  }

  lemma InsertNone(refs: Refs)
    ensures Insert(refs, []) == (true, refs)
  {}

  lemma TargetFirst(links: Links, depth: Metric -> nat, m: Metric, name: string)
    requires Layered(links, depth) && m in links
    ensures (m, name) in Targets(links, depth, m, name) && Targets(links, depth, m, name)[0] == (m, name)
  {
    assert Targets(links, depth, m, name)[0] == (m, name);
  }

  ghost function Linked(links: Links, m: Metric, prefix: string, sub: Metric, at: nat): Links
    requires sub in links
  {
    links[sub := WithSup(links[sub], m, prefix, at)]
  }

  lemma LinkLayered(links: Links, depth: Metric -> nat, m: Metric, prefix: string, sub: Metric, at: nat)
    requires Layered(links, depth) && m in links && sub in links && depth(m) < depth(sub)
    ensures Layered(Linked(links, m, prefix, sub, at), depth)
  {
    var links' := Linked(links, m, prefix, sub, at);
    forall x | x in links' ensures Above(links', links'[x], depth, depth(x)) {
      assert Above(links, links[x], depth, depth(x));
      forall i | 0 <= i < |links'[x]| ensures links'[x][i].0 in links' && depth(links'[x][i].0) < depth(x) {
        assert links'[x][i] in links'[x];
        if links'[x][i] in links[x] { var j :| 0 <= j < |links[x]| && links[x][j] == links'[x][i]; }
      }
    }
  }

  /** Whatever the part knew before the link, the whole and everything above it know after it,
      and nothing is lost; that holds even of names that were left by an addition that failed. */
  lemma LinkVisible(links: Links, depth: Metric -> nat, refs: Refs, loose: set<Key>, m: Metric, prefix: string,
                    sub: Metric, at: nat, names: map<string, Cell>, order: seq<string>)
    requires Layered(links, depth) && m in links && sub in links && depth(m) < depth(sub)
    requires NamesOf(refs, sub, names) && forall x :: x in order <==> x in names
    requires Solid(links, refs, loose) && Insert(refs, LinkPuts(links, depth, m, prefix, names, order)).0
    ensures Solid(Linked(links, m, prefix, sub, at), Insert(refs, LinkPuts(links, depth, m, prefix, names, order)).1,
                  loose)
  {
    hide Layered, LinkPuts, Insert, WithSup, Without;
    LinkPutsSolid(links, depth, refs, loose, m, prefix, names, order);
    assert loose + {} == loose;
    var links', refs' :=
      Linked(links, m, prefix, sub, at), Insert(refs, LinkPuts(links, depth, m, prefix, names, order)).1;
    forall k: Key, i | k in refs' && k !in loose && k.0 in links' && 0 <= i < |links'[k.0]|
      ensures Firm(links', refs', loose, k, i)
    {
      var l := links'[k.0][i];
      assert l in links'[k.0];
      if l in links[k.0] {
        var j :| 0 <= j < |links[k.0]| && links[k.0][j] == l;
        assert Firm(links, refs', loose, k, j);
      } else {
        assert k.0 == sub && l == (m, prefix) && k in refs;
        assert PutFor(refs, refs', m, prefix + k.1, names[k.1]);
      }
    }
  }

  /** No clash at any of the ratios that a link brings in. */
  ghost predicate LinkClear(links: Links, depth: Metric -> nat, refs: Refs, ratios: Ratios, m: Metric, prefix: string,
                            names: map<string, (string, string)>, order: seq<string>)
    requires Layered(links, depth) && m in links && forall x :: x in order ==> x in names
    decreases order
  {
    order != [] ==>
      var (num, den) := names[order[0]];
      var (t, n, d) :=
        (Targets(links, depth, m, prefix + order[0]), Targets(links, depth, m, prefix + num),
         Targets(links, depth, m, prefix + den));
      && |t| == |n| == |d| && NoClash(links, ratios, t, n, d)
      && LinkClear(links, depth, refs,
                   AddRatioOf(links, depth, refs, ratios, m, prefix + order[0], prefix + num, prefix + den).1,
                   m, prefix, names, order[1..])
  }

  /** What an accepted ratio changes: only the metric itself and those above it. */
  lemma AddRatioEffect(links: Links, depth: Metric -> nat, refs: Refs, ratios: Ratios, m: Metric, name: string,
                       num: string, den: string)
    requires Layered(links, depth) && m in links && AddRatioOf(links, depth, refs, ratios, m, name, num, den).0
    ensures var r := AddRatioOf(links, depth, refs, ratios, m, name, num, den).1;
      && (m, name) in r && r[(m, name)] == (num, den)
      && (forall k :: k in ratios ==> k in r)
      && (forall k :: k in r && k !in ratios ==> k.0 in links && depth(k.0) <= depth(m))
      && (forall k :: k in ratios && k != (m, name) && depth(k.0) >= depth(m) ==> r[k] == ratios[k])
  {
    hide Targets, SupTargets, Layered, Consistent, PutRatios;
    var (t, n, d) := (Targets(links, depth, m, name), Targets(links, depth, m, num), Targets(links, depth, m, den));
    RatioConsistent(links, depth, m, name, num, den);
    PutRatiosAt(refs, ratios, t, n, d);
    TargetsAbove(links, depth, m, name);
    TargetFirst(links, depth, m, name);
    TargetFirst(links, depth, m, num);
    TargetFirst(links, depth, m, den);
    var r := PutRatios(refs, ratios, t, n, d).1;
    forall k | k in r && k !in ratios ensures k.0 in links && depth(k.0) <= depth(m) {
      assert k in t;
    }
  }

  lemma {:induction false} LinkRatiosVisible(links: Links, depth: Metric -> nat, refs: Refs, ratios: Ratios, m: Metric,
                                             prefix: string, names: map<string, (string, string)>, order: seq<string>)
    requires Layered(links, depth) && m in links && (forall x :: x in order ==> x in names)
    requires forall i, j :: 0 <= i < j < |order| ==> order[i] != order[j]
    requires RatiosVisible(links, ratios) && LinkClear(links, depth, refs, ratios, m, prefix, names, order)
    requires LinkRatios(links, depth, refs, ratios, m, prefix, names, order).0
    ensures var r := LinkRatios(links, depth, refs, ratios, m, prefix, names, order).1;
      && RatiosVisible(links, r)
      && (forall k :: k in ratios ==> k in r)
      && (forall k :: k in r && k !in ratios ==> k.0 in links && depth(k.0) <= depth(m))
      && (forall k :: k in ratios && depth(k.0) >= depth(m) && (forall x :: x in order ==> k != (m, prefix + x)) ==>
          r[k] == ratios[k])
      && (forall x :: x in order ==> (m, prefix + x) in r && r[(m, prefix + x)] == Shifted(prefix, names[x]))
    decreases order
  {
    hide RatiosVisible, Layered, Targets, SupTargets, NoClash, AddRatioOf;
    if order != [] {
      var x := order[0];
      var (num, den) := names[x];
      AddRatioVisible(links, depth, refs, ratios, m, prefix + x, prefix + num, prefix + den);
      AddRatioEffect(links, depth, refs, ratios, m, prefix + x, prefix + num, prefix + den);
      var ratios1 := AddRatioOf(links, depth, refs, ratios, m, prefix + x, prefix + num, prefix + den).1;
      LinkRatiosVisible(links, depth, refs, ratios1, m, prefix, names, order[1..]);
      forall y | y in order[1..] ensures (m, prefix + x) != (m, prefix + y) { PrefixCancels(prefix, x, y, order); }
      assert forall y :: y in order ==> y == x || y in order[1..];
    }
  }

  lemma PrefixCancels(prefix: string, x: string, y: string, order: seq<string>)
    requires |order| > 0 && x == order[0] && y in order[1..]
    requires forall i, j :: 0 <= i < j < |order| ==> order[i] != order[j]
    ensures prefix + x != prefix + y
  {
    assert x == (prefix + x)[|prefix|..] && y == (prefix + y)[|prefix|..];
  }

  /** The ratios of the part are known to the whole and above, if there was no clash. */
  lemma LinkKeepsRatios(links: Links, depth: Metric -> nat, refs: Refs, ratios: Ratios, m: Metric, prefix: string,
                        sub: Metric, at: nat, names: map<string, (string, string)>, order: seq<string>)
    requires Layered(links, depth) && m in links && sub in links && depth(m) < depth(sub)
    requires NamesOf(ratios, sub, names) && (forall x :: x in order <==> x in names)
    requires forall i, j :: 0 <= i < j < |order| ==> order[i] != order[j]
    requires RatiosVisible(links, ratios) && LinkClear(links, depth, refs, ratios, m, prefix, names, order)
    requires LinkRatios(links, depth, refs, ratios, m, prefix, names, order).0
    ensures RatiosVisible(Linked(links, m, prefix, sub, at),
                          LinkRatios(links, depth, refs, ratios, m, prefix, names, order).1)
  {
    hide Layered, LinkRatios, LinkClear, WithSup, Without;
    LinkRatiosVisible(links, depth, refs, ratios, m, prefix, names, order);
    var links', r :=
      Linked(links, m, prefix, sub, at), LinkRatios(links, depth, refs, ratios, m, prefix, names, order).1;
    forall k: Key, i | k in r && k.0 in links' && 0 <= i < |links'[k.0]| ensures RatioShown(links', r, k, i) {
      var l := links'[k.0][i];
      assert l in links'[k.0];
      if l in links[k.0] {
        var j :| 0 <= j < |links[k.0]| && links[k.0][j] == l;
        assert RatioShown(links, r, k, j);
      } else {
        assert k.0 == sub && l == (m, prefix) && k in ratios && k.1 in order && r[k] == ratios[k];
      }
    }
  }

  /** The names, ratios and links of all metrics. */
  datatype World = World(links: Links, refs: Refs, ratios: Ratios)

  /** What a link does: names, ratios, then the link itself; an exception stops it. */
  ghost function LinkOf(w: World, depth: Metric -> nat, m: Metric, prefix: string, sub: Metric, at: nat,
                        names: map<string, Cell>, order: seq<string>,
                        ratioNames: map<string, (string, string)>, ratioOrder: seq<string>): (bool, World)
    requires Layered(w.links, depth) && m in w.links && sub in w.links
    requires (forall x :: x in order ==> x in names) && (forall x :: x in ratioOrder ==> x in ratioNames)
  {
    var r := Insert(w.refs, LinkPuts(w.links, depth, m, prefix, names, order));
    if !r.0 then (false, w.(refs := r.1))
    else
      var q := LinkRatios(w.links, depth, r.1, w.ratios, m, prefix, ratioNames, ratioOrder);
      if !q.0 then (false, w.(refs := r.1, ratios := q.1))
      else (true, World(Linked(w.links, m, prefix, sub, at), r.1, q.1))
  }

  // ----- whole runs -----

  datatype Op =
    | NewName(m: Metric, name: string, elem: Cell)
    | NewRatio(m: Metric, name: string, num: string, den: string)
    | NewLink(m: Metric, prefix: string, sub: Metric, at: nat, names: map<string, Cell>, order: seq<string>,
              ratioNames: map<string, (string, string)>, ratioOrder: seq<string>)

  /** The operation is about metrics of the world; a link goes upwards and takes all there is in the part. */
  ghost predicate OpOk(w: World, depth: Metric -> nat, op: Op) {
    && op.m in w.links
    && (op.NewLink? ==>
          && op.sub in w.links && depth(op.m) < depth(op.sub) && NamesOf(w.refs, op.sub, op.names)
          && NamesOf(w.ratios, op.sub, op.ratioNames)
          && (forall x :: x in op.order <==> x in op.names) && (forall x :: x in op.ratioOrder <==> x in op.ratioNames)
          && forall i, j :: 0 <= i < j < |op.ratioOrder| ==> op.ratioOrder[i] != op.ratioOrder[j])
  }

  ghost function Apply(w: World, depth: Metric -> nat, op: Op): (bool, World)
    requires Layered(w.links, depth) && OpOk(w, depth, op)
  {
    match op
    case NewName(m, name, elem) =>
      var r := Insert(w.refs, Tagged(Targets(w.links, depth, m, name), elem));
      (r.0, w.(refs := r.1))
    case NewRatio(m, name, num, den) =>
      var r := AddRatioOf(w.links, depth, w.refs, w.ratios, m, name, num, den);
      (r.0, w.(ratios := r.1))
    case NewLink(m, prefix, sub, at, names, order, ratioNames, ratioOrder) =>
      LinkOf(w, depth, m, prefix, sub, at, names, order, ratioNames, ratioOrder)
  }

  /** No ratio that the operation puts in clashes with one of another part. */
  ghost predicate Clear(w: World, depth: Metric -> nat, op: Op)
    requires Layered(w.links, depth) && OpOk(w, depth, op)
  {
    match op
    case NewName(_, _, _) => true
    case NewRatio(m, name, num, den) =>
      var (t, n, d) :=
        (Targets(w.links, depth, m, name), Targets(w.links, depth, m, num), Targets(w.links, depth, m, den));
      |t| == |n| == |d| && NoClash(w.links, w.ratios, t, n, d)
    case NewLink(m, prefix, _, _, names, order, ratioNames, ratioOrder) =>
      LinkClear(w.links, depth, Insert(w.refs, LinkPuts(w.links, depth, m, prefix, names, order)).1, w.ratios, m,
                prefix, ratioNames, ratioOrder)
  }

  /** What holds of all metrics whether or not additions have failed. */
  ghost predicate Inv(w: World, depth: Metric -> nat, loose: set<Key>) {
    Layered(w.links, depth) && Solid(w.links, w.refs, loose) && TermsKnown(w.refs, w.ratios)
  }

  /** The names that an operation leaves behind if it fails at a name. */
  ghost function Leaves(w: World, depth: Metric -> nat, op: Op): set<Key>
    requires Layered(w.links, depth) && OpOk(w, depth, op)
  {
    match op
    case NewName(m, name, elem) => Left(w.refs, Insert(w.refs, Tagged(Targets(w.links, depth, m, name), elem)))
    case NewRatio(_, _, _, _) => {}
    case NewLink(m, prefix, _, _, names, order, _, _) => LinkLeft(w.links, depth, w.refs, m, prefix, names, order)
  }

  lemma {:induction false} LinkRatiosKnown(links: Links, depth: Metric -> nat, refs: Refs, ratios: Ratios, m: Metric,
                                           prefix: string, names: map<string, (string, string)>, order: seq<string>)
    requires Layered(links, depth) && m in links && (forall x :: x in order ==> x in names) && TermsKnown(refs, ratios)
    ensures TermsKnown(refs, LinkRatios(links, depth, refs, ratios, m, prefix, names, order).1)
    decreases order
  {
    hide TermsKnown, Layered, AddRatioOf;
    if order != [] {
      var (num, den) := names[order[0]];
      AddRatioKnown(links, depth, refs, ratios, m, prefix + order[0], prefix + num, prefix + den);
      var r := AddRatioOf(links, depth, refs, ratios, m, prefix + order[0], prefix + num, prefix + den);
      if r.0 { LinkRatiosKnown(links, depth, refs, r.1, m, prefix, names, order[1..]); }
    }
  }

  lemma KnownGrows(refs: Refs, refs': Refs, ratios: Ratios)
    requires TermsKnown(refs, ratios) && forall k :: k in refs ==> k in refs'
    ensures TermsKnown(refs', ratios)
  {}

  /** Every operation keeps all names, their cells and the terms of all ratios, and loosens no names
      but those it has made itself before it failed. */
  lemma StepInv(w: World, depth: Metric -> nat, op: Op, loose: set<Key>)
    requires Inv(w, depth, loose) && OpOk(w, depth, op)
    ensures Inv(Apply(w, depth, op).1, depth, loose + Leaves(w, depth, op))
    ensures Kept(w.refs, Apply(w, depth, op).1.refs)
    ensures Apply(w, depth, op).0 ==> Leaves(w, depth, op) == {}
  {
    hide Layered, Solid, TermsKnown, Insert, AddRatioOf, LinkRatios, LinkPuts, Targets, Linked;
    match op
    case NewName(m, name, elem) =>
      AddSolid(w.links, depth, w.refs, loose, m, name, elem);
      InsertIff(w.refs, Tagged(Targets(w.links, depth, m, name), elem));
      KnownGrows(w.refs, Insert(w.refs, Tagged(Targets(w.links, depth, m, name), elem)).1, w.ratios);
    case NewRatio(m, name, num, den) =>
      AddRatioKnown(w.links, depth, w.refs, w.ratios, m, name, num, den);
      assert loose + {} == loose;
    case NewLink(_, _, _, _, _, _, _, _) =>
      LinkInv(w, depth, op, loose);
  }

  ghost predicate Kept(refs: Refs, refs': Refs) {
    forall k :: k in refs ==> k in refs' && refs'[k] == refs[k]
  }

  lemma LinkInv(w: World, depth: Metric -> nat, op: Op, loose: set<Key>)
    requires Inv(w, depth, loose) && OpOk(w, depth, op) && op.NewLink?
    ensures Inv(Apply(w, depth, op).1, depth, loose + Leaves(w, depth, op))
    ensures Kept(w.refs, Apply(w, depth, op).1.refs)
    ensures Apply(w, depth, op).0 ==> Leaves(w, depth, op) == {}
  {
    hide Layered, Solid, TermsKnown, Insert, AddRatioOf, LinkRatios, LinkPuts, Linked, LinkLeft;
    var puts := LinkPuts(w.links, depth, op.m, op.prefix, op.names, op.order);
    var (ok, refs) := Insert(w.refs, puts);
    LinkPutsSolid(w.links, depth, w.refs, loose, op.m, op.prefix, op.names, op.order);
    KnownGrows(w.refs, refs, w.ratios);
    if ok {
      assert loose + {} == loose;
      LinkRatiosKnown(w.links, depth, refs, w.ratios, op.m, op.prefix, op.ratioNames, op.ratioOrder);
      LinkLayered(w.links, depth, op.m, op.prefix, op.sub, op.at);
      LinkVisible(w.links, depth, w.refs, loose, op.m, op.prefix, op.sub, op.at, op.names, op.order);
    }
  }

  /** An operation that succeeds without a clash keeps the ratios visible. */
  lemma StepRatios(w: World, depth: Metric -> nat, op: Op)
    requires Layered(w.links, depth) && OpOk(w, depth, op) && Apply(w, depth, op).0 && Clear(w, depth, op)
    requires RatiosVisible(w.links, w.ratios)
    ensures RatiosVisible(Apply(w, depth, op).1.links, Apply(w, depth, op).1.ratios)
  {
    hide Layered, RatiosVisible, Insert, AddRatioOf, LinkRatios, LinkPuts, LinkClear, Targets, NoClash, Linked;
    match op
    case NewName(_, _, _) =>
    case NewRatio(m, name, num, den) =>
      AddRatioVisible(w.links, depth, w.refs, w.ratios, m, name, num, den);
    case NewLink(m, prefix, sub, at, names, order, ratioNames, ratioOrder) =>
      var refs := Insert(w.refs, LinkPuts(w.links, depth, m, prefix, names, order)).1;
      LinkKeepsRatios(w.links, depth, refs, w.ratios, m, prefix, sub, at, ratioNames, ratioOrder);
  }

  /** Operations one after the other; one that fails leaves what it has done so far. */
  ghost predicate Possible(w: World, depth: Metric -> nat, ops: seq<Op>)
    decreases ops
  {
    ops == [] ||
    (Layered(w.links, depth) && OpOk(w, depth, ops[0]) && Possible(Apply(w, depth, ops[0]).1, depth, ops[1..]))
  }

  /** The metrics after a run, and the names that failed operations have left. */
  ghost function Run(w: World, depth: Metric -> nat, ops: seq<Op>, loose: set<Key>): (World, set<Key>)
    requires Possible(w, depth, ops)
    decreases ops
  {
    if ops == [] then (w, loose)
    else Run(Apply(w, depth, ops[0]).1, depth, ops[1..], loose + Leaves(w, depth, ops[0]))
  }

  /** All operations of a run succeed, and `clear` says that there are no clashes on the way. */
  ghost predicate Succeeds(w: World, depth: Metric -> nat, ops: seq<Op>, clear: bool)
    requires Possible(w, depth, ops)
    decreases ops
  {
    ops != [] ==>
      && Apply(w, depth, ops[0]).0 && (clear ==> Clear(w, depth, ops[0]))
      && Succeeds(Apply(w, depth, ops[0]).1, depth, ops[1..], clear)
  }

  /** After any run, for instance from the state without names, no name and no cell is lost, and every
      name of a metric stands in everything that the metric has become a part of, under the accumulated
      prefix and for the same cell, whether it was added before or after the links: but for the names
      that a failed operation has made itself.  If all succeed there are none of these, and without a
      clash the ratios are visible, too. */
  lemma RunVisible(w: World, depth: Metric -> nat, ops: seq<Op>)
    requires Layered(w.links, depth) && Visible(w.links, w.refs) && TermsKnown(w.refs, w.ratios)
    requires Possible(w, depth, ops)
    ensures var (w', loose) := Run(w, depth, ops, {});
      && Layered(w'.links, depth) && TermsKnown(w'.refs, w'.ratios) && Kept(w.refs, w'.refs)
      && (forall m, name, k ::
            m in w'.links && (m, name) in w'.refs && (m, name) !in loose && k in Targets(w'.links, depth, m, name) ==>
            k in w'.refs && w'.refs[k] == w'.refs[(m, name)])
      && (Succeeds(w, depth, ops, false) ==> loose == {} && Visible(w'.links, w'.refs))
      && (Succeeds(w, depth, ops, true) && RatiosVisible(w.links, w.ratios) ==> RatiosVisible(w'.links, w'.ratios))
  {
    hide Run, Possible, Solid, Visible, TermsKnown, Succeeds, Layered, Kept, RatiosVisible;
    SolidIsVisible(w.links, w.refs);
    RunInv(w, depth, ops, {});
    if Succeeds(w, depth, ops, true) && RatiosVisible(w.links, w.ratios) { RunRatios(w, depth, ops, {}); }
    var (w', loose) := Run(w, depth, ops, {});
    SolidIsVisible(w'.links, w'.refs);
    forall m, name, k
      | m in w'.links && (m, name) in w'.refs && (m, name) !in loose && k in Targets(w'.links, depth, m, name)
      ensures k in w'.refs && w'.refs[k] == w'.refs[(m, name)]
    {
      SolidEverywhere(w'.links, depth, w'.refs, loose, m, name);
    }
  }

  lemma {:induction false} RunInv(w: World, depth: Metric -> nat, ops: seq<Op>, loose: set<Key>)
    requires Inv(w, depth, loose) && Possible(w, depth, ops)
    ensures var (w', loose') := Run(w, depth, ops, loose);
      Inv(w', depth, loose') && Kept(w.refs, w'.refs) && (Succeeds(w, depth, ops, false) ==> loose' == loose)
    decreases ops
  {
    hide Inv, Apply, Leaves;
    if ops != [] {
      StepInv(w, depth, ops[0], loose);
      RunInv(Apply(w, depth, ops[0]).1, depth, ops[1..], loose + Leaves(w, depth, ops[0]));
      assert loose + {} == loose;
    }
  }

  lemma {:induction false} RunRatios(w: World, depth: Metric -> nat, ops: seq<Op>, loose: set<Key>)
    requires Possible(w, depth, ops) && Succeeds(w, depth, ops, true) && RatiosVisible(w.links, w.ratios)
    ensures var w' := Run(w, depth, ops, loose).0; RatiosVisible(w'.links, w'.ratios)
    decreases ops
  {
    hide Apply, Clear, RatiosVisible, Leaves, Layered;
    if ops != [] {
      StepRatios(w, depth, ops[0]);
      RunRatios(Apply(w, depth, ops[0]).1, depth, ops[1..], loose + Leaves(w, depth, ops[0]));
    }
  }

  // Two parts under the prefixes "x" and "xy", whose ratios "yr" and "r" get the same name in the whole.

  ghost function ClashDepth(w: Metric): Metric -> nat { m => if m == w then 0 else 1 }

  ghost function ClashLinks(w: Metric, a: Metric, b: Metric): Links { map[w := [], a := [(w, "x")], b := [(w, "xy")]] }

  ghost function NewMetrics(w: Metric, a: Metric, b: Metric): World {
    World(map[w := [], a := [], b := []], map[], map[])
  }

  ghost function Linking(w: Metric, prefix: string, sub: Metric): Op {
    NewLink(w, prefix, sub, 0, map[], [], map[], [])
  }

  /** The six operations: both parts are linked, and each gets a name and a ratio of it. */
  ghost function ClashRun(w: Metric, a: Metric, b: Metric, c: Cell, d: Cell): seq<Op> {
    ([Linking(w, "x", a)] + [Linking(w, "xy", b)]) + (PartOps(a, "yn", c, "yr") + PartOps(b, "q", d, "r"))
  }

  ghost function PartOps(m: Metric, num: string, elem: Cell, name: string): seq<Op> {
    [NewName(m, num, elem)] + [NewRatio(m, name, num, num)]
  }

  /** A run in which everything succeeds leads from `w` to `w'`. */
  ghost predicate Leads(w: World, depth: Metric -> nat, ops: seq<Op>, w': World) {
    Possible(w, depth, ops) && Succeeds(w, depth, ops, false) && Run(w, depth, ops, {}).0 == w'
  }

  lemma LeadsOne(w: World, depth: Metric -> nat, op: Op, w': World)
    requires Layered(w.links, depth) && OpOk(w, depth, op) && Apply(w, depth, op) == (true, w')
    ensures Leads(w, depth, [op], w')
  {
    hide Layered, OpOk, Apply, Leaves;
    var none: seq<Op> := [];
    assert [op][1..] == none;
    assert Possible(w', depth, none) && Succeeds(w', depth, none, false);
    assert Run(w', depth, none, {} + Leaves(w, depth, op)).0 == w';
  }

  lemma {:induction false} LeadsOn(w: World, depth: Metric -> nat, a: seq<Op>, w1: World, b: seq<Op>, w2: World)
    requires Leads(w, depth, a, w1) && Leads(w1, depth, b, w2)
    ensures Leads(w, depth, a + b, w2)
    decreases a
  {
    hide Layered, OpOk, Apply, Leaves;
    if a == [] {
      assert a + b == b;
    } else {
      var next := Apply(w, depth, a[0]).1;
      RunWorld(next, depth, a[1..], {} + Leaves(w, depth, a[0]), {});
      LeadsOn(next, depth, a[1..], w1, b, w2);
      assert (a + b)[0] == a[0] && (a + b)[1..] == a[1..] + b;
      RunWorld(next, depth, a[1..] + b, {} + Leaves(w, depth, a[0]), {});
    }
  }

  lemma {:induction false} RunWorld(w: World, depth: Metric -> nat, ops: seq<Op>, a: set<Key>, b: set<Key>)
    requires Possible(w, depth, ops)
    ensures Run(w, depth, ops, a).0 == Run(w, depth, ops, b).0
    decreases ops
  {
    hide Layered, OpOk, Apply, Leaves;
    if ops != [] {
      RunWorld(Apply(w, depth, ops[0]).1, depth, ops[1..], a + Leaves(w, depth, ops[0]), b + Leaves(w, depth, ops[0]));
    }
  }

  lemma LinkNew(links: Links, depth: Metric -> nat, w: Metric, prefix: string, sub: Metric)
    requires Layered(links, depth) && w in links && sub in links && depth(w) < depth(sub) && links[sub] == []
    ensures var w0 := World(links, map[], map[]);
      && OpOk(w0, depth, Linking(w, prefix, sub))
      && Apply(w0, depth, Linking(w, prefix, sub)) == (true, w0.(links := links[sub := [(w, prefix)]]))
  {
    hide Layered, Targets;
    assert WithSup([], w, prefix, 0) == [(w, prefix)];
  }

  lemma InsertTwo(refs: Refs, k: Key, l: Key, elem: Cell)
    requires k !in refs && l !in refs && k != l
    ensures Insert(refs, Tagged([k, l], elem)) == (true, refs[k := elem][l := elem])
  {
    var puts: seq<(Key, Cell)> := Tagged([k, l], elem);
    var rest := puts[1..];
    var refs1 := refs[k := elem];
    assert puts[0] == (k, elem) && rest[0] == (l, elem);
    InsertNone(refs1[l := elem]);
    assert rest[1..] == [];
    assert Insert(refs1, rest) == (true, refs1[l := elem]);
  }

  lemma PutTwo(refs: Refs, ratios: Ratios, k: Key, l: Key, num: Key, num': Key)
    requires k !in refs && l !in refs && num in refs && num' in refs
    ensures PutRatios(refs, ratios, [k, l], [num, num'], [num, num'])
         == (true, ratios[k := (num.1, num.1)][l := (num'.1, num'.1)])
  {
    var ratios1 := ratios[k := (num.1, num.1)];
    var none: seq<Key> := [];
    assert [k, l][1..] == [l] && [num, num'][1..] == [num'] && [l][1..] == none && [num'][1..] == none;
    assert PutRatios(refs, ratios1[l := (num'.1, num'.1)], none, none, none) == (true, ratios1[l := (num'.1, num'.1)]);
    assert PutRatios(refs, ratios1, [l], [num'], [num']) == (true, ratios1[l := (num'.1, num'.1)]);
  }

  /** `m` is a part of `w` under the prefix `p`, and of nothing else. */
  ghost predicate PartOf(links: Links, m: Metric, w: Metric, p: string) {
    m != w && m in links && w in links && links[m] == [(w, p)] && links[w] == []
  }

  lemma PartTargets(links: Links, depth: Metric -> nat, w: Metric, m: Metric, p: string, name: string)
    requires Layered(links, depth) && PartOf(links, m, w, p)
    ensures Targets(links, depth, m, name) == [(m, name), (w, p + name)]
  {
    WholeTargets(links, depth, w, p + name);
    assert SupTargets(links, depth, m, 1, name) == [];
    assert SupTargets(links, depth, m, 0, name) == [(w, p + name)];
  }

  lemma WholeTargets(links: Links, depth: Metric -> nat, w: Metric, name: string)
    requires Layered(links, depth) && w in links && links[w] == []
    ensures Targets(links, depth, w, name) == [(w, name)]
  {
    assert SupTargets(links, depth, w, 0, name) == [];
  }

  /** A name of a part appears in the part and in the whole. */
  lemma PartName(w0: World, depth: Metric -> nat, w: Metric, m: Metric, p: string, name: string, elem: Cell)
    requires Layered(w0.links, depth) && PartOf(w0.links, m, w, p)
    requires (m, name) !in w0.refs && (w, p + name) !in w0.refs
    ensures OpOk(w0, depth, NewName(m, name, elem))
    ensures Apply(w0, depth, NewName(m, name, elem)) ==
            (true, w0.(refs := w0.refs[(m, name) := elem][(w, p + name) := elem]))
  {
    PartTargets(w0.links, depth, w, m, p, name);
    InsertTwo(w0.refs, (m, name), (w, p + name), elem);
    hide Layered, Targets, Insert;
  }

  lemma PartRatio(w0: World, depth: Metric -> nat, w: Metric, m: Metric, p: string, name: string, num: string)
    requires Layered(w0.links, depth) && PartOf(w0.links, m, w, p)
    requires (m, name) !in w0.refs && (w, p + name) !in w0.refs && (m, num) in w0.refs && (w, p + num) in w0.refs
    ensures OpOk(w0, depth, NewRatio(m, name, num, num))
    ensures Apply(w0, depth, NewRatio(m, name, num, num)) ==
            (true, w0.(ratios := w0.ratios[(m, name) := (num, num)][(w, p + name) := (p + num, p + num)]))
  {
    PartTargets(w0.links, depth, w, m, p, name);
    PartTargets(w0.links, depth, w, m, p, num);
    PutTwo(w0.refs, w0.ratios, (m, name), (w, p + name), (m, num), (w, p + num));
    hide Layered, Targets, PutRatios;
  }

  lemma ClashLinked(w: Metric, a: Metric, b: Metric)
    requires w != a && w != b && a != b
    ensures Leads(NewMetrics(w, a, b), ClashDepth(w), [Linking(w, "x", a)] + [Linking(w, "xy", b)],
                  World(ClashLinks(w, a, b), map[], map[]))
    ensures Layered(ClashLinks(w, a, b), ClashDepth(w))
  {
    hide Layered, Leads, ClashDepth;
    var links, depth := NewMetrics(w, a, b).links, ClashDepth(w);
    var links1 := links[a := [(w, "x")]];
    NewLayered(w, a, b);
    LinkLeads(links, depth, w, "x", a);
    LinkLeads(links1, depth, w, "xy", b);
    BothLinked(w, a, b);
    LeadsOn(World(links, map[], map[]), depth, [Linking(w, "x", a)], World(links1, map[], map[]),
            [Linking(w, "xy", b)], World(ClashLinks(w, a, b), map[], map[]));
  }

  lemma BothLinked(w: Metric, a: Metric, b: Metric)
    requires w != a && w != b && a != b
    ensures NewMetrics(w, a, b).links[a := [(w, "x")]][b := [(w, "xy")]] == ClashLinks(w, a, b)
  {}

  lemma LinkLeads(links: Links, depth: Metric -> nat, w: Metric, prefix: string, sub: Metric)
    requires Layered(links, depth) && w in links && sub in links && depth(w) < depth(sub) && links[sub] == []
    ensures Leads(World(links, map[], map[]), depth, [Linking(w, prefix, sub)],
                  World(links[sub := [(w, prefix)]], map[], map[]))
    ensures Layered(links[sub := [(w, prefix)]], depth)
  {
    hide Layered, OpOk, Apply, Leads;
    LinkNew(links, depth, w, prefix, sub);
    LeadsOne(World(links, map[], map[]), depth, Linking(w, prefix, sub),
             World(links[sub := [(w, prefix)]], map[], map[]));
    LinkLayered(links, depth, w, prefix, sub, 0);
    assert WithSup([], w, prefix, 0) == [(w, prefix)];
  }

  lemma NewLayered(w: Metric, a: Metric, b: Metric)
    requires w != a && w != b && a != b
    ensures var depth := ClashDepth(w); depth(w) < depth(a) && depth(w) < depth(b)
    ensures Layered(NewMetrics(w, a, b).links, ClashDepth(w))
  {}

  /** The world after a part has got the name `num` and its ratio `name`. */
  ghost function PartDone(w0: World, w: Metric, m: Metric, num: string, upNum: string, elem: Cell, name: string,
                          up: string): World {
    World(w0.links, w0.refs[(m, num) := elem][(w, upNum) := elem],
          w0.ratios[(m, name) := (num, num)][(w, up) := (upNum, upNum)])
  }

  lemma PartAdded(w0: World, depth: Metric -> nat, w: Metric, m: Metric, p: string, num: string, elem: Cell,
                  name: string)
    requires Layered(w0.links, depth) && PartOf(w0.links, m, w, p)
    requires (m, num) !in w0.refs && (w, p + num) !in w0.refs && (m, name) !in w0.refs && (w, p + name) !in w0.refs
    requires name != num && p + name != p + num
    ensures Leads(w0, depth, PartOps(m, num, elem, name), PartDone(w0, w, m, num, p + num, elem, name, p + name))
  {
    hide Apply, OpOk, Layered, Leads, PartOf;
    PartApart(w0.links, m, w, p);
    var w1 := World(w0.links, w0.refs[(m, num) := elem][(w, p + num) := elem], w0.ratios);
    var w2 := PartDone(w0, w, m, num, p + num, elem, name, p + name);
    PartName(w0, depth, w, m, p, num, elem);
    PartRatio(w1, depth, w, m, p, name, num);
    LeadsOne(w0, depth, NewName(m, num, elem), w1);
    LeadsOne(w1, depth, NewRatio(m, name, num, num), w2);
    LeadsOn(w0, depth, [NewName(m, num, elem)], w1, [NewRatio(m, name, num, num)], w2);
  }

  lemma PartApart(links: Links, m: Metric, w: Metric, p: string)
    requires PartOf(links, m, w, p)
    ensures m != w
  {}

  lemma ClashNames()
    ensures "x" + "yn" == "xyn" && "xy" + "q" == "xyq" && "x" + "yr" == "xyr" && "xy" + "r" == "xyr"
    ensures "xyn" != "xyq" && "xyn" != "xyr" && "xyq" != "xyr" && "yn" != "yr" && "q" != "r"
  {
    assert "xyn"[2] == 'n' && "xyq"[2] == 'q' && "xyr"[2] == 'r';
    assert "yn"[1] == 'n' && "yr"[1] == 'r' && "q"[0] == 'q' && "r"[0] == 'r';
  }

  /** All six operations on new metrics succeed, and the ratio of the second part is then what the
      whole shows for the ratio of the first. */
  lemma ClashExample(w: Metric, a: Metric, b: Metric, c: Cell, d: Cell)
    requires w != a && w != b && a != b
    ensures var (w0, depth, ops) := (NewMetrics(w, a, b), ClashDepth(w), ClashRun(w, a, b, c, d));
      && Possible(w0, depth, ops) && Succeeds(w0, depth, ops, false)
      && !RatiosVisible(Run(w0, depth, ops, {}).0.links, Run(w0, depth, ops, {}).0.ratios)
  {
    hide Possible, Succeeds, Run, Layered, RatiosVisible, NewMetrics, ClashLinks, ClashDepth, Linking, PartOps;
    var w0, depth := NewMetrics(w, a, b), ClashDepth(w);
    var w2 := World(ClashLinks(w, a, b), map[], map[]);
    var w4 := PartDone(w2, w, a, "yn", "xyn", c, "yr", "xyr");
    var w6 := PartDone(w4, w, b, "q", "xyq", d, "r", "xyr");
    ClashNames();
    ClashLinked(w, a, b);
    ClashParts(w, a, b);
    PartAdded(w2, depth, w, a, "x", "yn", c, "yr");
    PartAdded(w4, depth, w, b, "xy", "q", d, "r");
    ClashShown(w6, w, a, b);
    hide Leads;
    LeadsOn(w2, depth, PartOps(a, "yn", c, "yr"), w4, PartOps(b, "q", d, "r"), w6);
    LeadsOn(w0, depth, [Linking(w, "x", a)] + [Linking(w, "xy", b)], w2,
            PartOps(a, "yn", c, "yr") + PartOps(b, "q", d, "r"), w6);
    LeadsMeans(w0, depth, ClashRun(w, a, b, c, d), w6);
  }

  lemma ClashParts(w: Metric, a: Metric, b: Metric)
    requires w != a && w != b && a != b
    ensures PartOf(ClashLinks(w, a, b), a, w, "x") && PartOf(ClashLinks(w, a, b), b, w, "xy")
  {}

  lemma LeadsMeans(w: World, depth: Metric -> nat, ops: seq<Op>, w': World)
    requires Leads(w, depth, ops, w')
    ensures Possible(w, depth, ops) && Succeeds(w, depth, ops, false) && Run(w, depth, ops, {}).0 == w'
  {}

  lemma ClashShown(w6: World, w: Metric, a: Metric, b: Metric)
    requires w != a && w != b && a != b && w6.links == ClashLinks(w, a, b)
    requires (a, "yr") in w6.ratios && w6.ratios[(a, "yr")] == ("yn", "yn")
    requires (w, "xyr") in w6.ratios && w6.ratios[(w, "xyr")] == ("xyq", "xyq")
    ensures !RatiosVisible(w6.links, w6.ratios)
  {
    ClashNames();
    assert !RatioShown(w6.links, w6.ratios, (a, "yr"), 0);
  }

  // ----- linking twice -----

  /** A link replaces an older one to the same whole: only the last prefix is in force. */
  lemma LinkReplaces(links: Links, m: Metric, prefix: string, sub: Metric, at: nat)
    requires sub in links
    ensures var sups := Linked(links, m, prefix, sub, at)[sub];
            && (m, prefix) in sups && (forall i :: 0 <= i < |sups| && sups[i].0 == m ==> sups[i].1 == prefix)
            && (forall l :: l in links[sub] && l.0 != m ==> l in sups)
  {
    hide WithSup;
    var sups := WithSup(links[sub], m, prefix, at);
    forall l | l in links[sub] && l.0 != m ensures l in sups {
      var i :| 0 <= i < |links[sub]| && links[sub][i] == l;
    }
  }

  ghost function TwoMetrics(w: Metric, a: Metric): World { World(map[w := [], a := []], map[], map[]) }

  /** `a` is linked under `p`, gets the name `x`, is linked under `q`, and gets the name `y`. */
  ghost function RelinkRun(w: Metric, a: Metric, p: string, q: string, x: string, y: string, c: Cell,
                           d: Cell): seq<Op> {
    ([Linking(w, p, a)] + [NewName(a, x, c)]) +
    ([NewLink(w, q, a, 0, map[x := c], [x], map[], [])] + [NewName(a, y, d)])
  }

  /** The second link brings in the names that the part has now, and takes the place of the first. */
  lemma RelinkStep(w0: World, depth: Metric -> nat, w: Metric, a: Metric, p: string, q: string, x: string, c: Cell)
    requires Layered(w0.links, depth) && PartOf(w0.links, a, w, p) && depth(w) < depth(a) && w0.ratios == map[]
    requires NamesOf(w0.refs, a, map[x := c]) && (w, q + x) !in w0.refs
    ensures Leads(w0, depth, [NewLink(w, q, a, 0, map[x := c], [x], map[], [])],
                  World(w0.links[a := [(w, q)]], w0.refs[(w, q + x) := c], map[]))
    ensures Layered(w0.links[a := [(w, q)]], depth) && PartOf(w0.links[a := [(w, q)]], a, w, q)
  {
    var w1 := World(w0.links[a := [(w, q)]], w0.refs[(w, q + x) := c], map[]);
    LinkLayered(w0.links, depth, w, q, a, 0);
    SameWhole(w, p, q);
    hide Layered, Leads, NamesOf;
    NoRatios(a);
    LinkOne(w0, depth, w, q, a, x, c);
    LeadsOne(w0, depth, NewLink(w, q, a, 0, map[x := c], [x], map[], []), w1);
  }

  lemma SameWhole(w: Metric, p: string, q: string)
    ensures WithSup([(w, p)], w, q, 0) == [(w, q)]
  {
    var none: seq<Key> := [];
    assert [(w, p)][1..] == none;
    assert Without([(w, p)], w) == none;
  }

  lemma NoRatios(m: Metric)
    ensures NamesOf<(string, string)>(map[], m, map[])
  {}

  lemma LinkOne(w0: World, depth: Metric -> nat, w: Metric, q: string, a: Metric, x: string, c: Cell)
    requires Layered(w0.links, depth) && w in w0.links && a in w0.links && w0.links[w] == []
    requires (w, q + x) !in w0.refs
    ensures LinkOf(w0, depth, w, q, a, 0, map[x := c], [x], map[], []) ==
            (true, World(Linked(w0.links, w, q, a, 0), w0.refs[(w, q + x) := c], w0.ratios))
  {
    hide Layered, Targets, Linked;
    var names: map<string, Cell> := map[x := c];
    var none: seq<string> := [];
    WholeTargets(w0.links, depth, w, q + x);
    LinkNext(w0.links, depth, w0.refs, w, q, names, [x]);
    assert [x][1..] == none;
    InsertOne(w0.refs, (w, q + x), c);
    InsertNone(w0.refs[(w, q + x) := c]);
  }

  lemma InsertOne(refs: Refs, k: Key, elem: Cell)
    requires k !in refs
    ensures Insert(refs, Tagged([k], elem)) == (true, refs[k := elem])
  {
    var puts: seq<(Key, Cell)> := Tagged([k], elem);
    var none: seq<(Key, Cell)> := [];
    InsertNone(refs[k := elem]);
    assert puts[0] == (k, elem) && puts[1..] == none;
  }

  /** Linked twice, a part shows its older names under both prefixes and its newer ones under the last
      prefix only. */
  lemma RelinkForgets(w: Metric, a: Metric, p: string, q: string, x: string, y: string, c: Cell, d: Cell)
    requires w != a && p != q && x != y && p + x != q + y
    ensures var (w0, depth, ops) := (TwoMetrics(w, a), ClashDepth(w), RelinkRun(w, a, p, q, x, y, c, d));
      && Possible(w0, depth, ops) && Succeeds(w0, depth, ops, false)
      && Run(w0, depth, ops, {}).0.refs == RelinkRefs(w, a, p, q, x, y, c, d)
      && ((w, p + y) in Run(w0, depth, ops, {}).0.refs <==> p + y == q + x)
  {
    hide Possible, Succeeds, Run, Layered, Leads, Apply, OpOk, Linking, ClashDepth;
    RelinkNames(w, a, p, q, x, y, c, d);
    var w0, depth := TwoMetrics(w, a), ClashDepth(w);
    TwoLayered(w, a);
    LinkLeads(w0.links, depth, w, p, a);
    var w1 := World(w0.links[a := [(w, p)]], map[], map[]);
    PartName(w1, depth, w, a, p, x, c);
    var w2 := World(w1.links, map[(a, x) := c][(w, p + x) := c], map[]);
    LeadsOne(w1, depth, NewName(a, x, c), w2);
    RelinkStep(w2, depth, w, a, p, q, x, c);
    var w3 := World(w2.links[a := [(w, q)]], w2.refs[(w, q + x) := c], map[]);
    PartName(w3, depth, w, a, q, y, d);
    var w4 := World(w3.links, w3.refs[(a, y) := d][(w, q + y) := d], map[]);
    LeadsOne(w3, depth, NewName(a, y, d), w4);
    var link := NewLink(w, q, a, 0, map[x := c], [x], map[], []);
    LeadsOn(w0, depth, [Linking(w, p, a)], w1, [NewName(a, x, c)], w2);
    LeadsOn(w2, depth, [link], w3, [NewName(a, y, d)], w4);
    LeadsOn(w0, depth, [Linking(w, p, a)] + [NewName(a, x, c)], w2, [link] + [NewName(a, y, d)], w4);
    LeadsMeans(w0, depth, RelinkRun(w, a, p, q, x, y, c, d), w4);
  }

  ghost function RelinkRefs(w: Metric, a: Metric, p: string, q: string, x: string, y: string, c: Cell, d: Cell): Refs {
    map[(a, x) := c][(w, p + x) := c][(w, q + x) := c][(a, y) := d][(w, q + y) := d]
  }

  lemma RelinkNames(w: Metric, a: Metric, p: string, q: string, x: string, y: string, c: Cell, d: Cell)
    requires w != a && p != q && x != y && p + x != q + y
    ensures p + x != q + x && p + y != p + x && q + x != q + y && p + y != q + y
    ensures NamesOf(map[(a, x) := c][(w, p + x) := c], a, map[x := c])
    ensures (w, p + y) in RelinkRefs(w, a, p, q, x, y, c, d) <==> p + y == q + x
  {
    if p + x == q + x { SuffixCancels(p, q, x); }
    if p + y == q + y { SuffixCancels(p, q, y); }
    PrefixDiffers(p, x, y);
    PrefixDiffers(q, x, y);
  }

  lemma PrefixDiffers(p: string, x: string, y: string)
    requires x != y
    ensures p + x != p + y
  {
    assert (p + x)[|p|..] == x && (p + y)[|p|..] == y;
  }

  lemma TwoLayered(w: Metric, a: Metric)
    requires w != a
    ensures var depth := ClashDepth(w); depth(w) < depth(a)
    ensures Layered(TwoMetrics(w, a).links, ClashDepth(w))
  {}

  // ----- the class -----

  ghost function LinksOf(all: set<Metric>): Links
    reads all`sups
  {
    map m | m in all :: m.sups
  }

  ghost function RefsOf(all: set<Metric>): Refs
    reads all`refs
  {
    map m: Metric, x: string | m in all && x in m.refs :: (m, x) := m.refs[x]
  }

  ghost function RatiosOf(all: set<Metric>): Ratios
    reads all`ratios
  {
    map m: Metric, x: string | m in all && x in m.ratios :: (m, x) := m.ratios[x]
  }

  lemma InsertConcat(refs: Refs, a: seq<(Key, Cell)>, b: seq<(Key, Cell)>)
    ensures Insert(refs, a + b) == (var r := Insert(refs, a); if r.0 then Insert(r.1, b) else r)
    decreases a
  {
    if a == [] {
      assert a + b == b;
    } else if a[0].0 !in refs {
      assert (a + b)[1..] == a[1..] + b;
      InsertConcat(refs[a[0].0 := a[0].1], a[1..], b);
    }
  }

  lemma AddFirst(links: Links, depth: Metric -> nat, refs: Refs, m: Metric, name: string, elem: Cell)
    requires Layered(links, depth) && m in links
    ensures Insert(refs, Tagged(Targets(links, depth, m, name), elem))
         == if (m, name) in refs then (false, refs)
            else Insert(refs[(m, name) := elem], Tagged(SupTargets(links, depth, m, 0, name), elem))
  {
    var puts := Tagged(Targets(links, depth, m, name), elem);
    assert puts[0] == ((m, name), elem) && puts[1..] == Tagged(SupTargets(links, depth, m, 0, name), elem);
  }

  lemma AddNext(links: Links, depth: Metric -> nat, refs: Refs, m: Metric, i: nat, name: string, elem: Cell)
    requires Layered(links, depth) && m in links && i < |links[m]|
    ensures links[m][i].0 in links && depth(links[m][i].0) < depth(m)
    ensures Insert(refs, Tagged(SupTargets(links, depth, m, i, name), elem))
         == (var r := Insert(refs, Tagged(Targets(links, depth, links[m][i].0, links[m][i].1 + name), elem));
             if r.0 then Insert(r.1, Tagged(SupTargets(links, depth, m, i + 1, name), elem)) else r)
  {
    assert Above(links, links[m], depth, depth(m));
    var a := Targets(links, depth, links[m][i].0, links[m][i].1 + name);
    var b := SupTargets(links, depth, m, i + 1, name);
    assert Tagged(a + b, elem) == Tagged(a, elem) + Tagged(b, elem);
    InsertConcat(refs, Tagged(a, elem), Tagged(b, elem));
  }

  lemma AddLast(links: Links, depth: Metric -> nat, refs: Refs, m: Metric, name: string, elem: Cell)
    requires Layered(links, depth) && m in links
    ensures Insert(refs, Tagged(SupTargets(links, depth, m, |links[m]|, name), elem)) == (true, refs)
  {}

  // The steps of add_ratio, in the same way.

  ghost function SupRatios(links: Links, depth: Metric -> nat, refs: Refs, ratios: Ratios,
                           m: Metric, i: nat, name: string, num: string, den: string): (bool, Ratios)
    requires Layered(links, depth) && m in links && i <= |links[m]|
  {
    SupTargetsAligned(links, depth, m, i, name, num);
    SupTargetsAligned(links, depth, m, i, name, den);
    PutRatios(refs, ratios, SupTargets(links, depth, m, i, name), SupTargets(links, depth, m, i, num),
              SupTargets(links, depth, m, i, den))
  }

  lemma SupTargetsAligned(links: Links, depth: Metric -> nat, m: Metric, i: nat, a: string, b: string)
    requires Layered(links, depth) && m in links && i <= |links[m]|
    ensures |SupTargets(links, depth, m, i, a)| == |SupTargets(links, depth, m, i, b)|
  {
    SupTargetsAppend(links, depth, m, i, "", a);
    SupTargetsAppend(links, depth, m, i, "", b);
    assert "" + a == a && "" + b == b;
  }

  lemma PutRatiosConcat(refs: Refs, ratios: Ratios, t: seq<Key>, num: seq<Key>, den: seq<Key>, t': seq<Key>,
                        num': seq<Key>, den': seq<Key>)
    requires |t| == |num| == |den| && |t'| == |num'| == |den'|
    ensures PutRatios(refs, ratios, t + t', num + num', den + den')
         == (var r := PutRatios(refs, ratios, t, num, den); if r.0 then PutRatios(refs, r.1, t', num', den') else r)
    decreases t
  {
    if t == [] {
      assert t + t' == t' && num + num' == num' && den + den' == den';
    } else if t[0] !in refs && num[0] in refs && den[0] in refs {
      assert (t + t')[1..] == t[1..] + t' && (num + num')[1..] == num[1..] + num'
             && (den + den')[1..] == den[1..] + den';
      PutRatiosConcat(refs, ratios[t[0] := (num[0].1, den[0].1)], t[1..], num[1..], den[1..], t', num', den');
    }
  }

  lemma RatioFirst(links: Links, depth: Metric -> nat, refs: Refs, ratios: Ratios, m: Metric, name: string, num: string,
                   den: string)
    requires Layered(links, depth) && m in links
    ensures AddRatioOf(links, depth, refs, ratios, m, name, num, den)
         == if (m, name) in refs || (m, num) !in refs || (m, den) !in refs then (false, ratios)
            else SupRatios(links, depth, refs, ratios[(m, name) := (num, den)], m, 0, name, num, den)
  {
    hide SupTargets;
    TargetsAligned(links, depth, m, name, num);
    TargetsAligned(links, depth, m, name, den);
    assert forall x :: Targets(links, depth, m, x)[1..] == SupTargets(links, depth, m, 0, x);
  }

  lemma RatioNext(links: Links, depth: Metric -> nat, refs: Refs, ratios: Ratios, m: Metric, i: nat, name: string,
                  num: string, den: string)
    requires Layered(links, depth) && m in links && i < |links[m]|
    ensures links[m][i].0 in links && depth(links[m][i].0) < depth(m)
    ensures SupRatios(links, depth, refs, ratios, m, i, name, num, den)
         == (var (s, p) := links[m][i];
             var r := AddRatioOf(links, depth, refs, ratios, s, p + name, p + num, p + den);
             if r.0 then SupRatios(links, depth, refs, r.1, m, i + 1, name, num, den) else r)
  {
    assert Above(links, links[m], depth, depth(m));
    var (s, p) := links[m][i];
    TargetsAligned(links, depth, s, p + name, p + num);
    TargetsAligned(links, depth, s, p + name, p + den);
    SupTargetsAligned(links, depth, m, i + 1, name, num);
    SupTargetsAligned(links, depth, m, i + 1, name, den);
    PutRatiosConcat(refs, ratios, Targets(links, depth, s, p + name), Targets(links, depth, s, p + num),
                    Targets(links, depth, s, p + den),
                    SupTargets(links, depth, m, i + 1, name), SupTargets(links, depth, m, i + 1, num),
                    SupTargets(links, depth, m, i + 1, den));
  }

  lemma RatioLast(links: Links, depth: Metric -> nat, refs: Refs, ratios: Ratios, m: Metric, name: string, num: string,
                  den: string)
    requires Layered(links, depth) && m in links
    ensures SupRatios(links, depth, refs, ratios, m, |links[m]|, name, num, den) == (true, ratios)
  {}

  /** An addition leaves the metrics below as they are. */
  lemma InsertLeaves(links: Links, depth: Metric -> nat, refs: Refs, m: Metric, name: string, elem: Cell, sub: Metric,
                     x: string)
    requires Layered(links, depth) && m in links && depth(m) < depth(sub)
    ensures var r := Insert(refs, Tagged(Targets(links, depth, m, name), elem)).1;
      ((sub, x) in r <==> (sub, x) in refs) && ((sub, x) in refs ==> r[(sub, x)] == refs[(sub, x)])
  {
    hide Insert, Targets, Layered;
    var t := Targets(links, depth, m, name);
    var puts := Tagged(t, elem);
    InsertIff(refs, puts);
    TargetsAbove(links, depth, m, name);
    forall i | 0 <= i < |puts| ensures puts[i].0 != (sub, x) { assert t[i] in t; }
  }

  lemma RatiosLeave(links: Links, depth: Metric -> nat, refs: Refs, ratios: Ratios, m: Metric, name: string,
                    num: string, den: string, sub: Metric, x: string)
    requires Layered(links, depth) && m in links && depth(m) < depth(sub)
    requires AddRatioOf(links, depth, refs, ratios, m, name, num, den).0
    ensures var r := AddRatioOf(links, depth, refs, ratios, m, name, num, den).1;
      ((sub, x) in r <==> (sub, x) in ratios) && ((sub, x) in ratios ==> r[(sub, x)] == ratios[(sub, x)])
  {
    hide AddRatioOf, Layered;
    AddRatioEffect(links, depth, refs, ratios, m, name, num, den);
  }

  lemma LinkNext(links: Links, depth: Metric -> nat, refs: Refs, m: Metric, prefix: string, names: map<string, Cell>,
                 order: seq<string>)
    requires Layered(links, depth) && m in links && (forall x :: x in order ==> x in names) && order != []
    ensures Insert(refs, LinkPuts(links, depth, m, prefix, names, order))
         == (var r := Insert(refs, Tagged(Targets(links, depth, m, prefix + order[0]), names[order[0]]));
             if r.0 then Insert(r.1, LinkPuts(links, depth, m, prefix, names, order[1..])) else r)
  {
    InsertConcat(refs, Tagged(Targets(links, depth, m, prefix + order[0]), names[order[0]]),
                 LinkPuts(links, depth, m, prefix, names, order[1..]));
  }

  class Metric {
    var refs: map<string, Cell>
    var ratios: map<string, (string, string)>
    var sups: seq<(Metric, string)>

    constructor ()
      ensures refs == map[] && ratios == map[] && sups == []
    {
      refs, ratios, sups := map[], map[], [];
    }

    lemma InRefs(all: set<Metric>, name: string)
      requires this in all
      ensures (this, name) in RefsOf(all) <==> name in refs
      ensures name in refs ==> RefsOf(all)[(this, name)] == refs[name]
    {}

    method PutRef(ghost all: set<Metric>, name: string, elem: Cell)
      requires this in all
      modifies this`refs
      ensures RefsOf(all) == old(RefsOf(all))[(this, name) := elem]
    {
      refs := refs[name := elem];
    }

    /** A new name.  `all` are the metrics of the process; false stands for the exception. */
    method Add(ghost all: set<Metric>, ghost depth: Metric -> nat, name: string, elem: Cell) returns (ok: bool)
      requires this in all && Layered(LinksOf(all), depth)
      modifies all`refs
      ensures (ok, RefsOf(all)) == Insert(old(RefsOf(all)), Tagged(Targets(LinksOf(all), depth, this, name), elem))
      decreases depth(this)
    {
      hide Insert, Tagged, Targets, SupTargets, Layered, RefsOf;
      ghost var links := LinksOf(all);
      InRefs(all, name);
      AddFirst(links, depth, RefsOf(all), this, name, elem);
      if name in refs { return false; }
      PutRef(all, name, elem);
      var i := 0;
      while i < |sups|
        invariant i <= |sups|
        invariant Insert(old(RefsOf(all)), Tagged(Targets(links, depth, this, name), elem))
               == Insert(RefsOf(all), Tagged(SupTargets(links, depth, this, i, name), elem))
      {
        AddNext(links, depth, RefsOf(all), this, i, name, elem);
        ok := sups[i].0.Add(all, depth, sups[i].1 + name, elem);
        if !ok { return; }
        i := i + 1;
      }
      AddLast(links, depth, RefsOf(all), this, name, elem);
      ok := true;
    }

    method PutRatio(ghost all: set<Metric>, name: string, num: string, den: string)
      requires this in all
      modifies this`ratios
      ensures RatiosOf(all) == old(RatiosOf(all))[(this, name) := (num, den)]
    {
      ratios := ratios[name := (num, den)];
    }

    /** A new ratio: the terms must be known here, and so must be in every metric on the way up. */
    method AddRatio(ghost all: set<Metric>, ghost depth: Metric -> nat, name: string, num: string, den: string)
      returns (ok: bool)
      requires this in all && Layered(LinksOf(all), depth)
      modifies all`ratios
      ensures (ok, RatiosOf(all)) ==
              AddRatioOf(LinksOf(all), depth, RefsOf(all), old(RatiosOf(all)), this, name, num, den)
      decreases depth(this)
    {
      hide AddRatioOf, SupRatios, Layered, RatiosOf, RefsOf;
      InRefs(all, name);
      InRefs(all, num);
      InRefs(all, den);
      ghost var links, refs := LinksOf(all), RefsOf(all);
      RatioFirst(links, depth, refs, RatiosOf(all), this, name, num, den);
      if name in this.refs || num !in this.refs || den !in this.refs { return false; }
      PutRatio(all, name, num, den);
      var i := 0;
      while i < |sups|
        invariant i <= |sups|
        invariant AddRatioOf(links, depth, refs, old(RatiosOf(all)), this, name, num, den)
               == SupRatios(links, depth, refs, RatiosOf(all), this, i, name, num, den)
      {
        RatioNext(links, depth, refs, RatiosOf(all), this, i, name, num, den);
        ok := sups[i].0.AddRatio(all, depth, sups[i].1 + name, sups[i].1 + num, sups[i].1 + den);
        if !ok { return; }
        i := i + 1;
      }
      RatioLast(links, depth, refs, RatiosOf(all), this, name, num, den);
      ok := true;
    }

    lemma SameRefs(all: set<Metric>, names: map<string, Cell>)
      requires this in all
      requires forall x ::
                 ((this, x) in RefsOf(all) <==> x in names) && (x in names ==> RefsOf(all)[(this, x)] == names[x])
      ensures refs == names
    {
      forall x ensures (x in refs <==> x in names) && (x in refs ==> refs[x] == names[x]) { InRefs(all, x); }
    }

    lemma SameRatios(all: set<Metric>, names: map<string, (string, string)>)
      requires this in all
      requires forall x ::
                 ((this, x) in RatiosOf(all) <==> x in names) && (x in names ==> RatiosOf(all)[(this, x)] == names[x])
      ensures ratios == names
    {
      forall x ensures (x in ratios <==> x in names) && (x in ratios ==> ratios[x] == names[x]) {
        assert (this, x) in RatiosOf(all) <==> x in ratios;
      }
    }

    /** All current names of a part. */
    method AddNames(ghost all: set<Metric>, ghost depth: Metric -> nat, prefix: string, sub: Metric, names: seq<string>)
      returns (ok: bool)
      requires this in all && sub in all && Layered(LinksOf(all), depth) && depth(this) < depth(sub)
      requires forall x :: x in names ==> x in sub.refs
      modifies all`refs
      ensures (ok, RefsOf(all)) ==
              Insert(old(RefsOf(all)), LinkPuts(LinksOf(all), depth, this, prefix, old(sub.refs), names))
      ensures sub.refs == old(sub.refs)
    {
      hide Insert, LinkPuts, Layered, Targets, RefsOf;
      ghost var links, start := LinksOf(all), sub.refs;
      var i := 0;
      assert names[0..] == names;
      while i < |names|
        invariant i <= |names| && sub.refs == start
        invariant Insert(old(RefsOf(all)), LinkPuts(links, depth, this, prefix, start, names))
               == Insert(RefsOf(all), LinkPuts(links, depth, this, prefix, start, names[i..]))
      {
        LinkNext(links, depth, RefsOf(all), this, prefix, start, names[i..]);
        assert names[i..][1..] == names[i + 1..];
        ok := AddName(all, depth, prefix, sub, names[i]);
        if !ok { return; }
        i := i + 1;
      }
      LinkEnd(links, depth, RefsOf(all), this, prefix, start);
      ok := true;
    }

    lemma LinkEnd(links: Links, depth: Metric -> nat, refs: Refs, m: Metric, prefix: string, names: map<string, Cell>)
      requires Layered(links, depth) && m in links
      ensures Insert(refs, LinkPuts(links, depth, m, prefix, names, [])) == (true, refs)
    {}

    method AddName(ghost all: set<Metric>, ghost depth: Metric -> nat, prefix: string, sub: Metric, name: string)
      returns (ok: bool)
      requires this in all && sub in all && Layered(LinksOf(all), depth) && depth(this) < depth(sub)
      requires name in sub.refs
      modifies all`refs
      ensures (ok, RefsOf(all)) ==
              Insert(old(RefsOf(all)), Tagged(Targets(LinksOf(all), depth, this, prefix + name), old(sub.refs[name])))
      ensures sub.refs == old(sub.refs)
    {
      hide Insert, Layered, Targets, RefsOf;
      ghost var before, names := RefsOf(all), sub.refs;
      forall x
        ensures ((sub, x) in before <==> x in names) && (x in names ==> before[(sub, x)] == names[x])
      {
        sub.InRefs(all, x);
      }
      forall x
        ensures var r := Insert(before, Tagged(Targets(LinksOf(all), depth, this, prefix + name), names[name])).1;
        ((sub, x) in r <==> (sub, x) in before) && ((sub, x) in before ==> r[(sub, x)] == before[(sub, x)])
      {
        InsertLeaves(LinksOf(all), depth, before, this, prefix + name, names[name], sub, x);
      }
      ok := Add(all, depth, prefix + name, sub.refs[name]);
      sub.SameRefs(all, names);
    }

    /** All current ratios of a part. */
    method AddRatios(ghost all: set<Metric>, ghost depth: Metric -> nat, prefix: string, sub: Metric,
                     names: seq<string>) returns (ok: bool)
      requires this in all && sub in all && Layered(LinksOf(all), depth) && depth(this) < depth(sub)
      requires forall x :: x in names ==> x in sub.ratios
      modifies all`ratios
      ensures (ok, RatiosOf(all)) ==
              LinkRatios(LinksOf(all), depth, RefsOf(all), old(RatiosOf(all)), this, prefix, old(sub.ratios), names)
    {
      hide AddRatioOf, Layered, RatiosOf;
      ghost var links, refs, start := LinksOf(all), RefsOf(all), sub.ratios;
      var i := 0;
      assert names[0..] == names;
      while i < |names|
        invariant i <= |names| && sub.ratios == start
        invariant LinkRatios(links, depth, refs, old(RatiosOf(all)), this, prefix, start, names)
               == LinkRatios(links, depth, refs, RatiosOf(all), this, prefix, start, names[i..])
      {
        assert names[i..][1..] == names[i + 1..];
        ok := AddRatioName(all, depth, prefix, sub, names[i]);
        if !ok { return; }
        i := i + 1;
      }
      ok := true;
    }

    method AddRatioName(ghost all: set<Metric>, ghost depth: Metric -> nat, prefix: string, sub: Metric, name: string)
      returns (ok: bool)
      requires this in all && sub in all && Layered(LinksOf(all), depth) && depth(this) < depth(sub)
      requires name in sub.ratios
      modifies all`ratios
      ensures var (num, den) := old(sub.ratios[name]);
        (ok, RatiosOf(all)) ==
          AddRatioOf(LinksOf(all), depth, RefsOf(all), old(RatiosOf(all)), this, prefix + name, prefix + num,
                     prefix + den)
      ensures ok ==> sub.ratios == old(sub.ratios)
    {
      hide AddRatioOf, Layered, RefsOf;
      ghost var before, names := RatiosOf(all), sub.ratios;
      var (num, den) := sub.ratios[name];
      ok := AddRatio(all, depth, prefix + name, prefix + num, prefix + den);
      if ok {
        forall x
          ensures ((sub, x) in RatiosOf(all) <==> x in names) && (x in names ==> RatiosOf(all)[(sub, x)] == names[x])
        {
          RatiosLeave(LinksOf(all), depth, RefsOf(all), before, this, prefix + name, prefix + num, prefix + den, sub,
                      x);
          assert (sub, x) in before <==> x in names;
        }
        sub.SameRatios(all, names);
      }
    }

    /** A part is linked under a prefix.  `names` and `ratioNames` are the keys of its two maps in
        their order, and `at` is the place of this metric among its wholes. */
    method AddMetric(ghost all: set<Metric>, ghost depth: Metric -> nat, prefix: string, sub: Metric,
                     names: seq<string>, ratioNames: seq<string>, at: nat) returns (ok: bool)
      requires this in all && sub in all && Layered(LinksOf(all), depth) && depth(this) < depth(sub)
      requires (forall x :: x in names <==> x in sub.refs) && (forall x :: x in ratioNames <==> x in sub.ratios)
      modifies all`refs, all`ratios, sub`sups
      ensures (ok, World(LinksOf(all), RefsOf(all), RatiosOf(all)))
           == LinkOf(old(World(LinksOf(all), RefsOf(all), RatiosOf(all))), depth, this, prefix, sub, at,
                     old(sub.refs), names, old(sub.ratios), ratioNames)
    {
      hide Insert, LinkPuts, LinkRatios, Layered, RefsOf, RatiosOf, LinksOf, Linked;
      ok := AddNames(all, depth, prefix, sub, names);
      if !ok { return; }
      ok := AddRatios(all, depth, prefix, sub, ratioNames);
      if !ok { return; }
      SetSup(all, prefix, sub, at);
    }

    method SetSup(ghost all: set<Metric>, prefix: string, sub: Metric, at: nat)
      requires this in all && sub in all
      modifies sub`sups
      ensures LinksOf(all) == Linked(old(LinksOf(all)), this, prefix, sub, at)
    {
      hide WithSup;
      sub.sups := WithSup(sub.sups, this, prefix, at);
    }
  }
}
