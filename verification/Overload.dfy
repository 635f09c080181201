/** The choice among overloaded functions: src/libluabind/find_best_match.cpp and
    src/libluabind/function.cpp. */
module Overload {

  const INT_MAX: int := 0x7fff_ffff

  /** `best` is the least of the scores that are not negative and below the maximum. */
  ghost predicate Least(scores: seq<int>, best: int) {
    && 0 <= best < INT_MAX && (exists i :: 0 <= i < |scores| && scores[i] == best)
    && forall i :: 0 <= i < |scores| && scores[i] >= 0 ==> best <= scores[i]
  }

  ghost predicate NoneMatches(scores: seq<int>) {
    forall i :: 0 <= i < |scores| && scores[i] >= 0 ==> scores[i] == INT_MAX
  }

  /** The places of the score `s`. */
  function Matches(scores: seq<int>, s: int): (r: seq<nat>)
    ensures forall k :: 0 <= k < |r| ==> r[k] < |scores| && scores[r[k]] == s
  {
    if scores == [] then []
    else
      var n := |scores| - 1;
      Matches(scores[..n], s) + (if scores[n] == s then [n] else [])
  }

  lemma {:induction false} MatchesHasAll(scores: seq<int>, s: int)
    ensures forall i :: 0 <= i < |scores| && scores[i] == s ==> i in Matches(scores, s)
    ensures forall j, k :: 0 <= j < k < |Matches(scores, s)| ==> Matches(scores, s)[j] < Matches(scores, s)[k]
    decreases |scores|
  {
    if scores != [] { MatchesHasAll(scores[..|scores| - 1], s); }
  }

  lemma {:induction false} NoMatches(scores: seq<int>, s: int)
    requires forall i :: 0 <= i < |scores| ==> scores[i] != s
    ensures Matches(scores, s) == []
  {
    if scores != [] { NoMatches(scores[..|scores| - 1], s); }
  }

  /** What the loop knows: the least score so far with its first place, and the least of
      all others, counting equal ones. */
  ghost predicate Best(scores: seq<int>, found: bool, min: int, second: int, index: int) {
    && (if found then Least(scores, min) && Matches(scores, min) != [] && index == Matches(scores, min)[0]
        else NoneMatches(scores) && min == INT_MAX)
    && min <= second <= INT_MAX
    && (found ==> (second == min <==> |Matches(scores, min)| >= 2))
    && (!found ==> second == INT_MAX)
  }

  /** find_best_match, started with the largest score. */
  method FindBestMatch(scores: seq<int>, index0: int) returns (found: bool, ambiguous: bool, min: int, index: int)
    requires forall i :: 0 <= i < |scores| ==> scores[i] <= INT_MAX
    ensures if found then Least(scores, min) && Matches(scores, min) != [] && index == Matches(scores, min)[0]
            else NoneMatches(scores) && min == INT_MAX && index == index0
    ensures ambiguous <==> found && |Matches(scores, min)| >= 2
  {
    var second := INT_MAX;
    found, min, index := false, INT_MAX, index0;
    assert scores[..0] == [];
    for i := 0 to |scores|
      invariant Best(scores[..i], found, min, second, index) && (!found ==> index == index0)
    {
      var value := scores[i];
      BestNext(scores, i, found, min, second, index);
      if value < 0 { continue; }
      if value < min {
        found := true;
        index := i;
        second := min;
        min := value;
      } else if value < second {
        second := value;
      }
    }
    assert scores[..|scores|] == scores;
    ambiguous := min == second && min < INT_MAX;
  }

  lemma BestNext(scores: seq<int>, i: nat, found: bool, min: int, second: int, index: int)
    requires i < |scores| && scores[i] <= INT_MAX && Best(scores[..i], found, min, second, index)
    ensures var v := scores[i]; var next := scores[..i + 1];
            if v < 0 then Best(next, found, min, second, index)
            else if v < min then Best(next, true, v, min, i)
            else Best(next, found, min, if v < second then v else second, index)
  {
    var v, before := scores[i], scores[..i];
    assert scores[..i + 1] == before + [v];
    MatchesPush(before, v, min);
    MatchesPush(before, v, v);
    hide Matches;
    if v < 0 {
      WorsePush(before, v, found, min);
    } else if v < min {
      BetterPush(before, v, found, min);
      NoMatches(before, v);
    } else {
      WorsePush(before, v, found, min);
    }
  }

  lemma MatchesPush(scores: seq<int>, v: int, s: int)
    ensures Matches(scores + [v], s) == Matches(scores, s) + (if v == s then [|scores|] else [])
  {
    assert (scores + [v])[..|scores|] == scores;
  }

  lemma BetterPush(scores: seq<int>, v: int, found: bool, min: int)
    requires if found then Least(scores, min) else NoneMatches(scores) && min == INT_MAX
    requires 0 <= v < min
    ensures Least(scores + [v], v) && forall k :: 0 <= k < |scores| ==> scores[k] != v
  {
    assert (scores + [v])[|scores|] == v;
  }

  lemma WorsePush(scores: seq<int>, v: int, found: bool, min: int)
    requires if found then Least(scores, min) else NoneMatches(scores) && min == INT_MAX
    requires v < 0 || min <= v <= INT_MAX
    ensures if found then Least(scores + [v], min) else NoneMatches(scores + [v])
  {
    if found {
      var k :| 0 <= k < |scores| && scores[k] == min;
      assert (scores + [v])[k] == min;
    }
  }

  /** find_exact_match. */
  method FindExactMatch(scores: seq<int>, cmp: int) returns (dest: seq<nat>)
    ensures dest == Matches(scores, cmp)
  {
    dest := [];
    for i := 0 to |scores|
      invariant dest == Matches(scores[..i], cmp)
    {
      assert scores[..i + 1] == scores[..i] + [scores[i]];
      MatchesPush(scores[..i], scores[i], cmp);
      if scores[i] == cmp {
        dest := dest + [i];
      }
    }
    assert scores[..|scores|] == scores;
  }

  // ----- function::call -----

  /** An overload, with the next one of its chain; `score` is what m_score gives for the
      arguments of the call. */
  class Function {
    const arity: int
    const score: int
    const next: Function?

    constructor (arity: int, score: int, next: Function?)
      ensures this.arity == arity && this.score == score && this.next == next
    {
      this.arity, this.score, this.next := arity, score, next;
    }
  }

  /** The chain from `f` on is `fs`. */
  ghost predicate Chain(f: Function?, fs: seq<Function>)
    decreases |fs|
  {
    if f == null then fs == [] else fs != [] && fs[0] == f && Chain(f.next, fs[1..])
  }

  /** The scores that count for a call with `args` arguments. */
  function Scores(fs: seq<Function>, args: int): (r: seq<int>)
    ensures |r| == |fs|
    ensures forall i :: 0 <= i < |fs| ==> r[i] == if fs[i].arity == args then fs[i].score else -1
  {
    seq(|fs|, i requires 0 <= i < |fs| => if fs[i].arity == args then fs[i].score else -1)
  }

  const MAX_CANDIDATES := 10

  /** Overrun: there is no place left in the list of candidates; the assertion fails, and without
      assertions the call writes behind the list. */
  datatype Outcome = Dispatch(f: Function) | Ambiguous(candidates: seq<Function>) | NoOverload | Overrun

  /** The places from `lo` up to `hi` whose overload matches. */
  function Hits(scores: seq<int>, lo: nat, hi: nat): (r: seq<nat>)
    requires lo <= hi <= |scores|
    ensures forall k :: 0 <= k < |r| ==> lo <= r[k] < hi && scores[r[k]] >= 0
  {
    if lo == hi then []
    else Hits(scores, lo, hi - 1) + (if scores[hi - 1] >= 0 then [hi - 1] else [])
  }

  function At(fs: seq<Function>, places: seq<nat>): (r: seq<Function>)
    requires forall k :: 0 <= k < |places| ==> places[k] < |fs|
    ensures |r| == |places| && forall k :: 0 <= k < |r| ==> r[k] == fs[places[k]]
  {
    seq(|places|, k requires 0 <= k < |places| => fs[places[k]])
  }

  /** The score at `i` is better than all before it. */
  predicate Improves(scores: seq<int>, i: nat)
    requires i < |scores|
  {
    0 <= scores[i] < INT_MAX && forall k :: 0 <= k < i && scores[k] >= 0 ==> scores[i] < scores[k]
  }

  predicate NoneImproves(scores: seq<int>, lo: nat, hi: nat)
    requires hi <= |scores|
  {
    forall k :: lo <= k < hi ==> !Improves(scores, k)
  }

  /** More overloads match in a row than there are places, and none but the first of them is better
      than all before it. */
  ghost predicate Crowded(scores: seq<int>, n: nat)
    requires n <= |scores|
  {
    exists j, i :: 0 <= j < i <= n && NoneImproves(scores, j + 1, i) && |Hits(scores, j, i)| > MAX_CANDIDATES
  }

  /** The least score so far, and who has it if nobody else does. */
  ghost predicate Leader(fs: seq<Function>, scores: seq<int>, best: Function?, bestScore: int)
    requires |scores| == |fs|
  {
    && (if bestScore < INT_MAX then Least(scores, bestScore) else NoneMatches(scores) && bestScore == INT_MAX)
    && var at := Matches(scores, bestScore);
       if bestScore == INT_MAX then best == null
       else if |at| == 1 then best == fs[at[0]] else best == null && |at| >= 2
  }

  /** The candidates are the overloads that match, from the first one with the best score on. */
  ghost predicate Listing(fs: seq<Function>, scores: seq<int>, i: nat, first: nat, bestScore: int,
                          candidates: seq<Function>)
    requires |scores| == |fs| && i <= |fs|
  {
    && first <= i && candidates == At(fs, Hits(scores, first, i)) && !Crowded(scores, i)
    && NoneImproves(scores, first + 1, i)
    && (if bestScore < INT_MAX then first < i && Improves(scores, first) && scores[first] == bestScore
        else first == 0 && NoneImproves(scores, 0, i))
  }

  /** function::call: unless the list of candidates overruns, it dispatches exactly when one overload
      alone has the least score that is not negative, and then to it. */
  method Call(self: Function, ghost fs: seq<Function>, args: int) returns (o: Outcome)
    requires Chain(self, fs) && forall i :: 0 <= i < |fs| ==> fs[i].score <= INT_MAX
    ensures o == Overrun <==> Crowded(Scores(fs, args), |fs|)
    ensures var scores := Scores(fs, args);
            match o
            case Dispatch(f) =>
              exists s :: Least(scores, s) && |Matches(scores, s)| == 1 && f == fs[Matches(scores, s)[0]]
            case Ambiguous(candidates) => exists s :: Tied(scores, s) && candidates == TiedFrom(fs, scores, s)
            case NoOverload => NoneMatches(scores)
            case Overrun => true
  {
    hide Leader, Chain, Scores, Matches, Listing, Crowded, Tied, TiedFrom;
    var candidates := new Function[MAX_CANDIDATES](_ => self);
    var candidateIdx := 0;
    var best: Function?, bestScore := null, INT_MAX;
    var f: Function? := self;
    ghost var i, first := 0, 0;
    ghost var scores := Scores(fs, args);
    ScanStart(fs, scores);
    assert candidates[..0] == [];
    while f != null
      invariant 0 <= i <= |fs| && Chain(f, fs[i..])
      invariant 0 <= candidateIdx <= MAX_CANDIDATES
      invariant Leader(fs[..i], scores[..i], best, bestScore)
      invariant Listing(fs, scores, i, first, bestScore, candidates[..candidateIdx])
      decreases |fs| - i
    {
      ChainStep(f, fs, i);
      ScanStep(fs, scores, i, best, bestScore);
      ListingStep(fs, scores, i, first, best, bestScore, candidates[..candidateIdx]);
      if args == f.arity && f.score >= 0 {
        if f.score < bestScore {
          best := f;
          bestScore := f.score;
          candidateIdx := 0;
          first := i;
        } else if f.score == bestScore {
          best := null;
        }
        if candidateIdx == MAX_CANDIDATES { return Overrun; }
        ghost var before := candidates[..candidateIdx];
        candidates[candidateIdx] := f;
        candidateIdx := candidateIdx + 1;
        assert candidates[..candidateIdx] == before + [f] && [] + [f] == [f];
      }
      f := f.next;
      i := i + 1;
    }
    ScanEnd(fs, scores, i, best, bestScore);
    ListingEnd(fs, scores, i, first, best, bestScore, candidates[..candidateIdx]);
    if best == null {
      if bestScore != INT_MAX { return Ambiguous(candidates[..candidateIdx]); }
      return NoOverload;
    }
    o := Dispatch(best);
  }

  ghost predicate Tied(scores: seq<int>, s: int) {
    Least(scores, s) && |Matches(scores, s)| >= 2
  }

  /** What the message lists: the first overload with the score `s` and all that match behind it,
      those with worse scores, too. */
  ghost function TiedFrom(fs: seq<Function>, scores: seq<int>, s: int): seq<Function>
    requires |scores| == |fs| && Tied(scores, s)
  {
    At(fs, Hits(scores, Matches(scores, s)[0], |scores|))
  }

  /** What becomes of the list when the next overload is seen. */
  lemma ListingStep(fs: seq<Function>, scores: seq<int>, i: nat, first: nat, best: Function?, bestScore: int,
                    candidates: seq<Function>)
    requires |scores| == |fs| && i < |fs| && scores[i] <= INT_MAX && |candidates| <= MAX_CANDIDATES
    requires Leader(fs[..i], scores[..i], best, bestScore) && Listing(fs, scores, i, first, bestScore, candidates)
    ensures var v := scores[i];
      if v < 0 then Listing(fs, scores, i + 1, first, bestScore, candidates)
      else if v < bestScore then Listing(fs, scores, i + 1, i, v, [fs[i]])
      else if |candidates| < MAX_CANDIDATES then Listing(fs, scores, i + 1, first, bestScore, candidates + [fs[i]])
      else Crowded(scores, |scores|)
  {
    hide Leader, Improves, Crowded, Hits, At;
    ImprovesIff(fs, scores, i, best, bestScore);
    var v := scores[i];
    if v < 0 {
      HitsNext(fs, scores, first, i);
      NoneNext(scores, i, first);
      CrowdedStep(scores, i, first);
    } else if v < bestScore {
      HitsNext(fs, scores, i, i);
      assert [] + [fs[i]] == [fs[i]];
      NoneNext(scores, i, i);
      CrowdedStep(scores, i, i);
    } else {
      HitsNext(fs, scores, first, i);
      NoneNext(scores, i, first);
      if |candidates| < MAX_CANDIDATES {
        CrowdedStep(scores, i, first);
      } else {
        CrowdedNow(scores, i, first);
      }
    }
  }

  lemma HitsNext(fs: seq<Function>, scores: seq<int>, first: nat, i: nat)
    requires |scores| == |fs| && first <= i < |fs|
    ensures |Hits(scores, i, i)| == 0 && At(fs, Hits(scores, i, i)) == []
    ensures |Hits(scores, first, i + 1)| == |Hits(scores, first, i)| + if scores[i] >= 0 then 1 else 0
    ensures At(fs, Hits(scores, first, i + 1)) ==
            if scores[i] >= 0 then At(fs, Hits(scores, first, i)) + [fs[i]] else At(fs, Hits(scores, first, i))
  {}

  lemma NoneNext(scores: seq<int>, i: nat, first: nat)
    requires first <= i < |scores| && NoneImproves(scores, first + 1, i) && (i == first || !Improves(scores, i))
    ensures NoneImproves(scores, first + 1, i + 1)
    ensures NoneImproves(scores, 0, i) && !Improves(scores, i) ==> NoneImproves(scores, 0, i + 1)
  {
    hide Improves;
  }

  lemma CrowdedNow(scores: seq<int>, i: nat, first: nat)
    requires first <= i < |scores| && NoneImproves(scores, first + 1, i + 1)
    requires |Hits(scores, first, i + 1)| > MAX_CANDIDATES
    ensures Crowded(scores, |scores|)
  {
    hide NoneImproves, Hits;
  }

  /** Only what has come since the last best score counts. */
  lemma CrowdedStep(scores: seq<int>, i: nat, first: nat)
    requires i < |scores| && first <= i && !Crowded(scores, i) && |Hits(scores, first, i + 1)| <= MAX_CANDIDATES
    requires first == 0 || Improves(scores, first)
    ensures !Crowded(scores, i + 1)
  {
    hide Improves;
    if Crowded(scores, i + 1) {
      var j, h :| 0 <= j < h <= i + 1 && NoneImproves(scores, j + 1, h) && |Hits(scores, j, h)| > MAX_CANDIDATES;
      if h == i + 1 {
        assert first <= j;
        FewerHits(scores, first, j, h);
      }
      assert false;
    }
  }

  lemma {:induction false} FewerHits(scores: seq<int>, lo: nat, mid: nat, hi: nat)
    requires lo <= mid <= hi <= |scores|
    ensures |Hits(scores, mid, hi)| <= |Hits(scores, lo, hi)|
    decreases hi
  {
    if mid < hi { FewerHits(scores, lo, mid, hi - 1); }
  }

  lemma ImprovesIff(fs: seq<Function>, scores: seq<int>, i: nat, best: Function?, bestScore: int)
    requires |scores| == |fs| && i < |fs| && scores[i] <= INT_MAX && Leader(fs[..i], scores[..i], best, bestScore)
    ensures bestScore <= INT_MAX && (Improves(scores, i) <==> 0 <= scores[i] < bestScore)
  {
    var seen := scores[..i];
    assert forall k :: 0 <= k < i ==> seen[k] == scores[k];
    if bestScore < INT_MAX {
      var k :| 0 <= k < |seen| && seen[k] == bestScore;
    }
  }

  /** A tie is listed from the first of its overloads on. */
  lemma ListingEnd(fs: seq<Function>, scores: seq<int>, i: nat, first: nat, best: Function?, bestScore: int,
                   candidates: seq<Function>)
    requires |scores| == |fs| && i <= |fs| && Chain(null, fs[i..])
    requires Listing(fs, scores, i, first, bestScore, candidates)
    requires best == null && bestScore != INT_MAX ==> Tied(scores, bestScore)
    ensures !Crowded(scores, |fs|)
    ensures best == null && bestScore != INT_MAX ==>
              bestScore < INT_MAX && candidates == TiedFrom(fs, scores, bestScore)
  {
    ChainStep(null, fs, i);
    if best == null && bestScore != INT_MAX {
      MatchesHasAll(scores, bestScore);
      var at := Matches(scores, bestScore);
      hide Matches;
      assert first in at;
      var k :| 0 <= k < |at| && at[k] == first;
      assert at[0] <= first && scores[at[0]] == bestScore;
    }
  }

  /** The place of the last overload before `i` that is better than all before it, 0 if there is none. */
  function Since(scores: seq<int>, i: nat): (r: nat)
    requires i <= |scores|
    ensures r <= i && (i > 0 ==> r < i) && NoneImproves(scores, r + 1, i) && (r == 0 || Improves(scores, r))
  {
    if i == 0 then 0 else if Improves(scores, i - 1) then i - 1 else Since(scores, i - 1)
  }

  /** The list overruns at a place exactly if too many have matched since the last best score. */
  lemma CrowdedIff(scores: seq<int>, n: nat)
    requires n <= |scores|
    ensures Crowded(scores, n) <==> exists i :: 0 < i <= n && |Hits(scores, Since(scores, i), i)| > MAX_CANDIDATES
  {
    hide Hits, Improves, Since;
    if Crowded(scores, n) {
      var j, i :| 0 <= j < i <= n && NoneImproves(scores, j + 1, i) && |Hits(scores, j, i)| > MAX_CANDIDATES;
      assert Since(scores, i) <= j;
      FewerHits(scores, Since(scores, i), j, i);
    }
    if i :| 0 < i <= n && |Hits(scores, Since(scores, i), i)| > MAX_CANDIDATES {
      assert NoneImproves(scores, Since(scores, i) + 1, i);
    }
  }

  /** With no more matching overloads than places there is always room. */
  lemma TenFit(scores: seq<int>)
    requires |Hits(scores, 0, |scores|)| <= MAX_CANDIDATES
    ensures !Crowded(scores, |scores|)
  {
    if Crowded(scores, |scores|) {
      var j, i :| 0 <= j < i <= |scores| && NoneImproves(scores, j + 1, i) && |Hits(scores, j, i)| > MAX_CANDIDATES;
      FewerHits(scores, 0, j, i);
      MoreHits(scores, 0, i, |scores|);
      assert false;
    }
  }

  lemma {:induction false} MoreHits(scores: seq<int>, lo: nat, mid: nat, hi: nat)
    requires lo <= mid <= hi <= |scores|
    ensures |Hits(scores, lo, mid)| <= |Hits(scores, lo, hi)|
    decreases hi
  {
    if mid < hi { MoreHits(scores, lo, mid, hi - 1); }
  }

  /** Eleven overloads match and the first alone has the least score: the call overruns its list
      instead of dispatching to it. */
  lemma OverrunExample()
    ensures var scores := [0, 1, 1, 1, 1, 1, 1, 1, 1, 1, 1];
            Least(scores, 0) && Matches(scores, 0) == [0] && Crowded(scores, |scores|)
  {
    var scores := [0, 1, 1, 1, 1, 1, 1, 1, 1, 1, 1];
    assert scores[0] == 0;
    hide Matches, Hits, Improves;
    OnlyMatch(scores, 0, 0);
    AllHit(scores, 11);
    NoneBehind(scores);
  }

  lemma {:induction false} OnlyMatch(scores: seq<int>, s: int, i: nat)
    requires i < |scores| && scores[i] == s && forall k :: 0 <= k < |scores| && k != i ==> scores[k] != s
    ensures Matches(scores, s) == [i]
    decreases |scores|
  {
    var n := |scores| - 1;
    if i == n { NoMatches(scores[..n], s); } else { OnlyMatch(scores[..n], s, i); }
  }

  lemma NoneBehind(scores: seq<int>)
    requires scores != [] && scores[0] == 0
    ensures NoneImproves(scores, 1, |scores|)
  {}

  lemma {:induction false} AllHit(scores: seq<int>, n: nat)
    requires n <= |scores| && forall i :: 0 <= i < |scores| ==> scores[i] >= 0
    ensures |Hits(scores, 0, n)| == n
  {
    if n > 0 { AllHit(scores, n - 1); }
  }

  lemma ChainStep(f: Function?, fs: seq<Function>, i: nat)
    requires i <= |fs| && Chain(f, fs[i..])
    ensures f == null <==> i == |fs|
    ensures f != null ==> f == fs[i] && Chain(f.next, fs[i + 1..])
  {
    assert i < |fs| ==> fs[i..][1..] == fs[i + 1..];
  }

  lemma ScanStart(fs: seq<Function>, scores: seq<int>)
    requires |scores| == |fs|
    ensures fs[0..] == fs && Leader(fs[..0], scores[..0], null, INT_MAX)
    ensures Listing(fs, scores, 0, 0, INT_MAX, [])
  {
    assert scores[..0] == [];
  }

  lemma ScanStep(fs: seq<Function>, scores: seq<int>, i: nat, best: Function?, bestScore: int)
    requires |scores| == |fs| && i < |fs| && scores[i] <= INT_MAX && Leader(fs[..i], scores[..i], best, bestScore)
    ensures var v := scores[i];
      Leader(fs[..i + 1], scores[..i + 1],
             if 0 <= v < bestScore then fs[i] else if v >= 0 && v == bestScore then null else best,
             if 0 <= v < bestScore then v else bestScore)
  {
    hide Leader;
    assert fs[..i + 1] == fs[..i] + [fs[i]] && scores[..i + 1] == scores[..i] + [scores[i]];
    LeaderPush(fs[..i], scores[..i], best, bestScore, fs[i], scores[i]);
  }

  /** At the end of the chain the leader is the outcome. */
  lemma ScanEnd(fs: seq<Function>, scores: seq<int>, i: nat, best: Function?, bestScore: int)
    requires |scores| == |fs| && i <= |fs| && Chain(null, fs[i..]) && Leader(fs[..i], scores[..i], best, bestScore)
    ensures best != null ==>
              Least(scores, bestScore) && |Matches(scores, bestScore)| == 1 && best == fs[Matches(scores, bestScore)[0]]
    ensures best == null && bestScore != INT_MAX ==> Tied(scores, bestScore)
    ensures best == null && bestScore == INT_MAX ==> NoneMatches(scores)
  {
    ChainStep(null, fs, i);
    assert fs[..i] == fs && scores[..i] == scores;
  }

  lemma LeaderPush(fs: seq<Function>, scores: seq<int>, best: Function?, bestScore: int, f: Function, v: int)
    requires |scores| == |fs| && Leader(fs, scores, best, bestScore) && v <= INT_MAX
    ensures Leader(fs + [f], scores + [v],
                   if 0 <= v < bestScore then f else if v >= 0 && v == bestScore then null else best,
                   if 0 <= v < bestScore then v else bestScore)
  {
    var found := bestScore < INT_MAX;
    MatchesPush(scores, v, bestScore);
    MatchesPush(scores, v, v);
    hide Matches;
    if 0 <= v < bestScore {
      BetterPush(scores, v, found, bestScore);
      NoMatches(scores, v);
    } else {
      WorsePush(scores, v, found, bestScore);
    }
  }
}
