/** Placement: filter, fall back outside the region, score with jitter, rank. */
module Placement {
  import opened Text
  import opened Model
  import opened Sorting

  datatype Scored = Scored(runner: RunnerInfo, score: real)

  const PENALTY: real := 1000.0

  /** The score before jitter. */
  function BaseScore(r: RunnerInfo): real {
    r.availableWorkers as real * 10.0 - r.cpuUtil * 50.0 - r.memUtil * 30.0 + r.freeDiskMB as real / 1000.0
  }

  /** The weight of each field, and no constant: these equations leave one score only. */
  lemma ScoreWeights(r: RunnerInfo, n: int, x: real)
    ensures BaseScore(r.(availableWorkers := 0, cpuUtil := 0.0, memUtil := 0.0, freeDiskMB := 0)) == 0.0
    ensures BaseScore(r.(availableWorkers := r.availableWorkers + n)) == BaseScore(r) + 10.0 * n as real
    ensures BaseScore(r.(cpuUtil := r.cpuUtil + x)) == BaseScore(r) - 50.0 * x
    ensures BaseScore(r.(memUtil := r.memUtil + x)) == BaseScore(r) - 30.0 * x
    ensures BaseScore(r.(freeDiskMB := r.freeDiskMB + 1000 * n)) == BaseScore(r) + n as real
  {
  }

  /** A random draw in [0, 1) becomes a jitter in [-5, 5). */
  function Jitter(draw: real): real {
    draw * 10.0 - 5.0
  }

  function ScoreRunner(r: RunnerInfo, draw: real): real {
    BaseScore(r) + Jitter(draw)
  }

  // ------------------------------------------------------------ filters

  /** The position of the first colon, or the length if there is none. */
  function ColonAt(s: Str): (i: nat)
    ensures i <= |s| && (i < |s| ==> s[i] == COLON) && forall j :: 0 <= j < i ==> s[j] != COLON
  {
    if s == [] || s[0] == COLON then 0 else 1 + ColonAt(s[1..])
  }

  /** A missing label reads as the empty string. */
  function LabelIn(labels: map<Str, Str>, name: Str): Str {
    if name in labels then labels[name] else []
  }

  /** One query label: "name:value" must match, text without a colon is ignored. */
  predicate MatchesLabel(r: RunnerInfo, lbl: Str) {
    var i := ColonAt(lbl);
    i < |lbl| ==> LabelIn(r.labels, lbl[..i]) == lbl[i + 1..]
  }

  ghost predicate Eligible(r: RunnerInfo, labels: seq<Str>) {
    && r.status == Active && r.availableWorkers != 0
    && forall i :: 0 <= i < |labels| ==> MatchesLabel(r, labels[i])
  }

  predicate InRegion(r: RunnerInfo, region: Str) {
    region == [] || r.region == region
  }

  /** The elements that satisfy p, in order. */
  ghost function Filter<T>(s: seq<T>, p: T -> bool): seq<T> {
    if s == [] then []
    else
      var rest := Filter(s[..|s| - 1], p);
      if p(s[|s| - 1]) then rest + [s[|s| - 1]] else rest
  }

  lemma {:induction false} FilterKeeps<T>(s: seq<T>, p: T -> bool, x: T)
    ensures multiset(Filter(s, p))[x] == if p(x) then multiset(s)[x] else 0
  {
    if s != [] {
      FilterKeeps(s[..|s| - 1], p, x);
      assert s == s[..|s| - 1] + [s[|s| - 1]];
    }
  }

  /** The filter keeps the order: its elements stand at growing positions of s. */
  lemma {:induction false} FilterKeepsOrder<T>(s: seq<T>, p: T -> bool) returns (at: seq<nat>)
    ensures |at| == |Filter(s, p)|
    ensures forall i :: 0 <= i < |at| ==> at[i] < |s| && s[at[i]] == Filter(s, p)[i]
    ensures forall i, j :: 0 <= i < j < |at| ==> at[i] < at[j]
  {
    at := [];
    if s != [] {
      at := FilterKeepsOrder(s[..|s| - 1], p);
      if p(s[|s| - 1]) {
        at := at + [|s| - 1];
      }
    }
  }

  /** A runner without the label that a filter names passes it if and only if the filter has
      no colon or nothing after it. */
  lemma MissingLabelPassesExactly(r: RunnerInfo, lbl: Str)
    requires lbl[..ColonAt(lbl)] !in r.labels
    ensures MatchesLabel(r, lbl) <==> COLON !in lbl || ColonAt(lbl) == |lbl| - 1
  {
    var i := ColonAt(lbl);
    if i < |lbl| {
      assert lbl[i] in lbl;
      assert lbl[i + 1..] == [] <==> i == |lbl| - 1;
    } else {
      assert COLON !in lbl;
    }
  }

  const GPU: Str := [103, 112, 117]
  const EU: Str := [101, 117]

  /** Inputs for both cases: a runner without labels is eligible for "gpu" and for "gpu:",
      and not for "gpu:gpu". */
  lemma UnlabelledRunnerPasses() returns (r: RunnerInfo)
    ensures r.labels == map[] && Eligible(r, [GPU]) && Eligible(r, [GPU + [COLON]]) && !Eligible(r, [GPU + [COLON] + GPU])
  {
    r := RunnerInfo([97], EU, Active, 0.0, 0.0, 5000, 1, map[]);
    MissingLabelPassesExactly(r, GPU);
    MissingLabelPassesExactly(r, GPU + [COLON]);
    MissingLabelPassesExactly(r, GPU + [COLON] + GPU);
    FirstColon(GPU, []);
    FirstColon(GPU, GPU);
    assert GPU + [COLON] + [] == GPU + [COLON];
    assert [GPU + [COLON] + GPU][0] == GPU + [COLON] + GPU;
  }

  lemma FirstColon(name: Str, value: Str)
    requires COLON !in name
    ensures ColonAt(name + [COLON] + value) == |name|
  {
    assert (name + [COLON] + value)[|name|] == COLON;
  }

  method LabelsMatch(r: RunnerInfo, labels: seq<Str>) returns (ok: bool)
    ensures ok <==> forall i :: 0 <= i < |labels| ==> MatchesLabel(r, labels[i])
  {
    ok := true;
    for i := 0 to |labels|
      invariant ok && forall j :: 0 <= j < i ==> MatchesLabel(r, labels[j])
    {
      var at := ColonAt(labels[i]);
      if at < |labels[i]| {
        if LabelIn(r.labels, labels[i][..at]) != labels[i][at + 1..] {
          return false;
        }
      }
    }
  }

  /** The runners a query ranks: the eligible ones in the region if there are any,
      otherwise all eligible ones. */
  ghost function Candidates(runners: seq<RunnerInfo>, region: Str, labels: seq<Str>): seq<RunnerInfo> {
    var here := Filter(runners, r => Eligible(r, labels) && InRegion(r, region));
    if here != [] then here else Filter(runners, r => Eligible(r, labels))
  }

  ghost predicate FallsBack(runners: seq<RunnerInfo>, region: Str, labels: seq<Str>) {
    forall r :: r in runners && Eligible(r, labels) ==> !InRegion(r, region)
  }

  method Select(runners: seq<RunnerInfo>, region: Str, labels: seq<Str>)
    returns (final: seq<RunnerInfo>, penalty: bool)
    ensures final == Candidates(runners, region, labels)
    ensures final != [] ==> (penalty <==> FallsBack(runners, region, labels))
  {
    var allEligible: seq<RunnerInfo> := [];
    var regionEligible: seq<RunnerInfo> := [];
    for i := 0 to |runners|
      invariant allEligible == Filter(runners[..i], r => Eligible(r, labels))
      invariant regionEligible == Filter(runners[..i], r => Eligible(r, labels) && InRegion(r, region))
    {
      var rn := runners[i];
      assert runners[..i + 1][..i] == runners[..i];
      if rn.status != Active {
        continue;
      }
      if rn.availableWorkers == 0 {
        continue;
      }
      var matchLabels := LabelsMatch(rn, labels);
      if !matchLabels {
        continue;
      }
      allEligible := allEligible + [rn];
      if region == [] || rn.region == region {
        regionEligible := regionEligible + [rn];
      }
    }
    assert runners[..|runners|] == runners;
    EmptyFilter(runners, r => Eligible(r, labels) && InRegion(r, region));
    final, penalty := [], false;
    if |regionEligible| > 0 {
      final := regionEligible;
    } else if |allEligible| > 0 {
      final := allEligible;
      penalty := true;
    }
  }

  /** A candidate is a listed runner that is active, has a free worker and passes every
      label filter. */
  lemma CandidatesAreFit(runners: seq<RunnerInfo>, region: Str, labels: seq<Str>, r: RunnerInfo)
    requires r in Candidates(runners, region, labels)
    ensures r in runners && r.status == Active && r.availableWorkers != 0
    ensures forall i :: 0 <= i < |labels| ==> MatchesLabel(r, labels[i])
  {
    CandidatesExactly(runners, region, labels, r);
    assert multiset(Candidates(runners, region, labels))[r] > 0;
  }

  /** And without label filters nothing more is asked. */
  lemma FitIsEligible(r: RunnerInfo)
    ensures Eligible(r, []) <==> r.status == Active && r.availableWorkers != 0
  {
  }

  /** Where the candidates are: in the region if a fit runner is there or if no region is
      asked for, and elsewhere, under the penalty, only if none is. */
  lemma RegionRule(runners: seq<RunnerInfo>, region: Str, labels: seq<Str>, r: RunnerInfo)
    requires r in Candidates(runners, region, labels)
    ensures FallsBack(runners, region, labels) <==> region != [] && r.region != region
    ensures FallsBack(runners, region, labels) ==> forall x :: x in runners && Eligible(x, labels) ==> x.region != region
  {
    CandidatesExactly(runners, region, labels, r);
    assert multiset(Candidates(runners, region, labels))[r] > 0;
    assert r in runners;
  }

  /** Every runner in a ranking is a candidate. */
  lemma RankedAreCandidates(final: seq<RunnerInfo>, draws: seq<real>, penalty: bool, out: seq<Scored>, s: Scored)
    requires |draws| >= |final| && IsRanking(final, draws, penalty, out) && s in out
    ensures s.runner in final
  {
    var all := ScoreAll(final, draws, penalty);
    assert s in multiset(out);
    assert s in all;
  }

  lemma EmptyFilter<T>(s: seq<T>, p: T -> bool)
    ensures Filter(s, p) == [] <==> forall x :: x in s ==> !p(x)
  {
    if Filter(s, p) == [] {
      forall x | x in s ensures !p(x) {
        FilterKeeps(s, p, x);
        assert multiset(s)[x] > 0;
      }
    } else {
      var x := Filter(s, p)[0];
      FilterKeeps(s, p, x);
      assert x in multiset(Filter(s, p));
      assert x in s;
    }
  }

  // ------------------------------------------------------------ ranking

  predicate ScoreOrder(a: Scored, b: Scored) {
    a.score >= b.score
  }

  function ScoreOf(r: RunnerInfo, draw: real, penalty: bool): real {
    if penalty then ScoreRunner(r, draw) - PENALTY else ScoreRunner(r, draw)
  }

  /** Each candidate with its own draw. */
  ghost function ScoreAll(final: seq<RunnerInfo>, draws: seq<real>, penalty: bool): seq<Scored>
    requires |draws| >= |final|
  {
    seq(|final|, i requires 0 <= i < |final| => Scored(final[i], ScoreOf(final[i], draws[i], penalty)))
  }

  /** `out` ranks the candidates: a score-descending permutation of them, each scored
      with its own draw. */
  ghost predicate IsRanking(final: seq<RunnerInfo>, draws: seq<real>, penalty: bool, out: seq<Scored>)
    requires |draws| >= |final|
  {
    multiset(out) == multiset(ScoreAll(final, draws, penalty)) && Sorted(out, ScoreOrder)
  }

  method Rank(final: seq<RunnerInfo>, draws: seq<real>, penalty: bool) returns (out: seq<Scored>)
    requires |draws| >= |final|
    ensures IsRanking(final, draws, penalty, out)
  {
    ghost var all := ScoreAll(final, draws, penalty);
    out := [];
    for i := 0 to |final|
      invariant multiset(out) == multiset(all[..i]) && Sorted(out, ScoreOrder)
    {
      var sc := ScoreRunner(final[i], draws[i]);
      if penalty {
        sc := sc - 1000.0;
      }
      assert all[..i + 1] == all[..i] + [all[i]];
      out := Insert(out, Scored(final[i], sc), ScoreOrder);
    }
    assert all[..|final|] == all;
  }

  /** The placement query. `draws` are the random numbers, one per candidate. */
  method BestRunner(runners: seq<RunnerInfo>, region: Str, labels: seq<Str>, draws: seq<real>)
    returns (found: bool, out: seq<Scored>)
    requires |draws| >= |Candidates(runners, region, labels)|
    ensures found <==> exists r :: r in runners && Eligible(r, labels)
    ensures IsRanking(Candidates(runners, region, labels), draws, found && FallsBack(runners, region, labels), out)
    ensures forall s :: s in out ==> s.runner in runners && s.runner.status == Active && s.runner.availableWorkers != 0
    ensures labels == [] ==> (found <==> exists r :: r in runners && r.status == Active && r.availableWorkers != 0)
  {
    var final, penalty := Select(runners, region, labels);
    CandidatesExist(runners, region, labels);
    if |final| == 0 {
      out := [];
      return false, out;
    }
    out := Rank(final, draws, penalty);
    forall s | s in out ensures s.runner in runners && s.runner.status == Active && s.runner.availableWorkers != 0 {
      RankedAreCandidates(final, draws, penalty, out, s);
      CandidatesAreFit(runners, region, labels, s.runner);
    }
    found := true;
  }

  lemma {:induction false} FilterShrinks<T>(s: seq<T>, p: T -> bool)
    ensures |Filter(s, p)| <= |s|
  {
    if s != [] {
      FilterShrinks(s[..|s| - 1], p);
    }
  }

  lemma CandidatesBounded(runners: seq<RunnerInfo>, region: Str, labels: seq<Str>)
    ensures |Candidates(runners, region, labels)| <= |runners|
  {
    FilterShrinks(runners, r => Eligible(r, labels));
    FilterShrinks(runners, r => Eligible(r, labels) && InRegion(r, region));
  }

  lemma CandidatesExist(runners: seq<RunnerInfo>, region: Str, labels: seq<Str>)
    ensures Candidates(runners, region, labels) != [] <==> exists r :: r in runners && Eligible(r, labels)
  {
    EmptyFilter(runners, r => Eligible(r, labels));
    EmptyFilter(runners, r => Eligible(r, labels) && InRegion(r, region));
  }

  // ------------------------------------------------------------ what a ranking says

  /** A runner is a candidate, as often as it is listed, exactly when it is eligible and
      either in the region or no eligible runner is. */
  lemma CandidatesExactly(runners: seq<RunnerInfo>, region: Str, labels: seq<Str>, r: RunnerInfo)
    ensures multiset(Candidates(runners, region, labels))[r]
            == if Eligible(r, labels) && (InRegion(r, region) || FallsBack(runners, region, labels))
               then multiset(runners)[r] else 0
  {
    EmptyFilter(runners, x => Eligible(x, labels) && InRegion(x, region));
    FilterKeeps(runners, x => Eligible(x, labels) && InRegion(x, region), r);
    FilterKeeps(runners, x => Eligible(x, labels), r);
    if FallsBack(runners, region, labels) && Eligible(r, labels) && InRegion(r, region) {
      assert r !in runners;
    }
  }

  /** An input for the region rule: of two eligible runners, the one outside the region is
      dropped, not penalised. */
  lemma OutsideRunnerIsDropped() returns (inside: RunnerInfo, outside: RunnerInfo)
    ensures Eligible(inside, []) && Eligible(outside, []) && InRegion(inside, EU) && !InRegion(outside, EU)
    ensures var chosen := multiset(Candidates([inside, outside], EU, []));
            chosen[inside] == 1 && chosen[outside] == 0
    ensures !FallsBack([inside, outside], EU, [])
  {
    inside := RunnerInfo([97], EU, Active, 0.0, 0.0, 5000, 1, map[]);
    outside := inside.(id := [98], region := GPU);
    assert EU[0] != GPU[0];
    assert inside in [inside, outside];
    CandidatesExactly([inside, outside], EU, [], inside);
    CandidatesExactly([inside, outside], EU, [], outside);
    assert inside.id[0] != outside.id[0];
  }

  ghost predicate FairDraws(draws: seq<real>) {
    forall i :: 0 <= i < |draws| ==> 0.0 <= draws[i] < 1.0
  }

  /** A ranked score lies within the jitter band around the runner's base score. */
  lemma RankedScoreBand(final: seq<RunnerInfo>, draws: seq<real>, penalty: bool, out: seq<Scored>, i: nat)
    requires |draws| >= |final| && FairDraws(draws) && IsRanking(final, draws, penalty, out) && i < |out|
    ensures var base := BaseScore(out[i].runner) - if penalty then 1000.0 else 0.0;
            base - 5.0 <= out[i].score < base + 5.0
  {
    var all := ScoreAll(final, draws, penalty);
    assert out[i] in multiset(out);
    assert out[i] in all;
    var j :| 0 <= j < |all| && all[j] == out[i];
    assert 0.0 <= draws[j] < 1.0;
  }

  /** A lead of ten in base score wins against every draw of the jitter. */
  lemma LeadOfTenWins(final: seq<RunnerInfo>, draws: seq<real>, penalty: bool, out: seq<Scored>, i: nat, j: nat)
    requires |draws| >= |final| && FairDraws(draws) && IsRanking(final, draws, penalty, out)
    requires i < |out| && j < |out| && BaseScore(out[i].runner) >= BaseScore(out[j].runner) + 10.0
    ensures i < j
  {
    RankedScoreBand(final, draws, penalty, out, i);
    RankedScoreBand(final, draws, penalty, out, j);
    assert j < i ==> ScoreOrder(out[j], out[i]);
  }

  /** Ten is exact: any smaller lead loses against some pair of draws. */
  lemma SmallerLeadCanLose(r: RunnerInfo, s: RunnerInfo) returns (x: real, y: real)
    requires BaseScore(r) < BaseScore(s) + 10.0
    ensures 0.0 <= x < 1.0 && 0.0 <= y < 1.0
    ensures ScoreRunner(s, y) > ScoreRunner(r, x)
  {
    x := 0.0;
    var gap := BaseScore(s) + 10.0 - BaseScore(r);
    y := if gap >= 20.0 then 0.0 else 1.0 - gap / 20.0;
  }
}
