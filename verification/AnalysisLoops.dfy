/** The loops and the in-place sort of the ranking checks, computing what the specification functions say. */
module AnalysisLoops {
  import opened Texts
  import opened Analysis
  import opened AnalysisProofs

  lemma {:induction false} SelectedAppend(request: Request, s: Snapshot, vs: seq<Fleet>, v: Fleet)
    ensures SelectedVehicles(request, s, vs + [v]) ==
      SelectedVehicles(request, s, vs) + (if Selected(request, s, v) then [v] else [])
  {
    if vs == [] {
      assert [] + [v] == [v];
    } else {
      SelectedAppend(request, s, vs[1..], v);
      assert (vs + [v])[1..] == vs[1..] + [v];
    }
  }

  lemma {:induction false} WithMetricAppend(vs: seq<Fleet>, metric: string, v: Fleet)
    ensures WithMetric(vs + [v], metric) == WithMetric(vs, metric) + (if VehicleMetric(v, metric).Some? then [v] else [])
  {
    if vs == [] {
      assert [] + [v] == [v];
    } else {
      WithMetricAppend(vs[1..], metric, v);
      assert (vs + [v])[1..] == vs[1..] + [v];
    }
  }

  /** The selection loop of `_matches_actual_ranking_top` and of `_ranking_counts`. */
  method SelectVehicles(request: Request, s: Snapshot) returns (vs: seq<Fleet>)
    ensures vs == SelectedVehicles(request, s, s.vehicles)
  {
    vs := [];
    for i := 0 to |s.vehicles|
      invariant vs == SelectedVehicles(request, s, s.vehicles[..i])
    {
      var item := s.vehicles[i];
      assert s.vehicles[..i + 1] == s.vehicles[..i] + [item];
      SelectedAppend(request, s, s.vehicles[..i], item);
      if item.owner != s.company { continue; }
      if request.subjectIds != [] && item.id !in request.subjectIds { continue; }
      if item.eligible { vs := vs + [item]; }
    }
    assert s.vehicles[..|s.vehicles|] == s.vehicles;
  }

  method KeepWithMetric(vs: seq<Fleet>, metric: string) returns (ranked: seq<Fleet>)
    ensures ranked == WithMetric(vs, metric)
  {
    ranked := [];
    for i := 0 to |vs|
      invariant ranked == WithMetric(vs[..i], metric)
    {
      assert vs[..i + 1] == vs[..i] + [vs[i]];
      WithMetricAppend(vs[..i], metric, vs[i]);
      if VehicleMetric(vs[i], metric).Some? { ranked := ranked + [vs[i]]; }
    }
    assert vs[..|vs|] == vs;
  }

  // ---------------------------------------------------------------- the sort

  function Order(s: Snapshot, d: Direction, metric: string): (Fleet, Fleet) -> bool {
    (u, v) => RanksBefore(s, d, metric, u, v)
  }

  predicate Ranked(before: (Fleet, Fleet) -> bool, vs: seq<Fleet>) {
    forall i, j :: 0 <= i < j < |vs| ==> !before(vs[j], vs[i])
  }

  /** Appending one vehicle to the candidates replaces the first only if it ranks before it. */
  lemma {:induction false} TopAppend(s: Snapshot, d: Direction, metric: string, vs: seq<Fleet>, v: Fleet)
    requires vs != []
    ensures Top(s, d, metric, vs + [v]) ==
      if RanksBefore(s, d, metric, v, Top(s, d, metric, vs)) then v else Top(s, d, metric, vs)
  {
    if |vs| == 1 {
      assert (vs + [v])[1..] == [v];
    } else {
      TopAppend(s, d, metric, vs[1..], v);
      assert (vs + [v])[1..] == vs[1..] + [v];
      var t := Top(s, d, metric, vs[1..]);
      if RanksBefore(s, d, metric, v, t) {
        if RanksBefore(s, d, metric, t, vs[0]) {
          RanksTransitive(s, d, metric, v, t, vs[0]);
        }
      } else {
        if RanksBefore(s, d, metric, v, vs[0]) && !RanksBefore(s, d, metric, t, vs[0]) {
          NotBeforeChain(s, d, metric, v, t, vs[0]);
        }
      }
    }
  }

  lemma RanksTransitive(s: Snapshot, d: Direction, metric: string, u: Fleet, v: Fleet, w: Fleet)
    requires RanksBefore(s, d, metric, u, v) && RanksBefore(s, d, metric, v, w)
    ensures RanksBefore(s, d, metric, u, w)
  {
    if Before(u.id, v.id) && Before(v.id, w.id) { BeforeTransitive(u.id, v.id, w.id); }
  }

  /** A stable insertion sort; its first element is the first of the ranking. */
  method SortRanked(s: Snapshot, d: Direction, metric: string, vs: seq<Fleet>) returns (sorted: seq<Fleet>)
    ensures multiset(sorted) == multiset(vs) && Ranked(Order(s, d, metric), sorted)
    ensures vs != [] ==> sorted != [] && sorted[0] == Top(s, d, metric, vs)
  {
    sorted := [];
    for n := 0 to |vs|
      invariant |sorted| == n && multiset(sorted) == multiset(vs[..n])
      invariant Ranked(Order(s, d, metric), sorted)
      invariant n > 0 ==> sorted[0] == Top(s, d, metric, vs[..n])
    {
      var v, i := vs[n], |sorted|;
      while i > 0 && RanksBefore(s, d, metric, v, sorted[i - 1])
        invariant 0 <= i <= |sorted|
        invariant forall j :: i <= j < |sorted| ==> RanksBefore(s, d, metric, v, sorted[j])
      {
        i := i - 1;
      }
      assert vs[..n + 1] == vs[..n] + [v];
      if n > 0 { TopAppend(s, d, metric, vs[..n], v); }
      PlacedBetween(s, d, metric, sorted, i, v);
      SplitMultiset(sorted, i, v);
      sorted := sorted[..i] + [v] + sorted[i..];
    }
    assert vs[..|vs|] == vs;
  }

  lemma Placed(before: (Fleet, Fleet) -> bool, sorted: seq<Fleet>, i: nat, v: Fleet)
    requires i <= |sorted| && Ranked(before, sorted)
    requires forall j :: i <= j < |sorted| ==> !before(sorted[j], v)
    requires forall j :: 0 <= j < i ==> !before(v, sorted[j])
    ensures Ranked(before, sorted[..i] + [v] + sorted[i..])
  {
    var n := sorted[..i] + [v] + sorted[i..];
    forall a, b | 0 <= a < b < |n| ensures !before(n[b], n[a]) {
      if b < i {
        assert n[a] == sorted[a] && n[b] == sorted[b];
      } else if b == i {
        assert n[a] == sorted[a] && n[b] == v;
      } else if a < i {
        assert n[a] == sorted[a] && n[b] == sorted[b - 1];
      } else if a == i {
        assert n[a] == v && n[b] == sorted[b - 1];
      } else {
        assert n[a] == sorted[a - 1] && n[b] == sorted[b - 1];
      }
    }
  }

  lemma PlacedBetween(s: Snapshot, d: Direction, metric: string, sorted: seq<Fleet>, i: nat, v: Fleet)
    requires i <= |sorted| && Ranked(Order(s, d, metric), sorted)
    requires forall j :: i <= j < |sorted| ==> RanksBefore(s, d, metric, v, sorted[j])
    requires i > 0 ==> !RanksBefore(s, d, metric, v, sorted[i - 1])
    ensures Ranked(Order(s, d, metric), sorted[..i] + [v] + sorted[i..])
    ensures i > 0 ==> !RanksBefore(s, d, metric, v, sorted[0])
  {
    var before := Order(s, d, metric);
    forall j | 0 <= j < i ensures !before(v, sorted[j]) {
      if j < i - 1 {
        assert !before(sorted[i - 1], sorted[j]);
        NotBeforeChain(s, d, metric, v, sorted[i - 1], sorted[j]);
      }
    }
    forall j | i <= j < |sorted| ensures !before(sorted[j], v) {
      NotBoth(s, d, metric, v, sorted[j]);
    }
    Placed(before, sorted, i, v);
    assert i > 0 ==> !before(v, sorted[0]);
  }

  lemma SplitMultiset(sorted: seq<Fleet>, i: nat, v: Fleet)
    requires i <= |sorted|
    ensures multiset(sorted[..i] + [v] + sorted[i..]) == multiset(sorted) + multiset{v}
  {
    assert sorted == sorted[..i] + sorted[i..];
  }

  lemma NotBoth(s: Snapshot, d: Direction, metric: string, u: Fleet, v: Fleet)
    requires RanksBefore(s, d, metric, u, v)
    ensures !RanksBefore(s, d, metric, v, u)
  {
    if Before(u.id, v.id) { BeforeAsymmetric(u.id, v.id); }
  }

  /** `_matches_actual_ranking_top`. */
  method MatchesActualRankingTop(request: Request, s: Snapshot, candidate: Finding, metric: string) returns (matches: bool)
    ensures matches == MatchesTop(request, s, candidate, metric)
  {
    if !request.analysisType.VehiclePerformance? { return true; }
    var vehicles := SelectVehicles(request, s);
    var ranked := KeepWithMetric(vehicles, metric);
    if ranked == [] || request.ranking.None? { return false; }
    var sorted := SortRanked(s, request.ranking.value.direction, metric, ranked);
    var id := sorted[0].id;
    var i := 0;
    while i < |candidate.evidence|
      invariant 0 <= i <= |candidate.evidence|
      invariant forall j :: 0 <= j < i ==> candidate.evidence[j].entity != Some(Entity(Vehicle, id))
    {
      if candidate.evidence[i].entity == Some(Entity(Vehicle, id)) { return true; }
      i := i + 1;
    }
    return false;
  }

  /** `_ranking_counts` for vehicles without a population of the analyzer's own. */
  method CountVehicles(request: Request, s: Snapshot) returns (evaluated: int, excluded: nat)
    requires request.ranking.Some?
    requires request.subjectType == Some(Vehicle)
      || (request.subjectType.None? && request.analysisType.VehiclePerformance?)
    ensures (Some(evaluated), Some(excluded)) == RankingCounts(request, s, None)
  {
    var selected := SelectVehicles(request, s);
    excluded := 0;
    var metric := RequiredMetric(request);
    for i := 0 to |selected|
      invariant excluded == Missing(selected[..i], metric)
    {
      assert selected[..i + 1] == selected[..i] + [selected[i]];
      MissingAppend(selected[..i], metric, selected[i]);
      if metric.None? || VehicleMetric(selected[i], metric.value).None? { excluded := excluded + 1; }
    }
    assert selected[..|selected|] == selected;
    evaluated := |selected| - excluded;
  }

  lemma {:induction false} MissingAppend(vs: seq<Fleet>, metric: Option<string>, v: Fleet)
    ensures Missing(vs + [v], metric) ==
      Missing(vs, metric) + (if metric.None? || VehicleMetric(v, metric.value).None? then 1 else 0)
  {
    if vs == [] {
      assert [] + [v] == [v];
    } else {
      MissingAppend(vs[1..], metric, v);
      assert (vs + [v])[1..] == vs[1..] + [v];
    }
  }
}
