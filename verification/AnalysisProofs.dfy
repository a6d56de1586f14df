/** What the analysis service guarantees of every response, whatever the analyzer returned. */
module AnalysisProofs {
  import opened Texts
  import opened Analysis

  // ---------------------------------------------------------------- pruning

  lemma {:induction false} KeptMembers(rs: seq<Recommendation>, ids: set<Text>)
    ensures forall q :: q in Kept(rs, ids) <==> q in rs && Elements(q.supporting) <= ids
  {
    if rs != [] {
      KeptMembers(rs[1..], ids);
      assert rs == [rs[0]] + rs[1..];
    }
  }

  lemma {:induction false} KeptUnique(rs: seq<Recommendation>, ids: set<Text>)
    ensures Elements(KeysOf(Kept(rs, ids))) <= Elements(KeysOf(rs))
    ensures Unique(KeysOf(rs)) ==> Unique(KeysOf(Kept(rs, ids)))
  {
    if rs != [] {
      KeptUnique(rs[1..], ids);
      assert rs == [rs[0]] + rs[1..];
      KeysCons(rs[0], rs[1..]);
      if Elements(rs[0].supporting) <= ids {
        KeysCons(rs[0], Kept(rs[1..], ids));
      } else {
        assert Kept(rs, ids) == Kept(rs[1..], ids);
      }
    }
  }

  lemma KeysCons(q: Recommendation, rs: seq<Recommendation>)
    ensures KeysOf([q] + rs) == [q.id] + KeysOf(rs)
    ensures Elements(KeysOf([q] + rs)) == {q.id} + Elements(KeysOf(rs))
    ensures Unique(KeysOf([q] + rs)) <==> Unique(KeysOf(rs)) && q.id !in Elements(KeysOf(rs))
  {
    assert KeysOf([q] + rs) == [q.id] + KeysOf(rs);
    ElementsCons(q.id, KeysOf(rs));
    UniqueCons(q.id, KeysOf(rs));
  }

  lemma UniqueCons(id: Text, ids: seq<Text>)
    ensures Unique([id] + ids) <==> Unique(ids) && id !in ids
  {
    var all := [id] + ids;
    if Unique(all) {
      forall i, j | 0 <= i < j < |ids| ensures ids[i] != ids[j] { assert all[i + 1] != all[j + 1]; }
      forall j | 0 <= j < |ids| ensures ids[j] != id { assert all[0] != all[j + 1]; }
    }
  }

  lemma {:induction false} FilteredExact(ids: seq<Text>, kept: set<Text>)
    ensures Elements(Filtered(ids, kept)) == Elements(ids) * kept
  {
    if ids == [] {
      assert Elements(ids) == {};
    } else {
      FilteredExact(ids[1..], kept);
      assert ids == [ids[0]] + ids[1..];
      ElementsCons(ids[0], ids[1..]);
      ElementsCons(ids[0], Filtered(ids[1..], kept));
      assert [] + Filtered(ids[1..], kept) == Filtered(ids[1..], kept);
    }
  }

  lemma PrunedIds(request: Request, r: AnalyzerResult)
    ensures IdsOf(PrunedFindings(request, r)) == IdsOf(Truncated(request, r))
    ensures Unique(IdsOf(r.findings)) ==> Unique(IdsOf(PrunedFindings(request, r)))
  {
    assert IdsOf(PrunedFindings(request, r)) == IdsOf(Truncated(request, r));
    assert IdsOf(Truncated(request, r)) <= IdsOf(r.findings);
  }

  /** The pruned findings and recommendations refer to each other only. */
  lemma PruningCloses(request: Request, snapshot: Text, comparison: Option<Text>, r: AnalyzerResult)
    requires ValidResult(request, snapshot, comparison, r)
    ensures var fs, rs := PrunedFindings(request, r), PrunedRecommendations(request, r);
      && Unique(IdsOf(fs)) && Unique(KeysOf(rs))
      && (forall f :: f in fs ==> Elements(f.recommendationIds) <= Elements(KeysOf(rs)))
      && (forall q :: q in rs ==> Elements(q.supporting) <= Elements(IdsOf(fs)))
  {
    var fs, rs := PrunedFindings(request, r), PrunedRecommendations(request, r);
    PrunedIds(request, r);
    KeptMembers(r.recommendations, Elements(IdsOf(Truncated(request, r))));
    KeptUnique(r.recommendations, Elements(IdsOf(Truncated(request, r))));
    forall f | f in fs ensures Elements(f.recommendationIds) <= Elements(KeysOf(rs)) {
      var i :| 0 <= i < |fs| && fs[i] == f;
      FilteredExact(Truncated(request, r)[i].recommendationIds, Elements(KeysOf(rs)));
    }
  }

  /** Exactly the recommendations whose every supporting finding survives are kept, and none if none are wanted. */
  lemma PruningKeepsSupported(request: Request, r: AnalyzerResult, q: Recommendation)
    ensures q in PrunedRecommendations(request, r) <==>
      request.includeRecommendations && q in r.recommendations
      && Elements(q.supporting) <= Elements(IdsOf(PrunedFindings(request, r)))
  {
    PrunedIds(request, r);
    KeptMembers(r.recommendations, Elements(IdsOf(Truncated(request, r))));
  }

  // ---------------------------------------------------------------- selections

  lemma {:induction false} WithCodeFound(fs: seq<Finding>, code: string)
    ensures WithCode(fs, code).Some? ==> WithCode(fs, code).value in fs && WithCode(fs, code).value.code == code
    ensures WithCode(fs, code).None? ==> forall f :: f in fs ==> f.code != code
  {
    if fs != [] {
      WithCodeFound(fs[1..], code);
      assert fs == [fs[0]] + fs[1..];
    }
  }

  lemma {:induction false} FirstWithMetricFound(fs: seq<Finding>, metric: string)
    ensures FirstWithMetric(fs, metric).Some? ==>
      FirstWithMetric(fs, metric).value in fs && FirstWithMetric(fs, metric).value.metric == Some(metric)
    ensures FirstWithMetric(fs, metric).None? ==> forall f :: f in fs ==> f.metric != Some(metric)
  {
    if fs != [] {
      FirstWithMetricFound(fs[1..], metric);
      assert fs == [fs[0]] + fs[1..];
    }
  }

  lemma NotGraverChain(f: Finding, g: Finding, h: Finding)
    requires !Graver(f, g) && !Graver(g, h)
    ensures !Graver(f, h)
  {
    if Graver(f, h) {
      if f.severity == g.severity == h.severity {
        BeforeTotal(g.id, h.id);
        BeforeTotal(f.id, g.id);
        if g.id != h.id && f.id != g.id {
          BeforeTransitive(h.id, g.id, f.id);
          BeforeAsymmetric(f.id, h.id);
        }
        assert false;
      } else {
        assert false;
      }
    }
  }

  /** The gravest finding is one of them, and none is graver. */
  lemma {:induction false} GravestExact(fs: seq<Finding>)
    requires fs != []
    ensures Gravest(fs) in fs && forall f :: f in fs ==> !Graver(f, Gravest(fs))
  {
    BeforeIrreflexive(fs[0].id);
    if |fs| > 1 {
      GravestExact(fs[1..]);
      var g := Gravest(fs[1..]);
      assert fs == [fs[0]] + fs[1..];
      forall f | f in fs ensures !Graver(f, Gravest(fs)) {
        if Graver(g, fs[0]) {
          if f == fs[0] && fs[0].severity == g.severity { BeforeAsymmetric(g.id, fs[0].id); }
        } else if f in fs[1..] {
          NotGraverChain(f, g, fs[0]);
        }
      }
    }
  }

  /** In words: no finding is more severe, and of the equally severe none has an earlier identifier. */
  lemma GravestIsWorst(fs: seq<Finding>, f: Finding)
    requires f in fs
    ensures Gravest(fs) in fs && f.severity <= Gravest(fs).severity
    ensures f.severity == Gravest(fs).severity ==> !Before(f.id, Gravest(fs).id)
  {
    GravestExact(fs);
  }

  lemma SelectedInFindings(request: Request, fs: seq<Finding>, s: Snapshot)
    ensures SelectDecisive(request, fs, s).Some? ==> SelectDecisive(request, fs, s).value in fs
  {
    WithCodeFound(fs, "idle_vehicle");
    FirstWithMetricFound(fs, "net_operating_result");
    if RequiredMetric(request).Some? { FirstWithMetricFound(fs, RequiredMetric(request).value); }
    if fs != [] { GravestExact(fs); }
  }

  lemma {:induction false} SupportingExact(f: Finding, rs: seq<Recommendation>)
    ensures forall q :: q in Supporting(f, rs) <==> q in rs && Supports(f, q)
  {
    if rs != [] {
      SupportingExact(f, rs[1..]);
      assert rs == [rs[0]] + rs[1..];
    }
  }

  lemma NotSoonerChain(p: Recommendation, q: Recommendation, r: Recommendation)
    requires !Sooner(p, q) && !Sooner(q, r)
    ensures !Sooner(p, r)
  {
    if Before(p.id, r.id) {
      BeforeTotal(p.id, q.id);
      BeforeTotal(q.id, r.id);
      if p.id != q.id && q.id != r.id && Before(q.id, p.id) && Before(r.id, q.id) {
        BeforeTransitive(r.id, q.id, p.id);
        BeforeAsymmetric(p.id, r.id);
      }
    }
  }

  lemma {:induction false} SoonestExact(rs: seq<Recommendation>)
    requires rs != []
    ensures Soonest(rs) in rs && forall q :: q in rs ==> !Sooner(q, Soonest(rs))
  {
    BeforeIrreflexive(rs[0].id);
    if |rs| > 1 {
      SoonestExact(rs[1..]);
      var t := Soonest(rs[1..]);
      assert rs == [rs[0]] + rs[1..];
      forall q | q in rs ensures !Sooner(q, Soonest(rs)) {
        if Sooner(t, rs[0]) {
          if q == rs[0] && Before(t.id, q.id) { BeforeAsymmetric(t.id, q.id); }
        } else if q in rs[1..] {
          NotSoonerChain(q, t, rs[0]);
        }
      }
    }
  }

  /** The recommendation that is shown supports the finding, and no other that does is due sooner. */
  lemma SupportedExact(f: Finding, rs: seq<Recommendation>)
    ensures var q := SupportedRecommendation(f, rs);
      && (q.Some? ==> q.value in rs && Supports(f, q.value) && forall p :: p in rs && Supports(f, p) ==> !Sooner(p, q.value))
      && (q.None? ==> forall p :: p in rs ==> !Supports(f, p))
    ensures var q := SupportedRecommendation(f, rs);
      forall p :: q.Some? && p in rs && f.id in p.supporting && p.id in f.recommendationIds ==>
        q.value.priority <= p.priority && (q.value.priority == p.priority ==> !Before(p.id, q.value.id))
  {
    SupportingExact(f, rs);
    if Supporting(f, rs) != [] { SoonestExact(Supporting(f, rs)); }
  }

  // ---------------------------------------------------------------- guidance

  lemma {:induction false} TargetCited(f: Finding, evidence: seq<Evidence>)
    requires forall e :: e in evidence ==> e in f.evidence
    ensures Target(f, evidence).Some? ==> Target(f, evidence).value.id in CitedIds(f)
  {
    if evidence != [] {
      if evidence[0].entity.Some? {
        assert evidence[0] in f.evidence;
      } else {
        TargetCited(f, evidence[1..]);
      }
    }
  }

  /** A recommended inspection is about the decisive finding and an entity it cites. */
  lemma GuidanceFits(request: Request, f: Option<Finding>, s: Snapshot, status: Status)
    ensures var g := InspectionGuidance(request, f, s, status);
      g.Recommended? ==> f.Some? && g.supporting == [f.value.id] && (g.target.Some? ==> g.target.value.id in CitedIds(f.value))
    ensures (forall e :: s.caption(e) != Some([])) ==> WellShaped(InspectionGuidance(request, f, s, status))
  {
    if f.Some? { TargetCited(f.value, f.value.evidence); }
  }

  // ---------------------------------------------------------------- responses

  lemma IdIn(fs: seq<Finding>, f: Finding)
    requires f in fs
    ensures f.id in Elements(IdsOf(fs))
  {
    var i :| 0 <= i < |fs| && fs[i] == f;
    assert IdsOf(fs)[i] == f.id;
  }

  lemma KeyIn(rs: seq<Recommendation>, q: Recommendation)
    requires q in rs
    ensures q.id in Elements(KeysOf(rs))
  {
    var i :| 0 <= i < |rs| && rs[i] == q;
    assert KeysOf(rs)[i] == q.id;
  }

  /** What a composed answer refers to is there. */
  lemma ComposedRefers(request: Request, s: Snapshot, comparison: Option<Text>, status: Status, fs: seq<Finding>,
                       rs: seq<Recommendation>, population: Option<Population>)
    ensures var p := Compose(request, s, comparison, status, fs, rs, population).1;
      && (p.recommendationId.Some? ==> p.recommendationId.value in Elements(KeysOf(rs)))
      && (p.decisiveId.None? ==> p.guidance.NotResponsible? && p.recommendationId.None?)
      && (p.decisiveId.Some? ==>
            exists f :: f in fs && p.decisiveId == Some(f.id) && SelectDecisive(request, fs, s) == Some(f)
              && p.guidance ==
                    InspectionGuidance(request, Some(f), s, Compose(request, s, comparison, status, fs, rs, population).0))
  {
    SelectedInFindings(request, fs, s);
    var decisive := SelectDecisive(request, fs, s);
    if decisive.Some? {
      SupportedExact(decisive.value, rs);
      var q := SupportedRecommendation(decisive.value, rs);
      if q.Some? { KeyIn(rs, q.value); }
    }
  }

  /** The references of a presentation are among these findings and recommendations. */
  predicate PresentationClosed(p: Presentation, fs: seq<Finding>, rs: seq<Recommendation>) {
    var ids := Elements(IdsOf(fs));
    && (p.decisiveId.Some? ==> p.decisiveId.value in ids)
    && (p.recommendationId.Some? ==> p.recommendationId.value in Elements(KeysOf(rs)))
    && (p.guidance.Recommended? ==>
          && Elements(p.guidance.supporting) <= ids
          && p.decisiveId.Some? && p.decisiveId.value in p.guidance.supporting
          && exists f :: f in fs && f.id == p.decisiveId.value
               && (p.guidance.target.Some? ==> p.guidance.target.value.id in CitedIds(f)))
  }

  lemma ComposedCloses(request: Request, s: Snapshot, comparison: Option<Text>, status: Status, fs: seq<Finding>,
                       rs: seq<Recommendation>, population: Option<Population>)
    ensures PresentationClosed(Compose(request, s, comparison, status, fs, rs, population).1, fs, rs)
  {
    ComposedRefers(request, s, comparison, status, fs, rs, population);
    var (final, p) := Compose(request, s, comparison, status, fs, rs, population);
    if p.decisiveId.Some? {
      var f :| f in fs && p.decisiveId == Some(f.id) && p.guidance == InspectionGuidance(request, Some(f), s, final);
      GuidanceFits(request, Some(f), s, final);
      IdIn(fs, f);
    }
  }

  /**
   * For every analyzer result that passes validation and every limit on findings, the response satisfies every
   * identifier and entity check of the response contract.
   */
  lemma ResponseClosed(request: Request, s: Snapshot, comparison: Option<Text>, r: AnalyzerResult, limited: bool)
    requires ValidResult(request, s.id, comparison, r)
    ensures Closed(Respond(request, s, comparison, r, limited))
  {
    PruningCloses(request, s.id, comparison, r);
    var fs, rs := PrunedFindings(request, r), PrunedRecommendations(request, r);
    var status := if limited && r.status.Completed? then CompletedWithLimitations else r.status;
    ComposedCloses(request, s, comparison, status, fs, rs, r.population);
    assert PresentationClosed(Respond(request, s, comparison, r, limited).presentation, fs, rs);
  }

  // ---------------------------------------------------------------- rankings

  lemma {:induction false} SelectedExact(request: Request, s: Snapshot, vs: seq<Fleet>)
    ensures forall v :: v in SelectedVehicles(request, s, vs) <==> v in vs && Selected(request, s, v)
  {
    if vs != [] {
      SelectedExact(request, s, vs[1..]);
      assert vs == [vs[0]] + vs[1..];
    }
  }

  lemma {:induction false} WithMetricExact(vs: seq<Fleet>, metric: string)
    ensures forall v :: v in WithMetric(vs, metric) <==> v in vs && VehicleMetric(v, metric).Some?
    ensures |WithMetric(vs, metric)| + Missing(vs, Some(metric)) == |vs|
  {
    if vs != [] {
      WithMetricExact(vs[1..], metric);
      assert vs == [vs[0]] + vs[1..];
    }
  }

  lemma NotBeforeChain(s: Snapshot, d: Direction, metric: string, u: Fleet, v: Fleet, w: Fleet)
    requires !RanksBefore(s, d, metric, u, v) && !RanksBefore(s, d, metric, v, w)
    ensures !RanksBefore(s, d, metric, u, w)
  {
    if Before(u.id, w.id) {
      BeforeTotal(u.id, v.id);
      BeforeTotal(v.id, w.id);
      if u.id != v.id && v.id != w.id && Before(v.id, u.id) && Before(w.id, v.id) {
        BeforeTransitive(w.id, v.id, u.id);
        BeforeAsymmetric(u.id, w.id);
      }
    }
  }

  /** The first of the ranking is one of the vehicles, and none ranks before it. */
  lemma {:induction false} TopExact(s: Snapshot, d: Direction, metric: string, vs: seq<Fleet>)
    requires vs != []
    ensures Top(s, d, metric, vs) in vs
    ensures forall u :: u in vs ==> !RanksBefore(s, d, metric, u, Top(s, d, metric, vs))
  {
    BeforeIrreflexive(vs[0].id);
    if |vs| > 1 {
      TopExact(s, d, metric, vs[1..]);
      var t := Top(s, d, metric, vs[1..]);
      assert vs == [vs[0]] + vs[1..];
      forall u | u in vs ensures !RanksBefore(s, d, metric, u, Top(s, d, metric, vs)) {
        if RanksBefore(s, d, metric, t, vs[0]) {
          if u == vs[0] && Before(t.id, u.id) { BeforeAsymmetric(t.id, u.id); }
        } else if u in vs[1..] {
          NotBeforeChain(s, d, metric, u, t, vs[0]);
        }
      }
    }
  }

  /** `float` keeps the order of the metrics that are ranked, and tells them apart. */
  ghost predicate Faithful(s: Snapshot, vs: seq<Fleet>, metric: string) {
    forall u, v {:trigger VehicleMetric(u, metric), VehicleMetric(v, metric)} ::
      u in vs && v in vs && VehicleMetric(u, metric).Some? && VehicleMetric(v, metric).Some?
      && VehicleMetric(u, metric).value < VehicleMetric(v, metric).value
      ==> s.round(VehicleMetric(u, metric).value) < s.round(VehicleMetric(v, metric).value)
  }

  /** `v` is the true first: no eligible vehicle is better, and among the equals none has a smaller identifier. */
  predicate TrueFirst(direction: Direction, metric: string, v: Fleet, vs: seq<Fleet>)
    requires VehicleMetric(v, metric).Some?
  {
    forall u :: u in vs && VehicleMetric(u, metric).Some? ==>
      var a, b := VehicleMetric(v, metric).value, VehicleMetric(u, metric).value;
      (if direction.Falling? then a > b else a < b) || (a == b && !Before(u.id, v.id))
  }

  /**
   * If a vehicle ranking names a decisive finding, that finding cites an eligible vehicle before which no eligible
   * vehicle ranks; where `float` tells the metrics apart it is the true extremum, ties broken by ascending identifier.
   */
  lemma DecisiveIsTop(request: Request, fs: seq<Finding>, s: Snapshot) returns (v: Fleet)
    requires request.analysisType.VehiclePerformance? && request.ranking.Some? && !Asks(request, Idle)
    requires SelectDecisive(request, fs, s).Some?
    ensures RequiredMetric(request).Some?
    ensures var metric := RequiredMetric(request).value;
      var d := request.ranking.value.direction;
      && v in s.vehicles && Selected(request, s, v) && VehicleMetric(v, metric).Some?
      && CitesVehicle(SelectDecisive(request, fs, s).value, v.id)
      && (forall u :: u in s.vehicles && Selected(request, s, u) && VehicleMetric(u, metric).Some? ==>
            !RanksBefore(s, d, metric, u, v))
      && var selected := SelectedVehicles(request, s, s.vehicles);
        Faithful(s, selected, metric) ==> TrueFirst(d, metric, v, selected)
  {
    var metric := RequiredMetric(request).value;
    var d := request.ranking.value.direction;
    var selected := SelectedVehicles(request, s, s.vehicles);
    var ranked := RankedVehicles(request, s, metric);
    SelectedExact(request, s, s.vehicles);
    WithMetricExact(selected, metric);
    v := Top(s, d, metric, ranked);
    TopExact(s, d, metric, ranked);
    if Faithful(s, selected, metric) {
      forall u | u in selected && VehicleMetric(u, metric).Some?
        ensures var a, b := VehicleMetric(v, metric).value, VehicleMetric(u, metric).value;
          (if d.Falling? then a > b else a < b) || (a == b && !Before(u.id, v.id))
      {
        assert u in ranked;
        assert !RanksBefore(s, d, metric, u, v);
      }
    }
  }

  /** The vehicle is selected, has the metric, and no other such vehicle ranks before it. */
  ghost predicate Unbeaten(request: Request, s: Snapshot, d: Direction, metric: string, v: Fleet) {
    && v in s.vehicles && Selected(request, s, v) && VehicleMetric(v, metric).Some?
    && forall u :: u in s.vehicles && Selected(request, s, u) && VehicleMetric(u, metric).Some? ==>
         !RanksBefore(s, d, metric, u, v)
  }

  /** The finding carries the metric, and none before it in the list does. */
  ghost predicate FirstCarrying(fs: seq<Finding>, metric: string, f: Finding) {
    exists i :: 0 <= i < |fs| && fs[i] == f && f.metric == Some(metric)
      && forall j :: 0 <= j < i ==> fs[j].metric != Some(metric)
  }

  lemma {:induction false} FirstWithMetricExact(fs: seq<Finding>, metric: string, f: Finding)
    ensures FirstWithMetric(fs, metric) == Some(f) <==> FirstCarrying(fs, metric, f)
  {
    if fs != [] && fs[0].metric != Some(metric) {
      FirstWithMetricExact(fs[1..], metric, f);
      if FirstCarrying(fs[1..], metric, f) {
        var i :| 0 <= i < |fs[1..]| && fs[1..][i] == f && f.metric == Some(metric)
          && forall j :: 0 <= j < i ==> fs[1..][j].metric != Some(metric);
        assert fs[i + 1] == f && forall j :: 0 < j < i + 1 ==> fs[j] == fs[1..][j - 1];
      }
      if FirstCarrying(fs, metric, f) {
        var i :| 0 <= i < |fs| && fs[i] == f && f.metric == Some(metric)
          && forall j :: 0 <= j < i ==> fs[j].metric != Some(metric);
        assert fs[1..][i - 1] == f && forall j :: 0 <= j < i - 1 ==> fs[1..][j] == fs[j + 1];
      }
    }
  }

  /** The first of the sorted ranking is unbeaten, and shares its identifier with every other unbeaten vehicle. */
  lemma TopUnbeaten(request: Request, s: Snapshot, d: Direction, metric: string, v: Fleet)
    requires Unbeaten(request, s, d, metric, v)
    ensures var ranked := RankedVehicles(request, s, metric);
      ranked != [] && v.id == Top(s, d, metric, ranked).id
  {
    RankedExact(request, s, metric);
    var ranked := RankedVehicles(request, s, metric);
    assert v in ranked;
    TopExact(s, d, metric, ranked);
    BeforeTotal(v.id, Top(s, d, metric, ranked).id);
  }

  lemma RankedExact(request: Request, s: Snapshot, metric: string)
    ensures forall v ::
      v in RankedVehicles(request, s, metric) <==>
        v in s.vehicles && Selected(request, s, v) && VehicleMetric(v, metric).Some?
  {
    SelectedExact(request, s, s.vehicles);
    WithMetricExact(SelectedVehicles(request, s, s.vehicles), metric);
  }

  /**
   * A vehicle ranking names `f` as decisive exactly when `f` is the first finding with the metric and cites an eligible
   * vehicle before which no eligible vehicle ranks. Where there is no such finding it names none.
   */
  lemma DecisiveExact(request: Request, fs: seq<Finding>, s: Snapshot, f: Finding)
    requires request.analysisType.VehiclePerformance? && request.ranking.Some? && !Asks(request, Idle)
    ensures RequiredMetric(request).Some?
    ensures var metric := RequiredMetric(request).value;
      SelectDecisive(request, fs, s) == Some(f) <==>
        FirstCarrying(fs, metric, f)
        && exists v :: Unbeaten(request, s, request.ranking.value.direction, metric, v) && CitesVehicle(f, v.id)
  {
    var metric := RequiredMetric(request).value;
    var d := request.ranking.value.direction;
    FirstWithMetricExact(fs, metric, f);
    RankedExact(request, s, metric);
    if v :| Unbeaten(request, s, d, metric, v) && CitesVehicle(f, v.id) {
      TopUnbeaten(request, s, d, metric, v);
    }
    var ranked := RankedVehicles(request, s, metric);
    if ranked != [] {
      TopExact(s, d, metric, ranked);
      assert Unbeaten(request, s, d, metric, Top(s, d, metric, ranked));
    }
  }

  /**
   * Without a population of the analyzer's own, the counts split the eligible vehicles by the metric they are ranked
   * by.
   */
  lemma CountsPartition(request: Request, s: Snapshot)
    requires request.ranking.Some?
    requires request.subjectType == Some(Vehicle)
      || (request.subjectType.None? && request.analysisType.VehiclePerformance?)
    ensures var metric := RequiredMetric(request).value;
      var (evaluated, excluded) := RankingCounts(request, s, None);
      && evaluated.Some? && excluded.Some?
      && evaluated.value + excluded.value == |SelectedVehicles(request, s, s.vehicles)|
      && evaluated.value == |RankedVehicles(request, s, metric)|
  {
    WithMetricExact(SelectedVehicles(request, s, s.vehicles), RequiredMetric(request).value);
  }
}
