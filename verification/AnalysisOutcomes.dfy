/** What survives the limit on findings, and what a composed answer may claim. */
module AnalysisOutcomes {
  import opened Texts
  import opened Analysis
  import opened AnalysisProofs

  // ---------------------------------------------------------------- what survives

  /** `part` holds the elements of `all` that meet the condition, in their order: those at the positions `at`. */
  ghost predicate Selects<T(!new)>(all: seq<T>, part: seq<T>, meets: T -> bool, at: seq<nat>) {
    && |at| == |part|
    && (forall k :: 0 <= k < |at| ==> at[k] < |all| && part[k] == all[at[k]])
    && (forall j, k :: 0 <= j < k < |at| ==> at[j] < at[k])
    && (forall i :: 0 <= i < |all| ==> (meets(all[i]) <==> i in at))
  }

  ghost predicate IsSelection<T(!new)>(all: seq<T>, part: seq<T>, meets: T -> bool) {
    exists at :: Selects(all, part, meets, at)
  }

  function Shifted(at: seq<nat>): seq<nat> { seq(|at|, k requires 0 <= k < |at| => at[k] + 1) }

  lemma ShiftedHas(at: seq<nat>, i: nat)
    ensures i in Shifted(at) <==> i > 0 && i - 1 in at
  {
    if i > 0 && i - 1 in at {
      var k :| 0 <= k < |at| && at[k] == i - 1;
      assert Shifted(at)[k] == i;
    }
  }

  lemma SelectsSkip<T(!new)>(all: seq<T>, part: seq<T>, meets: T -> bool, at: seq<nat>)
    requires all != [] && Selects(all[1..], part, meets, at) && !meets(all[0])
    ensures Selects(all, part, meets, Shifted(at))
  {
    forall i: nat | i < |all| ensures meets(all[i]) <==> i in Shifted(at) {
      ShiftedHas(at, i);
      if i > 0 { assert all[1..][i - 1] == all[i]; }
    }
    forall k | 0 <= k < |at| ensures part[k] == all[Shifted(at)[k]] {
      assert all[1..][at[k]] == all[at[k] + 1];
    }
  }

  lemma TakenHas(at: seq<nat>, i: nat)
    ensures i in [0] + Shifted(at) <==> i == 0 || i - 1 in at
  {
    ShiftedHas(at, i);
  }

  lemma TakenRises(at: seq<nat>)
    requires forall j, k :: 0 <= j < k < |at| ==> at[j] < at[k]
    ensures var now := [0] + Shifted(at); forall j, k :: 0 <= j < k < |now| ==> now[j] < now[k]
  {
    var now := [0] + Shifted(at);
    forall j, k | 0 <= j < k < |now| ensures now[j] < now[k] {
      if j > 0 { assert at[j - 1] < at[k - 1]; }
    }
  }

  /** A first element that meets the condition comes first. */
  lemma SelectsTake<T(!new)>(all: seq<T>, part: seq<T>, meets: T -> bool, at: seq<nat>)
    requires all != [] && Selects(all[1..], part, meets, at) && meets(all[0])
    ensures Selects(all, [all[0]] + part, meets, [0] + Shifted(at))
  {
    var now := [0] + Shifted(at);
    TakenRises(at);
    forall i: nat | i < |all| ensures meets(all[i]) <==> i in now {
      TakenHas(at, i);
      if i > 0 { assert all[1..][i - 1] == all[i]; }
    }
    forall k | 0 <= k < |now| ensures now[k] < |all| && ([all[0]] + part)[k] == all[now[k]] {
      if k > 0 { assert all[1..][at[k - 1]] == all[at[k - 1] + 1]; }
    }
  }

  lemma SelectsCons<T(!new)>(all: seq<T>, part: seq<T>, meets: T -> bool)
    requires all != [] && IsSelection(all[1..], part, meets)
    ensures IsSelection(all, (if meets(all[0]) then [all[0]] else []) + part, meets)
  {
    var at :| Selects(all[1..], part, meets, at);
    assert [] + part == part;
    if meets(all[0]) {
      SelectsTake(all, part, meets, at);
    } else {
      SelectsSkip(all, part, meets, at);
    }
  }

  function Within(ids: set<Text>): Recommendation -> bool { (q: Recommendation) => Elements(q.supporting) <= ids }
  function OneOf(ids: set<Text>): Text -> bool { id => id in ids }

  lemma {:induction false} KeptSelects(rs: seq<Recommendation>, ids: set<Text>)
    ensures IsSelection(rs, Kept(rs, ids), Within(ids))
  {
    if rs == [] {
      assert Selects(rs, Kept(rs, ids), Within(ids), []);
    } else {
      KeptSelects(rs[1..], ids);
      SelectsCons(rs, Kept(rs[1..], ids), Within(ids));
    }
  }

  lemma {:induction false} FilteredSelects(all: seq<Text>, ids: set<Text>)
    ensures IsSelection(all, Filtered(all, ids), OneOf(ids))
  {
    if all == [] {
      assert Selects(all, Filtered(all, ids), OneOf(ids), []);
    } else {
      FilteredSelects(all[1..], ids);
      SelectsCons(all, Filtered(all[1..], ids), OneOf(ids));
    }
  }

  /**
   * The findings of a response are the analyzer's first, as many as the limit allows, each as it was but for its
   * recommendation ids: those of it that name a kept recommendation, in order.
   */
  lemma FindingsSurvive(request: Request, s: Snapshot, comparison: Option<Text>, r: AnalyzerResult, limited: bool)
    ensures var fs := Respond(request, s, comparison, r, limited).findings;
      var keys := Elements(KeysOf(Respond(request, s, comparison, r, limited).recommendations));
      && |fs| == (if |r.findings| < request.maximumFindings then |r.findings| else request.maximumFindings)
      && forall i :: 0 <= i < |fs| ==>
           && fs[i] == r.findings[i].(recommendationIds := fs[i].recommendationIds)
           && IsSelection(r.findings[i].recommendationIds, fs[i].recommendationIds, OneOf(keys))
  {
    var response := Respond(request, s, comparison, r, limited);
    var keys := Elements(KeysOf(response.recommendations));
    forall i | 0 <= i < |response.findings|
      ensures IsSelection(r.findings[i].recommendationIds, response.findings[i].recommendationIds, OneOf(keys))
    {
      FilteredSelects(r.findings[i].recommendationIds, keys);
    }
  }

  /**
   * The recommendations of a response are, if any are wanted, those of the analyzer that rest on surviving findings
   * alone, unchanged and in the analyzer's order.
   */
  lemma RecommendationsSurvive(request: Request, s: Snapshot, comparison: Option<Text>, r: AnalyzerResult, limited: bool)
    ensures var response := Respond(request, s, comparison, r, limited);
      if request.includeRecommendations then
        IsSelection(r.recommendations, response.recommendations, Within(Elements(IdsOf(response.findings))))
      else response.recommendations == []
  {
    PrunedIds(request, r);
    if request.includeRecommendations {
      KeptSelects(r.recommendations, Elements(IdsOf(Truncated(request, r))));
    }
  }

  // ---------------------------------------------------------------- what an answer claims

  /** Some finding rests on an evaluated change against the comparison that was asked for. */
  predicate ChangeSeen(comparison: Option<Text>, fs: seq<Finding>) {
    exists f, e :: f in fs && e in f.evidence && e.change && comparison.Some? && e.comparisonId == comparison
  }

  predicate AsksComparison(request: Request) { request.intent.Some? && request.intent.value.comparisonRequired }

  /** An anomaly question about two snapshots that were compared. */
  predicate AnomaliesCompared(request: Request, comparison: Option<Text>) {
    request.analysisType.AnomalyDetection? && comparison.Some? && request.comparisonId == comparison
  }

  /** A comparison is never answered from one snapshot: without an evaluated change there is no answer. */
  lemma ComparisonNeedsChange(request: Request, s: Snapshot, comparison: Option<Text>, r: AnalyzerResult, limited: bool)
    requires AsksComparison(request)
    ensures var a := Respond(request, s, comparison, r, limited);
      var seen := request.comparisonId == comparison && ChangeSeen(comparison, a.findings);
      && (!seen && !(AnomaliesCompared(request, comparison) && a.findings == []) ==>
            a.status.InsufficientData? && a.presentation.basis.NoData? && a.presentation.decisiveId.None?)
      && (AnomaliesCompared(request, comparison) && a.findings == [] ==>
            a.status.Completed? && a.presentation.basis.ConfirmedFact? && a.presentation.decisiveId.None?)
  {
  }

  /** The question asks for the metric, in words or else by the ranking it asks for. */
  predicate AskedFor(request: Request, metric: string) {
    if request.intent.Some? && request.intent.value.requestedMetric.Some?
    then request.intent.value.requestedMetric == Some(metric)
    else request.ranking.Some? && request.ranking.value.metric == metric
  }

  /** No metric is substituted for the one that was asked for. */
  lemma MetricNotSubstituted(request: Request, s: Snapshot, comparison: Option<Text>, r: AnalyzerResult, limited: bool,
                             metric: string)
    requires AskedFor(request, metric) && !Asks(request, Idle)
    ensures var a := Respond(request, s, comparison, r, limited);
      && (a.presentation.decisiveId.Some? ==>
            exists f :: f in a.findings && a.presentation.decisiveId == Some(f.id) && f.metric == Some(metric))
      && (a.presentation.decisiveId.None? ==>
            a.presentation.basis.NoData? || (AsksComparison(request) && AnomaliesCompared(request, comparison)))
  {
    var fs := PrunedFindings(request, r);
    FirstWithMetricFound(fs, metric);
  }

  /** No metric is asked for at all. */
  predicate AsksNoMetric(request: Request) {
    request.ranking.None? && (request.intent.Some? ==> request.intent.value.requestedMetric.None?)
  }

  /**
   * A question that asks for no metric is answered by the most severe finding, the earliest identifier among equals; one
   * for the health of the company by its operating result, if there is one.
   */
  lemma UnmeasuredAnswered(request: Request, fs: seq<Finding>, s: Snapshot, f: Finding)
    requires AsksNoMetric(request) && !Asks(request, Idle) && f in fs
    ensures var d := SelectDecisive(request, fs, s);
      && d.Some? && d.value in fs
      && if Asks(request, Health) && exists g :: g in fs && g.metric == Some("net_operating_result") then
           FirstCarrying(fs, "net_operating_result", d.value)
         else
           f.severity <= d.value.severity && (f.severity == d.value.severity ==> !Before(f.id, d.value.id))
  {
    var operating := FirstWithMetric(fs, "net_operating_result");
    FirstWithMetricFound(fs, "net_operating_result");
    if operating.Some? { FirstWithMetricExact(fs, "net_operating_result", operating.value); }
    GravestIsWorst(fs, f);
  }

  function OwnedBy(company: Text): Fleet -> bool { (v: Fleet) => v.owner == company }
  function Wanted(ids: seq<Text>): Text -> bool { id => ids == [] || id in ids }

  lemma {:induction false} OwnedSelects(s: Snapshot, vs: seq<Fleet>) returns (own: seq<Fleet>)
    ensures IsSelection(vs, own, OwnedBy(s.company)) && |own| == OwnedVehicles(s, vs)
  {
    if vs == [] {
      own := [];
      assert Selects(vs, own, OwnedBy(s.company), []);
    } else {
      own := OwnedSelects(s, vs[1..]);
      SelectsCons(vs, own, OwnedBy(s.company));
      own := (if vs[0].owner == s.company then [vs[0]] else []) + own;
    }
  }

  lemma {:induction false} CountedSelects(ids: seq<Text>, wanted: seq<Text>) returns (part: seq<Text>)
    ensures IsSelection(ids, part, Wanted(wanted)) && |part| == Counted(ids, wanted)
  {
    if ids == [] {
      part := [];
      assert Selects(ids, part, Wanted(wanted), []);
    } else {
      part := CountedSelects(ids[1..], wanted);
      SelectsCons(ids, part, Wanted(wanted));
      part := (if Wanted(wanted)(ids[0]) then [ids[0]] else []) + part;
    }
  }

  /** The number of wanted identifiers among these. */
  ghost predicate CountsWanted(ids: seq<Text>, wanted: seq<Text>, n: Option<nat>) {
    exists part :: IsSelection(ids, part, Wanted(wanted)) && n == Some(|part|)
  }

  lemma CountedMeans(ids: seq<Text>, wanted: seq<Text>)
    ensures CountsWanted(ids, wanted, Some(Counted(ids, wanted)))
  {
    var part := CountedSelects(ids, wanted);
  }

  /** The request ranks this kind of subject: it asks about it, or about nothing else and the analysis is about it. */
  predicate Ranks(request: Request, subject: SubjectType, about: AnalysisType) {
    request.subjectType == Some(subject) || (request.subjectType.None? && request.analysisType == about)
  }

  /**
   * The counts shown with a ranking are the analyzer's own, if it gives any; otherwise everything of the subject that was
   * asked about counts as evaluated, but for vehicles.
   */
  lemma CountsExact(request: Request, s: Snapshot, population: Option<Population>)
    ensures var (evaluated, excluded) := RankingCounts(request, s, population);
      && (population.Some? ==> evaluated == Some(population.value.evaluated) && excluded == Some(population.value.excluded))
      && (population.None? && request.ranking.None? ==> evaluated == None && excluded == None)
      && (population.None? && request.ranking.Some? && !Ranks(request, Vehicle, VehiclePerformance) ==> excluded == Some(0))
  {
  }

  /** The snapshot lists these as the subjects of the kind, which the analysis is about. */
  predicate Lists(s: Snapshot, subject: SubjectType, about: AnalysisType, ids: seq<Text>) {
    match subject
    case Station => about.StationPerformance? && ids == s.stations
    case Route => about.RoutePerformance? && ids == s.routes
    case Town => about.TownCoverage? && ids == s.towns
    case Industry => about.IndustryOpportunities? && ids == s.industries
    case _ => false
  }

  lemma SubjectCounts(request: Request, s: Snapshot, subject: SubjectType, about: AnalysisType, ids: seq<Text>)
    requires request.ranking.Some? && Lists(s, subject, about, ids) && Ranks(request, subject, about)
    ensures CountsWanted(ids, request.subjectIds, RankingCounts(request, s, None).0)
  {
    CountedMeans(ids, request.subjectIds);
  }

  lemma CompanyCounts(request: Request, s: Snapshot)
    requires request.ranking.Some? && request.subjectType == Some(Company)
    ensures CountsWanted(s.companies, request.subjectIds, RankingCounts(request, s, None).0)
  {
    CountedMeans(s.companies, request.subjectIds);
  }

  /** An idle question is answered by an idle vehicle, or by the fact that there is none. */
  lemma IdleAnswered(request: Request, s: Snapshot, comparison: Option<Text>, r: AnalyzerResult, limited: bool)
    requires Asks(request, Idle) && !AsksComparison(request)
    ensures var a := Respond(request, s, comparison, r, limited);
      && (a.presentation.decisiveId.None? <==> forall f :: f in a.findings ==> f.code != "idle_vehicle")
      && (a.presentation.decisiveId.None? ==> a.presentation.basis.ConfirmedFact? && a.presentation.excluded == Some(0))
      && (a.presentation.decisiveId.Some? ==>
            exists f :: f in a.findings && a.presentation.decisiveId == Some(f.id) && f.code == "idle_vehicle")
      && (a.presentation.decisiveId.None? ==>
            exists own :: IsSelection(s.vehicles, own, OwnedBy(s.company)) && a.presentation.evaluated == Some(|own|))
  {
    WithCodeFound(PrunedFindings(request, r), "idle_vehicle");
    var own := OwnedSelects(s, s.vehicles);
  }

  /** The status of a response is the analyzer's, unless limitations or missing evidence change it. */
  lemma StatusExact(request: Request, s: Snapshot, comparison: Option<Text>, r: AnalyzerResult, limited: bool)
    requires !AsksComparison(request)
    ensures var a := Respond(request, s, comparison, r, limited);
      a.status ==
        if RequiredMetric(request).Some? && !Asks(request, Idle) && a.presentation.decisiveId.None? then InsufficientData
        else if limited && r.status.Completed? then CompletedWithLimitations
        else r.status
  {
    var fs := PrunedFindings(request, r);
    SelectedInFindings(request, fs, s);
  }

  /** What the basis of an answer says: an observed fact, an inference, or that there is nothing to go by. */
  lemma BasisExact(request: Request, s: Snapshot, comparison: Option<Text>, r: AnalyzerResult, limited: bool)
    ensures var a := Respond(request, s, comparison, r, limited);
      && (a.presentation.decisiveId.Some? ==>
            exists f :: f in a.findings && a.presentation.decisiveId == Some(f.id)
              && a.presentation.basis == if f.observed then ConfirmedFact else Inference)
      && (a.presentation.basis.NoData? ==> a.status.InsufficientData? && a.presentation.decisiveId.None?)
      && (a.presentation.basis.Inference? ==> a.presentation.decisiveId.Some?)
  {
    SelectedInFindings(request, PrunedFindings(request, r), s);
  }

  /** The inspection is aimed at the first entity the finding cites. */
  lemma {:induction false} TargetFirst(f: Finding, evidence: seq<Evidence>)
    ensures match Target(f, evidence)
      case Some(entity) =>
        exists i :: 0 <= i < |evidence| && evidence[i].entity == Some(entity)
          && forall j :: 0 <= j < i ==> evidence[j].entity.None?
      case None => forall j :: 0 <= j < |evidence| ==> evidence[j].entity.None?
  {
    if evidence != [] && evidence[0].entity.None? {
      TargetFirst(f, evidence[1..]);
      match Target(f, evidence[1..]) {
        case Some(entity) =>
          var i :| 0 <= i < |evidence[1..]| && evidence[1..][i].entity == Some(entity)
            && forall j :: 0 <= j < i ==> evidence[1..][j].entity.None?;
          assert evidence[i + 1].entity == Some(entity);
          forall j | 0 <= j < i + 1 ensures evidence[j].entity.None? {
            if j > 0 { assert evidence[j] == evidence[1..][j - 1]; }
          }
        case None =>
          forall j | 0 <= j < |evidence| ensures evidence[j].entity.None? {
            if j > 0 { assert evidence[j] == evidence[1..][j - 1]; }
          }
      }
    }
  }

  /** No inspection is recommended on money alone, on good news, or without an answer; otherwise one is, if it can be. */
  lemma InspectionExact(request: Request, f: Finding, s: Snapshot, status: Status)
    ensures var g := InspectionGuidance(request, Some(f), s, status);
      && (Declines(status) || Asks(request, AvailableCash) || Asks(request, Debt) ==> g.NotResponsible?)
      && (Asks(request, Loss) && AtLeastZero(f.value) ==> g.NotResponsible?)
      && (Asks(request, Loss) && f.value.Truth? ==> g.NotResponsible?)
      && (Asks(request, Health) && (f.code == "operating_result" || (f.value.Whole? && f.value.n >= 0)) ==>
            g.NotResponsible?)
      && (!Declines(status) && !Asks(request, AvailableCash) && !Asks(request, Debt) && !Asks(request, Loss)
          && !Asks(request, Health) && f.metric != Some("vehicle_type_aggregate_profit") ==>
            (g.Recommended? <==>
               Target(f, f.evidence).Some? && s.caption(Target(f, f.evidence).value).Some?)
            && (g.Recommended? ==> g.target == Target(f, f.evidence)))
      && (!Declines(status) && !Asks(request, AvailableCash) && !Asks(request, Debt) && !Asks(request, Loss)
          && !Asks(request, Health) && f.metric == Some("vehicle_type_aggregate_profit") ==>
            g.Recommended? && g.target.None? && g.supporting == [f.id])
  {
  }

  /**
   * With a decisive finding the response shows a recommendation exactly when one of those kept names the finding and is
   * named by it, and then the most urgent of them, the earliest identifier among equals.
   */
  lemma RecommendationShown(request: Request, s: Snapshot, comparison: Option<Text>, r: AnalyzerResult, limited: bool)
    ensures var a := Respond(request, s, comparison, r, limited);
      a.presentation.decisiveId.Some? ==>
        exists f :: f in a.findings && a.presentation.decisiveId == Some(f.id)
          && ShowsBest(f, a.recommendations, a.presentation.recommendationId)
  {
    var fs, rs := PrunedFindings(request, r), PrunedRecommendations(request, r);
    SelectedInFindings(request, fs, s);
    var decisive := SelectDecisive(request, fs, s);
    if decisive.Some? {
      SupportedExact(decisive.value, rs);
      assert ShowsBest(decisive.value, rs, match SupportedRecommendation(decisive.value, rs)
        case Some(q) => Some(q.id)
        case None => None);
    }
  }

  predicate NameEachOther(f: Finding, q: Recommendation) { q.id in f.recommendationIds && f.id in q.supporting }

  ghost predicate ShowsBest(f: Finding, rs: seq<Recommendation>, shown: Option<Text>) {
    match shown
    case None => forall p :: p in rs ==> !NameEachOther(f, p)
    case Some(id) =>
      exists q :: q in rs && q.id == id && NameEachOther(f, q)
        && forall p :: p in rs && NameEachOther(f, p) ==>
             q.priority <= p.priority && (q.priority == p.priority ==> !Before(p.id, q.id))
  }

  // ---------------------------------------------------------------- what is no result

  /** Evidence from, or compared with, a snapshot the request is not about. */
  predicate StrayEvidence(snapshot: Text, comparison: Option<Text>, e: Evidence) {
    || (e.snapshotId != snapshot && Some(e.snapshotId) != comparison)
    || (e.comparisonId.Some? && e.comparisonId.value != snapshot && e.comparisonId != comparison)
  }

  predicate Repeated(ids: seq<Text>) { exists i, j :: 0 <= i < j < |ids| && ids[i] == ids[j] }

  /** The finding belongs to another analysis, names a recommendation that is not there, or rests on stray evidence. */
  ghost predicate BadFinding(request: Request, snapshot: Text, comparison: Option<Text>, r: AnalyzerResult, f: Finding) {
    || f.analysisType != request.analysisType
    || (exists id :: id in f.recommendationIds && id !in KeysOf(r.recommendations))
    || (exists e :: e in f.evidence && StrayEvidence(snapshot, comparison, e))
  }

  /**
   * An analyzer's result is refused exactly when identifiers repeat, a finding is bad, or a recommendation rests on a
   * finding that is not there.
   */
  lemma ResultRefused(request: Request, snapshot: Text, comparison: Option<Text>, r: AnalyzerResult)
    ensures !ValidResult(request, snapshot, comparison, r) <==>
      || Repeated(IdsOf(r.findings)) || Repeated(KeysOf(r.recommendations))
      || (exists f :: f in r.findings && BadFinding(request, snapshot, comparison, r, f))
      || (exists q, id :: q in r.recommendations && id in q.supporting && id !in IdsOf(r.findings))
  {
    forall f | f in r.findings
      ensures BadFinding(request, snapshot, comparison, r, f) <==> !ValidFinding(request, snapshot, comparison, r, f)
    {
      FindingRefused(request, snapshot, comparison, r, f);
    }
    forall q | q in r.recommendations
      ensures Elements(q.supporting) <= Elements(IdsOf(r.findings)) <==>
        forall id :: id in q.supporting ==> id in IdsOf(r.findings)
    {
      SubsetMeans(q.supporting, IdsOf(r.findings));
    }
  }

  lemma SubsetMeans(a: seq<Text>, b: seq<Text>)
    ensures Elements(a) <= Elements(b) <==> forall id :: id in a ==> id in b
  {
    if Elements(a) <= Elements(b) {
      forall id | id in a ensures id in b { assert id in Elements(a); }
    }
  }

  lemma FindingRefused(request: Request, snapshot: Text, comparison: Option<Text>, r: AnalyzerResult, f: Finding)
    ensures BadFinding(request, snapshot, comparison, r, f) <==> !ValidFinding(request, snapshot, comparison, r, f)
  {
    SubsetMeans(f.recommendationIds, KeysOf(r.recommendations));
  }
}
