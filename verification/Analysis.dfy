/**
 * The analysis service over arbitrary analyzer results: pruning, composition of the answer, and inspection guidance.
 */
module Analysis {
  import opened Texts

  datatype AnalysisType =
    | CompanyHealth | FinancialSummary | VehiclePerformance | StationPerformance | RoutePerformance | ServiceCoverage
    | IndustryOpportunities | TownCoverage | FleetSummary | WorldChanges | AnomalyDetection | PriorityReview | EntitySummary

  datatype SubjectType = World | Company | Town | Industry | Station | Vehicle | Route

  datatype Concept =
    | Health | Loss | Debt | AvailableCash | Change | Performance | Idle | CargoCoverage | Opportunity | Priority | Anomaly
    | EntityQuestion

  datatype Status = Completed | CompletedWithLimitations | ClarificationRequired | Unsupported | InsufficientData | Failed

  datatype Basis = ConfirmedFact | FindingBasis | Inference | NoData

  datatype Direction = Rising | Falling

  datatype Intent = Intent(concept: Concept, requestedMetric: Option<string>, comparisonRequired: bool)

  datatype Ranking = Ranking(metric: string, direction: Direction)

  datatype Request = Request(
    analysisType: AnalysisType, subjectType: Option<SubjectType>, subjectIds: seq<Text>, ranking: Option<Ranking>,
    comparisonId: Option<Text>, maximumFindings: nat, includeRecommendations: bool, intent: Option<Intent>)

  /** A JSON value as far as the service looks into it; Python counts truth values among the integers. */
  datatype Value = Whole(n: int) | Fraction(r: real) | Truth(b: bool) | Other

  datatype Entity = Entity(kind: SubjectType, id: Text)

  datatype Evidence = Evidence(snapshotId: Text, comparisonId: Option<Text>, change: bool, entity: Option<Entity>)

  datatype Finding = Finding(
    id: Text, code: string, analysisType: AnalysisType, observed: bool, severity: nat, metric: Option<string>, value: Value,
    evidence: seq<Evidence>, recommendationIds: seq<Text>)

  datatype Recommendation = Recommendation(id: Text, priority: int, supporting: seq<Text>)

  datatype Population = Population(eligible: nat, evaluated: nat, excluded: nat)

  datatype AnalyzerResult = AnalyzerResult(
    status: Status, findings: seq<Finding>, recommendations: seq<Recommendation>, limitations: nat,
    population: Option<Population>)

  /** A recommended inspection, or none. */
  datatype Guidance = Recommended(target: Option<Entity>, caption: Text, supporting: seq<Text>) | NotResponsible

  datatype Presentation = Presentation(
    basis: Basis, decisiveId: Option<Text>, recommendationId: Option<Text>, guidance: Guidance, evaluated: Option<nat>,
    excluded: Option<nat>)

  datatype Response = Response(
    status: Status, findings: seq<Finding>, recommendations: seq<Recommendation>, presentation: Presentation)

  /** A vehicle; `eligible` is the verdict of the request's filters on its fields. */
  datatype Fleet = Fleet(id: Text, owner: Text, eligible: bool,
    thisYear: Option<int>, lastYear: Option<int>, ageDays: Option<int>)

  /** The world as the service looks at it; `caption` gives the label an entity is shown under, `round` is `float`. */
  datatype Snapshot = Snapshot(
    id: Text, company: Text, vehicles: seq<Fleet>, companies: seq<Text>, stations: seq<Text>, routes: seq<Text>,
    towns: seq<Text>, industries: seq<Text>, caption: Entity -> Option<Text>, round: int -> real)

  function IdsOf(fs: seq<Finding>): seq<Text> { seq(|fs|, i requires 0 <= i < |fs| => fs[i].id) }
  function KeysOf(rs: seq<Recommendation>): seq<Text> { seq(|rs|, i requires 0 <= i < |rs| => rs[i].id) }

  predicate Unique(ids: seq<Text>) { forall i, j :: 0 <= i < j < |ids| ==> ids[i] != ids[j] }

  // ---------------------------------------------------------------- the analyzer's result

  /** `_validate_result`. */
  predicate ValidResult(request: Request, snapshot: Text, comparison: Option<Text>, r: AnalyzerResult) {
    && Unique(IdsOf(r.findings)) && Unique(KeysOf(r.recommendations))
    && (forall f :: f in r.findings ==> ValidFinding(request, snapshot, comparison, r, f))
    && (forall q :: q in r.recommendations ==> Elements(q.supporting) <= Elements(IdsOf(r.findings)))
  }

  predicate ValidFinding(request: Request, snapshot: Text, comparison: Option<Text>, r: AnalyzerResult, f: Finding) {
    && f.analysisType == request.analysisType
    && Elements(f.recommendationIds) <= Elements(KeysOf(r.recommendations))
    && forall e :: e in f.evidence ==>
         (e.snapshotId == snapshot || comparison == Some(e.snapshotId))
         && (e.comparisonId.Some? ==> e.comparisonId.value == snapshot || comparison == e.comparisonId)
  }

  // ---------------------------------------------------------------- pruning

  function Kept(rs: seq<Recommendation>, ids: set<Text>): seq<Recommendation> {
    if rs == [] then []
    else (if Elements(rs[0].supporting) <= ids then [rs[0]] else []) + Kept(rs[1..], ids)
  }

  function Filtered(ids: seq<Text>, kept: set<Text>): seq<Text> {
    if ids == [] then [] else (if ids[0] in kept then [ids[0]] else []) + Filtered(ids[1..], kept)
  }

  function Truncated(request: Request, r: AnalyzerResult): seq<Finding> {
    if |r.findings| <= request.maximumFindings then r.findings else r.findings[..request.maximumFindings]
  }

  function PrunedRecommendations(request: Request, r: AnalyzerResult): seq<Recommendation> {
    if request.includeRecommendations then Kept(r.recommendations, Elements(IdsOf(Truncated(request, r)))) else []
  }

  function PrunedFindings(request: Request, r: AnalyzerResult): seq<Finding> {
    var fs := Truncated(request, r);
    var kept := Elements(KeysOf(PrunedRecommendations(request, r)));
    seq(|fs|, i requires 0 <= i < |fs| => fs[i].(recommendationIds := Filtered(fs[i].recommendationIds, kept)))
  }

  // ---------------------------------------------------------------- the ranking

  function VehicleMetric(v: Fleet, metric: string): Option<int> {
    if metric == "profit_this_year" then v.thisYear
    else if metric == "profit_last_year" then v.lastYear
    else if metric == "age_days" then v.ageDays
    else None
  }

  /** A vehicle of the company that the request asks about. */
  predicate Selected(request: Request, s: Snapshot, v: Fleet) {
    v.owner == s.company && (request.subjectIds == [] || v.id in request.subjectIds) && v.eligible
  }

  function SelectedVehicles(request: Request, s: Snapshot, vs: seq<Fleet>): seq<Fleet> {
    if vs == [] then []
    else (if Selected(request, s, vs[0]) then [vs[0]] else []) + SelectedVehicles(request, s, vs[1..])
  }

  function WithMetric(vs: seq<Fleet>, metric: string): seq<Fleet> {
    if vs == [] then []
    else (if VehicleMetric(vs[0], metric).Some? then [vs[0]] else []) + WithMetric(vs[1..], metric)
  }

  function RankedVehicles(request: Request, s: Snapshot, metric: string): seq<Fleet> {
    WithMetric(SelectedVehicles(request, s, s.vehicles), metric)
  }

  function SortKey(s: Snapshot, direction: Direction, metric: string, v: Fleet): real {
    var m := VehicleMetric(v, metric);
    var x := s.round(if m.Some? then m.value else 0);
    if direction.Falling? then -x else x
  }

  /** `u` sorts before `v`: by the key, ties by the identifier. */
  predicate RanksBefore(s: Snapshot, direction: Direction, metric: string, u: Fleet, v: Fleet) {
    var a, b := SortKey(s, direction, metric, u), SortKey(s, direction, metric, v);
    a < b || (a == b && Before(u.id, v.id))
  }

  /** The first of the sorted list: the earliest of those that none sorts before. */
  function Top(s: Snapshot, direction: Direction, metric: string, vs: seq<Fleet>): Fleet
    requires vs != []
  {
    if |vs| == 1 then vs[0]
    else
      var t := Top(s, direction, metric, vs[1..]);
      if RanksBefore(s, direction, metric, t, vs[0]) then t else vs[0]
  }

  predicate CitesVehicle(f: Finding, id: Text) { exists e :: e in f.evidence && e.entity == Some(Entity(Vehicle, id)) }

  /** `_matches_actual_ranking_top`. */
  predicate MatchesTop(request: Request, s: Snapshot, f: Finding, metric: string) {
    !request.analysisType.VehiclePerformance?
    || (request.ranking.Some? && RankedVehicles(request, s, metric) != []
        && CitesVehicle(f, Top(s, request.ranking.value.direction, metric, RankedVehicles(request, s, metric)).id))
  }

  // ---------------------------------------------------------------- composing the answer

  function RequiredMetric(request: Request): Option<string> {
    if request.intent.Some? && request.intent.value.requestedMetric.Some? then request.intent.value.requestedMetric
    else if request.ranking.Some? then Some(request.ranking.value.metric)
    else None
  }

  function WithCode(fs: seq<Finding>, code: string): Option<Finding> {
    if fs == [] then None else if fs[0].code == code then Some(fs[0]) else WithCode(fs[1..], code)
  }

  function FirstWithMetric(fs: seq<Finding>, metric: string): Option<Finding> {
    if fs == [] then None else if fs[0].metric == Some(metric) then Some(fs[0]) else FirstWithMetric(fs[1..], metric)
  }

  /** Graver first, ties by the identifier. */
  predicate Graver(f: Finding, g: Finding) { f.severity > g.severity || (f.severity == g.severity && Before(f.id, g.id)) }

  function Gravest(fs: seq<Finding>): Finding
    requires fs != []
  {
    if |fs| == 1 then fs[0]
    else
      var g := Gravest(fs[1..]);
      if Graver(g, fs[0]) then g else fs[0]
  }

  predicate Asks(request: Request, c: Concept) { request.intent.Some? && request.intent.value.concept == c }

  /** `_select_decisive`. */
  function SelectDecisive(request: Request, fs: seq<Finding>, s: Snapshot): Option<Finding> {
    var metric := RequiredMetric(request);
    if Asks(request, Idle) then WithCode(fs, "idle_vehicle")
    else if metric.Some? then
      var candidate := FirstWithMetric(fs, metric.value);
      if candidate.None? || (request.ranking.Some? && !MatchesTop(request, s, candidate.value, metric.value)) then None
      else candidate
    else if fs == [] then None
    else
      var operating := FirstWithMetric(fs, "net_operating_result");
      if Asks(request, Health) && operating.Some? then operating else Some(Gravest(fs))
  }

  predicate Supports(f: Finding, q: Recommendation) { f.id in q.supporting && q.id in f.recommendationIds }

  function Supporting(f: Finding, rs: seq<Recommendation>): seq<Recommendation> {
    if rs == [] then [] else (if Supports(f, rs[0]) then [rs[0]] else []) + Supporting(f, rs[1..])
  }

  predicate Sooner(p: Recommendation, q: Recommendation) {
    p.priority < q.priority || (p.priority == q.priority && Before(p.id, q.id))
  }

  function Soonest(rs: seq<Recommendation>): Recommendation
    requires rs != []
  {
    if |rs| == 1 then rs[0]
    else
      var q := Soonest(rs[1..]);
      if Sooner(q, rs[0]) then q else rs[0]
  }

  /** `_supported_recommendation`. */
  function SupportedRecommendation(f: Finding, rs: seq<Recommendation>): Option<Recommendation> {
    var supported := Supporting(f, rs);
    if supported == [] then None else Some(Soonest(supported))
  }

  function DefaultSubject(t: AnalysisType): Option<SubjectType> {
    match t
    case VehiclePerformance => Some(Vehicle)
    case StationPerformance => Some(Station)
    case RoutePerformance => Some(Route)
    case TownCoverage => Some(Town)
    case IndustryOpportunities => Some(Industry)
    case _ => None
  }

  function Counted(ids: seq<Text>, wanted: seq<Text>): nat {
    if wanted == [] then |ids|
    else if ids == [] then 0
    else (if ids[0] in wanted then 1 else 0) + Counted(ids[1..], wanted)
  }

  /** `_ranking_counts`: how many were evaluated, and how many were left out. */
  function RankingCounts(request: Request, s: Snapshot, population: Option<Population>): (Option<nat>, Option<nat>) {
    if population.Some? then (Some(population.value.evaluated), Some(population.value.excluded))
    else if request.ranking.None? then (None, None)
    else
      var subject := if request.subjectType.Some? then request.subjectType else DefaultSubject(request.analysisType);
      match subject
      case Some(Vehicle) =>
        var selected := SelectedVehicles(request, s, s.vehicles);
        var missing := Missing(selected, RequiredMetric(request));
        (Some(|selected| - missing), Some(missing))
      case Some(Company) => (Some(Counted(s.companies, request.subjectIds)), Some(0))
      case Some(Station) => (Some(Counted(s.stations, request.subjectIds)), Some(0))
      case Some(Route) => (Some(Counted(s.routes, request.subjectIds)), Some(0))
      case Some(Town) => (Some(Counted(s.towns, request.subjectIds)), Some(0))
      case Some(Industry) => (Some(Counted(s.industries, request.subjectIds)), Some(0))
      case _ => (Some(0), Some(0))
  }

  function Missing(vs: seq<Fleet>, metric: Option<string>): (n: nat)
    ensures n <= |vs|
  {
    if vs == [] then 0
    else (if metric.None? || VehicleMetric(vs[0], metric.value).None? then 1 else 0) + Missing(vs[1..], metric)
  }

  function OwnedVehicles(s: Snapshot, vs: seq<Fleet>): nat {
    if vs == [] then 0 else (if vs[0].owner == s.company then 1 else 0) + OwnedVehicles(s, vs[1..])
  }

  /** `_comparison_problem`: there is no evidence of an evaluated change between the two snapshots asked about. */
  predicate ComparisonProblem(request: Request, comparison: Option<Text>, fs: seq<Finding>) {
    || comparison.None? || request.comparisonId.None? || request.comparisonId != comparison
    || !exists f, e :: f in fs && e in f.evidence && e.change && e.comparisonId == comparison
  }

  // ---------------------------------------------------------------- inspection guidance

  predicate AtLeastZero(v: Value) {
    match v
    case Whole(n) => n >= 0
    case Fraction(r) => r >= 0.0
    case Truth(_) => true
    case Other => false
  }

  function Target(f: Finding, evidence: seq<Evidence>): Option<Entity> {
    if evidence == [] then None
    else if evidence[0].entity.Some? then evidence[0].entity
    else Target(f, evidence[1..])
  }

  predicate Declines(status: Status) {
    status.InsufficientData? || status.ClarificationRequired? || status.Unsupported? || status.Failed?
  }

  /** `inspection_guidance`. */
  function InspectionGuidance(request: Request, f: Option<Finding>, s: Snapshot, status: Status): Guidance {
    if f.None? || Declines(status) then NotResponsible
    else
      var target := Target(f.value, f.value.evidence);
      if Asks(request, AvailableCash) || Asks(request, Debt) then NotResponsible
      else if Asks(request, Health)
              && (f.value.code == "operating_result" || (!f.value.value.Fraction? && AtLeastZero(f.value.value)))
      then NotResponsible
      else if Asks(request, Loss) && AtLeastZero(f.value.value) then NotResponsible
      else if f.value.metric == Some("vehicle_type_aggregate_profit") then Recommended(None, TYPE_CAPTION, [f.value.id])
      else if target.None? || s.caption(target.value).None? then NotResponsible
      else Recommended(target, s.caption(target.value).value, [f.value.id])
  }

  /** Stands for the label of a whole vehicle type. */
  const TYPE_CAPTION: Text := [0x56]

  /** `compose_interaction`. */
  function Compose(request: Request, s: Snapshot, comparison: Option<Text>, status: Status, fs: seq<Finding>,
                   rs: seq<Recommendation>, population: Option<Population>): (Status, Presentation)
  {
    var compares := request.intent.Some? && request.intent.value.comparisonRequired;
    var decisive := SelectDecisive(request, fs, s);
    if compares && request.analysisType.AnomalyDetection? && comparison.Some? && request.comparisonId == comparison
       && fs == [] then
      (Completed, Presentation(ConfirmedFact, None, None, InspectionGuidance(request, None, s, Completed), Some(0), Some(0)))
    else if compares && ComparisonProblem(request, comparison, fs) then
      (InsufficientData,
       Presentation(NoData, None, None, InspectionGuidance(request, None, s, InsufficientData), Some(0), Some(0)))
    else if Asks(request, Idle) && decisive.None? then
      (status, Presentation(ConfirmedFact, None, None, InspectionGuidance(request, None, s, status),
                            Some(OwnedVehicles(s, s.vehicles)), Some(0)))
    else if RequiredMetric(request).Some? && decisive.None? then
      var (evaluated, excluded) := RankingCounts(request, s, population);
      (InsufficientData,
       Presentation(NoData, None, None, InspectionGuidance(request, None, s, InsufficientData), evaluated, excluded))
    else if decisive.None? then
      (status, Presentation(if status.InsufficientData? then NoData else FindingBasis, None, None,
                            InspectionGuidance(request, None, s, status), None, None))
    else
      var q := SupportedRecommendation(decisive.value, rs);
      var (evaluated, excluded) := RankingCounts(request, s, population);
      (status,
       Presentation(if decisive.value.observed then ConfirmedFact else Inference, Some(decisive.value.id),
                    if q.Some? then Some(q.value.id) else None, InspectionGuidance(request, decisive, s, status),
                    evaluated, excluded))
  }

  /** `analyze` after validation; `limited` says whether any limitation is reported. */
  function Respond(request: Request, s: Snapshot, comparison: Option<Text>, r: AnalyzerResult, limited: bool): Response {
    var fs, rs := PrunedFindings(request, r), PrunedRecommendations(request, r);
    var status := if limited && r.status.Completed? then CompletedWithLimitations else r.status;
    var (final, presentation) := Compose(request, s, comparison, status, fs, rs, r.population);
    Response(final, fs, rs, presentation)
  }

  // ---------------------------------------------------------------- what a response promises

  function CitedIds(f: Finding): set<Text> { set e | e in f.evidence && e.entity.Some? :: e.entity.value.id }

  /** `validate_guidance_shape`, its structure. */
  predicate WellShaped(g: Guidance) { g.Recommended? ==> g.caption != [] }

  /** `validate_references`. */
  predicate Closed(r: Response) {
    var ids, keys := Elements(IdsOf(r.findings)), Elements(KeysOf(r.recommendations));
    var p := r.presentation;
    && Unique(IdsOf(r.findings)) && Unique(KeysOf(r.recommendations))
    && (forall f :: f in r.findings ==> Elements(f.recommendationIds) <= keys)
    && (forall q :: q in r.recommendations ==> Elements(q.supporting) <= ids)
    && (p.decisiveId.Some? ==> p.decisiveId.value in ids)
    && (p.recommendationId.Some? ==> p.recommendationId.value in keys)
    && (p.guidance.Recommended? ==>
          && Elements(p.guidance.supporting) <= ids
          && p.decisiveId.Some? && p.decisiveId.value in p.guidance.supporting
          && exists f :: f in r.findings && f.id == p.decisiveId.value
               && (p.guidance.target.Some? ==> p.guidance.target.value.id in CitedIds(f)))
  }
}
