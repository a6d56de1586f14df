/** The deterministic question compiler and the closed catalogue of analyses. */
module Compiler {
  import opened Texts
  import opened Analysis
  import K = Keywords

  // ---------------------------------------------------------------- the catalogue

  datatype Metric =
    | Cash | Loan | CompanyValue | Income | Expenses | NetOperatingResult | ProfitThisYear | ProfitLastYear | AgeDays
    | RunningState | WaitingCargo | CargoPerVehicle | CargoTypeCoverage | VehicleCount | NegativeProfitVehicleCount
    | VehicleTypeAggregateProfit | RouteAggregateProfit | RouteMedianProfit | RouteNegativeVehicleCount | Population
    | Production | OpportunityScore | PriorityScore | Materiality

  datatype Field =
    | EntityId | OwnerId | VehicleType | RouteId | InRunningState | InDepot | OfProfitThisYear | OfProfitLastYear | OfAgeDays
    | StationId | TownId | IndustryId

  datatype Capability = Capability(
    subjects: set<SubjectType>, filters: set<Field>, metrics: set<Metric>, subjectRequired: bool)

  const VEHICLE_FILTERS: set<Field> := {
    EntityId, OwnerId, VehicleType, RouteId, InRunningState, InDepot, OfProfitThisYear, OfProfitLastYear, OfAgeDays}

  const EVERY_SUBJECT: set<SubjectType> := {World, Company, Vehicle, Station, Route, Industry, Town}

  /** `DEFAULT_ANALYSIS_CATALOG`. */
  function CapabilityFor(t: AnalysisType): Capability {
    match t
    case CompanyHealth => Capability({World, Company}, {}, {NetOperatingResult}, false)
    case FinancialSummary =>
      Capability({World, Company}, {}, {Cash, Loan, CompanyValue, Income, Expenses, NetOperatingResult}, false)
    case VehiclePerformance =>
      Capability({World, Company, Route, Vehicle}, VEHICLE_FILTERS,
                 {ProfitThisYear, ProfitLastYear, AgeDays, RunningState}, false)
    case StationPerformance =>
      Capability({World, Company, Station}, {EntityId, OwnerId, StationId},
                 {WaitingCargo, VehicleCount, CargoPerVehicle}, false)
    case RoutePerformance =>
      Capability({World, Company, Route}, {EntityId, OwnerId, RouteId, VehicleType},
                 {RouteAggregateProfit, RouteMedianProfit, VehicleCount, RouteNegativeVehicleCount}, false)
    case ServiceCoverage =>
      Capability({World, Company}, {TownId, IndustryId},
                 {Metric.Population, Production, OpportunityScore, CargoTypeCoverage}, false)
    case IndustryOpportunities => Capability({World, Industry}, {EntityId, IndustryId}, {Production, OpportunityScore}, false)
    case TownCoverage => Capability({World, Town}, {EntityId, TownId}, {Metric.Population, OpportunityScore}, false)
    case FleetSummary =>
      Capability({World, Company, Vehicle}, VEHICLE_FILTERS,
                 {VehicleCount, NegativeProfitVehicleCount, VehicleTypeAggregateProfit}, false)
    case WorldChanges => Capability(EVERY_SUBJECT, {}, {Materiality, Metric.Population, ProfitLastYear}, false)
    case AnomalyDetection => Capability({World, Company}, {}, {Materiality}, false)
    case PriorityReview => Capability(EVERY_SUBJECT, {}, {PriorityScore}, false)
    case EntitySummary => Capability(EVERY_SUBJECT - {World}, {EntityId}, {}, true)
  }

  // ---------------------------------------------------------------- requests

  datatype MetricRanking = MetricRanking(metric: Metric, direction: Direction)

  datatype Kind = Fact | Ranked | Explanation | FollowUp
  datatype Form =
    | StatusForm | Existence | Quantity | RankingForm | Comparison | Cause | Recommend | Summary | EvidenceForm | DrillDown
    | PremiseCheck
  datatype Period = Current | ThisYear | LastYear | CurrentSnapshot | BetweenSnapshots
  datatype Premise = CompanyLosing | RouteLosing
  datatype ReferenceKind = ToVehicle | ToRoute | ToStation | ToFinding | ToTopOpportunity

  datatype AnswerIntent = AnswerIntent(
    concept: Concept, kind: Kind, forms: set<Form>, metric: Option<Metric>, period: Option<Period>, premise: Option<Premise>,
    asserted: bool, comparison: bool, reference: Option<ReferenceKind>)

  datatype Reference = Reference(kind: ReferenceKind, priorAnalysisId: Text, entityId: Text, findingId: Option<Text>)

  datatype Inquiry = Inquiry(
    analysisType: AnalysisType, subjectType: Option<SubjectType>, subjectIds: seq<Text>, vehicleType: Option<string>,
    filters: set<Field>, ranking: Option<MetricRanking>, comparisonId: Option<Text>, intent: Option<AnswerIntent>,
    reference: Option<Reference>)

  /** `validate_analysis_request`. */
  predicate InCatalogue(r: Inquiry) {
    var c := CapabilityFor(r.analysisType);
    && (c.subjectRequired ==> r.subjectType.Some?)
    && (r.subjectType.Some? ==> r.subjectType.value in c.subjects)
    && r.filters <= c.filters
    && (r.ranking.Some? ==> r.ranking.value.metric in c.metrics)
    && (r.intent.Some? && r.intent.value.metric.Some? ==>
          r.intent.value.metric.value in c.metrics
          && (r.ranking.Some? ==> r.intent.value.metric.value == r.ranking.value.metric))
  }

  // ---------------------------------------------------------------- questions

  /** A normalized question: which terms occur in it, and the two comparisons with its whole text. */
  datatype Question = Question(has: K.Term -> bool, weakRoute: bool, vague: bool)

  /** The text without the question marks at its end. */
  function Unquestioned(text: string): (r: string)
    ensures r <= text
  {
    if text != "" && text[|text| - 1] == '?' then Unquestioned(text[..|text| - 1]) else text
  }

  /** The question a normalized text asks. */
  function Ask(text: string): Question {
    Question(K.Found(text), text == "which route is weak?", Unquestioned(text) in {"what should i do", "is this okay"})
  }

  datatype Focus = Focus(subject: SubjectType, id: Text)
  datatype PriorFinding = PriorFinding(id: Text, entityIds: seq<Text>)
  datatype Context = Context(
    comparisonId: Option<Text>, priorAnalysisId: Option<Text>, focus: seq<Focus>, findings: seq<PriorFinding>)

  /** The one outcome of a compilation; `Rejected` is a request the catalogue refuses. */
  datatype Outcome = Compiled(request: Inquiry) | Clarify | Refused | Rejected

  predicate Forecast(q: Question) { q.has(K.TEN_YEARS) || q.has(K.WILL_BE_PROFITABLE) || q.has(K.FUTURE_PROFIT) }
  predicate CrashCause(q: Question) { q.has(K.CRASH) && q.has(K.WHY) }
  predicate WantsAction(q: Question) { q.has(K.FIX) || q.has(K.BUILD) || q.has(K.BUY) || q.has(K.CHANGE_ORDERS) }

  /** Questions answered before any analysis is chosen. */
  function Early(q: Question): Option<Outcome> {
    if Forecast(q) || CrashCause(q) || WantsAction(q) then Some(Refused)
    else if q.has(K.WHICH_ROUTE_IS_BAD) || q.weakRoute || q.vague then Some(Clarify)
    else None
  }

  /** `_conversation_reference`. */
  function ReferenceOf(q: Question): Option<ReferenceKind> {
    if q.has(K.THAT_VEHICLE) || q.has(K.THIS_VEHICLE) then Some(ToVehicle)
    else if q.has(K.THAT_ROUTE) || q.has(K.THIS_ROUTE) then Some(ToRoute)
    else if q.has(K.THAT_STATION) || q.has(K.THIS_STATION) then Some(ToStation)
    else if q.has(K.THAT_FINDING) || q.has(K.THIS_FINDING) then Some(ToFinding)
    else if q.has(K.THE_TOP_OPPORTUNITY) then Some(ToTopOpportunity)
    else None
  }

  function Focused(focus: seq<Focus>, keep: Focus -> bool): seq<Focus> {
    if focus == [] then [] else (if keep(focus[0]) then [focus[0]] else []) + Focused(focus[1..], keep)
  }

  function Candidates(kind: ReferenceKind, c: Context): seq<Focus> {
    match kind
    case ToVehicle => Focused(c.focus, (f: Focus) => f.subject == Vehicle)
    case ToRoute => Focused(c.focus, (f: Focus) => f.subject == Route)
    case ToStation => Focused(c.focus, (f: Focus) => f.subject == Station)
    case ToTopOpportunity => c.focus
    case ToFinding => if |c.findings| == 1 then Focused(c.focus, (f: Focus) => f.id in c.findings[0].entityIds) else []
  }

  /** The one entity a reference can mean; `None` asks for clarification. */
  function Resolve(kind: ReferenceKind, c: Option<Context>): Option<Focus> {
    if c.None? || |Candidates(kind, c.value)| != 1 then None else Some(Candidates(kind, c.value)[0])
  }

  /** `_analysis_type`: the first rule that matches. */
  function AnalysisTypeOf(q: Question): Option<AnalysisType> {
    if q.has(K.VEHICLE_TYPE) && (q.has(K.DRAGGING) || q.has(K.LOSES) || q.has(K.LOSS) || q.has(K.LEAST_PROFITABLE))
    then Some(FleetSummary)
    else if q.has(K.CHANGED) || q.has(K.WHAT_CHANGED) || q.has(K.IMPROVING) || q.has(K.GETTING_WORSE) || q.has(K.GAINED)
            || q.has(K.BECAME_UNPROFITABLE) || q.has(K.BECOME_UNPROFITABLE) then Some(WorldChanges)
    else if q.has(K.UNUSUAL) || q.has(K.ANOMAL) then Some(AnomalyDetection)
    else if q.has(K.PAY_ATTENTION) || q.has(K.INSPECT_FIRST) || q.has(K.WHAT_NEXT) || q.has(K.PRIORITY)
    then Some(PriorityReview)
    else if q.has(K.STATION) || q.has(K.WAITING_CARGO) || q.has(K.CAPACITY) then Some(StationPerformance)
    else if q.has(K.ROUTE) then Some(RoutePerformance)
    else if q.has(K.INDUSTRY) then Some(IndustryOpportunities)
    else if q.has(K.TOWN) then Some(TownCoverage)
    else if q.has(K.COVERAGE) || q.has(K.CARGO_TYPES_ARE_MISSING) || q.has(K.SERVICE_OPPORTUNITY) then Some(ServiceCoverage)
    else LastRules(q)
  }

  /** The rules for vehicles, money and health, which come after all others. */
  function LastRules(q: Question): Option<AnalysisType> {
    if q.has(K.VEHICLE) || q.has(K.TRAIN) || q.has(K.TRUCK) || q.has(K.BUS) || q.has(K.SHIP) || q.has(K.AIRCRAFT)
       || q.has(K.PLANE)
    then Some(VehiclePerformance)
    else if q.has(K.FLEET) || q.has(K.CONCENTRATED) then Some(FleetSummary)
    else if q.has(K.DEBT) || q.has(K.CASH) || q.has(K.FINANCIAL_SUMMARY) || q.has(K.FINANCES) then Some(FinancialSummary)
    else if q.has(K.LOSING_MONEY) || q.has(K.COMPANY_HEALTH) || q.has(K.HEALTHY_IS) || q.has(K.HEALTH) then Some(CompanyHealth)
    else None
  }

  function VehicleTypeIn(q: Question): Option<string> {
    if q.has(K.TRAIN) || q.has(K.RAIL) then Some("rail")
    else if q.has(K.ROAD) || q.has(K.TRUCK) || q.has(K.BUS) then Some("road")
    else if q.has(K.SHIP) then Some("water")
    else if q.has(K.AIRCRAFT) || q.has(K.PLANE) then Some("air")
    else None
  }

  /** `_ranking`. */
  function RankingFor(q: Question, t: AnalysisType): Option<MetricRanking> {
    match t
    case VehiclePerformance =>
      if q.has(K.LEAST) || q.has(K.LOSING) || q.has(K.LOST) || q.has(K.WORST) || q.has(K.UNDERPERFORM)
      then Some(MetricRanking(ProfitLastYear, Rising))
      else if q.has(K.BEST) || q.has(K.MOST_PROFITABLE) then Some(MetricRanking(ProfitLastYear, Falling))
      else None
    case StationPerformance => if q.has(K.MOST) then Some(MetricRanking(WaitingCargo, Falling)) else None
    case RoutePerformance =>
      if q.has(K.LOSING_VEHICLES) then Some(MetricRanking(RouteNegativeVehicleCount, Falling))
      else if q.has(K.WORST) || q.has(K.LOSING) || q.has(K.LEAST) || q.has(K.BAD)
      then Some(MetricRanking(RouteAggregateProfit, Rising))
      else if q.has(K.BEST) || q.has(K.MOST_MONEY) || q.has(K.MOST_PROFITABLE)
      then Some(MetricRanking(RouteAggregateProfit, Falling))
      else None
    case FleetSummary => if q.has(K.VEHICLE_TYPE) then Some(MetricRanking(VehicleTypeAggregateProfit, Rising)) else None
    case PriorityReview => Some(MetricRanking(PriorityScore, Falling))
    case _ => None
  }

  predicate NamesVehicles(q: Question) {
    q.has(K.VEHICLE) || q.has(K.TRAIN) || q.has(K.TRUCK) || q.has(K.BUS) || q.has(K.SHIP) || q.has(K.AIRCRAFT)
  }

  /** `_subject_scope`. */
  function SubjectScope(q: Question, t: AnalysisType): Option<SubjectType> {
    match t
    case WorldChanges =>
      if NamesVehicles(q) then Some(Vehicle)
      else if q.has(K.TOWN) then Some(Town)
      else if q.has(K.STATION) then Some(Station)
      else if q.has(K.ROUTE) then Some(Route)
      else if q.has(K.INDUSTRY) then Some(Industry)
      else if q.has(K.COMPANY) then Some(Company)
      else None
    case PriorityReview =>
      if q.has(K.STATION) then Some(Station)
      else if NamesVehicles(q) then Some(Vehicle)
      else if q.has(K.ROUTE) then Some(Route)
      else if q.has(K.INDUSTRY) then Some(Industry)
      else if q.has(K.TOWN) then Some(Town)
      else None
    case FleetSummary => if q.has(K.VEHICLE_TYPE) then Some(Vehicle) else None
    case _ => None
  }

  // ---------------------------------------------------------------- the answer intent

  predicate Compares(q: Question) {
    q.has(K.CHANGED) || q.has(K.CHANGE) || q.has(K.SINCE) || q.has(K.BEFORE) || q.has(K.IMPROVING)
    || q.has(K.WORSE) || q.has(K.UNUSUAL)
  }

  function PeriodOf(m: Option<Metric>): Option<Period> {
    match m
    case None => None
    case Some(ProfitLastYear) => Some(LastYear)
    case Some(ProfitThisYear) => Some(ThisYear)
    case Some(VehicleTypeAggregateProfit) => Some(LastYear)
    case Some(RouteAggregateProfit) => Some(LastYear)
    case Some(RouteMedianProfit) => Some(LastYear)
    case Some(RouteNegativeVehicleCount) => Some(LastYear)
    case Some(_) => Some(CurrentSnapshot)
  }

  function MetricOf(r: Option<MetricRanking>): Option<Metric> { if r.Some? then Some(r.value.metric) else None }

  /** The metric a question about changes or anomalies asks for. */
  function ChangeMetric(q: Question): Option<Metric> {
    if q.has(K.POPULATION) || q.has(K.TOWN) then Some(Metric.Population)
    else if q.has(K.PROFIT) || q.has(K.UNPROFITABLE) then Some(ProfitLastYear)
    else None
  }

  predicate FlagsVehicle(q: Question) { q.has(K.FLAG) && (q.has(K.THIS_VEHICLE) || q.has(K.THAT_VEHICLE)) }
  predicate AsksIdle(q: Question) { q.has(K.IDLE) || q.has(K.SITTING) }

  function HealthIntent(q: Question): AnswerIntent {
    if q.has(K.LOSING_MONEY) || q.has(K.LOSS) then
      AnswerIntent(Concept.Loss, Explanation, {PremiseCheck, Cause}, Some(NetOperatingResult), Some(Current),
                   Some(CompanyLosing), true, false, None)
    else
      AnswerIntent(Health, Fact, {StatusForm, Summary}, Some(NetOperatingResult), Some(Current), None, false, false, None)
  }

  function VehicleIntent(q: Question, r: Option<MetricRanking>): AnswerIntent {
    if FlagsVehicle(q) then
      AnswerIntent(EntityQuestion, FollowUp, {DrillDown, EvidenceForm}, None, Some(CurrentSnapshot), None,
                   false, false, Some(ToVehicle))
    else if AsksIdle(q) then
      AnswerIntent(Concept.Idle, Fact, {Existence}, Some(RunningState), Some(CurrentSnapshot), None, false, false, None)
    else
      AnswerIntent(Performance, if r.Some? then Ranked else Fact, if r.Some? then {RankingForm} else {Summary}, MetricOf(r),
                   PeriodOf(MetricOf(r)), None, false, Compares(q), None)
  }

  function RouteIntent(q: Question, r: Option<MetricRanking>): AnswerIntent {
    var reference := if q.has(K.THIS_ROUTE) || q.has(K.THAT_ROUTE) then Some(ToRoute) else None;
    var forms := if q.has(K.LOSING_MONEY) then {PremiseCheck, Cause, DrillDown}
      else if q.has(K.CONTRIBUTE) && reference.Some? then {DrillDown, EvidenceForm} else {RankingForm};
    AnswerIntent(Performance, if q.has(K.THIS_ROUTE) then FollowUp else Ranked, forms, MetricOf(r), Some(LastYear),
                 if q.has(K.LOSING_MONEY) then Some(RouteLosing) else None, q.has(K.LOSING_MONEY), Compares(q), reference)
  }

  function ConceptFor(t: AnalysisType): Concept {
    match t
    case StationPerformance => Concept.Priority
    case ServiceCoverage => CargoCoverage
    case IndustryOpportunities => Opportunity
    case TownCoverage => CargoCoverage
    case PriorityReview => Concept.Priority
    case EntitySummary => EntityQuestion
    case _ => Performance
  }

  function OtherIntent(q: Question, t: AnalysisType, r: Option<MetricRanking>): AnswerIntent {
    var metric := if t.ServiceCoverage? && q.has(K.CARGO_TYPE) then Some(CargoTypeCoverage) else MetricOf(r);
    var station := t.StationPerformance? && (q.has(K.THIS_STATION) || q.has(K.THAT_STATION));
    var forms := if station && (q.has(K.WHY) || q.has(K.WHAT_MAKES)) then {DrillDown, EvidenceForm, Cause}
      else if t.PriorityReview? then {Recommend, RankingForm}
      else if r.Some? then {RankingForm} else {Summary};
    AnswerIntent(ConceptFor(t), if station then FollowUp else if r.Some? then Ranked else Fact, forms, metric, PeriodOf(metric),
                 None, false, Compares(q), if station then Some(ToStation) else None)
  }

  /** `answer_intent_for_question`. */
  function IntentFor(q: Question, t: AnalysisType, r: Option<MetricRanking>): AnswerIntent {
    if t.CompanyHealth? then HealthIntent(q)
    else if t.FinancialSummary? && (q.has(K.DEBT) || q.has(K.LOAN)) then
      AnswerIntent(Concept.Debt, Fact, if q.has(K.HOW_MUCH) then {Quantity} else {StatusForm}, Some(Metric.Loan),
                   Some(Current), None, q.has(K.TOO_MUCH),
                   false, None)
    else if t.FinancialSummary? && q.has(K.CASH) then
      AnswerIntent(AvailableCash, Fact, {Quantity}, Some(Metric.Cash), Some(Current), None, false, false, None)
    else if t.WorldChanges? || t.AnomalyDetection? then
      AnswerIntent(if t.AnomalyDetection? then Concept.Anomaly else Concept.Change, Ranked, {Comparison}, ChangeMetric(q),
                   Some(BetweenSnapshots), None, false, true, None)
    else if t.VehiclePerformance? then VehicleIntent(q, r)
    else if t.RoutePerformance? then RouteIntent(q, r)
    else if t.FleetSummary? && q.has(K.VEHICLE_TYPE) then
      AnswerIntent(Performance, Ranked, {RankingForm}, Some(VehicleTypeAggregateProfit), Some(LastYear),
                   None, false, false, None)
    else OtherIntent(q, t, r)
  }

  // ---------------------------------------------------------------- compilation

  /** The request for analysis `t`, about the resolved entity if there is one. */
  function RequestFor(q: Question, t: AnalysisType, entity: Option<Focus>, c: Option<Context>): Inquiry {
    var vehicleType := if t.VehiclePerformance? then VehicleTypeIn(q) else None;
    var ranking := RankingFor(q, t);
    var kind := ReferenceOf(q);
    Inquiry(
      t, if entity.Some? then Some(entity.value.subject) else SubjectScope(q, t),
      if entity.Some? then [entity.value.id] else [],
      vehicleType, if vehicleType.Some? then {VehicleType} else {}, ranking, if c.Some? then c.value.comparisonId else None,
      Some(IntentFor(q, t, ranking)),
      if entity.Some? && kind.Some? && c.Some? && c.value.priorAnalysisId.Some?
      then Some(Reference(kind.value, c.value.priorAnalysisId.value, entity.value.id,
                          if kind.value.ToFinding? && |c.value.findings| == 1 then Some(c.value.findings[0].id) else None))
      else None)
  }

  /** The analysis a question gets, given whether a reference was resolved. */
  function ChosenType(q: Question, resolved: bool): Option<AnalysisType> {
    if AnalysisTypeOf(q).Some? then AnalysisTypeOf(q) else if resolved then Some(EntitySummary) else None
  }

  function Decide(q: Question, entity: Option<Focus>, c: Option<Context>): Outcome {
    match ChosenType(q, entity.Some?)
    case None => Refused
    case Some(t) => if InCatalogue(RequestFor(q, t, entity, c)) then Compiled(RequestFor(q, t, entity, c)) else Rejected
  }

  /** `DeterministicAnalysisCompiler.compile` on a normalized, non-empty question. */
  function Compile(q: Question, c: Option<Context>): Outcome {
    if Early(q).Some? then Early(q).value
    else match ReferenceOf(q)
      case None => Decide(q, None, c)
      case Some(kind) => if Resolve(kind, c).None? then Clarify else Decide(q, Resolve(kind, c), c)
  }
}
