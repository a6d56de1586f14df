/** What a compiled request asks for, told from the words of the question, and what the answer to it then cites. */
module CompilerOutcomes {
  import opened Texts
  import opened Analysis
  import opened Compiler
  import AnalysisProofs
  import opened CompilerProofs
  import K = Keywords

  // ---------------------------------------------------------------- which outcome

  /** The question asks for a forecast, for the cause of a crash, or for an action in the game. */
  predicate BeyondObservation(q: Question) {
    || q.has(K.TEN_YEARS) || q.has(K.WILL_BE_PROFITABLE) || q.has(K.FUTURE_PROFIT)
    || (q.has(K.WHY) && q.has(K.CRASH))
    || q.has(K.BUILD) || q.has(K.BUY) || q.has(K.FIX) || q.has(K.CHANGE_ORDERS)
  }

  /** The question has to be asked more precisely. */
  predicate TooVague(q: Question) { q.vague || q.weakRoute || q.has(K.WHICH_ROUTE_IS_BAD) }

  /** What a reference points at, if it points at one displayed entity. */
  function Referred(q: Question, c: Option<Context>): Option<Focus> {
    if ReferenceOf(q).Some? then Resolve(ReferenceOf(q).value, c) else None
  }

  /**
   * Every question has one outcome. It is refused if it goes beyond observation, or if no analysis fits and no entity is
   * referred to; it has to be clarified if it is too vague or its reference is not resolved; all else is a request.
   */
  lemma OutcomeExact(q: Question, c: Option<Context>)
    ensures var dangling := ReferenceOf(q).Some? && Referred(q, c).None?;
      var o := Compile(q, c);
      && (o.Refused? <==>
            BeyondObservation(q)
            || (!TooVague(q) && !dangling && AnalysisTypeOf(q).None? && ReferenceOf(q).None?))
      && (o.Clarify? <==> !BeyondObservation(q) && (TooVague(q) || dangling))
  {
  }

  /** The words of a reference name what it is about; a vehicle comes before a route, and so on down the list. */
  lemma ReferenceExact(q: Question)
    ensures var vehicle := q.has(K.THIS_VEHICLE) || q.has(K.THAT_VEHICLE);
      var route := q.has(K.THIS_ROUTE) || q.has(K.THAT_ROUTE);
      var station := q.has(K.THIS_STATION) || q.has(K.THAT_STATION);
      var finding := q.has(K.THIS_FINDING) || q.has(K.THAT_FINDING);
      && (ReferenceOf(q) == Some(ToVehicle) <==> vehicle)
      && (ReferenceOf(q) == Some(ToRoute) <==> route && !vehicle)
      && (ReferenceOf(q) == Some(ToStation) <==> station && !vehicle && !route)
      && (ReferenceOf(q) == Some(ToFinding) <==> finding && !vehicle && !route && !station)
      && (ReferenceOf(q) == Some(ToTopOpportunity) <==>
            q.has(K.THE_TOP_OPPORTUNITY) && !vehicle && !route && !station && !finding)
  {
  }

  // ---------------------------------------------------------------- which analysis

  /** A rule of the compiler: these terms ask for this analysis. */
  datatype Rule = Rule(terms: seq<K.Term>, analysis: AnalysisType)

  predicate Fires(q: Question, rule: Rule) { exists i :: 0 <= i < |rule.terms| && q.has(rule.terms[i]) }

  /** The rules in their order. */
  const RULES: seq<Rule> := [
    Rule([K.CHANGED, K.WHAT_CHANGED, K.IMPROVING, K.GETTING_WORSE, K.GAINED, K.BECAME_UNPROFITABLE, K.BECOME_UNPROFITABLE],
         WorldChanges),
    Rule([K.UNUSUAL, K.ANOMAL], AnomalyDetection),
    Rule([K.PAY_ATTENTION, K.INSPECT_FIRST, K.WHAT_NEXT, K.PRIORITY], PriorityReview),
    Rule([K.STATION, K.WAITING_CARGO, K.CAPACITY], StationPerformance),
    Rule([K.ROUTE], RoutePerformance),
    Rule([K.INDUSTRY], IndustryOpportunities),
    Rule([K.TOWN], TownCoverage),
    Rule([K.COVERAGE, K.CARGO_TYPES_ARE_MISSING, K.SERVICE_OPPORTUNITY], ServiceCoverage),
    Rule([K.VEHICLE, K.TRAIN, K.TRUCK, K.BUS, K.SHIP, K.AIRCRAFT, K.PLANE], VehiclePerformance),
    Rule([K.FLEET, K.CONCENTRATED], FleetSummary),
    Rule([K.DEBT, K.CASH, K.FINANCIAL_SUMMARY, K.FINANCES], FinancialSummary),
    Rule([K.LOSING_MONEY, K.COMPANY_HEALTH, K.HEALTHY_IS, K.HEALTH], CompanyHealth)]

  /** A question about the vehicle type that loses most comes before all rules. */
  predicate AboutVehicleTypes(q: Question) {
    q.has(K.VEHICLE_TYPE) && (q.has(K.DRAGGING) || q.has(K.LOSES) || q.has(K.LOSS) || q.has(K.LEAST_PROFITABLE))
  }

  lemma Fires1(q: Question, rule: Rule, a: K.Term)
    requires rule.terms == [a]
    ensures Fires(q, rule) <==> q.has(a)
  {
    if q.has(a) { assert q.has(rule.terms[0]); }
  }

  lemma Fires2(q: Question, rule: Rule, a: K.Term, b: K.Term)
    requires rule.terms == [a, b]
    ensures Fires(q, rule) <==> q.has(a) || q.has(b)
  {
    assert rule.terms[0] == a && rule.terms[1] == b;
  }

  lemma Fires3(q: Question, rule: Rule, a: K.Term, b: K.Term, c: K.Term)
    requires rule.terms == [a, b, c]
    ensures Fires(q, rule) <==> q.has(a) || q.has(b) || q.has(c)
  {
    assert rule.terms[0] == a && rule.terms[1] == b && rule.terms[2] == c;
  }

  lemma Fires4(q: Question, rule: Rule, a: K.Term, b: K.Term, c: K.Term, d: K.Term)
    requires rule.terms == [a, b, c, d]
    ensures Fires(q, rule) <==> q.has(a) || q.has(b) || q.has(c) || q.has(d)
  {
    assert rule.terms[0] == a && rule.terms[1] == b && rule.terms[2] == c && rule.terms[3] == d;
  }

  lemma Fires7(q: Question, rule: Rule, a: K.Term, b: K.Term, c: K.Term, d: K.Term, e: K.Term, f: K.Term, g: K.Term)
    requires rule.terms == [a, b, c, d, e, f, g]
    ensures Fires(q, rule) <==> q.has(a) || q.has(b) || q.has(c) || q.has(d) || q.has(e) || q.has(f) || q.has(g)
  {
    assert rule.terms[0] == a && rule.terms[1] == b && rule.terms[2] == c && rule.terms[3] == d;
    assert rule.terms[4] == e && rule.terms[5] == f && rule.terms[6] == g;
  }

  lemma EarlyRules(q: Question)
    ensures |RULES| == 12
    ensures Fires(q, RULES[0]) <==>
      q.has(K.CHANGED) || q.has(K.WHAT_CHANGED) || q.has(K.IMPROVING) || q.has(K.GETTING_WORSE) || q.has(K.GAINED)
      || q.has(K.BECAME_UNPROFITABLE) || q.has(K.BECOME_UNPROFITABLE)
    ensures Fires(q, RULES[1]) <==> q.has(K.UNUSUAL) || q.has(K.ANOMAL)
    ensures Fires(q, RULES[2]) <==>
      q.has(K.PAY_ATTENTION) || q.has(K.INSPECT_FIRST) || q.has(K.WHAT_NEXT) || q.has(K.PRIORITY)
    ensures Fires(q, RULES[3]) <==> q.has(K.STATION) || q.has(K.WAITING_CARGO) || q.has(K.CAPACITY)
    ensures Fires(q, RULES[4]) <==> q.has(K.ROUTE)
    ensures Fires(q, RULES[5]) <==> q.has(K.INDUSTRY)
  {
    Fires7(q, RULES[0], K.CHANGED, K.WHAT_CHANGED, K.IMPROVING, K.GETTING_WORSE, K.GAINED, K.BECAME_UNPROFITABLE,
           K.BECOME_UNPROFITABLE);
    Fires2(q, RULES[1], K.UNUSUAL, K.ANOMAL);
    Fires4(q, RULES[2], K.PAY_ATTENTION, K.INSPECT_FIRST, K.WHAT_NEXT, K.PRIORITY);
    Fires3(q, RULES[3], K.STATION, K.WAITING_CARGO, K.CAPACITY);
    Fires1(q, RULES[4], K.ROUTE);
    Fires1(q, RULES[5], K.INDUSTRY);
  }

  lemma LateRules(q: Question)
    ensures |RULES| == 12
    ensures Fires(q, RULES[6]) <==> q.has(K.TOWN)
    ensures Fires(q, RULES[7]) <==> q.has(K.COVERAGE) || q.has(K.CARGO_TYPES_ARE_MISSING) || q.has(K.SERVICE_OPPORTUNITY)
    ensures Fires(q, RULES[8]) <==>
      q.has(K.VEHICLE) || q.has(K.TRAIN) || q.has(K.TRUCK) || q.has(K.BUS) || q.has(K.SHIP) || q.has(K.AIRCRAFT)
      || q.has(K.PLANE)
    ensures Fires(q, RULES[9]) <==> q.has(K.FLEET) || q.has(K.CONCENTRATED)
    ensures Fires(q, RULES[10]) <==> q.has(K.DEBT) || q.has(K.CASH) || q.has(K.FINANCIAL_SUMMARY) || q.has(K.FINANCES)
    ensures Fires(q, RULES[11]) <==>
      q.has(K.LOSING_MONEY) || q.has(K.COMPANY_HEALTH) || q.has(K.HEALTHY_IS) || q.has(K.HEALTH)
  {
    Fires1(q, RULES[6], K.TOWN);
    Fires3(q, RULES[7], K.COVERAGE, K.CARGO_TYPES_ARE_MISSING, K.SERVICE_OPPORTUNITY);
    Fires7(q, RULES[8], K.VEHICLE, K.TRAIN, K.TRUCK, K.BUS, K.SHIP, K.AIRCRAFT, K.PLANE);
    Fires2(q, RULES[9], K.FLEET, K.CONCENTRATED);
    Fires4(q, RULES[10], K.DEBT, K.CASH, K.FINANCIAL_SUMMARY, K.FINANCES);
    Fires4(q, RULES[11], K.LOSING_MONEY, K.COMPANY_HEALTH, K.HEALTHY_IS, K.HEALTH);
  }

  lemma Analyses()
    ensures |RULES| == 12
    ensures RULES[0].analysis == WorldChanges && RULES[1].analysis == AnomalyDetection
    ensures RULES[2].analysis == PriorityReview && RULES[3].analysis == StationPerformance
    ensures RULES[4].analysis == RoutePerformance && RULES[5].analysis == IndustryOpportunities
    ensures RULES[6].analysis == TownCoverage && RULES[7].analysis == ServiceCoverage
    ensures RULES[8].analysis == VehiclePerformance && RULES[9].analysis == FleetSummary
    ensures RULES[10].analysis == FinancialSummary && RULES[11].analysis == CompanyHealth
  {
  }

  /** The `i`th rule fires, and none before it. */
  ghost predicate FirstFires(q: Question, i: nat) {
    i < |RULES| && Fires(q, RULES[i]) && forall j :: 0 <= j < i ==> !Fires(q, RULES[j])
  }

  /**
   * The analysis of a question is that of the first rule with a term in it. A question about the vehicle type that loses
   * most is about the fleet whatever the rules say, and without a firing rule there is no analysis.
   */
  lemma TypeExact(q: Question)
    ensures AboutVehicleTypes(q) ==> AnalysisTypeOf(q) == Some(FleetSummary)
    ensures forall i: nat :: !AboutVehicleTypes(q) && FirstFires(q, i) ==> AnalysisTypeOf(q) == Some(RULES[i].analysis)
    ensures !AboutVehicleTypes(q) && (forall i :: 0 <= i < |RULES| ==> !Fires(q, RULES[i])) ==> AnalysisTypeOf(q) == None
  {
    EarlyRules(q);
    LateRules(q);
    Analyses();
  }

  // ---------------------------------------------------------------- which ranking

  predicate SaysWorst(q: Question) {
    q.has(K.WORST) || q.has(K.LEAST) || q.has(K.LOSING) || q.has(K.LOST) || q.has(K.UNDERPERFORM)
  }

  predicate SaysBest(q: Question) { q.has(K.BEST) || q.has(K.MOST_PROFITABLE) }

  predicate SaysWorstRoute(q: Question) { q.has(K.WORST) || q.has(K.LOSING) || q.has(K.LEAST) || q.has(K.BAD) }

  /** The request ranks by the metric, lowest first or highest first. */
  predicate LowestFirst(r: Inquiry, m: Metric) { r.ranking == Some(MetricRanking(m, Rising)) }
  predicate HighestFirst(r: Inquiry, m: Metric) { r.ranking == Some(MetricRanking(m, Falling)) }

  /** The worst vehicles have the lowest profit of the last year, the best the highest. */
  lemma VehicleRanking(q: Question, c: Option<Context>)
    requires Compile(q, c).Compiled? && Compile(q, c).request.analysisType.VehiclePerformance?
    ensures var r := Compile(q, c).request;
      && (LowestFirst(r, ProfitLastYear) <==> SaysWorst(q))
      && (HighestFirst(r, ProfitLastYear) <==> SaysBest(q) && !SaysWorst(q))
      && (r.ranking.None? <==> !SaysWorst(q) && !SaysBest(q))
  {
  }

  /** The routes with most losing vehicles, the worst and the best by the profit of all their vehicles. */
  lemma RouteRanking(q: Question, c: Option<Context>)
    requires Compile(q, c).Compiled? && Compile(q, c).request.analysisType.RoutePerformance?
    ensures var r := Compile(q, c).request;
      var best := SaysBest(q) || q.has(K.MOST_MONEY);
      && (HighestFirst(r, RouteNegativeVehicleCount) <==> q.has(K.LOSING_VEHICLES))
      && (LowestFirst(r, RouteAggregateProfit) <==> SaysWorstRoute(q) && !q.has(K.LOSING_VEHICLES))
      && (HighestFirst(r, RouteAggregateProfit) <==> best && !SaysWorstRoute(q) && !q.has(K.LOSING_VEHICLES))
      && (r.ranking.None? <==> !best && !SaysWorstRoute(q) && !q.has(K.LOSING_VEHICLES))
  {
  }

  /** Stations, vehicle types and priorities each have one order, and nothing else is ranked. */
  lemma OtherRankings(q: Question, c: Option<Context>)
    requires Compile(q, c).Compiled?
    ensures var r := Compile(q, c).request;
      && (r.analysisType.StationPerformance? ==>
            if q.has(K.MOST) then HighestFirst(r, WaitingCargo) else r.ranking.None?)
      && (r.analysisType.FleetSummary? ==>
            if q.has(K.VEHICLE_TYPE) then LowestFirst(r, VehicleTypeAggregateProfit) else r.ranking.None?)
      && (r.analysisType.PriorityReview? ==> HighestFirst(r, PriorityScore))
      && (r.ranking.Some? ==>
            r.analysisType.VehiclePerformance? || r.analysisType.RoutePerformance? || r.analysisType.StationPerformance?
            || r.analysisType.FleetSummary? || r.analysisType.PriorityReview?)
  {
  }

  // ---------------------------------------------------------------- which vehicles, subjects and periods

  /** A request filters by the kind of vehicle its words name, and only a vehicle request does. */
  lemma FilterExact(q: Question, c: Option<Context>)
    requires Compile(q, c).Compiled?
    ensures var r := Compile(q, c).request;
      var rail := q.has(K.TRAIN) || q.has(K.RAIL);
      var road := q.has(K.ROAD) || q.has(K.TRUCK) || q.has(K.BUS);
      var air := q.has(K.AIRCRAFT) || q.has(K.PLANE);
      && (!r.analysisType.VehiclePerformance? ==> r.vehicleType.None?)
      && (r.analysisType.VehiclePerformance? ==>
            r.vehicleType ==
              if rail then Some("rail") else if road then Some("road") else if q.has(K.SHIP) then Some("water")
              else if air then Some("air") else None)
      && r.filters == if r.vehicleType.Some? then {VehicleType} else {}
  {
  }

  /** Without a reference only changes, priorities and vehicle types are narrowed to a subject, by the words that name it. */
  lemma SubjectExact(q: Question, c: Option<Context>)
    requires Compile(q, c).Compiled? && Referred(q, c).None?
    ensures var r := Compile(q, c).request;
      var vehicles := NamesVehicles(q);
      && (r.subjectType == Some(Vehicle) <==>
            || (r.analysisType.WorldChanges? && vehicles)
            || (r.analysisType.PriorityReview? && vehicles && !q.has(K.STATION))
            || (r.analysisType.FleetSummary? && q.has(K.VEHICLE_TYPE)))
      && (r.subjectType == Some(Station) <==>
            || (r.analysisType.WorldChanges? && q.has(K.STATION) && !vehicles && !q.has(K.TOWN))
            || (r.analysisType.PriorityReview? && q.has(K.STATION)))
      && (r.subjectType == Some(Company) <==>
            r.analysisType.WorldChanges? && q.has(K.COMPANY) && !vehicles && !q.has(K.TOWN) && !q.has(K.STATION)
            && !q.has(K.ROUTE) && !q.has(K.INDUSTRY))
      && (r.subjectType == Some(Town) ==> q.has(K.TOWN)) && (r.subjectType == Some(Route) ==> q.has(K.ROUTE))
      && (r.subjectType == Some(Industry) ==> q.has(K.INDUSTRY)) && r.subjectIds == []
  {
  }

  /** Which analyses can be about one vehicle, route, station or town that was displayed. */
  lemma SubjectFitsExact(t: AnalysisType, entity: Focus)
    ensures var everything := t.WorldChanges? || t.PriorityReview? || t.EntitySummary?;
      && (entity.subject.Vehicle? ==>
            (SubjectFits(t, Some(entity)) <==> everything || t.VehiclePerformance? || t.FleetSummary?))
      && (entity.subject.Route? ==>
            (SubjectFits(t, Some(entity)) <==> everything || t.VehiclePerformance? || t.RoutePerformance?))
      && (entity.subject.Station? ==> (SubjectFits(t, Some(entity)) <==> everything || t.StationPerformance?))
      && (entity.subject.Town? ==> (SubjectFits(t, Some(entity)) <==> everything || t.TownCoverage?))
      && (entity.subject.Industry? ==> (SubjectFits(t, Some(entity)) <==> everything || t.IndustryOpportunities?))
  {
  }

  /** Which analyses a request may filter by a field of a vehicle, a station, a town or an industry. */
  lemma FilterFitsExact(t: AnalysisType, f: Field)
    ensures var fleet := t.VehiclePerformance? || t.FleetSummary?;
      f in CapabilityFor(t).filters <==>
        match f
        case EntityId =>
          fleet || t.StationPerformance? || t.RoutePerformance? || t.IndustryOpportunities? || t.TownCoverage?
          || t.EntitySummary?
        case OwnerId => fleet || t.StationPerformance? || t.RoutePerformance?
        case VehicleType => fleet || t.RoutePerformance?
        case RouteId => fleet || t.RoutePerformance?
        case StationId => t.StationPerformance?
        case TownId => t.TownCoverage? || t.ServiceCoverage?
        case IndustryId => t.IndustryOpportunities? || t.ServiceCoverage?
        case _ => fleet
  {
  }

  /** Which analyses can give an amount of money, or something about single vehicles. */
  lemma MoneyMetrics(t: AnalysisType)
    ensures var metrics := CapabilityFor(t).metrics;
      && (t.FinancialSummary? <==> Cash in metrics) && (t.FinancialSummary? <==> Loan in metrics)
      && (t.FinancialSummary? <==> CompanyValue in metrics) && (t.FinancialSummary? <==> Income in metrics)
      && (t.FinancialSummary? <==> Expenses in metrics)
      && (t.FinancialSummary? || t.CompanyHealth? <==> NetOperatingResult in metrics)
      && (t.VehiclePerformance? <==> ProfitThisYear in metrics) && (t.VehiclePerformance? <==> AgeDays in metrics)
      && (t.VehiclePerformance? || t.WorldChanges? <==> ProfitLastYear in metrics)
      && (t.VehiclePerformance? <==> RunningState in metrics)
  {
  }

  /** Which analyses can give something about stations, routes and fleets. */
  lemma TrafficMetrics(t: AnalysisType)
    ensures var metrics := CapabilityFor(t).metrics;
      && (t.StationPerformance? <==> WaitingCargo in metrics) && (t.StationPerformance? <==> CargoPerVehicle in metrics)
      && (t.StationPerformance? || t.RoutePerformance? || t.FleetSummary? <==> VehicleCount in metrics)
      && (t.FleetSummary? <==> NegativeProfitVehicleCount in metrics)
      && (t.FleetSummary? <==> VehicleTypeAggregateProfit in metrics)
      && (t.RoutePerformance? <==> RouteAggregateProfit in metrics)
      && (t.RoutePerformance? <==> RouteMedianProfit in metrics)
      && (t.RoutePerformance? <==> RouteNegativeVehicleCount in metrics)
  {
  }

  /** Which analyses can give something about towns, industries and priorities. */
  lemma PlaceMetrics(t: AnalysisType)
    ensures var metrics := CapabilityFor(t).metrics;
      && (t.ServiceCoverage? <==> CargoTypeCoverage in metrics)
      && (t.ServiceCoverage? || t.TownCoverage? || t.WorldChanges? <==> Metric.Population in metrics)
      && (t.ServiceCoverage? || t.IndustryOpportunities? <==> Production in metrics)
      && (t.ServiceCoverage? || t.IndustryOpportunities? || t.TownCoverage? <==> OpportunityScore in metrics)
      && (t.PriorityReview? <==> PriorityScore in metrics)
      && (t.WorldChanges? || t.AnomalyDetection? <==> Materiality in metrics)
  {
  }

  /** The period of an answer is the one its metric is measured over. */
  lemma PeriodExact(q: Question, t: AnalysisType)
    ensures var i := IntentFor(q, t, RankingFor(q, t));
      && (t.WorldChanges? || t.AnomalyDetection? <==> i.period == Some(BetweenSnapshots))
      && (i.metric == Some(ProfitLastYear) && !t.WorldChanges? && !t.AnomalyDetection? ==> i.period == Some(LastYear))
      && (i.metric == Some(RouteAggregateProfit) || i.metric == Some(RouteNegativeVehicleCount) ==>
            i.period == Some(LastYear))
      && (i.metric == Some(VehicleTypeAggregateProfit) ==> i.period == Some(LastYear))
      && (i.metric == Some(NetOperatingResult) || i.metric == Some(Metric.Cash) || i.metric == Some(Metric.Loan) ==>
            i.period == Some(Current))
      && (i.metric == Some(WaitingCargo) || i.metric == Some(PriorityScore) ==> i.period == Some(CurrentSnapshot))
      && (i.metric == Some(RunningState) || i.metric == Some(CargoTypeCoverage) ==> i.period == Some(CurrentSnapshot))
      && i.period != Some(ThisYear)
  {
  }

  /** What an answer is about follows from the analysis and, for money and vehicles, from the words. */
  lemma ConceptExact(q: Question, t: AnalysisType)
    ensures var i := IntentFor(q, t, RankingFor(q, t));
      && (i.concept == Concept.Loss <==> t.CompanyHealth? && (q.has(K.LOSS) || q.has(K.LOSING_MONEY)))
      && (i.concept == Health <==> t.CompanyHealth? && !q.has(K.LOSS) && !q.has(K.LOSING_MONEY))
      && (i.concept == Concept.Debt <==> t.FinancialSummary? && (q.has(K.DEBT) || q.has(K.LOAN)))
      && (i.concept == AvailableCash <==> t.FinancialSummary? && q.has(K.CASH) && !q.has(K.DEBT) && !q.has(K.LOAN))
      && (i.concept == Concept.Anomaly <==> t.AnomalyDetection?) && (i.concept == Concept.Change <==> t.WorldChanges?)
      && (i.concept == Concept.Idle <==> t.VehiclePerformance? && !FlagsVehicle(q) && (q.has(K.SITTING) || q.has(K.IDLE)))
      && (i.concept == Concept.Priority <==> t.StationPerformance? || t.PriorityReview?)
      && (i.concept == CargoCoverage <==> t.ServiceCoverage? || t.TownCoverage?)
      && (i.concept == Opportunity <==> t.IndustryOpportunities?)
      && (i.concept == EntityQuestion <==> t.EntitySummary? || (t.VehiclePerformance? && FlagsVehicle(q)))
  {
  }

  /** A premise is one the question asserts: that the company, or a route, is losing money. */
  lemma PremiseExact(q: Question, t: AnalysisType)
    ensures var i := IntentFor(q, t, RankingFor(q, t));
      && (i.premise == Some(CompanyLosing) <==> t.CompanyHealth? && (q.has(K.LOSS) || q.has(K.LOSING_MONEY)))
      && (i.premise == Some(RouteLosing) <==> t.RoutePerformance? && q.has(K.LOSING_MONEY))
      && (i.premise.Some? ==> i.asserted && PremiseCheck in i.forms && Cause in i.forms)
      && (t.StationPerformance? && i.kind.Ranked? ==> i.forms == {RankingForm})
      && (t.VehiclePerformance? && i.kind.Ranked? ==> i.forms == {RankingForm})
      && (t.WorldChanges? || t.AnomalyDetection? ==> i.comparison && i.forms == {Comparison})
  {
  }

  predicate AboutLoss(q: Question, t: AnalysisType) { t.CompanyHealth? && (q.has(K.LOSS) || q.has(K.LOSING_MONEY)) }
  predicate AboutDebt(q: Question, t: AnalysisType) { t.FinancialSummary? && (q.has(K.DEBT) || q.has(K.LOAN)) }
  predicate AboutCash(q: Question, t: AnalysisType) { t.FinancialSummary? && !AboutDebt(q, t) && q.has(K.CASH) }
  predicate AboutIdle(q: Question, t: AnalysisType) {
    t.VehiclePerformance? && !FlagsVehicle(q) && (q.has(K.SITTING) || q.has(K.IDLE))
  }
  predicate AboutFlag(q: Question, t: AnalysisType) { t.VehiclePerformance? && FlagsVehicle(q) }
  predicate AboutChange(t: AnalysisType) { t.WorldChanges? || t.AnomalyDetection? }
  predicate ThisRoute(q: Question) { q.has(K.THIS_ROUTE) || q.has(K.THAT_ROUTE) }
  predicate ThisStation(q: Question, t: AnalysisType) {
    t.StationPerformance? && (q.has(K.THIS_STATION) || q.has(K.THAT_STATION))
  }
  predicate WhyStation(q: Question, t: AnalysisType) { ThisStation(q, t) && (q.has(K.WHY) || q.has(K.WHAT_MAKES)) }
  predicate RouteDetail(q: Question, t: AnalysisType) { t.RoutePerformance? && q.has(K.CONTRIBUTE) && ThisRoute(q) }
  predicate RouteLoss(q: Question, t: AnalysisType) { t.RoutePerformance? && q.has(K.LOSING_MONEY) }

  /** Which of the words make an answer a follow-up, an explanation, a ranking or a fact. */
  lemma KindExact(q: Question, t: AnalysisType)
    ensures var r := RankingFor(q, t);
      var i := IntentFor(q, t, r);
      && (i.kind == Explanation <==> AboutLoss(q, t))
      && (i.kind == FollowUp <==> AboutFlag(q, t) || ThisStation(q, t) || (t.RoutePerformance? && q.has(K.THIS_ROUTE)))
      && (i.kind == Ranked <==>
            || AboutChange(t) || (t.RoutePerformance? && !q.has(K.THIS_ROUTE))
            || (r.Some? && !t.RoutePerformance? && !AboutFlag(q, t) && !AboutIdle(q, t) && !ThisStation(q, t)))
      && (i.reference == Some(ToVehicle) <==> AboutFlag(q, t))
      && (i.reference == Some(ToRoute) <==> t.RoutePerformance? && ThisRoute(q))
      && (i.reference == Some(ToStation) <==> ThisStation(q, t))
      && i.reference != Some(ToFinding) && i.reference != Some(ToTopOpportunity)
      && (i.asserted <==> AboutLoss(q, t) || RouteLoss(q, t) || (AboutDebt(q, t) && q.has(K.TOO_MUCH)))
  {
  }

  /** When an answer has to explain, to cite evidence, or to check what the question takes for granted. */
  lemma ReasonsExact(q: Question, t: AnalysisType)
    ensures var forms := IntentFor(q, t, RankingFor(q, t)).forms;
      && (PremiseCheck in forms <==> AboutLoss(q, t) || RouteLoss(q, t))
      && (Cause in forms <==> AboutLoss(q, t) || RouteLoss(q, t) || WhyStation(q, t))
      && (DrillDown in forms <==> AboutFlag(q, t) || RouteLoss(q, t) || RouteDetail(q, t) || WhyStation(q, t))
      && (EvidenceForm in forms <==> AboutFlag(q, t) || (RouteDetail(q, t) && !RouteLoss(q, t)) || WhyStation(q, t))
      && (Recommend in forms <==> t.PriorityReview?)
      && (Existence in forms <==> AboutIdle(q, t)) && (Comparison in forms <==> AboutChange(t))
  {
  }

  /** When an answer gives an amount, a state, a list in order, or a summary. */
  lemma FormsExact(q: Question, t: AnalysisType)
    ensures var r := RankingFor(q, t);
      var forms := IntentFor(q, t, r).forms;
      var plain := !AboutFlag(q, t) && !AboutIdle(q, t) && !WhyStation(q, t);
      && (Quantity in forms <==> AboutCash(q, t) || (AboutDebt(q, t) && q.has(K.HOW_MUCH)))
      && (StatusForm in forms <==>
            || (t.CompanyHealth? && !AboutLoss(q, t)) || (AboutDebt(q, t) && !q.has(K.HOW_MUCH)))
      && (RankingForm in forms <==>
            || (r.Some? && plain && !t.RoutePerformance?)
            || (t.RoutePerformance? && !RouteLoss(q, t) && !RouteDetail(q, t)))
      && (Summary in forms <==>
            || (t.CompanyHealth? && !AboutLoss(q, t))
            || (r.None? && plain && !t.CompanyHealth? && !t.RoutePerformance? && !AboutChange(t)
                && !AboutDebt(q, t) && !AboutCash(q, t)))
  {
  }

  /** Which metric an answer has to give: the one that is ranked by, or the one the words ask for. */
  lemma MetricAsked(q: Question, t: AnalysisType)
    ensures var r := RankingFor(q, t);
      var m := IntentFor(q, t, r).metric;
      && (m == Some(NetOperatingResult) <==> t.CompanyHealth?)
      && (m == Some(Metric.Loan) <==> AboutDebt(q, t)) && (m == Some(Metric.Cash) <==> AboutCash(q, t))
      && (m == Some(RunningState) <==> AboutIdle(q, t))
      && (m == Some(Metric.Population) <==> AboutChange(t) && (q.has(K.TOWN) || q.has(K.POPULATION)))
      && (AboutChange(t) ==>
            (m == Some(ProfitLastYear) <==>
               (q.has(K.PROFIT) || q.has(K.UNPROFITABLE)) && !q.has(K.TOWN) && !q.has(K.POPULATION)))
      && (m == Some(CargoTypeCoverage) <==> t.ServiceCoverage? && q.has(K.CARGO_TYPE))
      && (r.Some? && !AboutFlag(q, t) && !AboutIdle(q, t) ==> m == Some(r.value.metric))
      && (AboutFlag(q, t) ==> m == None)
  {
  }

  /** Whether an answer has to compare two snapshots. */
  lemma ComparisonExact(q: Question, t: AnalysisType)
    ensures var compares := q.has(K.CHANGED) || q.has(K.CHANGE) || q.has(K.SINCE) || q.has(K.BEFORE) || q.has(K.IMPROVING)
      || q.has(K.WORSE) || q.has(K.UNUSUAL);
      var typed := t.FleetSummary? && q.has(K.VEHICLE_TYPE);
      IntentFor(q, t, RankingFor(q, t)).comparison <==>
        AboutChange(t)
        || (compares && !t.CompanyHealth? && !AboutDebt(q, t) && !AboutCash(q, t) && !AboutFlag(q, t) && !AboutIdle(q, t)
            && !typed)
  {
  }

  /**
   * A request carries the comparison of the conversation, and a resolved reference together with the analysis it
   * continues, if there was one: by what words, to which entity, and to which finding if it was a finding.
   */
  lemma ContextCarried(q: Question, c: Option<Context>)
    requires Compile(q, c).Compiled?
    ensures var r := Compile(q, c).request;
      && r.comparisonId == (if c.Some? then c.value.comparisonId else None)
      && (r.reference.Some? <==> Referred(q, c).Some? && c.Some? && c.value.priorAnalysisId.Some?)
      && (r.reference.Some? ==>
            && Some(r.reference.value.priorAnalysisId) == c.value.priorAnalysisId
            && r.reference.value.entityId == Referred(q, c).value.id && Some(r.reference.value.kind) == ReferenceOf(q)
            && (r.reference.value.kind.ToFinding? ==>
                  |c.value.findings| == 1 && r.reference.value.findingId == Some(c.value.findings[0].id))
            && (!r.reference.value.kind.ToFinding? ==> r.reference.value.findingId == None))
  {
  }

  // ---------------------------------------------------------------- from the words to the answer

  /** The name of a metric in a finding. */
  function MetricName(m: Metric): string {
    match m
    case Cash => "cash"
    case Loan => "loan"
    case CompanyValue => "company_value"
    case Income => "income"
    case Expenses => "expenses"
    case NetOperatingResult => "net_operating_result"
    case ProfitThisYear => "profit_this_year"
    case ProfitLastYear => "profit_last_year"
    case AgeDays => "age_days"
    case RunningState => "running_state"
    case WaitingCargo => "waiting_cargo"
    case CargoPerVehicle => "cargo_per_vehicle"
    case CargoTypeCoverage => "cargo_type_coverage"
    case VehicleCount => "vehicle_count"
    case NegativeProfitVehicleCount => "negative_profit_vehicle_count"
    case VehicleTypeAggregateProfit => "vehicle_type_aggregate_profit"
    case RouteAggregateProfit => "route_aggregate_profit"
    case RouteMedianProfit => "route_median_profit"
    case RouteNegativeVehicleCount => "route_negative_vehicle_count"
    case Population => "population"
    case Production => "production"
    case OpportunityScore => "opportunity_score"
    case PriorityScore => "priority_score"
    case Materiality => "materiality"
  }

  /** The compiled request as the analysis service receives it. */
  function RequestOf(r: Inquiry, maximumFindings: nat, includeRecommendations: bool): Request {
    Request(
      r.analysisType, r.subjectType, r.subjectIds,
      if r.ranking.Some? then Some(Ranking(MetricName(r.ranking.value.metric), r.ranking.value.direction)) else None,
      r.comparisonId, maximumFindings, includeRecommendations,
      if r.intent.None? then None
      else
        var i := r.intent.value;
        Some(Intent(i.concept, if i.metric.Some? then Some(MetricName(i.metric.value)) else None, i.comparison)))
  }

  /** `v` is one of the vehicles the request asks about, and its profit of the last year is known. */
  predicate Asked(request: Request, s: Snapshot, v: Fleet) {
    && v in s.vehicles && v.owner == s.company && v.eligible && (request.subjectIds != [] ==> v.id in request.subjectIds)
    && v.lastYear.Some?
  }

  /** The request ranks the vehicles by the profit of the last year, and asks for that. */
  predicate RanksProfit(request: Request, direction: Direction) {
    && request.analysisType.VehiclePerformance? && request.ranking == Some(Ranking("profit_last_year", direction))
    && RequiredMetric(request) == Some("profit_last_year") && !Asks(request, Idle)
  }

  lemma RankedAnswer(request: Request, direction: Direction, fs: seq<Finding>, s: Snapshot) returns (v: Fleet)
    requires RanksProfit(request, direction) && SelectDecisive(request, fs, s).Some?
    requires AnalysisProofs.Faithful(s, SelectedVehicles(request, s, s.vehicles), "profit_last_year")
    ensures Asked(request, s, v) && CitesVehicle(SelectDecisive(request, fs, s).value, v.id)
    ensures forall u :: Asked(request, s, u) ==>
      if direction.Rising? then v.lastYear.value <= u.lastYear.value else v.lastYear.value >= u.lastYear.value
  {
    v := AnalysisProofs.DecisiveIsTop(request, fs, s);
    AnalysisProofs.SelectedExact(request, s, s.vehicles);
  }

  /**
   * The answer to a question for the worst vehicle, if it names a finding, cites a vehicle of least profit among all that
   * were asked about, and one for the best vehicle a vehicle of most profit.
   */
  lemma WorstVehicleAnswered(q: Question, c: Option<Context>, maximum: nat, wanted: bool, fs: seq<Finding>, s: Snapshot)
    returns (v: Fleet)
    requires Compile(q, c).Compiled? && Compile(q, c).request.analysisType.VehiclePerformance?
    requires (SaysWorst(q) || SaysBest(q)) && !FlagsVehicle(q)
    requires var request := RequestOf(Compile(q, c).request, maximum, wanted);
      SelectDecisive(request, fs, s).Some?
      && AnalysisProofs.Faithful(s, SelectedVehicles(request, s, s.vehicles), "profit_last_year")
    ensures var request := RequestOf(Compile(q, c).request, maximum, wanted);
      && Asked(request, s, v) && CitesVehicle(SelectDecisive(request, fs, s).value, v.id)
      && forall u :: Asked(request, s, u) ==>
           if SaysWorst(q) then v.lastYear.value <= u.lastYear.value else v.lastYear.value >= u.lastYear.value
  {
    RequestRanks(q, c, maximum, wanted);
    v := RankedAnswer(
      RequestOf(Compile(q, c).request, maximum, wanted), if SaysWorst(q) then Rising else Falling, fs, s);
  }

  lemma RequestRanks(q: Question, c: Option<Context>, maximum: nat, wanted: bool)
    requires Compile(q, c).Compiled? && Compile(q, c).request.analysisType.VehiclePerformance?
    requires (SaysWorst(q) || SaysBest(q)) && !FlagsVehicle(q)
    ensures RanksProfit(RequestOf(Compile(q, c).request, maximum, wanted), if SaysWorst(q) then Rising else Falling)
  {
    VehicleRanking(q, c);
    CompiledIntent(q, c);
  }

  /** A vehicle request that ranks asks for the metric it ranks by. */
  lemma CompiledIntent(q: Question, c: Option<Context>)
    requires Compile(q, c).Compiled? && Compile(q, c).request.analysisType.VehiclePerformance?
    requires (SaysWorst(q) || SaysBest(q)) && !FlagsVehicle(q)
    ensures var i := Compile(q, c).request.intent;
      i.Some? && i.value.concept == Performance && i.value.metric == Some(ProfitLastYear)
  {
    CompiledInCatalogue(q, c);
  }
}
