/** When a compiled question stays inside the catalogue, and when it does not. */
module CompilerProofs {
  import opened Texts
  import opened Analysis
  import opened Compiler
  import opened QuestionTexts
  import K = Keywords

  // ---------------------------------------------------------------- the answer metric

  /** An anomaly question that names a population, a town or a profit asks for a metric anomalies do not rank by. */
  predicate AnomalyMetric(q: Question, t: AnalysisType) {
    t.AnomalyDetection? && (q.has(K.POPULATION) || q.has(K.TOWN) || q.has(K.PROFIT) || q.has(K.UNPROFITABLE))
  }

  /** A question about idle vehicles that also ranks them asks for two metrics at once. */
  predicate IdleRanking(q: Question, t: AnalysisType) {
    && t.VehiclePerformance? && !FlagsVehicle(q) && AsksIdle(q)
    && (q.has(K.LEAST) || q.has(K.LOSING) || q.has(K.LOST) || q.has(K.WORST) || q.has(K.UNDERPERFORM) || q.has(K.BEST)
        || q.has(K.MOST_PROFITABLE))
  }

  predicate MetricFits(q: Question, t: AnalysisType) {
    var r := RankingFor(q, t);
    var m := IntentFor(q, t, r).metric;
    m.Some? ==> m.value in CapabilityFor(t).metrics && (r.Some? ==> m.value == r.value.metric)
  }

  lemma MetricExact(q: Question, t: AnalysisType)
    ensures MetricFits(q, t) <==> !AnomalyMetric(q, t) && !IdleRanking(q, t)
  {
  }

  // ---------------------------------------------------------------- requests

  predicate SubjectFits(t: AnalysisType, entity: Option<Focus>) {
    entity.Some? ==> entity.value.subject in CapabilityFor(t).subjects
  }

  lemma RequestExact(q: Question, t: AnalysisType, entity: Option<Focus>, c: Option<Context>)
    requires t.EntitySummary? ==> entity.Some?
    ensures InCatalogue(RequestFor(q, t, entity, c)) <==>
      SubjectFits(t, entity) && !AnomalyMetric(q, t) && !IdleRanking(q, t)
  {
    MetricExact(q, t);
  }

  lemma TypeNeverEntity(q: Question)
    ensures AnalysisTypeOf(q) != Some(EntitySummary)
  {
  }

  /**
   * A question without a conversational reference is rejected exactly when it reaches an analysis and is one of two
   * kinds; every request that is produced is in the catalogue.
   */
  lemma CompileExact(q: Question, c: Option<Context>)
    requires ReferenceOf(q).None?
    ensures Compile(q, c).Rejected? <==>
      Early(q).None? && AnalysisTypeOf(q).Some?
      && (AnomalyMetric(q, AnalysisTypeOf(q).value) || IdleRanking(q, AnalysisTypeOf(q).value))
    ensures Compile(q, c).Compiled? ==> InCatalogue(Compile(q, c).request)
  {
    TypeNeverEntity(q);
    if AnalysisTypeOf(q).Some? { RequestExact(q, AnalysisTypeOf(q).value, None, c); }
  }

  /**
   * With a resolved reference one more reason exists: the entity is not a subject of the analysis the words ask for.
   */
  lemma CompileResolvedExact(q: Question, c: Option<Context>)
    requires ReferenceOf(q).Some? && Early(q).None? && Resolve(ReferenceOf(q).value, c).Some?
    ensures var entity := Resolve(ReferenceOf(q).value, c);
      var t := if AnalysisTypeOf(q).Some? then AnalysisTypeOf(q).value else EntitySummary;
      && (Compile(q, c).Rejected? <==> !SubjectFits(t, entity) || AnomalyMetric(q, t) || IdleRanking(q, t))
      && (Compile(q, c).Rejected? || Compile(q, c).Compiled?)
      && (Compile(q, c).Compiled? ==>
            InCatalogue(Compile(q, c).request) && Compile(q, c).request.subjectIds == [entity.value.id]
            && Compile(q, c).request.subjectType == Some(entity.value.subject))
  {
    TypeNeverEntity(q);
    var t := if AnalysisTypeOf(q).Some? then AnalysisTypeOf(q).value else EntitySummary;
    RequestExact(q, t, Resolve(ReferenceOf(q).value, c), c);
  }

  lemma {:induction false} FocusedExact(focus: seq<Focus>, keep: Focus -> bool)
    ensures forall f :: f in Focused(focus, keep) <==> f in focus && keep(f)
  {
    if focus != [] {
      FocusedExact(focus[1..], keep);
      assert focus == [focus[0]] + focus[1..];
    }
  }

  /** A reference is resolved to an entity that was displayed, of the kind its words name. */
  lemma ResolvedIsDisplayed(kind: ReferenceKind, c: Context)
    requires Resolve(kind, Some(c)).Some?
    ensures var f := Resolve(kind, Some(c)).value;
      && f in c.focus
      && (kind.ToVehicle? ==> f.subject == Vehicle) && (kind.ToRoute? ==> f.subject == Route)
      && (kind.ToStation? ==> f.subject == Station)
      && (kind.ToFinding? ==> |c.findings| == 1 && f.id in c.findings[0].entityIds)
  {
    FocusedExact(c.focus, (f: Focus) => f.subject == Vehicle);
    FocusedExact(c.focus, (f: Focus) => f.subject == Route);
    FocusedExact(c.focus, (f: Focus) => f.subject == Station);
    if |c.findings| == 1 { FocusedExact(c.focus, (f: Focus) => f.id in c.findings[0].entityIds); }
  }

  // ---------------------------------------------------------------- two questions that are rejected

  /** A question without the words that end a compilation early, or refer to what was displayed. */
  predicate IsPlain(q: Question) { Early(q).None? && ReferenceOf(q).None? && !FlagsVehicle(q) }

  lemma PlainQuestion(q: Question, terms: set<K.Term>)
    requires Says(q, terms) && terms !! K.EARLY_TERMS
    ensures IsPlain(q)
  {
  }

  lemma RejectedQuestion(q: Question, c: Option<Context>)
    requires IsPlain(q) && AnalysisTypeOf(q).Some?
    requires AnomalyMetric(q, AnalysisTypeOf(q).value) || IdleRanking(q, AnalysisTypeOf(q).value)
    ensures Compile(q, c).Rejected?
  {
    CompileExact(q, c);
  }

  /** "Anything unusual in town?" is rejected: it asks for populations, which anomalies are not ranked by. */
  lemma UnusualTownRejected(c: Option<Context>)
    ensures Compile(Ask(UNUSUAL_TOWN), c).Rejected?
  {
    UnusualTownSays();
    UnusualTownType(Ask(UNUSUAL_TOWN));
    RejectedQuestion(Ask(UNUSUAL_TOWN), c);
  }

  lemma UnusualTownType(q: Question)
    requires Says(q, {K.UNUSUAL, K.TOWN})
    ensures IsPlain(q) && AnalysisTypeOf(q) == Some(AnomalyDetection) && AnomalyMetric(q, AnomalyDetection)
  {
    UnusualTownWords();
    PlainQuestion(q, {K.UNUSUAL, K.TOWN});
    AnomalyQuestion(q, {K.UNUSUAL, K.TOWN});
  }

  lemma UnusualTownWords()
    ensures {K.UNUSUAL, K.TOWN} !! K.EARLY_TERMS && {K.UNUSUAL, K.TOWN} !! CHANGE_TERMS
  {
  }

  const CHANGE_TERMS: set<K.Term> := {
    K.VEHICLE_TYPE, K.CHANGED, K.WHAT_CHANGED, K.IMPROVING, K.GETTING_WORSE, K.GAINED, K.BECAME_UNPROFITABLE,
    K.BECOME_UNPROFITABLE}

  lemma AnomalyQuestion(q: Question, terms: set<K.Term>)
    requires Says(q, terms) && K.UNUSUAL in terms && K.TOWN in terms && terms !! CHANGE_TERMS
    ensures AnalysisTypeOf(q) == Some(AnomalyDetection) && AnomalyMetric(q, AnomalyDetection)
  {
  }

  /** "Worst idle vehicle" is rejected: it asks for the running state, but ranks by profit. */
  lemma WorstIdleRejected(c: Option<Context>)
    ensures Compile(Ask(WORST_IDLE), c).Rejected?
  {
    WorstIdleSays();
    WorstIdleType(Ask(WORST_IDLE));
    RejectedQuestion(Ask(WORST_IDLE), c);
  }

  lemma WorstIdleType(q: Question)
    requires Says(q, {K.VEHICLE, K.WORST, K.IDLE})
    ensures IsPlain(q) && AnalysisTypeOf(q) == Some(VehiclePerformance) && IdleRanking(q, VehiclePerformance)
  {
    WorstIdleWords();
    PlainQuestion(q, {K.VEHICLE, K.WORST, K.IDLE});
    VehicleQuestion(q, {K.VEHICLE, K.WORST, K.IDLE});
  }

  lemma WorstIdleWords()
    ensures {K.VEHICLE, K.WORST, K.IDLE} !! K.EARLY_TERMS && {K.VEHICLE, K.WORST, K.IDLE} !! K.ANALYSIS_TERMS
  {
  }

  lemma LateQuestion(q: Question, terms: set<K.Term>)
    requires Says(q, terms) && terms !! K.ANALYSIS_TERMS
    ensures AnalysisTypeOf(q) == LastRules(q)
  {
  }

  lemma VehicleQuestion(q: Question, terms: set<K.Term>)
    requires Says(q, terms) && K.VEHICLE in terms && terms !! K.ANALYSIS_TERMS
    ensures AnalysisTypeOf(q) == Some(VehiclePerformance)
  {
    LateQuestion(q, terms);
  }

  // ---------------------------------------------------------------- provider compilations

  /** `_required_analysis_type`. */
  function RequiredType(q: Question): Option<AnalysisType> {
    if q.has(K.LOSING_MONEY) then Some(CompanyHealth)
    else if q.has(K.DEBT) || q.has(K.CASH) then Some(FinancialSummary)
    else if q.has(K.IMPROVING) || q.has(K.GETTING_WORSE) then Some(WorldChanges)
    else None
  }

  /** The parts of an intent a provider must get right. */
  predicate SameMeaning(a: AnswerIntent, b: AnswerIntent) {
    && a.concept == b.concept && a.kind == b.kind && a.forms == b.forms && a.metric == b.metric && a.period == b.period
    && a.premise == b.premise && a.comparison == b.comparison && a.reference == b.reference
  }

  /**
   * `normalize_provider_compilation` on a request whose question reads `f` once its case is folded; `None` is its
   * rejection. The compiler reads the question in lower case instead, which can find other terms.
   */
  function Normalize(f: Question, r: Inquiry): Option<Inquiry> {
    var inferred := IntentFor(f, r.analysisType, r.ranking);
    var filled := r.(intent := Some(inferred));
    if r.intent.Some? && !SameMeaning(r.intent.value, inferred) then None
    else if RequiredType(f).Some? && RequiredType(f).value != r.analysisType then None
    else if InCatalogue(filled) then Some(filled) else None
  }

  /** What is let through is in the catalogue, carries the inferred intent, and is let through again unchanged. */
  lemma NormalizeSettles(f: Question, r: Inquiry)
    requires Normalize(f, r).Some?
    ensures var n := Normalize(f, r).value;
      && InCatalogue(n) && n.intent == Some(IntentFor(f, n.analysisType, n.ranking))
      && n == r.(intent := n.intent) && Normalize(f, n) == Some(n)
  {
  }

  /** The words the compiler acted on mean the same when the case is folded, and require no other analysis. */
  predicate Confirms(f: Question, q: Question, r: Inquiry) {
    && SameMeaning(IntentFor(q, r.analysisType, r.ranking), IntentFor(f, r.analysisType, r.ranking))
    && (RequiredType(f).None? || RequiredType(f).value == r.analysisType)
  }

  /**
   * The deterministic compiler's own request for `q` passes the check made of a provider's exactly when the folded
   * question `f` gives the intent the same meaning and requires no other analysis; the catalogue never objects. A
   * question in which both readings find the same terms passes unless its words require another analysis.
   */
  lemma CompiledNormalizes(q: Question, f: Question, c: Option<Context>)
    requires Compile(q, c).Compiled?
    ensures var r := Compile(q, c).request;
      var n := Normalize(f, r);
      && (n.Some? <==> Confirms(f, q, r))
      && (n.Some? ==> n.value == r.(intent := Some(IntentFor(f, r.analysisType, r.ranking))))
      && (f == q ==> n == if RequiredType(q).None? || RequiredType(q).value == r.analysisType then Some(r) else None)
  {
    CompiledInCatalogue(q, c);
  }

  lemma CompiledInCatalogue(q: Question, c: Option<Context>)
    requires Compile(q, c).Compiled?
    ensures var r := Compile(q, c).request;
      InCatalogue(r) && r.intent == Some(IntentFor(q, r.analysisType, r.ranking))
  {
  }

  lemma CompiledQuestion(q: Question, c: Option<Context>)
    requires IsPlain(q) && AnalysisTypeOf(q).Some?
    requires !AnomalyMetric(q, AnalysisTypeOf(q).value) && !IdleRanking(q, AnalysisTypeOf(q).value)
    ensures Compile(q, c).Compiled? && Compile(q, c).request.analysisType == AnalysisTypeOf(q).value
  {
    CompileExact(q, c);
  }

  /** "Which vehicles are losing money?" is compiled, and would be rejected from a provider. */
  lemma LosingVehiclesDiffer(c: Option<Context>)
    ensures var q := Ask(LOSING_VEHICLES);
      Compile(q, c).Compiled? && Normalize(q, Compile(q, c).request).None?
  {
    LosingVehiclesSays();
    LosingVehiclesType(Ask(LOSING_VEHICLES));
    CompiledQuestion(Ask(LOSING_VEHICLES), c);
    CompiledNormalizes(Ask(LOSING_VEHICLES), Ask(LOSING_VEHICLES), c);
  }

  lemma LosingVehiclesType(q: Question)
    requires Says(q, {K.VEHICLE, K.LOSING_MONEY, K.LOSING})
    ensures IsPlain(q) && AnalysisTypeOf(q) == Some(VehiclePerformance) && !IdleRanking(q, VehiclePerformance)
    ensures RequiredType(q) == Some(CompanyHealth)
  {
    LosingVehiclesWords();
    PlainQuestion(q, {K.VEHICLE, K.LOSING_MONEY, K.LOSING});
    VehicleQuestion(q, {K.VEHICLE, K.LOSING_MONEY, K.LOSING});
    ActiveQuestion(q, {K.VEHICLE, K.LOSING_MONEY, K.LOSING});
  }

  lemma LosingVehiclesWords()
    ensures {K.VEHICLE, K.LOSING_MONEY, K.LOSING} !! K.EARLY_TERMS
    ensures {K.VEHICLE, K.LOSING_MONEY, K.LOSING} !! K.ANALYSIS_TERMS
    ensures {K.VEHICLE, K.LOSING_MONEY, K.LOSING} !! {K.IDLE, K.SITTING}
  {
  }

  lemma ActiveQuestion(q: Question, terms: set<K.Term>)
    requires Says(q, terms) && K.LOSING_MONEY in terms && terms !! {K.IDLE, K.SITTING}
    ensures !AsksIdle(q) && RequiredType(q) == Some(CompanyHealth)
  {
  }

  /**
   * In lower case "Health lo\U{00DF}" is a question about health; with its case folded it is "health loss", a question
   * about a loss. The compiled request is rejected, although no word requires another analysis.
   */
  lemma HealthLossDiffers(c: Option<Context>)
    ensures Compile(Ask(HEALTH_SHARP_S), c).Compiled? && RequiredType(Ask(HEALTH_LOSS)).None?
    ensures Normalize(Ask(HEALTH_LOSS), Compile(Ask(HEALTH_SHARP_S), c).request).None?
  {
    HealthSharpSays();
    HealthSharpType(Ask(HEALTH_SHARP_S));
    CompiledQuestion(Ask(HEALTH_SHARP_S), c);
    HealthLossFound();
    LossContradicts(Ask(HEALTH_SHARP_S), Ask(HEALTH_LOSS), c);
  }

  lemma HealthSharpType(q: Question)
    requires Says(q, {K.HEALTH})
    ensures IsPlain(q) && AnalysisTypeOf(q) == Some(CompanyHealth) && !q.has(K.LOSING_MONEY) && !q.has(K.LOSS)
  {
    HealthWords();
    PlainQuestion(q, {K.HEALTH});
    LateQuestion(q, {K.HEALTH});
    HealthQuestion(q, {K.HEALTH});
  }

  const MONEY_TERMS: set<K.Term> := {
    K.VEHICLE, K.TRAIN, K.TRUCK, K.BUS, K.SHIP, K.AIRCRAFT, K.PLANE, K.FLEET, K.CONCENTRATED, K.DEBT, K.CASH,
    K.FINANCIAL_SUMMARY, K.FINANCES, K.LOSING_MONEY, K.LOSS}

  lemma HealthWords()
    ensures {K.HEALTH} !! K.EARLY_TERMS && {K.HEALTH} !! K.ANALYSIS_TERMS && {K.HEALTH} !! MONEY_TERMS
  {
  }

  lemma HealthQuestion(q: Question, terms: set<K.Term>)
    requires Says(q, terms) && K.HEALTH in terms && terms !! MONEY_TERMS
    ensures LastRules(q) == Some(CompanyHealth) && !q.has(K.LOSING_MONEY) && !q.has(K.LOSS)
  {
  }

  lemma LossContradicts(q: Question, f: Question, c: Option<Context>)
    requires Compile(q, c).Compiled? && Compile(q, c).request.analysisType == CompanyHealth
    requires !q.has(K.LOSING_MONEY) && !q.has(K.LOSS) && f.has(K.LOSS)
    ensures Normalize(f, Compile(q, c).request).None?
  {
    CompiledInCatalogue(q, c);
  }
}
