/** The call budget of a product evaluation and the loop over its cases. */
module Budget {
  import opened Texts

  datatype Configuration = Configuration(
    maxIterations: nat, maxCompiler: nat, maxDecision: nat, maxTotal: nat, stopOnUsageLimit: bool)

  datatype Counters = Counters(compiler: nat, decision: nat)

  datatype Limit = TimeUp | CompilerLimit | DecisionLimit | TotalLimit

  function Total(c: Counters): nat { c.compiler + c.decision }

  /** `before_compiler`; `late` says that the wall-clock limit has passed. */
  function BeforeCompiler(f: Configuration, c: Counters, late: bool): (Counters, Option<Limit>) {
    if late then (c, Some(TimeUp))
    else if c.compiler >= f.maxCompiler then (c, Some(CompilerLimit))
    else if Total(c) >= f.maxTotal then (c, Some(TotalLimit))
    else (c.(compiler := c.compiler + 1), None)
  }

  /** `before_decision`. */
  function BeforeDecision(f: Configuration, c: Counters, late: bool): (Counters, Option<Limit>) {
    if late then (c, Some(TimeUp))
    else if c.decision >= f.maxDecision then (c, Some(DecisionLimit))
    else if Total(c) >= f.maxTotal then (c, Some(TotalLimit))
    else (c.(decision := c.decision + 1), None)
  }

  /**
   * A case as the world plays it: whether it may run the runtime, whether its result is already stored, whether the
   * compiler is called and finds the time up, which decisions the runtime would ask for (with the time up or not), and
   * whether its failure reports a usage limit.
   */
  datatype Case = Case(runRuntime: bool, stored: bool, compiles: bool, late: bool, decisions: seq<bool>, exhausted: bool)

  /** One compiler call at most, and decisions only in a case that may run the runtime, up to the iteration limit. */
  predicate Behaves(f: Configuration, c: Case) { |c.decisions| <= f.maxIterations && (c.decisions != [] ==> c.runRuntime) }

  datatype Outcome = Outcome(counters: Counters, limits: seq<Limit>)

  function Decide(f: Configuration, c: Counters, decisions: seq<bool>): Outcome
    decreases |decisions|
  {
    if decisions == [] then Outcome(c, [])
    else
      var (next, error) := BeforeDecision(f, c, decisions[0]);
      if error.Some? then Outcome(next, [error.value]) else Decide(f, next, decisions[1..])
  }

  /** `_evaluate_case`: the first limit ends the case. */
  function Evaluate(f: Configuration, c: Counters, case_: Case): Outcome {
    if !case_.compiles then Decide(f, c, case_.decisions)
    else
      var (next, error) := BeforeCompiler(f, c, case_.late);
      if error.Some? then Outcome(next, [error.value]) else Decide(f, next, case_.decisions)
  }

  /** The case loop: stored results are taken over unless forced, and a usage limit can end the run. */
  function Run(f: Configuration, c: Counters, cases: seq<Case>, force: bool): Outcome
    decreases |cases|
  {
    if cases == [] then Outcome(c, [])
    else if cases[0].stored && !force then Run(f, c, cases[1..], force)
    else
      var r := Evaluate(f, c, cases[0]);
      if f.stopOnUsageLimit && cases[0].exhausted then r
      else
        var rest := Run(f, r.counters, cases[1..], force);
        Outcome(rest.counters, r.limits + rest.limits)
  }

  // ---------------------------------------------------------------- preflight

  function DecisionsNeeded(f: Configuration, cases: seq<Case>): nat {
    if cases == [] then 0 else (if cases[0].runRuntime then f.maxIterations else 0) + DecisionsNeeded(f, cases[1..])
  }

  predicate Preflight(f: Configuration, cases: seq<Case>) {
    && |cases| <= f.maxCompiler && DecisionsNeeded(f, cases) <= f.maxDecision
    && |cases| + DecisionsNeeded(f, cases) <= f.maxTotal
  }

  predicate Within(f: Configuration, c: Counters) {
    c.compiler <= f.maxCompiler && c.decision <= f.maxDecision && Total(c) <= f.maxTotal
  }

  // ---------------------------------------------------------------- any calls at all

  /** A call the evaluation asks for, and whether the time is up by then. */
  datatype Call = CompilerCall(late: bool) | DecisionCall(late: bool)

  function Ask(f: Configuration, c: Counters, call: Call): (Counters, Option<Limit>) {
    if call.CompilerCall? then BeforeCompiler(f, c, call.late) else BeforeDecision(f, c, call.late)
  }

  /** The counters and the refusals after these calls; a refused call is not made, and others may still follow. */
  function Spend(f: Configuration, c: Counters, calls: seq<Call>): (Counters, seq<Limit>) {
    if calls == [] then (c, [])
    else
      var (before, refusals) := Spend(f, c, calls[..|calls| - 1]);
      var (after, error) := Ask(f, before, calls[|calls| - 1]);
      (after, if error.Some? then refusals + [error.value] else refusals)
  }

  predicate Exhausted(f: Configuration, c: Counters, limit: Limit) {
    match limit
    case TimeUp => true
    case CompilerLimit => c.compiler == f.maxCompiler
    case DecisionLimit => c.decision == f.maxDecision
    case TotalLimit => Total(c) == f.maxTotal
  }

  /**
   * Whatever calls are asked for, in whatever order: the counters never pass their limits, every call is either counted
   * or refused, and a refusal other than for the time means that its limit is reached, then and ever after.
   */
  lemma {:induction false} CallsWithin(f: Configuration, c: Counters, calls: seq<Call>)
    requires Within(f, c)
    ensures var (d, refusals) := Spend(f, c, calls);
      && Within(f, d) && c.compiler <= d.compiler && c.decision <= d.decision
      && Total(d) + |refusals| == Total(c) + |calls|
      && forall i :: 0 <= i < |refusals| ==> Exhausted(f, d, refusals[i])
  {
    if calls != [] {
      CallsWithin(f, c, calls[..|calls| - 1]);
    }
  }

  /** The calls that were asked for before the time was up. */
  function InTimeOnly(calls: seq<Call>): seq<Call> {
    if calls == [] then []
    else
      var last := calls[|calls| - 1];
      InTimeOnly(calls[..|calls| - 1]) + (if last.late then [] else [last])
  }

  function TimeUps(limits: seq<Limit>): nat {
    if limits == [] then 0
    else TimeUps(limits[..|limits| - 1]) + (if limits[|limits| - 1].TimeUp? then 1 else 0)
  }

  /**
   * No call asked for after the time is up is counted: the counters are those of the other calls alone, and exactly the
   * late calls are refused for the time.
   */
  lemma {:induction false} LateCallsRefused(f: Configuration, c: Counters, calls: seq<Call>)
    ensures Spend(f, c, calls).0 == Spend(f, c, InTimeOnly(calls)).0
    ensures TimeUps(Spend(f, c, calls).1) == |calls| - |InTimeOnly(calls)|
  {
    if calls != [] {
      var before, last := calls[..|calls| - 1], calls[|calls| - 1];
      LateCallsRefused(f, c, before);
      var refusals := Spend(f, c, before).1;
      var error := Ask(f, Spend(f, c, before).0, last).1;
      if error.Some? { assert (refusals + [error.value])[..|refusals|] == refusals; }
      if last.late {
        assert InTimeOnly(calls) == InTimeOnly(before);
      } else {
        assert InTimeOnly(calls)[..|InTimeOnly(before)|] == InTimeOnly(before);
      }
    }
  }

  /** Every call of the case comes after the time is up. */
  predicate TooLate(c: Case) { (c.compiles ==> c.late) && forall i :: 0 <= i < |c.decisions| ==> c.decisions[i] }

  /** Once the time is up the case loop counts nothing more, and refuses each case for the time. */
  lemma {:induction false} LateRunCountsNothing(f: Configuration, c: Counters, cases: seq<Case>, force: bool)
    requires forall i :: 0 <= i < |cases| ==> TooLate(cases[i])
    ensures Run(f, c, cases, force).counters == c && OnlyTime(Run(f, c, cases, force).limits)
    decreases |cases|
  {
    if cases != [] {
      assert TooLate(cases[0]);
      if !cases[0].stored || force { LateCase(f, c, cases[0]); }
      LateRunCountsNothing(f, c, cases[1..], force);
    }
  }

  lemma LateCase(f: Configuration, c: Counters, case_: Case)
    requires TooLate(case_)
    ensures Evaluate(f, c, case_).counters == c && OnlyTime(Evaluate(f, c, case_).limits)
  {
    if !case_.compiles && case_.decisions != [] { assert case_.decisions[0]; }
  }

  predicate OnlyTime(limits: seq<Limit>) { forall i :: 0 <= i < |limits| ==> limits[i].TimeUp? }

  predicate Timely(decisions: seq<bool>) { forall i :: 0 <= i < |decisions| ==> !decisions[i] }
  predicate InTime(c: Case) { !c.late && Timely(c.decisions) }

  lemma {:induction false} DecideWithin(f: Configuration, c: Counters, decisions: seq<bool>)
    requires Within(f, c)
    ensures Within(f, Decide(f, c, decisions).counters)
    decreases |decisions|
  {
    if decisions != [] && BeforeDecision(f, c, decisions[0]).1.None? {
      DecideWithin(f, BeforeDecision(f, c, decisions[0]).0, decisions[1..]);
    }
  }

  lemma EvaluateWithin(f: Configuration, c: Counters, case_: Case)
    requires Within(f, c)
    ensures Within(f, Evaluate(f, c, case_).counters)
  {
    if !case_.compiles {
      DecideWithin(f, c, case_.decisions);
    } else if BeforeCompiler(f, c, case_.late).1.None? {
      DecideWithin(f, BeforeCompiler(f, c, case_.late).0, case_.decisions);
    }
  }

  /** The case loop keeps the counters within their limits. */
  lemma {:induction false} RunWithin(f: Configuration, c: Counters, cases: seq<Case>, force: bool)
    requires Within(f, c)
    ensures Within(f, Run(f, c, cases, force).counters)
    decreases |cases|
  {
    if cases != [] {
      if !cases[0].stored || force {
        EvaluateWithin(f, c, cases[0]);
        RunWithin(f, Evaluate(f, c, cases[0]).counters, cases[1..], force);
      } else {
        RunWithin(f, c, cases[1..], force);
      }
    }
  }

  /** There is room for so many more calls of each kind. */
  predicate Room(f: Configuration, c: Counters, compiler: nat, decision: nat) {
    && c.compiler + compiler <= f.maxCompiler && c.decision + decision <= f.maxDecision
    && Total(c) + compiler + decision <= f.maxTotal
  }

  lemma {:induction false} DecideRoom(f: Configuration, c: Counters, decisions: seq<bool>, compiler: nat, decision: nat)
    requires Room(f, c, compiler, |decisions| + decision)
    ensures var r := Decide(f, c, decisions);
      OnlyTime(r.limits) && Room(f, r.counters, compiler, decision) && (Timely(decisions) ==> r.limits == [])
    decreases |decisions|
  {
    if decisions != [] && BeforeDecision(f, c, decisions[0]).1.None? {
      DecideRoom(f, BeforeDecision(f, c, decisions[0]).0, decisions[1..], compiler, decision);
    }
  }

  lemma EvaluateRoom(f: Configuration, c: Counters, case_: Case, compiler: nat, decision: nat)
    requires Behaves(f, case_)
    requires Room(f, c, 1 + compiler, (if case_.runRuntime then f.maxIterations else 0) + decision)
    ensures var r := Evaluate(f, c, case_);
      OnlyTime(r.limits) && Room(f, r.counters, compiler, decision) && (InTime(case_) ==> r.limits == [])
  {
    if !case_.compiles {
      DecideRoom(f, c, case_.decisions, compiler, decision);
    } else if BeforeCompiler(f, c, case_.late).1.None? {
      DecideRoom(f, BeforeCompiler(f, c, case_.late).0, case_.decisions, compiler, decision);
    }
  }

  lemma {:induction false} RunRoom(f: Configuration, c: Counters, cases: seq<Case>, force: bool)
    requires forall i :: 0 <= i < |cases| ==> Behaves(f, cases[i])
    requires Room(f, c, |cases|, DecisionsNeeded(f, cases))
    ensures OnlyTime(Run(f, c, cases, force).limits)
    ensures (forall i :: 0 <= i < |cases| ==> InTime(cases[i])) ==> Run(f, c, cases, force).limits == []
    decreases |cases|
  {
    if cases != [] {
      if !cases[0].stored || force {
        EvaluateRoom(f, c, cases[0], |cases| - 1, DecisionsNeeded(f, cases[1..]));
        RunRoom(f, Evaluate(f, c, cases[0]).counters, cases[1..], force);
      } else {
        RunRoom(f, c, cases[1..], force);
      }
    }
  }

  /** If preflight passes, no call-count limit is ever met in the whole run, resumed cases included. */
  lemma PreflightSuffices(f: Configuration, cases: seq<Case>, force: bool)
    requires Preflight(f, cases) && forall i :: 0 <= i < |cases| ==> Behaves(f, cases[i])
    ensures OnlyTime(Run(f, Counters(0, 0), cases, force).limits)
  {
    RunRoom(f, Counters(0, 0), cases, force);
  }

  // ---------------------------------------------------------------- preflight asks no more than it must

  /** The case that uses everything it may, in time. */
  function Greedy(f: Configuration, runRuntime: bool): Case {
    Case(runRuntime, false, true, false, if runRuntime then seq(f.maxIterations, i => false) else [], false)
  }

  predicate AllGreedy(f: Configuration, cases: seq<Case>) {
    forall i :: 0 <= i < |cases| ==> cases[i] == Greedy(f, cases[i].runRuntime)
  }

  lemma {:induction false} DecideAll(f: Configuration, c: Counters, decisions: seq<bool>)
    requires Decide(f, c, decisions).limits == []
    ensures Decide(f, c, decisions).counters == c.(decision := c.decision + |decisions|)
    decreases |decisions|
  {
    if decisions != [] { DecideAll(f, BeforeDecision(f, c, decisions[0]).0, decisions[1..]); }
  }

  lemma {:induction false} RunAll(f: Configuration, c: Counters, cases: seq<Case>)
    requires AllGreedy(f, cases) && Run(f, c, cases, false).limits == []
    ensures Run(f, c, cases, false).counters ==
      Counters(c.compiler + |cases|, c.decision + DecisionsNeeded(f, cases))
    decreases |cases|
  {
    if cases != [] {
      assert cases[0] == Greedy(f, cases[0].runRuntime);
      var r := Evaluate(f, c, cases[0]);
      assert r.limits == [] && Run(f, r.counters, cases[1..], false).limits == [];
      DecideAll(f, BeforeCompiler(f, c, false).0, cases[0].decisions);
      RunAll(f, r.counters, cases[1..]);
    }
  }

  lemma GreedyBehaves(f: Configuration, cases: seq<Case>)
    requires AllGreedy(f, cases)
    ensures forall i :: 0 <= i < |cases| ==> Behaves(f, cases[i]) && InTime(cases[i])
  {
    forall i | 0 <= i < |cases| ensures Behaves(f, cases[i]) && InTime(cases[i]) {
      assert cases[i] == Greedy(f, cases[i].runRuntime);
    }
  }

  /** For cases that use everything they may, preflight passes exactly when the run meets no limit. */
  lemma PreflightExact(f: Configuration, cases: seq<Case>)
    requires AllGreedy(f, cases)
    ensures Preflight(f, cases) <==> Run(f, Counters(0, 0), cases, false).limits == []
  {
    var r := Run(f, Counters(0, 0), cases, false);
    if Preflight(f, cases) {
      GreedyBehaves(f, cases);
      RunRoom(f, Counters(0, 0), cases, false);
    }
    if r.limits == [] {
      RunAll(f, Counters(0, 0), cases);
      RunWithin(f, Counters(0, 0), cases, false);
    }
  }

  // ---------------------------------------------------------------- the budget as it runs

  class EvaluationBudget {
    const configuration: Configuration
    var compilerCalls: nat
    var decisionCalls: nat

    function View(): Counters
      reads this
    {
      Counters(compilerCalls, decisionCalls)
    }

    constructor (configuration: Configuration)
      ensures this.configuration == configuration && View() == Counters(0, 0)
    {
      this.configuration := configuration;
      compilerCalls, decisionCalls := 0, 0;
    }

    method SpendCompiler(late: bool) returns (error: Option<Limit>)
      modifies this
      ensures (View(), error) == BeforeCompiler(configuration, old(View()), late)
      ensures Within(configuration, old(View())) ==> Within(configuration, View())
    {
      if late { return Some(TimeUp); }
      if compilerCalls >= configuration.maxCompiler { return Some(CompilerLimit); }
      if compilerCalls + decisionCalls >= configuration.maxTotal { return Some(TotalLimit); }
      compilerCalls := compilerCalls + 1;
      return None;
    }

    method SpendDecision(late: bool) returns (error: Option<Limit>)
      modifies this
      ensures (View(), error) == BeforeDecision(configuration, old(View()), late)
      ensures Within(configuration, old(View())) ==> Within(configuration, View())
    {
      if late { return Some(TimeUp); }
      if decisionCalls >= configuration.maxDecision { return Some(DecisionLimit); }
      if compilerCalls + decisionCalls >= configuration.maxTotal { return Some(TotalLimit); }
      decisionCalls := decisionCalls + 1;
      return None;
    }

    /** The calls of one case, each counted before it is made. */
    method EvaluateCase(case_: Case) returns (limits: seq<Limit>)
      modifies this
      ensures Outcome(View(), limits) == Evaluate(configuration, old(View()), case_)
    {
      if case_.compiles {
        var error := SpendCompiler(case_.late);
        if error.Some? { return [error.value]; }
      }
      var i := 0;
      while i < |case_.decisions|
        invariant 0 <= i <= |case_.decisions|
        invariant Decide(configuration, View(), case_.decisions[i..]) == Evaluate(configuration, old(View()), case_)
      {
        assert case_.decisions[i..][1..] == case_.decisions[i + 1..];
        var error := SpendDecision(case_.decisions[i]);
        if error.Some? { return [error.value]; }
        i := i + 1;
      }
      return [];
    }

    /** The case loop of `run_product_evaluation`. */
    method RunCases(cases: seq<Case>, force: bool) returns (limits: seq<Limit>)
      modifies this
      ensures Outcome(View(), limits) == Run(configuration, old(View()), cases, force)
    {
      limits := [];
      ghost var whole := Run(configuration, View(), cases, force);
      var i := 0;
      while i < |cases|
        invariant 0 <= i <= |cases|
        invariant var rest := Run(configuration, View(), cases[i..], force);
          whole == Outcome(rest.counters, limits + rest.limits)
      {
        assert cases[i..][1..] == cases[i + 1..];
        if !cases[i].stored || force {
          var met := EvaluateCase(cases[i]);
          limits := limits + met;
          if configuration.stopOnUsageLimit && cases[i].exhausted { return; }
        }
        i := i + 1;
      }
    }
  }
}
