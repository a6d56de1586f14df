/** The words and phrases the deterministic compiler looks for in a normalized question. */
module Keywords {
  type Term = string

  // Words that end a compilation early, and references to what was displayed.
  const TEN_YEARS: Term := "ten years"
  const WILL_BE_PROFITABLE: Term := "will be profitable"
  const FUTURE_PROFIT: Term := "future profit"
  const CRASH: Term := "crash"
  const WHY: Term := "why"
  const FIX: Term := "fix "
  const BUILD: Term := "build "
  const BUY: Term := "buy "
  const CHANGE_ORDERS: Term := "change orders"
  const WHICH_ROUTE_IS_BAD: Term := "which route is bad"
  const THAT_VEHICLE: Term := "that vehicle"
  const THIS_VEHICLE: Term := "this vehicle"
  const THAT_ROUTE: Term := "that route"
  const THIS_ROUTE: Term := "this route"
  const THAT_STATION: Term := "that station"
  const THIS_STATION: Term := "this station"
  const THAT_FINDING: Term := "that finding"
  const THIS_FINDING: Term := "this finding"
  const THE_TOP_OPPORTUNITY: Term := "the top opportunity"
  const EARLY_TERMS: set<Term> := {
    TEN_YEARS, WILL_BE_PROFITABLE, FUTURE_PROFIT, CRASH, WHY, FIX, BUILD, BUY, CHANGE_ORDERS, WHICH_ROUTE_IS_BAD,
    THAT_VEHICLE, THIS_VEHICLE, THAT_ROUTE, THIS_ROUTE, THAT_STATION, THIS_STATION, THAT_FINDING, THIS_FINDING,
    THE_TOP_OPPORTUNITY}

  // Words that choose an analysis, up to the infrastructure.
  const VEHICLE_TYPE: Term := "vehicle type"
  const DRAGGING: Term := "dragging"
  const LOSES: Term := "loses"
  const LOSS: Term := "loss"
  const LEAST_PROFITABLE: Term := "least profitable"
  const CHANGED: Term := "changed"
  const WHAT_CHANGED: Term := "what changed"
  const IMPROVING: Term := "improving"
  const GETTING_WORSE: Term := "getting worse"
  const GAINED: Term := "gained"
  const BECAME_UNPROFITABLE: Term := "became unprofitable"
  const BECOME_UNPROFITABLE: Term := "become unprofitable"
  const UNUSUAL: Term := "unusual"
  const ANOMAL: Term := "anomal"
  const PAY_ATTENTION: Term := "pay attention"
  const INSPECT_FIRST: Term := "inspect first"
  const WHAT_NEXT: Term := "what next"
  const PRIORITY: Term := "priority"
  const STATION: Term := "station"
  const WAITING_CARGO: Term := "waiting cargo"
  const CAPACITY: Term := "capacity"
  const ROUTE: Term := "route"
  const INDUSTRY: Term := "industry"
  const TOWN: Term := "town"
  const COVERAGE: Term := "coverage"
  const CARGO_TYPES_ARE_MISSING: Term := "cargo types are missing"
  const SERVICE_OPPORTUNITY: Term := "service opportunity"
  const ANALYSIS_TERMS: set<Term> := {
    VEHICLE_TYPE, DRAGGING, LOSES, LOSS, LEAST_PROFITABLE, CHANGED, WHAT_CHANGED, IMPROVING, GETTING_WORSE, GAINED,
    BECAME_UNPROFITABLE, BECOME_UNPROFITABLE, UNUSUAL, ANOMAL, PAY_ATTENTION, INSPECT_FIRST, WHAT_NEXT, PRIORITY,
    STATION, WAITING_CARGO, CAPACITY, ROUTE, INDUSTRY, TOWN, COVERAGE, CARGO_TYPES_ARE_MISSING, SERVICE_OPPORTUNITY}

  // Words for vehicles, money and health.
  const VEHICLE: Term := "vehicle"
  const TRAIN: Term := "train"
  const TRUCK: Term := "truck"
  const BUS: Term := "bus"
  const SHIP: Term := "ship"
  const AIRCRAFT: Term := "aircraft"
  const PLANE: Term := "plane"
  const FLEET: Term := "fleet"
  const CONCENTRATED: Term := "concentrated"
  const DEBT: Term := "debt"
  const CASH: Term := "cash"
  const FINANCIAL_SUMMARY: Term := "financial summary"
  const FINANCES: Term := "finances"
  const LOSING_MONEY: Term := "losing money"
  const COMPANY_HEALTH: Term := "company health"
  const HEALTHY_IS: Term := "healthy is"
  const HEALTH: Term := "health"
  const RAIL: Term := "rail"
  const ROAD: Term := "road"
  const SUBJECT_TERMS: set<Term> := {
    VEHICLE, TRAIN, TRUCK, BUS, SHIP, AIRCRAFT, PLANE, FLEET, CONCENTRATED, DEBT, CASH, FINANCIAL_SUMMARY, FINANCES,
    LOSING_MONEY, COMPANY_HEALTH, HEALTHY_IS, HEALTH, RAIL, ROAD}

  // Words that rank, compare or qualify.
  const LEAST: Term := "least"
  const LOSING: Term := "losing"
  const LOST: Term := "lost"
  const WORST: Term := "worst"
  const UNDERPERFORM: Term := "underperform"
  const BEST: Term := "best"
  const MOST_PROFITABLE: Term := "most profitable"
  const MOST: Term := "most"
  const LOSING_VEHICLES: Term := "losing vehicles"
  const BAD: Term := "bad"
  const MOST_MONEY: Term := "most money"
  const COMPANY: Term := "company"
  const CHANGE: Term := "change"
  const SINCE: Term := "since"
  const BEFORE: Term := "before"
  const WORSE: Term := "worse"
  const LOAN: Term := "loan"
  const HOW_MUCH: Term := "how much"
  const TOO_MUCH: Term := "too much"
  const POPULATION: Term := "population"
  const PROFIT: Term := "profit"
  const UNPROFITABLE: Term := "unprofitable"
  const FLAG: Term := "flag"
  const IDLE: Term := "idle"
  const SITTING: Term := "sitting"
  const CONTRIBUTE: Term := "contribute"
  const CARGO_TYPE: Term := "cargo type"
  const WHAT_MAKES: Term := "what makes"
  const QUALIFYING_TERMS: set<Term> := {
    LEAST, LOSING, LOST, WORST, UNDERPERFORM, BEST, MOST_PROFITABLE, MOST, LOSING_VEHICLES, BAD, MOST_MONEY, COMPANY,
    CHANGE, SINCE, BEFORE, WORSE, LOAN, HOW_MUCH, TOO_MUCH, POPULATION, PROFIT, UNPROFITABLE, FLAG, IDLE, SITTING,
    CONTRIBUTE, CARGO_TYPE, WHAT_MAKES}

  const VOCABULARY: set<Term> := EARLY_TERMS + ANALYSIS_TERMS + SUBJECT_TERMS + QUALIFYING_TERMS

  predicate At(text: string, term: Term, i: nat) { i + |term| <= |text| && text[i..i + |term|] == term }

  /** `term in text`. */
  predicate Contains(text: string, term: Term) { exists i: nat :: i <= |text| && At(text, term, i) }

  /** What the compiler can find in a text. */
  function Found(text: string): Term -> bool { t => Contains(text, t) }

  lemma Occurs(text: string, term: Term, i: nat)
    requires i + |term| <= |text| && forall j :: 0 <= j < |term| ==> text[i + j] == term[j]
    ensures Contains(text, term)
  {
    assert text[i..i + |term|] == term;
    assert At(text, term, i);
  }

  /** The letters of a term that is found are in the text, as far apart as in the term. */
  lemma Letters(text: string, term: Term) returns (i: nat)
    requires Contains(text, term)
    ensures i + |term| <= |text| && forall j :: 0 <= j < |term| ==> text[i + j] == term[j]
  {
    i :| i <= |text| && At(text, term, i);
    forall j | 0 <= j < |term| ensures text[i + j] == term[j] {
      assert text[i..i + |term|][j] == text[i + j];
    }
  }

  lemma Place(text: string, term: Term, j: nat, k: nat) returns (i: nat)
    requires Contains(text, term) && j < k < |term|
    ensures i + (k - j) < |text| && text[i] == term[j] && text[i + (k - j)] == term[k]
  {
    i := Letters(text, term);
    assert text[i + j] == term[j] && text[i + k] == term[k];
    i := i + j;
  }

  lemma MissingLetter(text: string, term: Term, letter: char)
    requires letter in term && letter !in text
    ensures !Contains(text, term)
  {
    if Contains(text, term) {
      var _ := Letters(text, term);
      assert false;
    }
  }

  /** Letters that follow each other in the text are listed. */
  predicate Within(text: string, pairs: set<(char, char)>) {
    forall i :: 0 <= i < |text| - 1 ==> (text[i], text[i + 1]) in pairs
  }

  /** A term with two letters in a row that the text has nowhere in a row is not found in it. */
  lemma MissingPair(text: string, pairs: set<(char, char)>, term: Term, j: nat)
    requires Within(text, pairs) && j + 1 < |term| && (term[j], term[j + 1]) !in pairs
    ensures !Contains(text, term)
  {
    if Contains(text, term) {
      var _ := Place(text, term, j, j + 1);
      assert false;
    }
  }

  /** Likewise for two letters that are further apart. */
  lemma MissingApart(text: string, term: Term, j: nat, k: nat)
    requires j < k < |term| && forall i :: 0 <= i < |text| - (k - j) && text[i] == term[j] ==> text[i + (k - j)] != term[k]
    ensures !Contains(text, term)
  {
    if Contains(text, term) {
      var _ := Place(text, term, j, k);
      assert false;
    }
  }
}
