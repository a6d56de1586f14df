/**
 * Which terms of the vocabulary some concrete questions contain. A term with a letter the question has not is absent;
 * for the few others a pair of letters decides, or the term is found.
 */
module QuestionTexts {
  import opened Compiler
  import K = Keywords

  const UNUSUAL_TOWN: string := "anything unusual in town?"
  const WORST_IDLE: string := "worst idle vehicle"
  const LOSING_VEHICLES: string := "which vehicles are losing money?"
  const HEALTH_SHARP_S: string := "health lo\U{00DF}"
  const HEALTH_LOSS: string := "health loss"

  /** The question consists of these terms of the vocabulary only, and is none of those compared as a whole. */
  ghost predicate Says(q: Question, terms: set<K.Term>) {
    !q.weakRoute && !q.vague && forall t {:trigger q.has(t)} :: t in K.VOCABULARY ==> (q.has(t) <==> t in terms)
  }

  /** A text that starts unlike the questions compared as a whole. */
  lemma NotWhole(text: string, i: nat)
    requires i < 3 && i < |text| && text[i] != "what should i do"[i] && text[i] != "is this okay"[i]
    ensures Unquestioned(text) !in {"what should i do", "is this okay"}
  {
  }

  /** No other term of the vocabulary is in the text. */
  predicate Beyond(text: string, candidates: set<K.Term>) {
    forall t :: t in K.VOCABULARY && t !in candidates ==> !K.Contains(text, t)
  }

  /** Of the candidates exactly these are in the text. */
  predicate Decides(text: string, candidates: set<K.Term>, terms: set<K.Term>) {
    terms <= candidates && forall t :: t in candidates ==> (K.Contains(text, t) <==> t in terms)
  }

  lemma SaysFrom(text: string, candidates: set<K.Term>, terms: set<K.Term>)
    requires !Ask(text).weakRoute && !Ask(text).vague
    requires Beyond(text, candidates) && Decides(text, candidates, terms)
    ensures Says(Ask(text), terms)
  {
  }

  lemma MissingSome(text: string, t: K.Term)
    requires exists c :: c in t && c !in text
    ensures !K.Contains(text, t)
  {
    var c :| c in t && c !in text;
    K.MissingLetter(text, t, c);
  }

  // ---------------------------------------------------------------- "anything unusual in town?"

  /** The terms spelled with letters of the text. */
  const UNUSUAL_TOWN_LETTERS: set<K.Term> := {
    K.WHY, K.THAT_STATION, K.THIS_STATION, K.LOSS, K.UNUSUAL, K.STATION, K.TOWN, K.LOSING, K.LOST, K.LOAN, K.SITTING}

  predicate UnusualTownFree(text: string) {
    forall i :: 0 <= i < |text| ==>
      && text[i] != 'e' && text[i] != 'r' && text[i] != 'c' && text[i] != 'b'
      && text[i] != 'f' && text[i] != 'm' && text[i] != 'p'
  }

  lemma UnusualTownEarly(text: string, t: K.Term)
    requires UnusualTownFree(text) && t in K.EARLY_TERMS && t !in UNUSUAL_TOWN_LETTERS
    ensures !K.Contains(text, t)
  {
    assert 'e' in t || 'r' in t || 'c' in t || 'b' in t || 'f' in t || 'm' in t || 'p' in t;
    MissingSome(text, t);
  }

  lemma UnusualTownAnalysis(text: string, t: K.Term)
    requires UnusualTownFree(text) && t in K.ANALYSIS_TERMS && t !in UNUSUAL_TOWN_LETTERS
    ensures !K.Contains(text, t)
  {
    assert 'e' in t || 'r' in t || 'c' in t || 'b' in t || 'f' in t || 'm' in t || 'p' in t;
    MissingSome(text, t);
  }

  lemma UnusualTownSubject(text: string, t: K.Term)
    requires UnusualTownFree(text) && t in K.SUBJECT_TERMS && t !in UNUSUAL_TOWN_LETTERS
    ensures !K.Contains(text, t)
  {
    assert 'e' in t || 'r' in t || 'c' in t || 'b' in t || 'f' in t || 'm' in t || 'p' in t;
    MissingSome(text, t);
  }

  lemma UnusualTownQualifying(text: string, t: K.Term)
    requires UnusualTownFree(text) && t in K.QUALIFYING_TERMS && t !in UNUSUAL_TOWN_LETTERS
    ensures !K.Contains(text, t)
  {
    assert 'e' in t || 'r' in t || 'c' in t || 'b' in t || 'f' in t || 'm' in t || 'p' in t;
    MissingSome(text, t);
  }

  lemma UnusualTownMissing(text: string, t: K.Term)
    requires UnusualTownFree(text) && t in K.VOCABULARY && t !in UNUSUAL_TOWN_LETTERS
    ensures !K.Contains(text, t)
  {
    if t in K.EARLY_TERMS {
      UnusualTownEarly(text, t);
    } else if t in K.ANALYSIS_TERMS {
      UnusualTownAnalysis(text, t);
    } else if t in K.SUBJECT_TERMS {
      UnusualTownSubject(text, t);
    } else {
      UnusualTownQualifying(text, t);
    }
  }

  lemma UnusualTownLetters()
    ensures UnusualTownFree(UNUSUAL_TOWN)
  {
  }

  lemma UnusualTownBeyond()
    ensures Beyond(UNUSUAL_TOWN, UNUSUAL_TOWN_LETTERS)
  {
    UnusualTownLetters();
    forall t | t in K.VOCABULARY && t !in UNUSUAL_TOWN_LETTERS { UnusualTownMissing(UNUSUAL_TOWN, t); }
  }

  lemma UnusualTownWhole()
    ensures !Ask(UNUSUAL_TOWN).weakRoute && !Ask(UNUSUAL_TOWN).vague
  {
    NotWhole(UNUSUAL_TOWN, 0);
  }

  /** The pairs of letters that follow each other in the text. */
  const UNUSUAL_TOWN_PAIRS: set<(char, char)> := {
    (' ', 'i'), (' ', 't'), (' ', 'u'), ('a', 'l'), ('a', 'n'), ('g', ' '), ('h', 'i'), ('i', 'n'), ('l', ' '),
    ('n', ' '), ('n', '?'), ('n', 'g'), ('n', 'u'), ('n', 'y'), ('o', 'w'), ('s', 'u'), ('t', 'h'), ('t', 'o'),
    ('u', 'a'), ('u', 'n'), ('u', 's'), ('w', 'n'), ('y', 't')}

  lemma UnusualTownPairs()
    ensures K.Within(UNUSUAL_TOWN, UNUSUAL_TOWN_PAIRS)
  {
  }

  lemma UnusualTownApart(text: string)
    requires K.Within(text, UNUSUAL_TOWN_PAIRS)
    ensures !K.Contains(text, K.WHY)
    ensures !K.Contains(text, K.THAT_STATION)
    ensures !K.Contains(text, K.THIS_STATION)
    ensures !K.Contains(text, K.LOSS)
    ensures !K.Contains(text, K.STATION)
    ensures !K.Contains(text, K.LOSING)
    ensures !K.Contains(text, K.LOST)
    ensures !K.Contains(text, K.LOAN)
    ensures !K.Contains(text, K.SITTING)
  {
    K.MissingPair(text, UNUSUAL_TOWN_PAIRS, K.WHY, 0);
    K.MissingPair(text, UNUSUAL_TOWN_PAIRS, K.THAT_STATION, 1);
    K.MissingPair(text, UNUSUAL_TOWN_PAIRS, K.THIS_STATION, 2);
    K.MissingPair(text, UNUSUAL_TOWN_PAIRS, K.LOSS, 0);
    K.MissingPair(text, UNUSUAL_TOWN_PAIRS, K.STATION, 0);
    K.MissingPair(text, UNUSUAL_TOWN_PAIRS, K.LOSING, 0);
    K.MissingPair(text, UNUSUAL_TOWN_PAIRS, K.LOST, 0);
    K.MissingPair(text, UNUSUAL_TOWN_PAIRS, K.LOAN, 0);
    K.MissingPair(text, UNUSUAL_TOWN_PAIRS, K.SITTING, 0);
  }

  lemma UnusualTownTerms()
    ensures Decides(UNUSUAL_TOWN, UNUSUAL_TOWN_LETTERS, {K.UNUSUAL, K.TOWN})
  {
    K.Occurs(UNUSUAL_TOWN, K.UNUSUAL, 9);
    K.Occurs(UNUSUAL_TOWN, K.TOWN, 20);
    UnusualTownPairs();
    UnusualTownApart(UNUSUAL_TOWN);
  }

  lemma UnusualTownSays()
    ensures Says(Ask(UNUSUAL_TOWN), {K.UNUSUAL, K.TOWN})
  {
    UnusualTownBeyond();
    UnusualTownTerms();
    UnusualTownWhole();
    SaysFrom(UNUSUAL_TOWN, UNUSUAL_TOWN_LETTERS, {K.UNUSUAL, K.TOWN});
  }

  // ---------------------------------------------------------------- "worst idle vehicle"

  /** The terms spelled with letters of the text. */
  const WORST_IDLE_LETTERS: set<K.Term> := {
    K.THIS_VEHICLE, K.LOSES, K.LOSS, K.VEHICLE, K.LOST, K.WORST, K.WORSE, K.IDLE}

  predicate WorstIdleFree(text: string) {
    forall i :: 0 <= i < |text| ==>
      && text[i] != 'a' && text[i] != 'n' && text[i] != 'u' && text[i] != 'f'
      && text[i] != 'p' && text[i] != 'b' && text[i] != 'm' && text[i] != 'y'
  }

  lemma WorstIdleEarly(text: string, t: K.Term)
    requires WorstIdleFree(text) && t in K.EARLY_TERMS && t !in WORST_IDLE_LETTERS
    ensures !K.Contains(text, t)
  {
    assert 'a' in t || 'n' in t || 'u' in t || 'f' in t || 'p' in t || 'b' in t || 'm' in t || 'y' in t;
    MissingSome(text, t);
  }

  lemma WorstIdleAnalysis(text: string, t: K.Term)
    requires WorstIdleFree(text) && t in K.ANALYSIS_TERMS && t !in WORST_IDLE_LETTERS
    ensures !K.Contains(text, t)
  {
    assert 'a' in t || 'n' in t || 'u' in t || 'f' in t || 'p' in t || 'b' in t || 'm' in t || 'y' in t;
    MissingSome(text, t);
  }

  lemma WorstIdleSubject(text: string, t: K.Term)
    requires WorstIdleFree(text) && t in K.SUBJECT_TERMS && t !in WORST_IDLE_LETTERS
    ensures !K.Contains(text, t)
  {
    assert 'a' in t || 'n' in t || 'u' in t || 'f' in t || 'p' in t || 'b' in t || 'm' in t || 'y' in t;
    MissingSome(text, t);
  }

  lemma WorstIdleQualifying(text: string, t: K.Term)
    requires WorstIdleFree(text) && t in K.QUALIFYING_TERMS && t !in WORST_IDLE_LETTERS
    ensures !K.Contains(text, t)
  {
    assert 'a' in t || 'n' in t || 'u' in t || 'f' in t || 'p' in t || 'b' in t || 'm' in t || 'y' in t;
    MissingSome(text, t);
  }

  lemma WorstIdleMissing(text: string, t: K.Term)
    requires WorstIdleFree(text) && t in K.VOCABULARY && t !in WORST_IDLE_LETTERS
    ensures !K.Contains(text, t)
  {
    if t in K.EARLY_TERMS {
      WorstIdleEarly(text, t);
    } else if t in K.ANALYSIS_TERMS {
      WorstIdleAnalysis(text, t);
    } else if t in K.SUBJECT_TERMS {
      WorstIdleSubject(text, t);
    } else {
      WorstIdleQualifying(text, t);
    }
  }

  lemma WorstIdleLetters()
    ensures WorstIdleFree(WORST_IDLE)
  {
  }

  lemma WorstIdleBeyond()
    ensures Beyond(WORST_IDLE, WORST_IDLE_LETTERS)
  {
    WorstIdleLetters();
    forall t | t in K.VOCABULARY && t !in WORST_IDLE_LETTERS { WorstIdleMissing(WORST_IDLE, t); }
  }

  lemma WorstIdleWhole()
    ensures !Ask(WORST_IDLE).weakRoute && !Ask(WORST_IDLE).vague
  {
    NotWhole(WORST_IDLE, 1);
  }

  /** The pairs of letters that follow each other in the text. */
  const WORST_IDLE_PAIRS: set<(char, char)> := {
    (' ', 'i'), (' ', 'v'), ('c', 'l'), ('d', 'l'), ('e', ' '), ('e', 'h'), ('h', 'i'), ('i', 'c'), ('i', 'd'),
    ('l', 'e'), ('o', 'r'), ('r', 's'), ('s', 't'), ('t', ' '), ('v', 'e'), ('w', 'o')}

  lemma WorstIdlePairs()
    ensures K.Within(WORST_IDLE, WORST_IDLE_PAIRS)
  {
  }

  lemma WorstIdleApart(text: string)
    requires K.Within(text, WORST_IDLE_PAIRS)
    ensures !K.Contains(text, K.THIS_VEHICLE)
    ensures !K.Contains(text, K.LOSES)
    ensures !K.Contains(text, K.LOSS)
    ensures !K.Contains(text, K.LOST)
    ensures !K.Contains(text, K.WORSE)
  {
    K.MissingPair(text, WORST_IDLE_PAIRS, K.THIS_VEHICLE, 0);
    K.MissingPair(text, WORST_IDLE_PAIRS, K.LOSES, 0);
    K.MissingPair(text, WORST_IDLE_PAIRS, K.LOSS, 0);
    K.MissingPair(text, WORST_IDLE_PAIRS, K.LOST, 0);
    K.MissingPair(text, WORST_IDLE_PAIRS, K.WORSE, 3);
  }

  lemma WorstIdleTerms()
    ensures Decides(WORST_IDLE, WORST_IDLE_LETTERS, {K.VEHICLE, K.WORST, K.IDLE})
  {
    K.Occurs(WORST_IDLE, K.VEHICLE, 11);
    K.Occurs(WORST_IDLE, K.WORST, 0);
    K.Occurs(WORST_IDLE, K.IDLE, 6);
    WorstIdlePairs();
    WorstIdleApart(WORST_IDLE);
  }

  lemma WorstIdleSays()
    ensures Says(Ask(WORST_IDLE), {K.VEHICLE, K.WORST, K.IDLE})
  {
    WorstIdleBeyond();
    WorstIdleTerms();
    WorstIdleWhole();
    SaysFrom(WORST_IDLE, WORST_IDLE_LETTERS, {K.VEHICLE, K.WORST, K.IDLE});
  }

  // ---------------------------------------------------------------- "which vehicles are losing money?"

  /** The terms spelled with letters of the text. */
  const LOSING_VEHICLES_LETTERS: set<K.Term> := {
    K.CRASH, K.WHY, K.LOSES, K.LOSS, K.ANOMAL, K.COVERAGE, K.VEHICLE, K.CASH, K.LOSING_MONEY, K.RAIL, K.LOSING,
    K.LOSING_VEHICLES, K.CHANGE, K.SINCE, K.WORSE, K.LOAN}

  predicate LosingVehiclesFree(text: string) {
    forall i :: 0 <= i < |text| ==>
      && text[i] != 't' && text[i] != 'd' && text[i] != 'f' && text[i] != 'p'
      && text[i] != 'u'
  }

  lemma LosingVehiclesEarly(text: string, t: K.Term)
    requires LosingVehiclesFree(text) && t in K.EARLY_TERMS && t !in LOSING_VEHICLES_LETTERS
    ensures !K.Contains(text, t)
  {
    assert 't' in t || 'd' in t || 'f' in t || 'p' in t || 'u' in t;
    MissingSome(text, t);
  }

  lemma LosingVehiclesAnalysis(text: string, t: K.Term)
    requires LosingVehiclesFree(text) && t in K.ANALYSIS_TERMS && t !in LOSING_VEHICLES_LETTERS
    ensures !K.Contains(text, t)
  {
    assert 't' in t || 'd' in t || 'f' in t || 'p' in t || 'u' in t;
    MissingSome(text, t);
  }

  lemma LosingVehiclesSubject(text: string, t: K.Term)
    requires LosingVehiclesFree(text) && t in K.SUBJECT_TERMS && t !in LOSING_VEHICLES_LETTERS
    ensures !K.Contains(text, t)
  {
    assert 't' in t || 'd' in t || 'f' in t || 'p' in t || 'u' in t;
    MissingSome(text, t);
  }

  lemma LosingVehiclesQualifying(text: string, t: K.Term)
    requires LosingVehiclesFree(text) && t in K.QUALIFYING_TERMS && t !in LOSING_VEHICLES_LETTERS
    ensures !K.Contains(text, t)
  {
    assert 't' in t || 'd' in t || 'f' in t || 'p' in t || 'u' in t;
    MissingSome(text, t);
  }

  lemma LosingVehiclesMissing(text: string, t: K.Term)
    requires LosingVehiclesFree(text) && t in K.VOCABULARY && t !in LOSING_VEHICLES_LETTERS
    ensures !K.Contains(text, t)
  {
    if t in K.EARLY_TERMS {
      LosingVehiclesEarly(text, t);
    } else if t in K.ANALYSIS_TERMS {
      LosingVehiclesAnalysis(text, t);
    } else if t in K.SUBJECT_TERMS {
      LosingVehiclesSubject(text, t);
    } else {
      LosingVehiclesQualifying(text, t);
    }
  }

  lemma LosingVehiclesLetters()
    ensures LosingVehiclesFree(LOSING_VEHICLES)
  {
  }

  lemma LosingVehiclesBeyond()
    ensures Beyond(LOSING_VEHICLES, LOSING_VEHICLES_LETTERS)
  {
    LosingVehiclesLetters();
    forall t | t in K.VOCABULARY && t !in LOSING_VEHICLES_LETTERS { LosingVehiclesMissing(LOSING_VEHICLES, t); }
  }

  lemma LosingVehiclesWhole()
    ensures !Ask(LOSING_VEHICLES).weakRoute && !Ask(LOSING_VEHICLES).vague
  {
    NotWhole(LOSING_VEHICLES, 2);
  }

  /** The pairs of letters that follow each other in the text. */
  const LOSING_VEHICLES_PAIRS: set<(char, char)> := {
    (' ', 'a'), (' ', 'l'), (' ', 'm'), (' ', 'v'), ('a', 'r'), ('c', 'h'), ('c', 'l'), ('e', ' '), ('e', 'h'),
    ('e', 's'), ('e', 'y'), ('g', ' '), ('h', ' '), ('h', 'i'), ('i', 'c'), ('i', 'n'), ('l', 'e'), ('l', 'o'),
    ('m', 'o'), ('n', 'e'), ('n', 'g'), ('o', 'n'), ('o', 's'), ('r', 'e'), ('s', ' '), ('s', 'i'), ('v', 'e'),
    ('w', 'h'), ('y', '?')}

  lemma LosingVehiclesPairs()
    ensures K.Within(LOSING_VEHICLES, LOSING_VEHICLES_PAIRS)
  {
  }

  lemma LosingVehiclesApart(text: string)
    requires K.Within(text, LOSING_VEHICLES_PAIRS)
    ensures !K.Contains(text, K.CRASH)
    ensures !K.Contains(text, K.WHY)
    ensures !K.Contains(text, K.LOSES)
    ensures !K.Contains(text, K.LOSS)
    ensures !K.Contains(text, K.ANOMAL)
    ensures !K.Contains(text, K.COVERAGE)
    ensures !K.Contains(text, K.CASH)
    ensures !K.Contains(text, K.RAIL)
    ensures !K.Contains(text, K.CHANGE)
    ensures !K.Contains(text, K.SINCE)
    ensures !K.Contains(text, K.WORSE)
    ensures !K.Contains(text, K.LOAN)
  {
    K.MissingPair(text, LOSING_VEHICLES_PAIRS, K.CRASH, 0);
    K.MissingPair(text, LOSING_VEHICLES_PAIRS, K.WHY, 1);
    K.MissingPair(text, LOSING_VEHICLES_PAIRS, K.LOSES, 2);
    K.MissingPair(text, LOSING_VEHICLES_PAIRS, K.LOSS, 2);
    K.MissingPair(text, LOSING_VEHICLES_PAIRS, K.ANOMAL, 0);
    K.MissingPair(text, LOSING_VEHICLES_PAIRS, K.COVERAGE, 0);
    K.MissingPair(text, LOSING_VEHICLES_PAIRS, K.CASH, 0);
    K.MissingPair(text, LOSING_VEHICLES_PAIRS, K.RAIL, 0);
    K.MissingPair(text, LOSING_VEHICLES_PAIRS, K.CHANGE, 1);
    K.MissingPair(text, LOSING_VEHICLES_PAIRS, K.SINCE, 2);
    K.MissingPair(text, LOSING_VEHICLES_PAIRS, K.WORSE, 0);
    K.MissingPair(text, LOSING_VEHICLES_PAIRS, K.LOAN, 1);
  }

  lemma LosingMoneyOnly()
    ensures !K.Contains(LOSING_VEHICLES, K.LOSING_VEHICLES)
  {
    K.MissingApart(LOSING_VEHICLES, K.LOSING_VEHICLES, 5, 7);
  }

  lemma LosingVehiclesTerms()
    ensures Decides(LOSING_VEHICLES, LOSING_VEHICLES_LETTERS, {K.VEHICLE, K.LOSING_MONEY, K.LOSING})
  {
    K.Occurs(LOSING_VEHICLES, K.VEHICLE, 6);
    K.Occurs(LOSING_VEHICLES, K.LOSING_MONEY, 19);
    K.Occurs(LOSING_VEHICLES, K.LOSING, 19);
    LosingVehiclesPairs();
    LosingVehiclesApart(LOSING_VEHICLES);
    LosingMoneyOnly();
  }

  lemma LosingVehiclesSays()
    ensures Says(Ask(LOSING_VEHICLES), {K.VEHICLE, K.LOSING_MONEY, K.LOSING})
  {
    LosingVehiclesBeyond();
    LosingVehiclesTerms();
    LosingVehiclesWhole();
    SaysFrom(LOSING_VEHICLES, LOSING_VEHICLES_LETTERS, {K.VEHICLE, K.LOSING_MONEY, K.LOSING});
  }

  // ---------------------------------------------------------------- "health lo\U{00DF}"

  /** The terms spelled with letters of the text. */
  const HEALTH_SHARP_S_LETTERS: set<K.Term> := {K.HEALTH}

  predicate HealthSharpFree(text: string) {
    forall i :: 0 <= i < |text| ==>
      && text[i] != 'i' && text[i] != 'n' && text[i] != 's' && text[i] != 'r'
      && text[i] != 'b' && text[i] != 'c' && text[i] != 'f' && text[i] != 'w'
  }

  lemma HealthSharpEarly(text: string, t: K.Term)
    requires HealthSharpFree(text) && t in K.EARLY_TERMS && t !in HEALTH_SHARP_S_LETTERS
    ensures !K.Contains(text, t)
  {
    assert 'i' in t || 'n' in t || 's' in t || 'r' in t || 'b' in t || 'c' in t || 'f' in t || 'w' in t;
    MissingSome(text, t);
  }

  lemma HealthSharpAnalysis(text: string, t: K.Term)
    requires HealthSharpFree(text) && t in K.ANALYSIS_TERMS && t !in HEALTH_SHARP_S_LETTERS
    ensures !K.Contains(text, t)
  {
    assert 'i' in t || 'n' in t || 's' in t || 'r' in t || 'b' in t || 'c' in t || 'f' in t || 'w' in t;
    MissingSome(text, t);
  }

  lemma HealthSharpSubject(text: string, t: K.Term)
    requires HealthSharpFree(text) && t in K.SUBJECT_TERMS && t !in HEALTH_SHARP_S_LETTERS
    ensures !K.Contains(text, t)
  {
    assert 'i' in t || 'n' in t || 's' in t || 'r' in t || 'b' in t || 'c' in t || 'f' in t || 'w' in t;
    MissingSome(text, t);
  }

  lemma HealthSharpQualifying(text: string, t: K.Term)
    requires HealthSharpFree(text) && t in K.QUALIFYING_TERMS && t !in HEALTH_SHARP_S_LETTERS
    ensures !K.Contains(text, t)
  {
    assert 'i' in t || 'n' in t || 's' in t || 'r' in t || 'b' in t || 'c' in t || 'f' in t || 'w' in t;
    MissingSome(text, t);
  }

  lemma HealthSharpMissing(text: string, t: K.Term)
    requires HealthSharpFree(text) && t in K.VOCABULARY && t !in HEALTH_SHARP_S_LETTERS
    ensures !K.Contains(text, t)
  {
    if t in K.EARLY_TERMS {
      HealthSharpEarly(text, t);
    } else if t in K.ANALYSIS_TERMS {
      HealthSharpAnalysis(text, t);
    } else if t in K.SUBJECT_TERMS {
      HealthSharpSubject(text, t);
    } else {
      HealthSharpQualifying(text, t);
    }
  }

  lemma HealthSharpLetters()
    ensures HealthSharpFree(HEALTH_SHARP_S)
  {
  }

  lemma HealthSharpBeyond()
    ensures Beyond(HEALTH_SHARP_S, HEALTH_SHARP_S_LETTERS)
  {
    HealthSharpLetters();
    forall t | t in K.VOCABULARY && t !in HEALTH_SHARP_S_LETTERS { HealthSharpMissing(HEALTH_SHARP_S, t); }
  }

  lemma HealthSharpWhole()
    ensures !Ask(HEALTH_SHARP_S).weakRoute && !Ask(HEALTH_SHARP_S).vague
  {
    NotWhole(HEALTH_SHARP_S, 0);
  }

  lemma HealthSharpTerms()
    ensures Decides(HEALTH_SHARP_S, HEALTH_SHARP_S_LETTERS, {K.HEALTH})
  {
    K.Occurs(HEALTH_SHARP_S, K.HEALTH, 0);
  }

  lemma HealthSharpSays()
    ensures Says(Ask(HEALTH_SHARP_S), {K.HEALTH})
  {
    HealthSharpBeyond();
    HealthSharpTerms();
    HealthSharpWhole();
    SaysFrom(HEALTH_SHARP_S, HEALTH_SHARP_S_LETTERS, {K.HEALTH});
  }

  // ---------------------------------------------------------------- "health loss"

  lemma HealthLossFound()
    ensures K.Contains(HEALTH_LOSS, K.LOSS) && RequiredFree(Ask(HEALTH_LOSS))
  {
    K.Occurs(HEALTH_LOSS, K.LOSS, 7);
    K.MissingLetter(HEALTH_LOSS, K.LOSING_MONEY, 'm');
    K.MissingLetter(HEALTH_LOSS, K.DEBT, 'd');
    K.MissingLetter(HEALTH_LOSS, K.CASH, 'c');
    K.MissingLetter(HEALTH_LOSS, K.IMPROVING, 'm');
    K.MissingLetter(HEALTH_LOSS, K.GETTING_WORSE, 'g');
  }

  /** None of the words that require an analysis of a provider is in the question. */
  predicate RequiredFree(q: Question) {
    && !q.has(K.LOSING_MONEY) && !q.has(K.DEBT) && !q.has(K.CASH) && !q.has(K.IMPROVING) && !q.has(K.GETTING_WORSE)
  }
}
