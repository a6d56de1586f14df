/** The snapshot a bridge builds from the captured game state, set against the validator of the protocol. */
module Snapshot {
  import opened Texts
  import opened Json
  import opened Timestamps
  import opened Protocol
  import W = Vocabulary

  datatype CoverageStatus = ObservedComplete | ObservedPartial | Unsupported | Unavailable | Failed

  datatype Entity = Entity(kind: Text, id: Text, values: map<Text, Json>)

  datatype Surface = Surface(name: Text, status: CoverageStatus, fields: seq<Text>, detail: Text, entities: seq<Entity>)

  datatype State = State(
    gameVersion: Text, platform: Text, architecture: Text, gameSessionId: Text, mapIdentity: Identity, saveIdentity: Identity,
    paused: Option<bool>, currentTime: Option<Text>, simulationSpeed: Option<Text>, gameMode: Option<Text>,
    values: Option<map<Text, Json>>, available: bool, detail: Text, surfaces: seq<Surface>,
    warnings: seq<Text>, limitations: seq<Text>)

  const UNPROVEN: Text := W.Units("field semantics have not been live-proven")
  const MARKER: Text := W.Units("single-main-thread-sample")

  // ---------------------------------------------------------------- the producer

  /** The fields of the standard game state that were observed. */
  function StandardFields(c: Contract, state: State): seq<Text> {
    (if state.currentTime.Some? then [c.name(W.CurrentTime)] else [])
    + (if state.gameMode.Some? then [c.name(W.GameMode)] else [])
    + (if state.paused.Some? then [c.name(W.Paused)] else [])
    + (if state.simulationSpeed.Some? then [c.name(W.SimulationSpeed)] else [])
  }

  /** `GameStateFields`. */
  ghost function GameStateFields(c: Contract, state: State): seq<Text> {
    if !state.available then []
    else if state.values.Some? then Sorted(state.values.value.Keys)
    else StandardFields(c, state)
  }

  /** `GameStateCoverage`. */
  ghost function GameStateCoverage(c: Contract, state: State): CoverageStatus {
    var count := |GameStateFields(c, state)|;
    if !state.available || count == 0 then Unavailable
    else if state.values.Some? then ObservedComplete
    else if count == 4 then ObservedComplete else ObservedPartial
  }

  ghost function GameStateSurface(c: Contract, state: State): Surface {
    Surface(c.name(W.GameState), GameStateCoverage(c, state), GameStateFields(c, state), state.detail, [])
  }

  function NamesOf(surfaces: seq<Surface>): seq<Text> { seq(|surfaces|, i requires 0 <= i < |surfaces| => surfaces[i].name) }

  /** No surface name is supplied twice: building the dictionary of surfaces does not fail. */
  predicate DistinctNames(surfaces: seq<Surface>) {
    forall i, j :: 0 <= i < j < |surfaces| ==> surfaces[i].name != surfaces[j].name
  }

  function Find(surfaces: seq<Surface>, name: Text): Option<Surface> {
    if surfaces == [] then None
    else if surfaces[0].name == name then Some(surfaces[0])
    else Find(surfaces[1..], name)
  }

  /** What is reported for one surface name. */
  ghost function SurfaceFor(c: Contract, state: State, name: Text): (s: Surface)
  {
    if name == c.name(W.GameState) then GameStateSurface(c, state)
    else match Find(state.surfaces, name)
      case Some(s) => s
      case None => Surface(name, Unsupported, [], UNPROVEN, [])
  }

  ghost function ReportedNames(c: Contract): seq<Text> { Sorted(Elements(c.surfaces) + {c.name(W.GameState)}) }

  /**
   * The surfaces of a snapshot: those of the contract and `game_state`, in ordinal order, whatever else was supplied.
   */
  ghost function Reported(c: Contract, state: State): seq<Surface> {
    var names := ReportedNames(c);
    seq(|names|, i requires 0 <= i < |names| => SurfaceFor(c, state, names[i]))
  }

  function StatusWord(status: CoverageStatus): W.Word {
    match status
    case ObservedComplete => W.ObservedComplete
    case ObservedPartial => W.ObservedPartial
    case Unsupported => W.Unsupported
    case Unavailable => W.Unavailable
    case Failed => W.Failed
  }

  function Strings(texts: seq<Text>): Json { Arr(seq(|texts|, i requires 0 <= i < |texts| => Str(texts[i]))) }

  const ENTITY_KEYS: set<W.Word> := {W.EntityId, W.EntityType, W.Values}
  const COVERAGE_KEYS: set<W.Word> := {W.Detail, W.Fields, W.Status, W.Surface}
  const SURFACE_KEYS: set<W.Word> := {W.Coverage, W.Entities}
  const GAME_STATE_KEYS: set<W.Word> := {W.Paused, W.CurrentTime, W.SimulationSpeed, W.GameMode}

  function EntityField(e: Entity, w: W.Word): Json {
    if w.EntityType? then Str(e.kind)
    else if w.EntityId? then Str(e.id)
    else Obj(e.values)
  }

  function EntityFields(e: Entity): W.Word -> Json { w => EntityField(e, w) }

  ghost function EntityJson(c: Contract, e: Entity): Json
    requires Distinct(c)
  {
    Object(c, ENTITY_KEYS, EntityFields(e))
  }

  ghost function EntitiesJson(c: Contract, entities: seq<Entity>): seq<Json>
    requires Distinct(c)
  {
    seq(|entities|, i requires 0 <= i < |entities| => EntityJson(c, entities[i]))
  }

  function CoverageField(c: Contract, s: Surface, w: W.Word): Json {
    if w.Surface? then Str(s.name)
    else if w.Status? then Str(c.name(StatusWord(s.status)))
    else if w.Fields? then Strings(s.fields)
    else Str(s.detail)
  }

  function CoverageFields(c: Contract, s: Surface): W.Word -> Json { w => CoverageField(c, s, w) }

  ghost function CoverageJson(c: Contract, s: Surface): Json
    requires Distinct(c)
  {
    Object(c, COVERAGE_KEYS, CoverageFields(c, s))
  }

  ghost function SurfaceField(c: Contract, s: Surface, w: W.Word): Json
    requires Distinct(c)
  {
    if w.Coverage? then CoverageJson(c, s) else Arr(EntitiesJson(c, s.entities))
  }

  ghost function SurfaceFields(c: Contract, s: Surface): W.Word -> Json
    requires Distinct(c)
  {
    w => SurfaceField(c, s, w)
  }

  ghost function SurfaceJson(c: Contract, s: Surface): Json
    requires Distinct(c)
  {
    Object(c, SURFACE_KEYS, SurfaceFields(c, s))
  }

  ghost function SurfacesJson(c: Contract, surfaces: seq<Surface>): seq<Json>
    requires Distinct(c)
  {
    seq(|surfaces|, i requires 0 <= i < |surfaces| => SurfaceJson(c, surfaces[i]))
  }

  function GameStateField(state: State, w: W.Word): Json {
    if w.Paused? then if state.paused.Some? then Bool(state.paused.value) else Null
    else if w.CurrentTime? then Nullable(state.currentTime)
    else if w.SimulationSpeed? then Nullable(state.simulationSpeed)
    else Nullable(state.gameMode)
  }

  function StandardValues(state: State): W.Word -> Json { w => GameStateField(state, w) }

  ghost function GameStateJson(c: Contract, state: State): Json
    requires Distinct(c)
  {
    if state.values.Some? then Obj(state.values.value) else Object(c, GAME_STATE_KEYS, StandardValues(state))
  }

  /** One capture on its way into a response. */
  datatype Response = Response(state: State, bridgeInstanceId: Text, sequence: int, captured: Timestamp)

  const PLAIN_KEYS: set<W.Word> := SNAPSHOT_KEYS - {W.MapIdentity, W.SaveIdentity, W.GameState, W.Surfaces}

  /** The members of a snapshot that are no objects and hold none. */
  function PlainField(c: Contract, r: Response, w: W.Word): Json {
    if w.SchemaVersion? then Int(1)
    else if w.CaptureTimestamp? then Str(TimeText(r.captured))
    else if w.CaptureStartedMarker? then Str(MARKER)
    else if w.CaptureCompletedMarker? then Str(MARKER)
    else if w.BridgeSequence? then Int(r.sequence)
    else if w.BridgeInstanceId? then Str(r.bridgeInstanceId)
    else if w.GameSessionId? then Str(r.state.gameSessionId)
    else if w.GameId? then Str(c.gameId)
    else if w.GameVersion? then Str(r.state.gameVersion)
    else if w.AdapterVersion? then Str(c.adapterVersion)
    else if w.Platform? then Str(r.state.platform)
    else if w.Architecture? then Str(r.state.architecture)
    else if w.Warnings? then Strings(r.state.warnings)
    else Strings(r.state.limitations)
  }

  function PlainFields(c: Contract, r: Response): W.Word -> Json { w => PlainField(c, r, w) }

  ghost function SnapshotField(c: Contract, r: Response, w: W.Word): Json
    requires Distinct(c)
  {
    if w.MapIdentity? then IdentityJson(c, r.state.mapIdentity)
    else if w.SaveIdentity? then IdentityJson(c, r.state.saveIdentity)
    else if w.GameState? then GameStateJson(c, r.state)
    else if w.Surfaces? then Arr(SurfacesJson(c, Reported(c, r.state)))
    else PlainField(c, r, w)
  }

  ghost function SnapshotFields(c: Contract, r: Response): W.Word -> Json
    requires Distinct(c)
  {
    w => SnapshotField(c, r, w)
  }

  ghost function SnapshotJson(c: Contract, r: Response): Json
    requires Distinct(c)
  {
    Object(c, SNAPSHOT_KEYS, SnapshotFields(c, r))
  }

  ghost function PayloadFields(c: Contract, r: Response): W.Word -> Json
    requires Distinct(c)
  {
    _ => SnapshotJson(c, r)
  }

  /** Building the payload of a snapshot neither meets an invalid identity nor a surface supplied twice. */
  predicate Buildable(c: Contract, state: State) {
    ValidIdentity(c, state.mapIdentity) && ValidIdentity(c, state.saveIdentity) && DistinctNames(state.surfaces)
  }

  /** `SnapshotResponsePayload`; `None` when building it throws on an identity or on a surface supplied twice. */
  ghost function SnapshotResponsePayload(c: Contract, r: Response): Option<Json>
    requires Distinct(c)
  {
    if Buildable(c, r.state) then Some(Object(c, {W.Snapshot}, PayloadFields(c, r))) else None
  }

  // ---------------------------------------------------------------- what the validator asks of the state

  predicate Unobserved(status: CoverageStatus) { status.Unsupported? || status.Unavailable? || status.Failed? }

  function JoinedKeys(entities: seq<Entity>): seq<Text> {
    seq(|entities|, i requires 0 <= i < |entities| => Joined(entities[i].kind, entities[i].id))
  }

  predicate SoundEntities(entities: seq<Entity>) {
    && (forall i :: 0 <= i < |entities| ==> !IsBlankText(entities[i].kind) && !IsBlankText(entities[i].id))
    && Ascending(JoinedKeys(entities))
  }

  predicate SoundSurface(s: Surface) {
    && !IsBlankText(s.name) && !IsBlankText(s.detail) && Ascending(s.fields)
    && (Unobserved(s.status) ==> s.entities == []) && SoundEntities(s.entities)
  }

  ghost predicate SoundSurfaces(c: Contract, state: State) {
    && !IsBlankText(state.detail)
    && forall i :: 0 <= i < |c.surfaces| && c.surfaces[i] != c.name(W.GameState) ==>
         match Find(state.surfaces, c.surfaces[i])
         case Some(s) => SoundSurface(s)
         case None => !IsBlankText(c.surfaces[i])
  }

  predicate TextsLegible(r: Response) {
    && !IsBlankText(r.bridgeInstanceId) && !IsBlankText(r.state.gameSessionId) && !IsBlankText(r.state.gameVersion)
    && !IsBlankText(r.state.platform) && !IsBlankText(r.state.architecture)
  }

  ghost predicate SoundResponse(c: Contract, r: Response) {
    && 1 <= r.sequence <= MAXIMUM_INT64
    && TextsLegible(r) && Travels(r.state.mapIdentity) && Travels(r.state.saveIdentity)
    && SoundSurfaces(c, r.state)
  }

  /** The names of the standard game-state fields stand in ordinal order. */
  ghost predicate FieldsInOrder(c: Contract) {
    Ascending([c.name(W.CurrentTime), c.name(W.GameMode), c.name(W.Paused), c.name(W.SimulationSpeed)])
  }

  // ---------------------------------------------------------------- entities and coverage

  lemma EntityReads(c: Contract, e: Entity, o: map<Text, Json>)
    requires Exactly(c, o, ENTITY_KEYS)
    requires Get(c, o, W.EntityType) == Str(e.kind) && Get(c, o, W.EntityId) == Str(e.id)
      && Get(c, o, W.Values) == Obj(e.values)
    ensures ValidEntity(c, Obj(o)) <==> !IsBlankText(e.kind) && !IsBlankText(e.id)
    ensures EntityKey(c, Obj(o)) == Joined(e.kind, e.id)
  {
  }

  lemma EntityExact(c: Contract, e: Entity)
    requires Distinct(c)
    ensures ValidEntity(c, EntityJson(c, e)) <==> !IsBlankText(e.kind) && !IsBlankText(e.id)
    ensures EntityKey(c, EntityJson(c, e)) == Joined(e.kind, e.id)
  {
    var value, o := EntityFields(e), EntityJson(c, e).members;
    ObjectSpells(c, ENTITY_KEYS, value);
    SpelledAt(c, ENTITY_KEYS, value, o, W.EntityType);
    SpelledAt(c, ENTITY_KEYS, value, o, W.EntityId);
    SpelledAt(c, ENTITY_KEYS, value, o, W.Values);
    EntityReads(c, e, o);
  }

  lemma EntitiesExact(c: Contract, entities: seq<Entity>)
    requires Distinct(c)
    ensures ValidEntities(c, EntitiesJson(c, entities)) <==> SoundEntities(entities)
  {
    var items := EntitiesJson(c, entities);
    forall i | 0 <= i < |entities|
      ensures ValidEntity(c, items[i]) <==> !IsBlankText(entities[i].kind) && !IsBlankText(entities[i].id)
      ensures EntityKeys(c, items)[i] == JoinedKeys(entities)[i]
    {
      EntityExact(c, entities[i]);
    }
    assert EntityKeys(c, items) == JoinedKeys(entities);
  }

  lemma StringsSorted(texts: seq<Text>)
    ensures SortedStrings(Strings(texts)) <==> Ascending(texts)
  {
    assert TextsOf(Strings(texts).items) == texts;
  }

  lemma StatusReads(c: Contract, status: CoverageStatus)
    requires Distinct(c)
    ensures var v := Str(c.name(StatusWord(status)));
      && (IsWord(c, v, W.ObservedComplete) || IsWord(c, v, W.ObservedPartial) || IsUnobserved(c, v))
      && (IsUnobserved(c, v) <==> Unobserved(status))
  {
  }

  lemma CoverageReads(c: Contract, s: Surface, o: map<Text, Json>)
    requires Distinct(c) && Exactly(c, o, COVERAGE_KEYS)
    requires Get(c, o, W.Status) == Str(c.name(StatusWord(s.status))) && Get(c, o, W.Surface) == Str(s.name)
    requires Get(c, o, W.Fields) == Strings(s.fields) && Get(c, o, W.Detail) == Str(s.detail)
    ensures ValidCoverage(c, o) <==> !IsBlankText(s.name) && !IsBlankText(s.detail) && Ascending(s.fields)
    ensures IsUnobserved(c, Get(c, o, W.Status)) <==> Unobserved(s.status)
  {
    StatusReads(c, s.status);
    StringsSorted(s.fields);
  }

  lemma CoverageExact(c: Contract, s: Surface)
    requires Distinct(c)
    ensures var o := CoverageJson(c, s).members;
      && (ValidCoverage(c, o) <==> !IsBlankText(s.name) && !IsBlankText(s.detail) && Ascending(s.fields))
      && (IsUnobserved(c, Get(c, o, W.Status)) <==> Unobserved(s.status))
      && TextOf(Get(c, o, W.Surface)) == s.name
  {
    var value, o := CoverageFields(c, s), CoverageJson(c, s).members;
    ObjectSpells(c, COVERAGE_KEYS, value);
    SpelledAt(c, COVERAGE_KEYS, value, o, W.Status);
    SpelledAt(c, COVERAGE_KEYS, value, o, W.Surface);
    SpelledAt(c, COVERAGE_KEYS, value, o, W.Fields);
    SpelledAt(c, COVERAGE_KEYS, value, o, W.Detail);
    CoverageReads(c, s, o);
  }

  lemma SurfaceReads(c: Contract, s: Surface, o: map<Text, Json>, coverage: map<Text, Json>, entities: seq<Json>)
    requires Exactly(c, o, SURFACE_KEYS) && Get(c, o, W.Coverage) == Obj(coverage)
      && Get(c, o, W.Entities) == Arr(entities)
    requires ValidCoverage(c, coverage) <==> !IsBlankText(s.name) && !IsBlankText(s.detail) && Ascending(s.fields)
    requires IsUnobserved(c, Get(c, coverage, W.Status)) <==> Unobserved(s.status)
    requires ValidEntities(c, entities) <==> SoundEntities(s.entities)
    requires entities == [] <==> s.entities == []
    ensures ValidSurface(c, Obj(o)) <==> SoundSurface(s)
    ensures SurfaceName(c, Obj(o)) == TextOf(Get(c, coverage, W.Surface))
  {
  }

  lemma SurfaceExact(c: Contract, s: Surface)
    requires Distinct(c)
    ensures ValidSurface(c, SurfaceJson(c, s)) <==> SoundSurface(s)
    ensures SurfaceName(c, SurfaceJson(c, s)) == s.name
  {
    var value, o := SurfaceFields(c, s), SurfaceJson(c, s).members;
    ObjectSpells(c, SURFACE_KEYS, value);
    SpelledAt(c, SURFACE_KEYS, value, o, W.Coverage);
    SpelledAt(c, SURFACE_KEYS, value, o, W.Entities);
    CoverageExact(c, s);
    EntitiesExact(c, s.entities);
    assert |EntitiesJson(c, s.entities)| == |s.entities|;
    SurfaceReads(c, s, o, CoverageJson(c, s).members, EntitiesJson(c, s.entities));
  }

  lemma SurfacesExact(c: Contract, surfaces: seq<Surface>)
    requires Distinct(c)
    ensures ValidSurfaces(c, SurfacesJson(c, surfaces)) <==>
              (forall i :: 0 <= i < |surfaces| ==> SoundSurface(surfaces[i])) && Ascending(NamesOf(surfaces))
  {
    var items := SurfacesJson(c, surfaces);
    forall i | 0 <= i < |surfaces|
      ensures ValidSurface(c, items[i]) <==> SoundSurface(surfaces[i])
      ensures SurfaceNames(c, items)[i] == NamesOf(surfaces)[i]
    {
      SurfaceExact(c, surfaces[i]);
    }
    assert SurfaceNames(c, items) == NamesOf(surfaces);
  }

  // ---------------------------------------------------------------- the merged surfaces

  lemma {:induction false} FindNamed(surfaces: seq<Surface>, name: Text)
    ensures match Find(surfaces, name)
      case Some(s) => s in surfaces && s.name == name
      case None => forall i :: 0 <= i < |surfaces| ==> surfaces[i].name != name
  {
    if surfaces != [] && surfaces[0].name != name {
      FindNamed(surfaces[1..], name);
      if Find(surfaces[1..], name).Some? {
        var i :| 0 <= i < |surfaces[1..]| && surfaces[1..][i] == Find(surfaces[1..], name).value;
        assert surfaces[i + 1] == Find(surfaces, name).value;
      } else {
        forall i | 0 <= i < |surfaces| ensures surfaces[i].name != name {
          if i > 0 { assert surfaces[i] == surfaces[1..][i - 1]; }
        }
      }
    }
  }

  lemma SurfaceForNamed(c: Contract, state: State, name: Text)
    ensures SurfaceFor(c, state, name).name == name
  {
    FindNamed(state.surfaces, name);
  }

  /** The merged surfaces are sorted and unique. */
  lemma ReportedSorted(c: Contract, state: State)
    ensures NamesOf(Reported(c, state)) == ReportedNames(c)
    ensures Ascending(NamesOf(Reported(c, state)))
  {
    var names := ReportedNames(c);
    forall i | 0 <= i < |names| ensures NamesOf(Reported(c, state))[i] == names[i] {
      SurfaceForNamed(c, state, names[i]);
    }
    assert NamesOf(Reported(c, state)) == names;
  }

  lemma AscendingPart(all: seq<Text>, i: nat, j: nat)
    requires Ascending(all) && i < j < |all|
    ensures Before(all[i], all[j])
  {
  }

  lemma StandardFieldsAscending(c: Contract, state: State)
    requires FieldsInOrder(c)
    ensures Ascending(StandardFields(c, state))
  {
    var all := [c.name(W.CurrentTime), c.name(W.GameMode), c.name(W.Paused), c.name(W.SimulationSpeed)];
    AscendingPart(all, 0, 1);
    AscendingPart(all, 0, 2);
    AscendingPart(all, 0, 3);
    AscendingPart(all, 1, 2);
    AscendingPart(all, 1, 3);
    AscendingPart(all, 2, 3);
  }

  lemma GameStateSound(c: Contract, state: State)
    requires Legible(c) && FieldsInOrder(c)
    ensures SoundSurface(GameStateSurface(c, state)) <==> !IsBlankText(state.detail)
  {
    StandardFieldsAscending(c, state);
    assert JoinedKeys([]) == [];
  }

  lemma SpellingLegible(s: string)
    requires s != "" && ' ' < s[0] < 128 as char
    ensures !IsBlankText(W.Units(s))
  {
    assert !IsSpace(W.Units(s)[0]);
  }

  lemma UnprovenLegible()
    ensures !IsBlankText(UNPROVEN) && !IsBlankText(MARKER)
  {
    SpellingLegible("field semantics have not been live-proven");
    SpellingLegible("single-main-thread-sample");
  }

  lemma SurfaceForSound(c: Contract, state: State, name: Text)
    requires name != c.name(W.GameState)
    ensures SoundSurface(SurfaceFor(c, state, name)) <==>
      match Find(state.surfaces, name)
      case Some(s) => SoundSurface(s)
      case None => !IsBlankText(name)
  {
    UnprovenLegible();
    assert JoinedKeys([]) == [];
  }

  lemma ReportedSound(c: Contract, state: State)
    requires Legible(c) && FieldsInOrder(c)
    ensures (forall i :: 0 <= i < |Reported(c, state)| ==> SoundSurface(Reported(c, state)[i])) <==> SoundSurfaces(c, state)
  {
    var names := ReportedNames(c);
    var r := Reported(c, state);
    GameStateSound(c, state);
    forall name | name != c.name(W.GameState)
      ensures SoundSurface(SurfaceFor(c, state, name)) <==>
        match Find(state.surfaces, name) case Some(s) => SoundSurface(s) case None => !IsBlankText(name)
    {
      SurfaceForSound(c, state, name);
    }
    if SoundSurfaces(c, state) {
      forall i | 0 <= i < |r| ensures SoundSurface(r[i]) {
        assert names[i] in Elements(names);
        if names[i] != c.name(W.GameState) {
          var j :| 0 <= j < |c.surfaces| && c.surfaces[j] == names[i];
        }
      }
    }
    if forall i :: 0 <= i < |r| ==> SoundSurface(r[i]) {
      AllReported(c, state);
    }
  }

  lemma AllReported(c: Contract, state: State)
    requires Legible(c) && FieldsInOrder(c)
    requires forall i :: 0 <= i < |Reported(c, state)| ==> SoundSurface(Reported(c, state)[i])
    ensures SoundSurfaces(c, state)
  {
    var names := ReportedNames(c);
    GameStateSound(c, state);
    forall name | name in Elements(names) ensures SoundSurface(SurfaceFor(c, state, name)) {
      var i :| 0 <= i < |names| && names[i] == name;
      assert Reported(c, state)[i] == SurfaceFor(c, state, name);
    }
    assert c.name(W.GameState) in Elements(names);
    forall i | 0 <= i < |c.surfaces| && c.surfaces[i] != c.name(W.GameState)
      ensures match Find(state.surfaces, c.surfaces[i]) case Some(s) => SoundSurface(s) case None => !IsBlankText(c.surfaces[i])
    {
      assert c.surfaces[i] in Elements(names);
      SurfaceForSound(c, state, c.surfaces[i]);
    }
  }

  // ---------------------------------------------------------------- the whole payload

  ghost predicate SpellsSnapshot(c: Contract, r: Response, o: map<Text, Json>)
    requires Distinct(c)
  {
    Spells(c, SNAPSHOT_KEYS, SnapshotFields(c, r), o)
  }

  lemma PlainSpells(c: Contract, r: Response, o: map<Text, Json>)
    requires Distinct(c) && SpellsSnapshot(c, r, o)
    ensures Spells(c, PLAIN_KEYS, PlainFields(c, r), o)
  {
    forall w | w in PLAIN_KEYS ensures Get(c, o, w) == PlainFields(c, r)(w) {
      SpelledAt(c, SNAPSHOT_KEYS, SnapshotFields(c, r), o, w);
    }
  }

  lemma TimeLegible(t: Timestamp)
    ensures !IsBlankText(TimeText(t))
  {
    var year := Padded(t.year, 4);
    assert TimeText(t)[0] == year[0] && IsDigit(year[0]);
  }

  lemma FixedTextsLegible(c: Contract, r: Response)
    requires ValidContract(c)
    ensures !IsBlankText(TimeText(r.captured)) && !IsBlankText(MARKER) && !IsBlankText(c.gameId)
      && !IsBlankText(c.adapterVersion)
  {
    TimeLegible(r.captured);
    UnprovenLegible();
  }

  lemma FixedTexts(c: Contract, r: Response, o: map<Text, Json>)
    requires Spells(c, PLAIN_KEYS, PlainFields(c, r), o)
    ensures Get(c, o, W.CaptureTimestamp) == Str(TimeText(r.captured))
      && Get(c, o, W.CaptureStartedMarker) == Str(MARKER)
    ensures Get(c, o, W.CaptureCompletedMarker) == Str(MARKER)
    ensures Get(c, o, W.GameId) == Str(c.gameId) && Get(c, o, W.AdapterVersion) == Str(c.adapterVersion)
  {
  }

  lemma StateTexts(c: Contract, r: Response, o: map<Text, Json>)
    requires Spells(c, PLAIN_KEYS, PlainFields(c, r), o)
    ensures Get(c, o, W.BridgeInstanceId) == Str(r.bridgeInstanceId)
      && Get(c, o, W.GameSessionId) == Str(r.state.gameSessionId)
    ensures Get(c, o, W.GameVersion) == Str(r.state.gameVersion)
    ensures Get(c, o, W.Platform) == Str(r.state.platform) && Get(c, o, W.Architecture) == Str(r.state.architecture)
  {
  }

  lemma SnapshotTexts(c: Contract, r: Response, o: map<Text, Json>)
    requires ValidContract(c) && Spells(c, PLAIN_KEYS, PlainFields(c, r), o)
    ensures SnapshotTextsPresent(c, o) <==> TextsLegible(r)
  {
    FixedTexts(c, r, o);
    FixedTextsLegible(c, r);
    StateTexts(c, r, o);
  }

  lemma SnapshotRest(c: Contract, r: Response, o: map<Text, Json>)
    requires Spells(c, PLAIN_KEYS, PlainFields(c, r), o)
    ensures Get(c, o, W.Warnings) == Strings(r.state.warnings)
      && Get(c, o, W.Limitations) == Strings(r.state.limitations)
    ensures Get(c, o, W.SchemaVersion) == Int(1) && Get(c, o, W.BridgeSequence) == Int(r.sequence)
  {
  }

  lemma StringsAreStrings(texts: seq<Text>)
    ensures StringArray(Strings(texts))
  {
  }

  lemma ReportedExact(c: Contract, state: State)
    requires ValidContract(c) && FieldsInOrder(c)
    ensures ValidSurfaces(c, SurfacesJson(c, Reported(c, state))) <==> SoundSurfaces(c, state)
  {
    SurfacesExact(c, Reported(c, state));
    ReportedSorted(c, state);
    ReportedSound(c, state);
  }

  /** The nested members of a snapshot. */
  lemma NestedValues(c: Contract, r: Response, o: map<Text, Json>)
    requires Distinct(c) && SpellsSnapshot(c, r, o)
    ensures Get(c, o, W.MapIdentity) == IdentityJson(c, r.state.mapIdentity)
    ensures Get(c, o, W.SaveIdentity) == IdentityJson(c, r.state.saveIdentity)
    ensures Get(c, o, W.GameState) == GameStateJson(c, r.state)
    ensures Get(c, o, W.Surfaces) == Arr(SurfacesJson(c, Reported(c, r.state)))
  {
  }

  /** The checks of a snapshot one by one. */
  lemma SnapshotReads(c: Contract, r: Response, o: map<Text, Json>, surfaces: seq<Json>)
    requires Mirrors(c, r, o, surfaces)
    requires ValidSurfaces(c, surfaces) <==> SoundSurfaces(c, r.state)
    ensures ValidSnapshot(c, o) <==> SoundResponse(c, r)
  {
  }

  /** The state of a response can be told from the members of its snapshot. */
  ghost predicate Mirrors(c: Contract, r: Response, o: map<Text, Json>, surfaces: seq<Json>) {
    && Exactly(c, o, SNAPSHOT_KEYS)
    && (SnapshotTextsPresent(c, o) <==> TextsLegible(r))
    && (ParseIdentity(c, Get(c, o, W.MapIdentity)).Some? <==> Travels(r.state.mapIdentity))
    && (ParseIdentity(c, Get(c, o, W.SaveIdentity)).Some? <==> Travels(r.state.saveIdentity))
    && Get(c, o, W.GameState).Obj? && StringArray(Get(c, o, W.Warnings)) && StringArray(Get(c, o, W.Limitations))
    && Get(c, o, W.SchemaVersion) == Int(1) && Get(c, o, W.BridgeSequence) == Int(r.sequence)
    && Get(c, o, W.Surfaces) == Arr(surfaces)
  }

  lemma SnapshotMirrors(c: Contract, r: Response)
    requires ValidContract(c)
    requires ValidIdentity(c, r.state.mapIdentity) && ValidIdentity(c, r.state.saveIdentity)
    ensures Mirrors(c, r, SnapshotJson(c, r).members, SurfacesJson(c, Reported(c, r.state)))
  {
    var o := SnapshotJson(c, r).members;
    ObjectSpells(c, SNAPSHOT_KEYS, SnapshotFields(c, r));
    PlainSpells(c, r, o);
    SnapshotTexts(c, r, o);
    SnapshotRest(c, r, o);
    StringsAreStrings(r.state.warnings);
    StringsAreStrings(r.state.limitations);
    NestedValues(c, r, o);
    IdentityRoundTrip(c, r.state.mapIdentity);
    IdentityRoundTrip(c, r.state.saveIdentity);
  }

  lemma SnapshotExact(c: Contract, r: Response)
    requires ValidContract(c) && FieldsInOrder(c)
    requires ValidIdentity(c, r.state.mapIdentity) && ValidIdentity(c, r.state.saveIdentity)
    ensures ValidSnapshot(c, SnapshotJson(c, r).members) <==> SoundResponse(c, r)
  {
    SnapshotMirrors(c, r);
    ReportedExact(c, r.state);
    SnapshotReads(c, r, SnapshotJson(c, r).members, SurfacesJson(c, Reported(c, r.state)));
  }

  lemma PayloadReads(c: Contract, o: map<Text, Json>, snapshot: map<Text, Json>)
    requires Exactly(c, o, {W.Snapshot}) && Get(c, o, W.Snapshot) == Obj(snapshot)
    ensures ValidPayload(c, FullSnapshotResponse, o) <==> ValidSnapshot(c, snapshot)
  {
  }

  /** A snapshot payload that can be built passes the validator exactly when the captured state is sound. */
  lemma PayloadExact(c: Contract, r: Response)
    requires ValidContract(c) && FieldsInOrder(c) && SnapshotResponsePayload(c, r).Some?
    ensures SnapshotResponsePayload(c, r).value.Obj?
    ensures ValidPayload(c, FullSnapshotResponse, SnapshotResponsePayload(c, r).value.members) <==> SoundResponse(c, r)
  {
    ObjectSpells(c, {W.Snapshot}, PayloadFields(c, r));
    SpelledAt(c, {W.Snapshot}, PayloadFields(c, r), SnapshotResponsePayload(c, r).value.members, W.Snapshot);
    PayloadReads(c, SnapshotResponsePayload(c, r).value.members, SnapshotJson(c, r).members);
    SnapshotExact(c, r);
  }

  /** Protocol version 3 spells the standard fields in ordinal order. */
  lemma ProtocolFieldsInOrder(c: Contract)
    requires c.name == W.Name
    ensures FieldsInOrder(c)
  {
    FirstLetterOrders(W.Name(W.CurrentTime), W.Name(W.GameMode), W.Name(W.Paused), W.Name(W.SimulationSpeed));
  }

  lemma FirstLetterOrders(a: Text, b: Text, c: Text, d: Text)
    requires a != [] && b != [] && c != [] && d != [] && a[0] < b[0] < c[0] < d[0]
    ensures Ascending([a, b, c, d])
  {
  }

  // ---------------------------------------------------------------- entity order

  /** `EntityCompare(a, b) < 0`. */
  predicate EntityBefore(a: Entity, b: Entity) {
    Before(a.kind, b.kind) || (a.kind == b.kind && Before(a.id, b.id))
  }

  predicate NoNul(t: Text) { forall i :: 0 <= i < |t| ==> t[i] != 0 }

  lemma {:induction false} JoinedOrder(k: Text, x: Text, l: Text, y: Text)
    requires NoNul(k) && NoNul(l)
    ensures Before(Joined(k, x), Joined(l, y)) <==> Before(k, l) || (k == l && Before(x, y))
  {
    var a, b := Joined(k, x), Joined(l, y);
    if k == [] && l == [] {
      assert a[1..] == x && b[1..] == y;
    } else if k == [] {
      assert a[0] == 0 && b[0] == l[0];
    } else if l == [] {
      assert b[0] == 0 && a[0] == k[0];
    } else {
      assert a[0] == k[0] && b[0] == l[0];
      assert a[1..] == Joined(k[1..], x) && b[1..] == Joined(l[1..], y);
      JoinedOrder(k[1..], x, l[1..], y);
      assert k == [k[0]] + k[1..] && l == [l[0]] + l[1..];
    }
  }

  predicate InEntityOrder(entities: seq<Entity>) {
    forall i, j :: 0 <= i < j < |entities| ==> EntityBefore(entities[i], entities[j])
  }

  /** Entities sorted by the adapter's comparison satisfy the validator's order exactly, if no type holds a NUL. */
  lemma EntityOrderAgrees(entities: seq<Entity>)
    requires forall i :: 0 <= i < |entities| ==> NoNul(entities[i].kind)
    ensures Ascending(JoinedKeys(entities)) <==> InEntityOrder(entities)
  {
    var keys := JoinedKeys(entities);
    forall i, j | 0 <= i < j < |entities| ensures Before(keys[i], keys[j]) <==> EntityBefore(entities[i], entities[j]) {
      JoinedOrder(entities[i].kind, entities[i].id, entities[j].kind, entities[j].id);
    }
    if InEntityOrder(entities) {
      forall i, j | 0 <= i < j < |keys| ensures Before(keys[i], keys[j]) {
        assert EntityBefore(entities[i], entities[j]);
      }
    }
  }

  /** With a NUL inside a type the two orders part: sorted entities that the validator refuses. */
  lemma NulBreaksOrder() returns (entities: seq<Entity>)
    ensures InEntityOrder(entities) && !Ascending(JoinedKeys(entities))
    ensures forall i :: 0 <= i < |entities| ==> !IsBlankText(entities[i].kind) && !IsBlankText(entities[i].id)
  {
    var a := Entity([0x61], [0x62], map[]);
    var b := Entity([0x61, 0], [0x61], map[]);
    entities := [a, b];
    assert Before([], [0]);
    assert Before(a.kind, b.kind) by { assert a.kind[1..] == [] && b.kind[1..] == [0]; }
    var x, y := JoinedKeys(entities)[0], JoinedKeys(entities)[1];
    assert x == [0x61, 0, 0x62] && y == [0x61, 0, 0, 0x61];
    JoinedOrder([], [0x62], [], [0, 0x61]);
    assert x[1..] == Joined([], [0x62]) && y[1..] == Joined([], [0, 0x61]);
    assert !Before([0x62], [0, 0x61]);
    assert !Before(x, y);
    assert !IsSpace(a.kind[0]) && !IsSpace(a.id[0]) && !IsSpace(b.kind[0]) && !IsSpace(b.id[0]);
  }
}
