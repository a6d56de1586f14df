/** What a receiver learns from a snapshot payload, read word by word, and the proof that it is what was captured. */
module SnapshotReader {
  import opened Texts
  import opened Json
  import opened Timestamps
  import opened Protocol
  import opened Snapshot
  import W = Vocabulary

  /** The four members of a standard game state. */
  datatype Standard = Standard(
    paused: Option<bool>, currentTime: Option<Text>, simulationSpeed: Option<Text>, gameMode: Option<Text>)

  /** A snapshot as the client holds it; `None` stands for a timestamp or a coverage status that cannot be read. */
  datatype Observed = Observed(
    captured: Option<Timestamp>, sequence: int, bridgeInstanceId: Text, gameSessionId: Text, gameId: Text,
    gameVersion: Text, adapterVersion: Text, platform: Text, architecture: Text, mapIdentity: Identity,
    saveIdentity: Identity, gameState: map<Text, Json>, surfaces: seq<Option<Surface>>, warnings: seq<Text>,
    limitations: seq<Text>)

  // ---------------------------------------------------------------- the reader

  /** `ParseCoverage`. */
  function ReadStatus(c: Contract, v: Json): Option<CoverageStatus> {
    if IsWord(c, v, W.ObservedComplete) then Some(ObservedComplete)
    else if IsWord(c, v, W.ObservedPartial) then Some(ObservedPartial)
    else if IsWord(c, v, W.Unsupported) then Some(Unsupported)
    else if IsWord(c, v, W.Unavailable) then Some(Unavailable)
    else if IsWord(c, v, W.Failed) then Some(Failed)
    else None
  }

  function Items(v: Json): seq<Json> { if v.Arr? then v.items else [] }
  function Number(v: Json): int { if v.Int? then v.n else 0 }
  function Flag(v: Json): Option<bool> { if v.Bool? then Some(v.value) else None }

  function ReadIdentity(c: Contract, v: Json): Identity {
    var o := Protocol.Members(v);
    Identity(TextOf(Get(c, o, W.Status)), OptionalText(Get(c, o, W.Value)), OptionalText(Get(c, o, W.Label)),
             OptionalText(Get(c, o, W.Detail)))
  }

  function ReadEntity(c: Contract, v: Json): Entity {
    var o := Protocol.Members(v);
    Entity(TextOf(Get(c, o, W.EntityType)), TextOf(Get(c, o, W.EntityId)), Protocol.Members(Get(c, o, W.Values)))
  }

  function ReadEntities(c: Contract, items: seq<Json>): seq<Entity> {
    seq(|items|, i requires 0 <= i < |items| => ReadEntity(c, items[i]))
  }

  function ReadSurface(c: Contract, v: Json): Option<Surface> {
    var o := Protocol.Members(v);
    var coverage := Protocol.Members(Get(c, o, W.Coverage));
    match ReadStatus(c, Get(c, coverage, W.Status))
    case None => None
    case Some(status) =>
      Some(Surface(TextOf(Get(c, coverage, W.Surface)), status, TextsOf(Items(Get(c, coverage, W.Fields))),
                   TextOf(Get(c, coverage, W.Detail)), ReadEntities(c, Items(Get(c, o, W.Entities)))))
  }

  function ReadSurfaces(c: Contract, items: seq<Json>): seq<Option<Surface>> {
    seq(|items|, i requires 0 <= i < |items| => ReadSurface(c, items[i]))
  }

  function ReadStandard(c: Contract, o: map<Text, Json>): Standard {
    Standard(Flag(Get(c, o, W.Paused)), OptionalText(Get(c, o, W.CurrentTime)), OptionalText(Get(c, o, W.SimulationSpeed)),
             OptionalText(Get(c, o, W.GameMode)))
  }

  function ReadSnapshot(c: Contract, o: map<Text, Json>): Observed {
    Observed(
      ParseTime(TextOf(Get(c, o, W.CaptureTimestamp))), Number(Get(c, o, W.BridgeSequence)),
      TextOf(Get(c, o, W.BridgeInstanceId)), TextOf(Get(c, o, W.GameSessionId)), TextOf(Get(c, o, W.GameId)),
      TextOf(Get(c, o, W.GameVersion)), TextOf(Get(c, o, W.AdapterVersion)), TextOf(Get(c, o, W.Platform)),
      TextOf(Get(c, o, W.Architecture)), ReadIdentity(c, Get(c, o, W.MapIdentity)),
      ReadIdentity(c, Get(c, o, W.SaveIdentity)), Protocol.Members(Get(c, o, W.GameState)),
      ReadSurfaces(c, Items(Get(c, o, W.Surfaces))), TextsOf(Items(Get(c, o, W.Warnings))),
      TextsOf(Items(Get(c, o, W.Limitations))))
  }

  /** The snapshot inside a response payload. */
  function ReadPayload(c: Contract, payload: Json): Observed {
    ReadSnapshot(c, Protocol.Members(Get(c, Protocol.Members(payload), W.Snapshot)))
  }

  // ---------------------------------------------------------------- what is read is what was written

  lemma StringsRead(texts: seq<Text>)
    ensures TextsOf(Items(Strings(texts))) == texts
  {
  }

  lemma StatusRead(c: Contract, status: CoverageStatus)
    requires Distinct(c)
    ensures ReadStatus(c, Str(c.name(StatusWord(status)))) == Some(status)
  {
  }

  lemma IdentityRead(c: Contract, id: Identity)
    requires Distinct(c)
    ensures ReadIdentity(c, IdentityJson(c, id)) == id
  {
    var value, o := IdentityFields(id), IdentityJson(c, id).members;
    ObjectSpells(c, IDENTITY_KEYS, value);
    SpelledAt(c, IDENTITY_KEYS, value, o, W.Status);
    SpelledAt(c, IDENTITY_KEYS, value, o, W.Value);
    SpelledAt(c, IDENTITY_KEYS, value, o, W.Label);
    SpelledAt(c, IDENTITY_KEYS, value, o, W.Detail);
  }

  lemma EntityRead(c: Contract, e: Entity)
    requires Distinct(c)
    ensures ReadEntity(c, EntityJson(c, e)) == e
  {
    var value, o := EntityFields(e), EntityJson(c, e).members;
    ObjectSpells(c, ENTITY_KEYS, value);
    SpelledAt(c, ENTITY_KEYS, value, o, W.EntityType);
    SpelledAt(c, ENTITY_KEYS, value, o, W.EntityId);
    SpelledAt(c, ENTITY_KEYS, value, o, W.Values);
  }

  lemma EntitiesRead(c: Contract, entities: seq<Entity>)
    requires Distinct(c)
    ensures ReadEntities(c, EntitiesJson(c, entities)) == entities
  {
    forall i | 0 <= i < |entities| ensures ReadEntities(c, EntitiesJson(c, entities))[i] == entities[i] {
      EntityRead(c, entities[i]);
    }
  }

  lemma CoverageRead(c: Contract, s: Surface)
    requires Distinct(c)
    ensures var o := CoverageJson(c, s).members;
      && ReadStatus(c, Get(c, o, W.Status)) == Some(s.status) && TextOf(Get(c, o, W.Surface)) == s.name
      && TextsOf(Items(Get(c, o, W.Fields))) == s.fields && TextOf(Get(c, o, W.Detail)) == s.detail
  {
    var value, o := CoverageFields(c, s), CoverageJson(c, s).members;
    ObjectSpells(c, COVERAGE_KEYS, value);
    SpelledAt(c, COVERAGE_KEYS, value, o, W.Status);
    SpelledAt(c, COVERAGE_KEYS, value, o, W.Surface);
    SpelledAt(c, COVERAGE_KEYS, value, o, W.Fields);
    SpelledAt(c, COVERAGE_KEYS, value, o, W.Detail);
    StatusRead(c, s.status);
    StringsRead(s.fields);
  }

  /** A surface arrives with its name, status, fields, detail and entities. */
  lemma SurfaceRead(c: Contract, s: Surface)
    requires Distinct(c)
    ensures ReadSurface(c, SurfaceJson(c, s)) == Some(s)
  {
    var value, o := SurfaceFields(c, s), SurfaceJson(c, s).members;
    ObjectSpells(c, SURFACE_KEYS, value);
    SpelledAt(c, SURFACE_KEYS, value, o, W.Coverage);
    SpelledAt(c, SURFACE_KEYS, value, o, W.Entities);
    CoverageRead(c, s);
    EntitiesRead(c, s.entities);
  }

  function Present(surfaces: seq<Surface>): seq<Option<Surface>> {
    seq(|surfaces|, i requires 0 <= i < |surfaces| => Some(surfaces[i]))
  }

  lemma SurfacesRead(c: Contract, surfaces: seq<Surface>)
    requires Distinct(c)
    ensures ReadSurfaces(c, SurfacesJson(c, surfaces)) == Present(surfaces)
  {
    forall i | 0 <= i < |surfaces| ensures ReadSurfaces(c, SurfacesJson(c, surfaces))[i] == Some(surfaces[i]) {
      SurfaceRead(c, surfaces[i]);
    }
  }

  /** Each game-state key carries its own member of the state. */
  lemma StandardRead(c: Contract, state: State)
    requires Distinct(c) && state.values.None?
    ensures var o := GameStateJson(c, state).members;
      && Exactly(c, o, GAME_STATE_KEYS)
      && ReadStandard(c, o) == Standard(state.paused, state.currentTime, state.simulationSpeed, state.gameMode)
  {
    var value, o := StandardValues(state), GameStateJson(c, state).members;
    ObjectSpells(c, GAME_STATE_KEYS, value);
    SpelledAt(c, GAME_STATE_KEYS, value, o, W.Paused);
    SpelledAt(c, GAME_STATE_KEYS, value, o, W.CurrentTime);
    SpelledAt(c, GAME_STATE_KEYS, value, o, W.SimulationSpeed);
    SpelledAt(c, GAME_STATE_KEYS, value, o, W.GameMode);
  }

  /** What the receiver of a response should hold. */
  ghost predicate Tells(c: Contract, r: Response, o: Observed) {
    var st := r.state;
    && o == Observed(
         Some(r.captured), r.sequence, r.bridgeInstanceId, st.gameSessionId, c.gameId, st.gameVersion, c.adapterVersion,
         st.platform, st.architecture, st.mapIdentity, st.saveIdentity, o.gameState, Present(Reported(c, st)),
         st.warnings, st.limitations)
    && match st.values
       case Some(values) => o.gameState == values
       case None => ReadStandard(c, o.gameState) == Standard(st.paused, st.currentTime, st.simulationSpeed, st.gameMode)
  }

  lemma TextsRead(c: Contract, r: Response, o: map<Text, Json>)
    requires Distinct(c) && SpellsSnapshot(c, r, o) && IsInstant(r.captured) && r.captured.offset == 0
    ensures ParseTime(TextOf(Get(c, o, W.CaptureTimestamp))) == Some(r.captured)
    ensures TextOf(Get(c, o, W.GameId)) == c.gameId && TextOf(Get(c, o, W.AdapterVersion)) == c.adapterVersion
    ensures TextOf(Get(c, o, W.BridgeInstanceId)) == r.bridgeInstanceId
    ensures TextOf(Get(c, o, W.GameSessionId)) == r.state.gameSessionId
    ensures TextOf(Get(c, o, W.GameVersion)) == r.state.gameVersion
    ensures TextOf(Get(c, o, W.Platform)) == r.state.platform && TextOf(Get(c, o, W.Architecture)) == r.state.architecture
  {
    PlainSpells(c, r, o);
    FixedTexts(c, r, o);
    StateTexts(c, r, o);
    TimeRoundTrip(r.captured);
  }

  lemma ListsRead(c: Contract, r: Response, o: map<Text, Json>)
    requires Distinct(c) && SpellsSnapshot(c, r, o)
    ensures Number(Get(c, o, W.BridgeSequence)) == r.sequence
    ensures TextsOf(Items(Get(c, o, W.Warnings))) == r.state.warnings
    ensures TextsOf(Items(Get(c, o, W.Limitations))) == r.state.limitations
  {
    PlainSpells(c, r, o);
    SnapshotRest(c, r, o);
    StringsRead(r.state.warnings);
    StringsRead(r.state.limitations);
  }

  lemma NestedRead(c: Contract, r: Response, o: map<Text, Json>)
    requires Distinct(c) && SpellsSnapshot(c, r, o)
    ensures ReadIdentity(c, Get(c, o, W.MapIdentity)) == r.state.mapIdentity
    ensures ReadIdentity(c, Get(c, o, W.SaveIdentity)) == r.state.saveIdentity
    ensures ReadSurfaces(c, Items(Get(c, o, W.Surfaces))) == Present(Reported(c, r.state))
    ensures Get(c, o, W.GameState) == GameStateJson(c, r.state)
  {
    NestedValues(c, r, o);
    IdentityRead(c, r.state.mapIdentity);
    IdentityRead(c, r.state.saveIdentity);
    SurfacesRead(c, Reported(c, r.state));
  }

  lemma SnapshotRead(c: Contract, r: Response, o: map<Text, Json>)
    requires Distinct(c) && SpellsSnapshot(c, r, o) && IsInstant(r.captured) && r.captured.offset == 0
    ensures Tells(c, r, ReadSnapshot(c, o))
  {
    TextsRead(c, r, o);
    ListsRead(c, r, o);
    NestedRead(c, r, o);
    if r.state.values.None? { StandardRead(c, r.state); }
  }

  /**
   * A receiver that reads the payload by the words of the protocol holds exactly what was captured: every text, both
   * identities, the game state, and for each reported surface its name, status, fields, detail and entities.
   */
  lemma PayloadTells(c: Contract, r: Response)
    requires Distinct(c) && SnapshotResponsePayload(c, r).Some? && IsInstant(r.captured) && r.captured.offset == 0
    ensures Tells(c, r, ReadPayload(c, SnapshotResponsePayload(c, r).value))
  {
    ObjectSpells(c, {W.Snapshot}, PayloadFields(c, r));
    SpelledAt(c, {W.Snapshot}, PayloadFields(c, r), SnapshotResponsePayload(c, r).value.members, W.Snapshot);
    ObjectSpells(c, SNAPSHOT_KEYS, SnapshotFields(c, r));
    SnapshotRead(c, r, SnapshotJson(c, r).members);
  }

  // ---------------------------------------------------------------- what is reported

  /** The fields the coverage of the game state lists are exactly the keys under which the receiver finds a value. */
  lemma FieldsAreValued(c: Contract, state: State)
    requires Distinct(c) && state.available && state.values.None?
    ensures var o := GameStateJson(c, state).members;
      forall k :: k in GameStateFields(c, state) <==> k in o && o[k] != Null
  {
    var value, o := StandardValues(state), GameStateJson(c, state).members;
    ObjectSpells(c, GAME_STATE_KEYS, value);
    forall k ensures k in GameStateFields(c, state) <==> k in o && o[k] != Null {
      if k in o { assert Spelled(c, GAME_STATE_KEYS, k); }
    }
  }

  /** And the observed values of a game state of its own are listed one by one. */
  lemma FieldsAreKeys(c: Contract, state: State)
    requires state.available && state.values.Some?
    ensures Elements(GameStateFields(c, state)) == state.values.value.Keys && Ascending(GameStateFields(c, state))
  {
  }

  /** What a snapshot says of the game state as a whole. */
  lemma GameStateStatus(c: Contract, state: State)
    requires Distinct(c)
    ensures var all := state.currentTime.Some? && state.gameMode.Some? && state.paused.Some? && state.simulationSpeed.Some?;
      var none := state.currentTime.None? && state.gameMode.None? && state.paused.None? && state.simulationSpeed.None?;
      GameStateCoverage(c, state) ==
        if !state.available then Unavailable
        else match state.values
          case Some(values) => if values == map[] then Unavailable else ObservedComplete
          case None => if none then Unavailable else if all then ObservedComplete else ObservedPartial
  {
    if state.available && state.values.Some? {
      FieldsAreKeys(c, state);
      var fields := GameStateFields(c, state);
      if fields == [] {
        assert state.values.value.Keys == {};
      } else {
        assert fields[0] in state.values.value;
      }
    }
  }

  /**
   * The reported surfaces: the game state, every supplied surface of the contract as it was supplied, and for the others
   * of the contract that they are not supported.
   */
  lemma ReportedTells(c: Contract, state: State, i: nat)
    requires Buildable(c, state) && i < |Reported(c, state)|
    ensures var s := Reported(c, state)[i];
      if s.name == c.name(W.GameState) then
        s == Surface(s.name, GameStateCoverage(c, state), GameStateFields(c, state), state.detail, [])
      else
        && s.name in c.surfaces
        && (forall j :: 0 <= j < |state.surfaces| && state.surfaces[j].name == s.name ==> s == state.surfaces[j])
        && ((forall j :: 0 <= j < |state.surfaces| ==> state.surfaces[j].name != s.name) ==>
              s == Surface(s.name, Unsupported, [], UNPROVEN, []))
  {
    var names := ReportedNames(c);
    var name := names[i];
    SurfaceForNamed(c, state, name);
    assert name in Elements(names);
    FindNamed(state.surfaces, name);
  }
}
