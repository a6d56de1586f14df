/** The envelope of protocol version 3: its validator, its serializer and its parser. */
module Protocol {
  import opened Texts
  import opened Json
  import opened JsonReading
  import opened Timestamps
  import W = Vocabulary

  /** The active bridge contract, with the spelling of the words of the protocol and its reverse. */
  datatype Contract = Contract(
    name: W.Word -> Text, word: Text -> Option<W.Word>, protocolVersion: int, adapterVersion: Text,
    gameId: Text, supportedGameVersion: Text,
    maximumMessageBytes: int, surfaces: seq<Text>)

  /** No two words share a name. */
  ghost predicate Distinct(c: Contract) {
    forall w {:trigger c.name(w)} :: c.word(c.name(w)) == Some(w)
  }

  ghost predicate Legible(c: Contract) {
    forall w {:trigger c.name(w)} :: !IsBlankText(c.name(w))
  }

  /** What the constructor of a contract descriptor demands; the surfaces are kept in ordinal order. */
  ghost predicate ValidContract(c: Contract) {
    && Distinct(c) && Legible(c)
    && 1 <= c.protocolVersion <= 0x7FFF_FFFF && 1024 <= c.maximumMessageBytes <= 0x7FFF_FFFF
    && !IsBlankText(c.adapterVersion) && !IsBlankText(c.gameId) && !IsBlankText(c.supportedGameVersion)
    && c.surfaces != [] && c.surfaces[0] != [] && Ascending(c.surfaces)
  }

  datatype Identity = Identity(status: Text, value: Option<Text>, caption: Option<Text>, detail: Option<Text>)

  datatype MessageType =
    | ClientHello | BridgeHello | AuthenticationFailure | Heartbeat | CapabilityManifest | FullSnapshotRequest
    | FullSnapshotResponse | ResynchronizationRequest | ProtocolError

  datatype Envelope = Envelope(
    protocolVersion: int, adapterVersion: Text, gameId: Text, gameVersion: Text, platform: Text, architecture: Text,
    bridgeInstanceId: Text, gameSessionId: Text, mapIdentity: Identity, saveIdentity: Identity, messageId: Text,
    correlationId: Option<Text>, bridgeSequence: int, messageType: MessageType, timestamp: Timestamp, payload: Json)

  // ---------------------------------------------------------------- texts

  /** `char.IsWhiteSpace` on one UTF-16 code unit. */
  predicate IsSpace(u: Unit) {
    || 0x09 <= u <= 0x0D || u == 0x20 || u == 0x85 || u == 0xA0 || u == 0x1680
    || 0x2000 <= u <= 0x200A || u == 0x2028 || u == 0x2029 || u == 0x202F || u == 0x205F || u == 0x3000
  }

  /** `string.IsNullOrWhiteSpace`. */
  predicate IsBlankText(t: Text) { forall i :: 0 <= i < |t| ==> IsSpace(t[i]) }

  predicate NullOrNonBlank(t: Option<Text>) { t.Some? ==> !IsBlankText(t.value) }

  // ---------------------------------------------------------------- objects

  function Members(v: Json): map<Text, Json> { if v.Obj? then v.members else map[] }

  /** The value under a word; `Null` stands for a missing key, which `Exactly` has ruled out by then. */
  function Get(c: Contract, o: map<Text, Json>, w: W.Word): Json {
    if c.name(w) in o then o[c.name(w)] else Null
  }

  /** `Exact`: these keys and no others. */
  predicate Exactly(c: Contract, o: map<Text, Json>, words: set<W.Word>) {
    && (forall w :: w in words ==> c.name(w) in o)
    && (forall k :: k in o ==> Spelled(c, words, k))
  }

  predicate Spelled(c: Contract, words: set<W.Word>, k: Text) {
    c.word(k).Some? && c.word(k).value in words && c.name(c.word(k).value) == k
  }

  /** The keys of an object are the spellings of the words, as a set. */
  lemma ExactlyMeans(c: Contract, o: map<Text, Json>, words: set<W.Word>)
    requires Distinct(c)
    ensures Exactly(c, o, words) <==> o.Keys == set w | w in words :: c.name(w)
  {
    if o.Keys == set w | w in words :: c.name(w) {
      forall k | k in o ensures Spelled(c, words, k) {
        var w :| w in words && c.name(w) == k;
      }
    }
  }

  /** The object with these keys, its values given word by word. */
  ghost function Object(c: Contract, words: set<W.Word>, value: W.Word -> Json): Json
    requires Distinct(c)
  {
    Obj(map w | w in words :: c.name(w) := value(w))
  }

  /** The object holds these values under these keys. */
  ghost predicate Spells(c: Contract, words: set<W.Word>, value: W.Word -> Json, o: map<Text, Json>) {
    forall w {:trigger Get(c, o, w)} :: w in words ==> Get(c, o, w) == value(w)
  }

  lemma ObjectSpells(c: Contract, words: set<W.Word>, value: W.Word -> Json)
    requires Distinct(c)
    ensures Exactly(c, Object(c, words, value).members, words)
    ensures Spells(c, words, value, Object(c, words, value).members)
  {
  }

  lemma SpelledAt(c: Contract, words: set<W.Word>, value: W.Word -> Json, o: map<Text, Json>, w: W.Word)
    requires Spells(c, words, value, o) && w in words
    ensures Get(c, o, w) == value(w)
  {
  }

  lemma ObjectHolds(c: Contract, words: set<W.Word>, value: W.Word -> Json)
    requires Distinct(c) && forall w :: w in words ==> Holds(value(w))
    ensures Holds(Object(c, words, value))
  {
  }

  predicate IsText(v: Json) { v.Str? && !IsBlankText(v.text) }
  predicate IsOptionalText(v: Json) { v.Null? || IsText(v) }
  predicate IsIntegerIn(v: Json, minimum: int, maximum: int) { v.Int? && minimum <= v.n <= maximum }
  predicate IsWord(c: Contract, v: Json, w: W.Word) { v.Str? && v.text == c.name(w) }

  function Nullable(t: Option<Text>): Json { if t.Some? then Str(t.value) else Null }
  function OptionalText(v: Json): Option<Text> { if v.Str? then Some(v.text) else None }

  const MAXIMUM_INT64: int := 0x7FFF_FFFF_FFFF_FFFF

  // ---------------------------------------------------------------- identities

  predicate ValidIdentity(c: Contract, id: Identity) {
    && (id.status == c.name(W.Observed) || id.status == c.name(W.Unavailable))
    && (id.status == c.name(W.Observed) ==> id.value.Some? && !IsBlankText(id.value.value))
    && (id.status == c.name(W.Unavailable) ==> id.value.None?)
  }

  const IDENTITY_KEYS: set<W.Word> := {W.Detail, W.Label, W.Status, W.Value}

  function IdentityField(id: Identity, w: W.Word): Json {
    if w.Status? then Str(id.status)
    else if w.Value? then Nullable(id.value)
    else if w.Label? then Nullable(id.caption)
    else if w.Detail? then Nullable(id.detail)
    else Null
  }

  function IdentityFields(id: Identity): W.Word -> Json { w => IdentityField(id, w) }

  ghost function IdentityJson(c: Contract, id: Identity): Json
    requires Distinct(c)
  {
    Object(c, IDENTITY_KEYS, IdentityFields(id))
  }

  function ParseIdentity(c: Contract, v: Json): Option<Identity> {
    var o := Members(v);
    if !v.Obj? || !Exactly(c, o, IDENTITY_KEYS) then None
    else if !Get(c, o, W.Status).Str? || !IsOptionalText(Get(c, o, W.Value)) || !IsOptionalText(Get(c, o, W.Label))
            || !IsOptionalText(Get(c, o, W.Detail)) then None
    else
      var id := Identity(Get(c, o, W.Status).text, OptionalText(Get(c, o, W.Value)), OptionalText(Get(c, o, W.Label)),
                         OptionalText(Get(c, o, W.Detail)));
      if ValidIdentity(c, id) then Some(id) else None
  }

  /** An identity travels unharmed exactly when its label and detail are null or say something. */
  predicate Travels(id: Identity) { NullOrNonBlank(id.caption) && NullOrNonBlank(id.detail) }

  lemma IdentityHolds(c: Contract, id: Identity)
    requires Distinct(c)
    ensures Holds(IdentityJson(c, id))
  {
    ObjectHolds(c, IDENTITY_KEYS, IdentityFields(id));
  }

  lemma NullableReads(t: Option<Text>)
    ensures IsOptionalText(Nullable(t)) <==> NullOrNonBlank(t)
    ensures OptionalText(Nullable(t)) == t
  {
  }

  lemma IdentityReads(c: Contract, id: Identity, o: map<Text, Json>)
    requires ValidIdentity(c, id) && Exactly(c, o, IDENTITY_KEYS)
    requires Get(c, o, W.Status) == Str(id.status) && Get(c, o, W.Value) == Nullable(id.value)
    requires Get(c, o, W.Label) == Nullable(id.caption) && Get(c, o, W.Detail) == Nullable(id.detail)
    ensures ParseIdentity(c, Obj(o)) == if Travels(id) then Some(id) else None
  {
    NullableReads(id.value);
    NullableReads(id.caption);
    NullableReads(id.detail);
  }

  lemma IdentityRoundTrip(c: Contract, id: Identity)
    requires Distinct(c) && ValidIdentity(c, id)
    ensures ParseIdentity(c, IdentityJson(c, id)) == if Travels(id) then Some(id) else None
  {
    var value, o := IdentityFields(id), IdentityJson(c, id).members;
    ObjectSpells(c, IDENTITY_KEYS, value);
    SpelledAt(c, IDENTITY_KEYS, value, o, W.Status);
    SpelledAt(c, IDENTITY_KEYS, value, o, W.Value);
    SpelledAt(c, IDENTITY_KEYS, value, o, W.Label);
    SpelledAt(c, IDENTITY_KEYS, value, o, W.Detail);
    IdentityReads(c, id, o);
  }

  // ---------------------------------------------------------------- message types

  function TypeWord(t: MessageType): W.Word {
    match t
    case ClientHello => W.ClientHello
    case BridgeHello => W.BridgeHello
    case AuthenticationFailure => W.AuthenticationFailure
    case Heartbeat => W.Heartbeat
    case CapabilityManifest => W.CapabilityManifest
    case FullSnapshotRequest => W.FullSnapshotRequest
    case FullSnapshotResponse => W.FullSnapshotResponse
    case ResynchronizationRequest => W.ResynchronizationRequest
    case ProtocolError => W.ProtocolError
  }

  function ParseMessageType(c: Contract, t: Text): Option<MessageType> {
    if t == c.name(W.ClientHello) then Some(ClientHello)
    else if t == c.name(W.BridgeHello) then Some(BridgeHello)
    else if t == c.name(W.AuthenticationFailure) then Some(AuthenticationFailure)
    else if t == c.name(W.Heartbeat) then Some(Heartbeat)
    else if t == c.name(W.CapabilityManifest) then Some(CapabilityManifest)
    else if t == c.name(W.FullSnapshotRequest) then Some(FullSnapshotRequest)
    else if t == c.name(W.FullSnapshotResponse) then Some(FullSnapshotResponse)
    else if t == c.name(W.ResynchronizationRequest) then Some(ResynchronizationRequest)
    else if t == c.name(W.ProtocolError) then Some(ProtocolError)
    else None
  }

  lemma MessageTypeRoundTrip(c: Contract, t: MessageType)
    requires Distinct(c)
    ensures ParseMessageType(c, c.name(TypeWord(t))) == Some(t)
  {
  }

  // ---------------------------------------------------------------- payloads

  /** Strings in strictly rising ordinal order. */
  predicate SortedStrings(v: Json) {
    v.Arr? && (forall i :: 0 <= i < |v.items| ==> v.items[i].Str?) && Ascending(TextsOf(v.items))
  }

  function TextOf(v: Json): Text { if v.Str? then v.text else [] }
  function TextsOf(items: seq<Json>): seq<Text> { seq(|items|, i requires 0 <= i < |items| => TextOf(items[i])) }

  predicate StringArray(v: Json) { v.Arr? && forall i :: 0 <= i < |v.items| ==> v.items[i].Str? }

  predicate IsPositiveNumber(v: Json) { (v.Int? && v.n > 0) || (v.Num? && RoundsPositive(v.literal)) }

  predicate ValidClientHello(c: Contract, o: map<Text, Json>) {
    && Exactly(c, o, {W.AuthenticationToken, W.ClientInstanceId, W.ExpectedAdapterVersion, W.ExpectedGameId,
                      W.ExpectedGameVersion, W.RequestedProtocolVersion})
    && IsText(Get(c, o, W.AuthenticationToken)) && |Get(c, o, W.AuthenticationToken).text| >= 32
    && Get(c, o, W.ExpectedAdapterVersion) == Str(c.adapterVersion)
    && Get(c, o, W.ExpectedGameId) == Str(c.gameId)
    && Get(c, o, W.ExpectedGameVersion) == Str(c.supportedGameVersion)
    && Get(c, o, W.RequestedProtocolVersion) == Int(c.protocolVersion)
    && IsText(Get(c, o, W.ClientInstanceId))
  }

  predicate ValidBridgeHello(c: Contract, o: map<Text, Json>) {
    && Exactly(c, o, {W.Authenticated, W.HeartbeatIntervalSeconds, W.MaximumMessageBytes, W.NegotiatedProtocolVersion})
    && Get(c, o, W.Authenticated) == Bool(true)
    && IsPositiveNumber(Get(c, o, W.HeartbeatIntervalSeconds))
    && IsIntegerIn(Get(c, o, W.MaximumMessageBytes), 1024, 16_777_216)
    && Get(c, o, W.NegotiatedProtocolVersion) == Int(c.protocolVersion)
  }

  predicate ValidManifest(c: Contract, o: map<Text, Json>) {
    && Exactly(c, o, {W.DeltaSnapshots, W.FullSnapshots, W.GameplayActions, W.ObservationSurfaces, W.Resynchronization,
                      W.SchemaVersion})
    && Get(c, o, W.SchemaVersion) == Int(1) && Get(c, o, W.FullSnapshots) == Bool(true)
    && Get(c, o, W.DeltaSnapshots) == Bool(false) && Get(c, o, W.Resynchronization) == Bool(true)
    && SortedStrings(Get(c, o, W.ObservationSurfaces))
    && Get(c, o, W.GameplayActions) == Arr([])
  }

  predicate ValidResynchronization(c: Contract, o: map<Text, Json>) {
    && Exactly(c, o, {W.LastBridgeInstanceId, W.LastBridgeSequence, W.LastGameSessionId, W.Reason})
    && IsOptionalText(Get(c, o, W.LastBridgeInstanceId)) && IsOptionalText(Get(c, o, W.LastGameSessionId))
    && (Get(c, o, W.LastBridgeSequence).Null? || IsIntegerIn(Get(c, o, W.LastBridgeSequence), 1, MAXIMUM_INT64))
    && IsText(Get(c, o, W.Reason))
  }

  /** The eleven error codes of the protocol. */
  const ERROR_CODES: set<Text> := set s | s in {
      "malformed_envelope", "unknown_message_type", "message_too_large", "protocol_mismatch", "adapter_mismatch",
      "game_mismatch", "duplicate_message", "sequence_error", "stale_identity", "snapshot_failed",
      "internal_error"} :: W.Units(s)

  predicate ValidError(c: Contract, o: map<Text, Json>) {
    && Exactly(c, o, {W.Code, W.Message, W.Retryable})
    && Get(c, o, W.Code).Str? && Get(c, o, W.Code).text in ERROR_CODES
    && IsText(Get(c, o, W.Message)) && Get(c, o, W.Retryable).Bool?
  }

  /** `ValidatePayload`. */
  predicate ValidPayload(c: Contract, t: MessageType, o: map<Text, Json>) {
    match t
    case ClientHello => ValidClientHello(c, o)
    case BridgeHello => ValidBridgeHello(c, o)
    case AuthenticationFailure => Exactly(c, o, {W.Reason}) && IsWord(c, Get(c, o, W.Reason), W.AuthenticationFailed)
    case Heartbeat => Exactly(c, o, {W.Detail, W.Healthy}) && Get(c, o, W.Healthy).Bool? && IsOptionalText(Get(c, o, W.Detail))
    case CapabilityManifest => ValidManifest(c, o)
    case FullSnapshotRequest =>
      Exactly(c, o, {W.ExpectedBridgeInstanceId, W.ExpectedGameSessionId})
      && IsText(Get(c, o, W.ExpectedBridgeInstanceId)) && IsText(Get(c, o, W.ExpectedGameSessionId))
    case FullSnapshotResponse => Exactly(c, o, {W.Snapshot})
      && Get(c, o, W.Snapshot).Obj? && ValidSnapshot(c, Get(c, o, W.Snapshot).members)
    case ResynchronizationRequest => ValidResynchronization(c, o)
    case ProtocolError => ValidError(c, o)
  }

  // ---------------------------------------------------------------- snapshots

  const SNAPSHOT_KEYS: set<W.Word> := {
    W.AdapterVersion, W.Architecture, W.BridgeInstanceId, W.BridgeSequence, W.CaptureCompletedMarker, W.CaptureStartedMarker,
    W.CaptureTimestamp, W.GameId, W.GameSessionId, W.GameState, W.GameVersion, W.Limitations, W.MapIdentity, W.Platform,
    W.SaveIdentity, W.SchemaVersion, W.Surfaces, W.Warnings}

  predicate SnapshotTextsPresent(c: Contract, o: map<Text, Json>) {
    && IsText(Get(c, o, W.CaptureTimestamp)) && IsText(Get(c, o, W.CaptureStartedMarker))
    && IsText(Get(c, o, W.CaptureCompletedMarker)) && IsText(Get(c, o, W.BridgeInstanceId))
    && IsText(Get(c, o, W.GameSessionId)) && IsText(Get(c, o, W.GameId)) && IsText(Get(c, o, W.GameVersion))
    && IsText(Get(c, o, W.AdapterVersion)) && IsText(Get(c, o, W.Platform)) && IsText(Get(c, o, W.Architecture))
  }

  /** `ValidateSnapshot`. */
  predicate ValidSnapshot(c: Contract, o: map<Text, Json>) {
    && Exactly(c, o, SNAPSHOT_KEYS)
    && Get(c, o, W.SchemaVersion) == Int(1)
    && IsIntegerIn(Get(c, o, W.BridgeSequence), 1, MAXIMUM_INT64)
    && SnapshotTextsPresent(c, o)
    && ParseIdentity(c, Get(c, o, W.MapIdentity)).Some? && ParseIdentity(c, Get(c, o, W.SaveIdentity)).Some?
    && Get(c, o, W.GameState).Obj? && StringArray(Get(c, o, W.Warnings)) && StringArray(Get(c, o, W.Limitations))
    && Get(c, o, W.Surfaces).Arr? && ValidSurfaces(c, Get(c, o, W.Surfaces).items)
  }

  predicate ValidSurfaces(c: Contract, items: seq<Json>) {
    (forall i :: 0 <= i < |items| ==> ValidSurface(c, items[i])) && Ascending(SurfaceNames(c, items))
  }

  function SurfaceName(c: Contract, v: Json): Text { TextOf(Get(c, Members(Get(c, Members(v), W.Coverage)), W.Surface)) }
  function SurfaceNames(c: Contract, items: seq<Json>): seq<Text> {
    seq(|items|, i requires 0 <= i < |items| => SurfaceName(c, items[i]))
  }

  predicate IsUnobserved(c: Contract, v: Json) {
    IsWord(c, v, W.Unsupported) || IsWord(c, v, W.Unavailable) || IsWord(c, v, W.Failed)
  }

  predicate ValidSurface(c: Contract, v: Json) {
    var o := Members(v);
    var coverage := Get(c, o, W.Coverage);
    var entities := Get(c, o, W.Entities);
    && v.Obj? && Exactly(c, o, {W.Coverage, W.Entities})
    && coverage.Obj? && ValidCoverage(c, coverage.members)
    && entities.Arr?
    && (IsUnobserved(c, Get(c, coverage.members, W.Status)) ==> entities.items == [])
    && ValidEntities(c, entities.items)
  }

  predicate ValidCoverage(c: Contract, o: map<Text, Json>) {
    var status := Get(c, o, W.Status);
    && Exactly(c, o, {W.Detail, W.Fields, W.Status, W.Surface})
    && IsText(Get(c, o, W.Surface))
    && (IsWord(c, status, W.ObservedComplete) || IsWord(c, status, W.ObservedPartial) || IsUnobserved(c, status))
    && SortedStrings(Get(c, o, W.Fields)) && IsOptionalText(Get(c, o, W.Detail))
  }

  predicate ValidEntity(c: Contract, v: Json) {
    var o := Members(v);
    && v.Obj? && Exactly(c, o, {W.EntityId, W.EntityType, W.Values})
    && IsText(Get(c, o, W.EntityType)) && IsText(Get(c, o, W.EntityId)) && Get(c, o, W.Values).Obj?
  }

  /** Type and identifier joined by a NUL. */
  function Joined(kind: Text, id: Text): Text { kind + [0] + id }
  function EntityKey(c: Contract, v: Json): Text {
    Joined(TextOf(Get(c, Members(v), W.EntityType)), TextOf(Get(c, Members(v), W.EntityId)))
  }
  function EntityKeys(c: Contract, items: seq<Json>): seq<Text> {
    seq(|items|, i requires 0 <= i < |items| => EntityKey(c, items[i]))
  }

  predicate ValidEntities(c: Contract, items: seq<Json>) {
    (forall i :: 0 <= i < |items| ==> ValidEntity(c, items[i])) && Ascending(EntityKeys(c, items))
  }

  // ---------------------------------------------------------------- envelopes

  predicate IsResponse(t: MessageType) {
    t.BridgeHello? || t.AuthenticationFailure? || t.FullSnapshotResponse? || t.ProtocolError?
  }

  /** `ValidateEnvelope`. */
  predicate ValidEnvelope(c: Contract, e: Envelope) {
    && e.protocolVersion == c.protocolVersion && e.adapterVersion == c.adapterVersion && e.gameId == c.gameId
    && e.gameVersion == c.supportedGameVersion
    && (e.platform == c.name(W.Macos) || e.platform == c.name(W.Windows) || e.platform == c.name(W.Linux))
    && (e.architecture == c.name(W.X86_64) || e.architecture == c.name(W.Arm64))
    && !IsBlankText(e.bridgeInstanceId) && !IsBlankText(e.gameSessionId) && !IsBlankText(e.messageId)
    && e.bridgeSequence >= 1
    && ValidIdentity(c, e.mapIdentity) && ValidIdentity(c, e.saveIdentity)
    && e.timestamp.offset == 0 && e.payload.Obj?
    && (IsResponse(e.messageType) ==> e.correlationId.Some?)
  }

  predicate Sendable(c: Contract, e: Envelope) {
    ValidEnvelope(c, e) && ValidPayload(c, e.messageType, e.payload.members)
  }

  /** A value an `Envelope` object of the bridge can have: a 64-bit sequence, a real instant, a document. */
  predicate IsEnvelope(e: Envelope) {
    IsInt64(e.bridgeSequence) && IsInstant(e.timestamp) && Holds(e.payload)
  }

  ghost function EnvelopeField(c: Contract, e: Envelope, w: W.Word): Json
    requires Distinct(c)
  {
    if w.ProtocolVersion? then Int(e.protocolVersion)
    else if w.AdapterVersion? then Str(e.adapterVersion)
    else if w.GameId? then Str(e.gameId)
    else if w.GameVersion? then Str(e.gameVersion)
    else if w.Platform? then Str(e.platform)
    else if w.Architecture? then Str(e.architecture)
    else if w.BridgeInstanceId? then Str(e.bridgeInstanceId)
    else if w.GameSessionId? then Str(e.gameSessionId)
    else if w.MapIdentity? then IdentityJson(c, e.mapIdentity)
    else if w.SaveIdentity? then IdentityJson(c, e.saveIdentity)
    else if w.MessageId? then Str(e.messageId)
    else if w.CorrelationId? then Nullable(e.correlationId)
    else if w.BridgeSequence? then Int(e.bridgeSequence)
    else if w.MessageType? then Str(c.name(TypeWord(e.messageType)))
    else if w.Timestamp? then Str(TimeText(e.timestamp))
    else if w.Payload? then e.payload
    else Null
  }

  ghost function EnvelopeFields(c: Contract, e: Envelope): W.Word -> Json
    requires Distinct(c)
  {
    w => EnvelopeField(c, e, w)
  }

  ghost function EnvelopeJson(c: Contract, e: Envelope): Json
    requires Distinct(c)
  {
    Object(c, ENVELOPE_KEYS, EnvelopeFields(c, e))
  }

  const ENVELOPE_KEYS: set<W.Word> := {
    W.AdapterVersion, W.Architecture, W.BridgeInstanceId, W.BridgeSequence, W.CorrelationId, W.GameId, W.GameSessionId,
    W.GameVersion, W.MapIdentity, W.MessageId, W.MessageType, W.Payload, W.Platform, W.ProtocolVersion, W.SaveIdentity,
    W.Timestamp}

  /** `SerializeEnvelope`; `None` when validation refuses the envelope. */
  ghost function SerializeEnvelope(c: Contract, d: Doubles, e: Envelope): Option<Text>
    requires Distinct(c)
  {
    if Sendable(c, e) then Some(Serialize(d, EnvelopeJson(c, e))) else None
  }

  predicate EnvelopeTextsPresent(c: Contract, o: map<Text, Json>) {
    && IsText(Get(c, o, W.AdapterVersion)) && IsText(Get(c, o, W.GameId)) && IsText(Get(c, o, W.GameVersion))
    && IsText(Get(c, o, W.Platform)) && IsText(Get(c, o, W.Architecture)) && IsText(Get(c, o, W.BridgeInstanceId))
    && IsText(Get(c, o, W.GameSessionId)) && IsText(Get(c, o, W.MessageId))
  }

  /** The members that spell the values of an envelope are readable one by one. */
  predicate Readable(c: Contract, o: map<Text, Json>) {
    && IsIntegerIn(Get(c, o, W.ProtocolVersion), c.protocolVersion, c.protocolVersion)
    && Get(c, o, W.Timestamp).Str? && ParseTime(Get(c, o, W.Timestamp).text).Some?
    && EnvelopeTextsPresent(c, o)
    && ParseIdentity(c, Get(c, o, W.MapIdentity)).Some? && ParseIdentity(c, Get(c, o, W.SaveIdentity)).Some?
    && IsOptionalText(Get(c, o, W.CorrelationId))
    && IsIntegerIn(Get(c, o, W.BridgeSequence), 1, MAXIMUM_INT64)
    && Get(c, o, W.MessageType).Str? && ParseMessageType(c, Get(c, o, W.MessageType).text).Some?
  }

  /** The envelope an object with the right keys spells out, before it is validated. */
  function ReadEnvelope(c: Contract, o: map<Text, Json>): Envelope
    requires Readable(c, o)
  {
    Envelope(
      Get(c, o, W.ProtocolVersion).n, TextOf(Get(c, o, W.AdapterVersion)), TextOf(Get(c, o, W.GameId)),
      TextOf(Get(c, o, W.GameVersion)), TextOf(Get(c, o, W.Platform)), TextOf(Get(c, o, W.Architecture)),
      TextOf(Get(c, o, W.BridgeInstanceId)), TextOf(Get(c, o, W.GameSessionId)),
      ParseIdentity(c, Get(c, o, W.MapIdentity)).value, ParseIdentity(c, Get(c, o, W.SaveIdentity)).value,
      TextOf(Get(c, o, W.MessageId)), OptionalText(Get(c, o, W.CorrelationId)), Get(c, o, W.BridgeSequence).n,
      ParseMessageType(c, Get(c, o, W.MessageType).text).value, ParseTime(Get(c, o, W.Timestamp).text).value,
      Get(c, o, W.Payload))
  }

  /** `ParseEnvelope`. */
  function ParseEnvelope(c: Contract, json: Text): Option<Envelope> {
    match Parse(json)
    case None => None
    case Some(root) =>
      if !root.Obj? || !Exactly(c, root.members, ENVELOPE_KEYS) || !Readable(c, root.members) then None
      else
        var e := ReadEnvelope(c, root.members);
        if Sendable(c, e) then Some(e) else None
  }
}
