/** The messages of the server as it builds them, and when the validator lets each of them through. */
module Messages {
  import opened Texts
  import opened Json
  import opened JsonRoundTrip
  import opened Timestamps
  import opened Protocol
  import opened ProtocolNumbers
  import opened ProtocolRoundTrip
  import opened Session
  import Snapshot
  import SnapshotReader
  import W = Vocabulary

  // ---------------------------------------------------------------- payloads

  const HELLO_KEYS: set<W.Word> := {
    W.Authenticated, W.HeartbeatIntervalSeconds, W.MaximumMessageBytes, W.NegotiatedProtocolVersion}
  const MANIFEST_KEYS: set<W.Word> := {
    W.DeltaSnapshots, W.FullSnapshots, W.GameplayActions, W.ObservationSurfaces, W.Resynchronization, W.SchemaVersion}
  const BEAT_KEYS: set<W.Word> := {W.Detail, W.Healthy}
  const REFUSAL_KEYS: set<W.Word> := {W.Reason}
  const ERROR_KEYS: set<W.Word> := {W.Code, W.Message, W.Retryable}

  /** `BridgeHelloPayload`. */
  function HelloField(c: Contract, w: W.Word): Json {
    if w.Authenticated? then Bool(true)
    else if w.NegotiatedProtocolVersion? then Int(c.protocolVersion)
    else if w.MaximumMessageBytes? then Int(c.maximumMessageBytes)
    else Num(TWO)
  }

  /** `CapabilityPayload`. */
  function ManifestField(c: Contract, w: W.Word): Json {
    if w.SchemaVersion? then Int(1)
    else if w.ObservationSurfaces? then Snapshot.Strings(c.surfaces)
    else if w.GameplayActions? then Arr([])
    else Bool(!w.DeltaSnapshots?)
  }

  /** `HeartbeatPayload`. */
  function BeatField(w: W.Word): Json { if w.Healthy? then Bool(true) else Null }

  /** `AuthenticationFailurePayload`. */
  function RefusalField(c: Contract): Json { Str(c.name(W.AuthenticationFailed)) }

  /** `ErrorPayload`; no error of the server can be retried but a failed capture, which is never sent. */
  function ErrorField(code: Text, message: Text, w: W.Word): Json {
    if w.Code? then Str(code) else if w.Message? then Str(message) else Bool(false)
  }

  function HelloFields(c: Contract): W.Word -> Json { w => HelloField(c, w) }
  function ManifestFields(c: Contract): W.Word -> Json { w => ManifestField(c, w) }
  function BeatFields(): W.Word -> Json { w => BeatField(w) }
  function RefusalFields(c: Contract): W.Word -> Json { w => RefusalField(c) }
  function ErrorFields(code: Text, message: Text): W.Word -> Json { w => ErrorField(code, message, w) }

  /** The text of an error code. */
  function CodeText(body: Body): Text { if body.Code? then W.Units(body.name) else [] }

  function ResponseOf(server: Server, r: Reply, captured: Timestamp): Snapshot.Response {
    Snapshot.Response(r.state, server.bridgeInstanceId, if r.body.Promise? then r.body.sequence else 0, captured)
  }

  ghost function SnapshotPayload(server: Server, r: Reply, captured: Timestamp): Json
    requires Distinct(server.contract)
  {
    match Snapshot.SnapshotResponsePayload(server.contract, ResponseOf(server, r, captured))
    case Some(payload) => payload
    case None => Null
  }

  /** The payload of a message without a snapshot. */
  ghost function SmallPayload(c: Contract, r: Reply, message: Text): Json
    requires Distinct(c)
  {
    match r.kind
    case BridgeHello => Object(c, HELLO_KEYS, HelloFields(c))
    case CapabilityManifest => Object(c, MANIFEST_KEYS, ManifestFields(c))
    case Heartbeat => Object(c, BEAT_KEYS, BeatFields())
    case AuthenticationFailure => Object(c, REFUSAL_KEYS, RefusalFields(c))
    case ProtocolError => Object(c, ERROR_KEYS, ErrorFields(CodeText(r.body), message))
    case _ => Null
  }

  /** The payload that goes with a reply; `message` is the wording of an error, `captured` the time of a capture. */
  ghost function PayloadOf(server: Server, r: Reply, message: Text, captured: Timestamp): Json
    requires Distinct(server.contract)
  {
    if r.kind.FullSnapshotResponse? then SnapshotPayload(server, r, captured) else SmallPayload(server.contract, r, message)
  }

  /** The envelope `Send` builds for a reply. */
  ghost function EnvelopeFor(server: Server, r: Reply, message: Text, captured: Timestamp, now: Timestamp): Envelope
    requires Distinct(server.contract)
  {
    var c := server.contract;
    var st := r.state;
    Envelope(
      c.protocolVersion, c.adapterVersion, c.gameId, st.gameVersion, st.platform, st.architecture,
      server.bridgeInstanceId, st.gameSessionId, st.mapIdentity, st.saveIdentity, IdText(server, r.sequence),
      r.correlation, r.sequence, r.kind, now, PayloadOf(server, r, message, captured))
  }

  // ---------------------------------------------------------------- which payloads are valid

  /** The hello is valid exactly when the contract's frame limit is one the protocol allows. */
  lemma HelloValid(c: Contract)
    requires ValidContract(c)
    ensures ValidBridgeHello(c, Object(c, HELLO_KEYS, HelloFields(c)).members) <==> c.maximumMessageBytes <= 16_777_216
  {
    var o := Object(c, HELLO_KEYS, HelloFields(c)).members;
    ObjectSpells(c, HELLO_KEYS, HelloFields(c));
    SpelledAt(c, HELLO_KEYS, HelloFields(c), o, W.Authenticated);
    SpelledAt(c, HELLO_KEYS, HelloFields(c), o, W.HeartbeatIntervalSeconds);
    SpelledAt(c, HELLO_KEYS, HelloFields(c), o, W.MaximumMessageBytes);
    SpelledAt(c, HELLO_KEYS, HelloFields(c), o, W.NegotiatedProtocolVersion);
    TwoIsPositive();
  }

  /** The manifest is always valid: the contract keeps its surfaces in ordinal order. */
  lemma ManifestValid(c: Contract)
    requires ValidContract(c)
    ensures var o := Object(c, MANIFEST_KEYS, ManifestFields(c)).members;
      ValidManifest(c, o) && Get(c, o, W.ObservationSurfaces) == Snapshot.Strings(c.surfaces)
  {
    var value, o := ManifestFields(c), Object(c, MANIFEST_KEYS, ManifestFields(c)).members;
    ObjectSpells(c, MANIFEST_KEYS, value);
    SpelledAt(c, MANIFEST_KEYS, value, o, W.SchemaVersion);
    SpelledAt(c, MANIFEST_KEYS, value, o, W.FullSnapshots);
    SpelledAt(c, MANIFEST_KEYS, value, o, W.DeltaSnapshots);
    SpelledAt(c, MANIFEST_KEYS, value, o, W.Resynchronization);
    SpelledAt(c, MANIFEST_KEYS, value, o, W.ObservationSurfaces);
    SpelledAt(c, MANIFEST_KEYS, value, o, W.GameplayActions);
    Snapshot.StringsSorted(c.surfaces);
  }

  lemma BeatValid(c: Contract)
    requires Distinct(c)
    ensures ValidPayload(c, Heartbeat, Object(c, BEAT_KEYS, BeatFields()).members)
  {
    var o := Object(c, BEAT_KEYS, BeatFields()).members;
    ObjectSpells(c, BEAT_KEYS, BeatFields());
    SpelledAt(c, BEAT_KEYS, BeatFields(), o, W.Healthy);
    SpelledAt(c, BEAT_KEYS, BeatFields(), o, W.Detail);
  }

  lemma RefusalValid(c: Contract)
    requires Distinct(c)
    ensures ValidPayload(c, AuthenticationFailure, Object(c, REFUSAL_KEYS, RefusalFields(c)).members)
  {
    var o := Object(c, REFUSAL_KEYS, RefusalFields(c)).members;
    ObjectSpells(c, REFUSAL_KEYS, RefusalFields(c));
    SpelledAt(c, REFUSAL_KEYS, RefusalFields(c), o, W.Reason);
  }

  /** An error is valid exactly when its code is one of the eleven and it says something. */
  lemma ErrorValid(c: Contract, code: Text, message: Text)
    requires Distinct(c)
    ensures var o := Object(c, ERROR_KEYS, ErrorFields(code, message)).members;
      && (ValidError(c, o) <==> code in ERROR_CODES && !IsBlankText(message)) && TextOf(Get(c, o, W.Code)) == code
  {
    var value, o := ErrorFields(code, message), Object(c, ERROR_KEYS, ErrorFields(code, message)).members;
    ObjectSpells(c, ERROR_KEYS, value);
    SpelledAt(c, ERROR_KEYS, value, o, W.Code);
    SpelledAt(c, ERROR_KEYS, value, o, W.Message);
    SpelledAt(c, ERROR_KEYS, value, o, W.Retryable);
  }

  /** What a receiver finds in a hello: that the token was right, the version, the limit on frames, and the interval. */
  lemma HelloTells(c: Contract)
    requires Distinct(c)
    ensures var o := Object(c, HELLO_KEYS, HelloFields(c)).members;
      && Get(c, o, W.Authenticated) == Bool(true) && Get(c, o, W.NegotiatedProtocolVersion) == Int(c.protocolVersion)
      && Get(c, o, W.MaximumMessageBytes) == Int(c.maximumMessageBytes) && Get(c, o, W.HeartbeatIntervalSeconds) == Num(TWO)
  {
    var value, o := HelloFields(c), Object(c, HELLO_KEYS, HelloFields(c)).members;
    ObjectSpells(c, HELLO_KEYS, value);
    SpelledAt(c, HELLO_KEYS, value, o, W.Authenticated);
    SpelledAt(c, HELLO_KEYS, value, o, W.NegotiatedProtocolVersion);
    SpelledAt(c, HELLO_KEYS, value, o, W.MaximumMessageBytes);
    SpelledAt(c, HELLO_KEYS, value, o, W.HeartbeatIntervalSeconds);
  }

  /** And in a heartbeat and an error: that the bridge is well, and that it is of no use to try again. */
  lemma BeatAndErrorTell(c: Contract, code: Text, message: Text)
    requires Distinct(c)
    ensures var o := Object(c, BEAT_KEYS, BeatFields()).members;
      Get(c, o, W.Healthy) == Bool(true) && Get(c, o, W.Detail) == Null
    ensures var o := Object(c, ERROR_KEYS, ErrorFields(code, message)).members;
      Get(c, o, W.Code) == Str(code) && Get(c, o, W.Message) == Str(message) && Get(c, o, W.Retryable) == Bool(false)
  {
    var beat, error := Object(c, BEAT_KEYS, BeatFields()).members, Object(c, ERROR_KEYS, ErrorFields(code, message)).members;
    ObjectSpells(c, BEAT_KEYS, BeatFields());
    SpelledAt(c, BEAT_KEYS, BeatFields(), beat, W.Healthy);
    SpelledAt(c, BEAT_KEYS, BeatFields(), beat, W.Detail);
    ObjectSpells(c, ERROR_KEYS, ErrorFields(code, message));
    SpelledAt(c, ERROR_KEYS, ErrorFields(code, message), error, W.Code);
    SpelledAt(c, ERROR_KEYS, ErrorFields(code, message), error, W.Message);
    SpelledAt(c, ERROR_KEYS, ErrorFields(code, message), error, W.Retryable);
  }

  // ---------------------------------------------------------------- which envelopes are valid

  /** What the server's replies look like: only these kinds, each with its body and, if it answers, the id it answers. */
  predicate IsReply(server: Server, r: Reply) {
    match r.kind
    case BridgeHello => r.correlation.Some?
    case AuthenticationFailure => r.correlation.Some?
    case Heartbeat => true
    case CapabilityManifest => true
    case ProtocolError => r.correlation.Some? && r.body.Code?
    case FullSnapshotResponse =>
      r.correlation.Some? && r.body == Promise(r.sequence) && Snapshot.Buildable(server.contract, r.state)
    case _ => false
  }

  /** The game runs in the version and on a machine the protocol knows, and says who it is. */
  predicate Presentable(server: Server, st: State) {
    var c := server.contract;
    && st.gameVersion == c.supportedGameVersion
    && (st.platform == c.name(W.Macos) || st.platform == c.name(W.Windows) || st.platform == c.name(W.Linux))
    && (st.architecture == c.name(W.X86_64) || st.architecture == c.name(W.Arm64))
    && !IsBlankText(st.gameSessionId) && ValidIdentity(c, st.mapIdentity) && ValidIdentity(c, st.saveIdentity)
  }

  /** What the kind of a reply asks for besides. */
  ghost predicate Expressible(server: Server, r: Reply, message: Text, captured: Timestamp) {
    && (r.kind.BridgeHello? ==> server.contract.maximumMessageBytes <= 16_777_216)
    && (r.kind.ProtocolError? ==> CodeText(r.body) in ERROR_CODES && !IsBlankText(message))
    && (r.kind.FullSnapshotResponse? ==> Snapshot.SoundResponse(server.contract, ResponseOf(server, r, captured)))
  }

  lemma HelloPayloadValid(server: Server, r: Reply, message: Text, captured: Timestamp)
    requires ValidContract(server.contract) && r.kind.BridgeHello?
    ensures PayloadOf(server, r, message, captured).Obj?
    ensures ValidPayload(server.contract, r.kind, PayloadOf(server, r, message, captured).members) <==>
      Expressible(server, r, message, captured)
  {
    HelloValid(server.contract);
  }

  lemma ErrorPayloadValid(server: Server, r: Reply, message: Text, captured: Timestamp)
    requires ValidContract(server.contract) && r.kind.ProtocolError?
    ensures PayloadOf(server, r, message, captured).Obj?
    ensures ValidPayload(server.contract, r.kind, PayloadOf(server, r, message, captured).members) <==>
      Expressible(server, r, message, captured)
  {
    ErrorValid(server.contract, CodeText(r.body), message);
  }

  lemma SnapshotPayloadValid(server: Server, r: Reply, message: Text, captured: Timestamp)
    requires ValidContract(server.contract) && Snapshot.FieldsInOrder(server.contract)
    requires IsReply(server, r) && r.kind.FullSnapshotResponse?
    ensures PayloadOf(server, r, message, captured).Obj?
    ensures ValidPayload(server.contract, r.kind, PayloadOf(server, r, message, captured).members) <==>
      Expressible(server, r, message, captured)
  {
    var response := ResponseOf(server, r, captured);
    assert Snapshot.SnapshotResponsePayload(server.contract, response).Some?;
    Snapshot.PayloadExact(server.contract, response);
    assert PayloadOf(server, r, message, captured) == Snapshot.SnapshotResponsePayload(server.contract, response).value;
  }

  lemma FixedPayloadValid(server: Server, r: Reply, message: Text, captured: Timestamp)
    requires ValidContract(server.contract)
    requires r.kind.CapabilityManifest? || r.kind.Heartbeat? || r.kind.AuthenticationFailure?
    ensures PayloadOf(server, r, message, captured).Obj?
    ensures ValidPayload(server.contract, r.kind, PayloadOf(server, r, message, captured).members)
  {
    ManifestValid(server.contract);
    BeatValid(server.contract);
    RefusalValid(server.contract);
  }

  lemma PayloadValid(server: Server, r: Reply, message: Text, captured: Timestamp)
    requires ValidContract(server.contract) && Snapshot.FieldsInOrder(server.contract) && IsReply(server, r)
    ensures PayloadOf(server, r, message, captured).Obj?
    ensures ValidPayload(server.contract, r.kind, PayloadOf(server, r, message, captured).members) <==>
      Expressible(server, r, message, captured)
  {
    if r.kind.BridgeHello? {
      HelloPayloadValid(server, r, message, captured);
    } else if r.kind.ProtocolError? {
      ErrorPayloadValid(server, r, message, captured);
    } else if r.kind.FullSnapshotResponse? {
      SnapshotPayloadValid(server, r, message, captured);
    } else {
      FixedPayloadValid(server, r, message, captured);
    }
  }

  lemma IdLegible(server: Server, n: nat)
    ensures !IsBlankText(IdText(server, n))
  {
    assert IdText(server, n)[|server.bridgeInstanceId|] == COLON;
    assert !IsSpace(COLON);
  }

  /**
   * A reply can be sent exactly when the game is presentable, the bridge has a name, and what its kind asks for is given.
   */
  lemma ReplySendable(server: Server, r: Reply, message: Text, captured: Timestamp, now: Timestamp)
    requires ValidContract(server.contract) && Snapshot.FieldsInOrder(server.contract) && IsReply(server, r)
    requires r.sequence >= 1 && now.offset == 0
    ensures Sendable(server.contract, EnvelopeFor(server, r, message, captured, now)) <==>
      !IsBlankText(server.bridgeInstanceId) && Presentable(server, r.state) && Expressible(server, r, message, captured)
  {
    PayloadValid(server, r, message, captured);
    IdLegible(server, r.sequence);
    EnvelopeParts(server, r, message, captured, now);
  }

  lemma EnvelopeParts(server: Server, r: Reply, message: Text, captured: Timestamp, now: Timestamp)
    requires Distinct(server.contract) && IsReply(server, r) && r.sequence >= 1 && now.offset == 0
    requires PayloadOf(server, r, message, captured).Obj? && !IsBlankText(IdText(server, r.sequence))
    ensures ValidEnvelope(server.contract, EnvelopeFor(server, r, message, captured, now)) <==>
      !IsBlankText(server.bridgeInstanceId) && Presentable(server, r.state)
  {
  }

  // ---------------------------------------------------------------- what the receiver gets

  /** The payload of every reply but a snapshot holds no fractional number besides the interval of a hello. */
  lemma PayloadPrints(d: Doubles, server: Server, r: Reply, message: Text, captured: Timestamp)
    requires ValidDoubles(d) && ValidContract(server.contract) && IsReply(server, r) && !r.kind.FullSnapshotResponse?
    requires server.contract.maximumMessageBytes <= 16_777_216
    ensures var payload := PayloadOf(server, r, message, captured);
      Holds(payload) && Everywhere(InRange(d), payload) && Printed(d, payload) == payload
  {
    var c := server.contract;
    match r.kind {
      case BridgeHello => HelloPrints(d, c);
      case CapabilityManifest => ManifestPrints(d, c);
      case Heartbeat => FieldsPrint(d, c, BEAT_KEYS, BeatFields());
      case AuthenticationFailure => FieldsPrint(d, c, REFUSAL_KEYS, RefusalFields(c));
      case ProtocolError => FieldsPrint(d, c, ERROR_KEYS, ErrorFields(CodeText(r.body), message));
    }
  }

  /** A value that is held, prints as itself and stays in range. */
  predicate PrintsAsIs(d: Doubles, v: Json) { Holds(v) && Everywhere(InRange(d), v) && Printed(d, v) == v }

  lemma FieldsPrint(d: Doubles, c: Contract, words: set<W.Word>, value: W.Word -> Json)
    requires Distinct(c) && forall w :: w in words ==> PrintsAsIs(d, value(w))
    ensures PrintsAsIs(d, Object(c, words, value))
  {
    ObjectHolds(c, words, value);
    ObjectPrinted(c, d, words, value, value);
    ObjectEverywhere(InRange(d), c, words, value);
  }

  lemma HelloPrints(d: Doubles, c: Contract)
    requires ValidDoubles(d) && ValidContract(c) && c.maximumMessageBytes <= 16_777_216
    ensures PrintsAsIs(d, Object(c, HELLO_KEYS, HelloFields(c)))
  {
    TwoIsPositive();
    FieldsPrint(d, c, HELLO_KEYS, HelloFields(c));
  }

  lemma ManifestPrints(d: Doubles, c: Contract)
    requires ValidContract(c)
    ensures PrintsAsIs(d, Object(c, MANIFEST_KEYS, ManifestFields(c)))
  {
    StringsPrint(d, c.surfaces);
    FieldsPrint(d, c, MANIFEST_KEYS, ManifestFields(c));
  }

  lemma StringsPrint(d: Doubles, texts: seq<Text>)
    ensures PrintsAsIs(d, Snapshot.Strings(texts))
  {
    assert Printed(d, Snapshot.Strings(texts)).items == Snapshot.Strings(texts).items;
  }

  /** The ends of a message that the receiver holds against its own rules. */
  predicate Legible(r: Reply) {
    NullOrNonBlank(r.correlation) && Travels(r.state.mapIdentity) && Travels(r.state.saveIdentity)
  }

  /**
   * Every reply other than a snapshot arrives as it was built. A snapshot arrives with its numbers as they are written,
   * if these are in range.
   */
  lemma ReplyArrives(d: Doubles, server: Server, r: Reply, message: Text, captured: Timestamp, now: Timestamp)
    requires ValidContract(server.contract) && ValidDoubles(d) && Snapshot.FieldsInOrder(server.contract)
    requires IsReply(server, r) && 1 <= r.sequence <= MAXIMUM_INT64 && IsInstant(now) && now.offset == 0
    requires !IsBlankText(server.bridgeInstanceId) && Presentable(server, r.state) && Legible(r)
    requires Expressible(server, r, message, captured) && server.contract.maximumMessageBytes <= 16_777_216
    requires r.kind.FullSnapshotResponse? ==>
      var payload := PayloadOf(server, r, message, captured); Holds(payload) && Everywhere(InRange(d), payload)
    ensures var c, e := server.contract, EnvelopeFor(server, r, message, captured, now);
      && SerializeEnvelope(c, d, e).Some?
      && ParseEnvelope(c, SerializeEnvelope(c, d, e).value) == Some(PrintedEnvelope(d, e))
      && (!r.kind.FullSnapshotResponse? ==> PrintedEnvelope(d, e) == e)
  {
    var e := EnvelopeFor(server, r, message, captured, now);
    ReplySendable(server, r, message, captured, now);
    if !r.kind.FullSnapshotResponse? { PayloadPrints(d, server, r, message, captured); }
    EnvelopeArrives(server.contract, d, e);
    ReplyKeepsInterval(d, server, r, message, captured);
  }

  lemma ReplyKeepsInterval(d: Doubles, server: Server, r: Reply, message: Text, captured: Timestamp)
    requires ValidDoubles(d) && Distinct(server.contract) && IsReply(server, r)
    requires PayloadOf(server, r, message, captured).Obj?
    ensures KeepsInterval(server.contract, d, r.kind, PayloadOf(server, r, message, captured).members)
  {
    if r.kind.BridgeHello? {
      var c := server.contract;
      ObjectSpells(c, HELLO_KEYS, HelloFields(c));
      SpelledAt(c, HELLO_KEYS, HelloFields(c), PayloadOf(server, r, message, captured).members, W.HeartbeatIntervalSeconds);
      TwoIsPositive();
    }
  }
}
