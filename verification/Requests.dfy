/** The requests of the client as it writes them, and what the server reads them as. */
module Requests {
  import opened Texts
  import opened Json
  import opened JsonReading
  import opened JsonProofs
  import opened Timestamps
  import opened Protocol
  import opened ProtocolRoundTrip
  import C = Client
  import W = Vocabulary

  /** What the client is configured with, and the reason it gives for a new start. */
  datatype Config = Config(token: Text, clientInstanceId: Text, reason: Text, expected: C.Expected)

  /** The one version of the protocol the client speaks. */
  const PROTOCOL_VERSION: int := 3

  const HELLO_KEYS: set<W.Word> := {
    W.AuthenticationToken, W.ClientInstanceId, W.ExpectedAdapterVersion, W.ExpectedGameId, W.ExpectedGameVersion,
    W.RequestedProtocolVersion}
  const SNAPSHOT_KEYS: set<W.Word> := {W.ExpectedBridgeInstanceId, W.ExpectedGameSessionId}
  const AGAIN_KEYS: set<W.Word> := {W.LastBridgeInstanceId, W.LastBridgeSequence, W.LastGameSessionId, W.Reason}

  function HelloField(g: Config, w: W.Word): Json {
    if w.AuthenticationToken? then Str(g.token)
    else if w.ClientInstanceId? then Str(g.clientInstanceId)
    else if w.ExpectedAdapterVersion? then Str(g.expected.adapterVersion)
    else if w.ExpectedGameId? then Str(g.expected.gameId)
    else if w.ExpectedGameVersion? then Str(g.expected.gameVersion)
    else Int(PROTOCOL_VERSION)
  }

  function SnapshotField(instance: Text, session: Text, w: W.Word): Json {
    if w.ExpectedBridgeInstanceId? then Str(instance) else Str(session)
  }

  function AgainField(g: Config, lastInstance: Option<Text>, lastSession: Option<Text>, last: Option<int>, w: W.Word): Json {
    if w.LastBridgeInstanceId? then Nullable(lastInstance)
    else if w.LastGameSessionId? then Nullable(lastSession)
    else if w.LastBridgeSequence? then if last.Some? then Int(last.value) else Null
    else Str(g.reason)
  }

  function AskKeys(ask: C.Ask): set<W.Word> {
    match ask
    case AskHello => HELLO_KEYS
    case AskSnapshot(_, _) => SNAPSHOT_KEYS
    case AskAgain(_, _, _) => AGAIN_KEYS
  }

  function AskFields(g: Config, ask: C.Ask): W.Word -> Json {
    match ask
    case AskHello => (w => HelloField(g, w))
    case AskSnapshot(instance, session) => (w => SnapshotField(instance, session, w))
    case AskAgain(lastInstance, lastSession, last) => (w => AgainField(g, lastInstance, lastSession, last, w))
  }

  function KindOf(ask: C.Ask): MessageType {
    match ask
    case AskHello => ClientHello
    case AskSnapshot(_, _) => FullSnapshotRequest
    case AskAgain(_, _, _) => ResynchronizationRequest
  }

  ghost function PayloadOf(c: Contract, g: Config, ask: C.Ask): Json
    requires Distinct(c)
  {
    Object(c, AskKeys(ask), AskFields(g, ask))
  }

  /** The envelope `_send` builds. */
  ghost function EnvelopeOf(c: Contract, g: Config, s: C.Sent, now: Timestamp): Envelope
    requires Distinct(c)
  {
    Envelope(PROTOCOL_VERSION, g.expected.adapterVersion, g.expected.gameId, g.expected.gameVersion, g.expected.platform,
             g.expected.architecture, s.instance, s.session, s.mapIdentity, s.saveIdentity, s.id, None, s.sequence,
             KindOf(s.ask), now, PayloadOf(c, g, s.ask))
  }

  // ---------------------------------------------------------------- which requests are valid

  /** The client is configured for the contract of the server. */
  predicate Configured(c: Contract, g: Config) {
    && c.protocolVersion == PROTOCOL_VERSION && g.expected.adapterVersion == c.adapterVersion
    && g.expected.gameId == c.gameId && g.expected.gameVersion == c.supportedGameVersion
    && g.expected.platform in {c.name(W.Macos), c.name(W.Windows), c.name(W.Linux)}
    && g.expected.architecture in {c.name(W.X86_64), c.name(W.Arm64)}
    && |g.token| >= 32 && !IsBlankText(g.token) && !IsBlankText(g.clientInstanceId) && !IsBlankText(g.reason)
  }

  /** The request says from whom and to whom it is, and asks for something definite. */
  predicate Definite(c: Contract, s: C.Sent) {
    && !IsBlankText(s.id) && !IsBlankText(s.instance) && !IsBlankText(s.session) && s.sequence >= 1
    && ValidIdentity(c, s.mapIdentity) && ValidIdentity(c, s.saveIdentity) && DefiniteAsk(s.ask)
  }

  predicate DefiniteAsk(ask: C.Ask) {
    match ask
    case AskHello => true
    case AskSnapshot(instance, session) => !IsBlankText(instance) && !IsBlankText(session)
    case AskAgain(lastInstance, lastSession, last) =>
      NullOrNonBlank(lastInstance) && NullOrNonBlank(lastSession) && (last.Some? ==> 1 <= last.value <= MAXIMUM_INT64)
  }

  lemma HelloReads(c: Contract, g: Config)
    requires Distinct(c)
    ensures var o := PayloadOf(c, g, C.AskHello).members;
      && Exactly(c, o, HELLO_KEYS) && Get(c, o, W.AuthenticationToken) == Str(g.token)
      && Get(c, o, W.ClientInstanceId) == Str(g.clientInstanceId)
      && Get(c, o, W.ExpectedAdapterVersion) == Str(g.expected.adapterVersion)
      && Get(c, o, W.ExpectedGameId) == Str(g.expected.gameId)
      && Get(c, o, W.ExpectedGameVersion) == Str(g.expected.gameVersion)
      && Get(c, o, W.RequestedProtocolVersion) == Int(PROTOCOL_VERSION)
  {
    var value, o := AskFields(g, C.AskHello), PayloadOf(c, g, C.AskHello).members;
    ObjectSpells(c, HELLO_KEYS, value);
    SpelledAt(c, HELLO_KEYS, value, o, W.AuthenticationToken);
    SpelledAt(c, HELLO_KEYS, value, o, W.ClientInstanceId);
    SpelledAt(c, HELLO_KEYS, value, o, W.ExpectedAdapterVersion);
    SpelledAt(c, HELLO_KEYS, value, o, W.ExpectedGameId);
    SpelledAt(c, HELLO_KEYS, value, o, W.ExpectedGameVersion);
    SpelledAt(c, HELLO_KEYS, value, o, W.RequestedProtocolVersion);
  }

  lemma SnapshotReads(c: Contract, g: Config, instance: Text, session: Text)
    requires Distinct(c)
    ensures var o := PayloadOf(c, g, C.AskSnapshot(instance, session)).members;
      && Exactly(c, o, SNAPSHOT_KEYS) && Get(c, o, W.ExpectedBridgeInstanceId) == Str(instance)
      && Get(c, o, W.ExpectedGameSessionId) == Str(session)
  {
    var ask := C.AskSnapshot(instance, session);
    var value, o := AskFields(g, ask), PayloadOf(c, g, ask).members;
    ObjectSpells(c, SNAPSHOT_KEYS, value);
    SpelledAt(c, SNAPSHOT_KEYS, value, o, W.ExpectedBridgeInstanceId);
    SpelledAt(c, SNAPSHOT_KEYS, value, o, W.ExpectedGameSessionId);
  }

  lemma AgainReads(c: Contract, g: Config, lastInstance: Option<Text>, lastSession: Option<Text>, last: Option<int>)
    requires Distinct(c)
    ensures var o := PayloadOf(c, g, C.AskAgain(lastInstance, lastSession, last)).members;
      && Exactly(c, o, AGAIN_KEYS) && Get(c, o, W.LastBridgeInstanceId) == Nullable(lastInstance)
      && Get(c, o, W.LastGameSessionId) == Nullable(lastSession)
      && Get(c, o, W.LastBridgeSequence) == (if last.Some? then Int(last.value) else Null)
      && Get(c, o, W.Reason) == Str(g.reason)
  {
    var ask := C.AskAgain(lastInstance, lastSession, last);
    var value, o := AskFields(g, ask), PayloadOf(c, g, ask).members;
    ObjectSpells(c, AGAIN_KEYS, value);
    SpelledAt(c, AGAIN_KEYS, value, o, W.LastBridgeInstanceId);
    SpelledAt(c, AGAIN_KEYS, value, o, W.LastGameSessionId);
    SpelledAt(c, AGAIN_KEYS, value, o, W.LastBridgeSequence);
    SpelledAt(c, AGAIN_KEYS, value, o, W.Reason);
  }

  lemma HelloAskValid(c: Contract, g: Config)
    requires Distinct(c) && Configured(c, g)
    ensures ValidClientHello(c, PayloadOf(c, g, C.AskHello).members)
  {
    HelloReads(c, g);
  }

  lemma SnapshotAskValid(c: Contract, g: Config, instance: Text, session: Text)
    requires Distinct(c)
    ensures var ask := C.AskSnapshot(instance, session);
      ValidPayload(c, FullSnapshotRequest, PayloadOf(c, g, ask).members) <==> DefiniteAsk(ask)
  {
    SnapshotReads(c, g, instance, session);
  }

  lemma AgainAskValid(c: Contract, g: Config, lastInstance: Option<Text>, lastSession: Option<Text>, last: Option<int>)
    requires Distinct(c) && Configured(c, g)
    ensures var ask := C.AskAgain(lastInstance, lastSession, last);
      ValidResynchronization(c, PayloadOf(c, g, ask).members) <==> DefiniteAsk(ask)
  {
    AgainReads(c, g, lastInstance, lastSession, last);
  }

  lemma AskValid(c: Contract, g: Config, ask: C.Ask)
    requires Distinct(c) && Configured(c, g)
    ensures ValidPayload(c, KindOf(ask), PayloadOf(c, g, ask).members) <==> DefiniteAsk(ask)
  {
    match ask {
      case AskHello => HelloAskValid(c, g);
      case AskSnapshot(instance, session) => SnapshotAskValid(c, g, instance, session);
      case AskAgain(lastInstance, lastSession, last) => AgainAskValid(c, g, lastInstance, lastSession, last);
    }
  }

  /** A configured client's request passes the server's validator exactly when it is definite. */
  lemma RequestSendable(c: Contract, g: Config, s: C.Sent, now: Timestamp)
    requires ValidContract(c) && Configured(c, g) && now.offset == 0
    ensures Sendable(c, EnvelopeOf(c, g, s, now)) <==> Definite(c, s)
  {
    AskValid(c, g, s.ask);
  }

  // ---------------------------------------------------------------- what the server reads

  /** A value an envelope of a client can have: a 64-bit number, a real instant. */
  predicate IsRequest(s: C.Sent, now: Timestamp) {
    s.sequence <= MAXIMUM_INT64 && IsInstant(now) && now.offset == 0 && Travels(s.mapIdentity) && Travels(s.saveIdentity)
  }

  /**
   * However the client's JSON library writes it (spaces, order of keys, escapes), a definite request is read by the
   * server as exactly the request that was meant.
   */
  lemma RequestArrives(c: Contract, g: Config, s: C.Sent, now: Timestamp, text: Text)
    requires ValidContract(c) && Configured(c, g) && Definite(c, s) && IsRequest(s, now)
    requires Denotes(text, EnvelopeJson(c, EnvelopeOf(c, g, s, now)))
    ensures ParseEnvelope(c, text) == Some(EnvelopeOf(c, g, s, now))
  {
    var e := EnvelopeOf(c, g, s, now);
    RequestSendable(c, g, s, now);
    ParseExact(text, EnvelopeJson(c, e));
    ObjectSpells(c, ENVELOPE_KEYS, EnvelopeFields(c, e));
    EnvelopeReads(c, e, EnvelopeJson(c, e).members);
  }

  /** What the server then finds in it: the token of a hello, the expectations of a snapshot request. */
  lemma RequestTells(c: Contract, g: Config, s: C.Sent, now: Timestamp)
    requires Distinct(c)
    ensures var o := EnvelopeOf(c, g, s, now).payload.members;
      match s.ask
      case AskHello => TextOf(Get(c, o, W.AuthenticationToken)) == g.token
      case AskSnapshot(instance, session) =>
        TextOf(Get(c, o, W.ExpectedBridgeInstanceId)) == instance && TextOf(Get(c, o, W.ExpectedGameSessionId)) == session
      case AskAgain(lastInstance, lastSession, last) =>
        && OptionalText(Get(c, o, W.LastBridgeInstanceId)) == lastInstance
        && OptionalText(Get(c, o, W.LastGameSessionId)) == lastSession
        && (Get(c, o, W.LastBridgeSequence).Int? <==> last.Some?)
        && (last.Some? ==> Get(c, o, W.LastBridgeSequence).n == last.value)
  {
    match s.ask {
      case AskHello => HelloReads(c, g);
      case AskSnapshot(instance, session) => SnapshotReads(c, g, instance, session);
      case AskAgain(lastInstance, lastSession, last) => AgainReads(c, g, lastInstance, lastSession, last);
    }
  }

  // ---------------------------------------------------------------- what the client composes

  /** What the client knows of the bridge, if it knows it, says something. */
  predicate Acquainted(c: Contract, k: C.Client) {
    && NullOrNonBlank(k.instance) && NullOrNonBlank(k.session)
    && (k.mapIdentity.Some? ==> ValidIdentity(c, k.mapIdentity.value) && Travels(k.mapIdentity.value))
    && (k.saveIdentity.Some? ==> ValidIdentity(c, k.saveIdentity.value) && Travels(k.saveIdentity.value))
  }

  lemma PlaceholdersLegible(c: Contract)
    requires Distinct(c) && c.name(W.Unavailable) == W.Units("unavailable")
    ensures !IsBlankText(C.UNNEGOTIATED) && ValidIdentity(c, C.NOT_NEGOTIATED) && Travels(C.NOT_NEGOTIATED)
  {
    assert W.Units("client-unnegotiated")[0] == 0x63 && !IsSpace(0x63);
    assert W.Units("not negotiated")[0] == 0x6E && !IsSpace(0x6E);
    assert c.word(c.name(W.Observed)) == Some(W.Observed) && c.word(c.name(W.Unavailable)) == Some(W.Unavailable);
  }

  /** Whatever a client composes is definite, before and after it has met the bridge. */
  lemma ComposedDefinite(c: Contract, k: C.Client, id: Text, ask: C.Ask)
    requires Distinct(c) && c.name(W.Unavailable) == W.Units("unavailable")
    requires Acquainted(c, k) && !IsBlankText(id) && DefiniteAsk(ask)
    ensures Definite(c, C.Composed(k, id, ask))
    ensures Travels(C.Composed(k, id, ask).mapIdentity) && Travels(C.Composed(k, id, ask).saveIdentity)
  {
    PlaceholdersLegible(c);
  }

  /** A client that starts anew tells what it accepted last. */
  lemma ResumesFromLast(x: C.Expected, k: C.Client, inbox: seq<C.Read>, outbox: seq<C.Sent>, opening: C.Opening, id: Text,
                        w: C.Writing)
    requires k.open && !w.Refused?
    ensures C.Resynchronize(x, k, inbox, outbox, opening, id, w).outbox ==
      outbox + [C.Composed(k, id, C.AskAgain(k.instance, k.session, k.last))]
  {
  }
}
