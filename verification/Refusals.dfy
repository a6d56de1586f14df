/** One defect is enough: what neither end of the protocol lets through, defect by defect. */
module Refusals {
  import opened Texts
  import opened Json
  import opened JsonReading
  import opened Timestamps
  import opened Protocol
  import W = Vocabulary

  // ---------------------------------------------------------------- envelopes

  /** The envelope comes from another protocol, adapter, game or machine than the contract's. */
  predicate ForeignOrigin(c: Contract, e: Envelope) {
    || e.protocolVersion != c.protocolVersion || e.adapterVersion != c.adapterVersion || e.gameId != c.gameId
    || e.gameVersion != c.supportedGameVersion
    || e.platform !in {c.name(W.Macos), c.name(W.Windows), c.name(W.Linux)}
    || e.architecture !in {c.name(W.X86_64), c.name(W.Arm64)}
  }

  /** The envelope does not say who sends what, under which number, and when. */
  predicate Anonymous(e: Envelope) {
    || IsBlankText(e.bridgeInstanceId) || IsBlankText(e.gameSessionId) || IsBlankText(e.messageId)
    || e.bridgeSequence < 1 || e.timestamp.offset != 0
  }

  /** An answer that does not say what it answers. */
  predicate Unanswering(e: Envelope) {
    e.correlationId.None?
    && (e.messageType.BridgeHello? || e.messageType.AuthenticationFailure? || e.messageType.FullSnapshotResponse?
        || e.messageType.ProtocolError?)
  }

  /** The identity neither names what was observed nor leaves it out. */
  predicate Muddled(c: Contract, id: Identity) {
    || id.status !in {c.name(W.Observed), c.name(W.Unavailable)}
    || (id.status == c.name(W.Observed) && (id.value.None? || IsBlankText(id.value.value)))
    || (id.status == c.name(W.Unavailable) && id.value.Some?)
  }

  predicate Defective(c: Contract, e: Envelope) {
    || ForeignOrigin(c, e) || Anonymous(e) || Unanswering(e) || Muddled(c, e.mapIdentity) || Muddled(c, e.saveIdentity)
    || !e.payload.Obj?
  }

  /** An envelope is valid exactly when it has none of these defects. */
  lemma DefectsExact(c: Contract, e: Envelope)
    ensures ValidEnvelope(c, e) <==> !Defective(c, e)
  {
  }

  /** A defective envelope is not written, and no text is read as one. */
  lemma DefectiveRefused(c: Contract, d: Doubles, e: Envelope, json: Text)
    requires Distinct(c) && Defective(c, e)
    ensures SerializeEnvelope(c, d, e) == None && ParseEnvelope(c, json) != Some(e)
  {
    DefectsExact(c, e);
  }

  // ---------------------------------------------------------------- payloads

  /** Unknown or missing keys make any payload invalid. */
  predicate WrongKeys(c: Contract, o: map<Text, Json>, words: set<W.Word>) { o.Keys != set w | w in words :: c.name(w) }

  lemma WrongKeysRefused(c: Contract, o: map<Text, Json>)
    requires Distinct(c)
    ensures WrongKeys(c, o, {W.Authenticated, W.HeartbeatIntervalSeconds, W.MaximumMessageBytes, W.NegotiatedProtocolVersion})
        ==> !ValidPayload(c, BridgeHello, o)
    ensures WrongKeys(c, o, {W.Reason}) ==> !ValidPayload(c, AuthenticationFailure, o)
    ensures WrongKeys(c, o, {W.Detail, W.Healthy}) ==> !ValidPayload(c, Heartbeat, o)
    ensures WrongKeys(c, o, {W.ExpectedBridgeInstanceId, W.ExpectedGameSessionId}) ==>
      !ValidPayload(c, FullSnapshotRequest, o)
    ensures WrongKeys(c, o, {W.Snapshot}) ==> !ValidPayload(c, FullSnapshotResponse, o)
    ensures WrongKeys(c, o, {W.Code, W.Message, W.Retryable}) ==> !ValidPayload(c, ProtocolError, o)
  {
    ExactlyMeans(c, o, {W.Authenticated, W.HeartbeatIntervalSeconds, W.MaximumMessageBytes, W.NegotiatedProtocolVersion});
    ExactlyMeans(c, o, {W.Reason});
    ExactlyMeans(c, o, {W.Detail, W.Healthy});
    ExactlyMeans(c, o, {W.ExpectedBridgeInstanceId, W.ExpectedGameSessionId});
    ExactlyMeans(c, o, {W.Snapshot});
    ExactlyMeans(c, o, {W.Code, W.Message, W.Retryable});
  }

  /** A client that shows no proper token, names no client, or expects another contract. */
  lemma HelloRefused(c: Contract, o: map<Text, Json>)
    ensures |TextOf(Get(c, o, W.AuthenticationToken))| < 32 ==> !ValidPayload(c, ClientHello, o)
    ensures IsBlankText(TextOf(Get(c, o, W.AuthenticationToken))) ==> !ValidPayload(c, ClientHello, o)
    ensures IsBlankText(TextOf(Get(c, o, W.ClientInstanceId))) ==> !ValidPayload(c, ClientHello, o)
    ensures TextOf(Get(c, o, W.ExpectedAdapterVersion)) != c.adapterVersion ==> !ValidPayload(c, ClientHello, o)
    ensures TextOf(Get(c, o, W.ExpectedGameId)) != c.gameId ==> !ValidPayload(c, ClientHello, o)
    ensures TextOf(Get(c, o, W.ExpectedGameVersion)) != c.supportedGameVersion ==> !ValidPayload(c, ClientHello, o)
    ensures Get(c, o, W.RequestedProtocolVersion) != Int(c.protocolVersion) ==> !ValidPayload(c, ClientHello, o)
  {
  }

  /** A bridge that did not authenticate, beats never, frames too much or too little, or speaks another version. */
  lemma WelcomeRefused(c: Contract, o: map<Text, Json>)
    ensures Get(c, o, W.Authenticated) != Bool(true) ==> !ValidPayload(c, BridgeHello, o)
    ensures forall n :: Get(c, o, W.HeartbeatIntervalSeconds) == Int(n) && n <= 0 ==> !ValidPayload(c, BridgeHello, o)
    ensures forall n :: Get(c, o, W.MaximumMessageBytes) == Int(n) && (n < 1024 || n > 16_777_216) ==>
      !ValidPayload(c, BridgeHello, o)
    ensures Get(c, o, W.NegotiatedProtocolVersion) != Int(c.protocolVersion) ==> !ValidPayload(c, BridgeHello, o)
  {
  }

  /** A manifest that offers actions or deltas, withholds snapshots or a new start, or lists surfaces out of order. */
  lemma ManifestRefused(c: Contract, o: map<Text, Json>)
    ensures Get(c, o, W.GameplayActions) != Arr([]) ==> !ValidPayload(c, CapabilityManifest, o)
    ensures Get(c, o, W.DeltaSnapshots) == Bool(true) ==> !ValidPayload(c, CapabilityManifest, o)
    ensures Get(c, o, W.FullSnapshots) == Bool(false) ==> !ValidPayload(c, CapabilityManifest, o)
    ensures Get(c, o, W.Resynchronization) == Bool(false) ==> !ValidPayload(c, CapabilityManifest, o)
    ensures Get(c, o, W.SchemaVersion) != Int(1) ==> !ValidPayload(c, CapabilityManifest, o)
    ensures Get(c, o, W.ObservationSurfaces).Arr? && !Ascending(TextsOf(Get(c, o, W.ObservationSurfaces).items)) ==>
      !ValidPayload(c, CapabilityManifest, o)
  {
  }

  /** Requests that expect nobody, resume from no number, or give no reason; errors of an unknown code or without a word. */
  lemma RequestRefused(c: Contract, o: map<Text, Json>)
    ensures IsBlankText(TextOf(Get(c, o, W.ExpectedBridgeInstanceId))) ==> !ValidPayload(c, FullSnapshotRequest, o)
    ensures IsBlankText(TextOf(Get(c, o, W.ExpectedGameSessionId))) ==> !ValidPayload(c, FullSnapshotRequest, o)
    ensures forall n :: Get(c, o, W.LastBridgeSequence) == Int(n) && n < 1 ==> !ValidPayload(c, ResynchronizationRequest, o)
    ensures IsBlankText(TextOf(Get(c, o, W.Reason))) ==> !ValidPayload(c, ResynchronizationRequest, o)
    ensures TextOf(Get(c, o, W.Code)) !in ERROR_CODES ==> !ValidPayload(c, ProtocolError, o)
    ensures IsBlankText(TextOf(Get(c, o, W.Message))) ==> !ValidPayload(c, ProtocolError, o)
    ensures !Get(c, o, W.Retryable).Bool? ==> !ValidPayload(c, ProtocolError, o)
    ensures !Get(c, o, W.Healthy).Bool? ==> !ValidPayload(c, Heartbeat, o)
    ensures Get(c, o, W.Reason) != Str(c.name(W.AuthenticationFailed)) ==> !ValidPayload(c, AuthenticationFailure, o)
  {
  }

  predicate Nameless(c: Contract, entity: Json) {
    || IsBlankText(TextOf(Get(c, Protocol.Members(entity), W.EntityType)))
    || IsBlankText(TextOf(Get(c, Protocol.Members(entity), W.EntityId)))
  }

  /** A detail, or what a new start remembers, is left out or says something; a blank text is neither. */
  lemma BlankRefused(c: Contract, o: map<Text, Json>)
    ensures BlankString(Get(c, o, W.Detail)) ==> !ValidPayload(c, Heartbeat, o)
    ensures BlankString(Get(c, o, W.LastBridgeInstanceId)) ==> !ValidPayload(c, ResynchronizationRequest, o)
    ensures BlankString(Get(c, o, W.LastGameSessionId)) ==> !ValidPayload(c, ResynchronizationRequest, o)
  {
  }

  predicate BlankString(v: Json) { v.Str? && forall i :: 0 <= i < |v.text| ==> IsBlank(v.text[i]) }

  /** Surfaces out of order, entities on a surface that was not observed, entities out of order, or nameless ones. */
  lemma SurfacesRefused(c: Contract, items: seq<Json>, i: nat)
    requires i < |items|
    ensures !Ascending(SurfaceNames(c, items)) ==> !ValidSurfaces(c, items)
    ensures var o := Protocol.Members(items[i]);
      var coverage := Protocol.Members(Get(c, o, W.Coverage));
      var entities := Get(c, o, W.Entities);
      && (entities.Arr? && entities.items != [] && IsUnobserved(c, Get(c, coverage, W.Status)) ==> !ValidSurfaces(c, items))
      && (entities.Arr? && !Ascending(EntityKeys(c, entities.items)) ==> !ValidSurfaces(c, items))
      && (IsBlankText(TextOf(Get(c, coverage, W.Surface))) ==> !ValidSurfaces(c, items))
      && (entities.Arr? && (exists j :: 0 <= j < |entities.items| && Nameless(c, entities.items[j])) ==>
            !ValidSurfaces(c, items))
  {
    assert ValidSurfaces(c, items) ==> ValidSurface(c, items[i]);
  }
}
