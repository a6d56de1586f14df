/** The keys and fixed values of protocol version 3, and the fact that no two are spelled alike. */
module Vocabulary {
  import opened Texts

  datatype Word =
    | AdapterVersion | Architecture | BridgeInstanceId | BridgeSequence | CorrelationId | GameId
    | GameSessionId | GameVersion | MapIdentity | MessageId | MessageType | Payload | Platform
    | ProtocolVersion | SaveIdentity | Timestamp | Detail | Label | Status | Value | AuthenticationToken
    | ClientInstanceId | ExpectedAdapterVersion | ExpectedGameId | ExpectedGameVersion
    | RequestedProtocolVersion | Authenticated | HeartbeatIntervalSeconds | MaximumMessageBytes
    | NegotiatedProtocolVersion | Reason | Healthy | DeltaSnapshots | FullSnapshots | GameplayActions
    | ObservationSurfaces | Resynchronization | SchemaVersion | ExpectedBridgeInstanceId
    | ExpectedGameSessionId | Snapshot | LastBridgeInstanceId | LastBridgeSequence | LastGameSessionId | Code
    | Message | Retryable | CaptureCompletedMarker | CaptureStartedMarker | CaptureTimestamp | GameState
    | Limitations | Surfaces | Warnings | Coverage | Entities | Fields | Surface | EntityId | EntityType
    | Values | Paused | CurrentTime | SimulationSpeed | GameMode | Macos | Windows | Linux | X86_64 | Arm64
    | Observed | Unavailable | ClientHello | BridgeHello | AuthenticationFailure | Heartbeat
    | CapabilityManifest | FullSnapshotRequest | FullSnapshotResponse | ResynchronizationRequest
    | ProtocolError | ObservedComplete | ObservedPartial | Unsupported | Failed | AuthenticationFailed

  /** A spelling with its length, first and last character packed into one number. */
  datatype Entry = Entry(spelling: string, mark: int)

  predicate Marked(e: Entry) {
    var s := e.spelling;
    s != [] && ' ' < s[0] < 128 as char && s[|s| - 1] < 128 as char
    && |s| * 0x1_0000 + s[0] as int * 0x100 + s[|s| - 1] as int == e.mark
  }

  /**
   * The word with a mark, first by the length it is spelled with. The marks of the words are pairwise different, so
   * that this one table both finds the word of a text and shows that no two are spelled alike: comparing the
   * spellings themselves would take a case for each pair of words.
   */
  function ByMark(m: int): Option<Word> {
    if m / 0x1_0000 == 4 then (
      if m == 0x46365 then Some(Code)
      else None)
    else if m / 0x1_0000 == 5 then (
      if m == 0x56C6C then Some(Label)
      else if m == 0x57665 then Some(Value)
      else if m == 0x56D73 then Some(Macos)
      else if m == 0x56C78 then Some(Linux)
      else if m == 0x56134 then Some(Arm64)
      else None)
    else if m / 0x1_0000 == 6 then (
      if m == 0x6646C then Some(Detail)
      else if m == 0x67373 then Some(Status)
      else if m == 0x6726E then Some(Reason)
      else if m == 0x66673 then Some(Fields)
      else if m == 0x67673 then Some(Values)
      else if m == 0x67064 then Some(Paused)
      else if m == 0x67834 then Some(X86_64)
      else if m == 0x66664 then Some(Failed)
      else None)
    else if m / 0x1_0000 == 7 then (
      if m == 0x76764 then Some(GameId)
      else if m == 0x77064 then Some(Payload)
      else if m == 0x76879 then Some(Healthy)
      else if m == 0x76D65 then Some(Message)
      else if m == 0x77365 then Some(Surface)
      else if m == 0x77773 then Some(Windows)
      else None)
    else if m / 0x1_0000 == 8 then (
      if m == 0x8706D then Some(Platform)
      else if m == 0x87374 then Some(Snapshot)
      else if m == 0x87373 then Some(Surfaces)
      else if m == 0x87773 then Some(Warnings)
      else if m == 0x86365 then Some(Coverage)
      else if m == 0x86573 then Some(Entities)
      else if m == 0x86F64 then Some(Observed)
      else None)
    else if m / 0x1_0000 == 9 then (
      if m == 0x97470 then Some(Timestamp)
      else if m == 0x97265 then Some(Retryable)
      else if m == 0x96564 then Some(EntityId)
      else if m == 0x96765 then Some(GameMode)
      else if m == 0x96874 then Some(Heartbeat)
      else None)
    else if m / 0x1_0000 == 10 then (
      if m == 0xA6D64 then Some(MessageId)
      else if m == 0xA6765 then Some(GameState)
      else None)
    else if m / 0x1_0000 == 11 then (
      if m == 0xB6C73 then Some(Limitations)
      else if m == 0xB6565 then Some(EntityType)
      else if m == 0xB7565 then Some(Unavailable)
      else if m == 0xB7564 then Some(Unsupported)
      else None)
    else if m / 0x1_0000 == 12 then (
      if m == 0xC6165 then Some(Architecture)
      else if m == 0xC676E then Some(GameVersion)
      else if m == 0xC6D79 then Some(MapIdentity)
      else if m == 0xC6D65 then Some(MessageType)
      else if m == 0xC6365 then Some(CurrentTime)
      else if m == 0xC636F then Some(ClientHello)
      else if m == 0xC626F then Some(BridgeHello)
      else None)
    else if m / 0x1_0000 == 13 then (
      if m == 0xD7379 then Some(SaveIdentity)
      else if m == 0xD6164 then Some(Authenticated)
      else None)
    else if m / 0x1_0000 == 14 then (
      if m == 0xE6364 then Some(CorrelationId)
      else if m == 0xE6673 then Some(FullSnapshots)
      else if m == 0xE736E then Some(SchemaVersion)
      else if m == 0xE7072 then Some(ProtocolError)
      else None)
    else if m / 0x1_0000 == 15 then (
      if m == 0xF616E then Some(AdapterVersion)
      else if m == 0xF6265 then Some(BridgeSequence)
      else if m == 0xF6764 then Some(GameSessionId)
      else if m == 0xF6473 then Some(DeltaSnapshots)
      else None)
    else if m / 0x1_0000 == 16 then (
      if m == 0x10706E then Some(ProtocolVersion)
      else if m == 0x106564 then Some(ExpectedGameId)
      else if m == 0x106773 then Some(GameplayActions)
      else if m == 0x107364 then Some(SimulationSpeed)
      else if m == 0x106F6C then Some(ObservedPartial)
      else None)
    else if m / 0x1_0000 == 17 then (
      if m == 0x11726E then Some(Resynchronization)
      else if m == 0x116370 then Some(CaptureTimestamp)
      else if m == 0x116F65 then Some(ObservedComplete)
      else None)
    else if m / 0x1_0000 == 18 then (
      if m == 0x126264 then Some(BridgeInstanceId)
      else if m == 0x126364 then Some(ClientInstanceId)
      else None)
    else if m / 0x1_0000 == 19 then (
      if m == 0x136374 then Some(CapabilityManifest)
      else None)
    else if m / 0x1_0000 == 20 then (
      if m == 0x14616E then Some(AuthenticationToken)
      else if m == 0x146F73 then Some(ObservationSurfaces)
      else if m == 0x146C65 then Some(LastBridgeSequence)
      else if m == 0x146C64 then Some(LastGameSessionId)
      else None)
    else if m / 0x1_0000 == 21 then (
      if m == 0x15656E then Some(ExpectedGameVersion)
      else if m == 0x156D73 then Some(MaximumMessageBytes)
      else if m == 0x156674 then Some(FullSnapshotRequest)
      else if m == 0x156164 then Some(AuthenticationFailed)
      else None)
    else if m / 0x1_0000 == 22 then (
      if m == 0x166372 then Some(CaptureStartedMarker)
      else if m == 0x166165 then Some(AuthenticationFailure)
      else if m == 0x166665 then Some(FullSnapshotResponse)
      else None)
    else if m / 0x1_0000 == 23 then (
      if m == 0x176C64 then Some(LastBridgeInstanceId)
      else None)
    else if m / 0x1_0000 == 24 then (
      if m == 0x18656E then Some(ExpectedAdapterVersion)
      else if m == 0x186564 then Some(ExpectedGameSessionId)
      else if m == 0x186372 then Some(CaptureCompletedMarker)
      else None)
    else if m / 0x1_0000 == 25 then (
      if m == 0x197274 then Some(ResynchronizationRequest)
      else None)
    else if m / 0x1_0000 == 26 then (
      if m == 0x1A726E then Some(RequestedProtocolVersion)
      else if m == 0x1A6873 then Some(HeartbeatIntervalSeconds)
      else None)
    else if m / 0x1_0000 == 27 then (
      if m == 0x1B6E6E then Some(NegotiatedProtocolVersion)
      else if m == 0x1B6564 then Some(ExpectedBridgeInstanceId)
      else None)
    else None
  }

  // The table from words to entries is cut into parts of a few words, each checked against `ByMark` on its own.

  function Part1(w: Word): (e: Option<Entry>)
    ensures e.Some? ==> Marked(e.value) && ByMark(e.value.mark) == Some(w)
  {
    if w.AdapterVersion? then Some(Entry("adapter_version", 0xF616E))
    else if w.Architecture? then Some(Entry("architecture", 0xC6165))
    else if w.BridgeInstanceId? then Some(Entry("bridge_instance_id", 0x126264))
    else if w.BridgeSequence? then Some(Entry("bridge_sequence", 0xF6265))
    else if w.CorrelationId? then Some(Entry("correlation_id", 0xE6364))
    else None
  }

  function Part2(w: Word): (e: Option<Entry>)
    ensures e.Some? ==> Marked(e.value) && ByMark(e.value.mark) == Some(w)
  {
    if w.GameId? then Some(Entry("game_id", 0x76764))
    else if w.GameSessionId? then Some(Entry("game_session_id", 0xF6764))
    else if w.GameVersion? then Some(Entry("game_version", 0xC676E))
    else if w.MapIdentity? then Some(Entry("map_identity", 0xC6D79))
    else if w.MessageId? then Some(Entry("message_id", 0xA6D64))
    else None
  }

  function Part3(w: Word): (e: Option<Entry>)
    ensures e.Some? ==> Marked(e.value) && ByMark(e.value.mark) == Some(w)
  {
    if w.MessageType? then Some(Entry("message_type", 0xC6D65))
    else if w.Payload? then Some(Entry("payload", 0x77064))
    else if w.Platform? then Some(Entry("platform", 0x8706D))
    else if w.ProtocolVersion? then Some(Entry("protocol_version", 0x10706E))
    else if w.SaveIdentity? then Some(Entry("save_identity", 0xD7379))
    else None
  }

  function Part4(w: Word): (e: Option<Entry>)
    ensures e.Some? ==> Marked(e.value) && ByMark(e.value.mark) == Some(w)
  {
    if w.Timestamp? then Some(Entry("timestamp", 0x97470))
    else if w.Detail? then Some(Entry("detail", 0x6646C))
    else if w.Label? then Some(Entry("label", 0x56C6C))
    else if w.Status? then Some(Entry("status", 0x67373))
    else if w.Value? then Some(Entry("value", 0x57665))
    else None
  }

  function Part5(w: Word): (e: Option<Entry>)
    ensures e.Some? ==> Marked(e.value) && ByMark(e.value.mark) == Some(w)
  {
    if w.AuthenticationToken? then Some(Entry("authentication_token", 0x14616E))
    else if w.ClientInstanceId? then Some(Entry("client_instance_id", 0x126364))
    else if w.ExpectedAdapterVersion? then Some(Entry("expected_adapter_version", 0x18656E))
    else if w.ExpectedGameId? then Some(Entry("expected_game_id", 0x106564))
    else if w.ExpectedGameVersion? then Some(Entry("expected_game_version", 0x15656E))
    else None
  }

  function Part6(w: Word): (e: Option<Entry>)
    ensures e.Some? ==> Marked(e.value) && ByMark(e.value.mark) == Some(w)
  {
    if w.RequestedProtocolVersion? then Some(Entry("requested_protocol_version", 0x1A726E))
    else if w.Authenticated? then Some(Entry("authenticated", 0xD6164))
    else if w.HeartbeatIntervalSeconds? then Some(Entry("heartbeat_interval_seconds", 0x1A6873))
    else if w.MaximumMessageBytes? then Some(Entry("maximum_message_bytes", 0x156D73))
    else if w.NegotiatedProtocolVersion? then Some(Entry("negotiated_protocol_version", 0x1B6E6E))
    else None
  }

  function Part7(w: Word): (e: Option<Entry>)
    ensures e.Some? ==> Marked(e.value) && ByMark(e.value.mark) == Some(w)
  {
    if w.Reason? then Some(Entry("reason", 0x6726E))
    else if w.Healthy? then Some(Entry("healthy", 0x76879))
    else if w.DeltaSnapshots? then Some(Entry("delta_snapshots", 0xF6473))
    else if w.FullSnapshots? then Some(Entry("full_snapshots", 0xE6673))
    else if w.GameplayActions? then Some(Entry("gameplay_actions", 0x106773))
    else None
  }

  function Part8(w: Word): (e: Option<Entry>)
    ensures e.Some? ==> Marked(e.value) && ByMark(e.value.mark) == Some(w)
  {
    if w.ObservationSurfaces? then Some(Entry("observation_surfaces", 0x146F73))
    else if w.Resynchronization? then Some(Entry("resynchronization", 0x11726E))
    else if w.SchemaVersion? then Some(Entry("schema_version", 0xE736E))
    else if w.ExpectedBridgeInstanceId? then Some(Entry("expected_bridge_instance_id", 0x1B6564))
    else if w.ExpectedGameSessionId? then Some(Entry("expected_game_session_id", 0x186564))
    else None
  }

  function Part9(w: Word): (e: Option<Entry>)
    ensures e.Some? ==> Marked(e.value) && ByMark(e.value.mark) == Some(w)
  {
    if w.Snapshot? then Some(Entry("snapshot", 0x87374))
    else if w.LastBridgeInstanceId? then Some(Entry("last_bridge_instance_id", 0x176C64))
    else if w.LastBridgeSequence? then Some(Entry("last_bridge_sequence", 0x146C65))
    else if w.LastGameSessionId? then Some(Entry("last_game_session_id", 0x146C64))
    else if w.Code? then Some(Entry("code", 0x46365))
    else None
  }

  function Part10(w: Word): (e: Option<Entry>)
    ensures e.Some? ==> Marked(e.value) && ByMark(e.value.mark) == Some(w)
  {
    if w.Message? then Some(Entry("message", 0x76D65))
    else if w.Retryable? then Some(Entry("retryable", 0x97265))
    else if w.CaptureCompletedMarker? then Some(Entry("capture_completed_marker", 0x186372))
    else if w.CaptureStartedMarker? then Some(Entry("capture_started_marker", 0x166372))
    else if w.CaptureTimestamp? then Some(Entry("capture_timestamp", 0x116370))
    else None
  }

  function Part11(w: Word): (e: Option<Entry>)
    ensures e.Some? ==> Marked(e.value) && ByMark(e.value.mark) == Some(w)
  {
    if w.GameState? then Some(Entry("game_state", 0xA6765))
    else if w.Limitations? then Some(Entry("limitations", 0xB6C73))
    else if w.Surfaces? then Some(Entry("surfaces", 0x87373))
    else if w.Warnings? then Some(Entry("warnings", 0x87773))
    else if w.Coverage? then Some(Entry("coverage", 0x86365))
    else None
  }

  function Part12(w: Word): (e: Option<Entry>)
    ensures e.Some? ==> Marked(e.value) && ByMark(e.value.mark) == Some(w)
  {
    if w.Entities? then Some(Entry("entities", 0x86573))
    else if w.Fields? then Some(Entry("fields", 0x66673))
    else if w.Surface? then Some(Entry("surface", 0x77365))
    else if w.EntityId? then Some(Entry("entity_id", 0x96564))
    else if w.EntityType? then Some(Entry("entity_type", 0xB6565))
    else None
  }

  function Part13(w: Word): (e: Option<Entry>)
    ensures e.Some? ==> Marked(e.value) && ByMark(e.value.mark) == Some(w)
  {
    if w.Values? then Some(Entry("values", 0x67673))
    else if w.Paused? then Some(Entry("paused", 0x67064))
    else if w.CurrentTime? then Some(Entry("current_time", 0xC6365))
    else if w.SimulationSpeed? then Some(Entry("simulation_speed", 0x107364))
    else if w.GameMode? then Some(Entry("game_mode", 0x96765))
    else None
  }

  function Part14(w: Word): (e: Option<Entry>)
    ensures e.Some? ==> Marked(e.value) && ByMark(e.value.mark) == Some(w)
  {
    if w.Macos? then Some(Entry("macos", 0x56D73))
    else if w.Windows? then Some(Entry("windows", 0x77773))
    else if w.Linux? then Some(Entry("linux", 0x56C78))
    else if w.X86_64? then Some(Entry("x86_64", 0x67834))
    else if w.Arm64? then Some(Entry("arm64", 0x56134))
    else None
  }

  function Part15(w: Word): (e: Option<Entry>)
    ensures e.Some? ==> Marked(e.value) && ByMark(e.value.mark) == Some(w)
  {
    if w.Observed? then Some(Entry("observed", 0x86F64))
    else if w.Unavailable? then Some(Entry("unavailable", 0xB7565))
    else if w.ClientHello? then Some(Entry("client_hello", 0xC636F))
    else if w.BridgeHello? then Some(Entry("bridge_hello", 0xC626F))
    else if w.AuthenticationFailure? then Some(Entry("authentication_failure", 0x166165))
    else None
  }

  function Part16(w: Word): (e: Option<Entry>)
    ensures e.Some? ==> Marked(e.value) && ByMark(e.value.mark) == Some(w)
  {
    if w.Heartbeat? then Some(Entry("heartbeat", 0x96874))
    else if w.CapabilityManifest? then Some(Entry("capability_manifest", 0x136374))
    else if w.FullSnapshotRequest? then Some(Entry("full_snapshot_request", 0x156674))
    else if w.FullSnapshotResponse? then Some(Entry("full_snapshot_response", 0x166665))
    else if w.ResynchronizationRequest? then Some(Entry("resynchronization_request", 0x197274))
    else None
  }

  function Part17(w: Word): (e: Option<Entry>)
    ensures e.Some? ==> Marked(e.value) && ByMark(e.value.mark) == Some(w)
  {
    if w.ProtocolError? then Some(Entry("protocol_error", 0xE7072))
    else if w.ObservedComplete? then Some(Entry("observed_complete", 0x116F65))
    else if w.ObservedPartial? then Some(Entry("observed_partial", 0x106F6C))
    else if w.Unsupported? then Some(Entry("unsupported", 0xB7564))
    else if w.Failed? then Some(Entry("failed", 0x66664))
    else None
  }

  function Part18(w: Word): (e: Option<Entry>)
    ensures e.Some? ==> Marked(e.value) && ByMark(e.value.mark) == Some(w)
  {
    if w.AuthenticationFailed? then Some(Entry("authentication_failed", 0x156164))
    else None
  }

  function EntryOf(w: Word): (e: Entry)
    ensures Marked(e) && ByMark(e.mark) == Some(w)
  {
    if Part13(w).Some? then Part13(w).value else
    if Part1(w).Some? then Part1(w).value else
    if Part2(w).Some? then Part2(w).value else
    if Part3(w).Some? then Part3(w).value else
    if Part4(w).Some? then Part4(w).value else
    if Part5(w).Some? then Part5(w).value else
    if Part6(w).Some? then Part6(w).value else
    if Part7(w).Some? then Part7(w).value else
    if Part8(w).Some? then Part8(w).value else
    if Part9(w).Some? then Part9(w).value else
    if Part10(w).Some? then Part10(w).value else
    if Part11(w).Some? then Part11(w).value else
    if Part12(w).Some? then Part12(w).value else
    if Part14(w).Some? then Part14(w).value else
    if Part15(w).Some? then Part15(w).value else
    if Part16(w).Some? then Part16(w).value else
    if Part17(w).Some? then Part17(w).value else
    Part18(w).value
  }

  /** The UTF-16 code units of an ASCII spelling. */
  function Units(s: string): Text {
    seq(|s|, i requires 0 <= i < |s| => s[i] as int % 0x1_0000)
  }

  function Name(w: Word): Text { Units(EntryOf(w).spelling) }

  function Mark(t: Text): int {
    if t == [] then 0 else |t| * 0x1_0000 + t[0] as int * 0x100 + t[|t| - 1] as int
  }

  /** The word a text spells, if any. */
  function WordOf(t: Text): (w: Option<Word>)
    ensures w.Some? ==> Name(w.value) == t
  {
    var w := ByMark(Mark(t));
    if w.Some? && Name(w.value) == t then w else None
  }

  lemma MarkOf(e: Entry)
    requires Marked(e)
    ensures Mark(Units(e.spelling)) == e.mark
    ensures Units(e.spelling) != [] && 0x20 < Units(e.spelling)[0] < 128
  {
    var s := e.spelling;
    assert |Units(s)| == |s|;
    assert Units(s)[0] == s[0] as int && Units(s)[|s| - 1] == s[|s| - 1] as int;
  }

  /** No two words are spelled alike: the spelling gives the word back. */
  lemma NameRead(w: Word)
    ensures WordOf(Name(w)) == Some(w)
    ensures Name(w) != [] && 0x20 < Name(w)[0] < 128
  {
    MarkOf(EntryOf(w));
  }
}
