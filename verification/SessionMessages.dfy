/** Everything the server sends on a connection can be written down, and is read back as what was meant. */
module SessionMessages {
  import opened Texts
  import opened Json
  import opened Timestamps
  import opened Protocol
  import opened ProtocolNumbers
  import opened ProtocolRoundTrip
  import opened Session
  import opened Messages
  import Snapshot
  import W = Vocabulary

  /** A reply of the right shape, to an id that says something, with a code the protocol knows. */
  predicate Shaped(server: Server, r: Reply) {
    && IsReply(server, r) && NullOrNonBlank(r.correlation)
    && (r.kind.ProtocolError? ==> CodeText(r.body) in ERROR_CODES)
  }

  /** The state in a reply is one captured in this turn. */
  predicate FromTurn(r: Reply, t: Turn) { t.capture == Some(r.state) || t.again == Some(r.state) }

  /** The replies that are new in `u` are shaped, carry numbers spent now, and tell what was captured in this turn. */
  predicate Adds(server: Server, s: Session, u: Session, t: Turn) {
    && |s.sent| <= |u.sent| && u.sent[..|s.sent|] == s.sent && s.sequence <= u.sequence
    && forall i :: |s.sent| <= i < |u.sent| ==>
         Shaped(server, u.sent[i]) && FromTurn(u.sent[i], t) && s.sequence < u.sent[i].sequence <= u.sequence
  }

  lemma CodeKnown(name: string)
    requires name in {
      "malformed_envelope", "unknown_message_type", "message_too_large", "protocol_mismatch", "adapter_mismatch",
      "game_mismatch", "duplicate_message", "sequence_error", "stale_identity", "snapshot_failed", "internal_error"}
    ensures W.Units(name) in ERROR_CODES
  {
  }

  lemma UnavailableLegible()
    ensures !IsBlankText(UNAVAILABLE)
  {
    Snapshot.SpellingLegible("client:unavailable");
  }

  lemma ErrorAdds(server: Server, s: Session, t: Turn, correlation: Option<Text>, code: string, captured: Option<State>)
    requires captured == t.capture || captured == t.again
    requires NullOrNonBlank(correlation) && W.Units(code) in ERROR_CODES
    ensures Adds(server, s, SendError(s, correlation, code, captured, t.write), t)
  {
    UnavailableLegible();
  }

  lemma WelcomeAdds(server: Server, s: Session, t: Turn, correlation: Text, captured: Option<State>)
    requires (captured == t.capture || captured == t.again) && !IsBlankText(correlation)
    ensures Adds(server, s, SendHelloAndCapabilities(s, correlation, captured, t), t)
  {
  }

  lemma GreetAdds(server: Server, s: Session, t: Turn)
    requires t.read.Frame? ==> !IsBlankText(t.read.envelope.messageId)
    ensures Adds(server, s, Greet(server, s, t), t)
  {
    CodeKnown("malformed_envelope");
    CodeKnown("protocol_mismatch");
    match t.read {
      case Malformed => ErrorAdds(server, s, t, None, "malformed_envelope", t.capture);
      case Timeout =>
      case End =>
      case Frame(hello) =>
        if !hello.messageType.ClientHello? {
          ErrorAdds(server, s, t, Some(hello.messageId), "protocol_mismatch", t.capture);
        } else if Authentic(server, hello) {
          var known := s.(phase := Serving, seen := {hello.messageId}, last := hello.bridgeSequence, processed := [hello]);
          WelcomeAdds(server, known, t, hello.messageId, t.capture);
        }
    }
  }

  lemma AnswerAdds(server: Server, s: Session, request: Envelope, t: Turn)
    requires !IsBlankText(request.messageId)
    ensures Adds(server, s, Answer(server, s, request, t), t)
  {
    CodeKnown("stale_identity");
    CodeKnown("unknown_message_type");
    var id := Some(request.messageId);
    ErrorAdds(server, s, t, id, "stale_identity", t.capture);
    ErrorAdds(server, s, t, id, "stale_identity", t.again);
    ErrorAdds(server, s, t, id, "unknown_message_type", t.again);
    WelcomeAdds(server, s, t, request.messageId, t.again);
  }

  lemma ServeAdds(server: Server, s: Session, t: Turn)
    requires t.read.Frame? ==> !IsBlankText(t.read.envelope.messageId)
    ensures Adds(server, s, Serve(server, s, t), t)
  {
    CodeKnown("malformed_envelope");
    CodeKnown("duplicate_message");
    CodeKnown("sequence_error");
    if t.alive {
      match t.read {
        case End =>
        case Timeout =>
        case Malformed => ErrorAdds(server, s, t, None, "malformed_envelope", t.capture);
        case Frame(request) =>
          var id := Some(request.messageId);
          var noted := s.(seen := s.seen + {request.messageId});
          if request.messageId in s.seen {
            ErrorAdds(server, s, t, id, "duplicate_message", t.capture);
          } else if request.bridgeSequence != s.last + 1 {
            ErrorAdds(server, noted, t, id, "sequence_error", t.capture);
          } else {
            AnswerAdds(server, noted.(last := request.bridgeSequence, processed := s.processed + [request]), request, t);
          }
      }
    }
  }

  /** What a client's frame always has, once it is parsed. */
  predicate Named(t: Turn) { t.read.Frame? ==> !IsBlankText(t.read.envelope.messageId) }

  /** The reply is shaped, and its state was captured in one of the turns. */
  ghost predicate Accounted(server: Server, r: Reply, turns: seq<Turn>) {
    Shaped(server, r) && exists i :: 0 <= i < |turns| && FromTurn(r, turns[i])
  }

  ghost predicate AllAccounted(server: Server, s: Session, turns: seq<Turn>) {
    forall k :: 0 <= k < |s.sent| ==> Accounted(server, s.sent[k], turns)
  }

  lemma AccountedLater(server: Server, r: Reply, turns: seq<Turn>)
    requires turns != [] && Accounted(server, r, turns[..|turns| - 1])
    ensures Accounted(server, r, turns)
  {
    var i :| 0 <= i < |turns| - 1 && FromTurn(r, turns[..|turns| - 1][i]);
    assert FromTurn(r, turns[i]);
  }

  lemma TakeAdds(server: Server, s: Session, t: Turn)
    requires Named(t)
    ensures Adds(server, s, Take(server, s, t), t)
  {
    match s.phase {
      case Greeting => GreetAdds(server, s, t);
      case Serving => ServeAdds(server, s, t);
      case Over =>
    }
  }

  /** Over a whole connection: every reply is shaped, and tells a state that was captured in one of its turns. */
  lemma {:induction false} RepliesShaped(server: Server, start: nat, seen: set<Text>, turns: seq<Turn>)
    requires forall i :: 0 <= i < |turns| ==> Named(turns[i])
    ensures AllAccounted(server, Play(server, Start(start, seen), turns), turns)
  {
    if turns != [] {
      var before, t := turns[..|turns| - 1], turns[|turns| - 1];
      RepliesShaped(server, start, seen, before);
      var s := Play(server, Start(start, seen), before);
      var u := Take(server, s, t);
      TakeAdds(server, s, t);
      forall k | 0 <= k < |u.sent| ensures Accounted(server, u.sent[k], turns) {
        if k < |s.sent| {
          assert u.sent[..|s.sent|][k] == u.sent[k];
          AccountedLater(server, s.sent[k], turns);
        } else {
          assert FromTurn(u.sent[k], turns[|turns| - 1]);
        }
      }
    }
  }

  // ---------------------------------------------------------------- every reply arrives

  /** A state from which every kind of message can be built, its numbers within what is written and read. */
  ghost predicate Clean(d: Doubles, server: Server, st: State, captured: Timestamp) {
    && Presentable(server, st) && Travels(st.mapIdentity) && Travels(st.saveIdentity)
    && Snapshot.SoundSurfaces(server.contract, st) && SnapshotWritable(d, server, st, captured)
  }

  /** Whatever number it is sent under, the snapshot of the state holds values that can be written and read. */
  ghost predicate SnapshotWritable(d: Doubles, server: Server, st: State, captured: Timestamp) {
    forall n: int {:trigger ResponseAt(server, st, n, captured)} ::
      1 <= n <= MAXIMUM_INT64 && Distinct(server.contract) ==>
        match Snapshot.SnapshotResponsePayload(server.contract, ResponseAt(server, st, n, captured))
        case Some(payload) => Holds(payload) && Everywhere(InRange(d), payload)
        case None => true
  }

  function ResponseAt(server: Server, st: State, n: int, captured: Timestamp): Snapshot.Response {
    Snapshot.Response(st, server.bridgeInstanceId, n, captured)
  }

  /** What the server itself must be for its messages to be valid. */
  ghost predicate Runs(server: Server) {
    && ValidContract(server.contract) && Snapshot.FieldsInOrder(server.contract) && !IsBlankText(server.bridgeInstanceId)
    && server.contract.maximumMessageBytes <= 16_777_216
  }

  lemma ReplyExpressible(d: Doubles, server: Server, r: Reply, message: Text, captured: Timestamp)
    requires Runs(server) && Shaped(server, r) && Clean(d, server, r.state, captured)
    requires 1 <= r.sequence <= MAXIMUM_INT64 && !IsBlankText(message)
    ensures Expressible(server, r, message, captured)
    ensures r.kind.FullSnapshotResponse? ==>
      var payload := PayloadOf(server, r, message, captured); Holds(payload) && Everywhere(InRange(d), payload)
  {
    if r.kind.FullSnapshotResponse? {
      assert ResponseOf(server, r, captured) == ResponseAt(server, r.state, r.sequence, captured);
      KnownMachine(server, r.state);
    }
  }

  lemma KnownMachine(server: Server, st: State)
    requires Runs(server) && Presentable(server, st)
    ensures !IsBlankText(st.gameVersion) && !IsBlankText(st.platform) && !IsBlankText(st.architecture)
  {
    var c := server.contract;
    assert !IsBlankText(c.name(W.Macos)) && !IsBlankText(c.name(W.Windows)) && !IsBlankText(c.name(W.Linux));
    assert !IsBlankText(c.name(W.X86_64)) && !IsBlankText(c.name(W.Arm64));
  }

  /**
   * For every behaviour of client, game and stream: whatever the server sends on a connection passes its own validator,
   * and the text is parsed back as the envelope that was meant, a snapshot with its numbers as they are written.
   */
  lemma EveryReplyArrives(d: Doubles, server: Server, start: nat, seen: set<Text>, turns: seq<Turn>, k: nat,
                          message: Text, captured: Timestamp, now: Timestamp)
    requires Runs(server) && ValidDoubles(d) && forall i :: 0 <= i < |turns| ==> Named(turns[i])
    requires forall i, st :: 0 <= i < |turns| && (turns[i].capture == Some(st) || turns[i].again == Some(st)) ==>
      Clean(d, server, st, captured)
    requires k < |Play(server, Start(start, seen), turns).sent| && start + k + 1 <= MAXIMUM_INT64
    requires !IsBlankText(message) && IsInstant(now) && now.offset == 0
    ensures var r := Play(server, Start(start, seen), turns).sent[k];
      var c, e := server.contract, EnvelopeFor(server, r, message, captured, now);
      && SerializeEnvelope(c, d, e).Some?
      && ParseEnvelope(c, SerializeEnvelope(c, d, e).value) == Some(PrintedEnvelope(d, e))
      && (!r.kind.FullSnapshotResponse? ==> PrintedEnvelope(d, e) == e)
  {
    RepliesShaped(server, start, seen, turns);
    RepliesNumbered(server, start, seen, turns);
    var r := Play(server, Start(start, seen), turns).sent[k];
    assert Accounted(server, r, turns);
    var i :| 0 <= i < |turns| && FromTurn(r, turns[i]);
    assert Clean(d, server, r.state, captured);
    ReplyExpressible(d, server, r, message, captured);
    ReplyArrives(d, server, r, message, captured, now);
  }
}
