/** One connection of the bridge server: the hello, the requests, and what may be answered when. */
module Session {
  import opened Texts
  import opened Json
  import opened Protocol
  import W = Vocabulary
  import Snapshot
  import opened Framing

  type State = Snapshot.State

  /** What a server knows for its whole life; `encode` is UTF-8. */
  datatype Server = Server(contract: Contract, token: Text, bridgeInstanceId: Text, encode: Text -> Bytes)

  /**
   * One attempt to read a frame: a whole envelope, a text that is not one, an idle timeout, or the end of the stream.
   */
  datatype Read = Frame(envelope: Envelope) | Malformed | Timeout | End

  /**
   * One turn of the loop as the world decides it: whether the loop goes on, what is read, what the two captures a turn
   * can need deliver, and whether its two writes succeed.
   */
  datatype Turn = Turn(alive: bool, read: Read, capture: Option<State>, again: Option<State>, write: bool, more: bool)

  datatype Body = Bare | Code(name: string) | Promise(sequence: nat)

  datatype Reply = Reply(kind: MessageType, correlation: Option<Text>, sequence: nat, body: Body, state: State)

  datatype Phase = Greeting | Serving | Over

  /** `processed` holds the hello and every request that passed the duplicate and sequence checks. */
  datatype Session = Session(
    phase: Phase, seen: set<Text>, last: int, sequence: nat, sent: seq<Reply>, processed: seq<Envelope>)

  const UNAVAILABLE: Text := W.Units("client:unavailable")

  /** The message id of the `n`th message of the server. */
  function IdText(server: Server, n: nat): Text { server.bridgeInstanceId + [COLON] + Decimal(n) }

  function Start(sequence: nat, seen: set<Text>): Session { Session(Greeting, seen, 0, sequence, [], []) }

  // ---------------------------------------------------------------- sending

  /**
   * `Send`: no capture, nothing happens and the connection ends; otherwise a number is spent whether or not it
   * arrives.
   */
  function Send(s: Session, kind: MessageType, correlation: Option<Text>, body: Body, captured: Option<State>,
              write: bool): Session {
    if captured.None? then s.(phase := Over)
    else if !write then s.(phase := Over, sequence := s.sequence + 1)
    else s.(sequence := s.sequence + 1, sent := s.sent + [Reply(kind, correlation, s.sequence + 1, body, captured.value)])
  }

  /** An error ends the connection. */
  function SendError(s: Session, correlation: Option<Text>, code: string, captured: Option<State>, write: bool): Session {
    Send(s, ProtocolError,
         Some(if correlation.Some? then correlation.value else UNAVAILABLE), Code(code), captured, write).(phase := Over)
  }

  function SendHelloAndCapabilities(s: Session, correlation: Text, captured: Option<State>, t: Turn): Session {
    var hello := Send(s, BridgeHello, Some(correlation), Bare, captured, t.write);
    if hello.phase.Over? then hello else Send(hello, CapabilityManifest, None, Bare, captured, t.more)
  }

  // ---------------------------------------------------------------- turns

  predicate Authentic(server: Server, hello: Envelope)
  {
    hello.messageType.ClientHello?
    && server.encode(TextOf(Get(server.contract, Protocol.Members(hello.payload), W.AuthenticationToken)))
        == server.encode(server.token)
  }

  function Greet(server: Server, s: Session, t: Turn): Session {
    match t.read
    case Malformed => SendError(s, None, "malformed_envelope", t.capture, t.write)
    case Timeout => s.(phase := Over)
    case End => s.(phase := Over)
    case Frame(hello) =>
      if !hello.messageType.ClientHello? then SendError(s, Some(hello.messageId), "protocol_mismatch", t.capture, t.write)
      else if !Authentic(server, hello) then
        Send(s, AuthenticationFailure, Some(hello.messageId), Bare, t.capture, t.write).(phase := Over)
      else
        SendHelloAndCapabilities(
          s.(phase := Serving, seen := {hello.messageId}, last := hello.bridgeSequence, processed := [hello]),
          hello.messageId, t.capture, t)
  }

  /** A request whose session and identities are those of the state captured now. */
  predicate UpToDate(request: Envelope, state: State) {
    request.gameSessionId == state.gameSessionId && request.mapIdentity == state.mapIdentity
    && request.saveIdentity == state.saveIdentity
  }

  predicate ExpectsThis(server: Server, request: Envelope, state: State) {
    var o := Protocol.Members(request.payload);
    && TextOf(Get(server.contract, o, W.ExpectedBridgeInstanceId)) == server.bridgeInstanceId
    && TextOf(Get(server.contract, o, W.ExpectedGameSessionId)) == state.gameSessionId
  }

  /**
   * A request in sequence, from the identity checks on. The payload of a snapshot is built before `Send` counts, so a
   * state it cannot be built from ends the connection without spending a number.
   */
  function Answer(server: Server, s: Session, request: Envelope, t: Turn): Session {
    if request.bridgeInstanceId != server.bridgeInstanceId then
      SendError(s, Some(request.messageId), "stale_identity", t.capture, t.write)
    else if t.capture.None? then s.(phase := Over)
    else if !request.messageType.ResynchronizationRequest? && !UpToDate(request, t.capture.value) then
      SendError(s, Some(request.messageId), "stale_identity", t.again, t.write)
    else if request.messageType.FullSnapshotRequest? then
      if !ExpectsThis(server, request, t.capture.value) then
        SendError(s, Some(request.messageId), "stale_identity", t.again, t.write)
      else if !Snapshot.Buildable(server.contract, t.capture.value) then s.(phase := Over)
      else
        Send(s, FullSnapshotResponse, Some(request.messageId), Promise(s.sequence + 1), t.capture, t.write)
    else if request.messageType.ResynchronizationRequest? then
      SendHelloAndCapabilities(s, request.messageId, t.again, t)
    else SendError(s, Some(request.messageId), "unknown_message_type", t.again, t.write)
  }

  function Serve(server: Server, s: Session, t: Turn): Session {
    if !t.alive then s.(phase := Over)
    else match t.read
    case End => s.(phase := Over)
    case Timeout => Send(s, Heartbeat, None, Bare, t.capture, t.write)
    case Malformed => SendError(s, None, "malformed_envelope", t.capture, t.write)
    case Frame(request) =>
      if request.messageId in s.seen then SendError(s, Some(request.messageId), "duplicate_message", t.capture, t.write)
      else
        var noted := s.(seen := s.seen + {request.messageId});
        if request.bridgeSequence != s.last + 1 then
          SendError(noted, Some(request.messageId), "sequence_error", t.capture, t.write)
        else
          Answer(server, noted.(last := request.bridgeSequence, processed := s.processed + [request]), request, t)
  }

  /** `HandleClient` by turns; once it has returned nothing more happens. */
  function Take(server: Server, s: Session, t: Turn): Session {
    match s.phase
    case Greeting => Greet(server, s, t)
    case Serving => Serve(server, s, t)
    case Over => s
  }

  function Play(server: Server, s: Session, turns: seq<Turn>): Session {
    if turns == [] then s else Take(server, Play(server, s, turns[..|turns| - 1]), turns[|turns| - 1])
  }

  // ---------------------------------------------------------------- safety

  predicate Privileged(kind: MessageType) {
    kind.BridgeHello? || kind.CapabilityManifest? || kind.FullSnapshotResponse? || kind.Heartbeat?
  }
  predicate Final(kind: MessageType) { kind.ProtocolError? || kind.AuthenticationFailure? }

  predicate DistinctIds(es: seq<Envelope>) { forall i, j :: 0 <= i < j < |es| ==> es[i].messageId != es[j].messageId }

  predicate Contiguous(es: seq<Envelope>) {
    forall i :: 0 <= i < |es| ==> es[i].bridgeSequence == es[0].bridgeSequence + i
  }

  /** A reply that answers a request names one that was processed; the very first error may have none to name. */
  predicate Answers(s: Session, r: Reply) {
    && (r.kind.FullSnapshotResponse? ==> r.body == Promise(r.sequence))
    && (r.kind.BridgeHello? || r.kind.FullSnapshotResponse? ==>
          r.correlation.Some? && exists i :: 0 <= i < |s.processed| && s.processed[i].messageId == r.correlation.value)
  }

  /** What holds after every turn, for a session that began with `start` numbers spent. */
  predicate Safe(server: Server, start: nat, s: Session) {
    && DistinctIds(s.processed) && Contiguous(s.processed)
    && (forall i :: 0 <= i < |s.processed| ==> s.processed[i].messageId in s.seen)
    && (s.phase.Greeting? ==> s.processed == [] && s.sent == [] && s.sequence == start)
    && (s.phase.Serving? ==> s.processed != [] && s.last == s.processed[|s.processed| - 1].bridgeSequence)
    && (s.processed != [] ==> Authentic(server, s.processed[0]))
    && (forall i :: 0 <= i < |s.sent| ==> (Privileged(s.sent[i].kind) ==> s.processed != []) && Answers(s, s.sent[i]))
    && (forall i :: 0 <= i < |s.sent| && Final(s.sent[i].kind) ==> i == |s.sent| - 1 && s.phase.Over?)
    && (forall i :: 0 <= i < |s.sent| ==> s.sent[i].sequence == start + 1 + i)
    && (!s.phase.Over? ==> s.sequence == start + |s.sent|)
    && start + |s.sent| <= s.sequence
  }

  lemma SentKeeps(server: Server, start: nat, s: Session, kind: MessageType, correlation: Option<Text>, body: Body,
                  captured: Option<State>, write: bool)
    requires Safe(server, start, s) && s.phase.Serving? && !Final(kind)
    requires kind.FullSnapshotResponse? ==> body == Promise(s.sequence + 1)
    requires kind.BridgeHello? || kind.FullSnapshotResponse? ==>
      correlation.Some? && exists i :: 0 <= i < |s.processed| && s.processed[i].messageId == correlation.value
    ensures Safe(server, start, Send(s, kind, correlation, body, captured, write))
  {
    var t := Send(s, kind, correlation, body, captured, write);
    forall i | 0 <= i < |t.sent| ensures Answers(t, t.sent[i]) {
      if i < |s.sent| { assert Answers(s, s.sent[i]); }
    }
  }

  /** The last message of a connection. */
  lemma LastKeeps(server: Server, start: nat, s: Session, kind: MessageType, correlation: Option<Text>, body: Body,
                  captured: Option<State>, write: bool)
    requires Safe(server, start, s) && !s.phase.Over? && Final(kind)
    ensures Safe(server, start, Send(s, kind, correlation, body, captured, write).(phase := Over))
  {
    var t := Send(s, kind, correlation, body, captured, write).(phase := Over);
    forall i | 0 <= i < |t.sent| ensures Answers(t, t.sent[i]) {
      if i < |s.sent| { assert Answers(s, s.sent[i]); }
    }
  }

  lemma HelloKeeps(server: Server, start: nat, s: Session, correlation: Text, captured: Option<State>, t: Turn)
    requires Safe(server, start, s) && s.phase.Serving?
    requires exists i :: 0 <= i < |s.processed| && s.processed[i].messageId == correlation
    ensures Safe(server, start, SendHelloAndCapabilities(s, correlation, captured, t))
  {
    SentKeeps(server, start, s, BridgeHello, Some(correlation), Bare, captured, t.write);
    var hello := Send(s, BridgeHello, Some(correlation), Bare, captured, t.write);
    if !hello.phase.Over? {
      SentKeeps(server, start, hello, CapabilityManifest, None, Bare, captured, t.more);
    }
  }

  lemma GreetKeeps(server: Server, start: nat, s: Session, t: Turn)
    requires Safe(server, start, s) && s.phase.Greeting?
    ensures Safe(server, start, Greet(server, s, t))
  {
    match t.read {
      case Malformed =>
        LastKeeps(server, start, s, ProtocolError, Some(UNAVAILABLE), Code("malformed_envelope"), t.capture, t.write);
      case Timeout =>
      case End =>
      case Frame(hello) =>
        if !hello.messageType.ClientHello? {
          LastKeeps(server, start, s, ProtocolError, Some(hello.messageId), Code("protocol_mismatch"), t.capture, t.write);
        } else if !Authentic(server, hello) {
          LastKeeps(server, start, s, AuthenticationFailure, Some(hello.messageId), Bare, t.capture, t.write);
        } else {
          var known := s.(phase := Serving, seen := {hello.messageId}, last := hello.bridgeSequence, processed := [hello]);
          assert known.processed[0].messageId == hello.messageId;
          HelloKeeps(server, start, known, hello.messageId, t.capture, t);
        }
    }
  }

  lemma AnswerKeeps(server: Server, start: nat, s: Session, request: Envelope, t: Turn)
    requires Safe(server, start, s) && s.phase.Serving?
    requires s.processed != [] && s.processed[|s.processed| - 1] == request
    ensures Safe(server, start, Answer(server, s, request, t))
  {
    var id := Some(request.messageId);
    assert s.processed[|s.processed| - 1].messageId == request.messageId;
    if request.bridgeInstanceId != server.bridgeInstanceId {
      LastKeeps(server, start, s, ProtocolError, id, Code("stale_identity"), t.capture, t.write);
    } else if t.capture.None? {
    } else if !request.messageType.ResynchronizationRequest? && !UpToDate(request, t.capture.value) {
      LastKeeps(server, start, s, ProtocolError, id, Code("stale_identity"), t.again, t.write);
    } else if request.messageType.FullSnapshotRequest? {
      if !ExpectsThis(server, request, t.capture.value) {
        LastKeeps(server, start, s, ProtocolError, id, Code("stale_identity"), t.again, t.write);
      } else if Snapshot.Buildable(server.contract, t.capture.value) {
        SentKeeps(server, start, s, FullSnapshotResponse, id, Promise(s.sequence + 1), t.capture, t.write);
      }
    } else if request.messageType.ResynchronizationRequest? {
      HelloKeeps(server, start, s, request.messageId, t.again, t);
    } else {
      LastKeeps(server, start, s, ProtocolError, id, Code("unknown_message_type"), t.again, t.write);
    }
  }

  /** Noting an id, and taking the request in. */
  lemma TakenKeeps(server: Server, start: nat, s: Session, request: Envelope)
    requires Safe(server, start, s) && s.phase.Serving? && request.messageId !in s.seen
    ensures Safe(server, start, s.(seen := s.seen + {request.messageId}))
    ensures request.bridgeSequence == s.last + 1 ==>
      Safe(server, start,
           s.(seen := s.seen + {request.messageId}, last := request.bridgeSequence, processed := s.processed + [request]))
  {
    var noted := s.(seen := s.seen + {request.messageId});
    forall i | 0 <= i < |s.sent| ensures Answers(noted, s.sent[i]) { assert Answers(s, s.sent[i]); }
    if request.bridgeSequence == s.last + 1 {
      var t := noted.(last := request.bridgeSequence, processed := s.processed + [request]);
      forall i | 0 <= i < |t.sent| ensures Answers(t, t.sent[i]) {
        assert Answers(s, s.sent[i]);
        if j :| 0 <= j < |s.processed| && Some(s.processed[j].messageId) == s.sent[i].correlation {
          assert t.processed[j] == s.processed[j];
        }
      }
    }
  }

  lemma ServeKeeps(server: Server, start: nat, s: Session, t: Turn)
    requires Safe(server, start, s) && s.phase.Serving?
    ensures Safe(server, start, Serve(server, s, t))
  {
    if t.alive {
      match t.read {
        case End =>
        case Timeout => SentKeeps(server, start, s, Heartbeat, None, Bare, t.capture, t.write);
        case Malformed =>
          LastKeeps(server, start, s, ProtocolError, Some(UNAVAILABLE), Code("malformed_envelope"), t.capture, t.write);
        case Frame(request) =>
          if request.messageId in s.seen {
            LastKeeps(server, start, s, ProtocolError, Some(request.messageId), Code("duplicate_message"), t.capture, t.write);
          } else {
            TakenKeeps(server, start, s, request);
            var noted := s.(seen := s.seen + {request.messageId});
            if request.bridgeSequence != s.last + 1 {
              LastKeeps(
                server, start, noted, ProtocolError, Some(request.messageId), Code("sequence_error"), t.capture, t.write);
            } else {
              AnswerKeeps(server, start,
                          noted.(last := request.bridgeSequence, processed := s.processed + [request]), request, t);
            }
          }
      }
    }
  }

  lemma {:induction false} PlaySafe(server: Server, start: nat, seen: set<Text>, turns: seq<Turn>)
    ensures Safe(server, start, Play(server, Start(start, seen), turns))
  {
    if turns != [] {
      var before := turns[..|turns| - 1];
      PlaySafe(server, start, seen, before);
      var s := Play(server, Start(start, seen), before);
      match s.phase {
        case Greeting => GreetKeeps(server, start, s, turns[|turns| - 1]);
        case Serving => ServeKeeps(server, start, s, turns[|turns| - 1]);
        case Over =>
      }
    }
  }

  lemma GreetOnce(server: Server, s: Session, t: Turn)
    requires s.processed == []
    ensures !Greet(server, s, t).phase.Greeting?
    ensures Greet(server, s, t).processed != [] ==> t.read == Read.Frame(Greet(server, s, t).processed[0])
  {
  }

  lemma ServeExtends(server: Server, s: Session, t: Turn)
    requires s.phase.Serving?
    ensures !Serve(server, s, t).phase.Greeting? && s.processed <= Serve(server, s, t).processed
  {
  }

  lemma {:induction false} FirstIsHello(server: Server, start: nat, seen: set<Text>, turns: seq<Turn>)
    ensures var s := Play(server, Start(start, seen), turns);
      && (s.phase.Greeting? <==> turns == []) && (s.phase.Serving? ==> s.processed != [])
      && (s.processed != [] ==> turns != [] && turns[0].read == Read.Frame(s.processed[0]))
  {
    PlaySafe(server, start, seen, turns);
    if turns != [] {
      var before := turns[..|turns| - 1];
      FirstIsHello(server, start, seen, before);
      var s := Play(server, Start(start, seen), before);
      assert before != [] ==> before[0] == turns[0];
      match s.phase {
        case Greeting => PlaySafe(server, start, seen, before); GreetOnce(server, s, turns[0]);
        case Serving => ServeExtends(server, s, turns[|turns| - 1]);
        case Over =>
      }
    }
  }

  /** No hello, manifest, snapshot or heartbeat leaves the server unless the first frame carried the right token. */
  lemma NothingBeforeToken(server: Server, start: nat, seen: set<Text>, turns: seq<Turn>)
    requires exists i :: 0 <= i < |Play(server, Start(start, seen), turns).sent|
                         && Privileged(Play(server, Start(start, seen), turns).sent[i].kind)
    ensures turns != [] && turns[0].read.Frame? && Authentic(server, turns[0].read.envelope)
  {
    PlaySafe(server, start, seen, turns);
    FirstIsHello(server, start, seen, turns);
  }

  /** The right token is answered by a hello and a manifest, exactly, if the game state and the stream allow it. */
  lemma WelcomeExact(server: Server, start: nat, seen: set<Text>, t: Turn)
    ensures var s := Play(server, Start(start, seen), [t]);
      s.phase.Serving? <==> t.read.Frame? && Authentic(server, t.read.envelope) && t.capture.Some? && t.write && t.more
    ensures var s := Play(server, Start(start, seen), [t]);
      s.phase.Serving? ==>
        s.sent == [Reply(BridgeHello, Some(t.read.envelope.messageId), start + 1, Bare, t.capture.value),
                   Reply(CapabilityManifest, None, start + 2, Bare, t.capture.value)]
  {
    assert [t][..0] == [] && Play(server, Start(start, seen), []) == Start(start, seen);
    assert Play(server, Start(start, seen), [t]) == Greet(server, Start(start, seen), t);
  }

  /** The requests that are processed have distinct ids and contiguous sequences from the hello on. */
  lemma ProcessedInOrder(server: Server, start: nat, seen: set<Text>, turns: seq<Turn>)
    ensures var s := Play(server, Start(start, seen), turns);
      && DistinctIds(s.processed) && Contiguous(s.processed)
      && (s.processed != [] ==> turns[0].read == Read.Frame(s.processed[0]))
  {
    PlaySafe(server, start, seen, turns);
    FirstIsHello(server, start, seen, turns);
  }

  /** What a request must satisfy to be answered; resynchronization is not held to the identities of the game. */
  predicate Answerable(server: Server, s: Session, request: Envelope, t: Turn) {
    && request.messageId !in s.seen && request.bridgeSequence == s.last + 1
    && request.bridgeInstanceId == server.bridgeInstanceId && t.capture.Some?
    && ((request.messageType.FullSnapshotRequest? && UpToDate(request, t.capture.value)
         && ExpectsThis(server, request, t.capture.value))
        || request.messageType.ResynchronizationRequest?)
  }

  /** The answer can be built and written: one frame for a snapshot, a fresh capture and two frames for a new start. */
  predicate Writable(server: Server, request: Envelope, t: Turn) {
    if request.messageType.FullSnapshotRequest?
    then t.capture.Some? && Snapshot.Buildable(server.contract, t.capture.value) && t.write
    else t.again.Some? && t.write && t.more
  }

  /** The connection outlives a request exactly when the request is answerable and the answer can be written in full. */
  lemma AnsweredExact(server: Server, s: Session, request: Envelope, t: Turn)
    requires s.phase.Serving? && t.alive && t.read == Read.Frame(request)
    ensures var u := Serve(server, s, t);
      u.phase.Serving? <==> Answerable(server, s, request, t) && Writable(server, request, t)
    ensures var u := Serve(server, s, t);
      u.phase.Serving? && request.messageType.FullSnapshotRequest? ==>
        u.sent == s.sent +
          [Reply(FullSnapshotResponse, Some(request.messageId), s.sequence + 1, Promise(s.sequence + 1), t.capture.value)]
    ensures var u := Serve(server, s, t);
      u.phase.Over? && |u.sent| > |s.sent| ==>
        |u.sent| == |s.sent| + 1 && (Final(u.sent[|s.sent|].kind) || u.sent[|s.sent|].kind.BridgeHello?)
  {
  }

  /** The first check that fails decides the code. */
  lemma ErrorExact(server: Server, s: Session, request: Envelope, t: Turn)
    requires s.phase.Serving? && t.alive && t.read == Read.Frame(request) && t.capture.Some? && t.again.Some? && t.write
    requires !Answerable(server, s, request, t)
    ensures var u := Serve(server, s, t);
      |u.sent| == |s.sent| + 1 && u.sent[|s.sent|].body == Code(
        if request.messageId in s.seen then "duplicate_message"
        else if request.bridgeSequence != s.last + 1 then "sequence_error"
        else if request.bridgeInstanceId != server.bridgeInstanceId || !UpToDate(request, t.capture.value)
                || request.messageType.FullSnapshotRequest? then "stale_identity"
        else "unknown_message_type")
  {
  }

  lemma {:induction false} OverStays(server: Server, s: Session, turns: seq<Turn>)
    requires s.phase.Over?
    ensures Play(server, s, turns) == s
  {
    if turns != [] { OverStays(server, s, turns[..|turns| - 1]); }
  }

  function Fold(step: (Session, Turn) -> Session, s: Session, turns: seq<Turn>): Session {
    if turns == [] then s else step(Fold(step, s, turns[..|turns| - 1]), turns[|turns| - 1])
  }

  lemma {:induction false} FoldOn(step: (Session, Turn) -> Session, s: Session, turns: seq<Turn>, more: seq<Turn>)
    ensures Fold(step, s, turns + more) == Fold(step, Fold(step, s, turns), more)
  {
    if more == [] {
      assert turns + more == turns;
    } else {
      FoldOn(step, s, turns, more[..|more| - 1]);
      assert (turns + more)[..|turns + more| - 1] == turns + more[..|more| - 1];
    }
  }

  function Step(server: Server): (Session, Turn) -> Session { (s, t) => Take(server, s, t) }

  lemma {:induction false} PlayIsFold(server: Server, s: Session, turns: seq<Turn>)
    ensures Play(server, s, turns) == Fold(Step(server), s, turns)
  {
    if turns != [] { PlayIsFold(server, s, turns[..|turns| - 1]); }
  }

  lemma PlayOn(server: Server, s: Session, turns: seq<Turn>, more: seq<Turn>)
    ensures Play(server, s, turns + more) == Play(server, Play(server, s, turns), more)
  {
    PlayIsFold(server, s, turns);
    PlayIsFold(server, s, turns + more);
    PlayIsFold(server, Play(server, s, turns), more);
    FoldOn(Step(server), s, turns, more);
  }

  lemma PlayNext(server: Server, s: Session, turns: seq<Turn>, i: nat)
    requires i < |turns|
    ensures Play(server, s, turns[..i + 1]) == Take(server, Play(server, s, turns[..i]), turns[i])
  {
    assert turns[..i + 1][..i] == turns[..i];
  }

  lemma PlayRest(server: Server, s: Session, turns: seq<Turn>, i: nat)
    requires i <= |turns| && (i == |turns| || Play(server, s, turns[..i]).phase.Over?)
    ensures Play(server, s, turns) == Play(server, s, turns[..i])
  {
    assert turns[..i] + turns[i..] == turns;
    PlayOn(server, s, turns[..i], turns[i..]);
    if i < |turns| { OverStays(server, Play(server, s, turns[..i]), turns[i..]); }
  }

  /**
   * After an error or an authentication failure nothing is sent, read or processed any more, whatever the client
   * does.
   */
  lemma NothingAfterError(server: Server, start: nat, seen: set<Text>, turns: seq<Turn>, more: seq<Turn>)
    requires exists i :: 0 <= i < |Play(server, Start(start, seen), turns).sent|
                         && Final(Play(server, Start(start, seen), turns).sent[i].kind)
    ensures Play(server, Start(start, seen), turns + more) == Play(server, Start(start, seen), turns)
  {
    PlaySafe(server, start, seen, turns);
    PlayOn(server, Start(start, seen), turns, more);
    OverStays(server, Play(server, Start(start, seen), turns), more);
  }

  /** Numbers on the wire follow each other without a gap, and a snapshot body repeats the number it travels under. */
  lemma RepliesNumbered(server: Server, start: nat, seen: set<Text>, turns: seq<Turn>)
    ensures var s := Play(server, Start(start, seen), turns);
      forall i :: 0 <= i < |s.sent| ==>
        s.sent[i].sequence == start + 1 + i
        && (s.sent[i].kind.FullSnapshotResponse? ==> s.sent[i].body == Promise(s.sent[i].sequence))
  {
    PlaySafe(server, start, seen, turns);
    var s := Play(server, Start(start, seen), turns);
    forall i | 0 <= i < |s.sent|
      ensures s.sent[i].kind.FullSnapshotResponse? ==> s.sent[i].body == Promise(s.sent[i].sequence)
    {
      assert Answers(s, s.sent[i]);
    }
  }
}
