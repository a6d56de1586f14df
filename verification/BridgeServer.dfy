/** The bridge server's connection handler as it runs: one loop over frames that updates the server's fields. */
module BridgeServer {
  import opened Texts
  import opened Json
  import opened Protocol
  import opened Session
  import Snapshot
  import TokenCheck
  import W = Vocabulary

  class BridgeServer {
    const server: Server
    var sequence: nat
    var messageIds: set<Text>
    /** What the present connection has been sent. */
    var sent: seq<Reply>

    constructor (server: Server)
      ensures this.server == server && sequence == 0 && messageIds == {} && sent == []
    {
      this.server := server;
      sequence, messageIds, sent := 0, {}, [];
    }

    /** The fields are those of the session `s`. */
    ghost predicate Shows(s: Session)
      reads this
    {
      s.sequence == sequence && s.seen == messageIds && s.sent == sent
    }

    /** `TryAcquireClient`: `busy` is what the flag shows at each attempt. */
    static method TryAcquireClient(busy: seq<bool>) returns (acquired: bool)
      requires |busy| == 25
      ensures acquired <==> false in busy
    {
      for attempt := 0 to 25
        invariant forall k :: 0 <= k < attempt ==> busy[k]
      {
        if !busy[attempt] { return true; }
      }
      return false;
    }

    method Transmit(ghost s: Session, kind: MessageType, correlation: Option<Text>, body: Body,
                    captured: Option<State>, write: bool)
      returns (ok: bool, ghost t: Session)
      requires Shows(s) && !s.phase.Over?
      modifies this`sequence, this`sent
      ensures t == Send(s, kind, correlation, body, captured, write) && Shows(t)
      ensures ok <==> !t.phase.Over?
    {
      t := Send(s, kind, correlation, body, captured, write);
      if captured.None? { return false, t; }
      sequence := sequence + 1;
      if !write { return false, t; }
      sent := sent + [Reply(kind, correlation, sequence, body, captured.value)];
      return true, t;
    }

    method Fail(ghost s: Session, correlation: Option<Text>, code: string, captured: Option<State>, write: bool)
      returns (ghost t: Session)
      requires Shows(s) && !s.phase.Over?
      modifies this`sequence, this`sent
      ensures t == SendError(s, correlation, code, captured, write) && Shows(t)
    {
      var named := if correlation.Some? then correlation.value else UNAVAILABLE;
      var ok;
      ok, t := Transmit(s, ProtocolError, Some(named), Code(code), captured, write);
      t := t.(phase := Over);
    }

    method Welcome(ghost s: Session, correlation: Text, captured: Option<State>, turn: Turn)
      returns (ok: bool, ghost t: Session)
      requires Shows(s) && !s.phase.Over?
      modifies this`sequence, this`sent
      ensures t == SendHelloAndCapabilities(s, correlation, captured, turn) && Shows(t)
      ensures ok <==> !t.phase.Over?
    {
      ok, t := Transmit(s, BridgeHello, Some(correlation), Bare, captured, turn.write);
      if ok {
        ok, t := Transmit(t, CapabilityManifest, None, Bare, captured, turn.more);
      }
    }

    /** Everything before the loop; `ok` if the connection goes on, and then `last` is the client's sequence. */
    method AcceptHello(ghost s: Session, turn: Turn) returns (ok: bool, last: int, ghost t: Session)
      requires Shows(s) && s.phase.Greeting? && server.encode(server.token) != []
      requires turn.read.Frame? && turn.read.envelope.messageType.ClientHello? ==>
        server.encode(SuppliedToken(turn.read.envelope)) != []
      modifies this
      ensures t == Greet(server, s, turn) && Shows(t)
      ensures ok <==> !t.phase.Over?
      ensures ok ==> last == t.last
    {
      last := 0;
      match turn.read {
        case Malformed =>
          t := Fail(s, None, "malformed_envelope", turn.capture, turn.write);
          return false, last, t;
        case Timeout => return false, last, s.(phase := Over);
        case End => return false, last, s.(phase := Over);
        case Frame(hello) =>
          if !hello.messageType.ClientHello? {
            t := Fail(s, Some(hello.messageId), "protocol_mismatch", turn.capture, turn.write);
            return false, last, t;
          }
          var equal := TokenCheck.FixedTimeEquals(server.encode(SuppliedToken(hello)), server.encode(server.token));
          if equal != Some(true) {
            var arrived;
            arrived, t := Transmit(s, AuthenticationFailure, Some(hello.messageId), Bare, turn.capture, turn.write);
            return false, last, t.(phase := Over);
          }
          messageIds := {hello.messageId};
          last := hello.bridgeSequence;
          ghost var known :=
            s.(phase := Serving, seen := {hello.messageId}, last := hello.bridgeSequence, processed := [hello]);
          ok, t := Welcome(known, hello.messageId, turn.capture, turn);
      }
    }

    function SuppliedToken(hello: Envelope): Text {
      TextOf(Get(server.contract, Protocol.Members(hello.payload), W.AuthenticationToken))
    }

    /** A request in sequence. */
    method AnswerRequest(ghost s: Session, request: Envelope, turn: Turn) returns (ok: bool, ghost t: Session)
      requires Shows(s) && s.phase.Serving?
      modifies this`sequence, this`sent
      ensures t == Answer(server, s, request, turn) && Shows(t)
      ensures ok <==> !t.phase.Over?
    {
      if request.bridgeInstanceId != server.bridgeInstanceId {
        t := Fail(s, Some(request.messageId), "stale_identity", turn.capture, turn.write);
        return false, t;
      }
      if turn.capture.None? { return false, s.(phase := Over); }
      if !request.messageType.ResynchronizationRequest? && !UpToDate(request, turn.capture.value) {
        t := Fail(s, Some(request.messageId), "stale_identity", turn.again, turn.write);
        return false, t;
      }
      if request.messageType.FullSnapshotRequest? {
        if !ExpectsThis(server, request, turn.capture.value) {
          t := Fail(s, Some(request.messageId), "stale_identity", turn.again, turn.write);
          return false, t;
        }
        if !Snapshot.Buildable(server.contract, turn.capture.value) { return false, s.(phase := Over); }
        var responseSequence := sequence + 1;
        ok, t := Transmit(
          s, FullSnapshotResponse, Some(request.messageId), Promise(responseSequence), turn.capture, turn.write);
      } else if request.messageType.ResynchronizationRequest? {
        ok, t := Welcome(s, request.messageId, turn.again, turn);
      } else {
        t := Fail(s, Some(request.messageId), "unknown_message_type", turn.again, turn.write);
        return false, t;
      }
    }

    /** One pass of the request loop. */
    method ServeTurn(ghost s: Session, last: int, turn: Turn) returns (ok: bool, next: int, ghost t: Session)
      requires Shows(s) && s.phase.Serving? && last == s.last
      modifies this
      ensures t == Serve(server, s, turn) && Shows(t)
      ensures ok <==> !t.phase.Over?
      ensures ok ==> next == t.last
    {
      next := last;
      if !turn.alive { return false, next, s.(phase := Over); }
      match turn.read {
        case End => return false, next, s.(phase := Over);
        case Timeout => ok, t := Transmit(s, Heartbeat, None, Bare, turn.capture, turn.write);
        case Malformed =>
          t := Fail(s, None, "malformed_envelope", turn.capture, turn.write);
          return false, next, t;
        case Frame(request) =>
          if request.messageId in messageIds {
            t := Fail(s, Some(request.messageId), "duplicate_message", turn.capture, turn.write);
            return false, next, t;
          }
          messageIds := messageIds + {request.messageId};
          ghost var noted := s.(seen := s.seen + {request.messageId});
          if request.bridgeSequence != last + 1 {
            t := Fail(noted, Some(request.messageId), "sequence_error", turn.capture, turn.write);
            return false, next, t;
          }
          next := request.bridgeSequence;
          ok, t := AnswerRequest(
            noted.(last := request.bridgeSequence, processed := s.processed + [request]), request, turn);
      }
    }

    /**
     * `HandleClient` against a world that decides the turns. The supplied token has at least 32 characters and the
     * server's at least 32 bytes, so neither is encoded as nothing.
     */
    method HandleClient(turns: seq<Turn>) returns (ghost s: Session)
      requires turns != [] && server.encode(server.token) != []
      requires turns[0].read.Frame? && turns[0].read.envelope.messageType.ClientHello? ==>
        server.encode(SuppliedToken(turns[0].read.envelope)) != []
      modifies this
      ensures s == Play(server, Start(old(sequence), old(messageIds)), turns) && Shows(s)
    {
      ghost var start := Start(sequence, messageIds);
      sent := [];
      assert turns[..0] == [];
      PlayNext(server, start, turns, 0);
      GreetOnce(server, start, turns[0]);
      var ok, last, i := false, 0, 1;
      ok, last, s := AcceptHello(start, turns[0]);
      while ok && i < |turns|
        invariant 1 <= i <= |turns| && Shows(s)
        invariant s == Play(server, start, turns[..i])
        invariant ok <==> !s.phase.Over?
        invariant ok ==> s.phase.Serving? && last == s.last
      {
        PlayNext(server, start, turns, i);
        ServeExtends(server, s, turns[i]);
        ok, last, s := ServeTurn(s, last, turns[i]);
        i := i + 1;
      }
      PlayRest(server, start, turns, i);
    }
  }
}
