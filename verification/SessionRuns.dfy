/** Whole connections: when one is still up, what it has been sent, and which error ends it. */
module SessionRuns {
  import opened Texts
  import opened Protocol
  import opened Session
  import Snapshot

  /** The envelopes read in these turns. */
  function Frames(turns: seq<Turn>): seq<Envelope> {
    if turns == [] then []
    else
      var t := turns[|turns| - 1];
      Frames(turns[..|turns| - 1]) + (if t.read.Frame? then [t.read.envelope] else [])
  }

  predicate Repeats(met: seq<Envelope>, request: Envelope) {
    exists i :: 0 <= i < |met| && met[i].messageId == request.messageId
  }

  /** The request carries the number that follows those of the hello and the requests after it. */
  predicate InSequence(met: seq<Envelope>, request: Envelope)
    requires met != []
  {
    request.bridgeSequence == met[0].bridgeSequence + |met|
  }

  /** The hello is authentic, the state of the game is captured, and both answers are written. */
  predicate Welcomed(server: Server, t: Turn) {
    t.read.Frame? && Authentic(server, t.read.envelope) && t.capture.Some? && t.write && t.more
  }

  /** A request after the frames `met` that is answered in full. */
  predicate Answered(server: Server, met: seq<Envelope>, request: Envelope, t: Turn)
    requires met != []
  {
    && !Repeats(met, request) && InSequence(met, request)
    && request.bridgeInstanceId == server.bridgeInstanceId && t.capture.Some?
    && ((request.messageType.FullSnapshotRequest? && UpToDate(request, t.capture.value)
         && ExpectsThis(server, request, t.capture.value))
        || request.messageType.ResynchronizationRequest?)
    && Writable(server, request, t)
  }

  /** A turn after the frames `met` that the connection survives. */
  predicate Survived(server: Server, met: seq<Envelope>, t: Turn)
    requires met != []
  {
    t.alive
    && match t.read
       case Frame(request) => Answered(server, met, request, t)
       case Timeout => t.capture.Some? && t.write
       case Malformed => false
       case End => false
  }

  /** Every turn of the connection is in order, as the frames before it decide. */
  predicate InOrder(server: Server, turns: seq<Turn>) {
    turns != []
    && if |turns| == 1 then Welcomed(server, turns[0])
       else
         var before := turns[..|turns| - 1];
         InOrder(server, before) && Frames(before) != [] && Survived(server, Frames(before), turns[|turns| - 1])
  }

  /** What an orderly turn sends, when `n` numbers are spent. */
  function Sends(first: bool, n: nat, t: Turn): seq<Reply> {
    match t.read
    case Timeout => if t.capture.Some? then [Reply(Heartbeat, None, n + 1, Bare, t.capture.value)] else []
    case Frame(e) =>
      if !first && e.messageType.FullSnapshotRequest? then
        if t.capture.Some? then [Reply(FullSnapshotResponse, Some(e.messageId), n + 1, Promise(n + 1), t.capture.value)] else []
      else
        var captured := if first then t.capture else t.again;
        if captured.None? then []
        else [Reply(BridgeHello, Some(e.messageId), n + 1, Bare, captured.value),
              Reply(CapabilityManifest, None, n + 2, Bare, captured.value)]
    case _ => []
  }

  /** What an orderly connection is sent. */
  function Sendings(start: nat, turns: seq<Turn>): seq<Reply> {
    if turns == [] then []
    else
      var before := Sendings(start, turns[..|turns| - 1]);
      before + Sends(|turns| == 1, start + |before|, turns[|turns| - 1])
  }

  /** A serving session has processed `met`: its ids are those seen, its numbers those expected. */
  ghost predicate Met(s: Session, met: seq<Envelope>) {
    && s.phase.Serving? && met != [] && s.processed == met
    && (forall id :: id in s.seen <==> exists i :: 0 <= i < |met| && met[i].messageId == id)
    && s.last + 1 == met[0].bridgeSequence + |met|
  }

  lemma GreetedExact(server: Server, start: nat, seen: set<Text>, t: Turn)
    ensures var s := Play(server, Start(start, seen), [t]);
      && (s.phase.Serving? <==> Welcomed(server, t))
      && (s.phase.Serving? ==> Met(s, Frames([t])) && s.sent == Sends(true, start, t) && s.sequence == start + |s.sent|)
  {
    WelcomeExact(server, start, seen, t);
    assert [t][..0] == [] && Play(server, Start(start, seen), []) == Start(start, seen);
    assert Play(server, Start(start, seen), [t]) == Greet(server, Start(start, seen), t);
    assert Frames([]) == [];
    if t.read.Frame? {
      assert Frames([t]) == [t.read.envelope];
      var met := Frames([t]);
      var s := Play(server, Start(start, seen), [t]);
      if s.phase.Serving? {
        assert met[0].messageId in s.seen;
      }
    }
  }

  lemma ServedExact(server: Server, s: Session, met: seq<Envelope>, t: Turn)
    requires Met(s, met)
    ensures Serve(server, s, t).phase.Serving? <==> Survived(server, met, t)
  {
    if t.alive && t.read.Frame? {
      AnsweredExact(server, s, t.read.envelope, t);
      assert t.read.envelope.messageId in s.seen <==> Repeats(met, t.read.envelope);
    }
  }

  lemma ServedMeets(server: Server, s: Session, met: seq<Envelope>, t: Turn)
    requires Met(s, met) && Survived(server, met, t)
    ensures Met(Serve(server, s, t), met + (if t.read.Frame? then [t.read.envelope] else []))
  {
    ServedExact(server, s, met, t);
    var u := Serve(server, s, t);
    if t.read.Frame? {
      var now := met + [t.read.envelope];
      assert u.processed == now && u.seen == s.seen + {t.read.envelope.messageId};
      forall id ensures id in u.seen <==> exists i :: 0 <= i < |now| && now[i].messageId == id {
        if i :| 0 <= i < |met| && met[i].messageId == id { assert now[i].messageId == id; }
        assert now[|met|].messageId == t.read.envelope.messageId;
      }
    } else {
      assert met + [] == met;
    }
  }

  lemma ServedSends(server: Server, s: Session, met: seq<Envelope>, t: Turn)
    requires Met(s, met) && Survived(server, met, t)
    ensures var u := Serve(server, s, t);
      u.sent == s.sent + Sends(false, s.sequence, t) && u.sequence == s.sequence + |Sends(false, s.sequence, t)|
  {
    if t.read.Frame? {
      assert t.read.envelope.messageId in s.seen <==> Repeats(met, t.read.envelope);
    }
  }

  /** The session after a run of turns in order, and only after such a run, serves, and has met and sent what it should. */
  ghost predicate InOrderExactly(start: nat, turns: seq<Turn>, server: Server, s: Session) {
    && (s.phase.Serving? <==> InOrder(server, turns))
    && (s.phase.Serving? ==>
          Met(s, Frames(turns)) && s.sent == Sendings(start, turns) && s.sequence == start + |s.sent|)
  }

  lemma FirstTurn(server: Server, start: nat, seen: set<Text>, t: Turn)
    ensures InOrderExactly(start, [t], server, Play(server, Start(start, seen), [t]))
  {
    GreetedExact(server, start, seen, t);
    assert [t][..0] == [] && Sendings(start, []) == [];
    assert Sendings(start, [t]) == [] + Sends(true, start, t);
  }

  lemma NextTurn(server: Server, start: nat, turns: seq<Turn>, s: Session)
    requires |turns| > 1 && !s.phase.Greeting? && InOrderExactly(start, turns[..|turns| - 1], server, s)
    ensures InOrderExactly(start, turns, server, Take(server, s, turns[|turns| - 1]))
  {
    var before, t := turns[..|turns| - 1], turns[|turns| - 1];
    if s.phase.Serving? {
      ServedExact(server, s, Frames(before), t);
      if Survived(server, Frames(before), t) {
        ServedMeets(server, s, Frames(before), t);
        ServedSends(server, s, Frames(before), t);
      }
    }
  }

  /**
   * A connection is up after a run exactly when every turn of it was in order. It has then processed every frame it
   * read, and was sent the hello, the manifests, the snapshots and the heartbeats those turns call for, and nothing
   * else.
   */
  lemma {:induction false} RunExact(server: Server, start: nat, seen: set<Text>, turns: seq<Turn>)
    requires turns != []
    ensures var s := Play(server, Start(start, seen), turns);
      && (s.phase.Serving? <==> InOrder(server, turns))
      && (s.phase.Serving? ==>
            Met(s, Frames(turns)) && s.sent == Sendings(start, turns) && s.sequence == start + |s.sent|)
  {
    var before := turns[..|turns| - 1];
    if |turns| == 1 {
      assert turns == [turns[0]];
      FirstTurn(server, start, seen, turns[0]);
    } else {
      RunExact(server, start, seen, before);
      FirstIsHello(server, start, seen, before);
      NextTurn(server, start, turns, Play(server, Start(start, seen), before));
    }
    assert InOrderExactly(start, turns, server, Play(server, Start(start, seen), turns));
  }

  /** The error that answers a request which is not in order. */
  function ErrorFor(server: Server, met: seq<Envelope>, request: Envelope, state: State): string
    requires met != []
  {
    if Repeats(met, request) then "duplicate_message"
    else if !InSequence(met, request) then "sequence_error"
    else if request.bridgeInstanceId != server.bridgeInstanceId then "stale_identity"
    else if !UpToDate(request, state) || request.messageType.FullSnapshotRequest? then "stale_identity"
    else "unknown_message_type"
  }

  /**
   * After any orderly run, the next request ends the connection by exactly one error, named by the first check it fails
   * against all the frames of the run, unless it is answered or its snapshot cannot be built.
   */
  lemma RunError(server: Server, start: nat, seen: set<Text>, turns: seq<Turn>, request: Envelope, t: Turn)
    requires InOrder(server, turns) && t.alive && t.read == Read.Frame(request)
    requires t.capture.Some? && t.again.Some? && t.write && t.more
      && Snapshot.Buildable(server.contract, t.capture.value)
    ensures Frames(turns) != []
    ensures var s, u := Play(server, Start(start, seen), turns), Play(server, Start(start, seen), turns + [t]);
      !Answered(server, Frames(turns), request, t) ==>
        u.phase.Over? && |u.sent| == |s.sent| + 1 && s.sent <= u.sent
        && u.sent[|s.sent|].kind == ProtocolError && u.sent[|s.sent|].correlation == Some(request.messageId)
        && u.sent[|s.sent|].body == Code(ErrorFor(server, Frames(turns), request, t.capture.value))
  {
    RunExact(server, start, seen, turns);
    var s := Play(server, Start(start, seen), turns);
    var met := Frames(turns);
    assert (turns + [t])[..|turns|] == turns;
    assert request.messageId in s.seen <==> Repeats(met, request);
    if !Answered(server, met, request, t) {
      assert !Answerable(server, s, request, t);
      ErrorExact(server, s, request, t);
    }
  }

  // ---------------------------------------------------------------- refused from the start

  /** What a first read that is no authentic hello is told, if the state of the game is captured and the write succeeds. */
  function FirstRefusal(start: nat, read: Read, state: State): seq<Reply> {
    match read
    case Malformed => [Reply(ProtocolError, Some(UNAVAILABLE), start + 1, Code("malformed_envelope"), state)]
    case Frame(e) =>
      if e.messageType.ClientHello? then [Reply(AuthenticationFailure, Some(e.messageId), start + 1, Bare, state)]
      else [Reply(ProtocolError, Some(e.messageId), start + 1, Code("protocol_mismatch"), state)]
    case Timeout => []
    case End => []
  }

  /**
   * A connection whose first read is not a hello with the right token is over, whatever the client does afterwards: a
   * wrong token has been answered by one authentication failure, another message and a malformed text by one error
   * each, silence by nothing, and no request was processed.
   */
  lemma RefusedExact(server: Server, start: nat, seen: set<Text>, turns: seq<Turn>)
    requires turns != [] && !(turns[0].read.Frame? && Authentic(server, turns[0].read.envelope))
    ensures var s, t := Play(server, Start(start, seen), turns), turns[0];
      && s.phase.Over? && s.processed == []
      && s.sent == if t.capture.Some? && t.write then FirstRefusal(start, t.read, t.capture.value) else []
  {
    var t := turns[0];
    assert turns[..1] == [t] && turns[..0] == [];
    PlayNext(server, Start(start, seen), turns, 0);
    assert Play(server, Start(start, seen), [t]) == Greet(server, Start(start, seen), t);
    PlayRest(server, Start(start, seen), turns, 1);
  }

  // ---------------------------------------------------------------- numbers

  predicate AllWritten(turns: seq<Turn>) { forall i :: 0 <= i < |turns| ==> turns[i].write && turns[i].more }

  lemma WrittenCounted(server: Server, s: Session, t: Turn)
    requires t.write && t.more
    ensures var u := Take(server, s, t);
      |s.sent| <= |u.sent| && u.sequence - s.sequence == |u.sent| - |s.sent|
  {
  }

  /** As long as every write succeeds, the numbers spent are those of the messages sent, errors included. */
  lemma {:induction false} NumbersSpent(server: Server, start: nat, seen: set<Text>, turns: seq<Turn>)
    requires AllWritten(turns)
    ensures var s := Play(server, Start(start, seen), turns); s.sequence == start + |s.sent|
  {
    if turns != [] {
      var before := turns[..|turns| - 1];
      assert AllWritten(before);
      NumbersSpent(server, start, seen, before);
      WrittenCounted(server, Play(server, Start(start, seen), before), turns[|turns| - 1]);
    }
  }

  /** A turn that has something to send: a request, silence or nonsense, and a state of the game to send it with. */
  predicate HasToSend(server: Server, t: Turn) {
    && t.alive && !t.read.End? && t.capture.Some? && t.again.Some?
    && Snapshot.Buildable(server.contract, t.capture.value)
  }

  /** A write that fails spends its number, whatever it was to be, and ends the connection. */
  lemma FailedWriteSpends(server: Server, s: Session, t: Turn)
    requires s.phase.Serving? && HasToSend(server, t) && !t.write
    ensures var u := Serve(server, s, t);
      u.phase.Over? && u.sent == s.sent && u.sequence == s.sequence + 1
  {
  }
}
