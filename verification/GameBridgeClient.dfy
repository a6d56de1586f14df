/** The bridge client as it runs: methods that update its fields, one read or write at a time. */
module GameBridgeClient {
  import opened Texts
  import opened Protocol
  import opened Client
  import Calls = Client

  class GameBridgeClient {
    const configuration: Expected
    var state: Mode
    var capabilities: Option<seq<Text>>
    var bridgeInstanceId: Option<Text>
    var gameSessionId: Option<Text>
    var mapIdentity: Option<Identity>
    var saveIdentity: Option<Identity>
    var lastBridgeSequence: Option<int>
    var outgoingSequence: nat
    var seenMessageIds: set<Text>
    /** Whether there is a reader and a writer. */
    var attached: bool
    /** What the reader's next reads will come to, and everything the writers have been given. */
    var inbox: seq<Read>
    var outbox: seq<Sent>

    function View(): Calls.Client
      reads this
    {
      Calls.Client(state, capabilities, bridgeInstanceId, gameSessionId, mapIdentity, saveIdentity, lastBridgeSequence,
                    outgoingSequence, seenMessageIds, attached)
    }

    constructor (configuration: Expected)
      ensures this.configuration == configuration && View() == Calls.Initial() && inbox == [] && outbox == []
    {
      this.configuration := configuration;
      state, capabilities, bridgeInstanceId, gameSessionId := Idle, None, None, None;
      mapIdentity, saveIdentity, lastBridgeSequence := None, None, None;
      outgoingSequence, seenMessageIds, attached, inbox, outbox := 0, {}, false, [], [];
    }

    method ReadFrame() returns (r: Outcome<Message>)
      modifies this`inbox
      ensures !attached ==> r == Fail(Error.Disconnected) && inbox == old(inbox)
      ensures attached && old(inbox) == [] ==> r == Fail(Timeout) && inbox == []
      ensures attached && old(inbox) != [] ==> inbox == old(inbox)[1..]
      ensures attached && old(inbox) != [] ==>
        r == if old(inbox)[0].Arrived? then Ok(old(inbox)[0].message) else Fail(ReadError(old(inbox)[0]))
    {
      if !attached { return Fail(Error.Disconnected); }
      if inbox == [] { return Fail(Timeout); }
      var next := inbox[0];
      inbox := inbox[1..];
      if next.Arrived? { return Ok(next.message); }
      return Fail(ReadError(next));
    }

    /** The checks outside a handshake, in their order. */
    method CheckTimeline(meta: Meta) returns (e: Option<Error>)
      ensures e == Objection(View(), meta)
    {
      if bridgeInstanceId.Some? && meta.instance != bridgeInstanceId.value { return Some(InstanceChanged); }
      if gameSessionId.Some? && meta.session != gameSessionId.value { return Some(SessionChanged); }
      if mapIdentity.Some? && meta.mapIdentity != mapIdentity.value { return Some(MapChanged); }
      if saveIdentity.Some? && meta.saveIdentity != saveIdentity.value { return Some(SaveChanged); }
      if lastBridgeSequence.Some? && meta.sequence != lastBridgeSequence.value + 1 { return Some(Gap); }
      return None;
    }

    method Record(message: Message, baseline: bool)
      modifies this
      ensures View() == Noted(old(View()), message, baseline) && inbox == old(inbox) && outbox == old(outbox)
    {
      if baseline { seenMessageIds := {}; }
      seenMessageIds := seenMessageIds + {message.id};
      bridgeInstanceId := Some(message.meta.instance);
      gameSessionId := Some(message.meta.session);
      mapIdentity := Some(message.meta.mapIdentity);
      saveIdentity := Some(message.meta.saveIdentity);
      lastBridgeSequence := Some(message.meta.sequence);
    }

    method ReceiveMessage(baseline: bool) returns (r: Outcome<Message>)
      modifies this
      ensures var s := Calls.Receive(configuration, old(View()), old(inbox), baseline);
        View() == s.client && inbox == s.inbox && r == s.outcome && outbox == old(outbox)
    {
      r := ReadFrame();
      if r.Fail? { return; }
      var message := r.value;
      if !Compatible(configuration, message.meta) { return Fail(Incompatible); }
      if message.id in seenMessageIds { return Fail(Duplicate); }
      if !baseline {
        var e := CheckTimeline(message.meta);
        if e.Some? { return Fail(e.value); }
      }
      Record(message, baseline);
    }

    method SendMessage(id: Text, ask: Ask, w: Writing) returns (failure: Option<Error>)
      modifies this`outgoingSequence, this`outbox
      ensures View() == Counted(old(View())) && failure == SendError(old(View()), w)
      ensures outbox == Outbox(old(View()), old(outbox), id, ask, w)
    {
      if !attached { return Some(Error.Disconnected); }
      outgoingSequence := outgoingSequence + 1;
      var envelope := Sent(
        id, outgoingSequence, Or(bridgeInstanceId, UNNEGOTIATED), Or(gameSessionId, UNNEGOTIATED),
        Or(mapIdentity, NOT_NEGOTIATED), Or(saveIdentity, NOT_NEGOTIATED), ask);
      if w.Refused? { return Some(BadSize); }
      outbox := outbox + [envelope];
      match w {
        case Late => return Some(Timeout);
        case Dead => return Some(Error.Disconnected);
        case _ => return None;
      }
    }

    method Close()
      modifies this
      ensures View() == Closed(old(View())) && inbox == [] && outbox == old(outbox)
    {
      attached := false;
      inbox := [];
      state := Idle;
    }

    /** The hello and the manifest that every handshake expects. */
    method Handshake(id: Text, first: bool) returns (r: Outcome<seq<Text>>)
      modifies this
      ensures var s := Shake(configuration, old(View()), old(inbox), id, first);
        View() == s.client && inbox == s.inbox && r == s.outcome && outbox == old(outbox)
    {
      var hello := ReceiveMessage(true);
      if hello.Fail? { return Fail(hello.error); }
      if first && hello.value.content.Refusal? { return Fail(Unauthenticated); }
      if !hello.value.content.Welcome? { return Fail(Unexpected); }
      if hello.value.correlation != Some(id) { return Fail(WrongCorrelation); }
      var manifest := ReceiveMessage(false);
      if manifest.Fail? { return Fail(manifest.error); }
      if !manifest.value.content.Manifest? { return Fail(Unexpected); }
      capabilities := Some(manifest.value.content.surfaces);
      state := Synchronized;
      return Ok(manifest.value.content.surfaces);
    }

    method Connect(opening: Opening, id: Text, w: Writing) returns (r: Outcome<seq<Text>>)
      modifies this
      ensures Call(View(), inbox, outbox, r)
        == Calls.Connect(configuration, old(View()), old(inbox), old(outbox), opening, id, w)
    {
      if state.Synchronized? && capabilities.Some? { return Ok(capabilities.value); }
      state := Connecting;
      if !opening.Opened? {
        state := Failed;
        Close();
        return Fail(if opening.Refuses? then Error.Disconnected else Timeout);
      }
      attached, inbox := true, opening.inbox;
      state := Authenticating;
      var failure := SendMessage(id, AskHello, w);
      if failure.Some? {
        state := Failed;
        Close();
        return Fail(failure.value);
      }
      r := Handshake(id, true);
      if r.Fail? {
        state := Failed;
        Close();
      }
    }

    method RequestFullSnapshot(id: Text, w: Writing) returns (r: Outcome<Message>)
      modifies this
      ensures Call(View(), inbox, outbox, r)
        == RequestSnapshot(configuration, old(View()), old(inbox), old(outbox), id, w)
    {
      if !state.Synchronized? { return Fail(NotSynchronized); }
      if bridgeInstanceId.None? || gameSessionId.None? { return Fail(NoIdentity); }
      var failure := SendMessage(id, AskSnapshot(bridgeInstanceId.value, gameSessionId.value), w);
      if failure.Some? { return Fail(failure.value); }
      ghost var c, unread := View(), inbox;
      while true
        invariant Await(configuration, View(), inbox, id) == Await(configuration, c, unread, id)
        invariant outbox ==
          Outbox(old(View()), old(outbox), id, AskSnapshot(old(bridgeInstanceId).value, old(gameSessionId).value), w)
        decreases |inbox|
      {
        r := ReceiveMessage(false);
        if r.Fail? { return; }
        var response := r.value;
        match response.content {
          case Beat => continue;
          case Failure(code) => return Fail(Reported(code));
          case SnapshotOf(meta, body) =>
            if response.correlation != Some(id) { return Fail(WrongCorrelation); }
            if meta != response.meta { return Fail(Mismatch); }
            return;
          case _ => return Fail(Unexpected);
        }
      }
    }

    method Resynchronize(opening: Opening, id: Text, w: Writing) returns (r: Outcome<seq<Text>>)
      modifies this
      ensures Call(View(), inbox, outbox, r) ==
        Calls.Resynchronize(configuration, old(View()), old(inbox), old(outbox), opening, id, w)
    {
      if !attached {
        r := Connect(opening, id, w);
        return;
      }
      state := Resynchronizing;
      var failure := SendMessage(id, AskAgain(bridgeInstanceId, gameSessionId, lastBridgeSequence), w);
      if failure.Some? { return Fail(failure.value); }
      seenMessageIds := {};
      r := Handshake(id, false);
    }
  }
}
