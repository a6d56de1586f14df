/** What the client makes of the texts of the server, and the proof that it is what the server meant. */
module DeliveryReplies {
  import opened Texts
  import opened Json
  import opened Timestamps
  import opened Protocol
  import opened ProtocolNumbers
  import opened ProtocolRoundTrip
  import opened Session
  import opened SessionMessages
  import opened SnapshotReader
  import opened Delivery
  import opened DeliveryTexts
  import M = Messages
  import C = Client
  import Snapshot
  import W = Vocabulary

  // ---------------------------------------------------------------- the client's reader

  /** What a snapshot repeats of its envelope. */
  function SnapshotMeta(c: Contract, payload: Json): C.Meta {
    var o := Protocol.Members(Get(c, Protocol.Members(payload), W.Snapshot));
    C.Meta(SnapshotReader.Number(Get(c, o, W.BridgeSequence)), TextOf(Get(c, o, W.BridgeInstanceId)), TextOf(Get(c, o, W.GameSessionId)),
           TextOf(Get(c, o, W.GameId)), TextOf(Get(c, o, W.GameVersion)), TextOf(Get(c, o, W.AdapterVersion)),
           TextOf(Get(c, o, W.Platform)), TextOf(Get(c, o, W.Architecture)), ReadIdentity(c, Get(c, o, W.MapIdentity)),
           ReadIdentity(c, Get(c, o, W.SaveIdentity)))
  }

  /** The payload of an envelope, by its message type. */
  function ReadContent(c: Contract, e: Envelope): C.Content {
    var o := Protocol.Members(e.payload);
    match e.messageType
    case BridgeHello => C.Welcome
    case AuthenticationFailure => C.Refusal
    case Heartbeat => C.Beat
    case CapabilityManifest => C.Manifest(TextsOf(SnapshotReader.Items(Get(c, o, W.ObservationSurfaces))))
    case FullSnapshotResponse => C.SnapshotOf(SnapshotMeta(c, e.payload), e.payload)
    case ProtocolError => C.Failure(TextOf(Get(c, o, W.Code)))
    case _ => C.Request
  }

  /** An envelope as `_receive` looks at it. */
  function ReadMessage(c: Contract, e: Envelope): C.Message {
    C.Message(
      e.messageId, e.correlationId,
      C.Meta(e.bridgeSequence, e.bridgeInstanceId, e.gameSessionId, e.gameId, e.gameVersion, e.adapterVersion, e.platform,
             e.architecture, e.mapIdentity, e.saveIdentity),
      ReadContent(c, e))
  }

  // ---------------------------------------------------------------- snapshots

  lemma NumberPrinted(d: Doubles, v: Json)
    ensures SnapshotReader.Number(Printed(d, v)) == SnapshotReader.Number(v) && TextOf(Printed(d, v)) == TextOf(v)
    ensures OptionalText(Printed(d, v)) == OptionalText(v)
  {
    PrintedScalar(d, v);
  }

  lemma IdentityPrinted(c: Contract, d: Doubles, v: Json)
    ensures ReadIdentity(c, Printed(d, v)) == ReadIdentity(c, v)
  {
    PrintedObject(d, v);
    var o := Protocol.Members(v);
    PrintedGet(c, d, o);
    NumberPrinted(d, Get(c, o, W.Status));
    NumberPrinted(d, Get(c, o, W.Value));
    NumberPrinted(d, Get(c, o, W.Label));
    NumberPrinted(d, Get(c, o, W.Detail));
  }

  /** The printing of numbers does not touch what a snapshot repeats of its envelope. */
  lemma MetaPrinted(c: Contract, d: Doubles, payload: Json)
    ensures SnapshotMeta(c, Printed(d, payload)) == SnapshotMeta(c, payload)
  {
    var v := Get(c, Protocol.Members(payload), W.Snapshot);
    PrintedObject(d, payload);
    PrintedGet(c, d, Protocol.Members(payload));
    PrintedObject(d, v);
    var o := Protocol.Members(v);
    PrintedGet(c, d, o);
    NumberPrinted(d, Get(c, o, W.BridgeSequence));
    NumberPrinted(d, Get(c, o, W.BridgeInstanceId));
    NumberPrinted(d, Get(c, o, W.GameSessionId));
    NumberPrinted(d, Get(c, o, W.GameId));
    NumberPrinted(d, Get(c, o, W.GameVersion));
    NumberPrinted(d, Get(c, o, W.AdapterVersion));
    NumberPrinted(d, Get(c, o, W.Platform));
    NumberPrinted(d, Get(c, o, W.Architecture));
    IdentityPrinted(c, d, Get(c, o, W.MapIdentity));
    IdentityPrinted(c, d, Get(c, o, W.SaveIdentity));
  }

  lemma PayloadOfSnapshot(server: Server, r: Reply, message: Text, captured: Timestamp)
    requires Distinct(server.contract) && r.kind.FullSnapshotResponse?
    ensures M.PayloadOf(server, r, message, captured) == M.SnapshotPayload(server, r, captured)
  {
  }

  /** The payload of a snapshot reply is the one that is built from its state. */
  lemma PayloadIs(server: Server, r: Reply, message: Text, captured: Timestamp)
    requires Distinct(server.contract) && r.kind.FullSnapshotResponse? && Snapshot.Buildable(server.contract, r.state)
    ensures var built := Snapshot.SnapshotResponsePayload(server.contract, M.ResponseOf(server, r, captured));
      built.Some? && M.PayloadOf(server, r, message, captured) == built.value
  {
    PayloadOfSnapshot(server, r, message, captured);
  }

  /** The snapshot of a capture repeats its envelope. */
  lemma MetaRead(c: Contract, r: Snapshot.Response)
    requires Distinct(c) && Snapshot.SnapshotResponsePayload(c, r).Some? && IsInstant(r.captured) && r.captured.offset == 0
    ensures var st := r.state;
      SnapshotMeta(c, Snapshot.SnapshotResponsePayload(c, r).value) ==
        C.Meta(r.sequence, r.bridgeInstanceId, st.gameSessionId, c.gameId, st.gameVersion, c.adapterVersion, st.platform,
               st.architecture, st.mapIdentity, st.saveIdentity)
  {
    PayloadTells(c, r);
  }

  // ---------------------------------------------------------------- replies

  /** What the client holds as the body of a snapshot is its payload, with the numbers as they are written. */
  ghost predicate Carries(w: World, d: Doubles, times: Reply -> Timestamp) {
    Distinct(w.server.contract) &&
    forall r: Reply {:trigger w.body(r)} :: r.kind.FullSnapshotResponse? ==>
      w.body(r) == Printed(d, M.PayloadOf(w.server, r, [], times(r)))
  }

  lemma ContentRead(w: World, d: Doubles, times: Reply -> Timestamp, r: Reply, message: Text, now: Timestamp)
    requires Runs(w.server) && Carries(w, d, times) && Shaped(w.server, r) && IsInstant(times(r)) && times(r).offset == 0
    ensures var c, e := w.server.contract, M.EnvelopeFor(w.server, r, message, times(r), now);
      r.kind.FullSnapshotResponse? ==> ReadContent(c, PrintedEnvelope(d, e)) == ContentOf(w, r)
    ensures var c, e := w.server.contract, M.EnvelopeFor(w.server, r, message, times(r), now);
      !r.kind.FullSnapshotResponse? ==> ReadContent(c, e) == ContentOf(w, r)
  {
    var c := w.server.contract;
    if r.kind.FullSnapshotResponse? {
      SnapshotContentRead(w, d, times, r, message, now);
    } else if r.kind.CapabilityManifest? {
      M.ManifestValid(c);
      StringsRead(c.surfaces);
    } else if r.kind.ProtocolError? {
      M.ErrorValid(c, M.CodeText(r.body), message);
    }
  }

  lemma CarriedBody(w: World, d: Doubles, times: Reply -> Timestamp, r: Reply)
    requires Carries(w, d, times) && r.kind.FullSnapshotResponse?
    ensures w.body(r) == Printed(d, M.PayloadOf(w.server, r, [], times(r)))
  {
  }

  lemma MetaArrives(w: World, d: Doubles, r: Reply, message: Text, captured: Timestamp)
    requires Distinct(w.server.contract) && Shaped(w.server, r) && r.kind.FullSnapshotResponse?
    requires IsInstant(captured) && captured.offset == 0
    ensures SnapshotMeta(w.server.contract, Printed(d, M.PayloadOf(w.server, r, message, captured))) ==
      MetaOf(w, r.state, r.sequence)
    ensures r.body == Promise(r.sequence)
  {
    var c, payload := w.server.contract, M.PayloadOf(w.server, r, message, captured);
    PayloadIs(w.server, r, message, captured);
    MetaPrinted(c, d, payload);
    MetaRead(c, M.ResponseOf(w.server, r, captured));
  }

  lemma SnapshotContentRead(w: World, d: Doubles, times: Reply -> Timestamp, r: Reply, message: Text, now: Timestamp)
    requires Runs(w.server) && Carries(w, d, times) && Shaped(w.server, r) && IsInstant(times(r)) && times(r).offset == 0
    requires r.kind.FullSnapshotResponse?
    ensures var c, e := w.server.contract, M.EnvelopeFor(w.server, r, message, times(r), now);
      ReadContent(c, PrintedEnvelope(d, e)) == ContentOf(w, r)
  {
    PayloadIs(w.server, r, message, times(r));
    PayloadIs(w.server, r, [], times(r));
    CarriedBody(w, d, times, r);
    MetaArrives(w, d, r, message, times(r));
  }

  /** Every reply of the server is read by the client as the message it was meant to be. */
  lemma ReplyRead(w: World, d: Doubles, times: Reply -> Timestamp, r: Reply, message: Text, now: Timestamp)
    requires Runs(w.server) && ValidDoubles(d) && Carries(w, d, times) && Shaped(w.server, r)
    requires Clean(d, w.server, r.state, times(r)) && 1 <= r.sequence <= MAXIMUM_INT64 && !IsBlankText(message)
    requires IsInstant(now) && now.offset == 0 && IsInstant(times(r)) && times(r).offset == 0
    ensures var c, e := w.server.contract, M.EnvelopeFor(w.server, r, message, times(r), now);
      && SerializeEnvelope(c, d, e).Some? && ParseEnvelope(c, SerializeEnvelope(c, d, e).value).Some?
      && ReadMessage(c, ParseEnvelope(c, SerializeEnvelope(c, d, e).value).value) == MessageOf(w, r)
  {
    ReplyExpressible(d, w.server, r, message, times(r));
    M.ReplyArrives(d, w.server, r, message, times(r), now);
    ContentRead(w, d, times, r, message, now);
  }

  /**
   * From the first connection of a new client on, in every interleaving and over any number of connections: every
   * message in flight stands for a reply of this connection, and the text of that reply is read by the client as
   * exactly that message.
   */
  lemma RepliesInFlightArrive(w: World, d: Doubles, times: Reply -> Timestamp, id: Text, sequence: nat, seen: set<Text>,
                              steps: seq<Step>, i: nat, message: Text, now: Timestamp)
    requires Proper(w) && ValidDoubles(d) && Carries(w, d, times)
    requires !IsBlankText(id) && forall j :: 0 <= j < |steps| ==> Signed(steps[j])
    requires After(w, NewClient(id, sequence, seen), steps).Some?
    requires var t := After(w, NewClient(id, sequence, seen), steps).value;
      && i < |t.down| && t.server.sequence <= MAXIMUM_INT64
      && forall k :: 0 <= k < |t.server.sent| ==> Clean(d, w.server, t.server.sent[k].state, times(t.server.sent[k]))
    requires !IsBlankText(message) && IsInstant(now) && now.offset == 0
    requires forall r :: IsInstant(times(r)) && times(r).offset == 0
    ensures var t := After(w, NewClient(id, sequence, seen), steps).value;
      && |t.down| <= |t.server.sent|
      && var r := t.server.sent[|t.server.sent| - |t.down| + i];
         var c, e := w.server.contract, M.EnvelopeFor(w.server, r, message, times(r), now);
         && SerializeEnvelope(c, d, e).Some? && ParseEnvelope(c, SerializeEnvelope(c, d, e).value).Some?
         && ReadMessage(c, ParseEnvelope(c, SerializeEnvelope(c, d, e).value).value) == t.down[i]
  {
    RunText(w, id, sequence, seen, steps);
    var t := After(w, NewClient(id, sequence, seen), steps).value;
    var k := |t.server.sent| - |t.down| + i;
    assert t.server.sent[|t.server.sent| - |t.down|..][i] == t.server.sent[k];
    ReplyRead(w, d, times, t.server.sent[k], message, now);
  }

  // ---------------------------------------------------------------- snapshot calls

  /** The answer to a snapshot request, of a state captured for it. */
  function SnapshotReply(n: nat, id: Text, st: State): Reply {
    Reply(FullSnapshotResponse, Some(id), n, Promise(n), st)
  }

  /**
   * A snapshot call on a quiet connection, with any number of heartbeats before it and while it travels, returns a
   * payload that tells exactly the state captured for it: the payload that was built, with its numbers as written.
   */
  lemma SnapshotCallTells(w: World, d: Doubles, times: Reply -> Timestamp, sys: System, id: Text, states: seq<State>, st: State)
    requires Matched(w) && Carries(w, d, times) && Quiet(w, sys) && sys.up == [] && FreshId(sys, id)
    requires Stable(w, st) && forall i :: 0 <= i < |states| ==> Stable(w, states[i])
    requires forall r :: IsInstant(times(r)) && times(r).offset == 0
    ensures var ask := Ask(id, C.AskSnapshot(w.server.bridgeInstanceId, w.base.gameSessionId));
      Enabled(w, sys, ask) && Quiet(w, Do(w, sys, ask))
      && var asked := Beats(w, Do(w, sys, ask), states);
         Enabled(w, asked, Delivery.Take(st))
         && var t := Do(w, asked, Delivery.Take(st));
            Returned(w, d, times, C.Await(w.config.expected, t.client, Reads(t.down), id).outcome,
                     SnapshotReply(t.server.sequence, id, st))
  {
    SnapshotSucceeds(w, sys, id, states, st);
    var ask := Ask(id, C.AskSnapshot(w.server.bridgeInstanceId, w.base.gameSessionId));
    var t := Do(w, Beats(w, Do(w, sys, ask), states), Delivery.Take(st));
    var r := SnapshotReply(t.server.sequence, id, st);
    CarriedBody(w, d, times, r);
    PayloadOfTells(w.server, r, times(r));
  }

  /** The call has returned the payload of reply `r`, and that payload tells the captured state. */
  ghost predicate Returned(w: World, d: Doubles, times: Reply -> Timestamp, outcome: C.Outcome<C.Message>, r: Reply)
    requires Distinct(w.server.contract)
  {
    var payload := M.PayloadOf(w.server, r, [], times(r));
    && outcome.Ok? && outcome.value.content.SnapshotOf? && outcome.value.content.body == Printed(d, payload)
    && Tells(w.server.contract, M.ResponseOf(w.server, r, times(r)), ReadPayload(w.server.contract, payload))
  }

  lemma PayloadOfTells(server: Server, r: Reply, captured: Timestamp)
    requires Distinct(server.contract) && r.kind.FullSnapshotResponse? && Snapshot.Buildable(server.contract, r.state)
    requires IsInstant(captured) && captured.offset == 0
    ensures Tells(server.contract, M.ResponseOf(server, r, captured),
                  ReadPayload(server.contract, M.PayloadOf(server, r, [], captured)))
  {
    PayloadIs(server, r, [], captured);
    PayloadTells(server.contract, M.ResponseOf(server, r, captured));
  }
}
