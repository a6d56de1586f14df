/** The texts on the wire between the two ends: whatever is in flight is read as the message it stands for. */
module DeliveryTexts {
  import opened Texts
  import opened Json
  import opened JsonReading
  import opened JsonProofs
  import opened JsonRoundTrip
  import opened Timestamps
  import opened Protocol
  import opened ProtocolNumbers
  import opened ProtocolRoundTrip
  import opened Session
  import opened SessionMessages
  import opened SnapshotReader
  import opened Delivery
  import M = Messages
  import R = Requests
  import C = Client
  import S = Session
  import Snapshot
  import W = Vocabulary

  /**
   * What client and server are configured with is valid, they spell an unavailable identity alike, and the game says
   * who it is.
   */
  ghost predicate Proper(w: World) {
    && Matched(w) && Runs(w.server) && R.Configured(w.server.contract, w.config)
    && w.server.contract.name(W.Unavailable) == W.Units("unavailable")
    && M.Presentable(w.server, w.base) && Travels(w.base.mapIdentity) && Travels(w.base.saveIdentity)
  }

  /** Every step that writes a request gives it an id that says something. */
  predicate Signed(e: Step) {
    match e
    case Ask(id, _) => !IsBlankText(id)
    case Reconnect(id, _, _, _) => !IsBlankText(id)
    case _ => true
  }

  // ---------------------------------------------------------------- the invariant

  /** What the client remembers, if anything, it has from this bridge. */
  predicate Acquainted(w: World, sys: System) {
    var k := sys.client;
    && k.instance in {None, Some(w.server.bridgeInstanceId)} && k.session in {None, Some(w.base.gameSessionId)}
    && k.mapIdentity in {None, Some(w.base.mapIdentity)} && k.saveIdentity in {None, Some(w.base.saveIdentity)}
    && (k.last.Some? ==> 1 <= k.last.value <= sys.server.sequence)
  }

  /** A request from someone who knows the bridge or nobody yet, about this game. */
  predicate Spoken(w: World, sys: System, s: C.Sent) {
    && !IsBlankText(s.id) && 1 <= s.sequence <= sys.client.outgoing
    && s.instance in {C.UNNEGOTIATED, w.server.bridgeInstanceId} && s.session in {C.UNNEGOTIATED, w.base.gameSessionId}
    && s.mapIdentity in {C.NOT_NEGOTIATED, w.base.mapIdentity} && s.saveIdentity in {C.NOT_NEGOTIATED, w.base.saveIdentity}
    && match s.ask
       case AskHello => true
       case AskSnapshot(instance, session) => instance == w.server.bridgeInstanceId && session == w.base.gameSessionId
       case AskAgain(instance, session, last) =>
         && instance == Some(w.server.bridgeInstanceId) && session == Some(w.base.gameSessionId)
         && last.Some? && 1 <= last.value <= sys.server.sequence
  }

  /** The messages in flight are the last replies of this connection, each of a shape that can be sent. */
  ghost predicate Logged(w: World, sys: System) {
    var sent := sys.server.sent;
    && |sys.down| <= |sent| && sys.down == MessagesOf(w, sent[|sent| - |sys.down|..])
    && (forall i :: 0 <= i < |sent| ==> Shaped(w.server, sent[i]) && Stable(w, sent[i].state))
    && (forall i :: 0 <= i < |sent| ==> 1 <= sent[i].sequence <= sys.server.sequence)
  }

  ghost predicate TextInv(w: World, sys: System) {
    Acquainted(w, sys) && Logged(w, sys) && forall i :: 0 <= i < |sys.up| ==> Spoken(w, sys, sys.up[i])
  }

  lemma ConnectedText(w: World, c: C.Client, id: Text, sequence: nat, seen: set<Text>)
    requires !IsBlankText(id) && Acquainted(w, System(S.Start(sequence, seen), c, [], [], false))
    ensures TextInv(w, Connected(c, id, sequence, seen))
  {
  }

  lemma AskText(w: World, sys: System, id: Text, ask: C.Ask)
    requires Matched(w) && Inv(w, sys) && TextInv(w, sys) && Enabled(w, sys, Ask(id, ask)) && !IsBlankText(id)
    ensures TextInv(w, Do(w, sys, Ask(id, ask)))
  {
    var t := Do(w, sys, Ask(id, ask));
    assert t.up == sys.up + [C.Composed(sys.client, id, ask)];
    forall i | 0 <= i < |t.up| ensures Spoken(w, t, t.up[i]) {
      if i < |sys.up| { assert Spoken(w, sys, sys.up[i]); }
    }
  }

  lemma TailShrinks(w: World, sent: seq<Reply>, down: seq<C.Message>)
    requires 0 < |down| <= |sent| && down == MessagesOf(w, sent[|sent| - |down|..])
    ensures down[1..] == MessagesOf(w, sent[|sent| - |down[1..]|..])
  {
  }

  lemma ReceiveIs(w: World, sys: System, baseline: bool)
    requires Matched(w) && Inv(w, sys) && Enabled(w, sys, Receive(baseline))
    ensures var m := sys.down[0];
      Do(w, sys, Receive(baseline)) ==
        sys.(client := C.Noted(sys.client, m, baseline), down := sys.down[1..], greeted := true)
      && FromHere(w, m.meta) && 1 <= m.meta.sequence <= sys.server.sequence
  {
    ReceiveKeeps(w, sys, baseline);
  }

  lemma ReceiveText(w: World, sys: System, baseline: bool)
    requires Matched(w) && Inv(w, sys) && TextInv(w, sys) && Enabled(w, sys, Receive(baseline))
    ensures TextInv(w, Do(w, sys, Receive(baseline)))
  {
    ReceiveIs(w, sys, baseline);
    NotedText(w, sys, sys.(client := C.Noted(sys.client, sys.down[0], baseline), down := sys.down[1..], greeted := true),
              baseline);
  }

  lemma NotedText(w: World, sys: System, t: System, baseline: bool)
    requires TextInv(w, sys) && sys.down != []
    requires FromHere(w, sys.down[0].meta) && 1 <= sys.down[0].meta.sequence <= sys.server.sequence
    requires t == sys.(client := C.Noted(sys.client, sys.down[0], baseline), down := sys.down[1..], greeted := true)
    ensures TextInv(w, t)
  {
    TailShrinks(w, sys.server.sent, sys.down);
    forall i | 0 <= i < |t.up| ensures Spoken(w, t, t.up[i]) { assert Spoken(w, sys, sys.up[i]); }
  }

  /** The last replies, and the messages they stand for, grow together. */
  lemma TailGrows(w: World, sent: seq<Reply>, more: seq<Reply>, down: seq<C.Message>)
    requires |down| <= |sent| && down == MessagesOf(w, sent[|sent| - |down|..])
    ensures var all, now := sent + more, down + MessagesOf(w, more); now == MessagesOf(w, all[|all| - |now|..])
  {
    var all, now := sent + more, down + MessagesOf(w, more);
    assert all[|all| - |now|..] == sent[|sent| - |down|..] + more;
  }

  lemma TurnedIs(w: World, sys: System, t: Turn, more: seq<Reply>)
    requires S.Take(w.server, sys.server, t).sent == sys.server.sent + more
    ensures Turned(w, sys, t).down == sys.down + MessagesOf(w, more)
  {
    assert (sys.server.sent + more)[|sys.server.sent|..] == more;
  }

  lemma LoggedAdds(w: World, sys: System, rest: System, t: Turn, st: State)
    requires Matched(w) && Logged(w, sys) && rest.down == sys.down && rest.server == sys.server
    requires t == GoodTurn(t.read, st) && Stable(w, st) && Adds(w.server, sys.server, S.Take(w.server, sys.server, t), t)
    ensures Logged(w, Turned(w, rest, t)) && sys.server.sequence <= Turned(w, rest, t).server.sequence
  {
    var sent, s := sys.server.sent, S.Take(w.server, sys.server, t);
    var more := s.sent[|sent|..];
    assert s.sent == sent + more;
    TurnedIs(w, rest, t, more);
    TailGrows(w, sent, more, sys.down);
    LoggedAll(w, sys, s, t, st);
  }

  lemma LoggedAll(w: World, sys: System, s: Session, t: Turn, st: State)
    requires Logged(w, sys) && t.capture == Some(st) && t.again == Some(st) && Stable(w, st) && Adds(w.server, sys.server, s, t)
    ensures forall i :: 0 <= i < |s.sent| ==>
      Shaped(w.server, s.sent[i]) && Stable(w, s.sent[i].state) && 1 <= s.sent[i].sequence <= s.sequence
  {
    forall i | 0 <= i < |s.sent|
      ensures Shaped(w.server, s.sent[i]) && Stable(w, s.sent[i].state) && 1 <= s.sent[i].sequence <= s.sequence
    {
      if i < |sys.server.sent| { assert s.sent[i] == sys.server.sent[i]; }
    }
  }

  /** A turn of the server, on a connection with as many requests under way or fewer. */
  lemma TurnText(w: World, sys: System, rest: System, t: Turn, st: State)
    requires Matched(w) && TextInv(w, sys) && rest.down == sys.down && rest.server == sys.server && rest.client == sys.client
    requires rest.up == sys.up || (sys.up != [] && rest.up == sys.up[1..])
    requires t == GoodTurn(t.read, st) && Named(t) && Stable(w, st)
    ensures TextInv(w, Turned(w, rest, t))
  {
    TakeAdds(w.server, sys.server, t);
    LoggedAdds(w, sys, rest, t, st);
    var u := Turned(w, rest, t);
    forall i | 0 <= i < |u.up| ensures Spoken(w, u, u.up[i]) {
      if rest.up != sys.up { assert u.up[i] == sys.up[i + 1]; }
      assert Spoken(w, sys, u.up[i]);
    }
  }

  lemma TakeText(w: World, sys: System, st: State)
    requires Matched(w) && TextInv(w, sys) && Enabled(w, sys, Delivery.Take(st))
    ensures TextInv(w, Do(w, sys, Delivery.Take(st)))
  {
    assert Spoken(w, sys, sys.up[0]);
    TurnText(w, sys, sys.(up := sys.up[1..]), GoodTurn(Read.Frame(EnvelopeOf(w, sys.up[0])), st), st);
  }

  lemma StepText(w: World, sys: System, e: Step)
    requires Matched(w) && Inv(w, sys) && TextInv(w, sys) && Enabled(w, sys, e) && Signed(e)
    ensures TextInv(w, Do(w, sys, e))
  {
    match e {
      case Ask(id, ask) => AskText(w, sys, id, ask);
      case Take(st) => TakeText(w, sys, st);
      case Beat(st) => TurnText(w, sys, sys, GoodTurn(Timeout, st), st);
      case Receive(baseline) => ReceiveText(w, sys, baseline);
      case Reconnect(id, sequence, seen, restarted) =>
        ConnectedText(w, if restarted then C.Initial() else sys.client, id, sequence, seen);
    }
  }

  /** What a new client is on a server that has been running. */
  function NewClient(id: Text, sequence: nat, seen: set<Text>): System { Connected(C.Initial(), id, sequence, seen) }

  lemma {:induction false} RunText(w: World, id: Text, sequence: nat, seen: set<Text>, steps: seq<Step>)
    requires Matched(w) && !IsBlankText(id) && forall i :: 0 <= i < |steps| ==> Signed(steps[i])
    requires After(w, NewClient(id, sequence, seen), steps).Some?
    ensures Inv(w, After(w, NewClient(id, sequence, seen), steps).value)
    ensures TextInv(w, After(w, NewClient(id, sequence, seen), steps).value)
  {
    var sys := NewClient(id, sequence, seen);
    if steps == [] {
      ConnectedBegun(w, id, sequence, seen);
      BegunInv(w, sys);
      ConnectedText(w, C.Initial(), id, sequence, seen);
    } else {
      var before, e := steps[..|steps| - 1], steps[|steps| - 1];
      RunText(w, id, sequence, seen, before);
      StepKeeps(w, After(w, sys, before).value, e);
      StepText(w, After(w, sys, before).value, e);
    }
  }

  // ---------------------------------------------------------------- requests

  lemma SpokenDefinite(w: World, sys: System, s: C.Sent)
    requires Proper(w) && Spoken(w, sys, s) && sys.server.sequence <= MAXIMUM_INT64
    ensures R.Definite(w.server.contract, s) && Travels(s.mapIdentity) && Travels(s.saveIdentity)
  {
    R.PlaceholdersLegible(w.server.contract);
  }

  /**
   * From the first connection of a new client on, in every interleaving and over any number of connections: however the
   * client's JSON library writes a request that is in flight, the server reads it as the request that was meant.
   */
  lemma RequestsInFlightArrive(w: World, id: Text, sequence: nat, seen: set<Text>, steps: seq<Step>, i: nat, text: Text)
    requires Proper(w) && !IsBlankText(id) && forall j :: 0 <= j < |steps| ==> Signed(steps[j])
    requires After(w, NewClient(id, sequence, seen), steps).Some? && IsInstant(w.clock) && w.clock.offset == 0
    requires var t := After(w, NewClient(id, sequence, seen), steps).value;
      && i < |t.up| && t.server.sequence <= MAXIMUM_INT64 && t.client.outgoing <= MAXIMUM_INT64
      && Denotes(text, EnvelopeJson(w.server.contract, EnvelopeOf(w, t.up[i])))
    ensures ParseEnvelope(w.server.contract, text) ==
      Some(EnvelopeOf(w, After(w, NewClient(id, sequence, seen), steps).value.up[i]))
  {
    RunText(w, id, sequence, seen, steps);
    var t := After(w, NewClient(id, sequence, seen), steps).value;
    SpokenDefinite(w, t, t.up[i]);
    R.RequestArrives(w.server.contract, w.config, t.up[i], w.clock, text);
  }
}
