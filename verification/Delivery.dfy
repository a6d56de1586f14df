/** Both ends of a connection and of those after it, with the messages in flight between them, in every interleaving. */
module Delivery {
  import opened Texts
  import opened Json
  import opened Protocol
  import opened Session
  import JsonRoundTrip
  import Snapshot
  import S = Session
  import C = Client
  import R = Requests
  import W = Vocabulary
  import Timestamps

  /**
   * The server, the configuration of the client, a state whose identities every capture repeats, and what the client
   * reads as the payload of a snapshot.
   */
  datatype World = World(
    server: Server, config: R.Config, base: State, clock: Timestamps.Timestamp, body: Reply -> Json)

  /** The state has the identities of the game, and a snapshot can be built from it. */
  predicate Stable(w: World, st: State) {
    && Snapshot.Buildable(w.server.contract, st)
    && st.gameSessionId == w.base.gameSessionId && st.mapIdentity == w.base.mapIdentity
    && st.saveIdentity == w.base.saveIdentity
    && st.gameVersion == w.base.gameVersion && st.platform == w.base.platform && st.architecture == w.base.architecture
  }

  /** Client and server are configured with the same token, and for the same adapter, game, version and machine. */
  ghost predicate Matched(w: World) {
    && Distinct(w.server.contract)
    && w.config.token == w.server.token
    && w.config.expected == C.Expected(w.server.contract.adapterVersion, w.server.contract.gameId, w.base.gameVersion,
                                       w.base.platform, w.base.architecture)
  }

  // ---------------------------------------------------------------- the wire

  lemma IdsDiffer(w: World, m: nat, n: nat)
    requires IdText(w.server, m) == IdText(w.server, n)
    ensures m == n
  {
    var k := |w.server.bridgeInstanceId| + 1;
    assert IdText(w.server, m)[k..] == Decimal(m) && IdText(w.server, n)[k..] == Decimal(n);
    JsonRoundTrip.DecimalDigits(m);
    JsonRoundTrip.DecimalDigits(n);
  }

  function MetaOf(w: World, st: State, sequence: int): C.Meta {
    C.Meta(sequence, w.server.bridgeInstanceId, st.gameSessionId, w.server.contract.gameId, st.gameVersion,
           w.server.contract.adapterVersion, st.platform, st.architecture, st.mapIdentity, st.saveIdentity)
  }

  function ContentOf(w: World, r: Reply): C.Content {
    match r.kind
    case BridgeHello => C.Welcome
    case AuthenticationFailure => C.Refusal
    case Heartbeat => C.Beat
    case CapabilityManifest => C.Manifest(w.server.contract.surfaces)
    case FullSnapshotResponse => C.SnapshotOf(MetaOf(w, r.state, if r.body.Promise? then r.body.sequence else 0), w.body(r))
    case ProtocolError => C.Failure(if r.body.Code? then W.Units(r.body.name) else [])
    case _ => C.Request
  }

  /** A reply of the server as the client parses it. */
  function MessageOf(w: World, r: Reply): C.Message {
    C.Message(IdText(w.server, r.sequence), r.correlation, MetaOf(w, r.state, r.sequence), ContentOf(w, r))
  }

  function MessagesOf(w: World, rs: seq<Reply>): seq<C.Message> { seq(|rs|, i requires 0 <= i < |rs| => MessageOf(w, rs[i])) }

  /** A request of the client as the server parses it. */
  ghost function EnvelopeOf(w: World, s: C.Sent): Envelope
    requires Distinct(w.server.contract)
  {
    R.EnvelopeOf(w.server.contract, w.config, s, w.clock)
  }

  lemma HelloReads(w: World, s: C.Sent)
    requires Matched(w) && s.ask.AskHello?
    ensures Authentic(w.server, EnvelopeOf(w, s))
  {
    R.HelloReads(w.server.contract, w.config);
  }

  lemma SnapshotRequestReads(w: World, s: C.Sent, st: State)
    requires Distinct(w.server.contract) && s.ask == C.AskSnapshot(w.server.bridgeInstanceId, st.gameSessionId)
    ensures ExpectsThis(w.server, EnvelopeOf(w, s), st)
  {
    R.SnapshotReads(w.server.contract, w.config, w.server.bridgeInstanceId, st.gameSessionId);
  }

  // ---------------------------------------------------------------- the system

  /** `greeted`: the client has taken in the hello of this connection. */
  datatype System = System(server: Session, client: C.Client, up: seq<C.Sent>, down: seq<C.Message>, greeted: bool)

  datatype Step =
    | Ask(id: Text, ask: C.Ask)     // the client writes a request
    | Take(state: State)            // the server reads the next request and answers it
    | Beat(state: State)            // the server finds nothing to read and sends a heartbeat
    | Receive(baseline: bool)       // the client takes the next message in
    /**
     * The connection is lost with all that is in flight, and a client writes the hello of the next: the same, or
     * after a restart a new one. By then the server has spent numbers up to `sequence`, on whomever, and noted the
     * ids `seen`.
     */
    | Reconnect(id: Text, sequence: nat, seen: set<Text>, restarted: bool)

  function GoodTurn(read: Read, st: State): Turn { Turn(true, read, Some(st), Some(st), true, true) }

  /** Ids are random on the client's side: a new one has not been used on this connection. */
  predicate FreshId(sys: System, id: Text) {
    id !in sys.server.seen && forall i :: 0 <= i < |sys.up| ==> sys.up[i].id != id
  }

  /** What a connected client asks: for a snapshot of the session it knows, or for a new start after its last message. */
  predicate Honest(c: C.Client, ask: C.Ask) {
    match ask
    case AskHello => false
    case AskSnapshot(instance, session) => c.instance == Some(instance) && c.session == Some(session)
    case AskAgain(instance, session, last) => c.instance == instance && c.session == session && c.last == last
  }

  predicate Enabled(w: World, sys: System, e: Step) {
    match e
    case Ask(id, ask) => sys.greeted && FreshId(sys, id) && Honest(sys.client, ask)
    case Take(st) => sys.up != [] && Stable(w, st)
    case Beat(st) => sys.server.phase.Serving? && Stable(w, st)
    case Receive(baseline) => sys.down != [] && (sys.greeted || baseline)
    case Reconnect(_, sequence, _, _) => sequence >= sys.server.sequence
  }

  /** A client that has opened a connection and written its hello; the server is still to read it. */
  function Connected(c: C.Client, id: Text, sequence: nat, seen: set<Text>): System {
    var client := c.(open := true);
    System(S.Start(sequence, seen), C.Counted(client), [C.Composed(client, id, C.AskHello)], [], false)
  }

  /** The server's turn, with what it sends put on the wire. */
  ghost function Turned(w: World, sys: System, t: Turn): System {
    var s := S.Take(w.server, sys.server, t);
    sys.(server := s,
         down := sys.down + (if |sys.server.sent| <= |s.sent| then MessagesOf(w, s.sent[|sys.server.sent|..]) else []))
  }

  ghost function Do(w: World, sys: System, e: Step): System
    requires Distinct(w.server.contract) && Enabled(w, sys, e)
  {
    match e
    case Ask(id, ask) => sys.(client := C.Counted(sys.client), up := C.Outbox(sys.client, sys.up, id, ask, C.Written))
    case Take(st) => Turned(w, sys.(up := sys.up[1..]), GoodTurn(Read.Frame(EnvelopeOf(w, sys.up[0])), st))
    case Beat(st) => Turned(w, sys, GoodTurn(Timeout, st))
    case Receive(baseline) =>
      var r := C.Receive(w.config.expected, sys.client, [C.Arrived(sys.down[0])], baseline);
      sys.(client := r.client, down := sys.down[1..], greeted := true)
    case Reconnect(id, sequence, seen, restarted) =>
      Connected(if restarted then C.Initial() else sys.client, id, sequence, seen)
  }

  // ---------------------------------------------------------------- the invariant

  /** Messages in flight: the last numbers of the server, in order, from the right origin, and none of them an error. */
  predicate Downstream(w: World, sys: System) {
    && |sys.down| <= sys.server.sequence
    && forall i :: 0 <= i < |sys.down| ==>
         var n := sys.server.sequence - |sys.down| + 1 + i;
         && sys.down[i].id == IdText(w.server, n)
         && sys.down[i].meta.sequence == n && FromHere(w, sys.down[i].meta)
         && !sys.down[i].content.Failure? && !sys.down[i].content.Refusal?
  }

  predicate FromHere(w: World, m: C.Meta) {
    && C.Compatible(w.config.expected, m) && m.instance == w.server.bridgeInstanceId && m.session == w.base.gameSessionId
    && m.mapIdentity == w.base.mapIdentity && m.saveIdentity == w.base.saveIdentity
  }

  /** Requests in flight: the next numbers the server expects, in order, with new ids and the identities of the game. */
  predicate Upstream(w: World, sys: System) {
    && (forall i :: 0 <= i < |sys.up| ==>
         && sys.up[i].sequence == sys.server.last + 1 + i && sys.up[i].id !in sys.server.seen
         && Acceptable(w, sys.up[i]))
    && (forall i, j :: 0 <= i < j < |sys.up| ==> sys.up[i].id != sys.up[j].id)
  }

  predicate Acceptable(w: World, s: C.Sent) {
    && s.instance == w.server.bridgeInstanceId && s.session == w.base.gameSessionId
    && s.mapIdentity == w.base.mapIdentity && s.saveIdentity == w.base.saveIdentity
    && (s.ask.AskAgain? || s.ask == C.AskSnapshot(w.server.bridgeInstanceId, w.base.gameSessionId))
  }

  /** The ids still to come are new to the client. */
  ghost predicate Unseen(w: World, sys: System) {
    forall n: nat :: n > sys.server.sequence - |sys.down| ==> IdText(w.server, n) !in sys.client.seen
  }

  predicate Knows(w: World, c: C.Client) {
    && c.instance == Some(w.server.bridgeInstanceId) && c.session == Some(w.base.gameSessionId)
    && c.mapIdentity == Some(w.base.mapIdentity) && c.saveIdentity == Some(w.base.saveIdentity)
  }

  ghost predicate Inv(w: World, sys: System) {
    && sys.client.open && Downstream(w, sys) && Unseen(w, sys)
    && match sys.server.phase
       case Over => false
       case Greeting =>
         && !sys.greeted && sys.down == [] && |sys.up| == 1 && sys.up[0].ask.AskHello?
         && sys.client.outgoing == sys.up[0].sequence
       case Serving =>
         && Upstream(w, sys) && sys.client.outgoing == sys.server.last + |sys.up|
         && if sys.greeted then Knows(w, sys.client) && sys.client.last == Some(sys.server.sequence - |sys.down|)
            else sys.down != [] && sys.down[0].content.Welcome?
  }

  /** A connection on which the client has just written its hello. */
  ghost predicate Begun(w: World, sys: System) {
    && sys.server.phase.Greeting? && !sys.greeted && sys.down == []
    && |sys.up| == 1 && sys.up[0].ask.AskHello? && sys.client.open && sys.client.outgoing == sys.up[0].sequence
    && forall n: nat :: n > sys.server.sequence ==> IdText(w.server, n) !in sys.client.seen
  }

  /** The first connection of a new client begins so, whatever the server has done before. */
  lemma ConnectedBegun(w: World, id: Text, sequence: nat, seen: set<Text>)
    ensures Begun(w, Connected(C.Initial(), id, sequence, seen))
  {
  }

  /**
   * And so does every later one: the client keeps the ids it has met, but the server's counter never falls, so that the
   * ids to come are new to the client.
   */
  lemma ReconnectedBegun(w: World, sys: System, e: Step)
    requires Matched(w) && Inv(w, sys) && e.Reconnect? && Enabled(w, sys, e)
    ensures Begun(w, Do(w, sys, e))
  {
  }

  lemma BegunInv(w: World, sys: System)
    requires Begun(w, sys)
    ensures Inv(w, sys)
  {
  }

  lemma AskKeeps(w: World, sys: System, id: Text, ask: C.Ask)
    requires Matched(w) && Inv(w, sys) && Enabled(w, sys, Ask(id, ask))
    ensures Inv(w, Do(w, sys, Ask(id, ask)))
  {
  }

  lemma ReceiveKeeps(w: World, sys: System, baseline: bool)
    requires Matched(w) && Inv(w, sys) && Enabled(w, sys, Receive(baseline))
    ensures C.Verdict(w.config.expected, sys.client, sys.down[0], baseline) == None
    ensures Inv(w, Do(w, sys, Receive(baseline)))
  {
    var n := sys.server.sequence - |sys.down| + 1;
    assert sys.down[0].id == IdText(w.server, n);
    var t := Do(w, sys, Receive(baseline));
    forall m: nat | m > n ensures IdText(w.server, m) !in t.client.seen {
      if IdText(w.server, m) == IdText(w.server, n) { IdsDiffer(w, m, n); }
    }
  }

  // ---------------------------------------------------------------- the server's turns

  /** Replies that follow the counter, each from a stable state and none an error. */
  predicate Following(w: World, s: Session, rs: seq<Reply>) {
    forall i :: 0 <= i < |rs| ==>
      rs[i].sequence == s.sequence + 1 + i && Stable(w, rs[i].state) && !Final(rs[i].kind)
  }

  lemma StableMessage(w: World, r: Reply)
    requires Matched(w) && Stable(w, r.state) && !Final(r.kind)
    ensures var m := MessageOf(w, r);
      && m.id == IdText(w.server, r.sequence) && m.meta.sequence == r.sequence && FromHere(w, m.meta)
      && !m.content.Failure? && !m.content.Refusal?
  {
  }

  lemma DownGrows(w: World, sys: System, u: System, rs: seq<Reply>)
    requires Matched(w) && Downstream(w, sys) && Following(w, sys.server, rs)
    requires u.down == sys.down + MessagesOf(w, rs) && u.server.sequence == sys.server.sequence + |rs|
    ensures Downstream(w, u)
  {
    forall i | 0 <= i < |u.down| ensures
      var n := u.server.sequence - |u.down| + 1 + i;
      && u.down[i].id == IdText(w.server, n) && u.down[i].meta.sequence == n && FromHere(w, u.down[i].meta)
      && !u.down[i].content.Failure? && !u.down[i].content.Refusal?
    {
      if i >= |sys.down| {
        StableMessage(w, rs[i - |sys.down|]);
        assert u.down[i] == MessageOf(w, rs[i - |sys.down|]);
      }
    }
  }

  lemma TurnedDown(w: World, sys: System, t: Turn, rs: seq<Reply>)
    requires Matched(w) && Downstream(w, sys) && Following(w, sys.server, rs)
    requires S.Take(w.server, sys.server, t).sent == sys.server.sent + rs
    requires S.Take(w.server, sys.server, t).sequence == sys.server.sequence + |rs|
    ensures Turned(w, sys, t).down == sys.down + MessagesOf(w, rs)
    ensures Downstream(w, Turned(w, sys, t))
    ensures Unseen(w, sys) ==> Unseen(w, Turned(w, sys, t))
  {
    assert (sys.server.sent + rs)[|sys.server.sent|..] == rs;
    DownGrows(w, sys, Turned(w, sys, t), rs);
  }

  lemma BeatKeeps(w: World, sys: System, st: State)
    requires Matched(w) && Inv(w, sys) && Enabled(w, sys, Beat(st))
    ensures Inv(w, Do(w, sys, Beat(st)))
    ensures Do(w, sys, Beat(st)).down ==
      sys.down + [MessageOf(w, Reply(Heartbeat, None, sys.server.sequence + 1, Bare, st))]
  {
    var rs := [Reply(Heartbeat, None, sys.server.sequence + 1, Bare, st)];
    TurnedDown(w, sys, GoodTurn(Timeout, st), rs);
    assert MessagesOf(w, rs) == [MessageOf(w, rs[0])];
  }

  lemma TakeHello(w: World, sys: System, st: State)
    requires Matched(w) && Inv(w, sys) && sys.server.phase.Greeting? && Stable(w, st)
    ensures Inv(w, Do(w, sys, Take(st)))
  {
    var hello := EnvelopeOf(w, sys.up[0]);
    HelloReads(w, sys.up[0]);
    var n := sys.server.sequence;
    var rs := [Reply(BridgeHello, Some(sys.up[0].id), n + 1, Bare, st), Reply(CapabilityManifest, None, n + 2, Bare, st)];
    var rest := sys.(up := sys.up[1..]);
    var t := GoodTurn(Read.Frame(hello), st);
    assert S.Take(w.server, rest.server, t).sent == rest.server.sent + rs;
    TurnedDown(w, rest, t, rs);
    assert MessagesOf(w, rs)[0].content.Welcome?;
  }

  /** A request in sequence is answered: a snapshot for a snapshot request, a hello and a manifest for a new start. */
  function Answers(s: Session, r: C.Sent, st: State): seq<Reply> {
    if r.ask.AskSnapshot? then [Reply(FullSnapshotResponse, Some(r.id), s.sequence + 1, Promise(s.sequence + 1), st)]
    else [Reply(BridgeHello, Some(r.id), s.sequence + 1, Bare, st), Reply(CapabilityManifest, None, s.sequence + 2, Bare, st)]
  }

  lemma RequestAnswered(w: World, s: Session, r: C.Sent, st: State)
    requires Matched(w) && s.phase.Serving? && Acceptable(w, r) && Stable(w, st)
    requires r.id !in s.seen && r.sequence == s.last + 1
    ensures var e := EnvelopeOf(w, r);
      S.Serve(w.server, s, GoodTurn(Read.Frame(e), st)) ==
        s.(seen := s.seen + {r.id}, last := r.sequence, processed := s.processed + [e],
           sequence := s.sequence + |Answers(s, r, st)|, sent := s.sent + Answers(s, r, st))
  {
    var e := EnvelopeOf(w, r);
    assert UpToDate(e, st);
    if r.ask.AskSnapshot? {
      SnapshotRequestReads(w, r, st);
    } else {
      var hello := Reply(BridgeHello, Some(r.id), s.sequence + 1, Bare, st);
      var manifest := Reply(CapabilityManifest, None, s.sequence + 2, Bare, st);
      assert s.sent + [hello] + [manifest] == s.sent + [hello, manifest];
    }
  }

  lemma TakeRequest(w: World, sys: System, st: State)
    requires Matched(w) && Inv(w, sys) && sys.server.phase.Serving? && sys.up != [] && Stable(w, st)
    ensures Inv(w, Do(w, sys, Take(st)))
    ensures Do(w, sys, Take(st)).down == sys.down + MessagesOf(w, Answers(sys.server, sys.up[0], st))
  {
    var r := sys.up[0];
    var rest := sys.(up := sys.up[1..]);
    RequestAnswered(w, sys.server, r, st);
    TurnedDown(w, rest, GoodTurn(Read.Frame(EnvelopeOf(w, r)), st), Answers(sys.server, r, st));
    var t := Do(w, sys, Take(st));
    UpstreamShift(w, sys, t);
    ServedInv(w, sys, t, |Answers(sys.server, r, st)|);
  }

  /** One request less under way, and `n` more messages. */
  lemma ServedInv(w: World, sys: System, t: System, n: nat)
    requires Inv(w, sys) && sys.server.phase.Serving? && sys.up != [] && t.server.phase.Serving?
    requires Upstream(w, t) && Downstream(w, t) && Unseen(w, t)
    requires t.client == sys.client && t.greeted == sys.greeted && t.up == sys.up[1..]
    requires t.server.last == sys.up[0].sequence && t.server.sequence == sys.server.sequence + n
    requires sys.down <= t.down && |t.down| == |sys.down| + n
    ensures Inv(w, t)
  {
  }

  lemma UpstreamShift(w: World, sys: System, t: System)
    requires Upstream(w, sys) && sys.up != [] && t.up == sys.up[1..]
    requires t.server.last == sys.up[0].sequence && t.server.seen == sys.server.seen + {sys.up[0].id}
    ensures Upstream(w, t)
  {
    forall i | 0 <= i < |t.up| ensures t.up[i] == sys.up[i + 1] {}
  }

  lemma StepKeeps(w: World, sys: System, e: Step)
    requires Matched(w) && Inv(w, sys) && Enabled(w, sys, e)
    ensures Inv(w, Do(w, sys, e))
  {
    match e {
      case Ask(id, ask) => AskKeeps(w, sys, id, ask);
      case Take(st) => if sys.server.phase.Greeting? { TakeHello(w, sys, st); } else { TakeRequest(w, sys, st); }
      case Beat(st) => BeatKeeps(w, sys, st);
      case Receive(baseline) => ReceiveKeeps(w, sys, baseline);
      case Reconnect(_, _, _, _) => ReconnectedBegun(w, sys, e); BegunInv(w, Do(w, sys, e));
    }
  }

  // ---------------------------------------------------------------- runs

  ghost function After(w: World, sys: System, steps: seq<Step>): Option<System>
    requires Distinct(w.server.contract)
  {
    if steps == [] then Some(sys)
    else
      var before := After(w, sys, steps[..|steps| - 1]);
      var e := steps[|steps| - 1];
      if before.Some? && Enabled(w, before.value, e) then Some(Do(w, before.value, e)) else None
  }

  lemma {:induction false} RunInv(w: World, sys: System, steps: seq<Step>)
    requires Matched(w) && Inv(w, sys) && After(w, sys, steps).Some?
    ensures Inv(w, After(w, sys, steps).value)
  {
    if steps != [] {
      RunInv(w, sys, steps[..|steps| - 1]);
      StepKeeps(w, After(w, sys, steps[..|steps| - 1]).value, steps[|steps| - 1]);
    }
  }

  /**
   * From the first connection of a new client on, on an honest link, in every interleaving of requests, answers,
   * heartbeats, receives and new connections: what the server has counted is what the client has accepted plus what
   * is in flight, and the other way round; the server has not ended the connection, no error is in flight, and
   * whatever the client receives next it accepts.
   */
  lemma DeliveryInvariant(w: World, id: Text, sequence: nat, seen: set<Text>, steps: seq<Step>)
    requires Matched(w) && After(w, Connected(C.Initial(), id, sequence, seen), steps).Some?
    ensures var t := After(w, Connected(C.Initial(), id, sequence, seen), steps).value;
      && !t.server.phase.Over?
      && (t.greeted ==>
            t.client.last == Some(t.server.sequence - |t.down|) && t.client.outgoing == t.server.last + |t.up|)
      && (forall i :: 0 <= i < |t.down| ==> !t.down[i].content.Failure? && !t.down[i].content.Refusal?)
      && (t.down != [] ==> C.Verdict(w.config.expected, t.client, t.down[0], true) == None)
      && (t.down != [] && t.greeted ==> C.Verdict(w.config.expected, t.client, t.down[0], false) == None)
  {
    var sys := Connected(C.Initial(), id, sequence, seen);
    ConnectedBegun(w, id, sequence, seen);
    BegunInv(w, sys);
    RunInv(w, sys, steps);
    var t := After(w, sys, steps).value;
    if t.down != [] {
      ReceiveKeeps(w, t, true);
      if t.greeted { ReceiveKeeps(w, t, false); }
    }
  }

  // ---------------------------------------------------------------- snapshot calls

  function Reads(ms: seq<C.Message>): seq<C.Read> { seq(|ms|, i requires 0 <= i < |ms| => C.Arrived(ms[i])) }

  predicate OnlyBeats(ms: seq<C.Message>) { forall i :: 0 <= i < |ms| ==> ms[i].content.Beat? }

  lemma DownContinues(w: World, sys: System, n: nat)
    requires Matched(w) && Inv(w, sys) && sys.greeted && n < |sys.down|
    ensures C.Continues(w.config.expected, sys.client, Reads(sys.down), n)
  {
    var first := sys.server.sequence - |sys.down| + 1;
    assert sys.down[n].id == IdText(w.server, first + n);
    forall j | 0 <= j < n ensures sys.down[j].id != sys.down[n].id {
      assert sys.down[j].id == IdText(w.server, first + j);
      if IdText(w.server, first + j) == IdText(w.server, first + n) { IdsDiffer(w, first + j, first + n); }
    }
  }

  /** A connection on which nothing is under way but heartbeats and at most one request. */
  ghost predicate Quiet(w: World, sys: System) {
    Inv(w, sys) && sys.greeted && sys.server.phase.Serving? && OnlyBeats(sys.down)
  }

  lemma QuietBeat(w: World, sys: System, st: State)
    requires Matched(w) && Quiet(w, sys) && Stable(w, st)
    ensures var t := Do(w, sys, Beat(st));
      Quiet(w, t) && t.up == sys.up && t.client == sys.client
  {
    BeatKeeps(w, sys, st);
  }

  /** Any number of further heartbeats while the request travels. */
  ghost function Beats(w: World, sys: System, states: seq<State>): (t: System)
    requires Matched(w) && Quiet(w, sys) && forall i :: 0 <= i < |states| ==> Stable(w, states[i])
    ensures Quiet(w, t) && t.up == sys.up && t.client == sys.client
    decreases |states|
  {
    if states == [] then sys
    else
      QuietBeat(w, sys, states[0]);
      Beats(w, Do(w, sys, Beat(states[0])), states[1..])
  }

  lemma QuietAsk(w: World, sys: System, id: Text, ask: C.Ask)
    requires Matched(w) && Quiet(w, sys) && Enabled(w, sys, Ask(id, ask))
    ensures Quiet(w, Do(w, sys, Ask(id, ask)))
    ensures Do(w, sys, Ask(id, ask)).up == sys.up + [C.Composed(sys.client, id, ask)]
  {
    AskKeeps(w, sys, id, ask);
  }

  /**
   * A snapshot call on a quiet connection succeeds, however many heartbeats are queued before the request is written
   * and while it travels: the wait consumes them all and returns the snapshot of the state captured for it.
   */
  lemma SnapshotSucceeds(w: World, sys: System, id: Text, states: seq<State>, st: State)
    requires Matched(w) && Quiet(w, sys) && sys.up == [] && FreshId(sys, id)
    requires Stable(w, st) && forall i :: 0 <= i < |states| ==> Stable(w, states[i])
    ensures var e := Ask(id, C.AskSnapshot(w.server.bridgeInstanceId, w.base.gameSessionId));
      && Enabled(w, sys, e) && Quiet(w, Do(w, sys, e))
      && var asked := Beats(w, Do(w, sys, e), states);
         && Enabled(w, asked, Take(st))
         && var t := Do(w, asked, Take(st));
            C.Await(w.config.expected, t.client, Reads(t.down), id).outcome == C.Ok(Answer(w, t, st, id))
  {
    var ask := C.AskSnapshot(w.server.bridgeInstanceId, w.base.gameSessionId);
    QuietAsk(w, sys, id, ask);
    var asked := Beats(w, Do(w, sys, Ask(id, ask)), states);
    TakeRequest(w, asked, st);
    SnapshotArrives(w, asked, Do(w, asked, Take(st)), st, id);
  }

  /** The snapshot of `st`, sent under the server's last number in answer to request `id`. */
  function Answer(w: World, sys: System, st: State, id: Text): C.Message {
    var n := sys.server.sequence;
    var r := Reply(FullSnapshotResponse, Some(id), n, Promise(n), st);
    C.Message(IdText(w.server, n), Some(id), MetaOf(w, st, n), C.SnapshotOf(MetaOf(w, st, n), w.body(r)))
  }

  lemma SnapshotArrives(w: World, asked: System, t: System, st: State, id: Text)
    requires Matched(w) && Quiet(w, asked) && Stable(w, st)
    requires |asked.up| == 1 && asked.up[0].id == id && asked.up[0].ask.AskSnapshot?
    requires Inv(w, t) && t.greeted && t.client == asked.client
    requires t.down == asked.down + MessagesOf(w, Answers(asked.server, asked.up[0], st))
    requires t.server.sequence == asked.server.sequence + 1
    ensures C.Await(w.config.expected, t.client, Reads(t.down), id).outcome == C.Ok(Answer(w, t, st, id))
  {
    var k := |asked.down|;
    var r := Answers(asked.server, asked.up[0], st)[0];
    assert t.down[k] == MessageOf(w, r);
    forall n | 0 <= n <= k ensures C.Continues(w.config.expected, t.client, Reads(t.down), n) {
      DownContinues(w, t, n);
    }
    assert C.Delivers(w.config.expected, t.client, Reads(t.down), id, k);
    C.AwaitExact(w.config.expected, t.client, Reads(t.down), id);
  }

  // ---------------------------------------------------------------- failed writes

  /**
   * A request that is refused before it is written still spends a number. After `lost` of them the next request is
   * answered by `sequence_error`, and the connection ends, exactly when `lost` is positive.
   */
  lemma RefusedWriteExact(w: World, sys: System, lost: nat, id: Text, ask: C.Ask, st: State)
    requires Matched(w) && Inv(w, sys) && sys.greeted && sys.up == [] && FreshId(sys, id) && Honest(sys.client, ask)
    requires Stable(w, st)
    ensures var r := C.Composed(sys.client.(outgoing := sys.client.outgoing + lost), id, ask);
      var s := S.Serve(w.server, sys.server, GoodTurn(Read.Frame(EnvelopeOf(w, r)), st));
      && (s.phase.Over? <==> lost > 0)
      && (lost > 0 ==>
           s.sent == sys.server.sent + [Reply(ProtocolError, Some(id), sys.server.sequence + 1, Code("sequence_error"), st)])
  {
    var r := C.Composed(sys.client.(outgoing := sys.client.outgoing + lost), id, ask);
    if lost == 0 { RequestAnswered(w, sys.server, r, st); }
  }
}
