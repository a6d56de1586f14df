/** The bridge client's delivery timeline: what it sends, what it accepts, and what its calls return. */
module Client {
  import opened Texts
  import opened Protocol
  import Json
  import W = Vocabulary

  /** What an envelope says about its origin; a snapshot repeats all of it. */
  datatype Meta = Meta(
    sequence: int, instance: Text, session: Text, gameId: Text, gameVersion: Text, adapterVersion: Text, platform: Text,
    architecture: Text, mapIdentity: Identity, saveIdentity: Identity)

  datatype Content =
    | Welcome | Refusal | Beat | Manifest(surfaces: seq<Text>)
    | SnapshotOf(meta: Meta, body: Json.Json) | Failure(code: Text) | Request

  /** A parsed envelope; its payload has the type its message type asks for. */
  datatype Message = Message(id: Text, correlation: Option<Text>, meta: Meta, content: Content)

  /** What one attempt to read a frame comes to. */
  datatype Read = Arrived(message: Message) | Unreadable | BadLength | TimedOut | Lost

  datatype Error =
    | Duplicate | InstanceChanged | SessionChanged | MapChanged | SaveChanged | Gap | Incompatible | Malformed | BadSize
    | Timeout | Disconnected | NotSynchronized | NoIdentity | Unexpected | WrongCorrelation | Mismatch | Reported(code: Text)
    | Unauthenticated
  datatype Outcome<T> = Ok(value: T) | Fail(error: Error)

  datatype Mode = Idle | Connecting | Authenticating | Synchronized | Resynchronizing | Failed

  datatype Ask = AskHello | AskSnapshot(instance: Text, session: Text)
    | AskAgain(lastInstance: Option<Text>, lastSession: Option<Text>, last: Option<int>)

  datatype Sent = Sent(
    id: Text, sequence: nat, instance: Text, session: Text, mapIdentity: Identity, saveIdentity: Identity, ask: Ask)

  /**
   * What becomes of a write: delivered, refused before it is written, written but late, or written to a dead
   * connection.
   */
  datatype Writing = Written | Refused | Late | Dead

  /** The part of the configuration that a message is compared with. */
  datatype Expected = Expected(adapterVersion: Text, gameId: Text, gameVersion: Text, platform: Text, architecture: Text)

  datatype Client = Client(
    mode: Mode, capabilities: Option<seq<Text>>, instance: Option<Text>, session: Option<Text>, mapIdentity: Option<Identity>,
    saveIdentity: Option<Identity>, last: Option<int>, outgoing: nat, seen: set<Text>, open: bool)

  const UNNEGOTIATED: Text := W.Units("client-unnegotiated")
  const NOT_NEGOTIATED: Identity := Identity(W.Units("unavailable"), None, None, Some(W.Units("not negotiated")))

  function Or<T>(o: Option<T>, otherwise: T): T { if o.Some? then o.value else otherwise }

  function Initial(): Client { Client(Idle, None, None, None, None, None, None, 0, {}, false) }

  // ---------------------------------------------------------------- receiving

  predicate Compatible(x: Expected, m: Meta) {
    && m.adapterVersion == x.adapterVersion && m.gameId == x.gameId && m.gameVersion == x.gameVersion
    && m.platform == x.platform && m.architecture == x.architecture
  }

  /** The first check a message outside a handshake fails. */
  function Objection(c: Client, m: Meta): Option<Error> {
    if c.instance.Some? && m.instance != c.instance.value then Some(InstanceChanged)
    else if c.session.Some? && m.session != c.session.value then Some(SessionChanged)
    else if c.mapIdentity.Some? && m.mapIdentity != c.mapIdentity.value then Some(MapChanged)
    else if c.saveIdentity.Some? && m.saveIdentity != c.saveIdentity.value then Some(SaveChanged)
    else if c.last.Some? && m.sequence != c.last.value + 1 then Some(Gap)
    else None
  }

  /** Taking a message in, a baseline starting the timeline afresh. */
  function Noted(c: Client, m: Message, baseline: bool): Client {
    c.(seen := (if baseline then {} else c.seen) + {m.id}, instance := Some(m.meta.instance), session := Some(m.meta.session),
       mapIdentity := Some(m.meta.mapIdentity), saveIdentity := Some(m.meta.saveIdentity), last := Some(m.meta.sequence))
  }

  function Verdict(x: Expected, c: Client, m: Message, baseline: bool): Option<Error> {
    if !Compatible(x, m.meta) then Some(Incompatible)
    else if m.id in c.seen then Some(Duplicate)
    else if baseline then None
    else Objection(c, m.meta)
  }

  datatype Step<T> = Step(client: Client, inbox: seq<Read>, outcome: Outcome<T>)

  function ReadError(r: Read): Error
    requires !r.Arrived?
  {
    match r
    case Unreadable => Malformed
    case BadLength => BadSize
    case TimedOut => Timeout
    case Lost => Disconnected
  }

  /** `_receive`: a read that finds nothing times out. */
  function Receive(x: Expected, c: Client, inbox: seq<Read>, baseline: bool): Step<Message> {
    if !c.open then Step(c, inbox, Fail(Disconnected))
    else if inbox == [] then Step(c, inbox, Fail(Timeout))
    else match inbox[0]
      case Arrived(m) =>
        var v := Verdict(x, c, m, baseline);
        if v.Some? then Step(c, inbox[1..], Fail(v.value)) else Step(Noted(c, m, baseline), inbox[1..], Ok(m))
      case other => Step(c, inbox[1..], Fail(ReadError(other)))
  }

  // ---------------------------------------------------------------- sending

  function Composed(c: Client, id: Text, ask: Ask): Sent {
    Sent(id, c.outgoing + 1, Or(c.instance, UNNEGOTIATED), Or(c.session, UNNEGOTIATED), Or(c.mapIdentity, NOT_NEGOTIATED),
         Or(c.saveIdentity, NOT_NEGOTIATED), ask)
  }

  /** `_send`: the number is spent before anything can fail. */
  function Counted(c: Client): Client { if c.open then c.(outgoing := c.outgoing + 1) else c }

  function SendError(c: Client, w: Writing): Option<Error> {
    if !c.open then Some(Disconnected)
    else match w
      case Written => None
      case Refused => Some(BadSize)
      case Late => Some(Timeout)
      case Dead => Some(Disconnected)
  }

  // ---------------------------------------------------------------- the wait for a snapshot

  /** The loop of `request_full_snapshot` after request `id` has gone out. */
  function Await(x: Expected, c: Client, inbox: seq<Read>, id: Text): Step<Message>
    decreases |inbox|
  {
    var r := Receive(x, c, inbox, false);
    if r.outcome.Fail? then Step(r.client, r.inbox, Fail(r.outcome.error))
    else
      var m := r.outcome.value;
      match m.content
      case Beat => Await(x, r.client, r.inbox, id)
      case Failure(code) => Step(r.client, r.inbox, Fail(Reported(code)))
      case SnapshotOf(meta, body) =>
        if m.correlation != Some(id) then Step(r.client, r.inbox, Fail(WrongCorrelation))
        else if meta != m.meta then Step(r.client, r.inbox, Fail(Mismatch))
        else Step(r.client, r.inbox, Ok(m))
      case _ => Step(r.client, r.inbox, Fail(Unexpected))
  }

  /** A synchronized client knows whom it talks to and where the timeline stands. */
  predicate Valid(c: Client) {
    c.mode.Synchronized? ==>
      c.open && c.capabilities.Some? && c.instance.Some? && c.session.Some? && c.mapIdentity.Some? && c.saveIdentity.Some?
      && c.last.Some?
  }

  predicate Based(c: Client) {
    c.open && c.instance.Some? && c.session.Some? && c.mapIdentity.Some? && c.saveIdentity.Some? && c.last.Some?
  }

  /** The `n`th message from now continues the timeline: same origin, next number, an id not met before. */
  predicate Continues(x: Expected, c: Client, inbox: seq<Read>, n: nat)
    requires Based(c) && n < |inbox|
  {
    && inbox[n].Arrived?
    && var m := inbox[n].message;
       && Compatible(x, m.meta) && m.meta.instance == c.instance.value && m.meta.session == c.session.value
       && m.meta.mapIdentity == c.mapIdentity.value && m.meta.saveIdentity == c.saveIdentity.value
       && m.meta.sequence == c.last.value + 1 + n
       && m.id !in c.seen && (forall j :: 0 <= j < n && inbox[j].Arrived? ==> inbox[j].message.id != m.id)
  }

  predicate IsBeat(r: Read) { r.Arrived? && r.message.content.Beat? }

  /** After `k` heartbeats in order comes a snapshot that answers request `id` and agrees with its envelope. */
  predicate Delivers(x: Expected, c: Client, inbox: seq<Read>, id: Text, k: nat)
    requires Based(c)
  {
    && k < |inbox| && (forall n :: 0 <= n <= k ==> Continues(x, c, inbox, n))
    && (forall n :: 0 <= n < k ==> IsBeat(inbox[n]))
    && inbox[k].Arrived?
    && var m := inbox[k].message;
       m.content.SnapshotOf? && m.correlation == Some(id) && m.content.meta == m.meta
  }

  lemma ReceiveBased(x: Expected, c: Client, inbox: seq<Read>)
    requires Based(c)
    ensures Receive(x, c, inbox, false).outcome.Ok? <==> inbox != [] && Continues(x, c, inbox, 0)
    ensures var r := Receive(x, c, inbox, false);
      r.outcome.Ok? ==> Based(r.client) && r.inbox == inbox[1..] && r.outcome.value == inbox[0].message
  {
  }

  /** Taking a heartbeat in shifts the view of the rest by one. */
  lemma ContinuesShift(x: Expected, c: Client, inbox: seq<Read>, n: nat)
    requires Based(c) && 0 < n < |inbox| && Continues(x, c, inbox, 0)
    ensures Continues(x, Noted(c, inbox[0].message, false), inbox[1..], n - 1) <==> Continues(x, c, inbox, n)
  {
    var d := Noted(c, inbox[0].message, false);
    assert inbox[1..][n - 1] == inbox[n];
    assert forall j :: 0 <= j < n - 1 ==> inbox[1..][j] == inbox[j + 1];
    if Continues(x, d, inbox[1..], n - 1) {
      forall j | 0 <= j < n && inbox[j].Arrived? ensures inbox[j].message.id != inbox[n].message.id {
        if j > 0 { assert inbox[1..][j - 1] == inbox[j]; }
      }
    }
  }

  lemma DeliversShift(x: Expected, c: Client, inbox: seq<Read>, id: Text, k: nat)
    requires Based(c) && inbox != [] && Continues(x, c, inbox, 0) && inbox[0].message.content.Beat?
    ensures Delivers(x, c, inbox, id, k + 1) <==> Delivers(x, Noted(c, inbox[0].message, false), inbox[1..], id, k)
  {
    var d := Noted(c, inbox[0].message, false);
    var rest := inbox[1..];
    if k < |rest| {
      forall n | 0 < n <= k + 1 ensures Continues(x, d, rest, n - 1) <==> Continues(x, c, inbox, n) {
        ContinuesShift(x, c, inbox, n);
      }
      if Delivers(x, c, inbox, id, k + 1) {
        forall n | 0 <= n <= k ensures Continues(x, d, rest, n) { assert Continues(x, c, inbox, n + 1); }
        forall n | 0 <= n < k ensures IsBeat(rest[n]) { assert rest[n] == inbox[n + 1]; }
      }
      if Delivers(x, d, rest, id, k) {
        forall n | 0 <= n <= k + 1 ensures Continues(x, c, inbox, n) { if n > 0 { assert Continues(x, d, rest, n - 1); } }
        forall n | 0 <= n < k + 1 ensures IsBeat(inbox[n]) {
          if n > 0 { assert rest[n - 1] == inbox[n]; }
        }
      }
    }
  }

  lemma DeliversFirst(x: Expected, c: Client, inbox: seq<Read>, id: Text, k: nat)
    requires Based(c) && Delivers(x, c, inbox, id, k)
    ensures Continues(x, c, inbox, 0) && (k > 0 <==> inbox[0].message.content.Beat?)
  {
  }

  /**
   * The wait returns a snapshot exactly when some finite run of heartbeats in order, then a snapshot for this very
   * request, stand first in the inbox; and it returns that snapshot.
   */
  lemma {:induction false} AwaitExact(x: Expected, c: Client, inbox: seq<Read>, id: Text)
    requires Based(c)
    ensures Await(x, c, inbox, id).outcome.Ok? <==> exists k: nat :: Delivers(x, c, inbox, id, k)
    ensures forall k: nat :: Delivers(x, c, inbox, id, k) ==>
      Await(x, c, inbox, id).outcome == Ok(inbox[k].message) && Await(x, c, inbox, id).inbox == inbox[k + 1..]
    decreases |inbox|
  {
    var r := Receive(x, c, inbox, false);
    ReceiveBased(x, c, inbox);
    if r.outcome.Fail? {
      forall k: nat ensures !Delivers(x, c, inbox, id, k) {
        if Delivers(x, c, inbox, id, k) { DeliversFirst(x, c, inbox, id, k); }
      }
    } else if inbox[0].message.content.Beat? {
      AwaitExact(x, r.client, r.inbox, id);
      BeatFirst(x, c, inbox, id);
    } else {
      SnapshotFirst(x, c, inbox, id);
    }
  }

  lemma BeatFirst(x: Expected, c: Client, inbox: seq<Read>, id: Text)
    requires Based(c) && inbox != [] && Continues(x, c, inbox, 0) && inbox[0].message.content.Beat?
    ensures var d := Noted(c, inbox[0].message, false);
      && ((exists k: nat :: Delivers(x, c, inbox, id, k)) <==> exists k: nat :: Delivers(x, d, inbox[1..], id, k))
      && forall k: nat :: Delivers(x, c, inbox, id, k) ==>
           k > 0 && Delivers(x, d, inbox[1..], id, k - 1) && inbox[1..][k - 1] == inbox[k]
           && inbox[1..][k - 1 + 1..] == inbox[k + 1..]
  {
    var d := Noted(c, inbox[0].message, false);
    forall k: nat ensures Delivers(x, c, inbox, id, k + 1) <==> Delivers(x, d, inbox[1..], id, k) {
      DeliversShift(x, c, inbox, id, k);
    }
    forall k: nat | Delivers(x, c, inbox, id, k)
      ensures k > 0 && Delivers(x, d, inbox[1..], id, k - 1) && inbox[1..][k - 1] == inbox[k]
        && inbox[1..][k - 1 + 1..] == inbox[k + 1..]
    {
      DeliversFirst(x, c, inbox, id, k);
      assert Delivers(x, c, inbox, id, (k - 1) + 1);
    }
    if k: nat :| Delivers(x, d, inbox[1..], id, k) {
      assert Delivers(x, c, inbox, id, k + 1);
    }
  }

  lemma SnapshotFirst(x: Expected, c: Client, inbox: seq<Read>, id: Text)
    requires Based(c) && inbox != [] && Continues(x, c, inbox, 0) && !inbox[0].message.content.Beat?
    ensures var m := inbox[0].message;
      Delivers(x, c, inbox, id, 0) <==> m.content.SnapshotOf? && m.correlation == Some(id) && m.content.meta == m.meta
    ensures forall k: nat :: Delivers(x, c, inbox, id, k) ==> k == 0
  {
    forall k: nat | Delivers(x, c, inbox, id, k) ensures k == 0 { DeliversFirst(x, c, inbox, id, k); }
  }

  // ---------------------------------------------------------------- handshakes

  /** The two receives after a hello (`first`) or a resynchronization request `id`. */
  function Shake(x: Expected, c: Client, inbox: seq<Read>, id: Text, first: bool): Step<seq<Text>> {
    var h := Receive(x, c, inbox, true);
    if h.outcome.Fail? then Step(h.client, h.inbox, Fail(h.outcome.error))
    else if first && h.outcome.value.content.Refusal? then Step(h.client, h.inbox, Fail(Unauthenticated))
    else if !h.outcome.value.content.Welcome? then Step(h.client, h.inbox, Fail(Unexpected))
    else if h.outcome.value.correlation != Some(id) then Step(h.client, h.inbox, Fail(WrongCorrelation))
    else
      var m := Receive(x, h.client, h.inbox, false);
      if m.outcome.Fail? then Step(m.client, m.inbox, Fail(m.outcome.error))
      else if !m.outcome.value.content.Manifest? then Step(m.client, m.inbox, Fail(Unexpected))
      else Step(
        m.client.(capabilities := Some(m.outcome.value.content.surfaces), mode := Synchronized), m.inbox,
        Ok(m.outcome.value.content.surfaces))
  }

  predicate SameOrigin(a: Meta, b: Meta) {
    a.instance == b.instance && a.session == b.session && a.mapIdentity == b.mapIdentity && a.saveIdentity == b.saveIdentity
  }

  /** A hello for request `id`, then the manifest that continues it, stand first in the inbox. */
  predicate Welcomes(x: Expected, c: Client, inbox: seq<Read>, id: Text) {
    && |inbox| >= 2 && inbox[0].Arrived? && inbox[1].Arrived?
    && var h, m := inbox[0].message, inbox[1].message;
       && Compatible(x, h.meta) && h.id !in c.seen && h.content.Welcome? && h.correlation == Some(id)
       && Compatible(x, m.meta) && m.id != h.id && m.content.Manifest? && SameOrigin(h.meta, m.meta)
       && m.meta.sequence == h.meta.sequence + 1
  }

  /**
   * A handshake succeeds exactly when its hello and manifest come first; the timeline then starts from them alone. In
   * particular it fails if a heartbeat is queued before the hello.
   */
  lemma ShakeExact(x: Expected, c: Client, inbox: seq<Read>, id: Text, first: bool)
    requires c.open
    ensures Shake(x, c, inbox, id, first).outcome.Ok? <==> Welcomes(x, c, inbox, id)
    ensures var r := Shake(x, c, inbox, id, first);
      r.outcome.Ok? ==>
        && Valid(r.client) && r.client.mode.Synchronized? && r.client.outgoing == c.outgoing
        && r.client.seen == {inbox[0].message.id, inbox[1].message.id}
        && r.client.last == Some(inbox[1].message.meta.sequence)
        && r.inbox == inbox[2..] && r.outcome == Ok(inbox[1].message.content.surfaces)
    ensures inbox != [] && IsBeat(inbox[0]) ==> Shake(x, c, inbox, id, first).outcome.Fail?
  {
    if inbox != [] && inbox[0].Arrived? {
      assert inbox[1..] != [] ==> inbox[1..][0] == inbox[1] && inbox[1..][1..] == inbox[2..];
    }
  }

  // ---------------------------------------------------------------- calls

  /** What a call leaves behind: the client, its unread messages, what it has sent in all, and its result. */
  datatype Call<T> = Call(client: Client, inbox: seq<Read>, outbox: seq<Sent>, outcome: Outcome<T>)

  function Outbox(c: Client, outbox: seq<Sent>, id: Text, ask: Ask, w: Writing): seq<Sent> {
    if c.open && !w.Refused? then outbox + [Composed(c, id, ask)] else outbox
  }

  function Closed(c: Client): Client { c.(open := false, mode := Idle) }

  /** What opening a connection comes to: the reads it will deliver, a refusal, or a timeout. */
  datatype Opening = Opened(inbox: seq<Read>) | Refuses | Hangs

  /** `connect`. */
  function Connect(x: Expected, c: Client, inbox: seq<Read>, outbox: seq<Sent>, opening: Opening, id: Text, w: Writing)
    : Call<seq<Text>>
  {
    if c.mode.Synchronized? && c.capabilities.Some? then Call(c, inbox, outbox, Ok(c.capabilities.value))
    else if !opening.Opened? then Call(Closed(c), [], outbox, Fail(if opening.Refuses? then Disconnected else Timeout))
    else
      var d := c.(open := true, mode := Authenticating);
      var sent := Outbox(d, outbox, id, AskHello, w);
      if SendError(d, w).Some? then Call(Closed(Counted(d)), [], sent, Fail(SendError(d, w).value))
      else
        var r := Shake(x, Counted(d), opening.inbox, id, true);
        if r.outcome.Fail? then Call(Closed(r.client), [], sent, r.outcome) else Call(r.client, r.inbox, sent, r.outcome)
  }

  /** `request_full_snapshot`. */
  function RequestSnapshot(x: Expected, c: Client, inbox: seq<Read>, outbox: seq<Sent>, id: Text, w: Writing): Call<Message> {
    if !c.mode.Synchronized? then Call(c, inbox, outbox, Fail(NotSynchronized))
    else if c.instance.None? || c.session.None? then Call(c, inbox, outbox, Fail(NoIdentity))
    else
      var sent := Outbox(c, outbox, id, AskSnapshot(c.instance.value, c.session.value), w);
      if SendError(c, w).Some? then Call(Counted(c), inbox, sent, Fail(SendError(c, w).value))
      else
        var r := Await(x, Counted(c), inbox, id);
        Call(r.client, r.inbox, sent, r.outcome)
  }

  /** `resynchronize`. */
  function Resynchronize(x: Expected, c: Client, inbox: seq<Read>, outbox: seq<Sent>, opening: Opening, id: Text, w: Writing)
    : Call<seq<Text>>
  {
    if !c.open then Connect(x, c, inbox, outbox, opening, id, w)
    else
      var d := c.(mode := Resynchronizing);
      var sent := Outbox(d, outbox, id, AskAgain(c.instance, c.session, c.last), w);
      if SendError(d, w).Some? then Call(Counted(d), inbox, sent, Fail(SendError(d, w).value))
      else
        var r := Shake(x, Counted(d).(seen := {}), inbox, id, false);
        Call(r.client, r.inbox, sent, r.outcome)
  }

  /**
   * A snapshot that is returned answers the request just sent, agrees with its envelope, and has the negotiated
   * origin.
   */
  lemma SnapshotAnswers(x: Expected, c: Client, inbox: seq<Read>, outbox: seq<Sent>, id: Text, w: Writing)
    requires Valid(c)
    ensures var r := RequestSnapshot(x, c, inbox, outbox, id, w);
      r.outcome.Ok? ==>
        && r.outbox == outbox + [Composed(c, id, AskSnapshot(c.instance.value, c.session.value))]
        && r.outcome.value.correlation == Some(r.outbox[|outbox|].id)
        && r.outcome.value.content.SnapshotOf? && r.outcome.value.content.meta == r.outcome.value.meta
        && r.outcome.value.meta.instance == c.instance.value && r.outcome.value.meta.session == c.session.value
        && r.outcome.value.meta.mapIdentity == c.mapIdentity.value
        && r.outcome.value.meta.saveIdentity == c.saveIdentity.value
        && c.last.value < r.outcome.value.meta.sequence
  {
    var r := RequestSnapshot(x, c, inbox, outbox, id, w);
    if r.outcome.Ok? {
      AwaitExact(x, Counted(c), inbox, id);
      var k: nat :| Delivers(x, Counted(c), inbox, id, k);
      assert Continues(x, Counted(c), inbox, k);
    }
  }

  lemma {:induction false} AwaitKeeps(x: Expected, c: Client, inbox: seq<Read>, id: Text)
    requires Based(c)
    ensures var d := Await(x, c, inbox, id).client;
      Based(d) && d.mode == c.mode && d.capabilities == c.capabilities && d.outgoing == c.outgoing
    decreases |inbox|
  {
    var r := Receive(x, c, inbox, false);
    if r.outcome.Ok? && r.outcome.value.content.Beat? { AwaitKeeps(x, r.client, r.inbox, id); }
  }

  /** Every call keeps a synchronized client well-founded, and spends one number per request it tries to write. */
  lemma CallsKeepValid(x: Expected, c: Client, inbox: seq<Read>, outbox: seq<Sent>, opening: Opening, id: Text, w: Writing)
    requires Valid(c)
    ensures Valid(Connect(x, c, inbox, outbox, opening, id, w).client)
    ensures Valid(RequestSnapshot(x, c, inbox, outbox, id, w).client)
    ensures Valid(Resynchronize(x, c, inbox, outbox, opening, id, w).client)
    ensures var d := Connect(x, c, inbox, outbox, opening, id, w).client; d.mode.Synchronized? || d.mode.Idle?
  {
    if c.mode.Synchronized? { AwaitKeeps(x, Counted(c), inbox, id); }
    ShakeExact(x, Counted(c.(open := true, mode := Authenticating)), if opening.Opened? then opening.inbox else [], id, true);
    if c.open {
      ShakeExact(x, Counted(c.(mode := Resynchronizing)).(seen := {}), inbox, id, false);
      ShakeMode(x, Counted(c.(mode := Resynchronizing)).(seen := {}), inbox, id, false);
    }
  }

  lemma ShakeMode(x: Expected, c: Client, inbox: seq<Read>, id: Text, first: bool)
    ensures Shake(x, c, inbox, id, first).outcome.Fail? ==> Shake(x, c, inbox, id, first).client.mode == c.mode
  {
  }
}
