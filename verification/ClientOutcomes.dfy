/** When the calls of the bridge client succeed, what they then leave behind, and what their errors mean. */
module ClientOutcomes {
  import opened Texts
  import opened Protocol
  import opened Client

  // ---------------------------------------------------------------- messages

  /** The message says it comes from the bridge, the session and the game that the client knows. */
  predicate SameSource(c: Client, m: Message) {
    && (c.instance.Some? ==> m.meta.instance == c.instance.value) && (c.session.Some? ==> m.meta.session == c.session.value)
    && (c.mapIdentity.Some? ==> m.meta.mapIdentity == c.mapIdentity.value)
    && (c.saveIdentity.Some? ==> m.meta.saveIdentity == c.saveIdentity.value)
  }

  predicate NextInLine(c: Client, m: Message) { c.last.Some? ==> m.meta.sequence == c.last.value + 1 }

  /**
   * A message is accepted exactly when it fits the configuration and is new, and, unless it starts the timeline afresh,
   * comes from the known source under the next number. A duplicate is reported before a change of source, and that
   * before a gap.
   */
  lemma AcceptedExact(x: Expected, c: Client, m: Message, rest: seq<Read>, baseline: bool)
    requires c.open
    ensures var o := Receive(x, c, [Arrived(m)] + rest, baseline).outcome;
      && (o == Ok(m) <==> Compatible(x, m.meta) && m.id !in c.seen && (baseline || (SameSource(c, m) && NextInLine(c, m))))
      && (o == Fail(Incompatible) <==> !Compatible(x, m.meta))
      && (o == Fail(Duplicate) <==> Compatible(x, m.meta) && m.id in c.seen)
      && (o == Fail(Gap) <==>
            Compatible(x, m.meta) && m.id !in c.seen && !baseline && SameSource(c, m) && !NextInLine(c, m))
      && (o.Fail? && o.error in {InstanceChanged, SessionChanged, MapChanged, SaveChanged} <==>
            Compatible(x, m.meta) && m.id !in c.seen && !baseline && !SameSource(c, m))
  {
  }

  /** The error of a change names something that has changed, and nothing that is compared before it has. */
  lemma ChangeNamed(x: Expected, c: Client, m: Message, rest: seq<Read>)
    requires c.open
    ensures var o := Receive(x, c, [Arrived(m)] + rest, false).outcome;
      && (o == Fail(InstanceChanged) ==> c.instance.Some? && m.meta.instance != c.instance.value)
      && (o == Fail(SessionChanged) ==>
            c.session.Some? && m.meta.session != c.session.value && SameSource(c.(session := None, mapIdentity := None,
              saveIdentity := None), m))
      && (o == Fail(MapChanged) ==>
            c.mapIdentity.Some? && m.meta.mapIdentity != c.mapIdentity.value
            && SameSource(c.(mapIdentity := None, saveIdentity := None), m))
      && (o == Fail(SaveChanged) ==>
            c.saveIdentity.Some? && m.meta.saveIdentity != c.saveIdentity.value && SameSource(c.(saveIdentity := None), m))
  {
  }

  /** A message that is refused leaves the client as it was, and is not read again. */
  lemma RefusedLeaves(x: Expected, c: Client, inbox: seq<Read>, baseline: bool)
    ensures var r := Receive(x, c, inbox, baseline);
      r.outcome.Fail? ==> r.client == c && r.inbox == if c.open && inbox != [] then inbox[1..] else inbox
  {
  }

  // ---------------------------------------------------------------- connecting

  /** A connection is opened, the hello goes out, and the right hello and manifest come first. */
  predicate Connects(x: Expected, c: Client, opening: Opening, id: Text, w: Writing) {
    opening.Opened? && w.Written? && Welcomes(x, c, opening.inbox, id)
  }

  /** The client of a finished handshake: the timeline starts from its hello and its manifest. */
  predicate StartedBy(c: Client, h: Message, m: Message) {
    && c.mode.Synchronized? && c.open && m.content.Manifest? && c.capabilities == Some(m.content.surfaces)
    && c.seen == {h.id, m.id} && c.last == Some(m.meta.sequence)
    && c.instance == Some(m.meta.instance) && c.session == Some(m.meta.session)
    && c.mapIdentity == Some(m.meta.mapIdentity) && c.saveIdentity == Some(m.meta.saveIdentity)
  }

  lemma ShakeStarts(x: Expected, c: Client, inbox: seq<Read>, id: Text, first: bool)
    requires c.open && Welcomes(x, c, inbox, id)
    ensures StartedBy(Shake(x, c, inbox, id, first).client, inbox[0].message, inbox[1].message)
  {
    ShakeExact(x, c, inbox, id, first);
    assert inbox[1..][0] == inbox[1];
  }

  /**
   * Connecting a client that is not synchronized succeeds exactly so, whatever connection it had before; it then has
   * written one hello, holds the manifest's surfaces, and keeps what is left to read. Otherwise it is left disconnected.
   */
  lemma ConnectExact(x: Expected, c: Client, inbox: seq<Read>, outbox: seq<Sent>, opening: Opening, id: Text, w: Writing)
    requires Valid(c) && !c.mode.Synchronized?
    ensures var r := Connect(x, c, inbox, outbox, opening, id, w);
      && (r.outcome.Ok? <==> Connects(x, c, opening, id, w))
      && (r.outcome.Ok? ==>
            var h, m := opening.inbox[0].message, opening.inbox[1].message;
            && StartedBy(r.client, h, m) && r.outcome == Ok(m.content.surfaces) && r.inbox == opening.inbox[2..]
            && r.client.outgoing == c.outgoing + 1 && r.outbox == outbox + [Composed(c, id, AskHello)])
      && (r.outcome.Fail? ==> !r.client.open && r.client.mode.Idle? && r.inbox == [])
  {
    if opening.Opened? {
      var d := Counted(c.(open := true, mode := Authenticating));
      ShakeExact(x, d, opening.inbox, id, true);
      if Connects(x, c, opening, id, w) { ShakeStarts(x, d, opening.inbox, id, true); }
    }
  }

  /** A synchronized client that is told to connect does nothing, and returns what it has. */
  lemma ConnectedAlready(x: Expected, c: Client, inbox: seq<Read>, outbox: seq<Sent>, opening: Opening, id: Text, w: Writing)
    requires Valid(c) && c.mode.Synchronized?
    ensures Connect(x, c, inbox, outbox, opening, id, w) == Call(c, inbox, outbox, Ok(c.capabilities.value))
  {
  }

  /** An authentication failure comes first. */
  predicate Refuses(x: Expected, c: Client, inbox: seq<Read>) {
    inbox != [] && inbox[0].Arrived?
    && var m := inbox[0].message; Compatible(x, m.meta) && m.id !in c.seen && m.content.Refusal?
  }

  /** Why connecting failed before the handshake went on. */
  lemma ConnectFails(x: Expected, c: Client, inbox: seq<Read>, outbox: seq<Sent>, opening: Opening, id: Text, w: Writing)
    requires Valid(c) && !c.mode.Synchronized?
    ensures var o := Connect(x, c, inbox, outbox, opening, id, w).outcome;
      && (opening.Refuses? ==> o == Fail(Disconnected)) && (opening.Hangs? ==> o == Fail(Error.Timeout))
      && (opening.Opened? && w.Refused? ==> o == Fail(BadSize)) && (opening.Opened? && w.Late? ==> o == Fail(Error.Timeout))
      && (opening.Opened? && w.Dead? ==> o == Fail(Disconnected))
      && (opening.Opened? && w.Written? && Refuses(x, c, opening.inbox) ==> o == Fail(Unauthenticated))
  {
  }

  // ---------------------------------------------------------------- starting anew

  /**
   * A new start on an open connection succeeds exactly when the request is written and the right hello and manifest
   * come first; ids met before count for nothing. Only then is the client synchronized.
   */
  lemma ResynchronizeExact(x: Expected, c: Client, inbox: seq<Read>, outbox: seq<Sent>, opening: Opening, id: Text, w: Writing)
    requires Valid(c) && c.open
    ensures var r := Resynchronize(x, c, inbox, outbox, opening, id, w);
      && (r.outcome.Ok? <==> w.Written? && Welcomes(x, c.(seen := {}), inbox, id))
      && (r.outcome.Ok? ==>
            var h, m := inbox[0].message, inbox[1].message;
            && StartedBy(r.client, h, m) && r.outcome == Ok(m.content.surfaces) && r.inbox == inbox[2..])
      && (r.outcome.Fail? ==> r.client.mode.Resynchronizing? && r.client.open)
      && r.client.outgoing == c.outgoing + 1
  {
    var d := Counted(c.(mode := Resynchronizing)).(seen := {});
    ShakeExact(x, d, inbox, id, false);
    if Welcomes(x, d, inbox, id) { ShakeStarts(x, d, inbox, id, false); }
  }

  /** Without a connection a new start is a new connection. */
  lemma ResynchronizeReconnects(x: Expected, c: Client, inbox: seq<Read>, outbox: seq<Sent>, opening: Opening, id: Text,
                                w: Writing)
    requires Valid(c) && !c.open
    ensures var r := Resynchronize(x, c, inbox, outbox, opening, id, w);
      r.outcome.Ok? <==> Connects(x, c, opening, id, w)
    ensures w.Refused? ==> Resynchronize(x, c, inbox, outbox, opening, id, w).outbox == outbox
  {
    ConnectExact(x, c, inbox, outbox, opening, id, w);
  }

  // ---------------------------------------------------------------- snapshots

  /**
   * A snapshot call succeeds exactly when the client is synchronized, the request is written, and heartbeats in order
   * and then the snapshot for this very request come first; that snapshot is returned, and nothing after it is read.
   */
  lemma RequestExact(x: Expected, c: Client, inbox: seq<Read>, outbox: seq<Sent>, id: Text, w: Writing)
    requires Valid(c)
    ensures var r := RequestSnapshot(x, c, inbox, outbox, id, w);
      && (r.outcome.Ok? <==>
            c.mode.Synchronized? && w.Written? && exists k: nat :: Delivers(x, Counted(c), inbox, id, k))
      && (forall k: nat :: c.mode.Synchronized? && w.Written? && Delivers(x, Counted(c), inbox, id, k) ==>
            r.outcome == Ok(inbox[k].message) && r.inbox == inbox[k + 1..])
      && (c.mode.Synchronized? ==>
            r.client.mode.Synchronized? && r.client.capabilities == c.capabilities && r.client.outgoing == c.outgoing + 1)
  {
    if c.mode.Synchronized? {
      AwaitExact(x, Counted(c), inbox, id);
      AwaitKeeps(x, Counted(c), inbox, id);
    }
  }

  /** After heartbeats in order, the first other message decides how a snapshot call fails. */
  lemma {:induction false} AwaitFails(x: Expected, c: Client, inbox: seq<Read>, id: Text, k: nat)
    requires Based(c) && k < |inbox| && forall n :: 0 <= n <= k ==> Continues(x, c, inbox, n)
    requires (forall n :: 0 <= n < k ==> IsBeat(inbox[n])) && inbox[k].Arrived? && !IsBeat(inbox[k])
    ensures var o, m := Await(x, c, inbox, id).outcome, inbox[k].message;
      && (o == Fail(WrongCorrelation) <==> m.content.SnapshotOf? && m.correlation != Some(id))
      && (o == Fail(Mismatch) <==> m.content.SnapshotOf? && m.correlation == Some(id) && m.content.meta != m.meta)
      && (o == Fail(Unexpected) <==> !m.content.SnapshotOf? && !m.content.Failure?)
      && (m.content.Failure? <==> o.Fail? && o.error.Reported?)
      && (m.content.Failure? ==> o == Fail(Reported(m.content.code)))
    decreases k
  {
    ReceiveBased(x, c, inbox);
    assert Continues(x, c, inbox, 0);
    if k > 0 {
      assert IsBeat(inbox[0]);
      var d := Noted(c, inbox[0].message, false);
      forall n | 0 <= n <= k - 1 ensures Continues(x, d, inbox[1..], n) { ContinuesShift(x, c, inbox, n + 1); }
      forall n | 0 <= n < k - 1 ensures IsBeat(inbox[1..][n]) { assert inbox[1..][n] == inbox[n + 1]; }
      AwaitFails(x, d, inbox[1..], id, k - 1);
    }
  }

  /** And if the heartbeats are followed by a read that brings nothing, that is the error. */
  lemma {:induction false} AwaitEnds(x: Expected, c: Client, inbox: seq<Read>, id: Text, k: nat)
    requires Based(c) && k <= |inbox| && forall n :: 0 <= n < k ==> Continues(x, c, inbox, n) && IsBeat(inbox[n])
    requires k < |inbox| ==> !inbox[k].Arrived?
    ensures var o := Await(x, c, inbox, id).outcome;
      o == if k == |inbox| then Fail(Error.Timeout)
        else Fail(if inbox[k].Unreadable? then Malformed else if inbox[k].BadLength? then BadSize
                  else if inbox[k].TimedOut? then Error.Timeout else Disconnected)
    decreases k
  {
    if k > 0 {
      ReceiveBased(x, c, inbox);
      assert Continues(x, c, inbox, 0) && IsBeat(inbox[0]);
      var d := Noted(c, inbox[0].message, false);
      forall n | 0 <= n < k - 1 ensures Continues(x, d, inbox[1..], n) && IsBeat(inbox[1..][n]) {
        ContinuesShift(x, c, inbox, n + 1);
        assert inbox[1..][n] == inbox[n + 1];
      }
      AwaitEnds(x, d, inbox[1..], id, k - 1);
    }
  }
}
