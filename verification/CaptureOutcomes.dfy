/** How a capture ends, told from the whole run: which caller gets a state, and what every failure means. */
module CaptureOutcomes {
  import opened Texts
  import opened Capture
  import opened CaptureProofs

  // ---------------------------------------------------------------- what can happen to a request

  /** The main thread reads the game for request `r`, before the provider is disposed. */
  predicate ReadsWell(p: Provider, e: Event, r: nat) { p.pump == Reading(r) && e == Read(false) && !p.disposed }

  /** The main thread fails for request `r`, or comes too late for it. */
  predicate ReadsBadly(p: Provider, e: Event, r: nat) { p.pump == Reading(r) && e.Read? && (e.fails || p.disposed) }

  /** The disposer finds request `r` in the slot. */
  predicate Drains(p: Provider, e: Event, r: nat) { e == Drain && p.pending == Some(r) }

  /** Request `r` finds the slot taken. */
  predicate FindsTaken(p: Provider, e: Event, r: nat) { e == Post(r) && p.pending.Some? }

  predicate HasGivenUp(q: Request) { q.stage.Expired? || q.stage.Withdrawing? || q.stage == Finished(TimedOut) }

  lemma CallerTells(p: Provider, e: Event, r: nat)
    requires Inv(p) && Enabled(p, e) && r < |p.requests|
    requires !e.TakeUp? && !e.Check? && !e.Read? && !e.Signal? && !e.Drain?
    ensures r < |Do(p, e).requests|
    ensures var q, t := p.requests[r], Do(p, e).requests[r];
      && t.snapshot == q.snapshot && t.error == q.error
      && (HasGivenUp(t) <==> HasGivenUp(q) || e == Expire(r))
      && (t.stage == Finished(Busy) <==> q.stage == Finished(Busy) || FindsTaken(p, e, r))
  {
    assert Sound(p, r);
  }

  lemma PumpTells(p: Provider, e: Event, r: nat)
    requires Inv(p) && Enabled(p, e) && r < |p.requests|
    requires e.TakeUp? || e.Check? || e.Read? || e.Signal? || e.Drain?
    ensures r < |Do(p, e).requests|
    ensures var q, t := p.requests[r], Do(p, e).requests[r];
      && t.stage == q.stage
      && t.snapshot == (if ReadsWell(p, e, r) then Some(Captured(r, p.clock)) else q.snapshot)
      && t.error == (q.error || ReadsBadly(p, e, r) || Drains(p, e, r))
  {
  }

  /** One step changes a request by these events and no others. */
  lemma StepTells(p: Provider, e: Event, r: nat)
    requires Inv(p) && Enabled(p, e) && r < |p.requests|
    ensures r < |Do(p, e).requests|
    ensures var q, t := p.requests[r], Do(p, e).requests[r];
      && t.snapshot == (if ReadsWell(p, e, r) then Some(Captured(r, p.clock)) else q.snapshot)
      && t.error == (q.error || ReadsBadly(p, e, r) || Drains(p, e, r))
      && (HasGivenUp(t) <==> HasGivenUp(q) || e == Expire(r))
      && (t.stage == Finished(Busy) <==> q.stage == Finished(Busy) || FindsTaken(p, e, r))
  {
    if e.TakeUp? || e.Check? || e.Read? || e.Signal? || e.Drain? {
      PumpTells(p, e, r);
    } else {
      CallerTells(p, e, r);
    }
  }

  /** A request that enters has met nothing yet. */
  lemma CallTells(p: Provider, e: Event)
    requires Inv(p) && Enabled(p, e)
    ensures |p.requests| <= |Do(p, e).requests| <= |p.requests| + 1
    ensures |Do(p, e).requests| == |p.requests| + 1 ==>
      var r := |p.requests|;
      && Do(p, e).requests[r].stage.Posting? && Do(p, e).requests[r].snapshot.None? && !Do(p, e).requests[r].error
      && !ReadsWell(p, e, r) && !ReadsBadly(p, e, r) && !Drains(p, e, r) && !FindsTaken(p, e, r) && e != Expire(r)
  {
  }

  // ---------------------------------------------------------------- whole runs

  /** In the run, the `i`th event meets the condition in the state before it. */
  ghost predicate Happens(events: seq<Event>, i: nat, meets: (Provider, Event) -> bool) {
    i < |events| && After(events[..i]).Some? && meets(After(events[..i]).value, events[i])
  }

  function WellRead(r: nat): (Provider, Event) -> bool { (p, e) => ReadsWell(p, e, r) }
  function Lost(r: nat): (Provider, Event) -> bool { (p, e) => ReadsBadly(p, e, r) || Drains(p, e, r) }
  function Taken(r: nat): (Provider, Event) -> bool { (p, e) => FindsTaken(p, e, r) }
  function Expired(r: nat): (Provider, Event) -> bool { (p, e) => e == Expire(r) }

  ghost predicate Sometime(events: seq<Event>, meets: (Provider, Event) -> bool) {
    exists i: nat :: Happens(events, i, meets)
  }

  lemma HappensBefore(events: seq<Event>, i: nat, meets: (Provider, Event) -> bool)
    requires i + 1 < |events|
    ensures Happens(events[..|events| - 1], i, meets) <==> Happens(events, i, meets)
  {
    assert events[..|events| - 1][..i] == events[..i];
  }

  lemma SometimeSplits(events: seq<Event>, meets: (Provider, Event) -> bool)
    requires events != [] && After(events).Some?
    ensures var before, e := events[..|events| - 1], events[|events| - 1];
      After(before).Some?
      && (Sometime(events, meets) <==> Sometime(before, meets) || meets(After(before).value, e))
  {
    var n := |events| - 1;
    if i: nat :| Happens(events, i, meets) {
      if i < n { HappensBefore(events, i, meets); }
    }
    if i: nat :| Happens(events[..n], i, meets) {
      HappensBefore(events, i, meets);
    }
    if meets(After(events[..n]).value, events[n]) {
      assert Happens(events, n, meets);
    }
  }

  lemma AllSplit(events: seq<Event>, r: nat)
    requires events != [] && After(events).Some?
    ensures var before, e := events[..|events| - 1], events[|events| - 1];
      After(before).Some?
      && (Sometime(events, WellRead(r)) <==> Sometime(before, WellRead(r)) || ReadsWell(After(before).value, e, r))
      && (Sometime(events, Lost(r)) <==>
            Sometime(before, Lost(r)) || ReadsBadly(After(before).value, e, r) || Drains(After(before).value, e, r))
      && (Sometime(events, Taken(r)) <==> Sometime(before, Taken(r)) || FindsTaken(After(before).value, e, r))
      && (Sometime(events, Expired(r)) <==> Sometime(before, Expired(r)) || e == Expire(r))
  {
    SometimeSplits(events, WellRead(r));
    SometimeSplits(events, Lost(r));
    SometimeSplits(events, Taken(r));
    SometimeSplits(events, Expired(r));
  }

  /** The clock counts the events. */
  lemma {:induction false} ClockCounts(events: seq<Event>)
    requires After(events).Some?
    ensures After(events).value.clock == |events|
  {
    if events != [] { ClockCounts(events[..|events| - 1]); }
  }

  /** No event concerns a request that has not entered. */
  lemma {:induction false} NothingEarly(events: seq<Event>, r: nat)
    requires After(events).Some? && r >= |After(events).value.requests|
    ensures !Sometime(events, WellRead(r)) && !Sometime(events, Lost(r)) && !Sometime(events, Taken(r))
    ensures !Sometime(events, Expired(r))
  {
    if events != [] {
      var before, e := events[..|events| - 1], events[|events| - 1];
      RunInv(before);
      CallTells(After(before).value, e);
      NothingEarly(before, r);
      AllSplit(events, r);
    }
  }

  /** What a request shows is what has happened to it. */
  ghost predicate Shows(events: seq<Event>, r: nat, q: Request) {
    && (q.snapshot.Some? <==> Sometime(events, WellRead(r))) && (q.error <==> Sometime(events, Lost(r)))
    && (HasGivenUp(q) <==> Sometime(events, Expired(r)))
    && (q.stage == Finished(Busy) <==> Sometime(events, Taken(r)))
  }

  lemma ShowsNext(events: seq<Event>, r: nat)
    requires events != [] && After(events).Some? && After(events[..|events| - 1]).Some?
    requires r < |After(events[..|events| - 1]).value.requests|
    requires Shows(events[..|events| - 1], r, After(events[..|events| - 1]).value.requests[r])
    ensures r < |After(events).value.requests| && Shows(events, r, After(events).value.requests[r])
  {
    RunInv(events[..|events| - 1]);
    AllSplit(events, r);
    StepTells(After(events[..|events| - 1]).value, events[|events| - 1], r);
  }

  lemma ShowsFirst(events: seq<Event>, r: nat)
    requires events != [] && After(events).Some? && After(events[..|events| - 1]).Some?
    requires |After(events[..|events| - 1]).value.requests| <= r < |After(events).value.requests|
    ensures Shows(events, r, After(events).value.requests[r])
  {
    NothingYet(events, r);
    RunInv(events[..|events| - 1]);
    CallTells(After(events[..|events| - 1]).value, events[|events| - 1]);
  }

  lemma NothingYet(events: seq<Event>, r: nat)
    requires events != [] && After(events).Some? && After(events[..|events| - 1]).Some?
    requires |After(events[..|events| - 1]).value.requests| <= r < |After(events).value.requests|
    ensures !Sometime(events, WellRead(r)) && !Sometime(events, Lost(r)) && !Sometime(events, Taken(r))
    ensures !Sometime(events, Expired(r))
  {
    RunInv(events[..|events| - 1]);
    AllSplit(events, r);
    NothingEarly(events[..|events| - 1], r);
    CallTells(After(events[..|events| - 1]).value, events[|events| - 1]);
  }

  lemma {:induction false} HistoryTells(events: seq<Event>, r: nat)
    requires After(events).Some? && r < |After(events).value.requests|
    ensures Shows(events, r, After(events).value.requests[r])
    decreases |events|
  {
    if events == [] {
    } else if r < |After(events[..|events| - 1]).value.requests| {
      HistoryTells(events[..|events| - 1], r);
      ShowsNext(events, r);
    } else {
      ShowsFirst(events, r);
    }
  }

  /** A snapshot is the state read at one moment of the run. */
  lemma {:induction false} SnapshotMoment(events: seq<Event>, r: nat)
    requires After(events).Some? && r < |After(events).value.requests|
    ensures var q := After(events).value.requests[r];
      forall i: nat :: Happens(events, i, WellRead(r)) ==> q.snapshot == Some(Captured(r, i))
    decreases |events|
  {
    if events != [] {
      var before, e := events[..|events| - 1], events[|events| - 1];
      var p := After(before).value;
      RunInv(before);
      ClockCounts(before);
      if r < |p.requests| {
        SnapshotMoment(before, r);
        StepTells(p, e, r);
        ReadOnce(before, r, e);
      } else {
        NothingEarly(before, r);
        CallTells(p, e);
      }
      forall i: nat | Happens(events, i, WellRead(r)) ensures After(events).value.requests[r].snapshot == Some(Captured(r, i)) {
        if i < |before| {
          assert before[..i] == events[..i];
          assert Happens(before, i, WellRead(r));
        } else {
          assert events[..i] == before;
        }
      }
    }
  }

  /** A request whose state has been read is not read again. */
  lemma ReadOnce(events: seq<Event>, r: nat, e: Event)
    requires After(events).Some? && Enabled(After(events).value, e) && r < |After(events).value.requests|
    ensures Sometime(events, WellRead(r)) ==> !ReadsWell(After(events).value, e, r)
  {
    RunInv(events);
    HistoryTells(events, r);
    assert Sound(After(events).value, r);
  }

  /**
   * How a finished call has ended. It was busy exactly when it found the slot taken, and timed out exactly when it gave
   * up waiting. Of the others it failed exactly when the main thread failed for it or came after the disposal, or the
   * disposer found it in the slot; and it returned a state exactly when the main thread read one for it before the
   * disposal, and then it returned that one.
   */
  lemma CallOutcome(events: seq<Event>, r: nat)
    requires After(events).Some? && r < |After(events).value.requests| && After(events).value.requests[r].stage.Finished?
    ensures var result := After(events).value.requests[r].stage.result;
      && (result.Busy? <==> Sometime(events, Taken(r)))
      && (result.TimedOut? <==> Sometime(events, Expired(r)))
      && (result.Failed? <==> !Sometime(events, Expired(r)) && Sometime(events, Lost(r)))
      && (result.Returned? <==> !Sometime(events, Expired(r)) && Sometime(events, WellRead(r)))
      && !result.Nothing?
      && (forall i: nat :: result.Returned? && Happens(events, i, WellRead(r)) ==> result.state == Captured(r, i))
  {
    RunInv(events);
    HistoryTells(events, r);
    SnapshotMoment(events, r);
    assert Sound(After(events).value, r);
  }

  // ---------------------------------------------------------------- a capture that succeeds

  /** From a posted request on, nothing but the pump and its caller is needed for the state to be returned. */
  lemma CaptureSucceeds(p: Provider, r: nat)
    requires Inv(p) && p.pending == Some(r) && p.requests[r].stage.Waiting? && p.pump.Resting? && !p.disposed
    ensures Enabled(p, TakeUp) && Enabled(Do(p, TakeUp), Check)
    ensures var held := Do(Do(p, TakeUp), Check);
      && Enabled(held, Read(false)) && Enabled(Do(held, Read(false)), Signal)
      && var told := Do(Do(held, Read(false)), Signal);
         && Enabled(told, Wake(r)) && Enabled(Do(told, Wake(r)), Return(r))
         && Do(Do(told, Wake(r)), Return(r)).requests[r].stage == Finished(Returned(Captured(r, p.clock + 2)))
  {
    assert Sound(p, r);
  }

  /** A request its caller has given up before the pump looks at it is not read. */
  lemma GivenUpNotRead(p: Provider, r: nat, fails: bool)
    requires Inv(p) && p.pump == Holding(r) && p.requests[r].cancelled
    ensures Enabled(p, Check) && !Enabled(Do(p, Check), Read(fails)) && Do(p, Check).requests == p.requests
  {
    assert Sound(p, r);
  }

  /** And a request is posted by any caller that finds the slot free. */
  lemma PostSucceeds(p: Provider, r: nat)
    requires Inv(p) && Enabled(p, Post(r)) && p.pending.None?
    ensures Do(p, Post(r)).pending == Some(r) && Do(p, Post(r)).requests[r].stage.Waiting?
  {
  }
}
