/** What the capture hand-over keeps in every interleaving, and the provider whose methods are its steps. */
module CaptureProofs {
  import opened Texts
  import opened Capture

  /** Steps of a caller touch no other request. */
  lemma OthersKept(p: Provider, e: Event, r: nat, s: nat)
    requires Inv(p) && Enabled(p, e) && r != s && s < |p.requests|
    requires e == Post(r) || e == Expire(r) || e == Cancel(r) || e == Withdraw(r) || e == Wake(r) || e == Return(r)
    ensures Do(p, e).requests[s] == p.requests[s] && Do(p, e).pump == p.pump
    ensures Do(p, e).pending == Some(s) <==> p.pending == Some(s)
  {
    assert Sound(p, r) && Sound(p, s);
  }

  lemma CallerStep(p: Provider, e: Event, r: nat)
    requires Inv(p) && Enabled(p, e)
    requires e == Post(r) || e == Expire(r) || e == Cancel(r) || e == Withdraw(r) || e == Wake(r) || e == Return(r)
    ensures r < |Do(p, e).requests| && Sound(Do(p, e), r)
  {
    assert Sound(p, r);
    if p.pending.Some? { assert Sound(p, p.pending.value); }
  }

  lemma CallerKeeps(p: Provider, e: Event, r: nat)
    requires Inv(p) && Enabled(p, e)
    requires e == Post(r) || e == Expire(r) || e == Cancel(r) || e == Withdraw(r) || e == Wake(r) || e == Return(r)
    ensures Inv(Do(p, e))
  {
    forall s | 0 <= s < |p.requests| ensures Sound(Do(p, e), s) {
      if s == r { CallerStep(p, e, r); } else { OthersKept(p, e, r, s); assert Sound(p, s); }
    }
  }

  lemma TakeUpKeeps(p: Provider)
    requires Inv(p) && Enabled(p, TakeUp)
    ensures Inv(Do(p, TakeUp))
  {
    forall s | 0 <= s < |p.requests| ensures Sound(Do(p, TakeUp), s) { assert Sound(p, s); }
  }

  lemma CheckKeeps(p: Provider)
    requires Inv(p) && Enabled(p, Check)
    ensures Inv(Do(p, Check))
  {
    forall s | 0 <= s < |p.requests| ensures Sound(Do(p, Check), s) { assert Sound(p, s); }
  }

  lemma ReadSound(p: Provider, fails: bool)
    requires Inv(p) && Enabled(p, Read(fails))
    ensures Sound(Do(p, Read(fails)), p.pump.r)
  {
    assert Sound(p, p.pump.r);
  }

  lemma ReadKeeps(p: Provider, fails: bool)
    requires Inv(p) && Enabled(p, Read(fails))
    ensures Inv(Do(p, Read(fails)))
  {
    forall s | 0 <= s < |p.requests| ensures Sound(Do(p, Read(fails)), s) {
      if s == p.pump.r { ReadSound(p, fails); } else { assert Sound(p, s); }
    }
  }

  lemma SignalKeeps(p: Provider)
    requires Inv(p) && Enabled(p, Signal)
    ensures Inv(Do(p, Signal))
  {
    forall s | 0 <= s < |p.requests| ensures Sound(Do(p, Signal), s) { assert Sound(p, s); }
  }

  lemma OtherKeeps(p: Provider, e: Event)
    requires Inv(p) && Enabled(p, e) && (e.Call? || e.Flag? || e.Drain?)
    ensures Inv(Do(p, e))
  {
    forall s | 0 <= s < |Do(p, e).requests| ensures Sound(Do(p, e), s) {
      if s < |p.requests| { assert Sound(p, s); }
    }
  }

  lemma StepKeeps(p: Provider, e: Event)
    requires Inv(p) && Enabled(p, e)
    ensures Inv(Do(p, e))
  {
    match e {
      case Post(r) => CallerKeeps(p, e, r);
      case Expire(r) => CallerKeeps(p, e, r);
      case Cancel(r) => CallerKeeps(p, e, r);
      case Withdraw(r) => CallerKeeps(p, e, r);
      case Wake(r) => CallerKeeps(p, e, r);
      case Return(r) => CallerKeeps(p, e, r);
      case TakeUp => TakeUpKeeps(p);
      case Check => CheckKeeps(p);
      case Read(fails) => ReadKeeps(p, fails);
      case Signal => SignalKeeps(p);
      case _ => OtherKeeps(p, e);
    }
  }

  // ---------------------------------------------------------------- runs

  function After(events: seq<Event>): Option<Provider> {
    if events == [] then Some(Initial())
    else
      var before := After(events[..|events| - 1]);
      var e := events[|events| - 1];
      if before.Some? && Enabled(before.value, e) then Some(Do(before.value, e)) else None
  }

  lemma {:induction false} RunInv(events: seq<Event>)
    requires After(events).Some?
    ensures Inv(After(events).value)
  {
    if events != [] {
      RunInv(events[..|events| - 1]);
      StepKeeps(After(events[..|events| - 1]).value, events[|events| - 1]);
    }
  }

  predicate Outstanding(q: Request) { q.posted.Some? && !q.removed }

  /** At most one request is in the slot, in every interleaving. */
  lemma OnePending(events: seq<Event>, r: nat, s: nat)
    requires After(events).Some?
    requires r < |After(events).value.requests| && s < |After(events).value.requests|
    requires Outstanding(After(events).value.requests[r]) && Outstanding(After(events).value.requests[s])
    ensures r == s && After(events).value.pending == Some(r)
  {
    RunInv(events);
    assert Sound(After(events).value, r) && Sound(After(events).value, s);
  }

  /**
   * A snapshot that a caller returns was read by the main thread for that very request, after it was posted; and no
   * caller ever returns without a snapshot and without an error.
   */
  lemma ReturnedIsOwn(events: seq<Event>, r: nat)
    requires After(events).Some? && r < |After(events).value.requests|
    ensures var q := After(events).value.requests[r];
      && q.stage != Finished(Nothing)
      && (q.stage.Finished? && q.stage.result.Returned? ==>
            q.stage.result.state.request == r && q.posted.Some? && q.posted.value < q.stage.result.state.at)
  {
    RunInv(events);
    assert Sound(After(events).value, r);
  }

  /** A request leaves the slot once and for all: it never becomes outstanding again. */
  lemma RemovedOnce(events: seq<Event>, e: Event, r: nat)
    requires After(events).Some? && Enabled(After(events).value, e) && r < |After(events).value.requests|
    requires After(events).value.requests[r].removed
    ensures var q := Do(After(events).value, e);
      r < |q.requests| && q.requests[r].removed && q.pending != Some(r)
  {
    var p := After(events).value;
    RunInv(events);
    StillRemoved(p, e, r);
    StepKeeps(p, e);
    assert Sound(Do(p, e), r);
  }

  lemma StillRemoved(p: Provider, e: Event, r: nat)
    requires Enabled(p, e) && r < |p.requests| && p.requests[r].removed
    ensures r < |Do(p, e).requests| && Do(p, e).requests[r].removed
  {
  }

  /** A caller that timed out empties the slot only of its own request. */
  lemma WithdrawsOwn(events: seq<Event>, r: nat)
    requires After(events).Some? && Enabled(After(events).value, Withdraw(r))
    ensures var p := After(events).value;
      var q := Do(p, Withdraw(r));
      && q.pending == (if p.pending == Some(r) then None else p.pending)
      && q.requests[r].removed
      && forall s :: 0 <= s < |p.requests| && s != r ==> q.requests[s] == p.requests[s]
  {
    RunInv(events);
    assert Sound(After(events).value, r);
    StepKeeps(After(events).value, Withdraw(r));
    assert Sound(Do(After(events).value, Withdraw(r)), r);
  }

  /** The disposer signals only live events; the pump meets a disposed one only if that caller has timed out. */
  lemma SignalsExact(events: seq<Event>)
    requires After(events).Some?
    ensures var p := After(events).value;
      && (p.pending.Some? ==> p.pending.value < |p.requests| && p.requests[p.pending.value].live)
      && (p.pump.Signalling? ==> p.pump.r < |p.requests|)
      && (p.pump.Signalling? ==> (!p.requests[p.pump.r].live <==> p.requests[p.pump.r].stage == Finished(TimedOut)))
  {
    RunInv(events);
    var p := After(events).value;
    if p.pending.Some? { assert Sound(p, p.pending.value); }
    if !p.pump.Resting? { assert Sound(p, p.pump.r); }
  }

  /** From any state in which the main thread reads the game for a caller that still waits, it can happen. */
  lemma PumpCanMeetDisposedEvent(p: Provider, r: nat)
    requires p.pump == Reading(r) && r < |p.requests| && p.requests[r].stage.Waiting? && !p.requests[r].completed
    ensures Enabled(p, Expire(r)) && Enabled(Do(p, Expire(r)), Cancel(r))
    ensures var c := Do(Do(p, Expire(r)), Cancel(r));
      && Enabled(c, Withdraw(r)) && Enabled(Do(c, Withdraw(r)), Read(false))
      && Enabled(Do(Do(c, Withdraw(r)), Read(false)), Signal)
      && Do(Do(Do(c, Withdraw(r)), Read(false)), Signal).faults == p.faults + 1
  {
  }

  /** And such a state is reached by a single caller. */
  lemma ReadingReached()
    ensures var run := [Call, Post(0), TakeUp, Check];
      && After(run).Some? && After(run).value.pump == Reading(0) && |After(run).value.requests| == 1
      && After(run).value.requests[0].stage.Waiting? && !After(run).value.requests[0].completed
  {
    var p0 := Do(Initial(), Call);
    var p1 := Do(p0, Post(0));
    var p2 := Do(p1, TakeUp);
    Extend([], Call);
    Extend([] + [Call], Post(0));
    Extend([] + [Call] + [Post(0)], TakeUp);
    assert p2.pump == Holding(0) && !p2.requests[0].cancelled;
    Extend([] + [Call] + [Post(0)] + [TakeUp], Check);
    assert [] + [Call] + [Post(0)] + [TakeUp] + [Check] == [Call, Post(0), TakeUp, Check];
  }

  lemma Extend(events: seq<Event>, e: Event)
    requires After(events).Some? && Enabled(After(events).value, e)
    ensures After(events + [e]) == Some(Do(After(events).value, e))
  {
    assert (events + [e])[..|events + [e]| - 1] == events;
  }

  // ---------------------------------------------------------------- the provider as it runs

  /** The provider's fields; each method is one locked section or one access to a request, run by one of the threads. */
  class StateProvider {
    var requests: seq<Request>
    var pending: Option<nat>
    var disposed: bool
    var pump: Pump
    /** Ticks with every access, and counts signals of disposed events. */
    var clock: nat
    var faults: nat

    function View(): Provider
      reads this
    {
      Provider(requests, pending, disposed, pump, clock, faults)
    }

    constructor ()
      ensures View() == Initial() && Inv(View())
    {
      requests, pending, disposed, pump := [], None, false, Resting;
      clock, faults := 0, 0;
    }

    /** The locked section at the start of `Capture`. */
    method PostRequest(r: nat) returns (posted: bool)
      requires Inv(View()) && Enabled(View(), Post(r))
      modifies this
      ensures View() == Do(old(View()), Post(r)) && Inv(View())
      ensures posted <==> old(pending).None?
    {
      StepKeeps(View(), Post(r));
      clock := clock + 1;
      if pending.Some? {
        requests := requests[r := Leave(requests[r], Busy)];
        return false;
      }
      requests := requests[r := requests[r].(stage := Waiting, posted := Some(clock - 1))];
      pending := Some(r);
      return true;
    }

    /** The locked section after a timeout: the slot is emptied only if it holds the caller's own request. */
    method WithdrawRequest(r: nat)
      requires Inv(View()) && Enabled(View(), Withdraw(r))
      modifies this
      ensures View() == Do(old(View()), Withdraw(r)) && Inv(View())
      ensures old(pending) != Some(r) ==> pending == old(pending)
    {
      StepKeeps(View(), Withdraw(r));
      clock := clock + 1;
      if pending == Some(r) {
        pending := None;
        requests := requests[r := requests[r].(removed := true)];
      }
      requests := requests[r := Leave(requests[r], TimedOut)];
    }

    /** The locked section of the pump. */
    method TakePending() returns (taken: Option<nat>)
      requires Inv(View()) && Enabled(View(), TakeUp)
      modifies this
      ensures View() == Do(old(View()), TakeUp) && Inv(View())
      ensures taken == old(pending) && pending == None
    {
      StepKeeps(View(), TakeUp);
      clock := clock + 1;
      taken := pending;
      if taken.Some? {
        requests := requests[taken.value := requests[taken.value].(removed := true)];
        pump := Holding(taken.value);
        pending := None;
      }
    }

    /** The pump reads the game for the request it holds. */
    method ReadGame(fails: bool)
      requires Inv(View()) && Enabled(View(), Read(fails))
      modifies this
      ensures View() == Do(old(View()), Read(fails)) && Inv(View())
    {
      StepKeeps(View(), Read(fails));
      var r := pump.r;
      if disposed || fails {
        requests := requests[r := requests[r].(error := true)];
      } else {
        requests := requests[r := requests[r].(snapshot := Some(Captured(r, clock)))];
      }
      clock := clock + 1;
      pump := Signalling(r);
    }

    /** The locked section of `Dispose`, after its flag is set. */
    method DrainPending()
      requires Inv(View()) && Enabled(View(), Drain)
      modifies this
      ensures View() == Do(old(View()), Drain) && Inv(View()) && pending == None
    {
      StepKeeps(View(), Drain);
      clock := clock + 1;
      if pending.None? { return; }
      var r := pending.value;
      requests := requests[r := requests[r].(error := true, completed := true, removed := true)];
      pending := None;
    }
  }
}
