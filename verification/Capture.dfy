/** The hand-over of captures to the main thread: a slot for one request, callers that wait, a pump and a disposer. */
module Capture {
  import opened Texts

  /** A state read on the main thread: for which request, and when. */
  datatype Captured = Captured(request: nat, at: nat)

  datatype Result = Busy | TimedOut | Failed | Nothing | Returned(state: Captured)

  /** Where a caller stands in `Capture`; every shared access is a step of its own. */
  datatype Stage = Posting | Waiting | Expired | Withdrawing | Woken | Finished(result: Result)

  /**
   * A request, its completion event (`completed`, and `live` until it is disposed), and when it was posted and
   * removed.
   */
  datatype Request = Request(
    stage: Stage, posted: Option<nat>, removed: bool, cancelled: bool, error: bool, snapshot: Option<Captured>,
    completed: bool, live: bool)

  /** The main thread between frames, holding a request, past the check of its cancellation, or about to signal it. */
  datatype Pump = Resting | Holding(r: nat) | Reading(r: nat) | Signalling(r: nat)

  /** `faults` counts the signals that met a disposed event. */
  datatype Provider = Provider(
    requests: seq<Request>, pending: Option<nat>, disposed: bool, pump: Pump, clock: nat, faults: nat)

  datatype Event =
    | Call                     // a background thread enters and is not turned away
    | Post(r: nat)             // the locked check of the slot
    | Expire(r: nat)           // WaitOne gives up
    | Cancel(r: nat)           // Cancelled = true
    | Withdraw(r: nat)         // the locked removal of the caller's own request
    | Wake(r: nat)             // WaitOne succeeds
    | Return(r: nat)           // the outcome is read
    | TakeUp                   // the pump empties the slot
    | Check                    // the pump looks at Cancelled
    | Read(fails: bool)        // the pump reads the game, or fails
    | Signal                   // the pump sets the event
    | Flag                     // Dispose sets its flag
    | Drain                    // Dispose fails the pending request under the lock

  function Initial(): Provider { Provider([], None, false, Resting, 0, 0) }

  predicate At(p: Provider, r: nat, stage: Stage) { r < |p.requests| && p.requests[r].stage == stage }

  predicate Enabled(p: Provider, e: Event) {
    match e
    case Call => !p.disposed
    case Post(r) => At(p, r, Posting)
    case Expire(r) => At(p, r, Waiting) && !p.requests[r].completed
    case Cancel(r) => At(p, r, Expired)
    case Withdraw(r) => At(p, r, Withdrawing)
    case Wake(r) => At(p, r, Waiting) && p.requests[r].completed
    case Return(r) => At(p, r, Woken)
    case TakeUp => p.pump.Resting?
    case Check => p.pump.Holding? && p.pump.r < |p.requests|
    case Read(_) => p.pump.Reading? && p.pump.r < |p.requests|
    case Signal => p.pump.Signalling? && p.pump.r < |p.requests|
    case Flag => true
    case Drain => p.disposed && (p.pending.Some? ==> p.pending.value < |p.requests|)
  }

  function Put(p: Provider, r: nat, q: Request): Provider
    requires r < |p.requests|
  {
    p.(requests := p.requests[r := q])
  }

  /** Leaving the `using` block disposes the event. */
  function Leave(q: Request, result: Result): Request { q.(stage := Finished(result), live := false) }

  function Removed(p: Provider, r: nat): Provider {
    if r < |p.requests| then Put(p, r, p.requests[r].(removed := true)) else p
  }

  function Act(p: Provider, e: Event): Provider
    requires Enabled(p, e)
  {
    match e
    case Call => p.(requests := p.requests + [Request(Posting, None, false, false, false, None, false, true)])
    case Post(r) =>
      var q := p.requests[r];
      if p.pending.Some? then Put(p, r, Leave(q, Busy))
      else Put(p, r, q.(stage := Waiting, posted := Some(p.clock))).(pending := Some(r))
    case Expire(r) => Put(p, r, p.requests[r].(stage := Expired))
    case Cancel(r) => Put(p, r, p.requests[r].(stage := Withdrawing, cancelled := true))
    case Withdraw(r) =>
      var own := p.pending == Some(r);
      var q := Leave(p.requests[r], TimedOut);
      if own then Put(p, r, q.(removed := true)).(pending := None) else Put(p, r, q)
    case Wake(r) => Put(p, r, p.requests[r].(stage := Woken))
    case Return(r) =>
      var q := p.requests[r];
      Put(p, r, Leave(q, if q.error then Failed else if q.snapshot.None? then Nothing else Returned(q.snapshot.value)))
    case TakeUp =>
      if p.pending.None? then p
      else Removed(p, p.pending.value).(pending := None, pump := Holding(p.pending.value))
    case Check => p.(pump := if p.requests[p.pump.r].cancelled then Resting else Reading(p.pump.r))
    case Read(fails) =>
      var q := p.requests[p.pump.r];
      var done := if p.disposed || fails then q.(error := true) else q.(snapshot := Some(Captured(p.pump.r, p.clock)));
      Put(p, p.pump.r, done).(pump := Signalling(p.pump.r))
    case Signal =>
      var q := p.requests[p.pump.r];
      if q.live then Put(p, p.pump.r, q.(completed := true)).(pump := Resting)
      else p.(pump := Resting, faults := p.faults + 1)
    case Flag => p.(disposed := true)
    case Drain =>
      if p.pending.None? then p
      else
        var q := p.requests[p.pending.value];
        Put(p, p.pending.value, q.(error := true, completed := true, removed := true)).(pending := None)
  }

  /** Time passes with every step. */
  function Do(p: Provider, e: Event): Provider
    requires Enabled(p, e)
  {
    var q := Act(p, e);
    q.(clock := p.clock + 1)
  }

  // ---------------------------------------------------------------- the invariant

  /** The pump has taken request `r` and has not signalled it yet. */
  predicate Held(p: Provider, r: nat) { !p.pump.Resting? && p.pump.r == r }

  /** What holds of one request. */
  predicate Sound(p: Provider, r: nat)
    requires r < |p.requests|
  {
    var q := p.requests[r];
    && (q.stage.Posting? ==> q.posted.None?)
    && (q.stage == Finished(Busy) ==> q.posted.None?)
    && (q.posted.None? ==> q.stage.Posting? || q.stage == Finished(Busy))
    && (q.posted.None? ==> !q.removed && !q.completed && q.snapshot.None?)
    && (p.pending == Some(r) <==> q.posted.Some? && !q.removed)
    && (q.live <==> !q.stage.Finished?)
    && (q.cancelled ==> q.stage.Withdrawing? || q.stage == Finished(TimedOut))
    && (q.stage == Finished(TimedOut) ==> q.removed)
    && (Held(p, r) ==> q.removed && !q.completed)
    && (p.pump == Signalling(r) ==> q.error || q.snapshot.Some?)
    && (Held(p, r) && !p.pump.Signalling? ==> q.snapshot.None? && !q.error)
    && (!q.removed ==> !q.error) && (q.error ==> q.snapshot.None?)
    && (q.stage.Finished? && q.stage.result.Returned? ==> !q.error) && (q.stage == Finished(Failed) ==> q.error)
    && (q.completed ==> q.removed && (q.error || q.snapshot.Some?))
    && (q.stage.Woken? || q.stage == Finished(Failed) || (q.stage.Finished? && q.stage.result.Returned?) ==>
          q.completed)
    && (q.snapshot.Some? ==>
          q.removed && q.posted.Some? && q.snapshot.value.request == r && q.posted.value < q.snapshot.value.at)
    && (q.posted.Some? ==> q.posted.value < p.clock)
    && q.stage != Finished(Nothing)
    && (q.stage.Finished? && q.stage.result.Returned? ==> q.snapshot == Some(q.stage.result.state))
  }

  ghost predicate Inv(p: Provider) {
    && (p.pending.Some? ==> p.pending.value < |p.requests|)
    && (!p.pump.Resting? ==> p.pump.r < |p.requests|)
    && forall r :: 0 <= r < |p.requests| ==> Sound(p, r)
  }
}
