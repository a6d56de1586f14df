/** The identity-bound snapshot cache and the locked sequence that drives it. */
module SnapshotCache {
  import opened Texts

  /** A world snapshot as the cache looks at it; times are in seconds. */
  datatype Snapshot = Snapshot(
    complete: bool, world: Text, generation: nat, fingerprint: Text, company: Option<Text>, capturedAt: real, content: Text)

  datatype Identity = Identity(world: Text, generation: nat, fingerprint: Text, company: Text, context: nat)

  datatype Record = Record(storedAt: real, identity: Identity, duration: real, snapshot: Snapshot)

  /** The cache file: missing, not a record, or a record that may still fail strict validation. */
  datatype File = Absent | Garbage | Holds(record: Record)

  datatype Status = Hit | RequiresVerification | Missing | Corrupt | Expired | Incompatible | Incomplete

  /** The answer to a lookup; `Raises` is the refusal of a negative age. */
  datatype Lookup = Lookup(status: Status, snapshot: Option<Snapshot>, age: Option<real>, duration: Option<real>) | Raises

  /** The validator of cache records. */
  predicate Matches(identity: Identity, s: Snapshot) {
    && identity.world == s.world && identity.generation == s.generation && identity.fingerprint == s.fingerprint
    && Some(identity.company) == s.company
  }
  predicate ValidRecord(r: Record) { r.duration >= 0.0 && Matches(r.identity, r.snapshot) }

  /** `_read`. */
  function ReadRecord(f: File): Option<Record> {
    if f.Holds? && ValidRecord(f.record) then Some(f.record) else None
  }

  function Failure(f: File): Lookup { Lookup(if f.Absent? then Missing else Corrupt, None, None, None) }

  function Age(r: Record, now: real): real {
    var age := now - r.snapshot.capturedAt;
    if age < 0.0 then 0.0 else age
  }

  function Smaller(a: real, b: real): real { if b < a then b else a }

  /** `candidate_status`. */
  function CandidateStatus(f: File, ttl: real, maximum: real, now: real): Lookup {
    match ReadRecord(f)
    case None => Failure(f)
    case Some(r) =>
      if !r.snapshot.complete then Lookup(Incomplete, None, Some(Age(r, now)), None)
      else if maximum < 0.0 then Raises
      else if Age(r, now) > Smaller(maximum, ttl) then Lookup(Expired, None, Some(Age(r, now)), None)
      else Lookup(RequiresVerification, None, Some(Age(r, now)), None)
  }

  /** `load`. */
  function Load(f: File, ttl: real, verified: Option<Identity>, maximum: real, now: real): Lookup {
    if verified.None? then Lookup(Incompatible, None, None, None)
    else match ReadRecord(f)
      case None => Failure(f)
      case Some(r) =>
        if !r.snapshot.complete then Lookup(Incomplete, None, Some(Age(r, now)), None)
        else if maximum < 0.0 then Raises
        else if Age(r, now) > Smaller(maximum, ttl) then Lookup(Expired, None, Some(Age(r, now)), None)
        else if r.identity != verified.value then Lookup(Incompatible, None, Some(Age(r, now)), None)
        else Lookup(Hit, Some(r.snapshot), Some(Age(r, now)), Some(r.duration))
  }

  /** `store`: an incomplete snapshot changes nothing; a record that fails validation is refused (`None`). */
  function Store(f: File, s: Snapshot, identity: Identity, duration: real, now: real): Option<File> {
    if !s.complete then Some(f)
    else
      var r := Record(now, identity, duration, s);
      if ValidRecord(r) then Some(Holds(r)) else None
  }

  /**
   * A complete snapshot is refused exactly when it took less than no time or is not of the identity it is stored under;
   * an incomplete one leaves the file alone; any other replaces what was there.
   */
  lemma StoreExact(f: File, s: Snapshot, identity: Identity, duration: real, now: real)
    ensures Store(f, s, identity, duration, now) == None <==>
      s.complete && (duration < 0.0 || s.world != identity.world || s.generation != identity.generation
                     || s.fingerprint != identity.fingerprint || s.company != Some(identity.company))
    ensures !s.complete ==> Store(f, s, identity, duration, now) == Some(f)
    ensures s.complete && Store(f, s, identity, duration, now).Some? ==>
      Store(f, s, identity, duration, now).value == Holds(Record(now, identity, duration, s))
  {
  }

  /**
   * A hit exposes exactly a complete, fresh record whose whole identity was verified; nothing else exposes a
   * snapshot.
   */
  lemma LoadExact(f: File, ttl: real, verified: Option<Identity>, maximum: real, now: real)
    requires maximum >= 0.0
    ensures var l := Load(f, ttl, verified, maximum, now);
      && (l.status == Hit <==>
            && f.Holds? && ValidRecord(f.record) && f.record.snapshot.complete && verified == Some(f.record.identity)
            && now - f.record.snapshot.capturedAt <= maximum && now - f.record.snapshot.capturedAt <= ttl && ttl >= 0.0)
      && (l.snapshot.Some? <==> l.status == Hit)
      && (l.status == Hit ==> l.snapshot == Some(f.record.snapshot) && l.duration == Some(f.record.duration))
  {
  }

  /** What is stored is what is loaded, as long as it is fresh, for the very identity it was stored under. */
  lemma StoreThenLoad(f: File, s: Snapshot, identity: Identity, duration: real, stored: real,
                      ttl: real, maximum: real, now: real)
    requires s.complete && Store(f, s, identity, duration, stored).Some? && maximum >= 0.0
    ensures var g := Store(f, s, identity, duration, stored).value;
      && (Age(g.record, now) <= Smaller(maximum, ttl) ==>
            Load(g, ttl, Some(identity), maximum, now).snapshot == Some(s))
      && (forall other :: other != identity ==> Load(g, ttl, Some(other), maximum, now).snapshot.None?)
  {
  }

  /** With a clock that does not go back an expired record stays expired. */
  lemma ExpiredStays(f: File, ttl: real, maximum: real, now: real, later: real)
    requires now <= later && CandidateStatus(f, ttl, maximum, now) != Raises
    requires CandidateStatus(f, ttl, maximum, now).status == Expired
    ensures var l := CandidateStatus(f, ttl, maximum, later);
      l != Raises && l.status == Expired
    ensures forall verified ::
              Load(f, ttl, verified, maximum, later) != Raises && Load(f, ttl, verified, maximum, later).snapshot.None?
  {
  }

  /** With a clock that goes back it can be served again. */
  lemma ClockBackRevives(r: Record, ttl: real, maximum: real)
    requires ValidRecord(r) && r.snapshot.complete && maximum >= 0.0 && ttl >= 0.0
    ensures exists now, earlier ::
      && earlier < now && CandidateStatus(Holds(r), ttl, maximum, now) != Raises
      && CandidateStatus(Holds(r), ttl, maximum, now).status == Expired
      && Load(Holds(r), ttl, Some(r.identity), maximum, earlier).snapshot == Some(r.snapshot)
  {
    var earlier := r.snapshot.capturedAt;
    var now := earlier + maximum + 1.0;
    assert Age(r, now) == maximum + 1.0 && Age(r, earlier) == 0.0;
    assert CandidateStatus(Holds(r), ttl, maximum, now).status == Expired;
    assert Load(Holds(r), ttl, Some(r.identity), maximum, earlier).snapshot == Some(r.snapshot);
  }

  // ---------------------------------------------------------------- acquisition

  datatype Collected = Collected(snapshot: Snapshot, identity: Identity, duration: real)

  /**
   * One locked acquisition: what was asked, what the clock says at the check, the load and the store, what the live
   * probe and the collection deliver (`None`: they fail), and whether the file is destroyed while the probe runs.
   */
  datatype Acquisition = Acquisition(
    live: bool, refresh: bool, maximum: real, checkedAt: real, loadedAt: real, storedAt: real, probe: Option<Identity>,
    collect: Option<Collected>, destroyed: bool)

  datatype Answer = FromCache(snapshot: Snapshot, probed: Identity) | Collection(snapshot: Snapshot) | Failed

  /** The answer, the file it leaves behind, and the record it wrote, if any. */
  datatype Effect = Effect(answer: Answer, file: File, written: Option<Record>)

  function Damaged(f: File, destroyed: bool): File { if destroyed then Garbage else f }

  function CollectAndStore(f: File, a: Acquisition): Effect {
    if a.collect.None? then Effect(Failed, f, None)
    else
      var c := a.collect.value;
      match Store(f, c.snapshot, c.identity, c.duration, a.storedAt)
      case None => Effect(Failed, f, None)
      case Some(g) =>
        Effect(Collection(c.snapshot), g,
               if c.snapshot.complete then Some(Record(a.storedAt, c.identity, c.duration, c.snapshot)) else None)
  }

  /** The locked part of `_analysis_snapshot`; the age asked for has been checked not to be negative. */
  function Acquire(f: File, ttl: real, a: Acquisition): Effect {
    if a.live || a.refresh || a.maximum == 0.0 then CollectAndStore(f, a)
    else
      var candidate := CandidateStatus(f, ttl, a.maximum, a.checkedAt);
      if candidate == Raises then Effect(Failed, f, None)
      else if candidate.status != RequiresVerification then CollectAndStore(f, a)
      else if a.probe.None? then Effect(Failed, Damaged(f, a.destroyed), None)
      else
        var g := Damaged(f, a.destroyed);
        var l := Load(g, ttl, a.probe, a.maximum, a.loadedAt);
        if l == Raises then Effect(Failed, g, None)
        else if l.status == Hit then Effect(FromCache(l.snapshot.value, a.probe.value), g, None)
        else CollectAndStore(g, a)
  }

  /** What is asked of an answer from the cache, given the record it came from. */
  predicate Safe(r: Record, ttl: real, a: Acquisition, answer: Answer) {
    answer.FromCache? ==>
      && answer.snapshot == r.snapshot && answer.snapshot.complete && answer.probed == r.identity
      && a.probe == Some(r.identity)
      && Matches(answer.probed, answer.snapshot)
      && a.loadedAt - answer.snapshot.capturedAt <= a.maximum && a.loadedAt - answer.snapshot.capturedAt <= ttl
      && !a.live && !a.refresh
  }

  lemma AcquireSafe(f: File, ttl: real, a: Acquisition)
    requires a.maximum >= 0.0 && ttl >= 0.0
    ensures Acquire(f, ttl, a).answer.FromCache? ==> f.Holds? && Safe(f.record, ttl, a, Acquire(f, ttl, a).answer)
    ensures Acquire(f, ttl, a).answer.FromCache? ==> Acquire(f, ttl, a).file == f
  {
  }

  /** The acquisition may be answered from the cache. */
  predicate AsksCache(a: Acquisition) { !a.live && !a.refresh && a.maximum > 0.0 }

  /** A complete record that at this time is no older than what was asked and what the cache allows. */
  predicate FreshAt(f: File, ttl: real, maximum: real, now: real) {
    && f.Holds? && ValidRecord(f.record) && f.record.snapshot.complete
    && now - f.record.snapshot.capturedAt <= maximum && now - f.record.snapshot.capturedAt <= ttl
  }

  /** The cache is asked and has a fresh record, so that the live identity is probed. */
  predicate Probes(f: File, ttl: real, a: Acquisition) { AsksCache(a) && FreshAt(f, ttl, a.maximum, a.checkedAt) }

  /** The record is fresh, is that of the identity probed, and is still fresh and there afterwards. */
  predicate Serves(f: File, ttl: real, a: Acquisition) {
    && Probes(f, ttl, a) && !a.destroyed && f.Holds? && a.probe == Some(f.record.identity)
    && FreshAt(f, ttl, a.maximum, a.loadedAt)
  }

  function Collects(a: Acquisition): Option<Record> {
    match a.collect
    case None => None
    case Some(c) => Some(Record(a.storedAt, c.identity, c.duration, c.snapshot))
  }

  /** What is collected can be returned: an incomplete snapshot as it is, a complete one if its record is valid. */
  predicate Returnable(a: Acquisition) {
    Collects(a).Some? && (Collects(a).value.snapshot.complete ==> ValidRecord(Collects(a).value))
  }

  /**
   * An acquisition is answered from the cache exactly when the cache is asked and holds a complete record of the probed
   * identity, fresh at the check and at the load; the file is then left as it was. Otherwise the answer is what was
   * collected, stored if it is complete, or a failure if the probe or the collection fails.
   */
  lemma AcquireExact(f: File, ttl: real, a: Acquisition)
    requires a.maximum >= 0.0 && ttl >= 0.0
    ensures var e := Acquire(f, ttl, a);
      var left := if Probes(f, ttl, a) && a.destroyed then Garbage else f;
      && (e.answer.FromCache? <==> Serves(f, ttl, a))
      && if Serves(f, ttl, a) then e == Effect(FromCache(f.record.snapshot, f.record.identity), f, None)
         else if (Probes(f, ttl, a) && a.probe.None?) || !Returnable(a) then e == Effect(Failed, left, None)
         else
           var r := Collects(a).value;
           if r.snapshot.complete then e == Effect(Collection(r.snapshot), Holds(r), Some(r))
           else e == Effect(Collection(r.snapshot), left, None)
  {
  }

  // ---------------------------------------------------------------- histories

  /** Acquisitions, and mishaps that destroy the file or its contents. */
  datatype Event = Acquired(a: Acquisition) | Deleted | Scrambled

  datatype History = History(file: File, stored: seq<Record>, answers: seq<Answer>)

  function Step(h: History, ttl: real, e: Event): History {
    match e
    case Deleted => h.(file := Absent)
    case Scrambled => h.(file := Garbage)
    case Acquired(a) =>
      var r := Acquire(h.file, ttl, a);
      History(r.file, if r.written.Some? then h.stored + [r.written.value] else h.stored, h.answers + [r.answer])
  }

  function Play(ttl: real, events: seq<Event>): History {
    if events == [] then History(Absent, [], []) else Step(Play(ttl, events[..|events| - 1]), ttl, events[|events| - 1])
  }

  /** The file holds the record stored last, or no record at all. */
  predicate Faithful(h: History) {
    h.file.Holds? ==> h.stored != [] && h.file.record == h.stored[|h.stored| - 1] && ValidRecord(h.file.record)
  }

  lemma StepFaithful(h: History, ttl: real, e: Event)
    requires Faithful(h)
    ensures Faithful(Step(h, ttl, e))
  {
  }

  lemma {:induction false} PlayFaithful(ttl: real, events: seq<Event>)
    ensures Faithful(Play(ttl, events))
  {
    if events != [] {
      PlayFaithful(ttl, events[..|events| - 1]);
      StepFaithful(Play(ttl, events[..|events| - 1]), ttl, events[|events| - 1]);
    }
  }

  /**
   * After any history, an answer from the cache is the snapshot stored last: complete, stored under the very identity
   * that was probed in this acquisition, and no older than what was asked and what the cache allows.
   */
  lemma ServedSafely(ttl: real, events: seq<Event>, a: Acquisition)
    requires a.maximum >= 0.0 && ttl >= 0.0
    requires Acquire(Play(ttl, events).file, ttl, a).answer.FromCache?
    ensures var h := Play(ttl, events);
      h.stored != [] && Safe(h.stored[|h.stored| - 1], ttl, a, Acquire(h.file, ttl, a).answer)
  {
    PlayFaithful(ttl, events);
    AcquireSafe(Play(ttl, events).file, ttl, a);
  }

  /** After any history, what an acquisition has just stored is served to the next that may have it. */
  lemma StoredThenServed(ttl: real, events: seq<Event>, a: Acquisition, b: Acquisition)
    requires a.maximum >= 0.0 && b.maximum >= 0.0 && ttl >= 0.0
    requires Acquire(Play(ttl, events).file, ttl, a).written.Some?
    requires Serves(Play(ttl, events + [Acquired(a)]).file, ttl, b)
    ensures var r := Acquire(Play(ttl, events).file, ttl, a).written.value;
      var h := Play(ttl, events + [Acquired(a), Acquired(b)]);
      && h.answers[|h.answers| - 1..] == [FromCache(r.snapshot, r.identity)] && h.file == Holds(r)
      && h.stored == Play(ttl, events).stored + [r]
  {
    var one, two := events + [Acquired(a)], events + [Acquired(a), Acquired(b)];
    assert one[..|events|] == events && two[..|one|] == one;
    AcquireExact(Play(ttl, events).file, ttl, a);
    AcquireExact(Play(ttl, one).file, ttl, b);
  }

  /** Acquisitions that are asked for the same age, one after the other, on a clock that does not go back. */
  predicate Ordered(events: seq<Event>, maximum: real, since: real) {
    forall i :: 0 <= i < |events| && events[i].Acquired? ==>
      var a := events[i].a;
      a.maximum == maximum && a.checkedAt >= since && a.loadedAt >= since
  }

  function PlayFrom(f: File, ttl: real, events: seq<Event>): History {
    if events == [] then History(f, [], []) else Step(PlayFrom(f, ttl, events[..|events| - 1]), ttl, events[|events| - 1])
  }

  /** What an expired file can be followed by until something is stored: itself, or no record. */
  predicate StillUnusable(h: History, f: File) { h.stored == [] ==> h.file == f || h.file.Absent? || h.file.Garbage? }

  /** Once expired, a record is never served again before the next store. */
  lemma {:induction false} ExpiredNeverServed(f: File, ttl: real, maximum: real, since: real, events: seq<Event>)
    requires CandidateStatus(f, ttl, maximum, since) != Raises
      && CandidateStatus(f, ttl, maximum, since).status == Expired
    requires Ordered(events, maximum, since)
    ensures var h := PlayFrom(f, ttl, events);
      StillUnusable(h, f) && (h.stored == [] ==> forall i :: 0 <= i < |h.answers| ==> !h.answers[i].FromCache?)
  {
    if events != [] {
      var before := events[..|events| - 1];
      ExpiredNeverServed(f, ttl, maximum, since, before);
      var h := PlayFrom(f, ttl, before);
      var e := events[|events| - 1];
      if e.Acquired? && h.stored == [] && h.file == f {
        ExpiredStays(f, ttl, maximum, since, e.a.checkedAt);
      }
    }
  }

  // ---------------------------------------------------------------- the cache as it runs

  class Cache {
    const ttl: real
    /** The file at the cache's path. */
    var file: File

    constructor (ttl: real, file: File)
      requires ttl >= 0.0
      ensures this.ttl == ttl && this.file == file
    {
      this.ttl, this.file := ttl, file;
    }

    method StoreSnapshot(s: Snapshot, identity: Identity, duration: real, now: real) returns (ok: bool)
      modifies this
      ensures ok <==> Store(old(file), s, identity, duration, now).Some?
      ensures file == if ok then Store(old(file), s, identity, duration, now).value else old(file)
    {
      if !s.complete { return true; }
      var record := Record(now, identity, duration, s);
      if !ValidRecord(record) { return false; }
      file := Holds(record);
      return true;
    }

    method CheckCandidate(maximum: real, now: real) returns (l: Lookup)
      ensures l == CandidateStatus(file, ttl, maximum, now)
    {
      var record := ReadRecord(file);
      if record.None? { return Failure(file); }
      var age := Age(record.value, now);
      if !record.value.snapshot.complete { return Lookup(Incomplete, None, Some(age), None); }
      if maximum < 0.0 { return Raises; }
      if age > Smaller(maximum, ttl) { return Lookup(Expired, None, Some(age), None); }
      return Lookup(RequiresVerification, None, Some(age), None);
    }

    method LoadVerified(verified: Option<Identity>, maximum: real, now: real) returns (l: Lookup)
      ensures l == Load(file, ttl, verified, maximum, now)
    {
      if verified.None? { return Lookup(Incompatible, None, None, None); }
      var record := ReadRecord(file);
      if record.None? { return Failure(file); }
      var age := Age(record.value, now);
      if !record.value.snapshot.complete { return Lookup(Incomplete, None, Some(age), None); }
      if maximum < 0.0 { return Raises; }
      if age > Smaller(maximum, ttl) { return Lookup(Expired, None, Some(age), None); }
      if record.value.identity != verified.value { return Lookup(Incompatible, None, Some(age), None); }
      return Lookup(Hit, Some(record.value.snapshot), Some(age), Some(record.value.duration));
    }

    /** The locked part of `_analysis_snapshot`. */
    method AcquireSnapshot(a: Acquisition) returns (answer: Answer)
      modifies this
      ensures Effect(answer, file, Acquire(old(file), ttl, a).written) == Acquire(old(file), ttl, a)
    {
      if !(a.live || a.refresh || a.maximum == 0.0) {
        var candidate := CheckCandidate(a.maximum, a.checkedAt);
        if candidate == Raises { return Failed; }
        if candidate.status == RequiresVerification {
          if a.destroyed { file := Garbage; }
          if a.probe.None? { return Failed; }
          var lookup := LoadVerified(a.probe, a.maximum, a.loadedAt);
          if lookup == Raises { return Failed; }
          if lookup.status == Hit { return FromCache(lookup.snapshot.value, a.probe.value); }
        }
      }
      if a.collect.None? { return Failed; }
      var c := a.collect.value;
      var ok := StoreSnapshot(c.snapshot, c.identity, c.duration, a.storedAt);
      if !ok { return Failed; }
      return Collection(c.snapshot);
    }
  }
}
