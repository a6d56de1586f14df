/** What the server's threads keep in every interleaving: one owner, coherent messages, atomic sends. */
module OwnershipProofs {
  import opened Texts
  import opened Ownership

  lemma InitialInv()
    ensures Inv(Initial())
  {
  }

  lemma StepNumbered(s: Server, e: Event)
    requires Numbered(s) && Enabled(s, e)
    ensures Numbered(Do(s, e))
  {
  }

  /** Steps that neither take nor give up the flag. */
  lemma SameOwners(s: Server, e: Event)
    requires Inv(s) && Enabled(s, e) && !e.TryFlag? && !e.Queue? && !e.Release?
    ensures forall g :: Owns(s, g) <==> Owns(Do(s, e), g)
  {
  }

  lemma FlagTried(s: Server)
    requires Inv(s) && Enabled(s, TryFlag)
    ensures forall g :: Owns(Do(s, TryFlag), g) <==> Owns(s, g) || (!s.flag && g == s.accept.client)
    ensures OneOwner(Do(s, TryFlag)) && FlagMeansOwner(Do(s, TryFlag))
  {
    var t := Do(s, TryFlag);
    forall g ensures Owns(t, g) <==> Owns(s, g) || (!s.flag && g == s.accept.client) {}
    if !s.flag { assert Owns(t, s.accept.client); }
  }

  lemma HandlerQueued(s: Server)
    requires Inv(s) && Enabled(s, Queue)
    ensures OneOwner(Do(s, Queue)) && FlagMeansOwner(Do(s, Queue))
  {
    var t := Do(s, Queue);
    forall g ensures Owns(t, g) <==> Owns(s, g) {}
    assert Owns(t, s.accept.client);
  }

  lemma FlagReleased(s: Server, h: nat)
    requires Inv(s) && Enabled(s, Release(h))
    ensures OneOwner(Do(s, Release(h))) && FlagMeansOwner(Do(s, Release(h)))
  {
    var t := Do(s, Release(h));
    assert Owns(s, h);
    forall g ensures !Owns(t, g) { if Owns(t, g) { assert Owns(s, g); } }
  }

  lemma StepOwner(s: Server, e: Event)
    requires Inv(s) && Enabled(s, e)
    ensures OneOwner(Do(s, e)) && FlagMeansOwner(Do(s, e))
  {
    if e.TryFlag? {
      FlagTried(s);
    } else if e.Queue? {
      HandlerQueued(s);
    } else if e.Release? {
      FlagReleased(s, e.h);
    } else {
      SameOwners(s, e);
    }
  }

  lemma Alone(s: Server, g: nat, h: nat)
    requires OneOwner(s) && At(s, g) && At(s, h)
    ensures g == h
  {
    assert Owns(s, g) && Owns(s, h);
  }

  function Actor(e: Event): Option<nat> {
    match e
    case Begin(h) => Some(h)
    case Predict(h) => Some(h)
    case Mint(h) => Some(h)
    case Stamp(h) => Some(h)
    case Write(h) => Some(h)
    case Quit(h) => Some(h)
    case Release(h) => Some(h)
    case _ => None
  }

  lemma ActorFresh(s: Server, e: Event, h: nat)
    requires Fresh(s) && Enabled(s, e) && Actor(e) == Some(h) && At(Do(s, e), h)
    ensures Current(Do(s, e), Do(s, e).handlers[h].work)
  {
    if At(s, h) { assert Current(s, s.handlers[h].work); }
  }

  lemma OthersUntouched(s: Server, e: Event, g: nat)
    requires Enabled(s, e) && Actor(e) != Some(g) && At(Do(s, e), g)
    ensures At(s, g) && Do(s, e).handlers[g] == s.handlers[g]
    ensures !e.Mint? ==> Do(s, e).sequence == s.sequence
  {
  }

  lemma StepFresh(s: Server, e: Event)
    requires OneOwner(s) && Fresh(s) && Enabled(s, e)
    ensures Fresh(Do(s, e))
  {
    var t := Do(s, e);
    forall g | At(t, g) ensures Current(t, t.handlers[g].work) {
      if Actor(e) == Some(g) {
        ActorFresh(s, e, g);
      } else {
        OthersUntouched(s, e, g);
        if e.Mint? { Alone(s, g, e.h); }
      }
    }
  }

  lemma StepKnown(s: Server, e: Event)
    requires Enabled(s, e) && Numbered(s) && Fresh(s) && Known(s)
    ensures Known(Do(s, e))
  {
  }

  lemma WriteCoherent(s: Server, h: nat)
    requires Enabled(s, Write(h)) && Fresh(s)
    requires Coherent(s.sent) && InTurn(s) && Behind(s) && Unbroken(s)
    ensures Coherent(Do(s, Write(h)).sent)
  {
    var work := s.handlers[h].work;
    assert Owns(s, h) && Current(s, work);
    assert Do(s, Write(h)).sent == s.sent + [Message(h, work.claim, work.promised, work.id, work.envelope)];
    assert forall i :: 0 <= i < |s.sent| ==> s.sent[i].id < work.id && s.sent[i].client <= h;
    AppendCoherent(s.sent, Message(h, work.claim, work.promised, work.id, work.envelope));
  }

  lemma AppendCoherent(sent: seq<Message>, m: Message)
    requires Coherent(sent) && m.envelope == m.id && (m.claim ==> m.promised == m.id)
    requires forall i :: 0 <= i < |sent| ==> sent[i].id < m.id && sent[i].client <= m.client
    requires sent != [] && sent[|sent| - 1].client == m.client ==> m.id == sent[|sent| - 1].id + 1
    ensures Coherent(sent + [m])
  {
  }

  lemma StepCoherent(s: Server, e: Event)
    requires Inv(s) && Enabled(s, e)
    ensures Coherent(Do(s, e).sent)
  {
    if e.Write? {
      WriteCoherent(s, e.h);
    }
  }

  lemma StepInTurn(s: Server, e: Event)
    requires Inv(s) && Enabled(s, e)
    ensures InTurn(Do(s, e))
  {
    var t := Do(s, e);
    forall i, h | 0 <= i < |t.sent| && Owns(t, h) ensures t.sent[i].client <= h {
      if e.Write? {
        assert Owns(s, h) && Owns(s, e.h);
      } else if !Owns(s, h) {
        assert s.sent[i].client in s.handlers;
      }
    }
  }

  lemma StepBehind(s: Server, e: Event)
    requires Enabled(s, e) && OneOwner(s) && Fresh(s) && Known(s) && Behind(s)
    ensures Behind(Do(s, e))
  {
    var t := Do(s, e);
    forall i, h | 0 <= i < |t.sent| && At(t, h) ensures t.sent[i].id <= Settled(t, t.handlers[h].work) {
      if (e.Mint? || e.Write?) && At(s, h) {
        Alone(s, h, e.h);
        assert Current(s, s.handlers[h].work);
      }
    }
  }

  lemma StepUnbroken(s: Server, e: Event)
    requires Enabled(s, e) && Numbered(s) && OneOwner(s) && Fresh(s) && Known(s) && Unbroken(s)
    ensures Unbroken(Do(s, e))
  {
    var t := Do(s, e);
    if t.sent != [] && At(t, t.sent[|t.sent| - 1].client) {
      var h := t.sent[|t.sent| - 1].client;
      if e.Write? {
        assert Current(s, s.handlers[e.h].work);
      } else {
        assert At(s, h);
        if e.Mint? { Alone(s, h, e.h); }
      }
    }
  }

  lemma StepInv(s: Server, e: Event)
    requires Inv(s) && Enabled(s, e)
    ensures Inv(Do(s, e))
  {
    StepNumbered(s, e);
    StepOwner(s, e);
    StepFresh(s, e);
    StepKnown(s, e);
    StepCoherent(s, e);
    StepInTurn(s, e);
    StepBehind(s, e);
    StepUnbroken(s, e);
  }

  // ---------------------------------------------------------------- runs

  /** The server after a run; `None` if some event of it was not possible. */
  function After(events: seq<Event>): Option<Server> {
    if events == [] then Some(Initial())
    else
      var before := After(events[..|events| - 1]);
      var e := events[|events| - 1];
      if before.Some? && Enabled(before.value, e) then Some(Do(before.value, e)) else None
  }

  lemma {:induction false} RunInv(events: seq<Event>)
    requires After(events).Some?
    ensures Inv(After(events).value)
  {
    if events == [] {
      InitialInv();
    } else {
      RunInv(events[..|events| - 1]);
      StepInv(After(events[..|events| - 1]).value, events[|events| - 1]);
    }
  }

  /** In every interleaving the flag is set exactly when one client owns it, and never two do. */
  lemma SingleOwner(events: seq<Event>)
    requires After(events).Some?
    ensures var s := After(events).value;
      && (s.flag <==> exists h :: Owns(s, h))
      && forall g, h :: Owns(s, g) && Owns(s, h) ==> g == h
  {
    RunInv(events);
  }

  /**
   * Over the whole life of the server: the sequence promised in a snapshot body, the one in the message id and the one
   * in the envelope are equal; ids are never reused; and one client sees consecutive numbers.
   */
  lemma MessagesCoherent(events: seq<Event>)
    requires After(events).Some?
    ensures var sent := After(events).value.sent;
      && (forall i :: 0 <= i < |sent| ==> sent[i].envelope == sent[i].id && (sent[i].claim ==> sent[i].promised == sent[i].id))
      && (forall i, j :: 0 <= i < |sent| && 0 <= j < |sent| && i != j ==> sent[i].id != sent[j].id)
      && (forall i :: 0 <= i < |sent| - 1 && sent[i].client == sent[i + 1].client ==> sent[i + 1].id == sent[i].id + 1)
  {
    RunInv(events);
  }

  /** The counter never falls: what a later connection is sent carries numbers above all that were spent before it. */
  lemma {:induction false} CounterRises(events: seq<Event>, more: seq<Event>)
    requires After(events + more).Some?
    ensures After(events).Some? && After(events).value.sequence <= After(events + more).value.sequence
    ensures forall m :: m in After(events).value.sent ==> m.id <= After(events).value.sequence
  {
    if more == [] {
      assert events + more == events;
      RunInv(events);
    } else {
      var init := more[..|more| - 1];
      assert (events + more)[..|events + more| - 1] == events + init;
      CounterRises(events, init);
    }
  }

  // ---------------------------------------------------------------- atomic sends

  /** A server whose sends happen all at once. */
  datatype Atomic = Atomic(counter: nat, sent: seq<Message>)

  predicate IsSend(a: Atomic, b: Atomic, h: nat, claim: bool, promised: nat) {
    && b == Atomic(a.counter + 1, a.sent + [Message(h, claim, promised, a.counter + 1, a.counter + 1)])
    && (claim ==> promised == a.counter + 1)
  }

  /** Nothing happens, one message goes out under the next number, or the next number is lost with its connection. */
  ghost predicate AtomicStep(a: Atomic, b: Atomic) {
    || a == b
    || (exists h, claim, promised :: IsSend(a, b, h, claim, promised))
    || b == a.(counter := a.counter + 1)
  }

  predicate InFlight(s: Server, h: nat) { At(s, h) && (s.handlers[h].work.Minted? || s.handlers[h].work.Stamped?) }

  /** The number under way counts only once its message is written or lost. */
  ghost function View(s: Server): Atomic
    requires Inv(s)
  {
    if exists h :: InFlight(s, h) then
      var h :| InFlight(s, h);
      assert Current(s, s.handlers[h].work);
      Atomic(s.sequence - 1, s.sent)
    else Atomic(s.sequence, s.sent)
  }

  lemma ViewBusy(s: Server, h: nat)
    requires Inv(s) && InFlight(s, h)
    ensures s.sequence >= 1 && View(s) == Atomic(s.sequence - 1, s.sent)
  {
    assert Current(s, s.handlers[h].work);
  }

  /** No handler but `h` has a number under way while `h` runs. */
  lemma OthersQuiet(s: Server, h: nat)
    requires OneOwner(s) && At(s, h)
    ensures forall g :: g != h ==> !InFlight(s, g)
  {
    forall g | At(s, g) ensures g == h { Alone(s, g, h); }
  }

  lemma WriteIsSend(s: Server, h: nat)
    requires Inv(s) && Enabled(s, Write(h)) && Inv(Do(s, Write(h)))
    ensures var work := s.handlers[h].work; IsSend(View(s), View(Do(s, Write(h))), h, work.claim, work.promised)
  {
    var t := Do(s, Write(h));
    var work := s.handlers[h].work;
    assert InFlight(s, h) && Current(s, work);
    ViewBusy(s, h);
    OthersQuiet(t, h);
    assert View(t) == Atomic(s.sequence, t.sent);
    assert IsSend(View(s), View(t), h, work.claim, work.promised);
  }

  lemma QuitLosesOne(s: Server, h: nat)
    requires Inv(s) && Enabled(s, Quit(h)) && Inv(Do(s, Quit(h)))
    ensures View(Do(s, Quit(h))) == if InFlight(s, h) then View(s).(counter := View(s).counter + 1) else View(s)
  {
    var t := Do(s, Quit(h));
    OthersQuiet(s, h);
    forall g ensures !InFlight(t, g) { assert g != h ==> !InFlight(s, g); }
    if InFlight(s, h) { ViewBusy(s, h); }
  }

  lemma MintIsInvisible(s: Server, h: nat)
    requires Inv(s) && Enabled(s, Mint(h)) && Inv(Do(s, Mint(h)))
    ensures View(s) == View(Do(s, Mint(h)))
  {
    OthersQuiet(s, h);
    assert !InFlight(s, h);
    assert InFlight(Do(s, Mint(h)), h);
    ViewBusy(Do(s, Mint(h)), h);
  }

  lemma SameInFlight(s: Server, e: Event)
    requires Enabled(s, e) && !e.Mint? && !e.Write? && !e.Quit? && !e.Queue?
    ensures Do(s, e).sequence == s.sequence && Do(s, e).sent == s.sent
    ensures forall g :: InFlight(s, g) <==> InFlight(Do(s, e), g)
  {
  }

  lemma QueuedNotInFlight(s: Server)
    requires Numbered(s) && Enabled(s, Queue)
    ensures forall g :: InFlight(s, g) <==> InFlight(Do(s, Queue), g)
  {
  }

  lemma OtherStepsInvisible(s: Server, e: Event)
    requires Inv(s) && Enabled(s, e) && Inv(Do(s, e)) && !e.Mint? && !e.Write? && !e.Quit?
    ensures View(s) == View(Do(s, e))
  {
    if e.Queue? { QueuedNotInFlight(s); } else { SameInFlight(s, e); }
    if g :| InFlight(s, g) {
      ViewBusy(s, g);
      ViewBusy(Do(s, e), g);
    }
  }

  /**
   * Every interleaving of the threads looks like a run of atomic sends: each write is one, a handler that ends with a
   * number under way loses that number, and nothing else is seen.
   */
  lemma SendsAreAtomic(s: Server, e: Event)
    requires Inv(s) && Enabled(s, e)
    ensures Inv(Do(s, e)) && AtomicStep(View(s), View(Do(s, e)))
    ensures e.Write? ==>
      var work := s.handlers[e.h].work; IsSend(View(s), View(Do(s, e)), e.h, work.claim, work.promised)
    ensures e.Quit? ==>
      View(Do(s, e)) == if InFlight(s, e.h) then View(s).(counter := View(s).counter + 1) else View(s)
    ensures !e.Write? && !e.Quit? ==> View(Do(s, e)) == View(s)
  {
    StepInv(s, e);
    match e {
      case Mint(h) => MintIsInvisible(s, h);
      case Write(h) => WriteIsSend(s, h);
      case Quit(h) => QuitLosesOne(s, h);
      case _ => OtherStepsInvisible(s, e);
    }
  }

  // ---------------------------------------------------------------- runs from a given state

  function Play(s: Server, events: seq<Event>): Server
    decreases |events|
  {
    if events == [] || !Enabled(s, events[0]) then s else Play(Do(s, events[0]), events[1..])
  }

  lemma Played(s: Server, e: Event, rest: seq<Event>)
    requires Enabled(s, e)
    ensures Play(s, [e] + rest) == Play(Do(s, e), rest)
  {
  }

  lemma PlayedThrice(s: Server, d: Event, e: Event, f: Event)
    requires Enabled(s, d) && Enabled(Do(s, d), e) && Enabled(Do(Do(s, d), e), f)
    ensures Play(s, [d, e, f]) == Do(Do(Do(s, d), e), f)
  {
    Played(s, d, [e, f]);
    Played(Do(s, d), e, [f]);
    Played(Do(Do(s, d), e), f, []);
  }

  lemma Rewritten<K, V>(m: map<K, V>, k: K, a: V, b: V, c: V)
    ensures m[k := a][k := b][k := c] == m[k := c]
  {
  }

  lemma RestOfSend(s: Server, h: nat)
    requires At(s, h) && (s.handlers[h].work.Idle? || s.handlers[h].work.Predicted?)
    ensures var n, work := s.sequence + 1, s.handlers[h].work;
      Play(s, [Mint(h), Stamp(h), Write(h)]) ==
        Set(s, h, Running(Idle)).(sequence := n,
          sent := s.sent + [Message(h, work.Predicted?, if work.Predicted? then work.body else 0, n, n)])
  {
    var n, claim := s.sequence + 1, s.handlers[h].work.Predicted?;
    var body := if claim then s.handlers[h].work.body else 0;
    PlayedThrice(s, Mint(h), Stamp(h), Write(h));
    Rewritten(s.handlers, h, Running(Minted(claim, body, n)), Running(Stamped(claim, body, n, n)), Running(Idle));
  }

  lemma Restored<K, V>(m: map<K, V>, k: K, a: V)
    requires k in m
    ensures m[k := a][k := m[k]] == m && m[k := m[k]] == m
  {
  }

  /** A send that is not disturbed puts one message on the wire under the next number. */
  lemma UndisturbedSend(s: Server, h: nat)
    requires At(s, h) && s.handlers[h].work.Idle?
    ensures var n := s.sequence + 1;
      Play(s, [Mint(h), Stamp(h), Write(h)]) == s.(sequence := n, sent := s.sent + [Message(h, false, 0, n, n)])
  {
    RestOfSend(s, h);
    Restored(s.handlers, h, Closing);
  }

  /** A snapshot reads the counter once more, before the others, and repeats that number. */
  lemma UndisturbedSnapshot(s: Server, h: nat)
    requires At(s, h) && s.handlers[h].work.Idle?
    ensures var n := s.sequence + 1;
      Play(s, [Predict(h), Mint(h), Stamp(h), Write(h)]) ==
        s.(sequence := n, sent := s.sent + [Message(h, true, n, n, n)])
  {
    var t := Do(s, Predict(h));
    Played(s, Predict(h), [Mint(h), Stamp(h), Write(h)]);
    RestOfSend(t, h);
    Restored(s.handlers, h, Running(Predicted(s.sequence + 1)));
  }

  /** A client that is waiting when the owner leaves is served next. */
  lemma WaitingIsServed(s: Server, h: nat)
    requires s.accept.Trying? && h in s.handlers && s.handlers[h].Closing?
    ensures var client := s.accept.client;
      Play(s, [Release(h), TryFlag, Queue, Begin(client)]) ==
        s.(flag := true, accept := Waiting, handlers := s.handlers[h := Done][client := Running(Idle)])
  {
    var a := Do(s, Release(h));
    var b := Do(a, TryFlag);
    var c := Do(b, Queue);
    Played(s, Release(h), [TryFlag, Queue, Begin(s.accept.client)]);
    Played(a, TryFlag, [Queue, Begin(s.accept.client)]);
    Played(b, Queue, [Begin(s.accept.client)]);
    Played(c, Begin(s.accept.client), []);
  }

  function Tries(n: nat): seq<Event> { seq(n, i => TryFlag) }

  /** While another client is served a new one is tried 25 times in all, and then turned away without a trace. */
  lemma {:induction false} TurnedAway(s: Server, n: nat)
    requires s.accept.Trying? && s.flag && s.accept.attempt + n <= 25
    ensures Play(s, Tries(n)) ==
      s.(accept := if s.accept.attempt + n < 25 || n == 0 then Trying(s.accept.client, s.accept.attempt + n) else Waiting)
    decreases n
  {
    if n > 0 {
      assert Tries(n) == [TryFlag] + Tries(n - 1);
      Played(s, TryFlag, Tries(n - 1));
      var t := Do(s, TryFlag);
      if t.accept.Trying? { TurnedAway(t, n - 1); } else { assert Tries(0) == []; }
    }
  }

  /** A stopped server that is waiting leaves its loop, and no client is accepted any more. */
  lemma StopEndsLoop(s: Server)
    requires s.accept.Waiting?
    ensures Play(s, [Stop, Leave]) == s.(stopping := true, accept := Stopped)
  {
    Played(s, Stop, [Leave]);
    Played(Do(s, Stop), Leave, []);
  }

  /** Nothing leads out of a loop that has ended, whatever the handlers still do. */
  lemma StoppedStays(s: Server, e: Event)
    requires s.accept.Stopped? && Enabled(s, e)
    ensures Do(s, e).accept.Stopped? && Do(s, e).clients == s.clients && Do(s, e).handlers.Keys == s.handlers.Keys
    ensures s.stopping ==> Do(s, e).stopping
  {
  }

  // ---------------------------------------------------------------- why one owner is needed

  /** Two handlers that ran side by side could promise one sequence in a body and mint another. */
  lemma TwoHandlersTear(s: Server)
    requires At(s, 0) && At(s, 1) && s.handlers[0] == s.handlers[1] == Running(Idle)
    ensures Play(s, [Predict(0), Mint(1), Mint(0)]).handlers ==
      s.handlers[0 := Running(Minted(true, s.sequence + 1, s.sequence + 2))][1 := Running(Minted(false, 0, s.sequence + 1))]
  {
    var a := Do(s, Predict(0));
    var b := Do(a, Mint(1));
    Played(s, Predict(0), [Mint(1), Mint(0)]);
    Played(a, Mint(1), [Mint(0)]);
    Played(b, Mint(0), []);
  }
}
