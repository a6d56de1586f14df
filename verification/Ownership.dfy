/** The bridge server's threads: one accept loop, any number of handlers, one ownership flag, one sequence counter. */
module Ownership {

  const ATTEMPTS: nat := 25

  /** The accept loop: waiting, competing for the flag on behalf of a client, or about to queue its handler. */
  datatype Accept = Waiting | Trying(client: nat, attempt: nat) | Handing(client: nat) | Stopped

  /** Where a handler stands inside a send; every shared access is a step of its own. */
  datatype Work =
    | Idle
    | Predicted(body: nat)
    | Minted(claim: bool, promised: nat, id: nat)
    | Stamped(claim: bool, promised: nat, id: nat, envelope: nat)

  datatype Phase = Queued | Running(work: Work) | Closing | Done

  /** A message on the wire; `claim` says its body repeats a sequence, which is then `promised`. */
  datatype Message = Message(client: nat, claim: bool, promised: nat, id: nat, envelope: nat)

  datatype Server = Server(
    flag: bool, sequence: nat, stopping: bool, accept: Accept, handlers: map<nat, Phase>, clients: nat, sent: seq<Message>)

  datatype Event =
    | Connect                 // AcceptTcpClient returns
    | TryFlag                 // one compare-and-exchange of the accept loop
    | Queue                   // QueueUserWorkItem
    | Stop                    // Dispose
    | Leave                   // the accept loop sees the stop
    | Begin(h: nat)           // the pool starts a handler
    | Predict(h: nat)         // SendSnapshot reads the counter and adds one
    | Mint(h: nat)            // Send increments the counter into the message id
    | Stamp(h: nat)           // Send reads the counter again for the envelope
    | Write(h: nat)           // the frame is written
    | Quit(h: nat)            // HandleClient returns or throws, at any point
    | Release(h: nat)         // the flag is cleared

  function Initial(): Server { Server(false, 0, false, Waiting, map[], 0, []) }

  predicate At(s: Server, h: nat) { h in s.handlers && s.handlers[h].Running? }

  predicate Enabled(s: Server, e: Event) {
    match e
    case Connect => s.accept.Waiting?
    case TryFlag => s.accept.Trying?
    case Queue => s.accept.Handing?
    case Stop => true
    case Leave => s.accept.Waiting? && s.stopping
    case Begin(h) => h in s.handlers && s.handlers[h].Queued?
    case Predict(h) => At(s, h) && s.handlers[h].work.Idle?
    case Mint(h) => At(s, h) && (s.handlers[h].work.Idle? || s.handlers[h].work.Predicted?)
    case Stamp(h) => At(s, h) && s.handlers[h].work.Minted?
    case Write(h) => At(s, h) && s.handlers[h].work.Stamped?
    case Quit(h) => At(s, h)
    case Release(h) => h in s.handlers && s.handlers[h].Closing?
  }

  function Do(s: Server, e: Event): Server
    requires Enabled(s, e)
  {
    match e
    case Connect => s.(accept := Trying(s.clients, 0), clients := s.clients + 1)
    case TryFlag =>
      if !s.flag then s.(flag := true, accept := Handing(s.accept.client))
      else if s.accept.attempt + 1 < ATTEMPTS then s.(accept := Trying(s.accept.client, s.accept.attempt + 1))
      else s.(accept := Waiting)
    case Queue => s.(accept := Waiting, handlers := s.handlers[s.accept.client := Queued])
    case Stop => s.(stopping := true)
    case Leave => s.(accept := Stopped)
    case Begin(h) => Set(s, h, Running(Idle))
    case Predict(h) => Set(s, h, Running(Predicted(s.sequence + 1)))
    case Mint(h) =>
      var work := s.handlers[h].work;
      var body := if work.Predicted? then work.body else 0;
      Set(s, h, Running(Minted(work.Predicted?, body, s.sequence + 1))).(sequence := s.sequence + 1)
    case Stamp(h) =>
      var work := s.handlers[h].work;
      Set(s, h, Running(Stamped(work.claim, work.promised, work.id, s.sequence)))
    case Write(h) =>
      var work := s.handlers[h].work;
      Set(s, h, Running(Idle)).(sent := s.sent + [Message(h, work.claim, work.promised, work.id, work.envelope)])
    case Quit(h) => Set(s, h, Closing)
    case Release(h) => Set(s, h, Done).(flag := false)
  }

  function Set(s: Server, h: nat, p: Phase): Server { s.(handlers := s.handlers[h := p]) }

  // ---------------------------------------------------------------- the invariant

  /** Client `h` owns the flag: it is being handed over, or its handler has not yet released it. */
  predicate Owns(s: Server, h: nat) {
    (s.accept.Handing? && s.accept.client == h) || (h in s.handlers && !s.handlers[h].Done?)
  }

  ghost predicate OneOwner(s: Server) {
    && (forall g, h {:trigger Owns(s, g), Owns(s, h)} :: Owns(s, g) && Owns(s, h) ==> g == h)
    && (s.accept.Handing? ==> s.accept.client !in s.handlers)
  }

  ghost predicate FlagMeansOwner(s: Server) { s.flag <==> exists h :: Owns(s, h) }

  /** Clients are numbered in the order in which they were accepted. */
  ghost predicate Numbered(s: Server) {
    && (forall h :: h in s.handlers ==> h < s.clients)
    && (s.accept.Trying? || s.accept.Handing? ==> s.accept.client < s.clients && s.accept.client !in s.handlers)
    && (s.accept.Trying? || s.accept.Handing? ==> forall h :: h in s.handlers ==> h < s.accept.client)
  }

  /** What a handler has read so far is still what the counter says. */
  predicate Current(s: Server, work: Work) {
    match work
    case Idle => true
    case Predicted(body) => body == s.sequence + 1
    case Minted(claim, promised, id) => 1 <= id == s.sequence && (claim ==> promised == id)
    case Stamped(claim, promised, id, envelope) => 1 <= id == s.sequence && envelope == id && (claim ==> promised == id)
  }

  ghost predicate Fresh(s: Server) {
    forall h :: At(s, h) ==> Current(s, s.handlers[h].work)
  }

  /** The last id that has reached the wire or been given up, as far as handler `h` is concerned. */
  function Settled(s: Server, work: Work): int {
    if work.Minted? || work.Stamped? then s.sequence - 1 else s.sequence
  }

  /** The messages on the wire: all three numbers agree, ids rise, and one client's ids follow each other. */
  predicate Coherent(sent: seq<Message>) {
    && (forall i :: 0 <= i < |sent| ==> sent[i].envelope == sent[i].id && (sent[i].claim ==> sent[i].promised == sent[i].id))
    && (forall i, j :: 0 <= i < j < |sent| ==> sent[i].id < sent[j].id && sent[i].client <= sent[j].client)
    && (forall i :: 0 <= i < |sent| - 1 && sent[i].client == sent[i + 1].client ==> sent[i + 1].id == sent[i].id + 1)
  }

  ghost predicate Known(s: Server) {
    forall i :: 0 <= i < |s.sent| ==>
      s.sent[i].id <= s.sequence && s.sent[i].client in s.handlers && !s.handlers[s.sent[i].client].Queued?
  }

  /** No message on the wire comes from a client accepted after the present owner. */
  ghost predicate InTurn(s: Server) {
    forall i, h :: 0 <= i < |s.sent| && Owns(s, h) ==> s.sent[i].client <= h
  }

  ghost predicate Behind(s: Server) {
    forall i, h :: 0 <= i < |s.sent| && At(s, h) ==> s.sent[i].id <= Settled(s, s.handlers[h].work)
  }

  /** The sender of the last message, if it still runs, has lost no number since. */
  ghost predicate Unbroken(s: Server) {
    s.sent != [] ==>
      var last := s.sent[|s.sent| - 1];
      At(s, last.client) ==> last.id == Settled(s, s.handlers[last.client].work)
  }

  ghost predicate Inv(s: Server) {
    Numbered(s) && OneOwner(s) && FlagMeansOwner(s) && Fresh(s)
    && Coherent(s.sent) && Known(s) && InTurn(s) && Behind(s) && Unbroken(s)
  }
}
