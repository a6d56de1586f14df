/** Envelopes survive serialization: what the parser makes of every text the serializer writes. */
module ProtocolRoundTrip {
  import opened Texts
  import opened Json
  import opened JsonReading
  import opened JsonRoundTrip
  import opened Timestamps
  import opened Protocol
  import opened ProtocolNumbers
  import W = Vocabulary

  ghost predicate SpellsEnvelope(c: Contract, e: Envelope, o: map<Text, Json>)
    requires Distinct(c)
  {
    Spells(c, ENVELOPE_KEYS, EnvelopeFields(c, e), o)
  }

  lemma PlainFieldHolds(c: Contract, e: Envelope, w: W.Word)
    requires ValidContract(c) && IsEnvelope(e) && ValidEnvelope(c, e)
    requires !w.MapIdentity? && !w.SaveIdentity? && !w.Payload?
    ensures Holds(EnvelopeField(c, e, w))
  {
    var v := EnvelopeField(c, e, w);
    assert v.Null? || v.Str? || (v.Int? && IsInt64(v.n));
  }

  lemma FieldHolds(c: Contract, e: Envelope, w: W.Word)
    requires ValidContract(c) && IsEnvelope(e) && ValidEnvelope(c, e)
    ensures Holds(EnvelopeField(c, e, w))
  {
    if w.MapIdentity? {
      IdentityHolds(c, e.mapIdentity);
    } else if w.SaveIdentity? {
      IdentityHolds(c, e.saveIdentity);
    } else if w.Payload? {
      assert EnvelopeField(c, e, w) == e.payload;
    } else {
      PlainFieldHolds(c, e, w);
    }
  }

  lemma EnvelopeHolds(c: Contract, e: Envelope)
    requires ValidContract(c) && IsEnvelope(e) && ValidEnvelope(c, e)
    ensures Holds(EnvelopeJson(c, e))
  {
    forall w | w in ENVELOPE_KEYS ensures Holds(EnvelopeFields(c, e)(w)) {
      FieldHolds(c, e, w);
    }
    ObjectHolds(c, ENVELOPE_KEYS, EnvelopeFields(c, e));
  }

  /** The condition under which an envelope arrives as it was sent. */
  predicate Survives(e: Envelope) {
    NullOrNonBlank(e.correlationId) && Travels(e.mapIdentity) && Travels(e.saveIdentity)
  }

  lemma IdentitiesRead(c: Contract, e: Envelope, o: map<Text, Json>)
    requires Distinct(c) && SpellsEnvelope(c, e, o)
    ensures Get(c, o, W.MapIdentity) == IdentityJson(c, e.mapIdentity)
    ensures Get(c, o, W.SaveIdentity) == IdentityJson(c, e.saveIdentity)
  {
    SpelledAt(c, ENVELOPE_KEYS, EnvelopeFields(c, e), o, W.MapIdentity);
    SpelledAt(c, ENVELOPE_KEYS, EnvelopeFields(c, e), o, W.SaveIdentity);
  }

  lemma TimeRead(c: Contract, e: Envelope, o: map<Text, Json>)
    requires Distinct(c) && SpellsEnvelope(c, e, o)
    ensures Get(c, o, W.Timestamp) == Str(TimeText(e.timestamp))
    ensures Get(c, o, W.MessageType) == Str(c.name(TypeWord(e.messageType)))
  {
    SpelledAt(c, ENVELOPE_KEYS, EnvelopeFields(c, e), o, W.Timestamp);
    SpelledAt(c, ENVELOPE_KEYS, EnvelopeFields(c, e), o, W.MessageType);
  }

  lemma PlainRead(c: Contract, e: Envelope, o: map<Text, Json>)
    requires Distinct(c) && SpellsEnvelope(c, e, o)
    ensures Get(c, o, W.ProtocolVersion) == Int(e.protocolVersion)
      && Get(c, o, W.BridgeSequence) == Int(e.bridgeSequence)
    ensures Get(c, o, W.CorrelationId) == Nullable(e.correlationId) && Get(c, o, W.Payload) == e.payload
  {
    SpelledAt(c, ENVELOPE_KEYS, EnvelopeFields(c, e), o, W.ProtocolVersion);
    SpelledAt(c, ENVELOPE_KEYS, EnvelopeFields(c, e), o, W.BridgeSequence);
    SpelledAt(c, ENVELOPE_KEYS, EnvelopeFields(c, e), o, W.CorrelationId);
    SpelledAt(c, ENVELOPE_KEYS, EnvelopeFields(c, e), o, W.Payload);
  }

  lemma OriginRead(c: Contract, e: Envelope, o: map<Text, Json>)
    requires Distinct(c) && SpellsEnvelope(c, e, o)
    ensures Get(c, o, W.AdapterVersion) == Str(e.adapterVersion) && Get(c, o, W.GameId) == Str(e.gameId)
    ensures Get(c, o, W.GameVersion) == Str(e.gameVersion) && Get(c, o, W.Platform) == Str(e.platform)
  {
    SpelledAt(c, ENVELOPE_KEYS, EnvelopeFields(c, e), o, W.AdapterVersion);
    SpelledAt(c, ENVELOPE_KEYS, EnvelopeFields(c, e), o, W.GameId);
    SpelledAt(c, ENVELOPE_KEYS, EnvelopeFields(c, e), o, W.GameVersion);
    SpelledAt(c, ENVELOPE_KEYS, EnvelopeFields(c, e), o, W.Platform);
  }

  lemma IdsRead(c: Contract, e: Envelope, o: map<Text, Json>)
    requires Distinct(c) && SpellsEnvelope(c, e, o)
    ensures Get(c, o, W.Architecture) == Str(e.architecture) && Get(c, o, W.BridgeInstanceId) == Str(e.bridgeInstanceId)
    ensures Get(c, o, W.GameSessionId) == Str(e.gameSessionId) && Get(c, o, W.MessageId) == Str(e.messageId)
  {
    SpelledAt(c, ENVELOPE_KEYS, EnvelopeFields(c, e), o, W.Architecture);
    SpelledAt(c, ENVELOPE_KEYS, EnvelopeFields(c, e), o, W.BridgeInstanceId);
    SpelledAt(c, ENVELOPE_KEYS, EnvelopeFields(c, e), o, W.GameSessionId);
    SpelledAt(c, ENVELOPE_KEYS, EnvelopeFields(c, e), o, W.MessageId);
  }

  lemma EnvelopeLegible(c: Contract, e: Envelope)
    requires ValidContract(c) && ValidEnvelope(c, e)
    ensures !IsBlankText(e.adapterVersion) && !IsBlankText(e.gameId) && !IsBlankText(e.gameVersion)
    ensures !IsBlankText(e.platform) && !IsBlankText(e.architecture)
    ensures !IsBlankText(e.bridgeInstanceId) && !IsBlankText(e.gameSessionId) && !IsBlankText(e.messageId)
  {
  }

  /** The members of `o` one by one, and what each is read back as. */
  lemma MembersRead(c: Contract, e: Envelope, o: map<Text, Json>)
    requires e.protocolVersion == c.protocolVersion && 1 <= e.bridgeSequence <= MAXIMUM_INT64
    requires EnvelopeTextsPresent(c, o)
    requires TextOf(Get(c, o, W.AdapterVersion)) == e.adapterVersion && TextOf(Get(c, o, W.GameId)) == e.gameId
    requires TextOf(Get(c, o, W.GameVersion)) == e.gameVersion && TextOf(Get(c, o, W.Platform)) == e.platform
    requires TextOf(Get(c, o, W.Architecture)) == e.architecture
      && TextOf(Get(c, o, W.BridgeInstanceId)) == e.bridgeInstanceId
    requires TextOf(Get(c, o, W.GameSessionId)) == e.gameSessionId && TextOf(Get(c, o, W.MessageId)) == e.messageId
    requires Get(c, o, W.ProtocolVersion) == Int(e.protocolVersion)
      && Get(c, o, W.BridgeSequence) == Int(e.bridgeSequence)
    requires Get(c, o, W.CorrelationId) == Nullable(e.correlationId) && Get(c, o, W.Payload) == e.payload
    requires ParseIdentity(c, Get(c, o, W.MapIdentity)) == if Travels(e.mapIdentity) then Some(e.mapIdentity) else None
    requires ParseIdentity(c, Get(c, o, W.SaveIdentity)) == if Travels(e.saveIdentity) then Some(e.saveIdentity) else None
    requires Get(c, o, W.Timestamp).Str? && ParseTime(Get(c, o, W.Timestamp).text) == Some(e.timestamp)
    requires Get(c, o, W.MessageType).Str? && ParseMessageType(c, Get(c, o, W.MessageType).text) == Some(e.messageType)
    ensures Readable(c, o) <==> Survives(e)
    ensures Readable(c, o) ==> ReadEnvelope(c, o) == e
  {
    NullableReads(e.correlationId);
  }

  lemma EnvelopeReads(c: Contract, e: Envelope, o: map<Text, Json>)
    requires ValidContract(c) && IsInt64(e.bridgeSequence) && IsInstant(e.timestamp)
    requires ValidEnvelope(c, e) && SpellsEnvelope(c, e, o)
    ensures Readable(c, o) <==> Survives(e)
    ensures Readable(c, o) ==> ReadEnvelope(c, o) == e
  {
    OriginRead(c, e, o);
    IdsRead(c, e, o);
    EnvelopeLegible(c, e);
    IdentitiesRead(c, e, o);
    IdentityRoundTrip(c, e.mapIdentity);
    IdentityRoundTrip(c, e.saveIdentity);
    TimeRead(c, e, o);
    TimeRoundTrip(e.timestamp);
    MessageTypeRoundTrip(c, e.messageType);
    PlainRead(c, e, o);
    MembersRead(c, e, o);
  }

  // ---------------------------------------------------------------- numbers

  /** The envelope with the numbers of its payload as they are written. */
  function PrintedEnvelope(d: Doubles, e: Envelope): Envelope { e.(payload := Printed(d, e.payload)) }

  lemma PlainFieldNumberFree(c: Contract, e: Envelope, w: W.Word)
    requires Distinct(c) && !w.MapIdentity? && !w.SaveIdentity? && !w.Payload?
    ensures Everywhere(NoNumber(), EnvelopeField(c, e, w))
  {
    var v := EnvelopeField(c, e, w);
    assert v.Null? || v.Str? || v.Int?;
  }

  lemma IdentityNumberFree(c: Contract, id: Identity)
    requires Distinct(c)
    ensures Everywhere(NoNumber(), IdentityJson(c, id))
  {
    forall w | w in IDENTITY_KEYS ensures Everywhere(NoNumber(), IdentityFields(id)(w)) {
      var v := IdentityField(id, w);
      assert v.Null? || v.Str?;
    }
    ObjectEverywhere(NoNumber(), c, IDENTITY_KEYS, IdentityFields(id));
  }

  /** The payload is the one member of an envelope that can hold a fractional number. */
  lemma FieldNumberFree(c: Contract, e: Envelope, w: W.Word)
    requires Distinct(c) && !w.Payload?
    ensures Everywhere(NoNumber(), EnvelopeField(c, e, w))
  {
    if w.MapIdentity? {
      IdentityNumberFree(c, e.mapIdentity);
    } else if w.SaveIdentity? {
      IdentityNumberFree(c, e.saveIdentity);
    } else {
      PlainFieldNumberFree(c, e, w);
    }
  }

  lemma ObjectEverywhere(p: Literal -> bool, c: Contract, words: set<W.Word>, value: W.Word -> Json)
    requires Distinct(c)
    ensures Everywhere(p, Object(c, words, value)) <==> forall w :: w in words ==> Everywhere(p, value(w))
  {
    var m := Object(c, words, value).members;
    forall w | w in words ensures c.name(w) in m && m[c.name(w)] == value(w) {
    }
  }

  lemma ObjectPrinted(c: Contract, d: Doubles, words: set<W.Word>, value: W.Word -> Json, printed: W.Word -> Json)
    requires Distinct(c) && forall w :: w in words ==> printed(w) == Printed(d, value(w))
    ensures Printed(d, Object(c, words, value)) == Object(c, words, printed)
  {
    var p, q := Printed(d, Object(c, words, value)).members, Object(c, words, printed).members;
    SameMap(p, q);
  }

  lemma FieldPrinted(c: Contract, d: Doubles, e: Envelope, w: W.Word)
    requires Distinct(c)
    ensures EnvelopeField(c, PrintedEnvelope(d, e), w) == Printed(d, EnvelopeField(c, e, w))
    ensures !w.Payload? ==> Everywhere(InRange(d), EnvelopeField(c, e, w))
  {
    if w.Payload? {
      assert EnvelopeField(c, e, w) == e.payload;
      assert EnvelopeField(c, PrintedEnvelope(d, e), w) == Printed(d, e.payload);
    } else {
      FieldNumberFree(c, e, w);
      PrintedWithoutNumbers(d, EnvelopeField(c, e, w));
      assert EnvelopeField(c, PrintedEnvelope(d, e), w) == EnvelopeField(c, e, w);
    }
  }

  /** An object of which one member can hold fractional numbers. */
  lemma OneMemberPrinted(c: Contract, d: Doubles, words: set<W.Word>, value: W.Word -> Json, printed: W.Word -> Json,
                         one: W.Word)
    requires Distinct(c) && one in words && forall w :: w in words ==> printed(w) == Printed(d, value(w))
    requires forall w :: w in words && w != one ==> Everywhere(InRange(d), value(w))
    ensures Printed(d, Object(c, words, value)) == Object(c, words, printed)
    ensures Everywhere(InRange(d), Object(c, words, value)) <==> Everywhere(InRange(d), value(one))
  {
    ObjectPrinted(c, d, words, value, printed);
    ObjectEverywhere(InRange(d), c, words, value);
  }

  /** Printing an envelope prints its payload and nothing else. */
  lemma EnvelopePrinted(c: Contract, d: Doubles, e: Envelope)
    requires Distinct(c)
    ensures Printed(d, EnvelopeJson(c, e)) == EnvelopeJson(c, PrintedEnvelope(d, e))
    ensures Everywhere(InRange(d), EnvelopeJson(c, e)) <==> Everywhere(InRange(d), e.payload)
  {
    forall w | w in ENVELOPE_KEYS
      ensures EnvelopeFields(c, PrintedEnvelope(d, e))(w) == Printed(d, EnvelopeFields(c, e)(w))
      ensures w != W.Payload ==> Everywhere(InRange(d), EnvelopeFields(c, e)(w))
    {
      FieldPrinted(c, d, e, w);
    }
    OneMemberPrinted(c, d, ENVELOPE_KEYS, EnvelopeFields(c, e), EnvelopeFields(c, PrintedEnvelope(d, e)), W.Payload);
  }

  // ---------------------------------------------------------------- round trip

  /**
   * When the receiver accepts a sent envelope: its correlation id and the labels and details of its identities are null
   * or say something, its numbers are written within range, and the interval of a hello is not written as zero.
   */
  predicate Arrives(c: Contract, d: Doubles, e: Envelope) {
    && Survives(e) && e.payload.Obj? && Everywhere(InRange(d), e.payload)
    && KeepsInterval(c, d, e.messageType, e.payload.members)
  }

  lemma PrintedSendable(c: Contract, d: Doubles, e: Envelope)
    requires Sendable(c, e)
    ensures ValidEnvelope(c, PrintedEnvelope(d, e))
    ensures Sendable(c, PrintedEnvelope(d, e)) <==> KeepsInterval(c, d, e.messageType, e.payload.members)
  {
    PrintedPayload(c, d, e.messageType, e.payload.members);
    PrintedObject(d, e.payload);
  }

  /**
   * What the receiver makes of every envelope that can be sent: the envelope with its numbers as written, or nothing.
   */
  lemma EnvelopeArrives(c: Contract, d: Doubles, e: Envelope)
    requires ValidContract(c) && ValidDoubles(d) && IsEnvelope(e) && Sendable(c, e)
    ensures SerializeEnvelope(c, d, e).Some?
    ensures ParseEnvelope(c, SerializeEnvelope(c, d, e).value) == if Arrives(c, d, e) then Some(PrintedEnvelope(d, e)) else None
  {
    var sent := PrintedEnvelope(d, e);
    EnvelopeHolds(c, e);
    ParseSerialized(d, EnvelopeJson(c, e));
    EnvelopePrinted(c, d, e);
    PrintedSendable(c, d, e);
    ObjectSpells(c, ENVELOPE_KEYS, EnvelopeFields(c, sent));
    EnvelopeReads(c, sent, EnvelopeJson(c, sent).members);
  }

  /** The received envelope says what the sent one says. */
  predicate SameEnvelope(d: Doubles, sent: Envelope, received: Envelope) {
    received == sent.(payload := received.payload) && Same(d, sent.payload, received.payload)
  }

  /** The condition under which a sendable envelope arrives as it was sent. */
  predicate ArrivesUnchanged(d: Doubles, e: Envelope) { Survives(e) && Everywhere(Printable(d), e.payload) }

  /**
   * A sendable envelope arrives as it was sent exactly when its correlation id and the labels and details of its
   * identities are null or say something and its numbers are written as literals of the same doubles.
   */
  lemma EnvelopeRoundTrip(c: Contract, d: Doubles, e: Envelope)
    requires ValidContract(c) && ValidDoubles(d) && IsEnvelope(e) && Sendable(c, e)
    ensures SerializeEnvelope(c, d, e).Some?
    ensures var back := ParseEnvelope(c, SerializeEnvelope(c, d, e).value);
      (back.Some? && SameEnvelope(d, e, back.value) <==> ArrivesUnchanged(d, e))
      && (Everywhere(NoNumber(), e.payload) ==> back == if Survives(e) then Some(e) else None)
  {
    EnvelopeArrives(c, d, e);
    PrintedSame(d, e.payload);
    if Everywhere(Printable(d), e.payload) {
      PrintableKeepsInterval(c, d, e.messageType, e.payload.members);
    }
    if Everywhere(NoNumber(), e.payload) {
      PrintedWithoutNumbers(d, e.payload);
      PrintedPayload(c, d, e.messageType, e.payload.members);
      PrintedSendable(c, d, e);
      assert PrintedEnvelope(d, e) == e;
    }
  }

  /**
   * A hello that is accepted with a tiny heartbeat interval is refused once it is sent on: its interval reads `0.0`.
   */
  lemma TinyIntervalLost(c: Contract, d: Doubles, e: Envelope, l: Literal)
    requires ValidContract(c) && ValidDoubles(d) && IsEnvelope(e) && Sendable(c, e) && e.messageType.BridgeHello?
    requires Get(c, e.payload.members, W.HeartbeatIntervalSeconds) == Num(l) && Tiny(l)
    ensures SerializeEnvelope(c, d, e).Some? && ParseEnvelope(c, SerializeEnvelope(c, d, e).value) == None
  {
    HeldMember(c, e.payload.members, W.HeartbeatIntervalSeconds);
    TinyIsLost(d, l);
    IntervalLost(c, d, e);
    EnvelopeArrives(c, d, e);
  }

  lemma HeldMember(c: Contract, o: map<Text, Json>, w: W.Word)
    requires Holds(Obj(o))
    ensures Holds(Get(c, o, w))
  {
  }

  lemma IntervalLost(c: Contract, d: Doubles, e: Envelope)
    requires e.messageType.BridgeHello? && e.payload.Obj?
    requires !IsPositiveNumber(Printed(d, Get(c, e.payload.members, W.HeartbeatIntervalSeconds)))
    ensures !Arrives(c, d, e)
  {
  }

  lemma TinyIsLost(d: Doubles, l: Literal)
    requires ValidDoubles(d) && WellFormedLiteral(l) && Tiny(l)
    ensures !IsPositiveNumber(Printed(d, Num(l)))
  {
    assert d.Rewritten(l) == ZERO;
    ZeroIsNotPositive(d);
  }

  /** There is such an interval: `1e-20` seconds. */
  lemma SmallIntervalAccepted(c: Contract, o: map<Text, Json>)
    requires Distinct(c) && ValidBridgeHello(c, o)
    ensures ValidBridgeHello(c, o[c.name(W.HeartbeatIntervalSeconds) := Num(SMALL)]) && Tiny(SMALL) && Holds(Num(SMALL))
  {
    SmallIsPositive();
    var h := c.name(W.HeartbeatIntervalSeconds);
    var p := o[h := Num(SMALL)];
    assert c.word(h) == Some(W.HeartbeatIntervalSeconds);
    assert h in o;
    assert p.Keys == o.Keys;
    OtherWord(c, o, W.Authenticated, Num(SMALL));
    OtherWord(c, o, W.MaximumMessageBytes, Num(SMALL));
    OtherWord(c, o, W.NegotiatedProtocolVersion, Num(SMALL));
  }

  lemma OtherWord(c: Contract, o: map<Text, Json>, w: W.Word, v: Json)
    requires Distinct(c) && !w.HeartbeatIntervalSeconds?
    ensures Get(c, o[c.name(W.HeartbeatIntervalSeconds) := v], w) == Get(c, o, w)
  {
    assert c.word(c.name(w)) == Some(w);
    assert c.word(c.name(W.HeartbeatIntervalSeconds)) == Some(W.HeartbeatIntervalSeconds);
  }

  lemma ReadableSurvives(c: Contract, o: map<Text, Json>)
    requires Readable(c, o) && Holds(Get(c, o, W.Payload))
    ensures Survives(ReadEnvelope(c, o)) && IsEnvelope(ReadEnvelope(c, o))
  {
  }

  /**
   * Whatever the parser accepts can be sent again, and arrives unchanged exactly when its numbers are written
   * faithfully.
   */
  lemma ParsedSurvives(c: Contract, d: Doubles, json: Text)
    requires ValidContract(c) && ValidDoubles(d) && ParseEnvelope(c, json).Some?
    ensures var e := ParseEnvelope(c, json).value;
      Survives(e) && IsEnvelope(e) && SerializeEnvelope(c, d, e).Some?
      && var back := ParseEnvelope(c, SerializeEnvelope(c, d, e).value);
        (back.Some? && SameEnvelope(d, e, back.value) <==> Everywhere(Printable(d), e.payload))
        && (Everywhere(NoNumber(), e.payload) ==> back == Some(e))
  {
    ParsedIsHeld(json);
    var o := Parse(json).value.members;
    ReadableSurvives(c, o);
    EnvelopeRoundTrip(c, d, ReadEnvelope(c, o));
  }

  /** The spelling of protocol version 3 meets what every lemma here asks of a contract. */
  lemma ProtocolNames(c: Contract)
    requires c.name == W.Name && c.word == W.WordOf
    ensures Distinct(c) && Legible(c)
  {
    forall w ensures c.word(c.name(w)) == Some(w) && !IsBlankText(c.name(w)) {
      W.NameRead(w);
    }
  }
}
