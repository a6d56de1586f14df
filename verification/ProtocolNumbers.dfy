/** What the inexact printing of numbers does to a payload: it passes validation as before, but for one member. */
module ProtocolNumbers {
  import opened Texts
  import opened Json
  import opened JsonRoundTrip
  import opened Protocol
  import W = Vocabulary

  /** The members of an object with every number as it is written. */
  function PrintedMembers(d: Doubles, o: map<Text, Json>): map<Text, Json> { map k | k in o :: Printed(d, o[k]) }

  lemma PrintedObject(d: Doubles, v: Json)
    ensures Protocol.Members(Printed(d, v)) == PrintedMembers(d, Protocol.Members(v))
    ensures Printed(d, v).Obj? <==> v.Obj?
  {
  }

  /** `p` has the members of `o`, printed. */
  ghost predicate PrintedAs(c: Contract, d: Doubles, o: map<Text, Json>, p: map<Text, Json>) {
    p.Keys == o.Keys && forall w {:trigger Get(c, p, w)} :: Get(c, p, w) == Printed(d, Get(c, o, w))
  }

  lemma PrintedGet(c: Contract, d: Doubles, o: map<Text, Json>)
    ensures PrintedAs(c, d, o, PrintedMembers(d, o))
  {
  }

  lemma PrintedExactly(c: Contract, d: Doubles, o: map<Text, Json>, p: map<Text, Json>, words: set<W.Word>)
    requires PrintedAs(c, d, o, p)
    ensures Exactly(c, p, words) <==> Exactly(c, o, words)
  {
    forall k ensures k in p <==> k in o {
      assert k in p.Keys <==> k in o.Keys;
    }
  }

  /** Everything but a fractional number is printed as the value it is. */
  lemma PrintedScalar(d: Doubles, v: Json)
    ensures v.Null? || v.Bool? || v.Int? || v.Str? ==> Printed(d, v) == v
    ensures Printed(d, v).Null? || Printed(d, v).Bool? || Printed(d, v).Int? || Printed(d, v).Str? ==>
      Printed(d, v) == v
    ensures v.Arr? <==> Printed(d, v).Arr?
    ensures TextOf(Printed(d, v)) == TextOf(v)
  {
  }

  lemma PrintedEmpty(d: Doubles, v: Json)
    ensures Printed(d, v) == Arr([]) <==> v == Arr([])
  {
  }

  lemma PrintedStrings(d: Doubles, v: Json)
    ensures SortedStrings(Printed(d, v)) <==> SortedStrings(v)
    ensures StringArray(Printed(d, v)) <==> StringArray(v)
  {
    PrintedScalar(d, v);
    if v.Arr? {
      var p := Printed(d, v);
      forall i | 0 <= i < |v.items| ensures p.items[i].Str? <==> v.items[i].Str? {
        PrintedScalar(d, v.items[i]);
      }
      forall i | 0 <= i < |v.items| ensures TextOf(p.items[i]) == TextOf(v.items[i]) {
        PrintedScalar(d, v.items[i]);
      }
      assert TextsOf(p.items) == TextsOf(v.items);
      assert (forall i :: 0 <= i < |p.items| ==> p.items[i].Str?) <==> (forall i :: 0 <= i < |v.items| ==> v.items[i].Str?);
    }
  }

  lemma PrintedIdentity(c: Contract, d: Doubles, v: Json)
    ensures ParseIdentity(c, Printed(d, v)) == ParseIdentity(c, v)
  {
    PrintedObject(d, v);
    if v.Obj? {
      var o, p := Protocol.Members(v), Protocol.Members(Printed(d, v));
      PrintedGet(c, d, o);
      PrintedExactly(c, d, o, p, IDENTITY_KEYS);
      PrintedScalar(d, Get(c, o, W.Status));
      PrintedScalar(d, Get(c, o, W.Value));
      PrintedScalar(d, Get(c, o, W.Label));
      PrintedScalar(d, Get(c, o, W.Detail));
    }
  }

  // ---------------------------------------------------------------- snapshots

  lemma PrintedEntity(c: Contract, d: Doubles, v: Json)
    ensures ValidEntity(c, Printed(d, v)) <==> ValidEntity(c, v)
    ensures EntityKey(c, Printed(d, v)) == EntityKey(c, v)
  {
    PrintedObject(d, v);
    var o, p := Protocol.Members(v), Protocol.Members(Printed(d, v));
    PrintedGet(c, d, o);
    PrintedExactly(c, d, o, p, {W.EntityId, W.EntityType, W.Values});
    PrintedScalar(d, Get(c, o, W.EntityType));
    PrintedScalar(d, Get(c, o, W.EntityId));
    PrintedObject(d, Get(c, o, W.Values));
  }

  lemma PrintedEntities(c: Contract, d: Doubles, items: seq<Json>)
    ensures ValidEntities(c, Printed(d, Arr(items)).items) <==> ValidEntities(c, items)
  {
    var p := Printed(d, Arr(items)).items;
    forall i | 0 <= i < |items|
      ensures (ValidEntity(c, p[i]) <==> ValidEntity(c, items[i])) && EntityKey(c, p[i]) == EntityKey(c, items[i])
    {
      PrintedEntity(c, d, items[i]);
    }
    assert EntityKeys(c, p) == EntityKeys(c, items);
  }

  lemma PrintedCoverage(c: Contract, d: Doubles, o: map<Text, Json>, p: map<Text, Json>)
    requires PrintedAs(c, d, o, p)
    ensures ValidCoverage(c, p) <==> ValidCoverage(c, o)
    ensures IsUnobserved(c, Get(c, p, W.Status)) <==> IsUnobserved(c, Get(c, o, W.Status))
    ensures TextOf(Get(c, p, W.Surface)) == TextOf(Get(c, o, W.Surface))
  {
    PrintedExactly(c, d, o, p, {W.Detail, W.Fields, W.Status, W.Surface});
    PrintedScalar(d, Get(c, o, W.Surface));
    PrintedScalar(d, Get(c, o, W.Status));
    PrintedScalar(d, Get(c, o, W.Detail));
    PrintedStrings(d, Get(c, o, W.Fields));
  }

  lemma PrintedSurface(c: Contract, d: Doubles, v: Json)
    ensures ValidSurface(c, Printed(d, v)) <==> ValidSurface(c, v)
    ensures SurfaceName(c, Printed(d, v)) == SurfaceName(c, v)
  {
    PrintedObject(d, v);
    var o, p := Protocol.Members(v), Protocol.Members(Printed(d, v));
    PrintedGet(c, d, o);
    PrintedExactly(c, d, o, p, {W.Coverage, W.Entities});
    var coverage, entities := Get(c, o, W.Coverage), Get(c, o, W.Entities);
    PrintedObject(d, coverage);
    PrintedGet(c, d, Protocol.Members(coverage));
    PrintedCoverage(c, d, Protocol.Members(coverage), PrintedMembers(d, Protocol.Members(coverage)));
    PrintedScalar(d, entities);
    PrintedEmpty(d, entities);
    if entities.Arr? { PrintedEntities(c, d, entities.items); }
  }

  lemma PrintedSurfaces(c: Contract, d: Doubles, v: Json)
    requires v.Arr?
    ensures ValidSurfaces(c, Printed(d, v).items) <==> ValidSurfaces(c, v.items)
  {
    var p := Printed(d, v).items;
    forall i | 0 <= i < |p|
      ensures (ValidSurface(c, p[i]) <==> ValidSurface(c, v.items[i]))
        && SurfaceName(c, p[i]) == SurfaceName(c, v.items[i])
    {
      PrintedSurface(c, d, v.items[i]);
    }
    assert SurfaceNames(c, p) == SurfaceNames(c, v.items);
  }

  lemma PrintedSnapshotTexts(c: Contract, d: Doubles, o: map<Text, Json>, p: map<Text, Json>)
    requires PrintedAs(c, d, o, p)
    ensures SnapshotTextsPresent(c, p) <==> SnapshotTextsPresent(c, o)
  {
    PrintedScalar(d, Get(c, o, W.CaptureTimestamp));
    PrintedScalar(d, Get(c, o, W.CaptureStartedMarker));
    PrintedScalar(d, Get(c, o, W.CaptureCompletedMarker));
    PrintedScalar(d, Get(c, o, W.BridgeInstanceId));
    PrintedScalar(d, Get(c, o, W.GameSessionId));
    PrintedScalar(d, Get(c, o, W.GameId));
    PrintedScalar(d, Get(c, o, W.GameVersion));
    PrintedScalar(d, Get(c, o, W.AdapterVersion));
    PrintedScalar(d, Get(c, o, W.Platform));
    PrintedScalar(d, Get(c, o, W.Architecture));
  }

  lemma PrintedSnapshot(c: Contract, d: Doubles, o: map<Text, Json>, p: map<Text, Json>)
    requires PrintedAs(c, d, o, p)
    ensures ValidSnapshot(c, p) <==> ValidSnapshot(c, o)
  {
    PrintedExactly(c, d, o, p, SNAPSHOT_KEYS);
    PrintedScalar(d, Get(c, o, W.SchemaVersion));
    PrintedScalar(d, Get(c, o, W.BridgeSequence));
    PrintedSnapshotTexts(c, d, o, p);
    PrintedIdentity(c, d, Get(c, o, W.MapIdentity));
    PrintedIdentity(c, d, Get(c, o, W.SaveIdentity));
    PrintedObject(d, Get(c, o, W.GameState));
    PrintedStrings(d, Get(c, o, W.Warnings));
    PrintedStrings(d, Get(c, o, W.Limitations));
    PrintedScalar(d, Get(c, o, W.Surfaces));
    if Get(c, o, W.Surfaces).Arr? { PrintedSurfaces(c, d, Get(c, o, W.Surfaces)); }
  }

  // ---------------------------------------------------------------- payloads

  lemma PrintedClientHello(c: Contract, d: Doubles, o: map<Text, Json>, p: map<Text, Json>)
    requires PrintedAs(c, d, o, p)
    ensures ValidClientHello(c, p) <==> ValidClientHello(c, o)
  {
    PrintedExactly(c, d, o, p, {W.AuthenticationToken, W.ClientInstanceId, W.ExpectedAdapterVersion, W.ExpectedGameId,
                                W.ExpectedGameVersion, W.RequestedProtocolVersion});
    PrintedScalar(d, Get(c, o, W.AuthenticationToken));
    PrintedScalar(d, Get(c, o, W.ExpectedAdapterVersion));
    PrintedScalar(d, Get(c, o, W.ExpectedGameId));
    PrintedScalar(d, Get(c, o, W.ExpectedGameVersion));
    PrintedScalar(d, Get(c, o, W.RequestedProtocolVersion));
    PrintedScalar(d, Get(c, o, W.ClientInstanceId));
  }

  /** The heartbeat interval is the one number that validation looks at: it has to be positive after printing too. */
  lemma PrintedBridgeHello(c: Contract, d: Doubles, o: map<Text, Json>, p: map<Text, Json>)
    requires PrintedAs(c, d, o, p) && ValidBridgeHello(c, o)
    ensures ValidBridgeHello(c, p) <==> IsPositiveNumber(Get(c, p, W.HeartbeatIntervalSeconds))
  {
    PrintedExactly(c, d, o, p, {W.Authenticated, W.HeartbeatIntervalSeconds, W.MaximumMessageBytes,
                                W.NegotiatedProtocolVersion});
    PrintedScalar(d, Get(c, o, W.Authenticated));
    PrintedScalar(d, Get(c, o, W.MaximumMessageBytes));
    PrintedScalar(d, Get(c, o, W.NegotiatedProtocolVersion));
  }

  lemma PrintedManifest(c: Contract, d: Doubles, o: map<Text, Json>, p: map<Text, Json>)
    requires PrintedAs(c, d, o, p)
    ensures ValidManifest(c, p) <==> ValidManifest(c, o)
  {
    PrintedExactly(c, d, o, p, {W.DeltaSnapshots, W.FullSnapshots, W.GameplayActions, W.ObservationSurfaces,
                                W.Resynchronization, W.SchemaVersion});
    PrintedScalar(d, Get(c, o, W.SchemaVersion));
    PrintedScalar(d, Get(c, o, W.FullSnapshots));
    PrintedScalar(d, Get(c, o, W.DeltaSnapshots));
    PrintedScalar(d, Get(c, o, W.Resynchronization));
    PrintedStrings(d, Get(c, o, W.ObservationSurfaces));
    PrintedEmpty(d, Get(c, o, W.GameplayActions));
  }

  lemma PrintedResynchronization(c: Contract, d: Doubles, o: map<Text, Json>, p: map<Text, Json>)
    requires PrintedAs(c, d, o, p)
    ensures ValidResynchronization(c, p) <==> ValidResynchronization(c, o)
  {
    PrintedExactly(c, d, o, p, {W.LastBridgeInstanceId, W.LastBridgeSequence, W.LastGameSessionId, W.Reason});
    PrintedScalar(d, Get(c, o, W.LastBridgeInstanceId));
    PrintedScalar(d, Get(c, o, W.LastGameSessionId));
    PrintedScalar(d, Get(c, o, W.LastBridgeSequence));
    PrintedScalar(d, Get(c, o, W.Reason));
  }

  lemma PrintedError(c: Contract, d: Doubles, o: map<Text, Json>, p: map<Text, Json>)
    requires PrintedAs(c, d, o, p)
    ensures ValidError(c, p) <==> ValidError(c, o)
  {
    PrintedExactly(c, d, o, p, {W.Code, W.Message, W.Retryable});
    PrintedScalar(d, Get(c, o, W.Code));
    PrintedScalar(d, Get(c, o, W.Message));
    PrintedScalar(d, Get(c, o, W.Retryable));
  }

  lemma PrintedSmallPayload(c: Contract, d: Doubles, t: MessageType, o: map<Text, Json>, p: map<Text, Json>)
    requires PrintedAs(c, d, o, p) && (t.AuthenticationFailure? || t.Heartbeat? || t.FullSnapshotRequest?)
    ensures ValidPayload(c, t, p) <==> ValidPayload(c, t, o)
  {
    if t.AuthenticationFailure? {
      PrintedExactly(c, d, o, p, {W.Reason});
      PrintedScalar(d, Get(c, o, W.Reason));
    } else if t.Heartbeat? {
      PrintedExactly(c, d, o, p, {W.Detail, W.Healthy});
      PrintedScalar(d, Get(c, o, W.Healthy));
      PrintedScalar(d, Get(c, o, W.Detail));
    } else {
      PrintedExactly(c, d, o, p, {W.ExpectedBridgeInstanceId, W.ExpectedGameSessionId});
      PrintedScalar(d, Get(c, o, W.ExpectedBridgeInstanceId));
      PrintedScalar(d, Get(c, o, W.ExpectedGameSessionId));
    }
  }

  lemma PrintedResponse(c: Contract, d: Doubles, o: map<Text, Json>, p: map<Text, Json>)
    requires PrintedAs(c, d, o, p)
    ensures ValidPayload(c, FullSnapshotResponse, p) <==> ValidPayload(c, FullSnapshotResponse, o)
  {
    PrintedExactly(c, d, o, p, {W.Snapshot});
    var v := Get(c, o, W.Snapshot);
    PrintedObject(d, v);
    PrintedGet(c, d, Protocol.Members(v));
    PrintedSnapshot(c, d, Protocol.Members(v), PrintedMembers(d, Protocol.Members(v)));
  }

  /** The number of a hello that has to stay positive does so when it is printed. */
  predicate KeepsInterval(c: Contract, d: Doubles, t: MessageType, o: map<Text, Json>) {
    t.BridgeHello? ==> IsPositiveNumber(Printed(d, Get(c, o, W.HeartbeatIntervalSeconds)))
  }

  /** A valid payload is still valid after printing exactly when the heartbeat interval of a hello stays positive. */
  lemma PrintedPayload(c: Contract, d: Doubles, t: MessageType, o: map<Text, Json>)
    requires ValidPayload(c, t, o)
    ensures ValidPayload(c, t, PrintedMembers(d, o)) <==> KeepsInterval(c, d, t, o)
  {
    var p := PrintedMembers(d, o);
    PrintedGet(c, d, o);
    match t {
      case ClientHello => PrintedClientHello(c, d, o, p);
      case BridgeHello => PrintedBridgeHello(c, d, o, p);
      case CapabilityManifest => PrintedManifest(c, d, o, p);
      case FullSnapshotResponse => PrintedResponse(c, d, o, p);
      case ResynchronizationRequest => PrintedResynchronization(c, d, o, p);
      case ProtocolError => PrintedError(c, d, o, p);
      case AuthenticationFailure => PrintedSmallPayload(c, d, t, o, p);
      case Heartbeat => PrintedSmallPayload(c, d, t, o, p);
      case FullSnapshotRequest => PrintedSmallPayload(c, d, t, o, p);
    }
  }

  /** A number that is written faithfully stays positive. */
  lemma PrintableKeepsInterval(c: Contract, d: Doubles, t: MessageType, o: map<Text, Json>)
    requires ValidDoubles(d) && Holds(Obj(o)) && ValidPayload(c, t, o) && Everywhere(Printable(d), Obj(o))
    ensures KeepsInterval(c, d, t, o)
  {
    var v := Get(c, o, W.HeartbeatIntervalSeconds);
    if t.BridgeHello? && v.Num? {
      var l := v.literal;
      assert Holds(v) && Everywhere(Printable(d), v);
      RewrittenLiteral(d, l);
      RewrittenLiteral(d, d.Rewritten(l));
    }
  }
}
