# Sim Pilot bridge and analysis: verified model

Sim Pilot reads the state of a running game through a bridge inside the game process and answers questions about it.
This project models the parts of it whose correctness does not show in any single function, and proves them in Dafny
4.11. `dafny verify dfyconfig.toml` checks everything.

- **Wire codec** (`Texts`, `Json`, `JsonAlphabet`, `JsonReading`, `JsonProofs`, `JsonRoundTrip`, `StrictJson`, `Framing`): a strict JSON
  printer and recursive-descent parser on UTF-16 units, set against the grammar of RFC 8259 written as derivation trees,
  and the four-byte length prefix with its short-read loop.
- **Envelopes and snapshots** (`Vocabulary`, `Timestamps`, `Protocol`, `ProtocolNumbers`, `ProtocolRoundTrip`, `Refusals`,
  `Snapshot`, `SnapshotReader`, `ProtocolLoops`): the envelope of protocol version 3 with its validator and what it refuses,
  the snapshot producer against the validator it must satisfy, and an independent reader that holds what was captured.
- **Server and client** (`Ownership`, `OwnershipProofs`, `TokenCheck`, `Session`, `SessionRuns`, `Messages`,
  `SessionMessages`, `BridgeServer`, `Client`, `ClientOutcomes`, `GameBridgeClient`, `Requests`, `Delivery`, `DeliveryTexts`,
  `DeliveryReplies`): the accept loop and handlers as an interleaving of single shared accesses, one connection of the
  server, the client's calls, both ends with the messages in flight between them over many connections, and the texts these
  messages travel as.
- **Main-thread capture** (`Capture`, `CaptureProofs`, `CaptureOutcomes`): the one-slot mailbox between background callers, the game's main
  thread and the disposer, with timeouts.
- **Analysis** (`Analysis`, `AnalysisProofs`, `AnalysisOutcomes`, `AnalysisLoops`, `Keywords`, `Compiler`, `QuestionTexts`,
  `CompilerProofs`, `CompilerOutcomes`): pruning, answer composition, inspection guidance and ranking checks over arbitrary analyzer results; the keyword compiler
  and its closed catalogue.
- **Cache, budget, duplicates** (`SnapshotCache`, `Budget`, `Duplicates`): the identity-bound snapshot cache with the
  locked sequence that drives it, the provider-call budget of an evaluation run, and the bounded duplicate tracker.

Code that computes is modelled by functions and lemmas. Code that updates fields or loops is modelled by classes and
methods, each proved equal to a specification function, and the promises are proved about that function. Threads are
modelled as state machines whose steps are the single accesses to shared state, and the results hold for every run.

What a caller, a game, a stream or a clock may do is a parameter: the outcome of every read and write, what every capture
delivers, when heartbeats fall due, where timeouts strike, what the analyzer returned, what the filters let through.

How the platform reads and shows doubles is a parameter too (`Json.Doubles`): of reading it is asked that the sign is kept,
of showing that the result has a point and at most seventeen decimals and that 2.0, the heartbeat interval of every hello, is
shown as such (`JsonRoundTrip.SomePlatform` meets that).

Some things the code does that its names do not say are kept and stated: `connect` sets the failed state and then closes,
which overwrites it, so that the failed state never outlives the call (`Client.CallsKeepValid`); a request of the
deterministic compiler about vehicles losing money would be rejected if a provider had made it
(`CompilerProofs.LosingVehiclesDiffer`), and one whose words change when their case is folded as well
(`CompilerProofs.HealthLossDiffers`); a number too small for seventeen decimals is sent as zero, so that a hello with such a
heartbeat interval is refused on arrival (`ProtocolRoundTrip.TinyIntervalLost`); and an envelope with a blank label passes
validation when it is sent and is refused when it is received (`ProtocolRoundTrip.EnvelopeArrives`).

## Model

| member | source | states |
|---|---|---|
| `JsonProofs.ParseExact` | rail_route_bridge/src/SimPilot.GameBridge.Core/StrictJson.cs:50-58 | Parsing a text gives a value exactly when the text is a JSON text of RFC 8259, sections 2 to 7 (white space included), with no key twice in an object, every integer within signed 64 bits and no other number overflowing a double, and the value is what its derivation denotes. The grammar is a separate definition by derivation trees. |
| `JsonProofs.ParseRefuses` | rail_route_bridge/src/SimPilot.GameBridge.Core/StrictJson.cs:145-290 | The parser ends on every text and refuses exactly the texts that have no acceptable derivation. |
| `JsonProofs.GrammarExact` | rail_route_bridge/src/SimPilot.GameBridge.Core/StrictJson.cs:50-58 | Of the texts of RFC 8259, with any white space around them, the parser refuses exactly those with a number out of range or a repeated key, and gives every other its meaning. |
| `JsonProofs.DerivationRead` | rail_route_bridge/src/SimPilot.GameBridge.Core/StrictJson.cs:145-161 | After any white space, the text of any derivation followed by any suffix (one that cannot continue a number, if it is a number) is read to its meaning, stopping exactly at the suffix, unless it breaks a limit of the bridge, and then it is refused. |
| `JsonProofs.DerivationOf` | rail_route_bridge/src/SimPilot.GameBridge.Core/StrictJson.cs:145-161 | Whatever prefix is consumed with success is white space and the text of an acceptable derivation of the value returned. |
| `JsonProofs.MembersOf` | rail_route_bridge/src/SimPilot.GameBridge.Core/StrictJson.cs:268-290 | The members read are a derivation without a repeated key, and denote the map returned. |
| `JsonProofs.MagnitudeSplits` | rail_route_bridge/src/SimPilot.GameBridge.Core/StrictJson.cs:171-207 | A number that is read is a literal of the grammar, and literal and rest are the text. |
| `JsonRoundTrip.RoundTrip` | rail_route_bridge/src/SimPilot.GameBridge.Core/StrictJson.cs:60-131 | For every printing of doubles by the platform: a value of any depth is parsed back from its serialized text as the same value exactly when each fractional number in it is written within range and as a literal of the same double; one without fractional numbers comes back identical. |
| `JsonRoundTrip.ReadsBack` | rail_route_bridge/src/SimPilot.GameBridge.Core/StrictJson.cs:60-131 | With any suffix that cannot continue a number (nothing, a comma, a closing bracket among them), the serialized value is read back with its numbers as they were written and the suffix is left, or, if a written number is out of range, refused. |
| `JsonRoundTrip.CanonicalCorrect` | rail_route_bridge/src/SimPilot.GameBridge.Core/StrictJson.cs:67-104 | The serialized text is a text of the grammar and denotes the value with its numbers as they are written; it keeps the limits exactly when those numbers are in range. Printer and grammar meet without the parser. |
| `JsonRoundTrip.TextPiecesValue` | rail_route_bridge/src/SimPilot.GameBridge.Core/StrictJson.cs:106-131 | Every sequence of UTF-16 units survives the escapes of the string writer. |
| `JsonRoundTrip.IntegerLiteralReads` | rail_route_bridge/src/SimPilot.GameBridge.Core/StrictJson.cs:73-73 | The decimal text of every signed 64-bit integer is a literal of the grammar with that value. |
| `JsonRoundTrip.ParsedHolds` | rail_route_bridge/src/SimPilot.GameBridge.Core/StrictJson.cs:50-65 | Everything the parser returns can be serialized, and that text is parsed to the same value exactly when each fractional number in it is written as a literal of the same double. |
| `JsonRoundTrip.SmallIsLost` | rail_route_bridge/src/SimPilot.GameBridge.Core/StrictJson.cs:74-74 | The loss is real: the number 1e-20 is held, is written as 0.0 with at most seventeen decimals, and comes back as another double that is not positive. |
| `JsonAlphabet.EscapesExact` | rail_route_bridge/src/SimPilot.GameBridge.Core/StrictJson.cs:224-236 | The two-character escapes are those of section 7 of RFC 8259, each with its meaning, and no others. |
| `JsonAlphabet.HexExact` | rail_route_bridge/src/SimPilot.GameBridge.Core/StrictJson.cs:242-249 | A hexadecimal digit has the value of its place among the sixteen, in either case, and nothing else is one. |
| `JsonAlphabet.BlanksExact` | rail_route_bridge/src/SimPilot.GameBridge.Core/StrictJson.cs:145-161 | White space is space, tab, line feed and carriage return; an exponent begins with either case of the letter e. |
| `JsonAlphabet.DoubleRange` | rail_route_bridge/src/SimPilot.GameBridge.Core/StrictJson.cs:171-207 | The limit on fractional numbers lies where the doubles end: 1e308 is within it and 2e308 is not. |
| `StrictJson.SerializeText` | rail_route_bridge/src/SimPilot.GameBridge.Core/StrictJson.cs:60-65 | The loops that append to the shared builder produce the specified text, keys in ordinal order, numbers as the platform shows their doubles. |
| `StrictJson.WriteObject` | rail_route_bridge/src/SimPilot.GameBridge.Core/StrictJson.cs:87-101 | The object loop appends exactly the specified members after sorting the keys. |
| `StrictJson.WriteString` | rail_route_bridge/src/SimPilot.GameBridge.Core/StrictJson.cs:106-131 | The character loop appends exactly the escaped, quoted string. |
| `StrictJson.ParseText` | rail_route_bridge/src/SimPilot.GameBridge.Core/StrictJson.cs:50-58 | The recursive-descent parser over a moving index returns what the reading function of the text says; with ParseExact it accepts exactly the grammar. |
| `StrictJson.Parser.ReadValue` | rail_route_bridge/src/SimPilot.GameBridge.Core/StrictJson.cs:145-161 | One call returns the value at the index and leaves the index where the reading function's rest begins. |
| `StrictJson.Parser.ReadObject` | rail_route_bridge/src/SimPilot.GameBridge.Core/StrictJson.cs:268-290 | The member loop agrees with the reading function, repeated keys refused. |
| `StrictJson.Parser.ReadArray` | rail_route_bridge/src/SimPilot.GameBridge.Core/StrictJson.cs:251-266 | The item loop agrees with the reading function. |
| `StrictJson.Parser.ReadString` | rail_route_bridge/src/SimPilot.GameBridge.Core/StrictJson.cs:209-240 | The character loop agrees with the reading function: control characters and unknown escapes refused. |
| `StrictJson.Parser.ReadInteger` | rail_route_bridge/src/SimPilot.GameBridge.Core/StrictJson.cs:171-207 | The digit, fraction and exponent loops agree with the reading function, the 64-bit bound included. |
| `Texts.AscendingIsSorted` | rail_route_bridge/src/SimPilot.GameBridge.Core/StrictJson.cs:89-90 | A set of texts has one strictly rising ordinal order only. |
| `Texts.SortOrdinal` | rail_route_bridge/src/SimPilot.GameBridge.Core/StrictJson.cs:89-90 | Sorting the keys of an object yields that order. |
| `Framing.PrefixesAgree` | src/sim_pilot/game_bridge/client.py:257-261 | The bytes the bridge writes for a length and those the client packs are the same for every length below 2^32, and each side reads the other's. |
| `Framing.DecodeExact` | rail_route_bridge/src/SimPilot.GameBridge.Core/LengthPrefixedFrame.cs:9-18 | A frame is read exactly when the bytes start with a prefix and a payload of valid length; neither more nor less is consumed. |
| `Framing.WireDecodes` | rail_route_bridge/src/SimPilot.GameBridge.Core/LengthPrefixedFrame.cs:9-30 | Any list of messages of valid length, written one after the other, is read back as the same list. |
| `Framing.ReadExact` | rail_route_bridge/src/SimPilot.GameBridge.Core/LengthPrefixedFrame.cs:32-43 | The short-read loop fills its buffer with exactly the next bytes, however the stream splits them, and fails exactly when the stream ends first. |
| `Framing.Read` | rail_route_bridge/src/SimPilot.GameBridge.Core/LengthPrefixedFrame.cs:9-18 | Reading a frame from the stream agrees with the specification of frames under every splitting of reads. |
| `Framing.Write` | rail_route_bridge/src/SimPilot.GameBridge.Core/LengthPrefixedFrame.cs:20-30 | A message of valid length is appended as one frame; any other is refused and nothing is written. |
| `Timestamps.TimeRoundTrip` | rail_route_bridge/src/SimPilot.GameBridge.Core/Protocol.cs:378-385 | Every UTC instant is read back from its text to the tick, trailing zeros of the fraction trimmed. |
| `Timestamps.GregorianCalendar` | rail_route_bridge/src/SimPilot.GameBridge.Core/Protocol.cs:378-385 | The dates of the instants are those of the Gregorian calendar: the days before a year are 365 for each, one more for every fourth, one less for every hundredth, one more for every four hundredth. |
| `Protocol.IdentityRoundTrip` | rail_route_bridge/src/SimPilot.GameBridge.Core/Protocol.cs:366-368 | A valid identity is read back unchanged exactly when label and detail are null or non-blank; otherwise its text is refused. |
| `Protocol.MessageTypeRoundTrip` | rail_route_bridge/src/SimPilot.GameBridge.Core/Protocol.cs:386-387 | Every message type is read back from its name. |
| `Protocol.ExactlyMeans` | rail_route_bridge/src/SimPilot.GameBridge.Core/Protocol.cs:370-370 | The key check says that the keys of the object are the expected ones, as a set. |
| `ProtocolRoundTrip.EnvelopeRoundTrip` | rail_route_bridge/src/SimPilot.GameBridge.Core/Protocol.cs:131-184 | An envelope that passes validation arrives as it was sent exactly when the correlation id and the identities' labels and details are null or non-blank and each fractional number of its payload is written as a literal of the same double; without fractional numbers the first condition alone decides, and the envelope arrives identical or not at all. |
| `ProtocolRoundTrip.EnvelopeArrives` | rail_route_bridge/src/SimPilot.GameBridge.Core/Protocol.cs:131-184 | What the receiver makes of every envelope that passes validation: it accepts it, with its numbers as written, exactly when those texts are null or non-blank, its numbers are written in range and the heartbeat interval of a hello is not written as zero; otherwise it refuses the text. |
| `ProtocolRoundTrip.TinyIntervalLost` | rail_route_bridge/src/SimPilot.GameBridge.Core/Protocol.cs:209-211 | A hello with a heartbeat interval of at most 10^-18 passes validation where it is made, and is refused where it arrives. |
| `ProtocolRoundTrip.SmallIntervalAccepted` | rail_route_bridge/src/SimPilot.GameBridge.Core/Protocol.cs:209-211 | There is such an interval in every valid hello: 1e-20 in place of its own. |
| `ProtocolNumbers.PrintedPayload` | rail_route_bridge/src/SimPilot.GameBridge.Core/Protocol.cs:200-261 | Printing the numbers of a valid payload of any message type, snapshots included, leaves it valid, except for a hello whose interval is no longer positive. |
| `ProtocolRoundTrip.ParsedSurvives` | rail_route_bridge/src/SimPilot.GameBridge.Core/Protocol.cs:131-184 | Every envelope the parser accepts can be serialized again, and arrives unchanged exactly when the fractional numbers of its payload are written as literals of the same doubles. |
| `ProtocolRoundTrip.ProtocolNames` | rail_route_bridge/src/SimPilot.GameBridge.Core/Protocol.cs:129-129 | The spelling of protocol version 3 gives every word a different, non-blank name, as the lemmas ask of a contract. |
| `Refusals.DefectsExact` | rail_route_bridge/src/SimPilot.GameBridge.Core/Protocol.cs:188-198 | An envelope passes validation exactly when it has none of the listed defects: another protocol, adapter, game, version or machine, a blank id, a sequence below one, a bad identity, a time that is not UTC, a payload that is no object, a response that does not name what it answers. |
| `Refusals.DefectiveRefused` | rail_route_bridge/src/SimPilot.GameBridge.Core/Protocol.cs:131-184 | An envelope with one such defect is not serialized, and no text is parsed as it. |
| `Refusals.WrongKeysRefused` | rail_route_bridge/src/SimPilot.GameBridge.Core/Protocol.cs:200-233 | A payload of any message type with a key too many or one missing is invalid. |
| `Refusals.HelloRefused` | rail_route_bridge/src/SimPilot.GameBridge.Core/Protocol.cs:204-208 | A hello with a token that is blank or shorter than 32, a blank client id, or another adapter, game, version or protocol is invalid. |
| `Refusals.WelcomeRefused` | rail_route_bridge/src/SimPilot.GameBridge.Core/Protocol.cs:209-211 | So is an answer to it that is not authenticated, has no positive interval, a frame limit outside 1024 to 16777216, or another version. |
| `Refusals.ManifestRefused` | rail_route_bridge/src/SimPilot.GameBridge.Core/Protocol.cs:216-221 | So is a manifest with actions or deltas, without snapshots or resynchronization, of another schema, or with surfaces out of order. |
| `Refusals.RequestRefused` | rail_route_bridge/src/SimPilot.GameBridge.Core/Protocol.cs:214-230 | So are a snapshot request that expects nobody, a resynchronization that starts below one or gives no reason, an error of an unknown code, without a word or without saying whether to try again, and a heartbeat that does not say how the bridge is. |
| `Refusals.BlankRefused` | rail_route_bridge/src/SimPilot.GameBridge.Core/Protocol.cs:214-228 | So are a heartbeat with a blank detail and a resynchronization that remembers a blank bridge or session. |
| `Refusals.SurfacesRefused` | rail_route_bridge/src/SimPilot.GameBridge.Core/Protocol.cs:240-260 | Surfaces or entities out of order, entities on an unobserved surface and entities without type or identifier make a snapshot invalid. |
| `Vocabulary.NameRead` | rail_route_bridge/src/SimPilot.GameBridge.Core/Protocol.cs:386-390 | No two keys or fixed values of the protocol are spelled alike: the spelling gives the word back. |
| `Snapshot.PayloadExact` | rail_route_bridge/src/SimPilot.GameBridge.Core/Protocol.cs:235-313 | The snapshot payload that is built from a captured state passes the separately written validator exactly when the state is sound: texts non-blank, fields strictly sorted, no entities on unobserved surfaces, joined entity keys strictly sorted. |
| `Snapshot.SurfaceExact` | rail_route_bridge/src/SimPilot.GameBridge.Core/Protocol.cs:321-336 | The same for one surface: its encoding is valid exactly when the surface is sound. |
| `Snapshot.ReportedSorted` | rail_route_bridge/src/SimPilot.GameBridge.Core/Protocol.cs:298-313 | The merged surfaces carry exactly the names of the contract and the game state, sorted and unique, whatever was supplied. |
| `Snapshot.ReportedSound` | rail_route_bridge/src/SimPilot.GameBridge.Core/Protocol.cs:298-313 | All merged surfaces are sound exactly when the game-state detail is non-blank and every contract surface was supplied sound or has a non-blank name. |
| `Snapshot.JoinedOrder` | rail_route_bridge/src/SimPilot.GameBridge.Core/Protocol.cs:255-257 | Without a NUL in the types, the ordinal order of the NUL-joined keys is the lexicographic order of the pairs. |
| `Snapshot.EntityOrderAgrees` | software_inc_bridge/bridge/SimPilotSoftwareIncBridge.cs:2173-2177 | Entities sorted by the adapter's comparison satisfy the validator's order exactly, if no type holds a NUL. |
| `Snapshot.NulBreaksOrder` | rail_route_bridge/src/SimPilot.GameBridge.Core/Protocol.cs:255-257 | With a NUL in a type the orders part: two non-blank entities, sorted for the adapter, that the validator refuses. |
| `Snapshot.ProtocolFieldsInOrder` | rail_route_bridge/src/SimPilot.GameBridge.Core/Protocol.cs:350-355 | The standard game-state fields are appended in ordinal order. |
| `SnapshotReader.PayloadTells` | rail_route_bridge/src/SimPilot.GameBridge.Core/Protocol.cs:276-336 | A receiver that reads a snapshot payload by the words of the protocol holds exactly what was captured: time, number, identities, game state, and for every reported surface its name, status, fields, detail and entities. The reader is written without the encoder. |
| `SnapshotReader.SurfaceRead` | rail_route_bridge/src/SimPilot.GameBridge.Core/Protocol.cs:321-336 | One surface is read back with the status, fields, detail and entities it was written with. |
| `SnapshotReader.StatusRead` | rail_route_bridge/src/SimPilot.GameBridge.Core/Protocol.cs:388-389 | Each of the five coverage statuses is read back from its own word. |
| `SnapshotReader.StandardRead` | rail_route_bridge/src/SimPilot.GameBridge.Core/Protocol.cs:315-319 | Each of the four game-state keys carries its own member of the state. |
| `SnapshotReader.ReportedTells` | rail_route_bridge/src/SimPilot.GameBridge.Core/Protocol.cs:298-313 | What is reported under a name is the game state, or the surface that was supplied under that name, or that the surface is not supported. |
| `SnapshotReader.GameStateStatus` | rail_route_bridge/src/SimPilot.GameBridge.Core/Protocol.cs:358-364 | The game state is reported complete, partial or unavailable as all, some or none of its values were observed. |
| `SnapshotReader.FieldsAreValued` | rail_route_bridge/src/SimPilot.GameBridge.Core/Protocol.cs:341-356 | The fields listed for the game state are exactly the keys under which the receiver finds a value. |
| `Messages.ReplySendable` | rail_route_bridge/src/SimPilot.GameBridge.Core/BridgeServer.cs:217-242 | An envelope that the server builds passes its own validator exactly when the bridge has a name, the game runs in the supported version on a known machine and says who it is, and its kind has what it needs: a frame limit the protocol allows, a known error code with some wording, a sound snapshot. |
| `Messages.ReplyArrives` | rail_route_bridge/src/SimPilot.GameBridge.Core/BridgeServer.cs:217-242 | Such an envelope is serialized and parsed back; every message but a snapshot arrives identical, a snapshot with its numbers as they are written. |
| `Messages.HelloTells` | rail_route_bridge/src/SimPilot.GameBridge.Core/Protocol.cs:263-263 | The receiver of a hello finds that it is authenticated, the version, the frame limit and an interval of two seconds. |
| `Messages.BeatAndErrorTell` | rail_route_bridge/src/SimPilot.GameBridge.Core/Protocol.cs:265-265 | The receiver of a heartbeat finds that the bridge is well, that of an error its code and wording, and that trying again is of no use. |
| `SessionMessages.EveryReplyArrives` | rail_route_bridge/src/SimPilot.GameBridge.Core/BridgeServer.cs:110-242 | For every behaviour of client, game and stream, whatever a connection sends is serialized and parsed back as the envelope that was meant: hellos, manifests, heartbeats, authentication failures and errors identical, snapshots with their numbers as written. |
| `SessionMessages.RepliesShaped` | rail_route_bridge/src/SimPilot.GameBridge.Core/BridgeServer.cs:110-242 | Over a whole connection every reply has a kind the server may send, names what it answers where it must, carries a code of the protocol if it is an error, and tells a state captured in one of the turns. |
| `ProtocolLoops.Exact` | rail_route_bridge/src/SimPilot.GameBridge.Core/Protocol.cs:370-370 | Striking out keys one by one decides equality of the key sets. |
| `ProtocolLoops.CheckSortedStrings` | rail_route_bridge/src/SimPilot.GameBridge.Core/Protocol.cs:377-377 | Comparing each string with the one before decides strict sortedness of the whole array. |
| `ProtocolLoops.CheckEntities` | rail_route_bridge/src/SimPilot.GameBridge.Core/Protocol.cs:250-259 | The entity loop decides the validity of all entities and the strict order of their keys. |
| `ProtocolLoops.CheckSurfaces` | rail_route_bridge/src/SimPilot.GameBridge.Core/Protocol.cs:240-260 | The surface loop decides the validity of all surfaces and the strict order of their names. |
| `ProtocolLoops.ListGameStateFields` | rail_route_bridge/src/SimPilot.GameBridge.Core/Protocol.cs:341-356 | The field list is built as specified. |
| `ProtocolLoops.IndexSurfaces` | rail_route_bridge/src/SimPilot.GameBridge.Core/Protocol.cs:300-301 | Indexing by name fails exactly when a name comes twice, and then looks up what was supplied. |
| `ProtocolLoops.MergeSurfaces` | rail_route_bridge/src/SimPilot.GameBridge.Core/Protocol.cs:298-313 | Index, merge and sort yield exactly the reported surfaces in ordinal order. |
| `OwnershipProofs.SingleOwner` | rail_route_bridge/src/SimPilot.GameBridge.Core/BridgeServer.cs:60-108 | In every interleaving of the accept loop and the handlers the flag is set exactly when one client owns it, and never two do. |
| `OwnershipProofs.MessagesCoherent` | rail_route_bridge/src/SimPilot.GameBridge.Core/BridgeServer.cs:203-242 | Over the server's whole life: the sequence promised in a snapshot body, the one minted into the message id and the one read again for the envelope are equal; ids are never reused; consecutive messages to one client have consecutive numbers. |
| `OwnershipProofs.CounterRises` | rail_route_bridge/src/SimPilot.GameBridge.Core/BridgeServer.cs:219-242 | The counter never falls over the life of the server, and no message carries a number above it: a later connection gets numbers above all that were spent before it. |
| `OwnershipProofs.SendsAreAtomic` | rail_route_bridge/src/SimPilot.GameBridge.Core/BridgeServer.cs:203-242 | The fine-grained server refines one whose sends are atomic: seen from the wire, each write is one send under the next number, a handler that ends with a number under way loses exactly that number, and every other step is nothing. |
| `OwnershipProofs.StepInv` | rail_route_bridge/src/SimPilot.GameBridge.Core/BridgeServer.cs:60-108 | Each single access of each thread keeps the invariant behind these results. |
| `OwnershipProofs.TwoHandlersTear` | rail_route_bridge/src/SimPilot.GameBridge.Core/BridgeServer.cs:212-236 | Two handlers that ran side by side would promise one sequence and mint another: ownership is needed. |
| `OwnershipProofs.UndisturbedSend` | rail_route_bridge/src/SimPilot.GameBridge.Core/BridgeServer.cs:217-242 | A send that nobody disturbs puts exactly one message on the wire, under the next number. |
| `OwnershipProofs.UndisturbedSnapshot` | rail_route_bridge/src/SimPilot.GameBridge.Core/BridgeServer.cs:203-215 | A snapshot that nobody disturbs does so too, and repeats that number in its body. |
| `OwnershipProofs.WaitingIsServed` | rail_route_bridge/src/SimPilot.GameBridge.Core/BridgeServer.cs:80-108 | A client that is waiting when the owner releases the flag gets the flag and a handler. |
| `OwnershipProofs.TurnedAway` | rail_route_bridge/src/SimPilot.GameBridge.Core/BridgeServer.cs:80-91 | While the flag is held a new client is tried for exactly 25 times, and then turned away without a trace. |
| `OwnershipProofs.StopEndsLoop` | rail_route_bridge/src/SimPilot.GameBridge.Core/BridgeServer.cs:52-78 | A stopped server leaves its accept loop. |
| `OwnershipProofs.StoppedStays` | rail_route_bridge/src/SimPilot.GameBridge.Core/BridgeServer.cs:60-78 | After that no client is accepted any more, whatever the handlers still do. |
| `TokenCheck.FixedTimeEquals` | rail_route_bridge/src/SimPilot.GameBridge.Core/BridgeServer.cs:251-259 | The comparison loop returns true exactly on equal bytes, and divides by zero exactly when one input alone is empty. |
| `Session.NothingBeforeToken` | rail_route_bridge/src/SimPilot.GameBridge.Core/BridgeServer.cs:110-139 | No hello, manifest, snapshot or heartbeat is ever sent on a connection whose first frame did not carry the right token. |
| `Session.ProcessedInOrder` | rail_route_bridge/src/SimPilot.GameBridge.Core/BridgeServer.cs:140-194 | In every run the processed requests have pairwise distinct ids and contiguous sequences, starting from the hello. |
| `Session.NothingAfterError` | rail_route_bridge/src/SimPilot.GameBridge.Core/BridgeServer.cs:117-194 | After an error or authentication failure nothing more is read, processed or sent, whatever the client does. |
| `Session.RepliesNumbered` | rail_route_bridge/src/SimPilot.GameBridge.Core/BridgeServer.cs:203-242 | The numbers on the wire follow each other without a gap, and every snapshot body repeats the number it travels under. |
| `SessionRuns.RunExact` | rail_route_bridge/src/SimPilot.GameBridge.Core/BridgeServer.cs:110-215 | A connection is up after a run exactly when every turn of it was in order: an authentic hello, then heartbeats and requests, each with an id none of the frames before it had, the number that follows theirs, the right bridge, identities and expectations, and an answer that could be built and written. It has then processed every frame and was sent exactly the hellos, manifests, snapshots and heartbeats those turns call for, numbered in order. |
| `SessionRuns.RunError` | rail_route_bridge/src/SimPilot.GameBridge.Core/BridgeServer.cs:159-193 | After any orderly run the next request, if it is not answered, ends the connection by exactly one error, whose code names the first check it fails against all frames of the run. |
| `SessionRuns.RefusedExact` | rail_route_bridge/src/SimPilot.GameBridge.Core/BridgeServer.cs:117-134 | A connection whose first read is not a hello with the right token is over, whatever the client does afterwards: a wrong token is answered by exactly one authentication failure, another first message by `protocol_mismatch`, a malformed text by `malformed_envelope`, silence by nothing, and no request is processed. |
| `SessionRuns.NumbersSpent` | rail_route_bridge/src/SimPilot.GameBridge.Core/BridgeServer.cs:217-242 | While every write succeeds the numbers spent are those of the messages sent, errors included. |
| `SessionRuns.FailedWriteSpends` | rail_route_bridge/src/SimPilot.GameBridge.Core/BridgeServer.cs:217-242 | A write that fails spends its number, whatever it was to carry, and ends the connection. |
| `BridgeServer.BridgeServer.HandleClient` | rail_route_bridge/src/SimPilot.GameBridge.Core/BridgeServer.cs:110-194 | The handler's loop over frames, with its fields, does what the specification of a connection says for every behaviour of client, game and stream. |
| `BridgeServer.BridgeServer.ServeTurn` | rail_route_bridge/src/SimPilot.GameBridge.Core/BridgeServer.cs:140-193 | One pass of the loop, the id set and the sequence updated in the source's order. |
| `BridgeServer.BridgeServer.AcceptHello` | rail_route_bridge/src/SimPilot.GameBridge.Core/BridgeServer.cs:110-139 | Everything before the loop. |
| `BridgeServer.BridgeServer.TryAcquireClient` | rail_route_bridge/src/SimPilot.GameBridge.Core/BridgeServer.cs:80-91 | The flag is won exactly when one of the 25 attempts finds it free. |
| `Client.AwaitExact` | src/sim_pilot/game_bridge/client.py:166-191 | The wait for a snapshot returns one exactly when finitely many in-order heartbeats, then a snapshot that answers this very request, agrees with its envelope and continues the timeline, come first; and it returns that one and leaves the rest unread. |
| `Client.SnapshotAnswers` | src/sim_pilot/game_bridge/client.py:166-191 | A snapshot that is returned answers the request just sent, agrees with its envelope in every shared field and has the identities negotiated before. |
| `Client.ShakeExact` | src/sim_pilot/game_bridge/client.py:193-219 | A handshake succeeds exactly when a hello for this request and a manifest that continues it come first; in particular it fails when a heartbeat is queued before. |
| `ClientOutcomes.ConnectExact` | src/sim_pilot/game_bridge/client.py:106-164 | Connecting a client that is not synchronized succeeds exactly when the connection is opened, the hello is written, and the right hello and manifest come first; the timeline then starts from these two. Otherwise the client is left disconnected. |
| `ClientOutcomes.ConnectFails` | src/sim_pilot/game_bridge/client.py:144-164 | A refused connection, a timeout, an oversized hello, a late or a dead write and an authentication failure each have their own error. |
| `ClientOutcomes.ResynchronizeExact` | src/sim_pilot/game_bridge/client.py:193-219 | Resynchronizing an open connection succeeds exactly when the request is written and the right hello and manifest come first, ids met before counting for nothing; otherwise the client stays resynchronizing. |
| `ClientOutcomes.RequestExact` | src/sim_pilot/game_bridge/client.py:166-191 | A snapshot call succeeds exactly when the client is synchronized, the request is written, and heartbeats in order and then the snapshot for this request come first; it returns that snapshot and reads nothing after it. |
| `ClientOutcomes.AwaitFails` | src/sim_pilot/game_bridge/client.py:178-190 | After heartbeats in order the first other message decides the error: a wrong correlation, a snapshot that contradicts its envelope, a reported error with its code, or an unexpected message. |
| `ClientOutcomes.AwaitEnds` | src/sim_pilot/game_bridge/client.py:311-332 | And a read that brings no message decides it: malformed, of bad size, late or lost. |
| `ClientOutcomes.AcceptedExact` | src/sim_pilot/game_bridge/client.py:268-309 | A message is accepted exactly when it fits the configuration, is new and, outside a baseline, comes from the known source under the next number; each refusal has its error, in that order. |
| `ClientOutcomes.ChangeNamed` | src/sim_pilot/game_bridge/client.py:278-292 | The error for a change of source names the first of bridge, session, map and save that has changed. |
| `Client.CallsKeepValid` | src/sim_pilot/game_bridge/client.py:106-219 | No call leaves a synchronized client without identities or a sequence, and connecting ends synchronized or disconnected (the failed state never outlives the call). |
| `GameBridgeClient.GameBridgeClient.ReceiveMessage` | src/sim_pilot/game_bridge/client.py:268-309 | The checks and updates of a receive, field by field, are those of the specification. |
| `GameBridgeClient.GameBridgeClient.SendMessage` | src/sim_pilot/game_bridge/client.py:231-266 | A number is spent before anything can fail; a refused write leaves the wire alone. |
| `GameBridgeClient.GameBridgeClient.RequestFullSnapshot` | src/sim_pilot/game_bridge/client.py:166-191 | The request and the heartbeat-skipping loop end, and do what the specification of the call says. |
| `GameBridgeClient.GameBridgeClient.Connect` | src/sim_pilot/game_bridge/client.py:106-164 | The call in every outcome of opening, writing and reading, the outgoing sequence kept over reconnects. |
| `GameBridgeClient.GameBridgeClient.Resynchronize` | src/sim_pilot/game_bridge/client.py:193-219 | The call in every outcome; met ids are forgotten after the request is written. |
| `Delivery.DeliveryInvariant` | src/sim_pilot/game_bridge/client.py:231-309 | From the first connection of a new client on, with stable identities and no failed client write, in every interleaving with heartbeats and over any number of further connections and client restarts: the server's sequence is the client's last plus the messages in flight, the client's outgoing sequence is the server's last plus the requests in flight, no error is in flight and the next message is always accepted. |
| `Delivery.ReconnectedBegun` | src/sim_pilot/game_bridge/client.py:106-128 | When a connection is lost at any point and the client opens the next, keeping the ids it has met while the server's counter has not fallen, every id still to come is new to the client. |
| `Delivery.SnapshotSucceeds` | src/sim_pilot/game_bridge/client.py:166-191 | A snapshot call on a quiet connection returns the snapshot captured for it, however many heartbeats are queued before it and while it travels. |
| `Delivery.RefusedWriteExact` | src/sim_pilot/game_bridge/client.py:231-266 | After some refused writes the next request is answered by a sequence error exactly when there was at least one. |
| `Delivery.StepKeeps` | rail_route_bridge/src/SimPilot.GameBridge.Core/BridgeServer.cs:133-194 | Every request, answer, heartbeat, receive and new connection keeps the invariant. |
| `Delivery.IdsDiffer` | rail_route_bridge/src/SimPilot.GameBridge.Core/BridgeServer.cs:234-234 | Message ids made of the instance and different numbers differ. |
| `Requests.RequestSendable` | src/sim_pilot/game_bridge/client.py:231-266 | A request of a configured client passes the server's validator exactly when it is definite: its ids are not blank, its number is positive, its identities are valid, and what it asks for or remembers says something. |
| `Requests.RequestArrives` | src/sim_pilot/game_bridge/client.py:231-266 | However the client's JSON library writes such a request (order of keys, spaces, escapes), the server parses it as exactly the request that was meant. |
| `Requests.RequestTells` | src/sim_pilot/game_bridge/client.py:116-126 | The server then finds in it the token, the expected bridge and session, or what the client remembers. |
| `Requests.ResumesFromLast` | src/sim_pilot/game_bridge/client.py:193-207 | A resynchronization request names the bridge, the session and the sequence the client accepted last. |
| `Requests.ComposedDefinite` | src/sim_pilot/game_bridge/client.py:231-255 | Whatever a client composes is definite, before and after it has met the bridge. |
| `DeliveryTexts.RequestsInFlightArrive` | src/sim_pilot/game_bridge/client.py:231-266 | From the first connection of a new client on, in every interleaving and over any number of connections and restarts, every text that stands for a request in flight is parsed by the server as that request. |
| `DeliveryReplies.RepliesInFlightArrive` | src/sim_pilot/game_bridge/client.py:268-309 | And every message in flight stands for a reply of this connection whose serialized text is parsed, and read by the client as exactly that message. |
| `DeliveryReplies.SnapshotCallTells` | src/sim_pilot/game_bridge/client.py:166-191 | A snapshot call on a quiet connection returns the payload that was built for it, with its numbers as written, and that payload tells exactly the state captured for it. |
| `CaptureProofs.OnePending` | software_inc_bridge/bridge/SimPilotSoftwareIncBridge.cs:131-142 | In every interleaving of callers, pump, timeouts and disposal at most one posted request has not been removed, and it is the one in the slot. |
| `CaptureProofs.ReturnedIsOwn` | software_inc_bridge/bridge/SimPilotSoftwareIncBridge.cs:131-153 | A snapshot a caller returns was read by the main thread for that very request after it was posted; and no caller ends without a snapshot and without an error. |
| `CaptureProofs.RemovedOnce` | software_inc_bridge/bridge/SimPilotSoftwareIncBridge.cs:144-172 | A request leaves the slot once: no later step makes it pending again. |
| `CaptureProofs.WithdrawsOwn` | software_inc_bridge/bridge/SimPilotSoftwareIncBridge.cs:144-149 | A caller that timed out empties the slot only of its own request and touches no other. |
| `CaptureProofs.SignalsExact` | software_inc_bridge/bridge/SimPilotSoftwareIncBridge.cs:155-186 | The disposer sets only live events; the pump is about to set a disposed one exactly when that caller has timed out. |
| `CaptureProofs.PumpCanMeetDisposedEvent` | software_inc_bridge/bridge/SimPilotSoftwareIncBridge.cs:166-186 | From any state in which the game is being read for a waiting caller, the pump can meet a disposed event. |
| `CaptureProofs.ReadingReached` | software_inc_bridge/bridge/SimPilotSoftwareIncBridge.cs:131-171 | Such a state is reached from the start, by one caller and the pump. |
| `CaptureOutcomes.CallOutcome` | software_inc_bridge/bridge/SimPilotSoftwareIncBridge.cs:131-186 | Over whole runs: a caller is returned a state exactly when the main thread read one for it and it did not give up; it fails exactly when its own read failed or came after the disposal, or the disposer found its request; it times out exactly when it gave up; it is turned away exactly when another request held the slot. The state it gets was read at one moment after it had asked. |
| `CaptureOutcomes.CaptureSucceeds` | software_inc_bridge/bridge/SimPilotSoftwareIncBridge.cs:163-186 | From a posted request on, the pump and its caller alone lead to the state being returned. |
| `CaptureOutcomes.PostSucceeds` | software_inc_bridge/bridge/SimPilotSoftwareIncBridge.cs:137-142 | A caller that finds the slot free is posted. |
| `CaptureOutcomes.GivenUpNotRead` | software_inc_bridge/bridge/SimPilotSoftwareIncBridge.cs:163-168 | A request its caller has given up before the main thread looks at it is not read. |
| `CaptureProofs.StateProvider.PostRequest` | software_inc_bridge/bridge/SimPilotSoftwareIncBridge.cs:136-142 | The first locked section keeps the invariant and wins exactly when the slot was empty. |
| `CaptureProofs.StateProvider.WithdrawRequest` | software_inc_bridge/bridge/SimPilotSoftwareIncBridge.cs:144-149 | The second locked section leaves another caller's request in the slot. |
| `CaptureProofs.StateProvider.TakePending` | software_inc_bridge/bridge/SimPilotSoftwareIncBridge.cs:166-171 | The pump's locked section takes what was pending and leaves the slot empty. |
| `CaptureProofs.StateProvider.DrainPending` | software_inc_bridge/bridge/SimPilotSoftwareIncBridge.cs:155-164 | The disposer's locked section fails the pending request and leaves the slot empty. |
| `AnalysisProofs.ResponseClosed` | src/sim_pilot/analysis/contracts.py:542-587 | For every analyzer result that passes validation and every limit on findings, findings, recommendations, answer and guidance of the response satisfy every identifier and entity check of the response contract. |
| `AnalysisProofs.PruningKeepsSupported` | src/sim_pilot/analysis/service.py:56-80 | A recommendation is kept exactly when recommendations are wanted and every finding that supports it survives the limit. |
| `AnalysisProofs.PruningCloses` | src/sim_pilot/analysis/service.py:56-80 | Pruned findings and recommendations refer to each other only, without repeated identifiers. |
| `AnalysisProofs.ComposedRefers` | src/sim_pilot/analysis/interaction.py:63-255 | The composed answer refers only to a decisive finding among those kept and to a kept recommendation. |
| `AnalysisProofs.SupportedExact` | src/sim_pilot/analysis/interaction.py:463-473 | The recommendation shown supports the finding, no other that does has a smaller priority, nor an earlier identifier at the same priority; none is shown exactly when none does. |
| `AnalysisProofs.GravestExact` | src/sim_pilot/analysis/interaction.py:317-317 | Without a metric the decisive finding is one that none is graver than, ties by identifier. |
| `AnalysisProofs.GravestIsWorst` | src/sim_pilot/analysis/interaction.py:317-317 | That finding is of the highest severity, with the smallest identifier among the equally severe. |
| `AnalysisOutcomes.FindingsSurvive` | src/sim_pilot/analysis/service.py:56-80 | The findings of a response are the analyzer's first, as many as the limit allows, in order and unchanged but for their recommendation ids: those that name a kept recommendation, in order. |
| `AnalysisOutcomes.RecommendationsSurvive` | src/sim_pilot/analysis/service.py:58-66 | The recommendations of a response are, if any are wanted, exactly those that rest on surviving findings alone, unchanged and in order. |
| `AnalysisOutcomes.ResultRefused` | src/sim_pilot/analysis/service.py:146-200 | A result of an analyzer is refused exactly when identifiers repeat, a finding is of another analysis, names an unknown recommendation or rests on evidence from another snapshot, or a recommendation rests on an unknown finding. |
| `AnalysisOutcomes.ComparisonNeedsChange` | src/sim_pilot/analysis/interaction.py:267-287 | A question that compares is never answered without an evaluated change between the two snapshots it asks about. |
| `AnalysisOutcomes.MetricNotSubstituted` | src/sim_pilot/analysis/interaction.py:289-311 | A question that asks for a metric, in words or by its ranking, is answered by a finding with that metric or not at all. |
| `AnalysisOutcomes.UnmeasuredAnswered` | src/sim_pilot/analysis/interaction.py:312-317 | A question without a metric is answered by the gravest finding, one for the health of the company by its operating result if there is one. |
| `AnalysisOutcomes.IdleAnswered` | src/sim_pilot/analysis/interaction.py:296-297 | A question for idle vehicles is answered by an idle vehicle, or by the fact that none of the company's vehicles is idle, with their number. |
| `AnalysisOutcomes.RecommendationShown` | src/sim_pilot/analysis/interaction.py:463-473 | A recommendation is shown exactly when one that is kept names the decisive finding and is named by it, and it is the most urgent of these. |
| `AnalysisOutcomes.StatusExact` | src/sim_pilot/analysis/service.py:82-97 | The status of a response is the analyzer's, but for limitations that are noted and a metric that is missing. |
| `AnalysisOutcomes.BasisExact` | src/sim_pilot/analysis/interaction.py:63-255 | An answer claims a confirmed fact only for an observed finding, and an inference only for one that is not. |
| `AnalysisOutcomes.TargetFirst` | src/sim_pilot/analysis/inspection.py:19-229 | An inspection is aimed at the first entity that the finding cites. |
| `AnalysisOutcomes.InspectionExact` | src/sim_pilot/analysis/inspection.py:19-229 | No inspection is recommended for cash, debt, good news or without an answer; otherwise one is exactly when the entity has a label. |
| `AnalysisOutcomes.SubjectCounts` | src/sim_pilot/analysis/interaction.py:545-552 | In a ranking of stations, routes, towns or industries, those asked about are counted, and none left out. |
| `AnalysisProofs.GuidanceFits` | src/sim_pilot/analysis/inspection.py:19-229 | A recommended inspection is supported by the decisive finding and targets an entity it cites. |
| `AnalysisProofs.DecisiveIsTop` | src/sim_pilot/analysis/interaction.py:289-317 | A decisive finding of a vehicle ranking cites an eligible vehicle before which no eligible vehicle ranks; where float tells the metrics of the selected vehicles apart it is the true extremum in the requested direction, ties broken by ascending identifier. |
| `AnalysisProofs.DecisiveExact` | src/sim_pilot/analysis/interaction.py:303-311 | A vehicle ranking names a finding as decisive exactly when it is the first finding with the metric and cites an eligible vehicle before which no eligible vehicle ranks; if there is no such finding it names none. |
| `AnalysisProofs.CountsPartition` | src/sim_pilot/analysis/interaction.py:510-542 | Without the analyzer's own population, evaluated and excluded counts add up to the eligible vehicles, and the evaluated ones are exactly those that are ranked. |
| `AnalysisLoops.MatchesActualRankingTop` | src/sim_pilot/analysis/interaction.py:556-601 | The selection loop, the in-place sort and the evidence search decide the specified check. |
| `AnalysisLoops.SortRanked` | src/sim_pilot/analysis/interaction.py:588-595 | The sort is a permutation in ranking order whose first element is the first of the ranking, the earliest of equals. |
| `AnalysisLoops.CountVehicles` | src/sim_pilot/analysis/interaction.py:519-542 | The counting loops compute the specified counts. |
| `CompilerProofs.CompileExact` | src/sim_pilot/analysis/compiler.py:119-245 | Without a conversational reference, a question is rejected by the catalogue exactly when it reaches an anomaly analysis and names population, town or profit, or asks for idle vehicles and also ranks them; every request produced is in the catalogue. |
| `CompilerProofs.CompileResolvedExact` | src/sim_pilot/analysis/compiler.py:154-245 | With a resolved reference there is one more reason: the entity is not a subject of the analysis; otherwise the request is about that entity. |
| `CompilerProofs.ResolvedIsDisplayed` | src/sim_pilot/analysis/compiler.py:154-178 | A reference resolves only to an entity that was displayed, of the kind its words name. |
| `CompilerProofs.MetricExact` | src/sim_pilot/analysis/catalog.py:269-310 | The metric of the inferred intent fits catalogue and ranking in every analysis but those two cases. |
| `CompilerOutcomes.OutcomeExact` | src/sim_pilot/analysis/compiler.py:119-245 | A question is refused exactly when it asks for a forecast, the cause of a crash or an action, or nothing fits it; it is to be clarified exactly when it is vague or its reference has not exactly one displayed entity. |
| `CompilerOutcomes.TypeExact` | src/sim_pilot/analysis/compiler.py:248-290 | The analysis is that of the first rule of a table whose terms occur, after the one rule for vehicle types. |
| `CompilerOutcomes.VehicleRanking` | src/sim_pilot/analysis/compiler.py:294-304 | Every compiled vehicle question ranks by last year's profit, lowest first exactly when a word of loss occurs, highest first exactly when none does and it asks for the best or most profitable. |
| `CompilerOutcomes.RouteRanking` | src/sim_pilot/analysis/compiler.py:310-325 | The same for routes: by losing vehicles, then lowest or highest aggregate profit, exactly as the words ask. |
| `CompilerOutcomes.OtherRankings` | src/sim_pilot/analysis/compiler.py:305-336 | Stations, vehicle types and priorities have one order each, and no other analysis ranks. |
| `CompilerOutcomes.WorstVehicleAnswered` | src/sim_pilot/analysis/compiler.py:295-304 | From the words to the answer: if a question for the worst vehicle is answered, the decisive finding cites an eligible vehicle of least profit among all that were asked about, and one for the best a vehicle of most profit. |
| `CompilerOutcomes.FilterExact` | src/sim_pilot/analysis/compiler.py:184-210 | A vehicle request is filtered by the kind of vehicle its words name, and no other request is filtered. |
| `CompilerOutcomes.SubjectExact` | src/sim_pilot/analysis/compiler.py:339-366 | Without a reference a request is about the subject its words name, where the analysis is narrowed at all. |
| `CompilerOutcomes.ContextCarried` | src/sim_pilot/analysis/compiler.py:211-243 | A request carries the comparison of the conversation, and the resolved reference with the analysis, entity and finding it continues. |
| `CompilerOutcomes.ReferenceExact` | src/sim_pilot/analysis/compiler.py:369-395 | The kind of a reference follows from its words, vehicles before routes, stations and findings. |
| `CompilerOutcomes.ConceptExact` | src/sim_pilot/analysis/compiler.py:403-610 | What an answer is about: each concept occurs exactly for its analyses and words. |
| `CompilerOutcomes.KindExact` | src/sim_pilot/analysis/compiler.py:403-610 | Whether an answer is an explanation, a follow-up or a ranking, what it refers back to, and whether the question takes something for granted: each exactly when its words say so. |
| `CompilerOutcomes.ReasonsExact` | src/sim_pilot/analysis/compiler.py:403-610 | When an answer has to explain, cite evidence, go into detail or check a premise, each exactly. |
| `CompilerOutcomes.FormsExact` | src/sim_pilot/analysis/compiler.py:403-610 | When an answer gives an amount, a state, an order or a summary, each exactly. |
| `CompilerOutcomes.MetricAsked` | src/sim_pilot/analysis/compiler.py:403-610 | Each metric is asked for exactly by its analysis and words, and a ranking's metric is the one asked for. |
| `CompilerOutcomes.ComparisonExact` | src/sim_pilot/analysis/compiler.py:403-610 | An answer has to compare exactly when the analysis does or the words ask it to. |
| `CompilerOutcomes.PeriodExact` | src/sim_pilot/analysis/compiler.py:403-610 | The period of an answer is the one its metric is measured over. |
| `CompilerOutcomes.PremiseExact` | src/sim_pilot/analysis/compiler.py:403-610 | A premise is named exactly when the question asserts that the company or a route is losing money. |
| `CompilerOutcomes.FilterFitsExact` | src/sim_pilot/analysis/catalog.py:81-248 | Field by field, the analyses that may be filtered by it. |
| `CompilerProofs.UnusualTownRejected` | src/sim_pilot/analysis/compiler.py:471-493 | The text 'anything unusual in town?' is rejected by the catalogue, in every conversation. |
| `CompilerProofs.WorstIdleRejected` | src/sim_pilot/analysis/compiler.py:509-521 | The text 'worst idle vehicle' is rejected by the catalogue, in every conversation. |
| `QuestionTexts.UnusualTownSays` | src/sim_pilot/analysis/compiler.py:125-130 | Of the 93 terms the compiler looks for, that text contains 'unusual' and 'town' and no other. |
| `QuestionTexts.LosingVehiclesSays` | src/sim_pilot/analysis/compiler.py:125-130 | The text 'which vehicles are losing money?' contains 'vehicle', 'losing' and 'losing money' and no other. |
| `CompilerProofs.NormalizeSettles` | src/sim_pilot/analysis/compiler.py:617-651 | A provider's request that is let through is in the catalogue, carries the inferred intent, differs in nothing else, and is let through again unchanged. |
| `CompilerProofs.CompiledNormalizes` | src/sim_pilot/analysis/compiler.py:617-661 | The compiler reads a question in lower case, the provider check with its case folded. The compiler's own request passes that check exactly when the folded question gives the intent the same meaning and requires no other analysis; the catalogue never objects. Where both readings find the same terms, only the required analysis decides. |
| `CompilerProofs.LosingVehiclesDiffer` | src/sim_pilot/analysis/compiler.py:654-661 | The text 'which vehicles are losing money?' is compiled, and its request would be rejected from a provider. |
| `CompilerProofs.HealthLossDiffers` | src/sim_pilot/analysis/compiler.py:622-644 | So is 'health loß', whose folded form 'health loss' asks for a loss instead of health, although no word requires another analysis. |
| `SnapshotCache.LoadExact` | src/sim_pilot/analysis/freshness.py:184-224 | A lookup is a hit, and exposes a snapshot, exactly for a valid, complete record of the whole verified identity that is no older than the age asked for and the time to live. |
| `SnapshotCache.StoreThenLoad` | src/sim_pilot/analysis/freshness.py:142-157 | What is stored is loaded back while fresh, for the identity it was stored under and for no other. |
| `SnapshotCache.ServedSafely` | src/sim_pilot/cli.py:3300-3333 | After any history of acquisitions and damage, an answer from the cache is the snapshot stored last: complete, stored under the identity probed in this locked section, and young enough. |
| `SnapshotCache.AcquireExact` | src/sim_pilot/cli.py:3300-3333 | An acquisition is answered from the cache exactly when it may be and the file holds a complete record of the probed identity, fresh at the check and at the load; the file is then unchanged. Otherwise the answer is what was collected, stored if complete, or a failure if the probe or the collection fails. |
| `SnapshotCache.StoredThenServed` | src/sim_pilot/cli.py:3300-3333 | After any history, what an acquisition has stored is served to the next that may have it. |
| `SnapshotCache.StoreExact` | src/sim_pilot/analysis/freshness.py:57-78 | A complete snapshot is refused exactly when its duration is negative or it is not of the identity it is stored under. |
| `SnapshotCache.ExpiredNeverServed` | src/sim_pilot/analysis/freshness.py:243-249 | With a clock that does not go back, an expired record is never served again for the same age before the next store. |
| `SnapshotCache.ClockBackRevives` | src/sim_pilot/analysis/freshness.py:243-249 | With a clock that goes back it can be: the condition is needed. |
| `SnapshotCache.Cache.AcquireSnapshot` | src/sim_pilot/cli.py:3300-3333 | The locked sequence of check, probe, load, collect and store has the specified answer and leaves the specified file. |
| `SnapshotCache.Cache.StoreSnapshot` | src/sim_pilot/analysis/freshness.py:142-157 | An incomplete snapshot changes nothing; a record whose identity is not its snapshot's is refused. |
| `SnapshotCache.Cache.LoadVerified` | src/sim_pilot/analysis/freshness.py:184-224 | The lookup in the source's order of checks is the specified one. |
| `Budget.PreflightSuffices` | src/sim_pilot/product_evaluation.py:585-646 | If preflight passes and cases keep to one compiler call and the iteration limit, no call-count limit is met in the whole run, resumed cases included. |
| `Budget.PreflightExact` | src/sim_pilot/product_evaluation.py:585-597 | For cases that use everything they may, preflight passes exactly when the run meets no limit: it asks for no more than it must. |
| `Budget.RunWithin` | src/sim_pilot/product_evaluation.py:140-168 | The case loop never passes the limits of the counters. |
| `Budget.CallsWithin` | src/sim_pilot/product_evaluation.py:147-168 | Whatever compiler calls and decisions are asked for, in whatever order: the three counters never pass their limits, every call is either counted or refused, and a refusal other than for the time means that its limit is reached for good. |
| `Budget.LateCallsRefused` | src/sim_pilot/product_evaluation.py:140-168 | No call asked for after the time is up is counted: the counters are those of the other calls alone, and exactly the late calls are refused for the time. |
| `Budget.LateRunCountsNothing` | src/sim_pilot/product_evaluation.py:619-646 | Once the time is up the case loop counts nothing more. |
| `Budget.EvaluationBudget.SpendCompiler` | src/sim_pilot/product_evaluation.py:147-152 | A compiler call is counted or refused as specified and keeps the counters within their limits. |
| `Budget.EvaluationBudget.SpendDecision` | src/sim_pilot/product_evaluation.py:154-159 | A decision is counted or refused as specified and keeps the counters within their limits. |
| `Budget.EvaluationBudget.RunCases` | src/sim_pilot/product_evaluation.py:619-646 | The case loop spends exactly what the specification of a run spends. |
| `Duplicates.KeptIsWindow` | discovery/openttd_gamescript/protocol.py:79-94 | After any calls the list is exactly the last acceptances, up to the capacity, in order. |
| `Duplicates.AcceptedApart` | discovery/openttd_gamescript/protocol.py:88-94 | Two acceptances of one id have at least as many acceptances of others between them as the capacity. |
| `Duplicates.KeptDistinct` | discovery/openttd_gamescript/protocol.py:79-94 | The list never holds an id twice, nor more ids than the capacity. |
| `Duplicates.DuplicateTracker.Accept` | discovery/openttd_gamescript/protocol.py:88-94 | A call is rejected exactly when its id is among the last acceptances; otherwise it is recorded last. |

## Left out

- JsonRoundTrip.RoundTrip: which double a literal is nearest to, and how a double is shown, are functions of the platform
  with the few properties listed above; a number is represented by a literal of its double. Doubles that no text is read
  as (infinities, NaN), which the game could put into a payload, are not part of this model.
- ProtocolRoundTrip.EnvelopeRoundTrip: the date parser of .NET is modelled on the form that the serializer writes; the
  other forms it accepts are refused here.
- OwnershipProofs.MessagesCoherent: the sequence counter is unbounded; the wrap-around of a signed 64-bit counter is not modelled.
- Delivery.DeliveryInvariant: random message ids are assumed new on the connection. The server process, and with it the
  bridge instance, is one and the same over all connections.
- Requests.RequestArrives: the Python JSON library is any writer of a text that denotes the request; the lengths of texts
  that the client's models limit, on either side, are not modelled.
- DeliveryReplies.RepliesInFlightArrive: the client's reader is modelled on envelopes that the bridge's own parser accepts;
  the wording of an error and the times of messages are parameters.
- Session.NothingBeforeToken: a read is a whole frame, an idle timeout, a malformed text or the end of the stream; a
  timeout in the middle of a frame, which loses bytes, is not modelled.
- Client.AwaitExact: the same, and reads that never end are seen as a finite run of reads followed by a timeout.
- AnalysisProofs.ResponseClosed: the checks of free text (causal words, word counts, guidance that repeats the finding,
  empty answers) are left out; they depend on wording, not on structure. Evidence requirements and display texts are too.
- AnalysisProofs.DecisiveIsTop: `float` is an arbitrary function of the metric; that it keeps the metrics of the selected
  vehicles apart is a premise of the second half. Identifiers compare by UTF-16 unit, where Python compares code points; the
  two agree within the basic multilingual plane.
- CompilerProofs.CompileExact: stated for every choice of terms a question could contain, those of concrete texts among them
  (`Compiler.Ask`); lower-casing, case folding and splitting are not modelled, their results are given.
- SnapshotCache.ServedSafely: the lock is mutual exclusion, file damage leaves no valid record, and serialization of
  records is taken as faithful.
- Budget.PreflightSuffices: the compiler and the runtime are represented by the calls they make; persistence and reports
  are left out.
- CaptureProofs.OnePending: the disposer's access to the request it fails is one step, as the lock makes it for everyone who
  takes the lock; captures made on the main thread itself bypass the slot and are not modelled.
- The UTF-8 codec: a given function on texts; framing is over bytes.
- Sockets, linger, thread pools, file permissions, locking primitives and identifiers made by hashing.
- The adapters that read the games, the analyzers, the language-model providers, rendering, persistence and the commands.
- Members whose values are only displayed: titles, summaries, reasons and log messages.
