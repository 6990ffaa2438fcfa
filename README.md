# Hand Tracking Streamer SDK — a Dafny model of the packet pipeline

The hand-tracking SDK receives text lines of the Hand Tracking Streamer (HTS) wire format, one packet per line:

- `Left wrist: x, y, z, qx, qy, qz, qw` (7 numbers);
- `Right landmarks: x0, y0, z0, …` (21 points, 63 numbers).

It does three things with them:

- **Parse.** It turns each line into a typed packet, or into one of its parse errors.
- **Assemble.** It joins the latest wrist pose and landmark set of each hand into a `HandFrame`. A frame carries a sequence number that goes up by one per hand, plus receive timestamps.
- **Stream.** `HTSClient` streams packets and/or frames to a consumer, with these parts:
  - a hand filter;
  - a strict or tolerant policy for parse errors;
  - eight counters;
  - a callback runner (`run`) with an optional event cap.

The model covers the parser, the data model and its dictionary codecs, the frame assembler, and the client's event loop.

| file | models |
|---|---|
| `wrappers.dfy` | `Option` and `Result` (the source's `None` and raised exceptions) |
| `text.dfy` | the Python string operations the parser relies on: `strip`, `partition`, `split(',')`, `split()`, `lower`, and `float`/`int` of a literal |
| `constants.dfy` | value counts and the 21 streamed joint names |
| `models.dfy` | `HandSide`, `PacketType`, `WristPose`, `HandLandmarks`, the two packet kinds, and their `to_dict`/`from_dict` |
| `parser.dfy` | `parse_line` and its helpers |
| `frame.dfy` | `HandFrame` and its dictionary codec |
| `assembler.dfy` | `HandFrameAssembler` and `_SideAssemblyState` as classes. Their methods are proved against pure step functions (`StoreComponent`, `EmitFrame`, `PushSide`, `PushAssembler`). |
| `client.dfy` | configuration validation, `ClientStats`, and `HTSClient` as a class. `iter_events` and `run` are proved against the pure stream function `Stream` and the run function `RunSpec`. |

**Dictionaries.** The dictionaries of `to_dict`/`from_dict` are `map<string, Value>`. `Value` is a small JSON-like datatype (`Float`, `Int`, `Str`, `List`, `Dict`, `Null`). A `from_dict` failure (missing key, wrong kind of value) is a `DecodeError` instead of a Python exception.

**Outside inputs.** The transport, the clocks and the callback are parameters:
- An `Arrival` is a received line together with the monotonic and wall-clock readings that `push_packet` would take for it.
- A callback is described by the index of its first failing invocation, if any.

**Generator demand.** `iter_events` is a generator, and a consumer can stop it after any event. The optional `budget` (demand) of `Stream` says after how many events the consumer stops. When a packet event meets the demand, the packet never reaches the assembler, exactly as a suspended generator leaves it.

**Three behaviours of the code worth knowing:**
- Frame emission tests timestamps with `!=`. `Assembler.EmitFrameRule` and `Assembler.RunSideRule` prove that in every reachable state this is the same as "strictly later": stored component timestamps never fall below the last emitted ones, so a frame is never emitted twice for the same pair of component timestamps.
- `HandLandmarks` itself does not fix the number of points. `HandLandmarks.from_dict` accepts any number of points. Only `parse_line` insists on 21 points (63 values).
- `run(max_events=m)` with `m <= 0` still delivers one event, because the cap is checked only after a callback (`Client.Cap`).

## Model

| member | source | states |
|---|---|---|
| Text.Strip | src/hand_tracking_sdk/parser.py:33 | the result has no whitespace at either end, is empty exactly when the input is all whitespace, and is no longer than the input |
| Text.StripParts | src/hand_tracking_sdk/parser.py:33 | every string is whitespace + its strip + whitespace |
| Text.StripSurrounded | src/hand_tracking_sdk/parser.py:41 | stripping whitespace + a trimmed core + whitespace gives back exactly the core |
| Text.StripPadded | src/hand_tracking_sdk/parser.py:33 | extra whitespace around a string does not change its strip |
| Text.Partition | src/hand_tracking_sdk/parser.py:37 | the separator flag is true iff the character occurs; then the string is head + separator + tail and the head has no separator; otherwise the head is the whole string and the tail is empty |
| Text.PartitionAt | src/hand_tracking_sdk/parser.py:37 | a string is split at its first separator, and everything after it, including further separators, is the tail |
| Text.Split | src/hand_tracking_sdk/parser.py:89 | at least one piece, no piece holds the separator, and joining the pieces with the separator gives back the input |
| Text.SplitJoin | src/hand_tracking_sdk/parser.py:89 | splitting the join of separator-free pieces gives back those pieces (the inverse of the Split round trip) |
| Text.SplitTrailing | src/hand_tracking_sdk/parser.py:89 | a trailing separator adds one empty piece at the end |
| Text.SplitWhitespace | src/hand_tracking_sdk/parser.py:60 | `str.split()`: every word is nonempty and has no whitespace |
| Text.SplitWhitespaceAllSpace | src/hand_tracking_sdk/parser.py:60 | an all-whitespace string has no words |
| Text.SplitWhitespaceWord | src/hand_tracking_sdk/parser.py:60 | leading whitespace and a word followed by whitespace or nothing give that word first, then the words of the rest |
| Text.LowerChar | src/hand_tracking_sdk/parser.py:71 | a character lowers to a Latin small letter only if it was a Latin letter or the Kelvin sign |
| Text.Lower | src/hand_tracking_sdk/parser.py:71 | lowering keeps the length and lowers each character on its own |
| Text.LowerWordChars | src/hand_tracking_sdk/parser.py:71-76 | a string that lowers to a word of small letters has no whitespace, ':' or ',' |
| Text.ParseFloat | src/hand_tracking_sdk/parser.py:91 | `float(value)` on decimal literals: a success comes from a nonempty token made only of digits, signs and '.' |
| Text.ParseFloatAccepts | src/hand_tracking_sdk/parser.py:91 | `float(value)` succeeds exactly on the decimal literals: an optional sign, then digits with at most one '.', and at least one digit |
| Text.ParseFloatDigits | src/hand_tracking_sdk/parser.py:91 | a run of digits reads as the integer it writes |
| Text.ParseFloatPoint | src/hand_tracking_sdk/parser.py:91 | `w.f` reads as w plus f / 10^len(f), a fraction in [0, 1); equally as all its digits read together, divided by 10^len(f) |
| Text.ParseFloatSigned | src/hand_tracking_sdk/parser.py:91 | a '-' in front of an unsigned literal negates its value and a '+' keeps it |
| Text.ParseFloatQuarter | src/hand_tracking_sdk/parser.py:91 | "0.25" reads as 0.25 |
| Text.ParseFloatTwoPoints | src/hand_tracking_sdk/parser.py:91 | "1.2.3", with two points, is refused |
| Text.ParseFloatExponent | src/hand_tracking_sdk/parser.py:91 | "1e5" is refused (exponents are outside the modelled literals) |
| Text.ParseInt | src/hand_tracking_sdk/frame.py:91-98 | `int(value)`: a success comes from a nonempty token made only of digits and signs |
| Text.ParseIntAccepts | src/hand_tracking_sdk/frame.py:91-98 | `int(value)` succeeds exactly on an optional sign followed by at least one digit |
| Text.ParseIntValue | src/hand_tracking_sdk/frame.py:91-98 | digits read as the integer they write, negated after '-', kept after '+'; `float` reads the same digits as the same number |
| Constants.CountsAgree | src/hand_tracking_sdk/constants.py:1-27 | a wrist packet has 7 values; a landmarks packet has 3 × 21 = 63; there are 21 streamed joint names |
| Constants.JointNameLayout | src/hand_tracking_sdk/constants.py:5-27 | the names are "Wrist" first, then for each of thumb, index, middle, ring and little finger its four joints in order |
| Constants.JointNamesDistinct | src/hand_tracking_sdk/constants.py:5-27 | no joint name occurs twice |
| Models.SideFromName | src/hand_tracking_sdk/models.py:11-15 | `HandSide(value)`: succeeds exactly on "Left" and "Right", and the side's name is the input |
| Models.SideNameRoundTrip | src/hand_tracking_sdk/models.py:11-15 | every side is recovered from its name |
| Models.KindName | src/hand_tracking_sdk/models.py:18-22 | the packet type values are "wrist" and "landmarks" |
| Models.Get | src/hand_tracking_sdk/models.py:53-70 | reading a key succeeds exactly when the key is present, and gives its value |
| Models.AsFloat | src/hand_tracking_sdk/models.py:62-70 | `float(v)`: a float is kept, an integer converted, a string accepted exactly when its stripped text is a decimal literal; anything else fails with NotANumber |
| Models.AsInt | src/hand_tracking_sdk/frame.py:91-98 | `int(v)`: an integer is kept, a float truncated toward zero (the integer within 1 of it on the side of 0), a string accepted exactly when its stripped text is an integer literal; anything else fails with NotANumber |
| Models.Index | src/hand_tracking_sdk/models.py:96-99 | `v[k]`: a list's k-th item or a string's k-th character when k is in range; IndexError (or KeyError on a dictionary) otherwise; TypeError on a number or None |
| Models.Elements | src/hand_tracking_sdk/models.py:96-99 | iterating: a list gives its items, a string its characters, a dictionary of at most one key its keys; a number or None is not iterable |
| Models.WristPoseToDict | src/hand_tracking_sdk/models.py:37-51 | the dictionary has exactly the seven keys x, y, z, qx, qy, qz, qw |
| Models.WristPoseFromDict | src/hand_tracking_sdk/models.py:53-70 | a success needs all seven keys |
| Models.WristPoseRoundTrip | src/hand_tracking_sdk/models.py:37-70 | `from_dict(to_dict(p)) == p` for every wrist pose |
| Models.PointsToValues | src/hand_tracking_sdk/models.py:79-85 | one `[x, y, z]` list per point, in order |
| Models.LandmarksToDict | src/hand_tracking_sdk/models.py:79-85 | the dictionary's only key is "points", holding one entry per point |
| Models.PointsFromValues | src/hand_tracking_sdk/models.py:87-100 | a success gives one point per entry |
| Models.LandmarksFromDict | src/hand_tracking_sdk/models.py:87-100 | a success needs the "points" key |
| Models.PointsRoundTrip | src/hand_tracking_sdk/models.py:79-100 | decoding the encoded points gives back the points, for any number of points |
| Models.LandmarksRoundTrip | src/hand_tracking_sdk/models.py:79-100 | `from_dict(to_dict(l)) == l` for every landmark set |
| Models.LandmarksFromDictKeys | src/hand_tracking_sdk/models.py:96-99 | a dictionary under "points" is iterated by key: `{}` gives no points and `{"123": 0}` gives the point (1, 2, 3) |
| Parser.Chunks | src/hand_tracking_sdk/parser.py:89 | every chunk kept is nonempty and has no surrounding whitespace |
| Parser.TokenValues | src/hand_tracking_sdk/parser.py:91 | one value per token, each the token's number |
| Parser.ParseAllMeaning | src/hand_tracking_sdk/parser.py:90-93 | converting every chunk succeeds iff every chunk is a number, and then gives their values in order |
| Parser.ParseFloats | src/hand_tracking_sdk/parser.py:79-93 | the payload parses iff every nonempty stripped chunk is a number; the values are the chunks' numbers; any failure is NonFloatValues |
| Parser.ChunksConcat | src/hand_tracking_sdk/parser.py:89 | chunking distributes over concatenation of pieces |
| Parser.PayloadSkipsBlank | src/hand_tracking_sdk/parser.py:89 | an empty or blank field before a comma is dropped, so it does not change the values |
| Parser.PayloadTrailingComma | src/hand_tracking_sdk/parser.py:89 | a trailing comma does not change the values |
| Parser.ForeignCharFails | src/hand_tracking_sdk/parser.py:89-93 | a payload holding a character that is not whitespace, ',', a digit, a sign or '.' fails with NonFloatValues |
| Parser.ExtraColonFails | src/hand_tracking_sdk/parser.py:37-42 | only the first ':' separates; a line with a second ':' fails with NonFloatValues |
| Parser.ParseLabel | src/hand_tracking_sdk/parser.py:50-76 | not exactly two words ⟺ InvalidLabel of the label; two words and a first word that is not exactly "Left"/"Right" → UnsupportedHandSide of that word; two words, a good side and a second word whose lower case is not "wrist"/"landmarks" → UnsupportedPacketType of that word; success ⟺ none of these, giving the side named and the kind of the lowered word |
| Parser.Flatten | src/hand_tracking_sdk/parser.py:132-134 | the flat coordinate list has three values per point |
| Parser.Triples | src/hand_tracking_sdk/parser.py:132-134 | 63 values become 21 points, point i being values 3i, 3i+1, 3i+2 |
| Parser.FlattenTriples | src/hand_tracking_sdk/parser.py:132-134 | points read three at a time from a list flatten back to that list |
| Parser.FlattenAt | src/hand_tracking_sdk/parser.py:132-134 | coordinate j of point i sits at position 3i+j of the flattened list |
| Parser.FlattenInjective | src/hand_tracking_sdk/parser.py:132-134 | 21 points are determined by their flattened values |
| Parser.ParseWrist | src/hand_tracking_sdk/parser.py:96-112 | succeeds iff there are exactly 7 values, giving a wrist packet of that side whose pose fields are the values in order; otherwise WrongValueCount with the count |
| Parser.ParseLandmarks | src/hand_tracking_sdk/parser.py:115-135 | succeeds iff there are exactly 63 values, giving 21 points read three at a time that flatten back to the values; otherwise WrongValueCount with the count |
| Parser.ParseLine | src/hand_tracking_sdk/parser.py:16-47 | a parsed packet's type agrees with its variant, and a landmarks packet has 21 points |
| Parser.ParseParts | src/hand_tracking_sdk/parser.py:41-47 | NonFloatValues exactly when the payload fails and is reported before any label error; never EmptyLine or MissingSeparator |
| Parser.ParseLineErrors | src/hand_tracking_sdk/parser.py:33-42 | EmptyLine iff the line is all whitespace; MissingSeparator iff it is not and has no ':'; NonFloatValues iff it has a ':' and its payload fails |
| Parser.ParseLineSplits | src/hand_tracking_sdk/parser.py:37-42 | a line with a ':' is parsed from its stripped label and its payload |
| Parser.ParseLineCharacterization | src/hand_tracking_sdk/parser.py:16-135 | a line parses to packet p iff it has a ':' whose label names p's side and kind and whose payload gives exactly p's values |
| Parser.ParsePartsCharacterization | src/hand_tracking_sdk/parser.py:41-47 | label and payload parse to p iff they spell p (both directions) |
| Parser.PartsSpell | src/hand_tracking_sdk/parser.py:41-47 | a successful parse means that the label and payload spell the packet |
| Parser.SpelledParts | src/hand_tracking_sdk/parser.py:41-47 | a label and payload that spell a packet parse to it |
| Parser.PartsOfKnown | src/hand_tracking_sdk/parser.py:44-47 | with the label and the values known, the packet is built iff the value count fits the kind, and otherwise the error is WrongValueCount |
| Parser.ParseLinePadded | src/hand_tracking_sdk/parser.py:33 | whitespace around a line does not change how it parses |
| Parser.NumberTokenShape | src/hand_tracking_sdk/parser.py:91 | a number token is nonempty, without whitespace, ',' or ':' |
| Parser.ParseWirePayload | src/hand_tracking_sdk/parser.py:79-93 | the payload ", t1, t2, …" of number tokens parses to the tokens' values |
| Parser.WireLabel | src/hand_tracking_sdk/parser.py:50-76 | "Side kind" (kind in any letter case) parses to that side and kind |
| Parser.WireLineParts | src/hand_tracking_sdk/parser.py:33-42 | a line written by the streamer is its own strip; its label and payload are the written ones |
| Parser.ParseWireLine | src/hand_tracking_sdk/parser.py:16-135 | an emitted line "Side kind:, v1, …" parses iff the count fits the kind, to that side, kind and values; otherwise WrongValueCount |
| Parser.WirePartsParse | src/hand_tracking_sdk/parser.py:41-47 | the written label and payload parse iff the count fits the kind, to that side, kind and values |
| Frame.FrameToDict | src/hand_tracking_sdk/frame.py:58-75 | the dictionary has exactly the ten frame keys; side, frame id, wrist and landmarks hold their encodings |
| Frame.FrameFromDict | src/hand_tracking_sdk/frame.py:77-99 | a success needs all ten keys |
| Frame.OptionalIntRoundTrip | src/hand_tracking_sdk/frame.py:93-96 | an optional integer survives its encoding: None stays None, an integer stays that integer |
| Frame.FrameRoundTrip | src/hand_tracking_sdk/frame.py:58-99 | `HandFrame.from_dict(to_dict(f)) == f` for every frame |
| Assembler.InitialSideInv | src/hand_tracking_sdk/frame.py:102-112 | a fresh side state satisfies the assembly invariant |
| Assembler.StoreComponent | src/hand_tracking_sdk/frame.py:191-207 | a packet is refused exactly when it is older than the stored component of its kind; an equal timestamp is accepted |
| Assembler.EmitFrame | src/hand_tracking_sdk/frame.py:267-318 | without a frame the state is unchanged; a frame needs both components and is the frame of the stored state |
| Assembler.EmitFrameRule | src/hand_tracking_sdk/frame.py:286-318 | in reachable states: a frame goes out iff both components are stored and one of them is strictly newer than in the last frame; it takes the next sequence number, its receive time is the later component time, and afterwards it is recorded as last emitted, so an immediate second call emits nothing |
| Assembler.PushSide | src/hand_tracking_sdk/frame.py:186-213 | a stale packet changes nothing and emits nothing; a frame carries the packet's side and the side's frame id |
| Assembler.PushSideRule | src/hand_tracking_sdk/frame.py:186-213 | keeps the invariant; stored timestamps never go back; a fresh packet is stored with its time and leaves the other component alone; a frame is emitted iff after storing the state is complete and has advanced |
| Assembler.NoDuplicateFrame | src/hand_tracking_sdk/frame.py:294-299 | re-sending a component at the stored timestamp emits no frame when nothing advanced |
| Assembler.RunSideRule | src/hand_tracking_sdk/frame.py:163-318 | over any sequence of pushes on one side: the invariant holds; the frames have consecutive sequence numbers from the side's counter and carry its frame id; in each frame each component timestamp is no earlier than in every earlier frame and at least one is later |
| Assembler.AssemblerView.WithSide | src/hand_tracking_sdk/frame.py:145-148 | replacing one side's state leaves the other side's as it was |
| Assembler.SidesIndependent | src/hand_tracking_sdk/frame.py:145-148 | a side's final state and frames depend only on the pushes for that side |
| Assembler.ResolveTimestamps | src/hand_tracking_sdk/frame.py:244-265 | a given monotonic time is kept, otherwise the clock is read; a given wall time is kept, otherwise the wall clock is read only if wall time is included |
| Assembler.SideAssemblyState.constructor | src/hand_tracking_sdk/frame.py:102-112 | a new side state is empty with sequence number 0 |
| Assembler.SideAssemblyState.Store | src/hand_tracking_sdk/frame.py:191-207 | stores the component iff it is not stale, reporting which, and changes nothing otherwise |
| Assembler.HandFrameAssembler.constructor | src/hand_tracking_sdk/frame.py:124-148 | both sides start empty; the frame ids are the defaults "hts_left_hand"/"hts_right_hand" overridden by the given map |
| Assembler.HandFrameAssembler.Reset | src/hand_tracking_sdk/frame.py:150-161 | no side: both sides fresh; a side: that side fresh and the other untouched |
| Assembler.HandFrameAssembler.MaybeEmitFrame | src/hand_tracking_sdk/frame.py:267-318 | the side's new state and the frame are those of the emission rule |
| Assembler.HandFrameAssembler.PushPacket | src/hand_tracking_sdk/frame.py:163-213 | the new state and frame are those of one push with the resolved timestamps; only the packet's side changes |
| Assembler.HandFrameAssembler.PushLine | src/hand_tracking_sdk/frame.py:215-242 | a line that does not parse raises its parse error and changes nothing; otherwise the packet is pushed |
| Client.CheckConfig | src/hand_tracking_sdk/client.py:146-159 | empty host, then a port outside 0..65535, then a timeout ≤ 0, then a negative reconnect delay, each rejected in that order; a valid configuration is accepted unchanged |
| Client.DefaultConfigValid | src/hand_tracking_sdk/client.py:135-143 | the default configuration (0.0.0.0:9000, 1 s, 0.25 s) is valid |
| Client.MatchesHandFilter | src/hand_tracking_sdk/client.py:370-376 | both: every side passes; left or right: exactly that side passes |
| Client.HandleStats | src/hand_tracking_sdk/client.py:207-259 | one line adds one to lines received, adds at most two events, and every event is counted by its counter |
| Client.HandleOutcome | src/hand_tracking_sdk/client.py:217-219 | a parse error yields nothing and leaves the assembler alone; it stops the stream, raising that error, iff the policy is strict; a parsed packet never raises |
| Client.HandleEvents | src/hand_tracking_sdk/client.py:221-259 | every event passes the hand filter and is of a kind the output asks for; without frame output the assembler is untouched |
| Client.HandleFrames | src/hand_tracking_sdk/client.py:246-259 | with frame output, the assembler does to the accepted packet exactly what a direct push would, and its frame is yielded |
| Client.HandleIgnoresPolicy | src/hand_tracking_sdk/client.py:349-368 | the error policy has no effect on a line that parses |
| Client.AcceptCases | src/hand_tracking_sdk/client.py:235-259 | the three ways an accepted packet goes: the consumer stops after its packet event; it moves on to the assembler; or it moves on without frames |
| Client.StreamUnfold | src/hand_tracking_sdk/client.py:207-259 | the stream is its first line's step followed by the stream of the rest |
| Client.StreamStats | src/hand_tracking_sdk/client.py:197-259 | events are only appended; lines received grows by at most the number of lines; every counter matches the events yielded |
| Client.StreamKeepsDropsAccounted | src/hand_tracking_sdk/client.py:217-233 | dropped lines stay equal to parse errors plus filtered packets |
| Client.StreamEvents | src/hand_tracking_sdk/client.py:221-259 | every event of a stream passes the filter and matches the output mode |
| Client.TolerantStream | src/hand_tracking_sdk/client.py:349-368 | under the tolerant policy nothing is raised, and without early stop every line is received |
| Client.StrictLine | src/hand_tracking_sdk/client.py:349-368 | under the strict policy one line stops the stream iff it does not parse, and then raises its error |
| Client.StrictCleanStream | src/hand_tracking_sdk/client.py:197-259 | under the strict policy a stream of lines that all parse raises nothing and receives every line |
| Client.StrictFirstError | src/hand_tracking_sdk/client.py:197-259 | under the strict policy the stream raises the error of the first bad line, after receiving exactly the lines up to it |
| Client.PoliciesAgreeOnCleanInput | src/hand_tracking_sdk/client.py:349-368 | on lines that all parse, strict and tolerant streams are identical |
| Client.LineStepFrames | src/hand_tracking_sdk/client.py:246-259 | under the tolerant policy with frame output one line continues, and its frames are those of the assembler run on the line's packet, if one was accepted |
| Client.StreamFramesAreAssembled | src/hand_tracking_sdk/client.py:197-259 | with frame output and the tolerant policy, the frames yielded are exactly those of the assembler fed every accepted packet in order, and the assembler ends in that run's state |
| Client.RunAssemblerConcat | src/hand_tracking_sdk/frame.py:163-213 | feeding the assembler two batches one after the other is feeding it their concatenation |
| Client.HandleBudget | src/hand_tracking_sdk/client.py:235-259 | a consumer that stops early sees either the whole step, or the step cut off at exactly its demand |
| Client.BudgetIsPrefix | src/hand_tracking_sdk/client.py:197-259 | a consumer that stops after b events sees the first events of the full stream, no more than b |
| Client.ErrorUnderBudget | src/hand_tracking_sdk/client.py:217-219 | a parse error is raised only while the consumer still asks for events |
| Client.Cap | src/hand_tracking_sdk/client.py:301-305 | at least one event is processed, and a positive cap is the number at which the loop stops |
| Client.RunBudget | src/hand_tracking_sdk/client.py:284-305 | the number of events `run` pulls: unbounded iff no cap and no failing callback, otherwise the cap or the failing call, whichever comes first |
| Client.DemandBounds | src/hand_tracking_sdk/client.py:284-305 | what was pulled respects the cap and the failing call, and a parse error comes before either is reached |
| Client.RunUnlimited | src/hand_tracking_sdk/client.py:284-305 | without cap or failing callback, `run` delivers every event of the stream: it returns their number, or raises the stream's parse error, and counts one callback per event |
| Client.RunStopsAtCap | src/hand_tracking_sdk/client.py:301-305 | with a cap, `run` returns the cap if the stream has that many events; otherwise it behaves as without a cap |
| Client.FailingCallBudget | src/hand_tracking_sdk/client.py:286-299 | a callback failing before the cap makes `run` pull exactly one event more than the calls that succeed |
| Client.RunCallbackFails | src/hand_tracking_sdk/client.py:286-299 | a callback that fails at call k (before the cap, with that many events) makes `run` raise, wrapped iff asked, after counting k successful callbacks and one callback error |
| Client.RunReturnCounts | src/hand_tracking_sdk/client.py:284-305 | when `run` returns n, n callbacks were counted, none failed, and n respects the cap and the failing call |
| Client.HTSClient.constructor | src/hand_tracking_sdk/client.py:179-195 | a client starts with zero counters and a fresh assembler |
| Client.HTSClient.ParseWithPolicy | src/hand_tracking_sdk/client.py:349-368 | a parsed packet is returned; a parse error counts a parse error and a dropped line, and is raised iff the policy is strict |
| Client.HTSClient.ReceiveLine | src/hand_tracking_sdk/client.py:207-259 | one pass of the loop body yields, stops and raises exactly as the line step says, and leaves its state |
| Client.HTSClient.Route | src/hand_tracking_sdk/client.py:217-259 | after parsing, the rest of the loop body follows the line step |
| Client.HTSClient.AcceptPacket | src/hand_tracking_sdk/client.py:235-259 | a packet that passed the filter is yielded and assembled as the line step says |
| Client.HTSClient.AssembleFrame | src/hand_tracking_sdk/client.py:246-259 | the packet is pushed with the clocks the line arrived with; a frame is yielded and counted iff one came out |
| Client.HTSClient.IterEvents | src/hand_tracking_sdk/client.py:197-259 | the loop yields exactly the stream's events, raises its error, and ends in its state |
| Client.HTSClient.Run | src/hand_tracking_sdk/client.py:261-305 | `run` ends in the state and with the outcome of the run function |
| Client.HTSClient.Callbacks | src/hand_tracking_sdk/client.py:285-305 | the callback loop over the pulled events counts and stops as the delivery function says |
| Client.HTSClient.GetStats | src/hand_tracking_sdk/client.py:307-309 | returns the current counters |
| Client.HTSClient.ResetStats | src/hand_tracking_sdk/client.py:311-313 | all counters become zero and the assembler is untouched |

## Left out

- The transports (`transport.py`, `_make_receiver`): UDP, TCP server and TCP client sockets, reconnects and timeouts. A stream is a given sequence of received lines.
- Logging: `log_hook`, `_emit_log`, `StreamLogEvent` and `LogEventKind`. They only report on the loop and change none of its state.
- `convert.py` and `visualization.py`, which are outside the pipeline.
- Clocks: `time.monotonic_ns()` and `time.time_ns()` are readings carried by each `Arrival` or passed to `PushPacket`/`PushLine` (`monotonicNow`, `wallNow`).
- Models.LandmarksFromDict: a dictionary under "points" is iterated by key only when it has at most one key. One with two or more keys is refused with `UnorderedKeys`, because the model's dictionaries do not record the insertion order Python iterates in.
- Models.Elements: the same limit; iterating a dictionary of two or more keys gives `UnorderedKeys`.
- Text.ParseInt: covers only `[+|-]digits` with ASCII digits. Digit underscores and non-ASCII decimal digits (Arabic-Indic, fullwidth and the like), which Python's `int` accepts, are refused.
- Text.ParseFloat: covers only the decimal literals `[+|-]digits`, `[+|-]digits.[digits]` and `[+|-].digits`. Exponents, `inf`, `nan`, digit underscores and non-ASCII decimal digits (Arabic-Indic, fullwidth and the like) are rejected, although Python's `float` accepts them, so such payloads count as NonFloatValues here.
- Floating point: coordinates and times are `real` and `int`, with no IEEE rounding or precision.
- Text.Lower: lowers ASCII letters and the Kelvin sign only, which is enough to decide whether a word lowers to "wrist" or "landmarks". Other Unicode case mappings are not modelled.
- Frame.FrameFromDict: `str(...)` of a value that is not a string is not modelled, so a non-string side or frame id is refused (`NotAString`). `int(...)` is modelled for integers, floats (truncated toward zero) and decimal integer strings only.
- Client.HTSClient.Run: the callback is not called. It is described by the index of its first failing invocation, and exceptions and their wrapping become `RunOutcome` values. The generator is modelled as stopping once `run` has pulled all the events it will use.
- Exception messages: errors are datatype values (`ParseError`, `ConfigError`, `DecodeError`), not message strings.
- Transport-related fields of the configuration (`transport_mode`) are carried but have no effect, since no transport is modelled.
