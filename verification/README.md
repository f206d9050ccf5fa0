# monoblok, verified

monoblok is a single-threaded NATS-style message broker with a stateful stream-processing language,
patchbay. This project models its core in Dafny and proves what the parts are for: a publish through
three hash-indexed lists delivers what a scan of every subscription would; a byte stream means the
same however it is cut into reads; timers decide when a window result or a bar comes out, never what
is in it; the clock scheduler ends; the two cross-thread hand-offs lose and repeat nothing; a snapshot
loads back what was written.

Each module follows one component. Code that updates fields, lists or arrays in place is a class or a
method with loops, proved against a function on values; the promises are then proved about those
functions, over every run. The two multi-threaded components are step systems whose steps are the
sections the code runs under its lock.

| module | what it models |
|---|---|
| `Subjects` | tokens, filters and `subject_matches`; subject validity |
| `HashIndex` | the open-addressed indexes of the router and of the state slots |
| `LastValues` | the bounded last-value cache |
| `Subscriptions`, `Delivery`, `Router` | subscription lists and buckets; one list of one publish; the whole router |
| `AutoUnsubscribe` | limited subscriptions over runs of publishes |
| `Wire`, `Receive`, `Client` | the client protocol parser, the receive loop, and what a client sends |
| `Frames`, `Utf8` | the MSG and server-sent-event writers, and what their readers get |
| `Windows`, `Throttle`, `Bars`, `Clocks` | the window, throttle, bar and clock forms of patchbay |
| `Scheduler` | deadlines, ticks and event-time catch-up |
| `Dispatch`, `Evaluator` | which rules a publish runs, and evaluation with reentrant publishing |
| `JetStream`, `Importer` | the one-slot hand-off and the bounded import ring |
| `Snapshot`, `SnapshotWriter` | the snapshot codec: meaning and round trip; the writing and loading loops |

The router results, in brief. `Router.Valid` holds between any two calls: every subscription is where a
lookup finds it, `sub_count` and each connection's count are the numbers of entries, every limited
subscription has deliveries left, and the scratch arrays are as long as the subscriptions are many.
`Publish` is stated on `All()`, the concatenation of all lists, with `marks` saying which entries got
the message: only wanted entries do, each wanted plain entry does unless this publish shut its
connection, at most one member of a queue group does and one does unless the chosen member was shut,
every output buffer grows by exactly the frames of its marked entries in order, and kick and close
callbacks are owed to exactly the connections written to and shut, each once. `PublishIsScan` turns
that into the plain scan under a condition on the buffers alone, and `ShutExactly` says exactly when a
connection is shut.

Seven places where the code and what one would expect differ, each with an exact condition and an input:

- `docs/patchbay.md` (lines 379-391) says `>` stands for one or more tokens; `subject_matches` lets it
  stand for none. `TailMayBeEmpty` says on which subjects the two differ, `TailExample` gives one; the
  model follows the code.
- A `$LVC.` subscribe whose replay overflows is undone by its sid, which also drops older
  subscriptions with that sid. `FailedSubscribeExact` says when the undo is exact, `TakeBackExample`
  gives a subscribe that loses one.
- A time ring that still holds a sample at the last representable time keeps a saturated deadline that a
  tick cannot move. `TickStuckOnlyAtMax` shows this is the only such case, `StuckExample` gives one.
- A timer that ticks late, `src/server/server.c:126-131`, lets a call of `aggregate!` join the window
  before its own. `AggregateWindows` says that buckets are windows exactly when no call finds the slot
  due, `LateTickExample` gives a run where one does.
- Catching up before each event is not enough for that: a body that a tick fires may publish to an
  `aggregate!` whose deadline it is and whose turn is still to come. `CatchUpMakesWindows` says that in
  caught-up runs this is exactly when windows go wrong, `EarlyBodyExample` gives such a run.
- The snapshot writer writes count rings that the loader refuses, and with them the whole file.
  `SaveAndLoad` states when: exactly when some count ring is over the loader's limit (`Loadable`).
  `HugeRingExample` gives a program.
- Without a program the loader skips rule records, and refuses a long time ring that it would load with
  one. `SkipRuleAgrees` says that this is the only difference, `LongRingExample` gives a record.

## Model

| member | source | states |
|---|---|---|
| `Subjects.JoinSplit` | src/router.c:71-85 | joining the tokens of a subject gives the subject back |
| `Subjects.NextSubjectToken` | src/router.c:71-85 | the cursor yields the first remaining token and leaves exactly the others, and refuses empty tokens and the end |
| `Subjects.SubjectMatches` | src/router.c:107-127 | the two-cursor loop decides matching as defined on token sequences, for all byte strings |
| `Subjects.MatchTokensDenotes` | src/router.c:107-127 | on nonempty tokens the recursive match is the pattern: agreement position by position, `>` taking the rest |
| `Subjects.MatchesMeans` | src/router.c:107-127 | for every valid filter and subject, matching is that pattern on their tokens |
| `Subjects.TailMayBeEmpty` | src/router.c:107-127 | the code accepts all the documented matches, and more exactly for subjects equal to the filter without its `>` |
| `Subjects.TailExample` | src/router.c:112-117 | `foo.>` matches `foo`, against the documented rule |
| `Subjects.FirstTokenDecides` | src/router.c:694-706 | a filter with a literal first token matches only subjects that start with that token |
| `Subjects.LiteralMatchesItself` | src/router.c:98-105 | a valid filter without wildcard bytes matches exactly itself |
| `Subjects.CheckTokenValid` | src/proto.c:58-69 | accepts exactly nonempty strings without blanks, control bytes and DEL |
| `Subjects.CheckSubjectValid` | src/proto.c:71-104 | accepts exactly printable subjects whose tokens are all acceptable, `>` only last |
| `Subjects.IsLiteralFilter` | src/router.c:98-105 | true exactly when no byte is a wildcard |
| `HashIndex.FreeCell` | src/router.c:173-179 | with fewer entries than cells every probe sequence meets a free cell, so probing ends |
| `HashIndex.InsertCell` | src/router.c:173-179 | inserting keeps the table sound and adds exactly the new entry, for any hash function |
| `HashIndex.Probe` | src/router.c:284-301 | finds an index whose entry holds the key, and reports absence exactly when no entry does |
| `HashIndex.NextCap` | src/router.c:162-171 | a power of two, at least 16 and at least what is needed, less than twice that when above 16 |
| `HashIndex.SwapRemoveMultiset` | src/router.c:53-60 | swap-remove drops the entry at the index and nothing else |
| `HashIndex.Index.Find` | src/router.c:284-301 | index i exactly when entry i holds the key, with or without a table |
| `HashIndex.Index.Ensure` | src/router.c:187-210 | growing rebuilds a sound table under half load and keeps the entries |
| `HashIndex.Index.Refresh` | src/router.c:262-271 | a cleared and refilled table is sound for whatever keys the vector now has |
| `HashIndex.Index.Bucket` | src/router.c:341-365 | finds the key's entry, or appends one exactly when asked to; other entries stay |
| `HashIndex.Index.RemoveAt` | src/router.c:393-402 | swap-removes the key and leaves a sound index |
| `HashIndex.Index.StateSlot` | src/patchbay/pb_eval.c:353-396 | the slot of a key, appended once; there is no table until a lookup finds eight slots, and always one from then on |
| `LastValues.PutIsUpdate` | src/router.c:512-561 | a store that fits is a map update, keeps both caps and moves the byte count by the length difference |
| `LastValues.LatestIsLastAccepted` | src/router.c:512-602 | after any run of stores a subject holds p exactly when its last accepted store carried p |
| `LastValues.RunFilled` | src/router.c:512-561 | any run of stores under a configuration leaves only valid, cacheable subjects, so the round trip applies to it |
| `LastValues.Lvc.Configure` | src/router.c:429-461 | takes filters only if all are valid; otherwise, or with none, the cache is off |
| `LastValues.Lvc.FilterMatches` | src/router.c:485-510 | whether some configured filter matches, for statistics only filters that name them |
| `LastValues.Lvc.StoreValue` | src/router.c:512-561 | the reference store; accepted exactly when the subject is cacheable and valid and both caps hold afterwards |
| `LastValues.Lvc.Latest` | src/router.c:581-602 | the cached payload exactly for valid enabled subjects that are in the map |
| `Subscriptions.CountPerm` | src/router.c:53-69 | how many entries a connection owns does not depend on their order |
| `Subscriptions.MatchesPlace` | src/router.c:694-706 | a filter that matches a subject is kept in one of the three places a publish looks at, and all entries of the literal bucket match |
| `Subscriptions.Buckets.Add` | src/router.c:694-706 | adds one entry to the bucket of its key and keeps every entry under its key |
| `Subscriptions.Buckets.SetRow` | src/router.c:393-413 | writes a bucket's list back, removing the bucket exactly when the list is empty |
| `Delivery.OutcomeConcat` | src/router.c:928-956 | outcomes of two lists that share no queue group are the outcome of both together |
| `Delivery.ChosenOutcome` | src/router.c:928-956 | delivering to exactly the chosen entries still wanted serves all plain entries and one member per group, save for connections shut |
| `Delivery.Fanout.SubDeliverable` | src/router.c:805-813 | open connection, matching filter unless skipped, and an enabled subject for `$LVC.` entries |
| `Delivery.Fanout.CollectQueueDelivery` | src/router.c:821-848 | the entry's group exists afterwards, keeps its key, and selects this entry or the one selected before; other groups stay |
| `Delivery.Fanout.QueueSelected` | src/router.c:850-860 | true exactly for plain entries and for the selected member of an entry's own group |
| `Delivery.Fanout.Collect` | src/router.c:932-943 | one group per wanted queue group, each with one wanted member selected, whatever the random numbers |
| `Delivery.Fanout.MeasureFrame` | src/router.c:880-897 | the measured length is the length of the frame the connection's own writer produces |
| `Delivery.Fanout.QueueConnClose` | src/router.c:862-878 | marks the connection closed and records it once per publish; the scratch array has room |
| `Delivery.Fanout.DeliverToSub` | src/router.c:880-913 | appends the whole frame or closes the connection, counts the delivery, kicks once per publish; `kicked` is never written out of bounds |
| `Delivery.FollowsStep` | src/router.c:862-913 | one delivery keeps, for its connection, what the buffer gained, the pending cap, and when it may have been closed or listed |
| `Delivery.ScanDelivers` | src/router.c:945-953 | the loop delivers to exactly the chosen entries wanted at its start, unless their connection gets closed |
| `Delivery.ScanTracks` | src/router.c:945-953 | over the whole loop every buffer grows by exactly the frames delivered to it, and closed and kicked lists stay exact and free of repeats |
| `Delivery.Fanout.DeliverMatchingList` | src/router.c:928-956 | one list of a publish: right outcome, exact buffers, delivered counters bumped, expired entries gone, counters in step; no failure exit is reachable |
| `Delivery.Fanout.SweepList` | src/router.c:756-774 | the swap-remove loop leaves, up to order, what the rule keeps, and each counter drops by the entries removed |
| `Delivery.Fanout.SweepBuckets` | src/router.c:776-794 | the same for a bucket array; no empty bucket is left |
| `Delivery.Fanout.NoteSubRemoved` | src/router.c:62-69 | both counters drop by one, never below zero |
| `Delivery.Fanout.Reserve` | src/array.c:6-40 | doubles a capacity until it is enough, never shrinks it, and stops below twice what is needed |
| `Router.OnlyRow` | src/router.c:994-1010 | everything a subject matches in a bucket array is in the one bucket its key selects |
| `Router.Whole` | src/router.c:994-1010 | visiting the three lists is visiting all arrays they are part of |
| `Router.Router.constructor` | src/router.c:415-418 | the empty router satisfies the invariant |
| `Router.Router.Publish` | src/router.c:970-1028 | the invariant is kept; it fails exactly on its arguments or a refused store, changing nothing; otherwise the outcome is that of a scan of all subscriptions, buffers and callbacks exact |
| `Router.Router.Callbacks` | src/router.c:1012-1023 | close is called for the connections shut, kick for those written to and still open, each once |
| `Router.PublishIsScan` | src/router.c:928-1028 | when every open connection has room for all it could be sent, exactly the wanted plain entries and exactly one member of each wanted group are delivered to |
| `Router.ShutExactly` | src/router.c:880-913 | a connection without wanted queue entries is shut exactly when what it is due is not empty and does not fit |
| `Router.ClientReads` | src/router.c:880-913 | a client decoding what a publish appended gets one message per delivered subscription, in order |
| `Router.BrowserReads` | src/router.c:880-913 | the bytes a publish appended are one event per delivered subscription, in order, unless the payload has a NUL; decoding them as UTF-8 first, as a browser does, changes nothing exactly when these events are well-formed UTF-8 |
| `Router.Router.CheckSubscribe` | src/router.c:660-676 | accepts exactly known connections, valid filter, sid and queue, an enabled cache for `$LVC.`, and both caps respected |
| `Router.NewSubIs` | src/router.c:660-676 | the entry a subscribe makes, field by field: `$LVC.` is taken off and remembered |
| `Router.Router.Subscribe` | src/router.c:660-718 | the invariant is kept; one entry is added and counted, or nothing changes, or the replay did not fit: then the longest prefix that fits was sent and the entries of that sid are gone |
| `Router.Router.Place` | src/router.c:694-706 | the entry is added to the list where a publish will look for it |
| `Router.Router.EmitCached` | src/router.c:604-629 | the frames of the matching cached subjects are appended in order: the longest prefix that stays within the pending cap, none when the cache is off |
| `Router.CutIsLongest` | src/router.c:604-629 | where a replay stops there is no longer prefix that fits, and it stops at the end exactly when everything fits |
| `Router.EnteredMeans` | src/router.c:604-629 | a subscribe past its checks succeeds exactly when its replay fits; no other buffer changes, and the one that grows stays within the pending cap, on success and on failure |
| `Router.TakeBackExact` | src/router.c:713-716 | undoing a failed `$LVC.` subscribe restores the subscriptions exactly when the connection had none with that sid |
| `Router.FailedSubscribeExact` | src/router.c:713-716 | a failed `$LVC.` subscribe leaves the subscriptions as they were exactly when its connection had none with that sid |
| `Router.TakeBackExample` | src/router.c:713-716 | with a full buffer, one subscription and one cached value, a subscribe under the same sid passes its checks, can only fail, and loses the old subscription |
| `Router.Router.Unsubscribe` | src/router.c:756-794 | entries of the sid whose maximum is still ahead have that maximum afterwards, the others of the sid are gone, all other entries are as they were, each as often; the invariant is kept |
| `Router.Router.RemoveAllFor` | src/router.c:724-754 | the entries of the connection are gone and all others as they were, each as often; the invariant is kept |
| `AutoUnsubscribe.SettledCounts` | src/router.c:915-956 | after a publish each entry is there with its delivery counted, as often as before, unless that was its last |
| `AutoUnsubscribe.PlainServed` | src/router.c:928-956 | while its connection stays open a plain subscription is delivered to exactly when it hears the message |
| `AutoUnsubscribe.LimitKept` | src/router.c:915-956 | over every run of publishes a limited plain subscription is there with all messages it heard counted while these are below its maximum, and is gone from the one on that reaches it |
| `AutoUnsubscribe.MarkedWhenHeard` | src/router.c:928-956 | wherever such a run finds it, a publish delivers to it exactly when it hears the message |
| `AutoUnsubscribe.DeliveredIs` | src/router.c:915-956 | so it is delivered all it hears, but at most as many as it had left |
| `AutoUnsubscribe.AutoUnsubscribes` | src/router.c:756-956 | an unsubscribe with maximum n followed by any run of publishes: exactly the first n less delivered messages it hears, and then it is gone |
| `Router.Router.Attach` | src/server/conn.c:586-598 | a new zeroed connection keeps the invariant |
| `Router.Router.Transport` | src/router.h:23-42 | draining, filling or closing a connection between calls keeps the invariant |
| `Wire.TrimSpaces` | src/proto.c:32-41 | strips blanks from both ends |
| `Wire.NextToken` | src/proto.c:43-56 | the first word of the line, leaving the others |
| `Wire.Separators` | src/proto.c:32-56 | a space or a tab ends a word and does not matter before one |
| `Wire.EqUpper` | src/proto.c:19-30 | case-insensitive comparison with a verb |
| `Wire.VerbAnyCase` | src/proto.c:19-30 | a word is a verb exactly when it is that verb letter by letter in either case |
| `Wire.ParseUsize` | src/proto.c:106-123 | the value of a digit string, or nothing when it is malformed or overflows |
| `Wire.NumberMeans` | src/proto.c:106-123 | a number is a nonempty string of digits in range, with its value read from left to right |
| `Wire.ParseSub` | src/proto.c:125-154 | SUB with two or three arguments on the words of the line, anything else invalid |
| `Wire.ParseUnsub` | src/proto.c:156-182 | UNSUB with one or two arguments, anything else invalid |
| `Wire.ParsePub` | src/proto.c:184-257 | PUB with two or three arguments and its payload, or that more bytes are needed |
| `Wire.ParseClientOp` | src/proto.c:259-319 | the cursor parser computes the reference parse of the buffer |
| `Wire.ParseStable` | src/proto.c:184-319 | every result other than NEED_MORE is unchanged by further bytes |
| `Wire.ParseBounds` | src/proto.c:259-319 | an accepted operation consumes a nonempty prefix; an undecided buffer is shorter than the receive cap |
| `Client.OpRoundTrip` | src/proto.c:125-319 | the bytes a client sends for an operation, whatever follows them, parse to that operation and exactly its length, unless the line is too long |
| `Client.ParsedAcceptable` | src/proto.c:125-319 | and every operation the parser accepts is one a client can send so |
| `Receive.DrainResume` | src/server/conn.c:254-294 | processing a buffer and then more bytes is processing both at once |
| `Receive.VerdictsHandled` | src/server/conn.c:254-294 | what each verdict of the parser comes to: an operation handled, a line rejected and skipped, or a violation that closes |
| `Receive.ChunkingInvariance` | src/server/conn.c:254-294 | feeding a stream in any chunks gives the operations and errors of the whole stream up to the first fatal one |
| `Receive.SplitsAgree` | src/server/conn.c:254-294 | two ways of cutting the same stream agree |
| `Receive.Conn.ProcessRx` | src/server/conn.c:254-294 | the loop over the receive buffer is that function, and what it leaves never reaches the receive cap |
| `Wire.ClientSplitsAgree` | src/server/conn.c:254-294 | chunking invariance for the client protocol parser itself |
| `Client.SessionHandled` | src/server/conn.c:254-294 | however the operations of a session are cut into reads, each is handled once, in order, and no byte is left over |
| `Frames.AppendDecimal` | src/proto.c:321-333 | writes the decimal digits of a number, last first, in reading order |
| `Frames.DecimalLen` | src/proto.c:335-342 | how many digits that writes |
| `Frames.MsgFrameLen` | src/proto.c:437-464 | the length of the frame, for every prefix of the given length |
| `Frames.WriteMsg` | src/proto.c:471-495 | appends exactly the frame |
| `Frames.MsgRoundTrip` | src/proto.c:471-495 | a frame of a sendable message decodes to it, whatever follows |
| `Frames.MsgStreamDecodes` | src/proto.c:471-495 | any concatenation of frames decodes to the messages sent |
| `Frames.JsonStringLen` | src/server/http.c:511-523 | adds exactly the escaped length |
| `Frames.AppendJsonString` | src/server/http.c:525-549 | appends exactly the escaped string |
| `Frames.EscapeRoundTrip` | src/server/http.c:525-549 | unescaping returns the original bytes |
| `Frames.EscapeNoLineEnd` | src/server/http.c:525-549 | an escaped string contains no line end, so it stays on its data line |
| `Frames.EscapeUtf8` | src/server/http.c:525-549 | an escaped string is well-formed UTF-8 exactly when the string is |
| `Frames.SseMsgLen` | src/server/http.c:551-570 | the length of the event frame, zero for a payload with a NUL |
| `Frames.SseWriteMsg` | src/server/http.c:572-587 | appends exactly the event frame |
| `Frames.SseRoundTrip` | src/server/http.c:572-587 | an event without NUL decodes to its subject and payload, whatever follows |
| `Frames.SseStreamDecodes` | src/server/http.c:572-587 | any concatenation of event frames decodes to the visible events, in order |
| `Frames.SseStreamUtf8` | src/server/http.c:572-587 | a stream of event frames is well-formed UTF-8 exactly when the subjects and payloads of the visible events are, so that a reader that decodes it first loses nothing |
| `Windows.AtIsModulo` | src/patchbay/pb_form_windows.c:158-161 | the ring position that wraps once is the position modulo the capacity |
| `Windows.Ring.Reserve` | src/patchbay/pb_form_windows.c:44-74 | growing keeps the logical contents in order |
| `Windows.Ring.PushCount` | src/patchbay/pb_form_windows.c:76-89 | appends a value, dropping the oldest exactly when full; the sum stays the sum |
| `Windows.Ring.EvictTime` | src/patchbay/pb_form_windows.c:91-101 | drops exactly the leading samples before the cutoff |
| `Windows.Ring.Append` | src/patchbay/pb_form_windows.c:103-116 | appends one timed sample, growing if needed |
| `Windows.Ring.PushWindow` | src/patchbay/pb_form_windows.c:141-156 | evicts and appends as one step on the sequence of samples |
| `Windows.Ring.Tick` | src/patchbay/pb_forms.c:120-123 | a tick only evicts |
| `Windows.Ring.CalcRing` | src/patchbay/pb_form_windows.c:163-190 | every calculation is that of the logical values |
| `Windows.ExtremesAreExtreme` | src/patchbay/pb_form_windows.c:163-190 | the minimum and maximum are members and bounds |
| `Windows.CalculationsMean` | src/patchbay/pb_form_windows.c:163-190 | the sum is the last partial sum, the minimum and the maximum are reached bounds |
| `Windows.AverageMeans` | src/patchbay/pb_form_windows.c:163-190 | the average times the number of values is their sum |
| `Windows.VarianceMeans` | src/patchbay/pb_form_windows.c:163-190 | the variance is the average of the squares less the square of the average |
| `Windows.WindowIsRecent` | src/patchbay/pb_form_windows.c:91-156 | after any run the ring holds, in order, exactly the pushed samples not before the cutoff |
| `Windows.TicksAreInvisible` | src/patchbay/pb_forms.c:120-123 | ticks inserted anywhere change no later window |
| `Throttle.CallTime` | src/patchbay/pb_form_windows.c:271-306 | one call in time mode evicts by its own argument, passes exactly while fewer than max samples are left, and then adds one: the step of the runs of `TimeBound` |
| `Throttle.TimeBound` | src/patchbay/pb_form_windows.c:271-306 | over every run any closed interval of length ms contains at most max passes |
| `Throttle.TimePasses` | src/patchbay/pb_form_windows.c:271-306 | over every run a call passes exactly when fewer than max passes lie in the last ms before it |
| `Throttle.CallCount` | src/patchbay/pb_form_windows.c:271-306 | one call in count mode passes exactly while the ring's sum is below max: the step of the runs of `CountBound` |
| `Throttle.RingIsRecent` | src/patchbay/pb_form_windows.c:76-89 | the ring holds the last count verdicts |
| `Throttle.CountBound` | src/patchbay/pb_form_windows.c:271-306 | any count consecutive calls contain at most max passes |
| `Throttle.CountPasses` | src/patchbay/pb_form_windows.c:271-306 | over every run a call passes exactly when fewer than max of the last count calls did |
| `Bars.BarSlot.TimeSample` | src/patchbay/pb_form_bar.c:69-100 | a timed sample on the bar fields: one step of the runs of `BarsIgnoreTicks` |
| `Bars.BarSlot.Tick` | src/patchbay/pb_form_bar.c:102-118 | a tick closes a bar whose window is over, with the unsigned subtraction: the other step of those runs |
| `Bars.BarSlot.CountSample` | src/patchbay/pb_form_bar.c:50-67 | a sample of a counting bar: one step of the runs of `CountBarsAreChunks` |
| `Bars.ByWindowGroups` | src/patchbay/pb_form_bar.c:69-100 | the reference grouping partitions the stream by floor(t / window), in order |
| `Bars.BarsIgnoreTicks` | src/patchbay/pb_form_bar.c:69-118 | emitted bars and the open one are the open, high, low and close of each group, with or without ticks |
| `Bars.ByCountGroups` | src/patchbay/pb_form_bar.c:50-67 | chunks of the cap, only the last shorter |
| `Bars.CountBarsAreChunks` | src/patchbay/pb_form_bar.c:50-67 | counting bars are the bars of those chunks |
| `Clocks.ClockSlot.RetainPublish` | src/patchbay/pb_form_clocks.c:26-48 | retains the latest subject and payload; debounce re-arms, sample arms once: a step of the runs of `RetainEmitsLatest` |
| `Clocks.ClockSlot.CallAggregate` | src/patchbay/pb_form_clocks.c:72-115 | the sample joins the pending bucket; the first call sets the deadline: a step of the runs of `AggregatePartition` and `AggregateWindows` |
| `Clocks.ClockSlot.CallOnSilence` | src/patchbay/pb_form_clocks.c:129-156 | every message moves the deadline: a step of the runs of `RetainEmitsLatest` |
| `Clocks.ClockSlot.CallDropout` | src/patchbay/pb_form_clocks.c:158-189 | re-arms, and fires found exactly when the stream was lost: a step of the runs of `DropoutAlternates` |
| `Clocks.ClockSlot.Tick` | src/patchbay/pb_form_clocks.c:200-262 | what a due clock does, kind by kind, as a step of those same runs; a clock that is not due is untouched |
| `Clocks.AggregatePartition` | src/patchbay/pb_form_clocks.c:72-115 | the computed buckets and then the pending one are the calls in order, and each output is the metrics of its own bucket, none of which is empty |
| `Clocks.AggregateWindows` | src/patchbay/pb_form_clocks.c:200-262 | the bucket computed at deadline d holds exactly the calls of the window that ends at d, for all of them, if and only if no call found the slot already due |
| `Clocks.LateTickExample` | src/server/server.c:126-131 | two calls one interval apart with no tick between share a bucket, which is then no window |
| `Clocks.AggregateGrid` | src/patchbay/pb_form_clocks.c:200-262 | aggregate deadlines stay on the grid of the first call |
| `Clocks.SampleGrid` | src/patchbay/pb_form_clocks.c:200-262 | so do sample deadlines |
| `Clocks.RetainEmitsLatest` | src/patchbay/pb_form_clocks.c:26-48 | each emission carries the latest retained payload, a debounce at most once per arming |
| `Clocks.RetainFires` | src/patchbay/pb_form_clocks.c:200-262 | a tick of debounce! or on-silence emits exactly when the latest call is unanswered and ms or longer ago |
| `Clocks.DropoutAlternates` | src/patchbay/pb_form_clocks.c:158-262 | firings alternate lost, found, lost, starting with lost |
| `Clocks.DropoutFires` | src/patchbay/pb_form_clocks.c:158-262 | a tick fires lost exactly when the stream is there and was last heard ms or longer ago, a message fires found exactly when it was lost |
| `Scheduler.CallKeeps` | src/patchbay/pb_program.c:1242-1264 | any form call at time d leaves a slot's deadline as it was or moves it past d, and ripens nothing at d |
| `Scheduler.TickAdvances` | src/patchbay/pb_forms.c:116-129 | a tick at d, when nothing is due before d, leaves the slot's deadline after d |
| `Scheduler.LateTickLags` | src/patchbay/pb_form_clocks.c:200-262 | a late tick leaves a slot due exactly when it is a sample! or aggregate! that has missed a whole interval |
| `Scheduler.Program.TickOne` | src/patchbay/pb_program.c:1167-1219 | one slot of a tick: it is ticked, and if it fires its body is run, all calls in order, and nothing else happens |
| `Scheduler.TickStuckOnlyAtMax` | src/patchbay/pb_program.c:1242-1264 | at every representable time the tick advances the slot, except exactly a nonempty time ring at the last one |
| `Scheduler.DeadlineExact` | src/patchbay/pb_program.c:1242-1264 | the deadline of a slot is exactly the first time at which a tick changes it |
| `Scheduler.FiresExactly` | src/patchbay/pb_forms.c:116-129 | a tick fires exactly a due clock, an aggregate! only with samples, and a bar whose window is over |
| `Scheduler.StuckExample` | src/patchbay/pb_program.c:1242-1264 | such a slot |
| `Scheduler.Program.Tick` | src/patchbay/pb_program.c:1167-1219 | early, on time or late, it ends whatever the fired bodies do, with every slot ticked once; only sample! and aggregate! clocks can still be due, and nothing is when nothing was due before d |
| `Scheduler.Program.NextDeadline` | src/patchbay/pb_program.c:1266-1286 | the least deadline of any slot, or none; by `NextTickMatters` the first time at which a tick does anything |
| `Scheduler.NextTickMatters` | src/patchbay/pb_program.c:1266-1286 | a tick before the least deadline changes nothing, a tick at it something |
| `Scheduler.Program.TickUntil` | src/patchbay/pb_program.c:1225-1240 | ends for every program state; ticks are strictly increasing and at most now, each ticks every slot once, nothing due remains, and the run so far goes on with exactly these ticks |
| `Scheduler.Program.OnEvent` | src/main.c:140-157 | catching up and then evaluating at the time of the event goes on with the run: the event finds nothing due, and its calls are applied in order |
| `Scheduler.CatchUpMakesWindows` | src/main.c:140-157 | in every run of a program that catches up before each event, the buckets of every aggregate! slot are exactly their windows if and only if no body fired by a tick calls the slot while it is due, before its own turn |
| `Scheduler.EarlyBodyExample` | src/patchbay/pb_program.c:1045-1071 | a run of two rules in which one does, and a bucket has a call from its own deadline |
| `Scheduler.SlotLived` | src/patchbay/pb_program.c:1167-1240 | in every run a slot is what its own calls and ticks, in order, make of an empty one |
| `Scheduler.WindowLives` | src/patchbay/pb_form_windows.c:141-156 | which for a moving window is the window of `WindowIsRecent` |
| `Scheduler.ThrottleLives` | src/patchbay/pb_form_windows.c:271-306 | for a throttle the ring of `TimeBound` and `TimePasses` |
| `Scheduler.BarLives` | src/patchbay/pb_form_bar.c:69-118 | for a bar the open bar of `BarsIgnoreTicks` |
| `Scheduler.RetainLives` | src/patchbay/pb_form_clocks.c:26-156 | for debounce!, sample! and on-silence the clock of `RetainEmitsLatest` and `RetainFires` |
| `Scheduler.DropoutLives` | src/patchbay/pb_form_clocks.c:158-189 | for dropout the clock of `DropoutAlternates` and `DropoutFires` |
| `Dispatch.SelectComplete` | src/patchbay/pb_program.c:867-883 | the reference list holds exactly the selected indexes, increasing |
| `Dispatch.RuleIndex.constructor` | src/patchbay/pb_program.c:867-883 | each bucket lists the rules with its first token in source order, the global list the others |
| `Dispatch.RuleIndex.Refs` | src/patchbay/pb_program.c:1028-1040 | the bucket of the subject's first token, empty if there is none |
| `Dispatch.ListsCover` | src/patchbay/pb_program.c:867-883 | a rule that matches is in the bucket or the global list, and none is in both |
| `Dispatch.Merge` | src/patchbay/pb_program.c:1115-1141 | merging the two lists evaluates exactly the matching rules, each once, in source order |
| `Dispatch.RuleIndex.Publish` | src/patchbay/pb_program.c:1115-1141 | the same for every rule set and every subject string |
| `Evaluator.Eval` | src/patchbay/pb_eval.c:427-481 | evaluation ends, yields a value no larger than its term, and only adds effects at this depth or deeper, never past the cap |
| `Evaluator.EvalRules` | src/patchbay/pb_program.c:1045-1141 | so does the evaluation of all rules for a publish, with reentry |
| `Evaluator.NineLevels` | src/patchbay/pb_program.c:1045-1071 | a publish from outside causes effects at levels 0 to 8 only |
| `Evaluator.ThreadSizes` | src/patchbay/pb_eval.c:588-606 | the call built for a threaded value is no larger than the form, so re-evaluating it still decreases |
| `Evaluator.ValuesAreStable` | src/patchbay/pb_eval.c:427-481 | evaluating a value gives the value and no effect |
| `Evaluator.ThreadChain` | src/patchbay/pb_eval.c:570-606 | a threading chain of any length is its last form applied to the value of the chain before it, evaluated once; an error or a nil ends it |
| `Evaluator.ApplyCalls` | src/patchbay/pb_eval.c:588-606 | applying a symbol or a list form evaluates its arguments and calls it with them and then the value |
| `Evaluator.IfLaw` | src/patchbay/pb_eval.c:511-526 | `if` evaluates its test and then the branch it selects, in the world the test left; a missing branch is nil |
| `Evaluator.WhenLaw` | src/patchbay/pb_eval.c:528-540 | `(when c a ...)` is `(if c (do a ...))` |
| `Evaluator.DoLaw` | src/patchbay/pb_eval.c:499-509 | `do` evaluates one form after the other, up to the first error, and gives the value of the last |
| `Evaluator.AndLaw` | src/patchbay/pb_eval.c:542-555 | `and` goes on while the values hold and gives the last one it got; without arguments it is true |
| `Evaluator.OrLaw` | src/patchbay/pb_eval.c:557-568 | `or` goes on until a value holds and gives that one, or nil |
| `Evaluator.TransitionLaw` | src/patchbay/pb_eval.c:608-645 | `transition` evaluates its test and then, when that differs from the latest test of the rule on the subject, the branch for the new value |
| `Evaluator.TransitionStarts` | src/patchbay/pb_eval.c:608-645 | the first test of a transition only fills an empty slot; a slot a snapshot restored counts as the test before |
| `Evaluator.DropoutLaw` | src/patchbay/pb_form_clocks.c:158-189 | `dropout` evaluates its interval and, when the stream was lost, its found form, never the lost form |
| `Evaluator.SilenceLaw` | src/patchbay/pb_form_clocks.c:129-156 | `on-silence` evaluates its interval and nothing of its body |
| `Evaluator.ArgsLaw` | src/patchbay/pb_eval.c:483-497 | arguments are evaluated left to right, up to the first error |
| `Evaluator.VectorLaw` | src/patchbay/pb_eval.c:463-475 | a vector evaluates to the vector of its values |
| `Evaluator.PlainLaw` | src/patchbay/pb_eval.c:647-687 | a plain form that publishes nothing gives what it returns for its evaluated arguments, with no further effect |
| `Evaluator.PublishOne` | src/patchbay/pb_program.c:1045-1071 | a message goes out, and is then evaluated one level deeper exactly if the rule is reentrant and below the cap |
| `Evaluator.PublishesInOrder` | src/patchbay/pb_program.c:1045-1071 | messages go out one after the other, up to the first that cannot be routed |
| `Evaluator.RulesInTurn` | src/patchbay/pb_program.c:1115-1141 | evaluating a message is evaluating exactly the rules whose filter matches, each on the message, in source order |
| `Evaluator.RulesEntered` | src/patchbay/pb_program.c:1073-1141 | so the rules entered at its level are these, once each, whatever they publish in turn |
| `Evaluator.ReentryShows` | src/patchbay/pb_program.c:1045-1071 | a reentrant publish adds nothing at its own level and enters exactly the matching rules one level deeper |
| `JetStream.InvRun` | src/jetstream.c:404-501 | the protocol invariant holds after every interleaving of worker, loop and close steps |
| `JetStream.AtMostOnce` | src/jetstream.c:404-467 | each fetched message is processed and destroyed at most once, and not destroyed while anyone holds it |
| `JetStream.ExactlyOnceAfterClose` | src/jetstream.c:541-562 | after close every fetched message has been destroyed exactly once |
| `JetStream.SlotEmptyAfterJoin` | src/jetstream.c:541-562 | the slot is empty once the worker has been joined |
| `JetStream.SlotFreeOnEntry` | src/jetstream.c:429-467 | the worker never has to wait for the slot |
| `JetStream.SleeperWillBeWoken` | src/jetstream.c:404-467 | a blocked worker's message is being processed or has a pending wake-up |
| `JetStream.SleeperProgress` | src/jetstream.c:404-427 | each loop step then brings the wake-up nearer |
| `JetStream.AckFollowsHandler` | src/jetstream.c:256-308 | an ack follows handler success, and received is acked plus failed between messages |
| `JetStream.ProcessedExactlyOnce` | src/jetstream.c:404-467 | in every run without a close and without a failed wake-up, every destroyed message was processed, once |
| `JetStream.GivenUpOnlyIf` | src/jetstream.c:429-467 | in every run a message is destroyed unprocessed only if the stream was closing or its own wake-up failed |
| `JetStream.AckedAreSent` | src/jetstream.c:256-308 | received counts the messages processed, acked exactly the acks sent, and every handler success leads to one ack |
| `JetStream.MessageGoesThrough` | src/jetstream.c:404-501 | from any free state the steps of one message lead to it being processed, acked and destroyed, and both threads being free again |
| `JetStream.ClosingWorkerExits` | src/jetstream.c:469-501 | once closing, every worker step brings its exit nearer |
| `Importer.InvStep` | src/importer.c:56-114 | every producer and consumer step keeps the ring, the order and the counter equation |
| `Importer.FifoExactlyOnce` | src/importer.c:66-114 | accepted messages reach the handler in order, once; the rest is in flight or queued |
| `Importer.AcceptedExactly` | src/importer.c:66-114 | a message is accepted exactly when the importer is not closing, the ring has room and payload and subject are acceptable, else counted as dropped |
| `Importer.HeadGoesThrough` | src/importer.c:285-345 | from any quiet state with a wake-up pending the steps of a drain bring the head of the queue to the handler |
| `Importer.CountersCount` | src/importer.c:56-114 | received counts the messages seen, processed and failed those handled with and without success, dropped those not accepted |
| `Importer.CopyFits` | src/importer.c:292-345 | the head read after re-locking has the size measured before, so the copy fits |
| `Importer.QuietMeansDone` | src/importer.c:285-345 | with no drain and no wake-up pending all accepted messages are handled and the counters add up |
| `Snapshot.ReadU64Loop` | src/snapshot.c:93-107 | the byte loop reads a little-endian number or reports a short buffer |
| `Snapshot.AppendU64` | src/snapshot.c:42-50 | writes it |
| `Snapshot.StateRoundTrip` | src/snapshot.c:255-439 | every written slot state reads back, with the sum of a time ring added up anew, or is refused, exactly according to the loader's limits |
| `Snapshot.ReloadedSame` | src/snapshot.c:396-433 | a slot comes back as it was exactly when its running sum is the sum of its samples and a bar has a window exactly when it is a time bar |
| `Snapshot.LoadedSum` | src/snapshot.c:413-429 | the sum of a time ring read back is the last of the running sums of its samples, from 0 on |
| `Snapshot.SkipRuleAgrees` | src/snapshot.c:152-202 | on a whole written rule record the skipper stops where the loader does, and refuses what the loader takes exactly for a time ring over the field cap |
| `Snapshot.LongRingExample` | src/snapshot.c:189-198 | a time ring that the loader reads and the skipper refuses |
| `Snapshot.RuleBack` | src/snapshot.c:152-439 | a written rule record, with rule number, filter, key and state, reads back or is refused, and is skipped or not, exactly by the limits |
| `Snapshot.SplitKeyBack` | src/snapshot.c:204-216 | a key splits into the op and subject it was made from when the op has no colon |
| `Snapshot.LoadRecord` | src/snapshot.c:441-510 | loading a written record has its effect and goes on with the rest, or refuses the file exactly when the record holds a count ring over the loader's limit |
| `Snapshot.StrangerIgnored` | src/snapshot.c:218-253 | a record of a rule that is not there, or has another filter now, is read and leaves everything as it is |
| `Snapshot.SnapshotRoundTrip` | src/snapshot.c:441-636 | for the same rules, and a cache filled under the same filters, a written snapshot restores the cache entry for entry and every slot that is not a clock, sums of time rings added up anew, or is refused exactly when a count ring is over the loader's limit |
| `SnapshotWriter.AppendField` | src/snapshot.c:59-66 | a length-prefixed field, refused exactly when too long |
| `SnapshotWriter.AppendRing` | src/snapshot.c:529-619 | a ring is written from its start, whatever its rotation |
| `SnapshotWriter.AppendState` | src/snapshot.c:529-619 | writes the observable state, refused exactly when a part is too long |
| `SnapshotWriter.AppendRules` | src/snapshot.c:529-619 | writes the records of all rules, clock slots left out; succeeds exactly when every field of every record fits |
| `SnapshotWriter.Build` | src/snapshot.c:621-636 | writes exactly the file that the round trip loads; succeeds exactly when every field of every record fits |
| `SnapshotWriter.LoadRecordsInto` | src/snapshot.c:441-510 | the record loop on a live cache is the reference loader |
| `SnapshotWriter.LoadSnapshot` | src/snapshot.c:441-510 | the loader on a live cache, header included, is the reference loader |
| `SnapshotWriter.SaveAndLoad` | src/snapshot.c:441-636 | building a file and loading it into an empty cache with the same filters: written exactly when all fields fit, loaded exactly when no count ring is over the loader's limit, and then the same cache and the same slots, clocks aside and sums of time rings added up anew |
| `SnapshotWriter.HugeRingExample` | src/snapshot.c:529-619 | a program with one count ring whose file is written and then refused |

## Left out

- Sockets, libuv, TLS, nats.c, files, signals, process startup, HTTP requests and authorisation: foreign calls and plumbing.
- JSON and YAML loading, configuration options and validation messages: case by case, and mostly a library's work.
- Number formatting and parsing of floating-point text: foreign functions.
- One-slot gates (deadband, hold-off, edge, delta, count) and the arithmetic and text forms: they would only add easy members. `Evaluator` takes them as an arbitrary function.
- JetStream connecting, high-water marks and catch-up fetching: progress depends on a remote server.
- Out-of-memory exits and `size_t` overflow of frame lengths: allocation succeeds and lengths are unbounded here.
- Floating-point rounding: window, bar and aggregate arithmetic is over `real`; the snapshot codec carries bit patterns.
- The bridge callback at the end of a publish: it takes the message and returns nothing.
- The random number generator of queue groups: any stream of numbers; only that some member is chosen matters.
- The FNV-1a hash: any hash function. A capacity is a power of two, so masking is `%`.
- Delivery.Fanout.DeliverToSub: connections are named by an id instead of a pointer, and the kick and close callbacks become lists, so what a callback does to the router happens after the publish.
- Router.Router.Publish: both buckets are looked up before the first list is delivered to, which no delivery can influence; the 64-bit epoch does not wrap.
- Router.Router.Subscribe: a failed allocation after the checks is not modelled.
- Receive.Conn.ProcessRx: what an operation does to the server is reduced to whether it closes the connection.
- Throttle.TimeBound: one call site whose ms argument does not change between calls, so ticks evict by the same ms.
- Windows.WindowIsRecent: times passed to one slot are nondecreasing, which the code needs as well; so are the times in `Bars.BarsIgnoreTicks` and `Throttle.TimeBound`.
- Scheduler.Program.OnEvent: events come with nondecreasing times; that a program with a clock form has its clock timer on is not derived from its rules.
- Scheduler.Program.TickUntil: times stay below the last representable one and sums with an interval are unbounded; bodies of fired clocks are arbitrary form calls at the current time.
- Evaluator.DropoutLaw: whether a stream is lost, which ticks decide, and which values are whole milliseconds are given from outside.
- AutoUnsubscribe.LimitKept: queue members, of which a publish picks one, and connections that get shut on the way.
- Evaluator.Eval: user hooks and clock bodies stored from raw arguments are not modelled; lists start with a symbol, as the reader guarantees.
- Importer.FifoExactlyOnce: the exit of the drain loop for a failed scratch allocation is not modelled.
- SnapshotWriter.LoadSnapshot: a loader without a program, which skips rule records, is modelled for one record only (`SkipRuleAgrees`).
- Snapshot.SnapshotRoundTrip: reading and writing the file is not modelled; clock slots are not part of a snapshot.
