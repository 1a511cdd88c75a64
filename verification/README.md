# Qt parking client: verified model

This project models the parts of the Qt parking client that are hardest to get
right, and proves what they promise. The client shows fire alarms and parking
slots that a server and an MQTT broker report, edits the intrusion areas of a
WiseAI camera, shows its RTSP stream and lists evidence images.

Five groups of modules, bottom up:

* **Fire alarms.** `FireEventAdapter` decodes a message, `FireLedger` says what
  one delivery does to the revision ledgers, the fingerprints and the alarms,
  `SeenEvents` is the bounded memory of logged ids. `FireSafety` proves what
  holds over every run, honest or not; `FireConvergence` that all orders of an
  honest log end alike; `FireController` is the object with its fields.
  `FireWire` and `FireRouting` say which messages reach the ledger and as what,
  `FireAdmission` which are refused there, `FireHistory` which are logged, and
  `FireAlarms` what the user is shown and asked.
* **Camera configuration.** `Polygon`, `Sorting`, `AreaConfiguration` and
  `AreaPayload` are comparison, reader and builder; `AreaRoundTrip` connects
  them. `ConfigClient` is the client's step function, `WiseAiClientObject` the
  object, `ConfigTransaction` the client together with a camera that may lose,
  delay, alter or refuse writes. `ConfigOutcomes` says what the signals mean,
  `ConfigIntent` what they mean in terms of the call, `ConfigAnswers` what each
  answer of the camera leads to, `ConfigLimits` when a call starts and what it
  may write, `ConfigRollback` what a rollback restores, and `ConfigRuns` drives
  the object through whole runs. `AreaReading` says which documents are read.
* **Frame hand-off.** `FrameMailbox` holds one method per critical section,
  `FrameThreads` interleaves the two threads, and `FrameReports` is about
  failures, reconnection and stopping.
* **MQTT 3.1.1.** `MqttCodec`, `MqttFramer` and `MqttSession`; `MqttRuns`
  counts the signals of whole runs, `MqttGrants` is about subscriptions and
  `MqttDelivery` about messages in both directions.
* **Reconciliation.** `ParkingRoi`, `RoiSaves` and `RoiWire`, `SnapshotMerge`
  and `SnapshotTexts`, `CaptureGroups`, `TimelinePairs` and `EvidenceCache`.

`Text`, `Json`, `SlotIds` and `SlotNames` hold what these share.

Each stateful C++ class appears as a class whose methods update its fields and
whose contracts equate the new fields, and the signals appended to a log, with
a specification function of the old ones. The theorems are about these
functions, over all runs. What a function computes is fixed once more by
theorems that do not mention it: in the keys and words of the messages, in the
packets of a run, or in the calls and what the camera holds. A C++ class that
serves several components (`ParkingController`) appears once per component, with
the fields of that component.

## Findings

* A null image that is enqueued over an image not yet delivered loses that
  image: the slot keeps the null image, and nothing delivers the older one
  (rtsp_legacy/RtspVideoItem.cpp:477-486). `AtRestShowsNewest` gives the exact
  condition under which the screen shows the newest image, `NullImageLosesNewest`
  the interleaving.
* The 16-bit topic length of a PUBLISH is truncated; a topic of 65536 bytes or
  more is not read back (src/services/mqttserviceclient.cpp:50).
  `PublishRoundTrip` is exact about it, as `RemainingLengthRoundTrip` and
  `OversizedPublishAborts` are about bodies beyond the length limit.
* When a packet makes the client abort its socket, the framing loop still goes
  through the bytes it has already received
  (src/services/mqttserviceclient.cpp:227-252). A CONNACK among them marks the
  session ready on a closed socket (lines 277-300), and neither a start nor a new
  connection takes that back, so the next connection publishes before its broker
  has answered. `LateConnAckOpensNextConnection` is the run,
  `PublishWithoutConnAck` the exact condition.
* A call of the configuration client that is refused emits the same
  `applyFailed` as a change that fails (src/iva/wiseaiconfigclient.cpp:127-191
  and 201-274), also while another change is under way, and the
  settings page takes both for the failure of its change
  (src/pages/ivasettingspage.cpp:1614). `WhoseSignal` says which is which.
* A region request whose tag is already open shares its entry with the older
  one, and one of the two is never answered
  (src/controllers/parkingcontroller.cpp:1720-1723).
  `CallsAreAnsweredOnce` gives the exact condition, `ReusedGenerationLosesACall`
  two such saves, `FreshRunsNeverCollide` the way to avoid it.
* A failed write request of the configuration client is verified like a
  successful one, since the camera may have taken it
  (src/iva/wiseaiconfigclient.cpp:657-661).
* Stopping the stream does not stop its reconnect timer
  (rtsp_legacy/RtspVideoItem.cpp:200-203 and 392-401), so a stream that is
  stopped after a failure starts again by itself. `StopDoesNotDisarm` is the run,
  `QuietStaysStopped` says when a stopped stream stays stopped.
* State and appearance of a slot can disagree: a slot that is ACKED without an
  alarm, and one whose state names an alarm while its alarm text is a fire marker
  (src/models/parkingstate.cpp:53-56 and
  src/controllers/parkingcontroller.cpp:2058-2087). `StateFitsExactly` is exact.
* A slot name with a single digit never gets its dash, so `EV1` and `EV-1` are
  two slots (src/models/parkingstate.cpp:5-12); `DashIsOptional` is exact.
* The comparison that sorts capture groups is no strict weak order where a
  group without an id ties with groups of different ids
  (src/models/parkingcapturegroup.cpp:58-71); `FitForSorting` is exact.

## Reading the contracts

Strings are sequences of characters, JSON values are the datatype `Json.Value`
with numbers as reals, timestamps are optional integers. Compound string keys
of the C++ code are tuples or datatypes; where the key text itself matters
(`KeyTextIsInjective`, `TagRoundTrip`) it is modelled as text. Hash tables whose
iteration order could matter yield their entries in an order the caller of the
specification chooses. The theorems of `SnapshotMerge` are about listings whose
slot names and texts have been decoded, for every such listing; those of
`SnapshotTexts` start from the texts.

## Model

| member | source | states |
|---|---|---|
| `FireEventAdapter.ParsedEventsAreValidated` | src/adapters/serverfireeventadapter.cpp:33-199 | Every fire event the decoder hands on is valid: known channel, alarm id, the state fields of its kind, and an exact positive revision with event and delivery id; it is revisioned exactly when the message names a revision or a delivery id |
| `FireEventAdapter.ParseObject` | src/adapters/serverfireeventadapter.cpp:33-199 | Decodes a message in the source's order, field by field with early returns, to the event the other theorems speak of |
| `FireEventAdapter.ReadingIsStable` | src/adapters/serverfireeventadapter.cpp:35-63 | Writing every text of a message back as it was read changes neither the reading nor the decoded event, for any message: white space around texts, the letter case of type, kind, state and scope, and the zero of CH01 make no difference |
| `FireEventAdapter.DecideReading` | src/adapters/serverfireeventadapter.cpp:59-198 | Applies the checks in their order; each failure makes the event invalid at once |
| `FireEventAdapter.AcceptedMessages` | src/adapters/serverfireeventadapter.cpp:65-198 | Each of the three kinds of fire message is accepted exactly under its own contract, so no message passes as two kinds; anything without a fire marker is not a fire event |
| `FireWire.WireRoundTrip` | src/adapters/serverfireeventadapter.cpp:33-199 | Writing any fire event with each field under its own key and decoding it gives every field back: ids, type, kind, states, channel, scope, active and revision |
| `FireWire.CarriedIsParsed` | src/adapters/serverfireeventadapter.cpp:33-199 | The same for every message that holds the fields of an event under their keys, whatever other keys it holds |
| `FireWire.DecodedIsOnTheWire` | src/adapters/serverfireeventadapter.cpp:35-198 | Every fire event that is decoded is one that can be written, so nothing else comes out of the decoder |
| `FireWire.WireContract` | src/adapters/serverfireeventadapter.cpp:65-198 | For each channel: a message is taken as its activation, acknowledgement or clear if and only if it says so, key by key, in the literal words of the wire |
| `FireWire.ForeignMessages` | src/adapters/serverfireeventadapter.cpp:59-96 | A message is no fire event if and only if it has no fire type, names no fire and its active flag, if any, is a flag |
| `FireWire.FieldsAreIndependent` | src/adapters/serverfireeventadapter.cpp:35-63 | Each text of the decoded event depends on its own key alone: two messages that agree there give the same text, whatever else they hold |
| `FireWire.DecodedValues` | src/adapters/serverfireeventadapter.cpp:45-63 | Revision and active flag of a decoded fire event are exactly the values in the message |
| `SeenEvents.RememberKeepsValid` | src/controllers/parkingcontroller.cpp:1124-1138 | Remembering an id keeps set and queue equal, free of repetition and within the limit of 256 |
| `SeenEvents.MemoryIsWindow` | src/controllers/parkingcontroller.cpp:1124-1138 | After any sequence of ids the queue is the window of the last 256 accepted ones |
| `SeenEvents.RefusedIffInWindow` | src/controllers/parkingcontroller.cpp:1124-1138 | A nonempty id is refused exactly when it is among the last 256 accepted ones |
| `FireLedger.OtherChannelsAreUntouched` | src/controllers/parkingcontroller.cpp:526-770 | A delivery changes alarm, presence and ledger of its own channel only |
| `FireLedger.DeliverShows` | src/controllers/parkingcontroller.cpp:636-770 | A delivery changes the shown alarms exactly when its verdict says so and, for legacy messages, the alarm id fits; otherwise they stay as they are |
| `FireSafety.RunKeepsBook` | src/controllers/parkingcontroller.cpp:526-634 | Over any run ledgers and fingerprints are only extended, and every ledger knows the event of the revision it last applied |
| `FireSafety.AppliedRevisionsIncrease` | src/controllers/parkingcontroller.cpp:576-633 | The revisions of a channel that change the shown state strictly increase, over any run, and lie between the starting and the final ledger |
| `FireSafety.RefusedAndStaleChangeNothing` | src/controllers/parkingcontroller.cpp:576-579 | A refused or stale delivery leaves the whole state as it was; only a refusal is reported |
| `FireSafety.RevisionlessIsRefusedForever` | src/controllers/parkingcontroller.cpp:533-539 | Once a channel has a ledger, messages without a revision are refused after every further run |
| `FireSafety.RedeliveryIsNoOp` | src/controllers/parkingcontroller.cpp:557-612 | Delivering an accepted revisioned message again, after any further run, changes nothing, and is not reported either unless it was already stale the first time |
| `FireSafety.ContradictionsAreRefused` | src/controllers/parkingcontroller.cpp:557-595 | After an accepted, not stale message, another payload under its delivery key or its event id is refused after every further run |
| `FireSafety.HistoryAtMostOnce` | src/controllers/parkingcontroller.cpp:605-632 | In any run the history of one channel and revision is logged at most once, counted over the logging effects of the run |
| `FireSafety.StateOnlyNeverAsksForHistory` | src/controllers/parkingcontroller.cpp:120-123 | A delivery that only carries state never asks for history and logs none |
| `FireSafety.RunKeepsAlarmsSound` | src/controllers/parkingcontroller.cpp:658-758 | Over any mix of valid legacy and revisioned messages the channels on fire are the keys of the alarms, each alarm is active with an id, and acknowledged agrees with the state ACKNOWLEDGED |
| `FireSafety.AcknowledgementPersists` | src/controllers/parkingcontroller.cpp:682-688 | In a run of legacy messages an acknowledged alarm stays as it is until its own clear or the activation of another alarm id |
| `FireAdmission.RefusedExactly` | src/controllers/parkingcontroller.cpp:526-634 | Over any run, whatever the senders do, a revisioned message is answered with an error if and only if it clashes with one taken before: the same delivery with another payload or channel, the same event id with another revision or content, or the newest revision with another content or, on its sink, another delivery id |
| `FireAdmission.LegacyTakenExactly` | src/controllers/parkingcontroller.cpp:533-730 | Over any run a message without a revision is taken if and only if no revisioned one was taken on its channel and it fits the alarm shown there |
| `FireHistory.LoggedExactly` | src/controllers/parkingcontroller.cpp:605-632 | Over any run, whatever the senders do, a revisioned message is logged, once and with its id, channel and action, if and only if it is taken as an event, nothing newer and no event of its revision was taken before, and its id is not among the last 256 logged ones |
| `FireHistory.LegacyLoggedExactly` | src/controllers/parkingcontroller.cpp:772-809 | A message without a revision is logged, once, if and only if it is taken as an event and its id is not among the last 256 logged ones |
| `FireHistory.HonestHistory` | src/controllers/parkingcontroller.cpp:605-632 | In a consistent log a revision has exactly one history entry if its first event comes before any newer revision and with an id that is not recent, and none otherwise |
| `FireHistory.MemoryIsWhatWasLogged` | src/controllers/parkingcontroller.cpp:1124-1138 | Over any run the remembered ids are the last 256 of those logged |
| `FireHistory.NewestTakenIsShown` | src/controllers/parkingcontroller.cpp:526-770 | Over any run, whatever the senders do, a channel shows what the taken message with its highest revision says |
| `FireAlarms.LegacyRunFollowsMarks` | src/controllers/parkingcontroller.cpp:658-758 | Over any run without revisions on a channel its alarm moves as a machine of three marks: an activation opens, an acknowledgement or a clear counts only for the alarm shown, and only a retained acknowledgement raises an unseen one |
| `FireAlarms.DialogAsksForWaiting` | src/controllers/parkingcontroller.cpp:658-758 | Over any run of valid messages the confirmation dialog of a channel asks about an alarm exactly while that alarm is shown and not acknowledged |
| `FireAlarms.ChangesAreAnnounced` | src/controllers/parkingcontroller.cpp:658-758 | A change of the state is announced if and only if the alarms have changed |
| `FireAlarms.CommandsEndWithAlarms` | src/controllers/parkingcontroller.cpp:658-758 | A pending acknowledgement command is dropped if and only if its alarm is acknowledged, cleared or replaced |
| `FireConvergence.Converges` | src/controllers/parkingcontroller.cpp:526-770 | From a consistent log, in any order and with any duplication over all sinks, a channel's entry ends as if only its highest revision had been delivered |
| `FireConvergence.ClientsAgree` | src/controllers/parkingcontroller.cpp:526-770 | Two clients that received the same revisioned messages show the same, whatever the order, the repetitions and the alarms they started from |
| `FireConvergence.HonestRunsAreAccepted` | src/controllers/parkingcontroller.cpp:557-595 | In a consistent log no revisioned message is ever refused, at any point of the run |
| `FireController.ParkingController.RememberServerEventId` | src/controllers/parkingcontroller.cpp:1124-1138 | Updates set and queue in place as the window memory prescribes and answers whether the id is new |
| `FireController.ParkingController.PreflightFireEvent` | src/controllers/parkingcontroller.cpp:526-634 | Admits one delivery: new ledgers, new fingerprints and verdict are those the run theorems speak of |
| `FireController.ParkingController.RecordChannelFireEvent` | src/controllers/parkingcontroller.cpp:772-809 | Logs the event once, under its id or a composed one |
| `FireController.ParkingController.ApplyChannelFireEvent` | src/controllers/parkingcontroller.cpp:636-770 | One delivery, from admission to alarm, confirmation dialog and event log: whole new state and all effects in order |
| `FireController.ParkingController.HandleMqttMessage` | src/controllers/parkingcontroller.cpp:443-515 | One broker message: decoding, the topic rules, then delivery |
| `FireController.RoutedEventsAreValidated` | src/controllers/parkingcontroller.cpp:466-507 | What reaches the ledger is valid and came in on a topic of its own channel |
| `FireRouting.SentIsDelivered` | src/controllers/parkingcontroller.cpp:443-515 | A message that carries an event, on either fire topic of its channel, reaches the ledger as that event |
| `FireRouting.OnlySentIsDelivered` | src/controllers/parkingcontroller.cpp:443-515 | Any other message changes nothing: what reaches the ledger is the fire event in it, on a topic that starts like a fire topic and ends in the event's channel, and everything else is reported or ignored |
| `FireRouting.AnotherChannelIsRefused` | src/controllers/parkingcontroller.cpp:466-507 | An event on a fire topic of another channel changes nothing and is reported for its own channel |
| `FireRouting.TopicNumber` | src/controllers/parkingcontroller.cpp:466-507 | A topic that ends in CH and any digits belongs to the channel of that number if it is 1 to 4, and to none otherwise |
| `FireController.EveryInboxIsSafe` | src/controllers/parkingcontroller.cpp:443-770 | Whatever messages the broker sends, the alarms stay sound, the ledgers well kept and the event memory well formed |
| `FireController.KeyTextIsInjective` | src/controllers/parkingcontroller.cpp:551-553 | The textual delivery key fixes sink, delivery id and revision even when the delivery id contains the separator |
| `FrameMailbox.RtspVideoItem.QueueDecodedFrame` | rtsp_legacy/RtspVideoItem.cpp:471-492 | Overwrites the slot, sets the flag and asks for a delivery exactly when the flag was clear |
| `FrameMailbox.RtspVideoItem.TakePendingFrame` | rtsp_legacy/RtspVideoItem.cpp:274-286 | Empties the slot and hands out what was in it |
| `FrameMailbox.RtspVideoItem.HandleDecodedFrame` | rtsp_legacy/RtspVideoItem.cpp:205-243 | Shows image and both clocks together and clears the error |
| `FrameMailbox.RtspVideoItem.RecheckPendingFrame` | rtsp_legacy/RtspVideoItem.cpp:298-304 | Asks for another delivery exactly when an image waits and the flag is clear |
| `FrameMailbox.RtspVideoItem.BeginStart` | rtsp_legacy/RtspVideoItem.cpp:354-369 | A new generation with empty screen and slot |
| `FrameMailbox.RtspVideoItem.SetSource` | rtsp_legacy/RtspVideoItem.cpp:87-105 | A different source empties screen and slot; the same one changes nothing |
| `FrameMailbox.RtspVideoItem.HandleReport` | rtsp_legacy/RtspVideoItem.cpp:310-346 | A status, error or failure report takes effect only for the current generation (and source) |
| `FrameThreads.EveryInterleaving` | rtsp_legacy/RtspVideoItem.cpp:205-492 | In every interleaving the flag counts the delivery tokens, a waiting image is under way or about to be looked at, every shown or waiting frame is a whole enqueue, and the newest image is accounted for |
| `FrameThreads.AtRestShowsNewest` | rtsp_legacy/RtspVideoItem.cpp:267-308 | With no delivery under way nothing waits in the slot, and the screen shows the newest image of the current generation if and only if no null image was put over an undelivered one |
| `FrameThreads.RealImagesAreNotLost` | rtsp_legacy/RtspVideoItem.cpp:477-485 | When the worker only hands over non-null images none is lost, so no wake-up is |
| `FrameThreads.NullImageLosesNewest` | rtsp_legacy/RtspVideoItem.cpp:477-486 | A concrete interleaving at rest whose newest non-null image is not shown, because a null image replaced it |
| `FrameThreads.ScreenShowsCurrentGeneration` | rtsp_legacy/RtspVideoItem.cpp:288-295 | The screen is empty or shows one enqueue of the current generation, its image and its two clocks together |
| `FrameThreads.SupersededReportsAreDropped` | rtsp_legacy/RtspVideoItem.cpp:310-335 | Once a generation is superseded none of its reports changes anything or arms the timer, however late it is handled |
| `FrameThreads.ReconnectIsCurrent` | rtsp_legacy/RtspVideoItem.cpp:68-72 | The reconnect timer that fires was armed by the current generation and its source |
| `FrameThreads.OldWorkerNeverShows` | rtsp_legacy/RtspVideoItem.cpp:354-371 | While the old worker is waited for the screen stays empty, although that worker may still enqueue |
| `FrameThreads.GenerationsNeverReturn` | rtsp_legacy/RtspVideoItem.cpp:356-356 | A generation number never comes back |
| `FrameReports.FailureReport` | rtsp_legacy/RtspVideoItem.cpp:310-335 | A failure report takes effect if and only if it is of the current generation and source: then the failure is shown and the reconnect timer runs for that source; otherwise nothing changes |
| `FrameReports.StatusReport` | rtsp_legacy/RtspVideoItem.cpp:310-346 | A status report is shown if and only if it is of the current generation, and playing clears the error |
| `FrameReports.ErrorReport` | rtsp_legacy/RtspVideoItem.cpp:310-346 | An error report is shown if and only if it is of the current generation |
| `FrameReports.TimerRunsExactly` | rtsp_legacy/RtspVideoItem.cpp:310-350 | In every interleaving the reconnect timer runs if and only if a failure of the then current generation and source was handled and nothing has been started since |
| `FrameReports.TimerRestartsStream` | rtsp_legacy/RtspVideoItem.cpp:68-72 | When it fires a new worker runs for the same source under a new generation, with empty screen and error |
| `FrameReports.ShownIsOneFrame` | rtsp_legacy/RtspVideoItem.cpp:205-243 | A shown picture is one decoded frame of the current generation with that frame's own two clocks |
| `FrameReports.FrameIsShown` | rtsp_legacy/RtspVideoItem.cpp:205-243 | Handling a frame shows it, as playing, if and only if it is a real image of the current generation |
| `FrameReports.NewSourceStarts` | rtsp_legacy/RtspVideoItem.cpp:87-105 | Another source empties screen and slot, clears the error and starts a worker for itself |
| `FrameReports.QuietStaysStopped` | rtsp_legacy/RtspVideoItem.cpp:200-203 | A stopped stream stays stopped in every interleaving, until the user starts it, if no timer runs and no current failure report waits |
| `FrameReports.StopDoesNotDisarm` | rtsp_legacy/RtspVideoItem.cpp:200-203 | Stopping while the reconnect timer runs does not stop the stream: the timer starts a new worker |
| `MqttCodec.EncodeRemainingLength` | src/services/mqttserviceclient.cpp:14-24 | The loop produces the base-128 form of the length |
| `MqttCodec.DecodeRemainingLength` | src/services/mqttserviceclient.cpp:28-45 | The loop answers value and size of the length field, or -1 exactly when there is none within four bytes |
| `MqttCodec.RemainingLengthRoundTrip` | src/services/mqttserviceclient.cpp:14-45 | Decoding an encoded length with any suffix gives it back with its exact size if and only if it is at most 268435455, as section 2.2.3 of MQTT 3.1.1 allows |
| `MqttCodec.DecodedLengthIsBounded` | src/services/mqttserviceclient.cpp:33-43 | A decoded length takes between one and four bytes of the input |
| `MqttCodec.BuildPublishPacket` | src/services/mqttserviceclient.cpp:105-118 | Builds the PUBLISH bytes of section 3.3 of MQTT 3.1.1 |
| `MqttCodec.PublishRoundTrip` | src/services/mqttserviceclient.cpp:368-389 | Parsing the body of a built PUBLISH gives topic, payload, QoS 1, no retain flag and packet id back if and only if the topic is shorter than 65536 bytes |
| `MqttFramer.Framer.OnReadyRead` | src/services/mqttserviceclient.cpp:223-253 | One read: appends, then cuts every complete packet; packets, leftover and abort decision are those of the whole buffer; the loop ends because the buffer shrinks |
| `MqttFramer.CutInTwo` | src/services/mqttserviceclient.cpp:223-253 | Reading some bytes and then more is reading them at once |
| `MqttFramer.ChunkIndependence` | src/services/mqttserviceclient.cpp:223-253 | However a stream is split into reads, packets, leftover and abort decision are those of one read of the whole stream |
| `MqttFramer.WireIsCutBack` | src/services/mqttserviceclient.cpp:241-250 | A stream of packets is cut into exactly those packets, whatever follows |
| `MqttFramer.AbortMeansMalformed` | src/services/mqttserviceclient.cpp:232-237 | A buffer is malformed exactly when four continuation bytes follow the header and a further byte has arrived |
| `MqttFramer.AbortIsAboutTheRest` | src/services/mqttserviceclient.cpp:232-238 | The stream is given up exactly when what is left after all complete packets is malformed |
| `MqttFramer.PublishSurvivesTheWire` | src/services/mqttserviceclient.cpp:105-118 | Framing and parsing a built PUBLISH recovers everything if and only if the topic fits its length field, for every body within the length limit |
| `MqttFramer.OversizedPublishAborts` | src/services/mqttserviceclient.cpp:115-115 | A PUBLISH beyond the length limit is given up by such a framer, and no packet comes out |
| `MqttRuns.RunIdsDiffer` | src/services/mqttserviceclient.cpp:407-463 | Of the ids that the packets of a run carry none is 0, and two of them agree exactly when they are a multiple of 65535 allocations apart |
| `MqttSession.MqttServiceClient.AllocateId` | src/services/mqttserviceclient.cpp:462-463 | Hands out the next id and skips 0 |
| `MqttSession.MqttServiceClient.OnSocketDisconnected` | src/services/mqttserviceclient.cpp:198-214 | Empties the session and fails every pending publish |
| `MqttSession.MqttServiceClient.SubscribeToAll` | src/services/mqttserviceclient.cpp:398-420 | Requests every nonblank topic under a new id, in order, and announces when there is none |
| `MqttSession.MqttServiceClient.HandleConnAck` | src/services/mqttserviceclient.cpp:277-300 | Opens the session and subscribes, or gives the connection up |
| `MqttSession.MqttServiceClient.HandlePubAck` | src/services/mqttserviceclient.cpp:302-313 | Confirms exactly the pending publish with that id |
| `MqttSession.MqttServiceClient.HandleSubAck` | src/services/mqttserviceclient.cpp:315-366 | Grants or refuses exactly the pending subscription with that id; a refusal or a malformed answer gives the connection up |
| `MqttSession.MqttServiceClient.HandlePublish` | src/services/mqttserviceclient.cpp:368-396 | Delivers a complete message, acknowledging QoS 1 first; a body that is cut short delivers nothing |
| `MqttSession.MqttServiceClient.HandlePacket` | src/services/mqttserviceclient.cpp:255-275 | Dispatches a packet on its type and ignores other types |
| `MqttSession.MqttServiceClient.PublishMessage` | src/services/mqttserviceclient.cpp:447-471 | Registers a publish under a new id, unless topic or session forbid it or the socket refuses |
| `MqttSession.EveryRun` | src/services/mqttserviceclient.cpp:198-471 | Over any run of socket, broker and caller events: ids are in step with their allocation, requested topics are split between pending, granted and refused, and every pending publish has the id of its birth |
| `MqttRuns.PublishAccounting` | src/services/mqttserviceclient.cpp:198-471 | Over any run the publishes that returned true = the confirmation signals emitted + the topics in the drop signals emitted + those pending + those forgotten through reuse of an id |
| `MqttRuns.FalseMeansReported` | src/services/mqttserviceclient.cpp:447-471 | Over any run each publish that returned false was reported as failed exactly once, and no other was |
| `MqttRuns.ReadyIsOpened` | src/services/mqttserviceclient.cpp:198-300 | The session counts as ready exactly when a CONNACK was accepted since it was last closed, on an open socket or not |
| `MqttRuns.PublishWithoutConnAck` | src/services/mqttserviceclient.cpp:450-456 | A publish is taken without a CONNACK accepted on an open socket of this session if and only if the socket is open and one was accepted while it was not |
| `MqttRuns.LateConnAckOpensNextConnection` | src/services/mqttserviceclient.cpp:223-300 | A concrete run in which a CONNACK behind a malformed SUBACK makes the next connection publish before its broker has answered |
| `MqttSession.ReuseNeedsFullCycle` | src/services/mqttserviceclient.cpp:462-464 | An id can only be reused while pending after at least 65535 further allocations |
| `MqttSession.SubscriptionsNeverExceed` | src/services/mqttserviceclient.cpp:315-420 | Active, pending and refused subscriptions together never exceed the expected ones |
| `MqttSession.ReadyMeansAllGranted` | src/services/mqttserviceclient.cpp:357-365 | Ready is announced only when every requested topic of the session was granted, and never after a refusal in it |
| `MqttGrants.AnswerDecides` | src/services/mqttserviceclient.cpp:315-366 | An answer to a pending request announces its topic as subscribed if and only if its code is 0, 1 or 2; any other code rejects it and drops the connection |
| `MqttGrants.OtherSubAcks` | src/services/mqttserviceclient.cpp:315-335 | Any other SUBACK changes no subscription: an unknown id is reported, a malformed one drops the connection |
| `MqttGrants.ReadyMeansGranted` | src/services/mqttserviceclient.cpp:277-366 | From the packets of any run: ready is announced only when every request sent with the last accepted CONNACK has been answered, since then, by a SUBACK with its id and a code of 0, 1 or 2; these requests are all the wanted topics, and there is one |
| `MqttGrants.ConnAckAsks` | src/services/mqttserviceclient.cpp:398-420 | An accepted CONNACK asks for exactly the nonblank topics, trimmed and in order |
| `MqttGrants.GenerousBrokerMakesReady` | src/services/mqttserviceclient.cpp:277-366 | A broker that accepts the connection and grants every request, each once and in any order, makes the client ready with the last grant and not before |
| `MqttDelivery.MessageIsDelivered` | src/services/mqttserviceclient.cpp:368-396 | Whatever its duplicate, quality and retain flags, a message is handed on with its own topic, payload and retain flag, and acknowledged first, under its id, if and only if its quality is 1 |
| `MqttDelivery.CutMessageIsDropped` | src/services/mqttserviceclient.cpp:368-386 | A PUBLISH that ends before its payload begins delivers and acknowledges nothing |
| `MqttDelivery.PublishIsTakenExactly` | src/services/mqttserviceclient.cpp:447-471 | A publish is taken if and only if its topic names something without wildcards, the session is ready on an open socket and the socket takes the packet; it then waits under its id, and otherwise is reported as failed |
| `MqttDelivery.PubAckConfirms` | src/services/mqttserviceclient.cpp:302-313 | A PUBACK confirms exactly the publish that waits under its id |
| `MqttDelivery.RefusedConnAckDrops` | src/services/mqttserviceclient.cpp:277-288 | A CONNACK that refuses or is cut short drops the connection and asks for nothing |
| `MqttDelivery.OtherPacketsAreIgnored` | src/services/mqttserviceclient.cpp:255-275 | Packets of any other type do nothing |
| `Polygon.WrapIsModulo` | src/iva/ivaareaupdatebuilder.cpp:96-99 | The wrapped index is the remainder the loops compute |
| `Polygon.PolygonMatches` | src/iva/ivaareaupdatebuilder.cpp:61-113 | True exactly when the list is nonempty, equally long, all points are points, and some rotation or reversed rotation aligns every vertex within one unit per coordinate |
| `Polygon.MatchesIsSymmetric` | src/iva/ivaareaupdatebuilder.cpp:90-104 | The comparison is symmetric |
| `Polygon.MatchesIsReflexive` | src/iva/ivaareaupdatebuilder.cpp:72-73 | A polygon matches itself exactly when it is nonempty |
| `Polygon.ActualMayMove` | src/iva/ivaareaupdatebuilder.cpp:90-104 | Rotating or reversing the returned polygon never changes the verdict |
| `Polygon.ExpectedMayMove` | src/iva/ivaareaupdatebuilder.cpp:90-104 | Rotating or reversing the expected polygon never changes the verdict |
| `Polygon.FarVertexFails` | src/iva/ivaareaupdatebuilder.cpp:90-104 | A returned vertex that is more than one unit away from every expected one makes the comparison fail, whatever the others are |
| `Polygon.NearbyMatches` | src/iva/ivaareaupdatebuilder.cpp:90-104 | Vertices in the same order, each within one unit in both coordinates, match |
| `Sorting.SameSortedForm` | src/iva/ivaareaupdatebuilder.cpp:50-59 | Two lists have the same sorted form exactly when they hold the same texts equally often |
| `AreaConfiguration.Parse` | src/iva/ivaareaparser.cpp:145-313 | The nested loops read a document exactly as the record-by-record specification does, and fail at the first malformed element |
| `AreaConfiguration.AppendDefinitions` | src/iva/ivaareaparser.cpp:207-306 | The inner loop appends exactly the definitions of one container, or fails with the first malformed one |
| `AreaConfiguration.ReadDefinition` | src/iva/ivaareaparser.cpp:210-305 | One definition is read exactly when name, index, lists, polygon and durations are well formed |
| `AreaConfiguration.ReadStrings` | src/iva/ivaareaparser.cpp:57-85 | The loop gives the trimmed texts, or fails at the first item that is no nonempty text |
| `AreaConfiguration.ReadCoordinates` | src/iva/ivaareaparser.cpp:108-142 | The loop gives at least three vertices, or fails at the first item that is no numeric point |
| `AreaConfiguration.DefinitionsInOrder` | src/iva/ivaareaparser.cpp:207-305 | The areas read from a container are its definitions, one for one, with its channel |
| `AreaReading.DefinitionIsReadExactly` | src/iva/ivaareaparser.cpp:28-142 | A definition is read as an area if and only if it says all of it, key by key, with the keys of older firmware as second choice |
| `AreaReading.DocumentIsReadExactly` | src/iva/ivaareaparser.cpp:145-313 | A document is read as a configuration if and only if it says all of it: every container and every definition is well formed, in that order, and nothing else is read |
| `AreaRoundTrip.OldDefinitionRead` | src/iva/ivaareaparser.cpp:28-142 | A definition with the keys of older firmware, its index a number or a text, is read as the same rule |
| `AreaPayload.AcceptArea` | src/iva/ivaareaupdatebuilder.cpp:201-284 | An edited area is accepted exactly under the channel's rules, and then becomes its definition |
| `AreaPayload.BuildChannelPayload` | src/iva/ivaareaupdatebuilder.cpp:186-289 | A payload is built exactly when every area is acceptable, of this channel and no index occurs twice |
| `ConfigLimits.AcceptedExactly` | src/iva/ivaareaupdatebuilder.cpp:201-284 | An area is accepted if and only if it is of the channel and its written definition respects every limit the camera offers, none of them negative |
| `ConfigLimits.WrittenIsStored` | src/iva/ivaareaupdatebuilder.cpp:186-289 | A written definition says its rule, key by key, and keeps the handover index it came with |
| `ConfigLimits.WrittenPayloadIsStored` | src/iva/ivaareaupdatebuilder.cpp:186-289 | A payload put in the place of the channel's container stores the channel, whatever the other containers hold |
| `AreaPayload.CompareArea` | src/iva/ivaareaupdatebuilder.cpp:115-183 | Accepts exactly equal index, name and durations, the same modes and filters in any order, and matching polygons |
| `AreaPayload.PayloadMatchesChannel` | src/iva/ivaareaupdatebuilder.cpp:291-373 | Accepts exactly when the channel exists with the same enable flag, both sides have distinct indexes, equally many areas, and every expected area has a matching one |
| `AreaRoundTrip.DefinitionMatches` | src/iva/ivaareaupdatebuilder.cpp:115-183 | A written definition accepts exactly the records of the same rule |
| `AreaRoundTrip.MatchMeansSameChannel` | src/iva/ivaareaupdatebuilder.cpp:291-373 | A written payload matches a configuration if and only if that channel holds the same areas, index for index in both directions, nothing missing and nothing extra, with equal multisets of modes and filters and equal durations |
| `AreaRoundTrip.NothingElse` | src/iva/ivaareaupdatebuilder.cpp:344-369 | Equally many areas with distinct indexes and each expected one found: so every returned area was expected |
| `AreaRoundTrip.StoredDefinitionRead` | src/iva/ivaareaparser.cpp:28-305 | An accepted rule is read back from where it is stored, whatever the order of its lists, the drawing of its polygon and further keys |
| `AreaRoundTrip.ChannelRead` | src/iva/ivaareaparser.cpp:164-309 | A channel is read from its own container alone |
| `AreaRoundTrip.WrittenChannelIsVerified` | src/iva/ivaareaupdatebuilder.cpp:186-373 | Build, store, read back, compare: with areas reordered, lists permuted, polygons rotated, reversed or moved by up to one unit, other containers and further keys arbitrary, the verification succeeds |
| `WiseAiClientObject.WiseAiConfigClient.FetchFromCamera` | src/iva/wiseaiconfigclient.cpp:108-120 | Starts reading options, unless busy or not configured |
| `WiseAiClientObject.WiseAiConfigClient.ApplyChannelConfiguration` | src/iva/wiseaiconfigclient.cpp:122-197 | Refuses, or fixes baseline, intended and rollback payload and starts the preflight read |
| `WiseAiClientObject.WiseAiConfigClient.DeleteArea` | src/iva/wiseaiconfigclient.cpp:199-283 | The same for the areas without one index, which must be there |
| `WiseAiClientObject.WiseAiConfigClient.SplitAreas` | src/iva/wiseaiconfigclient.cpp:234-247 | One pass gives the channel's areas, those without the index, and whether it was there |
| `WiseAiClientObject.WiseAiConfigClient.Schedule` | src/iva/wiseaiconfigclient.cpp:371-380 | Counts the attempt and starts the pause |
| `WiseAiClientObject.WiseAiConfigClient.OnTimeout` | src/iva/wiseaiconfigclient.cpp:84-88 | The pause ends in a read of the same kind |
| `WiseAiClientObject.WiseAiConfigClient.OnFinished` | src/iva/wiseaiconfigclient.cpp:465-502 | A finished request is freed and then handled as success or failure |
| `WiseAiClientObject.WiseAiConfigClient.OnSuccess` | src/iva/wiseaiconfigclient.cpp:504-646 | What each kind of answer leads to: next fetch, verification, write, rollback or a signal |
| `WiseAiClientObject.WiseAiConfigClient.OnFailure` | src/iva/wiseaiconfigclient.cpp:648-685 | A failed write is still verified, any other failure ends the change or the fetch |
| `WiseAiClientObject.WiseAiConfigClient.FinishApplyFailure` | src/iva/wiseaiconfigclient.cpp:687-693 | Clears the pending update and reports the failure |
| `ConfigTransaction.EveryRunIsSound` | src/iva/wiseaiconfigclient.cpp:84-693 | In every run of calls, pauses, answers, failures and arbitrary effects of writes: at most one of reply and timer is awaited, the client pursues exactly the goal of the call, and requests and writes fit the phase |
| `ConfigTransaction.ReadStep` | src/iva/wiseaiconfigclient.cpp:565-575 | Options and capability of the channel never disappear during a change |
| `ConfigOutcomes.SuccessMeansIntended` | src/iva/wiseaiconfigclient.cpp:601-612 | Whenever success is announced the camera holds exactly the channel the call asked for |
| `ConfigIntent.AppliedMeansAsked` | src/iva/wiseaiconfigclient.cpp:122-197 | Over every run, when an apply call succeeds the camera holds that call's channel, its flag, one record of each of its areas, and no others |
| `ConfigIntent.DeletedMeansRemaining` | src/iva/wiseaiconfigclient.cpp:199-283 | Over every run, when a delete call succeeds the channel holds exactly the areas the client had last read for it whose index is another one, and its flag is as it was read |
| `ConfigIntent.ObedientCameraSucceeds` | src/iva/wiseaiconfigclient.cpp:234-283 | A camera that removes just the definition asked for from the document that was read makes the next verification succeed |
| `ConfigLimits.ApplyStartsExactly` | src/iva/wiseaiconfigclient.cpp:122-197 | An apply call starts a change if and only if nothing is under way, the channel was read, the areas asked for and those read can both be written within the reported limits, and they are written differently |
| `ConfigLimits.DeleteStartsExactly` | src/iva/wiseaiconfigclient.cpp:199-283 | A delete call starts a change if and only if nothing is under way, the channel was read with an area of that index, and the areas read can be written back |
| `ConfigLimits.WritesStayWithin` | src/iva/wiseaiconfigclient.cpp:591-618 | In every run each payload written stays within the limits the camera has reported for the channel, with different indexes |
| `ConfigAnswers.PreflightAnswer` | src/iva/wiseaiconfigclient.cpp:577-599 | The write is sent if and only if the preflight read shows the channel as the client last read it; otherwise the change fails |
| `ConfigAnswers.WriteAnswer` | src/iva/wiseaiconfigclient.cpp:536-545 | A write is verified after a pause, even when its request failed |
| `ConfigAnswers.WriteAwaitsRead` | src/iva/wiseaiconfigclient.cpp:536-545 | After the answer to a write the first of its reads is due, two requests have been sent, and the goal is that of the call |
| `ConfigAnswers.RollbackAnswer` | src/iva/wiseaiconfigclient.cpp:546-550 | A rollback is verified after a pause if its request succeeds, and otherwise given up |
| `ConfigAnswers.VerificationAnswer` | src/iva/wiseaiconfigclient.cpp:601-620 | A change succeeds if and only if a read shows what was asked for; an unreadable answer ends it, and the third read that shows something else sends the rollback |
| `ConfigAnswers.FailedRead` | src/iva/wiseaiconfigclient.cpp:648-685 | A preflight or verifying read that fails ends the change at once |
| `ConfigAnswers.RestorationAnswer` | src/iva/wiseaiconfigclient.cpp:622-645 | A rollback counts if and only if a read shows what the client had last read; the third read that shows something else gives up |
| `ConfigAnswers.LateWriteIsFound` | src/iva/wiseaiconfigclient.cpp:601-621 | A write the camera takes late, by the third read, ends in success |
| `ConfigAnswers.LostWriteIsRolledBack` | src/iva/wiseaiconfigclient.cpp:601-621 | A write that three readable answers do not show is rolled back to what the client had last read |
| `ConfigAnswers.FetchReadsAll` | src/iva/wiseaiconfigclient.cpp:504-564 | A fetch asks for options, capabilities and configuration in turn, and the client then holds all three |
| `ConfigOutcomes.RollbackMeansRestored` | src/iva/wiseaiconfigclient.cpp:622-636 | Whenever a failure claims a successful rollback the camera holds exactly what was last read before the change |
| `ConfigOutcomes.PreflightFailureWroteNothing` | src/iva/wiseaiconfigclient.cpp:577-590 | A change that fails at the preflight read has written nothing: the camera is as it was at the call |
| `ConfigOutcomes.WritesAreGuarded` | src/iva/wiseaiconfigclient.cpp:591-618 | The first write is sent only in answer to a preflight read equal to the nonempty baseline; it is the intended payload or the deletion asked for, and a second write is the rollback payload |
| `ConfigRollback.RollbackIsLastGood` | src/iva/wiseaiconfigclient.cpp:167-184 | Over every run the rollback payload of a call matches the configuration that the client had read |
| `ConfigRollback.RollbackRestoresStart` | src/iva/wiseaiconfigclient.cpp:577-636 | Whenever a failure claims a successful rollback, the camera held the baseline when the change was asked for, and holds the flag and the areas of that container again, given that the areas last read are those the container lists |
| `ConfigRollback.OneContainerIsBaseline` | src/iva/wiseaiconfigclient.cpp:141-184 | The areas to restore are those the baseline container lists wherever the document read had one container of the channel |
| `ConfigOutcomes.HonestCameraSucceeds` | src/iva/wiseaiconfigclient.cpp:601-612 | When the camera holds what was written, in any order and drawing, a verification that is answered announces success |
| `ConfigOutcomes.AtMostNineRequests` | src/iva/wiseaiconfigclient.cpp:371-380 | A change sends at most nine requests, at most two of them writes |
| `ConfigOutcomes.OneSignalPerCall` | src/iva/wiseaiconfigclient.cpp:122-283 | Over every run apply and delete calls = final signals emitted + one if a change is under way, the immediate failures of refused calls included |
| `ConfigOutcomes.WhoseSignal` | src/iva/wiseaiconfigclient.cpp:122-693 | A final signal belongs to the change under way, and ends it under its channel, exactly when it comes with an answer; any other one is the immediate failure of a call and leaves client, camera and change as they were |
| `ConfigTransaction.TurnedDownChangesNothing` | src/iva/wiseaiconfigclient.cpp:127-131 | A call that cannot start fails at once with a failure signal, and nothing else happens |
| `ConfigOutcomes.NeverStuck` | src/iva/wiseaiconfigclient.cpp:371-380 | A change under way always awaits an answer or a pause |
| `ConfigOutcomes.RankFalls` | src/iva/wiseaiconfigclient.cpp:371-380 | A measure of phase, attempts and pause falls with every answer and every pause, and nothing raises it |
| `ConfigOutcomes.EveryChangeEnds` | src/iva/wiseaiconfigclient.cpp:371-380 | Whatever else happens, at most fifteen answers and pauses end every change |
| `ConfigRuns.Handle` | src/iva/wiseaiconfigclient.cpp:84-693 | One call or callback on the object: its fields and signals are those of the step of the run, whatever the event |
| `ConfigRuns.Drive` | src/iva/wiseaiconfigclient.cpp:84-693 | A new object driven through any run of calls and callbacks is sound at its end, and the signals it has emitted hold one success or failure for each call but the one under way |
| `ParkingRoi.TagRoundTrip` | src/controllers/parkingcontroller.cpp:43-50 | Splitting a tag gives kind, generation, zone and flag back |
| `ParkingRoi.ZonesHoldNoSeparator` | src/controllers/parkingcontroller.cpp:35-41 | A valid zone id never contains the tag separator |
| `ParkingRoi.RoiRoundTrip` | src/api/parkingroi.cpp:137-160 | A valid region that is sent is read back as itself |
| `ParkingRoi.ParkingController.RequestParkingRois` | src/controllers/parkingcontroller.cpp:1648-1659 | Opens a list request or fails at once |
| `ParkingRoi.ParkingController.RequestParkingRoi` | src/controllers/parkingcontroller.cpp:1661-1688 | Opens a read of one zone or fails at once |
| `ParkingRoi.ParkingController.UpdateParkingRoi` | src/controllers/parkingcontroller.cpp:1690-1726 | Opens a save with its expected region or fails at once |
| `ParkingRoi.ParkingController.ApplyParkingRoiResponse` | src/controllers/parkingcontroller.cpp:1728-1826 | Takes the tag off the tables and answers, fails, or opens the confirming read |
| `ParkingRoi.ParkingController.ApplyParkingRoiError` | src/controllers/parkingcontroller.cpp:1828-1842 | Takes the tag off the tables and reports the failure |
| `ParkingRoi.ParkingController.RebuildApiClient` | src/controllers/parkingcontroller.cpp:1435-1441 | Fails every open tag in table order and empties the tables |
| `RoiSaves.EveryRunIsSound` | src/controllers/parkingcontroller.cpp:1648-1842 | Over any run, whatever tags replies carry: expected values are kept only for open tags, and exactly for the saving ones, and open tags are ones the controller made |
| `RoiSaves.EveryCallIsAccounted` | src/controllers/parkingcontroller.cpp:1648-1842 | Over any run, altogether and for each generation: calls = answers carrying it + open tags of it + collisions, the steps that open a tag that is already open |
| `RoiSaves.CallsAreAnsweredOnce` | src/controllers/parkingcontroller.cpp:1648-1842 | The calls of a generation (and all calls) are answered once each or still open if and only if no step opened an open tag: no call whose own tag is open, and no reply to a save while a confirming read of that zone, generation and flag is |
| `RoiSaves.FreshRunsNeverCollide` | src/controllers/parkingcontroller.cpp:1648-1726 | A client that never reuses the generation of an open request loses no call |
| `RoiSaves.ReusedGenerationLosesACall` | src/controllers/parkingcontroller.cpp:1720-1723 | Two saves of one zone under one generation collide, so one of the two calls is never answered |
| `RoiSaves.ReconnectFailsEach` | src/controllers/parkingcontroller.cpp:1435-1441 | When the server changes, each open tag gets exactly one failure, with its own zone and generation, in the order of the table, and nothing stays open |
| `RoiSaves.SavedMeansTakenAndReturned` | src/controllers/parkingcontroller.cpp:1784-1825 | A region is announced as saved only after the server took a save of that zone and generation and then, asked again, returned that zone with a region within the tolerance; the immediate flag is the one of its first reply |
| `RoiWire.ReplyIsReadExactly` | src/api/parkingroi.cpp:95-160 | A reply is read as a slot, a region and a flag if and only if it says them, key by key, reports no failure, and the region is inside the image |
| `RoiWire.SaveIsSentExactly` | src/controllers/parkingcontroller.cpp:1690-1726 | A save is sent, under its own tag, if and only if the slot can be asked for and the region is inside the image; otherwise it fails at once |
| `RoiWire.ReadIsSentExactly` | src/controllers/parkingcontroller.cpp:1661-1688 | A read is sent, under its own tag, if and only if the slot can be asked for; otherwise it fails at once |
| `RoiWire.RegionIsSent` | src/api/parkingroi.cpp:138-144 | A region is sent under the four keys under which it is read |
| `RoiWire.SaveReplyAsksAgain` | src/controllers/parkingcontroller.cpp:1784-1805 | The reply to a save, for its own zone, starts the confirming read that expects the region asked for |
| `RoiWire.ConfirmingReplyDecides` | src/controllers/parkingcontroller.cpp:1807-1825 | The confirming read announces the save if and only if it returns the same zone and a region within a millionth of the one asked for; it announces the region returned |
| `RoiWire.HonestServerConfirms` | src/controllers/parkingcontroller.cpp:1690-1826 | A server that stores what it is sent and answers for the right slot gets every save confirmed |
| `RoiWire.ReadReplyIsAnnounced` | src/controllers/parkingcontroller.cpp:1767-1819 | The reply to a plain read is announced, for its own zone only, with the region it describes |
| `RoiWire.ErrorIsReported` | src/controllers/parkingcontroller.cpp:1828-1842 | An error ends the request it answers and is reported for its zone and generation, as of a save or of a read |
| `RoiWire.ListIsReadExactly` | src/api/parkingroi.cpp:67-105 | A list is read if and only if each element names a slot and a region inside the image; of several for one slot the last one counts |
| `RoiWire.ListReplyIsAnnounced` | src/controllers/parkingcontroller.cpp:1744-1765 | The reply to a list request is announced, zone by zone, if and only if it is such a list and its slots stand for different zones |
| `SlotNames.ServerNameOfZone` | src/controllers/parkingcontroller.cpp:1857-1866 | Without a mapping the server's name of a zone is the zone without its dash |
| `SlotNames.NamesRoundTripExactly` | src/controllers/parkingcontroller.cpp:1851-1866 | The zone of that name is the same zone again if and only if it has two digits or more |
| `SnapshotMerge.ParkingController.ApplyParkingSnapshot` | src/controllers/parkingcontroller.cpp:2035-2126 | Rebuilds the view slot by slot in place and counts applied, rejected and duplicate listings |
| `SnapshotMerge.ShowSlot` | src/controllers/parkingcontroller.cpp:2058-2087 | Works out state and appearance of a listed slot in steps, keeping a persistent alarm |
| `SnapshotMerge.DeriveSlotVisualState` | src/models/parkingstate.cpp:72-96 | Sets the appearance up in steps: occupancy, vehicle class, alarm and acknowledgement |
| `SlotIds.NormalizeIsIdempotent` | src/models/parkingstate.cpp:3-14 | Whatever was written, the normal form is trimmed and in upper case and stands for itself: normalizing again changes nothing |
| `SlotIds.DashIsOptional` | src/models/parkingstate.cpp:5-12 | With digits after the letters, a name without the dash means the same slot as the one with it if and only if there are two digits or more |
| `SnapshotMerge.CountsAgree` | src/controllers/parkingcontroller.cpp:2037-2133 | Received = applied + rejected, and the announced capacity = applied - duplicates = number of different zones listed, EV and general zones being disjoint |
| `SnapshotMerge.LastListingWins` | src/controllers/parkingcontroller.cpp:2040-2119 | What is shown for a zone is decided by its last listing and by the view before the snapshot |
| `SnapshotTexts.SnapshotIsShown` | src/controllers/parkingcontroller.cpp:2040-2119 | In the words of the last listing of a zone and of the view before: its occupancy, vehicle class, alarm, acknowledgement and state, whatever the snapshot lists |
| `SnapshotTexts.QuietSlotIsOccupiedExactly` | src/models/parkingstate.cpp:72-96 | With no alarm before and none now, a slot is occupied if and only if its state says OCCUPIED or ACKED, and vacant otherwise |
| `SnapshotTexts.StateFitsExactly` | src/controllers/parkingcontroller.cpp:2058-2087 | State and appearance agree if and only if an alarm is shown, or the state is not ACKED and no fire marker hides an alarm that the state names |
| `SnapshotTexts.ImagesAreShownExactly` | src/controllers/parkingcontroller.cpp:2108-2117 | Images are shown for a slot if and only if one of its listings brings some or goes on with the session whose images were shown |
| `SnapshotTexts.NewImagesAreShown` | src/controllers/parkingcontroller.cpp:2108-2117 | Images of the last listing of a zone are the ones shown |
| `SnapshotTexts.AlarmTextIsShown` | src/controllers/parkingcontroller.cpp:2089-2093 | The alarm text of an electric slot names the alarm shown; without one it is the text of the response |
| `SlotNames.AcceptedExactly` | src/controllers/parkingcontroller.cpp:2041-2053 | A listed slot is accepted if and only if the mapping names a zone for it or lets it stand for itself, and that is a zone for electric or general parking |
| `SlotNames.MappedZone` | src/controllers/parkingcontroller.cpp:1851-1855 | With an entry in the mapping a slot stands for the configured zone in normal form |
| `SnapshotMerge.AlarmAndStateAgree` | src/controllers/parkingcontroller.cpp:2058-2087 | A shown alarm and the shown state always agree |
| `SnapshotMerge.AlarmLasts` | src/controllers/parkingcontroller.cpp:2074-2084 | An alarm lasts at least until a snapshot no longer shows the slot as occupied; a sensor error and its acknowledgement last on |
| `SnapshotMerge.SensorErrorIsNeverDropped` | src/controllers/parkingcontroller.cpp:2065-2087 | Over any run of snapshots that keep listing a slot, a sensor error is never dropped and its acknowledgement never taken back |
| `SnapshotMerge.ImagesOutlivePolls` | src/controllers/parkingcontroller.cpp:2110-2117 | Over any run of snapshots that list a running session without images, its images stay |
| `CaptureGroups.BuildParkingCaptureGroups` | src/models/parkingcapturegroup.cpp:7-56 | One pass splits the images: one group per capture, in the order of first images, holding all of its images in the order of the list |
| `CaptureGroups.SortingKeepsPartition` | src/models/parkingcapturegroup.cpp:58-72 | Whatever order the groups are sorted into, they still split the images |
| `CaptureGroups.NoImageIsLost` | src/models/parkingcapturegroup.cpp:7-72 | The images the groups hold are the images given, as multisets: none dropped, made up or shown twice |
| `CaptureGroups.SameGroupIff` | src/models/parkingcapturegroup.cpp:14-24 | Every image has a home group, each group holds exactly the images at home in it in the order of the list, and two images share a home exactly when both have an id, the same one, in the same session |
| `CaptureGroups.GroupKeepsIdentity` | src/models/parkingcapturegroup.cpp:29-42 | In any split of any images, a group carries the id and the session of every image it holds |
| `CaptureGroups.FitForSorting` | src/models/parkingcapturegroup.cpp:58-71 | The comparison of groups is a strict weak order if and only if no group without an id shares its time with two groups of different ids |
| `CaptureGroups.SortedIsChronological` | src/models/parkingcapturegroup.cpp:58-71 | Groups sorted by that comparison are in the order of their times, those without a time last, and groups of one time in the order of their ids |
| `CaptureGroups.GroupReportsFirstTime` | src/models/parkingcapturegroup.cpp:43-45 | A group reports the first valid timestamp of its images |
| `CaptureGroups.GroupReportsFirstText` | src/models/parkingcapturegroup.cpp:46-48 | A group reports the first recognised text of its images |
| `CaptureGroups.GroupReportsReason` | src/models/parkingcapturegroup.cpp:40-54 | A definite reason of the first image stays; otherwise the first definite reason of a later image counts |
| `CaptureGroups.ParkingCaptureVariant` | src/models/parkingcapturegroup.cpp:75-85 | Finds the first image with the processing, in any letter case, or reports that there is none |
| `CaptureGroups.PreferredParkingCaptureVariant` | src/models/parkingcapturegroup.cpp:87-95 | The unprocessed image if there is one, otherwise the first |
| `TimelinePairs.BuildPairs` | src/pages/evidencepage.cpp:932-963 | Exactly one pair per visible key; its first and latest indexes are the least and greatest entries of that key, its count is the number of them |
| `TimelinePairs.ShownHasOneRow` | src/pages/evidencepage.cpp:932-963 | Every shown entry has exactly one row |
| `TimelinePairs.RowsExactly` | src/pages/evidencepage.cpp:135-151 | An entry has a row if and only if it shares one with a shown entry - same slot and session, or same slot and the same sessionless capture - and then exactly one, with the first and latest of those that share it, their number and the texts of the first |
| `TimelinePairs.SortingKeepsPairs` | src/pages/evidencepage.cpp:964-986 | Sorting the rows keeps all of that |
| `TimelinePairs.CapturesAreConserved` | src/pages/evidencepage.cpp:941-963 | The counts of the rows add up to the entries they cover |
| `EvidenceCache.EvidencePage.MergeEvidenceCache` | src/pages/evidencepage.cpp:800-814 | Remembers the nonempty lists of an update, and reports a change exactly when some listing brought images that its slot did not have at its turn |
| `EvidenceCache.NewsIsChange` | src/pages/evidencepage.cpp:800-814 | Where no slot is listed twice, a change is reported exactly when the cache has changed |
| `EvidenceCache.CacheHoldsLatest` | src/pages/evidencepage.cpp:775-814 | After any run of updates the cache holds, for each slot, the last nonempty list |

## Left out

- Text beyond ASCII: trimming and letter case cover ASCII only, and MQTT topics are bytes rather than converted UTF-8.
- JSON text: documents are values, and numbers are reals, so neither formatting nor double rounding is modelled.
- Sockets, TLS, HTTP, FFmpeg, timers, settings and files: their outcomes are events of the runs.
- `cancel()` and `setConnectionOptions()` during a change: a stopped timer leaves the pending update without a final signal, so the transaction theorems are about runs without them.
- Calls made from inside a signal handler while a step is still under way: every step runs to its end.
- Warnings, container and definition indexes, and the video source token of a parsed configuration.
- Parsing of camera options and capabilities: a reply carries what these parsers would make of it.
- Packets above 4 GB: the length passed to the encoder is unbounded here and 32 bits wide there.
- The order of the failures of pending publishes on disconnect, keep-alive pings and the reconnect delay.
- Wrap-around of the 64-bit stream generation, and the startup delay shown beside a frame, which is not tied to its frame.
- Occurrence time, severity and message texts of logged events, and the dialog that publishes an acknowledgement command.
- Duration texts, update times and OCR fields of a slot; parking events that change slots between snapshots.
- EvidenceCache.EvidencePage.MergeEvidenceCache: the cached slot states, plates and reasons are left out; lists given under two raw names of one slot are merged in the order of the table, which is an input.
- Order of capture groups and timeline rows: the sort itself is not modelled; what is proved holds for every order it may produce.
- Which timeline entries the filters select: any selection of the entries is covered.
- The table of event evidence references and its eviction queue, whose contents one path lets drift apart.
- Whole-state replacement by the simulation service, and all widgets, pages and dialogs.
- WiseAiClientObject.WiseAiConfigClient.OnFinished: the reasons of a failure (TLS, network, status code) are one outcome.
- ParkingRoi.ParkingController.ApplyParkingRoiResponse: the reply to a list request converts the listed slots at once rather than in a loop.
- MqttFramer.Framer.OnReadyRead: the packets go to a log instead of being handled one by one inside the loop; a new connection, which empties the buffer, is a new framer.
- FireController.ParkingController.RecordChannelFireEvent: severity, time, status and message of the logged event, which no later decision reads.
- FireController.ParkingController.HandleMqttMessage: parking messages and the record of an unsupported message do nothing here.
- FireController.EveryInboxIsSafe: parking messages, which also enter the memory of logged ids, leave the state alone here.
- FrameMailbox.RtspVideoItem.QueueDecodedFrame: the startup delay.
- FrameMailbox.RtspVideoItem.TakePendingFrame: the startup delay.
- FrameMailbox.RtspVideoItem.HandleDecodedFrame: video size, startup delay and reconnect counter.
- FrameMailbox.RtspVideoItem.BeginStart: video size and startup delay.
- FrameMailbox.RtspVideoItem.SetSource: video size, startup delay and reconnect counter.
- FrameMailbox.RtspVideoItem.HandleReport: the reconnect delay and its attempt counter; that the timer is armed, by whom and for which source is modelled.
- MqttSession.MqttServiceClient.HandleConnAck: status texts and the start of the keep-alive timer.
- AreaConfiguration.Parse: warnings, tokens and the positions of containers and definitions.
- AreaConfiguration.ReadDefinition: the video source token and the positions.
- WiseAiClientObject.WiseAiConfigClient.ApplyChannelConfiguration: the text of a failure.
- WiseAiClientObject.WiseAiConfigClient.DeleteArea: the text of a failure.
- WiseAiClientObject.WiseAiConfigClient.Schedule: the lengths of the pauses, 250, 750 and 1500 ms; that a pause ends is an event.
- SnapshotMerge.ParkingController.ApplyParkingSnapshot: duration texts, update times and the time of the snapshot.
- ConfigRollback.RollbackRestoresStart: where the document read had several containers of the channel, the areas to restore are those of all of them while the baseline is the first container.
