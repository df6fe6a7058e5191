# sparkplug-mqtt: the publish protocol and the topic namespace

This project models how a Sparkplug client numbers its messages, confirms their delivery and names
their topics, and proves properties of that model. The code modelled is the Rust crate
`sparkplug-mqtt`.

* **Gates.** Every publish call takes the gate of its edge node, draws a wrapping one-byte number,
  offers its messages to a bounded FIFO client and then keeps the number or writes the old one back.
  `Seq` and `Publish` follow the code as classes, one call at a time. `SeqProtocol` is every
  interleaving of any number of calls, with refusals and with cancellation at each await. Both are
  proved against one specification, the atomic counter of `SeqSpec`. The rule is section 6.4.5
  (Payload) of Sparkplug 3.0: an NBIRTH carries 0, each later message adds 1, and 255 wraps to 0.
* **Delivery.** `Delivery` holds the tracker and its guard as classes. `DeliveryProtocol` is every
  interleaving of publishes, PubAcks, disconnects, notifications and flushes, one lock section at a
  time, beside a ledger that gives each counted publish a fate and a debt that says what the counts
  fail to show. `DeliveryTheorems` and `Wakeups` state what a flush may conclude and that its wait
  loop ends. `FlushAudit` counts what an Ok flush passes over on every run, and `DeliveryRuns` holds
  the runs that show it.
* **The whole client.** `PublishSystem` joins the two through the guard inside `publish_message`.
  Each of its runs projects onto a run of each part, and an Ok flush is tied to the calls it confirms.
  `SystemRuns` writes out runs in which a call is confirmed, refused and cancelled.
* **Event loop.** `EventLoop` folds a trace of poll results into the tracker, the health value, the
  ready signal and the error row. `LoopProtocol` shows that every run of the delivery protocol is a
  trace of that loop, with what other tasks do between its polls, and ends in the same tracker.
* **Topics.** `Topic` is the parser and printer of the namespace, over the checked segments of
  `Ids` and the message types of `Types`. The absence of `/` in a segment also makes the key of the
  gate map injective, on which the gates rest.

A state machine here is a pair `Enabled`/`Next` over a datatype of events, so a run is a sequence of
events and a theorem over runs quantifies over all of them. Names that only the model needs, such as
the past reservations of a gate or the fate of a publish, are marked as bookkeeping where declared.

Two ends of a call leave messages on the wire without keeping a number. In the first, the client
takes a message in the instant its call is cancelled. In the second, the client takes an NBIRTH and
then refuses its DBIRTH, or the call is cancelled before the DBIRTH resolves. So the sequence rule is
false of the code as it stands. `SeqTheorems.NumberOnTheWire` gives the number of every message of
every run, `SeqTheorems.GapExactlyAfterADroppedCall` says exactly when the rule is broken, and three
runs beside it reach the open window, a half birth with a gap, and a half birth without one.

Flush soundness is false of the code as it stands too, because a PubAck clears a count without
naming a publish. On every run, `FlushAudit.OkFlushPassesBy` counts the publishes an Ok passes over:
those the count still shows, those whose counts were cleared for others, and the losses marked as
reported that nobody was told. `FlushAudit.OkIsSoundExactlyWhen` makes that a condition. Nothing is owed
on honest runs, on which three assumptions (`DeliveryProtocol.Honest`) hold:

* `Conforms`, of the broker: a PubAck answers a message the client still holds, and answers it once
  (QoS 1, section 4.3.2 of MQTT 3.1.1; clean session, section 3.1.2.4).
* `UncancelledOnceTaken`, of the caller: no call is cancelled after the client took its message.
* `LostStaysLost`, of the tracker: no PubAck comes for a publish that was recorded as lost. The code
  relies on it at `src/sparkplug/delivery.rs:142-146` and does not ensure it. The client may hold such
  a message for a while, or take it late, and an ordinary disconnect is honest
  (`DeliveryRuns.HonestLossIsTold`).

The predicate `DeliveryProtocol.Fits` bounds the counts. `DeliveryRuns` shows runs that keep all three
assumptions but one, or all but the bound, and make a flush return Ok over an outstanding publish.
`Wakeups` needs none of them, only a count that does not wrap.

Where code and documentation disagree the model follows the code:

* `src/sparkplug/seq.rs:150-152` says a DBIRTH the client refuses leaves the pair with no effect on
  the count. The count does go back, but the NBIRTH 0 may be on the wire already, and the next data
  message then goes on from the count before the birth (`SeqTheorems.HalfBirthRun`).
* `src/sparkplug/delivery.rs:142-146` says a disconnect with outstanding publishes always loses them.
  A call can be counted, see a disconnect recorded while it still waits for the client, and have its
  message taken and delivered in the next session. The disconnect is then reported for a message that
  arrives, and its PubAck makes a later flush pass over another publish
  (`DeliveryRuns.TakenAfterADisconnectBreaksFlush`).
* `src/sparkplug/delivery.rs:170-171` says a successful flush clears the loss record. Every drained
  flush clears it, the one that answers `PublishLost` included (`DeliveryTheorems.WindowIsExact`).
* `src/sparkplug/topic/tests.rs:51-64` reads as a round trip for every topic. A topic whose group is
  the text `STATE` can be built and printed and then parses as a misshapen host topic
  (`Topic.PrintThenParse`).

## Model

| member | source | states |
|---|---|---|
| Prelude.WidthsInFull | src/sparkplug/seq.rs:72-76 | the last value of each width goes round to 0, or stays where the code saturates, and every other moves by 1 |
| Types.WireOptionsFor | src/sparkplug/types.rs:209-220 | a message is tracked exactly when it is acknowledged: always for a publisher, and for an edge node only NDEATH and STATE |
| Types.MessageTypeText | src/sparkplug/types.rs:72-142 | reading a type's text gives that type back and only that text does; anything else is an unknown type that carries the text |
| Types.TypeWords | src/sparkplug/types.rs:72-102 | which word each of the nine types is written by, and which words belong to nodes and which to devices |
| Types.WordsAreTypes | src/sparkplug/types.rs:125-142 | a text names a message exactly when it is one of the nine words, and then that word is what the type writes |
| Topic.IdentifierIsOneLevel | src/sparkplug/topic/ids.rs:19-60 | any text passes the identifier check if and only if a topic that holds it there parses, and parses to the topic of that identifier; a rejected text makes the topic misshapen when it holds a `/`, and is charged itself otherwise |
| Ids.CheckSegment | src/sparkplug/topic/ids.rs:19-60 | an identifier is accepted exactly when it has a character and none is `/`, `+` or `#`; else the error names it |
| Ids.KeyOfIsInjective | src/sparkplug/seq.rs:185-192 | two edge nodes write the same gate key only when they are the same pair |
| Topic.ConstructibleIffWellFormed | src/sparkplug/topic.rs:78-165 | the constructors build exactly the topics whose address has the shape of their message type |
| Topic.PrintedForms | src/sparkplug/topic.rs:78-165 | what each of the nine constructors prints, word for word |
| Topic.ReadNodeForms | src/sparkplug/topic.rs:206-240 | each of those texts of a node or host is read back as the topic of that very constructor |
| Topic.ReadDeviceForms | src/sparkplug/topic.rs:206-240 | the same for the texts of a device |
| Topic.AccessorsReadTheParts | src/sparkplug/topic.rs:337-384 | group, edge node, device and host of a topic are the parts it prints, and are absent where its type has none |
| Topic.EdgeNodeReadsTheParts | src/sparkplug/client/publish.rs:250-255 | a topic names no edge node if and only if it is a STATE topic; any other names the pair in its second and fourth parts |
| Topic.JoinOfSplit | src/sparkplug/topic.rs:207 | splitting at `/` loses nothing: joining the parts gives the text back |
| Topic.SplitOfPrint | src/sparkplug/topic.rs:386-402 | a printed topic splits into exactly its segments |
| Topic.PrintThenParse | src/sparkplug/topic.rs:206-240 | printing then parsing returns the topic if and only if its group is not the text STATE; that family is rejected as a misshapen STATE |
| Topic.ParseThenPrint | src/sparkplug/topic.rs:206-276 | whatever parses is a constructible topic that prints the very text it came from |
| Topic.ParseAcceptsExactlyTheLanguage | src/sparkplug/topic.rs:206-240 | the accepted texts are exactly the three layouts, with usable segments and a group other than STATE |
| Topic.PrintIsInjective | src/sparkplug/topic.rs:386-402 | no two constructible topics of any namespaces print alike, the group STATE included |
| Topic.ForeignOrShortTopicIsInvalid | src/sparkplug/topic.rs:209-223 | another namespace, or too few segments, is charged as an invalid topic |
| Topic.UnknownTypeIsNamed | src/sparkplug/topic.rs:221-224 | a text is charged with an unknown type if and only if its third segment names no message, whatever follows it and when nothing does |
| Topic.WrongShapeIsNamed | src/sparkplug/topic.rs:213-239 | a text is charged as misshapen, with its type, if and only if the type is known and the number of segments is not the one it asks for |
| Topic.InvalidTopicIsNamed | src/sparkplug/topic.rs:207-239 | a text laid out right is charged with its first unusable identifier; otherwise the whole text is charged if and only if its namespace is foreign or it ends before its type |
| Topic.EveryTextHasOneVerdict | src/sparkplug/topic.rs:206-240 | every text is in the language or deserves exactly one of the three faults, told from its parts alone, and that is the one the parser gives |
| Seq.SeqReservation.Next | src/sparkplug/seq.rs:145-156 | the second number of a pair is the wrapped successor and what to restore stays |
| Seq.SeqReservation.Commit | src/sparkplug/seq.rs:158-161 | committing keeps the number and frees the gate |
| Seq.SeqReservation.Drop | src/sparkplug/seq.rs:172-183 | dropping writes the previous number back before the gate is free |
| Seq.SeqCounters.GateOf | src/sparkplug/seq.rs:105-113 | a pair keeps its gate, an unseen pair gets a fresh one at 0, and gates stay apart |
| Seq.SeqCounters.ReserveWith | src/sparkplug/seq.rs:79-103 | the count moves by the step, the reservation remembers the number before it, and it holds the gate |
| SeqSpec.NextNumber | src/sparkplug/seq.rs:123-183 | the exact number of every message after another: 0 for an NBIRTH, successor inside one reservation or after a kept one, else the successor of the count the dropped reservation restored |
| SeqSpec.NumberAfter | src/sparkplug/seq.rs:144-183 | the same read off the wire: after a dropped call a message goes on from the last number that was kept |
| SeqSpec.CountIsTheLastKeptNumber | src/sparkplug/seq.rs:123-133 | the count an edge node goes on from is the number of the last message it kept, 0 when it kept none |
| SeqSpec.TakenThenDroppedIsRepeated | src/sparkplug/client/publish.rs:41-44 | a single data message taken and then dropped has its number carried again by the next data message |
| SeqSpec.ClosedForm | src/sparkplug/seq.rs:57-77 | with nothing taken dropped, the i-th message after the latest NBIRTH carries i mod 256 |
| SeqSpec.NoRepeatWithin256 | src/sparkplug/seq.rs:57-77 | 256 consecutive messages with no later NBIRTH carry distinct numbers |
| SeqProtocol.StepPreserves | src/sparkplug/seq.rs:88-183 | every event of every task keeps gates apart, one holder a gate, counts true to the reservations that ended, and the wire equal to their log plus the live one |
| SeqProtocol.RunPreserves | src/sparkplug/client/publish.rs:104-133 | the same over whole runs |
| SeqTheorems.StepRefinesTheCounter | src/sparkplug/seq.rs:88-183 | each event is invisible in every atomic counter or exactly one episode of its own edge node's |
| SeqTheorems.RunRefinesTheCounter | src/sparkplug/client/publish.rs:104-133 | over every run each edge node's count and log are the replay of the reservations that ended |
| SeqTheorems.NumberOnTheWire | src/sparkplug/seq.rs:123-183 | the number of every message of every run: 0 for an NBIRTH, the predecessor's successor unless the predecessor's call was dropped, else the successor of the last number whose call returned Ok |
| SeqTheorems.GapExactlyAfterADroppedCall | src/sparkplug/client/publish.rs:32-44 | the sequence rule holds between two messages if and only if the first one's call was not dropped, or both are of one call, or the first carries the number kept last |
| SeqTheorems.OpenWindowRun | src/sparkplug/client/publish.rs:41-44 | a run that reaches the open window: 1 taken and cancelled, then 1 again |
| SeqTheorems.HalfBirthRun | src/sparkplug/client/publish.rs:101-103 | a run with a half birth: 1, then NBIRTH 0 cancelled, then 2 |
| SeqTheorems.HalfBirthWithoutAGap | src/sparkplug/client/publish.rs:101-103 | a half birth on an edge node that kept nothing yet leaves 0, then 1 |
| SeqTheorems.DroppedDataIsRepeated | src/sparkplug/client/publish.rs:41-44 | the documented open window, on the wire of any run |
| SeqTheorems.BirthPairing | src/sparkplug/client/publish.rs:104-133 | a birth that returned Ok stands as NBIRTH 0, DBIRTH 1 with nothing of its edge node between |
| SeqTheorems.WireClosedForm | src/sparkplug/seq.rs:57-77 | on any run in which nothing taken was dropped, a message n places after its latest NBIRTH (from 1 with none) carries n mod 256 |
| SeqTheorems.WireNumbersAreDistinct | src/sparkplug/seq.rs:57-77 | no number twice within 256 messages of such a run |
| SeqTheorems.GateExclusion | src/sparkplug/seq.rs:132-142 | two reservations live at once name different pairs and hold different gates |
| SeqTheorems.GatesAreApart | src/sparkplug/seq.rs:105-113 | different pairs never share a gate |
| SeqTheorems.GateIsForever | src/sparkplug/seq.rs:14-17 | a pair keeps its gate for the rest of every run |
| SeqTheorems.OtherGatesStandStill | src/sparkplug/seq.rs:25-27 | what one task does leaves every other pair's gate as it was |
| SeqTheorems.ReservationWaitsForItsOwnGateOnly | src/sparkplug/seq.rs:94-103 | a waiting call may go on exactly when no call of its own pair holds the gate |
| SeqTheorems.MetricsCallsBegin | src/sparkplug/client/publish.rs:250-261 | a call on any topic but STATE starts under the edge node of its topic; STATE is refused at once |
| SeqTheorems.BirthCallsBegin | src/sparkplug/client/publish.rs:104-127 | a birth starts with the NBIRTH and DBIRTH of the client's own edge node; a publisher is refused |
| SeqTheorems.CallsMayEndAnywhere | src/sparkplug/client/publish.rs:32-44 | a call may be cancelled at every await, and refused whenever the client has not taken its message |
| SeqTheorems.NeverStuck | src/sparkplug/client/publish.rs:210-223 | while a call is unfinished, a call or the event loop can go on without a refusal or a cancellation |
| SeqTheorems.RunsEnd | src/sparkplug/client/publish.rs:210-223 | finitely many calls end within a number of events fixed by the state |
| Publish.SparkplugClient.PublishMetricsOn | src/sparkplug/client/publish.rs:210-261 | a host topic is refused and touches nothing; any other call is one episode of its edge node's counter, and in numbers: 0 for an NBIRTH, else the count plus 1 mod 256, on the wire and kept as its end says; a publisher counts what the client kept, an edge node only NDEATH |
| Publish.SparkplugClient.PublishBirth | src/sparkplug/client/publish.rs:104-133 | both births are one episode, 0 then 1 on the wire and a count of 1 when both went through, the old count when not; a publisher is refused and touches nothing |
| Publish.SparkplugClient.RecordAroundPublish | src/sparkplug/client/publish.rs:365-379 | the count rises first and goes back for every message that did not go through |
| Publish.BirthIsOneEpisode | src/sparkplug/client/publish.rs:104-133 | however far a pair of births got, wire and count are those of one atomic episode |
| Delivery.DeliveryTracker.RecordPublish | src/sparkplug/delivery.rs:88-94 | counts one publish and returns a ticket of the current generation |
| Delivery.DeliveryTracker.RecordPublishFailed | src/sparkplug/delivery.rs:125-132 | rolls one count back only for a ticket of the current generation |
| Delivery.DeliveryTracker.RecordDisconnect | src/sparkplug/delivery.rs:147-154 | moves everything outstanding into the losses and opens a new generation |
| Delivery.DeliveryTracker.WaitForDrain | src/sparkplug/delivery.rs:199-207 | returns drained exactly when a check saw nothing outstanding, and no earlier check did |
| Delivery.DeliveryTracker.Flush | src/sparkplug/delivery.rs:175-193 | the three lock sections with anything between them: a drained flush answers for its window, a timed-out one takes no loss |
| Delivery.PublishInFlight.Drop | src/sparkplug/delivery.rs:250-256 | rolls back at most once, and not at all after keep |
| Delivery.RollbackUndoesTheCount | src/sparkplug/delivery.rs:114-132 | count then rollback is the identity if and only if the count did not wrap |
| DeliveryProtocol.StepBalances | src/sparkplug/delivery.rs:88-154 | every event, honest or not, keeps each count equal to its tally less what is owed |
| DeliveryProtocol.StepPreserves | src/sparkplug/delivery.rs:88-193 | every event that fits keeps every publish and every flush consistent with the ledger, so long as nothing is owed when a disconnect is recorded or a flush drains |
| DeliveryProtocol.HonestStep | src/sparkplug/delivery.rs:88-154 | an honest release clears its own count, so nothing is ever owed |
| DeliveryProtocol.ReportIsExact | src/sparkplug/delivery.rs:187-192 | a report answers Ok exactly when nothing was reported or lost since it opened |
| DeliveryTheorems.FlushSoundness | src/sparkplug/delivery.rs:175-207 | on honest runs a flush that returned Ok passed over no publish counted before it: each was acknowledged, rolled back, or reported lost by an earlier flush |
| DeliveryTheorems.SquareFlushSoundness | src/sparkplug/delivery.rs:175-207 | the same on every run that owes nothing when a disconnect is recorded or a flush drains |
| FlushAudit.EveryRunBalances | src/sparkplug/delivery.rs:17-33 | on every run each count is its tally less what is owed for counts cleared by others |
| FlushAudit.DrainedFlushPassesOver | src/sparkplug/delivery.rs:199-207 | on every run a flush that drains passes over exactly as many outstanding publishes as are owed, and over one it must answer for if and only if more is owed than was counted since it opened |
| FlushAudit.OkFlushPassesBy | src/sparkplug/delivery.rs:175-193 | on every run a flush that reports and answers Ok passes over exactly as many publishes as are owed, and over one it must answer for if and only if more are owed than were counted since it opened |
| FlushAudit.OkIsSoundExactlyWhen | src/sparkplug/delivery.rs:175-193 | on every run whose recorded losses were all counted and told, an Ok accounts for every publish counted before the flush opened if and only if no more is outstanding and owed than was counted since |
| DeliveryTheorems.LedgerConservation | src/sparkplug/delivery.rs:17-33 | publishes counted are outstanding, acknowledged, rolled back, lost or reported, and nothing else |
| DeliveryTheorems.NothingClips | src/sparkplug/delivery.rs:125-154 | no saturating subtraction clips and no count wraps on an honest run that fits |
| DeliveryTheorems.RollbackOwnership | src/sparkplug/delivery.rs:239-256 | dropping a guard removes its own publish and no other, and nothing once a disconnect came between |
| DeliveryTheorems.TimeoutAnswersTheOutstanding | src/sparkplug/delivery.rs:179-185 | a waiting flush may time out, and answers with the publishes outstanding at that moment |
| DeliveryTheorems.WindowIsExact | src/sparkplug/delivery.rs:179-192 | a drained flush finds the losses recorded by its report less those reported when it opened, clamped to 32 bits |
| DeliveryTheorems.UnreportedFlushIsInvisible | src/sparkplug/delivery.rs:175-185 | a flush that times out, is cancelled or still waits can be taken out of the run and leaves every count, publish and other flush the same |
| DeliveryTheorems.FlushAcrossADisconnectReportsIt | src/sparkplug/delivery.rs:170-174 | every flush open across a disconnect that then drains reports all it lost, however flushes overlap |
| DeliveryTheorems.SerialFlushesTelescope | src/sparkplug/delivery.rs:22-27 | flushes that never overlap find, in sum, every loss ever reported once |
| DeliveryRuns.TakenThenCancelledBreaksFlush | src/sparkplug/delivery.rs:109-112 | a run in which a taken and cancelled publish makes a flush pass over another |
| DeliveryRuns.SecondAckBreaksFlush | src/sparkplug/delivery.rs:109-112 | a run in which a second PubAck for one message makes a flush pass over another publish |
| DeliveryRuns.HonestLossIsTold | src/sparkplug/eventloop.rs:39-50 | the ordinary loss is an honest run: a message the client holds, a disconnect recorded at once, a flush that tells of it, and the client that drops the message later |
| DeliveryRuns.HeldAcrossADisconnectBreaksFlush | src/sparkplug/delivery.rs:142-146 | the same when a message held at a recorded disconnect is acknowledged all the same |
| DeliveryRuns.TakenAfterADisconnectBreaksFlush | src/sparkplug/delivery.rs:142-146 | the same when a publish counted before a disconnect is taken after it, with no cancellation and a broker that conforms |
| DeliveryRuns.OverflowBreaksFlush | src/sparkplug/delivery.rs:90 | 2^32 publishes in flight read as a count of 0, and a flush returns Ok over them |
| Wakeups.NoWakeupIsEverLost | src/sparkplug/delivery.rs:125-154 | a flush parked unnotified with nothing outstanding has a notification on its way, in every reachable state |
| Wakeups.NotificationsReachEveryWaiter | src/sparkplug/delivery.rs:195-207 | a notification reaches every waiter created before it, checked or not, a check that does not drain keeps it, and only a notified waiter wakes |
| Wakeups.HonestRunDoesNotWrap | src/sparkplug/delivery.rs:88-94 | runs that fit never wrap the count, so the wakeup theorem covers them |
| Wakeups.WaitLoopEnds | src/sparkplug/delivery.rs:199-207 | the steps of flushes and notifications are bounded by the state plus a fixed weight for each tracker event to come |
| Wakeups.DrainedFlushesAllEnd | src/sparkplug/delivery.rs:195-207 | once nothing is outstanding, flushes take finitely many steps and none is left waiting |
| PublishSystem.RunProjects | src/sparkplug/client/publish.rs:286-379 | every run of the client is a run of the gates and a run of the tracker |
| PublishSystem.PublisherCountsBeforeTheClientTakes | src/sparkplug/client/publish.rs:351-355 | in the publisher role the client takes a message only under a live count of its own |
| PublishSystem.ReturnedCallsKeepTheirCount | src/sparkplug/client/publish.rs:371-374 | on every publisher run the count of a call that returned Ok is never taken back |
| PublishSystem.CallsMoveTheCount | src/sparkplug/client/publish.rs:341-379 | a tracked start counts one, a guard that drops in its generation takes one back, and nothing else a call does moves a count |
| PublishSystem.CallsMayEndAnywhere | src/sparkplug/client/publish.rs:357-363 | a call may be cancelled at every await and refused while it offers, once its guard is gone |
| PublishSystem.SystemGapExactlyAfterADroppedCall | src/sparkplug/client/publish.rs:199-223 | the sequence rule with its exact condition, over runs of the whole client |
| PublishSystem.SystemFlushSoundness | src/sparkplug/client/publish.rs:302-318 | flush soundness over honest runs of the whole client |
| PublishSystem.OkFlushConfirmsTheCall | src/sparkplug/client/publish.rs:302-318 | for a publisher on an honest run: a call returned Ok, then a flush opened and returned Ok, so the broker acknowledged that call's message or an earlier flush reported it lost |
| SystemRuns.ReturnedCallRun | src/sparkplug/client/publish.rs:210-223 | an honest run of any publisher in which a data call returns Ok, with 1 on the wire and one publish outstanding |
| SystemRuns.ConfirmedCallRun | src/sparkplug/client/publish.rs:302-318 | the same run on to its PubAck and a flush that answers Ok |
| SystemRuns.RefusedCallRun | src/sparkplug/client/publish.rs:376-377 | a refused call leaves nothing on the wire and both counts where they were |
| SystemRuns.CancelledCallRun | src/sparkplug/client/publish.rs:357-363 | so does a call cancelled while it waits for the client |
| PublishSystem.SystemNeverStuck | src/sparkplug/client/publish.rs:365-379 | the delivery guard blocks no call the gates would let go on |
| PublishSystem.SystemRunsEnd | src/sparkplug/client/publish.rs:286-379 | with no new call, the calls take a number of events fixed by the state, whatever acknowledgements, disconnects and flushes do meanwhile |
| PublishSystem.EdgeNodeRoleConfirmsNothing | src/sparkplug/types.rs:174-180 | an edge node client that publishes no NDEATH keeps every delivery count at 0, so no flush waits, times out or reports a loss |
| EventLoop.Session.Run | src/sparkplug/eventloop.rs:87-134 | over any trace: tracker, health by its last link event, error row, and the ready signal sent once if and only if a ConnAck came |
| LoopProtocol.EveryRunIsATrace | src/sparkplug/eventloop.rs:87-134 | every run of the delivery protocol is a sequence of polls, each one PubAck, one disconnect or nothing, with what other tasks do between them |
| LoopProtocol.LoopRunsTheProtocol | src/sparkplug/eventloop.rs:39-50 | the tracker the loop folds over such a trace is the tracker at the end of the run, so what is proved of runs holds of a client this loop drives |
| EventLoop.GenerationCountsDrops | src/sparkplug/eventloop.rs:39-50 | the generation counts poll errors and incoming disconnects whatever publishes and flushes come between |
| EventLoop.LastMoveDecidesHealth | src/sparkplug/eventloop.rs:67-81 | the last ConnAck, DISCONNECT in either direction or poll error decides the health, and without one it stays |
| EventLoop.ErrorRowCountsSinceTheLastOk | src/sparkplug/eventloop.rs:101-132 | the error row counts the errors since the last Ok event other than an incoming disconnect |

## Left out

- Seq.SeqCounters.ReserveWith: starts where the awaited lock is granted, so its precondition is a free gate; the waiting itself, and who gets the gate next, is in SeqProtocol, which assumes no order among waiters.
- Delivery.DeliveryTracker.WaitForDrain: takes what other tasks do between checks as an argument; waiters and notifications are in DeliveryProtocol and Wakeups.
- DeliveryTheorems.FlushSoundness: holds on honest runs that fit, because a PubAck carries no identity in the code; FlushAudit gives the exact count and condition for every run, and the breaking runs show each assumption is needed.
- FlushAudit.OkIsSoundExactlyWhen: asks that no loss was marked as reported untold, since a ledger cannot name which loss that was; OkFlushPassesBy counts them on every run.
- PublishSystem.RunProjects: drops the delivery guard and the reservation of a call in two events, which is finer than the code's one drop.
- Integer overflow wraps as in a release build; a debug build panics at the same point.
- Payload encoding and metric values: a message is its topic, its number and the call that sent it.
- The MQTT client, its channel and the tokio primitives are environment events: a bounded FIFO that takes, resolves or refuses, an exclusive lock, and a notification that reaches every waiter created before it.
- Timeouts, backoff sleeps and clocks: a timeout or a cancellation is an event that may come at the await of a flush and nowhere else, since a poll runs on to its check before the timer is read.
- When the client throws its session away is an event of its own, before or after the disconnect is recorded; what the client library does with its queue is not part of this model.
- Connecting, TLS, shutdown ranking, logging and error message text.
- The unchecked-string entry points `publish_metric` and `publish_metrics`, which check three segments and then call the path modelled here.
- Recovery of poisoned locks, borrow lifetimes and shared ownership.
