# A verified model of FADIA and of INET's common algorithms

FADIA is a collective attestation protocol for swarms of devices, simulated with OMNeT++ and
INET. This project models the protocol and the data structures it stands on, and proves what
they promise. Stateful components are classes whose methods follow the C++ methods; their
contracts tie the new state to specification functions, and lemmas prove the properties of those
functions over all inputs and all runs. `dafny verify dfyconfig.toml` checks everything.

**The attestation round.** `FadiaProver` gives each handler's effect on one prover,
`FadiaRound` the whole network: messages in flight, timers, the collector. An event delivers,
loses or diverts one message or fires one timer, in any order. `FadiaTheorems` proves that over
every run no error branch is reached, parent links form a depth-bounded forest, parent and child
agree on session, key and tree, every prover reports at most once and no record is counted twice;
`FadiaProgress` bounds the length of every run and shows that a run that cannot go on has reported
everything. `FadiaLosses` says exactly when a record gets lost, and `FadiaOutcome` that at the end
the collector has counted exactly the provers whose record was not. `FadiaDevice` is the prover as
an object with fields updated in place. `FadiaReport` covers the aggregated report and `FadiaGroups`
what becomes of its groups and proofs; `FadiaAnswers` tells how a prover answers each message and
timer. `FadiaLocal`, `FadiaFrame`, `FadiaHandshake` and `FadiaRecords` hold the invariant proofs,
`FadiaExample` a run of two provers.

Two quirks of the code are kept and are part of every theorem: a parent may finish while it is
still offering places, and its response timer then moves it from finished back to collecting.

**Medium access.** `CarrierSense` is the recursive carrier sense over the device graph,
`MediumAccess` the send queue with its busy and transmitting flags.

**Interval tree.** `IntervalTrees` is the linked red-black tree over a pool of nodes, with its
insertion, deletion and stack-based query; `IntervalShape`, `IntervalHeap`, `IntervalColour`,
`IntervalEdit` and `IntervalQuery` hold trees, zippers and the lemmas.

**Topology.** `Topologies` is the mutable graph with both shortest-path searches, `TopologyPaths`
routes and costs, `TopologyRecords` the recorded out-paths, `TopologyLists` the link lists.

**Int128.** `Int128Words`, `Int128Division` and `Int128s` are the two-limb arithmetic, `Int128Text` printing and
parsing, `WordBits` the bit operations.

**Macho.** `MachoTree` and `MachoMachine` are the hierarchical state machine engine.

**Smaller cores.** `PatternRelation`, `PatternSyntax`, `PatternQuoting` and `PatternMatchers` (glob
patterns), `InitStages` (numbering of initialization stages), `BitStrings`, `BitFields`,
`MemoryStreams` and `MemoryRoundTrip` (bit streams), `UdpSockets` (the two socket tables). `Lists`,
`Strings` and `Wrappers` hold what several components share.

## Where the code does not do what it promises

For each of these the exact condition under which the code is right is proved for all inputs; the
examples named beside it are inputs on which it fails:

- `IntervalTree::query` from the smallest time misses entries: a missing left child has max_high
  equal to that time and is taken for a subtree that reaches the range
  (`IntervalQuery.QueryComplete`, `IntervalQuery.QueryIncompleteExample`).
- `writeByte` shifts an unaligned byte by the wrong amounts, which agree for every byte only in the
  middle of a byte (`MemoryStreams.ByteAppended`, `MemoryStreams.BytePositions`,
  `MemoryStreams.WordPositions`, `MemoryStreams.MisplacedOne`). `readByte` is right at every position.
- Fields of 32 bits use a mask that is negative as an int: few are written right, and only zero is
  read back (`BitFields.WideField`, `BitFields.WideFieldExample`, `BitFields.WideRoundTrip`).
- `operator<` of Int128 is wrong for two negative values with equal high words whose low words lie
  in different halves (`Int128Words.LessCorrect`, `Int128Words.LessWrongExample`).
- Division of the smallest Int128 and printing it are wrong (`Int128s.DividedExactly`,
  `Int128Text.RoundTrip`), and division by it never ends (`Int128Division.MinCycles`,
  `Int128Division.DivisionEnds`).
- A backslash does not take the special meaning from a bracket that begins a number range
  (`PatternQuoting.QuotingMatches`, `PatternQuoting.EscapedMatches`, and
  `PatternQuoting.BracketKeepsMeaning` for the pattern `\[1..2]`); a backslash before every character
  always works (`PatternQuoting.AllEscapedMatches`).
- Without fullstring the number at the front of a match may be the end of a longer one, as
  documented, but not its beginning (`PatternRelation.RangeAnywhere`, `PatternRelation.OnlyFrontsAreCut`).
- `addOwnReport` chooses the proof slot from a length that counts separators, so a report can have
  fewer proofs than groups (`FadiaReport.AddOwnProofSlot`, `FadiaReport.RoundProofSlots`,
  `FadiaReport.AddOwnProofSlotFails`).
- An update held back while the collector is busy is lost when another packet goes to the
  collector, which also happens to updates whose parent has left the radio range
  (`MediumAccess.LostExactlyWhenOverwritten`, `MediumAccess.DivertedUpdateIsLost`).
- Without any lost message a report can still get lost: with an update that reaches a prover which
  no longer has its sender as a child (`FadiaLosses.StepLoses`, `FadiaExample.LateUpdateIsLost`).
- The search for an ephemeral port counts ports whose list of sockets is empty as used
  (`UdpSockets.FullIsUsed`, `UdpSockets.LeaveEmptyEntry`, `UdpSockets.FailWithUnusedPort`).
- Reading a decimal or hexadecimal Int128 takes the letter behind the radix's last digit for one
  more digit (`Int128Text.TooLargeDigit`, `Int128Text.LetterInDecimal` for the text `1a`).
- A broadcast that reaches nobody starts no timer, so packets behind it wait until
  something else is sent (`MediumAccess.StallsExactlyWhenBroadcastVanishes`, `MediumAccess.StallExample`).

## Model

| member | source | states |
|---|---|---|
| `FadiaTheorems.StepInv` | Fadia/src/devices/AProver.cpp:333-1035 | every delivery, loss, diversion or timer firing keeps the whole round invariant: phase of each prover, one handshake message per pair, parent links, grants, placement of records |
| `FadiaTheorems.RunInv` | Fadia/src/devices/AProver.cpp:264-1035 | the round invariant holds after every run of events, in any interleaving and with any losses |
| `FadiaTheorems.NoAlertNoFault` | Fadia/src/devices/AProver.cpp:478-938 | in no reachable state does an event reach an error branch ("wrong tid", "wrong destination", "unexpected state", "wrong data"), dereference a missing parent session, use an empty proof vector or schedule a pending timer |
| `FadiaTheorems.ParentsFormForest` | Fadia/src/devices/AProver.cpp:564-604 | a path upward along accepted parents has at most maxdepth + 1 provers and no prover twice: the parent links form a forest |
| `FadiaTheorems.DepthsAndChildrenBounded` | Fadia/src/devices/AProver.cpp:583-596 | every committed and every offered depth lies in 1..maxdepth, so depth - 1 does not underflow, and a prover has at most maxchildren real children |
| `FadiaTheorems.SessionAgreement` | Fadia/src/devices/AProver.cpp:400-411 | a child whose parent session is valid shares key and tree id with that parent: the key is in both rings, the parent granted exactly this key and tree, and its live child session and own session agree |
| `FadiaTheorems.OneReportPerRound` | Fadia/src/devices/AProver.cpp:796-860 | a prover's counter grows by at most one in a round, so it reports at most once |
| `FadiaTheorems.RecordsAreUnique` | Fadia/src/devices/AProver.cpp:796-860 | each (device, counter) record is held once and in one place only, in flight, in an unsent report or at the collector, and belongs to a prover that really reported |
| `FadiaTheorems.CollectorCountsOnce` | Fadia/src/devices/ACollector.cpp:123-145 | the collector's sum is the number of records it received, each device once, and at most the number of provers |
| `FadiaLosses.StepLoses` | Fadia/src/devices/AProver.cpp:897-921 | a record disappears in a step if and only if the step loses a message that carries it, or delivers one to a prover that is not finished and does not have its sender as a child |
| `FadiaLosses.NoReturn` | Fadia/src/devices/AProver.cpp:897-921 | a record that is gone does not come back in any step |
| `FadiaLosses.RecordsAreAccountedFor` | Fadia/src/devices/AProver.cpp:619-630 | in every run the record of each prover that reported is in a message, in an unsent report or at the collector if and only if no step of the run lost it in one of these two ways |
| `FadiaExample.LateUpdateIsLost` | Fadia/src/devices/AProver.cpp:619-630 | a run from the start of a round, without any lost message, in which a parent finishes early and goes back to collecting while the update of its child is under way; the update finds no such child, and the record is gone |
| `FadiaOutcome.SumIsDelivered` | Fadia/src/devices/ACollector.cpp:123-145 | when nothing can happen any more, the collector's sum is the number of provers whose record no step of the run lost |
| `FadiaOutcome.RoundIsComplete` | Fadia/src/devices/ACollector.cpp:123-145 | it is the number of all provers if and only if no record was lost |
| `FadiaProgress.RoundTerminates` | Fadia/src/devices/AProver.cpp:264-1035 | a round over n provers has at most n(5n + 5) events, whatever is lost or delayed |
| `FadiaProgress.TimerlessMeansReported` | Fadia/src/devices/AProver.cpp:536-640 | a prover with no timer pending has reported: nothing waits forever for a lost message |
| `FadiaProgress.QuietRoundIsComplete` | Fadia/src/devices/AProver.cpp:778-793 | when no event is possible any more, nothing is in flight and every prover has reported exactly once |
| `FadiaHandshake.GoodEvent` | Fadia/src/devices/AProver.cpp:333-793 | an event at a prover raises no alert and no fault and keeps handshakes, parents, links and grants consistent |
| `FadiaRecords.EventRecords` | Fadia/src/devices/AProver.cpp:941-1016 | an event at a prover keeps every report record genuine and in one place |
| `FadiaProver.CommitReqAnswered` | Fadia/src/devices/AProver.cpp:400-451 | a ready prover answers with the first key id of the request that is in its ring, and takes the sender for its parent under exactly this key, tree and depth |
| `FadiaProver.CommitReqAnsweredIff` | Fadia/src/devices/AProver.cpp:338-412 | it answers if and only if it is ready and shares a key; otherwise the request changes nothing |
| `FadiaLocal.CommitAckLocal` | Fadia/src/devices/AProver.cpp:515-532 | an awaited acknowledgment leads to the report at depth 1 or without places for children, and otherwise to an offer of depth - 1 in the same tree |
| `FadiaAnswers.CommitRespAnswered` | Fadia/src/devices/AProver.cpp:643-735 | a prover that offers places records and acknowledges every response in its tree that reaches it, and stops offering exactly with the last place |
| `FadiaAnswers.CommitRespAcceptedIff` | Fadia/src/devices/AProver.cpp:651-728 | the exact conditions under which a response is accepted, and under which it raises an alert; a refused one changes nothing |
| `FadiaAnswers.CommitAckRefused` | Fadia/src/devices/AProver.cpp:482-515 | an acknowledgment is ignored if it is not from the parent, raises an alert if it is for another prover or the key is not held, and else is confirmed |
| `FadiaAnswers.UpdateAnswered` | Fadia/src/devices/AProver.cpp:941-1033 | a known child's update is merged, and the report sent if and only if no other child is on record |
| `FadiaAnswers.UpdateRefused` | Fadia/src/devices/AProver.cpp:866-931 | the exact condition under which an update raises an alert; diverted and late ones go to the collector; only a child's update in the own tree changes the prover |
| `FadiaLocal.TreeTimerLocal` | Fadia/src/devices/AProver.cpp:560-615 | the tree timer of a ready prover starts a tree with depth maxdepth, or the report without places; that of a waiting one is noted |
| `FadiaLocal.AckTimeoutLocal` | Fadia/src/devices/AProver.cpp:536-557 | without an acknowledgment a prover is ready again, or starts its tree if the tree timer has fired |
| `FadiaAnswers.RespTimeoutAnswered` | Fadia/src/devices/AProver.cpp:619-630 | when no responses are awaited any more the prover collects, and reports if and only if it has offered and got no child |
| `FadiaAnswers.UpdateTimeoutAnswered` | Fadia/src/devices/AProver.cpp:778-793 | a child that is given up is dropped, and the report sent if and only if it was the last |
| `FadiaReport.AddOwnCorrect` | Fadia/src/devices/AProver.cpp:1187-1206 | adding the own report never fails on a well-formed report, keeps ids and counters in step, closed groups of 1..aggsize ids and an open tail below aggsize, keeps size and sepsize equal to the counts, and adds exactly the own record |
| `FadiaReport.MergeCorrect` | Fadia/src/devices/AProver.cpp:941-1016 | merging a child's report keeps the same layout and counts and yields exactly the records of both reports |
| `FadiaReport.ReportOfRound` | Fadia/src/devices/AProver.cpp:941-1016 | after any sequence of merges and the own report, the records are those of all children and the own one, in the same layout |
| `FadiaReport.MergeProofSlots` | Fadia/src/devices/AProver.cpp:941-1016 | merging two reports with one proof for each group gives one with one proof for each group |
| `FadiaReport.AddOwnProofSlot` | Fadia/src/devices/AProver.cpp:1192-1200 | adding the own report keeps one proof for each group if and only if the length with separators is a multiple of aggsize exactly when the tail is empty |
| `FadiaReport.RoundProofSlots` | Fadia/src/devices/AProver.cpp:941-1016 | after any merges of such reports, the report that a prover sends has one proof for each group if and only if that condition holds behind the last merge |
| `FadiaReport.AddOwnProofSlotFails` | Fadia/src/devices/AProver.cpp:1192-1200 | that condition can fail: with aggsize 2 the merges of a leaf, its parent and its grandparent lead to a report with one proof for two groups |
| `FadiaGroups.MergeGroups` | Fadia/src/devices/AProver.cpp:941-1016 | a merge keeps every closed group of both reports, in order; two unfinished groups become one, the child's ids before the own ones, exactly if they have at most aggsize ids together, and are set apart otherwise; the last group is left unfinished unless it is full |
| `FadiaGroups.MergeCounts` | Fadia/src/devices/AProver.cpp:994-1016 | the number of groups is the sum of both, less one exactly if two unfinished groups fit into one |
| `FadiaGroups.MergeProofs` | Fadia/src/devices/AProver.cpp:950-1011 | with one proof for each group, each group keeps its proof through the merge and a joined group gets the XOR of both |
| `FadiaGroups.AddOwnGroups` | Fadia/src/devices/AProver.cpp:1187-1206 | the own id joins the unfinished group or begins one, and closes it when it is full |
| `FadiaGroups.AddOwnProofs` | Fadia/src/devices/AProver.cpp:1192-1200 | if the length test finds the right slot, a new group gets its proof last and an old one keeps it, the own proof being zero |
| `FadiaDevice.AggReport.OpenGroup` | Fadia/src/devices/AProver.cpp:941-949 | the backward scan counts the ids behind the last separator |
| `FadiaDevice.AggReport.Fix` | Fadia/src/devices/AProver.cpp:1209-1223 | fixProofs closes the last group exactly when it has aggsize ids |
| `FadiaDevice.AggReport.AddOwnReport` | Fadia/src/devices/AProver.cpp:1187-1206 | addOwnReport in place is the specified addition |
| `FadiaDevice.AggReport.PushRecords` | Fadia/src/devices/AProver.cpp:966-975 | a child's ids and counters are appended and each is counted as id or as separator |
| `FadiaDevice.AggReport.PushProofs` | Fadia/src/devices/AProver.cpp:976-981 | a child's proofs are appended |
| `FadiaDevice.AggReport.PutBack` | Fadia/src/devices/AProver.cpp:983-1016 | the saved open group is joined to the new tail, or set apart by a separator, as specified |
| `FadiaDevice.AggReport.MergeChild` | Fadia/src/devices/AProver.cpp:941-1016 | the merge in place is the specified merge |
| `FadiaDevice.Device.constructor` | Fadia/src/devices/AProver.cpp:264-320 | startAttestation forgets sessions and report and arms the two timers |
| `FadiaDevice.Device.AddOwnRecord` | Fadia/src/devices/AProver.cpp:1187-1206 | the counter is incremented and the own record added |
| `FadiaDevice.Device.Transmit` | Fadia/src/devices/AProver.cpp:801-860 | the report goes to the parent or else to the collector, and both sessions are closed |
| `FadiaDevice.Device.SendUp` | Fadia/src/devices/AProver.cpp:796-860 | sendUpReq has exactly the specified effect on the prover and its messages |
| `FadiaDevice.Device.Offering` | Fadia/src/devices/AProver.cpp:583-615 | an offer opens the placeholder session, starts the response timer and is broadcast |
| `FadiaDevice.Device.SendCommit` | Fadia/src/devices/AProver.cpp:560-615 | sendCommitReq: waiting provers only note it, leaves report, roots open a new tree, others offer depth - 1 |
| `FadiaDevice.Device.FindKey` | Fadia/src/devices/AProver.cpp:400-412 | the first key id of the request that is in the ring, or none if none is |
| `FadiaDevice.Device.HandleCommitReq` | Fadia/src/devices/AProver.cpp:333-451 | a ready prover with a shared key answers and waits for the acknowledgment; all others ignore the request |
| `FadiaDevice.Device.HandleCommitAck` | Fadia/src/devices/AProver.cpp:453-533 | an acknowledgment makes the session valid and leads to a report or to an offer; late ones are ignored |
| `FadiaDevice.Device.HandleCommitResp` | Fadia/src/devices/AProver.cpp:643-735 | a response is recorded and acknowledged, or refused by the check that fails first; the last place ends the offer |
| `FadiaDevice.Device.AcceptResponse` | Fadia/src/devices/AProver.cpp:724-735 | a response that passed every check is recorded and acknowledged, and the last place ends the offer |
| `FadiaDevice.Device.RecordChild` | Fadia/src/devices/AProver.cpp:725-775 | the child session is opened, acknowledged and given an update timer |
| `FadiaDevice.Device.HandleUpReq` | Fadia/src/devices/AProver.cpp:863-1035 | an update is forwarded, refused, or merged, and the last one triggers the own report; counters are read one for each id |
| `FadiaDevice.Device.AcceptUpdate` | Fadia/src/devices/AProver.cpp:941-1033 | the merge, the end of the child session and the report after the last child |
| `FadiaDevice.Device.TreeTimerFires` | Fadia/src/devices/AProver.cpp:560-615 | the tree timer starts a tree or is noted |
| `FadiaDevice.Device.HandleCommitAckTimeOut` | Fadia/src/devices/AProver.cpp:536-557 | without an acknowledgment the parent is forgotten, and a tree is started if that was due |
| `FadiaDevice.Device.HandleCommitRespTimeOut` | Fadia/src/devices/AProver.cpp:619-630 | the offer ends; without children the report is sent |
| `FadiaDevice.Device.HandleUpdateTimeOut` | Fadia/src/devices/AProver.cpp:778-793 | a silent child is dropped; after the last one the report is sent |
| `FadiaDevice.CountAttested` | Fadia/src/devices/ACollector.cpp:135-141 | the backward loop counts the ids that are not separators |
| `CarrierSense.IsChannelBusy` | Fadia/src/devices/ADevice.cpp:508-536 | the gate loop with its recursion computes the recursive definition of sensing |
| `CarrierSense.BusyMeansNeighbourTransmits` | Fadia/src/devices/ADevice.cpp:508-536 | isChannelBusy(far, -1) is true if and only if some device within far hops transmits |
| `CarrierSense.ShortestWayIsSensed` | Fadia/src/devices/ADevice.cpp:523-532 | refusing the arrival gate hides no device, since a shortest way never goes back |
| `MediumAccess.NeverScheduledTwice` | Fadia/src/devices/ADevice_template.h:50-129 | transmitting and busy exclude each other, each holds exactly while its timer message is pending, and scheduling a pending timer, which would set the fault flag, never happens |
| `MediumAccess.StepConserves` | Fadia/src/devices/ADevice_template.h:50-157 | every event keeps the number of copies of each packet, by its id, among queue, radio, held and lost, also when it is diverted to the collector; only a submission adds one |
| `MediumAccess.EveryPacketOnce` | Fadia/src/devices/ADevice_template.h:50-157 | from power-up, over any run, the flags are exclusive, no pending timer was scheduled, and each packet is queued, sent, held or lost exactly as often as it was submitted |
| `MediumAccess.SentExactly` | Fadia/src/devices/ADevice_template.h:50-182 | a packet is handed to the radio if and only if one is tried while the device neither transmits nor is busy, the channel is free and, for a packet to the collector, the collector is free; it is the tried packet |
| `MediumAccess.QueuedExactly` | Fadia/src/devices/ADevice_template.h:54-72 | the tried packet is queued last if and only if the device transmits or is busy or the channel is taken; a queue that is tried loses its front packet |
| `MediumAccess.HeldExactly` | Fadia/src/devices/ADevice_template.h:133-182 | an update is held if and only if it finds the channel free and the collector busy; any other attempt for the collector leaves nothing held |
| `MediumAccess.FlagsExactly` | Fadia/src/devices/ADevice_template.h:67-129 | the device is busy afterwards exactly if it was or found the channel taken, and transmits exactly if it did or sends a packet that somebody hears |
| `MediumAccess.TakenChannelSilences` | Fadia/src/devices/ADevice_template.h:67-72 | on a taken channel an idle device sends nothing, becomes busy and queues the tried packet last |
| `MediumAccess.RunSends` | Fadia/src/devices/ADevice_template.h:50-182 | over a run exactly the packets that find a clear channel are sent, in order |
| `MediumAccess.LostExactlyWhenOverwritten` | Fadia/src/devices/ADevice_template.h:133-157 | the held update is lost if and only if another packet goes to the collector while it is held, be it bound there or an update whose parent is out of range; nothing else is lost |
| `MediumAccess.RunLosesOverwritten` | Fadia/src/devices/ADevice.cpp:104-125 | over a run exactly the overwritten updates are lost |
| `MediumAccess.ProverTrafficIsNotLost` | Fadia/src/devices/ADevice.cpp:264-317 | a run in which no packet goes to the collector loses nothing, although a retried front packet may rotate to the back |
| `MediumAccess.StaysInRange` | Fadia/src/devices/ADevice.cpp:104-125 | no packet goes to the collector, so nothing is lost, if none is submitted for it and the parent is in range whenever an update is tried |
| `MediumAccess.DivertedUpdateIsLost` | Fadia/src/devices/ADevice.cpp:105-117 | two updates for a parent out of range: the first is held and lost |
| `MediumAccess.RetriedUpdateOverwrites` | Fadia/src/devices/ADevice.cpp:308-317 | a queued update that is tried again overwrites the held one if and only if its parent has left |
| `MediumAccess.StallsExactlyWhenBroadcastVanishes` | Fadia/src/devices/ADevice.cpp:341-401 | the queue is left without a timer to drive it if and only if a broadcast that reaches nobody is tried with more packets waiting |
| `MediumAccess.StallExample` | Fadia/src/devices/ADevice.cpp:341-401 | a run in which a packet is left queued with no timer pending, until something else is sent |
| `MediumAccess.Transceiver.SendProver` | Fadia/src/devices/ADevice_template.h:50-129 | queue, sense or transmit, as specified |
| `MediumAccess.Transceiver.SendCollector` | Fadia/src/devices/ADevice_template.h:133-157 | the held update is forgotten before anything is checked |
| `MediumAccess.Transceiver.TryCollector` | Fadia/src/devices/ADevice_template.h:137-182 | queue, sense, hold or transmit, as specified |
| `MediumAccess.Transceiver.Dispatch` | Fadia/src/devices/ADevice.cpp:83-125 | a message of its own is sent by its kind; an update whose parent is out of range goes to the collector |
| `MediumAccess.Transceiver.HandleTxDone` | Fadia/src/devices/ADevice.cpp:264-273 | transmission ends and the front packet is tried and popped |
| `MediumAccess.Transceiver.HandlePostponeDone` | Fadia/src/devices/ADevice.cpp:308-317 | the busy state ends and the front packet is tried and popped |
| `MediumAccess.Transceiver.HandlePostponeUp` | Fadia/src/devices/ADevice.cpp:320-339 | the held update is tried again |
| `IntervalTrees.IntervalTree.constructor` | inet/src/inet/common/IntervalTree.cc:58-77 | an empty tree is valid |
| `IntervalTrees.IntervalTree.Insert` | inet/src/inet/common/IntervalTree.cc:188-240 | insertion keeps links, key order, colours, black height and max_high, and adds exactly the one entry behind those with the same key |
| `IntervalTrees.IntervalTree.RecursiveInsert` | inet/src/inet/common/IntervalTree.cc:158-178 | the new node hangs as a leaf where a search for its key ends |
| `IntervalTrees.IntervalTree.FindPlace` | inet/src/inet/common/IntervalTree.cc:164-172 | the search ends below the last node whose key is not greater, or above the first greater one |
| `IntervalTrees.IntervalTree.FixupMaxHigh` | inet/src/inet/common/IntervalTree.cc:180-186 | the walk to the root recomputes every max_high above and changes nothing else |
| `IntervalTrees.IntervalTree.Rotate` | inet/src/inet/common/IntervalTree.cc:110-155 | a rotation on either side links up the rotated tree and keeps order, contents and max_high |
| `IntervalTrees.IntervalTree.Relink` | inet/src/inet/common/IntervalTree.cc:114-128 | the link assignments in order give exactly the rotated links |
| `IntervalTrees.IntervalTree.RepairInsert` | inet/src/inet/common/IntervalTree.cc:199-237 | one round of the repair moves the red-red clash up or ends it, and keeps contents and max_high |
| `IntervalTrees.IntervalTree.RepairColours` | inet/src/inet/common/IntervalTree.cc:199-238 | the repair loop ends in a red-black tree |
| `IntervalTrees.IntervalTree.DeleteNode` | inet/src/inet/common/IntervalTree.cc:410-460 | removal of a node keeps links, order, colours, black height and max_high, and removes exactly its entry |
| `IntervalTrees.IntervalTree.DeleteInterval` | inet/src/inet/common/IntervalTree.cc:386-391 | removes one entry that stores the interval if there is one, and otherwise changes nothing |
| `IntervalTrees.IntervalTree.RecursiveSearch` | inet/src/inet/common/IntervalTree.cc:393-408 | finds a node that stores the interval if and only if there is one |
| `IntervalTrees.IntervalTree.RemoveHere` | inet/src/inet/common/IntervalTree.cc:416-457 | removal of a node with at most one child |
| `IntervalTrees.IntervalTree.RemoveBySuccessor` | inet/src/inet/common/IntervalTree.cc:416-451 | removal of a node with two children, whose successor takes its place and colour |
| `IntervalTrees.IntervalTree.SpliceOut` | inet/src/inet/common/IntervalTree.cc:417-428 | the only child takes the place of the removed node; its parent link is set even if it is nil |
| `IntervalTrees.IntervalTree.ReplaceNode` | inet/src/inet/common/IntervalTree.cc:432-441 | the successor takes over links and place; nil's parent follows |
| `IntervalTrees.IntervalTree.GetMinimum` | inet/src/inet/common/IntervalTree.cc:242-247 | the leftmost node of the subtree |
| `IntervalTrees.IntervalTree.GetSuccessor` | inet/src/inet/common/IntervalTree.cc:256-270 | the node of the next entry, or the root sentinel behind the last one |
| `IntervalTrees.IntervalTree.DeleteFixup` | inet/src/inet/common/IntervalTree.cc:324-384 | the repair ends in a red-black tree although the child of the root is read once, before rotations |
| `IntervalTrees.IntervalTree.RepairDelete` | inet/src/inet/common/IntervalTree.cc:329-382 | one round moves the missing black node up or ends the repair at the remembered child of the root |
| `IntervalTrees.IntervalTree.Query` | inet/src/inet/common/IntervalTree.cc:473-514 | for well-formed intervals the query returns each overlapping entry exactly once and nothing else, except in the case characterized by IntervalQuery.QueryComplete, and leaves the stack ready for the next query |
| `IntervalTrees.IntervalTree.Collect` | inet/src/inet/common/IntervalTree.cc:473-514 | the loop terminates with the result of the pruned recursive search |
| `IntervalTrees.IntervalTree.VisitNode` | inet/src/inet/common/IntervalTree.cc:482-503 | a visited node is collected if it overlaps and the search goes left or right |
| `IntervalTrees.IntervalTree.Push` | inet/src/inet/common/IntervalTree.cc:487-499 | an opened node is pushed and current_parent stays stack top - 1 |
| `IntervalTrees.IntervalTree.Close` | inet/src/inet/common/IntervalTree.cc:505-511 | the innermost open node is closed and its right subtree searched if its left one had a match |
| `IntervalTrees.IntervalTree.Backtrack` | inet/src/inet/common/IntervalTree.cc:504-512 | goes back to the innermost open node that is to be searched on the right |
| `IntervalHeap.RotatedZip` | inet/src/inet/common/IntervalTree.cc:110-155 | rotation assignments on a node pool give the rotated tree, with all other nodes unchanged |
| `IntervalHeap.TurnZip` | inet/src/inet/common/IntervalTree.cc:110-155 | the same with max_high recomputed |
| `IntervalHeap.RotTreeKeeps` | inet/src/inet/common/IntervalTree.cc:130-131 | a rotation keeps order and contents and makes max_high correct again |
| `IntervalColour.UncleRed` | inet/src/inet/common/IntervalTree.cc:203-208 | red uncle: recolouring moves the clash two levels up |
| `IntervalColour.InnerChild` | inet/src/inet/common/IntervalTree.cc:210-213 | inner grandchild: a rotation makes it an outer one |
| `IntervalColour.OuterChild` | inet/src/inet/common/IntervalTree.cc:214-216 | outer grandchild: a rotation ends the clash |
| `IntervalColour.RisingEnd` | inet/src/inet/common/IntervalTree.cc:238 | painting the top black gives a red-black tree |
| `IntervalColour.SiblingRed` | inet/src/inet/common/IntervalTree.cc:332-337 | red sibling: a rotation gives a black one and keeps the shortage |
| `IntervalColour.NephewsBlack` | inet/src/inet/common/IntervalTree.cc:338-341 | black nephews: the shortage moves to the parent |
| `IntervalColour.NearRed` | inet/src/inet/common/IntervalTree.cc:343-348 | only the near nephew red: a rotation makes the far one red |
| `IntervalColour.FarRed` | inet/src/inet/common/IntervalTree.cc:349-353 | far nephew red: a rotation ends the shortage |
| `IntervalColour.ShortEnd` | inet/src/inet/common/IntervalTree.cc:383 | painting a red node or the top black ends the shortage |
| `IntervalEdit.LeafEntry` | inet/src/inet/common/IntervalTree.cc:158-186 | a leaf hung at its place adds exactly its entry and keeps order and maxima |
| `IntervalEdit.SpliceColours` | inet/src/inet/common/IntervalTree.cc:442-455 | taking out a red node keeps the colours, taking out a black one leaves its place one black node short |
| `IntervalEdit.SpliceContents` | inet/src/inet/common/IntervalTree.cc:418-428 | taking out a node removes exactly its entry |
| `IntervalEdit.ReplaceContents` | inet/src/inet/common/IntervalTree.cc:430-441 | after the successor took the node's place exactly the node's entry is gone |
| `IntervalEdit.FixedUp` | inet/src/inet/common/IntervalTree.cc:180-186 | recomputing the maxima above makes all maxima right and changes no contents |
| `IntervalEdit.NextEntries` | inet/src/inet/common/IntervalTree.cc:256-270 | what is right of a node are the entries that follow it |
| `IntervalQuery.OverlapMeansCommonPoint` | inet/src/inet/common/IntervalTree.cc:463-471 | the overlap test is true if and only if the ranges have a common point |
| `IntervalQuery.HitsAreMatching` | inet/src/inet/common/IntervalTree.cc:473-514 | an unpruned search finds exactly the overlapping entries, each once |
| `IntervalQuery.EndsTooEarly` | inet/src/inet/common/IntervalTree.cc:486-502 | a subtree whose max_high is below the range has no match |
| `IntervalQuery.BeginsTooLate` | inet/src/inet/common/IntervalTree.cc:505-511 | if the left subtree reaches the range without a match, the right one has none |
| `IntervalQuery.FoundComplete` | inet/src/inet/common/IntervalTree.cc:473-514 | pruning loses nothing unless low is the smallest time and a node without left child has a match on its right |
| `IntervalQuery.QueryComplete` | inet/src/inet/common/IntervalTree.cc:473-514 | the query returns exactly the overlapping entries if and only if low is above the smallest time or no node without left child has a match in its right subtree |
| `IntervalQuery.QueryIncompleteExample` | inet/src/inet/common/IntervalTree.cc:486 | a tree of two entries, both in the range, of which the query from the smallest time returns one |
| `Topologies.Topology.WeightedSearch` | inet/src/inet/common/Topology.cc:406-467 | dist is the least cost over all enabled routes to the target, node weights in between included and infinite ones never crossed; the first out-path of each reached node begins a route of that cost; the out-paths of a node are exactly its usable links to nodes with a finite distance, each once |
| `Topologies.Topology.UnweightedSearch` | inet/src/inet/common/Topology.cc:364-404 | dist is the least number of hops and the first out-path begins a route with that many; the out-paths of a node are exactly its usable links to reached nodes, each once |
| `Topologies.Topology.RelaxWeighted` | inet/src/inet/common/Topology.cc:431-465 | looking at an in-link keeps the search invariant, whichever branch is taken, and records the link if it can be used, last unless it improves the distance |
| `Topologies.Topology.Improve` | inet/src/inet/common/Topology.cc:447-462 | a shorter path moves the node to its place in the ordered queue and its link to the front of the out-paths |
| `Topologies.Topology.FindPlace` | inet/src/inet/common/Topology.cc:455-461 | the place before the first node that is farther |
| `Topologies.Topology.RelaxUnweighted` | inet/src/inet/common/Topology.cc:387-402 | the same for the search by hops |
| `Topologies.Topology.LowerBound` | inet/src/inet/common/Topology.cc:252 | the first place whose module id is not less |
| `Topologies.Topology.GetNodeFor` | inet/src/inet/common/Topology.cc:355-362 | finds the first node with a module id if and only if there is one |
| `Topologies.Topology.AddNode` | inet/src/inet/common/Topology.cc:242-255 | adds an unlinked node at its place in the order |
| `Topologies.Topology.AddLink` | inet/src/inet/common/Topology.cc:283-300 | puts or moves a link; it is listed exactly once at both ends, last, and nothing else changes |
| `Topologies.Topology.DeleteLink` | inet/src/inet/common/Topology.cc:325-330 | takes the link out of both lists and out of the graph |
| `Topologies.Topology.DeleteOutLinks` | inet/src/inet/common/Topology.cc:259-265 | deletes exactly the links that begin at the node |
| `Topologies.Topology.DeleteInLinks` | inet/src/inet/common/Topology.cc:267-273 | deletes exactly the links that end at the node |
| `Topologies.Topology.DeleteNode` | inet/src/inet/common/Topology.cc:257-281 | removes the node and exactly the links that begin or end there |
| `TopologyPaths.ClosedIsMinimal` | inet/src/inet/common/Topology.cc:424-466 | labels that no link can improve are lower bounds of the cost of every route |
| `TopologyPaths.RouteOf` | inet/src/inet/common/Topology.cc:447-462 | following first out-paths from a settled node gives a route whose cost is the label |
| `TopologyPaths.AllMinimal` | inet/src/inet/common/Topology.cc:424-466 | when the queue is empty no route costs less than the label |
| `TopologyPaths.AllAttained` | inet/src/inet/common/Topology.cc:424-466 | and every finite label is the cost of a route that begins with the first out-path |
| `TopologyPaths.VisitImproved` | inet/src/inet/common/Topology.cc:447-462 | an improvement keeps labels, queue order and settled nodes consistent |
| `TopologyPaths.DistancesUnique` | inet/src/inet/common/Topology.cc:364-467 | two correct searches of a graph give the same distances |
| `TopologyPaths.UnitCost` | inet/src/inet/common/Topology.cc:364-404 | with link weights 1 and node weights 0 the cost of a route is its number of links |
| `TopologyPaths.UnitDistancesAreHops` | inet/src/inet/common/Topology.cc:364-467 | on such weights the weighted search and the search by hops agree |
| `TopologyPaths.HopReached` | inet/src/inet/common/Topology.cc:395-401 | a node reached for the first time goes to the end of the queue and keeps the search invariant |
| `TopologyRecords.RecordedNext` | inet/src/inet/common/Topology.cc:447-464 | with the next link that is looked at the recorded links are those looked at so far, each once at its source |
| `TopologyRecords.RecordsEnd` | inet/src/inet/common/Topology.cc:424-466 | when the queue is empty the recorded links are the usable ones to nodes with a finite distance |
| `TopologyLists.UnlinkLinked` | inet/src/inet/common/Topology.cc:325-346 | removing a link from the lists of its ends keeps the lists consistent |
| `TopologyLists.AttachLinked` | inet/src/inet/common/Topology.cc:295-299 | adding a link to the lists of its ends keeps the lists consistent |
| `TopologyLists.RemoveIsolated` | inet/src/inet/common/Topology.cc:275-280 | removing a node without links keeps graph and order consistent |
| `Int128Words.NegCorrect` | inet/src/inet/common/Int128.cc:160-166 | unary minus negates modulo 2^128, exactly unless the value is the smallest |
| `Int128Words.AddCorrect` | inet/src/inet/common/Int128.cc:202-212 | the carry makes two-limb addition equal to addition modulo 2^128 |
| `Int128Words.SubCorrect` | inet/src/inet/common/Int128.h:128-131 | subtraction modulo 2^128 |
| `Int128Words.LessCorrect` | inet/src/inet/common/Int128.cc:380-390 | operator< is the order of the values if and only if it is not the case that the high words are equal and negative and the low words lie in different halves |
| `Int128Words.LessWrongExample` | inet/src/inet/common/Int128.cc:380-390 | two negative values that are ordered the wrong way |
| `Int128Words.ShrCorrect` | inet/src/inet/common/Int128.cc:319-348 | right shift by any amount is the floored quotient by the power of two |
| `Int128Words.ShlCorrect` | inet/src/inet/common/Int128.cc:350-378 | left shift by any amount is the product with the power of two modulo 2^128 |
| `Int128Words.TestBitCorrect` | inet/src/inet/common/Int128.cc:289-298 | bit n is the parity of the value shifted down by n |
| `Int128Words.SetBitCorrect` | inet/src/inet/common/Int128.cc:300-310 | setting a bit of any value adds the power of two modulo 2^128 if the bit was not set |
| `Int128Words.ClearBitCorrect` | inet/src/inet/common/Int128.cc:311-316 | clearing a bit of any value subtracts the power of two modulo 2^128 if the bit was set |
| `Int128Division.FirstStep` | inet/src/inet/common/Int128.cc:258-262 | one round of the first loop brings down the next bit without overflow, the wrapping counter included |
| `Int128Division.NextBit` | inet/src/inet/common/Int128.cc:266-272 | bringing down a bit in the second loop keeps quotient and remainder those of the bits so far |
| `Int128Division.TakeAway` | inet/src/inet/common/Int128.cc:274-277 | subtracting the divisor and setting the quotient bit keeps them, too |
| `Int128Division.MinCycles` | inet/src/inet/common/Int128.cc:244-277 | with the smallest value as divisor every round leads back to where it was two rounds before |
| `Int128Division.DivisionEnds` | inet/src/inet/common/Int128.cc:237-287 | division by anything but zero ends if and only if the divisor is not the smallest value |
| `Int128s.PartialProductIs` | inet/src/inet/common/Int128.cc:227-232 | the sum of the shifted copies taken so far is the product with the low bits |
| `Int128s.FirstBits` | inet/src/inet/common/Int128.cc:257-263 | the first loop leaves a remainder in [ds, 2 ds) without overflow and a bit counter below 127 |
| `Int128s.RestBits` | inet/src/inet/common/Int128.cc:265-277 | the second loop yields quotient and remainder, with dividend = quotient * divisor + remainder and the wrapping counter handled |
| `Int128s.Int128.AddAssign` | inet/src/inet/common/Int128.cc:202-212 | in place, also with itself |
| `Int128s.Int128.SubAssign` | inet/src/inet/common/Int128.h:128-131 | in place, also with itself |
| `Int128s.Int128.MulAssign` | inet/src/inet/common/Int128.cc:214-235 | shift-add multiplication equals multiplication modulo 2^128, also with itself |
| `Int128s.Int128.Div` | inet/src/inet/common/Int128.cc:237-287 | fails exactly for divisor zero; otherwise the result is that of the division, and the remainder may alias either operand |
| `Int128s.Int128.DivAssign` | inet/src/inet/common/Int128.h:133-138 | the object becomes the quotient |
| `Int128s.Int128.ModAssign` | inet/src/inet/common/Int128.h:140-144 | the object becomes the remainder although it is dividend and remainder at once |
| `Int128s.Divide` | inet/src/inet/common/Int128.cc:237-287 | division on copies |
| `Int128s.DividedExactly` | inet/src/inet/common/Int128.cc:237-287 | the result is the quotient truncated toward zero and the remainder with the sign of the dividend if and only if the dividend is not the smallest value |
| `Int128Text.ToString` | inet/src/inet/common/Int128.cc:37-62 | the text of every value, with the three special cases |
| `Int128Text.PrintDigits` | inet/src/inet/common/Int128.cc:52-56 | the digits fit the buffer and are those of the magnitude |
| `Int128Text.DigitsLength` | inet/src/inet/common/Int128.cc:44-61 | a value below 2^k has at most k digits in any radix from 2 |
| `Int128Text.Set` | inet/src/inet/common/Int128.cc:64-107 | reading a text gives its value modulo 2^128 |
| `Int128Text.ReadDigits` | inet/src/inet/common/Int128.cc:90-103 | the digits up to the first other character are folded into the value |
| `Int128Text.FoldDigits` | inet/src/inet/common/Int128.cc:90-103 | reading printed digits continues where the number left off |
| `Int128Text.ParsePrefixed` | inet/src/inet/common/Int128.cc:81-103 | hexadecimal and octal digits behind their prefixes parse to the number |
| `Int128Text.TooLargeDigit` | inet/src/inet/common/Int128.cc:92-99 | a character is taken for a digit that the radix does not have if and only if it is the letter behind the radix's last digit |
| `Int128Text.LetterInDecimal` | inet/src/inet/common/Int128.cc:92-99 | the text 1a parses to 20 |
| `Int128Text.ParseText` | inet/src/inet/common/Int128.cc:64-107 | the decimal text of a value parses to the value, zero by the octal branch included |
| `Int128Text.RoundTrip` | inet/src/inet/common/Int128.cc:37-107 | set(toString(v)) restores v if and only if v is not the smallest value |
| `MachoTree.ExitsArePath` | inet/src/inet/common/Macho.cc:156-173 | the states left are the part of the current chain below the common part, innermost first |
| `MachoTree.EntriesArePath` | inet/src/inet/common/Macho.cc:139-154 | the states entered are the part of the new chain below the common part, outermost first |
| `MachoTree.TransitionExchangesPaths` | inet/src/inet/common/Macho.cc:356-373 | a transition leaves the common part alone and exchanges the rest of the two chains |
| `MachoTree.ReplayTransition` | inet/src/inet/common/Macho.cc:356-373 | replaying the exit and entry actions leads from one ancestor chain to the other, leaving only the innermost entered state and entering only below it |
| `MachoTree.PathOnce` | inet/src/inet/common/Macho.cc:139-173 | no state occurs twice on a chain, so a transition leaves and enters each state at most once |
| `MachoTree.DepthBound` | inet/src/inet/common/Macho.h:789-792 | no state is deeper than the number of states |
| `MachoTree.SaveUpIs` | inet/src/inet/common/Macho.h:727-739 | saving history records exactly in the states above that keep a history, the shallow or the deep state |
| `MachoTree.RecordedBelow` | inet/src/inet/common/Macho.h:276-295 | a recorded history is a proper descendant of its state |
| `MachoMachine.RemembersLast` | inet/src/inet/common/Macho.h:276-295 | after leaving s, each state above remembers s itself or its own substate towards s, as its strategy says |
| `MachoMachine.BoxesAfter` | inet/src/inet/common/Macho.cc:139-173 | boxes exist for exactly the entered states and for left persistent ones |
| `MachoMachine.TransitionConsistent` | inet/src/inet/common/Macho.cc:344-390 | every transition keeps the configuration consistent: the replayed trace is the ancestor chain of the current state, boxes fit it, histories point below |
| `MachoMachine.Machine.constructor` | inet/src/inet/common/Macho.cc:219-221 | a new machine is consistent at the root |
| `MachoMachine.Machine.ExitState` | inet/src/inet/common/Macho.cc:156-173 | the exit recursion leaves exactly the computed states, in order, and deletes their boxes |
| `MachoMachine.Machine.EntryState` | inet/src/inet/common/Macho.cc:139-154 | the entry recursion enters exactly the computed states, in order, and creates their boxes |
| `MachoMachine.Machine.Transition` | inet/src/inet/common/Macho.cc:344-373 | exit, history, entry: the configuration is consistent at the new state |
| `MachoMachine.Machine.Init` | inet/src/inet/common/Macho.cc:175-187 | history decides where to go on if asked for and recorded, and is cleared |
| `MachoMachine.Machine.RattleOn` | inet/src/inet/common/Macho.cc:339-402 | the machine settles consistently, or stops at an init action that does not lead to a proper substate; it has performed, in order, the pending transition and every transition that an init action, a recorded history or an event handler asked for, each answer used once and in order, and the trace is that of these transitions |
| `MachoMachine.Machine.HandleEvent` | inet/src/inet/common/Macho.cc:393-398 | the pending event is used up, and what its handler asks for is pending |
| `MachoMachine.RequestsArePerformed` | inet/src/inet/common/Macho.cc:343-400 | whatever an init action, a history or an event handler asks for is the very next transition, or is still pending in the end |
| `MachoMachine.StandsAtLast` | inet/src/inet/common/Macho.cc:362-363 | the current state is the target of the last transition performed |
| `MachoMachine.GoesOnce` | inet/src/inet/common/Macho.cc:343-390 | a transition whose init action asks for nothing is all that is done |
| `MachoMachine.Machine.Settle` | inet/src/inet/common/Macho.cc:344-390 | the init loop terminates, since every init action leads deeper; the transitions performed are the pending one and those that init actions and histories ask for |
| `MachoMachine.Machine.Step` | inet/src/inet/common/Macho.cc:344-390 | one transition with its init action: history goes before the state's own answer exactly if it is asked for and recorded |
| `MachoMachine.Machine.Shutdown` | inet/src/inet/common/Macho.cc:268-278 | going to the root leaves every entered state |
| `MachoMachine.Machine.ClearHistoryDeep` | inet/src/inet/common/Macho.cc:299-306 | forgets exactly the histories of the state and the states below it |
| `PatternRelation.AcceptsIffFits` | inet/src/inet/common/PatternMatcher.cc:241-336 | a line is accepted if and only if it can be cut into parts that the elements stand for |
| `PatternRelation.NumberFront` | inet/src/inet/common/PatternMatcher.cc:287-295 | a number range takes the maximal run of digits |
| `PatternRelation.SequenceFront` | inet/src/inet/common/PatternMatcher.cc:297-324 | a sequence takes nothing or one more character |
| `PatternRelation.TrailingSequence` | inet/src/inet/common/PatternMatcher.cc:301-302 | ** at the end accepts every rest |
| `PatternRelation.SequenceLiteral` | inet/src/inet/common/PatternMatcher.cc:303-304 | ** and a literal accept exactly the lines that end in the literal |
| `PatternRelation.FinalLiteral` | inet/src/inet/common/PatternMatcher.cc:348-358 | a line accepted by a pattern with a final literal ends in it |
| `PatternRelation.AnywhereAccepts` | inet/src/inet/common/PatternMatcher.cc:81-89 | without fullstring a pattern accepts exactly the lines in which it fits somewhere, what follows included in the context |
| `PatternRelation.RestMatters` | inet/src/inet/common/PatternMatcher.cc:287-295 | what follows a part matters only to number ranges, and only if it begins with a digit |
| `PatternRelation.RangeAnywhere` | inet/src/inet/common/PatternMatcher.h:67 | without fullstring a number range alone is found in a line if and only if the end of some run of digits lies in its bounds: the run may be cut at its front but not at its end |
| `PatternRelation.OnlyFrontsAreCut` | inet/src/inet/common/PatternMatcher.h:67 | {2..2} is found in "12", {1..1} is not |
| `PatternSyntax.ReadOneWay` | inet/src/inet/common/PatternMatcher.cc:32-93 | a pattern is read in one way only, and one that can be read to its end fails nowhere |
| `PatternQuoting.QuotingMatches` | inet/src/inet/common/PatternMatcher.h:35 | a pattern made from a text with a backslash before each special character, and before any others, matches exactly that text if and only if no bracket of the pattern begins a number range |
| `PatternQuoting.EscapedMatches` | inet/src/inet/common/PatternMatcher.h:35 | with a backslash before each special character and each bracket it matches exactly the text if and only if no bracket of the text begins a number range |
| `PatternQuoting.AllEscapedMatches` | inet/src/inet/common/PatternMatcher.h:35 | with a backslash before every character it matches exactly the text, whatever the text is |
| `PatternQuoting.BracketKeepsMeaning` | inet/src/inet/common/PatternMatcher.cc:131-145 | the input on which this fails: "\\[1..2]" matches "[1]" and not "[1..2]", since the literal ends behind the escaped bracket and the range is read from there |
| `PatternQuoting.QuotedSplit` | inet/src/inet/common/PatternMatcher.cc:131-145 | a quoted text without such a bracket is read as one literal |
| `PatternSyntax.LiteralPiece` | inet/src/inet/common/PatternMatcher.cc:131-145 | a literal piece is not empty, and stays where it began only at a bracket that begins a number range |
| `PatternSyntax.PieceFits` | inet/src/inet/common/PatternMatcher.cc:32-93 | every piece makes progress, except such a bracket directly before its range |
| `PatternMatchers.PatternMatcher.SetPattern` | inet/src/inet/common/PatternMatcher.cc:32-93 | the pattern is cut into pieces that stand for the elements, up to its end or to the place where no element can be read; then ** is added at both ends if asked for |
| `PatternMatchers.PatternMatcher.ParseElement` | inet/src/inet/common/PatternMatcher.cc:39-79 | the element of the next piece, or no piece begins there |
| `PatternMatchers.PatternMatcher.ParseNumRange` | inet/src/inet/common/PatternMatcher.cc:147-174 | succeeds exactly on a number range, with its bounds and end |
| `PatternMatchers.PatternMatcher.ParseSet` | inet/src/inet/common/PatternMatcher.cc:95-129 | a set stands for exactly the characters and ranges between the braces; fails exactly without a closing brace |
| `PatternMatchers.PatternMatcher.ParseLiteral` | inet/src/inet/common/PatternMatcher.cc:131-145 | the literal up to the next special character, with escapes, or to a bracket that begins a number range |
| `PatternMatchers.PatternMatcher.AddSequences` | inet/src/inet/common/PatternMatcher.cc:81-89 | ** at both ends unless it is there |
| `PatternMatchers.PatternMatcher.IsInSet` | inet/src/inet/common/PatternMatcher.cc:228-239 | the character is in one of the ranges |
| `PatternMatchers.PatternMatcher.DoMatch` | inet/src/inet/common/PatternMatcher.cc:241-336 | the backtracking match terminates and is true if and only if the rest of the line is accepted by the rest of the pattern |
| `PatternMatchers.PatternMatcher.MatchSequence` | inet/src/inet/common/PatternMatcher.cc:297-324 | sequence elements, with both shortcuts, give the same answer |
| `PatternMatchers.PatternMatcher.Matches` | inet/src/inet/common/PatternMatcher.cc:338-362 | true if and only if the line is accepted; comparing the last two characters first never changes the answer |
| `PatternMatchers.LastTwoDiffer` | inet/src/inet/common/PatternMatcher.cc:348-358 | a line that differs from the final literal in its last two characters is not accepted |
| `InitStages.StuckHasCircle` | inet/src/inet/common/InitStageRegistry.cc:69-70 | if every waiting stage waits for another, there is a circle of dependencies |
| `InitStages.NoCircle` | inet/src/inet/common/InitStageRegistry.cc:57-71 | a complete numbering and a circle exclude each other |
| `InitStages.ResolveFirst` | inet/src/inet/common/InitStageRegistry.cc:16-22 | a name stands for the first stage that has it |
| `InitStages.LookStep` | inet/src/inet/common/InitStageRegistry.cc:59-68 | the stage that gets the next number is the first free one in list order behind the last numbered, going around |
| `InitStages.TurnsUnique` | inet/src/inet/common/InitStageRegistry.cc:56-71 | giving numbers in turn determines them |
| `InitStages.InitStageRegistry.PrecedingStages` | inet/src/inet/common/InitStageRegistry.cc:50-55 | the edges are those of the dependencies; fails exactly for an unknown name |
| `InitStages.InitStageRegistry.AssignInitStageNumbers` | inet/src/inet/common/InitStageRegistry.cc:42-74 | numbers the stages 0..n-1 so that what precedes has a smaller number and sorts by number, giving each number to the stage whose turn it is; fails if and only if a name is unknown or the dependencies have a circle |
| `InitStages.InitStageRegistry.Renumber` | inet/src/inet/common/InitStageRegistry.cc:42-74 | with unique names, numbering the sorted list again changes no number |
| `InitStages.InitStageRegistry.AssignTwice` | inet/src/inet/common/InitStageRegistry.cc:42-74 | the second call gives the same numbers as the first |
| `InitStages.InitStageRegistry.NumberAndSort` | inet/src/inet/common/InitStageRegistry.cc:56-74 | numbering and sorting succeed if and only if there is no circle |
| `InitStages.InitStageRegistry.NumberAll` | inet/src/inet/common/InitStageRegistry.cc:56-71 | the passes end, and succeed if and only if there is no circle |
| `InitStages.InitStageRegistry.Pass` | inet/src/inet/common/InitStageRegistry.cc:58-68 | one pass numbers each stage whose predecessors are numbered by then; if it numbers none there is a circle |
| `InitStages.InitStageRegistry.SortByNumber` | inet/src/inet/common/InitStageRegistry.cc:72-74 | the stage numbered i comes to place i |
| `MemoryStreams.ByteAppended` | inet/src/inet/common/MemoryOutputStream.h:127-137 | writeByte appends this byte at this position behind this last byte if and only if its two shifts, as written and exchanged, come to the same |
| `MemoryStreams.BytePositions` | inet/src/inet/common/MemoryOutputStream.h:127-137 | writeByte appends every byte correctly if and only if the position is a multiple of four bits |
| `MemoryStreams.AfterByteContents` | inet/src/inet/common/MemoryOutputStream.h:127-137 | at such positions the eight bits are appended and unused bits stay zero |
| `MemoryStreams.MisplacedOne` | inet/src/inet/common/MemoryOutputStream.h:132-135 | at any other position the byte 1 is written wrongly |
| `MemoryStreams.WordPositions` | inet/src/inet/common/MemoryOutputStream.h:207-321 | every sequence of n bytes, so every word, is appended correctly if and only if there is none or the position is a multiple of four bits |
| `BitFields.NarrowField` | inet/src/inet/common/MemoryOutputStream.h:363-371 | up to 31 bits the mask finds exactly the bits of the value, highest first |
| `BitFields.NarrowRead` | inet/src/inet/common/MemoryInputStream.h:471-482 | up to 31 bits the mask puts together the number with these bits |
| `BitFields.WideField` | inet/src/inet/common/MemoryOutputStream.h:363-371 | with 32 bits the mask is negative and widened with its sign: the field is written correctly if and only if its set bits are the lowest ones |
| `BitFields.WideFieldExample` | inet/src/inet/common/MemoryOutputStream.h:363-371 | the field 2 is written as 3 |
| `BitFields.WideOred` | inet/src/inet/common/MemoryInputStream.h:471-482 | and every set bit of a field of 32 bits makes the number read too large for the field |
| `BitFields.WideRoundTrip` | inet/src/inet/common/MemoryInputStream.h:471-482 | of the fields of 32 bits only zero is read as it was written |
| `MemoryStreams.MemoryOutputStream.WriteBit` | inet/src/inet/common/MemoryOutputStream.h:92-101 | appends the bit; data has ceil(length / 8) bytes and unused bits are zero |
| `MemoryStreams.MemoryOutputStream.WriteByte` | inet/src/inet/common/MemoryOutputStream.h:127-137 | the bytes after the call at any position; the bits are appended if and only if the shifts agree, in particular at multiples of four bits |
| `MemoryStreams.MemoryOutputStream.WriteUintBe` | inet/src/inet/common/MemoryOutputStream.h:207-306 | at any position the bytes of the word are written one after another, high byte first; at multiples of four bits this appends the bits of the word |
| `MemoryStreams.MemoryOutputStream.WriteUintLe` | inet/src/inet/common/MemoryOutputStream.h:216-321 | the same, low byte first |
| `MemoryStreams.MemoryOutputStream.WriteNBits` | inet/src/inet/common/MemoryOutputStream.h:363-371 | appends the bits that the mask finds, up to 31 bits the low n bits, highest first; fails exactly for 0 and above 64 |
| `MemoryStreams.MemoryOutputStream.WriteString` | inet/src/inet/common/MemoryOutputStream.h:354-357 | appends the bytes and a zero byte |
| `MemoryStreams.MemoryInputStream.ReadBit` | inet/src/inet/common/MemoryInputStream.h:138-152 | the next bit, or false and beyond the end |
| `MemoryStreams.MemoryInputStream.ReadByte` | inet/src/inet/common/MemoryInputStream.h:184-203 | the next eight bits at any position, or zero and beyond the end |
| `MemoryStreams.MemoryInputStream.ReadUintBe` | inet/src/inet/common/MemoryInputStream.h:289-405 | the word whose bits come next |
| `MemoryStreams.MemoryInputStream.ReadUintLe` | inet/src/inet/common/MemoryInputStream.h:300-419 | the word whose bytes come next, low byte first |
| `MemoryStreams.MemoryInputStream.ReadNBits` | inet/src/inet/common/MemoryInputStream.h:471-482 | the number that the mask puts together from the next n bits, up to 31 bits the number with these bits; fails exactly for 0 and above 64 |
| `MemoryStreams.MemoryInputStream.ReadString` | inet/src/inet/common/MemoryInputStream.h:460-465 | the bytes up to the zero byte, or all whole bytes before the end of the stream, which is then marked as passed |
| `MemoryRoundTrip.Write` | inet/src/inet/common/MemoryOutputStream.h:92-371 | an item appends exactly its encoding |
| `MemoryRoundTrip.Read` | inet/src/inet/common/MemoryInputStream.h:138-482 | an item whose encoding lies ahead is read back |
| `MemoryRoundTrip.RoundTrip` | inet/src/inet/common/MemoryInputStream.h:138-482 | any list of bits, bytes, words, fields and strings is read back in order, with nothing left over |
| `UdpSockets.Unlisted` | inet/tutorials/fingerprint/sources/Udp_extract.cc:886-903 | a socket leaves its port list and both tables still agree, whether an emptied list is erased or stays |
| `UdpSockets.OccupiesOnce` | inet/tutorials/fingerprint/sources/Udp_extract.cc:327-339 | at most one socket is the first with an address under a port |
| `UdpSockets.TakenMeans` | inet/tutorials/fingerprint/sources/Udp_extract.cc:303-339 | an address and port are taken if and only if the first socket under the port that has this address or the unspecified one does not share it with the binding socket |
| `UdpSockets.FullIsUsed` | inet/tutorials/fingerprint/sources/Udp_extract.cc:361-378 | if every port of the range has a socket the search fails; it fails although some port has none if and only if the range is full of entries and one of them is empty |
| `UdpSockets.LeaveEmptyEntry` | inet/tutorials/fingerprint/sources/Udp_extract.cc:311-320 | from empty tables, connecting a socket and binding it to a port leaves an empty entry at its ephemeral port |
| `UdpSockets.FailWithUnusedPort` | inet/tutorials/fingerprint/sources/Udp_extract.cc:361-378 | from there the search comes to fail although that port has no socket |
| `UdpSockets.UdpTables.GetEphemeralPort` | inet/tutorials/fingerprint/sources/Udp_extract.cc:361-378 | the next port of the range without an entry; fails if and only if every port of the range has one |
| `UdpSockets.UdpTables.CreateSocket` | inet/tutorials/fingerprint/sources/Udp_extract.cc:341-359 | the new socket is in both tables, last under its port; nothing else changes |
| `UdpSockets.UdpTables.GetOrCreateSocket` | inet/tutorials/fingerprint/sources/Udp_extract.cc:395-406 | the known socket, or a new one with an ephemeral port |
| `UdpSockets.UdpTables.FindFirstSocketByLocalAddress` | inet/tutorials/fingerprint/sources/Udp_extract.cc:327-339 | the first socket under the port, cut to 16 bits, with the address or without one |
| `UdpSockets.UdpTables.Bind` | inet/tutorials/fingerprint/sources/Udp_extract.cc:292-325 | fails if and only if the arguments are bad, the address and port are taken, the socket is bound, or no port is free; otherwise both tables agree on the bound socket and others are unchanged, and unless the socket may share addresses none under the port had this address or the unspecified one |
| `UdpSockets.UdpTables.Rebind` | inet/tutorials/fingerprint/sources/Udp_extract.cc:311-320 | an existing socket moves to the new port in both tables |
| `UdpSockets.UdpTables.Connect` | inet/tutorials/fingerprint/sources/Udp_extract.cc:380-393 | fails if and only if the arguments are bad or no port is free; only the remote side of the socket changes |
| `UdpSockets.UdpTables.SetReuseAddress` | inet/tutorials/fingerprint/sources/Udp_extract.cc:442-445 | only that flag of the socket changes |
| `UdpSockets.UdpTables.Close` | inet/tutorials/fingerprint/sources/Udp_extract.cc:872-903 | the socket is in neither table, an emptied list is erased, all others are as before |

## Left out

Protocol and medium access:

- OMNeT++ modules, gates, signals, display strings, logging, memory management, configuration.
- Energy, mobility, propagation and delay formulas; a step may happen at any time, except that the
  tree timer does not fire before the firmware check that was armed with it.
- Keys and message authentication: rings are arbitrary lists of key ids, the authentication check
  always succeeds as in the code, and messages are not forged. Lost, delayed and reordered messages
  are modelled.
- Several rounds: startAttestation neither cancels update timers nor resets the running sizes, so
  the theorems are about one round from arbitrary starting counters and sizes.
- Joining, revocation, offline devices, synchronization, the TREE configuration with its gate count,
  RUNTIME_TEST. Devices are the wireless ones, with update timers. A crash is the end of a run for
  that device.
- Random tree ids and the set of devices in range are inputs of a step; device and tree ids are
  unbounded numbers.
- The collector keeps no message contents beyond the count; which collector is closest is not
  modelled.
- MediumAccess.Transceiver.HandlePostponeUp: follows the configuration that retries the held update; without
  ENERGY_TEST the handler does nothing and the update stays held.
- MediumAccess.ProverTrafficIsNotLost: the crash of a device, which drops what it queued, is not modelled.
- CarrierSense.IsChannelBusy: far is not negative; the variant for far = -1 looks at one hop only and is left out.

Interval tree and topology:

- Nodes, links and intervals are ids and values in maps instead of heap objects; freed memory is
  not modelled beyond the id leaving the map. Two intervals with equal ends and value are the same.
- Left and right variants of a case are one method with a side.
- getMaximum, getPredecessor, printing and destructors.
- IntervalTrees.IntervalTree.Query: completeness is stated for stored intervals whose low end is not above their
  high end.
- Topology weights and distances are exact numbers or infinity, not doubles. Gate ids, extraction from a
  simulation, findNetworks, and addLink between gates, which throws after unlinking.
- Topologies.Topology.WeightedSearch: link weights are positive and node weights not negative, as the code asserts.
- Topologies.Topology.AddLink: weight and enabled flag of a link that is in the graph already are passed again unchanged.

Int128 and Macho:

- Int128s.Int128.Div: a divisor equal to the smallest value is excluded, because the loops then do not end (Int128Division.DivisionEnds).
- Int128s.Int128.DivAssign: the same divisor is excluded.
- Int128s.Int128.ModAssign: the same divisor is excluded.
- Int128s.Divide: the same divisor is excluded.
- Floating-point conversions and increments of Int128. Bit operations on words are arithmetic
  functions on numbers, related to shifts and powers of two.
- Macho event payloads, boxes' contents, the deprecated pending box, snapshots, templates, aliases. What init
  actions and event handlers request is given as lists, so all behaviours are covered.

Patterns, stages, streams, sockets:

- Case-insensitive patterns, patternPrefixMatches, overflow of atol.
- PatternMatchers.PatternMatcher.SetPattern: a backslash at the very end is reported as an error; the code reads
  past the end of the string there.
- The list of following stages, which nothing in the numbering reads. std::sort is placing by number.
- InitStages.InitStageRegistry.Renumber: stated for stages with unique names.
- MemoryStreams.MemoryOutputStream.WriteByte: at positions that are not a multiple of four bits the contract gives the bytes
  but no appended bits, since the code does not append the byte there; the same holds for words.
- MemoryStreams.MemoryOutputStream.WriteString: only at byte boundaries, which writing byte vectors asserts.
- MemoryStreams.MemoryOutputStream.WriteNBits: fields of 33 to 64 bits are left out, because shifting an int of 32 bits
  that far is undefined.
- MemoryStreams.MemoryInputStream.ReadNBits: the same widths are left out.
- MemoryRoundTrip.Write: bytes and words begin at a multiple of four bits, strings at a byte.
- MemoryRoundTrip.RoundTrip: bytes and words begin at a multiple of four bits, strings at a byte, fields have at
  most 31 bits.
- The fixed widths of 16 to 64 bits are one loop over the number of bytes; the 2 and 4 bit writers are fields.
  Repeated writes, copying of data and address types are left out.
- UDP packets, checksums, multicast, ICMP, other socket options. Addresses are numbers.
- In the socket tables a bind to port -1 looks for an occupied port 65535, and a rebind leaves an
  empty list behind that blocks the port for ephemeral use; both are kept as they are.
