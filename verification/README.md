# A verified model of analyseTCP's byte-range index

analyseTCP reads a sender's and a receiver's packet trace of a TCP connection and reports, for every
byte, how often it was sent, whether and when it was acknowledged, and how often it arrived. Its core
is an ordered map from start sequence numbers to mutable byte ranges. Sent segments, acknowledgements
and received segments split, extend and walk that map in place. The reported byte and packet totals are sums over it.

The project models that core in two layers and ties them together.

* **Objects.** `ByteRangeObjects.ByteRange`, `RangeManagers.RangeManager` and `Connections.Connection`
  are classes with the source's fields and loops. The map holds `ByteRange` objects that are updated in
  place; the recursion of `insertByteRange` and the walk of `processAck` run on them.
* **Values.** `ByteRanges`, `Index`, `Acks` and `Registration` state the same operations on immutable
  values. Every method of the classes promises the outcome and the new state of its value counterpart.
* **Theorems.** `ByteView` reads the map one byte at a time. `Insertion`, `SendTheorems`, `AckRun`,
  `ReceiveRun`, `WholeRun` and `RunTheorems` prove that whole runs refine a byte counter that is defined on
  the trace alone. `Accounting`, `Report` and `LossRun` turn that into conservation laws for the reported
  sums. `Edges`, `Bundling`, `Counters` and `Losses` tell from the packets where entries start, what bundles
  do to the counters, how every packet is counted, and which losses are left. `Recursion` tells exactly how an
  insertion can end early. `AckStates`, `OldAcks` and `AckCounts` treat acknowledgements in any order,
  `FirstTimes`, `Stretch`, `Transmissions` and `ReceiveTimes` tell more of the final map from the trace, and
  `Gaps` and `Witnesses` hold the runs on which the code goes wrong.

The main result is the contract of `Connections.AnalyseTrace`: for every gap-free sender trace,
non-decreasing acknowledgements and receptions of sent bytes, in any order and number, the map of
objects left by the tool counts for every byte the packets of the trace that carried it, and the bytes
sent, unique and lost, the packets sent and received and the verdict of the validator are told from the trace.
The redundant bytes are, too, if nothing cuts bytes that a bundle repeated (`Bundling.Uncut`), as on every run
without bundling. If no acknowledgement is older than what it covers, the map also holds for every byte the
time of the first acknowledgement above it, and on such uncut runs the verdict of the redundancy check is told
from the trace. Two things can stop such a run. The recursion guard can, but not when no packet carries more
than 1502 bytes. An assertion can fail in the receive phase, but not when every reception carries a nonzero
TCP time stamp and none ends at the first sequence number plus one, modulo 2^32;
`RunTheorems.RunDiesExactly` says exactly when one fails.

## How to read the model

* A run has the three phases of the tool: all sends and the validation, all acknowledgements and a second
  validation, all receptions.
* `SendRun.GapFreeStep` defines a gap-free sender trace. Data starts at or below the next expected number
  and carries 1 to 65534 bytes; a SYN is repeated only before data, a FIN only at its own number; pure ACKs
  sit at the next number or one past the FIN; RST packets do not occur.
* `AckRun.InTime` says that an acknowledgement is not older than the first recorded transmission of the
  entries it reaches. This is the comparison `processAck` makes. `FirstTimes.Punctual` gives a condition on
  the packets and acknowledgements alone that implies it. Only the acknowledgement times depend on it.
* Sequence numbers are unbounded integers relative to the first number of the connection, except in
  `SequenceNumbers`, where 32-bit and 64-bit wrap-around is written out. The reports write out unsigned
  64-bit wrap-around where they subtract.
* A failed `assert` of the source ends a call with `AssertionFails`, the exception of the recursion guard
  with `LogicError`. A build that drops assertions goes on in the first case; no theorem relies on what it does then.
* The constructor of an entry does not set `received_tstamp_pcap`; the model starts it at zero. Where the
  model says `NO_TIME` for the receive time of received bytes, the source reads memory nothing has written.

## What the proofs found

These are properties that fail in the code as it stands. Each has an exact condition, a concrete run, or both.

* The end check of the validator subtracts from an unsigned zero: it accepts every reachable state if and
  only if the next expected number is not 0 (`Report.ValidatorAcceptsExactly`, `Witnesses.AckOnlyRejected`).
* The discontinuity test never compares the first entry with its neighbour, so a gap behind the first entry goes
  unnoticed (`Report.DiscontinuityExactly`, `Witnesses.GapUnnoticed`).
* The redundancy check reports a mismatch on uncut runs if and only if the first entry is the only one
  with data, because `getNumUniqueBytes` never looks at the first entry from behind. On the trace: no SYN,
  every data packet sent or received is the whole data, and no acknowledgement ends inside
  (`Report.MismatchExactly`, `Stretch.SingleExactly`, `Witnesses.OneSegmentMismatch`).
* An acknowledgement that ends strictly inside the saved, acknowledged entry overwrites its first
  acknowledgement time; in any order, no other one changes a time (`OldAcks.TimesSurviveRun`,
  `Witnesses.LateAckOverwrites`).
* The search for a FIN has no guard at the front of the map. `processAck` leaves the map if and only if the
  acknowledgement equals the start of the saved entry, that entry holds bytes, the entry before it ends one
  lower, and nothing stops the search from there (`AckRun.ProcessLeavesExactly`). A late acknowledgement of a
  retransmitted SYN does that (`Witnesses.LateSynAckLeaves`); acknowledgements that do not decrease never do
  (`AckRun.AcksNeverRunOff`).
* A reception fails an assertion if and only if it gets as far as an entry that makes it fail: the segment
  ends, but not with the entry, at the first sequence number plus one (RangeManager.cc:728-733), or it
  reaches beyond the entry and the TCP stamp recorded there is 0 (RangeManager.cc:845). A connection
  without TCP time stamps can fail it (`Recursion.EndsExactly`, `RunTheorems.RunDiesExactly`, `Witnesses.ReceptionAborts`).
* The recursion guard is reachable without gaps: 1503 packets of one byte and one retransmission of all of
  them (`Witnesses.GuardStops`). It stops an insertion if and only if too many boundaries lie inside the
  segment and no assertion fails first (`Recursion.EndsExactly`).
* A bundle is counted as two packets if and only if a pure ACK had left an entry at the end of the data and none
  started one byte before: `packet_sent_count` grows on the entry that takes the new bytes, too
  (`Bundling.PacketsOfRun`, `Edges.TailHeld`, `Witnesses.BundleCountedTwice`).
* The redundant bytes are wrong where a bundle starts within an entry, whose rest is then counted twice, and where
  a later cut drops the bundle count of the part behind it. `Bundling.InsertRedundant` says exactly what each
  insertion adds (`Bundling.PacketAdds`, `Witnesses.BundleInside`, `Witnesses.BundleForgotten`).
* The FIN of a data packet is marked on the entry that the packet starts, even if that is not the one it ends,
  and not at all where an entry without bytes takes its bytes (`Counters.PacketMarks`).
* A received packet without payload makes an entry where none is, and that entry counts it as sent and not as
  received (`Counters.ControlReceived`).
* An entry that was cut off lists no losses, so a loss of its bytes before the cut is reported for the part in
  front of it only (`Losses.InsertLists`, `Losses.RunLosses`).
* The receive difference is taken to the transmission at a stored index. `matchReceivedType` finds the index
  among the regular stamps, stores it in eight bits, and stores none for a stamp that only a bundled
  transmission carried; `calculateRecvDiff` uses it on the list of all transmissions. It names the transmission
  that carried the stamp if and only if that one is among the first 256 and neither it nor an earlier one was
  bundled (`Transmissions.StoredIndexIsRightExactly`, `Transmissions.RunIndexRight`, `Witnesses.BundleMisleads`,
  `Witnesses.BundleMissed`, `Witnesses.IndexTooLarge`).
* `splitEnd` copies the received count and not the receive time. The entry of a byte keeps the time of the
  byte's first reception if and only if no later reception starts or ends, at or before the byte, inside the
  entry that held it then; otherwise the split entry has no time and `calculateRecvDiff` reads what was never
  set (`ReceiveTimes.RunReceiveTimes`, `Witnesses.TimeDropped`).
* `insertReceivedRange` does not copy `in_sequence`, so no entry is ever marked as received in order,
  although `registerRecvd` computes the mark (`RunTheorems.RunEntries`).
* The wire number 2^32 - 1 is placed one wrap too high (`SequenceNumbers.LastNumberIsOffByOneWrap`).
* In a gap `lastSeq` stays behind and segments can be recorded twice. A completed sent insertion leaves the
  entries disjoint if and only if it creates no entry, or no entry reaches into the bytes the created one
  takes (`Gaps.DisjointExactly`, `Gaps.GapOverlaps`, `Gaps.GapBelow`).

## Model

| member | source | states |
|---|---|---|
| Connections.AnalyseTrace | analyseTCP.cc:542-555 | The tool on objects for one connection: it throws only when the recursion guard stops the run, never for payloads up to 1502 bytes, and fails an assertion only when the run on values does, never if all receptions carry a TCP stamp and none ends at the first number plus one; otherwise every byte is counted as the trace says, on timely acknowledgements with its first acknowledgement time, and `Figures` is told from the trace as `FiguresOf` says |
| Connections.RunPhases | Dump.cc:209-297 | The three phases and the two validations on objects end like the run on values and leave the same map; both validations accept if and only if the next expected number is not 0 |
| Connections.SendAndValidate | Dump.cc:209-236 | A gap-free send phase on objects never fails an assertion, and the validation after it accepts if and only if the next expected number is not 0 |
| Connections.Summarise | RangeManager.cc:1660-1722 | Six of the totals are the sums over all entries, lost bytes modulo 2^64, together with the verdict of the redundancy check; what these sums are is told from the trace by `RunTheorems.RunReports` |
| RunTheorems.RunReports | Connection.cc:423-467 | The summary of a completed run is a function of the trace: bytes sent, unique and lost, packets sent and received, and on uncut runs the redundant bytes and when the redundancy check fires |
| RunTheorems.AckVerdict | RangeManager.cc:969-1182 | After a gap-free send phase, ordered acknowledgements always complete, whatever their times |
| RunTheorems.ReceiveVerdict | RangeManager.cc:167-189 | The receive phase fails an assertion if and only if one of its receptions does on the map it meets, never if all are receivable; the guard stops none with small payloads |
| Connections.Connection.constructor | Connection.h:57-72 | Initial marks and totals, over an empty index |
| Connections.Connection.RegisterSent | Connection.cc:145-282 | The classified segment and all totals and marks are those of `Register`; what these are is told from the trace by `Registration.TotalsClassify` and `Registration.MarksFollow` |
| Connections.Connection.CountNew | Connection.cc:226-251 | The three bundling branches and the branch for wholly new data, with what each adds |
| Connections.Connection.Send | Dump.cc:437-438 | One outgoing packet through the objects is one step of the run on values, with the same outcome |
| Connections.Connection.SendAllPackets | Dump.cc:209-221 | The send loop over objects, with or without gaps, ends in the state and with the outcome of the send phase on values |
| Connections.Connection.RegisterAck | Dump.cc:496-508 | One acknowledgement through the objects is one step of the acknowledgement phase on values, and moves both marks when it succeeds |
| Connections.Connection.AckAllPackets | Dump.cc:272-284 | The acknowledgement loop over objects ends in the map and saved iterator of the phase on values, and leaves the mark at the last acknowledgement that succeeded |
| Connections.Connection.RegisterRecvd | Connection.cc:496-506 | One reception through the objects, with or without payload, is one step of the receive phase on values, and moves the receive marks to its end |
| Connections.Connection.ReceiveAllPackets | analyseTCP.cc:545-547 | The receive loop over objects ends in the map and with the outcome of the receive phase on values |
| Connections.Connection.GetNumUniqueBytes | Connection.cc:514-537 | Over all entries, the two loops find the start of the first data entry and the end of the last one behind the first entry; the result is their unsigned difference |
| Connections.Connection.RedundancyCheck | Connection.cc:452 | The comparison, in unsigned 64-bit arithmetic, is `RedundancyMismatch` of the map |
| RangeManagers.RangeManager.constructor | RangeManager.h:63-84 | An empty index with all totals at zero |
| RangeManagers.RangeManager.InsertByteRange | RangeManager.cc:195-964 | The recursive insertion over objects ends like the insertion on values and, when it returns, leaves the same map; new entries are new objects and no two entries share one |
| RangeManagers.RangeManager.InsertMissing | RangeManager.cc:279-616 | The arms for a position at which no entry starts agree with the step on values |
| RangeManagers.RangeManager.CutOut | RangeManager.cc:380-523 | Cutting the segment out of the entry that holds it, by one or two splits in place |
| RangeManagers.RangeManager.FindContainer | RangeManager.cc:355-380 | The iterator search finds the entry that holds the position if there is one; its assertion fails if and only if no entry starts at or before the segment's end |
| RangeManagers.RangeManager.InsertFound | RangeManager.cc:724-961 | The arms for a position at which an entry starts agree with the step on values |
| RangeManagers.RangeManager.TakeOver | RangeManager.cc:755-796 | An empty entry takes the bytes up to the next entry |
| RangeManagers.RangeManager.GapEnd | RangeManager.cc:756-795 | Where those bytes end; the arm without a gap cannot be reached |
| RangeManagers.RangeManager.InsertControl | RangeManager.cc:254-353 | Segments without payload: which entry counts them, and how |
| RangeManagers.RangeManager.CountControl | RangeManager.cc:676-705 | How SYN, FIN, RST and pure ACKs count on an existing entry |
| RangeManagers.RangeManager.InsertSentRange | RangeManager.cc:65-165 | The insertion, and how `lastSeq` moves |
| RangeManagers.RangeManager.InsertReceivedRange | RangeManager.cc:167-189 | The insertion of the copied segment, without its in-sequence mark |
| RangeManagers.RangeManager.ProcessAck | RangeManager.cc:969-1182 | The walk over objects gives the map, saved iterator and result of the walk on values |
| RangeManagers.RangeManager.AckEntry | RangeManager.cc:1012-1116 | One round of the walk: exact, beyond, inside or before the entry |
| RangeManagers.RangeManager.SearchFinBack | RangeManager.cc:1129-1137 | The backward search for a FIN |
| RangeManagers.RangeManager.FindOldAck | RangeManager.cc:1141-1157 | The backward search for the entry an old acknowledgement ends at |
| RangeManagers.RangeManager.ValidateContent | RangeManager.cc:1317-1409 | Accepts if and only if the map starts at 0, ends within one of `lastSeq`, the totals balance and no two data entries are discontinuous |
| RangeManagers.RangeManager.NoneBroken | RangeManager.cc:1357-1409 | The loop with its lagging `prev` finds a discontinuity if and only if some entry has one |
| RangeManagers.RangeManager.CalculateRealLoss | RangeManager.cc:1602-1722 | Over any window of entries, the totals are the sums over exactly these entries; `Bundling.FinalCounters` says what the packet and redundancy sums come to |
| ByteRangeObjects.ByteRange.IncreaseSent | ByteRange.h:114-139 | What one transmission changes, and nothing else |
| ByteRangeObjects.ByteRange.IncreaseReceived | ByteRange.h:94-112 | What one reception changes; the first listed loss with its stamp, and no other, is dropped (`Losses.EraseFirstExactly`) |
| ByteRangeObjects.ByteRange.SplitEnd | ByteRange.h:147-168 | The object keeps what lies before the cut, a fresh one takes the rest with per-byte facts copied and per-packet facts reset |
| ByteRangeObjects.ByteRange.StretchTo | RangeManager.cc:759-761 | An empty entry takes bytes: new end, byte count and payload size |
| ByteRangeObjects.ByteRange.InsertAckTime | ByteRange.h:185 | Marks the entry acknowledged at the given time |
| ByteRangeObjects.ByteRange.MatchReceivedType | ByteRange.cc:6-47 | Finds the first regular, else the first bundled stamp that equals the received one; the stored index is within the transmissions |
| ByteRangeObjects.ByteRange.CalculateRecvDiff | ByteRange.cc:247-262 | The exact signed difference to the transmission at the stored index in milliseconds, truncated toward zero |
| Transmissions.StoredIndexIsRightExactly | ByteRange.cc:6-47 | The stored index names the transmission that carried the received stamp, the first regular or else the first bundled one with it, if and only if that one is among the first 256 and neither it nor one before it was bundled |
| Transmissions.RunLogged | ByteRange.h:114-139 | Every entry of a finished run holds a history of packets of the trace, in the order of the trace; the data packets in it carried all its bytes, and the first one is not bundled |
| Transmissions.RunIndexRight | ByteRange.cc:247-262 | So the stored index of every entry is right in exactly these cases; without bundling, exactly for the first 256 transmissions |
| Witnesses.BundleMisleads | ByteRange.cc:254 | Three packets and one reception after which the index names the bundle instead of the retransmission that arrived |
| Witnesses.BundleMissed | ByteRange.cc:31-41 | Two packets, the second a bundle that arrives: its stamp sets no index, and the stored 0 names the first packet |
| Witnesses.IndexTooLarge | ByteRange.cc:13-16 | The 257th transmission of ten bytes arrives: its index does not fit, and the stored 0 names the first one |
| ReceiveTimes.RunReceiveTimes | ByteRange.h:94-168 | At the end of every run the entry of a received byte holds the time of the byte's first reception if and only if it still starts where it did then, which is so if and only if no later reception starts or ends in between; otherwise it holds none |
| Witnesses.TimeDropped | ByteRange.h:147-168 | Two receptions after which an entry was received once and has no receive time |
| ByteRangeObjects.StampIndexIsFirst | ByteRange.cc:13-31 | The index found is the first one with the stamp, and none is found only if there is none |
| Insertion.StepOld | RangeManager.cc:360-961 | Every arm that meets existing bytes is the same: cut the segment's part out, count on it, go on behind it, unless the guard or an assertion stops it; the assertion fails exactly in the case of `FailsAt` |
| Insertion.StepNew | RangeManager.cc:573-616 | New data becomes a new entry or is taken by an empty last entry |
| Insertion.InsertSegment | RangeManager.cc:195-964 | A completed sent or received insertion of any recursion depth counts once on exactly the segment's bytes, leaves all other bytes and empty entries alone, keeps entries disjoint and old boundaries, and makes both ends boundaries; a sent one fails no assertion |
| Index.StepProgress | RangeManager.cc:755-864 | Every recursive call shrinks the segment; only a reception on an entry without bytes stands still |
| Recursion.EndsExactly | RangeManager.cc:726-864 | An insertion fails an assertion if and only if it gets as far as an entry that makes it fail; otherwise the guard stops it if and only if more boundaries lie inside the segment than it allows, and else it completes |
| Recursion.SmallNeverTrips | RangeManager.cc:853-856 | No segment of at most 1502 bytes trips the guard |
| Witnesses.GuardStops | RangeManager.cc:853-856 | 1503 packets of one byte and their common retransmission trip it, on a run without gaps |
| ByteView.SplitByte | ByteRange.h:147-168 | Splitting an entry changes what the map says of no byte |
| ByteView.CarveByte | RangeManager.cc:404-471 | Neither does cutting a segment out of an entry |
| Accounting.InsertTotal | RangeManager.cc:195-964 | How any additive sum over the entries changes by an insertion of any depth |
| Accounting.QuantitiesAdditive | RangeManager.cc:1680-1717 | Byte and packet sums survive every split |
| SendRun.DataKeeps | RangeManager.cc:65-165 | A gap-free data packet keeps the invariant of the send phase and counts once on its bytes |
| SendRun.ControlKeeps | RangeManager.cc:254-353 | A gap-free packet without payload keeps it too and changes no byte |
| SendTheorems.SendRefinesCounter | RangeManager.cc:65-165 | After any gap-free trace the map holds exactly the trace's bytes and counts, for each, the packets that carried it; no assertion fails |
| SendTheorems.SendConserves | Connection.cc:145-282 | The sums over the index equal the totals the connection kept: bytes sent and new bytes |
| SendTheorems.SendEntriesSound | ByteRange.h:114-168 | In every entry losses are among the transmissions, the stamp lists are aligned, and the packet index points at the last transmission counted as a packet |
| SendTheorems.OnePacketOneCount | RangeManager.cc:1714 | Without bundling the packet counters add up to the packets registered, and every entry's counters agree |
| Edges.SentEdges | RangeManager.cc:360-864 | After any gap-free trace, entries within the data start exactly where a data packet starts or ends |
| Edges.TailHeld | RangeManager.cc:302-353 | Before a FIN, an entry starts at the end of the data if and only if a pure ACK came there when no data packet had an edge one byte before |
| Bundling.DataPacketsCounted | RangeManager.cc:573-796 | A data packet adds one to the packets that the entries count; a bundle adds another one if and only if an entry without bytes takes its new bytes |
| Bundling.PacketsOfRun | RangeManager.cc:1714 | After any gap-free trace the packet counters add up to the packets of the trace and those bundles, which the trace alone tells |
| Witnesses.BundleCountedTwice | RangeManager.cc:755-796 | Three packets that count as four |
| Bundling.InsertRedundant | RangeManager.cc:404-515 | Exactly how an insertion of any depth changes the redundant bytes: its old bytes, the part that a bundle counts twice, less the bundle counts that its cuts drop |
| Bundling.PacketAdds | RangeManager.cc:1661 | The same for every data packet of a gap-free run; a bundle that starts an entry adds exactly its overlap with the data before |
| Bundling.SentRedundant | RangeManager.cc:1661 | After a gap-free send phase that cuts no bundled bytes, each transmission of an entry but the first was counted once as a retransmission or a bundle, and the redundant bytes are payload minus span |
| Bundling.FinalCounters | RangeManager.cc:1661-1714 | At the end of every run the packets are those; on uncut runs the redundant bytes are payload minus span and the redundancy check fires if and only if only the first entry holds data |
| Bundling.UnbundledIsUncut | Connection.cc:226-248 | A run without bundles is uncut and counts no packet twice |
| Witnesses.BundleInside | RangeManager.cc:477-482 | Twenty bytes and a bundle of their last ten: twenty count as redundant, ten were sent again |
| Witnesses.BundleForgotten | ByteRange.h:147-168 | A bundle and a retransmission that cuts its entry: ten bytes count as redundant, fifteen were sent again |
| Counters.SendsCount | RangeManager.cc:1680-1714 | After any gap-free trace the entries count every pure ACK; without bundles, SYN and FIN they count the retransmissions as such, all other data packets as first packets, and their payload as new |
| Counters.PacketMarks | RangeManager.cc:797-935 | Exactly what a data packet adds to the first packets, the retransmissions and the FIN marks, bundles included |
| Counters.ControlMarks | RangeManager.cc:304-350 | Exactly what a SYN or a FIN without payload adds to them |
| Counters.MarksOfRun | RangeManager.cc:304-350 | After any gap-free trace every SYN is marked once, and every FIN if none comes with data |
| Counters.BundleMakes | RangeManager.cc:573-616 | The entry that a bundle makes for its new bytes has the packet's whole payload and is not counted as a packet |
| Counters.RunCounters | RangeManager.cc:1680-1714 | All these counts at the end of every run; the entries made by bundles are the bundles less those counted twice |
| Counters.ControlReceived | RangeManager.cc:296-353 | A received packet without payload counts as received where an entry is, as a reception of it with SYN or FIN; where none is it counts as sent |
| Counters.RstMarks | RangeManager.cc:684-705 | An RST counts as a first packet, is marked once, is no transmission of an entry that is there, and does not move the next expected number |
| Registration.BundleIsOverlap | Connection.cc:226-248 | The three bundling tests together hold if and only if the segment overlaps the highest end seen, and what they subtract is positive |
| Registration.RegisterBalances | Connection.cc:203-280 | One registration keeps the marks ordered, adds the payload to the total, and counts as new exactly the bytes above the highest end |
| Registration.TotalsBalance | RangeManager.cc:1348-1355 | On every trace, gaps included, total bytes are new plus bundled plus retransmitted bytes |
| Registration.TotalsClassify | Connection.cc:203-280 | On every trace, gaps included, the retransmitted bytes are the payload of the packets at or below the highest end, the bundled bytes the overlaps of those that reach across it, and the counts of retransmissions, bundles and data packets are theirs |
| Registration.MarksFollow | Connection.cc:252-275 | The start mark is that of the last data packet, the absolute mark the end of the last packet with new data |
| Acks.AckRefines | RangeManager.cc:969-1182 | One acknowledgement marks exactly the unmarked bytes below it with its time, and leaves a sound starting point |
| AckRun.AcksRefineFirstTimes | RangeManager.cc:969-1182 | A byte is acknowledged if and only if it lies below the largest acknowledgement, at the time of the first one above it |
| AckRun.ProcessLeavesExactly | RangeManager.cc:1116-1138 | On a map without gaps, any acknowledgement leaves the map if and only if it equals the start of the saved entry, that entry holds bytes, the entry before ends one lower, and nothing stops the search from there |
| AckRun.RunLeavesExactly | RangeManager.cc:1116-1138 | The same after any run of acknowledgements in any order |
| AckRun.SearchLeavesExactly | RangeManager.cc:1129-1137 | The inner search leaves the map if and only if no entry on its way carries a FIN or equal counters |
| AckRun.AcksNeverRunOff | RangeManager.cc:1116-1138 | Acknowledgements that do not decrease never leave the map, whatever their times |
| AckStates.AckSteady | RangeManager.cc:969-1182 | Any acknowledgement, late or early, leaves the acknowledged bytes below some mark and a saved entry that fits it |
| AckRun.AcksSteady | RangeManager.cc:969-1182 | So does any run of acknowledgements |
| AckRun.AcksKeepRest | RangeManager.cc:1094-1107 | Acknowledgements in any order and at any times change no sum, no coverage and no counter of any byte, in spite of their splits |
| OldAcks.TimesSurviveExactly | RangeManager.cc:1094-1107 | In every such state, recorded times survive an acknowledgement if and only if it does not end strictly inside the saved, acknowledged entry with another time |
| OldAcks.TimesSurviveRun | RangeManager.cc:1094-1107 | Over any run of acknowledgements in any order, a call keeps all recorded times if and only if it does not overwrite in that sense; if none does, every recorded time is there at the end |
| AckCounts.DuplicatesExactly | RangeManager.cc:1042-1056 | In every state an acknowledgement counts as a duplicate if and only if it ends at the saved, acknowledged entry with the same, open window; it counts on at most one entry, and on one if the walk lands |
| AckCounts.SecondRepeats | RangeManager.cc:1042-1056 | Of two acknowledgements of the saved entry the second is a duplicate if and only if its window is that of the first and open |
| AckCounts.LandsWithWindow | RangeManager.cc:1012-1107 | Where the walk lands, the call answers true and leaves the window of the acknowledgement |
| Counters.RunDuplicates | RangeManager.cc:1042-1056 | At the end of every run there is one duplicate for each acknowledgement that repeated the one before |
| AckCounts.AnswerIsNotMarked | RangeManager.cc:1022-1037 | An entry of a pure ACK is marked by an acknowledgement of its number if and only if it does not echo that acknowledgement's stamp |
| AckCounts.OldAckExactly | RangeManager.cc:1141-1157 | The backward search finds the last entry that ends at or below an old acknowledgement and counts it there if it ends with it; it answers false if and only if there is none |
| AckCounts.SearchFinExactly | RangeManager.cc:1129-1137 | The search for a FIN ends at the last entry with a FIN or with equal counters |
| AckCounts.OldAcknowledged | RangeManager.cc:969-1157 | What an acknowledgement at or below the start of the saved entry does, case by case: nothing, one count on the entry that ends there or on the FIN found, and what is answered |
| Witnesses.LateAckOverwrites | RangeManager.cc:1094-1107 | One packet sent and two acknowledgements after which a first acknowledgement time has changed |
| Witnesses.LateSynAckLeaves | RangeManager.cc:1129-1137 | A SYN sent twice, data, its acknowledgement and a late one of the SYN: the search leaves the map |
| ReceiveRun.ReceiveRefines | RangeManager.cc:726-961 | A completed reception counts once on exactly its bytes, whatever came before; it fails an assertion if and only if it gets as far as an entry that makes it fail |
| ReceiveRun.ReceptionsCounted | RangeManager.cc:167-189 | After any completed receptions in any order every byte is counted as often as it arrived, and the sums follow |
| Losses.EraseFirstExactly | ByteRange.h:103-111 | Exactly the first loss with the stamp is taken off the list, and none if there is none |
| Losses.InsertLists | ByteRange.h:94-168 | A completed insertion changes the loss list of every entry that starts in the segment, once, and no other; an entry that was cut off starts with none |
| Losses.ReceptionErases | ByteRange.h:103-111 | A reception takes the first loss with its stamp off every entry that starts in it, and leaves all other lists alone |
| Losses.SentLists | ByteRange.h:137-138 | After any gap-free trace of data packets an entry lists the transmissions of its first byte since there was an edge |
| Losses.RunLosses | RangeManager.cc:2059-2086 | At the end of every run of data packets the losses of an entry are those transmissions less the stamps that arrived; if every packet arrived, in any order, no loss is listed and no bucket of the report holds one |
| ReceiveRun.DiesExactly | RangeManager.cc:724-850 | The receive phase fails an assertion if and only if one of its receptions does on the map before it |
| ReceiveRun.ReceptionsSurvive | RangeManager.cc:724-850 | It never does if every reception carries a TCP stamp and none ends at the first number plus one |
| Witnesses.ReceptionAborts | RangeManager.cc:724-850 | Two packets arrive as one segment without a TCP stamp, or with that end: an assertion fails |
| Report.LossIsDifference | RangeManager.cc:1719-1722 | Lost bytes are sent minus received bytes, in total |
| Report.RedundantIsDifference | RangeManager.cc:1661 | Where each transmission but the first was counted as a retransmission or as a bundle, redundant bytes are sent minus unique bytes |
| Report.UniqueBytesFound | Connection.cc:514-537 | `getNumUniqueBytes` is the span of the data, except when only the first entry holds data, where it is 0 |
| Report.MismatchExactly | Connection.cc:452-467 | There the redundancy check fires if and only if only the first entry holds data |
| Stretch.SingleExactly | Connection.cc:514-537 | For ordered, timely acknowledgements: only the first entry holds data if and only if the trace has no SYN, every data packet sent or received is the whole data, and no acknowledgement ends inside |
| Witnesses.OneSegmentMismatch | Connection.cc:452-467 | One data packet without SYN makes the check fire |
| Report.ValidatorAcceptsExactly | RangeManager.cc:1317-1409 | The validator accepts a reachable state if and only if the next expected number is not 0 |
| Report.DiscontinuityExactly | RangeManager.cc:1357-1409 | On any map the discontinuity test passes if and only if every two neighbours with data join, the first entry and its neighbour left out |
| Witnesses.GapUnnoticed | RangeManager.cc:1357-1364 | Two packets with a gap between them on which it finds nothing |
| Witnesses.AckOnlyRejected | RangeManager.cc:1342-1346 | One pure ACK makes it complain |
| RunTheorems.RunCompletes | Dump.cc:209-284 | A run never leaves the map, and fails no assertion if all receptions carry a TCP stamp and none ends at the first number plus one; the recursion guard stops no run of packets of at most 1502 bytes |
| RunTheorems.RunDiesExactly | RangeManager.cc:724-850 | A run fails an assertion if and only if one of its receptions fails on the map it meets |
| RunTheorems.AckedVerdict | Dump.cc:292-297 | The validation after the acknowledgements accepts if and only if the next expected number is not 0 |
| RunTheorems.RunCounts | Dump.cc:209-284 | The final interval map counts for every byte the packets that carried it on either side, whatever the times of the acknowledgements |
| RunTheorems.RunRefinesTrace | Dump.cc:209-284 | With timely acknowledgements it is, byte for byte, a function of the trace, including the time of the first acknowledgement above the byte |
| FirstTimes.PunctualIsTimely | RangeManager.cc:1069-1075 | Acknowledgements are timely if none is older than a packet that added something below it; told from the packets alone |
| RunTheorems.RunConserves | RangeManager.cc:1661-1722 | At the end, sums over the index are the totals of the connection and sums over the trace; loss is payload sent minus payload received; packets are those of the trace and the bundles counted twice; on uncut runs redundant bytes are payload minus span |
| RunTheorems.RunChecks | RangeManager.cc:1317-1409 | The verdicts of the validator and, on uncut runs, of the redundancy check on every final map, each with its exact condition on the trace |
| RunTheorems.RunEntries | ByteRange.h:94-168 | At the end losses are among the transmissions, stamp lists are aligned, no reception is marked as in sequence, and every bucket of the loss report is sound |
| WholeRun.NewDataIsSpan | Connection.cc:203-252 | New data is exactly the stretch from the first to the last data byte |
| WholeRun.SendsComplete | RangeManager.cc:853-856 | A gap-free send phase of packets of at most 1502 bytes always completes |
| WholeRun.ReceptionsComplete | RangeManager.cc:853-856 | The guard stops no receptions of such packets |
| LossIntervals.IndexIsExact | RangeManager.cc:2006-2009 | The computed index is that of the one bucket whose interval of time holds the transmission |
| LossIntervals.TallyCounts | RangeManager.cc:2045-2057 | The tally of a bucket is the number of times that lie in its interval |
| LossIntervals.CalculateLossGroupedByInterval | RangeManager.cc:2011-2099 | Every reported bucket holds the exact losses and totals of its interval of time, the indexing is in bounds, and the aggregate grows by exactly these |
| LossIntervals.BucketsAddUp | RangeManager.cc:2011-2099 | All buckets together hold each entry's losses and transmissions once, each with the size of the entry |
| Counters.RunBuckets | RangeManager.cc:2018-2057 | On every run of data packets all buckets together hold the payload sent, and without bundles the bytes sent for the first time as new |
| Counters.RunAllLost | RangeManager.cc:2063-2076 | Where nothing arrives, without bundles, all bytes sent for the first time are reported lost |
| LossIntervals.SentTotals | RangeManager.cc:2018-2057 | The first loop fills the three vectors with the totals of each bucket |
| LossIntervals.LossTotals | RangeManager.cc:2059-2086 | The second loop fills the loss vector, which is never longer than the totals |
| LossIntervals.BucketSound | RangeManager.cc:2093-2098 | In every bucket lost ranges, bytes and new bytes are at most what was sent |
| LossIntervals.TallyMonotone | RangeManager.cc:2079-2086 | Fewer times, with multiplicity, give no larger count in any bucket |
| LossRun.SendsTimed | ByteRange.h:137-138 | Every recorded transmission time is one of the trace's, not before the first bucket |
| Gaps.DisjointExactly | RangeManager.cc:360-864 | On any map without overlaps and for any sent segment, below or beyond `lastSeq`: a completed insertion leaves the entries disjoint if and only if it creates no entry, or no entry reaches into the bytes from the first created position to the segment's end |
| Gaps.GapOverlaps | RangeManager.cc:101-117 | Three segments with a gap after which two entries hold one byte |
| Gaps.GapBelow | RangeManager.cc:101-117 | The same with a third segment that starts below `lastSeq` |
| Gaps.AbortsExactly | RangeManager.cc:360-616 | On any such map a sent insertion that the guard does not stop fails an assertion if and only if it has to create an entry and the segment is a SYN, or all entries lie behind a segment below `lastSeq` |
| Gaps.UnsentIgnored | RangeManager.cc:360-600 | A reception where no entry is changes nothing, and fails an assertion if and only if it is below `lastSeq` and all entries lie behind it |
| Gaps.LastSeqMoves | RangeManager.cc:94-148 | The branches for data move the next expected number to the segment's end if that is higher and no gap is left, and not otherwise |
| SequenceNumbers.DecodesToNearest | Connection.cc:17-114 | For every wire number but the last, the offset nearest to the mark is returned when it is in range and not rejected as old, and the sentinel otherwise |
| SequenceNumbers.NearestIsUnique | util.h:43-51 | That offset is the only one with the wire number within half the number space (section 3.4 of RFC 9293) |
| SequenceNumbers.LastNumberIsOffByOneWrap | Connection.cc:28-29 | The wire number 2^32 - 1 is placed one wrap too high |
| SequenceNumbers.RoundTrip | RangeManager.cc:37-45 | Whatever offset the decoder returns, on any input, `absolute_seq` turns it back into the wire number |
| SequenceNumbers.SentStreamDecodes | Connection.cc:252-253 | Every segment of a stream below 2^31 decodes to its true offset against the marks of `registerSent` |
| SequenceNumbers.ReceivedStreamDecodes | Connection.cc:504-505 | The same against the marks of `registerRecvd` |
| SequenceNumbers.AckStreamDecodes | Dump.cc:505-508 | The same for acknowledgement numbers, against the mark that the acknowledgement loop keeps |
| AnalysisWindow.FindDurationEnd | Connection.cc:386-418 | The bisection ends at the last entry within the duration, although it shrinks its upper end by less than it could |
| AnalysisWindow.SetAnalyseRangeInterval | Connection.cc:340-419 | Which entries are analysed, for every combination of options |
| FirstTimes.RunChronological | Connection.cc:386-418 | A run captured in time order ends with first transmission times that do not decrease, which the duration search relies on |
| TimeDifference.NegTimerSub | time_util.h:53-72 | The normalised signed difference in all sign and borrow cases |
| TimeDifference.SecondsAreWhole | Connection.cc:393-409 | The seconds compared for the window are the whole seconds between the two times, rounded down |
| TimeDifference.MillisExact | ByteRange.cc:256-261 | Milliseconds computed from it are exact, truncated toward zero |

## Left out

- ByteRangeObjects.ByteRange.IncreaseSent: counters are unbounded; the source keeps some of them in 8 bits, which a byte sent 256 times would wrap, and casts the packet index to 16 bits.
- RangeManagers.RangeManager.CalculateRealLoss: models the byte and packet totals; lost packets across ranges, bundle hits and misses and the match-failure warnings are not modelled, and it does not call `MatchReceivedType`.
- RangeManagers.RangeManager.ProcessAck: SACK blocks are not recorded, and a call on an empty index, which dereferences the end iterator, is excluded.
- RangeManagers.RangeManager.InsertByteRange: segments of 65535 bytes or more, which an assertion of `updateByteCount` forbids, are excluded by precondition.
- Connections.Connection.RegisterSent: a SYN that changes the first number of the connection, and closed connections, are excluded by precondition.
- RunTheorems.RunCounts: receptions without payload, which `RegisterRecvd` takes, are not part of the well-formed traces.
- Connections.Summarise: the other figures of `addConnStats`, such as latencies, durations and bundle hits, are not modelled.
- Connections.Connection.GetNumUniqueBytes: windows other than all entries are not modelled.
- AnalysisWindow.SetAnalyseRangeInterval: works on the sequence of first send times instead of map iterators; the whole-run figures use the window over all entries.
- LossIntervals.CalculateLossGroupedByInterval: works on entry values in map order and uses naturals for the source's doubles; updates in place of the entries do not occur there.
- AckRun.ProcessLeavesExactly: what the program does after the search left the map is undefined and not modelled.
- RST packets are modelled in single insertions but excluded from gap-free traces.
- Capture reading, filters, header and option parsing, and the interleaving of several connections.
- Statistics output, percentiles, standard deviations and CDFs, clock drift and every floating-point figure.
- Sojourn times (`INSERT_SOJOURN`), the throughput buckets and all code under `DEBUG`.
- The private total `redundantBytes` of `insertSentRange`, which nothing reads.
