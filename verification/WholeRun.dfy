/** Theorems about whole runs of the tool: all sends, then all acknowledgements, then all receptions. */
module WholeRun {
  import opened Common
  import opened OrderedMap
  import opened ByteRanges
  import opened Index
  import opened ByteView
  import opened Insertion
  import opened Accounting
  import opened Entries
  import opened Registration
  import opened SendRun
  import opened SendTheorems
  import opened Acks
  import opened AckRun
  import opened ReceiveRun
  import opened Report
  import opened Recursion

  /** The three parts of a trace. */
  datatype Trace = Trace(firstSeq: int, sent: seq<DataSeg>, acks: seq<AckSeg>, received: seq<DataSeg>)

  ghost predicate SendPhase(t: Trace, st: SendState) {
    && t.sent != [] && GapFree(t.sent) && Packets(t.sent)
    && SendAll(t.firstSeq, t.sent) == Running(st)
  }

  /** The acknowledgement phase turns the map of `st` into `m`. */
  ghost predicate AckPhaseOf(t: Trace, st: SendState, m: Ranges) {
    && SendPhase(t, st)
    && AckState(st.ranges) && st.ranges != map[]
    && AckAll(st.ranges, t.acks).Running? && AckAll(st.ranges, t.acks).state.ranges == m
  }

  /** `m` is the map a whole run ends with. */
  ghost predicate Ends(t: Trace, st: SendState, m1: Ranges, m: Ranges) {
    && AckPhaseOf(t, st, m1) && Keyed(m1)
    && ReceivedRun(FrontOf(t.sent), t.firstSeq, t.received)
    && (forall i :: 0 <= i < |t.received| ==>
          0 <= t.received[i].startSeq < t.received[i].endSeq < t.received[i].startSeq + MAX_RANGE_SIZE)
    && ReceiveAll(m1, FrontOf(t.sent).last, t.firstSeq, t.received) == Running(m)
  }

  // ---------- after the send phase ----------

  lemma NonEmpty(firstSeq: int, segs: seq<DataSeg>)
    requires GapFree(segs) && Packets(segs) && segs != []
    ensures var r := SendAll(firstSeq, segs); r.Running? ==> r.state.ranges != map[]
  {
    hide Insert, SendInv, GapFreeStep, CountAt, Range.Info;
    var n := |segs| - 1;
    GapFreeInit(segs);
    SendRefinesCounter(firstSeq, segs[..n]);
    var before := SendAll(firstSeq, segs[..n]);
    var r := SendAll(firstSeq, segs);
    if r.Running? {
      var st := before.state;
      if segs[n].payloadSize > 0 {
        DataKeeps(st, FrontOf(segs[..n]), firstSeq, segs[n]);
        assert segs[n].startSeq in r.state.ranges;
      } else {
        var c := CallFor(st, firstSeq, segs[n]);
        assert ControlKey(st.ranges, c.seg, segs[n].startSeq) in r.state.ranges;
      }
    }
  }

  lemma SentFacts(t: Trace, st: SendState)
    requires SendPhase(t, st)
    ensures AckState(st.ranges) && st.ranges != map[] && Unacked(st.ranges)
    ensures Shape(st.ranges, FrontOf(t.sent)) && CountsBytes(st.ranges, t.sent) && EntriesSound(st.ranges)
    ensures Ledger(st) && st.totals == RegisterAll(t.firstSeq, t.sent) && AllEntries(st.ranges, NotReceived)
    ensures st.lastSeq == FrontOf(t.sent).last
  {
    SendRefinesCounter(t.firstSeq, t.sent);
    SendConserves(t.firstSeq, t.sent);
    SendEntriesSound(t.firstSeq, t.sent);
    NonEmpty(t.firstSeq, t.sent);
    hide SendAll, GapFree, FrontOf, LostWithinSent, Shape;
    AlignedSent(st.ranges);
    CountsUnacked(st.ranges, t.sent);
    ShapeParts(st.ranges, FrontOf(t.sent));
  }

  ghost predicate NotReceived(r: Range) {
    r.dataReceivedCount == 0
  }

  lemma AlignedSent(m: Ranges)
    requires EntriesSound(m)
    ensures SentOnce(m)
  {
  }

  lemma CountsUnacked(m: Ranges, segs: seq<DataSeg>)
    requires CountsBytes(m, segs)
    ensures Unacked(m)
  {
  }

  lemma ShapeParts(m: Ranges, f: Front)
    requires Shape(m, f)
    ensures Keyed(m) && Disjoint(m) && FrontOk(f)
  {
  }

  /** New data is exactly the stretch from the first to the last data byte. */
  lemma {:induction false} NewDataIsSpan(firstSeq: int, segs: seq<DataSeg>)
    requires GapFree(segs)
    ensures var t := RegisterAll(firstSeq, segs); var f := FrontOf(segs);
      && FrontOk(f) && MarksOrdered(t)
      && t.lastLargestEndSeq == f.top && t.totNewDataSent == Span(f)
  {
    if segs != [] {
      var n := |segs| - 1;
      GapFreeInit(segs);
      NewDataIsSpan(firstSeq, segs[..n]);
      hide Register, GapFree, FrontOf;
      RegisterBalances(RegisterAll(firstSeq, segs[..n]), segs[n]);
      FrontStep(FrontOf(segs[..n]), segs[n]);
    }
  }

  // ---------- after the acknowledgement phase ----------

  lemma AckedFacts(t: Trace, st: SendState, m: Ranges)
    requires AckPhaseOf(t, st, m)
    ensures ReceiveState(m, FrontOf(t.sent)) && Keyed(m)
    ensures SameCounts(st.ranges, m) && AllEntries(m, NotReceived)
    ensures Total(m, SentBytes) == Total(st.ranges, SentBytes)
    ensures Total(m, UniqueBytes) == Total(st.ranges, UniqueBytes)
    ensures Total(m, ReceivedBytes) == Total(st.ranges, ReceivedBytes)
    ensures Total(m, PacketsSent) == Total(st.ranges, PacketsSent)
    ensures Total(m, PacketsReceived) == Total(st.ranges, PacketsReceived)
  {
    hide SendAll, GapFree, FrontOf, Shape, Total, At, LostWithinSent, Aligned, CountsBytes, Ledger, AckAll, SameCounts;
    SentFacts(t, st);
    AcksKeepRest(st.ranges, t.acks, FrontOf(t.sent));
    EntryKept(NotReceived);
    AcksKeep(st.ranges, t.acks, x => AllEntries(x, NotReceived));
    ShapeParts(m, FrontOf(t.sent));
  }

  /** No acknowledgement is older than the first recorded transmission of an entry it reaches. */
  ghost predicate AcksInTime(st: SendState, acks: seq<AckSeg>) {
    forall i :: 0 <= i < |acks| ==> InTime(st.ranges, acks[i])
  }

  lemma AckedTimes(t: Trace, st: SendState, m: Ranges)
    requires AckPhaseOf(t, st, m) && Ordered(t.acks) && AcksInTime(st, t.acks)
    ensures forall b :: At(m, b) == WithAck(At(st.ranges, b), FirstAbove(t.acks, b))
  {
    hide SendAll, GapFree, FrontOf, Shape, At, CountsBytes, Ledger, AckAll, InTime;
    SentFacts(t, st);
    AcksRefineFirstTimes(st.ranges, t.acks);
  }

  // ---------- at the end ----------

  /** How many sent and how many received segments of the trace carried byte `b`. */
  function TraceCounts(t: Trace, b: int): Option<ByteInfo> {
    if TimesSent(t.sent, b) == 0 then None
    else Some(ByteInfo(TimesSent(t.sent, b), TimesSent(t.received, b), false, NO_TIME))
  }

  /** What the trace alone says about byte `b`: these counts, and the time of the first acknowledgement above it. */
  function TraceInfo(t: Trace, b: int): Option<ByteInfo> {
    WithAck(TraceCounts(t, b), FirstAbove(t.acks, b))
  }

  /** The final interval map of any run counts, byte for byte, what the trace says, whatever the order and
      the times of the acknowledgements. */
  lemma FinalCounts(t: Trace, st: SendState, m1: Ranges, m: Ranges)
    requires Ends(t, st, m1, m)
    ensures forall b :: Unmarked(At(m, b)) == TraceCounts(t, b)
  {
    hide SendAll, GapFree, FrontOf, ReceiveAll, ReceiveState, Shape, AckState, Total, At, EntriesSound, TimesSent, AckAll;
    SentFacts(t, st);
    AckedFacts(t, st, m1);
    ReceptionsCounted(m1, FrontOf(t.sent), t.firstSeq, t.received);
    forall b
      ensures Unmarked(At(m, b)) == TraceCounts(t, b)
    {
      assert Unmarked(At(m1, b)) == Unmarked(At(st.ranges, b));
    }
  }

  /** With ordered and timely acknowledgements the first acknowledgement times are those of the trace, too. */
  lemma FinalBytes(t: Trace, st: SendState, m1: Ranges, m: Ranges)
    requires Ends(t, st, m1, m) && Ordered(t.acks) && AcksInTime(st, t.acks)
    ensures forall b :: At(m, b) == TraceInfo(t, b)
  {
    hide SendAll, GapFree, FrontOf, ReceiveAll, ReceiveState, Shape, AckState, Total, At, EntriesSound, FirstAbove,
      TimesSent, InTime, AckAll, SameCounts;
    SentFacts(t, st);
    AckedFacts(t, st, m1);
    AckedTimes(t, st, m1);
    ReceptionsCounted(m1, FrontOf(t.sent), t.firstSeq, t.received);
    forall b
      ensures At(m, b) == TraceInfo(t, b)
    {
      assert At(st.ranges, b) == if TimesSent(t.sent, b) == 0 then None
                                 else Some(ByteInfo(TimesSent(t.sent, b), 0, false, NO_TIME));
    }
  }

  lemma {:induction false} NoneReceived(m: Ranges)
    requires AllEntries(m, NotReceived)
    ensures Total(m, ReceivedBytes) == 0
    decreases |m|
  {
    if m != map[] {
      var k := FirstKey(m).value;
      NoneReceived(m - {k});
    }
  }

  /** Conservation at the end of every run: the sums over the index are the sums over the trace. The
      reported loss is the payload sent minus the payload received, whatever the order of arrival. */
  lemma FinalTotals(t: Trace, st: SendState, m1: Ranges, m: Ranges)
    requires Ends(t, st, m1, m)
    ensures Total(m, SentBytes) == st.totals.totBytesSent == Payload(t.sent)
    ensures Total(m, UniqueBytes) == st.totals.totNewDataSent == Span(FrontOf(t.sent))
    ensures Total(m, ReceivedBytes) == Payload(t.received)
    ensures Total(m, LostBytes) == Payload(t.sent) - Payload(t.received)
    ensures Total(m, PacketsReceived) == |t.received|
  {
    SentFacts(t, st);
    AckedFacts(t, st, m1);
    ReceptionsCounted(m1, FrontOf(t.sent), t.firstSeq, t.received);
    NewDataIsSpan(t.firstSeq, t.sent);
    hide SendAll, FrontOf, ReceiveAll, ReceiveState, Shape, AckState, At, EntriesSound, InTime, Total, CountsBytes;
    LossIsDifference(m);
    NoneReceived(st.ranges);
    TotalsBalance(t.firstSeq, t.sent);
  }

  lemma FinalShape(t: Trace, st: SendState, m1: Ranges, m: Ranges)
    requires Ends(t, st, m1, m)
    ensures Shape(m, FrontOf(t.sent)) && m != map[] && Keyed(m)
  {
    AckedFacts(t, st, m1);
    ReceptionsCounted(m1, FrontOf(t.sent), t.firstSeq, t.received);
    ShapeParts(m, FrontOf(t.sent));
  }

  /** The validator's verdict on the final map of any run. */
  lemma FinalValidation(t: Trace, st: SendState, m1: Ranges, m: Ranges)
    requires Ends(t, st, m1, m) && st.lastSeq < WRAP64
    ensures m != map[] && (ValidatorAccepts(m, st.lastSeq, st.totals) <==> st.lastSeq != 0)
  {
    hide SendAll, GapFree, FrontOf, ReceiveAll, AckState, At, EntriesSound, InTime, Total, CountsBytes, ValidatorAccepts, Shape;
    SentFacts(t, st);
    FinalShape(t, st, m1, m);
    TotalsBalance(t.firstSeq, t.sent);
    ValidatorAcceptsExactly(m, FrontOf(t.sent), st.totals);
  }

  /** A property of entries that the send phase establishes and the other two keep holds at the end. */
  lemma FinalEntries(t: Trace, st: SendState, m1: Ranges, m: Ranges, p: Range -> bool)
    requires Ends(t, st, m1, m) && AllEntries(st.ranges, p) && KeptBySplit(p)
    requires forall r: Range, r': Range :: AckOnly(r, r') && p(r) ==> p(r')
    requires forall g: DataSeg :: KeptByCount(p, RecvCall(FrontOf(t.sent).last, t.firstSeq, g))
    ensures AllEntries(m, p)
  {
    hide SendAll, GapFree, FrontOf, ReceiveAll, ReceiveState, AckState, At, EntriesSound, InTime, Total, AllEntries,
      KeptBySplit, KeptByCount, AckOnly;
    SentFacts(t, st);
    AckedFacts(t, st, m1);
    EntryKept(p);
    AcksKeep(st.ranges, t.acks, x => AllEntries(x, p));
    ReceptionsKeep(m1, FrontOf(t.sent), t.firstSeq, t.received, p);
  }

  /** At the end of every run each entry's losses are among its transmissions, its stamps are aligned, and
      no entry is marked as received in sequence: `insertReceivedRange` does not hand the mark on. */
  lemma FinalEntriesSound(t: Trace, st: SendState, m1: Ranges, m: Ranges)
    requires Ends(t, st, m1, m)
    ensures EntriesSound(m)
  {
    hide SendAll, GapFree, FrontOf, ReceiveAll, ReceiveState, AckState, At, InTime, Total, KeptBySplit, KeptByCount, Ends;
    assert SendPhase(t, st) by { EndsSend(t, st, m1, m); }
    SentFacts(t, st);
    forall g: DataSeg
      ensures KeptByCount(LostWithinSent, RecvCall(FrontOf(t.sent).last, t.firstSeq, g))
      ensures KeptByCount(Aligned, RecvCall(FrontOf(t.sent).last, t.firstSeq, g))
      ensures KeptByCount(Unflagged, RecvCall(FrontOf(t.sent).last, t.firstSeq, g))
    {
      LostWithinSentKept(RecvCall(FrontOf(t.sent).last, t.firstSeq, g));
      AlignedKept(RecvCall(FrontOf(t.sent).last, t.firstSeq, g));
      UnflaggedKept(RecvCall(FrontOf(t.sent).last, t.firstSeq, g));
    }
    LostWithinSentKept(RecvCall(0, 0, t.sent[0]));
    AlignedKept(RecvCall(0, 0, t.sent[0]));
    UnflaggedKept(RecvCall(0, 0, t.sent[0]));
    FinalEntries(t, st, m1, m, LostWithinSent);
    FinalEntries(t, st, m1, m, Aligned);
    FinalEntries(t, st, m1, m, Unflagged);
  }

  lemma EndsSend(t: Trace, st: SendState, m1: Ranges, m: Ranges)
    requires Ends(t, st, m1, m)
    ensures SendPhase(t, st)
  {
  }

  // ---------- runs that are never refused ----------

  /** Packets too small for the recursion guard, such as all packets captured without segmentation offload. */
  ghost predicate SmallPayloads(segs: seq<DataSeg>) {
    forall i :: 0 <= i < |segs| ==> segs[i].payloadSize <= RECURSION_LEVEL + 2
  }

  lemma SmallSend(st: SendState, f: Front, firstSeq: int, g: DataSeg)
    requires SendInv(st, f) && GapFreeStep(f, g) && g.payloadSize <= RECURSION_LEVEL + 2
    ensures SendOne(st, firstSeq, g).Running?
  {
    if g.payloadSize > 0 {
      hide Insert;
      DataKeeps(st, f, firstSeq, g);
      DataIsReady(st, f, firstSeq, g);
      SmallNeverTrips(st.ranges, CallFor(st, firstSeq, g), g.startSeq, g.endSeq, f.Base());
    }
  }

  /** A gap-free run of small packets always completes. */
  lemma {:induction false} SendsComplete(firstSeq: int, segs: seq<DataSeg>)
    requires GapFree(segs) && Packets(segs) && SmallPayloads(segs)
    ensures SendAll(firstSeq, segs).Running?
  {
    hide SendOne, SendInv, GapFreeStep, NextFront;
    if segs != [] {
      var n := |segs| - 1;
      GapFreeInit(segs);
      SendsComplete(firstSeq, segs[..n]);
      SendRefinesCounter(firstSeq, segs[..n]);
      SmallSend(SendAll(firstSeq, segs[..n]).state, FrontOf(segs[..n]), firstSeq, segs[n]);
    }
  }

  lemma SmallReception(m: Ranges, f: Front, firstSeq: int, g: DataSeg)
    requires ReceiveState(m, f) && ReceivedStep(f, firstSeq, g) && g.payloadSize <= RECURSION_LEVEL + 2
    ensures Keyed(m) && !ReceiveOne(m, f.last, firstSeq, g).GuardTripped?
  {
    hide Insert;
    ReceiveKeyed(m, f);
    ReceptionReady(m, f, firstSeq, g);
    SmallNeverTrips(m, RecvCall(f.last, firstSeq, g), g.startSeq, g.endSeq, g.endSeq);
  }

  /** The guard never stops a run of small receptions. */
  lemma {:induction false} ReceptionsComplete(m: Ranges, f: Front, firstSeq: int, segs: seq<DataSeg>)
    requires ReceiveState(m, f) && ReceivedRun(f, firstSeq, segs) && SmallPayloads(segs)
    ensures Keyed(m) && !ReceiveAll(m, f.last, firstSeq, segs).GuardTripped?
  {
    hide ReceiveOne, ReceiveState;
    ReceiveKeyed(m, f);
    if segs != [] {
      var n := |segs| - 1;
      ReceptionsComplete(m, f, firstSeq, segs[..n]);
      ReceptionsCounted(m, f, firstSeq, segs[..n]);
      var r := ReceiveAll(m, f.last, firstSeq, segs[..n]);
      if r.Running? {
        SmallReception(r.state, f, firstSeq, segs[n]);
      }
    }
  }
}
