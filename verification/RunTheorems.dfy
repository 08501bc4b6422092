/** Theorems about every run of the tool on a well-formed trace, told from the trace alone. */
module RunTheorems {
  import opened Common
  import opened OrderedMap
  import opened ByteRanges
  import opened Index
  import opened ByteView
  import opened Accounting
  import opened Registration
  import opened SendRun
  import opened SendTheorems
  import opened Acks
  import opened AckRun
  import opened ReceiveRun
  import opened Report
  import opened WholeRun
  import opened LossIntervals
  import opened LossRun
  import opened Stretch
  import opened Entries
  import opened Bundling

  /** A trace the tool can take: a gap-free sender side, non-decreasing acknowledgements, and receptions
      of bytes that were sent. */
  ghost predicate WellFormed(t: Trace) {
    && t.sent != [] && GapFree(t.sent) && Packets(t.sent) && Ordered(t.acks)
    && FrontOf(t.sent).last < WRAP64 && FrontOf(t.sent).top < WRAP64
    && ReceivedRun(FrontOf(t.sent), t.firstSeq, t.received)
    && (forall i :: 0 <= i < |t.received| ==>
          0 <= t.received[i].startSeq < t.received[i].endSeq < t.received[i].startSeq + MAX_RANGE_SIZE)
  }

  /** No acknowledgement is older than the first recorded transmission of an entry it reaches. This is the
      comparison `processAck` makes; `FirstTimes.PunctualIsTimely` tells it from the packets alone. */
  ghost predicate Timely(t: Trace)
    requires Packets(t.sent)
  {
    var r := SendAll(t.firstSeq, t.sent);
    r.Running? ==> AcksInTime(r.state, t.acks)
  }

  /** What the tool prints about one connection. */
  datatype Figures = Figures(
    validated: bool, revalidated: bool, bytesSent: int, uniqueBytes: int, redundantBytes: int, lostBytes: int,
    packetsSent: int, packetsReceived: int, mismatch: bool)

  /** The figures, told from the trace alone. Some bundles count as two packets. The redundancy figures need a
      run that cuts no bundled bytes, such as one without bundles. The redundancy check goes wrong in exactly the runs
      that are one stretch. */
  ghost predicate FiguresOf(t: Trace, r: Figures)
    requires Packets(t.sent)
  {
    && (r.validated <==> FrontOf(t.sent).last != 0)
    && (r.revalidated <==> FrontOf(t.sent).last != 0)
    && r.bytesSent == Payload(t.sent)
    && r.uniqueBytes == Span(FrontOf(t.sent))
    && r.lostBytes == (Payload(t.sent) - Payload(t.received)) % WRAP64
    && r.packetsReceived == |t.received|
    && r.packetsSent == |t.sent| + |CountedTwice(t.sent)|
    && (Uncut(t) ==>
          && r.redundantBytes == Payload(t.sent) - Span(FrontOf(t.sent))
          && (OneStretch(t) ==> r.mismatch)
          && (Timely(t) ==> (r.mismatch <==> OneStretch(t))))
  }

  // ---------- the run ----------

  /** What a run leaves behind: the state after all sends, and the maps after the other two phases. */
  datatype Final = Final(sent: SendState, acked: Ranges, ranges: Ranges)

  /** All sends, then all acknowledgements, then all receptions. */
  ghost function RunAll(t: Trace): Run<Final>
    requires WellFormed(t)
  {
    SentVerdict(t);
    match SendAll(t.firstSeq, t.sent)
    case GuardTripped => GuardTripped
    case Died => Died
    case Running(st) =>
      AckVerdict(t, st);
      (match AckAll(st.ranges, t.acks)
       case GuardTripped => GuardTripped
       case Died => Died
       case Running(p) =>
         ReceiveVerdict(t, st, p.ranges);
         (match ReceiveAll(p.ranges, FrontOf(t.sent).last, t.firstSeq, t.received)
          case GuardTripped => GuardTripped
          case Died => Died
          case Running(m) => Running(Final(st, p.ranges, m))))
  }

  lemma SentVerdict(t: Trace)
    requires WellFormed(t)
    ensures var r := SendAll(t.firstSeq, t.sent);
      && !r.Died?
      && (SmallPayloads(t.sent) ==> r.Running?)
      && (r.Running? ==>
            && SendPhase(t, r.state) && r.state.ranges != map[]
            && (ValidatorAccepts(r.state.ranges, r.state.lastSeq, r.state.totals) <==> FrontOf(t.sent).last != 0))
  {
    hide SendAll, GapFree, FrontOf, SendInv, CountsBytes, Shape, ValidatorAccepts, EntriesSound, Ledger, AckState, ReceivedRun, Ordered;
    SendRefinesCounter(t.firstSeq, t.sent);
    if SmallPayloads(t.sent) {
      SendsComplete(t.firstSeq, t.sent);
    }
    var r := SendAll(t.firstSeq, t.sent);
    if r.Running? {
      SentFacts(t, r.state);
      TotalsBalance(t.firstSeq, t.sent);
      ValidatorAcceptsExactly(r.state.ranges, FrontOf(t.sent), r.state.totals);
    }
  }

  /** After a gap-free send phase, ordered acknowledgements never lead off the map, whatever their times. */
  lemma AckVerdict(t: Trace, st: SendState)
    requires WellFormed(t) && SendPhase(t, st)
    ensures AckState(st.ranges) && st.ranges != map[]
    ensures var r := AckAll(st.ranges, t.acks); r.Running? && AckPhaseOf(t, st, r.state.ranges)
  {
    hide SendAll, GapFree, FrontOf, Shape, CountsBytes, EntriesSound, Ledger, AckState, AckAll, Unacked;
    SentFacts(t, st);
    ShapeContiguous(st.ranges, FrontOf(t.sent));
    AcksNeverRunOff(st.ranges, t.acks);
  }

  lemma ReceiveVerdict(t: Trace, st: SendState, m1: Ranges)
    requires WellFormed(t) && AckPhaseOf(t, st, m1)
    ensures Keyed(m1) && ReceiveState(m1, FrontOf(t.sent))
    ensures var r := ReceiveAll(m1, FrontOf(t.sent).last, t.firstSeq, t.received);
      && (Receivables(t) ==> !r.Died?)
      && (r.Died? <==> exists i :: 0 <= i < |t.received| && FailsDuring(m1, FrontOf(t.sent), t.firstSeq, t.received, i))
      && (SmallPayloads(t.received) ==> !r.GuardTripped?)
      && (r.Running? ==> Ends(t, st, m1, r.state))
  {
    hide SendAll, GapFree, FrontOf, ReceiveState, ReceiveAll, Total, At, ReceivedRun, FailsDuring, SameCounts;
    AckedFacts(t, st, m1);
    DiesExactly(m1, FrontOf(t.sent), t.firstSeq, t.received);
    if Receivables(t) {
      UnreceivedStamped(m1);
      ReceptionsSurvive(m1, FrontOf(t.sent), t.firstSeq, t.received);
    }
    if SmallPayloads(t.received) {
      ReceptionsComplete(m1, FrontOf(t.sent), t.firstSeq, t.received);
    }
  }

  lemma UnreceivedStamped(m: Ranges)
    requires AllEntries(m, NotReceived)
    ensures AllEntries(m, StampedEntry)
  {
    forall k | k in m
      ensures StampedEntry(m[k])
    {
      assert NotReceived(m[k]);
    }
  }

  /** The validator's verdict after the acknowledgements is that after the sends. */
  lemma AckedVerdict(t: Trace, st: SendState, m1: Ranges)
    requires WellFormed(t) && AckPhaseOf(t, st, m1)
    ensures m1 != map[] && Keyed(m1)
    ensures ValidatorAccepts(m1, st.lastSeq, st.totals) <==> FrontOf(t.sent).last != 0
  {
    hide SendAll, GapFree, FrontOf, AckAll, Shape, Total, At, ReceivedRun, SameCounts, ValidatorAccepts, EntriesSound, CountsBytes;
    SentFacts(t, st);
    AckedFacts(t, st, m1);
    TotalsBalance(t.firstSeq, t.sent);
    ValidatorAcceptsExactly(m1, FrontOf(t.sent), st.totals);
  }

  /** What `Summarise` makes of a map. */
  function Summary(m: Ranges, validated: bool, revalidated: bool): Figures
    requires m != map[]
  {
    Figures(validated, revalidated, Total(m, SentBytes), Total(m, UniqueBytes), Total(m, RedundantBytes), Total(m, LostBytes) % WRAP64,
            Total(m, PacketsSent), Total(m, PacketsReceived), RedundancyMismatch(m))
  }

  /** The sums over the final map are figures of the trace. */
  lemma FiguresFollow(t: Trace, st: SendState, m1: Ranges, m: Ranges, validated: bool)
    requires WellFormed(t) && Ends(t, st, m1, m) && (validated <==> FrontOf(t.sent).last != 0)
    ensures m != map[] && FiguresOf(t, Summary(m, validated, validated))
  {
    hide Ends, GapFree, Ordered, ReceivedRun, Total, RedundancyMismatch, OnlyFirstHoldsData, FrontOf, Uncut, CountedTwice, Shape,
      Span, Keyed, OneStretch, Timely;
    FinalShape(t, st, m1, m);
    FinalTotals(t, st, m1, m);
    FinalCounters(t, st, m1, m);
    StretchVerdict(t, st, m1, m);
  }

  /** Whether all data is one entry, told from the trace. */
  lemma StretchVerdict(t: Trace, st: SendState, m1: Ranges, m: Ranges)
    requires WellFormed(t) && Ends(t, st, m1, m)
    ensures OneStretch(t) ==> OnlyFirstHoldsData(m)
    ensures Timely(t) ==> (OnlyFirstHoldsData(m) <==> OneStretch(t))
  {
    hide GapFree, SendAll, AckAll, ReceiveAll, ReceivedRun, FrontOf, OneStretch, OnlyFirstHoldsData, AcksInTime, Ordered;
    if OneStretch(t) {
      StretchClear(t, st, m1, m);
    }
    if Timely(t) {
      SingleExactly(t, st, m1, m);
    }
  }

  lemma SentReady(t: Trace, st: SendState)
    requires SendPhase(t, st)
    ensures AckState(st.ranges) && st.ranges != map[] && st.lastSeq == FrontOf(t.sent).last
  {
    hide *;
    SentFacts(t, st);
  }

  lemma WellFormedTop(t: Trace)
    requires WellFormed(t)
    ensures FrontOf(t.sent).top < WRAP64 && FrontOf(t.sent).last < WRAP64
  {
  }


  /** All receptions carry a TCP time stamp, and none ends at the first absolute sequence number plus one. */
  ghost predicate Receivables(t: Trace) {
    forall i :: 0 <= i < |t.received| ==> Receivable(t.firstSeq, t.received[i])
  }

  /** A run fails an assertion of the code only in the receive phase, and not if all receptions are
      receivable; it never leaves the map, and the recursion guard stops no run of small packets. */
  lemma RunCompletes(t: Trace)
    requires WellFormed(t)
    ensures var r := RunAll(t);
      && (Receivables(t) ==> !r.Died?)
      && (SmallPayloads(t.sent) && SmallPayloads(t.received) ==> !r.GuardTripped?)
      && (r.Running? ==> Ends(t, r.state.sent, r.state.acked, r.state.ranges))
  {
    hide GapFree, Packets, Ordered, ReceivedRun, Timely, Ends, AckPhaseOf, SendPhase, SendAll, AckAll, ReceiveAll, FrontOf, AckState,
      FailsDuring, ReceiveState, Receivables;
    SentVerdict(t);
    var r := SendAll(t.firstSeq, t.sent);
    if r.Running? {
      AckVerdict(t, r.state);
      ReceiveVerdict(t, r.state, AckAll(r.state.ranges, t.acks).state.ranges);
    }
  }

  /** Reception `i` fails an assertion on the map it meets. */
  ghost predicate RunFailsAt(t: Trace, i: nat)
    requires WellFormed(t) && i < |t.received|
  {
    SentVerdict(t);
    var s := SendAll(t.firstSeq, t.sent);
    s.Running? && (
      AckVerdict(t, s.state);
      var m1 := AckAll(s.state.ranges, t.acks).state.ranges;
      ReceiveVerdict(t, s.state, m1);
      FailsDuring(m1, FrontOf(t.sent), t.firstSeq, t.received, i))
  }

  /** A run dies if and only if one of its receptions fails. */
  lemma RunDiesExactly(t: Trace)
    requires WellFormed(t)
    ensures RunAll(t).Died? <==> exists i :: 0 <= i < |t.received| && RunFailsAt(t, i)
  {
    hide GapFree, Packets, Ordered, ReceivedRun, Timely, Ends, AckPhaseOf, SendPhase, SendAll, AckAll, ReceiveAll, FrontOf, AckState,
      FailsDuring, ReceiveState, Receivables;
    SentVerdict(t);
    var r := SendAll(t.firstSeq, t.sent);
    if r.Running? {
      AckVerdict(t, r.state);
      var m1 := AckAll(r.state.ranges, t.acks).state.ranges;
      ReceiveVerdict(t, r.state, m1);
      assert forall i :: 0 <= i < |t.received| ==>
        (RunFailsAt(t, i) <==> FailsDuring(m1, FrontOf(t.sent), t.firstSeq, t.received, i));
    }
  }

  /** The final interval map counts for every byte how many packets carried it on the sender's and on the
      receiver's side, whatever the times of the acknowledgements. */
  lemma RunCounts(t: Trace)
    requires WellFormed(t)
    ensures var r := RunAll(t); r.Running? ==> forall b :: Unmarked(At(r.state.ranges, b)) == TraceCounts(t, b)
  {
    hide WellFormed, Ends, RunAll, At, TraceCounts, Unmarked;
    RunCompletes(t);
    var r := RunAll(t);
    if r.Running? {
      FinalCounts(t, r.state.sent, r.state.acked, r.state.ranges);
    }
  }

  /** With timely acknowledgements it says of every byte all that the trace says of it, including the time
      of the first acknowledgement above it. */
  lemma RunRefinesTrace(t: Trace)
    requires WellFormed(t) && Timely(t)
    ensures var r := RunAll(t); r.Running? ==> forall b :: At(r.state.ranges, b) == TraceInfo(t, b)
  {
    hide Ends, At, TraceInfo, GapFree, FrontOf, ReceivedRun, AcksInTime, AckAll, ReceiveAll, SendAll, Ordered;
    RunCompletes(t);
    var r := RunAll(t);
    if r.Running? {
      FinalBytes(t, r.state.sent, r.state.acked, r.state.ranges);
    }
  }

  /** Conservation over the whole run: sums over the index are sums over the trace, and the loss is what
      was sent minus what was received, whatever the order of arrival. */
  lemma RunConserves(t: Trace)
    requires WellFormed(t)
    ensures var r := RunAll(t); r.Running? ==> var m := r.state.ranges;
      && Total(m, SentBytes) == r.state.sent.totals.totBytesSent == Payload(t.sent)
      && Total(m, UniqueBytes) == r.state.sent.totals.totNewDataSent == Span(FrontOf(t.sent))
      && Total(m, ReceivedBytes) == Payload(t.received)
      && Total(m, LostBytes) == Payload(t.sent) - Payload(t.received)
      && Total(m, PacketsReceived) == |t.received|
      && Total(m, PacketsSent) == |t.sent| + |CountedTwice(t.sent)|
      && (Uncut(t) ==> Total(m, RedundantBytes) == Payload(t.sent) - Span(FrontOf(t.sent)))
  {
    hide WellFormed, Ends, RunAll, Total, FrontOf, Span, Payload, Uncut, CountedTwice, OnlyFirstHoldsData, RedundancyMismatch;
    RunCompletes(t);
    WellFormedTop(t);
    var r := RunAll(t);
    if r.Running? {
      FinalTotals(t, r.state.sent, r.state.acked, r.state.ranges);
      FinalCounters(t, r.state.sent, r.state.acked, r.state.ranges);
    }
  }

  /** The tool's own checks: the validator accepts if and only if the next expected number is not 0, and where no
      bundled bytes are cut the redundancy check fires if and only if the trace is one stretch. */
  lemma RunChecks(t: Trace)
    requires WellFormed(t)
    ensures var r := RunAll(t); r.Running? ==> var st, m := r.state.sent, r.state.ranges;
      && m != map[]
      && (ValidatorAccepts(m, st.lastSeq, st.totals) <==> FrontOf(t.sent).last != 0)
      && (Uncut(t) ==> (RedundancyMismatch(m) <==> OnlyFirstHoldsData(m)))
      && (OneStretch(t) ==> OnlyFirstHoldsData(m))
      && (Timely(t) ==> (OnlyFirstHoldsData(m) <==> OneStretch(t)))
  {
    hide GapFree, Ordered, ReceivedRun, OneStretch, Timely, Ends, RunAll, FrontOf, Uncut, OnlyFirstHoldsData, RedundancyMismatch,
      ValidatorAccepts;
    RunCompletes(t);
    WellFormedTop(t);
    var r := RunAll(t);
    if r.Running? {
      SentReady(t, r.state.sent) by {
        EndsSend(t, r.state.sent, r.state.acked, r.state.ranges);
      }
      FinalValidation(t, r.state.sent, r.state.acked, r.state.ranges);
      StretchVerdict(t, r.state.sent, r.state.acked, r.state.ranges);
      FinalCounters(t, r.state.sent, r.state.acked, r.state.ranges);
    }
  }

  /** In every entry losses are among the transmissions, the stamp lists are aligned and no reception is
      marked as in sequence; and every bucket of the loss report is sound. */
  lemma RunEntries(t: Trace, b: Buckets, i: nat)
    requires WellFormed(t)
    ensures var r := RunAll(t); r.Running? ==> var m := r.state.ranges;
      && EntriesSound(m)
      && (SentInBuckets(b, t.sent) ==> AllSound(b, InOrder(m)) && Bucket(b, InOrder(m), i).Sound())
  {
    hide WellFormed, Ends, RunAll, EntriesSound, SentInBuckets, AllSound, Bucket, InOrder;
    RunCompletes(t);
    var r := RunAll(t);
    if r.Running? {
      FinalEntriesSound(t, r.state.sent, r.state.acked, r.state.ranges);
      if SentInBuckets(b, t.sent) {
        FinalBucketsSound(t, r.state.sent, r.state.acked, r.state.ranges, b, i);
      }
    }
  }

  /** The summary of a completed run is told from the trace alone. */
  lemma RunReports(t: Trace, validated: bool)
    requires WellFormed(t) && RunAll(t).Running? && (validated <==> FrontOf(t.sent).last != 0)
    ensures var m := RunAll(t).state.ranges;
      m != map[] && FiguresOf(t, Summary(m, validated, validated))
  {
    hide *;
    RunCompletes(t);
    var f := RunAll(t).state;
    FiguresFollow(t, f.sent, f.acked, f.ranges, validated);
  }
}
