/** The class `Connection`: it classifies each outgoing segment, keeps the high-water marks of the three
    directions and drives its `RangeManager`. The last part runs a whole trace through the objects and
    states what the tool reports about it. */
module Connections {
  import opened Common
  import opened OrderedMap
  import opened ByteRanges
  import opened Index
  import opened ByteView
  import opened Accounting
  import opened Registration
  import opened SendRun
  import opened SendTheorems
  import opened Acks
  import opened AckRun
  import opened ReceiveRun
  import opened Report
  import opened WholeRun
  import opened RunTheorems
  import opened RangeManagers

  /** A call on the objects and the step on values end alike and, where they go on, in the same state. */
  ghost predicate Agree<T(!new)>(r: Run<T>, status: Status, state: T) {
    match r
    case Running(state') => status.Fine? && state == state'
    case GuardTripped => status.LogicError?
    case Died => status.AssertionFails?
  }

  class Connection {
    const rm: RangeManager
    var nrPacketsSent: nat
    var nrDataPacketsSent: nat
    var nrRetrans: nat
    var bundleCount: nat
    var totBytesSent: int
    var totNewDataSent: int
    var totRdbBytesSent: int
    var totRetransBytesSent: int
    var lastLargestStartSeq: int
    var lastLargestEndSeq: int
    var lastLargestSeqAbsolute: int
    var lastLargestRecvEndSeq: int
    var lastLargestRecvSeqAbsolute: int
    var lastLargestAckSeq: int
    var lastLargestAckSeqAbsolute: int

    constructor (firstSeq: int)
      ensures CurrentTotals() == NoTotals(firstSeq)
      ensures lastLargestRecvEndSeq == 0 && lastLargestRecvSeqAbsolute == firstSeq
      ensures lastLargestAckSeq == 0 && lastLargestAckSeqAbsolute == firstSeq
      ensures rm.Valid() && rm.View() == map[] && rm.ranges == map[] && fresh(rm)
      ensures rm.firstSeq == firstSeq && rm.lastSeq == 0 && rm.highestAcked == None && rm.NothingAnalysed()
    {
      rm := new RangeManager(firstSeq);
      nrPacketsSent, nrDataPacketsSent, nrRetrans, bundleCount := 0, 0, 0, 0;
      totBytesSent, totNewDataSent, totRdbBytesSent, totRetransBytesSent := 0, 0, 0, 0;
      lastLargestStartSeq, lastLargestEndSeq, lastLargestSeqAbsolute := 0, 0, firstSeq;
      lastLargestRecvEndSeq, lastLargestRecvSeqAbsolute := 0, firstSeq;
      lastLargestAckSeq, lastLargestAckSeqAbsolute := 0, firstSeq;
    }

    function CurrentTotals(): Totals
      reads this
    {
      Totals(nrPacketsSent, nrDataPacketsSent, nrRetrans, bundleCount,
             totBytesSent, totNewDataSent, totRdbBytesSent, totRetransBytesSent,
             lastLargestStartSeq, lastLargestEndSeq, lastLargestSeqAbsolute)
    }

    /** `registerSent`: classification and totals are those of `Register`. A SYN that changes the first
        number of the connection is not part of this model. */
    method RegisterSent(g: DataSeg) returns (seg: DataSeg)
      requires g.flags.syn ==> g.endSeq <= lastLargestEndSeq || lastLargestEndSeq + 1 == g.startSeq
      modifies this
      ensures (CurrentTotals(), seg) == Register(old(CurrentTotals()), g)
      ensures lastLargestEndSeq >= old(lastLargestEndSeq)
      ensures lastLargestRecvEndSeq == old(lastLargestRecvEndSeq) && lastLargestRecvSeqAbsolute == old(lastLargestRecvSeqAbsolute)
    {
      seg := g;
      nrPacketsSent := nrPacketsSent + 1;
      if g.payloadSize == 0 {
        return;
      }
      if g.endSeq > lastLargestEndSeq {
        seg := CountNew(g);
        lastLargestEndSeq := g.endSeq;
        lastLargestSeqAbsolute := (g.seqAbsolute + g.payloadSize) % WRAP32;
      } else {
        nrRetrans := nrRetrans + 1;
        totRetransBytesSent := totRetransBytesSent + g.payloadSize;
        seg := seg.(retrans := true);
      }
      nrDataPacketsSent := nrDataPacketsSent + 1;
      lastLargestStartSeq := g.startSeq;
      totBytesSent := totBytesSent + g.payloadSize;
    }

    /** The branches for new data (Connection.cc:226-251). */
    method CountNew(g: DataSeg) returns (seg: DataSeg)
      modifies this`bundleCount, this`totRdbBytesSent, this`totNewDataSent
      ensures var t := old(CurrentTotals());
        if SameStartBundle(t, g) || LaterStartBundle(t, g) || OverlapBundle(t, g) then
          && seg == g.(isRdb := true, rdbEndSeq := lastLargestEndSeq)
          && bundleCount == t.bundleCount + 1
          && totRdbBytesSent == t.totRdbBytesSent + (lastLargestEndSeq - g.startSeq)
          && totNewDataSent == t.totNewDataSent + (g.endSeq - lastLargestEndSeq)
        else
          && seg == g && bundleCount == t.bundleCount && totRdbBytesSent == t.totRdbBytesSent
          && totNewDataSent == t.totNewDataSent + g.payloadSize
    {
      if g.startSeq == lastLargestStartSeq && g.endSeq > lastLargestEndSeq && lastLargestStartSeq + lastLargestEndSeq != 0 {
        seg := Bundle(g);
      } else if g.startSeq > lastLargestStartSeq && g.startSeq < lastLargestEndSeq && g.endSeq > lastLargestEndSeq {
        seg := Bundle(g);
      } else if g.startSeq < lastLargestEndSeq && g.endSeq > lastLargestEndSeq {
        seg := Bundle(g);
      } else {
        seg := g;
        totNewDataSent := totNewDataSent + g.payloadSize;
      }
    }

    /** The body that the three bundling branches share. */
    method Bundle(g: DataSeg) returns (seg: DataSeg)
      modifies this`bundleCount, this`totRdbBytesSent, this`totNewDataSent
      ensures bundleCount == old(bundleCount) + 1
      ensures totRdbBytesSent == old(totRdbBytesSent) + (lastLargestEndSeq - g.startSeq)
      ensures totNewDataSent == old(totNewDataSent) + (g.endSeq - lastLargestEndSeq)
      ensures seg == g.(isRdb := true, rdbEndSeq := lastLargestEndSeq)
    {
      bundleCount := bundleCount + 1;
      totRdbBytesSent := totRdbBytesSent + (lastLargestEndSeq - g.startSeq);
      totNewDataSent := totNewDataSent + (g.endSeq - lastLargestEndSeq);
      seg := g.(isRdb := true, rdbEndSeq := lastLargestEndSeq);
    }

    ghost function State(): SendState
      reads this, rm, rm.ranges.Values
    {
      SendState(CurrentTotals(), rm.View(), rm.lastSeq)
    }

    /** One outgoing packet: `registerSent`, then `registerRange`. */
    method Send(g: DataSeg) returns (status: Status)
      requires rm.Valid() && Captured(g) && g.payloadSize < MAX_RANGE_SIZE
      requires g.flags.syn ==> g.endSeq <= lastLargestEndSeq || lastLargestEndSeq + 1 == g.startSeq
      modifies this, rm`ranges, rm`analysedSentPureAckCount, rm`lastSeq, rm.ranges.Values
      ensures fresh(rm.ranges.Values - old(rm.ranges.Values))
      ensures lastLargestEndSeq >= old(lastLargestEndSeq)
      ensures Agree(SendOne(old(State()), rm.firstSeq, g), status, State())
      ensures status.Fine? ==> rm.Valid()
    {
      hide Register, Insert, InsertEmpty, NextLastSeq, RangeManager.View;
      var seg := RegisterSent(g);
      RegisterKeepsSpan(old(CurrentTotals()), g);
      status := rm.InsertSentRange(seg);
    }

    /** `registerRecvd`. */
    method RegisterRecvd(g: DataSeg) returns (status: Status)
      requires rm.Valid() && 0 <= g.startSeq <= g.endSeq < g.startSeq + MAX_RANGE_SIZE
      modifies this`lastLargestRecvEndSeq, this`lastLargestRecvSeqAbsolute, rm`ranges, rm`analysedSentPureAckCount, rm.ranges.Values
      ensures fresh(rm.ranges.Values - old(rm.ranges.Values))
      ensures Agree(ReceiveOne(old(rm.View()), rm.lastSeq, rm.firstSeq, g), status, rm.View())
      ensures status.Fine? ==> rm.Valid()
      ensures status.Fine? ==> lastLargestRecvEndSeq == g.endSeq && lastLargestRecvSeqAbsolute == (g.seqAbsolute + g.payloadSize) % WRAP32
    {
      hide Insert, InsertEmpty, RangeManager.View;
      var seg := g;
      if g.startSeq <= lastLargestRecvEndSeq && g.endSeq > lastLargestRecvEndSeq {
        seg := seg.(inSequence := true);
      }
      status := rm.InsertReceivedRange(seg);
      if status.Fine? {
        lastLargestRecvEndSeq := g.endSeq;
        lastLargestRecvSeqAbsolute := (g.seqAbsolute + g.payloadSize) % WRAP32;
      }
    }

    /** `getNumUniqueBytes` over all entries, in unsigned 64-bit arithmetic. */
    method GetNumUniqueBytes() returns (n: int)
      requires rm.Valid() && rm.View() != map[]
      ensures n == NumUniqueBytes(rm.View())
    {
      hide RangeManager.View, DataKeys, Least, Greatest, FirstKey, LastKey, Keyed;
      var first := rm.WalkBegin();
      var last := rm.WalkLast();
      var firstDataSeq := rm.FirstDataSeq(first, last);
      var lastDataSeq := rm.LastDataSeq(first, last);
      n := (lastDataSeq - firstDataSeq) % WRAP64;
    }

    /** The comparison of `addConnStats` (Connection.cc:452). */
    method RedundancyCheck(ghost withRecv: bool) returns (mismatch: bool)
      requires rm.Valid() && rm.View() != map[] && rm.TotalsOver(rm.View(), withRecv)
      ensures mismatch <==> RedundancyMismatch(rm.View())
    {
      hide RangeManager.View, NumUniqueBytes, Total, Keyed;
      var unique := GetNumUniqueBytes();
      mismatch := (rm.analysedBytesSent - unique) % WRAP64 != rm.analysedRedundantBytes % WRAP64;
    }

    // ---------- the three phases of a run ----------

    /** Nothing was registered yet. */
    ghost predicate New()
      reads this, rm, rm.ranges.Values
    {
      && rm.Valid() && State() == SendState(NoTotals(rm.firstSeq), map[], 0) && rm.highestAcked == None
      && rm.NothingAnalysed()
    }

    /** All outgoing packets of a trace, in order, with or without gaps. */
    method SendAllPackets(segs: seq<DataSeg>) returns (status: Status)
      requires New() && Packets(segs) && SynsAtStart(segs)
      modifies this, rm`ranges, rm`analysedSentPureAckCount, rm`lastSeq, rm.ranges.Values
      ensures fresh(rm.ranges.Values - old(rm.ranges.Values))
      ensures Agree(SendAll(rm.firstSeq, segs), status, State())
      ensures status.Fine? ==> rm.Valid()
    {
      assert lastLargestEndSeq == CurrentTotals().lastLargestEndSeq == 0;
      SendsFromStart(rm.firstSeq);
      hide *;
      var i := 0;
      while i < |segs|
        invariant 0 <= i <= |segs|
        invariant rm.Valid() && fresh(rm.ranges.Values - old(rm.ranges.Values)) && 0 <= lastLargestEndSeq
        invariant SendAll(rm.firstSeq, segs[..i]) == Running(State())
      {
        status := SendRound(segs, i);
        if !status.Fine? {
          StoppedStays(rm.firstSeq, segs, i + 1);
          return;
        }
        i := i + 1;
      }
      assert segs[..|segs|] == segs;
      status := Fine;
    }

    /** One round of the loop. */
    method SendRound(segs: seq<DataSeg>, i: nat) returns (status: Status)
      requires rm.Valid() && Packets(segs) && SynsAtStart(segs) && i < |segs| && 0 <= lastLargestEndSeq
      requires SendAll(rm.firstSeq, segs[..i]) == Running(State())
      modifies this, rm`ranges, rm`analysedSentPureAckCount, rm`lastSeq, rm.ranges.Values
      ensures fresh(rm.ranges.Values - old(rm.ranges.Values)) && 0 <= lastLargestEndSeq
      ensures Agree(SendAll(rm.firstSeq, segs[..i + 1]), status, State())
      ensures status.Fine? ==> rm.Valid()
    {
      hide RangeManager.View, RangeManager.Valid, State, SendOne, Captured, SendAll;
      SendsStep(rm.firstSeq, segs, i);
      status := Send(segs[i]);
    }

    /** `registerAck` for the acknowledgement with the wire number `wire`. The marks move when it succeeds. */
    method RegisterAck(a: AckSeg, wire: int) returns (r: AckStatus)
      requires rm.Valid() && AckState(rm.View()) && rm.View() != map[] && SavedIn(rm.View(), rm.highestAcked)
      modifies this`lastLargestAckSeq, this`lastLargestAckSeqAbsolute, rm`ranges, rm`highestAcked, rm`ackCount, rm.ranges.Values
      ensures fresh(rm.ranges.Values - old(rm.ranges.Values))
      ensures r.Answered? ==> rm.Valid()
      ensures AckOne(AckPhase(old(rm.View()), old(rm.highestAcked)), a)
           == if r.Answered? then Running(AckPhase(rm.View(), rm.highestAcked)) else Died
      ensures r.Answered? ==> r.ret == Acks.ProcessAck(old(rm.View()), old(rm.highestAcked), a).ret
      ensures lastLargestAckSeq == if r == Answered(true) then a.ack else old(lastLargestAckSeq)
      ensures lastLargestAckSeqAbsolute == if r == Answered(true) then wire else old(lastLargestAckSeqAbsolute)
    {
      hide *;
      r := Acknowledge(a);
      if r == Answered(true) {
        lastLargestAckSeq, lastLargestAckSeqAbsolute := a.ack, wire;
      }
    }

    /** The same without the marks. */
    method Acknowledge(a: AckSeg) returns (r: AckStatus)
      requires rm.Valid() && AckState(rm.View()) && rm.View() != map[] && SavedIn(rm.View(), rm.highestAcked)
      modifies rm`ranges, rm`highestAcked, rm`ackCount, rm.ranges.Values
      ensures fresh(rm.ranges.Values - old(rm.ranges.Values))
      ensures r.Answered? ==> rm.Valid()
      ensures AckOne(AckPhase(old(rm.View()), old(rm.highestAcked)), a)
           == if r.Answered? then Running(AckPhase(rm.View(), rm.highestAcked)) else Died
      ensures r.Answered? ==> r.ret == Acks.ProcessAck(old(rm.View()), old(rm.highestAcked), a).ret
    {
      StateParts(rm.View());
      hide AckState, RangeManager.View, Acks.ProcessAck;
      r := rm.ProcessAck(a);
    }

    /** Both forms of the acknowledgement mark name the same position. */
    predicate MarksAgree()
      reads this, rm
    {
      lastLargestAckSeqAbsolute == (rm.firstSeq + lastLargestAckSeq) % WRAP32
    }

    /** All acknowledgements of the trace, in order. */
    method AckAllPackets(acks: seq<AckSeg>) returns (inside: bool)
      requires rm.Valid() && AckState(rm.View()) && rm.View() != map[] && rm.highestAcked == None
      modifies this`lastLargestAckSeq, this`lastLargestAckSeqAbsolute, rm`ranges, rm`highestAcked, rm`ackCount, rm.ranges.Values
      ensures fresh(rm.ranges.Values - old(rm.ranges.Values))
      ensures inside ==> rm.Valid() && AckAll(old(rm.View()), acks) == Running(AckPhase(rm.View(), rm.highestAcked))
      ensures !inside ==> AckAll(old(rm.View()), acks).Died?
      ensures inside && old(lastLargestAckSeq) == 0 ==> lastLargestAckSeq == AckMark(old(rm.View()), acks)
      ensures inside && old(MarksAgree()) ==> MarksAgree()
    {
      ghost var m := rm.View();
      AcksFromStart(m);
      hide *;
      var i := 0;
      while i < |acks|
        invariant 0 <= i <= |acks|
        invariant rm.Valid() && fresh(rm.ranges.Values - old(rm.ranges.Values))
        invariant AckAll(m, acks[..i]) == Running(AckPhase(rm.View(), rm.highestAcked))
        invariant old(lastLargestAckSeq) == 0 ==> lastLargestAckSeq == AckMark(m, acks[..i])
        invariant old(MarksAgree()) ==> MarksAgree()
      {
        var inside := AckRound(m, acks, i);
        if !inside {
          AcksStayed(m, acks, i + 1);
          return false;
        }
        i := i + 1;
      }
      assert acks[..|acks|] == acks;
      inside := true;
    }

    /** One round of the loop. */
    method AckRound(ghost m: Ranges, acks: seq<AckSeg>, i: nat) returns (inside: bool)
      requires rm.Valid() && AckState(m) && m != map[] && i < |acks|
      requires AckAll(m, acks[..i]) == Running(AckPhase(rm.View(), rm.highestAcked))
      modifies this`lastLargestAckSeq, this`lastLargestAckSeqAbsolute, rm`ranges, rm`highestAcked, rm`ackCount, rm.ranges.Values
      ensures fresh(rm.ranges.Values - old(rm.ranges.Values))
      ensures inside ==> rm.Valid() && AckAll(m, acks[..i + 1]) == Running(AckPhase(rm.View(), rm.highestAcked))
      ensures !inside ==> AckAll(m, acks[..i + 1]).Died?
      ensures inside && old(lastLargestAckSeq) == AckMark(m, acks[..i]) ==> lastLargestAckSeq == AckMark(m, acks[..i + 1])
      ensures old(MarksAgree()) ==> MarksAgree()
    {
      hide RangeManager.View, RangeManager.Valid, Acks.ProcessAck, AckState, AckAll, AckMark, AckOne;
      AcksStep(m, acks, i);
      var r := RegisterAck(acks[i], (rm.firstSeq + acks[i].ack) % WRAP32);
      inside := r.Answered?;
    }

    /** All incoming packets of the receiver's trace, in order of arrival. */
    method ReceiveAllPackets(segs: seq<DataSeg>) returns (status: Status)
      requires rm.Valid()
      requires forall i :: 0 <= i < |segs| ==> 0 <= segs[i].startSeq <= segs[i].endSeq < segs[i].startSeq + MAX_RANGE_SIZE
      modifies this`lastLargestRecvEndSeq, this`lastLargestRecvSeqAbsolute, rm`ranges, rm`analysedSentPureAckCount, rm.ranges.Values
      ensures fresh(rm.ranges.Values - old(rm.ranges.Values))
      ensures Agree(ReceiveAll(old(rm.View()), rm.lastSeq, rm.firstSeq, segs), status, rm.View())
      ensures status.Fine? ==> rm.Valid()
    {
      ghost var m := rm.View();
      hide RangeManager.View, RangeManager.Valid, ReceiveOne, ReceiveAll;
      NoReceptions(m, rm.lastSeq, rm.firstSeq);
      var i := 0;
      while i < |segs|
        invariant 0 <= i <= |segs|
        invariant rm.Valid() && fresh(rm.ranges.Values - old(rm.ranges.Values))
        invariant ReceiveAll(m, rm.lastSeq, rm.firstSeq, segs[..i]) == Running(rm.View())
      {
        ReceptionsStep(m, rm.lastSeq, rm.firstSeq, segs, i);
        status := RegisterRecvd(segs[i]);
        if !status.Fine? {
          ReceptionsStayed(m, rm.lastSeq, rm.firstSeq, segs, i + 1);
          return;
        }
        i := i + 1;
      }
      assert segs[..|segs|] == segs;
      status := Fine;
    }
  }

  lemma StateParts(m: Ranges)
    requires AckState(m)
    ensures Keyed(m) && SentOnce(m)
  {
  }

  ghost function AckOne(p: AckPhase, a: AckSeg): Run<AckPhase>
    requires AckState(p.ranges) && p.ranges != map[] && SavedIn(p.ranges, p.saved)
  {
    match Acks.ProcessAck(p.ranges, p.saved, a)
    case Processed(m', saved, _) => Running(AckPhase(m', saved))
    case RanOff => Died
  }

  lemma AcksFromStart(m: Ranges)
    requires AckState(m) && m != map[]
    ensures AckAll(m, []) == Running(AckPhase(m, None)) && AckMark(m, []) == 0
  {
  }

  lemma AcksStep(m: Ranges, acks: seq<AckSeg>, i: nat)
    requires AckState(m) && m != map[] && i < |acks| && AckAll(m, acks[..i]).Running?
    ensures var p := AckAll(m, acks[..i]).state;
      && AckState(p.ranges) && p.ranges != map[] && SavedIn(p.ranges, p.saved)
      && AckAll(m, acks[..i + 1]) == AckOne(p, acks[i])
      && (AckOne(p, acks[i]).Running? ==> Acks.ProcessAck(p.ranges, p.saved, acks[i]).Processed?)
      && var o := Acks.ProcessAck(p.ranges, p.saved, acks[i]);
      AckMark(m, acks[..i + 1]) == if o.Processed? && o.ret then acks[i].ack else AckMark(m, acks[..i])
  {
    hide Acks.ProcessAck, AckState;
    assert acks[..i + 1][..i] == acks[..i];
  }

  lemma {:induction false} AcksStayed(m: Ranges, acks: seq<AckSeg>, i: nat)
    requires AckState(m) && m != map[] && i <= |acks| && AckAll(m, acks[..i]).Died?
    ensures AckAll(m, acks).Died?
    decreases |acks|
  {
    hide Acks.ProcessAck, AckState;
    if i == |acks| {
      assert acks[..i] == acks;
    } else {
      var n := |acks| - 1;
      assert acks[..n][..i] == acks[..i];
      AcksStayed(m, acks[..n], i);
    }
  }

  lemma NoReceptions(m: Ranges, lastSeq: int, firstSeq: int)
    requires Keyed(m)
    ensures ReceiveAll(m, lastSeq, firstSeq, []) == Running(m)
  {
  }

  /** One reception at a time. */
  lemma ReceptionsStep(m: Ranges, lastSeq: int, firstSeq: int, segs: seq<DataSeg>, i: nat)
    requires Keyed(m) && i < |segs|
    requires forall i :: 0 <= i < |segs| ==> 0 <= segs[i].startSeq <= segs[i].endSeq < segs[i].startSeq + MAX_RANGE_SIZE
    ensures var r := ReceiveAll(m, lastSeq, firstSeq, segs[..i]);
      r.Running? ==> ReceiveAll(m, lastSeq, firstSeq, segs[..i + 1]) == ReceiveOne(r.state, lastSeq, firstSeq, segs[i])
  {
    hide ReceiveOne;
    assert segs[..i + 1][..i] == segs[..i];
  }

  lemma {:induction false} ReceptionsStayed(m: Ranges, lastSeq: int, firstSeq: int, segs: seq<DataSeg>, i: nat)
    requires Keyed(m) && i <= |segs|
    requires forall i :: 0 <= i < |segs| ==> 0 <= segs[i].startSeq <= segs[i].endSeq < segs[i].startSeq + MAX_RANGE_SIZE
    requires !ReceiveAll(m, lastSeq, firstSeq, segs[..i]).Running?
    ensures ReceiveAll(m, lastSeq, firstSeq, segs) == ReceiveAll(m, lastSeq, firstSeq, segs[..i])
    decreases |segs|
  {
    hide ReceiveOne;
    if i == |segs| {
      assert segs[..i] == segs;
    } else {
      var n := |segs| - 1;
      assert segs[..n][..i] == segs[..i];
      ReceptionsStayed(m, lastSeq, firstSeq, segs[..n], i);
    }
  }

  /** Once the run stopped, it stays stopped. */
  lemma {:induction false} StoppedStays(firstSeq: int, segs: seq<DataSeg>, i: nat)
    requires Packets(segs) && i <= |segs| && !SendAll(firstSeq, segs[..i]).Running?
    ensures SendAll(firstSeq, segs) == SendAll(firstSeq, segs[..i])
    decreases |segs|
  {
    hide SendOne;
    if i == |segs| {
      assert segs[..i] == segs;
    } else {
      var n := |segs| - 1;
      assert segs[..n][..i] == segs[..i];
      StoppedStays(firstSeq, segs[..n], i);
    }
  }

  /** Every SYN sits at the start and carries no data, so none changes the first number of the connection. */
  ghost predicate SynsAtStart(segs: seq<DataSeg>) {
    forall i :: 0 <= i < |segs| && segs[i].flags.syn ==> segs[i].endSeq == 0
  }

  lemma GapFreeSyns(segs: seq<DataSeg>)
    requires GapFree(segs) && Packets(segs)
    ensures SynsAtStart(segs)
  {
    forall i | 0 <= i < |segs| && segs[i].flags.syn
      ensures segs[i].endSeq == 0
    {
      assert GapFreeStep(FrontOf(segs[..i]), segs[i]);
    }
  }

  lemma RegisterKeepsSpan(t: Totals, g: DataSeg)
    ensures var g' := Register(t, g).1;
      g'.startSeq == g.startSeq && g'.endSeq == g.endSeq && g'.payloadSize == g.payloadSize && g'.flags == g.flags
  {
  }

  // ---------- a whole trace ----------

  /** The send phase of a new connection, with the validation that follows it. */
  method SendAndValidate(conn: Connection, t: Trace) returns (status: Status, validated: bool)
    requires conn.New() && WellFormed(t) && conn.rm.firstSeq == t.firstSeq
    modifies conn, conn.rm`ranges, conn.rm`analysedSentPureAckCount, conn.rm`lastSeq, conn.rm.ranges.Values
    ensures fresh(conn.rm.ranges.Values - old(conn.rm.ranges.Values))
    ensures status.Fine? || status.LogicError?
    ensures SmallPayloads(t.sent) ==> status.Fine?
    ensures status.LogicError? ==> RunAll(t).GuardTripped?
    ensures status.Fine? ==> conn.rm.Valid() && SendPhase(t, conn.State())
    ensures status.Fine? ==> (validated <==> FrontOf(t.sent).last != 0)
  {
    hide RangeManager.View, GapFree, SendAll, FrontOf, Packets, Ordered, ReceivedRun;
    validated := false;
    GapFreeSyns(t.sent);
    status := conn.SendAllPackets(t.sent);
    SentVerdict(t);
    if status.Fine? {
      hide Connection.State, Connection.CurrentTotals;
      validated := ValidateNow(conn);
    }
  }

  method ValidateNow(conn: Connection) returns (validated: bool)
    requires conn.rm.Valid() && conn.rm.View() != map[]
    ensures var st := conn.State(); validated <==> ValidatorAccepts(st.ranges, st.lastSeq, st.totals)
  {
    hide RangeManager.View, ValidatorAccepts;
    validated := conn.rm.ValidateContent(conn.CurrentTotals());
  }

  /** The figures of `calculateRetransAndRDBStats` and `addConnStats` over all entries. */
  method Summarise(conn: Connection, validated: bool, revalidated: bool) returns (r: Figures)
    requires conn.rm.Valid() && conn.rm.View() != map[] && conn.rm.NothingAnalysed()
    modifies conn.rm
    ensures conn.rm.View() == old(conn.rm.View())
    ensures r == Summary(conn.rm.View(), validated, revalidated)
  {
    hide RangeManager.View, Total, RedundancyMismatch, Window, FirstKey, Keyed;
    var first := conn.rm.WalkBegin();
    FullWindow(conn.rm.View());
    conn.rm.CalculateRealLoss(first, None, true);
    var mismatch := conn.RedundancyCheck(true);
    r := Figures(validated, revalidated, conn.rm.analysedBytesSent, conn.rm.analysedBytesSentUnique, conn.rm.analysedRedundantBytes,
                 conn.rm.analysedLostBytes, conn.rm.analysedPacketSentCountInDump, conn.rm.analysedPacketReceivedCount, mismatch);
  }

  /** All acknowledgements, the validation after them, then all receptions. */
  method AckAndReceive(conn: Connection, t: Trace, ghost st: SendState) returns (status: Status, validated: bool)
    requires WellFormed(t) && conn.rm.Valid() && st == conn.State() && SendPhase(t, st)
    requires AckState(st.ranges) && st.ranges != map[] && st.lastSeq == FrontOf(t.sent).last
    requires conn.rm.highestAcked == None && conn.rm.firstSeq == t.firstSeq
    modifies conn`lastLargestRecvEndSeq, conn`lastLargestRecvSeqAbsolute, conn`lastLargestAckSeq, conn`lastLargestAckSeqAbsolute,
      conn.rm`ranges, conn.rm`highestAcked,
      conn.rm`ackCount, conn.rm`analysedSentPureAckCount, conn.rm.ranges.Values
    ensures validated <==> FrontOf(t.sent).last != 0
    ensures status.LogicError? ==> RunAll(t).GuardTripped?
    ensures status.AssertionFails? ==> RunAll(t).Died?
    ensures status.Fine? ==>
      && conn.rm.Valid() && RunAll(t).Running?
      && RunAll(t).state.sent == st && RunAll(t).state.ranges == conn.rm.View()
  {
    hide RangeManager.View, Timely, Ends, GapFree, Packets, Ordered, ReceivedRun, FrontOf, ReceiveAll, AckAll, SendAll, AckState;
    SentVerdict(t);
    AckVerdict(t, st);
    validated := AckAndValidate(conn, t, st);
    ReceiveVerdict(t, st, conn.rm.View());
    status := conn.ReceiveAllPackets(t.received);
  }

  method AckAndValidate(conn: Connection, t: Trace, ghost st: SendState) returns (validated: bool)
    requires WellFormed(t) && conn.rm.Valid() && st == conn.State() && SendPhase(t, st)
    requires AckState(st.ranges) && st.ranges != map[] && conn.rm.highestAcked == None
    modifies conn`lastLargestAckSeq, conn`lastLargestAckSeqAbsolute, conn.rm`ranges, conn.rm`highestAcked,
      conn.rm`ackCount, conn.rm.ranges.Values
    ensures fresh(conn.rm.ranges.Values - old(conn.rm.ranges.Values))
    ensures conn.rm.Valid() && AckAll(st.ranges, t.acks) == Running(AckPhase(conn.rm.View(), conn.rm.highestAcked))
    ensures AckPhaseOf(t, st, conn.rm.View())
    ensures validated <==> FrontOf(t.sent).last != 0
  {
    hide RangeManager.View, RangeManager.Valid, WellFormed, SendPhase, AckState, AckPhaseOf, FrontOf, AckAll, ValidatorAccepts;
    AckVerdict(t, st);
    var inside := conn.AckAllPackets(t.acks);
    AckedVerdict(t, st, conn.rm.View());
    validated := ValidateNow(conn);
  }

  /** The three phases on a new connection. */
  method RunPhases(conn: Connection, t: Trace) returns (status: Status, validated: bool, revalidated: bool)
    requires conn.New() && WellFormed(t) && conn.rm.firstSeq == t.firstSeq
    modifies conn, conn.rm`ranges, conn.rm`highestAcked, conn.rm`ackCount, conn.rm`analysedSentPureAckCount,
      conn.rm`lastSeq, conn.rm.ranges.Values
    ensures status.LogicError? ==> RunAll(t).GuardTripped?
    ensures status.AssertionFails? ==> RunAll(t).Died?
    ensures status.Fine? ==>
      && conn.rm.Valid() && RunAll(t).Running? && RunAll(t).state.ranges == conn.rm.View()
      && (validated <==> FrontOf(t.sent).last != 0) && (revalidated <==> FrontOf(t.sent).last != 0)
  {
    hide RangeManager.View, WellFormed, Ends, SendPhase, RunAll, FrontOf, AckState;
    revalidated := false;
    status, validated := SendAndValidate(conn, t);
    if !status.Fine? {
      return;
    }
    ghost var st := conn.State();
    SentReady(t, st);
    status, revalidated := AckAndReceive(conn, t, st);
  }

  /** The whole tool on one connection: all sends, the validation, all acknowledgements, all receptions,
      the summary. Only the recursion guard can stop it, which it does on no trace of small packets, and an
      assertion about a reception, which fails on no trace of receivable ones. If it is not stopped, the map
      of objects it leaves counts for every byte the packets that carried it, on timely acknowledgements
      with the time of the first one above it, and the totals and checks of `Figures` are those of the trace. */
  method AnalyseTrace(t: Trace) returns (conn: Connection, status: Status, r: Figures)
    requires WellFormed(t)
    ensures status.LogicError? ==> RunAll(t).GuardTripped?
    ensures status.AssertionFails? ==> RunAll(t).Died?
    ensures SmallPayloads(t.sent) && SmallPayloads(t.received) ==> !status.LogicError?
    ensures Receivables(t) ==> !status.AssertionFails?
    ensures status.Fine? ==> var m := conn.rm.View();
      && RunAll(t).Running? && m == RunAll(t).state.ranges
      && (forall b :: Unmarked(At(m, b)) == TraceCounts(t, b))
      && (Timely(t) ==> forall b :: At(m, b) == TraceInfo(t, b))
      && FiguresOf(t, r)
  {
    hide RangeManager.View, Timely, TraceInfo, TraceCounts, Unmarked, GapFree, ReceivedRun, Ordered, At, FiguresOf,
      OnlyFirstHoldsData, Ends, RunAll, FrontOf, Receivables;
    r := Figures(false, false, 0, 0, 0, 0, 0, 0, false);
    RunCompletes(t);
    conn := new Connection(t.firstSeq);
    var validated, revalidated: bool;
    status, validated, revalidated := RunPhases(conn, t);
    if !status.Fine? {
      return;
    }
    RunReports(t, validated);
    RunCounts(t);
    if Timely(t) {
      RunRefinesTrace(t);
    }
    r := Summarise(conn, validated, revalidated);
  }
}
