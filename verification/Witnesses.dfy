/** Concrete runs on which properties of the code fail. Each starts from packets, not from a map. */
module Witnesses {
  import opened Common
  import opened OrderedMap
  import opened ByteRanges
  import opened Index
  import opened ByteView
  import opened Registration
  import opened SendRun
  import opened SendTheorems
  import opened Acks
  import opened AckStates
  import opened AckRun
  import opened OldAcks
  import opened ReceiveRun
  import opened Report
  import opened Accounting
  import opened WholeRun
  import opened Stretch
  import opened RunTheorems
  import opened Gaps
  import opened ByteRangeObjects
  import opened Recursion
  import opened Insertion
  import opened Bundling
  import opened Edges

  /** A data packet of the bytes from `start` to `end`, as it is captured. */
  predicate Packet(g: DataSeg, start: int, end: int) {
    && Captured(g) && g.startSeq == start && g.endSeq == end && !g.flags.Control()
  }

  predicate SynPacket(g: DataSeg) {
    Captured(g) && g.startSeq == 0 && g.endSeq == 0 && g.flags == Flags(true, false, false)
  }

  lemma SingleGapFree(g: DataSeg, end: int)
    requires Packet(g, 0, end) && 0 <= end < MAX_RANGE_SIZE
    ensures GapFree([g]) && Packets([g])
    ensures FrontOf([g]) == Front(end, end, false, None, false)
  {
    assert [g][..0] == [];
  }

  // ---------- the two checks of the tool ----------

  /** After a single pure ACK the validator complains. */
  lemma AckOnlyRejected(firstSeq: int, g: DataSeg)
    requires Packet(g, 0, 0)
    ensures var t := Trace(firstSeq, [g], [], []);
      && WellFormed(t) && RunAll(t).Running?
      && RunAll(t).state.ranges != map[]
      && !ValidatorAccepts(RunAll(t).state.ranges, RunAll(t).state.sent.lastSeq, RunAll(t).state.sent.totals)
  {
    var t := Trace(firstSeq, [g], [], []);
    SingleGapFree(g, 0);
    hide FrontOf, RunAll, GapFree, ValidatorAccepts;
    assert WellFormed(t);
    RunCompletes(t);
    RunChecks(t);
  }

  /** After a single data packet without SYN the redundancy check reports a mismatch. */
  lemma OneSegmentMismatch(firstSeq: int, g: DataSeg, end: int)
    requires Packet(g, 0, end) && 0 < end <= 1502
    ensures var t := Trace(firstSeq, [g], [], []);
      && WellFormed(t) && Timely(t) && Unbundled([g]) && RunAll(t).Running?
      && RunAll(t).state.ranges != map[] && RedundancyMismatch(RunAll(t).state.ranges)
  {
    var t := Trace(firstSeq, [g], [], []);
    SingleGapFree(g, end);
    assert [g][..0] == [];
    assert Unbundled([g]);
    UnbundledIsUncut(t);
    hide FrontOf, RunAll, GapFree, RedundancyMismatch, OnlyFirstHoldsData, Unbundled;
    assert WellFormed(t) && OneStretch(t);
    RunCompletes(t);
    RunChecks(t);
  }

  /** After ten bytes and a gap of ten the validator finds no discontinuity, since the gap is behind the first entry. */
  lemma GapUnnoticed()
    ensures var r := SendAll(0, [Plain10(0), Plain10(20)]);
      && Packets([Plain10(0), Plain10(20)]) && r.Running?
      && var m := r.state.ranges;
      && Covered(m, 9) && !Covered(m, 15) && Covered(m, 25) && forall k :: k in m ==> !BrokenAt(m, k)
  {
    hide SendAll;
    var st := TwoBeyond();
    TwoApart(st.ranges);
  }

  lemma TwoApart(m: Ranges)
    requires m.Keys == {0, 20} && m[0].endSeq == 10 && m[20].endSeq == 30
    ensures Covered(m, 9) && !Covered(m, 15) && Covered(m, 25) && forall k :: k in m ==> !BrokenAt(m, k)
  {
    assert Covers(m, 0, 9) && Covers(m, 20, 25);
    hide PrevKey;
    assert PrevKey(m, 20) == Some(0) && PrevKey(m, 0) == None by {
      AdjacentIsPrev(m, 0, 20);
      AdjacentIsPrev(m, 0, 0);
      assert !NotFirst(m, 0);
    }
  }

  // ---------- a first acknowledgement time is overwritten ----------

  /** The index after the first ten bytes were sent. */
  function TenBytes(seg: DataSeg): Ranges {
    map[0 := NewRange(0, 10).IncreaseSent(seg, false, StPkt)]
  }

  lemma TenBytesSent(firstSeq: int, g: DataSeg)
    requires Packet(g, 0, 10)
    ensures GapFree([g]) && Packets([g])
    ensures var r := SendAll(firstSeq, [g]); r.Running? && r.state.ranges == TenBytes(g)
  {
    SingleGapFree(g, 10);
    SendsFromStart(firstSeq);
    assert [g][..0] == [] && [g][..1] == [g];
    SendsStep(firstSeq, [g], 0);
    hide SendAll;
    var st0 := SendState(NoTotals(firstSeq), map[], 0);
    BeyondExactly(map[], CallFor(st0, firstSeq, g), 0, 10, 0);
    assert CreateRange(CallFor(st0, firstSeq, g), 0, 10) == TenBytes(g)[0];
    assert map[0 := TenBytes(g)[0]] == TenBytes(g);
  }

  /** Bytes 0 to 9 are sent and acknowledged together, and an acknowledgement for the first five is
      delivered late: byte 0 changes its first acknowledgement time. */
  lemma LateAckOverwrites(firstSeq: int, g: DataSeg, first: AckSeg, late: AckSeg)
    requires Packet(g, 0, 10) && first.ack == 10 && late.ack == 5 && first.tstampPcap != late.tstampPcap
    ensures GapFree([g]) && Packets([g]) && SendAll(firstSeq, [g]).Running?
    ensures var m := SendAll(firstSeq, [g]).state.ranges;
      && AckState(m) && m != map[]
      && var r1, r2 := AckAll(m, [first]), AckAll(m, [first, late]);
      && r1.Running? && At(r1.state.ranges, 0) == Some(ByteInfo(1, 0, true, first.tstampPcap))
      && r2.Running? && At(r2.state.ranges, 0) == Some(ByteInfo(1, 0, true, late.tstampPcap))
  {
    TenBytesSent(firstSeq, g);
    var m := TenBytes(g);
    hide SendAll, GapFree;
    assert m.Keys == {0};
    assert AckState(m);
    BothAcks(m, first, late);
    TenBytesAcked(m, first, late);
  }

  /** A run of two acknowledgements, one at a time. */
  lemma BothAcks(m: Ranges, a: AckSeg, b: AckSeg)
    requires AckState(m) && m != map[] && ProcessAck(m, None, a).Processed?
    ensures var r1 := ProcessAck(m, None, a);
      && AckAll(m, [a]) == Running(AckPhase(r1.ranges, r1.saved))
      && AckState(r1.ranges) && r1.ranges != map[] && SavedIn(r1.ranges, r1.saved)
      && var r2 := ProcessAck(r1.ranges, r1.saved, b);
      AckAll(m, [a, b]) == if r2.Processed? then Running(AckPhase(r2.ranges, r2.saved)) else Died
  {
    hide ProcessAck, AckState;
    assert [a, b][..1] == [a] && [a][..0] == [];
    assert AckAll(m, []) == Running(AckPhase(m, None));
    ProcessKeeps(m, None, a);
  }

  lemma TenBytesAcked(m: Ranges, first: AckSeg, late: AckSeg)
    requires AckState(m) && m.Keys == {0} && m[0].endSeq == 10 && m[0].Info() == ByteInfo(1, 0, false, NO_TIME)
    requires first.ack == 10 && late.ack == 5
    ensures var r1 := ProcessAck(m, None, first);
      && r1.Processed? && AckState(r1.ranges) && SavedIn(r1.ranges, r1.saved) && r1.ranges != map[]
      && At(r1.ranges, 0) == Some(ByteInfo(1, 0, true, first.tstampPcap))
      && var r2 := ProcessAck(r1.ranges, r1.saved, late);
      r2.Processed? && At(r2.ranges, 0) == Some(ByteInfo(1, 0, true, late.tstampPcap))
  {
    assert FirstKey(m) == Some(0);
    var r := AckExact(m[0], first, false);
    var m1 := m[0 := r];
    assert ProcessAck(m, None, first) == Processed(m1, Some(0), true);
    TouchDisjoint(m, 0, r);
    TouchByte(m, 0, r, 0);
    var cut := SplitAt(m1, 0, 5);
    SplitDisjoint(m1, 0, 5);
    TouchByte(cut, 0, AckInside(cut[0], late), 0);
  }

  // ---------- the search for a FIN leaves the map ----------

  /** The index after a SYN was sent twice and ten bytes once. */
  function SynTwice(syn: DataSeg, again: DataSeg, g: DataSeg): Ranges {
    map[0 := NewRange(0, 0).(syn := 2).IncreaseSent(syn, false, StPkt).IncreaseSent(again, false, StRtr),
        1 := NewRange(1, 11).IncreaseSent(g, false, StPkt)]
  }

  lemma SynTwiceSent(firstSeq: int, syn: DataSeg, again: DataSeg, g: DataSeg)
    requires SynPacket(syn) && SynPacket(again) && Packet(g, 1, 11)
    ensures var segs := [syn, again, g];
      && GapFree(segs) && Packets(segs)
      && SendAll(firstSeq, segs).Running? && SendAll(firstSeq, segs).state.ranges == SynTwice(syn, again, g)
  {
    var segs := [syn, again, g];
    SynTwiceGapFree(syn, again, g);
    assert segs[..0] == [] && segs[..3] == segs;
    SendsFromStart(firstSeq);
    SendsStep(firstSeq, segs, 0);
    var st1 := SendAll(firstSeq, segs[..1]).state;
    var one := NewRange(0, 0).(syn := 1).IncreaseSent(syn, false, StPkt);
    assert st1.ranges == map[0 := one] && st1.lastSeq == 1 && st1.totals.lastLargestEndSeq == 0 == st1.totals.lastLargestStartSeq;
    SendsStep(firstSeq, segs, 1);
    hide SendAll;
    var st2 := SendAll(firstSeq, segs[..2]).state;
    var two := NewRange(0, 0).(syn := 2).IncreaseSent(syn, false, StPkt).IncreaseSent(again, false, StRtr);
    assert st2.ranges == map[0 := two] && st2.lastSeq == 1 && st2.totals.lastLargestEndSeq == 0 == st2.totals.lastLargestStartSeq;
    SendsStep(firstSeq, segs, 2);
    ThenTenBytes(firstSeq, st2, syn, again, g);
  }

  lemma SynTwiceGapFree(syn: DataSeg, again: DataSeg, g: DataSeg)
    requires SynPacket(syn) && SynPacket(again) && Packet(g, 1, 11)
    ensures GapFree([syn, again, g]) && Packets([syn, again, g])
  {
    var segs := [syn, again, g];
    assert segs[..0] == [] && segs[..1] == [syn] && segs[..2] == [syn, again];
    assert [syn, again][..1] == [syn] && [syn][..0] == [];
    assert FrontOf([syn]) == Front(0, 1, true, None, false);
    assert FrontOf([syn, again]) == Front(0, 1, true, None, false);
  }

  lemma ThenTenBytes(firstSeq: int, st: SendState, syn: DataSeg, again: DataSeg, g: DataSeg)
    requires Packet(g, 1, 11) && st.lastSeq == 1 && st.totals.lastLargestEndSeq == 0 == st.totals.lastLargestStartSeq
    requires st.ranges == map[0 := NewRange(0, 0).(syn := 2).IncreaseSent(syn, false, StPkt).IncreaseSent(again, false, StRtr)]
    ensures Keyed(st.ranges)
    ensures var r := SendOne(st, firstSeq, g); r.Running? && r.state.ranges == SynTwice(syn, again, g)
  {
    var c := CallFor(st, firstSeq, g);
    assert c.seg == g;
    BeyondExactly(st.ranges, c, 1, 11, 0);
    assert CreateRange(c, 1, 11) == SynTwice(syn, again, g)[1];
    assert st.ranges[1 := SynTwice(syn, again, g)[1]] == SynTwice(syn, again, g);
  }

  /** The data is acknowledged, and then an acknowledgement of the retransmitted SYN alone is delivered late:
      `processAck` walks off the front of the map. */
  lemma LateSynAckLeaves(firstSeq: int, syn: DataSeg, again: DataSeg, g: DataSeg, first: AckSeg, late: AckSeg)
    requires SynPacket(syn) && SynPacket(again) && Packet(g, 1, 11)
    requires first.ack == 11 && late.ack == 1 && !first.tstampPcap.Before(syn.tstampPcap)
    ensures var segs := [syn, again, g];
      && GapFree(segs) && Packets(segs) && SendAll(firstSeq, segs).Running?
      && var m := SendAll(firstSeq, segs).state.ranges;
      && AckState(m) && m != map[]
      && AckAll(m, [first]).Running? && AckAll(m, [first, late]) == Died
  {
    SynTwiceSent(firstSeq, syn, again, g);
    var m := SynTwice(syn, again, g);
    hide SendAll, GapFree, TwoEntries, ProcessAck;
    SynTwiceState(syn, again, g);
    TwoEntriesState(m);
    AckBoth(m, first);
    BothAcks(m, first, late);
    PastFirst(ProcessAck(m, None, first).ranges, late);
  }

  /** What matters about the two entries. */
  ghost predicate TwoEntries(m: Ranges) {
    && AckState(m) && m.Keys == {0, 1} && m[0].endSeq == 0 && m[1].endSeq == 11
    && m[0].fin == 0 && m[0].packetSentCount != m[0].dataSentCount
  }

  lemma TwoEntriesState(m: Ranges)
    requires TwoEntries(m)
    ensures AckState(m) && m != map[] && 0 in m
  {
  }

  lemma SynTwiceState(syn: DataSeg, again: DataSeg, g: DataSeg)
    ensures var m := SynTwice(syn, again, g);
      TwoEntries(m) && !m[0].acked && !m[1].acked && |m[0].sentTstampPcap| > 0 && m[0].sentTstampPcap[0].time == syn.tstampPcap
  {
    assert SynTwice(syn, again, g).Keys == {0, 1};
  }

  lemma AckBoth(m: Ranges, a: AckSeg)
    requires TwoEntries(m) && a.ack == 11 && 0 in m && |m[0].sentTstampPcap| > 0 && !a.tstampPcap.Before(m[0].sentTstampPcap[0].time)
    ensures AckState(m) && m != map[]
    ensures var r := ProcessAck(m, None, a); r.Processed? && r.saved == Some(1) && TwoEntries(r.ranges)
  {
    hide AckExact, AckBeyond, NextKey, FirstKey, LastKey, Disjoint;
    assert FirstKey(m) == Some(0) by { FirstOfTwo(m); }
    NextKeyIs(m, 0, 1);
    var m' := m[0 := AckBeyond(m[0], a)];
    TouchDisjoint(m, 0, AckBeyond(m[0], a));
    assert m'.Keys == {0, 1};
    AckSecond(m', a, !m[0].acked);
  }

  lemma FirstOfTwo(m: Ranges)
    requires m.Keys == {0, 1}
    ensures FirstKey(m) == Some(0)
  {
  }

  lemma AckSecond(m: Ranges, a: AckSeg, ret: bool)
    requires TwoEntries(m) && a.ack == 11
    ensures var r := AckFrom(m, Some(0), 1, a, ret); r.Processed? && r.saved == Some(1) && TwoEntries(r.ranges)
  {
    hide AckExact;
    TouchDisjoint(m, 1, AckExact(m[1], a, false));
    assert m[1 := AckExact(m[1], a, false)].Keys == {0, 1};
  }

  lemma PastFirst(m: Ranges, a: AckSeg)
    requires TwoEntries(m) && a.ack == 1
    ensures AckState(m) && m != map[] && SavedIn(m, Some(1)) && ProcessAck(m, Some(1), a) == RanOff
  {
    assert PrevKey(m, 1) == Some(0);
    BeforeLeaves(m, Some(1), 1, a);
  }

  // ---------- a bundle counts as two packets ----------

  /** Ten bytes are sent, then a pure ACK, then the ten bytes bundled with ten new ones: the entries count four
      packets for three. */
  lemma BundleCountedTwice(firstSeq: int, a: DataSeg, ack: DataSeg, b: DataSeg)
    requires Packet(a, 0, 10) && Packet(ack, 10, 10) && Packet(b, 0, 20)
    ensures var segs := [a, ack, b];
      && GapFree(segs) && Packets(segs) && SendAll(firstSeq, segs).Running?
      && Total(SendAll(firstSeq, segs).state.ranges, PacketsSent) == 4
  {
    var segs := [a, ack, b];
    assert segs[..0] == [] && segs[..1] == [a] && segs[..2] == [a, ack];
    assert [a, ack][..1] == [a] && [a][..0] == [];
    assert FrontOf([a]) == Front(10, 10, false, None, false);
    assert FrontOf([a, ack]) == Front(10, 10, false, None, false);
    TopIsHighest([a, ack]);
    assert LeavesTail([a, ack], 1, 10);
    assert HeldTail([a, ack]);
    assert Highest(segs[..0]) == 0 && Highest(segs[..1]) == 10;
    assert CountedTwice(segs) == {2};
    hide SendAll, Total, CountedTwice, FrontOf;
    SendsComplete(firstSeq, segs);
    PacketsOfRun(firstSeq, segs);
  }

  // ---------- redundant bytes that are none, and some that are forgotten ----------

  /** The state after a first packet of `n` bytes. */
  lemma FirstPacket(firstSeq: int, a: DataSeg, n: int) returns (st: SendState)
    requires Packet(a, 0, n) && 0 < n < MAX_RANGE_SIZE
    ensures SendOne(SendState(NoTotals(firstSeq), map[], 0), firstSeq, a) == Running(st)
    ensures st.ranges == map[0 := NewRange(0, n).IncreaseSent(a, false, StPkt)] && Keyed(st.ranges)
  {
    var st0 := SendState(NoTotals(firstSeq), map[], 0);
    BeyondExactly(map[], CallFor(st0, firstSeq, a), 0, n, 0);
    assert CreateRange(CallFor(st0, firstSeq, a), 0, n) == NewRange(0, n).IncreaseSent(a, false, StPkt);
    st := SendOne(st0, firstSeq, a).state;
  }

  /** What the totals of two and of three packets are. */
  lemma TotalsOf(firstSeq: int, segs: seq<DataSeg>)
    requires GapFree(segs) && Packets(segs)
    ensures var t := RegisterAll(firstSeq, segs); t.totBytesSent == Payload(segs) && t.totNewDataSent == Span(FrontOf(segs))
  {
    TotalsBalance(firstSeq, segs);
    NewDataIsSpan(firstSeq, segs);
  }

  lemma PayloadsOf(a: DataSeg, b: DataSeg, c: DataSeg)
    ensures Payload([a, b]) == a.payloadSize + b.payloadSize
    ensures Payload([a, b, c]) == a.payloadSize + b.payloadSize + c.payloadSize
  {
    assert [a, b, c][..2] == [a, b] && [a, b][..1] == [a] && [a][..0] == [];
    assert Payload([a]) == a.payloadSize;
  }

  lemma InsideGapFree(a: DataSeg, b: DataSeg)
    requires Packet(a, 0, 20) && Packet(b, 10, 30)
    ensures GapFree([a, b]) && Packets([a, b]) && GapFree([a]) && Packets([a])
    ensures FrontOf([a]) == Front(20, 20, false, None, false) && FrontOf([a, b]) == Front(30, 30, false, None, false)
  {
    assert [a, b][..0] == [] && [a, b][..1] == [a] && [a][..0] == [];
    assert FrontOf([a]) == Front(20, 20, false, None, false);
  }

  /** Twenty bytes are sent, and the last ten of them bundled with ten new ones: twenty bytes count as
      redundant, ten were sent again. */
  lemma BundleInside(firstSeq: int, a: DataSeg, b: DataSeg)
    requires Packet(a, 0, 20) && Packet(b, 10, 30)
    ensures var segs := [a, b];
      && GapFree(segs) && Packets(segs) && SendAll(firstSeq, segs).Running?
      && var m := SendAll(firstSeq, segs).state.ranges;
      && Total(m, RedundantBytes) == 20 && Total(m, SentBytes) - Total(m, UniqueBytes) == 10
  {
    var segs := [a, b];
    InsideGapFree(a, b);
    assert segs[..0] == [] && segs[..1] == [a] && segs[..2] == segs;
    SendsFromStart(firstSeq);
    var st := FirstPacket(firstSeq, a, 20);
    SendsStep(firstSeq, segs, 0);
    OneEntry(st.ranges, 0);
    hide SendAll, FrontOf, RegisterAll, SendOne, FirstPart, Forgotten, Total, SendInv, EmptiesFresh, GapFree;
    SendsComplete(firstSeq, segs);
    SendRefinesCounter(firstSeq, [a]);
    SendsFresh(firstSeq, [a]);
    SendsStep(firstSeq, segs, 1);
    assert GapFreeStep(FrontOf([a]), b);
    PacketAdds(st, FrontOf([a]), firstSeq, b);
    SendConserves(firstSeq, segs);
    TotalsOf(firstSeq, segs);
    PayloadsOf(a, b, b);
    InsideAdds(st.ranges);
  }

  lemma OneEntry(m: Ranges, k: int)
    requires m.Keys == {k}
    ensures Total(m, RedundantBytes) == RedundantBytes(m[k])
  {
    assert m - {k} == map[];
  }

  lemma InsideAdds(m: Ranges)
    requires m.Keys == {0} && m[0].endSeq == 20 && m[0].rdbCount == 0
    ensures FirstPart(m, 10, 30) == 10 && Forgotten(m, 10, 0) == 0 && Forgotten(m, 30, 10) == 0
  {
    hide FirstPart, Forgotten;
    assert Covers(m, 0, 10) && Disjoint(m);
    FirstPartIs(m, 10, 30, 0);
    ForgottenIs(m, 10, 0, 0);
    assert !Covered(m, 30);
    NotHeldForgetsNothing(m, 30, 10);
  }

  lemma NotHeldForgetsNothing(m: Ranges, x: int, from: int)
    requires !Covered(m, x)
    ensures Forgotten(m, x, from) == 0
  {
  }

  /** Ten bytes are sent, bundled with ten new ones, and the first five sent again: fifteen bytes were sent
      again, ten count as redundant. */
  lemma BundleForgotten(firstSeq: int, a: DataSeg, b: DataSeg, c: DataSeg)
    requires Packet(a, 0, 10) && Packet(b, 0, 20) && Packet(c, 0, 5)
    ensures var segs := [a, b, c];
      && GapFree(segs) && Packets(segs) && SendAll(firstSeq, segs).Running?
      && var m := SendAll(firstSeq, segs).state.ranges;
      && Total(m, RedundantBytes) == 10 && Total(m, SentBytes) - Total(m, UniqueBytes) == 15
  {
    var segs := [a, b, c];
    FiveGapFree(a, b, c);
    assert segs[..2] == [a, b] && segs[..3] == segs;
    hide SendAll, FrontOf, RegisterAll, SendOne, FirstPart, Forgotten, Total, GapFree, RedundantBytes, SendInv, EmptiesFresh;
    var st := BundledOnce(firstSeq, a, b);
    SendsComplete(firstSeq, segs);
    SendRefinesCounter(firstSeq, [a, b]);
    SendsFresh(firstSeq, [a, b]);
    SendsStep(firstSeq, segs, 2);
    PacketAdds(st, FrontOf([a, b]), firstSeq, c);
    SendConserves(firstSeq, segs);
    TotalsOf(firstSeq, segs);
    PayloadsOf(a, b, c);
    FiveForgets(st.ranges);
  }

  /** The states after the first packet and after the bundle. */
  lemma BundleSent(firstSeq: int, a: DataSeg, b: DataSeg) returns (st1: SendState, st: SendState)
    requires Packet(a, 0, 10) && Packet(b, 0, 20)
    ensures Packets([a]) && SendAll(firstSeq, [a]) == Running(st1)
    ensures Keyed(st1.ranges) && SendOne(st1, firstSeq, b) == Running(st)
    ensures Packets([a, b]) && SendAll(firstSeq, [a, b]) == Running(st)
    ensures st1.ranges.Keys == {0} && RedundantBytes(st1.ranges[0]) == 0
    ensures Keyed(st.ranges) && st.ranges.Keys == {0, 10} && st.ranges[0].endSeq == 10 && st.ranges[0].rdbCount == 1
  {
    hide SendAll, SendOne, RedundantBytes;
    assert [a, b][..0] == [] && [a, b][..1] == [a] && [a, b][..2] == [a, b];
    SendsFromStart(firstSeq);
    st1 := FirstOfThree(firstSeq, a);
    FreshEntry(st1.ranges[0]);
    SendsStep(firstSeq, [a, b], 0);
    st := SecondOfThree(st1, firstSeq, a, b);
    SendsStep(firstSeq, [a, b], 1);
  }

  /** The bundle counts on the entry at 0. */
  lemma BundledOnce(firstSeq: int, a: DataSeg, b: DataSeg) returns (st: SendState)
    requires Packet(a, 0, 10) && Packet(b, 0, 20)
    ensures Packets([a, b]) && SendAll(firstSeq, [a, b]) == Running(st)
    ensures Keyed(st.ranges) && st.ranges.Keys == {0, 10} && st.ranges[0].endSeq == 10 && st.ranges[0].rdbCount == 1
    ensures Total(st.ranges, RedundantBytes) == 10
  {
    FiveGapFree(a, b, a.(endSeq := 5, payloadSize := 5));
    hide SendAll, FrontOf, SendOne, FirstPart, Forgotten, Total, GapFree, RedundantBytes, SendInv, EmptiesFresh;
    var st1;
    st1, st := BundleSent(firstSeq, a, b);
    OneEntry(st1.ranges, 0);
    SendRefinesCounter(firstSeq, [a]);
    SendsFresh(firstSeq, [a]);
    PacketAdds(st1, FrontOf([a]), firstSeq, b);
  }

  lemma FreshEntry(r: Range)
    requires r.dataRetransCount == 0 && r.rdbCount == 0
    ensures RedundantBytes(r) == 0
  {
  }

  lemma FiveGapFree(a: DataSeg, b: DataSeg, c: DataSeg)
    requires Packet(a, 0, 10) && Packet(b, 0, 20) && Packet(c, 0, 5)
    ensures GapFree([a, b, c]) && Packets([a, b, c]) && GapFree([a, b]) && GapFree([a])
    ensures FrontOf([a]) == Front(10, 10, false, None, false) && FrontOf([a, b]) == Front(20, 20, false, None, false)
    ensures FrontOf([a, b, c]) == Front(20, 20, false, None, false)
    ensures GapFreeStep(FrontOf([a]), b) && GapFreeStep(FrontOf([a, b]), c)
  {
    var segs := [a, b, c];
    assert segs[..0] == [] && segs[..1] == [a] && segs[..2] == [a, b];
    assert [a, b][..1] == [a] && [a, b][..0] == [] && [a][..0] == [];
    assert FrontOf([a]) == Front(10, 10, false, None, false);
    assert FrontOf([a, b]) == Front(20, 20, false, None, false);
  }

  lemma FiveForgets(m: Ranges)
    requires Keyed(m) && m.Keys == {0, 10} && m[0].endSeq == 10 && m[0].rdbCount == 1
    ensures Forgotten(m, 0, 0) == 0 && Forgotten(m, 5, 0) == 5
  {
    hide Forgotten;
    KeyForgetsNothing(m, 0, 0);
    assert Covers(m, 0, 5) && Disjoint(m);
    ForgottenIs(m, 5, 0, 0);
  }

  // ---------- a receive difference to the wrong packet ----------

  /** The entry at 0 after ten bytes were sent, sent again with ten new ones, and sent again. */
  function SentThrice(a: DataSeg, b: DataSeg, c: DataSeg): Range {
    NewRange(0, 10).(rdbCount := 1, dataRetransCount := 1)
      .IncreaseSent(a, false, StPkt).IncreaseSent(b, true, StPkt).IncreaseSent(c, false, StRtr)
  }

  lemma ThriceGapFree(a: DataSeg, b: DataSeg, c: DataSeg)
    requires Packet(a, 0, 10) && Packet(b, 0, 20) && Packet(c, 0, 10)
    ensures GapFree([a, b, c]) && Packets([a, b, c])
  {
    var segs := [a, b, c];
    assert segs[..0] == [] && segs[..1] == [a] && segs[..2] == [a, b];
    assert [a, b][..1] == [a] && [a][..0] == [];
    assert FrontOf([a]) == Front(10, 10, false, None, false);
    assert FrontOf([a, b]) == Front(20, 20, false, None, false);
  }

  /** The state after a first packet of ten bytes. */
  lemma FirstOfThree(firstSeq: int, a: DataSeg) returns (st: SendState)
    requires Packet(a, 0, 10)
    ensures SendOne(SendState(NoTotals(firstSeq), map[], 0), firstSeq, a) == Running(st)
    ensures st.ranges == map[0 := NewRange(0, 10).IncreaseSent(a, false, StPkt)] && Keyed(st.ranges)
    ensures st.lastSeq == 10 && st.totals.lastLargestEndSeq == 10 && st.totals.lastLargestStartSeq == 0
  {
    var st0 := SendState(NoTotals(firstSeq), map[], 0);
    BeyondExactly(map[], CallFor(st0, firstSeq, a), 0, 10, 0);
    assert CreateRange(CallFor(st0, firstSeq, a), 0, 10) == NewRange(0, 10).IncreaseSent(a, false, StPkt);
    st := SendOne(st0, firstSeq, a).state;
  }

  /** The bundle counts on the entry and adds one. */
  lemma SecondOfThree(st: SendState, firstSeq: int, a: DataSeg, b: DataSeg) returns (st': SendState)
    requires Packet(b, 0, 20) && st.ranges == map[0 := NewRange(0, 10).IncreaseSent(a, false, StPkt)]
    requires st.lastSeq == 10 && st.totals.lastLargestEndSeq == 10 && st.totals.lastLargestStartSeq == 0
    ensures Keyed(st.ranges) && SendOne(st, firstSeq, b) == Running(st')
    ensures st'.ranges.Keys == {0, 10} && Keyed(st'.ranges) && st'.ranges[10].endSeq == 20
    ensures st'.ranges[0] == NewRange(0, 10).(rdbCount := 1).IncreaseSent(a, false, StPkt).IncreaseSent(b, true, StPkt)
    ensures st'.lastSeq == 20 && st'.totals.lastLargestEndSeq == 20 && st'.totals.lastLargestStartSeq == 0
  {
    var c := CallFor(st, firstSeq, b);
    assert c.seg == b.(isRdb := true, rdbEndSeq := 10);
    var r := NewRange(0, 10).(rdbCount := 1).IncreaseSent(a, false, StPkt).IncreaseSent(b, true, StPkt);
    assert CountExisting(st.ranges[0], c, 0, 0) == r;
    var m := st.ranges[0 := r];
    assert Step(st.ranges, c, 0, 20, 0) == Again(m, 10);
    BeyondExactly(m, c, 10, 20, 1);
    var tail := CreateRange(c, 10, 20);
    assert tail.startSeq == 10 && tail.endSeq == 20 && tail.Sized();
    PutKeyed(m, 10, tail);
    st' := SendOne(st, firstSeq, b).state;
  }

  lemma ThirdOfThree(st: SendState, firstSeq: int, a: DataSeg, b: DataSeg, c: DataSeg) returns (st': SendState)
    requires Packet(c, 0, 10) && st.ranges.Keys == {0, 10} && Keyed(st.ranges)
    requires st.ranges[0] == NewRange(0, 10).(rdbCount := 1).IncreaseSent(a, false, StPkt).IncreaseSent(b, true, StPkt)
    requires st.totals.lastLargestEndSeq == 20
    ensures SendOne(st, firstSeq, c) == Running(st')
    ensures 0 in st'.ranges && Keyed(st'.ranges) && st'.ranges[0] == SentThrice(a, b, c)
  {
    var call := CallFor(st, firstSeq, c);
    assert call.seg == c.(retrans := true);
    assert CountExisting(st.ranges[0], call, 0, 0) == SentThrice(a, b, c);
    PutKeyed(st.ranges, 0, SentThrice(a, b, c));
    st' := SendOne(st, firstSeq, c).state;
  }

  lemma SentThriceRun(firstSeq: int, a: DataSeg, b: DataSeg, c: DataSeg)
    requires Packet(a, 0, 10) && Packet(b, 0, 20) && Packet(c, 0, 10)
    ensures var segs := [a, b, c];
      && GapFree(segs) && Packets(segs) && SendAll(firstSeq, segs).Running?
      && var m := SendAll(firstSeq, segs).state.ranges;
      0 in m && m[0] == SentThrice(a, b, c)
  {
    var segs := [a, b, c];
    ThriceGapFree(a, b, c);
    hide SendAll, SendOne, GapFree, SentThrice, Packet;
    assert segs[..0] == [] && segs[..3] == segs;
    SendsFromStart(firstSeq);
    var st1 := FirstOfThree(firstSeq, a);
    SendsStep(firstSeq, segs, 0);
    var st2 := SecondOfThree(st1, firstSeq, a, b);
    SendsStep(firstSeq, segs, 1);
    var st3 := ThirdOfThree(st2, firstSeq, a, b, c);
    SendsStep(firstSeq, segs, 2);
  }

  /** Ten bytes are sent, bundled with ten new ones, and retransmitted; the retransmission arrives. The
      index found for its stamp is 1, and the recorded time there is that of the bundle. */
  lemma BundleMisleads(firstSeq: int, a: DataSeg, b: DataSeg, c: DataSeg)
    requires Packet(a, 0, 10) && Packet(b, 0, 20) && Packet(c, 0, 10) && a.tstampTcp != c.tstampTcp
    ensures var segs := [a, b, c];
      && GapFree(segs) && Packets(segs) && SendAll(firstSeq, segs).Running?
      && var st := SendAll(firstSeq, segs).state;
      && Keyed(st.ranges)
      && var r := ReceiveOne(st.ranges, st.lastSeq, firstSeq, c);
      && r.Running? && 0 in r.state
      && var entry := r.state[0];
      && entry.receivedTstampTcp == c.tstampTcp
      && StampIndex(entry.tstampsTcp, entry.receivedTstampTcp) == Some(1)
      && |entry.sentTstampPcap| == 3
      && entry.sentTstampPcap[1].time == b.tstampPcap && entry.sentTstampPcap[2].time == c.tstampPcap
  {
    hide SendAll, GapFree, SentThrice, CountReceived, Packet;
    SentThriceRun(firstSeq, a, b, c);
    var st := SendAll(firstSeq, [a, b, c]).state;
    ThriceSpan(a, b, c);
    ReceivedTen(st.ranges, st.lastSeq, firstSeq, c);
    EntryReceived(a, b, c, RecvCall(st.lastSeq, firstSeq, c));
  }

  lemma ThriceSpan(a: DataSeg, b: DataSeg, c: DataSeg)
    ensures var r := SentThrice(a, b, c); r.startSeq == 0 && r.endSeq == 10
  {
  }

  /** A reception of exactly one entry counts on it and on nothing else. */
  lemma ReceivedTen(m: Ranges, lastSeq: int, firstSeq: int, c: DataSeg)
    requires Keyed(m) && 0 in m && m[0].endSeq == 10 && Packet(c, 0, 10)
    ensures ReceiveOne(m, lastSeq, firstSeq, c) == Running(m[0 := CountReceived(m[0], RecvCall(lastSeq, firstSeq, c), 0)])
  {
    hide CountReceived;
  }

  lemma EntryReceived(a: DataSeg, b: DataSeg, c: DataSeg, call: Call)
    requires a.tstampTcp != c.tstampTcp && call.seg == Forwarded(c)
    ensures var entry := CountReceived(SentThrice(a, b, c), call, 0);
      && entry.receivedTstampTcp == c.tstampTcp
      && StampIndex(entry.tstampsTcp, entry.receivedTstampTcp) == Some(1)
      && |entry.sentTstampPcap| == 3
      && entry.sentTstampPcap[1].time == b.tstampPcap && entry.sentTstampPcap[2].time == c.tstampPcap
  {
    var entry := CountReceived(SentThrice(a, b, c), call, 0);
    assert entry.tstampsTcp == [Stamp(a.tstampTcp, a.tstampTcpEcho), Stamp(c.tstampTcp, c.tstampTcpEcho)];
    SecondStamp(entry.tstampsTcp, c.tstampTcp);
  }

  lemma SecondStamp(s: seq<Stamp>, val: nat)
    requires |s| == 2 && s[0].val != val == s[1].val
    ensures StampIndex(s, val) == Some(1)
  {
    StampIndexIsFirst(s, val, 0);
    assert StampIndex(s, val).Some?;
  }

  /** The bundle itself arrives: its stamp is found among the bundled ones only, the index stays 0 and
      names the packet before it. */
  lemma BundleMissed(firstSeq: int, a: DataSeg, b: DataSeg)
    requires Packet(a, 0, 10) && Packet(b, 0, 20) && a.tstampTcp != b.tstampTcp && b.tstampTcp > 0
    requires 20 != (firstSeq + 1) % WRAP
    ensures var segs := [a, b];
      && Packets(segs) && SendAll(firstSeq, segs).Running?
      && var st := SendAll(firstSeq, segs).state;
      && Keyed(st.ranges)
      && var r := ReceiveOne(st.ranges, st.lastSeq, firstSeq, b);
      && r.Running? && 0 in r.state
      && var entry := r.state[0];
      && entry.receivedTstampTcp == b.tstampTcp
      && ValueIndex(entry.rdbTstampsTcp, entry.receivedTstampTcp) == Some(0)
      && StoredIndex(entry) == 0
      && |entry.sentTstampPcap| == 2
      && entry.sentTstampPcap[0].time == a.tstampPcap && entry.sentTstampPcap[1].time == b.tstampPcap
  {
    var segs := [a, b];
    hide SendAll, SendOne, Insert;
    assert segs[..0] == [] && segs[..2] == segs;
    SendsFromStart(firstSeq);
    var st1 := FirstOfThree(firstSeq, a);
    SendsStep(firstSeq, segs, 0);
    var st2 := SecondOfThree(st1, firstSeq, a, b);
    SendsStep(firstSeq, segs, 1);
    var c := RecvCall(st2.lastSeq, firstSeq, b);
    BundleReceived(st2.ranges, a, b, c);
    var r := ReceiveOne(st2.ranges, st2.lastSeq, firstSeq, b);
  }

  lemma BundleReceived(m: Ranges, a: DataSeg, b: DataSeg, c: Call)
    requires Keyed(m) && m.Keys == {0, 10} && m[10].endSeq == 20 && a.tstampTcp != b.tstampTcp && b.tstampTcp > 0
    requires m[0] == NewRange(0, 10).(rdbCount := 1).IncreaseSent(a, false, StPkt).IncreaseSent(b, true, StPkt)
    requires c.itype == InsertRecv && c.seg == Forwarded(b) && 20 != (c.firstSeq + 1) % WRAP
    ensures var r := Insert(m, c, 0, 20, 0);
      && r.Ok? && 0 in r.ranges
      && var entry := r.ranges[0];
      && entry.receivedTstampTcp == b.tstampTcp
      && ValueIndex(entry.rdbTstampsTcp, entry.receivedTstampTcp) == Some(0)
      && StoredIndex(entry) == 0
      && |entry.sentTstampPcap| == 2
      && entry.sentTstampPcap[0].time == a.tstampPcap && entry.sentTstampPcap[1].time == b.tstampPcap
  {
    var entry := CountReceived(m[0], c, 0);
    assert entry.receivedTstampTcp == b.tstampTcp && entry.endSeq == 10;
    assert entry.tstampsTcp == [Stamp(a.tstampTcp, a.tstampTcpEcho)] && entry.rdbTstampsTcp == [b.tstampTcp];
    assert |entry.sentTstampPcap| == 2 && entry.sentTstampPcap[0].time == a.tstampPcap && entry.sentTstampPcap[1].time == b.tstampPcap;
    StampIndexIsFirst(entry.tstampsTcp, b.tstampTcp, 0);
    ValueIndexIsFirst(entry.rdbTstampsTcp, b.tstampTcp, 0);
    var m1 := m[0 := entry];
    assert Step(m, c, 0, 20, 0) == Again(m1, 10);
    PutKeyed(m, 0, entry);
    hide CountExisting, CountReceived;
    assert Step(m1, c, 10, 20, 1) == Done(m1[10 := CountExisting(m1[10], c, 10, 1)]);
  }

  // ---------- an index that does not fit into eight bits ----------

  /** The same ten bytes sent again and again. */
  predicate Repeats(segs: seq<DataSeg>) {
    forall i :: 0 <= i < |segs| ==> Packet(segs[i], 0, 10)
  }

  lemma {:induction false} RepeatsGapFree(segs: seq<DataSeg>)
    requires Repeats(segs)
    ensures GapFree(segs) && Packets(segs)
    ensures FrontOf(segs) == if segs == [] then AT_START else Front(10, 10, false, None, false)
  {
    if segs != [] {
      var n := |segs| - 1;
      RepeatsGapFree(segs[..n]);
      forall i | 0 <= i < |segs|
        ensures GapFreeStep(FrontOf(segs[..i]), segs[i])
      {
        if i < n {
          assert segs[..n][..i] == segs[..i] && segs[..n][i] == segs[i];
        }
      }
    }
  }

  /** What the index holds after `n` of them. */
  ghost predicate Repeated(st: SendState, segs: seq<DataSeg>, n: nat)
    requires n <= |segs|
  {
    && st.ranges.Keys == {0} && Keyed(st.ranges) && st.ranges[0].endSeq == 10
    && st.totals.lastLargestEndSeq == 10
    && var r := st.ranges[0];
    && |r.tstampsTcp| == |r.sentTstampPcap| == n && r.dataReceivedCount == 0
    && forall j :: 0 <= j < n ==>
         r.tstampsTcp[j] == Stamp(segs[j].tstampTcp, segs[j].tstampTcpEcho) && r.sentTstampPcap[j].time == segs[j].tstampPcap
  }

  lemma RepeatOnce(st: SendState, firstSeq: int, segs: seq<DataSeg>, n: nat)
    requires n < |segs| && Repeated(st, segs, n) && Packet(segs[n], 0, 10)
    ensures var r := SendOne(st, firstSeq, segs[n]); r.Running? && Repeated(r.state, segs, n + 1)
  {
    var c := CallFor(st, firstSeq, segs[n]);
    var r := CountExisting(st.ranges[0], c, 0, 0);
    assert !c.seg.isRdb && c.seg.flags == segs[n].flags;
    PutKeyed(st.ranges, 0, r);
    assert Step(st.ranges, c, 0, 10, 0) == Done(st.ranges[0 := r]);
    assert r.tstampsTcp == st.ranges[0].tstampsTcp + [Stamp(segs[n].tstampTcp, segs[n].tstampTcpEcho)];
    assert |r.sentTstampPcap| == n + 1 && r.sentTstampPcap[n].time == segs[n].tstampPcap;
    hide CountExisting, Step;
  }

  lemma {:induction false} RepeatsSent(firstSeq: int, segs: seq<DataSeg>, n: nat)
    requires Repeats(segs) && Packets(segs) && 0 < n <= |segs|
    ensures var r := SendAll(firstSeq, segs[..n]); r.Running? && Repeated(r.state, segs, n)
  {
    hide SendAll, SendOne, Repeated, Packet;
    if n == 1 {
      SendsFromStart(firstSeq);
      assert segs[..0] == [];
      var st := FirstOfThree(firstSeq, segs[0]);
      SendsStep(firstSeq, segs, 0);
      FirstRepeat(st, segs);
    } else {
      RepeatsSent(firstSeq, segs, n - 1);
      SendsStep(firstSeq, segs, n - 1);
      RepeatOnce(SendAll(firstSeq, segs[..n - 1]).state, firstSeq, segs, n - 1);
    }
  }

  lemma FirstRepeat(st: SendState, segs: seq<DataSeg>)
    requires segs != [] && st.ranges == map[0 := NewRange(0, 10).IncreaseSent(segs[0], false, StPkt)] && Keyed(st.ranges)
    requires st.totals.lastLargestEndSeq == 10
    ensures Repeated(st, segs, 1)
  {
    assert st.ranges.Keys == {0};
  }

  /** The 257th transmission arrives. Its index does not fit into eight bits, and the stored 0 names the first one. */
  lemma IndexTooLarge(firstSeq: int, segs: seq<DataSeg>)
    requires Repeats(segs) && |segs| == 257
    requires forall j :: 0 <= j < 256 ==> segs[j].tstampTcp != segs[256].tstampTcp
    ensures GapFree(segs) && Packets(segs) && SendAll(firstSeq, segs).Running?
    ensures var st := SendAll(firstSeq, segs).state;
      && Keyed(st.ranges)
      && var r := ReceiveOne(st.ranges, st.lastSeq, firstSeq, segs[256]);
      && r.Running? && 0 in r.state
      && var entry := r.state[0];
      && entry.receivedTstampTcp == segs[256].tstampTcp
      && StampIndex(entry.tstampsTcp, entry.receivedTstampTcp) == Some(256)
      && StoredIndex(entry) == 0
      && |entry.sentTstampPcap| == 257
      && entry.sentTstampPcap[0].time == segs[0].tstampPcap && entry.sentTstampPcap[256].time == segs[256].tstampPcap
  {
    RepeatsGapFree(segs);
    RepeatsSent(firstSeq, segs, 257);
    assert segs[..257] == segs;
    hide SendAll, GapFree;
    var st := SendAll(firstSeq, segs).state;
    ReceivedTen(st.ranges, st.lastSeq, firstSeq, segs[256]);
    var entry := CountReceived(st.ranges[0], RecvCall(st.lastSeq, firstSeq, segs[256]), 0);
    assert entry.tstampsTcp == st.ranges[0].tstampsTcp && entry.sentTstampPcap == st.ranges[0].sentTstampPcap;
    LastStamp(entry.tstampsTcp, segs[256].tstampTcp);
  }

  lemma LastStamp(s: seq<Stamp>, val: nat)
    requires |s| == 257 && s[256].val == val && forall j :: 0 <= j < 256 ==> s[j].val != val
    ensures StampIndex(s, val) == Some(256)
  {
    StampIndexIsFirst(s, val, 0);
    assert StampIndex(s, val).Some?;
  }

  // ---------- a reception fails an assertion ----------

  /** Two packets are sent and arrive as one segment. Without a TCP time stamp, or with the end that happens
      to be the first absolute sequence number plus one, an assertion fails. */
  lemma ReceptionAborts(firstSeq: int, a: DataSeg, b: DataSeg, g: DataSeg)
    requires Packet(a, 0, 10) && Packet(b, 10, 20) && Packet(g, 0, 20)
    requires g.tstampTcp == 0 || firstSeq == 19
    ensures var segs := [a, b];
      && Packets(segs) && SendAll(firstSeq, segs).Running?
      && var st := SendAll(firstSeq, segs).state;
      && Keyed(st.ranges) && ReceiveOne(st.ranges, st.lastSeq, firstSeq, g) == Died
  {
    var segs := [a, b];
    hide SendAll, SendOne, Insert;
    assert segs[..0] == [] && segs[..2] == segs;
    SendsFromStart(firstSeq);
    var st1 := FirstOfThree(firstSeq, a);
    SendsStep(firstSeq, segs, 0);
    var st2 := NextTen(st1, firstSeq, a, b);
    SendsStep(firstSeq, segs, 1);
    AbortsAtOnce(st2.ranges, RecvCall(st2.lastSeq, firstSeq, g));
  }

  lemma NextTen(st: SendState, firstSeq: int, a: DataSeg, b: DataSeg) returns (st': SendState)
    requires Packet(b, 10, 20) && st.ranges == map[0 := NewRange(0, 10).IncreaseSent(a, false, StPkt)] && st.lastSeq == 10
    ensures Keyed(st.ranges) && SendOne(st, firstSeq, b) == Running(st') && Keyed(st'.ranges)
    ensures 0 in st'.ranges && st'.ranges[0] == NewRange(0, 10).IncreaseSent(a, false, StPkt)
  {
    var c := CallFor(st, firstSeq, b);
    BeyondExactly(st.ranges, c, 10, 20, 0);
    var tail := CreateRange(c, 10, 20);
    assert tail.startSeq == 10 && tail.endSeq == 20 && tail.Sized();
    PutKeyed(st.ranges, 10, tail);
    st' := SendOne(st, firstSeq, b).state;
  }

  lemma AbortsAtOnce(m: Ranges, c: Call)
    requires Keyed(m) && 0 in m && m[0].endSeq == 10 && m[0].dataReceivedCount == 0 && c.itype == InsertRecv
    requires c.seg.tstampTcp == 0 || c.firstSeq == 19
    ensures Insert(m, c, 0, 20, 0) == Abort
  {
    assert Step(m, c, 0, 20, 0) == Aborted;
  }

  // ---------- a receive time is dropped ----------

  /** Twenty bytes are sent and arrive together, and the first ten arrive again: the last ten are then an entry
      that was received once and has no receive time. */
  lemma TimeDropped(firstSeq: int, a: DataSeg, g: DataSeg, again: DataSeg)
    requires Packet(a, 0, 20) && Packet(g, 0, 20) && Packet(again, 0, 10) && 10 != (firstSeq + 1) % WRAP
    ensures var segs := [a];
      && Packets(segs) && SendAll(firstSeq, segs).Running?
      && var st := SendAll(firstSeq, segs).state;
      && Keyed(st.ranges)
      && var r1 := ReceiveOne(st.ranges, st.lastSeq, firstSeq, g);
      && r1.Running? && Keyed(r1.state) && 0 in r1.state && r1.state[0].endSeq == 20
      && r1.state[0].receivedTstampPcap == g.tstampPcap
      && var r2 := ReceiveOne(r1.state, st.lastSeq, firstSeq, again);
      && r2.Running? && 10 in r2.state
      && r2.state[10].dataReceivedCount == 1 && r2.state[10].receivedTstampPcap == NO_TIME
  {
    var segs := [a];
    assert segs[..0] == [] && segs[..1] == segs;
    SendsFromStart(firstSeq);
    var st0 := SendState(NoTotals(firstSeq), map[], 0);
    BeyondExactly(map[], CallFor(st0, firstSeq, a), 0, 20, 0);
    SendsStep(firstSeq, segs, 0);
    hide SendAll, SendOne;
    var st := SendAll(firstSeq, segs).state;
    var r := st.ranges[0];
    assert st.ranges.Keys == {0} && r.startSeq == 0 && r.endSeq == 20 && r.Sized() && r.dataReceivedCount == 0;
    var c1, c2 := RecvCall(st.lastSeq, firstSeq, g), RecvCall(st.lastSeq, firstSeq, again);
    assert Step(st.ranges, c1, 0, 20, 0) == Done(st.ranges[0 := CountReceived(r, c1, 0)]);
    var m1 := st.ranges[0 := CountReceived(r, c1, 0)];
    PutKeyed(st.ranges, 0, m1[0]);
    CutAtTen(m1, c2);
  }

  lemma CutAtTen(m: Ranges, c: Call)
    requires Keyed(m) && m.Keys == {0} && m[0].endSeq == 20 && m[0].dataReceivedCount == 1 && c.itype == InsertRecv
    requires 10 != (c.firstSeq + 1) % WRAP
    ensures var r := Insert(m, c, 0, 10, 0);
      r.Ok? && 10 in r.ranges && r.ranges[10].dataReceivedCount == 1 && r.ranges[10].receivedTstampPcap == NO_TIME
  {
    hide CountExisting;
    StepOld(m, c, 0, 10, 0, 0);
    assert Covers(m, 0, 0);
    CarvedStepCut(m, c, 0, 10, 0, 0);
    hide Step, CarvedStep;
  }

  // ---------- the recursion guard stops a run ----------

  /** One packet for each of `n` bytes. */
  predicate ByteByByte(segs: seq<DataSeg>, n: nat) {
    |segs| == n && forall i :: 0 <= i < n ==> Packet(segs[i], i, i + 1)
  }

  lemma {:induction false} ByteByByteGapFree(segs: seq<DataSeg>, n: nat)
    requires ByteByByte(segs, n)
    ensures GapFree(segs) && Packets(segs)
    ensures FrontOf(segs) == Front(n, n, false, None, false)
  {
    if n > 0 {
      ByteByByteGapFree(segs[..n - 1], n - 1);
      forall i | 0 <= i < n
        ensures GapFreeStep(FrontOf(segs[..i]), segs[i])
      {
        if i < n - 1 {
          assert segs[..n - 1][..i] == segs[..i] && segs[..n - 1][i] == segs[i];
        }
      }
    }
  }

  /** With all boundaries there, an insertion over `n` bytes passes `n - 1` inside. */
  lemma AllInner(m: Ranges, n: nat)
    requires n > 0 && forall x :: 0 < x < n ==> x in m
    ensures |Inner(m, 0, n, n)| == n - 1
  {
    CountBetween(Inner(m, 0, n, n), 1, n);
  }

  lemma {:induction false} CountBetween(s: set<int>, lo: int, hi: int)
    requires lo <= hi && forall x :: x in s <==> lo <= x < hi
    ensures |s| == hi - lo
    decreases hi - lo
  {
    if lo == hi {
      assert s == {};
    } else {
      CountBetween(s - {lo}, lo + 1, hi);
    }
  }

  /** After the small packets an entry starts at each of the bytes. */
  lemma ByteEntries(firstSeq: int, segs: seq<DataSeg>, n: nat)
    requires ByteByByte(segs, n) && GapFree(segs) && Packets(segs) && FrontOf(segs) == Front(n, n, false, None, false)
    ensures var r := SendAll(firstSeq, segs);
      && r.Running? && SendInv(r.state, FrontOf(segs)) && forall x :: 0 < x < n ==> x in r.state.ranges
  {
    hide SendAll, GapFree, FrontOf, Boundary, Shape;
    assert segs[..n] == segs;
    SendRefinesCounter(firstSeq, segs);
    SendsComplete(firstSeq, segs);
    SendsBoundaries(firstSeq, segs, n);
    var st := SendAll(firstSeq, segs).state;
    forall x | 0 < x < n
      ensures x in st.ranges
    {
      assert Boundary(st.ranges, segs[x].startSeq);
      BoundaryIsKey(st.ranges, FrontOf(segs), x);
    }
  }

  /** 1503 packets of one byte and a retransmission of all of them: the guard stops a run without gaps, so
      1502 bytes are the most that never do. */
  lemma GuardStops(firstSeq: int, segs: seq<DataSeg>, all: DataSeg)
    requires ByteByByte(segs, 1503) && Packet(all, 0, 1503)
    ensures var t := Trace(firstSeq, segs + [all], [], []);
      WellFormed(t) && SendAll(firstSeq, t.sent) == GuardTripped && RunAll(t) == GuardTripped
  {
    ByteByByteGapFree(segs, 1503);
    var sent := segs + [all];
    assert sent[..1503] == segs && sent[..1504] == sent;
    ThenAll(segs, all);
    hide GapFree, FrontOf, Insert, SendAll, SendInv, Packets;
    ByteEntries(firstSeq, segs, 1503);
    var st := SendAll(firstSeq, segs).state;
    assert GapFreeStep(FrontOf(segs), all);
    DataIsReady(st, FrontOf(segs), firstSeq, all);
    var c := CallFor(st, firstSeq, all);
    AllInner(st.ranges, 1503);
    SentNeverFails(st.ranges, c, 0, 1503, 0);
    EndsExactly(st.ranges, c, 0, 1503, 0, 1503);
    SendsStep(firstSeq, sent, 1503);
    hide RunAll;
    assert WellFormed(Trace(firstSeq, sent, [], []));
    SendStops(Trace(firstSeq, sent, [], []));
  }

  lemma SendStops(t: Trace)
    requires WellFormed(t) && SendAll(t.firstSeq, t.sent) == GuardTripped
    ensures RunAll(t) == GuardTripped
  {
    hide SendAll;
  }

  lemma ThenAll(segs: seq<DataSeg>, all: DataSeg)
    requires ByteByByte(segs, 1503) && Packet(all, 0, 1503) && GapFree(segs) && Packets(segs)
    requires FrontOf(segs) == Front(1503, 1503, false, None, false)
    ensures GapFree(segs + [all]) && Packets(segs + [all])
    ensures FrontOf(segs + [all]) == Front(1503, 1503, false, None, false)
  {
    var sent := segs + [all];
    assert sent[..1503] == segs;
    forall i | 0 <= i < |sent|
      ensures GapFreeStep(FrontOf(sent[..i]), sent[i])
    {
      assert sent[..i] == segs[..i];
    }
  }
}
