/** Whole-run results for the send phase: after any gap-free trace the interval map is exactly the
    byte counter of that trace, and its sums are the connection's totals. */
module SendTheorems {
  import opened Common
  import opened OrderedMap
  import opened ByteRanges
  import opened Index
  import opened ByteView
  import opened Insertion
  import opened Accounting
  import opened Entries
  import opened Registration
  import opened SendRun

  ghost predicate Packets(segs: seq<DataSeg>) {
    forall i :: 0 <= i < |segs| ==> Captured(segs[i]) && segs[i].payloadSize < MAX_RANGE_SIZE
  }

  lemma SendOneKeyed(st: SendState, firstSeq: int, g: DataSeg)
    requires Keyed(st.ranges) && Captured(g) && g.payloadSize < MAX_RANGE_SIZE
    ensures var r := SendOne(st, firstSeq, g); r.Running? ==> Keyed(r.state.ranges)
  {
    hide Insert, InsertEmpty;
    var c := CallFor(st, firstSeq, g);
    if g.payloadSize == 0 {
      InsertEmptyKeyed(st.ranges, c, g.startSeq);
    } else {
      InsertKeyed(st.ranges, c, g.startSeq, g.endSeq, 0);
    }
  }

  /** The send phase: all packets of the trace, in order. */
  ghost function SendAll(firstSeq: int, segs: seq<DataSeg>): (r: Run<SendState>)
    requires Packets(segs)
    ensures r.Running? ==> Keyed(r.state.ranges)
  {
    if segs == [] then Running(SendState(NoTotals(firstSeq), map[], 0))
    else
      match SendAll(firstSeq, segs[..|segs| - 1])
      case Running(st) => SendOneKeyed(st, firstSeq, segs[|segs| - 1]); SendOne(st, firstSeq, segs[|segs| - 1])
      case GuardTripped => GuardTripped
      case Died => Died
  }

  lemma SendsFromStart(firstSeq: int)
    ensures SendAll(firstSeq, []) == Running(SendState(NoTotals(firstSeq), map[], 0))
  {
  }

  lemma SendsStep(firstSeq: int, segs: seq<DataSeg>, i: nat)
    requires Packets(segs) && i < |segs| && SendAll(firstSeq, segs[..i]).Running?
    ensures Captured(segs[i]) && segs[i].payloadSize < MAX_RANGE_SIZE
    ensures SendAll(firstSeq, segs[..i + 1]) == SendOne(SendAll(firstSeq, segs[..i]).state, firstSeq, segs[i])
  {
    hide SendOne, Captured;
    assert segs[..i + 1][..i] == segs[..i];
  }

  lemma SendsStopped(firstSeq: int, segs: seq<DataSeg>, i: nat)
    requires Packets(segs) && i < |segs| && !SendAll(firstSeq, segs[..i]).Running?
    ensures !SendAll(firstSeq, segs[..i + 1]).Running?
  {
    hide SendOne;
    assert segs[..i + 1][..i] == segs[..i];
  }

  lemma GapFreePrefix(segs: seq<DataSeg>, n: nat)
    requires GapFree(segs) && Packets(segs) && n < |segs|
    ensures GapFree(segs[..n]) && Packets(segs[..n]) && GapFreeStep(FrontOf(segs[..n]), segs[n])
  {
    forall i | 0 <= i < n
      ensures GapFreeStep(FrontOf(segs[..n][..i]), segs[..n][i])
    {
      assert segs[..n][..i] == segs[..i];
    }
  }

  lemma GapFreeInit(segs: seq<DataSeg>)
    requires GapFree(segs) && segs != []
    ensures GapFree(segs[..|segs| - 1]) && GapFreeStep(FrontOf(segs[..|segs| - 1]), segs[|segs| - 1])
    ensures FrontOf(segs) == NextFront(FrontOf(segs[..|segs| - 1]), segs[|segs| - 1])
  {
    var n := |segs| - 1;
    forall i | 0 <= i < n
      ensures GapFreeStep(FrontOf(segs[..n][..i]), segs[..n][i])
    {
      assert segs[..n][..i] == segs[..i];
    }
  }

  /** How many data segments of the trace carry byte `b`. */
  function TimesSent(segs: seq<DataSeg>, b: int): nat {
    if segs == [] then 0
    else TimesSent(segs[..|segs| - 1], b) +
         (if segs[|segs| - 1].startSeq <= b < segs[|segs| - 1].endSeq then 1 else 0)
  }

  /** The byte counter that the interval map refines. */
  ghost predicate CountsBytes(m: Ranges, segs: seq<DataSeg>) {
    forall b :: At(m, b) == if TimesSent(segs, b) == 0 then None else Some(ByteInfo(TimesSent(segs, b), 0, false, NO_TIME))
  }

  /** After any gap-free trace: no assertion of the code fails, the map holds exactly the bytes of the
      trace without overlap, and for every byte it counts exactly the segments that carried it. The
      run ends early only where the recursion guard trips. */
  lemma {:induction false} SendRefinesCounter(firstSeq: int, segs: seq<DataSeg>)
    requires GapFree(segs) && Packets(segs)
    ensures var r := SendAll(firstSeq, segs);
      && !r.Died?
      && (r.Running? ==> SendInv(r.state, FrontOf(segs)) && CountsBytes(r.state.ranges, segs))
  {
    hide SendOne, SendInv, GapFreeStep, NextFront, Range.Info;
    if segs == [] {
      EmptyStart(firstSeq);
    } else {
      var n := |segs| - 1;
      GapFreeInit(segs);
      SendRefinesCounter(firstSeq, segs[..n]);
      var r := SendAll(firstSeq, segs[..n]);
      if r.Running? {
        StepCounts(r.state, FrontOf(segs[..n]), firstSeq, segs);
      }
    }
  }

  lemma EmptyStart(firstSeq: int)
    ensures var st := SendState(NoTotals(firstSeq), map[], 0); SendInv(st, AT_START) && CountsBytes(st.ranges, [])
    ensures var st := SendState(NoTotals(firstSeq), map[], 0); Ledger(st) && PlainLedger(st, 0)
    ensures EntriesSound(map[])
  {
  }

  lemma StepCounts(st: SendState, f: Front, firstSeq: int, segs: seq<DataSeg>)
    requires segs != [] && SendInv(st, f) && GapFreeStep(f, segs[|segs| - 1])
    requires CountsBytes(st.ranges, segs[..|segs| - 1])
    ensures var r := SendOne(st, firstSeq, segs[|segs| - 1]);
      && !r.Died?
      && (r.Running? ==> SendInv(r.state, NextFront(f, segs[|segs| - 1])) && CountsBytes(r.state.ranges, segs))
  {
    hide SendOne, Unanswered, NextFront, Range.Info, At;
    var g := segs[|segs| - 1];
    var r := SendOne(st, firstSeq, g);
    if g.payloadSize > 0 {
      DataKeeps(st, f, firstSeq, g);
      if r.Running? {
        forall b
          ensures At(r.state.ranges, b) == if TimesSent(segs, b) == 0 then None
                                           else Some(ByteInfo(TimesSent(segs, b), 0, false, NO_TIME))
        {
          assert At(st.ranges, b) == if TimesSent(segs[..|segs| - 1], b) == 0 then None
                                     else Some(ByteInfo(TimesSent(segs[..|segs| - 1], b), 0, false, NO_TIME));
          assert At(r.state.ranges, b) == if g.startSeq <= b < g.endSeq
            then CountAt(CallFor(st, firstSeq, g), At(st.ranges, b)) else At(st.ranges, b);
        }
      }
    } else {
      ControlKeeps(st, f, firstSeq, g);
      assert Captured(g);
      assert forall b :: TimesSent(segs, b) == TimesSent(segs[..|segs| - 1], b);
    }
  }

  /** At every point of a gap-free run, bundled or not, the sum of data_sent_count * byte_count over all
      entries is the connection's total of bytes sent, and the sum of byte_count its total of new data. */
  lemma {:induction false} SendConserves(firstSeq: int, segs: seq<DataSeg>)
    requires GapFree(segs) && Packets(segs)
    ensures var r := SendAll(firstSeq, segs); r.Running? ==> Ledger(r.state) && r.state.totals == RegisterAll(firstSeq, segs)
  {
    hide SendInv, GapFreeStep, NextFront, Ledger, Insert, InsertEmpty;
    if segs == [] {
      EmptyStart(firstSeq);
    } else {
      var n := |segs| - 1;
      GapFreeInit(segs);
      SendConserves(firstSeq, segs[..n]);
      SendRefinesCounter(firstSeq, segs[..n]);
      var r := SendAll(firstSeq, segs[..n]);
      if r.Running? {
        if segs[n].payloadSize > 0 {
          DataLedger(r.state, FrontOf(segs[..n]), firstSeq, segs[n]);
        } else {
          ControlLedger(r.state, FrontOf(segs[..n]), firstSeq, segs[n]);
        }
      }
    }
  }

  // ---------- entry properties on every run ----------

  ghost predicate EntriesSound(m: Ranges) {
    AllEntries(m, LostWithinSent) && AllEntries(m, Aligned) && AllEntries(m, Unflagged)
  }

  lemma TailSound(m: Ranges, c: Call, base: int, e: int)
    requires Ready(m, c, base, e, base) && EntriesSound(m) && c.itype == InsertSent
    ensures LostWithinSent(NewTail(m, c, base, e)) && Aligned(NewTail(m, c, base, e)) && Unflagged(NewTail(m, c, base, e))
  {
    if base in m {
      SendingKeepsLost(m[base].Stretch(e), c.seg, RdbAt(c.seg, base), StPkt);
    } else {
      assert LostTimes([]) == [];
      var blank := NewRange(base, e).(originalPayloadSize := c.seg.payloadSize,
                                      originalPacketIsRdb := c.seg.isRdb,
                                      fin := if c.seg.flags.fin then 1 else 0);
      SendingKeepsLost(blank, c.seg, RdbAt(c.seg, base), if c.seg.isRdb then StNone else StPkt);
    }
  }

  lemma DataSound(st: SendState, f: Front, firstSeq: int, g: DataSeg)
    requires SendInv(st, f) && EntriesSound(st.ranges) && GapFreeStep(f, g) && g.payloadSize > 0
    ensures var r := SendOne(st, firstSeq, g); r.Running? ==> EntriesSound(r.state.ranges)
  {
    hide Insert, NewTail, KeptBySplit, KeptByCount, LostWithinSent, Aligned, Unflagged;
    DataIsReady(st, f, firstSeq, g);
    var m, c, base := st.ranges, CallFor(st, firstSeq, g), f.Base();
    LostWithinSentKept(c);
    AlignedKept(c);
    UnflaggedKept(c);
    if g.endSeq > base {
      ReadyTail(m, c, g.startSeq, g.endSeq, base);
      TailSound(m, c, base, g.endSeq);
    }
    InsertKeeps(m, c, g.startSeq, g.endSeq, 0, base, LostWithinSent);
    InsertKeeps(m, c, g.startSeq, g.endSeq, 0, base, Aligned);
    InsertKeeps(m, c, g.startSeq, g.endSeq, 0, base, Unflagged);
  }

  lemma ControlSound(m: Ranges, c: Call, s: int)
    requires Keyed(m) && c.itype == InsertSent && EntriesSound(m)
    ensures EntriesSound(InsertEmpty(m, c, s))
  {
    var k := ControlKey(m, c.seg, s);
    var r := InsertEmpty(m, c, s)[k];
    var old' := if k in m then m[k] else NewRange(k, k);
    assert LostTimes([]) == [];
    assert SentTimes(r.sentTstampPcap) == SentTimes(old'.sentTstampPcap) + [c.seg.tstampPcap];
    assert LostTimes(r.lostTstampsTcp) == LostTimes(old'.lostTstampsTcp) + [c.seg.tstampPcap];
    assert LostWithinSent(r);
    assert Aligned(r) && Unflagged(r);
  }

  /** On every gap-free run, bundled or not: each entry's losses are among its transmissions, and its
      time stamp lists stay aligned. */
  lemma {:induction false} SendEntriesSound(firstSeq: int, segs: seq<DataSeg>)
    requires GapFree(segs) && Packets(segs)
    ensures var r := SendAll(firstSeq, segs); r.Running? ==> EntriesSound(r.state.ranges)
  {
    hide SendInv, GapFreeStep, NextFront, EntriesSound, Insert, InsertEmpty;
    if segs == [] {
      EmptyStart(firstSeq);
    } else {
      var n := |segs| - 1;
      GapFreeInit(segs);
      SendEntriesSound(firstSeq, segs[..n]);
      SendRefinesCounter(firstSeq, segs[..n]);
      var r := SendAll(firstSeq, segs[..n]);
      if r.Running? {
        if segs[n].payloadSize > 0 {
          DataSound(r.state, FrontOf(segs[..n]), firstSeq, segs[n]);
        } else {
          ControlSound(r.state.ranges, CallFor(r.state, firstSeq, segs[n]), segs[n].startSeq);
        }
      }
    }
  }

  // ---------- runs without bundling ----------

  /** No segment reaches from old into new data, so `registerSent` never sets is_rdb. */
  ghost predicate Unbundled(segs: seq<DataSeg>) {
    forall i :: 0 <= i < |segs| && segs[i].payloadSize > 0 ==>
      segs[i].endSeq <= FrontOf(segs[..i]).top || segs[i].startSeq >= FrontOf(segs[..i]).top
  }

  lemma UnbundledInit(segs: seq<DataSeg>)
    requires Unbundled(segs) && segs != []
    ensures Unbundled(segs[..|segs| - 1])
    ensures var n := |segs| - 1; segs[n].payloadSize > 0 ==>
      segs[n].endSeq <= FrontOf(segs[..n]).top || segs[n].startSeq >= FrontOf(segs[..n]).top
  {
    hide FrontOf;
    assert forall i :: 0 <= i < |segs| - 1 ==> segs[..|segs| - 1][..i] == segs[..i];
  }

  /** Every entry's counters agree, and the entries count as many packets as were registered. */
  ghost predicate PlainLedger(st: SendState, packets: nat) {
    AllEntries(st.ranges, Plain) && Total(st.ranges, PacketsSent) == packets
  }

  lemma DataPlain(st: SendState, f: Front, firstSeq: int, g: DataSeg, packets: nat)
    requires SendInv(st, f) && PlainLedger(st, packets) && GapFreeStep(f, g) && g.payloadSize > 0
    requires g.endSeq <= f.top || g.startSeq >= f.top
    ensures var r := SendOne(st, firstSeq, g); r.Running? ==> PlainLedger(r.state, packets + 1)
  {
    hide NewTail, KeptBySplit, KeptByCount, Plain, Gains, Additive, TailGain, Total, Range.Info;
    DataIsReady(st, f, firstSeq, g);
    BundleIsOverlap(st.totals, g);
    var m, c, base := st.ranges, CallFor(st, firstSeq, g), f.Base();
    QuantitiesAdditive();
    PacketGains(c);
    InsertTotal(m, c, g.startSeq, g.endSeq, 0, base, PacketsSent, 0, 1);
    if g.endSeq > base {
      assert g.startSeq == base;
      StepNew(m, c, g.endSeq, 0);
      TailLedger(m, c, base, g.endSeq);
      TailPlain(m, c, base, g.endSeq);
    } else {
      PlainKept(c);
      InsertKeeps(m, c, g.startSeq, g.endSeq, 0, base, Plain);
    }
  }

  lemma TailPlain(m: Ranges, c: Call, base: int, e: int)
    requires Ready(m, c, base, e, base) && c.itype == InsertSent && !c.seg.isRdb && AllEntries(m, Plain)
    ensures Plain(NewTail(m, c, base, e))
  {
    NewTailShape(m, c, e);
    if base in m {
      assert m[base].Empty();
      EntryInfo(m[base]);
    }
  }

  lemma ControlPlain(st: SendState, f: Front, firstSeq: int, g: DataSeg, packets: nat)
    requires SendInv(st, f) && Ledger(st) && PlainLedger(st, packets) && GapFreeStep(f, g) && g.payloadSize == 0
    ensures PlainLedger(SendOne(st, firstSeq, g).state, packets + 1)
  {
    hide InsertEmpty, ControlKey, Total, Range.Info, Ledger;
    ControlLedger(st, f, firstSeq, g);
    ControlEntry(st.ranges, CallFor(st, firstSeq, g), g.startSeq);
    ControlLandsOnEmpty(st.ranges, f, g);
  }

  /** One packet, one count: without bundling, the packet counters of all entries add up to the number
      of packets registered, however many entries a packet touched and however they were split since;
      and every entry with bytes was sent exactly once more than it was retransmitted. */
  lemma {:induction false} OnePacketOneCount(firstSeq: int, segs: seq<DataSeg>)
    requires GapFree(segs) && Packets(segs) && Unbundled(segs)
    ensures var r := SendAll(firstSeq, segs);
      r.Running? ==> PlainLedger(r.state, |segs|) && r.state.totals.nrPacketsSent == |segs|
  {
    hide SendInv, GapFreeStep, NextFront, Insert, InsertEmpty, PlainLedger, Ledger, Unbundled;
    if segs == [] {
      EmptyStart(firstSeq);
    } else {
      var n := |segs| - 1;
      GapFreeInit(segs);
      UnbundledInit(segs);
      OnePacketOneCount(firstSeq, segs[..n]);
      SendRefinesCounter(firstSeq, segs[..n]);
      SendConserves(firstSeq, segs[..n]);
      var r := SendAll(firstSeq, segs[..n]);
      if r.Running? {
        if segs[n].payloadSize > 0 {
          DataPlain(r.state, FrontOf(segs[..n]), firstSeq, segs[n], n);
        } else {
          ControlPlain(r.state, FrontOf(segs[..n]), firstSeq, segs[n], n);
        }
      }
    }
  }
}
