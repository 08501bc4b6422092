/** The counters behind the reported totals, one by one: which packets the entries count as retransmitted and
    as pure ACKs, and how the loss report adds up to the payload of the trace. */
module Counters {
  import opened Common
  import opened OrderedMap
  import opened ByteRanges
  import opened Index
  import opened ByteView
  import opened Insertion
  import opened Recursion
  import opened Accounting
  import opened Entries
  import opened Registration
  import opened SendRun
  import opened SendTheorems
  import opened Acks
  import opened AckRun
  import opened AckCounts
  import opened ReceiveRun
  import opened Report
  import opened WholeRun
  import opened LossIntervals
  import opened LossRun
  import opened Edges
  import opened Stretch
  import opened Bundling
  import opened Losses
  import opened RunTheorems

  function FirstSends(r: Range): int {
    r.packetSentCount
  }

  function Resends(r: Range): int {
    r.packetRetransCount
  }

  function AcksSent(r: Range): int {
    r.ackedSent
  }

  /** The payload that entered the index as a packet of its own. */
  function NewPayload(r: Range): int {
    if r.packetSentCount > 0 then r.originalPayloadSize else 0
  }

  lemma CountersSplit()
    ensures Additive(FirstSends) && Additive(Resends) && Additive(AcksSent) && Additive(NewPayload)
    ensures AckBlind(FirstSends) && AckBlind(Resends) && AckBlind(AcksSent) && AckBlind(NewPayload)
  {
  }

  // ---------- one packet ----------

  /** Counts of an entry after one more transmission of old bytes, or one more reception. */
  ghost predicate CountedOld(r: Range, r': Range, c: Call, level: nat) {
    var again := if level == 0 && c.itype == InsertSent then 1 else 0;
    && r'.ackedSent == r.ackedSent && r'.originalPayloadSize == r.originalPayloadSize
    && ((c.itype == InsertSent ==> c.seg.retrans) ==>
          r'.packetSentCount == r.packetSentCount && r'.packetRetransCount == r.packetRetransCount + again)
  }

  lemma InsideCounts(r: Range, c: Call, s: int, level: nat, ends: bool)
    ensures CountedOld(r, CountInside(r, c, s, level, ends), c, level)
  {
    hide Range.Info;
  }

  lemma ExistingCounts(r: Range, c: Call, s: int, level: nat)
    ensures CountedOld(r, CountExisting(r, c, s, level), c, level)
  {
    hide Range.Info;
  }

  lemma OldGains(c: Call)
    ensures Gains(AcksSent, c, 0, 0)
    ensures (c.itype == InsertSent ==> c.seg.retrans) ==>
      && Gains(FirstSends, c, 0, 0) && Gains(NewPayload, c, 0, 0)
      && Gains(Resends, c, 0, if c.itype == InsertSent then 1 else 0)
  {
    hide CountInside, CountExisting, Range.Info;
    forall r: Range, s: int, level: nat, ends: bool
      ensures CountedOld(r, CountInside(r, c, s, level, ends), c, level)
    {
      InsideCounts(r, c, s, level, ends);
    }
    forall r: Range, s: int, level: nat
      ensures CountedOld(r, CountExisting(r, c, s, level), c, level)
    {
      ExistingCounts(r, c, s, level);
    }
  }

  lemma TailCounts(m: Ranges, c: Call, base: int, e: int)
    requires Ready(m, c, base, e, base) && base < e && EmptiesFresh(m) && c.seg.payloadSize == e - base
    ensures TailGain(m, c, base, e, AcksSent) == 0
    ensures !c.seg.isRdb ==>
      && TailGain(m, c, base, e, FirstSends) == 1 && TailGain(m, c, base, e, Resends) == 0
      && TailGain(m, c, base, e, NewPayload) == e - base
  {
    if base in m {
      assert m[base].Empty();
    }
  }

  lemma TailAcks(m: Ranges, c: Call, base: int, e: int)
    requires Ready(m, c, base, e, base) && base < e
    ensures TailGain(m, c, base, e, AcksSent) == 0
  {
  }

  /** A data packet adds no pure ACK; and unless it is a bundle it is counted as one retransmission, or as one
      packet with all its payload. */
  lemma DataCounts(st: SendState, f: Front, firstSeq: int, g: DataSeg)
    requires SendInv(st, f) && GapFreeStep(f, g) && g.payloadSize > 0 && EmptiesFresh(st.ranges)
    ensures var r := SendOne(st, firstSeq, g); var again := IsRetransmission(g, f.top); r.Running? ==>
      && Total(r.state.ranges, AcksSent) == Total(st.ranges, AcksSent)
      && (!IsBundle(g, f.top) ==>
            && Total(r.state.ranges, Resends) == Total(st.ranges, Resends) + (if again then 1 else 0)
            && Total(r.state.ranges, FirstSends) == Total(st.ranges, FirstSends) + (if again then 0 else 1)
            && Total(r.state.ranges, NewPayload) == Total(st.ranges, NewPayload) + (if again then 0 else g.payloadSize))
  {
    hide Insert, Range.Info, Gains, Additive, TailGain, Total, NewTail, EmptiesFresh, Unanswered;
    DataIsReady(st, f, firstSeq, g);
    BundleIsOverlap(st.totals, g);
    var m, c, base := st.ranges, CallFor(st, firstSeq, g), f.Base();
    CountersSplit();
    OldGains(c);
    if g.endSeq > base {
      ReadyTail(m, c, g.startSeq, g.endSeq, base);
      TailAcks(m, c, base, g.endSeq);
    }
    InsertTotal(m, c, g.startSeq, g.endSeq, 0, base, AcksSent, 0, 0);
    if IsRetransmission(g, f.top) {
      InsertTotal(m, c, g.startSeq, g.endSeq, 0, base, Resends, 0, 1);
      InsertTotal(m, c, g.startSeq, g.endSeq, 0, base, FirstSends, 0, 0);
      InsertTotal(m, c, g.startSeq, g.endSeq, 0, base, NewPayload, 0, 0);
    } else if !IsBundle(g, f.top) {
      assert g.startSeq == base && base < g.endSeq;
      TailCounts(m, c, base, g.endSeq);
      StepNew(m, c, g.endSeq, 0);
      TailTotal(m, c, base, g.endSeq, Resends);
      TailTotal(m, c, base, g.endSeq, FirstSends);
      TailTotal(m, c, base, g.endSeq, NewPayload);
      InsertOnce(m, c, base, g.endSeq, 0);
    }
  }

  /** A packet without payload adds none, and is counted as a pure ACK if it is one. */
  lemma ControlCounts(st: SendState, f: Front, firstSeq: int, g: DataSeg)
    requires SendInv(st, f) && GapFreeStep(f, g) && g.payloadSize == 0
    ensures var r := SendOne(st, firstSeq, g);
      && r.Running?
      && Total(r.state.ranges, AcksSent) == Total(st.ranges, AcksSent) + (if PureAck(g) then 1 else 0)
      && (PureAck(g) ==>
            && Total(r.state.ranges, Resends) == Total(st.ranges, Resends)
            && Total(r.state.ranges, FirstSends) == Total(st.ranges, FirstSends)
            && Total(r.state.ranges, NewPayload) == Total(st.ranges, NewPayload))
  {
    hide Total, Range.Info, InsertEmpty, ControlKey;
    ControlStep(st, f, firstSeq, g);
    var m, c := st.ranges, CallFor(st, firstSeq, g);
    ControlTotal(m, c, g.startSeq, AcksSent);
    ControlTotal(m, c, g.startSeq, Resends);
    ControlTotal(m, c, g.startSeq, FirstSends);
    ControlTotal(m, c, g.startSeq, NewPayload);
    EmptyCounts(m, c, g.startSeq);
  }

  lemma EmptyCounts(m: Ranges, c: Call, s: int)
    requires c.itype == InsertSent && !c.seg.flags.rst && !c.seg.retrans
    ensures var k := ControlKey(m, c.seg, s); var r' := InsertEmpty(m, c, s)[k]; var r := if k in m then m[k] else NewRange(k, k);
      && r'.ackedSent == r.ackedSent + (if c.seg.flags.Control() then 0 else 1)
      && (!c.seg.flags.Control() ==>
            r'.packetSentCount == r.packetSentCount && r'.packetRetransCount == r.packetRetransCount
            && r'.originalPayloadSize == r.originalPayloadSize)
  {
  }

  // ---------- the send phase ----------

  function PureAcks(segs: seq<DataSeg>): set<int> {
    set i | 0 <= i < |segs| && PureAck(segs[i])
  }

  lemma PureAcksStep(segs: seq<DataSeg>)
    requires segs != []
    ensures |PureAcks(segs)| == |PureAcks(segs[..|segs| - 1])| + (if PureAck(segs[|segs| - 1]) then 1 else 0)
  {
    var n := |segs| - 1;
    PositionsStep(PureAcks(segs[..n]), PureAcks(segs), n, PureAck(segs[n]));
  }

  /** A trace of data packets and pure ACKs. */
  ghost predicate Plainly(segs: seq<DataSeg>) {
    forall i :: 0 <= i < |segs| ==> segs[i].payloadSize > 0 || PureAck(segs[i])
  }

  /** The counts of the entries, told from the trace. */
  ghost predicate Counts(m: Ranges, segs: seq<DataSeg>) {
    && Total(m, AcksSent) == |PureAcks(segs)|
    && (Unbundled(segs) && Plainly(segs) ==>
          && Total(m, Resends) == |Retransmissions(segs)|
          && Total(m, FirstSends) == |DataPackets(segs)| - |Retransmissions(segs)|
          && Total(m, NewPayload) == Payload(segs) - RetransmittedBytes(segs))
  }

  /** After any gap-free trace the entries count every pure ACK as one. Without bundles, SYN and FIN, they count
      the retransmissions as such, all other data packets as first packets, and their payload as new. */
  lemma {:induction false} SendsCount(firstSeq: int, segs: seq<DataSeg>)
    requires GapFree(segs) && Packets(segs)
    ensures var r := SendAll(firstSeq, segs); r.Running? ==> Counts(r.state.ranges, segs)
  {
    hide SendInv, GapFreeStep, NextFront, SendOne, Counts, GapFree;
    if segs == [] {
      assert Counts(map[], segs) by { NothingAtAll(); }
    } else {
      var n := |segs| - 1;
      GapFreeInit(segs);
      SendsCount(firstSeq, segs[..n]);
      SendRefinesCounter(firstSeq, segs[..n]);
      SendsFresh(firstSeq, segs[..n]);
      var r := SendAll(firstSeq, segs[..n]);
      if r.Running? {
        StepCount(r.state, FrontOf(segs[..n]), firstSeq, segs);
      }
    }
  }

  lemma NothingAtAll()
    ensures Counts(map[], [])
  {
    assert PureAcks([]) == {} && Retransmissions([]) == {} && DataPackets([]) == {};
  }

  lemma StepCount(st: SendState, f: Front, firstSeq: int, segs: seq<DataSeg>)
    requires segs != [] && f == FrontOf(segs[..|segs| - 1]) && SendInv(st, f) && GapFreeStep(f, segs[|segs| - 1])
    requires EmptiesFresh(st.ranges) && Counts(st.ranges, segs[..|segs| - 1])
    ensures var r := SendOne(st, firstSeq, segs[|segs| - 1]); r.Running? ==> Counts(r.state.ranges, segs)
  {
    hide SendOne, SendInv, EmptiesFresh, Total, PureAcks, Retransmissions, DataPackets, FrontOf, Unbundled, Highest;
    var n := |segs| - 1;
    var g := segs[n];
    TopIsHighest(segs[..n]);
    CountsStep(segs);
    PureAcksStep(segs);
    if g.payloadSize > 0 {
      DataCounts(st, f, firstSeq, g);
    } else {
      ControlCounts(st, f, firstSeq, g);
    }
    if Unbundled(segs) {
      UnbundledInit(segs);
      assert !IsBundle(g, f.top);
    }
  }

  // ---------- the whole run ----------

  lemma {:induction false} ReceptionsKeepTotal(m: Ranges, f: Front, firstSeq: int, segs: seq<DataSeg>, h: Range -> int)
    requires ReceiveState(m, f) && ReceivedRun(f, firstSeq, segs) && Additive(h)
    requires forall g: DataSeg :: Gains(h, RecvCall(f.last, firstSeq, g), 0, 0)
    ensures Keyed(m)
    ensures var r := ReceiveAll(m, f.last, firstSeq, segs); r.Running? ==> Total(r.state, h) == Total(m, h)
  {
    hide Insert, ReceiveState, Additive, Gains, Total;
    ReceiveKeyed(m, f);
    if segs != [] {
      var n := |segs| - 1;
      var g := segs[n];
      ReceptionsCounted(m, f, firstSeq, segs[..n]);
      ReceptionsKeepTotal(m, f, firstSeq, segs[..n], h);
      var r := ReceiveAll(m, f.last, firstSeq, segs[..n]);
      if r.Running? {
        ReceptionReady(r.state, f, firstSeq, g);
        InsertTotal(r.state, RecvCall(f.last, firstSeq, g), g.startSeq, g.endSeq, 0, g.endSeq, h, 0, 0);
      }
    }
  }

  /** A sum that neither acknowledgements nor receptions change is at the end what it was after the sends. */
  lemma TotalThrough(t: Trace, st: SendState, m1: Ranges, m: Ranges, h: Range -> int)
    requires Ends(t, st, m1, m) && Additive(h) && AckBlind(h)
    requires forall g: DataSeg :: Gains(h, RecvCall(FrontOf(t.sent).last, t.firstSeq, g), 0, 0)
    ensures Total(m, h) == Total(st.ranges, h)
  {
    hide SendAll, AckAll, ReceiveAll, GapFree, FrontOf, ReceivedRun, ReceiveState, At, Total, SameCounts, EntriesSound,
      CountsBytes, Shape, Additive, AckBlind, Gains;
    SentFacts(t, st);
    var total := Total(st.ranges, h);
    TotalKept(h, total);
    AcksKeep(st.ranges, t.acks, x => Total(x, h) == total);
    AckedFacts(t, st, m1);
    ReceptionsKeepTotal(m1, FrontOf(t.sent), t.firstSeq, t.received, h);
  }

  lemma FinalKinds(t: Trace, st: SendState, m1: Ranges, m: Ranges)
    requires Ends(t, st, m1, m)
    ensures Counts(m, t.sent)
  {
    hide SendAll, AckAll, ReceiveAll, GapFree, FrontOf, ReceivedRun, Total, PureAcks, Retransmissions, DataPackets, Unbundled,
      Additive, AckBlind, Gains, Shape;
    SendsCount(t.firstSeq, t.sent);
    CountersSplit();
    forall g: DataSeg
      ensures var c := RecvCall(FrontOf(t.sent).last, t.firstSeq, g);
        Gains(AcksSent, c, 0, 0) && Gains(FirstSends, c, 0, 0) && Gains(Resends, c, 0, 0) && Gains(NewPayload, c, 0, 0)
    {
      OldGains(RecvCall(FrontOf(t.sent).last, t.firstSeq, g));
    }
    TotalThrough(t, st, m1, m, AcksSent);
    TotalThrough(t, st, m1, m, FirstSends);
    TotalThrough(t, st, m1, m, Resends);
    TotalThrough(t, st, m1, m, NewPayload);
  }

  // ---------- exactly what a packet adds, bundles included ----------

  /** Deeper levels of the recursion do not change the quantity. */
  ghost predicate StillDeeper(h: Range -> int, c: Call) {
    forall r: Range, s: int, level: nat :: level > 0 ==> h(CountExisting(r, c, s, level)) == h(r)
  }

  lemma CarvedStepSum(m: Ranges, c: Call, s: int, e: int, level: nat, k: int, h: Range -> int)
    requires OldReady(m, c, s, e, k) && Additive(h)
    ensures var q := PartEnd(m, k, e); var part := Carve(m, k, s, q);
      s in part && Total(CarvedStep(m, c, s, e, level, k), h) == Total(m, h) + h(CountPart(m, c, s, e, level, part[s])) - h(part[s])
  {
    hide Range.Left, Range.Right, Range.Info, CountPart, Carve, Total, Additive;
    var q := PartEnd(m, k, e);
    CarveShape(m, k, s, q);
    CarveTotal(m, k, s, q, h);
    TotalUpdate(Carve(m, k, s, q), s, CountPart(m, c, s, e, level, Carve(m, k, s, q)[s]), h);
  }

  lemma StillPart(m: Ranges, c: Call, s: int, e: int, level: nat, part: Range, h: Range -> int)
    requires StillDeeper(h, c) && s in m && level > 0 && !c.seg.flags.syn
    ensures h(CountPart(m, c, s, e, level, part)) == h(part)
  {
    hide CountExisting, Range.Info;
  }

  /** Behind the first entry only the new bytes count. */
  lemma {:induction false} RestSum(m: Ranges, c: Call, s: int, e: int, level: nat, base: int, h: Range -> int)
    requires Ready(m, c, s, e, base) && Additive(h) && StillDeeper(h, c) && level > 0 && (s in m || s == base) && !c.seg.flags.syn
    ensures var r := Insert(m, c, s, e, level);
      r.Ok? ==> Total(r.ranges, h) == Total(m, h) + (if e > base then TailGain(m, c, base, e, h) else 0)
    decreases e - s
  {
    hide CarvedStep, CountAt, Range.Info, Step, NewTail, Additive, StillDeeper, CountPart, Carve, Total, Insert;
    InsertOnce(m, c, s, e, level);
    if s == base {
      StepNew(m, c, e, level);
      TailTotal(m, c, s, e, h);
    } else {
      var k := ReadyAt(m, c, s, e, base);
      StepOld(m, c, s, e, level, k);
      CarvedStepRefines(m, c, s, e, level, k);
      CarvedStepSum(m, c, s, e, level, k, h);
      var q := PartEnd(m, k, e);
      StillPart(m, c, s, e, level, Carve(m, k, s, q)[s], h);
      if q < e {
        var m' := CarvedStep(m, c, s, e, level, k);
        PartEndsAtEntry(m, c, s, e, base, k);
        StillReady(m, m', c, s, q, e, base);
        RestSum(m', c, q, e, level + 1, base, h);
        if e > base { NewTailSame(m, m', c, base, e); }
      }
    }
  }

  /** A whole insertion adds what it adds on its first part, and what new bytes add. */
  lemma InsertSum(m: Ranges, c: Call, s: int, e: int, base: int, k: int, h: Range -> int)
    requires Ready(m, c, s, e, base) && Additive(h) && StillDeeper(h, c) && !c.seg.flags.syn && s < base && Covers(m, k, s)
    ensures OldReady(m, c, s, e, k)
    ensures var r := Insert(m, c, s, e, 0); var part := Carve(m, k, s, PartEnd(m, k, e)); r.Ok? ==>
      && s in part
      && Total(r.ranges, h) == Total(m, h) + h(CountPart(m, c, s, e, 0, part[s])) - h(part[s])
                               + (if e > base then TailGain(m, c, base, e, h) else 0)
  {
    hide CarvedStep, CountAt, Range.Info, Step, NewTail, Additive, StillDeeper, CountPart, Carve, Total, Insert;
    InsertOnce(m, c, s, e, 0);
    var j := ReadyAt(m, c, s, e, base);
    CoverUnique(m, j, k, s);
    StepOld(m, c, s, e, 0, k);
    CarvedStepRefines(m, c, s, e, 0, k);
    CarvedStepSum(m, c, s, e, 0, k, h);
    var q := PartEnd(m, k, e);
    if q < e {
      var m' := CarvedStep(m, c, s, e, 0, k);
      PartEndsAtEntry(m, c, s, e, base, k);
      StillReady(m, m', c, s, q, e, base);
      RestSum(m', c, q, e, 1, base, h);
      if e > base { NewTailSame(m, m', c, base, e); }
    }
  }

  function FinCount(r: Range): int {
    r.fin
  }

  function SynCount(r: Range): int {
    r.syn
  }

  lemma MarksSplit()
    ensures Additive(FinCount) && Additive(SynCount) && AckBlind(FinCount) && AckBlind(SynCount)
  {
  }

  lemma MarksStill(c: Call)
    ensures StillDeeper(FinCount, c) && StillDeeper(SynCount, c) && StillDeeper(FirstSends, c) && StillDeeper(Resends, c)
    ensures StillDeeper(NewPayload, c)
  {
    hide Range.Info;
  }

  /** The first part of the segment: what was cut out of the entry that holds its start, or all of that entry. */
  lemma FirstPartFields(m: Ranges, k: int, s: int, q: int)
    requires Keyed(m) && Disjoint(m) && k in m && k <= s < q <= m[k].endSeq
    ensures var part := Carve(m, k, s, q);
      && s in part && part[s].endSeq == q
      && part[s].fin == (if k == s then m[k].fin else 0) && part[s].syn == (if k == s then m[k].syn else 0)
      && part[s].packetSentCount == (if k == s then m[k].packetSentCount else 0)
      && part[s].packetRetransCount == (if k == s then m[k].packetRetransCount else 0)
      && (k == s ==> part[s].originalPayloadSize == m[k].originalPayloadSize)
  {
    hide Range.Info;
    if k < s {
      SplitDisjoint(m, k, s);
    }
  }

  lemma FirstPartMarks(m: Ranges, c: Call, s: int, e: int, part: Range)
    requires c.itype == InsertSent && !c.seg.flags.syn && (s !in m ==> part.fin == 0)
    ensures var r := CountPart(m, c, s, e, 0, part);
      && r.syn == part.syn
      && r.fin == part.fin + (if c.seg.flags.fin && (s in m || part.endSeq == e) then 1 else 0)
      && r.packetSentCount == part.packetSentCount + (if s in m && !c.seg.retrans then 1 else 0)
      && r.packetRetransCount == part.packetRetransCount + (if s in m && !c.seg.retrans then 0 else 1)
  {
    hide Range.Info;
  }

  lemma TailMarks(m: Ranges, c: Call, base: int, e: int)
    requires Ready(m, c, base, e, base) && base < e
    ensures TailGain(m, c, base, e, SynCount) == 0
    ensures TailGain(m, c, base, e, FinCount) == if c.seg.flags.fin && base !in m then 1 else 0
    ensures TailGain(m, c, base, e, FirstSends) == if c.seg.isRdb && base !in m then 0 else 1
    ensures TailGain(m, c, base, e, Resends) == 0
  {
  }

  /** The packet's first byte is old, and it starts an entry. */
  predicate StartsOld(m: Ranges, f: Front, g: DataSeg) {
    g.startSeq < f.top && g.startSeq in m
  }

  /** The packet's first byte is old, and lies within an entry. */
  predicate StartsWithin(m: Ranges, f: Front, g: DataSeg) {
    g.startSeq < f.top && g.startSeq !in m
  }

  function One(b: bool): int {
    if b then 1 else 0
  }

  /** Exactly what a data packet adds to the counts of first packets and of retransmissions, and to the FIN marks,
      on any gap-free run. A bundle counts as a first packet on the entry that it starts, and as a retransmission
      within one; its new bytes count again where an entry takes them. A FIN is marked on the entry that the packet
      starts, or on its cut if that holds the rest of the packet, and on the entry made for new bytes. */
  lemma PacketMarks(st: SendState, f: Front, firstSeq: int, g: DataSeg)
    requires SendInv(st, f) && GapFreeStep(f, g) && g.payloadSize > 0
    ensures var r := SendOne(st, firstSeq, g); var m := st.ranges; r.Running? ==>
      var m', fresh', taken := r.state.ranges, f.Base() < g.endSeq, f.Base() in m;
      && Total(m', SynCount) == Total(m, SynCount)
      && Total(m', FirstSends) == Total(m, FirstSends) + One(StartsOld(m, f, g) && !IsRetransmission(g, f.top))
                                  + One(fresh' && (taken || !IsBundle(g, f.top)))
      && Total(m', Resends) == Total(m, Resends) + One(g.startSeq < f.top && !(StartsOld(m, f, g) && !IsRetransmission(g, f.top)))
      && Total(m', FinCount) == Total(m, FinCount) + (if !g.flags.fin then 0 else
           One(StartsOld(m, f, g) || (StartsWithin(m, f, g) && FirstPart(m, g.startSeq, g.endSeq) == g.payloadSize))
           + One(fresh' && !taken))
  {
    hide Insert, Range.Info, Additive, TailGain, Total, NewTail, Unanswered, StillDeeper, FirstPart, CountPart, Carve;
    DataIsReady(st, f, firstSeq, g);
    BundleIsOverlap(st.totals, g);
    var m, c, base, s, e := st.ranges, CallFor(st, firstSeq, g), f.Base(), g.startSeq, g.endSeq;
    CountersSplit();
    MarksSplit();
    MarksStill(c);
    if e > base {
      ReadyTail(m, c, s, e, base);
      TailMarks(m, c, base, e);
    }
    if s < f.top {
      assert base == f.top;
      var k := ReadyAt(m, c, s, e, base);
      var q := PartEnd(m, k, e);
      InsertSum(m, c, s, e, base, k, SynCount);
      InsertSum(m, c, s, e, base, k, FinCount);
      InsertSum(m, c, s, e, base, k, FirstSends);
      InsertSum(m, c, s, e, base, k, Resends);
      FirstPartFields(m, k, s, q);
      FirstPartOf(m, s, e, k);
      HeldBy(m, k, s);
      FirstPartMarks(m, c, s, e, Carve(m, k, s, q)[s]);
    } else {
      NewSum(m, c, s, e, SynCount);
      NewSum(m, c, s, e, FinCount);
      NewSum(m, c, s, e, FirstSends);
      NewSum(m, c, s, e, Resends);
    }
  }

  lemma HeldBy(m: Ranges, k: int, s: int)
    requires Disjoint(m) && Covers(m, k, s)
    ensures k == s <==> s in m
  {
  }

  lemma NewSum(m: Ranges, c: Call, s: int, e: int, h: Range -> int)
    requires Ready(m, c, s, e, s)
    ensures var r := Insert(m, c, s, e, 0); r.Ok? ==> Total(r.ranges, h) == Total(m, h) + TailGain(m, c, s, e, h)
  {
    hide Total, TailGain, NewTail, Step, Insert;
    InsertOnce(m, c, s, e, 0);
    StepNew(m, c, e, 0);
    TailTotal(m, c, s, e, h);
  }

  /** A SYN or a FIN without payload is marked once, and counts as a first packet on an entry of its own and as a
      retransmission on one that is there. */
  lemma ControlMarks(st: SendState, f: Front, firstSeq: int, g: DataSeg)
    requires SendInv(st, f) && GapFreeStep(f, g) && g.payloadSize == 0
    ensures var r := SendOne(st, firstSeq, g); var m := st.ranges;
      && r.Running?
      && var m' := r.state.ranges;
      && Total(m', SynCount) == Total(m, SynCount) + One(g.flags.syn)
      && Total(m', FinCount) == Total(m, FinCount) + One(g.flags.fin)
      && Total(m', FirstSends) == Total(m, FirstSends) + One(g.flags.Control() && g.startSeq !in m)
      && Total(m', Resends) == Total(m, Resends) + One(g.flags.Control() && g.startSeq in m)
  {
    hide Total, Range.Info, InsertEmpty, ControlKey;
    ControlStep(st, f, firstSeq, g);
    var m, c := st.ranges, CallFor(st, firstSeq, g);
    ControlTotal(m, c, g.startSeq, SynCount);
    ControlTotal(m, c, g.startSeq, FinCount);
    ControlTotal(m, c, g.startSeq, Resends);
    ControlTotal(m, c, g.startSeq, FirstSends);
    EmptyMarks(m, c, g.startSeq);
  }

  lemma EmptyMarks(m: Ranges, c: Call, s: int)
    requires c.itype == InsertSent && !c.seg.flags.rst && !c.seg.retrans && !(c.seg.flags.syn && c.seg.flags.fin)
    ensures var k := ControlKey(m, c.seg, s); var r' := InsertEmpty(m, c, s)[k]; var r := if k in m then m[k] else NewRange(k, k);
      && (c.seg.flags.Control() ==> k == s)
      && r'.syn == r.syn + One(c.seg.flags.syn) && r'.fin == r.fin + One(c.seg.flags.fin)
      && r'.packetSentCount == r.packetSentCount + One(c.seg.flags.Control() && s !in m)
      && r'.packetRetransCount == r.packetRetransCount + One(c.seg.flags.Control() && s in m)
  {
  }

  function Syns(segs: seq<DataSeg>): set<int> {
    set i | 0 <= i < |segs| && segs[i].payloadSize == 0 && segs[i].flags.syn
  }

  function Fins(segs: seq<DataSeg>): set<int> {
    set i | 0 <= i < |segs| && segs[i].payloadSize == 0 && segs[i].flags.fin
  }

  lemma MarkedStep(segs: seq<DataSeg>)
    requires segs != []
    ensures var n := |segs| - 1; var g := segs[n];
      && |Syns(segs)| == |Syns(segs[..n])| + One(g.payloadSize == 0 && g.flags.syn)
      && |Fins(segs)| == |Fins(segs[..n])| + One(g.payloadSize == 0 && g.flags.fin)
  {
    var n := |segs| - 1;
    PositionsStep(Syns(segs[..n]), Syns(segs), n, segs[n].payloadSize == 0 && segs[n].flags.syn);
    PositionsStep(Fins(segs[..n]), Fins(segs), n, segs[n].payloadSize == 0 && segs[n].flags.fin);
  }

  /** No data packet carries a FIN. */
  ghost predicate BareFins(segs: seq<DataSeg>) {
    forall i :: 0 <= i < |segs| && segs[i].payloadSize > 0 ==> !segs[i].flags.fin
  }

  /** After any gap-free trace every SYN is marked once, and every FIN if none comes with data. */
  lemma {:induction false} MarksOfRun(firstSeq: int, segs: seq<DataSeg>)
    requires GapFree(segs) && Packets(segs)
    ensures var r := SendAll(firstSeq, segs); r.Running? ==>
      && Total(r.state.ranges, SynCount) == |Syns(segs)|
      && (BareFins(segs) ==> Total(r.state.ranges, FinCount) == |Fins(segs)|)
  {
    hide SendInv, GapFreeStep, NextFront, SendOne, GapFree, Syns, Fins, Total, One;
    if segs == [] {
      assert Syns(segs) == {} && Fins(segs) == {} && Total(map[], SynCount) == Total(map[], FinCount) == 0 by { NothingMarked(); }
    } else {
      var n := |segs| - 1;
      GapFreeInit(segs);
      MarksOfRun(firstSeq, segs[..n]);
      SendRefinesCounter(firstSeq, segs[..n]);
      MarkedStep(segs);
      var r := SendAll(firstSeq, segs[..n]);
      if r.Running? {
        Ones();
        if segs[n].payloadSize > 0 {
          PacketMarks(r.state, FrontOf(segs[..n]), firstSeq, segs[n]);
        } else {
          ControlMarks(r.state, FrontOf(segs[..n]), firstSeq, segs[n]);
        }
      }
    }
  }

  lemma Ones()
    ensures One(true) == 1 && One(false) == 0
  {
  }

  lemma NothingMarked()
    ensures Syns([]) == {} && Fins([]) == {} && Total(map[], SynCount) == Total(map[], FinCount) == 0
  {
  }

  // ---------- entries that bundles made ----------

  function MadeByBundle(r: Range): int {
    if r.originalPacketIsRdb then 1 else 0
  }

  lemma MadeSplits()
    ensures Additive(MadeByBundle) && AckBlind(MadeByBundle)
  {
  }

  lemma MadeGains(c: Call)
    ensures Gains(MadeByBundle, c, 0, 0)
  {
    hide Range.Info;
  }

  lemma TailMade(m: Ranges, c: Call, base: int, e: int)
    requires Ready(m, c, base, e, base) && base < e
    ensures TailGain(m, c, base, e, MadeByBundle) == if c.seg.isRdb && base !in m then 1 else 0
  {
  }

  lemma DataMade(st: SendState, f: Front, firstSeq: int, g: DataSeg)
    requires SendInv(st, f) && GapFreeStep(f, g) && g.payloadSize > 0
    ensures var r := SendOne(st, firstSeq, g); r.Running? ==>
      Total(r.state.ranges, MadeByBundle) == Total(st.ranges, MadeByBundle) + One(IsBundle(g, f.top) && f.top !in st.ranges)
  {
    hide Insert, Range.Info, Gains, Additive, TailGain, Total, NewTail, Unanswered;
    DataIsReady(st, f, firstSeq, g);
    BundleIsOverlap(st.totals, g);
    var m, c, base := st.ranges, CallFor(st, firstSeq, g), f.Base();
    MadeSplits();
    MadeGains(c);
    InsertTotal(m, c, g.startSeq, g.endSeq, 0, base, MadeByBundle, 0, 0);
    if g.endSeq > base {
      ReadyTail(m, c, g.startSeq, g.endSeq, base);
      TailMade(m, c, base, g.endSeq);
    }
  }

  lemma ControlMade(st: SendState, f: Front, firstSeq: int, g: DataSeg)
    requires SendInv(st, f) && GapFreeStep(f, g) && g.payloadSize == 0
    ensures var r := SendOne(st, firstSeq, g); r.Running? && Total(r.state.ranges, MadeByBundle) == Total(st.ranges, MadeByBundle)
  {
    hide Total, Range.Info, InsertEmpty, ControlKey;
    ControlStep(st, f, firstSeq, g);
    var m, c := st.ranges, CallFor(st, firstSeq, g);
    ControlTotal(m, c, g.startSeq, MadeByBundle);
    EmptyMade(m, c, g.startSeq);
  }

  lemma EmptyMade(m: Ranges, c: Call, s: int)
    requires c.itype == InsertSent
    ensures var k := ControlKey(m, c.seg, s);
      InsertEmpty(m, c, s)[k].originalPacketIsRdb == (k in m && m[k].originalPacketIsRdb)
  {
  }

  /** After any gap-free trace each bundle made one entry, but for those whose new bytes an entry took. */
  lemma {:induction false} MadeByBundles(firstSeq: int, segs: seq<DataSeg>)
    requires GapFree(segs) && Packets(segs)
    ensures var r := SendAll(firstSeq, segs);
      r.Running? ==> Total(r.state.ranges, MadeByBundle) == |Bundles(segs)| - |CountedTwice(segs)|
  {
    hide SendInv, GapFreeStep, NextFront, SendOne, GapFree, CountedTwice, HeldTail, Bundles, Retransmissions, DataPackets, Total;
    if segs == [] {
      assert Bundles([]) == CountedTwice([]) == {} && Total(map[], MadeByBundle) == 0 by { NothingMade(); }
    } else {
      var n := |segs| - 1;
      GapFreeInit(segs);
      MadeByBundles(firstSeq, segs[..n]);
      SendRefinesCounter(firstSeq, segs[..n]);
      CountedTwiceStep(segs);
      CountsStep(segs);
      var r := SendAll(firstSeq, segs[..n]);
      if r.Running? {
        var f := FrontOf(segs[..n]);
        TopIsHighest(segs[..n]);
        if segs[n].payloadSize > 0 {
          DataMade(r.state, f, firstSeq, segs[n]);
          assert segs[..n][..n] == segs[..n];
          TailHeld(firstSeq, segs[..n], n);
          BundleBeforeFin(r.state, f, segs[n], segs[..n]);
        } else {
          ControlMade(r.state, f, firstSeq, segs[n]);
        }
      }
    }
  }

  lemma NothingMade()
    ensures Bundles([]) == CountedTwice([]) == {} && Total(map[], MadeByBundle) == 0
  {
  }

  /** The entry that bundle `g` made for its new bytes: it has the whole payload of the packet, and is not
      counted as a packet. */
  ghost predicate BundleEntry(r: Range, g: DataSeg) {
    && r.endSeq == g.endSeq && r.originalPayloadSize == g.payloadSize && r.originalPacketIsRdb
    && r.packetSentCount == 0 && r.dataSentCount == 1 && r.rdbCount == 0
  }

  ghost function NotAt(x: int): Range -> bool {
    (r: Range) => r.startSeq != x
  }

  ghost function MadeAt(x: int, g: DataSeg): Range -> bool {
    (r: Range) => r.startSeq == x ==> BundleEntry(r, g)
  }

  lemma ElsewhereTurns(x: int, g: DataSeg, c: Call, s: int, e: int)
    requires s != x && e != x
    ensures Turns(NotAt(x), MadeAt(x, g), c, s, e) && KeptByCut(NotAt(x), s, e)
  {
    hide Range.Info;
  }

  lemma TopIsBoundary(m: Ranges, f: Front)
    requires Shape(m, f) && f.top > 0
    ensures Boundary(m, f.top)
  {
    assert Covered(m, f.top - 1);
    var k :| Covers(m, k, f.top - 1);
    if m[k].endSeq > f.top {
      assert Covers(m, k, f.top) && Covered(m, f.top);
    }
  }

  lemma BundleMakes(st: SendState, f: Front, firstSeq: int, g: DataSeg)
    requires SendInv(st, f) && GapFreeStep(f, g) && IsBundle(g, f.top) && f.top !in st.ranges
    ensures var r := SendOne(st, firstSeq, g); r.Running? ==> f.top in r.state.ranges && BundleEntry(r.state.ranges[f.top], g)
  {
    hide Insert, NewTail, TurnsInside, TurnsFound, KeptByCut, Range.Info, BundleEntry, Unanswered;
    DataIsReady(st, f, firstSeq, g);
    DataKeeps(st, f, firstSeq, g);
    BundleIsOverlap(st.totals, g);
    var m, c, s, e, base := st.ranges, CallFor(st, firstSeq, g), g.startSeq, g.endSeq, f.top;
    assert base == f.Base();
    ElsewhereTurns(base, g, c, s, e);
    ReadyTail(m, c, s, e, base);
    NewBundleEntry(m, c, base, e, g);
    assert AllEntries(m, NotAt(base));
    FirstHalf(m, s, NotAt(base), MadeAt(base, g));
    DataTurns(m, c, s, e, base, NotAt(base), MadeAt(base, g));
    var r := Insert(m, c, s, e, 0);
    if r.Ok? {
      InvShape(st, f);
      TopIsBoundary(m, f);
      TopIsKey(r.ranges, base, s, e, c, m);
      assert MadeAt(base, g)(r.ranges[base]);
    }
  }

  lemma NewBundleEntry(m: Ranges, c: Call, base: int, e: int, g: DataSeg)
    requires Ready(m, c, base, e, base) && base < e && base !in m && c.itype == InsertSent && c.seg.isRdb
    requires c.seg.payloadSize == g.payloadSize && e == g.endSeq
    ensures BundleEntry(NewTail(m, c, base, e), g)
  {
  }

  /** The end of the old data is a boundary, and the new bytes start there. */
  lemma TopIsKey(m': Ranges, base: int, s: int, e: int, c: Call, m: Ranges)
    requires Keyed(m) && Disjoint(m) && Keyed(m') && Disjoint(m') && CountedOn(m, m', c, s, e) && s < base < e && Boundary(m', base)
    ensures base in m'
  {
    hide Range.Info;
    assert At(m', base).Some?;
    var k :| Covers(m', k, base);
  }

  /** All these counts hold at the end of every run. */
  lemma RunCounters(t: Trace)
    requires WellFormed(t)
    ensures var r := RunAll(t); r.Running? ==>
      && Counts(r.state.ranges, t.sent)
      && Total(r.state.ranges, MadeByBundle) == |Bundles(t.sent)| - |CountedTwice(t.sent)|
  {
    hide WellFormed, Ends, RunAll, Counts, Total, Bundles, CountedTwice;
    RunCompletes(t);
    var r := RunAll(t);
    if r.Running? {
      FinalKinds(t, r.state.sent, r.state.acked, r.state.ranges);
      FinalMade(t, r.state.sent, r.state.acked, r.state.ranges);
    }
  }

  lemma FinalMade(t: Trace, st: SendState, m1: Ranges, m: Ranges)
    requires Ends(t, st, m1, m)
    ensures Total(m, MadeByBundle) == |Bundles(t.sent)| - |CountedTwice(t.sent)|
  {
    hide SendAll, AckAll, ReceiveAll, GapFree, FrontOf, ReceivedRun, Total, Bundles, CountedTwice, Additive, AckBlind, Gains, Shape;
    MadeByBundles(t.firstSeq, t.sent);
    MadeSplits();
    forall g: DataSeg
      ensures Gains(MadeByBundle, RecvCall(FrontOf(t.sent).last, t.firstSeq, g), 0, 0)
    {
      MadeGains(RecvCall(FrontOf(t.sent).last, t.firstSeq, g));
    }
    TotalThrough(t, st, m1, m, MadeByBundle);
  }

  function RstCount(r: Range): int {
    r.rst
  }

  /** An RST without payload, which gap-free traces leave out, counts as a first packet wherever it lands and is
      marked once; it is no transmission of an entry that is there, and does not move the next expected number. */
  lemma RstMarks(st: SendState, firstSeq: int, g: DataSeg)
    requires Keyed(st.ranges) && Captured(g) && g.payloadSize == 0 && g.flags == Flags(false, false, true)
    ensures var r := SendOne(st, firstSeq, g); var m, k := st.ranges, g.startSeq;
      && r.Running? && r.state.lastSeq == st.lastSeq && k in r.state.ranges
      && Total(r.state.ranges, RstCount) == Total(m, RstCount) + 1
      && Total(r.state.ranges, FirstSends) == Total(m, FirstSends) + 1
      && r.state.ranges[k].dataSentCount == (if k in m then m[k].dataSentCount else 1)
  {
    hide Total, Range.Info;
    var m, c, k := st.ranges, CallFor(st, firstSeq, g), g.startSeq;
    var r := InsertEmpty(m, c, k)[k];
    RstFields(m, c, k);
    if k in m {
      TotalUpdate(m, k, r, RstCount);
      TotalUpdate(m, k, r, FirstSends);
    } else {
      TotalInsert(m, k, r, RstCount);
      TotalInsert(m, k, r, FirstSends);
    }
  }

  lemma RstFields(m: Ranges, c: Call, s: int)
    requires c.itype == InsertSent && c.seg.flags == Flags(false, false, true) && !c.seg.retrans
    ensures InsertEmpty(m, c, s).Keys == m.Keys + {s}
    ensures var r' := InsertEmpty(m, c, s)[s]; var r := if s in m then m[s] else NewRange(s, s);
      && InsertEmpty(m, c, s) == m[s := r']
      && r'.rst == r.rst + 1 && r'.packetSentCount == r.packetSentCount + 1
      && r'.dataSentCount == (if s in m then r.dataSentCount else 1)
  {
  }

  // ---------- receptions without payload ----------

  /** A received packet without payload counts as received where an entry is, with a SYN or a FIN also as a
      reception of that entry. Where none is, it makes one, and that counts it as sent. */
  lemma ControlReceived(m: Ranges, lastSeq: int, firstSeq: int, g: DataSeg)
    requires Keyed(m) && Captured(g) && g.payloadSize == 0
    ensures var r := ReceiveOne(m, lastSeq, firstSeq, g); var k := ControlKey(m, g, g.startSeq);
      && r.Running? && k in r.state && r.state.Keys == m.Keys + {k}
      && Total(r.state, PacketsReceived) == Total(m, PacketsReceived) + One(k in m)
      && Total(r.state, PacketsSent) == Total(m, PacketsSent) + One(k !in m)
      && r.state[k].dataReceivedCount == (if k in m then m[k].dataReceivedCount + One(g.flags.syn || g.flags.fin) else 0)
      && r.state[k].lostTstampsTcp == (if k !in m then [Unconfirmed(g.tstampTcp, g.tstampPcap)]
                                       else if g.flags.syn || g.flags.fin then EraseFirst(m[k].lostTstampsTcp, g.tstampTcp)
                                       else m[k].lostTstampsTcp)
      && forall j :: j in m && j != k ==> r.state[j] == m[j]
  {
    hide Total, Range.Info;
    var c := RecvCall(lastSeq, firstSeq, g);
    var k := ControlKey(m, c.seg, g.startSeq);
    var r := InsertEmpty(m, c, g.startSeq)[k];
    ControlReceivedFields(m, c, g.startSeq);
    if k in m {
      TotalUpdate(m, k, r, PacketsReceived);
      TotalUpdate(m, k, r, PacketsSent);
    } else {
      TotalInsert(m, k, r, PacketsReceived);
      TotalInsert(m, k, r, PacketsSent);
    }
  }

  lemma ControlReceivedFields(m: Ranges, c: Call, s: int)
    requires c.itype == InsertRecv && !c.seg.retrans && !c.seg.isRdb
    ensures var k := ControlKey(m, c.seg, s); var r' := InsertEmpty(m, c, s)[k]; var answered := c.seg.flags.syn || c.seg.flags.fin;
      && InsertEmpty(m, c, s) == m[k := r']
      && PacketsReceived(r') == (if k in m then PacketsReceived(m[k]) + 1 else 0)
      && PacketsSent(r') == (if k in m then PacketsSent(m[k]) else 1)
      && r'.dataReceivedCount == (if k in m then m[k].dataReceivedCount + One(answered) else 0)
      && r'.lostTstampsTcp == (if k !in m then [Unconfirmed(c.seg.tstampTcp, c.seg.tstampPcap)]
                               else if answered then EraseFirst(m[k].lostTstampsTcp, c.seg.tstampTcp) else m[k].lostTstampsTcp)
  {
  }

  // ---------- duplicate acknowledgements ----------

  ghost predicate Quiet(r: Range) {
    r.dupackCount == 0 && r.ackCount == 0
  }

  lemma QuietKept(c: Call)
    ensures KeptBySplit(Quiet) && KeptByCount(Quiet, c)
  {
    hide Range.Info;
  }

  lemma {:induction false} SendsQuiet(firstSeq: int, segs: seq<DataSeg>)
    requires GapFree(segs) && Packets(segs)
    ensures var r := SendAll(firstSeq, segs); r.Running? ==> AllEntries(r.state.ranges, Quiet)
  {
    hide SendInv, GapFreeStep, NextFront, SendOne, AllEntries, GapFree;
    if segs == [] {
      NoEntries(Quiet);
    } else {
      var n := |segs| - 1;
      GapFreeInit(segs);
      SendsQuiet(firstSeq, segs[..n]);
      SendRefinesCounter(firstSeq, segs[..n]);
      var r := SendAll(firstSeq, segs[..n]);
      if r.Running? {
        StepQuiet(r.state, FrontOf(segs[..n]), firstSeq, segs[n]);
      }
    }
  }

  lemma StepQuiet(st: SendState, f: Front, firstSeq: int, g: DataSeg)
    requires SendInv(st, f) && GapFreeStep(f, g) && AllEntries(st.ranges, Quiet)
    ensures var r := SendOne(st, firstSeq, g); r.Running? ==> AllEntries(r.state.ranges, Quiet)
  {
    hide Insert, InsertEmpty, NewTail, KeptBySplit, KeptByCount, Quiet;
    var m, c, base := st.ranges, CallFor(st, firstSeq, g), f.Base();
    if g.payloadSize > 0 {
      DataIsReady(st, f, firstSeq, g);
      QuietKept(c);
      if g.endSeq > base {
        ReadyTail(m, c, g.startSeq, g.endSeq, base);
        TailQuiet(m, c, base, g.endSeq);
      }
      InsertKeeps(m, c, g.startSeq, g.endSeq, 0, base, Quiet);
    } else {
      ControlStep(st, f, firstSeq, g);
      ControlQuiet(m, c, g.startSeq);
    }
  }

  lemma TailQuiet(m: Ranges, c: Call, base: int, e: int)
    requires Ready(m, c, base, e, base) && base < e && AllEntries(m, Quiet)
    ensures Quiet(NewTail(m, c, base, e))
  {
    assert base in m ==> Quiet(m[base]);
  }

  lemma ControlQuiet(m: Ranges, c: Call, s: int)
    requires c.itype == InsertSent && AllEntries(m, Quiet)
    ensures AllEntries(InsertEmpty(m, c, s), Quiet)
  {
    var k := ControlKey(m, c.seg, s);
    assert k in m ==> Quiet(m[k]);
  }

  lemma {:induction false} QuietSum(m: Ranges)
    requires AllEntries(m, Quiet)
    ensures Total(m, Duplicates) == 0 && Total(m, AckCount) == 0
    decreases |m|
  {
    if m != map[] {
      QuietSum(m - {FirstKey(m).value});
    }
  }

  lemma CountsNoAck(r: Range, r': Range, c: Call, s: int, level: nat, ends: bool)
    requires r' == CountInside(r, c, s, level, ends) || r' == CountExisting(r, c, s, level)
    ensures r'.dupackCount == r.dupackCount && r'.ackCount == r.ackCount
  {
    hide Range.Info;
  }

  lemma AckCountsGain(c: Call)
    ensures Gains(Duplicates, c, 0, 0) && Gains(AckCount, c, 0, 0)
  {
    hide CountInside, CountExisting, Range.Info;
    forall r: Range, s: int, level: nat, ends: bool
      ensures var r' := CountInside(r, c, s, level, ends); r'.dupackCount == r.dupackCount && r'.ackCount == r.ackCount
    {
      CountsNoAck(r, CountInside(r, c, s, level, ends), c, s, level, ends);
    }
    forall r: Range, s: int, level: nat
      ensures var r' := CountExisting(r, c, s, level); r'.dupackCount == r.dupackCount && r'.ackCount == r.ackCount
    {
      CountsNoAck(r, CountExisting(r, c, s, level), c, s, level, true);
    }
  }

  /** At the end of every run: one duplicate for each acknowledgement that repeated the one before, and no
      acknowledgement counted on two entries. */
  lemma RunDuplicates(t: Trace)
    requires WellFormed(t)
    ensures var r := RunAll(t); r.Running? ==> var m := r.state.ranges;
      && AckState(r.state.sent.ranges) && r.state.sent.ranges != map[]
      && Total(m, Duplicates) == RepeatsIn(r.state.sent.ranges, t.acks)
      && 0 <= Total(m, AckCount) <= |t.acks|
  {
    hide WellFormed, Ends, RunAll, Total, RepeatsIn, AckState;
    RunCompletes(t);
    var r := RunAll(t);
    if r.Running? {
      FinalDuplicates(t, r.state.sent, r.state.acked, r.state.ranges);
    }
  }

  lemma FinalDuplicates(t: Trace, st: SendState, m1: Ranges, m: Ranges)
    requires Ends(t, st, m1, m)
    ensures AckState(st.ranges) && st.ranges != map[]
    ensures Total(m, Duplicates) == RepeatsIn(st.ranges, t.acks) && 0 <= Total(m, AckCount) <= |t.acks|
  {
    hide SendAll, AckAll, ReceiveAll, GapFree, FrontOf, ReceivedRun, ReceiveState, At, Total, SameCounts, EntriesSound,
      CountsBytes, Shape, Additive, Gains, RepeatsIn, AckState, AllEntries;
    SentFacts(t, st);
    SendsQuiet(t.firstSeq, t.sent);
    QuietSum(st.ranges);
    DuplicatesOfRun(st.ranges, t.acks);
    AckedFacts(t, st, m1);
    CountersAdditive();
    forall g: DataSeg
      ensures var c := RecvCall(FrontOf(t.sent).last, t.firstSeq, g); Gains(Duplicates, c, 0, 0) && Gains(AckCount, c, 0, 0)
    {
      AckCountsGain(RecvCall(FrontOf(t.sent).last, t.firstSeq, g));
    }
    ReceptionsKeepTotal(m1, FrontOf(t.sent), t.firstSeq, t.received, Duplicates);
    ReceptionsKeepTotal(m1, FrontOf(t.sent), t.firstSeq, t.received, AckCount);
  }

  // ---------- the loss report ----------

  function ReportedBytes(r: Range): int {
    |r.sentTstampPcap| * r.byteCount
  }

  function ReportedNew(r: Range): int {
    FirstSize(r)
  }

  lemma {:induction false} SharesFront(r: Range, entries: seq<Range>)
    ensures Shares([r] + entries) == Merged(Share(r), Shares(entries))
  {
    var all := [r] + entries;
    if entries == [] {
      assert all[..0] == [];
    } else {
      var n := |entries| - 1;
      SharesFront(r, entries[..n]);
      assert all[..|all| - 1] == [r] + entries[..n];
      hide Share;
    }
  }

  /** The shares of all entries, in map order, are sums over the map. */
  lemma {:induction false} SharesTotal(m: Ranges)
    ensures Shares(InOrder(m)).totAllBytes == Total(m, ReportedBytes)
    ensures Shares(InOrder(m)).totNewBytes == Total(m, ReportedNew)
    decreases |m|
  {
    if m != map[] {
      var k := FirstKey(m).value;
      SharesTotal(m - {k});
      SharesFront(m[k], InOrder(m - {k}));
    }
  }

  /** An entry of data packets lists each of its transmissions once. */
  ghost predicate Dense(r: Range) {
    !r.Empty() && |r.sentTstampPcap| == r.dataSentCount
  }

  lemma DenseKept(c: Call)
    ensures KeptBySplit(Dense) && KeptByCount(Dense, c)
  {
    hide CountInside, CountExisting, Range.Info;
    forall r: Range, s: int, level: nat, ends: bool | Dense(r)
      ensures Dense(CountInside(r, c, s, level, ends))
    {
      CountDense(r, CountInside(r, c, s, level, ends), c, s, level, ends);
    }
    forall r: Range, s: int, level: nat | Dense(r)
      ensures Dense(CountExisting(r, c, s, level))
    {
      CountDense(r, CountExisting(r, c, s, level), c, s, level, true);
    }
  }

  lemma CountDense(r: Range, r': Range, c: Call, s: int, level: nat, ends: bool)
    requires Dense(r) && (r' == CountInside(r, c, s, level, ends) || r' == CountExisting(r, c, s, level))
    ensures Dense(r')
  {
    hide Range.Info;
  }

  lemma {:induction false} SendsDense(firstSeq: int, segs: seq<DataSeg>)
    requires GapFree(segs) && Packets(segs) && DataOnly(segs)
    ensures var r := SendAll(firstSeq, segs); r.Running? ==> AllEntries(r.state.ranges, Dense)
  {
    hide SendInv, GapFreeStep, NextFront, SendOne, AllEntries, GapFree;
    if segs == [] {
      NoEntries(Dense);
    } else {
      var n := |segs| - 1;
      GapFreeInit(segs);
      SendsDense(firstSeq, segs[..n]);
      SendRefinesCounter(firstSeq, segs[..n]);
      var r := SendAll(firstSeq, segs[..n]);
      if r.Running? {
        StepDense(r.state, FrontOf(segs[..n]), firstSeq, segs[n]);
      }
    }
  }

  lemma StepDense(st: SendState, f: Front, firstSeq: int, g: DataSeg)
    requires SendInv(st, f) && GapFreeStep(f, g) && g.payloadSize > 0 && AllEntries(st.ranges, Dense)
    ensures var r := SendOne(st, firstSeq, g); r.Running? ==> AllEntries(r.state.ranges, Dense)
  {
    hide Insert, NewTail, KeptBySplit, KeptByCount, Dense;
    DataIsReady(st, f, firstSeq, g);
    var m, c, base := st.ranges, CallFor(st, firstSeq, g), f.Base();
    DenseKept(c);
    if g.endSeq > base {
      ReadyTail(m, c, g.startSeq, g.endSeq, base);
      TailDense(m, c, base, g.endSeq);
    }
    InsertKeeps(m, c, g.startSeq, g.endSeq, 0, base, Dense);
  }

  lemma TailDense(m: Ranges, c: Call, base: int, e: int)
    requires Ready(m, c, base, e, base) && base < e && c.itype == InsertSent && AllEntries(m, Dense)
    ensures Dense(NewTail(m, c, base, e))
  {
    assert base in m ==> Dense(m[base]);
  }

  lemma FinalDense(t: Trace, st: SendState, m1: Ranges, m: Ranges)
    requires Ends(t, st, m1, m) && DataOnly(t.sent)
    ensures AllEntries(m, Dense)
  {
    hide SendAll, GapFree, FrontOf, Dense, AllEntries, AckAll, ReceiveAll, KeptBySplit, KeptByCount, ReceivedRun;
    SendsDense(t.firstSeq, t.sent);
    forall g: DataSeg
      ensures KeptByCount(Dense, RecvCall(FrontOf(t.sent).last, t.firstSeq, g))
    {
      DenseKept(RecvCall(FrontOf(t.sent).last, t.firstSeq, g));
    }
    DenseKept(RecvCall(0, 0, t.sent[0]));
    DenseBlind();
    FinalEntries(t, st, m1, m, Dense);
  }

  lemma DenseBlind()
    ensures forall r: Range, r': Range :: AckOnly(r, r') && Dense(r) ==> Dense(r')
  {
  }

  lemma {:induction false} SameTotal(m: Ranges, g: Range -> int, h: Range -> int)
    requires forall k :: k in m ==> g(m[k]) == h(m[k])
    ensures Total(m, g) == Total(m, h)
    decreases |m|
  {
    if m != map[] {
      SameTotal(m - {FirstKey(m).value}, g, h);
    }
  }

  /** On every run of data packets all buckets together hold the payload sent, and without bundles their new
      bytes are the data sent for the first time. */
  lemma RunBuckets(t: Trace, b: Buckets, n: nat)
    requires WellFormed(t) && DataOnly(t.sent) && SentInBuckets(b, t.sent)
    ensures var r := RunAll(t); r.Running? ==> var entries := InOrder(r.state.ranges);
      && AllSound(b, entries)
      && (NoneSentFrom(b, entries, n) ==>
            && AllBuckets(b, entries, n).totAllBytes == Payload(t.sent)
            && (Unbundled(t.sent) ==> AllBuckets(b, entries, n).totNewBytes == Payload(t.sent) - RetransmittedBytes(t.sent)))
  {
    hide *;
    RunCompletes(t);
    RunEntries(t, b, 0);
    RunConserves(t);
    var r := RunAll(t);
    if r.Running? {
      SharesOfRun(t, r.state.sent, r.state.acked, r.state.ranges);
      SoundInBuckets(b, InOrder(r.state.ranges));
      if NoneSentFrom(b, InOrder(r.state.ranges), n) {
        BucketsAddUp(b, InOrder(r.state.ranges), n);
      }
    }
  }

  lemma SoundInBuckets(b: Buckets, entries: seq<Range>)
    requires AllSound(b, entries)
    ensures InBuckets(b, entries)
  {
  }

  lemma SharesOfRun(t: Trace, st: SendState, m1: Ranges, m: Ranges)
    requires Ends(t, st, m1, m) && DataOnly(t.sent)
    ensures Shares(InOrder(m)).totAllBytes == Total(m, SentBytes)
    ensures Unbundled(t.sent) ==> Shares(InOrder(m)).totNewBytes == Payload(t.sent) - RetransmittedBytes(t.sent)
  {
    hide Ends, Shares, InOrder, Total, Unbundled, Payload, Dense, AllEntries, EntriesSound, PureAcks, DataOnly, Plainly;
    FinalKinds(t, st, m1, m);
    FinalDense(t, st, m1, m);
    FinalEntriesSound(t, st, m1, m);
    OnlyData(t.sent);
    DenseSums(m);
    SharesTotal(m);
  }

  lemma OnlyData(segs: seq<DataSeg>)
    requires DataOnly(segs)
    ensures Plainly(segs)
  {
  }

  lemma DenseSums(m: Ranges)
    requires AllEntries(m, Dense) && EntriesSound(m)
    ensures Total(m, ReportedBytes) == Total(m, SentBytes) && Total(m, ReportedNew) == Total(m, NewPayload)
  {
    hide LostWithinSent, Unflagged;
    forall k | k in m
      ensures ReportedBytes(m[k]) == SentBytes(m[k]) && ReportedNew(m[k]) == NewPayload(m[k])
    {
      assert Dense(m[k]) && Aligned(m[k]);
    }
    SameTotal(m, ReportedBytes, SentBytes);
    SameTotal(m, ReportedNew, NewPayload);
  }

  // ---------- runs on which nothing arrives ----------

  /** An entry counted as a packet lists all of its transmissions as lost, in their order. */
  ghost predicate AllLost(r: Range) {
    r.packetSentCount > 0 ==> LostTimes(r.lostTstampsTcp) == SentTimes(r.sentTstampPcap)
  }

  lemma SendingLost(r: Range, seg: DataSeg, rdb: bool, kind: SentType)
    requires LostTimes(r.lostTstampsTcp) == SentTimes(r.sentTstampPcap)
    ensures var r' := r.IncreaseSent(seg, rdb, kind); LostTimes(r'.lostTstampsTcp) == SentTimes(r'.sentTstampPcap)
  {
    var r' := r.IncreaseSent(seg, rdb, kind);
    assert LostTimes(r'.lostTstampsTcp) == LostTimes(r.lostTstampsTcp) + [seg.tstampPcap];
    assert SentTimes(r'.sentTstampPcap) == SentTimes(r.sentTstampPcap) + [seg.tstampPcap];
  }

  lemma InsideLost(r: Range, c: Call, s: int, level: nat, ends: bool)
    requires AllLost(r) && c.itype == InsertSent && c.seg.retrans
    ensures AllLost(CountInside(r, c, s, level, ends))
  {
    hide Range.Info;
    if r.packetSentCount > 0 {
      SendingLost(r, c.seg, RdbAt(c.seg, s), if level == 0 then StRtr else StNone);
    }
  }

  lemma ExistingLost(r: Range, c: Call, s: int, level: nat)
    requires AllLost(r) && c.itype == InsertSent && c.seg.retrans
    ensures AllLost(CountExisting(r, c, s, level))
  {
    hide Range.Info;
    if r.packetSentCount > 0 {
      SendingLost(r, c.seg, RdbAt(c.seg, s), if level == 0 then StRtr else StNone);
    }
  }

  lemma LostKept(c: Call)
    ensures KeptBySplit(AllLost)
    ensures c.itype == InsertSent && c.seg.retrans ==> KeptByCount(AllLost, c)
  {
    hide CountInside, CountExisting, Range.Info;
    LostSplits();
    if c.itype == InsertSent && c.seg.retrans {
      forall r: Range, s: int, level: nat, ends: bool | AllLost(r)
        ensures AllLost(CountInside(r, c, s, level, ends))
      {
        InsideLost(r, c, s, level, ends);
      }
      forall r: Range, s: int, level: nat | AllLost(r)
        ensures AllLost(CountExisting(r, c, s, level))
      {
        ExistingLost(r, c, s, level);
      }
    }
  }

  lemma LostSplits()
    ensures KeptBySplit(AllLost)
  {
  }

  lemma TailLost(m: Ranges, c: Call, base: int, e: int)
    requires Ready(m, c, base, e, base) && base < e && base !in m
    ensures AllLost(NewTail(m, c, base, e))
  {
    assert LostTimes([]) == [] == SentTimes([]);
    var blank := NewRange(base, e).(originalPayloadSize := c.seg.payloadSize,
                                    originalPacketIsRdb := c.seg.isRdb,
                                    fin := if c.seg.flags.fin then 1 else 0);
    SendingLost(blank, c.seg, RdbAt(c.seg, base), if c.seg.isRdb then StNone else StPkt);
  }

  lemma StepLost(st: SendState, f: Front, firstSeq: int, g: DataSeg)
    requires SendInv(st, f) && GapFreeStep(f, g) && g.payloadSize > 0 && !IsBundle(g, f.top)
    requires AllEntries(st.ranges, AllLost) && AllEntries(st.ranges, Dense)
    ensures var r := SendOne(st, firstSeq, g); r.Running? ==> AllEntries(r.state.ranges, AllLost)
  {
    hide Insert, NewTail, KeptBySplit, KeptByCount, AllLost, Unanswered;
    DataIsReady(st, f, firstSeq, g);
    BundleIsOverlap(st.totals, g);
    var m, c, base := st.ranges, CallFor(st, firstSeq, g), f.Base();
    LostKept(c);
    if IsRetransmission(g, f.top) {
      InsertKeeps(m, c, g.startSeq, g.endSeq, 0, base, AllLost);
    } else {
      assert g.startSeq == base;
      assert base in m ==> Dense(m[base]);
      TailLost(m, c, base, g.endSeq);
      StepNew(m, c, g.endSeq, 0);
      InsertOnce(m, c, base, g.endSeq, 0);
    }
  }

  lemma {:induction false} SendsLost(firstSeq: int, segs: seq<DataSeg>)
    requires GapFree(segs) && Packets(segs) && DataOnly(segs) && Unbundled(segs)
    ensures var r := SendAll(firstSeq, segs); r.Running? ==> AllEntries(r.state.ranges, AllLost)
  {
    hide SendInv, GapFreeStep, NextFront, SendOne, AllEntries, GapFree, Unbundled;
    if segs == [] {
      NoEntries(AllLost);
    } else {
      var n := |segs| - 1;
      GapFreeInit(segs);
      UnbundledInit(segs);
      SendsLost(firstSeq, segs[..n]);
      SendsDense(firstSeq, segs[..n]);
      SendRefinesCounter(firstSeq, segs[..n]);
      var r := SendAll(firstSeq, segs[..n]);
      if r.Running? {
        StepLost(r.state, FrontOf(segs[..n]), firstSeq, segs[n]);
      }
    }
  }

  /** Where nothing arrives, without bundles, the report counts all bytes sent for the first time as lost. */
  lemma RunAllLost(t: Trace, b: Buckets, n: nat)
    requires WellFormed(t) && DataOnly(t.sent) && Unbundled(t.sent) && SentInBuckets(b, t.sent) && t.received == []
    ensures var r := RunAll(t); r.Running? ==> var entries := InOrder(r.state.ranges);
      && AllSound(b, entries)
      && (NoneSentFrom(b, entries, n) ==> AllBuckets(b, entries, n).newBytes == AllBuckets(b, entries, n).totNewBytes)
  {
    hide *;
    RunCompletes(t);
    RunEntries(t, b, 0);
    var r := RunAll(t);
    if r.Running? {
      FinalAllLost(t, r.state.sent, r.state.acked, r.state.ranges);
      SoundInBuckets(b, InOrder(r.state.ranges));
      if NoneSentFrom(b, InOrder(r.state.ranges), n) {
        BucketsAddUp(b, InOrder(r.state.ranges), n);
        LostInOrder(r.state.ranges);
        AllNewLost(InOrder(r.state.ranges));
      }
    }
  }

  lemma FinalAllLost(t: Trace, st: SendState, m1: Ranges, m: Ranges)
    requires Ends(t, st, m1, m) && DataOnly(t.sent) && Unbundled(t.sent) && t.received == []
    ensures AllEntries(m, AllLost)
  {
    hide SendAll, GapFree, FrontOf, AllLost, AllEntries, AckAll, KeptBySplit, ReceivedRun, AckState;
    SentFacts(t, st);
    SendsLost(t.firstSeq, t.sent);
    LostSplits();
    LostBlind();
    EntryKept(AllLost);
    AcksKeep(st.ranges, t.acks, x => AllEntries(x, AllLost));
  }

  lemma LostBlind()
    ensures forall r: Range, r': Range :: AckOnly(r, r') && AllLost(r) ==> AllLost(r')
  {
  }

  lemma LostInOrder(m: Ranges)
    requires AllEntries(m, AllLost)
    ensures forall j :: 0 <= j < |InOrder(m)| ==> AllLost(InOrder(m)[j])
  {
    hide InOrder, AllLost;
    InOrderLists(m);
    forall j | 0 <= j < |InOrder(m)|
      ensures AllLost(InOrder(m)[j])
    {
      assert InOrder(m)[j] in InOrder(m);
    }
  }

  lemma {:induction false} AllNewLost(entries: seq<Range>)
    requires forall j :: 0 <= j < |entries| ==> AllLost(entries[j])
    ensures Shares(entries).newBytes == Shares(entries).totNewBytes
  {
    if entries != [] {
      AllNewLost(entries[..|entries| - 1]);
      NewIsLost(entries[|entries| - 1]);
      hide Share, AllLost;
    }
  }

  lemma NewIsLost(r: Range)
    requires AllLost(r)
    ensures Share(r).newBytes == Share(r).totNewBytes
  {
    if r.packetSentCount > 0 && |r.sentTstampPcap| > 0 {
      assert |LostTimes(r.lostTstampsTcp)| == |SentTimes(r.sentTstampPcap)|;
      assert LostTimes(r.lostTstampsTcp)[0] == SentTimes(r.sentTstampPcap)[0];
    }
  }
}
