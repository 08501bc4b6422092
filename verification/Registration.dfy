/** `Connection::registerSent` on values: every data segment is classified as new, bundled or
    retransmitted against the highest data sent so far, and the byte totals follow. */
module Registration {
  import opened Common

  const WRAP32 := 0x1_0000_0000

  datatype Totals = Totals(
    nrPacketsSent: nat, nrDataPacketsSent: nat, nrRetrans: nat, bundleCount: nat,
    totBytesSent: int, totNewDataSent: int, totRdbBytesSent: int, totRetransBytesSent: int,
    lastLargestStartSeq: int, lastLargestEndSeq: int, lastLargestSeqAbsolute: int)

  function NoTotals(firstSeq: int): Totals {
    Totals(0, 0, 0, 0, 0, 0, 0, 0, 0, 0, firstSeq)
  }

  /** The two marks never cross: either no data was sent, or the last data segment starts below the highest end. */
  predicate MarksOrdered(t: Totals) {
    0 <= t.lastLargestStartSeq &&
    (t.lastLargestStartSeq < t.lastLargestEndSeq || t.lastLargestStartSeq == t.lastLargestEndSeq == 0)
  }

  /** A segment as `processSent` builds it from a captured packet. */
  predicate Captured(g: DataSeg) {
    && 0 <= g.startSeq && g.endSeq == g.startSeq + g.payloadSize
    && !g.retrans && !g.isRdb && g.rdbEndSeq == 0
  }

  /** The three ways the code recognises a bundled segment (Connection.cc:227-241). */
  predicate SameStartBundle(t: Totals, g: DataSeg) {
    g.startSeq == t.lastLargestStartSeq && g.endSeq > t.lastLargestEndSeq
    && t.lastLargestStartSeq + t.lastLargestEndSeq != 0
  }

  predicate LaterStartBundle(t: Totals, g: DataSeg) {
    g.startSeq > t.lastLargestStartSeq && g.startSeq < t.lastLargestEndSeq && g.endSeq > t.lastLargestEndSeq
  }

  predicate OverlapBundle(t: Totals, g: DataSeg) {
    g.startSeq < t.lastLargestEndSeq && g.endSeq > t.lastLargestEndSeq
  }

  function Register(t: Totals, g: DataSeg): (Totals, DataSeg) {
    var t := t.(nrPacketsSent := t.nrPacketsSent + 1);
    if g.payloadSize == 0 then (t, g)
    else
      var (t1, g1) :=
        if g.endSeq > t.lastLargestEndSeq then
          var (t2, g2) :=
            if SameStartBundle(t, g) || LaterStartBundle(t, g) || OverlapBundle(t, g) then
              (t.(bundleCount := t.bundleCount + 1,
                  totRdbBytesSent := t.totRdbBytesSent + (t.lastLargestEndSeq - g.startSeq),
                  totNewDataSent := t.totNewDataSent + (g.endSeq - t.lastLargestEndSeq)),
               g.(isRdb := true, rdbEndSeq := t.lastLargestEndSeq))
            else
              (t.(totNewDataSent := t.totNewDataSent + g.payloadSize), g);
          (t2.(lastLargestEndSeq := g.endSeq,
               lastLargestSeqAbsolute := (g.seqAbsolute + g.payloadSize) % WRAP32), g2)
        else
          (t.(nrRetrans := t.nrRetrans + 1, totRetransBytesSent := t.totRetransBytesSent + g.payloadSize),
           g.(retrans := true));
      (t1.(nrDataPacketsSent := t1.nrDataPacketsSent + 1,
           lastLargestStartSeq := g.startSeq,
           totBytesSent := t1.totBytesSent + g.payloadSize),
       g1)
  }

  /** The three bundling tests collapse to one overlap test, and what they subtract is never negative. */
  lemma BundleIsOverlap(t: Totals, g: DataSeg)
    requires MarksOrdered(t) && Captured(g) && g.payloadSize > 0
    ensures Register(t, g).1.isRdb <==> g.startSeq < t.lastLargestEndSeq < g.endSeq
    ensures Register(t, g).1.retrans <==> g.endSeq <= t.lastLargestEndSeq
    ensures Register(t, g).1.isRdb ==> t.lastLargestEndSeq - g.startSeq > 0
    ensures SameStartBundle(t, g) || LaterStartBundle(t, g) ==> OverlapBundle(t, g)
  {
  }

  /** Registration keeps the marks ordered, and classifies every payload byte exactly once: it is new
      data if no earlier segment reached it, and otherwise bundled or retransmitted. */
  lemma RegisterBalances(t: Totals, g: DataSeg)
    requires MarksOrdered(t) && Captured(g)
    ensures var t' := Register(t, g).0;
      && MarksOrdered(t')
      && t'.lastLargestEndSeq == (if g.payloadSize > 0 then Max(t.lastLargestEndSeq, g.endSeq) else t.lastLargestEndSeq)
      && t'.totBytesSent == t.totBytesSent + g.payloadSize
      && t'.totNewDataSent == t.totNewDataSent
           + (if g.payloadSize > 0 then Max(0, g.endSeq - Max(g.startSeq, t.lastLargestEndSeq)) else 0)
      && t'.totBytesSent - t'.totNewDataSent - t'.totRdbBytesSent - t'.totRetransBytesSent
         == t.totBytesSent - t.totNewDataSent - t.totRdbBytesSent - t.totRetransBytesSent
      && t'.nrPacketsSent == t.nrPacketsSent + 1
  {
  }

  /** The totals after registering a whole trace. */
  function RegisterAll(firstSeq: int, segs: seq<DataSeg>): Totals {
    if segs == [] then NoTotals(firstSeq)
    else Register(RegisterAll(firstSeq, segs[..|segs| - 1]), segs[|segs| - 1]).0
  }

  function Payload(segs: seq<DataSeg>): int {
    if segs == [] then 0 else Payload(segs[..|segs| - 1]) + segs[|segs| - 1].payloadSize
  }

  /** On every trace whatsoever, gaps included, all payload is accounted for and the total splits exactly three ways. */
  lemma {:induction false} TotalsBalance(firstSeq: int, segs: seq<DataSeg>)
    requires forall i :: 0 <= i < |segs| ==> Captured(segs[i])
    ensures var t := RegisterAll(firstSeq, segs);
      && MarksOrdered(t)
      && t.totBytesSent == Payload(segs)
      && t.totBytesSent == t.totNewDataSent + t.totRdbBytesSent + t.totRetransBytesSent
      && t.nrPacketsSent == |segs|
  {
    if segs != [] {
      var n := |segs| - 1;
      TotalsBalance(firstSeq, segs[..n]);
      RegisterBalances(RegisterAll(firstSeq, segs[..n]), segs[n]);
    }
  }

  // ---------- how the totals split, told from the trace ----------

  /** The end of the highest data sent so far. */
  function Highest(segs: seq<DataSeg>): int {
    if segs == [] then 0
    else
      var before, g := Highest(segs[..|segs| - 1]), segs[|segs| - 1];
      if g.payloadSize > 0 then Max(before, g.endSeq) else before
  }

  predicate IsRetransmission(g: DataSeg, highest: int) {
    g.payloadSize > 0 && g.endSeq <= highest
  }

  predicate IsBundle(g: DataSeg, highest: int) {
    g.payloadSize > 0 && g.startSeq < highest < g.endSeq
  }

  /** The positions of the retransmissions, of the bundles, and of all data packets of a trace. */
  function Retransmissions(segs: seq<DataSeg>): set<int> {
    set i | 0 <= i < |segs| && IsRetransmission(segs[i], Highest(segs[..i]))
  }

  function Bundles(segs: seq<DataSeg>): set<int> {
    set i | 0 <= i < |segs| && IsBundle(segs[i], Highest(segs[..i]))
  }

  function DataPackets(segs: seq<DataSeg>): set<int> {
    set i | 0 <= i < |segs| && segs[i].payloadSize > 0
  }

  /** The payload of the retransmissions, and the part of the bundles that was sent before. */
  function RetransmittedBytes(segs: seq<DataSeg>): int {
    if segs == [] then 0
    else
      var before, g := segs[..|segs| - 1], segs[|segs| - 1];
      RetransmittedBytes(before) + (if IsRetransmission(g, Highest(before)) then g.payloadSize else 0)
  }

  function BundledBytes(segs: seq<DataSeg>): int {
    if segs == [] then 0
    else
      var before, g := segs[..|segs| - 1], segs[|segs| - 1];
      BundledBytes(before) + (if IsBundle(g, Highest(before)) then Highest(before) - g.startSeq else 0)
  }

  /** One more packet adds its position to a set of positions, or does not. */
  lemma PositionsStep(before: set<int>, after: set<int>, n: nat, new': bool)
    requires forall i: int :: i in after <==> i in before || (i == n && new')
    requires n !in before
    ensures |after| == |before| + (if new' then 1 else 0)
  {
    var expected := if new' then before + {n} else before;
    assert after == expected by {
      forall i
        ensures i in after <==> i in expected
      {
      }
    }
  }

  lemma CountsStep(segs: seq<DataSeg>)
    requires segs != []
    ensures var before, g := segs[..|segs| - 1], segs[|segs| - 1];
      && |Retransmissions(segs)| == |Retransmissions(before)| + (if IsRetransmission(g, Highest(before)) then 1 else 0)
      && |Bundles(segs)| == |Bundles(before)| + (if IsBundle(g, Highest(before)) then 1 else 0)
      && |DataPackets(segs)| == |DataPackets(before)| + (if g.payloadSize > 0 then 1 else 0)
  {
    hide Highest, IsRetransmission, IsBundle;
    var n := |segs| - 1;
    var before, g := segs[..n], segs[n];
    assert forall i :: 0 <= i < n ==> before[..i] == segs[..i];
    PositionsStep(Retransmissions(before), Retransmissions(segs), n, IsRetransmission(g, Highest(before)));
    PositionsStep(Bundles(before), Bundles(segs), n, IsBundle(g, Highest(before)));
    PositionsStep(DataPackets(before), DataPackets(segs), n, g.payloadSize > 0);
  }

  /** On every trace, gaps included, each total is a function of the packets alone: which of them are
      retransmissions and bundles, and how many bytes they carry again. */
  lemma {:induction false} TotalsClassify(firstSeq: int, segs: seq<DataSeg>)
    requires forall i :: 0 <= i < |segs| ==> Captured(segs[i])
    ensures var t := RegisterAll(firstSeq, segs);
      && t.lastLargestEndSeq == Highest(segs)
      && t.totRetransBytesSent == RetransmittedBytes(segs) && t.totRdbBytesSent == BundledBytes(segs)
      && t.nrRetrans == |Retransmissions(segs)| && t.bundleCount == |Bundles(segs)| && t.nrDataPacketsSent == |DataPackets(segs)|
  {
    if segs != [] {
      var n := |segs| - 1;
      TotalsClassify(firstSeq, segs[..n]);
      TotalsBalance(firstSeq, segs[..n]);
      CountsStep(segs);
      hide Retransmissions, Bundles, DataPackets;
      var t := RegisterAll(firstSeq, segs[..n]);
      RegisterBalances(t, segs[n]);
      if segs[n].payloadSize > 0 {
        BundleIsOverlap(t, segs[n]);
      }
    }
  }

  /** Packet `i` is the last one with data, or the last one that reached new data. */
  predicate LastData(segs: seq<DataSeg>, i: nat)
    requires i < |segs|
  {
    segs[i].payloadSize > 0 && forall j :: i < j < |segs| ==> segs[j].payloadSize == 0
  }

  predicate LastNew(segs: seq<DataSeg>, i: nat)
    requires i < |segs|
  {
    segs[i].payloadSize > 0 && Highest(segs[..i]) < segs[i].endSeq && Highest(segs) == segs[i].endSeq
  }

  lemma MarksStep(t: Totals, g: DataSeg)
    ensures var t' := Register(t, g).0;
      && t'.lastLargestStartSeq == (if g.payloadSize > 0 then g.startSeq else t.lastLargestStartSeq)
      && t'.lastLargestSeqAbsolute == (if g.payloadSize > 0 && g.endSeq > t.lastLargestEndSeq
                                       then (g.seqAbsolute + g.payloadSize) % WRAP32 else t.lastLargestSeqAbsolute)
  {
  }

  /** The start mark is that of the last data packet, the absolute mark one past the bytes of the packet that
      last reached new data. */
  lemma {:induction false} MarksFollow(firstSeq: int, segs: seq<DataSeg>, i: nat)
    requires i < |segs| && forall i :: 0 <= i < |segs| ==> Captured(segs[i])
    ensures var t := RegisterAll(firstSeq, segs);
      && (LastData(segs, i) ==> t.lastLargestStartSeq == segs[i].startSeq)
      && (LastNew(segs, i) ==> t.lastLargestSeqAbsolute == (segs[i].seqAbsolute + segs[i].payloadSize) % WRAP32)
    decreases |segs|
  {
    hide Register;
    var n := |segs| - 1;
    var before := segs[..n];
    TotalsClassify(firstSeq, before);
    MarksStep(RegisterAll(firstSeq, before), segs[n]);
    if i < n {
      assert before[i] == segs[i] && before[..i] == segs[..i];
      HighestGrows(before);
      MarksFollow(firstSeq, before, i);
    }
  }

  lemma {:induction false} HighestGrows(segs: seq<DataSeg>)
    ensures forall i :: 0 <= i <= |segs| ==> Highest(segs[..i]) <= Highest(segs)
    ensures forall i :: 0 <= i < |segs| && segs[i].payloadSize > 0 ==> segs[i].endSeq <= Highest(segs)
  {
    if segs == [] {
    } else {
      var n := |segs| - 1;
      HighestGrows(segs[..n]);
      forall i | 0 <= i <= |segs|
        ensures Highest(segs[..i]) <= Highest(segs)
      {
        assert if i <= n then segs[..i] == segs[..n][..i] else segs[..i] == segs;
      }
      assert forall i :: 0 <= i < n ==> segs[..n][i] == segs[i];
    }
  }
}
