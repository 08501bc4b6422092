/** The receive phase, and what the three phases of a run add up to. */
module ReceiveRun {
  import opened Common
  import opened OrderedMap
  import opened ByteRanges
  import opened Index
  import opened ByteView
  import opened Insertion
  import opened Accounting
  import opened Entries
  import opened Recursion
  import opened Registration
  import opened SendRun
  import opened SendTheorems
  import opened Acks
  import opened AckRun

  /** The copy of the segment that `insertReceivedRange` hands on: the mark `registerRecvd` made for a
      segment in sequence is not among the fields it copies. */
  function Forwarded(g: DataSeg): DataSeg {
    g.(rdbEndSeq := 0, seqAbsolute := 0, inSequence := false, tstampTcpEcho := 0)
  }

  function RecvCall(lastSeq: int, firstSeq: int, g: DataSeg): Call {
    Call(InsertRecv, lastSeq, firstSeq, Forwarded(g))
  }

  /** `insertReceivedRange`. */
  function ReceiveOne(m: Ranges, lastSeq: int, firstSeq: int, g: DataSeg): Run<Ranges>
    requires Keyed(m) && 0 <= g.startSeq <= g.endSeq < g.startSeq + MAX_RANGE_SIZE
  {
    if g.startSeq == g.endSeq then
      Running(InsertEmpty(m, RecvCall(lastSeq, firstSeq, g), g.startSeq))
    else match Insert(m, RecvCall(lastSeq, firstSeq, g), g.startSeq, g.endSeq, 0)
    case Ok(m') => Running(m')
    case Thrown => GuardTripped
    case Abort => Died
  }

  lemma ReceiveOneKeyed(m: Ranges, lastSeq: int, firstSeq: int, g: DataSeg)
    requires Keyed(m) && 0 <= g.startSeq <= g.endSeq < g.startSeq + MAX_RANGE_SIZE
    ensures var r := ReceiveOne(m, lastSeq, firstSeq, g); r.Running? ==> Keyed(r.state)
  {
    hide Insert, InsertEmpty;
    var c := RecvCall(lastSeq, firstSeq, g);
    if g.startSeq == g.endSeq {
      InsertEmptyKeyed(m, c, g.startSeq);
    } else {
      InsertKeyed(m, c, g.startSeq, g.endSeq, 0);
    }
  }

  /** A received segment of bytes that were sent. */
  predicate ReceivedStep(f: Front, firstSeq: int, g: DataSeg) {
    && f.Lo() <= g.startSeq < g.endSeq <= f.top
    && g.endSeq == g.startSeq + g.payloadSize && g.payloadSize < MAX_RANGE_SIZE
  }

  ghost function ReceiveAll(m: Ranges, lastSeq: int, firstSeq: int, segs: seq<DataSeg>): (r: Run<Ranges>)
    requires Keyed(m)
    requires forall i :: 0 <= i < |segs| ==> 0 <= segs[i].startSeq <= segs[i].endSeq < segs[i].startSeq + MAX_RANGE_SIZE
    ensures r.Running? ==> Keyed(r.state)
  {
    if segs == [] then Running(m)
    else
      match ReceiveAll(m, lastSeq, firstSeq, segs[..|segs| - 1])
      case Running(m') =>
        var g := segs[|segs| - 1];
        ReceiveOneKeyed(m', lastSeq, firstSeq, g);
        ReceiveOne(m', lastSeq, firstSeq, g)
      case GuardTripped => GuardTripped
      case Died => Died
  }

  // ---------- one reception ----------

  ghost predicate ReceiveState(m: Ranges, f: Front) {
    Shape(m, f) && m != map[]
  }

  lemma ReceiveKeyed(m: Ranges, f: Front)
    requires ReceiveState(m, f)
    ensures Keyed(m)
  {
  }

  lemma ReceptionReady(m: Ranges, f: Front, firstSeq: int, g: DataSeg)
    requires ReceiveState(m, f) && ReceivedStep(f, firstSeq, g)
    ensures Ready(m, RecvCall(f.last, firstSeq, g), g.startSeq, g.endSeq, g.endSeq)
  {
  }

  /** Reception `g` makes an assertion of the code fail. */
  ghost predicate ReceptionFails(m: Ranges, f: Front, firstSeq: int, g: DataSeg) {
    Fails(m, RecvCall(f.last, firstSeq, g), g.startSeq, g.endSeq, 0)
  }

  /** A reception counts once on each of the segment's bytes, whatever was received before and in
      whatever order; coverage and all other facts about bytes stay. It dies if and only if it reaches
      an entry that makes an assertion fail. */
  lemma ReceiveRefines(m: Ranges, f: Front, firstSeq: int, g: DataSeg)
    requires ReceiveState(m, f) && ReceivedStep(f, firstSeq, g)
    ensures var r := ReceiveOne(m, f.last, firstSeq, g);
      && (r.Died? <==> ReceptionFails(m, f, firstSeq, g))
      && (r.Running? ==> ReceiveState(r.state, f) && CountedOn(m, r.state, RecvCall(f.last, firstSeq, g), g.startSeq, g.endSeq))
  {
    hide Insert, Range.Info, CountByte, Shape, Ready, Fails;
    ReceptionReady(m, f, firstSeq, g);
    var c := RecvCall(f.last, firstSeq, g);
    InsertSegment(m, c, g.startSeq, g.endSeq, 0, g.endSeq);
    EndsExactly(m, c, g.startSeq, g.endSeq, 0, g.endSeq);
    var r := Insert(m, c, g.startSeq, g.endSeq, 0);
    if r.Ok? {
      ReceivedShape(m, r.ranges, f, c, g);
    }
  }

  lemma ReceivedShape(m: Ranges, m': Ranges, f: Front, c: Call, g: DataSeg)
    requires Shape(m, f) && m != map[] && f.Lo() <= g.startSeq < g.endSeq <= f.top
    requires Refines(m, m', c, g.startSeq, g.endSeq) && EmptiesKept(m, m', g.endSeq, g.endSeq)
    ensures Shape(m', f) && m' != map[]
  {
    hide Range.Info, CountByte;
    assert 0 in m';
    forall b
      ensures At(m', b).Some? <==> At(m, b).Some?
    {
      assert At(m', b) == if g.startSeq <= b < g.endSeq then CountAt(c, At(m, b)) else At(m, b);
      assert Covered(m, b) <==> f.Lo() <= b < f.top;
    }
    FinerShape(m, m', f);
  }

  lemma ReceptionTotals(m: Ranges, f: Front, firstSeq: int, g: DataSeg)
    requires ReceiveState(m, f) && ReceivedStep(f, firstSeq, g)
    ensures var r := ReceiveOne(m, f.last, firstSeq, g); r.Running? ==>
      && Total(r.state, ReceivedBytes) == Total(m, ReceivedBytes) + g.payloadSize
      && Total(r.state, SentBytes) == Total(m, SentBytes)
      && Total(r.state, UniqueBytes) == Total(m, UniqueBytes)
      && Total(r.state, PacketsSent) == Total(m, PacketsSent)
      && Total(r.state, PacketsReceived) == Total(m, PacketsReceived) + 1
  {
    hide Insert, Gains, Additive, Total, Ready, Range.Info;
    ReceptionReady(m, f, firstSeq, g);
    var c, s, e := RecvCall(f.last, firstSeq, g), g.startSeq, g.endSeq;
    QuantitiesAdditive();
    UniqueGains(c);
    SentGains(c);
    ReceivedGains(c);
    PacketGains(c);
    InsertTotal(m, c, s, e, 0, e, ReceivedBytes, 1, 0);
    InsertTotal(m, c, s, e, 0, e, SentBytes, 0, 0);
    InsertTotal(m, c, s, e, 0, e, UniqueBytes, 0, 0);
    InsertTotal(m, c, s, e, 0, e, PacketsSent, 0, 0);
    InsertTotal(m, c, s, e, 0, e, PacketsReceived, 0, 1);
  }

  lemma ReceptionEntries(m: Ranges, f: Front, firstSeq: int, g: DataSeg, p: Range -> bool)
    requires ReceiveState(m, f) && ReceivedStep(f, firstSeq, g)
    requires AllEntries(m, p) && KeptBySplit(p) && KeptByCount(p, RecvCall(f.last, firstSeq, g))
    ensures var r := ReceiveOne(m, f.last, firstSeq, g); r.Running? ==> AllEntries(r.state, p)
  {
    hide Insert, KeptBySplit, KeptByCount, AllEntries, Ready;
    ReceptionReady(m, f, firstSeq, g);
    InsertKeeps(m, RecvCall(f.last, firstSeq, g), g.startSeq, g.endSeq, 0, g.endSeq, p);
  }

  // ---------- the whole phase ----------

  function WithReceptions(i: Option<ByteInfo>, n: nat): Option<ByteInfo> {
    if i.Some? then Some(i.value.(received := i.value.received + n)) else None
  }

  ghost predicate ReceivedRun(f: Front, firstSeq: int, segs: seq<DataSeg>) {
    forall i :: 0 <= i < |segs| ==> ReceivedStep(f, firstSeq, segs[i])
  }

  /** After any run of receptions inside the sent bytes: every byte was counted as received exactly as
      often as a received segment carried it, and the sums follow. */
  lemma {:induction false} ReceptionsCounted(m: Ranges, f: Front, firstSeq: int, segs: seq<DataSeg>)
    requires ReceiveState(m, f) && ReceivedRun(f, firstSeq, segs)
    ensures var r := ReceiveAll(m, f.last, firstSeq, segs); r.Running? ==>
      && ReceiveState(r.state, f)
      && (forall b :: At(r.state, b) == WithReceptions(At(m, b), TimesSent(segs, b)))
      && Total(r.state, ReceivedBytes) == Total(m, ReceivedBytes) + Payload(segs)
      && Total(r.state, SentBytes) == Total(m, SentBytes)
      && Total(r.state, UniqueBytes) == Total(m, UniqueBytes)
      && Total(r.state, PacketsSent) == Total(m, PacketsSent)
      && Total(r.state, PacketsReceived) == Total(m, PacketsReceived) + |segs|
  {
    hide ReceiveOne, ReceiveState, Total, At, Range.Info;
    if segs != [] {
      var n := |segs| - 1;
      var g := segs[n];
      ReceiveKeyed(m, f);
      ReceptionsCounted(m, f, firstSeq, segs[..n]);
      var r := ReceiveAll(m, f.last, firstSeq, segs[..n]);
      if r.Running? {
        ReceiveRefines(r.state, f, firstSeq, g);
        ReceptionTotals(r.state, f, firstSeq, g);
        var r' := ReceiveOne(r.state, f.last, firstSeq, g);
        if r'.Running? {
          ReceptionAt(m, r.state, r'.state, f, firstSeq, segs);
        }
      }
    }
  }

  lemma ReceptionAt(m: Ranges, m1: Ranges, m2: Ranges, f: Front, firstSeq: int, segs: seq<DataSeg>)
    requires segs != [] && ReceiveState(m, f) && ReceivedStep(f, firstSeq, segs[|segs| - 1])
    requires forall b :: At(m1, b) == WithReceptions(At(m, b), TimesSent(segs[..|segs| - 1], b))
    requires CountedOn(m1, m2, RecvCall(f.last, firstSeq, segs[|segs| - 1]), segs[|segs| - 1].startSeq, segs[|segs| - 1].endSeq)
    ensures forall b :: At(m2, b) == WithReceptions(At(m, b), TimesSent(segs, b))
  {
    var g := segs[|segs| - 1];
    forall b
      ensures At(m2, b) == WithReceptions(At(m, b), TimesSent(segs, b))
    {
      assert At(m2, b) == if g.startSeq <= b < g.endSeq then CountAt(RecvCall(f.last, firstSeq, g), At(m1, b)) else At(m1, b);
      assert Covered(m, b) <==> f.Lo() <= b < f.top;
    }
  }

  lemma {:induction false} ReceptionsKeep(m: Ranges, f: Front, firstSeq: int, segs: seq<DataSeg>, p: Range -> bool)
    requires ReceiveState(m, f) && ReceivedRun(f, firstSeq, segs) && AllEntries(m, p) && KeptBySplit(p)
    requires forall i :: 0 <= i < |segs| ==> KeptByCount(p, RecvCall(f.last, firstSeq, segs[i]))
    ensures var r := ReceiveAll(m, f.last, firstSeq, segs); r.Running? ==> AllEntries(r.state, p)
  {
    hide ReceiveOne, ReceiveState, AllEntries, KeptBySplit, KeptByCount;
    if segs != [] {
      var n := |segs| - 1;
      ReceiveKeyed(m, f);
      ReceptionsCounted(m, f, firstSeq, segs[..n]);
      assert forall i :: 0 <= i < n ==> segs[..n][i] == segs[i];
      ReceptionsKeep(m, f, firstSeq, segs[..n], p);
      var r := ReceiveAll(m, f.last, firstSeq, segs[..n]);
      if r.Running? {
        ReceptionEntries(r.state, f, firstSeq, segs[n], p);
      }
    }
  }

  /** The same for a property of the whole map. */
  lemma {:induction false} ReceptionsKeepMap(m: Ranges, f: Front, firstSeq: int, segs: seq<DataSeg>, i: Ranges -> bool)
    requires ReceiveState(m, f) && ReceivedRun(f, firstSeq, segs) && i(m) && KeptByCutting(i)
    ensures var r := ReceiveAll(m, f.last, firstSeq, segs); r.Running? ==> i(r.state)
  {
    hide ReceiveOne, ReceiveState, KeptByCutting;
    if segs != [] {
      var n := |segs| - 1;
      ReceiveKeyed(m, f);
      ReceptionsCounted(m, f, firstSeq, segs[..n]);
      ReceptionsKeepMap(m, f, firstSeq, segs[..n], i);
      var r := ReceiveAll(m, f.last, firstSeq, segs[..n]);
      if r.Running? {
        ReceptionMap(r.state, f, firstSeq, segs[n], i);
      }
    }
  }

  lemma ReceptionMap(m: Ranges, f: Front, firstSeq: int, g: DataSeg, i: Ranges -> bool)
    requires ReceiveState(m, f) && ReceivedStep(f, firstSeq, g) && i(m) && KeptByCutting(i)
    ensures Keyed(m)
    ensures var r := ReceiveOne(m, f.last, firstSeq, g); r.Running? ==> i(r.state)
  {
    hide Insert, KeptByCutting;
    ReceiveKeyed(m, f);
    ReceptionReady(m, f, firstSeq, g);
    InsertKeepsMap(m, RecvCall(f.last, firstSeq, g), g.startSeq, g.endSeq, 0, g.endSeq, i);
  }

  // ---------- when the phase fails ----------

  ghost predicate FailsDuring(m: Ranges, f: Front, firstSeq: int, segs: seq<DataSeg>, i: nat)
    requires ReceiveState(m, f) && ReceivedRun(f, firstSeq, segs) && i < |segs|
  {
    ReceiveKeyed(m, f);
    var r := ReceiveAll(m, f.last, firstSeq, segs[..i]);
    r.Running? && ReceptionFails(r.state, f, firstSeq, segs[i])
  }

  /** The receive phase fails an assertion if and only if one of the receptions does on the map before it. */
  lemma {:induction false} DiesExactly(m: Ranges, f: Front, firstSeq: int, segs: seq<DataSeg>)
    requires ReceiveState(m, f) && ReceivedRun(f, firstSeq, segs)
    ensures Keyed(m)
    ensures ReceiveAll(m, f.last, firstSeq, segs).Died? <==> exists i :: 0 <= i < |segs| && FailsDuring(m, f, firstSeq, segs, i)
  {
    hide ReceiveOne, ReceiveState, ReceptionFails;
    ReceiveKeyed(m, f);
    if segs != [] {
      var n := |segs| - 1;
      DiesExactly(m, f, firstSeq, segs[..n]);
      ReceptionsCounted(m, f, firstSeq, segs[..n]);
      var r := ReceiveAll(m, f.last, firstSeq, segs[..n]);
      forall i | 0 <= i < n
        ensures FailsDuring(m, f, firstSeq, segs, i) <==> FailsDuring(m, f, firstSeq, segs[..n], i)
      {
        assert segs[..n][..i] == segs[..i];
      }
      assert FailsDuring(m, f, firstSeq, segs, n) <==> (r.Running? && ReceptionFails(r.state, f, firstSeq, segs[n]));
      if r.Running? {
        ReceiveRefines(r.state, f, firstSeq, segs[n]);
      }
      if i :| 0 <= i < |segs| && FailsDuring(m, f, firstSeq, segs, i) {
        assert i < n ==> FailsDuring(m, f, firstSeq, segs[..n], i);
      } else {
        assert forall i :: 0 <= i < n ==> !FailsDuring(m, f, firstSeq, segs[..n], i);
      }
    }
  }

  /** A received segment has a TCP time stamp, and its end does not happen to be the first absolute sequence number plus one. */
  predicate Receivable(firstSeq: int, g: DataSeg) {
    g.tstampTcp > 0 && g.endSeq != (firstSeq + 1) % WRAP
  }

  /** What was received carried a time stamp. */
  ghost predicate StampedEntry(r: Range) {
    r.dataReceivedCount > 0 ==> r.receivedTstampTcp > 0
  }

  lemma StampedKept(c: Call)
    requires c.itype == InsertRecv && c.seg.tstampTcp > 0
    ensures KeptBySplit(StampedEntry) && KeptByCount(StampedEntry, c)
  {
  }

  lemma StampedNeverFails(m: Ranges, f: Front, firstSeq: int, g: DataSeg)
    requires AllEntries(m, StampedEntry) && Receivable(firstSeq, g)
    ensures !ReceptionFails(m, f, firstSeq, g)
  {
    var c := RecvCall(f.last, firstSeq, g);
    forall k
      ensures !FailsReached(m, c, g.startSeq, g.endSeq, 0, k)
    {
      if k in m {
        assert StampedEntry(m[k]);
      }
    }
  }

  /** It never fails if every received segment is receivable. */
  lemma {:induction false} ReceptionsSurvive(m: Ranges, f: Front, firstSeq: int, segs: seq<DataSeg>)
    requires ReceiveState(m, f) && ReceivedRun(f, firstSeq, segs) && AllEntries(m, StampedEntry)
    requires forall i :: 0 <= i < |segs| ==> Receivable(firstSeq, segs[i])
    ensures Keyed(m) && !ReceiveAll(m, f.last, firstSeq, segs).Died?
  {
    hide ReceiveState, ReceptionFails, AllEntries;
    ReceiveKeyed(m, f);
    DiesExactly(m, f, firstSeq, segs);
    forall i | 0 <= i < |segs|
      ensures !FailsDuring(m, f, firstSeq, segs, i)
    {
      var r := ReceiveAll(m, f.last, firstSeq, segs[..i]);
      if r.Running? {
        forall j | 0 <= j < i
          ensures KeptByCount(StampedEntry, RecvCall(f.last, firstSeq, segs[..i][j]))
        {
          assert segs[..i][j] == segs[j];
          StampedKept(RecvCall(f.last, firstSeq, segs[j]));
        }
        StampedKept(RecvCall(f.last, firstSeq, segs[i]));
        ReceptionsKeep(m, f, firstSeq, segs[..i], StampedEntry);
        StampedNeverFails(r.state, f, firstSeq, segs[i]);
      }
    }
  }
}
