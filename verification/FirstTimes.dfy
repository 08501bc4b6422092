/** The first transmission time of every entry, told from the trace. It decides whether acknowledgements
    are timely, and the duration search relies on its order. */
module FirstTimes {
  import opened Common
  import opened OrderedMap
  import opened ByteRanges
  import opened Index
  import opened ByteView
  import opened Insertion
  import opened Accounting
  import opened Registration
  import opened SendRun
  import opened SendTheorems
  import opened Acks
  import opened AckRun
  import opened ReceiveRun
  import opened WholeRun
  import opened RunTheorems
  import opened AnalysisWindow

  ghost function First(r: Range): TimeVal
    requires |r.sentTstampPcap| > 0
  {
    r.sentTstampPcap[0].time
  }

  // ---------- which packet opened an entry ----------

  /** Packet `i` is no pure retransmission: it has no payload, or carries bytes above all earlier ones. */
  predicate Opens(segs: seq<DataSeg>, i: nat)
    requires i < |segs|
  {
    segs[i].payloadSize == 0 || segs[i].endSeq > FrontOf(segs[..i]).top
  }

  /** Where what it adds begins. */
  function OpensAt(segs: seq<DataSeg>, i: nat): int
    requires i < |segs|
  {
    if segs[i].payloadSize == 0 then segs[i].startSeq else Max(segs[i].startSeq, FrontOf(segs[..i]).top)
  }

  ghost predicate OpenedBy(segs: seq<DataSeg>, i: nat, k: int, r: Range)
    requires i < |segs|
  {
    Opens(segs, i) && OpensAt(segs, i) <= k && |r.sentTstampPcap| > 0 && First(r) == segs[i].tstampPcap
  }

  /** Every entry was first sent by one of the first `n` packets that added something at or below its start. */
  ghost predicate Opened(segs: seq<DataSeg>, n: nat, m: Ranges)
    requires n <= |segs|
  {
    forall k :: k in m ==> exists i :: 0 <= i < n && OpenedBy(segs, i, k, m[k])
  }

  lemma OpenedCut(segs: seq<DataSeg>, n: nat)
    requires n <= |segs|
    ensures KeptByCutting(m => Opened(segs, n, m))
  {
    hide Opens, OpensAt;
    var i := (m: Ranges) => Opened(segs, n, m);
    forall m: Ranges, k: int, r: Range | i(m) && k in m && SameFirst(m[k], r)
      ensures i(m[k := r])
    {
      var j :| 0 <= j < n && OpenedBy(segs, j, k, m[k]);
      assert OpenedBy(segs, j, k, r);
    }
    forall m: Ranges, k: int, at: int | i(m) && Keyed(m) && Disjoint(m) && k in m && k < at < m[k].endSeq
      ensures i(SplitAt(m, k, at))
    {
      var j :| 0 <= j < n && OpenedBy(segs, j, k, m[k]);
      assert OpenedBy(segs, j, k, m[k].Left(at)) && OpenedBy(segs, j, at, m[k].Right(at));
    }
  }

  lemma OpenedMore(segs: seq<DataSeg>, n: nat, m: Ranges)
    requires n < |segs| && Opened(segs, n, m)
    ensures Opened(segs, n + 1, m)
  {
    forall k | k in m
      ensures exists i :: 0 <= i < n + 1 && OpenedBy(segs, i, k, m[k])
    {
      var i :| 0 <= i < n && OpenedBy(segs, i, k, m[k]);
    }
  }

  lemma TailOpened(segs: seq<DataSeg>, n: nat, m: Ranges, c: Call, base: int)
    requires n < |segs| && Opened(segs, n + 1, m) && c.seg.tstampPcap == segs[n].tstampPcap
    requires Ready(m, c, base, segs[n].endSeq, base) && segs[n].endSeq > base
    requires Opens(segs, n) && OpensAt(segs, n) <= base
    ensures Opened(segs, n + 1, m[base := NewTail(m, c, base, segs[n].endSeq)])
  {
    hide Opens, OpensAt;
    var r := NewTail(m, c, base, segs[n].endSeq);
    if base in m {
      var i :| 0 <= i < n + 1 && OpenedBy(segs, i, base, m[base]);
      assert OpenedBy(segs, i, base, r);
    } else {
      assert OpenedBy(segs, n, base, r);
    }
  }

  lemma DataOpened(st: SendState, firstSeq: int, segs: seq<DataSeg>, n: nat)
    requires n < |segs| && SendInv(st, FrontOf(segs[..n])) && Opened(segs, n, st.ranges)
    requires GapFreeStep(FrontOf(segs[..n]), segs[n]) && segs[n].payloadSize > 0
    ensures var r := SendOne(st, firstSeq, segs[n]); r.Running? ==> Opened(segs, n + 1, r.state.ranges)
  {
    var f, g := FrontOf(segs[..n]), segs[n];
    hide Insert, NewTail, KeptByCutting, Opened, SendInv, Ready;
    OpenedMore(segs, n, st.ranges);
    OpenedCut(segs, n + 1);
    DataIsReady(st, f, firstSeq, g);
    var m, c, base := st.ranges, CallFor(st, firstSeq, g), f.Base();
    if g.endSeq > base {
      assert f.top <= base && g.startSeq <= base by { TailPlace(st, f, g); }
      forall m': Ranges | Ready(m', c, base, g.endSeq, base) && Opened(segs, n + 1, m')
        ensures Opened(segs, n + 1, m'[base := NewTail(m', c, base, g.endSeq)])
      {
        TailOpened(segs, n, m', c, base);
      }
    }
    InsertKeepsMap(m, c, g.startSeq, g.endSeq, 0, base, m' => Opened(segs, n + 1, m'));
  }

  lemma TailPlace(st: SendState, f: Front, g: DataSeg)
    requires SendInv(st, f) && GapFreeStep(f, g) && g.payloadSize > 0 && g.endSeq > f.Base()
    ensures f.top <= f.Base() && g.startSeq <= f.Base()
  {
  }

  lemma ControlOpened(m: Ranges, c: Call, segs: seq<DataSeg>, n: nat)
    requires n < |segs| && Opened(segs, n, m) && c.itype == InsertSent
    requires segs[n].payloadSize == 0 && c.seg.tstampPcap == segs[n].tstampPcap
    ensures Opened(segs, n + 1, InsertEmpty(m, c, segs[n].startSeq))
  {
    var s := segs[n].startSeq;
    OpenedMore(segs, n, m);
    var k := ControlKey(m, c.seg, s);
    var r := InsertEmpty(m, c, s)[k];
    if k in m {
      var i :| 0 <= i < n && OpenedBy(segs, i, k, m[k]);
      assert OpenedBy(segs, i, k, r);
    } else {
      assert OpenedBy(segs, n, k, r);
    }
  }

  lemma StepOpened(st: SendState, firstSeq: int, segs: seq<DataSeg>, n: nat)
    requires n < |segs| && SendInv(st, FrontOf(segs[..n])) && Opened(segs, n, st.ranges)
    requires GapFreeStep(FrontOf(segs[..n]), segs[n])
    ensures var r := SendOne(st, firstSeq, segs[n]); r.Running? ==> Opened(segs, n + 1, r.state.ranges)
  {
    hide Opened, Insert, InsertEmpty;
    if segs[n].payloadSize > 0 {
      DataOpened(st, firstSeq, segs, n);
    } else {
      ControlOpened(st.ranges, CallFor(st, firstSeq, segs[n]), segs, n);
    }
  }

  lemma {:induction false} SendsOpened(firstSeq: int, segs: seq<DataSeg>, n: nat)
    requires GapFree(segs) && Packets(segs) && n <= |segs|
    ensures var r := SendAll(firstSeq, segs[..n]); r.Running? ==> Opened(segs, n, r.state.ranges)
  {
    hide SendInv, GapFreeStep, FrontOf, Opened, SendAll, SendOne, GapFree;
    if n == 0 {
      SendsFromStart(firstSeq);
      NothingOpened(segs);
    } else {
      SendsOpened(firstSeq, segs, n - 1);
      GapFreePrefix(segs, n - 1);
      SendRefinesCounter(firstSeq, segs[..n - 1]);
      var r := SendAll(firstSeq, segs[..n - 1]);
      if r.Running? {
        SendsStep(firstSeq, segs, n - 1);
        StepOpened(r.state, firstSeq, segs, n - 1);
      } else {
        SendsStopped(firstSeq, segs, n - 1);
      }
    }
  }

  lemma NothingOpened(segs: seq<DataSeg>)
    ensures Opened(segs, 0, map[])
  {
  }

  /** Told from the packets alone: no acknowledgement is older than a packet that added something below it.
      Retransmissions do not matter. */
  ghost predicate Punctual(t: Trace) {
    forall j, i :: 0 <= j < |t.acks| && 0 <= i < |t.sent| && Opens(t.sent, i) && OpensAt(t.sent, i) < t.acks[j].ack ==>
      !t.acks[j].tstampPcap.Before(t.sent[i].tstampPcap)
  }

  lemma PunctualIsTimely(t: Trace)
    requires WellFormed(t) && Punctual(t)
    ensures Timely(t)
  {
    hide SendAll, GapFree, FrontOf, ReceivedRun, Ordered, Opens, OpensAt;
    var n := |t.sent|;
    assert t.sent[..n] == t.sent;
    SendsOpened(t.firstSeq, t.sent, n);
    var r := SendAll(t.firstSeq, t.sent);
    if r.Running? {
      var m := r.state.ranges;
      forall j, k | 0 <= j < |t.acks| && k in m && k < t.acks[j].ack && |m[k].sentTstampPcap| > 0
        ensures !t.acks[j].tstampPcap.Before(m[k].sentTstampPcap[0].time)
      {
        var i :| 0 <= i < n && OpenedBy(t.sent, i, k, m[k]);
      }
    }
  }

  // ---------- in time order ----------

  /** First transmission times do not decrease from entry to entry, and none is later than `t`. */
  ghost predicate Rising(m: Ranges, t: TimeVal) {
    && SentOnce(m)
    && (forall j, k :: j in m && k in m && j < k ==> !First(m[k]).Before(First(m[j])))
    && (forall k :: k in m ==> !t.Before(First(m[k])))
  }

  lemma RisingCut(t: TimeVal)
    ensures KeptByCutting(m => Rising(m, t))
  {
    var i := (m: Ranges) => Rising(m, t);
    forall m: Ranges, k: int, at: int | i(m) && Keyed(m) && Disjoint(m) && k in m && k < at < m[k].endSeq
      ensures i(SplitAt(m, k, at))
    {
      RisingSplit(m, k, at, t);
    }
  }

  lemma RisingSplit(m: Ranges, k: int, at: int, t: TimeVal)
    requires Rising(m, t) && Keyed(m) && Disjoint(m) && k in m && k < at < m[k].endSeq
    ensures Rising(SplitAt(m, k, at), t)
  {
    SplitDisjoint(m, k, at);
    SplitFirst(m, k, at);
    LaterBeyond(m, k);
    RisingPieces(m, SplitAt(m, k, at), k, at, t);
  }

  /** A new entry `at` behind `k`, with the same first transmission. */
  lemma RisingPieces(m: Ranges, m': Ranges, k: int, at: int, t: TimeVal)
    requires Rising(m, t) && k in m && k < at && forall j :: j in m && k < j ==> at < j
    requires m'.Keys == m.Keys + {at} && SentOnce(m')
    requires forall j :: j in m' ==> First(m'[j]) == First(m[if j == at then k else j])
    ensures Rising(m', t)
  {
    assert !First(m[k]).Before(First(m[k]));
    hide TimeVal.Before, First;
    forall i, j | i in m' && j in m' && i < j
      ensures !First(m'[j]).Before(First(m'[i]))
    {
      var i', j' := if i == at then k else i, if j == at then k else j;
      assert i' <= j';
    }
  }

  lemma SplitFirst(m: Ranges, k: int, at: int)
    requires SentOnce(m) && k in m && at !in m && m[k].startSeq <= at <= m[k].endSeq
    ensures var m' := SplitAt(m, k, at);
      && m'.Keys == m.Keys + {at} && SentOnce(m')
      && forall j :: j in m' ==> First(m'[j]) == First(m[if j == at then k else j])
  {
  }

  lemma RisingLater(m: Ranges, t: TimeVal, t': TimeVal)
    requires Rising(m, t) && !t'.Before(t)
    ensures Rising(m, t')
  {
  }

  /** An entry of the time `t` behind all others. */
  lemma RisingEnd(m: Ranges, k: int, r: Range, t: TimeVal)
    requires Rising(m, t) && |r.sentTstampPcap| > 0 && First(r) == t && k !in m && forall j :: j in m ==> j <= k
    ensures Rising(m[k := r], t)
  {
  }

  lemma RisingTouch(m: Ranges, k: int, r: Range, t: TimeVal)
    requires Rising(m, t) && k in m && |r.sentTstampPcap| > 0 && First(r) == First(m[k])
    ensures Rising(m[k := r], t)
  {
  }

  lemma TailRising(m: Ranges, c: Call, base: int, e: int)
    requires Rising(m, c.seg.tstampPcap) && Ready(m, c, base, e, base) && e > base
    ensures Rising(m[base := NewTail(m, c, base, e)], c.seg.tstampPcap)
  {
    var r := NewTail(m, c, base, e);
    assert |r.sentTstampPcap| > 0 && First(r) == if base in m then First(m[base]) else c.seg.tstampPcap;
    assert forall j :: j in m ==> j <= base;
    hide Ready, NewTail, Rising;
    if base in m {
      RisingTouch(m, base, r, c.seg.tstampPcap);
    } else {
      RisingEnd(m, base, r, c.seg.tstampPcap);
    }
  }

  /** The packets were captured in time order. */
  ghost predicate TimeOrdered(segs: seq<DataSeg>) {
    && (forall i :: 0 <= i < |segs| ==> segs[i].tstampPcap.Normalised())
    && (forall i, j :: 0 <= i < j < |segs| ==> !segs[j].tstampPcap.Before(segs[i].tstampPcap))
  }

  lemma DataRising(st: SendState, f: Front, firstSeq: int, g: DataSeg)
    requires SendInv(st, f) && Rising(st.ranges, g.tstampPcap) && GapFreeStep(f, g) && g.payloadSize > 0
    ensures var r := SendOne(st, firstSeq, g); r.Running? ==> Rising(r.state.ranges, g.tstampPcap)
  {
    hide Insert, NewTail, KeptByCutting, Rising;
    RisingCut(g.tstampPcap);
    DataIsReady(st, f, firstSeq, g);
    var m, c, base := st.ranges, CallFor(st, firstSeq, g), f.Base();
    if g.endSeq > base {
      forall m': Ranges | Ready(m', c, base, g.endSeq, base) && Rising(m', g.tstampPcap)
        ensures Rising(m'[base := NewTail(m', c, base, g.endSeq)], g.tstampPcap)
      {
        TailRising(m', c, base, g.endSeq);
      }
    }
    InsertKeepsMap(m, c, g.startSeq, g.endSeq, 0, base, m' => Rising(m', g.tstampPcap));
  }

  lemma ControlRising(m: Ranges, f: Front, c: Call, g: DataSeg)
    requires Shape(m, f) && Rising(m, g.tstampPcap) && GapFreeStep(f, g) && g.payloadSize == 0
    requires c.itype == InsertSent && c.seg == g
    ensures Rising(InsertEmpty(m, c, g.startSeq), g.tstampPcap)
  {
    ControlLandsOnEmpty(m, f, g);
    var k := ControlKey(m, g, g.startSeq);
    var r := InsertEmpty(m, c, g.startSeq)[k];
    assert k in m ==> |m[k].sentTstampPcap| > 0;
    assert |r.sentTstampPcap| > 0 && First(r) == if k in m then First(m[k]) else g.tstampPcap;
    hide Rising, Shape, GapFreeStep;
    if k in m {
      RisingTouch(m, k, r, g.tstampPcap);
    } else {
      RisingEnd(m, k, r, g.tstampPcap);
    }
  }

  lemma StepRising(st: SendState, f: Front, firstSeq: int, g: DataSeg)
    requires SendInv(st, f) && Rising(st.ranges, g.tstampPcap) && GapFreeStep(f, g)
    ensures var r := SendOne(st, firstSeq, g); r.Running? ==> Rising(r.state.ranges, g.tstampPcap)
  {
    hide Rising, Insert, InsertEmpty, Shape;
    if g.payloadSize > 0 {
      DataRising(st, f, firstSeq, g);
    } else {
      ControlRising(st.ranges, f, CallFor(st, firstSeq, g), g);
    }
  }

  /** A gap-free run captured in time order gives entries whose first transmission times do not decrease. */
  lemma {:induction false} SendsRising(firstSeq: int, segs: seq<DataSeg>, n: nat, t: TimeVal)
    requires GapFree(segs) && Packets(segs) && TimeOrdered(segs) && n <= |segs|
    requires n > 0 ==> !t.Before(segs[n - 1].tstampPcap)
    ensures var r := SendAll(firstSeq, segs[..n]); r.Running? ==> Rising(r.state.ranges, t)
  {
    hide SendInv, GapFreeStep, FrontOf, Rising, SendAll, SendOne, GapFree;
    if n == 0 {
      SendsFromStart(firstSeq);
      assert Rising(map[], t) by { RisingEmpty(t); }
    } else {
      var now := segs[n - 1].tstampPcap;
      SendsRising(firstSeq, segs, n - 1, now);
      GapFreePrefix(segs, n - 1);
      SendRefinesCounter(firstSeq, segs[..n - 1]);
      var r := SendAll(firstSeq, segs[..n - 1]);
      if r.Running? {
        SendsStep(firstSeq, segs, n - 1);
        StepRising(r.state, FrontOf(segs[..n - 1]), firstSeq, segs[n - 1]);
        var r' := SendAll(firstSeq, segs[..n]);
        if r'.Running? {
          RisingLater(r'.state.ranges, now, t);
        }
      } else {
        SendsStopped(firstSeq, segs, n - 1);
      }
    }
  }

  lemma RisingEmpty(t: TimeVal)
    ensures Rising(map[], t)
  {
  }

  /** The first transmission times in map order, which the analysis window is chosen from. */
  ghost function FirstTimesOf(m: Ranges): seq<TimeVal>
    requires SentOnce(m)
    decreases |m|
  {
    if m == map[] then [] else
      var k := FirstKey(m).value;
      [First(m[k])] + FirstTimesOf(m - {k})
  }

  lemma {:induction false} TimesInOrder(m: Ranges, t: TimeVal)
    requires Rising(m, t) && forall k :: k in m ==> First(m[k]).Normalised()
    ensures |FirstTimesOf(m)| == |m| && Chronological(FirstTimesOf(m))
    ensures forall x :: x in FirstTimesOf(m) ==> exists k :: k in m && x == First(m[k])
    decreases |m|
  {
    if m != map[] {
      var k := FirstKey(m).value;
      var rest := m - {k};
      assert FirstTimesOf(m) == [First(m[k])] + FirstTimesOf(rest);
      assert |rest.Keys| == |m.Keys| - 1 by { assert rest.Keys == m.Keys - {k}; }
      RestRising(m, k, t);
      hide FirstTimesOf, Rising, Chronological, FirstKey;
      TimesInOrder(rest, t);
      forall x | x in FirstTimesOf(rest)
        ensures !x.Before(First(m[k])) && exists j :: j in m && x == First(m[j])
      {
        var j :| j in rest && x == First(rest[j]);
        assert j in m && m[j] == rest[j];
      }
      ConsChronological(First(m[k]), FirstTimesOf(rest));
    }
  }

  lemma RestRising(m: Ranges, k: int, t: TimeVal)
    requires Rising(m, t) && Some(k) == FirstKey(m)
    ensures Rising(m - {k}, t) && forall j :: j in m && j != k ==> !First(m[j]).Before(First(m[k]))
    ensures SentOnce(m) && SentOnce(m - {k})
  {
  }

  lemma ConsChronological(x: TimeVal, s: seq<TimeVal>)
    requires Chronological(s) && x.Normalised() && forall y :: y in s ==> !y.Before(x)
    ensures Chronological([x] + s)
  {
    var s' := [x] + s;
    forall i, j | 0 <= i < j < |s'|
      ensures !s'[j].Before(s'[i])
    {
      assert s'[j] == s[j - 1] && s[j - 1] in s;
    }
  }

  lemma OpenedNormalised(segs: seq<DataSeg>, n: nat, m: Ranges)
    requires TimeOrdered(segs) && n <= |segs| && Opened(segs, n, m)
    ensures SentOnce(m) && forall k :: k in m ==> First(m[k]).Normalised()
  {
    forall k | k in m
      ensures |m[k].sentTstampPcap| > 0 && First(m[k]).Normalised()
    {
      var i :| 0 <= i < n && OpenedBy(segs, i, k, m[k]);
    }
  }

  /** At the end of every run that was captured in time order, the duration search of
      `setAnalyseRangeInterval` gets what it relies on: first transmission times that do not decrease. */
  lemma RunChronological(t: Trace)
    requires WellFormed(t) && TimeOrdered(t.sent)
    ensures var r := RunAll(t); r.Running? ==>
      SentOnce(r.state.ranges) && |FirstTimesOf(r.state.ranges)| == |r.state.ranges| && Chronological(FirstTimesOf(r.state.ranges))
  {
    hide *;
    RunCompletes(t);
    var r := RunAll(t);
    if r.Running? {
      EndsRising(t, r.state);
    }
  }

  lemma EndsRising(t: Trace, f: Final)
    requires WellFormed(t) && TimeOrdered(t.sent) && Ends(t, f.sent, f.acked, f.ranges)
    ensures SentOnce(f.ranges) && |FirstTimesOf(f.ranges)| == |f.ranges| && Chronological(FirstTimesOf(f.ranges))
  {
    hide Rising, Opened, GapFree, FrontOf, SendAll, AckAll, ReceiveAll, ReceivedRun, Ordered, KeptByCutting, KeptByMarking,
      TimeOrdered, ReceiveState, FirstTimesOf, Chronological, SentOnce;
    var n := |t.sent|;
    var now := t.sent[n - 1].tstampPcap;
    assert t.sent[..n] == t.sent;
    SendsOpened(t.firstSeq, t.sent, n);
    assert !now.Before(now);
    SendsRising(t.firstSeq, t.sent, n, now);
    var i := (m: Ranges) => Rising(m, now) && Opened(t.sent, n, m);
    BothCut(t.sent, n, now);
    CuttingIsMarking(i);
    AcksKeep(f.sent.ranges, t.acks, i);
    AckedFacts(t, f.sent, f.acked);
    ReceptionsKeepMap(f.acked, FrontOf(t.sent), t.firstSeq, t.received, i);
    OpenedNormalised(t.sent, n, f.ranges);
    TimesInOrder(f.ranges, now);
  }

  lemma BothCut(segs: seq<DataSeg>, n: nat, t: TimeVal)
    requires n <= |segs|
    ensures KeptByCutting(m => Rising(m, t) && Opened(segs, n, m))
  {
    hide Rising, Opened, SameFirst, SplitAt;
    RisingCut(t);
    OpenedCut(segs, n);
    var i, j := (m: Ranges) => Rising(m, t), (m: Ranges) => Opened(segs, n, m);
    assert KeptByCutting(i) && KeptByCutting(j);
    forall m: Ranges, k: int, r: Range | Rising(m, t) && Opened(segs, n, m) && k in m && SameFirst(m[k], r)
      ensures Rising(m[k := r], t) && Opened(segs, n, m[k := r])
    {
      assert i(m) && j(m);
      assert i(m[k := r]) && j(m[k := r]);
    }
    forall m: Ranges, k: int, at: int
      | Rising(m, t) && Opened(segs, n, m) && Keyed(m) && Disjoint(m) && k in m && k < at < m[k].endSeq
      ensures Rising(SplitAt(m, k, at), t) && Opened(segs, n, SplitAt(m, k, at))
    {
      assert i(m) && j(m);
      assert i(SplitAt(m, k, at)) && j(SplitAt(m, k, at));
    }
  }
}
