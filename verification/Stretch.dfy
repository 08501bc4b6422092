/** Runs in which all data stays one entry, told from the trace: the case in which the redundancy check
    of `addConnStats` goes wrong. */
module Stretch {
  import opened Common
  import opened OrderedMap
  import opened ByteRanges
  import opened Index
  import opened ByteView
  import opened Insertion
  import opened Accounting
  import opened Recursion
  import opened Registration
  import opened SendRun
  import opened SendTheorems
  import opened Acks
  import opened AckRun
  import opened ReceiveRun
  import opened Report
  import opened WholeRun

  /** Without SYN, every data packet sent or received is the whole data, and no acknowledgement ends inside. */
  ghost predicate OneStretch(t: Trace) {
    var f := FrontOf(t.sent);
    && !f.syn && f.top > 0
    && (forall i :: 0 <= i < |t.sent| && t.sent[i].payloadSize > 0 ==> t.sent[i].startSeq == 0 && t.sent[i].endSeq == f.top)
    && (forall i :: 0 <= i < |t.acks| ==> t.acks[i].ack <= 0 || f.top <= t.acks[i].ack)
    && (forall i :: 0 <= i < |t.received| ==> t.received[i].startSeq == 0 && t.received[i].endSeq == f.top)
  }

  predicate Outside(x: int, lo: int, top: int) {
    x <= lo || top <= x
  }

  /** No entry starts strictly between `lo` and `top`. */
  ghost predicate Clear(m: Ranges, lo: int, top: int) {
    forall k :: k in m ==> Outside(k, lo, top)
  }

  // ---------- no boundary comes up ----------

  lemma {:induction false} InsertClear(m: Ranges, c: Call, s: int, e: int, level: nat, base: int, lo: int, top: int)
    requires Ready(m, c, s, e, base) && Clear(m, lo, top) && Outside(s, lo, top) && Outside(e, lo, top) && Outside(base, lo, top)
    ensures var r := Insert(m, c, s, e, level); r.Ok? ==> Clear(r.ranges, lo, top)
    decreases e - s
  {
    hide CarvedStep, CountAt, Range.Info, Range.Left, Range.Right, Step, NewTail, Outside;
    if s == base {
      StepNew(m, c, e, level);
    } else {
      var k := ReadyAt(m, c, s, e, base);
      StepOld(m, c, s, e, level, k);
      CarvedStepRefines(m, c, s, e, level, k);
      CarvedStepShape(m, c, s, e, level, k);
      var m' := CarvedStep(m, c, s, e, level, k);
      var q := PartEnd(m, k, e);
      assert Clear(m', lo, top);
      if q < e {
        PartEndsAtEntry(m, c, s, e, base, k);
        StillReady(m, m', c, s, q, e, base);
        InsertClear(m', c, q, e, level + 1, base, lo, top);
      }
    }
  }

  lemma {:induction false} WalkClear(m: Ranges, saved: Option<int>, k: int, a: AckSeg, ret: bool, top: int)
    requires AckState(m) && k in m && Clear(m, 0, top) && Outside(a.ack, 0, top)
    ensures var r := AckFrom(m, saved, k, a, ret); r.Processed? ==> Clear(r.ranges, 0, top)
    decreases LastKey(m).value - k
  {
    hide Range.Info, AckExact, AckInside, AckBeyond, AckBefore, AckOnly, CountAck, OnlyCounted, Disjoint, NextKey, LastKey, Outside;
    if CoversExactly(m[k], a.ack) {
    } else if a.ack > m[k].endSeq {
      if !a.tstampPcap.Before(m[k].sentTstampPcap[0].time) {
        var m' := m[k := AckBeyond(m[k], a)];
        BeyondState(m, k, a);
        if NextKey(m, k).Some? {
          WalkClear(m', Some(k), NextKey(m, k).value, a, ret || !m[k].acked, top);
        }
      }
    } else if a.ack <= m[k].startSeq {
      BeforeCounts(m, saved, k, a);
      var r := AckBefore(m, saved, k, a);
      if r.Processed? {
        OnlyCountedKeys(m, r.ranges);
      }
    }
  }

  lemma {:induction false} AcksClear(m: Ranges, acks: seq<AckSeg>, top: int)
    requires AckState(m) && m != map[] && Clear(m, 0, top) && forall i :: 0 <= i < |acks| ==> Outside(acks[i].ack, 0, top)
    ensures var r := AckAll(m, acks); r.Running? ==> Clear(r.state.ranges, 0, top)
  {
    hide AckFrom, AckState, Clear, Outside;
    if acks != [] {
      var n := |acks| - 1;
      AcksClear(m, acks[..n], top);
      var r := AckAll(m, acks[..n]);
      if r.Running? {
        var p, a := r.state, acks[n];
        var k := if p.saved.Some? then p.saved.value else FirstKey(p.ranges).value;
        if a.ack >= k {
          WalkClear(p.ranges, p.saved, k, a, false, top);
        }
      }
    }
  }

  lemma {:induction false} ReceptionsClear(m: Ranges, f: Front, firstSeq: int, segs: seq<DataSeg>)
    requires ReceiveState(m, f) && ReceivedRun(f, firstSeq, segs) && Clear(m, 0, f.top)
    requires forall i :: 0 <= i < |segs| ==> segs[i].startSeq == 0 && segs[i].endSeq == f.top
    ensures var r := ReceiveAll(m, f.last, firstSeq, segs); r.Running? ==> Clear(r.state, 0, f.top)
  {
    hide Insert, ReceiveState, Clear;
    if segs != [] {
      var n := |segs| - 1;
      ReceiveKeyed(m, f);
      ReceptionsCounted(m, f, firstSeq, segs[..n]);
      ReceptionsClear(m, f, firstSeq, segs[..n]);
      var r := ReceiveAll(m, f.last, firstSeq, segs[..n]);
      if r.Running? {
        ReceptionReady(r.state, f, firstSeq, segs[n]);
        InsertClear(r.state, RecvCall(f.last, firstSeq, segs[n]), 0, f.top, 0, f.top, 0, f.top);
      }
    }
  }

  /** A SYN is never forgotten, and after a FIN no new data comes. */
  lemma {:induction false} FrontGrows(segs: seq<DataSeg>, n: nat)
    requires GapFree(segs) && Packets(segs) && n <= |segs|
    ensures var f, f' := FrontOf(segs[..n]), FrontOf(segs);
      && FrontOk(f) && (f.syn ==> f'.syn) && f.top <= f'.top
      && (f.fin.Some? ==> f'.fin.Some? && f'.top == f.top)
    decreases |segs|
  {
    hide FrontOk, GapFreeStep, NextFront, GapFree;
    if n == |segs| {
      assert segs[..n] == segs;
      NewDataIsSpan(0, segs);
    } else {
      var k := |segs| - 1;
      GapFreePrefix(segs, k);
      assert segs[..k][..n] == segs[..n];
      FrontGrows(segs[..k], n);
      NewDataIsSpan(0, segs[..k]);
      FrontStepGrows(FrontOf(segs[..k]), segs[k]);
    }
  }

  lemma FrontStepGrows(f: Front, g: DataSeg)
    requires FrontOk(f) && GapFreeStep(f, g)
    ensures var f' := NextFront(f, g); (f.syn ==> f'.syn) && f.top <= f'.top && (f.fin.Some? ==> f'.fin.Some? && f'.top == f.top)
  {
  }

  /** What a packet of such a trace may find: no data or all of it. */
  lemma {:induction false} TopSoFar(segs: seq<DataSeg>, n: nat, top: int)
    requires n <= |segs| && forall i :: 0 <= i < |segs| && segs[i].payloadSize > 0 ==> segs[i].endSeq == top
    ensures var f := FrontOf(segs[..n]); f.top == 0 || f.top == Max(0, top)
  {
    if n > 0 {
      TopSoFar(segs, n - 1, top);
      assert segs[..n][..n - 1] == segs[..n - 1];
    }
  }

  lemma ControlClear(m: Ranges, f: Front, c: Call, g: DataSeg, top: int)
    requires Shape(m, f) && Clear(m, 0, top) && GapFreeStep(f, g) && g.payloadSize == 0 && c.seg == g
    requires !f.syn && 0 < top && (f.top == top || (f.top == 0 && f.fin.None?))
    ensures Clear(InsertEmpty(m, c, g.startSeq), 0, top)
  {
    ControlLandsOnEmpty(m, f, g);
  }

  lemma DataClear(st: SendState, f: Front, firstSeq: int, g: DataSeg, top: int)
    requires SendInv(st, f) && GapFreeStep(f, g) && g.payloadSize > 0 && g.startSeq == 0 && g.endSeq == top
    requires !f.syn && (f.top == 0 || f.top == top) && Clear(st.ranges, 0, top)
    ensures var r := SendOne(st, firstSeq, g); r.Running? ==> Clear(r.state.ranges, 0, top)
  {
    hide Insert, Clear;
    DataIsReady(st, f, firstSeq, g);
    InsertClear(st.ranges, CallFor(st, firstSeq, g), 0, top, 0, f.Base(), 0, top);
  }

  lemma {:induction false} SendsClear(firstSeq: int, segs: seq<DataSeg>, n: nat, top: int)
    requires GapFree(segs) && Packets(segs) && n <= |segs| && FrontOf(segs).top == top > 0 && !FrontOf(segs).syn
    requires forall i :: 0 <= i < |segs| && segs[i].payloadSize > 0 ==> segs[i].startSeq == 0 && segs[i].endSeq == top
    ensures var r := SendAll(firstSeq, segs[..n]); r.Running? ==> Clear(r.state.ranges, 0, top)
  {
    hide SendInv, GapFreeStep, FrontOf, SendAll, Insert, InsertEmpty, GapFree, Clear;
    if n == 0 {
      SendsFromStart(firstSeq);
      assert Clear(map[], 0, top) by { NothingThere(top); }
    } else {
      SendsClear(firstSeq, segs, n - 1, top);
      GapFreePrefix(segs, n - 1);
      SendRefinesCounter(firstSeq, segs[..n - 1]);
      FrontGrows(segs, n - 1);
      TopSoFar(segs, n - 1, top);
      var r := SendAll(firstSeq, segs[..n - 1]);
      if r.Running? {
        SendsStep(firstSeq, segs, n - 1);
        var f, g := FrontOf(segs[..n - 1]), segs[n - 1];
        if g.payloadSize > 0 {
          DataClear(r.state, f, firstSeq, g, top);
        } else {
          assert Shape(r.state.ranges, f) by { InvShape(r.state, f); }
          ControlClear(r.state.ranges, f, CallFor(r.state, firstSeq, g), g, top);
        }
      } else {
        SendsStopped(firstSeq, segs, n - 1);
      }
    }
  }

  lemma NothingThere(top: int)
    ensures Clear(map[], 0, top)
  {
  }

  lemma InvShape(st: SendState, f: Front)
    requires SendInv(st, f)
    ensures Shape(st.ranges, f)
  {
  }

  // ---------- no boundary gets lost ----------

  lemma BoundaryCut(x: int)
    ensures KeptByCutting(m => Boundary(m, x))
  {
    hide Range.Left, Range.Right;
    var i := (m: Ranges) => Boundary(m, x);
    forall m: Ranges, k: int, r: Range | i(m) && k in m && SameFirst(m[k], r)
      ensures i(m[k := r])
    {
      if x !in m {
        var j :| j in m && m[j].endSeq == x;
        assert m[k := r][j].endSeq == x;
      }
    }
    forall m: Ranges, k: int, at: int | i(m) && Keyed(m) && Disjoint(m) && k in m && k < at < m[k].endSeq
      ensures i(SplitAt(m, k, at))
    {
      SplitDisjoint(m, k, at);
      if x !in m {
        var j :| j in m && m[j].endSeq == x;
        assert SplitAt(m, k, at)[if j == k then at else j].endSeq == x;
      }
    }
  }

  lemma ControlBoundary(m: Ranges, f: Front, c: Call, g: DataSeg, x: int)
    requires Shape(m, f) && GapFreeStep(f, g) && g.payloadSize == 0 && c.seg == g && c.itype == InsertSent && Boundary(m, x)
    ensures Boundary(InsertEmpty(m, c, g.startSeq), x)
  {
    ControlEntry(m, c, g.startSeq);
    hide InsertEmpty;
    var m' := InsertEmpty(m, c, g.startSeq);
    if x !in m {
      var j :| j in m && m[j].endSeq == x;
      assert m'[j].endSeq == x;
    }
  }

  /** The ends of the first `n` packets, where they carry data, are boundaries. */
  ghost predicate PacketBoundaries(m: Ranges, segs: seq<DataSeg>, n: nat)
    requires n <= |segs|
  {
    forall i :: 0 <= i < n && segs[i].payloadSize > 0 ==> Boundary(m, segs[i].startSeq) && Boundary(m, segs[i].endSeq)
  }

  lemma StepBoundaries(st: SendState, f: Front, firstSeq: int, segs: seq<DataSeg>, n: nat)
    requires n < |segs| && SendInv(st, f) && PacketBoundaries(st.ranges, segs, n) && GapFreeStep(f, segs[n])
    ensures var r := SendOne(st, firstSeq, segs[n]); r.Running? ==> PacketBoundaries(r.state.ranges, segs, n + 1)
  {
    hide Insert, InsertEmpty, Boundary;
    var g := segs[n];
    var r := SendOne(st, firstSeq, g);
    if r.Running? {
      var c := CallFor(st, firstSeq, g);
      if g.payloadSize > 0 {
        DataKeeps(st, f, firstSeq, g);
        KeyIsBoundary(r.state.ranges, g.startSeq);
      }
      forall i | 0 <= i < n && segs[i].payloadSize > 0
        ensures Boundary(r.state.ranges, segs[i].startSeq) && Boundary(r.state.ranges, segs[i].endSeq)
      {
        if g.payloadSize == 0 {
          ControlBoundary(st.ranges, f, c, g, segs[i].startSeq);
          ControlBoundary(st.ranges, f, c, g, segs[i].endSeq);
        }
      }
    }
  }

  lemma KeyIsBoundary(m: Ranges, x: int)
    requires x in m
    ensures Boundary(m, x)
  {
  }

  lemma {:induction false} SendsBoundaries(firstSeq: int, segs: seq<DataSeg>, n: nat)
    requires GapFree(segs) && Packets(segs) && n <= |segs|
    ensures var r := SendAll(firstSeq, segs[..n]); r.Running? ==> PacketBoundaries(r.state.ranges, segs, n)
  {
    hide SendInv, GapFreeStep, FrontOf, SendAll, SendOne, GapFree, Boundary;
    if n == 0 {
      SendsFromStart(firstSeq);
    } else {
      SendsBoundaries(firstSeq, segs, n - 1);
      GapFreePrefix(segs, n - 1);
      SendRefinesCounter(firstSeq, segs[..n - 1]);
      var r := SendAll(firstSeq, segs[..n - 1]);
      if r.Running? {
        SendsStep(firstSeq, segs, n - 1);
        StepBoundaries(r.state, FrontOf(segs[..n - 1]), firstSeq, segs, n - 1);
      } else {
        SendsStopped(firstSeq, segs, n - 1);
      }
    }
  }

  /** Where the acknowledged bytes end between two held bytes, an entry starts. */
  lemma MarkIsBoundary(m: Ranges, x: int)
    requires AckState(m) && AckedBelow(m, x) && Covered(m, x - 1) && Covered(m, x)
    ensures Boundary(m, x)
  {
    var k :| Covers(m, k, x);
    AtIs(m, k, x);
    if k < x {
      AtIs(m, k, x - 1);
    }
  }

  /** Acknowledgement `x` ends between two held bytes. */
  ghost predicate EndsBetween(m: Ranges, x: int) {
    Covered(m, x - 1) && Covered(m, x)
  }

  lemma BoundaryStays(m: Ranges, saved: Option<int>, a: AckSeg, x: int)
    requires AckState(m) && m != map[] && SavedIn(m, saved) && Boundary(m, x)
    ensures var r := ProcessAck(m, saved, a); r.Processed? ==> Boundary(r.ranges, x)
  {
    hide *;
    var j := (m: Ranges) => Boundary(m, x);
    BoundaryCut(x);
    CuttingIsMarking(j);
    AckKeeps(m, saved, a, j);
  }

  lemma LastBoundary(m: Ranges, acks: seq<AckSeg>)
    requires AckState(m) && m != map[] && Unacked(m) && acks != [] && EndsBetween(m, acks[|acks| - 1].ack)
    requires Ordered(acks) && forall i :: 0 <= i < |acks| ==> InTime(m, acks[i])
    ensures var r := AckAll(m, acks); r.Running? ==> Boundary(r.state.ranges, acks[|acks| - 1].ack)
  {
    hide AckAll, AckState, At, SavedSound, PieceOf, Boundary, Covered, InTime, FirstAbove, AckedBelow, Ordered;
    var r, x := AckAll(m, acks), acks[|acks| - 1].ack;
    AcksRefineFirstTimes(m, acks);
    if r.Running? {
      CoveredStill(m, r.state.ranges, acks, x - 1);
      CoveredStill(m, r.state.ranges, acks, x);
      MarkIsBoundary(r.state.ranges, x);
    }
  }

  /** Every acknowledgement that ends between two held bytes leaves a boundary there. */
  lemma {:induction false} AcksBoundaries(m: Ranges, acks: seq<AckSeg>)
    requires AckState(m) && m != map[] && Unacked(m)
    requires Ordered(acks) && forall i :: 0 <= i < |acks| ==> InTime(m, acks[i])
    ensures var r := AckAll(m, acks); r.Running? ==>
      forall i :: 0 <= i < |acks| && EndsBetween(m, acks[i].ack) ==> Boundary(r.state.ranges, acks[i].ack)
  {
    hide ProcessAck, AckState, Boundary, EndsBetween, InTime;
    var r := AckAll(m, acks);
    if acks != [] && r.Running? {
      var n := |acks| - 1;
      assert forall i :: 0 <= i < n ==> acks[..n][..i] == acks[..i];
      AcksBoundaries(m, acks[..n]);
      var p := AckAll(m, acks[..n]).state;
      forall i | 0 <= i < |acks| && EndsBetween(m, acks[i].ack)
        ensures Boundary(r.state.ranges, acks[i].ack)
      {
        if i < n {
          assert acks[..n][i] == acks[i];
          BoundaryStays(p.ranges, p.saved, acks[n], acks[i].ack);
        } else {
          LastBoundary(m, acks);
        }
      }
    }
  }

  lemma CoveredStill(m: Ranges, m': Ranges, acks: seq<AckSeg>, b: int)
    requires Covered(m, b) && forall x :: At(m', x) == WithAck(At(m, x), FirstAbove(acks, x))
    ensures Covered(m', b)
  {
    assert At(m', b) == WithAck(At(m, b), FirstAbove(acks, b));
  }

  lemma ReceptionBoundary(m: Ranges, f: Front, firstSeq: int, g: DataSeg)
    requires ReceiveState(m, f) && ReceivedStep(f, firstSeq, g)
    ensures Keyed(m)
    ensures var r := ReceiveOne(m, f.last, firstSeq, g); r.Running? ==>
      && Boundary(r.state, g.startSeq) && Boundary(r.state, g.endSeq)
      && forall x :: Boundary(m, x) ==> Boundary(r.state, x)
  {
    hide Insert, Boundary, Ready;
    ReceiveKeyed(m, f);
    ReceptionReady(m, f, firstSeq, g);
    InsertSegment(m, RecvCall(f.last, firstSeq, g), g.startSeq, g.endSeq, 0, g.endSeq);
    var r := ReceiveOne(m, f.last, firstSeq, g);
    if r.Running? {
      KeyIsBoundary(r.state, g.startSeq);
    }
  }

  lemma {:induction false} ReceptionBoundaries(m: Ranges, f: Front, firstSeq: int, segs: seq<DataSeg>)
    requires ReceiveState(m, f) && ReceivedRun(f, firstSeq, segs)
    ensures var r := ReceiveAll(m, f.last, firstSeq, segs); r.Running? ==>
      && (forall i :: 0 <= i < |segs| ==> Boundary(r.state, segs[i].startSeq) && Boundary(r.state, segs[i].endSeq))
      && (forall x :: Boundary(m, x) ==> Boundary(r.state, x))
  {
    hide ReceiveState, ReceiveOne, Boundary;
    if segs != [] {
      var n := |segs| - 1;
      ReceiveKeyed(m, f);
      ReceptionsCounted(m, f, firstSeq, segs[..n]);
      ReceptionBoundaries(m, f, firstSeq, segs[..n]);
      var r := ReceiveAll(m, f.last, firstSeq, segs[..n]);
      if r.Running? {
        ReceptionBoundary(r.state, f, firstSeq, segs[n]);
        assert forall i :: 0 <= i < n ==> segs[..n][i] == segs[i];
      }
    }
  }

  // ---------- both together ----------

  lemma ClearIsSingle(m: Ranges, f: Front)
    requires Shape(m, f) && Clear(m, 0, f.top) && f.top > 0 && !f.syn
    ensures OnlyFirstHoldsData(m)
  {
    DataKeysEnds(m, f);
    forall k
      ensures k in DataKeys(m) <==> k == 0
    {
      if k in DataKeys(m) {
        assert Covers(m, k, k) && Covered(m, k);
      }
    }
  }

  /** With a single data entry the only boundaries up to the end of the data are its two ends. */
  lemma SingleBoundaries(m: Ranges, f: Front, x: int)
    requires Shape(m, f) && OnlyFirstHoldsData(m) && f.top > 0 && Boundary(m, x) && 0 <= x <= f.top
    ensures x == 0 || x == f.top
  {
    DataKeysEnds(m, f);
    assert 0 in DataKeys(m) && m[0].endSeq == f.top;
    LaterBeyond(m, 0);
    if x !in m {
      var k :| k in m && m[k].endSeq == x;
      if k != 0 {
        assert k !in DataKeys(m);
      }
    }
  }

  lemma SingleNeedsData(m: Ranges, f: Front)
    requires Shape(m, f) && OnlyFirstHoldsData(m)
    ensures f.top > 0 && !f.syn
  {
    assert 0 in DataKeys(m);
    assert Covers(m, 0, 0) && Covered(m, 0);
  }

  lemma StretchClear(t: Trace, st: SendState, m1: Ranges, m: Ranges)
    requires Ends(t, st, m1, m) && OneStretch(t)
    ensures OnlyFirstHoldsData(m)
  {
    hide SendAll, AckAll, ReceiveAll, GapFree, FrontOf, ReceivedRun, Shape, ReceiveState, At, Total, OnlyFirstHoldsData,
      Clear, SameCounts;
    var n, f := |t.sent|, FrontOf(t.sent);
    assert t.sent[..n] == t.sent;
    SendsClear(t.firstSeq, t.sent, n, f.top);
    AcksClear(st.ranges, t.acks, f.top);
    AckedFacts(t, st, m1);
    ReceptionsClear(m1, f, t.firstSeq, t.received);
    FinalShape(t, st, m1, m);
    ClearIsSingle(m, f);
  }

  lemma {:induction false} EndBelowTop(segs: seq<DataSeg>, i: nat)
    requires i < |segs| && segs[i].payloadSize > 0
    ensures segs[i].endSeq <= FrontOf(segs).top
  {
    var n := |segs| - 1;
    if i < n {
      assert segs[..n][i] == segs[i];
      EndBelowTop(segs[..n], i);
    }
  }

  /** What was a boundary after the sends still is one at the end. */
  lemma EarlyBoundary(t: Trace, st: SendState, m1: Ranges, m: Ranges, x: int)
    requires Ends(t, st, m1, m) && (Boundary(st.ranges, x) || Boundary(m1, x))
    ensures Boundary(m, x)
  {
    hide SendAll, AckAll, ReceiveAll, GapFree, FrontOf, ReceivedRun, ReceiveState, At, Total, Boundary, SameCounts,
      KeptByCutting, KeptByMarking;
    AckedFacts(t, st, m1);
    if Boundary(st.ranges, x) {
      var j := (m: Ranges) => Boundary(m, x);
      BoundaryCut(x);
      CuttingIsMarking(j);
      AcksKeep(st.ranges, t.acks, j);
    }
    ReceptionBoundaries(m1, FrontOf(t.sent), t.firstSeq, t.received);
  }

  lemma SentWhole(t: Trace, st: SendState, m1: Ranges, m: Ranges, i: nat)
    requires Ends(t, st, m1, m) && OnlyFirstHoldsData(m) && i < |t.sent| && t.sent[i].payloadSize > 0
    ensures t.sent[i].startSeq == 0 && t.sent[i].endSeq == FrontOf(t.sent).top
  {
    hide AckAll, ReceiveAll, SendAll, GapFree, FrontOf, ReceivedRun, Shape, OnlyFirstHoldsData, Boundary;
    var n, f := |t.sent|, FrontOf(t.sent);
    assert t.sent[..n] == t.sent;
    SendsBoundaries(t.firstSeq, t.sent, n);
    EndBelowTop(t.sent, i);
    EarlyBoundary(t, st, m1, m, t.sent[i].startSeq);
    EarlyBoundary(t, st, m1, m, t.sent[i].endSeq);
    FinalShape(t, st, m1, m);
    SingleNeedsData(m, f);
    SingleBoundaries(m, f, t.sent[i].startSeq);
    SingleBoundaries(m, f, t.sent[i].endSeq);
  }

  lemma ReceivedWhole(t: Trace, st: SendState, m1: Ranges, m: Ranges, i: nat)
    requires Ends(t, st, m1, m) && OnlyFirstHoldsData(m) && i < |t.received|
    ensures t.received[i].startSeq == 0 && t.received[i].endSeq == FrontOf(t.sent).top
  {
    hide AckAll, ReceiveAll, SendAll, GapFree, FrontOf, Shape, OnlyFirstHoldsData, Boundary, ReceiveState, SameCounts, Total, At;
    var f := FrontOf(t.sent);
    AckedFacts(t, st, m1);
    ReceptionBoundaries(m1, f, t.firstSeq, t.received);
    FinalShape(t, st, m1, m);
    SingleNeedsData(m, f);
    SingleBoundaries(m, f, t.received[i].startSeq);
    SingleBoundaries(m, f, t.received[i].endSeq);
  }

  lemma AckOutside(t: Trace, st: SendState, m1: Ranges, m: Ranges, i: nat)
    requires Ends(t, st, m1, m) && OnlyFirstHoldsData(m) && i < |t.acks|
    requires Ordered(t.acks) && AcksInTime(st, t.acks)
    ensures t.acks[i].ack <= 0 || FrontOf(t.sent).top <= t.acks[i].ack
  {
    hide AckAll, ReceiveAll, SendAll, GapFree, FrontOf, OnlyFirstHoldsData, Boundary, ReceivedRun, CountsBytes, EntriesSound, Ledger;
    var f, x := FrontOf(t.sent), t.acks[i].ack;
    SentFacts(t, st);
    FinalShape(t, st, m1, m);
    SingleNeedsData(m, f);
    if 0 < x < f.top {
      AcksBoundaries(st.ranges, t.acks);
      assert EndsBetween(st.ranges, x);
      EarlyBoundary(t, st, m1, m, x);
      SingleBoundaries(m, f, x);
    }
  }

  /** The first entry is the only one with data if and only if the trace is one stretch. */
  lemma SingleExactly(t: Trace, st: SendState, m1: Ranges, m: Ranges)
    requires Ends(t, st, m1, m) && Ordered(t.acks) && AcksInTime(st, t.acks)
    ensures OnlyFirstHoldsData(m) <==> OneStretch(t)
  {
    hide Ends, OnlyFirstHoldsData, FrontOf, Ordered, AcksInTime;
    if OneStretch(t) {
      StretchClear(t, st, m1, m);
    }
    if OnlyFirstHoldsData(m) {
      FinalShape(t, st, m1, m);
      SingleNeedsData(m, FrontOf(t.sent));
      forall i | 0 <= i < |t.sent| && t.sent[i].payloadSize > 0
        ensures t.sent[i].startSeq == 0 && t.sent[i].endSeq == FrontOf(t.sent).top
      {
        SentWhole(t, st, m1, m, i);
      }
      forall i | 0 <= i < |t.acks|
        ensures t.acks[i].ack <= 0 || FrontOf(t.sent).top <= t.acks[i].ack
      {
        AckOutside(t, st, m1, m, i);
      }
      forall i | 0 <= i < |t.received|
        ensures t.received[i].startSeq == 0 && t.received[i].endSeq == FrontOf(t.sent).top
      {
        ReceivedWhole(t, st, m1, m, i);
      }
    }
  }
}
