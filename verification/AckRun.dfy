/** The acknowledgement phase: all incoming acknowledgements after all sent packets. */
module AckRun {
  import opened Common
  import opened OrderedMap
  import opened ByteRanges
  import opened Index
  import opened ByteView
  import opened Insertion
  import opened Accounting
  import opened Entries
  import opened SendRun
  import opened Acks
  import opened AckStates

  datatype AckPhase = AckPhase(ranges: Ranges, saved: Option<int>)

  lemma {:induction false} WalkSaved(m: Ranges, saved: Option<int>, k: int, a: AckSeg, ret: bool)
    requires AckState(m) && k in m && SavedIn(m, saved)
    ensures var r := AckFrom(m, saved, k, a, ret); r.Processed? ==> SavedIn(r.ranges, r.saved) && m.Keys <= r.ranges.Keys
    decreases LastKey(m).value - k
  {
    hide Range.Info, AckExact, AckInside, AckBeyond, AckBefore, AckOnly, CountAck, OnlyCounted, Disjoint, NextKey, LastKey;
    if CoversExactly(m[k], a.ack) {
    } else if a.ack > m[k].endSeq {
      if !a.tstampPcap.Before(m[k].sentTstampPcap[0].time) {
        var m' := m[k := AckBeyond(m[k], a)];
        BeyondState(m, k, a);
        if NextKey(m, k).Some? {
          WalkSaved(m', Some(k), NextKey(m, k).value, a, ret || !m[k].acked);
        }
      }
    } else if a.ack <= m[k].startSeq {
      BeforeCounts(m, saved, k, a);
      var r := AckBefore(m, saved, k, a);
      if r.Processed? {
        OnlyCountedKeys(m, r.ranges);
      }
    }
  }

  lemma OnlyCountedKeys(m: Ranges, m': Ranges)
    requires OnlyCounted(m, m')
    ensures m'.Keys == m.Keys
  {
    hide CountAck;
    if m' != m {
      var p :| p in m && m' == m[p := CountAck(m[p])];
    }
  }

  lemma StateKept()
    ensures KeptByMarking(AckState)
  {
    hide Range.Info;
    forall m: Ranges, k: int, r: Range | AckState(m) && k in m && AckOnly(m[k], r)
      ensures AckState(m[k := r])
    {
      TouchDisjoint(m, k, r);
      StillSent(m, k, r);
    }
    forall m: Ranges, k: int, at: int | AckState(m) && k in m && k < at < m[k].endSeq
      ensures AckState(SplitAt(m, k, at))
    {
      SplitDisjoint(m, k, at);
    }
  }

  lemma ProcessKeeps(m: Ranges, saved: Option<int>, a: AckSeg)
    requires AckState(m) && m != map[] && SavedIn(m, saved)
    ensures var r := ProcessAck(m, saved, a); r.Processed? ==>
      AckState(r.ranges) && r.ranges != map[] && SavedIn(r.ranges, r.saved)
  {
    hide AckFrom, AckState;
    StateKept();
    AckKeeps(m, saved, a, AckState);
    var k := if saved.Some? then saved.value else FirstKey(m).value;
    if a.ack >= k {
      WalkSaved(m, saved, k, a, false);
    }
  }

  /** All acknowledgements of a trace, in order; `Died` if the FIN search runs off the map. */
  ghost function AckAll(m: Ranges, acks: seq<AckSeg>): (r: Run<AckPhase>)
    requires AckState(m) && m != map[]
    ensures r.Running? ==> AckState(r.state.ranges) && r.state.ranges != map[] && SavedIn(r.state.ranges, r.state.saved)
  {
    if acks == [] then Running(AckPhase(m, None))
    else
      match AckAll(m, acks[..|acks| - 1])
      case Running(p) =>
        ProcessKeeps(p.ranges, p.saved, acks[|acks| - 1]);
        (match ProcessAck(p.ranges, p.saved, acks[|acks| - 1])
         case Processed(m', saved, _) => Running(AckPhase(m', saved))
         case RanOff => Died)
      case GuardTripped => GuardTripped
      case Died => Died
  }

  /** The last acknowledgement that `processAck` answered with true; 0 before the first. */
  ghost function AckMark(m: Ranges, acks: seq<AckSeg>): int
    requires AckState(m) && m != map[]
  {
    if acks == [] then 0 else
      var n := |acks| - 1;
      var before := AckMark(m, acks[..n]);
      match AckAll(m, acks[..n])
      case Running(p) =>
        var o := ProcessAck(p.ranges, p.saved, acks[n]);
        if o.Processed? && o.ret then acks[n].ack else before
      case GuardTripped => before
      case Died => before
  }

  lemma {:induction false} AckMarkIsAck(m: Ranges, acks: seq<AckSeg>)
    requires AckState(m) && m != map[]
    ensures AckMark(m, acks) == 0 || exists i :: 0 <= i < |acks| && AckMark(m, acks) == acks[i].ack
  {
    if acks != [] {
      var n := |acks| - 1;
      AckMarkIsAck(m, acks[..n]);
      if AckMark(m, acks) == AckMark(m, acks[..n]) && AckMark(m, acks) != 0 {
        var i :| 0 <= i < n && AckMark(m, acks[..n]) == acks[..n][i].ack;
        assert acks[i] == acks[..n][i];
      }
    }
  }

  // ---------- the send times of the pieces ----------

  /** Every entry of `m'` was first sent when the entry of `m` that it is a piece of was. */
  ghost predicate PieceOf(m: Ranges, m': Ranges) {
    forall k :: k in m' ==> (
      && |m'[k].sentTstampPcap| > 0
      && exists j :: j in m && j <= k && |m[j].sentTstampPcap| > 0 && m'[k].sentTstampPcap[0].time == m[j].sentTstampPcap[0].time)
  }

  lemma PiecesKept(m: Ranges)
    ensures KeptByMarking(m' => PieceOf(m, m'))
  {
  }

  // ---------- the whole phase ----------

  /** The acknowledgement is not older than the first transmission of any entry it reaches into. */
  ghost predicate InTime(m: Ranges, a: AckSeg) {
    forall k :: k in m && k < a.ack && |m[k].sentTstampPcap| > 0 ==> !a.tstampPcap.Before(m[k].sentTstampPcap[0].time)
  }

  /** The largest acknowledgement so far. */
  function High(acks: seq<AckSeg>): int {
    if acks == [] then 0 else acks[|acks| - 1].ack
  }

  predicate Ordered(acks: seq<AckSeg>) {
    forall i :: 0 <= i < |acks| ==> High(acks[..i]) <= acks[i].ack
  }

  /** The time of the first acknowledgement above byte `b`. */
  function FirstAbove(acks: seq<AckSeg>, b: int): Option<TimeVal> {
    if acks == [] then None
    else
      var before := FirstAbove(acks[..|acks| - 1], b);
      var a := acks[|acks| - 1];
      if before.Some? then before else if a.ack > b then Some(a.tstampPcap) else None
  }

  function WithAck(i: Option<ByteInfo>, first: Option<TimeVal>): Option<ByteInfo> {
    if i.Some? && first.Some? then Some(i.value.(acked := true, ackTime := first.value)) else i
  }

  /** No byte is acknowledged yet. */
  ghost predicate Unacked(m: Ranges) {
    forall b :: At(m, b).Some? ==> !At(m, b).value.acked
  }

  /** Over any run of non-decreasing acknowledgements, each not older than the sending of what it covers:
      a byte is acknowledged if and only if it lies below the largest acknowledgement so far, its recorded
      time is that of the first acknowledgement above it, nothing else about any byte changes, and the
      saved entry is a sound starting point for the next walk. */
  lemma {:induction false} AcksRefineFirstTimes(m: Ranges, acks: seq<AckSeg>)
    requires AckState(m) && m != map[] && Unacked(m)
    requires Ordered(acks) && forall i :: 0 <= i < |acks| ==> InTime(m, acks[i])
    ensures var r := AckAll(m, acks); r.Running? ==>
      && (forall b :: At(r.state.ranges, b) == WithAck(At(m, b), FirstAbove(acks, b)))
      && AckedBelow(r.state.ranges, High(acks))
      && SavedSound(r.state.ranges, r.state.saved, High(acks))
      && PieceOf(m, r.state.ranges)
  {
    hide ProcessAck, AckState, At, SavedSound, PieceOf;
    if acks == [] {
      StartSound(m);
    } else {
      var n := |acks| - 1;
      assert forall i :: 0 <= i < n ==> acks[..n][..i] == acks[..i];
      AcksRefineFirstTimes(m, acks[..n]);
      var r := AckAll(m, acks[..n]);
      if r.Running? {
        AckStep(m, r.state, acks[n], High(acks[..n]));
      }
    }
  }

  lemma StartSound(m: Ranges)
    requires AckState(m) && m != map[] && Unacked(m)
    ensures AckedBelow(m, 0) && SavedSound(m, None, 0) && PieceOf(m, m)
  {
    forall b
      ensures At(m, b).Some? ==> 0 <= b
    {
    }
  }

  lemma AckStep(m: Ranges, p: AckPhase, a: AckSeg, high: int)
    requires AckState(p.ranges) && p.ranges != map[] && SavedIn(p.ranges, p.saved)
    requires AckedBelow(p.ranges, high) && SavedSound(p.ranges, p.saved, high) && PieceOf(m, p.ranges)
    requires high <= a.ack && InTime(m, a)
    ensures var r := ProcessAck(p.ranges, p.saved, a); r.Processed? ==>
      && (forall b :: At(r.ranges, b) == AckByte(At(p.ranges, b), b, a))
      && AckedBelow(r.ranges, a.ack) && SavedSound(r.ranges, r.saved, a.ack) && PieceOf(m, r.ranges)
  {
    assert NotBeforeSending(p.ranges, a);
    AckRefines(p.ranges, p.saved, a, high);
    var i := m' => PieceOf(m, m');
    PiecesKept(m);
    AckKeeps(p.ranges, p.saved, a, i);
  }

  // ---------- when the FIN search leaves the map ----------

  /** Behind an entry with bytes follows the next one directly, or one without bytes one number on. */
  ghost predicate Contiguous(m: Ranges) {
    forall p :: p in m ==> JoinedAt(m, p)
  }

  predicate JoinedAt(m: Ranges, p: int)
    requires p in m
  {
    !m[p].Empty() ==>
      match NextKey(m, p)
      case None => true
      case Some(k) => m[p].endSeq == k || (m[k].Empty() && k == m[p].endSeq + 1)
  }

  lemma ShapeContiguous(m: Ranges, f: Front)
    requires Shape(m, f)
    ensures Contiguous(m)
  {
    forall p | p in m && !m[p].Empty() && NextKey(m, p).Some? && m[p].endSeq != NextKey(m, p).value
      ensures var k := NextKey(m, p).value; m[k].Empty() && k == m[p].endSeq + 1
    {
      var k, x := NextKey(m, p).value, m[p].endSeq;
      assert !Covered(m, x) by {
        forall j
          ensures !Covers(m, j, x)
        {
        }
      }
      assert Covers(m, p, x - 1) && Covered(m, x - 1);
      assert x == f.top;
      if !m[k].Empty() {
        assert Covers(m, k, k) && Covered(m, k);
      }
    }
  }

  lemma TouchContiguous(m: Ranges, k: int, r: Range)
    requires Contiguous(m) && k in m && r.SameSpan(m[k])
    ensures Contiguous(m[k := r])
  {
    var m' := m[k := r];
    assert m'.Keys == m.Keys;
    forall p | p in m
      ensures NextKey(m', p) == NextKey(m, p)
    {
    }
  }

  lemma SplitContiguous(m: Ranges, k: int, at: int)
    requires Contiguous(m) && Keyed(m) && Disjoint(m) && k in m && k < at < m[k].endSeq
    ensures Contiguous(SplitAt(m, k, at))
  {
    hide Range.Left, Range.Right;
    var m' := SplitAt(m, k, at);
    SplitDisjoint(m, k, at);
    forall p | p in m'
      ensures JoinedAt(m', p)
    {
      SplitNext(m, k, at, p);
      if p != at {
        assert JoinedAt(m, p);
      } else {
        assert JoinedAt(m, k);
      }
    }
  }

  lemma SplitNext(m: Ranges, k: int, at: int, p: int)
    requires Keyed(m) && Disjoint(m) && k in m && k < at < m[k].endSeq && at !in m
    requires p in m || p == at
    ensures NextKey(SplitAt(m, k, at), p) == if p == k then Some(at) else NextKey(m, if p == at then k else p)
  {
    LaterBeyond(m, k);
    hide Range.Left, Range.Right, Keyed, Disjoint, NextKey, SplitAt;
    var m' := SplitAt(m, k, at);
    SplitKeys(m, k, at);
    var q := if p == at then k else p;
    if p == k {
      NextKeyIs(m', k, at);
    } else {
      match NextKey(m, q) {
        case None => NextKeyNone(m', p);
        case Some(n) => NextKeyIs(m', p, n);
      }
    }
  }

  lemma SplitKeys(m: Ranges, k: int, at: int)
    requires k in m && m[k].startSeq <= at <= m[k].endSeq
    ensures SplitAt(m, k, at).Keys == m.Keys + {at}
  {
  }

  lemma ContiguousKept()
    ensures KeptByMarking(Contiguous)
  {
    hide Contiguous;
    forall m: Ranges, k: int, r: Range | Contiguous(m) && k in m && AckOnly(m[k], r)
      ensures Contiguous(m[k := r])
    {
      TouchContiguous(m, k, r);
    }
    forall m: Ranges, k: int, at: int | Contiguous(m) && Keyed(m) && Disjoint(m) && k in m && k < at < m[k].endSeq
      ensures Contiguous(SplitAt(m, k, at))
    {
      SplitContiguous(m, k, at);
    }
  }

  /** No entry from `p` back to the first carries a FIN or was sent as often in packets as in data. */
  ghost predicate NothingStops(m: Ranges, p: int) {
    forall k :: k in m && k <= p ==> m[k].fin == 0 && m[k].packetSentCount != m[k].dataSentCount
  }

  /** The backward search for a FIN leaves the map if and only if nothing stops it. The code has no other guard. */
  lemma {:induction false} SearchLeavesExactly(m: Ranges, p: int)
    requires p in m
    ensures SearchFin(m, p).OffTheFront? <==> NothingStops(m, p)
    decreases set k | k in m && k < p
  {
    if PrevKey(m, p).Some? {
      var q := PrevKey(m, p).value;
      assert q in (set k | k in m && k < p);
      SearchLeavesExactly(m, q);
    }
  }

  /** The acknowledgement has the number at which the saved entry starts, that entry holds bytes, the
      entry before it ends one number lower, and nothing stops the search for a FIN from there. */
  ghost predicate RunsPastFirst(m: Ranges, saved: Option<int>, a: AckSeg) {
    && saved.Some? && saved.value in m && a.ack == saved.value && !m[saved.value].Empty()
    && match PrevKey(m, saved.value)
       case None => false
       case Some(p) => m[p].endSeq == a.ack - 1 && NothingStops(m, p)
  }

  lemma BeforeLeaves(m: Ranges, saved: Option<int>, k: int, a: AckSeg)
    requires k in m
    ensures AckBefore(m, saved, k, a).RanOff? <==>
      match PrevKey(m, k)
      case None => false
      case Some(p) => a.ack - 1 == m[p].endSeq && NothingStops(m, p)
  {
    hide SearchFin, CountAck, OldAck, NothingStops;
    if PrevKey(m, k).Some? {
      SearchLeavesExactly(m, PrevKey(m, k).value);
      forall q | q in m
        ensures OldAck(m, saved, q, a).Processed?
      {
        OldAckCounts(m, saved, q, a);
      }
    }
  }

  lemma WalkedPast(m: Ranges, p: int, k: int, a: AckSeg)
    requires AckState(m) && p in m && k in m && Contiguous(m) && NextKey(m, p) == Some(k)
    requires m[p].endSeq < a.ack <= k && !CoversExactly(m[p], a.ack) && !CoversExactly(m[k], a.ack)
    ensures a.ack - 1 != m[p].endSeq
  {
    hide CoversExactly, Disjoint, NextKey, SentOnce;
    assert JoinedAt(m, p);
    ExactWhenEmpty(m, p, a);
    ExactWhenEmpty(m, k, a);
  }

  lemma ExactWhenEmpty(m: Ranges, k: int, a: AckSeg)
    requires Keyed(m) && k in m
    ensures m[k].Empty() && k <= a.ack <= k + 1 ==> CoversExactly(m[k], a.ack)
    ensures m[k].endSeq == a.ack ==> CoversExactly(m[k], a.ack)
  {
  }

  lemma PrevOfNext(m: Ranges, p: int, k: int)
    requires p in m && NextKey(m, p) == Some(k)
    ensures PrevKey(m, k) == Some(p)
  {
    var q := PrevKey(m, k).value;
    assert p <= q;
  }

  /** A walk that has passed an entry never enters the search. */
  lemma {:induction false} WalkStays(m: Ranges, p: int, k: int, a: AckSeg, ret: bool)
    requires AckState(m) && p in m && k in m && Contiguous(m)
    requires NextKey(m, p) == Some(k) && m[p].endSeq < a.ack && !CoversExactly(m[p], a.ack)
    ensures AckFrom(m, Some(p), k, a, ret).Processed?
    decreases LastKey(m).value - k
  {
    hide Range.Info, AckExact, AckInside, AckBeyond, AckBefore, AckOnly, Contiguous, Disjoint, Covered, NextKey, LastKey;
    if CoversExactly(m[k], a.ack) {
    } else if a.ack > m[k].endSeq {
      if !a.tstampPcap.Before(m[k].sentTstampPcap[0].time) {
        var m' := m[k := AckBeyond(m[k], a)];
        BeyondState(m, k, a);
        TouchContiguous(m, k, m'[k]);
        if NextKey(m, k).Some? {
          WalkStays(m', k, NextKey(m, k).value, a, ret || !m[k].acked);
        }
      }
    } else if a.ack <= m[k].startSeq {
      PrevOfNext(m, p, k);
      WalkedPast(m, p, k, a);
      BeforeLeaves(m, Some(p), k, a);
    }
  }

  lemma StartLeaves(m: Ranges, saved: Option<int>, k: int, a: AckSeg)
    requires AckState(m) && k in m && Contiguous(m) && k <= a.ack
    ensures AckFrom(m, saved, k, a, false).RanOff? <==>
      && a.ack == k && !m[k].Empty()
      && match PrevKey(m, k)
         case None => false
         case Some(p) => a.ack - 1 == m[p].endSeq && NothingStops(m, p)
  {
    hide Range.Info, AckExact, AckInside, AckBeyond, AckBefore, AckOnly, Contiguous, Disjoint, Covered, NextKey, LastKey, NothingStops;
    ExactWhenEmpty(m, k, a);
    if !CoversExactly(m[k], a.ack) {
      if a.ack > m[k].endSeq {
        if !a.tstampPcap.Before(m[k].sentTstampPcap[0].time) {
          var m' := m[k := AckBeyond(m[k], a)];
          BeyondState(m, k, a);
          TouchContiguous(m, k, m'[k]);
          if NextKey(m, k).Some? {
            WalkStays(m', k, NextKey(m, k).value, a, !m[k].acked);
          }
        }
      } else if a.ack <= k {
        BeforeLeaves(m, saved, k, a);
      }
    }
  }

  /** On a map without gaps, and for any acknowledgement whatever, `processAck` leaves the map if and only
      if the acknowledgement starts the search at the saved entry and nothing stops it. */
  lemma ProcessLeavesExactly(m: Ranges, saved: Option<int>, a: AckSeg)
    requires AckState(m) && m != map[] && Contiguous(m) && SavedIn(m, saved)
    ensures ProcessAck(m, saved, a).RanOff? <==> RunsPastFirst(m, saved, a)
  {
    hide AckFrom, Contiguous, NothingStops;
    var k := if saved.Some? then saved.value else FirstKey(m).value;
    if a.ack >= k {
      StartLeaves(m, saved, k, a);
    }
  }

  // ---------- acknowledgements in order never do ----------

  /** The largest acknowledgement so far, in any order. */
  function Top(acks: seq<AckSeg>): int {
    if acks == [] then 0 else Max(Top(acks[..|acks| - 1]), acks[|acks| - 1].ack)
  }

  lemma {:induction false} OrderedTop(acks: seq<AckSeg>)
    requires Ordered(acks)
    ensures Top(acks) == High(acks)
  {
    if acks != [] {
      var n := |acks| - 1;
      assert forall i :: 0 <= i < n ==> acks[..n][..i] == acks[..i];
      OrderedTop(acks[..n]);
    }
  }

  /** Any run of acknowledgements whatever keeps the acknowledged bytes below some mark and the saved entry fit. */
  lemma {:induction false} AcksSteady(m: Ranges, acks: seq<AckSeg>)
    requires AckState(m) && m != map[] && Unacked(m)
    ensures var r := AckAll(m, acks); r.Running? ==> Steady(r.state.ranges, r.state.saved, Top(acks))
  {
    hide ProcessAck, AckState, Marked, SavedReached;
    if acks == [] {
      StartSteady(m);
    } else {
      var n := |acks| - 1;
      AcksSteady(m, acks[..n]);
      var r := AckAll(m, acks[..n]);
      if r.Running? {
        AckSteady(r.state.ranges, r.state.saved, acks[n], Top(acks[..n]));
      }
    }
  }

  lemma StartSteady(m: Ranges)
    requires AckState(m) && m != map[] && Unacked(m)
    ensures Steady(m, None, 0)
  {
    StartSound(m);
  }

  /** The entry before `k` ends at `k` if the byte just below is held. */
  lemma EndsBefore(m: Ranges, k: int, p: int)
    requires Keyed(m) && Disjoint(m) && k in m && Covered(m, k - 1) && PrevKey(m, k) == Some(p)
    ensures m[p].endSeq == k
  {
    var j :| Covers(m, j, k - 1);
    LaterBeyond(m, j);
    LaterBeyond(m, p);
  }

  /** Only an acknowledgement below an earlier one can leave the map. */
  lemma LeavesOnlyWhenLate(m: Ranges, saved: Option<int>, a: AckSeg, top: int)
    requires Steady(m, saved, top) && RunsPastFirst(m, saved, a)
    ensures a.ack < top
  {
    hide Marked, NothingStops, PrevKey, Disjoint, Covered;
    var k := saved.value;
    if Covered(m, k - 1) {
      EndsBefore(m, k, PrevKey(m, k).value);
    }
  }

  /** The whole acknowledgement phase after a gap-free send phase never leaves the map if the
      acknowledgements do not decrease, whatever their times. */
  lemma {:induction false} AcksNeverRunOff(m: Ranges, acks: seq<AckSeg>)
    requires AckState(m) && m != map[] && Unacked(m) && Contiguous(m) && Ordered(acks)
    ensures var r := AckAll(m, acks); r.Running? && Contiguous(r.state.ranges)
  {
    hide ProcessAck, AckState, At, Steady, Contiguous, RunsPastFirst, Top;
    if acks != [] {
      var n := |acks| - 1;
      assert forall i :: 0 <= i < n ==> acks[..n][..i] == acks[..i];
      AcksNeverRunOff(m, acks[..n]);
      AcksSteady(m, acks[..n]);
      OrderedTop(acks[..n]);
      var p := AckAll(m, acks[..n]).state;
      ProcessLeavesExactly(p.ranges, p.saved, acks[n]);
      if RunsPastFirst(p.ranges, p.saved, acks[n]) {
        LeavesOnlyWhenLate(p.ranges, p.saved, acks[n], Top(acks[..n]));
      }
      ContiguousKept();
      AckKeeps(p.ranges, p.saved, acks[n], Contiguous);
    }
  }

  // ---------- what the acknowledgement phase leaves unchanged ----------

  lemma {:induction false} AcksKeepAt(m: Ranges, acks: seq<AckSeg>, i: Ranges -> bool)
    requires AckState(m) && m != map[] && i(m)
    requires forall j :: 0 <= j < |acks| ==> KeptByMarkingAt(i, acks[j].ack)
    ensures var r := AckAll(m, acks); r.Running? ==> i(r.state.ranges)
  {
    hide ProcessAck, AckState, KeptByMarkingAt;
    if acks != [] {
      var n := |acks| - 1;
      AcksKeepAt(m, acks[..n], i);
      var r := AckAll(m, acks[..n]);
      if r.Running? {
        AckKeepsAt(r.state.ranges, r.state.saved, acks[n], i);
      }
    }
  }

  lemma AcksKeep(m: Ranges, acks: seq<AckSeg>, i: Ranges -> bool)
    requires AckState(m) && m != map[] && i(m) && KeptByMarking(i)
    ensures var r := AckAll(m, acks); r.Running? ==> i(r.state.ranges)
  {
    hide AckAll, AckState;
    forall x: int
      ensures KeptByMarkingAt(i, x)
    {
      MarkingAt(i, x);
    }
    AcksKeepAt(m, acks, i);
  }

  lemma MarkingAt(i: Ranges -> bool, x: int)
    requires KeptByMarking(i)
    ensures KeptByMarkingAt(i, x)
  {
  }

  /** Over any run of acknowledgements after gap-free sends, in any order and at any times: the next one
      leaves the map if and only if it starts the search at the saved entry and nothing stops it. */
  lemma RunLeavesExactly(m: Ranges, acks: seq<AckSeg>, a: AckSeg)
    requires AckState(m) && m != map[] && Contiguous(m) && AckAll(m, acks).Running?
    ensures var p := AckAll(m, acks).state;
      AckAll(m, acks + [a]).Died? <==> RunsPastFirst(p.ranges, p.saved, a)
  {
    hide ProcessAck, AckState, Contiguous, RunsPastFirst, KeptByMarking;
    assert (acks + [a])[..|acks|] == acks;
    ContiguousKept();
    AcksKeep(m, acks, Contiguous);
    var p := AckAll(m, acks).state;
    ProcessLeavesExactly(p.ranges, p.saved, a);
  }

  /** The quantity does not depend on what an acknowledgement writes. */
  ghost predicate AckBlind(f: Range -> int) {
    forall r: Range, r': Range :: AckOnly(r, r') ==> f(r') == f(r)
  }

  lemma TotalKept(f: Range -> int, total: int)
    requires Additive(f) && AckBlind(f)
    ensures KeptByMarking(m => Total(m, f) == total)
  {
    hide Total, Additive, AckBlind, Range.Left, Range.Right, AckOnly;
    var i := (m: Ranges) => Total(m, f) == total;
    forall m: Ranges, k: int, r: Range | i(m) && k in m && AckOnly(m[k], r)
      ensures i(m[k := r])
    {
      BlindAt(f, m[k], r);
      TotalUpdate(m, k, r, f);
    }
    forall m: Ranges, k: int, at: int | i(m) && Keyed(m) && Disjoint(m) && k in m && k < at < m[k].endSeq
      ensures i(SplitAt(m, k, at))
    {
      SplitDisjoint(m, k, at);
      SplitTotal(m, k, at, f);
    }
  }

  lemma BlindAt(f: Range -> int, r: Range, r': Range)
    requires AckBlind(f) && AckOnly(r, r')
    ensures f(r') == f(r)
  {
  }

  lemma EntryKept(p: Range -> bool)
    requires KeptBySplit(p) && forall r: Range, r': Range :: AckOnly(r, r') && p(r) ==> p(r')
    ensures KeptByMarking(m => AllEntries(m, p))
  {
    hide KeptBySplit, AckOnly;
    var i := (m: Ranges) => AllEntries(m, p);
    forall m: Ranges, k: int, at: int | i(m) && Keyed(m) && Disjoint(m) && k in m && k < at < m[k].endSeq
      ensures i(SplitAt(m, k, at))
    {
      SplitKeeps(m, k, at, p);
    }
  }

  lemma CuttingIsMarking(i: Ranges -> bool)
    requires KeptByCutting(i)
    ensures KeptByMarking(i)
  {
    forall r: Range, r': Range | AckOnly(r, r')
      ensures SameFirst(r, r')
    {
    }
  }

  /** No entry without bytes appears, and no key disappears. */
  ghost predicate Finer(m: Ranges, m': Ranges) {
    m.Keys <= m'.Keys && forall k :: k in m' && m'[k].Empty() ==> k in m && m[k].Empty()
  }

  lemma FinerKept(m: Ranges)
    ensures KeptByMarking(m' => Finer(m, m'))
  {
    hide Range.Left, Range.Right;
  }

  /** A finer map that holds the same bytes has the same shape. */
  lemma FinerShape(m: Ranges, m': Ranges, f: Front)
    requires Shape(m, f) && m != map[] && Keyed(m') && Disjoint(m') && Finer(m, m')
    requires forall b :: At(m', b).Some? <==> At(m, b).Some?
    ensures Shape(m', f)
  {
    forall b
      ensures Covered(m', b) <==> f.Lo() <= b < f.top
    {
      assert At(m', b).Some? <==> At(m, b).Some?;
    }
    forall k | k in m'
      ensures k <= f.last && m'[k].endSeq <= f.last
      ensures f.bareFin ==> k <= f.Base() && m'[k].endSeq <= f.Base()
    {
      if !m'[k].Empty() {
        assert Covers(m', k, k) && Covered(m', k);
        assert Covers(m', k, m'[k].endSeq - 1) && Covered(m', m'[k].endSeq - 1);
      }
    }
  }

  /** What an acknowledgement does not write about a byte. */
  ghost function Unmarked(i: Option<ByteInfo>): Option<ByteInfo> {
    if i.Some? then Some(i.value.(acked := false, ackTime := NO_TIME)) else None
  }

  ghost predicate SameCounts(m: Ranges, m': Ranges) {
    forall b :: Unmarked(At(m', b)) == Unmarked(At(m, b))
  }

  lemma TouchCounts(m: Ranges, k: int, r: Range)
    requires Keyed(m) && Disjoint(m) && k in m && AckOnly(m[k], r)
    ensures SameCounts(m, m[k := r])
  {
    forall b
      ensures Unmarked(At(m[k := r], b)) == Unmarked(At(m, b))
    {
      TouchByte(m, k, r, b);
      if Covers(m, k, b) {
        AtIs(m, k, b);
      }
    }
  }

  lemma SplitCounts(m: Ranges, k: int, at: int)
    requires Keyed(m) && Disjoint(m) && k in m && k < at < m[k].endSeq
    ensures SameCounts(m, SplitAt(m, k, at))
  {
    forall b
      ensures At(SplitAt(m, k, at), b) == At(m, b)
    {
      SplitByte(m, k, at, b);
    }
  }

  /** The map holds the same bytes with the same counts as `m0`. */
  lemma CountsKept(m0: Ranges)
    ensures KeptByMarking(m => AckState(m) && SameCounts(m0, m))
  {
    hide AckState, AckOnly, At, Range.Left, Range.Right, SplitAt, Unmarked;
    StateKept();
    var i := (m: Ranges) => AckState(m) && SameCounts(m0, m);
    forall m: Ranges, k: int, r: Range | i(m) && k in m && AckOnly(m[k], r)
      ensures i(m[k := r])
    {
      AckStateParts(m);
      TouchCounts(m, k, r);
    }
    forall m: Ranges, k: int, at: int | i(m) && Keyed(m) && Disjoint(m) && k in m && k < at < m[k].endSeq
      ensures i(SplitAt(m, k, at))
    {
      SplitCounts(m, k, at);
    }
  }

  /** Acknowledgements in any order and at any time keep the shape of the map, what it counts for each
      byte, and every sum over sends and receptions. */
  lemma AcksKeepRest(m: Ranges, acks: seq<AckSeg>, f: Front)
    requires AckState(m) && m != map[] && Shape(m, f)
    ensures var r := AckAll(m, acks); r.Running? ==>
      && Shape(r.state.ranges, f)
      && SameCounts(m, r.state.ranges)
      && Total(r.state.ranges, SentBytes) == Total(m, SentBytes)
      && Total(r.state.ranges, UniqueBytes) == Total(m, UniqueBytes)
      && Total(r.state.ranges, ReceivedBytes) == Total(m, ReceivedBytes)
      && Total(r.state.ranges, PacketsSent) == Total(m, PacketsSent)
      && Total(r.state.ranges, PacketsReceived) == Total(m, PacketsReceived)
  {
    hide Total, AckState, At, Finer, Shape, Additive, AckBlind, KeptByMarking, AckAll;
    FinerKept(m);
    FinerItself(m);
    AcksKeep(m, acks, m' => Finer(m, m'));
    CountsKept(m);
    AcksKeep(m, acks, m' => AckState(m') && SameCounts(m, m'));
    var r := AckAll(m, acks);
    if r.Running? {
      forall b
        ensures At(r.state.ranges, b).Some? <==> At(m, b).Some?
      {
        assert Unmarked(At(r.state.ranges, b)) == Unmarked(At(m, b));
      }
      AckStateParts(r.state.ranges);
      FinerShape(m, r.state.ranges, f);
    }
    QuantitiesAdditive();
    QuantitiesBlind();
    TotalKept(SentBytes, Total(m, SentBytes));
    AcksKeep(m, acks, x => Total(x, SentBytes) == Total(m, SentBytes));
    TotalKept(UniqueBytes, Total(m, UniqueBytes));
    AcksKeep(m, acks, x => Total(x, UniqueBytes) == Total(m, UniqueBytes));
    TotalKept(ReceivedBytes, Total(m, ReceivedBytes));
    AcksKeep(m, acks, x => Total(x, ReceivedBytes) == Total(m, ReceivedBytes));
    TotalKept(PacketsSent, Total(m, PacketsSent));
    AcksKeep(m, acks, x => Total(x, PacketsSent) == Total(m, PacketsSent));
    TotalKept(PacketsReceived, Total(m, PacketsReceived));
    AcksKeep(m, acks, x => Total(x, PacketsReceived) == Total(m, PacketsReceived));
  }

  lemma FinerItself(m: Ranges)
    ensures Finer(m, m)
  {
  }

  lemma AckStateParts(m: Ranges)
    requires AckState(m)
    ensures Keyed(m) && Disjoint(m)
  {
  }

  lemma QuantitiesBlind()
    ensures AckBlind(UniqueBytes) && AckBlind(SentBytes) && AckBlind(ReceivedBytes)
    ensures AckBlind(PacketsSent) && AckBlind(PacketsReceived)
  {
  }
}
