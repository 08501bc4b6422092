/** The counters that acknowledgements leave in the index: which one counts as a duplicate, and on how many
    entries an acknowledgement is counted. */
module AckCounts {
  import opened Common
  import opened OrderedMap
  import opened ByteRanges
  import opened Index
  import opened ByteView
  import opened Accounting
  import opened SendRun
  import opened Acks
  import opened AckStates
  import opened AckRun

  function Duplicates(r: Range): int {
    r.dupackCount
  }

  function AckCount(r: Range): int {
    r.ackCount
  }

  lemma CountersAdditive()
    ensures Additive(Duplicates) && Additive(AckCount)
  {
  }

  /** The acknowledgement repeats the last one: it ends exactly at the saved entry, which is acknowledged
      already, with the same window, and the window is open. */
  predicate Repeats(m: Ranges, saved: Option<int>, a: AckSeg) {
    saved.Some? && saved.value in m &&
    var r := m[saved.value];
    CoversExactly(r, a.ack) && r.acked && 0 < a.window == r.tcpWindow
  }

  /** The walk goes through to an entry that ends at the acknowledgement, or holds its number. */
  predicate Lands(m: Ranges, k: int, a: AckSeg)
    requires Keyed(m) && SentOnce(m) && k in m
    decreases LastKey(m).value - k
  {
    if CoversExactly(m[k], a.ack) || m[k].startSeq < a.ack < m[k].endSeq then true
    else if a.ack <= m[k].startSeq || a.tstampPcap.Before(m[k].sentTstampPcap[0].time) then false
    else match NextKey(m, k)
      case None => false
      case Some(n) => Lands(m, n, a)
  }

  /** What counting an acknowledgement on one entry adds to the sums. */
  lemma TouchSums(m: Ranges, k: int, r: Range, dup: int, counted: int)
    requires k in m && r.dupackCount == m[k].dupackCount + dup && r.ackCount == m[k].ackCount + counted
    ensures Total(m[k := r], Duplicates) == Total(m, Duplicates) + dup
    ensures Total(m[k := r], AckCount) == Total(m, AckCount) + counted
  {
    TotalUpdate(m, k, r, Duplicates);
    TotalUpdate(m, k, r, AckCount);
  }

  lemma InsideSums(m: Ranges, k: int, a: AckSeg)
    requires AckState(m) && k in m && k < a.ack < m[k].endSeq
    ensures var cut := SplitAt(m, k, a.ack); var m' := cut[k := AckInside(cut[k], a)];
      && Total(m', Duplicates) == Total(m, Duplicates)
      && Total(m', AckCount) == Total(m, AckCount) + 1
  {
    hide Range.Info;
    CountersAdditive();
    SplitDisjoint(m, k, a.ack);
    SplitTotal(m, k, a.ack, Duplicates);
    SplitTotal(m, k, a.ack, AckCount);
    var cut := SplitAt(m, k, a.ack);
    var r := AckInside(cut[k], a);
    assert r.dupackCount == cut[k].dupackCount && r.ackCount == cut[k].ackCount + 1;
    hide AckInside, SplitAt, Total, Additive;
    TouchSums(cut, k, r, 0, 1);
  }

  /** An acknowledgement of old data counts on one entry or on none. */
  lemma CountedSums(m: Ranges, m': Ranges)
    requires OnlyCounted(m, m')
    ensures Total(m', Duplicates) == Total(m, Duplicates)
    ensures Total(m', AckCount) == Total(m, AckCount) + (if m' == m then 0 else 1)
  {
    hide Total;
    if m' != m {
      var p :| p in m && m' == m[p := CountAck(m[p])];
      var r := CountAck(m[p]);
      assert r.dupackCount == m[p].dupackCount && r.ackCount == m[p].ackCount + 1;
      TouchSums(m, p, r, 0, 1);
    }
  }

  lemma ExactSums(m: Ranges, k: int, a: AckSeg, isSaved: bool)
    requires k in m
    ensures var m' := m[k := AckExact(m[k], a, isSaved)];
      && Total(m', Duplicates) == Total(m, Duplicates) + (if isSaved && m[k].acked && 0 < a.window == m[k].tcpWindow then 1 else 0)
      && Total(m', AckCount) == Total(m, AckCount) + 1
  {
    hide Total, Range.Info;
    var dup := if isSaved && m[k].acked && 0 < a.window == m[k].tcpWindow then 1 else 0;
    var r := AckExact(m[k], a, isSaved);
    assert r.dupackCount == m[k].dupackCount + dup && r.ackCount == m[k].ackCount + 1;
    hide AckExact;
    TouchSums(m, k, r, dup, 1);
  }

  /** Landing does not depend on the marks. */
  lemma {:induction false} LandsStill(m: Ranges, m': Ranges, k: int, a: AckSeg)
    requires Keyed(m) && SentOnce(m) && Keyed(m') && SentOnce(m') && k in m && m'.Keys == m.Keys
    requires forall j :: j in m && k <= j ==> m'[j] == m[j]
    ensures Lands(m', k, a) == Lands(m, k, a)
    decreases LastKey(m).value - k
  {
    SameKeys(m, m', k);
    if NextKey(m, k).Some? {
      hide NextKey, LastKey;
      LandsStill(m, m', NextKey(m, k).value, a);
    }
  }

  lemma BeyondSums(m: Ranges, k: int, a: AckSeg)
    requires AckState(m) && k in m
    ensures var m' := m[k := AckBeyond(m[k], a)];
      && Total(m', Duplicates) == Total(m, Duplicates) && Total(m', AckCount) == Total(m, AckCount)
      && AckState(m') && NextKey(m', k) == NextKey(m, k) && LastKey(m') == LastKey(m)
      && (NextKey(m, k).Some? ==> Lands(m', NextKey(m, k).value, a) == Lands(m, NextKey(m, k).value, a))
  {
    hide Range.Info, Lands, NextKey, LastKey;
    BeyondState(m, k, a);
    var r := AckBeyond(m[k], a);
    assert r.dupackCount == m[k].dupackCount && r.ackCount == m[k].ackCount;
    hide AckBeyond, Total;
    TouchSums(m, k, r, 0, 0);
    if NextKey(m, k).Some? {
      assert NextKey(m, k).value > k by { NextBehind(m, k); }
      LandsStill(m, m[k := r], NextKey(m, k).value, a);
    }
  }

  lemma NextBehind(m: Ranges, k: int)
    requires NextKey(m, k).Some?
    ensures NextKey(m, k).value > k && NextKey(m, k).value in m
  {
  }

  lemma {:induction false} WalkSums(m: Ranges, saved: Option<int>, k: int, a: AckSeg, ret: bool)
    requires AckState(m) && k in m && (saved.Some? ==> saved.value <= k)
    ensures var r := AckFrom(m, saved, k, a, ret); r.Processed? ==>
      && Total(r.ranges, Duplicates) == Total(m, Duplicates) + (if saved == Some(k) && Repeats(m, saved, a) then 1 else 0)
      && 0 <= Total(r.ranges, AckCount) - Total(m, AckCount) <= 1
      && (Lands(m, k, a) ==> Total(r.ranges, AckCount) == Total(m, AckCount) + 1)
    decreases LastKey(m).value - k
  {
    hide Range.Info, AckExact, AckInside, AckBeyond, AckBefore, AckOnly, OnlyCounted, Disjoint, NextKey, LastKey, Total;
    if CoversExactly(m[k], a.ack) {
      ExactSums(m, k, a, saved == Some(k));
    } else if a.ack > m[k].endSeq {
      if !a.tstampPcap.Before(m[k].sentTstampPcap[0].time) {
        BeyondSums(m, k, a);
        if NextKey(m, k).Some? {
          NextBehind(m, k);
          WalkSums(m[k := AckBeyond(m[k], a)], Some(k), NextKey(m, k).value, a, ret || !m[k].acked);
        }
      }
    } else if a.ack > m[k].startSeq {
      InsideSums(m, k, a);
    } else {
      BeforeCounts(m, saved, k, a);
      var r := AckBefore(m, saved, k, a);
      if r.Processed? {
        CountedSums(m, r.ranges);
      }
    }
  }

  /** A duplicate is counted if and only if the acknowledgement repeats the last one; and no acknowledgement is
      counted on more than one entry, on exactly one if the walk lands. */
  lemma DuplicatesExactly(m: Ranges, saved: Option<int>, a: AckSeg)
    requires AckState(m) && m != map[] && SavedIn(m, saved)
    ensures var r := ProcessAck(m, saved, a); r.Processed? ==>
      && Total(r.ranges, Duplicates) == Total(m, Duplicates) + (if Repeats(m, saved, a) then 1 else 0)
      && 0 <= Total(r.ranges, AckCount) - Total(m, AckCount) <= 1
      && var k := if saved.Some? then saved.value else FirstKey(m).value;
      (k <= a.ack && Lands(m, k, a) ==> Total(r.ranges, AckCount) == Total(m, AckCount) + 1)
  {
    hide Total, AckFrom, Lands, Range.Info;
    var k := if saved.Some? then saved.value else FirstKey(m).value;
    if a.ack >= k {
      WalkSums(m, saved, k, a, false);
    } else {
      KeyedEnds(m, k);
    }
  }

  lemma KeyedEnds(m: Ranges, k: int)
    requires Keyed(m) && k in m
    ensures k <= m[k].endSeq
  {
  }

  /** An entry ends at the acknowledgement and has its window. */
  ghost predicate WindowAt(m: Ranges, a: AckSeg) {
    exists k :: k in m && CoversExactly(m[k], a.ack) && m[k].tcpWindow == a.window && m[k].ackCount > 0
  }

  /** Where the walk lands it leaves the window of the acknowledgement. */
  lemma {:induction false} LandsWithWindow(m: Ranges, saved: Option<int>, k: int, a: AckSeg, ret: bool)
    requires AckState(m) && k in m && Lands(m, k, a)
    ensures var r := AckFrom(m, saved, k, a, ret); r.Processed? && r.ret && WindowAt(r.ranges, a)
    decreases LastKey(m).value - k
  {
    hide Range.Info, AckBeyond, AckBefore, AckOnly, Disjoint, NextKey, LastKey, Total;
    if CoversExactly(m[k], a.ack) {
      var r := AckExact(m[k], a, saved == Some(k));
      assert r.endSeq == m[k].endSeq && r.byteCount == m[k].byteCount && r.tcpWindow == a.window && r.ackCount > 0;
      hide AckExact;
      assert k in m[k := r] && CoversExactly(m[k := r][k], a.ack);
    } else if a.ack > m[k].endSeq {
      BeyondSums(m, k, a);
      NextBehind(m, k);
      LandsWithWindow(m[k := AckBeyond(m[k], a)], Some(k), NextKey(m, k).value, a, ret || !m[k].acked);
    } else {
      SplitDisjoint(m, k, a.ack);
      var cut := SplitAt(m, k, a.ack);
      var r := AckInside(cut[k], a);
      assert r.endSeq == a.ack && r.tcpWindow == a.window && r.ackCount > 0;
      hide AckInside;
      assert k in cut[k := r] && CoversExactly(cut[k := r][k], a.ack);
    }
  }

  // ---------- acknowledgements of old data ----------

  /** Entry `q` is the last one up to `p` that ends at or below the acknowledgement. */
  ghost predicate LastEndedBy(m: Ranges, p: int, q: int, x: int) {
    q in m && q <= p && m[q].endSeq <= x && forall j :: j in m && q < j <= p ==> x < m[j].endSeq
  }

  /** The backward search finds the last entry that ends at or below the acknowledgement, counts the acknowledgement
      on it if it ends there, and answers false if there is none. */
  lemma {:induction false} OldAckExactly(m: Ranges, saved: Option<int>, p: int, a: AckSeg)
    requires p in m
    ensures (forall q :: q in m && q <= p ==> a.ack < m[q].endSeq) ==> OldAck(m, saved, p, a) == Processed(m, saved, false)
    ensures forall q :: LastEndedBy(m, p, q, a.ack) ==>
      OldAck(m, saved, p, a) == Processed(if m[q].endSeq == a.ack then m[q := CountAck(m[q])] else m, saved, true)
    decreases set k | k in m && k < p
  {
    hide CountAck, Range.Info;
    if a.ack < m[p].endSeq && PrevKey(m, p).Some? {
      var b := PrevKey(m, p).value;
      assert b in (set k | k in m && k < p);
      OldAckExactly(m, saved, b, a);
      hide PrevKey;
      assert forall j :: j in m && j <= p ==> j == p || j <= b by { BeforeIsPrev(m, p, b); }
      forall q | LastEndedBy(m, p, q, a.ack)
        ensures LastEndedBy(m, b, q, a.ack)
      {
      }
    }
  }

  lemma BeforeIsPrev(m: Ranges, p: int, b: int)
    requires PrevKey(m, p) == Some(b)
    ensures forall j :: j in m && j < p ==> j <= b
  {
  }

  /** The search for a FIN ends at the last entry up to `p` with a FIN or with equal counters. */
  ghost predicate SearchEnds(m: Ranges, p: int, q: int) {
    && q in m && q <= p && (m[q].fin > 0 || m[q].packetSentCount == m[q].dataSentCount)
    && forall j :: j in m && q < j <= p ==> m[j].fin == 0 && m[j].packetSentCount != m[j].dataSentCount
  }

  lemma {:induction false} SearchFinExactly(m: Ranges, p: int)
    requires p in m
    ensures forall q :: SearchEnds(m, p, q) ==> SearchFin(m, p) == if m[q].fin > 0 then FinAt(q) else StopsAt(q)
    decreases set k | k in m && k < p
  {
    if m[p].fin == 0 && m[p].packetSentCount != m[p].dataSentCount && PrevKey(m, p).Some? {
      var b := PrevKey(m, p).value;
      assert b in (set k | k in m && k < p);
      SearchFinExactly(m, b);
      BeforeIsPrev(m, p, b);
      hide PrevKey;
      forall q | SearchEnds(m, p, q)
        ensures SearchEnds(m, b, q)
      {
      }
    }
  }

  /** An acknowledgement below the saved entry changes nothing, and is answered true all the same. One of its start
      is counted on the entry that ends there; if the entry before ends one lower, it is counted on the FIN that the
      search finds, or on none; and it is answered false only at the front of the map. */
  lemma OldAcknowledged(m: Ranges, k: int, a: AckSeg, p: int, q: int)
    requires AckState(m) && k in m && !m[k].Empty()
    ensures m != map[] && (a.ack < k ==> ProcessAck(m, Some(k), a) == Processed(m, Some(k), true))
    ensures a.ack == k && PrevKey(m, k).None? ==> ProcessAck(m, Some(k), a) == Processed(m, Some(k), false)
    ensures a.ack == k && PrevKey(m, k) == Some(p) && m[p].endSeq == k ==>
      ProcessAck(m, Some(k), a) == Processed(m[p := CountAck(m[p])], Some(k), true)
    ensures a.ack == k && PrevKey(m, k) == Some(p) && m[p].endSeq == k - 1 && SearchEnds(m, p, q) ==>
      ProcessAck(m, Some(k), a) == Processed(if m[q].fin > 0 then m[q := CountAck(m[q])] else m, Some(k), true)
  {
    hide CountAck, Range.Info, PrevKey;
    KeyedEnds(m, k);
    if a.ack == k && PrevKey(m, k) == Some(p) && m[p].endSeq == k - 1 && SearchEnds(m, p, q) {
      SearchFinExactly(m, p);
      LowerEnd(m, p, q);
    }
  }

  /** An earlier entry ends no later. */
  lemma LowerEnd(m: Ranges, p: int, q: int)
    requires AckState(m) && p in m && q in m && q <= p
    ensures m[q].endSeq <= m[p].endSeq
  {
  }

  /** An entry without bytes, such as a pure ACK makes, is marked by an acknowledgement of its number if and only if
      its first regular transmission does not echo the acknowledgement's stamp: then it is not the answer to it. */
  lemma AnswerIsNotMarked(m: Ranges, k: int, a: AckSeg)
    requires AckState(m) && k in m && m[k].Empty() && !m[k].acked && (a.ack == k || a.ack == k + 1)
    ensures var r := ProcessAck(m, Some(k), a);
      && r.Processed? && r.ret && r.saved == Some(k) && k in r.ranges
      && (r.ranges[k].acked <==> |m[k].tstampsTcp| > 0 && m[k].tstampsTcp[0].echo != a.tstampTcp)
      && (r.ranges[k].acked ==> r.ranges[k].ackTime == a.tstampPcap)
      && forall j :: j in m && j != k ==> r.ranges[j] == m[j]
  {
    hide Range.Info;
  }

  /** Of two acknowledgements that both end at the saved entry, the second is counted as a duplicate if and only
      if its window is that of the first and open. */
  lemma SecondRepeats(m: Ranges, k: int, a: AckSeg, b: AckSeg)
    requires AckState(m) && k in m && !m[k].Empty() && a.ack == b.ack == m[k].endSeq
    ensures var r1 := ProcessAck(m, Some(k), a);
      && r1.Processed? && r1.saved == Some(k) && AckState(r1.ranges) && r1.ranges != map[] && k in r1.ranges
      && var r2 := ProcessAck(r1.ranges, r1.saved, b);
      r2.Processed? && Total(r2.ranges, Duplicates) == Total(r1.ranges, Duplicates) + (if 0 < b.window == a.window then 1 else 0)
  {
    hide Range.Info, Total;
    KeyedEnds(m, k);
    var r := AckExact(m[k], a, true);
    TouchDisjoint(m, k, r);
    assert r.acked && r.tcpWindow == a.window && CoversExactly(r, b.ack);
    hide AckExact;
    var m1 := m[k := r];
    assert ProcessAck(m, Some(k), a) == Processed(m1, Some(k), true);
    StillSent(m, k, r);
    assert AckState(m1);
    assert ProcessAck(m1, Some(k), b).Processed?;
    hide ProcessAck, Disjoint;
    DuplicatesExactly(m1, Some(k), b);
  }

  /** How many acknowledgements of a run repeat the one before. */
  ghost function RepeatsIn(m: Ranges, acks: seq<AckSeg>): nat
    requires AckState(m) && m != map[]
  {
    if acks == [] then 0 else
      var n := |acks| - 1;
      var before := AckAll(m, acks[..n]);
      RepeatsIn(m, acks[..n]) +
      (if before.Running? && Repeats(before.state.ranges, before.state.saved, acks[n]) then 1 else 0)
  }

  /** Over any run of acknowledgements, the duplicates counted are the repeated acknowledgements. */
  lemma {:induction false} DuplicatesOfRun(m: Ranges, acks: seq<AckSeg>)
    requires AckState(m) && m != map[]
    ensures var r := AckAll(m, acks); r.Running? ==>
      && Total(r.state.ranges, Duplicates) == Total(m, Duplicates) + RepeatsIn(m, acks)
      && 0 <= Total(r.state.ranges, AckCount) - Total(m, AckCount) <= |acks|
  {
    hide Total, ProcessAck, AckState, Lands, Repeats;
    if acks != [] {
      var n := |acks| - 1;
      DuplicatesOfRun(m, acks[..n]);
      var r := AckAll(m, acks[..n]);
      if r.Running? {
        DuplicatesExactly(r.state.ranges, r.state.saved, acks[n]);
      }
    }
  }
}
