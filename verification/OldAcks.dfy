/** Acknowledgements that arrive out of order. `processAck` promises to keep the first acknowledgement
    time of every byte; with an older acknowledgement it may overwrite one. This is exactly when. */
module OldAcks {
  import opened Common
  import opened OrderedMap
  import opened ByteRanges
  import opened Index
  import opened ByteView
  import opened SendRun
  import opened Acks
  import opened AckStates
  import opened AckRun

  /** Every time recorded so far is still there. */
  ghost predicate KeepsMarks(m: Ranges, m': Ranges) {
    forall b :: At(m, b).Some? && At(m, b).value.acked ==> At(m', b) == At(m, b)
  }

  /** The acknowledgement ends strictly inside the saved entry, that entry is acknowledged already, and
      the times differ. (The saved entry is acknowledged when it ended at the highest acknowledgement.) */
  predicate Overwrites(m: Ranges, saved: Option<int>, a: AckSeg) {
    saved.Some? && saved.value in m &&
    var r := m[saved.value];
    r.startSeq < a.ack < r.endSeq && r.acked && r.ackTime != a.tstampPcap
  }

  /** No entry from `k` on makes the walk overwrite a time. */
  ghost predicate Harmless(m: Ranges, k: int, a: AckSeg) {
    forall j :: j in m && k <= j < a.ack < m[j].endSeq && m[j].acked ==> m[j].ackTime == a.tstampPcap
  }

  lemma InsideMarks(m: Ranges, k: int, a: AckSeg)
    requires AckState(m) && k in m && k < a.ack < m[k].endSeq
    ensures var cut := SplitAt(m, k, a.ack); var m' := cut[k := AckInside(cut[k], a)];
      && (!m[k].acked || m[k].ackTime == a.tstampPcap ==> KeepsMarks(m, m'))
      && (At(m', k).Some? && At(m', k).value.ackTime == a.tstampPcap)
  {
    hide AckOnly, Range.Left, Range.Right;
    var cut := SplitAt(m, k, a.ack);
    SplitDisjoint(m, k, a.ack);
    var r := AckInside(cut[k], a);
    forall b
      ensures At(cut[k := r], b) == if k <= b < a.ack then Some(r.Info()) else At(m, b)
      ensures k <= b < a.ack ==> At(m, b) == Some(m[k].Info())
    {
      SplitByte(m, k, a.ack, b);
      TouchByte(cut, k, r, b);
      if k <= b < a.ack {
        AtIs(m, k, b);
      }
    }
  }

  lemma TouchMarks(m: Ranges, k: int, r: Range)
    requires AckState(m) && k in m && r.SameSpan(m[k]) && (m[k].acked ==> r.Info() == m[k].Info())
    ensures KeepsMarks(m, m[k := r])
  {
    hide Range.Info;
    forall b
      ensures At(m, b).Some? && At(m, b).value.acked ==> At(m[k := r], b) == At(m, b)
    {
      TouchByte(m, k, r, b);
      if Covers(m, k, b) {
        AtIs(m, k, b);
        InfoAcked(m[k]);
      }
    }
  }

  lemma InfoAcked(r: Range)
    ensures r.Info().acked == r.acked
  {
  }

  lemma {:induction false} WalkKeepsMarks(m: Ranges, saved: Option<int>, k: int, a: AckSeg, ret: bool)
    requires AckState(m) && k in m && Harmless(m, k, a)
    ensures var r := AckFrom(m, saved, k, a, ret); r.Processed? ==> KeepsMarks(m, r.ranges)
    decreases LastKey(m).value - k
  {
    hide Range.Info, AckInside, AckExact, AckBeyond, AckBefore, AckOnly, NextKey, LastKey, Disjoint, KeepsMarks, At;
    if CoversExactly(m[k], a.ack) {
      ExactMarks(m, saved, k, a);
    } else if a.ack > m[k].endSeq {
      if !a.tstampPcap.Before(m[k].sentTstampPcap[0].time) {
        var m' := m[k := AckBeyond(m[k], a)];
        BeyondState(m, k, a);
        TouchMarks(m, k, AckBeyond(m[k], a));
        if NextKey(m, k).Some? {
          WalkKeepsMarks(m', Some(k), NextKey(m, k).value, a, ret || !m[k].acked);
          var r := AckFrom(m', Some(k), NextKey(m, k).value, a, ret || !m[k].acked);
          if r.Processed? {
            MarksTrans(m, m', r.ranges);
          }
        }
      } else {
        MarksSame(m);
      }
    } else if a.ack > m[k].startSeq {
      InsideMarks(m, k, a);
    } else {
      BeforeCounts(m, saved, k, a);
      var r := AckBefore(m, saved, k, a);
      if r.Processed? {
        CountedMarks(m, r.ranges);
      }
    }
  }

  lemma ExactMarks(m: Ranges, saved: Option<int>, k: int, a: AckSeg)
    requires AckState(m) && k in m
    ensures KeepsMarks(m, m[k := AckExact(m[k], a, saved == Some(k))])
  {
    hide AckExact;
    TouchMarks(m, k, AckExact(m[k], a, saved == Some(k)));
  }

  lemma CountedMarks(m: Ranges, m': Ranges)
    requires AckState(m) && OnlyCounted(m, m')
    ensures KeepsMarks(m, m')
  {
    OnlyCountedKeeps(m, m');
  }

  lemma MarksTrans(m: Ranges, m1: Ranges, m2: Ranges)
    requires KeepsMarks(m, m1) && KeepsMarks(m1, m2)
    ensures KeepsMarks(m, m2)
  {
    forall b | At(m, b).Some? && At(m, b).value.acked
      ensures At(m2, b) == At(m, b)
    {
      assert At(m1, b) == At(m, b);
    }
  }

  lemma MarksSame(m: Ranges)
    ensures KeepsMarks(m, m)
  {
  }

  /** Where the acknowledged bytes are those below some mark and the saved entry fits, any acknowledgement
      whatever keeps the recorded times if and only if it does not end strictly inside the saved, already
      acknowledged entry with a different time. */
  lemma TimesSurviveExactly(m: Ranges, saved: Option<int>, a: AckSeg)
    requires AckState(m) && m != map[] && Marked(m, saved) && SavedIn(m, saved)
    ensures var r := ProcessAck(m, saved, a); r.Processed? ==>
      (KeepsMarks(m, r.ranges) <==> !Overwrites(m, saved, a))
  {
    var high :| AckedBelow(m, high) && SavedSound(m, saved, high);
    var k := if saved.Some? then saved.value else FirstKey(m).value;
    if Overwrites(m, saved, a) {
      InsideMarks(m, k, a);
      AtIs(m, k, k);
    } else if a.ack < k {
      MarksSame(m);
    } else {
      HarmlessFrom(m, saved, a, high, k);
      WalkKeepsMarks(m, saved, k, a, false);
    }
  }

  lemma HarmlessFrom(m: Ranges, saved: Option<int>, a: AckSeg, high: int, k: int)
    requires AckState(m) && AckedBelow(m, high) && SavedSound(m, saved, high) && !Overwrites(m, saved, a)
    requires k in m && (saved.Some? ==> saved.value == k)
    ensures Harmless(m, k, a)
  {
    forall j | j in m && k <= j < a.ack < m[j].endSeq && m[j].acked
      ensures m[j].ackTime == a.tstampPcap
    {
      assert Covers(m, j, j);
      AtIs(m, j, j);
      if saved != Some(j) {
        assert false;
      }
    }
  }

  // ---------- whole runs of acknowledgements in any order ----------

  lemma {:induction false} PrefixRuns(m: Ranges, acks: seq<AckSeg>, i: nat)
    requires AckState(m) && m != map[] && i <= |acks| && AckAll(m, acks).Running?
    ensures AckAll(m, acks[..i]).Running?
    decreases |acks|
  {
    hide ProcessAck, AckState;
    if i == |acks| {
      assert acks[..i] == acks;
    } else {
      var n := |acks| - 1;
      assert acks[..n][..i] == acks[..i];
      PrefixRuns(m, acks[..n], i);
    }
  }

  /** The state before acknowledgement `i`. */
  ghost function PhaseAt(m: Ranges, acks: seq<AckSeg>, i: nat): (p: AckPhase)
    requires AckState(m) && m != map[] && i <= |acks| && AckAll(m, acks).Running?
    ensures AckState(p.ranges) && p.ranges != map[] && SavedIn(p.ranges, p.saved)
  {
    PrefixRuns(m, acks, i);
    AckAll(m, acks[..i]).state
  }

  /** Acknowledgement `i` of the run overwrites a recorded time. */
  ghost predicate OverwritesAt(m: Ranges, acks: seq<AckSeg>, i: nat)
    requires AckState(m) && m != map[] && i < |acks| && AckAll(m, acks).Running?
  {
    var p := PhaseAt(m, acks, i);
    Overwrites(p.ranges, p.saved, acks[i])
  }

  lemma TimesSurviveAt(m: Ranges, acks: seq<AckSeg>, i: nat)
    requires AckState(m) && m != map[] && Unacked(m) && i < |acks| && AckAll(m, acks).Running?
    ensures KeepsMarks(PhaseAt(m, acks, i).ranges, PhaseAt(m, acks, i + 1).ranges) <==> !OverwritesAt(m, acks, i)
  {
    hide ProcessAck, AckState, Overwrites, KeepsMarks, Marked, SavedReached;
    PrefixRuns(m, acks, i);
    PrefixRuns(m, acks, i + 1);
    assert acks[..i + 1][..i] == acks[..i];
    var p := AckAll(m, acks[..i]).state;
    AcksSteady(m, acks[..i]);
    TimesSurviveExactly(p.ranges, p.saved, acks[i]);
  }

  /** Over any run of acknowledgements after the sends, in any order and at any times: a call keeps all
      recorded times if and only if its acknowledgement does not overwrite; and if none of the run does,
      every time that is ever recorded is still there at the end. */
  lemma TimesSurviveRun(m: Ranges, acks: seq<AckSeg>)
    requires AckState(m) && m != map[] && Unacked(m) && AckAll(m, acks).Running?
    ensures forall i :: 0 <= i < |acks| ==>
      (KeepsMarks(PhaseAt(m, acks, i).ranges, PhaseAt(m, acks, i + 1).ranges) <==> !OverwritesAt(m, acks, i))
    ensures (forall i :: 0 <= i < |acks| ==> !OverwritesAt(m, acks, i)) ==>
      forall i :: 0 <= i <= |acks| ==> KeepsMarks(PhaseAt(m, acks, i).ranges, PhaseAt(m, acks, |acks|).ranges)
  {
    hide AckState, KeepsMarks, OverwritesAt, PhaseAt, AckAll;
    forall i | 0 <= i < |acks|
      ensures KeepsMarks(PhaseAt(m, acks, i).ranges, PhaseAt(m, acks, i + 1).ranges) <==> !OverwritesAt(m, acks, i)
    {
      TimesSurviveAt(m, acks, i);
    }
    if forall i :: 0 <= i < |acks| ==> !OverwritesAt(m, acks, i) {
      forall i | 0 <= i <= |acks|
        ensures KeepsMarks(PhaseAt(m, acks, i).ranges, PhaseAt(m, acks, |acks|).ranges)
      {
        MarksChain(m, acks, i);
      }
    }
  }

  lemma {:induction false} MarksChain(m: Ranges, acks: seq<AckSeg>, i: nat)
    requires AckState(m) && m != map[] && i <= |acks| && AckAll(m, acks).Running?
    requires forall j :: 0 <= j < |acks| ==> KeepsMarks(PhaseAt(m, acks, j).ranges, PhaseAt(m, acks, j + 1).ranges)
    ensures KeepsMarks(PhaseAt(m, acks, i).ranges, PhaseAt(m, acks, |acks|).ranges)
    decreases |acks| - i
  {
    hide AckState, KeepsMarks, PhaseAt, AckAll;
    if i == |acks| {
      MarksSame(PhaseAt(m, acks, i).ranges);
    } else {
      MarksChain(m, acks, i + 1);
      MarksTrans(PhaseAt(m, acks, i).ranges, PhaseAt(m, acks, i + 1).ranges, PhaseAt(m, acks, |acks|).ranges);
    }
  }
}
