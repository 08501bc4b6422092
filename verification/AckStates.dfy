/** What every acknowledgement keeps, whatever its number and its time: the acknowledged bytes are those
    below some mark, and the saved entry lies where they end. */
module AckStates {
  import opened Common
  import opened OrderedMap
  import opened ByteRanges
  import opened Index
  import opened ByteView
  import opened Acks

  /** The acknowledged bytes are those below some mark, and the saved entry fits it. */
  ghost predicate Marked(m: Ranges, saved: Option<int>) {
    exists high :: AckedBelow(m, high) && SavedSound(m, saved, high)
  }

  /** The saved entry lies below `top`; one that reaches beyond was split off right behind held bytes. */
  ghost predicate SavedReached(m: Ranges, saved: Option<int>, top: int) {
    saved.Some? ==>
      && saved.value in m && saved.value <= top
      && (m[saved.value].Empty() || m[saved.value].endSeq <= top || Covered(m, saved.value - 1))
  }

  ghost predicate Steady(m: Ranges, saved: Option<int>, top: int) {
    AckState(m) && Marked(m, saved) && SavedReached(m, saved, top)
  }

  /** The acknowledged bytes end in or around entry `k`. */
  ghost predicate Frontier(m: Ranges, k: int) {
    && k in m
    && (forall b :: At(m, b).Some? && b < k ==> At(m, b).value.acked)
    && (forall b :: At(m, b).Some? && m[k].endSeq <= b ==> !At(m, b).value.acked)
  }

  /** Saving an acknowledged entry at which the acknowledged bytes end. */
  lemma FrontierSteady(m: Ranges, k: int, top: int)
    requires AckState(m) && Frontier(m, k) && (m[k].acked || m[k].Empty()) && m[k].endSeq <= top
    ensures Steady(m, Some(k), top)
  {
    forall b | At(m, b).Some?
      ensures At(m, b).value.acked <==> b < m[k].endSeq
    {
      if k <= b < m[k].endSeq {
        AtIs(m, k, b);
      }
    }
    assert forall b :: Covered(m, b) <==> At(m, b).Some?;
    assert AckedBelow(m, m[k].endSeq) && SavedSound(m, Some(k), m[k].endSeq);
  }

  /** Marking the entry at the frontier leaves it the frontier. */
  lemma TouchFrontier(m: Ranges, k: int, r: Range)
    requires AckState(m) && Frontier(m, k) && r.SameSpan(m[k]) && |r.sentTstampPcap| > 0
    ensures AckState(m[k := r]) && Frontier(m[k := r], k)
  {
    TouchDisjoint(m, k, r);
    var m' := m[k := r];
    assert m'[k].endSeq == m[k].endSeq;
    forall b | b < k || m[k].endSeq <= b
      ensures At(m', b) == At(m, b)
    {
      TouchByte(m, k, r, b);
    }
  }

  /** The frontier moves on to the next entry. */
  lemma NextFrontier(m: Ranges, k: int)
    requires AckState(m) && Frontier(m, k) && m[k].acked && NextKey(m, k).Some?
    ensures Frontier(m, NextKey(m, k).value)
  {
    var n := NextKey(m, k).value;
    forall b | At(m, b).Some? && b < n
      ensures At(m, b).value.acked
    {
      if m[k].endSeq <= b {
        NothingBetween(m, k, b);
      } else if k <= b {
        AtIs(m, k, b);
      }
    }
  }

  /** Splitting the frontier's entry at the acknowledgement, whether it was acknowledged before or not. */
  lemma InsideSteady(m: Ranges, k: int, a: AckSeg, top: int)
    requires AckState(m) && Frontier(m, k) && k < a.ack < m[k].endSeq && a.ack <= top
    ensures var cut := SplitAt(m, k, a.ack); Steady(cut[k := AckInside(cut[k], a)], Some(a.ack), top)
  {
    var cut := SplitAt(m, k, a.ack);
    SplitDisjoint(m, k, a.ack);
    var r := AckInside(cut[k], a);
    var m' := cut[k := r];
    TouchDisjoint(cut, k, r);
    var high := if m[k].acked then m[k].endSeq else a.ack;
    forall b
      ensures At(m', b).Some? ==> (At(m', b).value.acked <==> b < high)
    {
      SplitByte(m, k, a.ack, b);
      TouchByte(cut, k, r, b);
      if k <= b < m[k].endSeq {
        AtIs(m, k, b);
      }
    }
    assert Covers(m', k, a.ack - 1);
    assert forall b :: Covered(m', b) <==> At(m', b).Some?;
    assert AckedBelow(m', high) && SavedSound(m', Some(a.ack), high);
  }

  /** Counting an acknowledgement of old data. */
  lemma CountedSteady(m: Ranges, m': Ranges, saved: Option<int>, top: int)
    requires Steady(m, saved, top) && OnlyCounted(m, m')
    ensures Steady(m', saved, top)
  {
    OnlyCountedKeeps(m, m');
    assert forall b :: Covered(m', b) <==> At(m', b).Some?;
    assert forall b :: Covered(m, b) <==> At(m, b).Some?;
    var high :| AckedBelow(m, high) && SavedSound(m, saved, high);
    assert AckedBelow(m', high) && SavedSound(m', saved, high);
  }

  lemma SteadyUp(m: Ranges, saved: Option<int>, top: int, top': int)
    requires Steady(m, saved, top) && top <= top'
    ensures Steady(m, saved, top')
  {
  }

  lemma {:induction false} WalkSteady(m: Ranges, saved: Option<int>, k: int, a: AckSeg, ret: bool, top: int)
    requires Steady(m, saved, top) && Frontier(m, k) && k in m && a.ack <= top
    ensures var r := AckFrom(m, saved, k, a, ret); r.Processed? ==> Steady(r.ranges, r.saved, top)
    decreases LastKey(m).value - k
  {
    hide Range.Info, AckExact, AckInside, AckBeyond, AckBefore, Marked, SavedReached, Frontier, NextKey, LastKey, Disjoint;
    if CoversExactly(m[k], a.ack) {
      TouchFrontier(m, k, AckExact(m[k], a, saved == Some(k)));
      FrontierSteady(m[k := AckExact(m[k], a, saved == Some(k))], k, top);
    } else if a.ack > m[k].endSeq {
      if !a.tstampPcap.Before(m[k].sentTstampPcap[0].time) {
        var m' := m[k := AckBeyond(m[k], a)];
        BeyondState(m, k, a);
        TouchFrontier(m, k, AckBeyond(m[k], a));
        FrontierSteady(m', k, top);
        if NextKey(m, k).Some? {
          NextFrontier(m', k);
          WalkSteady(m', Some(k), NextKey(m, k).value, a, ret || !m[k].acked, top);
        }
      }
    } else if a.ack > m[k].startSeq {
      InsideSteady(m, k, a, top);
    } else {
      BeforeCounts(m, saved, k, a);
      var r := AckBefore(m, saved, k, a);
      if r.Processed? {
        CountedSteady(m, r.ranges, saved, top);
      }
    }
  }

  lemma StartFrontier(m: Ranges, saved: Option<int>)
    requires AckState(m) && m != map[] && Marked(m, saved)
    ensures Frontier(m, if saved.Some? then saved.value else FirstKey(m).value)
  {
    var k := if saved.Some? then saved.value else FirstKey(m).value;
    var high :| AckedBelow(m, high) && SavedSound(m, saved, high);
    assert forall b :: Covered(m, b) <==> At(m, b).Some?;
    forall b | At(m, b).Some? && (b < k || m[k].endSeq <= b)
      ensures At(m, b).value.acked <==> b < k
    {
      assert Covered(m, b);
    }
  }

  /** Every acknowledgement, late or early, in or out of order, leaves a state of the same kind. */
  lemma AckSteady(m: Ranges, saved: Option<int>, a: AckSeg, top: int)
    requires Steady(m, saved, top) && m != map[] && SavedIn(m, saved)
    ensures var r := ProcessAck(m, saved, a); r.Processed? ==> Steady(r.ranges, r.saved, Max(top, a.ack))
  {
    hide AckFrom, Range.Info, Marked, SavedReached;
    SteadyUp(m, saved, top, Max(top, a.ack));
    var k := if saved.Some? then saved.value else FirstKey(m).value;
    if a.ack >= k {
      StartFrontier(m, saved);
      WalkSteady(m, saved, k, a, false, Max(top, a.ack));
    }
  }
}
