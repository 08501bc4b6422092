/** How an insertion can end early: exactly which segments trip the recursion guard of `insertByteRange`
    (RECURSION_LEVEL), and exactly which receptions fail one of its assertions. */
module Recursion {
  import opened Common
  import opened OrderedMap
  import opened ByteRanges
  import opened Index
  import opened ByteView
  import opened Insertion

  /** The boundaries strictly inside the segment at which the recursion goes one level deeper. */
  function Inner(m: Ranges, s: int, e: int, base: int): set<int> {
    set k | k in m.Keys + {base} && s < k < e
  }

  /** The part ends where the next entry starts, or where the known bytes end. */
  lemma PartEndsAtEntry(m: Ranges, c: Call, s: int, e: int, base: int, k: int)
    requires Ready(m, c, s, e, base) && OldReady(m, c, s, e, k)
    requires PartEnd(m, k, e) < e && PartEnd(m, k, e) <= base
    ensures var q := PartEnd(m, k, e); q == m[k].endSeq && q in m.Keys + {base}
    ensures forall j :: j in m && k < j ==> m[k].endSeq <= j
  {
    var q := PartEnd(m, k, e);
    LaterBeyond(m, k);
    if q < base {
      assert Covered(m, q);
      var j :| Covers(m, j, q);
      assert j == q;
    }
  }

  lemma InnerShrinks(m: Ranges, c: Call, s: int, e: int, level: nat, base: int, k: int)
    requires Ready(m, c, s, e, base) && s < base && OldReady(m, c, s, e, k)
    requires PartEnd(m, k, e) <= base && PartEnd(m, k, e) < e
    ensures var m' := CarvedStep(m, c, s, e, level, k); var q := PartEnd(m, k, e);
      && q in m.Keys + {base} && (q < base ==> q in m')
      && |Inner(m, s, e, base)| == 1 + |Inner(m', q, e, base)|
  {
    hide CarvedStep, Range.Info;
    CarvedStepShape(m, c, s, e, level, k);
    PartEndsAtEntry(m, c, s, e, base, k);
    hide Ready, OldReady, Keyed, Disjoint;
    var m' := CarvedStep(m, c, s, e, level, k);
    var q := PartEnd(m, k, e);
    var before, after := Inner(m, s, e, base), Inner(m', q, e, base);
    assert before == {q} + after by {
      forall j
        ensures j in before <==> j == q || j in after
      {
      }
    }
    assert q !in after;
  }

  /** The entries the recursion meets after its start, up to entry `k`. */
  function Upto(m: Ranges, s: int, k: int): set<int> {
    set j | j in m.Keys && s < j <= k
  }

  /** The recursion gets as far as entry `k` before the guard trips, and an assertion fails there. */
  predicate FailsReached(m: Ranges, c: Call, s: int, e: int, level: nat, k: int) {
    s <= k < e && FailsAt(m, c, e, k) && (k == s || level + |Upto(m, s, k)| <= RECURSION_LEVEL + 1)
  }

  ghost predicate Fails(m: Ranges, c: Call, s: int, e: int, level: nat) {
    exists k :: FailsReached(m, c, s, e, level, k)
  }

  lemma UptoShrinks(m: Ranges, c: Call, s: int, e: int, level: nat, base: int, k: int, j: int)
    requires Ready(m, c, s, e, base) && s < base && OldReady(m, c, s, e, k)
    requires PartEnd(m, k, e) <= base && PartEnd(m, k, e) < e && j in m && PartEnd(m, k, e) <= j
    ensures var m' := CarvedStep(m, c, s, e, level, k); var q := PartEnd(m, k, e);
      && j in m' && m'[j] == m[j]
      && (j == q || q < base ==> Upto(m, s, j) == {q} + Upto(m', q, j))
  {
    hide CarvedStep, Range.Info;
    CarvedStepShape(m, c, s, e, level, k);
    CarvedStepCut(m, c, s, e, level, k);
    PartEndsAtEntry(m, c, s, e, base, k);
    hide Ready, OldReady, Keyed, Disjoint;
    var m' := CarvedStep(m, c, s, e, level, k);
    var q := PartEnd(m, k, e);
    if j == q || q < base {
      forall i
        ensures i in Upto(m, s, j) <==> i == q || i in Upto(m', q, j)
      {
      }
    }
  }

  /** Whether the rest of the recursion fails, told from the map before the step. */
  lemma FailsNext(m: Ranges, c: Call, s: int, e: int, level: nat, base: int, k: int)
    requires Ready(m, c, s, e, base) && s < base && OldReady(m, c, s, e, k) && !FailsAt(m, c, e, s)
    requires PartEnd(m, k, e) <= base && PartEnd(m, k, e) < e && level <= RECURSION_LEVEL
    ensures Fails(m, c, s, e, level) <==> Fails(CarvedStep(m, c, s, e, level, k), c, PartEnd(m, k, e), e, level + 1)
  {
    hide FailsReached, CarvedStep;
    var m' := CarvedStep(m, c, s, e, level, k);
    var q := PartEnd(m, k, e);
    if c.itype == InsertSent {
      SentNeverFails(m, c, s, e, level);
      SentNeverFails(m', c, q, e, level + 1);
    } else {
      if Fails(m, c, s, e, level) {
        var j :| FailsReached(m, c, s, e, level, j);
        ReachedNext(m, c, s, e, level, base, k, j);
      }
      if Fails(m', c, q, e, level + 1) {
        var j :| FailsReached(m', c, q, e, level + 1, j);
        ReachedNext(m, c, s, e, level, base, k, j);
      }
    }
  }

  /** What the step leaves of an entry further on. */
  lemma EntryNext(m: Ranges, c: Call, s: int, e: int, level: nat, base: int, k: int, j: int)
    requires Ready(m, c, s, e, base) && s < base && OldReady(m, c, s, e, k)
    requires PartEnd(m, k, e) < e && PartEnd(m, k, e) < base
    ensures var m' := CarvedStep(m, c, s, e, level, k); var q := PartEnd(m, k, e);
      && s < q && (j in m && s < j ==> q <= j)
      && (q <= j ==> (j in m' <==> j in m))
      && (q <= j && j in m ==>
            && m'[j] == m[j] && |Upto(m, s, j)| == 1 + |Upto(m', q, j)|
            && (j == q ==> |Upto(m', q, j)| == 0))
  {
    hide CarvedStep, Range.Info;
    var m' := CarvedStep(m, c, s, e, level, k);
    var q := PartEnd(m, k, e);
    CarvedStepShape(m, c, s, e, level, k);
    PartEndsAtEntry(m, c, s, e, base, k);
    LaterBeyond(m, k);
    if q <= j && j in m {
      UptoShrinks(m, c, s, e, level, base, k, j);
      assert q !in Upto(m', q, j);
      if j == q {
        assert Upto(m', q, j) == {};
      }
    }
  }

  lemma ReachedNext(m: Ranges, c: Call, s: int, e: int, level: nat, base: int, k: int, j: int)
    requires Ready(m, c, s, e, base) && s < base && OldReady(m, c, s, e, k) && !FailsAt(m, c, e, s) && c.itype == InsertRecv
    requires PartEnd(m, k, e) < e && PartEnd(m, k, e) < base && level <= RECURSION_LEVEL
    ensures FailsReached(m, c, s, e, level, j) <==>
      FailsReached(CarvedStep(m, c, s, e, level, k), c, PartEnd(m, k, e), e, level + 1, j)
  {
    hide Ready, OldReady, CarvedStep, PartEnd, Upto, Keyed, Disjoint;
    EntryNext(m, c, s, e, level, base, k, j);
  }

  /** An insertion is refused by the guard if and only if it would go deeper than RECURSION_LEVEL + 1,
      one level for each boundary inside the segment, and fails no assertion before; it fails an
      assertion if and only if some entry on its way makes it. */
  lemma {:induction false} EndsExactly(m: Ranges, c: Call, s: int, e: int, level: nat, base: int)
    requires Ready(m, c, s, e, base)
    requires level <= RECURSION_LEVEL + 1 && (s !in m && s < base ==> level == 0)
    ensures var r := Insert(m, c, s, e, level);
      && (r.Abort? <==> Fails(m, c, s, e, level))
      && (r.Thrown? <==> level + |Inner(m, s, e, base)| > RECURSION_LEVEL + 1 && !Fails(m, c, s, e, level))
    decreases e - s
  {
    hide CarvedStep, CountAt, Range.Info, Range.Left, Range.Right, Step, NewTail, FailsAt, Fails;
    if s == base {
      StepNew(m, c, e, level);
      assert Inner(m, s, e, base) == {};
      SentNeverFails(m, c, s, e, level);
    } else {
      var k := ReadyAt(m, c, s, e, base);
      StepOld(m, c, s, e, level, k);
      CarvedStepRefines(m, c, s, e, level, k);
      var m' := CarvedStep(m, c, s, e, level, k);
      var q := PartEnd(m, k, e);
      if FailsAt(m, c, e, s) {
        FailsHere(m, c, s, e, level);
      } else if q < e {
        InnerShrinks(m, c, s, e, level, base, k);
        if s in m && level > RECURSION_LEVEL {
          NoneReached(m, c, s, e, level);
        } else {
          StillReady(m, m', c, s, q, e, base);
          EndsExactly(m', c, q, e, level + 1, base);
          FailsNext(m, c, s, e, level, base, k);
        }
      } else {
        NoInner(m, c, s, e, base, k);
        NoneBehind(m, c, s, e, level, base, k);
      }
    }
  }

  lemma SentNeverFails(m: Ranges, c: Call, s: int, e: int, level: nat)
    requires c.itype == InsertSent
    ensures !Fails(m, c, s, e, level)
  {
  }

  lemma FailsHere(m: Ranges, c: Call, s: int, e: int, level: nat)
    requires FailsAt(m, c, e, s) && s < e
    ensures Fails(m, c, s, e, level)
  {
    assert FailsReached(m, c, s, e, level, s);
  }

  lemma NoneReached(m: Ranges, c: Call, s: int, e: int, level: nat)
    requires !FailsAt(m, c, e, s) && level > RECURSION_LEVEL
    ensures !Fails(m, c, s, e, level)
  {
    forall k
      ensures !FailsReached(m, c, s, e, level, k)
    {
      if s < k && k in m {
        assert k in Upto(m, s, k);
      }
    }
  }

  /** The segment ends in the entry that holds its start. */
  lemma NoneBehind(m: Ranges, c: Call, s: int, e: int, level: nat, base: int, k: int)
    requires OldReady(m, c, s, e, k) && PartEnd(m, k, e) == e && !FailsAt(m, c, e, s)
    ensures !Fails(m, c, s, e, level)
  {
    LaterBeyond(m, k);
  }

  lemma NoInner(m: Ranges, c: Call, s: int, e: int, base: int, k: int)
    requires Ready(m, c, s, e, base) && s < base && OldReady(m, c, s, e, k) && PartEnd(m, k, e) == e <= base
    ensures Inner(m, s, e, base) == {}
  {
    assert forall j :: j in m ==> j <= k || m[k].endSeq <= j;
  }

  lemma {:induction false} FewBetween(s: set<int>, lo: int, hi: int)
    requires lo <= hi && forall k :: k in s ==> lo <= k < hi
    ensures |s| <= hi - lo
    decreases hi - lo
  {
    if lo < hi {
      FewBetween(s - {hi - 1}, lo, hi - 1);
    } else {
      assert s == {};
    }
  }

  /** A segment of at most RECURSION_LEVEL + 2 bytes has too few boundaries inside to trip the guard,
      however finely its bytes are split. An Ethernet packet without segmentation offload is that small. */
  lemma SmallNeverTrips(m: Ranges, c: Call, s: int, e: int, base: int)
    requires Ready(m, c, s, e, base) && e - s <= RECURSION_LEVEL + 2
    ensures !Insert(m, c, s, e, 0).Thrown?
  {
    FewBetween(Inner(m, s, e, base), s + 1, e);
    hide Ready, Insert;
    assert |Inner(m, s, e, base)| <= e - s - 1;
    EndsExactly(m, c, s, e, 0, base);
  }
}
