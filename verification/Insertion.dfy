/** One insertion, byte by byte: a data segment adds one to the count of each of its bytes and
    leaves every other byte alone, however the entries were cut before. */
module Insertion {
  import opened Common
  import opened OrderedMap
  import opened ByteRanges
  import opened Index
  import opened ByteView

  /** A byte that was never sent, received or acknowledged. */
  const BLANK := ByteInfo(0, 0, false, NO_TIME)

  /** What a segment makes of the information for one of its bytes. */
  function CountAt(c: Call, i: Option<ByteInfo>): Option<ByteInfo> {
    Some(CountByte(c, if i.Some? then i.value else BLANK))
  }

  /** `m'` is `m` with the segment counted once on each byte of `[s, e)`. */
  ghost predicate CountedOn(m: Ranges, m': Ranges, c: Call, s: int, e: int) {
    forall b :: At(m', b) == if s <= b < e then CountAt(c, At(m, b)) else At(m, b)
  }

  /** Every entry starts and ends at or below `x`. */
  ghost predicate Below(m: Ranges, x: int) {
    forall k :: k in m ==> k <= x && m[k].endSeq <= x
  }

  ghost predicate AllCovered(m: Ranges, s: int, e: int) {
    forall b :: s <= b < e ==> Covered(m, b)
  }

  /** The TCP stamp an entry records once the segment is counted on it: that of its first reception. */
  function StampAfter(r: Range, c: Call): nat {
    if r.dataReceivedCount == 0 then c.seg.tstampTcp else r.receivedTstampTcp
  }

  /** An assertion of the code fails at entry `k`: the segment ends, but not with the entry, at what happens
      to be the first absolute sequence number plus one (RangeManager.cc:728), or it reaches beyond the
      entry and the recorded stamp is zero (RangeManager.cc:845). */
  predicate FailsAt(m: Ranges, c: Call, e: int, k: int) {
    c.itype == InsertRecv && k in m &&
    ((e == (c.firstSeq + 1) % WRAP && m[k].endSeq != e) || (m[k].endSeq < e && StampAfter(m[k], c) == 0))
  }

  /** Entries without bytes are left alone. */
  ghost predicate SameEmpties(m: Ranges, m': Ranges) {
    && (forall k :: k in m && m[k].Empty() ==> k in m' && m'[k] == m[k])
    && (forall k :: k in m' && m'[k].Empty() ==> k in m && m'[k] == m[k])
  }

  // ---------- one step on bytes that some entry holds ----------

  /** How the step at `s` counts the segment on its part of an entry. */
  function CountPart(m: Ranges, c: Call, s: int, e: int, level: nat, part: Range): (r: Range)
    ensures r.SameSpan(part) && r.Info() == CountByte(c, part.Info())
  {
    if s !in m then CountInside(part, c, s, level, part.endSeq == e)
    else
      var counted := CountExisting(part, c, s, level);
      if m[s].endSeq == e && c.itype == InsertSent && c.seg.flags.syn then counted.(syn := counted.syn + 1) else counted
  }

  /** The end of the part that the step at `s` handles: the segment's end or the entry's. */
  function PartEnd(m: Ranges, k: int, e: int): int
    requires k in m
  {
    Min(e, m[k].endSeq)
  }

  function CarvedStep(m: Ranges, c: Call, s: int, e: int, level: nat, k: int): Ranges
    requires Keyed(m) && Disjoint(m) && Covers(m, k, s) && s < e
  {
    var carved := Carve(m, k, s, PartEnd(m, k, e));
    assert s in carved;
    carved[s := CountPart(m, c, s, e, level, carved[s])]
  }

  ghost predicate OldReady(m: Ranges, c: Call, s: int, e: int, k: int) {
    && Keyed(m) && Disjoint(m) && Covers(m, k, s)
    && 0 <= s < e < s + MAX_RANGE_SIZE && (s in m || s < c.lastSeq)
  }

  /** Every arm that meets existing bytes comes down to: make the segment's part an entry of its
      own, count the segment on it, and go on behind it. A reception may fail an assertion instead. */
  lemma StepOld(m: Ranges, c: Call, s: int, e: int, level: nat, k: int)
    requires OldReady(m, c, s, e, k)
    ensures var m' := CarvedStep(m, c, s, e, level, k); var q := PartEnd(m, k, e);
      Step(m, c, s, e, level) ==
      if FailsAt(m, c, e, s) then Aborted
      else if q == e then Done(m') else if s in m && level > RECURSION_LEVEL then Threw else Again(m', q)
  {
    hide Range.Left, Range.Right, Range.Info, CountInside;
    if s in m {
      assert k == s;
    } else {
      assert PrevKey(m, s) == Some(k) by {
        var p := PrevKey(m, s).value;
        assert k <= p;
      }
    }
  }

  lemma CarvedStepShape(m: Ranges, c: Call, s: int, e: int, level: nat, k: int)
    requires OldReady(m, c, s, e, k)
    ensures var m' := CarvedStep(m, c, s, e, level, k); var q := PartEnd(m, k, e);
      && Keyed(m') && Disjoint(m')
      && m'.Keys == m.Keys + {s} + (if q < m[k].endSeq then {q} else {})
      && m'[s].endSeq == q
  {
    hide Range.Left, Range.Right, CountPart, Range.Info;
    var q := PartEnd(m, k, e);
    var carved := Carve(m, k, s, q);
    CarveShape(m, k, s, q);
    TouchDisjoint(carved, s, CountPart(m, c, s, e, level, carved[s]));
  }

  lemma CarvedStepBytes(m: Ranges, c: Call, s: int, e: int, level: nat, k: int)
    requires OldReady(m, c, s, e, k)
    ensures CountedOn(m, CarvedStep(m, c, s, e, level, k), c, s, PartEnd(m, k, e))
  {
    hide Range.Left, Range.Right, CountPart, Range.Info;
    var q := PartEnd(m, k, e);
    var carved := Carve(m, k, s, q);
    CarveShape(m, k, s, q);
    var r := CountPart(m, c, s, e, level, carved[s]);
    forall b
      ensures At(carved[s := r], b) == if s <= b < q then CountAt(c, At(m, b)) else At(m, b)
    {
      TouchByte(carved, s, r, b);
      CarveByte(m, k, s, q, b);
      if s <= b < q {
        AtIs(m, k, b);
      }
    }
  }

  /** Which entries one step touches: entry `k` is cut so that `[s, q)` stands alone, and only that
      part may have changed otherwise. */
  ghost predicate Cut(m: Ranges, m': Ranges, k: int, s: int, q: int) {
    && k in m && m[k].startSeq == k && k <= s < q <= m[k].endSeq
    && m'.Keys == m.Keys + {s} + (if q < m[k].endSeq then {q} else {})
    && (forall j :: j in m && j != k ==> m'[j] == m[j])
    && (k < s ==> m'[k] == m[k].Left(s))
    && m'[s].startSeq == s && m'[s].endSeq == q && m'[s].Sized()
    && (k < s && q < m[k].endSeq ==> m'[q] == m[k].Right(s).Right(q))
    && (k == s && q < m[k].endSeq ==> m'[q] == m[k].Right(q))
  }

  lemma CarvedStepCut(m: Ranges, c: Call, s: int, e: int, level: nat, k: int)
    requires OldReady(m, c, s, e, k)
    ensures Cut(m, CarvedStep(m, c, s, e, level, k), k, s, PartEnd(m, k, e))
  {
    hide Range.Left, Range.Right, CountPart, Range.Info;
    CarvedStepShape(m, c, s, e, level, k);
    var carved := Carve(m, k, s, PartEnd(m, k, e));
    CarveShape(m, k, s, PartEnd(m, k, e));
    assert k < s ==> s !in m;
  }

  lemma CutEmpties(m: Ranges, m': Ranges, k: int, s: int, q: int)
    requires Keyed(m) && Disjoint(m) && Keyed(m') && Cut(m, m', k, s, q)
    ensures SameEmpties(m, m')
    ensures forall x :: Below(m, x) ==> Below(m', x)
  {
    hide Range.Left, Range.Right, Range.Info;
  }

  // ---------- a whole insertion ----------

  /** What an insertion of `[s, e)` promises: the map keeps its form, the segment is counted once on
      each of its bytes, no boundary between entries is lost, and `s` and `e` become boundaries. */
  ghost predicate Refines(m: Ranges, m': Ranges, c: Call, s: int, e: int) {
    && Keyed(m') && Disjoint(m')
    && CountedOn(m, m', c, s, e)
    && m.Keys <= m'.Keys
    && s in m' && Boundary(m', e)
    && (forall x :: Boundary(m, x) ==> Boundary(m', x))
  }

  /** Some entry starts or ends at `x`. */
  ghost predicate Boundary(m: Ranges, x: int) {
    x in m || exists k :: k in m && m[k].endSeq == x
  }

  lemma RefinesTrans(m: Ranges, m1: Ranges, m2: Ranges, c: Call, s: int, q: int, e: int)
    requires s < q < e
    requires Refines(m, m1, c, s, q) && Refines(m1, m2, c, q, e)
    ensures Refines(m, m2, c, s, e)
  {
    hide Range.Info, CountByte;
    forall b
      ensures At(m2, b) == if s <= b < e then CountAt(c, At(m, b)) else At(m, b)
    {
      assert At(m1, b) == if s <= b < q then CountAt(c, At(m, b)) else At(m, b);
    }
  }

  lemma CutBoundaries(m: Ranges, m': Ranges, k: int, s: int, q: int)
    requires Keyed(m) && Disjoint(m) && Cut(m, m', k, s, q)
    ensures Boundary(m', q) && forall x :: Boundary(m, x) ==> Boundary(m', x)
  {
    hide Range.Left, Range.Right, Range.Info;
    assert s in m' && m'[s].endSeq == q;
    forall x | Boundary(m, x)
      ensures Boundary(m', x)
    {
      if x !in m {
        var j :| j in m && m[j].endSeq == x;
        var j' := if j != k then j else if q < m[k].endSeq then q else s;
        assert j' in m' && m'[j'].endSeq == x;
      }
    }
  }

  lemma CarvedStepRefines(m: Ranges, c: Call, s: int, e: int, level: nat, k: int)
    requires OldReady(m, c, s, e, k)
    ensures var m' := CarvedStep(m, c, s, e, level, k);
      && Refines(m, m', c, s, PartEnd(m, k, e))
      && SameEmpties(m, m')
      && (forall x :: Below(m, x) ==> Below(m', x))
  {
    hide CountPart, CarvedStep, Carve, Range.Info, Range.Left, Range.Right;
    CarvedStepShape(m, c, s, e, level, k);
    CarvedStepBytes(m, c, s, e, level, k);
    CarvedStepCut(m, c, s, e, level, k);
    var m' := CarvedStep(m, c, s, e, level, k);
    CutBoundaries(m, m', k, s, PartEnd(m, k, e));
    CutEmpties(m, m', k, s, PartEnd(m, k, e));
  }

  /** A part of the segment that is already counted leaves the rest covered. */
  lemma StillCovered(m: Ranges, m': Ranges, c: Call, s: int, q: int, x: int, y: int)
    requires CountedOn(m, m', c, s, q) && AllCovered(m, x, y)
    ensures AllCovered(m', x, y)
  {
    forall b | x <= b < y
      ensures Covered(m', b)
    {
      assert Covered(m, b);
      assert At(m', b).Some?;
    }
  }

  /** A segment the index can take in: it starts at or below `base`, the entries hold all its bytes
      below `base`, and bytes from `base` on are new data, exactly what the sender was due to send next. */
  ghost predicate Ready(m: Ranges, c: Call, s: int, e: int, base: int) {
    && Keyed(m) && Disjoint(m) && Below(m, c.lastSeq)
    && 0 <= s < e < s + MAX_RANGE_SIZE && s <= base
    && AllCovered(m, s, Min(e, base))
    && (c.itype == InsertRecv ==> e <= base)
    && (e > base ==>
          && c.lastSeq == base && !c.seg.flags.syn
          && (forall b :: Covered(m, b) ==> b < base)
          && (base in m ==> m[base].Info() == BLANK))
  }

  /** The entry a new segment ends up in: a fresh one, or the last one if it held no bytes yet. */
  function NewTail(m: Ranges, c: Call, s: int, e: int): Range
    requires s <= e && (s in m ==> m[s].startSeq == s)
  {
    if s in m then m[s].Stretch(e).IncreaseSent(c.seg, RdbAt(c.seg, s), StPkt) else CreateRange(c, s, e)
  }

  lemma StepNew(m: Ranges, c: Call, e: int, level: nat)
    requires Ready(m, c, c.lastSeq, e, c.lastSeq)
    ensures Step(m, c, c.lastSeq, e, level) == Done(m[c.lastSeq := NewTail(m, c, c.lastSeq, e)])
  {
    var s := c.lastSeq;
    if s in m {
      assert m[s].Empty();
      assert NextKey(m, s).None?;
    }
  }

  lemma NewTailShape(m: Ranges, c: Call, e: int)
    requires Ready(m, c, c.lastSeq, e, c.lastSeq)
    ensures var s := c.lastSeq; var r := NewTail(m, c, s, e);
      && r.startSeq == s && r.endSeq == e && r.Sized() && r.Info() == CountByte(c, BLANK)
      && Keyed(m[s := r]) && Disjoint(m[s := r])
  {
    PutKeyed(m, c.lastSeq, NewTail(m, c, c.lastSeq, e));
  }

  lemma NewTailBytes(m: Ranges, c: Call, e: int)
    requires Ready(m, c, c.lastSeq, e, c.lastSeq)
    ensures var s := c.lastSeq; Refines(m, m[s := NewTail(m, c, s, e)], c, s, e)
  {
    var s := c.lastSeq;
    var r := NewTail(m, c, s, e);
    var m' := m[s := r];
    NewTailShape(m, c, e);
    hide NewTail, Range.Info, CountByte;
    forall b
      ensures At(m', b) == if s <= b < e then CountAt(c, At(m, b)) else At(m, b)
    {
      if s <= b < e {
        assert Covers(m', s, b);
        AtIs(m', s, b);
        assert !Covered(m, b);
      } else if Covered(m, b) {
        var k :| Covers(m, k, b);
        assert Covers(m', k, b);
        AtIs(m, k, b);
        AtIs(m', k, b);
      }
      if Covered(m', b) && !(s <= b < e) {
        var k :| Covers(m', k, b);
        assert Covers(m, k, b);
      }
    }
    forall x | Boundary(m, x)
      ensures Boundary(m', x)
    {
      if x !in m {
        var k :| k in m && m[k].endSeq == x;
        assert k in m' && (k == s || m'[k].endSeq == x);
      }
    }
    assert m'[s].endSeq == e;
  }

  /** Entries without bytes are left alone, but for one at `base` that new data moves into. */
  ghost predicate EmptiesKept(m: Ranges, m': Ranges, e: int, base: int) {
    && (forall k :: k in m && m[k].Empty() && (k != base || e <= base) ==> k in m' && m'[k] == m[k])
    && (forall k :: k in m' && m'[k].Empty() ==> k in m && m'[k] == m[k])
  }

  lemma StillReady(m: Ranges, m': Ranges, c: Call, s: int, q: int, e: int, base: int)
    requires Ready(m, c, s, e, base) && s < q < e && q <= base
    requires Refines(m, m', c, s, q) && SameEmpties(m, m') && Below(m', c.lastSeq)
    ensures Ready(m', c, q, e, base)
  {
    hide Range.Info, CountAt;
    StillCovered(m, m', c, s, q, s, Min(e, base));
    if e > base {
      forall b | Covered(m', b)
        ensures b < base
      {
        assert At(m', b).Some?;
        assert At(m, b).Some? || s <= b < q;
      }
      if base in m' {
        assert m'[base].Empty();
      }
    }
  }

  /** The entry that holds the segment's first byte, unless that byte is new. */
  lemma ReadyAt(m: Ranges, c: Call, s: int, e: int, base: int) returns (k: int)
    requires Ready(m, c, s, e, base) && s < base
    ensures OldReady(m, c, s, e, k) && PartEnd(m, k, e) <= base
  {
    assert Covered(m, s);
    k :| Covers(m, k, s);
    if e > base {
      assert Covers(m, k, m[k].endSeq - 1) && Covered(m, m[k].endSeq - 1);
    }
  }

  /** Insertion refines a byte counter: old and new bytes of the segment alike are counted exactly
      once more and nothing else changes. The call may trip the recursion guard; a sent segment never
      fails an assertion. */
  lemma {:induction false} InsertSegment(m: Ranges, c: Call, s: int, e: int, level: nat, base: int)
    requires Ready(m, c, s, e, base)
    ensures var r := Insert(m, c, s, e, level);
      && (c.itype == InsertSent ==> !r.Abort?)
      && (r.Ok? ==> Refines(m, r.ranges, c, s, e) && EmptiesKept(m, r.ranges, e, base)
                    && Below(r.ranges, Max(c.lastSeq, e)))
    decreases e - s
  {
    hide CarvedStep, CountAt, Range.Info, Range.Left, Range.Right, Step, NewTail;
    if s == base {
      StepNew(m, c, e, level);
      NewTailBytes(m, c, e);
      NewTailShape(m, c, e);
    } else {
      var k := ReadyAt(m, c, s, e, base);
      StepOld(m, c, s, e, level, k);
      CarvedStepRefines(m, c, s, e, level, k);
      var m' := CarvedStep(m, c, s, e, level, k);
      var q := PartEnd(m, k, e);
      if q < e {
        StillReady(m, m', c, s, q, e, base);
        InsertSegment(m', c, q, e, level + 1, base);
        var r := Insert(m', c, q, e, level + 1);
        if r.Ok? {
          RefinesTrans(m, m', r.ranges, c, s, q, e);
        }
      }
    }
  }
}
