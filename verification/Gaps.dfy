/** Sender traces with gaps: `insertSentRange` leaves `lastSeq` behind, and bytes beyond it are recorded
    without a look at the entries there. This is exactly when entries come to overlap. */
module Gaps {
  import opened Common
  import opened OrderedMap
  import opened ByteRanges
  import opened Index
  import opened ByteView
  import opened Insertion
  import opened Registration
  import opened SendRun
  import opened SendTheorems

  // ---------- where an insertion creates an entry ----------

  /** The first position of `[s, e)` at which the recursion creates an entry: no entry starts there, and
      none that it may search for holds it. */
  function FirstNew(m: Ranges, lastSeq: int, s: int, e: int): Option<int>
    requires Keyed(m)
    decreases e - s
  {
    if e <= s then None
    else if s in m then
      if m[s].Empty() then
        match NextKey(m, s)
        case None => None
        case Some(n) => FirstNew(m, lastSeq, n, e)
      else FirstNew(m, lastSeq, m[s].endSeq, e)
    else
      match (if s < lastSeq then Container(m, s) else None)
      case Some(k) => FirstNew(m, lastSeq, m[k].endSeq, e)
      case None => Some(s)
  }

  /** No entry reaches into `[p, e)`. */
  ghost predicate Free(m: Ranges, p: int, e: int) {
    forall k :: k in m ==> m[k].endSeq <= p || e <= k
  }

  /** What the insertion leaves alone: the same entries start from `q` on, and the others end at or below it. */
  ghost predicate SameFrom(m: Ranges, m': Ranges, q: int) {
    && (forall k :: q <= k ==> (k in m <==> k in m') && (k in m ==> m'[k] == m[k]))
    && (forall k :: k in m && k < q ==> m[k].endSeq <= q)
    && (forall k :: k in m' && k < q ==> m'[k].endSeq <= q)
  }

  lemma SameNext(m: Ranges, m': Ranges, q: int, x: int)
    requires SameFrom(m, m', q) && q <= x
    ensures NextKey(m', x) == NextKey(m, x)
  {
  }

  lemma SameContainer(m: Ranges, m': Ranges, q: int, x: int)
    requires Keyed(m) && Keyed(m') && SameFrom(m, m', q) && q <= x
    ensures Container(m', x) == Container(m, x)
  {
    match PrevKey(m, x) {
      case Some(p) =>
        if q <= p {
          assert PrevKey(m', x) == Some(p);
        }
      case None =>
    }
  }

  lemma {:induction false} SameFirstNew(m: Ranges, m': Ranges, lastSeq: int, q: int, x: int, e: int)
    requires Keyed(m) && Keyed(m') && SameFrom(m, m', q) && q <= x
    ensures FirstNew(m', lastSeq, x, e) == FirstNew(m, lastSeq, x, e)
    ensures FirstNew(m, lastSeq, x, e).Some? ==> q <= FirstNew(m, lastSeq, x, e).value < e
    decreases e - x
  {
    hide NextKey, Container, Keyed, SameFrom;
    if x < e {
      assert (x in m <==> x in m') && (x in m ==> m'[x] == m[x]) by { SameAt(m, m', q, x); }
      KeyedAt(m, x);
      if x in m {
        SameNext(m, m', q, x);
        if m[x].Empty() {
          if NextKey(m, x).Some? {
            SameFirstNew(m, m', lastSeq, q, NextKey(m, x).value, e);
          }
        } else {
          SameFirstNew(m, m', lastSeq, q, m[x].endSeq, e);
        }
      } else {
        SameContainer(m, m', q, x);
        var k := if x < lastSeq then Container(m, x) else None;
        if k.Some? {
          ContainerEnd(m, m', q, x, k.value);
          SameFirstNew(m, m', lastSeq, q, m[k.value].endSeq, e);
        }
      }
    }
  }

  lemma SameAt(m: Ranges, m': Ranges, q: int, x: int)
    requires SameFrom(m, m', q) && q <= x
    ensures (x in m <==> x in m') && (x in m ==> m'[x] == m[x])
  {
  }

  lemma KeyedAt(m: Ranges, x: int)
    requires Keyed(m)
    ensures x in m ==> m[x].startSeq == x <= m[x].endSeq
  {
  }

  lemma ContainerEnd(m: Ranges, m': Ranges, q: int, x: int, k: int)
    requires SameFrom(m, m', q) && q <= x && k in m && k < x < m[k].endSeq
    ensures k in m' && m'[k] == m[k]
  {
  }

  lemma SameFree(m: Ranges, m': Ranges, q: int, p: int, e: int)
    requires SameFrom(m, m', q) && q <= p
    ensures Free(m', p, e) <==> Free(m, p, e)
  {
  }

  // ---------- one step ----------

  lemma CarvedSame(m: Ranges, c: Call, s: int, e: int, level: nat, k: int)
    requires OldReady(m, c, s, e, k) && m[k].endSeq < e
    ensures var m' := CarvedStep(m, c, s, e, level, k); Keyed(m') && Disjoint(m') && SameFrom(m, m', m[k].endSeq)
  {
    hide CarvedStep, Range.Info, Range.Left;
    CarvedStepShape(m, c, s, e, level, k);
    CarvedStepCut(m, c, s, e, level, k);
    LaterBeyond(m, k);
    LeftEnd(m[k], s);
  }

  lemma LeftEnd(r: Range, at: int)
    requires r.startSeq <= at
    ensures r.Left(at).endSeq == at
  {
  }

  lemma EmptySame(m: Ranges, c: Call, s: int, e: int)
    requires Keyed(m) && Disjoint(m) && 0 <= s < e < s + MAX_RANGE_SIZE && s in m && m[s].Empty()
    ensures var o := StepEmptyEntry(m, c, s, e);
      && Keyed(o.ranges) && Disjoint(o.ranges)
      && (o.Again? ==> NextKey(m, s) == Some(o.at) && SameFrom(m, o.ranges, o.at))
      && (o.Done? ==> NextKey(m, s).None? || e <= NextKey(m, s).value)
  {
    EmptyEntryProgress(m, c, s, e);
    var o := StepEmptyEntry(m, c, s, e);
    assert o.ranges.Keys == m.Keys;
    assert o.ranges[s].endSeq == match NextKey(m, s) case None => e case Some(n) => Min(n, e);
    assert forall k :: k in m && k != s ==> o.ranges[k] == m[k];
    hide StepEmptyEntry;
  }

  lemma CreateDisjoint(m: Ranges, c: Call, s: int, e: int)
    requires Keyed(m) && Disjoint(m) && 0 <= s < e < s + MAX_RANGE_SIZE && s !in m
    ensures Disjoint(m[s := CreateRange(c, s, e)]) <==> Free(m, s, e)
  {
    var r := CreateRange(c, s, e);
    assert r.endSeq == e;
    hide CreateRange;
    var m' := m[s := r];
    if Disjoint(m') {
      forall k | k in m
        ensures m[k].endSeq <= s || e <= k
      {
        assert k in m' && m'[k] == m[k] && m'[s].endSeq == e;
      }
    }
  }

  /** The container of a position holds it. */
  lemma ContainerCovers(m: Ranges, s: int)
    requires Keyed(m) && Disjoint(m) && s !in m
    ensures Container(m, s).Some? ==> Covers(m, Container(m, s).value, s)
  {
  }

  // ---------- a whole insertion ----------

  /** On any map without overlaps and for any sent segment, with or without gaps: a completed insertion
      leaves the entries disjoint if and only if it creates no entry, or none reaches into the bytes that
      the created one takes. */
  lemma {:induction false} DisjointExactly(m: Ranges, c: Call, s: int, e: int, level: nat)
    requires Keyed(m) && Disjoint(m) && c.itype == InsertSent && 0 <= s < e < s + MAX_RANGE_SIZE
    ensures var r := Insert(m, c, s, e, level); r.Ok? ==>
      (Disjoint(r.ranges) <==> match FirstNew(m, c.lastSeq, s, e) case None => true case Some(p) => Free(m, p, e))
    decreases e - s, 0
  {
    hide Step, CarvedStep, StepEmptyEntry, Disjoint, Keyed, Free, SameFrom, Container, NextKey, CreateRange, Covers;
    var o := Step(m, c, s, e, level);
    StepProgress(m, c, s, e, level);
    var k := if s in m then Some(s) else if s < c.lastSeq then Container(m, s) else None;
    if s in m && m[s].Empty() {
      StepAtEmpty(m, c, s, e, level);
      EmptySame(m, c, s, e);
      if o.Again? {
        Onward(m, c, o.ranges, o.at, e, level);
      }
    } else if k.Some? {
      StepAtBytes(m, c, s, e, level, k.value);
      if o.Again? {
        Onward(m, c, o.ranges, o.at, e, level);
      }
    } else {
      StepAtNothing(m, c, s, e, level);
      CreateDisjoint(m, c, s, e);
    }
  }

  /** The rest of the recursion. */
  lemma Onward(m: Ranges, c: Call, m': Ranges, q: int, e: int, level: nat)
    requires Keyed(m) && Keyed(m') && Disjoint(m') && SameFrom(m, m', q)
    requires c.itype == InsertSent && 0 <= q < e < q + MAX_RANGE_SIZE
    ensures var r := Insert(m', c, q, e, level + 1); r.Ok? ==>
      (Disjoint(r.ranges) <==> match FirstNew(m, c.lastSeq, q, e) case None => true case Some(p) => Free(m, p, e))
    decreases e - q, 1
  {
    hide Insert, Disjoint, Keyed, Free, SameFrom, FirstNew;
    DisjointExactly(m', c, q, e, level + 1);
    SameFirstNew(m, m', c.lastSeq, q, q, e);
    var p := FirstNew(m, c.lastSeq, q, e);
    if p.Some? {
      SameFree(m, m', q, p.value, e);
    }
  }

  lemma StepAtEmpty(m: Ranges, c: Call, s: int, e: int, level: nat)
    requires Keyed(m) && s < e && s in m && m[s].Empty() && c.itype == InsertSent
    ensures Step(m, c, s, e, level) == StepEmptyEntry(m, c, s, e)
  {
  }

  lemma StepAtBytes(m: Ranges, c: Call, s: int, e: int, level: nat, k: int)
    requires Keyed(m) && Disjoint(m) && 0 <= s < e < s + MAX_RANGE_SIZE && c.itype == InsertSent
    requires (s in m && k == s && !m[s].Empty()) || (s !in m && s < c.lastSeq && Container(m, s) == Some(k))
    ensures k in m
    ensures var o := Step(m, c, s, e, level);
      && (o.Again? ==> o.at == m[k].endSeq < e && Keyed(o.ranges) && Disjoint(o.ranges) && SameFrom(m, o.ranges, o.at))
      && (o.Done? ==> e <= m[k].endSeq && Disjoint(o.ranges))
  {
    if s !in m {
      ContainerCovers(m, s);
    }
    hide Step, CarvedStep, SameFrom;
    StepOld(m, c, s, e, level, k);
    CarvedStepShape(m, c, s, e, level, k);
    if m[k].endSeq < e {
      CarvedSame(m, c, s, e, level, k);
    }
  }

  lemma StepAtNothing(m: Ranges, c: Call, s: int, e: int, level: nat)
    requires Keyed(m) && s < e && s !in m && c.itype == InsertSent && (s < c.lastSeq ==> Container(m, s).None?)
    ensures var o := Step(m, c, s, e, level); o.Done? ==> o.ranges == m[s := CreateRange(c, s, e)]
    ensures !Step(m, c, s, e, level).Again?
  {
  }

  /** Every entry starts behind `e`. */
  ghost predicate AllBehind(m: Ranges, e: int) {
    forall k :: k in m ==> e < k
  }

  lemma NothingIsAllBehind(m: Ranges, e: int)
    ensures NothingToSearch(m, e) <==> AllBehind(m, e)
  {
  }

  /** On any map without overlaps: a sent insertion that the guard does not stop fails an assertion if and only if
      it comes to a position at which it has to create an entry, and the segment is a SYN or, at its start and
      below `lastSeq`, all entries lie behind it. */
  lemma {:induction false} AbortsExactly(m: Ranges, c: Call, s: int, e: int, level: nat)
    requires Keyed(m) && Disjoint(m) && c.itype == InsertSent && 0 <= s < e < s + MAX_RANGE_SIZE
    ensures var r := Insert(m, c, s, e, level); !r.Thrown? ==>
      (r.Abort? <==> FirstNew(m, c.lastSeq, s, e).Some? && (c.seg.flags.syn || (s < c.lastSeq && AllBehind(m, e))))
    decreases e - s
  {
    hide Step, CarvedStep, StepEmptyEntry, Disjoint, Keyed, SameFrom, Container, NextKey, CreateRange, Covers, AllBehind, NothingToSearch;
    var o := Step(m, c, s, e, level);
    StepProgress(m, c, s, e, level);
    NothingIsAllBehind(m, e);
    var k := if s in m then Some(s) else if s < c.lastSeq then Container(m, s) else None;
    if k.Some? {
      assert !AllBehind(m, e) by { OneBefore(m, k.value, e); }
      if s in m && m[s].Empty() {
        StepAtEmpty(m, c, s, e, level);
        EmptySame(m, c, s, e);
        EmptyGoesOn(m, c, s, e);
      } else {
        StepAtBytes(m, c, s, e, level, k.value);
        SentGoesOn(m, c, s, e, level, k.value);
      }
      if o.Again? {
        AbortsExactly(o.ranges, c, o.at, e, level + 1);
        SameFirstNew(m, o.ranges, c.lastSeq, o.at, o.at, e);
        assert !AllBehind(o.ranges, e) by { OneBefore(o.ranges, k.value, e); }
      }
    } else {
      StepAtNothing(m, c, s, e, level);
      NothingEnds(m, c, s, e, level);
    }
  }

  lemma OneBefore(m: Ranges, k: int, e: int)
    requires k in m && k <= e
    ensures !AllBehind(m, e)
  {
  }

  lemma EmptyGoesOn(m: Ranges, c: Call, s: int, e: int)
    requires Keyed(m) && s < e && s in m && m[s].Empty()
    ensures var o := StepEmptyEntry(m, c, s, e); (o.Done? || o.Again?) && s in o.ranges
    ensures var o := StepEmptyEntry(m, c, s, e); o.Done? ==> NextKey(m, s).None? || e <= NextKey(m, s).value
  {
  }

  lemma SentGoesOn(m: Ranges, c: Call, s: int, e: int, level: nat, k: int)
    requires Keyed(m) && Disjoint(m) && 0 <= s < e < s + MAX_RANGE_SIZE && c.itype == InsertSent
    requires (s in m && k == s && !m[s].Empty()) || (s !in m && s < c.lastSeq && Container(m, s) == Some(k))
    ensures var o := Step(m, c, s, e, level); !o.Aborted? && (o.Again? ==> k in o.ranges)
    ensures k in m && k <= s
  {
    if s !in m {
      ContainerCovers(m, s);
    }
    hide Step, CarvedStep;
    StepOld(m, c, s, e, level, k);
    CarvedStepShape(m, c, s, e, level, k);
  }

  lemma NothingEnds(m: Ranges, c: Call, s: int, e: int, level: nat)
    requires Keyed(m) && s < e && s !in m && c.itype == InsertSent && (s < c.lastSeq ==> Container(m, s).None?)
    ensures var o := Step(m, c, s, e, level);
      !o.Threw? && (o.Aborted? <==> c.seg.flags.syn || (s < c.lastSeq && NothingToSearch(m, e)))
  {
  }

  /** A reception at a position that no entry holds changes nothing, and fails an assertion if and only if it is
      below `lastSeq` and all entries lie behind it. */
  lemma UnsentIgnored(m: Ranges, c: Call, s: int, e: int, level: nat)
    requires Keyed(m) && Disjoint(m) && c.itype == InsertRecv && 0 <= s < e < s + MAX_RANGE_SIZE && !Covered(m, s) && s !in m
    ensures Insert(m, c, s, e, level) == if s < c.lastSeq && AllBehind(m, e) then Abort else Ok(m)
  {
    NothingIsAllBehind(m, e);
    hide AllBehind, NothingToSearch;
    if Container(m, s).Some? {
      ContainerCovers(m, s);
    }
  }

  /** With data, the four branches of `insertSentRange` move the next expected number to the end of the segment if that
      is higher and the segment leaves no gap, and not otherwise. */
  lemma LastSeqMoves(lastSeq: int, g: DataSeg)
    requires Captured(g) && g.payloadSize > 0
    ensures NextLastSeq(lastSeq, g) == if g.startSeq <= lastSeq then Max(lastSeq, g.endSeq) else lastSeq
  {
  }

  /** A sent segment at or beyond `lastSeq` that starts no entry becomes an entry of its own. */
  lemma BeyondExactly(m: Ranges, c: Call, s: int, e: int, level: nat)
    requires Keyed(m) && Disjoint(m) && c.itype == InsertSent && !c.seg.flags.syn
    requires 0 <= s < e < s + MAX_RANGE_SIZE && c.lastSeq <= s && s !in m
    ensures Insert(m, c, s, e, level) == Ok(m[s := CreateRange(c, s, e)])
    ensures Disjoint(m[s := CreateRange(c, s, e)]) <==> Free(m, s, e)
  {
    CreateDisjoint(m, c, s, e);
  }

  function Plain10(start: int): DataSeg {
    DataSeg(start, start + 10, 0, 0, 10, false, false, false, Flags(false, false, false), NO_TIME, 0, 0)
  }

  /** Gap-freeness is needed: after the segments [0, 10), [20, 30) and [25, 35) two entries hold byte 25. */
  lemma GapOverlaps()
    ensures var segs := [Plain10(0), Plain10(20), Plain10(25)];
      && Packets(segs)
      && var r := SendAll(0, segs);
      && r.Running? && r.state.lastSeq == 10
      && Covers(r.state.ranges, 20, 25) && Covers(r.state.ranges, 25, 25) && !Disjoint(r.state.ranges)
  {
    hide Insert, CreateRange, SendOne, Register, SendAll, Disjoint, Keyed;
    var segs := [Plain10(0), Plain10(20), Plain10(25)];
    var st2 := TwoBeyond();
    assert segs[..2] == [Plain10(0), Plain10(20)] && segs[..3] == segs;
    var st3 := OneBeyond(st2, Plain10(25));
    OneMore(segs, 2, st2, st3);
    assert st3.ranges[20].endSeq == 30;
    CoveredTwice(st3.ranges);
  }

  lemma CoveredTwice(m: Ranges)
    requires 20 in m && 25 in m && m[20].endSeq == 30
    ensures !Disjoint(m)
  {
  }

  /** The first two segments leave a gap between their entries. */
  lemma TwoBeyond() returns (st2: SendState)
    ensures SendAll(0, [Plain10(0), Plain10(20)]) == Running(st2)
    ensures Keyed(st2.ranges) && Disjoint(st2.ranges) && st2.lastSeq == 10
    ensures st2.ranges.Keys == {0, 20} && st2.ranges[0].endSeq == 10 && st2.ranges[20].endSeq == 30
  {
    hide Insert, CreateRange, SendOne, Register, SendAll;
    var segs := [Plain10(0), Plain10(20)];
    var st0 := Start();
    assert segs[..0] == [] && segs[..2] == segs;
    var st1 := OneBeyond(st0, Plain10(0));
    OneMore(segs, 0, st0, st1);
    st2 := OneBeyond(st1, Plain10(20));
    OneMore(segs, 1, st1, st2);
  }

  lemma Start() returns (st: SendState)
    ensures st.ranges == map[] && st.lastSeq == 0 && SendAll(0, []) == Running(st)
  {
    st := SendState(NoTotals(0), map[], 0);
  }

  lemma OneMore(segs: seq<DataSeg>, n: nat, st: SendState, st': SendState)
    requires Packets(segs) && n < |segs| && SendAll(0, segs[..n]) == Running(st)
    requires Keyed(st.ranges) && SendOne(st, 0, segs[n]) == Running(st')
    ensures SendAll(0, segs[..n + 1]) == Running(st')
  {
    hide SendOne;
    assert segs[..n + 1][..n] == segs[..n];
  }

  lemma OneBeyond(st: SendState, g: DataSeg) returns (st': SendState)
    requires Keyed(st.ranges) && Disjoint(st.ranges) && g == Plain10(g.startSeq)
    requires st.lastSeq <= g.startSeq && g.startSeq !in st.ranges && 0 <= g.startSeq
    ensures SendOne(st, 0, g) == Running(st')
    ensures st'.lastSeq == if g.startSeq == st.lastSeq then g.endSeq else st.lastSeq
    ensures st'.ranges.Keys == st.ranges.Keys + {g.startSeq}
    ensures forall k :: k in st.ranges ==> st'.ranges[k] == st.ranges[k]
    ensures st'.ranges[g.startSeq].startSeq == g.startSeq && st'.ranges[g.startSeq].endSeq == g.endSeq
    ensures Keyed(st'.ranges)
    ensures (forall k :: k in st.ranges ==> st.ranges[k].endSeq <= g.startSeq || g.endSeq <= k) ==> Disjoint(st'.ranges)
  {
    var c := CallFor(st, 0, g);
    BeyondExactly(st.ranges, c, g.startSeq, g.endSeq, 0);
    var r := CreateRange(c, g.startSeq, g.endSeq);
    assert r.startSeq == g.startSeq && r.endSeq == g.endSeq && r.Sized();
    PutKeyed(st.ranges, g.startSeq, r);
    st' := SendOne(st, 0, g).state;
  }

  /** The overlap can start below `lastSeq`, too: after [0, 10) and [20, 30), the segment [5, 25) cuts the
      first entry and then records [10, 25) as new. */
  lemma GapBelow(g: DataSeg)
    requires Captured(g) && g.startSeq == 5 && g.payloadSize == 20 && !g.flags.Control()
    ensures var segs := [Plain10(0), Plain10(20), g];
      && Packets(segs)
      && var r := SendAll(0, segs);
      && r.Running? && !Disjoint(r.state.ranges)
  {
    hide Insert, CreateRange, SendOne, Register, SendAll, Disjoint, Keyed;
    var segs := [Plain10(0), Plain10(20), g];
    var st2 := TwoBeyond();
    assert segs[..2] == [Plain10(0), Plain10(20)] && segs[..3] == segs;
    var st3 := SentBelow(st2, g);
    OneMore(segs, 2, st2, st3);
  }

  lemma SentBelow(st: SendState, g: DataSeg) returns (st': SendState)
    requires Captured(g) && g.startSeq == 5 && g.payloadSize == 20 && !g.flags.Control()
    requires Keyed(st.ranges) && Disjoint(st.ranges) && st.lastSeq == 10
    requires st.ranges.Keys == {0, 20} && st.ranges[0].endSeq == 10 && st.ranges[20].endSeq == 30
    ensures SendOne(st, 0, g) == Running(st') && !Disjoint(st'.ranges)
  {
    var m, c := st.ranges, CallFor(st, 0, g);
    BelowStep(m, c);
    hide Register, CountInside, CreateRange, Step, Disjoint, Keyed;
    var o := Step(m, c, 5, 25, 0);
    StepProgress(m, c, 5, 25, 0);
    BeyondExactly(o.ranges, c, 10, 25, 1);
    NewAtTen(m);
    DisjointExactly(m, c, 5, 25, 0);
    st' := SendOne(st, 0, g).state;
  }

  lemma BelowStep(m: Ranges, c: Call)
    requires Keyed(m) && Disjoint(m) && c.itype == InsertSent && c.lastSeq == 10
    requires m.Keys == {0, 20} && m[0].endSeq == 10 && m[20].endSeq == 30
    ensures var o := Step(m, c, 5, 25, 0); o.Again? && o.at == 10 && Keyed(o.ranges) && Disjoint(o.ranges) && 10 !in o.ranges
  {
    hide Step, CarvedStep;
    assert Covers(m, 0, 5);
    StepOld(m, c, 5, 25, 0, 0);
    CarvedStepShape(m, c, 5, 25, 0, 0);
  }

  lemma NewAtTen(m: Ranges)
    requires Keyed(m) && Disjoint(m) && m.Keys == {0, 20} && m[0].endSeq == 10 && m[20].endSeq == 30
    ensures FirstNew(m, 10, 5, 25) == Some(10) && !Free(m, 10, 25)
  {
    assert PrevKey(m, 5) == Some(0);
    assert Container(m, 5) == Some(0);
    assert FirstNew(m, 10, 10, 25) == Some(10);
  }
}
