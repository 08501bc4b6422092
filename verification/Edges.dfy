/** Where the entries of the index start after a gap-free send phase, told from the packets: within the data
    exactly where a data packet starts or ends, and at its end only where a pure ACK left an entry. */
module Edges {
  import opened Common
  import opened OrderedMap
  import opened ByteRanges
  import opened Index
  import opened ByteView
  import opened Insertion
  import opened Recursion
  import opened Accounting
  import opened Registration
  import opened SendRun
  import opened SendTheorems
  import opened Acks
  import opened Stretch

  /** A data packet of the trace starts or ends at `x`. */
  predicate Edge(segs: seq<DataSeg>, x: int) {
    exists j :: 0 <= j < |segs| && segs[j].payloadSize > 0 && (segs[j].startSeq == x || segs[j].endSeq == x)
  }

  lemma EdgeStep(segs: seq<DataSeg>, n: nat, x: int)
    requires n < |segs|
    ensures Edge(segs[..n + 1], x) <==>
      Edge(segs[..n], x) || (segs[n].payloadSize > 0 && (segs[n].startSeq == x || segs[n].endSeq == x))
  {
    var g := segs[n];
    if g.payloadSize > 0 && (g.startSeq == x || g.endSeq == x) {
      assert segs[..n + 1][n] == g;
    }
    if Edge(segs[..n], x) {
      var j :| 0 <= j < n && segs[..n][j].payloadSize > 0 && (segs[..n][j].startSeq == x || segs[..n][j].endSeq == x);
      assert segs[..n + 1][j] == segs[..n][j];
    }
    if Edge(segs[..n + 1], x) {
      var j :| 0 <= j < n + 1 && segs[..n + 1][j].payloadSize > 0 && (segs[..n + 1][j].startSeq == x || segs[..n + 1][j].endSeq == x);
      assert j < n ==> segs[..n][j] == segs[..n + 1][j];
    }
  }

  lemma {:induction false} TopIsHighest(segs: seq<DataSeg>)
    ensures FrontOf(segs).top == Highest(segs)
    ensures FrontOf(segs).top > 0 ==> Edge(segs, FrontOf(segs).top)
  {
    if segs != [] {
      var n := |segs| - 1;
      TopIsHighest(segs[..n]);
      assert segs[..n + 1] == segs;
      EdgeStep(segs, n, FrontOf(segs).top);
    }
  }

  // ---------- keys within the data ----------

  /** A boundary within the data is the start of an entry. */
  lemma BoundaryIsKey(m: Ranges, f: Front, x: int)
    requires Shape(m, f) && Boundary(m, x) && f.Lo() <= x < f.top
    ensures x in m
  {
    assert Covered(m, x);
    var k :| Covers(m, k, x);
    if x !in m {
      var j :| j in m && m[j].endSeq == x;
    }
  }

  /** An insertion starts entries nowhere but at its ends and at the end of the known data. */
  lemma NewKeys(m: Ranges, c: Call, s: int, e: int, level: nat, base: int, x: int)
    requires Ready(m, c, s, e, base) && x !in m && x != s && x != e && x != base
    ensures var r := Insert(m, c, s, e, level); r.Ok? ==> x !in r.ranges
  {
    hide Insert;
    assert Clear(m, x - 1, x + 1);
    InsertClear(m, c, s, e, level, base, x - 1, x + 1);
    assert !Outside(x, x - 1, x + 1);
  }

  /** Every entry within the data starts at an edge. */
  ghost predicate AtEdges(m: Ranges, f: Front, segs: seq<DataSeg>) {
    forall k :: k in m && f.Lo() <= k < f.top ==> Edge(segs, k)
  }

  lemma DataAtEdges(st: SendState, f: Front, firstSeq: int, segs: seq<DataSeg>, n: nat)
    requires n < |segs| && SendInv(st, f) && f == FrontOf(segs[..n]) && AtEdges(st.ranges, f, segs[..n])
    requires GapFreeStep(f, segs[n]) && segs[n].payloadSize > 0
    ensures var r := SendOne(st, firstSeq, segs[n]); r.Running? ==> AtEdges(r.state.ranges, NextFront(f, segs[n]), segs[..n + 1])
  {
    var g := segs[n];
    hide Insert, Edge;
    DataIsReady(st, f, firstSeq, g);
    DataKeeps(st, f, firstSeq, g);
    var r := SendOne(st, firstSeq, g);
    TopIsHighest(segs[..n]);
    var f' := NextFront(f, g);
    if r.Running? {
      forall k | k in r.state.ranges && f'.Lo() <= k < f'.top
        ensures Edge(segs[..n + 1], k)
      {
        EdgeStep(segs, n, k);
        if k !in st.ranges && k != g.startSeq && k != g.endSeq && k != f.Base() {
          NewKeys(st.ranges, CallFor(st, firstSeq, g), g.startSeq, g.endSeq, 0, f.Base(), k);
        }
        if k in st.ranges && k >= f.top {
          assert k == f.Base() by { KeyAtBase(st, f, k, g); }
        }
      }
    }
  }

  /** Behind the data nothing starts but at its end, before a FIN. */
  lemma KeyAtBase(st: SendState, f: Front, k: int, g: DataSeg)
    requires SendInv(st, f) && k in st.ranges && f.Lo() <= k && f.top <= k < Max(f.top, g.endSeq)
    requires GapFreeStep(f, g) && g.payloadSize > 0
    ensures k == f.Base()
  {
  }

  lemma ControlAtEdges(m: Ranges, f: Front, g: DataSeg, c: Call, segs: seq<DataSeg>)
    requires Shape(m, f) && GapFreeStep(f, g) && g.payloadSize == 0 && c.itype == InsertSent && c.seg == g && AtEdges(m, f, segs)
    ensures AtEdges(InsertEmpty(m, c, g.startSeq), NextFront(f, g), segs)
  {
    hide Edge;
    ControlLandsOnEmpty(m, f, g);
  }

  lemma MoreEdges(m: Ranges, f: Front, segs: seq<DataSeg>, n: nat)
    requires n < |segs| && AtEdges(m, f, segs[..n])
    ensures AtEdges(m, f, segs[..n + 1])
  {
    hide Edge;
    forall k | k in m && f.Lo() <= k < f.top
      ensures Edge(segs[..n + 1], k)
    {
      EdgeStep(segs, n, k);
    }
  }

  lemma {:induction false} SendsAtEdges(firstSeq: int, segs: seq<DataSeg>, n: nat)
    requires GapFree(segs) && Packets(segs) && n <= |segs|
    ensures var r := SendAll(firstSeq, segs[..n]); r.Running? ==> AtEdges(r.state.ranges, FrontOf(segs[..n]), segs[..n])
  {
    hide SendInv, GapFreeStep, NextFront, SendAll, SendOne, GapFree, AtEdges, InsertEmpty, Shape;
    if n == 0 {
      SendsFromStart(firstSeq);
      assert AtEdges(map[], FrontOf([]), []) by { NothingStarts(); }
      assert segs[..0] == [];
    } else {
      SendsAtEdges(firstSeq, segs, n - 1);
      GapFreePrefix(segs, n - 1);
      SendRefinesCounter(firstSeq, segs[..n - 1]);
      var r := SendAll(firstSeq, segs[..n - 1]);
      assert segs[..n][..n - 1] == segs[..n - 1];
      if r.Running? {
        SendsStep(firstSeq, segs, n - 1);
        var f, g := FrontOf(segs[..n - 1]), segs[n - 1];
        if g.payloadSize > 0 {
          DataAtEdges(r.state, f, firstSeq, segs, n - 1);
        } else {
          InvShape(r.state, f);
          ControlStep(r.state, f, firstSeq, g);
          ControlAtEdges(r.state.ranges, f, g, CallFor(r.state, firstSeq, g), segs[..n - 1]);
          MoreEdges(SendAll(firstSeq, segs[..n]).state.ranges, NextFront(f, g), segs, n - 1);
        }
      } else {
        SendsStopped(firstSeq, segs, n - 1);
      }
    }
  }

  lemma NothingStarts()
    ensures AtEdges(map[], FrontOf([]), [])
  {
  }

  /** A packet without payload always goes through. */
  lemma ControlStep(st: SendState, f: Front, firstSeq: int, g: DataSeg)
    requires SendInv(st, f) && GapFreeStep(f, g) && g.payloadSize == 0
    ensures var r := SendOne(st, firstSeq, g); var c := CallFor(st, firstSeq, g);
      && c.itype == InsertSent && c.seg == g
      && r.Running? && r.state.ranges == InsertEmpty(st.ranges, c, g.startSeq)
  {
  }

  /** Within the data, entries start exactly where a data packet starts or ends. */
  lemma SentEdges(firstSeq: int, segs: seq<DataSeg>)
    requires GapFree(segs) && Packets(segs)
    ensures var r := SendAll(firstSeq, segs); var f := FrontOf(segs);
      r.Running? ==> forall x :: f.Lo() <= x < f.top ==> (x in r.state.ranges <==> Edge(segs, x))
  {
    hide SendAll, SendInv, GapFree, FrontOf, Boundary;
    var n := |segs|;
    assert segs[..n] == segs;
    SendsAtEdges(firstSeq, segs, n);
    SendsBoundaries(firstSeq, segs, n);
    SendRefinesCounter(firstSeq, segs);
    var r, f := SendAll(firstSeq, segs), FrontOf(segs);
    if r.Running? {
      InvShape(r.state, f);
      forall x | f.Lo() <= x < f.top
        ensures x in r.state.ranges <==> Edge(segs, x)
      {
        if Edge(segs, x) {
          var j :| 0 <= j < n && segs[j].payloadSize > 0 && (segs[j].startSeq == x || segs[j].endSeq == x);
          BoundaryIsKey(r.state.ranges, f, x);
        }
      }
    }
  }

  // ---------- an entry at the end of the data ----------

  /** Packet `g` is a pure ACK. */
  predicate PureAck(g: DataSeg) {
    g.payloadSize == 0 && !g.flags.Control()
  }

  /** A pure ACK sits at the end of the data, and no entry starts one byte before to take it. */
  predicate LeavesTail(segs: seq<DataSeg>, j: nat, top: int)
    requires j < |segs|
  {
    PureAck(segs[j]) && FrontOf(segs[..j]).top == top && !Edge(segs[..j], top - 1)
  }

  predicate HeldTail(segs: seq<DataSeg>) {
    exists j :: 0 <= j < |segs| && LeavesTail(segs, j, FrontOf(segs).top)
  }

  lemma HeldStep(segs: seq<DataSeg>, n: nat)
    requires n < |segs|
    ensures var before, after := segs[..n], segs[..n + 1];
      FrontOf(after).top == FrontOf(before).top ==> (HeldTail(after) <==> HeldTail(before) || LeavesTail(segs, n, FrontOf(after).top))
  {
    hide PureAck, Edge, FrontOf;
    var before, after, top := segs[..n], segs[..n + 1], FrontOf(segs[..n + 1]).top;
    forall j | 0 <= j < n
      ensures LeavesTail(after, j, top) <==> LeavesTail(before, j, top)
    {
      assert after[..j] == before[..j];
    }
    assert after[..n] == before && after[n] == segs[n];
    assert LeavesTail(after, n, top) <==> LeavesTail(segs, n, top);
  }

  /** No packet before left an entry at an end that is new. */
  lemma NewEndNotHeld(segs: seq<DataSeg>, n: nat)
    requires n < |segs| && FrontOf(segs[..n]).top < FrontOf(segs[..n + 1]).top
    ensures !HeldTail(segs[..n + 1])
  {
    hide PureAck, Edge, FrontOf;
    var after := segs[..n + 1];
    assert after[..n] == segs[..n];
    TopIsHighest(segs[..n]);
    HighestGrows(segs[..n]);
    forall j | 0 <= j < |after|
      ensures FrontOf(after[..j]).top < FrontOf(after).top
    {
      assert after[..j] == segs[..n][..j];
      TopIsHighest(after[..j]);
    }
  }

  /** Before a FIN: an entry starts at the end of the data if and only if a pure ACK left one there. */
  ghost predicate TailAsTold(m: Ranges, f: Front, segs: seq<DataSeg>) {
    f.fin.None? && f.top > 0 ==> (f.top in m <==> HeldTail(segs))
  }

  /** A completed data packet keeps the entry at an end that stays, and makes none at a new end. */
  lemma DataTail(st: SendState, f: Front, firstSeq: int, g: DataSeg)
    requires SendInv(st, f) && GapFreeStep(f, g) && g.payloadSize > 0 && NextFront(f, g).fin.None?
    ensures var r := SendOne(st, firstSeq, g); var top := NextFront(f, g).top; r.Running? ==>
      (top in r.state.ranges <==> top == f.top && top in st.ranges)
  {
    hide Insert, Range.Info, CountAt;
    DataIsReady(st, f, firstSeq, g);
    DataKeeps(st, f, firstSeq, g);
    var c, r, top := CallFor(st, firstSeq, g), SendOne(st, firstSeq, g), NextFront(f, g).top;
    InsertSegment(st.ranges, c, g.startSeq, g.endSeq, 0, f.Base());
    if r.Running? {
      if top in r.state.ranges {
        TopIsEmpty(r.state.ranges, NextFront(f, g));
      }
    }
  }

  lemma TopIsEmpty(m: Ranges, f: Front)
    requires Shape(m, f) && f.top in m
    ensures m[f.top].Empty()
  {
    if !m[f.top].Empty() {
      assert Covers(m, f.top, f.top) && Covered(m, f.top);
    }
  }

  lemma ControlTail(st: SendState, f: Front, firstSeq: int, segs: seq<DataSeg>, n: nat)
    requires n < |segs| && SendInv(st, f) && f == FrontOf(segs[..n]) && GapFreeStep(f, segs[n]) && segs[n].payloadSize == 0
    requires TailAsTold(st.ranges, f, segs[..n]) && forall x :: f.Lo() <= x < f.top ==> (x in st.ranges <==> Edge(segs[..n], x))
    ensures var r := SendOne(st, firstSeq, segs[n]); r.Running? && TailAsTold(r.state.ranges, NextFront(f, segs[n]), segs[..n + 1])
  {
    hide Edge, HeldTail, InsertEmpty;
    var g := segs[n];
    var f' := NextFront(f, g);
    assert segs[..n + 1][..n] == segs[..n];
    assert FrontOf(segs[..n + 1]) == f';
    ControlStep(st, f, firstSeq, g);
    HeldStep(segs, n);
    if f'.fin.None? && f'.top > 0 {
      AckTail(st.ranges, f, g, CallFor(st, firstSeq, g));
    }
  }

  /** A pure ACK behind the data is counted one byte before, or on an entry of its own. */
  lemma AckTail(m: Ranges, f: Front, g: DataSeg, c: Call)
    requires Shape(m, f) && GapFreeStep(f, g) && g.payloadSize == 0 && c.seg == g && f.top > 0 && NextFront(f, g).fin.None?
    ensures PureAck(g) && NextFront(f, g).top == f.top
    ensures f.top in InsertEmpty(m, c, g.startSeq) <==> f.top in m || f.top - 1 !in m
    ensures f.Lo() <= f.top - 1 < f.top
  {
  }

  lemma {:induction false} TailHeld(firstSeq: int, segs: seq<DataSeg>, n: nat)
    requires GapFree(segs) && Packets(segs) && n <= |segs|
    ensures var r := SendAll(firstSeq, segs[..n]); r.Running? ==> TailAsTold(r.state.ranges, FrontOf(segs[..n]), segs[..n])
  {
    hide SendInv, GapFreeStep, NextFront, SendAll, SendOne, GapFree, TailAsTold;
    if n == 0 {
      SendsFromStart(firstSeq);
      assert segs[..0] == [];
      assert TailAsTold(map[], FrontOf([]), []) by { NothingHeld(); }
    } else {
      TailHeld(firstSeq, segs, n - 1);
      GapFreePrefix(segs, n - 1);
      SendRefinesCounter(firstSeq, segs[..n - 1]);
      SentEdges(firstSeq, segs[..n - 1]);
      var r := SendAll(firstSeq, segs[..n - 1]);
      if r.Running? {
        SendsStep(firstSeq, segs, n - 1);
        if segs[n - 1].payloadSize > 0 {
          DataTailTold(r.state, FrontOf(segs[..n - 1]), firstSeq, segs, n - 1);
        } else {
          ControlTail(r.state, FrontOf(segs[..n - 1]), firstSeq, segs, n - 1);
          assert segs[..n][..n - 1] == segs[..n - 1];
        }
      } else {
        SendsStopped(firstSeq, segs, n - 1);
      }
    }
  }

  lemma NothingHeld()
    ensures TailAsTold(map[], FrontOf([]), [])
  {
  }

  lemma DataTailTold(st: SendState, f: Front, firstSeq: int, segs: seq<DataSeg>, n: nat)
    requires n < |segs| && SendInv(st, f) && f == FrontOf(segs[..n]) && GapFreeStep(f, segs[n]) && segs[n].payloadSize > 0
    requires TailAsTold(st.ranges, f, segs[..n])
    ensures var r := SendOne(st, firstSeq, segs[n]); r.Running? ==> TailAsTold(r.state.ranges, FrontOf(segs[..n + 1]), segs[..n + 1])
  {
    hide HeldTail, SendOne, SendInv;
    var g := segs[n];
    var f' := NextFront(f, g);
    assert segs[..n + 1][..n] == segs[..n];
    assert FrontOf(segs[..n + 1]) == f';
    if f'.fin.None? && f'.top > 0 {
      DataTail(st, f, firstSeq, g);
      if f'.top > f.top {
        NewEndNotHeld(segs, n);
      } else {
        HeldStep(segs, n);
        assert f.top > 0 && f.fin.None?;
      }
    }
  }
}
