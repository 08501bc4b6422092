/** Which receive time an entry holds for a byte. `insertByteRange` records the time of the first reception,
    but `splitEnd` hands the count on to the new entry and not the time. */
module ReceiveTimes {
  import opened Common
  import opened OrderedMap
  import opened ByteRanges
  import opened Index
  import opened ByteView
  import opened Insertion
  import opened Accounting
  import opened SendRun
  import opened SendTheorems
  import opened Acks
  import opened AckRun
  import opened ReceiveRun
  import opened WholeRun
  import opened Stretch
  import opened RunTheorems

  /** The entry that holds byte `b`, if it is this one, starts at or behind `lo`, was received `n` times, and
      has the given receive time if it starts at `lo`, none otherwise. */
  predicate Heard(r: Range, b: int, lo: int, n: nat, time: TimeVal) {
    r.startSeq <= b < r.endSeq ==>
      && lo <= r.startSeq && r.dataReceivedCount == n
      && r.receivedTstampPcap == (if r.startSeq == lo then time else NO_TIME)
  }

  ghost function HeardAs(b: int, lo: int, n: nat, time: TimeVal): Range -> bool {
    (r: Range) => Heard(r, b, lo, n, time)
  }

  /** The same where the time does not depend on the start. */
  ghost function HeardOnce(b: int, time: TimeVal): Range -> bool {
    (r: Range) => r.startSeq <= b < r.endSeq ==> r.dataReceivedCount == 1 && r.receivedTstampPcap == time
  }

  ghost function Unheard(b: int): Range -> bool {
    (r: Range) => r.startSeq <= b < r.endSeq ==> r.dataReceivedCount == 0
  }

  // ---------- one reception ----------

  lemma HeardSplits(b: int, lo: int, n: nat, time: TimeVal)
    ensures KeptBySplit(HeardAs(b, lo, n, time)) && KeptBySplit(Unheard(b))
  {
  }

  /** What a reception at `time` changes of an entry. */
  predicate OneMoreHeard(r: Range, r': Range, time: TimeVal) {
    && r'.SameSpan(r) && r'.dataReceivedCount == r.dataReceivedCount + 1
    && r'.receivedTstampPcap == if r.dataReceivedCount == 0 then time else r.receivedTstampPcap
  }

  lemma CountHeard(r: Range, r': Range, c: Call, s: int, level: nat, ends: bool)
    requires c.itype == InsertRecv && (r' == CountInside(r, c, s, level, ends) || r' == CountExisting(r, c, s, level))
    ensures OneMoreHeard(r, r', c.seg.tstampPcap)
  {
    hide Range.Info;
  }

  /** Counting a reception keeps the ends of an entry, adds one to its count, and sets the time if it is the first. */
  lemma CountsHeard(c: Call)
    requires c.itype == InsertRecv
    ensures forall r: Range, s: int, level: nat, ends: bool :: OneMoreHeard(r, CountInside(r, c, s, level, ends), c.seg.tstampPcap)
    ensures forall r: Range, s: int, level: nat :: OneMoreHeard(r, CountExisting(r, c, s, level), c.seg.tstampPcap)
  {
    hide CountInside, CountExisting, Range.Info, OneMoreHeard;
    forall r: Range, s: int, level: nat, ends: bool
      ensures OneMoreHeard(r, CountInside(r, c, s, level, ends), c.seg.tstampPcap)
    {
      CountHeard(r, CountInside(r, c, s, level, ends), c, s, level, ends);
    }
    forall r: Range, s: int, level: nat
      ensures OneMoreHeard(r, CountExisting(r, c, s, level), c.seg.tstampPcap)
    {
      CountHeard(r, CountExisting(r, c, s, level), c, s, level, true);
    }
  }

  lemma LaterTurns(c: Call, b: int, lo: int, n: nat, time: TimeVal, s: int, e: int)
    requires c.itype == InsertRecv && n > 0
    ensures Turns(HeardAs(b, lo, n, time), HeardAs(b, lo, n + 1, time), c, s, e)
    ensures !(s <= b < e) ==> Turns(HeardAs(b, lo, n, time), HeardAs(b, lo, n, time), c, s, e)
  {
    hide CountInside, CountExisting, Range.Info;
    CountsHeard(c);
  }

  lemma EarlyTurns(c: Call, b: int, s: int, e: int)
    requires c.itype == InsertRecv
    ensures !(s <= b < e) ==> Turns(Unheard(b), Unheard(b), c, s, e)
    ensures Turns(Unheard(b), HeardOnce(b, c.seg.tstampPcap), c, s, e)
  {
    hide CountInside, CountExisting, Range.Info;
    CountsHeard(c);
  }

  /** The entry that holds a byte of the segment lies within the segment, any other entry outside. */
  lemma WithinSegment(m: Ranges, s: int, e: int, b: int, k: int)
    requires Keyed(m) && Disjoint(m) && s in m && Boundary(m, e) && s < e && Covers(m, k, b)
    ensures s <= k < e <==> s <= b < e
  {
    if e !in m {
      var j :| j in m && m[j].endSeq == e;
    }
  }

  lemma Switched(m: Ranges, s: int, e: int, b: int, p: Range -> bool, q: Range -> bool)
    requires Keyed(m) && Disjoint(m) && s in m && Boundary(m, e) && s < e && Half(m, s, e, p, q)
    ensures forall k :: Covers(m, k, b) ==> if s <= b < e then q(m[k]) else p(m[k])
  {
    forall k | Covers(m, k, b)
      ensures s <= k < e <==> s <= b < e
    {
      WithinSegment(m, s, e, b, k);
    }
  }

  /** Reception `g` on the entry at byte `b`, for properties `p` before and `q` behind it. */
  lemma ReceptionTurns(m: Ranges, f: Front, firstSeq: int, g: DataSeg, b: int, p: Range -> bool, q: Range -> bool)
    requires ReceiveState(m, f) && ReceivedStep(f, firstSeq, g) && AllEntries(m, p) && KeptBySplit(p)
    requires Turns(p, q, RecvCall(f.last, firstSeq, g), g.startSeq, g.endSeq)
    ensures Keyed(m)
    ensures var r := ReceiveOne(m, f.last, firstSeq, g); r.Running? ==>
      && Disjoint(r.state)
      && forall k :: Covers(r.state, k, b) ==> if g.startSeq <= b < g.endSeq then q(r.state[k]) else p(r.state[k])
  {
    hide Insert, KeptBySplit, KeptByCut, TurnsInside, TurnsFound, Boundary, Range.Info, Disjoint, CountedOn;
    ReceiveKeyed(m, f);
    SplitIsCut(p, g.startSeq, g.endSeq);
    ReceptionReady(m, f, firstSeq, g);
    var c := RecvCall(f.last, firstSeq, g);
    assert Half(m, g.startSeq, g.startSeq, p, q);
    InsertTurns(m, c, g.startSeq, g.endSeq, 0, g.endSeq, p, q, g.startSeq);
    InsertSegment(m, c, g.startSeq, g.endSeq, 0, g.endSeq);
    var r := ReceiveOne(m, f.last, firstSeq, g);
    if r.Running? {
      Switched(r.state, g.startSeq, g.endSeq, b, p, q);
    }
  }

  lemma OfHolder(m: Ranges, b: int, p: Range -> bool)
    requires (forall k :: Covers(m, k, b) ==> p(m[k])) && Keyed(m)
    requires forall r: Range :: !(r.startSeq <= b < r.endSeq) ==> p(r)
    ensures AllEntries(m, p)
  {
    forall k | k in m
      ensures p(m[k])
    {
      if m[k].startSeq <= b < m[k].endSeq {
        assert Covers(m, k, b);
      }
    }
  }

  /** A later reception counts on the entry at byte `b`, and may cut it. */
  lemma LaterReception(m: Ranges, f: Front, firstSeq: int, g: DataSeg, b: int, lo: int, n: nat, time: TimeVal)
    requires ReceiveState(m, f) && ReceivedStep(f, firstSeq, g) && n > 0 && AllEntries(m, HeardAs(b, lo, n, time))
    ensures Keyed(m)
    ensures var r := ReceiveOne(m, f.last, firstSeq, g); r.Running? ==>
      AllEntries(r.state, HeardAs(b, lo, if g.startSeq <= b < g.endSeq then n + 1 else n, time))
  {
    hide ReceiveOne, KeptBySplit, Turns, ReceiveState, AllEntries;
    ReceiveKeyed(m, f);
    var c, inside := RecvCall(f.last, firstSeq, g), g.startSeq <= b < g.endSeq;
    HeardSplits(b, lo, n, time);
    LaterTurns(c, b, lo, n, time, g.startSeq, g.endSeq);
    var p, q := HeardAs(b, lo, n, time), HeardAs(b, lo, if inside then n + 1 else n, time);
    ReceptionTurns(m, f, firstSeq, g, b, p, q);
    var r := ReceiveOne(m, f.last, firstSeq, g);
    if r.Running? {
      ReceiveOneKeyed(m, f.last, firstSeq, g);
      OfHolder(r.state, b, q);
    }
  }

  /** Before the first reception of byte `b` nothing is recorded for it, afterwards its time. */
  lemma EarlyReception(m: Ranges, f: Front, firstSeq: int, g: DataSeg, b: int)
    requires ReceiveState(m, f) && ReceivedStep(f, firstSeq, g) && AllEntries(m, Unheard(b))
    ensures Keyed(m)
    ensures var r := ReceiveOne(m, f.last, firstSeq, g); r.Running? ==>
      AllEntries(r.state, if g.startSeq <= b < g.endSeq then HeardOnce(b, g.tstampPcap) else Unheard(b))
  {
    hide ReceiveOne, KeptBySplit, Turns, ReceiveState, AllEntries;
    ReceiveKeyed(m, f);
    var c, inside := RecvCall(f.last, firstSeq, g), g.startSeq <= b < g.endSeq;
    HeardSplits(b, 0, 1, NO_TIME);
    EarlyTurns(c, b, g.startSeq, g.endSeq);
    var q := if inside then HeardOnce(b, g.tstampPcap) else Unheard(b);
    ReceptionTurns(m, f, firstSeq, g, b, Unheard(b), q);
    var r := ReceiveOne(m, f.last, firstSeq, g);
    if r.Running? {
      ReceiveOneKeyed(m, f.last, firstSeq, g);
      OfHolder(r.state, b, q);
    }
  }

  // ---------- where the entry starts ----------

  /** Reception `g` starts or ends within the entry from `lo` on, at or before byte `b`. */
  predicate CutsBefore(g: DataSeg, lo: int, b: int) {
    lo < g.startSeq <= b || lo < g.endSeq <= b
  }

  /** The entry at byte `b` starts later than `lo` exactly from the first such reception on. */
  lemma StartMoves(m: Ranges, f: Front, firstSeq: int, g: DataSeg, b: int, lo: int)
    requires ReceiveState(m, f) && ReceivedStep(f, firstSeq, g) && lo <= b
    ensures Keyed(m)
    ensures var r := ReceiveOne(m, f.last, firstSeq, g); r.Running? ==>
      && (Clear(m, lo, b + 1) && !CutsBefore(g, lo, b) ==> Clear(r.state, lo, b + 1))
      && (CutsBefore(g, lo, b) ==> exists x :: lo < x <= b && Boundary(r.state, x))
  {
    hide Insert, Boundary, Range.Info, Disjoint, CountedOn, Clear;
    ReceiveKeyed(m, f);
    ReceptionReady(m, f, firstSeq, g);
    var c := RecvCall(f.last, firstSeq, g);
    InsertSegment(m, c, g.startSeq, g.endSeq, 0, g.endSeq);
    if Clear(m, lo, b + 1) && !CutsBefore(g, lo, b) {
      InsertClear(m, c, g.startSeq, g.endSeq, 0, g.endSeq, lo, b + 1);
    }
    var r := ReceiveOne(m, f.last, firstSeq, g);
    if r.Running? {
      KeyIsBoundary(r.state, g.startSeq);
    }
  }

  /** An entry does not reach over a boundary. */
  lemma HolderBehind(m: Ranges, k: int, b: int, x: int)
    requires Keyed(m) && Disjoint(m) && Covers(m, k, b) && Boundary(m, x) && x <= b
    ensures x <= k
  {
    if x !in m {
      var j :| j in m && m[j].endSeq == x;
    }
  }

  // ---------- any run of receptions ----------

  predicate Brings(g: DataSeg, b: int) {
    g.startSeq <= b < g.endSeq
  }

  /** Reception `i` is the first that carries byte `b`. */
  predicate FirstCarrier(segs: seq<DataSeg>, i: nat, b: int) {
    i < |segs| && Brings(segs[i], b) && forall j :: 0 <= j < i ==> !Brings(segs[j], b)
  }

  /** A reception behind the first one with the byte cuts the byte's entry at or before the byte. */
  predicate CutLater(segs: seq<DataSeg>, i: nat, lo: int, b: int) {
    exists j :: i < j < |segs| && CutsBefore(segs[j], lo, b)
  }

  /** What the map says of byte `b`, whose entry started at `lo` after its first reception, at `time`. */
  ghost predicate HeardIn(m: Ranges, segs: seq<DataSeg>, i: nat, b: int, lo: int, time: TimeVal) {
    && lo <= b
    && (exists n: nat :: n > 0 && AllEntries(m, HeardAs(b, lo, n, time)))
    && (!CutLater(segs, i, lo, b) ==> Clear(m, lo, b + 1))
    && (CutLater(segs, i, lo, b) ==> exists x :: lo < x <= b && Boundary(m, x))
  }

  lemma {:induction false} NothingHeard(m: Ranges, f: Front, firstSeq: int, segs: seq<DataSeg>, b: int)
    requires ReceiveState(m, f) && ReceivedRun(f, firstSeq, segs) && AllEntries(m, Unheard(b))
    requires forall j :: 0 <= j < |segs| ==> !Brings(segs[j], b)
    ensures Keyed(m)
    ensures var r := ReceiveAll(m, f.last, firstSeq, segs); r.Running? ==> AllEntries(r.state, Unheard(b))
  {
    hide ReceiveState, ReceiveOne, AllEntries;
    ReceiveKeyed(m, f);
    if segs != [] {
      var n := |segs| - 1;
      NothingHeard(m, f, firstSeq, segs[..n], b);
      ReceptionsCounted(m, f, firstSeq, segs[..n]);
      var r := ReceiveAll(m, f.last, firstSeq, segs[..n]);
      if r.Running? {
        EarlyReception(r.state, f, firstSeq, segs[n], b);
      }
    }
  }

  lemma FirstHeard(m: Ranges, f: Front, firstSeq: int, segs: seq<DataSeg>, b: int, lo: int)
    requires ReceiveState(m, f) && ReceivedRun(f, firstSeq, segs) && AllEntries(m, Unheard(b))
    requires segs != [] && FirstCarrier(segs, |segs| - 1, b)
    ensures Keyed(m)
    ensures var r := ReceiveAll(m, f.last, firstSeq, segs);
      r.Running? && Covers(r.state, lo, b) ==> HeardIn(r.state, segs, |segs| - 1, b, lo, segs[|segs| - 1].tstampPcap)
  {
    hide ReceiveOne, AllEntries, ReceiveState;
    ReceiveKeyed(m, f);
    var n := |segs| - 1;
    NothingHeard(m, f, firstSeq, segs[..n], b);
    ReceptionsCounted(m, f, firstSeq, segs[..n]);
    ReceptionsCounted(m, f, firstSeq, segs);
    var r := ReceiveAll(m, f.last, firstSeq, segs);
    if r.Running? && Covers(r.state, lo, b) {
      EarlyReception(ReceiveAll(m, f.last, firstSeq, segs[..n]).state, f, firstSeq, segs[n], b);
      ReceivedDisjoint(r.state, f);
      HolderHeard(r.state, b, lo, segs[n].tstampPcap);
      assert HeardIn(r.state, segs, n, b, lo, segs[n].tstampPcap);
    }
  }

  lemma ReceivedDisjoint(m: Ranges, f: Front)
    requires ReceiveState(m, f)
    ensures Keyed(m) && Disjoint(m)
  {
  }

  lemma HolderHeard(m: Ranges, b: int, lo: int, time: TimeVal)
    requires Keyed(m) && Disjoint(m) && Covers(m, lo, b) && AllEntries(m, HeardOnce(b, time))
    ensures AllEntries(m, HeardAs(b, lo, 1, time)) && Clear(m, lo, b + 1)
  {
    forall k | k in m
      ensures Heard(m[k], b, lo, 1, time) && (k <= lo || b < k)
    {
      assert HeardOnce(b, time)(m[k]);
      LaterBeyond(m, lo);
    }
  }

  lemma HeardOn(m: Ranges, f: Front, firstSeq: int, segs: seq<DataSeg>, i: nat, b: int, lo: int, time: TimeVal)
    requires ReceiveState(m, f) && i < |segs| - 1 && ReceivedStep(f, firstSeq, segs[|segs| - 1])
    requires HeardIn(m, segs[..|segs| - 1], i, b, lo, time)
    ensures Keyed(m)
    ensures var r := ReceiveOne(m, f.last, firstSeq, segs[|segs| - 1]); r.Running? ==> HeardIn(r.state, segs, i, b, lo, time)
  {
    hide ReceiveOne, AllEntries, ReceiveState, Boundary, Clear, CutsBefore;
    ReceiveKeyed(m, f);
    var g, early := segs[|segs| - 1], segs[..|segs| - 1];
    var n: nat :| n > 0 && AllEntries(m, HeardAs(b, lo, n, time));
    LaterReception(m, f, firstSeq, g, b, lo, n, time);
    StartMoves(m, f, firstSeq, g, b, lo);
    ReceptionBoundary(m, f, firstSeq, g);
    CutOn(segs, i, lo, b);
  }

  lemma CutOn(segs: seq<DataSeg>, i: nat, lo: int, b: int)
    requires i < |segs| - 1
    ensures var n := |segs| - 1; CutLater(segs, i, lo, b) <==> CutLater(segs[..n], i, lo, b) || CutsBefore(segs[n], lo, b)
  {
    hide CutsBefore;
    var n := |segs| - 1;
    if j :| i < j < |segs| && CutsBefore(segs[j], lo, b) {
      assert j < n ==> CutsBefore(segs[..n][j], lo, b);
    }
    if CutLater(segs[..n], i, lo, b) {
      var j :| i < j < n && CutsBefore(segs[..n][j], lo, b);
      assert CutsBefore(segs[j], lo, b);
    }
    if CutsBefore(segs[n], lo, b) {
      assert CutLater(segs, i, lo, b);
    }
  }

  lemma {:induction false} HeardThroughout(m: Ranges, f: Front, firstSeq: int, segs: seq<DataSeg>, i: nat, b: int, lo: int)
    requires ReceiveState(m, f) && ReceivedRun(f, firstSeq, segs) && AllEntries(m, Unheard(b)) && FirstCarrier(segs, i, b)
    ensures Keyed(m)
    ensures var r1, r := ReceiveAll(m, f.last, firstSeq, segs[..i + 1]), ReceiveAll(m, f.last, firstSeq, segs);
      r.Running? ==> r1.Running? && (Covers(r1.state, lo, b) ==> HeardIn(r.state, segs, i, b, lo, segs[i].tstampPcap))
  {
    hide ReceiveOne, AllEntries, ReceiveState, HeardIn;
    ReceiveKeyed(m, f);
    var n := |segs| - 1;
    if i == n {
      assert segs[..i + 1] == segs;
      FirstHeard(m, f, firstSeq, segs, b, lo);
    } else {
      assert segs[..n][..i + 1] == segs[..i + 1] && segs[..n][i] == segs[i];
      HeardThroughout(m, f, firstSeq, segs[..n], i, b, lo);
      ReceptionsCounted(m, f, firstSeq, segs[..n]);
      var r := ReceiveAll(m, f.last, firstSeq, segs[..n]);
      if r.Running? && Covers(ReceiveAll(m, f.last, firstSeq, segs[..i + 1]).state, lo, b) {
        HeardOn(r.state, f, firstSeq, segs, i, b, lo, segs[i].tstampPcap);
      }
    }
  }

  // ---------- the whole run ----------

  /** `m1` is the map right after the first reception `i` of byte `b`, `m` the final one. The recorded receive
      time of `b` is that of its first reception if no later one starts or ends, at or before the byte, within
      the entry that held it then. Otherwise a split has dropped the time. */
  ghost predicate TimeOfFirst(m1: Ranges, m: Ranges, segs: seq<DataSeg>, i: nat, b: int)
    requires i < |segs|
  {
    && Covered(m1, b) && Covered(m, b)
    && forall lo, k :: Covers(m1, lo, b) && Covers(m, k, b) ==>
         && (k == lo <==> !CutLater(segs, i, lo, b))
         && m[k].receivedTstampPcap == if CutLater(segs, i, lo, b) then NO_TIME else segs[i].tstampPcap
  }

  lemma HeardAtEnd(m: Ranges, segs: seq<DataSeg>, i: nat, b: int, lo: int, k: int, time: TimeVal)
    requires Keyed(m) && Disjoint(m) && HeardIn(m, segs, i, b, lo, time) && Covers(m, k, b)
    ensures k == lo <==> !CutLater(segs, i, lo, b)
    ensures m[k].receivedTstampPcap == if CutLater(segs, i, lo, b) then NO_TIME else time
  {
    hide CutLater, Boundary;
    var n: nat :| n > 0 && AllEntries(m, HeardAs(b, lo, n, time));
    assert HeardAs(b, lo, n, time)(m[k]);
    if CutLater(segs, i, lo, b) {
      var x :| lo < x <= b && Boundary(m, x);
      HolderBehind(m, k, b, x);
    }
  }

  lemma ReceptionTimes(m: Ranges, f: Front, firstSeq: int, segs: seq<DataSeg>, i: nat, b: int)
    requires ReceiveState(m, f) && ReceivedRun(f, firstSeq, segs) && AllEntries(m, NotReceived) && FirstCarrier(segs, i, b)
    ensures Keyed(m)
    ensures var r1, r := ReceiveAll(m, f.last, firstSeq, segs[..i + 1]), ReceiveAll(m, f.last, firstSeq, segs);
      r.Running? ==> r1.Running? && TimeOfFirst(r1.state, r.state, segs, i, b)
  {
    hide ReceiveAll, ReceiveState, HeardIn, CutLater, Covers, Covered, Disjoint, At, Total;
    ReceiveKeyed(m, f);
    assert AllEntries(m, Unheard(b)) by { NotReceivedUnheard(m, b); }
    var r := ReceiveAll(m, f.last, firstSeq, segs);
    HeardThroughout(m, f, firstSeq, segs, i, b, b);
    if r.Running? {
      var r1 := ReceiveAll(m, f.last, firstSeq, segs[..i + 1]);
      ReceptionsCounted(m, f, firstSeq, segs[..i + 1]);
      ReceptionsCounted(m, f, firstSeq, segs);
      assert ReceivedStep(f, firstSeq, segs[i]);
      Held(r1.state, f, b);
      Held(r.state, f, b);
      forall lo, k | Covers(r1.state, lo, b) && Covers(r.state, k, b)
        ensures k == lo <==> !CutLater(segs, i, lo, b)
        ensures k in r.state && r.state[k].receivedTstampPcap == if CutLater(segs, i, lo, b) then NO_TIME else segs[i].tstampPcap
      {
        HeardThroughout(m, f, firstSeq, segs, i, b, lo);
        HeardAtEnd(r.state, segs, i, b, lo, k, segs[i].tstampPcap);
        assert k in r.state by { Key(r.state, k, b); }
      }
    }
  }

  lemma Key(m: Ranges, k: int, b: int)
    requires Covers(m, k, b)
    ensures k in m
  {
  }

  lemma Held(m: Ranges, f: Front, b: int)
    requires ReceiveState(m, f) && f.Lo() <= b < f.top
    ensures Covered(m, b) && Keyed(m) && Disjoint(m)
  {
  }

  lemma NotReceivedUnheard(m: Ranges, b: int)
    requires AllEntries(m, NotReceived)
    ensures AllEntries(m, Unheard(b))
  {
    forall k | k in m
      ensures Unheard(b)(m[k])
    {
      assert NotReceived(m[k]);
    }
  }

  /** That is so for every byte at the end of every run. */
  lemma RunReceiveTimes(t: Trace, i: nat, b: int)
    requires WellFormed(t) && FirstCarrier(t.received, i, b)
    ensures var r := RunAll(t); r.Running? ==>
      && Keyed(r.state.acked)
      && var r1 := ReceiveAll(r.state.acked, FrontOf(t.sent).last, t.firstSeq, t.received[..i + 1]);
      r1.Running? && TimeOfFirst(r1.state, r.state.ranges, t.received, i, b)
  {
    hide RunAll, ReceiveAll, FrontOf, ReceiveState, GapFree, Ordered, TimeOfFirst, AllEntries, SendAll, AckAll;
    RunCompletes(t);
    var r := RunAll(t);
    if r.Running? {
      AckedFacts(t, r.state.sent, r.state.acked);
      ReceptionTimes(r.state.acked, FrontOf(t.sent), t.firstSeq, t.received, i, b);
    }
  }
}
