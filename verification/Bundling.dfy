/** What bundled packets do to the counters of the index: how many packets the entries count for them, and
    how many bytes count as redundant. */
module Bundling {
  import opened Common
  import opened OrderedMap
  import opened ByteRanges
  import opened Index
  import opened ByteView
  import opened Insertion
  import opened Recursion
  import opened Accounting
  import opened Entries
  import opened Registration
  import opened SendRun
  import opened SendTheorems
  import opened Acks
  import opened AckRun
  import opened ReceiveRun
  import opened Report
  import opened WholeRun
  import opened Stretch
  import opened Edges

  // ---------- packets counted ----------

  lemma TailPackets(m: Ranges, c: Call, base: int, e: int)
    requires Ready(m, c, base, e, base) && c.itype == InsertSent
    ensures TailGain(m, c, base, e, PacketsSent) == if c.seg.isRdb && base !in m then 0 else 1
  {
  }

  /** A data packet adds one to the packets that the entries count, and a bundle adds another one if an
      entry without bytes takes its new bytes. */
  lemma DataPacketsCounted(st: SendState, f: Front, firstSeq: int, g: DataSeg)
    requires SendInv(st, f) && GapFreeStep(f, g) && g.payloadSize > 0
    ensures var r := SendOne(st, firstSeq, g); r.Running? ==>
      Total(r.state.ranges, PacketsSent) ==
      Total(st.ranges, PacketsSent) + 1 + (if IsBundle(g, f.top) && f.top in st.ranges then 1 else 0)
  {
    hide Insert, Range.Info, Gains, Additive, TailGain, Total, NewTail;
    DataIsReady(st, f, firstSeq, g);
    BundleIsOverlap(st.totals, g);
    var m, c, base := st.ranges, CallFor(st, firstSeq, g), f.Base();
    QuantitiesAdditive();
    PacketGains(c);
    InsertTotal(m, c, g.startSeq, g.endSeq, 0, base, PacketsSent, 0, 1);
    if g.endSeq > base {
      ReadyTail(m, c, g.startSeq, g.endSeq, base);
      TailPackets(m, c, base, g.endSeq);
    }
  }

  /** The bundles whose new bytes an entry took that a pure ACK had left. */
  function CountedTwice(segs: seq<DataSeg>): set<int> {
    set i | 0 <= i < |segs| && IsBundle(segs[i], Highest(segs[..i])) && HeldTail(segs[..i])
  }

  lemma CountedTwiceStep(segs: seq<DataSeg>)
    requires segs != []
    ensures var before, g := segs[..|segs| - 1], segs[|segs| - 1];
      |CountedTwice(segs)| == |CountedTwice(before)| + (if IsBundle(g, Highest(before)) && HeldTail(before) then 1 else 0)
  {
    hide Highest, IsBundle, HeldTail;
    var n := |segs| - 1;
    var before, g := segs[..n], segs[n];
    assert forall i :: 0 <= i < n ==> before[..i] == segs[..i];
    PositionsStep(CountedTwice(before), CountedTwice(segs), n, IsBundle(g, Highest(before)) && HeldTail(before));
  }

  /** After any gap-free trace, bundled or not: the entries count every packet once, and those bundles twice. */
  lemma {:induction false} PacketsOfRun(firstSeq: int, segs: seq<DataSeg>)
    requires GapFree(segs) && Packets(segs)
    ensures var r := SendAll(firstSeq, segs); r.Running? ==> Total(r.state.ranges, PacketsSent) == |segs| + |CountedTwice(segs)|
  {
    hide SendInv, GapFreeStep, NextFront, Insert, InsertEmpty, SendOne, Ledger, CountedTwice, HeldTail, Total;
    if segs == [] {
      EmptyStart(firstSeq);
      assert CountedTwice([]) == {} by { NoneTwice(); }
      assert Total(map[], PacketsSent) == 0 by { NothingCounted(); }
    } else {
      var n := |segs| - 1;
      GapFreeInit(segs);
      PacketsOfRun(firstSeq, segs[..n]);
      SendRefinesCounter(firstSeq, segs[..n]);
      SendConserves(firstSeq, segs[..n]);
      CountedTwiceStep(segs);
      var r := SendAll(firstSeq, segs[..n]);
      if r.Running? {
        var f := FrontOf(segs[..n]);
        TopIsHighest(segs[..n]);
        if segs[n].payloadSize > 0 {
          DataPacketsCounted(r.state, f, firstSeq, segs[n]);
          assert segs[..n][..n] == segs[..n];
          TailHeld(firstSeq, segs[..n], n);
          BundleBeforeFin(r.state, f, segs[n], segs[..n]);
        } else {
          ControlLedger(r.state, f, firstSeq, segs[n]);
          ControlStep(r.state, f, firstSeq, segs[n]);
        }
      }
    }
  }

  lemma NoneTwice()
    ensures CountedTwice([]) == {}
  {
  }

  lemma NothingCounted()
    ensures forall f: Range -> int :: Total(map[], f) == 0
  {
  }

  lemma BundleBeforeFin(st: SendState, f: Front, g: DataSeg, segs: seq<DataSeg>)
    requires SendInv(st, f) && GapFreeStep(f, g) && TailAsTold(st.ranges, f, segs)
    ensures IsBundle(g, f.top) ==> (f.top in st.ranges <==> HeldTail(segs))
  {
    hide HeldTail;
  }

  // ---------- bytes counted as redundant: exactly what each insertion adds ----------

  /** What a cut at `x` makes the entries from `from` on forget: the part behind it starts without bundle count. */
  ghost function Forgotten(m: Ranges, x: int, from: int): int {
    if x !in m && Covered(m, x) then
      var k :| Covers(m, k, x);
      if from <= k then m[k].rdbCount * (m[k].endSeq - x) else 0
    else 0
  }

  lemma ForgottenIs(m: Ranges, x: int, from: int, k: int)
    requires Disjoint(m) && Covers(m, k, x) && x !in m
    ensures Forgotten(m, x, from) == if from <= k then m[k].rdbCount * (m[k].endSeq - x) else 0
  {
    assert Covered(m, x);
    var j :| Covers(m, j, x) && Forgotten(m, x, from) == if from <= j then m[j].rdbCount * (m[j].endSeq - x) else 0;
    CoverUnique(m, j, k, x);
  }

  /** How often counting call `c` on an entry counts each of its bytes as sent again. */
  function Again(c: Call): int {
    if c.itype == InsertSent then (if c.seg.retrans then 1 else 0) + (if c.seg.isRdb then 1 else 0) else 0
  }

  /** The same on a part that was just cut out: the retransmission counter grows for bundles, too. */
  function AgainInside(c: Call): int {
    if c.itype == InsertSent then 1 + (if c.seg.isRdb then 1 else 0) else 0
  }

  lemma SplitRedundant(m: Ranges, k: int, at: int)
    requires Keyed(m) && k in m && k < at < m[k].endSeq && at !in m
    ensures Total(SplitAt(m, k, at), RedundantBytes) == Total(m, RedundantBytes) - m[k].rdbCount * (m[k].endSeq - at)
  {
    hide Total;
    var r := m[k];
    var left := r.Left(at);
    TotalUpdate(m, k, left, RedundantBytes);
    TotalInsert(m[k := left], at, r.Right(at), RedundantBytes);
    Distribution(at - k, r.endSeq - at, r.dataRetransCount, r.rdbCount);
  }

  lemma Distribution(x: int, y: int, a: int, b: int)
    ensures x * (a + b) + y * (a + 0) == (x + y) * (a + b) - b * y
  {
  }

  lemma CarveRedundant(m: Ranges, k: int, s: int, q: int)
    requires Keyed(m) && Disjoint(m) && k in m && k <= s < q <= m[k].endSeq
    ensures Total(Carve(m, k, s, q), RedundantBytes) == Total(m, RedundantBytes)
      - (if k < s then m[k].rdbCount * (m[k].endSeq - s) else if q < m[k].endSeq then m[k].rdbCount * (m[k].endSeq - q) else 0)
  {
    hide Total, Range.Info;
    if k < s {
      SplitDisjoint(m, k, s);
      SplitRedundant(m, k, s);
    }
    var m' := if k < s then SplitAt(m, k, s) else m;
    if q < m[k].endSeq {
      SplitDisjoint(m', s, q);
      SplitRedundant(m', s, q);
      assert k < s ==> m'[s].rdbCount == 0 && 0 * (m'[s].endSeq - q) == 0;
    }
  }

  /** The two counters after one more count. */
  predicate CountedAgain(r: Range, r': Range, gain: int) {
    r'.byteCount == r.byteCount && r'.dataRetransCount + r'.rdbCount == r.dataRetransCount + r.rdbCount + gain
  }

  lemma InsideAgain(r: Range, c: Call, s: int, level: nat, ends: bool)
    ensures CountedAgain(r, CountInside(r, c, s, level, ends), AgainInside(c))
  {
    hide Range.Info;
  }

  lemma ExistingAgain(r: Range, c: Call, s: int, level: nat)
    ensures CountedAgain(r, CountExisting(r, c, s, level), Again(c))
  {
    hide Range.Info;
  }

  lemma PartRedundant(m: Ranges, c: Call, s: int, e: int, level: nat, part: Range)
    ensures RedundantBytes(CountPart(m, c, s, e, level, part))
         == RedundantBytes(part) + (if s in m then Again(c) else AgainInside(c)) * part.byteCount
  {
    hide Range.Info, CountInside, CountExisting, Again, AgainInside;
    InsideAgain(part, c, s, level, part.endSeq == e);
    ExistingAgain(part, c, s, level);
    Distribution(0, part.byteCount, part.dataRetransCount + part.rdbCount, if s in m then Again(c) else AgainInside(c));
  }

  lemma CarvedStepRedundant(m: Ranges, c: Call, s: int, e: int, level: nat, k: int)
    requires OldReady(m, c, s, e, k)
    ensures var q := PartEnd(m, k, e);
      Total(CarvedStep(m, c, s, e, level, k), RedundantBytes)
      == Total(m, RedundantBytes) + (if s in m then Again(c) else AgainInside(c)) * (q - s)
         - Forgotten(m, s, 0) - (if q == e then Forgotten(m, e, s) else 0)
  {
    hide Range.Left, Range.Right, Range.Info, CountPart, Carve, Total, Forgotten, RedundantBytes, Again, AgainInside;
    var q := PartEnd(m, k, e);
    var carved := Carve(m, k, s, q);
    CarveShape(m, k, s, q);
    CarveRedundant(m, k, s, q);
    PartRedundant(m, c, s, e, level, carved[s]);
    TotalUpdate(carved, s, CountPart(m, c, s, e, level, carved[s]), RedundantBytes);
    StepForgets(m, s, e, k);
    assert carved[s].byteCount == q - s;
  }

  lemma StepForgets(m: Ranges, s: int, e: int, k: int)
    requires Keyed(m) && Disjoint(m) && Covers(m, k, s) && s < e
    ensures Forgotten(m, s, 0) == if k < s then m[k].rdbCount * (m[k].endSeq - s) else 0
    ensures e <= m[k].endSeq ==> Forgotten(m, e, s) == if k == s && e < m[k].endSeq then m[k].rdbCount * (m[k].endSeq - e) else 0
  {
    LaterBeyond(m, k);
    if k < s {
      assert s !in m;
      ForgottenIs(m, s, 0, k);
    }
    if e < m[k].endSeq {
      ForgottenIs(m, e, s, k);
    } else if e == m[k].endSeq && e !in m && Covered(m, e) {
      var j :| Covers(m, j, e);
      assert j == k || j < k || m[k].endSeq <= j;
    }
  }

  /** Entries without bytes were not counted as sent again, and have no payload. */
  ghost predicate EmptiesFresh(m: Ranges) {
    forall k :: k in m && m[k].Empty() ==> m[k].dataRetransCount == 0 && m[k].rdbCount == 0 && m[k].originalPayloadSize == 0
  }

  lemma TailRedundant(m: Ranges, c: Call, base: int, e: int)
    requires Ready(m, c, base, e, base) && base < e && EmptiesFresh(m)
    ensures TailGain(m, c, base, e, RedundantBytes) == 0
  {
    if base in m {
      assert m[base].Empty();
    }
  }

  /** What is still to be cut is the same after a step. */
  lemma StepKeepsRest(m: Ranges, m': Ranges, c: Call, s: int, q: int, e: int, base: int, k: int)
    requires Keyed(m) && Disjoint(m) && Keyed(m') && Disjoint(m') && Covers(m, k, s) && m[k].endSeq == q && s < q < e
    requires Cut(m, m', k, s, q) && CountedOn(m, m', c, s, q)
    requires q in m' || (q == base && !Covered(m', base))
    ensures Forgotten(m', q, 0) == 0 && Forgotten(m', e, q) == Forgotten(m, e, s)
  {
    hide Range.Left, Range.Right, Range.Info, CountAt;
    LaterBeyond(m, k);
    assert At(m', e) == At(m, e);
    assert e in m' <==> e in m;
    if e !in m && Covered(m, e) {
      var j :| Covers(m, j, e);
      assert j != k && q <= j;
      assert m'[j] == m[j];
      ForgottenIs(m, e, s, j);
      ForgottenIs(m', e, q, j);
    }
  }

  lemma NothingBeyond(m: Ranges, c: Call, s: int, e: int, base: int)
    requires Ready(m, c, s, e, base) && base < e
    ensures !Covered(m, base) && !Covered(m, e) && Forgotten(m, base, 0) == 0 && Forgotten(m, e, s) == 0
  {
  }

  lemma EmptiesStillFresh(m: Ranges, m': Ranges)
    requires EmptiesFresh(m) && SameEmpties(m, m')
    ensures EmptiesFresh(m')
  {
  }

  /** The first part of the segment that the insertion counts on, if it starts within an entry. */
  ghost function FirstPart(m: Ranges, s: int, e: int): int {
    if s !in m && Covered(m, s) then
      var k :| Covers(m, k, s);
      Min(e, m[k].endSeq) - s
    else 0
  }

  lemma FirstPartIs(m: Ranges, s: int, e: int, k: int)
    requires Disjoint(m) && Covers(m, k, s) && s !in m
    ensures FirstPart(m, s, e) == Min(e, m[k].endSeq) - s
  {
    assert Covered(m, s);
    var j :| Covers(m, j, s) && FirstPart(m, s, e) == Min(e, m[j].endSeq) - s;
    CoverUnique(m, j, k, s);
  }

  /** What an insertion adds to the redundant bytes: the old bytes of the segment are counted again, a bundle
      that starts within an entry counts its part of that entry twice, and every cut drops the bundle count of
      the part behind it. */
  ghost function Added(m: Ranges, c: Call, s: int, e: int, base: int): int {
    Again(c) * (Min(e, base) - s) + (AgainInside(c) - Again(c)) * FirstPart(m, s, e) - Forgotten(m, s, 0) - Forgotten(m, e, s)
  }

  lemma TailAdded(m: Ranges, c: Call, e: int, base: int)
    requires Ready(m, c, base, e, base) && EmptiesFresh(m)
    ensures Total(m[base := NewTail(m, c, base, e)], RedundantBytes) == Total(m, RedundantBytes) + Added(m, c, base, e, base)
  {
    hide NewTail, RedundantBytes, Again, AgainInside, Total, Forgotten, FirstPart, TailGain, Covered;
    TailTotal(m, c, base, e, RedundantBytes);
    TailRedundant(m, c, base, e);
    NothingBeyond(m, c, base, e, base);
    NoFirstPart(m, base, e);
  }

  lemma FirstPartOf(m: Ranges, s: int, e: int, k: int)
    requires Disjoint(m) && Covers(m, k, s)
    ensures FirstPart(m, s, e) == if s in m then 0 else PartEnd(m, k, e) - s
  {
    if s in m {
      NoFirstPart(m, s, e);
    } else {
      FirstPartIs(m, s, e, k);
    }
  }

  lemma StepAdded(m: Ranges, c: Call, s: int, e: int, level: nat, base: int, k: int)
    requires Ready(m, c, s, e, base) && s < base && OldReady(m, c, s, e, k) && PartEnd(m, k, e) <= base && EmptiesFresh(m)
    ensures var m' := CarvedStep(m, c, s, e, level, k); var q := PartEnd(m, k, e);
      if q == e then Total(m', RedundantBytes) == Total(m, RedundantBytes) + Added(m, c, s, e, base)
      else
        && Ready(m', c, q, e, base) && EmptiesFresh(m')
        && Total(m', RedundantBytes) + Added(m', c, q, e, base) == Total(m, RedundantBytes) + Added(m, c, s, e, base)
  {
    hide CarvedStep, CountAt, Range.Info, Range.Left, Range.Right, RedundantBytes, Again, AgainInside, Total, Forgotten, FirstPart;
    CarvedStepRedundant(m, c, s, e, level, k);
    FirstPartOf(m, s, e, k);
    var m' := CarvedStep(m, c, s, e, level, k);
    var q := PartEnd(m, k, e);
    GainSplits(Again(c), AgainInside(c), q - s, Min(e, base) - q, s in m);
    if q < e {
      StepLeaves(m, c, s, e, level, base, k);
      NoFirstPart(m', q, e);
    }
  }

  /** What is left to do after a step that did not reach the end. */
  lemma StepLeaves(m: Ranges, c: Call, s: int, e: int, level: nat, base: int, k: int)
    requires Ready(m, c, s, e, base) && s < base && OldReady(m, c, s, e, k) && PartEnd(m, k, e) <= base && PartEnd(m, k, e) < e
    requires EmptiesFresh(m)
    ensures var m' := CarvedStep(m, c, s, e, level, k); var q := PartEnd(m, k, e);
      && Ready(m', c, q, e, base) && EmptiesFresh(m') && (q in m' || !Covered(m', q))
      && Forgotten(m', q, 0) == 0 && Forgotten(m', e, q) == Forgotten(m, e, s)
  {
    hide CarvedStep, CountAt, Range.Info, Range.Left, Range.Right, Forgotten;
    CarvedStepRefines(m, c, s, e, level, k);
    var m' := CarvedStep(m, c, s, e, level, k);
    var q := PartEnd(m, k, e);
    PartEndsAtEntry(m, c, s, e, base, k);
    StillReady(m, m', c, s, q, e, base);
    EmptiesStillFresh(m, m');
    CarvedStepCut(m, c, s, e, level, k);
    if q !in m' {
      NothingBeyond(m', c, q, e, base);
    }
    StepKeepsRest(m, m', c, s, q, e, base, k);
  }

  /** Exactly how the redundant bytes change by an insertion of any depth. */
  lemma {:induction false} InsertRedundant(m: Ranges, c: Call, s: int, e: int, level: nat, base: int)
    requires Ready(m, c, s, e, base) && EmptiesFresh(m)
    ensures var r := Insert(m, c, s, e, level);
      r.Ok? ==> Total(r.ranges, RedundantBytes) == Total(m, RedundantBytes) + Added(m, c, s, e, base)
    decreases e - s
  {
    hide CarvedStep, Step, NewTail, RedundantBytes, Total, Added, Insert, Range.Info, Disjoint;
    InsertOnce(m, c, s, e, level);
    if s == base {
      StepNew(m, c, e, level);
      TailAdded(m, c, e, base);
    } else {
      var k := ReadyAt(m, c, s, e, base);
      StepOld(m, c, s, e, level, k);
      StepAdded(m, c, s, e, level, base, k);
      if PartEnd(m, k, e) < e {
        InsertRedundant(CarvedStep(m, c, s, e, level, k), c, PartEnd(m, k, e), e, level + 1, base);
      }
    }
  }

  lemma NoFirstPart(m: Ranges, s: int, e: int)
    requires s in m || !Covered(m, s)
    ensures FirstPart(m, s, e) == 0
  {
  }

  lemma GainSplits(a: int, b: int, x: int, y: int, found: bool)
    ensures (if found then a else b) * x + a * y == a * (x + y) + (b - a) * (if found then 0 else x)
  {
  }

  /** One step of the recursion. */
  lemma InsertOnce(m: Ranges, c: Call, s: int, e: int, level: nat)
    requires Keyed(m) && 0 <= s < e < s + MAX_RANGE_SIZE
    ensures match Step(m, c, s, e, level)
      case Done(m') => Insert(m, c, s, e, level) == Ok(m')
      case Again(m', at) => Keyed(m') && s <= at < e && Insert(m, c, s, e, level) == Insert(m', c, at, e, level + 1)
      case Threw => Insert(m, c, s, e, level) == Thrown
      case Aborted => Insert(m, c, s, e, level) == Abort
  {
    hide Step;
    StepProgress(m, c, s, e, level);
  }

  /** After any gap-free trace the entries without bytes are fresh. */
  lemma {:induction false} SendsFresh(firstSeq: int, segs: seq<DataSeg>)
    requires GapFree(segs) && Packets(segs)
    ensures var r := SendAll(firstSeq, segs); r.Running? ==> EmptiesFresh(r.state.ranges)
  {
    hide SendInv, GapFreeStep, NextFront, SendOne, EmptiesFresh;
    if segs == [] {
      assert EmptiesFresh(map[]) by { NoneEmpty(); }
    } else {
      var n := |segs| - 1;
      GapFreeInit(segs);
      SendsFresh(firstSeq, segs[..n]);
      SendRefinesCounter(firstSeq, segs[..n]);
      var r := SendAll(firstSeq, segs[..n]);
      if r.Running? {
        StepFresh(r.state, FrontOf(segs[..n]), firstSeq, segs[n]);
      }
    }
  }

  lemma NoneEmpty()
    ensures EmptiesFresh(map[])
  {
  }

  lemma StepFresh(st: SendState, f: Front, firstSeq: int, g: DataSeg)
    requires SendInv(st, f) && GapFreeStep(f, g) && EmptiesFresh(st.ranges)
    ensures var r := SendOne(st, firstSeq, g); r.Running? ==> EmptiesFresh(r.state.ranges)
  {
    hide Insert, InsertEmpty, Range.Info, CountAt;
    var c := CallFor(st, firstSeq, g);
    if g.payloadSize > 0 {
      DataIsReady(st, f, firstSeq, g);
      InsertSegment(st.ranges, c, g.startSeq, g.endSeq, 0, f.Base());
    } else {
      ControlEntry(st.ranges, c, g.startSeq);
    }
  }

  /** What a data packet adds to the redundant bytes, on any gap-free run: its old bytes, and what a bundle
      that starts within an entry counts twice, less what its cuts drop. A bundle that starts where an entry
      does adds exactly its overlap with the data sent before. */
  lemma PacketAdds(st: SendState, f: Front, firstSeq: int, g: DataSeg)
    requires SendInv(st, f) && GapFreeStep(f, g) && g.payloadSize > 0 && EmptiesFresh(st.ranges)
    ensures var r := SendOne(st, firstSeq, g); var m := st.ranges; r.Running? ==>
      var added := Total(r.state.ranges, RedundantBytes) - Total(m, RedundantBytes);
      && added == Min(g.endSeq, f.Base()) - g.startSeq + (if IsBundle(g, f.top) then FirstPart(m, g.startSeq, g.endSeq) else 0)
                  - Forgotten(m, g.startSeq, 0) - Forgotten(m, g.endSeq, g.startSeq)
      && (IsBundle(g, f.top) && g.startSeq in m ==> added == f.top - g.startSeq)
  {
    hide Insert, Range.Info, RedundantBytes, Total, Forgotten, FirstPart, Unanswered;
    DataIsReady(st, f, firstSeq, g);
    BundleIsOverlap(st.totals, g);
    var m, c, base := st.ranges, CallFor(st, firstSeq, g), f.Base();
    InsertRedundant(m, c, g.startSeq, g.endSeq, 0, base);
    if g.startSeq >= f.top {
      assert g.startSeq == base;
      NewOnly(m, c, g.startSeq, g.endSeq);
    } else if IsBundle(g, f.top) && g.startSeq in m {
      NothingBeyond(m, c, g.startSeq, g.endSeq, base);
      NoFirstPart(m, g.startSeq, g.endSeq);
      assert Forgotten(m, g.startSeq, 0) == 0 by { KeyForgetsNothing(m, g.startSeq, 0); }
    }
  }

  lemma NewOnly(m: Ranges, c: Call, s: int, e: int)
    requires Ready(m, c, s, e, s)
    ensures FirstPart(m, s, e) == 0
  {
    hide FirstPart;
    NothingBeyond(m, c, s, e, s);
    NoFirstPart(m, s, e);
  }

  lemma KeyForgetsNothing(m: Ranges, x: int, from: int)
    requires x in m
    ensures Forgotten(m, x, from) == 0
  {
  }

  // ---------- runs on which no bundled bytes are cut ----------

  /** Every data packet starts and ends at a point of `cuts`. */
  ghost predicate HasEdges(cuts: set<int>, segs: seq<DataSeg>) {
    forall i :: 0 <= i < |segs| && segs[i].payloadSize > 0 ==> segs[i].startSeq in cuts && segs[i].endSeq in cuts
  }

  /** Where a bundle repeats bytes, every point of `cuts` is an edge of an earlier packet, its own start included. */
  ghost predicate BundlesUncut(segs: seq<DataSeg>, cuts: set<int>) {
    forall i, x :: 0 <= i < |segs| && x in cuts && segs[i].startSeq <= x < Highest(segs[..i]) && IsBundle(segs[i], Highest(segs[..i])) ==>
      Edge(segs[..i], x)
  }

  /** The counters of an entry agree, and if it is still to be cut it counts no bundle. */
  ghost predicate Fits(r: Range, cuts: set<int>) {
    Agrees(r) && forall x :: x in cuts && r.startSeq < x < r.endSeq ==> r.rdbCount == 0
  }

  ghost function Fitting(cuts: set<int>): Range -> bool {
    (r: Range) => Fits(r, cuts)
  }

  /** An entry as it may be in `m`: it fits, no other entry starts within it, and it ends at or below `top`. */
  ghost function FittingIn(cuts: set<int>, m: Ranges, top: int): Range -> bool {
    (r: Range) => Fits(r, cuts) && r.endSeq <= top && forall j :: j in m ==> !(r.startSeq < j < r.endSeq)
  }

  lemma FittingCut(cuts: set<int>, m: Ranges, top: int, x: int, y: int)
    requires x in cuts && y in cuts
    ensures KeptByCut(FittingIn(cuts, m, top), x, y) && KeptByCut(Fitting(cuts), x, y)
  {
    hide Range.Left, Range.Right, Range.Info, Fits;
    forall r: Range, at: int | at in cuts && r.Sized() && r.startSeq < at < r.endSeq && Fits(r, cuts)
      ensures Fits(r.Left(at), cuts) && Fits(r.Right(at), cuts)
      ensures r.Left(at).startSeq == r.startSeq && r.Left(at).endSeq == at && r.Right(at).startSeq == at && r.Right(at).endSeq == r.endSeq
    {
      PiecesFit(r, at, cuts);
    }
  }

  lemma PiecesFit(r: Range, at: int, cuts: set<int>)
    requires at in cuts && r.startSeq < at < r.endSeq && Fits(r, cuts)
    ensures Fits(r.Left(at), cuts) && Fits(r.Right(at), cuts)
    ensures r.Left(at).startSeq == r.startSeq && r.Left(at).endSeq == at && r.Right(at).startSeq == at && r.Right(at).endSeq == r.endSeq
  {
  }

  lemma AllFittingIn(cuts: set<int>, m: Ranges, top: int)
    requires AllEntries(m, Fitting(cuts)) && Keyed(m) && Disjoint(m) && Below(m, top)
    ensures AllEntries(m, FittingIn(cuts, m, top))
  {
    hide Agrees;
    forall k | k in m
      ensures FittingIn(cuts, m, top)(m[k])
    {
      assert Fitting(cuts)(m[k]);
      LaterBeyond(m, k);
    }
  }

  /** Counting a retransmission, or a reception, keeps an entry fitting. */
  lemma AgainFits(r: Range, r': Range, c: Call, s: int, level: nat, ends: bool, cuts: set<int>)
    requires Fits(r, cuts) && !r.Empty() && (c.itype == InsertSent ==> c.seg.retrans && !c.seg.isRdb)
    requires r' == CountInside(r, c, s, level, ends) || r' == CountExisting(r, c, s, level)
    ensures Fits(r', cuts)
  {
    hide Range.Info;
    assert r'.startSeq == r.startSeq && r'.endSeq == r.endSeq && r'.rdbCount == r.rdbCount;
    assert r'.dataSentCount - r'.dataRetransCount == r.dataSentCount - r.dataRetransCount;
  }

  /** So does counting a bundle on an entry that is not to be cut any more. */
  lemma BundleFits(r: Range, c: Call, s: int, level: nat, cuts: set<int>)
    requires Agrees(r) && !r.Empty() && c.itype == InsertSent && c.seg.isRdb && !c.seg.retrans
    requires forall x :: x in cuts ==> !(r.startSeq < x < r.endSeq)
    ensures Fits(CountExisting(r, c, s, level), cuts)
  {
    hide Range.Info;
  }

  lemma SynFits(cuts: set<int>)
    ensures forall r: Range :: Fits(r, cuts) ==> Fits(r.(syn := r.syn + 1), cuts)
  {
  }

  lemma AgainTurns(c: Call, cuts: set<int>, m: Ranges, top: int, s: int, e: int)
    requires c.itype == InsertSent ==> c.seg.retrans && !c.seg.isRdb
    ensures Turns(FittingIn(cuts, m, top), Fitting(cuts), c, s, e) && Turns(Fitting(cuts), Fitting(cuts), c, s, e)
  {
    hide CountInside, CountExisting, Range.Info, Fits;
    SynFits(cuts);
    forall r: Range, x: int, level: nat, ends: bool | !r.Empty() && Fits(r, cuts)
      ensures Fits(CountInside(r, c, x, level, ends), cuts)
    {
      AgainFits(r, CountInside(r, c, x, level, ends), c, x, level, ends, cuts);
    }
    forall r: Range, x: int, level: nat | !r.Empty() && Fits(r, cuts)
      ensures Fits(CountExisting(r, c, x, level), cuts)
    {
      AgainFits(r, CountExisting(r, c, x, level), c, x, level, true, cuts);
    }
  }

  lemma BundleTurns(c: Call, cuts: set<int>, m: Ranges, top: int, s: int, e: int)
    requires c.itype == InsertSent && c.seg.isRdb && !c.seg.retrans
    requires forall x :: x in cuts && s <= x < top ==> x in m
    ensures TurnsFound(FittingIn(cuts, m, top), Fitting(cuts), c, s, e)
  {
    hide CountInside, CountExisting, Range.Info;
    SynFits(cuts);
    forall r: Range, x: int, level: nat | !r.Empty() && s <= r.startSeq && FittingIn(cuts, m, top)(r)
      ensures Fits(CountExisting(r, c, x, level), cuts)
    {
      BundleFits(r, c, x, level, cuts);
    }
  }

  lemma TailFits(m: Ranges, c: Call, base: int, e: int, cuts: set<int>)
    requires Ready(m, c, base, e, base) && base < e && c.itype == InsertSent && AllEntries(m, Fitting(cuts))
    ensures Fits(NewTail(m, c, base, e), cuts)
  {
    if base in m {
      assert m[base].Empty();
      EntryInfo(m[base]);
      assert Fitting(cuts)(m[base]);
    }
  }

  /** The cut points that a bundle repeats are starts of entries. */
  lemma CutsAreKeys(st: SendState, firstSeq: int, segs: seq<DataSeg>, n: nat, cuts: set<int>)
    requires n < |segs| && GapFree(segs) && Packets(segs) && BundlesUncut(segs, cuts)
    requires SendAll(firstSeq, segs[..n]) == Running(st) && IsBundle(segs[n], FrontOf(segs[..n]).top)
    ensures forall x :: x in cuts && segs[n].startSeq <= x < FrontOf(segs[..n]).top ==> x in st.ranges
  {
    hide SendAll, FrontOf, Edge, GapFree, Packets, GapFreeStep;
    GapFreePrefix(segs, n);
    TopIsHighest(segs[..n]);
    SentEdges(firstSeq, segs[..n]);
    assert FrontOf(segs[..n]).Lo() <= segs[n].startSeq by { StartsInside(FrontOf(segs[..n]), segs[n]); }
  }

  lemma StartsInside(f: Front, g: DataSeg)
    requires GapFreeStep(f, g) && IsBundle(g, f.top)
    ensures f.Lo() <= g.startSeq && (FrontOk(f) ==> f.fin.None?)
  {
  }

  lemma DataFits(st: SendState, firstSeq: int, segs: seq<DataSeg>, n: nat, cuts: set<int>)
    requires n < |segs| && GapFree(segs) && Packets(segs) && BundlesUncut(segs, cuts) && HasEdges(cuts, segs)
    requires SendAll(firstSeq, segs[..n]) == Running(st) && SendInv(st, FrontOf(segs[..n]))
    requires segs[n].payloadSize > 0 && GapFreeStep(FrontOf(segs[..n]), segs[n]) && AllEntries(st.ranges, Fitting(cuts))
    ensures Keyed(st.ranges)
    ensures var r := SendOne(st, firstSeq, segs[n]); r.Running? ==> AllEntries(r.state.ranges, Fitting(cuts))
  {
    hide SendAll, Insert, FrontOf, GapFree, Packets, BundlesUncut, Range.Info, NewTail, AllEntries, Fits, KeptByCut,
      TurnsInside, TurnsFound, Unanswered, Covered;
    var f, g := FrontOf(segs[..n]), segs[n];
    DataIsReady(st, f, firstSeq, g);
    BundleIsOverlap(st.totals, g);
    var m, c, base := st.ranges, CallFor(st, firstSeq, g), f.Base();
    var p, q := FittingIn(cuts, m, f.last), Fitting(cuts);
    AllFittingIn(cuts, m, f.last);
    FittingCut(cuts, m, f.last, g.startSeq, g.endSeq);
    if g.endSeq > base {
      ReadyTail(m, c, g.startSeq, g.endSeq, base);
      TailFits(m, c, base, g.endSeq, cuts);
    }
    if IsBundle(g, f.top) {
      CutsAreKeys(st, firstSeq, segs, n, cuts);
      StartsInside(f, g);
      BundleTurns(c, cuts, m, f.last, g.startSeq, g.endSeq);
    } else if g.startSeq < base {
      AgainTurns(c, cuts, m, f.last, g.startSeq, g.endSeq);
    }
    FirstHalf(m, g.startSeq, p, q);
    assert g.startSeq == base || TurnsFound(p, q, c, g.startSeq, g.endSeq);
    DataTurns(m, c, g.startSeq, g.endSeq, base, p, q);
    var r := Insert(m, c, g.startSeq, g.endSeq, 0);
    if r.Ok? {
      BothHalves(r.ranges, g.startSeq, g.endSeq, p, q);
    }
  }

  lemma FirstHalf(m: Ranges, s: int, p: Range -> bool, q: Range -> bool)
    requires AllEntries(m, p)
    ensures Half(m, s, s, p, q)
  {
  }

  lemma BothHalves(m: Ranges, lo: int, s: int, p: Range -> bool, q: Range -> bool)
    requires Half(m, lo, s, p, q) && forall r: Range :: p(r) ==> q(r)
    ensures AllEntries(m, q)
  {
  }

  /** An insertion of new data alone needs nothing of the counters. */
  lemma DataTurns(m: Ranges, c: Call, s: int, e: int, base: int, p: Range -> bool, q: Range -> bool)
    requires Ready(m, c, s, e, base) && Half(m, s, s, p, q) && KeptByCut(p, s, e)
    requires s == base || (TurnsFound(p, q, c, s, e) && (s in m || TurnsInside(p, q, c, s, e)))
    requires e > base ==> q(NewTail(m, c, base, e))
    ensures var r := Insert(m, c, s, e, 0); r.Ok? ==> Half(r.ranges, s, e, p, q)
  {
    hide KeptByCut, TurnsFound, TurnsInside, NewTail;
    if s == base {
      StepNew(m, c, e, 0);
    } else {
      InsertTurns(m, c, s, e, 0, base, p, q, s);
    }
  }

  lemma ControlFits(st: SendState, f: Front, firstSeq: int, g: DataSeg, cuts: set<int>)
    requires SendInv(st, f) && GapFreeStep(f, g) && g.payloadSize == 0 && AllEntries(st.ranges, Fitting(cuts))
    ensures var r := SendOne(st, firstSeq, g); r.Running? && AllEntries(r.state.ranges, Fitting(cuts))
  {
    hide InsertEmpty, PacketsSent, Range.Info, Shape, Unanswered;
    ControlStep(st, f, firstSeq, g);
    var m, c := st.ranges, CallFor(st, firstSeq, g);
    InvShape(st, f);
    ControlEntry(m, c, g.startSeq);
    ControlLandsOnEmpty(m, f, g);
    var k := ControlKey(m, g, g.startSeq);
    var r := InsertEmpty(m, c, g.startSeq)[k];
    if k in m {
      assert Fitting(cuts)(m[k]);
    }
    ControlCountFits(if k in m then m[k] else NewRange(k, k), r, cuts, g);
  }

  lemma ControlCountFits(r: Range, r': Range, cuts: set<int>, g: DataSeg)
    requires Fits(r, cuts) && ControlCounted(r, r') && (g.flags.Control() ==> r.Empty())
    requires !g.flags.Control() ==> r'.dataSentCount == r.dataSentCount
    ensures Fits(r', cuts)
  {
  }

  /** Over any gap-free send phase that cuts no bundled bytes, the counters of every entry agree. */
  lemma {:induction false} SendsFit(firstSeq: int, segs: seq<DataSeg>, n: nat, cuts: set<int>)
    requires GapFree(segs) && Packets(segs) && n <= |segs| && BundlesUncut(segs, cuts) && HasEdges(cuts, segs)
    ensures var r := SendAll(firstSeq, segs[..n]); r.Running? ==> AllEntries(r.state.ranges, Fitting(cuts))
  {
    hide SendInv, GapFreeStep, FrontOf, SendAll, SendOne, GapFree, BundlesUncut, HasEdges, Fitting;
    if n == 0 {
      SendsFromStart(firstSeq);
    } else {
      SendsFit(firstSeq, segs, n - 1, cuts);
      GapFreePrefix(segs, n - 1);
      SendRefinesCounter(firstSeq, segs[..n - 1]);
      var r := SendAll(firstSeq, segs[..n - 1]);
      if r.Running? {
        SendsStep(firstSeq, segs, n - 1);
        if segs[n - 1].payloadSize > 0 {
          DataFits(r.state, firstSeq, segs, n - 1, cuts);
        } else {
          ControlFits(r.state, FrontOf(segs[..n - 1]), firstSeq, segs[n - 1], cuts);
        }
      } else {
        SendsStopped(firstSeq, segs, n - 1);
      }
    }
  }

  /** There the bytes counted as redundant are the payload less the span of the data. */
  lemma SentRedundant(firstSeq: int, segs: seq<DataSeg>, cuts: set<int>)
    requires GapFree(segs) && Packets(segs) && BundlesUncut(segs, cuts) && HasEdges(cuts, segs)
    ensures var r := SendAll(firstSeq, segs); r.Running? ==>
      && AllEntries(r.state.ranges, Agrees)
      && Total(r.state.ranges, RedundantBytes) == Payload(segs) - Span(FrontOf(segs))
  {
    hide SendAll, SendInv, GapFree, FrontOf, BundlesUncut, HasEdges, Total, Agrees, Payload, Span, Fitting, Shape;
    var n := |segs|;
    assert segs[..n] == segs;
    SendsFit(firstSeq, segs, n, cuts);
    SendRefinesCounter(firstSeq, segs);
    SendConserves(firstSeq, segs);
    NewDataIsSpan(firstSeq, segs);
    TotalsBalance(firstSeq, segs);
    var r := SendAll(firstSeq, segs);
    if r.Running? {
      FittingAgrees(r.state.ranges, cuts);
      InvKeyed(r.state, FrontOf(segs));
      RedundantIsDifference(r.state.ranges);
    }
  }

  lemma InvKeyed(st: SendState, f: Front)
    requires SendInv(st, f)
    ensures Keyed(st.ranges)
  {
  }

  lemma FittingAgrees(m: Ranges, cuts: set<int>)
    requires AllEntries(m, Fitting(cuts))
    ensures AllEntries(m, Agrees)
  {
    hide Agrees;
    forall k | k in m
      ensures Agrees(m[k])
    {
      assert Fitting(cuts)(m[k]);
    }
  }

  // ---------- the other two phases ----------

  lemma AcksFit(m: Ranges, acks: seq<AckSeg>, cuts: set<int>)
    requires AckState(m) && m != map[] && AllEntries(m, Fitting(cuts)) && forall i :: 0 <= i < |acks| ==> acks[i].ack in cuts
    ensures var r := AckAll(m, acks); r.Running? ==> AllEntries(r.state.ranges, Fitting(cuts))
  {
    hide AckAll, AckState, Fitting;
    var i := (x: Ranges) => AllEntries(x, Fitting(cuts));
    forall j | 0 <= j < |acks|
      ensures KeptByMarkingAt(i, acks[j].ack)
    {
      FittingMarked(cuts, acks[j].ack);
    }
    AcksKeepAt(m, acks, i);
  }

  lemma FittingMarked(cuts: set<int>, x: int)
    requires x in cuts
    ensures KeptByMarkingAt(m => AllEntries(m, Fitting(cuts)), x)
  {
    hide Range.Left, Range.Right, Range.Info, Fits;
    FittingCut(cuts, map[], 0, x, x);
    assert forall r: Range, r': Range :: AckOnly(r, r') && Fits(r, cuts) ==> Fits(r', cuts) by { MarkedFits(cuts); }
    forall m: Ranges, k: int | AllEntries(m, Fitting(cuts)) && Keyed(m) && Disjoint(m) && k in m && k < x < m[k].endSeq
      ensures AllEntries(SplitAt(m, k, x), Fitting(cuts))
    {
      assert Fitting(cuts)(m[k]);
      PiecesFit(m[k], x, cuts);
    }
  }

  lemma MarkedFits(cuts: set<int>)
    ensures forall r: Range, r': Range :: AckOnly(r, r') && Fits(r, cuts) ==> Fits(r', cuts)
  {
  }

  lemma ReceptionFits(m: Ranges, f: Front, firstSeq: int, g: DataSeg, cuts: set<int>)
    requires ReceiveState(m, f) && ReceivedStep(f, firstSeq, g) && AllEntries(m, Fitting(cuts)) && g.startSeq in cuts && g.endSeq in cuts
    ensures Keyed(m)
    ensures var r := ReceiveOne(m, f.last, firstSeq, g); r.Running? ==> AllEntries(r.state, Fitting(cuts))
  {
    hide Insert, KeptByCut, TurnsFound, TurnsInside, Fitting;
    ReceiveKeyed(m, f);
    ReceptionReady(m, f, firstSeq, g);
    var c, p := RecvCall(f.last, firstSeq, g), Fitting(cuts);
    FittingCut(cuts, m, 0, g.startSeq, g.endSeq);
    AgainTurns(c, cuts, m, 0, g.startSeq, g.endSeq);
    FirstHalf(m, g.startSeq, p, p);
    InsertTurns(m, c, g.startSeq, g.endSeq, 0, g.endSeq, p, p, g.startSeq);
    var r := Insert(m, c, g.startSeq, g.endSeq, 0);
    if r.Ok? {
      BothHalves(r.ranges, g.startSeq, g.endSeq, p, p);
    }
  }

  lemma {:induction false} ReceptionsFit(m: Ranges, f: Front, firstSeq: int, segs: seq<DataSeg>, cuts: set<int>)
    requires ReceiveState(m, f) && ReceivedRun(f, firstSeq, segs) && AllEntries(m, Fitting(cuts))
    requires forall i :: 0 <= i < |segs| ==> segs[i].startSeq in cuts && segs[i].endSeq in cuts
    ensures Keyed(m)
    ensures var r := ReceiveAll(m, f.last, firstSeq, segs); r.Running? ==> AllEntries(r.state, Fitting(cuts))
  {
    hide ReceiveOne, ReceiveState, AllEntries;
    ReceiveKeyed(m, f);
    if segs != [] {
      var n := |segs| - 1;
      ReceptionsCounted(m, f, firstSeq, segs[..n]);
      ReceptionsFit(m, f, firstSeq, segs[..n], cuts);
      var r := ReceiveAll(m, f.last, firstSeq, segs[..n]);
      if r.Running? {
        ReceptionFits(r.state, f, firstSeq, segs[n], cuts);
      }
    }
  }

  // ---------- the whole run ----------

  /** Every point at which a run may cut an entry: the ends of its data packets and receptions, and its
      acknowledgement numbers. */
  function CutPoints(t: Trace): set<int> {
    (set i | 0 <= i < |t.sent| && t.sent[i].payloadSize > 0 :: t.sent[i].startSeq) +
    (set i | 0 <= i < |t.sent| && t.sent[i].payloadSize > 0 :: t.sent[i].endSeq) +
    (set i | 0 <= i < |t.acks| :: t.acks[i].ack) +
    (set i | 0 <= i < |t.received| :: t.received[i].startSeq) + (set i | 0 <= i < |t.received| :: t.received[i].endSeq)
  }

  /** No bundled bytes are cut at any time: wherever a bundle repeats bytes, whatever starts or ends there does
      so where an earlier data packet did. Without bundles that is so. */
  ghost predicate Uncut(t: Trace) {
    BundlesUncut(t.sent, CutPoints(t))
  }

  lemma UnbundledIsUncut(t: Trace)
    requires Unbundled(t.sent)
    ensures Uncut(t) && CountedTwice(t.sent) == {}
  {
    forall i | 0 <= i < |t.sent|
      ensures !IsBundle(t.sent[i], Highest(t.sent[..i]))
    {
      TopIsHighest(t.sent[..i]);
    }
  }

  /** On such a run the counters of every final entry agree. */
  lemma FinalAgrees(t: Trace, st: SendState, m1: Ranges, m: Ranges)
    requires Ends(t, st, m1, m) && Uncut(t)
    ensures AllEntries(m, Agrees)
  {
    hide SendAll, AckAll, ReceiveAll, GapFree, FrontOf, ReceivedRun, ReceiveState, At, Total, BundlesUncut, Fitting, SameCounts, Agrees,
      EntriesSound, CountsBytes, Shape, AllEntries;
    var n, cuts := |t.sent|, CutPoints(t);
    assert t.sent[..n] == t.sent;
    assert HasEdges(cuts, t.sent);
    SendsFit(t.firstSeq, t.sent, n, cuts);
    SentFacts(t, st);
    AcksFit(st.ranges, t.acks, cuts);
    AckedFacts(t, st, m1);
    ReceptionsFit(m1, FrontOf(t.sent), t.firstSeq, t.received, cuts);
    FittingAgrees(m, cuts);
  }

  /** The packets, and on uncut runs the redundant bytes and the redundancy check, of a completed run. */
  lemma FinalCounters(t: Trace, st: SendState, m1: Ranges, m: Ranges)
    requires Ends(t, st, m1, m) && FrontOf(t.sent).top < WRAP64
    ensures m != map[]
    ensures Total(m, PacketsSent) == |t.sent| + |CountedTwice(t.sent)|
    ensures Uncut(t) ==> Total(m, RedundantBytes) == Payload(t.sent) - Span(FrontOf(t.sent))
    ensures Uncut(t) ==> (RedundancyMismatch(m) <==> OnlyFirstHoldsData(m))
  {
    hide SendAll, GapFree, FrontOf, ReceiveAll, ReceiveState, AckState, At, InTime, Total, Shape, Agrees, CountedTwice,
      RedundancyMismatch, OnlyFirstHoldsData, CountsBytes, EntriesSound, Uncut, AckAll, ReceivedRun, SameCounts, Payload, Span;
    AckedFacts(t, st, m1);
    PacketsOfRun(t.firstSeq, t.sent);
    ReceptionsCounted(m1, FrontOf(t.sent), t.firstSeq, t.received);
    FinalShape(t, st, m1, m);
    FinalTotals(t, st, m1, m);
    if Uncut(t) {
      FinalAgrees(t, st, m1, m);
      MismatchExactly(m, FrontOf(t.sent));
      RedundantIsDifference(m);
    }
  }
}
