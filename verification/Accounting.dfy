/** What one insertion does to sums over all entries and to properties of single entries. Both are
    proved once for any quantity that splitting divides and for any property that splitting keeps. */
module Accounting {
  import opened Common
  import opened OrderedMap
  import opened ByteRanges
  import opened Index
  import opened ByteView
  import opened Insertion
  import opened Recursion

  // ---------- the summed quantities (calculateRealLoss adds these up) ----------

  function UniqueBytes(r: Range): int {
    r.byteCount
  }

  function SentBytes(r: Range): int {
    r.dataSentCount * r.byteCount
  }

  function ReceivedBytes(r: Range): int {
    r.dataReceivedCount * r.byteCount
  }

  function PacketsSent(r: Range): int {
    r.packetSentCount + r.packetRetransCount + r.ackedSent
  }

  function PacketsReceived(r: Range): int {
    r.packetReceivedCount
  }

  /** Splitting an entry divides the quantity between the two parts. */
  ghost predicate Additive(f: Range -> int) {
    forall r: Range, at: int :: r.Sized() && r.startSeq < at < r.endSeq ==> f(r.Left(at)) + f(r.Right(at)) == f(r)
  }

  /** Counting a segment on an entry adds `perByte` for each of its bytes, and `perCall` in the outermost call. */
  ghost predicate Gains(f: Range -> int, c: Call, perByte: int, perCall: int) {
    && (forall r: Range, s: int, level: nat, ends: bool :: r.Sized() ==>
          f(CountInside(r, c, s, level, ends)) == f(r) + perByte * r.byteCount + (if level == 0 then perCall else 0))
    && (forall r: Range, s: int, level: nat :: r.Sized() ==>
          f(CountExisting(r, c, s, level)) == f(r) + perByte * r.byteCount + (if level == 0 then perCall else 0))
    && (forall r: Range :: f(r.(syn := r.syn + 1)) == f(r))
  }

  lemma SplitTotal(m: Ranges, k: int, at: int, f: Range -> int)
    requires Keyed(m) && k in m && k < at < m[k].endSeq && at !in m && Additive(f)
    ensures Total(SplitAt(m, k, at), f) == Total(m, f)
  {
    var left := m[k].Left(at);
    TotalUpdate(m, k, left, f);
    TotalInsert(m[k := left], at, m[k].Right(at), f);
  }

  lemma CarveTotal(m: Ranges, k: int, s: int, q: int, f: Range -> int)
    requires Keyed(m) && Disjoint(m) && k in m && k <= s < q <= m[k].endSeq && Additive(f)
    ensures Total(Carve(m, k, s, q), f) == Total(m, f)
  {
    hide Range.Left, Range.Right, Range.Info;
    if k < s {
      SplitDisjoint(m, k, s);
      SplitTotal(m, k, s, f);
    }
    var m' := if k < s then SplitAt(m, k, s) else m;
    if q < m[k].endSeq {
      SplitDisjoint(m', s, q);
      SplitTotal(m', s, q, f);
    }
  }

  lemma PartGain(m: Ranges, c: Call, s: int, e: int, level: nat, part: Range, f: Range -> int, perByte: int, perCall: int)
    requires Gains(f, c, perByte, perCall) && part.Sized()
    ensures f(CountPart(m, c, s, e, level, part)) == f(part) + perByte * part.byteCount + (if level == 0 then perCall else 0)
  {
    hide CountInside, CountExisting;
  }

  lemma CarvedStepTotal(m: Ranges, c: Call, s: int, e: int, level: nat, k: int, f: Range -> int, perByte: int, perCall: int)
    requires OldReady(m, c, s, e, k) && Additive(f) && Gains(f, c, perByte, perCall)
    ensures Total(CarvedStep(m, c, s, e, level, k), f)
         == Total(m, f) + perByte * (PartEnd(m, k, e) - s) + (if level == 0 then perCall else 0)
  {
    hide Range.Left, Range.Right, Range.Info, CountInside, CountExisting, CountPart, Carve, Total, Gains, Additive;
    var q := PartEnd(m, k, e);
    var carved := Carve(m, k, s, q);
    CarveShape(m, k, s, q);
    CarveTotal(m, k, s, q, f);
    PartGain(m, c, s, e, level, carved[s], f, perByte, perCall);
    TotalUpdate(carved, s, CountPart(m, c, s, e, level, carved[s]), f);
    assert carved[s].byteCount == q - s;
  }

  /** What new data behind `base` adds. */
  function TailGain(m: Ranges, c: Call, base: int, e: int, f: Range -> int): int
    requires Keyed(m) && base <= e
  {
    f(NewTail(m, c, base, e)) - (if base in m then f(m[base]) else 0)
  }

  lemma TailTotal(m: Ranges, c: Call, s: int, e: int, f: Range -> int)
    requires Keyed(m) && s <= e
    ensures Total(m[s := NewTail(m, c, s, e)], f) == Total(m, f) + TailGain(m, c, s, e, f)
  {
    if s in m {
      TotalUpdate(m, s, NewTail(m, c, s, e), f);
    } else {
      TotalInsert(m, s, NewTail(m, c, s, e), f);
    }
  }

  /** A sum over all entries grows by the segment's old bytes, once per call, and by its new bytes. */
  lemma {:induction false} InsertTotal(m: Ranges, c: Call, s: int, e: int, level: nat, base: int,
                                       f: Range -> int, perByte: int, perCall: int)
    requires Ready(m, c, s, e, base) && Additive(f) && Gains(f, c, perByte, perCall)
    ensures var r := Insert(m, c, s, e, level);
      r.Ok? ==> Total(r.ranges, f) == Total(m, f) + perByte * (Min(e, base) - s)
                                      + (if level == 0 && s < base then perCall else 0)
                                      + (if e > base then TailGain(m, c, base, e, f) else 0)
    decreases e - s
  {
    hide CarvedStep, CountAt, Range.Info, Range.Left, Range.Right, Step, NewTail, Additive, Gains, CountInside, CountExisting, Total;
    if s == base {
      StepNew(m, c, e, level);
      TailTotal(m, c, s, e, f);
      assert Min(e, base) - s == 0;
    } else {
      var k := ReadyAt(m, c, s, e, base);
      StepOld(m, c, s, e, level, k);
      CarvedStepRefines(m, c, s, e, level, k);
      CarvedStepTotal(m, c, s, e, level, k, f, perByte, perCall);
      var m' := CarvedStep(m, c, s, e, level, k);
      var q := PartEnd(m, k, e);
      if q < e {
        StillReady(m, m', c, s, q, e, base);
        InsertTotal(m', c, q, e, level + 1, base, f, perByte, perCall);
        if e > base { NewTailSame(m, m', c, base, e); }
        assert perByte * (q - s) + perByte * (Min(e, base) - q) == perByte * (Min(e, base) - s);
      }
    }
  }

  lemma NewTailSame(m: Ranges, m': Ranges, c: Call, base: int, e: int)
    requires Keyed(m) && Keyed(m') && base <= e && Below(m, base) && Below(m', base) && SameEmpties(m, m')
    ensures base in m <==> base in m'
    ensures base in m ==> m'[base] == m[base]
    ensures NewTail(m, c, base, e) == NewTail(m', c, base, e)
  {
    assert base in m ==> m[base].Empty();
    assert base in m' ==> m'[base].Empty();
  }

  // ---------- the quantities that splitting divides ----------

  lemma QuantitiesAdditive()
    ensures Additive(UniqueBytes) && Additive(SentBytes) && Additive(ReceivedBytes)
    ensures Additive(PacketsSent) && Additive(PacketsReceived)
  {
    forall r: Range, at: int | r.Sized() && r.startSeq < at < r.endSeq
      ensures SentBytes(r.Left(at)) + SentBytes(r.Right(at)) == SentBytes(r)
      ensures ReceivedBytes(r.Left(at)) + ReceivedBytes(r.Right(at)) == ReceivedBytes(r)
    {
      var x, y := at - r.startSeq, r.endSeq - at;
      assert r.dataSentCount * x + r.dataSentCount * y == r.dataSentCount * (x + y);
      assert r.dataReceivedCount * x + r.dataReceivedCount * y == r.dataReceivedCount * (x + y);
    }
  }

  /** The counters of an entry after a segment was counted on it, whichever way it was reached. */
  ghost predicate Counted(r: Range, r': Range, c: Call, level: nat) {
    var outer := if level == 0 then 1 else 0;
    && r'.byteCount == r.byteCount
    && r'.dataSentCount == r.dataSentCount + (if c.itype == InsertSent then 1 else 0)
    && r'.dataReceivedCount == r.dataReceivedCount + (if c.itype == InsertRecv then 1 else 0)
    && r'.packetReceivedCount == r.packetReceivedCount + (if c.itype == InsertRecv then outer else 0)
    && PacketsSent(r') == PacketsSent(r) + (if c.itype == InsertSent then outer else 0)
  }

  lemma CountedInside(r: Range, c: Call, s: int, level: nat, ends: bool)
    ensures Counted(r, CountInside(r, c, s, level, ends), c, level)
  {
  }

  lemma CountedExisting(r: Range, c: Call, s: int, level: nat)
    ensures Counted(r, CountExisting(r, c, s, level), c, level)
  {
  }

  /** A quantity that reacts to the counters alone gains the same on every path. */
  lemma GainsFromCounters(f: Range -> int, c: Call, perByte: int, perCall: int)
    requires forall r: Range, r': Range, level: nat :: Counted(r, r', c, level) ==>
               f(r') == f(r) + perByte * r.byteCount + (if level == 0 then perCall else 0)
    requires forall r: Range :: f(r.(syn := r.syn + 1)) == f(r)
    ensures Gains(f, c, perByte, perCall)
  {
    hide CountInside, CountExisting, Counted, Range.Info;
    forall r: Range, s: int, level: nat, ends: bool
      ensures Counted(r, CountInside(r, c, s, level, ends), c, level)
    {
      CountedInside(r, c, s, level, ends);
    }
    forall r: Range, s: int, level: nat
      ensures Counted(r, CountExisting(r, c, s, level), c, level)
    {
      CountedExisting(r, c, s, level);
    }
  }

  lemma UniqueGains(c: Call)
    ensures Gains(UniqueBytes, c, 0, 0)
  {
    GainsFromCounters(UniqueBytes, c, 0, 0);
  }

  lemma OneMoreTime(n: nat, x: nat)
    ensures (n + 1) * x == n * x + x
  {
  }

  lemma SentGains(c: Call)
    ensures Gains(SentBytes, c, if c.itype == InsertSent then 1 else 0, 0)
  {
    forall r: Range, r': Range, level: nat | Counted(r, r', c, level)
      ensures SentBytes(r') == SentBytes(r) + (if c.itype == InsertSent then 1 else 0) * r.byteCount
    {
      OneMoreTime(r.dataSentCount, r.byteCount);
    }
    GainsFromCounters(SentBytes, c, if c.itype == InsertSent then 1 else 0, 0);
  }

  lemma ReceivedGains(c: Call)
    ensures Gains(ReceivedBytes, c, if c.itype == InsertRecv then 1 else 0, 0)
  {
    forall r: Range, r': Range, level: nat | Counted(r, r', c, level)
      ensures ReceivedBytes(r') == ReceivedBytes(r) + (if c.itype == InsertRecv then 1 else 0) * r.byteCount
    {
      OneMoreTime(r.dataReceivedCount, r.byteCount);
    }
    GainsFromCounters(ReceivedBytes, c, if c.itype == InsertRecv then 1 else 0, 0);
  }

  lemma PacketGains(c: Call)
    ensures Gains(PacketsSent, c, 0, if c.itype == InsertSent then 1 else 0)
    ensures Gains(PacketsReceived, c, 0, if c.itype == InsertRecv then 1 else 0)
  {
    GainsFromCounters(PacketsSent, c, 0, if c.itype == InsertSent then 1 else 0);
    GainsFromCounters(PacketsReceived, c, 0, if c.itype == InsertRecv then 1 else 0);
  }

  // ---------- properties of single entries ----------

  ghost predicate AllEntries(m: Ranges, p: Range -> bool) {
    forall k :: k in m ==> p(m[k])
  }

  /** Splitting an entry with the property leaves two entries with the property. */
  ghost predicate KeptBySplit(p: Range -> bool) {
    forall r: Range, at: int :: r.Sized() && r.startSeq < at < r.endSeq && p(r) ==> p(r.Left(at)) && p(r.Right(at))
  }

  /** Counting a segment on an entry that holds bytes keeps the property. */
  ghost predicate KeptByCount(p: Range -> bool, c: Call) {
    && (forall r: Range, s: int, level: nat, ends: bool :: r.Sized() && !r.Empty() && p(r) ==> p(CountInside(r, c, s, level, ends)))
    && (forall r: Range, s: int, level: nat :: r.Sized() && !r.Empty() && p(r) ==> p(CountExisting(r, c, s, level)))
    && (forall r: Range :: p(r) ==> p(r.(syn := r.syn + 1)))
  }

  lemma SplitKeeps(m: Ranges, k: int, at: int, p: Range -> bool)
    requires Keyed(m) && k in m && k < at < m[k].endSeq && AllEntries(m, p) && KeptBySplit(p)
    ensures AllEntries(SplitAt(m, k, at), p)
  {
    hide Range.Left, Range.Right;
  }

  lemma CarvedStepKeeps(m: Ranges, c: Call, s: int, e: int, level: nat, k: int, p: Range -> bool)
    requires OldReady(m, c, s, e, k) && AllEntries(m, p) && KeptBySplit(p) && KeptByCount(p, c)
    ensures AllEntries(CarvedStep(m, c, s, e, level, k), p)
  {
    hide Range.Left, Range.Right, Range.Info, CountInside, CountExisting, CountPart, KeptBySplit;
    var q := PartEnd(m, k, e);
    var carved := Carve(m, k, s, q);
    CarveShape(m, k, s, q);
    if k < s {
      SplitDisjoint(m, k, s);
      SplitKeeps(m, k, s, p);
    }
    var m' := if k < s then SplitAt(m, k, s) else m;
    if q < m[k].endSeq {
      SplitKeeps(m', s, q, p);
    }
    PartKeeps(m, c, s, e, level, carved[s], p);
  }

  lemma PartKeeps(m: Ranges, c: Call, s: int, e: int, level: nat, part: Range, p: Range -> bool)
    requires KeptByCount(p, c) && part.Sized() && !part.Empty() && p(part)
    ensures p(CountPart(m, c, s, e, level, part))
  {
    hide CountInside, CountExisting, Range.Info;
  }

  /** A property that splitting and counting keep holds of all entries after an insertion. */
  lemma {:induction false} InsertKeeps(m: Ranges, c: Call, s: int, e: int, level: nat, base: int, p: Range -> bool)
    requires Ready(m, c, s, e, base) && AllEntries(m, p) && KeptBySplit(p) && KeptByCount(p, c)
    requires e > base ==> p(NewTail(m, c, base, e))
    ensures var r := Insert(m, c, s, e, level); r.Ok? ==> AllEntries(r.ranges, p)
    decreases e - s
  {
    hide CarvedStep, CountAt, Range.Info, Range.Left, Range.Right, Step, NewTail, KeptBySplit, KeptByCount, CountInside, CountExisting;
    if s == base {
      StepNew(m, c, e, level);
    } else {
      var k := ReadyAt(m, c, s, e, base);
      StepOld(m, c, s, e, level, k);
      CarvedStepRefines(m, c, s, e, level, k);
      CarvedStepKeeps(m, c, s, e, level, k, p);
      var m' := CarvedStep(m, c, s, e, level, k);
      var q := PartEnd(m, k, e);
      if q < e {
        StillReady(m, m', c, s, q, e, base);
        if e > base { NewTailSame(m, m', c, base, e); }
        InsertKeeps(m', c, q, e, level + 1, base, p);
      }
    }
  }

  // ---------- properties of the whole map ----------

  /** `r'` covers the same interval as `r`, and its first transmission is the same. */
  ghost predicate SameFirst(r: Range, r': Range) {
    r'.SameSpan(r) && (|r.sentTstampPcap| > 0 ==> |r'.sentTstampPcap| > 0 && r'.sentTstampPcap[0].time == r.sentTstampPcap[0].time)
  }

  /** A property of maps that survives splits and whatever leaves the intervals and the first transmissions alone. */
  ghost predicate KeptByCutting(i: Ranges -> bool) {
    && (forall m: Ranges, k: int, r: Range :: i(m) && k in m && SameFirst(m[k], r) ==> i(m[k := r]))
    && (forall m: Ranges, k: int, at: int :: i(m) && Keyed(m) && Disjoint(m) && k in m && k < at < m[k].endSeq ==> i(SplitAt(m, k, at)))
  }

  lemma CountSameFirst(m: Ranges, c: Call, s: int, e: int, level: nat, part: Range)
    ensures SameFirst(part, CountPart(m, c, s, e, level, part))
  {
    hide Range.Info;
  }

  lemma CarvedStepKeepsMap(m: Ranges, c: Call, s: int, e: int, level: nat, k: int, i: Ranges -> bool)
    requires OldReady(m, c, s, e, k) && i(m) && KeptByCutting(i)
    ensures i(CarvedStep(m, c, s, e, level, k))
  {
    hide Range.Left, Range.Right, Range.Info, CountPart, SameFirst;
    var q := PartEnd(m, k, e);
    var carved := Carve(m, k, s, q);
    CarveShape(m, k, s, q);
    if k < s {
      SplitDisjoint(m, k, s);
    }
    CountSameFirst(m, c, s, e, level, carved[s]);
  }

  /** Such a property holds after an insertion, given that it survives the new tail. */
  lemma {:induction false} InsertKeepsMap(m: Ranges, c: Call, s: int, e: int, level: nat, base: int, i: Ranges -> bool)
    requires Ready(m, c, s, e, base) && i(m) && KeptByCutting(i)
    requires e > base ==> forall m': Ranges :: Ready(m', c, base, e, base) && i(m') ==> i(m'[base := NewTail(m', c, base, e)])
    ensures var r := Insert(m, c, s, e, level); r.Ok? ==> i(r.ranges)
    decreases e - s
  {
    hide CarvedStep, CountAt, Range.Info, Range.Left, Range.Right, Step, NewTail, KeptByCutting, CountInside, CountExisting;
    if s == base {
      StepNew(m, c, e, level);
    } else {
      var k := ReadyAt(m, c, s, e, base);
      StepOld(m, c, s, e, level, k);
      CarvedStepRefines(m, c, s, e, level, k);
      CarvedStepKeepsMap(m, c, s, e, level, k, i);
      var m' := CarvedStep(m, c, s, e, level, k);
      var q := PartEnd(m, k, e);
      if q < e {
        StillReady(m, m', c, s, q, e, base);
        InsertKeepsMap(m', c, q, e, level + 1, base, i);
      }
    }
  }

  // ---------- a property that an insertion turns into another one ----------

  /** Entries that start in `[lo, s)` have `q`, all others still `p`. */
  ghost predicate Half(m: Ranges, lo: int, s: int, p: Range -> bool, q: Range -> bool) {
    forall k :: k in m ==> if lo <= k < s then q(m[k]) else p(m[k])
  }

  /** Counting call `c` on an entry within `[lo, hi)` turns `p` into `q`, if the entry was just cut out. */
  ghost predicate TurnsInside(p: Range -> bool, q: Range -> bool, c: Call, lo: int, hi: int) {
    forall r: Range, s: int, level: nat, ends: bool :: r.Sized() && !r.Empty() && lo <= r.startSeq && r.endSeq <= hi && p(r) ==>
      q(CountInside(r, c, s, level, ends))
  }

  /** The same if the entry started where the segment does. */
  ghost predicate TurnsFound(p: Range -> bool, q: Range -> bool, c: Call, lo: int, hi: int) {
    && (forall r: Range, s: int, level: nat :: r.Sized() && !r.Empty() && lo <= r.startSeq && r.endSeq <= hi && p(r) ==>
          q(CountExisting(r, c, s, level)))
    && (forall r: Range :: q(r) ==> q(r.(syn := r.syn + 1)))
  }

  ghost predicate Turns(p: Range -> bool, q: Range -> bool, c: Call, lo: int, hi: int) {
    TurnsInside(p, q, c, lo, hi) && TurnsFound(p, q, c, lo, hi)
  }

  /** Splitting an entry at `x` or `y` leaves two entries with the property. */
  ghost predicate KeptByCut(p: Range -> bool, x: int, y: int) {
    forall r: Range, at: int :: (at == x || at == y) && r.Sized() && r.startSeq < at < r.endSeq && p(r) ==>
      p(r.Left(at)) && p(r.Right(at))
  }

  lemma SplitIsCut(p: Range -> bool, x: int, y: int)
    requires KeptBySplit(p)
    ensures KeptByCut(p, x, y)
  {
    hide Range.Left, Range.Right, Range.Info;
  }

  lemma PartTurns(m: Ranges, c: Call, s: int, e: int, level: nat, part: Range, p: Range -> bool, q: Range -> bool, lo: int, hi: int)
    requires TurnsFound(p, q, c, lo, hi) && (s in m || TurnsInside(p, q, c, lo, hi))
    requires part.Sized() && !part.Empty() && p(part) && lo <= part.startSeq && part.endSeq <= hi
    ensures q(CountPart(m, c, s, e, level, part))
  {
    hide CountInside, CountExisting, Range.Info;
  }

  /** The pieces of an entry that a step cuts all have the property. */
  lemma CarvedPieces(m: Ranges, k: int, s: int, x: int, p: Range -> bool, lo: int, hi: int)
    requires Keyed(m) && Disjoint(m) && k in m && k <= s < x <= m[k].endSeq && p(m[k])
    requires KeptByCut(p, lo, hi) && (k < s ==> s == lo) && (x < m[k].endSeq ==> x == hi)
    ensures k < s ==> s !in m
    ensures var d := Carve(m, k, s, x);
      && s in d && p(d[s]) && d[s].Sized() && !d[s].Empty() && d[s].startSeq == s && d[s].endSeq == x
      && (k < s ==> k in d && p(d[k])) && (x < m[k].endSeq ==> x in d && p(d[x]))
      && (forall j :: j in d ==> j == s || (j == k && k < s) || (j == x && x < m[k].endSeq) || (j in m && j != k && d[j] == m[j]))
  {
    hide Range.Left, Range.Right, Range.Info, KeptByCut, Range.Sized, SplitAt, Disjoint, Keyed;
    SizedAt(m, k);
    CarveShape(m, k, s, x);
    if k < s {
      CutPieces(m, k, s, p, lo, hi);
    }
    var m' := if k < s then SplitAt(m, k, s) else m;
    if x < m[k].endSeq {
      CutPieces(m', s, x, p, lo, hi);
    }
    SizedAt(Carve(m, k, s, x), s);
  }

  lemma CutPieces(m: Ranges, k: int, at: int, p: Range -> bool, lo: int, hi: int)
    requires Keyed(m) && Disjoint(m) && k in m && k < at < m[k].endSeq && p(m[k]) && KeptByCut(p, lo, hi) && (at == lo || at == hi)
    ensures at !in m && Keyed(SplitAt(m, k, at)) && Disjoint(SplitAt(m, k, at))
    ensures var d := SplitAt(m, k, at);
      && d.Keys == m.Keys + {at} && p(d[k]) && p(d[at]) && d[at].endSeq == m[k].endSeq && d[at].startSeq == at
      && forall j :: j in m && j != k ==> d[j] == m[j]
  {
    hide Range.Left, Range.Right, Range.Info, KeptByCut;
    SplitDisjoint(m, k, at);
    SplitPieces(m[k], at, p, lo, hi);
  }

  lemma SizedAt(m: Ranges, k: int)
    requires Keyed(m) && k in m
    ensures m[k].Sized() && m[k].startSeq == k && (m[k].Empty() <==> m[k].endSeq == k)
  {
  }

  lemma SplitPieces(r: Range, at: int, p: Range -> bool, x: int, y: int)
    requires KeptByCut(p, x, y) && (at == x || at == y) && r.Sized() && r.startSeq < at < r.endSeq && p(r)
    ensures p(r.Left(at)) && p(r.Right(at))
  {
  }

  lemma CarvedStepTurns(m: Ranges, c: Call, s: int, e: int, level: nat, k: int, p: Range -> bool, q: Range -> bool, lo: int, hi: int)
    requires OldReady(m, c, s, e, k) && Half(m, lo, s, p, q) && KeptByCut(p, lo, hi)
    requires TurnsFound(p, q, c, lo, hi) && (s in m || TurnsInside(p, q, c, lo, hi))
    requires lo <= s && e == hi && (s in m || s == lo)
    ensures Half(CarvedStep(m, c, s, e, level, k), lo, PartEnd(m, k, e), p, q)
  {
    hide Range.Left, Range.Right, Range.Info, CountPart, KeptByCut, Carve;
    var x := PartEnd(m, k, e);
    LaterBeyond(m, k);
    CarvedPieces(m, k, s, x, p, lo, hi);
    PartTurns(m, c, s, e, level, Carve(m, k, s, x)[s], p, q, lo, hi);
    hide TurnsInside, TurnsFound;
  }

  /** After an insertion all entries within the segment have `q` and all others `p`, if all had `p` before. */
  lemma {:induction false} InsertTurns(m: Ranges, c: Call, s: int, e: int, level: nat, base: int,
                                       p: Range -> bool, q: Range -> bool, lo: int)
    requires Ready(m, c, s, e, base) && Half(m, lo, s, p, q) && KeptByCut(p, lo, e)
    requires TurnsFound(p, q, c, lo, e) && (s in m || s == base || TurnsInside(p, q, c, lo, e))
    requires lo <= s && (s in m || s == lo || s == base)
    requires e > base ==> q(NewTail(m, c, base, e))
    ensures var r := Insert(m, c, s, e, level); r.Ok? ==> Half(r.ranges, lo, e, p, q)
    decreases e - s
  {
    hide CarvedStep, CountAt, Range.Info, Range.Left, Range.Right, Step, NewTail, KeptByCut, TurnsInside, TurnsFound,
      CountInside, CountExisting, FailsAt;
    if s == base {
      StepNew(m, c, e, level);
    } else {
      var k := ReadyAt(m, c, s, e, base);
      StepOld(m, c, s, e, level, k);
      CarvedStepRefines(m, c, s, e, level, k);
      CarvedStepTurns(m, c, s, e, level, k, p, q, lo, e);
      var m' := CarvedStep(m, c, s, e, level, k);
      var x := PartEnd(m, k, e);
      if x < e {
        PartEndsAtEntry(m, c, s, e, base, k);
        StillReady(m, m', c, s, x, e, base);
        if e > base { NewTailSame(m, m', c, base, e); }
        InsertTurns(m', c, x, e, level + 1, base, p, q, lo);
      }
    }
  }
}
