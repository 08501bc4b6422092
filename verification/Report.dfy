/** The reported statistics over a map, the redundancy check of `addConnStats` and the repository's own validator. */
module Report {
  import opened Common
  import opened OrderedMap
  import opened ByteRanges
  import opened Index
  import opened ByteView
  import opened Insertion
  import opened Accounting
  import opened Entries
  import opened Registration
  import opened SendRun
  import opened SendTheorems
  import opened Acks
  import opened AckRun
  import opened ReceiveRun

  const WRAP64 := 0x1_0000_0000_0000_0000

  // ---------- sums of sums ----------

  function LostBytes(r: Range): int {
    (r.dataSentCount - r.dataReceivedCount) * r.byteCount
  }

  function RedundantBytes(r: Range): int {
    r.byteCount * (r.dataRetransCount + r.rdbCount)
  }

  lemma {:induction false} TotalOfDifference(m: Ranges, f: Range -> int, g: Range -> int, h: Range -> int)
    requires forall k :: k in m ==> f(m[k]) == g(m[k]) - h(m[k])
    ensures Total(m, f) == Total(m, g) - Total(m, h)
    decreases |m|
  {
    if m != map[] {
      var k := FirstKey(m).value;
      TotalOfDifference(m - {k}, f, g, h);
    }
  }

  /** Loss is what was sent minus what was received, entry by entry and in total. */
  lemma {:induction false} LossIsDifference(m: Ranges)
    ensures Total(m, LostBytes) == Total(m, SentBytes) - Total(m, ReceivedBytes)
  {
    forall k | k in m
      ensures LostBytes(m[k]) == SentBytes(m[k]) - ReceivedBytes(m[k])
    {
      Distribute(m[k].dataSentCount, m[k].dataReceivedCount, m[k].byteCount);
    }
    TotalOfDifference(m, LostBytes, SentBytes, ReceivedBytes);
  }

  lemma Distribute(a: int, b: int, x: int)
    ensures (a - b) * x == a * x - b * x
  {
  }

  /** Where the counters agree, the bytes sent beyond the unique ones are the redundant ones: every transmission
      of an entry but its first was counted once, as a retransmission or as a bundle. */
  lemma {:induction false} RedundantIsDifference(m: Ranges)
    requires Keyed(m) && AllEntries(m, Agrees)
    ensures Total(m, RedundantBytes) == Total(m, SentBytes) - Total(m, UniqueBytes)
  {
    forall k | k in m
      ensures RedundantBytes(m[k]) == SentBytes(m[k]) - UniqueBytes(m[k])
    {
      var r := m[k];
      if !r.Empty() {
        Distribute(r.dataSentCount, 1, r.byteCount);
      } else {
        assert r.byteCount == 0;
      }
    }
    TotalOfDifference(m, RedundantBytes, SentBytes, UniqueBytes);
  }

  // ---------- getNumUniqueBytes and the redundancy check ----------

  function DataKeys(m: Ranges): set<int> {
    set k | k in m && m[k].byteCount > 0
  }

  /** `getNumUniqueBytes` over all entries. The backward loop stops before it looks at the first entry. */
  function NumUniqueBytes(m: Ranges): int
    requires m != map[]
  {
    var first := FirstKey(m).value;
    var late := DataKeys(m) - {first};
    var firstDataSeq := if DataKeys(m) == {} then 0 else m[Least(DataKeys(m))].startSeq;
    var lastDataSeq := if late == {} then 0 else m[Greatest(late)].endSeq;
    (lastDataSeq - firstDataSeq) % WRAP64
  }

  /** The comparison in `addConnStats`, in unsigned 64-bit arithmetic. */
  predicate RedundancyMismatch(m: Ranges)
    requires m != map[]
  {
    (Total(m, SentBytes) - NumUniqueBytes(m)) % WRAP64 != Total(m, RedundantBytes) % WRAP64
  }

  function Span(f: Front): int {
    if f.top > 0 then f.top - f.Lo() else 0
  }

  lemma DataKeysEnds(m: Ranges, f: Front)
    requires Shape(m, f) && f.top > 0
    ensures f.Lo() in DataKeys(m) && (forall k :: k in DataKeys(m) ==> f.Lo() <= k)
    ensures exists k :: k in DataKeys(m) && m[k].endSeq == f.top && forall j :: j in DataKeys(m) ==> j <= k
  {
    assert Covered(m, f.Lo()) && Covered(m, f.top - 1);
    forall k | k in DataKeys(m)
      ensures f.Lo() <= k && m[k].endSeq <= f.top
    {
      assert Covers(m, k, k) && Covered(m, k);
      assert Covers(m, k, m[k].endSeq - 1) && Covered(m, m[k].endSeq - 1);
    }
    var j :| Covers(m, j, f.Lo());
    assert j in DataKeys(m);
    var k :| Covers(m, k, f.top - 1);
    assert k in DataKeys(m) && m[k].endSeq == f.top;
    LaterBeyond(m, k);
  }

  /** Only the first entry holds data, and so the loop over the last data range finds none. */
  predicate OnlyFirstHoldsData(m: Ranges) {
    DataKeys(m) == {0}
  }

  lemma NoDataKeys(m: Ranges, f: Front)
    requires Shape(m, f) && f.top == 0
    ensures DataKeys(m) == {}
  {
    forall k
      ensures k !in DataKeys(m)
    {
      if k in m && m[k].byteCount > 0 {
        assert !Covered(m, k);
        assert !Covers(m, k, k);
      }
    }
  }

  lemma ShapeStart(m: Ranges, f: Front)
    requires Shape(m, f) && m != map[]
    ensures FirstKey(m) == Some(0)
    ensures forall k :: k in DataKeys(m) ==> k in m && m[k].startSeq == k >= 0
  {
  }

  lemma LeastIs(s: set<int>, k: int)
    requires k in s && forall j :: j in s ==> k <= j
    ensures Least(s) == k
  {
  }

  lemma GreatestIs(s: set<int>, k: int)
    requires k in s && forall j :: j in s ==> j <= k
    ensures Greatest(s) == k
  {
  }

  lemma SingleEntry(m: Ranges, f: Front)
    requires Shape(m, f) && f.top > 0 && forall j :: j in DataKeys(m) ==> j <= 0
    ensures OnlyFirstHoldsData(m) && f.Lo() == 0
  {
    DataKeysEnds(m, f);
    hide Shape, DataKeys;
    var data := DataKeys(m);
    forall j
      ensures j in data <==> j == 0
    {
    }
  }

  lemma UniqueBytesFound(m: Ranges, f: Front)
    requires Shape(m, f) && m != map[] && f.top < WRAP64
    ensures NumUniqueBytes(m) == if OnlyFirstHoldsData(m) then 0 else Span(f)
    ensures OnlyFirstHoldsData(m) ==> f.top > 0 && f.Lo() == 0
  {
    hide Shape, FrontOk, Keyed, FirstKey, Least, Greatest, DataKeys;
    ShapeStart(m, f);
    ShapeKeyed(m, f);
    if f.top > 0 {
      DataKeysEnds(m, f);
      var k :| k in DataKeys(m) && m[k].endSeq == f.top && forall j :: j in DataKeys(m) ==> j <= k;
      LeastIs(DataKeys(m), f.Lo());
      if k == 0 {
        SingleEntry(m, f);
        assert DataKeys(m) - {0} == {};
      } else {
        GreatestIs(DataKeys(m) - {0}, k);
      }
    } else {
      NoDataKeys(m, f);
    }
  }

  /** Where the counters agree, the redundancy check fires if and only if the first entry is the only one with
      data: a trace without SYN whose data all ends up in one entry. */
  lemma MismatchExactly(m: Ranges, f: Front)
    requires Shape(m, f) && m != map[] && f.top < WRAP64
    requires AllEntries(m, Agrees) && Total(m, UniqueBytes) == Span(f)
    ensures RedundancyMismatch(m) <==> OnlyFirstHoldsData(m)
  {
    hide DataKeys, NumUniqueBytes, Shape, Agrees, Total, FirstKey;
    UniqueBytesFound(m, f);
    ShapeKeyed(m, f);
    RedundantIsDifference(m);
    var sent, redundant, unique := Total(m, SentBytes), Total(m, RedundantBytes), NumUniqueBytes(m);
    SameResidue(sent - unique, redundant);
  }

  lemma ShapeKeyed(m: Ranges, f: Front)
    requires Shape(m, f)
    ensures Keyed(m) && FrontOk(f)
  {
  }

  lemma SameResidue(a: int, b: int)
    requires 0 <= a - b < WRAP64
    ensures a % WRAP64 == b % WRAP64 <==> a == b
  {
  }

  // ---------- validateContent ----------

  /** The discontinuity test at entry `k`: the entry before it ends elsewhere, is not the first, and both hold data. */
  predicate BrokenAt(m: Ranges, k: int)
    requires k in m
  {
    match PrevKey(m, k)
    case None => false
    case Some(p) => PrevKey(m, p).Some? && m[p].endSeq != m[k].startSeq && m[p].byteCount != 0 && m[k].byteCount != 0
  }

  /** The end test, with the unsigned subtraction of the code. */
  predicate EndAligned(m: Ranges, lastSeq: int)
    requires m != map[]
  {
    (lastSeq - 1) % WRAP64 <= m[LastKey(m).value].endSeq <= lastSeq
  }

  /** `validateContent` prints no warning. */
  ghost predicate ValidatorAccepts(m: Ranges, lastSeq: int, t: Totals)
    requires m != map[]
  {
    && m[FirstKey(m).value].startSeq == 0
    && EndAligned(m, lastSeq)
    && t.totBytesSent == t.totNewDataSent + t.totRdbBytesSent + t.totRetransBytesSent
    && forall k :: k in m ==> !BrokenAt(m, k)
  }

  /** Entry `k` follows entry `p` in the map. */
  ghost predicate Adjacent(m: Ranges, p: int, k: int) {
    p in m && k in m && p < k && forall j :: j in m ==> j <= p || k <= j
  }

  ghost predicate NotFirst(m: Ranges, p: int) {
    exists j :: j in m && j < p
  }

  lemma AdjacentIsPrev(m: Ranges, p: int, k: int)
    requires k in m
    ensures Adjacent(m, p, k) <==> PrevKey(m, k) == Some(p)
    ensures p in m ==> (NotFirst(m, p) <==> PrevKey(m, p).Some?)
  {
  }

  /** On any map the discontinuity test passes if and only if every two neighbours with data join, the first entry of the
      map and its neighbour left out: a gap right behind the first entry goes unnoticed. */
  lemma DiscontinuityExactly(m: Ranges)
    ensures (forall k :: k in m ==> !BrokenAt(m, k)) <==>
      (forall p, k :: Adjacent(m, p, k) && NotFirst(m, p) && m[p].byteCount > 0 && m[k].byteCount > 0 ==> m[p].endSeq == m[k].startSeq)
  {
    hide PrevKey, Adjacent, NotFirst;
    forall p, k | k in m
      ensures Adjacent(m, p, k) <==> PrevKey(m, k) == Some(p)
      ensures p in m ==> (NotFirst(m, p) <==> PrevKey(m, p).Some?)
    {
      AdjacentIsPrev(m, p, k);
    }
    forall p, k | Adjacent(m, p, k)
      ensures p in m && k in m
    {
      AdjacentKeys(m, p, k);
    }
  }

  lemma AdjacentKeys(m: Ranges, p: int, k: int)
    requires Adjacent(m, p, k)
    ensures p in m && k in m
  {
  }

  lemma NothingBroken(m: Ranges, f: Front, k: int)
    requires Shape(m, f) && k in m
    ensures !BrokenAt(m, k)
  {
    ShapeContiguous(m, f);
    if PrevKey(m, k).Some? {
      var p := PrevKey(m, k).value;
      NextKeyIs(m, p, k);
      assert JoinedAt(m, p);
    }
  }

  lemma LastEnd(m: Ranges, f: Front)
    requires Shape(m, f) && m != map[]
    ensures f.last - 1 <= m[LastKey(m).value].endSeq <= f.last
  {
    var k := LastKey(m).value;
    if f.top > 0 {
      assert Covered(m, f.top - 1);
      var j :| Covers(m, j, f.top - 1);
      LaterBeyond(m, j);
    }
  }

  /** The repository's own validator accepts every state of a gap-free run if and only if its next
      expected number is not zero; at zero the unsigned `lastSeq - 1` wraps around. */
  lemma ValidatorAcceptsExactly(m: Ranges, f: Front, t: Totals)
    requires Shape(m, f) && m != map[] && f.last < WRAP64
    requires t.totBytesSent == t.totNewDataSent + t.totRdbBytesSent + t.totRetransBytesSent
    ensures ValidatorAccepts(m, f.last, t) <==> f.last != 0
  {
    hide NextKey, PrevKey, BrokenAt, LastKey;
    LastEnd(m, f);
    ShapeStart(m, f);
    forall k | k in m
      ensures !BrokenAt(m, k)
    {
      NothingBroken(m, f, k);
    }
  }
}
