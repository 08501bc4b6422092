/** `RangeManager::insertByteRange` on values. One call of the method is one `Step`: it either
    finishes, asks for a recursive call from a later position, or ends the program. `Insert`
    iterates it. */
module Index {
  import opened Common
  import opened OrderedMap
  import opened ByteRanges

  type Ranges = map<int, Range>

  const RECURSION_LEVEL := 1500
  const WRAP := 0x1_0000_0000

  datatype InsertType = InsertSent | InsertRecv

  /** What stays the same during one insertion. */
  datatype Call = Call(itype: InsertType, lastSeq: int, firstSeq: int, seg: DataSeg)

  datatype Outcome =
    | Done(ranges: Ranges)
    | Again(ranges: Ranges, at: int)
    | Threw
    | Aborted

  datatype Inserted =
    | Ok(ranges: Ranges)
    | Thrown
    | Abort

  /** Every entry is stored under its own start and has a consistent size. */
  ghost predicate Keyed(m: Ranges) {
    forall k :: k in m ==> 0 <= k && m[k].startSeq == k && m[k].Sized()
  }

  function RdbAt(seg: DataSeg, s: int): bool {
    seg.isRdb && seg.rdbEndSeq > s
  }

  /** One more transmission, or one more reception, of a byte. */
  function CountByte(c: Call, i: ByteInfo): ByteInfo {
    if c.itype == InsertSent then i.(sent := i.sent + 1) else i.(received := i.received + 1)
  }

  /** Splits entry `k` so that a new entry starts at `at`. `std::map::insert` leaves an entry that is there already. */
  function SplitAt(m: Ranges, k: int, at: int): Ranges
    requires k in m && m[k].startSeq <= at <= m[k].endSeq
  {
    if at in m then m[k := m[k].Left(at)] else m[k := m[k].Left(at)][at := m[k].Right(at)]
  }

  /** Counts a segment on a part that was just cut out of a larger entry. A FIN is marked, for
      receptions too, if the segment `ends` in that entry. */
  function CountInside(r: Range, c: Call, s: int, level: nat, ends: bool): (r': Range)
    ensures r'.SameSpan(r) && r'.Info() == CountByte(c, r.Info())
  {
    var r := if ends && c.seg.flags.fin then r.(fin := 1) else r;
    if c.itype == InsertSent then
      var r' := r.IncreaseSent(c.seg, RdbAt(c.seg, s), if level == 0 then StRtr else StNone);
      r'.(dataRetransCount := r'.dataRetransCount + 1,
          rdbCount := if c.seg.isRdb then r'.rdbCount + 1 else r'.rdbCount)
    else
      CountReceived(r, c, level)
  }

  /** Counts a segment on an entry that starts exactly where the segment does. */
  function CountExisting(r: Range, c: Call, s: int, level: nat): (r': Range)
    ensures r'.SameSpan(r) && r'.Info() == CountByte(c, r.Info())
  {
    if c.itype == InsertSent then
      var kind := if level > 0 then StNone else if c.seg.retrans then StRtr else StPkt;
      var r' := r.IncreaseSent(c.seg, RdbAt(c.seg, s), kind);
      r'.(dataRetransCount := if c.seg.retrans then r'.dataRetransCount + 1 else r'.dataRetransCount,
          rdbCount := if c.seg.isRdb then r'.rdbCount + 1 else r'.rdbCount,
          fin := if level == 0 && c.seg.flags.fin then r'.fin + 1 else r'.fin)
    else
      CountReceived(r, c, level)
  }

  function CountReceived(r: Range, c: Call, level: nat): (r': Range)
    ensures r'.SameSpan(r) && r'.Info() == r.Info().(received := r.dataReceivedCount + 1)
  {
    var r' := r.IncreaseReceived(c.seg);
    r'.(packetReceivedCount := if level == 0 then r'.packetReceivedCount + 1 else r'.packetReceivedCount)
  }

  /** The entry made for bytes that no entry holds yet. */
  function CreateRange(c: Call, s: int, e: int): Range
    requires s <= e
  {
    NewRange(s, e).(originalPayloadSize := c.seg.payloadSize,
                    originalPacketIsRdb := c.seg.isRdb,
                    fin := if c.seg.flags.fin then 1 else 0)
      .IncreaseSent(c.seg, RdbAt(c.seg, s), if c.seg.isRdb then StNone else StPkt)
  }

  /** The entry whose interval holds `s` without starting there. */
  function Container(m: Ranges, s: int): (r: Option<int>)
    ensures r.Some? ==> r.value in m && r.value < s < m[r.value].endSeq
  {
    match PrevKey(m, s)
    case Some(k) => if m[k].endSeq > s then Some(k) else None
    case None => None
  }

  /** The search for a container asserts that some entry starts at or before the segment's end. */
  predicate NothingToSearch(m: Ranges, e: int) {
    match FirstKey(m)
    case None => true
    case Some(k) => e < k
  }

  /** Entry `k` holds `s` without starting there. */
  function StepInside(m: Ranges, c: Call, k: int, s: int, e: int, level: nat): Outcome
    requires k in m && m[k].startSeq < s < m[k].endSeq && s < e && s !in m
  {
    var end := m[k].endSeq;
    var cut := SplitAt(m, k, s);
    if e < end then
      var cut2 := SplitAt(cut, s, e);
      Done(cut2[s := CountInside(cut2[s], c, s, level, true)])
    else if e == end then
      Done(cut[s := CountInside(cut[s], c, s, level, true)])
    else
      Again(cut[s := CountInside(cut[s], c, s, level, false)], end)
  }

  /** No entry starts at `s`. */
  function StepMissing(m: Ranges, c: Call, s: int, e: int, level: nat): Outcome
    requires Keyed(m) && s < e && s !in m
  {
    if s < c.lastSeq && NothingToSearch(m, e) then Aborted else
    var k := if s < c.lastSeq then Container(m, s) else None;
    if k.Some? then
      StepInside(m, c, k.value, s, e, level)
    else if c.itype == InsertRecv then
      Done(m)
    else if c.seg.flags.syn then
      Aborted
    else
      Done(m[s := CreateRange(c, s, e)])
  }

  /** Data reaches an entry that so far only counted segments without payload. */
  function StepEmptyEntry(m: Ranges, c: Call, s: int, e: int): Outcome
    requires Keyed(m) && s < e && s in m && m[s].Empty()
  {
    var end := match NextKey(m, s) case None => e case Some(n) => Min(n, e);
    var m' := m[s := m[s].Stretch(end).IncreaseSent(c.seg, RdbAt(c.seg, s), StPkt)];
    if end < e then Again(m', end) else Done(m')
  }

  /** An entry starts at `s`. */
  function StepFound(m: Ranges, c: Call, s: int, e: int, level: nat): Outcome
    requires Keyed(m) && s < e && s in m
  {
    var r := m[s];
    var counted := CountExisting(r, c, s, level);
    if r.endSeq == e then
      Done(m[s := if c.itype == InsertSent && c.seg.flags.syn then counted.(syn := counted.syn + 1) else counted])
    else if c.itype == InsertRecv && e == (c.firstSeq + 1) % WRAP then
      Aborted
    else if r.endSeq < e then
      if c.itype == InsertSent && r.Empty() then
        StepEmptyEntry(m, c, s, e)
      else if c.itype == InsertRecv && counted.receivedTstampTcp == 0 then
        Aborted
      else if level > RECURSION_LEVEL then
        Threw
      else
        Again(m[s := counted], r.endSeq)
    else
      var cut := SplitAt(m, s, e);
      Done(cut[s := CountExisting(cut[s], c, s, level)])
  }

  function Step(m: Ranges, c: Call, s: int, e: int, level: nat): Outcome
    requires Keyed(m) && s < e
  {
    if s in m then StepFound(m, c, s, e, level) else StepMissing(m, c, s, e, level)
  }

  lemma PutKeyed(m: Ranges, k: int, r: Range)
    requires Keyed(m) && 0 <= k && r.startSeq == k && r.Sized()
    ensures Keyed(m[k := r])
  {
  }

  lemma SplitKeyed(m: Ranges, k: int, at: int)
    requires Keyed(m) && k in m && k < at < m[k].endSeq
    ensures Keyed(SplitAt(m, k, at))
  {
    hide Range.Left, Range.Right;
    PutKeyed(m, k, m[k].Left(at));
    PutKeyed(m[k := m[k].Left(at)], at, m[k].Right(at));
  }

  lemma MissingProgress(m: Ranges, c: Call, s: int, e: int, level: nat)
    requires Keyed(m) && 0 <= s < e < s + MAX_RANGE_SIZE && s !in m
    ensures var o := StepMissing(m, c, s, e, level);
      && (o.Done? || o.Again? ==> Keyed(o.ranges))
      && (o.Again? ==> s < o.at < e)
  {
    hide Range.Left, Range.Right, CountInside, CountExisting;
    if s < c.lastSeq && Container(m, s).Some? {
      var k := Container(m, s).value;
      SplitKeyed(m, k, s);
      var cut := SplitAt(m, k, s);
      if e < m[k].endSeq {
        SplitKeyed(cut, s, e);
        cut := SplitAt(cut, s, e);
      }
      PutKeyed(cut, s, CountInside(cut[s], c, s, level, e <= m[k].endSeq));
    } else {
      PutKeyed(m, s, CreateRange(c, s, e));
    }
  }

  lemma EmptyEntryProgress(m: Ranges, c: Call, s: int, e: int)
    requires Keyed(m) && 0 <= s < e < s + MAX_RANGE_SIZE && s in m && m[s].Empty()
    ensures var o := StepEmptyEntry(m, c, s, e);
      && Keyed(o.ranges)
      && (o.Again? ==> s < o.at < e)
  {
    PutKeyed(m, s, StepEmptyEntry(m, c, s, e).ranges[s]);
  }

  lemma FoundProgress(m: Ranges, c: Call, s: int, e: int, level: nat)
    requires Keyed(m) && 0 <= s < e < s + MAX_RANGE_SIZE && s in m
    ensures var o := StepFound(m, c, s, e, level);
      && (o.Done? || o.Again? ==> Keyed(o.ranges))
      && (o.Again? ==> s <= o.at < e)
      && (o.Again? && o.at == s ==> c.itype == InsertRecv && level <= RECURSION_LEVEL && m[s].Empty())
  {
    hide Range.Left, Range.Right, CountInside, CountExisting;
    var counted := CountExisting(m[s], c, s, level);
    PutKeyed(m, s, counted);
    PutKeyed(m, s, counted.(syn := counted.syn + 1));
    if m[s].Empty() {
      EmptyEntryProgress(m, c, s, e);
    }
    if e < m[s].endSeq {
      SplitKeyed(m, s, e);
      var cut := SplitAt(m, s, e);
      PutKeyed(cut, s, CountExisting(cut[s], c, s, level));
    }
  }

  /** A step keeps the map keyed. The position it hands on is never behind its own and never past
      the end, and it only stands still on an entry without bytes, which the recursion guard bounds. */
  lemma StepProgress(m: Ranges, c: Call, s: int, e: int, level: nat)
    requires Keyed(m) && 0 <= s < e < s + MAX_RANGE_SIZE
    ensures var o := Step(m, c, s, e, level);
      && (o.Done? || o.Again? ==> Keyed(o.ranges))
      && (o.Again? ==> s <= o.at < e)
      && (o.Again? && o.at == s ==> c.itype == InsertRecv && level <= RECURSION_LEVEL && s in m && m[s].Empty())
  {
    if s in m {
      FoundProgress(m, c, s, e, level);
    } else {
      MissingProgress(m, c, s, e, level);
    }
  }

  /** The recursion of `insertByteRange`. */
  function Insert(m: Ranges, c: Call, s: int, e: int, level: nat): Inserted
    requires Keyed(m) && 0 <= s < e < s + MAX_RANGE_SIZE
    decreases e - s, if level <= RECURSION_LEVEL then RECURSION_LEVEL + 1 - level else 0
  {
    StepProgress(m, c, s, e, level);
    match Step(m, c, s, e, level)
    case Done(m') => Ok(m')
    case Again(m', at) => Insert(m', c, at, e, level + 1)
    case Threw => Thrown
    case Aborted => Abort
  }

  lemma {:induction false} InsertKeyed(m: Ranges, c: Call, s: int, e: int, level: nat)
    requires Keyed(m) && 0 <= s < e < s + MAX_RANGE_SIZE
    ensures var r := Insert(m, c, s, e, level); r.Ok? ==> Keyed(r.ranges)
    decreases e - s, if level <= RECURSION_LEVEL then RECURSION_LEVEL + 1 - level else 0
  {
    hide Step;
    StepProgress(m, c, s, e, level);
    var o := Step(m, c, s, e, level);
    if o.Again? {
      InsertKeyed(o.ranges, c, o.at, e, level + 1);
    }
  }

  /** A segment without payload: a pure ACK, or a SYN, FIN or RST. A pure ACK is counted on the
      entry one below its number when there is one. */
  function ControlKey(m: Ranges, seg: DataSeg, s: int): int {
    if !seg.flags.Control() && s - 1 in m then s - 1 else s
  }

  function InsertEmpty(m: Ranges, c: Call, s: int): Ranges {
    var k := ControlKey(m, c.seg, s);
    m[k := if k in m then CountEmpty(m[k], c, s) else EmptyEntry(c, k, s)]
  }

  /** The entry made for a segment without payload. */
  function EmptyEntry(c: Call, k: int, s: int): Range {
    var f := c.seg.flags;
    NewRange(k, k).(packetRetransCount := if c.seg.retrans then 1 else 0,
                    rdbCount := if c.seg.isRdb then 1 else 0,
                    syn := if f.syn then 1 else 0,
                    fin := if f.fin && !f.syn then 1 else 0,
                    rst := if f.rst && !f.syn && !f.fin then 1 else 0)
      .IncreaseSent(c.seg, RdbAt(c.seg, s), if f.Control() then StPkt else StPureAck)
  }

  /** Counts a segment without payload on an entry. */
  function CountEmpty(r: Range, c: Call, s: int): Range {
    var f := c.seg.flags;
    if c.itype == InsertSent then
      if f.syn || f.fin then
        r.(syn := if f.syn then r.syn + 1 else r.syn, fin := if f.fin then r.fin + 1 else r.fin)
         .IncreaseSent(c.seg, RdbAt(c.seg, s), StRtr)
      else if f.rst then
        r.(rst := r.rst + 1).IncreaseSent(c.seg, RdbAt(c.seg, s), StRst)
      else
        r.IncreaseSent(c.seg, RdbAt(c.seg, s), StPureAck)
    else
      var r' := if f.syn || f.fin then r.IncreaseReceived(c.seg) else r;
      r'.(packetReceivedCount := r'.packetReceivedCount + 1)
  }

  lemma InsertEmptyKeyed(m: Ranges, c: Call, s: int)
    requires Keyed(m) && 0 <= s
    ensures Keyed(InsertEmpty(m, c, s))
  {
    var k := ControlKey(m, c.seg, s);
    PutKeyed(m, k, InsertEmpty(m, c, s)[k]);
  }

  /** `insertSentRange`: how a registered segment moves `lastSeq`. */
  function NextLastSeq(lastSeq: int, seg: DataSeg): int {
    if seg.payloadSize == 0 then
      if seg.flags.rst then lastSeq else if seg.flags.syn then seg.endSeq + 1 else seg.endSeq
    else if seg.startSeq > lastSeq then lastSeq
    else if seg.startSeq == lastSeq then seg.startSeq + seg.payloadSize
    else if seg.endSeq <= lastSeq then lastSeq
    else seg.startSeq + seg.payloadSize
  }
}
