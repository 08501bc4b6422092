/** The send phase of a whole trace: registration and sent insertion, packet by packet, on a
    gap-free sender trace. */
module SendRun {
  import opened Common
  import opened OrderedMap
  import opened ByteRanges
  import opened Index
  import opened ByteView
  import opened Insertion
  import opened Accounting
  import opened Entries
  import opened Registration

  // ---------- the state machine ----------

  datatype SendState = SendState(totals: Totals, ranges: Ranges, lastSeq: int)

  datatype Run<+T> = Running(state: T) | GuardTripped | Died

  /** `registerSent` followed by `insertSentRange`. */
  function SendOne(st: SendState, firstSeq: int, g: DataSeg): Run<SendState>
    requires Keyed(st.ranges) && Captured(g) && g.payloadSize < MAX_RANGE_SIZE
  {
    var (totals, g') := Register(st.totals, g);
    var c := Call(InsertSent, st.lastSeq, firstSeq, g');
    var last := NextLastSeq(st.lastSeq, g');
    if g.payloadSize == 0 then
      Running(SendState(totals, InsertEmpty(st.ranges, c, g.startSeq), last))
    else
      match Insert(st.ranges, c, g.startSeq, g.endSeq, 0)
      case Ok(m) => Running(SendState(totals, m, last))
      case Thrown => GuardTripped
      case Abort => Died
  }

  // ---------- gap-free sender traces ----------

  /** How far a trace has come: the end of its data, the next expected number, and its SYN and FIN. */
  datatype Front = Front(top: int, last: int, syn: bool, fin: Option<int>, bareFin: bool) {
    /** The number of the first data byte. */
    function Lo(): int {
      if syn then 1 else 0
    }

    /** Where new data has to start. */
    function Base(): int {
      if top > 0 then top else Lo()
    }
  }

  const AT_START := Front(0, 0, false, None, false)

  /** The next packet fits a sender trace without gaps: data starts at or below the next expected
      number and never reaches the FIN's number, control segments and ACKs sit at the next number,
      SYN is not repeated after data and FIN only at its own number. RSTs are left out. */
  predicate GapFreeStep(f: Front, g: DataSeg) {
    && Captured(g) && !g.flags.rst
    && if g.payloadSize > 0 then
         && g.payloadSize < MAX_RANGE_SIZE && !g.flags.syn
         && f.Lo() <= g.startSeq <= f.last
         && (f.fin.Some? ==> g.endSeq <= f.fin.value)
         && (g.flags.fin ==> f.fin == Some(g.endSeq) || (f.fin.None? && g.endSeq >= f.last))
       else if g.flags.syn then
         !g.flags.fin && g.startSeq == 0 && f.top == 0 && f.fin.None?
       else if g.flags.fin then
         (f.fin.None? && g.startSeq == f.last) || (f.fin == Some(g.startSeq) && (g.startSeq == f.last || f.bareFin))
       else
         g.startSeq == f.last || f.fin == Some(g.startSeq - 1)
  }

  function NextFront(f: Front, g: DataSeg): Front {
    var last := NextLastSeq(f.last, g);
    if g.payloadSize > 0 then
      f.(top := Max(f.top, g.endSeq), last := last, fin := if g.flags.fin then Some(g.endSeq) else f.fin)
    else if g.flags.syn then f.(last := last, syn := true)
    else if g.flags.fin then f.(last := last, fin := Some(g.startSeq), bareFin := true)
    else f.(last := last)
  }

  function FrontOf(segs: seq<DataSeg>): Front {
    if segs == [] then AT_START else NextFront(FrontOf(segs[..|segs| - 1]), segs[|segs| - 1])
  }

  ghost predicate GapFree(segs: seq<DataSeg>) {
    forall i :: 0 <= i < |segs| ==> GapFreeStep(FrontOf(segs[..i]), segs[i])
  }

  // ---------- the invariant ----------

  /** A fact about the trace front alone. */
  predicate FrontOk(f: Front) {
    && 0 <= f.top && (f.top > 0 ==> f.Lo() < f.top)
    && (f.fin.None? ==> f.last == f.Base() && !f.bareFin)
    && (f.fin.Some? ==> f.fin.value == f.Base() && f.Base() <= f.last <= f.Base() + 1)
    && (f.fin.Some? && f.top == 0 ==> f.bareFin)
  }

  /** Nothing is received or acknowledged yet, and an entry without bytes was counted as sent data
      only if it is the SYN's or the FIN's. */
  ghost predicate Unanswered(m: Ranges, f: Front) {
    && (forall k :: k in m ==> m[k].dataReceivedCount == 0 && !m[k].acked && m[k].ackTime == NO_TIME)
    && (forall k :: k in m && m[k].Empty() && !(f.syn && k == 0) && f.fin != Some(k) ==> m[k].dataSentCount == 0)
  }

  /** The map holds exactly the bytes sent so far, and its keys respect the trace front. */
  ghost predicate Shape(m: Ranges, f: Front) {
    && FrontOk(f) && Keyed(m) && Disjoint(m) && Below(m, f.last)
    && (forall b :: Covered(m, b) <==> f.Lo() <= b < f.top)
    && (m == map[] ==> f == AT_START)
    && (m != map[] ==> 0 in m)
    && (f.bareFin ==> f.Base() in m && Below(m, f.Base()))
  }

  lemma FrontStep(f: Front, g: DataSeg)
    requires FrontOk(f) && GapFreeStep(f, g)
    ensures FrontOk(NextFront(f, g))
  {
  }

  // ---------- one data segment ----------

  /** Everything the send phase keeps, after any prefix of the trace. */
  ghost predicate SendInv(st: SendState, f: Front) {
    && Shape(st.ranges, f) && Unanswered(st.ranges, f)
    && st.lastSeq == f.last
    && MarksOrdered(st.totals) && st.totals.lastLargestEndSeq == f.top
  }

  function CallFor(st: SendState, firstSeq: int, g: DataSeg): Call {
    Call(InsertSent, st.lastSeq, firstSeq, Register(st.totals, g).1)
  }

  lemma DataIsReady(st: SendState, f: Front, firstSeq: int, g: DataSeg)
    requires SendInv(st, f) && GapFreeStep(f, g) && g.payloadSize > 0
    ensures Ready(st.ranges, CallFor(st, firstSeq, g), g.startSeq, g.endSeq, f.Base())
  {
    var m, base := st.ranges, f.Base();
    assert AllCovered(m, g.startSeq, Min(g.endSeq, base));
    if g.endSeq > base && base in m {
      assert m[base].Empty();
    }
  }

  /** A data segment of a gap-free trace is counted once on each of its bytes, and the map then
      holds the bytes sent so far. */
  lemma DataKeeps(st: SendState, f: Front, firstSeq: int, g: DataSeg)
    requires SendInv(st, f) && GapFreeStep(f, g) && g.payloadSize > 0
    ensures var r := SendOne(st, firstSeq, g);
      && !r.Died?
      && (r.Running? ==> SendInv(r.state, NextFront(f, g))
                         && Refines(st.ranges, r.state.ranges, CallFor(st, firstSeq, g), g.startSeq, g.endSeq))
  {
    hide Insert, Range.Info, CountAt;
    DataIsReady(st, f, firstSeq, g);
    var c := CallFor(st, firstSeq, g);
    InsertSegment(st.ranges, c, g.startSeq, g.endSeq, 0, f.Base());
    FrontStep(f, g);
    RegisterBalances(st.totals, g);
    var r := Insert(st.ranges, c, g.startSeq, g.endSeq, 0);
    if r.Ok? {
      DataShape(st.ranges, r.ranges, f, c, g);
      DataUnanswered(st.ranges, r.ranges, f, c, g);
    }
  }

  lemma DataShape(m: Ranges, m': Ranges, f: Front, c: Call, g: DataSeg)
    requires Shape(m, f) && GapFreeStep(f, g) && g.payloadSize > 0
    requires c.itype == InsertSent && c.lastSeq == f.last && Ready(m, c, g.startSeq, g.endSeq, f.Base())
    requires Refines(m, m', c, g.startSeq, g.endSeq) && EmptiesKept(m, m', g.endSeq, f.Base())
    requires Below(m', Max(f.last, g.endSeq))
    ensures Shape(m', NextFront(f, g))
  {
    hide Range.Info, CountByte;
    FrontStep(f, g);
    var f' := NextFront(f, g);
    forall b
      ensures Covered(m', b) <==> f'.Lo() <= b < f'.top
    {
      assert At(m', b) == if g.startSeq <= b < g.endSeq then CountAt(c, At(m, b)) else At(m, b);
    }
  }

  lemma DataUnanswered(m: Ranges, m': Ranges, f: Front, c: Call, g: DataSeg)
    requires Shape(m, f) && Unanswered(m, f) && GapFreeStep(f, g) && g.payloadSize > 0
    requires c.itype == InsertSent
    requires Refines(m, m', c, g.startSeq, g.endSeq) && EmptiesKept(m, m', g.endSeq, f.Base())
    ensures Unanswered(m', NextFront(f, g))
  {
    hide Range.Info;
    forall k | k in m'
      ensures m'[k].dataReceivedCount == 0 && !m'[k].acked && m'[k].ackTime == NO_TIME
    {
      if !m'[k].Empty() {
        assert Covers(m', k, k);
        AtIs(m', k, k);
        UnansweredAt(m, f, k);
        EntryInfo(m'[k]);
      }
    }
  }

  lemma EntryInfo(r: Range)
    ensures r.Info() == ByteInfo(r.dataSentCount, r.dataReceivedCount, r.acked, r.ackTime)
  {
  }

  lemma UnansweredAt(m: Ranges, f: Front, b: int)
    requires Unanswered(m, f)
    ensures var i := At(m, b); i.Some? ==> i.value.received == 0 && !i.value.acked && i.value.ackTime == NO_TIME
  {
  }

  // ---------- one segment without payload ----------

  /** What a segment without payload does to the entry it is counted on. */
  ghost predicate ControlCounted(r: Range, r': Range) {
    && r'.SameSpan(r)
    && r'.dataReceivedCount == r.dataReceivedCount && r'.acked == r.acked && r'.ackTime == r.ackTime
    && r'.dataRetransCount == r.dataRetransCount && r'.rdbCount == r.rdbCount && r'.originalPayloadSize == r.originalPayloadSize
    && PacketsSent(r') == PacketsSent(r) + 1 && r'.packetReceivedCount == r.packetReceivedCount
  }

  lemma ControlEntry(m: Ranges, c: Call, s: int)
    requires Keyed(m) && c.itype == InsertSent && !c.seg.retrans && !c.seg.isRdb
    ensures var k := ControlKey(m, c.seg, s); var r' := InsertEmpty(m, c, s)[k];
      && ControlCounted(if k in m then m[k] else NewRange(k, k), r')
      && (!c.seg.flags.Control() ==> r'.dataSentCount == (if k in m then m[k].dataSentCount else 0))
      && InsertEmpty(m, c, s) == m[k := r']
  {
  }

  /** On a gap-free trace a SYN or FIN never lands on an entry that holds bytes. */
  lemma ControlLandsOnEmpty(m: Ranges, f: Front, g: DataSeg)
    requires Shape(m, f) && GapFreeStep(f, g) && g.payloadSize == 0
    ensures var k := ControlKey(m, g, g.startSeq);
      && k >= 0
      && (g.flags.Control() && k in m ==> m[k].Empty())
      && (k !in m ==> k == g.startSeq && Below(m, k) && NextFront(f, g).last >= k)
  {
    if g.flags.syn && 0 in m && !m[0].Empty() {
      assert Covers(m, 0, 0) && Covered(m, 0);
    }
  }

  lemma ControlByte(m: Ranges, f: Front, g: DataSeg, c: Call, b: int)
    requires Shape(m, f) && GapFreeStep(f, g) && g.payloadSize == 0
    requires c.itype == InsertSent && c.seg == g
    ensures At(InsertEmpty(m, c, g.startSeq), b) == At(m, b)
  {
    hide InsertEmpty, Range.Info;
    var k := ControlKey(m, g, g.startSeq);
    ControlEntry(m, c, g.startSeq);
    ControlLandsOnEmpty(m, f, g);
    var m' := InsertEmpty(m, c, g.startSeq);
    if k in m {
      TouchByte(m, k, m'[k], b);
      if Covers(m, k, b) {
        AtIs(m, k, b);
        EntryInfo(m[k]);
        EntryInfo(m'[k]);
      }
    } else {
      assert forall j :: Covers(m', j, b) <==> Covers(m, j, b);
      if Covered(m, b) {
        var j :| Covers(m, j, b);
        AtIs(m, j, b);
        assert Disjoint(m');
        AtIs(m', j, b);
      }
    }
  }

  lemma ControlShape(m: Ranges, f: Front, g: DataSeg, c: Call)
    requires Shape(m, f) && GapFreeStep(f, g) && g.payloadSize == 0
    requires c.itype == InsertSent && c.seg == g
    ensures Shape(InsertEmpty(m, c, g.startSeq), NextFront(f, g))
  {
    hide InsertEmpty, Range.Info, ControlKey, PacketsSent;
    var m' := InsertEmpty(m, c, g.startSeq);
    FrontStep(f, g);
    InsertEmptyKeyed(m, c, g.startSeq);
    ControlEntry(m, c, g.startSeq);
    ControlLandsOnEmpty(m, f, g);
    var k := ControlKey(m, g, g.startSeq);
    assert Disjoint(m');
    forall b
      ensures Covered(m', b) <==> NextFront(f, g).Lo() <= b < f.top
    {
      ControlByte(m, f, g, c, b);
      assert Covered(m', b) <==> At(m', b).Some?;
    }
    ControlKeys(m, f, g, c);
  }

  lemma ControlKeys(m: Ranges, f: Front, g: DataSeg, c: Call)
    requires Shape(m, f) && GapFreeStep(f, g) && g.payloadSize == 0
    requires c.itype == InsertSent && c.seg == g
    ensures var m' := InsertEmpty(m, c, g.startSeq); var f' := NextFront(f, g);
      Below(m', f'.last) && 0 in m' && (f'.bareFin ==> f'.Base() in m' && Below(m', f'.Base()))
  {
    hide InsertEmpty, Range.Info, PacketsSent;
    ControlEntry(m, c, g.startSeq);
    ControlLandsOnEmpty(m, f, g);
  }

  lemma ControlUnanswered(m: Ranges, f: Front, g: DataSeg, c: Call)
    requires Shape(m, f) && Unanswered(m, f) && GapFreeStep(f, g) && g.payloadSize == 0
    requires c.itype == InsertSent && c.seg == g
    ensures Unanswered(InsertEmpty(m, c, g.startSeq), NextFront(f, g))
  {
    hide InsertEmpty, Range.Info, PacketsSent;
    ControlEntry(m, c, g.startSeq);
    ControlLandsOnEmpty(m, f, g);
  }

  /** A segment without payload leaves the information for every byte alone. */
  lemma ControlKeeps(st: SendState, f: Front, firstSeq: int, g: DataSeg)
    requires SendInv(st, f) && GapFreeStep(f, g) && g.payloadSize == 0
    ensures var r := SendOne(st, firstSeq, g);
      && r.Running? && SendInv(r.state, NextFront(f, g))
      && (forall b :: At(r.state.ranges, b) == At(st.ranges, b))
  {
    hide InsertEmpty, Range.Info, Shape, Unanswered, Covered, At;
    var c := CallFor(st, firstSeq, g);
    ControlShape(st.ranges, f, g, c);
    ControlUnanswered(st.ranges, f, g, c);
    RegisterBalances(st.totals, g);
    forall b
      ensures At(InsertEmpty(st.ranges, c, g.startSeq), b) == At(st.ranges, b)
    {
      ControlByte(st.ranges, f, g, c, b);
    }
  }

  // ---------- sums and entry properties along the way ----------

  /** Conservation between the two classes: what the index adds up is what the connection counted. */
  ghost predicate Ledger(st: SendState) {
    && Total(st.ranges, SentBytes) == st.totals.totBytesSent
    && Total(st.ranges, UniqueBytes) == st.totals.totNewDataSent
    && Total(st.ranges, PacketsReceived) == 0
  }

  lemma TailLedger(m: Ranges, c: Call, base: int, e: int)
    requires Ready(m, c, base, e, base) && c.itype == InsertSent
    ensures TailGain(m, c, base, e, SentBytes) == e - base
    ensures TailGain(m, c, base, e, UniqueBytes) == e - base
    ensures TailGain(m, c, base, e, PacketsReceived) == 0
    ensures !c.seg.isRdb ==> TailGain(m, c, base, e, PacketsSent) == 1
  {
    NewTailShape(m, c, e);
    if base in m {
      assert m[base].Empty();
      EntryInfo(m[base]);
    }
  }

  lemma ReadyTail(m: Ranges, c: Call, s: int, e: int, base: int)
    requires Ready(m, c, s, e, base) && e > base
    ensures Ready(m, c, base, e, base)
  {
  }

  lemma DataLedger(st: SendState, f: Front, firstSeq: int, g: DataSeg)
    requires SendInv(st, f) && Ledger(st) && GapFreeStep(f, g) && g.payloadSize > 0
    ensures var r := SendOne(st, firstSeq, g); r.Running? ==> Ledger(r.state)
  {
    hide Insert, Range.Info, Gains, Additive, TailGain, Total;
    DataIsReady(st, f, firstSeq, g);
    var m, c, base := st.ranges, CallFor(st, firstSeq, g), f.Base();
    QuantitiesAdditive();
    UniqueGains(c);
    SentGains(c);
    InsertTotal(m, c, g.startSeq, g.endSeq, 0, base, SentBytes, 1, 0);
    InsertTotal(m, c, g.startSeq, g.endSeq, 0, base, UniqueBytes, 0, 0);
    PacketGains(c);
    InsertTotal(m, c, g.startSeq, g.endSeq, 0, base, PacketsReceived, 0, 0);
    if g.endSeq > base {
      ReadyTail(m, c, g.startSeq, g.endSeq, base);
      TailLedger(m, c, base, g.endSeq);
    }
    RegisterBalances(st.totals, g);
  }

  /** What a control segment adds to a sum, given what it adds on its entry. */
  lemma ControlTotal(m: Ranges, c: Call, s: int, f: Range -> int)
    requires Keyed(m) && c.itype == InsertSent && !c.seg.retrans && !c.seg.isRdb
    ensures var k := ControlKey(m, c.seg, s); var r' := InsertEmpty(m, c, s)[k];
      Total(InsertEmpty(m, c, s), f) == Total(m, f) + f(r') - (if k in m then f(m[k]) else 0)
  {
    hide InsertEmpty, ControlKey;
    ControlEntry(m, c, s);
    var k := ControlKey(m, c.seg, s);
    var r' := InsertEmpty(m, c, s)[k];
    if k in m {
      TotalUpdate(m, k, r', f);
    } else {
      TotalInsert(m, k, r', f);
    }
  }

  lemma ControlLedger(st: SendState, f: Front, firstSeq: int, g: DataSeg)
    requires SendInv(st, f) && Ledger(st) && GapFreeStep(f, g) && g.payloadSize == 0
    ensures Ledger(SendOne(st, firstSeq, g).state)
    ensures Total(SendOne(st, firstSeq, g).state.ranges, PacketsSent) == Total(st.ranges, PacketsSent) + 1
  {
    hide InsertEmpty, ControlKey, Total, Range.Info;
    var m, c := st.ranges, CallFor(st, firstSeq, g);
    ControlEntry(m, c, g.startSeq);
    ControlLandsOnEmpty(m, f, g);
    ControlTotal(m, c, g.startSeq, SentBytes);
    ControlTotal(m, c, g.startSeq, UniqueBytes);
    ControlTotal(m, c, g.startSeq, PacketsSent);
    ControlTotal(m, c, g.startSeq, PacketsReceived);
  }
}
