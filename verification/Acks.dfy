/** `RangeManager::processAck` on values: the walk from the saved entry, and why it records for each
    byte the time of the first acknowledgement above it. */
module Acks {
  import opened Common
  import opened OrderedMap
  import opened ByteRanges
  import opened Index
  import opened ByteView
  import opened Accounting

  /** The map, the saved iterator (`None` is `end()`) and the return value; or the FIN search running
      off the front of the map, which the code does not guard against. */
  datatype AckResult =
    | Processed(ranges: Ranges, saved: Option<int>, ret: bool)
    | RanOff

  /** `r'` differs from `r` in the fields an acknowledgement writes, and in nothing else. */
  predicate AckOnly(r: Range, r': Range) {
    r' == r.(acked := r'.acked, ackTime := r'.ackTime, ackCount := r'.ackCount,
             dupackCount := r'.dupackCount, tcpWindow := r'.tcpWindow)
  }

  /** An acknowledgement that ends exactly at an entry, or one past an entry without bytes. */
  predicate CoversExactly(r: Range, ack: int) {
    ack == r.endSeq || (r.byteCount == 0 && ack - 1 == r.endSeq)
  }

  function AckExact(r: Range, a: AckSeg, isSaved: bool): (r': Range)
    ensures r'.SameSpan(r) && AckOnly(r, r')
    ensures r'.Info() == if r.acked || (r.byteCount == 0 && !r'.acked) then r.Info() else r.InsertAckTime(a.tstampPcap).Info()
    ensures r.byteCount > 0 ==> r'.acked
  {
    var marked :=
      if r.acked then
        if isSaved && a.window > 0 && a.window == r.tcpWindow then r.(dupackCount := r.dupackCount + 1) else r
      else if r.byteCount == 0 then
        if |r.tstampsTcp| > 0 && r.tstampsTcp[0].echo != a.tstampTcp then r.InsertAckTime(a.tstampPcap) else r
      else
        r.InsertAckTime(a.tstampPcap);
    marked.(ackCount := marked.ackCount + 1, tcpWindow := a.window)
  }

  function AckInside(r: Range, a: AckSeg): (r': Range)
    ensures r'.SameSpan(r) && AckOnly(r, r') && r'.Info() == r.InsertAckTime(a.tstampPcap).Info()
  {
    r.InsertAckTime(a.tstampPcap).(tcpWindow := a.window, ackCount := r.ackCount + 1)
  }

  function AckBeyond(r: Range, a: AckSeg): (r': Range)
    ensures r'.SameSpan(r) && AckOnly(r, r') && r'.acked
    ensures r'.Info() == if r.acked then r.Info() else r.InsertAckTime(a.tstampPcap).Info()
  {
    if r.acked then r else r.InsertAckTime(a.tstampPcap)
  }

  function CountAck(r: Range): (r': Range)
    ensures r'.SameSpan(r) && AckOnly(r, r') && r'.Info() == r.Info()
  {
    r.(ackCount := r.ackCount + 1)
  }

  /** The search for a FIN from entry `p` backwards (RangeManager.cc:1129-1137): the FIN's entry, or
      the entry at which the search gives up, or a step before the first entry. */
  datatype FinSearch = FinAt(key: int) | StopsAt(key: int) | OffTheFront

  function SearchFin(m: Ranges, p: int): (r: FinSearch)
    requires p in m
    ensures !r.OffTheFront? ==> r.key in m && r.key <= p
    decreases set k | k in m && k < p
  {
    if m[p].fin > 0 then FinAt(p)
    else if m[p].packetSentCount == m[p].dataSentCount then StopsAt(p)
    else match PrevKey(m, p)
      case None => OffTheFront
      case Some(q) => assert q in (set k | k in m && k < p); SearchFin(m, q)
  }

  /** An acknowledgement of old data: counted on the entry that ends there, if there is one. */
  function OldAck(m: Ranges, saved: Option<int>, p: int, a: AckSeg): AckResult
    requires p in m
    decreases set k | k in m && k < p
  {
    if a.ack == m[p].endSeq then Processed(m[p := CountAck(m[p])], saved, true)
    else if a.ack > m[p].endSeq then Processed(m, saved, true)
    else match PrevKey(m, p)
      case None => Processed(m, saved, false)
      case Some(q) => assert q in (set k | k in m && k < p); OldAck(m, saved, q, a)
  }

  /** The acknowledgement does not reach into entry `k`. */
  function AckBefore(m: Ranges, saved: Option<int>, k: int, a: AckSeg): AckResult
    requires k in m
  {
    match PrevKey(m, k)
    case None => Processed(m, saved, false)
    case Some(p) => AckBehind(m, saved, k, p, a)
  }

  /** The same, with `p` the entry before. */
  function AckBehind(m: Ranges, saved: Option<int>, k: int, p: int, a: AckSeg): AckResult
    requires k in m && p in m
  {
    match (if a.ack - 1 == m[p].endSeq then SearchFin(m, p) else StopsAt(p))
    case FinAt(q) => Processed(m[q := CountAck(m[q])], saved, true)
    case OffTheFront => RanOff
    case StopsAt(q) => if a.ack < m[k].endSeq then OldAck(m, saved, q, a) else Processed(m, saved, false)
  }

  ghost predicate SentOnce(m: Ranges) {
    forall k :: k in m ==> |m[k].sentTstampPcap| > 0
  }

  /** The walk, standing on entry `k`. */
  function AckFrom(m: Ranges, saved: Option<int>, k: int, a: AckSeg, ret: bool): AckResult
    requires Keyed(m) && SentOnce(m) && k in m
    decreases LastKey(m).value - k
  {
    var r := m[k];
    if CoversExactly(r, a.ack) then
      Processed(m[k := AckExact(r, a, saved == Some(k))], Some(k), true)
    else if a.ack > r.endSeq then
      if a.tstampPcap.Before(r.sentTstampPcap[0].time) then
        Processed(m, saved, false)
      else
        var m' := m[k := AckBeyond(r, a)];
        var ret' := ret || !r.acked;
        match NextKey(m, k)
        case None => Processed(m', Some(k), ret')
        case Some(n) =>
          assert m'.Keys == m.Keys;
          PutKeyed(m, k, AckBeyond(r, a));
          AckFrom(m', Some(k), n, a, ret')
    else if a.ack > r.startSeq then
      var cut := SplitAt(m, k, a.ack);
      Processed(cut[k := AckInside(cut[k], a)], Some(a.ack), true)
    else
      AckBefore(m, saved, k, a)
  }

  predicate SavedIn(m: Ranges, saved: Option<int>) {
    saved.Some? ==> saved.value in m
  }

  /** `processAck`. The code demands that something was sent before. */
  function ProcessAck(m: Ranges, saved: Option<int>, a: AckSeg): AckResult
    requires Keyed(m) && SentOnce(m) && m != map[]
    requires SavedIn(m, saved)
  {
    var k := if saved.Some? then saved.value else FirstKey(m).value;
    if a.ack < k then Processed(m, saved, true)
    else AckFrom(m, saved, k, a, false)
  }

  // ---------- one byte at a time ----------

  /** What an acknowledgement means for byte `b`: the first one above it sets its time, later ones change nothing. */
  function AckByte(i: Option<ByteInfo>, b: int, a: AckSeg): Option<ByteInfo> {
    if i.Some? && !i.value.acked && b < a.ack then
      Some(i.value.(acked := true, ackTime := a.tstampPcap))
    else i
  }

  /** The bytes acknowledged so far are those below `high`. */
  ghost predicate AckedBelow(m: Ranges, high: int) {
    forall b :: At(m, b).Some? ==> (At(m, b).value.acked <==> b < high)
  }

  /** The saved entry is a sound starting point: it starts at or below `high`, and no byte behind it
      lies below `high`; without one, nothing was acknowledged. An entry with unacknowledged bytes is
      only saved if it was split off right there, so that the byte before it is held as well. */
  ghost predicate SavedSound(m: Ranges, saved: Option<int>, high: int) {
    match saved
    case None => forall b :: Covered(m, b) ==> high <= b
    case Some(k) =>
      && k in m && k <= high
      && (m[k].Empty() || m[k].endSeq <= high || (k == high && Covered(m, k - 1)))
      && (forall b :: Covered(m, b) && m[k].endSeq <= b ==> high <= b)
  }

  /** The acknowledgement is not older than the first transmission of any entry it covers. */
  ghost predicate NotBeforeSending(m: Ranges, a: AckSeg)
    requires SentOnce(m)
  {
    forall k :: k in m && m[k].endSeq < a.ack ==> !a.tstampPcap.Before(m[k].sentTstampPcap[0].time)
  }

  ghost predicate AckState(m: Ranges) {
    Keyed(m) && Disjoint(m) && SentOnce(m)
  }

  /** `m'` is `m` with the acknowledgement applied to every byte from `k` on. */
  ghost predicate AckedFrom(m: Ranges, m': Ranges, k: int, a: AckSeg) {
    && AckState(m') && m.Keys <= m'.Keys
    && (forall b :: At(m', b) == if b < k then At(m, b) else AckByte(At(m, b), b, a))
  }

  /** Only bytes below the acknowledgement are marked so far. */
  ghost predicate NoneAhead(m: Ranges, a: AckSeg) {
    forall b :: At(m, b).Some? && At(m, b).value.acked ==> b < a.ack
  }

  /** The walk stands on the saved entry or on the one after it. */
  ghost predicate Standing(m: Ranges, saved: Option<int>, k: int, a: AckSeg) {
    match saved
    case None => FirstKey(m) == Some(k)
    case Some(p) =>
      && p in m && p <= a.ack
      && (p == k ==> m[k].Empty() || m[k].endSeq <= a.ack || Covered(m, k - 1))
      && (p != k ==> NextKey(m, p) == Some(k) && m[p].endSeq < a.ack && !CoversExactly(m[p], a.ack))
  }

  /** Marking one entry, wholly below the acknowledgement. */
  lemma TouchAcked(m: Ranges, k: int, r: Range, a: AckSeg)
    requires AckState(m) && k in m && r.SameSpan(m[k]) && |r.sentTstampPcap| > 0
    requires r.Info() == m[k].Info() || (m[k].endSeq <= a.ack && r.Info() == m[k].InsertAckTime(a.tstampPcap).Info())
    requires !m[k].Empty() ==> m[k].acked || r.acked || a.ack <= k
    requires m[k].acked ==> r.Info() == m[k].Info()
    ensures AckState(m[k := r])
    ensures forall b :: At(m[k := r], b) == if k <= b < m[k].endSeq then AckByte(At(m, b), b, a) else At(m, b)
  {
    TouchDisjoint(m, k, r);
    forall b
      ensures At(m[k := r], b) == if k <= b < m[k].endSeq then AckByte(At(m, b), b, a) else At(m, b)
    {
      TouchByte(m, k, r, b);
      if k <= b < m[k].endSeq {
        AtIs(m, k, b);
      }
    }
  }

  /** No byte between the end of an entry and the next entry. */
  lemma NothingBetween(m: Ranges, k: int, b: int)
    requires AckState(m) && k in m && m[k].endSeq <= b
    requires match NextKey(m, k) case None => true case Some(n) => b < n
    ensures !Covered(m, b)
  {
    forall j
      ensures !Covers(m, j, b)
    {
    }
  }

  lemma ExactArm(m: Ranges, saved: Option<int>, k: int, a: AckSeg)
    requires AckState(m) && k in m && CoversExactly(m[k], a.ack) && NoneAhead(m, a)
    ensures var m' := m[k := AckExact(m[k], a, saved == Some(k))];
      AckedFrom(m, m', k, a) && SavedSound(m', Some(k), a.ack)
  {
    hide Range.Info;
    var r := AckExact(m[k], a, saved == Some(k));
    if m[k].Empty() {
      EmptyTouch(m, k, r);
    } else {
      EntryInfos(m[k], r, a);
      TouchAcked(m, k, r, a);
    }
    forall b | k <= b < a.ack && m[k].endSeq <= b
      ensures At(m, b).None?
    {
      assert forall j :: j in m && j <= b ==> m[j].endSeq <= b;
    }
    var m' := m[k := r];
    assert forall b :: Covered(m', b) <==> At(m', b).Some?;
  }

  lemma EntryInfos(r: Range, r': Range, a: AckSeg)
    ensures r.Info() == ByteInfo(r.dataSentCount, r.dataReceivedCount, r.acked, r.ackTime)
    ensures r'.Info() == ByteInfo(r'.dataSentCount, r'.dataReceivedCount, r'.acked, r'.ackTime)
    ensures r.InsertAckTime(a.tstampPcap).Info() == ByteInfo(r.dataSentCount, r.dataReceivedCount, true, a.tstampPcap)
  {
  }

  /** An entry without bytes may be marked at will. */
  lemma EmptyTouch(m: Ranges, k: int, r: Range)
    requires AckState(m) && k in m && m[k].Empty() && r.SameSpan(m[k]) && |r.sentTstampPcap| > 0
    ensures AckState(m[k := r])
    ensures forall b :: At(m[k := r], b) == At(m, b)
  {
    TouchDisjoint(m, k, r);
    forall b
      ensures At(m[k := r], b) == At(m, b)
    {
      TouchByte(m, k, r, b);
    }
  }

  lemma InsideArm(m: Ranges, k: int, a: AckSeg)
    requires AckState(m) && k in m && k < a.ack < m[k].endSeq && NoneAhead(m, a)
    ensures var cut := SplitAt(m, k, a.ack); var m' := cut[k := AckInside(cut[k], a)];
      AckedFrom(m, m', k, a) && SavedSound(m', Some(a.ack), a.ack)
  {
    hide Range.Info;
    var cut := SplitAt(m, k, a.ack);
    SplitDisjoint(m, k, a.ack);
    forall b
      ensures At(cut, b) == At(m, b)
    {
      SplitByte(m, k, a.ack, b);
    }
    AtIs(m, k, a.ack);
    EntryInfos(m[k], cut[k], a);
    var r := AckInside(cut[k], a);
    EntryInfos(cut[k], r, a);
    TouchAcked(cut, k, r, a);
    var m' := cut[k := r];
    assert Covers(m', k, a.ack - 1);
    assert forall b :: Covered(m', b) <==> At(m', b).Some?;
  }

  /** Counting an acknowledgement of old data changes no byte. */
  lemma CountAckKeeps(m: Ranges, p: int)
    requires AckState(m) && p in m
    ensures var m' := m[p := CountAck(m[p])];
      AckState(m') && (forall b :: At(m', b) == At(m, b))
      && (forall k :: k in m ==> m'[k].endSeq == m[k].endSeq && m'[k].startSeq == m[k].startSeq)
  {
    hide Range.Info;
    TouchDisjoint(m, p, CountAck(m[p]));
    var m' := m[p := CountAck(m[p])];
    forall b
      ensures At(m', b) == At(m, b)
    {
      TouchByte(m, p, CountAck(m[p]), b);
      if Covers(m, p, b) {
        AtIs(m, p, b);
      }
    }
  }

  /** What an acknowledgement that reaches no new byte may do: count itself on one entry. */
  ghost predicate OnlyCounted(m: Ranges, m': Ranges) {
    m' == m || exists p :: p in m && m' == m[p := CountAck(m[p])]
  }

  lemma {:induction false} OldAckCounts(m: Ranges, saved: Option<int>, p: int, a: AckSeg)
    requires p in m
    ensures var r := OldAck(m, saved, p, a); r.Processed? && OnlyCounted(m, r.ranges) && r.saved == saved
    decreases set k | k in m && k < p
  {
    if a.ack < m[p].endSeq && PrevKey(m, p).Some? {
      var q := PrevKey(m, p).value;
      assert q in (set k | k in m && k < p);
      OldAckCounts(m, saved, q, a);
    }
  }

  lemma BeforeCounts(m: Ranges, saved: Option<int>, k: int, a: AckSeg)
    requires k in m
    ensures var r := AckBefore(m, saved, k, a); r.Processed? ==> OnlyCounted(m, r.ranges) && r.saved == saved
  {
    hide CountAck, OldAck;
    forall q | q in m
      ensures var r := OldAck(m, saved, q, a); r.Processed? && OnlyCounted(m, r.ranges) && r.saved == saved
    {
      OldAckCounts(m, saved, q, a);
    }
  }

  lemma BeforeArm(m: Ranges, saved: Option<int>, k: int, a: AckSeg)
    requires AckState(m) && k in m && a.ack <= k && Standing(m, saved, k, a)
    ensures var r := AckBefore(m, saved, k, a); r.Processed? ==>
      AckedFrom(m, r.ranges, k, a) && r.saved == saved && SavedSound(r.ranges, saved, a.ack)
  {
    hide AckBefore, Range.Info, CountAck, OnlyCounted;
    var r := AckBefore(m, saved, k, a);
    if r.Processed? {
      BeforeCounts(m, saved, k, a);
      OnlyCountedKeeps(m, r.ranges);
      StandingSound(m, saved, k, a);
      forall b
        ensures Covered(r.ranges, b) <==> Covered(m, b)
      {
        assert At(r.ranges, b) == At(m, b);
      }
    }
  }

  lemma OnlyCountedKeeps(m: Ranges, m': Ranges)
    requires AckState(m) && OnlyCounted(m, m')
    ensures AckState(m') && (forall b :: At(m', b) == At(m, b))
    ensures m'.Keys == m.Keys && (forall k :: k in m ==> m'[k].endSeq == m[k].endSeq && m'[k].startSeq == m[k].startSeq)
  {
    hide CountAck;
    if m' != m {
      var p :| p in m && m' == m[p := CountAck(m[p])];
      CountAckKeeps(m, p);
    }
  }

  lemma StandingSound(m: Ranges, saved: Option<int>, k: int, a: AckSeg)
    requires AckState(m) && k in m && a.ack <= k && Standing(m, saved, k, a)
    ensures SavedSound(m, saved, a.ack)
  {
    if saved.Some? && saved.value != k {
      forall b | Covered(m, b) && m[saved.value].endSeq <= b
        ensures a.ack <= b
      {
        if b < k {
          NothingBetween(m, saved.value, b);
        }
      }
    }
  }

  /** From entry `k` on, the walk applies the acknowledgement to every byte, and leaves a saved entry
      from which the next walk may start. */
  lemma {:induction false} WalkAcks(m: Ranges, saved: Option<int>, k: int, a: AckSeg, ret: bool)
    requires AckState(m) && k in m && NoneAhead(m, a) && NotBeforeSending(m, a) && Standing(m, saved, k, a)
    ensures var r := AckFrom(m, saved, k, a, ret); r.Processed? ==>
      AckedFrom(m, r.ranges, k, a) && SavedSound(r.ranges, r.saved, a.ack)
    decreases LastKey(m).value - k
  {
    hide Range.Info, AckExact, AckInside, AckBeyond, AckBefore, AckedFrom, SavedSound, NoneAhead, Disjoint, At, Covered, AckByte;
    if CoversExactly(m[k], a.ack) {
      ExactArm(m, saved, k, a);
    } else if a.ack > m[k].endSeq {
      BeyondArm(m, k, a);
      var m' := m[k := AckBeyond(m[k], a)];
      assert m'.Keys == m.Keys;
      match NextKey(m, k) {
        case None =>
          BeyondThen(m, m', m', k, a);
          LastSound(m', k, a);
        case Some(n) =>
          assert NextKey(m', k) == Some(n);
          WalkAcks(m', Some(k), n, a, ret || !m[k].acked);
          var r := AckFrom(m', Some(k), n, a, ret || !m[k].acked);
          if r.Processed? {
            BeyondThen(m, m', r.ranges, k, a);
          }
      }
    } else if a.ack > m[k].startSeq {
      InsideArm(m, k, a);
    } else {
      BeforeArm(m, saved, k, a);
    }
  }

  lemma LastSound(m: Ranges, k: int, a: AckSeg)
    requires AckState(m) && k in m && m[k].endSeq < a.ack && NextKey(m, k).None?
    ensures SavedSound(m, Some(k), a.ack)
  {
    forall b | m[k].endSeq <= b
      ensures !Covered(m, b)
    {
      NothingBetween(m, k, b);
    }
  }

  lemma BeyondArm(m: Ranges, k: int, a: AckSeg)
    requires AckState(m) && k in m && m[k].endSeq < a.ack && NoneAhead(m, a) && NotBeforeSending(m, a)
    ensures var m' := m[k := AckBeyond(m[k], a)];
      && AckState(m') && NoneAhead(m', a) && NotBeforeSending(m', a)
      && (forall b :: At(m', b) == if k <= b < m[k].endSeq then AckByte(At(m, b), b, a) else At(m, b))
  {
    hide Range.Info;
    var r := AckBeyond(m[k], a);
    EntryInfos(m[k], r, a);
    TouchAcked(m, k, r, a);
    var m' := m[k := r];
    forall b | At(m', b).Some? && At(m', b).value.acked
      ensures b < a.ack
    {
      assert At(m, b).Some? && (At(m, b).value.acked || b < m[k].endSeq);
    }
  }

  /** What the walk did from the next entry on, put together with what it did on this one. */
  lemma BeyondThen(m: Ranges, m1: Ranges, m2: Ranges, k: int, a: AckSeg)
    requires AckState(m) && k in m && m[k].endSeq < a.ack && m1.Keys == m.Keys
    requires forall b :: At(m1, b) == if k <= b < m[k].endSeq then AckByte(At(m, b), b, a) else At(m, b)
    requires match NextKey(m, k) case None => m2 == m1 && AckState(m1) case Some(n) => AckedFrom(m1, m2, n, a)
    ensures AckedFrom(m, m2, k, a)
  {
    forall b
      ensures At(m2, b) == if b < k then At(m, b) else AckByte(At(m, b), b, a)
    {
      if m[k].endSeq <= b && (NextKey(m, k).None? || b < NextKey(m, k).value) {
        NothingBetween(m, k, b);
      }
    }
  }

  /** One acknowledgement refines the first-acknowledgement time of every byte: given that the bytes
      acknowledged so far are those below `high`, one at or above `high` marks exactly the bytes below
      it that were not marked, with its own time, and touches no other byte and no count. */
  lemma AckRefines(m: Ranges, saved: Option<int>, a: AckSeg, high: int)
    requires AckState(m) && m != map[] && AckedBelow(m, high) && SavedSound(m, saved, high)
    requires high <= a.ack && NotBeforeSending(m, a)
    ensures var r := ProcessAck(m, saved, a); r.Processed? ==>
      && AckState(r.ranges)
      && (forall b :: At(r.ranges, b) == AckByte(At(m, b), b, a))
      && AckedBelow(r.ranges, a.ack) && SavedSound(r.ranges, r.saved, a.ack)
      && m.Keys <= r.ranges.Keys
  {
    hide AckFrom, Range.Info;
    var k := if saved.Some? then saved.value else FirstKey(m).value;
    if a.ack < k {
      assert saved.None?;
      forall b
        ensures At(m, b) == AckByte(At(m, b), b, a)
      {
        assert Covered(m, b) ==> k <= b;
      }
    } else {
      WalkAcks(m, saved, k, a, false);
    }
  }

  // ---------- everything else about the map ----------

  /** A property of maps that survives the two things an acknowledgement does to them. */
  ghost predicate KeptByMarking(i: Ranges -> bool) {
    && (forall m: Ranges, k: int, r: Range :: i(m) && k in m && AckOnly(m[k], r) ==> i(m[k := r]))
    && (forall m: Ranges, k: int, at: int :: i(m) && Keyed(m) && Disjoint(m) && k in m && k < at < m[k].endSeq ==> i(SplitAt(m, k, at)))
  }

  /** The same for splits at `x` only. */
  ghost predicate KeptByMarkingAt(i: Ranges -> bool, x: int) {
    && (forall m: Ranges, k: int, r: Range :: i(m) && k in m && AckOnly(m[k], r) ==> i(m[k := r]))
    && (forall m: Ranges, k: int :: i(m) && Keyed(m) && Disjoint(m) && k in m && k < x < m[k].endSeq ==> i(SplitAt(m, k, x)))
  }

  lemma OnlyCountedMarks(m: Ranges, m': Ranges, i: Ranges -> bool, x: int)
    requires OnlyCounted(m, m') && i(m) && KeptByMarkingAt(i, x)
    ensures i(m')
  {
  }

  lemma BeyondState(m: Ranges, k: int, a: AckSeg)
    requires AckState(m) && k in m
    ensures var m' := m[k := AckBeyond(m[k], a)];
      && AckState(m') && m'.Keys == m.Keys
      && NextKey(m', k) == NextKey(m, k) && LastKey(m') == LastKey(m)
      && m'[k].SameSpan(m[k])
  {
    hide Range.Info, AckOnly, NextKey, LastKey;
    var m' := m[k := AckBeyond(m[k], a)];
    TouchDisjoint(m, k, AckBeyond(m[k], a));
    assert m'.Keys == m.Keys;
    SameKeys(m, m', k);
  }

  lemma {:induction false} WalkMarks(m: Ranges, saved: Option<int>, k: int, a: AckSeg, ret: bool, i: Ranges -> bool)
    requires AckState(m) && k in m && i(m) && KeptByMarkingAt(i, a.ack)
    ensures var r := AckFrom(m, saved, k, a, ret); r.Processed? ==> i(r.ranges)
    decreases LastKey(m).value - k
  {
    hide Range.Info, AckExact, AckInside, AckBeyond, AckBefore, AckOnly;
    if CoversExactly(m[k], a.ack) {
    } else if a.ack > m[k].endSeq {
      if !a.tstampPcap.Before(m[k].sentTstampPcap[0].time) {
        var m' := m[k := AckBeyond(m[k], a)];
        BeyondState(m, k, a);
        if NextKey(m, k).Some? {
          WalkMarks(m', Some(k), NextKey(m, k).value, a, ret || !m[k].acked, i);
        }
      }
    } else if a.ack > m[k].startSeq {
    } else {
      BeforeCounts(m, saved, k, a);
      var r := AckBefore(m, saved, k, a);
      if r.Processed? {
        OnlyCountedMarks(m, r.ranges, i, a.ack);
      }
    }
  }

  lemma StillSent(m: Ranges, k: int, r: Range)
    requires SentOnce(m) && k in m && AckOnly(m[k], r)
    ensures SentOnce(m[k := r])
  {
  }

  /** An acknowledgement keeps whatever marking, and splitting at its number, keep. */
  lemma AckKeepsAt(m: Ranges, saved: Option<int>, a: AckSeg, i: Ranges -> bool)
    requires AckState(m) && m != map[] && SavedIn(m, saved)
    requires i(m) && KeptByMarkingAt(i, a.ack)
    ensures var r := ProcessAck(m, saved, a); r.Processed? ==> i(r.ranges)
  {
    var k := if saved.Some? then saved.value else FirstKey(m).value;
    if a.ack >= k {
      WalkMarks(m, saved, k, a, false, i);
    }
  }

  /** An acknowledgement keeps whatever marking and splitting keep. */
  lemma AckKeeps(m: Ranges, saved: Option<int>, a: AckSeg, i: Ranges -> bool)
    requires AckState(m) && m != map[] && SavedIn(m, saved)
    requires i(m) && KeptByMarking(i)
    ensures var r := ProcessAck(m, saved, a); r.Processed? ==> i(r.ranges)
  {
    hide ProcessAck, AckState;
    AckKeepsAt(m, saved, a, i);
  }
}
