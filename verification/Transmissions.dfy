/** Which transmission a received stamp is matched with. An entry lists the stamps of regular and of
    bundled transmissions apart, but their times together; `matchReceivedType` stores an index into the
    first list, in eight bits, and `calculateRecvDiff` uses it on the last. */
module Transmissions {
  import opened Common
  import opened OrderedMap
  import opened ByteRanges
  import opened Index
  import opened ByteView
  import opened Insertion
  import opened Accounting
  import opened Registration
  import opened SendRun
  import opened SendTheorems
  import opened Acks
  import opened AckRun
  import opened ReceiveRun
  import opened WholeRun
  import opened RunTheorems
  import opened ByteRangeObjects

  /** One transmission of an entry: which packet of the trace it was, and whether it was listed as bundled. */
  datatype Transmission = Transmission(packet: nat, time: TimeVal, stamp: Stamp, bundled: bool)

  /** The stamps of the regular transmissions, in order. */
  function Regular(h: seq<Transmission>): seq<Stamp> {
    if h == [] then []
    else Regular(h[..|h| - 1]) + (if h[|h| - 1].bundled then [] else [h[|h| - 1].stamp])
  }

  function Bundled(h: seq<Transmission>): seq<nat> {
    if h == [] then []
    else Bundled(h[..|h| - 1]) + (if h[|h| - 1].bundled then [h[|h| - 1].stamp.val] else [])
  }

  /** `h` is the history of transmissions that the entry recorded. */
  ghost predicate Recorded(r: Range, h: seq<Transmission>) {
    && r.tstampsTcp == Regular(h) && r.rdbTstampsTcp == Bundled(h)
    && |r.sentTstampPcap| == |h| && forall i :: 0 <= i < |h| ==> r.sentTstampPcap[i].time == h[i].time
  }

  lemma {:induction false} RegularBound(h: seq<Transmission>)
    ensures |Regular(h)| <= |h|
    ensures |Regular(h)| == |h| <==> forall j :: 0 <= j < |h| ==> !h[j].bundled
  {
    if h != [] {
      RegularBound(h[..|h| - 1]);
    }
  }

  /** The position in the history of the regular transmission with index `i`. */
  function Place(h: seq<Transmission>, i: nat): nat
    requires i < |Regular(h)|
  {
    var n := |h| - 1;
    if i < |Regular(h[..n])| then Place(h[..n], i) else n
  }

  lemma {:induction false} PlaceFound(h: seq<Transmission>, i: nat)
    requires i < |Regular(h)|
    ensures var p := Place(h, i);
      && p < |h| && !h[p].bundled && h[p].stamp == Regular(h)[i]
      && |Regular(h[..p])| == i
  {
    var n := |h| - 1;
    if i < |Regular(h[..n])| {
      PlaceFound(h[..n], i);
      assert h[..n][..Place(h, i)] == h[..Place(h, i)];
    }
  }

  /** The position of the bundled transmission with index `i`. */
  function BundledPlace(h: seq<Transmission>, i: nat): nat
    requires i < |Bundled(h)|
  {
    var n := |h| - 1;
    if i < |Bundled(h[..n])| then BundledPlace(h[..n], i) else n
  }

  lemma {:induction false} BundledPlaceFound(h: seq<Transmission>, i: nat)
    requires i < |Bundled(h)|
    ensures var p := BundledPlace(h, i); p < |h| && h[p].bundled && h[p].stamp.val == Bundled(h)[i]
  {
    var n := |h| - 1;
    if i < |Bundled(h[..n])| {
      BundledPlaceFound(h[..n], i);
    }
  }

  /** The transmission that carried the received stamp, as `matchReceivedType` looks for it: the first
      regular one with the stamp, or else the first bundled one. */
  function Carrier(r: Range, h: seq<Transmission>): Option<nat>
    requires Recorded(r, h)
  {
    StampIndexIsFirst(r.tstampsTcp, r.receivedTstampTcp, 0);
    ValueIndexIsFirst(r.rdbTstampsTcp, r.receivedTstampTcp, 0);
    match StampIndex(r.tstampsTcp, r.receivedTstampTcp)
    case Some(i) => Some(Place(h, i))
    case None =>
      match ValueIndex(r.rdbTstampsTcp, r.receivedTstampTcp)
      case Some(i) => Some(BundledPlace(h, i))
      case None => None
  }

  /** No transmission up to `p` was bundled, and `p` fits into eight bits. */
  predicate PlainUpTo(h: seq<Transmission>, p: nat)
    requires p < |h|
  {
    p < 256 && forall j :: 0 <= j <= p ==> !h[j].bundled
  }

  /** The stored index names, among the recorded times, the transmission that carried the received stamp if
      and only if that transmission is among the first 256 and neither it nor one before it was bundled.
      Otherwise `calculateRecvDiff` takes the time of another one. */
  lemma StoredIndexIsRightExactly(r: Range, h: seq<Transmission>)
    requires Recorded(r, h) && h != [] && !h[0].bundled
    ensures match Carrier(r, h)
      case None => true
      case Some(p) =>
        && p < |h| && h[p].stamp.val == r.receivedTstampTcp
        && (StoredIndex(r) == p <==> PlainUpTo(h, p))
  {
    StampIndexIsFirst(r.tstampsTcp, r.receivedTstampTcp, 0);
    ValueIndexIsFirst(r.rdbTstampsTcp, r.receivedTstampTcp, 0);
    match StampIndex(r.tstampsTcp, r.receivedTstampTcp) {
      case Some(i) =>
        PlaceFound(h, i);
        RegularBound(h[..Place(h, i)]);
      case None =>
        match ValueIndex(r.rdbTstampsTcp, r.receivedTstampTcp) {
          case Some(i) => BundledPlaceFound(h, i);
          case None =>
        }
    }
  }

  // ---------- every entry of a run has such a history ----------

  /** Transmission `x` of the bytes from `lo` to `hi` is a packet of the trace: a data packet carried all
      of them, and only one that reaches from old into new data counts as bundled. */
  predicate FromPacket(segs: seq<DataSeg>, x: Transmission, lo: int, hi: int) {
    && x.packet < |segs|
    && var g := segs[x.packet];
    && x.time == g.tstampPcap && x.stamp == Stamp(g.tstampTcp, g.tstampTcpEcho)
    && (g.payloadSize > 0 ==> g.startSeq <= lo && hi <= g.endSeq)
    && (x.bundled ==> g.payloadSize > 0 && g.startSeq < FrontOf(segs[..x.packet]).top < g.endSeq)
  }

  /** `h` is the history of the entry: packets among the first `n` of the trace, in the order of the trace,
      the first one not bundled; of an entry without bytes, only packets without payload. */
  ghost predicate HistoryOf(segs: seq<DataSeg>, n: nat, r: Range, h: seq<Transmission>)
    requires n <= |segs|
  {
    && Recorded(r, h) && h != [] && !h[0].bundled
    && (forall i :: 0 <= i < |h| ==> h[i].packet < n && FromPacket(segs, h[i], r.startSeq, r.endSeq))
    && (forall i, j :: 0 <= i < j < |h| ==> h[i].packet < h[j].packet)
    && (r.Empty() ==> forall i :: 0 <= i < |h| ==> segs[h[i].packet].payloadSize == 0)
  }

  ghost predicate LoggedIn(segs: seq<DataSeg>, n: nat, r: Range)
    requires n <= |segs|
  {
    exists h :: HistoryOf(segs, n, r, h)
  }

  /** The property of an entry that its transmissions are among the first `n` packets. */
  ghost function Logged(segs: seq<DataSeg>, n: nat): Range -> bool
    requires n <= |segs|
  {
    (r: Range) => LoggedIn(segs, n, r)
  }

  predicate SameLists(r: Range, r': Range) {
    && r'.tstampsTcp == r.tstampsTcp && r'.rdbTstampsTcp == r.rdbTstampsTcp && |r'.sentTstampPcap| == |r.sentTstampPcap|
    && forall i :: 0 <= i < |r.sentTstampPcap| ==> r'.sentTstampPcap[i].time == r.sentTstampPcap[i].time
  }

  lemma SameLogged(segs: seq<DataSeg>, n: nat, r: Range, r': Range)
    requires n <= |segs| && LoggedIn(segs, n, r) && SameLists(r, r')
    requires r.startSeq <= r'.startSeq && r'.endSeq <= r.endSeq && (r'.Empty() ==> r.Empty())
    ensures LoggedIn(segs, n, r')
  {
    var h :| HistoryOf(segs, n, r, h);
    hide Regular, Bundled;
    assert HistoryOf(segs, n, r', h);
  }

  lemma LoggedMore(segs: seq<DataSeg>, n: nat, r: Range)
    requires n < |segs| && LoggedIn(segs, n, r)
    ensures LoggedIn(segs, n + 1, r)
  {
    hide FromPacket, Recorded;
    var h :| HistoryOf(segs, n, r, h);
    assert HistoryOf(segs, n + 1, r, h);
  }

  /** The lists after one more transmission. */
  predicate OneMoreSent(r: Range, r': Range, seg: DataSeg, rdb: bool) {
    && r'.tstampsTcp == (if rdb then r.tstampsTcp else r.tstampsTcp + [Stamp(seg.tstampTcp, seg.tstampTcpEcho)])
    && r'.rdbTstampsTcp == (if rdb then r.rdbTstampsTcp + [seg.tstampTcp] else r.rdbTstampsTcp)
    && |r'.sentTstampPcap| == |r.sentTstampPcap| + 1 && r'.sentTstampPcap[|r.sentTstampPcap|].time == seg.tstampPcap
    && forall i :: 0 <= i < |r.sentTstampPcap| ==> r'.sentTstampPcap[i].time == r.sentTstampPcap[i].time
  }

  function Sent(n: nat, seg: DataSeg, rdb: bool): Transmission {
    Transmission(n, seg.tstampPcap, Stamp(seg.tstampTcp, seg.tstampTcpEcho), rdb)
  }

  lemma RecordedMore(r: Range, r': Range, h: seq<Transmission>, n: nat, seg: DataSeg, rdb: bool)
    requires Recorded(r, h) && OneMoreSent(r, r', seg, rdb)
    ensures Recorded(r', h + [Sent(n, seg, rdb)])
  {
    var x := Sent(n, seg, rdb);
    var h' := h + [x];
    assert h'[..|h|] == h;
    assert Regular(h') == Regular(h) + (if rdb then [] else [x.stamp]);
    assert Bundled(h') == Bundled(h) + (if rdb then [x.stamp.val] else []);
    hide Regular, Bundled;
  }

  /** Packet `n` is one more transmission of an entry, which it may fill with bytes. */
  lemma SendingLogged(segs: seq<DataSeg>, n: nat, r: Range, r': Range, seg: DataSeg, rdb: bool)
    requires n < |segs| && LoggedIn(segs, n, r) && OneMoreSent(r, r', seg, rdb)
    requires FromPacket(segs, Sent(n, seg, rdb), r'.startSeq, r'.endSeq)
    requires (r'.startSeq == r.startSeq && r'.endSeq == r.endSeq) || r.Empty()
    requires r'.Empty() ==> segs[n].payloadSize == 0 && r.Empty()
    ensures LoggedIn(segs, n + 1, r')
  {
    var h :| HistoryOf(segs, n, r, h);
    RecordedMore(r, r', h, n, seg, rdb);
    hide Recorded;
    FromPacketsMore(segs, n, r, r', h);
    hide FromPacket;
    HistoryMore(segs, n, r', h, Sent(n, seg, rdb));
  }

  lemma HistoryMore(segs: seq<DataSeg>, n: nat, r: Range, h: seq<Transmission>, x: Transmission)
    requires n < |segs| && h != [] && !h[0].bundled && Recorded(r, h + [x])
    requires forall i :: 0 <= i < |h| ==> h[i].packet < n && FromPacket(segs, h[i], r.startSeq, r.endSeq)
    requires forall i, j :: 0 <= i < j < |h| ==> h[i].packet < h[j].packet
    requires x.packet == n && FromPacket(segs, x, r.startSeq, r.endSeq)
    requires r.Empty() ==> segs[n].payloadSize == 0 && forall i :: 0 <= i < |h| ==> segs[h[i].packet].payloadSize == 0
    ensures LoggedIn(segs, n + 1, r)
  {
    hide Recorded, FromPacket;
    assert HistoryOf(segs, n + 1, r, h + [x]);
  }

  /** The packets of a history fit the entry after packet `n`, too. */
  lemma FromPacketsMore(segs: seq<DataSeg>, n: nat, r: Range, r': Range, h: seq<Transmission>)
    requires n < |segs| && HistoryOf(segs, n, r, h)
    requires (r'.startSeq == r.startSeq && r'.endSeq == r.endSeq) || r.Empty()
    ensures forall i :: 0 <= i < |h| ==> FromPacket(segs, h[i], r'.startSeq, r'.endSeq)
  {
    hide Recorded;
  }

  /** A new entry with one transmission. */
  lemma SingleLogged(segs: seq<DataSeg>, n: nat, r: Range, seg: DataSeg)
    requires n < |segs| && FromPacket(segs, Sent(n, seg, false), r.startSeq, r.endSeq)
    requires r.tstampsTcp == [Stamp(seg.tstampTcp, seg.tstampTcpEcho)] && r.rdbTstampsTcp == []
    requires |r.sentTstampPcap| == 1 && r.sentTstampPcap[0].time == seg.tstampPcap
    requires r.Empty() ==> segs[n].payloadSize == 0
    ensures LoggedIn(segs, n + 1, r)
  {
    hide FromPacket;
    var h := [Sent(n, seg, false)];
    assert h[..0] == [];
    assert Regular([]) == [] && Bundled([]) == [];
    assert Regular(h) == [h[0].stamp] && Bundled(h) == [];
    assert HistoryOf(segs, n + 1, r, h);
  }

  // ---------- one packet ----------

  /** Call `c` sends packet `n` of the trace. */
  ghost predicate Carries(c: Call, segs: seq<DataSeg>, n: nat)
    requires n < |segs|
  {
    && c.itype == InsertSent && c.seg.tstampPcap == segs[n].tstampPcap
    && c.seg.tstampTcp == segs[n].tstampTcp && c.seg.tstampTcpEcho == segs[n].tstampTcpEcho
    && (c.seg.isRdb ==> segs[n].payloadSize > 0 && segs[n].startSeq < FrontOf(segs[..n]).top < segs[n].endSeq)
  }

  lemma CarriedFrom(c: Call, segs: seq<DataSeg>, n: nat, rdb: bool, lo: int, hi: int)
    requires n < |segs| && Carries(c, segs, n) && (rdb ==> c.seg.isRdb)
    requires segs[n].payloadSize > 0 ==> segs[n].startSeq <= lo && hi <= segs[n].endSeq
    ensures FromPacket(segs, Sent(n, c.seg, rdb), lo, hi)
  {
  }

  lemma CountSends(r: Range, r': Range, c: Call, s: int, level: nat, ends: bool)
    requires c.itype == InsertSent && (r' == CountInside(r, c, s, level, ends) || r' == CountExisting(r, c, s, level))
    ensures r'.SameSpan(r) && OneMoreSent(r, r', c.seg, RdbAt(c.seg, s))
  {
    hide Range.Info;
  }

  lemma CountReceives(r: Range, r': Range, c: Call, s: int, level: nat, ends: bool)
    requires c.itype == InsertRecv && (r' == CountInside(r, c, s, level, ends) || r' == CountExisting(r, c, s, level))
    ensures r'.SameSpan(r) && SameLists(r, r')
  {
    hide Range.Info;
  }

  lemma CountTurns(segs: seq<DataSeg>, n: nat, r: Range, r': Range, c: Call, s: int, level: nat, ends: bool)
    requires n < |segs| && LoggedIn(segs, n, r) && Carries(c, segs, n) && !r.Empty()
    requires segs[n].startSeq <= r.startSeq && r.endSeq <= segs[n].endSeq
    requires r' == CountInside(r, c, s, level, ends) || r' == CountExisting(r, c, s, level)
    ensures LoggedIn(segs, n + 1, r')
  {
    hide LoggedIn, FromPacket, CountInside, CountExisting, OneMoreSent, Range.Info;
    CountSends(r, r', c, s, level, ends);
    CarriedFrom(c, segs, n, RdbAt(c.seg, s), r.startSeq, r.endSeq);
    SendingLogged(segs, n, r, r', c.seg, RdbAt(c.seg, s));
  }

  lemma SplitLogged(segs: seq<DataSeg>, n: nat)
    requires n <= |segs|
    ensures KeptBySplit(Logged(segs, n))
  {
    hide LoggedIn;
    forall r: Range, at: int | r.Sized() && r.startSeq < at < r.endSeq && LoggedIn(segs, n, r)
      ensures LoggedIn(segs, n, r.Left(at)) && LoggedIn(segs, n, r.Right(at))
    {
      SameLogged(segs, n, r, r.Left(at));
      SameLogged(segs, n, r, r.Right(at));
    }
  }

  lemma SynLogged(segs: seq<DataSeg>, n: nat)
    requires n <= |segs|
    ensures forall r: Range :: LoggedIn(segs, n, r) ==> LoggedIn(segs, n, r.(syn := r.syn + 1))
  {
    hide LoggedIn;
    forall r: Range | LoggedIn(segs, n, r)
      ensures LoggedIn(segs, n, r.(syn := r.syn + 1))
    {
      SameLogged(segs, n, r, r.(syn := r.syn + 1));
    }
  }

  lemma LoggedTurns(segs: seq<DataSeg>, n: nat, c: Call)
    requires n < |segs| && Carries(c, segs, n)
    ensures Turns(Logged(segs, n), Logged(segs, n + 1), c, segs[n].startSeq, segs[n].endSeq)
  {
    hide LoggedIn, Carries, CountInside, CountExisting, Range.Info;
    SynLogged(segs, n + 1);
    forall r: Range, s: int, level: nat, ends: bool
      | !r.Empty() && segs[n].startSeq <= r.startSeq && r.endSeq <= segs[n].endSeq && LoggedIn(segs, n, r)
      ensures LoggedIn(segs, n + 1, CountInside(r, c, s, level, ends))
    {
      CountTurns(segs, n, r, CountInside(r, c, s, level, ends), c, s, level, ends);
    }
    forall r: Range, s: int, level: nat
      | !r.Empty() && segs[n].startSeq <= r.startSeq && r.endSeq <= segs[n].endSeq && LoggedIn(segs, n, r)
      ensures LoggedIn(segs, n + 1, CountExisting(r, c, s, level))
    {
      CountTurns(segs, n, r, CountExisting(r, c, s, level), c, s, level, true);
    }
  }

  lemma ReceivingLogged(segs: seq<DataSeg>, n: nat, c: Call)
    requires n <= |segs| && c.itype == InsertRecv
    ensures KeptByCount(Logged(segs, n), c)
  {
    hide LoggedIn, CountInside, CountExisting, Range.Info;
    SynLogged(segs, n);
    forall r: Range, s: int, level: nat, ends: bool | LoggedIn(segs, n, r)
      ensures LoggedIn(segs, n, CountInside(r, c, s, level, ends))
    {
      CountReceives(r, CountInside(r, c, s, level, ends), c, s, level, ends);
      SameLogged(segs, n, r, CountInside(r, c, s, level, ends));
    }
    forall r: Range, s: int, level: nat | LoggedIn(segs, n, r)
      ensures LoggedIn(segs, n, CountExisting(r, c, s, level))
    {
      CountReceives(r, CountExisting(r, c, s, level), c, s, level, true);
      SameLogged(segs, n, r, CountExisting(r, c, s, level));
    }
  }

  lemma SendCarries(st: SendState, segs: seq<DataSeg>, n: nat, firstSeq: int)
    requires n < |segs| && SendInv(st, FrontOf(segs[..n])) && GapFreeStep(FrontOf(segs[..n]), segs[n])
    ensures var c := CallFor(st, firstSeq, segs[n]); Carries(c, segs, n) && (c.seg.isRdb ==> c.seg.rdbEndSeq <= FrontOf(segs[..n]).Base())
  {
    if segs[n].payloadSize > 0 {
      BundleIsOverlap(st.totals, segs[n]);
    }
  }

  /** The entry for new bytes: its first transmission is not bundled. */
  lemma TailLogged(segs: seq<DataSeg>, n: nat, m: Ranges, c: Call, base: int)
    requires n < |segs| && AllEntries(m, Logged(segs, n)) && Carries(c, segs, n)
    requires var e := segs[n].endSeq; Ready(m, c, base, e, base) && base < e
    requires segs[n].startSeq <= base && (c.seg.isRdb ==> c.seg.rdbEndSeq <= base)
    ensures LoggedIn(segs, n + 1, NewTail(m, c, base, segs[n].endSeq))
  {
    hide LoggedIn, Range.Info;
    var r := NewTail(m, c, base, segs[n].endSeq);
    CarriedFrom(c, segs, n, false, base, segs[n].endSeq);
    if base in m {
      assert Logged(segs, n)(m[base]);
      SendingLogged(segs, n, m[base], r, c.seg, false);
    } else {
      SingleLogged(segs, n, r, c.seg);
    }
  }

  lemma HalfLogged(segs: seq<DataSeg>, n: nat, m: Ranges, lo: int, hi: int)
    requires n < |segs| && Half(m, lo, hi, Logged(segs, n), Logged(segs, n + 1))
    ensures AllEntries(m, Logged(segs, n + 1))
  {
    hide LoggedIn;
    forall k | k in m
      ensures LoggedIn(segs, n + 1, m[k])
    {
      assert Logged(segs, n)(m[k]) || Logged(segs, n + 1)(m[k]);
      if LoggedIn(segs, n, m[k]) {
        LoggedMore(segs, n, m[k]);
      }
    }
  }

  lemma DataLogged(st: SendState, firstSeq: int, segs: seq<DataSeg>, n: nat)
    requires n < |segs| && SendInv(st, FrontOf(segs[..n])) && AllEntries(st.ranges, Logged(segs, n))
    requires GapFreeStep(FrontOf(segs[..n]), segs[n]) && segs[n].payloadSize > 0
    ensures var r := SendOne(st, firstSeq, segs[n]); r.Running? ==> AllEntries(r.state.ranges, Logged(segs, n + 1))
  {
    var f, g := FrontOf(segs[..n]), segs[n];
    hide Insert, NewTail, KeptBySplit, KeptByCut, TurnsInside, TurnsFound, LoggedIn, Carries;
    SendCarries(st, segs, n, firstSeq);
    DataIsReady(st, f, firstSeq, g);
    var m, c, base := st.ranges, CallFor(st, firstSeq, g), f.Base();
    SplitLogged(segs, n);
    SplitIsCut(Logged(segs, n), g.startSeq, g.endSeq);
    LoggedTurns(segs, n, c);
    if g.endSeq > base {
      ReadyTail(m, c, g.startSeq, g.endSeq, base);
      TailLogged(segs, n, m, c, base);
    }
    InsertTurns(m, c, g.startSeq, g.endSeq, 0, base, Logged(segs, n), Logged(segs, n + 1), g.startSeq);
    var r := Insert(m, c, g.startSeq, g.endSeq, 0);
    if r.Ok? {
      HalfLogged(segs, n, r.ranges, g.startSeq, g.endSeq);
    }
  }

  lemma ControlLogged(m: Ranges, f: Front, c: Call, segs: seq<DataSeg>, n: nat)
    requires n < |segs| && Shape(m, f) && GapFreeStep(f, segs[n]) && segs[n].payloadSize == 0
    requires AllEntries(m, Logged(segs, n)) && Carries(c, segs, n) && c.seg == segs[n]
    ensures AllEntries(InsertEmpty(m, c, segs[n].startSeq), Logged(segs, n + 1))
  {
    hide LoggedIn, Shape, GapFreeStep;
    var s := segs[n].startSeq;
    var k := ControlKey(m, c.seg, s);
    var r := InsertEmpty(m, c, s)[k];
    CarriedFrom(c, segs, n, false, r.startSeq, r.endSeq);
    if k in m {
      assert Logged(segs, n)(m[k]);
      SendingLogged(segs, n, m[k], r, c.seg, false);
    } else {
      SingleLogged(segs, n, r, c.seg);
    }
    forall j | j in m
      ensures LoggedIn(segs, n + 1, m[j])
    {
      assert Logged(segs, n)(m[j]);
      LoggedMore(segs, n, m[j]);
    }
  }

  lemma StepLogged(st: SendState, firstSeq: int, segs: seq<DataSeg>, n: nat)
    requires n < |segs| && SendInv(st, FrontOf(segs[..n])) && AllEntries(st.ranges, Logged(segs, n))
    requires GapFreeStep(FrontOf(segs[..n]), segs[n])
    ensures var r := SendOne(st, firstSeq, segs[n]); r.Running? ==> AllEntries(r.state.ranges, Logged(segs, n + 1))
  {
    hide Logged, AllEntries, Insert, InsertEmpty, Carries, Shape;
    if segs[n].payloadSize > 0 {
      DataLogged(st, firstSeq, segs, n);
    } else {
      SendCarries(st, segs, n, firstSeq);
      ControlLogged(st.ranges, FrontOf(segs[..n]), CallFor(st, firstSeq, segs[n]), segs, n);
    }
  }

  lemma {:induction false} SendsLogged(firstSeq: int, segs: seq<DataSeg>, n: nat)
    requires GapFree(segs) && Packets(segs) && n <= |segs|
    ensures var r := SendAll(firstSeq, segs[..n]); r.Running? ==> AllEntries(r.state.ranges, Logged(segs, n))
  {
    hide SendInv, GapFreeStep, FrontOf, Logged, SendAll, SendOne, GapFree;
    if n == 0 {
      SendsFromStart(firstSeq);
    } else {
      SendsLogged(firstSeq, segs, n - 1);
      GapFreePrefix(segs, n - 1);
      SendRefinesCounter(firstSeq, segs[..n - 1]);
      var r := SendAll(firstSeq, segs[..n - 1]);
      if r.Running? {
        SendsStep(firstSeq, segs, n - 1);
        StepLogged(r.state, firstSeq, segs, n - 1);
      } else {
        SendsStopped(firstSeq, segs, n - 1);
      }
    }
  }

  // ---------- the whole run ----------

  lemma LoggedBlind(segs: seq<DataSeg>, n: nat)
    requires n <= |segs|
    ensures forall r: Range, r': Range :: AckOnly(r, r') && Logged(segs, n)(r) ==> Logged(segs, n)(r')
  {
    hide LoggedIn;
    forall r: Range, r': Range | AckOnly(r, r') && LoggedIn(segs, n, r)
      ensures LoggedIn(segs, n, r')
    {
      SameLogged(segs, n, r, r');
    }
  }

  /** At the end of every run each entry holds a history of packets of the trace, in their order. */
  lemma RunLogged(t: Trace)
    requires WellFormed(t)
    ensures var r := RunAll(t); r.Running? ==> AllEntries(r.state.ranges, Logged(t.sent, |t.sent|))
  {
    hide *;
    RunCompletes(t);
    var r := RunAll(t);
    if r.Running? {
      EndsLogged(t, r.state);
    }
  }

  lemma EndsLogged(t: Trace, f: Final)
    requires WellFormed(t) && Ends(t, f.sent, f.acked, f.ranges)
    ensures AllEntries(f.ranges, Logged(t.sent, |t.sent|))
  {
    hide Logged, GapFree, FrontOf, SendAll, AckAll, ReceiveAll, ReceivedRun, Ordered, KeptBySplit, KeptByCount, AllEntries;
    var n := |t.sent|;
    assert t.sent[..n] == t.sent;
    SendsLogged(t.firstSeq, t.sent, n);
    var p := Logged(t.sent, n);
    forall g: DataSeg
      ensures KeptByCount(p, RecvCall(FrontOf(t.sent).last, t.firstSeq, g))
    {
      ReceivingLogged(t.sent, n, RecvCall(FrontOf(t.sent).last, t.firstSeq, g));
    }
    SplitLogged(t.sent, n);
    LoggedBlind(t.sent, n);
    FinalEntries(t, f.sent, f.acked, f.ranges, p);
  }

  /** `matchReceivedType` leaves the right index in the entry if and only if the transmission that carried
      the received stamp is among the first 256 and, on runs with bundling, it and all before it are regular. */
  ghost predicate RightExactlyIfPlain(segs: seq<DataSeg>, r: Range) {
    exists h: seq<Transmission> :: HistoryOf(segs, |segs|, r, h) &&
      match Carrier(r, h)
      case None => true
      case Some(p) =>
        && p < |h| && h[p].stamp.val == r.receivedTstampTcp
        && (StoredIndex(r) == p <==> PlainUpTo(h, p))
        && (Unbundled(segs) ==> (StoredIndex(r) == p <==> p < 256))
  }

  lemma EntryRight(segs: seq<DataSeg>, r: Range)
    requires LoggedIn(segs, |segs|, r)
    ensures RightExactlyIfPlain(segs, r)
  {
    var h: seq<Transmission> :| HistoryOf(segs, |segs|, r, h);
    StoredIndexIsRightExactly(r, h);
    if Unbundled(segs) {
      forall p | 0 <= p < |h|
        ensures !h[p].bundled
      {
        assert FromPacket(segs, h[p], r.startSeq, r.endSeq);
      }
    }
    hide Recorded, FromPacket, Unbundled;
  }

  /** That is so for every entry at the end of every run; without bundling the index is right for the
      first 256 transmissions and wrong for all others. */
  lemma RunIndexRight(t: Trace)
    requires WellFormed(t)
    ensures var r := RunAll(t); r.Running? ==> forall k :: k in r.state.ranges ==> RightExactlyIfPlain(t.sent, r.state.ranges[k])
  {
    hide WellFormed, RunAll, LoggedIn, RightExactlyIfPlain;
    RunLogged(t);
    var r := RunAll(t);
    if r.Running? {
      forall k | k in r.state.ranges
        ensures RightExactlyIfPlain(t.sent, r.state.ranges[k])
      {
        assert Logged(t.sent, |t.sent|)(r.state.ranges[k]);
        EntryRight(t.sent, r.state.ranges[k]);
      }
    }
  }
}
