/** The losses an entry lists (`lost_tstamps_tcp`): a transmission adds one, a reception takes one with its stamp
    off again. `calculateLossGroupedByInterval` reports what is left. */
module Losses {
  import opened Common
  import opened OrderedMap
  import opened ByteRanges
  import opened Index
  import opened ByteView
  import opened Insertion
  import opened Accounting
  import opened Entries
  import opened Registration
  import opened SendRun
  import opened SendTheorems
  import opened Acks
  import opened AckRun
  import opened ReceiveRun
  import opened WholeRun
  import opened LossIntervals
  import opened LossRun
  import opened Stretch
  import opened Edges
  import opened RunTheorems

  // ---------- one list ----------

  /** Position `i` holds the first loss with the stamp. */
  predicate FirstWith(lost: seq<Unconfirmed>, val: nat, i: nat) {
    i < |lost| && lost[i].val == val && forall j :: 0 <= j < i ==> lost[j].val != val
  }

  lemma {:induction false} EraseFirstNone(lost: seq<Unconfirmed>, val: nat)
    requires forall i :: 0 <= i < |lost| ==> lost[i].val != val
    ensures EraseFirst(lost, val) == lost
  {
    if lost != [] {
      EraseFirstNone(lost[1..], val);
    }
  }

  lemma {:induction false} EraseFirstAt(lost: seq<Unconfirmed>, val: nat, i: nat)
    requires FirstWith(lost, val, i)
    ensures EraseFirst(lost, val) == lost[..i] + lost[i + 1..]
  {
    if i > 0 {
      EraseFirstAt(lost[1..], val, i - 1);
      assert [lost[0]] + lost[1..][..i - 1] == lost[..i] && lost[1..][i - 1 + 1..] == lost[i + 1..];
    }
  }

  /** Exactly the first loss with the stamp is taken off, and none if there is none. */
  lemma EraseFirstExactly(lost: seq<Unconfirmed>, val: nat)
    ensures (forall i :: 0 <= i < |lost| ==> lost[i].val != val) ==> EraseFirst(lost, val) == lost
    ensures forall i: nat :: FirstWith(lost, val, i) ==> EraseFirst(lost, val) == lost[..i] + lost[i + 1..]
  {
    hide EraseFirst, FirstWith;
    if forall i :: 0 <= i < |lost| ==> lost[i].val != val {
      EraseFirstNone(lost, val);
    }
    forall i: nat | FirstWith(lost, val, i)
      ensures i < |lost| && EraseFirst(lost, val) == lost[..i] + lost[i + 1..]
    {
      FirstInside(lost, val, i);
      EraseFirstAt(lost, val, i);
    }
  }

  lemma FirstInside(lost: seq<Unconfirmed>, val: nat, i: nat)
    requires FirstWith(lost, val, i)
    ensures i < |lost|
  {
  }

  function StampsOf(lost: seq<Unconfirmed>): (r: seq<nat>)
    ensures |r| == |lost|
  {
    seq(|lost|, i requires 0 <= i < |lost| => lost[i].val)
  }

  lemma StampsCons(x: Unconfirmed, lost: seq<Unconfirmed>)
    ensures StampsOf([x] + lost) == [x.val] + StampsOf(lost)
  {
  }

  /** As multisets of stamps: one less, if the stamp is there. */
  lemma {:induction false} EraseFirstStamps(lost: seq<Unconfirmed>, val: nat)
    ensures multiset(StampsOf(EraseFirst(lost, val))) == multiset(StampsOf(lost)) - multiset{val}
  {
    hide StampsOf;
    if lost == [] {
      assert StampsOf([]) == [];
    } else {
      StampsCons(lost[0], lost[1..]);
      assert [lost[0]] + lost[1..] == lost;
      if lost[0].val != val {
        EraseFirstStamps(lost[1..], val);
        StampsCons(lost[0], EraseFirst(lost[1..], val));
      }
    }
  }

  // ---------- one insertion ----------

  /** The losses listed at `k`. */
  function LostAt(m: Ranges, k: int): seq<Unconfirmed> {
    if k in m then m[k].lostTstampsTcp else []
  }

  /** What call `c` does to the list of an entry it is counted on. */
  function LostAfter(c: Call, lost: seq<Unconfirmed>): seq<Unconfirmed> {
    if c.itype == InsertSent then lost + [Unconfirmed(c.seg.tstampTcp, c.seg.tstampPcap)] else EraseFirst(lost, c.seg.tstampTcp)
  }

  /** The entry lists what `m` lists at its start, and no entry of `m` starts within it. */
  ghost function ListsAs(m: Ranges): Range -> bool {
    (r: Range) => r.lostTstampsTcp == LostAt(m, r.startSeq) && forall j :: j in m ==> !(r.startSeq < j < r.endSeq)
  }

  /** The entry lists what call `c` makes of it. */
  ghost function ListsAfter(m: Ranges, c: Call): Range -> bool {
    (r: Range) => r.lostTstampsTcp == LostAfter(c, LostAt(m, r.startSeq))
  }

  lemma ListsSplit(m: Ranges)
    ensures KeptBySplit(ListsAs(m))
  {
  }

  lemma CountLists(r: Range, r': Range, c: Call, s: int, level: nat, ends: bool)
    requires r' == CountInside(r, c, s, level, ends) || r' == CountExisting(r, c, s, level)
    ensures r'.SameSpan(r) && r'.lostTstampsTcp == LostAfter(c, r.lostTstampsTcp)
  {
    hide Range.Info;
  }

  lemma ListsTurn(m: Ranges, c: Call, s: int, e: int)
    ensures Turns(ListsAs(m), ListsAfter(m, c), c, s, e)
  {
    hide CountInside, CountExisting, Range.Info, LostAfter;
    forall r: Range, x: int, level: nat, ends: bool
      ensures var r' := CountInside(r, c, x, level, ends); r'.SameSpan(r) && r'.lostTstampsTcp == LostAfter(c, r.lostTstampsTcp)
    {
      CountLists(r, CountInside(r, c, x, level, ends), c, x, level, ends);
    }
    forall r: Range, x: int, level: nat
      ensures var r' := CountExisting(r, c, x, level); r'.SameSpan(r) && r'.lostTstampsTcp == LostAfter(c, r.lostTstampsTcp)
    {
      CountLists(r, CountExisting(r, c, x, level), c, x, level, true);
    }
  }

  lemma ListsHere(m: Ranges, s: int, q: Range -> bool)
    requires Keyed(m) && Disjoint(m)
    ensures Half(m, s, s, ListsAs(m), q)
  {
    forall k | k in m
      ensures ListsAs(m)(m[k])
    {
      LaterBeyond(m, k);
    }
  }

  lemma TailLists(m: Ranges, c: Call, base: int, e: int)
    requires Ready(m, c, base, e, base) && base < e && c.itype == InsertSent
    ensures ListsAfter(m, c)(NewTail(m, c, base, e))
  {
  }

  /** `m'` lists at every key what `m` does, changed by call `c` for the keys of the segment. */
  ghost predicate ListsChanged(m: Ranges, m': Ranges, c: Call, s: int, e: int) {
    forall k :: k in m' ==> m'[k].lostTstampsTcp == if s <= k < e then LostAfter(c, LostAt(m, k)) else LostAt(m, k)
  }

  lemma HalfLists(m: Ranges, m': Ranges, c: Call, s: int, e: int)
    requires Keyed(m') && Half(m', s, e, ListsAs(m), ListsAfter(m, c))
    ensures ListsChanged(m, m', c, s, e)
  {
    forall k | k in m'
      ensures m'[k].lostTstampsTcp == if s <= k < e then LostAfter(c, LostAt(m, k)) else LostAt(m, k)
    {
      assert if s <= k < e then ListsAfter(m, c)(m'[k]) else ListsAs(m)(m'[k]);
    }
  }

  /** A completed insertion changes the list of every entry that starts in the segment, once, and no other one. An
      entry that was cut off starts with an empty list. */
  lemma InsertLists(m: Ranges, c: Call, s: int, e: int, base: int)
    requires Ready(m, c, s, e, base)
    ensures var r := Insert(m, c, s, e, 0); r.Ok? ==> ListsChanged(m, r.ranges, c, s, e)
  {
    hide Insert, NewTail, ListsAs, ListsAfter, ListsChanged, KeptBySplit, KeptByCut, TurnsInside, TurnsFound, LostAfter, Half;
    var p, q := ListsAs(m), ListsAfter(m, c);
    ListsSplit(m);
    SplitIsCut(p, s, e);
    ListsTurn(m, c, s, e);
    ListsHere(m, s, q);
    if e > base {
      ReadyTail(m, c, s, e, base);
      SentCall(m, c, s, e, base);
      TailLists(m, c, base, e);
    }
    InsertTurns(m, c, s, e, 0, base, p, q, s);
    var r := Insert(m, c, s, e, 0);
    if r.Ok? {
      InsertKeyed(m, c, s, e, 0);
      HalfLists(m, r.ranges, c, s, e);
    }
  }

  lemma SentCall(m: Ranges, c: Call, s: int, e: int, base: int)
    requires Ready(m, c, s, e, base) && e > base
    ensures c.itype == InsertSent
  {
  }

  /** One reception: every entry that starts in the segment loses the first loss with the segment's stamp, if it
      lists one; all others keep their lists. */
  lemma ReceptionErases(m: Ranges, f: Front, firstSeq: int, g: DataSeg)
    requires ReceiveState(m, f) && ReceivedStep(f, firstSeq, g)
    ensures Keyed(m)
    ensures var r := ReceiveOne(m, f.last, firstSeq, g); r.Running? ==>
      forall k :: k in r.state ==>
        r.state[k].lostTstampsTcp == if g.startSeq <= k < g.endSeq then EraseFirst(LostAt(m, k), g.tstampTcp) else LostAt(m, k)
  {
    hide Insert, LostAt;
    ReceiveKeyed(m, f);
    ReceptionReady(m, f, firstSeq, g);
    InsertLists(m, RecvCall(f.last, firstSeq, g), g.startSeq, g.endSeq, g.endSeq);
  }

  // ---------- the send phase ----------

  ghost predicate DataOnly(segs: seq<DataSeg>) {
    forall i :: 0 <= i < |segs| ==> segs[i].payloadSize > 0
  }

  predicate Carried(g: DataSeg, k: int) {
    g.startSeq <= k < g.endSeq
  }

  /** The transmissions of byte `k` from the packet on that first made an edge there. */
  function Listed(segs: seq<DataSeg>, k: int): seq<Unconfirmed> {
    if segs == [] then []
    else
      var before, g := Listed(segs[..|segs| - 1], k), segs[|segs| - 1];
      if Carried(g, k) && Edge(segs, k) then before + [Unconfirmed(g.tstampTcp, g.tstampPcap)] else before
  }

  ghost predicate ListsSent(m: Ranges, segs: seq<DataSeg>) {
    forall k :: k in m ==> m[k].lostTstampsTcp == Listed(segs, k)
  }

  lemma {:induction false} ListedMeans(segs: seq<DataSeg>, k: int)
    requires Listed(segs, k) != []
    ensures Edge(segs, k) && TimesSent(segs, k) > 0
  {
    var n := |segs| - 1;
    assert segs[..n + 1] == segs;
    EdgeStep(segs, n, k);
    if !(Carried(segs[n], k) && Edge(segs, k)) {
      ListedMeans(segs[..n], k);
    }
  }

  lemma {:induction false} BelowTop(segs: seq<DataSeg>, k: int)
    requires GapFree(segs) && DataOnly(segs) && Packets(segs) && TimesSent(segs, k) > 0
    ensures FrontOf(segs).Lo() == 0 <= k < FrontOf(segs).top
  {
    var n := |segs| - 1;
    GapFreeInit(segs);
    NoSyn(segs);
    if !Carried(segs[n], k) {
      BelowTop(segs[..n], k);
    }
  }

  lemma {:induction false} NoSyn(segs: seq<DataSeg>)
    requires DataOnly(segs)
    ensures !FrontOf(segs).syn
  {
    if segs != [] {
      NoSyn(segs[..|segs| - 1]);
    }
  }

  lemma StepLists(st: SendState, firstSeq: int, segs: seq<DataSeg>)
    requires segs != [] && GapFree(segs) && Packets(segs) && DataOnly(segs)
    requires SendAll(firstSeq, segs[..|segs| - 1]) == Running(st) && ListsSent(st.ranges, segs[..|segs| - 1])
    ensures Keyed(st.ranges)
    ensures var r := SendAll(firstSeq, segs); r.Running? ==> ListsSent(r.state.ranges, segs)
  {
    var n := |segs| - 1;
    hide SendAll, SendInv, GapFree, FrontOf, SendOne, Edge, GapFreeStep, Listed, CountsBytes;
    GapFreePrefix(segs, n);
    assert segs[..n + 1] == segs;
    SendsStep(firstSeq, segs, n);
    SendRefinesCounter(firstSeq, segs[..n]);
    SentEdges(firstSeq, segs[..n]);
    SentEdges(firstSeq, segs);
    SendRefinesCounter(firstSeq, segs);
    var r, m, g := SendAll(firstSeq, segs), st.ranges, segs[n];
    if r.Running? {
      PacketLists(st, FrontOf(segs[..n]), firstSeq, g);
      forall k | k in r.state.ranges
        ensures r.state.ranges[k].lostTstampsTcp == Listed(segs, k)
      {
        NewKeyUnlisted(st, firstSeq, segs[..n], k);
        if Carried(g, k) {
          StartsAtEdge(r.state, firstSeq, segs, k);
        }
        ListedStep(segs, k);
      }
    }
  }

  lemma ListedStep(segs: seq<DataSeg>, k: int)
    requires segs != []
    ensures var before, g := Listed(segs[..|segs| - 1], k), segs[|segs| - 1];
      Listed(segs, k) == if Carried(g, k) && Edge(segs, k) then before + [Unconfirmed(g.tstampTcp, g.tstampPcap)] else before
  {
  }

  lemma PacketLists(st: SendState, f: Front, firstSeq: int, g: DataSeg)
    requires SendInv(st, f) && GapFreeStep(f, g) && g.payloadSize > 0
    ensures var r := SendOne(st, firstSeq, g); r.Running? ==> forall k :: k in r.state.ranges ==>
      r.state.ranges[k].lostTstampsTcp ==
      (if Carried(g, k) then LostAt(st.ranges, k) + [Unconfirmed(g.tstampTcp, g.tstampPcap)] else LostAt(st.ranges, k))
  {
    hide Insert, LostAt;
    DataIsReady(st, f, firstSeq, g);
    InsertLists(st.ranges, CallFor(st, firstSeq, g), g.startSeq, g.endSeq, f.Base());
  }

  /** Where no entry started, no transmission was listed. */
  lemma NewKeyUnlisted(st: SendState, firstSeq: int, segs: seq<DataSeg>, k: int)
    requires GapFree(segs) && Packets(segs) && DataOnly(segs) && SendAll(firstSeq, segs) == Running(st) && ListsSent(st.ranges, segs)
    ensures LostAt(st.ranges, k) == Listed(segs, k)
  {
    hide SendAll, GapFree, FrontOf, Edge, Listed, TimesSent;
    if k !in st.ranges && Listed(segs, k) != [] {
      ListedMeans(segs, k);
      BelowTop(segs, k);
      SentEdges(firstSeq, segs);
    }
  }

  lemma StartsAtEdge(st: SendState, firstSeq: int, segs: seq<DataSeg>, k: int)
    requires GapFree(segs) && Packets(segs) && DataOnly(segs) && SendAll(firstSeq, segs) == Running(st) && k in st.ranges
    requires SendInv(st, FrontOf(segs)) && segs != [] && Carried(segs[|segs| - 1], k)
    ensures Edge(segs, k)
  {
    hide SendAll, GapFree, FrontOf, Edge, SendInv;
    SentEdges(firstSeq, segs);
    assert TimesSent(segs, k) > 0;
    BelowTop(segs, k);
  }

  /** After any gap-free trace of data packets, an entry lists the transmissions of its first byte since there
      was an edge. */
  lemma {:induction false} SentLists(firstSeq: int, segs: seq<DataSeg>)
    requires GapFree(segs) && Packets(segs) && DataOnly(segs)
    ensures var r := SendAll(firstSeq, segs); r.Running? ==> ListsSent(r.state.ranges, segs)
  {
    hide SendOne, SendInv, GapFreeStep, NextFront, ListsSent, GapFree;
    if segs == [] {
      assert ListsSent(map[], segs) by { NothingListed(); }
    } else {
      var n := |segs| - 1;
      GapFreeInit(segs);
      SentLists(firstSeq, segs[..n]);
      var r := SendAll(firstSeq, segs[..n]);
      if r.Running? {
        StepLists(r.state, firstSeq, segs);
      }
    }
  }

  lemma NothingListed()
    ensures ListsSent(map[], [])
  {
  }

  // ---------- the other two phases ----------

  /** `m` lists what `m0` does, and nothing at keys that came later. */
  ghost predicate ListsKept(m0: Ranges, m: Ranges) {
    m0.Keys <= m.Keys && forall k :: k in m ==> m[k].lostTstampsTcp == LostAt(m0, k)
  }

  lemma AcksKeepLists(m: Ranges, acks: seq<AckSeg>)
    requires AckState(m) && m != map[]
    ensures var r := AckAll(m, acks); r.Running? ==> ListsKept(m, r.state.ranges)
  {
    hide AckAll, AckState, KeptByMarking, LostAt;
    MarkingKeepsLists(m);
    assert ListsKept(m, m) by { ListsItself(m); }
    AcksKeep(m, acks, x => ListsKept(m, x));
  }

  lemma ListsItself(m: Ranges)
    ensures ListsKept(m, m)
  {
  }

  lemma MarkingKeepsLists(m0: Ranges)
    ensures KeptByMarking(m => ListsKept(m0, m))
  {
    hide Range.Info;
    forall m: Ranges, k: int, at: int | ListsKept(m0, m) && Keyed(m) && Disjoint(m) && k in m && k < at < m[k].endSeq
      ensures ListsKept(m0, SplitAt(m, k, at))
    {
      SplitDisjoint(m, k, at);
    }
  }

  /** The stamps of the received segments that carried byte `k`. */
  function Arrived(segs: seq<DataSeg>, k: int): seq<nat> {
    if segs == [] then []
    else Arrived(segs[..|segs| - 1], k) + (if Carried(segs[|segs| - 1], k) then [segs[|segs| - 1].tstampTcp] else [])
  }

  /** What is left of the losses of `m0` after the receptions: as multisets of stamps, the difference. */
  ghost predicate LeftOf(m0: Ranges, m: Ranges, segs: seq<DataSeg>) {
    && m0.Keys <= m.Keys
    && forall k :: k in m ==> multiset(StampsOf(m[k].lostTstampsTcp)) == multiset(StampsOf(LostAt(m0, k))) - multiset(Arrived(segs, k))
  }

  lemma {:induction false} ReceptionsErase(m: Ranges, f: Front, firstSeq: int, segs: seq<DataSeg>)
    requires ReceiveState(m, f) && ReceivedRun(f, firstSeq, segs)
    ensures Keyed(m)
    ensures var r := ReceiveAll(m, f.last, firstSeq, segs); r.Running? ==> LeftOf(m, r.state, segs)
  {
    hide ReceiveOne, ReceiveState, LeftOf;
    ReceiveKeyed(m, f);
    if segs == [] {
      assert LeftOf(m, m, []) by { AllLeft(m); }
    } else {
      var n := |segs| - 1;
      ReceptionsErase(m, f, firstSeq, segs[..n]);
      ReceptionsCounted(m, f, firstSeq, segs[..n]);
      var r := ReceiveAll(m, f.last, firstSeq, segs[..n]);
      if r.Running? {
        OneErased(m, r.state, f, firstSeq, segs);
      }
    }
  }

  lemma AllLeft(m: Ranges)
    ensures LeftOf(m, m, [])
  {
  }

  lemma OneErased(m0: Ranges, m: Ranges, f: Front, firstSeq: int, segs: seq<DataSeg>)
    requires segs != [] && ReceiveState(m, f) && ReceivedStep(f, firstSeq, segs[|segs| - 1]) && LeftOf(m0, m, segs[..|segs| - 1])
    ensures Keyed(m)
    ensures var r := ReceiveOne(m, f.last, firstSeq, segs[|segs| - 1]); r.Running? ==> LeftOf(m0, r.state, segs)
  {
    hide ReceiveOne, ReceiveState, Arrived, LostAt, StampsOf;
    var g := segs[|segs| - 1];
    ReceiveKeyed(m, f);
    ReceptionErases(m, f, firstSeq, g);
    ReceptionKeys(m, f, firstSeq, g);
    var r := ReceiveOne(m, f.last, firstSeq, g);
    if r.Running? {
      forall k | k in r.state
        ensures multiset(StampsOf(r.state[k].lostTstampsTcp)) == multiset(StampsOf(LostAt(m0, k))) - multiset(Arrived(segs, k))
      {
        LeftAt(m0, m, segs[..|segs| - 1], k);
        ErasedAt(LostAt(m, k), LostAt(m0, k), segs, k);
      }
    }
  }

  /** What one list loses by the last reception. */
  lemma ErasedAt(lost: seq<Unconfirmed>, listed: seq<Unconfirmed>, segs: seq<DataSeg>, k: int)
    requires segs != []
    requires multiset(StampsOf(lost)) == multiset(StampsOf(listed)) - multiset(Arrived(segs[..|segs| - 1], k))
    ensures var g := segs[|segs| - 1];
      multiset(StampsOf(if Carried(g, k) then EraseFirst(lost, g.tstampTcp) else lost)) ==
      multiset(StampsOf(listed)) - multiset(Arrived(segs, k))
  {
    hide Arrived, StampsOf, EraseFirst;
    var g := segs[|segs| - 1];
    EraseFirstStamps(lost, g.tstampTcp);
    ArrivedStep(segs, k);
    MinusTwice(multiset(StampsOf(listed)), multiset(Arrived(segs[..|segs| - 1], k)), multiset{g.tstampTcp});
  }

  lemma MinusTwice(a: multiset<nat>, b: multiset<nat>, c: multiset<nat>)
    ensures a - b - c == a - (b + c)
  {
  }

  lemma LeftAt(m0: Ranges, m: Ranges, segs: seq<DataSeg>, k: int)
    requires LeftOf(m0, m, segs)
    ensures multiset(StampsOf(LostAt(m, k))) == multiset(StampsOf(LostAt(m0, k))) - multiset(Arrived(segs, k))
  {
  }

  lemma ReceptionKeys(m: Ranges, f: Front, firstSeq: int, g: DataSeg)
    requires ReceiveState(m, f) && ReceivedStep(f, firstSeq, g)
    ensures Keyed(m)
    ensures var r := ReceiveOne(m, f.last, firstSeq, g); r.Running? ==> m.Keys <= r.state.Keys
  {
    hide Insert;
    ReceiveKeyed(m, f);
    ReceptionReady(m, f, firstSeq, g);
    InsertSegment(m, RecvCall(f.last, firstSeq, g), g.startSeq, g.endSeq, 0, g.endSeq);
  }

  lemma ArrivedStep(segs: seq<DataSeg>, k: int)
    requires segs != []
    ensures var n := |segs| - 1;
      multiset(Arrived(segs, k)) ==
      multiset(Arrived(segs[..n], k)) + (if Carried(segs[n], k) then multiset{segs[n].tstampTcp} else multiset{})
  {
  }

  // ---------- runs on which everything arrives ----------

  /** What identifies a packet on the wire. */
  datatype Wire = Wire(startSeq: int, endSeq: int, stamp: nat)

  function OnWire(segs: seq<DataSeg>): (r: seq<Wire>)
    ensures |r| == |segs|
  {
    seq(|segs|, i requires 0 <= i < |segs| => Wire(segs[i].startSeq, segs[i].endSeq, segs[i].tstampTcp))
  }

  /** The stamps of those that carry byte `k`. */
  function StampsAt(w: seq<Wire>, k: int): seq<nat> {
    if w == [] then []
    else StampsAt(w[..|w| - 1], k) + (if w[|w| - 1].startSeq <= k < w[|w| - 1].endSeq then [w[|w| - 1].stamp] else [])
  }

  lemma {:induction false} ArrivedOnWire(segs: seq<DataSeg>, k: int)
    ensures Arrived(segs, k) == StampsAt(OnWire(segs), k)
  {
    if segs != [] {
      var n := |segs| - 1;
      ArrivedOnWire(segs[..n], k);
      assert OnWire(segs)[..n] == OnWire(segs[..n]);
    }
  }

  lemma StampsStep(w: seq<Wire>, k: int)
    requires w != []
    ensures var n := |w| - 1;
      multiset(StampsAt(w, k)) ==
      multiset(StampsAt(w[..n], k)) + (if w[n].startSeq <= k < w[n].endSeq then multiset{w[n].stamp} else multiset{})
  {
  }

  lemma {:induction false} StampsWithout(w: seq<Wire>, j: nat, k: int)
    requires j < |w|
    ensures multiset(StampsAt(w, k)) == multiset(StampsAt(w[..j] + w[j + 1..], k))
                                        + (if w[j].startSeq <= k < w[j].endSeq then multiset{w[j].stamp} else multiset{})
    decreases |w|
  {
    hide StampsAt;
    var n := |w| - 1;
    var rest := w[..j] + w[j + 1..];
    StampsStep(w, k);
    if j < n {
      StampsWithout(w[..n], j, k);
      StampsStep(rest, k);
      assert w[..n][..j] + w[..n][j + 1..] == rest[..|rest| - 1];
      assert rest[|rest| - 1] == w[n];
    } else {
      assert rest == w[..n];
    }
  }

  /** Fewer packets, with multiplicity, carry fewer stamps over every byte. */
  lemma {:induction false} StampsMonotone(few: seq<Wire>, many: seq<Wire>, k: int)
    requires multiset(few) <= multiset(many)
    ensures multiset(StampsAt(few, k)) <= multiset(StampsAt(many, k))
    decreases |few|
  {
    if few != [] {
      var n := |few| - 1;
      var w := few[n];
      assert few == few[..n] + [w];
      assert w in multiset(few);
      assert w in many;
      var j :| 0 <= j < |many| && many[j] == w;
      var rest := many[..j] + many[j + 1..];
      assert many == many[..j] + [many[j]] + many[j + 1..];
      assert multiset(many) == multiset(rest) + multiset{w};
      CancelWire(multiset(few[..n]), multiset(rest), w);
      StampsMonotone(few[..n], rest, k);
      StampsWithout(many, j, k);
    }
  }

  lemma CancelWire(a: multiset<Wire>, c: multiset<Wire>, w: Wire)
    requires a + multiset{w} <= c + multiset{w}
    ensures a <= c
  {
    forall x
      ensures a[x] <= c[x]
    {
      assert (a + multiset{w})[x] <= (c + multiset{w})[x];
    }
  }

  lemma {:induction false} ListedIsCarried(segs: seq<DataSeg>, k: int)
    ensures multiset(StampsOf(Listed(segs, k))) <= multiset(Arrived(segs, k))
  {
    if segs != [] {
      var n := |segs| - 1;
      ListedIsCarried(segs[..n], k);
      ListedStep(segs, k);
      ArrivedStep(segs, k);
      var before, g := Listed(segs[..n], k), segs[n];
      assert StampsOf(before + [Unconfirmed(g.tstampTcp, g.tstampPcap)]) == StampsOf(before) + [g.tstampTcp];
      hide Listed, Arrived, Edge;
    }
  }

  /** Every sent packet arrived, at least as often as it was sent. */
  ghost predicate AllArrived(t: Trace) {
    multiset(OnWire(t.sent)) <= multiset(OnWire(t.received))
  }

  /** What every entry lists at the end of a run of data packets: the stamps of the transmissions of its first
      byte since there was an edge, less the stamps of the received segments that carried the byte. */
  ghost predicate ListsToldBy(t: Trace, m: Ranges) {
    forall k :: k in m ==>
      multiset(StampsOf(m[k].lostTstampsTcp)) == multiset(StampsOf(Listed(t.sent, k))) - multiset(Arrived(t.received, k))
  }

  lemma FinalLists(t: Trace, st: SendState, m1: Ranges, m: Ranges)
    requires Ends(t, st, m1, m) && DataOnly(t.sent)
    ensures ListsToldBy(t, m)
  {
    hide SendAll, AckAll, ReceiveAll, GapFree, FrontOf, ReceivedRun, ReceiveState, At, Total, SameCounts, EntriesSound,
      CountsBytes, Shape, Listed, Arrived;
    SentFacts(t, st);
    SentLists(t.firstSeq, t.sent);
    AcksKeepLists(st.ranges, t.acks);
    AckedFacts(t, st, m1);
    ReceptionsErase(m1, FrontOf(t.sent), t.firstSeq, t.received);
    forall k | k in m
      ensures multiset(StampsOf(m[k].lostTstampsTcp)) == multiset(StampsOf(Listed(t.sent, k))) - multiset(Arrived(t.received, k))
    {
      assert LostAt(m1, k) == LostAt(st.ranges, k);
      NewKeyUnlisted(st, t.firstSeq, t.sent, k);
    }
  }

  /** If all arrived, nothing is listed as lost. */
  ghost predicate NoneLost(m: Ranges) {
    forall k :: k in m ==> m[k].lostTstampsTcp == []
  }

  lemma FinalNoneLost(t: Trace, st: SendState, m1: Ranges, m: Ranges)
    requires Ends(t, st, m1, m) && DataOnly(t.sent) && AllArrived(t)
    ensures NoneLost(m)
  {
    hide Ends, Listed, Arrived;
    FinalLists(t, st, m1, m);
    forall k | k in m
      ensures m[k].lostTstampsTcp == []
    {
      ListedIsCarried(t.sent, k);
      ArrivedOnWire(t.sent, k);
      ArrivedOnWire(t.received, k);
      StampsMonotone(OnWire(t.sent), OnWire(t.received), k);
      assert multiset(StampsOf(m[k].lostTstampsTcp)) == multiset{};
      assert |multiset(StampsOf(m[k].lostTstampsTcp))| == |m[k].lostTstampsTcp|;
    }
  }

  // ---------- the report ----------

  lemma {:induction false} NoLossInBuckets(b: Buckets, entries: seq<Range>, i: nat)
    requires AllSound(b, entries) && forall j :: 0 <= j < |entries| ==> entries[j].lostTstampsTcp == []
    ensures LossesOnly(Bucket(b, entries, i)) == NO_LOSS
  {
    hide Bucket, LostPart, Tally, NewSize, LostWithinSent;
    if entries == [] {
      NoBuckets(b);
    } else {
      var n := |entries| - 1;
      NoLossInBuckets(b, entries[..n], i);
      BucketStep(b, entries, n, i);
      assert entries[..n + 1] == entries;
      NoLossesNoPart(b, entries[n], i);
    }
  }

  lemma NoLossesNoPart(b: Buckets, r: Range, i: nat)
    requires r.lostTstampsTcp == [] && TimesIn(b, SentTimes(r.sentTstampPcap)) && TimesIn(b, LostTimes(r.lostTstampsTcp))
    ensures LostPart(b, r, i) == NO_LOSS
  {
  }

  /** On every run of data packets: each entry ends with exactly those losses whose stamps did not arrive. If
      every packet arrived, in any order, no loss is listed, and no bucket of the report holds one. */
  lemma RunLosses(t: Trace, b: Buckets, i: nat)
    requires WellFormed(t) && DataOnly(t.sent)
    ensures var r := RunAll(t); r.Running? ==> var m := r.state.ranges;
      && ListsToldBy(t, m)
      && (AllArrived(t) ==> NoneLost(m))
      && (AllArrived(t) && SentInBuckets(b, t.sent) ==> AllSound(b, InOrder(m)) && LossesOnly(Bucket(b, InOrder(m), i)) == NO_LOSS)
  {
    hide WellFormed, Ends, RunAll, SentInBuckets, AllSound, Bucket, InOrder, ListsToldBy, AllArrived, DataOnly;
    RunCompletes(t);
    RunEntries(t, b, i);
    var r := RunAll(t);
    if r.Running? {
      var f := r.state;
      FinalLists(t, f.sent, f.acked, f.ranges);
      if AllArrived(t) {
        FinalNoneLost(t, f.sent, f.acked, f.ranges);
        if SentInBuckets(b, t.sent) {
          NoneLostInOrder(f.ranges);
          NoLossInBuckets(b, InOrder(f.ranges), i);
        }
      }
    }
  }

  lemma NoneLostInOrder(m: Ranges)
    requires NoneLost(m)
    ensures forall j :: 0 <= j < |InOrder(m)| ==> InOrder(m)[j].lostTstampsTcp == []
  {
    hide InOrder;
    InOrderLists(m);
    forall j | 0 <= j < |InOrder(m)|
      ensures InOrder(m)[j].lostTstampsTcp == []
    {
      assert InOrder(m)[j] in InOrder(m);
    }
  }
}
