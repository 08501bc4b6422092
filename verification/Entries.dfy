/** Properties that every single entry keeps, through sending, acknowledging, receiving and splitting. */
module Entries {
  import opened Common
  import opened ByteRanges
  import opened Index
  import opened ByteView
  import opened Insertion
  import opened Accounting

  // ---------- losses are among the transmissions ----------

  function SentTimes(s: seq<Sending>): (r: seq<TimeVal>)
    ensures |r| == |s|
  {
    seq(|s|, i requires 0 <= i < |s| => s[i].time)
  }

  function LostTimes(s: seq<Unconfirmed>): (r: seq<TimeVal>)
    ensures |r| == |s|
  {
    seq(|s|, i requires 0 <= i < |s| => s[i].time)
  }

  /** Each transmission still listed as lost is one of the recorded transmissions, counted with multiplicity. */
  ghost predicate LostWithinSent(r: Range) {
    multiset(LostTimes(r.lostTstampsTcp)) <= multiset(SentTimes(r.sentTstampPcap))
  }

  lemma SendingKeepsLost(r: Range, seg: DataSeg, rdb: bool, kind: SentType)
    requires LostWithinSent(r)
    ensures LostWithinSent(r.IncreaseSent(seg, rdb, kind))
  {
    var r' := r.IncreaseSent(seg, rdb, kind);
    assert SentTimes(r'.sentTstampPcap) == SentTimes(r.sentTstampPcap) + [seg.tstampPcap];
    assert LostTimes(r'.lostTstampsTcp) == LostTimes(r.lostTstampsTcp) + [seg.tstampPcap];
  }

  lemma {:induction false} EraseFirstTimes(lost: seq<Unconfirmed>, val: nat)
    ensures multiset(LostTimes(EraseFirst(lost, val))) <= multiset(LostTimes(lost))
  {
    if lost != [] {
      assert LostTimes(lost) == [lost[0].time] + LostTimes(lost[1..]);
      if lost[0].val != val {
        EraseFirstTimes(lost[1..], val);
        var rest := EraseFirst(lost[1..], val);
        assert LostTimes([lost[0]] + rest) == [lost[0].time] + LostTimes(rest);
      }
    }
  }

  lemma LostWithinSentKept(c: Call)
    ensures KeptBySplit(LostWithinSent) && KeptByCount(LostWithinSent, c)
  {
    forall r: Range, at: int | r.Sized() && r.startSeq < at < r.endSeq && LostWithinSent(r)
      ensures LostWithinSent(r.Left(at)) && LostWithinSent(r.Right(at))
    {
      assert LostTimes([]) == [];
    }
    forall r: Range, s: int, level: nat, ends: bool | LostWithinSent(r)
      ensures LostWithinSent(CountInside(r, c, s, level, ends))
    {
      CountKeepsLost(r, CountInside(r, c, s, level, ends), c, s, level, ends);
    }
    forall r: Range, s: int, level: nat | LostWithinSent(r)
      ensures LostWithinSent(CountExisting(r, c, s, level))
    {
      CountKeepsLost(r, CountExisting(r, c, s, level), c, s, level, true);
    }
  }

  lemma CountKeepsLost(r: Range, r': Range, c: Call, s: int, level: nat, ends: bool)
    requires LostWithinSent(r) && (r' == CountInside(r, c, s, level, ends) || r' == CountExisting(r, c, s, level))
    ensures LostWithinSent(r')
  {
    hide Range.Info;
    if c.itype == InsertSent {
      var kind := if level > 0 then StNone else if c.seg.retrans then StRtr else StPkt;
      if r' == CountInside(r, c, s, level, ends) {
        SendingKeepsLost(r, c.seg, RdbAt(c.seg, s), if level == 0 then StRtr else StNone);
      } else {
        SendingKeepsLost(r, c.seg, RdbAt(c.seg, s), kind);
      }
    } else {
      EraseFirstTimes(r.lostTstampsTcp, c.seg.tstampTcp);
    }
  }

  // ---------- the time stamp lists stay aligned ----------

  /** One TCP stamp per transmission, at least one transmission, and the packet index points at the last
      transmission that was counted as a packet, or at none if there is none. */
  ghost predicate Aligned(r: Range) {
    && |r.tstampsTcp| + |r.rdbTstampsTcp| == |r.sentTstampPcap| >= 1
    && -1 <= r.sentDataPktPcapIndex < |r.sentTstampPcap|
    && (r.sentDataPktPcapIndex >= 0 ==> r.sentTstampPcap[r.sentDataPktPcapIndex].kind == StPkt)
    && forall j :: r.sentDataPktPcapIndex < j < |r.sentTstampPcap| ==> r.sentTstampPcap[j].kind != StPkt
  }

  lemma AlignedKept(c: Call)
    ensures KeptBySplit(Aligned) && KeptByCount(Aligned, c)
  {
    hide CountInside, CountExisting, Range.Info;
    forall r: Range, s: int, level: nat, ends: bool | Aligned(r)
      ensures Aligned(CountInside(r, c, s, level, ends))
    {
      InsideKeepsAligned(r, c, s, level, ends);
    }
    forall r: Range, s: int, level: nat | Aligned(r)
      ensures Aligned(CountExisting(r, c, s, level))
    {
      ExistingKeepsAligned(r, c, s, level);
    }
  }

  lemma SendingKeepsAligned(r: Range, seg: DataSeg, rdb: bool, kind: SentType)
    requires Aligned(r)
    ensures Aligned(r.IncreaseSent(seg, rdb, kind))
  {
  }

  lemma InsideKeepsAligned(r: Range, c: Call, s: int, level: nat, ends: bool)
    requires Aligned(r)
    ensures Aligned(CountInside(r, c, s, level, ends))
  {
    hide Range.Info;
    if c.itype == InsertSent {
      var finished := if ends && c.seg.flags.fin then r.(fin := 1) else r;
      SendingKeepsAligned(finished, c.seg, RdbAt(c.seg, s), if level == 0 then StRtr else StNone);
      hide Range.IncreaseSent;
    }
  }

  lemma ExistingKeepsAligned(r: Range, c: Call, s: int, level: nat)
    requires Aligned(r)
    ensures Aligned(CountExisting(r, c, s, level))
  {
    hide Range.Info;
    if c.itype == InsertSent {
      var kind := if level > 0 then StNone else if c.seg.retrans then StRtr else StPkt;
      SendingKeepsAligned(r, c.seg, RdbAt(c.seg, s), kind);
      hide Range.IncreaseSent;
    }
  }

  // ---------- the in-order mark ----------

  /** The entry's first reception was not marked as in sequence. */
  ghost predicate Unflagged(r: Range) {
    !r.appLayerLatencyTstamp
  }

  lemma UnflaggedKept(c: Call)
    requires c.itype == InsertRecv ==> !c.seg.inSequence
    ensures KeptBySplit(Unflagged) && KeptByCount(Unflagged, c)
  {
    forall r: Range, s: int, level: nat, ends: bool | Unflagged(r)
      ensures Unflagged(CountInside(r, c, s, level, ends))
    {
      CountKeepsUnflagged(r, c, s, level, ends);
    }
    forall r: Range, s: int, level: nat | Unflagged(r)
      ensures Unflagged(CountExisting(r, c, s, level))
    {
      CountKeepsUnflagged(r, c, s, level, true);
    }
  }

  lemma CountKeepsUnflagged(r: Range, c: Call, s: int, level: nat, ends: bool)
    requires Unflagged(r) && (c.itype == InsertRecv ==> !c.seg.inSequence)
    ensures Unflagged(CountInside(r, c, s, level, ends)) && Unflagged(CountExisting(r, c, s, level))
  {
    hide Range.Info;
  }

  // ---------- without bundling, every transmission but the first is a retransmission ----------

  /** The counters that `calculateRealLoss` combines agree on how often the bytes were sent again. */
  ghost predicate Plain(r: Range) {
    && r.rdbCount == 0
    && (if r.Empty() then r.dataRetransCount == 0 else r.dataSentCount == r.dataRetransCount + 1)
  }

  /** The same with bundling: each transmission but the first was counted as a retransmission or as a bundle. */
  ghost predicate Agrees(r: Range) {
    if r.Empty() then r.dataRetransCount == 0 && r.rdbCount == 0 else r.dataSentCount == r.dataRetransCount + r.rdbCount + 1
  }

  predicate PlainCall(c: Call) {
    c.itype == InsertSent ==> c.seg.retrans && !c.seg.isRdb
  }

  lemma PlainKept(c: Call)
    requires PlainCall(c)
    ensures KeptBySplit(Plain) && KeptByCount(Plain, c)
  {
    forall r: Range, s: int, level: nat, ends: bool | Plain(r) && !r.Empty()
      ensures Plain(CountInside(r, c, s, level, ends))
    {
      CountKeepsPlain(r, c, s, level, ends);
    }
    forall r: Range, s: int, level: nat | Plain(r) && !r.Empty()
      ensures Plain(CountExisting(r, c, s, level))
    {
      CountKeepsPlain(r, c, s, level, true);
    }
  }

  lemma CountKeepsPlain(r: Range, c: Call, s: int, level: nat, ends: bool)
    requires PlainCall(c) && Plain(r) && !r.Empty()
    ensures Plain(CountInside(r, c, s, level, ends)) && Plain(CountExisting(r, c, s, level))
  {
    hide Range.Info;
  }
}
