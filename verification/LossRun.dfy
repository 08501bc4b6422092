/** The loss report at the end of a whole run: `calculateLossGroupedByInterval` gets entries from which
    no bucket can report more losses than transmissions. */
module LossRun {
  import opened Common
  import opened OrderedMap
  import opened ByteRanges
  import opened Index
  import opened ByteView
  import opened Insertion
  import opened Accounting
  import opened Entries
  import opened Registration
  import opened SendRun
  import opened SendTheorems
  import opened Acks
  import opened ReceiveRun
  import opened WholeRun
  import opened LossIntervals

  /** The entries in map order. */
  function InOrder(m: Ranges): seq<Range>
    decreases |m|
  {
    if m == map[] then [] else
      var k := FirstKey(m).value;
      [m[k]] + InOrder(m - {k})
  }

  /** The sequence lists every entry once. */
  lemma {:induction false} InOrderLists(m: Ranges)
    ensures |InOrder(m)| == |m|
    ensures forall r :: r in InOrder(m) <==> exists k :: k in m && r == m[k]
    decreases |m|
  {
    if m != map[] {
      var k := FirstKey(m).value;
      var rest := m - {k};
      InOrderLists(rest);
      hide FirstKey, InOrder;
      assert InOrder(m) == [m[k]] + InOrder(rest) by { FirstInOrder(m); }
      assert |rest.Keys| == |m.Keys| - 1 by { assert rest.Keys == m.Keys - {k}; }
      forall r
        ensures r in InOrder(m) <==> exists j :: j in m && r == m[j]
      {
        if r in InOrder(rest) {
          var j :| j in rest && r == rest[j];
          assert j in m && r == m[j];
        }
        if j :| j in m && r == m[j] {
          assert j == k || (j in rest && rest[j] == r);
        }
      }
    }
  }

  lemma FirstInOrder(m: Ranges)
    requires m != map[]
    ensures var k := FirstKey(m).value; InOrder(m) == [m[k]] + InOrder(m - {k})
  {
  }

  ghost predicate TimedIn(b: Buckets, r: Range) {
    forall j :: 0 <= j < |r.sentTstampPcap| ==> b.Covers(r.sentTstampPcap[j].time)
  }

  /** The property of an entry that all its transmissions fall into buckets. */
  ghost function Timed(b: Buckets): Range -> bool {
    (r: Range) => TimedIn(b, r)
  }

  lemma TimedKept(b: Buckets, c: Call)
    requires c.itype == InsertSent ==> b.Covers(c.seg.tstampPcap)
    ensures KeptBySplit(Timed(b)) && KeptByCount(Timed(b), c)
  {
    forall r: Range, at: int | r.Sized() && r.startSeq < at < r.endSeq && TimedIn(b, r)
      ensures TimedIn(b, r.Left(at)) && TimedIn(b, r.Right(at))
    {
    }
    forall r: Range, s: int, level: nat, ends: bool | TimedIn(b, r)
      ensures TimedIn(b, CountInside(r, c, s, level, ends))
    {
      CountTimed(b, r, c, s, level, ends);
    }
    forall r: Range, s: int, level: nat | TimedIn(b, r)
      ensures TimedIn(b, CountExisting(r, c, s, level))
    {
      CountTimed(b, r, c, s, level, true);
    }
  }

  lemma CountTimed(b: Buckets, r: Range, c: Call, s: int, level: nat, ends: bool)
    requires TimedIn(b, r) && (c.itype == InsertSent ==> b.Covers(c.seg.tstampPcap))
    ensures TimedIn(b, CountInside(r, c, s, level, ends)) && TimedIn(b, CountExisting(r, c, s, level))
  {
    hide Buckets.Covers;
  }

  lemma DataTimed(b: Buckets, st: SendState, f: Front, firstSeq: int, g: DataSeg)
    requires SendInv(st, f) && AllEntries(st.ranges, Timed(b)) && GapFreeStep(f, g) && g.payloadSize > 0
    requires b.Covers(g.tstampPcap)
    ensures var r := SendOne(st, firstSeq, g); r.Running? ==> AllEntries(r.state.ranges, Timed(b))
  {
    hide Insert, NewTail, KeptBySplit, KeptByCount, TimedIn;
    DataIsReady(st, f, firstSeq, g);
    var m, c, base := st.ranges, CallFor(st, firstSeq, g), f.Base();
    TimedKept(b, c);
    if g.endSeq > base {
      ReadyTail(m, c, g.startSeq, g.endSeq, base);
      TailTimed(b, m, c, base, g.endSeq);
    }
    InsertKeeps(m, c, g.startSeq, g.endSeq, 0, base, Timed(b));
  }

  lemma TailTimed(b: Buckets, m: Ranges, c: Call, base: int, e: int)
    requires Ready(m, c, base, e, base) && AllEntries(m, Timed(b)) && c.itype == InsertSent && b.Covers(c.seg.tstampPcap)
    ensures TimedIn(b, NewTail(m, c, base, e))
  {
    hide Buckets.Covers;
    if base in m {
      assert Timed(b)(m[base]);
    }
  }

  lemma ControlTimed(b: Buckets, m: Ranges, c: Call, s: int)
    requires Keyed(m) && c.itype == InsertSent && AllEntries(m, Timed(b)) && b.Covers(c.seg.tstampPcap)
    ensures AllEntries(InsertEmpty(m, c, s), Timed(b))
  {
    hide Buckets.Covers;
    var k := ControlKey(m, c.seg, s);
    if k in m {
      assert Timed(b)(m[k]);
    }
    assert TimedIn(b, InsertEmpty(m, c, s)[k]);
  }

  /** The packets of the trace are not older than the first bucket. */
  ghost predicate SentInBuckets(b: Buckets, segs: seq<DataSeg>) {
    forall i :: 0 <= i < |segs| ==> b.Covers(segs[i].tstampPcap)
  }

  lemma {:induction false} SendsTimed(b: Buckets, firstSeq: int, segs: seq<DataSeg>)
    requires GapFree(segs) && Packets(segs) && SentInBuckets(b, segs)
    ensures var r := SendAll(firstSeq, segs); r.Running? ==> AllEntries(r.state.ranges, Timed(b))
  {
    hide SendInv, GapFreeStep, NextFront, AllEntries, Insert, InsertEmpty, Timed, Buckets.Covers;
    if segs == [] {
      EmptyStart(firstSeq);
      NoEntries(Timed(b));
    } else {
      var n := |segs| - 1;
      GapFreeInit(segs);
      SendsTimed(b, firstSeq, segs[..n]);
      SendRefinesCounter(firstSeq, segs[..n]);
      var r := SendAll(firstSeq, segs[..n]);
      if r.Running? {
        if segs[n].payloadSize > 0 {
          DataTimed(b, r.state, FrontOf(segs[..n]), firstSeq, segs[n]);
        } else {
          ControlTimed(b, r.state.ranges, CallFor(r.state, firstSeq, segs[n]), segs[n].startSeq);
        }
      }
    }
  }

  lemma NoEntries(p: Range -> bool)
    ensures AllEntries(map[], p)
  {
  }

  /** At the end of every run whose packets are not older than the first bucket: the report runs into no
      bucket out of bounds, and in every bucket lost ranges, lost bytes and lost new bytes are each at
      most what was sent. */
  lemma FinalBucketsSound(t: Trace, st: SendState, m1: Ranges, m: Ranges, b: Buckets, i: nat)
    requires Ends(t, st, m1, m) && SentInBuckets(b, t.sent)
    ensures AllSound(b, InOrder(m)) && Bucket(b, InOrder(m), i).Sound()
  {
    hide SendAll, GapFree, FrontOf, ReceiveAll, ReceiveState, AckState, At, Total, KeptBySplit, KeptByCount, Timed, Ends, AllSound;
    assert SendPhase(t, st) by { EndsSend(t, st, m1, m); }
    SendsTimed(b, t.firstSeq, t.sent);
    forall g: DataSeg
      ensures KeptByCount(Timed(b), RecvCall(FrontOf(t.sent).last, t.firstSeq, g))
    {
      TimedKept(b, RecvCall(FrontOf(t.sent).last, t.firstSeq, g));
    }
    TimedKept(b, RecvCall(0, 0, t.sent[0]));
    TimedBlind(b);
    FinalEntries(t, st, m1, m, Timed(b));
    FinalEntriesSound(t, st, m1, m);
    EntriesInOrder(b, m);
    BucketSound(b, InOrder(m), i);
  }

  lemma TimedBlind(b: Buckets)
    ensures forall r: Range, r': Range :: AckOnly(r, r') && Timed(b)(r) ==> Timed(b)(r')
  {
  }

  lemma EntriesInOrder(b: Buckets, m: Ranges)
    requires AllEntries(m, Timed(b)) && AllEntries(m, LostWithinSent)
    ensures AllSound(b, InOrder(m))
  {
    hide LostWithinSent, InOrder;
    InOrderLists(m);
    var s := InOrder(m);
    forall i | 0 <= i < |s|
      ensures TimesIn(b, SentTimes(s[i].sentTstampPcap)) && LostWithinSent(s[i]) && TimesIn(b, LostTimes(s[i].lostTstampsTcp))
    {
      assert s[i] in s;
      var k :| k in m && s[i] == m[k];
      assert Timed(b)(m[k]);
      LostInBuckets(b, m[k]);
    }
  }
}
