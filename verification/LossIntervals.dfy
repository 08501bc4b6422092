/** `calculateLossGroupedByInterval`: transmissions and losses sorted into time buckets, and why no
    bucket reports more losses than transmissions. Bucket values are naturals instead of doubles. */
module LossIntervals {
  import opened Common
  import opened ByteRanges
  import opened Entries

  /** One bucket of the report: losses, and the totals they are compared with. */
  datatype LossInterval = LossInterval(
    cntBytes: nat, allBytes: nat, newBytes: nat,
    totCntBytes: nat, totAllBytes: nat, totNewBytes: nat)
  {
    /** `operator+=` adds the losses only. */
    function Plus(rhs: LossInterval): LossInterval {
      this.(cntBytes := cntBytes + rhs.cntBytes, allBytes := allBytes + rhs.allBytes, newBytes := newBytes + rhs.newBytes)
    }

    function AddTotal(ranges: nat, all: nat, fresh': nat): LossInterval {
      this.(totCntBytes := totCntBytes + ranges, totAllBytes := totAllBytes + all, totNewBytes := totNewBytes + fresh')
    }

    /** Nothing was lost that was not sent. */
    predicate Sound() {
      cntBytes <= totCntBytes && allBytes <= totAllBytes && newBytes <= totNewBytes
    }
  }

  const NO_LOSS := LossInterval(0, 0, 0, 0, 0, 0)

  /** The width of a bucket and the start of the first one, both in milliseconds. */
  datatype Buckets = Buckets(firstTstamp: int, width: nat) {
    function Millis(t: TimeVal): int {
      t.sec * 1000 + t.usec / 1000
    }

    predicate Covers(t: TimeVal) {
      width > 0 && firstTstamp <= Millis(t)
    }

    /** `intervalIdx`. */
    function Index(t: TimeVal): nat
      requires Covers(t)
    {
      (Millis(t) - firstTstamp) / width
    }

    /** Time `t`, in microseconds, lies in bucket `i`: at or after its start, and before the start of the next one. */
    predicate Holds(t: TimeVal, i: nat) {
      (firstTstamp + i * width) * 1000 <= t.Micros() < (firstTstamp + (i + 1) * width) * 1000
    }
  }

  /** The computed index is that of the one bucket that the time lies in. */
  lemma IndexIsExact(b: Buckets, t: TimeVal, i: nat)
    requires b.Covers(t)
    ensures b.Holds(t, i) <==> b.Index(t) == i
  {
    var d := b.Millis(t) - b.firstTstamp;
    MillisInMicros(t, b.firstTstamp + i * b.width);
    MillisInMicros(t, b.firstTstamp + (i + 1) * b.width);
    QuotientIs(d, b.width, i);
  }

  lemma MillisInMicros(t: TimeVal, x: int)
    ensures x * 1000 <= t.Micros() <==> x <= t.sec * 1000 + t.usec / 1000
  {
  }

  lemma QuotientIs(d: nat, w: nat, i: nat)
    requires w > 0
    ensures i * w <= d < (i + 1) * w <==> d / w == i
  {
    var q := d / w;
    assert q * w <= d < (q + 1) * w;
    if i < q {
      assert (i + 1) * w <= q * w;
    } else if q < i {
      assert (q + 1) * w <= i * w;
    }
  }

  /** No transmission of the entries is older than the first bucket. */
  ghost predicate InBuckets(b: Buckets, entries: seq<Range>) {
    forall i :: 0 <= i < |entries| ==> TimesIn(b, SentTimes(entries[i].sentTstampPcap))
  }

  ghost predicate TimesIn(b: Buckets, times: seq<TimeVal>) {
    forall j :: 0 <= j < |times| ==> b.Covers(times[j])
  }

  // ---------- what each bucket should hold ----------

  /** How many of the times fall into bucket `i`. */
  function Tally(b: Buckets, times: seq<TimeVal>, i: nat): nat
    requires TimesIn(b, times)
  {
    if times == [] then 0
    else Tally(b, times[..|times| - 1], i) + (if b.Holds(times[|times| - 1], i) then 1 else 0)
  }

  /** The first transmission as new data of the entry, if it falls into bucket `i`. */
  function NewSize(b: Buckets, r: Range, i: nat): nat
    requires TimesIn(b, SentTimes(r.sentTstampPcap))
  {
    if |r.sentTstampPcap| > 0 && r.packetSentCount > 0 && b.Holds(SentTimes(r.sentTstampPcap)[0], i)
    then r.originalPayloadSize else 0
  }

  /** The loss of that first transmission: the oldest loss still listed is the first transmission itself. */
  predicate NewLost(r: Range) {
    |r.lostTstampsTcp| > 0 && |r.sentTstampPcap| > 0 && r.packetSentCount > 0
    && r.lostTstampsTcp[0].time == r.sentTstampPcap[0].time
  }

  /** What the losses of one entry add to bucket `i`. */
  function LostPart(b: Buckets, r: Range, i: nat): LossInterval
    requires TimesIn(b, SentTimes(r.sentTstampPcap)) && TimesIn(b, LostTimes(r.lostTstampsTcp))
  {
    var lost := Tally(b, LostTimes(r.lostTstampsTcp), i);
    LossInterval(lost, lost * r.byteCount, if NewLost(r) then NewSize(b, r, i) else 0, 0, 0, 0)
  }

  /** The complete content of bucket `i`. */
  function Bucket(b: Buckets, entries: seq<Range>, i: nat): LossInterval
    requires InBuckets(b, entries) && forall k :: 0 <= k < |entries| ==> TimesIn(b, LostTimes(entries[k].lostTstampsTcp))
  {
    if entries == [] then NO_LOSS
    else
      var before := Bucket(b, entries[..|entries| - 1], i);
      var r := entries[|entries| - 1];
      var sent := Tally(b, SentTimes(r.sentTstampPcap), i);
      before.Plus(LostPart(b, r, i))
            .AddTotal(sent, sent * r.byteCount, NewSize(b, r, i))
  }

  // ---------- soundness ----------

  /** Fewer times, counted with multiplicity, give no larger tally in any bucket. */
  lemma {:induction false} TallyMonotone(b: Buckets, few: seq<TimeVal>, many: seq<TimeVal>, i: nat)
    requires TimesIn(b, few) && TimesIn(b, many) && multiset(few) <= multiset(many)
    ensures Tally(b, few, i) <= Tally(b, many, i)
    decreases |few|
  {
    if few != [] {
      var n := |few| - 1;
      var t := few[n];
      assert few == few[..n] + [t];
      assert t in multiset(few);
      assert t in many;
      var k :| 0 <= k < |many| && many[k] == t;
      var rest := many[..k] + many[k + 1..];
      WithoutOne(many, k);
      WithoutOne(few, n);
      assert few[..n] + few[n + 1..] == few[..n];
      Cancel(multiset(few[..n]), multiset(rest), t);
      TallyMonotone(b, few[..n], rest, i);
      TallyWithout(b, many, k, i);
    }
  }

  lemma Cancel(a: multiset<TimeVal>, c: multiset<TimeVal>, t: TimeVal)
    requires a + multiset{t} <= c + multiset{t}
    ensures a <= c
  {
    forall x
      ensures a[x] <= c[x]
    {
      assert (a + multiset{t})[x] <= (c + multiset{t})[x];
    }
  }

  lemma WithoutOne(s: seq<TimeVal>, k: nat)
    requires k < |s|
    ensures multiset(s) == multiset(s[..k] + s[k + 1..]) + multiset{s[k]}
  {
    assert s == s[..k] + [s[k]] + s[k + 1..];
  }

  lemma {:induction false} TallyWithout(b: Buckets, times: seq<TimeVal>, k: nat, i: nat)
    requires TimesIn(b, times) && k < |times|
    ensures Tally(b, times, i) == Tally(b, times[..k] + times[k + 1..], i) + (if b.Holds(times[k], i) then 1 else 0)
    decreases |times|
  {
    var n := |times| - 1;
    var rest := times[..k] + times[k + 1..];
    if k < n {
      TallyWithout(b, times[..n], k, i);
      assert times[..n][..k] + times[..n][k + 1..] == rest[..|rest| - 1];
      assert rest[|rest| - 1] == times[n];
    } else {
      assert rest == times[..n];
    }
  }

  lemma LostInBuckets(b: Buckets, r: Range)
    requires LostWithinSent(r) && TimesIn(b, SentTimes(r.sentTstampPcap))
    ensures TimesIn(b, LostTimes(r.lostTstampsTcp))
  {
    var lost, sent := LostTimes(r.lostTstampsTcp), SentTimes(r.sentTstampPcap);
    forall j | 0 <= j < |lost|
      ensures b.Covers(lost[j])
    {
      assert lost[j] in multiset(lost);
      assert lost[j] in sent;
    }
  }

  ghost predicate AllSound(b: Buckets, entries: seq<Range>) {
    && InBuckets(b, entries)
    && (forall i :: 0 <= i < |entries| ==> LostWithinSent(entries[i]))
    && (forall i :: 0 <= i < |entries| ==> TimesIn(b, LostTimes(entries[i].lostTstampsTcp)))
  }

  /** In every bucket, lost ranges, lost bytes and lost new bytes are each at most what was sent. */
  lemma {:induction false} BucketSound(b: Buckets, entries: seq<Range>, i: nat)
    requires AllSound(b, entries)
    ensures Bucket(b, entries, i).Sound()
  {
    if entries != [] {
      var n := |entries| - 1;
      var r := entries[n];
      BucketSound(b, entries[..n], i);
      TallyMonotone(b, LostTimes(r.lostTstampsTcp), SentTimes(r.sentTstampPcap), i);
      Scale(Tally(b, LostTimes(r.lostTstampsTcp), i), Tally(b, SentTimes(r.sentTstampPcap), i), r.byteCount);
    }
  }

  lemma Scale(a: nat, c: nat, x: nat)
    requires a <= c
    ensures a * x <= c * x
  {
  }

  // ---------- all buckets together ----------

  /** The tally of a bucket counts the times that lie in it. */
  lemma {:induction false} TallyCounts(b: Buckets, times: seq<TimeVal>, i: nat)
    requires TimesIn(b, times)
    ensures Tally(b, times, i) == |set j | 0 <= j < |times| && b.Holds(times[j], i)|
  {
    var all := set j | 0 <= j < |times| && b.Holds(times[j], i);
    if times == [] {
      assert all == {};
    } else {
      var n := |times| - 1;
      hide Buckets.Holds, Buckets.Covers;
      TallyCounts(b, times[..n], i);
      var before := set j | 0 <= j < |times[..n]| && b.Holds(times[..n][j], i);
      assert before == all - {n};
    }
  }

  function TallySum(b: Buckets, times: seq<TimeVal>, n: nat): nat
    requires TimesIn(b, times)
  {
    if n == 0 then 0 else TallySum(b, times, n - 1) + Tally(b, times, n - 1)
  }

  lemma {:induction false} TallySumStep(b: Buckets, times: seq<TimeVal>, n: nat)
    requires TimesIn(b, times) && times != []
    ensures var k := |times| - 1; TallySum(b, times, n) == TallySum(b, times[..k], n) + (if b.Index(times[k]) < n then 1 else 0)
  {
    if n > 0 {
      TallySumStep(b, times, n - 1);
      IndexIsExact(b, times[|times| - 1], n - 1);
    }
  }

  /** Every time lies in exactly one bucket. */
  lemma {:induction false} TallySumAll(b: Buckets, times: seq<TimeVal>, n: nat)
    requires TimesIn(b, times) && forall j :: 0 <= j < |times| ==> b.Index(times[j]) < n
    ensures TallySum(b, times, n) == |times|
  {
    hide Buckets.Index;
    if times == [] {
      TallySumNone(b, n);
    } else {
      TallySumAll(b, times[..|times| - 1], n);
      TallySumStep(b, times, n);
    }
  }

  lemma {:induction false} TallySumNone(b: Buckets, n: nat)
    ensures TallySum(b, [], n) == 0
  {
    if n > 0 {
      TallySumNone(b, n - 1);
    }
  }

  /** The sum of the first `n` buckets. */
  function AllBuckets(b: Buckets, entries: seq<Range>, n: nat): LossInterval
    requires AllSound(b, entries)
  {
    if n == 0 then NO_LOSS else Merged(AllBuckets(b, entries, n - 1), Bucket(b, entries, n - 1))
  }

  /** The size of the first transmission of an entry as new data. */
  function FirstSize(r: Range): nat {
    if |r.sentTstampPcap| > 0 && r.packetSentCount > 0 then r.originalPayloadSize else 0
  }

  /** What one entry contributes to the report. */
  function Share(r: Range): LossInterval {
    LossInterval(|r.lostTstampsTcp|, |r.lostTstampsTcp| * r.byteCount, if NewLost(r) then r.originalPayloadSize else 0,
                 |r.sentTstampPcap|, |r.sentTstampPcap| * r.byteCount, FirstSize(r))
  }

  function Shares(entries: seq<Range>): LossInterval {
    if entries == [] then NO_LOSS else Merged(Shares(entries[..|entries| - 1]), Share(entries[|entries| - 1]))
  }

  /** The part of an entry's share that lies in the first `n` buckets. */
  function SharePart(b: Buckets, r: Range, n: nat): LossInterval
    requires TimesIn(b, SentTimes(r.sentTstampPcap)) && TimesIn(b, LostTimes(r.lostTstampsTcp))
  {
    var sent, lost := TallySum(b, SentTimes(r.sentTstampPcap), n), TallySum(b, LostTimes(r.lostTstampsTcp), n);
    var early := |r.sentTstampPcap| > 0 && b.Index(SentTimes(r.sentTstampPcap)[0]) < n;
    LossInterval(lost, lost * r.byteCount, if NewLost(r) && early then r.originalPayloadSize else 0,
                 sent, sent * r.byteCount, if early then FirstSize(r) else 0)
  }

  /** A bucket with what one more entry adds to it. */
  function WithEntry(b: Buckets, r: Range, i: nat, before: LossInterval): LossInterval
    requires TimesIn(b, SentTimes(r.sentTstampPcap)) && TimesIn(b, LostTimes(r.lostTstampsTcp))
  {
    var sent := Tally(b, SentTimes(r.sentTstampPcap), i);
    before.Plus(LostPart(b, r, i)).AddTotal(sent, sent * r.byteCount, NewSize(b, r, i))
  }

  lemma SharePartStep(b: Buckets, r: Range, i: nat)
    requires TimesIn(b, SentTimes(r.sentTstampPcap)) && TimesIn(b, LostTimes(r.lostTstampsTcp))
    ensures SharePart(b, r, i + 1) == WithEntry(b, r, i, SharePart(b, r, i))
  {
    hide Buckets.Index, Buckets.Holds, Buckets.Covers, Tally, NewSize;
    NewSizeAt(b, r);
    var sent, lost := SentTimes(r.sentTstampPcap), LostTimes(r.lostTstampsTcp);
    Times(TallySum(b, sent, i), Tally(b, sent, i), r.byteCount);
    Times(TallySum(b, lost, i), Tally(b, lost, i), r.byteCount);
  }

  lemma Times(x: nat, y: nat, z: nat)
    ensures (x + y) * z == x * z + y * z
  {
  }

  /** The last entry's part of the first `n` buckets. */
  lemma {:induction false} AllBucketsStep(b: Buckets, entries: seq<Range>, n: nat)
    requires AllSound(b, entries) && entries != []
    ensures var k := |entries| - 1;
      AllSound(b, entries[..k]) && AllBuckets(b, entries, n) == Merged(AllBuckets(b, entries[..k], n), SharePart(b, entries[k], n))
  {
    hide Tally, NewSize, LostPart, Buckets.Index, Buckets.Holds, LostWithinSent;
    if n == 0 {
      NoPart(b, entries[|entries| - 1]);
    } else {
      AllBucketsStep(b, entries, n - 1);
      SharePartStep(b, entries[|entries| - 1], n - 1);
      PartHasNoTotals(b, entries[|entries| - 1], n - 1);
      hide SharePart;
    }
  }

  lemma NoPart(b: Buckets, r: Range)
    requires TimesIn(b, SentTimes(r.sentTstampPcap)) && TimesIn(b, LostTimes(r.lostTstampsTcp))
    ensures SharePart(b, r, 0) == NO_LOSS
  {
  }

  /** No transmission lies in bucket `n` or later. */
  ghost predicate NoneSentFrom(b: Buckets, entries: seq<Range>, n: nat)
    requires InBuckets(b, entries)
  {
    forall k, j :: 0 <= k < |entries| && 0 <= j < |entries[k].sentTstampPcap| ==> b.Index(SentTimes(entries[k].sentTstampPcap)[j]) < n
  }

  /** Nothing is counted twice or left out: all buckets together hold each entry's losses and transmissions
      once, each with the size of the entry. */
  lemma {:induction false} BucketsAddUp(b: Buckets, entries: seq<Range>, n: nat)
    requires AllSound(b, entries) && NoneSentFrom(b, entries, n)
    ensures AllBuckets(b, entries, n) == Shares(entries)
  {
    hide Buckets.Index, LostWithinSent;
    if entries == [] {
      NothingInBuckets(b, n);
    } else {
      var k := |entries| - 1;
      var r := entries[k];
      BucketsAddUp(b, entries[..k], n);
      AllBucketsStep(b, entries, n);
      LostIndexBelow(b, r, n);
      TallySumAll(b, SentTimes(r.sentTstampPcap), n);
      TallySumAll(b, LostTimes(r.lostTstampsTcp), n);
      assert SharePart(b, r, n) == Share(r);
    }
  }

  lemma {:induction false} NothingInBuckets(b: Buckets, n: nat)
    ensures AllSound(b, []) && AllBuckets(b, [], n) == NO_LOSS
  {
    NoBuckets(b);
    hide Bucket, AllSound;
    if n > 0 {
      NothingInBuckets(b, n - 1);
    }
  }

  // ---------- the code ----------

  /** The value a bucket vector holds at `i`; the vectors grow on demand, with zeros. */
  function Get(s: seq<nat>, i: nat): nat {
    if i < |s| then s[i] else 0
  }

  function GetLoss(s: seq<LossInterval>, i: nat): LossInterval {
    if i < |s| then s[i] else NO_LOSS
  }

  /** `while (bucket_idx >= v.size()) v.push_back(0)`. */
  method Grow<T>(v: seq<T>, idx: nat, zero: T) returns (r: seq<T>)
    ensures |r| == Max(|v|, idx + 1) && v <= r
    ensures forall i :: |v| <= i < |r| ==> r[i] == zero
  {
    r := v;
    while idx >= |r|
      invariant v <= r && |r| <= Max(|v|, idx + 1)
      invariant forall i :: |v| <= i < |r| ==> r[i] == zero
    {
      r := r + [zero];
    }
  }

  /** Grows a vector if needed and adds to one of its buckets. */
  method Add(v: seq<nat>, idx: nat, x: nat) returns (r: seq<nat>)
    ensures |r| == Max(|v|, idx + 1)
    ensures forall i: nat :: Get(r, i) == Get(v, i) + (if i == idx then x else 0)
  {
    r := Grow(v, idx, 0);
    r := r[idx := r[idx] + x];
  }

  method AddLoss(v: seq<LossInterval>, idx: nat, x: LossInterval) returns (r: seq<LossInterval>)
    ensures |r| == Max(|v|, idx + 1)
    ensures forall i: nat :: GetLoss(r, i) == if i == idx then GetLoss(v, i).Plus(x) else GetLoss(v, i)
  {
    r := Grow(v, idx, NO_LOSS);
    r := r[idx := r[idx].Plus(x)];
  }

  lemma TallyStep(b: Buckets, times: seq<TimeVal>, j: nat, i: nat, bytes: nat)
    requires TimesIn(b, times) && j < |times|
    ensures Tally(b, times[..j + 1], i) == Tally(b, times[..j], i) + (if i == b.Index(times[j]) then 1 else 0)
    ensures Tally(b, times[..j + 1], i) * bytes == Tally(b, times[..j], i) * bytes + (if i == b.Index(times[j]) then bytes else 0)
  {
    assert times[..j + 1][..j] == times[..j];
    IndexIsExact(b, times[j], i);
  }

  /** The bucket of an entry's first transmission, found by its index. */
  lemma NewSizeAt(b: Buckets, r: Range)
    requires TimesIn(b, SentTimes(r.sentTstampPcap))
    ensures forall i: nat :: NewSize(b, r, i) ==
              (if |r.sentTstampPcap| > 0 && r.packetSentCount > 0 && b.Index(SentTimes(r.sentTstampPcap)[0]) == i
               then r.originalPayloadSize else 0)
  {
    hide Buckets.Index, Buckets.Holds, Buckets.Covers;
    if |r.sentTstampPcap| > 0 {
      forall i: nat
        ensures b.Holds(SentTimes(r.sentTstampPcap)[0], i) <==> b.Index(SentTimes(r.sentTstampPcap)[0]) == i
      {
        IndexIsExact(b, SentTimes(r.sentTstampPcap)[0], i);
      }
    }
  }

  /** The first loop, for one entry: every transmission is placed in its bucket. */
  method PlaceSent(b: Buckets, r: Range, tc0: seq<nat>, tb0: seq<nat>, tn0: seq<nat>)
    returns (tc: seq<nat>, tb: seq<nat>, tn: seq<nat>)
    requires TimesIn(b, SentTimes(r.sentTstampPcap)) && |tc0| == |tb0| == |tn0|
    ensures |tc| == |tb| == |tn| >= |tc0|
    ensures forall j :: 0 <= j < |r.sentTstampPcap| ==> b.Index(SentTimes(r.sentTstampPcap)[j]) < |tc|
    ensures forall i: nat :: Get(tc, i) == Get(tc0, i) + Tally(b, SentTimes(r.sentTstampPcap), i)
    ensures forall i: nat :: Get(tb, i) == Get(tb0, i) + Tally(b, SentTimes(r.sentTstampPcap), i) * r.byteCount
    ensures forall i: nat :: Get(tn, i) == Get(tn0, i) + NewSize(b, r, i)
  {
    hide Get, Tally, NewSize, Buckets.Index, Buckets.Holds;
    NewSizeAt(b, r);
    tc, tb, tn := tc0, tb0, tn0;
    var times := SentTimes(r.sentTstampPcap);
    if |times| > 0 && r.packetSentCount > 0 {
      var idx := b.Index(times[0]);
      tc := Add(tc, idx, 0);
      tb := Add(tb, idx, 0);
      tn := Add(tn, idx, r.originalPayloadSize);
    }
    ghost var tn1 := tn;
    TallyNone(b, times);
    for j := 0 to |times|
      invariant |tc| == |tb| == |tn| >= |tc0|
      invariant forall k :: 0 <= k < j ==> b.Index(times[k]) < |tc|
      invariant forall i: nat :: Get(tc, i) == Get(tc0, i) + Tally(b, times[..j], i)
      invariant forall i: nat :: Get(tb, i) == Get(tb0, i) + Tally(b, times[..j], i) * r.byteCount
      invariant forall i: nat :: Get(tn, i) == Get(tn1, i)
    {
      var idx := b.Index(times[j]);
      tc := Add(tc, idx, 1);
      tb := Add(tb, idx, r.byteCount);
      tn := Add(tn, idx, 0);
      forall i: nat
        ensures Tally(b, times[..j + 1], i) == Tally(b, times[..j], i) + (if i == idx then 1 else 0)
        ensures Tally(b, times[..j + 1], i) * r.byteCount == Tally(b, times[..j], i) * r.byteCount + (if i == idx then r.byteCount else 0)
      {
        TallyStep(b, times, j, i, r.byteCount);
      }
    }
    assert times[..|times|] == times;
  }

  lemma TallyNone(b: Buckets, times: seq<TimeVal>)
    ensures forall i: nat :: Tally(b, times[..0], i) == 0
  {
  }

  /** The second loop, for one entry: every loss is placed in its bucket. */
  method PlaceLost(b: Buckets, r: Range, loss0: seq<LossInterval>, ghost limit: nat) returns (loss: seq<LossInterval>)
    requires TimesIn(b, SentTimes(r.sentTstampPcap)) && TimesIn(b, LostTimes(r.lostTstampsTcp))
    requires |r.lostTstampsTcp| > 0 ==> |r.sentTstampPcap| > 0
    requires |loss0| <= limit
    requires forall j :: 0 <= j < |r.lostTstampsTcp| ==> b.Index(LostTimes(r.lostTstampsTcp)[j]) < limit
    requires NewLost(r) ==> b.Index(SentTimes(r.sentTstampPcap)[0]) < limit
    ensures |loss0| <= |loss| <= limit
    ensures forall i: nat :: GetLoss(loss, i) == GetLoss(loss0, i).Plus(LostPart(b, r, i))
  {
    hide GetLoss, Tally, NewSize, Buckets.Index, Buckets.Holds;
    NewSizeAt(b, r);
    loss := loss0;
    var lost, sent := LostTimes(r.lostTstampsTcp), SentTimes(r.sentTstampPcap);
    if |lost| > 0 && r.packetSentCount > 0 && r.lostTstampsTcp[0].time == r.sentTstampPcap[0].time {
      var idx := b.Index(sent[0]);
      loss := AddLoss(loss, idx, LossInterval(0, 0, r.originalPayloadSize, 0, 0, 0));
    }
    ghost var loss1 := loss;
    TallyNone(b, lost);
    for j := 0 to |lost|
      invariant |loss0| <= |loss| <= limit
      invariant forall i: nat :: GetLoss(loss, i) == GetLoss(loss1, i).Plus(LostSoFar(b, r, i, j))
    {
      var idx := b.Index(lost[j]);
      loss := AddLoss(loss, idx, LossInterval(1, r.byteCount, 0, 0, 0, 0));
      forall i: nat
        ensures LostSoFar(b, r, i, j + 1)
             == if i == idx then LostSoFar(b, r, i, j).Plus(LossInterval(1, r.byteCount, 0, 0, 0, 0)) else LostSoFar(b, r, i, j)
      {
        TallyStep(b, lost, j, i, r.byteCount);
      }
    }
    assert lost[..|lost|] == lost;
  }

  function LostSoFar(b: Buckets, r: Range, i: nat, j: nat): LossInterval
    requires TimesIn(b, LostTimes(r.lostTstampsTcp)) && j <= |r.lostTstampsTcp|
  {
    var n := Tally(b, LostTimes(r.lostTstampsTcp)[..j], i);
    LossInterval(n, n * r.byteCount, 0, 0, 0, 0)
  }

  function LossesOnly(x: LossInterval): LossInterval {
    x.(totCntBytes := 0, totAllBytes := 0, totNewBytes := 0)
  }

  lemma BucketStep(b: Buckets, entries: seq<Range>, n: nat, i: nat)
    requires AllSound(b, entries) && n < |entries|
    ensures AllSound(b, entries[..n]) && AllSound(b, entries[..n + 1])
    ensures var r := entries[n]; var sent := Tally(b, SentTimes(r.sentTstampPcap), i);
      Bucket(b, entries[..n + 1], i)
      == Bucket(b, entries[..n], i).Plus(LostPart(b, r, i)).AddTotal(sent, sent * r.byteCount, NewSize(b, r, i))
  {
    assert entries[..n + 1][..n] == entries[..n];
  }

  /** First pass: the totals of every bucket. */
  method SentTotals(b: Buckets, entries: seq<Range>) returns (tc: seq<nat>, tb: seq<nat>, tn: seq<nat>)
    requires AllSound(b, entries)
    ensures |tc| == |tb| == |tn|
    ensures forall k, j :: 0 <= k < |entries| && 0 <= j < |entries[k].sentTstampPcap| ==>
              b.Index(SentTimes(entries[k].sentTstampPcap)[j]) < |tc|
    ensures forall i: nat :: Get(tc, i) == Bucket(b, entries, i).totCntBytes
    ensures forall i: nat :: Get(tb, i) == Bucket(b, entries, i).totAllBytes
    ensures forall i: nat :: Get(tn, i) == Bucket(b, entries, i).totNewBytes
  {
    hide Get, Tally, Buckets.Index, LostPart, NewSize, LostWithinSent;
    tc, tb, tn := [], [], [];
    NoBuckets(b);
    for n := 0 to |entries|
      invariant |tc| == |tb| == |tn| && AllSound(b, entries[..n])
      invariant forall k, j :: 0 <= k < n && 0 <= j < |entries[k].sentTstampPcap| ==>
                  b.Index(SentTimes(entries[k].sentTstampPcap)[j]) < |tc|
      invariant forall i: nat :: Get(tc, i) == Bucket(b, entries[..n], i).totCntBytes
      invariant forall i: nat :: Get(tb, i) == Bucket(b, entries[..n], i).totAllBytes
      invariant forall i: nat :: Get(tn, i) == Bucket(b, entries[..n], i).totNewBytes
    {
      tc, tb, tn := PlaceSent(b, entries[n], tc, tb, tn);
      forall i: nat
        ensures AllSound(b, entries[..n + 1])
        ensures var sent := Tally(b, SentTimes(entries[n].sentTstampPcap), i);
          && Bucket(b, entries[..n + 1], i).totCntBytes == Bucket(b, entries[..n], i).totCntBytes + sent
          && Bucket(b, entries[..n + 1], i).totAllBytes == Bucket(b, entries[..n], i).totAllBytes + sent * entries[n].byteCount
          && Bucket(b, entries[..n + 1], i).totNewBytes == Bucket(b, entries[..n], i).totNewBytes + NewSize(b, entries[n], i)
      {
        BucketStep(b, entries, n, i);
      }
    }
    assert entries[..|entries|] == entries;
  }

  lemma NoBuckets(b: Buckets)
    ensures AllSound(b, [])
    ensures forall i: nat :: Bucket(b, [], i) == NO_LOSS && Get([], i) == 0 && GetLoss([], i) == NO_LOSS
  {
  }

  lemma LostIndexBelow(b: Buckets, r: Range, limit: nat)
    requires LostWithinSent(r) && TimesIn(b, SentTimes(r.sentTstampPcap)) && TimesIn(b, LostTimes(r.lostTstampsTcp))
    requires forall j :: 0 <= j < |r.sentTstampPcap| ==> b.Index(SentTimes(r.sentTstampPcap)[j]) < limit
    ensures forall j :: 0 <= j < |r.lostTstampsTcp| ==> b.Index(LostTimes(r.lostTstampsTcp)[j]) < limit
    ensures |r.lostTstampsTcp| > 0 ==> |r.sentTstampPcap| > 0
  {
    hide Buckets.Index;
    var lost, sent := LostTimes(r.lostTstampsTcp), SentTimes(r.sentTstampPcap);
    forall j | 0 <= j < |lost|
      ensures b.Index(lost[j]) < limit && |sent| > 0
    {
      assert lost[j] in multiset(lost);
      assert lost[j] in sent;
    }
  }

  /** Second pass: the losses of every bucket, none of which lies behind the totals. */
  method LossTotals(b: Buckets, entries: seq<Range>, ghost limit: nat) returns (loss: seq<LossInterval>)
    requires AllSound(b, entries)
    requires forall k, j :: 0 <= k < |entries| && 0 <= j < |entries[k].sentTstampPcap| ==>
              b.Index(SentTimes(entries[k].sentTstampPcap)[j]) < limit
    ensures |loss| <= limit
    ensures forall i: nat :: GetLoss(loss, i) == LossesOnly(Bucket(b, entries, i))
  {
    hide GetLoss, Tally, Buckets.Index, LostPart, NewSize, LostWithinSent;
    loss := [];
    NoBuckets(b);
    for n := 0 to |entries|
      invariant |loss| <= limit && AllSound(b, entries[..n])
      invariant forall i: nat :: GetLoss(loss, i) == LossesOnly(Bucket(b, entries[..n], i))
    {
      LostIndexBelow(b, entries[n], limit);
      loss := PlaceLost(b, entries[n], loss, limit);
      forall i: nat
        ensures AllSound(b, entries[..n + 1])
        ensures LossesOnly(Bucket(b, entries[..n + 1], i)) == LossesOnly(Bucket(b, entries[..n], i)).Plus(LostPart(b, entries[n], i))
      {
        BucketStep(b, entries, n, i);
        PartHasNoTotals(b, entries[n], i);
      }
    }
    assert entries[..|entries|] == entries;
  }

  lemma PartHasNoTotals(b: Buckets, r: Range, i: nat)
    requires TimesIn(b, SentTimes(r.sentTstampPcap)) && TimesIn(b, LostTimes(r.lostTstampsTcp))
    ensures LostPart(b, r, i) == LossesOnly(LostPart(b, r, i))
  {
  }

  /** A bucket of the aggregate report with the bucket of one connection added, losses and totals alike. */
  function Merged(all: LossInterval, one: LossInterval): LossInterval {
    all.Plus(one).AddTotal(one.totCntBytes, one.totAllBytes, one.totNewBytes)
  }

  /** The whole report for the entries of one connection, in map order, starting from an empty vector.
      Every bucket that is reported is complete, and none reports more losses than transmissions; every
      bucket behind the last one has no losses; the aggregate grows by exactly the reported buckets. */
  method CalculateLossGroupedByInterval(b: Buckets, entries: seq<Range>, allLoss0: seq<LossInterval>)
    returns (allLoss: seq<LossInterval>, loss: seq<LossInterval>)
    requires AllSound(b, entries)
    ensures forall i :: 0 <= i < |loss| ==> loss[i] == Bucket(b, entries, i) && loss[i].Sound()
    ensures forall i: nat :: |loss| <= i ==> LossesOnly(Bucket(b, entries, i)) == NO_LOSS
    ensures |allLoss| == Max(|allLoss0|, |loss| + 1)
    ensures forall i: nat :: i < |loss| ==> allLoss[i] == Merged(GetLoss(allLoss0, i), loss[i])
    ensures forall i: nat :: |loss| <= i < |allLoss| ==> allLoss[i] == GetLoss(allLoss0, i)
  {
    hide Tally, Buckets.Index, LostPart, NewSize, LostWithinSent, Bucket;
    var tc, tb, tn := SentTotals(b, entries);
    loss := LossTotals(b, entries, |tc|);
    ghost var losses := loss;
    var buckets := |loss|;
    allLoss := Grow(allLoss0, buckets, NO_LOSS);
    ghost var grown := allLoss;
    forall i: nat
      ensures Bucket(b, entries, i).Sound()
    {
      BucketSound(b, entries, i);
    }
    for idx := 0 to buckets
      invariant |loss| == buckets && |allLoss| == |grown|
      invariant forall i :: 0 <= i < idx ==> loss[i] == Bucket(b, entries, i)
      invariant forall i :: idx <= i < buckets ==> loss[i] == losses[i]
      invariant forall i :: 0 <= i < idx ==> allLoss[i] == Merged(grown[i], loss[i])
      invariant forall i :: idx <= i < |grown| ==> allLoss[i] == grown[i]
    {
      assert GetLoss(losses, idx) == LossesOnly(Bucket(b, entries, idx));
      assert Get(tc, idx) == Bucket(b, entries, idx).totCntBytes;
      assert Get(tb, idx) == Bucket(b, entries, idx).totAllBytes;
      assert Get(tn, idx) == Bucket(b, entries, idx).totNewBytes;
      allLoss := allLoss[idx := allLoss[idx].Plus(loss[idx]).AddTotal(tc[idx], tb[idx], tn[idx])];
      loss := loss[idx := loss[idx].AddTotal(tc[idx], tb[idx], tn[idx])];
    }
    forall i: nat | |loss| <= i
      ensures LossesOnly(Bucket(b, entries, i)) == NO_LOSS
    {
      assert GetLoss(losses, i) == LossesOnly(Bucket(b, entries, i));
    }
  }
}
