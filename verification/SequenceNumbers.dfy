/** `getRelativeSequenceNumber` and `absolute_seq`: from 32-bit TCP sequence numbers to 64-bit offsets
    in the stream and back. The C++ integer widths are written out as remainders. */
module SequenceNumbers {
  import opened Common
  import opened Index
  import opened Registration
  import opened Acks
  import opened AckRun

  const W32 := 0x1_0000_0000
  const W64 := 0x1_0000_0000_0000_0000
  const HALF := 0x8000_0000
  const LARGEST_OFFSET := 9999999999

  type Seq32 = x: int | 0 <= x < W32

  datatype Decoded = Offset(n: int) | BeforeFirst | OutOfRange

  /** util.h: the sign of the 32-bit difference. */
  predicate Before(a: Seq32, b: Seq32) {
    (a - b) % W32 >= HALF
  }

  predicate AfterOrEqual(a: Seq32, b: Seq32) {
    (b - a) % W32 < HALF
  }

  /** The four branches of the free function `getRelativeSequenceNumber`. `BeforeFirst` and `OutOfRange`
      both stand for its sentinel; the second also fails an assertion when assertions are on. */
  function Decode(num: Seq32, firstSeq: Seq32, largestSeq: int, largestAbsolute: Seq32): Decoded {
    var wrap := (firstSeq + largestSeq + 1) % W64;
    if num < largestAbsolute then
      if Before(num, largestAbsolute) then
        if Before(num, firstSeq) then BeforeFirst
        else Placed(num, firstSeq, (wrap - (largestAbsolute - num)) % W64)
      else
        Placed(num, firstSeq, (wrap + ((0 - largestAbsolute) % W32 + num) % W32) % W64)
    else if AfterOrEqual(largestAbsolute, num) then
      Placed(num, firstSeq, (wrap + (num - largestAbsolute)) % W64)
    else
      Placed(num, firstSeq, (wrap - ((0 - num) % W32 + largestAbsolute) % W32) % W64)
  }

  function Placed(num: Seq32, firstSeq: Seq32, wrap: int): Decoded {
    var relative := (num + wrap / W32 * W32 - firstSeq) % W64;
    if relative > LARGEST_OFFSET then OutOfRange else Offset(relative)
  }

  /** The signed 32-bit distance from `largestAbsolute` to `num`. */
  function Distance(num: Seq32, largestAbsolute: Seq32): int {
    var d := (num - largestAbsolute) % W32;
    if d < HALF then d else d - W32
  }

  /** The offset nearest to the highest one seen that has this wire number (RFC 9293, section 3.4). */
  function Nearest(num: Seq32, largestSeq: int, largestAbsolute: Seq32): int {
    largestSeq + Distance(num, largestAbsolute)
  }

  /** The high-water mark in its two forms. The bound only keeps 64-bit additions from wrapping. */
  predicate Mark(firstSeq: Seq32, largestSeq: int, largestAbsolute: Seq32) {
    0 <= largestSeq < 0x4000_0000_0000_0000 && largestAbsolute == (firstSeq + largestSeq) % W32
  }

  /** `Nearest` is the only offset within half the number space of the mark that has the wire number. */
  lemma NearestIsUnique(num: Seq32, firstSeq: Seq32, largestSeq: int, largestAbsolute: Seq32, r: int)
    requires Mark(firstSeq, largestSeq, largestAbsolute)
    ensures largestSeq - HALF <= r < largestSeq + HALF && (firstSeq + r) % W32 == num
       <==> r == Nearest(num, largestSeq, largestAbsolute)
  {
    var nearest := Nearest(num, largestSeq, largestAbsolute);
    DistanceLeads(num, largestAbsolute);
    Residue(firstSeq + largestSeq, Distance(num, largestAbsolute));
    assert nearest == largestSeq + Distance(num, largestAbsolute);
    hide Distance, Nearest;
    assert (firstSeq + nearest) % W32 == num;
    if largestSeq - HALF <= r < largestSeq + HALF && (firstSeq + r) % W32 == num {
      SameResidueClose(firstSeq + r, firstSeq + nearest);
    }
  }

  lemma DistanceLeads(num: Seq32, largestAbsolute: Seq32)
    ensures -HALF <= Distance(num, largestAbsolute) < HALF
    ensures (largestAbsolute + Distance(num, largestAbsolute)) % W32 == num
  {
  }

  lemma SameResidueClose(x: int, y: int)
    requires x % W32 == y % W32 && -W32 < x - y < W32
    ensures x == y
  {
    assert x == x / W32 * W32 + x % W32 && y == y / W32 * W32 + y % W32;
  }

  lemma Residue(x: int, d: int)
    ensures (x + d) % W32 == (x % W32 + d) % W32
  {
  }

  /** The branch that rejects old numbers outright. */
  predicate RejectedAsOld(num: Seq32, firstSeq: Seq32, largestAbsolute: Seq32) {
    num < largestAbsolute && Before(num, largestAbsolute) && Before(num, firstSeq)
  }

  function InRange(r: int): Decoded {
    if 0 <= r <= LARGEST_OFFSET then Offset(r) else OutOfRange
  }

  /** What each branch adds or subtracts is the signed distance. */
  lemma DistanceByBranch(num: Seq32, largestAbsolute: Seq32)
    ensures num < largestAbsolute && Before(num, largestAbsolute) ==>
              Distance(num, largestAbsolute) == num - largestAbsolute
    ensures num < largestAbsolute && !Before(num, largestAbsolute) ==>
              Distance(num, largestAbsolute) == ((0 - largestAbsolute) % W32 + num) % W32
    ensures num >= largestAbsolute && AfterOrEqual(largestAbsolute, num) ==>
              Distance(num, largestAbsolute) == num - largestAbsolute
    ensures num >= largestAbsolute && !AfterOrEqual(largestAbsolute, num) ==>
              Distance(num, largestAbsolute) == -(((0 - num) % W32 + largestAbsolute) % W32)
  {
    if num < largestAbsolute {
      assert (num - largestAbsolute) % W32 == num - largestAbsolute + W32;
    } else {
      assert (num - largestAbsolute) % W32 == num - largestAbsolute;
    }
  }

  /** All four branches move the mark by the signed distance. */
  lemma BranchesAgree(num: Seq32, firstSeq: Seq32, largestSeq: int, largestAbsolute: Seq32)
    requires Mark(firstSeq, largestSeq, largestAbsolute) && !RejectedAsOld(num, firstSeq, largestAbsolute)
    ensures Decode(num, firstSeq, largestSeq, largestAbsolute)
         == Placed(num, firstSeq, (firstSeq + Nearest(num, largestSeq, largestAbsolute) + 1) % W64)
  {
    DistanceByBranch(num, largestAbsolute);
    assert (firstSeq + largestSeq + 1) % W64 == firstSeq + largestSeq + 1;
    hide Distance, Before, AfterOrEqual, Placed;
  }

  lemma PlacedAt(num: Seq32, firstSeq: Seq32, r: int)
    requires -W32 <= r < W64 - W32 - W32 && (firstSeq + r) % W32 == num
    ensures Placed(num, firstSeq, (firstSeq + r + 1) % W64) == InRange(if num == W32 - 1 then r + W32 else r)
  {
    var y := firstSeq + r + 1;
    var back := if y < 0 then W64 else 0;
    NextBlock(firstSeq + r, num);
    BlockAround(y);
    var r' := if num == W32 - 1 then r + W32 else r;
    assert num + (y % W64) / W32 * W32 - firstSeq == r' + back;
    Around(r', back);
  }

  /** One past `x` lies in the same block of 2^32 numbers, except after the last number of a block. */
  lemma NextBlock(x: int, num: Seq32)
    requires x % W32 == num
    ensures (x + 1) / W32 * W32 + num == if num == W32 - 1 then x + W32 else x
  {
    var q := x / W32;
    assert x == q * W32 + num;
    if num == W32 - 1 {
      QuotientIs(x + 1, q + 1, 0);
    } else {
      QuotientIs(x + 1, q, num + 1);
    }
  }

  lemma QuotientIs(x: int, q: int, rest: int)
    requires x == q * W32 + rest && 0 <= rest < W32
    ensures x / W32 == q && x % W32 == rest
  {
  }

  /** Wrapping a negative number at 2^64 moves its block by 2^64. */
  lemma BlockAround(y: int)
    requires -W64 <= y < W64
    ensures (y % W64) / W32 * W32 == y / W32 * W32 + (if y < 0 then W64 else 0)
  {
    if y < 0 {
      assert y % W64 == y + W64;
      assert y == y / W32 * W32 + y % W32;
      QuotientIs(y + W64, y / W32 + W32, y % W32);
    }
  }

  lemma Around(r: int, back: int)
    requires -W32 <= r < W64 && (back == 0 || back == W64)
    ensures (if (r + back) % W64 > LARGEST_OFFSET then OutOfRange else Offset((r + back) % W64)) == InRange(r)
  {
    if r >= 0 {
      assert (r + back) % W64 == r;
    } else {
      assert (r + back) % W64 == r + W64;
    }
  }

  /** For every wire number but the last, the decoder returns the nearest offset exactly when it is
      within 0 and 9999999999 and the number is not rejected as old, and the sentinel otherwise. */
  lemma DecodesToNearest(num: Seq32, firstSeq: Seq32, largestSeq: int, largestAbsolute: Seq32)
    requires Mark(firstSeq, largestSeq, largestAbsolute) && num != W32 - 1
    ensures Decode(num, firstSeq, largestSeq, largestAbsolute)
         == if RejectedAsOld(num, firstSeq, largestAbsolute) then BeforeFirst
            else InRange(Nearest(num, largestSeq, largestAbsolute))
  {
    NearestIsUnique(num, firstSeq, largestSeq, largestAbsolute, Nearest(num, largestSeq, largestAbsolute));
    if !RejectedAsOld(num, firstSeq, largestAbsolute) {
      BranchesAgree(num, firstSeq, largestSeq, largestAbsolute);
      PlacedAt(num, firstSeq, Nearest(num, largestSeq, largestAbsolute));
    }
  }

  /** At the last wire number the leading `+ 1` makes the wrap index one too high: the result is off by 2^32. */
  lemma LastNumberIsOffByOneWrap(firstSeq: Seq32, largestSeq: int, largestAbsolute: Seq32)
    requires Mark(firstSeq, largestSeq, largestAbsolute)
    ensures var num := W32 - 1;
      Decode(num, firstSeq, largestSeq, largestAbsolute)
      == if RejectedAsOld(num, firstSeq, largestAbsolute) then BeforeFirst
         else InRange(Nearest(num, largestSeq, largestAbsolute) + W32)
  {
    var num := W32 - 1;
    NearestIsUnique(num, firstSeq, largestSeq, largestAbsolute, Nearest(num, largestSeq, largestAbsolute));
    if !RejectedAsOld(num, firstSeq, largestAbsolute) {
      BranchesAgree(num, firstSeq, largestSeq, largestAbsolute);
      PlacedAt(num, firstSeq, Nearest(num, largestSeq, largestAbsolute));
    }
  }

  /** `absolute_seq`. */
  function AbsoluteSeq(firstSeq: Seq32, offset: int): int {
    var wrap := (firstSeq + offset) / W32;
    offset + firstSeq - wrap * W32
  }

  /** For every input, whenever the decoder returns an offset, `absolute_seq` turns it back into the wire number. */
  lemma RoundTrip(num: Seq32, firstSeq: Seq32, largestSeq: int, largestAbsolute: Seq32)
    ensures var d := Decode(num, firstSeq, largestSeq, largestAbsolute);
      d.Offset? ==> 0 <= d.n <= LARGEST_OFFSET && AbsoluteSeq(firstSeq, d.n) == num
  {
    var d := Decode(num, firstSeq, largestSeq, largestAbsolute);
    if d.Offset? {
      var wrap :| 0 <= wrap < W64 && d == Placed(num, firstSeq, wrap);
      PlacedBack(num, firstSeq, wrap);
    }
  }

  lemma PlacedBack(num: Seq32, firstSeq: Seq32, wrap: int)
    requires 0 <= wrap < W64 && Placed(num, firstSeq, wrap).Offset?
    ensures var n := Placed(num, firstSeq, wrap).n; 0 <= n <= LARGEST_OFFSET && (firstSeq + n) % W32 == num
    ensures AbsoluteSeq(firstSeq, Placed(num, firstSeq, wrap).n) == num
  {
    var x := num + wrap / W32 * W32 - firstSeq;
    var n := x % W64;
    assert (firstSeq + n) % W32 == (firstSeq + x) % W32;
    assert (firstSeq + x) == wrap / W32 * W32 + num;
  }

  // ---------- whole streams ----------

  /** Decoding against a mark below 2^31 finds every true offset below 2^31. */
  lemma SmallOffsetsDecode(firstSeq: Seq32, largestSeq: int, largestAbsolute: Seq32, offset: int)
    requires Mark(firstSeq, largestSeq, largestAbsolute) && largestSeq < HALF
    requires 0 <= offset < HALF && (firstSeq + offset) % W32 != W32 - 1
    ensures Decode((firstSeq + offset) % W32, firstSeq, largestSeq, largestAbsolute) == Offset(offset)
  {
    var num := (firstSeq + offset) % W32;
    assert (num - firstSeq) % W32 == offset by {
      var first: int := firstSeq;
      ResidueLeft(first + offset, -first);
    }
    NotRejected(num, firstSeq, offset);
    DecodesToNearest(num, firstSeq, largestSeq, largestAbsolute);
    NearestIsUnique(num, firstSeq, largestSeq, largestAbsolute, offset);
  }

  lemma ResidueLeft(x: int, d: int)
    ensures (x % W32 + d) % W32 == (x + d) % W32
  {
    Residue(x, d);
  }

  /** A number less than half the number space after the first one is not before it. */
  lemma NotRejected(num: Seq32, firstSeq: Seq32, offset: int)
    requires 0 <= offset < HALF && (num - firstSeq) % W32 == offset
    ensures !Before(num, firstSeq)
  {
  }

  /** A captured segment whose true offsets stay below 2^31 and whose wire number is not the last one. */
  predicate OnWire(firstSeq: Seq32, g: DataSeg) {
    && Captured(g) && g.endSeq < HALF
    && g.seqAbsolute == (firstSeq + g.startSeq) % W32 != W32 - 1
  }

  lemma MarkMoves(firstSeq: Seq32, t: Totals, g: DataSeg)
    requires OnWire(firstSeq, g) && 0 <= t.lastLargestEndSeq < HALF && 0 <= t.lastLargestSeqAbsolute < W32
    requires Mark(firstSeq, t.lastLargestEndSeq, t.lastLargestSeqAbsolute)
    ensures var t' := Register(t, g).0;
      && 0 <= t'.lastLargestEndSeq < HALF && 0 <= t'.lastLargestSeqAbsolute < W32
      && Mark(firstSeq, t'.lastLargestEndSeq, t'.lastLargestSeqAbsolute)
  {
    ResidueLeft(firstSeq + g.startSeq, g.payloadSize);
    var moved := (g.seqAbsolute + g.payloadSize) % WRAP32;
    assert moved == (firstSeq + g.endSeq) % W32;
  }

  lemma {:induction false} SenderMark(firstSeq: Seq32, segs: seq<DataSeg>)
    requires forall i :: 0 <= i < |segs| ==> OnWire(firstSeq, segs[i])
    ensures var t := RegisterAll(firstSeq, segs);
      && 0 <= t.lastLargestEndSeq < HALF && 0 <= t.lastLargestSeqAbsolute < W32
      && Mark(firstSeq, t.lastLargestEndSeq, t.lastLargestSeqAbsolute)
  {
    hide Register;
    if segs != [] {
      var n := |segs| - 1;
      SenderMark(firstSeq, segs[..n]);
      MarkMoves(firstSeq, RegisterAll(firstSeq, segs[..n]), segs[n]);
    }
  }

  /** Every outgoing segment of such a stream decodes to its true offset, in any order and with any
      retransmissions: the marks that `registerSent` keeps always name the same position. */
  lemma SentStreamDecodes(firstSeq: Seq32, segs: seq<DataSeg>, i: nat)
    requires i < |segs| && forall j :: 0 <= j < |segs| ==> OnWire(firstSeq, segs[j])
    ensures var t := RegisterAll(firstSeq, segs[..i]);
      && 0 <= t.lastLargestSeqAbsolute < W32 && 0 <= segs[i].seqAbsolute < W32
      && Decode(segs[i].seqAbsolute, firstSeq, t.lastLargestEndSeq, t.lastLargestSeqAbsolute) == Offset(segs[i].startSeq)
  {
    SenderMark(firstSeq, segs[..i]);
    var t := RegisterAll(firstSeq, segs[..i]);
    SmallOffsetsDecode(firstSeq, t.lastLargestEndSeq, t.lastLargestSeqAbsolute, segs[i].startSeq);
  }

  /** The receiver's marks after `registerRecvd` took in `segs`: the end of the last segment, in both forms. */
  function ReceiverMark(firstSeq: Seq32, segs: seq<DataSeg>): (int, int) {
    if segs == [] then (0, firstSeq)
    else
      var g := segs[|segs| - 1];
      (g.endSeq, (g.seqAbsolute + g.payloadSize) % W32)
  }

  lemma ReceivedStreamDecodes(firstSeq: Seq32, segs: seq<DataSeg>, i: nat)
    requires i < |segs| && forall j :: 0 <= j < |segs| ==> OnWire(firstSeq, segs[j])
    ensures var mark := ReceiverMark(firstSeq, segs[..i]);
      && 0 <= mark.1 < W32 && 0 <= segs[i].seqAbsolute < W32
      && Decode(segs[i].seqAbsolute, firstSeq, mark.0, mark.1) == Offset(segs[i].startSeq)
  {
    var mark := ReceiverMark(firstSeq, segs[..i]);
    if i > 0 {
      Residue(firstSeq + segs[i - 1].startSeq, segs[i - 1].payloadSize);
    }
    SmallOffsetsDecode(firstSeq, mark.0, mark.1, segs[i].startSeq);
  }

  /** The same for acknowledgement numbers. Their mark is the last acknowledgement that `processAck`
      answered with true, which is where `Connections.Connection.AckAllPackets` leaves it. */
  lemma AckStreamDecodes(firstSeq: Seq32, m: Ranges, acks: seq<AckSeg>, i: nat)
    requires AckState(m) && m != map[] && i < |acks|
    requires forall j :: 0 <= j < |acks| ==> 0 <= acks[j].ack < HALF && (firstSeq + acks[j].ack) % W32 != W32 - 1
    ensures var mark := AckMark(m, acks[..i]);
      Decode((firstSeq + acks[i].ack) % W32, firstSeq, mark, (firstSeq + mark) % W32) == Offset(acks[i].ack)
  {
    hide AckMark, AckState;
    AckMarkIsAck(m, acks[..i]);
    var mark := AckMark(m, acks[..i]);
    SmallOffsetsDecode(firstSeq, mark, (firstSeq + mark) % W32, acks[i].ack);
  }
}
