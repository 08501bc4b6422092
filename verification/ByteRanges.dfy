/** The value of one entry of the index (`ByteRange`): a half-open interval of relative sequence
    numbers with the counters and time stamps kept for it. Counters are unbounded naturals. */
module ByteRanges {
  import opened Common

  const MAX_RANGE_SIZE := 65535  // `updateByteCount` asserts that a range is smaller than this

  datatype SentType = StNone | StPkt | StRtr | StPureAck | StRst

  datatype Sending = Sending(time: TimeVal, kind: SentType)

  datatype Stamp = Stamp(val: nat, echo: nat)

  datatype Unconfirmed = Unconfirmed(val: nat, time: TimeVal)

  /** What the index knows about one byte. */
  datatype ByteInfo = ByteInfo(sent: nat, received: nat, acked: bool, ackTime: TimeVal)

  datatype ReceivedType = Def | Data | Rdb | Retr

  datatype Range = Range(
    startSeq: int, endSeq: int, byteCount: nat, originalPayloadSize: nat, originalPacketIsRdb: bool,
    packetSentCount: nat, packetRetransCount: nat, packetReceivedCount: nat,
    dataReceivedCount: nat, dataSentCount: nat, dataRetransCount: nat, rdbCount: nat,
    sentTstampPcap: seq<Sending>, sentDataPktPcapIndex: int,
    tstampsTcp: seq<Stamp>, rdbTstampsTcp: seq<nat>, lostTstampsTcp: seq<Unconfirmed>,
    receivedTstampTcp: nat, receivedTstampPcap: TimeVal, appLayerLatencyTstamp: bool,
    acked: bool, ackTime: TimeVal, ackCount: nat, dupackCount: nat, tcpWindow: nat,
    ackedSent: nat, fin: nat, syn: nat, rst: nat)
  {
    predicate Empty() {
      startSeq == endSeq
    }

    /** What the code relies on for each entry: an interval small enough for 16 bits, and a byte count that matches it. */
    predicate Sized() {
      && startSeq <= endSeq
      && byteCount == endSeq - startSeq
      && byteCount < MAX_RANGE_SIZE
    }

    /** What an entry says about each of its bytes. */
    function Info(): ByteInfo {
      ByteInfo(dataSentCount, dataReceivedCount, acked, ackTime)
    }

    predicate SameSpan(r: Range) {
      startSeq == r.startSeq && endSeq == r.endSeq && byteCount == r.byteCount
    }

    function IncreaseSent(seg: DataSeg, rdb: bool, kind: SentType): Range {
      this.(tstampsTcp := if rdb then tstampsTcp else tstampsTcp + [Stamp(seg.tstampTcp, seg.tstampTcpEcho)],
            rdbTstampsTcp := if rdb then rdbTstampsTcp + [seg.tstampTcp] else rdbTstampsTcp,
            packetSentCount := if kind == StPkt || kind == StRst then packetSentCount + 1 else packetSentCount,
            packetRetransCount := if kind == StRtr then packetRetransCount + 1 else packetRetransCount,
            ackedSent := if kind == StPureAck then ackedSent + 1 else ackedSent,
            dataSentCount := if kind != StPureAck && kind != StRst then dataSentCount + 1 else dataSentCount,
            sentDataPktPcapIndex := if kind == StPkt then |sentTstampPcap| else sentDataPktPcapIndex,
            sentTstampPcap := sentTstampPcap + [Sending(seg.tstampPcap, kind)],
            lostTstampsTcp := lostTstampsTcp + [Unconfirmed(seg.tstampTcp, seg.tstampPcap)])
    }

    function IncreaseReceived(seg: DataSeg): Range {
      var first := dataReceivedCount == 0;
      this.(appLayerLatencyTstamp := if first then seg.inSequence else appLayerLatencyTstamp,
            receivedTstampTcp := if first then seg.tstampTcp else receivedTstampTcp,
            receivedTstampPcap := if first then seg.tstampPcap else receivedTstampPcap,
            dataReceivedCount := dataReceivedCount + 1,
            lostTstampsTcp := EraseFirst(lostTstampsTcp, seg.tstampTcp))
    }

    /** `splitEnd`, the part that stays: everything but the interval is kept. */
    function Left(at: int): (r: Range)
      requires startSeq <= at
      ensures r.startSeq == startSeq && r.endSeq == at && r.byteCount == at - startSeq && r.Info() == Info()
    {
      this.(endSeq := at, byteCount := at - startSeq)
    }

    /** `splitEnd`, the new part: the per-byte facts are copied, the per-packet ones start afresh. */
    function Right(at: int): (r: Range)
      requires at <= endSeq
      ensures r.startSeq == at && r.endSeq == endSeq && r.byteCount == endSeq - at && r.Info() == Info()
    {
      NewRange(at, endSeq).(
        dataRetransCount := dataRetransCount, dataSentCount := dataSentCount, dataReceivedCount := dataReceivedCount,
        receivedTstampTcp := receivedTstampTcp, tstampsTcp := tstampsTcp, rdbTstampsTcp := rdbTstampsTcp,
        ackTime := ackTime, acked := acked, sentTstampPcap := Untyped(sentTstampPcap))
    }

    function InsertAckTime(time: TimeVal): Range {
      this.(ackTime := time, acked := true)
    }

    /** The new interval of an entry that so far held no bytes. */
    function Stretch(end: int): Range
      requires startSeq <= end
    {
      this.(endSeq := end, byteCount := end - startSeq, originalPayloadSize := end - startSeq)
    }
  }

  function NewRange(start: int, end: int): Range
    requires start <= end
  {
    Range(start, end, end - start, end - start, false,
          0, 0, 0, 0, 0, 0, 0,
          [], -1, [], [], [],
          0, NO_TIME, false,
          false, NO_TIME, 0, 0, 0,
          0, 0, 0, 0)
  }

  /** `lost_tstamps_tcp` without its first entry that carries `val`. */
  function EraseFirst(lost: seq<Unconfirmed>, val: nat): seq<Unconfirmed> {
    if lost == [] then []
    else if lost[0].val == val then lost[1..]
    else [lost[0]] + EraseFirst(lost[1..], val)
  }

  /** `sent_tstamp_pcap` as a split copies it: same times, no packet types. */
  function Untyped(sent: seq<Sending>): (r: seq<Sending>)
    ensures |r| == |sent|
    ensures forall i :: 0 <= i < |sent| ==> r[i] == Sending(sent[i].time, StNone)
  {
    seq(|sent|, i requires 0 <= i < |sent| => Sending(sent[i].time, StNone))
  }
}
