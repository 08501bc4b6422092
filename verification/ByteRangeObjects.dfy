/** The class `ByteRange`: one entry of the index as an object that is updated in place. `View` is
    its value; every method says what it does to that value. */
module ByteRangeObjects {
  import opened Common
  import opened ByteRanges
  import opened Entries
  import opened TimeDifference

  class ByteRange {
    var startSeq: int
    var endSeq: int
    var byteCount: nat
    var originalPayloadSize: nat
    var packetSentCount: nat
    var packetRetransCount: nat
    var packetReceivedCount: nat
    var dataReceivedCount: nat
    var dataSentCount: nat
    var dataRetransCount: nat
    var rdbCount: nat
    var sentTstampPcap: seq<Sending>
    var receivedTstampPcap: TimeVal
    var sendTcpStampRecvIndex: nat
    var receivedTstampTcp: nat
    var tstampsTcp: seq<Stamp>
    var rdbTstampsTcp: seq<nat>
    var lostTstampsTcp: seq<Unconfirmed>
    var ackTime: TimeVal
    var acked: bool
    var originalPacketIsRdb: bool
    var recvType: ReceivedType
    var appLayerLatencyTstamp: bool
    var recvTypeNum: nat
    var sentDataPktPcapIndex: int
    var fin: nat
    var syn: nat
    var rst: nat
    var ackedSent: nat
    var ackCount: nat
    var dupackCount: nat
    var tcpWindow: nat
    var diff: int

    /** The value of the entry. What `matchReceivedType` and `calculateRecvDiff` store is not part of it. */
    function View(): Range
      reads this
    {
      Range(startSeq, endSeq, byteCount, originalPayloadSize, originalPacketIsRdb,
            packetSentCount, packetRetransCount, packetReceivedCount,
            dataReceivedCount, dataSentCount, dataRetransCount, rdbCount,
            sentTstampPcap, sentDataPktPcapIndex,
            tstampsTcp, rdbTstampsTcp, lostTstampsTcp,
            receivedTstampTcp, receivedTstampPcap, appLayerLatencyTstamp,
            acked, ackTime, ackCount, dupackCount, tcpWindow,
            ackedSent, fin, syn, rst)
    }

    constructor (start: int, end: int)
      requires start <= end < start + MAX_RANGE_SIZE
      ensures View() == NewRange(start, end)
      ensures syn == fin == rst == 0
      ensures sendTcpStampRecvIndex == 0 && recvType == Def && recvTypeNum == 1 && diff == 0
    {
      startSeq, endSeq := start, end;
      byteCount := end - start;
      originalPayloadSize := end - start;
      packetSentCount, packetRetransCount, packetReceivedCount := 0, 0, 0;
      dataReceivedCount, dataSentCount, dataRetransCount, rdbCount := 0, 0, 0, 0;
      sentTstampPcap, tstampsTcp, rdbTstampsTcp, lostTstampsTcp := [], [], [], [];
      receivedTstampPcap, receivedTstampTcp, sendTcpStampRecvIndex := NO_TIME, 0, 0;
      ackTime, acked, ackCount, dupackCount, tcpWindow := NO_TIME, false, 0, 0, 0;
      originalPacketIsRdb, appLayerLatencyTstamp := false, false;
      recvType, recvTypeNum, sentDataPktPcapIndex, diff := Def, 1, -1, 0;
      fin, syn, rst, ackedSent := 0, 0, 0, 0;
    }

    /** A new entry that takes over the per-byte facts of another one; per-packet facts start afresh. */
    constructor Copying (start: int, end: int, from: ByteRange)
      requires start <= end < start + MAX_RANGE_SIZE
      ensures var f := from.View(); View() == NewRange(start, end).(
        dataRetransCount := f.dataRetransCount, dataSentCount := f.dataSentCount, dataReceivedCount := f.dataReceivedCount,
        receivedTstampTcp := f.receivedTstampTcp, tstampsTcp := f.tstampsTcp, rdbTstampsTcp := f.rdbTstampsTcp,
        ackTime := f.ackTime, acked := f.acked, sentTstampPcap := f.sentTstampPcap)
    {
      startSeq, endSeq := start, end;
      byteCount := end - start;
      originalPayloadSize := end - start;
      packetSentCount, packetRetransCount, packetReceivedCount := 0, 0, 0;
      dataRetransCount := from.dataRetransCount;
      dataSentCount := from.dataSentCount;
      dataReceivedCount := from.dataReceivedCount;
      receivedTstampTcp := from.receivedTstampTcp;
      tstampsTcp := from.tstampsTcp;
      rdbTstampsTcp := from.rdbTstampsTcp;
      ackTime := from.ackTime;
      acked := from.acked;
      sentTstampPcap := from.sentTstampPcap;
      rdbCount, lostTstampsTcp := 0, [];
      receivedTstampPcap, sendTcpStampRecvIndex := NO_TIME, 0;
      ackCount, dupackCount, tcpWindow := 0, 0, 0;
      originalPacketIsRdb, appLayerLatencyTstamp := false, false;
      recvType, recvTypeNum, sentDataPktPcapIndex, diff := Def, 1, -1, 0;
      fin, syn, rst, ackedSent := 0, 0, 0, 0;
    }

    /** Counts one reception; the first transmission listed with this TCP stamp is no longer lost. */
    method IncreaseReceived(seg: DataSeg)
      modifies this
      ensures View() == old(View()).IncreaseReceived(seg)
    {
      if dataReceivedCount == 0 {
        appLayerLatencyTstamp := seg.inSequence;
        receivedTstampTcp := seg.tstampTcp;
        receivedTstampPcap := seg.tstampPcap;
      }
      dataReceivedCount := dataReceivedCount + 1;
      EraseLost(seg.tstampTcp);
    }

    method EraseLost(val: nat)
      modifies this`lostTstampsTcp
      ensures lostTstampsTcp == EraseFirst(old(lostTstampsTcp), val)
    {
      var lost := lostTstampsTcp;
      var i := 0;
      while i < |lost|
        invariant 0 <= i <= |lost| && lostTstampsTcp == lost
        invariant EraseFirst(lost, val) == lost[..i] + EraseFirst(lost[i..], val)
      {
        if lost[i].val == val {
          lostTstampsTcp := lost[..i] + lost[i + 1..];
          break;
        }
        i := i + 1;
      }
    }

    method IncreaseSent(seg: DataSeg, rdb: bool, kind: SentType)
      modifies this
      ensures View() == old(View()).IncreaseSent(seg, rdb, kind)
    {
      hide View;
      RecordStamp(seg, rdb);
      CountPacket(kind);
      CountData(kind);
      RecordTransmission(seg, kind);
    }

    method RecordStamp(seg: DataSeg, rdb: bool)
      modifies this`tstampsTcp, this`rdbTstampsTcp
      ensures var v := old(View()); View() == v.(
        tstampsTcp := if rdb then v.tstampsTcp else v.tstampsTcp + [Stamp(seg.tstampTcp, seg.tstampTcpEcho)],
        rdbTstampsTcp := if rdb then v.rdbTstampsTcp + [seg.tstampTcp] else v.rdbTstampsTcp)
    {
      if rdb {
        rdbTstampsTcp := rdbTstampsTcp + [seg.tstampTcp];
      } else {
        tstampsTcp := tstampsTcp + [Stamp(seg.tstampTcp, seg.tstampTcpEcho)];
      }
    }

    method RecordTransmission(seg: DataSeg, kind: SentType)
      modifies this`sentDataPktPcapIndex, this`sentTstampPcap, this`lostTstampsTcp
      ensures var v := old(View()); View() == v.(
        sentDataPktPcapIndex := if kind == StPkt then |v.sentTstampPcap| else v.sentDataPktPcapIndex,
        sentTstampPcap := v.sentTstampPcap + [Sending(seg.tstampPcap, kind)],
        lostTstampsTcp := v.lostTstampsTcp + [Unconfirmed(seg.tstampTcp, seg.tstampPcap)])
    {
      if kind == StPkt {
        sentDataPktPcapIndex := |sentTstampPcap|;
      }
      sentTstampPcap := sentTstampPcap + [Sending(seg.tstampPcap, kind)];
      lostTstampsTcp := lostTstampsTcp + [Unconfirmed(seg.tstampTcp, seg.tstampPcap)];
    }

    method CountPacket(kind: SentType)
      modifies this`packetSentCount, this`packetRetransCount
      ensures var v := old(View()); View() == v.(
        packetSentCount := if kind == StPkt || kind == StRst then v.packetSentCount + 1 else v.packetSentCount,
        packetRetransCount := if kind == StRtr then v.packetRetransCount + 1 else v.packetRetransCount)
    {
      if kind == StPkt || kind == StRst {
        packetSentCount := packetSentCount + 1;
      }
      if kind == StRtr {
        packetRetransCount := packetRetransCount + 1;
      }
    }

    method CountData(kind: SentType)
      modifies this`ackedSent, this`dataSentCount
      ensures var v := old(View()); View() == v.(
        ackedSent := if kind == StPureAck then v.ackedSent + 1 else v.ackedSent,
        dataSentCount := if kind != StPureAck && kind != StRst then v.dataSentCount + 1 else v.dataSentCount)
    {
      if kind == StPureAck {
        ackedSent := ackedSent + 1;
      } else if kind != StRst {
        dataSentCount := dataSentCount + 1;
      }
    }

    /** The counters the index itself adds to beside a transmission. */
    method AddCounts(retrans: nat, rdb: nat)
      modifies this`dataRetransCount, this`rdbCount
      ensures var v := old(View()); View() == v.(dataRetransCount := v.dataRetransCount + retrans, rdbCount := v.rdbCount + rdb)
    {
      dataRetransCount := dataRetransCount + retrans;
      rdbCount := rdbCount + rdb;
    }

    method AddControl(syns: nat, fins: nat)
      modifies this`syn, this`fin
      ensures syn == old(syn) + syns && fin == old(fin) + fins
      ensures var v := old(View()); View() == v.(syn := v.syn + syns, fin := v.fin + fins)
    {
      syn := syn + syns;
      fin := fin + fins;
    }

    method AddPacketRetrans(n: nat)
      modifies this`packetRetransCount
      ensures var v := old(View()); View() == v.(packetRetransCount := v.packetRetransCount + n)
    {
      packetRetransCount := packetRetransCount + n;
    }

    method AddReset()
      modifies this`rst
      ensures rst == old(rst) + 1
      ensures var v := old(View()); View() == v.(rst := v.rst + 1)
    {
      rst := rst + 1;
    }

    method SetFin()
      modifies this`fin
      ensures View() == old(View()).(fin := 1)
    {
      fin := 1;
    }

    method AddPacketReceived()
      modifies this`packetReceivedCount
      ensures var v := old(View()); View() == v.(packetReceivedCount := v.packetReceivedCount + 1)
    {
      packetReceivedCount := packetReceivedCount + 1;
    }

    method SetOrigin(payloadSize: nat, isRdb: bool)
      modifies this`originalPayloadSize, this`originalPacketIsRdb
      ensures View() == old(View()).(originalPayloadSize := payloadSize, originalPacketIsRdb := isRdb)
    {
      originalPayloadSize := payloadSize;
      originalPacketIsRdb := isRdb;
    }

    method CountAck(window: nat)
      modifies this`ackCount, this`tcpWindow
      ensures var v := old(View()); View() == v.(ackCount := v.ackCount + 1, tcpWindow := window)
    {
      ackCount := ackCount + 1;
      tcpWindow := window;
    }

    method CountOldAck()
      modifies this`ackCount
      ensures var v := old(View()); View() == v.(ackCount := v.ackCount + 1)
    {
      ackCount := ackCount + 1;
    }

    method CountDupAck()
      modifies this`dupackCount
      ensures var v := old(View()); View() == v.(dupackCount := v.dupackCount + 1)
    {
      dupackCount := dupackCount + 1;
    }

    method SetWindow(window: nat)
      modifies this`tcpWindow
      ensures View() == old(View()).(tcpWindow := window)
    {
      tcpWindow := window;
    }

    /** Takes the bytes up to `end` into an entry that held none. */
    method StretchTo(end: int)
      requires startSeq <= end < startSeq + MAX_RANGE_SIZE
      modifies this
      ensures View() == old(View()).Stretch(end)
    {
      endSeq := end;
      UpdateByteCount();
      originalPayloadSize := byteCount;
    }

    method UpdateByteCount()
      requires 0 <= endSeq - startSeq < MAX_RANGE_SIZE
      modifies this`byteCount
      ensures byteCount == endSeq - startSeq && View() == old(View()).(byteCount := byteCount)
    {
      byteCount := endSeq - startSeq;
    }

    /** Splits the entry: this object keeps what lies before `at`, a new one takes the rest. */
    method SplitEnd(at: int, end: int) returns (newRange: ByteRange)
      requires startSeq <= at <= end == endSeq && endSeq < startSeq + MAX_RANGE_SIZE
      modifies this
      ensures fresh(newRange)
      ensures View() == old(View()).Left(at) && newRange.View() == old(View()).Right(at)
    {
      endSeq := at;
      newRange := Split(at, end);
    }

    method Split(start: int, end: int) returns (newRange: ByteRange)
      requires start <= end < start + MAX_RANGE_SIZE && 0 <= endSeq - startSeq < MAX_RANGE_SIZE
      modifies this`byteCount
      ensures fresh(newRange)
      ensures View() == old(View()).(byteCount := endSeq - startSeq)
      ensures var v := View(); newRange.View() == NewRange(start, end).(
        dataRetransCount := v.dataRetransCount, dataSentCount := v.dataSentCount, dataReceivedCount := v.dataReceivedCount,
        receivedTstampTcp := v.receivedTstampTcp, tstampsTcp := v.tstampsTcp, rdbTstampsTcp := v.rdbTstampsTcp,
        ackTime := v.ackTime, acked := v.acked, sentTstampPcap := Untyped(v.sentTstampPcap))
    {
      newRange := new ByteRange.Copying(start, end, this);
      UpdateByteCount();
      newRange.ClearKinds();
    }

    method ClearKinds()
      modifies this`sentTstampPcap
      ensures View() == old(View()).(sentTstampPcap := Untyped(old(View()).sentTstampPcap))
    {
      var i := 0;
      while i < |sentTstampPcap|
        invariant 0 <= i <= |sentTstampPcap| == |old(sentTstampPcap)|
        invariant forall k :: 0 <= k < i ==> sentTstampPcap[k] == Sending(old(sentTstampPcap)[k].time, StNone)
        invariant forall k :: i <= k < |sentTstampPcap| ==> sentTstampPcap[k] == old(sentTstampPcap)[k]
      {
        sentTstampPcap := sentTstampPcap[i := Sending(sentTstampPcap[i].time, StNone)];
        i := i + 1;
      }
      assert sentTstampPcap == Untyped(old(sentTstampPcap));
    }

    method InsertAckTime(time: TimeVal)
      modifies this
      ensures View() == old(View()).InsertAckTime(time)
    {
      ackTime := time;
      acked := true;
    }

    /** Looks for the received stamp among the regular transmissions, then among the bundled ones. The index
        is the one in the list of regular stamps, kept in eight bits, and is not set for a bundled one. On an
        entry with aligned stamps it is always an index of a transmission, but not always of the one that
        carried the stamp: see `Transmissions.StoredIndexIsRightExactly`. */
    method MatchReceivedType() returns (found: bool)
      modifies this`recvType, this`recvTypeNum, this`sendTcpStampRecvIndex
      ensures found <==> StampIndex(tstampsTcp, receivedTstampTcp).Some? || ValueIndex(rdbTstampsTcp, receivedTstampTcp).Some?
      ensures match StampIndex(tstampsTcp, receivedTstampTcp)
        case Some(i) =>
          && sendTcpStampRecvIndex == i % 256
          && (if i > 0 then recvType == Retr && recvTypeNum == i % 256 else recvType == Data && recvTypeNum == old(recvTypeNum))
        case None =>
          && sendTcpStampRecvIndex == old(sendTcpStampRecvIndex)
          && (match ValueIndex(rdbTstampsTcp, receivedTstampTcp)
              case Some(j) => recvType == Rdb && recvTypeNum == (j + 1) % 256
              case None => recvType == old(recvType) && recvTypeNum == old(recvTypeNum))
      ensures old(sendTcpStampRecvIndex) == 0 ==> sendTcpStampRecvIndex == StoredIndex(View())
      ensures Aligned(View()) && old(sendTcpStampRecvIndex) < |sentTstampPcap| ==> sendTcpStampRecvIndex < |sentTstampPcap|
    {
      var i := 0;
      while i < |tstampsTcp|
        invariant 0 <= i <= |tstampsTcp|
        invariant StampIndex(tstampsTcp, receivedTstampTcp) == StampIndexFrom(tstampsTcp, receivedTstampTcp, i)
      {
        if tstampsTcp[i].val == receivedTstampTcp {
          sendTcpStampRecvIndex := i % 256;
          if i > 0 {
            recvType := Retr;
            recvTypeNum := i % 256;
            return true;
          } else {
            recvType := Data;
            return true;
          }
        }
        i := i + 1;
      }
      i := 0;
      while i < |rdbTstampsTcp|
        invariant 0 <= i <= |rdbTstampsTcp|
        invariant ValueIndex(rdbTstampsTcp, receivedTstampTcp) == ValueIndexFrom(rdbTstampsTcp, receivedTstampTcp, i)
      {
        if rdbTstampsTcp[i] == receivedTstampTcp {
          recvType := Rdb;
          recvTypeNum := (i + 1) % 256;
          return true;
        }
        i := i + 1;
      }
      return false;
    }

    /** The exact difference to the transmission at the stored index in milliseconds, truncated toward zero,
        whichever of the two clocks is ahead. */
    method CalculateRecvDiff(received: TimeVal)
      requires sendTcpStampRecvIndex < |sentTstampPcap|
      requires received.Normalised() && sentTstampPcap[sendTcpStampRecvIndex].time.Normalised()
      modifies this`diff
      ensures diff == CDiv(received.Micros() - sentTstampPcap[sendTcpStampRecvIndex].time.Micros(), 1000)
    {
      var sent := sentTstampPcap[sendTcpStampRecvIndex].time;
      var tv := NegTimerSub(received, sent);
      var ms := tv.sec * 1000;
      if ms >= 0 {
        ms := ms + CDiv(tv.usec, 1000);
      } else {
        ms := ms - CDiv(tv.usec, 1000);
      }
      diff := ms;
      MillisExact(received.Micros() - sent.Micros());
    }
  }

  function StampIndexFrom(s: seq<Stamp>, val: nat, i: nat): Option<nat>
    requires i <= |s|
    decreases |s| - i
  {
    if i == |s| then None else if s[i].val == val then Some(i) else StampIndexFrom(s, val, i + 1)
  }

  /** The first transmission with the stamp. */
  function StampIndex(s: seq<Stamp>, val: nat): Option<nat> {
    StampIndexFrom(s, val, 0)
  }

  /** The index that `matchReceivedType` leaves in a new entry. */
  function StoredIndex(r: Range): nat {
    match StampIndex(r.tstampsTcp, r.receivedTstampTcp)
    case Some(i) => i % 256
    case None => 0
  }

  function ValueIndexFrom(s: seq<nat>, val: nat, i: nat): Option<nat>
    requires i <= |s|
    decreases |s| - i
  {
    if i == |s| then None else if s[i] == val then Some(i) else ValueIndexFrom(s, val, i + 1)
  }

  function ValueIndex(s: seq<nat>, val: nat): Option<nat> {
    ValueIndexFrom(s, val, 0)
  }

  lemma {:induction false} ValueIndexIsFirst(s: seq<nat>, val: nat, i: nat)
    requires i <= |s|
    ensures match ValueIndexFrom(s, val, i)
      case Some(k) => i <= k < |s| && s[k] == val && forall j :: i <= j < k ==> s[j] != val
      case None => forall j :: i <= j < |s| ==> s[j] != val
    decreases |s| - i
  {
    if i < |s| && s[i] != val {
      ValueIndexIsFirst(s, val, i + 1);
    }
  }

  lemma {:induction false} StampIndexIsFirst(s: seq<Stamp>, val: nat, i: nat)
    requires i <= |s|
    ensures match StampIndexFrom(s, val, i)
      case Some(k) => i <= k < |s| && s[k].val == val && forall j :: i <= j < k ==> s[j].val != val
      case None => forall j :: i <= j < |s| ==> s[j].val != val
    decreases |s| - i
  {
    if i < |s| && s[i].val != val {
      StampIndexIsFirst(s, val, i + 1);
    }
  }
}
