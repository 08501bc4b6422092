/** The class `RangeManager`: the index as an object. Its map holds `ByteRange` objects that are split,
    extended and counted on in place; `View` is the map of their values. */
module RangeManagers {
  import opened Common
  import opened OrderedMap
  import opened ByteRanges
  import opened Index
  import opened ByteRangeObjects
  import opened Acks
  import opened ReceiveRun
  import opened Accounting
  import opened Registration
  import opened Report

  /** How a call ends: normally, with the exception of the recursion guard, or with a failed assertion. */
  datatype Status = Fine | LogicError | AssertionFails

  function StatusOf(r: Inserted): Status {
    match r
    case Ok(_) => Fine
    case Thrown => LogicError
    case Abort => AssertionFails
  }

  /** What one call of `insertByteRange` decides, before any recursive call. */
  datatype Next = Finished | From(at: int) | Stopped(status: Status)

  /** The decision and the map agree with the step on values. */
  ghost predicate Agrees(o: Outcome, next: Next, m: Ranges) {
    match o
    case Done(m') => next.Finished? && m == m'
    case Again(m', at) => next == From(at) && m == m'
    case Threw => next == Stopped(LogicError)
    case Aborted => next == Stopped(AssertionFails)
  }

  /** How `processAck` ends: with its result, or by searching past the first entry. */
  datatype AckStatus = Answered(ret: bool) | RanPastFirst

  ghost predicate AckAgrees(o: AckResult, r: AckStatus, m: Ranges, saved: Option<int>) {
    match o
    case Processed(m', saved', ret) => r == Answered(ret) && m == m' && saved == saved'
    case RanOff => r == RanPastFirst
  }

  class RangeManager {
    var ranges: map<int, ByteRange>
    var firstSeq: int
    var lastSeq: int
    var highestAcked: Option<int>
    var ackCount: nat
    var analysedSentPureAckCount: nat
    var analysedBytesSent: int
    var analysedBytesSentUnique: int
    var analysedRedundantBytes: int
    var analysedLostBytes: int
    var analysedPacketSentCountInDump: int
    var analysedPacketReceivedCount: int

    /** No two entries are the same object. */
    ghost predicate Distinct()
      reads this`ranges
    {
      forall j, k :: j in ranges && k in ranges && j != k ==> ranges[j] != ranges[k]
    }

    ghost function View(): Ranges
      reads this`ranges, ranges.Values
    {
      map k | k in ranges :: ranges[k].View()
    }

    ghost predicate Valid()
      reads this`ranges, ranges.Values
    {
      Distinct() && Keyed(View())
    }

    constructor (first: int)
      ensures Valid() && ranges == map[] && View() == map[]
      ensures firstSeq == first && lastSeq == 0 && highestAcked == None && ackCount == 0 && analysedSentPureAckCount == 0
      ensures NothingAnalysed()
    {
      ranges := map[];
      firstSeq, lastSeq, highestAcked, ackCount, analysedSentPureAckCount := first, 0, None, 0, 0;
      analysedBytesSent, analysedBytesSentUnique, analysedRedundantBytes, analysedLostBytes := 0, 0, 0, 0;
      analysedPacketSentCountInDump, analysedPacketReceivedCount := 0, 0;
    }

    lemma ViewKeys()
      ensures View().Keys == ranges.Keys
    {
    }

    lemma ViewAt(k: int)
      requires k in ranges
      ensures k in View() && View()[k] == ranges[k].View()
    {
    }

    /** Only the object of entry `k` changed. */
    twostate lemma OnlyEntry(k: int)
      requires old(Distinct()) && ranges == old(ranges) && k in ranges
      requires forall j :: j in ranges && j != k ==> unchanged(ranges[j])
      ensures View() == old(View())[k := ranges[k].View()]
    {
      forall j | j in ranges && j != k
        ensures ranges[j].View() == old(ranges[j].View())
      {
      }
    }

    /** One entry was added. */
    twostate lemma AddedEntry(k: int, new r: ByteRange)
      requires ranges == old(ranges)[k := r] && k !in old(ranges)
      requires forall j :: j in old(ranges) ==> unchanged(ranges[j])
      ensures View() == old(View())[k := r.View()]
    {
      forall j | j in old(ranges)
        ensures ranges[j].View() == old(ranges[j].View())
      {
      }
    }

    /** Cuts entry `k` so that a new entry starts at `at`. */
    method SplitEntry(k: int, at: int)
      requires Valid() && k in ranges && k < at < ranges[k].endSeq
      modifies this`ranges, ranges[k]
      ensures Valid() && View() == SplitAt(old(View()), k, at)
      ensures ranges.Keys == old(ranges.Keys) + {at} && fresh(ranges.Values - old(ranges.Values))
      ensures k in ranges && ranges[k] == old(ranges[k]) && at in ranges
      ensures at !in old(ranges) ==> ranges[at].endSeq == old(ranges[k].endSeq)
    {
      ViewAt(k);
      SplitKeyed(View(), k, at);
      var entry := ranges[k];
      var rest := entry.SplitEnd(at, entry.endSeq);
      OnlyEntry(k);
      label Cut:
      if at !in ranges {
        ranges := ranges[at := rest];
        AddedEntry@Cut(at, rest);
      }
    }

    // ---------- insertByteRange ----------

    ghost function CallOf(itype: InsertType, seg: DataSeg): Call
      reads this
    {
      Call(itype, lastSeq, firstSeq, seg)
    }

    /** Counts the segment on a part that was just cut out (RangeManager.cc:409-515). */
    method CountCutOut(r: ByteRange, ghost c: Call, s: int, itype: InsertType, seg: DataSeg, level: nat, ends: bool)
      requires c.itype == itype && c.seg == seg
      modifies r
      ensures r.View() == CountInside(old(r.View()), c, s, level, ends)
    {
      hide ByteRange.View;
      if ends && seg.flags.fin {
        r.SetFin();
      }
      if itype == InsertSent {
        r.IncreaseSent(seg, RdbAt(seg, s), if level == 0 then StRtr else StNone);
        r.AddCounts(1, if seg.isRdb then 1 else 0);
      } else {
        CountWholeReceived(r, c, seg, level);
      }
    }

    /** Counts the segment on an entry that starts where it does. */
    method CountWhole(r: ByteRange, ghost c: Call, s: int, itype: InsertType, seg: DataSeg, level: nat)
      requires c.itype == itype && c.seg == seg
      modifies r
      ensures r.View() == CountExisting(old(r.View()), c, s, level)
    {
      hide ByteRange.View;
      if itype == InsertSent {
        CountWholeSent(r, c, s, seg, level);
      } else {
        CountWholeReceived(r, c, seg, level);
      }
    }

    method CountWholeSent(r: ByteRange, ghost c: Call, s: int, seg: DataSeg, level: nat)
      requires c.itype == InsertSent && c.seg == seg
      modifies r
      ensures r.View() == CountExisting(old(r.View()), c, s, level)
    {
      hide ByteRange.View;
      var kind := StNone;
      if level == 0 {
        kind := if seg.retrans then StRtr else StPkt;
        if seg.flags.fin {
          r.AddControl(0, 1);
        }
      }
      r.IncreaseSent(seg, RdbAt(seg, s), kind);
      r.AddCounts(if seg.retrans then 1 else 0, if seg.isRdb then 1 else 0);
    }

    method CountWholeReceived(r: ByteRange, ghost c: Call, seg: DataSeg, level: nat)
      requires c.seg == seg
      modifies r
      ensures r.View() == CountReceived(old(r.View()), c, level)
    {
      hide ByteRange.View;
      r.IncreaseReceived(seg);
      if level == 0 {
        r.AddPacketReceived();
      }
    }

    method CountCutOutAt(k: int, ghost c: Call, s: int, itype: InsertType, seg: DataSeg, level: nat, ends: bool)
      requires Valid() && k in ranges && c.itype == itype && c.seg == seg
      modifies ranges[k]
      ensures Valid() && View() == old(View())[k := CountInside(old(View())[k], c, s, level, ends)]
    {
      hide CountInside;
      ViewAt(k);
      PutKeyed(View(), k, CountInside(View()[k], c, s, level, ends));
      CountCutOut(ranges[k], c, s, itype, seg, level, ends);
      OnlyEntry(k);
    }

    method CountWholeAt(k: int, ghost c: Call, s: int, itype: InsertType, seg: DataSeg, level: nat)
      requires Valid() && k in ranges && c.itype == itype && c.seg == seg
      modifies ranges[k]
      ensures Valid() && View() == old(View())[k := CountExisting(old(View())[k], c, s, level)]
    {
      hide CountExisting;
      ViewAt(k);
      PutKeyed(View(), k, CountExisting(View()[k], c, s, level));
      CountWhole(ranges[k], c, s, itype, seg, level);
      OnlyEntry(k);
    }

    lemma SearchFacts(s: int, e: int)
      requires Valid() && s < e && s !in ranges
      ensures StartOf(ranges, s) == NextKey(ranges, e) <==> NothingToSearch(View(), e)
      ensures !NothingToSearch(View(), e) ==> var start := StartOf(ranges, s);
        && start.Some? && start.value in ranges
        && (NextKey(ranges, e).None? || start.value <= NextKey(ranges, e).value)
        && Container(View(), s) == (if ranges[start.value].startSeq <= s < ranges[start.value].endSeq then start else None)
        && (forall k :: k in ranges && start.value < k ==> s < k == ranges[k].startSeq)
    {
      hide StartOf, Container, NextKey, FirstKey, NothingToSearch;
      ViewKeys();
      SameStart(ranges, View(), s, e);
      SearchStart(View(), s, e);
    }

    /** The search for an entry that holds `s` without starting there (RangeManager.cc:355-380). */
    method FindContainer(s: int, e: int) returns (ok: bool, r: Option<int>)
      requires Valid() && s < e && s !in ranges
      ensures ok <==> !NothingToSearch(View(), e)
      ensures ok ==> r == Container(View(), s)
    {
      hide StartOf, Container, NextKey, FirstKey, NothingToSearch, View;
      SearchFacts(s, e);
      var highIt := NextKey(ranges, e);
      var lowIt := StartOf(ranges, s);
      if lowIt == highIt {
        return false, None;
      }
      r := SearchBetween(lowIt.value, highIt, s);
      ok := true;
    }

    method SearchBetween(start: int, highIt: Option<int>, s: int) returns (r: Option<int>)
      requires start in ranges && Some(start) != highIt
      requires highIt.Some? ==> highIt.value in ranges && start <= highIt.value
      requires forall k :: k in ranges && start < k ==> s < k == ranges[k].startSeq
      ensures r == if ranges[start].startSeq <= s < ranges[start].endSeq then Some(start) else None
    {
      var lowIt := Some(start);
      while lowIt != highIt
        invariant lowIt.Some? ==> lowIt.value in ranges && start <= lowIt.value
        invariant lowIt != Some(start) ==> !(ranges[start].startSeq <= s < ranges[start].endSeq)
        invariant lowIt.Some? && highIt.Some? ==> lowIt.value <= highIt.value
        invariant lowIt.None? ==> highIt.None?
        decreases if lowIt.Some? then LastKey(ranges).value - lowIt.value + 1 else 0
      {
        var k := lowIt.value;
        if ranges[k].startSeq <= s && ranges[k].endSeq > s {
          return lowIt;
        }
        lowIt := NextKey(ranges, k);
      }
      return None;
    }

    /** The part of `insertByteRange` for data that lies inside an entry (RangeManager.cc:377-523). */
    method CutOut(k: int, ghost c: Call, s: int, e: int, itype: InsertType, seg: DataSeg, level: nat) returns (next: Next)
      requires Valid() && k in ranges && k < s < ranges[k].endSeq && s < e && s !in ranges
      requires c.itype == itype && c.seg == seg
      modifies this`ranges, ranges.Values
      ensures Valid() && fresh(ranges.Values - old(ranges.Values))
      ensures Agrees(StepInside(old(View()), c, k, s, e, level), next, View())
    {
      hide SplitAt, CountInside, View;
      ViewAt(k);
      var end := ranges[k].endSeq;
      SplitEntry(k, s);
      if e < end {
        SplitEntry(s, e);
      }
      CountCutOutAt(s, c, s, itype, seg, level, e <= end);
      next := if e <= end then Finished else From(end);
    }

    /** The part of `insertByteRange` for a position at which no entry starts (RangeManager.cc:279-616). */
    method InsertMissing(ghost c: Call, s: int, e: int, itype: InsertType, seg: DataSeg, level: nat) returns (next: Next)
      requires Valid() && 0 <= s < e < s + MAX_RANGE_SIZE && s !in ranges
      requires c == CallOf(itype, seg)
      modifies this`ranges, ranges.Values
      ensures fresh(ranges.Values - old(ranges.Values))
      ensures !next.Stopped? ==> Valid()
      ensures Agrees(StepMissing(old(View()), c, s, e, level), next, View())
    {
      hide StepInside, NothingToSearch, Container, View, CreateRange;
      ViewKeys();
      if s < lastSeq {
        var ok, k := FindContainer(s, e);
        if !ok {
          return Stopped(AssertionFails);
        }
        if k.Some? {
          ViewAt(k.value);
          next := CutOut(k.value, c, s, e, itype, seg, level);
          return;
        }
      }
      if itype == InsertRecv {
        return Finished;
      }
      if seg.flags.syn {
        return Stopped(AssertionFails);
      }
      AddNew(c, s, e, seg);
      next := Finished;
    }

    method AddNew(ghost c: Call, s: int, e: int, seg: DataSeg)
      requires Valid() && 0 <= s < e < s + MAX_RANGE_SIZE && s !in ranges && c.seg == seg
      modifies this`ranges
      ensures Valid() && fresh(ranges.Values - old(ranges.Values))
      ensures View() == old(View())[s := CreateRange(c, s, e)]
    {
      PutKeyed(View(), s, CreateRange(c, s, e));
      var r := Created(c, s, e, seg);
      ranges := ranges[s := r];
      AddedEntry(s, r);
    }

    method Created(ghost c: Call, s: int, e: int, seg: DataSeg) returns (r: ByteRange)
      requires s < e < s + MAX_RANGE_SIZE && c.seg == seg
      ensures fresh(r) && r.View() == CreateRange(c, s, e)
    {
      hide ByteRange.View;
      r := new ByteRange(s, e);
      r.SetOrigin(seg.payloadSize, seg.isRdb);
      r.IncreaseSent(seg, RdbAt(seg, s), if seg.isRdb then StNone else StPkt);
      if seg.flags.fin {
        r.SetFin();
      }
    }

    /** Data reaches an entry without bytes (RangeManager.cc:755-796): it takes over the bytes up to the next entry. */
    method TakeOver(ghost c: Call, s: int, e: int, seg: DataSeg) returns (next: Next)
      requires Valid() && 0 <= s < e < s + MAX_RANGE_SIZE && s in ranges && ranges[s].byteCount == 0
      requires c.seg == seg
      modifies ranges.Values
      ensures Valid() && Agrees(StepEmptyEntry(old(View()), c, s, e), next, View())
    {
      hide View;
      ViewAt(s);
      var end := GapEnd(s, e);
      TakeBytes(c, s, end, seg);
      next := if ranges[s].endSeq < e then From(ranges[s].endSeq) else Finished;
    }

    /** Where the bytes that an empty entry can take end. The arm for a following entry that starts at
        the same place cannot be reached. */
    method GapEnd(s: int, e: int) returns (end: int)
      requires Valid() && s < e && s in ranges && ranges[s].byteCount == 0
      ensures s < end <= e && end == (match NextKey(View(), s) case None => e case Some(n) => Min(n, e))
    {
      ViewKeys();
      ViewAt(s);
      SameIterators(ranges, View(), s);
      if ranges[LastKey(ranges).value] == ranges[s] {
        return e;
      }
      var n := NextKey(ranges, s).value;
      ViewAt(n);
      hide View;
      if ranges[s].endSeq != ranges[n].startSeq {
        end := Min(ranges[n].startSeq, e);
      } else {
        assert false;
      }
    }

    method TakeBytes(ghost c: Call, s: int, end: int, seg: DataSeg)
      requires Valid() && s in ranges && s < end < s + MAX_RANGE_SIZE && c.seg == seg
      modifies ranges[s]
      ensures ranges[s].endSeq == end
      ensures Valid() && View() == old(View())[s := old(View())[s].Stretch(end).IncreaseSent(seg, RdbAt(seg, s), StPkt)]
    {
      ViewAt(s);
      PutKeyed(View(), s, View()[s].Stretch(end).IncreaseSent(seg, RdbAt(seg, s), StPkt));
      hide ByteRange.View;
      ranges[s].StretchTo(end);
      ranges[s].IncreaseSent(seg, RdbAt(seg, s), StPkt);
      OnlyEntry(s);
    }

    /** The part of `insertByteRange` for a position at which an entry starts (RangeManager.cc:724-961). */
    method InsertFound(ghost c: Call, s: int, e: int, itype: InsertType, seg: DataSeg, level: nat) returns (next: Next)
      requires Valid() && 0 <= s < e < s + MAX_RANGE_SIZE && s in ranges
      requires c == CallOf(itype, seg)
      modifies this`ranges, ranges.Values
      ensures fresh(ranges.Values - old(ranges.Values))
      ensures !next.Stopped? ==> Valid()
      ensures Agrees(StepFound(old(View()), c, s, e, level), next, View())
    {
      hide View, CountExisting, StepEmptyEntry, SplitAt;
      ViewAt(s);
      var entry := ranges[s];
      var end := entry.endSeq;
      if end != e {
        if itype == InsertRecv && e == (firstSeq + 1) % WRAP {
          return Stopped(AssertionFails);
        }
        if end < e {
          if itype == InsertSent && entry.byteCount == 0 {
            next := TakeOver(c, s, e, seg);
            return;
          }
          CountWholeAt(s, c, s, itype, seg, level);
          ViewAt(s);
          if itype == InsertRecv && entry.receivedTstampTcp == 0 {
            return Stopped(AssertionFails);
          }
          if level > RECURSION_LEVEL {
            return Stopped(LogicError);
          }
          next := From(entry.endSeq);
        } else {
          SplitEntry(s, e);
          CountWholeAt(s, c, s, itype, seg, level);
          next := Finished;
        }
      } else {
        CountWholeAt(s, c, s, itype, seg, level);
        if itype == InsertSent && seg.flags.syn {
          CountSyn(s);
        }
        next := Finished;
      }
    }

    method CountSyn(s: int)
      requires Valid() && s in ranges
      modifies ranges[s]
      ensures Valid() && View() == old(View())[s := old(View())[s].(syn := old(View())[s].syn + 1)]
    {
      ViewAt(s);
      PutKeyed(View(), s, View()[s].(syn := View()[s].syn + 1));
      hide ByteRange.View;
      ranges[s].AddControl(1, 0);
      OnlyEntry(s);
    }

    /** The parts of `insertByteRange` for a segment without payload (RangeManager.cc:254-353 and 666-722). */
    method InsertControl(ghost c: Call, s: int, itype: InsertType, seg: DataSeg)
      requires Valid() && 0 <= s && c == CallOf(itype, seg)
      modifies this`ranges, this`analysedSentPureAckCount, ranges.Values
      ensures Valid() && fresh(ranges.Values - old(ranges.Values))
      ensures View() == InsertEmpty(old(View()), c, s)
      ensures analysedSentPureAckCount == old(analysedSentPureAckCount) + if itype == InsertSent then 1 else 0
    {
      hide View, EmptyEntry, CountEmpty;
      ViewKeys();
      InsertEmptyKeyed(View(), c, s);
      if itype == InsertSent {
        analysedSentPureAckCount := analysedSentPureAckCount + 1;
      }
      var k := s;
      if !seg.flags.syn && !seg.flags.fin && !seg.flags.rst {
        if s - 1 in ranges {
          k := s - 1;
        }
      }
      if k !in ranges {
        AddControlEntry(c, k, s, seg);
      } else {
        CountControlAt(k, c, s, itype, seg);
      }
    }

    method AddControlEntry(ghost c: Call, k: int, s: int, seg: DataSeg)
      requires Valid() && k !in ranges && c.seg == seg
      modifies this`ranges
      ensures Distinct() && fresh(ranges.Values - old(ranges.Values))
      ensures View() == old(View())[k := EmptyEntry(c, k, s)]
    {
      hide EmptyEntry;
      var r := CreatedEmpty(c, k, s, seg);
      ranges := ranges[k := r];
      AddedEntry(k, r);
    }

    method CountControlAt(k: int, ghost c: Call, s: int, itype: InsertType, seg: DataSeg)
      requires Valid() && k in ranges && c.itype == itype && c.seg == seg
      modifies ranges[k]
      ensures Distinct() && View() == old(View())[k := CountEmpty(old(View())[k], c, s)]
    {
      hide CountEmpty;
      ViewAt(k);
      CountControl(ranges[k], c, s, itype, seg);
      OnlyEntry(k);
    }

    method CreatedEmpty(ghost c: Call, k: int, s: int, seg: DataSeg) returns (r: ByteRange)
      requires c.seg == seg
      ensures fresh(r) && r.View() == EmptyEntry(c, k, s)
    {
      hide ByteRange.View;
      r := new ByteRange(k, k);
      r.AddPacketRetrans(if seg.retrans then 1 else 0);
      r.AddCounts(0, if seg.isRdb then 1 else 0);
      if seg.flags.syn {
        r.AddControl(1, 0);
      } else if seg.flags.fin {
        r.AddControl(0, 1);
      } else if seg.flags.rst {
        r.AddReset();
      }
      r.IncreaseSent(seg, RdbAt(seg, s), if r.syn > 0 || r.rst > 0 || r.fin > 0 then StPkt else StPureAck);
    }

    method CountControl(r: ByteRange, ghost c: Call, s: int, itype: InsertType, seg: DataSeg)
      requires c.itype == itype && c.seg == seg
      modifies r
      ensures r.View() == CountEmpty(old(r.View()), c, s)
    {
      hide ByteRange.View;
      if itype == InsertSent {
        var kind := StPureAck;
        if seg.flags.syn || seg.flags.fin {
          r.AddControl(if seg.flags.syn then 1 else 0, if seg.flags.fin then 1 else 0);
          kind := StRtr;
        } else if seg.flags.rst {
          kind := StRst;
          r.AddReset();
        }
        r.IncreaseSent(seg, RdbAt(seg, s), kind);
      } else {
        if seg.flags.syn || seg.flags.fin {
          r.IncreaseReceived(seg);
        }
        r.AddPacketReceived();
      }
    }

    /** `insertByteRange` is the insertion on values: same outcome, and when it returns, the same map. */
    method InsertByteRange(s: int, e: int, itype: InsertType, seg: DataSeg, level: nat) returns (status: Status)
      requires Valid() && 0 <= s <= e < s + MAX_RANGE_SIZE && (s == e ==> level == 0)
      modifies this`ranges, this`analysedSentPureAckCount, ranges.Values
      ensures fresh(ranges.Values - old(ranges.Values))
      ensures analysedSentPureAckCount == old(analysedSentPureAckCount) + if s == e && itype == InsertSent then 1 else 0
      ensures Inserts(old(View()), old(CallOf(itype, seg)), s, e, level, status, View())
      ensures status.Fine? ==> Valid()
      decreases e - s, if level <= RECURSION_LEVEL then RECURSION_LEVEL + 1 - level else 0
    {
      hide View, StepFound, StepMissing;
      ViewKeys();
      ghost var c := CallOf(itype, seg);
      if s == e {
        InsertControl(c, s, itype, seg);
        return Fine;
      }
      StepProgress(View(), c, s, e, level);
      var next: Next;
      if s in ranges {
        next := InsertFound(c, s, e, itype, seg, level);
      } else {
        next := InsertMissing(c, s, e, itype, seg, level);
      }
      match next
      case Finished => status := Fine;
      case Stopped(why) => status := why;
      case From(at) => status := InsertByteRange(at, e, itype, seg, level + 1);
    }

    method InsertSentRange(seg: DataSeg) returns (status: Status)
      requires Valid() && 0 <= seg.startSeq <= seg.endSeq < seg.startSeq + MAX_RANGE_SIZE
      modifies this`ranges, this`analysedSentPureAckCount, this`lastSeq, ranges.Values
      ensures fresh(ranges.Values - old(ranges.Values))
      ensures Inserts(old(View()), old(CallOf(InsertSent, seg)), seg.startSeq, seg.endSeq, 0, status, View())
      ensures status.Fine? ==> Valid() && lastSeq == NextLastSeq(old(lastSeq), seg)
    {
      hide View;
      status := InsertByteRange(seg.startSeq, seg.endSeq, InsertSent, seg, 0);
      if !status.Fine? {
        return;
      }
      if seg.payloadSize == 0 {
        if !seg.flags.rst {
          lastSeq := seg.endSeq;
          if seg.flags.syn {
            lastSeq := lastSeq + 1;
          }
        }
      } else if seg.startSeq == lastSeq {
        lastSeq := seg.startSeq + seg.payloadSize;
      } else if seg.startSeq < lastSeq && seg.endSeq > lastSeq {
        lastSeq := seg.startSeq + seg.payloadSize;
      }
    }

    method InsertReceivedRange(seg: DataSeg) returns (status: Status)
      requires Valid() && 0 <= seg.startSeq <= seg.endSeq < seg.startSeq + MAX_RANGE_SIZE
      modifies this`ranges, this`analysedSentPureAckCount, ranges.Values
      ensures fresh(ranges.Values - old(ranges.Values))
      ensures Inserts(old(View()), RecvCall(old(lastSeq), firstSeq, seg), seg.startSeq, seg.endSeq, 0, status, View())
      ensures status.Fine? ==> Valid()
    {
      var copied := DataSeg(seg.startSeq, seg.endSeq, 0, 0, seg.payloadSize, seg.retrans, seg.isRdb, false,
                            seg.flags, seg.tstampPcap, seg.tstampTcp, 0);
      assert copied == Forwarded(seg);
      status := InsertByteRange(copied.startSeq, copied.endSeq, InsertRecv, copied, 0);
    }

    // ---------- processAck ----------

    method AckExactAt(k: int, a: AckSeg)
      requires Valid() && k in ranges
      modifies ranges[k]
      ensures Valid() && View() == old(View())[k := AckExact(old(View())[k], a, highestAcked == Some(k))]
    {
      ViewAt(k);
      PutKeyed(View(), k, AckExact(View()[k], a, highestAcked == Some(k)));
      MarkExact(ranges[k], a, highestAcked == Some(k));
      hide AckExact;
      OnlyEntry(k);
    }

    method MarkExact(r: ByteRange, a: AckSeg, isSaved: bool)
      modifies r
      ensures r.View() == AckExact(old(r.View()), a, isSaved)
    {
      ghost var v := r.View();
      assert v.acked == r.acked && v.byteCount == r.byteCount && v.tstampsTcp == r.tstampsTcp && v.tcpWindow == r.tcpWindow;
      hide ByteRange.View;
      if !r.acked {
        r.SetWindow(a.window);
        if r.byteCount == 0 {
          if |r.tstampsTcp| > 0 {
            if r.tstampsTcp[0].echo != a.tstampTcp {
              r.InsertAckTime(a.tstampPcap);
            }
          }
        } else {
          r.InsertAckTime(a.tstampPcap);
        }
      } else if isSaved {
        if a.window > 0 && a.window == r.tcpWindow {
          r.CountDupAck();
        } else {
          r.SetWindow(a.window);
        }
      }
      r.CountAck(a.window);
    }

    method AckInsideAt(k: int, a: AckSeg)
      requires Valid() && k in ranges && k < a.ack < ranges[k].endSeq
      modifies this`ranges, ranges[k]
      ensures Valid() && fresh(ranges.Values - old(ranges.Values))
      ensures a.ack in ranges
      ensures var cut := SplitAt(old(View()), k, a.ack); View() == cut[k := AckInside(cut[k], a)]
    {
      hide SplitAt, View;
      SplitEntry(k, a.ack);
      MarkInsideAt(k, a);
    }

    method MarkInsideAt(k: int, a: AckSeg)
      requires Valid() && k in ranges
      modifies ranges[k]
      ensures Valid() && View() == old(View())[k := AckInside(old(View())[k], a)]
    {
      ViewAt(k);
      PutKeyed(View(), k, AckInside(View()[k], a));
      MarkInside(ranges[k], a);
      OnlyEntry(k);
    }

    method MarkInside(r: ByteRange, a: AckSeg)
      modifies r
      ensures r.View() == AckInside(old(r.View()), a)
    {
      hide ByteRange.View;
      r.InsertAckTime(a.tstampPcap);
      r.CountAck(a.window);
    }

    method AckBeyondAt(k: int, a: AckSeg)
      requires Valid() && k in ranges
      modifies ranges[k]
      ensures Valid() && View() == old(View())[k := AckBeyond(old(View())[k], a)]
    {
      ViewAt(k);
      PutKeyed(View(), k, AckBeyond(View()[k], a));
      if !ranges[k].acked {
        ranges[k].InsertAckTime(a.tstampPcap);
      }
      hide ByteRange.View;
      OnlyEntry(k);
    }

    method CountAckAt(k: int)
      requires Valid() && k in ranges
      modifies ranges[k]
      ensures Valid() && View() == old(View())[k := CountAck(old(View())[k])]
    {
      ViewAt(k);
      PutKeyed(View(), k, CountAck(View()[k]));
      hide ByteRange.View;
      ranges[k].CountOldAck();
      OnlyEntry(k);
    }

    /** The search for a FIN, backwards from entry `p` (RangeManager.cc:1129-1137). */
    method SearchFinBack(p: int) returns (r: FinSearch)
      requires p in ranges
      ensures r == SearchFin(View(), p)
    {
      var prev := p;
      while true
        invariant prev in ranges && SearchFin(View(), prev) == SearchFin(View(), p)
        decreases prev - FirstKey(ranges).value
      {
        ViewAt(prev);
        ViewKeys();
        SameIterators(ranges, View(), prev);
        if ranges[prev].fin > 0 {
          return FinAt(prev);
        }
        if ranges[prev].packetSentCount == ranges[prev].dataSentCount {
          return StopsAt(prev);
        }
        var before := PrevKey(ranges, prev);
        if before.None? {
          return OffTheFront;
        }
        prev := before.value;
      }
    }

    /** The search for the entry an acknowledgement of old data ends at, backwards from entry `p` (RangeManager.cc:1142-1157). */
    method FindOldAck(p: int, a: AckSeg) returns (hit: Option<int>, ret: bool)
      requires p in ranges
      ensures hit.Some? ==> hit.value in ranges
      ensures OldAck(View(), highestAcked, p, a)
           == Processed(if hit.Some? then View()[hit.value := CountAck(View()[hit.value])] else View(), highestAcked, ret)
    {
      var prev := p;
      while true
        invariant prev in ranges && OldAck(View(), highestAcked, prev, a) == OldAck(View(), highestAcked, p, a)
        decreases prev - FirstKey(ranges).value
      {
        ViewAt(prev);
        ViewKeys();
        SameIterators(ranges, View(), prev);
        if a.ack == ranges[prev].endSeq {
          return Some(prev), true;
        }
        if a.ack > ranges[prev].endSeq {
          return None, true;
        }
        var before := PrevKey(ranges, prev);
        if before.None? {
          return None, false;
        }
        prev := before.value;
      }
    }

    /** An acknowledgement that does not reach into entry `k` (RangeManager.cc:1110-1165). */
    method AckBeforeEntry(k: int, a: AckSeg) returns (r: AckStatus)
      requires Valid() && k in ranges
      modifies ranges.Values
      ensures r.Answered? ==> Valid()
      ensures AckAgrees(AckBefore(old(View()), highestAcked, k, a), r, View(), highestAcked)
    {
      ViewKeys();
      SameIterators(ranges, View(), k);
      hide View, AckBehind, PrevKey;
      var prev := PrevKey(ranges, k);
      if prev.None? {
        return Answered(false);
      }
      r := AckBehindEntry(k, prev.value, a);
    }

    method AckBehindEntry(k: int, p: int, a: AckSeg) returns (r: AckStatus)
      requires Valid() && k in ranges && p in ranges
      modifies ranges.Values
      ensures r.Answered? ==> Valid()
      ensures AckAgrees(AckBehind(old(View()), highestAcked, k, p, a), r, View(), highestAcked)
    {
      ViewKeys();
      ViewAt(k);
      ViewAt(p);
      hide View, SearchFin, OldAck, CountAck;
      var from := StopsAt(p);
      if a.ack - 1 == ranges[p].endSeq {
        from := SearchFinBack(p);
      }
      if from.FinAt? {
        CountAckAt(from.key);
        return Answered(true);
      }
      if from.OffTheFront? {
        return RanPastFirst;
      }
      if a.ack < ranges[k].endSeq {
        var hit, ret := FindOldAck(from.key, a);
        if hit.Some? {
          CountAckAt(hit.value);
        }
        return Answered(ret);
      }
      return Answered(false);
    }

    /** One round of the walk: an answer, or the walk goes on behind entry `k`. */
    method AckEntry(k: int, a: AckSeg, ret0: bool) returns (r: Option<AckStatus>, ret: bool)
      requires Valid() && SentOnce(View()) && k in ranges
      modifies this`ranges, this`highestAcked, ranges.Values
      ensures fresh(ranges.Values - old(ranges.Values))
      ensures r.Some? && r.value.Answered? ==> Valid()
      ensures r.Some? ==> AckAgrees(AckFrom(old(View()), old(highestAcked), k, a, ret0), r.value, View(), highestAcked)
      ensures r.None? ==>
        && Valid() && highestAcked == Some(k) && ranges.Keys == old(ranges.Keys)
        && ContinuesAck(old(View()), old(highestAcked), k, a, ret0, View(), ret)
    {
      hide View, AckExact, AckInside, AckBeyond, AckBefore, SplitAt;
      ViewAt(k);
      ViewKeys();
      ret := ret0;
      var entry := ranges[k];
      if a.ack == entry.endSeq || (entry.byteCount == 0 && a.ack - 1 == entry.endSeq) {
        AckExactAt(k, a);
        highestAcked := Some(k);
        return Some(Answered(true)), ret;
      }
      if a.ack > entry.endSeq {
        if a.tstampPcap.Before(entry.sentTstampPcap[0].time) {
          return Some(Answered(false)), ret;
        }
        if !entry.acked {
          ret := true;
        }
        AckBeyondAt(k, a);
        highestAcked := Some(k);
        return None, ret;
      }
      if a.ack > entry.startSeq && a.ack < entry.endSeq {
        AckInsideAt(k, a);
        highestAcked := Some(a.ack);
        return Some(Answered(true)), ret;
      }
      var status := AckBeforeEntry(k, a);
      return Some(status), ret;
    }

    /** `processAck` is the walk on values: same map, same saved iterator, same result. The code demands
        that something was sent before. */
    method ProcessAck(a: AckSeg) returns (r: AckStatus)
      requires Valid() && SentOnce(View()) && View() != map[] && SavedIn(View(), highestAcked)
      modifies this`ranges, this`highestAcked, this`ackCount, ranges.Values
      ensures fresh(ranges.Values - old(ranges.Values))
      ensures r.Answered? ==> Valid()
      ensures AckAgrees(Acks.ProcessAck(old(View()), old(highestAcked), a), r, View(), highestAcked)
      ensures ackCount == old(ackCount) + 1
    {
      hide View, AckFrom, FirstKey, Keyed, SentOnce;
      ViewKeys();
      ackCount := ackCount + 1;
      var it := WalkStart();
      if a.ack < ranges[it].startSeq {
        return Answered(true);
      }
      r := Walk(it, a);
    }

    method WalkStart() returns (it: int)
      requires Valid() && View() != map[] && SavedIn(View(), highestAcked)
      ensures it in ranges && ranges[it].startSeq == it
      ensures it == if highestAcked.Some? then highestAcked.value else FirstKey(View()).value
    {
      ViewKeys();
      SameIterators(ranges, View(), 0);
      it := match highestAcked case None => FirstKey(ranges).value case Some(k) => k;
      ViewAt(it);
    }

    method Following(k: int) returns (next: Option<int>)
      requires k in ranges
      ensures next == NextKey(View(), k) && (next.Some? ==> next.value in ranges && k < next.value)
    {
      ViewKeys();
      SameIterators(ranges, View(), k);
      next := NextKey(ranges, k);
    }

    ghost predicate Walkable()
      reads this`ranges, ranges.Values
    {
      Valid() && SentOnce(View())
    }

    lemma WalkableIsValid()
      requires Walkable()
      ensures Valid()
    {
    }

    /** One round of the loop: an answer, or the next iterator. */
    method Round(k: int, a: AckSeg, ret0: bool) returns (r: Option<AckStatus>, next: Option<int>, ret: bool)
      requires Walkable() && k in ranges
      modifies this`ranges, this`highestAcked, ranges.Values
      ensures fresh(ranges.Values - old(ranges.Values))
      ensures r.Some? && r.value.Answered? ==> Valid()
      ensures r.Some? ==> AckAgrees(WalkFrom(old(View()), old(highestAcked), Some(k), a, ret0), r.value, View(), highestAcked)
      ensures r.None? ==>
        && Walkable() && ranges.Keys == old(ranges.Keys)
        && (next.Some? ==> next.value in ranges && k < next.value)
        && WalkFrom(old(View()), old(highestAcked), Some(k), a, ret0) == WalkFrom(View(), highestAcked, next, a, ret)
    {
      ViewKeys();
      hide View, AckFrom, SentOnce, Keyed, NextKey;
      next := Following(k);
      r, ret := AckEntry(k, a, ret0);
    }

    method Walk(k: int, a: AckSeg) returns (r: AckStatus)
      requires Walkable() && k in ranges
      modifies this`ranges, this`highestAcked, ranges.Values
      ensures fresh(ranges.Values - old(ranges.Values))
      ensures r.Answered? ==> Valid()
      ensures AckAgrees(WalkFrom(old(View()), old(highestAcked), Some(k), a, false), r, View(), highestAcked)
    {
      hide View, Walkable, LastKey, AckFrom;
      ghost var last := LastKey(ranges).value;
      ghost var goal := WalkFrom(View(), highestAcked, Some(k), a, false);
      var it, ret := Some(k), false;
      while it.Some?
        invariant Walkable() && ranges.Keys == old(ranges.Keys)
        invariant fresh(ranges.Values - old(ranges.Values))
        invariant it.Some? ==> it.value in ranges && it.value <= last
        invariant goal == WalkFrom(View(), highestAcked, it, a, ret)
        decreases if it.Some? then last - it.value else -1
      {
        var status: Option<AckStatus>;
        status, it, ret := Round(it.value, a, ret);
        if status.Some? {
          return status.value;
        }
      }
      WalkableIsValid();
      return Answered(ret);
    }

    // ---------- the reports ----------

    predicate NothingAnalysed()
      reads this
    {
      && analysedBytesSent == analysedBytesSentUnique == analysedRedundantBytes == analysedLostBytes == 0
      && analysedPacketSentCountInDump == analysedPacketReceivedCount == 0
    }

    /** Adds one entry to the totals (RangeManager.cc:1660-1722). */
    method AnalyseEntry(r: ByteRange, withRecv: bool, ghost v: Range)
      requires v == r.View()
      modifies this`analysedBytesSent, this`analysedBytesSentUnique, this`analysedRedundantBytes, this`analysedLostBytes,
        this`analysedPacketSentCountInDump, this`analysedPacketReceivedCount
      ensures analysedBytesSent == old(analysedBytesSent) + SentBytes(v)
      ensures analysedBytesSentUnique == old(analysedBytesSentUnique) + UniqueBytes(v)
      ensures analysedRedundantBytes == old(analysedRedundantBytes) + RedundantBytes(v)
      ensures analysedLostBytes == if withRecv then (old(analysedLostBytes) + LostBytes(v)) % WRAP64 else old(analysedLostBytes)
      ensures analysedPacketSentCountInDump == old(analysedPacketSentCountInDump) + PacketsSent(v)
      ensures analysedPacketReceivedCount == old(analysedPacketReceivedCount) + PacketsReceived(v)
    {
      analysedRedundantBytes := analysedRedundantBytes + r.byteCount * (r.dataRetransCount + r.rdbCount);
      analysedBytesSent := analysedBytesSent + r.dataSentCount * r.byteCount;
      analysedBytesSentUnique := analysedBytesSentUnique + r.byteCount;
      analysedPacketSentCountInDump := analysedPacketSentCountInDump + (r.packetSentCount + r.packetRetransCount + r.ackedSent);
      analysedPacketReceivedCount := analysedPacketReceivedCount + r.packetReceivedCount;
      if withRecv {
        analysedLostBytes := (analysedLostBytes + (r.dataSentCount - r.dataReceivedCount) * r.byteCount) % WRAP64;
      }
    }

    /** `calculateRealLoss` over the entries from `from` up to `to`: every total grows by the sum over
        these entries; the lost bytes are kept modulo 2^64. */
    method CalculateRealLoss(from: int, to: Option<int>, withRecv: bool)
      requires Valid() && from in ranges && (to.Some? ==> to.value in ranges && from <= to.value)
      requires NothingAnalysed()
      modifies this`analysedBytesSent, this`analysedBytesSentUnique, this`analysedRedundantBytes, this`analysedLostBytes,
        this`analysedPacketSentCountInDump, this`analysedPacketReceivedCount
      ensures TotalsOver(Window(View(), from, to), withRecv)
    {
      EmptyWindow(View(), from);
      hide View, Window, Total, LastKey, Keyed;
      var it := Some(from);
      ghost var last := LastKey(ranges).value;
      assert TotalsOver(Window(View(), from, it), withRecv) by {
        EmptyTotals();
      }
      hide TotalsOver, Grows;
      while it != to
        invariant View() == old(View()) && Valid()
        invariant it.Some? ==> it.value in ranges && from <= it.value <= last && (to.Some? ==> it.value <= to.value)
        invariant it.None? ==> to.None?
        invariant TotalsOver(Window(View(), from, it), withRecv)
        decreases if it.Some? then last - it.value else -1
      {
        var k := it.value;
        ViewAt(k);
        ViewKeys();
        it := Following(k);
        WindowSteps(View(), from, k);
        AnalyseNext(ranges[k], withRecv, View()[k], Window(View(), from, Some(k)), Window(View(), from, it));
      }
    }

    method AnalyseNext(r: ByteRange, withRecv: bool, ghost v: Range, ghost w: Ranges, ghost w': Ranges)
      requires v == r.View() && TotalsOver(w, withRecv) && Grows(w, v, w')
      modifies this`analysedBytesSent, this`analysedBytesSentUnique, this`analysedRedundantBytes, this`analysedLostBytes,
        this`analysedPacketSentCountInDump, this`analysedPacketReceivedCount
      ensures TotalsOver(w', withRecv)
    {
      hide Total, SentBytes, UniqueBytes, ReceivedBytes, LostBytes, RedundantBytes, PacketsSent, PacketsReceived;
      AnalyseEntry(r, withRecv, v);
    }

    /** The reported totals are the sums over the entries of `w`. */
    ghost predicate TotalsOver(w: Ranges, withRecv: bool)
      reads this
    {
      && analysedBytesSent == Total(w, SentBytes)
      && analysedBytesSentUnique == Total(w, UniqueBytes)
      && analysedRedundantBytes == Total(w, RedundantBytes)
      && analysedLostBytes == (if withRecv then Total(w, LostBytes) % WRAP64 else 0)
      && analysedPacketSentCountInDump == Total(w, PacketsSent)
      && analysedPacketReceivedCount == Total(w, PacketsReceived)
    }

    /** `validateContent` prints no warning if and only if the map and the totals pass its checks. */
    method ValidateContent(t: Totals) returns (accepted: bool)
      requires Valid() && View() != map[]
      ensures accepted <==> ValidatorAccepts(View(), lastSeq, t)
    {
      hide View, EndAligned, BrokenAt, FirstKey, Keyed;
      accepted := EndsAccepted(t);
      var joined := NoneBroken();
      accepted := accepted && joined;
    }

    method EndsAccepted(t: Totals) returns (accepted: bool)
      requires Valid() && View() != map[]
      ensures accepted <==>
        && View()[FirstKey(View()).value].startSeq == 0 && EndAligned(View(), lastSeq)
        && t.totBytesSent == t.totNewDataSent + t.totRdbBytesSent + t.totRetransBytesSent
    {
      ViewKeys();
      SameIterators(ranges, View(), 0);
      var first, rbegin := FirstKey(ranges).value, LastKey(ranges).value;
      ViewAt(first);
      ViewAt(rbegin);
      accepted := ranges[first].startSeq == 0;
      if !(ranges[rbegin].endSeq <= lastSeq && ranges[rbegin].endSeq >= (lastSeq - 1) % WRAP64) {
        accepted := false;
      }
      if t.totBytesSent != t.totNewDataSent + t.totRdbBytesSent + t.totRetransBytesSent {
        accepted := false;
      }
    }

    /** The walk over all entries (RangeManager.cc:1357-1402). Its `prev` stays at the end iterator while it is at the second entry. */
    method NoneBroken() returns (joined: bool)
      requires Valid() && View() != map[]
      ensures joined <==> forall k :: k in View() ==> !BrokenAt(View(), k)
    {
      ghost var m := View();
      hide View, BrokenAt, NextKey, LastKey, FirstKey, Keyed;
      ghost var last := LastKey(m).value;
      ViewKeys();
      FirstUnbroken(m);
      var first := WalkBegin();
      ghost var at := first;
      var tmpEndSeq, prev := ranges[first].endSeq, None;
      var it := Following(first);
      joined := true;
      while it.Some?
        invariant View() == m
        invariant at in ranges && it == NextKey(m, at) && (it.Some? ==> it.value in ranges && at < it.value)
        invariant tmpEndSeq == ranges[at].endSeq && prev == if at == first then None else Some(at)
        invariant joined <==> forall k :: k in m && k <= at ==> !BrokenAt(m, k)
        decreases last - at
      {
        var k := it.value;
        var broken := BrokenBehind(at, k, prev, tmpEndSeq);
        if broken {
          joined := false;
        }
        tmpEndSeq, prev := ranges[k].endSeq, it;
        at := k;
        it := Following(k);
      }
      assert forall k :: k in m ==> k <= at;
      assert joined <==> forall k :: k in m ==> !BrokenAt(m, k);
    }

    method WalkBegin() returns (first: int)
      requires Valid() && View() != map[]
      ensures first in ranges && first == FirstKey(View()).value
    {
      ViewKeys();
      SameIterators(ranges, View(), 0);
      first := FirstKey(ranges).value;
    }

    /** The first loop of `getNumUniqueBytes`: the start of the first entry with data. */
    method FirstDataSeq(first: int, ghost last: int) returns (r: int)
      requires Valid() && first in ranges && Some(first) == FirstKey(View()) && Some(last) == LastKey(View())
      ensures r == if DataKeys(View()) == {} then 0 else View()[Least(DataKeys(View()))].startSeq
    {
      var it := FirstData(first, last);
      hide View, FirstKey, LastKey, Least, Keyed, DataKeys;
      if it.None? {
        return 0;
      }
      ViewAt(it.value);
      LeastIs(DataKeys(View()), it.value);
      r := ranges[it.value].startSeq;
    }

    method FirstData(first: int, ghost last: int) returns (it: Option<int>)
      requires Valid() && first in ranges && Some(first) == FirstKey(View()) && Some(last) == LastKey(View())
      ensures it.Some? ==> it.value in ranges && it.value in DataKeys(View())
      ensures NoDataBefore(View(), it)
    {
      FirstOfData(View(), first);
      hide View, FirstKey, LastKey, DataKeys, Valid, NoDataBefore;
      it := Some(first);
      while it.Some?
        invariant it.Some? ==> it.value in ranges
        invariant NoDataBefore(View(), it)
        decreases if it.Some? then last - it.value else -1
      {
        ViewAt(it.value);
        if ranges[it.value].byteCount > 0 {
          InDataKeys(View(), it.value);
          return;
        }
        it := PastEmpty(it.value, last);
      }
    }

    method PastEmpty(k: int, ghost last: int) returns (next: Option<int>)
      requires k in ranges && ranges[k].byteCount == 0 && Some(last) == LastKey(View())
      ensures k <= last && (next.Some? ==> next.value in ranges && k < next.value)
      ensures NoDataBefore(View(), Some(k)) ==> NoDataBefore(View(), next)
    {
      ViewKeys();
      ViewAt(k);
      next := Following(k);
    }

    method Preceding(k: int) returns (before: Option<int>)
      requires k in ranges
      ensures before == PrevKey(View(), k) && (before.Some? ==> before.value in ranges && before.value < k)
    {
      ViewKeys();
      SameIterators(ranges, View(), k);
      before := PrevKey(ranges, k);
    }

    /** The second loop of `getNumUniqueBytes`: the end of the last entry with data, which does not look at the first entry. */
    method LastDataSeq(first: int, last: int) returns (r: int)
      requires Valid() && first in ranges && Some(first) == FirstKey(View()) && last in ranges && Some(last) == LastKey(View())
      ensures var late := DataKeys(View()) - {first}; r == if late == {} then 0 else View()[Greatest(late)].endSeq
    {
      ghost var m := View();
      ViewKeys();
      DataKeysAre(m);
      hide View, PrevKey, LastKey, FirstKey, Greatest, Keyed, DataKeys;
      var it := last;
      while it != first
        invariant it in ranges && first <= it
        invariant forall k :: k in DataKeys(m) ==> k <= it
        decreases it - first
      {
        ViewAt(it);
        if ranges[it].byteCount > 0 {
          GreatestIs(DataKeys(m) - {first}, it);
          return ranges[it].endSeq;
        }
        var before := Preceding(it);
        it := before.value;
      }
      assert DataKeys(m) - {first} == {};
      return 0;
    }

    method WalkLast() returns (last: int)
      requires Valid() && View() != map[]
      ensures last in ranges && Some(last) == LastKey(View())
    {
      ViewKeys();
      SameIterators(ranges, View(), 0);
      last := LastKey(ranges).value;
    }

    /** The check at entry `k`, which is not the first. */
    method BrokenBehind(ghost at: int, k: int, prev: Option<int>, tmpEndSeq: int) returns (broken: bool)
      requires Valid() && at in ranges && k in ranges && NextKey(View(), at) == Some(k)
      requires tmpEndSeq == ranges[at].endSeq && prev == if at == FirstKey(View()).value then None else Some(at)
      ensures broken <==> BrokenAt(View(), k)
      ensures forall j :: j in View() && j <= k ==> j <= at || j == k
    {
      ViewAt(at);
      ViewAt(k);
      BrokenHere(View(), at, k);
      hide View, BrokenAt, NextKey, FirstKey, Keyed;
      if ranges[k].startSeq == tmpEndSeq {
        return false;
      }
      return !(prev.None? || ranges[prev.value].byteCount == 0 || ranges[k].byteCount == 0);
    }
  }

  ghost predicate NoDataBefore(m: Ranges, it: Option<int>) {
    forall k :: k in DataKeys(m) ==> it.Some? && it.value <= k
  }

  lemma FirstOfData(m: Ranges, first: int)
    requires Some(first) == FirstKey(m)
    ensures NoDataBefore(m, Some(first))
  {
  }

  lemma InDataKeys(m: Ranges, k: int)
    requires k in m && m[k].byteCount > 0
    ensures k in DataKeys(m)
  {
  }

  lemma DataKeysAre(m: Ranges)
    ensures forall k :: k in DataKeys(m) <==> k in m && m[k].byteCount > 0
  {
  }

  lemma FirstUnbroken(m: Ranges)
    requires m != map[]
    ensures forall k :: k in m && k <= FirstKey(m).value ==> !BrokenAt(m, k)
  {
  }

  /** The check at an entry, told from the entry before. */
  lemma BrokenHere(m: Ranges, at: int, k: int)
    requires at in m && NextKey(m, at) == Some(k)
    ensures BrokenAt(m, k) <==>
      at != FirstKey(m).value && m[at].endSeq != m[k].startSeq && m[at].byteCount != 0 && m[k].byteCount != 0
    ensures forall j :: j in m && j <= k ==> j <= at || j == k
  {
    var p := PrevKey(m, k).value;
    assert p == at;
  }

  /** The entries from `from` up to `to`. */
  ghost function Window(m: Ranges, from: int, to: Option<int>): Ranges {
    map k | k in m && from <= k && (to.None? || k < to.value) :: m[k]
  }

  lemma EmptyTotals()
    ensures Total(map[], SentBytes) == Total(map[], UniqueBytes) == Total(map[], RedundantBytes) == Total(map[], LostBytes)
      == Total(map[], PacketsSent) == Total(map[], PacketsReceived) == 0
  {
  }

  lemma EmptyWindow(m: Ranges, from: int)
    ensures Window(m, from, Some(from)) == map[]
  {
  }

  /** One more entry in the window. */
  lemma WindowStep(m: Ranges, from: int, k: int, f: Range -> int)
    requires k in m && from <= k
    ensures Total(Window(m, from, NextKey(m, k)), f) == Total(Window(m, from, Some(k)), f) + f(m[k])
  {
    var w := Window(m, from, Some(k));
    assert Window(m, from, NextKey(m, k)) == w[k := m[k]];
    TotalInsert(w, k, m[k], f);
  }

  /** The sums over `w'` are those over `w` and one more entry `r`. */
  ghost predicate Grows(w: Ranges, r: Range, w': Ranges) {
    && Total(w', SentBytes) == Total(w, SentBytes) + SentBytes(r)
    && Total(w', UniqueBytes) == Total(w, UniqueBytes) + UniqueBytes(r)
    && Total(w', RedundantBytes) == Total(w, RedundantBytes) + RedundantBytes(r)
    && Total(w', LostBytes) % WRAP64 == (Total(w, LostBytes) % WRAP64 + LostBytes(r)) % WRAP64
    && Total(w', PacketsSent) == Total(w, PacketsSent) + PacketsSent(r)
    && Total(w', PacketsReceived) == Total(w, PacketsReceived) + PacketsReceived(r)
  }

  lemma WindowSteps(m: Ranges, from: int, k: int)
    requires k in m && from <= k
    ensures Grows(Window(m, from, Some(k)), m[k], Window(m, from, NextKey(m, k)))
  {
    hide Total, Window, NextKey;
    WindowStep(m, from, k, SentBytes);
    WindowStep(m, from, k, UniqueBytes);
    WindowStep(m, from, k, RedundantBytes);
    WindowStep(m, from, k, LostBytes);
    WindowStep(m, from, k, PacketsSent);
    WindowStep(m, from, k, PacketsReceived);
    ModuloStep(Total(Window(m, from, Some(k)), LostBytes), LostBytes(m[k]));
  }

  lemma ModuloStep(a: int, b: int)
    ensures (a % WRAP64 + b) % WRAP64 == (a + b) % WRAP64
  {
  }

  /** The window over all entries. */
  lemma FullWindow(m: Ranges)
    requires m != map[]
    ensures Window(m, FirstKey(m).value, None) == m
  {
  }

  /** The rest of the walk from an iterator, which may stand at the end. */
  ghost function WalkFrom(m: Ranges, saved: Option<int>, it: Option<int>, a: AckSeg, ret: bool): AckResult {
    match it
    case None => Processed(m, saved, ret)
    case Some(k) => if Keyed(m) && SentOnce(m) && k in m then AckFrom(m, saved, k, a, ret) else RanOff
  }

  /** The walk marked entry `k` and goes on from map `m'`. */
  ghost predicate ContinuesAck(m: Ranges, saved: Option<int>, k: int, a: AckSeg, ret: bool, m': Ranges, ret': bool)
    requires Keyed(m) && SentOnce(m) && k in m
  {
    && m'.Keys == m.Keys && Keyed(m') && SentOnce(m')
    && AckFrom(m, saved, k, a, ret) == WalkFrom(m', Some(k), NextKey(m, k), a, ret')
  }

  /** `m'` and `status` are what the insertion on values gives. */
  ghost predicate Inserts(m: Ranges, c: Call, s: int, e: int, level: nat, status: Status, m': Ranges)
    requires Keyed(m) && 0 <= s <= e < s + MAX_RANGE_SIZE
  {
    if s == e then
      status == Fine && m' == InsertEmpty(m, c, s)
    else
      var r := Insert(m, c, s, e, level);
      status == StatusOf(r) && (r.Ok? ==> m' == r.ranges)
  }

  /** Where the search for a container starts. */
  function StartOf<T>(m: map<int, T>, s: int): Option<int> {
    var low := LowerBound(m, s);
    if low == FirstKey(m) then low else match low case Some(k) => PrevKey(m, k) case None => LastKey(m)
  }

  lemma SameStart<S, T>(m: map<int, S>, m': map<int, T>, s: int, e: int)
    requires m.Keys == m'.Keys
    ensures StartOf(m', s) == StartOf(m, s) && NextKey(m', e) == NextKey(m, e)
  {
    SameIterators(m, m', s);
    SameIterators(m, m', e);
    if LowerBound(m, s).Some? {
      SameIterators(m, m', LowerBound(m, s).value);
    }
  }

  /** The assertion that the two iterators differ holds if and only if some entry starts at or before `e`; and the
      search can only succeed at its first entry. */
  lemma SearchStart(m: Ranges, s: int, e: int)
    requires Keyed(m) && s < e && s !in m
    ensures StartOf(m, s) == NextKey(m, e) <==> NothingToSearch(m, e)
    ensures !NothingToSearch(m, e) ==> var start := StartOf(m, s);
      && start.Some? && start.value in m
      && (NextKey(m, e).None? || start.value <= NextKey(m, e).value)
      && Container(m, s) == (if m[start.value].startSeq <= s < m[start.value].endSeq then start else None)
      && (forall k :: k in m && start.value < k ==> s < k)
  {
  }
}
