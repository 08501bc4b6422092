/** Values shared by every part of the model: optional results, time stamps,
    TCP flags and the packet record that is handed to the index. */
module Common {

  datatype Option<+T> = None | Some(value: T)

  /** A `timeval`: whole seconds and microseconds. */
  datatype TimeVal = TimeVal(sec: int, usec: int) {
    predicate Normalised() {
      0 <= usec < 1_000_000
    }

    /** The C macro `timercmp(this, other, <)`. */
    predicate Before(other: TimeVal) {
      sec < other.sec || (sec == other.sec && usec < other.usec)
    }

    function Micros(): int {
      sec * 1_000_000 + usec
    }
  }

  const NO_TIME := TimeVal(0, 0)

  /** The three TCP header bits the index looks at. */
  datatype Flags = Flags(syn: bool, fin: bool, rst: bool) {
    predicate Control() {
      syn || fin || rst
    }
  }

  /** One captured packet (`DataSeg`). Sequence numbers are relative to the first one of the connection. */
  datatype DataSeg = DataSeg(
    startSeq: int, endSeq: int, rdbEndSeq: int, seqAbsolute: int, payloadSize: nat,
    retrans: bool, isRdb: bool, inSequence: bool, flags: Flags,
    tstampPcap: TimeVal, tstampTcp: nat, tstampTcpEcho: nat)

  /** The fields of an incoming acknowledgement that `processAck` reads. */
  datatype AckSeg = AckSeg(ack: int, window: nat, tstampPcap: TimeVal, tstampTcp: nat)

  function Min(a: int, b: int): int {
    if a < b then a else b
  }

  function Max(a: int, b: int): int {
    if a < b then b else a
  }
}
