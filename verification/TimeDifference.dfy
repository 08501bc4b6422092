/** time_util.h `negtimersub`: a difference of two times that also works when the first is the earlier one. */
module TimeDifference {
  import opened Common

  /** C's integer division, which truncates toward zero. */
  function CDiv(a: int, b: nat): int
    requires b > 0
  {
    if a >= 0 then a / b else -((-a) / b)
  }

  /** The difference `micros` in seconds and microseconds: the sign is on the seconds, and on the
      microseconds only if there are no whole seconds. */
  function Signed(micros: int): TimeVal {
    if micros >= 0 then TimeVal(micros / 1_000_000, micros % 1_000_000)
    else if micros > -1_000_000 then TimeVal(0, micros)
    else TimeVal(-((-micros) / 1_000_000), (-micros) % 1_000_000)
  }

  method NegTimerSub(a: TimeVal, b: TimeVal) returns (result: TimeVal)
    requires a.Normalised() && b.Normalised()
    ensures result == Signed(a.Micros() - b.Micros())
  {
    var sec, usec := a.sec - b.sec, a.usec - b.usec;
    if sec > 0 {
      if usec < 0 {
        sec := sec - 1;
        usec := usec + 1_000_000;
      }
    } else if sec < 0 {
      if usec > 0 {
        sec := sec + 1;
        usec := 1_000_000 - usec;
      } else {
        usec := usec * -1;
      }
      if sec == 0 {
        usec := usec * -1;
      }
    }
    result := TimeVal(sec, usec);
  }

  /** The milliseconds that `calculateRecvDiff` makes of a signed difference. */
  function Millis(tv: TimeVal): int {
    var ms := tv.sec * 1000;
    if ms >= 0 then ms + CDiv(tv.usec, 1000) else ms - CDiv(tv.usec, 1000)
  }

  /** In all sign and borrow cases that is the exact difference in milliseconds, truncated toward zero. */
  lemma MillisExact(micros: int)
    ensures Millis(Signed(micros)) == CDiv(micros, 1000)
  {
    var d := if micros >= 0 then micros else -micros;
    assert d == d / 1_000_000 * 1_000_000 + d % 1_000_000;
    assert d / 1000 == d / 1_000_000 * 1000 + d % 1_000_000 / 1000;
  }

  /** The whole seconds of the C macro `timersub(a, b, tv)`. */
  function SecondsBetween(a: TimeVal, b: TimeVal): int {
    if a.usec < b.usec then a.sec - b.sec - 1 else a.sec - b.sec
  }

  /** The whole seconds from `b` to `a`, rounded down. */
  lemma SecondsAreWhole(a: TimeVal, b: TimeVal)
    requires a.Normalised() && b.Normalised()
    ensures var s := SecondsBetween(a, b); s * 1_000_000 <= a.Micros() - b.Micros() < (s + 1) * 1_000_000
  {
  }
}
