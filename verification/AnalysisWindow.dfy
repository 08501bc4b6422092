/** `Connection::setAnalyseRangeInterval`: which entries are analysed. Iterators are positions in the
    map order, and only the first transmission time of each entry matters. */
module AnalysisWindow {
  import opened Common
  import opened TimeDifference

  /** The first position to analyse, the last one, and the position behind it. */
  datatype Window = Window(start: nat, last: nat, end: nat)

  ghost predicate Chronological(times: seq<TimeVal>) {
    && (forall i :: 0 <= i < |times| ==> times[i].Normalised())
    && (forall i, j :: 0 <= i < j < |times| ==> !times[j].Before(times[i]))
  }

  /** Later times are not fewer whole seconds away. */
  lemma LaterIsFarther(a: TimeVal, b: TimeVal, origin: TimeVal)
    requires a.Normalised() && b.Normalised() && origin.Normalised() && !b.Before(a)
    ensures SecondsBetween(a, origin) <= SecondsBetween(b, origin)
    ensures SecondsBetween(origin, b) <= SecondsBetween(origin, a)
  {
  }

  /** The first position at least `seconds` after the first entry; the loop counts to the end if there is none. */
  method FindStart(times: seq<TimeVal>, seconds: int) returns (index: nat)
    requires |times| > 0
    ensures index <= |times|
    ensures forall i :: 0 <= i < index ==> SecondsBetween(times[i], times[0]) < seconds
    ensures index < |times| ==> SecondsBetween(times[index], times[0]) >= seconds
  {
    index := 0;
    while index < |times|
      invariant index <= |times|
      invariant forall i :: 0 <= i < index ==> SecondsBetween(times[i], times[0]) < seconds
    {
      if SecondsBetween(times[index], times[0]) >= seconds {
        return;
      }
      index := index + 1;
    }
  }

  /** The last position at most `duration` whole seconds after `start`, by bisection. The search shrinks
      its upper end by `advance` only, which is less than it could. */
  method FindDurationEnd(times: seq<TimeVal>, start: nat, duration: nat) returns (last: nat)
    requires Chronological(times) && start < |times|
    ensures start <= last < |times|
    ensures forall i :: start <= i <= last ==> SecondsBetween(times[i], times[start]) <= duration
    ensures forall i :: last < i < |times| ==> SecondsBetween(times[i], times[start]) > duration
  {
    var startIndex, endIndex := start, |times|;
    last := start;
    while true
      invariant start <= last == startIndex < endIndex <= |times|
      invariant SecondsBetween(times[last], times[start]) <= duration
      invariant forall i :: endIndex <= i < |times| ==> SecondsBetween(times[i], times[start]) > duration
      decreases endIndex - startIndex
    {
      var advance := (endIndex - startIndex) / 2;
      if advance == 0 {
        break;
      }
      var tmp := last + advance;
      if SecondsBetween(times[tmp], times[start]) <= duration {
        last := tmp;
        startIndex := startIndex + advance;
      } else {
        forall i | endIndex - advance <= i < endIndex
          ensures SecondsBetween(times[i], times[start]) > duration
        {
          if tmp < i {
            LaterIsFarther(times[tmp], times[i], times[start]);
          }
        }
        endIndex := endIndex - advance;
      }
    }
    forall i | start <= i <= last
      ensures SecondsBetween(times[i], times[start]) <= duration
    {
      if i < last {
        LaterIsFarther(times[i], times[last], times[start]);
      }
    }
  }

  /** The last position at least `seconds` before the last entry, searched from the back; none if the
      connection is shorter than that. */
  method FindEnd(times: seq<TimeVal>, seconds: int) returns (r: Option<nat>)
    requires |times| > 0
    ensures r.Some? ==> r.value < |times| && SecondsBetween(times[|times| - 1], times[r.value]) >= seconds
    ensures forall i :: (if r.Some? then r.value + 1 else 0) <= i < |times| ==>
              SecondsBetween(times[|times| - 1], times[i]) < seconds
  {
    var k := |times|;
    while k > 0
      invariant 0 <= k <= |times|
      invariant forall i :: k <= i < |times| ==> SecondsBetween(times[|times| - 1], times[i]) < seconds
    {
      k := k - 1;
      if SecondsBetween(times[|times| - 1], times[k]) >= seconds {
        return Some(k);
      }
    }
    return None;
  }

  /** The options `analyse_start`, `analyse_end` and `analyse_duration`; zero means not given. */
  datatype Options = Options(start: nat, end: nat, duration: nat)

  /** What the window must be. With an end option it reaches one entry past the last one that is early
      enough; with a start beyond the connection's length it falls back to the first entry. */
  ghost predicate Selects(times: seq<TimeVal>, o: Options, w: Window)
    requires |times| > 0
  {
    var n := |times|;
    var found := exists i :: 0 <= i < n && SecondsBetween(times[i], times[0]) >= o.start;
    && w.start < n
    && (o.start == 0 || !found ==> w.start == 0)
    && (o.start > 0 && found ==>
          SecondsBetween(times[w.start], times[0]) >= o.start
          && forall i :: 0 <= i < w.start ==> SecondsBetween(times[i], times[0]) < o.start)
    && (if o.end > 0 then
          (if exists i :: 0 <= i < n && SecondsBetween(times[n - 1], times[i]) >= o.end then
             && 1 <= w.last < n && w.end == w.last + 1
             && SecondsBetween(times[n - 1], times[w.last - 1]) >= o.end
             && (forall i :: w.last <= i < n ==> SecondsBetween(times[n - 1], times[i]) < o.end)
           else w.last == n - 1 && w.end == n)
        else if o.duration > 0 then
          (if o.start > 0 && !found then w.last == 0 && w.end == 1
           else
             && w.start <= w.last < n && w.end == w.last + 1
             && (forall i :: w.start <= i <= w.last ==> SecondsBetween(times[i], times[w.start]) <= o.duration)
             && (forall i :: w.last < i < n ==> SecondsBetween(times[i], times[w.start]) > o.duration))
        else w.last == n - 1 && w.end == n)
  }

  method SetAnalyseRangeInterval(times: seq<TimeVal>, o: Options) returns (w: Window)
    requires |times| > 0 && (o.end == 0 && o.duration > 0 ==> Chronological(times))
    ensures Selects(times, o, w)
  {
    var n := |times|;
    var start, startIndex := 0, 0;
    w := Window(0, n - 1, n);
    if o.start > 0 {
      startIndex := FindStart(times, o.start);
      if startIndex < n {
        start := startIndex;
      }
    }
    if o.end > 0 {
      var k := FindEnd(times, o.end);
      if k.Some? {
        w := Window(start, k.value + 1, k.value + 2);
      } else {
        w := Window(start, n - 1, n);
      }
    } else if o.duration > 0 {
      if startIndex == n {
        w := Window(start, start, start + 1);
      } else {
        var last := FindDurationEnd(times, start, o.duration);
        w := Window(start, last, last + 1);
      }
    } else {
      w := Window(start, n - 1, n);
    }
  }
}
