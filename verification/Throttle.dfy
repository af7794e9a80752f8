/**
 The poll-rate limiter: which calls it accepts, that no choice of calls could accept more, and how many
 it accepts in any window. Times are in nanoseconds of the steady clock.
 */
module Throttle {

  const MS: int := 1_000_000

  predicate Accepts(last: int, now: int, interval: int) {
    now - last >= interval
  }

  /** The calls that are accepted, in order, starting from the timestamp `last`. */
  function Accepted(last: int, calls: seq<int>, interval: int): seq<int>
    decreases |calls|
  {
    if calls == [] then []
    else if Accepts(last, calls[0], interval) then [calls[0]] + Accepted(calls[0], calls[1..], interval)
    else Accepted(last, calls[1..], interval)
  }

  /** The timestamp after the calls. */
  function LastAfter(last: int, calls: seq<int>, interval: int): int
    decreases |calls|
  {
    if calls == [] then last
    else LastAfter(if Accepts(last, calls[0], interval) then calls[0] else last, calls[1..], interval)
  }

  // ---- Greedy optimality ----

  /** A choice of calls: one flag per call. */
  function Chosen(calls: seq<int>, choice: seq<bool>): seq<int>
    requires |choice| == |calls|
  {
    if calls == [] then []
    else (if choice[0] then [calls[0]] else []) + Chosen(calls[1..], choice[1..])
  }

  /** Every time is at least the interval after the one before it, and the first after `last`. */
  predicate Spaced(last: int, times: seq<int>, interval: int)
    decreases |times|
  {
    times == [] || (times[0] - last >= interval && Spaced(times[0], times[1..], interval))
  }

  predicate Sorted(calls: seq<int>) {
    forall i, j :: 0 <= i < j < |calls| ==> calls[i] <= calls[j]
  }

  lemma {:induction false} AcceptedIsSpaced(last: int, calls: seq<int>, interval: int)
    ensures Spaced(last, Accepted(last, calls, interval), interval)
    decreases |calls|
  {
    if calls != [] {
      var next := if Accepts(last, calls[0], interval) then calls[0] else last;
      AcceptedIsSpaced(next, calls[1..], interval);
      if next == calls[0] && Accepts(last, calls[0], interval) {
        assert Accepted(last, calls, interval)[1..] == Accepted(next, calls[1..], interval);
      }
    }
  }

  /** The accepted calls are themselves a choice. */
  lemma {:induction false} AcceptedIsAChoice(last: int, calls: seq<int>, interval: int) returns (choice: seq<bool>)
    ensures |choice| == |calls| && Chosen(calls, choice) == Accepted(last, calls, interval)
    decreases |calls|
  {
    if calls == [] {
      choice := [];
    } else {
      var accept := Accepts(last, calls[0], interval);
      var rest := AcceptedIsAChoice(if accept then calls[0] else last, calls[1..], interval);
      choice := [accept] + rest;
    }
  }

  /** Starting later never allows more, and one accepted call costs at most one of any other choice. */
  lemma {:induction false} GreedyStaysAhead(last: int, calls: seq<int>, interval: int,
                                            otherLast: int, choice: seq<bool>)
    requires Sorted(calls) && |choice| == |calls| && interval >= 0
    requires Spaced(otherLast, Chosen(calls, choice), interval)
    ensures last <= otherLast ==> |Chosen(calls, choice)| <= |Accepted(last, calls, interval)|
    ensures (forall i :: 0 <= i < |calls| ==> last <= calls[i]) ==>
              |Chosen(calls, choice)| <= 1 + |Accepted(last, calls, interval)|
    decreases |calls|
  {
    if calls != [] {
      var rest, others := calls[1..], choice[1..];
      assert Sorted(rest) && forall i :: 0 <= i < |rest| ==> rest[i] == calls[i + 1] >= calls[0];
      var otherNext := if choice[0] then calls[0] else otherLast;
      if choice[0] {
        assert Chosen(calls, choice)[0] == calls[0] && Chosen(calls, choice)[1..] == Chosen(rest, others);
      } else {
        assert Chosen(calls, choice) == Chosen(rest, others);
      }
      GreedyStaysAhead(calls[0], rest, interval, otherNext, others);
      GreedyStaysAhead(last, rest, interval, otherNext, others);
    }
  }

  /** No set of calls that keeps the interval from each other and from the initial timestamp is larger
      than the set the limiter accepts, which keeps it too. */
  lemma GreedyIsOptimal(last: int, calls: seq<int>, interval: int)
    requires Sorted(calls) && interval >= 0
    ensures Spaced(last, Accepted(last, calls, interval), interval)
    ensures exists choice: seq<bool> ::
              |choice| == |calls| && Chosen(calls, choice) == Accepted(last, calls, interval)
    ensures forall choice: seq<bool> ::
              |choice| == |calls| && Spaced(last, Chosen(calls, choice), interval) ==>
                |Chosen(calls, choice)| <= |Accepted(last, calls, interval)|
  {
    AcceptedIsSpaced(last, calls, interval);
    var accepted := AcceptedIsAChoice(last, calls, interval);
    forall choice: seq<bool> | |choice| == |calls| && Spaced(last, Chosen(calls, choice), interval)
      ensures |Chosen(calls, choice)| <= |Accepted(last, calls, interval)|
    {
      GreedyStaysAhead(last, calls, interval, last, choice);
    }
  }

  // ---- Windows ----

  function CountIn(times: seq<int>, low: int, high: int): nat {
    if times == [] then 0
    else (if low <= times[0] <= high then 1 else 0) + CountIn(times[1..], low, high)
  }

  lemma {:induction false} SpacedCount(last: int, times: seq<int>, interval: int, low: int, high: int)
    requires Spaced(last, times, interval) && interval > 0 && low <= last
    ensures last <= high ==> CountIn(times, low, high) * interval <= high - last
    ensures last > high ==> CountIn(times, low, high) == 0
    decreases |times|
  {
    if times != [] {
      SpacedCount(times[0], times[1..], interval, low, high);
      if times[0] <= high {
        assert (1 + CountIn(times[1..], low, high)) * interval
            == interval + CountIn(times[1..], low, high) * interval;
      }
    }
  }

  lemma {:induction false} WindowCount(last: int, times: seq<int>, interval: int, low: int, high: int)
    requires Spaced(last, times, interval) && interval > 0 && low <= high
    ensures (CountIn(times, low, high) - 1) * interval <= high - low
    decreases |times|
  {
    if times == [] {
    } else if times[0] < low {
      WindowCount(times[0], times[1..], interval, low, high);
    } else {
      SpacedCount(times[0], times[1..], interval, low, high);
    }
  }

  lemma ProductMonotone(a: int, b: int, factor: nat)
    requires a <= b
    ensures a * factor <= b * factor
  {
  }

  lemma CountFromProduct(count: nat, interval: int, width: nat)
    requires interval > 0 && (count - 1) * interval <= width
    ensures count <= width / interval + 1
  {
    var quotient := width / interval;
    assert width < (quotient + 1) * interval;
    if count - 1 >= quotient + 1 {
      ProductMonotone(quotient + 1, count - 1, interval);
    }
  }

  /** Any closed window of width `width` holds at most width / interval + 1 accepted calls, rounded down. */
  lemma WindowBound(last: int, calls: seq<int>, interval: int, low: int, width: nat)
    requires interval > 0
    ensures CountIn(Accepted(last, calls, interval), low, low + width) <= width / interval + 1
  {
    AcceptedIsSpaced(last, calls, interval);
    WindowCount(last, Accepted(last, calls, interval), interval, low, low + width);
    CountFromProduct(CountIn(Accepted(last, calls, interval), low, low + width), interval, width);
  }
}
