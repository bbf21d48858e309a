/** The message loop's resetting rate window, over any arrival times. */
module RateLimit {

  datatype Window = Window(start: real, count: nat)

  /** One arrival: a window that has run its length is replaced, then the arrival is counted. */
  function Arrive(w: Window, now: real, length: real): Window {
    var current := if now - w.start >= length then Window(now, 0) else w;
    current.(count := current.count + 1)
  }

  /** The arrivals that get past the limiter, in order. */
  function Admitted(w: Window, times: seq<real>, length: real, limit: nat): seq<real>
    decreases |times|
  {
    if times == [] then [] else
    var w' := Arrive(w, times[0], length);
    var rest := Admitted(w', times[1..], length, limit);
    if w'.count <= limit then [times[0]] + rest else rest
  }

  /** How many of `times` lie in the half-open interval `[from, to)`. */
  function CountIn(times: seq<real>, from: real, to: real): nat {
    if times == [] then 0 else
    (if from <= times[0] < to then 1 else 0) + CountIn(times[1..], from, to)
  }

  /** A monotonic clock, read once per arrival, never before `start`. */
  ghost predicate Clocked(times: seq<real>, start: real) {
    && (forall i | 0 <= i < |times| :: start <= times[i])
    && (forall i, j | 0 <= i < j < |times| :: times[i] <= times[j])
  }

  /** The counters of the message loop. */
  method Limit(times: seq<real>, start: real, length: real, limit: nat) returns (admitted: seq<real>)
    ensures admitted == Admitted(Window(start, 0), times, length, limit)
  {
    admitted := [];
    var rateWindowStart, rateMessageCount: nat := start, 0;
    for i := 0 to |times|
      invariant Admitted(Window(start, 0), times, length, limit)
             == admitted + Admitted(Window(rateWindowStart, rateMessageCount), times[i..], length, limit)
    {
      var now := times[i];
      AdmittedStep(Window(rateWindowStart, rateMessageCount), times, i, length, limit, admitted,
        Admitted(Window(start, 0), times, length, limit));
      if now - rateWindowStart >= length {
        rateWindowStart := now;
        rateMessageCount := 0;
      }
      rateMessageCount := rateMessageCount + 1;
      if rateMessageCount <= limit {
        admitted := admitted + [now];
      }
    }
    assert times[|times|..] == [];
  }

  lemma AdmittedStep(w: Window, times: seq<real>, i: nat, length: real, limit: nat, done: seq<real>, all: seq<real>)
    requires i < |times| && all == done + Admitted(w, times[i..], length, limit)
    ensures var w' := Arrive(w, times[i], length);
      all == (if w'.count <= limit then done + [times[i]] else done) + Admitted(w', times[i + 1..], length, limit)
  {
    assert times[i..][1..] == times[i + 1..];
    var rest := Admitted(Arrive(w, times[i], length), times[i + 1..], length, limit);
    assert done + ([times[i]] + rest) == (done + [times[i]]) + rest;
  }

  function Left(w: Window, limit: nat): nat {
    if w.count < limit then limit - w.count else 0
  }

  /** From a window already begun inside the interval, no second window can begin in it. */
  lemma {:induction false} OneWindowLeft(w: Window, times: seq<real>, length: real, limit: nat, from: real)
    requires Clocked(times, w.start) && from <= w.start
    ensures CountIn(Admitted(w, times, length, limit), from, from + length) <= Left(w, limit)
    decreases |times|
  {
    if times != [] {
      var w' := Arrive(w, times[0], length);
      if w'.start == w.start && times[0] - w.start < length {
        OneWindowLeft(w', times[1..], length, limit, from);
      } else {
        NothingInside(w', times[1..], length, limit, from, from + length);
      }
    }
  }

  lemma {:induction false} NothingInside(w: Window, times: seq<real>, length: real, limit: nat, from: real, to: real)
    requires Clocked(times, to)
    ensures CountIn(Admitted(w, times, length, limit), from, to) == 0
    decreases |times|
  {
    if times != [] { NothingInside(Arrive(w, times[0], length), times[1..], length, limit, from, to); }
  }

  /** Once arrivals are inside the interval: what is left of this window, and one more. */
  lemma {:induction false} TwoWindowsLeft(w: Window, times: seq<real>, length: real, limit: nat, from: real)
    requires Clocked(times, w.start) && Clocked(times, from)
    ensures CountIn(Admitted(w, times, length, limit), from, from + length) <= Left(w, limit) + limit
    decreases |times|
  {
    if times != [] {
      var w' := Arrive(w, times[0], length);
      if times[0] - w.start >= length {
        OneWindowLeft(w', times[1..], length, limit, from);
      } else {
        TwoWindowsLeft(w', times[1..], length, limit, from);
      }
    }
  }

  /** In any interval one window long, at most twice the limit gets through, however the
      arrivals straddle the windows and whatever window was open when counting began. */
  lemma {:induction false} AtMostTwiceTheLimit(w: Window, times: seq<real>, length: real, limit: nat, from: real)
    requires Clocked(times, w.start)
    ensures CountIn(Admitted(w, times, length, limit), from, from + length) <= 2 * limit
    decreases |times|
  {
    if times != [] {
      if times[0] >= from {
        TwoWindowsLeft(w, times, length, limit, from);
      } else {
        AtMostTwiceTheLimit(Arrive(w, times[0], length), times[1..], length, limit, from);
      }
    }
  }

  function Burst(at: real, n: nat): seq<real> {
    if n == 0 then [] else [at] + Burst(at, n - 1)
  }

  lemma {:induction false} BurstAdmitted(w: Window, at: real, n: nat, after: seq<real>, length: real, limit: nat)
    requires at - w.start < length && w.count + n <= limit
    ensures Admitted(w, Burst(at, n) + after, length, limit)
         == Burst(at, n) + Admitted(Window(w.start, w.count + n), after, length, limit)
    decreases n
  {
    var times := Burst(at, n) + after;
    if n == 0 {
      assert times == after;
    } else {
      assert times[0] == at && times[1..] == Burst(at, n - 1) + after;
      BurstAdmitted(Window(w.start, w.count + 1), at, n - 1, after, length, limit);
    }
  }

  lemma {:induction false} BurstCount(at: real, n: nat, after: seq<real>, from: real, to: real)
    requires from <= at < to
    ensures CountIn(Burst(at, n) + after, from, to) == n + CountIn(after, from, to)
    decreases n
  {
    var times := Burst(at, n) + after;
    if n == 0 {
      assert times == after;
    } else {
      assert times[0] == at && times[1..] == Burst(at, n - 1) + after;
      BurstCount(at, n - 1, after, from, to);
    }
  }

  /** The bound is met: the windows reset rather than slide, so a full burst at the end of one
      and a full burst at the start of the next both pass, inside one window's length. */
  lemma TwiceTheLimitIsReached(start: real, length: real, limit: nat)
    requires length > 0.0 && limit >= 1
    ensures var late := start + length / 2.0;
      var times := Burst(late, limit) + Burst(start + length, limit);
      CountIn(Admitted(Window(start, 0), times, length, limit), late, late + length) == 2 * limit
  {
    var late, next := start + length / 2.0, start + length;
    var second := Burst(next, limit);
    BurstAdmitted(Window(start, 0), late, limit, second, length, limit);
    assert second[0] == next && second[1..] == Burst(next, limit - 1);
    assert Burst(next, limit - 1) + [] == Burst(next, limit - 1);
    BurstAdmitted(Window(next, 1), next, limit - 1, [], length, limit);
    var tail := Admitted(Window(start, limit), second, length, limit);
    assert tail == second;
    BurstCount(late, limit, second, late, late + length);
    assert second + [] == second;
    BurstCount(next, limit, [], late, late + length);
  }

  // ---------------------------------------------------------------- exactly who gets through

  /** When the window in force before arrival `i` began, from the times alone: the start, or the newest
      arrival that came a whole length or more after the beginning before it. */
  function Began(times: seq<real>, start: real, length: real, i: nat): real
    requires i <= |times|
  {
    if i == 0 then start else
    var before := Began(times, start, length, i - 1);
    if times[i - 1] - before >= length then times[i - 1] else before
  }

  /** Arrival `i` opens a window. */
  predicate Opens(times: seq<real>, start: real, length: real, i: nat)
    requires i < |times|
  {
    times[i] - Began(times, start, length, i) >= length
  }

  /** The first arrival counted in the window of arrival `i`. */
  function First(times: seq<real>, start: real, length: real, i: nat): (k: nat)
    requires i < |times|
    ensures k <= i
  {
    if i == 0 || Opens(times, start, length, i) then i else First(times, start, length, i - 1)
  }

  /** The window of an arrival reaches back to the last one that opened it, or to the first of all. */
  lemma {:induction false} FirstExactly(times: seq<real>, start: real, length: real, i: nat)
    requires i < |times|
    ensures var k := First(times, start, length, i);
      && (k == 0 || Opens(times, start, length, k))
      && (forall j | k < j <= i :: !Opens(times, start, length, j))
  {
    if i > 0 && !Opens(times, start, length, i) { FirstExactly(times, start, length, i - 1); }
  }

  /** The arrivals with fewer than the limit before them in their window. */
  function Passing(times: seq<real>, start: real, length: real, limit: nat, n: nat): seq<real>
    requires n <= |times|
  {
    if n == 0 then [] else
    var before := Passing(times, start, length, limit, n - 1);
    if n - 1 - First(times, start, length, n - 1) < limit then before + [times[n - 1]] else before
  }

  /** The limiter's window after `n` arrivals. */
  function After(times: seq<real>, start: real, length: real, n: nat): Window
    requires n <= |times|
  {
    Window(Began(times, start, length, n), if n == 0 then 0 else n - First(times, start, length, n - 1))
  }

  lemma AfterNext(times: seq<real>, start: real, length: real, n: nat)
    requires n < |times|
    ensures Arrive(After(times, start, length, n), times[n], length) == After(times, start, length, n + 1)
  {
  }

  lemma {:induction false} PassingSoFar(times: seq<real>, start: real, length: real, limit: nat, n: nat)
    requires n <= |times|
    ensures Admitted(Window(start, 0), times, length, limit)
         == Passing(times, start, length, limit, n) + Admitted(After(times, start, length, n), times[n..], length, limit)
  {
    var all := Admitted(Window(start, 0), times, length, limit);
    if n == 0 {
      assert times[0..] == times && [] + all == all;
    } else {
      PassingSoFar(times, start, length, limit, n - 1);
      AfterNext(times, start, length, n - 1);
      AdmittedStep(After(times, start, length, n - 1), times, n - 1, length, limit, Passing(times, start, length, limit, n - 1), all);
    }
  }

  /** Exactly who gets through: the arrivals with fewer than the limit before them since their window opened. */
  lemma AdmittedExactly(times: seq<real>, start: real, length: real, limit: nat)
    ensures Admitted(Window(start, 0), times, length, limit) == Passing(times, start, length, limit, |times|)
  {
    PassingSoFar(times, start, length, limit, |times|);
    assert times[|times|..] == [];
  }

  /** With a limit of one or more, whoever opens a window is let in, however long the pause before. */
  lemma {:induction false} OpenersPass(times: seq<real>, start: real, length: real, limit: nat, i: nat, n: nat)
    requires i < n <= |times| && limit >= 1 && Opens(times, start, length, i)
    ensures times[i] in Passing(times, start, length, limit, n)
    decreases n
  {
    if i < n - 1 { OpenersPass(times, start, length, limit, i, n - 1); }
  }
}
