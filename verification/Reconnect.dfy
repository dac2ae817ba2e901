/**
The receive/reconnect loop of a backend's event stream (internal/backendrpc/reconnect.go). What every
receive, dial and random draw gives is a parameter; durations are nanoseconds.
*/
module Reconnect {
  const BACKOFF := 5_000_000_000
  const MAX_BACKOFF := 60_000_000_000
  const MAX_FAILURES := 20

  /** One answer of the outside world: did it work, the random draw, is the context cancelled by then. */
  datatype Io = Io(ok: bool, draw: nat, cancelled: bool)

  /** What the loop did, in order. */
  datatype Op = Received | Broken | Dialled(slept: nat, ok: bool)

  // ---------------------------------------------------------------- reading a trace

  function Events(t: seq<Op>): nat {
    if t == [] then 0 else Events(t[..|t| - 1]) + if t[|t| - 1].Received? then 1 else 0
  }

  function Dials(t: seq<Op>): nat {
    if t == [] then 0 else Dials(t[..|t| - 1]) + if t[|t| - 1].Dialled? then 1 else 0
  }

  /** Dials since the last event arrived. */
  function DialsSince(t: seq<Op>): nat {
    if t == [] || t[|t| - 1].Received? then 0
    else DialsSince(t[..|t| - 1]) + if t[|t| - 1].Dialled? then 1 else 0
  }

  /** Time slept since the last event arrived. */
  function SleptSince(t: seq<Op>): nat {
    if t == [] || t[|t| - 1].Received? then 0
    else SleptSince(t[..|t| - 1]) + if t[|t| - 1].Dialled? then t[|t| - 1].slept else 0
  }

  /** The backoff after n failed dials in a row. */
  function Ladder(n: nat): (d: nat)
    ensures BACKOFF <= d <= MAX_BACKOFF
  {
    if n == 0 then BACKOFF
    else if 2 * Ladder(n - 1) > MAX_BACKOFF then MAX_BACKOFF
    else 2 * Ladder(n - 1)
  }

  /** The longest n dials can sleep between two events. */
  function Longest(n: nat): nat {
    if n == 0 then 0 else Longest(n - 1) + 3 * Ladder(n - 1) / 2
  }

  /** The backoff a trace leaves behind: doubled by every failed dial up to the cap, reset by an event,
      and kept by a dial that worked. */
  function BackoffAfter(t: seq<Op>): (d: nat)
    ensures BACKOFF <= d <= MAX_BACKOFF
  {
    if t == [] || t[|t| - 1].Received? then BACKOFF
    else
      var before := BackoffAfter(t[..|t| - 1]);
      if t[|t| - 1].Dialled? && !t[|t| - 1].ok then
        (if 2 * before > MAX_BACKOFF then MAX_BACKOFF else 2 * before)
      else before
  }

  predicate JitterOf(backoff: nat, slept: nat) {
    backoff / 2 <= slept <= 3 * backoff / 2
  }

  /** Nineteen dials at most, each after a wait within half of the backoff due. */
  predicate WithinLimits(t: seq<Op>) {
    t == [] ||
    (WithinLimits(t[..|t| - 1])
     && DialsSince(t) < MAX_FAILURES
     && (t[|t| - 1].Dialled? ==> JitterOf(BackoffAfter(t[..|t| - 1]), t[|t| - 1].slept)))
  }

  lemma {:induction false} BackoffWithinLadder(t: seq<Op>)
    ensures BackoffAfter(t) <= Ladder(DialsSince(t))
  {
    if t != [] && !t[|t| - 1].Received? {
      BackoffWithinLadder(t[..|t| - 1]);
    }
  }

  /** Dials that failed since the last event arrived. */
  function FailedSince(t: seq<Op>): nat {
    if t == [] || t[|t| - 1].Received? then 0
    else FailedSince(t[..|t| - 1]) + if t[|t| - 1].Dialled? && !t[|t| - 1].ok then 1 else 0
  }

  /** The backoff counts failed dials: 5, 10, 20, 40 seconds, then one minute for each further one. */
  lemma {:induction false} BackoffCountsFailures(t: seq<Op>)
    ensures var n := FailedSince(t);
            BackoffAfter(t) == if n == 0 then 5_000_000_000 else if n == 1 then 10_000_000_000
                               else if n == 2 then 20_000_000_000 else if n == 3 then 40_000_000_000
                               else 60_000_000_000
  {
    if t != [] && !t[|t| - 1].Received? {
      BackoffCountsFailures(t[..|t| - 1]);
    }
  }

  /** The stream is up: the loop's next operation is a receive. */
  predicate Up(t: seq<Op>) {
    t == [] || t[|t| - 1].Received? || (t[|t| - 1].Dialled? && t[|t| - 1].ok)
  }

  /** The operation the world's answer calls for: receive while the stream is up, dial while it is down. */
  predicate Expected(up: bool, answer: Io, op: Op) {
    if up then op == (if answer.ok then Received else Broken)
    else op.Dialled? && op.ok == answer.ok
  }

  /** The trace is the one these answers lead to, one operation an answer. */
  predicate Follows(io: nat -> Io, t: seq<Op>) {
    t == [] ||
    (Follows(io, t[..|t| - 1]) && Expected(Up(t[..|t| - 1]), io(|t| - 1), t[|t| - 1]))
  }

  function Receives(t: seq<Op>): nat {
    if t == [] then 0 else Receives(t[..|t| - 1]) + if t[|t| - 1].Dialled? then 0 else 1
  }

  lemma Snoc(io: nat -> Io, t: seq<Op>, op: Op)
    ensures Receives(t + [op]) == Receives(t) + if op.Dialled? then 0 else 1
    ensures Up(t + [op]) <==> op.Received? || (op.Dialled? && op.ok)
    ensures DialsSince(t + [op]) == if op.Received? then 0 else DialsSince(t) + if op.Dialled? then 1 else 0
    ensures WithinLimits(t + [op]) <==>
            && WithinLimits(t)
            && DialsSince(t + [op]) < MAX_FAILURES
            && (op.Dialled? ==> JitterOf(BackoffAfter(t), op.slept))
    ensures BackoffAfter(t + [op]) ==
            if op.Received? then BACKOFF
            else if op.Dialled? && !op.ok then
              (if 2 * BackoffAfter(t) > MAX_BACKOFF then MAX_BACKOFF else 2 * BackoffAfter(t))
            else BackoffAfter(t)
    ensures Follows(io, t + [op]) <==> Follows(io, t) && Expected(Up(t), io(|t|), op)
  {
    assert (t + [op])[..|t|] == t;
  }

  /** Main result: over any run, dials are paid for by events, nineteen each and nineteen to start. */
  lemma {:induction false} DialsBoundedByEvents(t: seq<Op>)
    requires WithinLimits(t)
    ensures Dials(t) <= (MAX_FAILURES - 1) * Events(t) + DialsSince(t)
    ensures Dials(t) <= (MAX_FAILURES - 1) * (1 + Events(t))
  {
    if t != [] {
      var front := t[..|t| - 1];
      DialsBoundedByEvents(front);
      if t[|t| - 1].Received? && front != [] {
        assert DialsSince(front) < MAX_FAILURES;
      }
    }
  }

  lemma {:induction false} LongestGrows(m: nat, n: nat)
    requires m <= n
    ensures Longest(m) <= Longest(n)
  {
    if m < n {
      LongestGrows(m, n - 1);
    }
  }

  lemma TopOfTheLadder(n: nat)
    requires n >= 4
    ensures Ladder(n) == MAX_BACKOFF
  {
    assert Ladder(1) == 2 * BACKOFF && Ladder(2) == 4 * BACKOFF && Ladder(3) == 8 * BACKOFF;
    if n > 4 {
      TopOfTheLadder(n - 1);
    }
  }

  lemma {:induction false} LongestFrom(n: nat)
    requires n >= 4
    ensures Longest(n) == Longest(4) + (n - 4) * 90_000_000_000
  {
    if n > 4 {
      LongestFrom(n - 1);
      TopOfTheLadder(n - 1);
    }
  }

  lemma LongestOfFour()
    ensures Longest(4) == 112_500_000_000
  {
    assert Ladder(1) == 10_000_000_000 && Ladder(2) == 20_000_000_000 && Ladder(3) == 40_000_000_000;
    assert Longest(1) == 7_500_000_000;
    assert Longest(2) == 22_500_000_000;
    assert Longest(3) == 52_500_000_000;
  }

  /** Nineteen dials sleep 1462.5 seconds at most. */
  lemma LongestIs()
    ensures Longest(19) == 1_462_500_000_000
  {
    LongestFrom(19);
    LongestOfFour();
  }

  lemma {:induction false} SleptWithinLongest(t: seq<Op>)
    requires WithinLimits(t)
    ensures SleptSince(t) <= Longest(DialsSince(t))
  {
    if t != [] {
      SleptWithinLongest(t[..|t| - 1]);
      BackoffWithinLadder(t[..|t| - 1]);
    }
  }

  /** Main result: between two events the loop never sleeps longer than 1462.5 seconds. */
  lemma SleepIsBounded(t: seq<Op>)
    requires WithinLimits(t)
    ensures SleptSince(t) <= 1_462_500_000_000
  {
    SleptWithinLongest(t);
    LongestGrows(DialsSince(t), 19);
    LongestIs();
  }

  // ---------------------------------------------------------------- the loop

  method JitteredBackoff(d: int, draw: nat) returns (w: int)
    ensures d > 0 ==> d / 2 <= w <= 3 * d / 2 && w == d / 2 + draw % (3 * d / 2 - d / 2 + 1)
    ensures d <= 0 ==> w == d
  {
    if d <= 0 {
      return d;
    }
    var lo := d / 2;
    var hi := 3 * d / 2;
    w := lo + draw % (hi - lo + 1);
  }

  datatype Exit = Connected | GaveUp | Stopped

  /** Dials until one works, the context is cancelled, or twenty failures have been counted. */
  method Dial(io: nat -> Io, trace: seq<Op>, backoff: nat, failures: nat)
    returns (exit: Exit, trace': seq<Op>, backoff': nat, failures': nat)
    requires WithinLimits(trace) && Follows(io, trace) && !Up(trace)
    requires failures == DialsSince(trace) < MAX_FAILURES && backoff == BackoffAfter(trace)
    ensures WithinLimits(trace') && Follows(io, trace') && Receives(trace') == Receives(trace)
    ensures backoff' == BackoffAfter(trace')
    ensures exit.Connected? <==> Up(trace')
    ensures exit.Connected? ==> failures' == DialsSince(trace') < MAX_FAILURES
    ensures exit.GaveUp? <==> !Up(trace') && failures' == MAX_FAILURES
    ensures exit.GaveUp? ==> DialsSince(trace') == 19
    ensures exit.Stopped? ==> io(|trace'|).cancelled
  {
    trace', backoff', failures' := trace, backoff, failures;
    while true
      invariant WithinLimits(trace') && Follows(io, trace') && !Up(trace') && Receives(trace') == Receives(trace)
      invariant failures' == DialsSince(trace') < MAX_FAILURES
      invariant backoff' == BackoffAfter(trace')
      decreases MAX_FAILURES - failures'
    {
      failures' := failures' + 1;
      if failures' >= MAX_FAILURES {
        return GaveUp, trace', backoff', failures';
      }
      var answer := io(|trace'|);
      if answer.cancelled {
        return Stopped, trace', backoff', failures';
      }
      var wait := JitteredBackoff(backoff', answer.draw);
      Snoc(io, trace', Dialled(wait, answer.ok));
      trace' := trace' + [Dialled(wait, answer.ok)];
      if answer.ok {
        return Connected, trace', backoff', failures';
      }
      backoff' := backoff' * 2;
      if backoff' > MAX_BACKOFF {
        backoff' := MAX_BACKOFF;
      }
    }
  }

  /** The context was seen cancelled at the last answer or the one due. */
  predicate CancelledBy(io: nat -> Io, n: nat) {
    io(n).cancelled || (n > 0 && io(n - 1).cancelled)
  }

  /** The loop itself, up to `rounds` receives. Whatever the world answers, every dial and every wait is
      within limits, and it gives up only on nineteen dials without an event. */
  method Run(io: nat -> Io, rounds: nat) returns (trace: seq<Op>, exit: Exit)
    ensures Follows(io, trace) && WithinLimits(trace)
    ensures exit.Connected? ==> Receives(trace) == rounds && Up(trace)
    ensures exit.GaveUp? ==> DialsSince(trace) == 19 && !Up(trace)
    ensures exit.Stopped? ==> CancelledBy(io, |trace|)
    ensures Dials(trace) <= 19 * (1 + Events(trace))
    ensures SleptSince(trace) <= 1_462_500_000_000
  {
    trace, exit := [], Connected;
    var backoff, failures, round := BACKOFF, 0, 0;
    while round < rounds && exit.Connected?
      invariant round <= rounds && Follows(io, trace) && WithinLimits(trace)
      invariant exit.Connected? ==>
                  && Receives(trace) == round && Up(trace)
                  && failures == DialsSince(trace) < MAX_FAILURES && backoff == BackoffAfter(trace)
      invariant exit.GaveUp? ==> DialsSince(trace) == MAX_FAILURES - 1 && !Up(trace)
      invariant exit.Stopped? ==> CancelledBy(io, |trace|)
    {
      round := round + 1;
      var got := io(|trace|);
      if got.ok {
        Snoc(io, trace, Received);
        trace := trace + [Received];
        backoff, failures := BACKOFF, 0;
      } else {
        Snoc(io, trace, Broken);
        trace := trace + [Broken];
        if got.cancelled {
          exit := Stopped;
        } else {
          exit, trace, backoff, failures := Dial(io, trace, backoff, failures);
          if exit.Connected? && io(|trace| - 1).cancelled {
            exit := Stopped;
          }
        }
      }
    }
    DialsBoundedByEvents(trace);
    SleepIsBounded(trace);
  }
}
