/** The rolling-window strike counter that disables a plugin after too many traps. */
module Strikes {
  /** Instants and durations in nanoseconds. */
  const WINDOW: nat := 600_000_000_000
  const LIMIT: nat := 3

  datatype Outcome = Continue(count: nat, window: nat) | Disable

  /** `duration_since` is zero when the other instant is later. */
  function DurationSince(now: nat, t: nat): nat { if now >= t then now - t else 0 }

  predicate Live(t: nat, now: nat) { DurationSince(now, t) <= WINDOW }

  /** The strikes of a log that lie in the closed window ending at `now`. */
  function InWindow(log: seq<nat>, now: nat): seq<nat> {
    if log == [] then []
    else
      var t := log[|log| - 1];
      InWindow(log[..|log| - 1], now) + if Live(t, now) then [t] else []
  }

  function Pruned(q: seq<nat>, now: nat): seq<nat> {
    if q != [] && !Live(q[0], now) then Pruned(q[1..], now) else q
  }

  function Recorded(q: seq<nat>, now: nat): seq<nat> { Pruned(q, now) + [now] }

  class StrikeCounter {
    var inner: seq<nat>

    constructor ()
      ensures inner == []
    {
      inner := [];
    }

    method RecordAt(now: nat) returns (outcome: Outcome)
      modifies this
      ensures inner == Recorded(old(inner), now)
      ensures outcome == if |inner| >= LIMIT then Disable else Continue(|inner|, WINDOW)
    {
      while inner != [] && DurationSince(now, inner[0]) > WINDOW
        invariant Pruned(inner, now) == Pruned(old(inner), now)
        decreases |inner|
      {
        inner := inner[1..];
      }
      inner := inner + [now];
      if |inner| >= LIMIT {
        outcome := Disable;
      } else {
        outcome := Continue(|inner|, WINDOW);
      }
    }

    method Reset()
      modifies this
      ensures inner == []
    {
      inner := [];
    }
  }

  // ---- runs --------------------------------------------------------------------------

  datatype Event = Strike(now: nat) | Forget

  function Run(events: seq<Event>): seq<nat> {
    if events == [] then []
    else
      match events[|events| - 1]
      case Strike(now) => Recorded(Run(events[..|events| - 1]), now)
      case Forget => []
  }

  /** Every strike since the last reset. */
  function Log(events: seq<Event>): seq<nat> {
    if events == [] then []
    else
      match events[|events| - 1]
      case Strike(now) => Log(events[..|events| - 1]) + [now]
      case Forget => []
  }

  predicate Sorted(log: seq<nat>) { forall i, j | 0 <= i < j < |log| :: log[i] <= log[j] }

  /** Dropping expired strikes from the front drops all of them exactly when no expired strike is
      behind a live one. */
  lemma {:induction false} PrunedIsWindowIff(q: seq<nat>, now: nat)
    ensures Pruned(q, now) == InWindow(q, now) <==> forall i, j | 0 <= i < j < |q| && Live(q[i], now) :: Live(q[j], now)
    decreases |q|
  {
    WindowWithin(q, now);
    if q != [] {
      WindowCons(q, now);
      WindowWithin(q[1..], now);
      if !Live(q[0], now) {
        PrunedIsWindowIff(q[1..], now);
        if forall i, j | 0 <= i < j < |q[1..]| && Live(q[1..][i], now) :: Live(q[1..][j], now) {
          forall i, j | 0 <= i < j < |q| && Live(q[i], now) ensures Live(q[j], now) {
            assert q[1..][i - 1] == q[i] && q[1..][j - 1] == q[j];
          }
        } else {
          var i, j :| 0 <= i < j < |q[1..]| && Live(q[1..][i], now) && !Live(q[1..][j], now);
          assert q[i + 1] == q[1..][i] && q[j + 1] == q[1..][j];
        }
      } else if forall j | 0 < j < |q| :: Live(q[j], now) {
        assert forall t <- q :: Live(t, now);
      } else {
        var j :| 0 < j < |q| && !Live(q[j], now);
        assert q[j] in q;
      }
    }
  }

  /** The window is shorter than the log exactly when something in the log has expired. */
  lemma {:induction false} WindowWithin(q: seq<nat>, now: nat)
    ensures |InWindow(q, now)| <= |q|
    ensures InWindow(q, now) == q <==> forall t <- q :: Live(t, now)
    decreases |q|
  {
    if q != [] {
      var n := |q| - 1;
      WindowWithin(q[..n], now);
      assert q == q[..n] + [q[n]];
      if Live(q[n], now) && InWindow(q, now) == q {
        assert InWindow(q[..n], now) == InWindow(q, now)[..n] == q[..n];
      }
      if forall t <- q :: Live(t, now) {
        forall t <- q[..n] ensures Live(t, now) { assert t in q; }
      }
    }
  }

  lemma {:induction false} WindowCons(q: seq<nat>, now: nat)
    requires q != []
    ensures InWindow(q, now) == (if Live(q[0], now) then [q[0]] else []) + InWindow(q[1..], now)
    decreases |q|
  {
    var n := |q| - 1;
    if n > 0 {
      WindowCons(q[..n], now);
      assert q[..n][1..] == q[1..][..n - 1];
    }
  }

  lemma {:induction false} WindowOfWindow(log: seq<nat>, before: nat, now: nat)
    requires before <= now
    ensures InWindow(InWindow(log, before), now) == InWindow(log, now)
    decreases |log|
  {
    if log != [] {
      var n := |log| - 1;
      WindowOfWindow(log[..n], before, now);
      if Live(log[n], before) {
        var w := InWindow(log[..n], before);
        assert (w + [log[n]])[..|w|] == w;
      } else {
        assert InWindow(log, before) == InWindow(log[..n], before);
        assert InWindow(log, now) == InWindow(log[..n], now);
      }
    }
  }

  lemma {:induction false} WindowSorted(log: seq<nat>, now: nat)
    requires Sorted(log)
    ensures Sorted(InWindow(log, now)) && forall t <- InWindow(log, now) :: t in log && Live(t, now)
    decreases |log|
  {
    if log != [] {
      var n := |log| - 1;
      WindowSorted(log[..n], now);
      var w := InWindow(log[..n], now);
      forall t <- w ensures t in log && t <= log[n] {
        var k :| 0 <= k < n && log[..n][k] == t;
        assert log[k] == t;
      }
      forall k | 0 <= k < |w| ensures w[k] <= log[n] { assert w[k] in w; }
    }
  }

  /** One more strike turns the window ending at the strike before it into the window ending now. */
  lemma NextWindow(log: seq<nat>, now: nat)
    requires log != [] && Sorted(log + [now])
    ensures Recorded(InWindow(log, log[|log| - 1]), now) == InWindow(log + [now], now)
  {
    hide InWindow, Pruned;
    var n := |log| - 1;
    var last, q := log[n], InWindow(log, log[n]);
    assert (log + [now])[n] == last && (log + [now])[n + 1] == now;
    SortedFront(log, now);
    WindowSorted(log, last);
    forall i, j | 0 <= i < j < |q| && Live(q[i], now) ensures Live(q[j], now) { assert q[i] <= q[j]; }
    PrunedIsWindowIff(q, now);
    WindowOfWindow(log, last, now);
    WindowSnoc(log, now, now);
  }

  lemma SortedFront(log: seq<nat>, now: nat)
    requires Sorted(log + [now])
    ensures Sorted(log)
  {
    assert forall i | 0 <= i < |log| :: log[i] == (log + [now])[i];
  }

  lemma WindowSnoc(log: seq<nat>, t: nat, now: nat)
    ensures InWindow(log + [t], now) == InWindow(log, now) + if Live(t, now) then [t] else []
  {
    assert (log + [t])[..|log|] == log;
  }

  /** With a clock that never goes back, the queue is always the part of the log since the last
      reset that lies in the window ending at the latest strike, and stays sorted. */
  lemma {:induction false} QueueIsWindow(events: seq<Event>)
    requires Sorted(Log(events))
    ensures var log := Log(events);
            && Run(events) == (if log == [] then [] else InWindow(log, log[|log| - 1]))
            && Sorted(Run(events))
    decreases |events|
  {
    hide InWindow, Sorted, Pruned;
    NoStrikes();
    var log := Log(events);
    if events != [] && events[|events| - 1].Strike? {
      var front, now := events[..|events| - 1], events[|events| - 1].now;
      assert log == Log(front) + [now];
      SortedFront(Log(front), now);
      QueueIsWindow(front);
      if Log(front) != [] {
        NextWindow(Log(front), now);
      } else {
        WindowSnoc([], now, now);
      }
      WindowSorted(log, now);
    }
  }

  lemma NoStrikes()
    ensures Sorted([]) && forall now :: InWindow([], now) == [] && Pruned([], now) == []
  {}

  // ---- instants in any order -----------------------------------------------------------

  // Instants are taken before the lock, so they can be recorded in another order than they passed.

  lemma {:induction false} PrunedIsSuffix(q: seq<nat>, now: nat)
    ensures var d := |q| - |Pruned(q, now)|;
            && 0 <= d && Pruned(q, now) == q[d..]
            && (forall i | 0 <= i < d :: !Live(q[i], now))
            && (d < |q| ==> Live(q[d], now))
    decreases |q|
  {
    if q != [] && !Live(q[0], now) {
      PrunedIsSuffix(q[1..], now);
      var d := |q| - |Pruned(q, now)|;
      assert q[1..][d - 1..] == q[d..];
      forall i | 0 <= i < d ensures !Live(q[i], now) {
        if i > 0 { assert q[i] == q[1..][i - 1]; }
      }
    }
  }

  /** Each of the strikes up to the `i`-th has a later one by whose instant it had expired, and
      these can be chosen in the order of recording. */
  predicate Expelling(log: seq<nat>, i: nat, steps: seq<nat>) {
    && i < |log| && |steps| == i + 1
    && (forall j | 0 <= j <= i :: j < steps[j] < |log| && !Live(log[j], log[steps[j]]))
    && (forall j, k | 0 <= j < k <= i :: steps[j] <= steps[k])
  }

  ghost predicate Expelled(log: seq<nat>, i: nat) { exists steps :: Expelling(log, i, steps) }

  /** The queue is what is left of the log behind the strikes that were dropped. */
  lemma {:induction false} QueueIsSuffix(events: seq<Event>) returns (d: nat)
    ensures d <= |Log(events)| && Run(events) == Log(events)[d..]
    ensures forall i: nat | i < |Log(events)| :: i < d <==> Expelled(Log(events), i)
    decreases |events|
  {
    hide Expelled, Pruned, Live;
    d := 0;
    if events != [] && events[|events| - 1].Strike? {
      var front, now := events[..|events| - 1], events[|events| - 1].now;
      var before := QueueIsSuffix(front);
      d := NextDrop(Log(front), now, before);
    }
  }

  lemma NextDrop(log: seq<nat>, now: nat, before: nat) returns (d: nat)
    requires before <= |log| && forall k: nat | k < |log| :: k < before <==> Expelled(log, k)
    ensures d <= |log| && Recorded(log[before..], now) == (log + [now])[d..]
    ensures forall i: nat | i <= |log| :: i < d <==> Expelled(log + [now], i)
  {
    hide Expelled, Pruned, Live;
    var q := log[before..];
    PrunedIsSuffix(q, now);
    d := |log| - |Pruned(q, now)|;
    assert q[d - before..] == log[d..];
    assert (log + [now])[d..] == log[d..] + [now];
    forall k | before <= k < d ensures !Live(log[k], now) { assert q[k - before] == log[k]; }
    forall i: nat | i <= |log| ensures i < d <==> Expelled(log + [now], i) {
      DroppedIffExpelled(log, now, before, d, i);
    }
  }

  /** One strike more: from `before` dropped ones to `d`. */
  lemma DroppedIffExpelled(log: seq<nat>, now: nat, before: nat, d: nat, i: nat)
    requires before <= d <= |log| && i <= |log|
    requires forall k: nat | k < |log| :: k < before <==> Expelled(log, k)
    requires forall k | before <= k < d :: !Live(log[k], now)
    requires d < |log| ==> Live(log[d], now)
    ensures i < d <==> Expelled(log + [now], i)
  {
    hide Live, Expelling;
    if i < d {
      ExpelOneMore(log, now, before, i);
    }
    if Expelled(log + [now], i) {
      var steps :| Expelling(log + [now], i, steps);
      ExpelledIsDropped(log, now, before, d, i, steps);
    }
  }

  lemma ExpelOneMore(log: seq<nat>, now: nat, before: nat, i: nat)
    requires i < |log| && (before > 0 ==> before <= |log| && Expelled(log, before - 1))
    requires forall k | before <= k <= i :: !Live(log[k], now)
    ensures Expelled(log + [now], i)
  {
    var first: seq<nat> := [];
    if before > 0 {
      first :| Expelling(log, before - 1, first);
    }
    var steps := seq(i + 1, j requires 0 <= j <= i => if j < before then first[j] else |log|);
    assert Expelling(log + [now], i, steps);
  }

  lemma ExpelledIsDropped(log: seq<nat>, now: nat, before: nat, d: nat, i: nat, steps: seq<nat>)
    requires before <= d <= |log| && (d < |log| ==> Live(log[d], now))
    requires forall k: nat | k < |log| :: k < before <==> Expelled(log, k)
    requires Expelling(log + [now], i, steps)
    ensures i < d
  {
    hide Expelled, Live;
    if d <= i {
      ExpelledSooner(log, now, i, steps, d);
      assert false;
    }
  }

  lemma ExpelledSooner(log: seq<nat>, now: nat, i: nat, steps: seq<nat>, d: nat)
    requires Expelling(log + [now], i, steps) && d <= i
    ensures d < |log| && (Live(log[d], now) ==> Expelled(log, d))
  {
    hide Live;
    var more := log + [now];
    if Live(log[d], now) {
      assert steps[d] < |log|;
      var sooner := steps[..d + 1];
      forall j | 0 <= j <= d ensures j < sooner[j] < |log| && !Live(log[j], log[sooner[j]]) {
        assert j < d ==> steps[j] <= steps[d];
        assert more[j] == log[j] && more[steps[j]] == log[steps[j]];
      }
      assert Expelling(log, d, sooner);
    }
  }

  /** Nothing that has expired stands behind something live. */
  predicate LiveLast(log: seq<nat>, now: nat) {
    forall i, j | 0 <= i < j < |log| && Live(log[i], now) :: Live(log[j], now)
  }

  /** Nothing that was dropped before is live again. */
  ghost predicate NoneBack(log: seq<nat>, now: nat) {
    forall i: nat | i < |log| && Live(log[i], now) :: !Expelled(log, i)
  }

  lemma {:induction false} SplitWindow(log: seq<nat>, d: nat, now: nat)
    requires d <= |log|
    ensures InWindow(log, now) == InWindow(log[..d], now) + InWindow(log[d..], now)
    decreases |log|
  {
    if d == |log| {
      assert log[..d] == log && log[d..] == [];
      assert InWindow(log, now) + [] == InWindow(log, now);
    } else {
      var n := |log| - 1;
      SplitWindow(log[..n], d, now);
      assert log[..n][..d] == log[..d] && log[..n][d..] == log[d..][..n - d];
    }
  }

  lemma {:induction false} WindowLive(log: seq<nat>, now: nat)
    ensures forall t <- InWindow(log, now) :: Live(t, now)
    ensures InWindow(log, now) == [] <==> forall t <- log :: !Live(t, now)
    decreases |log|
  {
    if log != [] {
      var n := |log| - 1;
      WindowLive(log[..n], now);
      assert log == log[..n] + [log[n]] && log[n] in log;
    }
  }

  /** Pruning drops nothing that is live. */
  lemma PrunedHoldsWindow(q: seq<nat>, now: nat)
    ensures |InWindow(q, now)| <= |Pruned(q, now)|
  {
    hide InWindow, Pruned;
    PrunedIsSuffix(q, now);
    var d := |q| - |Pruned(q, now)|;
    SplitWindow(q, d, now);
    WindowLive(q[..d], now);
    WindowWithin(q[d..], now);
  }

  lemma PrunedLiveIsWindow(q: seq<nat>, now: nat)
    requires forall t <- Pruned(q, now) :: Live(t, now)
    ensures Pruned(q, now) == InWindow(q, now)
  {
    hide InWindow, Pruned;
    PrunedIsSuffix(q, now);
    var d := |q| - |Pruned(q, now)|;
    SplitWindow(q, d, now);
    WindowLive(q[..d], now);
    WindowWithin(q[d..], now);
    assert [] + q[d..] == q[d..];
  }

  /** The window in two parts: what was dropped before this strike and what was still queued. */
  lemma WindowParts(events: seq<Event>, now: nat) returns (d: nat)
    ensures d <= |Log(events)| && Run(events) == Log(events)[d..]
    ensures forall i: nat | i < |Log(events)| :: i < d <==> Expelled(Log(events), i)
    ensures InWindow(Log(events) + [now], now) ==
            InWindow(Log(events)[..d], now) + InWindow(Log(events)[d..], now) + [now]
  {
    hide InWindow, Pruned, Expelled, Run;
    d := QueueIsSuffix(events);
    WindowSnoc(Log(events), now, now);
    SplitWindow(Log(events), d, now);
  }

  lemma NoneBackIff(log: seq<nat>, now: nat, d: nat)
    requires d <= |log| && forall i: nat | i < |log| :: i < d <==> Expelled(log, i)
    ensures NoneBack(log, now) <==> InWindow(log[..d], now) == []
  {
    hide InWindow, Expelled;
    WindowLive(log[..d], now);
    assert forall i: nat | i < d :: log[..d][i] == log[i] && log[i] in log[..d];
  }

  lemma LiveLastRest(log: seq<nat>, now: nat, d: nat)
    requires d <= |log| && LiveLast(log, now)
    ensures LiveLast(log[d..], now)
  {
    var q := log[d..];
    assert forall i | 0 <= i < |q| :: q[i] == log[d + i];
  }

  /** Whatever the clock does, the queue after a strike is the window of the log exactly when, at its
      instant, nothing expired stands behind something live and nothing dropped earlier is live again. */
  lemma QueueIsWindowIff(events: seq<Event>, now: nat)
    ensures Recorded(Run(events), now) == InWindow(Log(events) + [now], now) <==>
            LiveLast(Log(events), now) && NoneBack(Log(events), now)
  {
    hide InWindow, Pruned, Expelled, LiveLast, NoneBack, Run;
    var log := Log(events);
    var d := WindowParts(events, now);
    var q, front, back := log[d..], InWindow(log[..d], now), InWindow(log[d..], now);
    NoneBackIff(log, now, d);
    if LiveLast(log, now) && NoneBack(log, now) {
      LiveLastRest(log, now, d);
      PrunedOfLiveLast(q, now);
      assert front + back == back;
    } else if Recorded(q, now) == front + back + [now] {
      assert Pruned(q, now) == Recorded(q, now)[..|Pruned(q, now)|] == front + back;
      WindowLive(log[..d], now);
      WindowLive(q, now);
      PrunedLiveIsWindow(q, now);
      assert front == [];
      LiveLastWhole(log, now, d);
    }
  }

  lemma PrunedOfLiveLast(q: seq<nat>, now: nat)
    requires LiveLast(q, now)
    ensures Pruned(q, now) == InWindow(q, now)
  {
    PrunedIsWindowIff(q, now);
  }

  lemma LiveLastWhole(log: seq<nat>, now: nat, d: nat)
    requires d <= |log| && InWindow(log[..d], now) == [] && Pruned(log[d..], now) == InWindow(log[d..], now)
    ensures LiveLast(log, now)
  {
    hide InWindow, Pruned;
    var q := log[d..];
    WindowLive(log[..d], now);
    PrunedIsWindowIff(q, now);
    forall i | 0 <= i < d ensures !Live(log[i], now) {
      assert log[..d][i] in log[..d];
    }
    forall i, j | d <= i < j < |log| && Live(log[i], now) ensures Live(log[j], now) {
      assert q[i - d] == log[i] && q[j - d] == log[j];
    }
  }

  /** Exactly when a strike disables the plugin: the strike that makes up the limit, counted back from
      this one, has not been expelled. */
  lemma DisablesIff(events: seq<Event>, now: nat)
    ensures |Recorded(Run(events), now)| >= LIMIT <==>
            var log := Log(events) + [now]; |log| >= LIMIT && !Expelled(log, |log| - LIMIT)
  {
    hide Expelled, Recorded;
    var more := events + [Strike(now)];
    assert more[..|more| - 1] == events;
    var d := QueueIsSuffix(more);
    assert Log(more) == Log(events) + [now] && Run(more) == Recorded(Run(events), now);
  }

  /** Each half of the condition rules out one kind of mistake: without something expired behind
      something live no strike disables too early, and without something live that was dropped no
      strike fails to disable. */
  lemma DisablesAsWindow(events: seq<Event>, now: nat)
    ensures LiveLast(Log(events), now) && |Recorded(Run(events), now)| >= LIMIT ==>
              |InWindow(Log(events) + [now], now)| >= LIMIT
    ensures NoneBack(Log(events), now) && |InWindow(Log(events) + [now], now)| >= LIMIT ==>
              |Recorded(Run(events), now)| >= LIMIT
  {
    hide InWindow, Pruned, Expelled, LiveLast, NoneBack, Run;
    var log := Log(events);
    var d := WindowParts(events, now);
    NoneBackIff(log, now, d);
    PrunedHoldsWindow(log[d..], now);
    if LiveLast(log, now) {
      LiveLastRest(log, now, d);
      PrunedOfLiveLast(log[d..], now);
    }
  }

  /** So a strike disables the plugin exactly when it and the recorded strikes up to the window's
      length before it are at least the limit. */
  lemma DisablesIffLimitInWindow(events: seq<Event>, now: nat)
    requires Sorted(Log(events) + [now])
    ensures |Recorded(Run(events), now)| >= LIMIT <==> |InWindow(Log(events) + [now], now)| >= LIMIT
  {
    var more := events + [Strike(now)];
    assert more[..|more| - 1] == events;
    assert Log(more) == Log(events) + [now];
    QueueIsWindow(more);
    assert Run(more) == Recorded(Run(events), now);
  }

  lemma TwoStrikes(a: nat, b: nat)
    ensures Log([Strike(a), Strike(b)]) == [a, b] && Run([Strike(a), Strike(b)]) == Recorded(Recorded([], a), b)
  {
    var e1, e2 := [Strike(a)], [Strike(a), Strike(b)];
    assert e1[..0] == [] && e2[..1] == e1;
    assert Log(e1) == [a] && Run(e1) == Recorded([], a);
  }

  lemma WindowOfThree(a: nat, b: nat, now: nat)
    ensures InWindow([a, b] + [now], now) ==
            (if Live(a, now) then [a] else []) + (if Live(b, now) then [b] else []) + [now]
  {
    assert [] + [a] == [a] && [a] + [b] == [a, b];
    WindowSnoc([], a, now);
    WindowSnoc([a], b, now);
    WindowSnoc([a, b], now, now);
  }

  /** Too many: of two strikes recorded out of order the earlier one stays behind the later one after it
      expired, and the third strike disables the plugin. */
  lemma OutOfOrderOvercounts()
    ensures var events, now := [Strike(WINDOW), Strike(0)], 2 * WINDOW;
            |Recorded(Run(events), now)| >= LIMIT && |InWindow(Log(events) + [now], now)| < LIMIT
  {
    hide InWindow, Run;
    TwoStrikes(WINDOW, 0);
    WindowOfThree(WINDOW, 0, 2 * WINDOW);
    assert Pruned([], WINDOW) == [] && Pruned([WINDOW], 0) == [WINDOW];
    assert Pruned([WINDOW, 0], 2 * WINDOW) == [WINDOW, 0];
  }

  /** Too few: a strike that was dropped one nanosecond after the window is live again at an instant
      recorded later, and the third strike in the window does not disable the plugin. */
  lemma OutOfOrderUndercounts()
    ensures var events, now := [Strike(0), Strike(WINDOW + 1)], WINDOW;
            |Recorded(Run(events), now)| < LIMIT && |InWindow(Log(events) + [now], now)| >= LIMIT
  {
    hide InWindow, Run;
    TwoStrikes(0, WINDOW + 1);
    WindowOfThree(0, WINDOW + 1, WINDOW);
    var first: seq<nat> := [0];
    assert Recorded([], 0) == first && first[1..] == [];
    assert Pruned([], WINDOW + 1) == [] && Pruned(first, WINDOW + 1) == [];
    assert Pruned([WINDOW + 1], WINDOW) == [WINDOW + 1];
  }
}
