/** The playback scheduler (PlaybackService.cs): after a two-second warm-up
    it plays a macro's events at absolute targets measured from the start of
    each pass (the running sum of the delays), optionally looping, and stops
    at the next check once cancellation is requested.  The cancellation
    token, the stopwatch and the timers are small oracle classes whose
    methods may observe a concurrent `Stop` and the passing of time. */
module Playback {
  import opened MacroModel
  import opened InputSimulation

  /** The warm-up before the first pass, in milliseconds. */
  const WarmUpMs := 2000
  /** Below this many remaining milliseconds the wait spins instead of sleeping. */
  const SpinThresholdMs := 5

  /** What a run did with its cancellation token and with the simulator,
      as the token's ghost history records it: a poll of
      `IsCancellationRequested` that saw `seen`, or an event injected while
      the stopwatch read `at`. */
  datatype Mark = Poll(seen: bool) | Injected(at: int)

  /** A cancellation token source together with its token.  A request is
      never withdrawn; a poll may observe a request made concurrently.
      `history` holds the run's polls and injections, oldest first. */
  class CancellationSource {
    var requested: bool
    ghost var history: seq<Mark>

    constructor ()
      ensures !requested && history == []
    {
      requested := false;
      history := [];
    }

    method Cancel()
      modifies this
      ensures requested && history == old(history)
    {
      requested := true;
    }

    /** `token.IsCancellationRequested`. */
    method IsCancellationRequested() returns (b: bool)
      modifies this
      ensures old(requested) ==> requested
      ensures b == requested
      ensures history == old(history) + [Poll(b)]
    {
      if !requested {
        requested := *;
      }
      b := requested;
      history := history + [Poll(b)];
    }
  }

  /** One use of the stopwatch or of a timer, as the ghost history of a
      `Clock` records it: a reading of `ElapsedMilliseconds`, a
      `Task.Delay` of `ms` milliseconds, or a spin until `until`. */
  datatype ClockCall = Read(reading: int) | Sleep(ms: int) | Spin(until: int)

  /** The run's stopwatch and the timers behind `Task.Delay` and
      `SpinWait.SpinUntil`; the reading never goes backwards.  `calls` is
      the history of readings and waits, oldest first. */
  class Clock {
    var elapsed: int
    ghost var calls: seq<ClockCall>

    constructor ()
      ensures elapsed == 0 && calls == []
    {
      elapsed := 0;
      calls := [];
    }

    /** `Stopwatch.StartNew()`. */
    method Restart()
      modifies this
      ensures elapsed == 0 && calls == old(calls)
    {
      elapsed := 0;
    }

    /** `ElapsedMilliseconds`. */
    method ElapsedMilliseconds() returns (t: int)
      modifies this
      ensures old(elapsed) <= elapsed && t == elapsed
      ensures calls == old(calls) + [Read(t)]
    {
      var later: int := *;
      if later > elapsed {
        elapsed := later;
      }
      t := elapsed;
      calls := calls + [Read(t)];
    }

    /** `Task.Delay(ms, token)`: completes after at least `ms` milliseconds,
        or is cancelled (the task throws) when the token is or becomes
        cancelled. */
    method Delay(ms: int, token: CancellationSource) returns (canceled: bool)
      requires ms >= 0
      modifies this, token
      ensures old(elapsed) <= elapsed
      ensures old(token.requested) ==> canceled
      ensures canceled ==> token.requested
      ensures !canceled ==> elapsed >= old(elapsed) + ms && token.requested == old(token.requested)
      ensures calls == old(calls) + [Sleep(ms)] && token.history == old(token.history)
    {
      calls := calls + [Sleep(ms)];
      var interrupted: bool := *;
      if token.requested || interrupted {
        token.requested := true;
        return true;
      }
      var later: int := *;
      elapsed := Max(elapsed + ms, later);
      return false;
    }

    /** `SpinWait.SpinUntil` on "the target is reached or cancellation is
        requested". */
    method SpinUntil(target: int, token: CancellationSource)
      modifies this, token
      ensures old(elapsed) <= elapsed
      ensures old(token.requested) ==> token.requested
      ensures elapsed >= target || token.requested
      ensures calls == old(calls) + [Spin(target)] && token.history == old(token.history)
    {
      calls := calls + [Spin(target)];
      var interrupted: bool := *;
      if interrupted {
        token.requested := true;
      } else {
        var later: int := *;
        elapsed := Max(Max(elapsed, target), later);
      }
    }
  }

  /** The sleeping rounds of a wait for `target`, oldest first: each is a
      reading that left more than `SpinThresholdMs` to go, followed by a
      sleep of all but that margin (at least one millisecond). */
  ghost predicate SleepRounds(target: int, c: seq<ClockCall>)
    decreases |c|
  {
    if c == [] then true
    else
      |c| >= 2 && c[|c| - 2].Read? && target - c[|c| - 2].reading > SpinThresholdMs
      && c[|c| - 1] == Sleep(Max(1, target - c[|c| - 2].reading - SpinThresholdMs))
      && SleepRounds(target, c[..|c| - 2])
  }

  /** What one wait for `target` does with the clock: sleeping rounds, then
      possibly a last reading that found the target reached, or a last
      reading that left at most `SpinThresholdMs` followed by a spin to the
      target.  Ending after a sleep is a cancelled sleep or a cancellation
      seen by the loop. */
  ghost predicate IsWaitTrace(target: int, c: seq<ClockCall>)
  {
    SleepRounds(target, c)
    || (|c| >= 1 && SleepRounds(target, c[..|c| - 1])
        && c[|c| - 1].Read? && target - c[|c| - 1].reading <= 0)
    || (|c| >= 2 && SleepRounds(target, c[..|c| - 2])
        && c[|c| - 2].Read? && 0 < target - c[|c| - 2].reading <= SpinThresholdMs
        && c[|c| - 1] == Spin(target))
  }

  /** In any wait, each sleep directly follows a reading and ends exactly
      `SpinThresholdMs` before the target as that reading saw it (so a
      sleep never overshoots the target), and a spin, if any, is the last
      thing the wait does. */
  lemma {:induction false} WaitTraceShape(target: int, c: seq<ClockCall>)
    requires IsWaitTrace(target, c)
    ensures forall i :: 0 <= i < |c| && c[i].Sleep? ==>
      0 < i && c[i - 1].Read? && c[i].ms >= 1
      && c[i - 1].reading + c[i].ms + SpinThresholdMs == target
    ensures forall i :: 0 <= i < |c| && c[i].Spin? ==> i == |c| - 1 && c[i].until == target
  {
    if SleepRounds(target, c) {
      SleepRoundsShape(target, c);
    } else if |c| >= 1 && SleepRounds(target, c[..|c| - 1])
        && c[|c| - 1].Read? && target - c[|c| - 1].reading <= 0 {
      SleepRoundsShape(target, c[..|c| - 1]);
    } else {
      SleepRoundsShape(target, c[..|c| - 2]);
    }
  }

  /** `WaitTraceShape` for the sleeping rounds alone, which hold no spin. */
  lemma {:induction false} SleepRoundsShape(target: int, c: seq<ClockCall>)
    requires SleepRounds(target, c)
    ensures |c| % 2 == 0
    ensures forall i :: 0 <= i < |c| ==> (c[i].Sleep? <==> i % 2 == 1)
    ensures forall i :: 0 <= i < |c| && c[i].Sleep? ==>
      c[i - 1].Read? && c[i].ms >= 1
      && c[i - 1].reading + c[i].ms + SpinThresholdMs == target
    ensures forall i :: 0 <= i < |c| ==> !c[i].Spin?
    decreases |c|
  {
    if c != [] {
      SleepRoundsShape(target, c[..|c| - 2]);
    }
  }

  /** One sleeping round of a wait for `target`: a reading that left more
      than `SpinThresholdMs`, then a sleep of all but that margin. */
  ghost predicate IsSleepRound(target: int, r: seq<ClockCall>) {
    |r| == 2 && r[0].Read? && target - r[0].reading > SpinThresholdMs
    && r[1] == Sleep(Max(1, target - r[0].reading - SpinThresholdMs))
  }

  /** The last round of a wait that was not cancelled: a reading at or past
      the target, or a reading that left at most `SpinThresholdMs` and then
      a spin to the target. */
  ghost predicate IsLastRound(target: int, r: seq<ClockCall>) {
    (|r| == 1 && r[0].Read? && target - r[0].reading <= 0)
    || (|r| == 2 && r[0].Read? && 0 < target - r[0].reading <= SpinThresholdMs && r[1] == Spin(target))
  }

  /** Waits until the stopwatch reaches `target`: sleeps while more than
      `SpinThresholdMs` remain (leaving that margin), then spins.  Returns
      normally once the target is reached or cancellation is observed;
      `canceled` is a cancelled sleep, which throws.  `trace` is what the
      wait did with the clock, a wait trace for `target`, and `polls` what it
      did with the token: polls only. */
  method WaitForTargetTime(clock: Clock, target: int, token: CancellationSource)
    returns (canceled: bool, ghost trace: seq<ClockCall>, ghost polls: seq<Mark>)
    modifies clock, token
    ensures old(clock.elapsed) <= clock.elapsed
    ensures old(token.requested) ==> token.requested
    ensures canceled ==> token.requested
    ensures !canceled ==> clock.elapsed >= target || token.requested
    ensures clock.calls == old(clock.calls) + trace
    ensures IsWaitTrace(target, trace)
    ensures token.history == old(token.history) + polls
    ensures NoInjection(polls) && (Poll(true) in polls ==> token.requested)
  {
    ghost var before := clock.calls;
    trace := [];
    var stop := token.IsCancellationRequested();
    PollSnoc([], stop);
    polls := [] + [Poll(stop)];
    var finished := false;
    canceled := false;
    while !stop && !finished
      invariant old(clock.elapsed) <= clock.elapsed
      invariant old(token.requested) ==> token.requested
      invariant clock.calls == before + trace
      invariant token.history == old(token.history) + polls
      invariant NoInjection(polls) && (Poll(true) in polls ==> token.requested)
      invariant canceled ==> finished && token.requested
      invariant !finished ==> stop == token.requested && SleepRounds(target, trace)
      invariant finished ==> IsWaitTrace(target, trace)
      invariant finished && !canceled ==> clock.elapsed >= target || token.requested
      decreases !finished, Max(0, target - clock.elapsed)
    {
      ghost var round;
      finished, canceled, round := WaitRound(clock, target, token);
      assert clock.calls == before + (trace + round);
      if finished && !canceled {
        WaitEnds(target, trace, round);
      } else {
        SleepRoundsSnoc(target, trace, round);
      }
      trace := trace + round;
      if canceled {
        SleptIsWait(target, trace);
      } else if !finished {
        stop := token.IsCancellationRequested();
        PollSnoc(polls, stop);
        polls := polls + [Poll(stop)];
      }
    }
    if !finished {
      SleptIsWait(target, trace);
    }
  }

  /** One pass of the wait loop's body: reads the stopwatch, returns at or
      past the target, sleeps all but `SpinThresholdMs` while more than that
      remains, and spins to the target otherwise.  `finished` is a return
      from the wait; `canceled` a cancelled sleep, which throws. */
  method WaitRound(clock: Clock, target: int, token: CancellationSource)
    returns (finished: bool, canceled: bool, ghost round: seq<ClockCall>)
    modifies clock, token
    ensures old(clock.elapsed) <= clock.elapsed
    ensures old(token.requested) ==> token.requested
    ensures canceled ==> finished && token.requested
    ensures finished && !canceled ==> clock.elapsed >= target || token.requested
    ensures !finished ==> old(clock.elapsed) < clock.elapsed && old(clock.elapsed) < target
    ensures !finished ==> token.requested == old(token.requested)
    ensures token.history == old(token.history)
    ensures clock.calls == old(clock.calls) + round
    ensures !finished || canceled <==> IsSleepRound(target, round)
    ensures finished && !canceled ==> IsLastRound(target, round)
  {
    var now := clock.ElapsedMilliseconds();
    var remaining := target - now;
    if remaining <= 0 {
      return true, false, [Read(now)];
    }
    if remaining > SpinThresholdMs {
      var delay := Max(1, remaining - SpinThresholdMs);
      canceled := clock.Delay(delay, token);
      return canceled, canceled, [Read(now), Sleep(delay)];
    }
    clock.SpinUntil(target, token);
    return true, false, [Read(now), Spin(target)];
  }

  /** One more sleeping round. */
  lemma SleepRoundsSnoc(target: int, done: seq<ClockCall>, round: seq<ClockCall>)
    requires SleepRounds(target, done) && IsSleepRound(target, round)
    ensures SleepRounds(target, done + round)
  {
    var c := done + round;
    assert c[..|c| - 2] == done;
  }

  /** Sleeping rounds alone make a wait (one cancelled, or stopped by the
      loop's check). */
  lemma SleptIsWait(target: int, done: seq<ClockCall>)
    requires SleepRounds(target, done)
    ensures IsWaitTrace(target, done)
  {
  }

  /** Sleeping rounds followed by a last round make a wait. */
  lemma WaitEnds(target: int, done: seq<ClockCall>, last: seq<ClockCall>)
    requires SleepRounds(target, done) && IsLastRound(target, last)
    ensures IsWaitTrace(target, done + last)
  {
    var c := done + last;
    if |last| == 1 {
      assert c[..|c| - 1] == done;
    } else {
      assert c[..|c| - 2] == done;
    }
  }

  /** The target of event `i`: the sum of the delays up to and including it. */
  function TargetTime(events: seq<MacroEvent>, i: nat): int
    requires i < |events|
  {
    Sum(Delays(events[..i + 1]))
  }

  /** Adding one event's delay moves the running target to the next one. */
  lemma TargetStep(events: seq<MacroEvent>, i: nat)
    requires i < |events|
    ensures TargetTime(events, i) == Sum(Delays(events[..i])) + events[i].delay
  {
    assert Delays(events[..i + 1])[..i] == Delays(events[..i]);
  }

  /** With non-negative delays the targets never decrease. */
  lemma {:induction false} TargetsNonDecreasing(events: seq<MacroEvent>, i: nat, j: nat)
    requires forall k :: 0 <= k < |events| ==> events[k].delay >= 0
    requires i <= j < |events|
    ensures TargetTime(events, i) <= TargetTime(events, j)
    decreases j - i
  {
    if i < j {
      TargetsNonDecreasing(events, i, j - 1);
      TargetStep(events, j);
      assert events[..j] == events[..(j - 1) + 1];
    }
  }

  /** The events of a pass that played `played` events. */
  function PassPrefix(events: seq<MacroEvent>, played: nat): seq<MacroEvent> {
    events[..Min(played, |events|)]
  }

  /** The inputs a run sends, one pass after another, each pass starting
      from the reset simulator state. */
  function RunTrace(events: seq<MacroEvent>, passes: seq<nat>, p: Platform): seq<NativeInput>
    decreases |passes|
  {
    if passes == [] then []
    else
      RunTrace(events, passes[..|passes| - 1], p)
      + PlayAll(ResetSimState, PassPrefix(events, passes[|passes| - 1]), p).emitted
  }

  /** One more pass appends its inputs to the run's trace. */
  lemma RunTraceSnoc(events: seq<MacroEvent>, passes: seq<nat>, played: nat, p: Platform)
    requires played <= |events|
    ensures RunTrace(events, passes + [played], p) ==
      RunTrace(events, passes, p) + PlayAll(ResetSimState, events[..played], p).emitted
  {
    assert (passes + [played])[..|passes|] == passes;
  }

  /** `n` copies of `xs`, one after another. */
  function Repeat<T>(xs: seq<T>, n: nat): (r: seq<T>)
    ensures |r| == n * |xs|
  {
    if n == 0 then [] else Repeat(xs, n - 1) + xs
  }

  /** A run of complete passes sends the inputs of one complete pass once
      per pass: every pass starts from the reset state, so nothing carries
      over from one pass to the next. */
  lemma {:induction false} CompletePassesRepeat(events: seq<MacroEvent>, passes: seq<nat>, p: Platform)
    requires forall i :: 0 <= i < |passes| ==> passes[i] == |events|
    ensures RunTrace(events, passes, p) == Repeat(PlayAll(ResetSimState, events, p).emitted, |passes|)
    decreases |passes|
  {
    if passes != [] {
      CompletePassesRepeat(events, passes[..|passes| - 1], p);
      assert PassPrefix(events, passes[|passes| - 1]) == events;
    }
  }

  /** The checks before one event of a pass: stop if cancellation is
      requested, advance the target by the event's delay and wait for it,
      then stop if cancellation is requested.  `go` means the event is due
      and no cancellation was seen; `aborted` is a cancelled sleep.  `polls`
      is what this did with the token: polls only, and when `go`, a first
      and a last poll that both saw no request. */
  method AwaitEvent(clock: Clock, scheduledTime: int, delay: int, token: CancellationSource)
    returns (go: bool, aborted: bool, ghost polls: seq<Mark>)
    modifies clock, token
    ensures old(clock.elapsed) <= clock.elapsed
    ensures old(token.requested) ==> !go
    ensures go ==> !aborted && !token.requested && clock.elapsed >= scheduledTime + delay
    ensures !go ==> token.requested
    ensures token.history == old(token.history) + polls
    ensures NoInjection(polls) && (Poll(true) in polls ==> token.requested)
    ensures go ==> |polls| >= 2 && polls[0] == Poll(false) && polls[|polls| - 1] == Poll(false)
  {
    var cancelled := token.IsCancellationRequested();
    polls := [Poll(cancelled)];
    if cancelled {
      return false, false, polls;
    }
    var thrown;
    ghost var trace, waited;
    thrown, trace, waited := WaitForTargetTime(clock, scheduledTime + delay, token);
    polls := polls + waited;
    if thrown {
      return false, true, polls;
    }
    cancelled := token.IsCancellationRequested();
    PollSnoc(polls, cancelled);
    polls := polls + [Poll(cancelled)];
    go, aborted := !cancelled, false;
  }

  /** Plays the next event of a pass, extending the replay of the events
      before it by one, and records the injection, at the stopwatch's
      current reading, in the token's history. */
  method PlayNext(sim: Simulator, events: seq<MacroEvent>, played: nat, ghost start: seq<NativeInput>,
                  clock: Clock, token: CancellationSource, p: Platform)
    requires played < |events|
    requires sim.State() == PlayAll(ResetSimState, events[..played], p).state
    requires sim.sent == start + PlayAll(ResetSimState, events[..played], p).emitted
    modifies sim, token`history
    ensures sim.State() == PlayAll(ResetSimState, events[..played + 1], p).state
    ensures sim.sent == start + PlayAll(ResetSimState, events[..played + 1], p).emitted
    ensures token.history == old(token.history) + [Injected(clock.elapsed)]
  {
    assert events[..played + 1] == events[..played] + [events[played]];
    PlayAllSnoc(ResetSimState, events[..played], events[played], p);
    sim.Play(events[played], p);
    token.history := token.history + [Injected(clock.elapsed)];
  }

  /** Appending to a history in two steps appends their concatenation. */
  lemma Associative<T>(a: seq<T>, b: seq<T>, c: seq<T>)
    ensures a + b + c == a + (b + c)
  {
  }

  /** The stopwatch readings at which the injections of `m` happened, in order. */
  ghost function InjectionTimes(m: seq<Mark>): seq<int>
    decreases |m|
  {
    if m == [] then []
    else InjectionTimes(m[..|m| - 1]) + (if m[|m| - 1].Injected? then [m[|m| - 1].at] else [])
  }

  /** `m` holds polls only. */
  ghost predicate NoInjection(m: seq<Mark>) {
    forall k :: 0 <= k < |m| ==> !m[k].Injected?
  }

  /** Every injection directly follows a poll that saw no request. */
  ghost predicate GuardedInjections(m: seq<Mark>) {
    forall k :: 0 <= k < |m| && m[k].Injected? ==> 0 < k && m[k - 1] == Poll(false)
  }

  /** Once a poll has seen a request, nothing more is injected. */
  ghost predicate NoInjectionAfterStopSeen(m: seq<Mark>) {
    forall i, k :: 0 <= i < k < |m| && m[i] == Poll(true) ==> !m[k].Injected?
  }

  /** One more poll, which saw `b`. */
  lemma PollSnoc(polls: seq<Mark>, b: bool)
    requires NoInjection(polls)
    ensures NoInjection(polls + [Poll(b)])
    ensures Poll(true) in polls + [Poll(b)] <==> Poll(true) in polls || b
  {
    assert (polls + [Poll(b)])[|polls|] == Poll(b);
  }

  /** The injection times of a concatenation. */
  lemma {:induction false} InjectionTimesConcat(a: seq<Mark>, b: seq<Mark>)
    ensures InjectionTimes(a + b) == InjectionTimes(a) + InjectionTimes(b)
    decreases |b|
  {
    if b == [] {
      assert a + b == a;
    } else {
      var c := a + b;
      assert c[..|c| - 1] == a + b[..|b| - 1];
      InjectionTimesConcat(a, b[..|b| - 1]);
    }
  }

  /** A history holds no injection exactly when it has no injection times. */
  lemma {:induction false} NoInjectionTimes(m: seq<Mark>)
    ensures NoInjection(m) <==> InjectionTimes(m) == []
    decreases |m|
  {
    if m != [] {
      var init := m[..|m| - 1];
      NoInjectionTimes(init);
      assert forall k :: 0 <= k < |init| ==> init[k] == m[k];
    }
  }

  /** Both guarantees, stated mark by mark from the newest: an injection
      directly follows a poll that saw no request, and no earlier poll saw
      one. */
  ghost predicate SafeHistory(m: seq<Mark>)
    decreases |m|
  {
    m == []
    || (SafeHistory(m[..|m| - 1])
        && (m[|m| - 1].Injected? ==> |m| >= 2 && m[|m| - 2] == Poll(false) && Poll(true) !in m[..|m| - 1]))
  }

  /** The mark-by-mark statement is exactly the two guarantees. */
  lemma {:induction false} SafeHistoryMeans(m: seq<Mark>)
    ensures SafeHistory(m) <==> GuardedInjections(m) && NoInjectionAfterStopSeen(m)
    decreases |m|
  {
    if m != [] {
      var init := m[..|m| - 1];
      SafeHistoryMeans(init);
      assert forall k :: 0 <= k < |init| ==> init[k] == m[k];
      if GuardedInjections(m) && NoInjectionAfterStopSeen(m) && m[|m| - 1].Injected? {
        assert Poll(true) !in init by {
          forall i | 0 <= i < |init|
            ensures init[i] != Poll(true)
          {
            assert m[i] == init[i];
          }
        }
      }
    }
  }

  /** Polls alone are a safe history. */
  lemma {:induction false} PollsSafe(m: seq<Mark>)
    requires NoInjection(m)
    ensures SafeHistory(m)
    decreases |m|
  {
    if m != [] {
      var init := m[..|m| - 1];
      assert forall k :: 0 <= k < |init| ==> init[k] == m[k];
      PollsSafe(init);
    }
  }

  /** Two safe stretches of history make a safe history when the second
      injects nothing or the first saw no request. */
  lemma {:induction false} SafeConcat(a: seq<Mark>, b: seq<Mark>)
    requires SafeHistory(a) && SafeHistory(b)
    requires Poll(true) in a ==> NoInjection(b)
    ensures SafeHistory(a + b)
    decreases |b|
  {
    if b == [] {
      assert a + b == a;
    } else {
      var c := a + b;
      var init := b[..|b| - 1];
      assert c[..|c| - 1] == a + init;
      assert c[|c| - 1] == b[|b| - 1];
      if Poll(true) in a {
        forall k | 0 <= k < |init|
          ensures !init[k].Injected?
        {
          assert init[k] == b[k];
        }
      }
      SafeConcat(a, init);
      if b[|b| - 1].Injected? {
        assert Poll(true) !in a;
        assert Poll(true) !in init;
        assert c[|c| - 2] == b[|b| - 2];
      }
    }
  }

  /** A safe concatenation and its injection times. */
  lemma MarksConcat(a: seq<Mark>, b: seq<Mark>)
    requires SafeHistory(a) && SafeHistory(b)
    requires Poll(true) in a ==> NoInjection(b)
    ensures SafeHistory(a + b)
    ensures InjectionTimes(a + b) == InjectionTimes(a) + InjectionTimes(b)
  {
    SafeConcat(a, b);
    InjectionTimesConcat(a, b);
  }

  /** `times` holds one stopwatch reading per played event, in order, none
      earlier than that event's due time; stated reading by reading from
      the newest. */
  ghost predicate OnSchedule(events: seq<MacroEvent>, times: seq<int>, played: nat)
    requires played <= |events|
    decreases played
  {
    |times| == played
    && (played > 0 ==>
          OnSchedule(events, times[..played - 1], played - 1)
          && times[played - 1] >= TargetTime(events, played - 1)
          && (played > 1 ==> times[played - 2] <= times[played - 1]))
  }

  /** The schedule guarantee over all played events at once. */
  ghost predicate InOrderAndOnTime(events: seq<MacroEvent>, times: seq<int>, played: nat)
    requires played <= |events|
  {
    |times| == played
    && (forall i :: 0 <= i < played ==> times[i] >= TargetTime(events, i))
    && (forall i, j :: 0 <= i <= j < played ==> times[i] <= times[j])
  }

  /** The reading-by-reading statement is exactly the schedule guarantee. */
  lemma {:induction false} OnScheduleMeans(events: seq<MacroEvent>, times: seq<int>, played: nat)
    requires played <= |events|
    ensures OnSchedule(events, times, played) <==> InOrderAndOnTime(events, times, played)
    decreases played
  {
    if played > 0 && |times| == played {
      var init := times[..played - 1];
      OnScheduleMeans(events, init, played - 1);
      assert forall i :: 0 <= i < played - 1 ==> init[i] == times[i];
    }
  }

  /** One more event played at reading `t`, at or after its due time and
      the previous reading, keeps the pass on schedule. */
  lemma OnScheduleSnoc(events: seq<MacroEvent>, times: seq<int>, played: nat, t: int)
    requires played < |events| && OnSchedule(events, times, played)
    requires t >= TargetTime(events, played)
    requires played > 0 ==> times[played - 1] <= t
    ensures OnSchedule(events, times + [t], played + 1)
  {
    assert (times + [t])[..played] == times;
  }

  /** The injection times of a run whose passes played `passes` events:
      pass after pass, each on its own schedule (the stopwatch restarts
      with every pass). */
  ghost predicate RunOnSchedule(events: seq<MacroEvent>, passes: seq<nat>, times: seq<int>)
    decreases |passes|
  {
    if passes == [] then times == []
    else
      var n := passes[|passes| - 1];
      n <= |events| && n <= |times|
      && OnSchedule(events, times[|times| - n..], n)
      && RunOnSchedule(events, passes[..|passes| - 1], times[..|times| - n])
  }

  /** One more pass on its own schedule. */
  lemma RunOnScheduleSnoc(events: seq<MacroEvent>, passes: seq<nat>, times: seq<int>, played: nat, more: seq<int>)
    requires RunOnSchedule(events, passes, times)
    requires played <= |events| && OnSchedule(events, more, played)
    ensures RunOnSchedule(events, passes + [played], times + more)
  {
    var t := times + more;
    assert (passes + [played])[..|passes|] == passes;
    assert t[|t| - played..] == more && t[..|t| - played] == times;
  }

  /** A run on schedule injected exactly as many events as its passes
      played, every one at or after its due time in its pass. */
  lemma {:induction false} RunOnScheduleCount(events: seq<MacroEvent>, passes: seq<nat>, times: seq<int>)
    requires RunOnSchedule(events, passes, times)
    ensures |times| == Sum(passes)
    decreases |passes|
  {
    if passes != [] {
      var n := passes[|passes| - 1];
      RunOnScheduleCount(events, passes[..|passes| - 1], times[..|times| - n]);
    }
  }

  /** One pass: resets the simulator and the stopwatch, then for each event
      checks for cancellation, advances the target by the event's delay,
      waits for it, checks again and plays the event.  `played` events were
      played; `aborted` is a cancelled sleep.  `marks` is what the pass
      appended to the token's history: each of its `played` injections
      directly follows a poll that saw no request, none follows a poll that
      saw one, and the injection times are on the pass's schedule. */
  method PlayPass(events: seq<MacroEvent>, sim: Simulator, clock: Clock, token: CancellationSource, p: Platform)
    returns (played: nat, aborted: bool, ghost marks: seq<Mark>)
    modifies sim, clock, token
    ensures played <= |events|
    ensures sim.State() == PlayAll(ResetSimState, events[..played], p).state
    ensures sim.sent == old(sim.sent) + PlayAll(ResetSimState, events[..played], p).emitted
    ensures played < |events| ==> token.requested
    ensures aborted ==> token.requested
    ensures old(token.requested) ==> token.requested && played == 0
    ensures token.history == old(token.history) + marks
    ensures SafeHistory(marks)
    ensures OnSchedule(events, InjectionTimes(marks), played)
    ensures Poll(true) in marks ==> token.requested
  {
    sim.ResetState();
    clock.Restart();
    var scheduledTime := 0;
    played, aborted, marks := 0, false, [];
    while played < |events|
      invariant played <= |events|
      invariant sim.State() == PlayAll(ResetSimState, events[..played], p).state
      invariant sim.sent == old(sim.sent) + PlayAll(ResetSimState, events[..played], p).emitted
      invariant scheduledTime == Sum(Delays(events[..played]))
      invariant old(token.requested) ==> token.requested && played == 0
      invariant !aborted
      invariant token.history == old(token.history) + marks
      invariant SafeHistory(marks)
      invariant OnSchedule(events, InjectionTimes(marks), played)
      invariant played > 0 ==> InjectionTimes(marks)[played - 1] <= clock.elapsed
      invariant Poll(true) in marks ==> token.requested
    {
      TargetStep(events, played);
      var go;
      ghost var step;
      go, aborted, step := PassStep(events, played, scheduledTime, old(sim.sent), sim, clock, token, p);
      Associative(old(token.history), marks, step);
      if !go {
        StoppedJoins(events, played, marks, step);
        marks := marks + step;
        break;
      }
      InjectedJoins(events, played, marks, step, clock.elapsed);
      marks := marks + step;
      scheduledTime := scheduledTime + events[played].delay;
      played := played + 1;
    }
  }

  /** The history of a pass's event `played`, which injected it at reading
      `t`, joins the history of the events before it, keeping the pass safe
      and on schedule. */
  lemma InjectedJoins(events: seq<MacroEvent>, played: nat, marks: seq<Mark>, step: seq<Mark>, t: int)
    requires played < |events|
    requires SafeHistory(marks) && OnSchedule(events, InjectionTimes(marks), played)
    requires played > 0 ==> InjectionTimes(marks)[played - 1] <= t
    requires SafeHistory(step) && InjectionTimes(step) == [t]
    requires t >= TargetTime(events, played) && Poll(true) !in marks
    ensures SafeHistory(marks + step)
    ensures OnSchedule(events, InjectionTimes(marks + step), played + 1)
    ensures InjectionTimes(marks + step)[played] == t
  {
    MarksConcat(marks, step);
    OnScheduleSnoc(events, InjectionTimes(marks), played, t);
  }

  /** The history of a pass's event `played`, which was not injected, joins
      the history of the events before it. */
  lemma StoppedJoins(events: seq<MacroEvent>, played: nat, marks: seq<Mark>, step: seq<Mark>)
    requires played <= |events|
    requires SafeHistory(marks) && OnSchedule(events, InjectionTimes(marks), played)
    requires SafeHistory(step) && NoInjection(step)
    ensures SafeHistory(marks + step)
    ensures OnSchedule(events, InjectionTimes(marks + step), played)
  {
    NoInjectionTimes(step);
    MarksConcat(marks, step);
    assert InjectionTimes(marks) + [] == InjectionTimes(marks);
  }

  /** Event `played` of a pass: the checks and the wait of `AwaitEvent`,
      then the event itself when it is due and no stop was seen.  `marks`
      is what the step appended to the token's history; when `go` it ends
      with a poll that saw no request and the injection, at the due time or
      later. */
  method PassStep(events: seq<MacroEvent>, played: nat, scheduledTime: int, ghost start: seq<NativeInput>,
                  sim: Simulator, clock: Clock, token: CancellationSource, p: Platform)
    returns (go: bool, aborted: bool, ghost marks: seq<Mark>)
    requires played < |events|
    requires scheduledTime == Sum(Delays(events[..played]))
    requires sim.State() == PlayAll(ResetSimState, events[..played], p).state
    requires sim.sent == start + PlayAll(ResetSimState, events[..played], p).emitted
    modifies sim, clock, token
    ensures old(clock.elapsed) <= clock.elapsed
    ensures old(token.requested) ==> !go
    ensures !go ==> token.requested && sim.State() == old(sim.State()) && sim.sent == old(sim.sent)
    ensures go ==> !aborted && !token.requested && clock.elapsed >= TargetTime(events, played)
    ensures go ==> sim.State() == PlayAll(ResetSimState, events[..played + 1], p).state
    ensures go ==> sim.sent == start + PlayAll(ResetSimState, events[..played + 1], p).emitted
    ensures token.history == old(token.history) + marks
    ensures SafeHistory(marks)
    ensures InjectionTimes(marks) == if go then [clock.elapsed] else []
    ensures !go ==> NoInjection(marks)
    ensures go ==> |marks| >= 2 && marks[|marks| - 2..] == [Poll(false), Injected(clock.elapsed)]
    ensures Poll(true) in marks ==> token.requested
  {
    TargetStep(events, played);
    go, aborted, marks := AwaitEvent(clock, scheduledTime, events[played].delay, token);
    NoInjectionTimes(marks);
    PollsSafe(marks);
    if go {
      PlayNext(sim, events, played, start, clock, token, p);
      ghost var w := marks;
      marks := marks + [Injected(clock.elapsed)];
      assert marks[..|marks| - 1] == w;
    }
  }

  /** One more pass of a run whose earlier passes are `passes`, extending
      the run's trace by that pass; `marks` is the pass's part of the
      token's history, as `PlayPass` describes it. */
  method NextPass(events: seq<MacroEvent>, passes: seq<nat>, ghost start: seq<NativeInput>,
                  sim: Simulator, clock: Clock, token: CancellationSource, p: Platform)
    returns (played: nat, aborted: bool, ghost marks: seq<Mark>)
    requires sim.sent == start + RunTrace(events, passes, p)
    modifies sim, clock, token
    ensures sim.sent == start + RunTrace(events, passes + [played], p)
    ensures played <= |events|
    ensures played < |events| ==> token.requested
    ensures aborted ==> token.requested
    ensures old(token.requested) ==> token.requested && played == 0
    ensures token.history == old(token.history) + marks
    ensures SafeHistory(marks)
    ensures OnSchedule(events, InjectionTimes(marks), played)
    ensures Poll(true) in marks ==> token.requested
  {
    played, aborted, marks := PlayPass(events, sim, clock, token, p);
    RunTraceSnoc(events, passes, played, p);
    Associative(start, RunTrace(events, passes, p), PlayAll(ResetSimState, events[..played], p).emitted);
  }

  /** The passes of a run (the `do ... while (loop && !token.IsCancellationRequested)`
      loop): at least one pass, more only when looping, each but the last
      complete.  `stillLooping` is a looping run that made `extraPasses`
      passes after the first without observing cancellation.  `marks` is
      what the passes and the loop's own polls appended to the token's
      history: every injection directly follows a poll that saw no
      request, none follows a poll that saw one, and each pass's injections
      are on that pass's schedule. */
  method PlayPasses(events: seq<MacroEvent>, loop: bool, sim: Simulator, clock: Clock,
                    token: CancellationSource, p: Platform, extraPasses: nat)
    returns (passes: seq<nat>, stillLooping: bool, ghost marks: seq<Mark>)
    modifies sim, clock, token
    ensures 1 <= |passes| <= extraPasses + 1
    ensures forall i :: 0 <= i < |passes| ==> passes[i] <= |events|
    ensures forall i :: 0 <= i < |passes| - 1 ==> passes[i] == |events|
    ensures |passes| > 1 ==> loop
    ensures sim.sent == old(sim.sent) + RunTrace(events, passes, p)
    ensures old(token.requested) ==> token.requested
    ensures !stillLooping ==> !loop || token.requested
    ensures !stillLooping && passes[|passes| - 1] < |events| ==> token.requested
    ensures stillLooping ==>
      loop && |passes| == extraPasses + 1 && !token.requested && passes[|passes| - 1] == |events|
    ensures token.history == old(token.history) + marks
    ensures SafeHistory(marks)
    ensures RunOnSchedule(events, passes, InjectionTimes(marks))
  {
    passes, marks := [], [];
    var budget: nat := extraPasses;
    while true
      invariant budget + |passes| == extraPasses
      invariant forall i :: 0 <= i < |passes| ==> passes[i] == |events|
      invariant passes != [] ==> loop
      invariant sim.sent == old(sim.sent) + RunTrace(events, passes, p)
      invariant old(token.requested) ==> token.requested
      invariant token.history == old(token.history) + marks
      invariant SafeHistory(marks)
      invariant RunOnSchedule(events, passes, InjectionTimes(marks))
      invariant Poll(true) in marks ==> token.requested
      decreases budget
    {
      var played, again;
      ghost var step;
      played, again, step := LoopPass(events, loop, passes, marks, old(sim.sent), sim, clock, token, p);
      Associative(old(token.history), marks, step);
      CompletePassesSnoc(passes, played, |events|);
      passes, marks := passes + [played], marks + step;
      if !again || budget == 0 {
        stillLooping := again;
        break;
      }
      budget := budget - 1;
    }
  }

  /** One round of the run's loop: a pass, then, when looping and the pass
      was not cut short by a cancelled sleep, the loop's own check for
      cancellation.  `again` is going round once more.  `step` is what the
      round appended to the token's history, which extends `marks`, the
      history of the earlier passes, keeping both guarantees and each
      pass's schedule. */
  method LoopPass(events: seq<MacroEvent>, loop: bool, passes: seq<nat>, ghost marks: seq<Mark>,
                  ghost start: seq<NativeInput>, sim: Simulator, clock: Clock, token: CancellationSource, p: Platform)
    returns (played: nat, again: bool, ghost step: seq<Mark>)
    requires sim.sent == start + RunTrace(events, passes, p)
    requires SafeHistory(marks)
    requires RunOnSchedule(events, passes, InjectionTimes(marks))
    requires Poll(true) in marks ==> token.requested
    modifies sim, clock, token
    ensures sim.sent == start + RunTrace(events, passes + [played], p)
    ensures played <= |events|
    ensures old(token.requested) ==> token.requested
    ensures again ==> loop && !token.requested && played == |events|
    ensures !again ==> !loop || token.requested
    ensures !again && played < |events| ==> token.requested
    ensures token.history == old(token.history) + step
    ensures SafeHistory(marks + step)
    ensures RunOnSchedule(events, passes + [played], InjectionTimes(marks + step))
    ensures Poll(true) in marks + step ==> token.requested
  {
    var aborted;
    played, aborted, step := NextPass(events, passes, start, sim, clock, token, p);
    PassJoins(events, passes, marks, played, step);
    again := false;
    if !aborted && loop {
      var cancelled := token.IsCancellationRequested();
      PollJoins(events, passes + [played], marks + step, cancelled);
      Associative(marks, step, [Poll(cancelled)]);
      Associative(old(token.history), step, [Poll(cancelled)]);
      step := step + [Poll(cancelled)];
      again := !cancelled;
    }
  }

  /** One more pass of at most `n` events after complete passes of `n`. */
  lemma CompletePassesSnoc(passes: seq<nat>, played: nat, n: nat)
    requires forall i :: 0 <= i < |passes| ==> passes[i] == n
    requires played <= n
    ensures forall i :: 0 <= i < |passes| + 1 ==> (passes + [played])[i] <= n
    ensures forall i :: 0 <= i < |passes| ==> (passes + [played])[i] == n
    ensures (passes + [played])[|passes|] == played
  {
  }

  /** A pass's history joins the history of the passes before it. */
  lemma PassJoins(events: seq<MacroEvent>, passes: seq<nat>, marks: seq<Mark>, played: nat, pass: seq<Mark>)
    requires SafeHistory(marks)
    requires RunOnSchedule(events, passes, InjectionTimes(marks))
    requires played <= |events|
    requires SafeHistory(pass)
    requires OnSchedule(events, InjectionTimes(pass), played)
    requires Poll(true) in marks ==> played == 0
    ensures SafeHistory(marks + pass)
    ensures RunOnSchedule(events, passes + [played], InjectionTimes(marks + pass))
  {
    NoInjectionTimes(pass);
    MarksConcat(marks, pass);
    RunOnScheduleSnoc(events, passes, InjectionTimes(marks), played, InjectionTimes(pass));
  }

  /** The loop's own poll joins the history. */
  lemma PollJoins(events: seq<MacroEvent>, passes: seq<nat>, marks: seq<Mark>, seen: bool)
    requires SafeHistory(marks)
    requires RunOnSchedule(events, passes, InjectionTimes(marks))
    ensures SafeHistory(marks + [Poll(seen)])
    ensures RunOnSchedule(events, passes, InjectionTimes(marks + [Poll(seen)]))
  {
    PollSnoc([], seen);
    PollsSafe([] + [Poll(seen)]);
    NoInjectionTimes([Poll(seen)]);
    MarksConcat(marks, [Poll(seen)]);
    assert InjectionTimes(marks) + [] == InjectionTimes(marks);
  }

  /** How the background run ended: the task never started because the
      token was already cancelled when it was scheduled; it finished (the
      `finally` block ran); or it is still looping after the passes this
      model follows. */
  datatype RunOutcome = NeverStarted | Finished | StillLooping

  class PlaybackService {
    /** The current run's cancellation source; present exactly while playing. */
    var cts: CancellationSource?
    /** How many times `PlaybackFinished` was raised. */
    var finishedCount: nat
    /** The macro and the loop flag the current run was started with. */
    var runMacro: Macro
    var runLoop: bool

    predicate IsPlaying()
      reads this
    {
      cts != null
    }

    constructor ()
      ensures !IsPlaying() && finishedCount == 0
    {
      cts := null;
      finishedCount := 0;
      runMacro := Macro("", []);
      runLoop := false;
    }

    /** Starts a run of `macro`: refused while a run is active and for a
        macro without events; otherwise a new cancellation source makes
        the service playing.  The run itself is `Run`. */
    method Start(macro: Macro, loop: bool) returns (started: bool)
      modifies this
      ensures started <==> !old(IsPlaying()) && |macro.events| > 0
      ensures !started ==> cts == old(cts) && runMacro == old(runMacro) && runLoop == old(runLoop)
      ensures started ==> IsPlaying() && fresh(cts) && !cts.requested && runMacro == macro && runLoop == loop
      ensures finishedCount == old(finishedCount)
    {
      if IsPlaying() {
        return false;
      }
      if |macro.events| == 0 {
        return false;
      }
      cts := new CancellationSource();
      runMacro, runLoop := macro, loop;
      return true;
    }

    /** Requests cancellation of the current run, if any. */
    method Stop()
      modifies cts
      ensures cts != null ==> cts.requested
    {
      if cts == null {
        return;
      }
      cts.Cancel();
    }

    /** Ends a run: forgets the cancellation source and raises
        `PlaybackFinished`. */
    method StopInternal()
      modifies this
      ensures cts == null
      ensures finishedCount == old(finishedCount) + 1
      ensures runMacro == old(runMacro) && runLoop == old(runLoop)
    {
      cts := null;
      finishedCount := finishedCount + 1;
    }

    /** The background run started by `Start`, on the macro and loop flag
        it was started with: the warm-up, then passes while `loop` holds and
        no cancellation is observed, then the simulator reset and
        `StopInternal`.  An uncancelled looping run never ends; the model
        follows it for `extraPasses` passes after the first.  `passes[i]` is
        the number of events played by pass `i`, and `marks` what the run
        appended to its token's history, as `PlayPasses` describes it. */
    method Run(sim: Simulator, clock: Clock, p: Platform, extraPasses: nat)
      returns (passes: seq<nat>, outcome: RunOutcome, ghost marks: seq<Mark>)
      requires IsPlaying()
      modifies this, cts, sim, clock
      ensures runMacro == old(runMacro) && runLoop == old(runLoop)
      ensures forall i :: 0 <= i < |passes| ==> passes[i] <= |runMacro.events|
      ensures forall i :: 0 <= i < |passes| - 1 ==> passes[i] == |runMacro.events|
      ensures |passes| <= extraPasses + 1
      ensures |passes| > 1 ==> runLoop
      ensures sim.sent == old(sim.sent) + RunTrace(runMacro.events, passes, p)
      ensures outcome == NeverStarted <==> old(cts.requested)
      ensures outcome == NeverStarted ==> passes == [] && unchanged(sim)
      ensures outcome == Finished ==>
        !IsPlaying() && finishedCount == old(finishedCount) + 1 && sim.State() == ResetSimState
      ensures outcome == Finished ==> !runLoop || old(cts).requested
      ensures outcome == Finished && (passes == [] || passes[|passes| - 1] < |runMacro.events|) ==>
        old(cts).requested
      ensures outcome != Finished ==> cts == old(cts) && finishedCount == old(finishedCount)
      ensures outcome == StillLooping ==>
        runLoop && |passes| == extraPasses + 1 && !cts.requested &&
        passes[|passes| - 1] == |runMacro.events|
      ensures old(cts).history == old(cts.history) + marks
      ensures GuardedInjections(marks) && NoInjectionAfterStopSeen(marks)
      ensures RunOnSchedule(runMacro.events, passes, InjectionTimes(marks))
    {
      var token, macro, loop := cts, runMacro, runLoop;
      passes, marks := [], [];
      if token.requested {
        return passes, NeverStarted, marks;
      }
      var warmUpCanceled := clock.Delay(WarmUpMs, token);
      if !warmUpCanceled {
        var stillLooping;
        passes, stillLooping, marks := PlayPasses(macro.events, loop, sim, clock, token, p, extraPasses);
        SafeHistoryMeans(marks);
        if stillLooping {
          return passes, StillLooping, marks;
        }
      }
      sim.ResetState();
      StopInternal();
      outcome := Finished;
    }
  }
}
