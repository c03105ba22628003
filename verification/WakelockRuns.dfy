/** What holds of the shared wake lock over every run of the event pipeline: the lock and its count, the reset
    epochs, the timeout. */
module WakelockRuns {
  import opened Common
  import opened SharedWakelock
  import opened SensorPipeline
  import opened SensorRuns

  // ---------------------------------------------------------------- the lock and the count

  /** The one step that leaves the lock held at count zero: a post with a locked wakelock and no wake-up
      event, counted when there is no reference. */
  predicate Leaks(s: State, step: Step) {
    step.Count? && s.poster.Entered? && s.wl.running && s.wl.count == 0
    && s.poster.post.wakelock.Some? && s.poster.post.wakeups == 0
  }

  predicate NeverLeaks(c: Config, s: State, steps: seq<Step>)
    requires ThreadsAgree(s) && Legal(c, s, steps)
    decreases steps
  {
    steps == [] ||
    (!Leaks(s, steps[0]) && (StepKeepsThreads(c, s, steps[0]); NeverLeaks(c, Apply(c, s, steps[0]), steps[1..])))
  }

  lemma LeaksExactly(c: Config, s: State, step: Step)
    requires Inv(c, s) && Enabled(c, s, step) && HeldExactly(s.wl)
    ensures HeldExactly(Apply(c, s, step).wl) <==> !Leaks(s, step)
  {
  }

  lemma {:induction false} HeldExactlyOverRun(c: Config, s: State, steps: seq<Step>)
    requires Inv(c, s) && Legal(c, s, steps) && HeldExactly(s.wl) && NeverLeaks(c, s, steps)
    ensures HeldExactly(Run(c, s, steps).wl)
    decreases steps
  {
    if steps != [] {
      LeaksExactly(c, s, steps[0]);
      StepKeepsInv(c, s, steps[0]);
      HeldExactlyOverRun(c, Apply(c, s, steps[0]), steps[1..]);
    }
  }

  /** Over every run, stops and initializations included, a positive count means the lock is held; and
      without a leaking step the lock is held exactly while the count is positive. */
  lemma LockOverRuns(c: Config, now: nat, steps: seq<Step>)
    requires Legal(c, Constructed(now), steps)
    ensures var t := Run(c, Constructed(now), steps);
            && HeldWhenCounted(t.wl)
            && (NeverLeaks(c, Constructed(now), steps) ==> HeldExactly(t.wl))
  {
    InvOverRun(c, Constructed(now), steps);
    if NeverLeaks(c, Constructed(now), steps) {
      HeldExactlyOverRun(c, Constructed(now), steps);
    }
  }

  lemma ScopedLocked(c: Config) returns (t: State)
    ensures ThreadsAgree(t) && Reachable(c, t) && t.writer == AtTest && t.timer == Looking && t.poster == Nobody
    ensures t.wl == Wakelock(true, 1, true, 2, 1) && t.live == map[0 := 2] && t.clock == 2 && t.stopping == Going
  {
    t := Initialized(c, 1);
    t := NextReachable(c, t, ScopedLock(0, 2));
  }

  /** A scoped wakelock has timed out, and the wakelock thread is about to reset the lock. */
  lemma TimedOut(c: Config) returns (t: State)
    ensures ThreadsAgree(t) && Reachable(c, t) && t.writer == AtTest && t.timer == Expired && t.poster == Nobody
    ensures t.wl == Wakelock(true, 1, true, 2, 1) && 0 in t.live && t.clock == 3 + c.timeout && t.stopping == Going
  {
    t := ScopedLocked(c);
    t := NextReachable(c, t, Check(3 + c.timeout));
  }

  lemma ResetInTime(c: Config) returns (t: State)
    ensures ThreadsAgree(t) && Reachable(c, t) && t.writer == AtTest && t.timer == Looking && t.poster == Nobody
    ensures t.wl.running && t.wl.count == 0 && 0 in t.live && t.clock == 4 + c.timeout
  {
    t := TimedOut(c);
    t := NextReachable(c, t, Expire(4 + c.timeout));
  }

  /** The leak happens: a scoped wakelock times out, then a post made with it announces no wake-up event. */
  lemma LeakHappens(c: Config) returns (t: State)
    ensures Reachable(c, t) && t.wl.running && t.wl.held && t.wl.count == 0
  {
    t := ResetInTime(c);
    t := NextReachable(c, t, Enter(Post([], 0, Some(0))));
    t := NextReachable(c, t, Count(5 + c.timeout));
  }

  // ---------------------------------------------------------------- epochs

  predicate NeverUnlocks(steps: seq<Step>, id: nat) {
    ScopedUnlock(id) !in steps
  }

  /** The steps that reset the wake lock, and the time they read. */
  predicate Resets(step: Step) {
    step.Expire? || step.TimerExits? || step.Initialize?
  }

  predicate ResetsAfter(steps: seq<Step>, time: int) {
    exists k :: 0 <= k < |steps| && Resets(steps[k]) && steps[k].now > time
  }

  lemma StepKeepsLock(c: Config, s: State, step: Step, id: nat)
    requires Inv(c, s) && Enabled(c, s, step) && id in s.live && step != ScopedUnlock(id)
    ensures var t := Apply(c, s, step);
            && id in t.live && t.live[id] == s.live[id]
            && (s.live[id] < t.wl.reset <==> s.live[id] < s.wl.reset || (Resets(step) && step.now > s.live[id]))
  {
  }

  lemma {:induction false} StaleExactly(c: Config, s: State, steps: seq<Step>, id: nat)
    requires Inv(c, s) && Legal(c, s, steps) && id in s.live && NeverUnlocks(steps, id)
    ensures var t := Run(c, s, steps);
            && id in t.live && t.live[id] == s.live[id]
            && (s.live[id] < t.wl.reset <==> s.live[id] < s.wl.reset || ResetsAfter(steps, s.live[id]))
    decreases steps
  {
    if steps != [] {
      var time := s.live[id];
      StepKeepsInv(c, s, steps[0]);
      assert steps[0] in steps;
      StepKeepsLock(c, s, steps[0], id);
      StaleExactly(c, Apply(c, s, steps[0]), steps[1..], id);
      ResetsAfterFirst(steps, time);
    }
  }

  lemma ResetsAfterFirst(steps: seq<Step>, time: int)
    requires steps != []
    ensures ResetsAfter(steps, time) <==> (Resets(steps[0]) && steps[0].now > time) || ResetsAfter(steps[1..], time)
  {
    if ResetsAfter(steps[1..], time) {
      var k :| 0 <= k < |steps| - 1 && Resets(steps[1..][k]) && steps[1..][k].now > time;
      assert steps[k + 1] == steps[1..][k];
    }
    if ResetsAfter(steps, time) {
      var k :| 0 <= k < |steps| && Resets(steps[k]) && steps[k].now > time;
      assert k > 0 ==> steps[1..][k - 1] == steps[k];
    }
  }

  /** Epoch isolation, with a clock that may repeat a reading: however much later a scoped wakelock is released and
      whatever happened in between, the release takes nothing from the count exactly if the threads do not run, or
      some reset since the creation read a later time than the creation, or there is no reference. */
  lemma EpochIsolation(c: Config, s: State, id: nat, created: int, steps: seq<Step>)
    requires Inv(c, s) && s.wl.running && Enabled(c, s, ScopedLock(id, created)) && NeverUnlocks(steps, id)
    requires ThreadsAgree(Apply(c, s, ScopedLock(id, created))) && Legal(c, Apply(c, s, ScopedLock(id, created)), steps)
    ensures var t := Run(c, Apply(c, s, ScopedLock(id, created)), steps);
            && id in t.live
            && (Enabled(c, t, ScopedUnlock(id)) ==>
                 (Apply(c, t, ScopedUnlock(id)).wl == t.wl <==>
                  !t.wl.running || ResetsAfter(steps, created) || t.wl.count == 0))
  {
    var u := Apply(c, s, ScopedLock(id, created));
    StepKeepsInv(c, s, ScopedLock(id, created));
    assert u.live[id] == created && u.wl.reset <= created;
    StaleExactly(c, u, steps, id);
    var t := Run(c, u, steps);
    InvOverRun(c, u, steps);
    if Enabled(c, t, ScopedUnlock(id)) {
      ReleaseTakes(c, t, id);
    }
  }

  lemma ReleaseTakes(c: Config, t: State, id: nat)
    requires Inv(c, t) && Enabled(c, t, ScopedUnlock(id))
    ensures Apply(c, t, ScopedUnlock(id)).wl == t.wl <==> !t.wl.running || t.live[id] < t.wl.reset || t.wl.count == 0
  {
  }

  // ---------------------------------------------------------------- the timeout

  /** The time of the last increment of the reference count, read off a run. */
  function LastIncrement(c: Config, s: State, steps: seq<Step>, start: int): int
    requires ThreadsAgree(s) && Legal(c, s, steps)
    decreases steps
  {
    if steps == [] then start
    else
      StepKeepsThreads(c, s, steps[0]);
      LastIncrement(c, Apply(c, s, steps[0]), steps[1..], IncrementTime(s, steps[0], start))
  }

  function IncrementTime(s: State, step: Step, otherwise: int): int {
    match step
    case Count(now) =>
      if s.wl.running && s.poster.Entered? && s.poster.post.wakelock.Some? then now else otherwise
    case ScopedLock(_, now) => if s.wl.running then now else otherwise
    case _ => otherwise
  }

  lemma StepSetsStart(c: Config, s: State, step: Step)
    requires Inv(c, s) && Enabled(c, s, step)
    ensures Apply(c, s, step).wl.start == IncrementTime(s, step, s.wl.start)
  {
  }

  lemma {:induction false} StartIsLastIncrement(c: Config, s: State, steps: seq<Step>)
    requires Inv(c, s) && Legal(c, s, steps)
    ensures Run(c, s, steps).wl.start == LastIncrement(c, s, steps, s.wl.start)
    decreases steps
  {
    if steps != [] {
      StepKeepsInv(c, s, steps[0]);
      StepSetsStart(c, s, steps[0]);
      StartIsLastIncrement(c, Apply(c, s, steps[0]), steps[1..]);
    }
  }

  /** A look of the wakelock thread more than the timeout after the last increment finds the lock timed out; an
      earlier look changes nothing and waits for at most the timeout. */
  lemma TimeoutOverRuns(c: Config, now: nat, steps: seq<Step>, looked: int)
    requires Legal(c, Constructed(now), steps)
    requires Enabled(c, Run(c, Constructed(now), steps), Check(looked))
    ensures var s := Run(c, Constructed(now), steps);
            var t := Apply(c, s, Check(looked));
            var since := looked - LastIncrement(c, Constructed(now), steps, now);
            && t.wl == s.wl
            && t.timer == (if since > c.timeout then Expired else Reading(c.timeout - since))
            && (since <= c.timeout ==> 0 <= c.timeout - since <= c.timeout)
  {
    TimeoutSince(c, Constructed(now), steps, looked);
  }

  lemma TimeoutSince(c: Config, u: State, steps: seq<Step>, looked: int)
    requires Inv(c, u) && Legal(c, u, steps) && Enabled(c, Run(c, u, steps), Check(looked))
    ensures var s := Run(c, u, steps);
            var t := Apply(c, s, Check(looked));
            var since := looked - LastIncrement(c, u, steps, u.wl.start);
            && t.wl == s.wl
            && t.timer == (if since > c.timeout then Expired else Reading(c.timeout - since))
            && (since <= c.timeout ==> 0 <= c.timeout - since <= c.timeout)
  {
    StartIsLastIncrement(c, u, steps);
    InvOverRun(c, u, steps);
    LookAt(c, Run(c, u, steps), looked, LastIncrement(c, u, steps, u.wl.start));
  }

  lemma LookAt(c: Config, s: State, looked: int, start: int)
    requires Inv(c, s) && Enabled(c, s, Check(looked)) && s.wl.start == start
    ensures var t := Apply(c, s, Check(looked));
            var since := looked - start;
            && t.wl == s.wl
            && t.timer == (if since > c.timeout then Expired else Reading(c.timeout - since))
            && (since <= c.timeout ==> 0 <= c.timeout - since <= c.timeout)
  {
  }

  /** From a look that found the lock timed out to the reset that follows it nothing but a stop touches the count, and
      the reset clears the count and releases the lock exactly if no stop came in between. */
  lemma ExpiryExactly(c: Config, s: State, looked: int, steps: seq<Step>, now: int)
    requires Inv(c, s) && Enabled(c, s, Check(looked)) && DidTimeout(s.wl, looked, c.timeout)
    requires ThreadsAgree(Apply(c, s, Check(looked))) && Legal(c, Apply(c, s, Check(looked)), steps)
    requires forall k :: 0 <= k < |steps| ==> !steps[k].Expire?
    requires Enabled(c, Run(c, Apply(c, s, Check(looked)), steps), Expire(now))
    ensures var t := Apply(c, Run(c, Apply(c, s, Check(looked)), steps), Expire(now));
            if Stop in steps then t.wl.count == s.wl.count && t.wl.held == s.wl.held
            else t.wl.count == 0 && !t.wl.held
  {
    var u := Apply(c, s, Check(looked));
    StepKeepsInv(c, s, Check(looked));
    StaysExpired(c, u, steps);
  }

  /** A stop comes in between: the lock has timed out and been reset, and it is still held and counted. */
  lemma StopKeepsTimedOut(c: Config) returns (t: State)
    ensures Reachable(c, t) && t.timer == Looking && t.wl.count == 1 && t.wl.held && t.wl.reset == 4 + c.timeout
  {
    t := TimedOut(c);
    t := NextReachable(c, t, Stop);
    t := NextReachable(c, t, Expire(4 + c.timeout));
  }

  lemma {:induction false} StaysExpired(c: Config, s: State, steps: seq<Step>)
    requires Inv(c, s) && s.timer == Expired && Legal(c, s, steps)
    requires forall k :: 0 <= k < |steps| ==> !steps[k].Expire?
    ensures var t := Run(c, s, steps);
            && Inv(c, t) && t.timer == Expired && t.wl.count == s.wl.count && t.wl.held == s.wl.held
            && (t.wl.running <==> s.wl.running && Stop !in steps)
    decreases steps
  {
    if steps != [] {
      assert !steps[0].Expire?;
      StepKeepsInv(c, s, steps[0]);
      StepStaysExpired(c, s, steps[0]);
      StaysExpired(c, Apply(c, s, steps[0]), steps[1..]);
      assert steps == [steps[0]] + steps[1..];
    }
  }

  lemma StepStaysExpired(c: Config, s: State, step: Step)
    requires Inv(c, s) && s.timer == Expired && Enabled(c, s, step) && !step.Expire?
    ensures var t := Apply(c, s, step);
            && t.timer == Expired && t.wl.count == s.wl.count && t.wl.held == s.wl.held
            && (t.wl.running <==> s.wl.running && step != Stop)
  {
  }
}
