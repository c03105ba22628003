/** The hand-over of the wake lock: what is owed to the framework, and when the reference count covers it. */
module WakelockCoverage {
  import opened Common
  import opened SensorTypes
  import opened SharedWakelock
  import opened EventBacklog
  import opened SensorPipeline
  import opened SensorRuns

  // ---------------------------------------------------------------- what is owed, read off a run

  /** Read off a run alone. owed: the wake-ups announced since the last reset, less those acknowledged and those
      lost of them. recent: for each batch of the backlog, whether it was announced since the last reset.
      inHand: the same for the post in hand. */
  datatype Tally = Tally(owed: nat, recent: seq<bool>, inHand: bool)

  const NOTHING := Tally(0, [], false)

  predicate Matches(s: State, y: Tally) {
    |y.recent| == |s.backlog|
  }

  function Tallied(c: Config, s: State, y: Tally, step: Step): (r: Tally)
    requires ThreadsAgree(s) && Enabled(c, s, step) && Matches(s, y)
    ensures Matches(Apply(c, s, step), r)
  {
    match step
    case Count(_) =>
      var post := s.poster.post;
      if post.wakelock.Some? && s.wl.running then y.(owed := y.owed + post.wakeups, inHand := true)
      else y.(inHand := false)
    case Decide(_) => Queued(c, s, y, step)
    case WriteReturns(_) => Queued(c, s, y, step)
    case BlockingReturns(ok) =>
      if ok || !y.recent[0] then y else y.(owed := y.owed - Min(y.owed, WakeupsLost(c, s)))
    case Finish => if |s.backlog[0].events| > s.quantum then y else y.(recent := y.recent[1..])
    case Expire(_) => Outdated(y)
    case Ack(k) => y.(owed := y.owed - Min(y.owed, k))
    case TimerExits(_) => Outdated(y)
    case Initialize(_, _) => NOTHING
    case _ => y
  }

  function Queued(c: Config, s: State, y: Tally, step: Step): Tally
    requires ThreadsAgree(s) && Enabled(c, s, step) && Matches(s, y)
  {
    if |Apply(c, s, step).backlog| > |s.backlog| then y.(recent := y.recent + [y.inHand]) else y
  }

  /** After a reset nothing counts as announced. */
  function Outdated(y: Tally): Tally {
    Tally(0, seq(|y.recent|, _ => false), false)
  }

  function TallyOver(c: Config, s: State, y: Tally, steps: seq<Step>): (r: Tally)
    requires ThreadsAgree(s) && Legal(c, s, steps) && Matches(s, y)
    ensures Matches(Run(c, s, steps), r)
    decreases steps
  {
    if steps == [] then y
    else
      StepKeepsThreads(c, s, steps[0]);
      TallyOver(c, Apply(c, s, steps[0]), Tallied(c, s, y, steps[0]), steps[1..])
  }

  // ---------------------------------------------------------------- coverage

  /** The live scoped wakelocks created since the last reset. */
  function Current(s: State): set<nat> {
    set id | id in s.live && s.live[id] >= s.wl.reset
  }

  /** Enough references for every wake-up owed and every current scoped wakelock. */
  predicate Covered(s: State, y: Tally) {
    s.wl.count >= y.owed + |Current(s)|
  }

  predicate CoveredExactly(s: State, y: Tally) {
    s.wl.count == y.owed + |Current(s)|
  }

  /** Every batch announces at least the wake-up events it still holds. */
  predicate Announced(c: Config, s: State) {
    && (forall b :: b in s.backlog ==> b.wakeups >= CountWakeups(c.sensors, b.events))
    && (!s.poster.Nobody? ==> s.poster.post.wakeups == CountWakeups(c.sensors, s.poster.post.events))
  }

  /** Posts announce their own wake-up events, as the sub-HAL callback makes them. */
  predicate Honest(c: Config, step: Step) {
    step.Enter? ==> step.post.wakeups == CountWakeups(c.sensors, step.post.events)
  }

  lemma CountOfPart(sensors: Sensors, events: seq<Event>, k: nat)
    requires k <= |events|
    ensures CountWakeups(sensors, events) == CountWakeups(sensors, events[..k]) + CountWakeups(sensors, events[k..])
  {
    CountWakeupsAdditive(sensors, events[..k], events[k..]);
    assert events[..k] + events[k..] == events;
  }

  lemma StepKeepsAnnounced(c: Config, s: State, step: Step)
    requires Inv(c, s) && Enabled(c, s, step) && Announced(c, s) && Honest(c, step)
    ensures Announced(c, Apply(c, s, step))
  {
    match step
    case Decide(available) => SpillKeepsAnnounced(c, s, 0);
    case WriteReturns(ok) => SpillKeepsAnnounced(c, s, if ok then s.poster.n else 0);
    case Finish => PopFrontKeepsAnnounced(c, s.backlog, s.quantum);
    case _ =>
  }

  lemma SpillKeepsAnnounced(c: Config, s: State, k: nat)
    requires !s.poster.Nobody? && k <= |s.poster.post.events| && Announced(c, s)
    ensures Announced(c, Spill(c, s, s.poster.post, k))
  {
    CountOfPart(c.sensors, s.poster.post.events, k);
  }

  lemma PopFrontKeepsAnnounced(c: Config, backlog: seq<Batch>, quantum: nat)
    requires backlog != [] && forall b :: b in backlog ==> b.wakeups >= CountWakeups(c.sensors, b.events)
    ensures forall b :: b in PopFront(backlog, quantum) ==> b.wakeups >= CountWakeups(c.sensors, b.events)
  {
    var front, rest := backlog[0], PopFront(backlog, quantum);
    assert front in backlog;
    if |front.events| > quantum {
      CountOfPart(c.sensors, front.events, quantum);
      forall b | b in rest ensures b == rest[0] || b in backlog { }
    }
  }

  /** The front batch is dropped as a proper chunk, or still holds all that it announced. */
  predicate HoldsWhatItGivesBack(c: Config, s: State)
    requires s.backlog != []
  {
    |s.backlog[0].events| > s.quantum || s.backlog[0].wakeups == CountWakeups(c.sensors, s.backlog[0].events)
  }

  /** A failed blocking write never gives back too little, and gives back the right amount exactly when it drops a
      proper chunk or the batch still holds all that it announced. */
  lemma GivenBackExactly(c: Config, s: State)
    requires Inv(c, s) && s.writer.Blocking? && Announced(c, s)
    ensures GivenBack(c, s) >= WakeupsLost(c, s)
    ensures GivenBack(c, s) == WakeupsLost(c, s) <==> HoldsWhatItGivesBack(c, s)
  {
    var front := s.backlog[0];
    assert front in s.backlog;
    if |front.events| > s.quantum {
      CountOfPart(c.sensors, front.events, s.quantum);
    } else {
      assert front.events[..|front.events|] == front.events;
    }
  }

  predicate CreatedBefore(s: State, now: int) {
    forall id :: id in s.live ==> s.live[id] < now
  }

  /** What an acknowledgement and a failed write may take back. An acknowledgement: no more than is owed, or no
      scoped wakelock suffers. A failed write of a batch announced since the last reset: exactly what it loses, and
      that is still owed, or all that is owed and no scoped wakelock suffers. A failed write of a batch
      announced before the last reset, or not at all: nothing. And the reset of a timed-out lock has to read a later
      time than the creation of every scoped wakelock alive. */
  predicate Fits(c: Config, s: State, y: Tally, step: Step)
    requires ThreadsAgree(s) && Enabled(c, s, step) && Matches(s, y)
  {
    match step
    case Ack(k) => k <= y.owed || Current(s) == {}
    case BlockingReturns(ok) =>
      ok || !s.wl.running ||
      if y.recent[0] then
        || (HoldsWhatItGivesBack(c, s) && WakeupsLost(c, s) <= y.owed)
        || (Current(s) == {} && y.owed <= WakeupsLost(c, s))
      else GivenBack(c, s) == 0 || s.wl.count == 0
    case Expire(now) => s.wl.running ==> CreatedBefore(s, now)
    case _ => true
  }

  // ---------------------------------------------------------------- one step

  /** A step that takes nothing back and creates or releases no scoped wakelock. */
  lemma QuietStepCovers(c: Config, s: State, y: Tally, step: Step)
    requires Inv(c, s) && Enabled(c, s, step) && Matches(s, y)
    requires step.Enter? || step.Decide? || step.WriteReturns? || step == Begin || step == Finish
          || step == BlockingReturns(true) || step == ReadFails || step == Stop || step == WriterExits
          || step == WriterTests || step == WriterSleeps || step == TimerLooks || step == TimerDozes || step.Check?
          || step == NotifyTimer || step == NotifyWriter
    ensures Covered(s, y) ==> Covered(Apply(c, s, step), Tallied(c, s, y, step))
    ensures CoveredExactly(s, y) ==> CoveredExactly(Apply(c, s, step), Tallied(c, s, y, step))
  {
    assert Current(Apply(c, s, step)) == Current(s);
  }

  lemma CountCovers(c: Config, s: State, y: Tally, now: int)
    requires Inv(c, s) && Enabled(c, s, Count(now)) && Matches(s, y)
    ensures Covered(s, y) ==> Covered(Apply(c, s, Count(now)), Tallied(c, s, y, Count(now)))
    ensures CoveredExactly(s, y) ==> CoveredExactly(Apply(c, s, Count(now)), Tallied(c, s, y, Count(now)))
  {
    assert Current(Apply(c, s, Count(now))) == Current(s);
  }

  lemma SubsetSize(a: set<nat>, b: set<nat>)
    requires a <= b
    ensures |a| <= |b|
  {
    assert b == a + (b - a);
  }

  lemma ResetCovers(s: State, now: int)
    requires s.wl.reset <= s.clock <= now
    ensures Current(ResetAt(s, now)) <= Current(s) && |Current(ResetAt(s, now))| <= |Current(s)|
    ensures |Current(ResetAt(s, now))| == 0 <==> CreatedBefore(s, now)
    ensures ResetAt(s, now).wl.count == if s.wl.running then 0 else s.wl.count
  {
    var left := Current(ResetAt(s, now));
    SubsetSize(left, Current(s));
    if id :| id in s.live && s.live[id] >= now {
      assert id in left;
    }
    if id :| id in left {
      assert |left| > 0;
    }
  }

  /** A reset while the threads do not run keeps the count. */
  lemma IdleResetCovers(c: Config, s: State, y: Tally, step: Step)
    requires Inv(c, s) && Enabled(c, s, step) && Matches(s, y) && Covered(s, y)
    requires step.TimerExits? || step.Initialize?
    ensures Covered(Apply(c, s, step), Tallied(c, s, y, step))
  {
    ResetCovers(s, step.now);
    assert Current(Apply(c, s, step)) == Current(ResetAt(s, step.now));
  }

  lemma ExpireCovers(c: Config, s: State, y: Tally, now: int)
    requires Inv(c, s) && Enabled(c, s, Expire(now)) && Matches(s, y) && Covered(s, y)
    ensures var t, r := Apply(c, s, Expire(now)), Tallied(c, s, y, Expire(now));
            && (Fits(c, s, y, Expire(now)) ==> Covered(t, r))
            && (s.wl.running ==>
                 (Covered(t, r) <==> Fits(c, s, y, Expire(now))) && (Covered(t, r) ==> CoveredExactly(t, r)))
  {
    ResetCovers(s, now);
    assert Current(Apply(c, s, Expire(now))) == Current(ResetAt(s, now));
  }

  lemma ScopedStepCovers(c: Config, s: State, y: Tally, step: Step)
    requires Inv(c, s) && Enabled(c, s, step) && Matches(s, y) && Covered(s, y)
    requires step.ScopedLock? || step.ScopedUnlock?
    ensures Covered(Apply(c, s, step), Tallied(c, s, y, step))
    ensures CoveredExactly(s, y) && s.wl.running ==> CoveredExactly(Apply(c, s, step), Tallied(c, s, y, step))
  {
    var t := Apply(c, s, step);
    match step
    case ScopedLock(id, now) =>
      if s.wl.running {
        assert Current(t) == Current(s) + {id};
      }
    case ScopedUnlock(id) =>
      assert Current(t) == Current(s) - {id};
      if id in Current(s) {
        assert |Current(t)| == |Current(s)| - 1;
      } else {
        assert Current(t) == Current(s);
      }
  }

  lemma AckCovers(c: Config, s: State, y: Tally, k: nat)
    requires Inv(c, s) && Enabled(c, s, Ack(k)) && Matches(s, y) && Covered(s, y)
    ensures var t, r := Apply(c, s, Ack(k)), Tallied(c, s, y, Ack(k));
            && (Fits(c, s, y, Ack(k)) ==> Covered(t, r))
            && (CoveredExactly(s, y) && s.wl.running ==>
                 (Covered(t, r) <==> Fits(c, s, y, Ack(k))) && (Covered(t, r) ==> CoveredExactly(t, r)))
  {
    assert Current(Apply(c, s, Ack(k))) == Current(s);
    if Current(s) != {} {
      var id :| id in Current(s);
      assert |Current(s)| > 0;
    }
  }

  /** A failed blocking write, where the coverage has no slack, leaves it intact exactly when the write takes back
      no more than it may; then it leaves no slack either. */
  lemma FailedWriteExactly(c: Config, s: State, y: Tally)
    requires Inv(c, s) && Announced(c, s) && Matches(s, y) && Covered(s, y) && s.writer.Blocking? && MayLock(s)
    ensures var step := BlockingReturns(false);
            var t, r := Apply(c, s, step), Tallied(c, s, y, step);
            && (Fits(c, s, y, step) ==> Covered(t, r))
            && (CoveredExactly(s, y) && s.wl.running ==>
                 (Covered(t, r) <==> Fits(c, s, y, step)) && (Covered(t, r) ==> CoveredExactly(t, r)))
  {
    var t := Apply(c, s, BlockingReturns(false));
    assert Current(t) == Current(s);
    GivenBackExactly(c, s);
    TakesBack(c, s);
    if Current(s) != {} {
      var id :| id in Current(s);
      assert |Current(s)| > 0;
    }
  }

  lemma TakesBack(c: Config, s: State)
    requires Inv(c, s) && s.writer.Blocking? && MayLock(s)
    ensures var t := Apply(c, s, BlockingReturns(false));
            t.wl.count == if s.wl.running then s.wl.count - Min(s.wl.count, GivenBack(c, s)) else s.wl.count
  {
  }

  /** Every step that fits keeps the coverage. */
  lemma StepKeepsCovered(c: Config, s: State, y: Tally, step: Step)
    requires Inv(c, s) && Announced(c, s) && Matches(s, y) && Enabled(c, s, step) && Covered(s, y)
    requires Fits(c, s, y, step)
    ensures Covered(Apply(c, s, step), Tallied(c, s, y, step))
  {
    match step
    case Count(now) => CountCovers(c, s, y, now);
    case Ack(k) => AckCovers(c, s, y, k);
    case BlockingReturns(ok) =>
      if ok {
        QuietStepCovers(c, s, y, step);
      } else {
        FailedWriteExactly(c, s, y);
      }
    case ScopedLock(_, _) => ScopedStepCovers(c, s, y, step);
    case ScopedUnlock(_) => ScopedStepCovers(c, s, y, step);
    case Expire(now) => ExpireCovers(c, s, y, now);
    case TimerExits(_) => IdleResetCovers(c, s, y, step);
    case Initialize(_, _) => IdleResetCovers(c, s, y, step);
    case _ => QuietStepCovers(c, s, y, step);
  }

  /** Without slack, a step keeps the coverage exactly if it fits, and then leaves no slack. */
  lemma StepCoversExactly(c: Config, s: State, y: Tally, step: Step)
    requires Inv(c, s) && Announced(c, s) && Matches(s, y) && Enabled(c, s, step)
    requires CoveredExactly(s, y) && s.wl.running
    ensures var t, r := Apply(c, s, step), Tallied(c, s, y, step);
            (Covered(t, r) <==> Fits(c, s, y, step)) && (Covered(t, r) ==> CoveredExactly(t, r))
  {
    match step
    case Count(now) => CountCovers(c, s, y, now);
    case Ack(k) => AckCovers(c, s, y, k);
    case BlockingReturns(ok) =>
      if ok {
        QuietStepCovers(c, s, y, step);
      } else {
        FailedWriteExactly(c, s, y);
      }
    case ScopedLock(_, _) => ScopedStepCovers(c, s, y, step);
    case ScopedUnlock(_) => ScopedStepCovers(c, s, y, step);
    case Expire(now) => ExpireCovers(c, s, y, now);
    case TimerExits(_) => IdleResetCovers(c, s, y, step);
    case Initialize(_, _) => IdleResetCovers(c, s, y, step);
    case _ => QuietStepCovers(c, s, y, step);
  }

  // ---------------------------------------------------------------- runs

  predicate AllHonest(c: Config, steps: seq<Step>) {
    forall k :: 0 <= k < |steps| ==> Honest(c, steps[k])
  }

  predicate AllFit(c: Config, s: State, y: Tally, steps: seq<Step>)
    requires ThreadsAgree(s) && Legal(c, s, steps) && Matches(s, y)
    decreases steps
  {
    steps == [] ||
    (Fits(c, s, y, steps[0]) &&
     (StepKeepsThreads(c, s, steps[0]);
      AllFit(c, Apply(c, s, steps[0]), Tallied(c, s, y, steps[0]), steps[1..])))
  }

  predicate CoveredThroughout(c: Config, s: State, y: Tally, steps: seq<Step>)
    requires ThreadsAgree(s) && Legal(c, s, steps) && Matches(s, y)
    decreases steps
  {
    Covered(s, y) &&
    (steps == [] ||
     (StepKeepsThreads(c, s, steps[0]);
      CoveredThroughout(c, Apply(c, s, steps[0]), Tallied(c, s, y, steps[0]), steps[1..])))
  }

  lemma {:induction false} FittingRunIsCovered(c: Config, s: State, y: Tally, steps: seq<Step>)
    requires Inv(c, s) && Announced(c, s) && Matches(s, y) && Legal(c, s, steps) && AllHonest(c, steps)
    requires Covered(s, y) && AllFit(c, s, y, steps)
    ensures Covered(Run(c, s, steps), TallyOver(c, s, y, steps))
    decreases steps
  {
    if steps != [] {
      assert Honest(c, steps[0]);
      StepKeepsInv(c, s, steps[0]);
      StepKeepsAnnounced(c, s, steps[0]);
      StepKeepsCovered(c, s, y, steps[0]);
      FittingRunIsCovered(c, Apply(c, s, steps[0]), Tallied(c, s, y, steps[0]), steps[1..]);
    }
  }

  /** Over every run, stops and initializations included, in which acknowledgements, failed writes and resets fit, the lock
      is held whenever a wake-up is owed or a scoped wakelock of the current epoch is alive. */
  lemma CoverageOverRuns(c: Config, now: nat, steps: seq<Step>)
    requires Legal(c, Constructed(now), steps) && AllHonest(c, steps) && AllFit(c, Constructed(now), NOTHING, steps)
    ensures var t, r := Run(c, Constructed(now), steps), TallyOver(c, Constructed(now), NOTHING, steps);
            Covered(t, r) && (r.owed > 0 || Current(t) != {} ==> t.wl.held)
  {
    var s := Constructed(now);
    assert Current(s) == {};
    FittingRunIsCovered(c, s, NOTHING, steps);
    InvOverRun(c, s, steps);
    var t := Run(c, s, steps);
    if id :| id in Current(t) {
      assert |Current(t)| > 0;
    }
  }

  /** While the threads run, from a state in which the coverage has no slack, it holds throughout exactly if every
      acknowledgement, every failed write and every reset of the run fits. */
  lemma {:induction false} CoverageExactly(c: Config, s: State, y: Tally, steps: seq<Step>)
    requires Inv(c, s) && Announced(c, s) && Matches(s, y) && CoveredExactly(s, y) && s.wl.running
    requires Legal(c, s, steps) && AllHonest(c, steps) && Stop !in steps
    ensures CoveredThroughout(c, s, y, steps) <==> AllFit(c, s, y, steps)
    decreases steps
  {
    if steps != [] {
      var t, r := Apply(c, s, steps[0]), Tallied(c, s, y, steps[0]);
      assert Honest(c, steps[0]) && steps[0] != Stop;
      StepKeepsInv(c, s, steps[0]);
      StepKeepsAnnounced(c, s, steps[0]);
      StepCoversExactly(c, s, y, steps[0]);
      if Fits(c, s, y, steps[0]) {
        StepKeepsRunning(c, s, steps[0]);
        CoverageExactly(c, t, r, steps[1..]);
      }
    }
  }

  lemma StepKeepsRunning(c: Config, s: State, step: Step)
    requires Inv(c, s) && Enabled(c, s, step) && s.wl.running && step != Stop
    ensures Apply(c, s, step).wl.running
  {
  }

  /** No blocking write fails, no acknowledgement exceeds what is owed, and the clock moves on before a reset. */
  predicate Polite(c: Config, s: State, y: Tally, steps: seq<Step>)
    requires ThreadsAgree(s) && Legal(c, s, steps) && Matches(s, y)
    decreases steps
  {
    steps == [] ||
    (steps[0] != BlockingReturns(false) && (steps[0].Ack? ==> steps[0].k <= y.owed)
     && (steps[0].Expire? ==> CreatedBefore(s, steps[0].now)) &&
     (StepKeepsThreads(c, s, steps[0]);
      Polite(c, Apply(c, s, steps[0]), Tallied(c, s, y, steps[0]), steps[1..])))
  }

  lemma {:induction false} PoliteRunsFit(c: Config, s: State, y: Tally, steps: seq<Step>)
    requires ThreadsAgree(s) && Legal(c, s, steps) && Matches(s, y) && Polite(c, s, y, steps)
    ensures AllFit(c, s, y, steps)
    decreases steps
  {
    if steps != [] {
      StepKeepsThreads(c, s, steps[0]);
      PoliteRunsFit(c, Apply(c, s, steps[0]), Tallied(c, s, y, steps[0]), steps[1..]);
    }
  }

  /** Without failed blocking writes and excess acknowledgements, and with a clock that moves on before a reset, the lock
      is never released between the announcement of a wake-up event and its acknowledgement, except by a reset. */
  lemma PoliteRunsAreCovered(c: Config, now: nat, steps: seq<Step>)
    requires Legal(c, Constructed(now), steps) && AllHonest(c, steps) && Polite(c, Constructed(now), NOTHING, steps)
    ensures var t, r := Run(c, Constructed(now), steps), TallyOver(c, Constructed(now), NOTHING, steps);
            Covered(t, r) && (r.owed > 0 || Current(t) != {} ==> t.wl.held)
  {
    PoliteRunsFit(c, Constructed(now), NOTHING, steps);
    CoverageOverRuns(c, now, steps);
  }

  // ---------------------------------------------------------------- failed writes that do no harm

  /** The wake-up events in batches announced since the last reset. */
  function RecentWakeups(sensors: Sensors, backlog: seq<Batch>, recent: seq<bool>): nat
    requires |backlog| == |recent|
  {
    if backlog == [] then 0
    else (if recent[0] then CountWakeups(sensors, backlog[0].events) else 0)
         + RecentWakeups(sensors, backlog[1..], recent[1..])
  }

  /** The wake-up events announced since the last reset that the framework cannot have seen yet: those of the
      backlog, less a front chunk whose write has returned, and those in hand. */
  function Waiting(c: Config, s: State, y: Tally): int
    requires ThreadsAgree(s) && Matches(s, y)
  {
    RecentWakeups(c.sensors, s.backlog, y.recent)
    - (if s.writer.Relocking? && y.recent[0] then WakeupsLost(c, s) else 0) + WaitingInHand(c, s, y)
  }

  function WaitingInHand(c: Config, s: State, y: Tally): nat {
    if (s.poster.Counted? || s.poster.Writing?) && y.inHand then CountWakeups(c.sensors, s.poster.post.events) else 0
  }

  /** The framework acknowledges only events it has seen, and a failed write gives nothing back, or drops a proper
      chunk of a batch announced since the last reset, or the whole rest of one that still holds all it announced; and
      the clock moves on before a reset. */
  predicate Careful(c: Config, s: State, y: Tally, step: Step)
    requires ThreadsAgree(s) && Enabled(c, s, step) && Matches(s, y)
  {
    match step
    case Ack(k) => k + Waiting(c, s, y) <= y.owed
    case BlockingReturns(ok) => ok || GivenBack(c, s) == 0 || (y.recent[0] && HoldsWhatItGivesBack(c, s))
    case Expire(now) => CreatedBefore(s, now)
    case _ => true
  }

  lemma {:induction false} RecentGrows(sensors: Sensors, backlog: seq<Batch>, recent: seq<bool>, b: Batch, isRecent: bool)
    requires |backlog| == |recent|
    ensures RecentWakeups(sensors, backlog + [b], recent + [isRecent]) ==
            RecentWakeups(sensors, backlog, recent) + if isRecent then CountWakeups(sensors, b.events) else 0
  {
    if backlog == [] {
      assert [b][1..] == [] && [isRecent][1..] == [];
      assert backlog + [b] == [b] && recent + [isRecent] == [isRecent];
    } else {
      assert (backlog + [b])[1..] == backlog[1..] + [b];
      assert (recent + [isRecent])[1..] == recent[1..] + [isRecent];
      RecentGrows(sensors, backlog[1..], recent[1..], b, isRecent);
    }
  }

  lemma {:induction false} NoneRecent(sensors: Sensors, backlog: seq<Batch>, recent: seq<bool>)
    requires |backlog| == |recent| && forall i :: 0 <= i < |recent| ==> !recent[i]
    ensures RecentWakeups(sensors, backlog, recent) == 0
  {
    if backlog != [] {
      NoneRecent(sensors, backlog[1..], recent[1..]);
    }
  }

  lemma RecentAfterPop(c: Config, s: State, y: Tally)
    requires ThreadsAgree(s) && Matches(s, y) && s.writer.Relocking? && s.poster == Nobody
    ensures var t, r := Apply(c, s, Finish), Tallied(c, s, y, Finish);
            RecentWakeups(c.sensors, t.backlog, r.recent) ==
            RecentWakeups(c.sensors, s.backlog, y.recent) - if y.recent[0] then WakeupsLost(c, s) else 0
  {
    var front := s.backlog[0];
    if |front.events| > s.quantum {
      CountOfPart(c.sensors, front.events, s.quantum);
      assert PopFront(s.backlog, s.quantum)[1..] == s.backlog[1..];
    } else {
      assert front.events[..|front.events|] == front.events;
    }
  }

  lemma WaitingAfterSpill(c: Config, s: State, y: Tally, step: Step)
    requires ThreadsAgree(s) && Matches(s, y) && Enabled(c, s, step) && (step.Decide? || step.WriteReturns?)
    ensures Waiting(c, Apply(c, s, step), Tallied(c, s, y, step)) <= Waiting(c, s, y)
  {
    var t := Apply(c, s, step);
    var post := s.poster.post;
    if !t.poster.Writing? {
      var k := if step.WriteReturns? && step.ok then s.poster.n else 0;
      assert t == Spill(c, s, post, k);
      CountOfPart(c.sensors, post.events, k);
      RecentGrows(c.sensors, s.backlog, y.recent, Batch(post.events[k..], post.wakeups), y.inHand);
    }
  }

  lemma LostIsWaiting(c: Config, s: State, y: Tally)
    requires ThreadsAgree(s) && Matches(s, y) && s.writer.Blocking? && y.recent[0]
    ensures WakeupsLost(c, s) <= Waiting(c, s, y)
  {
    var front := s.backlog[0];
    CountOfPart(c.sensors, front.events, Min(|front.events|, s.quantum));
  }

  lemma WaitingAfterReset(c: Config, t: State, y: Tally)
    requires ThreadsAgree(t) && Matches(t, Outdated(y))
    ensures Waiting(c, t, Outdated(y)) == 0
  {
    NoneRecent(c.sensors, t.backlog, Outdated(y).recent);
  }

  /** A careful step leaves at least as much owed as waits. */
  lemma StepKeepsWaitingOwed(c: Config, s: State, y: Tally, step: Step)
    requires Inv(c, s) && Announced(c, s) && Honest(c, step) && Matches(s, y) && Enabled(c, s, step)
    requires ThreadsAgree(Apply(c, s, step)) && Waiting(c, s, y) <= y.owed && Careful(c, s, y, step)
    ensures Waiting(c, Apply(c, s, step), Tallied(c, s, y, step)) <= Tallied(c, s, y, step).owed
  {
    match step
    case Decide(_) => WaitingAfterSpill(c, s, y, step);
    case WriteReturns(_) => WaitingAfterSpill(c, s, y, step);
    case BlockingReturns(ok) => WaitingAfterWrite(c, s, y, ok);
    case Finish => RecentAfterPop(c, s, y);
    case Expire(_) => WaitingAfterTime(c, s, y, step);
    case TimerExits(_) => WaitingAfterTime(c, s, y, step);
    case Initialize(_, _) => WaitingAfterTime(c, s, y, step);
    case _ =>
  }

  lemma WaitingAfterWrite(c: Config, s: State, y: Tally, ok: bool)
    requires ThreadsAgree(s) && Matches(s, y) && Enabled(c, s, BlockingReturns(ok)) && Waiting(c, s, y) <= y.owed
    ensures var step := BlockingReturns(ok);
            Waiting(c, Apply(c, s, step), Tallied(c, s, y, step)) <= Tallied(c, s, y, step).owed
  {
    if y.recent[0] {
      LostIsWaiting(c, s, y);
    }
  }

  lemma WaitingAfterTime(c: Config, s: State, y: Tally, step: Step)
    requires ThreadsAgree(s) && Matches(s, y) && Enabled(c, s, step) && ThreadsAgree(Apply(c, s, step))
    requires Waiting(c, s, y) <= y.owed && (step.Expire? || step.TimerExits? || step.Initialize?)
    ensures Waiting(c, Apply(c, s, step), Tallied(c, s, y, step)) <= Tallied(c, s, y, step).owed
  {
    if !step.Initialize? {
      WaitingAfterReset(c, Apply(c, s, step), y);
    }
  }

  lemma CarefulStepFits(c: Config, s: State, y: Tally, step: Step)
    requires Inv(c, s) && Announced(c, s) && Matches(s, y) && Enabled(c, s, step)
    requires 0 <= Waiting(c, s, y) <= y.owed && Careful(c, s, y, step)
    ensures Fits(c, s, y, step)
  {
    if step == BlockingReturns(false) && y.recent[0] {
      LostIsWaiting(c, s, y);
      GivenBackExactly(c, s);
    }
  }

  lemma WaitingNonNegative(c: Config, s: State, y: Tally)
    requires ThreadsAgree(s) && Matches(s, y)
    ensures Waiting(c, s, y) >= 0
  {
    if s.writer.Relocking? && y.recent[0] {
      CountOfPart(c.sensors, s.backlog[0].events, s.writer.n);
    }
  }

  predicate AllCareful(c: Config, s: State, y: Tally, steps: seq<Step>)
    requires ThreadsAgree(s) && Legal(c, s, steps) && Matches(s, y)
    decreases steps
  {
    steps == [] ||
    (Careful(c, s, y, steps[0]) &&
     (StepKeepsThreads(c, s, steps[0]);
      AllCareful(c, Apply(c, s, steps[0]), Tallied(c, s, y, steps[0]), steps[1..])))
  }

  lemma {:induction false} CarefulRunsFit(c: Config, s: State, y: Tally, steps: seq<Step>)
    requires Inv(c, s) && Announced(c, s) && Matches(s, y) && Legal(c, s, steps) && AllHonest(c, steps)
    requires Waiting(c, s, y) <= y.owed && AllCareful(c, s, y, steps)
    ensures AllFit(c, s, y, steps)
    decreases steps
  {
    if steps != [] {
      assert Honest(c, steps[0]);
      StepKeepsInv(c, s, steps[0]);
      StepKeepsAnnounced(c, s, steps[0]);
      WaitingNonNegative(c, s, y);
      CarefulStepFits(c, s, y, steps[0]);
      StepKeepsWaitingOwed(c, s, y, steps[0]);
      CarefulRunsFit(c, Apply(c, s, steps[0]), Tallied(c, s, y, steps[0]), steps[1..]);
    }
  }

  /** Coverage with failed writes: if the framework acknowledges only what it has seen, and each batch a blocking
      write fails for was announced since the last reset and is dropped as a proper chunk or still holds all that it
      announced, and the clock moves on before a reset, the lock is held whenever a wake-up is owed or a current scoped
      wakelock is alive. */
  lemma CarefulRunsAreCovered(c: Config, now: nat, steps: seq<Step>)
    requires Legal(c, Constructed(now), steps) && AllHonest(c, steps) && AllCareful(c, Constructed(now), NOTHING, steps)
    ensures var t, r := Run(c, Constructed(now), steps), TallyOver(c, Constructed(now), NOTHING, steps);
            Covered(t, r) && (r.owed > 0 || Current(t) != {} ==> t.wl.held)
  {
    CarefulRunsFit(c, Constructed(now), NOTHING, steps);
    CoverageOverRuns(c, now, steps);
  }

  // ---------------------------------------------------------------- failed writes that do harm

  /** Some run in which all posts announce their own wake-up events leads to this state and tally. */
  ghost predicate ReachableWith(c: Config, t: State, y: Tally) {
    exists now: nat, steps ::
      Legal(c, Constructed(now), steps) && AllHonest(c, steps) && Run(c, Constructed(now), steps) == t
      && TallyOver(c, Constructed(now), NOTHING, steps) == y
  }

  lemma {:induction false} TallyThenStep(c: Config, s: State, y: Tally, steps: seq<Step>, step: Step)
    requires ThreadsAgree(s) && Legal(c, s, steps) && Matches(s, y) && Enabled(c, Run(c, s, steps), step)
    requires Legal(c, s, steps + [step])
    ensures TallyOver(c, s, y, steps + [step]) == Tallied(c, Run(c, s, steps), TallyOver(c, s, y, steps), step)
    decreases steps
  {
    if steps == [] {
      assert steps + [step] == [step] && [step][1..] == [];
    } else {
      StepKeepsThreads(c, s, steps[0]);
      assert (steps + [step])[1..] == steps[1..] + [step];
      TallyThenStep(c, Apply(c, s, steps[0]), Tallied(c, s, y, steps[0]), steps[1..], step);
    }
  }

  lemma NextWith(c: Config, s: State, y: Tally, step: Step) returns (t: State, r: Tally)
    requires ThreadsAgree(s) && Matches(s, y) && ReachableWith(c, s, y) && Enabled(c, s, step) && Honest(c, step)
    ensures t == Apply(c, s, step) && r == Tallied(c, s, y, step)
    ensures ThreadsAgree(t) && Matches(t, r) && ReachableWith(c, t, r)
  {
    StepKeepsThreads(c, s, step);
    t, r := Apply(c, s, step), Tallied(c, s, y, step);
    var now: nat, steps :|
      Legal(c, Constructed(now), steps) && AllHonest(c, steps) && Run(c, Constructed(now), steps) == s
      && TallyOver(c, Constructed(now), NOTHING, steps) == y;
    RunThenStep(c, Constructed(now), steps, step);
    TallyThenStep(c, Constructed(now), NOTHING, steps, step);
    assert AllHonest(c, steps + [step]);
  }

  /** The state after the first initialization. */
  function FirstInitialized(now: nat, again: nat, quantum: nat): State {
    Constructed(now).(wl := Wakelock(true, 0, false, now, again), clock := again, quantum := quantum,
                      writer := AtTest, timer := Looking)
  }

  lemma FirstStops(c: Config, now: nat) returns (t: State)
    ensures ThreadsAgree(t) && Matches(t, NOTHING) && ReachableWith(c, t, NOTHING)
    ensures t == Constructed(now).(stopping := Notified)
  {
    var y;
    t, y := Constructed(now), NOTHING;
    assert Legal(c, t, []) && Run(c, t, []) == t && TallyOver(c, t, NOTHING, []) == y && AllHonest(c, []);
    t, y := NextWith(c, t, y, Stop);
    t, y := NextWith(c, t, y, NotifyTimer);
    t, y := NextWith(c, t, y, NotifyWriter);
  }

  lemma FirstInitializedIsReached(c: Config, now: nat, again: nat, quantum: nat)
    requires now <= again
    ensures ThreadsAgree(FirstInitialized(now, again, quantum)) && Inv(c, FirstInitialized(now, again, quantum))
    ensures ReachableWith(c, FirstInitialized(now, again, quantum), NOTHING)
  {
    var t := FirstStops(c, now);
    var y;
    t, y := NextWith(c, t, NOTHING, Initialize(again, quantum));
    assert t == FirstInitialized(now, again, quantum);
  }

  /** From the first initialization to the first stop coverage holds throughout exactly if every acknowledgement,
      every failed write and every reset fits. */
  lemma CoverageFromStart(c: Config, now: nat, again: nat, quantum: nat, steps: seq<Step>)
    requires now <= again && ThreadsAgree(FirstInitialized(now, again, quantum))
    requires Legal(c, FirstInitialized(now, again, quantum), steps) && AllHonest(c, steps) && Stop !in steps
    ensures ReachableWith(c, FirstInitialized(now, again, quantum), NOTHING)
    ensures CoveredThroughout(c, FirstInitialized(now, again, quantum), NOTHING, steps) <==>
            AllFit(c, FirstInitialized(now, again, quantum), NOTHING, steps)
  {
    var s := FirstInitialized(now, again, quantum);
    FirstInitializedIsReached(c, now, again, quantum);
    assert Current(s) == {};
    CoverageExactly(c, s, NOTHING, steps);
  }

  const WAKE_SENSOR := Handle(0, 1)

  const WAKE_EVENT := Event(WAKE_SENSOR, 0.0, 0)

  predicate OneWakeSensor(c: Config) {
    c.maxPending > 0 && c.sensors == map[WAKE_SENSOR := DEFAULT_SENSOR.(flags := WAKE_UP)]
  }

  lemma WakeEventCounts(c: Config)
    requires OneWakeSensor(c)
    ensures IsWakeup(c.sensors, WAKE_EVENT)
    ensures CountWakeups(c.sensors, [WAKE_EVENT]) == 1 && CountWakeups(c.sensors, [WAKE_EVENT, WAKE_EVENT]) == 2
  {
    var one, two := [WAKE_EVENT], [WAKE_EVENT, WAKE_EVENT];
    assert one[1..] == [] && two[1..] == one;
  }

  /** A proxy initialized with quantum 1 at time 1 and a scoped wakelock taken at time 2. */
  lemma Locked(c: Config) returns (t: State, y: Tally)
    ensures ThreadsAgree(t) && Matches(t, y) && ReachableWith(c, t, y)
    ensures t == Constructed(0).(wl := Wakelock(true, 1, true, 2, 1), clock := 2, quantum := 1,
                                 writer := AtTest, timer := Looking, live := map[0 := 2])
    ensures y == NOTHING
  {
    FirstInitializedIsReached(c, 0, 1, 1);
    t, y := FirstInitialized(0, 1, 1), NOTHING;
    t, y := NextWith(c, t, y, ScopedLock(0, 2));
  }

  const WAKE_POST := Post([WAKE_EVENT, WAKE_EVENT], 2, Some(0))

  /** The two wake-up events of a post have been counted. */
  lemma TwoCounted(c: Config) returns (t: State, y: Tally)
    requires OneWakeSensor(c)
    ensures ThreadsAgree(t) && Matches(t, y) && ReachableWith(c, t, y)
    ensures t.wl == Wakelock(true, 3, true, 3, 1) && y == Tally(2, [], true)
    ensures t.written == [] && t.backlog == [] && t.size == 0 && t.poster == Counted(WAKE_POST)
    ensures t.writer == AtTest && t.timer == Looking && t.quantum == 1 && t.live == map[0 := 2]
  {
    WakeEventCounts(c);
    t, y := Locked(c);
    t, y := NextWith(c, t, y, Enter(WAKE_POST));
    t, y := NextWith(c, t, y, Count(3));
  }

  /** Only the first of them fits the event queue, and the scoped wakelock is released. */
  lemma HalfWritten(c: Config) returns (t: State, y: Tally)
    requires OneWakeSensor(c)
    ensures ThreadsAgree(t) && Matches(t, y) && ReachableWith(c, t, y)
    ensures t.wl == Wakelock(true, 2, true, 3, 1) && y.owed == 2 && y.recent == [true]
    ensures t.written == [WAKE_EVENT] && t.backlog == [Batch([WAKE_EVENT], 2)]
    ensures t.writer == AtTest && t.timer == Looking && t.poster == Nobody && t.quantum == 1
  {
    t, y := TwoCounted(c);
    t, y := NextWith(c, t, y, Decide(1));
    assert t.poster == Writing(WAKE_POST, 1);
    assert WAKE_POST.events[1..] == [WAKE_EVENT] && WAKE_POST.events[..1] == [WAKE_EVENT];
    t, y := NextWith(c, t, y, WriteReturns(true));
    t, y := NextWith(c, t, y, ScopedUnlock(0));
  }

  /** Too much is given back: the first of two wake-up events is written at once, the blocking write of the second
      fails and gives back both references, and the lock is released although the first is still owed. */
  lemma FailedWriteUncovers(c: Config) returns (t: State, y: Tally)
    requires OneWakeSensor(c)
    ensures ReachableWith(c, t, y) && t.wl.running
    ensures t.written == [WAKE_EVENT] && IsWakeup(c.sensors, WAKE_EVENT)
    ensures y.owed == 1 && t.wl.count == 0 && !t.wl.held
  {
    WakeEventCounts(c);
    t, y := HalfWritten(c);
    t, y := NextWith(c, t, y, Begin);
    var one := [WAKE_EVENT];
    assert one[..1] == one;
    t, y := NextWith(c, t, y, BlockingReturns(false));
  }

  const ONE_WAKE_POST := Post([WAKE_EVENT], 1, Some(0))

  /** A post of one wake-up event waits in the backlog. */
  lemma WaitingBatch(c: Config) returns (t: State, y: Tally)
    requires OneWakeSensor(c)
    ensures ThreadsAgree(t) && Matches(t, y) && ReachableWith(c, t, y)
    ensures t.wl == Wakelock(true, 2, true, 3, 1) && t.clock == 3 && t.live == map[0 := 2] && t.timer == Looking
    ensures t.backlog == [Batch([WAKE_EVENT], 1)] && y.recent == [true]
    ensures t.writer == AtTest && t.timer == Looking && t.poster == Nobody && t.quantum == 1
  {
    WakeEventCounts(c);
    t, y := Locked(c);
    t, y := NextWith(c, t, y, Enter(ONE_WAKE_POST));
    t, y := NextWith(c, t, y, Count(3));
    assert ONE_WAKE_POST.events[0..] == [WAKE_EVENT];
    t, y := NextWith(c, t, y, Decide(0));
  }

  /** Then the scoped wakelock is released and the lock times out. */
  lemma TimedOutBatch(c: Config) returns (t: State, y: Tally)
    requires OneWakeSensor(c)
    ensures ThreadsAgree(t) && Matches(t, y) && ReachableWith(c, t, y)
    ensures t.wl == Wakelock(true, 0, false, 3, 5 + c.timeout) && t.clock == 5 + c.timeout && t.live == map[]
    ensures t.backlog == [Batch([WAKE_EVENT], 1)] && y == Tally(0, [false], false)
    ensures t.writer == AtTest && t.timer == Looking && t.poster == Nobody && t.quantum == 1
  {
    t, y := WaitingBatch(c);
    t, y := NextWith(c, t, y, ScopedUnlock(0));
    assert t.wl == Wakelock(true, 1, true, 3, 1) && t.live == map[];
    t, y := NextWith(c, t, y, Check(4 + c.timeout));
    t, y := NextWith(c, t, y, Expire(5 + c.timeout));
  }

  /** The right amount is given back, but by a batch from before a reset: it takes the reference of a scoped wakelock
      created after the reset, and the lock is released while that one is alive. */
  lemma OldBatchUncovers(c: Config) returns (s: State, x: Tally, t: State, y: Tally)
    requires OneWakeSensor(c)
    ensures ReachableWith(c, s, x) && CoveredExactly(s, x) && ThreadsAgree(s) && Enabled(c, s, BlockingReturns(false))
    ensures GivenBack(c, s) == WakeupsLost(c, s) == 1
    ensures ReachableWith(c, t, y) && t == Apply(c, s, BlockingReturns(false)) && t.wl.running
    ensures 1 in Current(t) && t.wl.count == 0 && !t.wl.held
  {
    WakeEventCounts(c);
    s, x := TimedOutBatch(c);
    s, x := NextWith(c, s, x, ScopedLock(1, 6 + c.timeout));
    s, x := NextWith(c, s, x, Begin);
    var one := [WAKE_EVENT];
    assert one[..1] == one;
    assert Current(s) == {1};
    t, y := NextWith(c, s, x, BlockingReturns(false));
  }
}
