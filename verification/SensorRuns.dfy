/** What holds over every run of the event pipeline. */
module SensorRuns {
  import opened Common
  import opened SensorTypes
  import opened SharedWakelock
  import opened EventBacklog
  import opened SensorPipeline

  predicate Legal(c: Config, s: State, steps: seq<Step>)
    requires ThreadsAgree(s)
    decreases steps
  {
    steps == [] ||
    (Enabled(c, s, steps[0]) && (StepKeepsThreads(c, s, steps[0]); Legal(c, Apply(c, s, steps[0]), steps[1..])))
  }

  function Run(c: Config, s: State, steps: seq<Step>): (t: State)
    requires ThreadsAgree(s) && Legal(c, s, steps)
    ensures ThreadsAgree(t)
    decreases steps
  {
    if steps == [] then s
    else
      StepKeepsThreads(c, s, steps[0]);
      Run(c, Apply(c, s, steps[0]), steps[1..])
  }

  lemma {:induction false} InvOverRun(c: Config, s: State, steps: seq<Step>)
    requires Inv(c, s) && Legal(c, s, steps)
    ensures Inv(c, Run(c, s, steps))
    decreases steps
  {
    if steps != [] {
      StepKeepsInv(c, s, steps[0]);
      InvOverRun(c, Apply(c, s, steps[0]), steps[1..]);
    }
  }

  lemma StepThenRun(c: Config, s: State, step: Step, rest: seq<Step>)
    requires ThreadsAgree(s) && Enabled(c, s, step)
    requires ThreadsAgree(Apply(c, s, step)) && Legal(c, Apply(c, s, step), rest)
    ensures Legal(c, s, [step] + rest) && Run(c, s, [step] + rest) == Run(c, Apply(c, s, step), rest)
  {
    assert ([step] + rest)[1..] == rest;
  }

  ghost predicate Reachable(c: Config, t: State) {
    exists now: nat, steps :: Legal(c, Constructed(now), steps) && Run(c, Constructed(now), steps) == t
  }

  lemma {:induction false} RunThenStep(c: Config, s: State, steps: seq<Step>, step: Step)
    requires ThreadsAgree(s) && Legal(c, s, steps) && Enabled(c, Run(c, s, steps), step)
    ensures Legal(c, s, steps + [step]) && Run(c, s, steps + [step]) == Apply(c, Run(c, s, steps), step)
    decreases steps
  {
    if steps == [] {
      assert steps + [step] == [step];
      StepKeepsThreads(c, s, step);
      assert [step][1..] == [];
    } else {
      StepKeepsThreads(c, s, steps[0]);
      RunThenStep(c, Apply(c, s, steps[0]), steps[1..], step);
      assert (steps + [step])[1..] == steps[1..] + [step];
    }
  }

  lemma NextReachable(c: Config, s: State, step: Step) returns (t: State)
    requires ThreadsAgree(s) && Reachable(c, s) && Enabled(c, s, step)
    ensures t == Apply(c, s, step) && ThreadsAgree(t) && Reachable(c, t)
  {
    StepKeepsThreads(c, s, step);
    t := Apply(c, s, step);
    var now: nat, steps :| Legal(c, Constructed(now), steps) && Run(c, Constructed(now), steps) == s;
    RunThenStep(c, Constructed(now), steps, step);
  }

  /** A proxy constructed at time 0 and initialized, after the stop every initialization begins with, at time 1. */
  lemma Initialized(c: Config, quantum: nat) returns (s: State)
    ensures ThreadsAgree(s) && Reachable(c, s)
    ensures s == Constructed(0).(wl := Wakelock(true, 0, false, 0, 1), clock := 1, quantum := quantum,
                                 writer := AtTest, timer := Looking)
  {
    s := Constructed(0);
    assert Legal(c, s, []) && Run(c, s, []) == s;
    s := NextReachable(c, s, Stop);
    s := NextReachable(c, s, NotifyTimer);
    s := NextReachable(c, s, NotifyWriter);
    s := NextReachable(c, s, Initialize(1, quantum));
  }

  // ---------------------------------------------------------------- order and losses

  /** Everything posted since the last initialization, read off the run alone. */
  function PostedBy(start: seq<Event>, steps: seq<Step>): seq<Event>
    decreases steps
  {
    if steps == [] then start
    else PostedBy(match steps[0]
                  case Enter(post) => start + post.events
                  case Initialize(_, _) => []
                  case _ => start, steps[1..])
  }

  lemma {:induction false} PostedOverRun(c: Config, s: State, steps: seq<Step>)
    requires ThreadsAgree(s) && Legal(c, s, steps)
    ensures Run(c, s, steps).posted == PostedBy(s.posted, steps)
    decreases steps
  {
    if steps != [] {
      StepKeepsThreads(c, s, steps[0]);
      PostedOverRun(c, Apply(c, s, steps[0]), steps[1..]);
    }
  }

  /** First in, first out, over every interleaving: what reached the event queue, followed by what still
      waits, is a subsequence of what was posted since the last initialization, and every posted event is
      either there, or in hand of the posting thread, or among the overflow and failed-write losses. */
  lemma FifoOverRuns(c: Config, now: nat, steps: seq<Step>)
    requires Legal(c, Constructed(now), steps)
    ensures var t := Run(c, Constructed(now), steps);
            var posted := PostedBy([], steps);
            && Subsequence(t.written + Remaining(t), posted)
            && |posted| == |t.written| + |Remaining(t)| + |InHand(t.poster)| + |t.overflowed| + |t.dropped|
  {
    PostedOverRun(c, Constructed(now), steps);
    InvOverRun(c, Constructed(now), steps);
    var t := Run(c, Constructed(now), steps);
    KeptIsWrittenThenPending(t.log);
    KeptIsSubsequence(t.log);
    SubsequenceExtends(Kept(t.log), Events(t.log), InHand(t.poster));
    EveryEntryHasOneFate(t.log);
  }

  /** Each loss in detail: the log assigns one fate to every posted event in posting order, the four
      selections are what was written, still waits, overflowed and was dropped, and within one post an
      overflow loss is a suffix that follows only events written at once. */
  lemma LossesOverRuns(c: Config, now: nat, steps: seq<Step>)
    requires Legal(c, Constructed(now), steps)
    ensures var t := Run(c, Constructed(now), steps);
            && Events(t.log) + InHand(t.poster) == PostedBy([], steps)
            && Select(t.log, Written) == t.written && Select(t.log, Pending) == Remaining(t)
            && Select(t.log, LostOverflow) == t.overflowed && Select(t.log, LostWrite) == t.dropped
            && OverflowIsSuffix(t.log)
  {
    PostedOverRun(c, Constructed(now), steps);
    InvOverRun(c, Constructed(now), steps);
  }

  /** Each loss to a failed blocking write is the first chunk of what waited just then, and no other step drops
      anything. */
  lemma DropsExactly(c: Config, s: State, step: Step)
    requires Inv(c, s) && Enabled(c, s, step) && !step.Initialize?
    ensures var t := Apply(c, s, step);
            if step == BlockingReturns(false) then
              && s.writer.n <= |Remaining(s)|
              && t.dropped == s.dropped + Remaining(s)[..s.writer.n] && Remaining(t) == Remaining(s)[s.writer.n..]
            else t.dropped == s.dropped
  {
    if step == BlockingReturns(false) {
      PopFrontEffect(s.backlog, s.quantum);
      assert Flatten(s.backlog)[..s.writer.n] == s.backlog[0].events[..s.writer.n];
    }
  }

  /** A post writes at once what there is room for, but only if nothing waits; what it cannot write, or failed to, joins
      the backlog as one batch if it does not take it beyond its maximum, and is lost as a whole otherwise. */
  lemma PostsExactly(c: Config, s: State, step: Step)
    requires ThreadsAgree(s) && Enabled(c, s, step) && (step.Decide? || step.WriteReturns?)
    ensures var post, t := s.poster.post, Apply(c, s, step);
            var room := if step.Decide? && s.backlog == [] then step.available else 0;
            if post.events != [] && room > 0 then
              t == s.(poster := Writing(post, if room < |post.events| then room else |post.events|))
            else
              var k := if step == WriteReturns(true) then s.poster.n else 0;
              var left := post.events[k..];
              && t.poster == Nobody && t.posts == s.posts + 1 && t.written == s.written + post.events[..k]
              && (if left != [] && s.size + |left| <= c.maxPending then
                    && t.backlog == s.backlog + [Batch(left, post.wakeups)] && t.size == s.size + |left|
                    && t.overflowed == s.overflowed && (s.writer == Asleep ==> t.writer == AtTest)
                  else
                    t.backlog == s.backlog && t.size == s.size && t.overflowed == s.overflowed + left)
  {
  }

  // ---------------------------------------------------------------- one producer at a time

  /** The event queue has one producer: no thread is in the non-blocking write of a post while the
      pending-writes thread is in its unlocked blocking write or has not taken the mutex back yet. */
  lemma SingleProducer(c: Config, now: nat, steps: seq<Step>)
    requires Legal(c, Constructed(now), steps)
    ensures var t := Run(c, Constructed(now), steps);
            !(t.poster.Writing? && (t.writer.Blocking? || t.writer.Relocking?))
  {
  }

  // ---------------------------------------------------------------- accounting

  function MaxInt(a: int, b: int): int {
    if a < b then b else a
  }

  /** The largest backlog size of the states of a run. */
  function PeakSize(c: Config, s: State, steps: seq<Step>): int
    requires ThreadsAgree(s) && Legal(c, s, steps)
    decreases steps
  {
    if steps == [] then s.size
    else
      StepKeepsThreads(c, s, steps[0]);
      MaxInt(s.size, PeakSize(c, Apply(c, s, steps[0]), steps[1..]))
  }

  /** mMostEventsObservedPendingWriteEventsQueue is the running maximum of the backlog size. */
  lemma {:induction false} MostIsPeak(c: Config, s: State, steps: seq<Step>)
    requires Inv(c, s) && Legal(c, s, steps)
    ensures Run(c, s, steps).most == MaxInt(s.most, PeakSize(c, s, steps))
    decreases steps
  {
    if steps != [] {
      var t := Apply(c, s, steps[0]);
      StepKeepsInv(c, s, steps[0]);
      StepRaisesMost(c, s, steps[0]);
      MostIsPeak(c, t, steps[1..]);
    }
  }

  lemma StepRaisesMost(c: Config, s: State, step: Step)
    requires Inv(c, s) && Enabled(c, s, step)
    ensures Apply(c, s, step).most == MaxInt(s.most, Apply(c, s, step).size)
  {
    if step == Finish {
      PopFrontEffect(s.backlog, s.quantum);
    }
  }

  /** Whatever the threads do, the recorded size is the number of events queued, within the bounds. */
  lemma AccountingOverRuns(c: Config, now: nat, steps: seq<Step>)
    requires Legal(c, Constructed(now), steps)
    ensures var t := Run(c, Constructed(now), steps);
            && t.size == Total(t.backlog) == |Flatten(t.backlog)|
            && t.size <= t.most <= c.maxPending
            && t.most == PeakSize(c, Constructed(now), steps)
            && (t.writer.Blocking? || t.writer.Relocking? ==> t.writer.n <= t.size)
  {
    InvOverRun(c, Constructed(now), steps);
    var t := Run(c, Constructed(now), steps);
    FlattenLength(t.backlog);
    MostIsPeak(c, Constructed(now), steps);
    PeakNonNegative(c, Constructed(now), steps);
    if t.writer.Blocking? || t.writer.Relocking? {
      PopFrontEffect(t.backlog, t.quantum);
    }
  }

  lemma {:induction false} PeakNonNegative(c: Config, s: State, steps: seq<Step>)
    requires Inv(c, s) && Legal(c, s, steps)
    ensures PeakSize(c, s, steps) >= 0
    decreases steps
  {
  }

  // ---------------------------------------------------------------- draining

  /** The steps of undisturbed writer passes, with the outcomes of their blocking writes. */
  function PassSteps(outcomes: seq<bool>): seq<Step> {
    if outcomes == [] then [] else [Begin] + ([BlockingReturns(outcomes[0])] + ([Finish] + PassSteps(outcomes[1..])))
  }

  predicate ReadyToDrain(s: State) {
    s.writer == AtTest && s.poster == Nobody && s.wl.running && s.quantum > 0 && LockFree(s)
  }

  /** The state in the middle of an undisturbed pass, and the state after it. */
  function MidPass(c: Config, s: State, ok: bool): (t: State)
    requires Inv(c, s) && ReadyToDrain(s) && s.backlog != []
    ensures Inv(c, t) && Enabled(c, t, Finish)
    ensures t.backlog == s.backlog && t.size == s.size && t.quantum == s.quantum && t.wl.running
  {
    StepKeepsInv(c, s, Begin);
    var a := Apply(c, s, Begin);
    StepKeepsInv(c, a, BlockingReturns(ok));
    Apply(c, a, BlockingReturns(ok))
  }

  function AfterPass(c: Config, s: State, ok: bool): (t: State)
    requires Inv(c, s) && ReadyToDrain(s) && s.backlog != []
    ensures Inv(c, t) && ReadyToDrain(t) && t.quantum == s.quantum
  {
    StepKeepsInv(c, MidPass(c, s, ok), Finish);
    Apply(c, MidPass(c, s, ok), Finish)
  }

  /** A pass strictly shrinks the backlog and uses up exactly one of the passes due. */
  lemma PassShrinks(c: Config, s: State, ok: bool)
    requires Inv(c, s) && ReadyToDrain(s) && s.backlog != []
    ensures AfterPass(c, s, ok).size < s.size
    ensures Passes(AfterPass(c, s, ok).backlog, s.quantum) == Passes(s.backlog, s.quantum) - 1
  {
    assert s.backlog[0] in s.backlog;
    PopFrontEffect(s.backlog, s.quantum);
    OnePassLess(s.backlog, s.quantum);
  }

  lemma PassIsLegal(c: Config, s: State, ok: bool, rest: seq<Step>)
    requires Inv(c, s) && ReadyToDrain(s) && s.backlog != [] && Legal(c, AfterPass(c, s, ok), rest)
    ensures var steps := [Begin] + ([BlockingReturns(ok)] + ([Finish] + rest));
            Legal(c, s, steps) && Run(c, s, steps) == Run(c, AfterPass(c, s, ok), rest)
  {
    StepThenRun(c, MidPass(c, s, ok), Finish, rest);
    StepKeepsInv(c, s, Begin);
    StepThenRun(c, Apply(c, s, Begin), BlockingReturns(ok), [Finish] + rest);
    StepThenRun(c, s, Begin, [BlockingReturns(ok)] + ([Finish] + rest));
  }

  /** Undisturbed, the backlog empties in exactly as many passes as the sum of ceil(length / quantum)
      over its batches, whichever blocking writes fail. */
  lemma {:induction false} DrainExactly(c: Config, s: State, outcomes: seq<bool>)
    requires Inv(c, s) && ReadyToDrain(s) && |outcomes| <= Passes(s.backlog, s.quantum)
    ensures Legal(c, s, PassSteps(outcomes))
    ensures var t := Run(c, s, PassSteps(outcomes));
            && Passes(t.backlog, s.quantum) == Passes(s.backlog, s.quantum) - |outcomes|
            && (t.backlog == [] <==> |outcomes| == Passes(s.backlog, s.quantum))
    decreases |outcomes|
  {
    if outcomes == [] {
      NoPassesIffEmpty(s.backlog, s.quantum);
    } else {
      NoPassesIffEmpty(s.backlog, s.quantum);
      PassShrinks(c, s, outcomes[0]);
      DrainExactly(c, AfterPass(c, s, outcomes[0]), outcomes[1..]);
      PassIsLegal(c, s, outcomes[0], PassSteps(outcomes[1..]));
    }
  }

  // ---------------------------------------------------------------- stopping

  /** How many steps of their own the two threads may still take once they are told to stop. */
  function StepsToExit(s: State): nat {
    (match s.writer
     case Blocking(_) => 3
     case Relocking(_) => 2
     case Tested => 2
     case AtTest => 1
     case Asleep => 1
     case Exited => 0)
    + (match s.timer
       case Reading(_) => 2
       case Expired => 2
       case Looked => 2
       case Looking => 1
       case Dozing => 1
       case Off => 0)
  }

  /** The steps of the pending-writes thread, and of the wakelock thread, that need no running proxy. */
  predicate IsWriterExit(step: Step) {
    step.BlockingReturns? || step == Finish || step == WriterSleeps || step == WriterExits
  }

  predicate IsTimerExit(step: Step) {
    step.Ack? || step == ReadFails || step.Expire? || step == TimerDozes || step.TimerExits?
  }

  function ExitSteps(steps: seq<Step>): nat {
    if steps == [] then 0
    else (if IsWriterExit(steps[0]) || IsTimerExit(steps[0]) then 1 else 0) + ExitSteps(steps[1..])
  }

  lemma StepTowardsExit(c: Config, s: State, step: Step)
    requires ThreadsAgree(s) && Enabled(c, s, step) && !s.wl.running && !step.Initialize?
    ensures var t := Apply(c, s, step);
            && !t.wl.running
            && StepsToExit(t) + (if IsWriterExit(step) || IsTimerExit(step) then 1 else 0) <= StepsToExit(s)
  {
    if !IsWriterExit(step) && !IsTimerExit(step) {
      OthersDoNotDelay(c, s, step);
    }
  }

  lemma OthersDoNotDelay(c: Config, s: State, step: Step)
    requires ThreadsAgree(s) && Enabled(c, s, step) && !s.wl.running && !step.Initialize?
    requires !IsWriterExit(step) && !IsTimerExit(step)
    ensures var t := Apply(c, s, step);
            && !t.wl.running
            && (t.writer == s.writer || (s.writer == Asleep && t.writer == AtTest))
            && (t.timer == s.timer || (s.timer == Dozing && t.timer == Looking))
  {
  }

  /** Once the flag is cleared the two threads take at most five steps of their own between them, whatever the
      other threads do and however their writes and reads are answered. */
  lemma {:induction false} StoppedThreadsEnd(c: Config, s: State, steps: seq<Step>)
    requires ThreadsAgree(s) && !s.wl.running && Legal(c, s, steps)
    requires forall k :: 0 <= k < |steps| ==> !steps[k].Initialize?
    ensures !Run(c, s, steps).wl.running
    ensures ExitSteps(steps) + StepsToExit(Run(c, s, steps)) <= StepsToExit(s) <= 5
    decreases steps
  {
    if steps != [] {
      assert !steps[0].Initialize?;
      StepKeepsThreads(c, s, steps[0]);
      StepTowardsExit(c, s, steps[0]);
      StoppedThreadsEnd(c, Apply(c, s, steps[0]), steps[1..]);
    }
  }

  /** The thread has exited, or can take a step unless a post keeps it from the mutex. */
  ghost predicate WriterGoesOn(c: Config, t: State) {
    t.writer == Exited || !t.poster.Nobody? || exists step :: IsWriterExit(step) && Enabled(c, t, step)
  }

  ghost predicate TimerGoesOn(c: Config, t: State) {
    t.timer == Off || exists step :: IsTimerExit(step) && Enabled(c, t, step)
  }

  /** Steps while stopThreads waits in its joins. */
  predicate WhileJoining(steps: seq<Step>) {
    forall k :: 0 <= k < |steps| ==> !steps[k].Initialize? && steps[k] != Stop && steps[k] != NotifyWriter
  }

  /** In every continuation both threads can go on until they have exited; as they take at most five steps, both
      joins return. */
  ghost predicate JoinsReturn(c: Config, t: State)
    requires ThreadsAgree(t)
  {
    forall steps :: Legal(c, t, steps) && WhileJoining(steps) ==>
      WriterGoesOn(c, Run(c, t, steps)) && TimerGoesOn(c, Run(c, t, steps))
  }

  /** stopThreads clears the flag and notifies without the mutexes of the two threads. Its joins return in every
      continuation exactly if, when a thread is notified, it is not between its test and its sleep. `mid` is what
      happens between the two notifications. */
  lemma StopReturnsExactly(c: Config, s: State, mid: seq<Step>)
    requires Inv(c, s) && s.stopping == Stored && WhileJoining(mid)
    requires ThreadsAgree(Apply(c, s, NotifyTimer)) && Legal(c, Apply(c, s, NotifyTimer), mid)
    ensures var v := Run(c, Apply(c, s, NotifyTimer), mid);
            && Enabled(c, v, NotifyWriter) && ThreadsAgree(Apply(c, v, NotifyWriter))
            && (JoinsReturn(c, Apply(c, v, NotifyWriter)) <==> s.timer != Looked && v.writer != Tested)
  {
    var u := Apply(c, s, NotifyTimer);
    StepKeepsInv(c, s, NotifyTimer);
    StaysStopped(c, u, mid);
    var v := Run(c, u, mid);
    StepKeepsInv(c, v, NotifyWriter);
    var t := Apply(c, v, NotifyWriter);
    if s.timer != Looked && v.writer != Tested {
      forall steps | Legal(c, t, steps) && WhileJoining(steps)
        ensures WriterGoesOn(c, Run(c, t, steps)) && TimerGoesOn(c, Run(c, t, steps))
      {
        StaysStopped(c, t, steps);
        CanGoOn(c, Run(c, t, steps));
      }
    } else {
      HangsOn(c, t);
    }
  }

  /** After the flag is cleared no thread starts to sleep, and one between its test and its sleep stays there or
      asleep, unless it is notified. */
  lemma {:induction false} StaysStopped(c: Config, s: State, steps: seq<Step>)
    requires Inv(c, s) && !s.wl.running && (s.stopping == Notifying || s.stopping == Notified)
    requires Legal(c, s, steps) && WhileJoining(steps)
    ensures var t := Run(c, s, steps);
            && Inv(c, t) && !t.wl.running && t.stopping == s.stopping
            && (t.timer == Looked || t.timer == Dozing <==> s.timer == Looked || s.timer == Dozing)
            && (s.writer != Tested && s.writer != Asleep ==> t.writer != Tested && t.writer != Asleep)
    decreases steps
  {
    if steps != [] {
      assert !steps[0].Initialize? && steps[0] != Stop && steps[0] != NotifyWriter;
      StepKeepsInv(c, s, steps[0]);
      StepStaysStopped(c, s, steps[0]);
      StaysStopped(c, Apply(c, s, steps[0]), steps[1..]);
    }
  }

  lemma StepStaysStopped(c: Config, s: State, step: Step)
    requires ThreadsAgree(s) && Enabled(c, s, step) && !s.wl.running && (s.stopping == Notifying || s.stopping == Notified)
    requires !step.Initialize? && step != Stop && step != NotifyWriter
    ensures var t := Apply(c, s, step);
            && !t.wl.running && t.stopping == s.stopping
            && (t.timer == Looked || t.timer == Dozing <==> s.timer == Looked || s.timer == Dozing)
            && (s.writer != Tested && s.writer != Asleep ==> t.writer != Tested && t.writer != Asleep)
  {
  }

  lemma CanGoOn(c: Config, t: State)
    requires ThreadsAgree(t) && !t.wl.running
    requires t.writer != Asleep && t.timer != Dozing
    ensures WriterGoesOn(c, t) && TimerGoesOn(c, t)
  {
    match t.writer {
      case Blocking(_) => assert Enabled(c, t, BlockingReturns(true));
      case Relocking(_) => assert t.poster == Nobody ==> Enabled(c, t, Finish);
      case Tested => assert Enabled(c, t, WriterSleeps);
      case AtTest => assert t.poster == Nobody ==> Enabled(c, t, WriterExits);
      case _ =>
    }
    match t.timer {
      case Reading(_) => assert Enabled(c, t, ReadFails);
      case Expired => assert Enabled(c, t, Expire(t.clock));
      case Looked => assert Enabled(c, t, TimerDozes);
      case Looking => assert Enabled(c, t, TimerExits(t.clock));
      case _ =>
    }
  }

  lemma HangsOn(c: Config, t: State)
    requires Inv(c, t) && t.stopping == Notified && (t.writer == Tested || t.timer == Looked || t.timer == Dozing)
    ensures !JoinsReturn(c, t)
  {
    if t.writer == Tested {
      var u := OneStep(c, t, WriterSleeps);
      AsleepStops(c, u);
    } else if t.timer == Looked {
      var u := OneStep(c, t, TimerDozes);
      DozingStops(c, u);
    } else {
      assert Legal(c, t, []) && WhileJoining([]) && Run(c, t, []) == t;
      DozingStops(c, t);
    }
  }

  lemma AsleepStops(c: Config, t: State)
    requires t.writer == Asleep && t.poster == Nobody
    ensures !WriterGoesOn(c, t)
  {
  }

  lemma DozingStops(c: Config, t: State)
    requires t.timer == Dozing
    ensures !TimerGoesOn(c, t)
  {
  }

  lemma OneStep(c: Config, t: State, step: Step) returns (u: State)
    requires ThreadsAgree(t) && Enabled(c, t, step) && (step == WriterSleeps || step == TimerDozes)
    ensures ThreadsAgree(Apply(c, t, step)) && u == Apply(c, t, step)
    ensures Legal(c, t, [step]) && WhileJoining([step]) && Run(c, t, [step]) == u
  {
    StepKeepsThreads(c, t, step);
    u := Apply(c, t, step);
    assert [step][1..] == [];
  }

  /** Both threads have nothing to do, test that, and are about to sleep when stopThreads clears the flag. */
  lemma StoppedBetween(c: Config) returns (t: State)
    ensures ThreadsAgree(t) && Reachable(c, t)
    ensures t.writer == Tested && t.timer == Looked && t.stopping == Stored && t.poster == Nobody && !t.wl.running
  {
    t := Initialized(c, 1);
    t := NextReachable(c, t, WriterTests);
    t := NextReachable(c, t, TimerLooks);
    t := NextReachable(c, t, Stop);
  }

  /** The lost wake-up: a thread finds nothing to do and the flag still set; stopThreads clears the flag and
      notifies nobody; then the thread goes to sleep, and the join waits for ever. Here it happens to both. */
  lemma LostWakeup(c: Config) returns (t: State)
    ensures Reachable(c, t) && ThreadsAgree(t) && t.stopping == Notified && t.writer == Asleep && t.timer == Dozing
    ensures t.poster == Nobody && !t.wl.running && !WriterGoesOn(c, t) && !TimerGoesOn(c, t)
  {
    t := StoppedBetween(c);
    t := NextReachable(c, t, NotifyTimer);
    t := NextReachable(c, t, NotifyWriter);
    t := BothSleep(c, t);
    AsleepStops(c, t);
    DozingStops(c, t);
  }

  lemma BothSleep(c: Config, s: State) returns (t: State)
    requires ThreadsAgree(s) && Reachable(c, s) && s.writer == Tested && s.timer == Looked
    ensures ThreadsAgree(t) && Reachable(c, t) && t == s.(writer := Asleep, timer := Dozing)
  {
    t := NextReachable(c, s, WriterSleeps);
    t := NextReachable(c, t, TimerDozes);
  }

  /** A wake-up once lost stays lost: without another post, and posts stop with the flag, the thread sleeps on. */
  lemma {:induction false} SleepsOn(c: Config, s: State, steps: seq<Step>)
    requires ThreadsAgree(s) && s.writer == Asleep && s.poster == Nobody && Legal(c, s, steps) && WhileJoining(steps)
    requires forall k :: 0 <= k < |steps| ==> !steps[k].Enter?
    ensures Run(c, s, steps).writer == Asleep && Run(c, s, steps).poster == Nobody
    decreases steps
  {
    if steps != [] {
      assert !steps[0].Enter? && !steps[0].Initialize? && steps[0] != Stop && steps[0] != NotifyWriter;
      StepKeepsThreads(c, s, steps[0]);
      SleepsOn(c, Apply(c, s, steps[0]), steps[1..]);
    }
  }

  /** No post and no increment loses its wake-up: in every reachable state a thread that is asleep, or about to
      sleep, has nothing to do. */
  lemma NoWorkForSleepers(c: Config, now: nat, steps: seq<Step>)
    requires Legal(c, Constructed(now), steps)
    ensures var t := Run(c, Constructed(now), steps);
            && (t.writer == Tested || t.writer == Asleep ==> t.backlog == [])
            && (t.timer == Looked || t.timer == Dozing ==> t.wl.count == 0)
  {
    InvOverRun(c, Constructed(now), steps);
  }

  // ---------------------------------------------------------------- posts

  /** A post has taken the mutex. */
  function AfterEnter(c: Config, s: State, post: Post): (t: State)
    requires ThreadsAgree(s) && Enabled(c, s, Enter(post))
    ensures ThreadsAgree(t) && t.poster == Entered(post) && t.posts == s.posts && t.posted == s.posted + post.events
  {
    StepKeepsThreads(c, s, Enter(post));
    Apply(c, s, Enter(post))
  }

  // ---------------------------------------------------------------- runs of one thread among others

  /** StoppingThread: the one that stops and initializes the proxy. */
  datatype Thread = PendingWrites | WakelockThread | PostingThread | StoppingThread

  /** The steps only the given thread takes; no initialization happens before it has exited. */
  predicate IsBy(who: Thread, step: Step) {
    match step
    case WriterTests => who == PendingWrites
    case WriterSleeps => who == PendingWrites
    case Begin => who == PendingWrites
    case BlockingReturns(_) => who == PendingWrites
    case Finish => who == PendingWrites
    case WriterExits => who == PendingWrites
    case TimerLooks => who == WakelockThread
    case TimerDozes => who == WakelockThread
    case Check(_) => who == WakelockThread
    case Expire(_) => who == WakelockThread
    case Ack(_) => who == WakelockThread
    case ReadFails => who == WakelockThread
    case TimerExits(_) => who == WakelockThread
    case Count(_) => who == PostingThread
    case Decide(_) => who == PostingThread
    case WriteReturns(_) => who == PostingThread
    case Stop => who == StoppingThread
    case NotifyTimer => who == StoppingThread
    case NotifyWriter => who == StoppingThread
    case Initialize(_, _) => true
    case _ => false
  }

  /** The steps of a run that the given thread takes, in order. */
  function OwnSteps(who: Thread, steps: seq<Step>): seq<Step> {
    if steps == [] then [] else (if IsBy(who, steps[0]) then [steps[0]] else []) + OwnSteps(who, steps[1..])
  }

  /** Some legal run leads from `s` to `t` in which the thread takes exactly the steps `own`, in this order. */
  ghost predicate LeadsBy(c: Config, who: Thread, s: State, t: State, own: seq<Step>)
    requires ThreadsAgree(s)
  {
    exists steps :: Legal(c, s, steps) && OwnSteps(who, steps) == own && Run(c, s, steps) == t
  }

  lemma {:induction false} OwnStepsConcat(who: Thread, a: seq<Step>, b: seq<Step>)
    ensures OwnSteps(who, a + b) == OwnSteps(who, a) + OwnSteps(who, b)
  {
    if a == [] {
      assert a + b == b;
    } else {
      assert (a + b)[1..] == a[1..] + b;
      OwnStepsConcat(who, a[1..], b);
    }
  }

  lemma {:induction false} RunConcat(c: Config, s: State, a: seq<Step>, b: seq<Step>)
    requires ThreadsAgree(s) && Legal(c, s, a) && Legal(c, Run(c, s, a), b)
    ensures Legal(c, s, a + b) && Run(c, s, a + b) == Run(c, Run(c, s, a), b)
    decreases a
  {
    if a == [] {
      assert a + b == b;
    } else {
      StepKeepsThreads(c, s, a[0]);
      RunConcat(c, Apply(c, s, a[0]), a[1..], b);
      assert (a + b)[1..] == a[1..] + b;
    }
  }

  lemma LeadsByNothing(c: Config, who: Thread, s: State)
    requires ThreadsAgree(s)
    ensures LeadsBy(c, who, s, s, [])
  {
    assert Legal(c, s, []) && OwnSteps(who, []) == [] && Run(c, s, []) == s;
  }

  lemma LeadsByOwn(c: Config, who: Thread, s: State, t: State, own: seq<Step>, step: Step)
    requires ThreadsAgree(s) && LeadsBy(c, who, s, t, own) && ThreadsAgree(t) && Enabled(c, t, step) && IsBy(who, step)
    ensures ThreadsAgree(Apply(c, t, step)) && LeadsBy(c, who, s, Apply(c, t, step), own + [step])
  {
    StepKeepsThreads(c, t, step);
    var steps :| Legal(c, s, steps) && OwnSteps(who, steps) == own && Run(c, s, steps) == t;
    RunThenStep(c, s, steps, step);
    OwnStepsConcat(who, steps, [step]);
    assert OwnSteps(who, [step]) == [step];
  }

  lemma LeadsByMore(c: Config, who: Thread, s: State, t: State, u: State, own: seq<Step>, more: seq<Step>)
    requires ThreadsAgree(s) && LeadsBy(c, who, s, t, own) && ThreadsAgree(t) && LeadsBy(c, who, t, u, more)
    ensures LeadsBy(c, who, s, u, own + more)
  {
    var a :| Legal(c, s, a) && OwnSteps(who, a) == own && Run(c, s, a) == t;
    var b :| Legal(c, t, b) && OwnSteps(who, b) == more && Run(c, t, b) == u;
    RunConcat(c, s, a, b);
    OwnStepsConcat(who, a, b);
    assert OwnSteps(who, a + b) == own + more;
  }

  lemma LeadsByKeepsInv(c: Config, who: Thread, s: State, t: State, own: seq<Step>)
    requires Inv(c, s) && LeadsBy(c, who, s, t, own)
    ensures Inv(c, t)
  {
    var steps :| Legal(c, s, steps) && OwnSteps(who, steps) == own && Run(c, s, steps) == t;
    InvOverRun(c, s, steps);
  }

  // ---------------------------------------------------------------- interference

  predicate ByOthers(who: Thread, steps: seq<Step>) {
    forall k :: 0 <= k < |steps| ==> !IsBy(who, steps[k])
  }

  /** Any number of steps of the other threads lead from `s` to `t`. */
  ghost predicate OthersLead(c: Config, who: Thread, s: State, t: State)
    requires ThreadsAgree(s)
  {
    exists steps :: Legal(c, s, steps) && ByOthers(who, steps) && Run(c, s, steps) == t
  }

  lemma OthersMayRest(c: Config, who: Thread, s: State)
    requires ThreadsAgree(s)
    ensures OthersLead(c, who, s, s)
  {
    assert Legal(c, s, []) && ByOthers(who, []) && Run(c, s, []) == s;
  }

  lemma OthersGoOn(c: Config, who: Thread, s: State, t: State, step: Step)
    requires ThreadsAgree(s) && OthersLead(c, who, s, t) && ThreadsAgree(t) && Enabled(c, t, step) && !IsBy(who, step)
    ensures ThreadsAgree(Apply(c, t, step)) && OthersLead(c, who, s, Apply(c, t, step))
  {
    StepKeepsThreads(c, t, step);
    var steps :| Legal(c, s, steps) && ByOthers(who, steps) && Run(c, s, steps) == t;
    RunThenStep(c, s, steps, step);
    assert ByOthers(who, steps + [step]);
  }

  /** While a post holds the mutex the others leave it, the backlog and what was posted alone. */
  predicate HeldByPost(s: State, t: State) {
    !s.poster.Nobody? ==>
      t.poster == s.poster && t.posts == s.posts && t.posted == s.posted && t.backlog == s.backlog
  }

  /** The others leave the program counter of a thread alone, but that they may wake it up. */
  predicate WriterLeft(s: State, t: State) {
    t.writer == s.writer || (s.writer == Asleep && t.writer == AtTest)
  }

  predicate TimerLeft(s: State, t: State) {
    t.timer == s.timer || (s.timer == Dozing && t.timer == Looking)
  }

  /** In the middle of a pass nothing else reaches the event queue, and only the pending-writes thread drops events. */
  predicate DrainLeft(s: State, t: State) {
    && s.written <= t.written && t.dropped == s.dropped
    && (s.writer.Blocking? || s.writer.Relocking? ==> t.written == s.written)
  }

  /** A thread that sleeps on, or still holds its mutex, has as little to do as before. */
  predicate WriterUndisturbed(s: State, t: State) {
    && (t.writer == Asleep ==> s.writer == Asleep && t.backlog == s.backlog)
    && (s.writer == Tested && s.poster == Nobody ==> t.poster == Nobody && t.backlog == s.backlog)
  }

  predicate TimerUndisturbed(s: State, t: State) {
    (s.timer == Looked || s.timer == Dozing) && t.timer == s.timer && s.wl.count == 0 ==> t.wl.count == 0
  }

  predicate StopLeft(s: State, t: State) {
    t.stopping == s.stopping && (!s.wl.running ==> !t.wl.running)
  }

  /** What the other threads leave alone: the program counter of the thread, and, but for the thread that
      drains it, the backlog up to its end. */
  lemma {:induction false} OthersKeep(c: Config, who: Thread, s: State, steps: seq<Step>)
    requires ThreadsAgree(s) && Legal(c, s, steps) && ByOthers(who, steps)
    ensures var t := Run(c, s, steps);
            && (who == PendingWrites ==> WriterLeft(s, t) && s.backlog <= t.backlog && t.quantum == s.quantum)
            && (who == PendingWrites ==> WriterUndisturbed(s, t) && DrainLeft(s, t))
            && (who == WakelockThread ==> TimerLeft(s, t) && TimerUndisturbed(s, t))
            && (who == PostingThread ==> HeldByPost(s, t))
            && (who == StoppingThread ==> StopLeft(s, t))
    decreases steps
  {
    if steps != [] {
      var t := Apply(c, s, steps[0]);
      StepKeepsThreads(c, s, steps[0]);
      OtherStepKeeps(c, who, s, steps[0]);
      assert ByOthers(who, steps[1..]);
      OthersKeep(c, who, t, steps[1..]);
    }
  }

  lemma OtherStepKeeps(c: Config, who: Thread, s: State, step: Step)
    requires ThreadsAgree(s) && Enabled(c, s, step) && !IsBy(who, step)
    ensures var t := Apply(c, s, step);
            && (who == PendingWrites ==> WriterLeft(s, t) && s.backlog <= t.backlog && t.quantum == s.quantum)
            && (who == PendingWrites ==> WriterUndisturbed(s, t) && DrainLeft(s, t))
            && (who == WakelockThread ==> TimerLeft(s, t) && TimerUndisturbed(s, t))
            && (who == PostingThread ==> HeldByPost(s, t))
            && (who == StoppingThread ==> StopLeft(s, t))
  {
  }

  lemma {:induction false} NoneIsOwn(who: Thread, steps: seq<Step>)
    requires ByOthers(who, steps)
    ensures OwnSteps(who, steps) == []
  {
    if steps != [] {
      assert !IsBy(who, steps[0]);
      assert ByOthers(who, steps[1..]);
      NoneIsOwn(who, steps[1..]);
    }
  }

  lemma Interfered(c: Config, who: Thread, s: State, t: State, u: State, own: seq<Step>)
    requires ThreadsAgree(s) && LeadsBy(c, who, s, t, own) && ThreadsAgree(t) && OthersLead(c, who, t, u)
    ensures LeadsBy(c, who, s, u, own) && ThreadsAgree(u)
    ensures who == PendingWrites ==> WriterLeft(t, u) && t.backlog <= u.backlog && u.quantum == t.quantum
    ensures who == PendingWrites ==> WriterUndisturbed(t, u) && DrainLeft(t, u)
    ensures who == WakelockThread ==> TimerLeft(t, u) && TimerUndisturbed(t, u)
    ensures who == PostingThread ==> HeldByPost(t, u)
    ensures who == StoppingThread ==> StopLeft(t, u)
  {
    var steps :| Legal(c, t, steps) && ByOthers(who, steps) && Run(c, t, steps) == u;
    OthersKeep(c, who, t, steps);
    NoneIsOwn(who, steps);
    assert LeadsBy(c, who, t, u, []);
    LeadsByMore(c, who, s, t, u, own, []);
    assert own + [] == own;
  }
}
