/** What holds over every run of gadget requests and their monitors. */
module GadgetRuns {
  import opened Common
  import opened GadgetPlan
  import opened GadgetProtocol

  predicate Legal(s: State, steps: seq<Step>)
    decreases steps
  {
    steps == [] || (Enabled(s, steps[0]) && Legal(Apply(s, steps[0]), steps[1..]))
  }

  function Run(s: State, steps: seq<Step>): State
    requires Legal(s, steps)
    decreases steps
  {
    if steps == [] then s else Run(Apply(s, steps[0]), steps[1..])
  }

  lemma {:induction false} InvOverRun(s: State, steps: seq<Step>)
    requires Inv(s) && Legal(s, steps)
    ensures Inv(Run(s, steps))
    decreases steps
  {
    if steps != [] {
      StepKeepsInv(s, steps[0]);
      InvOverRun(Apply(s, steps[0]), steps[1..]);
    }
  }

  ghost predicate Reachable(t: State) {
    exists links, steps :: Legal(Started(links), steps) && Run(Started(links), steps) == t
  }

  lemma ReachableInv(t: State)
    requires Reachable(t)
    ensures Inv(t)
  {
    var links, steps :| Legal(Started(links), steps) && Run(Started(links), steps) == t;
    assert Due([]) == [];
    InvOverRun(Started(links), steps);
  }

  // ---------------------------------------------------------------- reports

  const ADB := NONE.(adb := true)
  const MTP := NONE.(mtp := true)

  /** Soundness of the report: a success reported for a request with endpoints to watch comes from that
      request's own monitor, which watched exactly the endpoints of the request and wrote the UDC node right after a
      look that saw every one of them. */
  lemma ReportSoundness(s: State, step: Step, r: Report) returns (look: nat)
    requires Reachable(s) && Enabled(s, step) && Apply(s, step).reports == s.reports + [r]
    requires r.status == Success && IsFfs(r.functions)
    ensures s.monitor.Some? && s.monitor.value.owner == r.number == s.number
    ensures s.monitor.value.endpoints == Endpoints(r.functions)
    ensures var trace := s.monitor.value.trace;
            && look + 1 < |trace| && trace[look].Observed? && trace[look + 1] == WroteUdc(true)
            && forall e :: e in Endpoints(r.functions) ==> e in trace[look].seen
  {
    ReachableInv(s);
    SuccessIsToldOnWaking(s, step, r);
    look := SawEverything(s.monitor.value.trace, Endpoints(r.functions));
  }

  lemma SawEverything(trace: seq<MonitorEvent>, endpoints: seq<Endpoint>) returns (look: nat)
    requires PulledUp(trace, endpoints)
    ensures look + 1 < |trace| && trace[look].Observed? && trace[look + 1] == WroteUdc(true)
    ensures forall e :: e in endpoints ==> e in trace[look].seen
  {
    var j :| 0 < j < |trace| && trace[j] == WroteUdc(true) && IsFullLook(trace[j - 1], endpoints);
    look := j - 1;
  }

  lemma SuccessIsToldOnWaking(s: State, step: Step, r: Report)
    requires Enabled(s, step) && Apply(s, step).reports == s.reports + [r]
    requires r.status == Success && IsFfs(r.functions)
    ensures step.Wake? && s.pullup && r.number == s.number && r.functions == s.phase.req.functions
  {
    assert Apply(s, step).reports[|s.reports|] == r;
    assert IsRequestStep(step);
    RequestTellsOnWaking(s, step, r);
  }

  lemma RequestTellsOnWaking(s: State, step: Step, r: Report)
    requires Enabled(s, step) && IsRequestStep(step) && RequestAfter(s, step).reports == s.reports + [r]
    requires r.status == Success && IsFfs(r.functions)
    ensures step.Wake? && s.pullup && r.number == s.number && r.functions == s.phase.req.functions
  {
    assert RequestAfter(s, step).reports[|s.reports|] == r;
  }

  /** Every request with a callback is told its outcome exactly once, in the order of the requests, and one
      without a callback never: between requests the reports are exactly those due. */
  lemma ReportedExactlyOnce(s: State)
    requires Reachable(s)
    ensures Told(s.reports) == Due(s.finished) + ToldEarly(s)
    ensures s.phase == Idle ==> Told(s.reports) == Due(s.finished) && s.number == |s.finished|
  {
    ReachableInv(s);
  }

  // ---------------------------------------------------------------- lifecycle of the monitor

  /** A new monitor is created only when there is none, and one that exists ends only by being joined after
      it is done. */
  lemma OneMonitor(s: State, step: Step)
    requires Reachable(s) && Enabled(s, step)
    ensures var t := Apply(s, step);
            && (t.monitor.Some? && (s.monitor == None || t.monitor.value.owner != s.monitor.value.owner) ==>
                  s.monitor == None && !s.created && step.SetupFfs?)
            && (s.monitor.Some? && t.monitor == None ==> step == Joined && s.monitor.value.pc == Done)
  {
    ReachableInv(s);
  }

  /** The endpoint list a monitor reads never changes while it exists. */
  lemma EndpointsStay(s: State, step: Step)
    requires Reachable(s) && Enabled(s, step) && s.monitor.Some? && Apply(s, step).monitor.Some?
    ensures Apply(s, step).endpoints == s.endpoints
  {
    ReachableInv(s);
  }

  /** The steps of a monitor that is to be joined, but for inotify events. */
  predicate IsJoinStep(step: Step) {
    IsMonitorStep(step) && !step.Event?
  }

  /** The step a monitor takes next, whatever it is answered: which endpoints it finds, whether its write works. */
  function NextJoinStep(m: Monitor, present: set<Endpoint>, ok: bool): (step: Step)
    requires m.pc != Done
    ensures IsJoinStep(step) && m.pc == PcOf(step)
  {
    match m.pc
    case Scanning => Scan(present)
    case Pulling => WriteUdc(ok)
    case Publishing => Publish
    case Polling => StopMonitor
  }

  lemma JoinStepsCount(m: Monitor, step: Step)
    requires IsJoinStep(step) && m.pc == PcOf(step)
    ensures StepsToEnd(MonitorAfter(m, step)) < StepsToEnd(m)
  {
  }

  /** While a request waits in join, the lock the monitor needs is free and the stop flag is set; each step of the
      monitor, however it is answered, brings it closer to its end; until it has ended a step is enabled under any
      answer; so every run of its own steps ends it, after at most four, and the join returns. */
  lemma {:induction false} JoinCompletes(s: State, steps: seq<Step>)
    requires Inv(s) && s.phase.Joining?
    requires Legal(s, steps) && forall k :: 0 <= k < |steps| ==> IsJoinStep(steps[k])
    ensures !s.lockHeld && s.stopFlag && s.monitor.Some?
    ensures var t := Run(s, steps);
            && t.monitor.Some? && |steps| + StepsToEnd(t.monitor.value) <= StepsToEnd(s.monitor.value) <= 4
            && (if t.monitor.value.pc == Done then Enabled(t, Joined)
                else forall present, ok :: Enabled(t, NextJoinStep(t.monitor.value, present, ok)))
    decreases steps
  {
    if steps != [] {
      assert IsJoinStep(steps[0]);
      StepKeepsInv(s, steps[0]);
      JoinStepsCount(s.monitor.value, steps[0]);
      JoinCompletes(Apply(s, steps[0]), steps[1..]);
    }
  }

  /** A monitor writes the UDC node successfully only right after a look that saw every endpoint. */
  lemma MonitorWritesAfterFullLooks(s: State, m: Monitor, j: nat)
    requires Reachable(s) && s.monitor == Some(m) && j < |m.trace| && m.trace[j] == WroteUdc(true)
    ensures j > 0 && m.trace[j - 1].Observed? && forall e :: e in m.endpoints ==> e in m.trace[j - 1].seen
  {
    ReachableInv(s);
    assert IsFullLook(m.trace[j - 1], m.endpoints);
  }

  /** Between two successful writes of a monitor some look missed an endpoint. */
  lemma MonitorAlternates(s: State, m: Monitor, i: nat, j: nat) returns (k: nat)
    requires Reachable(s) && s.monitor == Some(m)
    requires i < j < |m.trace| && m.trace[i] == WroteUdc(true) && m.trace[j] == WroteUdc(true)
    ensures i < k < j && m.trace[k].Observed? && exists e :: e in m.endpoints && e !in m.trace[k].seen
  {
    ReachableInv(s);
    k :| i < k < j && MissesOne(m.trace[k], m.endpoints);
  }

  // ---------------------------------------------------------------- configuration

  /** Whatever earlier requests did or failed at, a setup that succeeds leaves exactly function0 to
      function(n-1), linked in order to the functions the request and the vendor property ask for; and a setup
      with endpoints to watch leaves exactly those of the request. */
  lemma SetupLinksExactly(s: State, step: Step)
    requires Reachable(s) && Enabled(s, step) && (step.SetupFfs? || step.SetupWithoutFfs?)
    ensures FunctionsOf(Apply(s, step).links) == Links(Plan(s.phase.req.functions, step.vendor))
    ensures step.SetupFfs? ==> Apply(s, step).endpoints == Endpoints(s.phase.req.functions)
  {
    ReachableInv(s);
    var req := s.phase.req;
    LinkAllExactly(s.links, Plan(req.functions, step.vendor));
    SetupLinks(s, step);
  }

  lemma SetupLinks(s: State, step: Step)
    requires Enabled(s, step) && (step.SetupFfs? || step.SetupWithoutFfs?)
    ensures Apply(s, step).links == LinkAll(s.links, Plan(s.phase.req.functions, step.vendor))
    ensures step.SetupFfs? && s.endpoints == [] ==> Apply(s, step).endpoints == Endpoints(s.phase.req.functions)
  {
    var t := RequestAfter(s, step);
    assert Apply(s, step) == t;
    if step.SetupFfs? && s.endpoints == [] {
      var e := Endpoints(s.phase.req.functions);
      assert t.endpoints == [] + e == e;
    }
  }

  /** A teardown that succeeds leaves no function, whatever there was. */
  lemma TeardownLeavesNone(s: State)
    requires Reachable(s) && s.phase.TornDown?
    ensures FunctionsOf(s.links) == map[] && s.endpoints == [] && s.monitor == None
  {
    ReachableInv(s);
  }

  /** Names that are not functions are never touched. */
  lemma {:induction false} OthersUntouched(s: State, steps: seq<Step>)
    requires Inv(s) && Legal(s, steps)
    ensures OthersOf(Run(s, steps).links) == OthersOf(s.links)
    decreases steps
  {
    if steps != [] {
      var t := Apply(s, steps[0]);
      StepKeepsInv(s, steps[0]);
      StepKeepsOthers(s, steps[0]);
      OthersUntouched(t, steps[1..]);
    }
  }

  lemma StepKeepsOthers(s: State, step: Step)
    requires Inv(s) && Enabled(s, step)
    ensures OthersOf(Apply(s, step).links) == OthersOf(s.links)
  {
    if step.SetupFails? {
      LinkAllExactly(s.links, Plan(s.phase.req.functions, step.vendor)[..step.linked]);
    } else if step.SetupWithoutFfs? || step.SetupFfs? {
      LinkAllExactly(s.links, Plan(s.phase.req.functions, step.vendor));
    } else if step == Unlinked {
      NoFunctionsAmongOthers(s.links);
    } else if step.TearDownFails? {
      RemovingFunctionsKeepsOthers(s.links, step.removed);
    } else {
      LinksChangeOnlyThere(s, step);
    }
  }

  lemma RemovingFunctionsKeepsOthers(d: Directory, removed: set<Name>)
    requires forall n :: n in removed ==> IsFunctionName(n)
    ensures OthersOf(d - removed) == OthersOf(d)
  {
  }

  lemma LinksChangeOnlyThere(s: State, step: Step)
    requires Enabled(s, step)
    requires !step.SetupFails? && !step.SetupWithoutFfs? && !step.SetupFfs? && step != Unlinked && !step.TearDownFails?
    ensures Apply(s, step).links == s.links
  {
    if IsRequestStep(step) {
      RequestKeepsLinks(s, step);
    }
  }

  lemma RequestKeepsLinks(s: State, step: Step)
    requires Enabled(s, step) && IsRequestStep(step)
    requires !step.SetupFails? && !step.SetupWithoutFfs? && !step.SetupFfs? && step != Unlinked && !step.TearDownFails?
    ensures RequestAfter(s, step).links == s.links
  {
    match step
    case FinishNone => FinishKeepsLinks(s, s.phase.req, Some(Success));
    case Return => FinishKeepsLinks(s, s.phase.req, if s.phase.status == Success then None else Some(s.phase.status));
    case _ =>
  }

  lemma FinishKeepsLinks(s: State, req: Request, status: Option<Status>)
    ensures Finish(s, req, status).links == s.links
  {
  }

  // ---------------------------------------------------------------- the applied flag

  lemma {:induction false} RunThenStep(s: State, steps: seq<Step>, step: Step)
    requires Legal(s, steps) && Enabled(Run(s, steps), step)
    ensures Legal(s, steps + [step]) && Run(s, steps + [step]) == Apply(Run(s, steps), step)
    decreases steps
  {
    if steps == [] {
      assert steps + [step] == [step] && [step][1..] == [];
    } else {
      RunThenStep(Apply(s, steps[0]), steps[1..], step);
      assert (steps + [step])[1..] == steps[1..] + [step];
    }
  }

  lemma Next(s: State, step: Step) returns (t: State)
    requires Reachable(s) && Enabled(s, step)
    ensures t == Apply(s, step) && Reachable(t)
  {
    t := Apply(s, step);
    var links, steps :| Legal(Started(links), steps) && Run(Started(links), steps) == s;
    RunThenStep(Started(links), steps, step);
  }

  lemma AdbTornDown(links: Directory) returns (s: State)
    ensures Reachable(s) && s.phase == TornDown(Request(ADB, false))
    ensures !s.applied && !s.lockHeld && !s.stopFlag && s.number == 1 && s.reports == [] && s.endpoints == []
  {
    s := Started(links);
    assert Legal(s, []) && Run(s, []) == s;
    s := Next(s, Call(Request(ADB, false)));
    s := Next(s, PullDown(true));
    s := Next(s, Unlinked);
  }

  /** A request for ADB without a callback, whose monitor has not begun. */
  lemma AdbRequested(links: Directory) returns (s: State)
    ensures Reachable(s) && s.phase == Idle && s.created && MonitorAt(s, Scanning)
    ensures !s.applied && !s.lockHeld && s.number == 1 && s.reports == []
  {
    s := AdbTornDown(links);
    s := AdbStarted(s);
    s := Next(s, Wait);
    s := Next(s, Return);
  }

  lemma AdbStarted(s: State) returns (t: State)
    requires Reachable(s) && s.phase == TornDown(Request(ADB, false))
    ensures Reachable(t) && t.phase == Starting(Request(ADB, false)) && t.created && MonitorAt(t, Scanning)
    ensures t.applied == s.applied && t.number == s.number && t.reports == s.reports
  {
    t := Next(s, SetupFfs(""));
  }

  /** The monitor of that request is about to publish when the next request arrives and goes to join it. */
  lemma JoiningPublisher(links: Directory) returns (s: State)
    ensures Reachable(s) && s.phase == Joining(Request(MTP, true))
    ensures MonitorAt(s, Publishing) && !s.lockHeld && !s.applied && s.stopFlag && s.number == 2 && s.reports == []
  {
    s := AdbRequested(links);
    s := ScannedAndWritten(s);
    s := Next(s, Call(Request(MTP, true)));
    s := Next(s, PullDown(true));
    s := Next(s, Unlinked);
  }

  lemma ScannedAndWritten(s: State) returns (t: State)
    requires Reachable(s) && MonitorAt(s, Scanning)
    ensures Reachable(t) && MonitorAt(t, Publishing) && t == s.(monitor := t.monitor, bound := true)
  {
    t := Next(s, Scan(set e | e in s.monitor.value.endpoints));
    t := Next(t, WriteUdc(true));
  }

  lemma JoinedPublisher(links: Directory) returns (s: State)
    ensures Reachable(s) && s.phase == TornDown(Request(MTP, true)) && s.applied && s.number == 2 && s.reports == []
  {
    s := JoiningPublisher(links);
    s := Next(s, Publish);
    s := Next(s, StopMonitor);
    s := Next(s, Joined);
  }

  lemma MtpWaiting(links: Directory) returns (s: State)
    ensures Reachable(s) && s.phase == Waiting(Request(MTP, true)) && !s.pullup && !s.lockHeld && s.applied
    ensures s.reports == [] && s.number == 2
  {
    s := JoinedPublisher(links);
    s := Next(s, SetupFfs(""));
    s := Next(s, Wait);
  }

  /** mCurrentUsbFunctionsApplied is no evidence of the request in progress: the monitor of the request before
      can set it after the new request has cleared it, and then it still says applied when the new request has
      timed out and reported an error. */
  lemma AppliedFlagMisleads(links: Directory) returns (s: State)
    ensures Reachable(s) && s.phase == Idle && s.applied && !s.pullup
    ensures s.reports == [Report(2, MTP, Error)]
  {
    s := MtpWaiting(links);
    s := Next(s, Wake(true));
    s := Next(s, Return);
  }

  // ---------------------------------------------------------------- composing runs

  /** Some legal run leads from `s` to `t`. */
  ghost predicate Leads(s: State, t: State) {
    exists steps :: Legal(s, steps) && Run(s, steps) == t
  }

  lemma LeadsNowhere(s: State)
    ensures Leads(s, s)
  {
    assert Legal(s, []) && Run(s, []) == s;
  }

  lemma LeadsNext(s: State, t: State, step: Step)
    requires Leads(s, t) && Enabled(t, step)
    ensures Leads(s, Apply(t, step))
  {
    var steps :| Legal(s, steps) && Run(s, steps) == t;
    RunThenStep(s, steps, step);
  }

  lemma {:induction false} LeadsAlong(s: State, t: State, steps: seq<Step>)
    requires Leads(s, t) && Legal(t, steps)
    ensures Leads(s, Run(t, steps))
    decreases steps
  {
    if steps != [] {
      LeadsNext(s, t, steps[0]);
      LeadsAlong(s, Apply(t, steps[0]), steps[1..]);
    }
  }

  lemma LeadsKeepsInv(s: State, t: State)
    requires Inv(s) && Leads(s, t)
    ensures Inv(t)
  {
    var steps :| Legal(s, steps) && Run(s, steps) == t;
    InvOverRun(s, steps);
  }

  lemma LeadsKeepsOthers(s: State, t: State)
    requires Inv(s) && Leads(s, t)
    ensures OthersOf(t.links) == OthersOf(s.links)
  {
    var steps :| Legal(s, steps) && Run(s, steps) == t;
    OthersUntouched(s, steps);
  }

  // ---------------------------------------------------------------- from one call to the next

  /** What the environment of a request may do: whether its write of "none" may fail, whether the data signal may
      be turned on. */
  datatype Environment = Environment(writeFails: bool, signalOn: bool)

  const QUIET := Environment(false, false)
  const ANY := Environment(true, true)

  /** Steps up to the next call. */
  predicate Stays(step: Step, env: Environment) {
    && !step.Call?
    && (step == PullDown(false) ==> env.writeFails)
    && (step.DataSignal? && step.enable ==> env.signalOn)
  }

  predicate AllStay(steps: seq<Step>, env: Environment) {
    forall k :: 0 <= k < |steps| ==> Stays(steps[k], env)
  }

  /** Some run without another call leads from `s` to `t`. */
  ghost predicate Reaches(s: State, t: State, env: Environment) {
    exists steps :: Legal(s, steps) && AllStay(steps, env) && Run(s, steps) == t
  }

  lemma ReachesHere(s: State, env: Environment)
    ensures Reaches(s, s, env)
  {
    assert Legal(s, []) && AllStay([], env) && Run(s, []) == s;
  }

  lemma ReachesNext(s: State, t: State, step: Step, env: Environment) returns (u: State)
    requires Reaches(s, t, env) && Enabled(t, step) && Stays(step, env)
    ensures u == Apply(t, step) && Reaches(s, u, env)
  {
    u := Apply(t, step);
    var steps :| Legal(s, steps) && AllStay(steps, env) && Run(s, steps) == t;
    RunThenStep(s, steps, step);
    assert AllStay(steps + [step], env);
  }

  lemma QuietReaches(s: State, t: State, env: Environment)
    requires Reaches(s, t, QUIET)
    ensures Reaches(s, t, env)
  {
    var steps :| Legal(s, steps) && AllStay(steps, QUIET) && Run(s, steps) == t;
    assert AllStay(steps, env);
  }

  function Everything(s: State): set<Endpoint>
    requires s.monitor.Some?
  {
    set e | e in s.monitor.value.endpoints
  }

  /** An existing monitor, wherever it is, can come to write the UDC node once more. */
  lemma MonitorWrites(s: State, t: State) returns (u: State)
    requires Reaches(s, t, QUIET) && Inv(t) && t.phase.TearingDown? && t.monitor.Some?
    ensures Reaches(s, u, QUIET) && u == t.(monitor := u.monitor, bound := true, applied := u.applied, pullup := u.pullup)
    ensures MonitorAt(u, Publishing)
  {
    u := t;
    if MonitorAt(u, Publishing) {
      u := ReachesNext(s, u, Publish, QUIET);
    }
    if MonitorAt(u, Scanning) {
      u := ReachesNext(s, u, Scan(Everything(u)), QUIET);
    } else if MonitorAt(u, Polling) {
      u := PollingPulls(s, u);
    }
    u := ReachesNext(s, u, WriteUdc(true), QUIET);
  }

  lemma PollingPulls(s: State, t: State) returns (u: State)
    requires Reaches(s, t, QUIET) && MonitorAt(t, Polling) && t.monitor.value.endpoints != []
    ensures Reaches(s, u, QUIET) && u == t.(monitor := u.monitor)
    ensures MonitorAt(u, Pulling)
  {
    u := t;
    var first := u.monitor.value.endpoints[0];
    assert first in u.monitor.value.endpoints && first !in {};
    assert !AllPresent(u.monitor.value.endpoints, {});
    if !u.monitor.value.writeUdc {
      u := ReachesNext(s, u, Event({}), QUIET);
    }
    assert u.monitor.value.writeUdc && AllPresent(u.monitor.value.endpoints, Everything(u));
    u := ReachesNext(s, u, Event(Everything(u)), QUIET);
  }

  /** A request whose teardown removed the functions, and whose old monitor wrote and published in the meantime. */
  lemma OldMonitorPublishes(s: State, req: Request) returns (u: State)
    requires Inv(s) && s.phase == Idle && s.monitor.Some?
    ensures Reaches(Apply(s, Call(req)), u, QUIET)
    ensures u.phase == TornDown(req) && u.applied && u.bound
  {
    var called := Apply(s, Call(req));
    StepKeepsInv(s, Call(req));
    ReachesHere(called, QUIET);
    u := ReachesNext(called, called, PullDown(true), QUIET);
    StepKeepsInv(called, PullDown(true));
    u := MonitorWrites(called, u);
    u := JoinedAfterWrite(called, u);
  }

  lemma JoinedAfterWrite(s: State, t: State) returns (u: State)
    requires Reaches(s, t, QUIET) && t.phase.TearingDown? && MonitorAt(t, Publishing) && !t.lockHeld && t.created
    ensures Reaches(s, u, QUIET) && u.phase == TornDown(t.phase.req) && u.applied && u.bound == t.bound
  {
    u := ReachesNext(s, t, Publish, QUIET);
    u := ReachesNext(s, u, Unlinked, QUIET);
    u := ReachesNext(s, u, StopMonitor, QUIET);
    u := ReachesNext(s, u, Joined, QUIET);
  }

  // ---------------------------------------------------------------- the applied flag, exactly

  /** From the call of a request to the next one the flag is set only while gadgetPullup is. */
  ghost predicate FlagIsRight(s: State, req: Request)
    requires s.phase == Idle
  {
    forall t :: Reaches(Apply(s, Call(req)), t, ANY) ==> (t.applied ==> t.pullup)
  }

  /** For a request with endpoints to watch, mCurrentUsbFunctionsApplied is right in every interleaving up to the
      next call exactly if there is no monitor when the call arrives. */
  lemma AppliedFlagExactly(s: State, req: Request)
    requires Reachable(s) && s.phase == Idle && IsFfs(req.functions)
    ensures FlagIsRight(s, req) <==> s.monitor == None
  {
    ReachableInv(s);
    var called := Apply(s, Call(req));
    if s.monitor.Some? {
      var u := OldMonitorPublishes(s, req);
      var t := SetUp(called, u);
      assert Reaches(called, t, ANY) && t.applied && !t.pullup;
    } else {
      forall t | Reaches(called, t, ANY) ensures t.applied ==> t.pullup {
        var steps :| Legal(called, steps) && AllStay(steps, ANY) && Run(called, steps) == t;
        FlagStaysRight(called, steps);
      }
    }
  }

  lemma SetUp(called: State, u: State) returns (t: State)
    requires Reaches(called, u, QUIET) && u.phase.TornDown? && IsFfs(u.phase.req.functions) && u.applied
    ensures Reaches(called, t, ANY) && t.applied && !t.pullup
  {
    t := ReachesNext(called, u, SetupFfs(""), QUIET);
    QuietReaches(called, t, ANY);
  }

  predicate FlagRight(t: State) {
    && !t.phase.Joining? && (t.applied ==> t.pullup)
    && (t.phase.Called? || t.phase.TearingDown? || t.phase.TornDown? ==>
          IsFfs(t.phase.req.functions) && t.monitor == None && !t.created && !t.applied)
  }

  lemma StepKeepsFlagRight(s: State, step: Step)
    requires FlagRight(s) && Enabled(s, step) && Stays(step, ANY)
    ensures FlagRight(Apply(s, step))
  {
    if !IsRequestStep(step) {
      assert Apply(s, step).phase == s.phase;
    } else {
      assert Apply(s, step) == RequestAfter(s, step);
    }
  }

  lemma {:induction false} FlagStaysRight(s: State, steps: seq<Step>)
    requires FlagRight(s) && Legal(s, steps) && AllStay(steps, ANY)
    ensures FlagRight(Run(s, steps))
    decreases steps
  {
    if steps != [] {
      assert Stays(steps[0], ANY);
      StepKeepsFlagRight(s, steps[0]);
      FlagStaysRight(Apply(s, steps[0]), steps[1..]);
    }
  }

  // ---------------------------------------------------------------- the gadget after a teardown

  /** However a request runs whose write of "none" works, its teardown leaves the gadget down; `signalOn`: the data
      signal may be turned on meanwhile. */
  ghost predicate TeardownPullsDown(s: State, req: Request, signalOn: bool)
    requires s.phase == Idle
  {
    forall t :: Reaches(Apply(s, Call(req)), t, Environment(false, signalOn)) ==> (t.phase.TornDown? ==> !t.bound)
  }

  /** A successful teardown leaves the gadget pulled down in every interleaving exactly if there is no monitor when
      the call arrives and nobody turns the data signal on: a monitor can write the UDC node between the pull-down
      and the join, and so can the data signal. */
  lemma TeardownPullsDownExactly(s: State, req: Request, signalOn: bool)
    requires Reachable(s) && s.phase == Idle
    ensures TeardownPullsDown(s, req, signalOn) <==> s.monitor == None && !signalOn
  {
    ReachableInv(s);
    var called := Apply(s, Call(req));
    if s.monitor.Some? {
      var u := OldMonitorPublishes(s, req);
      QuietReaches(called, u, Environment(false, signalOn));
    } else if signalOn {
      var u := SignalPullsUp(s, req);
    } else {
      forall t | Reaches(called, t, QUIET) ensures t.phase.TornDown? ==> !t.bound {
        var steps :| Legal(called, steps) && AllStay(steps, QUIET) && Run(called, steps) == t;
        StaysDown(called, steps);
      }
    }
  }

  /** The data signal is turned on after the pull-down: it writes the controller name to the same node, and the
      gadget is up when the teardown has succeeded. */
  lemma SignalPullsUp(s: State, req: Request) returns (u: State)
    requires Inv(s) && s.phase == Idle && s.monitor == None
    ensures Reaches(Apply(s, Call(req)), u, Environment(false, true))
    ensures u.phase == TornDown(req) && u.bound && u.monitor == None
  {
    var called, env := Apply(s, Call(req)), Environment(false, true);
    ReachesHere(called, env);
    u := ReachesNext(called, called, PullDown(true), env);
    u := ReachesNext(called, u, DataSignal(true, true), env);
    u := ReachesNext(called, u, Unlinked, env);
  }

  predicate DownWhenTornDown(t: State) {
    && !t.phase.Joining?
    && (t.phase.Called? || t.phase.TearingDown? || t.phase.TornDown? ==> t.monitor == None && !t.created)
    && (t.phase.TearingDown? || t.phase.TornDown? ==> !t.bound)
  }

  lemma StepStaysDown(s: State, step: Step)
    requires DownWhenTornDown(s) && Enabled(s, step) && Stays(step, QUIET)
    ensures DownWhenTornDown(Apply(s, step))
  {
    if IsRequestStep(step) {
      RequestStaysDown(s, step);
    } else {
      assert Apply(s, step).phase == s.phase;
    }
  }

  lemma RequestStaysDown(s: State, step: Step)
    requires DownWhenTornDown(s) && Enabled(s, step) && Stays(step, QUIET) && IsRequestStep(step)
    ensures DownWhenTornDown(RequestAfter(s, step))
  {
  }

  lemma {:induction false} StaysDown(s: State, steps: seq<Step>)
    requires DownWhenTornDown(s) && Legal(s, steps) && AllStay(steps, QUIET)
    ensures DownWhenTornDown(Run(s, steps))
    decreases steps
  {
    if steps != [] {
      assert Stays(steps[0], QUIET);
      StepStaysDown(s, steps[0]);
      StaysDown(Apply(s, steps[0]), steps[1..]);
    }
  }

  // ---------------------------------------------------------------- while the request thread does nothing

  /** Any number of steps of the monitor and of the other writers of the UDC node lead from `s` to `t`. */
  ghost predicate OthersMove(s: State, t: State) {
    exists steps :: Legal(s, steps) && NoRequestSteps(steps) && Run(s, steps) == t
  }

  predicate NoRequestSteps(steps: seq<Step>) {
    forall k :: 0 <= k < |steps| ==> !IsRequestStep(steps[k])
  }

  lemma OthersMayRest(s: State)
    ensures OthersMove(s, s)
  {
    assert Legal(s, []) && NoRequestSteps([]) && Run(s, []) == s;
  }

  lemma OthersMoveNext(s: State, t: State, step: Step)
    requires OthersMove(s, t) && !IsRequestStep(step) && Enabled(t, step)
    ensures OthersMove(s, Apply(t, step))
  {
    var steps :| Legal(s, steps) && NoRequestSteps(steps) && Run(s, steps) == t;
    RunThenStep(s, steps, step);
    assert NoRequestSteps(steps + [step]);
  }

  /** They touch nothing but the monitor, the UDC node and the two flags the monitor raises. */
  predicate OnlyOthersMoved(s: State, t: State) {
    && t == s.(monitor := t.monitor, bound := t.bound, applied := t.applied, pullup := t.pullup)
    && t.monitor.Some? == s.monitor.Some?
    && (s.lockHeld ==> t.applied == s.applied && t.pullup == s.pullup)
  }

  lemma {:induction false} OthersKeepRest(s: State, steps: seq<Step>)
    requires Legal(s, steps) && NoRequestSteps(steps)
    ensures OnlyOthersMoved(s, Run(s, steps))
    decreases steps
  {
    if steps != [] {
      assert !IsRequestStep(steps[0]);
      var t := Apply(s, steps[0]);
      assert OnlyOthersMoved(s, t);
      OthersKeepRest(t, steps[1..]);
    }
  }

  lemma Interfered(s: State, t: State, u: State)
    requires Leads(s, t) && OthersMove(t, u)
    ensures Leads(s, u) && OnlyOthersMoved(t, u)
  {
    var steps :| Legal(t, steps) && NoRequestSteps(steps) && Run(t, steps) == u;
    OthersKeepRest(t, steps);
    LeadsAlong(s, t, steps);
  }

  // ---------------------------------------------------------------- the monitor on its own

  /** A monitor alone: each step at the program counter it belongs to. */
  predicate MonitorLegal(m: Monitor, steps: seq<Step>)
    decreases steps
  {
    steps == [] ||
    (IsMonitorStep(steps[0]) && m.pc == PcOf(steps[0]) && MonitorLegal(MonitorAfter(m, steps[0]), steps[1..]))
  }

  function MonitorRun(m: Monitor, steps: seq<Step>): Monitor
    requires MonitorLegal(m, steps)
    decreases steps
  {
    if steps == [] then m else MonitorRun(MonitorAfter(m, steps[0]), steps[1..])
  }

  ghost predicate MonitorLeads(m: Monitor, n: Monitor) {
    exists steps :: MonitorLegal(m, steps) && MonitorRun(m, steps) == n
  }

  lemma MonitorLeadsNowhere(m: Monitor)
    ensures MonitorLeads(m, m)
  {
    assert MonitorLegal(m, []) && MonitorRun(m, []) == m;
  }

  lemma MonitorLeadsNext(m: Monitor, n: Monitor, step: Step)
    requires MonitorLeads(m, n) && IsMonitorStep(step) && n.pc == PcOf(step)
    ensures MonitorLeads(m, MonitorAfter(n, step))
  {
    var steps :| MonitorLegal(m, steps) && MonitorRun(m, steps) == n;
    MonitorRunThenStep(m, steps, step);
  }

  lemma {:induction false} MonitorRunThenStep(m: Monitor, steps: seq<Step>, step: Step)
    requires MonitorLegal(m, steps) && IsMonitorStep(step) && MonitorRun(m, steps).pc == PcOf(step)
    ensures MonitorLegal(m, steps + [step])
    ensures MonitorRun(m, steps + [step]) == MonitorAfter(MonitorRun(m, steps), step)
    decreases steps
  {
    if steps == [] {
      assert steps + [step] == [step] && [step][1..] == [];
    } else {
      MonitorRunThenStep(MonitorAfter(m, steps[0]), steps[1..], step);
      assert (steps + [step])[1..] == steps[1..] + [step];
    }
  }
}
