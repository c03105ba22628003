/** Gadget requests and the monitor thread as a state machine: every interleaving of one request at a time
    with the monitor that it or an earlier request started, and with the calls that write the UDC node without
    any lock: the data signal of the USB object turned on or off, and reset. */
module GadgetProtocol {
  import opened Common
  import opened GadgetPlan

  datatype Status = Success | Error | NotSupported

  datatype Request = Request(functions: Functions, hasCallback: bool)

  /** What a monitor sees and does: a look, with the endpoints that are there, and a write of the UDC node. */
  datatype MonitorEvent = Observed(seen: set<Endpoint>) | WroteUdc(ok: bool)

  /** Pulling: about to write the UDC node. Publishing: written, about to take mLock and set the flags. */
  datatype MonitorPc = Scanning | Pulling | Publishing | Polling | Done

  datatype Monitor = Monitor(owner: nat, endpoints: seq<Endpoint>, pc: MonitorPc, writeUdc: bool, trace: seq<MonitorEvent>)

  /** The request thread. Called: about to pull the gadget down. Joining: in join(). TornDown: tearDownGadget
      succeeded. Starting: the monitor was created, mLock is still held. Waiting: in wait_for, mLock released.
      Returned: the status is decided. */
  datatype Phase =
    | Idle
    | Called(req: Request)
    | TearingDown(req: Request)
    | Joining(req: Request)
    | TornDown(req: Request)
    | Starting(req: Request)
    | Waiting(req: Request)
    | Returned(req: Request, status: Status)

  /** One call of the callback of request `number`. */
  datatype Report = Report(number: nat, functions: Functions, status: Status)

  datatype State = State(
    links: Directory, endpoints: seq<Endpoint>,
    created: bool, monitor: Option<Monitor>, stopFlag: bool,
    bound: bool,                                    // the UDC node names the controller: the gadget is up
    pullup: bool, applied: bool, lockHeld: bool,    // lockHeld: mLock is held by the request thread
    phase: Phase, number: nat,                      // number: of the request in progress, or the last one
    finished: seq<Request>, reports: seq<Report>)

  datatype Step =
    | Call(req: Request)
    | PullDown(ok: bool)
    | TearDownFails(removed: set<Name>)
    | Unlinked
    | Joined
    | FinishNone
    | Invalid(status: Status)
    | SetupFails(vendor: string, linked: nat, watched: nat)
    | SetupWithoutFfs(vendor: string)
    | SetupFfs(vendor: string)
    | Wait
    | Wake(timedOut: bool)
    | Return
    | Scan(present: set<Endpoint>)
    | WriteUdc(ok: bool)
    | Publish
    | Event(present: set<Endpoint>)
    | StopMonitor
    | DataSignal(enable: bool, ok: bool)
    | ResetUdc(ok: bool)

  function Started(links: Directory): State {
    State(links, [], false, None, false, false, false, false, false, Idle, 0, [], [])
  }

  // ---------------------------------------------------------------- the monitor

  predicate AllPresent(endpoints: seq<Endpoint>, present: set<Endpoint>)
    ensures AllPresent(endpoints, present) <==> forall i :: 0 <= i < |endpoints| ==> endpoints[i] in present
  {
    forall e :: e in endpoints ==> e in present
  }

  function Look(m: Monitor, present: set<Endpoint>): Monitor {
    m.(trace := m.trace + [Observed(present)])
  }

  /** The first look, before the loop. */
  function ScanFirst(m: Monitor, present: set<Endpoint>): Monitor {
    Look(m, present).(pc := if AllPresent(m.endpoints, present) then Pulling else Polling)
  }

  /** The look at every inotify event. */
  function OnEvent(m: Monitor, present: set<Endpoint>): Monitor {
    var all := AllPresent(m.endpoints, present);
    if !all && !m.writeUdc then Look(m, present).(writeUdc := true)
    else if all && m.writeUdc then Look(m, present).(pc := Pulling)
    else Look(m, present)
  }

  function OnWrite(m: Monitor, ok: bool): Monitor {
    m.(trace := m.trace + [WroteUdc(ok)], pc := if ok then Publishing else Polling)
  }

  function OnPublish(m: Monitor): Monitor {
    m.(pc := Polling, writeUdc := false)
  }

  function NewMonitor(owner: nat, endpoints: seq<Endpoint>): Monitor {
    Monitor(owner, endpoints, Scanning, true, [])
  }

  // ---------------------------------------------------------------- steps

  predicate MonitorAt(s: State, pc: MonitorPc) {
    s.monitor.Some? && s.monitor.value.pc == pc
  }

  predicate IsMonitorStep(step: Step) {
    step.Scan? || step.WriteUdc? || step.Publish? || step.Event? || step.StopMonitor?
  }

  /** The steps that come from elsewhere in the process. */
  predicate IsOutsideStep(step: Step) {
    step.DataSignal? || step.ResetUdc?
  }

  predicate IsRequestStep(step: Step) {
    !IsMonitorStep(step) && !IsOutsideStep(step)
  }

  function MonitorAfter(m: Monitor, step: Step): Monitor
    requires IsMonitorStep(step)
  {
    match step
    case Scan(present) => ScanFirst(m, present)
    case WriteUdc(ok) => OnWrite(m, ok)
    case Publish => OnPublish(m)
    case Event(present) => OnEvent(m, present)
    case StopMonitor => m.(pc := Done)
  }

  predicate Enabled(s: State, step: Step) {
    match step
    case Call(_) => s.phase == Idle
    case PullDown(_) => s.phase.Called?
    case TearDownFails(removed) => s.phase.TearingDown? && forall n :: n in removed ==> IsFunctionName(n)
    case Unlinked => s.phase.TearingDown?
    case Joined => s.phase.Joining? && MonitorAt(s, Done)
    case FinishNone => s.phase.TornDown? && s.phase.req.functions == NONE
    case Invalid(status) => s.phase.TornDown? && s.phase.req.functions != NONE && status != Success
    case SetupFails(vendor, linked, watched) =>
      && s.phase.TornDown? && s.phase.req.functions != NONE
      && linked <= |Plan(s.phase.req.functions, vendor)| && watched <= |Endpoints(s.phase.req.functions)|
    case SetupWithoutFfs(_) => s.phase.TornDown? && s.phase.req.functions != NONE && !IsFfs(s.phase.req.functions)
    case SetupFfs(_) => s.phase.TornDown? && IsFfs(s.phase.req.functions)
    case Wait => s.phase.Starting?
    case Wake(timedOut) => s.phase.Waiting? && !s.lockHeld && (s.pullup || timedOut)
    case Return => s.phase.Returned?
    case Scan(_) => MonitorAt(s, Scanning)
    case WriteUdc(_) => MonitorAt(s, Pulling)
    case Publish => MonitorAt(s, Publishing) && !s.lockHeld
    case Event(_) => MonitorAt(s, Polling)
    case StopMonitor => MonitorAt(s, Polling) && s.stopFlag
    case DataSignal(_, _) => true
    case ResetUdc(_) => true
  }

  function Apply(s: State, step: Step): State
    requires Enabled(s, step)
  {
    if IsMonitorStep(step) then s.(
      monitor := Some(MonitorAfter(s.monitor.value, step)), bound := s.bound || step == WriteUdc(true),
      applied := s.applied || step.Publish?, pullup := s.pullup || step.Publish?)
    else if IsOutsideStep(step) then s.(bound := BoundAfter(s.bound, step))
    else RequestAfter(s, step)
  }

  /** A write of the controller name pulls the gadget up, a write of "none" pulls it down. */
  function BoundAfter(bound: bool, step: Step): bool
    requires IsOutsideStep(step)
  {
    if !step.ok then bound else step.DataSignal? && step.enable
  }

  function RequestAfter(s: State, step: Step): State
    requires Enabled(s, step) && IsRequestStep(step)
  {
    match step
    case Call(req) => s.(phase := Called(req), number := s.number + 1, applied := false)
    case PullDown(ok) => s.(phase := TearingDown(s.phase.req), bound := s.bound && !ok)
    case TearDownFails(removed) => s.(links := s.links - removed, phase := Returned(s.phase.req, Error))
    case Unlinked =>
      var t := s.(links := OthersOf(s.links));
      if s.created then t.(phase := Joining(s.phase.req), stopFlag := true)
      else t.(phase := TornDown(s.phase.req), endpoints := [])
    case Joined =>
      s.(phase := TornDown(s.phase.req), created := false, monitor := None, stopFlag := false, endpoints := [])
    case FinishNone => Finish(s, s.phase.req, Some(Success))
    case Invalid(status) => s.(phase := Returned(s.phase.req, status))
    case SetupFails(vendor, linked, watched) =>
      var req := s.phase.req;
      s.(links := LinkAll(s.links, Plan(req.functions, vendor)[..linked]),
         endpoints := s.endpoints + Endpoints(req.functions)[..watched], phase := Returned(req, Error))
    case SetupWithoutFfs(vendor) =>
      var req := s.phase.req;
      TellCallback(s.(links := LinkAll(s.links, Plan(req.functions, vendor)),
                      bound := true, applied := true, phase := Returned(req, Success)), req, Success)
    case SetupFfs(vendor) =>
      var req := s.phase.req;
      var endpoints := s.endpoints + Endpoints(req.functions);
      s.(links := LinkAll(s.links, Plan(req.functions, vendor)), endpoints := endpoints, pullup := false,
         monitor := Some(NewMonitor(s.number, endpoints)), created := true, lockHeld := true, phase := Starting(req))
    case Wait =>
      var req := s.phase.req;
      s.(lockHeld := false, phase := if req.hasCallback then Waiting(req) else Returned(req, Success))
    case Wake(_) =>
      var req := s.phase.req;
      TellCallback(s.(phase := Returned(req, Success)), req, if s.pullup then Success else Error)
    case Return => Finish(s, s.phase.req, if s.phase.status == Success then None else Some(s.phase.status))
  }

  function TellCallback(s: State, req: Request, status: Status): State {
    if req.hasCallback then s.(reports := s.reports + [Report(s.number, req.functions, status)]) else s
  }

  /** The end of a request, with the status to report, if it was not reported before. */
  function Finish(s: State, req: Request, status: Option<Status>): State {
    var t := s.(phase := Idle, finished := s.finished + [req]);
    if status.Some? then TellCallback(t, req, status.value) else t
  }

  // ---------------------------------------------------------------- what every step keeps

  predicate IsFullLook(e: MonitorEvent, endpoints: seq<Endpoint>) {
    e.Observed? && AllPresent(endpoints, e.seen)
  }

  predicate MissesOne(e: MonitorEvent, endpoints: seq<Endpoint>) {
    e.Observed? && !AllPresent(endpoints, e.seen)
  }

  /** The monitor wrote the UDC node right after a look that found every endpoint. */
  predicate PulledUp(trace: seq<MonitorEvent>, endpoints: seq<Endpoint>) {
    exists j :: 0 < j < |trace| && trace[j] == WroteUdc(true) && IsFullLook(trace[j - 1], endpoints)
  }

  predicate WritesFollowFullLooks(trace: seq<MonitorEvent>, endpoints: seq<Endpoint>) {
    forall j :: 0 <= j < |trace| && trace[j] == WroteUdc(true) ==> j > 0 && IsFullLook(trace[j - 1], endpoints)
  }

  /** Between two successful writes some look misses an endpoint. */
  predicate WritesAlternate(trace: seq<MonitorEvent>, endpoints: seq<Endpoint>) {
    forall i, j :: 0 <= i < j < |trace| && trace[i] == WroteUdc(true) && trace[j] == WroteUdc(true) ==>
      exists k :: i < k < j && MissesOne(trace[k], endpoints)
  }

  /** Every successful write was followed by a missing endpoint. */
  predicate DownSinceWrites(trace: seq<MonitorEvent>, endpoints: seq<Endpoint>) {
    forall i :: 0 <= i < |trace| && trace[i] == WroteUdc(true) ==>
      exists k :: i < k < |trace| && MissesOne(trace[k], endpoints)
  }

  predicate MonitorInv(m: Monitor) {
    && WritesFollowFullLooks(m.trace, m.endpoints)
    && WritesAlternate(m.trace, m.endpoints)
    && (m.pc == Scanning ==> m.trace == [] && m.writeUdc)
    && (m.pc == Pulling ==> m.writeUdc && m.trace != [] && IsFullLook(m.trace[|m.trace| - 1], m.endpoints))
    && (m.pc == Publishing ==> m.writeUdc && m.trace != [] && m.trace[|m.trace| - 1] == WroteUdc(true))
    && (m.writeUdc && m.pc != Publishing ==> DownSinceWrites(m.trace, m.endpoints))
    && (!m.writeUdc ==> PulledUp(m.trace, m.endpoints))
  }

  lemma AppendKeepsFullLooks(trace: seq<MonitorEvent>, e: MonitorEvent, endpoints: seq<Endpoint>)
    requires WritesFollowFullLooks(trace, endpoints)
    requires e == WroteUdc(true) ==> trace != [] && IsFullLook(trace[|trace| - 1], endpoints)
    ensures WritesFollowFullLooks(trace + [e], endpoints)
  {
  }

  lemma AppendKeepsAlternation(trace: seq<MonitorEvent>, e: MonitorEvent, endpoints: seq<Endpoint>)
    requires WritesAlternate(trace, endpoints) && (e == WroteUdc(true) ==> DownSinceWrites(trace, endpoints))
    ensures WritesAlternate(trace + [e], endpoints)
  {
    var t := trace + [e];
    forall i, j | 0 <= i < j < |t| && t[i] == WroteUdc(true) && t[j] == WroteUdc(true)
      ensures exists k :: i < k < j && MissesOne(t[k], endpoints)
    {
      assert t[i] == trace[i];
      var k :| i < k < j && MissesOne(trace[k], endpoints);
      assert t[k] == trace[k];
    }
  }

  lemma AppendKeepsDown(trace: seq<MonitorEvent>, e: MonitorEvent, endpoints: seq<Endpoint>)
    requires e != WroteUdc(true) && (DownSinceWrites(trace, endpoints) || MissesOne(e, endpoints))
    ensures DownSinceWrites(trace + [e], endpoints)
  {
    var t := trace + [e];
    forall i | 0 <= i < |t| && t[i] == WroteUdc(true) ensures exists k :: i < k < |t| && MissesOne(t[k], endpoints) {
      assert t[i] == trace[i];
      if MissesOne(e, endpoints) {
        assert t[|trace|] == e;
      } else {
        var k :| i < k < |trace| && MissesOne(trace[k], endpoints);
        assert t[k] == trace[k];
      }
    }
  }

  lemma AppendKeepsPulledUp(trace: seq<MonitorEvent>, e: MonitorEvent, endpoints: seq<Endpoint>)
    requires PulledUp(trace, endpoints)
    ensures PulledUp(trace + [e], endpoints)
  {
    var t := trace + [e];
    var j :| 0 < j < |trace| && trace[j] == WroteUdc(true) && IsFullLook(trace[j - 1], endpoints);
    assert t[j] == trace[j] && t[j - 1] == trace[j - 1];
  }

  lemma LookKeeps(m: Monitor, present: set<Endpoint>)
    requires WritesFollowFullLooks(m.trace, m.endpoints) && WritesAlternate(m.trace, m.endpoints)
    ensures WritesFollowFullLooks(Look(m, present).trace, m.endpoints)
    ensures WritesAlternate(Look(m, present).trace, m.endpoints)
    ensures DownSinceWrites(m.trace, m.endpoints) || !AllPresent(m.endpoints, present) ==>
              DownSinceWrites(Look(m, present).trace, m.endpoints)
    ensures PulledUp(m.trace, m.endpoints) ==> PulledUp(Look(m, present).trace, m.endpoints)
  {
    AppendKeepsFullLooks(m.trace, Observed(present), m.endpoints);
    AppendKeepsAlternation(m.trace, Observed(present), m.endpoints);
    if DownSinceWrites(m.trace, m.endpoints) || !AllPresent(m.endpoints, present) {
      AppendKeepsDown(m.trace, Observed(present), m.endpoints);
    }
    if PulledUp(m.trace, m.endpoints) {
      AppendKeepsPulledUp(m.trace, Observed(present), m.endpoints);
    }
  }

  lemma WriteKeeps(m: Monitor, ok: bool)
    requires MonitorInv(m) && m.pc == Pulling
    ensures MonitorInv(OnWrite(m, ok))
    ensures PulledUp(m.trace, m.endpoints) ==> PulledUp(OnWrite(m, ok).trace, m.endpoints)
  {
    AppendKeepsFullLooks(m.trace, WroteUdc(ok), m.endpoints);
    AppendKeepsAlternation(m.trace, WroteUdc(ok), m.endpoints);
    if !ok {
      AppendKeepsDown(m.trace, WroteUdc(ok), m.endpoints);
    }
    if PulledUp(m.trace, m.endpoints) {
      AppendKeepsPulledUp(m.trace, WroteUdc(ok), m.endpoints);
    }
  }

  /** A look is recorded with what was there; the first one leads to a write exactly if every endpoint was there, and a
      later one exactly if so and the gadget was down; a later one finds the gadget down if an endpoint is missing. */
  lemma LooksExactly(m: Monitor, step: Step)
    requires (step.Scan? && m.pc == Scanning) || (step.Event? && m.pc == Polling)
    ensures var r := MonitorAfter(m, step);
            var all := forall i :: 0 <= i < |m.endpoints| ==> m.endpoints[i] in step.present;
            && r.trace == m.trace + [Observed(step.present)]
            && (r.pc == Pulling <==> all && (step.Scan? || m.writeUdc)) && (r.pc != Pulling ==> r.pc == Polling)
            && (r.writeUdc <==> m.writeUdc || (step.Event? && !all))
  {
  }

  /** The program counter at which a monitor takes a step. */
  function PcOf(step: Step): MonitorPc
    requires IsMonitorStep(step)
  {
    match step
    case Scan(_) => Scanning
    case WriteUdc(_) => Pulling
    case Publish => Publishing
    case Event(_) => Polling
    case StopMonitor => Polling
  }

  /** How many steps of its own, not counting inotify events, a monitor that was told to stop may still take. */
  function StepsToEnd(m: Monitor): nat {
    match m.pc
    case Scanning => 4
    case Pulling => 3
    case Publishing => 2
    case Polling => 1
    case Done => 0
  }

  /** Every step of a monitor keeps its invariant, and it publishes only what it has done. */
  lemma MonitorStepKeeps(m: Monitor, step: Step)
    requires MonitorInv(m) && IsMonitorStep(step) && m.pc == PcOf(step)
    ensures var r := MonitorAfter(m, step);
            && MonitorInv(r) && r.owner == m.owner && r.endpoints == m.endpoints
            && (PulledUp(m.trace, m.endpoints) || step.Publish? ==> PulledUp(r.trace, m.endpoints))
  {
    match step
    case Scan(present) => LookKeeps(m, present);
    case Event(present) => LookKeeps(m, present);
    case WriteUdc(ok) => WriteKeeps(m, ok);
    case Publish => assert IsFullLook(m.trace[|m.trace| - 2], m.endpoints);
    case StopMonitor =>
  }

  /** The requests to be told about, with their numbers. */
  function Due(finished: seq<Request>): seq<(nat, Functions)> {
    if finished == [] then []
    else
      var n := |finished| - 1;
      Due(finished[..n]) + if finished[n].hasCallback then [(n + 1, finished[n].functions)] else []
  }

  function Told(reports: seq<Report>): (r: seq<(nat, Functions)>)
    ensures |r| == |reports|
    ensures forall i :: 0 <= i < |r| ==> r[i] == (reports[i].number, reports[i].functions)
  {
    seq(|reports|, i requires 0 <= i < |reports| => (reports[i].number, reports[i].functions))
  }

  /** The request in progress, if its callback has been called already. */
  function ToldEarly(s: State): seq<(nat, Functions)> {
    if s.phase.Returned? && s.phase.status == Success && s.phase.req.hasCallback
    then [(s.number, s.phase.req.functions)] else []
  }

  predicate LifecycleInv(s: State) {
    && s.created == s.monitor.Some?
    && (s.monitor.Some? ==>
          MonitorInv(s.monitor.value) && s.monitor.value.endpoints == s.endpoints && s.endpoints != [])
    && (MonitorAt(s, Done) || s.stopFlag ==> s.phase.Joining?)
    && (s.lockHeld <==> s.phase.Starting?)
    && (s.phase.TornDown? ==> s.monitor == None && s.endpoints == [] && FunctionsOf(s.links) == map[])
    && (s.phase.Joining? ==> s.created && s.stopFlag && FunctionsOf(s.links) == map[])
    && (s.phase.Starting? || s.phase.Waiting? ==>
          && IsFfs(s.phase.req.functions)
          && s.monitor.Some? && s.monitor.value.owner == s.number
          && s.endpoints == Endpoints(s.phase.req.functions)
          && (s.pullup ==> PulledUp(s.monitor.value.trace, s.endpoints)))
  }

  predicate ReportsInv(s: State) {
    && s.number == |s.finished| + (if s.phase == Idle then 0 else 1)
    && Told(s.reports) == Due(s.finished) + ToldEarly(s)
  }

  predicate Inv(s: State) {
    LifecycleInv(s) && ReportsInv(s)
  }

  lemma NoFunctionsAmongOthers(d: Directory)
    ensures FunctionsOf(OthersOf(d)) == map[]
    ensures OthersOf(OthersOf(d)) == OthersOf(d)
  {
  }

  lemma MonitorStepKeepsLifecycle(s: State, step: Step)
    requires LifecycleInv(s) && Enabled(s, step) && IsMonitorStep(step)
    ensures LifecycleInv(Apply(s, step))
  {
    MonitorStepKeeps(s.monitor.value, step);
  }

  predicate IsSetupStep(step: Step) {
    step.SetupFails? || step.SetupWithoutFfs? || step.SetupFfs? || step == Wait || step.Wake? || step == Return
  }

  lemma TeardownStepKeepsLifecycle(s: State, step: Step)
    requires LifecycleInv(s) && Enabled(s, step) && IsRequestStep(step) && !IsSetupStep(step)
    ensures LifecycleInv(Apply(s, step))
  {
    if step == Unlinked {
      NoFunctionsAmongOthers(s.links);
    }
  }

  lemma LinkStepKeepsLifecycle(s: State, step: Step)
    requires LifecycleInv(s) && Enabled(s, step) && (step.SetupFails? || step.SetupWithoutFfs?)
    ensures LifecycleInv(Apply(s, step))
  {
  }

  lemma WaitStepKeepsLifecycle(s: State, step: Step)
    requires LifecycleInv(s) && Enabled(s, step) && (step == Wait || step.Wake? || step == Return)
    ensures LifecycleInv(Apply(s, step))
  {
    var t := RequestAfter(s, step);
    assert t.monitor == s.monitor && t.endpoints == s.endpoints && t.created == s.created && t.pullup == s.pullup;
    assert t.lockHeld == (s.lockHeld && step != Wait) && t.stopFlag == s.stopFlag;
    assert t.phase.Waiting? ==> s.phase.Starting? && t.phase.req == s.phase.req && t.number == s.number;
  }

  lemma SetupKeepsLifecycle(s: State, vendor: string)
    requires LifecycleInv(s) && Enabled(s, SetupFfs(vendor))
    ensures LifecycleInv(Apply(s, SetupFfs(vendor)))
  {
    assert s.endpoints + Endpoints(s.phase.req.functions) == Endpoints(s.phase.req.functions);
  }

  lemma FinishKeepsReports(s: State, status: Option<Status>)
    requires ReportsInv(s) && s.phase != Idle
    requires if status.Some? then ToldEarly(s) == [] else ToldEarly(s) != [] || !s.phase.req.hasCallback
    ensures ReportsInv(Finish(s, s.phase.req, status))
  {
    var req := s.phase.req;
    DueGrows(s.finished, req);
    if status.Some? {
      ToldGrows(s.reports, Report(s.number, req.functions, status.value));
    }
  }

  lemma DueGrows(finished: seq<Request>, req: Request)
    ensures Due(finished + [req]) ==
            Due(finished) + if req.hasCallback then [(|finished| + 1, req.functions)] else []
  {
    var more := finished + [req];
    var n := |more| - 1;
    assert more[..n] == finished && more[n] == req;
    DueUnfolds(more);
  }

  lemma DueUnfolds(finished: seq<Request>)
    requires finished != []
    ensures var n := |finished| - 1;
            Due(finished) == Due(finished[..n]) + if finished[n].hasCallback then [(n + 1, finished[n].functions)] else []
  {
  }

  lemma ToldGrows(reports: seq<Report>, r: Report)
    ensures Told(reports + [r]) == Told(reports) + [(r.number, r.functions)]
  {
  }

  lemma StepKeepsReports(s: State, step: Step)
    requires ReportsInv(s) && Enabled(s, step)
    ensures ReportsInv(Apply(s, step))
  {
    if !IsRequestStep(step) {
      return;
    }
    match step
    case FinishNone => FinishKeepsReports(s, Some(Success));
    case Return => FinishKeepsReports(s, if s.phase.status == Success then None else Some(s.phase.status));
    case SetupWithoutFfs(vendor) => SetupTells(s, vendor);
    case Wake(timedOut) => WakeTells(s, timedOut);
    case _ => QuietStepKeepsReports(s, step);
  }

  lemma QuietStepKeepsReports(s: State, step: Step)
    requires ReportsInv(s) && Enabled(s, step) && IsRequestStep(step)
    requires step != FinishNone && step != Return && !step.SetupWithoutFfs? && !step.Wake?
    ensures ReportsInv(Apply(s, step))
  {
    var t := RequestAfter(s, step);
    assert t.reports == s.reports && t.finished == s.finished;
    assert ToldEarly(t) == ToldEarly(s);
  }

  lemma SetupTells(s: State, vendor: string)
    requires ReportsInv(s) && Enabled(s, SetupWithoutFfs(vendor))
    ensures ReportsInv(Apply(s, SetupWithoutFfs(vendor)))
  {
    TellingKeepsReports(s, RequestAfter(s, SetupWithoutFfs(vendor)), s.phase.req, Success);
  }

  lemma WakeTells(s: State, timedOut: bool)
    requires ReportsInv(s) && Enabled(s, Wake(timedOut))
    ensures ReportsInv(Apply(s, Wake(timedOut)))
  {
    TellingKeepsReports(s, RequestAfter(s, Wake(timedOut)), s.phase.req, if s.pullup then Success else Error);
  }

  lemma TellingKeepsReports(s: State, t: State, req: Request, status: Status)
    requires ReportsInv(s) && s.phase != Idle && s.phase.req == req && ToldEarly(s) == []
    requires t.finished == s.finished && t.number == s.number && t.phase == Returned(req, Success)
    requires t.reports == if req.hasCallback then s.reports + [Report(s.number, req.functions, status)] else s.reports
    ensures ReportsInv(t)
  {
    if req.hasCallback {
      ToldGrows(s.reports, Report(s.number, req.functions, status));
    }
  }

  lemma OutsideStepKeepsLifecycle(s: State, step: Step)
    requires LifecycleInv(s) && IsOutsideStep(step)
    ensures LifecycleInv(Apply(s, step))
  {
  }

  /** Every step of the request thread, of the monitor and of the other writers keeps the invariant. */
  lemma StepKeepsInv(s: State, step: Step)
    requires Inv(s) && Enabled(s, step)
    ensures Inv(Apply(s, step))
  {
    StepKeepsReports(s, step);
    if IsMonitorStep(step) {
      MonitorStepKeepsLifecycle(s, step);
    } else if IsOutsideStep(step) {
      OutsideStepKeepsLifecycle(s, step);
    } else if step.SetupFfs? {
      SetupKeepsLifecycle(s, step.vendor);
    } else if step.SetupFails? || step.SetupWithoutFfs? {
      LinkStepKeepsLifecycle(s, step);
    } else if IsSetupStep(step) {
      WaitStepKeepsLifecycle(s, step);
    } else {
      TeardownStepKeepsLifecycle(s, step);
    }
  }
}
