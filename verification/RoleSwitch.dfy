/** Role switches, the partners that come, and the worker thread that handles uevents, as a state machine over
    their steps. */
module RoleSwitch {
  import opened Common

  /** A switch of the port mode waits for the partner to come back; one of another role reads back what it wrote. */
  datatype Switch = Switch(port: string, mode: bool)

  /** What is done to the ports, and their partners. Wrote: the new role reached the role file. Came: a partner of
      the port came, and the kernel queued a message. Signalled: the worker set mPartnerUp for that message. Dual:
      the port was set back to both modes. */
  datatype Event = Wrote(port: string) | Came(port: string) | Signalled(port: string) | Dual(port: string)

  /** The thread in switchRole. Armed: mPartnerLock taken, mPartnerUp cleared. Waiting: in timedwait,
      mPartnerLock released. Failed: the port is to be set back. */
  datatype Phase = Idle | Begun | Armed | Written | Waiting | Failed | Decided(ok: bool)

  /** Who holds mRoleSwitchLock: nobody, the switch in progress, or the worker. */
  datatype Holder = Nobody | Switcher | Worker

  /** A finished switch: what its callback was told, and the events while it was in progress. */
  datatype Outcome = Outcome(what: Switch, ok: bool, events: seq<Event>)

  datatype State = State(
    roleLock: Holder, partnerLocked: bool, partnerUp: bool,
    queue: seq<string>,                                // partner messages the worker has not read, by port
    matched: Option<string>,                           // the one it has matched and now wants mPartnerLock for
    phase: Phase, what: Switch, events: seq<Event>,    // events since the switch in progress began
    outcomes: seq<Outcome>)

  datatype Step =
    | Begin(what: Switch)
    | OpenFails
    | Arm
    | Write(ok: bool)
    | Wait
    | Wake(timedOut: bool)
    | SetBack
    | WriteOther(ok: bool)
    | Tell
    | PartnerComes(port: string)
    | Match
    | SetFlag
    | BeginSweep
    | SweepPort(port: string)
    | EndSweep

  const START := State(Nobody, false, false, [], None, Idle, Switch([], false), [], [])

  predicate Enabled(s: State, step: Step) {
    match step
    case Begin(_) => s.phase == Idle && s.roleLock == Nobody
    case OpenFails => s.phase == Begun
    case Arm => s.phase == Begun && s.what.mode && !s.partnerLocked
    case Write(_) => s.phase == Armed
    case Wait => s.phase == Written
    case Wake(_) => s.phase == Waiting && !s.partnerLocked
    case SetBack => s.phase == Failed
    case WriteOther(_) => s.phase == Begun && !s.what.mode
    case Tell => s.phase.Decided?
    case PartnerComes(_) => true
    case Match => s.queue != [] && s.matched == None && s.roleLock != Worker
    case SetFlag => s.matched.Some? && !s.partnerLocked
    case BeginSweep => s.roleLock == Nobody && s.matched == None
    case SweepPort(_) => s.roleLock == Worker
    case EndSweep => s.roleLock == Worker
  }

  function Apply(s: State, step: Step): State
    requires Enabled(s, step)
  {
    match step
    case Begin(what) => s.(roleLock := Switcher, phase := Begun, what := what, events := [])
    case OpenFails => s.(phase := if s.what.mode then Failed else Decided(false))
    case Arm => s.(phase := Armed, partnerLocked := true, partnerUp := false)
    case Write(ok) =>
      if ok then s.(phase := Written, events := s.events + [Wrote(s.what.port)])
      else s.(phase := Failed, partnerLocked := false)
    case Wait => s.(phase := Waiting, partnerLocked := false)
    case Wake(timedOut) =>
      if timedOut then s.(phase := Failed)
      else if !s.partnerUp then s
      else s.(phase := Decided(true))
    case SetBack => s.(phase := Decided(false), events := s.events + [Dual(s.what.port)])
    case WriteOther(ok) => s.(phase := Decided(ok), events := s.events + [Wrote(s.what.port)])
    case Tell =>
      s.(phase := Idle, roleLock := Nobody, outcomes := s.outcomes + [Outcome(s.what, s.phase.ok, s.events)])
    case PartnerComes(port) => s.(queue := s.queue + [port], events := s.events + [Came(port)])
    case Match => s.(queue := s.queue[1..], matched := Some(s.queue[0]))
    case SetFlag => s.(matched := None, partnerUp := true, events := s.events + [Signalled(s.matched.value)])
    case BeginSweep => s.(roleLock := Worker)
    case SweepPort(port) => s.(events := s.events + [Dual(port)])
    case EndSweep => s.(roleLock := Nobody)
  }

  // ---------------------------------------------------------------- what holds of the events

  predicate NoDual(events: seq<Event>) {
    forall i :: 0 <= i < |events| ==> !events[i].Dual?
  }

  predicate OfPartner(e: Event) {
    e.Came? || e.Signalled?
  }

  predicate OnlyPartners(events: seq<Event>) {
    forall i :: 0 <= i < |events| ==> OfPartner(events[i])
  }

  /** The flag was set after the new mode was written. */
  predicate SignalAfterWrite(events: seq<Event>, port: string) {
    exists i, j :: 0 <= i < j < |events| && events[i] == Wrote(port) && events[j].Signalled?
  }

  /** The write happened, once, and otherwise only partners came and were signalled. */
  predicate WrittenOnce(events: seq<Event>, port: string) {
    exists i :: 0 <= i < |events| && events[i] == Wrote(port)
                && forall j :: 0 <= j < |events| && j != i ==> OfPartner(events[j])
  }

  predicate SetBackOnce(events: seq<Event>, port: string) {
    exists n :: 0 <= n < |events| && events[n] == Dual(port) && NoDual(events[..n]) && OnlyPartners(events[n + 1..])
  }

  /** A mode switch is reported as done only if some partner was signalled after the write and nobody set the port
      back; one reported as failed was set back, and nothing else was. No other switch is ever set back. */
  predicate Sound(o: Outcome) {
    if !o.what.mode then NoDual(o.events)
    else if o.ok then WrittenOnce(o.events, o.what.port) && SignalAfterWrite(o.events, o.what.port)
    else SetBackOnce(o.events, o.what.port)
  }

  predicate Inv(s: State) {
    && (s.phase != Idle <==> s.roleLock == Switcher)
    && (s.partnerLocked <==> s.phase == Armed || s.phase == Written)
    && (s.roleLock == Worker ==> s.matched == None)
    && (forall o :: o in s.outcomes ==> Sound(o))
    && PhaseInv(s)
  }

  predicate PhaseInv(s: State) {
    match s.phase
    case Idle => true
    case Begun => OnlyPartners(s.events)
    case Armed => OnlyPartners(s.events) && s.what.mode && !s.partnerUp
    case Written =>
      && WrittenOnce(s.events, s.what.port) && s.what.mode
      && !s.partnerUp && !SignalAfterWrite(s.events, s.what.port)
    case Waiting =>
      && WrittenOnce(s.events, s.what.port) && s.what.mode
      && (s.partnerUp <==> SignalAfterWrite(s.events, s.what.port))
    case Failed => NoDual(s.events) && s.what.mode
    case Decided(ok) => Sound(Outcome(s.what, ok, s.events))
  }

  lemma WrittenOnceGrows(events: seq<Event>, e: Event, port: string)
    requires WrittenOnce(events, port) && OfPartner(e)
    ensures WrittenOnce(events + [e], port)
    ensures SignalAfterWrite(events + [e], port) <==> SignalAfterWrite(events, port) || e.Signalled?
  {
    var more := events + [e];
    var i :| 0 <= i < |events| && events[i] == Wrote(port)
      && forall j :: 0 <= j < |events| && j != i ==> OfPartner(events[j]);
    assert more[i] == Wrote(port) && more[|events|] == e;
    if SignalAfterWrite(events, port) {
      var k, l :| 0 <= k < l < |events| && events[k] == Wrote(port) && events[l].Signalled?;
      assert more[k] == Wrote(port) && more[l].Signalled?;
    }
  }

  lemma SetBackGrows(events: seq<Event>, e: Event, port: string)
    requires SetBackOnce(events, port) && OfPartner(e)
    ensures SetBackOnce(events + [e], port)
  {
    var more := events + [e];
    var n :| 0 <= n < |events| && events[n] == Dual(port) && NoDual(events[..n]) && OnlyPartners(events[n + 1..]);
    assert more[..n] == events[..n] && more[n + 1..] == events[n + 1..] + [e] && more[n] == Dual(port);
  }

  lemma PartnersThenWrote(events: seq<Event>, port: string)
    requires OnlyPartners(events)
    ensures WrittenOnce(events + [Wrote(port)], port) && !SignalAfterWrite(events + [Wrote(port)], port)
  {
    var more := events + [Wrote(port)];
    assert more[|events|] == Wrote(port);
    assert forall j :: 0 <= j < |events| ==> OfPartner(more[j]);
  }

  lemma NoDualThenDual(events: seq<Event>, port: string)
    requires NoDual(events)
    ensures SetBackOnce(events + [Dual(port)], port)
  {
    var more := events + [Dual(port)];
    assert more[|events|] == Dual(port) && more[..|events|] == events && more[|events| + 1..] == [];
  }

  lemma SoundGrows(o: Outcome, e: Event)
    requires Sound(o) && OfPartner(e)
    ensures Sound(o.(events := o.events + [e]))
  {
    if o.what.mode {
      if o.ok {
        WrittenOnceGrows(o.events, e, o.what.port);
      } else {
        SetBackGrows(o.events, e, o.what.port);
      }
    }
  }

  lemma PartnerStepKeeps(s: State, step: Step)
    requires Inv(s) && Enabled(s, step) && (step.PartnerComes? || step == SetFlag)
    ensures PhaseInv(Apply(s, step))
  {
    var e := if step == SetFlag then Signalled(s.matched.value) else Came(step.port);
    match s.phase
    case Written => WrittenOnceGrows(s.events, e, s.what.port);
    case Waiting => WrittenOnceGrows(s.events, e, s.what.port);
    case Decided(ok) => SoundGrows(Outcome(s.what, ok, s.events), e);
    case _ =>
  }

  lemma SwitchStepKeeps(s: State, step: Step)
    requires Inv(s) && Enabled(s, step) && !step.PartnerComes? && step != SetFlag && !step.SweepPort?
    ensures PhaseInv(Apply(s, step))
  {
    match step
    case Write(ok) => PartnersThenWrote(s.events, s.what.port);
    case SetBack => NoDualThenDual(s.events, s.what.port);
    case _ =>
  }

  /** Every step of the switching thread, of the worker and of the partners keeps the invariant. */
  lemma StepKeepsInv(s: State, step: Step)
    requires Inv(s) && Enabled(s, step)
    ensures Inv(Apply(s, step))
  {
    if step.PartnerComes? || step == SetFlag {
      PartnerStepKeeps(s, step);
    } else if !step.SweepPort? {
      SwitchStepKeeps(s, step);
    }
  }

  // ---------------------------------------------------------------- runs

  predicate Legal(s: State, steps: seq<Step>)
    decreases steps
  {
    steps == [] || (Enabled(s, steps[0]) && Legal(Apply(s, steps[0]), steps[1..]))
  }

  function Run(s: State, steps: seq<Step>): State
    requires Legal(s, steps)
    decreases steps
  {
    if steps == [] then s else Run(Apply(s, steps[0]), steps[1..])
  }

  lemma {:induction false} InvOverRun(s: State, steps: seq<Step>)
    requires Inv(s) && Legal(s, steps)
    ensures Inv(Run(s, steps))
    decreases steps
  {
    if steps != [] {
      StepKeepsInv(s, steps[0]);
      InvOverRun(Apply(s, steps[0]), steps[1..]);
    }
  }

  /** In every interleaving of switches, partners and the worker: a mode switch is reported as done only if the
      flag was set for some partner after its write and the port was not set back meanwhile, and reported as failed
      only after the port was set back, once. */
  lemma OutcomesAreSound(steps: seq<Step>, o: Outcome)
    requires Legal(START, steps) && o in Run(START, steps).outcomes
    ensures Sound(o)
  {
    InvOverRun(START, steps);
  }

  /** A waiting switch that wakes up before its time is over succeeds exactly if the flag was set after its
      write; one whose time is over fails in any case. */
  lemma WakesExactly(steps: seq<Step>, timedOut: bool)
    requires Legal(START, steps) && Enabled(Run(START, steps), Wake(timedOut))
    ensures var s := Run(START, steps);
            Apply(s, Wake(timedOut)).phase ==
              if timedOut then Failed
              else if SignalAfterWrite(s.events, s.what.port) then Decided(true) else Waiting
  {
    InvOverRun(START, steps);
  }

  /** The worker never sets ports back while a switch is in progress. */
  lemma SweepExcludesSwitch(steps: seq<Step>)
    requires Legal(START, steps)
    ensures var s := Run(START, steps); !(s.roleLock == Worker && s.phase != Idle)
  {
    InvOverRun(START, steps);
  }

  // ---------------------------------------------------------------- composing runs

  /** Some legal run from the start leads to `t`. */
  ghost predicate Reachable(t: State) {
    exists steps :: Legal(START, steps) && Run(START, steps) == t
  }

  lemma StartIsReachable()
    ensures Reachable(START)
  {
    assert Legal(START, []) && Run(START, []) == START;
  }

  lemma {:induction false} RunThenStep(s: State, steps: seq<Step>, step: Step)
    requires Legal(s, steps) && Enabled(Run(s, steps), step)
    ensures Legal(s, steps + [step]) && Run(s, steps + [step]) == Apply(Run(s, steps), step)
    decreases steps
  {
    if steps == [] {
      assert steps + [step] == [step] && [step][1..] == [];
    } else {
      RunThenStep(Apply(s, steps[0]), steps[1..], step);
      assert (steps + [step])[1..] == steps[1..] + [step];
    }
  }

  lemma NextIsReachable(s: State, step: Step)
    requires Reachable(s) && Enabled(s, step)
    ensures Reachable(Apply(s, step))
  {
    var steps :| Legal(START, steps) && Run(START, steps) == s;
    RunThenStep(START, steps, step);
  }

  lemma ReachableInv(s: State)
    requires Reachable(s)
    ensures Inv(s)
  {
    var steps :| Legal(START, steps) && Run(START, steps) == s;
    InvOverRun(START, steps);
  }

  // ---------------------------------------------------------------- whose partner, and when

  lemma Next(s: State, step: Step) returns (t: State)
    requires Reachable(s) && Enabled(s, step)
    ensures t == Apply(s, step) && Reachable(t)
  {
    NextIsReachable(s, step);
    t := Apply(s, step);
  }

  /** A switch of the mode of `port` is about to write. */
  lemma ArmedFor(port: string, stale: bool) returns (s: State)
    ensures Reachable(s) && s.phase == Armed && s.what == Switch(port, true) && s.partnerLocked
    ensures s.roleLock == Switcher && s.queue == [] && s.outcomes == [] && !s.partnerUp
    ensures s.matched == if stale then Some(port) else None
    ensures s.events == if stale then [Came(port)] else []
  {
    StartIsReachable();
    s := Next(START, Begin(Switch(port, true)));
    if stale {
      s := Next(s, PartnerComes(port));
      s := Next(s, Match);
    }
    s := Next(s, Arm);
  }

  /** A stale signal: the partner came and its message was matched before the switch took mPartnerLock; the worker
      gets the lock when the switch waits, and the switch is reported as done although no partner came after its
      write. */
  lemma StaleSignalSucceeds(port: string) returns (s: State)
    ensures Reachable(s)
    ensures s.outcomes == [Outcome(Switch(port, true), true, [Came(port), Wrote(port), Signalled(port)])]
  {
    s := ArmedFor(port, true);
    s := Next(s, Write(true));
    s := Next(s, Wait);
    s := Next(s, SetFlag);
    assert s.events == [Came(port), Wrote(port), Signalled(port)];
    s := Next(s, Wake(false));
    s := Next(s, Tell);
  }

  /** The partner of another port completes the switch as well: neither the pattern nor the flag names a port. */
  lemma OtherPartnerSucceeds(port: string, other: string) returns (s: State)
    ensures Reachable(s)
    ensures s.outcomes == [Outcome(Switch(port, true), true, [Wrote(port), Came(other), Signalled(other)])]
  {
    s := ArmedFor(port, false);
    s := Next(s, Write(true));
    s := Next(s, Wait);
    s := Next(s, PartnerComes(other));
    s := Next(s, Match);
    s := Next(s, SetFlag);
    assert s.events == [Wrote(port), Came(other), Signalled(other)];
    s := Next(s, Wake(false));
    s := Next(s, Tell);
  }

  /** Messages of partners that have come are not signalled yet. */
  predicate Pending(s: State) {
    s.queue != [] || s.matched.Some?
  }

  /** From `t` on the switch succeeds, and meanwhile only partners of ports in `comers` come. */
  predicate Succeeds(t: State, steps: seq<Step>, comers: set<string>) {
    && Legal(t, steps) && Tell !in steps && Run(t, steps).phase == Decided(true)
    && (forall k :: 0 <= k < |steps| && steps[k].PartnerComes? ==> steps[k].port in comers)
  }

  /** Every success after the write at `s` is due to a partner of the port that came after the write. */
  ghost predicate SuccessMeansOwnPartner(s: State, comers: set<string>)
    requires Enabled(s, Write(true))
  {
    forall steps :: Succeeds(Apply(s, Write(true)), steps, comers) ==> PartnerComes(s.what.port) in steps
  }

  /** Success means that this port's partner came after the write exactly if no message of a partner is pending
      when the role is written, and no partner of another port comes. */
  lemma OwnPartnerExactly(s: State, comers: set<string>)
    requires Reachable(s) && s.phase == Armed
    ensures SuccessMeansOwnPartner(s, comers) <==> !Pending(s) && comers <= {s.what.port}
  {
    ReachableInv(s);
    var t := Apply(s, Write(true));
    if Pending(s) {
      var steps := PendingSucceeds(t, comers);
      assert Succeeds(t, steps, comers) && PartnerComes(s.what.port) !in steps;
    } else if !(comers <= {s.what.port}) {
      var other :| other in comers && other != s.what.port;
      var steps := OtherSucceeds(t, other, comers);
      assert Succeeds(t, steps, comers) && PartnerComes(s.what.port) !in steps;
    } else {
      forall steps: seq<Step> | Succeeds(t, steps, comers) ensures PartnerComes(s.what.port) in steps {
        if PartnerComes(s.what.port) !in steps {
          forall k | 0 <= k < |steps| ensures !steps[k].PartnerComes? && steps[k] != Tell {
            assert steps[k] in steps;
          }
          NobodyComes(t, steps);
        }
      }
    }
  }

  lemma PendingSucceeds(t: State, comers: set<string>) returns (steps: seq<Step>)
    requires Pending(t) && t.phase == Written && t.roleLock == Switcher
    ensures Succeeds(t, steps, comers) && forall port :: PartnerComes(port) !in steps
  {
    if t.matched.Some? {
      steps := [Wait, SetFlag, Wake(false)];
      assert steps[1..] == [SetFlag, Wake(false)] && steps[1..][1..] == [Wake(false)];
    } else {
      steps := [Wait, Match, SetFlag, Wake(false)];
      assert steps[1..] == [Match, SetFlag, Wake(false)] && steps[1..][1..] == [SetFlag, Wake(false)];
      assert steps[1..][1..][1..] == [Wake(false)];
    }
  }

  lemma OtherSucceeds(t: State, other: string, comers: set<string>) returns (steps: seq<Step>)
    requires !Pending(t) && t.phase == Written && t.roleLock == Switcher && other in comers
    ensures Succeeds(t, steps, comers) && forall port :: PartnerComes(port) in steps ==> port == other
  {
    steps := [PartnerComes(other)];
    var u := Apply(t, PartnerComes(other));
    var more := PendingSucceeds(u, comers);
    steps := steps + more;
    assert steps[1..] == more;
  }

  /** While nothing is pending and nobody comes, a switch that has written does not succeed. */
  lemma {:induction false} NobodyComes(t: State, steps: seq<Step>)
    requires t.phase in {Written, Waiting, Failed, Decided(false)} && !t.partnerUp && !Pending(t)
    requires Legal(t, steps) && forall k :: 0 <= k < |steps| ==> !steps[k].PartnerComes? && steps[k] != Tell
    ensures Run(t, steps).phase != Decided(true)
    decreases steps
  {
    if steps != [] {
      assert !steps[0].PartnerComes? && steps[0] != Tell;
      NobodyComes(Apply(t, steps[0]), steps[1..]);
    }
  }
}
