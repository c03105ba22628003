/** The USB object: role switches and the handling of uevents, working on the fields step by step; `model` is the
    protocol state they implement. What files and waits answer is a parameter, and so are directory look-ups. */
module UsbTypeC {
  import opened Common
  import opened RoleSwitch
  import opened TypecPorts
  import opened TypecStatus
  import opened Uevents

  /** convertRoletoString. */
  function RoleName(kind: RoleType, role: nat): string {
    match kind
    case PowerRoleType => if role == SOURCE then "source" else if role == SINK then "sink" else "none"
    case DataRoleType => if role == HOST then "host" else if role == DEVICE then "device" else "none"
    case ModeType => if role == UFP then "sink" else if role == DFP then "source" else "none"
    case OtherType => "none"
  }

  /** Power and data roles read back as what was written. */
  lemma RoleNameRoundTrip(kind: RoleType, role: nat)
    requires kind == PowerRoleType || kind == DataRoleType
    ensures NumberOf(WordOf(RoleName(kind, role)), kind) == role <==> role <= 2
  {
  }

  /** What a role switch meets: whether the role file opens, whether the write works, what reads back, if anything,
      and whether wake-up k of the wait is due to the time-out. */
  datatype Answers = Answers(opens: bool, writes: bool, line: Option<string>, timeouts: seq<bool>)

  class Callback {
    var told: seq<(string, bool)>

    method NotifyRoleSwitchStatus(port: string, ok: bool)
      modifies `told
      ensures told == old(told) + [(port, ok)]
    {
      told := told + [(port, ok)];
    }
  }

  class Usb {
    var mCallback: Callback?
    var mPartnerUp: bool
    var mPartnerLock: bool            // taken
    var mRoleSwitchLock: Holder
    var roleWrites: seq<(string, RoleType, string)>    // what switchRole put into role files
    ghost var model: State

    ghost predicate Valid()
      reads this
    {
      && Reachable(model) && model.partnerUp == mPartnerUp
      && model.partnerLocked == mPartnerLock && model.roleLock == mRoleSwitchLock
    }

    constructor ()
      ensures Valid() && model == START && mCallback == null && roleWrites == []
    {
      roleWrites := [];
      mCallback, mPartnerUp, mPartnerLock, mRoleSwitchLock := null, false, false, Nobody;
      model := START;
      StartIsReachable();
    }

    ghost method Take(step: Step)
      requires Reachable(model) && Enabled(model, step)
      modifies `model
      ensures model == Apply(old(model), step) && Reachable(model)
    {
      NextIsReachable(model, step);
      model := Apply(model, step);
    }

    // -------------------------------------------------------------- the worker

    /** What the worker does for the partner string it has matched. */
    method SignalPartner()
      requires Valid() && !mPartnerLock && model.matched.Some?
      modifies `mPartnerUp, `model
      ensures Valid() && mPartnerUp && model == old(model).(
        matched := None, partnerUp := true, events := old(model).events + [Signalled(old(model).matched.value)])
    {
      mPartnerUp := true;
      Take(SetFlag);
    }

    /** Partners may come, the worker may read their messages, and, while mPartnerLock is free, set the flag. */
    method WorkerMayRun()
      requires Valid()
      modifies `mPartnerUp, `model
      ensures Valid() && OnlyPartnersMoved(old(model), model)
      ensures mPartnerLock ==> mPartnerUp == old(mPartnerUp)
    {
      var turns: int := *;
      while 0 < turns
        invariant Valid() && OnlyPartnersMoved(old(model), model)
        invariant mPartnerLock ==> mPartnerUp == old(mPartnerUp)
      {
        turns := turns - 1;
        ghost var port: string := *;
        Take(PartnerComes(port));
        if mRoleSwitchLock != Worker {
          if model.matched == None {
            Take(Match);
          }
          var sets: bool := *;
          if sets && !mPartnerLock {
            SignalPartner();
          }
        }
      }
    }

    static ghost predicate OnlyPartnersMoved(s: State, t: State) {
      t == s.(queue := t.queue, matched := t.matched, partnerUp := t.partnerUp, events := t.events)
    }

    /** What the worker does for a typec string: set back every port without a partner, but only if no switch is
        in progress. */
    method Sweep(statuses: seq<PortStatus>, partners: set<string>)
      requires Valid() && mRoleSwitchLock != Worker && model.matched == None
      modifies `mRoleSwitchLock, `model
      ensures Valid() && model == old(model).(events := model.events)
      ensures mRoleSwitchLock == Switcher ==> model == old(model)
      ensures mRoleSwitchLock == Nobody ==> model.events == old(model).events + SetBacks(statuses, partners)
    {
      if mRoleSwitchLock == Nobody {
        ghost var before := model;
        mRoleSwitchLock := Worker;
        Take(BeginSweep);
        assert statuses[..|statuses|] == statuses;
        assert before.events + SetBacks(statuses[..0], partners) == before.events;
        for i := 0 to |statuses|
          invariant Valid() && mRoleSwitchLock == Worker
          invariant model == before.(roleLock := Worker, events := before.events + SetBacks(statuses[..i], partners))
        {
          assert statuses[..i + 1][..i] == statuses[..i];
          if statuses[i].portName !in partners {
            Take(SweepPort(statuses[i].portName));
          }
        }
        mRoleSwitchLock := Nobody;
        Take(EndSweep);
      }
    }

    /** The ports set back by a sweep: those without a partner, in order. */
    static ghost function SetBacks(statuses: seq<PortStatus>, partners: set<string>): seq<Event> {
      if statuses == [] then []
      else
        var n := |statuses| - 1;
        SetBacks(statuses[..n], partners) + if statuses[n].portName in partners then [] else [Dual(statuses[n].portName)]
    }

    /** Sweep sets back the ports of the statuses that are not among the partners, in order, each as often as it
        is listed. */
    static lemma {:induction false} SetBacksExactly(statuses: seq<PortStatus>, partners: set<string>)
      returns (from: seq<nat>)
      ensures |from| == |SetBacks(statuses, partners)| && forall j, k :: 0 <= j < k < |from| ==> from[j] < from[k]
      ensures forall i :: i in from <==> 0 <= i < |statuses| && statuses[i].portName !in partners
      ensures forall k :: 0 <= k < |from| ==>
                from[k] < |statuses| && SetBacks(statuses, partners)[k] == Dual(statuses[from[k]].portName)
    {
      from := [];
      if statuses != [] {
        var n := |statuses| - 1;
        from := SetBacksExactly(statuses[..n], partners);
        var earlier := SetBacks(statuses[..n], partners);
        assert AreBacks(earlier, statuses[..n], from);
        BacksMore(earlier, statuses, from);
        forall i ensures i in from <==> 0 <= i < n && statuses[i].portName !in partners {
          assert i in from <==> 0 <= i < n && statuses[..n][i].portName !in partners;
        }
        if statuses[n].portName in partners {
          assert SetBacks(statuses, partners) == earlier + [] == earlier;
        } else {
          IndexMore(from, n);
          from := from + [n];
          assert SetBacks(statuses, partners) == earlier + [Dual(statuses[n].portName)];
        }
        assert AreBacks(SetBacks(statuses, partners), statuses, from);
      }
    }

    static ghost predicate AreBacks(backs: seq<Event>, statuses: seq<PortStatus>, from: seq<nat>) {
      |from| == |backs| && forall k :: 0 <= k < |from| ==>
        from[k] < |statuses| && backs[k] == Dual(statuses[from[k]].portName)
    }

    static lemma BacksMore(backs: seq<Event>, statuses: seq<PortStatus>, from: seq<nat>)
      requires statuses != [] && AreBacks(backs, statuses[..|statuses| - 1], from)
      ensures AreBacks(backs, statuses, from)
      ensures var n := |statuses| - 1; AreBacks(backs + [Dual(statuses[n].portName)], statuses, from + [n])
    {
    }

    /** The events of the reactions to one message. */
    static ghost function EventsOf(reactions: seq<Reaction>, switching: bool, statuses: seq<PortStatus>,
                                   partners: set<string>): seq<Event> {
      if reactions == [] then []
      else
        var n := |reactions| - 1;
        EventsOf(reactions[..n], switching, statuses, partners) + EventsOfOne(reactions[n], switching, statuses, partners)
    }

    static ghost function EventsOfOne(reaction: Reaction, switching: bool, statuses: seq<PortStatus>,
                                      partners: set<string>): seq<Event> {
      match reaction
      case PartnerUp(added) => [Signalled(PortOf(added))]
      case PortsChanged => if switching then [] else SetBacks(statuses, partners)
    }

    /** The ports of the partners that the reactions are for. */
    static ghost function PortsOf(reactions: seq<Reaction>): seq<string> {
      if reactions == [] then []
      else
        var n := |reactions| - 1;
        PortsOf(reactions[..n]) + PortsOfOne(reactions[n])
    }

    static ghost function PortsOfOne(reaction: Reaction): seq<string> {
      if reaction.PartnerUp? then [PortOf(reaction.added)] else []
    }

    method Handle(reaction: Reaction, statuses: seq<PortStatus>, partners: set<string>)
      requires Valid() && !mPartnerLock && mRoleSwitchLock != Worker && model.matched == None
      requires PortsOfOne(reaction) <= model.queue
      modifies `mPartnerUp, `mRoleSwitchLock, `model
      ensures Valid() && mPartnerUp == (old(mPartnerUp) || reaction.PartnerUp?)
      ensures model == old(model).(
        events := old(model).events + EventsOfOne(reaction, old(mRoleSwitchLock) == Switcher, statuses, partners),
        partnerUp := mPartnerUp, queue := old(model).queue[|PortsOfOne(reaction)|..])
    {
      if reaction.PartnerUp? {
        Take(Match);
        SignalPartner();
      } else {
        Sweep(statuses, partners);
      }
    }

    static lemma AnyPartnerOfMore(reactions: seq<Reaction>, i: nat)
      requires i < |reactions|
      ensures AnyPartner(reactions[..i + 1]) <==> AnyPartner(reactions[..i]) || reactions[i].PartnerUp?
    {
      assert reactions[..i + 1] == reactions[..i] + [reactions[i]];
      assert reactions[..i + 1][i] == reactions[i];
      forall k | 0 <= k < i ensures reactions[..i + 1][k] == reactions[..i][k] { }
    }

    static predicate AnyPartner(reactions: seq<Reaction>) {
      exists i :: 0 <= i < |reactions| && reactions[i].PartnerUp?
    }

    method HandleAll(reactions: seq<Reaction>, statuses: seq<PortStatus>, partners: set<string>)
      requires Valid() && !mPartnerLock && mRoleSwitchLock != Worker && model.matched == None
      requires PortsOf(reactions) <= model.queue
      modifies `mPartnerUp, `mRoleSwitchLock, `model
      ensures Valid() && mPartnerUp == (old(mPartnerUp) || AnyPartner(reactions))
      ensures model == old(model).(
        events := old(model).events + EventsOf(reactions, old(mRoleSwitchLock) == Switcher, statuses, partners),
        partnerUp := mPartnerUp, queue := old(model).queue[|PortsOf(reactions)|..])
    {
      ghost var before, switching := model, mRoleSwitchLock == Switcher;
      ghost var told: seq<Event> := [];
      assert before.events + told == before.events;
      for i := 0 to |reactions|
        invariant Valid() && !mPartnerLock && told == EventsOf(reactions[..i], switching, statuses, partners)
        invariant mPartnerUp == (before.partnerUp || AnyPartner(reactions[..i]))
        invariant PortsOf(reactions[..i]) <= before.queue
        invariant model == before.(events := before.events + told, partnerUp := mPartnerUp,
                                   queue := before.queue[|PortsOf(reactions[..i])|..])
      {
        EventsOfMore(reactions, i, switching, statuses, partners);
        PortsAhead(reactions, i, before.queue);
        AnyPartnerOfMore(reactions, i);
        ghost var more := EventsOfOne(reactions[i], switching, statuses, partners);
        Handle(reactions[i], statuses, partners);
        Extend(before.events, told, more);
        told := told + more;
      }
      assert reactions[..|reactions|] == reactions;
    }

    static lemma Extend(before: seq<Event>, told: seq<Event>, more: seq<Event>)
      ensures before + told + more == before + (told + more)
    {
    }

    static lemma EventsOfMore(reactions: seq<Reaction>, i: nat, switching: bool, statuses: seq<PortStatus>,
                              partners: set<string>)
      requires i < |reactions|
      ensures EventsOf(reactions[..i + 1], switching, statuses, partners) ==
        EventsOf(reactions[..i], switching, statuses, partners) + EventsOfOne(reactions[i], switching, statuses, partners)
      ensures reactions[..i + 1] == reactions[..i] + [reactions[i]]
    {
      assert reactions[..i + 1][..i] == reactions[..i];
    }

    /** The messages ahead in the queue are those of the reactions still to come. */
    static lemma PortsAhead(reactions: seq<Reaction>, i: nat, queue: seq<string>)
      requires i < |reactions| && PortsOf(reactions) <= queue
      ensures PortsOf(reactions[..i + 1]) == PortsOf(reactions[..i]) + PortsOfOne(reactions[i])
      ensures PortsOf(reactions[..i + 1]) <= queue
      ensures PortsOfOne(reactions[i]) <= queue[|PortsOf(reactions[..i])|..]
      ensures queue[|PortsOf(reactions[..i])|..][|PortsOfOne(reactions[i])|..] == queue[|PortsOf(reactions[..i + 1])|..]
    {
      assert reactions[..i + 1][..i] == reactions[..i];
      PortsBegin(reactions, i + 1);
    }

    static lemma {:induction false} PortsBegin(reactions: seq<Reaction>, i: nat)
      requires i <= |reactions|
      ensures PortsOf(reactions[..i]) <= PortsOf(reactions)
    {
      var n := |reactions| - 1;
      if i == |reactions| {
        assert reactions[..i] == reactions;
      } else {
        PortsBegin(reactions[..n], i);
        assert reactions[..n][..i] == reactions[..i];
      }
    }

    /** uevent_event with what its strings make the worker do. The message is the next in line: the partners it
        announces are the first of those that have come and were not read about. */
    method HandleUevent(msg: array<char>, n: int, statuses: seq<PortStatus>, partners: set<string>)
      requires Valid() && !mPartnerLock && mRoleSwitchLock != Worker && msg.Length == UEVENT_MSG_LEN + 2
      requires model.matched == None && PortsOf(ReactionsTo(msg[..], n)) <= model.queue
      modifies `mPartnerUp, `mRoleSwitchLock, `model, msg
      ensures Valid()
      ensures var reactions := ReactionsTo(old(msg[..]), n);
              && mPartnerUp == (old(mPartnerUp) || AnyPartner(reactions))
              && model == old(model).(
                events := old(model).events + EventsOf(reactions, old(mRoleSwitchLock) == Switcher, statuses, partners),
                partnerUp := mPartnerUp, queue := old(model).queue[|PortsOf(reactions)|..])
    {
      assert 0 < n < UEVENT_MSG_LEN ==> msg[..][..n] == msg[..n];
      var reactions := UeventEvent(msg, n);
      HandleAll(reactions, statuses, partners);
    }

    static function ReactionsTo(buffer: string, n: int): seq<Reaction>
      requires |buffer| == UEVENT_MSG_LEN + 2
    {
      if 0 < n < UEVENT_MSG_LEN then Reactions(Strings(buffer[..n])) else []
    }

    // -------------------------------------------------------------- role switches

    /** switchMode: waits anew until the wait times out or a partner is there; `wakes` counts the wake-ups before. */
    method SwitchMode(port: string, role: nat, answers: Answers)
      returns (decided: bool, roleSwitch: bool, wakes: nat)
      requires Valid() && model.phase == Begun && model.what == Switch(port, true) && !mPartnerLock
      modifies `mPartnerUp, `mPartnerLock, `roleWrites, `model
      ensures Valid() && !mPartnerLock && model.phase == if decided then Decided(roleSwitch) else Waiting
      ensures model.what == old(model).what && model.outcomes == old(model).outcomes
      ensures Awaited(answers, decided, roleSwitch, wakes)
      ensures roleWrites == old(roleWrites) + if answers.opens && answers.writes
                                              then [(port, ModeType, RoleName(ModeType, role))] else []
    {
      decided, roleSwitch, wakes := true, false, 0;
      if answers.opens {
        mPartnerLock := true;
        mPartnerUp := false;
        Take(Arm);
        WorkerMayRun();
        Take(Write(answers.writes));
        if answers.writes {
          roleWrites := roleWrites + [(port, ModeType, RoleName(ModeType, role))];
          decided, roleSwitch, wakes := AwaitPartner(answers.timeouts);
        } else {
          mPartnerLock := false;
        }
      } else {
        Take(OpenFails);
      }
      if decided && !roleSwitch {
        Take(SetBack);
      }
    }

    /** The switch fails if the role file cannot be written; else it is decided by the first wake-up that is due to
        the time-out, which fails it, or finds a partner. */
    static predicate Awaited(answers: Answers, decided: bool, roleSwitch: bool, wakes: nat) {
      if answers.opens && answers.writes then WokenAt(answers.timeouts, decided, roleSwitch, wakes)
      else decided && !roleSwitch
    }

    static predicate WokenAt(timeouts: seq<bool>, decided: bool, roleSwitch: bool, wakes: nat) {
      && wakes <= |timeouts| && (decided <==> wakes < |timeouts|)
      && (forall k :: 0 <= k < wakes ==> !timeouts[k])
      && (decided ==> roleSwitch == !timeouts[wakes])
    }

    /** The wait, which releases mPartnerLock while it lasts. */
    method AwaitPartner(timeouts: seq<bool>) returns (decided: bool, roleSwitch: bool, wakes: nat)
      requires Valid() && model.phase == Written && mPartnerLock
      modifies `mPartnerUp, `mPartnerLock, `model
      ensures Valid() && !mPartnerLock
      ensures model.phase == if !decided then Waiting else if roleSwitch then Decided(true) else Failed
      ensures model.what == old(model).what && model.outcomes == old(model).outcomes
      ensures WokenAt(timeouts, decided, roleSwitch, wakes)
    {
      WorkerMayRun();
      mPartnerLock := false;
      Take(Wait);
      decided, roleSwitch, wakes := false, false, 0;
      while wakes < |timeouts|
        invariant Valid() && !mPartnerLock && model.phase == Waiting && !decided
        invariant model.what == old(model).what && model.outcomes == old(model).outcomes
        invariant wakes <= |timeouts| && forall k :: 0 <= k < wakes ==> !timeouts[k]
      {
        WorkerMayRun();
        Take(Wake(timeouts[wakes]));
        if timeouts[wakes] {
          return true, false, wakes;
        } else if mPartnerUp {
          return true, true, wakes;
        }
        wakes := wakes + 1;
      }
    }

    /** switchRole: a switch that ends is reported to the callback once, and the report is sound. For a power or a data
        role it is reported as done exactly if the role file opens, takes the word of the role, and reads back with that
        word selected. */
    method SwitchRole(port: string, kind: RoleType, role: nat, answers: Answers)
      returns (finished: bool, roleSwitch: bool, wakes: nat)
      requires Valid() && model.phase == Idle && mRoleSwitchLock == Nobody
      requires answers.line.Some? ==> |answers.line.value| < SIZE_MAX_PLUS_ONE
      modifies this, mCallback
      ensures Valid() && mCallback == old(mCallback)
      ensures kind == OtherType ==>
        finished && model == old(model) && (mCallback != null ==> mCallback.told == old(mCallback.told))
      ensures kind != OtherType ==>
        if finished then
          && model.phase == Idle && mRoleSwitchLock == Nobody
          && |model.outcomes| == |old(model).outcomes| + 1 && model.outcomes[..|old(model).outcomes|] == old(model).outcomes
          && (var o := model.outcomes[|old(model).outcomes|];
              o.what == Switch(port, kind == ModeType) && o.ok == roleSwitch && Sound(o))
          && (mCallback != null ==> mCallback.told == old(mCallback.told) + [(port, roleSwitch)])
        else model.phase == Waiting && mRoleSwitchLock == Switcher
      ensures kind == PowerRoleType ==> finished
      ensures kind == PowerRoleType ==>
        var word := if role == 1 then "source" else if role == 2 then "sink" else "none";
        roleSwitch <==>
          answers.opens && answers.writes && answers.line.Some? && Bracketed(answers.line.value) == word
      ensures kind == DataRoleType ==> finished
      ensures kind == DataRoleType ==>
        var word := if role == 1 then "host" else if role == 2 then "device" else "none";
        roleSwitch <==>
          answers.opens && answers.writes && answers.line.Some? && Bracketed(answers.line.value) == word
      ensures kind == ModeType ==>
        if !answers.opens || !answers.writes then finished && !roleSwitch
        else
          && wakes <= |answers.timeouts| && (finished <==> wakes < |answers.timeouts|)
          && (forall k :: 0 <= k < wakes ==> !answers.timeouts[k])
          && (finished ==> roleSwitch == !answers.timeouts[wakes])
      ensures roleWrites == old(roleWrites) +
        if kind == OtherType || !answers.opens || !answers.writes then []
        else if kind == PowerRoleType then
          [(port, kind, if role == 1 then "source" else if role == 2 then "sink" else "none")]
        else if kind == DataRoleType then
          [(port, kind, if role == 1 then "host" else if role == 2 then "device" else "none")]
        else
          [(port, kind, if role == 1 then "sink" else if role == 2 then "source" else "none")]
    {
      wakes := 0;
      if kind == OtherType {
        return true, false, wakes;
      }
      mRoleSwitchLock := Switcher;
      ReachableInv(model);
      Take(Begin(Switch(port, kind == ModeType)));
      if kind == ModeType {
        finished, roleSwitch, wakes := SwitchMode(port, role, answers);
        if !finished { return; }
      } else {
        roleSwitch := SwitchOther(port, kind, role, answers);
        finished := true;
      }
      Report(port, roleSwitch);
    }

    /** The new role is written and, if that worked, read back. */
    method SwitchOther(port: string, kind: RoleType, role: nat, answers: Answers) returns (roleSwitch: bool)
      requires Valid() && model.phase == Begun && !model.what.mode && !mPartnerLock
      requires answers.line.Some? ==> |answers.line.value| < SIZE_MAX_PLUS_ONE
      modifies `roleWrites, `model
      ensures Valid() && model.phase == Decided(roleSwitch)
      ensures model.what == old(model).what && model.outcomes == old(model).outcomes
      ensures roleSwitch <==> answers.opens && answers.writes && answers.line.Some?
                              && Bracketed(answers.line.value) == RoleName(kind, role)
      ensures roleWrites == old(roleWrites) + if answers.opens && answers.writes
                                              then [(port, kind, RoleName(kind, role))] else []
    {
      roleSwitch := false;
      if answers.opens {
        if answers.writes {
          roleWrites := roleWrites + [(port, kind, RoleName(kind, role))];
        }
        if answers.writes && answers.line.Some? {
          var written := ExtractRole(answers.line.value);
          roleSwitch := written == RoleName(kind, role);
        }
        Take(WriteOther(roleSwitch));
      } else {
        Take(OpenFails);
      }
    }

    method Report(port: string, roleSwitch: bool)
      requires Valid() && model.phase == Decided(roleSwitch) && !mPartnerLock
      modifies `mRoleSwitchLock, `model, mCallback
      ensures Valid() && model.phase == Idle && mRoleSwitchLock == Nobody
      ensures model.outcomes == old(model).outcomes + [Outcome(old(model).what, roleSwitch, old(model).events)]
      ensures Sound(Outcome(old(model).what, roleSwitch, old(model).events))
      ensures mCallback != null ==> mCallback.told == old(mCallback.told) + [(port, roleSwitch)]
    {
      ReachableInv(model);
      if mCallback != null {
        mCallback.NotifyRoleSwitchStatus(port, roleSwitch);
      }
      mRoleSwitchLock := Nobody;
      Take(Tell);
    }
  }
}
