/** The multi-HAL proxy object. Its methods work on the fields step by step; `model` is the pipeline state
    they implement, so what holds over runs of the pipeline holds of the object. Methods take the answers of
    the event queue, the clock and the sub-HALs as parameters or as unconstrained choices. */
module HalProxies {
  import opened Common
  import opened SensorTypes
  import opened SharedWakelock
  import opened EventBacklog
  import opened SensorPipeline
  import opened SensorRuns
  import opened SensorRouting
  import opened EventFiltering

  datatype Result = Ok | BadValue | OtherError(code: int)
  datatype OperationMode = Normal | DataInjection

  datatype Call = Activate(handle: Handle, enabled: bool) | SetBatch(handle: Handle, period: int, latency: int)
                | Flush(handle: Handle) | Inject(event: Event)

  /** A sub-HAL as the proxy sees it: its operation mode, and the calls routed to it. */
  class SubHal {
    var operationMode: OperationMode
    var calls: seq<Call>

    /** A failed call changes nothing. */
    method SetOperationMode(mode: OperationMode, reply: Result) returns (result: Result)
      modifies `operationMode
      ensures result == reply
      ensures operationMode == if reply == Ok then mode else old(operationMode)
    {
      if reply == Ok {
        operationMode := mode;
      }
      result := reply;
    }

    method Receive(call: Call)
      modifies `calls
      ensures calls == old(calls) + [call]
    {
      calls := calls + [call];
    }
  }

  class HalProxy {
    const kMaxSizePendingWriteEventsQueue: nat
    const kWakelockTimeoutNs: nat
    const mSubHalList: seq<SubHal>

    var mSensors: Sensors
    var mDynamicSensors: Sensors
    var mDirectChannelSubHal: Option<nat>
    var mCurrentOperationMode: OperationMode

    var mThreadsRun: bool
    var mPendingWriteEventsQueue: seq<Batch>
    var mSizePendingWriteEventsQueue: int
    var mMostEventsObservedPendingWriteEventsQueue: int
    var mEventQueue: seq<Event>      // everything written to the queue since it was installed
    var mEventQueueQuantum: nat      // getQuantumCount()

    var mWakelockRefCount: nat
    var mWakelockTimeoutStartTime: int
    var mWakelockTimeoutResetTime: int
    var wakeLockHeld: bool           // the lock of the power HAL
    var clock: int                   // the last reading of getTimeNow()

    var mPendingWritesThread: Writer // where the two threads are: what a notification finds asleep
    var mWakelockThread: Timer

    ghost const config: Config       // its sensors are the static sensor list as built
    ghost var model: State

    ghost function wakelock(): Wakelock
      reads `mThreadsRun, `mWakelockRefCount, `wakeLockHeld, `mWakelockTimeoutStartTime, `mWakelockTimeoutResetTime
    {
      Wakelock(mThreadsRun, mWakelockRefCount, wakeLockHeld, mWakelockTimeoutStartTime, mWakelockTimeoutResetTime)
    }

    /** The fields hold what the pipeline state says. */
    ghost predicate Valid()
      reads this
    {
      && kMaxSizePendingWriteEventsQueue == config.maxPending && kWakelockTimeoutNs == config.timeout
      && ThreadsAgree(model)
      && model.wl == wakelock()
      && model.backlog == mPendingWriteEventsQueue
      && model.size == mSizePendingWriteEventsQueue
      && model.most == mMostEventsObservedPendingWriteEventsQueue
      && model.written == mEventQueue
      && model.quantum == mEventQueueQuantum
      && model.clock <= clock
      && model.writer == mPendingWritesThread && model.timer == mWakelockThread
      && SameLookup(mSensors, config.sensors)
    }

    // -------------------------------------------------------------- construction and the sensor list

    /** `lists` is what getSensorsList of each sub-HAL hands to its callback, nothing where the call failed. */
    constructor (subHals: seq<SubHal>, lists: seq<seq<SensorInfo>>, maxPending: nat, timeout: nat, now: nat)
      requires |lists| == |subHals|
      ensures Valid() && model == Constructed(now)
      ensures mSubHalList == subHals
      ensures Routing(mSensors, mDirectChannelSubHal) == Build(Reports(lists))
      ensures config == Config(maxPending, timeout, mSensors)
      ensures mDynamicSensors == map[] && mCurrentOperationMode == Normal
    {
      kMaxSizePendingWriteEventsQueue := maxPending;
      kWakelockTimeoutNs := timeout;
      mSubHalList := subHals;
      mSensors, mDynamicSensors, mDirectChannelSubHal := map[], map[], None;
      mCurrentOperationMode := Normal;
      mThreadsRun := false;
      mPendingWriteEventsQueue, mSizePendingWriteEventsQueue := [], 0;
      mMostEventsObservedPendingWriteEventsQueue := 0;
      mEventQueue, mEventQueueQuantum := [], 0;
      mWakelockRefCount, wakeLockHeld := 0, false;
      mWakelockTimeoutStartTime, mWakelockTimeoutResetTime := now, now;
      clock := now;
      mPendingWritesThread, mWakelockThread := Exited, Off;
      config := Config(maxPending, timeout, Build(Reports(lists)).sensors);
      model := Constructed(now);
      new;
      InitializeSensorList(lists);
    }

    method InitializeSensorList(lists: seq<seq<SensorInfo>>)
      requires |lists| == |mSubHalList| && mSensors == map[] && mDirectChannelSubHal == None
      modifies `mSensors, `mDirectChannelSubHal
      ensures Routing(mSensors, mDirectChannelSubHal) == Build(Reports(lists))
    {
      for subHalIndex := 0 to |mSubHalList|
        invariant Routing(mSensors, mDirectChannelSubHal) == Build(Reports(lists[..subHalIndex]))
      {
        assert lists[..subHalIndex + 1][..subHalIndex] == lists[..subHalIndex];
        AddSensorsOf(lists[subHalIndex], subHalIndex, Reports(lists[..subHalIndex]));
      }
      assert lists[..|lists|] == lists;
    }

    /** The callback that getSensorsList of one sub-HAL is given. */
    method AddSensorsOf(list: seq<SensorInfo>, subHalIndex: nat, ghost before: seq<Report>)
      requires Routing(mSensors, mDirectChannelSubHal) == Build(before)
      modifies `mSensors, `mDirectChannelSubHal
      ensures Routing(mSensors, mDirectChannelSubHal) == Build(before + ReportsOf(list, subHalIndex))
    {
      ghost var these := ReportsOf(list, subHalIndex);
      assert before + these[..0] == before;
      for k := 0 to |list|
        invariant Routing(mSensors, mDirectChannelSubHal) == Build(before + these[..k])
      {
        AddSensor(list[k], subHalIndex);
        assert (before + these[..k + 1])[..|before| + k] == before + these[..k];
      }
      assert before + these[..|list|] == before + these;
    }

    method AddSensor(reportedSensor: SensorInfo, subHalIndex: nat)
      modifies `mSensors, `mDirectChannelSubHal
      ensures Routing(mSensors, mDirectChannelSubHal) ==
              Add(old(Routing(mSensors, mDirectChannelSubHal)), Report(subHalIndex, reportedSensor))
    {
      var sensor := reportedSensor;
      if SubHalIndexIsClear(sensor.sensorHandle) {
        sensor := sensor.(sensorHandle := SetSubHalIndex(sensor.sensorHandle, subHalIndex));
        sensor := SetDirectChannelFlags(sensor, subHalIndex);
        var kept := PatchPickup(sensor);
        if kept.Some? {
          mSensors := mSensors[kept.value.sensorHandle := kept.value];
        }
      }
    }

    method SetDirectChannelFlags(sensor: SensorInfo, subHal: nat) returns (changed: SensorInfo)
      modifies `mDirectChannelSubHal
      ensures changed == DirectFlags(old(mDirectChannelSubHal), sensor, subHal)
      ensures mDirectChannelSubHal == ChooseDirect(old(mDirectChannelSubHal), sensor, subHal)
    {
      changed := sensor;
      var supports := HasDirect(sensor.flags);
      if mDirectChannelSubHal == None && supports {
        mDirectChannelSubHal := Some(subHal);
      } else if mDirectChannelSubHal != None && Some(subHal) != mDirectChannelSubHal {
        changed := sensor.(flags := WithoutDirect(sensor.flags));
      }
    }

    // -------------------------------------------------------------- operation modes

    ghost predicate DistinctSubHals() {
      forall i, j :: 0 <= i < j < |mSubHalList| ==> mSubHalList[i] != mSubHalList[j]
    }

    /** The first sub-HAL to refuse, or their number. */
    function FirstRefusal(replies: seq<Result>): (k: nat)
      ensures k <= |replies| && (k < |replies| ==> replies[k] != Ok) && forall i :: 0 <= i < k ==> replies[i] == Ok
    {
      if replies == [] || replies[0] != Ok then 0 else 1 + FirstRefusal(replies[1..])
    }

    /** `replies` and `rollbacks` are the answers to the calls and to the calls that undo them. When all
        sub-HALs were in the current mode before, they all are in the current mode afterwards exactly when
        nothing failed, or nothing was to change, or no undoing call failed. */
    method SetOperationMode(mode: OperationMode, replies: seq<Result>, rollbacks: seq<Result>) returns (result: Result)
      requires |replies| == |rollbacks| == |mSubHalList| && DistinctSubHals()
      modifies `mCurrentOperationMode, mSubHalList`operationMode
      ensures var k := FirstRefusal(replies);
              && result == (if k < |replies| then replies[k] else Ok)
              && mCurrentOperationMode == (if result == Ok then mode else old(mCurrentOperationMode))
              && (forall i :: 0 <= i < |mSubHalList| ==>
                   (mSubHalList[i].operationMode ==
                    if k == |replies| || (i < k && rollbacks[i] != Ok) then mode
                    else if i < k then old(mCurrentOperationMode)
                    else old(mSubHalList[i].operationMode)))
      ensures (forall h :: h in mSubHalList ==> old(h.operationMode) == old(mCurrentOperationMode)) ==>
              ((forall h :: h in mSubHalList ==> h.operationMode == mCurrentOperationMode) <==>
               (result == Ok || mode == old(mCurrentOperationMode)
                || forall i :: 0 <= i < FirstRefusal(replies) ==> rollbacks[i] == Ok))
    {
      result := Ok;
      var subHalIndex := 0;
      ghost var k := FirstRefusal(replies);
      while subHalIndex < |mSubHalList| && result == Ok
        invariant 0 <= subHalIndex <= |mSubHalList|
        invariant result == Ok ==> subHalIndex <= k
        invariant result != Ok ==> subHalIndex == k < |replies| && result == replies[k]
        invariant mCurrentOperationMode == old(mCurrentOperationMode)
        invariant forall i :: 0 <= i < subHalIndex ==> mSubHalList[i].operationMode == mode
        invariant forall i :: subHalIndex <= i < |mSubHalList| ==>
                    mSubHalList[i].operationMode == old(mSubHalList[i].operationMode)
        decreases |mSubHalList| - subHalIndex, result == Ok
      {
        result := mSubHalList[subHalIndex].SetOperationMode(mode, replies[subHalIndex]);
        if result == Ok {
          subHalIndex := subHalIndex + 1;
        }
      }
      if result != Ok {
        for i := 0 to subHalIndex
          invariant mCurrentOperationMode == old(mCurrentOperationMode)
          invariant forall j :: 0 <= j < i ==>
                      mSubHalList[j].operationMode == if rollbacks[j] == Ok then mCurrentOperationMode else mode
          invariant forall j :: i <= j < subHalIndex ==> mSubHalList[j].operationMode == mode
          invariant forall j :: subHalIndex <= j < |mSubHalList| ==>
                      mSubHalList[j].operationMode == old(mSubHalList[j].operationMode)
        {
          var ignored := mSubHalList[i].SetOperationMode(mCurrentOperationMode, rollbacks[i]);
        }
      } else {
        mCurrentOperationMode := mode;
      }
    }

    // -------------------------------------------------------------- routed calls

    /** activate, batch and flush: a call whose handle names no sub-HAL is refused; any other reaches exactly
        the sub-HAL its first byte names, with the first byte cleared, and `reply` is that sub-HAL's answer. */
    method Route(handle: Handle, call: Handle -> Call, reply: Result) returns (result: Result)
      requires DistinctSubHals()
      modifies mSubHalList`calls
      ensures result == if ExtractSubHalIndex(handle) >= |mSubHalList| then BadValue else reply
      ensures forall i :: 0 <= i < |mSubHalList| ==>
                (mSubHalList[i].calls ==
                 if i == ExtractSubHalIndex(handle) then old(mSubHalList[i].calls) + [call(ClearSubHalIndex(handle))]
                 else old(mSubHalList[i].calls))
    {
      if !IsSubHalIndexValid(handle, |mSubHalList|) {
        return BadValue;
      }
      mSubHalList[ExtractSubHalIndex(handle)].Receive(call(ClearSubHalIndex(handle)));
      result := reply;
    }

    /** injectSensorData: refused in normal mode unless the event carries additional information. */
    method InjectSensorData(event: Event, additionalInfo: bool, reply: Result) returns (result: Result)
      requires DistinctSubHals()
      modifies mSubHalList`calls
      ensures result == if (mCurrentOperationMode == Normal && !additionalInfo)
                           || ExtractSubHalIndex(event.sensorHandle) >= |mSubHalList| then BadValue else reply
      ensures forall i :: 0 <= i < |mSubHalList| ==>
                (mSubHalList[i].calls ==
                 if (mCurrentOperationMode != Normal || additionalInfo) && i == ExtractSubHalIndex(event.sensorHandle)
                 then old(mSubHalList[i].calls) + [Inject(event.(sensorHandle := ClearSubHalIndex(event.sensorHandle)))]
                 else old(mSubHalList[i].calls))
    {
      result := Ok;
      if mCurrentOperationMode == Normal && !additionalInfo {
        result := BadValue;
      }
      if result == Ok {
        result := Route(event.sensorHandle, h => Inject(event.(sensorHandle := h)), reply);
      }
    }

    // -------------------------------------------------------------- dynamic sensors

    method OnDynamicSensorsConnected(added: seq<SensorInfo>, subHalIndex: nat) returns (sensors: seq<SensorInfo>)
      modifies `mDynamicSensors
      ensures (mDynamicSensors, sensors) == Connect(old(mDynamicSensors), added, subHalIndex)
    {
      sensors := [];
      assert added[..0] == [];
      for k := 0 to |added|
        invariant (mDynamicSensors, sensors) == Connect(old(mDynamicSensors), added[..k], subHalIndex)
      {
        var sensor := added[k];
        assert added[..k + 1][..k] == added[..k];
        if SubHalIndexIsClear(sensor.sensorHandle) {
          sensor := sensor.(sensorHandle := SetSubHalIndex(sensor.sensorHandle, subHalIndex));
          mDynamicSensors := mDynamicSensors[sensor.sensorHandle := sensor];
          sensors := sensors + [sensor];
        }
      }
      assert added[..|added|] == added;
    }

    method OnDynamicSensorsDisconnected(removed: seq<Handle>, subHalIndex: nat) returns (sensorHandles: seq<Handle>)
      modifies `mDynamicSensors
      ensures (mDynamicSensors, sensorHandles) == Disconnect(old(mDynamicSensors), removed, subHalIndex)
    {
      sensorHandles := [];
      assert removed[..0] == [];
      for k := 0 to |removed|
        invariant (mDynamicSensors, sensorHandles) == Disconnect(old(mDynamicSensors), removed[..k], subHalIndex)
      {
        var sensorHandle := removed[k];
        assert removed[..k + 1][..k] == removed[..k];
        if SubHalIndexIsClear(sensorHandle) {
          sensorHandle := SetSubHalIndex(sensorHandle, subHalIndex);
          if sensorHandle in mDynamicSensors {
            mDynamicSensors := mDynamicSensors - {sensorHandle};
            sensorHandles := sensorHandles + [sensorHandle];
          }
        }
      }
      assert removed[..|removed|] == removed;
    }

    // -------------------------------------------------------------- the shared wake lock

    /** `timeoutStart` is the creation time handed back, if the threads run. */
    method IncrementRefCountAndMaybeAcquireWakelock(delta: nat, now: int) returns (locked: bool, timeoutStart: Option<int>)
      modifies `mWakelockRefCount, `wakeLockHeld, `mWakelockTimeoutStartTime, `mWakelockThread
      ensures wakelock() == Increment(old(wakelock()), delta, now)
      ensures mWakelockThread == if mThreadsRun && old(mWakelockRefCount) == 0 then Roused(old(mWakelockThread))
                                 else old(mWakelockThread)
      ensures locked == mThreadsRun && timeoutStart == if mThreadsRun then Some(mWakelockTimeoutStartTime) else None
    {
      if !mThreadsRun {
        return false, None;
      }
      if mWakelockRefCount == 0 {
        wakeLockHeld := true;
        mWakelockThread := Roused(mWakelockThread);
      }
      mWakelockTimeoutStartTime := now;
      mWakelockRefCount := mWakelockRefCount + delta;
      timeoutStart := Some(mWakelockTimeoutStartTime);
      locked := true;
    }

    /** A scoped wakelock is created, locked. It is `id`, and alive only if the threads run. The increment takes
        mWakelockMutex if they do. */
    method CreateScopedWakelock(id: nat) returns (locked: bool)
      requires Valid() && id !in model.live && MayLock(model)
      modifies `mWakelockRefCount, `wakeLockHeld, `mWakelockTimeoutStartTime, `clock, `mWakelockThread, `model
      ensures Valid() && clock >= old(clock) && model == Apply(config, old(model), ScopedLock(id, clock))
      ensures locked == (id in model.live)
    {
      var now := GetTimeNow();
      StepKeepsThreads(config, model, ScopedLock(id, now));
      model := Apply(config, model, ScopedLock(id, now));
      var timeoutStart;
      locked, timeoutStart := IncrementRefCountAndMaybeAcquireWakelock(1, now);
    }

    method DecrementRefCountAndMaybeReleaseWakelock(delta: nat, timeoutStart: int)
      modifies `mWakelockRefCount, `wakeLockHeld
      ensures wakelock() == Decrement(old(wakelock()), delta, timeoutStart)
    {
      if !mThreadsRun {
        return;
      }
      var start := timeoutStart;
      if start == NO_START {
        start := mWakelockTimeoutResetTime;
      }
      if mWakelockRefCount == 0 || start < mWakelockTimeoutResetTime {
        return;
      }
      mWakelockRefCount := mWakelockRefCount - Min(mWakelockRefCount, delta);
      if mWakelockRefCount == 0 {
        wakeLockHeld := false;
      }
    }

    method ResetSharedWakelock(now: int)
      modifies `mWakelockRefCount, `wakeLockHeld, `mWakelockTimeoutResetTime
      ensures wakelock() == Reset(old(wakelock()), now)
    {
      DecrementRefCountAndMaybeReleaseWakelock(mWakelockRefCount, NO_START);
      mWakelockTimeoutResetTime := now;
    }

    method SharedWakelockDidTimeout(now: int) returns (didTimeout: bool, timeLeft: int)
      ensures didTimeout == DidTimeout(wakelock(), now, kWakelockTimeoutNs)
      ensures !didTimeout ==> timeLeft == kWakelockTimeoutNs - (now - mWakelockTimeoutStartTime)
    {
      var duration := now - mWakelockTimeoutStartTime;
      timeLeft := 0;
      if duration > kWakelockTimeoutNs {
        didTimeout := true;
      } else {
        didTimeout := false;
        timeLeft := kWakelockTimeoutNs - duration;
      }
    }

    /** A clock that never goes back. */
    method GetTimeNow() returns (now: int)
      modifies `clock
      ensures now == clock >= old(clock)
    {
      now :| now >= clock;
      clock := now;
    }

    // -------------------------------------------------------------- posting

    /** The steps of a post that finds room for `available` events and whose write succeeds or not. */
    static ghost predicate IsPost(own: seq<Step>, available: nat, ok: bool) {
      && |own| >= 2 && own[0].Count? && own[1] == Decide(available)
      && own[2..] == if |own| == 2 then [] else [WriteReturns(ok)]
    }

    /** `wakelock` is the scoped wakelock handed over, if locked. The event queue has room for `available` events and
        answers the write with `ok`. Whatever the wakelock thread, the pending-writes thread and the holders of scoped
        wakelocks do meanwhile, what happens is a run of the pipeline that begins with this post and contains all
        of it and no other. */
    method PostEventsToMessageQueue(events: seq<Event>, numWakeupEvents: nat, wakelock: Option<nat>, available: nat,
                                    ok: bool) returns (ghost own: seq<Step>)
      requires Valid() && Enabled(config, model, Enter(Post(events, numWakeupEvents, wakelock)))
      modifies this
      ensures Valid() && model.poster == Nobody
      ensures |own| >= 2 && own[0].Count? && own[1] == Decide(available)
      ensures own[2..] == [] || own[2..] == [WriteReturns(ok)]
      ensures var entered := AfterEnter(config, old(model), Post(events, numWakeupEvents, wakelock));
              LeadsBy(config, PostingThread, entered, model, own)
      ensures model.posts == old(model).posts + 1 && model.posted == old(model).posted + events
    {
      ghost var c, post := config, Post(events, numWakeupEvents, wakelock);
      model := AfterEnter(c, model, post);
      ghost var s := model;
      LeadsByNothing(c, PostingThread, s);
      OthersDuringPost(s, [], wakelock.Some?);
      ghost var count := CountPost(s, numWakeupEvents, wakelock, post);
      OthersDuringPost(s, [count], false);
      own := WriteAndQueue(s, count, events, numWakeupEvents, available, ok, post);
    }

    /** The other threads while this post holds the mutex, until mWakelockMutex is free if the post needs it. */
    method OthersDuringPost(ghost s: State, ghost own: seq<Step>, needsLock: bool)
      requires Valid() && ThreadsAgree(s) && LeadsBy(config, PostingThread, s, model, own) && !model.poster.Nobody?
      modifies this
      ensures Valid() && LeadsBy(config, PostingThread, s, model, own)
      ensures HeldByPost(old(model), model) && (needsLock ==> MayLock(model))
    {
      ghost var t := model;
      if needsLock {
        AwaitWakelockMutex(PostingThread);
      } else {
        Interference(PostingThread);
      }
      Interfered(config, PostingThread, s, t, model, own);
    }

    /** The increment for the wake-up events, if the wakelock handed over is locked. */
    method CountPost(ghost s: State, numWakeupEvents: nat, wakelock: Option<nat>, ghost post: Post)
      returns (ghost count: Step)
      requires Valid() && ThreadsAgree(s) && LeadsBy(config, PostingThread, s, model, []) && model.poster == Entered(post)
      requires post.wakelock == wakelock && post.wakeups == numWakeupEvents && (wakelock.Some? ==> MayLock(model))
      modifies `mWakelockRefCount, `wakeLockHeld, `mWakelockTimeoutStartTime, `clock, `mWakelockThread, `model
      ensures Valid() && count.Count? && LeadsBy(config, PostingThread, s, model, [count])
      ensures model.poster == Counted(post)
      ensures model.posts == old(model).posts && model.posted == old(model).posted
    {
      var now := GetTimeNow();
      count := Count(now);
      LeadsByOwn(config, PostingThread, s, model, [], count);
      assert [] + [count] == [count];
      StepKeepsThreads(config, model, Count(now));
      model := Apply(config, model, Count(now));
      if wakelock.Some? {
        var locked, timeoutStart := IncrementRefCountAndMaybeAcquireWakelock(numWakeupEvents, now);
      }
    }

    /** The write to the event queue, only by a post that finds the backlog empty, and what follows it. */
    method WriteAndQueue(ghost s: State, ghost count: Step, events: seq<Event>, numWakeupEvents: nat, available: nat,
                         ok: bool, ghost post: Post) returns (ghost own: seq<Step>)
      requires Valid() && ThreadsAgree(s) && LeadsBy(config, PostingThread, s, model, [count]) && count.Count?
      requires model.poster == Counted(post) && post.events == events && post.wakeups == numWakeupEvents
      modifies this
      ensures Valid() && LeadsBy(config, PostingThread, s, model, own) && model.poster == Nobody
      ensures IsPost(own, available, ok)
      ensures model.posts == old(model).posts + 1 && model.posted == old(model).posted
    {
      var numToWrite := 0;
      if mPendingWriteEventsQueue == [] {
        numToWrite := Min(|events|, available);
      }
      own := [count] + [Decide(available)];
      LeadsByOwn(config, PostingThread, s, model, [count], Decide(available));
      if numToWrite > 0 {
        BeginWrite(available, post);
        OthersDuringPost(s, own, false);
        LeadsByOwn(config, PostingThread, s, model, own, WriteReturns(ok));
        own := own + [WriteReturns(ok)];
        FinishPost(events, numToWrite, numWakeupEvents, ok, post);
      } else {
        QueueAll(available, events, numWakeupEvents, post);
      }
    }

    ghost method BeginWrite(available: nat, post: Post)
      requires Valid() && model.poster == Counted(post) && model.backlog == [] && Min(|post.events|, available) > 0
      modifies `model
      ensures Valid() && model == Apply(config, old(model), Decide(available))
      ensures model == old(model).(poster := Writing(post, Min(|post.events|, available)))
    {
      StepKeepsThreads(config, model, Decide(available));
      model := Apply(config, model, Decide(available));
    }

    /** The write returns; what was not written is queued. */
    method FinishPost(events: seq<Event>, numToWrite: nat, numWakeupEvents: nat, written: bool, ghost post: Post)
      requires Valid() && model.poster == Writing(post, numToWrite)
      requires post.events == events && post.wakeups == numWakeupEvents
      modifies `mPendingWriteEventsQueue, `mSizePendingWriteEventsQueue, `mMostEventsObservedPendingWriteEventsQueue,
               `mEventQueue, `mPendingWritesThread, `model
      ensures Valid() && model == Apply(config, old(model), WriteReturns(written)) && model.poster == Nobody
      ensures model.posts == old(model).posts + 1 && model.posted == old(model).posted
    {
      StepKeepsThreads(config, model, WriteReturns(written));
      model := Apply(config, model, WriteReturns(written));
      var n := numToWrite;
      if written {
        mEventQueue := mEventQueue + events[..n];
      } else {
        n := 0;
        assert mEventQueue + events[..0] == mEventQueue;
      }
      QueueLeft(events, n, numWakeupEvents);
    }

    /** Nothing is written at once. */
    method QueueAll(ghost available: nat, events: seq<Event>, numWakeupEvents: nat, ghost post: Post)
      requires Valid() && model.poster == Counted(post) && post.events == events && post.wakeups == numWakeupEvents
      requires mPendingWriteEventsQueue != [] || Min(|events|, available) == 0
      modifies `mPendingWriteEventsQueue, `mSizePendingWriteEventsQueue, `mMostEventsObservedPendingWriteEventsQueue,
               `mPendingWritesThread, `model
      ensures Valid() && model == Apply(config, old(model), Decide(available)) && model.poster == Nobody
      ensures model.posts == old(model).posts + 1 && model.posted == old(model).posted
    {
      StepKeepsThreads(config, model, Decide(available));
      model := Apply(config, model, Decide(available));
      assert mEventQueue + events[..0] == mEventQueue;
      QueueLeft(events, 0, numWakeupEvents);
    }

    /** The backlog fields hold what they held before, with `left` queued and the pending-writes thread, which was
        at `writer`, notified if it fits. */
    ghost predicate Queued(left: seq<Event>, wakeups: nat, backlog: seq<Batch>, size: int, most: int, writer: Writer)
      reads `mPendingWriteEventsQueue, `mSizePendingWriteEventsQueue, `mMostEventsObservedPendingWriteEventsQueue
      reads `mPendingWritesThread
    {
      if left != [] && size + |left| <= kMaxSizePendingWriteEventsQueue then
        && mPendingWriteEventsQueue == backlog + [Batch(left, wakeups)]
        && mSizePendingWriteEventsQueue == size + |left|
        && mMostEventsObservedPendingWriteEventsQueue == MaxInt(most, size + |left|)
        && mPendingWritesThread == Woken(writer)
      else
        && mPendingWriteEventsQueue == backlog
        && mSizePendingWriteEventsQueue == size
        && mMostEventsObservedPendingWriteEventsQueue == most
        && mPendingWritesThread == writer
    }

    /** The end of a post: what was not written joins the backlog if it fits, and is dropped otherwise. */
    method QueueLeft(events: seq<Event>, numToWrite: nat, numWakeupEvents: nat)
      requires numToWrite <= |events|
      modifies `mPendingWriteEventsQueue, `mSizePendingWriteEventsQueue, `mMostEventsObservedPendingWriteEventsQueue,
               `mPendingWritesThread
      ensures Queued(events[numToWrite..], numWakeupEvents, old(mPendingWriteEventsQueue),
                     old(mSizePendingWriteEventsQueue), old(mMostEventsObservedPendingWriteEventsQueue),
                     old(mPendingWritesThread))
    {
      var numLeft := |events| - numToWrite;
      if numToWrite < |events| && mSizePendingWriteEventsQueue + numLeft <= kMaxSizePendingWriteEventsQueue {
        var eventsLeft := events[numToWrite..];
        mPendingWriteEventsQueue := mPendingWriteEventsQueue + [Batch(eventsLeft, numWakeupEvents)];
        mSizePendingWriteEventsQueue := mSizePendingWriteEventsQueue + numLeft;
        mMostEventsObservedPendingWriteEventsQueue :=
          MaxInt(mMostEventsObservedPendingWriteEventsQueue, mSizePendingWriteEventsQueue);
        mPendingWritesThread := Woken(mPendingWritesThread);
      }
    }

    // -------------------------------------------------------------- the pending-writes thread

    /** Looking up an unknown handle inserts an entry for it, which changes no later lookup. */
    method CountNumWakeupEvents(events: seq<Event>, n: nat) returns (numWakeupEvents: nat)
      requires n <= |events|
      modifies `mSensors
      ensures numWakeupEvents == CountWakeups(old(mSensors), events[..n])
      ensures SameLookup(mSensors, old(mSensors))
      ensures mSensors.Keys == old(mSensors.Keys) + set e | e in events[..n] :: e.sensorHandle
    {
      numWakeupEvents := 0;
      for i := 0 to n
        invariant numWakeupEvents == CountWakeups(old(mSensors), events[..i])
        invariant SameLookup(mSensors, old(mSensors))
        invariant mSensors.Keys == old(mSensors.Keys) + set e | e in events[..i] :: e.sensorHandle
      {
        var sensorHandle := events[i].sensorHandle;
        if sensorHandle !in mSensors {
          mSensors := mSensors[sensorHandle := DEFAULT_SENSOR];
        }
        assert events[..i + 1] == events[..i] + [events[i]];
        CountWakeupsAdditive(old(mSensors), events[..i], [events[i]]);
        assert mSensors[sensorHandle] == Lookup(old(mSensors), sensorHandle);
        if HasWakeUp(mSensors[sensorHandle].flags) {
          numWakeupEvents := numWakeupEvents + 1;
        }
      }
    }

    /** What the other threads may do while they are not kept out: any number of their steps. The
        pending-writes thread goes on only when the mutex is free again. The body takes no step; callers know
        only the contract. */
    method Interference(ghost who: Thread)
      requires Valid()
      modifies this
      ensures Valid() && OthersLead(config, who, old(model), model)
      ensures clock >= old(clock)
      ensures who == PendingWrites && old(model.poster) == Nobody ==> model.poster == Nobody
    {
      OthersMayRest(config, who, model);
    }

    /** The other threads until mWakelockMutex is free: the wakelock thread gives it back when it goes to sleep, or
        after the reset it is about to do. */
    method AwaitWakelockMutex(ghost who: Thread)
      requires Valid() && who != WakelockThread
      modifies this
      ensures Valid() && OthersLead(config, who, old(model), model) && MayLock(model)
      ensures who == PendingWrites && old(model.poster) == Nobody ==> model.poster == Nobody
    {
      ghost var c, s := config, model;
      Interference(who);
      if mWakelockThread == Looked {
        OthersGoOn(c, who, s, model, TimerDozes);
        Doze();
      } else if mWakelockThread == Expired {
        var now := GetTimeNow();
        OthersGoOn(c, who, s, model, Expire(now));
        ExpireLock(now);
      }
    }

    /** Under the mutex: the chunk of the front batch that the pass is about to write. */
    method BeginPass() returns (numToWrite: nat, numWakeupEvents: nat)
      requires Valid() && Enabled(config, model, Begin)
      modifies `mPendingWritesThread, `model
      ensures Valid() && model == Apply(config, old(model), Begin)
      ensures model.writer == Blocking(numToWrite) && numWakeupEvents == mPendingWriteEventsQueue[0].wakeups
    {
      numWakeupEvents := mPendingWriteEventsQueue[0].wakeups;
      numToWrite := Min(|mPendingWriteEventsQueue[0].events|, mEventQueueQuantum);
      StepKeepsThreads(config, model, Begin);
      model := Apply(config, model, Begin);
      mPendingWritesThread := Blocking(numToWrite);
    }

    /** The blocking write, which succeeds for the whole chunk or writes nothing. */
    method WriteBlocking(numToWrite: nat, numWakeupEvents: nat, ok: bool)
      requires Valid() && model.writer == Blocking(numToWrite) && (ok || MayLock(model))
      requires numWakeupEvents == mPendingWriteEventsQueue[0].wakeups
      modifies `mEventQueue, `mSensors, `mWakelockRefCount, `wakeLockHeld, `mPendingWritesThread, `model
      ensures Valid() && model == Apply(config, old(model), BlockingReturns(ok))
    {
      ghost var s := model;
      StepKeepsThreads(config, s, BlockingReturns(ok));
      if ok {
        mEventQueue := mEventQueue + mPendingWriteEventsQueue[0].events[..numToWrite];
      } else {
        GiveBack(numWakeupEvents);
      }
      mPendingWritesThread := Relocking(numToWrite);
      model := Apply(config, s, BlockingReturns(ok));
    }

    /** The references given back after a blocking write of the front batch failed. */
    method GiveBack(numWakeupEvents: nat)
      requires mPendingWriteEventsQueue != [] && numWakeupEvents == mPendingWriteEventsQueue[0].wakeups
      requires SameLookup(mSensors, config.sensors)
      requires model.backlog == mPendingWriteEventsQueue && model.quantum == mEventQueueQuantum
      modifies `mSensors, `mWakelockRefCount, `wakeLockHeld
      ensures SameLookup(mSensors, config.sensors)
      ensures wakelock() == if numWakeupEvents > 0
                            then Decrement(old(wakelock()), GivenBack(config, model), NO_START) else old(wakelock())
    {
      if numWakeupEvents > 0 {
        var pendingWriteEvents := mPendingWriteEventsQueue[0].events;
        var delta := numWakeupEvents;
        if |pendingWriteEvents| > mEventQueueQuantum {
          SameCount(mSensors, config.sensors, pendingWriteEvents[..mEventQueueQuantum]);
          delta := CountNumWakeupEvents(pendingWriteEvents, mEventQueueQuantum);
        }
        DecrementRefCountAndMaybeReleaseWakelock(delta, NO_START);
      }
    }

    /** Under the mutex again: the chunk leaves the backlog, and an emptied front batch is popped. */
    method FinishPass(numToWrite: nat)
      requires Valid() && model.writer == Relocking(numToWrite) && model.poster == Nobody
      modifies `mPendingWriteEventsQueue, `mSizePendingWriteEventsQueue, `mPendingWritesThread, `model
      ensures Valid() && model == Apply(config, old(model), Finish)
    {
      StepKeepsThreads(config, model, Finish);
      model := Apply(config, model, Finish);
      mPendingWritesThread := AtTest;
      mSizePendingWriteEventsQueue := mSizePendingWriteEventsQueue - numToWrite;
      var front := mPendingWriteEventsQueue[0];
      if |front.events| > mEventQueueQuantum {
        front := front.(events := front.events[mEventQueueQuantum..]);
        mPendingWriteEventsQueue := mPendingWriteEventsQueue[0 := front];
      } else {
        mPendingWriteEventsQueue := mPendingWriteEventsQueue[1..];
      }
    }

    /** One turn of the loop with work to do, where the blocking write succeeds or not: whatever the other threads do
        while the mutex is free in the middle of it, it is a run of the pipeline in which this thread takes one
        pass; the first events of what waited reach the event queue, or else are dropped, and leave the backlog. */
    method WriterPass(ok: bool)
      requires Valid() && Enabled(config, model, Begin)
      modifies this
      ensures Valid() && LeadsBy(config, PendingWrites, old(model), model, [Begin, BlockingReturns(ok), Finish])
      ensures mPendingWritesThread == AtTest && model.poster == Nobody
      ensures mEventQueueQuantum == old(mEventQueueQuantum)
      ensures var waiting := Flatten(old(mPendingWriteEventsQueue));
              var n := Min(|old(mPendingWriteEventsQueue[0].events)|, old(mEventQueueQuantum));
              && n <= |waiting| && waiting[n..] <= Flatten(mPendingWriteEventsQueue)
              && mEventQueue == old(mEventQueue) + (if ok then waiting[..n] else [])
              && model.dropped == old(model).dropped + (if ok then [] else waiting[..n])
    {
      ghost var c, s, own := config, model, [Begin, BlockingReturns(ok)];
      var numToWrite := WriteFront(ok);
      ghost var b := model;
      Interference(PendingWrites);
      Interfered(c, PendingWrites, s, b, model, own);
      LeadsByOwn(c, PendingWrites, s, model, own, Finish);
      assert own + [Finish] == [Begin, BlockingReturns(ok), Finish];
      PassTakesFirst(s.backlog, model.backlog, s.quantum);
      FinishPass(numToWrite);
    }

    /** The first half of a turn, up to the return of the blocking write. */
    method WriteFront(ok: bool) returns (numToWrite: nat)
      requires Valid() && Enabled(config, model, Begin)
      modifies this
      ensures Valid() && LeadsBy(config, PendingWrites, old(model), model, [Begin, BlockingReturns(ok)])
      ensures model.writer == Relocking(numToWrite) && model.poster == Nobody
      ensures old(model).backlog <= model.backlog && model.quantum == old(model).quantum
      ensures var chunk := old(model).backlog[0].events[..Min(|old(model).backlog[0].events|, old(model).quantum)];
              && model.written == old(model).written + (if ok then chunk else [])
              && model.dropped == old(model).dropped + (if ok then [] else chunk)
    {
      ghost var c, s := config, model;
      LeadsByNothing(c, PendingWrites, s);
      LeadsByOwn(c, PendingWrites, s, s, [], Begin);
      assert [] + [Begin] == [Begin];
      var numWakeupEvents;
      numToWrite, numWakeupEvents := BeginPass();
      ghost var a := model;
      if ok {
        Interference(PendingWrites);
      } else {
        AwaitWakelockMutex(PendingWrites);
      }
      Interfered(c, PendingWrites, s, a, model, [Begin]);
      LeadsByOwn(c, PendingWrites, s, model, [Begin], BlockingReturns(ok));
      assert [Begin] + [BlockingReturns(ok)] == [Begin, BlockingReturns(ok)];
      ghost var b := model;
      WriteBlocking(numToWrite, numWakeupEvents, ok);
      ChunkSettled(c, b, ok);
    }

    lemma ChunkSettled(c: Config, s: State, ok: bool)
      requires ThreadsAgree(s) && Enabled(c, s, BlockingReturns(ok))
      ensures var t := Apply(c, s, BlockingReturns(ok));
              var chunk := s.backlog[0].events[..s.writer.n];
              && t.backlog == s.backlog && t.quantum == s.quantum && t.poster == s.poster
              && t.written == s.written + (if ok then chunk else [])
              && t.dropped == s.dropped + (if ok then [] else chunk)
    {
      assert s.written + [] == s.written && s.dropped + [] == s.dropped;
    }

    /** The wait of handlePendingWrites with nothing to do: it tests, holding the mutex, and goes to sleep. In
        between stopThreads may clear the flag and notify; afterwards a post may wake it. */
    method SleepUntilNotified()
      requires Valid() && Enabled(config, model, WriterTests)
      modifies this
      ensures Valid() && LeadsBy(config, PendingWrites, old(model), model, [WriterTests, WriterSleeps])
      ensures model.poster == Nobody && mEventQueueQuantum == old(mEventQueueQuantum)
      ensures mPendingWritesThread == AtTest || (mPendingWritesThread == Asleep && mPendingWriteEventsQueue == [])
      ensures old(mEventQueue) <= mEventQueue && model.dropped == old(model).dropped
    {
      ghost var c, s := config, model;
      LeadsByNothing(c, PendingWrites, s);
      LeadsByOwn(c, PendingWrites, s, s, [], WriterTests);
      assert [] + [WriterTests] == [WriterTests];
      model := Apply(c, s, WriterTests);
      mPendingWritesThread := Tested;
      ghost var a := model;
      Interference(PendingWrites);
      Interfered(c, PendingWrites, s, a, model, [WriterTests]);
      FallAsleep(s);
      ghost var b := model;
      Interference(PendingWrites);
      Interfered(c, PendingWrites, s, b, model, [WriterTests, WriterSleeps]);
    }

    method FallAsleep(ghost s: State)
      requires Valid() && ThreadsAgree(s) && LeadsBy(config, PendingWrites, s, model, [WriterTests])
      requires mPendingWritesThread == Tested
      modifies `mPendingWritesThread, `model
      ensures Valid() && LeadsBy(config, PendingWrites, s, model, [WriterTests, WriterSleeps])
      ensures model == old(model).(writer := Asleep)
    {
      LeadsByOwn(config, PendingWrites, s, model, [WriterTests], WriterSleeps);
      assert [WriterTests] + [WriterSleeps] == [WriterTests, WriterSleeps];
      model := Apply(config, model, WriterSleeps);
      mPendingWritesThread := Asleep;
    }

    /** A turn of the loop of the pending-writes thread: a pass, or a sleep it was woken from. */
    static ghost predicate IsWriterTurn(turn: seq<Step>, ok: bool)
      ensures IsWriterTurn(turn, ok) ==>
                turn == [Begin, BlockingReturns(ok), Finish] || turn == [WriterTests, WriterSleeps]
    {
      turn == [Begin, BlockingReturns(ok), Finish] || turn == [WriterTests, WriterSleeps]
    }

    static ghost function AllOf(turns: seq<seq<Step>>): seq<Step> {
      if turns == [] then [] else AllOf(turns[..|turns| - 1]) + turns[|turns| - 1]
    }

    static lemma OneTurnMore(turns: seq<seq<Step>>, turn: seq<Step>)
      ensures AllOf(turns + [turn]) == AllOf(turns) + turn
    {
      assert (turns + [turn])[..|turns|] == turns;
    }

    /** handlePendingWrites, for at most |answers| turns of its loop and its wait, where answers[k] is how the event
        queue answers the blocking write of turn k. Whatever the other threads do whenever the mutex is free, it
        executes a run of the pipeline in which this thread takes just these turns; it returns early only when it is
        left asleep, and then with nothing to do, or when the threads are told to stop, and then it exits. */
    method HandlePendingWrites(answers: seq<bool>) returns (ghost turns: seq<seq<Step>>)
      requires Valid() && mPendingWritesThread == AtTest && model.poster == Nobody
      modifies this
      ensures Valid() && |turns| <= |answers|
      ensures forall k :: 0 <= k < |turns| ==> IsWriterTurn(turns[k], answers[k])
      ensures LeadsBy(config, PendingWrites, old(model), model, AllOf(turns) +
                if mPendingWritesThread == Asleep then [WriterTests, WriterSleeps]
                else if mPendingWritesThread == Exited then [WriterExits] else [])
      ensures if mPendingWritesThread == Asleep then mPendingWriteEventsQueue == []
              else if mPendingWritesThread == Exited then !mThreadsRun
              else mPendingWritesThread == AtTest && mThreadsRun && |turns| == |answers|
      ensures Inv(config, old(model)) && old(mEventQueueQuantum) > 0 ==>
              |mEventQueue| + |model.dropped| >=
              |old(mEventQueue)| + |old(model).dropped| + multiset(AllOf(turns))[Begin]
    {
      ghost var c, s := config, model;
      LeadsByNothing(c, PendingWrites, s);
      var turn := 0;
      turns := [];
      while turn < |answers| && mThreadsRun
        invariant Valid() && turn == |turns| <= |answers|
        invariant LeadsBy(c, PendingWrites, s, model, AllOf(turns)) && (Inv(c, s) ==> Inv(c, model))
        invariant mPendingWritesThread == AtTest && model.poster == Nobody && model.quantum == s.quantum
        invariant forall k :: 0 <= k < |turns| ==> IsWriterTurn(turns[k], answers[k])
        invariant Inv(c, s) && s.quantum > 0 ==>
                  |model.written| + |model.dropped| >= |s.written| + |s.dropped| + multiset(AllOf(turns))[Begin]
      {
        ghost var a := model;
        ghost var own := TakeTurn(answers[turn]);
        LeadsByMore(c, PendingWrites, s, a, model, AllOf(turns), own);
        if mPendingWritesThread == Asleep {
          return;
        }
        OneTurnMore(turns, own);
        turns := turns + [own];
        turn := turn + 1;
      }
      assert AllOf(turns) + [] == AllOf(turns);
      if !mThreadsRun {
        LeadsByOwn(c, PendingWrites, s, model, AllOf(turns), WriterExits);
        PendingWritesThreadExits();
      }
    }

    method PendingWritesThreadExits()
      requires Valid() && Enabled(config, model, WriterExits)
      modifies `mPendingWritesThread, `model
      ensures Valid() && model == Apply(config, old(model), WriterExits) && model == old(model).(writer := Exited)
    {
      model := Apply(config, model, WriterExits);
      mPendingWritesThread := Exited;
    }

    /** One turn: a pass, or a sleep, which may be for good. */
    method TakeTurn(ok: bool) returns (ghost own: seq<Step>)
      requires Valid() && mPendingWritesThread == AtTest && model.poster == Nobody && mThreadsRun
      modifies this
      ensures Valid() && LeadsBy(config, PendingWrites, old(model), model, own) && IsWriterTurn(own, ok)
      ensures model.poster == Nobody && model.quantum == old(model).quantum
      ensures mPendingWritesThread == AtTest ||
              (mPendingWritesThread == Asleep && mPendingWriteEventsQueue == [] && own == [WriterTests, WriterSleeps])
      ensures Inv(config, old(model)) ==> Inv(config, model)
      ensures Inv(config, old(model)) && model.quantum > 0 ==>
              |model.written| + |model.dropped| >=
              |old(model).written| + |old(model).dropped| + multiset(own)[Begin]
    {
      ghost var c, s := config, model;
      if mPendingWriteEventsQueue == [] {
        SleepUntilNotified();
        own := [WriterTests, WriterSleeps];
      } else {
        assert mPendingWriteEventsQueue[0] in mPendingWriteEventsQueue;
        WriterPass(ok);
        own := [Begin, BlockingReturns(ok), Finish];
      }
      if Inv(c, s) {
        LeadsByKeepsInv(c, PendingWrites, s, model, own);
      }
    }

    // -------------------------------------------------------------- the wakelock thread

    /** The wakelock thread goes to sleep and gives mWakelockMutex back. */
    method Doze()
      requires Valid() && mWakelockThread == Looked
      modifies `mWakelockThread, `model
      ensures Valid() && model == Apply(config, old(model), TimerDozes)
    {
      StepKeepsThreads(config, model, TimerDozes);
      model := Apply(config, model, TimerDozes);
      mWakelockThread := Dozing;
    }

    /** The lock has timed out: it is reset, unless the flag has been cleared in the meantime. */
    method ExpireLock(now: int)
      requires Valid() && mWakelockThread == Expired && now == clock
      modifies `mWakelockRefCount, `wakeLockHeld, `mWakelockTimeoutResetTime, `mWakelockThread, `model
      ensures Valid() && model == Apply(config, old(model), Expire(now))
    {
      StepKeepsThreads(config, model, Expire(now));
      model := Apply(config, model, Expire(now));
      ResetSharedWakelock(now);
      mWakelockThread := Looking;
    }

    /** The wait of handleWakelocks with no references: it tests, holding the mutex, and goes to sleep. */
    method DozeUntilNotified()
      requires Valid() && Enabled(config, model, TimerLooks)
      modifies this
      ensures Valid() && LeadsBy(config, WakelockThread, old(model), model, [TimerLooks, TimerDozes])
      ensures mWakelockThread == Looking || (mWakelockThread == Dozing && mWakelockRefCount == 0)
    {
      ghost var c, s := config, model;
      LeadsByNothing(c, WakelockThread, s);
      LeadsByOwn(c, WakelockThread, s, s, [], TimerLooks);
      assert [] + [TimerLooks] == [TimerLooks];
      model := Apply(c, s, TimerLooks);
      mWakelockThread := Looked;
      ghost var a := model;
      Interference(WakelockThread);
      Interfered(c, WakelockThread, s, a, model, [TimerLooks]);
      LeadsByOwn(c, WakelockThread, s, model, [TimerLooks], TimerDozes);
      assert [TimerLooks] + [TimerDozes] == [TimerLooks, TimerDozes];
      Doze();
      ghost var b := model;
      Interference(WakelockThread);
      Interfered(c, WakelockThread, s, b, model, [TimerLooks, TimerDozes]);
    }

    /** What the wakelock thread does in a turn with references to watch: it looks at the time, and resets the lock, or
        reads what the framework acknowledges. */
    static ghost predicate IsLook(turn: seq<Step>, reply: Option<nat>) {
      && |turn| == 2 && turn[0].Check?
      && (turn[1].Expire? || turn[1] == if reply.Some? then Ack(reply.value) else ReadFails)
    }

    static ghost predicate IsTimerTurn(turn: seq<Step>, reply: Option<nat>) {
      IsLook(turn, reply) || turn == [TimerLooks, TimerDozes]
    }

    /** handleWakelocks, for at most |replies| turns of its loop and its wait, where replies[k] is what the read of turn
        k brings, if anything: a run of the pipeline in which this thread takes just these turns, whatever the other
        threads do while the mutex is free. */
    method HandleWakelocks(replies: seq<Option<nat>>) returns (ghost turns: seq<seq<Step>>, ghost last: seq<Step>)
      requires Valid() && mWakelockThread == Looking
      modifies this
      ensures Valid() && |turns| <= |replies|
      ensures forall k :: 0 <= k < |turns| ==>
                || turns[k] == [TimerLooks, TimerDozes]
                || (|turns[k]| == 2 && turns[k][0].Check?
                    && (turns[k][1].Expire?
                        || turns[k][1] == match replies[k] case Some(n) => Ack(n) case None => ReadFails))
      ensures LeadsBy(config, WakelockThread, old(model), model, AllOf(turns) + last)
      ensures if mWakelockThread == Dozing then mWakelockRefCount == 0 && last == [TimerLooks, TimerDozes]
              else if mWakelockThread == Off then !mThreadsRun && last == [TimerExits(clock)]
              else mWakelockThread == Looking && mThreadsRun && |turns| == |replies| && last == []
    {
      ghost var c, s := config, model;
      LeadsByNothing(c, WakelockThread, s);
      var turn := 0;
      turns, last := [], [];
      while turn < |replies| && mThreadsRun
        invariant Valid() && turn == |turns| <= |replies| && mWakelockThread == Looking
        invariant LeadsBy(c, WakelockThread, s, model, AllOf(turns))
        invariant forall k :: 0 <= k < |turns| ==> IsTimerTurn(turns[k], replies[k])
      {
        ghost var a := model;
        ghost var own;
        if mWakelockRefCount == 0 {
          DozeUntilNotified();
          own := [TimerLooks, TimerDozes];
        } else {
          own := WakelockTurn(replies[turn]);
        }
        LeadsByMore(c, WakelockThread, s, a, model, AllOf(turns), own);
        if mWakelockThread == Dozing {
          last := own;
          return;
        }
        OneTurnMore(turns, own);
        turns := turns + [own];
        turn := turn + 1;
      }
      assert AllOf(turns) + [] == AllOf(turns);
      if !mThreadsRun {
        ghost var a := model;
        WakelockThreadExits();
        last := [TimerExits(clock)];
        LeadsByOwn(c, WakelockThread, s, a, AllOf(turns), TimerExits(clock));
      }
    }

    /** The reset on the way out, which the cleared flag leaves without effect on the count. */
    method WakelockThreadExits()
      requires Valid() && model.timer == Looking && !mThreadsRun
      modifies `clock, `mWakelockRefCount, `wakeLockHeld, `mWakelockTimeoutResetTime, `mWakelockThread, `model
      ensures clock >= old(clock) && Valid() && model == Apply(config, old(model), TimerExits(clock))
      ensures mWakelockThread == Off && !mThreadsRun
      ensures mWakelockRefCount == old(mWakelockRefCount) && wakeLockHeld == old(wakeLockHeld)
    {
      var now := GetTimeNow();
      StepKeepsThreads(config, model, TimerExits(now));
      model := Apply(config, model, TimerExits(now));
      ResetSharedWakelock(now);
      mWakelockThread := Off;
    }

    /** One turn of the wakelock thread with references to watch: `reply` is what the read brings, if the lock has not
        timed out. */
    method WakelockTurn(reply: Option<nat>) returns (ghost own: seq<Step>)
      requires Valid() && mWakelockThread == Looking && mThreadsRun && mWakelockRefCount > 0
      modifies this
      ensures Valid() && LeadsBy(config, WakelockThread, old(model), model, own)
      ensures mWakelockThread == Looking && |own| == 2 && own[0].Check?
      ensures own[1].Expire? || own[1] == match reply case Some(n) => Ack(n) case None => ReadFails
      ensures own[1].Expire? <==> own[0].now - old(mWakelockTimeoutStartTime) > kWakelockTimeoutNs
    {
      ghost var c, s := config, model;
      LeadsByNothing(c, WakelockThread, s);
      var now := GetTimeNow();
      LeadsByOwn(c, WakelockThread, s, s, [], Check(now));
      assert [] + [Check(now)] == [Check(now)];
      var didTimeout, timeLeft := CheckLock(now);
      ghost var a := model;
      Interference(WakelockThread);
      Interfered(c, WakelockThread, s, a, model, [Check(now)]);
      ghost var step;
      if didTimeout {
        step := ResetExpired(s, [Check(now)]);
      } else {
        step := TakeReply(s, [Check(now)], reply);
      }
      own := [Check(now)] + [step];
    }

    /** The reset of the timed-out lock. */
    method ResetExpired(ghost s: State, ghost own: seq<Step>) returns (ghost step: Step)
      requires Valid() && ThreadsAgree(s) && LeadsBy(config, WakelockThread, s, model, own) && mWakelockThread == Expired
      modifies this
      ensures Valid() && step.Expire? && LeadsBy(config, WakelockThread, s, model, own + [step])
      ensures mWakelockThread == Looking
    {
      var now := GetTimeNow();
      step := Expire(now);
      LeadsByOwn(config, WakelockThread, s, model, own, step);
      ExpireLock(now);
    }

    /** What the blocking read of the wake lock queue brings. */
    method TakeReply(ghost s: State, ghost own: seq<Step>, reply: Option<nat>) returns (ghost step: Step)
      requires Valid() && ThreadsAgree(s) && LeadsBy(config, WakelockThread, s, model, own) && mWakelockThread.Reading?
      modifies this
      ensures Valid() && step == (if reply.Some? then Ack(reply.value) else ReadFails)
      ensures LeadsBy(config, WakelockThread, s, model, own + [step]) && mWakelockThread == Looking
    {
      step := if reply.Some? then Ack(reply.value) else ReadFails;
      LeadsByOwn(config, WakelockThread, s, model, own, step);
      model := Apply(config, model, step);
      if reply.Some? {
        DecrementRefCountAndMaybeReleaseWakelock(reply.value, NO_START);
      }
      mWakelockThread := Looking;
    }

    /** Whether the lock has timed out; if not, the thread goes to read with the time left. */
    method CheckLock(now: int) returns (didTimeout: bool, timeLeft: int)
      requires Valid() && Enabled(config, model, Check(now)) && now == clock
      modifies `mWakelockThread, `model
      ensures Valid() && model == Apply(config, old(model), Check(now))
      ensures mWakelockThread == if didTimeout then Expired else Reading(timeLeft)
      ensures didTimeout <==> now - mWakelockTimeoutStartTime > kWakelockTimeoutNs
    {
      didTimeout, timeLeft := SharedWakelockDidTimeout(now);
      StepKeepsThreads(config, model, Check(now));
      model := Apply(config, model, Check(now));
      mWakelockThread := if didTimeout then Expired else Reading(timeLeft);
    }

    // -------------------------------------------------------------- initialization

    /** stopThreads up to its joins: it clears the flag and notifies the two threads without their mutexes, and the other
        threads may do what they like in between. Whether the joins return is SensorRuns.StopReturnsExactly. */
    method StopThreads()
      requires Valid() && Enabled(config, model, Stop)
      modifies this
      ensures Valid() && LeadsBy(config, StoppingThread, old(model), model, [Stop, NotifyTimer, NotifyWriter])
      ensures !mThreadsRun && model.stopping == Notified
    {
      ghost var c, s := config, model;
      LeadsByNothing(c, StoppingThread, s);
      LeadsByOwn(c, StoppingThread, s, s, [], Stop);
      assert [] + [Stop] == [Stop];
      ClearFlag();
      OthersWhileStopping(s, [Stop]);
      LeadsByOwn(c, StoppingThread, s, model, [Stop], NotifyTimer);
      assert [Stop] + [NotifyTimer] == [Stop, NotifyTimer];
      NotifyWakelockThread();
      OthersWhileStopping(s, [Stop, NotifyTimer]);
      LeadsByOwn(c, StoppingThread, s, model, [Stop, NotifyTimer], NotifyWriter);
      assert [Stop, NotifyTimer] + [NotifyWriter] == [Stop, NotifyTimer, NotifyWriter];
      NotifyPendingWritesThread();
    }

    method OthersWhileStopping(ghost s: State, ghost own: seq<Step>)
      requires Valid() && ThreadsAgree(s) && LeadsBy(config, StoppingThread, s, model, own) && !mThreadsRun
      modifies this
      ensures Valid() && LeadsBy(config, StoppingThread, s, model, own)
      ensures !mThreadsRun && model.stopping == old(model).stopping
    {
      ghost var t := model;
      Interference(StoppingThread);
      Interfered(config, StoppingThread, s, t, model, own);
    }

    method ClearFlag()
      requires Valid() && Enabled(config, model, Stop)
      modifies `mThreadsRun, `model
      ensures Valid() && model == Apply(config, old(model), Stop) && model.stopping == Stored && !mThreadsRun
    {
      StepKeepsThreads(config, model, Stop);
      model := Apply(config, model, Stop);
      mThreadsRun := false;
    }

    method NotifyWakelockThread()
      requires Valid() && model.stopping == Stored
      modifies `mWakelockThread, `model
      ensures Valid() && model == Apply(config, old(model), NotifyTimer) && model.stopping == Notifying
    {
      StepKeepsThreads(config, model, NotifyTimer);
      model := Apply(config, model, NotifyTimer);
      mWakelockThread := Roused(mWakelockThread);
    }

    method NotifyPendingWritesThread()
      requires Valid() && model.stopping == Notifying
      modifies `mPendingWritesThread, `model
      ensures Valid() && model == Apply(config, old(model), NotifyWriter) && model.stopping == Notified
    {
      StepKeepsThreads(config, model, NotifyWriter);
      model := Apply(config, model, NotifyWriter);
      mPendingWritesThread := Woken(mPendingWritesThread);
    }

    /** The calls one sub-HAL gets when the sensors with these handles are disabled in this order. */
    function DisablingCalls(handles: seq<Handle>, subHalIndex: nat): seq<Call> {
      if handles == [] then []
      else
        var n := |handles| - 1;
        DisablingCalls(handles[..n], subHalIndex) + DisablingCall(handles[n], subHalIndex)
    }

    function DisablingCall(h: Handle, subHalIndex: nat): seq<Call> {
      if ExtractSubHalIndex(h) == subHalIndex then [Activate(ClearSubHalIndex(h), false)] else []
    }

    lemma OneMoreDisabled(handles: seq<Handle>, k: nat, before: seq<Call>, subHalIndex: nat)
      requires k < |handles|
      ensures before + DisablingCalls(handles[..k], subHalIndex) + DisablingCall(handles[k], subHalIndex) ==
              before + DisablingCalls(handles[..k + 1], subHalIndex)
    {
      assert handles[..k + 1][..k] == handles[..k];
    }

    method DisableSensor(h: Handle)
      requires DistinctSubHals()
      modifies mSubHalList`calls
      ensures forall i :: 0 <= i < |mSubHalList| ==>
        mSubHalList[i].calls == old(mSubHalList[i].calls) +
                                if ExtractSubHalIndex(h) == i then [Activate(Handle(0, h.low), false)] else []
    {
      var reply: Result := *;
      var ignored := Route(h, g => Activate(g, false), reply);
    }

    /** An order of the entries of a map, each once. */
    static ghost predicate Orders(handles: seq<Handle>, sensors: Sensors) {
      && (forall h :: h in handles <==> h in sensors)
      && (forall i, j :: 0 <= i < j < |handles| ==> handles[i] != handles[j])
    }

    /** disableAllSensors, with the orders in which the two maps are walked: every sub-HAL is told to deactivate each
        of its static sensors once, then each of its dynamic ones once, by the handles it knows them by. */
    method DisableAllSensors(statics: seq<Handle>, dynamics: seq<Handle>)
      requires DistinctSubHals() && Orders(statics, mSensors) && Orders(dynamics, mDynamicSensors)
      modifies mSubHalList`calls
      ensures forall i :: 0 <= i < |mSubHalList| ==>
        mSubHalList[i].calls == old(mSubHalList[i].calls) + DisablingCalls(statics + dynamics, i)
    {
      var handles := statics + dynamics;
      for k := 0 to |handles|
        invariant forall i :: 0 <= i < |mSubHalList| ==>
          mSubHalList[i].calls == old(mSubHalList[i].calls) + DisablingCalls(handles[..k], i)
      {
        DisableSensor(handles[k]);
        forall i | 0 <= i < |mSubHalList|
          ensures mSubHalList[i].calls == old(mSubHalList[i].calls) + DisablingCalls(handles[..k + 1], i)
        {
          OneMoreDisabled(handles, k, old(mSubHalList[i].calls), i);
        }
      }
      assert handles[..|handles|] == handles;
    }

    /** initializeCommon from the joins on, with the sub-HALs quiet: a new event queue of the given quantum, an
        empty backlog, no dynamic sensors, normal mode. References left over survive it. `flagsOk` says whether
        both event flags could be created, `replies` are those of the sub-HALs to their initialization. */
    method InitializeCommon(now: int, quantum: nat, flagsOk: bool, replies: seq<Result>,
                            statics: seq<Handle>, dynamics: seq<Handle>) returns (result: Result)
      requires Valid() && now >= clock && !mThreadsRun && model.stopping == Notified
      requires model.writer == Exited && model.timer == Off && model.poster == Nobody
      requires |replies| == |mSubHalList| && DistinctSubHals()
      requires Orders(statics, mSensors) && Orders(dynamics, mDynamicSensors)
      modifies mSubHalList`calls
      modifies `mThreadsRun, `mWakelockRefCount, `wakeLockHeld, `mWakelockTimeoutResetTime, `clock, `mEventQueue,
               `mEventQueueQuantum, `mPendingWriteEventsQueue, `mSizePendingWriteEventsQueue, `model,
               `mDynamicSensors, `mCurrentOperationMode, `mPendingWritesThread, `mWakelockThread
      ensures Valid() && clock == now
      ensures model == Apply(config, old(model), Initialize(now, quantum))
      ensures mWakelockRefCount == old(mWakelockRefCount) && wakeLockHeld == old(wakeLockHeld)
      ensures mDynamicSensors == map[] && mCurrentOperationMode == Normal
      ensures forall i :: 0 <= i < |mSubHalList| ==>
        mSubHalList[i].calls == old(mSubHalList[i].calls) + DisablingCalls(statics + dynamics, i)
      ensures var k := FirstRefusal(replies);
              result == if k < |replies| then replies[k] else if flagsOk then Ok else BadValue
    {
      DisableAllSensors(statics, dynamics);
      InstallQueue(now, quantum);
      mDynamicSensors := map[];
      result := InitializeSubHals(replies, if flagsOk then Ok else BadValue);
      mCurrentOperationMode := Normal;
    }

    /** The first sub-HAL whose initialization fails decides the result and ends the loop. */
    method InitializeSubHals(replies: seq<Result>, soFar: Result) returns (result: Result)
      requires |replies| == |mSubHalList|
      ensures var k := FirstRefusal(replies); result == if k < |replies| then replies[k] else soFar
    {
      result := soFar;
      for i := 0 to |mSubHalList|
        invariant i <= FirstRefusal(replies) && result == soFar
      {
        if replies[i] != Ok {
          return replies[i];
        }
      }
    }

    method InstallQueue(now: int, quantum: nat)
      requires Valid() && Enabled(config, model, Initialize(now, quantum)) && now >= clock
      modifies `clock, `mWakelockRefCount, `wakeLockHeld, `mWakelockTimeoutResetTime, `mThreadsRun, `mEventQueue,
               `mEventQueueQuantum, `mPendingWriteEventsQueue, `mSizePendingWriteEventsQueue, `model,
               `mPendingWritesThread, `mWakelockThread
      ensures Valid() && model == Apply(config, old(model), Initialize(now, quantum)) && clock == now
      ensures mWakelockRefCount == old(mWakelockRefCount) && wakeLockHeld == old(wakeLockHeld)
    {
      ResetSharedWakelock(now);
      mPendingWriteEventsQueue, mSizePendingWriteEventsQueue := [], 0;
      mEventQueue, mEventQueueQuantum := [], quantum;
      mThreadsRun, clock := true, now;
      mPendingWritesThread, mWakelockThread := AtTest, Looking;
      StepKeepsThreads(config, model, Initialize(now, quantum));
      model := Apply(config, model, Initialize(now, quantum));
    }
  }
}
