/** The callback object through which one sub-HAL posts its events. */
module HalProxyCallbacks {
  import opened Common
  import opened SensorTypes
  import opened SensorPipeline
  import opened SensorRuns
  import opened EventFiltering
  import opened HalProxies

  class HalProxyCallback {
    const mCallback: HalProxy
    const mSubHalIndex: nat

    constructor (callback: HalProxy, subHalIndex: nat)
      ensures mCallback == callback && mSubHalIndex == subHalIndex
    {
      mCallback, mSubHalIndex := callback, subHalIndex;
    }

    /** The filter, and the number of wake-up events in the whole result, counted on the way. For local handles,
        event from[k] of the batch becomes event k of the result, with the handle of this sub-HAL. */
    method ProcessEvents(events: seq<Event>)
      returns (eventsOut: seq<Event>, numWakeupEvents: nat, ghost from: seq<nat>)
      ensures eventsOut == Process(mCallback.mSensors, events, mSubHalIndex)
      ensures numWakeupEvents == CountWakeups(mCallback.mSensors, eventsOut)
      ensures numWakeupEvents == |(set k | 0 <= k < |eventsOut| && eventsOut[k].sensorHandle in mCallback.mSensors
                                           && mCallback.mSensors[eventsOut[k].sensorHandle].flags & 1 == 1)|
      ensures mSubHalIndex < 128 && (forall i :: 0 <= i < |events| ==> events[i].sensorHandle.top == 0) ==>
                && |from| == |eventsOut| && (forall j, k :: 0 <= j < k < |from| ==> from[j] < from[k])
                && (forall k :: 0 <= k < |from| ==>
                     && from[k] < |events|
                     && ExtractSubHalIndex(eventsOut[k].sensorHandle) == mSubHalIndex
                     && eventsOut[k] == events[from[k]].(sensorHandle := eventsOut[k].sensorHandle)
                     && eventsOut[k].sensorHandle.low == events[from[k]].sensorHandle.low)
                && (forall i :: 0 <= i < |events| ==>
                     (i !in from <==>
                      exists h :: h in mCallback.mSensors && ExtractSubHalIndex(h) == mSubHalIndex
                                  && h.low == events[i].sensorHandle.low
                                  && mCallback.mSensors[h].typ == PickUpGesture && events[i].scalar != 1.0))
    {
      from := [];
      numWakeupEvents := 0;
      eventsOut := [];
      assert events[..0] == [];
      for k := 0 to |events|
        invariant eventsOut == Process(mCallback.mSensors, events[..k], mSubHalIndex)
        invariant numWakeupEvents == CountWakeups(mCallback.mSensors, eventsOut)
      {
        var event := events[k];
        event := event.(sensorHandle := SetSubHalIndex(event.sensorHandle, mSubHalIndex));
        var sensor := Lookup(mCallback.mSensors, event.sensorHandle);
        assert events[..k + 1][..k] == events[..k];
        if !(sensor.typ == PickUpGesture && event.scalar != 1.0) {
          CountWakeupsAdditive(mCallback.mSensors, eventsOut, [event]);
          assert [event][1..] == [];
          if HasWakeUp(sensor.flags) {
            numWakeupEvents := numWakeupEvents + 1;
          }
          eventsOut := eventsOut + [event];
        } else {
          assert eventsOut + [] == eventsOut;
        }
      }
      assert events[..|events|] == events;
      CountIsNumber(mCallback.mSensors, eventsOut);
      if mSubHalIndex < 128 && (forall i :: 0 <= i < |events| ==> events[i].sensorHandle.top == 0) {
        from := ProcessExactly(mCallback.mSensors, events, mSubHalIndex);
      }
    }

    /** postEvents: nothing happens for an empty batch or while the threads do not run; otherwise the filtered
        events are posted, all of them and once, announced with exactly the number of wake-up events among them. The
        event queue has room for `available` events and answers the write with `ok`. */
    method PostEvents(events: seq<Event>, wakelock: Option<nat>, available: nat, ok: bool)
      returns (ghost own: seq<Step>)
      requires mCallback.Valid() && mCallback.model.poster == Nobody && mCallback.model.writer != Tested
      requires wakelock.Some? ==> wakelock.value in mCallback.model.live
      modifies mCallback
      ensures mCallback.Valid() && mCallback.model.poster == Nobody
      ensures if events == [] || !old(mCallback.mThreadsRun) then mCallback.model == old(mCallback.model)
              else
                var out := Process(old(mCallback.mSensors), events, mSubHalIndex);
                var post := Post(out, CountWakeups(mCallback.config.sensors, out), wakelock);
                var entered := AfterEnter(mCallback.config, old(mCallback.model), post);
                && |own| >= 2 && own[0].Count? && own[1] == Decide(available)
                && (own[2..] == [] || own[2..] == [WriteReturns(ok)])
                && LeadsBy(mCallback.config, PostingThread, entered, mCallback.model, own)
                && mCallback.model.posts == old(mCallback.model).posts + 1
    {
      own := [];
      if events == [] || !mCallback.mThreadsRun {
        return;
      }
      var processedEvents, numWakeupEvents;
      ghost var from;
      processedEvents, numWakeupEvents, from := ProcessEvents(events);
      SameCount(mCallback.mSensors, mCallback.config.sensors, processedEvents);
      own := mCallback.PostEventsToMessageQueue(processedEvents, numWakeupEvents, wakelock, available, ok);
    }
  }
}
