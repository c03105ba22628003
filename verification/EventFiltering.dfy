/** What the callback of a sub-HAL makes of a batch of events before it posts them. */
module EventFiltering {
  import opened Common
  import opened SensorTypes
  import opened EventBacklog
  import opened SensorRouting

  function Retag(e: Event, subHal: nat): Event {
    e.(sensorHandle := SetSubHalIndex(e.sensorHandle, subHal))
  }

  function RetagAll(events: seq<Event>, subHal: nat): (r: seq<Event>)
    ensures |r| == |events|
    ensures forall i :: 0 <= i < |r| ==> r[i] == Retag(events[i], subHal)
  {
    seq(|events|, i requires 0 <= i < |events| => Retag(events[i], subHal))
  }

  /** A pick-up sensor reports only with a scalar of 1. */
  predicate IsPassedOn(sensors: Sensors, e: Event) {
    Lookup(sensors, e.sensorHandle).typ == PickUpGesture ==> e.scalar == 1.0
  }

  /** processEvents: the events passed on, retagged. */
  function Process(sensors: Sensors, events: seq<Event>, subHal: nat): seq<Event> {
    if events == [] then []
    else
      var n := |events| - 1;
      var e := Retag(events[n], subHal);
      Process(sensors, events[..n], subHal) + if IsPassedOn(sensors, e) then [e] else []
  }

  /** The filter keeps the order of the events. */
  lemma {:induction false} ProcessKeepsOrder(sensors: Sensors, events: seq<Event>, subHal: nat)
    ensures Subsequence(Process(sensors, events, subHal), RetagAll(events, subHal))
  {
    if events != [] {
      var n := |events| - 1;
      var before, r := events[..n], Retag(events[n], subHal);
      ProcessKeepsOrder(sensors, before, subHal);
      var a := Process(sensors, before, subHal);
      assert RetagAll(events, subHal) == RetagAll(before, subHal) + [r];
      if IsPassedOn(sensors, r) {
        SubsequenceSnoc(a, RetagAll(before, subHal), r);
      } else {
        SubsequenceExtends(a, RetagAll(before, subHal), [r]);
        assert a + [] == a;
      }
    }
  }

  /** It passes on nothing it should not and keeps every occurrence it should: each event occurs among the
      results as often as among the retagged inputs if it passes, else never. */
  lemma {:induction false} ProcessKeepsExactly(sensors: Sensors, events: seq<Event>, subHal: nat, e: Event)
    ensures multiset(Process(sensors, events, subHal))[e] ==
            if Lookup(sensors, e.sensorHandle).typ == PickUpGesture && e.scalar != 1.0 then 0
            else multiset(RetagAll(events, subHal))[e]
  {
    if events != [] {
      var n := |events| - 1;
      var before, r := events[..n], Retag(events[n], subHal);
      ProcessKeepsExactly(sensors, before, subHal, e);
      assert RetagAll(events, subHal) == RetagAll(before, subHal) + [r];
    }
  }

  /** What a sub-HAL with local handles gets posted: its events in their order, each with the handle that decodes to
      this sub-HAL and to the local handle, and otherwise as it was; but not those of a pick-up sensor of this
      sub-HAL with a scalar other than 1. Event from[k] of the batch becomes event k. */
  lemma {:induction false} ProcessExactly(sensors: Sensors, events: seq<Event>, subHal: nat) returns (from: seq<nat>)
    requires subHal < 128 && forall i :: 0 <= i < |events| ==> events[i].sensorHandle.top == 0
    ensures |from| == |Process(sensors, events, subHal)| && forall k :: 0 <= k < |from| ==> from[k] < |events|
    ensures forall j, k :: 0 <= j < k < |from| ==> from[j] < from[k]
    ensures forall k :: 0 <= k < |from| ==>
              var e, posted := events[from[k]], Process(sensors, events, subHal)[k];
              && ExtractSubHalIndex(posted.sensorHandle) == subHal && posted.sensorHandle.low == e.sensorHandle.low
              && posted.scalar == e.scalar && posted.timestamp == e.timestamp
    ensures forall i :: 0 <= i < |events| ==>
              (i !in from <==>
               exists h :: h in sensors && ExtractSubHalIndex(h) == subHal && h.low == events[i].sensorHandle.low
                           && sensors[h].typ == PickUpGesture && events[i].scalar != 1.0)
  {
    from := [];
    if events != [] {
      var n := |events| - 1;
      var before := events[..n];
      var earlier := ProcessExactly(sensors, before, subHal);
      RetaggedExactly(sensors, events[n], subHal);
      from := earlier;
      if IsPassedOn(sensors, Retag(events[n], subHal)) {
        IndexMore(earlier, n);
        from := earlier + [n];
      } else {
        assert Process(sensors, before, subHal) + [] == Process(sensors, before, subHal);
      }
      forall i | 0 <= i < n
        ensures i !in from <==>
                exists h :: h in sensors && ExtractSubHalIndex(h) == subHal && h.low == events[i].sensorHandle.low
                            && sensors[h].typ == PickUpGesture && events[i].scalar != 1.0
      {
        assert before[i] == events[i] && (i in from <==> i in earlier);
      }
    }
  }

  lemma RetaggedExactly(sensors: Sensors, e: Event, subHal: nat)
    requires subHal < 128 && e.sensorHandle.top == 0
    ensures var r := Retag(e, subHal);
            && ExtractSubHalIndex(r.sensorHandle) == subHal && r.sensorHandle.low == e.sensorHandle.low
            && r.scalar == e.scalar && r.timestamp == e.timestamp
    ensures !IsPassedOn(sensors, Retag(e, subHal)) <==>
            exists h :: h in sensors && ExtractSubHalIndex(h) == subHal && h.low == e.sensorHandle.low
                        && sensors[h].typ == PickUpGesture && e.scalar != 1.0
  {
    var r := Retag(e, subHal);
    TagIsTheHandle(e.sensorHandle, subHal, r.sensorHandle);
    forall h | h in sensors && ExtractSubHalIndex(h) == subHal && h.low == e.sensorHandle.low
      ensures h == r.sensorHandle
    {
      TagIsTheHandle(e.sensorHandle, subHal, h);
    }
  }

  lemma {:induction false} SubsequenceSnoc(a: seq<Event>, b: seq<Event>, e: Event)
    requires Subsequence(a, b)
    ensures Subsequence(a + [e], b + [e])
  {
    if b == [] {
      assert a + [e] == [e] && b + [e] == [e];
      assert [e][1..] == [];
    } else {
      assert (b + [e])[1..] == b[1..] + [e];
      if a == [] {
        SubsequenceSnoc([], b[1..], e);
      } else if a[0] == b[0] && Subsequence(a[1..], b[1..]) {
        SubsequenceSnoc(a[1..], b[1..], e);
        assert (a + [e])[1..] == a[1..] + [e];
      } else {
        SubsequenceSnoc(a, b[1..], e);
      }
    }
  }

  /** Two sensor maps that answer every lookup alike count alike. */
  ghost predicate SameLookup(a: Sensors, b: Sensors) {
    forall h :: Lookup(a, h) == Lookup(b, h)
  }

  lemma {:induction false} SameCount(a: Sensors, b: Sensors, events: seq<Event>)
    requires SameLookup(a, b)
    ensures CountWakeups(a, events) == CountWakeups(b, events)
  {
    if events != [] {
      SameCount(a, b, events[1..]);
    }
  }
}
