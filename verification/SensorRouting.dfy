/** How the proxy indexes the sensors of its sub-HALs: the static sensor list with its one direct-channel
    sub-HAL, the dynamic sensors, and the routing of handles. */
module SensorRouting {
  import opened Bytes
  import opened Common
  import opened SensorTypes

  // ---------------------------------------------------------------- handles

  /** Tagging and decoding are inverse for the first 128 sub-HALs and for no other index a vector could
      reach: from 128 on the sign bit of the handle turns the decoded index into a huge one. */
  lemma TagRoundTrip(h: Handle, i: nat)
    requires SubHalIndexIsClear(h) && i < SIZE_T - 256
    ensures ClearSubHalIndex(SetSubHalIndex(h, i)) == h
    ensures ExtractSubHalIndex(SetSubHalIndex(h, i)) == i <==> i < 128
  {
    TagByte(h, i);
  }

  /** The first byte of a tagged handle is the last byte of the index. */
  lemma TagByte(h: Handle, i: nat)
    requires SubHalIndexIsClear(h)
    ensures SetSubHalIndex(h, i).top as int == i % 256
  {
    OrZero((i % 256) as bv8);
    ByteAsInt(i % 256);
  }

  lemma SameHandle(g: Handle, t: Handle, i: nat)
    requires i < 128 && t.top as int == i
    ensures g == t <==> ExtractSubHalIndex(g) == i && g.low == t.low
  {
    if g.top as int == i {
      SameByte(g.top, t.top);
    }
  }

  /** Of all handles, the tagged one is that which decodes to the index and keeps the low bits. */
  lemma TagIsTheHandle(h: Handle, i: nat, g: Handle)
    requires SubHalIndexIsClear(h) && i < 128
    ensures g == SetSubHalIndex(h, i) <==> ExtractSubHalIndex(g) == i && g.low == h.low
  {
    TagByte(h, i);
    SameHandle(g, SetSubHalIndex(h, i), i);
  }

  /** Decoding is the arithmetic shift of the int32, cast to size_t. */
  lemma IndexIsShift(h: Handle)
    ensures ExtractSubHalIndex(h) == (ToInt32(h) / TOP_UNIT) % SIZE_T
  {
    var t := h.top as int;
    Shifted(h.low, if t < 128 then t else t - 256);
  }

  lemma Shifted(low: Low24, t: int)
    requires -128 <= t < 128
    ensures (low + TOP_UNIT * t) / TOP_UNIT == t
    ensures t % SIZE_T == if t < 0 then SIZE_T + t else t
  {
    SplitInt32(low + TOP_UNIT * t, low, t);
  }

  /** Tagging a clear handle adds the index, cast to int32 and shifted. */
  lemma TagIsShift(h: Handle, i: nat)
    requires SubHalIndexIsClear(h)
    ensures ToInt32(SetSubHalIndex(h, i)) == ToInt32(h) + TOP_UNIT * (if i % 256 < 128 then i % 256 else i % 256 - 256)
  {
    TagByte(h, i);
  }

  /** Distinct (sub-HAL, local handle) pairs get distinct handles. */
  lemma TagInjective(g: Handle, i: nat, h: Handle, j: nat)
    requires SubHalIndexIsClear(g) && SubHalIndexIsClear(h) && i < 256 && j < 256
    ensures SetSubHalIndex(g, i) == SetSubHalIndex(h, j) <==> g == h && i == j
  {
    TagByte(g, i);
    TagByte(h, j);
  }

  // ---------------------------------------------------------------- the sensor list

  /** One sensor reported by one sub-HAL. */
  datatype Report = Report(subHal: nat, sensor: SensorInfo)

  /** mSensors and mDirectChannelSubHal. */
  datatype Routing = Routing(sensors: Sensors, direct: Option<nat>)

  const PICK_UP := "xiaomi pick up sensor"
  const STRING_TYPE_PICK_UP := "android.sensor.pick_up_gesture"

  predicate SupportsDirectChannel(sensor: SensorInfo) {
    HasDirect(sensor.flags)
  }

  /** setDirectChannelFlags: the first sub-HAL with a direct-channel sensor is chosen, all others lose the flags. */
  function ChooseDirect(direct: Option<nat>, sensor: SensorInfo, subHal: nat): Option<nat> {
    if direct == None && SupportsDirectChannel(sensor) then Some(subHal) else direct
  }

  function DirectFlags(direct: Option<nat>, sensor: SensorInfo, subHal: nat): SensorInfo {
    if direct == None && SupportsDirectChannel(sensor) then sensor
    else if direct != None && direct != Some(subHal) then sensor.(flags := WithoutDirect(sensor.flags))
    else sensor
  }

  /** patchXiaomiPickupSensor: None when the sensor is not kept. */
  function PatchPickup(sensor: SensorInfo): Option<SensorInfo> {
    if sensor.typeAsString != PICK_UP then Some(sensor)
    else if !HasWakeUp(sensor.flags) then None
    else Some(sensor.(typ := PickUpGesture, typeAsString := STRING_TYPE_PICK_UP, maxRange := 1.0))
  }

  function Tagged(r: Report): SensorInfo {
    r.sensor.(sensorHandle := SetSubHalIndex(r.sensor.sensorHandle, r.subHal))
  }

  function Add(routing: Routing, r: Report): Routing {
    if !SubHalIndexIsClear(r.sensor.sensorHandle) then routing
    else
      var direct := ChooseDirect(routing.direct, Tagged(r), r.subHal);
      match PatchPickup(DirectFlags(routing.direct, Tagged(r), r.subHal))
      case None => Routing(routing.sensors, direct)
      case Some(kept) => Routing(routing.sensors[kept.sensorHandle := kept], direct)
  }

  function Build(reports: seq<Report>): Routing {
    if reports == [] then Routing(map[], None)
    else Add(Build(reports[..|reports| - 1]), reports[|reports| - 1])
  }

  /** The reports of sub-HALs `from`, `from` + 1, ... in the order they are read. */
  function Reports(lists: seq<seq<SensorInfo>>): seq<Report> {
    if lists == [] then []
    else Reports(lists[..|lists| - 1]) + ReportsOf(lists[|lists| - 1], |lists| - 1)
  }

  function ReportsOf(sensors: seq<SensorInfo>, subHal: nat): (rs: seq<Report>)
    ensures |rs| == |sensors|
    ensures forall i :: 0 <= i < |rs| ==> rs[i] == Report(subHal, sensors[i])
  {
    seq(|sensors|, i requires 0 <= i < |sensors| => Report(subHal, sensors[i]))
  }

  // ---------------------------------------------------------------- what the list holds

  predicate IsKept(r: Report) {
    SubHalIndexIsClear(r.sensor.sensorHandle)
    && (r.sensor.typeAsString == PICK_UP ==> HasWakeUp(r.sensor.flags))
  }

  /** What is stored for a kept report once the direct-channel sub-HAL is known. */
  function Stored(r: Report, direct: Option<nat>): SensorInfo {
    var sensor := Tagged(r).(flags := if direct == Some(r.subHal) then r.sensor.flags else WithoutDirect(r.sensor.flags));
    if r.sensor.typeAsString == PICK_UP
    then sensor.(typ := PickUpGesture, typeAsString := STRING_TYPE_PICK_UP, maxRange := 1.0)
    else sensor
  }

  /** The first sub-HAL to report a well-formed sensor with direct-channel support, kept or not. */
  function FirstDirect(reports: seq<Report>): Option<nat> {
    if reports == [] then None
    else if SubHalIndexIsClear(reports[0].sensor.sensorHandle) && SupportsDirectChannel(reports[0].sensor)
    then Some(reports[0].subHal)
    else FirstDirect(reports[1..])
  }

  /** The last kept report of a handle. */
  function LastFor(reports: seq<Report>, h: Handle): Option<Report> {
    if reports == [] then None
    else
      var last := reports[|reports| - 1];
      if IsKept(last) && Tagged(last).sensorHandle == h then Some(last)
      else LastFor(reports[..|reports| - 1], h)
  }

  lemma {:induction false} FirstDirectSnoc(reports: seq<Report>, r: Report)
    ensures FirstDirect(reports + [r]) ==
            if FirstDirect(reports) != None then FirstDirect(reports) else FirstDirect([r])
  {
    if reports == [] {
      assert reports + [r] == [r];
    } else {
      assert (reports + [r])[1..] == reports[1..] + [r];
      FirstDirectSnoc(reports[1..], r);
    }
  }

  /** Without a chosen sub-HAL no stored sensor ever had direct-channel support. */
  lemma {:induction false} NoDirectNoFlags(reports: seq<Report>, h: Handle)
    requires FirstDirect(reports) == None && LastFor(reports, h) != None
    ensures !HasDirect(LastFor(reports, h).value.sensor.flags)
  {
    var n := |reports| - 1;
    assert reports[..n] + [reports[n]] == reports;
    FirstDirectSnoc(reports[..n], reports[n]);
    var last := reports[n];
    if !(IsKept(last) && Tagged(last).sensorHandle == h) {
      NoDirectNoFlags(reports[..n], h);
    } else {
      assert FirstDirect([last]) == None;
    }
  }

  /** Adding one report in terms of the form in which kept sensors are stored. */
  lemma AddStores(routing: Routing, r: Report)
    ensures var next := Add(routing, r);
            && next.direct == (if routing.direct != None then routing.direct else FirstDirect([r]))
            && next.sensors == if IsKept(r) then routing.sensors[Tagged(r).sensorHandle := Stored(r, next.direct)]
                               else routing.sensors
  {
    assert [r][1..] == [];
    MaskBits(r.sensor.flags);
  }

  /** What is stored for a sensor without direct-channel support does not depend on the choice. */
  lemma StoredWithoutSupport(r: Report, direct: Option<nat>)
    requires !HasDirect(r.sensor.flags)
    ensures Stored(r, direct) == Stored(r, None)
  {
    MaskBits(r.sensor.flags);
  }

  /** The sensor list holds exactly the last kept report of every handle, in the form the choice of the
      direct-channel sub-HAL gives it, and the sub-HAL chosen is the first to offer direct channels. */
  lemma {:induction false} BuildExactly(reports: seq<Report>, h: Handle)
    ensures Build(reports).direct == FirstDirect(reports)
    ensures h in Build(reports).sensors <==> LastFor(reports, h) != None
    ensures h in Build(reports).sensors ==>
              Build(reports).sensors[h] == Stored(LastFor(reports, h).value, FirstDirect(reports))
  {
    if reports != [] {
      var n := |reports| - 1;
      var before, r := reports[..n], reports[n];
      assert before + [r] == reports;
      BuildExactly(before, h);
      FirstDirectSnoc(before, r);
      AddStores(Build(before), r);
      if LastFor(before, h) != None && FirstDirect(before) == None {
        NoDirectNoFlags(before, h);
        StoredWithoutSupport(LastFor(before, h).value, FirstDirect(reports));
      }
    }
  }

  lemma {:induction false} LastForIsReported(reports: seq<Report>, h: Handle)
    requires LastFor(reports, h) != None
    ensures var r := LastFor(reports, h).value; r in reports && IsKept(r) && Tagged(r).sensorHandle == h
  {
    var n := |reports| - 1;
    if !(IsKept(reports[n]) && Tagged(reports[n]).sensorHandle == h) {
      LastForIsReported(reports[..n], h);
    }
  }

  /** Routing round trip: with at most 128 sub-HALs every stored key decodes to the sub-HAL that reported
      the sensor and to the handle it was reported with, so a call routed by it is in range. */
  lemma RoutingRoundTrip(lists: seq<seq<SensorInfo>>, h: Handle)
    requires |lists| <= 128 && h in Build(Reports(lists)).sensors
    ensures var i := ExtractSubHalIndex(h);
            && i < |lists| && IsSubHalIndexValid(h, |lists|)
            && Build(Reports(lists)).sensors[h].sensorHandle == h
            && exists sensor :: sensor in lists[i] && sensor.sensorHandle == ClearSubHalIndex(h)
                 && Build(Reports(lists)).sensors[h] == Stored(Report(i, sensor), Build(Reports(lists)).direct)
  {
    var reports := Reports(lists);
    BuildExactly(reports, h);
    LastForIsReported(reports, h);
    var r := LastFor(reports, h).value;
    ReportsAreListed(lists, r);
    TagRoundTrip(r.sensor.sensorHandle, r.subHal);
  }

  lemma {:induction false} ReportsAreListed(lists: seq<seq<SensorInfo>>, r: Report)
    ensures r in Reports(lists) <==> r.subHal < |lists| && r.sensor in lists[r.subHal]
  {
    if lists != [] {
      var n := |lists| - 1;
      ReportsAreListed(lists[..n], r);
      var rs := ReportsOf(lists[n], n);
      assert r in rs <==> r.subHal == n && r.sensor in lists[n] by {
        if r.subHal == n && r.sensor in lists[n] {
          var j :| 0 <= j < |lists[n]| && lists[n][j] == r.sensor;
          assert rs[j] == r;
        }
      }
    }
  }

  /** Every stored sensor with direct-channel flags belongs to the one chosen sub-HAL. */
  lemma DirectChannelsHaveOneOwner(lists: seq<seq<SensorInfo>>, h: Handle)
    requires |lists| <= 128 && h in Build(Reports(lists)).sensors
    requires SupportsDirectChannel(Build(Reports(lists)).sensors[h])
    ensures Build(Reports(lists)).direct == Some(ExtractSubHalIndex(h))
  {
    var reports := Reports(lists);
    BuildExactly(reports, h);
    LastForIsReported(reports, h);
    var r := LastFor(reports, h).value;
    ReportsAreListed(lists, r);
    TagRoundTrip(r.sensor.sensorHandle, r.subHal);
    MaskBits(r.sensor.flags);
  }

  // ---------------------------------------------------------------- the list in terms of the reports

  /** The last kept report of a handle is some report k, and no later one of that handle is kept. */
  lemma {:induction false} LastForAt(reports: seq<Report>, h: Handle) returns (k: nat)
    requires LastFor(reports, h) != None
    ensures k < |reports| && LastFor(reports, h) == Some(reports[k])
    ensures IsKept(reports[k]) && Tagged(reports[k]).sensorHandle == h
    ensures forall j :: k < j < |reports| ==> !(IsKept(reports[j]) && Tagged(reports[j]).sensorHandle == h)
  {
    var n := |reports| - 1;
    if IsKept(reports[n]) && Tagged(reports[n]).sensorHandle == h {
      k := n;
    } else {
      k := LastForAt(reports[..n], h);
      forall j | k < j < |reports| ensures !(IsKept(reports[j]) && Tagged(reports[j]).sensorHandle == h) {
        assert j < n ==> reports[..n][j] == reports[j];
      }
    }
  }

  /** A kept sensor field by field: its handle is tagged, the direct-channel bits are cleared unless it is of the chosen
      sub-HAL, and a pick-up sensor is stored as a pick-up gesture; all else stays. */
  lemma StoredFields(r: Report, direct: Option<nat>)
    ensures Stored(r, direct).sensorHandle == SetSubHalIndex(r.sensor.sensorHandle, r.subHal)
    ensures Stored(r, direct).flags == if direct == Some(r.subHal) then r.sensor.flags else r.sensor.flags & 0xFFFF_F07F
    ensures r.sensor.typeAsString == "xiaomi pick up sensor" ==>
              Stored(r, direct) == r.sensor.(
                sensorHandle := Stored(r, direct).sensorHandle, flags := Stored(r, direct).flags, typ := PickUpGesture,
                typeAsString := "android.sensor.pick_up_gesture", maxRange := 1.0)
    ensures r.sensor.typeAsString != "xiaomi pick up sensor" ==>
              Stored(r, direct) == r.sensor.(
                sensorHandle := Stored(r, direct).sensorHandle, flags := Stored(r, direct).flags)
  {
    OtherBitsStay(r.sensor.flags);
  }

  /** Kept are the sensors with a clear first byte, pick-up sensors only if they can wake up. */
  lemma KeptExactly(r: Report)
    ensures IsKept(r) <==> r.sensor.sensorHandle.top == 0
                           && (r.sensor.typeAsString == "xiaomi pick up sensor" ==> r.sensor.flags & 1 == 1)
  {
    WakeUpBit(r.sensor.flags);
  }

  /** A report that is kept is listed under its handle. */
  lemma ListedAll(reports: seq<Report>, k: nat)
    requires k < |reports| && IsKept(reports[k])
    ensures SetSubHalIndex(reports[k].sensor.sensorHandle, reports[k].subHal) in Build(reports).sensors
  {
    BuildExactly(reports, Tagged(reports[k]).sensorHandle);
    LastForSome(reports, k);
  }

  lemma {:induction false} LastForSome(reports: seq<Report>, k: nat)
    requires k < |reports| && IsKept(reports[k])
    ensures LastFor(reports, Tagged(reports[k]).sensorHandle) != None
  {
    var n := |reports| - 1;
    if k < n {
      assert reports[..n][k] == reports[k];
      LastForSome(reports[..n], k);
    }
  }

  /** The chosen sub-HAL is that of the first report with a clear first byte and a direct-channel bit. */
  lemma DirectIsFirst(reports: seq<Report>, subHal: nat)
    ensures Build(reports).direct == Some(subHal) <==>
            exists k :: 0 <= k < |reports| && reports[k].subHal == subHal && OffersDirect(reports[k])
                        && forall j :: 0 <= j < k ==> !OffersDirect(reports[j])
  {
    BuildExactly(reports, Handle(0, 0));
    FirstDirectExactly(reports, subHal);
  }

  predicate OffersDirect(r: Report)
    ensures OffersDirect(r) <==> r.sensor.sensorHandle.top == 0 && r.sensor.flags & 0xF80 != 0
  {
    DirectBits(r.sensor.flags);
    SubHalIndexIsClear(r.sensor.sensorHandle) && SupportsDirectChannel(r.sensor)
  }

  lemma {:induction false} FirstDirectExactly(reports: seq<Report>, subHal: nat)
    ensures FirstDirect(reports) == Some(subHal) <==>
            exists k :: 0 <= k < |reports| && reports[k].subHal == subHal && OffersDirect(reports[k])
                        && forall j :: 0 <= j < k ==> !OffersDirect(reports[j])
  {
    if reports != [] && !OffersDirect(reports[0]) {
      var rest := reports[1..];
      FirstDirectExactly(rest, subHal);
      if k :| 0 <= k < |rest| && rest[k].subHal == subHal && OffersDirect(rest[k])
              && forall j :: 0 <= j < k ==> !OffersDirect(rest[j]) {
        assert reports[k + 1] == rest[k];
        forall j | 0 <= j < k + 1 ensures !OffersDirect(reports[j]) { assert j > 0 ==> reports[j] == rest[j - 1]; }
      }
      if k :| 0 <= k < |reports| && reports[k].subHal == subHal && OffersDirect(reports[k])
              && forall j :: 0 <= j < k ==> !OffersDirect(reports[j]) {
        assert k > 0 && rest[k - 1] == reports[k];
        forall j | 0 <= j < k - 1 ensures !OffersDirect(rest[j]) { assert rest[j] == reports[j + 1]; }
      }
    }
  }

  // ---------------------------------------------------------------- dynamic sensors

  /** onDynamicSensorsConnected: the sensors added to the map, and those reported to the framework. */
  function Connect(m: Sensors, added: seq<SensorInfo>, subHal: nat): (Sensors, seq<SensorInfo>) {
    if added == [] then (m, [])
    else
      var (before, reported) := Connect(m, added[..|added| - 1], subHal);
      var sensor := added[|added| - 1];
      if !SubHalIndexIsClear(sensor.sensorHandle) then (before, reported)
      else
        var tagged := Tagged(Report(subHal, sensor));
        (before[tagged.sensorHandle := tagged], reported + [tagged])
  }

  /** The last of the sensors with handle h. */
  function LastNamed(sensors: seq<SensorInfo>, h: Handle): (r: Option<SensorInfo>)
    ensures r == None <==> forall k :: 0 <= k < |sensors| ==> sensors[k].sensorHandle != h
    ensures r.Some? ==> exists k :: 0 <= k < |sensors| && sensors[k] == r.value && r.value.sensorHandle == h
                                    && forall j :: k < j < |sensors| ==> sensors[j].sensorHandle != h
  {
    if sensors == [] then None
    else
      var n := |sensors| - 1;
      if sensors[n].sensorHandle == h then Some(sensors[n]) else LastNamed(sensors[..n], h)
  }

  /** The sensors whose first byte is clear, in order, tagged. */
  function ClearOnes(added: seq<SensorInfo>, subHal: nat): seq<SensorInfo> {
    if added == [] then [] else IfClear(added[0], subHal) + ClearOnes(added[1..], subHal)
  }

  function IfClear(sensor: SensorInfo, subHal: nat): seq<SensorInfo> {
    if SubHalIndexIsClear(sensor.sensorHandle) then [Tagged(Report(subHal, sensor))] else []
  }

  /** The reported sensors are those with a clear first byte, in order, as they came but with the tagged handle. */
  lemma {:induction false} ClearOnesExactly(added: seq<SensorInfo>, subHal: nat) returns (from: seq<nat>)
    ensures |from| == |ClearOnes(added, subHal)| && forall j, k :: 0 <= j < k < |from| ==> from[j] < from[k]
    ensures forall i :: i in from <==> 0 <= i < |added| && added[i].sensorHandle.top == 0
    ensures forall k :: 0 <= k < |from| ==>
              && from[k] < |added|
              && var sensor := added[from[k]];
                 ClearOnes(added, subHal)[k] == sensor.(sensorHandle := SetSubHalIndex(sensor.sensorHandle, subHal))
  {
    from := [];
    if added != [] {
      var n := |added| - 1;
      var earlier := ClearOnesExactly(added[..n], subHal);
      assert added[..n] + [added[n]] == added;
      ClearOnesSnoc(added[..n], added[n], subHal);
      from := earlier;
      if added[n].sensorHandle.top == 0 {
        IndexMore(earlier, n);
        from := earlier + [n];
      } else {
        assert ClearOnes(added[..n], subHal) + [] == ClearOnes(added[..n], subHal);
      }
    }
  }

  lemma {:induction false} ClearOnesSnoc(added: seq<SensorInfo>, last: SensorInfo, subHal: nat)
    ensures ClearOnes(added + [last], subHal) == ClearOnes(added, subHal) + IfClear(last, subHal)
  {
    var one := IfClear(last, subHal);
    if added == [] {
      assert added + [last] == [last] && [last][1..] == [];
      assert one + [] == [] + one;
    } else {
      var first := IfClear(added[0], subHal);
      assert (added + [last])[1..] == added[1..] + [last];
      ClearOnesSnoc(added[1..], last, subHal);
      assert first + (ClearOnes(added[1..], subHal) + one) == first + ClearOnes(added[1..], subHal) + one;
    }
  }

  /** Exactly the sensors with a clear first byte are reported, in the order they came and as often, tagged; and the
      map holds the last one reported for each handle and what it held before for all others. */
  lemma {:induction false} ConnectExactly(m: Sensors, added: seq<SensorInfo>, subHal: nat, h: Handle)
    ensures var (after, reported) := Connect(m, added, subHal);
            && reported == ClearOnes(added, subHal)
            && (h in after <==> h in m || LastNamed(reported, h) != None)
            && (h in after ==> after[h] == match LastNamed(reported, h) case Some(s) => s case None => m[h])
  {
    if added != [] {
      var n := |added| - 1;
      ConnectExactly(m, added[..n], subHal, h);
      assert added[..n] + [added[n]] == added;
      ClearOnesSnoc(added[..n], added[n], subHal);
      ConnectOneMore(m, added, subHal);
      if SubHalIndexIsClear(added[n].sensorHandle) {
        LastNamedSnoc(Connect(m, added[..n], subHal).1, Tagged(Report(subHal, added[n])), h);
      }
    }
  }

  lemma ConnectOneMore(m: Sensors, added: seq<SensorInfo>, subHal: nat)
    requires added != []
    ensures var n := |added| - 1;
            var (before, earlier) := Connect(m, added[..n], subHal);
            var (after, reported) := Connect(m, added, subHal);
            var tagged := Tagged(Report(subHal, added[n]));
            && reported == earlier + IfClear(added[n], subHal)
            && after == if SubHalIndexIsClear(added[n].sensorHandle) then before[tagged.sensorHandle := tagged] else before
  {
  }

  lemma LastNamedSnoc(sensors: seq<SensorInfo>, last: SensorInfo, h: Handle)
    ensures LastNamed(sensors + [last], h) == if last.sensorHandle == h then Some(last) else LastNamed(sensors, h)
  {
    assert (sensors + [last])[..|sensors|] == sensors;
  }

  /** onDynamicSensorsDisconnected: the map left, and the handles reported as removed. */
  function Disconnect(m: Sensors, removed: seq<Handle>, subHal: nat): (Sensors, seq<Handle>) {
    if removed == [] then (m, [])
    else
      var (before, reported) := Disconnect(m, removed[..|removed| - 1], subHal);
      var h := SetSubHalIndex(removed[|removed| - 1], subHal);
      if SubHalIndexIsClear(removed[|removed| - 1]) && h in before then (before - {h}, reported + [h])
      else (before, reported)
  }

  /** The handles a sub-HAL names when it lists `locals`. */
  predicate Names(locals: seq<Handle>, subHal: nat, h: Handle) {
    exists l :: l in locals && SubHalIndexIsClear(l) && SetSubHalIndex(l, subHal) == h
  }

  /** Exactly the present sensors among those named are removed, each is reported once, and every reported
      removal was present. */
  lemma {:induction false} DisconnectExactly(m: Sensors, removed: seq<Handle>, subHal: nat)
    ensures var (after, reported) := Disconnect(m, removed, subHal);
            && (forall h :: h in reported <==>
                  h in m && exists l :: l in removed && l.top == 0 && SetSubHalIndex(l, subHal) == h)
            && after == m - (set h | h in reported)
            && (forall i, j :: 0 <= i < j < |reported| ==> reported[i] != reported[j])
  {
    if removed != [] {
      var n := |removed| - 1;
      DisconnectExactly(m, removed[..n], subHal);
      var (before, earlier) := Disconnect(m, removed[..n], subHal);
      var (after, reported) := Disconnect(m, removed, subHal);
      var g := SetSubHalIndex(removed[n], subHal);
      forall h
        ensures Names(removed, subHal, h) <==>
                Names(removed[..n], subHal, h) || (SubHalIndexIsClear(removed[n]) && g == h)
      {
        assert forall l :: l in removed <==> l in removed[..n] || l == removed[n];
      }
      if SubHalIndexIsClear(removed[n]) && g in before {
        assert (set h | h in reported) == (set h | h in earlier) + {g};
      }
    }
  }

  /** Connecting, then disconnecting the same local handles, leaves nothing of what was connected. */
  lemma DisconnectUndoesConnect(m: Sensors, added: seq<SensorInfo>, subHal: nat, locals: seq<Handle>)
    requires |locals| == |added| && forall k :: 0 <= k < |added| ==> locals[k] == added[k].sensorHandle
    ensures forall h :: h in Disconnect(Connect(m, added, subHal).0, locals, subHal).0 <==>
                        h in m && !Names(locals, subHal, h)
  {
    DisconnectExactly(Connect(m, added, subHal).0, locals, subHal);
    ConnectKeys(m, added, subHal, locals);
  }

  lemma {:induction false} ConnectKeys(m: Sensors, added: seq<SensorInfo>, subHal: nat, locals: seq<Handle>)
    requires |locals| == |added| && forall k :: 0 <= k < |added| ==> locals[k] == added[k].sensorHandle
    ensures forall h :: h in Connect(m, added, subHal).0 <==> h in m || Names(locals, subHal, h)
  {
    if added != [] {
      var n := |added| - 1;
      ConnectKeys(m, added[..n], subHal, locals[..n]);
      forall h
        ensures Names(locals, subHal, h) <==>
                Names(locals[..n], subHal, h) || (SubHalIndexIsClear(locals[n]) && SetSubHalIndex(locals[n], subHal) == h)
      {
        assert forall l :: l in locals <==> l in locals[..n] || l == locals[n];
      }
    }
  }

  datatype DynamicStep = Connected(subHal: nat, added: seq<SensorInfo>) | Disconnected(subHal: nat, removed: seq<Handle>)

  function ApplyDynamic(m: Sensors, step: DynamicStep): Sensors {
    match step
    case Connected(i, added) => Connect(m, added, i).0
    case Disconnected(i, removed) => Disconnect(m, removed, i).0
  }

  function RunDynamic(m: Sensors, steps: seq<DynamicStep>): Sensors
    decreases steps
  {
    if steps == [] then m else RunDynamic(ApplyDynamic(m, steps[0]), steps[1..])
  }

  /** The entries of one sub-HAL, and the callbacks it makes. */
  function Owned(m: Sensors, i: nat): Sensors {
    map h | h in m && ExtractSubHalIndex(h) == i :: m[h]
  }

  function StepsOf(steps: seq<DynamicStep>, i: nat): (own: seq<DynamicStep>)
    ensures forall s :: s in own <==> s in steps && s.subHal == i
  {
    if steps == [] then []
    else if steps[0].subHal == i then [steps[0]] + StepsOf(steps[1..], i)
    else StepsOf(steps[1..], i)
  }

  lemma {:induction false} ConnectOwned(m: Sensors, added: seq<SensorInfo>, j: nat, i: nat)
    requires j < 128
    ensures Owned(Connect(m, added, j).0, i) == if i == j then Connect(Owned(m, i), added, j).0 else Owned(m, i)
  {
    if added != [] {
      var n := |added| - 1;
      ConnectOwned(m, added[..n], j, i);
      if SubHalIndexIsClear(added[n].sensorHandle) {
        TagRoundTrip(added[n].sensorHandle, j);
        var tagged := Tagged(Report(j, added[n]));
        var before := Connect(m, added[..n], j).0;
        assert Owned(before[tagged.sensorHandle := tagged], i) ==
               if i == j then Owned(before, i)[tagged.sensorHandle := tagged] else Owned(before, i);
      }
    }
  }

  lemma {:induction false} DisconnectOwned(m: Sensors, removed: seq<Handle>, j: nat, i: nat)
    requires j < 128
    ensures Owned(Disconnect(m, removed, j).0, i) == if i == j then Disconnect(Owned(m, i), removed, j).0 else Owned(m, i)
  {
    if removed != [] {
      var n := |removed| - 1;
      DisconnectOwned(m, removed[..n], j, i);
      if SubHalIndexIsClear(removed[n]) {
        TagRoundTrip(removed[n], j);
        var h := SetSubHalIndex(removed[n], j);
        var before := Disconnect(m, removed[..n], j).0;
        assert Owned(before - {h}, i) == if i == j then Owned(before, i) - {h} else Owned(before, i);
      }
    }
  }

  /** Over any run of dynamic connections and disconnections, the entries of one sub-HAL are exactly what its
      own callbacks make of them: no other sub-HAL adds or removes any. */
  lemma {:induction false} SubHalsDoNotInterfere(m: Sensors, steps: seq<DynamicStep>, i: nat)
    requires forall k :: 0 <= k < |steps| ==> steps[k].subHal < 128
    ensures Owned(RunDynamic(m, steps), i) == RunDynamic(Owned(m, i), StepsOf(steps, i))
    ensures forall h :: h in Owned(RunDynamic(m, steps), i) <==>
                        h in RunDynamic(m, steps) && ExtractSubHalIndex(h) == i
    decreases steps
  {
    if steps != [] {
      match steps[0] {
        case Connected(j, added) => ConnectOwned(m, added, j, i);
        case Disconnected(j, removed) => DisconnectOwned(m, removed, j, i);
      }
      SubHalsDoNotInterfere(ApplyDynamic(m, steps[0]), steps[1..], i);
    }
  }
}
