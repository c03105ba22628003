/** Values shared by the sensors multi-HAL modules: sensor handles, sensor descriptions, events. */
module SensorTypes {

  import opened Bytes

  // ---------------------------------------------------------------- handles

  const TOP_UNIT: int := 0x100_0000          // 1 << kBitsAfterSubHalIndex
  const SIZE_T: int := 0x1_0000_0000_0000_0000

  type Low24 = x: int | 0 <= x < 0x100_0000
  type Int32 = x: int | -0x8000_0000 <= x < 0x8000_0000

  /** A 32-bit sensor handle, split where kBitsAfterSubHalIndex splits it: the first byte and the other 24 bits. */
  datatype Handle = Handle(top: bv8, low: Low24)

  function ToInt32(h: Handle): (x: Int32) {
    var t := h.top as int;
    h.low + TOP_UNIT * (if t < 128 then t else t - 256)
  }

  function FromInt32(x: Int32): Handle {
    var t := (x - x % TOP_UNIT) / TOP_UNIT;
    Handle((if t < 0 then t + 256 else t) as bv8, x % TOP_UNIT)
  }

  /** The split loses nothing, and the sign bit of the int32 is the high bit of the first byte. */
  lemma HandleIsInt32(h: Handle, x: Int32)
    ensures FromInt32(ToInt32(h)) == h
    ensures ToInt32(FromInt32(x)) == x
    ensures ToInt32(h) < 0 <==> h.top as int >= 128
  {
    Int32OfHandle(h);
    HandleOfInt32(x);
  }

  lemma Int32OfHandle(h: Handle)
    ensures FromInt32(ToInt32(h)) == h
    ensures ToInt32(h) < 0 <==> h.top as int >= 128
  {
    var t := h.top as int;
    SplitInt32(ToInt32(h), h.low, if t < 128 then t else t - 256);
    IntAsByte(h.top);
  }

  lemma HandleOfInt32(x: Int32)
    ensures ToInt32(FromInt32(x)) == x
  {
    var low := x % TOP_UNIT;
    var t := (x - low) / TOP_UNIT;
    assert x == low + TOP_UNIT * t;
    assert -128 <= t < 128;
    ByteAsInt(if t < 0 then t + 256 else t);
  }

  lemma SplitInt32(x: Int32, low: Low24, t: int)
    requires x == low + TOP_UNIT * t
    ensures x % TOP_UNIT == low && (x - low) / TOP_UNIT == t && x / TOP_UNIT == t
  {
  }

  /** setSubHalIndex: the index is cast to int32 and shifted, so only its last byte reaches the first byte. */
  function SetSubHalIndex(h: Handle, subHalIndex: nat): Handle {
    Handle(h.top | (subHalIndex % 256) as bv8, h.low)
  }

  /** extractSubHalIndex: an arithmetic shift of an int32, then a cast to the 64-bit size_t. */
  function ExtractSubHalIndex(h: Handle): nat {
    var t := h.top as int;
    if t < 128 then t else SIZE_T - 256 + t
  }

  function ClearSubHalIndex(h: Handle): Handle {
    Handle(0, h.low)
  }

  predicate SubHalIndexIsClear(h: Handle) {
    h.top == 0
  }

  predicate IsSubHalIndexValid(h: Handle, numSubHals: nat) {
    ExtractSubHalIndex(h) < numSubHals
  }

  // ---------------------------------------------------------------- sensors and events

  const WAKE_UP: bv32 := 1
  const DIRECT_MASK: bv32 := 0xF80           // MASK_DIRECT_REPORT | MASK_DIRECT_CHANNEL, 0x380 | 0xC00

  predicate HasWakeUp(flags: bv32) {
    flags & WAKE_UP != 0
  }

  predicate HasDirect(flags: bv32) {
    flags & DIRECT_MASK != 0
  }

  function WithoutDirect(flags: bv32): bv32 {
    flags & !DIRECT_MASK
  }

  /** The wake-up flag is the lowest bit. */
  lemma WakeUpBit(flags: bv32)
    ensures HasWakeUp(flags) <==> flags & 1 == 1
  {
  }

  /** The direct-channel flags are bits 7 to 11. */
  lemma DirectBits(flags: bv32)
    ensures HasDirect(flags) <==> flags & 0xF80 != 0
  {
  }

  /** Clearing them keeps all other bits. */
  lemma OtherBitsStay(flags: bv32)
    ensures WithoutDirect(flags) == flags & 0xFFFF_F07F
  {
  }

  lemma MaskBits(flags: bv32)
    ensures !HasDirect(flags) ==> WithoutDirect(flags) == flags
    ensures !HasDirect(WithoutDirect(flags))
    ensures HasWakeUp(WithoutDirect(flags)) == HasWakeUp(flags)
  {
  }

  datatype SensorType = PickUpGesture | OtherType(code: int)

  datatype SensorInfo = SensorInfo(
    sensorHandle: Handle, name: string, typ: SensorType, typeAsString: string, maxRange: real, flags: bv32)

  type Sensors = map<Handle, SensorInfo>

  /** The value-initialised SensorInfo that std::map::operator[] inserts for an unknown key. */
  const DEFAULT_SENSOR := SensorInfo(Handle(0, 0), "", OtherType(0), "", 0.0, 0)

  function Lookup(sensors: Sensors, h: Handle): SensorInfo {
    if h in sensors then sensors[h] else DEFAULT_SENSOR
  }

  datatype Event = Event(sensorHandle: Handle, scalar: real, timestamp: int)

  predicate IsWakeup(sensors: Sensors, e: Event) {
    HasWakeUp(Lookup(sensors, e.sensorHandle).flags)
  }

  function CountWakeups(sensors: Sensors, events: seq<Event>): nat {
    if events == [] then 0
    else (if IsWakeup(sensors, events[0]) then 1 else 0) + CountWakeups(sensors, events[1..])
  }

  /** Counting is additive over any split into chunks. */
  lemma {:induction false} CountWakeupsAdditive(sensors: Sensors, a: seq<Event>, b: seq<Event>)
    ensures CountWakeups(sensors, a + b) == CountWakeups(sensors, a) + CountWakeups(sensors, b)
  {
    if a == [] {
      assert a + b == b;
    } else {
      assert (a + b)[1..] == a[1..] + b;
      CountWakeupsAdditive(sensors, a[1..], b);
    }
  }

  /** The count is the number of events whose sensor is known and has the lowest flag bit set. */
  lemma {:induction false} CountIsNumber(sensors: Sensors, events: seq<Event>)
    ensures CountWakeups(sensors, events) ==
            |(set k | 0 <= k < |events| && events[k].sensorHandle in sensors
                      && sensors[events[k].sensorHandle].flags & 1 == 1)|
  {
    var wake := set k | 0 <= k < |events| && events[k].sensorHandle in sensors
                        && sensors[events[k].sensorHandle].flags & 1 == 1;
    if events == [] {
      assert wake == {};
    } else {
      var n := |events| - 1;
      var before, last := events[..n], events[n];
      CountIsNumber(sensors, before);
      assert before + [last] == events;
      CountWakeupsAdditive(sensors, before, [last]);
      assert [last][1..] == [];
      WakeUpBit(Lookup(sensors, last.sensorHandle).flags);
      assert wake == (set k | 0 <= k < |before| && before[k].sensorHandle in sensors
                              && sensors[before[k].sensorHandle].flags & 1 == 1)
                     + if IsWakeup(sensors, last) then {n} else {};
    }
  }
}
