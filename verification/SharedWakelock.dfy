/** The wake lock all sub-HALs share: a reference count, the lock itself, and the clock readings that
    time it out and separate its reset epochs. */
module SharedWakelock {
  import opened Common

  /** `held` is the lock of the power HAL; `start` and `reset` are mWakelockTimeoutStartTime and
      mWakelockTimeoutResetTime. */
  datatype Wakelock = Wakelock(running: bool, count: nat, held: bool, start: int, reset: int)

  const NO_START := -1

  function Increment(w: Wakelock, delta: nat, now: int): Wakelock {
    if !w.running then w
    else w.(held := w.held || w.count == 0, start := now, count := w.count + delta)
  }

  function Decrement(w: Wakelock, delta: nat, timeoutStart: int): Wakelock {
    var t := if timeoutStart == NO_START then w.reset else timeoutStart;
    if !w.running || w.count == 0 || t < w.reset then w
    else
      var left := w.count - Min(w.count, delta);
      w.(count := left, held := w.held && left != 0)
  }

  function Reset(w: Wakelock, now: int): Wakelock {
    Decrement(w, w.count, NO_START).(reset := now)
  }

  predicate DidTimeout(w: Wakelock, now: int, timeout: int) {
    now - w.start > timeout
  }

  // ---------------------------------------------------------------- what every operation keeps

  predicate HeldWhenCounted(w: Wakelock) {
    w.count > 0 ==> w.held
  }

  predicate HeldExactly(w: Wakelock) {
    w.held <==> w.count > 0
  }

  /** With a clock that may repeat a reading, isolation fails: the lock at time t predates the reset at time t,
      yet its release drops the only reference, taken later. */
  lemma EpochIsolationNeedsStrictClock(t: nat)
    ensures var locked := Increment(Wakelock(true, 0, false, 0, 0), 1, t);
            var after := Increment(Reset(locked, t), 1, t + 1);
            after.count == 1 && after.held && Decrement(after, 1, t).count == 0 && !Decrement(after, 1, t).held
  {
    var locked := Increment(Wakelock(true, 0, false, 0, 0), 1, t);
    assert locked == Wakelock(true, 1, true, t, 0);
    assert Decrement(locked, 1, NO_START) == Wakelock(true, 0, false, t, 0);
    assert Reset(locked, t) == Wakelock(true, 0, false, t, t);
    assert Increment(Wakelock(true, 0, false, t, t), 1, t + 1) == Wakelock(true, 1, true, t + 1, t);
  }
}
