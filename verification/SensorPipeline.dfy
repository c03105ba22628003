/** The event pipeline of the multi-HAL proxy as a state machine over the atomic steps of its threads:
    sub-HAL threads that post, the pending-writes thread, the wakelock thread, holders of scoped wakelocks,
    and the thread that stops and initializes the proxy. A run is any legal interleaving of those steps. */
module SensorPipeline {
  import opened Common
  import opened SensorTypes
  import opened SharedWakelock
  import opened EventBacklog

  /** maxPending is kMaxSizePendingWriteEventsQueue, timeout is kWakelockTimeoutNs. */
  datatype Config = Config(maxPending: nat, timeout: nat, sensors: Sensors)

  /** A call of postEventsToMessageQueue; `wakelock` names the scoped wakelock it was given, if locked. */
  datatype Post = Post(events: seq<Event>, wakeups: nat, wakelock: Option<nat>)

  /** The posting thread that holds mEventQueueWriteMutex. Writing: inside the non-blocking queue write. */
  datatype Poster = Nobody | Entered(post: Post) | Counted(post: Post) | Writing(post: Post, n: nat)

  /** The pending-writes thread. AtTest: about to test what it waits for. Tested: the test was false, and it holds
      the mutex until it is asleep on its condition variable. Blocking: in writeBlocking, the mutex released.
      Relocking: the write returned, the mutex not yet taken again. */
  datatype Writer = Exited | AtTest | Tested | Asleep | Blocking(n: nat) | Relocking(n: nat)

  /** The wakelock thread. Looking, Looked and Dozing: likewise, with mWakelockMutex. Expired: the lock has timed
      out and is about to be reset, mWakelockMutex held. Reading: in readBlocking with the given time left. */
  datatype Timer = Off | Looking | Looked | Dozing | Expired | Reading(timeLeft: int)

  /** stopThreads: the flag is cleared, then the wakelock thread is notified, then the pending-writes thread. */
  datatype Stopping = Going | Stored | Notifying | Notified

  datatype State = State(
    wl: Wakelock,
    live: map<nat, int>,      // the locked scoped wakelocks alive, with their creation times
    clock: int,               // the last reading of getTimeNow
    backlog: seq<Batch>, size: int, most: int, quantum: nat,
    poster: Poster, writer: Writer, timer: Timer, stopping: Stopping,
    posted: seq<Event>,       // since the last initialization: everything posted, in the order the mutex was taken,
    written: seq<Event>,      //   everything written to the event queue,
    dropped: seq<Event>,      //   every chunk whose blocking write failed,
    overflowed: seq<Event>,   //   every part of a post that did not fit the backlog,
    log: seq<Entry>,          //   what became of each posted event,
    posts: nat)               //   and the number of posts finished

  datatype Step =
    | Enter(post: Post)
    | Count(now: int)
    | Decide(available: nat)
    | WriteReturns(ok: bool)
    | WriterTests
    | WriterSleeps
    | Begin
    | BlockingReturns(ok: bool)
    | Finish
    | TimerLooks
    | TimerDozes
    | Check(now: int)
    | Expire(now: int)
    | Ack(k: nat)
    | ReadFails
    | ScopedLock(id: nat, now: int)
    | ScopedUnlock(id: nat)
    | Stop
    | NotifyTimer
    | NotifyWriter
    | WriterExits
    | TimerExits(now: int)
    | Initialize(now: int, quantum: nat)

  function Constructed(now: nat): (s: State)
    ensures forall c :: Inv(c, s)
  {
    State(Wakelock(false, 0, false, now, now), map[], now, [], 0, 0, 0, Nobody, Exited, Off, Going, [], [], [], [], [], 0)
  }

  // ---------------------------------------------------------------- steps

  predicate Holds(p: Poster, id: nat) {
    !p.Nobody? && p.post.wakelock == Some(id)
  }

  /** mWakelockMutex is not held by the wakelock thread. */
  predicate LockFree(s: State) {
    !s.timer.Looked? && !s.timer.Expired?
  }

  /** Only while the threads run does an increment or a decrement take mWakelockMutex. */
  predicate MayLock(s: State) {
    s.wl.running ==> LockFree(s)
  }

  /** Successive readings of the clock may be equal. */
  predicate Enabled(c: Config, s: State, step: Step) {
    match step
    case Enter(post) =>
      s.poster == Nobody && s.writer != Tested && (post.wakelock.Some? ==> post.wakelock.value in s.live)
    case Count(now) => s.poster.Entered? && now >= s.clock && (s.poster.post.wakelock.Some? ==> MayLock(s))
    case Decide(_) => s.poster.Counted?
    case WriteReturns(_) => s.poster.Writing?
    case WriterTests => s.writer == AtTest && s.poster == Nobody && s.wl.running && s.backlog == []
    case WriterSleeps => s.writer == Tested
    case Begin => s.writer == AtTest && s.poster == Nobody && s.wl.running && s.backlog != []
    case BlockingReturns(ok) => s.writer.Blocking? && (ok || MayLock(s))
    case Finish => s.writer.Relocking? && s.poster == Nobody
    case TimerLooks => s.timer == Looking && s.wl.running && s.wl.count == 0
    case TimerDozes => s.timer == Looked
    case Check(now) => s.timer == Looking && s.wl.running && s.wl.count > 0 && now >= s.clock
    case Expire(now) => s.timer == Expired && now >= s.clock
    case Ack(_) => s.timer.Reading?
    case ReadFails => s.timer.Reading?
    case ScopedLock(id, now) => id !in s.live && now >= s.clock && MayLock(s)
    case ScopedUnlock(id) => id in s.live && !Holds(s.poster, id) && MayLock(s)
    case Stop => s.stopping == Going || s.stopping == Notified
    case NotifyTimer => s.stopping == Stored
    case NotifyWriter => s.stopping == Notifying
    case WriterExits => s.writer == AtTest && s.poster == Nobody && !s.wl.running
    case TimerExits(now) => s.timer == Looking && !s.wl.running && now >= s.clock
    case Initialize(now, _) =>
      && s.stopping == Notified && !s.wl.running && s.writer == Exited && s.timer == Off
      && s.poster == Nobody && now >= s.clock
  }

  function Apply(c: Config, s: State, step: Step): State
    requires ThreadsAgree(s) && Enabled(c, s, step)
  {
    match step
    case Enter(post) => s.(poster := Entered(post), posted := s.posted + post.events)
    case Count(now) => CountWakeupsOfPost(s, now)
    case Decide(available) => DecideWrite(c, s, available)
    case WriteReturns(ok) => Spill(c, s, s.poster.post, if ok then s.poster.n else 0)
    case WriterTests => s.(writer := Tested)
    case WriterSleeps => s.(writer := Asleep)
    case Begin => s.(writer := Blocking(Min(|s.backlog[0].events|, s.quantum)))
    case BlockingReturns(ok) => BlockingWriteReturned(c, s, ok)
    case Finish => FinishPass(s)
    case TimerLooks => s.(timer := Looked)
    case TimerDozes => s.(timer := Dozing)
    case Check(now) => CheckTimeout(c, s, now)
    case Expire(now) => ResetAt(s, now).(timer := Looking)
    case Ack(k) => s.(wl := Decrement(s.wl, k, NO_START), timer := Looking)
    case ReadFails => s.(timer := Looking)
    case ScopedLock(id, now) => CreateScopedWakelock(s, id, now)
    case ScopedUnlock(id) => s.(wl := Decrement(s.wl, 1, s.live[id]), live := s.live - {id})
    case Stop => s.(wl := s.wl.(running := false), stopping := Stored)
    case NotifyTimer => s.(timer := Roused(s.timer), stopping := Notifying)
    case NotifyWriter => s.(writer := Woken(s.writer), stopping := Notified)
    case WriterExits => s.(writer := Exited)
    case TimerExits(now) => ResetAt(s, now).(timer := Off)
    case Initialize(now, quantum) =>
      var r := ResetAt(s, now);
      r.(wl := r.wl.(running := true), backlog := [], size := 0, quantum := quantum,
         writer := AtTest, timer := Looking, stopping := Going, posted := [], written := [], dropped := [], overflowed := [],
         log := [], posts := 0)
  }

  /** A notification of the pending-writes thread: it is lost on a thread that is not asleep. */
  function Woken(w: Writer): Writer {
    if w == Asleep then AtTest else w
  }

  /** The same for the wakelock thread. */
  function Roused(t: Timer): Timer {
    if t == Dozing then Looking else t
  }

  /** An increment notifies the wakelock thread if there was no reference. */
  function RousedByIncrement(s: State): Timer {
    if s.wl.running && s.wl.count == 0 then Roused(s.timer) else s.timer
  }

  function CountWakeupsOfPost(s: State, now: int): State
    requires s.poster.Entered?
  {
    var post := s.poster.post;
    if post.wakelock.Some? then
      s.(poster := Counted(post), clock := now, wl := Increment(s.wl, post.wakeups, now), timer := RousedByIncrement(s))
    else s.(poster := Counted(post))
  }

  function DecideWrite(c: Config, s: State, available: nat): State
    requires s.poster.Counted?
  {
    var post := s.poster.post;
    var n := if s.backlog == [] then Min(|post.events|, available) else 0;
    if n > 0 then s.(poster := Writing(post, n)) else Spill(c, s, post, 0)
  }

  /** The end of a post whose first `k` events went straight to the event queue. */
  function Spill(c: Config, s: State, post: Post, k: nat): State
    requires k <= |post.events|
  {
    var left := post.events[k..];
    var settled := s.(
      poster := Nobody, posts := s.posts + 1, written := s.written + post.events[..k],
      log := s.log + Entries(post.events[..k], s.posts, Written)
                   + Entries(left, s.posts, if Fits(c, s, left) then Pending else LostOverflow));
    if Fits(c, s, left) then
      settled.(backlog := s.backlog + [Batch(left, post.wakeups)], size := s.size + |left|, writer := Woken(s.writer),
               most := if s.most < s.size + |left| then s.size + |left| else s.most)
    else settled.(overflowed := s.overflowed + left)
  }

  predicate Fits(c: Config, s: State, left: seq<Event>) {
    left != [] && s.size + |left| <= c.maxPending
  }

  /** The references a failed blocking write of the front batch gives back. */
  function GivenBack(c: Config, s: State): nat
    requires s.backlog != []
  {
    var front := s.backlog[0];
    if front.wakeups == 0 then 0
    else if |front.events| > s.quantum then CountWakeups(c.sensors, front.events[..s.quantum])
    else front.wakeups
  }

  /** The wake-up events that a failed blocking write of the front batch really loses. */
  function WakeupsLost(c: Config, s: State): nat
    requires s.backlog != []
  {
    CountWakeups(c.sensors, s.backlog[0].events[..Min(|s.backlog[0].events|, s.quantum)])
  }

  function BlockingWriteReturned(c: Config, s: State, ok: bool): State
    requires s.writer.Blocking? && s.backlog != [] && s.writer.n <= |s.backlog[0].events|
  {
    var n := s.writer.n;
    var chunk := s.backlog[0].events[..n];
    if ok then s.(writer := Relocking(n), log := Settle(s.log, n, Written), written := s.written + chunk)
    else
      s.(writer := Relocking(n), log := Settle(s.log, n, LostWrite), dropped := s.dropped + chunk,
         wl := if s.backlog[0].wakeups > 0 then Decrement(s.wl, GivenBack(c, s), NO_START) else s.wl)
  }

  function FinishPass(s: State): State
    requires s.writer.Relocking? && s.backlog != []
  {
    s.(writer := AtTest, size := s.size - s.writer.n, backlog := PopFront(s.backlog, s.quantum))
  }

  function ResetAt(s: State, now: int): State {
    s.(wl := Reset(s.wl, now), clock := now)
  }

  function CheckTimeout(c: Config, s: State, now: int): State {
    s.(clock := now, timer := if DidTimeout(s.wl, now, c.timeout) then Expired else Reading(c.timeout - (now - s.wl.start)))
  }

  function CreateScopedWakelock(s: State, id: nat, now: int): State {
    if s.wl.running then s.(wl := Increment(s.wl, 1, now), clock := now, live := s.live[id := now],
                            timer := RousedByIncrement(s)) else s
  }

  // ---------------------------------------------------------------- the invariant

  /** The events still waiting to be written: the backlog, less a front chunk whose write has returned. */
  function Remaining(s: State): seq<Event> {
    var all := Flatten(s.backlog);
    if s.writer.Relocking? && s.writer.n <= |all| then all[s.writer.n..] else all
  }

  function InHand(p: Poster): seq<Event> {
    if p.Nobody? then [] else p.post.events
  }

  predicate Accounting(c: Config, s: State) {
    && NoEmptyBatch(s.backlog)
    && s.size == Total(s.backlog)
    && s.size <= s.most <= c.maxPending
  }

  predicate ThreadsAgree(s: State) {
    && (s.writer.Blocking? || s.writer.Relocking? ==>
          s.backlog != [] && s.writer.n == Min(|s.backlog[0].events|, s.quantum))
    && (s.poster.Writing? ==> s.backlog == [] && 0 < s.poster.n <= |s.poster.post.events|)
  }

  predicate LogAgrees(s: State) {
    && Events(s.log) + InHand(s.poster) == s.posted
    && Select(s.log, Written) == s.written
    && Select(s.log, LostWrite) == s.dropped
    && Select(s.log, LostOverflow) == s.overflowed
    && Select(s.log, Pending) == Remaining(s)
    && Ordered(s.log)
    && OverflowIsSuffix(s.log)
    && PostsBelow(s.log, s.posts)
  }

  predicate LockAgrees(c: Config, s: State) {
    && HeldWhenCounted(s.wl)
    && s.wl.start <= s.clock && 0 <= s.wl.reset <= s.clock
    && (forall id :: id in s.live ==> 0 <= s.live[id] <= s.clock)
    && (!s.poster.Nobody? && s.poster.post.wakelock.Some? ==> s.poster.post.wakelock.value in s.live)
    && (s.timer.Reading? ==> 0 <= s.timer.timeLeft <= c.timeout)
  }

  /** No thread goes to sleep, or stays asleep, while there is work for it. */
  predicate SleepersAgree(s: State) {
    && (s.writer == Tested || s.writer == Asleep ==> s.backlog == [])
    && (s.writer == Tested ==> s.poster == Nobody)
    && (s.timer == Looked || s.timer == Dozing ==> s.wl.count == 0)
    && (s.stopping != Going ==> !s.wl.running)
  }

  predicate Inv(c: Config, s: State) {
    Accounting(c, s) && ThreadsAgree(s) && LogAgrees(s) && LockAgrees(c, s) && SleepersAgree(s)
  }

  lemma StepKeepsThreads(c: Config, s: State, step: Step)
    requires ThreadsAgree(s) && Enabled(c, s, step)
    ensures ThreadsAgree(Apply(c, s, step))
  {
  }

  lemma SpillKeepsInv(c: Config, s: State, k: nat)
    requires Inv(c, s) && !s.poster.Nobody? && k <= |s.poster.post.events|
    requires k > 0 ==> s.backlog == []
    ensures Inv(c, Spill(c, s, s.poster.post, k))
  {
    SpillKeepsAccounting(c, s, k);
    SpillKeepsLog(c, s, k);
  }

  lemma SpillKeepsAccounting(c: Config, s: State, k: nat)
    requires Inv(c, s) && !s.poster.Nobody? && k <= |s.poster.post.events|
    requires k > 0 ==> s.backlog == []
    ensures var t := Spill(c, s, s.poster.post, k);
            Accounting(c, t) && ThreadsAgree(t) && LockAgrees(c, t) && SleepersAgree(t)
  {
    var post := s.poster.post;
    Append(s.backlog, Batch(post.events[k..], post.wakeups));
  }

  lemma SpillKeepsLog(c: Config, s: State, k: nat)
    requires Inv(c, s) && !s.poster.Nobody? && k <= |s.poster.post.events|
    requires k > 0 ==> s.backlog == []
    ensures LogAgrees(Spill(c, s, s.poster.post, k))
  {
    var post := s.poster.post;
    var t := Spill(c, s, post, k);
    var f := if Fits(c, s, post.events[k..]) then Pending else LostOverflow;
    assert t.log == AfterPost(s.log, post.events, k, s.posts, f);
    assert Events(t.log) + InHand(t.poster) == t.posted by {
      SpillEvents(s.log, post.events, k, s.posts, f);
      assert Events(t.log) + [] == Events(t.log);
    }
    SpillKeepsFates(c, s, k);
    SpillOrdered(s.log, post.events, k, s.posts, f);
    SpillOverflow(s.log, post.events, k, s.posts, f);
  }

  lemma SpillKeepsFates(c: Config, s: State, k: nat)
    requires Inv(c, s) && !s.poster.Nobody? && k <= |s.poster.post.events|
    ensures var t := Spill(c, s, s.poster.post, k);
            && Select(t.log, Written) == t.written && Select(t.log, LostWrite) == t.dropped
            && Select(t.log, LostOverflow) == t.overflowed && Select(t.log, Pending) == Remaining(t)
  {
    var left := s.poster.post.events[k..];
    assert Select(s.log, LostWrite) + [] + [] == Select(s.log, LostWrite);
    SpillKeepsFate(c, s, k, Written);
    SpillKeepsFate(c, s, k, LostWrite);
    SpillKeepsFate(c, s, k, LostOverflow);
    SpillKeepsFate(c, s, k, Pending);
    SpillRemaining(c, s, k);
  }

  lemma SpillKeepsFate(c: Config, s: State, k: nat, g: Fate)
    requires Inv(c, s) && !s.poster.Nobody? && k <= |s.poster.post.events|
    ensures var left := s.poster.post.events[k..];
            Select(Spill(c, s, s.poster.post, k).log, g) == Select(s.log, g)
              + (if g == Written then s.poster.post.events[..k]
                 else if g == Pending && Fits(c, s, left) then left
                 else if g == LostOverflow && !Fits(c, s, left) then left else [])
  {
    var post := s.poster.post;
    SpillSelects(s.log, post.events, k, s.posts, if Fits(c, s, post.events[k..]) then Pending else LostOverflow, g);
  }

  lemma SpillRemaining(c: Config, s: State, k: nat)
    requires Inv(c, s) && !s.poster.Nobody? && k <= |s.poster.post.events|
    ensures var left := s.poster.post.events[k..];
            Remaining(Spill(c, s, s.poster.post, k)) == Remaining(s) + if Fits(c, s, left) then left else []
  {
    var post := s.poster.post;
    var left := post.events[k..];
    var n := if s.writer.Relocking? then s.writer.n else 0;
    if s.writer.Relocking? {
      PopFrontEffect(s.backlog, s.quantum);
    }
    assert n <= |Flatten(s.backlog)| && Remaining(s) == Flatten(s.backlog)[n..];
    var t := Spill(c, s, post, k);
    assert t.writer.Relocking? == s.writer.Relocking? && (t.writer.Relocking? ==> t.writer.n == n);
    if Fits(c, s, left) {
      Append(s.backlog, Batch(left, post.wakeups));
      DropOfMore(Flatten(s.backlog), left, n);
    } else {
      assert Remaining(s) + [] == Remaining(s);
    }
  }

  lemma DropOfMore(all: seq<Event>, more: seq<Event>, n: nat)
    requires n <= |all|
    ensures (all + more)[n..] == all[n..] + more
  {
  }

  lemma BlockingReturnKeepsInv(c: Config, s: State, ok: bool)
    requires Inv(c, s) && s.writer.Blocking?
    ensures Inv(c, BlockingWriteReturned(c, s, ok))
  {
    BlockingReturnKeepsLog(c, s, ok);
  }

  lemma BlockingReturnKeepsLog(c: Config, s: State, ok: bool)
    requires Inv(c, s) && s.writer.Blocking?
    ensures LogAgrees(BlockingWriteReturned(c, s, ok))
  {
    var n := s.writer.n;
    var f := if ok then Written else LostWrite;
    PopFrontEffect(s.backlog, s.quantum);
    SettleKeeps(s.log, n, f);
    SettlePending(s.log, n, f, if ok then LostWrite else Written);
    SettlePending(s.log, n, f, LostOverflow);
    SettleOverflow(s.log, n, f, s.posts);
    SettleOrdered(s.log, n, f);
    assert Flatten(s.backlog)[..n] == s.backlog[0].events[..n];
  }

  lemma FinishKeepsInv(c: Config, s: State)
    requires Inv(c, s) && s.writer.Relocking? && s.poster == Nobody
    ensures Inv(c, FinishPass(s))
  {
    PopFrontEffect(s.backlog, s.quantum);
    FlattenLength(s.backlog);
  }

  lemma LockStepKeepsInv(c: Config, s: State, step: Step)
    requires Inv(c, s) && Enabled(c, s, step)
    requires !step.Enter? && !step.Decide? && !step.WriteReturns? && !step.BlockingReturns? && step != Finish
    requires step != Begin && step != WriterExits && !step.Initialize?
    ensures Inv(c, Apply(c, s, step))
  {
    var t := Apply(c, s, step);
    SameLog(s, t);
    assert LockAgrees(c, t);
  }

  lemma SameLog(s: State, t: State)
    requires LogAgrees(s) && t.backlog == s.backlog && InHand(t.poster) == InHand(s.poster)
    requires t.log == s.log && t.posted == s.posted && t.written == s.written && t.dropped == s.dropped
    requires t.overflowed == s.overflowed && t.posts == s.posts
    requires t.writer == s.writer || (!s.writer.Relocking? && !t.writer.Relocking?)
    ensures LogAgrees(t)
  {
  }

  lemma WriterStepKeepsInv(c: Config, s: State, step: Step)
    requires Inv(c, s) && Enabled(c, s, step) && (step == Begin || step == WriterExits)
    ensures Inv(c, Apply(c, s, step))
  {
    SameLog(s, Apply(c, s, step));
  }

  lemma InitializeKeepsInv(c: Config, s: State, now: int, quantum: nat)
    requires Inv(c, s) && Enabled(c, s, Initialize(now, quantum))
    ensures Inv(c, Apply(c, s, Initialize(now, quantum)))
  {
  }

  /** Every step of every thread keeps the invariant. */
  lemma StepKeepsInv(c: Config, s: State, step: Step)
    requires Inv(c, s) && Enabled(c, s, step)
    ensures Inv(c, Apply(c, s, step))
  {
    match step
    case Enter(post) =>
      assert Events(s.log) + [] == Events(s.log);
    case Decide(available) => if !DecideWrite(c, s, available).poster.Writing? { SpillKeepsInv(c, s, 0); }
    case WriteReturns(ok) => SpillKeepsInv(c, s, if ok then s.poster.n else 0);
    case Begin => WriterStepKeepsInv(c, s, step);
    case BlockingReturns(ok) => BlockingReturnKeepsInv(c, s, ok);
    case Finish => FinishKeepsInv(c, s);
    case WriterExits => WriterStepKeepsInv(c, s, step);
    case Initialize(now, quantum) => InitializeKeepsInv(c, s, now, quantum);
    case _ => LockStepKeepsInv(c, s, step);
  }
}
