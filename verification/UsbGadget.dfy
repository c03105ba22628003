/** The USB gadget object. Its methods work on the fields step by step; `model` is the protocol state they
    implement, so what holds over runs of the protocol holds of the object. What files, links and descriptors answer
    is a parameter; what the other threads do, and when, is a choice. */
module UsbGadgets {
  import opened Common
  import opened GadgetPlan
  import opened GadgetProtocol
  import opened GadgetRuns

  /** What a teardown meets: the write of "none", the four descriptor writes, the configuration directory, and the
      entries of it that can be removed. */
  datatype Teardown = Teardown(pullsDown: bool, writes: seq<bool>, readable: bool, removable: set<Name>)

  /** What a setup meets: inotify, the descriptor switch and the watch of MTP or PTP, those of ADB, the links that can be
      made, the descriptors of the monitor, and the write of the UDC node. */
  datatype Setup = Setup(
    inotify: bool, media: bool, adb: bool, linkable: set<nat>, descriptors: bool, pullsUp: bool)

  /** What one look of the monitor meets: the endpoints that are there, and how a write of the UDC node would end. */
  datatype Glance = Glance(present: set<Endpoint>, writes: bool)

  /** A descriptor that epoll_wait reports: the inotify descriptor, with a look for each of its events, or the event
      descriptor with what is read of it. */
  datatype Ready = Inotify(looks: seq<Glance>) | EventFd(flag: int)

  function Flat(batches: seq<seq<Ready>>): seq<Ready> {
    if batches == [] then [] else batches[0] + Flat(batches[1..])
  }

  lemma {:induction false} FlatSplit(batches: seq<seq<Ready>>, b: nat)
    requires b < |batches|
    ensures Flat(batches) == Flat(batches[..b]) + batches[b] + Flat(batches[b + 1..])
    ensures Flat(batches[..b + 1]) == Flat(batches[..b]) + batches[b]
  {
    var first, rest := batches[0], batches[1..];
    if b == 0 {
      assert batches[..0] == [] && batches[..1][1..] == [];
      assert Flat(batches[..1]) == first + [] == first && [] + first == first;
    } else {
      FlatSplit(rest, b - 1);
      assert batches[..b][1..] == rest[..b - 1] && batches[..b + 1][1..] == rest[..b];
      assert rest[b - 1] == batches[b] && rest[b..] == batches[b + 1..];
      var before := Flat(rest[..b - 1]);
      assert first + (before + batches[b] + Flat(rest[b..])) == first + before + batches[b] + Flat(rest[b..]);
      assert first + (before + batches[b]) == first + before + batches[b];
    }
  }

  /** The looks up to the first order to stop. */
  function LooksOf(ready: seq<Ready>): seq<Glance> {
    if ready == [] || ready[0] == EventFd(100) then []
    else (if ready[0].Inotify? then ready[0].looks else []) + LooksOf(ready[1..])
  }

  lemma {:induction false} LooksOfMore(done: seq<Ready>, r: Ready, rest: seq<Ready>)
    requires EventFd(100) !in done
    ensures LooksOf(done + [r] + rest) ==
            LooksOf(done) + if r == EventFd(100) then [] else (if r.Inotify? then r.looks else []) + LooksOf(rest)
  {
    if done == [] {
      assert done + [r] + rest == [r] + rest && ([r] + rest)[1..] == rest;
    } else {
      assert (done + [r] + rest)[1..] == done[1..] + [r] + rest;
      forall x | x in done[1..] ensures x in done { }
      assert done[0] in done;
      LooksOfMore(done[1..], r, rest);
    }
  }

  /** A trace whose looks are these, in this order, each write following one of them and ending as it says. */
  predicate Follows(trace: seq<MonitorEvent>, looks: seq<Glance>) {
    if looks == [] then trace == []
    else
      var n, g, before := |trace|, looks[|looks| - 1], looks[..|looks| - 1];
      || (n >= 1 && trace[n - 1] == Observed(g.present) && Follows(trace[..n - 1], before))
      || (n >= 2 && trace[n - 2] == Observed(g.present) && trace[n - 1] == WroteUdc(g.writes)
          && Follows(trace[..n - 2], before))
  }

  lemma FollowsMore(trace: seq<MonitorEvent>, looks: seq<Glance>, g: Glance)
    requires Follows(trace, looks)
    ensures Follows(trace + [Observed(g.present)], looks + [g])
    ensures Follows(trace + [Observed(g.present)] + [WroteUdc(g.writes)], looks + [g])
  {
    assert (looks + [g])[..|looks|] == looks;
    assert (trace + [Observed(g.present)])[..|trace|] == trace;
    assert (trace + [Observed(g.present)] + [WroteUdc(g.writes)])[..|trace|] == trace;
  }

  /** In such a trace look k is recorded at at[k], and between it and the next there is at most its write. */
  lemma {:induction false} FollowsExactly(trace: seq<MonitorEvent>, looks: seq<Glance>) returns (at: seq<nat>)
    requires Follows(trace, looks)
    ensures |at| == |looks| + 1 && at[0] == 0 && at[|looks|] == |trace|
    ensures forall k :: 0 <= k < |looks| ==>
              && at[k] < |trace| && trace[at[k]] == Observed(looks[k].present)
              && (at[k + 1] == at[k] + 1
                  || (at[k + 1] == at[k] + 2 <= |trace| && trace[at[k] + 1] == WroteUdc(looks[k].writes)))
    decreases looks
  {
    at := [0];
    if looks != [] {
      var n, g, before := |trace|, looks[|looks| - 1], looks[..|looks| - 1];
      var m := if n >= 1 && trace[n - 1] == Observed(g.present) && Follows(trace[..n - 1], before) then n - 1 else n - 2;
      var earlier := FollowsExactly(trace[..m], before);
      at := earlier + [n];
      forall k | 0 <= k < |before| ensures trace[at[k]] == Observed(looks[k].present) {
        assert at[k] == earlier[k] && looks[k] == before[k] && trace[at[k]] == trace[..m][at[k]];
      }
    }
  }

  class Callback {
    var told: seq<(Functions, Status)>

    method SetCurrentUsbFunctionsCb(functions: Functions, status: Status)
      modifies `told
      ensures told == old(told) + [(functions, status)]
    {
      told := told + [(functions, status)];
    }
  }

  class UsbGadget {
    var links: Directory                     // the configuration directory
    var mEndpointList: seq<Endpoint>
    var mMonitor: Option<Monitor>            // the monitor thread
    var mMonitorCreated: bool
    var stopSignalled: bool                  // the event descriptor of the monitor holds 100
    var mLockHeld: bool                      // by the request thread
    var mCurrentUsbFunctions: Functions
    var mCurrentUsbFunctionsApplied: bool
    var gadgetPullup: bool
    var udcBound: bool                       // the UDC node names the controller
    var requests: nat                        // the number of calls of setCurrentUsbFunctions so far
    ghost var model: State

    ghost predicate Valid()
      reads this
    {
      Agrees() && model.links == links && model.endpoints == mEndpointList && model.lockHeld == mLockHeld
    }

    /** Valid, but for what a request changes in several statements: the links, the endpoints, the lock. */
    ghost predicate Agrees()
      reads this
    {
      && model.monitor == mMonitor && model.created == mMonitorCreated && model.stopFlag == stopSignalled
      && model.number == requests && model.applied == mCurrentUsbFunctionsApplied && model.pullup == gadgetPullup
      && model.bound == udcBound
    }

    constructor (directory: Directory)
      ensures Valid() && model == Started(directory)
    {
      links, mEndpointList := directory, [];
      mMonitor, mMonitorCreated, stopSignalled, mLockHeld := None, false, false, false;
      mCurrentUsbFunctions, mCurrentUsbFunctionsApplied, gadgetPullup := NONE, false, false;
      requests, udcBound := 0, false;
      model := Started(directory);
    }

    // -------------------------------------------------------------- the configuration directory

    /** unlinkFunctions: entries are visited in any order, those that are no functions are skipped, and the
        first removal to fail ends the loop. */
    method UnlinkFunctions(readable: bool, removable: set<Name>) returns (ret: int)
      modifies `links
      ensures ret == 0 <==> readable && forall n :: n in old(links) && IsFunctionName(n) ==> n in removable
      ensures ret == 0 ==> links == OthersOf(old(links))
      ensures OthersOf(links) == OthersOf(old(links)) && links.Keys <= old(links.Keys)
      ensures forall n :: n in links ==> links[n] == old(links)[n]
      ensures forall n :: n in old(links) && n !in links ==> IsFunctionName(n)
    {
      if !readable {
        return -1;
      }
      ret := 0;
      var entries := links.Keys;
      while entries != {}
        invariant ret == 0
        invariant entries <= links.Keys <= old(links.Keys)
        invariant forall n :: n in links ==> links[n] == old(links)[n]
        invariant forall n :: n in old(links) && !IsFunctionName(n) ==> n in links
        invariant forall n :: n in links && IsFunctionName(n) ==> n in entries
        invariant forall n :: n in old(links) && n !in links ==> n in removable
        decreases entries
      {
        var entry :| entry in entries;
        entries := entries - {entry};
        if IsFunctionName(entry) {
          if entry !in removable {
            return -1;
          }
          links := links - {entry};
        }
      }
    }

    /** linkFunction: the link is refused if its name is taken; `works` is how it ends otherwise. */
    method LinkFunction(f: Function, index: nat, works: bool) returns (ret: int)
      modifies `links
      ensures ret == 0 <==> works && Link(index) !in old(links)
      ensures links == if ret == 0 then old(links)[Link(index) := To(f)] else old(links)
    {
      if Link(index) in links || !works {
        return -1;
      }
      links := links[Link(index) := To(f)];
      ret := 0;
    }

    /** The links function0 to function`n - 1` can be made. */
    static predicate CanLink(linkable: set<nat>, n: nat) {
      forall k :: 0 <= k < n ==> k in linkable
    }

    static predicate NoLinks(d: Directory) {
      forall n :: n in d ==> !n.Link?
    }

    /** One link more if it is asked for: the counter i of setupFunctions runs along. `linked` is what has been
        linked into `before` so far, always the beginning of `plan`. */
    method LinkIf(b: bool, f: Function, i: nat, linkable: set<nat>, ghost before: Directory, ghost done: seq<Function>,
                  ghost plan: seq<Function>) returns (ok: bool, next: nat, ghost linked: seq<Function>)
      requires links == LinkAll(before, done) && i == |done| && done + If(b, f) <= plan && NoLinks(before)
      requires CanLink(linkable, i)
      modifies `links
      ensures links == LinkAll(before, linked) && linked <= plan
      ensures ok <==> CanLink(linkable, i + |If(b, f)|)
      ensures ok ==> linked == done + If(b, f) && next == |linked|
    {
      ok, next, linked := true, i, done;
      if b {
        LinkAllEntries(before, done, Link(i));
        var ret := LinkFunction(f, i, i in linkable);
        next := i + 1;
        ok := ret == 0;
        if ok {
          linked := done + [f];
          assert linked[..|done|] == done;
        }
      }
    }

    method LinkPlain(f: Functions, from: nat, linkable: set<nat>, ghost before: Directory, ghost done: seq<Function>,
                     ghost plan: seq<Function>) returns (ok: bool, i: nat, ghost linked: seq<Function>)
      requires links == LinkAll(before, done) && from == |done| && done + PlainPart(f) <= plan && NoLinks(before)
      requires CanLink(linkable, from)
      modifies `links
      ensures links == LinkAll(before, linked) && linked <= plan
      ensures ok <==> CanLink(linkable, from + |PlainPart(f)|)
      ensures ok ==> linked == done + PlainPart(f) && i == |linked|
    {
      ghost var a, b, c, d :=
        If(f.midi, MidiGs5), If(f.accessory, AccessoryGs2), If(f.audioSource, AudioSourceGs3), If(f.rndis, RndisGs4);
      Beginnings(done, a, b, c, d, plan);
      assert |PlainPart(f)| == |a| + |b| + |c| + |d|;
      ok, i, linked := LinkIf(f.midi, MidiGs5, from, linkable, before, done, plan);
      if !ok { return; }
      ok, i, linked := LinkIf(f.accessory, AccessoryGs2, i, linkable, before, linked, plan);
      if !ok { return; }
      ok, i, linked := LinkIf(f.audioSource, AudioSourceGs3, i, linkable, before, linked, plan);
      if !ok { return; }
      ok, i, linked := LinkIf(f.rndis, RndisGs4, i, linkable, before, linked, plan);
    }

    lemma Beginnings(x: seq<Function>, a: seq<Function>, b: seq<Function>, c: seq<Function>, d: seq<Function>,
                     plan: seq<Function>)
      requires x + (a + b + c + d) <= plan
      ensures x + a <= plan && x + a + b <= plan && x + a + b + c <= plan
      ensures x + a + b + c + d == x + (a + b + c + d)
    {
      Beginning(x, a, b + c + d, plan);
      assert a + b + c + d == a + (b + c + d);
      Beginning(x + a, b, c + d, plan);
      assert b + c + d == b + (c + d);
      Beginning(x + a + b, c, d, plan);
      assert x + a + b + (c + d) == x + a + b + c + d;
    }

    lemma Beginning(x: seq<Function>, a: seq<Function>, rest: seq<Function>, plan: seq<Function>)
      requires x + (a + rest) <= plan
      ensures x + a <= plan && (x + a) + rest == x + (a + rest)
    {
    }

    /** strtok: the next token from `from` on, and where to go on. */
    method StrTok(s: string, from: nat) returns (token: Option<string>, next: nat)
      requires from <= |s|
      ensures from <= next <= |s|
      ensures Tokens(s[from..]) == if token == None then [] else [token.value] + Tokens(s[next..])
      ensures token.Some? ==> next > from
    {
      var start := from;
      while start < |s| && s[start] == ','
        invariant from <= start <= |s| && Tokens(s[from..]) == Tokens(s[start..])
      {
        TokensSkipComma(s, start);
        start := start + 1;
      }
      if start == |s| {
        assert s[start..] == [];
        return None, start;
      }
      next := start;
      while next < |s| && s[next] != ','
        invariant start <= next <= |s|
        invariant forall j :: start <= j < next ==> s[j] != ','
      {
        next := next + 1;
      }
      TokensTakeToken(s, start, next);
      token := Some(s[start..next]);
    }

    /** One token of the vendor property, the first of `tokens`; unknown ones link nothing. */
    method LinkToken(token: string, from: nat, linkable: set<nat>, ghost before: Directory, ghost done: seq<Function>,
                     ghost tokens: seq<string>, ghost plan: seq<Function>)
      returns (ok: bool, i: nat, ghost linked: seq<Function>)
      requires tokens != [] && tokens[0] == token && NoLinks(before) && CanLink(linkable, from)
      requires links == LinkAll(before, done) && from == |done| && done + VendorPlan(tokens) <= plan
      modifies `links
      ensures links == LinkAll(before, linked) && linked <= plan
      ensures ok <==> CanLink(linkable, from + |VendorPart(token)|)
      ensures ok ==> linked == done + VendorPart(token) && i == |linked|
      ensures ok ==> linked + VendorPlan(tokens[1..]) == done + VendorPlan(tokens)
    {
      var f := VendorFunction(token);
      Beginning(done, VendorPart(token), VendorPlan(tokens[1..]), plan);
      ok, i, linked := true, from, done;
      if f.Some? {
        OneOrNone(token, f.value);
        ok, i, linked := LinkIf(true, f.value, from, linkable, before, done, plan);
      } else {
        assert done + [] == done;
      }
    }

    lemma OneOrNone(token: string, f: Function)
      requires VendorFunction(token) == Some(f)
      ensures VendorPart(token) == If(true, f)
    {
    }

    method LinkVendor(vendor: string, from: nat, linkable: set<nat>, ghost before: Directory, ghost done: seq<Function>,
                      ghost plan: seq<Function>) returns (ok: bool, i: nat, ghost linked: seq<Function>)
      requires links == LinkAll(before, done) && from == |done| && done + VendorPlan(Tokens(vendor)) <= plan
      requires NoLinks(before) && CanLink(linkable, from)
      modifies `links
      ensures links == LinkAll(before, linked) && linked <= plan
      ensures ok <==> CanLink(linkable, from + |VendorPlan(Tokens(vendor))|)
      ensures ok ==> linked == done + VendorPlan(Tokens(vendor)) && i == |linked|
    {
      ok, i, linked := true, from, done;
      ghost var goal := done + VendorPlan(Tokens(vendor));
      assert vendor[0..] == vendor;
      var token, at := StrTok(vendor, 0);
      ghost var rest := Tokens(vendor);
      while token.Some?
        invariant at <= |vendor| && from <= i == |linked| && links == LinkAll(before, linked) && ok
        invariant goal == linked + VendorPlan(rest) && CanLink(linkable, i)
        invariant rest == if token == None then [] else [token.value] + Tokens(vendor[at..])
        decreases |vendor| - at, token.Some?
      {
        ghost var tail := Tokens(vendor[at..]);
        assert rest[1..] == tail;
        assert i + |VendorPart(token.value)| <= |goal|;
        ok, i, linked := LinkToken(token.value, i, linkable, before, linked, rest, plan);
        if !ok { return; }
        rest := tail;
        token, at := StrTok(vendor, at);
      }
    }

    /** The linking part of setupFunctions: MTP or PTP, the plain functions, the vendor functions, ADB. */
    method LinkFunctions(f: Functions, vendor: string, setup: Setup)
      returns (ok: bool, ghost linked: seq<Function>, ghost watched: nat)
      requires NoLinks(links)
      modifies `links, `mEndpointList
      ensures links == LinkAll(old(links), linked) && linked <= Plan(f, vendor)
      ensures watched <= |Endpoints(f)| && mEndpointList == old(mEndpointList) + Endpoints(f)[..watched]
      ensures ok <==> (f.mtp || f.ptp ==> setup.media) && (f.adb ==> setup.adb)
                      && CanLink(setup.linkable, |Plan(f, vendor)|)
      ensures ok ==> linked == Plan(f, vendor) && watched == |Endpoints(f)|
    {
      ghost var before, plan := links, Plan(f, vendor);
      PlanBegins(f, vendor, plan);
      EndpointsBegin(mEndpointList, f);
      var i: nat;
      watched := 0;
      ok, i, linked := LinkMedia(f, setup, before, plan);
      if !ok { return; }
      watched := |MediaEndpoints(f)|;
      ok, i, linked := LinkPlain(f, i, setup.linkable, before, linked, plan);
      if !ok { return; }
      ok, linked := LinkVendorAndAdb(f, vendor, i, setup, before, linked, plan);
      if ok {
        watched := |Endpoints(f)|;
      }
    }

    method LinkVendorAndAdb(f: Functions, vendor: string, from: nat, setup: Setup, ghost before: Directory,
                            ghost done: seq<Function>, ghost plan: seq<Function>)
      returns (ok: bool, ghost linked: seq<Function>)
      requires links == LinkAll(before, done) && from == |done| && NoLinks(before) && CanLink(setup.linkable, from)
      requires done + VendorPlan(Tokens(vendor)) <= plan && done + VendorPlan(Tokens(vendor)) + AdbPart(f) == plan
      modifies `links, `mEndpointList
      ensures links == LinkAll(before, linked) && linked <= plan
      ensures ok <==> (f.adb ==> setup.adb) && CanLink(setup.linkable, |plan|)
      ensures ok ==> linked == plan
      ensures mEndpointList == if ok then old(mEndpointList) + AdbEndpoints(f) else old(mEndpointList)
    {
      var i;
      ok, i, linked := LinkVendor(vendor, from, setup.linkable, before, done, plan);
      if !ok { return; }
      ok, linked := LinkAdb(f, i, setup, before, linked, plan);
    }

    lemma PlanBegins(f: Functions, vendor: string, plan: seq<Function>)
      requires plan == Plan(f, vendor)
      ensures MediaPart(f) <= plan
      ensures MediaPart(f) + PlainPart(f) <= plan
      ensures MediaPart(f) + PlainPart(f) + VendorPlan(Tokens(vendor)) <= plan
      ensures MediaPart(f) + PlainPart(f) + VendorPlan(Tokens(vendor)) + AdbPart(f) == plan
    {
      ghost var a, b, c := MediaPart(f), PlainPart(f), VendorPlan(Tokens(vendor));
      Beginning([], a + b + c, AdbPart(f), plan);
      assert [] + (a + b + c + AdbPart(f)) == plan && [] + (a + b + c) == a + b + c;
      assert a + b <= a + b + c && a <= a + b;
    }

    lemma EndpointsBegin(before: seq<Endpoint>, f: Functions)
      ensures before + Endpoints(f)[..0] == before
      ensures before + Endpoints(f)[..|MediaEndpoints(f)|] == before + MediaEndpoints(f)
      ensures before + Endpoints(f)[..|Endpoints(f)|] == before + MediaEndpoints(f) + AdbEndpoints(f)
    {
      assert Endpoints(f)[..|MediaEndpoints(f)|] == MediaEndpoints(f);
    }

    method LinkMedia(f: Functions, setup: Setup, ghost before: Directory, ghost plan: seq<Function>)
      returns (ok: bool, i: nat, ghost linked: seq<Function>)
      requires links == before && MediaPart(f) <= plan && NoLinks(before)
      modifies `links, `mEndpointList
      ensures links == LinkAll(before, linked) && linked <= plan
      ensures ok <==> (f.mtp || f.ptp ==> setup.media) && CanLink(setup.linkable, |MediaPart(f)|)
      ensures ok ==> linked == MediaPart(f) && i == |linked|
      ensures mEndpointList == if ok then old(mEndpointList) + MediaEndpoints(f) else old(mEndpointList)
    {
      i, linked := 0, [];
      ok := (f.mtp || f.ptp) ==> setup.media;
      if !ok { return; }
      ghost var media := if f.mtp then FfsMtp else FfsPtp;
      assert [] + If(f.mtp || f.ptp, media) == MediaPart(f);
      ok, i, linked := LinkIf(f.mtp || f.ptp, if f.mtp then FfsMtp else FfsPtp, i, setup.linkable, before, linked, plan);
      if !ok { return; }
      if f.mtp {
        mEndpointList := mEndpointList + [MtpEp(1), MtpEp(2), MtpEp(3)];
      } else if f.ptp {
        mEndpointList := mEndpointList + [PtpEp(1), PtpEp(2), PtpEp(3)];
      }
    }

    method LinkAdb(f: Functions, i: nat, setup: Setup, ghost before: Directory, ghost done: seq<Function>,
                   ghost plan: seq<Function>) returns (ok: bool, ghost linked: seq<Function>)
      requires links == LinkAll(before, done) && i == |done| && done + AdbPart(f) <= plan && NoLinks(before)
      requires CanLink(setup.linkable, i)
      modifies `links, `mEndpointList
      ensures links == LinkAll(before, linked) && linked <= plan
      ensures ok <==> (f.adb ==> setup.adb) && CanLink(setup.linkable, i + |AdbPart(f)|)
      ensures ok ==> linked == done + AdbPart(f)
      ensures mEndpointList == if ok then old(mEndpointList) + AdbEndpoints(f) else old(mEndpointList)
    {
      linked := done;
      ok := f.adb ==> setup.adb;
      if !ok {
        assert done <= done + AdbPart(f);
        return;
      }
      var next;
      ok, next, linked := LinkIf(f.adb, FfsAdb, i, setup.linkable, before, linked, plan);
      if ok && f.adb {
        mEndpointList := mEndpointList + [AdbEp(1), AdbEp(2)];
      }
    }

    // -------------------------------------------------------------- writes of the UDC node from elsewhere

    /** reset: a write of "none" without any lock, whatever request is in progress. */
    method Reset(pullsDown: bool) returns (status: Status)
      requires Valid()
      modifies `udcBound, `model
      ensures Valid() && model == Apply(old(model), ResetUdc(pullsDown))
      ensures status == if pullsDown then Success else Error
      ensures udcBound == (old(udcBound) && !pullsDown)
    {
      model := Apply(model, ResetUdc(pullsDown));
      status := Error;
      if pullsDown {
        udcBound := false;
        status := Success;
      }
    }

    // -------------------------------------------------------------- the monitor thread

    /** What the monitor and the other writers of the UDC node may do whenever the request thread lets them. The body
        takes no step; callers know only the contract. */
    method OthersMayRun()
      requires Valid()
      modifies `mMonitor, `mCurrentUsbFunctionsApplied, `gadgetPullup, `udcBound, `model
      ensures Valid() && OthersMove(old(model), model)
    {
      OthersMayRest(model);
    }

    /** One step of the monitor. */
    method MonitorStep(step: Step)
      requires Valid() && IsMonitorStep(step) && Enabled(model, step)
      modifies `mMonitor, `mCurrentUsbFunctionsApplied, `gadgetPullup, `udcBound, `model
      ensures Valid() && model == Apply(old(model), step)
    {
      model := Apply(model, step);
      mMonitor := Some(MonitorAfter(mMonitor.value, step));
      if step == Publish {
        mCurrentUsbFunctionsApplied, gadgetPullup := true, true;
      } else if step == WriteUdc(true) {
        udcBound := true;
      }
    }

    /** join: the monitor runs to its end. */
    method JoinMonitor()
      requires Valid() && model.phase.Joining? && mMonitor.Some? && stopSignalled && !mLockHeld
      modifies `mMonitor, `mCurrentUsbFunctionsApplied, `gadgetPullup, `udcBound, `model
      ensures Valid() && OthersMove(old(model), model) && MonitorAt(model, Done)
    {
      ghost var s := model;
      OthersMayRest(s);
      while mMonitor.value.pc != Done
        invariant Valid() && OthersMove(s, model) && mMonitor.Some? && stopSignalled && !mLockHeld
        decreases StepsToEnd(mMonitor.value)
      {
        var present: set<Endpoint> := *;
        var ok: bool := *;
        var step := NextJoinStep(mMonitor.value, present, ok);
        JoinStepsCount(mMonitor.value, step);
        OthersMoveNext(s, model, step);
        MonitorStep(step);
      }
    }

    /** One look at the endpoints, in order, up to the first that is missing. */
    method EndpointsPresent(present: set<Endpoint>) returns (all: bool)
      ensures all <==> forall i :: 0 <= i < |mEndpointList| ==> mEndpointList[i] in present
    {
      all := true;
      for j := 0 to |mEndpointList|
        invariant all && forall k :: 0 <= k < j ==> mEndpointList[k] in present
      {
        if mEndpointList[j] !in present {
          return false;
        }
      }
    }

    /** What a monitor has done when it has taken these looks: their record, and what the two flags must be if they
        were `raised` before. */
    ghost predicate Watched(m0: Monitor, m: Monitor, looks: seq<Glance>, raised: (bool, bool))
      reads this
    {
      && MonitorLeads(m0, m) && MonitorInv(m) && m.endpoints == mEndpointList && Follows(m.trace, looks)
      && mCurrentUsbFunctionsApplied == (raised.0 || WroteUdc(true) in m.trace)
      && gadgetPullup == (raised.1 || WroteUdc(true) in m.trace)
    }

    /** The write of the UDC node and, if it succeeds, the flags raised under mLock. */
    method PullUp(ghost m: Monitor, writes: bool) returns (ghost n: Monitor)
      requires m.pc == Pulling
      modifies `mCurrentUsbFunctionsApplied, `gadgetPullup, `udcBound
      ensures n.pc == Polling && n.writeUdc == (m.writeUdc && !writes)
      ensures n == if writes then MonitorAfter(MonitorAfter(m, WriteUdc(true)), Publish)
                   else MonitorAfter(m, WriteUdc(false))
      ensures if writes then mCurrentUsbFunctionsApplied && gadgetPullup && udcBound
              else mCurrentUsbFunctionsApplied == old(mCurrentUsbFunctionsApplied) && gadgetPullup == old(gadgetPullup)
    {
      n := MonitorAfter(m, WriteUdc(writes));
      if writes {
        udcBound := true;
        mCurrentUsbFunctionsApplied := true;
        gadgetPullup := true;
        n := MonitorAfter(n, Publish);
      }
    }

    /** monitorFfs, as far as it gets with these results of epoll_wait: it takes only the monitor steps of the protocol,
        one look at first and one for each inotify event before the first order to stop, and stops at that order. The
        flags are raised exactly if a write succeeded. */
    method MonitorFfs(owner: nat, first: Glance, batches: seq<seq<Ready>>) returns (ghost m: Monitor, stopped: bool)
      modifies `mCurrentUsbFunctionsApplied, `gadgetPullup, `udcBound
      ensures MonitorLeads(NewMonitor(owner, mEndpointList), m) && MonitorInv(m)
      ensures m.pc == (if stopped then Done else Polling) && (stopped <==> EventFd(100) in Flat(batches))
      ensures Follows(m.trace, [first] + LooksOf(Flat(batches)))
      ensures mCurrentUsbFunctionsApplied == (old(mCurrentUsbFunctionsApplied) || WroteUdc(true) in m.trace)
      ensures gadgetPullup == (old(gadgetPullup) || WroteUdc(true) in m.trace)
    {
      ghost var m0, raised := NewMonitor(owner, mEndpointList), (mCurrentUsbFunctionsApplied, gadgetPullup);
      var writeUdc, b;
      m, writeUdc := FirstLook(m0, first);
      stopped, b := false, 0;
      while !stopped && b < |batches|
        invariant b <= |batches| && m.writeUdc == writeUdc && m.pc == (if stopped then Done else Polling)
        invariant stopped ==> EventFd(100) in Flat(batches) && Watched(m0, m, [first] + LooksOf(Flat(batches)), raised)
        invariant !stopped ==> EventFd(100) !in Flat(batches[..b])
                               && Watched(m0, m, [first] + LooksOf(Flat(batches[..b])), raised)
        decreases |batches| - b, !stopped
      {
        ghost var done, rest := Flat(batches[..b]), Flat(batches[b + 1..]);
        FlatSplit(batches, b);
        m, writeUdc, stopped := HandleEvents(batches[b], m0, m, writeUdc, first, raised, done, rest);
        assert Flat(batches) == done + batches[b] + rest;
        b := b + 1;
      }
      assert batches[..|batches|] == batches;
    }

    /** The results of one epoll_wait, after those that were `done` and before the `rest`. */
    method HandleEvents(events: seq<Ready>, ghost m0: Monitor, ghost m: Monitor, before: bool, ghost first: Glance,
                        ghost raised: (bool, bool), ghost done: seq<Ready>, ghost rest: seq<Ready>)
      returns (ghost n: Monitor, writeUdc: bool, stopped: bool)
      requires m.pc == Polling && m.writeUdc == before && EventFd(100) !in done
      requires Watched(m0, m, [first] + LooksOf(done), raised)
      modifies `mCurrentUsbFunctionsApplied, `gadgetPullup, `udcBound
      ensures n.pc == (if stopped then Done else Polling) && n.writeUdc == writeUdc
      ensures stopped <==> EventFd(100) in events
      ensures Watched(m0, n, [first] + LooksOf(if stopped then done + events + rest else done + events), raised)
    {
      n, writeUdc, stopped := m, before, false;
      assert done + events[..0] == done;
      for i := 0 to |events|
        invariant n.pc == Polling && n.writeUdc == writeUdc && !stopped
        invariant EventFd(100) !in events[..i]
        invariant Watched(m0, n, [first] + LooksOf(done + events[..i]), raised)
      {
        OneEvent(done, events, i, rest);
        n, writeUdc, stopped := HandleEvent(events[i], m0, n, writeUdc, [first] + LooksOf(done + events[..i]), raised);
        if stopped {
          assert events[i] in events;
          return;
        }
        FirstAndMore(first, LooksOf(done + events[..i]), if events[i].Inotify? then events[i].looks else []);
      }
      assert events[..|events|] == events;
    }

    lemma FirstAndMore(first: Glance, looks: seq<Glance>, more: seq<Glance>)
      ensures [first] + looks + more == [first] + (looks + more)
    {
    }

    /** The looks of one more event, and of all of them if it is the order to stop. */
    lemma OneEvent(done: seq<Ready>, events: seq<Ready>, i: nat, rest: seq<Ready>)
      requires i < |events| && EventFd(100) !in done && EventFd(100) !in events[..i]
      ensures events[i] == EventFd(100) ==> LooksOf(done + events + rest) == LooksOf(done + events[..i])
      ensures events[i] != EventFd(100) ==>
                LooksOf(done + events[..i + 1]) ==
                LooksOf(done + events[..i]) + if events[i].Inotify? then events[i].looks else []
    {
      var so, more := done + events[..i], if events[i].Inotify? then events[i].looks else [];
      LooksOfMore(so, events[i], events[i + 1..] + rest);
      LooksOfMore(so, events[i], []);
      assert so + [events[i]] + (events[i + 1..] + rest) == done + events + rest;
      assert so + [events[i]] + [] == done + events[..i + 1];
      assert LooksOf(so) + [] == LooksOf(so) && more + [] == more;
    }

    /** One descriptor that is ready. */
    method HandleEvent(event: Ready, ghost m0: Monitor, ghost m: Monitor, before: bool, ghost done: seq<Glance>,
                       ghost raised: (bool, bool)) returns (ghost n: Monitor, writeUdc: bool, stopped: bool)
      requires m.pc == Polling && m.writeUdc == before && Watched(m0, m, done, raised)
      modifies `mCurrentUsbFunctionsApplied, `gadgetPullup, `udcBound
      ensures n.pc == (if stopped then Done else Polling) && n.writeUdc == writeUdc
      ensures stopped <==> event == EventFd(100)
      ensures Watched(m0, n, done + if event.Inotify? then event.looks else [], raised)
      ensures stopped ==> Watched(m0, n, done, raised)
    {
      n, writeUdc, stopped := m, before, false;
      assert done + [] == done;
      match event {
        case Inotify(looks) =>
          n, writeUdc := HandleInotify(looks, m0, n, writeUdc, done, raised);
        case EventFd(flag) =>
          if flag == 100 {
            MonitorLeadsNext(m0, n, StopMonitor);
            MonitorStepKeeps(n, StopMonitor);
            n := MonitorAfter(n, StopMonitor);
            stopped := true;
          }
      }
    }

    /** The events in the buffer that was read from inotify. */
    method HandleInotify(looks: seq<Glance>, ghost m0: Monitor, ghost m: Monitor, before: bool, ghost done: seq<Glance>,
                         ghost raised: (bool, bool)) returns (ghost n: Monitor, writeUdc: bool)
      requires m.pc == Polling && m.writeUdc == before && Watched(m0, m, done, raised)
      modifies `mCurrentUsbFunctionsApplied, `gadgetPullup, `udcBound
      ensures n.pc == Polling && n.writeUdc == writeUdc && Watched(m0, n, done + looks, raised)
    {
      n, writeUdc := m, before;
      assert done + looks[..0] == done;
      for p := 0 to |looks|
        invariant n.pc == Polling && n.writeUdc == writeUdc && Watched(m0, n, done + looks[..p], raised)
      {
        n, writeUdc := InotifyEvent(m0, n, writeUdc, looks[p], done + looks[..p], raised);
        assert done + looks[..p] + [looks[p]] == done + looks[..p + 1];
      }
      assert looks[..|looks|] == looks;
    }

    /** The look before the loop, and the write if the endpoints are there already. */
    method FirstLook(ghost m0: Monitor, g: Glance) returns (ghost m: Monitor, writeUdc: bool)
      requires m0.pc == Scanning && MonitorInv(m0) && m0.endpoints == mEndpointList
      modifies `mCurrentUsbFunctionsApplied, `gadgetPullup, `udcBound
      ensures m.pc == Polling && m.writeUdc == writeUdc
      ensures Watched(m0, m, [g], (old(mCurrentUsbFunctionsApplied), old(gadgetPullup)))
    {
      writeUdc := true;
      var descriptorWritten := EndpointsPresent(g.present);
      MonitorLeadsNowhere(m0);
      MonitorLeadsNext(m0, m0, Scan(g.present));
      MonitorStepKeeps(m0, Scan(g.present));
      LooksExactly(m0, Scan(g.present));
      FollowsMore([], [], g);
      m := MonitorAfter(m0, Scan(g.present));
      assert [] + [g] == [g];
      if descriptorWritten {
        PulledUpMoves(m0, m, g.writes);
        m := PullUp(m, g.writes);
        if g.writes {
          writeUdc := false;
        }
      }
    }

    /** One inotify event. */
    method InotifyEvent(ghost m0: Monitor, ghost m: Monitor, before: bool, g: Glance, ghost done: seq<Glance>,
                        ghost raised: (bool, bool)) returns (ghost n: Monitor, writeUdc: bool)
      requires m.pc == Polling && m.writeUdc == before && Watched(m0, m, done, raised)
      modifies `mCurrentUsbFunctionsApplied, `gadgetPullup, `udcBound
      ensures n.pc == Polling && n.writeUdc == writeUdc && Watched(m0, n, done + [g], raised)
    {
      writeUdc := before;
      var descriptorPresent := EndpointsPresent(g.present);
      MonitorLeadsNext(m0, m, Event(g.present));
      MonitorStepKeeps(m, Event(g.present));
      LooksExactly(m, Event(g.present));
      FollowsMore(m.trace, done, g);
      n := MonitorAfter(m, Event(g.present));
      if !descriptorPresent && !writeUdc {
        writeUdc := true;
      } else if descriptorPresent && writeUdc {
        PulledUpMoves(m0, n, g.writes);
        n := PullUp(n, g.writes);
        if g.writes {
          writeUdc := false;
        }
      }
    }

    lemma PulledUpMoves(m0: Monitor, m: Monitor, written: bool)
      requires MonitorLeads(m0, m) && MonitorInv(m) && m.pc == Pulling
      ensures var a := MonitorAfter(m, WriteUdc(written));
              var n := if written then MonitorAfter(a, Publish) else a;
              && MonitorLeads(m0, n) && MonitorInv(n) && n.endpoints == m.endpoints
              && n.trace == m.trace + [WroteUdc(written)]
    {
      MonitorLeadsNext(m0, m, WriteUdc(written));
      MonitorStepKeeps(m, WriteUdc(written));
      if written {
        MonitorLeadsNext(m0, MonitorAfter(m, WriteUdc(true)), Publish);
        MonitorStepKeeps(MonitorAfter(m, WriteUdc(true)), Publish);
      }
    }

    // -------------------------------------------------------------- requests

    /** Between requests. */
    ghost predicate Ready()
      reads this
    {
      Valid() && Inv(model) && model.phase == Idle
    }

    /** Writes up to the first that fails. */
    method WriteStrings(writes: seq<bool>) returns (ok: bool)
      ensures ok <==> forall i :: 0 <= i < |writes| ==> writes[i]
    {
      ok := true;
      for i := 0 to |writes|
        invariant ok && forall k :: 0 <= k < i ==> writes[k]
      {
        if !writes[i] {
          return false;
        }
      }
    }

    /** The steps of `model` since `s`, one step further. */
    ghost method Take(s: State, step: Step)
      requires Leads(s, model) && Enabled(model, step)
      modifies `model
      ensures model == Apply(old(model), step) && Leads(s, model)
    {
      LeadsNext(s, model, step);
      model := Apply(model, step);
    }

    /** The writes and the removals of tearDownGadget. */
    method RemoveFunctions(teardown: Teardown) returns (ok: bool, ghost removed: set<Name>)
      modifies `links
      ensures ok <==> (forall i :: 0 <= i < |teardown.writes| ==> teardown.writes[i]) && teardown.readable
                      && forall n :: n in old(links) && IsFunctionName(n) ==> n in teardown.removable
      ensures ok ==> links == OthersOf(old(links))
      ensures !ok ==> links == old(links) - removed && forall n :: n in removed ==> IsFunctionName(n)
    {
      removed := {};
      ok := WriteStrings(teardown.writes);
      if ok {
        ghost var before := links;
        var ret := UnlinkFunctions(teardown.readable, teardown.removable);
        removed := before.Keys - links.Keys;
        RemovedIsMissing(before, links);
        ok := ret == 0;
      }
    }

    /** Once the functions are removed: tell the monitor to stop, if there is one. */
    method SignalMonitor(ghost s: State, ghost req: Request)
      requires Leads(s, model) && model.phase == TearingDown(req) && Agrees()
      requires links == OthersOf(model.links) && model.endpoints == mEndpointList && model.lockHeld == mLockHeld
      modifies `stopSignalled, `mEndpointList, `model
      ensures Valid() && Leads(s, model) && model.number == old(model.number) && model.reports == old(model.reports)
      ensures model.phase == if mMonitorCreated then Joining(req) else TornDown(req)
    {
      Take(s, Unlinked);
      if mMonitorCreated {
        stopSignalled := true;
      } else {
        mEndpointList := [];
      }
    }

    method ForgetMonitor(ghost s: State, ghost req: Request)
      requires Valid() && Leads(s, model) && model.phase == Joining(req) && MonitorAt(model, Done)
      modifies `mMonitorCreated, `mMonitor, `stopSignalled, `mEndpointList, `model
      ensures Valid() && Leads(s, model) && model.number == old(model.number) && model.reports == old(model.reports)
      ensures model.phase == TornDown(req)
    {
      Take(s, Joined);
      mMonitorCreated, mMonitor, stopSignalled := false, None, false;
      mEndpointList := [];
    }

    /** The write of "none"; the teardown goes on if it fails. */
    method PullDownGadget(pullsDown: bool, ghost s: State, ghost req: Request)
      requires Valid() && Leads(s, model) && model.phase == Called(req)
      modifies `udcBound, `model
      ensures Valid() && Leads(s, model) && model.number == old(model.number) && model.reports == old(model.reports)
      ensures model.phase == TearingDown(req) && udcBound == (old(udcBound) && !pullsDown)
      ensures model.links == old(model.links)
    {
      if pullsDown {
        udcBound := false;
      }
      Take(s, PullDown(pullsDown));
    }

    /** tearDownGadget. The monitor goes on until it is joined, and for good if the teardown fails before. */
    method TearDownGadget(teardown: Teardown, ghost s: State, ghost req: Request) returns (status: Status)
      requires Valid() && Inv(s) && Leads(s, model) && model.phase == Called(req)
      modifies `mMonitor, `mCurrentUsbFunctionsApplied, `gadgetPullup, `udcBound, `model,
               `links, `mEndpointList, `mMonitorCreated, `stopSignalled
      ensures Valid() && Leads(s, model) && model.number == old(model.number) && model.reports == old(model.reports)
      ensures status == Success || status == Error
      ensures status == Success <==> (forall i :: 0 <= i < |teardown.writes| ==> teardown.writes[i]) && teardown.readable
                                     && forall n :: n in old(links) && IsFunctionName(n) ==> n in teardown.removable
      ensures model.phase == if status == Success then TornDown(req) else Returned(req, Error)
    {
      PullDownGadget(teardown.pullsDown, s, req);
      OthersMayRunDuring(s);
      status := RemoveAndJoin(teardown, s, req);
    }

    /** What the old monitor and the other writers do before the functions are removed. */
    method OthersMayRunDuring(ghost s: State)
      requires Valid() && Leads(s, model)
      modifies `mMonitor, `mCurrentUsbFunctionsApplied, `gadgetPullup, `udcBound, `model
      ensures Valid() && Leads(s, model) && OnlyOthersMoved(old(model), model)
    {
      ghost var t := model;
      OthersMayRun();
      Interfered(s, t, model);
    }

    method RemoveAndJoin(teardown: Teardown, ghost s: State, ghost req: Request) returns (status: Status)
      requires Valid() && Inv(s) && Leads(s, model) && model.phase == TearingDown(req)
      modifies `mMonitor, `mCurrentUsbFunctionsApplied, `gadgetPullup, `udcBound, `model,
               `links, `mEndpointList, `mMonitorCreated, `stopSignalled
      ensures Valid() && Leads(s, model) && model.number == old(model.number) && model.reports == old(model.reports)
      ensures status == Success || status == Error
      ensures status == Success <==> (forall i :: 0 <= i < |teardown.writes| ==> teardown.writes[i]) && teardown.readable
                                     && forall n :: n in old(links) && IsFunctionName(n) ==> n in teardown.removable
      ensures model.phase == if status == Success then TornDown(req) else Returned(req, Error)
    {
      var ok;
      ghost var removed;
      ok, removed := RemoveFunctions(teardown);
      if !ok {
        Take(s, TearDownFails(removed));
        return Error;
      }
      SignalMonitor(s, req);
      if mMonitorCreated {
        JoinAndForget(s, req);
      }
      status := Success;
    }

    method JoinAndForget(ghost s: State, ghost req: Request)
      requires Valid() && Inv(s) && Leads(s, model) && model.phase == Joining(req)
      modifies `mMonitor, `mCurrentUsbFunctionsApplied, `gadgetPullup, `udcBound, `model,
               `links, `mEndpointList, `mMonitorCreated, `stopSignalled
      ensures Valid() && Leads(s, model) && model.number == old(model.number) && model.reports == old(model.reports)
      ensures model.phase == TornDown(req)
    {
      ghost var t := model;
      LeadsKeepsInv(s, t);
      JoinMonitor();
      Interfered(s, t, model);
      ForgetMonitor(s, req);
    }

    lemma RemovedIsMissing(before: Directory, after: Directory)
      requires after.Keys <= before.Keys && forall n :: n in after ==> after[n] == before[n]
      ensures before - (before.Keys - after.Keys) == after
    {
    }

    /** What a request has said: to the callback, if there is one, and in the model. */
    twostate predicate Said(callback: Callback?, functions: Functions, new status: Option<Status>)
      reads this, callback
    {
      && (callback != null ==>
            callback.told == old(callback.told) + if status.Some? then [(functions, status.value)] else [])
      && model.reports == old(model.reports) + if status.Some? && callback != null
                                               then [Report(model.number, functions, status.value)] else []
    }

    /** A setup that fails after `linked` and `watched`. */
    method FailSetup(ghost s: State, ghost req: Request, ghost vendor: string, ghost linked: seq<Function>,
                     ghost watched: nat)
      requires Leads(s, model) && model.phase == TornDown(req) && req.functions != NONE && Agrees()
      requires linked <= Plan(req.functions, vendor) && links == LinkAll(model.links, linked)
      requires watched <= |Endpoints(req.functions)|
      requires mEndpointList == model.endpoints + Endpoints(req.functions)[..watched]
      requires mLockHeld && !model.lockHeld
      modifies `mLockHeld, `model
      ensures Valid() && Leads(s, model) && model.phase == Returned(req, Error)
      ensures model.number == old(model.number) && model.reports == old(model.reports)
    {
      assert Plan(req.functions, vendor)[..|linked|] == linked;
      Take(s, SetupFails(vendor, |linked|, watched));
      mLockHeld := false;
    }

    ghost method TakeSetupWithoutFfs(s: State, req: Request, vendor: string)
      requires Leads(s, model) && model.phase == TornDown(req) && req.functions != NONE && !IsFfs(req.functions)
      modifies `model
      ensures Leads(s, model)
      ensures model == TellCallback(
        old(model).(links := LinkAll(old(model).links, Plan(req.functions, vendor)), bound := true, applied := true,
                    phase := Returned(req, Success)), req, Success)
    {
      Take(s, SetupWithoutFfs(vendor));
    }

    ghost method TakeSetupFfs(s: State, req: Request, vendor: string)
      requires Leads(s, model) && model.phase == TornDown(req) && IsFfs(req.functions)
      modifies `model
      ensures Leads(s, model)
      ensures var endpoints := old(model).endpoints + Endpoints(req.functions);
              model == old(model).(
                links := LinkAll(old(model).links, Plan(req.functions, vendor)), endpoints := endpoints, pullup := false,
                monitor := Some(NewMonitor(old(model).number, endpoints)), created := true, lockHeld := true,
                phase := Starting(req))
    {
      Take(s, SetupFfs(vendor));
    }

    ghost method TakeWait(s: State, req: Request)
      requires Leads(s, model) && model.phase == Starting(req)
      modifies `model
      ensures Leads(s, model)
      ensures model == old(model).(
        lockHeld := false, phase := if req.hasCallback then Waiting(req) else Returned(req, Success))
    {
      Take(s, Wait);
    }

    ghost method TakeWake(s: State, req: Request)
      requires Leads(s, model) && model.phase == Waiting(req) && !model.lockHeld
      modifies `model
      ensures Leads(s, model)
      ensures model == TellCallback(old(model).(phase := Returned(req, Success)), req,
                                    if old(model).pullup then Success else Error)
    {
      Take(s, Wake(!model.pullup));
    }

    /** The monitor of the latest request wrote the UDC node right after it saw every endpoint of the request. */
    ghost predicate OwnMonitorPulledUp()
      reads this
    {
      && mMonitor.Some? && mMonitor.value.owner == requests
      && PulledUp(mMonitor.value.trace, Endpoints(mCurrentUsbFunctions))
    }

    static method Tell(callback: Callback?, functions: Functions, status: Status)
      modifies callback
      ensures callback != null ==> callback.told == old(callback.told) + [(functions, status)]
    {
      if callback != null {
        callback.SetCurrentUsbFunctionsCb(functions, status);
      }
    }

    /** The pull-up without functions to watch. */
    method PullUpAtOnce(functions: Functions, callback: Callback?, ghost s: State, ghost req: Request,
                        ghost vendor: string)
      requires Leads(s, model) && model.phase == TornDown(req) && Agrees()
      requires req == Request(functions, callback != null) && functions != NONE && !IsFfs(functions)
      requires links == LinkAll(model.links, Plan(functions, vendor)) && mEndpointList == model.endpoints
      requires mLockHeld && !model.lockHeld
      modifies `mCurrentUsbFunctionsApplied, `udcBound, `mLockHeld, `model, callback
      ensures Valid() && Leads(s, model) && model.phase == Returned(req, Success)
      ensures model.number == old(model.number) && Said(callback, functions, Some(Success))
    {
      udcBound := true;
      mCurrentUsbFunctionsApplied := true;
      TakeSetupWithoutFfs(s, req, vendor);
      Tell(callback, functions, Success);
      mLockHeld := false;
    }

    /** The monitor is created and started. */
    method StartMonitor(functions: Functions, ghost s: State, ghost req: Request, ghost vendor: string)
      requires Inv(s) && Leads(s, model) && model.phase == TornDown(req) && Agrees()
      requires req.functions == functions && IsFfs(functions)
      requires links == LinkAll(model.links, Plan(functions, vendor))
      requires mEndpointList == model.endpoints + Endpoints(functions)
      requires mLockHeld && !model.lockHeld
      modifies `gadgetPullup, `mMonitor, `mMonitorCreated, `model
      ensures Valid() && Leads(s, model) && model.phase == Starting(req)
      ensures model.number == old(model.number) && model.reports == old(model.reports)
    {
      gadgetPullup := false;
      mMonitor := Some(NewMonitor(requests, mEndpointList));
      mMonitorCreated := true;
      TakeSetupFfs(s, req, vendor);
    }

    /** The wait for the pull-up, as long as it takes to time out; the monitor runs meanwhile. */
    method AwaitPullup(functions: Functions, callback: Callback?, ghost s: State, ghost req: Request)
      returns (ghost told: Option<Status>)
      requires Valid() && Inv(s) && Leads(s, model) && model.phase == Starting(req)
      requires req == Request(functions, callback != null) && functions == mCurrentUsbFunctions
      modifies `mMonitor, `mCurrentUsbFunctionsApplied, `gadgetPullup, `udcBound, `model, `mLockHeld, callback
      ensures Valid() && Leads(s, model) && model.phase == Returned(req, Success) && links == old(links)
      ensures model.number == old(model.number) && Said(callback, functions, told)
      ensures told == if callback != null then Some(if gadgetPullup then Success else Error) else None
      ensures told == Some(Success) ==> OwnMonitorPulledUp()
    {
      mLockHeld := false;
      TakeWait(s, req);
      told := None;
      if callback != null {
        OthersMayRunDuring(s);
        LeadsKeepsInv(s, model);
        told := Some(if gadgetPullup then Success else Error);
        OwnMonitorWaits(req);
        TakeWake(s, req);
        Tell(callback, functions, if gadgetPullup then Success else Error);
      }
    }

    /** While a request waits, a raised flag is due to its own monitor. */
    lemma OwnMonitorWaits(req: Request)
      requires Agrees() && Inv(model) && model.phase == Waiting(req) && req.functions == mCurrentUsbFunctions
      ensures gadgetPullup ==> OwnMonitorPulledUp()
    {
    }

    /** What a teardown needs to succeed. */
    static predicate CanTearDown(links: Directory, teardown: Teardown) {
      && (forall i :: 0 <= i < |teardown.writes| ==> teardown.writes[i]) && teardown.readable
      && forall n :: n in links && IsFunctionName(n) ==> n in teardown.removable
    }

    /** What a setup needs to succeed. */
    static predicate CanSetUp(functions: Functions, vendor: string, setup: Setup) {
      && setup.inotify && (functions.mtp || functions.ptp ==> setup.media) && (functions.adb ==> setup.adb)
      && CanLink(setup.linkable, |Plan(functions, vendor)|)
      && if IsFfs(functions) then setup.descriptors else setup.pullsUp
    }

    /** What setupFunctions does before it reports or starts the monitor: the links, then the pull-up, or the
        descriptors the monitor needs. */
    method Prepare(functions: Functions, vendor: string, setup: Setup)
      returns (ok: bool, ghost linked: seq<Function>, ghost watched: nat)
      requires NoLinks(links)
      modifies `links, `mEndpointList
      ensures ok <==> CanSetUp(functions, vendor, setup)
      ensures links == LinkAll(old(links), linked) && linked <= Plan(functions, vendor)
      ensures watched <= |Endpoints(functions)| && mEndpointList == old(mEndpointList) + Endpoints(functions)[..watched]
      ensures ok ==> linked == Plan(functions, vendor) && mEndpointList == old(mEndpointList) + Endpoints(functions)
    {
      if !setup.inotify {
        EndpointsBegin(mEndpointList, functions);
        return false, [], 0;
      }
      ok, linked, watched := LinkFunctions(functions, vendor, setup);
      if ok {
        ok := if IsFfs(functions) then setup.descriptors else setup.pullsUp;
      }
    }

    /** setupFunctions. */
    method SetupFunctions(functions: Functions, callback: Callback?, vendor: string, setup: Setup, ghost s: State,
                          ghost req: Request) returns (status: Status, ghost told: Option<Status>)
      requires Valid() && Inv(s) && Leads(s, model) && model.phase == TornDown(req) && !mLockHeld
      requires req == Request(functions, callback != null) && functions != NONE && functions == mCurrentUsbFunctions
      modifies `mMonitor, `mCurrentUsbFunctionsApplied, `gadgetPullup, `udcBound, `model,
               `links, `mEndpointList, `mMonitorCreated, `stopSignalled, `mLockHeld, callback
      ensures Valid() && Leads(s, model) && model.number == old(model.number) && Said(callback, functions, told)
      ensures status == Success || status == Error
      ensures status == Success <==>
        && setup.inotify && (functions.mtp || functions.ptp ==> setup.media) && (functions.adb ==> setup.adb)
        && (forall k :: 0 <= k < |Plan(functions, vendor)| ==> k in setup.linkable)
        && if IsFfs(functions) then setup.descriptors else setup.pullsUp
      ensures model.phase == Returned(req, status) && told.Some? == (status == Success && callback != null)
      ensures status == Success ==> links == LinkAll(old(links), Plan(functions, vendor))
      ensures told == Some(Success) && IsFfs(functions) ==> OwnMonitorPulledUp()
      ensures told.Some? ==> told == Some(if !IsFfs(functions) || gadgetPullup then Success else Error)
    {
      mLockHeld, told := true, None;
      LeadsKeepsInv(s, model);
      NoneLinked(links);
      var ok;
      ghost var linked, watched;
      ok, linked, watched := Prepare(functions, vendor, setup);
      if !ok {
        FailSetup(s, req, vendor, linked, watched);
        return Error, None;
      }
      status := Success;
      told := Activate(functions, callback, vendor, s, req);
    }

    lemma NoneLinked(d: Directory)
      requires FunctionsOf(d) == map[]
      ensures NoLinks(d)
    {
      forall n | n in d ensures !n.Link? {
        assert n.Link? ==> n in FunctionsOf(d);
      }
    }

    /** Once everything is linked: the gadget is pulled up, or its monitor is started. */
    method Activate(functions: Functions, callback: Callback?, ghost vendor: string, ghost s: State, ghost req: Request)
      returns (ghost told: Option<Status>)
      requires Inv(s) && Leads(s, model) && model.phase == TornDown(req) && Agrees()
      requires req == Request(functions, callback != null) && functions != NONE && functions == mCurrentUsbFunctions
      requires links == LinkAll(model.links, Plan(functions, vendor))
      requires mEndpointList == model.endpoints + Endpoints(functions)
      requires mLockHeld && !model.lockHeld
      modifies `mMonitor, `mCurrentUsbFunctionsApplied, `gadgetPullup, `udcBound, `model,
               `mMonitorCreated, `mLockHeld, callback
      ensures Valid() && Leads(s, model) && model.number == old(model.number) && Said(callback, functions, told)
      ensures model.phase == Returned(req, Success) && told.Some? == (callback != null)
      ensures told == Some(Success) && IsFfs(functions) ==> OwnMonitorPulledUp()
      ensures told.Some? ==> told == Some(if !IsFfs(functions) || gadgetPullup then Success else Error)
    {
      if IsFfs(functions) {
        StartMonitor(functions, s, req, vendor);
        told := AwaitPullup(functions, callback, s, req);
      } else {
        NothingToWatch(functions, model.endpoints);
        PullUpAtOnce(functions, callback, s, req, vendor);
        told := if callback != null then Some(Success) else None;
      }
    }

    lemma NothingToWatch(functions: Functions, endpoints: seq<Endpoint>)
      requires !IsFfs(functions)
      ensures endpoints + Endpoints(functions) == endpoints
    {
    }

    /** The end of a request whose callback was not told the outcome yet. */
    method TellEnd(functions: Functions, callback: Callback?, status: Status, ghost s: State, ghost req: Request)
      requires Valid() && Leads(s, model) && req == Request(functions, callback != null)
      requires if functions == NONE && status == Success then model.phase == TornDown(req)
               else status != Success && model.phase == Returned(req, status)
      modifies `model, callback
      ensures Valid() && Leads(s, model) && model.phase == Idle && model.number == old(model.number)
      ensures Said(callback, functions, Some(status))
    {
      Take(s, if status == Success then FinishNone else Return);
      Tell(callback, functions, status);
    }

    /** Takes the call: what is asked for, and that it is not applied yet. */
    method Accept(functions: Functions, ghost s: State, ghost req: Request)
      requires Valid() && Leads(s, model) && model.phase == Idle
      modifies `mCurrentUsbFunctions, `mCurrentUsbFunctionsApplied, `requests, `model
      ensures Valid() && Leads(s, model) && model.phase == Called(req) && mCurrentUsbFunctions == functions
      ensures model.number == old(model.number) + 1 && model.reports == old(model.reports)
    {
      requests := requests + 1;
      mCurrentUsbFunctions := functions;
      mCurrentUsbFunctionsApplied := false;
      Take(s, Call(req));
    }

    /** setCurrentUsbFunctions without its first and last lines. The identifiers of the device are an outcome
        of `valid`. */
    method Configure(functions: Functions, callback: Callback?, vendor: string, valid: Status, setup: Setup,
                     ghost s: State, ghost req: Request)
      returns (status: Status, ghost told: Option<Status>)
      requires Valid() && Inv(s) && Leads(s, model) && model.phase == TornDown(req)
      requires req == Request(functions, callback != null) && functions != NONE && functions == mCurrentUsbFunctions
      modifies `mMonitor, `mCurrentUsbFunctionsApplied, `gadgetPullup, `udcBound, `model,
               `links, `mEndpointList, `mMonitorCreated, `stopSignalled, `mLockHeld, callback
      ensures Valid() && Leads(s, model) && model.number == old(model.number) && Said(callback, functions, told)
      ensures model.phase == Returned(req, status) && told.Some? == (status == Success && callback != null)
      ensures status == Success ==> FunctionsOf(links) == Links(Plan(functions, vendor))
      ensures told == Some(Success) && IsFfs(functions) ==> OwnMonitorPulledUp()
      ensures told.Some? ==> told == Some(if !IsFfs(functions) || gadgetPullup then Success else Error)
      ensures status == Success <==> valid == Success && CanSetUp(functions, vendor, setup)
      ensures status == if valid != Success then valid else if CanSetUp(functions, vendor, setup) then Success else Error
    {
      LeadsKeepsInv(s, model);
      if valid != Success {
        Take(s, Invalid(valid));
        return valid, None;
      }
      LinkAllExactly(links, Plan(functions, vendor));
      status, told := SetupFunctions(functions, callback, vendor, setup, s, req);
    }

    /** From the teardown to the end of the request. */
    method Serve(functions: Functions, callback: Callback?, vendor: string, valid: Status, teardown: Teardown,
                 setup: Setup, ghost s: State, ghost req: Request)
      returns (status: Status, ghost outcome: Status)
      requires Valid() && Inv(s) && Leads(s, model) && model.phase == Called(req)
      requires req == Request(functions, callback != null) && functions == mCurrentUsbFunctions
      modifies `mMonitor, `mCurrentUsbFunctionsApplied, `gadgetPullup, `udcBound, `model,
               `links, `mEndpointList, `mMonitorCreated, `stopSignalled, `mLockHeld, callback
      ensures Valid() && Leads(s, model) && model.phase == Idle && model.number == old(model.number)
      ensures Said(callback, functions, Some(outcome))
      ensures outcome == Success ==> status == Success
      ensures status == Success ==>
        FunctionsOf(links) == if functions == NONE then map[] else Links(Plan(functions, vendor))
      ensures callback != null && outcome == Success && IsFfs(functions) ==> OwnMonitorPulledUp()
      ensures status == Success <==>
        && CanTearDown(old(links), teardown)
        && (functions != NONE ==> valid == Success && CanSetUp(functions, vendor, setup))
      ensures outcome == if status == Success && callback != null && IsFfs(functions) && !gadgetPullup then Error
                         else status
    {
      status := TearDownGadget(teardown, s, req);
      ghost var told := None;
      LeadsKeepsInv(s, model);
      if status == Success && functions != NONE {
        status, told := Configure(functions, callback, vendor, valid, setup, s, req);
      }
      outcome := Conclude(functions, callback, status, told, s, req);
    }

    /** The end of the request: the outcome is told unless it was told during setup. */
    method Conclude(functions: Functions, callback: Callback?, status: Status, ghost told: Option<Status>,
                    ghost s: State, ghost req: Request)
      returns (ghost outcome: Status)
      requires Valid() && Leads(s, model) && req == Request(functions, callback != null)
      requires if functions == NONE && status == Success then model.phase == TornDown(req) && told == None
               else model.phase == Returned(req, status) && told.Some? == (status == Success && callback != null)
      modifies `model, callback
      ensures Valid() && Leads(s, model) && model.phase == Idle && model.number == old(model.number)
      ensures outcome == if told.Some? then told.value else status
      ensures Said(callback, functions, if told.Some? then None else Some(outcome))
    {
      if status == Success && functions != NONE {
        TakeReturn(s, req);
        outcome := if told.Some? then told.value else Success;
      } else {
        TellEnd(functions, callback, status, s, req);
        outcome := status;
      }
    }

    ghost method TakeReturn(s: State, req: Request)
      requires Leads(s, model) && model.phase == Returned(req, Success)
      modifies `model
      ensures Leads(s, model) && model == old(model).(phase := Idle, finished := old(model).finished + [req])
    {
      Take(s, Return);
    }

    /** setCurrentUsbFunctions: whatever fails, a callback is told the outcome exactly once. The request succeeds exactly
        if nothing fails that it needs, and the success is told exactly if, besides, the gadget is pulled up when the
        wait of a request with endpoints ends. */
    method SetCurrentUsbFunctions(mask: nat, callback: Callback?, vendor: string, valid: Status, teardown: Teardown,
                                  setup: Setup) returns (ghost status: Status, ghost outcome: Status)
      requires Ready() && |teardown.writes| == 4
      modifies this, callback
      ensures Ready() && Leads(old(model), model) && requests == old(requests) + 1
      ensures ToMask(mCurrentUsbFunctions) == mask
      ensures Said(callback, mCurrentUsbFunctions, Some(outcome))
      ensures OthersOf(links) == OthersOf(old(links))
      ensures outcome == Success ==> status == Success
      ensures status == Success ==>
        FunctionsOf(links) == if mask == 0 then map[] else Links(Plan(mCurrentUsbFunctions, vendor))
      ensures callback != null && outcome == Success && IsFfs(mCurrentUsbFunctions) ==> OwnMonitorPulledUp()
      ensures status == Success <==>
        && (forall i :: 0 <= i < 4 ==> teardown.writes[i]) && teardown.readable
        && (forall n :: n in old(links) && IsFunctionName(n) ==> n in teardown.removable)
        && (mask != 0 ==>
             var f := mCurrentUsbFunctions;
             && valid == Success && setup.inotify && (f.mtp || f.ptp ==> setup.media) && (f.adb ==> setup.adb)
             && (forall k :: 0 <= k < |Plan(f, vendor)| ==> k in setup.linkable)
             && if IsFfs(f) then setup.descriptors else setup.pullsUp)
      ensures outcome == if status == Success && callback != null && IsFfs(mCurrentUsbFunctions) && !gadgetPullup
                         then Error else status
    {
      var functions := FromMask(mask);
      MaskOfFunctions(mask);
      NoFunctionIsZero(mask);
      ghost var s, req := model, Request(functions, callback != null);
      LeadsNowhere(s);
      Accept(functions, s, req);
      status, outcome := Serve(functions, callback, vendor, valid, teardown, setup, s, req);
      LeadsKeepsInv(s, model);
      LeadsKeepsOthers(s, model);
    }
  }
}
