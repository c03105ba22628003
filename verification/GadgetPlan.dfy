/** The USB functions a gadget request asks for: the functions to link, in order, and the endpoints to watch. */
module GadgetPlan {
  import opened Common

  /** The 64-bit mask of a request, bit by bit from the lowest; `rest` is what the bits beyond name. */
  datatype Functions = Functions(
    adb: bool, accessory: bool, mtp: bool, midi: bool, ptp: bool, rndis: bool, audioSource: bool, rest: nat)

  const NONE := Functions(false, false, false, false, false, false, false, 0)

  function FromMask(m0: nat): Functions {
    var m1 := m0 / 2;
    var m2 := m1 / 2;
    var m3 := m2 / 2;
    var m4 := m3 / 2;
    var m5 := m4 / 2;
    var m6 := m5 / 2;
    Functions(m0 % 2 == 1, m1 % 2 == 1, m2 % 2 == 1, m3 % 2 == 1, m4 % 2 == 1, m5 % 2 == 1, m6 % 2 == 1, m6 / 2)
  }

  function ToMask(f: Functions): nat {
    Bit(f.adb) + 2 * (Bit(f.accessory) + 2 * (Bit(f.mtp) + 2 * (Bit(f.midi) + 2 * (Bit(f.ptp)
    + 2 * (Bit(f.rndis) + 2 * (Bit(f.audioSource) + 2 * f.rest))))))
  }

  function Bit(b: bool): nat {
    if b then 1 else 0
  }

  /** No function at all is the mask 0. */
  lemma NoFunctionIsZero(m0: nat)
    ensures FromMask(m0) == NONE <==> m0 == 0
  {
    if FromMask(m0) == NONE {
      MaskOfFunctions(m0);
      NoneIsZero();
    }
    if m0 == 0 {
      NoneIsZero();
    }
  }

  lemma NoneIsZero()
    ensures ToMask(NONE) == 0 && FromMask(0) == NONE
  {
  }

  /** The bits lose nothing of the mask. */
  lemma MaskOfFunctions(m0: nat)
    ensures ToMask(FromMask(m0)) == m0
  {
    var m1 := LowBit(m0);
    var m2 := LowBit(m1);
    var m3 := LowBit(m2);
    var m4 := LowBit(m3);
    var m5 := LowBit(m4);
    var m6 := LowBit(m5);
    var rest := LowBit(m6);
  }

  lemma LowBit(m: nat) returns (half: nat)
    ensures half == m / 2 && m == Bit(m % 2 == 1) + 2 * half
  {
    half := m / 2;
  }

  /** Which bit asks for what. */
  lemma BitsExactly(m: nat)
    ensures m == (if FromMask(m).adb then 1 else 0) + (if FromMask(m).accessory then 2 else 0)
                 + (if FromMask(m).mtp then 4 else 0) + (if FromMask(m).midi then 8 else 0)
                 + (if FromMask(m).ptp then 16 else 0) + (if FromMask(m).rndis then 32 else 0)
                 + (if FromMask(m).audioSource then 64 else 0) + 128 * FromMask(m).rest
  {
    MaskOfFunctions(m);
    WeightsOf(FromMask(m));
  }

  lemma WeightsOf(f: Functions)
    ensures ToMask(f) == Bit(f.adb) + 2 * Bit(f.accessory) + 4 * Bit(f.mtp) + 8 * Bit(f.midi) + 16 * Bit(f.ptp)
                         + 32 * Bit(f.rndis) + 64 * Bit(f.audioSource) + 128 * f.rest
  {
  }

  predicate IsFfs(f: Functions) {
    f.mtp || f.ptp || f.adb
  }

  /** The functions under functions/ of the gadget that requests link: ffs.mtp, midi.gs5, diag.diag and so on. */
  datatype Function = FfsMtp | FfsPtp | MidiGs5 | AccessoryGs2 | AudioSourceGs3 | RndisGs4
                    | DiagDiag | CserDun0 | GsiRmnet | FfsAdb

  /** /dev/usb-ffs/mtp/ep1 and so on. */
  datatype Endpoint = MtpEp(n: nat) | PtpEp(n: nat) | AdbEp(n: nat)

  /** MTP shuts out PTP; ADB comes last, after the functions of the vendor property. */
  function Plan(f: Functions, vendor: string): seq<Function> {
    MediaPart(f) + PlainPart(f) + VendorPlan(Tokens(vendor)) + AdbPart(f)
  }

  function MediaPart(f: Functions): seq<Function> {
    if f.mtp then [FfsMtp] else if f.ptp then [FfsPtp] else []
  }

  function PlainPart(f: Functions): seq<Function> {
    If(f.midi, MidiGs5) + If(f.accessory, AccessoryGs2) + If(f.audioSource, AudioSourceGs3) + If(f.rndis, RndisGs4)
  }

  function AdbPart(f: Functions): seq<Function> {
    If(f.adb, FfsAdb)
  }

  function If(b: bool, linked: Function): seq<Function> {
    if b then [linked] else []
  }

  function Endpoints(f: Functions): seq<Endpoint> {
    MediaEndpoints(f) + AdbEndpoints(f)
  }

  function MediaEndpoints(f: Functions): seq<Endpoint> {
    if f.mtp then [MtpEp(1), MtpEp(2), MtpEp(3)] else if f.ptp then [PtpEp(1), PtpEp(2), PtpEp(3)] else []
  }

  function AdbEndpoints(f: Functions): seq<Endpoint> {
    if f.adb then [AdbEp(1), AdbEp(2)] else []
  }

  function VendorFunction(token: string): Option<Function> {
    if token == "diag" then Some(DiagDiag)
    else if token == "serial_cdev" then Some(CserDun0)
    else if token == "rmnet_gsi" then Some(GsiRmnet)
    else None
  }

  function VendorPlan(tokens: seq<string>): seq<Function> {
    if tokens == [] then [] else VendorPart(tokens[0]) + VendorPlan(tokens[1..])
  }

  function VendorPart(token: string): seq<Function> {
    if VendorFunction(token).Some? then [VendorFunction(token).value] else []
  }

  /** What a request watches: three endpoints of MTP, or of PTP if MTP is not asked for, and two of ADB, each once. */
  lemma EndpointsExactly(f: Functions, e: Endpoint)
    ensures e in Endpoints(f) <==> match e
              case MtpEp(n) => f.mtp && 1 <= n <= 3
              case PtpEp(n) => f.ptp && !f.mtp && 1 <= n <= 3
              case AdbEp(n) => f.adb && 1 <= n <= 2
    ensures |Endpoints(f)| == (if f.mtp || f.ptp then 3 else 0) + (if f.adb then 2 else 0)
    ensures IsFfs(f) <==> Endpoints(f) != []
  {
    assert e in Endpoints(f) <==> e in MediaEndpoints(f) || e in AdbEndpoints(f);
  }

  /** Which functions the tokens of the vendor property name. */
  lemma VendorPartIs(token: string, g: Function)
    ensures VendorPart(token) == if token == "diag" then [DiagDiag] else if token == "serial_cdev" then [CserDun0]
                                 else if token == "rmnet_gsi" then [GsiRmnet] else []
    ensures multiset(VendorPart(token))[g] == match g
              case DiagDiag => if token == "diag" then 1 else 0
              case CserDun0 => if token == "serial_cdev" then 1 else 0
              case GsiRmnet => if token == "rmnet_gsi" then 1 else 0
              case _ => 0
  {
  }

  lemma {:induction false} VendorSnoc(tokens: seq<string>, last: string)
    ensures VendorPlan(tokens + [last]) == VendorPlan(tokens) + VendorPart(last)
  {
    if tokens == [] {
      assert tokens + [last] == [last] && [last][1..] == [];
      assert VendorPart(last) + [] == [] + VendorPart(last);
    } else {
      assert (tokens + [last])[1..] == tokens[1..] + [last];
      VendorSnoc(tokens[1..], last);
      var first, rest := VendorPart(tokens[0]), VendorPlan(tokens[1..]);
      assert first + (rest + VendorPart(last)) == first + rest + VendorPart(last);
    }
  }

  /** The vendor functions stand in the order of their tokens: from[k] is the token of the k-th. */
  lemma {:induction false} VendorExactly(tokens: seq<string>) returns (from: seq<nat>)
    ensures |from| == |VendorPlan(tokens)| && forall j, k :: 0 <= j < k < |from| ==> from[j] < from[k]
    ensures forall i :: i in from <==> 0 <= i < |tokens| && tokens[i] in ["diag", "serial_cdev", "rmnet_gsi"]
    ensures forall k :: 0 <= k < |from| ==>
              from[k] < |tokens| && VendorPlan(tokens)[k] == if tokens[from[k]] == "diag" then DiagDiag
                                                           else if tokens[from[k]] == "serial_cdev" then CserDun0
                                                           else GsiRmnet
  {
    from := [];
    if tokens != [] {
      var n := |tokens| - 1;
      var before, last := tokens[..n], tokens[n];
      var earlier := VendorExactly(before);
      assert before + [last] == tokens;
      VendorSnoc(before, last);
      VendorPartIs(last, DiagDiag);
      from := earlier;
      if last in ["diag", "serial_cdev", "rmnet_gsi"] {
        IndexMore(earlier, n);
        from := earlier + [n];
      } else {
        assert VendorPlan(before) + [] == VendorPlan(before);
      }
    }
  }

  lemma {:induction false} VendorCounts(tokens: seq<string>, g: Function)
    ensures multiset(VendorPlan(tokens))[g] == match g
              case DiagDiag => multiset(tokens)["diag"]
              case CserDun0 => multiset(tokens)["serial_cdev"]
              case GsiRmnet => multiset(tokens)["rmnet_gsi"]
              case _ => 0
  {
    if tokens != [] {
      VendorCounts(tokens[1..], g);
      VendorPartIs(tokens[0], g);
      FirstCounts(tokens, "diag");
      FirstCounts(tokens, "serial_cdev");
      FirstCounts(tokens, "rmnet_gsi");
      assert multiset(VendorPart(tokens[0]) + VendorPlan(tokens[1..]))[g] ==
             multiset(VendorPart(tokens[0]))[g] + multiset(VendorPlan(tokens[1..]))[g];
    }
  }

  lemma FirstCounts(tokens: seq<string>, token: string)
    requires tokens != []
    ensures multiset(tokens)[token] == multiset(tokens[1..])[token] + if tokens[0] == token then 1 else 0
  {
    assert tokens == [tokens[0]] + tokens[1..];
  }

  /** How often a plan links each function. */
  lemma PlanCounts(f: Functions, vendor: string, g: Function)
    ensures multiset(Plan(f, vendor))[g] == match g
              case FfsMtp => if f.mtp then 1 else 0
              case FfsPtp => if f.ptp && !f.mtp then 1 else 0
              case MidiGs5 => if f.midi then 1 else 0
              case AccessoryGs2 => if f.accessory then 1 else 0
              case AudioSourceGs3 => if f.audioSource then 1 else 0
              case RndisGs4 => if f.rndis then 1 else 0
              case DiagDiag => multiset(Tokens(vendor))["diag"]
              case CserDun0 => multiset(Tokens(vendor))["serial_cdev"]
              case GsiRmnet => multiset(Tokens(vendor))["rmnet_gsi"]
              case FfsAdb => if f.adb then 1 else 0
  {
    VendorCounts(Tokens(vendor), g);
    MediaAndAdbCounts(f, g);
    PlainCounts(f, g);
    SumOfCounts(MediaPart(f), PlainPart(f), VendorPlan(Tokens(vendor)), AdbPart(f), g);
  }

  lemma SumOfCounts(a: seq<Function>, b: seq<Function>, c: seq<Function>, d: seq<Function>, g: Function)
    ensures multiset(a + b + c + d)[g] == multiset(a)[g] + multiset(b)[g] + multiset(c)[g] + multiset(d)[g]
  {
  }

  lemma MediaAndAdbCounts(f: Functions, g: Function)
    ensures multiset(MediaPart(f))[g] == if g == FfsMtp && f.mtp then 1 else if g == FfsPtp && f.ptp && !f.mtp then 1 else 0
    ensures multiset(AdbPart(f))[g] == if g == FfsAdb && f.adb then 1 else 0
  {
  }

  lemma PlainCounts(f: Functions, g: Function)
    ensures multiset(PlainPart(f))[g] == match g
              case MidiGs5 => if f.midi then 1 else 0
              case AccessoryGs2 => if f.accessory then 1 else 0
              case AudioSourceGs3 => if f.audioSource then 1 else 0
              case RndisGs4 => if f.rndis then 1 else 0
              case _ => 0
  {
    IfCounts(f.midi, MidiGs5, g);
    IfCounts(f.accessory, AccessoryGs2, g);
    IfCounts(f.audioSource, AudioSourceGs3, g);
    IfCounts(f.rndis, RndisGs4, g);
    SumOfCounts(If(f.midi, MidiGs5), If(f.accessory, AccessoryGs2), If(f.audioSource, AudioSourceGs3),
                If(f.rndis, RndisGs4), g);
  }

  lemma IfCounts(b: bool, linked: Function, g: Function)
    ensures multiset(If(b, linked))[g] == if b && g == linked then 1 else 0
  {
  }

  /** The order of a plan: MTP or PTP, MIDI, accessory, audio source, RNDIS, the vendor functions, ADB. */
  lemma PlanInOrder(f: Functions, vendor: string)
    ensures Plan(f, vendor) ==
            (if f.mtp then [FfsMtp] else if f.ptp then [FfsPtp] else [])
            + ((if f.midi then [MidiGs5] else []) + (if f.accessory then [AccessoryGs2] else [])
               + (if f.audioSource then [AudioSourceGs3] else []) + (if f.rndis then [RndisGs4] else []))
            + VendorPlan(Tokens(vendor)) + (if f.adb then [FfsAdb] else [])
  {
  }

  // ---------------------------------------------------------------- comma-separated lists

  /** The tokens strtok finds: the non-empty stretches between commas. */
  function Tokens(s: string): seq<string>
    decreases |s|
  {
    if s == [] then []
    else if s[0] == ',' then Tokens(s[1..])
    else [s[..Find(s, ',')]] + Tokens(s[Find(s, ',')..])
  }

  lemma TokensSkipComma(s: string, from: nat)
    requires from < |s| && s[from] == ','
    ensures Tokens(s[from..]) == Tokens(s[from + 1..])
  {
    assert s[from..][1..] == s[from + 1..];
  }

  lemma TokensTakeToken(s: string, from: nat, to: nat)
    requires from < to <= |s| && (forall j :: from <= j < to ==> s[j] != ',') && (to < |s| ==> s[to] == ',')
    ensures Tokens(s[from..]) == [s[from..to]] + Tokens(s[to..])
  {
    var rest := s[from..];
    FindIs(rest, ',', to - from);
    assert rest[..to - from] == s[from..to] && rest[to - from..] == s[to..];
    assert rest[0] == s[from];
  }

  function Join(tokens: seq<string>): string {
    if tokens == [] then [] else if |tokens| == 1 then tokens[0] else tokens[0] + "," + Join(tokens[1..])
  }

  /** Splitting undoes joining for any list of non-empty tokens without commas. */
  lemma {:induction false} TokensOfJoin(tokens: seq<string>)
    requires forall t :: t in tokens ==> t != [] && ',' !in t
    ensures Tokens(Join(tokens)) == tokens
  {
    if tokens != [] {
      var t := tokens[0];
      if |tokens| == 1 {
        FindAfter(t, ',', []);
        assert t + [] == t && t[|t|..] == [];
      } else {
        var rest := "," + Join(tokens[1..]);
        assert Join(tokens) == t + rest;
        FindAfter(t, ',', rest);
        assert (t + rest)[..|t|] == t && (t + rest)[|t|..] == rest;
        assert rest[1..] == Join(tokens[1..]);
        forall t | t in tokens[1..] ensures t in tokens { }
        TokensOfJoin(tokens[1..]);
      }
    }
  }

  // ---------------------------------------------------------------- the configuration directory

  /** The names in the configuration directory: the links that requests make, and everything else. */
  datatype Name = Link(index: nat) | Other(name: string)

  /** What each link of the configuration directory leads to; other entries lead elsewhere. */
  datatype Target = To(gadgetFunction: Function) | Elsewhere(target: string)

  type Directory = map<Name, Target>

  const FUNCTION_NAME := "function"

  /** The names that unlinking picks. */
  predicate IsFunctionName(n: Name) {
    n.Link? || Contains(n.name, FUNCTION_NAME)
  }

  /** All links that requests make are picked, and every other name that holds "function". */
  lemma FunctionNamesExactly(n: Name)
    ensures IsFunctionName(n) <==> n.Link? || exists before, after :: n.name == before + "function" + after
  {
    if n.Other? {
      ContainsExactly(n.name, FUNCTION_NAME);
    }
  }

  function FunctionsOf(d: Directory): Directory {
    map n | n in d && IsFunctionName(n) :: d[n]
  }

  function OthersOf(d: Directory): Directory {
    map n | n in d && !IsFunctionName(n) :: d[n]
  }

  /** The directory with `names` linked as function0, function1, ... */
  function LinkAll(d: Directory, names: seq<Function>): Directory {
    if names == [] then d
    else LinkAll(d, names[..|names| - 1])[Link(|names| - 1) := To(names[|names| - 1])]
  }

  lemma {:induction false} LinkAllEntries(d: Directory, names: seq<Function>, n: Name)
    ensures n in LinkAll(d, names) <==> n in d || (n.Link? && n.index < |names|)
    ensures n.Link? && n.index < |names| ==> LinkAll(d, names)[n] == To(names[n.index])
    ensures n in d && !(n.Link? && n.index < |names|) ==> LinkAll(d, names)[n] == d[n]
  {
    if names != [] {
      LinkAllEntries(d, names[..|names| - 1], n);
    }
  }

  function Links(names: seq<Function>): Directory {
    map i | 0 <= i < |names| :: Link(i) := To(names[i])
  }

  /** Linking into a directory without functions leaves exactly function0 .. function(n-1), in order. */
  lemma LinkAllExactly(d: Directory, names: seq<Function>)
    requires FunctionsOf(d) == map[]
    ensures FunctionsOf(LinkAll(d, names)) == Links(names)
    ensures OthersOf(LinkAll(d, names)) == OthersOf(d)
  {
    forall n ensures n in FunctionsOf(LinkAll(d, names)) <==> n in Links(names)
             ensures n in Links(names) ==> LinkAll(d, names)[n] == Links(names)[n] {
      LinkAllEntries(d, names, n);
      assert n in d && IsFunctionName(n) ==> n in FunctionsOf(d);
    }
    forall n ensures n in OthersOf(LinkAll(d, names)) <==> n in OthersOf(d)
             ensures n in OthersOf(d) ==> LinkAll(d, names)[n] == d[n] {
      LinkAllEntries(d, names, n);
    }
  }
}
