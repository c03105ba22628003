/** The status reported for each Type-C port. */
module TypecStatus {
  import opened Common
  import opened TypecPorts

  datatype RoleType = PowerRoleType | DataRoleType | ModeType | OtherType

  // Roles are numbers, and numbers of one kind of role are stored as another: a data role "source" is 1, a host.
  const NO_ROLE: nat := 0
  const SOURCE: nat := 1
  const SINK: nat := 2
  const HOST: nat := 1
  const DEVICE: nat := 2
  const UFP: nat := 1
  const DFP: nat := 2
  const DRP: nat := 3
  const AUDIO_ACCESSORY: nat := 4
  const DEBUG_ACCESSORY: nat := 8

  datatype Word = SourceWord | SinkWord | HostWord | DeviceWord | NoneWord | UnknownWord

  function WordOf(role: string): Word {
    if role == "source" then SourceWord else if role == "sink" then SinkWord else if role == "host" then HostWord
    else if role == "device" then DeviceWord else if role == "none" then NoneWord else UnknownWord
  }

  datatype Accessory = AnalogAudio | DebugAccessory | NoAccessory

  function AccessoryOf(s: string): Accessory {
    if s == "analog_audio" then AnalogAudio else if s == "debug" then DebugAccessory else NoAccessory
  }

  predicate SaysYes(s: string) {
    s == "yes"
  }

  /** The word selected in a role file, if there is a file. */
  function Selected(files: Files, node: Node): Option<Word> {
    match ReadFile(files, node)
    case None => None
    case Some(line) => Some(WordOf(Bracketed(line)))
  }

  function AccessoryAt(files: Files, port: string): Option<Accessory> {
    match ReadFile(files, AccessoryMode(port))
    case None => None
    case Some(line) => Some(AccessoryOf(line))
  }

  predicate Known(word: Option<Word>) {
    word.Some? && word.value != UnknownWord
  }

  /** The role of a connected port can be told. Its mode is read from the data role, unless it is an accessory. */
  predicate Readable(files: Files, port: string, kind: RoleType) {
    match kind
    case PowerRoleType => Known(Selected(files, PowerRole(port)))
    case DataRoleType => Known(Selected(files, DataRole(port)))
    case ModeType =>
      var accessory := AccessoryAt(files, port);
      accessory.Some? && (accessory.value != NoAccessory || Known(Selected(files, DataRole(port))))
    case OtherType => false
  }

  function NumberOf(word: Word, kind: RoleType): nat {
    match word
    case SourceWord => SOURCE
    case SinkWord => SINK
    case HostWord => if kind == DataRoleType then HOST else DFP
    case DeviceWord => if kind == DataRoleType then DEVICE else UFP
    case _ => NO_ROLE
  }

  function RoleOf(files: Files, port: string, kind: RoleType): nat
    requires Readable(files, port, kind)
  {
    match kind
    case PowerRoleType => NumberOf(Selected(files, PowerRole(port)).value, kind)
    case DataRoleType => NumberOf(Selected(files, DataRole(port)).value, kind)
    case ModeType =>
      match AccessoryAt(files, port).value {
        case AnalogAudio => AUDIO_ACCESSORY
        case DebugAccessory => DEBUG_ACCESSORY
        case NoAccessory => NumberOf(Selected(files, DataRole(port)).value, kind)
      }
  }

  /** What the bracketed word of the role file says: a source or a host is 1 and a sink or a device 2, but as a mode
      "host" is 2 and "device" 1; "none" is 0, and any other word cannot be told. */
  lemma RolesExactly(files: Files, port: string, kind: RoleType)
    ensures kind == PowerRoleType ==>
      (Readable(files, port, kind) <==>
       ReadFile(files, PowerRole(port)).Some?
       && Bracketed(ReadFile(files, PowerRole(port)).value) in ["source", "sink", "host", "device", "none"])
    ensures kind == DataRoleType ==>
      (Readable(files, port, kind) <==>
       ReadFile(files, DataRole(port)).Some?
       && Bracketed(ReadFile(files, DataRole(port)).value) in ["source", "sink", "host", "device", "none"])
    ensures Readable(files, port, kind) && kind == PowerRoleType ==>
      var word := Bracketed(ReadFile(files, PowerRole(port)).value);
      RoleOf(files, port, kind) ==
        if word == "source" then 1 else if word == "sink" then 2 else if word == "host" then 2
        else if word == "device" then 1 else 0
    ensures Readable(files, port, kind) && kind == DataRoleType ==>
      var word := Bracketed(ReadFile(files, DataRole(port)).value);
      RoleOf(files, port, kind) ==
        if word == "source" || word == "host" then 1 else if word == "sink" || word == "device" then 2 else 0
  {
  }

  /** The mode: an audio accessory is 4, a debug accessory 8, and otherwise the data role decides. */
  lemma ModesExactly(files: Files, port: string)
    ensures Readable(files, port, ModeType) <==>
      && ReadFile(files, AccessoryMode(port)).Some?
      && (ReadFile(files, AccessoryMode(port)).value in ["analog_audio", "debug"]
          || (ReadFile(files, DataRole(port)).Some?
              && Bracketed(ReadFile(files, DataRole(port)).value) in ["source", "sink", "host", "device", "none"]))
    ensures Readable(files, port, ModeType) ==>
      var accessory := ReadFile(files, AccessoryMode(port)).value;
      if accessory == "analog_audio" then RoleOf(files, port, ModeType) == 4
      else if accessory == "debug" then RoleOf(files, port, ModeType) == 8
      else
        var word := Bracketed(ReadFile(files, DataRole(port)).value);
        RoleOf(files, port, ModeType) ==
          if word == "host" || word == "sink" then 2 else if word == "device" || word == "source" then 1 else 0
  {
  }

  /** Lines of files are shorter than the address space. */
  predicate FilesFit(files: Files) {
    forall node :: node in files ==> |files[node]| < SIZE_MAX_PLUS_ONE
  }

  /** getCurrentRoleHelper. No file is read for a port that is not connected. */
  method GetCurrentRole(files: Files, port: string, connected: bool, kind: RoleType)
    returns (status: Status, role: nat)
    requires FilesFit(files)
    ensures status == Success <==> kind != OtherType && (connected ==> Readable(files, port, kind))
    ensures status == Success ==> role == if connected then RoleOf(files, port, kind) else NO_ROLE
  {
    role := NO_ROLE;
    if kind == OtherType {
      return Error, role;
    }
    var node := if kind == PowerRoleType then PowerRole(port) else DataRole(port);
    if !connected {
      return Success, role;
    }
    if kind == ModeType {
      var accessory := ReadFile(files, AccessoryMode(port));
      if accessory == None {
        return Error, role;
      }
      match AccessoryOf(accessory.value) {
        case AnalogAudio => return Success, AUDIO_ACCESSORY;
        case DebugAccessory => return Success, DEBUG_ACCESSORY;
        case NoAccessory =>
      }
    }
    var line := ReadFile(files, node);
    if line == None {
      return Error, role;
    }
    var roleName := ExtractRole(line.value);
    status := Success;
    match WordOf(roleName) {
      case SourceWord => role := SOURCE;
      case SinkWord => role := SINK;
      case HostWord => role := if kind == DataRoleType then HOST else DFP;
      case DeviceWord => role := if kind == DataRoleType then DEVICE else UFP;
      case NoneWord =>
      case UnknownWord => status := UnrecognizedRole;
    }
  }

  // ---------------------------------------------------------------- all ports

  datatype Version = V1_0 | V1_1 | V1_2

  /** currentMode and supportedModes are those of version 1.0, the others those of version 1.1. */
  datatype PortStatus = PortStatus(
    portName: string, currentPowerRole: nat, currentDataRole: nat, currentMode: nat, currentMode11: nat,
    canChangeMode: bool, canChangeDataRole: bool, canChangePowerRole: bool, supportedModes: nat, supportedModes11: nat)

  const BLANK := PortStatus([], 0, 0, 0, 0, false, false, false, 0, 0)

  predicate PortReadable(files: Files, port: string) {
    Readable(files, port, PowerRoleType) && Readable(files, port, DataRoleType) && Readable(files, port, ModeType)
  }

  predicate CanSwitchRole(files: Files, port: string) {
    var line := ReadFile(files, SupportsPd(port));
    line.Some? && SaysYes(line.value)
  }

  /** What a caller of this version is told about a port. */
  function Reported(files: Files, port: string, connected: bool, version: Version): PortStatus
    requires connected ==> PortReadable(files, port)
  {
    var data := if connected then RoleOf(files, port, DataRoleType) else NO_ROLE;
    var mode := if connected then RoleOf(files, port, ModeType) else NO_ROLE;
    var shownMode := if connected && mode == NO_ROLE then UFP else mode;
    PortStatus(port,
      if connected then RoleOf(files, port, PowerRoleType) else NO_ROLE,
      if connected && data == NO_ROLE then DEVICE else data,
      if version == V1_0 then shownMode else NO_ROLE, shownMode, true,
      connected && CanSwitchRole(files, port), connected && CanSwitchRole(files, port),
      if version == V1_0 then DRP else NO_ROLE, if version == V1_0 then NO_ROLE else DRP)
  }

  /** A connected port is never reported without a data role or a mode; one that is not connected has no role
      and can change none. */
  lemma ConnectedShows(files: Files, port: string, connected: bool, version: Version)
    requires connected ==> PortReadable(files, port)
    ensures var r := Reported(files, port, connected, version);
            && (connected <==> r.currentDataRole != NO_ROLE)
            && (connected <==> r.currentMode11 != NO_ROLE)
            && (!connected ==> r.currentPowerRole == NO_ROLE && !r.canChangeDataRole && !r.canChangePowerRole)
  {
  }

  /** What is told about a port. A connected port with no data role is shown as a device, 2, and one with no mode as 1. */
  lemma ReportedFields(files: Files, port: string, connected: bool, version: Version)
    requires connected ==> PortReadable(files, port)
    ensures var r := Reported(files, port, connected, version);
            && r.portName == port && r.canChangeMode
            && r.currentPowerRole == (if connected then RoleOf(files, port, PowerRoleType) else 0)
            && r.currentDataRole == (if !connected then 0 else if RoleOf(files, port, DataRoleType) == 0 then 2
                                     else RoleOf(files, port, DataRoleType))
            && r.currentMode11 == (if !connected then 0 else if RoleOf(files, port, ModeType) == 0 then 1
                                   else RoleOf(files, port, ModeType))
            && r.canChangeDataRole == r.canChangePowerRole
                 == (connected && ReadFile(files, SupportsPd(port)) == Some("yes"))
            && (if version == V1_0 then r.currentMode == r.currentMode11 && r.supportedModes == 3 && r.supportedModes11 == 0
                else r.currentMode == 0 && r.supportedModes == 0 && r.supportedModes11 == 3)
  {
  }

  /** The entry of one port, field by field; it stays half filled when a role cannot be told. */
  method FillPort(files: Files, port: string, connected: bool, version: Version) returns (ok: bool, entry: PortStatus)
    requires FilesFit(files)
    ensures ok <==> (connected ==> PortReadable(files, port))
    ensures ok ==> entry == Reported(files, port, connected, version)
    ensures entry.portName == port
  {
    entry := BLANK.(portName := port);
    var status, role := GetCurrentRole(files, port, connected, PowerRoleType);
    if status != Success {
      return false, entry;
    }
    entry := entry.(currentPowerRole := role);
    status, role := GetCurrentRole(files, port, connected, DataRoleType);
    if status != Success {
      return false, entry;
    }
    if connected && role == NO_ROLE {
      role := DEVICE;
    }
    entry := entry.(currentDataRole := role);
    status, role := GetCurrentRole(files, port, connected, ModeType);
    if status != Success {
      return false, entry;
    }
    if connected && role == NO_ROLE {
      role := UFP;
    }
    entry := entry.(currentMode11 := role);
    entry := entry.(currentMode := role);
    entry := entry.(canChangeMode := true);
    entry := entry.(canChangeDataRole := connected && CanSwitchRole(files, port));
    entry := entry.(canChangePowerRole := connected && CanSwitchRole(files, port));
    if version == V1_0 {
      entry := entry.(supportedModes := DRP);
    } else {
      entry := entry.(supportedModes11 := DRP);
      entry := entry.(supportedModes := NO_ROLE);
      entry := entry.(currentMode := NO_ROLE);
    }
    ok := true;
  }

  /** The ports of `names` but those in `todo` are reported, each once. */
  ghost predicate Filled(statuses: seq<PortStatus>, files: Files, names: map<string, bool>, todo: set<string>,
                         version: Version)
  {
    && (forall k :: 0 <= k < |statuses| ==> EntryOf(statuses[k], files, names, todo, version))
    && (forall port :: port in names && port !in todo ==> exists k :: 0 <= k < |statuses| && statuses[k].portName == port)
    && (forall j, k :: 0 <= j < k < |statuses| ==> statuses[j].portName != statuses[k].portName)
  }

  predicate EntryOf(r: PortStatus, files: Files, names: map<string, bool>, todo: set<string>, version: Version) {
    var port := r.portName;
    && port in names && port !in todo && (names[port] ==> PortReadable(files, port))
    && r == Reported(files, port, names[port], version)
  }

  predicate AllReadable(files: Files, names: map<string, bool>) {
    forall port :: port in names && names[port] ==> PortReadable(files, port)
  }

  /** getPortStatusHelper: the ports are visited in any order. It succeeds exactly when the directory can be
      read and every connected port's roles can be told. */
  method GetPortStatus(listing: Option<seq<Entry>>, files: Files, version: Version)
    returns (status: Status, statuses: seq<PortStatus>)
    requires FilesFit(files)
    ensures status == Success <==> listing.Some? && AllReadable(files, PortMap(listing.value))
    ensures status == Success ==> Filled(statuses, files, PortMap(listing.value), {}, version)
    ensures listing.Some? ==> |statuses| == |PortMap(listing.value)|
  {
    statuses := [];
    var result, names := GetTypeCPortNames(listing);
    if result != Success {
      return Error, statuses;
    }
    var ok;
    ok, statuses := FillAll(names, files, version);
    status := if ok then Success else Error;
  }

  /** The entry of some port still to do. */
  method FillNext(names: map<string, bool>, files: Files, version: Version, todo: set<string>,
                  ghost before: seq<PortStatus>)
    returns (ok: bool, port: string, entry: PortStatus)
    requires FilesFit(files) && todo != {} && todo <= names.Keys && Filled(before, files, names, todo, version)
    ensures port in todo
    ensures if ok then Filled(before + [entry], files, names, todo - {port}, version) else !AllReadable(files, names)
  {
    port :| port in todo;
    ok, entry := FillPort(files, port, names[port], version);
    if ok {
      assert todo - {port} + {port} == todo;
      FilledGrows(before, entry, files, names, todo - {port}, port, version);
    }
  }

  /** The entries of all ports, up to the first that fails. */
  method FillAll(names: map<string, bool>, files: Files, version: Version) returns (ok: bool, statuses: seq<PortStatus>)
    requires FilesFit(files)
    ensures ok <==> AllReadable(files, names)
    ensures ok ==> Filled(statuses, files, names, {}, version)
    ensures |statuses| == |names|
  {
    statuses := seq(|names|, _ => BLANK);
    var todo := names.Keys;
    var i := 0;
    while todo != {}
      invariant todo <= names.Keys && i + |todo| == |names| == |statuses|
      invariant Filled(statuses[..i], files, names, todo, version)
      decreases todo
    {
      var port, entry;
      ghost var before := statuses[..i];
      ok, port, entry := FillNext(names, files, version, todo, before);
      statuses := statuses[i := entry];
      if !ok { return; }
      todo := todo - {port};
      i := i + 1;
      assert statuses[..i] == before + [entry];
    }
    assert statuses[..i] == statuses;
    ok := true;
    FilledAreReadable(statuses, files, names, version);
  }

  lemma FilledAreReadable(statuses: seq<PortStatus>, files: Files, names: map<string, bool>, version: Version)
    requires Filled(statuses, files, names, {}, version)
    ensures AllReadable(files, names)
  {
    forall port | port in names && names[port] ensures PortReadable(files, port) {
      var k :| 0 <= k < |statuses| && statuses[k].portName == port;
      assert EntryOf(statuses[k], files, names, {}, version);
    }
  }

  lemma FilledGrows(statuses: seq<PortStatus>, entry: PortStatus, files: Files, names: map<string, bool>,
                    todo: set<string>, port: string, version: Version)
    requires port in names && port !in todo && Filled(statuses, files, names, todo + {port}, version)
    requires (names[port] ==> PortReadable(files, port)) && entry == Reported(files, port, names[port], version)
    ensures Filled(statuses + [entry], files, names, todo, version)
  {
    var more := statuses + [entry];
    assert more[|statuses|] == entry;
    forall p | p in names && p !in todo ensures exists k :: 0 <= k < |more| && more[k].portName == p {
      if p != port {
        var k :| 0 <= k < |statuses| && statuses[k].portName == p;
        assert more[k] == statuses[k];
      }
    }
  }

  /** In a successful report, the ports with a data role, and those with a mode, are those whose name is the first
      token of some partner entry of the listing. */
  lemma ReportShowsPartners(listing: seq<Entry>, statuses: seq<PortStatus>, files: Files, version: Version, port: string)
    requires AllReadable(files, PortMap(listing)) && Filled(statuses, files, PortMap(listing), {}, version)
    ensures (exists e :: e in listing && IsPartnerEntry(e) && IsFirstToken(e.name, port)) <==>
      exists k :: 0 <= k < |statuses| && statuses[k].portName == port && statuses[k].currentDataRole != NO_ROLE
    ensures (exists e :: e in listing && IsPartnerEntry(e) && IsFirstToken(e.name, port)) <==>
      exists k :: 0 <= k < |statuses| && statuses[k].portName == port && statuses[k].currentMode11 != NO_ROLE
  {
    var names := PortMap(listing);
    ConnectedExactly(listing, port);
    if port in names {
      var k :| 0 <= k < |statuses| && statuses[k].portName == port;
      ConnectedShows(files, port, names[port], version);
      assert EntryOf(statuses[k], files, names, {}, version);
    }
  }
}
