/** The ports and roles of the Type-C class directory. */
module TypecPorts {
  import opened Common

  datatype Status = Success | Error | UnrecognizedRole

  // ---------------------------------------------------------------- the port map

  /** An entry of /sys/class/typec. */
  datatype Entry = Entry(name: string, isLink: bool)

  const PARTNER := "-partner"

  predicate IsPartnerEntry(e: Entry) {
    e.isLink && Contains(e.name, PARTNER)
  }

  predicate IsPortEntry(e: Entry) {
    e.isLink && !Contains(e.name, PARTNER)
  }

  /** Only links count, and those whose names hold "-partner" are partners. */
  lemma EntriesExactly(e: Entry)
    ensures IsPartnerEntry(e) <==> e.isLink && exists before, after :: e.name == before + "-partner" + after
    ensures IsPortEntry(e) <==> e.isLink && !IsPartnerEntry(e)
  {
    ContainsExactly(e.name, PARTNER);
  }

  /** The first token between dashes. */
  function FirstToken(s: string): string {
    if s != [] && s[0] == '-' then FirstToken(s[1..]) else s[..Find(s, '-')]
  }

  /** The entry of a partner named after its port leads to that port. */
  lemma PartnerOfPort(port: string)
    requires IsPortName(port)
    ensures IsPartnerEntry(Entry(port + PARTNER, true)) && FirstToken(port + PARTNER) == port
  {
    ContainsAfter(port, PARTNER);
    FindAfter(port, '-', PARTNER);
    assert (port + PARTNER)[0] == port[0];
    assert port[0] in port;
    assert (port + PARTNER)[..|port|] == port;
  }

  lemma {:induction false} ContainsAfter(s: string, part: string)
    ensures Contains(s + part, part)
  {
    if s == [] {
      assert s + part == part;
      assert part <= part;
    } else {
      ContainsAfter(s[1..], part);
      assert (s + part)[1..] == s[1..] + part;
    }
  }

  function Ports(listing: seq<Entry>): set<string> {
    set e | e in listing && IsPortEntry(e) :: e.name
  }

  function Connected(listing: seq<Entry>): set<string> {
    set e | e in listing && IsPartnerEntry(e) :: FirstToken(e.name)
  }

  /** The ports of a listing: those with an entry of their own or of a partner; connected if of a partner. */
  function PortMap(listing: seq<Entry>): map<string, bool> {
    map name | name in Ports(listing) + Connected(listing) :: name in Connected(listing)
  }

  predicate IsPortName(s: string) {
    s != [] && '-' !in s
  }

  /** `token` is the stretch of `name` between its leading dashes and the next dash. */
  predicate IsFirstToken(name: string, token: string) {
    exists n, m :: 0 <= n <= m <= |name| && IsTokenAt(name, token, n, m)
  }

  predicate IsTokenAt(name: string, token: string, n: nat, m: nat)
    requires n <= m <= |name|
  {
    && (forall i :: 0 <= i < n ==> name[i] == '-')
    && token == name[n..m] && '-' !in token
    && (n == |name| || name[n] != '-') && (m == |name| || name[m] == '-')
  }

  lemma {:induction false} FirstTokenExactly(name: string, token: string)
    ensures FirstToken(name) == token <==> IsFirstToken(name, token)
  {
    if name != [] && name[0] == '-' {
      FirstTokenExactly(name[1..], token);
      DashSkipped(name, token);
    } else {
      TokenAtOnce(name, token);
    }
  }

  lemma DashSkipped(name: string, token: string)
    requires name != [] && name[0] == '-'
    ensures IsFirstToken(name, token) <==> IsFirstToken(name[1..], token)
  {
    var rest := name[1..];
    if IsFirstToken(rest, token) {
      var n, m :| 0 <= n <= m <= |rest| && IsTokenAt(rest, token, n, m);
      forall i | 0 <= i < n + 1 ensures name[i] == '-' { assert i > 0 ==> name[i] == rest[i - 1]; }
      assert name[n + 1..m + 1] == rest[n..m];
      assert IsTokenAt(name, token, n + 1, m + 1);
    }
    if IsFirstToken(name, token) {
      var n, m :| 0 <= n <= m <= |name| && IsTokenAt(name, token, n, m);
      assert n > 0;
      forall i | 0 <= i < n - 1 ensures rest[i] == '-' { assert rest[i] == name[i + 1]; }
      assert rest[n - 1..m - 1] == name[n..m];
      assert IsTokenAt(rest, token, n - 1, m - 1);
    }
  }

  lemma TokenAtOnce(name: string, token: string)
    requires name == [] || name[0] != '-'
    ensures name[..Find(name, '-')] == token <==> IsFirstToken(name, token)
  {
    var m := Find(name, '-');
    assert IsTokenAt(name, name[..m], 0, m);
    if IsFirstToken(name, token) {
      var n, l :| 0 <= n <= l <= |name| && IsTokenAt(name, token, n, l);
      assert n == 0;
      forall i | 0 <= i < l ensures name[i] != '-' { assert name[i] == token[i]; }
      FindIs(name, '-', l);
    }
  }

  /** For every listing: a port is connected exactly when the first token between dashes of some partner entry is
      its name. */
  lemma ConnectedExactly(listing: seq<Entry>, port: string)
    ensures port in PortMap(listing) && PortMap(listing)[port] <==>
            exists e :: e in listing && IsPartnerEntry(e) && IsFirstToken(e.name, port)
    ensures port in PortMap(listing) && !PortMap(listing)[port] <==>
            (exists e :: e in listing && IsPortEntry(e) && e.name == port)
            && !exists e :: e in listing && IsPartnerEntry(e) && IsFirstToken(e.name, port)
  {
    if port in Connected(listing) {
      var e :| e in listing && IsPartnerEntry(e) && FirstToken(e.name) == port;
      FirstTokenExactly(e.name, port);
    }
    if e :| e in listing && IsPartnerEntry(e) && IsFirstToken(e.name, port) {
      FirstTokenExactly(e.name, port);
      assert port in Connected(listing);
    }
  }

  /** Listings with the same entries give the same map: neither order nor repetition matters. */
  lemma PortMapIgnoresOrder(a: seq<Entry>, b: seq<Entry>)
    requires forall e :: e in a <==> e in b
    ensures PortMap(a) == PortMap(b)
  {
    assert Ports(a) == Ports(b) && Connected(a) == Connected(b);
  }

  lemma PermutationsAgree(a: seq<Entry>, b: seq<Entry>)
    requires multiset(a) == multiset(b)
    ensures PortMap(a) == PortMap(b)
  {
    forall e ensures e in a <==> e in b {
      assert e in a <==> e in multiset(a);
      assert e in b <==> e in multiset(b);
    }
    PortMapIgnoresOrder(a, b);
  }

  lemma PortMapGrows(listing: seq<Entry>, e: Entry)
    ensures PortMap(listing + [e]) ==
      if IsPartnerEntry(e) then PortMap(listing)[FirstToken(e.name) := true]
      else if IsPortEntry(e) && e.name !in PortMap(listing) then PortMap(listing)[e.name := false]
      else PortMap(listing)
  {
    var more := listing + [e];
    assert forall x :: x in more <==> x in listing || x == e;
    assert Connected(more) == Connected(listing) + if IsPartnerEntry(e) then {FirstToken(e.name)} else {};
    assert Ports(more) == Ports(listing) + if IsPortEntry(e) then {e.name} else {};
  }

  /** getTypeCPortNamesHelper; the listing is None if the directory cannot be opened. */
  method GetTypeCPortNames(listing: Option<seq<Entry>>) returns (status: Status, names: map<string, bool>)
    ensures status == if listing == None then Error else Success
    ensures listing.Some? ==> names == PortMap(listing.value)
  {
    names := map[];
    if listing == None {
      return Error, names;
    }
    var entries := listing.value;
    assert PortMap([]) == map[];
    assert entries[..0] == [];
    for i := 0 to |entries|
      invariant names == PortMap(entries[..i])
    {
      var e := entries[i];
      assert entries[..i + 1] == entries[..i] + [e];
      PortMapGrows(entries[..i], e);
      if e.isLink {
        if !Contains(e.name, PARTNER) {
          if e.name !in names {
            names := names[e.name := false];
          }
        } else {
          names := names[FirstToken(e.name) := true];
        }
      }
    }
    assert entries[..|entries|] == entries;
    status := Success;
  }

  // ---------------------------------------------------------------- role files

  /** The files read for a port. Every other node of a port is not part of this model. */
  datatype Node = PowerRole(port: string) | DataRole(port: string) | AccessoryMode(port: string) | SupportsPd(port: string)

  type Files = map<Node, string>

  /** readFile into an empty string: the first line, up to a NUL if it has one; None if there is no file. */
  function ReadFile(files: Files, node: Node): Option<string> {
    if node !in files then None
    else
      var line := files[node][..Find(files[node], '\n')];
      Some(line[..Find(line, '\0')])
  }

  /** What is read of a file is its first line, up to a NUL, whatever follows. */
  lemma FirstLineIsRead(files: Files, node: Node, line: string, rest: string)
    requires '\n' !in line && '\0' !in line && (rest == [] || rest[0] == '\n' || rest[0] == '\0')
    ensures ReadFile(files[node := line + rest], node) == Some(line)
    ensures node !in files ==> ReadFile(files, node) == None
  {
    var whole := line + rest;
    var cut := whole[..Find(whole, '\n')];
    forall i | 0 <= i < |line| ensures whole[i] != '\n' && whole[i] != '\0' { assert whole[i] == line[i]; }
    assert |line| <= |cut| && forall i :: 0 <= i < |line| ==> cut[i] == line[i];
    assert |cut| > |line| ==> cut[|line|] == rest[0] == '\0';
    FindIs(cut, '\0', |line|);
    assert cut[..|line|] == line;
  }

  const SIZE_MAX_PLUS_ONE: int := 0x1_0000_0000_0000_0000

  /** substr: at most `len` characters from `pos`. */
  function Substr(s: string, pos: nat, len: nat): string
    requires pos <= |s|
  {
    s[pos..Min(pos + len, |s|)]
  }

  /** extractRole, with the arithmetic of size_t. */
  method ExtractRole(roleName: string) returns (r: string)
    requires |roleName| < SIZE_MAX_PLUS_ONE
    ensures r == Bracketed(roleName)
  {
    r := roleName;
    var first, last := Find(roleName, '['), Find(roleName, ']');
    if first != |roleName| && last != |roleName| {
      var len := (last - first - 1) % SIZE_MAX_PLUS_ONE;
      WrappedLength(|roleName|, first, last);
      r := Substr(roleName, first + 1, len);
    }
  }

  /** A closing bracket before the opening one makes the length wrap around to more than there is. */
  lemma WrappedLength(size: nat, first: nat, last: nat)
    requires first < size && last < size && first != last && size < SIZE_MAX_PLUS_ONE
    ensures var len := (last - first - 1) % SIZE_MAX_PLUS_ONE;
            Min(first + 1 + len, size) == if first < last then last else size
  {
    if last < first {
      assert (last - first - 1) % SIZE_MAX_PLUS_ONE == last - first - 1 + SIZE_MAX_PLUS_ONE;
    }
  }

  /** What stands between the first opening and the first closing bracket; up to the end if the closing one
      comes first; the whole string unless there are both. */
  function Bracketed(s: string): string {
    var first, last := Find(s, '['), Find(s, ']');
    if first == |s| || last == |s| then s
    else if first < last then s[first + 1..last]
    else s[first + 1..]
  }

  /** Whatever the order of the brackets: what counts is the first of each. */
  lemma BracketedExactly(s: string, first: nat, last: nat)
    requires first < |s| && s[first] == '[' && '[' !in s[..first]
    requires last < |s| && s[last] == ']' && ']' !in s[..last]
    ensures Bracketed(s) == if first < last then s[first + 1..last] else s[first + 1..]
  {
    forall i | 0 <= i < first ensures s[i] != '[' { assert s[i] in s[..first]; }
    forall i | 0 <= i < last ensures s[i] != ']' { assert s[i] in s[..last]; }
    FindIs(s, '[', first);
    FindIs(s, ']', last);
  }

  /** Without both brackets the string stays. */
  lemma NotBracketed(s: string)
    requires '[' !in s || ']' !in s
    ensures Bracketed(s) == s
  {
  }

  /** The selected role of a list such as "host [device]" is the one in brackets. */
  lemma BracketedIsSelected(before: string, role: string, after: string)
    requires '[' !in before && ']' !in before && ']' !in role
    ensures Bracketed(before + "[" + role + "]" + after) == role
  {
    var s := before + "[" + role + "]" + after;
    forall i | 0 <= i < |before| ensures s[i] != '[' && s[i] != ']' { assert s[i] == before[i]; }
    forall i | |before| < i <= |before| + |role| ensures s[i] != ']' { assert s[i] == role[i - |before| - 1]; }
    assert s[|before|] == '[' && s[|before| + 1 + |role|] == ']';
    FindIs(s, '[', |before|);
    FindIs(s, ']', |before| + 1 + |role|);
    assert s[|before| + 1..|before| + 1 + |role|] == role;
  }
}
