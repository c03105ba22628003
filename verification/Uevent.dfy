/** The scan of a kernel uevent message: NUL-separated strings in a fixed buffer. */
module Uevents {
  import opened Common

  const UEVENT_MSG_LEN := 2048
  const NUL := '\0'

  /** What a string of the message makes the handler do. `added` is the string that announces a partner. */
  datatype Reaction = PartnerUp(added: string) | PortsChanged

  const ADD := "add"
  const PARTNER := "-partner"
  const DEVTYPE_TYPEC := "DEVTYPE=typec_"

  /** The whole string matches (add)(.*)(-partner), where . stands for anything but a line end. */
  predicate IsPartnerAdded(s: string) {
    && |ADD| + |PARTNER| <= |s|
    && s[..|ADD|] == ADD && s[|s| - |PARTNER|..] == PARTNER
    && forall i :: |ADD| <= i < |s| - |PARTNER| ==> s[i] != '\n' && s[i] != '\r'
  }

  predicate IsTypeC(s: string) {
    DEVTYPE_TYPEC <= s
  }

  /** A partner is announced by "add", anything on one line, and "-partner". */
  lemma PartnerAddedExactly(s: string)
    ensures IsPartnerAdded(s) <==> exists mid :: s == "add" + mid + "-partner" && '\n' !in mid && '\r' !in mid
  {
    if IsPartnerAdded(s) {
      var mid := s[|ADD|..|s| - |PARTNER|];
      assert s == s[..|ADD|] + mid + s[|s| - |PARTNER|..];
      forall c | c in mid ensures c != '\n' && c != '\r' { }
    }
    if mid :| s == "add" + mid + "-partner" && '\n' !in mid && '\r' !in mid {
      assert s[..|ADD|] == ADD && s[|s| - |PARTNER|..] == PARTNER;
      forall i | |ADD| <= i < |s| - |PARTNER| ensures s[i] != '\n' && s[i] != '\r' { assert s[i] == mid[i - |ADD|]; }
    }
  }

  lemma TypeCExactly(s: string)
    ensures IsTypeC(s) <==> exists rest :: s == "DEVTYPE=typec_" + rest
  {
    if IsTypeC(s) {
      assert s == "DEVTYPE=typec_" + s[|DEVTYPE_TYPEC|..];
    }
  }

  // ---------------------------------------------------------------- the strings of a message

  /** The strings of a message, up to the first empty one. The last need not be terminated. */
  function Strings(s: string): seq<string>
    decreases |s|
  {
    var n := Find(s, NUL);
    if n == 0 then []
    else [s[..n]] + if n < |s| then Strings(s[n + 1..]) else []
  }

  function Terminated(strings: seq<string>): string {
    if strings == [] then [] else strings[0] + [NUL] + Terminated(strings[1..])
  }

  predicate AreStrings(strings: seq<string>) {
    forall s :: s in strings ==> s != [] && NUL !in s
  }

  /** What is put together string by string comes apart into the same strings, whatever follows an empty one. */
  lemma {:induction false} StringsOfTerminated(strings: seq<string>, rest: string)
    requires AreStrings(strings) && (rest == [] || rest[0] == NUL)
    ensures Strings(Terminated(strings) + rest) == strings
  {
    if strings == [] {
      assert Terminated(strings) + rest == rest;
    } else {
      var s, more := strings[0], Terminated(strings[1..]) + rest;
      assert Terminated(strings) + rest == s + ([NUL] + more);
      assert s in strings;
      TakesString(s, more);
      forall t | t in strings[1..] ensures t in strings { }
      StringsOfTerminated(strings[1..], rest);
    }
  }

  lemma TakesString(s: string, more: string)
    requires s != [] && NUL !in s
    ensures Strings(s + ([NUL] + more)) == [s] + Strings(more)
  {
    var all := s + ([NUL] + more);
    FindAfter(s, NUL, [NUL] + more);
    assert all[|s| + 1..] == more;
  }

  /** Every message is its strings, each terminated but perhaps the last, and then nothing or an empty string. */
  lemma {:induction false} MessageOfStrings(s: string) returns (rest: string)
    ensures AreStrings(Strings(s))
    ensures s + [NUL] == Terminated(Strings(s)) || (s == Terminated(Strings(s)) + rest && (rest == [] || rest[0] == NUL))
    decreases |s|
  {
    var n := Find(s, NUL);
    if n == 0 {
      rest := s;
      assert Terminated([]) + rest == s;
    } else {
      var t := s[..n];
      forall c | c in t ensures c != NUL { }
      if n == |s| {
        rest := [];
        OneMore(t, []);
        assert t == s && t + [NUL] + [] == s + [NUL];
      } else {
        var more := s[n + 1..];
        rest := MessageOfStrings(more);
        OneMore(t, Strings(more));
        Reassociate(s, t, more, Terminated(Strings(more)), rest);
      }
    }
  }

  lemma OneMore(t: string, strings: seq<string>)
    requires t != [] && NUL !in t && AreStrings(strings)
    ensures AreStrings([t] + strings) && Terminated([t] + strings) == t + [NUL] + Terminated(strings)
  {
    assert ([t] + strings)[1..] == strings;
  }

  lemma Reassociate(s: string, t: string, more: string, terminated: string, rest: string)
    requires s == t + [NUL] + more
    ensures more + [NUL] == terminated ==> s + [NUL] == t + [NUL] + terminated
    ensures more == terminated + rest ==> s == t + [NUL] + terminated + rest
  {
  }

  // ---------------------------------------------------------------- the reactions

  /** Each partner string counts until the first typec string, which is the last to be looked at. */
  function Reactions(strings: seq<string>): seq<Reaction> {
    if strings == [] then []
    else if IsPartnerAdded(strings[0]) then [PartnerUp(strings[0])] + Reactions(strings[1..])
    else if IsTypeC(strings[0]) then [PortsChanged]
    else Reactions(strings[1..])
  }

  lemma NotBoth(s: string)
    ensures !(IsPartnerAdded(s) && IsTypeC(s))
  {
    assert IsPartnerAdded(s) ==> s[0] == s[..|ADD|][0] == 'a';
    assert IsTypeC(s) ==> s[0] == DEVTYPE_TYPEC[0] == 'D';
  }

  /** The position of the first typec string, or the number of strings. */
  function FirstTypeC(strings: seq<string>): (n: nat)
    ensures n <= |strings| && (n < |strings| ==> IsTypeC(strings[n]))
    ensures forall i :: 0 <= i < n ==> !IsTypeC(strings[i])
  {
    if strings == [] || IsTypeC(strings[0]) then 0 else 1 + FirstTypeC(strings[1..])
  }

  /** The strings that announce a partner, in order. */
  function Partners(strings: seq<string>): seq<string> {
    if strings == [] then []
    else if IsPartnerAdded(strings[0]) then [strings[0]] + Partners(strings[1..])
    else Partners(strings[1..])
  }

  function Signals(partners: seq<string>): (r: seq<Reaction>)
    ensures |r| == |partners| && forall i :: 0 <= i < |r| ==> r[i] == PartnerUp(partners[i])
  {
    seq(|partners|, i requires 0 <= i < |partners| => PartnerUp(partners[i]))
  }

  /** One signal for each partner string before the first typec string, in order, then the ports, once, if there
      is one. */
  lemma {:induction false} ReactionsExactly(strings: seq<string>)
    ensures var n := FirstTypeC(strings);
            Reactions(strings) == Signals(Partners(strings[..n])) + if n < |strings| then [PortsChanged] else []
  {
    var n := FirstTypeC(strings);
    if strings != [] {
      NotBoth(strings[0]);
      if !IsTypeC(strings[0]) {
        var more := strings[1..];
        ReactionsExactly(more);
        assert FirstTypeC(strings) == 1 + FirstTypeC(more);
        assert strings[..n][1..] == more[..n - 1];
        assert strings[..n][0] == strings[0];
        if IsPartnerAdded(strings[0]) {
          var others := Partners(more[..n - 1]);
          assert Signals([strings[0]] + others) == [PartnerUp(strings[0])] + Signals(others);
        }
      }
    }
  }

  /** The port of a partner string: what follows the last slash, up to the suffix. */
  function PortOf(added: string): string {
    if |added| < |PARTNER| then [] else AfterSlashes(added[..|added| - |PARTNER|])
  }

  function AfterSlashes(s: string): string {
    if '/' !in s then s else AfterSlashes(s[Find(s, '/') + 1..])
  }

  lemma {:induction false} AfterLastSlash(path: string, port: string)
    requires '/' !in port
    ensures AfterSlashes(path + "/" + port) == port
    decreases |path|
  {
    var s := path + "/" + port;
    var n := Find(s, '/');
    assert s[|path|] == '/';
    if n < |path| {
      assert s[n + 1..] == path[n + 1..] + "/" + port;
      AfterLastSlash(path[n + 1..], port);
    } else {
      assert s[n + 1..] == port;
    }
  }

  /** The string announcing the partner of a port names that port. */
  lemma PortOfPartner(path: string, port: string)
    requires '/' !in port
    ensures PortOf(path + "/" + port + PARTNER) == port
  {
    var s := path + "/" + port + PARTNER;
    assert s[..|s| - |PARTNER|] == path + "/" + port;
    AfterLastSlash(path, port);
  }

  lemma ReactionsOfFirst(s: string, rest: seq<string>)
    ensures Reactions([s] + rest) ==
      if IsPartnerAdded(s) then [PartnerUp(s)] + Reactions(rest)
      else if IsTypeC(s) then [PortsChanged] else Reactions(rest)
  {
    assert ([s] + rest)[1..] == rest;
  }

  // ---------------------------------------------------------------- the scan

  /** What is left of the n bytes at cp; past the last one nothing is. */
  function Left(bytes: string, cp: nat): string {
    if cp <= |bytes| then bytes[cp..] else []
  }

  /** The string that begins at cp ends just before next. */
  predicate EndsAt(bytes: string, cp: nat, next: nat) {
    && cp + 1 < next <= |bytes| + 1
    && (forall j :: cp <= j < next - 1 ==> bytes[j] != NUL)
    && (next <= |bytes| ==> bytes[next - 1] == NUL)
  }

  lemma LeftAfter(bytes: string, cp: nat, next: nat)
    requires EndsAt(bytes, cp, next)
    ensures Strings(Left(bytes, cp)) == [bytes[cp..next - 1]] + Strings(Left(bytes, next))
  {
    var s := bytes[cp..next - 1];
    assert s[0] == bytes[cp];
    forall c | c in s ensures c != NUL { }
    if next <= |bytes| {
      var more := bytes[next..];
      assert bytes[cp..] == s + ([NUL] + more);
      TakesString(s, more);
    } else {
      assert bytes[cp..] == s;
      LastString(s);
    }
  }

  lemma LastString(s: string)
    requires s != [] && NUL !in s
    ensures Strings(s) == [s]
  {
    FindAfter(s, NUL, []);
    assert s + [] == s;
  }

  /** uevent_event with n bytes received into the buffer: the reactions are those of the strings of the n bytes.
      A message that fills the buffer is discarded. */
  method UeventEvent(msg: array<char>, n: int) returns (reactions: seq<Reaction>)
    requires msg.Length == UEVENT_MSG_LEN + 2
    modifies msg
    ensures reactions == if 0 < n < 2048 then Reactions(Strings(old(msg[..n]))) else []
    ensures forall i :: 0 <= i < msg.Length && i != n && i != n + 1 ==> msg[i] == old(msg[i])
  {
    reactions := [];
    if n <= 0 {
      return;
    }
    if n >= UEVENT_MSG_LEN {
      return;
    }
    msg[n] := NUL;
    msg[n + 1] := NUL;
    assert msg[..n + 2] == old(msg[..n]) + [NUL, NUL];
    reactions := Scan(msg[..n + 2], old(msg[..n]));
  }

  /** The loop of uevent_event. All it is given is the bytes received and their two terminators, so every index it
      reads is at most that of the second. */
  method Scan(text: string, ghost bytes: string) returns (reactions: seq<Reaction>)
    requires text == bytes + [NUL, NUL]
    ensures reactions == Reactions(Strings(bytes))
  {
    var cp := 0;
    reactions := [];
    TwoTerminators(text, bytes);
    assert Left(bytes, 0) == bytes;
    ghost var left := Strings(bytes);
    while text[cp] != NUL
      invariant cp < |text|
      invariant left == Strings(Left(bytes, cp))
      invariant Reactions(Strings(bytes)) == reactions + Reactions(left)
      decreases |text| - cp
    {
      var s;
      s, cp := NextString(text, cp, bytes);
      left := Strings(Left(bytes, cp));
      var found;
      reactions, found := React(s, reactions, left);
      if found {
        return;
      }
    }
    NothingLeft(bytes, cp, text[cp]);
  }

  /** The string at cp, and where the next begins. */
  method NextString(text: string, cp: nat, ghost bytes: string) returns (s: string, next: nat)
    requires IsTerminated(text, bytes) && cp < |text| && text[cp] != NUL
    ensures cp < next < |text| && Strings(Left(bytes, cp)) == [s] + Strings(Left(bytes, next))
  {
    s, next := ReadString(text, cp);
    StringAt(text, bytes, cp, s, next);
  }

  /** The bytes received, and two terminators after them. */
  predicate IsTerminated(text: string, bytes: string) {
    && |text| == |bytes| + 2 && text[|bytes|] == NUL && text[|bytes| + 1] == NUL
    && forall j :: 0 <= j < |bytes| ==> text[j] == bytes[j]
  }

  lemma TwoTerminators(text: string, bytes: string)
    requires text == bytes + [NUL, NUL]
    ensures IsTerminated(text, bytes)
  {
  }

  lemma StringAt(text: string, bytes: string, cp: nat, s: string, next: nat)
    requires IsTerminated(text, bytes) && cp + 1 < next <= |bytes| + 1 && text[next - 1] == NUL
    requires s == text[cp..next - 1] && forall j :: cp <= j < next - 1 ==> text[j] != NUL
    ensures Strings(Left(bytes, cp)) == [s] + Strings(Left(bytes, next))
  {
    SameString(text, bytes, cp, next);
    LeftAfter(bytes, cp, next);
  }

  lemma SameString(text: string, bytes: string, cp: nat, next: nat)
    requires IsTerminated(text, bytes) && cp + 1 < next <= |bytes| + 1 && text[next - 1] == NUL
    requires forall j :: cp <= j < next - 1 ==> text[j] != NUL
    ensures text[cp..next - 1] == bytes[cp..next - 1] && EndsAt(bytes, cp, next)
  {
  }

  method ReadString(text: string, from: nat) returns (s: string, next: nat)
    requires from < |text| - 2 && text[|text| - 2] == NUL && text[from] != NUL
    ensures from + 1 < next <= |text| - 1 && text[next - 1] == NUL
    ensures s == text[from..next - 1] && forall j :: from <= j < next - 1 ==> text[j] != NUL
  {
    var end := from;
    while text[end] != NUL
      invariant from <= end <= |text| - 2 && forall j :: from <= j < end ==> text[j] != NUL
      decreases |text| - end
    {
      end := end + 1;
    }
    s, next := text[from..end], end + 1;
  }

  /** The branches for one string. */
  method React(s: string, before: seq<Reaction>, ghost rest: seq<string>) returns (after: seq<Reaction>, found: bool)
    ensures before + Reactions([s] + rest) == after + if found then [] else Reactions(rest)
  {
    ReactionsOfFirst(s, rest);
    after, found := before, false;
    if IsPartnerAdded(s) {
      after := before + [PartnerUp(s)];
    } else if IsTypeC(s) {
      after, found := before + [PortsChanged], true;
    }
  }

  lemma NothingLeft(bytes: string, cp: nat, at: char)
    requires at == NUL && (cp < |bytes| ==> bytes[cp] == at)
    ensures Strings(Left(bytes, cp)) == []
  {
  }
}
