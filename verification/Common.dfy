/** Small things every module needs. */
module Common {

  datatype Option<+T> = None | Some(value: T)

  function Min(a: nat, b: nat): nat {
    if a <= b then a else b
  }

  /** Another index, behind all before. */
  lemma IndexMore(from: seq<nat>, n: nat)
    requires (forall k :: 0 <= k < |from| ==> from[k] < n) && forall j, k :: 0 <= j < k < |from| ==> from[j] < from[k]
    ensures forall j, k :: 0 <= j < k <= |from| ==> (from + [n])[j] < (from + [n])[k]
    ensures forall i :: i in from + [n] <==> i in from || i == n
  {
  }

  /** `part` occurs in `s`. */
  predicate Contains(s: string, part: string) {
    part <= s || (s != [] && Contains(s[1..], part))
  }

  lemma {:induction false} ContainsExactly(s: string, part: string)
    ensures Contains(s, part) <==> exists before, after :: s == before + part + after
  {
    if part <= s {
      assert s == [] + part + s[|part|..];
    } else if s != [] {
      ContainsExactly(s[1..], part);
      if before, after :| s[1..] == before + part + after {
        assert s == ([s[0]] + before) + part + after;
      }
      if before, after :| s == before + part + after {
        assert before != [] by {
          assert before == [] ==> s == part + after;
        }
        assert s[1..] == before[1..] + part + after;
      }
    }
  }

  /** The position of the first c, or the length. */
  function Find(s: string, c: char): (n: nat)
    ensures n <= |s| && (n < |s| ==> s[n] == c) && forall i :: 0 <= i < n ==> s[i] != c
  {
    if s == [] || s[0] == c then 0 else 1 + Find(s[1..], c)
  }

  lemma FindIs(s: string, c: char, n: nat)
    requires n <= |s| && (forall i :: 0 <= i < n ==> s[i] != c) && (n < |s| ==> s[n] == c)
    ensures Find(s, c) == n
  {
  }

  lemma FindAfter(s: string, c: char, rest: string)
    requires c !in s && (rest == [] || rest[0] == c)
    ensures Find(s + rest, c) == |s| && (s + rest)[..|s|] == s
  {
    forall i | 0 <= i < |s| ensures (s + rest)[i] != c { assert (s + rest)[i] == s[i]; }
    FindIs(s + rest, c, |s|);
  }
}
