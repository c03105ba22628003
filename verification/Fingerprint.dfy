/** Build fingerprints rewritten as descriptions, and build properties set for every source. */
module Fingerprints {
  import opened Common

  /** FIND_AND_REMOVE. Without the delimiter npos + 1 is 0: the piece is the whole string, and nothing is removed. */
  method FindAndRemove(s: string, delimiter: char) returns (piece: string, rest: string)
    ensures piece == Piece(s, delimiter) && rest == Rest(s, delimiter)
  {
    var n := Find(s, delimiter);
    piece := s[..n];
    rest := if n == |s| then s else s[n + 1..];
  }

  function Piece(s: string, c: char): string {
    s[..Find(s, c)]
  }

  function Rest(s: string, c: char): string {
    if Find(s, c) == |s| then s else s[Find(s, c) + 1..]
  }

  /** brand/product/device:version/id/number:variant/tags */
  datatype Fingerprint = Fingerprint(
    brand: string, product: string, device: string, version: string,
    id: string, number: string, variant: string, tags: string)

  function Format(f: Fingerprint): string {
    f.brand + "/" + (f.product + "/" + (f.device + ":" + (f.version + "/" +
    (f.id + "/" + (f.number + ":" + (f.variant + "/" + f.tags))))))
  }

  lemma FormatExactly(f: Fingerprint)
    ensures Format(f) == f.brand + "/" + f.product + "/" + f.device + ":" + f.version + "/" + f.id + "/" + f.number
                         + ":" + f.variant + "/" + f.tags
  {
    var s6 := f.variant + "/" + f.tags;
    var s5 := f.number + ":" + s6;
    var s4 := f.id + "/" + s5;
    var s3 := f.version + "/" + s4;
    var s2 := f.device + ":" + s3;
    assert f.number + ":" + f.variant + "/" + f.tags == s5;
    assert f.version + "/" + f.id + "/" + s5 == s3;
    assert f.brand + "/" + f.product + "/" + s2 == Format(f);
  }

  /** No field holds the delimiter that ends it. */
  predicate WellFormed(f: Fingerprint) {
    && '/' !in f.brand && '/' !in f.product && ':' !in f.device && '/' !in f.version && '/' !in f.id
    && ':' !in f.number && '/' !in f.variant
  }

  /** What the seven removals take from a string. */
  function Parse(s: string): Fingerprint {
    var s1 := Rest(s, '/');
    var s2 := Rest(s1, '/');
    var s3 := Rest(s2, ':');
    var s4 := Rest(s3, '/');
    var s5 := Rest(s4, '/');
    var s6 := Rest(s5, ':');
    Fingerprint(Piece(s, '/'), Piece(s1, '/'), Piece(s2, ':'), Piece(s3, '/'), Piece(s4, '/'), Piece(s5, ':'),
                Piece(s6, '/'), Rest(s6, '/'))
  }

  lemma TakesPiece(piece: string, c: char, rest: string)
    requires c !in piece
    ensures Piece(piece + [c] + rest, c) == piece && Rest(piece + [c] + rest, c) == rest
  {
    var s := piece + [c] + rest;
    assert s == piece + ([c] + rest);
    FindAfter(piece, c, [c] + rest);
    assert s[|piece| + 1..] == rest;
  }

  /** Parsing gives back the fields of every well-formed fingerprint. */
  lemma ParseOfFormat(f: Fingerprint)
    requires WellFormed(f)
    ensures Parse(Format(f)) == f
  {
    var s6 := f.variant + "/" + f.tags;
    var s5 := f.number + ":" + s6;
    var s4 := f.id + "/" + s5;
    var s3 := f.version + "/" + s4;
    var s2 := f.device + ":" + s3;
    var s1 := f.product + "/" + s2;
    TakesPiece(f.brand, '/', s1);
    TakesPiece(f.product, '/', s2);
    TakesPiece(f.device, ':', s3);
    TakesPiece(f.version, '/', s4);
    TakesPiece(f.id, '/', s5);
    TakesPiece(f.number, ':', s6);
    TakesPiece(f.variant, '/', f.tags);
  }

  /** What is left after the first n removals of a string. */
  function After(s: string, n: nat): string {
    if n == 0 then s else Rest(After(s, n - 1), Delimiter(n - 1))
  }

  /** The delimiters of the seven removals, in turn. */
  function Delimiter(n: nat): char {
    if n == 2 || n == 5 then ':' else '/'
  }

  /** Removal n, counted from 0, finds its delimiter. */
  predicate Finds(s: string, n: nat) {
    Find(After(s, n), Delimiter(n)) < |After(s, n)|
  }

  /** A removal that finds its delimiter loses nothing; one that does not leaves a piece too many. */
  lemma SplitLength(s: string, c: char)
    ensures |Piece(s, c)| + 1 + |Rest(s, c)| >= |s|
    ensures Find(s, c) == |s| ==> |Piece(s, c)| + 1 + |Rest(s, c)| > |s|
  {
  }

  lemma Rejoins(s: string, c: char)
    requires Find(s, c) < |s|
    ensures Piece(s, c) + ([c] + Rest(s, c)) == s
  {
    Cut(s, Find(s, c));
  }

  lemma Cut(s: string, n: nat)
    requires n < |s|
    ensures s[..n] + ([s[n]] + s[n + 1..]) == s
  {
  }

  /** The fields put together again give the fingerprint exactly if each of the seven removals in turn finds its
      delimiter; and then the fields are those of the one well-formed fingerprint it formats. */
  lemma FingerprintsExactly(s: string)
    ensures Format(Parse(s)) == s <==> forall n :: 0 <= n < 7 ==> Finds(s, n)
    ensures WellFormed(Parse(s))
  {
    if forall n :: 0 <= n < 7 ==> Finds(s, n) {
      PutTogether(s);
    } else {
      var n :| 0 <= n < 7 && !Finds(s, n);
      Longer(s, n);
    }
  }

  function PieceAt(s: string, n: nat): string {
    Piece(After(s, n), Delimiter(n))
  }

  lemma SplitAt(s: string, n: nat)
    ensures |PieceAt(s, n)| + 1 + |After(s, n + 1)| >= |After(s, n)|
    ensures !Finds(s, n) ==> |PieceAt(s, n)| + 1 + |After(s, n + 1)| > |After(s, n)|
    ensures Finds(s, n) ==> PieceAt(s, n) + ([Delimiter(n)] + After(s, n + 1)) == After(s, n)
  {
    var t, c := After(s, n), Delimiter(n);
    assert After(s, n + 1) == Rest(t, c);
    SplitLength(t, c);
    if Finds(s, n) {
      Rejoins(t, c);
    }
  }

  lemma Exceeds(left: seq<nat>, taken: seq<nat>, k: nat)
    requires |left| == 8 && |taken| == 7 && k < 7
    requires forall n :: 0 <= n < 7 ==> taken[n] + 1 + left[n + 1] >= left[n]
    requires taken[k] + 1 + left[k + 1] > left[k]
    ensures taken[0] + taken[1] + taken[2] + taken[3] + taken[4] + taken[5] + taken[6] + 7 + left[7] > left[0]
  {
    assert taken[0] + 1 + left[1] >= left[0] && taken[1] + 1 + left[2] >= left[1];
    assert taken[2] + 1 + left[3] >= left[2] && taken[3] + 1 + left[4] >= left[3];
    assert taken[4] + 1 + left[5] >= left[4] && taken[5] + 1 + left[6] >= left[5];
    assert taken[6] + 1 + left[7] >= left[6];
  }

  lemma Longer(s: string, k: nat)
    requires k < 7 && !Finds(s, k)
    ensures |Format(Parse(s))| > |s|
  {
    var left: seq<nat> := seq(8, n requires 0 <= n < 8 => |After(s, n)|);
    var taken: seq<nat> := seq(7, n requires 0 <= n < 7 => |PieceAt(s, n)|);
    forall n | 0 <= n < 7 ensures taken[n] + 1 + left[n + 1] >= left[n] {
      SplitAt(s, n);
    }
    SplitAt(s, k);
    Exceeds(left, taken, k);
    FieldsAre(s);
    FormatLength(Parse(s));
  }

  lemma FieldsAre(s: string)
    ensures var f := Parse(s);
            && f.brand == PieceAt(s, 0) && f.product == PieceAt(s, 1) && f.device == PieceAt(s, 2)
            && f.version == PieceAt(s, 3) && f.id == PieceAt(s, 4) && f.number == PieceAt(s, 5)
            && f.variant == PieceAt(s, 6) && f.tags == After(s, 7) && After(s, 0) == s
  {
    assert After(s, 1) == Rest(s, '/');
    assert After(s, 2) == Rest(After(s, 1), '/');
    assert After(s, 3) == Rest(After(s, 2), ':');
    assert After(s, 4) == Rest(After(s, 3), '/');
    assert After(s, 5) == Rest(After(s, 4), '/');
    assert After(s, 6) == Rest(After(s, 5), ':');
    assert After(s, 7) == Rest(After(s, 6), '/');
  }

  lemma FormatLength(f: Fingerprint)
    ensures |Format(f)| == |f.brand| + |f.product| + |f.device| + |f.version| + |f.id| + |f.number| + |f.variant|
                           + |f.tags| + 7
  {
  }

  lemma PutTogether(s: string)
    requires forall n :: 0 <= n < 7 ==> Finds(s, n)
    ensures Format(Parse(s)) == s
  {
    forall n | 0 <= n < 7 ensures PieceAt(s, n) + ([Delimiter(n)] + After(s, n + 1)) == After(s, n) {
      assert Finds(s, n);
      SplitAt(s, n);
    }
    FieldsAre(s);
    FormatsTo(Parse(s), After(s, 6), After(s, 5), After(s, 4), After(s, 3), After(s, 2), After(s, 1), s);
  }

  lemma FormatsTo(f: Fingerprint, s6: string, s5: string, s4: string, s3: string, s2: string, s1: string, s: string)
    requires f.variant + ("/" + f.tags) == s6 && f.number + (":" + s6) == s5 && f.id + ("/" + s5) == s4
    requires f.version + ("/" + s4) == s3 && f.device + (":" + s3) == s2 && f.product + ("/" + s2) == s1
    requires f.brand + ("/" + s1) == s
    ensures Format(f) == s
  {
    assert f.variant + "/" + f.tags == s6;
    assert f.number + ":" + s6 == s5;
    assert f.id + "/" + s5 == s4;
    assert f.version + "/" + s4 == s3;
    assert f.device + ":" + s3 == s2;
    assert f.product + "/" + s2 == s1;
    assert f.brand + "/" + s1 == s;
  }

  function Describe(f: Fingerprint): string {
    f.product + "-" + f.variant + " " + f.version + " " + f.id + " " + f.number + " " + f.tags
  }

  /** fingerprint_to_description: for a well-formed fingerprint, its fields in the order of a description. */
  method FingerprintToDescription(fingerprint: string) returns (description: string)
    ensures forall f :: WellFormed(f) && Format(f) == fingerprint ==>
              description == f.product + "-" + f.variant + " " + f.version + " " + f.id + " " + f.number + " " + f.tags
    ensures description == Describe(Parse(fingerprint))
  {
    var brand, product, device, version, id, number, variant, rest;
    brand, rest := FindAndRemove(fingerprint, '/');
    product, rest := FindAndRemove(rest, '/');
    device, rest := FindAndRemove(rest, ':');
    version, rest := FindAndRemove(rest, '/');
    id, rest := FindAndRemove(rest, '/');
    number, rest := FindAndRemove(rest, ':');
    variant, rest := FindAndRemove(rest, '/');
    ghost var parsed := Parse(fingerprint);
    assert parsed == Fingerprint(brand, product, device, version, id, number, variant, rest);
    description := product + "-" + variant;
    description := Append(description, version);
    description := Append(description, id);
    description := Append(description, number);
    description := Append(description, rest);
    forall f | WellFormed(f) && Format(f) == fingerprint ensures f == parsed {
      ParseOfFormat(f);
    }
  }

  /** APPEND_STRING. */
  function Append(s: string, more: string): string {
    s + " " + more
  }

  /** Without any delimiter every field is the whole string. */
  lemma NoDelimiter(s: string)
    requires '/' !in s && ':' !in s
    ensures Describe(Parse(s)) == s + "-" + s + " " + s + " " + s + " " + s + " " + s
  {
    FindIs(s, '/', |s|);
    FindIs(s, ':', |s|);
  }

  // ---------------------------------------------------------------- properties

  type Properties = map<string, string>

  /** property_override. */
  method PropertyOverride(store: Properties, prop: string, value: string, add: bool) returns (after: Properties)
    ensures after == if prop in store || add then store[prop := value] else store
  {
    after := store;
    if prop in store {
      after := after[prop := value];
    } else if add {
      after := after[prop := value];
    }
  }

  function NameFor(source: string, prop: string, product: bool): string {
    if product then "ro.product." + source + prop else "ro." + source + "build." + prop
  }

  const RO_PROPS_DEFAULT_SOURCE_ORDER :=
    ["odm.", "odm_dlkm.", "product.", "system.", "system_ext.", "vendor.", "vendor_dlkm.", ""]

  function NamesFor(sources: seq<string>, prop: string, product: bool): set<string> {
    set source | source in sources :: NameFor(source, prop, product)
  }

  lemma OneMoreName(sources: seq<string>, k: nat, prop: string, product: bool)
    requires k < |sources|
    ensures NamesFor(sources[..k + 1], prop, product) ==
      NamesFor(sources[..k], prop, product) + {NameFor(sources[k], prop, product)}
  {
    assert sources[..k + 1] == sources[..k] + [sources[k]];
  }

  /** The names that are set, one for each source. */
  lemma NamesExactly(prop: string, product: bool, name: string)
    ensures name in NamesFor(RO_PROPS_DEFAULT_SOURCE_ORDER, prop, product) <==>
      exists source ::
        && source in ["odm.", "odm_dlkm.", "product.", "system.", "system_ext.", "vendor.", "vendor_dlkm.", ""]
        && name == if product then "ro.product." + source + prop else "ro." + source + "build." + prop
  {
  }

  /** set_ro_build_prop: exactly the names of the sources get the value. */
  method SetRoBuildProp(store: Properties, prop: string, value: string, product: bool) returns (after: Properties)
    ensures after.Keys == store.Keys + NamesFor(RO_PROPS_DEFAULT_SOURCE_ORDER, prop, product)
    ensures forall name :: name in after ==>
      after[name] == if name in NamesFor(RO_PROPS_DEFAULT_SOURCE_ORDER, prop, product) then value else store[name]
  {
    var sources := RO_PROPS_DEFAULT_SOURCE_ORDER;
    after := store;
    for k := 0 to |sources|
      invariant after.Keys == store.Keys + NamesFor(sources[..k], prop, product)
      invariant forall name :: name in after ==>
        after[name] == if name in NamesFor(sources[..k], prop, product) then value else store[name]
    {
      OneMoreName(sources, k, prop, product);
      var name := NameFor(sources[k], prop, product);
      after := PropertyOverride(after, name, value, true);
    }
    assert sources[..|sources|] == sources;
  }
}
