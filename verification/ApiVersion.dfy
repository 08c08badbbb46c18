/** Docker API version negotiation: parsing, ordering, path stripping and the version gate. */
module ApiVersion {
  import opened Bytes
  import opened Text

  const INT_MAX := 0x7FFF_FFFF_FFFF_FFFF
  const INT_MIN := -0x8000_0000_0000_0000

  const ADVERTISED_API_VERSION := "1.44"
  const MINIMUM_API_VERSION := "1.24"

  // ---------------------------------------------------------------------------------------------
  // Parsing
  // ---------------------------------------------------------------------------------------------

  predicate IsDigit(c: char) {
    '0' <= c <= '9'
  }

  predicate AllDigits(s: string) {
    forall i | 0 <= i < |s| :: IsDigit(s[i])
  }

  function DigitsValue(s: string): nat
    requires AllDigits(s)
  {
    if s == "" then 0 else DigitsValue(s[..|s| - 1]) * 10 + (s[|s| - 1] - '0') as int
  }

  /** strconv.Atoi: an optional sign and digits within the range of a 64-bit int. */
  function Atoi(s: string): Option<int> {
    var signed := s != "" && (s[0] == '-' || s[0] == '+');
    var body := if signed then s[1..] else s;
    if body == "" || !AllDigits(body) then None
    else
      var magnitude: int := DigitsValue(body);
      var v := if signed && s[0] == '-' then -magnitude else magnitude;
      if INT_MIN <= v <= INT_MAX then Some(v) else None
  }

  /** The position of the first `c`, or -1. */
  function Find(s: string, c: char): (r: int)
    ensures -1 <= r < |s|
    ensures r >= 0 ==> s[r] == c && c !in s[..r]
    ensures r < 0 ==> c !in s
  {
    if s == "" then -1
    else if s[0] == c then 0
    else
      var r := Find(s[1..], c);
      assert s == [s[0]] + s[1..];
      if r < 0 then -1
      else
        assert s[..r + 1] == [s[0]] + s[1..][..r];
        r + 1
  }

  lemma FindAfterPrefix(prefix: string, c: char, rest: string)
    requires c !in prefix
    ensures Find(prefix + [c] + rest, c) == |prefix|
    ensures Find(prefix, c) == -1
  {
    var s := prefix + [c] + rest;
    assert s[|prefix|] == c && s[..|prefix|] == prefix;
    forall i | |prefix| < i <= |s|
      ensures c in s[..i]
    {
      assert s[..i][|prefix|] == c;
    }
  }

  /** strings.Split on a dot. */
  function Split(s: string): (parts: seq<string>)
    ensures |parts| > 0
    decreases |s|
  {
    var i := Find(s, '.');
    if i < 0 then [s] else [s[..i]] + Split(s[i + 1..])
  }

  /** A component: a non-empty, non-negative integer. */
  function Component(part: string): Option<int> {
    if part == "" then None
    else
      var v := Atoi(part);
      if v.None? || v.value < 0 then None else v
  }

  function Components(parts: seq<string>): Option<seq<int>> {
    if parts == [] then Some([])
    else
      var first, rest := Component(parts[0]), Components(parts[1..]);
      if first.None? || rest.None? then None else Some([first.value] + rest.value)
  }

  function ParsedVersion(version: string): Option<seq<int>> {
    Components(Split(version))
  }

  /** The parsing loop, which fills a slice component by component. */
  method ParseAPIVersion(version: string) returns (r: Option<seq<int>>)
    ensures r == ParsedVersion(version)
  {
    var parts := Split(version);
    var parsed := new int[|parts|];
    ghost var all := Components(parts);
    ghost var rest := all;
    var i := 0;
    assert parts[0..] == parts;
    while i < |parts|
      invariant 0 <= i <= |parts|
      invariant rest == Components(parts[i..]) && all.None? == rest.None?
      invariant all.Some? ==> all.value == parsed[..i] + rest.value
    {
      assert parts[i..][1..] == parts[i + 1..];
      var value := Component(parts[i]);
      if value.None? {
        return None;
      }
      rest := Components(parts[i + 1..]);
      ghost var before := parsed[..i];
      if rest.Some? {
        Assoc(before, [value.value], rest.value);
      }
      parsed[i] := value.value;
      assert parsed[..i + 1] == before + [value.value];
      i := i + 1;
    }
    assert parsed[..i] == parsed[..] && parsed[..] + [] == parsed[..];
    return Some(parsed[..]);
  }

  // ---------------------------------------------------------------------------------------------
  // The order
  // ---------------------------------------------------------------------------------------------

  /** A component, zero beyond the last. */
  function At(v: seq<int>, i: nat): int {
    if i < |v| then v[i] else 0
  }

  function CompareFrom(l: seq<int>, r: seq<int>, i: nat): int
    decreases Max(|l|, |r|) - i
  {
    if i >= Max(|l|, |r|) then 0
    else if At(l, i) < At(r, i) then -1
    else if At(l, i) > At(r, i) then 1
    else CompareFrom(l, r, i + 1)
  }

  function Compare(l: seq<int>, r: seq<int>): int {
    CompareFrom(l, r, 0)
  }

  /** The comparing loop. */
  method CompareAPIVersions(left: string, right: string) returns (r: Option<int>)
    ensures r == if ParsedVersion(left).None? || ParsedVersion(right).None? then None
                 else Some(Compare(ParsedVersion(left).value, ParsedVersion(right).value))
  {
    var l := ParseAPIVersion(left);
    if l.None? {
      return None;
    }
    var q := ParseAPIVersion(right);
    if q.None? {
      return None;
    }
    var length := Max(|l.value|, |q.value|);
    var i := 0;
    while i < length
      invariant 0 <= i <= length
      invariant Compare(l.value, q.value) == CompareFrom(l.value, q.value, i)
    {
      if At(l.value, i) < At(q.value, i) {
        return Some(-1);
      } else if At(l.value, i) > At(q.value, i) {
        return Some(1);
      }
      i := i + 1;
    }
    return Some(0);
  }

  /** Zero-extended lexicographic order: smaller at the first component that differs. */
  ghost predicate LexLess(l: seq<int>, r: seq<int>) {
    exists k: nat :: SmallerAt(l, r, k)
  }

  ghost predicate SmallerAt(l: seq<int>, r: seq<int>, k: nat) {
    At(l, k) < At(r, k) && forall j: nat | j < k :: At(l, j) == At(r, j)
  }

  /** The same version, up to trailing zeros. */
  ghost predicate SameVersion(l: seq<int>, r: seq<int>) {
    forall j: nat :: At(l, j) == At(r, j)
  }

  lemma {:induction false} CompareFromMeaning(l: seq<int>, r: seq<int>, i: nat)
    requires forall j: nat | j < i :: At(l, j) == At(r, j)
    ensures var c := CompareFrom(l, r, i);
      && c in {-1, 0, 1}
      && (c == -1 ==> LexLess(l, r)) && (c == 1 ==> LexLess(r, l)) && (c == 0 ==> SameVersion(l, r))
    decreases Max(|l|, |r|) - i
  {
    if i < Max(|l|, |r|) {
      if At(l, i) < At(r, i) {
        assert SmallerAt(l, r, i);
      } else if At(l, i) > At(r, i) {
        assert SmallerAt(r, l, i);
      } else {
        CompareFromMeaning(l, r, i + 1);
      }
    }
  }

  /** Before, same and after exclude each other. */
  lemma Exclusive(l: seq<int>, r: seq<int>)
    ensures !(LexLess(l, r) && LexLess(r, l))
    ensures SameVersion(l, r) ==> !LexLess(l, r) && !LexLess(r, l)
  {
    forall j: nat, k: nat | SmallerAt(l, r, j)
      ensures !SmallerAt(r, l, k)
    {
      assert j < k || k < j || j == k;
    }
  }

  /** Comparison is exactly the zero-extended lexicographic order. */
  lemma CompareMeaning(l: seq<int>, r: seq<int>)
    ensures Compare(l, r) == -1 <==> LexLess(l, r)
    ensures Compare(l, r) == 1 <==> LexLess(r, l)
    ensures Compare(l, r) == 0 <==> SameVersion(l, r)
  {
    CompareFromMeaning(l, r, 0);
    Exclusive(l, r);
  }

  /** It is a total preorder on versions. */
  lemma CompareIsPreorder(l: seq<int>, r: seq<int>, s: seq<int>)
    ensures Compare(l, r) == -Compare(r, l)
    ensures Compare(l, l) == 0
    ensures Compare(l, r) <= 0 && Compare(r, s) <= 0 ==> Compare(l, s) <= 0
  {
    CompareMeaning(l, r);
    CompareMeaning(r, l);
    CompareFromMeaning(l, r, 0);
    CompareFromMeaning(r, l, 0);
    CompareMeaning(l, l);
    if Compare(l, r) <= 0 && Compare(r, s) <= 0 {
      CompareFromMeaning(r, s, 0);
      LexTransitive(l, r, s);
      CompareMeaning(l, s);
    }
  }

  lemma LexTransitive(l: seq<int>, r: seq<int>, s: seq<int>)
    requires LexLess(l, r) || SameVersion(l, r)
    requires LexLess(r, s) || SameVersion(r, s)
    ensures LexLess(l, s) || SameVersion(l, s)
  {
    if LexLess(l, r) {
      var j: nat :| SmallerAt(l, r, j);
      if LexLess(r, s) {
        var k: nat :| SmallerAt(r, s, k);
        assert SmallerAt(l, s, if j < k then j else k);
      } else {
        assert SmallerAt(l, s, j);
      }
    } else if LexLess(r, s) {
      var k: nat :| SmallerAt(r, s, k);
      assert SmallerAt(l, s, k);
    }
  }

  // ---------------------------------------------------------------------------------------------
  // Paths and the gate
  // ---------------------------------------------------------------------------------------------

  predicate VersionCharacters(s: string) {
    forall i | 0 <= i < |s| :: IsDigit(s[i]) || s[i] == '.'
  }

  datatype PathVersion = Unversioned | InvalidVersion | Versioned(version: string)

  function VersionFromPath(path: string): PathVersion {
    if !("/v" <= path) then Unversioned
    else
      var rest := path[2..];
      var slash := Find(rest, '/');
      var version := if slash < 0 then rest else rest[..slash];
      if version == "" || !VersionCharacters(version) then Unversioned
      else if ParsedVersion(version).None? then InvalidVersion
      else Versioned(version)
  }

  function UnversionedPath(path: string): string {
    var v := VersionFromPath(path);
    if !v.Versioned? then path
    else
      var prefix := "/v" + v.version;
      var stripped := if prefix <= path then path[|prefix|..] else path;
      if stripped == "" then "/" else stripped
  }

  /** A version as it may stand in a path. */
  ghost predicate ValidVersion(v: string) {
    v != "" && VersionCharacters(v) && ParsedVersion(v).Some?
  }

  /** The first slash after a version is where the rest of the path starts. */
  lemma VersionEnds(v: string, rest: string, s: string)
    requires '/' !in v && (rest == "" || rest[0] == '/') && s == v + rest
    ensures rest == "" ==> Find(s, '/') == -1 && s == v
    ensures rest != "" ==> Find(s, '/') == |v| && s[..|v|] == v
  {
    if rest == "" {
      assert s == v;
    } else {
      assert s == v + ['/'] + rest[1..];
      FindAfterPrefix(v, '/', rest[1..]);
    }
  }

  /** The version found is the one put there, and stripping it gives back the rest of the path. */
  lemma PathRoundTrip(v: string, rest: string)
    requires ValidVersion(v) && (rest == "" || rest[0] == '/')
    ensures VersionFromPath("/v" + v + rest) == Versioned(v)
    ensures UnversionedPath("/v" + v + rest) == if rest == "" then "/" else rest
  {
    var path := "/v" + v + rest;
    assert path[2..] == v + rest;
    assert '/' !in v;
    VersionEnds(v, rest, path[2..]);
    assert path[|"/v" + v|..] == rest;
  }

  datatype Gate = Forwarded | Malformed | TooOld | TooNew

  /** The middleware's decision. */
  method Negotiate(path: string) returns (g: Gate)
    ensures g == GateOf(path)
  {
    var found := VersionFromPath(path);
    if found.InvalidVersion? {
      return Malformed;
    }
    if found.Versioned? {
      SupportedRange();
      var comparison := CompareAPIVersions(found.version, MINIMUM_API_VERSION);
      if comparison.None? {
        return Malformed;
      }
      if comparison.value < 0 {
        return TooOld;
      }
      comparison := CompareAPIVersions(found.version, ADVERTISED_API_VERSION);
      if comparison.None? {
        return Malformed;
      }
      if comparison.value > 0 {
        return TooNew;
      }
    }
    return Forwarded;
  }

  lemma SupportedRange()
    ensures ParsedVersion(MINIMUM_API_VERSION) == Some([1, 24])
    ensures ParsedVersion(ADVERTISED_API_VERSION) == Some([1, 44])
  {
    SmallNumbers();
    TwoComponents("1", "24", 1, 24);
    TwoComponents("1", "44", 1, 44);
    assert MINIMUM_API_VERSION == "1" + ['.'] + "24";
    assert ADVERTISED_API_VERSION == "1" + ['.'] + "44";
  }

  lemma TwoComponents(a: string, b: string, m: int, n: int)
    requires '.' !in a && '.' !in b && Component(a) == Some(m) && Component(b) == Some(n)
    ensures Split(a + ['.'] + b) == [a, b] && ParsedVersion(a + ['.'] + b) == Some([m, n])
  {
    SplitAt(a, b);
    FindAfterPrefix(b, '.', "");
    assert Split(b) == [b];
    assert [a] + [b] == [a, b];
    PairComponents(a, b);
  }

  lemma SplitAt(a: string, b: string)
    requires '.' !in a
    ensures Split(a + ['.'] + b) == [a] + Split(b)
  {
    FindAfterPrefix(a, '.', b);
    var s := a + ['.'] + b;
    assert s[..|a|] == a && s[|a| + 1..] == b;
  }

  lemma PairComponents(a: string, b: string)
    requires Component(a).Some? && Component(b).Some?
    ensures Components([a, b]) == Some([Component(a).value, Component(b).value])
  {
    assert [a, b][1..] == [b] && [b][1..] == [];
    var x, y := Component(a).value, Component(b).value;
    assert [y] + [] == [y] && [x] + [y] == [x, y];
    assert Components([b]) == Some([y]);
  }

  ghost function GateOf(path: string): Gate {
    match VersionFromPath(path)
    case Unversioned => Forwarded
    case InvalidVersion => Malformed
    case Versioned(v) =>
      if ParsedVersion(v).None? then Malformed
      else if Compare(ParsedVersion(v).value, [1, 24]) < 0 then TooOld
      else if Compare(ParsedVersion(v).value, [1, 44]) > 0 then TooNew
      else Forwarded
  }

  /** A versioned request is forwarded exactly when its version lies between 1.24 and 1.44 in the order. */
  lemma GateMeaning(v: string, rest: string)
    requires ValidVersion(v) && (rest == "" || rest[0] == '/')
    ensures var parts, g := ParsedVersion(v).value, GateOf("/v" + v + rest);
      && (g == Forwarded <==> !LexLess(parts, [1, 24]) && !LexLess([1, 44], parts))
      && (g == TooOld <==> LexLess(parts, [1, 24]))
      && (g == TooNew <==> LexLess([1, 44], parts))
  {
    PathRoundTrip(v, rest);
    var parts := ParsedVersion(v).value;
    CompareMeaning(parts, [1, 24]);
    CompareMeaning(parts, [1, 44]);
    CompareFromMeaning(parts, [1, 24], 0);
    CompareFromMeaning(parts, [1, 44], 0);
    BoundsOrdered(parts);
  }

  /** Nothing is below the lower bound and above the upper one. */
  lemma BoundsOrdered(parts: seq<int>)
    ensures !(LexLess(parts, [1, 24]) && LexLess([1, 44], parts))
  {
    if LexLess(parts, [1, 24]) && LexLess([1, 44], parts) {
      BoundsApart();
      LexTransitive([1, 44], parts, [1, 24]);
    }
  }

  lemma BoundsApart()
    ensures !LexLess([1, 44], [1, 24]) && !SameVersion([1, 44], [1, 24])
  {
    assert At([1, 44], 0) == At([1, 24], 0) && At([1, 44], 1) == 44 && At([1, 24], 1) == 24;
    forall k: nat
      ensures !SmallerAt([1, 44], [1, 24], k)
    {
      assert k >= 2 ==> At([1, 44], k) == At([1, 24], k) == 0;
    }
  }

  /** Every path under "/v" has a segment that ends at the next slash. */
  lemma PathSegment(path: string) returns (segment: string, rest: string)
    requires "/v" <= path
    ensures path == "/v" + segment + rest && '/' !in segment && (rest == "" || rest[0] == '/')
  {
    var tail := path[2..];
    var slash := Find(tail, '/');
    segment, rest := if slash < 0 then tail else tail[..slash], if slash < 0 then "" else tail[slash..];
    assert path == "/v" + tail;
  }

  /** Any other path carries no version: it is forwarded and stays as it is. */
  lemma PlainPath(path: string)
    requires !("/v" <= path)
    ensures VersionFromPath(path) == Unversioned && UnversionedPath(path) == path && GateOf(path) == Forwarded
  {
  }

  /**
   A segment that is empty or has a character other than digits and dots is no version; the path is forwarded
   as it is. One of digits and dots that does not parse is refused.
   */
  lemma SegmentMeaning(segment: string, rest: string)
    requires '/' !in segment && (rest == "" || rest[0] == '/')
    ensures var path := "/v" + segment + rest;
      if segment == "" || exists c <- segment :: !('0' <= c <= '9') && c != '.' then
        VersionFromPath(path) == Unversioned && UnversionedPath(path) == path && GateOf(path) == Forwarded
      else if ParsedVersion(segment).None? then
        VersionFromPath(path) == InvalidVersion && UnversionedPath(path) == path && GateOf(path) == Malformed
      else
        VersionFromPath(path) == Versioned(segment) && UnversionedPath(path) == if rest == "" then "/" else rest
  {
    var path := "/v" + segment + rest;
    assert path[2..] == segment + rest;
    VersionEnds(segment, rest, path[2..]);
    CharactersMeaning(segment);
    if segment != "" && VersionCharacters(segment) && ParsedVersion(segment).Some? {
      PathRoundTrip(segment, rest);
    }
  }

  lemma CharactersMeaning(s: string)
    ensures VersionCharacters(s) <==> forall c <- s :: '0' <= c <= '9' || c == '.'
  {
    if VersionCharacters(s) {
      forall c <- s
        ensures '0' <= c <= '9' || c == '.'
      {
        var i :| 0 <= i < |s| && s[i] == c;
      }
    } else {
      var i :| 0 <= i < |s| && !(IsDigit(s[i]) || s[i] == '.');
      assert s[i] in s;
    }
  }

  // ---------------------------------------------------------------------------------------------
  // Which texts are versions
  // ---------------------------------------------------------------------------------------------

  /** Parts joined by dots. */
  ghost function Joined(parts: seq<string>): string
    requires parts != []
  {
    if |parts| == 1 then parts[0] else parts[0] + ['.'] + Joined(parts[1..])
  }

  /** Splitting cuts at every dot and nowhere else. */
  lemma {:induction false} SplitMeaning(s: string)
    ensures Joined(Split(s)) == s && forall i | 0 <= i < |Split(s)| :: '.' !in Split(s)[i]
    decreases |s|
  {
    var i := Find(s, '.');
    if i >= 0 {
      SplitMeaning(s[i + 1..]);
      assert s == s[..i] + ['.'] + s[i + 1..];
      assert Split(s)[1..] == Split(s[i + 1..]);
    }
  }

  /** A component of digits is its value, within the range of a 64-bit int; an empty one is refused. */
  lemma ComponentMeaning(part: string)
    requires AllDigits(part)
    ensures Component(part)
         == if part == "" || DigitsValue(part) > 0x7FFF_FFFF_FFFF_FFFF then None else Some(DigitsValue(part))
  {
  }

  /** Beyond the first character, which may be a sign, anything but a digit is refused; so is a negative number. */
  lemma ComponentRefused(part: string, i: nat)
    requires i < |part|
    ensures !IsDigit(part[i]) && (i > 0 || part[0] !in {'+', '-'}) ==> Component(part).None?
    ensures part[0] == '-' && AllDigits(part[1..]) && |part| > 1 && DigitsValue(part[1..]) > 0 ==> Component(part).None?
  {
    if i > 0 && part[0] in {'+', '-'} {
      assert part[1..][i - 1] == part[i];
    }
  }

  /** A version parses exactly if every component does, and to their values. */
  lemma {:induction false} ComponentsMeaning(parts: seq<string>)
    ensures Components(parts).Some? <==> forall i | 0 <= i < |parts| :: Component(parts[i]).Some?
    ensures Components(parts).Some? ==>
              && |Components(parts).value| == |parts|
              && forall i | 0 <= i < |parts| :: Component(parts[i]) == Some(Components(parts).value[i])
  {
    if parts != [] {
      ComponentsMeaning(parts[1..]);
      assert parts == [parts[0]] + parts[1..];
      assert forall i | 0 <= i < |parts| - 1 :: parts[1..][i] == parts[i + 1];
    }
  }

  /** Numbers in decimal notation, joined by dots. */
  ghost function Dotted(ns: seq<nat>): string
    requires ns != []
  {
    if |ns| == 1 then Decimal(ns[0]) else Decimal(ns[0]) + ['.'] + Dotted(ns[1..])
  }

  lemma {:induction false} SameValue(s: string)
    requires AllDigits(s)
    ensures DigitsValue(s) == DecimalValue(s)
  {
    if s != "" {
      SameValue(s[..|s| - 1]);
    }
  }

  lemma DecimalComponent(n: nat)
    requires n <= INT_MAX
    ensures Component(Decimal(n)) == Some(n) && '.' !in Decimal(n)
  {
    DecimalMeaning(n);
    SameValue(Decimal(n));
  }

  /** Parsing undoes printing, for versions of any length. */
  lemma {:induction false} ParsePrinted(ns: seq<nat>)
    requires ns != [] && forall i | 0 <= i < |ns| :: ns[i] <= INT_MAX
    ensures ParsedVersion(Dotted(ns)).Some? && ParsedVersion(Dotted(ns)).value == ns
  {
    DecimalComponent(ns[0]);
    if |ns| == 1 {
      NoDot(Decimal(ns[0]));
      assert Components([Decimal(ns[0])][1..]) == Some([]);
    } else {
      ParsePrinted(ns[1..]);
      SplitAt(Decimal(ns[0]), Dotted(ns[1..]));
      PrintedCons(Decimal(ns[0]), Split(Dotted(ns[1..])), ns[0], ns[1..]);
    }
  }

  lemma NoDot(s: string)
    requires '.' !in s
    ensures Split(s) == [s]
  {
  }

  lemma PrintedCons(part: string, parts: seq<string>, n: nat, ns: seq<nat>)
    requires Component(part) == Some(n) && Components(parts).Some? && Components(parts).value == ns
    ensures Components([part] + parts).Some? && Components([part] + parts).value == [n] + ns
  {
    assert ([part] + parts)[1..] == parts;
  }

  // ---------------------------------------------------------------------------------------------
  // The stream package's own parser
  // ---------------------------------------------------------------------------------------------

  datatype MajorMinor = MajorMinor(major: int, minor: int)

  function ParseMajorMinor(version: string): Option<MajorMinor> {
    var text := if "v" <= version then version[1..] else version;
    var dot := Find(text, '.');
    if dot < 0 then None
    else
      var major, minor := Atoi(text[..dot]), Atoi(text[dot + 1..]);
      if major.None? || minor.None? then None else Some(MajorMinor(major.value, minor.value))
  }

  predicate ApiVersionAtLeast(version: string, minimum: string) {
    if TrimSpace(version) == "" then true
    else
      var current := ParseMajorMinor(version);
      if current.None? then false
      else
        var parsed := ParseMajorMinor(minimum);
        var floor := if parsed.None? then MajorMinor(0, 0) else parsed.value;
        current.value.major > floor.major
        || (current.value.major == floor.major && current.value.minor >= floor.minor)
  }

  lemma {:induction false} NotBlank(s: string)
    requires s != "" && !IsSpace(s[0])
    ensures TrimRight(s) != "" && TrimSpace(s) != ""
  {
    if |s| > 1 && IsSpace(s[|s| - 1]) {
      NotBlank(s[..|s| - 1]);
    }
  }

  /** A version the first parser accepts starts with a digit or a sign. */
  lemma FirstCharacter(v: string)
    requires ParsedVersion(v).Some?
    ensures v != "" && !IsSpace(v[0]) && !("v" <= v)
  {
    var i := Find(v, '.');
    var first := if i < 0 then v else v[..i];
    assert Split(v)[0] == first;
    assert Atoi(first).Some?;
    assert first[0] == v[0];
    assert IsDigit(v[0]) || v[0] == '-' || v[0] == '+' by {
      if first[0] != '-' && first[0] != '+' {
        assert AllDigits(first);
      }
    }
  }

  /** Both parsers read two-component versions alike; the second reads no others. */
  lemma MajorMinorOf(v: string)
    requires ParsedVersion(v).Some?
    ensures var p := ParsedVersion(v).value;
      ParseMajorMinor(v) == if |p| == 2 then Some(MajorMinor(p[0], p[1])) else None
  {
    FirstCharacter(v);
    ComponentCount(Split(v));
    var i := Find(v, '.');
    if i >= 0 {
      var major, minor := v[..i], v[i + 1..];
      assert v == major + ['.'] + minor;
      SplitAt(major, minor);
      assert Split(v)[1..] == Split(minor);
      var j := Find(minor, '.');
      if j < 0 {
        assert Split(minor) == [minor];
        assert Split(v) == [major, minor];
        PairComponents(major, minor);
      } else {
        assert |Split(v)| >= 3;
        DotIsNoNumber(minor, j);
      }
    }
  }

  lemma {:induction false} ComponentCount(parts: seq<string>)
    requires Components(parts).Some?
    ensures |Components(parts).value| == |parts|
  {
    if parts != [] {
      ComponentCount(parts[1..]);
    }
  }

  lemma DotIsNoNumber(s: string, j: nat)
    requires j < |s| && s[j] == '.'
    ensures Atoi(s).None?
  {
    if s[0] == '-' || s[0] == '+' {
      assert s[1..][j - 1] == '.';
    }
  }

  /**
   The two parsers agree on every two-component version; on any other version the first accepts, they
   agree exactly when it is below the minimum.
   */
  lemma ParsersAgree(v: string, minimum: string)
    requires ParsedVersion(v).Some? && ParsedVersion(minimum).Some? && |ParsedVersion(minimum).value| == 2
    ensures var p, m := ParsedVersion(v).value, ParsedVersion(minimum).value;
      (ApiVersionAtLeast(v, minimum) <==> Compare(p, m) >= 0) <==> |p| == 2 || Compare(p, m) < 0
  {
    FirstCharacter(v);
    NotBlank(v);
    MajorMinorOf(v);
    MajorMinorOf(minimum);
    var p, m := ParsedVersion(v).value, ParsedVersion(minimum).value;
    if |p| == 2 {
      assert Compare(p, m) == CompareFrom(p, m, 0);
      assert At(p, 0) == At(m, 0) ==> CompareFrom(p, m, 0) == CompareFrom(p, m, 1);
      assert At(p, 1) == At(m, 1) ==> CompareFrom(p, m, 1) == CompareFrom(p, m, 2) == 0;
    }
  }

  /** On printed two-component versions the stream package compares majors, then minors. */
  lemma AtLeastMeaning(major: nat, minor: nat, atMajor: nat, atMinor: nat)
    requires major <= INT_MAX && minor <= INT_MAX && atMajor <= INT_MAX && atMinor <= INT_MAX
    ensures ApiVersionAtLeast(Dotted([major, minor]), Dotted([atMajor, atMinor])) <==>
              major > atMajor || (major == atMajor && minor >= atMinor)
  {
    var v, m: string := Dotted([major, minor]), Dotted([atMajor, atMinor]);
    ParsePrinted([major, minor]);
    ParsePrinted([atMajor, atMinor]);
    MajorMinorOf(v);
    MajorMinorOf(m);
    FirstCharacter(v);
    NotBlank(v);
  }

  /** No version at all counts as the newest; one that is no pair of numbers as too old; a leading v is ignored. */
  lemma OddVersions(version: string, minimum: string)
    ensures TrimSpace(version) == "" ==> ApiVersionAtLeast(version, minimum)
    ensures TrimSpace(version) != "" && ParseMajorMinor(version).None? ==> !ApiVersionAtLeast(version, minimum)
    ensures !("v" <= version) ==> ParseMajorMinor("v" + version) == ParseMajorMinor(version)
    ensures '.' !in version ==> ParseMajorMinor(version).None?
  {
    assert ("v" + version)[1..] == version;
    if "v" <= version && '.' !in version {
      assert forall c <- version[1..] :: c in version;
    }
  }

  /** A three-component version equal to the minimum, which the second parser rejects. */
  lemma ParsersDisagreeExample(v: string)
    requires v == "1.42.0"
    ensures ParsedVersion(v) == Some([1, 42, 0]) && Compare([1, 42, 0], [1, 42]) == 0
    ensures !ApiVersionAtLeast(v, "1.42")
  {
    ThreeComponents(v);
    FirstCharacter(v);
    NotBlank(v);
    MajorMinorOf(v);
    CompareMeaning([1, 42, 0], [1, 42]);
    assert SameVersion([1, 42, 0], [1, 42]);
  }

  /** Two ordinary paths that carry no version, one of which starts with a v. */
  lemma PlainPathExamples()
    ensures GateOf("/containers/json") == Forwarded && UnversionedPath("/containers/json") == "/containers/json"
    ensures GateOf("/version") == Forwarded && UnversionedPath("/version") == "/version"
  {
    var plain, version := "/containers/json", "/version";
    assert plain[1] == 'c';
    PlainPath(plain);
    assert version == "/v" + "ersion" + "" && "ersion"[0] == 'e';
    SegmentMeaning("ersion", "");
  }

  lemma ThreeComponents(v: string)
    requires v == "1.42.0"
    ensures ParsedVersion(v) == Some([1, 42, 0])
  {
    var tail := "42" + ['.'] + "0";
    assert v == "1" + ['.'] + tail;
    SmallNumbers();
    TwoComponents("42", "0", 42, 0);
    SplitAt("1", tail);
    assert Split(v)[1..] == Split(tail);
    assert [1] + [42, 0] == [1, 42, 0];
  }

  lemma SmallNumbers()
    ensures Component("1") == Some(1) && Component("0") == Some(0) && Component("42") == Some(42)
    ensures Component("24") == Some(24) && Component("44") == Some(44)
  {
    DigitsTwo("42");
    DigitsTwo("24");
    DigitsTwo("44");
    DigitsOne("1");
    DigitsOne("0");
  }

  lemma DigitsOne(s: string)
    requires |s| == 1 && AllDigits(s)
    ensures DigitsValue(s) == (s[0] - '0') as int
  {
    assert s[..0] == "";
  }

  lemma DigitsTwo(s: string)
    requires |s| == 2 && AllDigits(s)
    ensures DigitsValue(s) == (s[0] - '0') as int * 10 + (s[1] - '0') as int
  {
    DigitsOne(s[..1]);
  }
}
