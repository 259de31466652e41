/**
 * Version labels: parsing and comparison as github.com/coreos/go-semver does them, next to an
 * independent definition of precedence from section 11 of Semantic Versioning 2.0.0.
 */
module SemVer {
  import opened Prelude
  import opened GoStrings

  datatype Version = Version(major: int, minor: int, patch: int, preRelease: string, metadata: string)

  // ----- Numbers and identifiers -----

  predicate IsDigit(c: char) {
    '0' <= c <= '9'
  }

  predicate AllDigits(s: string) {
    |s| > 0 && forall i :: 0 <= i < |s| ==> IsDigit(s[i])
  }

  function Digits(s: string): nat
    requires forall i :: 0 <= i < |s| ==> IsDigit(s[i])
  {
    if s == "" then 0
    else
      var last := s[|s| - 1];
      assert IsDigit(last);
      10 * Digits(s[..|s| - 1]) + (last as int - '0' as int)
  }

  /** strconv.ParseInt in base 10 and 64 bits: an optional sign and at least one digit, in range. */
  function ParseInt64(s: string): Option<int> {
    var body := if |s| > 0 && (s[0] == '-' || s[0] == '+') then s[1..] else s;
    if !AllDigits(body) then None
    else
      var v: int := if s[0] == '-' then -(Digits(body) as int) else Digits(body);
      if MIN_INT64 <= v <= MAX_INT64 then Some(v) else None
  }

  lemma UnsignedParses(s: string, n: int)
    requires AllDigits(s) && Digits(s) == n && n <= MAX_INT64
    ensures ParseInt64(s) == Some(n)
  {
    assert IsDigit(s[0]);
  }

  lemma SignedParses(s: string, n: int)
    requires AllDigits(s) && Digits(s) == n && n <= -MIN_INT64
    ensures ParseInt64("-" + s) == Some(-n)
  {
    var t := "-" + s;
    assert t[0] == '-' && t[1..] == s;
  }

  /** A numeral with an optional minus sign. */
  lemma NumeralParses(t: string, s: string, n: int)
    requires AllDigits(s) && Digits(s) == (if n < 0 then -n else n) && MIN_INT64 <= n <= MAX_INT64
    requires t == if n < 0 then "-" + s else s
    ensures ParseInt64(t) == Some(n)
  {
    if n < 0 { SignedParses(s, -n); } else { UnsignedParses(s, n); }
  }

  /** strings.Split(s, "."): always at least one part. */
  function Split(s: string): (parts: seq<string>)
    ensures |parts| > 0
  {
    if s == "" then [""]
    else if s[0] == '.' then [""] + Split(s[1..])
    else
      var rest := Split(s[1..]);
      [[s[0]] + rest[0]] + rest[1..]
  }

  /** The part of `s` before the first `d`, and the part after it if there is one. */
  function Cut(s: string, d: char): (string, Option<string>) {
    if s == "" then ("", None)
    else if s[0] == d then ("", Some(s[1..]))
    else
      var (before, after) := Cut(s[1..], d);
      ([s[0]] + before, after)
  }

  predicate IdentifierChar(c: char) {
    IsDigit(c) || 'A' <= c <= 'Z' || 'a' <= c <= 'z' || c == '-'
  }

  predicate WellFormed(id: string) {
    |id| > 0 && forall i :: 0 <= i < |id| ==> IdentifierChar(id[i])
  }

  predicate ValidIdentifiers(s: string) {
    s == "" || forall p :: p in Split(s) ==> WellFormed(p)
  }

  /** NewVersion. */
  function Parse(s: string): Option<Version> {
    var (rest, metadata) := Cut(s, '+');
    var (core, preRelease) := Cut(rest, '-');
    var (major, afterMajor) := Cut(core, '.');
    if afterMajor.None? then None
    else
      var (minor, patch) := Cut(afterMajor.value, '.');
      if patch.None? then None
      else
        var meta := if metadata.Some? then metadata.value else "";
        var pre := if preRelease.Some? then preRelease.value else "";
        var x, y, z := ParseInt64(major), ParseInt64(minor), ParseInt64(patch.value);
        if ValidIdentifiers(pre) && ValidIdentifiers(meta) && x.Some? && y.Some? && z.Some?
        then Some(Version(x.value, y.value, z.value, pre, meta))
        else None
  }

  // ----- The comparison of the library -----

  function CompareIdentifiers(a: string, b: string): int {
    var x, y := ParseInt64(a), ParseInt64(b);
    if x.Some? && y.None? then -1
    else if x.None? && y.Some? then 1
    else if x.Some? && x.value != y.value then CompareInts(x.value, y.value)
    else CompareStrings(a, b)
  }

  function ComparePreReleases(a: seq<string>, b: seq<string>): int {
    if a == [] then (if b == [] then 0 else -1)
    else if b == [] then 1
    else
      var c := CompareIdentifiers(a[0], b[0]);
      if c != 0 then c else ComparePreReleases(a[1..], b[1..])
  }

  function Compare(v: Version, w: Version): int {
    if v.major != w.major then CompareInts(v.major, w.major)
    else if v.minor != w.minor then CompareInts(v.minor, w.minor)
    else if v.patch != w.patch then CompareInts(v.patch, w.patch)
    else if v.preRelease == "" && w.preRelease != "" then 1
    else if v.preRelease != "" && w.preRelease == "" then -1
    else ComparePreReleases(Split(v.preRelease), Split(w.preRelease))
  }

  predicate LessThan(v: Version, w: Version) {
    Compare(v, w) < 0
  }

  // ----- It is a total order on everything but the metadata -----

  lemma IdentifiersOrder(a: string, b: string, c: string)
    ensures CompareIdentifiers(b, a) == -CompareIdentifiers(a, b)
    ensures CompareIdentifiers(a, b) == 0 <==> a == b
    ensures CompareIdentifiers(a, b) < 0 && CompareIdentifiers(b, c) < 0 ==> CompareIdentifiers(a, c) < 0
  {
    StringsOrder(a, b, c);
  }

  lemma {:induction false} PreReleasesOrder(a: seq<string>, b: seq<string>, c: seq<string>)
    ensures ComparePreReleases(b, a) == -ComparePreReleases(a, b)
    ensures ComparePreReleases(a, b) == 0 <==> a == b
    ensures ComparePreReleases(a, b) < 0 && ComparePreReleases(b, c) < 0 ==> ComparePreReleases(a, c) < 0
  {
    if a != [] && b != [] {
      IdentifiersOrder(a[0], b[0], if c == [] then "" else c[0]);
      if c != [] { IdentifiersOrder(b[0], c[0], ""); }
      PreReleasesOrder(a[1..], b[1..], if c == [] then [] else c[1..]);
      assert a == [a[0]] + a[1..] && b == [b[0]] + b[1..];
    }
  }

  function Join(parts: seq<string>): string
    requires |parts| > 0
  {
    if |parts| == 1 then parts[0] else parts[0] + "." + Join(parts[1..])
  }

  lemma {:induction false} JoinSplit(s: string)
    ensures Join(Split(s)) == s
  {
    if s != "" {
      var rest := Split(s[1..]);
      JoinSplit(s[1..]);
      assert s == [s[0]] + s[1..];
      if s[0] == '.' {
        assert Split(s)[1..] == rest;
      } else {
        assert Split(s)[1..] == rest[1..];
        if |rest| > 1 {
          assert [s[0]] + (rest[0] + "." + Join(rest[1..])) == ([s[0]] + rest[0]) + "." + Join(rest[1..]);
        }
      }
    }
  }

  /** Compare orders versions totally: it is antisymmetric and transitive, and only metadata is ignored. */
  lemma CompareOrder(a: Version, b: Version, c: Version)
    ensures Compare(b, a) == -Compare(a, b)
    ensures Compare(a, b) == 0 <==> a.(metadata := "") == b.(metadata := "")
    ensures LessThan(a, b) && LessThan(b, c) ==> LessThan(a, c)
  {
    PreReleasesOrder(Split(a.preRelease), Split(b.preRelease), Split(c.preRelease));
    JoinSplit(a.preRelease);
    JoinSplit(b.preRelease);
  }

  // ----- Against section 11 of Semantic Versioning 2.0.0 -----

  /** Identifiers of only digits compare numerically and below all others; the others compare in ASCII order. */
  function SpecCompareIdentifiers(a: string, b: string): int {
    if AllDigits(a) && AllDigits(b) then CompareInts(Digits(a), Digits(b))
    else if AllDigits(a) then -1
    else if AllDigits(b) then 1
    else CompareStrings(a, b)
  }

  function SpecComparePreReleases(a: seq<string>, b: seq<string>): int {
    if a == [] && b == [] then 0
    else if a == [] then -1
    else if b == [] then 1
    else if SpecCompareIdentifiers(a[0], b[0]) != 0 then SpecCompareIdentifiers(a[0], b[0])
    else SpecComparePreReleases(a[1..], b[1..])
  }

  /** Precedence by major, minor and patch, then a pre-release below its release, then the pre-release identifiers. */
  function SpecCompare(v: Version, w: Version): int {
    if (v.major, v.minor, v.patch) != (w.major, w.minor, w.patch) then
      if v.major < w.major || (v.major == w.major && v.minor < w.minor)
         || (v.major == w.major && v.minor == w.minor && v.patch < w.patch) then -1 else 1
    else if v.preRelease == w.preRelease then 0
    else if v.preRelease == "" then 1
    else if w.preRelease == "" then -1
    else SpecComparePreReleases(Split(v.preRelease), Split(w.preRelease))
  }

  /** A pre-release identifier allowed by section 9: well-formed, and without leading zeros when numeric. */
  predicate ValidIdentifier(id: string) {
    WellFormed(id) && (AllDigits(id) ==> id == "0" || id[0] != '0')
  }

  /** The library takes the identifier for a number exactly when the standard does. */
  predicate Plain(id: string) {
    ParseInt64(id).Some? <==> AllDigits(id)
  }

  lemma {:induction false} DigitsBound(s: string)
    requires AllDigits(s) && s[0] != '0'
    ensures Digits(s) >= 1 && (|s| >= 2 ==> Digits(s) >= 10)
  {
    if |s| >= 2 {
      assert s[..|s| - 1][0] == s[0];
      DigitsBound(s[..|s| - 1]);
    } else {
      assert s[..0] == "";
    }
  }

  lemma {:induction false} DigitsInjective(a: string, b: string)
    requires AllDigits(a) && AllDigits(b) && (a == "0" || a[0] != '0') && (b == "0" || b[0] != '0')
    requires Digits(a) == Digits(b)
    ensures a == b
  {
    if a != "0" { DigitsBound(a); }
    if b != "0" { DigitsBound(b); }
    var p, q := a[..|a| - 1], b[..|b| - 1];
    assert a == p + [a[|a| - 1]] && b == q + [b[|b| - 1]];
    if |a| >= 2 && |b| >= 2 {
      DigitsInjective(p, q);
    } else if |a| == 1 && |b| == 1 {
      assert p == "" && q == "";
    } else {
      assert p == "" || q == "";
    }
  }

  lemma PlainAgree(a: string, b: string)
    requires ValidIdentifier(a) && ValidIdentifier(b) && Plain(a) && Plain(b)
    ensures CompareIdentifiers(a, b) == SpecCompareIdentifiers(a, b)
  {
    if AllDigits(a) && AllDigits(b) && Digits(a) == Digits(b) {
      DigitsInjective(a, b);
      StringsOrder(a, b, "");
    }
  }

  /** A signed number is ranked below "0" instead of above all numbers; a number beyond 64 bits is ranked above "-". */
  lemma NotPlainDisagrees(a: string) returns (b: string)
    requires ValidIdentifier(a) && !Plain(a)
    ensures ValidIdentifier(b) && Plain(b)
    ensures CompareIdentifiers(a, b) != SpecCompareIdentifiers(a, b)
  {
    assert IdentifierChar(a[0]);
    if AllDigits(a) {
      b := "-";
      assert "-"[1..] == "";
    } else {
      b := "0";
      assert a[0] == '-';
      assert Digits("0") == 0 by { assert "0"[..0] == ""; }
    }
  }

  /**
   * The comparison of two identifiers follows section 11 exactly for plain identifiers: `a` is
   * plain if and only if it is ranked as the standard ranks it against every plain identifier.
   */
  lemma PlainExactlyWhenSpec(a: string)
    requires ValidIdentifier(a)
    ensures Plain(a) <==>
            forall b :: ValidIdentifier(b) && Plain(b) ==> CompareIdentifiers(a, b) == SpecCompareIdentifiers(a, b)
  {
    if Plain(a) {
      forall b | ValidIdentifier(b) && Plain(b) ensures CompareIdentifiers(a, b) == SpecCompareIdentifiers(a, b) {
        PlainAgree(a, b);
      }
    } else {
      var b := NotPlainDisagrees(a);
    }
  }

  ghost predicate PlainVersion(v: Version) {
    v.preRelease != "" ==> forall p :: p in Split(v.preRelease) ==> ValidIdentifier(p) && Plain(p)
  }

  lemma {:induction false} PlainPreReleasesAgree(a: seq<string>, b: seq<string>)
    requires forall p :: p in a || p in b ==> ValidIdentifier(p) && Plain(p)
    ensures ComparePreReleases(a, b) == SpecComparePreReleases(a, b)
  {
    if a != [] && b != [] {
      PlainAgree(a[0], b[0]);
      PlainPreReleasesAgree(a[1..], b[1..]);
    }
  }

  /** Versions with plain identifiers are compared as section 11 prescribes. */
  lemma CompareFollowsSpec(v: Version, w: Version)
    requires PlainVersion(v) && PlainVersion(w)
    ensures Compare(v, w) == SpecCompare(v, w)
  {
    if v.preRelease != "" && w.preRelease != "" {
      PlainPreReleasesAgree(Split(v.preRelease), Split(w.preRelease));
    }
    if v.preRelease == w.preRelease {
      PreReleasesOrder(Split(v.preRelease), Split(w.preRelease), []);
    }
  }
}
