/** The texts that are versions, and the number each of them stands for. */
module VersionText {
  import opened Prelude
  import opened SemVer

  // ----- Cutting at the first delimiter -----

  lemma {:induction false} CutAt(s: string, d: char, t: string)
    requires d !in s
    ensures Cut(s + [d] + t, d) == (s, Some(t))
  {
    var u := s + [d] + t;
    if s == "" {
      assert u[1..] == t;
    } else {
      assert u[1..] == s[1..] + [d] + t;
      CutAt(s[1..], d, t);
      assert [s[0]] + s[1..] == s;
    }
  }

  lemma {:induction false} CutNone(s: string, d: char)
    requires d !in s
    ensures Cut(s, d) == (s, None)
  {
    if s != "" {
      CutNone(s[1..], d);
      assert [s[0]] + s[1..] == s;
    }
  }

  /** What Cut returns, put together again, is the text; and the part before has no delimiter. */
  lemma {:induction false} CutParts(s: string, d: char)
    ensures var (before, after) := Cut(s, d);
            d !in before && s == before + (if after.Some? then [d] + after.value else "")
  {
    if s != "" {
      assert s == [s[0]] + s[1..];
      if s[0] != d { CutParts(s[1..], d); }
    }
  }

  // ----- Identifiers -----

  predicate Allowed(c: char) {
    '0' <= c <= '9' || 'A' <= c <= 'Z' || 'a' <= c <= 'z' || c == '-'
  }

  /** One or more identifiers of letters, digits and hyphens, separated by dots: no part is empty. */
  predicate Identifiers(s: string) {
    && |s| > 0 && s[0] != '.' && s[|s| - 1] != '.'
    && (forall i :: 0 <= i < |s| ==> Allowed(s[i]) || s[i] == '.')
    && (forall i :: 0 <= i < |s| - 1 ==> s[i] != '.' || s[i + 1] != '.')
  }

  lemma {:induction false} SplitHead(s: string)
    requires s != ""
    ensures Split(s)[0] == "" <==> s[0] == '.'
  {
  }

  lemma {:induction false} SplitExactly(s: string)
    requires s != ""
    ensures (forall p :: p in Split(s) ==> WellFormed(p)) <==> Identifiers(s)
    decreases |s|, 2
  {
    var tail := s[1..];
    assert s == [s[0]] + tail;
    if tail == "" {
      assert s == [s[0]];
      assert Split(s) == if s[0] == '.' then ["", ""] else [s];
      assert s in [s] && "" in ["", ""];
    } else {
      SplitExactly(tail);
      if s[0] == '.' {
        assert Split(s)[0] == "" && "" in Split(s);
      } else {
        SplitStep(s);
        IdentifiersStep(s);
      }
    }
  }

  /** A character in front of the first part. */
  lemma SplitStep(s: string)
    requires |s| > 1 && s[0] != '.'
    ensures var rest := Split(s[1..]);
            (forall p :: p in Split(s) ==> WellFormed(p)) <==>
            IdentifierChar(s[0]) && (s[1] == '.' || WellFormed(rest[0])) && forall p :: p in rest[1..] ==> WellFormed(p)
  {
    var rest := Split(s[1..]);
    var first := [s[0]] + rest[0];
    SplitHead(s[1..]);
    assert Split(s) == [first] + rest[1..];
    assert first in Split(s);
    assert forall p :: p in Split(s) <==> p == first || p in rest[1..];
    assert WellFormed(first) <==> IdentifierChar(s[0]) && (rest[0] == "" || WellFormed(rest[0])) by {
      assert first[0] == s[0];
      assert forall i :: 0 <= i < |rest[0]| ==> first[i + 1] == rest[0][i];
      assert forall i :: 1 <= i < |first| ==> first[i] == rest[0][i - 1];
    }
  }

  lemma IdentifiersStep(s: string)
    requires |s| > 1 && s[0] != '.'
    requires (forall p :: p in Split(s[1..]) ==> WellFormed(p)) <==> Identifiers(s[1..])
    ensures var rest := Split(s[1..]);
            IdentifierChar(s[0]) && (s[1] == '.' || WellFormed(rest[0]))
            && (forall p :: p in rest[1..] ==> WellFormed(p)) <==>
            Identifiers(s)
    decreases |s|, 1
  {
    var tail := s[1..];
    var rest := Split(tail);
    SplitHead(tail);
    assert rest == [rest[0]] + rest[1..];
    if s[1] == '.' {
      DotStep(s);
    } else {
      assert forall p :: p in rest <==> p == rest[0] || p in rest[1..];
      assert Identifiers(s) <==> IdentifierChar(s[0]) && Identifiers(tail) by { PlainStep(s); }
    }
  }

  lemma PlainStep(s: string)
    requires |s| > 1 && s[0] != '.' && s[1] != '.'
    ensures Identifiers(s) <==> IdentifierChar(s[0]) && Identifiers(s[1..])
  {
    var tail := s[1..];
    assert forall i :: 0 <= i < |tail| ==> tail[i] == s[i + 1];
    assert forall i :: 1 <= i < |s| ==> s[i] == tail[i - 1];
  }

  lemma DotStep(s: string)
    requires |s| > 1 && s[0] != '.' && s[1] == '.'
    requires (forall p :: p in Split(s[1..]) ==> WellFormed(p)) <==> Identifiers(s[1..])
    ensures IdentifierChar(s[0]) && (forall p :: p in Split(s[1..])[1..] ==> WellFormed(p)) <==> Identifiers(s)
    decreases |s|, 0
  {
    var after := s[2..];
    assert s[1..][1..] == after;
    assert Split(s[1..])[1..] == Split(after);
    if after == "" {
      assert "" in Split(after);
      assert s[|s| - 1] == '.';
    } else {
      SplitExactly(after);
      assert forall i :: 0 <= i < |after| ==> after[i] == s[i + 2];
      assert forall i :: 2 <= i < |s| ==> s[i] == after[i - 2];
    }
  }

  // ----- Versions -----

  /** The parts of a version as it is written. */
  datatype Text = Text(major: string, minor: string, patch: string, pre: Option<string>, meta: Option<string>) {
    /** Three numbers of digits that fit into 64 bits; pre-release and metadata may be empty but not malformed. */
    predicate Valid() {
      && AllDigits(major) && AllDigits(minor) && AllDigits(patch)
      && Digits(major) <= MAX_INT64 && Digits(minor) <= MAX_INT64 && Digits(patch) <= MAX_INT64
      && (pre.Some? && pre.value != "" ==> Identifiers(pre.value))
      && (meta.Some? && meta.value != "" ==> Identifiers(meta.value))
    }

    function Core(): string {
      major + "." + minor + "." + patch
    }

    function Render(): string {
      Core() + (if pre.Some? then "-" + pre.value else "") + (if meta.Some? then "+" + meta.value else "")
    }

    function Meaning(): Version
      requires Valid()
    {
      Version(Digits(major), Digits(minor), Digits(patch),
              if pre.Some? then pre.value else "", if meta.Some? then meta.value else "")
    }
  }

  lemma NumberParses(s: string)
    requires '-' !in s && '+' !in s
    ensures ParseInt64(s) == if AllDigits(s) && Digits(s) <= MAX_INT64 then Some(Digits(s)) else None
  {
    if s != "" { assert s[0] in s; }
  }

  lemma DigitsHave(s: string, c: char)
    requires AllDigits(s) && !IsDigit(c)
    ensures c !in s
  {
  }

  lemma IdentifiersHave(s: string)
    requires Identifiers(s)
    ensures '+' !in s
  {
  }

  /** Reading what is written: every valid text parses to what it means. */
  lemma ParseRender(t: Text)
    requires t.Valid()
    ensures Parse(t.Render()) == Some(t.Meaning())
  {
    var pre := if t.pre.Some? then "-" + t.pre.value else "";
    var rest := t.Core() + pre;
    CoreHas(t, '+');
    CoreHas(t, '-');
    assert '+' !in pre by {
      if t.pre.Some? && t.pre.value != "" { IdentifiersHave(t.pre.value); }
    }
    RestCuts(t, rest);
    CoreParses(t);
    ValidMeans(t.pre);
    ValidMeans(t.meta);
  }

  lemma RestCuts(t: Text, rest: string)
    requires rest == t.Core() + (if t.pre.Some? then "-" + t.pre.value else "") && '+' !in rest && '-' !in t.Core()
    ensures Cut(t.Render(), '+') == (rest, t.meta) && Cut(rest, '-') == (t.Core(), t.pre)
  {
    if t.meta.Some? {
      assert t.Render() == rest + ['+'] + t.meta.value;
      CutAt(rest, '+', t.meta.value);
    } else {
      assert t.Render() == rest;
      CutNone(rest, '+');
    }
    if t.pre.Some? {
      assert rest == t.Core() + ['-'] + t.pre.value;
      CutAt(t.Core(), '-', t.pre.value);
    } else {
      assert rest == t.Core();
      CutNone(t.Core(), '-');
    }
  }

  lemma ValidMeans(s: Option<string>)
    ensures var id := if s.Some? then s.value else ""; ValidIdentifiers(id) <==> id == "" || Identifiers(id)
  {
    if s.Some? && s.value != "" { SplitExactly(s.value); }
  }

  lemma CoreHas(t: Text, c: char)
    requires t.Valid() && !IsDigit(c) && c != '.'
    ensures c !in t.Core()
  {
    DigitsHave(t.major, c);
    DigitsHave(t.minor, c);
    DigitsHave(t.patch, c);
  }

  lemma CoreParses(t: Text)
    requires t.Valid()
    ensures Cut(t.Core(), '.') == (t.major, Some(t.minor + "." + t.patch))
    ensures Cut(t.minor + "." + t.patch, '.') == (t.minor, Some(t.patch))
    ensures ParseInt64(t.major) == Some(Digits(t.major)) && ParseInt64(t.minor) == Some(Digits(t.minor))
    ensures ParseInt64(t.patch) == Some(Digits(t.patch))
  {
    DigitsHave(t.major, '.');
    DigitsHave(t.minor, '.');
    assert t.Core() == t.major + ['.'] + (t.minor + "." + t.patch);
    CutAt(t.major, '.', t.minor + "." + t.patch);
    assert t.minor + "." + t.patch == t.minor + ['.'] + t.patch;
    CutAt(t.minor, '.', t.patch);
    forall s | s == t.major || s == t.minor || s == t.patch ensures ParseInt64(s) == Some(Digits(s)) {
      DigitsHave(s, '-');
      DigitsHave(s, '+');
      NumberParses(s);
    }
  }

  /** The parts of a text with at least two dots before any pre-release or metadata. */
  lemma CutText(s: string) returns (t: Text, core: string, rest: string)
    requires Parse(s).Some?
    ensures Cut(s, '+') == (rest, t.meta) && Cut(rest, '-') == (core, t.pre)
    ensures exists m :: Cut(core, '.') == (t.major, Some(m)) && Cut(m, '.') == (t.minor, Some(t.patch))
  {
    var (rest', meta) := Cut(s, '+');
    var (core', pre) := Cut(rest', '-');
    var (major, afterMajor) := Cut(core', '.');
    var (minor, patch) := Cut(afterMajor.value, '.');
    t, core, rest := Text(major, minor, patch.value, pre, meta), core', rest';
  }

  lemma CutCore(t: Text, core: string, m: string)
    requires Cut(core, '.') == (t.major, Some(m)) && Cut(m, '.') == (t.minor, Some(t.patch))
    ensures core == t.Core()
  {
    CutParts(core, '.');
    CutParts(m, '.');
    assert m == t.minor + "." + t.patch;
    assert t.major + ("." + m) == t.major + "." + t.minor + "." + t.patch;
  }

  function Suffix(d: char, s: Option<string>): string {
    if s.Some? then [d] + s.value else ""
  }

  lemma CutSuffix(s: string, d: char, before: string, after: Option<string>)
    requires Cut(s, d) == (before, after)
    ensures s == before + Suffix(d, after) && d !in before
  {
    CutParts(s, d);
  }

  lemma CutRenders(s: string, t: Text, core: string, rest: string)
    requires s == rest + Suffix('+', t.meta) && rest == core + Suffix('-', t.pre) && core == t.Core()
    ensures s == t.Render()
  {
  }

  /** Nothing else parses: a version comes from a valid text that means it. */
  lemma ParsedText(s: string) returns (t: Text)
    requires Parse(s).Some?
    ensures t.Valid() && s == t.Render() && Parse(s) == Some(t.Meaning())
  {
    var core, rest;
    t, core, rest := CutText(s);
    var m :| Cut(core, '.') == (t.major, Some(m)) && Cut(m, '.') == (t.minor, Some(t.patch));
    CutCore(t, core, m);
    CutSuffix(rest, '-', core, t.pre);
    CutSuffix(s, '+', rest, t.meta);
    CutRenders(s, t, core, rest);
    PartsUnsigned(t, core, rest);
    NumberParses(t.major);
    NumberParses(t.minor);
    NumberParses(t.patch);
    ValidMeans(t.pre);
    ValidMeans(t.meta);
  }

  lemma PartsUnsigned(t: Text, core: string, rest: string)
    requires core == t.Core() && '-' !in core && '+' !in rest && core <= rest
    ensures '-' !in t.major && '-' !in t.minor && '-' !in t.patch
    ensures '+' !in t.major && '+' !in t.minor && '+' !in t.patch
  {
    assert forall c :: c in t.major || c in t.minor || c in t.patch ==> c in core;
    assert forall c :: c in core ==> c in rest;
  }

  /** A text parses to a version if and only if it is a valid text of three numbers and means that version. */
  lemma ParseExactly(s: string, v: Version)
    ensures Parse(s) == Some(v) <==> exists t: Text :: t.Valid() && s == t.Render() && v == t.Meaning()
  {
    if Parse(s) == Some(v) {
      var t := ParsedText(s);
    }
    forall t: Text | t.Valid() && s == t.Render() ensures Parse(s) == Some(t.Meaning()) { ParseRender(t); }
  }
}
