/** Go's ordering of integers and strings as three-way comparisons. */
module GoStrings {

  function CompareInts(a: int, b: int): int {
    if a > b then 1 else if a < b then -1 else 0
  }

  /** Go's string order. */
  function CompareStrings(a: string, b: string): int {
    if a == "" then (if b == "" then 0 else -1)
    else if b == "" then 1
    else if a[0] != b[0] then CompareInts(a[0] as int, b[0] as int)
    else CompareStrings(a[1..], b[1..])
  }

  /** CompareStrings is a total order. */
  lemma {:induction false} StringsOrder(a: string, b: string, c: string)
    ensures CompareStrings(b, a) == -CompareStrings(a, b)
    ensures CompareStrings(a, b) == 0 <==> a == b
    ensures CompareStrings(a, b) < 0 && CompareStrings(b, c) < 0 ==> CompareStrings(a, c) < 0
  {
    if a != "" && b != "" {
      StringsOrder(a[1..], b[1..], if c == "" then "" else c[1..]);
      assert a == [a[0]] + a[1..] && b == [b[0]] + b[1..];
    }
  }

  lemma StringsLeTransitive(a: string, b: string, c: string)
    requires CompareStrings(a, b) <= 0 && CompareStrings(b, c) <= 0
    ensures CompareStrings(a, c) <= 0
  {
    StringsOrder(a, b, c);
    StringsOrder(b, c, a);
  }

  /** The first position at which the strings differ. */
  ghost predicate DiffersAt(a: string, b: string, i: nat) {
    i < |a| && i < |b| && a[..i] == b[..i] && a[i] != b[i]
  }

  predicate ProperPrefix(a: string, b: string) {
    |a| < |b| && a == b[..|a|]
  }

  /**
   * One string is below another if it is a proper prefix of it, or has the smaller character where
   * they first differ.
   */
  lemma {:induction false} StringsExactly(a: string, b: string)
    ensures CompareStrings(a, b) < 0 <==> ProperPrefix(a, b) || exists i: nat :: DiffersAt(a, b, i) && a[i] < b[i]
  {
    if a != "" && b != "" {
      if a[0] != b[0] {
        assert DiffersAt(a, b, 0);
        forall i: nat | DiffersAt(a, b, i) ensures i == 0 { FirstDiffers(a, b, i); }
      } else {
        StringsExactly(a[1..], b[1..]);
        PrefixTail(a, b);
        DiffersTail(a, b);
      }
    } else {
      assert a == "" ==> a == b[..0];
    }
  }

  lemma FirstDiffers(a: string, b: string, i: nat)
    requires DiffersAt(a, b, i)
    ensures i == 0 || a[0] == b[0]
  {
    if i > 0 { assert a[..i][0] == b[..i][0]; }
  }

  lemma PrefixTail(a: string, b: string)
    requires a != "" && b != "" && a[0] == b[0]
    ensures ProperPrefix(a, b) <==> ProperPrefix(a[1..], b[1..])
  {
    if |a| < |b| {
      assert a == [a[0]] + a[1..];
      assert b[..|a|] == [b[0]] + b[1..][..|a| - 1];
      assert b[1..][..|a| - 1] == b[1..|a|];
    }
  }

  lemma DiffersTail(a: string, b: string)
    requires a != "" && b != "" && a[0] == b[0]
    ensures (exists i: nat :: DiffersAt(a, b, i) && a[i] < b[i]) <==>
            (exists i: nat :: DiffersAt(a[1..], b[1..], i) && a[1..][i] < b[1..][i])
  {
    forall i: nat | DiffersAt(a[1..], b[1..], i)
      ensures DiffersAt(a, b, i + 1) && a[1..][i] == a[i + 1] && b[1..][i] == b[i + 1]
    {
      assert a[..i + 1] == [a[0]] + a[1..][..i];
      assert b[..i + 1] == [b[0]] + b[1..][..i];
    }
    forall i: nat | DiffersAt(a, b, i)
      ensures i > 0 && DiffersAt(a[1..], b[1..], i - 1) && a[1..][i - 1] == a[i] && b[1..][i - 1] == b[i]
    {
      assert a[1..][..i - 1] == a[..i][1..];
      assert b[1..][..i - 1] == b[..i][1..];
    }
  }
}
