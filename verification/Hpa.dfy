/** HPAReplicas (pkg/manifests/transform/hpa-replicas.go): rewriting the bounds of an autoscaler. */
module Hpa {
  import opened Prelude

  const MAX_INT32 := 0x7FFF_FFFF
  const MIN_INT32 := -0x8000_0000
  const TWO_64 := 0x1_0000_0000_0000_0000

  type Int64 = n: int | MIN_INT64 <= n <= MAX_INT64
  type Int32 = n: int | MIN_INT32 <= n <= MAX_INT32

  /** Go's wrap-around of 64-bit addition and subtraction. */
  function Wrap(n: int): (r: Int64)
    ensures (r - n) % TWO_64 == 0
    ensures MIN_INT64 <= n <= MAX_INT64 <==> r == n
  {
    (n - MIN_INT64) % TWO_64 + MIN_INT64
  }

  /** An integer field of an unstructured object; NestedInt64 fails on a value of another type. */
  datatype IntField = Absent | Number(n: Int64) | NotANumber

  datatype Bounds = Bounds(min: IntField, max: IntField)

  datatype HpaError = MinNotANumber | MaxNotANumber

  /** NestedInt64 of an absent field returns 0. */
  function OrZero(f: IntField): Int64
    requires !f.NotANumber?
  {
    if f.Number? then f.n else 0
  }

  /** The bounds after one rewrite with minimum `n`. */
  function Rewrite(b: Bounds, n: Int64): Result<Bounds, HpaError> {
    if b.min.NotANumber? then Err(MinNotANumber)
    else if b.max.NotANumber? then Err(MaxNotANumber)
    else if b.max.Absent? then Ok(Bounds(Number(n), Absent))
    else Ok(Bounds(Number(n), Number(Wrap(b.max.n + Wrap(n - OrZero(b.min))))))
  }

  /** An autoscaler object whose spec is changed in place. */
  class Autoscaler {
    var minReplicas: IntField
    var maxReplicas: IntField

    constructor (b: Bounds)
      ensures minReplicas == b.min && maxReplicas == b.max
    {
      minReplicas, maxReplicas := b.min, b.max;
    }

    /** When maxReplicas is unreadable the new minimum has already been stored. */
    method SetReplicas(n: Int64) returns (err: Option<HpaError>)
      modifies this
      ensures var r := Rewrite(old(Bounds(minReplicas, maxReplicas)), n);
              match r
              case Ok(b) => err == None && Bounds(minReplicas, maxReplicas) == b
              case Err(e) => err == Some(e) && maxReplicas == old(maxReplicas)
                             && minReplicas == if e.MinNotANumber? then old(minReplicas) else Number(n)
    {
      if minReplicas.NotANumber? {
        return Some(MinNotANumber);
      }
      var min := OrZero(minReplicas);
      minReplicas := Number(n);
      if maxReplicas.NotANumber? {
        return Some(MaxNotANumber);
      }
      if maxReplicas.Absent? {
        return None;
      }
      maxReplicas := Number(Wrap(maxReplicas.n + Wrap(n - min)));
      err := None;
    }
  }

  /**
   * One rewrite within 64 bits: the maximum moves as far as the minimum, an absent minimum counts
   * as 0, an absent maximum stays absent.
   */
  lemma RewriteMeaning(b: Bounds, n: Int64)
    requires !b.min.NotANumber? && !b.max.NotANumber?
    ensures Rewrite(b, n).Ok? && Rewrite(b, n).value.min == Number(n)
    ensures b.max.Absent? ==> Rewrite(b, n).value.max == Absent
    ensures b.max.Number? && b.min.Absent? && MIN_INT64 <= b.max.n + n <= MAX_INT64 ==>
              Rewrite(b, n).value.max == Number(b.max.n + n)
    ensures b.max.Number? && b.min.Number? && MIN_INT64 <= b.max.n + (n - b.min.n) <= MAX_INT64 ==>
              Rewrite(b, n).value.max == Number(b.max.n + (n - b.min.n))
  {
    ShiftOnce(b, n);
  }

  // ----- Any sequence of rewrites -----

  function RewriteAll(b: Bounds, ns: seq<Int64>): Result<Bounds, HpaError> {
    if ns == [] then Ok(b)
    else
      var r := RewriteAll(b, ns[..|ns| - 1]);
      if r.Err? then r else Rewrite(r.value, ns[|ns| - 1])
  }

  lemma WrapSum(a: int, c: Int64, d: Int64, e: Int64)
    ensures Wrap(Wrap(a + (c - e)) + Wrap(d - c)) == Wrap(a + (d - e))
  {
    var x, y, z := Wrap(a + (c - e)), Wrap(d - c), Wrap(a + (d - e));
    var r := Wrap(x + y);
    assert (r - z) % TWO_64 == 0 by {
      assert r - z == (r - (x + y)) + (x - (a + (c - e))) + (y - (d - c)) - (z - (a + (d - e)));
      SumOfMultiples(r - (x + y), x - (a + (c - e)), y - (d - c), z - (a + (d - e)));
    }
    assert -TWO_64 < r - z < TWO_64;
  }

  lemma SumOfMultiples(p: int, q: int, r: int, s: int)
    requires p % TWO_64 == 0 && q % TWO_64 == 0 && r % TWO_64 == 0 && s % TWO_64 == 0
    ensures (p + q + r - s) % TWO_64 == 0
  {
  }

  /** Minimum `n`, and the maximum moved by as much as the minimum. */
  function Shifted(b: Bounds, n: Int64): Bounds
    requires !b.min.NotANumber? && !b.max.NotANumber?
  {
    Bounds(Number(n), if b.max.Absent? then Absent else Number(Wrap(b.max.n + (n - OrZero(b.min)))))
  }

  lemma ShiftOnce(b: Bounds, n: Int64)
    requires !b.min.NotANumber? && !b.max.NotANumber?
    ensures Rewrite(b, n) == Ok(Shifted(b, n))
  {
    if b.max.Number? { WrapSum(b.max.n, OrZero(b.min), n, OrZero(b.min)); }
  }

  lemma ShiftTwice(b: Bounds, m: Int64, n: Int64)
    requires !b.min.NotANumber? && !b.max.NotANumber?
    ensures Rewrite(Shifted(b, m), n) == Ok(Shifted(b, n))
  {
    if b.max.Number? { WrapSum(b.max.n, m, n, OrZero(b.min)); }
  }

  /**
   * Any non-empty sequence of rewrites telescopes, with 64-bit wrap-around and all: the minimum
   * is the last value and the maximum moves once, from the first minimum to the last value.
   */
  lemma {:induction false} Telescopes(b: Bounds, ns: seq<Int64>)
    requires !b.min.NotANumber? && !b.max.NotANumber? && ns != []
    ensures RewriteAll(b, ns) == Ok(Shifted(b, ns[|ns| - 1]))
  {
    var init, n := ns[..|ns| - 1], ns[|ns| - 1];
    if init == [] {
      ShiftOnce(b, n);
    } else {
      Telescopes(b, init);
      ShiftTwice(b, init[|init| - 1], n);
    }
  }

  /** An unreadable bound makes every non-empty sequence of rewrites fail. */
  lemma {:induction false} UnreadableFails(b: Bounds, ns: seq<Int64>)
    requires (b.min.NotANumber? || b.max.NotANumber?) && ns != []
    ensures RewriteAll(b, ns).Err?
  {
    if |ns| > 1 {
      UnreadableFails(b, ns[..|ns| - 1]);
    }
  }

  /**
   * The distance between maximum and minimum is conserved exactly when the final maximum fits
   * into 64 bits, and then a minimum that does not exceed the maximum keeps not exceeding it.
   */
  lemma DistanceConserved(b: Bounds, ns: seq<Int64>)
    requires !b.min.NotANumber? && b.max.Number? && ns != []
    ensures RewriteAll(b, ns).Ok?
    ensures var b', last := RewriteAll(b, ns).value, ns[|ns| - 1];
            && b'.min == Number(last) && b'.max.Number?
            && (b'.max.n - b'.min.n == b.max.n - OrZero(b.min) <==>
                MIN_INT64 <= b.max.n + last - OrZero(b.min) <= MAX_INT64)
            && (MIN_INT64 <= b.max.n + last - OrZero(b.min) <= MAX_INT64 ==>
                (b'.min.n <= b'.max.n <==> OrZero(b.min) <= b.max.n))
  {
    Telescopes(b, ns);
  }

  ghost predicate Is32(f: IntField) {
    f.Number? ==> MIN_INT32 <= f.n <= MAX_INT32
  }

  /**
   * With 32-bit bounds and 32-bit values no subtraction or addition ever leaves 64 bits, after
   * any number of rewrites: before the k-th one both intermediate results are exact.
   */
  lemma NoOverflow(b: Bounds, ns: seq<Int64>, k: nat)
    requires b.max.Number? && !b.min.NotANumber? && Is32(b.min) && Is32(b.max)
    requires forall n :: n in ns ==> MIN_INT32 <= n <= MAX_INT32
    requires k < |ns|
    ensures RewriteAll(b, ns[..k]).Ok?
    ensures var c := RewriteAll(b, ns[..k]).value;
            && !c.min.NotANumber? && c.max.Number?
            && c.max.n - OrZero(c.min) == b.max.n - OrZero(b.min)
            && Wrap(ns[k] - OrZero(c.min)) == ns[k] - OrZero(c.min)
            && Wrap(c.max.n + (ns[k] - OrZero(c.min))) == c.max.n + (ns[k] - OrZero(c.min))
  {
    assert ns[k] in ns;
    if k > 0 {
      assert ns[..k][k - 1] in ns;
      DistanceConserved(b, ns[..k]);
    } else {
      assert ns[..0] == [];
    }
  }

  /** A second pass of the same rewrites changes nothing. */
  lemma RewriteAllIdempotent(b: Bounds, ns: seq<Int64>)
    requires RewriteAll(b, ns).Ok?
    ensures RewriteAll(RewriteAll(b, ns).value, ns) == RewriteAll(b, ns)
  {
    if ns != [] {
      if b.min.NotANumber? || b.max.NotANumber? {
        UnreadableFails(b, ns);
      } else {
        Telescopes(b, ns);
        Telescopes(RewriteAll(b, ns).value, ns);
      }
    }
  }
}
