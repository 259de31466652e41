/** Small datatypes and sequence functions shared by the other modules. */
module Prelude {

  const MAX_INT64 := 0x7FFF_FFFF_FFFF_FFFF
  const MIN_INT64 := -0x8000_0000_0000_0000

  datatype Option<+T> = None | Some(value: T)

  /** The outcome of an operation that may return a Go error. */
  datatype Result<+T, +E> = Ok(value: T) | Err(error: E)

  /** `t` lists exactly the elements of `s`, with their multiplicities, in some order. */
  ghost predicate Permutation<T>(s: seq<T>, t: seq<T>) {
    multiset(s) == multiset(t)
  }

  lemma PermutationMembers<T(!new)>(s: seq<T>, t: seq<T>)
    requires Permutation(s, t)
    ensures |s| == |t|
    ensures forall x :: x in s <==> x in t
  {
    assert |multiset(s)| == |multiset(t)|;
    forall x ensures x in s <==> x in t {
      assert x in s <==> x in multiset(s);
    }
  }

  lemma SubsetSize<T>(a: set<T>, b: set<T>)
    requires a <= b
    ensures |a| <= |b|
  {
    assert b == a + (b - a);
  }

  lemma CancelOne<T>(a: multiset<T>, b: multiset<T>, x: T)
    requires a + multiset{x} == b + multiset{x}
    ensures a == b
  {
    assert a == (a + multiset{x}) - multiset{x};
    assert b == (b + multiset{x}) - multiset{x};
  }

  lemma OverrideUpdate<K, V>(a: map<K, V>, b: map<K, V>, k: K, v: V)
    ensures a + b[k := v] == (a + b)[k := v]
  {
  }

  lemma OverrideAssociative<K, V>(a: map<K, V>, b: map<K, V>, c: map<K, V>)
    ensures (a + b) + c == a + (b + c)
  {
  }

  lemma OverrideEmpty<K, V>(a: map<K, V>)
    ensures a + map[] == a
  {
  }

  lemma OverrideIdempotent<K, V>(a: map<K, V>, b: map<K, V>)
    ensures (a + b) + b == a + b
  {
  }
}
