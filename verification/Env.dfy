/** Environment variables of a container: the in-place merge and sort of mergeEnv. */
module Env {
  import opened Prelude
  import opened GoStrings

  datatype EnvVar = EnvVar(name: string, value: string)

  predicate Unique(s: seq<EnvVar>) {
    forall i, j :: 0 <= i < j < |s| ==> s[i].name != s[j].name
  }

  predicate Sorted(s: seq<EnvVar>) {
    forall i, j :: 0 <= i < j < |s| ==> CompareStrings(s[i].name, s[j].name) <= 0
  }

  /** The meaning of a list of variables: the last value given to each name. */
  function AsMap(s: seq<EnvVar>): map<string, EnvVar> {
    if s == [] then map[] else AsMap(s[..|s| - 1])[s[|s| - 1].name := s[|s| - 1]]
  }

  lemma {:induction false} KeysAreNames(s: seq<EnvVar>, n: string)
    ensures n in AsMap(s) <==> exists i :: 0 <= i < |s| && s[i].name == n
    ensures n in AsMap(s) ==> AsMap(s)[n].name == n && AsMap(s)[n] in s
  {
    if s != [] {
      var init := s[..|s| - 1];
      KeysAreNames(init, n);
      if n != s[|s| - 1].name {
        assert forall i :: 0 <= i < |init| ==> s[i] == init[i];
      }
    }
  }

  // ----- The loops of mergeEnv as functions -----

  /** One pass over the target: every entry of the same name is overwritten. */
  function Overwrite(tgt: seq<EnvVar>, v: EnvVar): (r: seq<EnvVar>)
    ensures |r| == |tgt|
    ensures forall i :: 0 <= i < |tgt| ==> r[i] == if tgt[i].name == v.name then v else tgt[i]
  {
    seq(|tgt|, i requires 0 <= i < |tgt| => if tgt[i].name == v.name then v else tgt[i])
  }

  function MergeOne(tgt: seq<EnvVar>, v: EnvVar): seq<EnvVar> {
    if v.name in AsMap(tgt) then Overwrite(tgt, v) else tgt + [v]
  }

  /** The general loop over the source. */
  function MergeAll(src: seq<EnvVar>, tgt: seq<EnvVar>): seq<EnvVar> {
    if src == [] then tgt else MergeOne(MergeAll(src[..|src| - 1], tgt), src[|src| - 1])
  }

  /** mergeEnv before its sort, with the shortcut for an empty target. */
  function Merge(src: seq<EnvVar>, tgt: seq<EnvVar>): seq<EnvVar> {
    if tgt == [] then src else MergeAll(src, tgt)
  }

  // ----- Sorting -----

  function Insert(s: seq<EnvVar>, v: EnvVar): (r: seq<EnvVar>)
    ensures multiset(r) == multiset(s) + multiset{v}
  {
    if s == [] || CompareStrings(v.name, s[0].name) <= 0 then [v] + s
    else
      assert s == [s[0]] + s[1..];
      [s[0]] + Insert(s[1..], v)
  }

  lemma {:induction false} InsertSorted(s: seq<EnvVar>, v: EnvVar)
    requires Sorted(s)
    ensures Sorted(Insert(s, v))
  {
    var r := Insert(s, v);
    if s == [] || CompareStrings(v.name, s[0].name) <= 0 {
      forall j | 1 <= j < |r| ensures CompareStrings(v.name, r[j].name) <= 0 {
        if j > 1 { StringsLeTransitive(v.name, s[0].name, s[j - 1].name); }
      }
    } else {
      InsertSorted(s[1..], v);
      var t := Insert(s[1..], v);
      forall j | 0 <= j < |t| ensures CompareStrings(s[0].name, t[j].name) <= 0 {
        assert t[j] in multiset(t);
        if t[j] != v {
          assert t[j] in s[1..];
        } else {
          StringsOrder(s[0].name, v.name, "");
        }
      }
    }
  }

  function Sort(s: seq<EnvVar>): (r: seq<EnvVar>)
    ensures Permutation(r, s)
  {
    if s == [] then []
    else
      assert s == s[..|s| - 1] + [s[|s| - 1]];
      Insert(Sort(s[..|s| - 1]), s[|s| - 1])
  }

  lemma {:induction false} SortSorts(s: seq<EnvVar>)
    ensures Sorted(Sort(s))
  {
    if s != [] {
      SortSorts(s[..|s| - 1]);
      InsertSorted(Sort(s[..|s| - 1]), s[|s| - 1]);
    }
  }

  /** sort.Slice is not stable: its callers only know that the result is a sorted permutation. */
  method SortSlice(s: seq<EnvVar>) returns (r: seq<EnvVar>)
    ensures Permutation(r, s) && Sorted(r)
  {
    r := Sort(s);
    SortSorts(s);
  }

  // ----- Sorted lists with unique names are determined by their meaning -----

  lemma UniqueMap(s: seq<EnvVar>, v: EnvVar)
    requires Unique(s) && v in s
    ensures v.name in AsMap(s) && AsMap(s)[v.name] == v
  {
    var last := s[|s| - 1];
    if v != last {
      var i :| 0 <= i < |s| && s[i] == v;
      assert s[i].name != s[|s| - 1].name;
      assert s[..|s| - 1][i] == v;
      UniqueMap(s[..|s| - 1], v);
    }
  }

  /** A list with unique names has the same entries as any list with unique names and the same meaning. */
  lemma SameMapSameEntries(s: seq<EnvVar>, t: seq<EnvVar>)
    requires Unique(s) && Unique(t) && AsMap(s) == AsMap(t)
    ensures forall v :: v in s <==> v in t
  {
    forall v | v in s || v in t ensures v in s && v in t {
      if v in s { UniqueMap(s, v); KeysAreNames(t, v.name); } else { UniqueMap(t, v); KeysAreNames(s, v.name); }
    }
  }

  lemma EmptyEntries(s: seq<EnvVar>)
    ensures s == [] <==> forall v :: v !in s
  {
    assert s != [] ==> s[0] in s;
  }

  lemma {:induction false} SortedUniqueEqual(s: seq<EnvVar>, t: seq<EnvVar>)
    requires Unique(s) && Unique(t) && Sorted(s) && Sorted(t)
    requires forall v :: v in s <==> v in t
    ensures s == t
  {
    if s == [] || t == [] {
      assert forall v :: v in s ==> v in t && v in s;
      EmptyEntries(s);
      EmptyEntries(t);
    } else {
      HeadsEqual(s, t);
      TailEntries(s, t);
      SortedUniqueEqual(s[1..], t[1..]);
      assert s == [s[0]] + s[1..] && t == [t[0]] + t[1..];
    }
  }

  lemma HeadsEqual(s: seq<EnvVar>, t: seq<EnvVar>)
    requires Unique(s) && Unique(t) && Sorted(s) && Sorted(t) && s != [] && t != []
    requires forall v :: v in s <==> v in t
    ensures s[0] == t[0]
  {
    assert s[0] in t && t[0] in s;
    var i :| 0 <= i < |t| && t[i] == s[0];
    var j :| 0 <= j < |s| && s[j] == t[0];
    if i > 0 && j > 0 {
      StringsOrder(s[0].name, t[0].name, "");
    }
  }

  lemma TailEntries(s: seq<EnvVar>, t: seq<EnvVar>)
    requires Unique(s) && Unique(t) && s != [] && t != [] && s[0] == t[0]
    requires forall v :: v in s <==> v in t
    ensures forall v :: v in s[1..] <==> v in t[1..]
  {
    TailSubset(s, t);
    TailSubset(t, s);
  }

  lemma TailSubset(s: seq<EnvVar>, t: seq<EnvVar>)
    requires Unique(s) && s != [] && t != [] && s[0] == t[0] && forall v :: v in s ==> v in t
    ensures forall v :: v in s[1..] ==> v in t[1..]
  {
    forall v | v in s[1..] ensures v in t[1..] {
      var i :| 1 <= i < |s| && s[i] == v;
      assert v.name != s[0].name && v in s;
      var j :| 0 <= j < |t| && t[j] == v;
      assert t[1..][j - 1] == v;
    }
  }

  lemma UniquePermutation(s: seq<EnvVar>, t: seq<EnvVar>)
    requires Permutation(s, t) && Unique(s)
    ensures Unique(t)
  {
    forall i, j | 0 <= i < j < |t| ensures t[i].name != t[j].name {
      if t[i].name == t[j].name {
        MultisetOfTwo(t, i, j);
        assert t[i] in multiset(s) && t[j] in multiset(s);
        var k :| 0 <= k < |s| && s[k] == t[i];
        var l :| 0 <= l < |s| && s[l] == t[j];
        UniqueOnce(s, k);
      }
    }
  }

  lemma MultisetOfTwo(t: seq<EnvVar>, i: nat, j: nat)
    requires i < j < |t|
    ensures t[i] == t[j] ==> multiset(t)[t[i]] >= 2
    ensures t[i] in multiset(t) && t[j] in multiset(t)
  {
    assert t == t[..j] + [t[j]] + t[j + 1..];
    assert t[i] in t[..j];
  }

  lemma UniqueOnce(s: seq<EnvVar>, k: nat)
    requires Unique(s) && k < |s|
    ensures multiset(s)[s[k]] == 1
  {
    assert s == s[..k] + [s[k]] + s[k + 1..];
    assert s[k] !in s[..k] && s[k] !in s[k + 1..];
  }

  lemma SortedUniqueSameMap(s: seq<EnvVar>, t: seq<EnvVar>)
    requires Unique(s) && Unique(t) && Sorted(s) && Sorted(t) && AsMap(s) == AsMap(t)
    ensures s == t
  {
    SameMapSameEntries(s, t);
    SortedUniqueEqual(s, t);
  }

  lemma UniqueSortCanonical(s: seq<EnvVar>, r: seq<EnvVar>)
    requires Unique(s) && Permutation(r, s) && Sorted(r)
    ensures r == Sort(s)
  {
    SortSorts(s);
    UniquePermutation(s, r);
    UniquePermutation(s, Sort(s));
    PermutationMembers(r, Sort(s));
    SortedUniqueEqual(r, Sort(s));
  }

  // ----- What the merge means -----

  lemma MergeOneMap(tgt: seq<EnvVar>, v: EnvVar)
    ensures AsMap(MergeOne(tgt, v)) == AsMap(tgt)[v.name := v]
  {
    if v.name in AsMap(tgt) {
      OverwriteMap(tgt, v);
    } else {
      assert (tgt + [v])[..|tgt|] == tgt;
    }
  }

  lemma {:induction false} OverwriteMap(tgt: seq<EnvVar>, v: EnvVar)
    ensures AsMap(Overwrite(tgt, v)) == if v.name in AsMap(tgt) then AsMap(tgt)[v.name := v] else AsMap(tgt)
  {
    if tgt != [] {
      var init := tgt[..|tgt| - 1];
      OverwriteMap(init, v);
      assert Overwrite(tgt, v)[..|tgt| - 1] == Overwrite(init, v);
    }
  }

  lemma MergeOneUnique(tgt: seq<EnvVar>, v: EnvVar)
    requires Unique(tgt)
    ensures Unique(MergeOne(tgt, v))
  {
    KeysAreNames(tgt, v.name);
  }

  /** The merge loop is map override. */
  lemma {:induction false} MergeAllMap(src: seq<EnvVar>, tgt: seq<EnvVar>)
    ensures AsMap(MergeAll(src, tgt)) == AsMap(tgt) + AsMap(src)
  {
    if src != [] {
      var init, v := src[..|src| - 1], src[|src| - 1];
      MergeAllMap(init, tgt);
      MergeOneMap(MergeAll(init, tgt), v);
      OverrideUpdate(AsMap(tgt), AsMap(init), v.name, v);
    }
  }

  /** Unique target names stay unique. */
  lemma {:induction false} MergeAllUnique(src: seq<EnvVar>, tgt: seq<EnvVar>)
    requires Unique(tgt)
    ensures Unique(MergeAll(src, tgt))
  {
    if src != [] {
      MergeAllUnique(src[..|src| - 1], tgt);
      MergeOneUnique(MergeAll(src[..|src| - 1], tgt), src[|src| - 1]);
    }
  }

  /** Entries whose name the source does not mention are conserved with their multiplicities. */
  lemma {:induction false} MergeAllConserves(src: seq<EnvVar>, tgt: seq<EnvVar>, w: EnvVar)
    requires w.name !in AsMap(src)
    ensures multiset(MergeAll(src, tgt))[w] == multiset(tgt)[w]
  {
    if src != [] {
      var before, v := MergeAll(src[..|src| - 1], tgt), src[|src| - 1];
      MergeAllConserves(src[..|src| - 1], tgt, w);
      OverwriteConserves(before, v, w);
    }
  }

  lemma {:induction false} OverwriteConserves(tgt: seq<EnvVar>, v: EnvVar, w: EnvVar)
    requires w.name != v.name
    ensures multiset(Overwrite(tgt, v))[w] == multiset(tgt)[w]
  {
    if tgt != [] {
      var init, r := tgt[..|tgt| - 1], Overwrite(tgt, v);
      OverwriteConserves(init, v, w);
      assert r == Overwrite(init, v) + [r[|tgt| - 1]];
      assert tgt == init + [tgt[|tgt| - 1]];
    }
  }

  /** Every entry with a name of the source carries the last value the source gives that name. */
  lemma {:induction false} MergeAllOverrides(src: seq<EnvVar>, tgt: seq<EnvVar>, w: EnvVar)
    requires w in MergeAll(src, tgt) && w.name in AsMap(src)
    ensures w == AsMap(src)[w.name]
  {
    var before, v := MergeAll(src[..|src| - 1], tgt), src[|src| - 1];
    if w.name != v.name {
      assert w in before;
      MergeAllOverrides(src[..|src| - 1], tgt, w);
    } else {
      KeysAreNames(before, v.name);
    }
  }

  /** Starting from nothing, the merge loop returns the source itself exactly when its names are unique. */
  lemma {:induction false} EmptyTargetShortcut(src: seq<EnvVar>)
    ensures MergeAll(src, []) == src <==> Unique(src)
    ensures |MergeAll(src, [])| <= |src|
  {
    if src != [] {
      var init, v := src[..|src| - 1], src[|src| - 1];
      EmptyTargetShortcut(init);
      assert src == init + [v];
      KeysAreNames(init, v.name);
      if Unique(src) {
        assert Unique(init);
      } else if MergeAll(init, []) == init {
        assert v.name in AsMap(init);
      } else if MergeAll(src, []) == src {
        assert MergeAll(src, [])[..|src| - 1] == init;
      }
    }
  }

  /** Merging into a list that has all names of the source replaces values in place. */
  lemma {:induction false} MergeAllInPlace(src: seq<EnvVar>, x: seq<EnvVar>)
    requires forall v :: v in src ==> v.name in AsMap(x)
    ensures |MergeAll(src, x)| == |x|
    ensures forall i :: 0 <= i < |x| ==>
              MergeAll(src, x)[i] == if x[i].name in AsMap(src) then AsMap(src)[x[i].name] else x[i]
  {
    if src != [] {
      var init, v := src[..|src| - 1], src[|src| - 1];
      assert v in src;
      MergeAllInPlace(init, x);
      MergeAllMap(init, x);
      forall i | 0 <= i < |x| ensures MergeAll(init, x)[i].name == x[i].name { KeysAreNames(init, x[i].name); }
    }
  }

  /** Does every entry that the source mentions already have the source's last value? */
  predicate UpToDate(src: seq<EnvVar>, x: seq<EnvVar>) {
    forall v :: v in x && v.name in AsMap(src) ==> v == AsMap(src)[v.name]
  }

  lemma MergeFixedPoint(src: seq<EnvVar>, x: seq<EnvVar>)
    requires forall v :: v in src ==> v.name in AsMap(x)
    ensures MergeAll(src, x) == x <==> UpToDate(src, x)
  {
    MergeAllInPlace(src, x);
    if MergeAll(src, x) == x {
      assert forall i :: 0 <= i < |x| && x[i].name in AsMap(src) ==> x[i] == AsMap(src)[x[i].name];
    }
    if UpToDate(src, x) {
      assert forall i :: 0 <= i < |x| ==> x[i] in x && MergeAll(src, x)[i] == x[i];
    }
  }

  predicate NamesAgree(s: seq<EnvVar>) {
    forall v, w :: v in s && w in s && v.name == w.name ==> v == w
  }

  lemma AgreeingValues(s: seq<EnvVar>)
    ensures NamesAgree(s) <==> UpToDate(s, s)
  {
    forall v | v in s ensures v.name in AsMap(s) && AsMap(s)[v.name] in s && AsMap(s)[v.name].name == v.name {
      KeysAreNames(s, v.name);
    }
  }

  /**
   * Merging the same source again, into the result in whatever order the sort left it, changes
   * nothing exactly when the target was not empty or no name of the source has two values.
   */
  lemma MergeTwice(src: seq<EnvVar>, tgt: seq<EnvVar>, x: seq<EnvVar>)
    requires Permutation(x, Merge(src, tgt))
    ensures Merge(src, x) == x <==> tgt != [] || NamesAgree(src)
  {
    PermutationMembers(x, Merge(src, tgt));
    forall v | v in src ensures v.name in AsMap(x) { SourceNamesKept(src, tgt, x, v); }
    MergeFixedPoint(src, x);
    if tgt != [] {
      forall v | v in x && v.name in AsMap(src) ensures v == AsMap(src)[v.name] { MergeAllOverrides(src, tgt, v); }
    } else {
      AgreeingValues(src);
      assert UpToDate(src, x) <==> UpToDate(src, src);
    }
  }

  lemma SourceNamesKept(src: seq<EnvVar>, tgt: seq<EnvVar>, x: seq<EnvVar>, v: EnvVar)
    requires v in src && forall w :: w in x <==> w in Merge(src, tgt)
    ensures v.name in AsMap(x)
  {
    var y := Merge(src, tgt);
    KeysAreNames(src, v.name);
    MergeAllMap(src, tgt);
    KeysAreNames(y, v.name);
    var i :| 0 <= i < |y| && y[i].name == v.name;
    assert y[i] in x;
    KeysAreNames(x, v.name);
  }

  // ----- The order of the target does not matter -----

  function Dropped(t: seq<EnvVar>, i: nat): seq<EnvVar>
    requires i < |t|
  {
    t[..i] + t[i + 1..]
  }

  lemma DroppedEntries(t: seq<EnvVar>, i: nat)
    requires i < |t|
    ensures multiset(t) == multiset(Dropped(t, i)) + multiset{t[i]}
  {
    assert t == t[..i] + [t[i]] + t[i + 1..];
  }

  lemma OverwriteDropped(t: seq<EnvVar>, i: nat, v: EnvVar)
    requires i < |t|
    ensures Overwrite(Dropped(t, i), v) == Dropped(Overwrite(t, v), i)
  {
  }

  /** Permutations stay permutations without, and with, a common entry. */
  lemma DroppedPermutes(s: seq<EnvVar>, i: nat, t: seq<EnvVar>, j: nat)
    requires i < |s| && j < |t| && s[i] == t[j]
    ensures Permutation(s, t) <==> Permutation(Dropped(s, i), Dropped(t, j))
  {
    DroppedEntries(s, i);
    DroppedEntries(t, j);
    if Permutation(s, t) { CancelOne(multiset(Dropped(s, i)), multiset(Dropped(t, j)), s[i]); }
  }

  lemma {:induction false} OverwritePermutes(s: seq<EnvVar>, t: seq<EnvVar>, v: EnvVar)
    requires Permutation(s, t)
    ensures Permutation(Overwrite(s, v), Overwrite(t, v))
    decreases |s|
  {
    PermutationMembers(s, t);
    if s != [] {
      assert s[0] in t;
      var i :| 0 <= i < |t| && t[i] == s[0];
      DroppedPermutes(s, 0, t, i);
      OverwritePermutes(Dropped(s, 0), Dropped(t, i), v);
      OverwriteDropped(s, 0, v);
      OverwriteDropped(t, i, v);
      DroppedPermutes(Overwrite(s, v), 0, Overwrite(t, v), i);
    }
  }

  lemma MergeOnePermutes(s: seq<EnvVar>, t: seq<EnvVar>, v: EnvVar)
    requires Permutation(s, t)
    ensures Permutation(MergeOne(s, v), MergeOne(t, v))
  {
    PermutationMembers(s, t);
    KeysAreNames(s, v.name);
    KeysAreNames(t, v.name);
    SameNames(s, t, v.name);
    SameNames(t, s, v.name);
    OverwritePermutes(s, t, v);
  }

  lemma SameNames(s: seq<EnvVar>, t: seq<EnvVar>, n: string)
    requires forall x :: x in s ==> x in t
    ensures n in AsMap(s) ==> n in AsMap(t)
  {
    KeysAreNames(s, n);
    KeysAreNames(t, n);
    if n in AsMap(s) {
      var i :| 0 <= i < |s| && s[i].name == n;
      assert s[i] in t;
    }
  }

  lemma {:induction false} MergeAllPermutes(src: seq<EnvVar>, s: seq<EnvVar>, t: seq<EnvVar>)
    requires Permutation(s, t)
    ensures Permutation(MergeAll(src, s), MergeAll(src, t))
  {
    if src != [] {
      MergeAllPermutes(src[..|src| - 1], s, t);
      MergeOnePermutes(MergeAll(src[..|src| - 1], s), MergeAll(src[..|src| - 1], t), src[|src| - 1]);
    }
  }

  /** Merging into a reordered target gives a reordered result. */
  lemma MergePermutes(src: seq<EnvVar>, s: seq<EnvVar>, t: seq<EnvVar>)
    requires Permutation(s, t)
    ensures Permutation(Merge(src, s), Merge(src, t))
  {
    PermutationMembers(s, t);
    MergeAllPermutes(src, s, t);
  }

  // ----- mergeEnv -----

  /** The list mergeEnv leaves in the target when names are unique. */
  function Merged(src: seq<EnvVar>, tgt: seq<EnvVar>): seq<EnvVar> {
    Sort(Merge(src, tgt))
  }

  /** The inner loop: overwrites in place and reports whether the name was there. */
  method OverwriteLoop(tgt: seq<EnvVar>, v: EnvVar) returns (r: seq<EnvVar>, found: bool)
    ensures r == Overwrite(tgt, v)
    ensures found <==> exists i :: 0 <= i < |tgt| && tgt[i].name == v.name
    ensures !found ==> r == tgt
  {
    r, found := tgt, false;
    for i := 0 to |tgt|
      invariant |r| == |tgt|
      invariant forall j :: 0 <= j < |tgt| ==> r[j] == if j < i && tgt[j].name == v.name then v else tgt[j]
      invariant found <==> exists j :: 0 <= j < i && tgt[j].name == v.name
    {
      if r[i].name == v.name {
        r := r[i := v];
        found := true;
      }
    }
  }

  /**
   * mergeEnv. With an empty target the target becomes the source's own slice, so the sort also
   * reorders the source; `srcAfter` is what the source then holds.
   */
  method MergeEnv(src: seq<EnvVar>, tgt: seq<EnvVar>) returns (merged: seq<EnvVar>, srcAfter: seq<EnvVar>)
    ensures Permutation(merged, Merge(src, tgt)) && Sorted(merged)
    ensures srcAfter == if tgt == [] then merged else src
    ensures Unique(src) && Unique(tgt) ==> merged == Merged(src, tgt)
  {
    merged := tgt;
    if |merged| > 0 {
      for k := 0 to |src|
        invariant merged == MergeAll(src[..k], tgt)
      {
        assert src[..k + 1][..k] == src[..k];
        var found;
        KeysAreNames(merged, src[k].name);
        merged, found := OverwriteLoop(merged, src[k]);
        if !found {
          merged := merged + [src[k]];
        }
      }
      assert src[..|src|] == src;
    } else {
      merged := src;
    }
    ghost var unsorted := merged;
    merged := SortSlice(merged);
    srcAfter := if |tgt| == 0 then merged else src;
    if Unique(src) && Unique(tgt) {
      MergeMeaning(src, tgt);
      UniqueSortCanonical(unsorted, merged);
    }
  }

  /** With unique source names the merge, shortcut included, is map override. */
  lemma MergeMeaning(src: seq<EnvVar>, tgt: seq<EnvVar>)
    requires Unique(src)
    ensures AsMap(Merge(src, tgt)) == AsMap(tgt) + AsMap(src)
    ensures Unique(tgt) ==> Unique(Merge(src, tgt))
  {
    if tgt != [] {
      MergeAllMap(src, tgt);
      if Unique(tgt) { MergeAllUnique(src, tgt); }
    }
  }

  lemma UniquePermutationMap(s: seq<EnvVar>, t: seq<EnvVar>)
    requires Unique(s) && Permutation(s, t)
    ensures AsMap(s) == AsMap(t)
  {
    UniquePermutation(s, t);
    PermutationMembers(s, t);
    forall n ensures n in AsMap(s) <==> n in AsMap(t) {
      KeysAreNames(s, n);
      KeysAreNames(t, n);
      if n in AsMap(s) { assert AsMap(s)[n] in t; UniqueMap(t, AsMap(s)[n]); }
      if n in AsMap(t) { assert AsMap(t)[n] in s; UniqueMap(s, AsMap(t)[n]); }
    }
    forall n | n in AsMap(s) ensures AsMap(s)[n] == AsMap(t)[n] {
      KeysAreNames(s, n);
      UniqueMap(t, AsMap(s)[n]);
    }
  }

  lemma MergedMeaning(src: seq<EnvVar>, tgt: seq<EnvVar>)
    requires Unique(src) && Unique(tgt)
    ensures Unique(Merged(src, tgt)) && Sorted(Merged(src, tgt))
    ensures AsMap(Merged(src, tgt)) == AsMap(tgt) + AsMap(src)
  {
    MergeMeaning(src, tgt);
    SortSorts(Merge(src, tgt));
    UniquePermutation(Merge(src, tgt), Merged(src, tgt));
    UniquePermutationMap(Merge(src, tgt), Merged(src, tgt));
  }

  // ----- Several merges in a row -----

  function MergeList(srcs: seq<seq<EnvVar>>, tgt: seq<EnvVar>): seq<EnvVar> {
    if srcs == [] then tgt else Merged(srcs[|srcs| - 1], MergeList(srcs[..|srcs| - 1], tgt))
  }

  function MapOfAll(srcs: seq<seq<EnvVar>>): map<string, EnvVar> {
    if srcs == [] then map[] else MapOfAll(srcs[..|srcs| - 1]) + AsMap(srcs[|srcs| - 1])
  }

  lemma {:induction false} MergeListMeaning(srcs: seq<seq<EnvVar>>, tgt: seq<EnvVar>)
    requires Unique(tgt) && forall s :: s in srcs ==> Unique(s)
    ensures Unique(MergeList(srcs, tgt)) && (srcs != [] ==> Sorted(MergeList(srcs, tgt)))
    ensures AsMap(MergeList(srcs, tgt)) == AsMap(tgt) + MapOfAll(srcs)
  {
    if srcs != [] {
      var init, last := srcs[..|srcs| - 1], srcs[|srcs| - 1];
      MergeListMeaning(init, tgt);
      assert last in srcs;
      MergedMeaning(last, MergeList(init, tgt));
      OverrideAssociative(AsMap(tgt), MapOfAll(init), AsMap(last));
    }
  }

  /** Merging a list of overrides a second time changes nothing. */
  lemma MergeListIdempotent(srcs: seq<seq<EnvVar>>, tgt: seq<EnvVar>)
    requires Unique(tgt) && forall s :: s in srcs ==> Unique(s)
    ensures MergeList(srcs, MergeList(srcs, tgt)) == MergeList(srcs, tgt)
  {
    if srcs != [] {
      var once := MergeList(srcs, tgt);
      MergeListMeaning(srcs, tgt);
      MergeListMeaning(srcs, once);
      OverrideIdempotent(AsMap(tgt), MapOfAll(srcs));
      SortedUniqueSameMap(MergeList(srcs, once), once);
    }
  }
}
