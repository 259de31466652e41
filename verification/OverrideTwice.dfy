/**
 * Applying a list of workload overrides a second time, without any assumption on environment
 * variable names: exactly when it changes nothing.
 */
module OverrideTwice {
  import opened Prelude
  import opened Env
  import opened Hpa
  import opened Resources
  import opened WorkloadOverride
  import opened OverrideFusion
  import opened OverrideMethods

  // ----- Merging into a list that has all the names -----

  /** Every entry that `m` mentions gets its value there. */
  function Replaced(m: map<string, EnvVar>, x: seq<EnvVar>): (r: seq<EnvVar>)
    ensures |r| == |x|
    ensures forall i :: 0 <= i < |x| ==> r[i] == if x[i].name in m then m[x[i].name] else x[i]
  {
    seq(|x|, i requires 0 <= i < |x| => if x[i].name in m then m[x[i].name] else x[i])
  }

  /** A map from names to variables of that name. */
  ghost predicate Named(m: map<string, EnvVar>) {
    forall n :: n in m ==> m[n].name == n
  }

  lemma AsMapNamed(s: seq<EnvVar>)
    ensures Named(AsMap(s))
  {
    forall n | n in AsMap(s) ensures AsMap(s)[n].name == n { KeysAreNames(s, n); }
  }

  lemma {:induction false} MapOfAllNamed(srcs: seq<seq<EnvVar>>)
    ensures Named(MapOfAll(srcs))
  {
    if srcs != [] {
      MapOfAllNamed(srcs[..|srcs| - 1]);
      AsMapNamed(srcs[|srcs| - 1]);
    }
  }

  lemma ReplacedTwice(m: map<string, EnvVar>, k: map<string, EnvVar>, x: seq<EnvVar>)
    requires Named(m)
    ensures Replaced(k, Replaced(m, x)) == Replaced(m + k, x)
  {
  }

  ghost predicate Covers(x: seq<EnvVar>, m: map<string, EnvVar>) {
    forall n :: n in m ==> n in AsMap(x)
  }

  lemma ReplacedNames(m: map<string, EnvVar>, x: seq<EnvVar>, n: string)
    requires Named(m) && n in AsMap(x)
    ensures n in AsMap(Replaced(m, x))
  {
    KeysAreNames(x, n);
    KeysAreNames(Replaced(m, x), n);
    var i :| 0 <= i < |x| && x[i].name == n;
    assert Replaced(m, x)[i].name == n;
  }

  /** Merging one source into such a list replaces values in place, */
  lemma MergeReplaces(src: seq<EnvVar>, x: seq<EnvVar>)
    requires x != [] && Covers(x, AsMap(src))
    ensures Merge(src, x) == Replaced(AsMap(src), x)
  {
    forall v | v in src ensures v.name in AsMap(x) { KeysAreNames(src, v.name); }
    MergeAllInPlace(src, x);
  }

  /** up to the order. */
  lemma MergedReplaces(src: seq<EnvVar>, x: seq<EnvVar>, y: seq<EnvVar>)
    requires x != [] && Covers(x, AsMap(src)) && Permutation(y, x)
    ensures Permutation(Merged(src, y), Replaced(AsMap(src), x))
  {
    MergePermutes(src, y, x);
    MergeReplaces(src, x);
    PermutationSwap(Merged(src, y), Merge(src, y), Merge(src, x));
  }

  lemma {:induction false} MergeListReplaces(srcs: seq<seq<EnvVar>>, x: seq<EnvVar>)
    requires x != [] && Covers(x, MapOfAll(srcs))
    ensures Permutation(MergeList(srcs, x), Replaced(MapOfAll(srcs), x))
  {
    if srcs == [] {
      assert Replaced(map[], x) == x;
    } else {
      var init, last := srcs[..|srcs| - 1], srcs[|srcs| - 1];
      var before := Replaced(MapOfAll(init), x);
      MergeListReplaces(init, x);
      MapOfAllNamed(init);
      forall n | n in AsMap(last) ensures n in AsMap(before) { ReplacedNames(MapOfAll(init), x, n); }
      MergedReplaces(last, before, MergeList(init, x));
      ReplacedTwice(MapOfAll(init), AsMap(last), x);
    }
  }

  /** Every entry that the sources mention already has their last value. */
  ghost predicate Current(m: map<string, EnvVar>, x: seq<EnvVar>) {
    forall v :: v in x && v.name in m ==> v == m[v.name]
  }

  lemma ReplacedPermutes(m: map<string, EnvVar>, x: seq<EnvVar>)
    requires Named(m)
    ensures Permutation(Replaced(m, x), x) <==> Current(m, x)
  {
    if Current(m, x) {
      assert forall i :: 0 <= i < |x| ==> x[i] in x;
      assert Replaced(m, x) == x;
    } else if Permutation(Replaced(m, x), x) {
      PermutationMembers(Replaced(m, x), x);
    }
  }

  // ----- What the first pass leaves -----

  lemma MergedNames(src: seq<EnvVar>, tgt: seq<EnvVar>, n: string)
    ensures n in AsMap(Merged(src, tgt)) <==> n in AsMap(src) || n in AsMap(tgt)
  {
    var y := Merge(src, tgt);
    MergeAllMap(src, tgt);
    PermutationMembers(y, Merged(src, tgt));
    SameNames(y, Merged(src, tgt), n);
    SameNames(Merged(src, tgt), y, n);
  }

  lemma {:induction false} MergeListNames(srcs: seq<seq<EnvVar>>, tgt: seq<EnvVar>)
    ensures Covers(MergeList(srcs, tgt), MapOfAll(srcs))
  {
    if srcs != [] {
      var init, last := srcs[..|srcs| - 1], srcs[|srcs| - 1];
      MergeListNames(init, tgt);
      forall n | n in MapOfAll(srcs) ensures n in AsMap(MergeList(srcs, tgt)) {
        MergedNames(last, MergeList(init, tgt), n);
      }
    }
  }

  predicate AllEmpty(srcs: seq<seq<EnvVar>>) {
    forall i :: 0 <= i < |srcs| ==> srcs[i] == []
  }

  lemma AllEmptySnoc(srcs: seq<seq<EnvVar>>)
    requires srcs != []
    ensures AllEmpty(srcs) <==> AllEmpty(srcs[..|srcs| - 1]) && srcs[|srcs| - 1] == []
  {
    var init := srcs[..|srcs| - 1];
    assert forall i :: 0 <= i < |init| ==> srcs[i] == init[i];
  }

  lemma {:induction false} MergeListEmpty(srcs: seq<seq<EnvVar>>, tgt: seq<EnvVar>)
    ensures MergeList(srcs, tgt) == [] <==> tgt == [] && AllEmpty(srcs)
  {
    if srcs != [] {
      var init, last := srcs[..|srcs| - 1], srcs[|srcs| - 1];
      MergeListEmpty(init, tgt);
      MergedEmpty(last, MergeList(init, tgt));
      AllEmptySnoc(srcs);
    }
  }

  lemma MergedEmpty(src: seq<EnvVar>, tgt: seq<EnvVar>)
    ensures Merged(src, tgt) == [] <==> src == [] && tgt == []
  {
    PermutationMembers(Merge(src, tgt), Merged(src, tgt));
    if tgt != [] { MergeAllLength(src, tgt); }
  }

  lemma {:induction false} MergeAllLength(src: seq<EnvVar>, tgt: seq<EnvVar>)
    ensures |MergeAll(src, tgt)| >= |tgt|
  {
    if src != [] { MergeAllLength(src[..|src| - 1], tgt); }
  }

  /** After a merge into a non-empty list: the source's values for its names, the old entries for the others. */
  lemma MergedEntries(src: seq<EnvVar>, tgt: seq<EnvVar>, v: EnvVar)
    requires tgt != []
    ensures v in Merged(src, tgt) && v.name in AsMap(src) ==> v == AsMap(src)[v.name]
    ensures v.name !in AsMap(src) ==> (v in Merged(src, tgt) <==> v in tgt)
  {
    var y := MergeAll(src, tgt);
    PermutationMembers(y, Merged(src, tgt));
    if v in y && v.name in AsMap(src) { MergeAllOverrides(src, tgt, v); }
    if v.name !in AsMap(src) {
      MergeAllConserves(src, tgt, v);
      assert v in y <==> v in multiset(y);
      assert v in tgt <==> v in multiset(tgt);
    }
  }

  /** Up to date apart from some names. */
  ghost predicate CurrentExcept(m: map<string, EnvVar>, x: seq<EnvVar>, except: set<string>) {
    forall v :: v in x && v.name in m && v.name !in except ==> v == m[v.name]
  }

  lemma MergedCurrent(srcs: seq<seq<EnvVar>>, tgt: seq<EnvVar>, except: set<string>)
    requires srcs != [] && MergeList(srcs[..|srcs| - 1], tgt) != []
    ensures CurrentExcept(MapOfAll(srcs), MergeList(srcs, tgt), except) <==>
            CurrentExcept(MapOfAll(srcs[..|srcs| - 1]), MergeList(srcs[..|srcs| - 1], tgt),
                          except + AsMap(srcs[|srcs| - 1]).Keys)
  {
    var init, last := srcs[..|srcs| - 1], srcs[|srcs| - 1];
    var x := MergeList(init, tgt);
    forall v
      ensures v in Merged(last, x) && v.name in AsMap(last) ==> v == AsMap(last)[v.name] { MergedEntries(last, x, v); }
    forall v: EnvVar | v.name !in AsMap(last) ensures v in Merged(last, x) <==> v in x { MergedEntries(last, x, v); }
  }

  lemma {:induction false} NonEmptyCurrent(srcs: seq<seq<EnvVar>>, tgt: seq<EnvVar>, except: set<string>)
    requires tgt != []
    ensures CurrentExcept(MapOfAll(srcs), MergeList(srcs, tgt), except)
  {
    if srcs != [] {
      var init := srcs[..|srcs| - 1];
      MergeListEmpty(init, tgt);
      NonEmptyCurrent(init, tgt, except + AsMap(srcs[|srcs| - 1]).Keys);
      MergedCurrent(srcs, tgt, except);
    }
  }

  predicate NamesAgreeExcept(s: seq<EnvVar>, except: set<string>) {
    forall v, w :: v in s && w in s && v.name == w.name && v.name !in except ==> v == w
  }

  /**
   * The first source that is not empty gives no name two values, except for names that a later
   * source sets as well.
   */
  ghost predicate FirstAgrees(srcs: seq<seq<EnvVar>>, except: set<string>) {
    if srcs == [] then true
    else if AllEmpty(srcs[..|srcs| - 1]) then NamesAgreeExcept(srcs[|srcs| - 1], except)
    else FirstAgrees(srcs[..|srcs| - 1], except + AsMap(srcs[|srcs| - 1]).Keys)
  }

  lemma OnlySource(srcs: seq<seq<EnvVar>>)
    requires srcs != [] && AllEmpty(srcs[..|srcs| - 1])
    ensures MapOfAll(srcs) == AsMap(srcs[|srcs| - 1]) && Permutation(MergeList(srcs, []), srcs[|srcs| - 1])
  {
    MergeListEmpty(srcs[..|srcs| - 1], []);
    EmptyMaps(srcs[..|srcs| - 1]);
  }

  lemma {:induction false} EmptyMaps(srcs: seq<seq<EnvVar>>)
    requires AllEmpty(srcs)
    ensures MapOfAll(srcs) == map[]
  {
    if srcs != [] {
      AllEmptySnoc(srcs);
      EmptyMaps(srcs[..|srcs| - 1]);
    }
  }

  lemma SourceCurrent(s: seq<EnvVar>, x: seq<EnvVar>, except: set<string>)
    requires Permutation(x, s)
    ensures CurrentExcept(AsMap(s), x, except) <==> NamesAgreeExcept(s, except)
  {
    PermutationMembers(x, s);
    forall v | v in s ensures v.name in AsMap(s) && AsMap(s)[v.name] in s && AsMap(s)[v.name].name == v.name {
      KeysAreNames(s, v.name);
    }
  }

  lemma {:induction false} EmptyCurrent(srcs: seq<seq<EnvVar>>, except: set<string>)
    ensures CurrentExcept(MapOfAll(srcs), MergeList(srcs, []), except) <==> FirstAgrees(srcs, except)
  {
    if srcs != [] {
      var init, last := srcs[..|srcs| - 1], srcs[|srcs| - 1];
      if AllEmpty(init) {
        OnlySource(srcs);
        SourceCurrent(last, MergeList(srcs, []), except);
      } else {
        MergeListEmpty(init, []);
        EmptyCurrent(init, except + AsMap(last).Keys);
        MergedCurrent(srcs, [], except);
      }
    }
  }

  /**
   * A second pass of the same sources leaves the environment as it is, up to the order of equal
   * names, if and only if it was not empty at first or the first source that is not empty gives
   * no name two values other than those that later sources set.
   */
  lemma MergeListTwice(srcs: seq<seq<EnvVar>>, tgt: seq<EnvVar>)
    ensures Permutation(MergeList(srcs, MergeList(srcs, tgt)), MergeList(srcs, tgt)) <==>
            tgt != [] || FirstAgrees(srcs, {})
  {
    var x, m := MergeList(srcs, tgt), MapOfAll(srcs);
    if tgt != [] { NonEmptyCurrent(srcs, tgt, {}); } else { EmptyCurrent(srcs, {}); }
    assert CurrentExcept(m, x, {}) <==> Current(m, x);
    MergeListEmpty(srcs, tgt);
    if x == [] {
      MergeListEmpty(srcs, x);
    } else {
      MergeListNames(srcs, tgt);
      MergeListReplaces(srcs, x);
      MapOfAllNamed(srcs);
      ReplacedPermutes(m, x);
      PermutationSwap(MergeList(srcs, x), Replaced(m, x), x);
    }
  }

  lemma PermutationSwap(a: seq<EnvVar>, b: seq<EnvVar>, x: seq<EnvVar>)
    requires Permutation(a, b)
    ensures Permutation(a, x) <==> Permutation(b, x)
  {
  }

  // ----- Whole objects -----

  lemma {:induction false} MergeListSorted(srcs: seq<seq<EnvVar>>, tgt: seq<EnvVar>)
    ensures srcs != [] ==> Sorted(MergeList(srcs, tgt))
  {
    if srcs != [] { SortSorts(Merge(srcs[|srcs| - 1], MergeList(srcs[..|srcs| - 1], tgt))); }
  }

  /** Does a second pass leave this container's environment alone? */
  ghost predicate Settles(os: seq<Override>, r: Resource, c: Container) {
    c.env != [] || FirstAgrees(FuseContainer(os, r, c.name).env, {})
  }

  lemma ContainerTwice(p: ContainerPatch, c: Container)
    ensures var once, twice := ActContainer(p, c), ActContainer(p, ActContainer(p, c));
            && twice == once.(env := twice.env)
            && (SameEnv(twice.env, once.env) <==> c.env != [] || FirstAgrees(p.env, {}))
  {
    OverrideIdempotent(c.limits, p.limits);
    OverrideIdempotent(c.requests, p.requests);
    ProbeLaws(p.readiness, p.readiness, None, c.readiness);
    ProbeLaws(p.liveness, p.liveness, None, c.liveness);
    MergeListTwice(p.env, c.env);
    MergeListSorted(p.env, c.env);
    MergeListSorted(p.env, MergeList(p.env, c.env));
  }

  lemma ContainersTwice(os: seq<Override>, r: Resource)
    ensures var once := ActAll(os, r);
            var twice := ActAll(os, once);
            && |twice.template.containers| == |once.template.containers| == |r.template.containers|
            && forall i :: 0 <= i < |r.template.containers| ==>
                 var c, d := once.template.containers[i], twice.template.containers[i];
                 d == c.(env := d.env) && (SameEnv(d.env, c.env) <==> Settles(os, r, r.template.containers[i]))
  {
    var once := ActAll(os, r);
    var cs := r.template.containers;
    forall i | 0 <= i < |cs|
      ensures var c, d := once.template.containers[i], ActAll(os, once).template.containers[i];
              d == c.(env := d.env) && (SameEnv(d.env, c.env) <==> Settles(os, r, cs[i]))
    {
      FuseKeepsNames(os, r, once, cs[i].name);
      ContainerTwice(FuseContainer(os, r, cs[i].name), cs[i]);
    }
  }

  lemma RestTwice(os: seq<Override>, r: Resource)
    ensures var once := ActAll(os, r);
            var twice := ActAll(os, once);
            twice == once.(template := once.template.(containers := twice.template.containers))
  {
    var once := ActAll(os, r);
    FuseKeepsNames(os, r, once, "");
    ActIdempotent(Fuse(os, r), r);
    assert Act(Fuse(os, r), once).(template := Act(Fuse(os, r), once).template.(containers := [])) ==
           once.(template := once.template.(containers := []));
  }

  /**
   * For every list of overrides and every workload: applying the list twice equals applying it
   * once, up to the order of environment variables of one name, if and only if every container
   * settles. Nothing but an environment that was empty at first can differ.
   */
  lemma OverridesTwiceExactly(os: seq<Override>, r: Resource)
    requires r.id.kind != HPA
    ensures ApplyAll(os, r).Ok? && ApplyAll(os, ApplyAll(os, r).value).Ok?
    ensures SameUpToTies(ApplyAll(os, ApplyAll(os, r).value).value, ApplyAll(os, r).value) <==>
            forall i :: 0 <= i < |r.template.containers| ==> Settles(os, r, r.template.containers[i])
  {
    OverridesFuse(os, r);
    var once := ActAll(os, r);
    OverridesFuse(os, once);
    RestTwice(os, r);
    ContainersTwice(os, r);
    SameExactly(ActAll(os, once), once);
  }

  lemma SameExactly(a: Resource, b: Resource)
    requires a == b.(template := b.template.(containers := a.template.containers))
    requires |a.template.containers| == |b.template.containers|
    requires forall i :: 0 <= i < |a.template.containers| ==>
               a.template.containers[i] == b.template.containers[i].(env := a.template.containers[i].env)
    ensures SameUpToTies(a, b) <==>
            forall i :: 0 <= i < |a.template.containers| ==>
              SameEnv(a.template.containers[i].env, b.template.containers[i].env)
  {
  }
}
