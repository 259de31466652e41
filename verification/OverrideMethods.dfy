/** The loops of workload-override.go, which change the object in place, against ApplyAll. */
module OverrideMethods {
  import opened Prelude
  import opened Env
  import opened Hpa
  import opened Resources
  import opened WorkloadOverride
  import opened OverrideFusion

  /** A manifest object that transformers change in place. */
  class Unstructured {
    var content: Resource

    constructor (r: Resource)
      ensures content == r
    {
      content := r;
    }
  }

  /** merge: a range loop over the source map, in any order, or the shortcut for an empty target. */
  method MergeLoop(src: map<string, string>, tgt: map<string, string>) returns (r: map<string, string>)
    ensures r == tgt + src
  {
    if |tgt| == 0 {
      assert tgt == map[];
      return src;
    }
    r := tgt;
    var todo := src.Keys;
    while todo != {}
      invariant todo <= src.Keys
      invariant r == tgt + (map k | k in src && k !in todo :: src[k])
      decreases todo
    {
      var k :| k in todo;
      r := r[k := src[k]];
      todo := todo - {k};
    }
    assert (map k | k in src && k !in todo :: src[k]) == src;
  }

  method ReplaceResources(o: Override, cs: seq<Container>) returns (r: seq<Container>)
    ensures |r| == |cs|
    ensures forall i :: 0 <= i < |cs| ==>
              r[i] == cs[i].(limits := PatchContainer(o, cs[i]).limits, requests := PatchContainer(o, cs[i]).requests)
  {
    r := cs;
    for i := 0 to |cs|
      invariant |r| == |cs|
      invariant forall j :: i <= j < |cs| ==> r[j] == cs[j]
      invariant forall j :: 0 <= j < i ==>
                  r[j] == cs[j].(limits := PatchContainer(o, cs[j]).limits,
                                  requests := PatchContainer(o, cs[j]).requests)
    {
      var found := FindResources(o.resources, r[i].name);
      if found.Some? {
        MergeResourcesIsOverride(found.value.limits, r[i].limits);
        MergeResourcesIsOverride(found.value.requests, r[i].requests);
        var limits := MergeLoop(found.value.limits, r[i].limits);
        var requests := MergeLoop(found.value.requests, r[i].requests);
        r := r[i := r[i].(limits := limits, requests := requests)];
      }
    }
  }

  /** The sort is only determined when names are unique. */
  ghost predicate EnvAgrees(o: Override, c: Container, env: seq<EnvVar>) {
    var e := FindEnv(o.env, c.name);
    if e.None? then env == c.env
    else
      && Permutation(env, Merge(e.value.envVars, c.env)) && Sorted(env)
      && (Unique(e.value.envVars) && Unique(c.env) ==> env == Merged(e.value.envVars, c.env))
  }

  method ReplaceEnv(o: Override, cs: seq<Container>) returns (r: seq<Container>)
    ensures |r| == |cs|
    ensures forall i :: 0 <= i < |cs| ==> r[i] == cs[i].(env := r[i].env) && EnvAgrees(o, cs[i], r[i].env)
  {
    r := cs;
    for i := 0 to |cs|
      invariant |r| == |cs|
      invariant forall j :: i <= j < |cs| ==> r[j] == cs[j]
      invariant forall j :: 0 <= j < i ==> r[j] == cs[j].(env := r[j].env) && EnvAgrees(o, cs[j], r[j].env)
    {
      var found := FindEnv(o.env, r[i].name);
      if found.Some? {
        var env, _ := MergeEnv(found.value.envVars, r[i].env);
        assert EnvAgrees(o, cs[i], env);
        r := r[i := r[i].(env := env)];
      }
    }
  }

  method ReplaceProbes(o: Override, cs: seq<Container>) returns (r: seq<Container>)
    ensures |r| == |cs|
    ensures forall i :: 0 <= i < |cs| ==>
              r[i] == cs[i].(readiness := PatchContainer(o, cs[i]).readiness,
                              liveness := PatchContainer(o, cs[i]).liveness)
  {
    r := cs;
    for i := 0 to |cs|
      invariant |r| == |cs|
      invariant forall j :: i <= j < |cs| ==> r[j] == cs[j]
      invariant forall j :: 0 <= j < i ==> r[j] == cs[j].(readiness := PatchContainer(o, cs[j]).readiness)
    {
      r := r[i := r[i].(readiness := ReplaceProbe(FindProbe(o.readiness, r[i].name), r[i].readiness))];
    }
    for i := 0 to |cs|
      invariant |r| == |cs|
      invariant forall j :: i <= j < |cs| ==> r[j] == cs[j].(readiness := PatchContainer(o, cs[j]).readiness)
      invariant forall j :: 0 <= j < i ==>
                  r[j] == cs[j].(readiness := PatchContainer(o, cs[j]).readiness,
                                  liveness := PatchContainer(o, cs[j]).liveness)
    {
      r := r[i := r[i].(liveness := ReplaceProbe(FindProbe(o.liveness, r[i].name), r[i].liveness))];
    }
  }

  // ----- Objects that agree up to the order of equal environment variable names -----

  /** The same entries; where the lists differ both are sorted by name, so only entries of one name can be swapped. */
  ghost predicate SameEnv(a: seq<EnvVar>, b: seq<EnvVar>) {
    a == b || (Permutation(a, b) && Sorted(a) && Sorted(b))
  }

  ghost predicate SameUpToTies(a: Resource, b: Resource) {
    var cs, ds := a.template.containers, b.template.containers;
    && a == b.(template := b.template.(containers := cs))
    && |cs| == |ds|
    && forall i :: 0 <= i < |cs| ==> cs[i] == ds[i].(env := cs[i].env) && SameEnv(cs[i].env, ds[i].env)
  }

  lemma MergedEnvAgrees(o: Override, c: Container, env: seq<EnvVar>)
    requires EnvAgrees(o, c, env)
    ensures SameEnv(env, PatchContainer(o, c).env)
  {
    var e := FindEnv(o.env, c.name);
    if e.Some? { SortSorts(Merge(e.value.envVars, c.env)); }
  }

  /** The containers that the three loops leave. */
  ghost predicate Patched(o: Override, cs: seq<Container>, r: seq<Container>) {
    && |r| == |cs|
    && forall i :: 0 <= i < |cs| ==> r[i] == PatchContainer(o, cs[i]).(env := r[i].env) && EnvAgrees(o, cs[i], r[i].env)
  }

  method PatchContainersLoop(o: Override, cs: seq<Container>) returns (r: seq<Container>)
    ensures Patched(o, cs, r)
  {
    r := ReplaceResources(o, cs);
    r := ReplaceEnv(o, r);
    assert forall i :: 0 <= i < |cs| ==> EnvAgrees(o, cs[i], r[i].env);
    r := ReplaceProbes(o, r);
  }

  lemma PatchedAgrees(o: Override, r: Resource, cs: seq<Container>)
    requires Matches(o, r) && Patched(o, r.template.containers, cs)
    ensures var p := PatchWorkload(o, r);
            && SameUpToTies(p.(template := p.template.(containers := cs)), p)
            && (UniqueEnvNames([o], r) ==> cs == p.template.containers)
  {
    var ds := r.template.containers;
    forall i | 0 <= i < |cs| ensures SameEnv(cs[i].env, PatchContainer(o, ds[i]).env) {
      MergedEnvAgrees(o, ds[i], cs[i].env);
    }
    if UniqueEnvNames([o], r) {
      forall i | 0 <= i < |cs| ensures cs[i] == PatchContainer(o, ds[i]) {
        assert ds[i] in ds && o in [o];
      }
    }
  }

  /** The replace calls of one matching override. */
  method PatchInPlace(o: Override, u: Unstructured)
    requires Matches(o, u.content)
    modifies u
    ensures SameUpToTies(u.content, PatchWorkload(o, old(u.content)))
    ensures UniqueEnvNames([o], old(u.content)) ==> u.content == PatchWorkload(o, old(u.content))
  {
    var r := u.content;
    var cs := PatchContainersLoop(o, r.template.containers);
    PatchedAgrees(o, r, cs);
    var replicas := if o.replicas.Some? && r.id.kind != "Job" && !HasAutoscaler(o.name)
                    then Some(o.replicas.value) else r.replicas;
    u.content := r.(labels := r.labels + o.labels, annotations := r.annotations + o.annotations, replicas := replicas,
                    template := PatchTemplate(o, r.template).(containers := cs));
  }

  /** Patching containers that agree up to ties gives containers that agree up to ties. */
  lemma PatchKeepsTies(o: Override, c: Container, d: Container, env: seq<EnvVar>)
    requires c == d.(env := c.env) && SameEnv(c.env, d.env) && SameEnv(env, PatchContainer(o, c).env)
    ensures PatchContainer(o, c) == PatchContainer(o, d).(env := PatchContainer(o, c).env)
    ensures SameEnv(env, PatchContainer(o, d).env)
  {
    var e := FindEnv(o.env, c.name);
    if e.Some? {
      PermutationKept(e.value.envVars, c.env, d.env);
    }
  }

  lemma PermutationKept(src: seq<EnvVar>, s: seq<EnvVar>, t: seq<EnvVar>)
    requires Permutation(s, t)
    ensures Permutation(Merged(src, s), Merged(src, t)) && Sorted(Merged(src, s)) && Sorted(Merged(src, t))
  {
    MergePermutes(src, s, t);
    SortSorts(Merge(src, s));
    SortSorts(Merge(src, t));
  }

  lemma SameUpToTiesPatched(o: Override, a: Resource, b: Resource, a': Resource)
    requires SameUpToTies(a, b) && Matches(o, a)
    requires SameUpToTies(a', PatchWorkload(o, a))
    ensures SameUpToTies(a', PatchWorkload(o, b))
  {
    var as_, bs, cs := a.template.containers, b.template.containers, a'.template.containers;
    forall i | 0 <= i < |cs|
      ensures cs[i] == PatchContainer(o, bs[i]).(env := cs[i].env) && SameEnv(cs[i].env, PatchContainer(o, bs[i]).env)
    {
      PatchKeepsTies(o, as_[i], bs[i], cs[i].env);
    }
  }

  lemma {:induction false} UniqueKept(os: seq<Override>, r: Resource)
    requires UniqueEnvNames(os, r) && r.id.kind != HPA
    ensures forall c :: c in ActAll(os, r).template.containers ==> Unique(c.env)
  {
    var cs := r.template.containers;
    forall i | 0 <= i < |cs| ensures Unique(ActAll(os, r).template.containers[i].env) {
      assert cs[i] in cs;
      FusedEnvUnique(os, r, cs[i].name);
      MergeListMeaning(FuseContainer(os, r, cs[i].name).env, cs[i].env);
    }
  }

  lemma UniqueSoFar(os: seq<Override>, i: nat, r: Resource)
    requires i < |os| && UniqueEnvNames(os, r) && r.id.kind != HPA && ApplyAll(os[..i], r).Ok?
    ensures UniqueEnvNames([os[i]], ApplyAll(os[..i], r).value)
  {
    OverridesFuse(os[..i], r);
    UniqueKept(os[..i], r);
    assert os[i] in os;
  }

  /** One iteration of the loop. */
  method ApplyInPlace(o: Override, u: Unstructured) returns (err: Option<HpaError>)
    modifies u
    ensures var r := ApplyOne(o, old(u.content));
            match r
            case Err(e) => err == Some(e)
            case Ok(v) => && err == None && SameUpToTies(u.content, v)
                          && ((u.content.id.kind != HPA ==> UniqueEnvNames([o], old(u.content))) ==> u.content == v)
    ensures u.content.id == old(u.content.id)
  {
    err := None;
    if RewritesHpa(o, u.content) {
      var b := Rewrite(u.content.bounds, o.replicas.value);
      if b.Err? {
        return Some(b.error);
      }
      u.content := u.content.(bounds := b.value);
    } else if Matches(o, u.content) {
      PatchInPlace(o, u);
    }
  }

  /** An iteration on objects that agree up to ties. */
  lemma ApplyKeepsTies(o: Override, a: Resource, b: Resource, a': Resource)
    requires SameUpToTies(a, b)
    ensures ApplyOne(o, a).Err? ==> ApplyOne(o, b) == Err(ApplyOne(o, a).error)
    ensures ApplyOne(o, a).Ok? ==> ApplyOne(o, b).Ok?
    ensures ApplyOne(o, a).Ok? && SameUpToTies(a', ApplyOne(o, a).value) ==> SameUpToTies(a', ApplyOne(o, b).value)
  {
    if !RewritesHpa(o, a) && Matches(o, a) && SameUpToTies(a', PatchWorkload(o, a)) {
      SameUpToTiesPatched(o, a, b, a');
    }
  }

  /**
   * The transformer. It fails exactly when ApplyAll does; otherwise the object becomes what
   * ApplyAll says, up to the order of variables of one name, and exactly that if names are unique.
   */
  method WorkloadsOverride(os: seq<Override>, u: Unstructured) returns (err: Option<HpaError>)
    modifies u
    ensures var r := ApplyAll(os, old(u.content));
            match r
            case Err(e) => err == Some(e)
            case Ok(v) => err == None
                          && SameUpToTies(u.content, v) && (UniqueEnvNames(os, old(u.content)) ==> u.content == v)
  {
    ghost var r0 := u.content;
    for i := 0 to |os|
      invariant ApplyAll(os[..i], r0).Ok?
      invariant SameUpToTies(u.content, ApplyAll(os[..i], r0).value)
      invariant UniqueEnvNames(os, r0) ==> u.content == ApplyAll(os[..i], r0).value
      invariant u.content.id == r0.id
    {
      assert os[..i + 1][..i] == os[..i];
      ghost var a, before := u.content, ApplyAll(os[..i], r0).value;
      err := ApplyInPlace(os[i], u);
      ApplyKeepsTies(os[i], a, before, u.content);
      if err.Some? {
        FailureStays(os, i + 1, r0);
        return;
      }
      if UniqueEnvNames(os, r0) && r0.id.kind != HPA { UniqueSoFar(os, i, r0); }
    }
    assert os[..|os|] == os;
    err := None;
  }

  lemma {:induction false} FailureStays(os: seq<Override>, k: nat, r: Resource)
    requires k <= |os| && ApplyAll(os[..k], r).Err?
    ensures ApplyAll(os, r) == ApplyAll(os[..k], r)
    decreases |os|
  {
    if k == |os| {
      assert os[..k] == os;
    } else {
      assert os[..|os| - 1][..k] == os[..k];
      FailureStays(os[..|os| - 1], k, r);
    }
  }
}
