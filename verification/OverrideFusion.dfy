/**
 * A list of workload overrides acts on a workload as one combined patch, and every such patch
 * is idempotent. Hence WorkloadsOverride as a whole is idempotent.
 */
module OverrideFusion {
  import opened Prelude
  import opened Env
  import opened Hpa
  import opened Resources
  import opened WorkloadOverride

  // ----- Probes -----

  datatype ProbePatch = KeepProbe | OverlayProbe(p: Probe) | SetProbe(v: Option<Probe>)

  function ProbePatchOf(o: Option<Probe>): ProbePatch {
    if o.None? then KeepProbe else if o.value == NO_PROBE then SetProbe(None) else OverlayProbe(o.value)
  }

  function ActProbe(p: ProbePatch, tgt: Option<Probe>): Option<Probe> {
    match p
    case KeepProbe => tgt
    case OverlayProbe(q) => Some(if tgt.None? then q else Overlay(tgt.value, q))
    case SetProbe(v) => v
  }

  function ThenProbe(p: ProbePatch, q: ProbePatch): ProbePatch {
    if q.KeepProbe? then p
    else if q.SetProbe? || p.KeepProbe? then q
    else if p.SetProbe? then SetProbe(ActProbe(q, p.v))
    else OverlayProbe(Overlay(p.p, q.p))
  }

  lemma ProbeLaws(p: ProbePatch, q: ProbePatch, o: Option<Probe>, tgt: Option<Probe>)
    ensures ReplaceProbe(o, tgt) == ActProbe(ProbePatchOf(o), tgt)
    ensures ActProbe(ThenProbe(p, q), tgt) == ActProbe(q, ActProbe(p, tgt))
    ensures ActProbe(p, ActProbe(p, tgt)) == ActProbe(p, tgt)
  {
  }

  // ----- Containers -----

  datatype ContainerPatch = ContainerPatch(
    limits: map<string, string>,
    requests: map<string, string>,
    env: seq<seq<EnvVar>>,
    readiness: ProbePatch,
    liveness: ProbePatch)

  const KEEP_CONTAINER := ContainerPatch(map[], map[], [], KeepProbe, KeepProbe)

  function ContainerPatchOf(o: Override, name: string): ContainerPatch {
    var r := FindResources(o.resources, name);
    var e := FindEnv(o.env, name);
    ContainerPatch(
      if r.Some? then r.value.limits else map[],
      if r.Some? then r.value.requests else map[],
      if e.Some? then [e.value.envVars] else [],
      ProbePatchOf(FindProbe(o.readiness, name)),
      ProbePatchOf(FindProbe(o.liveness, name)))
  }

  function ThenContainer(p: ContainerPatch, q: ContainerPatch): ContainerPatch {
    ContainerPatch(p.limits + q.limits, p.requests + q.requests, p.env + q.env,
                   ThenProbe(p.readiness, q.readiness), ThenProbe(p.liveness, q.liveness))
  }

  function ActContainer(p: ContainerPatch, c: Container): Container {
    Container(c.name, c.limits + p.limits, c.requests + p.requests, MergeList(p.env, c.env),
              ActProbe(p.readiness, c.readiness), ActProbe(p.liveness, c.liveness))
  }

  lemma {:induction false} MergeListConcat(a: seq<seq<EnvVar>>, b: seq<seq<EnvVar>>, tgt: seq<EnvVar>)
    ensures MergeList(a + b, tgt) == MergeList(b, MergeList(a, tgt))
  {
    if b == [] {
      assert a + b == a;
    } else {
      assert (a + b)[..|a + b| - 1] == a + b[..|b| - 1];
      MergeListConcat(a, b[..|b| - 1], tgt);
    }
  }

  /** The shortcut of merge for an empty target makes no difference. */
  lemma MergeResourcesIsOverride(src: map<string, string>, tgt: map<string, string>)
    ensures MergeResources(src, tgt) == tgt + src
  {
    if |tgt| == 0 {
      assert tgt == map[];
    }
  }

  lemma ResourcesAct(r: Option<map<string, string>>, tgt: map<string, string>)
    ensures (if r.Some? then MergeResources(r.value, tgt) else tgt) == tgt + (if r.Some? then r.value else map[])
  {
    if r.Some? { MergeResourcesIsOverride(r.value, tgt); } else { OverrideEmpty(tgt); }
  }

  lemma OneMerge(src: seq<EnvVar>, tgt: seq<EnvVar>)
    ensures MergeList([src], tgt) == Merged(src, tgt)
  {
    assert [src][..0] == [];
  }

  lemma PatchContainerActs(o: Override, c: Container)
    ensures PatchContainer(o, c) == ActContainer(ContainerPatchOf(o, c.name), c)
  {
    var r, e := FindResources(o.resources, c.name), FindEnv(o.env, c.name);
    ResourcesAct(if r.Some? then Some(r.value.limits) else None, c.limits);
    ResourcesAct(if r.Some? then Some(r.value.requests) else None, c.requests);
    if e.Some? { OneMerge(e.value.envVars, c.env); }
    ProbeLaws(KeepProbe, KeepProbe, FindProbe(o.readiness, c.name), c.readiness);
    ProbeLaws(KeepProbe, KeepProbe, FindProbe(o.liveness, c.name), c.liveness);
  }

  lemma ActThenContainer(p: ContainerPatch, q: ContainerPatch, c: Container)
    ensures ActContainer(ThenContainer(p, q), c) == ActContainer(q, ActContainer(p, c))
  {
    OverrideAssociative(c.limits, p.limits, q.limits);
    OverrideAssociative(c.requests, p.requests, q.requests);
    MergeListConcat(p.env, q.env, c.env);
    ProbeLaws(p.readiness, q.readiness, None, c.readiness);
    ProbeLaws(p.liveness, q.liveness, None, c.liveness);
  }

  lemma ActContainerIdempotent(p: ContainerPatch, c: Container)
    requires Unique(c.env) && forall s :: s in p.env ==> Unique(s)
    ensures ActContainer(p, ActContainer(p, c)) == ActContainer(p, c)
  {
    OverrideIdempotent(c.limits, p.limits);
    OverrideIdempotent(c.requests, p.requests);
    MergeListIdempotent(p.env, c.env);
    ProbeLaws(p.readiness, p.readiness, None, c.readiness);
    ProbeLaws(p.liveness, p.liveness, None, c.liveness);
  }

  // ----- The rest of a workload -----

  datatype Patch = Patch(
    labels: map<string, string>,
    annotations: map<string, string>,
    replicas: Option<int>,
    nodeSelector: map<string, string>,
    topology: seq<string>,
    tolerations: seq<string>,
    affinity: Option<string>,
    hostNetwork: Option<bool>,
    hostDns: bool)

  const KEEP := Patch(map[], map[], None, map[], [], [], None, None, false)

  function PatchOf(o: Override, kind: string): Patch {
    Patch(o.labels, o.annotations,
          if o.replicas.Some? && kind != "Job" && !HasAutoscaler(o.name) then Some(o.replicas.value) else None,
          o.nodeSelector, o.topology, o.tolerations, o.affinity, o.hostNetwork, o.hostNetwork == Some(true))
  }

  function Then(p: Patch, q: Patch): Patch {
    Patch(p.labels + q.labels, p.annotations + q.annotations,
          if q.replicas.Some? then q.replicas else p.replicas,
          if |q.nodeSelector| > 0 then q.nodeSelector else p.nodeSelector,
          if |q.topology| > 0 then q.topology else p.topology,
          if |q.tolerations| > 0 then q.tolerations else p.tolerations,
          if q.affinity.Some? then q.affinity else p.affinity,
          if q.hostNetwork.Some? then q.hostNetwork else p.hostNetwork,
          p.hostDns || q.hostDns)
  }

  /** Everything but the containers. */
  function Act(p: Patch, r: Resource): Resource {
    var t := r.template;
    r.(labels := r.labels + p.labels,
       annotations := r.annotations + p.annotations,
       replicas := if p.replicas.Some? then p.replicas else r.replicas,
       template := t.(
         labels := t.labels + p.labels,
         annotations := t.annotations + p.annotations,
         nodeSelector := if |p.nodeSelector| > 0 then p.nodeSelector else t.nodeSelector,
         topology := if |p.topology| > 0 then p.topology else t.topology,
         tolerations := if |p.tolerations| > 0 then p.tolerations else t.tolerations,
         affinity := if p.affinity.Some? then p.affinity else t.affinity,
         hostNetwork := if p.hostNetwork.Some? then p.hostNetwork.value else t.hostNetwork,
         dnsPolicy := if p.hostDns then CLUSTER_FIRST_WITH_HOST_NET else t.dnsPolicy))
  }

  lemma ActThen(p: Patch, q: Patch, r: Resource)
    ensures Act(Then(p, q), r) == Act(q, Act(p, r))
  {
    OverrideAssociative(r.labels, p.labels, q.labels);
    OverrideAssociative(r.annotations, p.annotations, q.annotations);
    OverrideAssociative(r.template.labels, p.labels, q.labels);
    OverrideAssociative(r.template.annotations, p.annotations, q.annotations);
  }

  lemma ActIdempotent(p: Patch, r: Resource)
    ensures Act(p, Act(p, r)) == Act(p, r)
  {
    OverrideIdempotent(r.labels, p.labels);
    OverrideIdempotent(r.annotations, p.annotations);
    OverrideIdempotent(r.template.labels, p.labels);
    OverrideIdempotent(r.template.annotations, p.annotations);
  }

  // ----- Fusing a list of overrides -----

  /** The combined patch of the overrides that match `r`. */
  function Fuse(os: seq<Override>, r: Resource): Patch {
    if os == [] then KEEP
    else
      var o, p := os[|os| - 1], Fuse(os[..|os| - 1], r);
      if Matches(o, r) then Then(p, PatchOf(o, r.id.kind)) else p
  }

  function FuseContainer(os: seq<Override>, r: Resource, name: string): ContainerPatch {
    if os == [] then KEEP_CONTAINER
    else
      var o, p := os[|os| - 1], FuseContainer(os[..|os| - 1], r, name);
      if Matches(o, r) then ThenContainer(p, ContainerPatchOf(o, name)) else p
  }

  function ActContainers(os: seq<Override>, r: Resource, cs: seq<Container>): (res: seq<Container>)
    ensures |res| == |cs|
    ensures forall i :: 0 <= i < |cs| ==> res[i] == ActContainer(FuseContainer(os, r, cs[i].name), cs[i])
  {
    seq(|cs|, i requires 0 <= i < |cs| => ActContainer(FuseContainer(os, r, cs[i].name), cs[i]))
  }

  /** The combined effect of the list. */
  function ActAll(os: seq<Override>, r: Resource): Resource {
    var p := Act(Fuse(os, r), r);
    p.(template := p.template.(containers := ActContainers(os, r, r.template.containers)))
  }

  lemma {:induction false} FuseKeepsNames(os: seq<Override>, r: Resource, r': Resource, name: string)
    requires r.id == r'.id && r.generateName == r'.generateName
    ensures Fuse(os, r) == Fuse(os, r') && FuseContainer(os, r, name) == FuseContainer(os, r', name)
  {
    if os != [] { FuseKeepsNames(os[..|os| - 1], r, r', name); }
  }

  lemma PatchWorkloadActs(o: Override, r: Resource)
    requires Matches(o, r)
    ensures PatchWorkload(o, r) ==
            var p := Act(PatchOf(o, r.id.kind), r);
            p.(template := p.template.(containers := PatchContainers(o, r.template.containers)))
  {
  }

  lemma ActAllStep(os: seq<Override>, r: Resource)
    requires os != []
    ensures ActAll(os, r) == PatchWorkload(os[|os| - 1], ActAll(os[..|os| - 1], r))
  {
    var init, o := os[..|os| - 1], os[|os| - 1];
    var before := ActAll(init, r);
    if Matches(o, r) {
      PatchWorkloadActs(o, before);
      ActThen(Fuse(init, r), PatchOf(o, r.id.kind), r);
      forall i | 0 <= i < |r.template.containers|
        ensures ActAll(os, r).template.containers[i] == PatchContainer(o, before.template.containers[i])
      {
        var c := r.template.containers[i];
        ActThenContainer(FuseContainer(init, r, c.name), ContainerPatchOf(o, c.name), c);
        PatchContainerActs(o, before.template.containers[i]);
      }
      assert ActAll(os, r).template.containers == PatchContainers(o, before.template.containers);
    } else {
      assert ActContainers(os, r, r.template.containers) == before.template.containers;
    }
  }

  lemma KeepContainer(c: Container)
    ensures ActContainer(KEEP_CONTAINER, c) == c
  {
    OverrideEmpty(c.limits);
    OverrideEmpty(c.requests);
  }

  lemma ActNothing(r: Resource)
    ensures ActAll([], r) == r
  {
    var cs := r.template.containers;
    forall i | 0 <= i < |cs| ensures ActContainers([], r, cs)[i] == cs[i] { KeepContainer(cs[i]); }
    assert ActContainers([], r, cs) == cs;
    OverrideEmpty(r.labels);
    OverrideEmpty(r.annotations);
    OverrideEmpty(r.template.labels);
    OverrideEmpty(r.template.annotations);
  }

  /** On anything but an autoscaler, the loop over the overrides is the one combined patch and never fails. */
  lemma {:induction false} OverridesFuse(os: seq<Override>, r: Resource)
    requires r.id.kind != HPA
    ensures ApplyAll(os, r) == Ok(ActAll(os, r))
  {
    if os == [] {
      ActNothing(r);
    } else {
      OverridesFuse(os[..|os| - 1], r);
      ActAllStep(os, r);
    }
  }

  // ----- Idempotence -----

  ghost predicate UniqueEnvNames(os: seq<Override>, r: Resource) {
    && (forall c :: c in r.template.containers ==> Unique(c.env))
    && (forall o, e :: o in os && e in o.env ==> Unique(e.envVars))
  }

  lemma {:induction false} FusedEnvUnique(os: seq<Override>, r: Resource, name: string)
    requires forall o, e :: o in os && e in o.env ==> Unique(e.envVars)
    ensures forall s :: s in FuseContainer(os, r, name).env ==> Unique(s)
  {
    if os != [] {
      FusedEnvUnique(os[..|os| - 1], r, name);
      assert os[|os| - 1] in os;
    }
  }

  lemma ActAllIdempotent(os: seq<Override>, r: Resource)
    requires UniqueEnvNames(os, r)
    ensures ActAll(os, ActAll(os, r)) == ActAll(os, r)
  {
    var once := ActAll(os, r);
    var cs := r.template.containers;
    FuseKeepsNames(os, r, once, "");
    ActIdempotent(Fuse(os, r), r);
    assert Act(Fuse(os, r), once).(template := Act(Fuse(os, r), once).template.(containers := [])) ==
           once.(template := once.template.(containers := []));
    forall i | 0 <= i < |cs|
      ensures ActContainers(os, once, once.template.containers)[i] == once.template.containers[i]
    {
      FuseKeepsNames(os, r, once, cs[i].name);
      FusedEnvUnique(os, r, cs[i].name);
      assert cs[i] in cs;
      ActContainerIdempotent(FuseContainer(os, r, cs[i].name), cs[i]);
    }
    assert ActContainers(os, once, once.template.containers) == once.template.containers;
  }

  /** The values written to an autoscaler, in order. */
  function HpaValues(os: seq<Override>, r: Resource): seq<Int64> {
    if os == [] then []
    else HpaValues(os[..|os| - 1], r) +
         (if RewritesHpa(os[|os| - 1], r) then [os[|os| - 1].replicas.value as Int64] else [])
  }

  /** On an autoscaler, the loop is the sequence of rewrites with the matching replica counts. */
  lemma {:induction false} OverridesRewrite(os: seq<Override>, r: Resource)
    requires r.id.kind == HPA
    ensures var b := RewriteAll(r.bounds, HpaValues(os, r));
            ApplyAll(os, r) == if b.Err? then Err(b.error) else Ok(r.(bounds := b.value))
  {
    if os != [] {
      OverridesRewrite(os[..|os| - 1], r);
      var ns, init := HpaValues(os, r), HpaValues(os[..|os| - 1], r);
      if RewritesHpa(os[|os| - 1], r) {
        assert ns == init + [os[|os| - 1].replicas.value as Int64];
        assert ns[..|ns| - 1] == init;
      } else {
        assert ns == init;
      }
    }
  }

  lemma {:induction false} HpaValuesKeep(os: seq<Override>, r: Resource, r': Resource)
    requires r.id == r'.id
    ensures HpaValues(os, r) == HpaValues(os, r')
  {
    if os != [] { HpaValuesKeep(os[..|os| - 1], r, r'); }
  }

  /**
   * Applying any list of overrides a second time changes nothing, on every kind of resource and
   * across all fields, when environment names are unique in the containers and in each override.
   */
  lemma WorkloadsOverrideIdempotent(os: seq<Override>, r: Resource)
    requires UniqueEnvNames(os, r) && ApplyAll(os, r).Ok?
    ensures ApplyAll(os, ApplyAll(os, r).value) == ApplyAll(os, r)
  {
    if r.id.kind == HPA {
      OverridesRewrite(os, r);
      var once := ApplyAll(os, r).value;
      OverridesRewrite(os, once);
      HpaValuesKeep(os, r, once);
      RewriteAllIdempotent(r.bounds, HpaValues(os, r));
    } else {
      OverridesFuse(os, r);
      OverridesFuse(os, ActAll(os, r));
      ActAllIdempotent(os, r);
    }
  }
}
