/** What the workload overrides do to containers, workloads and replicas, field by field. */
module OverrideMeaning {
  import opened Prelude
  import opened Env
  import opened Hpa
  import opened Resources
  import opened WorkloadOverride
  import opened OverrideFusion
  import opened Scaling
  import Manifests

  // ----- The first entry for a container -----

  ghost predicate FirstResource(os: seq<ResourceOverride>, name: string, i: nat) {
    i < |os| && os[i].container == name && forall j :: 0 <= j < i ==> os[j].container != name
  }

  ghost predicate FirstEnv(os: seq<EnvOverride>, name: string, i: nat) {
    i < |os| && os[i].container == name && forall j :: 0 <= j < i ==> os[j].container != name
  }

  ghost predicate FirstProbe(os: seq<ProbeOverride>, name: string, i: nat) {
    i < |os| && os[i].container == name && forall j :: 0 <= j < i ==> os[j].container != name
  }

  /** `find`: the first entry whose container has this name, and nothing if there is none. */
  lemma {:induction false} FindResourcesExactly(os: seq<ResourceOverride>, name: string)
    ensures FindResources(os, name).None? <==> forall i :: 0 <= i < |os| ==> os[i].container != name
    ensures forall i: nat, x :: FirstResource(os, name, i) ==> (FindResources(os, name) == Some(x) <==> x == os[i])
  {
    if os != [] {
      var tail := os[1..];
      FindResourcesExactly(tail, name);
      assert forall i :: 0 <= i < |tail| ==> tail[i] == os[i + 1];
      assert forall i :: 1 <= i < |os| ==> os[i] == tail[i - 1];
      forall i: nat | FirstResource(os, name, i) && i > 0 ensures FirstResource(tail, name, i - 1) {
      }
    }
  }

  lemma {:induction false} FindEnvExactly(os: seq<EnvOverride>, name: string)
    ensures FindEnv(os, name).None? <==> forall i :: 0 <= i < |os| ==> os[i].container != name
    ensures forall i: nat, x :: FirstEnv(os, name, i) ==> (FindEnv(os, name) == Some(x) <==> x == os[i])
  {
    if os != [] {
      var tail := os[1..];
      FindEnvExactly(tail, name);
      assert forall i :: 0 <= i < |tail| ==> tail[i] == os[i + 1];
      assert forall i :: 1 <= i < |os| ==> os[i] == tail[i - 1];
      forall i: nat | FirstEnv(os, name, i) && i > 0 ensures FirstEnv(tail, name, i - 1) {
      }
    }
  }

  lemma {:induction false} FindProbeExactly(os: seq<ProbeOverride>, name: string)
    ensures FindProbe(os, name).None? <==> forall i :: 0 <= i < |os| ==> os[i].container != name
    ensures forall i: nat, x :: FirstProbe(os, name, i) ==>
              (FindProbe(os, name) == Some(x) <==> x == os[i].probe.(handler := ""))
  {
    if os != [] {
      var tail := os[1..];
      FindProbeExactly(tail, name);
      assert forall i :: 0 <= i < |tail| ==> tail[i] == os[i + 1];
      assert forall i :: 1 <= i < |os| ==> os[i] == tail[i - 1];
      forall i: nat | FirstProbe(os, name, i) && i > 0 ensures FirstProbe(tail, name, i - 1) {
      }
    }
  }

  // ----- Containers -----

  /** `r` has every entry of `src`, and is as `tgt` at all other keys. */
  ghost predicate OverriddenBy(r: map<string, string>, src: map<string, string>, tgt: map<string, string>) {
    && (forall k :: k in src ==> k in r && r[k] == src[k])
    && (forall k :: k !in src ==> (k in r <==> k in tgt) && (k in tgt ==> r[k] == tgt[k]))
  }

  /**
   * Limits and requests: the first entry for the container sets its keys and no other, and a
   * container without an entry keeps what it has.
   */
  lemma ContainerResources(o: Override, c: Container)
    ensures forall i: nat :: FirstResource(o.resources, c.name, i) ==>
              && OverriddenBy(PatchContainer(o, c).limits, o.resources[i].limits, c.limits)
              && OverriddenBy(PatchContainer(o, c).requests, o.resources[i].requests, c.requests)
    ensures (forall i :: 0 <= i < |o.resources| ==> o.resources[i].container != c.name) ==>
              PatchContainer(o, c).limits == c.limits && PatchContainer(o, c).requests == c.requests
  {
    FindResourcesExactly(o.resources, c.name);
    forall i: nat | FirstResource(o.resources, c.name, i)
      ensures OverriddenBy(PatchContainer(o, c).limits, o.resources[i].limits, c.limits)
      ensures OverriddenBy(PatchContainer(o, c).requests, o.resources[i].requests, c.requests)
    {
      MergeResourcesIsOverride(o.resources[i].limits, c.limits);
      MergeResourcesIsOverride(o.resources[i].requests, c.requests);
    }
  }

  /** Environment: the first entry for the container is merged, and a container without an entry keeps what it has. */
  lemma ContainerEnv(o: Override, c: Container)
    ensures forall i: nat :: FirstEnv(o.env, c.name, i) ==> PatchContainer(o, c).env == Merged(o.env[i].envVars, c.env)
    ensures (forall i :: 0 <= i < |o.env| ==> o.env[i].container != c.name) ==> PatchContainer(o, c).env == c.env
  {
    FindEnvExactly(o.env, c.name);
  }

  /** One field of a probe: a value of 0 in the override means that it is not set. */
  predicate FieldSet(r: int, o: int, tgt: int) {
    (o != 0 ==> r == o) && (o == 0 ==> r == tgt)
  }

  /**
   * The probe `r` that an override `o` leaves of `tgt`: none if the override sets nothing, the
   * override's own values if there was no probe, and otherwise the old probe with the fields set
   * that the override sets. The handler is never overridden.
   */
  ghost predicate ProbeOverridden(r: Option<Probe>, o: Probe, tgt: Option<Probe>) {
    if o.initialDelay == 0 && o.timeout == 0 && o.period == 0 && o.success == 0 && o.failure == 0 && o.grace.None?
    then r.None?
    else
      var was := if tgt.Some? then tgt.value else Probe("", 0, 0, 0, 0, 0, None);
      && r.Some? && r.value.handler == was.handler
      && FieldSet(r.value.initialDelay, o.initialDelay, was.initialDelay)
      && FieldSet(r.value.timeout, o.timeout, was.timeout)
      && FieldSet(r.value.period, o.period, was.period) && FieldSet(r.value.success, o.success, was.success)
      && FieldSet(r.value.failure, o.failure, was.failure)
      && r.value.grace == (if o.grace.Some? then o.grace else was.grace)
  }

  /** Probes: the first entry for the container decides; a container without an entry keeps its probe. */
  lemma ContainerProbes(o: Override, c: Container)
    ensures forall i: nat :: FirstProbe(o.readiness, c.name, i) ==>
              ProbeOverridden(PatchContainer(o, c).readiness, o.readiness[i].probe, c.readiness)
    ensures forall i: nat :: FirstProbe(o.liveness, c.name, i) ==>
              ProbeOverridden(PatchContainer(o, c).liveness, o.liveness[i].probe, c.liveness)
    ensures (forall i :: 0 <= i < |o.readiness| ==> o.readiness[i].container != c.name) ==>
              PatchContainer(o, c).readiness == c.readiness
    ensures (forall i :: 0 <= i < |o.liveness| ==> o.liveness[i].container != c.name) ==>
              PatchContainer(o, c).liveness == c.liveness
  {
    FindProbeExactly(o.readiness, c.name);
    FindProbeExactly(o.liveness, c.name);
    forall i: nat | FirstProbe(o.readiness, c.name, i)
      ensures ProbeOverridden(PatchContainer(o, c).readiness, o.readiness[i].probe, c.readiness)
    {
      ProbeMeaning(o.readiness[i].probe, c.readiness);
    }
    forall i: nat | FirstProbe(o.liveness, c.name, i)
      ensures ProbeOverridden(PatchContainer(o, c).liveness, o.liveness[i].probe, c.liveness)
    {
      ProbeMeaning(o.liveness[i].probe, c.liveness);
    }
  }

  lemma ProbeMeaning(o: Probe, tgt: Option<Probe>)
    ensures ProbeOverridden(ReplaceProbe(Some(o.(handler := "")), tgt), o, tgt)
  {
  }

  // ----- Workloads -----

  /** Deployments and StatefulSets are matched by their name, Jobs by their generateName, nothing else is. */
  predicate IsFor(o: Override, r: Resource) {
    if r.id.kind == "Deployment" || r.id.kind == "StatefulSet" then r.id.name == o.name
    else r.id.kind == "Job" && r.generateName == o.name
  }

  /** What a matching override leaves of a workload, apart from replicas and containers. */
  ghost predicate WorkloadOverridden(r: Resource, o: Override, before: Resource) {
    var t, u := r.template, before.template;
    && r.id == before.id && r.generateName == before.generateName && r.owners == before.owners
    && r.bounds == before.bounds && r.data == before.data
    && OverriddenBy(r.labels, o.labels, before.labels) && OverriddenBy(t.labels, o.labels, u.labels)
    && OverriddenBy(r.annotations, o.annotations, before.annotations)
    && OverriddenBy(t.annotations, o.annotations, u.annotations)
    && t.nodeSelector == (if o.nodeSelector == map[] then u.nodeSelector else o.nodeSelector)
    && t.topology == (if o.topology == [] then u.topology else o.topology)
    && t.tolerations == (if o.tolerations == [] then u.tolerations else o.tolerations)
    && t.affinity == (if o.affinity.None? then u.affinity else o.affinity)
    && t.hostNetwork == (if o.hostNetwork.None? then u.hostNetwork else o.hostNetwork.value)
    && t.dnsPolicy == (if o.hostNetwork == Some(true) then "ClusterFirstWithHostNet" else u.dnsPolicy)
    && |t.containers| == |u.containers|
    && forall i :: 0 <= i < |u.containers| ==> t.containers[i] == PatchContainer(o, u.containers[i])
  }

  lemma OverrideMeans(src: map<string, string>, tgt: map<string, string>)
    ensures OverriddenBy(tgt + src, src, tgt)
  {
  }

  lemma WorkloadMeaning(o: Override, r: Resource)
    ensures IsFor(o, r) ==> WorkloadOverridden(PatchWorkload(o, r), o, r)
    ensures !IsFor(o, r) ==> PatchWorkload(o, r) == r
  {
    assert IsFor(o, r) <==> Matches(o, r);
    if Matches(o, r) {
      OverrideMeans(o.labels, r.labels);
      OverrideMeans(o.labels, r.template.labels);
      OverrideMeans(o.annotations, r.annotations);
      OverrideMeans(o.annotations, r.template.annotations);
      TemplateMeaning(o, r.template);
    }
  }

  lemma TemplateMeaning(o: Override, u: PodTemplate)
    ensures var t := PatchTemplate(o, u);
            && t.nodeSelector == (if o.nodeSelector == map[] then u.nodeSelector else o.nodeSelector)
            && t.topology == (if o.topology == [] then u.topology else o.topology)
            && t.tolerations == (if o.tolerations == [] then u.tolerations else o.tolerations)
  {
  }

  // ----- Replicas -----

  /** The workloads whose replicas an autoscaler controls. */
  predicate Autoscaled(name: string) {
    || name == "eventing-webhook" || name == "mt-broker-ingress" || name == "mt-broker-filter"
    || name == "kafka-broker-dispatcher" || name == "kafka-source-dispatcher" || name == "kafka-channel-dispatcher"
  }

  /**
   * spec.replicas of a Deployment or StatefulSet after any list of overrides: left alone for the
   * six workloads with an autoscaler, and otherwise that of the last override that sets it.
   */
  lemma {:induction false} OverrideReplicas(os: seq<Override>, w: Resource)
    requires w.id.kind == "Deployment" || w.id.kind == "StatefulSet"
    ensures ApplyAll(os, w).Ok? && ApplyAll(os, w).value.id == w.id
    ensures ApplyAll(os, w).value.replicas ==
            if Autoscaled(w.id.name) || LastReplicas(os, w.id.name).None? then w.replicas
            else LastReplicas(os, w.id.name)
  {
    if os != [] {
      OverrideReplicas(os[..|os| - 1], w);
      OneOverrideReplicas(os[|os| - 1], ApplyAll(os[..|os| - 1], w).value);
    }
  }

  lemma AutoscaledNames(name: string)
    ensures HasAutoscaler(name) <==> Autoscaled(name)
  {
  }

  lemma OneOverrideReplicas(o: Override, w: Resource)
    requires w.id.kind == "Deployment" || w.id.kind == "StatefulSet"
    ensures ApplyOne(o, w).Ok? && ApplyOne(o, w).value.id == w.id
    ensures ApplyOne(o, w).value.replicas ==
            if o.name == w.id.name && o.replicas.Some? && !Autoscaled(w.id.name) then Some(o.replicas.value)
            else w.replicas
  {
    AutoscaledNames(o.name);
  }

  /** Jobs have no replicas to set. */
  lemma {:induction false} JobReplicas(os: seq<Override>, w: Resource)
    requires w.id.kind == "Job"
    ensures ApplyAll(os, w).Ok? && ApplyAll(os, w).value.id == w.id && ApplyAll(os, w).value.replicas == w.replicas
  {
    if os != [] { JobReplicas(os[..|os| - 1], w); }
  }

  /** The replicas of the last override of one of two names that sets them. */
  function LastOfEither(os: seq<Override>, a: string, b: string): Option<Int32> {
    if os == [] then None
    else
      var o := os[|os| - 1];
      if (o.name == a || o.name == b) && o.replicas.Some? then Some(o.replicas.value)
      else LastOfEither(os[..|os| - 1], a, b)
  }

  /**
   * Which overrides reach an autoscaler: those of its own name, and for the two broker
   * autoscalers those of their workload as well. An override of a broker workload reaches no
   * autoscaler of that workload's own name.
   */
  lemma {:induction false} OverridesOfAutoscaler(os: seq<Override>, hpa: string)
    ensures LastHpaReplicas(os, hpa) ==
            if hpa == "mt-broker-ingress" || hpa == "mt-broker-filter" then None
            else if hpa == "broker-ingress-hpa" then LastOfEither(os, "mt-broker-ingress", "broker-ingress-hpa")
            else if hpa == "broker-filter-hpa" then LastOfEither(os, "mt-broker-filter", "broker-filter-hpa")
            else LastOfEither(os, hpa, hpa)
  {
    if os != [] { OverridesOfAutoscaler(os[..|os| - 1], hpa); }
  }

  lemma {:induction false} SameName(os: seq<Override>, name: string)
    ensures match LastOfEither(os, name, name)
            case None => LastReplicas(os, name) == None
            case Some(n) => LastReplicas(os, name) == Some(n)
  {
    if os != [] { SameName(os[..|os| - 1], name); }
  }

  /**
   * An autoscaler with the name of its workload, such as eventing-webhook, after the whole
   * pipeline: with an override of that name that sets replicas, the minimum is that of the last
   * one and the maximum moves by the same distance; without one both bounds are the manifest's.
   */
  lemma OwnNameBounds(m: Contents, p: Parsed, ns: string, imc: Int64, mt: Int64, em: string, h: Resource, out: Resource)
    requires p.Valid() && h.id.kind == "HorizontalPodAutoscaler" && h.id.namespace == ns
    requires h.id.name !in {"mt-broker-ingress", "mt-broker-filter", "broker-ingress-hpa", "broker-filter-hpa"}
    requires Manifests.RunAll(Prepared(m, p, ns, imc, mt, em).transformers, h) == Ok(out)
    ensures LastReplicas(p.os, h.id.name).None? ==> out.bounds == h.bounds
    ensures LastReplicas(p.os, h.id.name).Some? ==>
              && !h.bounds.min.NotANumber? && !h.bounds.max.NotANumber?
              && out.bounds.min.Number? && out.bounds.min.n == LastReplicas(p.os, h.id.name).value
              && out.bounds.max.Absent? == h.bounds.max.Absent?
    ensures var n, b := LastReplicas(p.os, h.id.name), h.bounds;
            n.Some? && b.max.Number?
            && MIN_INT64 <= b.max.n + n.value - (if b.min.Number? then b.min.n else 0) <= MAX_INT64 ==>
              out.bounds.max.Number? && out.bounds.max.n == b.max.n + n.value - (if b.min.Number? then b.min.n else 0)
  {
    PreparedBounds(m, p, ns, imc, mt, em, h);
    OverridesOfAutoscaler(p.os, h.id.name);
    SameName(p.os, h.id.name);
  }
}
