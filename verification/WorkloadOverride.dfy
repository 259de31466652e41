/** WorkloadsOverride (pkg/manifests/transform/workload-override.go). */
module WorkloadOverride {
  import opened Prelude
  import opened Env
  import opened Hpa
  import opened Resources

  datatype ResourceOverride
    = ResourceOverride(container: string, limits: map<string, string>, requests: map<string, string>)
  datatype EnvOverride = EnvOverride(container: string, envVars: seq<EnvVar>)
  datatype ProbeOverride = ProbeOverride(container: string, probe: Probe)

  datatype Override = Override(
    name: string,
    labels: map<string, string>,
    annotations: map<string, string>,
    replicas: Option<Int32>,
    nodeSelector: map<string, string>,
    topology: seq<string>,
    tolerations: seq<string>,
    affinity: Option<string>,
    resources: seq<ResourceOverride>,
    env: seq<EnvOverride>,
    readiness: seq<ProbeOverride>,
    liveness: seq<ProbeOverride>,
    hostNetwork: Option<bool>)

  const CLUSTER_FIRST_WITH_HOST_NET := "ClusterFirstWithHostNet"

  predicate HasAutoscaler(name: string) {
    name in {"eventing-webhook", "mt-broker-ingress", "mt-broker-filter",
             "kafka-broker-dispatcher", "kafka-source-dispatcher", "kafka-channel-dispatcher"}
  }

  function HpaName(workload: string): string {
    if workload == "mt-broker-ingress" then "broker-ingress-hpa"
    else if workload == "mt-broker-filter" then "broker-filter-hpa"
    else workload
  }

  // ----- First match by container name -----

  function FindResources(os: seq<ResourceOverride>, name: string): Option<ResourceOverride> {
    if os == [] then None else if os[0].container == name then Some(os[0]) else FindResources(os[1..], name)
  }

  function FindEnv(os: seq<EnvOverride>, name: string): (r: Option<EnvOverride>)
    ensures r.Some? ==> r.value in os
  {
    if os == [] then None else if os[0].container == name then Some(os[0]) else FindEnv(os[1..], name)
  }

  function FindProbe(os: seq<ProbeOverride>, name: string): Option<Probe> {
    if os == [] then None else if os[0].container == name then Some(os[0].probe.(handler := ""))
    else FindProbe(os[1..], name)
  }

  // ----- What one override does to one container -----

  const NO_PROBE := Probe("", 0, 0, 0, 0, 0, None)

  function OrElse(a: int, b: int): int {
    if a != 0 then a else b
  }

  /** mergeProbe: marshalling drops unset fields, so the set fields of the override win. */
  function Overlay(tgt: Probe, o: Probe): Probe {
    Probe(if o.handler != "" then o.handler else tgt.handler,
          OrElse(o.initialDelay, tgt.initialDelay),
          OrElse(o.timeout, tgt.timeout),
          OrElse(o.period, tgt.period),
          OrElse(o.success, tgt.success),
          OrElse(o.failure, tgt.failure),
          if o.grace.Some? then o.grace else tgt.grace)
  }

  /** replaceProbes on one container: an empty override disables the probe. */
  function ReplaceProbe(o: Option<Probe>, tgt: Option<Probe>): Option<Probe> {
    if o.None? then tgt
    else if o.value == NO_PROBE then None
    else if tgt.None? then o
    else Some(Overlay(tgt.value, o.value))
  }

  /** merge on resource lists, with its shortcut for an empty target. */
  function MergeResources(src: map<string, string>, tgt: map<string, string>): map<string, string> {
    if |tgt| > 0 then tgt + src else src
  }

  function PatchContainer(o: Override, c: Container): Container {
    var r := FindResources(o.resources, c.name);
    var e := FindEnv(o.env, c.name);
    Container(
      c.name,
      if r.Some? then MergeResources(r.value.limits, c.limits) else c.limits,
      if r.Some? then MergeResources(r.value.requests, c.requests) else c.requests,
      if e.Some? then Merged(e.value.envVars, c.env) else c.env,
      ReplaceProbe(FindProbe(o.readiness, c.name), c.readiness),
      ReplaceProbe(FindProbe(o.liveness, c.name), c.liveness))
  }

  function PatchContainers(o: Override, cs: seq<Container>): (r: seq<Container>)
    ensures |r| == |cs| && forall i :: 0 <= i < |cs| ==> r[i] == PatchContainer(o, cs[i])
  {
    seq(|cs|, i requires 0 <= i < |cs| => PatchContainer(o, cs[i]))
  }

  /** The replace functions on the pod template, other than the containers. */
  function PatchTemplate(o: Override, t: PodTemplate): PodTemplate {
    PodTemplate(
      t.labels + o.labels,
      t.annotations + o.annotations,
      if |o.nodeSelector| > 0 then o.nodeSelector else t.nodeSelector,
      if |o.topology| > 0 then o.topology else t.topology,
      if |o.tolerations| > 0 then o.tolerations else t.tolerations,
      if o.affinity.Some? then o.affinity else t.affinity,
      if o.hostNetwork.Some? then o.hostNetwork.value else t.hostNetwork,
      if o.hostNetwork == Some(true) then CLUSTER_FIRST_WITH_HOST_NET else t.dnsPolicy,
      PatchContainers(o, t.containers))
  }

  /** A Deployment or StatefulSet is matched by name, a Job by its generateName. */
  predicate Matches(o: Override, r: Resource) {
    || ((r.id.kind == DEPLOYMENT || r.id.kind == "StatefulSet") && r.id.name == o.name)
    || (r.id.kind == "Job" && r.generateName == o.name)
  }

  function PatchWorkload(o: Override, r: Resource): Resource {
    if !Matches(o, r) then r
    else
      r.(labels := r.labels + o.labels,
         annotations := r.annotations + o.annotations,
         replicas := if o.replicas.Some? && r.id.kind != "Job" && !HasAutoscaler(o.name)
                     then Some(o.replicas.value) else r.replicas,
         template := PatchTemplate(o, r.template))
  }

  predicate RewritesHpa(o: Override, r: Resource) {
    r.id.kind == HPA && o.replicas.Some? && r.id.name == HpaName(o.name)
  }

  /** One iteration of the loop over the overrides. */
  function ApplyOne(o: Override, r: Resource): Result<Resource, HpaError> {
    if RewritesHpa(o, r) then
      var b := Rewrite(r.bounds, o.replicas.value);
      if b.Err? then Err(b.error) else Ok(r.(bounds := b.value))
    else Ok(PatchWorkload(o, r))
  }

  function ApplyAll(os: seq<Override>, r: Resource): Result<Resource, HpaError> {
    if os == [] then Ok(r)
    else
      var prev := ApplyAll(os[..|os| - 1], r);
      if prev.Err? then prev else ApplyOne(os[|os| - 1], prev.value)
  }
}
