/** The Kubernetes objects of the manifests, with the fields the operator reads or writes. */
module Resources {
  import opened Prelude
  import opened Env
  import opened Hpa

  /** The handler part of a probe is opaque; the numeric fields use 0 for "not set". */
  datatype Probe = Probe(
    handler: string,
    initialDelay: int,
    timeout: int,
    period: int,
    success: int,
    failure: int,
    grace: Option<int>)

  datatype Container = Container(
    name: string,
    limits: map<string, string>,
    requests: map<string, string>,
    env: seq<EnvVar>,
    readiness: Option<Probe>,
    liveness: Option<Probe>)

  datatype PodTemplate = PodTemplate(
    labels: map<string, string>,
    annotations: map<string, string>,
    nodeSelector: map<string, string>,
    topology: seq<string>,
    tolerations: seq<string>,
    affinity: Option<string>,
    hostNetwork: bool,
    dnsPolicy: string,
    containers: seq<Container>)

  datatype OwnerRef = OwnerRef(apiVersion: string, kind: string, name: string)

  /** The name under which the API server stores an object. */
  datatype Id = Id(apiVersion: string, kind: string, namespace: string, name: string)

  datatype Resource = Resource(
    id: Id,
    generateName: string,
    labels: map<string, string>,
    annotations: map<string, string>,
    owners: seq<OwnerRef>,
    replicas: Option<int>,
    bounds: Bounds,
    template: PodTemplate,
    data: Option<map<string, string>>)

  const DEPLOYMENT := "Deployment"
  const HPA := "HorizontalPodAutoscaler"

  /** What the manifest list says about an object: with several entries the last one wins. */
  function Lookup(rs: seq<Resource>, id: Id): Option<Resource> {
    if rs == [] then None
    else if rs[|rs| - 1].id == id then Some(rs[|rs| - 1])
    else Lookup(rs[..|rs| - 1], id)
  }

  lemma LookupSnoc(rs: seq<Resource>, r: Resource, id: Id)
    ensures Lookup(rs + [r], id) == if r.id == id then Some(r) else Lookup(rs, id)
  {
    assert (rs + [r])[..|rs|] == rs;
  }

  lemma {:induction false} LookupFinds(rs: seq<Resource>, id: Id)
    ensures Lookup(rs, id).Some? ==> Lookup(rs, id).value in rs && Lookup(rs, id).value.id == id
    ensures Lookup(rs, id).None? <==> forall r :: r in rs ==> r.id != id
  {
    if rs != [] {
      LookupFinds(rs[..|rs| - 1], id);
      assert rs == rs[..|rs| - 1] + [rs[|rs| - 1]];
      assert rs[|rs| - 1] in rs;
    }
  }
}
