/** The Manifests accumulator (pkg/manifests/manifests.go) and the transformers that run over it. */
module Manifests {
  import opened Prelude
  import opened Hpa
  import opened Resources
  import opened WorkloadOverride
  import opened OverrideFusion

  const EVENTMESH_API_VERSION := "operator.knative.dev/v1alpha1"

  function OwnerOf(em: string): OwnerRef {
    OwnerRef(EVENTMESH_API_VERSION, "EventMesh", em)
  }

  datatype Error = BadBounds(e: HpaError) | NotScalable | ConfigMapFailed

  type Data = Option<map<string, string>>

  /** The transformers the operator registers. All ConfigMap transformers only rewrite the data of ConfigMaps. */
  datatype Transformer =
    | NoTransformer
    | EditConfigMap(edit: (string, string, Data) -> Result<Data, Error>)
    | Overrides(os: seq<Override>)
    | Scale(apiVersion: string, kind: string, namespace: string, name: string, n: int)
    | HpaReplicas(namespace: string, name: string, minimum: Int64)
    | InjectOwner(em: string)

  predicate Scalable(apiVersion: string, kind: string) {
    || (apiVersion == "apps/v1" && kind in {DEPLOYMENT, "StatefulSet", "ReplicaSet"})
    || (apiVersion == "v1" && kind == "ReplicationController")
  }

  /** One transformer on one resource; a nil transformer is skipped. */
  function Run(t: Transformer, r: Resource): Result<Resource, Error> {
    match t
    case NoTransformer => Ok(r)
    case EditConfigMap(edit) =>
      if r.id.kind != "ConfigMap" then Ok(r)
      else
        var d := edit(r.id.namespace, r.id.name, r.data);
        if d.Err? then Err(d.error) else Ok(r.(data := d.value))
    case Overrides(os) =>
      var x := ApplyAll(os, r);
      if x.Err? then Err(BadBounds(x.error)) else Ok(x.value)
    case Scale(apiVersion, kind, namespace, name, n) =>
      if !Scalable(r.id.apiVersion, r.id.kind) then Ok(r)
      else if !Scalable(apiVersion, kind) then Err(NotScalable)
      else if r.id == Id(apiVersion, kind, namespace, name) then Ok(r.(replicas := Some(n)))
      else Ok(r)
    case HpaReplicas(namespace, name, n) =>
      if r.id.kind != HPA || r.id.namespace != namespace || r.id.name != name then Ok(r)
      else
        var b := Rewrite(r.bounds, n);
        if b.Err? then Err(BadBounds(b.error)) else Ok(r.(bounds := b.value))
    case InjectOwner(em) =>
      if r.id.kind == "Namespace" then Ok(r) else Ok(r.(owners := [OwnerOf(em)]))
  }

  /** The kinds that have replicas to set. */
  predicate HasReplicas(id: Id) {
    || (id.apiVersion == "apps/v1" && id.kind == "Deployment")
    || (id.apiVersion == "apps/v1" && id.kind == "StatefulSet")
    || (id.apiVersion == "apps/v1" && id.kind == "ReplicaSet")
    || (id.apiVersion == "v1" && id.kind == "ReplicationController")
  }

  /**
   * Scale: nothing happens to a resource without replicas; a target of another kind is an error
   * on every resource with replicas; and exactly the named resource gets them, and nothing else.
   */
  lemma ScaleExactly(target: Id, n: int, r: Resource)
    ensures var out := Run(Scale(target.apiVersion, target.kind, target.namespace, target.name, n), r);
            && (!HasReplicas(r.id) ==> out == Ok(r))
            && (HasReplicas(r.id) && !HasReplicas(target) ==> out == Err(NotScalable))
            && (HasReplicas(r.id) && HasReplicas(target) ==>
                  out == Ok(if r.id == target then r.(replicas := Some(n)) else r))
  {
  }

  /** All transformers in order on one resource. */
  function RunAll(ts: seq<Transformer>, r: Resource): Result<Resource, Error> {
    if ts == [] then Ok(r)
    else
      var prev := RunAll(ts[..|ts| - 1], r);
      if prev.Err? then prev else Run(ts[|ts| - 1], prev.value)
  }

  /** Manifest.Transform: every resource in order, or the first error. */
  function Transform(ts: seq<Transformer>, rs: seq<Resource>): (out: Result<seq<Resource>, Error>)
    ensures out.Ok? ==> |out.value| == |rs|
  {
    if rs == [] then Ok([])
    else
      var prev := Transform(ts, rs[..|rs| - 1]);
      if prev.Err? then prev
      else
        var r := RunAll(ts, rs[|rs| - 1]);
        if r.Err? then Err(r.error) else Ok(prev.value + [r.value])
  }

  /** Transformers change an object's content, never the name it is stored under. */
  lemma {:induction false} RunAllKeepsId(ts: seq<Transformer>, r: Resource)
    requires RunAll(ts, r).Ok?
    ensures RunAll(ts, r).value.id == r.id && RunAll(ts, r).value.generateName == r.generateName
  {
    if ts != [] {
      RunAllKeepsId(ts[..|ts| - 1], r);
      var prev := RunAll(ts[..|ts| - 1], r).value;
      match ts[|ts| - 1] {
        case Overrides(os) =>
          if prev.id.kind == HPA { OverridesRewrite(os, prev); } else { OverridesFuse(os, prev); }
        case _ =>
      }
    }
  }

  lemma {:induction false} RunAllConcat(a: seq<Transformer>, b: seq<Transformer>, r: Resource)
    ensures RunAll(a + b, r) == if RunAll(a, r).Err? then RunAll(a, r) else RunAll(b, RunAll(a, r).value)
  {
    if b == [] {
      assert a + b == a;
    } else {
      assert (a + b)[..|a + b| - 1] == a + b[..|b| - 1];
      RunAllConcat(a, b[..|b| - 1], r);
    }
  }

  lemma {:induction false} TransformPointwise(ts: seq<Transformer>, rs: seq<Resource>)
    requires Transform(ts, rs).Ok?
    ensures forall i :: 0 <= i < |rs| ==> RunAll(ts, rs[i]) == Ok(Transform(ts, rs).value[i])
    ensures forall i :: 0 <= i < |rs| ==> Transform(ts, rs).value[i].id == rs[i].id
  {
    if rs != [] {
      TransformPointwise(ts, rs[..|rs| - 1]);
      RunAllKeepsId(ts, rs[|rs| - 1]);
    }
  }

  lemma {:induction false} TransformConcat(ts: seq<Transformer>, a: seq<Resource>, b: seq<Resource>)
    ensures Transform(ts, a + b).Ok? <==> Transform(ts, a).Ok? && Transform(ts, b).Ok?
    ensures Transform(ts, a + b).Ok? ==> Transform(ts, a + b).value == Transform(ts, a).value + Transform(ts, b).value
  {
    if b == [] {
      assert a + b == a;
    } else {
      assert (a + b)[..|a + b| - 1] == a + b[..|b| - 1];
      TransformConcat(ts, a, b[..|b| - 1]);
    }
  }

  /** Transforming a list transforms what it says about each object. */
  lemma {:induction false} TransformLookup(ts: seq<Transformer>, rs: seq<Resource>, id: Id)
    requires Transform(ts, rs).Ok?
    ensures var before, after := Lookup(rs, id), Lookup(Transform(ts, rs).value, id);
            if before.None? then after.None? else after.Some? && RunAll(ts, before.value) == Ok(after.value)
  {
    if rs != [] {
      var init, last := rs[..|rs| - 1], rs[|rs| - 1];
      TransformLookup(ts, init, id);
      RunAllKeepsId(ts, last);
      LookupSnoc(Transform(ts, init).value, RunAll(ts, last).value, id);
    }
  }

  // ----- Moving an autoscaler between the lists -----

  predicate IsHpa(r: Resource, name: string) {
    r.id.kind == HPA && r.id.name == name
  }

  /** Filter by kind and name (`keep`), or by its complement. */
  function FilterHpa(rs: seq<Resource>, name: string, keep: bool): seq<Resource> {
    if rs == [] then []
    else FilterHpa(rs[..|rs| - 1], name, keep) + (if IsHpa(rs[|rs| - 1], name) == keep then [rs[|rs| - 1]] else [])
  }

  lemma {:induction false} FilterHpaLookup(rs: seq<Resource>, name: string, keep: bool, id: Id)
    ensures Lookup(FilterHpa(rs, name, keep), id) ==
            if (id.kind == HPA && id.name == name) == keep then Lookup(rs, id) else None
  {
    if rs != [] {
      var init, last := rs[..|rs| - 1], rs[|rs| - 1];
      FilterHpaLookup(init, name, keep, id);
      if IsHpa(last, name) == keep {
        LookupSnoc(FilterHpa(init, name, keep), last, id);
      } else {
        assert FilterHpa(rs, name, keep) == FilterHpa(init, name, keep);
      }
    }
  }

  lemma {:induction false} FilterHpaCount(rs: seq<Resource>, name: string, keep: bool, x: Resource)
    ensures multiset(FilterHpa(rs, name, keep))[x] == if IsHpa(x, name) == keep then multiset(rs)[x] else 0
  {
    if rs != [] {
      var init, last := rs[..|rs| - 1], rs[|rs| - 1];
      FilterHpaCount(init, name, keep, x);
      CountSnoc(init, last, x);
      assert rs == init + [last];
      if IsHpa(last, name) == keep {
        CountSnoc(FilterHpa(init, name, keep), last, x);
      } else {
        assert FilterHpa(rs, name, keep) == FilterHpa(init, name, keep);
      }
    }
  }

  lemma CountSnoc(rs: seq<Resource>, r: Resource, x: Resource)
    ensures multiset(rs + [r])[x] == multiset(rs)[x] + (if r == x then 1 else 0)
  {
  }

  lemma FilterHpaSubset(rs: seq<Resource>, name: string)
    ensures forall x :: x in FilterHpa(rs, name, false) ==> x in rs
  {
    forall x | x in FilterHpa(rs, name, false) ensures x in rs {
      FilterHpaCount(rs, name, false, x);
      assert multiset(FilterHpa(rs, name, false))[x] > 0;
      assert multiset(rs)[x] > 0;
    }
  }

  lemma FilterHpaSplits(rs: seq<Resource>, name: string)
    ensures multiset(FilterHpa(rs, name, true)) + multiset(FilterHpa(rs, name, false)) == multiset(rs)
  {
    forall x
      ensures multiset(FilterHpa(rs, name, true))[x] + multiset(FilterHpa(rs, name, false))[x] == multiset(rs)[x] {
      FilterHpaCount(rs, name, true, x);
      FilterHpaCount(rs, name, false, x);
    }
  }

  lemma {:induction false} LookupConcat(a: seq<Resource>, b: seq<Resource>, id: Id)
    ensures Lookup(a + b, id) == if Lookup(b, id).Some? then Lookup(b, id) else Lookup(a, id)
  {
    if b == [] {
      assert a + b == a;
    } else {
      assert (a + b)[..|a + b| - 1] == a + b[..|b| - 1];
      LookupConcat(a, b[..|b| - 1], id);
    }
  }
}
