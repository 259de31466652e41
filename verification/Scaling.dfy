/**
 * Replica decisions (pkg/reconciler/eventmesh/eventmesh.go): user overrides, autoscaler rewriting
 * and scale-to-zero meet in one list of transformers.
 */
module Scaling {
  import opened Prelude
  import opened Hpa
  import opened Resources
  import opened WorkloadOverride
  import opened OverrideFusion
  import opened Manifests

  datatype Contents = Contents(
    toApply: seq<Resource>,
    toDelete: seq<Resource>,
    postInstall: seq<Resource>,
    transformers: seq<Transformer>)

  function Appended(a: Contents, b: Contents): Contents {
    Contents(a.toApply + b.toApply, a.toDelete + b.toDelete,
             a.postInstall + b.postInstall, a.transformers + b.transformers)
  }

  /** What two parsers return, appended; the first error stops. */
  function AppendedResults<E>(a: Result<Contents, E>, b: Result<Contents, E>): Result<Contents, E> {
    if a.Err? then a else if b.Err? then b else Ok(Appended(a.value, b.value))
  }

  // ----- Which override decides -----

  /** The replicas of the last override of that name that sets them. */
  function LastReplicas(os: seq<Override>, name: string): Option<int> {
    if os == [] then None
    else if os[|os| - 1].name == name && os[|os| - 1].replicas.Some? then Some(os[|os| - 1].replicas.value)
    else LastReplicas(os[..|os| - 1], name)
  }

  /** The replicas of the last override whose workload is served by that autoscaler. */
  function LastHpaReplicas(os: seq<Override>, hpa: string): Option<Int32> {
    if os == [] then None
    else if HpaName(os[|os| - 1].name) == hpa && os[|os| - 1].replicas.Some? then Some(os[|os| - 1].replicas.value)
    else LastHpaReplicas(os[..|os| - 1], hpa)
  }

  function ByName(os: seq<Override>, name: string): seq<Override> {
    if os == [] then []
    else ByName(os[..|os| - 1], name) + (if os[|os| - 1].name == name then [os[|os| - 1]] else [])
  }

  /** Exactly the overrides of that name are selected, as often as they occur, */
  lemma {:induction false} ByNameCount(os: seq<Override>, name: string, o: Override)
    ensures multiset(ByName(os, name))[o] == if o.name == name then multiset(os)[o] else 0
  {
    if os != [] {
      ByNameCount(os[..|os| - 1], name, o);
      assert os == os[..|os| - 1] + [os[|os| - 1]];
    }
  }

  /** and in the order of the list. */
  lemma {:induction false} ByNameOrder(a: seq<Override>, b: seq<Override>, name: string)
    ensures ByName(a + b, name) == ByName(a, name) + ByName(b, name)
  {
    if b == [] {
      assert a + b == a;
    } else {
      assert (a + b)[..|a + b| - 1] == a + b[..|b| - 1];
      ByNameOrder(a, b[..|b| - 1], name);
    }
  }

  ghost predicate AnySetsReplicas(os: seq<Override>) {
    exists k :: 0 <= k < |os| && os[k].replicas.Some?
  }

  /** The question the two methods answer together: does any override of that name decide the replicas? */
  lemma {:induction false} ByNameDecides(os: seq<Override>, name: string)
    ensures AnySetsReplicas(ByName(os, name)) <==> LastReplicas(os, name).Some?
  {
    if os != [] {
      var init, last := os[..|os| - 1], os[|os| - 1];
      ByNameDecides(init, name);
      var before := ByName(init, name);
      if last.name == name {
        assert ByName(os, name) == before + [last];
        assert (before + [last])[|before|] == last;
        assert forall k :: 0 <= k < |before| ==> (before + [last])[k] == before[k];
        assert AnySetsReplicas(before + [last]) <==> AnySetsReplicas(before) || last.replicas.Some?;
      } else {
        assert ByName(os, name) == before;
      }
    }
  }

  method GetByName(os: seq<Override>, name: string) returns (r: seq<Override>)
    ensures r == ByName(os, name)
  {
    r := [];
    for i := 0 to |os|
      invariant r == ByName(os[..i], name)
    {
      assert os[..i + 1][..i] == os[..i];
      if os[i].name == name {
        r := r + [os[i]];
      }
    }
    assert os[..|os|] == os;
  }

  method HasAtLeastOneWithReplicasSet(os: seq<Override>) returns (found: bool)
    ensures found <==> AnySetsReplicas(os)
  {
    for i := 0 to |os|
      invariant forall k :: 0 <= k < i ==> os[k].replicas.None?
    {
      if os[i].replicas.Some? {
        return true;
      }
    }
    found := false;
  }

  // ----- applyScaling on values -----

  function AddScale(m: Contents, os: seq<Override>, ns: string, name: string, target: Int64): Contents {
    if LastReplicas(os, name).Some? then m
    else m.(transformers := m.transformers + [Scale("apps/v1", DEPLOYMENT, ns, name, target)])
  }

  function AddHpa(m: Contents, os: seq<Override>, ns: string, hpa: string, name: string, target: Int64): Contents {
    if LastReplicas(os, name).Some? then m
    else if target == 0 then
      m.(toDelete := m.toDelete + FilterHpa(m.toApply, hpa, true),
         toApply := FilterHpa(m.toApply, hpa, false),
         transformers := m.transformers + [Scale("apps/v1", DEPLOYMENT, ns, name, target)])
    else m.(transformers := m.transformers + [HpaReplicas(ns, hpa, target)])
  }

  function ScaleChannels(m: Contents, os: seq<Override>, ns: string, imc: Int64): Contents {
    AddScale(AddScale(m, os, ns, "imc-dispatcher", imc), os, ns, "imc-controller", imc)
  }

  function ScaleBrokers(m: Contents, os: seq<Override>, ns: string, mt: Int64): Contents {
    var m1 := AddHpa(m, os, ns, "broker-filter-hpa", "mt-broker-filter", mt);
    var m2 := AddHpa(m1, os, ns, "broker-ingress-hpa", "mt-ingress-filter", mt);
    AddScale(m2, os, ns, "mt-broker-controller", mt)
  }

  function ApplyScaling(m: Contents, os: seq<Override>, ns: string, imc: Int64, mt: Int64): Contents {
    ScaleBrokers(ScaleChannels(m, os, ns, imc), os, ns, mt)
  }

  // ----- The accumulator -----

  /** The Manifests struct that the stages of a reconcile pass on and change. */
  class Accumulator {
    var toApply: seq<Resource>
    var toDelete: seq<Resource>
    var postInstall: seq<Resource>
    var transformers: seq<Transformer>

    ghost function View(): Contents
      reads this
    {
      Contents(toApply, toDelete, postInstall, transformers)
    }

    constructor ()
      ensures View() == Contents([], [], [], [])
    {
      toApply, toDelete, postInstall, transformers := [], [], [], [];
    }

    /** `m` is None for a nil *Manifests. */
    method Append(m: Option<Contents>)
      modifies this
      ensures View() == if m.None? then old(View()) else Appended(old(View()), m.value)
    {
      if m.None? {
        return;
      }
      toApply := toApply + m.value.toApply;
      toDelete := toDelete + m.value.toDelete;
      postInstall := postInstall + m.value.postInstall;
      transformers := transformers + m.value.transformers;
    }

    method AddTransformer(t: Transformer)
      modifies this
      ensures View() == old(View()).(transformers := old(transformers) + [t])
    {
      transformers := transformers + [t];
    }

    method AddDeploymentScaleTransformerIfNeeded(os: seq<Override>, ns: string, name: string, target: Int64)
      modifies this
      ensures View() == AddScale(old(View()), os, ns, name, target)
    {
      var byName := GetByName(os, name);
      var found := HasAtLeastOneWithReplicasSet(byName);
      ByNameDecides(os, name);
      if !found {
        AddTransformer(Scale("apps/v1", DEPLOYMENT, ns, name, target));
      }
    }

    method AddHpaTransformerIfNeeded(os: seq<Override>, ns: string, hpa: string, name: string, target: Int64)
      modifies this
      ensures View() == AddHpa(old(View()), os, ns, hpa, name, target)
    {
      var byName := GetByName(os, name);
      var found := HasAtLeastOneWithReplicasSet(byName);
      ByNameDecides(os, name);
      if !found {
        if target == 0 {
          toDelete := toDelete + FilterHpa(toApply, hpa, true);
          toApply := FilterHpa(toApply, hpa, false);
          AddTransformer(Scale("apps/v1", DEPLOYMENT, ns, name, target));
        } else {
          AddTransformer(HpaReplicas(ns, hpa, target));
        }
      }
    }

    method ApplyScalingStage(os: seq<Override>, ns: string, imc: Int64, mt: Int64)
      modifies this
      ensures View() == ApplyScaling(old(View()), os, ns, imc, mt)
    {
      AddDeploymentScaleTransformerIfNeeded(os, ns, "imc-dispatcher", imc);
      AddDeploymentScaleTransformerIfNeeded(os, ns, "imc-controller", imc);
      AddHpaTransformerIfNeeded(os, ns, "broker-filter-hpa", "mt-broker-filter", mt);
      AddHpaTransformerIfNeeded(os, ns, "broker-ingress-hpa", "mt-ingress-filter", mt);
      AddDeploymentScaleTransformerIfNeeded(os, ns, "mt-broker-controller", mt);
    }

    /** TransformToApply, TransformToDelete, TransformPostInstall: the first error stops, lists already done stay. */
    method TransformStage() returns (err: Option<Error>)
      modifies this
      ensures err.None? <==>
              Transform(old(transformers), old(toApply)).Ok? && Transform(old(transformers), old(toDelete)).Ok?
                             && Transform(old(transformers), old(postInstall)).Ok?
      ensures err.None? ==>
                View() == Contents(Transform(old(transformers), old(toApply)).value,
                                   Transform(old(transformers), old(toDelete)).value,
                                               Transform(old(transformers), old(postInstall)).value, old(transformers))
      ensures err.Some? ==> transformers == old(transformers) && postInstall == old(postInstall)
    {
      var a := Transform(transformers, toApply);
      if a.Err? {
        return Some(a.error);
      }
      toApply := a.value;
      var d := Transform(transformers, toDelete);
      if d.Err? {
        return Some(d.error);
      }
      toDelete := d.value;
      var p := Transform(transformers, postInstall);
      if p.Err? {
        return Some(p.error);
      }
      postInstall := p.value;
      err := None;
    }
  }

  // ----- The whole list of transformers -----

  predicate IsEdit(t: Transformer) {
    t.NoTransformer? || t.EditConfigMap?
  }

  /** What the parsers register: ConfigMap edits and, among them, the workload overrides. */
  datatype Parsed = Parsed(before: seq<Transformer>, os: seq<Override>, after: seq<Transformer>) {
    ghost predicate Valid() {
      (forall t :: t in before ==> IsEdit(t)) && (forall t :: t in after ==> IsEdit(t))
    }

    function Transformers(): seq<Transformer> {
      before + [Overrides(os)] + after
    }
  }

  /** The manifests just before they are transformed: parsed, scaled, with the owner injected. */
  function Prepared(m: Contents, p: Parsed, ns: string, imc: Int64, mt: Int64, em: string): Contents {
    var s := ApplyScaling(m.(transformers := p.Transformers()), p.os, ns, imc, mt);
    s.(transformers := s.transformers + [InjectOwner(em)])
  }

  function DeploymentId(ns: string, name: string): Id {
    Id("apps/v1", DEPLOYMENT, ns, name)
  }

  lemma {:induction false} EditsIgnore(ts: seq<Transformer>, r: Resource)
    requires (forall t :: t in ts ==> IsEdit(t)) && r.id.kind != "ConfigMap"
    ensures RunAll(ts, r) == Ok(r)
  {
    if ts != [] {
      EditsIgnore(ts[..|ts| - 1], r);
      assert ts[|ts| - 1] in ts;
    }
  }

  /** On anything but a ConfigMap the parsers' transformers amount to the overrides. */
  lemma ParsedRun(p: Parsed, r: Resource)
    requires p.Valid() && r.id.kind != "ConfigMap"
    ensures RunAll(p.Transformers(), r) == Run(Overrides(p.os), r)
  {
    var o := [Overrides(p.os)];
    RunAllConcat(p.before + o, p.after, r);
    RunAllConcat(p.before, o, r);
    EditsIgnore(p.before, r);
    assert o[..0] == [];
    assert RunAll(o, r) == Run(Overrides(p.os), r);
    if RunAll(o, r).Ok? {
      RunAllKeepsId(o, r);
      EditsIgnore(p.after, RunAll(o, r).value);
    }
  }

  lemma RunSnoc(ts: seq<Transformer>, t: Transformer, r: Resource)
    ensures RunAll(ts + [t], r) == if RunAll(ts, r).Err? then RunAll(ts, r) else Run(t, RunAll(ts, r).value)
  {
    assert (ts + [t])[..|ts|] == ts;
  }

  // ----- Deployments -----

  lemma {:induction false} FusedReplicas(os: seq<Override>, d: Resource)
    requires d.id.kind == DEPLOYMENT
    ensures Fuse(os, d).replicas == if HasAutoscaler(d.id.name) then None else LastReplicas(os, d.id.name)
  {
    if os != [] { FusedReplicas(os[..|os| - 1], d); }
  }

  /** What a list of transformers leaves in spec.replicas of a Deployment; None when it fails. */
  function ReplicasAfter(ts: seq<Transformer>, d: Resource): Option<Option<int>> {
    var r := RunAll(ts, d);
    if r.Err? then None else Some(r.value.replicas)
  }

  lemma ParsedReplicas(p: Parsed, d: Resource)
    requires p.Valid() && d.id.kind == DEPLOYMENT
    ensures ReplicasAfter(p.Transformers(), d) ==
            Some(if HasAutoscaler(d.id.name) || LastReplicas(p.os, d.id.name).None?
                 then d.replicas else LastReplicas(p.os, d.id.name))
  {
    ParsedRun(p, d);
    OverridesFuse(p.os, d);
    FusedReplicas(p.os, d);
  }

  lemma AddScaleReplicas(m: Contents, os: seq<Override>, ns: string, name: string, target: Int64, d: Resource)
    requires d.id.kind == DEPLOYMENT && RunAll(m.transformers, d).Ok?
    ensures ReplicasAfter(AddScale(m, os, ns, name, target).transformers, d) ==
            if d.id == DeploymentId(ns, name) && LastReplicas(os, name).None? then Some(Some(target))
            else ReplicasAfter(m.transformers, d)
  {
    RunAllKeepsId(m.transformers, d);
    RunSnoc(m.transformers, Scale("apps/v1", DEPLOYMENT, ns, name, target), d);
  }

  lemma AddHpaReplicas(m: Contents, os: seq<Override>, ns: string, hpa: string, name: string, target: Int64,
                       d: Resource)
    requires d.id.kind == DEPLOYMENT && RunAll(m.transformers, d).Ok?
    ensures ReplicasAfter(AddHpa(m, os, ns, hpa, name, target).transformers, d) ==
            if d.id == DeploymentId(ns, name) && LastReplicas(os, name).None? && target == 0 then Some(Some(0))
            else ReplicasAfter(m.transformers, d)
  {
    RunAllKeepsId(m.transformers, d);
    RunSnoc(m.transformers, Scale("apps/v1", DEPLOYMENT, ns, name, target), d);
    RunSnoc(m.transformers, HpaReplicas(ns, hpa, target), d);
  }

  lemma ChannelsReplicas(m: Contents, os: seq<Override>, ns: string, imc: Int64, d: Resource)
    requires d.id == DeploymentId(ns, d.id.name) && RunAll(m.transformers, d).Ok?
    ensures ReplicasAfter(ScaleChannels(m, os, ns, imc).transformers, d) ==
            if (d.id.name == "imc-dispatcher" || d.id.name == "imc-controller") && LastReplicas(os, d.id.name).None?
            then Some(Some(imc)) else ReplicasAfter(m.transformers, d)
  {
    AddScaleReplicas(m, os, ns, "imc-dispatcher", imc, d);
    AddScaleReplicas(AddScale(m, os, ns, "imc-dispatcher", imc), os, ns, "imc-controller", imc, d);
  }

  lemma BrokersReplicas(m: Contents, os: seq<Override>, ns: string, mt: Int64, d: Resource)
    requires d.id == DeploymentId(ns, d.id.name) && RunAll(m.transformers, d).Ok?
    ensures ReplicasAfter(ScaleBrokers(m, os, ns, mt).transformers, d) ==
            if LastReplicas(os, d.id.name).Some? then ReplicasAfter(m.transformers, d)
            else if d.id.name == "mt-broker-controller" then Some(Some(mt))
            else if (d.id.name == "mt-broker-filter" || d.id.name == "mt-ingress-filter") && mt == 0 then Some(Some(0))
            else ReplicasAfter(m.transformers, d)
  {
    AddHpaReplicas(m, os, ns, "broker-filter-hpa", "mt-broker-filter", mt, d);
    var m1 := AddHpa(m, os, ns, "broker-filter-hpa", "mt-broker-filter", mt);
    AddHpaReplicas(m1, os, ns, "broker-ingress-hpa", "mt-ingress-filter", mt, d);
    var m2 := AddHpa(m1, os, ns, "broker-ingress-hpa", "mt-ingress-filter", mt);
    AddScaleReplicas(m2, os, ns, "mt-broker-controller", mt, d);
  }

  lemma OwnerKeepsReplicas(ts: seq<Transformer>, em: string, d: Resource)
    requires RunAll(ts, d).Ok?
    ensures ReplicasAfter(ts + [InjectOwner(em)], d) == ReplicasAfter(ts, d)
  {
    RunSnoc(ts, InjectOwner(em), d);
  }

  // ----- Deployments as a whole -----

  /** The transformers leave of a Deployment what the overrides leave, up to its replicas. */
  ghost predicate OnlyReplicas(ts: seq<Transformer>, d: Resource, base: Resource) {
    var r := RunAll(ts, d);
    r.Ok? && r.value == base.(replicas := r.value.replicas)
  }

  lemma AddScaleOnlyReplicas(m: Contents, os: seq<Override>, ns: string, name: string, target: Int64, d: Resource,
                             base: Resource)
    requires d.id.kind == DEPLOYMENT && OnlyReplicas(m.transformers, d, base)
    ensures OnlyReplicas(AddScale(m, os, ns, name, target).transformers, d, base)
  {
    RunSnoc(m.transformers, Scale("apps/v1", DEPLOYMENT, ns, name, target), d);
  }

  lemma AddHpaOnlyReplicas(m: Contents, os: seq<Override>, ns: string, hpa: string, name: string, target: Int64,
                           d: Resource, base: Resource)
    requires d.id.kind == DEPLOYMENT && base.id == d.id && OnlyReplicas(m.transformers, d, base)
    ensures OnlyReplicas(AddHpa(m, os, ns, hpa, name, target).transformers, d, base)
  {
    RunSnoc(m.transformers, Scale("apps/v1", DEPLOYMENT, ns, name, target), d);
    RunSnoc(m.transformers, HpaReplicas(ns, hpa, target), d);
  }

  lemma ScalingOnlyReplicas(m: Contents, os: seq<Override>, ns: string, imc: Int64, mt: Int64, d: Resource,
                            base: Resource)
    requires d.id.kind == DEPLOYMENT && base.id == d.id && OnlyReplicas(m.transformers, d, base)
    ensures OnlyReplicas(ApplyScaling(m, os, ns, imc, mt).transformers, d, base)
  {
    AddScaleOnlyReplicas(m, os, ns, "imc-dispatcher", imc, d, base);
    var m1 := AddScale(m, os, ns, "imc-dispatcher", imc);
    AddScaleOnlyReplicas(m1, os, ns, "imc-controller", imc, d, base);
    var m2 := ScaleChannels(m, os, ns, imc);
    AddHpaOnlyReplicas(m2, os, ns, "broker-filter-hpa", "mt-broker-filter", mt, d, base);
    var m3 := AddHpa(m2, os, ns, "broker-filter-hpa", "mt-broker-filter", mt);
    AddHpaOnlyReplicas(m3, os, ns, "broker-ingress-hpa", "mt-ingress-filter", mt, d, base);
    var m4 := AddHpa(m3, os, ns, "broker-ingress-hpa", "mt-ingress-filter", mt);
    AddScaleOnlyReplicas(m4, os, ns, "mt-broker-controller", mt, d, base);
  }

  /** Apart from spec.replicas, a Deployment after the pipeline is what the overrides leave, with the owner injected. */
  lemma DeploymentPipeline(m: Contents, p: Parsed, ns: string, imc: Int64, mt: Int64, em: string, d: Resource)
    requires p.Valid() && d.id.kind == DEPLOYMENT
    ensures ApplyAll(p.os, d).Ok?
    ensures var out := RunAll(Prepared(m, p, ns, imc, mt, em).transformers, d);
            out.Ok? && out.value == ApplyAll(p.os, d).value.(replicas := out.value.replicas, owners := [OwnerOf(em)])
  {
    var m0 := m.(transformers := p.Transformers());
    ParsedWorkload(p, d);
    var base := ApplyAll(p.os, d).value;
    ScalingOnlyReplicas(m0, p.os, ns, imc, mt, d, base);
    var ts := ApplyScaling(m0, p.os, ns, imc, mt).transformers;
    OwnerLast(ts, em, d, RunAll(ts, d).value);
  }

  predicate ScaledDirectly(name: string) {
    name == "imc-dispatcher" || name == "imc-controller" || name == "mt-broker-controller"
  }

  /**
   * The Deployments without an autoscaler: whatever the overrides, ConfigMap edits and scale
   * targets, the replicas applied in the end are those of the last override of that name that
   * sets them, and the scale target if there is none.
   */
  lemma DirectReplicas(m: Contents, p: Parsed, ns: string, imc: Int64, mt: Int64, em: string, name: string)
    requires p.Valid() && ScaledDirectly(name)
    requires var prepared := Prepared(m, p, ns, imc, mt, em); Transform(prepared.transformers, prepared.toApply).Ok?
    requires Lookup(m.toApply, DeploymentId(ns, name)).Some?
    ensures var prepared := Prepared(m, p, ns, imc, mt, em);
            var final := Lookup(Transform(prepared.transformers, prepared.toApply).value, DeploymentId(ns, name));
            && final.Some?
            && final.value.replicas == if LastReplicas(p.os, name).Some? then LastReplicas(p.os, name)
                                       else Some(if name == "mt-broker-controller" then mt else imc)
  {
    var id := DeploymentId(ns, name);
    var d := Lookup(m.toApply, id).value;
    LookupFinds(m.toApply, id);
    var prepared := Prepared(m, p, ns, imc, mt, em);
    PreparedLists(m, p, ns, imc, mt, em, id);
    TransformLookup(prepared.transformers, prepared.toApply, id);
    var m0 := m.(transformers := p.Transformers());
    ParsedReplicas(p, d);
    ChannelsReplicas(m0, p.os, ns, imc, d);
    BrokersReplicas(ScaleChannels(m0, p.os, ns, imc), p.os, ns, mt, d);
    OwnerKeepsReplicas(ApplyScaling(m0, p.os, ns, imc, mt).transformers, em, d);
  }

  predicate IsWorkload(id: Id) {
    id.kind == "Deployment" || id.kind == "StatefulSet"
  }

  /** A workload that the scaling functions do not name. */
  predicate NotScaled(ns: string, id: Id) {
    && IsWorkload(id)
    && id != DeploymentId(ns, "imc-dispatcher") && id != DeploymentId(ns, "imc-controller")
    && id != DeploymentId(ns, "mt-broker-controller")
    && id != DeploymentId(ns, "mt-broker-filter") && id != DeploymentId(ns, "mt-ingress-filter")
  }

  lemma AddScaleMisses(m: Contents, os: seq<Override>, ns: string, name: string, target: Int64, w: Resource)
    requires IsWorkload(w.id) && w.id != DeploymentId(ns, name)
    requires RunAll(m.transformers, w).Ok?
    ensures RunAll(AddScale(m, os, ns, name, target).transformers, w) == RunAll(m.transformers, w)
  {
    RunAllKeepsId(m.transformers, w);
    RunSnoc(m.transformers, Scale("apps/v1", DEPLOYMENT, ns, name, target), w);
  }

  lemma AddHpaMisses(m: Contents, os: seq<Override>, ns: string, hpa: string, name: string, target: Int64, w: Resource)
    requires IsWorkload(w.id) && w.id != DeploymentId(ns, name)
    requires RunAll(m.transformers, w).Ok?
    ensures RunAll(AddHpa(m, os, ns, hpa, name, target).transformers, w) == RunAll(m.transformers, w)
  {
    RunAllKeepsId(m.transformers, w);
    RunSnoc(m.transformers, Scale("apps/v1", DEPLOYMENT, ns, name, target), w);
    RunSnoc(m.transformers, HpaReplicas(ns, hpa, target), w);
  }

  lemma ScaleChannelsMisses(m: Contents, os: seq<Override>, ns: string, imc: Int64, w: Resource)
    requires NotScaled(ns, w.id) && RunAll(m.transformers, w).Ok?
    ensures RunAll(ScaleChannels(m, os, ns, imc).transformers, w) == RunAll(m.transformers, w)
  {
    AddScaleMisses(m, os, ns, "imc-dispatcher", imc, w);
    AddScaleMisses(AddScale(m, os, ns, "imc-dispatcher", imc), os, ns, "imc-controller", imc, w);
  }

  lemma ScaleBrokersMisses(m: Contents, os: seq<Override>, ns: string, mt: Int64, w: Resource)
    requires NotScaled(ns, w.id) && RunAll(m.transformers, w).Ok?
    ensures RunAll(ScaleBrokers(m, os, ns, mt).transformers, w) == RunAll(m.transformers, w)
  {
    AddHpaMisses(m, os, ns, "broker-filter-hpa", "mt-broker-filter", mt, w);
    var m1 := AddHpa(m, os, ns, "broker-filter-hpa", "mt-broker-filter", mt);
    AddHpaMisses(m1, os, ns, "broker-ingress-hpa", "mt-ingress-filter", mt, w);
    var m2 := AddHpa(m1, os, ns, "broker-ingress-hpa", "mt-ingress-filter", mt);
    AddScaleMisses(m2, os, ns, "mt-broker-controller", mt, w);
  }

  /** Every other workload is left to the overrides: scaling changes nothing of it, and it gets its owner. */
  lemma OthersNotScaled(m: Contents, p: Parsed, ns: string, imc: Int64, mt: Int64, em: string, w: Resource)
    requires p.Valid() && NotScaled(ns, w.id)
    ensures ApplyAll(p.os, w).Ok?
    ensures RunAll(Prepared(m, p, ns, imc, mt, em).transformers, w) ==
            Ok(ApplyAll(p.os, w).value.(owners := [OwnerOf(em)]))
  {
    var m0 := m.(transformers := p.Transformers());
    ParsedWorkload(p, w);
    ScaleChannelsMisses(m0, p.os, ns, imc, w);
    ScaleBrokersMisses(ScaleChannels(m0, p.os, ns, imc), p.os, ns, mt, w);
    OwnerLast(ApplyScaling(m0, p.os, ns, imc, mt).transformers, em, w, ApplyAll(p.os, w).value);
  }

  lemma ParsedWorkload(p: Parsed, w: Resource)
    requires p.Valid() && IsWorkload(w.id)
    ensures ApplyAll(p.os, w).Ok? && ApplyAll(p.os, w).value.id == w.id
    ensures RunAll(p.Transformers(), w) == Ok(ApplyAll(p.os, w).value)
  {
    ParsedRun(p, w);
    OverridesFuse(p.os, w);
  }

  lemma OwnerLast(ts: seq<Transformer>, em: string, w: Resource, x: Resource)
    requires RunAll(ts, w) == Ok(x) && x.id.kind != "Namespace"
    ensures RunAll(ts + [InjectOwner(em)], w) == Ok(x.(owners := [OwnerOf(em)]))
  {
    RunSnoc(ts, InjectOwner(em), w);
  }

  // ----- Which list an autoscaler ends in -----

  /** Scaling to zero without a user override replaces the autoscaler. */
  predicate Replaced(os: seq<Override>, name: string, target: Int64) {
    LastReplicas(os, name).None? && target == 0
  }

  /** Is this the autoscaler of a broker component that is being scaled to zero? */
  predicate Moved(os: seq<Override>, mt: Int64, id: Id) {
    && id.kind == HPA
    && (|| (id.name == "broker-filter-hpa" && Replaced(os, "mt-broker-filter", mt))
        || (id.name == "broker-ingress-hpa" && Replaced(os, "mt-ingress-filter", mt)))
  }

  lemma AddHpaLists(m: Contents, os: seq<Override>, ns: string, hpa: string, name: string, target: Int64, id: Id)
    ensures var m' := AddHpa(m, os, ns, hpa, name, target);
            var moved := Replaced(os, name, target) && id.kind == HPA && id.name == hpa;
            && Lookup(m'.toApply, id) == (if moved then None else Lookup(m.toApply, id))
            && Lookup(m'.toDelete, id) ==
               (if moved && Lookup(m.toApply, id).Some? then Lookup(m.toApply, id) else Lookup(m.toDelete, id))
  {
    if Replaced(os, name, target) {
      FilterHpaLookup(m.toApply, hpa, false, id);
      FilterHpaLookup(m.toApply, hpa, true, id);
      LookupConcat(m.toDelete, FilterHpa(m.toApply, hpa, true), id);
    }
  }

  /** Nothing but the replaced autoscalers moves, and they move from one list to the other. */
  lemma PreparedLists(m: Contents, p: Parsed, ns: string, imc: Int64, mt: Int64, em: string, id: Id)
    ensures var m' := Prepared(m, p, ns, imc, mt, em);
            && Lookup(m'.toApply, id) == (if Moved(p.os, mt, id) then None else Lookup(m.toApply, id))
            && Lookup(m'.toDelete, id) ==
               (if Moved(p.os, mt, id) && Lookup(m.toApply, id).Some?
                then Lookup(m.toApply, id) else Lookup(m.toDelete, id))
  {
    var m0 := ScaleChannels(m.(transformers := p.Transformers()), p.os, ns, imc);
    AddHpaLists(m0, p.os, ns, "broker-filter-hpa", "mt-broker-filter", mt, id);
    var m1 := AddHpa(m0, p.os, ns, "broker-filter-hpa", "mt-broker-filter", mt);
    AddHpaLists(m1, p.os, ns, "broker-ingress-hpa", "mt-ingress-filter", mt, id);
  }

  lemma AddHpaConserves(m: Contents, os: seq<Override>, ns: string, hpa: string, name: string, target: Int64)
    ensures var m' := AddHpa(m, os, ns, hpa, name, target);
            multiset(m'.toApply) + multiset(m'.toDelete) == multiset(m.toApply) + multiset(m.toDelete)
  {
    FilterHpaSplits(m.toApply, hpa);
  }

  /** Relocating autoscalers conserves the resources of both lists taken together. */
  lemma PreparedConserves(m: Contents, p: Parsed, ns: string, imc: Int64, mt: Int64, em: string)
    ensures var m' := Prepared(m, p, ns, imc, mt, em);
            && multiset(m'.toApply) + multiset(m'.toDelete) == multiset(m.toApply) + multiset(m.toDelete)
            && m'.postInstall == m.postInstall
  {
    var m0 := ScaleChannels(m.(transformers := p.Transformers()), p.os, ns, imc);
    AddHpaConserves(m0, p.os, ns, "broker-filter-hpa", "mt-broker-filter", mt);
    var m1 := AddHpa(m0, p.os, ns, "broker-filter-hpa", "mt-broker-filter", mt);
    AddHpaConserves(m1, p.os, ns, "broker-ingress-hpa", "mt-ingress-filter", mt);
  }

  // ----- The bounds of an autoscaler -----

  /** What a list of transformers leaves of the bounds of an autoscaler; None when it fails. */
  function BoundsAfter(ts: seq<Transformer>, h: Resource): Option<Bounds> {
    var r := RunAll(ts, h);
    if r.Err? then None else Some(r.value.bounds)
  }

  /** What it leaves in spec.minReplicas. */
  function MinAfter(ts: seq<Transformer>, h: Resource): Option<IntField> {
    var b := BoundsAfter(ts, h);
    if b.None? then None else Some(b.value.min)
  }

  lemma {:induction false} LastHpaValue(os: seq<Override>, h: Resource)
    requires h.id.kind == HPA
    ensures var ns := HpaValues(os, h);
            LastHpaReplicas(os, h.id.name) == if ns == [] then None else Some(ns[|ns| - 1])
  {
    if os != [] { LastHpaValue(os[..|os| - 1], h); }
  }

  /** The bounds with a new minimum, if there is one; unreadable bounds cannot be moved. */
  function MovedBounds(b: Bounds, n: Option<Int64>): Bounds {
    if n.None? || b.min.NotANumber? || b.max.NotANumber? then b else Shifted(b, n.value)
  }

  /** The minimum the overrides ask for. */
  function Asked(os: seq<Override>, h: Resource): Option<Int64> {
    var n := LastHpaReplicas(os, h.id.name);
    if n.None? then None else Some(n.value)
  }

  lemma ParsedBounds(p: Parsed, h: Resource)
    requires p.Valid() && h.id.kind == HPA && RunAll(p.Transformers(), h).Ok?
    ensures BoundsAfter(p.Transformers(), h) == Some(MovedBounds(h.bounds, Asked(p.os, h)))
    ensures Asked(p.os, h).Some? ==> !h.bounds.min.NotANumber? && !h.bounds.max.NotANumber?
  {
    ParsedRun(p, h);
    OverridesRewrite(p.os, h);
    LastHpaValue(p.os, h);
    var ns := HpaValues(p.os, h);
    if ns != [] {
      if h.bounds.min.NotANumber? || h.bounds.max.NotANumber? { UnreadableFails(h.bounds, ns); }
      else { Telescopes(h.bounds, ns); }
    }
  }

  lemma AddScaleBounds(m: Contents, os: seq<Override>, ns: string, name: string, target: Int64, h: Resource)
    requires h.id.kind == HPA
    ensures BoundsAfter(AddScale(m, os, ns, name, target).transformers, h) == BoundsAfter(m.transformers, h)
  {
    RunSnoc(m.transformers, Scale("apps/v1", DEPLOYMENT, ns, name, target), h);
    if RunAll(m.transformers, h).Ok? { RunAllKeepsId(m.transformers, h); }
  }

  /** The transformers change nothing of an autoscaler but its bounds. */
  ghost predicate OnlyBounds(ts: seq<Transformer>, h: Resource) {
    var r := RunAll(ts, h);
    r.Ok? ==> r.value == h.(bounds := r.value.bounds)
  }

  lemma AddScaleOnlyBounds(m: Contents, os: seq<Override>, ns: string, name: string, target: Int64, h: Resource)
    requires h.id.kind == HPA && OnlyBounds(m.transformers, h)
    ensures OnlyBounds(AddScale(m, os, ns, name, target).transformers, h)
  {
    RunSnoc(m.transformers, Scale("apps/v1", DEPLOYMENT, ns, name, target), h);
  }

  lemma AddHpaOnlyBounds(m: Contents, os: seq<Override>, ns: string, hpa: string, name: string, target: Int64,
                         h: Resource)
    requires h.id.kind == HPA && OnlyBounds(m.transformers, h)
    ensures OnlyBounds(AddHpa(m, os, ns, hpa, name, target).transformers, h)
  {
    RunSnoc(m.transformers, Scale("apps/v1", DEPLOYMENT, ns, name, target), h);
    RunSnoc(m.transformers, HpaReplicas(ns, hpa, target), h);
  }

  lemma ScalingOnlyBounds(m: Contents, os: seq<Override>, ns: string, imc: Int64, mt: Int64, h: Resource)
    requires h.id.kind == HPA && OnlyBounds(m.transformers, h)
    ensures OnlyBounds(ApplyScaling(m, os, ns, imc, mt).transformers, h)
  {
    AddScaleOnlyBounds(m, os, ns, "imc-dispatcher", imc, h);
    var m1 := AddScale(m, os, ns, "imc-dispatcher", imc);
    AddScaleOnlyBounds(m1, os, ns, "imc-controller", imc, h);
    var m2 := ScaleChannels(m, os, ns, imc);
    AddHpaOnlyBounds(m2, os, ns, "broker-filter-hpa", "mt-broker-filter", mt, h);
    var m3 := AddHpa(m2, os, ns, "broker-filter-hpa", "mt-broker-filter", mt);
    AddHpaOnlyBounds(m3, os, ns, "broker-ingress-hpa", "mt-ingress-filter", mt, h);
    var m4 := AddHpa(m3, os, ns, "broker-ingress-hpa", "mt-ingress-filter", mt);
    AddScaleOnlyBounds(m4, os, ns, "mt-broker-controller", mt, h);
  }

  /** Apart from its bounds, an autoscaler after the pipeline is that of the manifest, with the owner injected. */
  lemma AutoscalerPipeline(m: Contents, p: Parsed, ns: string, imc: Int64, mt: Int64, em: string, h: Resource)
    requires p.Valid() && h.id.kind == HPA && RunAll(Prepared(m, p, ns, imc, mt, em).transformers, h).Ok?
    ensures var out := RunAll(Prepared(m, p, ns, imc, mt, em).transformers, h).value;
            out == h.(bounds := out.bounds, owners := [OwnerOf(em)])
  {
    var m0 := m.(transformers := p.Transformers());
    ParsedRun(p, h);
    OverridesRewrite(p.os, h);
    ScalingOnlyBounds(m0, p.os, ns, imc, mt, h);
    var ts := ApplyScaling(m0, p.os, ns, imc, mt).transformers;
    RunSnoc(ts, InjectOwner(em), h);
    OwnerLast(ts, em, h, RunAll(ts, h).value);
  }

  /** Does this call rewrite the autoscaler? */
  predicate Rescales(os: seq<Override>, ns: string, hpa: string, name: string, target: Int64, h: Resource) {
    h.id.namespace == ns && h.id.name == hpa && LastReplicas(os, name).None? && target != 0
  }

  lemma AddHpaBounds(m: Contents, os: seq<Override>, ns: string, hpa: string, name: string, target: Int64, h: Resource)
    requires h.id.kind == HPA && BoundsAfter(AddHpa(m, os, ns, hpa, name, target).transformers, h).Some?
    ensures BoundsAfter(m.transformers, h).Some?
    ensures var before, after := BoundsAfter(m.transformers, h).value,
                             BoundsAfter(AddHpa(m, os, ns, hpa, name, target).transformers, h).value;
            if Rescales(os, ns, hpa, name, target, h) then Rewrite(before, target) == Ok(after) else after == before
  {
    RunSnoc(m.transformers, Scale("apps/v1", DEPLOYMENT, ns, name, target), h);
    RunSnoc(m.transformers, HpaReplicas(ns, hpa, target), h);
    if RunAll(m.transformers, h).Ok? { RunAllKeepsId(m.transformers, h); }
  }

  /** Neither the owner injection nor the direct scaling touches an autoscaler. */
  lemma OwnerKeepsBounds(ts: seq<Transformer>, em: string, h: Resource)
    ensures BoundsAfter(ts + [InjectOwner(em)], h) == BoundsAfter(ts, h)
  {
    RunSnoc(ts, InjectOwner(em), h);
  }

  /** A rewrite on top of the overrides moves the manifest's bounds once, to the last value. */
  lemma RewriteMoves(b: Bounds, n: Option<Int64>, target: Int64, after: Bounds)
    requires Rewrite(MovedBounds(b, n), target) == Ok(after)
    ensures after == MovedBounds(b, Some(target)) && !b.min.NotANumber? && !b.max.NotANumber?
  {
    if !b.min.NotANumber? && !b.max.NotANumber? {
      if n.Some? { ShiftTwice(b, n.value, target); } else { ShiftOnce(b, target); }
    }
  }

  /** The minimum that decides in the end: the scale target of a broker autoscaler, or what the overrides ask for. */
  function FinalMin(os: seq<Override>, mt: Int64, h: Resource): Option<Int64> {
    if mt != 0 && h.id.name == "broker-filter-hpa" && LastReplicas(os, "mt-broker-filter").None? then Some(mt)
    else if mt != 0 && h.id.name == "broker-ingress-hpa" && LastReplicas(os, "mt-ingress-filter").None? then Some(mt)
    else Asked(os, h)
  }

  /**
   * Both bounds of every autoscaler after the whole pipeline: those of the manifest, moved once
   * by the distance to the minimum that decides, however many overrides and rewrites were applied.
   */
  lemma PreparedBounds(m: Contents, p: Parsed, ns: string, imc: Int64, mt: Int64, em: string, h: Resource)
    requires p.Valid() && h.id.kind == HPA && h.id.namespace == ns
    requires RunAll(Prepared(m, p, ns, imc, mt, em).transformers, h).Ok?
    ensures BoundsAfter(Prepared(m, p, ns, imc, mt, em).transformers, h) ==
            Some(MovedBounds(h.bounds, FinalMin(p.os, mt, h)))
    ensures FinalMin(p.os, mt, h).Some? ==> !h.bounds.min.NotANumber? && !h.bounds.max.NotANumber?
  {
    var m0 := m.(transformers := p.Transformers());
    var m1 := AddScale(m0, p.os, ns, "imc-dispatcher", imc);
    var m2 := AddScale(m1, p.os, ns, "imc-controller", imc);
    var m3 := AddHpa(m2, p.os, ns, "broker-filter-hpa", "mt-broker-filter", mt);
    var m4 := AddHpa(m3, p.os, ns, "broker-ingress-hpa", "mt-ingress-filter", mt);
    var m5 := AddScale(m4, p.os, ns, "mt-broker-controller", mt);
    OwnerKeepsBounds(m5.transformers, em, h);
    AddScaleBounds(m4, p.os, ns, "mt-broker-controller", mt, h);
    AddHpaBounds(m3, p.os, ns, "broker-ingress-hpa", "mt-ingress-filter", mt, h);
    AddHpaBounds(m2, p.os, ns, "broker-filter-hpa", "mt-broker-filter", mt, h);
    AddScaleBounds(m1, p.os, ns, "imc-controller", imc, h);
    AddScaleBounds(m0, p.os, ns, "imc-dispatcher", imc, h);
    ParsedBounds(p, h);
    BrokerBounds(p.os, ns, mt, h, BoundsAfter(m2.transformers, h).value, BoundsAfter(m3.transformers, h).value,
                 BoundsAfter(m4.transformers, h).value);
  }

  /** The two broker calls on the bounds that the overrides leave. */
  lemma BrokerBounds(os: seq<Override>, ns: string, mt: Int64, h: Resource, b2: Bounds, b3: Bounds, b4: Bounds)
    requires h.id.namespace == ns && b2 == MovedBounds(h.bounds, Asked(os, h))
    requires Asked(os, h).Some? ==> !h.bounds.min.NotANumber? && !h.bounds.max.NotANumber?
    requires if Rescales(os, ns, "broker-filter-hpa", "mt-broker-filter", mt, h) then Rewrite(b2, mt) == Ok(b3)
             else b3 == b2
    requires if Rescales(os, ns, "broker-ingress-hpa", "mt-ingress-filter", mt, h) then Rewrite(b3, mt) == Ok(b4)
             else b4 == b3
    ensures b4 == MovedBounds(h.bounds, FinalMin(os, mt, h))
    ensures FinalMin(os, mt, h).Some? ==> !h.bounds.min.NotANumber? && !h.bounds.max.NotANumber?
  {
    if Rescales(os, ns, "broker-filter-hpa", "mt-broker-filter", mt, h) {
      RewriteMoves(h.bounds, Asked(os, h), mt, b3);
    } else if Rescales(os, ns, "broker-ingress-hpa", "mt-ingress-filter", mt, h) {
      RewriteMoves(h.bounds, Asked(os, h), mt, b4);
    }
  }

  lemma PreparedMin(m: Contents, p: Parsed, ns: string, imc: Int64, mt: Int64, em: string, h: Resource)
    requires p.Valid() && h.id.kind == HPA && h.id.namespace == ns
    requires RunAll(Prepared(m, p, ns, imc, mt, em).transformers, h).Ok?
    ensures var n := FinalMin(p.os, mt, h);
            MinAfter(Prepared(m, p, ns, imc, mt, em).transformers, h) ==
            Some(if n.Some? then Number(n.value) else h.bounds.min)
  {
    PreparedBounds(m, p, ns, imc, mt, em, h);
  }

  // ----- Autoscaler and Deployment together -----

  /** The lists after the transform stage. */
  datatype Final = Final(applied: seq<Resource>, deleted: seq<Resource>)

  ghost predicate Transformed(m: Contents, p: Parsed, ns: string, imc: Int64, mt: Int64, em: string, f: Final) {
    var m' := Prepared(m, p, ns, imc, mt, em);
    && p.Valid()
    && Transform(m'.transformers, m'.toApply) == Ok(f.applied)
    && Transform(m'.transformers, m'.toDelete) == Ok(f.deleted)
  }

  /**
   * Exactly one of autoscaler and Deployment decides the number of replicas. A user override
   * wins and goes through the autoscaler; without one, target 0 replaces the autoscaler by a
   * Deployment of 0 replicas, and any other target becomes the autoscaler's minimum.
   */
  ghost predicate OneController(os: seq<Override>, workload: string, target: Int64, hpaId: Id, d: Resource, f: Final) {
    var h, d' := Lookup(f.applied, hpaId), Lookup(f.applied, d.id);
    var deleted := Lookup(f.deleted, hpaId).Some?;
    && d'.Some?
    && if LastReplicas(os, workload).Some? then
         && h.Some? && !deleted && d'.value.replicas == d.replicas
         && LastHpaReplicas(os, hpaId.name).Some? && h.value.bounds.min == Number(LastHpaReplicas(os, hpaId.name).value)
       else if target == 0 then
         h.None? && deleted && d'.value.replicas == Some(0)
       else
         h.Some? && !deleted && d'.value.replicas == d.replicas && h.value.bounds.min == Number(target)
  }

  /** What the pipeline leaves of an autoscaler and of a Deployment of the namespace. */
  lemma FinalPair(m: Contents, p: Parsed, ns: string, imc: Int64, mt: Int64, em: string, f: Final, h: Resource,
                  d: Resource)
    requires Transformed(m, p, ns, imc, mt, em, f)
    requires h.id.kind == HPA && h.id.namespace == ns && Lookup(m.toApply, h.id) == Some(h)
    requires Lookup(m.toDelete, h.id) == None
    requires d.id == DeploymentId(ns, d.id.name) && Lookup(m.toApply, d.id) == Some(d)
    ensures Lookup(f.deleted, h.id).Some? <==> Moved(p.os, mt, h.id)
    ensures Lookup(f.applied, h.id).None? <==> Moved(p.os, mt, h.id)
    ensures var ts := Prepared(m, p, ns, imc, mt, em).transformers;
            && (!Moved(p.os, mt, h.id) ==>
                    RunAll(ts, h).Ok? && Some(Lookup(f.applied, h.id).value.bounds.min) == MinAfter(ts, h))
            && Lookup(f.applied, d.id).Some? && Some(Lookup(f.applied, d.id).value.replicas) == ReplicasAfter(ts, d)
  {
    var m' := Prepared(m, p, ns, imc, mt, em);
    PreparedLists(m, p, ns, imc, mt, em, h.id);
    PreparedLists(m, p, ns, imc, mt, em, d.id);
    TransformLookup(m'.transformers, m'.toApply, h.id);
    TransformLookup(m'.transformers, m'.toDelete, h.id);
    TransformLookup(m'.transformers, m'.toApply, d.id);
  }

  /** The replicas of a Deployment that has an autoscaler. */
  lemma AutoscaledReplicas(m: Contents, p: Parsed, ns: string, imc: Int64, mt: Int64, em: string, d: Resource)
    requires p.Valid() && d.id == DeploymentId(ns, d.id.name)
    requires d.id.name == "mt-broker-filter" || d.id.name == "mt-broker-ingress"
    ensures ReplicasAfter(Prepared(m, p, ns, imc, mt, em).transformers, d) ==
            Some(if d.id.name == "mt-broker-filter" && Replaced(p.os, "mt-broker-filter", mt)
                 then Some(0) else d.replicas)
  {
    var m0 := m.(transformers := p.Transformers());
    ParsedReplicas(p, d);
    ChannelsReplicas(m0, p.os, ns, imc, d);
    BrokersReplicas(ScaleChannels(m0, p.os, ns, imc), p.os, ns, mt, d);
    OwnerKeepsReplicas(ApplyScaling(m0, p.os, ns, imc, mt).transformers, em, d);
  }

  lemma {:induction false} WorkloadReplicasReachHpa(os: seq<Override>, workload: string)
    requires LastReplicas(os, workload).Some?
    ensures LastHpaReplicas(os, HpaName(workload)).Some?
  {
    if !(os[|os| - 1].name == workload && os[|os| - 1].replicas.Some?) {
      WorkloadReplicasReachHpa(os[..|os| - 1], workload);
    }
  }

  /** For mt-broker-filter and its autoscaler there is exactly one replica controller, for all overrides and targets. */
  lemma FilterPair(m: Contents, p: Parsed, ns: string, imc: Int64, mt: Int64, em: string, f: Final, h: Resource,
                   d: Resource)
    requires Transformed(m, p, ns, imc, mt, em, f)
    requires h.id.kind == HPA && h.id.namespace == ns && h.id.name == "broker-filter-hpa"
    requires Lookup(m.toApply, h.id) == Some(h) && Lookup(m.toDelete, h.id) == None
    requires d.id == DeploymentId(ns, "mt-broker-filter") && Lookup(m.toApply, d.id) == Some(d)
    ensures OneController(p.os, "mt-broker-filter", mt, h.id, d, f)
  {
    FinalPair(m, p, ns, imc, mt, em, f, h, d);
    AutoscaledReplicas(m, p, ns, imc, mt, em, d);
    if !Moved(p.os, mt, h.id) { PreparedMin(m, p, ns, imc, mt, em, h); }
    if LastReplicas(p.os, "mt-broker-filter").Some? { WorkloadReplicasReachHpa(p.os, "mt-broker-filter"); }
  }

  /**
   * The ingress autoscaler is scaled under the name "mt-ingress-filter", which no Deployment
   * has. When the outcome is nevertheless right for mt-broker-ingress, in terms of the inputs:
   */
  predicate IngressOutcomeRight(os: seq<Override>, mt: Int64, min: IntField, replicas: Option<int>) {
    var user, asked := LastReplicas(os, "mt-broker-ingress"), LastHpaReplicas(os, "broker-ingress-hpa");
    if LastReplicas(os, "mt-ingress-filter").Some? then
      user.Some? || (mt != 0 && (if asked.Some? then asked.value == mt else min == Number(mt)))
    else if mt == 0 then user.None? && replicas == Some(0)
    else user.None? || (asked.Some? && asked.value == mt)
  }

  /** The ingress pair has exactly one replica controller if and only if that condition holds. */
  lemma IngressPair(m: Contents, p: Parsed, ns: string, imc: Int64, mt: Int64, em: string, f: Final, h: Resource,
                    d: Resource)
    requires Transformed(m, p, ns, imc, mt, em, f)
    requires h.id.kind == HPA && h.id.namespace == ns && h.id.name == "broker-ingress-hpa"
    requires Lookup(m.toApply, h.id) == Some(h) && Lookup(m.toDelete, h.id) == None
    requires d.id == DeploymentId(ns, "mt-broker-ingress") && Lookup(m.toApply, d.id) == Some(d)
    ensures OneController(p.os, "mt-broker-ingress", mt, h.id, d, f) <==>
            IngressOutcomeRight(p.os, mt, h.bounds.min, d.replicas)
  {
    FinalPair(m, p, ns, imc, mt, em, f, h, d);
    AutoscaledReplicas(m, p, ns, imc, mt, em, d);
    if !Moved(p.os, mt, h.id) { PreparedMin(m, p, ns, imc, mt, em, h); }
    if LastReplicas(p.os, "mt-broker-ingress").Some? { WorkloadReplicasReachHpa(p.os, "mt-broker-ingress"); }
  }

  /**
   * The condition fails on the shipped defaults: without overrides, target 0 leaves
   * mt-broker-ingress unscaled and without autoscaler.
   */
  lemma IngressLeftRunning(m: Contents, p: Parsed, ns: string, imc: Int64, em: string, f: Final, h: Resource,
                           d: Resource)
    requires Transformed(m, p, ns, imc, 0, em, f) && p.os == []
    requires h.id.kind == HPA && h.id.namespace == ns && h.id.name == "broker-ingress-hpa"
    requires Lookup(m.toApply, h.id) == Some(h) && Lookup(m.toDelete, h.id) == None
    requires d.id == DeploymentId(ns, "mt-broker-ingress") && Lookup(m.toApply, d.id) == Some(d)
    requires d.replicas != Some(0)
    ensures Lookup(f.applied, h.id).None? && Lookup(f.applied, d.id).Some?
    ensures Lookup(f.applied, d.id).value.replicas == d.replicas
    ensures !OneController(p.os, "mt-broker-ingress", 0, h.id, d, f)
  {
    FinalPair(m, p, ns, imc, 0, em, f, h, d);
    AutoscaledReplicas(m, p, ns, imc, 0, em, d);
  }
}
