/** One EventMesh owns the installation (runPrechecks and the injected owner reference). */
module Ownership {
  import opened Prelude
  import opened Hpa
  import opened Resources
  import opened Manifests
  import opened Scaling
  import opened Cluster
  import WorkloadOverride

  function ControllerId(ns: string): Id {
    DeploymentId(ns, "eventing-controller")
  }

  /** hasForeignEventingInstalled on a fresh lister. */
  predicate HasForeign(c: Cluster, ns: string, em: string) {
    ControllerId(ns) in c.objects && OwnerOf(em) !in c.objects[ControllerId(ns)].resource.owners
  }

  /** The search through the owner references of the Deployment the lister returned. */
  method HasForeignEventingInstalled(c: Cluster, ns: string, em: string) returns (foreign: bool)
    ensures foreign <==>
            var id := Id("apps/v1", "Deployment", ns, "eventing-controller");
            && id in c.objects
            && OwnerRef("operator.knative.dev/v1alpha1", "EventMesh", em) !in c.objects[id].resource.owners
    ensures foreign <==> HasForeign(c, ns, em)
  {
    if ControllerId(ns) !in c.objects {
      return false;
    }
    var owners := c.objects[ControllerId(ns)].resource.owners;
    for i := 0 to |owners|
      invariant OwnerOf(em) !in owners[..i]
    {
      if owners[i].kind == "EventMesh" && owners[i].apiVersion == EVENTMESH_API_VERSION && owners[i].name == em {
        assert owners[i] == OwnerOf(em);
        return false;
      }
    }
    assert owners[..|owners|] == owners;
    foreign := true;
  }

  /** A reconcile of one EventMesh: the writes it would do, and how many of them it gets to. */
  datatype Run = Run(em: string, attempt: Attempt)

  /** Everything applied carries the owner reference, and the controller is not scheduled for deletion. */
  ghost predicate OwnedLists(l: Lists, ns: string, em: string) {
    && (forall r :: (r in l.apply || r in l.post) && r.id.kind != "Namespace" ==> r.owners == [OwnerOf(em)])
    && !Names(l.delete, ControllerId(ns))
  }

  function Reconcile(c: Cluster, ns: string, r: Run): Cluster {
    if HasForeign(c, ns, r.em) then c else DoAll(c, Performed(r.attempt))
  }

  function ReconcileAll(c: Cluster, ns: string, runs: seq<Run>): Cluster {
    if runs == [] then c else Reconcile(ReconcileAll(c, ns, runs[..|runs| - 1]), ns, runs[|runs| - 1])
  }

  ghost predicate OwnedBy(c: Cluster, ns: string, em: string) {
    ControllerId(ns) in c.objects && c.objects[ControllerId(ns)].resource.owners == [OwnerOf(em)]
  }

  /** Writes of the owner never take the controller away from it. */
  lemma {:induction false} WritesKeepOwner(c: Cluster, ws: seq<Write>, ns: string, em: string)
    requires OwnedBy(c, ns, em)
    requires forall w :: w in ws && w.r.id == ControllerId(ns) ==> w.Apply? && w.r.owners == [OwnerOf(em)]
    ensures OwnedBy(DoAll(c, ws), ns, em)
  {
    if ws != [] {
      WritesKeepOwner(c, ws[..|ws| - 1], ns, em);
      assert ws[|ws| - 1] in ws;
    }
  }

  lemma ControllerWrites(a: Attempt, ns: string, em: string, w: Write)
    requires OwnedLists(a.lists, ns, em) && w in Performed(a) && w.r.id == ControllerId(ns)
    ensures w.Apply? && w.r.owners == [OwnerOf(em)]
  {
    WriteSource(a.lists, w);
    assert w.Delete? ==> Names(a.lists.delete, w.r.id);
  }

  lemma RunKeepsOwner(c: Cluster, ns: string, em: string, r: Run)
    requires OwnedBy(c, ns, em) && OwnedLists(r.attempt.lists, ns, r.em)
    ensures OwnedBy(Reconcile(c, ns, r), ns, em)
    ensures r.em != em ==> Reconcile(c, ns, r) == c
    ensures r.em == em ==> !HasForeign(c, ns, r.em)
  {
    if r.em == em {
      forall w | w in Performed(r.attempt) && w.r.id == ControllerId(ns)
        ensures w.Apply? && w.r.owners == [OwnerOf(em)] {
        ControllerWrites(r.attempt, ns, em, w);
      }
      WritesKeepOwner(c, Performed(r.attempt), ns, em);
    } else {
      assert OwnerOf(r.em) != OwnerOf(em);
    }
  }

  lemma {:induction false} OwnerStays(c: Cluster, ns: string, em: string, runs: seq<Run>)
    requires OwnedBy(c, ns, em) && forall r :: r in runs ==> OwnedLists(r.attempt.lists, ns, r.em)
    ensures OwnedBy(ReconcileAll(c, ns, runs), ns, em)
  {
    if runs != [] {
      OwnerStays(c, ns, em, runs[..|runs| - 1]);
      assert runs[|runs| - 1] in runs;
      RunKeepsOwner(ReconcileAll(c, ns, runs[..|runs| - 1]), ns, em, runs[|runs| - 1]);
    }
  }

  /**
   * Once eventing-controller is owned by one EventMesh, then over any sequence of serial
   * reconciles by any EventMeshes, complete or cut short: it stays the owner, every other
   * EventMesh leaves the cluster exactly as it is, and the owner is never taken for foreign.
   */
  lemma SingleOwner(c: Cluster, ns: string, em: string, runs: seq<Run>, k: nat)
    requires OwnedBy(c, ns, em) && forall r :: r in runs ==> OwnedLists(r.attempt.lists, ns, r.em)
    requires k < |runs|
    ensures var before, after := ReconcileAll(c, ns, runs[..k]), ReconcileAll(c, ns, runs[..k + 1]);
            && OwnedBy(before, ns, em) && OwnedBy(after, ns, em)
            && (if runs[k].em == em then !HasForeign(before, ns, em) else after == before)
  {
    OwnerStays(c, ns, em, runs[..k]);
    assert runs[..k + 1][..k] == runs[..k] && runs[k] in runs;
    RunKeepsOwner(ReconcileAll(c, ns, runs[..k]), ns, em, runs[k]);
  }

  /** A controller without any EventMesh owner keeps every EventMesh from writing, for good. */
  lemma {:induction false} ForeignInstallUntouched(c: Cluster, ns: string, runs: seq<Run>)
    requires forall r :: r in runs ==> HasForeign(c, ns, r.em)
    ensures ReconcileAll(c, ns, runs) == c
  {
    if runs != [] {
      ForeignInstallUntouched(c, ns, runs[..|runs| - 1]);
      assert runs[|runs| - 1] in runs;
    }
  }

  /** A run that gets as far as applying eventing-controller makes its EventMesh the owner. */
  lemma ApplyingOwns(c: Cluster, ns: string, r: Run)
    requires !HasForeign(c, ns, r.em) && OwnedLists(r.attempt.lists, ns, r.em)
    requires WritesId(Performed(r.attempt), ControllerId(ns))
    ensures OwnedBy(Reconcile(c, ns, r), ns, r.em)
  {
    var ws := Performed(r.attempt);
    forall w | w in ws && w.r.id == ControllerId(ns) ensures w.Apply? && w.r.owners == [OwnerOf(r.em)] {
      ControllerWrites(r.attempt, ns, r.em, w);
    }
    LastWritten(c, ws, ControllerId(ns));
  }

  // ----- The pipeline produces such lists -----

  lemma RunInjectsOwner(ts: seq<Transformer>, em: string, r: Resource, out: Resource)
    requires RunAll(ts + [InjectOwner(em)], r) == Ok(out) && out.id.kind != "Namespace"
    ensures out.owners == [OwnerOf(em)]
  {
    RunSnoc(ts, InjectOwner(em), r);
  }

  /** No transformer touches a Namespace: its owners, in particular, are those of its manifest. */
  lemma {:induction false} NamespaceUntouched(ts: seq<Transformer>, r: Resource)
    requires r.id.kind == "Namespace"
    ensures RunAll(ts, r) == Ok(r)
  {
    if ts != [] {
      NamespaceUntouched(ts[..|ts| - 1], r);
      if ts[|ts| - 1].Overrides? { NoOverride(ts[|ts| - 1].os, r); }
    }
  }

  lemma {:induction false} NoOverride(os: seq<WorkloadOverride.Override>, r: Resource)
    requires r.id.kind == "Namespace"
    ensures WorkloadOverride.ApplyAll(os, r) == Ok(r)
  {
    if os != [] { NoOverride(os[..|os| - 1], r); }
  }

  lemma TransformInjectsOwner(ts: seq<Transformer>, em: string, rs: seq<Resource>)
    requires Transform(ts + [InjectOwner(em)], rs).Ok?
    ensures forall r :: r in Transform(ts + [InjectOwner(em)], rs).value && r.id.kind != "Namespace" ==>
              r.owners == [OwnerOf(em)]
  {
    var ts' := ts + [InjectOwner(em)];
    var out := Transform(ts', rs).value;
    TransformPointwise(ts', rs);
    forall r | r in out && r.id.kind != "Namespace" ensures r.owners == [OwnerOf(em)] {
      var i :| 0 <= i < |out| && out[i] == r;
      RunInjectsOwner(ts, em, rs[i], r);
    }
  }

  /** The lists handed to the install stage: transformed, then sorted in some way. */
  ghost predicate Installable(m: Contents, p: Parsed, ns: string, imc: Int64, mt: Int64, em: string, l: Lists) {
    var m' := Prepared(m, p, ns, imc, mt, em);
    && Transform(m'.transformers, m'.toApply).Ok? && Permutation(l.apply, Transform(m'.transformers, m'.toApply).value)
    && Transform(m'.transformers, m'.toDelete).Ok?
    && Permutation(l.delete, Transform(m'.transformers, m'.toDelete).value)
    && Transform(m'.transformers, m'.postInstall).Ok?
    && Permutation(l.post, Transform(m'.transformers, m'.postInstall).value)
  }

  /** Transforming and sorting a list keeps the identities it names. */
  lemma NamesKept(ts: seq<Transformer>, rs: seq<Resource>, sorted: seq<Resource>, id: Id)
    requires Transform(ts, rs).Ok? && Permutation(sorted, Transform(ts, rs).value)
    ensures Names(sorted, id) <==> Lookup(rs, id).Some?
  {
    var out := Transform(ts, rs).value;
    PermutationMembers(sorted, out);
    TransformLookup(ts, rs, id);
    LookupFinds(out, id);
  }

  /** Every Namespace of the lists is the Namespace of the loaded manifests, without an injected owner. */
  lemma PipelineKeepsNamespaces(m: Contents, p: Parsed, ns: string, imc: Int64, mt: Int64, em: string, l: Lists,
                                r: Resource)
    requires Installable(m, p, ns, imc, mt, em, l) && r.id.kind == "Namespace"
    ensures r in l.apply <==> r in m.toApply
    ensures r in l.delete <==> r in m.toDelete
    ensures r in l.post <==> r in m.postInstall
  {
    var m' := Prepared(m, p, ns, imc, mt, em);
    NamespaceListed(m'.transformers, m'.toApply, l.apply, r);
    NamespaceListed(m'.transformers, m'.toDelete, l.delete, r);
    NamespaceListed(m'.transformers, m'.postInstall, l.post, r);
    PreparedMembers(m, p, ns, imc, mt, em, r);
  }

  /** Only autoscalers change list. */
  lemma PreparedMembers(m: Contents, p: Parsed, ns: string, imc: Int64, mt: Int64, em: string, r: Resource)
    requires r.id.kind != HPA
    ensures var m' := Prepared(m, p, ns, imc, mt, em);
            && (r in m'.toApply <==> r in m.toApply) && (r in m'.toDelete <==> r in m.toDelete)
            && m'.postInstall == m.postInstall
  {
    var m0 := ScaleChannels(m.(transformers := p.Transformers()), p.os, ns, imc);
    var m1 := AddHpa(m0, p.os, ns, "broker-filter-hpa", "mt-broker-filter", mt);
    AddHpaMembers(m0, p.os, ns, "broker-filter-hpa", "mt-broker-filter", mt, r);
    AddHpaMembers(m1, p.os, ns, "broker-ingress-hpa", "mt-ingress-filter", mt, r);
  }

  lemma AddHpaMembers(m: Contents, os: seq<WorkloadOverride.Override>, ns: string, hpa: string, name: string,
                      target: Int64, r: Resource)
    requires r.id.kind != HPA
    ensures var m' := AddHpa(m, os, ns, hpa, name, target);
            (r in m'.toApply <==> r in m.toApply) && (r in m'.toDelete <==> r in m.toDelete)
  {
    FilterHpaCount(m.toApply, hpa, false, r);
    FilterHpaCount(m.toApply, hpa, true, r);
    assert r in m.toApply <==> multiset(m.toApply)[r] > 0;
    assert r in FilterHpa(m.toApply, hpa, false) <==> multiset(FilterHpa(m.toApply, hpa, false))[r] > 0;
    assert r in FilterHpa(m.toApply, hpa, true) <==> multiset(FilterHpa(m.toApply, hpa, true))[r] > 0;
  }

  lemma NamespaceListed(ts: seq<Transformer>, rs: seq<Resource>, sorted: seq<Resource>, r: Resource)
    requires Transform(ts, rs).Ok? && Permutation(sorted, Transform(ts, rs).value) && r.id.kind == "Namespace"
    ensures r in sorted <==> r in rs
  {
    var out := Transform(ts, rs).value;
    PermutationMembers(sorted, out);
    TransformPointwise(ts, rs);
    forall i | 0 <= i < |rs| && rs[i].id.kind == "Namespace" ensures out[i] == rs[i] { NamespaceUntouched(ts, rs[i]); }
    if r in rs {
      var i :| 0 <= i < |rs| && rs[i] == r;
      assert out[i] == r;
    }
    if r in out {
      var i :| 0 <= i < |out| && out[i] == r;
      assert rs[i] == r;
    }
  }

  lemma PipelineOwns(m: Contents, p: Parsed, ns: string, imc: Int64, mt: Int64, em: string, l: Lists)
    requires Installable(m, p, ns, imc, mt, em, l) && Lookup(m.toDelete, ControllerId(ns)).None?
    ensures OwnedLists(l, ns, em)
  {
    var m' := Prepared(m, p, ns, imc, mt, em);
    var ts := ApplyScaling(m.(transformers := p.Transformers()), p.os, ns, imc, mt).transformers;
    assert m'.transformers == ts + [InjectOwner(em)];
    TransformInjectsOwner(ts, em, m'.toApply);
    TransformInjectsOwner(ts, em, m'.postInstall);
    PermutationMembers(l.apply, Transform(m'.transformers, m'.toApply).value);
    PermutationMembers(l.post, Transform(m'.transformers, m'.postInstall).value);
    PreparedLists(m, p, ns, imc, mt, em, ControllerId(ns));
    NamesKept(m'.transformers, m'.toDelete, l.delete, ControllerId(ns));
  }

  /**
   * Lists that name no identity both to apply and to delete keep that property through the
   * relocation of autoscalers, the transformers and the sort, and together name what they
   * named before. So a complete run is the convergence step of Cluster.Converges.
   */
  lemma PipelineKeepsDisjoint(m: Contents, p: Parsed, ns: string, imc: Int64, mt: Int64, em: string, l: Lists, id: Id)
    requires Installable(m, p, ns, imc, mt, em, l)
    requires Lookup(m.toApply, id).None? || Lookup(m.toDelete, id).None?
    ensures !(Names(l.apply, id) && Names(l.delete, id))
    ensures Names(l.apply, id) || Names(l.delete, id) <==> Lookup(m.toApply, id).Some? || Lookup(m.toDelete, id).Some?
  {
    var m' := Prepared(m, p, ns, imc, mt, em);
    PreparedLists(m, p, ns, imc, mt, em, id);
    NamesKept(m'.transformers, m'.toApply, l.apply, id);
    NamesKept(m'.transformers, m'.toDelete, l.delete, id);
  }
}
