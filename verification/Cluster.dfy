/**
 * The cluster and the install stage (pkg/manifests/stages.go): deletions in reverse order,
 * then applications, then post-install applications. A run may stop after any write.
 */
module Cluster {
  import opened Prelude
  import opened Resources

  /** A stored object, and whether manifestival marked it as created by itself. */
  datatype Object = Object(resource: Resource, ours: bool)

  /** Objects by identity, and those created from a generateName, which get a fresh name each time. */
  datatype Cluster = Cluster(objects: map<Id, Object>, generated: seq<Resource>)

  datatype Write = Delete(r: Resource) | Apply(r: Resource)

  predicate Generated(r: Resource) {
    r.id.name == "" && r.generateName != ""
  }

  /** Namespaces are deleted only if manifestival created them. */
  predicate MayDelete(o: Object) {
    o.resource.id.kind == "Namespace" ==> o.ours
  }

  function Do(c: Cluster, w: Write): Cluster {
    match w
    case Apply(r) =>
      if Generated(r) then c.(generated := c.generated + [r])
      else c.(objects := c.objects[r.id := Object(r, r.id in c.objects ==> c.objects[r.id].ours)])
    case Delete(r) =>
      if Generated(r) || r.id !in c.objects || !MayDelete(c.objects[r.id]) then c
      else c.(objects := c.objects - {r.id})
  }

  function DoAll(c: Cluster, ws: seq<Write>): Cluster {
    if ws == [] then c else Do(DoAll(c, ws[..|ws| - 1]), ws[|ws| - 1])
  }

  function Deletes(rs: seq<Resource>): (ws: seq<Write>)
    ensures |ws| == |rs| && forall i :: 0 <= i < |rs| ==> ws[i] == Delete(rs[|rs| - 1 - i])
  {
    seq(|rs|, i requires 0 <= i < |rs| => Delete(rs[|rs| - 1 - i]))
  }

  function Applies(rs: seq<Resource>): (ws: seq<Write>)
    ensures |ws| == |rs| && forall i :: 0 <= i < |rs| ==> ws[i] == Apply(rs[i])
  {
    seq(|rs|, i requires 0 <= i < |rs| => Apply(rs[i]))
  }

  /** The three lists in the order in which the install stage walks them. */
  datatype Lists = Lists(delete: seq<Resource>, apply: seq<Resource>, post: seq<Resource>)

  /** All writes of a complete install stage. */
  function Writes(l: Lists): seq<Write> {
    Deletes(l.delete) + Applies(l.apply) + Applies(l.post)
  }

  lemma {:induction false} DoAllConcat(c: Cluster, a: seq<Write>, b: seq<Write>)
    ensures DoAll(c, a + b) == DoAll(DoAll(c, a), b)
  {
    if b == [] {
      assert a + b == a;
    } else {
      assert (a + b)[..|a + b| - 1] == a + b[..|b| - 1];
      DoAllConcat(c, a, b[..|b| - 1]);
    }
  }

  /** An identity that is not written keeps its object. */
  lemma {:induction false} Unwritten(c: Cluster, ws: seq<Write>, id: Id)
    requires forall w :: w in ws ==> w.r.id != id
    ensures id in DoAll(c, ws).objects <==> id in c.objects
    ensures id in c.objects ==> DoAll(c, ws).objects[id] == c.objects[id]
  {
    if ws != [] {
      Unwritten(c, ws[..|ws| - 1], id);
      assert ws[|ws| - 1] in ws;
    }
  }

  /** After applying a list, every identity it names holds its last entry. */
  lemma {:induction false} AppliedContent(c: Cluster, rs: seq<Resource>, id: Id)
    requires Lookup(rs, id).Some? && id.name != ""
    ensures id in DoAll(c, Applies(rs)).objects && DoAll(c, Applies(rs)).objects[id].resource == Lookup(rs, id).value
  {
    var init, last := rs[..|rs| - 1], rs[|rs| - 1];
    assert Applies(rs)[..|rs| - 1] == Applies(init);
    if last.id != id {
      AppliedContent(c, init, id);
    }
  }

  /** Can this identity be deleted from the cluster? */
  predicate Deletable(c: Cluster, id: Id) {
    id in c.objects ==> MayDelete(c.objects[id])
  }

  lemma {:induction false} DeletedAbsent(c: Cluster, ws: seq<Write>, id: Id)
    requires (forall w :: w in ws ==> w.Delete?) && id.name != "" && Deletable(c, id)
    requires exists w :: w in ws && w.r.id == id
    ensures id !in DoAll(c, ws).objects
  {
    var init, last := ws[..|ws| - 1], ws[|ws| - 1];
    assert ws == init + [last] && last in ws;
    if exists w :: w in init && w.r.id == id {
      DeletedAbsent(c, init, id);
    } else {
      Unwritten(c, init, id);
    }
  }

  ghost predicate Names(rs: seq<Resource>, id: Id) {
    exists r :: r in rs && r.id == id
  }

  /**
   * A Namespace that the operator did not create is never deleted, whatever is written; and one
   * that it did create, like every other kind of object, is deleted when it is on the list.
   */
  lemma {:induction false} ForeignNamespaceStays(c: Cluster, ws: seq<Write>, id: Id)
    requires id in c.objects && !c.objects[id].ours && c.objects[id].resource.id.kind == "Namespace"
    requires id.kind == "Namespace"
    ensures id in DoAll(c, ws).objects && !DoAll(c, ws).objects[id].ours
    ensures DoAll(c, ws).objects[id].resource.id.kind == "Namespace"
  {
    if ws != [] { ForeignNamespaceStays(c, ws[..|ws| - 1], id); }
  }

  lemma OwnObjectsDeleted(c: Cluster, r: Resource)
    requires r.id in c.objects && r.id.name != ""
    requires c.objects[r.id].ours || c.objects[r.id].resource.id.kind != "Namespace"
    ensures Do(c, Delete(r)) == c.(objects := c.objects - {r.id})
  {
  }

  /** What the operator creates is marked as its own, and what it finds keeps its mark. */
  lemma AppliedMark(c: Cluster, r: Resource)
    requires r.id.name != ""
    ensures var after := Do(c, Apply(r)).objects;
            r.id in after && after[r.id] == Object(r, if r.id in c.objects then c.objects[r.id].ours else true)
  {
  }

  // ----- Runs that stop early, and a complete one -----

  /** One run of the install stage that performs its first `done` writes. */
  datatype Attempt = Attempt(lists: Lists, done: nat)

  function Performed(a: Attempt): seq<Write> {
    var ws := Writes(a.lists);
    if a.done < |ws| then ws[..a.done] else ws
  }

  function DoAttempts(c: Cluster, attempts: seq<Attempt>): Cluster {
    if attempts == [] then c
    else DoAll(DoAttempts(c, attempts[..|attempts| - 1]), Performed(attempts[|attempts| - 1]))
  }

  ghost predicate Mentions(l: Lists, id: Id) {
    Names(l.delete, id) || Names(l.apply, id) || Names(l.post, id)
  }

  /** Every write comes from one of the lists. */
  lemma WriteSource(l: Lists, w: Write)
    requires w in Writes(l)
    ensures if w.Delete? then w.r in l.delete else w.r in l.apply || w.r in l.post
    ensures Mentions(l, w.r.id)
  {
    var ws := Writes(l);
    var i :| 0 <= i < |ws| && ws[i] == w;
    var n, m := |l.delete|, |l.apply|;
    if i < n {
      assert w == Delete(l.delete[n - 1 - i]);
    } else if i < n + m {
      assert w == Apply(l.apply[i - n]);
    } else {
      assert w == Apply(l.post[i - n - m]);
    }
  }

  /** An attempt that gets through its apply list has written every entry of it. */
  lemma AppliesPerformed(a: Attempt, r: Resource)
    requires r in a.lists.apply && |a.lists.delete| + |a.lists.apply| <= a.done
    ensures Apply(r) in Performed(a)
  {
    var l := a.lists;
    var i :| 0 <= i < |l.apply| && l.apply[i] == r;
    assert Writes(l)[|l.delete| + i] == Apply(r);
    assert Performed(a)[|l.delete| + i] == Apply(r);
  }

  /** Whatever was attempted, an identity that no attempt mentions keeps its object. */
  lemma {:induction false} AttemptsLeaveOthers(c: Cluster, attempts: seq<Attempt>, id: Id)
    requires forall a :: a in attempts ==> !Mentions(a.lists, id)
    ensures id in DoAttempts(c, attempts).objects <==> id in c.objects
    ensures id in c.objects ==> DoAttempts(c, attempts).objects[id] == c.objects[id]
  {
    if attempts != [] {
      var init, last := attempts[..|attempts| - 1], attempts[|attempts| - 1];
      AttemptsLeaveOthers(c, init, id);
      assert last in attempts;
      forall w | w in Performed(last) ensures w.r.id != id { WriteSource(last.lists, w); }
      Unwritten(DoAttempts(c, init), Performed(last), id);
    }
  }

  lemma CompleteSplits(c: Cluster, l: Lists)
    ensures DoAll(c, Writes(l)) == DoAll(DoAll(DoAll(c, Deletes(l.delete)), Applies(l.apply)), Applies(l.post))
  {
    DoAllConcat(c, Deletes(l.delete) + Applies(l.apply), Applies(l.post));
    DoAllConcat(c, Deletes(l.delete), Applies(l.apply));
  }

  lemma AppliedPresent(c: Cluster, l: Lists, id: Id)
    requires Lookup(l.apply, id).Some? && id.name != "" && !Names(l.post, id)
    ensures id in DoAll(c, Writes(l)).objects && DoAll(c, Writes(l)).objects[id].resource == Lookup(l.apply, id).value
  {
    CompleteSplits(c, l);
    var c1 := DoAll(c, Deletes(l.delete));
    AppliedContent(c1, l.apply, id);
    Unwritten(DoAll(c1, Applies(l.apply)), Applies(l.post), id);
  }

  lemma PostPresent(c: Cluster, l: Lists, id: Id)
    requires Lookup(l.post, id).Some? && id.name != ""
    ensures id in DoAll(c, Writes(l)).objects && DoAll(c, Writes(l)).objects[id].resource == Lookup(l.post, id).value
  {
    CompleteSplits(c, l);
    AppliedContent(DoAll(DoAll(c, Deletes(l.delete)), Applies(l.apply)), l.post, id);
  }

  lemma DeletedGone(c: Cluster, l: Lists, id: Id)
    requires Names(l.delete, id) && id.name != "" && !Names(l.apply, id) && !Names(l.post, id) && Deletable(c, id)
    ensures id !in DoAll(c, Writes(l)).objects
  {
    CompleteSplits(c, l);
    var ds := Deletes(l.delete);
    var c1 := DoAll(c, ds);
    assert exists w :: w in ds && w.r.id == id by {
      var r :| r in l.delete && r.id == id;
      var i :| 0 <= i < |l.delete| && l.delete[i] == r;
      assert ds[|l.delete| - 1 - i] == Delete(r);
    }
    DeletedAbsent(c, ds, id);
    Unwritten(c1, Applies(l.apply), id);
    Unwritten(DoAll(c1, Applies(l.apply)), Applies(l.post), id);
  }

  /**
   * What a complete install stage leaves under a named identity that it mentions: its content
   * depends on the lists alone.
   */
  function Desired(l: Lists, id: Id): Option<Resource> {
    if Lookup(l.post, id).Some? then Lookup(l.post, id) else Lookup(l.apply, id)
  }

  /**
   * After any sequence of runs stopped anywhere, one complete run converges: an identity to
   * apply holds the manifest's object, an identity only to delete is gone (unless it is a
   * Namespace the operator did not create), and an identity that no run mentions is as it was.
   */
  lemma Converges(c: Cluster, attempts: seq<Attempt>, l: Lists, id: Id)
    requires id.name != ""
    ensures var before := DoAttempts(c, attempts);
            var after := DoAll(before, Writes(l)).objects;
            && (Desired(l, id).Some? ==> id in after && after[id].resource == Desired(l, id).value)
            && (Names(l.delete, id) && Desired(l, id).None? && Deletable(before, id) ==> id !in after)
            && (!Mentions(l, id) && (forall a :: a in attempts ==> !Mentions(a.lists, id)) ==>
                  (id in after <==> id in c.objects) && (id in c.objects ==> after[id] == c.objects[id]))
  {
    var before := DoAttempts(c, attempts);
    LookupFinds(l.post, id);
    LookupFinds(l.apply, id);
    if Lookup(l.post, id).Some? {
      PostPresent(before, l, id);
    } else if Lookup(l.apply, id).Some? {
      AppliedPresent(before, l, id);
    } else if Names(l.delete, id) && Deletable(before, id) {
      DeletedGone(before, l, id);
    }
    if !Mentions(l, id) && forall a :: a in attempts ==> !Mentions(a.lists, id) {
      AttemptsLeaveOthers(c, attempts, id);
      forall w | w in Writes(l) ensures w.r.id != id { WriteSource(l, w); }
      Unwritten(before, Writes(l), id);
    }
  }

  // ----- Objects with a generated name -----

  function GeneratedIn(rs: seq<Resource>): seq<Resource> {
    if rs == [] then []
    else GeneratedIn(rs[..|rs| - 1]) + (if Generated(rs[|rs| - 1]) then [rs[|rs| - 1]] else [])
  }

  /** What a sequence of writes creates under generated names. */
  function Created(ws: seq<Write>): seq<Resource> {
    if ws == [] then []
    else Created(ws[..|ws| - 1]) + (if ws[|ws| - 1].Apply? && Generated(ws[|ws| - 1].r) then [ws[|ws| - 1].r] else [])
  }

  lemma {:induction false} CreatedBy(c: Cluster, ws: seq<Write>)
    ensures DoAll(c, ws).generated == c.generated + Created(ws)
  {
    if ws != [] { CreatedBy(c, ws[..|ws| - 1]); }
  }

  lemma {:induction false} CreatedByDeletes(rs: seq<Resource>)
    ensures Created(Deletes(rs)) == []
    decreases |rs|
  {
    if rs != [] {
      assert Deletes(rs)[..|rs| - 1] == Deletes(rs[1..]);
      CreatedByDeletes(rs[1..]);
    }
  }

  lemma {:induction false} CreatedByApplies(rs: seq<Resource>)
    ensures Created(Applies(rs)) == GeneratedIn(rs)
  {
    if rs != [] {
      assert Applies(rs)[..|rs| - 1] == Applies(rs[..|rs| - 1]);
      CreatedByApplies(rs[..|rs| - 1]);
    }
  }

  lemma {:induction false} CreatedConcat(a: seq<Write>, b: seq<Write>)
    ensures Created(a + b) == Created(a) + Created(b)
  {
    if b == [] {
      assert a + b == a;
    } else {
      assert (a + b)[..|a + b| - 1] == a + b[..|b| - 1];
      CreatedConcat(a, b[..|b| - 1]);
    }
  }

  lemma CreatedByWrites(l: Lists)
    ensures Created(Writes(l)) == GeneratedIn(l.apply) + GeneratedIn(l.post)
  {
    CreatedConcat(Deletes(l.delete) + Applies(l.apply), Applies(l.post));
    CreatedConcat(Deletes(l.delete), Applies(l.apply));
    CreatedByDeletes(l.delete);
    CreatedByApplies(l.apply);
    CreatedByApplies(l.post);
  }

  /** A complete install stage creates one new object for every entry of its lists that has only a generateName. */
  lemma InstallCreates(c: Cluster, l: Lists)
    ensures DoAll(c, Writes(l)).generated == c.generated + (GeneratedIn(l.apply) + GeneratedIn(l.post))
  {
    CreatedBy(c, Writes(l));
    CreatedByWrites(l);
  }

  lemma {:induction false} GeneratedCount(rs: seq<Resource>, x: Resource)
    ensures multiset(GeneratedIn(rs))[x] == if Generated(x) then multiset(rs)[x] else 0
  {
    if rs != [] {
      GeneratedCount(rs[..|rs| - 1], x);
      assert rs == rs[..|rs| - 1] + [rs[|rs| - 1]];
    }
  }

  lemma GeneratedPermutes(s: seq<Resource>, t: seq<Resource>)
    requires Permutation(s, t)
    ensures Permutation(GeneratedIn(s), GeneratedIn(t))
  {
    forall x ensures multiset(GeneratedIn(s))[x] == multiset(GeneratedIn(t))[x] {
      GeneratedCount(s, x);
      GeneratedCount(t, x);
    }
  }

  lemma {:induction false} GeneratedConcat(a: seq<Resource>, b: seq<Resource>)
    ensures GeneratedIn(a + b) == GeneratedIn(a) + GeneratedIn(b)
  {
    if b == [] {
      assert a + b == a;
    } else {
      assert (a + b)[..|a + b| - 1] == a + b[..|b| - 1];
      GeneratedConcat(a, b[..|b| - 1]);
    }
  }

  // ----- Identities that the writes either leave alone or apply -----

  ghost predicate WritesId(ws: seq<Write>, id: Id) {
    exists w :: w in ws && w.r.id == id
  }

  /**
   * An identity that is only applied holds one of the applied resources if it is written, and is
   * unchanged otherwise.
   */
  lemma {:induction false} LastWritten(c: Cluster, ws: seq<Write>, id: Id)
    requires id.name != "" && forall w :: w in ws && w.r.id == id ==> w.Apply?
    ensures WritesId(ws, id) ==> id in DoAll(c, ws).objects && DoAll(c, ws).objects[id].resource.id == id
    ensures WritesId(ws, id) ==> Apply(DoAll(c, ws).objects[id].resource) in ws
    ensures !WritesId(ws, id) ==> (id in DoAll(c, ws).objects <==> id in c.objects)
    ensures !WritesId(ws, id) && id in c.objects ==> DoAll(c, ws).objects[id] == c.objects[id]
  {
    if ws != [] {
      var init, last := ws[..|ws| - 1], ws[|ws| - 1];
      assert ws == init + [last] && last in ws;
      LastWritten(c, init, id);
      assert WritesId(ws, id) <==> WritesId(init, id) || last.r.id == id;
    }
  }

  // ----- The same install again -----

  /** What is stored under one identity. */
  function Slot(c: Cluster, id: Id): Option<Object> {
    if id in c.objects then Some(c.objects[id]) else None
  }

  /** Does a write have an effect on this identity? */
  predicate Touches(r: Resource, id: Id) {
    r.id == id && !Generated(r)
  }

  predicate AnyTouches(rs: seq<Resource>, id: Id) {
    exists r :: r in rs && Touches(r, id)
  }

  function AfterDeletes(o: Option<Object>, rs: seq<Resource>, id: Id): Option<Object> {
    if o.Some? && AnyTouches(rs, id) && MayDelete(o.value) then None else o
  }

  lemma {:induction false} DeletesSlot(c: Cluster, rs: seq<Resource>, id: Id)
    ensures Slot(DoAll(c, Deletes(rs)), id) == AfterDeletes(Slot(c, id), rs, id)
    decreases |rs|
  {
    if rs != [] {
      var first, rest := rs[0], rs[1..];
      assert rs == [first] + rest;
      assert Deletes(rs)[..|rs| - 1] == Deletes(rest) && Deletes(rs)[|rs| - 1] == Delete(first);
      DeletesSlot(c, rest, id);
      assert AnyTouches(rs, id) <==> AnyTouches(rest, id) || Touches(first, id);
    }
  }

  /** The entry that ends up applied under this identity. */
  function LastTouching(rs: seq<Resource>, id: Id): Option<Resource> {
    if rs == [] then None
    else if Touches(rs[|rs| - 1], id) then Some(rs[|rs| - 1])
    else LastTouching(rs[..|rs| - 1], id)
  }

  function AfterApplies(o: Option<Object>, rs: seq<Resource>, id: Id): Option<Object> {
    var r := LastTouching(rs, id);
    if r.None? then o else Some(Object(r.value, o.Some? ==> o.value.ours))
  }

  lemma {:induction false} AppliesSlot(c: Cluster, rs: seq<Resource>, id: Id)
    ensures Slot(DoAll(c, Applies(rs)), id) == AfterApplies(Slot(c, id), rs, id)
  {
    if rs != [] {
      assert Applies(rs)[..|rs| - 1] == Applies(rs[..|rs| - 1]);
      AppliesSlot(c, rs[..|rs| - 1], id);
    }
  }

  lemma {:induction false} LastTouchingId(rs: seq<Resource>, id: Id)
    ensures LastTouching(rs, id).Some? ==> LastTouching(rs, id).value.id == id
  {
    if rs != [] { LastTouchingId(rs[..|rs| - 1], id); }
  }

  function AfterInstall(o: Option<Object>, l: Lists, id: Id): Option<Object> {
    AfterApplies(AfterApplies(AfterDeletes(o, l.delete, id), l.apply, id), l.post, id)
  }

  lemma InstallSlot(c: Cluster, l: Lists, id: Id)
    ensures Slot(DoAll(c, Writes(l)), id) == AfterInstall(Slot(c, id), l, id)
  {
    CompleteSplits(c, l);
    var c1 := DoAll(c, Deletes(l.delete));
    DeletesSlot(c, l.delete, id);
    AppliesSlot(c1, l.apply, id);
    AppliesSlot(DoAll(c1, Applies(l.apply)), l.post, id);
  }

  lemma InstallSlotTwice(o: Option<Object>, l: Lists, id: Id)
    requires o.Some? ==> o.value.resource.id == id
    ensures AfterInstall(AfterInstall(o, l, id), l, id) == AfterInstall(o, l, id)
  {
    LastTouchingId(l.apply, id);
    LastTouchingId(l.post, id);
  }

  /** Objects are stored under their own identity. */
  ghost predicate WellStored(c: Cluster) {
    forall id :: id in c.objects ==> c.objects[id].resource.id == id
  }

  /** A complete install is a fixed point: the same lists installed again leave every stored object as it is. */
  lemma InstallTwice(c: Cluster, l: Lists)
    requires WellStored(c)
    ensures DoAll(DoAll(c, Writes(l)), Writes(l)).objects == DoAll(c, Writes(l)).objects
  {
    var c1 := DoAll(c, Writes(l));
    var c2 := DoAll(c1, Writes(l));
    forall id ensures Slot(c2, id) == Slot(c1, id) {
      InstallSlot(c, l, id);
      InstallSlot(c1, l, id);
      InstallSlotTwice(Slot(c, id), l, id);
    }
    forall id ensures id in c2.objects <==> id in c1.objects { assert Slot(c2, id) == Slot(c1, id); }
    forall id | id in c2.objects ensures c2.objects[id] == c1.objects[id] { assert Slot(c2, id) == Slot(c1, id); }
  }
}
