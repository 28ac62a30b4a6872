/** Deleting resources by label selector. */
module Delete {
  import opened Kubernetes
  import opened Labels

  /** `m` without the resources of the given kinds that the selector picks. */
  ghost function Without(m: Resources, kinds: set<ResourceKind>, key: string, value: string): Resources {
    map r | r in m && !(r.kind in kinds && Selects(key, value, m[r])) :: m[r]
  }

  const ALL_KINDS := {Service, ConfigMap, Pod}

  // ---- what the calls show ----

  ghost predicate Failed(calls: seq<Call>) {
    exists i :: 0 <= i < |calls| && calls[i].err
  }

  /** The kinds for which some call failed. */
  ghost function FailedKinds(calls: seq<Call>): set<ResourceKind> {
    set i | 0 <= i < |calls| && calls[i].err :: calls[i].request.kind
  }

  /** One kind was attempted: listed, and then nothing but deletions of that kind. */
  ghost predicate KindAttempted(calls: seq<Call>, kind: ResourceKind, key: string, value: string) {
    && calls != [] && calls[0].request == ListOf(kind, key, value)
    && forall i :: 0 < i < |calls| ==> calls[i].request.DeleteOf? && calls[i].request.kind == kind
  }

  /** Services, then configmaps, then pods were each attempted. */
  ghost predicate AllAttempted(calls: seq<Call>, key: string, value: string) {
    exists j, k :: 0 <= j <= k <= |calls| && AttemptedAt(calls, j, k, key, value)
  }

  ghost predicate AttemptedAt(calls: seq<Call>, j: nat, k: nat, key: string, value: string)
    requires j <= k <= |calls|
  {
    && KindAttempted(calls[..j], Service, key, value)
    && KindAttempted(calls[j..k], ConfigMap, key, value)
    && KindAttempted(calls[k..], Pod, key, value)
  }

  lemma OneMore(kind: ResourceKind, key: string, value: string, calls: seq<Call>, name: string, err: bool)
    requires KindAttempted(calls, kind, key, value) && !Failed(calls)
    ensures var more := calls + [Call(DeleteOf(kind, name), err)];
            KindAttempted(more, kind, key, value) && (Failed(more) <==> err)
  {
    var more := calls + [Call(DeleteOf(kind, name), err)];
    assert more[|calls|].err == err;
    assert forall i :: 0 <= i < |calls| ==> more[i] == calls[i];
  }

  /** One deletion of such a loop. */
  method DeleteNext(cluster: Cluster, kind: ResourceKind, name: string, ghost before: seq<Call>, ghost key: string,
                    ghost value: string)
    returns (err: bool)
    requires before <= cluster.log
    requires KindAttempted(Since(cluster.log, before), kind, key, value) && !Failed(Since(cluster.log, before))
    modifies cluster
    ensures before <= cluster.log
    ensures KindAttempted(Since(cluster.log, before), kind, key, value) && (Failed(Since(cluster.log, before)) <==> err)
    ensures cluster.resources == old(cluster.resources) ||
        cluster.resources == old(cluster.resources) - {Ref(kind, name)}
    ensures !err ==> Ref(kind, name) !in cluster.resources
  {
    ghost var calls := Since(cluster.log, before);
    err := cluster.Delete(kind, name);
    OneMore(kind, key, value, calls, name, err);
    assert Since(cluster.log, before) == calls + [Call(DeleteOf(kind, name), err)];
  }

  /** What one of the deletions does, as its calls show it. */
  ghost predicate KindDeleted(m: Resources, m': Resources, calls: seq<Call>, kind: ResourceKind, key: string,
                              value: string)
  {
    && KindAttempted(calls, kind, key, value)
    && Shrunk(m, m')
    && Shrunk(m', Without(m, {kind}, key, value))
    && (!Failed(calls) ==> m' == Without(m, {kind}, key, value))
  }

  /** deleteServices, deleteConfigMaps and deletePods: list, then delete one by one up to the first error. */
  method DeleteMatching(cluster: Cluster, kind: ResourceKind, key: string, value: string) returns (err: bool)
    modifies cluster
    ensures old(cluster.log) <= cluster.log
    ensures KindDeleted(old(cluster.resources), cluster.resources, Since(cluster.log, old(cluster.log)), kind, key,
        value)
    ensures err <==> Failed(Since(cluster.log, old(cluster.log)))
  {
    ghost var before := cluster.log;
    var failed, items := cluster.List(kind, key, value);
    assert Since(cluster.log, before) == [Call(ListOf(kind, key, value), failed)];
    if failed {
      assert Since(cluster.log, before)[0].err;
      return true;
    }
    var todo := items.Keys;
    while todo != {}
      invariant todo <= items.Keys
      invariant before <= cluster.log
      invariant KindAttempted(Since(cluster.log, before), kind, key, value) && !Failed(Since(cluster.log, before))
      invariant Shrunk(old(cluster.resources), cluster.resources)
      invariant Shrunk(cluster.resources, Without(old(cluster.resources), {kind}, key, value))
      invariant forall name :: name in items && name !in todo ==> Ref(kind, name) !in cluster.resources
    {
      var name :| name in todo;
      todo := todo - {name};
      err := DeleteNext(cluster, kind, name, before, key, value);
      if err {
        return;
      }
    }
    return false;
  }

  /** The calls for the three kinds, put together. */
  lemma Together(a: seq<Call>, b: seq<Call>, c: seq<Call>, key: string, value: string)
    requires KindAttempted(a, Service, key, value) && KindAttempted(b, ConfigMap, key, value)
    requires KindAttempted(c, Pod, key, value)
    ensures AllAttempted(a + b + c, key, value)
    ensures Failed(a + b + c) <==> Failed(a) || Failed(b) || Failed(c)
    ensures Service in FailedKinds(a + b + c) <==> Failed(a)
    ensures ConfigMap in FailedKinds(a + b + c) <==> Failed(b)
    ensures Pod in FailedKinds(a + b + c) <==> Failed(c)
  {
    var all := a + b + c;
    var j, k := |a|, |a| + |b|;
    assert all[..j] == a && all[j..k] == b && all[k..] == c;
    assert AttemptedAt(all, j, k, key, value);
    FailedPart(a, b + c, Service);
    FailedPart(a, b + c, ConfigMap);
    FailedPart(a, b + c, Pod);
    FailedPart(b, c, Service);
    FailedPart(b, c, ConfigMap);
    FailedPart(b, c, Pod);
    OwnKind(a, Service, key, value);
    OwnKind(b, ConfigMap, key, value);
    OwnKind(c, Pod, key, value);
    assert all == a + (b + c);
  }

  lemma FailedPart(a: seq<Call>, b: seq<Call>, kind: ResourceKind)
    ensures kind in FailedKinds(a + b) <==> kind in FailedKinds(a) || kind in FailedKinds(b)
    ensures Failed(a + b) <==> Failed(a) || Failed(b)
  {
    var c := a + b;
    assert forall i :: 0 <= i < |a| ==> c[i] == a[i];
    forall i | 0 <= i < |b| ensures c[|a| + i] == b[i] {
    }
    if i :| 0 <= i < |a| && a[i].err && a[i].request.kind == kind {
      assert c[i].err;
    }
    if i :| 0 <= i < |b| && b[i].err && b[i].request.kind == kind {
      assert c[|a| + i].err;
    }
    if Failed(a) {
      var i :| 0 <= i < |a| && a[i].err;
      assert c[i].err;
    }
    if Failed(b) {
      var i :| 0 <= i < |b| && b[i].err;
      assert c[|a| + i].err;
    }
    if Failed(c) {
      var i :| 0 <= i < |c| && c[i].err;
      assert i >= |a| ==> b[i - |a|].err;
    }
  }

  lemma OwnKind(calls: seq<Call>, kind: ResourceKind, key: string, value: string)
    requires KindAttempted(calls, kind, key, value)
    ensures forall k :: k in FailedKinds(calls) <==> k == kind && Failed(calls)
  {
    assert forall i :: 0 <= i < |calls| ==> calls[i].request.kind == kind;
  }

  /** What the three deletions do, as the calls show it. */
  ghost predicate Deleted(m: Resources, m': Resources, calls: seq<Call>, key: string, value: string) {
    && AllAttempted(calls, key, value)
    && (!Failed(calls) ==> m' == Without(m, ALL_KINDS, key, value))
    && Shrunk(m, m')
    && Shrunk(m', Without(m, ALL_KINDS, key, value))
    && Shrunk(Without(m, ALL_KINDS - FailedKinds(calls), key, value), m')
  }

  lemma DeletedTogether(m0: Resources, m1: Resources, m2: Resources, m3: Resources, a: seq<Call>, b: seq<Call>,
                        c: seq<Call>,
                        key: string, value: string)
    requires KindDeleted(m0, m1, a, Service, key, value)
    requires KindDeleted(m1, m2, b, ConfigMap, key, value)
    requires KindDeleted(m2, m3, c, Pod, key, value)
    ensures Deleted(m0, m3, a + b + c, key, value)
  {
    Together(a, b, c, key, value);
    OthersStay(m0, m1, m2, m3, key, value);
    FailedStay(m0, m1, m2, m3, FailedKinds(a + b + c), key, value);
    if !Failed(a + b + c) {
      assert FailedKinds(a + b + c) == {};
      SameBothWays(m3, Without(m0, ALL_KINDS, key, value));
    }
  }

  lemma SameBothWays(m: Resources, m': Resources)
    requires Shrunk(m, m') && Shrunk(m', m)
    ensures m == m'
  {
    assert m.Keys == m'.Keys;
  }

  lemma FailedStay(m0: Resources, m1: Resources, m2: Resources, m3: Resources, failed: set<ResourceKind>, key: string,
                   value: string)
    requires Shrunk(m0, m1) && Shrunk(m1, m2) && Shrunk(m2, m3)
    requires Service !in failed ==> m1 == Without(m0, {Service}, key, value)
    requires ConfigMap !in failed ==> m2 == Without(m1, {ConfigMap}, key, value)
    requires Pod !in failed ==> m3 == Without(m2, {Pod}, key, value)
    ensures Shrunk(Without(m0, ALL_KINDS - failed, key, value), m3)
  {
    forall r | r in m3 ensures r in Without(m0, ALL_KINDS - failed, key, value) {
      assert r in m2 && r in m1 && r in m0 && m0[r] == m3[r];
    }
  }

  lemma OthersStay(m0: Resources, m1: Resources, m2: Resources, m3: Resources, key: string, value: string)
    requires Shrunk(m1, Without(m0, {Service}, key, value))
    requires Shrunk(m2, Without(m1, {ConfigMap}, key, value))
    requires Shrunk(m3, Without(m2, {Pod}, key, value))
    ensures Shrunk(m3, Without(m0, ALL_KINDS, key, value))
  {
    forall r | r in Without(m0, ALL_KINDS, key, value) ensures r in m3 && m3[r] == m0[r] {
      AllKinds(r.kind);
      assert r in Without(m0, {Service}, key, value) && r in m1;
      assert r in Without(m1, {ConfigMap}, key, value) && r in m2;
      assert r in Without(m2, {Pod}, key, value);
    }
  }

  /**
   The body shared by DeleteAll, DeleteWithKubedockID and DeleteContainer: services,
   configmaps and pods are each attempted, whatever happened to the others, and a
   kind for which no call fails is deleted completely.
   */
  method DeleteSelected(cluster: Cluster, key: string, value: string) returns (err: bool)
    modifies cluster
    ensures old(cluster.log) <= cluster.log
    ensures Deleted(old(cluster.resources), cluster.resources, Since(cluster.log, old(cluster.log)), key, value)
    ensures err <==> Failed(Since(cluster.log, old(cluster.log)))
  {
    ghost var log0, m0 := cluster.log, cluster.resources;
    var ok := true;
    var e := DeleteMatching(cluster, Service, key, value);
    if e {
      ok := false;
    }
    ghost var log1, m1 := cluster.log, cluster.resources;
    e := DeleteMatching(cluster, ConfigMap, key, value);
    if e {
      ok := false;
    }
    ghost var log2, m2 := cluster.log, cluster.resources;
    e := DeleteMatching(cluster, Pod, key, value);
    if e {
      ok := false;
    }
    SinceTwice(log0, log1, log2);
    SinceTwice(log0, log2, cluster.log);
    Together(Since(log1, log0), Since(log2, log1), Since(cluster.log, log2), key, value);
    DeletedTogether(m0, m1, m2, cluster.resources, Since(log1, log0), Since(log2, log1), Since(cluster.log, log2), key,
      value);
    return !ok;
  }

  method DeleteContainer(cluster: Cluster, shortID: string) returns (err: bool)
    modifies cluster
    ensures old(cluster.log) <= cluster.log
    ensures Deleted(old(cluster.resources), cluster.resources, Since(cluster.log, old(cluster.log)), CONTAINER, shortID)
    ensures err <==> Failed(Since(cluster.log, old(cluster.log)))
  {
    err := DeleteSelected(cluster, CONTAINER, shortID);
  }

  method DeleteWithKubedockID(cluster: Cluster, id: string) returns (err: bool)
    modifies cluster
    ensures old(cluster.log) <= cluster.log
    ensures Deleted(old(cluster.resources), cluster.resources, Since(cluster.log, old(cluster.log)), INSTANCE, id)
    ensures err <==> Failed(Since(cluster.log, old(cluster.log)))
  {
    err := DeleteSelected(cluster, INSTANCE, id);
  }

  // ---- whose resources ----

  /** Who a resource was made by and for. */
  datatype Origin = Origin(instance: string, shortID: string)

  /**
   The resources in `made` carry the labels of their origin; the others carry none
   of the labels of kubedock.
   */
  ghost predicate Faithful(m: Resources, made: map<Ref, Origin>) {
    forall r :: r in m ==>
      if r in made then Tagged(m[r].labels, made[r].instance, made[r].shortID)
      else forall key :: key in OWN_KEYS ==> key !in m[r].labels
  }

  lemma AllKinds(kind: ResourceKind)
    ensures kind in ALL_KINDS
  {
    match kind
    case Service =>
    case ConfigMap =>
    case Pod =>
  }

  /** The selector of DeleteContainer picks exactly the resources made for that container. */
  lemma ContainerSelectorIsExact(m: Resources, made: map<Ref, Origin>, shortID: string)
    requires Faithful(m, made)
    ensures forall r :: r in m ==>
              (r in Without(m, ALL_KINDS, CONTAINER, shortID) <==> !(r in made && made[r].shortID == shortID))
  {
    forall r | r in m
      ensures Selects(CONTAINER, shortID, m[r]) <==> r in made && made[r].shortID == shortID
    {
      assert CONTAINER in OWN_KEYS;
    }
    forall r | r in m ensures r.kind in ALL_KINDS {
      AllKinds(r.kind);
    }
  }

  /** The selector of DeleteWithKubedockID picks exactly the resources of that instance. */
  lemma InstanceSelectorIsExact(m: Resources, made: map<Ref, Origin>, id: string)
    requires Faithful(m, made)
    ensures forall r :: r in m ==>
              (r in Without(m, ALL_KINDS, INSTANCE, id) <==> !(r in made && made[r].instance == id))
  {
    forall r | r in m
      ensures Selects(INSTANCE, id, m[r]) <==> r in made && made[r].instance == id
    {
      assert INSTANCE in OWN_KEYS;
    }
    forall r | r in m ensures r.kind in ALL_KINDS {
      AllKinds(r.kind);
    }
  }
}
