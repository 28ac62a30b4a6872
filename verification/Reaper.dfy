/**
 The two reaping tiers: records of this process older than `keepMax`, with their
 resources, and then any kubedock resource older than `keepMax` plus 15 minutes.
 */
module Reaper {
  import opened Delete
  import opened Kubernetes
  import opened Labels
  import Lifecycle
  import opened Common
  import opened PodName
  import opened StringId
  import Text

  const MINUTE: Time := 60_000_000_000
  const GRACE: Time := 15 * MINUTE

  // ---- DeleteOlderThan ----

  /** isOlderThan at one moment, for a resource the list call selected. */
  predicate OldAt(r: Resource, keepMax: Time, now: Time) {
    Selects(MANAGED, "true", r) && !r.deleting && r.created < now - keepMax
  }

  method IsOlderThan(clock: Clock, r: Resource, keepMax: Time) returns (old_: bool)
    requires Selects(MANAGED, "true", r)
    modifies clock
    ensures old(clock.now) <= clock.now
    ensures OldAt(r, keepMax, old(clock.now)) ==> old_
    ensures old_ ==> OldAt(r, keepMax, clock.now)
  {
    if r.deleting {
      return false;
    }
    var now := clock.Now();
    return r.created < now - keepMax;
  }

  /**
   What DeleteOlderThan may delete by `now`: old resources, and the services and
   configmaps whose container label is the name of an old pod.
   */
  ghost predicate Reapable(m: Resources, r: Ref, keepMax: Time, now: Time)
    requires r in m
  {
    || OldAt(m[r], keepMax, now)
    || (r.kind != Pod && NamedByOldPod(m, r, keepMax, now))
  }

  ghost predicate NamedByOldPod(m: Resources, r: Ref, keepMax: Time, now: Time)
    requires r in m
  {
    exists p :: Ref(Pod, p) in m && OldAt(m[Ref(Pod, p)], keepMax, now) && Selects(CONTAINER, p, m[r])
  }

  /** From `m` to `m'`, only reapable resources were deleted. */
  ghost predicate Reaped(m: Resources, m': Resources, keepMax: Time, now: Time) {
    && Shrunk(m, m')
    && forall r :: r in m && r !in m' ==> Reapable(m, r, keepMax, now)
  }

  lemma ReapedTwice(a: Resources, b: Resources, c: Resources, keepMax: Time, t: Time, t': Time)
    requires Reaped(a, b, keepMax, t) && Reaped(b, c, keepMax, t') && t <= t'
    ensures Reaped(a, c, keepMax, t')
  {
  }

  /** What deleting one old resource may take with it: for a pod, what is labelled with its name. */
  ghost predicate WentWith(m: Resources, m': Resources, kind: ResourceKind, name: string, dependents: bool) {
    && Shrunk(m, m')
    && forall r :: r in m && r !in m' ==>
         r == Ref(kind, name) || (dependents && r.kind != Pod && Selects(CONTAINER, name, m[r]))
  }

  lemma ReapedOne(m: Resources, m1: Resources, m2: Resources, kind: ResourceKind, name: string, dependents: bool,
                  keepMax: Time, now: Time)
    requires Reaped(m, m1, keepMax, now) && WentWith(m1, m2, kind, name, dependents)
    requires Ref(kind, name) in m && OldAt(m[Ref(kind, name)], keepMax, now)
    requires dependents ==> kind == Pod
    ensures Reaped(m, m2, keepMax, now)
  {
  }

  /** The last call made since `before` failed. */
  ghost predicate LastFailed(log: seq<Call>, before: seq<Call>) {
    before < log && log[|log| - 1].err
  }

  /** The first call made since `before` lists the managed resources of the kind. */
  ghost predicate FirstLists(log: seq<Call>, before: seq<Call>, kind: ResourceKind) {
    before < log && log[|before|].request == ListOf(kind, MANAGED, "true")
  }

  /** The services and configmaps labelled with the pod's name were each attempted, and then the pod deleted. */
  ghost predicate PodAttempted(calls: seq<Call>, name: string, err: bool) {
    exists j, k :: 0 <= j <= k <= |calls| && PodAttemptedAt(calls, j, k, name, err)
  }

  ghost predicate PodAttemptedAt(calls: seq<Call>, j: nat, k: nat, name: string, err: bool)
    requires j <= k <= |calls|
  {
    && KindAttempted(calls[..j], Service, CONTAINER, name)
    && KindAttempted(calls[j..k], ConfigMap, CONTAINER, name)
    && calls[k..] == [Call(DeleteOf(Pod, name), err)]
  }

  /** Deletes the dependents of a pod, whatever comes of it, and then the pod. */
  method DeletePod(cluster: Cluster, name: string) returns (err: bool)
    modifies cluster
    ensures old(cluster.log) <= cluster.log
    ensures PodAttempted(Since(cluster.log, old(cluster.log)), name, err)
    ensures err <==> LastFailed(cluster.log, old(cluster.log))
    ensures WentWith(old(cluster.resources), cluster.resources, Pod, name, true)
    ensures !err ==> Ref(Pod, name) !in cluster.resources
  {
    ghost var log0 := cluster.log;
    var _ := DeleteMatching(cluster, Service, CONTAINER, name);
    ghost var log1 := cluster.log;
    var _ := DeleteMatching(cluster, ConfigMap, CONTAINER, name);
    ghost var log2 := cluster.log;
    err := cluster.Delete(Pod, name);
    PodCalls(log0, log1, log2, cluster.log, name, err);
  }

  lemma PodCalls(log0: seq<Call>, log1: seq<Call>, log2: seq<Call>, log3: seq<Call>, name: string, err: bool)
    requires log0 <= log1 <= log2 && log3 == log2 + [Call(DeleteOf(Pod, name), err)]
    requires KindAttempted(Since(log1, log0), Service, CONTAINER, name)
    requires KindAttempted(Since(log2, log1), ConfigMap, CONTAINER, name)
    ensures PodAttempted(Since(log3, log0), name, err)
  {
    var calls := Since(log3, log0);
    var j, k := |log1| - |log0|, |log2| - |log0|;
    assert calls[..j] == Since(log1, log0) && calls[j..k] == Since(log2, log1);
    assert calls[k..] == [Call(DeleteOf(Pod, name), err)];
    assert PodAttemptedAt(calls, j, k, name, err);
  }

  method DeleteOne(cluster: Cluster, kind: ResourceKind, name: string, dependents: bool) returns (err: bool)
    requires dependents ==> kind == Pod
    modifies cluster
    ensures old(cluster.log) <= cluster.log
    ensures dependents ==> PodAttempted(Since(cluster.log, old(cluster.log)), name, err)
    ensures !dependents ==> Since(cluster.log, old(cluster.log)) == [Call(DeleteOf(kind, name), err)]
    ensures err <==> LastFailed(cluster.log, old(cluster.log))
    ensures WentWith(old(cluster.resources), cluster.resources, kind, name, dependents)
    ensures !err ==> Ref(kind, name) !in cluster.resources
  {
    if dependents {
      err := DeletePod(cluster, name);
    } else {
      err := cluster.Delete(kind, name);
    }
  }

  /** One loop of list, test and delete; the pods' loop first deletes what is labelled with the pod's name. */
  method DeleteKindOlderThan(cluster: Cluster, clock: Clock, kind: ResourceKind, keepMax: Time, dependents: bool)
    returns (err: bool)
    requires dependents ==> kind == Pod
    modifies cluster, clock
    ensures old(clock.now) <= clock.now && old(cluster.log) <= cluster.log
    ensures Reaped(old(cluster.resources), cluster.resources, keepMax, clock.now)
    ensures FirstLists(cluster.log, old(cluster.log), kind)
    ensures err ==> LastFailed(cluster.log, old(cluster.log))
    ensures !err ==> forall r :: r in cluster.resources && r.kind == kind ==>
        !OldAt(cluster.resources[r], keepMax, old(clock.now))
  {
    var failed, items := cluster.List(kind, MANAGED, "true");
    if failed {
      return true;
    }
    ghost var m := cluster.resources;
    var todo := items.Keys;
    while todo != {}
      invariant todo <= items.Keys
      invariant old(clock.now) <= clock.now && FirstLists(cluster.log, old(cluster.log), kind)
      invariant Reaped(m, cluster.resources, keepMax, clock.now)
      invariant forall name :: name in items && name !in todo && OldAt(items[name], keepMax, old(clock.now)) ==>
                  Ref(kind, name) !in cluster.resources
    {
      var name :| name in todo;
      todo := todo - {name};
      ghost var m1, t1 := cluster.resources, clock.now;
      var older := IsOlderThan(clock, items[name], keepMax);
      ReapedTwice(m, m1, m1, keepMax, t1, clock.now);
      if older {
        err := DeleteOne(cluster, kind, name, dependents);
        ReapedOne(m, m1, cluster.resources, kind, name, dependents, keepMax, clock.now);
        if err {
          return;
        }
      }
    }
    forall r | r in cluster.resources && r.kind == kind
      ensures !OldAt(cluster.resources[r], keepMax, old(clock.now))
    {
      assert r == Ref(kind, r.name);
    }
    return false;
  }

  method DeleteOlderThan(cluster: Cluster, clock: Clock, keepMax: Time) returns (err: bool)
    modifies cluster, clock
    ensures old(clock.now) <= clock.now && old(cluster.log) <= cluster.log
    ensures Reaped(old(cluster.resources), cluster.resources, keepMax, clock.now)
    ensures FirstLists(cluster.log, old(cluster.log), Pod)
    ensures err ==> LastFailed(cluster.log, old(cluster.log))
    ensures !err ==> forall r :: r in cluster.resources ==> !OldAt(cluster.resources[r], keepMax, old(clock.now))
  {
    err := DeleteKindOlderThan(cluster, clock, Pod, keepMax, true);
    if err {
      return;
    }
    ghost var m1, t1 := cluster.resources, clock.now;
    err := DeleteKindOlderThan(cluster, clock, ConfigMap, keepMax, false);
    ReapedTwice(old(cluster.resources), m1, cluster.resources, keepMax, t1, clock.now);
    if err {
      return;
    }
    ghost var m2, t2 := cluster.resources, clock.now;
    err := DeleteKindOlderThan(cluster, clock, Pod, keepMax, false);
    ReapedTwice(old(cluster.resources), m2, cluster.resources, keepMax, t2, clock.now);
    if err {
      return;
    }
    ghost var m3, t3 := cluster.resources, clock.now;
    err := DeleteKindOlderThan(cluster, clock, Service, keepMax, false);
    ReapedTwice(old(cluster.resources), m3, cluster.resources, keepMax, t3, clock.now);
  }

  // ---- what the pods' loop takes along ----

  /** Every managed pod is labelled with the short id its name ends in. */
  ghost predicate PodNamed(p: string, r: Resource) {
    CONTAINER in r.labels && ValidShort(r.labels[CONTAINER]) && EndsInShort(p, r.labels[CONTAINER])
  }

  /** The same container label. */
  predicate SameContainer(r: Resource, s: Resource) {
    CONTAINER in r.labels && CONTAINER in s.labels && r.labels[CONTAINER] == s.labels[CONTAINER]
  }

  /**
   The selector by pod name picks the resources of the pod's own container exactly when the
   name is the bare short id.
   */
  lemma NameSelectsExactly(p: string, pod: Resource, r: Resource)
    requires PodNamed(p, pod) && SameContainer(pod, r)
    ensures Selects(CONTAINER, p, r) <==> p == pod.labels[CONTAINER]
  {
  }

  /**
   What deleting an old pod leaves of its container: unless its name is the bare
   short id, all services and configmaps, whatever succeeds or fails.
   */
  lemma OldPodLeavesOthers(m: Resources, m': Resources, p: string, r: Ref)
    requires WentWith(m, m', Pod, p, true) && Ref(Pod, p) in m && PodNamed(p, m[Ref(Pod, p)])
    requires r in m && r.kind != Pod && SameContainer(m[Ref(Pod, p)], m[r])
    ensures p != m[r].labels[CONTAINER] ==> r in m' && m'[r] == m[r]
  {
  }

  /**
   In terms of what the container was given: its services are selected exactly when name
   and prefix leave nothing alphanumeric.
   */
  lemma ServicesSelectedExactly(name: string, prefix: Option<string>, shortID: string, r: Resource)
    requires ValidShort(shortID) && Selects(CONTAINER, shortID, r)
    ensures Selects(CONTAINER, GetPodName(name, prefix, shortID), r) <==> !Text.HasAlnum(Readable(name, prefix))
  {
    BareNameExactly(name, prefix, shortID);
  }

  /** So a container without prefix label keeps its services in the pods' loop, whatever its name. */
  lemma DefaultPodKeepsServices(name: string, shortID: string, m: Resources, m': Resources, r: Ref)
    requires ValidShort(shortID) && r in m && r.kind != Pod && Selects(CONTAINER, shortID, m[r])
    requires WentWith(m, m', Pod, GetPodName(name, None, shortID), true)
    ensures r in m' && m'[r] == m[r]
  {
    DefaultNameIsNotBare(name, shortID);
  }

  // ---- CleanContainers ----

  datatype Record = Record(shortID: string, created: Time)

  type Records = map<string, Record>

  ghost predicate DistinctShorts(db: Records) {
    forall i, j :: i in db && j in db && i != j ==> db[i].shortID != db[j].shortID
  }

  class Table {
    var records: Records
    /** How many deletions reported an error. */
    ghost var errors: nat

    method DeleteContainer(id: string) returns (err: bool)
      modifies this
      ensures records == if err then old(records) else old(records) - {id}
      ensures errors == old(errors) + if err then 1 else 0
    {
      err := *;
      if err {
        errors := errors + 1;
      } else {
        records := records - {id};
      }
    }
  }

  /** No resource of the record was touched. */
  ghost predicate Untouched(m: Resources, m': Resources, c: Record) {
    forall r :: r in m && Selects(CONTAINER, c.shortID, m[r]) ==> r in m' && m'[r] == m[r]
  }

  lemma StillUntouched(m: Resources, m1: Resources, m2: Resources, c: Record, other: string)
    requires Untouched(m, m1, c) && c.shortID != other
    requires Shrunk(m, m1) && Shrunk(m1, m2) && Shrunk(m2, Without(m1, ALL_KINDS, CONTAINER, other))
    ensures Untouched(m, m2, c)
  {
    forall r | r in m && Selects(CONTAINER, c.shortID, m[r]) ensures r in m2 && m2[r] == m[r] {
      assert r in Without(m1, ALL_KINDS, CONTAINER, other);
    }
  }

  /** Nothing of the container is left. */
  ghost predicate NoneLeft(m: Resources, shortID: string) {
    forall r :: r in m ==> !Selects(CONTAINER, shortID, m[r])
  }

  /** Among the calls is a backend delete of the container, and unless one of its calls failed nothing of it is left. */
  ghost predicate Reclaimed(calls: seq<Call>, m: Resources, shortID: string) {
    exists j, k :: 0 <= j <= k <= |calls| && ReclaimedAt(calls, j, k, m, shortID)
  }

  ghost predicate ReclaimedAt(calls: seq<Call>, j: nat, k: nat, m: Resources, shortID: string)
    requires j <= k <= |calls|
  {
    ReclaimedBy(calls[j..k], m, shortID)
  }

  ghost predicate ReclaimedBy(calls: seq<Call>, m: Resources, shortID: string) {
    AllAttempted(calls, CONTAINER, shortID) && (Failed(calls) || NoneLeft(m, shortID))
  }

  lemma DeletedIsReclaimed(m: Resources, m': Resources, calls: seq<Call>, shortID: string)
    requires Deleted(m, m', calls, CONTAINER, shortID)
    ensures ReclaimedBy(calls, m', shortID)
  {
    if !Failed(calls) {
      forall r | r in m' ensures !Selects(CONTAINER, shortID, m'[r]) {
        AllKinds(r.kind);
      }
    }
  }

  lemma StillReclaimed(calls: seq<Call>, more: seq<Call>, m: Resources, m': Resources, shortID: string)
    requires Reclaimed(calls, m, shortID) && Shrunk(m, m')
    ensures Reclaimed(calls + more, m', shortID)
  {
    var j, k :| 0 <= j <= k <= |calls| && ReclaimedAt(calls, j, k, m, shortID);
    assert (calls + more)[j..k] == calls[j..k];
    assert ReclaimedAt(calls + more, j, k, m', shortID);
  }

  lemma NowReclaimed(calls: seq<Call>, more: seq<Call>, m: Resources, shortID: string)
    requires ReclaimedBy(more, m, shortID)
    ensures Reclaimed(calls + more, m, shortID)
  {
    assert (calls + more)[|calls|..|calls + more|] == more;
    assert ReclaimedAt(calls + more, |calls|, |calls + more|, m, shortID);
  }

  // ---- one record ----

  ghost predicate PodIn(m: Resources, shortID: string) {
    exists p :: Ref(Pod, p) in m && Selects(CONTAINER, shortID, m[Ref(Pod, p)])
  }

  /** What happened is the Reap step of the life of the record, whatever that was. */
  ghost predicate IsReap(podBefore: bool, podAfter: bool, dbErr: bool, stored: bool) {
    forall l: Lifecycle.Life :: l.stored && l.pod == podBefore ==>
      var next := Lifecycle.Apply(l, Lifecycle.Reap(dbErr, podAfter));
      next.stored == stored && next.pod == podAfter && next.calls == l.calls + [Lifecycle.Deleted(podAfter)]
  }

  /**
   The body of the loop for one record that is too old: the backend delete is issued
   in full, its error only logged, and then the record is removed.
   */
  method CleanOne(table: Table, cluster: Cluster, id: string, rec: Record) returns (err: bool)
    requires id in table.records
    modifies table, cluster
    ensures old(cluster.log) <= cluster.log
    ensures Deleted(old(cluster.resources), cluster.resources, Since(cluster.log, old(cluster.log)), CONTAINER,
        rec.shortID)
    ensures table.records == if err then old(table.records) else old(table.records) - {id}
    ensures table.errors == old(table.errors) + if err then 1 else 0
    ensures IsReap(old(PodIn(cluster.resources, rec.shortID)), PodIn(cluster.resources, rec.shortID), err,
        id in table.records)
  {
    ghost var m := cluster.resources;
    var _ := DeleteContainer(cluster, rec.shortID);
    PodsShrink(m, cluster.resources, rec.shortID);
    err := table.DeleteContainer(id);
    ReapStep(PodIn(m, rec.shortID), PodIn(cluster.resources, rec.shortID), err);
  }

  lemma PodsShrink(m: Resources, m': Resources, shortID: string)
    requires Shrunk(m, m')
    ensures PodIn(m', shortID) ==> PodIn(m, shortID)
  {
  }

  lemma ReapStep(podBefore: bool, podAfter: bool, dbErr: bool)
    requires podAfter ==> podBefore
    ensures IsReap(podBefore, podAfter, dbErr, dbErr)
  {
  }

  // ---- all records ----

  /**
   Where the first tier is: it only removed records, those that were too old and had
   their backend delete, and touched no resource of the others.
   */
  ghost predicate Cleaned(db0: Records, db: Records, m0: Resources, m: Resources, calls: seq<Call>, limit: Time) {
    && Shrunk(m0, m)
    && (forall id :: id in db ==> id in db0 && db[id] == db0[id])
    && (forall id :: id in db ==> Untouched(m0, m, db[id]))
    && (forall id :: id in db0 && id !in db ==> db0[id].created < limit && Reclaimed(calls, m, db0[id].shortID))
  }

  lemma CleanedLater(db0: Records, db: Records, m0: Resources, m: Resources, calls: seq<Call>, limit: Time,
                     limit': Time)
    requires Cleaned(db0, db, m0, m, calls, limit) && limit <= limit'
    ensures Cleaned(db0, db, m0, m, calls, limit')
  {
  }

  lemma CleanedOneMore(db0: Records, db: Records, id: string, m0: Resources, m: Resources, m': Resources,
                       calls: seq<Call>, more: seq<Call>, limit: Time)
    requires DistinctShorts(db0) && Cleaned(db0, db, m0, m, calls, limit)
    requires id in db && db[id].created < limit
    requires Deleted(m, m', more, CONTAINER, db[id].shortID)
    ensures Cleaned(db0, db - {id}, m0, m', calls + more, limit)
  {
    var short := db[id].shortID;
    forall i | i in db - {id} ensures Untouched(m0, m', db[i]) {
      StillUntouched(m0, m, m', db[i], short);
    }
    forall i | i in db0 && i !in db ensures Reclaimed(calls + more, m', db0[i].shortID) {
      StillReclaimed(calls, more, m, m', db0[i].shortID);
    }
    DeletedIsReclaimed(m, m', more, short);
    NowReclaimed(calls, more, m', short);
  }

  /** The stored records that are not too old have all their resources. */
  ghost predicate YoungUntouched(db: Records, m: Resources, m': Resources, limit: Time) {
    forall id :: id in db && db[id].created >= limit ==> Untouched(m, m', db[id])
  }

  /** Where the first tier ends: the same, but of the stored records only for those that are not too old. */
  ghost predicate CleanedAtLeast(db0: Records, db: Records, m0: Resources, m: Resources, calls: seq<Call>, limit: Time)
  {
    && Shrunk(m0, m)
    && (forall id :: id in db ==> id in db0 && db[id] == db0[id])
    && YoungUntouched(db, m0, m, limit)
    && (forall id :: id in db0 && id !in db ==> db0[id].created < limit && Reclaimed(calls, m, db0[id].shortID))
  }

  /** When a record could not be removed it stays, and loses its resources. */
  lemma CleanedButKept(db0: Records, db: Records, id: string, m0: Resources, m: Resources, m': Resources,
                       calls: seq<Call>, more: seq<Call>, limit: Time)
    requires DistinctShorts(db0) && Cleaned(db0, db, m0, m, calls, limit)
    requires id in db && db[id].created < limit
    requires Deleted(m, m', more, CONTAINER, db[id].shortID)
    ensures CleanedAtLeast(db0, db, m0, m', calls + more, limit)
  {
    forall i | i in db && db[i].created >= limit ensures Untouched(m0, m', db[i]) {
      StillUntouched(m0, m, m', db[i], db[id].shortID);
    }
    forall i | i in db0 && i !in db ensures Reclaimed(calls + more, m', db0[i].shortID) {
      StillReclaimed(calls, more, m, m', db0[i].shortID);
    }
  }

  lemma CleanedIsAtLeast(db0: Records, db: Records, m0: Resources, m: Resources, calls: seq<Call>, limit: Time)
    requires Cleaned(db0, db, m0, m, calls, limit)
    ensures CleanedAtLeast(db0, db, m0, m, calls, limit)
  {
  }

  /** One record that is too old. */
  method CleanOld(table: Table, cluster: Cluster, id: string, rec: Record,
                  ghost db0: Records, ghost m0: Resources, ghost before: seq<Call>, ghost limit: Time)
    returns (err: bool)
    requires DistinctShorts(db0) && id in table.records && table.records[id] == rec && before <= cluster.log
    requires Cleaned(db0, table.records, m0, cluster.resources, Since(cluster.log, before), limit) &&
        rec.created < limit
    modifies table, cluster
    ensures before <= cluster.log && table.errors == old(table.errors) + if err then 1 else 0
    ensures table.records == if err then old(table.records) else old(table.records) - {id}
    ensures CleanedAtLeast(db0, table.records, m0, cluster.resources, Since(cluster.log, before), limit)
    ensures !err ==> Cleaned(db0, table.records, m0, cluster.resources, Since(cluster.log, before), limit)
  {
    ghost var m1, log1, db1 := cluster.resources, cluster.log, table.records;
    err := CleanOne(table, cluster, id, rec);
    SinceTwice(before, log1, cluster.log);
    if err {
      CleanedButKept(db0, db1, id, m0, m1, cluster.resources, Since(log1, before), Since(cluster.log, log1), limit);
    } else {
      CleanedOneMore(db0, db1, id, m0, m1, cluster.resources, Since(log1, before), Since(cluster.log, log1), limit);
      CleanedIsAtLeast(db0, table.records, m0, cluster.resources, Since(cluster.log, before), limit);
    }
  }

  /** All records still stored, but those to do, were young enough at that limit. */
  ghost predicate AllYoung(db: Records, todo: set<string>, limit: Time) {
    forall id :: id in db && id !in todo ==> db[id].created >= limit
  }

  lemma OneMoreYoung(db: Records, db': Records, todo: set<string>, id: string, limit: Time)
    requires AllYoung(db, todo, limit) && (db' == db - {id} || (db' == db && (id in db ==> db[id].created >= limit)))
    ensures AllYoung(db', todo - {id}, limit)
  {
  }

  /** The tier so far: without an error all records it looked at are young, and with one at least the young are safe. */
  ghost predicate Progress(err: bool, db0: Records, db: Records, m0: Resources, m: Resources, calls: seq<Call>,
                           limit: Time, todo: set<string>, first: Time)
  {
    if err then CleanedAtLeast(db0, db, m0, m, calls, limit)
    else Cleaned(db0, db, m0, m, calls, limit) && AllYoung(db, todo, first) && first <= limit
  }

  lemma ProgressAtStart(db: Records, m: Resources, limit: Time)
    ensures Progress(false, db, db, m, m, [], limit, db.Keys, limit)
  {
  }

  /** One round of the loop. */
  method Visit(table: Table, cluster: Cluster, clock: Clock, keepMax: Time, id: string, rec: Record,
               ghost db0: Records, ghost m0: Resources, ghost before: seq<Call>,
               ghost todo: set<string>, ghost first: Time)
    returns (err: bool)
    requires DistinctShorts(db0) && id in table.records && table.records[id] == rec && before <= cluster.log
    requires Progress(false, db0, table.records, m0, cluster.resources, Since(cluster.log, before),
                      clock.now - keepMax, todo, first)
    modifies table, cluster, clock
    ensures old(clock.now) <= clock.now && before <= cluster.log
    ensures table.errors == old(table.errors) + if err then 1 else 0
    ensures table.records == old(table.records) || table.records == old(table.records) - {id}
    ensures Progress(err, db0, table.records, m0, cluster.resources, Since(cluster.log, before), clock.now - keepMax,
                     todo - {id}, first)
  {
    ghost var db, limit := table.records, clock.now - keepMax;
    var now := clock.Now();
    CleanedLater(db0, table.records, m0, cluster.resources, Since(cluster.log, before), limit, now - keepMax);
    if rec.created < now - keepMax {
      err := CleanOld(table, cluster, id, rec, db0, m0, before, now - keepMax);
    } else {
      CleanedIsAtLeast(db0, table.records, m0, cluster.resources, Since(cluster.log, before), now - keepMax);
      err := false;
    }
    if !err {
      OneMoreYoung(db, table.records, todo, id, first);
    }
  }

  method CleanContainers(table: Table, cluster: Cluster, clock: Clock, keepMax: Time) returns (err: bool)
    requires DistinctShorts(table.records)
    modifies table, cluster, clock
    ensures old(clock.now) <= clock.now && old(cluster.log) <= cluster.log
    ensures err <==> table.errors != old(table.errors)
    ensures Progress(err, old(table.records), table.records, old(cluster.resources), cluster.resources,
                     Since(cluster.log, old(cluster.log)), clock.now - keepMax, {}, old(clock.now) - keepMax)
  {
    var snapshot := table.records;
    ghost var m, before, first := cluster.resources, cluster.log, clock.now - keepMax;
    ProgressAtStart(snapshot, m, first);
    var todo := snapshot.Keys;
    while todo != {}
      invariant todo <= snapshot.Keys && todo <= table.records.Keys
      invariant old(clock.now) <= clock.now && before <= cluster.log && table.errors == old(table.errors)
      invariant Progress(false, snapshot, table.records, m, cluster.resources, Since(cluster.log, before),
                         clock.now - keepMax, todo, first)
    {
      var id :| id in todo;
      err := Visit(table, cluster, clock, keepMax, id, snapshot[id], snapshot, m, before, todo, first);
      if err {
        return;
      }
      todo := todo - {id};
    }
    return false;
  }

  // ---- the tiers together ----

  /** The resources of the record were created no earlier than `skew` before it. */
  ghost predicate CreatedWith(m: Resources, c: Record, skew: Time) {
    forall r :: r in m && Selects(CONTAINER, c.shortID, m[r]) ==> m[r].created >= c.created - skew
  }

  /** Every managed pod is labelled with the short id its name ends in. */
  ghost predicate PodsNamed(m: Resources) {
    forall p :: Ref(Pod, p) in m && Selects(MANAGED, "true", m[Ref(Pod, p)]) ==> PodNamed(p, m[Ref(Pod, p)])
  }

  /** A pod whose name is a bare short id is labelled with that short id. */
  lemma BareNameIsLabel(p: string, r: Resource)
    requires PodNamed(p, r) && |p| == SHORT_LENGTH
    ensures Selects(CONTAINER, p, r)
  {
  }

  /**
   A container young enough for the first tier is out of reach of the second, if
   the two are no further apart than the grace period less the clock skew.
   */
  lemma SecondTierSparesYoung(m: Resources, m': Resources, c: Record, skew: Time, keepMax: Time, start: Time, end: Time)
    requires c.created >= start - keepMax && ValidShort(c.shortID)
    requires CreatedWith(m, c, skew) && PodsNamed(m)
    requires Reaped(m, m', keepMax + GRACE, end)
    requires end - start + skew <= GRACE
    ensures Untouched(m, m', c)
  {
    forall r | r in m && Selects(CONTAINER, c.shortID, m[r]) ensures r in m' && m'[r] == m[r] {
      if r !in m' {
        var p :| Ref(Pod, p) in m && OldAt(m[Ref(Pod, p)], keepMax + GRACE, end) && Selects(CONTAINER, p, m[r]);
        BareNameIsLabel(p, m[Ref(Pod, p)]);
        assert false;
      }
    }
  }

  /** What an error-free DeleteOlderThan that starts at `start` and ends at `end` makes of the cluster. */
  ghost predicate Swept(m: Resources, m': Resources, keepMax: Time, start: Time, end: Time) {
    Reaped(m, m', keepMax, end) && forall r :: r in m' ==> !OldAt(m'[r], keepMax, start)
  }

  /** A container that is on record after a first tier that began at `start`, and its cluster. */
  ghost predicate PassedFirstTier(m: Resources, c: Record, skew: Time, keepMax: Time, start: Time) {
    && ValidShort(c.shortID) && c.created >= start - keepMax
    && CreatedWith(m, c, skew) && PodsNamed(m)
  }

  /** The cluster with one service, made for the container as early as the skew allows. */
  function LoneService(c: Record, skew: Time): Resources {
    map[Ref(Service, c.shortID) := Resource(map[MANAGED := "true", CONTAINER := c.shortID], c.created - skew, false)]
  }

  /**
   When more time passed, an error-free second tier takes a resource of a container on
   record: of any container that just passed the first tier, the lone service.
   */
  lemma LateTierTakes(c: Record, m': Resources, skew: Time, keepMax: Time, start: Time, late: Time, end: Time)
    requires ValidShort(c.shortID) && c.created == start - keepMax
    requires late - start + skew > GRACE
    requires Swept(LoneService(c, skew), m', keepMax + GRACE, late, end)
    ensures PassedFirstTier(LoneService(c, skew), c, skew, keepMax, start)
    ensures m' == map[] && !Untouched(LoneService(c, skew), m', c)
  {
    var m, r := LoneService(c, skew), Ref(Service, c.shortID);
    assert r in m && OldAt(m[r], keepMax + GRACE, late);
    assert r !in m';
  }

  /**
   The bound is exact: an error-free second tier spares every container that passed
   the first if and only if the time since and the skew fit in the grace period.
   */
  lemma TiersAreSafeExactly(keepMax: Time, start: Time, end: Time, skew: Time)
    ensures end - start + skew <= GRACE
       <==> forall m, m', c ::
              PassedFirstTier(m, c, skew, keepMax, start) && Swept(m, m', keepMax + GRACE, end, end) ==>
              Untouched(m, m', c)
  {
    if end - start + skew <= GRACE {
      forall m, m', c | PassedFirstTier(m, c, skew, keepMax, start) && Swept(m, m', keepMax + GRACE, end, end)
        ensures Untouched(m, m', c)
      {
        SecondTierSparesYoung(m, m', c, skew, keepMax, start, end);
      }
    } else {
      var c := Record("0123456789ab", start - keepMax);
      var m, none: Resources := LoneService(c, skew), map[];
      var r := Ref(Service, c.shortID);
      assert ValidShort(c.shortID);
      assert OldAt(m[r], keepMax + GRACE, end);
      assert Swept(m, none, keepMax + GRACE, end, end);
      LateTierTakes(c, none, skew, keepMax, start, end, end);
    }
  }

  /**
   What a pass assumes: short ids as generated, resources created no earlier than the skew
   before their record, pods named by kubedock.
   */
  ghost predicate Ready(db: Records, m: Resources, skew: Time) {
    (forall id :: id in db ==> ValidShort(db[id].shortID) && CreatedWith(m, db[id], skew)) && PodsNamed(m)
  }

  ghost predicate AllUntouched(db: Records, m: Resources, m': Resources) {
    forall id :: id in db ==> Untouched(m, m', db[id])
  }

  /**
   Only records that were too old were removed, and each had its backend delete, which
   left nothing of it unless one of its calls failed; and every record still stored
   that is not too old has all its resources.
   */
  ghost predicate PassedSafely(db0: Records, db: Records, m0: Resources, m: Resources, calls: seq<Call>, skew: Time,
                               limit: Time)
  {
    && Shrunk(m0, m)
    && (forall id :: id in db ==> id in db0 && db[id] == db0[id])
    && (forall id :: id in db0 && id !in db ==> db0[id].created < limit && Reclaimed(calls, m, db0[id].shortID))
    && (skew <= GRACE ==> YoungUntouched(db, m0, m, limit))
  }

  /** Among the calls the second tier begins; unless one from there on failed, nothing old at `start` is left. */
  ghost predicate SecondTierRan(calls: seq<Call>, m: Resources, keepMax: Time, start: Time) {
    exists k :: 0 <= k < |calls| && SecondTierAt(calls, k, m, keepMax, start)
  }

  ghost predicate SecondTierAt(calls: seq<Call>, k: nat, m: Resources, keepMax: Time, start: Time)
    requires k < |calls|
  {
    && calls[k].request == ListOf(Pod, MANAGED, "true")
    && (Failed(calls[k..]) || forall r :: r in m ==> !OldAt(m[r], keepMax, start))
  }

  /** The second tier: everything made by kubedock, 15 minutes later than the first. */
  method CleanContainersKubernetes(cluster: Cluster, clock: Clock, keepMax: Time) returns (err: bool)
    modifies cluster, clock
    ensures old(clock.now) <= clock.now && old(cluster.log) <= cluster.log
    ensures Reaped(old(cluster.resources), cluster.resources, keepMax + GRACE, clock.now)
    ensures FirstLists(cluster.log, old(cluster.log), Pod)
    ensures err ==> LastFailed(cluster.log, old(cluster.log))
    ensures !err ==> forall r :: r in cluster.resources ==>
        !OldAt(cluster.resources[r], keepMax + GRACE, old(clock.now))
  {
    err := DeleteOlderThan(cluster, clock, keepMax + GRACE);
  }

  /**
   One reaper pass. Every container still on record that is not too old has all its
   resources, whatever failed and however long the pass took. When no record failed to
   be removed, and the pass took no longer than the grace period less the skew, every
   container still on record has, and none that was too old at the beginning is still on
   record. What was removed had its backend delete, and nothing of it is left unless
   that failed. And the second tier ran: unless one of its
   calls failed, nothing that kubedock made, for whatever record or instance, is left
   that was older than `keepMax` and the grace period when the pass began.
   */
  method Clean(table: Table, cluster: Cluster, clock: Clock, keepMax: Time, ghost skew: Time)
    requires DistinctShorts(table.records) && Ready(table.records, cluster.resources, skew)
    modifies table, cluster, clock
    ensures old(cluster.log) <= cluster.log
    ensures PassedSafely(old(table.records), table.records, old(cluster.resources), cluster.resources,
                         Since(cluster.log, old(cluster.log)), skew, clock.now - keepMax)
    ensures table.errors == old(table.errors) && clock.now - old(clock.now) + skew <= GRACE ==>
              AllUntouched(table.records, old(cluster.resources), cluster.resources)
    ensures table.errors == old(table.errors) ==> AllYoung(table.records, {}, old(clock.now) - keepMax)
    ensures SecondTierRan(Since(cluster.log, old(cluster.log)), cluster.resources, keepMax + GRACE, old(clock.now))
  {
    ghost var db0, m0, log0, start := table.records, cluster.resources, cluster.log, clock.now;
    var err := CleanContainers(table, cluster, clock, keepMax);
    ghost var m1, log1, now1 := cluster.resources, cluster.log, clock.now;
    var kerr := CleanContainersKubernetes(cluster, clock, keepMax);
    PassEnds(err, kerr, db0, table.records, m0, m1, cluster.resources, log0, log1, cluster.log,
             skew, keepMax, start, now1, clock.now);
  }

  lemma SecondTierInPass(log0: seq<Call>, log1: seq<Call>, log2: seq<Call>, m: Resources, keepMax: Time,
                         start: Time, mid: Time, err: bool)
    requires log0 <= log1 && FirstLists(log2, log1, Pod) && start <= mid
    requires if err then LastFailed(log2, log1) else forall r :: r in m ==> !OldAt(m[r], keepMax, mid)
    ensures SecondTierRan(Since(log2, log0), m, keepMax, start)
  {
    var calls, k := Since(log2, log0), |log1| - |log0|;
    assert calls[k..] == Since(log2, log1);
    if err {
      var last := Since(log2, log1);
      assert last[|last| - 1].err;
    }
    assert SecondTierAt(calls, k, m, keepMax, start);
  }

  lemma PassEnds(err: bool, kerr: bool, db0: Records, db: Records, m0: Resources, m1: Resources, m2: Resources,
                 log0: seq<Call>, log1: seq<Call>, log2: seq<Call>,
                 skew: Time, keepMax: Time, start: Time, mid: Time, end: Time)
    requires Ready(db0, m0, skew) && start <= mid <= end && log0 <= log1
    requires Progress(err, db0, db, m0, m1, Since(log1, log0), mid - keepMax, {}, start - keepMax)
    requires Reaped(m1, m2, keepMax + GRACE, end) && FirstLists(log2, log1, Pod)
    requires if kerr then LastFailed(log2, log1) else forall r :: r in m2 ==> !OldAt(m2[r], keepMax + GRACE, mid)
    ensures PassedSafely(db0, db, m0, m2, Since(log2, log0), skew, end - keepMax)
    ensures !err && end - start + skew <= GRACE ==> AllUntouched(db, m0, m2)
    ensures !err ==> AllYoung(db, {}, start - keepMax)
    ensures SecondTierRan(Since(log2, log0), m2, keepMax + GRACE, start)
  {
    SinceTwice(log0, log1, log2);
    PassIsSafe(err, db0, db, m0, m1, m2, Since(log1, log0), Since(log2, log1), skew, keepMax, start, mid, end);
    if !err && end - start + skew <= GRACE {
      PassIsComplete(db0, db, m0, m1, m2, Since(log1, log0), skew, keepMax, start, mid, end);
    }
    SecondTierInPass(log0, log1, log2, m2, keepMax + GRACE, start, mid, kerr);
  }

  /** What the second tier leaves of what the first tier guarantees. */
  lemma PassIsSafe(err: bool, db0: Records, db: Records, m0: Resources, m1: Resources, m2: Resources,
                   calls: seq<Call>, more: seq<Call>, skew: Time, keepMax: Time, start: Time, mid: Time, end: Time)
    requires Ready(db0, m0, skew)
    requires Progress(err, db0, db, m0, m1, calls, mid - keepMax, {}, start - keepMax) && mid <= end
    requires Reaped(m1, m2, keepMax + GRACE, end)
    ensures PassedSafely(db0, db, m0, m2, calls + more, skew, end - keepMax)
  {
    forall id | id in db0 && id !in db ensures Reclaimed(calls + more, m2, db0[id].shortID) {
      StillReclaimed(calls, more, m1, m2, db0[id].shortID);
    }
    if skew <= GRACE {
      forall id | id in db && db[id].created >= end - keepMax ensures Untouched(m0, m2, db[id]) {
        SecondTierSparesYoung(m1, m2, db[id], skew, keepMax, end, end);
      }
    }
  }

  lemma PassIsComplete(db0: Records, db: Records, m0: Resources, m1: Resources, m2: Resources, calls: seq<Call>,
                       skew: Time, keepMax: Time, start: Time, mid: Time, end: Time)
    requires Ready(db0, m0, skew)
    requires Progress(false, db0, db, m0, m1, calls, mid - keepMax, {}, start - keepMax)
    requires Reaped(m1, m2, keepMax + GRACE, end) && end - start + skew <= GRACE
    ensures AllUntouched(db, m0, m2)
  {
    forall id | id in db ensures Untouched(m0, m2, db[id]) {
      SecondTierSparesYoung(m1, m2, db[id], skew, keepMax, start, end);
    }
  }
}
