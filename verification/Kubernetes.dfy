/**
 The cluster as kubedock sees it: labelled, timestamped resources behind list,
 create and delete calls that may fail at any moment, and a clock that moves on.
 */
module Kubernetes {
  import opened Labels

  /** Nanoseconds. */
  type Time = int

  datatype ResourceKind = Service | ConfigMap | Pod

  datatype Ref = Ref(kind: ResourceKind, name: string)

  datatype Resource = Resource(labels: LabelMap, created: Time, deleting: bool)

  type Resources = map<Ref, Resource>

  /** What a caller asks of the cluster. */
  datatype Request =
    | ListOf(kind: ResourceKind, key: string, value: string)
    | DeleteOf(kind: ResourceKind, name: string)
    | CreateOf(kind: ResourceKind, name: string)

  /** A call, whether it reported an error, and whether that was that the name exists already. */
  datatype Call = Call(request: Request, err: bool, duplicate: bool := false)

  /** The calls made since the log was `before`. */
  ghost function Since(log: seq<Call>, before: seq<Call>): seq<Call> {
    if before <= log then log[|before|..] else []
  }

  lemma SinceTwice(a: seq<Call>, b: seq<Call>, c: seq<Call>)
    requires a <= b <= c
    ensures Since(c, a) == Since(b, a) + Since(c, b)
  {
  }

  /** The label selector `key=value`. */
  predicate Selects(key: string, value: string, r: Resource) {
    key in r.labels && r.labels[key] == value
  }

  /** Only deletions lie between the two: what is left is unchanged. */
  ghost predicate Shrunk(before: Resources, after: Resources) {
    forall r :: r in after ==> r in before && after[r] == before[r]
  }

  class Clock {
    var now: Time

    method Now() returns (t: Time)
      modifies this
      ensures t == now && old(now) <= now
    {
      assert now <= now;
      t :| now <= t;
      now := t;
    }
  }

  class Cluster {
    var resources: Resources
    /** All calls so far. */
    ghost var log: seq<Call>

    /** The resources of one kind a selector picks, as a snapshot. */
    method List(kind: ResourceKind, key: string, value: string) returns (err: bool, items: map<string, Resource>)
      modifies this`log
      ensures log == old(log) + [Call(ListOf(kind, key, value), err)]
      ensures !err ==> forall name :: name in items <==>
                Ref(kind, name) in resources && Selects(key, value, resources[Ref(kind, name)])
      ensures !err ==> forall name :: name in items ==> items[name] == resources[Ref(kind, name)]
      ensures err ==> items == map[]
    {
      err := *;
      items := map[];
      if !err {
        var names := set r | r in resources && r.kind == kind && Selects(key, value, resources[r]) :: r.name;
        items := map name | name in names :: resources[Ref(kind, name)];
      }
      log := log + [Call(ListOf(kind, key, value), err)];
    }

    /** A call that reports an error may or may not have had its effect. */
    method Delete(kind: ResourceKind, name: string) returns (err: bool)
      modifies this
      ensures log == old(log) + [Call(DeleteOf(kind, name), err)]
      ensures resources == old(resources) || resources == old(resources) - {Ref(kind, name)}
      ensures !err ==> Ref(kind, name) in old(resources) && Ref(kind, name) !in resources
    {
      var fails: bool := *;
      var effect: bool := *;
      err := fails || Ref(kind, name) !in resources;
      if !err || effect {
        resources := resources - {Ref(kind, name)};
      }
      log := log + [Call(DeleteOf(kind, name), err)];
    }

    /** Creation never replaces: a name that exists is an error, and may be reported as such. */
    method Create(kind: ResourceKind, name: string, labels: LabelMap, now: Time) returns (err: bool, exists_: bool)
      modifies this
      ensures log == old(log) + [Call(CreateOf(kind, name), err, exists_)]
      ensures err ==> resources == old(resources)
      ensures exists_ ==> err && Ref(kind, name) in old(resources)
      ensures !err ==> Ref(kind, name) !in old(resources)
      ensures !err ==> resources == old(resources)[Ref(kind, name) := Resource(labels, now, false)]
    {
      var fails: bool := *;
      exists_ := !fails && Ref(kind, name) in resources;
      err := fails || exists_;
      if !err {
        resources := resources[Ref(kind, name) := Resource(labels, now, false)];
      }
      log := log + [Call(CreateOf(kind, name), err, exists_)];
    }
  }
}
