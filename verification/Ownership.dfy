/**
 Whose resources are in the cluster, over whole runs: starts of any containers of
 any instances, deletions of anything, and resources that others create.
 */
module Ownership {
  import opened Common
  import opened Delete
  import opened Deploy
  import opened Kubernetes
  import opened Labels
  import PodName
  import Reaper

  /** The cluster, and for each resource kubedock made there by and for whom. */
  datatype World = World(m: Resources, made: map<Ref, Origin>)

  /**
   A start of a container of that name and prefix adds resources (also one that fails:
   its pod is deleted in a change of its own), a deletion takes some away, and others
   add resources without the labels of kubedock.
   */
  datatype Change =
    | Started(after: Resources, refs: set<Ref>, origin: Origin, name: string, prefix: Option<string>)
    | Deleted(after: Resources)
    | Foreign(after: Resources)

  ghost predicate Possible(w: World, c: Change) {
    match c
    case Started(after, refs, origin, name, prefix) =>
      && Grown(w.m, after, refs, origin.instance, origin.shortID)
      && PodName.ValidShort(origin.shortID)
      && forall p :: Ref(Pod, p) in refs ==> p == PodName.GetPodName(name, prefix, origin.shortID)
    case Deleted(after) => Shrunk(w.m, after)
    case Foreign(after) =>
      && Shrunk(after, w.m)
      && forall r, key :: r in after && r !in w.m && key in OWN_KEYS ==> key !in after[r].labels
  }

  ghost function New(w: World, after: Resources): set<Ref> {
    after.Keys - w.m.Keys
  }

  ghost function Next(w: World, c: Change): World {
    match c
    case Started(after, _, origin, _, _) => World(after, w.made + map r | r in New(w, after) :: origin)
    case Deleted(after) => World(after, w.made)
    case Foreign(after) => World(after, w.made - New(w, after))
  }

  ghost predicate PossibleRun(w: World, cs: seq<Change>)
    decreases |cs|
  {
    cs == [] || (Possible(w, cs[0]) && PossibleRun(Next(w, cs[0]), cs[1..]))
  }

  ghost function Run(w: World, cs: seq<Change>): World
    decreases |cs|
  {
    if cs == [] then w else Run(Next(w, cs[0]), cs[1..])
  }

  /** In every reachable state the labels of a resource tell its origin. */
  lemma {:induction false} RunIsFaithful(w: World, cs: seq<Change>)
    requires Faithful(w.m, w.made) && PossibleRun(w, cs)
    ensures Faithful(Run(w, cs).m, Run(w, cs).made)
    decreases |cs|
  {
    if cs != [] {
      RunIsFaithful(Next(w, cs[0]), cs[1..]);
    }
  }

  /** What of the cluster was made for the container. */
  ghost function Owned(w: World, shortID: string): set<Ref> {
    set r | r in w.m && r in w.made && w.made[r].shortID == shortID
  }

  /**
   After any run, an error-free delete removes exactly what was made for that
   container, whoever else shares the cluster.
   */
  lemma DeleteRemovesOwned(w: World, cs: seq<Change>, shortID: string)
    requires Faithful(w.m, w.made) && PossibleRun(w, cs)
    ensures var end := Run(w, cs);
            Without(end.m, ALL_KINDS, CONTAINER, shortID) == end.m - Owned(end, shortID)
  {
    var end := Run(w, cs);
    RunIsFaithful(w, cs);
    ContainerSelectorIsExact(end.m, end.made, shortID);
    assert Without(end.m, ALL_KINDS, CONTAINER, shortID).Keys == (end.m - Owned(end, shortID)).Keys;
  }

  /** In every reachable state the managed pods are named after their containers, as the reaper assumes. */
  lemma {:induction false} RunKeepsPodsNamed(w: World, cs: seq<Change>)
    requires Reaper.PodsNamed(w.m) && PossibleRun(w, cs)
    ensures Reaper.PodsNamed(Run(w, cs).m)
    decreases |cs|
  {
    if cs != [] {
      ChangeKeepsPodsNamed(w, cs[0]);
      RunKeepsPodsNamed(Next(w, cs[0]), cs[1..]);
    }
  }

  lemma ChangeKeepsPodsNamed(w: World, c: Change)
    requires Reaper.PodsNamed(w.m) && Possible(w, c)
    ensures Reaper.PodsNamed(c.after)
  {
    forall p | Ref(Pod, p) in c.after && Selects(MANAGED, "true", c.after[Ref(Pod, p)])
      ensures Reaper.PodNamed(p, c.after[Ref(Pod, p)])
    {
      if Ref(Pod, p) !in w.m {
        assert MANAGED in OWN_KEYS && CONTAINER in OWN_KEYS;
        assert c.Started?;
        PodName.PodNameIsHostLabel(c.name, c.prefix, c.origin.shortID);
      } else {
        assert c.after[Ref(Pod, p)] == w.m[Ref(Pod, p)];
      }
    }
  }
}
