/**
 Networks and the containers attached to them: every API call that changes
 either, each one atomic step. Generated ids are inputs, and are fresh.
 */
module Networks {
  import opened Common
  import opened Database
  import opened StringId

  datatype Network = Network(id: string, shortID: string, name: string)

  datatype Store = Store(containers: seq<Container>, networks: seq<Network>)

  const PREDEFINED := {"bridge", "null", "host"}

  predicate IsPredefined(n: Network) {
    n.name == "bridge" || n.name == "null" || n.name == "host"
  }

  // ---- lookups ----

  function NetworkKey(n: Network, ix: Index): string {
    match ix
    case ByID => n.id
    case ByShortID => n.shortID
    case ByName => n.name
  }

  function FirstNetwork(t: seq<Network>, ix: Index, key: string): (r: Option<Network>)
    ensures r.Some? ==> r.value in t && NetworkKey(r.value, ix) == key
    ensures r.None? ==> forall n :: n in t ==> NetworkKey(n, ix) != key
  {
    if t == [] then None
    else if NetworkKey(t[0], ix) == key then Some(t[0])
    else FirstNetwork(t[1..], ix, key)
  }

  function GetNetworkByNameOrID(t: seq<Network>, id: string): (r: Option<Network>)
    ensures r.Some? ==> r.value in t
  {
    var found := FirstNetwork(t, if IsShortID(id) then ByShortID else ByID, id);
    if found.Some? then found else FirstNetwork(t, ByName, id)
  }

  /** A network is found by its own id. */
  lemma NetworkIDFinds(t: seq<Network>, n: Network)
    requires UniqueIds(t) && n in t && !IsShortID(n.id)
    ensures GetNetworkByNameOrID(t, n.id) == Some(n)
  {
    SameIdSameNetwork(t, FirstNetwork(t, ByID, n.id).value, n);
  }

  /** It is found by its short id and by its name, when these are its alone and the name is no id. */
  lemma NetworkNameFinds(t: seq<Network>, n: Network)
    requires n in t
    ensures IsShortID(n.shortID) && (forall m :: m in t && m.shortID == n.shortID ==> m == n) ==>
              GetNetworkByNameOrID(t, n.shortID) == Some(n)
    ensures (forall m :: m in t ==> m.id != n.name && m.shortID != n.name && (m.name == n.name ==> m == n)) ==>
              GetNetworkByNameOrID(t, n.name) == Some(n)
  {
  }

  /** Exactly when nothing is found: a short id is sought among short ids and names, others among ids and names. */
  lemma NetworkNotFoundExactly(t: seq<Network>, ref: string)
    ensures GetNetworkByNameOrID(t, ref).None?
       <==> forall n :: n in t ==> n.name != ref && (if IsShortID(ref) then n.shortID != ref else n.id != ref)
  {
  }

  predicate Attached(cs: seq<Container>, id: string) {
    exists i :: 0 <= i < |cs| && id in cs[i].networks
  }

  function NetworkPosition(t: seq<Network>, id: string): (k: nat)
    ensures k <= |t|
    ensures k < |t| ==> t[k].id == id
    ensures forall i :: 0 <= i < k ==> t[i].id != id
  {
    if t == [] || t[0].id == id then 0 else 1 + NetworkPosition(t[1..], id)
  }

  function RemoveNetwork(t: seq<Network>, id: string): seq<Network> {
    var k := NetworkPosition(t, id);
    if k < |t| then t[..k] + t[k + 1..] else t
  }

  // ---- the specification ----

  datatype Event =
    | CreateNetwork(n: Network)
    | DeleteNetwork(ref: string)
    | Connect(ref: string, container: string)
    | Disconnect(ref: string, container: string)
    | CreateContainer(c: Container, mode: string, endpoints: seq<string>)
    | RemoveContainer(id: string)
    | Prune
    | Revive(c: Container)

  /** The ids of the networks a list of endpoints names ("" names none); None when one is unknown. */
  function Resolve(t: seq<Network>, endpoints: seq<string>): Option<set<string>> {
    if endpoints == [] then Some({})
    else
      var rest := Resolve(t, endpoints[1..]);
      if endpoints[0] == "" || rest.None? then rest
      else
        match GetNetworkByNameOrID(t, endpoints[0])
        case None => None
        case Some(n) => Some({n.id} + rest.value)
  }

  /** The networks of a new container: its mode, its endpoints, or else the bridge. */
  function InitialNetworks(t: seq<Network>, mode: string, endpoints: seq<string>): Option<set<string>> {
    match Resolve(t, (if mode == "default" then [] else [mode]) + endpoints)
    case None => None
    case Some(ids) =>
      if ids != {} then Some(ids)
      else
        match FirstNetwork(t, ByName, "bridge")
        case None => None
        case Some(n) => Some({n.id})
  }

  /** The network, if it is predefined or in use. */
  function IfKept(n: Network, cs: seq<Container>): seq<Network> {
    if IsPredefined(n) || Attached(cs, n.id) then [n] else []
  }

  function Pruned(t: seq<Network>, cs: seq<Container>): seq<Network> {
    if t == [] then []
    else IfKept(t[0], cs) + Pruned(t[1..], cs)
  }

  function Apply(s: Store, e: Event): Store {
    match e
    case CreateNetwork(n) => s.(networks := s.networks + [n])
    case DeleteNetwork(ref) =>
      (match GetNetworkByNameOrID(s.networks, ref)
       case None => s
       case Some(n) =>
         if IsPredefined(n) || Attached(s.containers, n.id) then s
         else s.(networks := RemoveNetwork(s.networks, n.id)))
    case Connect(ref, container) =>
      (match (GetNetworkByNameOrID(s.networks, ref), GetContainer(s.containers, container))
       case (Some(n), Some(c)) => s.(containers := Insert(s.containers, c.(networks := c.networks + {n.id})))
       case _ => s)
    case Disconnect(ref, container) =>
      (match (GetNetworkByNameOrID(s.networks, ref), GetContainer(s.containers, container))
       case (Some(n), Some(c)) =>
         if IsPredefined(n) || n.id !in c.networks then s
         else s.(containers := Insert(s.containers, c.(networks := c.networks - {n.id})))
       case _ => s)
    case CreateContainer(c, mode, endpoints) =>
      (match InitialNetworks(s.networks, mode, endpoints)
       case None => s
       case Some(ids) => s.(containers := Insert(s.containers, c.(networks := ids))))
    case RemoveContainer(id) => s.(containers := Remove(s.containers, id))
    case Prune => s.(networks := Pruned(s.networks, s.containers))
    case Revive(c) =>
      if Position(s.containers, c.id) < |s.containers| then s else s.(containers := Insert(s.containers, c))
  }

  /** New ids are fresh; a revived record had an id and a short id of its own. */
  ghost predicate Fresh(s: Store, e: Event) {
    match e
    case CreateNetwork(n) => forall m :: m in s.networks ==> m.id != n.id
    case CreateContainer(c, _, _) =>
      ValidRecord(c) && forall d :: d in s.containers ==> d.id != c.id && d.shortID != c.shortID
    case Revive(c) =>
      ValidRecord(c) && forall d :: d in s.containers && d.id != c.id ==> d.shortID != c.shortID
    case _ => true
  }

  /** A restart that saves a removed record again finds all its networks. */
  ghost predicate Referenced(s: Store, e: Event) {
    e.Revive? && Position(s.containers, e.c.id) == |s.containers| ==>
      forall id :: id in e.c.networks ==> Known(s.networks, id)
  }

  ghost predicate AllReferenced(s: Store, es: seq<Event>)
    decreases |es|
  {
    es == [] || (Referenced(s, es[0]) && AllReferenced(Apply(s, es[0]), es[1..]))
  }

  ghost predicate AllFresh(s: Store, es: seq<Event>)
    decreases |es|
  {
    es == [] || (Fresh(s, es[0]) && AllFresh(Apply(s, es[0]), es[1..]))
  }

  function Run(s: Store, es: seq<Event>): Store
    decreases |es|
  {
    if es == [] then s else Run(Apply(s, es[0]), es[1..])
  }

  // ---- referential integrity ----

  ghost predicate Known(t: seq<Network>, id: string) {
    exists i :: 0 <= i < |t| && t[i].id == id
  }

  ghost predicate UniqueIds(t: seq<Network>) {
    forall i, j :: 0 <= i < j < |t| ==> t[i].id != t[j].id
  }

  ghost predicate HasName(t: seq<Network>, name: string) {
    exists i :: 0 <= i < |t| && t[i].name == name
  }

  /** Both tables have unique ids, and the records of containers are valid. */
  ghost predicate Sound(s: Store) {
    TableOk(s.containers) && UniqueIds(s.networks)
  }

  /** Every network a container is attached to exists; the predefined networks exist; ids are unique. */
  ghost predicate Integrity(s: Store) {
    && Sound(s)
    && (forall c, id :: c in s.containers && id in c.networks ==> Known(s.networks, id))
    && (forall name :: name in PREDEFINED ==> HasName(s.networks, name))
  }

  lemma LookupIsKnown(t: seq<Network>, n: Network)
    requires n in t
    ensures Known(t, n.id)
  {
    var i :| 0 <= i < |t| && t[i] == n;
  }

  lemma {:induction false} ResolvedAreKnown(t: seq<Network>, endpoints: seq<string>)
    ensures var r := Resolve(t, endpoints);
            r.Some? ==> forall id :: id in r.value ==> Known(t, id)
  {
    if endpoints != [] {
      ResolvedAreKnown(t, endpoints[1..]);
      var n := GetNetworkByNameOrID(t, endpoints[0]);
      if n.Some? {
        LookupIsKnown(t, n.value);
      }
    }
  }

  lemma InitialAreKnown(t: seq<Network>, mode: string, endpoints: seq<string>)
    ensures var r := InitialNetworks(t, mode, endpoints);
            r.Some? ==> r.value != {} && forall id :: id in r.value ==> Known(t, id)
  {
    ResolvedAreKnown(t, (if mode == "default" then [] else [mode]) + endpoints);
    var n := FirstNetwork(t, ByName, "bridge");
    if n.Some? {
      LookupIsKnown(t, n.value);
    }
  }

  /** Replacing the networks of a stored container, or storing a new one, by known networks. */
  lemma InsertKeepsIntegrity(s: Store, c: Container)
    requires Integrity(s) && ValidRecord(c)
    requires forall d :: d in s.containers && d.id != c.id ==> d.shortID != c.shortID
    requires forall id :: id in c.networks ==> Known(s.networks, id)
    ensures Integrity(s.(containers := Insert(s.containers, c)))
  {
    InsertKeepsTableOk(s.containers, c);
    forall d | d in Insert(s.containers, c) ensures d == c || d in s.containers {
      InsertMembers(s.containers, c, d);
    }
  }

  lemma StoredSharesNothing(t: seq<Container>, c: Container)
    requires TableOk(t) && c in t
    ensures forall d :: d in t && d.id != c.id ==> d.shortID != c.shortID
  {
    forall d | d in t && d.id != c.id ensures d.shortID != c.shortID {
      var i :| 0 <= i < |t| && t[i] == c;
      var j :| 0 <= j < |t| && t[j] == d;
    }
  }

  /** Dropping networks that are neither predefined nor attached. */
  lemma DropKeepsIntegrity(s: Store, kept: seq<Network>)
    requires Integrity(s)
    requires UniqueIds(kept)
    requires forall n :: n in s.networks && (IsPredefined(n) || Attached(s.containers, n.id)) ==> n in kept
    ensures Integrity(s.(networks := kept))
  {
    forall c, id | c in s.containers && id in c.networks ensures Known(kept, id) {
      assert Known(s.networks, id);
      var i :| 0 <= i < |s.networks| && s.networks[i].id == id;
      var k :| 0 <= k < |s.containers| && s.containers[k] == c;
      assert Attached(s.containers, s.networks[i].id);
      LookupIsKnown(kept, s.networks[i]);
    }
    forall name | name in PREDEFINED ensures HasName(kept, name) {
      assert HasName(s.networks, name);
      var i :| 0 <= i < |s.networks| && s.networks[i].name == name;
      assert s.networks[i] in kept;
    }
  }

  lemma {:induction false} PrunedMembers(t: seq<Network>, cs: seq<Container>, n: Network)
    ensures n in Pruned(t, cs) <==> n in t && (IsPredefined(n) || Attached(cs, n.id))
  {
    if t != [] {
      PrunedMembers(t[1..], cs, n);
    }
  }

  lemma {:induction false} PrunedUnique(t: seq<Network>, cs: seq<Container>)
    requires UniqueIds(t)
    ensures UniqueIds(Pruned(t, cs))
  {
    if t != [] {
      PrunedUnique(t[1..], cs);
      forall n | n in Pruned(t[1..], cs) ensures n.id != t[0].id {
        PrunedMembers(t[1..], cs, n);
      }
    }
  }

  /**
   Every call keeps integrity; only a restart that revives a removed record may not,
   and exactly when one of its networks is gone by then.
   */
  lemma StepKeepsIntegrity(s: Store, e: Event)
    requires Integrity(s) && Fresh(s, e)
    ensures Integrity(Apply(s, e)) <==> Referenced(s, e)
  {
    match e
    case CreateNetwork(n) => CreateKeepsIntegrity(s, n);
    case DeleteNetwork(ref) => DeleteKeepsIntegrity(s, ref);
    case Connect(ref, container) =>
      var n, c := GetNetworkByNameOrID(s.networks, ref), GetContainer(s.containers, container);
      if n.Some? && c.Some? {
        LookupIsKnown(s.networks, n.value);
        StoredSharesNothing(s.containers, c.value);
        InsertKeepsIntegrity(s, c.value.(networks := c.value.networks + {n.value.id}));
      }
    case Disconnect(ref, container) =>
      var n, c := GetNetworkByNameOrID(s.networks, ref), GetContainer(s.containers, container);
      if n.Some? && c.Some? {
        StoredSharesNothing(s.containers, c.value);
        InsertKeepsIntegrity(s, c.value.(networks := c.value.networks - {n.value.id}));
      }
    case CreateContainer(c, mode, endpoints) =>
      InitialAreKnown(s.networks, mode, endpoints);
      var ids := InitialNetworks(s.networks, mode, endpoints);
      if ids.Some? {
        InsertKeepsIntegrity(s, c.(networks := ids.value));
      }
    case RemoveContainer(id) => RemoveKeepsTableOk(s.containers, id);
    case Prune =>
      PrunedUnique(s.networks, s.containers);
      forall n | n in s.networks && (IsPredefined(n) || Attached(s.containers, n.id))
        ensures n in Pruned(s.networks, s.containers)
      {
        PrunedMembers(s.networks, s.containers, n);
      }
      DropKeepsIntegrity(s, Pruned(s.networks, s.containers));
    case Revive(c) => ReviveKeepsIntegrity(s, c);
  }

  lemma ReviveKeepsIntegrity(s: Store, c: Container)
    requires Integrity(s) && Fresh(s, Revive(c))
    ensures Integrity(Apply(s, Revive(c))) <==> Referenced(s, Revive(c))
  {
    if Position(s.containers, c.id) == |s.containers| {
      var cs := Insert(s.containers, c);
      InsertMembers(s.containers, c, c);
      if Referenced(s, Revive(c)) {
        InsertKeepsIntegrity(s, c);
      } else {
        var id :| id in c.networks && !Known(s.networks, id);
        assert c in cs;
      }
    }
  }

  lemma CreateKeepsIntegrity(s: Store, n: Network)
    requires Integrity(s) && Fresh(s, CreateNetwork(n))
    ensures Integrity(s.(networks := s.networks + [n]))
  {
    var t := s.networks + [n];
    assert forall i :: 0 <= i < |s.networks| ==> t[i] == s.networks[i];
    forall id | Known(s.networks, id) ensures Known(t, id) {
      var i :| 0 <= i < |s.networks| && s.networks[i].id == id;
      assert t[i].id == id;
    }
    forall name | HasName(s.networks, name) ensures HasName(t, name) {
      var i :| 0 <= i < |s.networks| && s.networks[i].name == name;
      assert t[i].name == name;
    }
  }

  lemma DeleteKeepsIntegrity(s: Store, ref: string)
    requires Integrity(s)
    ensures Integrity(Apply(s, DeleteNetwork(ref)))
  {
    var n := GetNetworkByNameOrID(s.networks, ref);
    if n.Some? && !IsPredefined(n.value) && !Attached(s.containers, n.value.id) {
      var kept := RemoveNetwork(s.networks, n.value.id);
      NeededStay(s, n.value);
      RemovedUnique(s.networks, n.value.id);
      DropKeepsIntegrity(s, kept);
    }
  }

  lemma NeededStay(s: Store, n: Network)
    requires UniqueIds(s.networks) && n in s.networks && !IsPredefined(n) && !Attached(s.containers, n.id)
    ensures forall m :: m in s.networks && (IsPredefined(m) || Attached(s.containers, m.id)) ==>
              m in RemoveNetwork(s.networks, n.id)
  {
    forall m | m in s.networks && (IsPredefined(m) || Attached(s.containers, m.id))
      ensures m in RemoveNetwork(s.networks, n.id)
    {
      SameIdSameNetwork(s.networks, n, m);
      RemovedMembers(s.networks, n.id, m);
    }
  }

  lemma RemovedUnique(t: seq<Network>, id: string)
    requires UniqueIds(t)
    ensures UniqueIds(RemoveNetwork(t, id))
  {
  }

  lemma SameIdSameNetwork(t: seq<Network>, m: Network, n: Network)
    requires UniqueIds(t) && m in t && n in t
    ensures m.id == n.id ==> m == n
  {
    var i :| 0 <= i < |t| && t[i] == m;
    var j :| 0 <= j < |t| && t[j] == n;
  }

  lemma RemovedMembers(t: seq<Network>, id: string, m: Network)
    requires UniqueIds(t)
    ensures m in RemoveNetwork(t, id) <==> m in t && m.id != id
  {
    var k, kept := NetworkPosition(t, id), RemoveNetwork(t, id);
    if m in t && m.id != id {
      var i :| 0 <= i < |t| && t[i] == m;
      assert i != k;
      assert kept[if i < k then i else i - 1] == m;
    }
    if m in kept {
      var i :| 0 <= i < |kept| && kept[i] == m;
      assert t[if i < k then i else i + 1] == m;
    }
  }

  ghost predicate IntactThroughout(s: Store, es: seq<Event>)
    decreases |es|
  {
    Integrity(s) && (es != [] ==> IntactThroughout(Apply(s, es[0]), es[1..]))
  }

  /**
   Over every run of API calls: no container ever refers to a network that is gone,
   if and only if no record is revived after one of its networks was removed.
   */
  lemma {:induction false} RunKeepsIntegrity(s: Store, es: seq<Event>)
    requires Integrity(s) && AllFresh(s, es)
    ensures IntactThroughout(s, es) <==> AllReferenced(s, es)
    ensures AllReferenced(s, es) ==> Integrity(Run(s, es))
    decreases |es|
  {
    if es != [] {
      StepKeepsIntegrity(s, es[0]);
      if Referenced(s, es[0]) {
        RunKeepsIntegrity(Apply(s, es[0]), es[1..]);
      }
    }
  }

  /** Without restarts that revive, integrity holds throughout. */
  lemma {:induction false} ReferencedWithoutRevival(s: Store, es: seq<Event>)
    requires forall i :: 0 <= i < |es| ==> !es[i].Revive?
    ensures AllReferenced(s, es)
    decreases |es|
  {
    if es != [] {
      ReferencedWithoutRevival(Apply(s, es[0]), es[1..]);
    }
  }

  /** A revival can break it: remove the container, delete its network, revive the record. */
  lemma RevivalCanDangle(s: Store, c: Container, n: Network)
    requires Integrity(s) && n in s.networks && !IsPredefined(n)
    requires !Attached(s.containers, n.id) && n.id in c.networks && Fresh(s, Revive(c))
    requires GetNetworkByNameOrID(s.networks, n.id) == Some(n) && Position(s.containers, c.id) == |s.containers|
    ensures var gone := Apply(s, DeleteNetwork(n.id));
            Integrity(gone) && !Integrity(Apply(gone, Revive(c)))
  {
    var gone := Apply(s, DeleteNetwork(n.id));
    StepKeepsIntegrity(s, DeleteNetwork(n.id));
    if i :| 0 <= i < |gone.networks| && gone.networks[i].id == n.id {
      RemovedMembers(s.networks, n.id, gone.networks[i]);
      assert false;
    }
    assert !Known(gone.networks, n.id);
    StepKeepsIntegrity(gone, Revive(c));
  }

  // ---- what each call does ----

  /** The network of that id and the container of that id are the ones the references find. */
  ghost predicate Names(s: Store, ref: string, container: string, id: string, network: string) {
    var n, c := GetNetworkByNameOrID(s.networks, ref), GetContainer(s.containers, container);
    n.Some? && n.value.id == network && c.Some? && c.value.id == id
  }

  /** The call puts the container on the network. */
  ghost predicate Attaches(s: Store, e: Event, id: string, network: string) {
    match e
    case Connect(ref, container) => Names(s, ref, container, id, network)
    case CreateContainer(c, mode, endpoints) =>
      var ids := InitialNetworks(s.networks, mode, endpoints);
      c.id == id && ids.Some? && network in ids.value
    case Revive(c) => c.id == id && !Exists(s, id) && network in c.networks
    case _ => false
  }

  /** The call takes it off. */
  ghost predicate Detaches(s: Store, e: Event, id: string, network: string) {
    match e
    case Disconnect(ref, container) =>
      Names(s, ref, container, id, network) && !IsPredefined(GetNetworkByNameOrID(s.networks, ref).value)
    case RemoveContainer(gone) => gone == id
    case _ => false
  }

  /** The call brings the container on record. */
  ghost predicate Records(s: Store, e: Event, id: string) {
    match e
    case CreateContainer(c, mode, endpoints) => c.id == id && InitialNetworks(s.networks, mode, endpoints).Some?
    case Revive(c) => c.id == id
    case _ => false
  }

  /** The call deletes the network: it is named, or pruned, and neither predefined nor in use. */
  ghost predicate Drops(s: Store, e: Event, n: Network) {
    && (e.Prune? || (e.DeleteNetwork? && GetNetworkByNameOrID(s.networks, e.ref) == Some(n)))
    && !IsPredefined(n) && !Attached(s.containers, n.id)
  }

  /** Exactly which networks are stored after a call. */
  lemma NetworksAfter(s: Store, e: Event, n: Network)
    requires Sound(s)
    ensures n in Apply(s, e).networks <==> e == CreateNetwork(n) || (n in s.networks && !Drops(s, e, n))
  {
    match e
    case CreateNetwork(m) => assert n in s.networks + [m] <==> n in s.networks || n == m;
    case DeleteNetwork(ref) =>
      var m := GetNetworkByNameOrID(s.networks, ref);
      if m.Some? {
        RemovedMembers(s.networks, m.value.id, n);
        if n in s.networks {
          SameIdSameNetwork(s.networks, m.value, n);
        }
      }
    case Prune => PrunedMembers(s.networks, s.containers, n);
    case _ =>
  }

  /** Saving a record changes what is known of that container and of no other. */
  lemma IsOnAfterInsert(s: Store, c: Container, id: string, network: string)
    requires TableOk(s.containers)
    ensures var t := s.(containers := Insert(s.containers, c));
            && (IsOn(t, id, network) <==> if id == c.id then network in c.networks else IsOn(s, id, network))
            && (Exists(t, id) <==> id == c.id || Exists(s, id))
  {
    var t := s.(containers := Insert(s.containers, c));
    forall d ensures d in t.containers <==> d == c || (d in s.containers && d.id != c.id) {
      InsertMembers(s.containers, c, d);
    }
  }

  lemma OnlyOne(s: Store, c: Container, network: string)
    requires TableOk(s.containers) && c in s.containers
    ensures IsOn(s, c.id, network) <==> network in c.networks
  {
    if d :| d in s.containers && d.id == c.id && network in d.networks {
      SameIdSameContainer(s.containers, c, d);
    }
  }

  lemma ExistsAt(s: Store, id: string)
    ensures Exists(s, id) <==> Position(s.containers, id) < |s.containers|
  {
    if Position(s.containers, id) < |s.containers| {
      assert s.containers[Position(s.containers, id)] in s.containers;
    }
    if Exists(s, id) {
      var c :| c in s.containers && c.id == id;
      var i :| 0 <= i < |s.containers| && s.containers[i] == c;
    }
  }

  lemma AfterSaved(s: Store, e: Event, id: string, network: string)
    requires Sound(s) && Fresh(s, e) && (e.Connect? || e.Disconnect?)
    ensures IsOn(Apply(s, e), id, network)
       <==> Attaches(s, e, id, network) || (IsOn(s, id, network) && !Detaches(s, e, id, network))
    ensures Exists(Apply(s, e), id) <==> Exists(s, id)
  {
    var n, c := GetNetworkByNameOrID(s.networks, e.ref), GetContainer(s.containers, e.container);
    if n.Some? && c.Some? {
      OnlyOne(s, c.value, network);
      var nets := c.value.networks;
      var now := if e.Connect? then nets + {n.value.id} else nets - {n.value.id};
      IsOnAfterInsert(s, c.value.(networks := now), id, network);
    }
  }

  lemma AfterRemove(s: Store, gone: string, id: string, network: string)
    requires Sound(s)
    ensures IsOn(Apply(s, RemoveContainer(gone)), id, network) <==> IsOn(s, id, network) && id != gone
    ensures Exists(Apply(s, RemoveContainer(gone)), id) <==> Exists(s, id) && id != gone
  {
    forall c | c in s.containers ensures c.id != gone ==> c in Remove(s.containers, gone) {
      RemovedContainers(s.containers, gone, c);
    }
    forall c | c in Remove(s.containers, gone) ensures c in s.containers && c.id != gone {
      RemovedOnly(s.containers, gone, c);
    }
  }

  lemma RemovedOnly(t: seq<Container>, gone: string, c: Container)
    requires TableOk(t) && c in Remove(t, gone)
    ensures c in t && c.id != gone
  {
    var k, kept := Position(t, gone), Remove(t, gone);
    var i :| 0 <= i < |kept| && kept[i] == c;
    if k < |t| {
      assert c == t[if i < k then i else i + 1];
      RemovedContainers(t, gone, t[k]);
    }
  }

  /** Exactly which containers are on which networks after a call. */
  lemma MembersAfter(s: Store, e: Event, id: string, network: string)
    requires Sound(s) && Fresh(s, e)
    ensures IsOn(Apply(s, e), id, network)
       <==> Attaches(s, e, id, network) || (IsOn(s, id, network) && !Detaches(s, e, id, network))
    ensures Exists(Apply(s, e), id) <==> Records(s, e, id) || (Exists(s, id) && e != RemoveContainer(id))
  {
    match e
    case Connect(ref, container) => AfterSaved(s, e, id, network);
    case Disconnect(ref, container) => AfterSaved(s, e, id, network);
    case CreateContainer(c, mode, endpoints) =>
      var ids := InitialNetworks(s.networks, mode, endpoints);
      if ids.Some? {
        IsOnAfterInsert(s, c.(networks := ids.value), id, network);
      }
    case RemoveContainer(gone) => AfterRemove(s, gone, id, network);
    case Revive(c) =>
      ExistsAt(s, c.id);
      if Position(s.containers, c.id) == |s.containers| {
        IsOnAfterInsert(s, c, id, network);
      }
    case _ =>
      assert Apply(s, e).containers == s.containers;
  }

  // ---- who is on which network, over runs ----

  lemma {:induction false} RunSnoc(s: Store, es: seq<Event>, e: Event)
    ensures Run(s, es + [e]) == Apply(Run(s, es), e)
    decreases |es|
  {
    if es == [] {
      assert [e][1..] == [] && [] + [e] == [e];
      assert Run(s, [e]) == Run(Apply(s, e), []);
    } else {
      assert (es + [e])[1..] == es[1..] + [e];
      RunSnoc(Apply(s, es[0]), es[1..], e);
    }
  }

  lemma {:induction false} FreshSnoc(s: Store, es: seq<Event>, e: Event)
    ensures AllFresh(s, es + [e]) <==> AllFresh(s, es) && Fresh(Run(s, es), e)
    decreases |es|
  {
    if es == [] {
      assert [e][1..] == [] && [] + [e] == [e];
    } else {
      assert (es + [e])[1..] == es[1..] + [e];
      FreshSnoc(Apply(s, es[0]), es[1..], e);
    }
  }

  lemma {:induction false} RunKeepsSound(s: Store, es: seq<Event>)
    requires Sound(s) && AllFresh(s, es)
    ensures Sound(Run(s, es))
    decreases |es|
  {
    if es != [] {
      StepKeepsSound(s, es[0]);
      RunKeepsSound(Apply(s, es[0]), es[1..]);
    }
  }

  /** From there on no call of the run takes the container off the network. */
  ghost predicate NotDetached(s: Store, es: seq<Event>, from: nat, id: string, network: string) {
    forall j :: from <= j < |es| ==> !Detaches(Run(s, es[..j]), es[j], id, network)
  }

  /** That call put the container on the network, and none took it off since. */
  ghost predicate AttachedSince(s: Store, es: seq<Event>, k: nat, id: string, network: string)
    requires k < |es|
  {
    Attaches(Run(s, es[..k]), es[k], id, network) && NotDetached(s, es, k + 1, id, network)
  }

  /**
   After any run a container is on a network exactly when some call put it there, or it
   was there from the start, and no disconnect or removal took it off since.
   */
  lemma {:induction false} MembersOverRun(s: Store, es: seq<Event>, id: string, network: string)
    requires Sound(s) && AllFresh(s, es)
    ensures IsOn(Run(s, es), id, network)
       <==> || AttachedInRun(s, es, id, network)
            || (IsOn(s, id, network) && NotDetached(s, es, 0, id, network))
    decreases |es|
  {
    if es != [] {
      var n := |es| - 1;
      var front, e := es[..n], es[n];
      assert es == front + [e];
      FreshSnoc(s, front, e);
      MembersOverRun(s, front, id, network);
      RunKeepsSound(s, front);
      RunSnoc(s, front, e);
      MembersAfter(Run(s, front), e, id, network);
      DetachedFront(s, es, id, network);
      AttachedFront(s, es, id, network);
    }
  }

  ghost predicate AttachedInRun(s: Store, es: seq<Event>, id: string, network: string) {
    exists k :: 0 <= k < |es| && AttachedSince(s, es, k, id, network)
  }

  /** The last call attached, or an earlier one did and the last one did not detach. */
  ghost predicate AttachedByFront(s: Store, es: seq<Event>, id: string, network: string)
    requires es != []
  {
    var n := |es| - 1;
    || Attaches(Run(s, es[..n]), es[n], id, network)
    || (AttachedInRun(s, es[..n], id, network) && !Detaches(Run(s, es[..n]), es[n], id, network))
  }

  lemma AttachedFront(s: Store, es: seq<Event>, id: string, network: string)
    requires es != []
    ensures AttachedInRun(s, es, id, network) <==> AttachedByFront(s, es, id, network)
  {
    if AttachedInRun(s, es, id, network) {
      AttachedToFront(s, es, id, network);
    }
    if AttachedByFront(s, es, id, network) {
      FrontToAttached(s, es, id, network);
    }
  }

  lemma AttachedToFront(s: Store, es: seq<Event>, id: string, network: string)
    requires es != [] && AttachedInRun(s, es, id, network)
    ensures AttachedByFront(s, es, id, network)
  {
    var k :| 0 <= k < |es| && AttachedSince(s, es, k, id, network);
    if k < |es| - 1 {
      AttachedFrontAt(s, es, k, id, network);
    }
  }

  lemma FrontToAttached(s: Store, es: seq<Event>, id: string, network: string)
    requires es != [] && AttachedByFront(s, es, id, network)
    ensures AttachedInRun(s, es, id, network)
  {
    var n := |es| - 1;
    if Attaches(Run(s, es[..n]), es[n], id, network) {
      assert AttachedSince(s, es, n, id, network);
    } else {
      var k :| 0 <= k < n && AttachedSince(s, es[..n], k, id, network);
      AttachedFrontAt(s, es, k, id, network);
    }
  }

  lemma AttachedFrontAt(s: Store, es: seq<Event>, k: nat, id: string, network: string)
    requires k < |es| - 1
    ensures var n := |es| - 1;
            AttachedSince(s, es, k, id, network)
            <==> AttachedSince(s, es[..n], k, id, network) && !Detaches(Run(s, es[..n]), es[n], id, network)
  {
    DetachedFront(s, es, id, network);
    assert es[..|es| - 1][..k] == es[..k];
  }

  lemma DetachedFront(s: Store, es: seq<Event>, id: string, network: string)
    requires es != []
    ensures forall k :: 0 <= k < |es| ==>
              (NotDetached(s, es, k, id, network)
               <==> NotDetached(s, es[..|es| - 1], k, id, network)
                    && !Detaches(Run(s, es[..|es| - 1]), es[|es| - 1], id, network))
  {
    var n := |es| - 1;
    var front := es[..n];
    forall j | 0 <= j < n ensures front[..j] == es[..j] && front[j] == es[j] {
    }
  }

  // ---- what a new container names ----

  /** Some endpoint that is not empty is known as that network. */
  ghost predicate Named(t: seq<Network>, endpoints: seq<string>, network: string) {
    exists i :: 0 <= i < |endpoints| && NamedBy(t, endpoints[i], network)
  }

  ghost predicate NamedBy(t: seq<Network>, endpoint: string, network: string) {
    endpoint != "" && GetNetworkByNameOrID(t, endpoint).Some? && GetNetworkByNameOrID(t, endpoint).value.id == network
  }

  ghost predicate AllKnown(t: seq<Network>, endpoints: seq<string>) {
    forall i :: 0 <= i < |endpoints| ==> endpoints[i] == "" || GetNetworkByNameOrID(t, endpoints[i]).Some?
  }

  lemma {:induction false} ResolvedExactly(t: seq<Network>, endpoints: seq<string>, network: string)
    ensures Resolve(t, endpoints).Some? <==> AllKnown(t, endpoints)
    ensures Resolve(t, endpoints).Some? ==> (network in Resolve(t, endpoints).value <==> Named(t, endpoints, network))
  {
    if endpoints != [] {
      var rest := endpoints[1..];
      ResolvedExactly(t, rest, network);
      assert forall i :: 0 < i < |endpoints| ==> endpoints[i] == rest[i - 1];
      if i :| 0 <= i < |rest| && NamedBy(t, rest[i], network) {
        assert NamedBy(t, endpoints[i + 1], network);
      }
      if NamedBy(t, endpoints[0], network) {
        assert Named(t, endpoints, network);
      }
    }
  }

  /**
   A new container is on exactly the networks that its mode and its endpoints name - a
   mode of "default" names none - or on the bridge, when they name none; it is refused
   exactly when one of them is unknown, or there is no bridge to fall back on.
   */
  lemma InitialExactly(t: seq<Network>, mode: string, endpoints: seq<string>, network: string)
    ensures var asked := (if mode == "default" then [] else [mode]) + endpoints;
            var r, bridge := InitialNetworks(t, mode, endpoints), FirstNetwork(t, ByName, "bridge");
            && (r.Some? <==> AllKnown(t, asked) && ((exists any :: Named(t, asked, any)) || bridge.Some?))
            && (r.Some? ==> (network in r.value <==>
                  Named(t, asked, network) || (!(exists any :: Named(t, asked, any)) && network == bridge.value.id)))
  {
    var asked := (if mode == "default" then [] else [mode]) + endpoints;
    forall any ensures Resolve(t, asked).Some? ==> (any in Resolve(t, asked).value <==> Named(t, asked, any)) {
      ResolvedExactly(t, asked, any);
    }
    ResolvedExactly(t, asked, network);
    if Resolve(t, asked).Some? && Resolve(t, asked).value != {} {
      var any :| any in Resolve(t, asked).value;
      assert Named(t, asked, any);
    }
  }

  // ---- what stays ----

  /** The container is attached to the network. */
  ghost predicate IsOn(s: Store, id: string, network: string) {
    exists c :: c in s.containers && c.id == id && network in c.networks
  }

  ghost predicate Exists(s: Store, id: string) {
    exists c :: c in s.containers && c.id == id
  }

  lemma StepKeepsSound(s: Store, e: Event)
    requires Sound(s) && Fresh(s, e)
    ensures Sound(Apply(s, e))
  {
    match e
    case CreateNetwork(n) =>
    case DeleteNetwork(ref) =>
    case Connect(ref, container) => SaveKeepsSound(s, container);
    case Disconnect(ref, container) => SaveKeepsSound(s, container);
    case CreateContainer(c, mode, endpoints) =>
      var ids := InitialNetworks(s.networks, mode, endpoints);
      if ids.Some? {
        InsertKeepsTableOk(s.containers, c.(networks := ids.value));
      }
    case RemoveContainer(id) => RemoveKeepsTableOk(s.containers, id);
    case Prune => PrunedUnique(s.networks, s.containers);
    case Revive(c) => InsertKeepsTableOk(s.containers, c);
  }

  lemma SaveKeepsSound(s: Store, container: string)
    requires Sound(s)
    ensures var c := GetContainer(s.containers, container);
            c.Some? ==> forall nets :: TableOk(Insert(s.containers, c.value.(networks := nets)))
  {
    var c := GetContainer(s.containers, container);
    if c.Some? {
      StoredSharesNothing(s.containers, c.value);
      forall nets ensures TableOk(Insert(s.containers, c.value.(networks := nets))) {
        InsertKeepsTableOk(s.containers, c.value.(networks := nets));
      }
    }
  }

  lemma StepKeepsPredefined(s: Store, e: Event, id: string, n: Network)
    requires Sound(s) && Fresh(s, e) && n in s.networks && IsPredefined(n)
    requires IsOn(s, id, n.id)
    ensures IsOn(Apply(s, e), id, n.id) || !Exists(Apply(s, e), id)
    ensures n in Apply(s, e).networks
  {
    var c :| c in s.containers && c.id == id && n.id in c.networks;
    match e
    case DeleteNetwork(ref) =>
      var m := GetNetworkByNameOrID(s.networks, ref);
      if m.Some? {
        SameIdSameNetwork(s.networks, m.value, n);
        RemovedMembers(s.networks, m.value.id, n);
      }
      assert Apply(s, e).containers == s.containers;
    case Prune =>
      PrunedMembers(s.networks, s.containers, n);
      assert Apply(s, e).containers == s.containers;
    case RemoveContainer(gone) => RemovedContainers(s.containers, gone, c);
    case _ => ChangedContainers(s, e, c, n);
  }

  lemma RemovedContainers(t: seq<Container>, id: string, c: Container)
    requires TableOk(t) && c in t
    ensures c.id != id ==> c in Remove(t, id)
    ensures c.id == id ==> forall d :: d in Remove(t, id) ==> d.id != id
  {
    var k, kept := Position(t, id), Remove(t, id);
    var i :| 0 <= i < |t| && t[i] == c;
    if c.id != id {
      assert i != k;
      assert kept[if i < k then i else i - 1] == c;
    } else {
      forall j | 0 <= j < |kept| ensures kept[j].id != id {
        var j' := if j < k then j else j + 1;
        if j' < k { DifferentIDs(t, j', k); } else { DifferentIDs(t, k, j'); }
      }
    }
  }

  lemma ChangedContainers(s: Store, e: Event, c: Container, n: Network)
    requires Sound(s) && Fresh(s, e) && n in s.networks && IsPredefined(n)
    requires e.CreateNetwork? || e.Connect? || e.Disconnect? || e.CreateContainer? || e.Revive?
    requires c in s.containers && n.id in c.networks
    ensures IsOn(Apply(s, e), c.id, n.id) && n in Apply(s, e).networks
  {
    assert IsOn(s, c.id, n.id);
    if e.CreateNetwork? {
      assert c in Apply(s, e).containers;
    } else if e.Revive? {
      InsertMembers(s.containers, e.c, c);
    } else if e.CreateContainer? {
      var ids := InitialNetworks(s.networks, e.mode, e.endpoints);
      if ids.Some? {
        InsertMembers(s.containers, e.c.(networks := ids.value), c);
      }
    } else {
      var m, d := GetNetworkByNameOrID(s.networks, e.ref), GetContainer(s.containers, e.container);
      if m.Some? && d.Some? {
        SameIdSameNetwork(s.networks, m.value, n);
        var nets := if e.Connect? then d.value.networks + {m.value.id} else d.value.networks - {m.value.id};
        if Apply(s, e) != s {
          AttachmentKept(s.containers, c, d.value, nets, n.id);
        }
      }
    }
  }

  /** Storing other networks for one container keeps an attachment that is among them, and those of the others. */
  lemma AttachmentKept(t: seq<Container>, c: Container, d: Container, nets: set<string>, id: string)
    requires TableOk(t) && c in t && d in t && id in c.networks && (c == d ==> id in nets)
    ensures exists x :: x in Insert(t, d.(networks := nets)) && x.id == c.id && id in x.networks
  {
    SameIdSameContainer(t, c, d);
    var d' := d.(networks := nets);
    InsertMembers(t, d', c);
    InsertMembers(t, d', d');
    assert (if c == d then d' else c) in Insert(t, d');
  }

  lemma SameIdSameContainer(t: seq<Container>, c: Container, d: Container)
    requires TableOk(t) && c in t && d in t
    ensures c.id == d.id ==> c == d
  {
    assert ValidRecord(c) && ValidRecord(d);
    var i :| 0 <= i < |t| && t[i] == c;
    var j :| 0 <= j < |t| && t[j] == d;
  }

  /** The container is on record all through the run. */
  ghost predicate StaysStored(s: Store, es: seq<Event>, id: string)
    decreases |es|
  {
    Exists(s, id) && (es != [] ==> StaysStored(Apply(s, es[0]), es[1..], id))
  }

  /** A container attached to a predefined network stays attached as long as it exists. */
  lemma {:induction false} PredefinedAttachmentLasts(s: Store, es: seq<Event>, id: string, n: Network)
    requires Sound(s) && AllFresh(s, es)
    requires n in s.networks && IsPredefined(n) && IsOn(s, id, n.id)
    ensures StaysStored(s, es, id) ==> IsOn(Run(s, es), id, n.id)
    decreases |es|
  {
    if es != [] {
      StepKeepsSound(s, es[0]);
      StepKeepsPredefined(s, es[0], id, n);
      if Exists(Apply(s, es[0]), id) {
        PredefinedAttachmentLasts(Apply(s, es[0]), es[1..], id, n);
      } else {
        assert !StaysStored(Apply(s, es[0]), es[1..], id);
      }
    }
  }

  // ---- the code ----

  class Server {
    var containers: seq<Container>
    var networks: seq<Network>

    function State(): Store
      reads this
    {
      Store(containers, networks)
    }

    constructor (null_: Network, host: Network, bridge: Network)
      requires null_.name == "null" && host.name == "host" && bridge.name == "bridge"
      requires null_.id != host.id && null_.id != bridge.id && host.id != bridge.id
      ensures State() == Store([], [null_, host, bridge]) && Integrity(State())
    {
      containers, networks := [], [null_, host, bridge];
      new;
      assert networks[0].name == "null" && networks[1].name == "host" && networks[2].name == "bridge";
    }

    method GetContainersInNetwork(n: Network) returns (ids: set<string>)
      ensures forall id :: id in ids <==> exists c :: c in containers && c.id == id && n.id in c.networks
      ensures ids != {} <==> Attached(containers, n.id)
    {
      ids := {};
      for i := 0 to |containers|
        invariant forall id :: id in ids <==> exists c :: c in containers[..i] && c.id == id && n.id in c.networks
        invariant ids != {} <==> exists j :: 0 <= j < i && n.id in containers[j].networks
      {
        assert containers[..i + 1] == containers[..i] + [containers[i]];
        if n.id in containers[i].networks {
          ids := ids + {containers[i].id};
        }
      }
      assert containers[..|containers|] == containers;
    }

    method NetworksCreate(n: Network)
      requires Integrity(State()) && Fresh(State(), CreateNetwork(n))
      modifies this
      ensures State() == Apply(old(State()), CreateNetwork(n)) && Integrity(State())
    {
      StepKeepsIntegrity(State(), CreateNetwork(n));
      networks := networks + [n];
    }

    method NetworksDelete(ref: string) returns (err: bool)
      requires Integrity(State())
      modifies this`networks
      ensures State() == Apply(old(State()), DeleteNetwork(ref)) && Integrity(State())
      ensures err <==> State() == old(State())
    {
      StepKeepsIntegrity(State(), DeleteNetwork(ref));
      var n := GetNetworkByNameOrID(networks, ref);
      if n.None? {
        return true;
      }
      if IsPredefined(n.value) {
        return true;
      }
      var ids := GetContainersInNetwork(n.value);
      if ids != {} {
        return true;
      }
      networks := RemoveNetwork(networks, n.value.id);
      return false;
    }

    method NetworksConnect(ref: string, container: string) returns (err: bool)
      requires Integrity(State())
      modifies this`containers
      ensures State() == Apply(old(State()), Connect(ref, container)) && Integrity(State())
      ensures err <==> GetNetworkByNameOrID(networks, ref).None? || GetContainer(old(containers), container).None?
    {
      StepKeepsIntegrity(State(), Connect(ref, container));
      var n := GetNetworkByNameOrID(networks, ref);
      if n.None? {
        return true;
      }
      var c := GetContainer(containers, container);
      if c.None? {
        return true;
      }
      containers := Insert(containers, c.value.(networks := c.value.networks + {n.value.id}));
      return false;
    }

    method NetworksDisconnect(ref: string, container: string) returns (err: bool)
      requires Integrity(State())
      modifies this`containers
      ensures State() == Apply(old(State()), Disconnect(ref, container)) && Integrity(State())
      ensures err <==> var n, c := GetNetworkByNameOrID(networks, ref), GetContainer(old(containers), container);
                n.None? || c.None? || IsPredefined(n.value) || n.value.id !in c.value.networks
    {
      StepKeepsIntegrity(State(), Disconnect(ref, container));
      var n := GetNetworkByNameOrID(networks, ref);
      if n.None? {
        return true;
      }
      var c := GetContainer(containers, container);
      if c.None? {
        return true;
      }
      if IsPredefined(n.value) {
        return true;
      }
      if n.value.id !in c.value.networks {
        return true;
      }
      containers := Insert(containers, c.value.(networks := c.value.networks - {n.value.id}));
      return false;
    }

    /** One round of the prune: deletes the network unless it is predefined or in use. */
    method PruneOne(n: Network, names: seq<string>, ghost snapshot: seq<Network>, ghost i: nat)
      returns (names': seq<string>)
      requires UniqueIds(snapshot) && i < |snapshot| && snapshot[i] == n
      requires Midway(snapshot, i, containers, networks, names)
      modifies this`networks
      ensures Midway(snapshot, i + 1, containers, networks, names')
    {
      PrunedSnoc(snapshot, i, containers);
      PrunedNamesSnoc(snapshot, i, containers);
      var ids := GetContainersInNetwork(n);
      if IsPredefined(n) || ids != {} {
        assert networks == (Pruned(snapshot[..i], containers) + [n]) + snapshot[i + 1..];
        return names;
      }
      PositionInPruned(snapshot, i, containers);
      networks := RemoveNetwork(networks, n.id);
      return names + [n.name];
    }

    /** Walks a snapshot of the table while deleting from the table. */
    method NetworksPrune() returns (names: seq<string>)
      requires UniqueIds(networks)
      modifies this`networks
      ensures State() == Apply(old(State()), Prune)
      ensures names == PrunedNames(old(networks), containers)
    {
      var snapshot := networks;
      names := [];
      for i := 0 to |snapshot|
        invariant containers == old(containers)
        invariant Midway(snapshot, i, containers, networks, names)
      {
        names := PruneOne(snapshot[i], names, snapshot, i);
      }
      assert snapshot[..|snapshot|] == snapshot;
    }
  }

  function IfPruned(n: Network, cs: seq<Container>): seq<string> {
    if IsPredefined(n) || Attached(cs, n.id) then [] else [n.name]
  }

  /** The names a prune reports. */
  function PrunedNames(t: seq<Network>, cs: seq<Container>): seq<string> {
    if t == [] then []
    else IfPruned(t[0], cs) + PrunedNames(t[1..], cs)
  }

  /** A prune has dealt with the first i networks of its snapshot. */
  ghost predicate Midway(snapshot: seq<Network>, i: nat, cs: seq<Container>, networks: seq<Network>, names: seq<string>)
  {
    && i <= |snapshot|
    && networks == Pruned(snapshot[..i], cs) + snapshot[i..]
    && names == PrunedNames(snapshot[..i], cs)
  }

  lemma Assoc<T>(a: seq<T>, b: seq<T>, c: seq<T>)
    ensures a + (b + c) == (a + b) + c
  {
  }

  lemma {:induction false} PrunedSnoc(t: seq<Network>, i: nat, cs: seq<Container>)
    requires i < |t|
    ensures Pruned(t[..i + 1], cs) == Pruned(t[..i], cs) + IfKept(t[i], cs)
  {
    if i == 0 {
      assert t[..1] == [t[0]] && [t[0]][1..] == [] && t[..0] == [];
    } else {
      PrunedSnoc(t[1..], i - 1, cs);
      PrunedPrefix(t, i, cs);
      PrunedPrefix(t, i + 1, cs);
      Assoc(IfKept(t[0], cs), Pruned(t[1..][..i - 1], cs), IfKept(t[i], cs));
    }
  }

  lemma {:induction false} PrunedNamesSnoc(t: seq<Network>, i: nat, cs: seq<Container>)
    requires i < |t|
    ensures PrunedNames(t[..i + 1], cs) == PrunedNames(t[..i], cs) + IfPruned(t[i], cs)
  {
    if i == 0 {
      assert t[..1] == [t[0]] && [t[0]][1..] == [] && t[..0] == [];
    } else {
      PrunedNamesSnoc(t[1..], i - 1, cs);
      PrunedPrefix(t, i, cs);
      PrunedPrefix(t, i + 1, cs);
      Assoc(IfPruned(t[0], cs), PrunedNames(t[1..][..i - 1], cs), IfPruned(t[i], cs));
    }
  }

  lemma PrunedPrefix(t: seq<Network>, i: nat, cs: seq<Container>)
    requires 0 < i <= |t|
    ensures Pruned(t[..i], cs) == IfKept(t[0], cs) + Pruned(t[1..][..i - 1], cs)
    ensures PrunedNames(t[..i], cs) == IfPruned(t[0], cs) + PrunedNames(t[1..][..i - 1], cs)
  {
    assert t[..i][1..] == t[1..][..i - 1];
  }

  /** In the middle of a prune, the next network of the snapshot is still where it is looked for. */
  lemma PositionInPruned(t: seq<Network>, i: nat, cs: seq<Container>)
    requires UniqueIds(t) && i < |t|
    ensures RemoveNetwork(Pruned(t[..i], cs) + t[i..], t[i].id) == Pruned(t[..i], cs) + t[i + 1..]
  {
    var done := Pruned(t[..i], cs);
    var all := done + t[i..];
    forall j | 0 <= j < |done| ensures all[j].id != t[i].id {
      PrunedMembers(t[..i], cs, done[j]);
      var k :| 0 <= k < i && t[..i][k] == done[j];
      assert t[k].id != t[i].id;
    }
    assert all[|done|] == t[i];
    assert NetworkPosition(all, t[i].id) == |done|;
    assert all[|done| + 1..] == t[i + 1..];
  }
}
