/**
 The container table and its lookups: by id, by short id, by name, and by pod
 name - whose last part is the short id. The table is scanned in its own order,
 so that among several containers of one name the first is found.
 */
module Database {
  import opened Common
  import opened PodName
  import opened StringId

  /** The fields of a container record that lookups, naming and networking use. */
  datatype Container = Container(id: string, shortID: string, name: string, prefix: Option<string>,
                                 networks: set<string>)
  {
    function PodName(): string {
      GetPodName(name, prefix, shortID)
    }
  }

  datatype Index = ByID | ByShortID | ByName

  function KeyOf(c: Container, ix: Index): string {
    match ix
    case ByID => c.id
    case ByShortID => c.shortID
    case ByName => c.name
  }

  function First(t: seq<Container>, ix: Index, key: string): (r: Option<Container>)
    ensures r.Some? ==> r.value in t && KeyOf(r.value, ix) == key
    ensures r.None? ==> forall c :: c in t ==> KeyOf(c, ix) != key
  {
    if t == [] then None
    else if KeyOf(t[0], ix) == key then Some(t[0])
    else First(t[1..], ix, key)
  }

  function GetContainer(t: seq<Container>, id: string): Option<Container> {
    var found := First(t, if IsShortID(id) then ByShortID else ByID, id);
    if found.Some? then found else First(t, ByName, id)
  }

  function GetContainerByName(t: seq<Container>, name: string): Option<Container> {
    var found := First(t, ByName, name);
    if found.Some? || '-' !in name then found else GetContainer(t, LastPart(name))
  }

  function GetContainerByNameOrID(t: seq<Container>, id: string): Option<Container> {
    var found := GetContainer(t, id);
    if found.Some? then found else GetContainerByName(t, id)
  }

  /** The record carries a generated id and its short form. */
  ghost predicate ValidRecord(c: Container) {
    ValidID(c.id) && c.shortID == TruncateID(c.id)
  }

  /** All records are valid, and no two share a short id. */
  ghost predicate TableOk(t: seq<Container>) {
    && (forall c :: c in t ==> ValidRecord(c))
    && (forall i, j :: 0 <= i < j < |t| ==> t[i].shortID != t[j].shortID)
  }

  lemma ValidRecordShort(c: Container)
    requires ValidRecord(c)
    ensures ValidShort(c.shortID) && IsShortID(c.shortID) && NoDash(c.id)
  {
    ShortOfHex(c.id);
    forall i | 0 <= i < |c.id| ensures c.id[i] != '-' {
      assert IsHex(c.id[i]);
    }
  }

  lemma ShortIDFinds(t: seq<Container>, c: Container)
    requires TableOk(t) && c in t
    ensures GetContainer(t, c.shortID) == Some(c)
  {
    ValidRecordShort(c);
    var found := First(t, ByShortID, c.shortID);
    var i :| 0 <= i < |t| && t[i] == c;
    var j :| 0 <= j < |t| && t[j] == found.value;
  }

  /** What a lookup finds is the first record with that key. */
  ghost predicate IsFirst(t: seq<Container>, ix: Index, key: string, i: int) {
    0 <= i < |t| && KeyOf(t[i], ix) == key && forall j :: 0 <= j < i ==> KeyOf(t[j], ix) != key
  }

  lemma {:induction false} FirstIsFirst(t: seq<Container>, ix: Index, key: string, i: int)
    requires IsFirst(t, ix, key, i)
    ensures First(t, ix, key) == Some(t[i])
  {
    if i > 0 {
      assert KeyOf(t[0], ix) != key;
      assert forall j :: 0 < j < |t| ==> t[j] == t[1..][j - 1];
      FirstIsFirst(t[1..], ix, key, i - 1);
    }
  }

  /** A container is found by its own id. */
  lemma FullIDFinds(t: seq<Container>, c: Container)
    requires TableOk(t) && c in t
    ensures GetContainer(t, c.id) == Some(c)
  {
    var found := First(t, ByID, c.id);
    var i :| 0 <= i < |t| && t[i] == c;
    var j :| 0 <= j < |t| && t[j] == found.value;
    assert ValidRecord(t[i]) && ValidRecord(t[j]) && t[i].shortID == t[j].shortID;
  }

  /** A name that is no id and no short id finds the first record of that name. */
  lemma NameFinds(t: seq<Container>, name: string, i: int)
    requires TableOk(t) && IsFirst(t, ByName, name, i)
    requires forall c :: c in t ==> c.id != name && c.shortID != name
    ensures GetContainer(t, name) == Some(t[i])
  {
    FirstIsFirst(t, ByName, name, i);
  }

  /** No record has the text as its id, short id or name. */
  ghost predicate Unknown(t: seq<Container>, ref: string) {
    forall c :: c in t ==> c.id != ref && c.shortID != ref && c.name != ref
  }

  /** Exactly when nothing is found. */
  lemma NotFoundExactly(t: seq<Container>, ref: string)
    requires TableOk(t)
    ensures GetContainer(t, ref).None? <==> Unknown(t, ref)
    ensures GetContainerByNameOrID(t, ref).None? <==> Unknown(t, ref) && ('-' in ref ==> Unknown(t, LastPart(ref)))
  {
    GetNoneExactly(t, ref);
    GetNoneExactly(t, LastPart(ref));
  }

  lemma GetNoneExactly(t: seq<Container>, ref: string)
    requires TableOk(t)
    ensures GetContainer(t, ref).None? <==> Unknown(t, ref)
  {
    forall c | c in t ensures |c.id| == ID_LENGTH && IsShortID(c.shortID) {
      assert ValidRecord(c);
      ValidRecordShort(c);
    }
  }

  /**
   A pod name leads back to its container: always when the name collapsed to the
   bare short id, and otherwise exactly when no other container was named like the pod.
   */
  lemma PodNameRoundTrip(t: seq<Container>, c: Container)
    requires TableOk(t) && c in t
    ensures GetContainerByNameOrID(t, c.PodName()) == Some(c)
       <==> c.PodName() == c.shortID || First(t, ByName, c.PodName()) in {None, Some(c)}
  {
    var pod := c.PodName();
    ValidRecordShort(c);
    PodNameReadsBack(c.name, c.prefix, c.shortID);
    ShortIDFinds(t, c);
    if pod != c.shortID {
      var byID := First(t, ByID, pod);
      if byID.Some? {
        ValidRecordShort(byID.value);
        assert false;
      }
    }
  }

  /** The condition matters: a record whose name is the pod name of another one is found in its place. */
  lemma NameCanShadow(c: Container, d: Container)
    requires ValidRecord(c) && ValidRecord(d) && c.shortID != d.shortID
    requires d.name == c.PodName() && c.name != c.PodName() && c.PodName() != c.shortID
    ensures TableOk([c, d]) && GetContainerByNameOrID([c, d], c.PodName()) != Some(c)
  {
    var t := [c, d];
    assert d in t && c in t;
    PodNameRoundTrip(t, c);
    var found := First(t, ByName, c.PodName());
    assert found.Some? && found.value.name == c.PodName();
  }

  /** Different records never share a pod name. */
  lemma PodNamesIdentify(t: seq<Container>, c: Container, d: Container)
    requires TableOk(t) && c in t && d in t
    ensures c.PodName() == d.PodName() ==> c == d
  {
    ValidRecordShort(c);
    ValidRecordShort(d);
    PodNamesDistinct(c.name, c.prefix, c.shortID, d.name, d.prefix, d.shortID);
    var i :| 0 <= i < |t| && t[i] == c;
    var j :| 0 <= j < |t| && t[j] == d;
  }

  // ---- saving and deleting ----

  /** The position of the record with this id, or the length. */
  function Position(t: seq<Container>, id: string): (k: nat)
    ensures k <= |t|
    ensures k < |t| ==> t[k].id == id
    ensures forall i :: 0 <= i < k ==> t[i].id != id
  {
    if t == [] || t[0].id == id then 0 else 1 + Position(t[1..], id)
  }

  function Insert(t: seq<Container>, c: Container): seq<Container> {
    var k := Position(t, c.id);
    if k < |t| then t[k := c] else t + [c]
  }

  function Remove(t: seq<Container>, id: string): seq<Container> {
    var k := Position(t, id);
    if k < |t| then t[..k] + t[k + 1..] else t
  }

  lemma DifferentIDs(t: seq<Container>, i: nat, j: nat)
    requires TableOk(t) && i < j < |t|
    ensures t[i].id != t[j].id
  {
    assert ValidRecord(t[i]) && ValidRecord(t[j]);
  }

  /** Saving replaces the record of that id or adds one; every other record stays. */
  lemma InsertMembers(t: seq<Container>, c: Container, d: Container)
    requires TableOk(t)
    ensures d in Insert(t, c) <==> d == c || (d in t && d.id != c.id)
  {
    var k := Position(t, c.id);
    if d in t {
      var i :| 0 <= i < |t| && t[i] == d;
      if k < |t| && i != k {
        DifferentIDs(t, if i < k then i else k, if i < k then k else i);
        assert Insert(t, c)[i] == d;
      } else if k == |t| {
        assert Insert(t, c)[i] == d;
      }
    }
    assert c in Insert(t, c) by {
      assert Insert(t, c)[k] == c;
    }
  }

  lemma InsertKeepsTableOk(t: seq<Container>, c: Container)
    requires TableOk(t) && ValidRecord(c)
    requires forall d :: d in t && d.id != c.id ==> d.shortID != c.shortID
    ensures TableOk(Insert(t, c))
  {
    var k := Position(t, c.id);
    if k < |t| {
      assert ValidRecord(t[k]);
    }
  }

  lemma RemoveKeepsTableOk(t: seq<Container>, id: string)
    requires TableOk(t)
    ensures TableOk(Remove(t, id))
  {
  }

  class Database {
    var containers: seq<Container>

    /**
     Saves a record; one without an id gets a generated id (None when the random
     source never yields one). No other stored short id may equal the new one.
     */
    method SaveContainer(con: Container, draws: seq<Draw>) returns (saved: Option<Container>)
      requires TableOk(containers)
      requires con.id != "" ==> ValidRecord(con) && forall d :: d in containers && d.id != con.id ==>
          d.shortID != con.shortID
      requires con.id == "" ==>
                 forall d, k :: d in containers && 0 <= k < |draws| ==>
                     d.shortID != TruncateID(EncodeToString(draws[k]))
      modifies this
      ensures saved.None? ==> containers == old(containers)
      ensures saved.Some? ==> TableOk(containers) && containers == Insert(old(containers), saved.value)
      ensures saved.Some? ==>
          saved.value.name == con.name && saved.value.prefix == con.prefix && ValidRecord(saved.value)
      ensures con.id != "" ==> saved == Some(con)
      ensures con.id == "" ==>
                if FirstID(draws).None? then saved.None?
                else saved == Some(con.(id := FirstID(draws).value, shortID := TruncateID(FirstID(draws).value)))
    {
      var rec := con;
      if con.id == "" {
        var id := GenerateRandomID(draws);
        FirstIDIsDrawn(draws);
        if id.None? {
          return None;
        }
        rec := con.(id := id.value, shortID := TruncateID(id.value));
      }
      InsertKeepsTableOk(containers, rec);
      containers := Insert(containers, rec);
      return Some(rec);
    }

    method DeleteContainer(con: Container)
      requires TableOk(containers)
      modifies this
      ensures TableOk(containers) && containers == Remove(old(containers), con.id)
    {
      RemoveKeepsTableOk(containers, con.id);
      containers := Remove(containers, con.id);
    }
  }
}
