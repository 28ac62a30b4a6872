/** How the ports of a container are offered in the cluster and listed by the two APIs. */
module PortReports {
  import opened Common
  import opened Ports

  // ---- the ports of the service ----

  /** The service port of a binding: a binding without local port is offered under its own port. */
  function ServicePort(src: Int, dst: Int): Int {
    if src < 0 then dst else src
  }

  predicate Claimed(prts: Bindings, k: Int) {
    exists src :: src in prts && ServicePort(src, prts[src]) == k
  }

  predicate ClaimedAs(prts: Bindings, k: Int, v: Int) {
    exists src :: src in prts && ServicePort(src, prts[src]) == k && prts[src] == v
  }

  /** `after` is `before` with the bindings laid over it in some order. */
  ghost predicate Laid(prts: Bindings, before: Bindings, after: Bindings) {
    && (forall k :: k in after <==> k in before || Claimed(prts, k))
    && (forall k :: k in after ==> if Claimed(prts, k) then ClaimedAs(prts, k, after[k]) else after[k] == before[k])
  }

  /** No two bindings claim one service port for different ports. */
  ghost predicate CollisionFree(prts: Bindings) {
    forall a, b :: a in prts && b in prts && ServicePort(a, prts[a]) == ServicePort(b, prts[b]) ==> prts[a] == prts[b]
  }

  lemma LaidDetermined(prts: Bindings, before: Bindings, x: Bindings, y: Bindings)
    requires CollisionFree(prts) && Laid(prts, before, x) && Laid(prts, before, y)
    ensures x == y
  {
    forall k | k in x ensures x[k] == y[k] {
      assert k in y;
      if Claimed(prts, k) {
        var a :| a in prts && ServicePort(a, prts[a]) == k && prts[a] == x[k];
        var b :| b in prts && ServicePort(b, prts[b]) == k && prts[b] == y[k];
      }
    }
    assert x.Keys == y.Keys;
  }

  /** Laying one binding more, on top. */
  lemma LaidStep(prts: Bindings, src: Int, dst: Int, before: Bindings, mid: Bindings)
    requires src !in prts && Laid(prts, before, mid)
    ensures Laid(prts[src := dst], before, mid[ServicePort(src, dst) := dst])
  {
    var more, after, p := prts[src := dst], mid[ServicePort(src, dst) := dst], ServicePort(src, dst);
    assert src in more && more[src] == dst && Claimed(more, p) && ClaimedAs(more, p, dst);
    forall k | k != p ensures Claimed(more, k) <==> Claimed(prts, k) {
      if Claimed(prts, k) {
        var a :| a in prts && ServicePort(a, prts[a]) == k;
        assert a in more && more[a] == prts[a];
      }
    }
    forall k | k != p && k in after && Claimed(prts, k) ensures ClaimedAs(more, k, after[k]) {
      var a :| a in prts && ServicePort(a, prts[a]) == k && prts[a] == mid[k];
      assert a in more && more[a] == prts[a];
    }
  }

  method Lay(prts: Bindings, before: Bindings) returns (after: Bindings)
    ensures Laid(prts, before, after)
  {
    after := before;
    var left := prts.Keys;
    ghost var laid: Bindings := map[];
    while left != {}
      invariant left <= prts.Keys && laid.Keys == prts.Keys - left
      invariant forall s :: s in laid ==> laid[s] == prts[s]
      invariant Laid(laid, before, after)
      decreases |left|
    {
      var src :| src in left;
      left := left - {src};
      LaidStep(laid, src, prts[src], before, after);
      laid := laid[src := prts[src]];
      after := after[ServicePort(src, prts[src]) := prts[src]];
    }
    assert laid == prts;
  }

  lemma {:induction false} LaidExists(prts: Bindings, before: Bindings) returns (after: Bindings)
    ensures Laid(prts, before, after)
    decreases |prts|
  {
    after := before;
    if prts != map[] {
      var src :| src in prts;
      var rest := prts - {src};
      after := LaidExists(rest, before);
      LaidStep(rest, src, prts[src], before, after);
      assert rest[src := prts[src]] == prts;
      after := after[ServicePort(src, prts[src]) := prts[src]];
    }
  }

  /** The binding laid last wins: any binding can be that one. */
  lemma LaidWith(prts: Bindings, before: Bindings, src: Int) returns (after: Bindings)
    requires src in prts
    ensures Laid(prts, before, after)
    ensures ServicePort(src, prts[src]) in after && after[ServicePort(src, prts[src])] == prts[src]
  {
    var rest := prts - {src};
    after := LaidExists(rest, before);
    LaidStep(rest, src, prts[src], before, after);
    assert rest[src := prts[src]] == prts;
    after := after[ServicePort(src, prts[src]) := prts[src]];
  }

  /** The order of a Go map does not show exactly when no two bindings collide. */
  lemma OrderDoesNotMatterExactly(prts: Bindings, before: Bindings)
    ensures CollisionFree(prts)
       <==> forall x, y :: Laid(prts, before, x) && Laid(prts, before, y) ==> x == y
  {
    if CollisionFree(prts) {
      forall x, y | Laid(prts, before, x) && Laid(prts, before, y) ensures x == y {
        LaidDetermined(prts, before, x, y);
      }
    } else {
      var a, b :| a in prts && b in prts && ServicePort(a, prts[a]) == ServicePort(b, prts[b]) && prts[a] != prts[b];
      var x := LaidWith(prts, before, a);
      var y := LaidWith(prts, before, b);
      assert Laid(prts, before, x) && Laid(prts, before, y) && x != y;
    }
  }

  /** The image ports and the exposed ports, each under its own number. */
  ghost predicate IsPlain(image: set<string>, exposed: set<string>, plain: Bindings) {
    && (forall p :: p in plain <==> Exposes(image, p) || Exposes(exposed, p))
    && (forall p :: p in plain ==> plain[p] == p)
  }

  lemma PlainUnique(image: set<string>, exposed: set<string>, x: Bindings, y: Bindings)
    requires IsPlain(image, exposed, x) && IsPlain(image, exposed, y)
    ensures x == y
  {
    forall p ensures p in x <==> p in y {
    }
    assert x.Keys == y.Keys;
  }

  /** The service ports: image and exposed ports as they are, under the host bindings, under the mapped ports. */
  ghost predicate IsService(image: set<string>, exposed: set<string>, host: Bindings, mapped: Bindings, r: Bindings) {
    exists plain, bound :: IsPlain(image, exposed, plain) && Laid(host, plain, bound) && Laid(mapped, bound, r)
  }

  method GetServicePorts(tainr: Container) returns (ports: Bindings)
    ensures IsService(tainr.imagePorts, tainr.exposedPorts, tainr.hostPorts, tainr.mappedPorts, ports)
  {
    var image := GetTCPPorts(tainr.imagePorts);
    var exposed := GetTCPPorts(tainr.exposedPorts);
    var plain: Bindings := map[];
    for i := 0 to |image|
      invariant forall p :: p in plain <==> p in image[..i]
      invariant forall p :: p in plain ==> plain[p] == p
    {
      plain := plain[image[i] := image[i]];
    }
    for i := 0 to |exposed|
      invariant forall p :: p in plain <==> p in image || p in exposed[..i]
      invariant forall p :: p in plain ==> plain[p] == p
    {
      plain := plain[exposed[i] := exposed[i]];
    }
    var bound := Lay(tainr.hostPorts, plain);
    ports := Lay(tainr.mappedPorts, bound);
  }

  // ---- when the order of the maps shows ----

  /** All bindings that claim the service port claim it for one port. */
  ghost predicate AgreeAt(prts: Bindings, k: Int) {
    forall a, b :: a in prts && b in prts && ServicePort(a, prts[a]) == k && ServicePort(b, prts[b]) == k ==>
        prts[a] == prts[b]
  }

  /** The mapped ports decide the service port, or else the host bindings, and they do so with one voice. */
  ghost predicate Decided(host: Bindings, mapped: Bindings, k: Int) {
    AgreeAt(mapped, k) && (Claimed(mapped, k) || AgreeAt(host, k))
  }

  /** The two services agree on one port. */
  ghost predicate SameAt(x: Bindings, y: Bindings, k: Int) {
    (k in x <==> k in y) && (k in x ==> x[k] == y[k])
  }

  lemma LaidSameAt(prts: Bindings, b: Bindings, c: Bindings, x: Bindings, y: Bindings, k: Int)
    requires Laid(prts, b, x) && Laid(prts, c, y) && AgreeAt(prts, k)
    requires Claimed(prts, k) || SameAt(b, c, k)
    ensures SameAt(x, y, k)
  {
    if Claimed(prts, k) {
      assert k in x && k in y;
      var i :| i in prts && ServicePort(i, prts[i]) == k && prts[i] == x[k];
      var j :| j in prts && ServicePort(j, prts[j]) == k && prts[j] == y[k];
    }
  }

  lemma DecidedSameAt(image: set<string>, exposed: set<string>, host: Bindings, mapped: Bindings, x: Bindings,
                      y: Bindings, k: Int)
    requires IsService(image, exposed, host, mapped, x) && IsService(image, exposed, host, mapped, y)
    requires Decided(host, mapped, k)
    ensures SameAt(x, y, k)
  {
    var p, b :| IsPlain(image, exposed, p) && Laid(host, p, b) && Laid(mapped, b, x);
    var q, c :| IsPlain(image, exposed, q) && Laid(host, q, c) && Laid(mapped, c, y);
    PlainUnique(image, exposed, p, q);
    if !Claimed(mapped, k) {
      LaidSameAt(host, p, q, b, c, k);
    }
    LaidSameAt(mapped, b, c, x, y, k);
  }

  /** An undecided service port really comes out in two ways. */
  lemma UndecidedDiffers(image: set<string>, exposed: set<string>, host: Bindings, mapped: Bindings, k: Int)
    returns (x: Bindings, y: Bindings)
    requires !Decided(host, mapped, k)
    ensures IsService(image, exposed, host, mapped, x) && IsService(image, exposed, host, mapped, y)
    ensures k in x && k in y && x[k] != y[k]
  {
    var plain := PlainExists(image, exposed);
    if !AgreeAt(mapped, k) {
      var i, j :| i in mapped && j in mapped && ServicePort(i, mapped[i]) == k && ServicePort(j, mapped[j]) == k &&
          mapped[i] != mapped[j];
      var bound := LaidExists(host, plain);
      x := LaidWith(mapped, bound, i);
      y := LaidWith(mapped, bound, j);
    } else {
      var i, j :| i in host && j in host && ServicePort(i, host[i]) == k && ServicePort(j, host[j]) == k &&
          host[i] != host[j];
      var b := LaidWith(host, plain, i);
      var c := LaidWith(host, plain, j);
      x := LaidExists(mapped, b);
      y := LaidExists(mapped, c);
    }
  }

  lemma PlainExists(image: set<string>, exposed: set<string>) returns (plain: Bindings)
    ensures IsPlain(image, exposed, plain)
  {
    var texts := Readable(image) + Readable(exposed);
    var ports := set t | t in texts :: GetTCPPort(t).value;
    plain := map p | p in ports :: p;
    forall p ensures p in plain <==> Exposes(image, p) || Exposes(exposed, p) {
      if p in plain {
        var t :| t in texts && GetTCPPort(t).value == p;
      }
    }
  }

  lemma ServiceExists(image: set<string>, exposed: set<string>, host: Bindings, mapped: Bindings) returns (r: Bindings)
    ensures IsService(image, exposed, host, mapped, r)
  {
    var plain := PlainExists(image, exposed);
    var bound := LaidExists(host, plain);
    r := LaidExists(mapped, bound);
  }

  /**
   The service depends on no map order if and only if the mapped ports never
   collide, and overlay every port on which host bindings do.
   */
  lemma ServiceDeterminedExactly(image: set<string>, exposed: set<string>, host: Bindings, mapped: Bindings)
    ensures (forall k :: Decided(host, mapped, k))
       <==> forall x, y :: IsService(image, exposed, host, mapped, x) && IsService(image, exposed, host, mapped, y) ==>
         x == y
  {
    if forall k :: Decided(host, mapped, k) {
      forall x, y | IsService(image, exposed, host, mapped, x) && IsService(image, exposed, host, mapped, y)
          ensures x == y {
        forall k ensures SameAt(x, y, k) {
          DecidedSameAt(image, exposed, host, mapped, x, y, k);
        }
        SameEverywhere(x, y);
      }
    } else {
      var k :| !Decided(host, mapped, k);
      var x, y := UndecidedDiffers(image, exposed, host, mapped, k);
      assert x != y;
    }
  }

  /** In particular, without any collision. */
  lemma ServiceDetermined(image: set<string>, exposed: set<string>, host: Bindings, mapped: Bindings, x: Bindings,
                          y: Bindings)
    requires CollisionFree(host) && CollisionFree(mapped)
    requires IsService(image, exposed, host, mapped, x) && IsService(image, exposed, host, mapped, y)
    ensures x == y
  {
    assert forall k :: Decided(host, mapped, k);
    ServiceDeterminedExactly(image, exposed, host, mapped);
  }

  lemma SameEverywhere(x: Bindings, y: Bindings)
    requires forall k :: SameAt(x, y, k)
    ensures x == y
  {
    forall k ensures k in x <==> k in y {
      assert SameAt(x, y, k);
    }
    assert x.Keys == y.Keys;
    forall k | k in x ensures x[k] == y[k] {
      assert SameAt(x, y, k);
    }
  }

  /** A host port bound to another port while its own port is bound to no local port. */
  ghost predicate Clash(host: Bindings, k: Int) {
    k in host && host[k] != k && exists src :: src in host && src < 0 && host[src] == k
  }

  /**
   Mapped ports are positive, as the system hands them out, and then they never
   collide: a port is undecided exactly when it clashes and is not mapped.
   */
  lemma DecidedExactly(host: Bindings, mapped: Bindings, k: Int)
    requires k >= 0 && forall src :: src in mapped ==> src > 0
    ensures Decided(host, mapped, k) <==> k in mapped || !Clash(host, k)
  {
    assert AgreeAt(mapped, k);
    assert Claimed(mapped, k) <==> k in mapped;
    if Clash(host, k) {
      var src :| src in host && src < 0 && host[src] == k;
      assert ServicePort(src, host[src]) == k && ServicePort(k, host[k]) == k;
    } else {
      forall a, b | a in host && b in host && ServicePort(a, host[a]) == k && ServicePort(b, host[b]) == k
        ensures host[a] == host[b]
      {
        assert a >= 0 ==> a == k;
        assert b >= 0 ==> b == k;
      }
    }
  }

  /** Such a clash is two calls of AddHostPort away: "80/tcp" without a local port, and 80 for another port. */
  lemma NegatedPortClashes(p: Int, q: Int)
    requires p > 0 && p != q
    ensures Clash(map[-p := p, p := q], p) && !Decided(map[-p := p, p := q], map[], p)
  {
    var m: int := -p;
    var host: Bindings := map[m := p, p := q];
    assert m in host && host[m] == p && host[p] == q;
    DecidedExactly(host, map[], p);
  }

  // ---- the ports listed ----

  /** Container port to the local ports that lead to it. */
  type Available = map<Int, seq<Int>>

  ghost predicate Lists(ports: Available, dst: Int, src: Int) {
    dst in ports && src in ports[dst]
  }

  ghost predicate Offers(prts: Bindings, dst: Int, src: Int) {
    src >= 0 && src in prts && prts[src] == dst
  }

  /** Inverts the bindings with a local port, onto what is there. */
  method AddAvailable(prts: Bindings, before: Available) returns (after: Available)
    ensures forall d, s :: Lists(after, d, s) <==> Lists(before, d, s) || Offers(prts, d, s)
  {
    after := before;
    var left := prts.Keys;
    while left != {}
      invariant left <= prts.Keys
      invariant forall d, s :: Lists(after, d, s) <==> Lists(before, d, s) || (Offers(prts, d, s) && s !in left)
      decreases |left|
    {
      var src :| src in left;
      left := left - {src};
      if src < 0 {
        continue;
      }
      after := Append(after, prts[src], src);
    }
  }

  method Append(ports: Available, dst: Int, src: Int) returns (after: Available)
    ensures forall d, s :: Lists(after, d, s) <==> Lists(ports, d, s) || (d == dst && s == src)
  {
    after := ports;
    if dst !in after {
      after := after[dst := []];
    }
    after := after[dst := after[dst] + [src]];
  }

  /** What is listed for a container: its own bindings when it is forwarded to, else those of its service. */
  ghost predicate Reachable(tainr: Container, forwards: bool, service: Bindings, dst: Int, src: Int)
    reads tainr
  {
    if forwards then Offers(tainr.hostPorts, dst, src) || Offers(tainr.mappedPorts, dst, src)
    else Offers(service, dst, src)
  }

  /** The listed pairs are exactly the reachable ones, for one of the services there may be. */
  ghost predicate IsAvailable(tainr: Container, forwards: bool, ports: Available)
    reads tainr
  {
    exists service ::
      && IsService(tainr.imagePorts, tainr.exposedPorts, tainr.hostPorts, tainr.mappedPorts, service)
      && forall d, s :: Lists(ports, d, s) <==> Reachable(tainr, forwards, service, d, s)
  }

  method GetAvailablePorts(tainr: Container, forwards: bool) returns (ports: Available)
    ensures IsAvailable(tainr, forwards, ports)
  {
    ports := map[];
    ghost var service;
    if forwards {
      ports := AddAvailable(tainr.hostPorts, ports);
      ports := AddAvailable(tainr.mappedPorts, ports);
      service := ServiceExists(tainr.imagePorts, tainr.exposedPorts, tainr.hostPorts, tainr.mappedPorts);
    } else {
      var all := GetServicePorts(tainr);
      ports := AddAvailable(all, ports);
      service := all;
    }
    assert forall d, s :: Lists(ports, d, s) <==> Reachable(tainr, forwards, service, d, s);
  }

  // ---- lists of entries: one loop, with the records of either API ----

  datatype API = Docker | Libpod

  datatype Entry =
    | DockerPort(ip: string, privatePort: Int, publicPort: Option<Int>)
    | LibpodPort(ip: string, hostPort: Int, containerPort: Int)

  datatype Pair = Pair(dst: Int, src: Int)

  function Show(api: API, ip: string, p: Pair): Entry {
    match api
    case Docker => DockerPort(ip, p.dst, if p.src > 0 then Some(p.src) else None)
    case Libpod => LibpodPort(ip, p.src, p.dst)
  }

  /** The entry is one of that API. */
  predicate IsOf(api: API, e: Entry) {
    match api
    case Docker => e.DockerPort? && (e.publicPort.Some? ==> e.publicPort.value > 0)
    case Libpod => e.LibpodPort?
  }

  /** What a client makes of an entry. */
  function Read(e: Entry): Pair {
    match e
    case DockerPort(_, dst, src) => Pair(dst, if src.None? then 0 else src.value)
    case LibpodPort(_, src, dst) => Pair(dst, src)
  }

  function ReadAll(es: seq<Entry>): seq<Pair> {
    if es == [] then [] else [Read(es[0])] + ReadAll(es[1..])
  }

  lemma {:induction false} ReadAllSnoc(es: seq<Entry>, e: Entry)
    ensures ReadAll(es + [e]) == ReadAll(es) + [Read(e)]
  {
    if es == [] {
      assert [e][1..] == [];
    } else {
      assert (es + [e])[1..] == es[1..] + [e];
      ReadAllSnoc(es[1..], e);
    }
  }

  /** Adding an entry adds the one pair it shows. */
  lemma ShowCounts(api: API, ip: string, es: seq<Entry>, x: Pair)
    requires x.src >= 0
    ensures forall p ::
        multiset(ReadAll(es + [Show(api, ip, x)]))[p] == multiset(ReadAll(es))[p] + if p == x then 1 else 0
  {
    ReadAllSnoc(es, Show(api, ip, x));
    assert multiset(ReadAll(es) + [x]) == multiset(ReadAll(es)) + multiset{x};
  }

  /** The entries show exactly the listed pairs, each once, under the host's address. */
  ghost predicate ListsOnce(api: API, es: seq<Entry>, ip: string, ports: Available) {
    && (forall p :: multiset(ReadAll(es))[p] == if Lists(ports, p.dst, p.src) then 1 else 0)
    && (forall i :: 0 <= i < |es| ==> es[i].ip == ip && IsOf(api, es[i]))
  }

  /** The entries of one container port, after some of its local ports. */
  ghost predicate Extends(es: seq<Entry>, before: seq<Entry>, dst: Int, srcs: seq<Int>) {
    forall p ::
      multiset(ReadAll(es))[p] == multiset(ReadAll(before))[p] + if p.dst == dst && p.src in srcs then 1 else 0
  }

  /** One more local port: listed before, or listed now. */
  lemma ExtendsStep(api: API, ip: string, es: seq<Entry>, before: seq<Entry>, dst: Int, srcs: seq<Int>, src: Int)
    requires Extends(es, before, dst, srcs) && src >= 0
    ensures src in srcs ==> Extends(es, before, dst, srcs + [src])
    ensures src !in srcs ==> Extends(es + [Show(api, ip, Pair(dst, src))], before, dst, srcs + [src])
  {
    var more := srcs + [src];
    assert forall s :: s in more <==> s in srcs || s == src;
    ShowCounts(api, ip, es, Pair(dst, src));
  }

  method ListOne(api: API, ip: string, dst: Int, srcs: seq<Int>, before: seq<Entry>) returns (es: seq<Entry>)
    requires forall i :: 0 <= i < |srcs| ==> srcs[i] >= 0
    requires forall i :: 0 <= i < |before| ==> before[i].ip == ip && IsOf(api, before[i])
    ensures Extends(es, before, dst, srcs)
    ensures forall i :: 0 <= i < |es| ==> es[i].ip == ip && IsOf(api, es[i])
  {
    es := before;
    var done: set<Int> := {};
    for i := 0 to |srcs|
      invariant forall s :: s in done <==> s in srcs[..i]
      invariant Extends(es, before, dst, srcs[..i])
      invariant forall i :: 0 <= i < |es| ==> es[i].ip == ip && IsOf(api, es[i])
    {
      assert srcs[..i + 1] == srcs[..i] + [srcs[i]];
      ExtendsStep(api, ip, es, before, dst, srcs[..i], srcs[i]);
      if srcs[i] in done {
        continue;
      }
      es := es + [Show(api, ip, Pair(dst, srcs[i]))];
      done := done + {srcs[i]};
    }
    assert srcs[..|srcs|] == srcs;
  }

  /** Lists every container port, in some order. */
  method ListAll(api: API, ip: string, ports: Available) returns (es: seq<Entry>)
    requires forall d, s :: Lists(ports, d, s) ==> s >= 0
    ensures ListsOnce(api, es, ip, ports)
  {
    es := [];
    var left := ports.Keys;
    while left != {}
      invariant left <= ports.Keys
      invariant forall p :: multiset(ReadAll(es))[p] == if Lists(ports, p.dst, p.src) && p.dst !in left then 1 else 0
      invariant forall i :: 0 <= i < |es| ==> es[i].ip == ip && IsOf(api, es[i])
      decreases |left|
    {
      var dst :| dst in left;
      left := left - {dst};
      assert forall i :: 0 <= i < |ports[dst]| ==> Lists(ports, dst, ports[dst][i]);
      es := ListOne(api, ip, dst, ports[dst], es);
    }
  }

  /** `getContainerPorts` of the Docker API and `getContainerInfoPorts` of the Libpod API. */
  method GetContainerPorts(api: API, tainr: Container, forwards: bool) returns (es: seq<Entry>)
    ensures tainr.hostIP == "" ==> es == []
    ensures tainr.hostIP != "" ==>
        exists ports :: IsAvailable(tainr, forwards, ports) && ListsOnce(api, es, tainr.hostIP, ports)
  {
    var all := GetAvailablePorts(tainr, forwards);
    if tainr.hostIP == "" {
      return [];
    }
    AvailableAreLocal(tainr, forwards, all);
    es := ListAll(api, tainr.hostIP, all);
  }

  lemma AvailableAreLocal(tainr: Container, forwards: bool, ports: Available)
    requires IsAvailable(tainr, forwards, ports)
    ensures forall d, s :: Lists(ports, d, s) ==> s >= 0
  {
  }

  // ---- what the fields of an entry say ----

  lemma {:induction false} ReadAllAt(es: seq<Entry>, i: nat)
    requires i < |es|
    ensures |ReadAll(es)| == |es| && ReadAll(es)[i] == Read(es[i])
  {
    if i > 0 {
      ReadAllAt(es[1..], i - 1);
    } else if |es| > 1 {
      ReadAllAt(es[1..], 0);
    }
  }

  lemma EntryExists(api: API, es: seq<Entry>, ip: string, ports: Available, dst: Int, src: Int)
    requires ListsOnce(api, es, ip, ports)
    ensures Lists(ports, dst, src) <==> exists i :: 0 <= i < |es| && Read(es[i]) == Pair(dst, src)
  {
    var p := Pair(dst, src);
    forall i | 0 <= i < |es| ensures |ReadAll(es)| == |es| && ReadAll(es)[i] == Read(es[i]) {
      ReadAllAt(es, i);
    }
    assert multiset(ReadAll(es))[p] == if Lists(ports, p.dst, p.src) then 1 else 0;
    assert p in multiset(ReadAll(es)) <==> p in ReadAll(es);
  }

  /** An entry of the Docker API names the container port as private and the local port as public. */
  lemma DockerEntryExactly(es: seq<Entry>, ip: string, ports: Available, dst: Int, src: Int)
    requires ListsOnce(Docker, es, ip, ports) && src > 0
    ensures Lists(ports, dst, src)
       <==> exists i :: 0 <= i < |es| && es[i].DockerPort? && es[i].ip == ip
              && es[i].privatePort == dst && es[i].publicPort == Some(src)
  {
    EntryExists(Docker, es, ip, ports, dst, src);
    if Lists(ports, dst, src) {
      var i :| 0 <= i < |es| && Read(es[i]) == Pair(dst, src);
      assert IsOf(Docker, es[i]);
    }
  }

  /** One of the Libpod API names the local port as the host's. */
  lemma LibpodEntryExactly(es: seq<Entry>, ip: string, ports: Available, dst: Int, src: Int)
    requires ListsOnce(Libpod, es, ip, ports)
    ensures Lists(ports, dst, src)
       <==> exists i :: 0 <= i < |es| && es[i].LibpodPort? && es[i].ip == ip
              && es[i].containerPort == dst && es[i].hostPort == src
  {
    EntryExists(Libpod, es, ip, ports, dst, src);
    if Lists(ports, dst, src) {
      var i :| 0 <= i < |es| && Read(es[i]) == Pair(dst, src);
      assert IsOf(Libpod, es[i]);
    }
  }

  // ---- which ports are listed ----

  /**
   Of a container that is forwarded to, the Docker API shows a local port as public for a
   container port exactly when one of its host bindings or of its mapped ports says so.
   */
  lemma ForwardedExactly(tainr: Container, es: seq<Entry>, ip: string, ports: Available, dst: Int, src: Int)
    requires IsAvailable(tainr, true, ports) && ListsOnce(Docker, es, ip, ports) && src > 0
    ensures (exists i :: 0 <= i < |es| && es[i].DockerPort? && es[i].ip == ip
               && es[i].privatePort == dst && es[i].publicPort == Some(src))
       <==> (src in tainr.hostPorts && tainr.hostPorts[src] == dst)
            || (src in tainr.mappedPorts && tainr.mappedPorts[src] == dst)
  {
    DockerEntryExactly(es, ip, ports, dst, src);
  }

  /** Of any other, every exposed and every mapped port is listed - under itself, if nothing else claims it. */
  lemma ServedPorts(tainr: Container, ports: Available, p: Int)
    requires IsAvailable(tainr, false, ports) && p > 0
    requires forall src :: src in tainr.mappedPorts ==> src > 0
    ensures p in tainr.mappedPorts ==> Lists(ports, tainr.mappedPorts[p], p)
    ensures Exposes(tainr.exposedPorts, p) || Exposes(tainr.imagePorts, p) ==> exists dst :: Lists(ports, dst, p)
    ensures Plainly(tainr, p) ==> Lists(ports, p, p)
  {
    var v :| IsService(tainr.imagePorts, tainr.exposedPorts, tainr.hostPorts, tainr.mappedPorts, v)
      && forall d, s :: Lists(ports, d, s) <==> Reachable(tainr, false, v, d, s);
    ServiceAt(tainr.imagePorts, tainr.exposedPorts, tainr.hostPorts, tainr.mappedPorts, v, p);
    if p in v {
      assert Offers(v, v[p], p);
      assert Lists(ports, v[p], p);
    }
  }

  /** Exposed, and neither bound nor mapped. */
  ghost predicate Plainly(tainr: Container, p: Int)
    reads tainr
  {
    && (Exposes(tainr.exposedPorts, p) || Exposes(tainr.imagePorts, p))
    && !Claimed(tainr.hostPorts, p) && p !in tainr.mappedPorts
  }

  lemma ServiceAt(image: set<string>, exposed: set<string>, host: Bindings, mapped: Bindings, v: Bindings, p: Int)
    requires IsService(image, exposed, host, mapped, v) && p > 0 && forall src :: src in mapped ==> src > 0
    ensures p in mapped ==> p in v && v[p] == mapped[p]
    ensures Exposes(exposed, p) || Exposes(image, p) ==> p in v
    ensures (Exposes(exposed, p) || Exposes(image, p)) && !Claimed(host, p) && p !in mapped ==> p in v && v[p] == p
  {
    assert Claimed(mapped, p) <==> p in mapped;
    var plain, b :| IsPlain(image, exposed, plain) && Laid(host, plain, b) && Laid(mapped, b, v);
  }

  // ---- when the two APIs agree ----

  ghost predicate SameListed(x: Available, y: Available) {
    forall d, s :: Lists(x, d, s) <==> Lists(y, d, s)
  }

  /**
   Two listings read the same, pair by pair and equally often, if and only if the same
   pairs were available to them.
   */
  lemma ReadSameExactly(a: seq<Entry>, b: seq<Entry>, ip: string, x: Available, y: Available)
    requires ListsOnce(Docker, a, ip, x) && ListsOnce(Libpod, b, ip, y)
    ensures multiset(ReadAll(a)) == multiset(ReadAll(b)) <==> SameListed(x, y)
  {
    if SameListed(x, y) {
      forall p: Pair ensures multiset(ReadAll(a))[p] == multiset(ReadAll(b))[p] {
        assert Lists(x, p.dst, p.src) <==> Lists(y, p.dst, p.src);
      }
    }
    if multiset(ReadAll(a)) == multiset(ReadAll(b)) {
      forall d, s ensures Lists(x, d, s) <==> Lists(y, d, s) {
        var p := Pair(d, s);
        assert multiset(ReadAll(a))[p] == if Lists(x, p.dst, p.src) then 1 else 0;
        assert multiset(ReadAll(b))[p] == if Lists(y, p.dst, p.src) then 1 else 0;
      }
    }
  }

  /** Every service port with a local port is decided; for a container that is forwarded to, nothing needs to be. */
  ghost predicate Settled(tainr: Container, forwards: bool)
    reads tainr
  {
    forwards || forall k :: k >= 0 ==> Decided(tainr.hostPorts, tainr.mappedPorts, k)
  }

  lemma SettledWalksAgree(tainr: Container, forwards: bool, x: Available, y: Available)
    requires IsAvailable(tainr, forwards, x) && IsAvailable(tainr, forwards, y) && Settled(tainr, forwards)
    ensures SameListed(x, y)
  {
    var v :| IsService(tainr.imagePorts, tainr.exposedPorts, tainr.hostPorts, tainr.mappedPorts, v)
      && forall d, s :: Lists(x, d, s) <==> Reachable(tainr, forwards, v, d, s);
    var w :| IsService(tainr.imagePorts, tainr.exposedPorts, tainr.hostPorts, tainr.mappedPorts, w)
      && forall d, s :: Lists(y, d, s) <==> Reachable(tainr, forwards, w, d, s);
    forall d, s ensures Lists(x, d, s) <==> Lists(y, d, s) {
      if !forwards && s >= 0 {
        DecidedSameAt(tainr.imagePorts, tainr.exposedPorts, tainr.hostPorts, tainr.mappedPorts, v, w, s);
      }
    }
  }

  lemma {:induction false} AvailableFrom(prts: Bindings) returns (ports: Available)
    ensures forall d, s :: Lists(ports, d, s) <==> Offers(prts, d, s)
    decreases |prts|
  {
    ports := map[];
    if prts != map[] {
      var src :| src in prts;
      var dst := prts[src];
      var rest := AvailableFrom(prts - {src});
      ports := if src < 0 then rest else rest[dst := (if dst in rest then rest[dst] else []) + [src]];
      forall d, s ensures Lists(ports, d, s) <==> Offers(prts, d, s) {
        assert Offers(prts, d, s) <==> Offers(prts - {src}, d, s) || (s == src && d == dst && src >= 0);
      }
    }
  }

  /** Exactly when any two walks make the same pairs available, whatever the orders of the maps. */
  lemma WalksAgreeExactly(tainr: Container, forwards: bool)
    ensures Settled(tainr, forwards)
       <==> forall x, y :: IsAvailable(tainr, forwards, x) && IsAvailable(tainr, forwards, y) ==> SameListed(x, y)
  {
    if Settled(tainr, forwards) {
      forall x, y | IsAvailable(tainr, forwards, x) && IsAvailable(tainr, forwards, y) ensures SameListed(x, y) {
        SettledWalksAgree(tainr, forwards, x, y);
      }
    } else {
      var x, y := UnsettledWalksDiffer(tainr);
    }
  }

  lemma ServiceIsAvailable(tainr: Container, v: Bindings) returns (x: Available)
    requires IsService(tainr.imagePorts, tainr.exposedPorts, tainr.hostPorts, tainr.mappedPorts, v)
    ensures IsAvailable(tainr, false, x) && forall d, s :: Lists(x, d, s) <==> Offers(v, d, s)
  {
    x := AvailableFrom(v);
    assert forall d, s :: Lists(x, d, s) <==> Reachable(tainr, false, v, d, s);
  }

  lemma UnsettledWalksDiffer(tainr: Container) returns (x: Available, y: Available)
    requires !Settled(tainr, false)
    ensures IsAvailable(tainr, false, x) && IsAvailable(tainr, false, y) && !SameListed(x, y)
  {
    var k :| k >= 0 && !Decided(tainr.hostPorts, tainr.mappedPorts, k);
    var v, w := UndecidedDiffers(tainr.imagePorts, tainr.exposedPorts, tainr.hostPorts, tainr.mappedPorts, k);
    x := ServiceIsAvailable(tainr, v);
    y := ServiceIsAvailable(tainr, w);
    assert Offers(v, v[k], k) && !Offers(w, v[k], k);
    assert Lists(x, v[k], k) && !Lists(y, v[k], k);
  }

  /**
   What the two APIs list of one container, each after walks of its own: a client
   reads the same pairs from both, equally often, unless an unmapped host port clashes.
   */
  lemma ListingsAgree(tainr: Container, forwards: bool, a: seq<Entry>, b: seq<Entry>, x: Available, y: Available)
    requires IsAvailable(tainr, forwards, x) && ListsOnce(Docker, a, tainr.hostIP, x)
    requires IsAvailable(tainr, forwards, y) && ListsOnce(Libpod, b, tainr.hostIP, y)
    requires forall src :: src in tainr.mappedPorts ==> src > 0
    requires forwards || forall k :: k in tainr.hostPorts && k >= 0 ==>
        k in tainr.mappedPorts || !Clash(tainr.hostPorts, k)
    ensures multiset(ReadAll(a)) == multiset(ReadAll(b))
  {
    forall k | k >= 0 && !forwards ensures Decided(tainr.hostPorts, tainr.mappedPorts, k) {
      DecidedExactly(tainr.hostPorts, tainr.mappedPorts, k);
    }
    SettledWalksAgree(tainr, forwards, x, y);
    ReadSameExactly(a, b, tainr.hostIP, x, y);
  }

  // ---- the settings of one container ----

  /** The key of a container port, "80/tcp". */
  function PortKey(dst: Int): string {
    Decimal(dst) + "/" + "tcp"
  }

  /** The key has the protocol after its slash, and reads back as the port. */
  lemma PortKeyReadsBack(dst: Int)
    ensures var key := PortKey(dst); key[SlashIndex(key)..] == "/tcp" && GetTCPPort(key) == Some(dst)
  {
    var key := PortKey(dst);
    PortReadsBack(dst);
    DecimalReadsBack(dst);
    SlashAfter(Decimal(dst), "tcp");
    assert key[|Decimal(dst)|..] == "/" + "tcp";
    assert "/" + "tcp" == "/tcp";
  }

  function Decimals(ns: seq<Int>): (r: seq<string>)
    ensures |r| == |ns|
    ensures forall i :: 0 <= i < |ns| ==> r[i] == Decimal(ns[i])
  {
    if ns == [] then [] else [Decimal(ns[0])] + Decimals(ns[1..])
  }

  /** The same elements, each once. */
  ghost predicate SameOnce(once: seq<Int>, ns: seq<Int>) {
    && (forall n :: n in once <==> n in ns)
    && (forall i, j :: 0 <= i < j < |once| ==> once[i] != once[j])
  }

  lemma {:induction false} DecimalsSnoc(ns: seq<Int>, n: Int)
    ensures Decimals(ns + [n]) == Decimals(ns) + [Decimal(n)]
  {
    var a, b := Decimals(ns + [n]), Decimals(ns) + [Decimal(n)];
    assert forall i :: 0 <= i < |a| ==> a[i] == b[i];
  }

  method ListHostPorts(srcs: seq<Int>) returns (texts: seq<string>, ghost once: seq<Int>)
    ensures SameOnce(once, srcs) && texts == Decimals(once)
  {
    texts, once := [], [];
    var done: set<Int> := {};
    for i := 0 to |srcs|
      invariant forall s :: s in done <==> s in srcs[..i]
      invariant SameOnce(once, srcs[..i]) && texts == Decimals(once)
    {
      assert srcs[..i + 1] == srcs[..i] + [srcs[i]];
      if srcs[i] in done {
        continue;
      }
      DecimalsSnoc(once, srcs[i]);
      texts := texts + [Decimal(srcs[i])];
      once := once + [srcs[i]];
      done := done + {srcs[i]};
    }
    assert srcs[..|srcs|] == srcs;
  }

  /** The text is the key of a container port, and lists its local ports, each once. */
  ghost predicate Shows(ports: Available, res: map<string, seq<string>>, dst: Int) {
    && dst in ports && PortKey(dst) in res
    && exists once :: SameOnce(once, ports[dst]) && res[PortKey(dst)] == Decimals(once)
  }

  /** Each container port is shown under its key, and each key is that of a container port. */
  ghost predicate ShowsAll(ports: Available, res: map<string, seq<string>>) {
    (forall d :: d in ports ==> Shows(ports, res, d)) && (forall k :: k in res ==> KeyOf(k, ports))
  }

  /** Keys read back, so that no container port overwrites the entry of another. */
  method GetNetworkSettingsPorts(tainr: Container, forwards: bool) returns (res: map<string, seq<string>>)
    ensures tainr.hostIP == "" ==> res == map[]
    ensures tainr.hostIP != "" ==> exists ports :: IsAvailable(tainr, forwards, ports) && ShowsAll(ports, res)
  {
    var all := GetAvailablePorts(tainr, forwards);
    res := map[];
    if tainr.hostIP == "" {
      return;
    }
    var left := all.Keys;
    while left != {}
      invariant left <= all.Keys
      invariant forall d :: d in all && d !in left ==> Shows(all, res, d)
      invariant forall k :: k in res ==> KeyOf(k, all)
      decreases |left|
    {
      var dst :| dst in left;
      left := left - {dst};
      ghost var once;
      var texts;
      texts, once := ListHostPorts(all[dst]);
      KeepsShown(all, res, dst, texts, once);
      res := res[PortKey(dst) := texts];
    }
    assert ShowsAll(all, res);
  }

  ghost predicate KeyOf(k: string, ports: Available) {
    GetTCPPort(k).Some? && GetTCPPort(k).value in ports && PortKey(GetTCPPort(k).value) == k
  }

  lemma KeepsShown(ports: Available, res: map<string, seq<string>>, dst: Int, texts: seq<string>, once: seq<Int>)
    requires dst in ports && SameOnce(once, ports[dst]) && texts == Decimals(once)
    ensures var after := res[PortKey(dst) := texts];
            && Shows(ports, after, dst) && KeyOf(PortKey(dst), ports)
            && forall d :: d != dst && Shows(ports, res, d) ==> Shows(ports, after, d)
  {
    PortReadsBack(dst);
    forall d | d != dst && Shows(ports, res, d) ensures Shows(ports, res[PortKey(dst) := texts], d) {
      PortReadsBack(d);
    }
  }
}
