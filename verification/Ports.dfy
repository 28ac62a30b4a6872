/**
 The ports of a container: what is exposed, what is bound or mapped to a local
 port, and how both are reported. A Go map is walked in an arbitrary order.
 */
module Ports {
  import opened Common
  import opened StringId
  import opened Text

  const MIN_INT64 := -0x8000_0000_0000_0000

  /** A Go `int` on a 64-bit machine. */
  type Int = n: int | MIN_INT64 <= n <= MAX_INT64

  /** Local port to container port. */
  type Bindings = map<Int, Int>

  // ---- texts ----

  /** The position of the first slash, or the length. */
  function SlashIndex(s: string): (k: nat)
    ensures k <= |s|
    ensures k < |s| ==> s[k] == '/'
    ensures forall i :: 0 <= i < k ==> s[i] != '/'
  {
    if s == [] || s[0] == '/' then 0 else 1 + SlashIndex(s[1..])
  }

  function Atoi(s: string): (n: Option<Int>) {
    match ParseInt(s)
    case None => None
    case Some(n) => if MIN_INT64 <= n <= MAX_INT64 then Some(n) else None
  }

  /** "9000/tcp" or "9000"; any other protocol, and any further slash, is an error. */
  function GetTCPPort(p: string): Option<Int> {
    var k := SlashIndex(p);
    if k < |p| && p[k + 1..] != "tcp" then None else Atoi(p[..k])
  }

  function Digit(d: nat): (c: char)
    requires d < 10
    ensures IsDigit(c)
  {
    '0' + d as char
  }

  /** `%d` */
  function Decimal(n: Int): string {
    if n < 0 then "-" + Digits(Magnitude(n)) else Digits(n)
  }

  function Magnitude(n: int): nat {
    if n < 0 then -n else n
  }

  function Digits(n: nat): (s: string)
    ensures s != []
  {
    if n < 10 then [Digit(n)] else Digits(n / 10) + [Digit(n % 10)]
  }

  lemma {:induction false} DigitsSnoc(s: string, c: char)
    requires AllDigits(s) && IsDigit(c)
    ensures AllDigits(s + [c])
  {
    if s != [] {
      DigitsSnoc(s[1..], c);
      assert (s + [c])[1..] == s[1..] + [c];
    }
  }

  lemma {:induction false} DigitsReadBack(n: nat)
    ensures AllDigits(Digits(n)) && DigitsValue(Digits(n)) == n
  {
    if n >= 10 {
      var front, c := Digits(n / 10), Digit(n % 10);
      DigitsReadBack(n / 10);
      DigitsSnoc(front, c);
      assert Init(front + [c]) == front;
    } else {
      assert Init([Digit(n)]) == [];
    }
  }

  lemma {:induction false} DigitsHaveNoSlash(s: string)
    requires AllDigits(s)
    ensures SlashIndex(s) == |s|
  {
    if s != [] {
      DigitsHaveNoSlash(s[1..]);
    }
  }

  lemma {:induction false} SlashAfter(s: string, rest: string)
    requires SlashIndex(s) == |s|
    ensures SlashIndex(s + "/" + rest) == |s|
  {
    if s != [] {
      SlashAfter(s[1..], rest);
      assert (s + "/" + rest)[1..] == s[1..] + "/" + rest;
    }
  }

  lemma DecimalReadsBack(n: Int)
    ensures Atoi(Decimal(n)) == Some(n) && SlashIndex(Decimal(n)) == |Decimal(n)|
  {
    var digits := Digits(Magnitude(n));
    DigitsReadBack(Magnitude(n));
    DigitsHaveNoSlash(digits);
    if n < 0 {
      assert Decimal(n)[1..] == digits;
    }
  }

  /** A port printed as the API prints it reads back as that port: no two ports share a key. */
  lemma PortReadsBack(n: Int)
    ensures GetTCPPort(Decimal(n) + "/" + "tcp") == Some(n)
    ensures GetTCPPort(Decimal(n)) == Some(n)
  {
    DecimalReadsBack(n);
    SlashAfter(Decimal(n), "tcp");
    var p := Decimal(n) + "/" + "tcp";
    assert p[..|Decimal(n)|] == Decimal(n) && p[|Decimal(n)| + 1..] == "tcp";
    assert Decimal(n)[..|Decimal(n)|] == Decimal(n);
  }

  /** TCP is the default protocol. */
  lemma DefaultProtocol(p: string)
    requires SlashIndex(p) == |p|
    ensures GetTCPPort(p + "/" + "tcp") == GetTCPPort(p)
  {
    SlashAfter(p, "tcp");
    var q := p + "/" + "tcp";
    assert q[..|p|] == p && q[|p| + 1..] == "tcp" && p[..|p|] == p;
  }

  function Readable(texts: set<string>): set<string> {
    set t | t in texts && GetTCPPort(t).Some?
  }

  /** A text with a slash is a TCP port only if what follows is "tcp"; "53/udp" never is. */
  lemma OnlyTCP(p: string, protocol: string)
    requires SlashIndex(p) == |p| && protocol != "tcp"
    ensures GetTCPPort(p + "/" + protocol).None?
  {
    SlashAfter(p, protocol);
    var q := p + "/" + protocol;
    assert q[|p| + 1..] == protocol;
  }

  predicate Exposes(texts: set<string>, p: Int) {
    exists t :: t in texts && GetTCPPort(t) == Some(p)
  }

  /** The list holds the port of each readable text, in some order. */
  ghost predicate PortsOf(texts: set<string>, ports: seq<Int>) {
    && (forall p :: p in ports <==> Exposes(texts, p))
    && |ports| == |Readable(texts)|
  }

  method GetTCPPorts(texts: set<string>) returns (ports: seq<Int>)
    ensures PortsOf(texts, ports)
  {
    var left := texts;
    ports := [];
    while left != {}
      invariant left <= texts && PortsOf(texts - left, ports)
      decreases |left|
    {
      var t :| t in left;
      var p := GetTCPPort(t);
      PortsOfStep(texts - left, ports, t);
      assert texts - (left - {t}) == (texts - left) + {t};
      left := left - {t};
      if p.Some? {
        ports := ports + [p.value];
      }
    }
    assert texts - left == texts;
  }

  lemma PortsOfStep(texts: set<string>, ports: seq<Int>, t: string)
    requires PortsOf(texts, ports) && t !in texts
    ensures PortsOf(texts + {t}, ports + match GetTCPPort(t) case None => [] case Some(p) => [p])
  {
    var r := GetTCPPort(t);
    ReadableStep(texts, t, r);
    var more := ports + match r case None => [] case Some(p) => [p];
    forall p ensures p in more <==> Exposes(texts + {t}, p) {
      ExposesStep(texts, t, p);
      assert p in more <==> p in ports || r == Some(p);
    }
  }

  lemma ReadableStep(texts: set<string>, t: string, r: Option<Int>)
    requires r == GetTCPPort(t) && t !in texts
    ensures |Readable(texts + {t})| == |Readable(texts)| + if r.Some? then 1 else 0
  {
    assert Readable(texts + {t}) == Readable(texts) + if r.Some? then {t} else {};
  }

  lemma ExposesStep(texts: set<string>, t: string, p: Int)
    ensures Exposes(texts + {t}, p) <==> Exposes(texts, p) || GetTCPPort(t) == Some(p)
  {
    if Exposes(texts, p) {
      var u :| u in texts && GetTCPPort(u) == Some(p);
      assert u in texts + {t};
    }
    if GetTCPPort(t) == Some(p) {
      assert t in texts + {t};
    }
  }

  // ---- mapping ----

  /** An explicit host binding. */
  predicate Bound(host: Bindings, port: Int) {
    exists src :: src in host && src > 0 && host[src] == port
  }

  /** Only a positive local port is an explicit binding: an empty or zero one, kept as the negated port, is none. */
  lemma BoundExactly(host: Bindings, src: Int, dst: Int, port: Int)
    requires src !in host
    ensures Bound(host[src := dst], port) <==> Bound(host, port) || (src > 0 && dst == port)
  {
    var more: Bindings := host[src := dst];
    if Bound(host, port) {
      var a :| a in host && a > 0 && host[a] == port;
      assert a in more && more[a] == port;
    }
    if src > 0 && dst == port {
      assert src in more && more[src] == port;
    }
  }

  predicate Mapped(mapped: Bindings, port: Int) {
    exists src :: src in mapped && mapped[src] == port
  }

  /** Maps the ports in turn; `given` is what the system hands out, and runs out when it fails. */
  function Assign(host: Bindings, mapped: Bindings, ports: seq<Int>, given: seq<Int>): Bindings
    decreases |ports|
  {
    if ports == [] then mapped
    else if Bound(host, ports[0]) || Mapped(mapped, ports[0]) then Assign(host, mapped, ports[1..], given)
    else if given == [] then mapped
    else Assign(host, mapped[given[0] := ports[0]], ports[1..], given[1..])
  }

  /** Whether the mapping ran to its end, using all it was given. */
  predicate Complete(host: Bindings, mapped: Bindings, ports: seq<Int>, given: seq<Int>)
    decreases |ports|
  {
    if ports == [] then given == []
    else if Bound(host, ports[0]) || Mapped(mapped, ports[0]) then Complete(host, mapped, ports[1..], given)
    else given != [] && Complete(host, mapped[given[0] := ports[0]], ports[1..], given[1..])
  }

  /** What is handed out is distinct and not in use as a mapping yet. */
  ghost predicate FreshPorts(mapped: Bindings, given: seq<Int>) {
    && (forall i :: 0 <= i < |given| ==> given[i] !in mapped)
    && (forall i, j :: 0 <= i < j < |given| ==> given[i] != given[j])
  }

  /** No port is mapped twice. */
  ghost predicate Single(mapped: Bindings) {
    forall a, b :: a in mapped && b in mapped && mapped[a] == mapped[b] ==> a == b
  }

  lemma {:induction false} AssignKeepsSingle(host: Bindings, mapped: Bindings, ports: seq<Int>, given: seq<Int>)
    requires Single(mapped)
    ensures Single(Assign(host, mapped, ports, given))
    decreases |ports|
  {
    if ports == [] {
    } else if Bound(host, ports[0]) || Mapped(mapped, ports[0]) {
      AssignKeepsSingle(host, mapped, ports[1..], given);
    } else if given != [] {
      AssignKeepsSingle(host, mapped[given[0] := ports[0]], ports[1..], given[1..]);
    }
  }

  lemma FreshStep(mapped: Bindings, given: seq<Int>, port: Int)
    requires given != [] && FreshPorts(mapped, given)
    ensures FreshPorts(mapped[given[0] := port], given[1..])
  {
  }

  /** Fresh ports displace nothing. */
  lemma {:induction false} AssignKeepsEarlier(host: Bindings, mapped: Bindings, ports: seq<Int>, given: seq<Int>,
                                              src: Int)
    requires FreshPorts(mapped, given) && src in mapped
    ensures src in Assign(host, mapped, ports, given) && Assign(host, mapped, ports, given)[src] == mapped[src]
    decreases |ports|
  {
    if ports == [] {
    } else if Bound(host, ports[0]) || Mapped(mapped, ports[0]) {
      AssignKeepsEarlier(host, mapped, ports[1..], given, src);
    } else if given != [] {
      FreshStep(mapped, given, ports[0]);
      AssignKeepsEarlier(host, mapped[given[0] := ports[0]], ports[1..], given[1..], src);
    }
  }

  /** Every port of the list, repeated or not, ends up bound or mapped. */
  lemma {:induction false} AssignCovers(host: Bindings, mapped: Bindings, ports: seq<Int>, given: seq<Int>, port: Int)
    requires FreshPorts(mapped, given) && Complete(host, mapped, ports, given) && port in ports
    ensures Bound(host, port) || Mapped(Assign(host, mapped, ports, given), port)
    decreases |ports|
  {
    if Bound(host, ports[0]) || Mapped(mapped, ports[0]) {
      if port in ports[1..] {
        AssignCovers(host, mapped, ports[1..], given, port);
      } else if Mapped(mapped, port) {
        var src :| src in mapped && mapped[src] == port;
        AssignKeepsEarlier(host, mapped, ports, given, src);
      }
    } else {
      FreshStep(mapped, given, ports[0]);
      var next := mapped[given[0] := ports[0]];
      if port in ports[1..] {
        AssignCovers(host, next, ports[1..], given[1..], port);
      } else {
        AssignKeepsEarlier(host, next, ports[1..], given[1..], given[0]);
      }
    }
  }

  /** An entry is an earlier one, or a new one for a listed port without binding. */
  lemma {:induction false} AssignAddsOnlyNeeded(host: Bindings, mapped: Bindings, ports: seq<Int>, given: seq<Int>,
                                                src: Int)
    requires src in Assign(host, mapped, ports, given)
    ensures var port := Assign(host, mapped, ports, given)[src];
            (src in mapped && mapped[src] == port) || (src in given && port in ports && !Bound(host, port))
    decreases |ports|
  {
    if ports == [] {
    } else if Bound(host, ports[0]) || Mapped(mapped, ports[0]) {
      AssignAddsOnlyNeeded(host, mapped, ports[1..], given, src);
    } else if given != [] {
      AssignAddsOnlyNeeded(host, mapped[given[0] := ports[0]], ports[1..], given[1..], src);
    }
  }

  /** Nothing is left to map: whatever would be handed out, nothing changes. */
  lemma {:induction false} AssignSettled(host: Bindings, mapped: Bindings, ports: seq<Int>, given: seq<Int>)
    requires forall i :: 0 <= i < |ports| ==> Bound(host, ports[i]) || Mapped(mapped, ports[i])
    ensures Assign(host, mapped, ports, given) == mapped
    ensures Complete(host, mapped, ports, given) <==> given == []
  {
    if ports != [] {
      assert Bound(host, ports[0]) || Mapped(mapped, ports[0]);
      AssignSettled(host, mapped, ports[1..], given);
    }
  }

  // ---- exactly when a mapping covers ----

  ghost predicate Covered(host: Bindings, mapped: Bindings, port: Int) {
    Bound(host, port) || Mapped(mapped, port)
  }

  ghost predicate AllCovered(host: Bindings, mapped: Bindings, ports: seq<Int>) {
    forall i :: 0 <= i < |ports| ==> Covered(host, mapped, ports[i])
  }

  /**
   The port the system hands out is free, or takes a mapping that is not needed: its port
   is bound, was not seen, or comes again.
   */
  predicate Harmless(host: Bindings, mapped: Bindings, seen: set<Int>, later: seq<Int>, given: Int) {
    given in mapped ==> Bound(host, mapped[given]) || mapped[given] !in seen || mapped[given] in later
  }

  /** Along the walk, no handed-out port takes the mapping of an unbound port that was seen and does not come again. */
  predicate NothingLost(host: Bindings, mapped: Bindings, seen: set<Int>, ports: seq<Int>, given: seq<Int>)
    decreases |ports|
  {
    if ports == [] then true
    else
      var next := seen + {ports[0]};
      if Bound(host, ports[0]) || Mapped(mapped, ports[0]) then NothingLost(host, mapped, next, ports[1..], given)
      else if given == [] then true
      else
        && Harmless(host, mapped, seen, ports[1..], given[0])
        && NothingLost(host, mapped[given[0] := ports[0]], next, ports[1..], given[1..])
  }

  /** What was seen is covered, or comes again. */
  ghost predicate OnTrack(host: Bindings, mapped: Bindings, seen: set<Int>, ports: seq<Int>) {
    forall p :: p in seen ==> Covered(host, mapped, p) || p in ports
  }

  lemma MapStep(mapped: Bindings, g: Int, p: Int, q: Int)
    requires Single(mapped) && p != q
    ensures Mapped(mapped[g := p], q) <==> Mapped(mapped, q) && !(g in mapped && mapped[g] == q)
  {
    var next: Bindings := mapped[g := p];
    if Mapped(mapped, q) && !(g in mapped && mapped[g] == q) {
      var src :| src in mapped && mapped[src] == q;
      assert src in next && next[src] == q;
    }
    if Mapped(next, q) {
      var src :| src in next && next[src] == q;
      assert src in mapped && mapped[src] == q;
    }
  }

  lemma SkipOnTrack(host: Bindings, mapped: Bindings, seen: set<Int>, ports: seq<Int>)
    requires ports != [] && OnTrack(host, mapped, seen, ports) && Covered(host, mapped, ports[0])
    ensures OnTrack(host, mapped, seen + {ports[0]}, ports[1..])
  {
    forall p | p in seen + {ports[0]} ensures Covered(host, mapped, p) || p in ports[1..] {
      assert ports == [ports[0]] + ports[1..];
    }
  }

  /** A handed-out port keeps the walk on track exactly when it is harmless. */
  lemma MapOnTrack(host: Bindings, mapped: Bindings, seen: set<Int>, ports: seq<Int>, g: Int)
    requires ports != [] && OnTrack(host, mapped, seen, ports) && Single(mapped) && !Covered(host, mapped, ports[0])
    ensures OnTrack(host, mapped[g := ports[0]], seen + {ports[0]}, ports[1..]) <==>
        Harmless(host, mapped, seen, ports[1..], g)
  {
    var p, next: Bindings := ports[0], mapped[g := ports[0]];
    assert g in next && next[g] == p && Mapped(next, p);
    assert ports == [p] + ports[1..];
    forall q | q in seen && q != p ensures Covered(host, next, q) <==>
        Covered(host, mapped, q) && !(g in mapped && mapped[g] == q && !Bound(host, q)) {
      MapStep(mapped, g, p, q);
    }
    if g in mapped {
      assert Mapped(mapped, mapped[g]) && mapped[g] != p;
    }
  }

  lemma SingleStep(mapped: Bindings, g: Int, p: Int)
    requires Single(mapped) && !Mapped(mapped, p)
    ensures Single(mapped[g := p])
  {
  }

  /** A port that was lost and does not come again is not covered at the end. */
  lemma {:induction false} LostForGood(host: Bindings, mapped: Bindings, ports: seq<Int>, given: seq<Int>, p: Int)
    requires Single(mapped) && !Covered(host, mapped, p) && p !in ports
    ensures !Covered(host, Assign(host, mapped, ports, given), p)
    decreases |ports|
  {
    if ports != [] {
      if Bound(host, ports[0]) || Mapped(mapped, ports[0]) {
        LostForGood(host, mapped, ports[1..], given, p);
      } else if given != [] {
        MapStep(mapped, given[0], ports[0], p);
        SingleStep(mapped, given[0], ports[0]);
        LostForGood(host, mapped[given[0] := ports[0]], ports[1..], given[1..], p);
      }
    }
  }

  /** The walk ends with all that was seen covered exactly when nothing is lost on the way. */
  lemma {:induction false} WalkCoversExactly(host: Bindings, mapped: Bindings, seen: set<Int>, ports: seq<Int>,
                                             given: seq<Int>)
    requires Single(mapped) && Complete(host, mapped, ports, given) && OnTrack(host, mapped, seen, ports)
    ensures OnTrack(host, Assign(host, mapped, ports, given), Seen(seen, ports), []) <==>
        NothingLost(host, mapped, seen, ports, given)
    decreases |ports|
  {
    if ports != [] {
      var next := seen + {ports[0]};
      SeenStep(seen, ports);
      if Bound(host, ports[0]) || Mapped(mapped, ports[0]) {
        SkipOnTrack(host, mapped, seen, ports);
        WalkCoversExactly(host, mapped, next, ports[1..], given);
      } else {
        var after: Bindings := mapped[given[0] := ports[0]];
        MapOnTrack(host, mapped, seen, ports, given[0]);
        SingleStep(mapped, given[0], ports[0]);
        if OnTrack(host, after, next, ports[1..]) {
          WalkCoversExactly(host, after, next, ports[1..], given[1..]);
        } else {
          var p :| p in next && !Covered(host, after, p) && p !in ports[1..];
          LostForGood(host, after, ports[1..], given[1..], p);
          assert p in Seen(next, ports[1..]);
        }
      }
    }
  }

  ghost function Seen(seen: set<Int>, ports: seq<Int>): set<Int> {
    seen + set p | p in ports
  }

  lemma SeenStep(seen: set<Int>, ports: seq<Int>)
    requires ports != []
    ensures Seen(seen, ports) == Seen(seen + {ports[0]}, ports[1..])
  {
    assert ports == [ports[0]] + ports[1..];
  }

  /**
   An error-free mapping covers every exposed port if and only if no port the
   system hands out takes the mapping of an unbound exposed port that was already
   passed and does not come again.
   */
  lemma MappingCoversExactly(host: Bindings, mapped: Bindings, ports: seq<Int>, given: seq<Int>)
    requires Single(mapped) && Complete(host, mapped, ports, given)
    ensures AllCovered(host, Assign(host, mapped, ports, given), ports) <==> NothingLost(host, mapped, {}, ports, given)
  {
    var after := Assign(host, mapped, ports, given);
    WalkCoversExactly(host, mapped, {}, ports, given);
    if AllCovered(host, after, ports) {
      forall p | p in Seen({}, ports) ensures Covered(host, after, p) {
        var i :| 0 <= i < |ports| && ports[i] == p;
      }
    }
    if OnTrack(host, after, Seen({}, ports), []) {
      forall i | 0 <= i < |ports| ensures Covered(host, after, ports[i]) {
        assert ports[i] in Seen({}, ports);
      }
    }
  }

  /** Fresh ports lose nothing. */
  lemma {:induction false} FreshLosesNothing(host: Bindings, mapped: Bindings, seen: set<Int>, ports: seq<Int>,
                                             given: seq<Int>)
    requires FreshPorts(mapped, given)
    ensures NothingLost(host, mapped, seen, ports, given)
    decreases |ports|
  {
    if ports != [] {
      var next := seen + {ports[0]};
      if Bound(host, ports[0]) || Mapped(mapped, ports[0]) {
        FreshLosesNothing(host, mapped, next, ports[1..], given);
      } else if given != [] {
        FreshStep(mapped, given, ports[0]);
        FreshLosesNothing(host, mapped[given[0] := ports[0]], next, ports[1..], given[1..]);
      }
    }
  }

  /** A second call with something to hand out changes nothing exactly when all is covered. */
  lemma {:induction false} AssignChangesExactly(host: Bindings, mapped: Bindings, ports: seq<Int>, g: Int)
    ensures Assign(host, mapped, ports, [g]) == mapped <==> AllCovered(host, mapped, ports)
    decreases |ports|
  {
    if ports != [] {
      assert ports == [ports[0]] + ports[1..];
      if Bound(host, ports[0]) || Mapped(mapped, ports[0]) {
        AssignChangesExactly(host, mapped, ports[1..], g);
        assert AllCovered(host, mapped, ports) <==> AllCovered(host, mapped, ports[1..]) by {
          assert forall i :: 0 < i < |ports| ==> ports[i] == ports[1..][i - 1];
          assert Covered(host, mapped, ports[0]);
        }
      } else {
        var next: Bindings := mapped[g := ports[0]];
        assert [g][1..] == [];
        AssignNothing(host, next, ports[1..]);
        assert g in next && next[g] == ports[0];
        assert !Covered(host, mapped, ports[0]);
        assert next != mapped;
      }
    }
  }

  lemma {:induction false} AssignNothing(host: Bindings, mapped: Bindings, ports: seq<Int>)
    ensures Assign(host, mapped, ports, []) == mapped
    decreases |ports|
  {
    if ports != [] {
      AssignNothing(host, mapped, ports[1..]);
    }
  }

  /**
   After a mapping that lost nothing a second call changes nothing, in whatever order it
   sees the exposed ports - and only then.
   */
  lemma MappingIsIdempotent(host: Bindings, mapped: Bindings, texts: set<string>, ports: seq<Int>, given: seq<Int>)
    requires PortsOf(texts, ports) && Single(mapped) && Complete(host, mapped, ports, given)
    ensures var first := Assign(host, mapped, ports, given);
            NothingLost(host, mapped, {}, ports, given)
            <==> forall again, more :: PortsOf(texts, again) ==> Assign(host, first, again, more) == first
  {
    var first := Assign(host, mapped, ports, given);
    MappingCoversExactly(host, mapped, ports, given);
    if AllCovered(host, first, ports) {
      forall again, more | PortsOf(texts, again) ensures Assign(host, first, again, more) == first {
        SameCovered(host, first, texts, ports, again);
        AssignSettled(host, first, again, more);
      }
    }
    AssignChangesExactly(host, first, ports, 1);
  }

  lemma SameCovered(host: Bindings, mapped: Bindings, texts: set<string>, ports: seq<Int>, again: seq<Int>)
    requires PortsOf(texts, ports) && PortsOf(texts, again) && AllCovered(host, mapped, ports)
    ensures AllCovered(host, mapped, again)
  {
    forall i | 0 <= i < |again| ensures Covered(host, mapped, again[i]) {
      assert again[i] in again;
      assert Exposes(texts, again[i]);
      assert again[i] in ports;
    }
  }

  /** Each exposed port has an explicit binding or exactly one mapping. */
  lemma MappingIsExact(host: Bindings, mapped: Bindings, texts: set<string>, ports: seq<Int>, given: seq<Int>,
                       t: string)
    requires PortsOf(texts, ports) && Single(mapped)
    requires Complete(host, mapped, ports, given) && NothingLost(host, mapped, {}, ports, given)
    requires t in texts && GetTCPPort(t).Some?
    ensures var after, port := Assign(host, mapped, ports, given), GetTCPPort(t).value;
            || Bound(host, port)
            || exists src :: src in after && after[src] == port
                 && forall other :: other in after && after[other] == port ==> other == src
  {
    var after, port := Assign(host, mapped, ports, given), GetTCPPort(t).value;
    MappingCoversExactly(host, mapped, ports, given);
    AssignKeepsSingle(host, mapped, ports, given);
    assert Exposes(texts, port) && port in ports;
    assert Covered(host, after, port);
    if !Bound(host, port) {
      var src :| src in after && after[src] == port;
      assert forall other :: other in after && after[other] == port ==> other == src;
    }
  }

  /** Something can be lost, for any two ports: the mapping of the first is handed out again for the second. */
  lemma StaleMappingIsLost(src: Int, a: Int, b: Int)
    requires a != b
    ensures Complete(map[], map[src := a], [a, b], [src])
    ensures !NothingLost(map[], map[src := a], {}, [a, b], [src])
    ensures !Covered(map[], Assign(map[], map[src := a], [a, b], [src]), a)
  {
    var mapped: Bindings := map[src := a];
    var after: Bindings := mapped[src := b];
    assert mapped[src] == a && Mapped(mapped, a) && after[src] == b;
    assert !Mapped(mapped, b) && !Bound(map[], b) && !Bound(map[], a);
    assert [a, b][1..] == [b] && [b][1..] == [] && [src][1..] == [];
    assert Assign(map[], mapped, [a, b], [src]) == Assign(map[], mapped, [b], [src]);
    assert Assign(map[], mapped, [b], [src]) == Assign(map[], after, [], []) == after;
    assert Complete(map[], mapped, [b], [src]) && Complete(map[], mapped, [a, b], [src]);
    assert !Harmless(map[], mapped, {} + {a}, [], src);
    assert !NothingLost(map[], mapped, {} + {a}, [b], [src]);
  }

  // ---- the code ----

  /** `-n`, which wraps for the smallest integer. */
  function Negate(n: Int): Int {
    if n == MIN_INT64 then n else var m: int := n; -m
  }

  /** What the operating system hands out: None when no socket could be opened. */
  class System {
    ghost var log: seq<Option<Int>>

    /** A listening socket on a port the system picks; the open ones are not picked. */
    method Listen(open: set<Int>) returns (port: Option<Int>)
      modifies this
      ensures log == old(log) + [port]
      ensures port.Some? ==> 0 < port.value < 65536 && port.value !in open
    {
      port := None;
      if * {
        if exists p: Int :: 0 < p < 65536 && p !in open {
          var p: Int :| 0 < p < 65536 && p !in open;
          port := Some(p);
        }
      }
      log := log + [port];
    }
  }

  /** The ports, as the system handed them out. */
  function HandedOut(given: seq<Int>): (r: seq<Option<Int>>)
    ensures |r| == |given| && forall i :: 0 <= i < |given| ==> r[i] == Some(given[i])
  {
    if given == [] then [] else [Some(given[0])] + HandedOut(given[1..])
  }

  lemma HandedOutSnoc(given: seq<Int>, p: Int)
    ensures HandedOut(given + [p]) == HandedOut(given) + [Some(p)]
  {
    var a, b := HandedOut(given + [p]), HandedOut(given) + [Some(p)];
    assert forall i :: 0 <= i < |a| ==> a[i] == b[i];
  }

  class Container {
    var exposedPorts: set<string>
    var imagePorts: set<string>
    var hostPorts: Bindings
    var mappedPorts: Bindings
    var hostIP: string

    /** An empty or zero source binds no local port: it is kept as the negated port. */
    method AddHostPort(src: string, dst: string) returns (err: bool)
      modifies this`hostPorts
      ensures err <==> GetTCPPort(dst).None? || (src != "" && src != "0" && Atoi(src).None?)
      ensures err ==> hostPorts == old(hostPorts)
      ensures !err ==> var dp := GetTCPPort(dst).value;
                hostPorts == old(hostPorts)[(if src == "" || src == "0" then Negate(dp) else Atoi(src).value) := dp]
    {
      var dp := GetTCPPort(dst);
      if dp.None? {
        return true;
      }
      var sp: Int := 0;
      if src != "" && src != "0" {
        var n := Atoi(src);
        if n.None? {
          return true;
        }
        sp := n.value;
      } else {
        sp := Negate(dp.value);
      }
      hostPorts := hostPorts[sp := dp.value];
      return false;
    }

    method MapPort(local: Int, port: Int)
      modifies this`mappedPorts
      ensures mappedPorts == old(mappedPorts)[local := port]
    {
      mappedPorts := mappedPorts[local := port];
    }

    /** The sockets stay open until the end, so that no port is picked twice in one call. */
    method MapContainerTCPPorts(sys: System) returns (err: bool, ghost ports: seq<Int>, ghost given: seq<Int>)
      modifies this`mappedPorts, sys
      ensures sys.log == old(sys.log) + HandedOut(given) + if err then [None] else []
      ensures PortsOf(exposedPorts, ports)
      ensures mappedPorts == Assign(hostPorts, old(mappedPorts), ports, given)
      ensures !err ==> Complete(hostPorts, old(mappedPorts), ports, given)
      ensures forall i :: 0 <= i < |given| ==> 0 < given[i] < 65536
      ensures forall i, j :: 0 <= i < j < |given| ==> given[i] != given[j]
    {
      var list := GetTCPPorts(exposedPorts);
      ports, given := list, [];
      var open: set<Int> := {};
      ghost var before := sys.log;
      assert before + HandedOut([]) == before;
      var k := 0;
      while k < |list|
        invariant k <= |list| && hostPorts == old(hostPorts) && exposedPorts == old(exposedPorts)
        invariant sys.log == before + HandedOut(given)
        invariant Reaches(hostPorts, old(mappedPorts), list, k, given, mappedPorts)
        invariant forall i :: 0 <= i < |given| ==> 0 < given[i] < 65536 && given[i] in open
        invariant forall i, j :: 0 <= i < j < |given| ==> given[i] != given[j]
        decreases |list| - k
      {
        var pp := list[k];
        if Bound(hostPorts, pp) || Mapped(mappedPorts, pp) {
          ReachesSkip(hostPorts, old(mappedPorts), list, k, given, mappedPorts);
        } else {
          var port := sys.Listen(open);
          if port.None? {
            ReachesFails(hostPorts, old(mappedPorts), list, k, given, mappedPorts);
            return true, ports, given;
          }
          ReachesMap(hostPorts, old(mappedPorts), list, k, given, mappedPorts, port.value);
          HandedOutSnoc(given, port.value);
          assert before + (HandedOut(given) + [port]) == before + HandedOut(given) + [port];
          MapPort(port.value, pp);
          open := open + {port.value};
          given := given + [port.value];
        }
        k := k + 1;
      }
      assert list[..|list|] == list;
      assert sys.log + [] == sys.log;
      return false, ports, given;
    }
  }

  /** The loop has dealt with the first `k` ports. */
  ghost predicate Reaches(host: Bindings, from: Bindings, ports: seq<Int>, k: nat, given: seq<Int>, to: Bindings) {
    && k <= |ports|
    && Complete(host, from, ports[..k], given)
    && Assign(host, from, ports[..k], given) == to
  }

  /** Mapping a list is mapping its front and then its back. */
  lemma {:induction false} AssignConcat(host: Bindings, mapped: Bindings, a: seq<Int>, b: seq<Int>, g: seq<Int>,
                                        h: seq<Int>)
    requires Complete(host, mapped, a, g)
    ensures var mid := Assign(host, mapped, a, g);
            && Assign(host, mapped, a + b, g + h) == Assign(host, mid, b, h)
            && (Complete(host, mapped, a + b, g + h) <==> Complete(host, mid, b, h))
    decreases |a|
  {
    if a == [] {
      assert a + b == b && g + h == h;
    } else {
      assert (a + b)[1..] == a[1..] + b;
      if Bound(host, a[0]) || Mapped(mapped, a[0]) {
        AssignConcat(host, mapped, a[1..], b, g, h);
      } else {
        assert (g + h)[1..] == g[1..] + h;
        AssignConcat(host, mapped[g[0] := a[0]], a[1..], b, g[1..], h);
      }
    }
  }

  lemma ReachesSkip(host: Bindings, from: Bindings, ports: seq<Int>, k: nat, given: seq<Int>, to: Bindings)
    requires Reaches(host, from, ports, k, given, to) && k < |ports|
    requires Bound(host, ports[k]) || Mapped(to, ports[k])
    ensures Reaches(host, from, ports, k + 1, given, to)
  {
    assert ports[..k + 1] == ports[..k] + [ports[k]] && given + [] == given;
    AssignConcat(host, from, ports[..k], [ports[k]], given, []);
    assert [ports[k]][1..] == [];
  }

  lemma ReachesMap(host: Bindings, from: Bindings, ports: seq<Int>, k: nat, given: seq<Int>, to: Bindings, port: Int)
    requires Reaches(host, from, ports, k, given, to) && k < |ports|
    requires !Bound(host, ports[k]) && !Mapped(to, ports[k])
    ensures Reaches(host, from, ports, k + 1, given + [port], to[port := ports[k]])
  {
    assert ports[..k + 1] == ports[..k] + [ports[k]];
    AssignConcat(host, from, ports[..k], [ports[k]], given, [port]);
    assert [ports[k]][1..] == [] && [port][1..] == [];
  }

  lemma ReachesFails(host: Bindings, from: Bindings, ports: seq<Int>, k: nat, given: seq<Int>, to: Bindings)
    requires Reaches(host, from, ports, k, given, to) && k < |ports|
    requires !Bound(host, ports[k]) && !Mapped(to, ports[k])
    ensures Assign(host, from, ports, given) == to
  {
    assert ports == ports[..k] + ports[k..] && given + [] == given;
    AssignConcat(host, from, ports[..k], ports[k..], given, []);
  }
}
