/** The pod name of a container: readable, and carrying the short id at its end. */
module PodName {
  import opened Common
  import opened StringId
  import opened Text

  const NAME_LENGTH := 32
  const MAX_POD_NAME := 45

  /** `strings.ReplaceAll(s, "--", "-")` */
  function Collapse(s: string): (r: string)
    ensures |r| <= |s|
    decreases |s|
  {
    if s == "" then ""
    else if |s| >= 2 && s[0] == '-' && s[1] == '-' then "-" + Collapse(s[2..])
    else [s[0]] + Collapse(s[1..])
  }

  /** The part in front of the short id, before it is joined to it. */
  function Readable(name: string, prefix: Option<string>): (r: string)
    ensures |r| <= NAME_LENGTH
  {
    var full := (if prefix.Some? then prefix.value + "-" else "kubedock-") + name;
    Take(Without(ReplaceChar(full, '_', '-'), NotAllowed(Name)), NAME_LENGTH)
  }

  function GetPodName(name: string, prefix: Option<string>, shortID: string): string {
    Lower(DropLeading(Collapse(Readable(name, prefix) + "-" + shortID), NotAlnum))
  }

  /** A short id as the database makes them. */
  ghost predicate ValidShort(s: string) {
    |s| == SHORT_LENGTH && AllHex(s)
  }

  /** A host label: letters (lower case), digits and hyphens, no hyphen at either end. */
  ghost predicate HostLabel(s: string) {
    && s != ""
    && (forall i :: 0 <= i < |s| ==> IsLower(s[i]) || IsDigit(s[i]) || s[i] == '-')
    && s[0] != '-' && s[|s| - 1] != '-'
  }

  /** The name is the bare short id, or ends in a hyphen and the short id. */
  ghost predicate EndsInShort(s: string, shortID: string) {
    s == shortID || exists front: string :: s == front + "-" + shortID
  }

  ghost predicate NoDash(s: string) {
    forall i :: 0 <= i < |s| ==> s[i] != '-'
  }

  /** Letters, digits and hyphens only. */
  ghost predicate Plain(s: string) {
    forall i :: 0 <= i < |s| ==> Allowed(Name, s[i])
  }

  lemma {:induction false} CollapseNoDash(s: string)
    requires NoDash(s)
    ensures Collapse(s) == s
  {
    if s != "" {
      CollapseNoDash(s[1..]);
    }
  }

  lemma {:induction false} CollapsePlain(s: string)
    requires Plain(s)
    ensures Plain(Collapse(s))
    decreases |s|
  {
    if s != "" {
      CollapsePlain(if |s| >= 2 && s[0] == '-' && s[1] == '-' then s[2..] else s[1..]);
    }
  }

  ghost predicate EndsInDash(s: string) {
    s != "" && s[|s| - 1] == '-'
  }

  lemma CollapsePair(rest: string)
    ensures Collapse("--" + rest) == "-" + Collapse(rest)
  {
    assert ("--" + rest)[2..] == rest;
  }

  lemma CollapseOne(c: char, rest: string)
    requires c != '-' || rest == "" || rest[0] != '-'
    ensures Collapse([c] + rest) == [c] + Collapse(rest)
  {
    assert ([c] + rest)[1..] == rest;
  }

  /** Collapsing `front + id` stays within `front`, and leaves a hyphen at its end. */
  ghost predicate Splits(front: string, id: string) {
    Collapse(front + id) == Collapse(front) + id && EndsInDash(Collapse(front))
  }

  lemma SplitsPair(rest: string, id: string)
    requires Splits(rest, id)
    ensures Splits("--" + rest, id)
  {
    CollapsePair(rest);
    CollapsePair(rest + id);
    assert ("--" + rest) + id == "--" + (rest + id);
  }

  lemma SplitsOne(c: char, rest: string, id: string)
    requires Splits(rest, id) && rest != ""
    requires c != '-' || rest[0] != '-'
    ensures Splits([c] + rest, id)
  {
    var all := rest + id;
    assert all[0] == rest[0];
    CollapseOne(c, rest);
    CollapseOne(c, all);
    Prepend(c, rest, id);
    Prepend(c, Collapse(rest), id);
  }

  lemma Prepend(c: char, a: string, b: string)
    ensures ([c] + a) + b == [c] + (a + b)
    ensures EndsInDash(a) ==> EndsInDash([c] + a)
  {
  }

  lemma SplitsLast(id: string)
    requires id != "" && NoDash(id)
    ensures Splits("-", id) && Splits("--", id)
  {
    CollapseNoDash(id);
    CollapseOne('-', "");
    CollapseOne('-', id);
    CollapsePair("");
    CollapsePair(id);
    assert ['-'] + "" == "-" && "--" + "" == "--";
  }

  /** Collapsing never reaches the short id. */
  lemma {:induction false} CollapseSplits(front: string, id: string)
    requires EndsInDash(front)
    requires id != "" && NoDash(id)
    ensures Splits(front, id)
    decreases |front|
  {
    SplitsLast(id);
    if |front| == 1 {
      assert front == "-";
    } else if front[0] == '-' && front[1] == '-' {
      assert front == "--" + front[2..];
      if |front| > 2 {
        CollapseSplits(front[2..], id);
        SplitsPair(front[2..], id);
      }
    } else {
      assert front == [front[0]] + front[1..];
      CollapseSplits(front[1..], id);
      SplitsOne(front[0], front[1..], id);
    }
  }

  /** Dropping the leading hyphens leaves the short id whole. */
  lemma {:induction false} DropSplits(front: string, id: string)
    requires EndsInDash(front)
    requires id != "" && IsAlnum(id[0])
    ensures DropLeading(front + id, NotAlnum) == DropLeading(front, NotAlnum) + id
  {
    var c, rest := front[0], front[1..];
    assert front == [c] + rest;
    if In(c, NotAlnum) {
      if rest == "" {
        DropOne(c, "");
        DropOne(c, id);
      } else {
        DropSplits(rest, id);
        DropOne(c, rest);
        DropOne(c, rest + id);
        assert ([c] + rest) + id == [c] + (rest + id);
      }
    }
  }

  lemma DropOne(c: char, rest: string)
    requires In(c, NotAlnum)
    ensures DropLeading([c] + rest, NotAlnum) == DropLeading(rest, NotAlnum)
  {
    assert ([c] + rest)[1..] == rest;
  }

  lemma LowerConcat(a: string, b: string)
    ensures Lower(a + b) == Lower(a) + Lower(b)
  {
  }

  lemma LowerHex(s: string)
    requires AllHex(s)
    ensures Lower(s) == s
  {
  }

  /** What the front of a pod name is: nothing, or text that starts alphanumeric and ends in a hyphen. */
  ghost predicate Front(front: string) {
    Plain(front) && (front != "" ==> IsAlnum(front[0]) && EndsInDash(front))
  }

  lemma ReadableIsPlain(name: string, prefix: Option<string>)
    ensures Plain(Readable(name, prefix) + "-")
  {
    var s := Readable(name, prefix);
    forall i | 0 <= i < |s| ensures Allowed(Name, s[i]) {
      var full := (if prefix.Some? then prefix.value + "-" else "kubedock-") + name;
      assert !In(Without(ReplaceChar(full, '_', '-'), NotAllowed(Name))[i], NotAllowed(Name));
    }
  }

  lemma DropLeavesFront(s: string)
    requires Plain(s) && EndsInDash(s)
    ensures Front(DropLeading(s, NotAlnum))
  {
    DropLeadingSuffix(s, NotAlnum);
  }

  lemma PodNameParts(name: string, prefix: Option<string>, id: string) returns (front: string)
    requires ValidShort(id)
    ensures |front| <= NAME_LENGTH + 1 && Front(front)
    ensures GetPodName(name, prefix, id) == Lower(front) + id
    ensures front == DropLeading(Collapse(Readable(name, prefix) + "-"), NotAlnum)
  {
    var readable := Readable(name, prefix) + "-";
    assert IsHex(id[0]);
    ReadableIsPlain(name, prefix);
    CollapsePlain(readable);
    CollapseSplits(readable, id);
    DropSplits(Collapse(readable), id);
    front := DropLeading(Collapse(readable), NotAlnum);
    DropLeavesFront(Collapse(readable));
    LowerConcat(front, id);
    LowerHex(id);
  }

  /** Every pod name is a host label (section 2.1 of RFC 1123) of at most 45 characters, and ends in the short id. */
  lemma PodNameIsHostLabel(name: string, prefix: Option<string>, id: string)
    requires ValidShort(id)
    ensures |GetPodName(name, prefix, id)| <= MAX_POD_NAME
    ensures HostLabel(GetPodName(name, prefix, id))
    ensures EndsInShort(GetPodName(name, prefix, id), id)
  {
    var front := PodNameParts(name, prefix, id);
    HostLabelParts(front, id);
  }

  lemma HostLabelParts(front: string, id: string)
    requires Front(front) && ValidShort(id)
    ensures HostLabel(Lower(front) + id) && EndsInShort(Lower(front) + id, id)
  {
    LabelChars(front, id);
    var l := Lower(front);
    assert IsHex(id[0]) && IsHex(id[|id| - 1]);
    if front == "" {
      assert l + id == id;
    } else {
      assert l + id == l[..|l| - 1] + "-" + id;
    }
  }

  lemma LabelChars(front: string, id: string)
    requires Plain(front) && AllHex(id)
    ensures forall i :: 0 <= i < |Lower(front) + id| ==>
              IsLower((Lower(front) + id)[i]) || IsDigit((Lower(front) + id)[i]) || (Lower(front) + id)[i] == '-'
  {
    var l := Lower(front);
    forall i | 0 <= i < |l + id| ensures IsLower((l + id)[i]) || IsDigit((l + id)[i]) || (l + id)[i] == '-' {
      if i < |l| {
        assert Allowed(Name, front[i]);
      } else {
        assert IsHex(id[i - |l|]);
      }
    }
  }

  lemma {:induction false} CollapseKeepsAlnum(s: string)
    ensures HasAlnum(Collapse(s)) <==> HasAlnum(s)
    decreases |s|
  {
    if s != "" {
      var pair := |s| >= 2 && s[0] == '-' && s[1] == '-';
      var front, rest := if pair then s[..2] else s[..1], if pair then s[2..] else s[1..];
      CollapseKeepsAlnum(rest);
      AlnumConcat(front, rest);
      AlnumConcat([s[0]], Collapse(rest));
      assert s == front + rest;
      assert Collapse(s) == [s[0]] + Collapse(rest);
      assert [s[0]][0] == front[0] == s[0];
      assert HasAlnum(front) <==> HasAlnum([s[0]]);
    }
  }

  lemma AlnumConcat(a: string, b: string)
    ensures HasAlnum(a + b) <==> HasAlnum(a) || HasAlnum(b)
  {
    var c := a + b;
    if HasAlnum(a) {
      var i :| 0 <= i < |a| && IsAlnum(a[i]);
      assert IsAlnum(c[i]);
    }
    if HasAlnum(b) {
      var i :| 0 <= i < |b| && IsAlnum(b[i]);
      assert IsAlnum(c[|a| + i]);
    }
  }

  /** A pod name is the bare short id exactly when nothing alphanumeric is left of name and prefix. */
  lemma BareNameExactly(name: string, prefix: Option<string>, id: string)
    requires ValidShort(id)
    ensures GetPodName(name, prefix, id) == id <==> !HasAlnum(Readable(name, prefix))
  {
    var front := PodNameParts(name, prefix, id);
    var readable := Readable(name, prefix);
    NothingUsable(Collapse(readable + "-"));
    CollapseKeepsAlnum(readable + "-");
    AlnumConcat(readable, "-");
    if front == "" {
      assert Lower(front) + id == id;
    }
  }

  /** Without a prefix label that never happens, whatever the name. */
  lemma DefaultNameIsNotBare(name: string, id: string)
    requires ValidShort(id)
    ensures GetPodName(name, None, id) != id
  {
    var full := "kubedock-" + name;
    var kept := ReplaceChar(full, '_', '-');
    assert kept[0] == 'k';
    assert Without(kept, NotAllowed(Name))[0] == 'k';
    assert IsAlnum(Readable(name, None)[0]);
    BareNameExactly(name, None, id);
  }

  lemma {:induction false} CollapseSingle(s: string)
    requires NoDoubleDash(s)
    ensures Collapse(s) == s
  {
    if s != "" {
      CollapseSingle(s[1..]);
    }
  }

  /** Prefix and name, as the pod name shows them: joined by a hyphen, and with hyphens for underscores. */
  ghost function Shown(name: string, prefix: Option<string>): string {
    ReplaceChar((if prefix.Some? then prefix.value else "kubedock") + "-" + name, '_', '-')
  }

  ghost predicate NoDoubleDash(s: string) {
    forall i :: 0 <= i < |s| - 1 ==> s[i] != '-' || s[i + 1] != '-'
  }

  /**
   A pod name shows the name of its container: for names of letters, digits, hyphens and
   underscores, without two of the latter in a row and short enough with the prefix, it
   is prefix, name and short id, joined by hyphens, in lower case.
   */
  lemma NameIsShown(name: string, prefix: Option<string>, id: string)
    requires ValidShort(id)
    requires var full := Shown(name, prefix);
             Plain(full) && |full| <= NAME_LENGTH && IsAlnum(full[0]) && full[|full| - 1] != '-' && NoDoubleDash(full)
    ensures GetPodName(name, prefix, id) == Lower(Shown(name, prefix)) + "-" + id
  {
    var full := Shown(name, prefix);
    FullIsReadable(name, prefix);
    var all := full + "-" + id;
    NoDoubles(full, id);
    CollapseSingle(all);
    assert DropLeading(all, NotAlnum) == all;
    LowerJoined(full, id);
  }

  lemma LowerJoined(full: string, id: string)
    requires AllHex(id)
    ensures Lower(full + "-" + id) == Lower(full) + "-" + id
  {
    LowerConcat(full + "-", id);
    LowerConcat(full, "-");
    LowerHex(id);
    assert Lower("-") == "-";
  }

  lemma NoDoubles(full: string, id: string)
    requires ValidShort(id) && full != "" && full[|full| - 1] != '-' && NoDoubleDash(full)
    ensures NoDoubleDash(full + "-" + id)
  {
    var all := full + "-" + id;
    forall i | 0 <= i < |all| - 1 ensures all[i] != '-' || all[i + 1] != '-' {
      if i >= |full| {
        assert all[i + 1] == id[i - |full|] && IsHex(id[i - |full|]);
      } else {
        assert all[i] == full[i];
      }
    }
  }

  lemma FullIsReadable(name: string, prefix: Option<string>)
    requires Plain(Shown(name, prefix)) && |Shown(name, prefix)| <= NAME_LENGTH
    ensures Readable(name, prefix) == Shown(name, prefix)
  {
    assert (if prefix.Some? then prefix.value + "-" else "kubedock-")
        == (if prefix.Some? then prefix.value else "kubedock") + "-" by {
      assert "kubedock" + "-" == "kubedock-";
    }
    assert NoneIn(Shown(name, prefix), NotAllowed(Name));
  }

  /** Different containers never share a pod name. */
  lemma PodNamesDistinct(name1: string, prefix1: Option<string>, id1: string, name2: string, prefix2: Option<string>,
                         id2: string)
    requires ValidShort(id1) && ValidShort(id2)
    ensures GetPodName(name1, prefix1, id1) == GetPodName(name2, prefix2, id2) ==> id1 == id2
  {
    var front1 := PodNameParts(name1, prefix1, id1);
    var front2 := PodNameParts(name2, prefix2, id2);
    if Lower(front1) + id1 == Lower(front2) + id2 {
      assert (Lower(front1) + id1)[|front1|..] == id1;
      assert (Lower(front2) + id2)[|front2|..] == id2;
    }
  }

  // ---- reading the short id back ----

  /** The last part of `strings.Split(s, "-")`. */
  function LastPart(s: string): (r: string)
    ensures NoDash(r)
  {
    if s == "" || s[|s| - 1] == '-' then "" else LastPart(s[..|s| - 1]) + [s[|s| - 1]]
  }

  lemma {:induction false} LastPartOfJoin(front: string, id: string)
    requires EndsInDash(front) && NoDash(id)
    ensures LastPart(front + id) == id
  {
    if id == "" {
      assert front + id == front;
    } else {
      assert (front + id)[..|front + id| - 1] == front + id[..|id| - 1];
      LastPartOfJoin(front, id[..|id| - 1]);
    }
  }

  /** The pod name is the bare short id, or has a hyphen and its last part is the short id. */
  lemma PodNameReadsBack(name: string, prefix: Option<string>, id: string)
    requires ValidShort(id)
    ensures var pod := GetPodName(name, prefix, id);
            || pod == id
            || ('-' in pod && !IsShortID(pod) && LastPart(pod) == id)
  {
    var front := PodNameParts(name, prefix, id);
    assert NoDash(id);
    if front == "" {
      assert Lower(front) + id == id;
    } else {
      var l := Lower(front);
      LastPartOfJoin(l, id);
      assert (l + id)[|l| - 1] == '-';
    }
  }
}
