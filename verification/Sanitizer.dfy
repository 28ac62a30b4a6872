/**
 Turning arbitrary text into Kubernetes label keys, label values and object
 names: three replacement passes, with a cut to 63 bytes after every pass.
 */
module Sanitizer {
  import opened Text

  const MAX_LENGTH := 63

  function Default(k: Kind): string {
    if k == Name then "undef" else ""
  }

  /** A regular expression whose matches are removed: `^[x]+`, `[x]` or `[x]*$`. */
  datatype Pattern = Leading(x: Class) | Anywhere(x: Class) | Trailing(x: Class)

  function Remove(v: string, pattern: Pattern): string {
    match pattern
    case Leading(x) => DropLeading(v, x)
    case Anywhere(x) => Without(v, x)
    case Trailing(x) => DropTrailing(v, x)
  }

  function RemoveAll(v: string, patterns: seq<Pattern>): string
    decreases |patterns|
  {
    if patterns == [] then v else RemoveAll(Take(Remove(v, patterns[0]), MAX_LENGTH), patterns[1..])
  }

  function Patterns(k: Kind): seq<Pattern> {
    [Leading(NotAlnum), Anywhere(NotAllowed(k)), Trailing(Separator(k))]
  }

  /** The code: one pass after another. */
  method ReplaceValueWithPatterns(v: string, def: string, patterns: seq<Pattern>) returns (r: string)
    ensures r == if RemoveAll(v, patterns) == "" then def else RemoveAll(v, patterns)
  {
    r := v;
    for i := 0 to |patterns|
      invariant RemoveAll(r, patterns[i..]) == RemoveAll(v, patterns)
    {
      assert patterns[i..][1..] == patterns[i + 1..];
      r := Remove(r, patterns[i]);
      if |r| > MAX_LENGTH {
        r := r[..MAX_LENGTH];
      }
    }
    if r == "" {
      r := def;
    }
  }

  method ToKubernetes(k: Kind, v: string) returns (r: string)
    ensures r == Sanitize(k, v)
  {
    r := ReplaceValueWithPatterns(v, Default(k), Patterns(k));
    CleanIsRemoveAll(k, v);
  }

  // ---- the grammar ----

  /** The text of the kind: what Kubernetes accepts. */
  ghost predicate Conforms(k: Kind, s: string) {
    && |s| <= MAX_LENGTH
    && (forall i :: 0 <= i < |s| ==>
          || 'a' <= s[i] <= 'z' || 'A' <= s[i] <= 'Z' || '0' <= s[i] <= '9' || s[i] == '-'
          || (s[i] == '.' && k != Name) || (s[i] == '/' && k == Key))
    && (s != "" ==> IsAlnum(s[0]) && IsAlnum(s[|s| - 1]))
  }

  /** The three passes; a cut of what is already short enough does nothing. */
  function Clean(k: Kind, v: string): string {
    DropTrailing(Without(Take(DropLeading(v, NotAlnum), MAX_LENGTH), NotAllowed(k)), Separator(k))
  }

  function Sanitize(k: Kind, v: string): string {
    if Clean(k, v) == "" then Default(k) else Clean(k, v)
  }

  lemma CleanIsRemoveAll(k: Kind, v: string)
    ensures RemoveAll(v, Patterns(k)) == Clean(k, v)
  {
    var ps := Patterns(k);
    assert ps[1..] == [ps[1], ps[2]] && ps[1..][1..] == [ps[2]] && ps[1..][1..][1..] == [];
  }

  lemma CleanEmpty(k: Kind, v: string)
    ensures Clean(k, v) == "" <==> DropLeading(v, NotAlnum) == ""
  {
    var v0 := DropLeading(v, NotAlnum);
    if v0 != "" {
      var v1 := Take(v0, MAX_LENGTH);
      assert v1[0] == v0[0];
      assert !In(v1[0], NotAllowed(k)) && !In(v1[0], Separator(k));
    }
  }

  lemma CleanConforms(k: Kind, v: string)
    ensures Conforms(k, Clean(k, v))
    ensures Clean(k, v) != "" <==> HasAlnum(v)
  {
    NothingUsable(v);
    CleanEmpty(k, v);
    var v0 := DropLeading(v, NotAlnum);
    if v0 != "" {
      var v1 := Take(v0, MAX_LENGTH);
      var v2 := Without(v1, NotAllowed(k));
      var r := DropTrailing(v2, Separator(k));
      assert r[0] == v2[0] == v1[0] == v0[0];
      forall i | 0 <= i < |r| ensures Allowed(k, r[i]) {
        assert !In(v2[i], NotAllowed(k));
      }
    }
  }

  /** Sanitizing invents nothing: every character of the result was there, and is allowed. */
  lemma CleanInvents(k: Kind, v: string, c: char)
    requires c in Clean(k, v)
    ensures c in v && Allowed(k, c)
  {
    var v0 := DropLeading(v, NotAlnum);
    var v1 := Take(v0, MAX_LENGTH);
    DropLeadingSuffix(v, NotAlnum);
    assert c in Without(v1, NotAllowed(k));
    WithoutInvents(v1, NotAllowed(k), c);
    assert c in v1 && c in v0;
  }

  /** Characters that are not allowed vanish, and leave nothing in their place: between two conforming texts, say. */
  lemma RemovedLeavesNothing(k: Kind, a: string, c: char, b: string)
    requires Conforms(k, a) && Conforms(k, b) && a != "" && b != "" && |a| + |b| < MAX_LENGTH && !Allowed(k, c)
    ensures Clean(k, a + [c] + b) == a + b
  {
    var v := a + [c] + b;
    assert v[0] == a[0] && !In(v[0], NotAlnum);
    assert NoneIn(a, NotAllowed(k)) && NoneIn(b, NotAllowed(k));
    WithoutMiddle(a, c, b, NotAllowed(k));
    NothingTrails(k, a, b);
  }

  lemma NothingTrails(k: Kind, a: string, b: string)
    requires Conforms(k, b) && b != ""
    ensures DropTrailing(a + b, Separator(k)) == a + b
  {
    assert (a + b)[|a + b| - 1] == b[|b| - 1];
  }

  /** A text passes unchanged exactly when it already is of the kind. */
  lemma CleanFixes(k: Kind, s: string)
    ensures Clean(k, s) == s <==> Conforms(k, s)
  {
    if Conforms(k, s) {
      assert NoneIn(s, NotAllowed(k));
      assert s != "" ==> !In(s[0], NotAlnum) && !In(s[|s| - 1], Separator(k));
    } else {
      CleanConforms(k, s);
    }
  }

  /**
   The result always is of the kind, and is the default ("" for keys and values,
   "undef" for names) exactly when nothing usable was given - or "undef" itself.
   */
  lemma SanitizeConforms(k: Kind, v: string)
    ensures Conforms(k, Sanitize(k, v))
    ensures k != Name ==> (Sanitize(k, v) == "" <==> !HasAlnum(v))
    ensures k == Name ==> Sanitize(k, v) != "" && (!HasAlnum(v) ==> Sanitize(k, v) == "undef")
  {
    CleanConforms(k, v);
    UndefIsName();
  }

  lemma UndefIsName()
    ensures Conforms(Name, "undef")
  {
    var s := "undef";
    assert Allowed(Name, s[0]) && Allowed(Name, s[1]) && Allowed(Name, s[2]) && Allowed(Name, s[3]) &&
        Allowed(Name, s[4]);
  }

  /** Sanitizing leaves a text alone exactly when it is of the kind (and, for names, not empty). */
  lemma SanitizeFixes(k: Kind, s: string)
    ensures Sanitize(k, s) == s <==> Conforms(k, s) && (k == Name ==> s != "")
  {
    CleanFixes(k, s);
    SanitizeConforms(k, s);
    UndefIsName();
  }

  lemma SanitizeIdempotent(k: Kind, v: string)
    ensures Sanitize(k, Sanitize(k, v)) == Sanitize(k, v)
  {
    SanitizeConforms(k, v);
    SanitizeFixes(k, Sanitize(k, v));
  }
}
