/**
 The string operations the naming rules are built from. A Go string is a
 sequence of bytes; each `char` stands for one byte. The patterns used only keep
 ASCII characters, so that a byte of a multi-byte character is never kept.
 */
module Text {
  predicate IsDigit(c: char) {
    '0' <= c <= '9'
  }

  predicate IsLower(c: char) {
    'a' <= c <= 'z'
  }

  predicate IsUpper(c: char) {
    'A' <= c <= 'Z'
  }

  predicate IsAlnum(c: char) {
    IsDigit(c) || IsLower(c) || IsUpper(c)
  }

  /** What a text is sanitized for: a label key, a label value or an object name. */
  datatype Kind = Key | Value | Name

  /** The characters the rules remove. */
  datatype Class = NotAlnum | NotAllowed(k: Kind) | Separator(k: Kind)

  predicate In(c: char, x: Class) {
    match x
    case NotAlnum => !IsAlnum(c)
    case NotAllowed(k) => !Allowed(k, c)
    case Separator(k) => c == '-' || c == '_' || c == '.' || (c == '/' && k == Key)
  }

  predicate Allowed(k: Kind, c: char) {
    || IsAlnum(c) || c == '-'
    || (c == '.' && k != Name)
    || (c == '/' && k == Key)
  }

  ghost predicate NoneIn(s: string, x: Class) {
    forall i :: 0 <= i < |s| ==> !In(s[i], x)
  }

  /** `s` without its leading run of characters in `x`. */
  function DropLeading(s: string, x: Class): (r: string)
    ensures |r| <= |s|
    ensures r != [] ==> !In(r[0], x)
  {
    if s != [] && In(s[0], x) then DropLeading(s[1..], x) else s
  }

  /** What was dropped is in `x`, and nothing else was touched. */
  lemma {:induction false} DropLeadingSuffix(s: string, x: Class)
    ensures DropLeading(s, x) == s[|s| - |DropLeading(s, x)|..]
    ensures forall i :: 0 <= i < |s| - |DropLeading(s, x)| ==> In(s[i], x)
  {
    if s != [] && In(s[0], x) {
      DropLeadingSuffix(s[1..], x);
    }
  }

  ghost predicate HasAlnum(s: string) {
    exists i :: 0 <= i < |s| && IsAlnum(s[i])
  }

  lemma NothingUsable(v: string)
    ensures DropLeading(v, NotAlnum) == "" <==> !HasAlnum(v)
  {
    var v0 := DropLeading(v, NotAlnum);
    DropLeadingSuffix(v, NotAlnum);
    if v0 != "" {
      assert IsAlnum(v[|v| - |v0|]);
    }
  }

  /** `s` without its trailing run of characters in `x`. */
  function DropTrailing(s: string, x: Class): (r: string)
    ensures r <= s
    ensures forall i :: |r| <= i < |s| ==> In(s[i], x)
    ensures r != [] ==> !In(r[|r| - 1], x)
  {
    if s != [] && In(s[|s| - 1], x) then DropTrailing(s[..|s| - 1], x) else s
  }

  /** `s` without any of its characters in `x`. */
  function Without(s: string, x: Class): (r: string)
    ensures |r| <= |s|
    ensures NoneIn(r, x)
    ensures NoneIn(s, x) ==> r == s
    ensures s != [] && !In(s[0], x) ==> r != [] && r[0] == s[0]
  {
    if s == [] then [] else (if In(s[0], x) then [] else [s[0]]) + Without(s[1..], x)
  }

  /** A character in the class leaves nothing, any other leaves itself. */
  lemma WithoutOne(c: char, x: Class)
    ensures Without([c], x) == if In(c, x) then [] else [c]
  {
    assert [c][1..] == [];
  }

  /** And a text is treated character by character. */
  lemma {:induction false} WithoutConcat(a: string, b: string, x: Class)
    ensures Without(a + b, x) == Without(a, x) + Without(b, x)
  {
    if a == [] {
      assert a + b == b;
    } else {
      assert (a + b)[1..] == a[1..] + b;
      WithoutConcat(a[1..], b, x);
    }
  }

  /** Between two texts without such characters, one of them vanishes. */
  lemma WithoutMiddle(a: string, c: char, b: string, x: Class)
    requires NoneIn(a, x) && NoneIn(b, x) && In(c, x)
    ensures Without(a + [c] + b, x) == a + b
  {
    WithoutConcat(a + [c], b, x);
    WithoutConcat(a, [c], x);
    WithoutOne(c, x);
    assert a + [] == a;
  }

  lemma {:induction false} WithoutInvents(s: string, x: Class, c: char)
    requires c in Without(s, x)
    ensures c in s && !In(c, x)
  {
    if s != [] && !(c == s[0] && !In(c, x)) {
      WithoutInvents(s[1..], x, c);
    }
  }

  function Take(s: string, n: nat): (r: string)
    ensures r <= s && |r| <= n
    ensures |s| <= n ==> r == s
  {
    if |s| > n then s[..n] else s
  }

  function LowerChar(c: char): char {
    if IsUpper(c) then 'a' + (c - 'A') else c
  }

  function Lower(s: string): (r: string)
    ensures |r| == |s|
    ensures forall i :: 0 <= i < |s| ==> r[i] == LowerChar(s[i])
  {
    if s == [] then [] else [LowerChar(s[0])] + Lower(s[1..])
  }

  function ReplaceChar(s: string, a: char, b: char): (r: string)
    ensures |r| == |s|
    ensures forall i :: 0 <= i < |s| ==> r[i] == if s[i] == a then b else s[i]
  {
    if s == [] then [] else [if s[0] == a then b else s[0]] + ReplaceChar(s[1..], a, b)
  }
}
