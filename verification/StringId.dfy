/** Random identifiers and their short form. */
module StringId {
  import opened Common
  import opened Text

  const SHORT_LENGTH := 12
  const ID_LENGTH := 64

  predicate IsHex(c: char) {
    IsDigit(c) || 'a' <= c <= 'f'
  }

  ghost predicate AllHex(s: string) {
    forall i :: 0 <= i < |s| ==> IsHex(s[i])
  }

  function AllHexCheck(s: string): (b: bool)
    ensures b <==> AllHex(s)
  {
    s == [] || (IsHex(s[0]) && AllHexCheck(s[1..]))
  }

  /** `^[a-f0-9]{12}$` */
  predicate IsShortID(id: string) {
    |id| == SHORT_LENGTH && AllHexCheck(id)
  }

  /** The position of the first colon, or the length. */
  function ColonIndex(s: string): (k: nat)
    ensures k <= |s|
    ensures k < |s| ==> s[k] == ':'
    ensures forall i :: 0 <= i < k ==> s[i] != ':'
  {
    if s == [] || s[0] == ':' then 0 else 1 + ColonIndex(s[1..])
  }

  function TruncateID(id: string): (short: string)
    ensures |short| <= SHORT_LENGTH
  {
    var k := ColonIndex(id);
    var rest := if k < |id| then id[k + 1..] else id;
    if |rest| > SHORT_LENGTH then rest[..SHORT_LENGTH] else rest
  }

  function HexDigit(n: nat): (c: char)
    requires n < 16
    ensures IsHex(c)
  {
    if n < 10 then '0' + n as char else 'a' + (n - 10) as char
  }

  function EncodeToString(bytes: seq<Byte>): (s: string)
    ensures |s| == 2 * |bytes| && AllHex(s)
  {
    if bytes == [] then []
    else [HexDigit(bytes[0] / 16), HexDigit(bytes[0] % 16)] + EncodeToString(bytes[1..])
  }

  lemma DigitReadsBack(m: nat, n: nat)
    requires m < 16 && n < 16
    ensures HexDigit(m) == HexDigit(n) ==> m == n
  {
  }

  /** Different bytes make different texts, so that different draws make different ids. */
  lemma {:induction false} EncodingIsInjective(a: seq<Byte>, b: seq<Byte>)
    ensures EncodeToString(a) == EncodeToString(b) ==> a == b
  {
    var x, y := EncodeToString(a), EncodeToString(b);
    if a != [] && b != [] && x == y {
      assert x[0] == HexDigit(a[0] / 16) && x[1] == HexDigit(a[0] % 16) && x[2..] == EncodeToString(a[1..]);
      assert y[0] == HexDigit(b[0] / 16) && y[1] == HexDigit(b[0] % 16) && y[2..] == EncodeToString(b[1..]);
      DigitReadsBack(a[0] / 16, b[0] / 16);
      DigitReadsBack(a[0] % 16, b[0] % 16);
      assert a[0] == b[0];
      EncodingIsInjective(a[1..], b[1..]);
      assert a == [a[0]] + a[1..] && b == [b[0]] + b[1..];
    }
  }

  /** A hexadecimal digit is that of one number below 16. */
  lemma DigitExists(c: char)
    requires IsHex(c)
    ensures exists n :: 0 <= n < 16 && HexDigit(n) == c
  {
    var n := if IsDigit(c) then (c - '0') as int else (c - 'a') as int + 10;
    assert HexDigit(n) == c;
  }

  /** Exactly the encodings of bytes are texts of an even number of such digits. */
  lemma {:induction false} EncodingsExactly(s: string)
    ensures (exists bytes :: EncodeToString(bytes) == s) <==> AllHex(s) && |s| % 2 == 0
  {
    if AllHex(s) && |s| % 2 == 0 {
      var bytes := Decoded(s);
    }
  }

  lemma {:induction false} Decoded(s: string) returns (bytes: seq<Byte>)
    requires AllHex(s) && |s| % 2 == 0
    ensures EncodeToString(bytes) == s
    decreases |s|
  {
    if s == "" {
      return [];
    }
    var rest := Decoded(s[2..]);
    DigitExists(s[0]);
    DigitExists(s[1]);
    var m :| 0 <= m < 16 && HexDigit(m) == s[0];
    var n :| 0 <= n < 16 && HexDigit(n) == s[1];
    EncodeOneMore(m, n, rest);
    assert s == [s[0], s[1]] + s[2..];
    return [16 * m + n] + rest;
  }

  lemma EncodeOneMore(m: nat, n: nat, rest: seq<Byte>)
    requires m < 16 && n < 16
    ensures EncodeToString([16 * m + n] + rest) == [HexDigit(m), HexDigit(n)] + EncodeToString(rest)
  {
    var bytes: seq<Byte> := [16 * m + n] + rest;
    assert bytes[1..] == rest;
  }

  /** Of a text with a colon the short form is that of what follows the first one. */
  lemma {:induction false} ColonFirst(a: string, b: string)
    requires ':' !in a
    ensures ColonIndex(a + ":" + b) == |a|
  {
    if a != "" {
      ColonFirst(a[1..], b);
      assert (a + ":" + b)[1..] == a[1..] + ":" + b;
    }
  }

  lemma ShortAfterColon(a: string, b: string)
    requires ':' !in a && |b| >= SHORT_LENGTH
    ensures TruncateID(a + ":" + b) == b[..SHORT_LENGTH]
  {
    ColonFirst(a, b);
    assert (a + ":" + b)[|a| + 1..] == b;
  }

  // ---- base-10 ParseInt ----

  predicate AllDigits(s: string) {
    s == [] || (IsDigit(s[0]) && AllDigits(s[1..]))
  }

  function DigitsValue(s: string): nat
    requires AllDigits(s)
    decreases |s|
  {
    if s == [] then 0 else DigitsValue(Init(s)) * 10 + (s[|s| - 1] - '0') as nat
  }

  /** All but the last digit. */
  function Init(s: string): (r: string)
    requires s != [] && AllDigits(s)
    ensures r == s[..|s| - 1] && AllDigits(r) && IsDigit(s[|s| - 1])
  {
    DigitsInit(s);
    s[..|s| - 1]
  }

  lemma {:induction false} DigitsInit(s: string)
    requires s != [] && AllDigits(s)
    ensures AllDigits(s[..|s| - 1]) && IsDigit(s[|s| - 1])
  {
    if |s| > 1 {
      DigitsInit(s[1..]);
      assert s[..|s| - 1][1..] == s[1..][..|s| - 2];
    }
  }

  const MAX_INT64 := 0x7fff_ffff_ffff_ffff

  /** What `strconv.ParseInt(s, 10, 64)` and, on a 64-bit machine, `strconv.Atoi` return. */
  function ParseInt(s: string): Option<int> {
    var negative := s != [] && s[0] == '-';
    var digits := if s != [] && (s[0] == '-' || s[0] == '+') then s[1..] else s;
    if digits == [] || !AllDigits(digits) then None
    else
      var n: int := DigitsValue(digits);
      if negative then (if n <= MAX_INT64 + 1 then Some(-n) else None)
      else if n <= MAX_INT64 then Some(n)
      else None
  }

  /** A sign is optional: digits read the same with a plus, and as the negated number with a minus, if that fits. */
  lemma SignsRead(digits: string)
    requires digits != "" && AllDigits(digits)
    ensures var n: int := DigitsValue(digits);
            && ParseInt(digits) == (if n <= MAX_INT64 then Some(n) else None)
            && ParseInt("+" + digits) == ParseInt(digits)
            && ParseInt("-" + digits) == (if n <= MAX_INT64 + 1 then Some(-n) else None)
  {
    assert ("+" + digits)[1..] == digits && ("-" + digits)[1..] == digits;
  }

  function Power10(k: nat): nat {
    if k == 0 then 1 else 10 * Power10(k - 1)
  }

  lemma {:induction false} DigitsFit(s: string)
    requires AllDigits(s)
    ensures DigitsValue(s) < Power10(|s|)
    decreases |s|
  {
    if s != [] {
      DigitsFit(Init(s));
    }
  }

  // ---- generation ----

  /** One read of the random source. */
  type Draw = d: seq<Byte> | |d| == 32 witness seq(32, _ => 0)

  /** A generated identifier: 64 hexadecimal digits, a letter among the first twelve. */
  ghost predicate ValidID(id: string) {
    |id| == ID_LENGTH && AllHex(id) && !AllDigits(id[..SHORT_LENGTH])
  }

  lemma {:induction false} NoColon(s: string)
    requires AllHex(s)
    ensures ColonIndex(s) == |s|
  {
    if s != [] {
      NoColon(s[1..]);
    }
  }

  lemma ShortOfHex(id: string)
    requires AllHex(id) && |id| >= SHORT_LENGTH
    ensures TruncateID(id) == id[..SHORT_LENGTH]
    ensures IsShortID(TruncateID(id))
  {
    NoColon(id);
  }

  /** A short identifier reads as a number exactly when it has no letter: twelve digits always fit. */
  lemma ShortReadsAsNumber(short: string)
    requires IsShortID(short)
    ensures ParseInt(short).Some? <==> AllDigits(short)
  {
    assert IsHex(short[0]);
    if AllDigits(short) {
      DigitsFit(short);
      assert Power10(12) < MAX_INT64;
    }
  }

  /** The first draw that makes an identifier. */
  ghost function FirstID(draws: seq<Draw>): (id: Option<string>)
    ensures id.Some? ==> ValidID(id.value)
  {
    if draws == [] then None
    else if ValidID(EncodeToString(draws[0])) then Some(EncodeToString(draws[0]))
    else FirstID(draws[1..])
  }

  lemma {:induction false} FirstIDIsDrawn(draws: seq<Draw>)
    ensures FirstID(draws).Some? ==> exists k :: 0 <= k < |draws| && FirstID(draws).value == EncodeToString(draws[k])
  {
    if draws != [] && !ValidID(EncodeToString(draws[0])) {
      FirstIDIsDrawn(draws[1..]);
      if FirstID(draws).Some? {
        var k :| 0 <= k < |draws[1..]| && FirstID(draws).value == EncodeToString(draws[1..][k]);
        assert draws[1..][k] == draws[k + 1];
      }
    }
  }

  /** Exactly the draws whose short form is no number make identifiers. */
  lemma DrawIsID(draw: Draw)
    ensures ParseInt(TruncateID(EncodeToString(draw))).None? <==> ValidID(EncodeToString(draw))
  {
    ShortOfHex(EncodeToString(draw));
    ShortReadsAsNumber(TruncateID(EncodeToString(draw)));
  }

  /**
   Draws 32 random bytes until the short form is not a number. The random source
   is the list of draws; None when it is exhausted.
   */
  method GenerateRandomID(draws: seq<Draw>) returns (id: Option<string>)
    ensures id == FirstID(draws)
  {
    for i := 0 to |draws|
      invariant FirstID(draws) == FirstID(draws[i..])
    {
      assert draws[i..][0] == draws[i] && draws[i..][1..] == draws[i + 1..];
      var text := EncodeToString(draws[i]);
      DrawIsID(draws[i]);
      if ParseInt(TruncateID(text)).None? {
        return Some(text);
      }
    }
    return None;
  }
}
