/**
 * The few `java.lang.String` and `java.lang.Integer` operations the bot relies on,
 * written out over `seq<char>`: `startsWith` is Dafny's prefix relation `<=`,
 * `replace(target, "")`, `trim`, `isBlank`, per-character case mapping,
 * `Integer.toString` and `Integer.parseInt` (32-bit).
 */
module Strings {
  import opened Wrappers

  const INT_MIN: int := -0x8000_0000
  const INT_MAX: int := 0x7fff_ffff

  /** Fits a Java `int`. */
  predicate IsInt32(n: int) {
    INT_MIN <= n <= INT_MAX
  }

  // ---------------------------------------------------------------------------
  // Occurrences and `String.replace(target, "")`
  // ---------------------------------------------------------------------------

  /** `target` occurs in `s` starting at index `i`. */
  predicate OccursAt(s: string, target: string, i: int) {
    0 <= i && i + |target| <= |s| && s[i..i + |target|] == target
  }

  /** `s.contains(target)`. */
  predicate Contains(s: string, target: string) {
    exists i :: 0 <= i <= |s| && OccursAt(s, target, i)
  }

  /**
   * `s.replace(target, "")`: Java scans left to right and removes every
   * non-overlapping occurrence of `target`.
   */
  function RemoveAll(s: string, target: string): (r: string)
    requires target != []
    ensures |r| <= |s|
    decreases |s|
  {
    if |s| < |target| then s
    else if s[..|target|] == target then RemoveAll(s[|target|..], target)
    else [s[0]] + RemoveAll(s[1..], target)
  }

  /** A string that does not contain the first character of `target` does not contain `target`. */
  lemma NoFirstCharNoOccurrence(s: string, target: string)
    requires target != []
    requires target[0] !in s
    ensures !Contains(s, target)
  {
    forall i | 0 <= i <= |s|
      ensures !OccursAt(s, target, i)
    {
      if i + |target| <= |s| {
        assert s[i..i + |target|][0] == s[i];
        assert s[i] in s;
      }
    }
  }

  /** Removing an absent target changes nothing. */
  lemma {:induction false} RemoveAllAbsent(s: string, target: string)
    requires target != []
    requires !Contains(s, target)
    ensures RemoveAll(s, target) == s
    decreases |s|
  {
    if |s| >= |target| {
      assert !OccursAt(s, target, 0);
      assert s[..|target|] != target;
      forall i | OccursAt(s[1..], target, i)
        ensures false
      {
        assert s[1..][i..i + |target|] == s[i + 1..i + 1 + |target|];
        assert OccursAt(s, target, i + 1);
      }
      RemoveAllAbsent(s[1..], target);
      assert s == [s[0]] + s[1..];
    }
  }

  /** Stripping a leading `target` from a rest that does not contain it gives back the rest. */
  lemma RemoveAllLeading(target: string, rest: string)
    requires target != []
    requires !Contains(rest, target)
    ensures RemoveAll(target + rest, target) == rest
  {
    var s := target + rest;
    assert s[..|target|] == target;
    assert s[|target|..] == rest;
    RemoveAllAbsent(rest, target);
  }

  // ---------------------------------------------------------------------------
  // `trim`, `isBlank`
  // ---------------------------------------------------------------------------

  /** The characters `String.trim` strips: every code point up to U+0020. */
  predicate IsTrimmable(c: char) {
    c <= ' '
  }

  /** No character `trim` would strip at either end. */
  predicate IsTrimmed(s: string) {
    s == [] || (!IsTrimmable(s[0]) && !IsTrimmable(s[|s| - 1]))
  }

  function TrimStart(s: string): (r: string)
    ensures |r| <= |s| && r == s[|s| - |r|..]
    ensures r == [] || !IsTrimmable(r[0])
    ensures forall i :: 0 <= i < |s| - |r| ==> IsTrimmable(s[i])
  {
    if s != [] && IsTrimmable(s[0]) then
      var rest := s[1..];
      var r := TrimStart(rest);
      assert rest[|rest| - |r|..] == s[|s| - |r|..];
      assert forall i :: 1 <= i < |s| - |r| ==> s[i] == rest[i - 1];
      r
    else s
  }

  function TrimEnd(s: string): (r: string)
    ensures |r| <= |s| && r == s[..|r|]
    ensures r == [] || !IsTrimmable(r[|r| - 1])
    ensures forall i :: |r| <= i < |s| ==> IsTrimmable(s[i])
  {
    if s != [] && IsTrimmable(s[|s| - 1]) then TrimEnd(s[..|s| - 1]) else s
  }

  /** `String.trim`: the longest infix with no strippable character at either end. */
  function Trim(s: string): (r: string)
    ensures IsTrimmed(r)
    ensures exists lo, hi ::
      && 0 <= lo <= hi <= |s| && r == s[lo..hi]
      && (forall i :: 0 <= i < lo ==> IsTrimmable(s[i]))
      && (forall i :: hi <= i < |s| ==> IsTrimmable(s[i]))
    ensures forall c :: c in r ==> c in s
    ensures IsTrimmed(s) ==> r == s
  {
    var t := TrimStart(s);
    var r := TrimEnd(t);
    var lo := |s| - |t|;
    assert r == s[lo..lo + |r|];
    InfixChars(s, lo, lo + |r|);
    var hi := lo + |r|;
    forall i | hi <= i < |s| ensures IsTrimmable(s[i]) {
      assert s[i] == t[i - lo];
    }
    assert (forall i :: 0 <= i < lo ==> IsTrimmable(s[i])) && (forall i :: hi <= i < |s| ==> IsTrimmable(s[i]));
    assert IsTrimmed(r) by {
      if r != [] {
        assert r[0] == t[0];
      }
    }
    assert IsTrimmed(s) ==> r == s by {
      if IsTrimmed(s) && s != [] {
        assert lo == 0;
        assert t == s;
        assert |r| == |t|;
      }
    }
    r
  }

  lemma InfixChars(s: string, lo: nat, hi: nat)
    requires lo <= hi <= |s|
    ensures forall c :: c in s[lo..hi] ==> c in s
  {
    forall c | c in s[lo..hi] ensures c in s {
      var i :| lo <= i < hi && s[i] == c;
    }
  }

  /** `Character.isWhitespace`: Unicode space separators other than the no-break ones, and the listed controls. */
  predicate IsWhitespace(c: char) {
    c == ' ' || ('\t' <= c <= '\r') || ('\U{1C}' <= c <= '\U{1F}')
    || c == '\U{1680}' || ('\U{2000}' <= c <= '\U{2006}') || ('\U{2008}' <= c <= '\U{200A}')
    || c == '\U{2028}' || c == '\U{2029}' || c == '\U{205F}' || c == '\U{3000}'
  }

  /** `String.isBlank`. */
  predicate IsBlank(s: string) {
    forall i :: 0 <= i < |s| ==> IsWhitespace(s[i])
  }

  // ---------------------------------------------------------------------------
  // Case mapping (Latin and Cyrillic letters; everything else is left alone)
  // ---------------------------------------------------------------------------

  /** The letters the case mapping covers: ASCII and the basic Cyrillic block. */
  predicate IsCasedLetter(c: char) {
    'a' <= c <= 'z' || 'A' <= c <= 'Z' || '\U{400}' <= c <= '\U{45F}'
  }

  function UpperChar(c: char): char {
    if 'a' <= c <= 'z' || 'а' <= c <= 'я' then (c as int - 32) as char
    else if '\U{450}' <= c <= '\U{45F}' then (c as int - 80) as char
    else c
  }

  function LowerChar(c: char): char {
    if 'A' <= c <= 'Z' || 'А' <= c <= 'Я' then (c as int + 32) as char
    else if '\U{400}' <= c <= '\U{40F}' then (c as int + 80) as char
    else c
  }

  /** `toUpperCase`, one character at a time. */
  function UpperCase(s: string): (r: string)
    ensures |r| == |s|
    ensures forall i :: 0 <= i < |s| ==> r[i] == UpperChar(s[i])
  {
    seq(|s|, i requires 0 <= i < |s| => UpperChar(s[i]))
  }

  /** `toLowerCase`, one character at a time. */
  function LowerCase(s: string): (r: string)
    ensures |r| == |s|
    ensures forall i :: 0 <= i < |s| ==> r[i] == LowerChar(s[i])
  {
    seq(|s|, i requires 0 <= i < |s| => LowerChar(s[i]))
  }

  // ---------------------------------------------------------------------------
  // `Integer.toString` and `Integer.parseInt`
  // ---------------------------------------------------------------------------

  predicate IsDigit(c: char) {
    '0' <= c <= '9'
  }

  predicate AllDigits(s: string) {
    forall i :: 0 <= i < |s| ==> IsDigit(s[i])
  }

  function DigitChar(d: nat): char
    requires d < 10
  {
    ('0' as int + d) as char
  }

  /** Decimal digits of `n`, most significant first, without leading zeros. */
  function NatToDigits(n: nat): (s: string)
    ensures s != [] && AllDigits(s)
    ensures |s| > 1 ==> s[0] != '0'
    decreases n
  {
    if n < 10 then [DigitChar(n)] else NatToDigits(n / 10) + [DigitChar(n % 10)]
  }

  /** `Integer.toString(n)`. */
  function IntToString(n: int): (s: string)
    ensures s != []
    ensures forall c :: c in s ==> IsDigit(c) || c == '-'
  {
    if n < 0 then "-" + NatToDigits(-n) else NatToDigits(n)
  }

  /** The value of a run of decimal digits. */
  function DigitsValue(ds: string): nat
    requires AllDigits(ds)
  {
    if ds == [] then 0 else DigitsValue(ds[..|ds| - 1]) * 10 + (ds[|ds| - 1] as int - '0' as int)
  }

  /** The length of a leading '-' or '+': one if there is one, else zero. */
  function SignLength(s: string): nat {
    if s != [] && (s[0] == '-' || s[0] == '+') then 1 else 0
  }

  /** -1 after a leading '-', else 1. */
  function SignOf(s: string): int {
    if s != [] && s[0] == '-' then -1 else 1
  }

  /**
   * `Integer.parseInt(s)`: an optional sign and at least one decimal digit,
   * within 32 bits; `None` where Java throws `NumberFormatException`.
   */
  function ParseInt(s: string): (r: Option<int>)
    ensures r.Some? <==>
      SignLength(s) < |s| && AllDigits(s[SignLength(s)..])
      && IsInt32(SignOf(s) * DigitsValue(s[SignLength(s)..]))
    ensures r.Some? ==> r.value == SignOf(s) * DigitsValue(s[SignLength(s)..])
  {
    if s == [] then None
    else
      var digits := if s[0] == '-' || s[0] == '+' then s[1..] else s;
      if digits == [] || !AllDigits(digits) then None
      else
        var v: int := if s[0] == '-' then -(DigitsValue(digits) as int) else DigitsValue(digits);
        if IsInt32(v) then Some(v) else None
  }

  lemma {:induction false} DigitsRoundTrip(n: nat)
    ensures DigitsValue(NatToDigits(n)) == n
    decreases n
  {
    if n >= 10 {
      var s := NatToDigits(n);
      assert s[..|s| - 1] == NatToDigits(n / 10);
      DigitsRoundTrip(n / 10);
    }
  }

  /** `Integer.parseInt(Integer.toString(n)) == n` for every Java `int`. */
  lemma ParseIntRoundTrip(n: int)
    requires IsInt32(n)
    ensures ParseInt(IntToString(n)) == Some(n)
  {
    var s := IntToString(n);
    if n < 0 {
      assert SignLength(s) == 1 && SignOf(s) == -1;
      assert s[1..] == NatToDigits(-n);
      DigitsRoundTrip(-n);
    } else {
      assert SignLength(s) == 0 && SignOf(s) == 1;
      assert s[0..] == NatToDigits(n);
      DigitsRoundTrip(n);
    }
  }
}
