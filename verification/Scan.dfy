/** Searching byte strings, and decimal numbers in them. */
module Scan {
  import opened Bytes

  const MINUS: Byte := 45
  const PLUS: Byte := 43

  const INT32_LIMIT: int := 0x8000_0000
  const INT64_LIMIT: int := 0x8000_0000_0000_0000

  /** The first position of `c` at or after `from`; the length if there is none. */
  function FindByte(s: Bytes, c: Byte, from: nat): (p: nat)
    requires from <= |s|
    ensures from <= p <= |s|
    ensures p < |s| ==> s[p] == c
    ensures forall i :: from <= i < p ==> s[i] != c
    decreases |s| - from
  {
    if from == |s| || s[from] == c then from else FindByte(s, c, from + 1)
  }

  predicate MatchesAt(s: Bytes, pattern: Bytes, p: nat)
  {
    p + |pattern| <= |s| && s[p..p + |pattern|] == pattern
  }

  /** The first position where `pattern` occurs; the length if nowhere. */
  function FindText(s: Bytes, pattern: Bytes, from: nat): (p: nat)
    requires from <= |s|
    ensures from <= p <= |s|
    ensures p < |s| ==> MatchesAt(s, pattern, p)
    ensures forall i :: from <= i < p ==> !MatchesAt(s, pattern, i)
    decreases |s| - from
  {
    if from == |s| || MatchesAt(s, pattern, from) then from else FindText(s, pattern, from + 1)
  }

  predicate IsDigit(c: Byte) { 48 <= c <= 57 }

  ghost predicate AllDigits(s: Bytes) { forall i :: 0 <= i < |s| ==> IsDigit(s[i]) }

  function FirstNonDigit(s: Bytes, from: nat): (p: nat)
    requires from <= |s|
    ensures from <= p <= |s|
    ensures p < |s| ==> !IsDigit(s[p])
    ensures forall i :: from <= i < p ==> IsDigit(s[i])
    decreases |s| - from
  {
    if from == |s| || !IsDigit(s[from]) then from else FirstNonDigit(s, from + 1)
  }

  predicate IsBlank(c: Byte) { c == 32 || c == 9 }

  function SkipBlanks(s: Bytes, from: nat): (p: nat)
    requires from <= |s|
    ensures from <= p <= |s|
    ensures forall i :: from <= i < p ==> IsBlank(s[i])
    ensures p < |s| ==> !IsBlank(s[p])
    decreases |s| - from
  {
    if from < |s| && IsBlank(s[from]) then SkipBlanks(s, from + 1) else from
  }

  function Digits(n: nat): (r: Bytes)
    ensures r != [] && AllDigits(r)
  {
    if n < 10 then [48 + n] else Digits(n / 10) + [48 + n % 10]
  }

  /** `operator<<` for a signed integer. */
  function Decimal(n: int): (r: Bytes)
    ensures r != []
    ensures n >= 0 ==> AllDigits(r)
    ensures n < 0 ==> r[0] == MINUS
    ensures forall i :: 0 <= i < |r| ==> IsDigit(r[i]) || r[i] == MINUS
  {
    if n >= 0 then Digits(n) else [MINUS] + Digits(-n)
  }

  function Value(s: Bytes): (n: nat)
    requires AllDigits(s)
  {
    if s == [] then 0 else Value(s[..|s| - 1]) * 10 + (s[|s| - 1] - 48)
  }

  /** `stoll` on a run of digits, with every exception turned into 0. */
  ghost function ParseInt64(s: Bytes): (n: nat)
    requires AllDigits(s)
  {
    if s == [] || Value(s) >= INT64_LIMIT then 0 else Value(s)
  }

  /** The digits evaluate to the number, and the first is not 0 unless it is the only one. */
  lemma {:induction false} DigitsRoundTrip(n: nat)
    ensures Value(Digits(n)) == n
    ensures |Digits(n)| > 1 ==> Digits(n)[0] != 48
  {
    if n >= 10 {
      DigitsRoundTrip(n / 10);
      assert Digits(n)[..|Digits(n)| - 1] == Digits(n / 10);
    } else {
      assert Digits(n)[..0] == [];
    }
  }

  lemma FindAfter(a: Bytes, c: Byte, rest: Bytes, from: nat)
    requires from <= |a| && forall i :: from <= i < |a| ==> a[i] != c
    ensures FindByte(a + [c] + rest, c, from) == |a|
  {
    var s := a + [c] + rest;
    assert s[|a|] == c;
    assert forall i :: from <= i < |a| ==> s[i] == a[i];
  }

  lemma FindNone(a: Bytes, c: Byte, from: nat)
    requires from <= |a| && forall i :: from <= i < |a| ==> a[i] != c
    ensures FindByte(a, c, from) == |a|
  {
  }
}
