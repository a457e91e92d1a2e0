/** Decimal integer text: Python's `int(str)` on an option value and C++'s
    `std::stoi` on a weight string, and the decimal rendering of a number. */
module Numerals {
  import opened Wrappers

  predicate IsDigit(c: char) { '0' <= c <= '9' }

  /** The characters Python's `str.strip()` and C's `isspace` treat as blank. */
  predicate IsSpace(c: char) { c == ' ' || c == '\t' || c == '\n' || c == '\r' || c == '\U{B}' || c == '\U{C}' }

  predicate AllDigits(s: string) { forall i :: 0 <= i < |s| ==> IsDigit(s[i]) }

  /** The value of a string of decimal digits, most significant first. */
  function DigitsValue(s: string): nat
    requires AllDigits(s)
  {
    if s == [] then 0 else DigitsValue(s[..|s| - 1]) * 10 + (s[|s| - 1] as int - '0' as int)
  }

  /** The decimal digits of `n`, without leading zeros ("0" for zero). */
  function NatToString(n: nat): (r: string)
    ensures r != [] && AllDigits(r)
  {
    var d := [('0' as int + n % 10) as char];
    if n < 10 then d else NatToString(n / 10) + d
  }

  /** Python's `str(n)`. */
  function IntToString(n: int): string
  {
    if n < 0 then "-" + NatToString(-n) else NatToString(n)
  }

  lemma {:induction false} NatToStringValue(n: nat)
    ensures DigitsValue(NatToString(n)) == n
  {
    var r := NatToString(n);
    if n >= 10 {
      NatToStringValue(n / 10);
      assert r[..|r| - 1] == NatToString(n / 10);
    }
  }

  /** Index of the first character of `s` from `i` on that is not blank. */
  function SkipSpace(s: string, i: nat): (j: nat)
    requires i <= |s|
    ensures i <= j <= |s| && (j < |s| ==> !IsSpace(s[j]))
    ensures forall k :: i <= k < j ==> IsSpace(s[k])
    decreases |s| - i
  {
    if i < |s| && IsSpace(s[i]) then SkipSpace(s, i + 1) else i
  }

  /** Index just past the maximal run of blanks that ends `s[..j]`. */
  function TrailingSpaceStart(s: string, j: nat): (k: nat)
    requires j <= |s|
    ensures k <= j && (k > 0 ==> !IsSpace(s[k - 1]))
    ensures forall m :: k <= m < j ==> IsSpace(s[m])
  {
    if j > 0 && IsSpace(s[j - 1]) then TrailingSpaceStart(s, j - 1) else j
  }

  /** Python's `int(s)` on decimal text: surrounding blanks, an optional sign,
      and at least one digit; anything else raises `ValueError` (None here). */
  function PyInt(s: string): Option<int>
  {
    var b := SkipSpace(s, 0);
    var e := TrailingSpaceStart(s, |s|);
    if b >= e then None
    else
      var body := s[b..e];
      var neg := body[0] == '-';
      var digits := if body[0] == '-' || body[0] == '+' then body[1..] else body;
      if digits == [] || !AllDigits(digits) then None
      else
        assert digits == s[e - |digits|..e];
        Some(if neg then -(DigitsValue(digits) as int) else DigitsValue(digits))
  }

  /** The decimal rendering of a number is read back as that number. */
  lemma PyIntOfIntToString(n: int)
    ensures PyInt(IntToString(n)) == Some(n)
  {
    var s := IntToString(n);
    var digits := NatToString(if n < 0 then -n else n);
    NatToStringValue(if n < 0 then -n else n);
    assert SkipSpace(s, 0) == 0 by {
      if n < 0 { assert s[0] == '-'; } else { assert IsDigit(s[0]); }
    }
    assert TrailingSpaceStart(s, |s|) == |s| by {
      assert IsDigit(s[|s| - 1]);
    }
    assert s[0..|s|] == s;
    if n < 0 {
      assert s[1..] == digits;
    }
  }

  const IntMin: int := -0x8000_0000
  const IntMax: int := 0x7FFF_FFFF

  datatype StoiError = InvalidArgument | OutOfRange

  /** Index just past the maximal run of digits of `s` starting at `i`. */
  function DigitRunEnd(s: string, i: nat): (j: nat)
    requires i <= |s|
    ensures i <= j <= |s| && AllDigits(s[i..j]) && (j < |s| ==> !IsDigit(s[j]))
    decreases |s| - i
  {
    if i < |s| && IsDigit(s[i]) then
      var j := DigitRunEnd(s, i + 1);
      assert s[i..j] == [s[i]] + s[i + 1..j];
      j
    else i
  }

  /** C++ `std::stoi(s)` with base 10 on 32-bit `int`: leading blanks, an
      optional sign, then the longest run of digits; text after the digits is
      ignored. No digit throws `invalid_argument`, a value outside `int` throws
      `out_of_range`. */
  function Stoi(s: string): (r: Result<int, StoiError>)
    ensures r.Ok? ==> IntMin <= r.value <= IntMax
  {
    var b := SkipSpace(s, 0);
    var neg := b < |s| && s[b] == '-';
    var d := if b < |s| && (s[b] == '-' || s[b] == '+') then b + 1 else b;
    var e := DigitRunEnd(s, d);
    if e == d then Err(InvalidArgument)
    else
      var v := if neg then -(DigitsValue(s[d..e]) as int) else DigitsValue(s[d..e]);
      if v < IntMin || v > IntMax then Err(OutOfRange) else Ok(v)
  }

  /** `std::stoi` reads back the decimal rendering of any 32-bit value. */
  lemma StoiOfIntToString(n: int)
    requires IntMin <= n <= IntMax
    ensures Stoi(IntToString(n)) == Ok(n)
  {
    var s := IntToString(n);
    var digits := NatToString(if n < 0 then -n else n);
    NatToStringValue(if n < 0 then -n else n);
    var d := if n < 0 then 1 else 0;
    assert SkipSpace(s, 0) == 0 by {
      if n < 0 { assert s[0] == '-'; } else { assert IsDigit(s[0]); }
    }
    assert s[d..] == digits;
    assert DigitRunEnd(s, d) == |s| by {
      DigitRunAll(s, d);
    }
    assert s[d..|s|] == digits;
  }

  lemma {:induction false} DigitRunAll(s: string, i: nat)
    requires i <= |s| && AllDigits(s[i..])
    ensures DigitRunEnd(s, i) == |s|
    decreases |s| - i
  {
    if i < |s| {
      assert IsDigit(s[i..][0]);
      assert s[i + 1..] == s[i..][1..];
      DigitRunAll(s, i + 1);
    }
  }

  /** Python's `sub in s` on strings. */
  predicate Contains(s: string, sub: string)
  {
    (|sub| <= |s| && s[..|sub|] == sub) || (s != [] && Contains(s[1..], sub))
  }

  /** Python's `s[n:]`, which is empty when `n` is past the end. */
  function DropPrefix(s: string, n: nat): (r: string)
    ensures |r| == if n <= |s| then |s| - n else 0
  {
    if n <= |s| then s[n..] else []
  }
}
