/**
 * `parse_i64`: a signed 64-bit integer read with `strtoll(s, &end, 10)` (ISO/IEC 9899:2011,
 * section 7.22.1.4), accepted only when at least one character was converted, nothing
 * follows the number and the value fits (no `ERANGE`).
 * A C string is modelled by the characters before its terminating NUL.
 */
module Decimal {
  import opened Ints
  import opened Wrappers

  /** `isspace` in the "C" locale. */
  predicate IsSpace(ch: char) {
    ch == ' ' || ch == '\t' || ch == '\n' || ch == '\U{0B}' || ch == '\U{0C}' || ch == '\r'
  }

  predicate IsDigit(ch: char) {
    '0' <= ch <= '9'
  }

  predicate AllSpaces(ws: string) {
    forall k :: 0 <= k < |ws| ==> IsSpace(ws[k])
  }

  predicate AllDigits(ds: string) {
    forall k :: 0 <= k < |ds| ==> IsDigit(ds[k])
  }

  function DigitOf(ch: char): nat
    requires IsDigit(ch)
  {
    ch as int - '0' as int
  }

  function DigitChar(d: nat): char
    requires d < 10
  {
    ('0' as int + d) as char
  }

  /** The number a digit string denotes in base 10, most significant digit first. */
  function DigitsValue(ds: string): nat
    requires AllDigits(ds)
  {
    if ds == [] then 0 else DigitsValue(ds[..|ds| - 1]) * 10 + DigitOf(ds[|ds| - 1])
  }

  /** The end of the run of white space that starts at index i. */
  function SpacesEnd(s: string, i: nat): (j: nat)
    requires i <= |s|
    ensures i <= j <= |s|
    ensures forall k :: i <= k < j ==> IsSpace(s[k])
    ensures j == |s| || !IsSpace(s[j])
    decreases |s| - i
  {
    if i < |s| && IsSpace(s[i]) then SpacesEnd(s, i + 1) else i
  }

  /** The end of the run of decimal digits that starts at index i. */
  function DigitsEnd(s: string, i: nat): (j: nat)
    requires i <= |s|
    ensures i <= j <= |s|
    ensures forall k :: i <= k < j ==> IsDigit(s[k])
    ensures j == |s| || !IsDigit(s[j])
    decreases |s| - i
  {
    if i < |s| && IsDigit(s[i]) then DigitsEnd(s, i + 1) else i
  }

  /**
   * What `strtoll` with base 10 finds at the front of a string: the index just past its
   * subject sequence (0 when there is none, so that `end == s`) and the exact value that
   * sequence denotes, before any clamping to the range of `long long`.
   */
  datatype Subject = Subject(end: nat, value: int)

  /**
   * The subject sequence of `strtoll` base 10: optional white space, an optional sign,
   * then the longest non-empty run of digits.
   */
  function ScanSubject(s: string): (r: Subject)
    ensures r.end <= |s|
    ensures r.end == 0 ==> r.value == 0
    ensures r.end > 0 ==> IsDigit(s[r.end - 1]) && (r.end == |s| || !IsDigit(s[r.end]))
  {
    var i0 := SpacesEnd(s, 0);
    var signed := i0 < |s| && (s[i0] == '+' || s[i0] == '-');
    var i1 := if signed then i0 + 1 else i0;
    var i2 := DigitsEnd(s, i1);
    if i2 == i1 then Subject(0, 0)
    else
      var magnitude: int := DigitsValue(s[i1..i2]);
      Subject(i2, if signed && s[i0] == '-' then -magnitude else magnitude)
  }

  /** The value `parse_i64` stores for s, or None when it returns false. */
  function Parse(s: string): (r: Option<I64>)
    ensures r.Some? ==> 0 < |s| && IsDigit(s[|s| - 1])
  {
    var sub := ScanSubject(s);
    if sub.end == 0 || sub.end != |s| then None
    else if !InI64(sub.value) then None
    else Some(sub.value)
  }

  /** `parse_i64(s, out)`: on success writes the value through `out`; otherwise leaves it. */
  method ParseI64(s: Option<string>, out: I64) returns (ok: bool, written: I64)
    ensures ok <==> s.Some? && Parse(s.value).Some?
    ensures ok ==> written == Parse(s.value).value
    ensures !ok ==> written == out
  {
    written := out;
    if s.None? {
      return false, written;
    }
    var sub := ScanSubject(s.value);
    if sub.end == 0 || sub.end != |s.value| {
      return false, written;
    }
    if !InI64(sub.value) {
      // strtoll sets errno to ERANGE
      return false, written;
    }
    return true, sub.value;
  }

  /** A whole string of the accepted form: white space, an optional sign, one or more digits. */
  predicate IsDecimal(ws: string, sign: string, ds: string) {
    AllSpaces(ws) && (sign == "" || sign == "+" || sign == "-") && ds != [] && AllDigits(ds)
  }

  function SignedValue(sign: string, ds: string): int
    requires AllDigits(ds)
  {
    var magnitude: int := DigitsValue(ds);
    if sign == "-" then -magnitude else magnitude
  }

  /** Every accepted string has the form white space, optional sign, digits, and denotes its value. */
  lemma ParseSound(s: string) returns (ws: string, sign: string, ds: string)
    requires Parse(s).Some?
    ensures s == ws + sign + ds && IsDecimal(ws, sign, ds)
    ensures SignedValue(sign, ds) == Parse(s).value
  {
    var i0 := SpacesEnd(s, 0);
    var signed := i0 < |s| && (s[i0] == '+' || s[i0] == '-');
    var i1 := if signed then i0 + 1 else i0;
    var i2 := DigitsEnd(s, i1);
    var sub := ScanSubject(s);
    assert i2 != i1 && sub.end == i2 == |s|;
    assert s[i1..] == s[i1..i2];
    var magnitude: int := DigitsValue(s[i1..]);
    assert sub.value == if signed && s[i0] == '-' then -magnitude else magnitude;
    ws, ds := s[..i0], s[i1..];
    if signed {
      sign := [s[i0]];
      assert sign == "-" <==> s[i0] == '-';
    } else {
      sign := "";
    }
    assert AllSpaces(ws);
    assert AllDigits(ds);
    assert s == ws + sign + ds by {
      assert s[..i0] + s[i0..i1] == s[..i1];
      assert s[i0..i1] == sign;
      assert s[..i1] + s[i1..] == s;
    }
  }

  /** Every string of that form is accepted exactly when its value fits in 64 bits. */
  lemma ParseComplete(ws: string, sign: string, ds: string)
    requires IsDecimal(ws, sign, ds)
    ensures Parse(ws + sign + ds).Some? <==> InI64(SignedValue(sign, ds))
    ensures Parse(ws + sign + ds).Some? ==> Parse(ws + sign + ds).value == SignedValue(sign, ds)
  {
    var s := ws + sign + ds;
    var i0 := SpacesEnd(s, 0);
    assert !IsSpace(s[|ws|]) by {
      if sign == "" { assert s[|ws|] == ds[0]; } else { assert s[|ws|] == sign[0]; }
    }
    assert i0 == |ws|;
    var signed := i0 < |s| && (s[i0] == '+' || s[i0] == '-');
    assert signed <==> sign != "" by {
      if sign == "" { assert s[i0] == ds[0]; } else { assert s[i0] == sign[0]; }
    }
    var i1 := if signed then i0 + 1 else i0;
    assert i1 == |ws| + |sign|;
    var i2 := DigitsEnd(s, i1);
    assert i2 == |s|;
    assert s[i1..i2] == ds;
  }

  /** The digits `printf("%llu")` writes for n, most significant first. */
  function NatDigits(n: nat): (ds: string)
    ensures ds != [] && AllDigits(ds)
  {
    if n < 10 then [DigitChar(n)] else NatDigits(n / 10) + [DigitChar(n % 10)]
  }

  /** The text `printf("%lld")` writes for v. */
  function Render(v: int): string {
    if v < 0 then "-" + NatDigits(-v) else NatDigits(v)
  }

  lemma {:induction false} NatDigitsValue(n: nat)
    ensures DigitsValue(NatDigits(n)) == n
  {
    var ds := NatDigits(n);
    if n >= 10 {
      NatDigitsValue(n / 10);
      assert ds[..|ds| - 1] == NatDigits(n / 10);
    }
  }

  /** Reading back the rendering of any integer gives that integer when it fits, and fails when it does not. */
  lemma ParseRender(v: int)
    ensures Parse(Render(v)).Some? <==> InI64(v)
    ensures Parse(Render(v)).Some? ==> Parse(Render(v)).value == v
  {
    if v < 0 {
      NatDigitsValue(-v);
      ParseComplete("", "-", NatDigits(-v));
      assert "" + "-" + NatDigits(-v) == Render(v);
    } else {
      NatDigitsValue(v);
      ParseComplete("", "", NatDigits(v));
      assert "" + "" + NatDigits(v) == Render(v);
    }
  }

  /** Leading white space and a plus sign do not change what is read. */
  lemma ParseIgnoresSpacesAndPlus(ws: string, ds: string)
    requires AllSpaces(ws) && ds != [] && AllDigits(ds)
    ensures Parse(ws + "+" + ds) == Parse(ds)
  {
    ParseComplete(ws, "+", ds);
    ParseComplete("", "", ds);
    assert "" + "" + ds == ds;
  }
}
