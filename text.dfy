/**
 * Text primitives the core relies on: Rust's `str::trim`, `str::parse::<i64>`
 * and, as the inverse used in round-trip lemmas, decimal rendering of integers.
 */
module Text {
  import opened Wrappers

  const I64Min: int := -0x8000_0000_0000_0000
  const I64Max: int := 0x7fff_ffff_ffff_ffff

  predicate InI64(n: int) { I64Min <= n <= I64Max }

  /** The Unicode White_Space characters, which is what Rust's `char::is_whitespace` tests. */
  predicate IsWhitespace(c: char) {
    ('\t' <= c <= '\r') || c == ' ' || c == '\U{85}' || c == '\U{A0}' || c == '\U{1680}'
    || ('\U{2000}' <= c <= '\U{200A}') || c == '\U{2028}' || c == '\U{2029}'
    || c == '\U{202F}' || c == '\U{205F}' || c == '\U{3000}'
  }

  /** Drops leading whitespace. */
  function TrimStart(s: string): (r: string)
    ensures |r| <= |s| && r == s[|s| - |r|..]
    ensures r != [] ==> !IsWhitespace(r[0])
    ensures forall i :: 0 <= i < |s| - |r| ==> IsWhitespace(s[i])
  {
    if s != [] && IsWhitespace(s[0]) then TrimStart(s[1..]) else s
  }

  /** Drops trailing whitespace. */
  function TrimEnd(s: string): (r: string)
    ensures |r| <= |s| && r == s[..|r|]
    ensures r != [] ==> !IsWhitespace(r[|r| - 1])
    ensures forall i :: |r| <= i < |s| ==> IsWhitespace(s[i])
  {
    if s != [] && IsWhitespace(s[|s| - 1]) then TrimEnd(s[..|s| - 1]) else s
  }

  /** `r` is `s[i..j]`, and everything of `s` outside that infix is whitespace. */
  ghost predicate WhitespaceAround(s: string, r: string, i: int, j: int) {
    0 <= i <= j <= |s| && r == s[i..j] && forall k :: (0 <= k < i || j <= k < |s|) ==> IsWhitespace(s[k])
  }

  /** Rust's `str::trim`: the longest infix that neither starts nor ends with whitespace,
      obtained by removing whitespace only. */
  function Trim(s: string): (r: string)
    ensures r != [] ==> !IsWhitespace(r[0]) && !IsWhitespace(r[|r| - 1])
    ensures |r| <= |s|
    ensures exists i, j :: WhitespaceAround(s, r, i, j)
  {
    var t := TrimStart(s);
    TrimIsInfix(s, t, TrimEnd(t));
    TrimEnd(t)
  }

  /** Dropping leading whitespace and then trailing whitespace keeps the infix between the
      two: `t` is what is left after the leading whitespace, `r` what is left of `t`. */
  lemma TrimIsInfix(s: string, t: string, r: string)
    requires |t| <= |s| && t == s[|s| - |t|..]
    requires forall m :: 0 <= m < |s| - |t| ==> IsWhitespace(s[m])
    requires |r| <= |t| && r == t[..|r|]
    requires forall m :: |r| <= m < |t| ==> IsWhitespace(t[m])
    ensures WhitespaceAround(s, r, |s| - |t|, |s| - |t| + |r|)
  {
    var i := |s| - |t|;
    forall k | i + |r| <= k < |s| ensures IsWhitespace(s[k]) {
      assert s[k] == t[k - i];
      assert IsWhitespace(t[k - i]);
    }
  }

  /** A string without whitespace at either end is its own trim. */
  lemma TrimFixesTrimmed(s: string)
    requires s != [] ==> !IsWhitespace(s[0]) && !IsWhitespace(s[|s| - 1])
    ensures Trim(s) == s
  {
  }

  lemma TrimIdempotent(s: string)
    ensures Trim(Trim(s)) == Trim(s)
  {
    TrimFixesTrimmed(Trim(s));
  }

  /** A string of whitespace only trims to the empty string. */
  lemma TrimBlank(s: string)
    requires forall i :: 0 <= i < |s| ==> IsWhitespace(s[i])
    ensures Trim(s) == []
  {
  }

  predicate IsDigit(c: char) { '0' <= c <= '9' }

  predicate AllDigits(s: string) { forall i :: 0 <= i < |s| ==> IsDigit(s[i]) }

  function DigitValue(c: char): nat
    requires IsDigit(c)
  {
    (c as int) - ('0' as int)
  }

  /** The value of a string of decimal digits, most significant first. */
  function DigitsValue(s: string): nat
    requires AllDigits(s)
  {
    if s == [] then 0 else DigitsValue(s[..|s| - 1]) * 10 + DigitValue(s[|s| - 1])
  }

  /** Rust's `str::parse::<i64>`: an optional `+` or `-`, then at least one ASCII digit,
      and the value must fit in 64 bits. No whitespace is accepted. */
  function ParseI64(s: string): (r: Option<int>)
    ensures r.Some? ==> InI64(r.value)
    ensures r.Some? ==> s != [] && (IsDigit(s[0]) || s[0] == '-' || s[0] == '+')
  {
    var signed := s != [] && (s[0] == '-' || s[0] == '+');
    var digits := if signed then s[1..] else s;
    if digits == [] || !AllDigits(digits) then None
    else
      var v: int := if s[0] == '-' then -(DigitsValue(digits) as int) else DigitsValue(digits);
      if InI64(v) then Some(v) else None
  }

  function DigitChar(d: nat): (c: char)
    requires d < 10
    ensures IsDigit(c) && DigitValue(c) == d
  {
    ('0' as int + d) as char
  }

  /** Decimal rendering of a natural number, without leading zeros. */
  function ShowNat(n: nat): (s: string)
    ensures s != [] && AllDigits(s)
  {
    (if n < 10 then [] else ShowNat(n / 10)) + [DigitChar(n % 10)]
  }

  /** Decimal rendering of an integer, with a leading `-` when negative. */
  function ShowInt(n: int): (s: string)
    ensures s != [] && (n >= 0 ==> AllDigits(s))
  {
    if n >= 0 then ShowNat(n) else "-" + ShowNat(-n)
  }

  lemma {:induction false} DigitsOfShowNat(n: nat)
    ensures DigitsValue(ShowNat(n)) == n
  {
    var s := ShowNat(n);
    assert s[..|s| - 1] == (if n < 10 then [] else ShowNat(n / 10));
    if n >= 10 {
      DigitsOfShowNat(n / 10);
    }
  }

  /** Parsing inverts rendering on the whole 64-bit range. */
  lemma ParseShowRoundTrip(n: int)
    requires InI64(n)
    ensures ParseI64(ShowInt(n)) == Some(n)
  {
    if n >= 0 {
      DigitsOfShowNat(n);
    } else {
      DigitsOfShowNat(-n);
      assert ShowInt(n)[1..] == ShowNat(-n);
    }
  }

  /** Rendered integers carry no whitespace, so trimming leaves them alone. */
  lemma TrimShowInt(n: int)
    ensures Trim(ShowInt(n)) == ShowInt(n)
  {
    var s := ShowInt(n);
    assert !IsWhitespace(s[0]) && !IsWhitespace(s[|s| - 1]) by {
      if n >= 0 {
        assert IsDigit(s[0]) && IsDigit(s[|s| - 1]);
      } else {
        assert s[1..] == ShowNat(-n);
        assert IsDigit(s[|s| - 1]);
      }
    }
    TrimFixesTrimmed(s);
  }

  /** Whitespace, an empty string and a bare sign are rejected by `parse::<i64>`. */
  lemma ParseI64Rejects()
    ensures ParseI64("") == None && ParseI64("-") == None && ParseI64("+") == None
    ensures ParseI64(" 7") == None && ParseI64("7 ") == None
    ensures ParseI64("-42") == Some(-42) && ParseI64("+42") == Some(42)
  {
    assert DigitsValue("42") == 42 by {
      assert "42"[..1] == "4";
    }
  }
}
