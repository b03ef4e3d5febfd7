/** Small pieces of Python behaviour the extraction client relies on:
    optional values, slicing with negative bounds, and decimal text
    (`str(n)`, `int(s)` and zero-padded `strftime` fields). */
module Base {

  datatype Option<+T> = None | Some(value: T)

  datatype Result<+T, +E> = Ok(value: T) | Err(error: E)

  // ---------------------------------------------------------------------------
  // Slicing

  /** How Python normalises one bound of `s[i:j]` against a length `n`:
      a negative bound counts from the end, and both are clamped into [0, n]. */
  function SliceBound(i: int, n: nat): (b: nat)
    ensures b <= n
    ensures 0 <= i <= n ==> b == i
    ensures i < 0 <= i + n ==> b == i + n
  {
    if i < 0 then (if i + n < 0 then 0 else i + n)
    else if i > n then n
    else i
  }

  /** Python's `s[i:j]`. */
  function Slice<T>(s: seq<T>, i: int, j: int): (r: seq<T>)
    ensures |r| <= |s|
  {
    var a, b := SliceBound(i, |s|), SliceBound(j, |s|);
    if a <= b then s[a..b] else []
  }

  lemma {:induction false} SliceWithin<T>(s: seq<T>, i: int, j: int)
    requires 0 <= |s| + i && i <= j < 0
    ensures Slice(s, i, j) == s[|s| + i..|s| + j]
  {
  }

  /** Python's `s[0:j]` for `j` from -1 up to the length: the first `j`
      elements, and nothing when `j` is -1 and `s` has at most one element. */
  lemma {:induction false} SliceTake<T>(s: seq<T>, j: int)
    requires -1 <= j <= |s| && (j == -1 ==> |s| <= 1)
    ensures Slice(s, 0, j) == s[..if j < 0 then 0 else j]
  {
  }

  // ---------------------------------------------------------------------------
  // Decimal text

  predicate IsDigit(c: char) {
    '0' <= c <= '9'
  }

  predicate AllDigits(s: string) {
    forall i :: 0 <= i < |s| ==> IsDigit(s[i])
  }

  function DigitChar(d: nat): (c: char)
    requires d < 10
    ensures IsDigit(c)
  {
    (48 + d) as char
  }

  function DigitValue(c: char): (d: nat)
    requires IsDigit(c)
    ensures d < 10
  {
    (c as int) - 48
  }

  /** The value of a string of decimal digits, read left to right. */
  function DigitsValue(s: string): nat
    requires AllDigits(s)
  {
    if s == [] then 0 else DigitsValue(s[..|s| - 1]) * 10 + DigitValue(s[|s| - 1])
  }

  /** `str(n)` for a non-negative integer. */
  function NatToString(n: nat): (s: string)
    ensures |s| >= 1 && AllDigits(s)
    ensures n < 10 <==> |s| == 1
  {
    if n < 10 then [DigitChar(n)] else NatToString(n / 10) + [DigitChar(n % 10)]
  }

  lemma {:induction false} NatToStringRoundTrip(n: nat)
    ensures DigitsValue(NatToString(n)) == n
  {
    var s := NatToString(n);
    if n >= 10 {
      var q, r := n / 10, n % 10;
      assert n == q * 10 + r && 0 <= r < 10;
      assert s[..|s| - 1] == NatToString(q);
      assert DigitValue(s[|s| - 1]) == r;
      NatToStringRoundTrip(q);
    } else {
      assert s[..0] == [];
    }
  }

  lemma {:induction false} NatToStringInjective(m: nat, n: nat)
    requires NatToString(m) == NatToString(n)
    ensures m == n
  {
    NatToStringRoundTrip(m);
    NatToStringRoundTrip(n);
  }

  /** `str(n)` for any integer. */
  function IntToString(n: int): string {
    if n < 0 then "-" + NatToString(-n) else NatToString(n)
  }

  /** `int(s)` on a decimal literal: an optional sign followed by at least one
      ASCII digit; anything else raises, modelled as `None`. */
  function ParseInt(s: string): (r: Option<int>)
    ensures r.Some? ==> |s| >= 1
  {
    if |s| >= 1 && (s[0] == '-' || s[0] == '+') then
      var body := s[1..];
      if |body| >= 1 && AllDigits(body) then
        Some(if s[0] == '-' then -(DigitsValue(body) as int) else DigitsValue(body))
      else None
    else if |s| >= 1 && AllDigits(s) then Some(DigitsValue(s))
    else None
  }

  lemma {:induction false} ParseIntRoundTrip(n: int)
    ensures ParseInt(IntToString(n)) == Some(n)
  {
    var s := IntToString(n);
    if n < 0 {
      var digits := NatToString(-n);
      assert s[0] == '-';
      assert s[1..] == digits;
      NatToStringRoundTrip(-n);
      assert ParseInt(s) == Some(-(DigitsValue(digits) as int));
    } else {
      assert s == NatToString(n);
      assert IsDigit(s[0]);
      NatToStringRoundTrip(n);
      assert ParseInt(s) == Some(DigitsValue(s));
    }
  }

  function Pow10(w: nat): (p: nat)
    ensures p >= 1
  {
    if w == 0 then 1 else 10 * Pow10(w - 1)
  }

  /** The last `width` decimal digits of `n`, zero-padded: `strftime`'s
      `%m`, `%d` (width 2) and `%Y` (width 4). */
  function Pad(n: nat, width: nat): (s: string)
    ensures |s| == width && AllDigits(s)
  {
    if width == 0 then [] else Pad(n / 10, width - 1) + [DigitChar(n % 10)]
  }

  lemma {:induction false} PadRoundTrip(n: nat, width: nat)
    requires n < Pow10(width)
    ensures DigitsValue(Pad(n, width)) == n
  {
    if width > 0 {
      var s := Pad(n, width);
      var q, r := n / 10, n % 10;
      assert n == q * 10 + r && 0 <= r < 10;
      assert Pow10(width) == 10 * Pow10(width - 1);
      assert q < Pow10(width - 1);
      assert s[..|s| - 1] == Pad(q, width - 1);
      assert DigitValue(s[|s| - 1]) == r;
      PadRoundTrip(q, width - 1);
    }
  }
}
