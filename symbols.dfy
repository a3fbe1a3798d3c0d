/**
 * The character-level helpers the encoders apply to equation symbols: Python's `ord`,
 * the "m_" intermediate prefix, the letter range and the `int(...)` parse of an
 * intermediate index (src/data/universal_dataset.py:304-305, 336-347, 383-409).
 */
module Symbols {
  import opened Wrappers

  /** `ord(s)`: defined only on one-character strings; None stands for Python's TypeError. */
  function Ord(s: string): (r: Option<int>)
    ensures r.Some? <==> |s| == 1
    ensures r.Some? ==> r.value == s[0] as int
  {
    if |s| == 1 then Some(s[0] as int) else None
  }

  /** `s.startswith("m_")`: an intermediate-result marker. */
  predicate IsMem(s: string) {
    |s| >= 2 && s[..2] == "m_"
  }

  /** `ord('a') <= ord(s) <= ord('z')` on a one-character string. */
  predicate IsLetter(s: string) {
    |s| == 1 && 'a' <= s[0] <= 'z'
  }

  /** The distance of a letter from 'a', `ord(s) - ord('a')`. */
  function LetterOffset(s: string): (r: int)
    requires IsLetter(s)
    ensures 0 <= r < 26
  {
    s[0] as int - 'a' as int
  }

  /** Distinct letters have distinct offsets. */
  lemma LetterOffsetInjective(s: string, t: string)
    requires IsLetter(s) && IsLetter(t) && s != t
    ensures LetterOffset(s) != LetterOffset(t)
  {
    assert s == [s[0]] && t == [t[0]];
  }

  predicate IsDigit(c: char) {
    '0' <= c <= '9'
  }

  function DigitValue(c: char): nat
    requires IsDigit(c)
  {
    c as int - '0' as int
  }

  /** The value of a non-empty string of decimal digits, most significant first. */
  function DigitsValue(ds: string): nat
    requires forall i :: 0 <= i < |ds| ==> IsDigit(ds[i])
  {
    if |ds| == 0 then 0 else DigitsValue(ds[..|ds| - 1]) * 10 + DigitValue(ds[|ds| - 1])
  }

  /**
   * `int(s)` on the strings the data uses: an optional sign followed by at least one
   * decimal digit. None stands for the ValueError Python raises on anything else.
   */
  function ParseInt(s: string): Option<int> {
    if |s| > 0 && (s[0] == '-' || s[0] == '+') then
      var ds := s[1..];
      if |ds| > 0 && forall i :: 0 <= i < |ds| ==> IsDigit(ds[i]) then
        var v: int := DigitsValue(ds);
        Some(if s[0] == '-' then -v else v)
      else None
    else if |s| > 0 && forall i :: 0 <= i < |s| ==> IsDigit(s[i]) then
      Some(DigitsValue(s))
    else None
  }

  /** The decimal digits of `n`, most significant first, without leading zeros. */
  function Digits(n: nat): (ds: string)
    ensures |ds| > 0 && forall i :: 0 <= i < |ds| ==> IsDigit(ds[i])
  {
    var last := ('0' as int + n % 10) as char;
    if n < 10 then [last] else Digits(n / 10) + [last]
  }

  /** Reading back the digits of `n` gives `n`. */
  lemma {:induction false} DigitsRoundTrip(n: nat)
    ensures DigitsValue(Digits(n)) == n
  {
    var ds := Digits(n);
    if n >= 10 {
      DigitsRoundTrip(n / 10);
      assert ds[..|ds| - 1] == Digits(n / 10);
    }
  }

  /** The marker of the intermediate result `k` steps back, "m_<k>". */
  function MemMarker(k: nat): string {
    "m_" + Digits(k)
  }

  /** Every marker is recognised as an intermediate, and its index parses back to `k`. */
  lemma MemMarkerParses(k: nat)
    ensures IsMem(MemMarker(k))
    ensures ParseInt(MemMarker(k)[2..]) == Some(k)
  {
    var m := MemMarker(k);
    assert m[..2] == "m_";
    assert m[2..] == Digits(k);
    DigitsRoundTrip(k);
  }
}
