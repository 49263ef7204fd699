/**
 * The string handling the commands rely on: ASCII case mapping and Rust's
 * `str::parse` for unsigned integers (an optional leading '+', then decimal
 * digits, with a value that fits the type).
 */
module Text {
  import opened Wrappers

  predicate IsDigit(c: char)
  {
    '0' <= c <= '9'
  }

  predicate AllDigits(s: string)
  {
    forall i :: 0 <= i < |s| ==> IsDigit(s[i])
  }

  function DigitValue(c: char): nat
    requires IsDigit(c)
  {
    (c as int - '0' as int) as nat
  }

  /** The value of a string of decimal digits, most significant first. */
  function DigitsValue(s: string): nat
    requires AllDigits(s)
  {
    if s == [] then 0 else 10 * DigitsValue(s[..|s| - 1]) + DigitValue(s[|s| - 1])
  }

  /**
   * Rust's `str::parse` for an unsigned integer type whose values lie below
   * `limit`: an optional '+', then at least one decimal digit; anything else,
   * and any value that does not fit, is rejected.
   */
  function ParseUnsigned(s: string, limit: nat): (r: Option<nat>)
    ensures r.Some? ==> r.value < limit && |s| > 0
  {
    var digits := if |s| > 0 && s[0] == '+' then s[1..] else s;
    if |digits| == 0 || !AllDigits(digits) then None
    else if DigitsValue(digits) >= limit then None
    else Some(DigitsValue(digits))
  }

  /** `s.parse::<u64>()`. */
  function ParseU64(s: string): (r: Option<nat>)
    ensures r.Some? ==> r.value < U64_LIMIT
    ensures r.Some? ==> |s| > 0
  {
    ParseUnsigned(s, U64_LIMIT)
  }

  /** `s.parse::<u8>()`. */
  function ParseU8(s: string): (r: Option<nat>)
    ensures r.Some? ==> r.value < U8_LIMIT
    ensures r.Some? ==> |s| > 0
  {
    ParseUnsigned(s, U8_LIMIT)
  }

  /**
   * The 0-based inventory slot an "item <n>" message names: the u8 parsed
   * from the word, minus one with u8 wrap-around, so "0" names slot 255.
   */
  function ItemSlot(word: string): (r: Option<nat>)
    ensures r.Some? ==> r.value < U8_LIMIT
    ensures r.None? <==> ParseU8(word).None?
    ensures ParseU8(word).Some? && ParseU8(word).value >= 1 ==> r == Some(ParseU8(word).value - 1)
    ensures ParseU8(word) == Some(0) ==> r == Some(U8_LIMIT - 1)
  {
    var slot := ParseU8(word);
    if slot.None? then None else Some(WrappingSub(slot.value, 1, U8_LIMIT))
  }

  function DigitChar(d: nat): (c: char)
    requires d < 10
    ensures IsDigit(c) && DigitValue(c) == d
  {
    ('0' as int + d) as char
  }

  /** The decimal form of n without leading zeros (`n.to_string()`). */
  function Decimal(n: nat): (s: string)
    ensures AllDigits(s) && |s| > 0
    decreases n
  {
    if n < 10 then [DigitChar(n)] else Decimal(n / 10) + [DigitChar(n % 10)]
  }

  lemma {:induction false} DecimalValue(n: nat)
    ensures DigitsValue(Decimal(n)) == n
    decreases n
  {
    if n >= 10 {
      DecimalValue(n / 10);
      var s := Decimal(n);
      assert s[..|s| - 1] == Decimal(n / 10);
    }
  }

  /** Printing a number in decimal and parsing it back gives the same number, whenever it fits. */
  lemma ParseDecimal(n: nat, limit: nat)
    ensures ParseUnsigned(Decimal(n), limit) == if n < limit then Some(n) else None
  {
    DecimalValue(n);
    assert Decimal(n)[0] != '+';
  }

  /** `to_ascii_lowercase` on one character. */
  function LowerChar(c: char): char
  {
    if 'A' <= c <= 'Z' then (c as int + 32) as char else c
  }

  /** `to_ascii_uppercase` on one character. */
  function UpperChar(c: char): char
  {
    if 'a' <= c <= 'z' then (c as int - 32) as char else c
  }

  function Lower(s: string): (r: string)
    ensures |r| == |s| && forall i :: 0 <= i < |s| ==> r[i] == LowerChar(s[i])
  {
    seq(|s|, i requires 0 <= i < |s| => LowerChar(s[i]))
  }

  function Upper(s: string): (r: string)
    ensures |r| == |s| && forall i :: 0 <= i < |s| ==> r[i] == UpperChar(s[i])
  {
    seq(|s|, i requires 0 <= i < |s| => UpperChar(s[i]))
  }

  /** An uppercased string has no ASCII lower-case letter left, and uppercasing twice changes nothing. */
  lemma UpperIdempotent(s: string)
    ensures forall i :: 0 <= i < |Upper(s)| ==> !('a' <= Upper(s)[i] <= 'z')
    ensures Upper(Upper(s)) == Upper(s)
  {
  }

  function EndsWith(s: string, suffix: string): bool
  {
    |suffix| <= |s| && s[|s| - |suffix|..] == suffix
  }

  /** t occurs in s starting at position i. */
  predicate OccursAt(s: string, t: string, i: nat)
  {
    i + |t| <= |s| && s[i..i + |t|] == t
  }

  /** `s.contains(t)` for a string pattern. */
  predicate Contains(s: string, t: string)
  {
    exists i: nat | i <= |s| :: OccursAt(s, t, i)
  }

  /**
   * `s.replace(pat, "")`: every occurrence of `pat`, found left to right
   * without overlapping, is cut out.
   */
  function RemoveAll(s: string, pat: string): (r: string)
    requires |pat| > 0
    ensures |r| <= |s|
    decreases |s|
  {
    if |s| < |pat| then s
    else if s[..|pat|] == pat then RemoveAll(s[|pat|..], pat)
    else [s[0]] + RemoveAll(s[1..], pat)
  }

  /** Cutting ".json" off a string of digits followed by ".json" leaves the digits. */
  lemma {:induction false} RemoveJsonSuffix(digits: string)
    requires AllDigits(digits)
    ensures RemoveAll(digits + ".json", ".json") == digits
    decreases |digits|
  {
    var s := digits + ".json";
    if digits == [] {
      assert s[..5] == ".json";
      assert s[5..] == "";
    } else {
      assert s[0] == digits[0] && IsDigit(s[0]);
      assert s[..5] != ".json" by {
        assert s[..5][0] == s[0];
      }
      assert s[1..] == digits[1..] + ".json";
      RemoveJsonSuffix(digits[1..]);
      assert [digits[0]] + digits[1..] == digits;
    }
  }
}
