/**
 * The bet-amount parser the blackjack and slots commands share: "all",
 * "half", a number with a `k` or `m` suffix, or a plain number.
 */
module Bets {
  import opened Wrappers
  import opened Text

  /**
   * `prefix.parse::<u64>().unwrap_or(5) * unit` as a release build computes
   * it: a prefix that is not a number counts as 5, and the product wraps at 2^64.
   */
  function Scaled(prefix: string, unit: nat): (n: nat)
    ensures n < U64_LIMIT
    ensures ParseU64(prefix).Some? && ParseU64(prefix).value * unit < U64_LIMIT ==> n == ParseU64(prefix).value * unit
    ensures ParseU64(prefix).None? && 5 * unit < U64_LIMIT ==> n == 5 * unit
  {
    var count := if ParseU64(prefix).Some? then ParseU64(prefix).value else 5;
    (count * unit) % U64_LIMIT
  }

  /**
   * The bet a lower-cased option names for a user holding `balance`
   * bananas; None is the "must bet a number" rejection, which only a plain
   * word that is not a u64 gets.
   */
  function ParseBet(raw: string, balance: nat): (r: Option<nat>)
    ensures var s := Lower(raw);
      r.None? <==> s != "all" && s != "half" && !EndsWith(s, "k") && !EndsWith(s, "m") && ParseU64(s).None?
    ensures Lower(raw) == "all" ==> r == Some(balance)
    ensures Lower(raw) == "half" ==> r == Some(balance / 2)
    ensures r.Some? && Lower(raw) != "all" && Lower(raw) != "half" ==> r.value < U64_LIMIT
  {
    var s := Lower(raw);
    if s == "all" then Some(balance)
    else if s == "half" then Some(balance / 2)
    else if EndsWith(s, "k") then Some(Scaled(s[..|s| - 1], 1000))
    else if EndsWith(s, "m") then Some(Scaled(s[..|s| - 1], 1_000_000))
    else ParseU64(s)
  }

  /** Decimal digits are unchanged by lower-casing. */
  lemma LowerDecimal(n: nat, suffix: string)
    requires suffix in {"", "k", "m"}
    ensures Lower(Decimal(n) + suffix) == Decimal(n) + suffix
  {
    var s := Decimal(n) + suffix;
    assert forall i :: 0 <= i < |Decimal(n)| ==> IsDigit(s[i]);
  }

  /** A number with a suffix is scaled by the suffix's unit. */
  lemma {:induction false} SuffixedDecimal(n: nat, suffix: string, unit: nat, balance: nat)
    requires (suffix == "k" && unit == 1000) || (suffix == "m" && unit == 1_000_000)
    ensures ParseBet(Decimal(n) + suffix, balance) == Some(Scaled(Decimal(n), unit))
  {
    var s := Decimal(n) + suffix;
    LowerDecimal(n, suffix);
    assert s[..|s| - 1] == Decimal(n);
    assert s[|s| - 1..] == suffix;
    assert IsDigit(s[0]);
    assert s != "all" && s != "half";
    if suffix == "m" {
      assert s[|s| - 1] == 'm';
      assert !EndsWith(s, "k");
    }
  }

  /** A string of digits is no keyword, has no suffix and is its own lower-case form. */
  lemma PlainDigits(s: string)
    requires AllDigits(s) && |s| > 0
    ensures Lower(s) == s
    ensures s != "all" && s != "half" && !EndsWith(s, "k") && !EndsWith(s, "m")
  {
    assert forall i :: 0 <= i < |s| ==> IsDigit(s[i]);
    assert s[|s| - 1..] == [s[|s| - 1]];
  }

  /** A bet written the way the bot prints numbers comes back as that number. */
  lemma BetRoundTrip(n: nat, balance: nat)
    requires n < U64_LIMIT
    ensures ParseBet(Decimal(n), balance) == Some(n)
  {
    ParseDecimal(n, U64_LIMIT);
    PlainDigits(Decimal(n));
  }

  /** With a `k` the number counts in thousands, and with an `m` in millions, while the product fits a u64. */
  lemma ScaledBetRoundTrip(n: nat, balance: nat)
    ensures n * 1000 < U64_LIMIT ==> ParseBet(Decimal(n) + "k", balance) == Some(n * 1000)
    ensures n * 1_000_000 < U64_LIMIT ==> ParseBet(Decimal(n) + "m", balance) == Some(n * 1_000_000)
  {
    ParseDecimal(n, U64_LIMIT);
    SuffixedDecimal(n, "k", 1000, balance);
    SuffixedDecimal(n, "m", 1_000_000, balance);
  }

  /**
   * A `k` or `m` after anything that is not a u64 (nothing at all, a word,
   * a number too large) bets five thousand or five million.
   */
  lemma SuffixFallback(raw: string, balance: nat)
    ensures var s := Lower(raw);
      EndsWith(s, "k") && ParseU64(s[..|s| - 1]).None? ==> ParseBet(raw, balance) == Some(5000)
    ensures var s := Lower(raw);
      EndsWith(s, "m") && ParseU64(s[..|s| - 1]).None? ==> ParseBet(raw, balance) == Some(5_000_000)
    ensures ParseBet("k", balance) == Some(5000) && ParseBet("xk", balance) == Some(5000)
    ensures ParseBet("m", balance) == Some(5_000_000)
  {
    var s := Lower(raw);
    if EndsWith(s, "k") || EndsWith(s, "m") {
      assert s[|s| - 1..] == [s[|s| - 1]];
      assert s != "all" && s != "half";
    }
    if EndsWith(s, "m") {
      assert !EndsWith(s, "k");
    }
    assert Lower("k") == "k";
    assert Lower("m") == "m";
    assert Lower("xk") == "xk";
    assert "xk"[..1] == "x";
  }
}
