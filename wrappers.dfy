/**
 * Option type, the fixed-width integer bounds and the small arithmetic
 * shared by the model: wrap-around, hits that stop at zero and the mapping
 * of a random draw onto an inclusive range.
 */
module Wrappers {
  datatype Option<T> = None | Some(value: T)

  /** One past the largest value of Rust's `u8`, `u16`, `u32` and `u64`. */
  const U8_LIMIT: nat := 0x100
  const U16_LIMIT: nat := 0x1_0000
  const U32_LIMIT: nat := 0x1_0000_0000
  const U64_LIMIT: nat := 0x1_0000_0000_0000_0000

  /** Subtraction on an unsigned `bits`-wide integer as a release build computes it (wrap-around). */
  function WrappingSub(a: nat, b: nat, limit: nat): (r: nat)
    requires limit > 0 && a < limit && b < limit
    ensures r < limit
    ensures a >= b ==> r == a - b
    ensures a < b ==> r == limit - (b - a)
  {
    (a - b) % limit
  }

  /** Addition on an unsigned integer as a release build computes it (wrap-around). */
  function WrappingAdd(a: nat, b: nat, limit: nat): (r: nat)
    requires limit > 0 && a < limit && b < limit
    ensures r < limit
    ensures a + b < limit ==> r == a + b
    ensures a + b >= limit ==> r == a + b - limit
  {
    (a + b) % limit
  }

  /** A hit for `damage`: health falls by the damage and stops at zero. */
  function Damaged(health: nat, damage: nat): (h: nat)
    ensures h <= health
    ensures h == 0 <==> damage >= health
    ensures h > 0 ==> h + damage == health
  {
    if damage > health then 0 else health - damage
  }

  /** `gen_range(lo..=hi)`, driven by an arbitrary number `pick`. */
  function Roll(lo: nat, hi: nat, pick: nat): (d: nat)
    requires lo <= hi
    ensures lo <= d <= hi
  {
    lo + pick % (hi - lo + 1)
  }

  /** Every value of the range is some pick's roll, so the parameter loses no outcome. */
  lemma RollCovers(lo: nat, hi: nat, d: nat)
    requires lo <= d <= hi
    ensures Roll(lo, hi, d - lo) == d
  {
  }
}
