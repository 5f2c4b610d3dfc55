/** Packing of event payloads into 16-bit lanes, and the reading of those lanes back. */
module Lanes {
  import opened FixedWidth

  /** `truncatingIfNeeded` to a signed 16-bit lane: the low sixteen bits, as two's complement. */
  function TruncateToI16(n: int): I16 {
    var low := n % TWO_TO_16;
    if low >= 0x8000 then low - TWO_TO_16 else low
  }

  function TruncateToI32(n: int): I32 {
    var low := n % TWO_TO_32;
    if low >= 0x8000_0000 then low - TWO_TO_32 else low
  }

  /** The unsigned bit pattern of a lane. */
  function Word(lane: I16): U16 {
    if lane < 0 then lane + TWO_TO_16 else lane
  }

  function ClampU16(n: int): U16 {
    if n < 0 then 0 else if n > 65_535 then 65_535 else n
  }

  /** High and low lane of a 32-bit value; `>> 16` is the arithmetic shift. */
  function Split32(n: I32): (I16, I16) {
    (TruncateToI16(n / TWO_TO_16), TruncateToI16(n % TWO_TO_16))
  }

  function SplitTruncating(n: int): (I16, I16) {
    Split32(TruncateToI32(n))
  }

  /** The saturating split used by every producer helper. */
  function Split(n: int): (I16, I16) {
    Split32(if n < 0 then 0 else if n > 0x7FFF_FFFF then 0x7FFF_FFFF else n)
  }

  function Join(high: I16, low: I16): I32 {
    high * TWO_TO_16 + Word(low)
  }

  lemma SplitThenJoin(n: I32)
    ensures Join(Split32(n).0, Split32(n).1) == n
  {
  }

  /** The `ts_us` of a record: a tick count in microseconds at sixty steps a second. */
  function Microseconds(steps: nat): nat {
    (steps * 1_000_000 + 30) / 60
  }

  /** It is the nearest whole microsecond, and different ticks never share one. */
  lemma MicrosecondsAreNearest(steps: nat, later: nat)
    ensures -30 <= 60 * Microseconds(steps) - 1_000_000 * steps <= 30
    ensures steps < later ==> Microseconds(steps) < Microseconds(later)
  {
    var m := Microseconds(steps);
    assert 60 * m <= steps * 1_000_000 + 30 < 60 * m + 60;
    if steps < later {
      var k := Microseconds(later);
      assert 60 * k <= later * 1_000_000 + 30 < 60 * k + 60;
    }
  }
}
