/** Prices in exact arithmetic: ticks, rounding and the two-decimal text of src/common/types.cpp. */
module PriceText {
  import opened Types
  import opened Decimals

  const MAX_TICK: nat := 0xFFFF_FFFF_FFFF_FFFF
  const MIN_LONG_LONG: int := -0x8000_0000_0000_0000

  /** llround: nearest integer, halves away from zero. */
  function Round(x: real): int {
    if x >= 0.0 then (x + 0.5).Floor else -((-x + 0.5).Floor)
  }

  /** double_to_ticks on a finite price. */
  function ToTicks(price: real): nat {
    if price <= 0.0 then 0
    else if price * TICKS_PER_UNIT >= MAX_TICK as real then MAX_TICK
    else Round(price * TICKS_PER_UNIT)
  }

  /** ticks_to_double. */
  function ToPrice(ticks: nat): real {
    ticks as real / TICKS_PER_UNIT
  }

  /** Integer part, a point and exactly two decimals. */
  function TickText(ticks: nat): string {
    Decimal(ticks / 100) + "." + [Digit(ticks % 100 / 10), Digit(ticks % 10)]
  }

  /** format_price_to_buffer for a buffer that is large enough. */
  function SignedPriceText(price: real): string {
    if price >= 0.0 then TickText(ToTicks(price))
    else if price * TICKS_PER_UNIT < MIN_LONG_LONG as real then ""
    else
      var cents := Round(price * TICKS_PER_UNIT);
      if cents < 0 then "-" + TickText(-cents) else TickText(0)
  }

  /** Tick rounding undoes the tick-to-price conversion for every 64-bit tick count. */
  lemma TickRoundTrip(ticks: nat)
    requires ticks <= MAX_TICK
    ensures ToTicks(ToPrice(ticks)) == ticks
  {
    assert ToPrice(ticks) * TICKS_PER_UNIT == ticks as real;
  }
}
