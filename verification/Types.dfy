/** The exchange's value types and configuration constants. */
module Types {

  /** A 16-bit quantity field. Every subtraction on it is proved not to wrap. */
  type uint16 = x: int | 0 <= x < 0x1_0000

  datatype Side = Buy | Sell

  datatype Instrument = Rose | Lavender | Lotus | Tulip | Orchid

  datatype ExecStatus = New | Rejected | Fill | PFill

  datatype Option<+T> = None | Some(value: T)

  datatype Result<+T, +E> = Ok(value: T) | Err(error: E)

  const QUANTITY_MULTIPLE: nat := 10
  const MIN_QUANTITY: nat := 10
  const MAX_QUANTITY: nat := 1000
  const TICK_CAPACITY: nat := 100001
  const TICKS_PER_UNIT: real := 100.0
  const MIN_VALID_PRICE: real := 0.0
  const MAX_VALID_PRICE: real := (TICK_CAPACITY - 1) as real / TICKS_PER_UNIT

  /** The payload of an order; the intrusive link lives in the heap cell that embeds it. */
  datatype Order = Order(oid: string, coid: string, instrument: Instrument, side: Side, price: nat, quantity: uint16)

  datatype Report = Report(
    oid: string, coid: string, instrument: Option<Instrument>, side: Side, price: nat, quantity: uint16,
    status: ExecStatus, reason: string, timestamp: string)

  function Opposite(side: Side): Side {
    match side
    case Buy => Sell
    case Sell => Buy
  }

  function Min(a: nat, b: nat): nat {
    if a <= b then a else b
  }
}
