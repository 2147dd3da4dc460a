/**
 * The transaction record a point-of-sale feed delivers (MFDL.Core/Models/Transactions.cs).
 * Timestamps and durations are integers counted in .NET ticks (100 ns); amounts are
 * integers counted in hundredths of the currency unit, so sums never round.
 */
module Transactions {

  /** Ticks in one minute: 60 s of 10_000_000 ticks each. */
  const TicksPerMinute: int := 600_000_000

  /** Amounts are fixed-point with two decimals: 10000 KES is `10000 * AmountScale`. */
  const AmountScale: int := 100

  /** The five kinds of event a till reports, and no others. */
  datatype TransactionType = Sale | Refund | Void | Discount | DrawerOpen

  /**
   * An immutable transaction. Store, terminal, cashier and currency default to the
   * values the source gives them; `timestamp` is the event time chosen by the producer,
   * not the time the engine receives it.
   */
  datatype Transaction = Transaction(
    id: string,
    storeId: string := "Store001",
    terminalId: string := "T001",
    cashierId: string := "Op001",
    kind: TransactionType,
    amount: int,
    currency: string := "KES",
    timestamp: int,
    attributes: map<string, string> := map[])

  /** The field comment on `Amount` asks for positive values; nothing in the core enforces it. */
  predicate WellFormed(t: Transaction) {
    t.amount > 0
  }
}
