/**
 * RefundRule (MFDL.Core/Rules/RefundRule.cs): flags a single unusually large refund, and
 * otherwise a burst of refunds by the same cashier in a 15-minute trailing window.
 */
module Refunds {
  import opened Wrappers
  import opened Transactions
  import opened Alerts
  import opened Filtering

  const Id: string := "R001_RefundBurst"
  const Name: string := "Refund Burst / Large Refund"

  const WindowMinutes: int := 15
  const Window: int := WindowMinutes * TicksPerMinute
  /** More than this many refunds in the window is a burst. */
  const CountThreshold: int := 3
  /** 10,000 KES. */
  const SingleRefundAmount: int := 10000 * AmountScale

  /** Whether an entry of `recent` counts towards `current`'s burst. */
  function Matches(current: Transaction): Transaction -> bool {
    (t: Transaction) => && t.cashierId == current.cashierId
                        && t.kind == Refund
                        && current.timestamp - Window <= t.timestamp <= current.timestamp
  }

  function Total(s: seq<Transaction>): int {
    if s == [] then 0 else Total(s[..|s| - 1]) + s[|s| - 1].amount
  }

  /** The rule's decision for `current` against the engine's window `recent`. */
  function Evaluate(current: Transaction, recent: seq<Transaction>, stamp: AlertStamp): (r: Option<Alert>)
    ensures r.Some? <==>
      current.kind == Refund && (current.amount >= SingleRefundAmount || |Where(Matches(current), recent)| > CountThreshold)
    ensures r.Some? ==>
      && r.value.severity == High
      && r.value.rule == Name
      && r.value.storeId == current.storeId
      && r.value.cashierId == current.cashierId
      && r.value.transactionId == current.id
      && r.value.alertId == stamp.alertId
      && r.value.detectedAt == stamp.detectedAt
    ensures r.Some? && current.amount >= SingleRefundAmount ==>
      r.value.features == map["type" := Text("single_large_refund"), "amount" := Money(current.amount)]
    ensures r.Some? && current.amount < SingleRefundAmount ==>
      var burst := Where(Matches(current), recent);
      r.value.features == map["count_window" := Int(WindowMinutes), "count" := Int(|burst|), "sum" := Money(Total(burst))]
  {
    if current.kind != Refund then None
    else if current.amount >= SingleRefundAmount then
      Some(Alert(stamp.alertId, Name, High, current.storeId, current.cashierId, current.id, stamp.detectedAt,
                 map["type" := Text("single_large_refund"), "amount" := Money(current.amount)]))
    else
      var burst := Where(Matches(current), recent);
      if |burst| > CountThreshold then
        Some(Alert(stamp.alertId, Name, High, current.storeId, current.cashierId, current.id, stamp.detectedAt,
                   map["count_window" := Int(WindowMinutes), "count" := Int(|burst|), "sum" := Money(Total(burst))]))
      else None
  }

  /** A non-refund never raises an alert, whatever the window holds. */
  lemma NonRefundNeverAlerts(current: Transaction, recent: seq<Transaction>, stamp: AlertStamp)
    requires current.kind != Refund
    ensures Evaluate(current, recent, stamp) == None
  {
  }

  /** A large refund alerts on its own: the window is not consulted. */
  lemma LargeRefundIgnoresWindow(current: Transaction, r1: seq<Transaction>, r2: seq<Transaction>, stamp: AlertStamp)
    requires current.kind == Refund && current.amount >= SingleRefundAmount
    ensures Evaluate(current, r1, stamp) == Evaluate(current, r2, stamp)
    ensures Evaluate(current, r1, stamp).Some?
  {
  }

  /**
   * Monotonicity: inserting further transactions anywhere in the window never turns a
   * burst alert into no alert.
   */
  lemma BurstMonotone(current: Transaction, a: seq<Transaction>, b: seq<Transaction>, extra: seq<Transaction>,
                      stamp: AlertStamp)
    requires Evaluate(current, a + b, stamp).Some?
    ensures Evaluate(current, a + extra + b, stamp).Some?
    ensures |Where(Matches(current), a + extra + b)| == |Where(Matches(current), a + b)| + |Where(Matches(current), extra)|
  {
    WhereAppend(Matches(current), a, b);
    WhereAppend(Matches(current), a, extra);
    WhereAppend(Matches(current), a + extra, b);
  }

  lemma {:induction false} TotalAppend(a: seq<Transaction>, b: seq<Transaction>)
    ensures Total(a + b) == Total(a) + Total(b)
  {
    if b == [] {
      assert a + b == a;
    } else {
      var b' := b[..|b| - 1];
      assert (a + b)[..|a + b| - 1] == a + b';
      TotalAppend(a, b');
    }
  }

  /**
   * With positive amounts the reported burst sum never exceeds the total of the window, and
   * it is positive whenever the burst is not empty.
   */
  lemma {:induction false} BurstSumBounded(keep: Transaction -> bool, recent: seq<Transaction>)
    requires forall i :: 0 <= i < |recent| ==> WellFormed(recent[i])
    ensures Total(Where(keep, recent)) <= Total(recent)
    ensures Where(keep, recent) != [] ==> Total(Where(keep, recent)) > 0
  {
    if recent != [] {
      var n := |recent| - 1;
      forall i | 0 <= i < n ensures WellFormed(recent[..n][i]) {
        assert recent[..n][i] == recent[i];
      }
      BurstSumBounded(keep, recent[..n]);
      var rest := Where(keep, recent[..n]);
      if keep(recent[n]) {
        assert (rest + [recent[n]])[..|rest|] == rest;
      }
    }
  }

  /**
   * The fourth matching refund fires: three refunds in the window (the current one
   * included) give no alert, four give a burst alert with count 4.
   */
  lemma FourthRefundFires(current: Transaction, r1: Transaction, r2: Transaction, r3: Transaction, stamp: AlertStamp)
    requires current.kind == Refund && current.amount < SingleRefundAmount
    requires Matches(current)(r1) && Matches(current)(r2) && Matches(current)(r3)
    ensures Evaluate(current, [r1, r2, current], stamp) == None
    ensures var a := Evaluate(current, [r1, r2, r3, current], stamp);
            a.Some? && a.value.features["count"] == Int(4)
  {
    WhereAll(Matches(current), [r1, r2, current]);
    WhereAll(Matches(current), [r1, r2, r3, current]);
  }
}
