/**
 * VelocityRule (MFDL.Core/Rules/VelocityRule.cs): flags a cashier who rings up too many
 * transactions, of any type, in a 5-minute trailing window.
 */
module Velocity {
  import opened Wrappers
  import opened Transactions
  import opened Alerts
  import opened Filtering

  const Id: string := "R002_Velocity"
  const Name: string := "Cashier Velocity Anomaly"

  const WindowMinutes: int := 5
  const Window: int := WindowMinutes * TicksPerMinute
  /** More than this many transactions in the window raises an alert. */
  const TxnThreshold: int := 60
  /** Above this many transactions per minute the alert is High rather than Medium. */
  const RateThreshold: real := 20.0

  /** Whether an entry of `recent` counts towards `current`'s velocity; its type plays no part. */
  function Matches(current: Transaction): Transaction -> bool {
    (t: Transaction) => && t.cashierId == current.cashierId
                        && current.timestamp - Window <= t.timestamp <= current.timestamp
  }

  /** Transactions per minute over the window, computed exactly. */
  function Rate(count: int): real {
    (count as real) / (WindowMinutes as real)
  }

  function SeverityFor(count: int): Severity {
    if Rate(count) > RateThreshold then High else Medium
  }

  function Evaluate(current: Transaction, recent: seq<Transaction>, stamp: AlertStamp): (r: Option<Alert>)
    ensures r.Some? <==> |Where(Matches(current), recent)| > TxnThreshold
    ensures r.Some? ==>
      && r.value.severity == SeverityFor(|Where(Matches(current), recent)|)
      && r.value.rule == Name
      && r.value.storeId == current.storeId
      && r.value.cashierId == current.cashierId
      && r.value.transactionId == current.id
      && r.value.alertId == stamp.alertId
      && r.value.detectedAt == stamp.detectedAt
      && r.value.features == map["window_min" := Int(WindowMinutes), "count" := Int(|Where(Matches(current), recent)|)]
  {
    var byCashier := Where(Matches(current), recent);
    if |byCashier| > TxnThreshold then
      Some(Alert(stamp.alertId, Name, SeverityFor(|byCashier|), current.storeId, current.cashierId, current.id,
                 stamp.detectedAt, map["window_min" := Int(WindowMinutes), "count" := Int(|byCashier|)]))
    else None
  }

  /** The rate test is the integer test `count > 100`, and an alert is never Low. */
  lemma SeverityByCount(count: int)
    ensures SeverityFor(count) == High <==> count > 100
    ensures SeverityFor(count) != Low
  {
    var x := count as real;
    if count > 100 {
      assert x >= 101.0;
      assert x / 5.0 >= 101.0 / 5.0;
    } else {
      assert x <= 100.0;
      assert x / 5.0 <= 100.0 / 5.0;
    }
  }

  /** Changing the types of the window's entries changes nothing. */
  lemma {:induction false} TypeIrrelevant(current: Transaction, recent: seq<Transaction>, kinds: seq<TransactionType>)
    requires |kinds| == |recent|
    ensures |Where(Matches(current), recent)| == |Where(Matches(current), Retyped(recent, kinds))|
  {
    if recent != [] {
      var n := |recent| - 1;
      assert Retyped(recent, kinds)[..n] == Retyped(recent[..n], kinds[..n]);
      TypeIrrelevant(current, recent[..n], kinds[..n]);
    }
  }

  /** `recent` with the i-th entry's type replaced by `kinds[i]`. */
  function Retyped(recent: seq<Transaction>, kinds: seq<TransactionType>): (r: seq<Transaction>)
    requires |kinds| == |recent|
    ensures |r| == |recent|
    ensures forall i :: 0 <= i < |r| ==> r[i] == recent[i].(kind := kinds[i])
  {
    seq(|recent|, i requires 0 <= i < |recent| => recent[i].(kind := kinds[i]))
  }

  /** Any sixty matching transactions stay silent; any sixty-one raise a Medium alert. */
  lemma SixtyFirstFires(current: Transaction, w60: seq<Transaction>, w61: seq<Transaction>, stamp: AlertStamp)
    requires |w60| == 60 && forall i :: 0 <= i < |w60| ==> Matches(current)(w60[i])
    requires |w61| == 61 && forall i :: 0 <= i < |w61| ==> Matches(current)(w61[i])
    ensures Evaluate(current, w60, stamp) == None
    ensures var a := Evaluate(current, w61, stamp);
            a.Some? && a.value.severity == Medium
  {
    WhereAll(Matches(current), w60);
    WhereAll(Matches(current), w61);
    SeverityByCount(61);
  }
}
