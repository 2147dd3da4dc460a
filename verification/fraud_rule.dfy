/**
 * The rule capability (MFDL.Core/Rules/IFraudRule.cs): a fixed id, a display name and an
 * evaluation from (current transaction, read-only window) to at most one alert. The
 * open interface is modelled as the closed set of its two implementations.
 */
module FraudRules {
  import opened Wrappers
  import opened Transactions
  import opened Alerts
  import Refunds
  import Velocity
  import Filtering

  datatype FraudRule = RefundRule | VelocityRule {

    function Id(): string {
      match this
      case RefundRule => Refunds.Id
      case VelocityRule => Velocity.Id
    }

    function Name(): string {
      match this
      case RefundRule => Refunds.Name
      case VelocityRule => Velocity.Name
    }

    /**
     * At most one alert per call; `None` means no detection. Every alert carries the
     * rule's name, the triggering transaction's store, cashier and id, and the stamp.
     */
    function Evaluate(current: Transaction, recent: seq<Transaction>, stamp: AlertStamp): (r: Option<Alert>)
      ensures r.Some? ==>
        && r.value.rule == Name()
        && r.value.storeId == current.storeId
        && r.value.cashierId == current.cashierId
        && r.value.transactionId == current.id
        && r.value.alertId == stamp.alertId
        && r.value.detectedAt == stamp.detectedAt
        && r.value.severity != Low
    {
      match this
      case RefundRule => Refunds.Evaluate(current, recent, stamp)
      case VelocityRule =>
        var r := Velocity.Evaluate(current, recent, stamp);
        if r.Some? then Velocity.SeverityByCount(|Filtering.Where(Velocity.Matches(current), recent)|); r else r
    }
  }

  /** The two rules are told apart by their ids and by their names. */
  lemma IdsDistinct(a: FraudRule, b: FraudRule)
    ensures a.Id() == b.Id() <==> a == b
    ensures a.Name() == b.Name() <==> a == b
  {
    if a != b {
      assert Refunds.Id[3] != Velocity.Id[3];
      assert Refunds.Name[0] != Velocity.Name[0];
    }
  }
}
