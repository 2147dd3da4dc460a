/**
 * The alert record a rule produces (MFDL.Core/Models/Alert.cs). The GUID and the clock
 * reading that the source takes as defaults arrive here as an `AlertStamp` parameter.
 */
module Alerts {

  datatype Severity = Low | Medium | High

  /** Position of a severity in the order Low < Medium < High. */
  function Rank(s: Severity): (n: nat)
    ensures n < 3
    ensures s == Low <==> n == 0
    ensures s == High <==> n == 2
  {
    match s
    case Low => 0
    case Medium => 1
    case High => 2
  }

  predicate Below(a: Severity, b: Severity) {
    Rank(a) < Rank(b)
  }

  /** `Below` is a strict total order on the three severities. */
  lemma SeverityTotalOrder(a: Severity, b: Severity, c: Severity)
    ensures !Below(a, a)
    ensures a == b || Below(a, b) || Below(b, a)
    ensures Below(a, b) && Below(b, c) ==> Below(a, c)
    ensures Below(Low, Medium) && Below(Medium, High)
  {
    if Rank(a) == Rank(b) {
      assert a == b by {
        match a
        case Low =>
        case Medium =>
        case High =>
      }
    }
  }

  /** A value in an alert's evidence map: a count, an amount (fixed-point) or a label. */
  datatype Feature = Int(n: int) | Money(amount: int) | Text(s: string)

  /** What the source draws from `Guid.NewGuid()` and `DateTimeOffset.UtcNow` for each alert. */
  datatype AlertStamp = AlertStamp(alertId: string, detectedAt: int)

  /** An immutable alert; `rule` holds the producing rule's display name. */
  datatype Alert = Alert(
    alertId: string,
    rule: string,
    severity: Severity,
    storeId: string,
    cashierId: string,
    transactionId: string,
    detectedAt: int,
    features: map<string, Feature> := map[])
}
