/**
 * The engine (MFDL.Core/Engine/FraudEngine.cs): an ordered list of rules over one rolling
 * history. Each transaction is added to the history, a 30-minute window is taken, and
 * every rule is evaluated in registration order; each alert is saved to the sink, then
 * emitted.
 */
module Engine {
  import opened Wrappers
  import opened Transactions
  import opened Alerts
  import opened FraudRules
  import opened History
  import Filtering

  /** The window handed to the rules: 30 minutes back from the transaction's timestamp. */
  const Lookback: int := 30 * TicksPerMinute

  /**
   * Each registered rule's result for `t` over `window`, in registration order: every rule
   * is evaluated once, all on the same transaction and window; rule i uses `stamps[i]`.
   */
  function Results(rules: seq<FraudRule>, t: Transaction, window: seq<Transaction>, stamps: seq<AlertStamp>)
    : (r: seq<Option<Alert>>)
    requires |stamps| == |rules|
    ensures |r| == |rules|
  {
    if rules == [] then []
    else
      var n := |rules| - 1;
      Results(rules[..n], t, window, stamps[..n]) + [rules[n].Evaluate(t, window, stamps[n])]
  }

  /** Result i is rule i's own evaluation, on the shared transaction and window. */
  lemma {:induction false} ResultsAt(rules: seq<FraudRule>, t: Transaction, window: seq<Transaction>,
                                     stamps: seq<AlertStamp>, i: nat)
    requires |stamps| == |rules| && i < |rules|
    ensures Results(rules, t, window, stamps)[i] == rules[i].Evaluate(t, window, stamps[i])
  {
    var n := |rules| - 1;
    if i < n {
      ResultsAt(rules[..n], t, window, stamps[..n], i);
      assert rules[..n][i] == rules[i] && stamps[..n][i] == stamps[i];
    }
  }

  /** What the engine emits from a list of rule results: the non-null ones, in order. */
  function Emitted(results: seq<Option<Alert>>): (r: seq<Alert>)
    ensures |r| <= |results|
  {
    if results == [] then []
    else
      var n := |results| - 1;
      match results[n]
      case Some(a) => Emitted(results[..n]) + [a]
      case None => Emitted(results[..n])
  }

  /**
   * The output holds exactly the non-null results: every alert comes from some result,
   * and every non-null result is emitted.
   */
  lemma {:induction false} EmittedExactly(results: seq<Option<Alert>>)
    ensures forall a :: a in Emitted(results) ==> Some(a) in results
    ensures forall i :: 0 <= i < |results| && results[i].Some? ==> results[i].value in Emitted(results)
  {
    if results != [] {
      var n := |results| - 1;
      EmittedExactly(results[..n]);
      assert results == results[..n] + [results[n]];
      forall i | 0 <= i < n && results[i].Some?
        ensures results[i].value in Emitted(results)
      {
        assert results[..n][i] == results[i];
      }
    }
  }

  /** Emission order follows result order: the alerts of a concatenation are concatenated. */
  lemma {:induction false} EmittedAppend(a: seq<Option<Alert>>, b: seq<Option<Alert>>)
    ensures Emitted(a + b) == Emitted(a) + Emitted(b)
  {
    if b == [] {
      assert a + b == a;
    } else {
      var n := |b| - 1;
      assert (a + b)[..|a| + n] == a + b[..n];
      assert (a + b)[|a| + n] == b[n];
      EmittedAppend(a, b[..n]);
    }
  }

  /** One more result appends its alert, if it has one, and leaves earlier alerts alone. */
  lemma EmittedSnoc(results: seq<Option<Alert>>, o: Option<Alert>)
    ensures Emitted(results + [o]) == Emitted(results) + match o case Some(a) => [a] case None => []
  {
    assert (results + [o])[..|results|] == results;
  }

  /**
   * Refund then velocity, on a large refund whose window holds 61 copies of it: two
   * alerts, the refund alert first. The engine does not deduplicate.
   */
  lemma RefundThenVelocity(t: Transaction, window: seq<Transaction>, s1: AlertStamp, s2: AlertStamp)
    requires t.kind == Refund && t.amount >= Refunds.SingleRefundAmount
    requires |window| == 61 && forall i :: 0 <= i < 61 ==> window[i] == t
    ensures var alerts := Emitted(Results([RefundRule, VelocityRule], t, window, [s1, s2]));
      && |alerts| == 2
      && alerts[0].rule == Refunds.Name
      && "type" in alerts[0].features && alerts[0].features["type"] == Text("single_large_refund")
      && alerts[1].rule == Velocity.Name && alerts[1].severity == Medium
  {
    var results := Results([RefundRule, VelocityRule], t, window, [s1, s2]);
    ResultsAt([RefundRule, VelocityRule], t, window, [s1, s2], 0);
    ResultsAt([RefundRule, VelocityRule], t, window, [s1, s2], 1);
    var refund := Refunds.Evaluate(t, window, s1);
    assert results[0] == refund;
    assert refund.Some? && refund.value.rule == Refunds.Name
      && refund.value.features["type"] == Text("single_large_refund");
    Filtering.WhereAll(Velocity.Matches(t), window);
    Velocity.SeverityByCount(61);
    var velocity := Velocity.Evaluate(t, window, s2);
    assert results[1] == velocity;
    assert velocity.Some? && velocity.value.rule == Velocity.Name && velocity.value.severity == Medium;
    assert results == [refund] + [velocity];
    EmittedAppend([refund], [velocity]);
    assert [refund][..0] == [] && [velocity][..0] == [];
  }

  /**
   * The window the rules see ends with the transaction being processed, as long as the
   * retention is not negative: the history is updated before the window is taken.
   */
  lemma WindowEndsWithCurrent(s: seq<Transaction>, t: Transaction, retention: int)
    requires retention >= 0
    ensures var w := InWindowSuffix(AfterAdd(s, t, retention), t.timestamp - Lookback);
            w != [] && w[|w| - 1] == t
  {
    AddKeepsLatest(s, t, retention);
    var h := AfterAdd(s, t, retention);
    var w := InWindowSuffix(h, t.timestamp - Lookback);
    assert h[|h| - 1].timestamp >= t.timestamp - Lookback;
    if w != [] {
      assert w[|w| - 1] == h[|h| - 1];
    }
  }

  class FraudEngine {
    const history: TransactionHistory
    var rules: seq<FraudRule>
    /** The alert sink: every alert ever saved, oldest first. */
    ghost var saved: seq<Alert>

    constructor (historyRetention: int)
      ensures fresh(history)
      ensures history.retention == historyRetention && history.events == []
      ensures rules == [] && saved == []
    {
      history := new TransactionHistory(historyRetention);
      rules := [];
      saved := [];
    }

    /** Appends `rule` to the rule list and returns this same engine, for chaining. */
    method RegisterRule(rule: FraudRule) returns (self: FraudEngine)
      modifies this`rules
      ensures self == this
      ensures rules == old(rules) + [rule]
    {
      rules := rules + [rule];
      self := this;
    }

    /**
     * Processes one transaction: the history receives `t`, the rules see the 30-minute
     * window of the updated history, and the result is every non-null rule result in
     * registration order. Each alert is appended to the sink exactly once, in the same
     * order. `stamps[i]` supplies the id and clock reading of rule i's alert.
     */
    method Process(t: Transaction, stamps: seq<AlertStamp>) returns (alerts: seq<Alert>)
      requires |stamps| == |rules|
      modifies this`saved, history
      ensures history.events == AfterAdd(old(history.events), t, history.retention)
      ensures alerts == Emitted(Results(rules, t, InWindowSuffix(history.events, t.timestamp - Lookback), stamps))
      ensures saved == old(saved) + alerts
    {
      var registered := rules;
      history.Add(t);
      var recent := history.Recent(t.timestamp, Lookback);
      alerts := EvaluateRules(registered, t, recent, stamps);
    }

    /**
     * The rule loop of `Process`: each rule of `registered`, in order, sees the same `t` and
     * `recent`; each non-null result is saved to the sink and then added to the output.
     */
    method EvaluateRules(registered: seq<FraudRule>, t: Transaction, recent: seq<Transaction>,
                         stamps: seq<AlertStamp>) returns (alerts: seq<Alert>)
      requires |stamps| == |registered|
      modifies this`saved
      ensures alerts == Emitted(Results(registered, t, recent, stamps))
      ensures saved == old(saved) + alerts
    {
      alerts := [];
      var i := 0;
      while i < |registered|
        invariant 0 <= i <= |registered|
        invariant alerts == Emitted(Results(registered[..i], t, recent, stamps[..i]))
        invariant saved == old(saved) + alerts
      {
        var alert := registered[i].Evaluate(t, recent, stamps[i]);
        assert registered[..i + 1][..i] == registered[..i] && stamps[..i + 1][..i] == stamps[..i];
        EmittedSnoc(Results(registered[..i], t, recent, stamps[..i]), alert);
        if alert.Some? {
          saved := saved + [alert.value];
          alerts := alerts + [alert.value];
        }
        i := i + 1;
      }
      assert registered[..i] == registered && stamps[..i] == stamps;
    }
  }

  /**
   * On an empty history with the refund rule then the velocity rule registered, one large
   * refund yields exactly the large-refund alert; the velocity rule stays silent.
   */
  lemma LargeRefundOnEmptyHistory(big: Transaction, retention: int, s1: AlertStamp, s2: AlertStamp)
    requires retention >= 0
    requires big.kind == Refund && big.amount >= Refunds.SingleRefundAmount
    ensures var window := InWindowSuffix(AfterAdd([], big, retention), big.timestamp - Lookback);
            var alerts := Emitted(Results([RefundRule, VelocityRule], big, window, [s1, s2]));
            |alerts| == 1 && alerts[0].rule == Refunds.Name && alerts[0].severity == High
            && "type" in alerts[0].features && alerts[0].features["type"] == Text("single_large_refund")
  {
    var window := InWindowSuffix(AfterAdd([], big, retention), big.timestamp - Lookback);
    WindowEndsWithCurrent([], big, retention);
    assert window == [big];
    var results := Results([RefundRule, VelocityRule], big, window, [s1, s2]);
    assert results[1] == None;
    assert results == [results[0]] + [results[1]];
    EmittedAppend([results[0]], [results[1]]);
    assert [results[0]][..0] == [] && [results[1]][..0] == [];
  }

  /** A client of the engine: the chained registration and one large refund. */
  method LargeRefundScenario(s1: AlertStamp, s2: AlertStamp) {
    var engine := new FraudEngine(120 * TicksPerMinute);
    var e := engine.RegisterRule(RefundRule);
    e := e.RegisterRule(VelocityRule);
    assert engine.rules == [RefundRule, VelocityRule] && engine.history.events == [];
    var big := Transaction(id := "TXN_BIGR", cashierId := "OpA", kind := Refund, amount := 15000 * AmountScale,
                           timestamp := 120 * TicksPerMinute);
    var alerts := engine.Process(big, [s1, s2]);
    assert alerts == Emitted(Results([RefundRule, VelocityRule], big,
      InWindowSuffix(AfterAdd([], big, 120 * TicksPerMinute), big.timestamp - Lookback), [s1, s2]));
    LargeRefundOnEmptyHistory(big, 120 * TicksPerMinute, s1, s2);
    assert |alerts| == 1 && alerts[0].rule == Refunds.Name;
    assert engine.saved == alerts;
  }
}
