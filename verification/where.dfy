/**
 * LINQ's `Where` over a window of transactions, the filter both rules apply to the
 * engine's window before counting (MFDL.Core/Rules/RefundRule.cs, VelocityRule.cs).
 */
module Filtering {
  import opened Transactions

  /** The entries of `s` that satisfy `keep`, in their order in `s`. */
  function Where(keep: Transaction -> bool, s: seq<Transaction>): (r: seq<Transaction>)
    ensures |r| <= |s|
    ensures forall x :: x in r ==> x in s && keep(x)
    ensures forall x :: x in s && keep(x) ==> x in r
  {
    if s == [] then []
    else
      var rest := Where(keep, s[..|s| - 1]);
      var last := s[|s| - 1];
      if keep(last) then rest + [last] else rest
  }

  /** Splitting the window splits the result: the filter keeps window order. */
  lemma {:induction false} WhereAppend(keep: Transaction -> bool, a: seq<Transaction>, b: seq<Transaction>)
    ensures Where(keep, a + b) == Where(keep, a) + Where(keep, b)
  {
    if b == [] {
      assert a + b == a;
    } else {
      var b' := b[..|b| - 1];
      assert (a + b)[..|a + b| - 1] == a + b';
      assert (a + b)[|a + b| - 1] == b[|b| - 1];
      WhereAppend(keep, a, b');
    }
  }

  /** A window whose every entry passes is kept whole. */
  lemma {:induction false} WhereAll(keep: Transaction -> bool, s: seq<Transaction>)
    requires forall i :: 0 <= i < |s| ==> keep(s[i])
    ensures Where(keep, s) == s
  {
    if s != [] {
      var n := |s| - 1;
      forall i | 0 <= i < n ensures keep(s[..n][i]) {
        assert s[..n][i] == s[i];
      }
      WhereAll(keep, s[..n]);
      assert s == s[..n] + [s[n]];
    }
  }

  /**
   * Multiplicity: every entry that passes keeps all its copies and every other entry has
   * none, so the length of the result is the number of passing entries of `s`.
   */
  lemma {:induction false} WhereMultiset(keep: Transaction -> bool, s: seq<Transaction>)
    ensures forall x :: multiset(Where(keep, s))[x] == if keep(x) then multiset(s)[x] else 0
  {
    if s != [] {
      var n := |s| - 1;
      WhereMultiset(keep, s[..n]);
      assert s == s[..n] + [s[n]];
    }
  }
}
