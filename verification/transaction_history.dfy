/**
 * The rolling transaction history (MFDL.Core/Engine/TransactionHistory.cs): an
 * insertion-ordered buffer that evicts from the head by age relative to the most
 * recently added timestamp, and answers trailing-window queries by a backward scan.
 */
module History {
  import opened Transactions

  /** Timestamps never decrease from head to tail. */
  predicate Sorted(s: seq<Transaction>) {
    forall i, j :: 0 <= i < j < |s| ==> s[i].timestamp <= s[j].timestamp
  }

  /** `r` is `s` with a prefix removed. */
  predicate IsSuffix(r: seq<Transaction>, s: seq<Transaction>) {
    |r| <= |s| && r == s[|s| - |r|..]
  }

  /**
   * What eviction leaves of `s`: the head is dropped while it is strictly older than
   * `cutoff`. Only a prefix goes; `EvictedBounds` says which one.
   */
  function Evicted(s: seq<Transaction>, cutoff: int): (r: seq<Transaction>)
    ensures IsSuffix(r, s)
  {
    if s != [] && s[0].timestamp < cutoff then Evicted(s[1..], cutoff) else s
  }

  /**
   * Eviction drops exactly the entries before the first one at or after `cutoff`: every
   * dropped entry is strictly older than the cutoff, and the new head (if any) is not, so
   * an entry exactly at the cutoff is kept.
   */
  lemma {:induction false} EvictedBounds(s: seq<Transaction>, cutoff: int)
    ensures var r := Evicted(s, cutoff);
      && (forall i :: 0 <= i < |s| - |r| ==> s[i].timestamp < cutoff)
      && (r != [] ==> r[0].timestamp >= cutoff)
  {
    if s != [] && s[0].timestamp < cutoff {
      EvictedBounds(s[1..], cutoff);
      var r := Evicted(s, cutoff);
      forall i | 1 <= i < |s| - |r| ensures s[i].timestamp < cutoff {
        assert s[i] == s[1..][i - 1];
      }
    }
  }

  /** The buffer after `Add(t)` on buffer `s` with retention `retention`. */
  function AfterAdd(s: seq<Transaction>, t: Transaction, retention: int): seq<Transaction> {
    Evicted(s + [t], t.timestamp - retention)
  }

  /**
   * Where a backward scan started just below index `i` stops: it steps towards the head
   * while the entry before it is at or after `cutoff`.
   */
  function ScanStop(s: seq<Transaction>, cutoff: int, i: nat): (k: nat)
    requires i <= |s|
    ensures k <= i
  {
    if i == 0 || s[i - 1].timestamp < cutoff then i else ScanStop(s, cutoff, i - 1)
  }

  /** What the backward scan from the tail collects, restored to buffer order. */
  function InWindowSuffix(s: seq<Transaction>, cutoff: int): (r: seq<Transaction>)
    ensures IsSuffix(r, s)
  {
    s[ScanStop(s, cutoff, |s|)..]
  }

  /**
   * The scan stops at the longest in-window stretch below `i`: every entry it passed lies
   * at or after `cutoff`, and the entry it stopped at (if any) does not.
   */
  lemma {:induction false} ScanStopBounds(s: seq<Transaction>, cutoff: int, i: nat)
    requires i <= |s|
    ensures var k := ScanStop(s, cutoff, i);
      && (forall j :: k <= j < i ==> s[j].timestamp >= cutoff)
      && (k > 0 ==> s[k - 1].timestamp < cutoff)
  {
    if i > 0 && s[i - 1].timestamp >= cutoff {
      ScanStopBounds(s, cutoff, i - 1);
    }
  }

  /**
   * The scan returns the longest suffix of `s` whose entries all lie at or after `cutoff`:
   * if it starts at index k, every entry from k on is in the window and the entry at k - 1
   * (if any) is not. There is no upper bound on the timestamps.
   */
  lemma InWindowSuffixBounds(s: seq<Transaction>, cutoff: int)
    ensures var k := |s| - |InWindowSuffix(s, cutoff)|;
      && (forall i :: k <= i < |s| ==> s[i].timestamp >= cutoff)
      && (k > 0 ==> s[k - 1].timestamp < cutoff)
  {
    ScanStopBounds(s, cutoff, |s|);
  }

  /**
   * Conversely, any index k with every entry from k on in the window and the entry at
   * k - 1 (if any) out of it is where the scan from `i` stops.
   */
  lemma {:induction false} ScanStopUnique(s: seq<Transaction>, cutoff: int, i: nat, k: nat)
    requires k <= i <= |s|
    requires forall j :: k <= j < i ==> s[j].timestamp >= cutoff
    requires k > 0 ==> s[k - 1].timestamp < cutoff
    ensures ScanStop(s, cutoff, i) == k
  {
    if k < i {
      ScanStopUnique(s, cutoff, i - 1, k);
    }
  }

  /** The in-window suffix is pinned down by the two properties of `InWindowSuffixBounds`. */
  lemma InWindowSuffixUnique(s: seq<Transaction>, cutoff: int, k: nat)
    requires k <= |s|
    requires forall i :: k <= i < |s| ==> s[i].timestamp >= cutoff
    requires k > 0 ==> s[k - 1].timestamp < cutoff
    ensures InWindowSuffix(s, cutoff) == s[k..]
  {
    ScanStopUnique(s, cutoff, |s|, k);
  }

  /**
   * Every entry of `s` at or after `cutoff`, in buffer order: the full filter, written as an
   * independent front-to-back reference for the backward scan, so that comparing the two
   * (`SortedWindowIsFilter`, `UnsortedWindowMissesEntries`) does not go through the scan's
   * own recursion.
   */
  function AtOrAfter(s: seq<Transaction>, cutoff: int): seq<Transaction> {
    if s == [] then []
    else (if s[0].timestamp >= cutoff then [s[0]] else []) + AtOrAfter(s[1..], cutoff)
  }

  function Reversed(s: seq<Transaction>): (r: seq<Transaction>)
    ensures |r| == |s|
  {
    if s == [] then [] else Reversed(s[1..]) + [s[0]]
  }

  lemma {:induction false} ReversedAppend(a: seq<Transaction>, b: seq<Transaction>)
    ensures Reversed(a + b) == Reversed(b) + Reversed(a)
  {
    if a == [] {
      assert a + b == b;
    } else {
      assert (a + b)[1..] == a[1..] + b;
      ReversedAppend(a[1..], b);
    }
  }

  /** Reversing twice gives back the list the scan collected in buffer order. */
  lemma {:induction false} ReversedTwice(s: seq<Transaction>)
    ensures Reversed(Reversed(s)) == s
  {
    if s != [] {
      ReversedTwice(s[1..]);
      ReversedAppend(Reversed(s[1..]), [s[0]]);
      assert Reversed([s[0]]) == [s[0]];
    }
  }

  /**
   * When everything before index k is older than `cutoff` and everything from k on is not,
   * the full filter keeps exactly the entries from k on.
   */
  lemma {:induction false} AtOrAfterSplit(s: seq<Transaction>, k: nat, cutoff: int)
    requires k <= |s|
    requires forall i :: 0 <= i < k ==> s[i].timestamp < cutoff
    requires forall i :: k <= i < |s| ==> s[i].timestamp >= cutoff
    ensures AtOrAfter(s, cutoff) == s[k..]
  {
    if s != [] {
      var k' := if k > 0 then k - 1 else 0;
      forall i | 0 <= i < k' ensures s[1..][i].timestamp < cutoff {
        assert s[1..][i] == s[i + 1];
      }
      forall i | k' <= i < |s| - 1 ensures s[1..][i].timestamp >= cutoff {
        assert s[1..][i] == s[i + 1];
      }
      AtOrAfterSplit(s[1..], k', cutoff);
      if k > 0 {
        assert s[1..][k'..] == s[k..];
      } else {
        assert s == [s[0]] + s[1..];
      }
    }
  }

  /** On a sorted buffer the early-stopping scan returns exactly the full filter. */
  lemma SortedWindowIsFilter(s: seq<Transaction>, cutoff: int)
    requires Sorted(s)
    ensures InWindowSuffix(s, cutoff) == AtOrAfter(s, cutoff)
  {
    var k := |s| - |InWindowSuffix(s, cutoff)|;
    InWindowSuffixBounds(s, cutoff);
    forall i | 0 <= i < k ensures s[i].timestamp < cutoff {
      assert s[i].timestamp <= s[k - 1].timestamp;
    }
    AtOrAfterSplit(s, k, cutoff);
  }

  /**
   * Without sortedness the scan can miss in-window entries: an old entry in the middle
   * of the buffer hides a newer one before it.
   */
  lemma UnsortedWindowMissesEntries(a: Transaction, b: Transaction, c: Transaction)
    requires a.timestamp == 100 && b.timestamp == 0 && c.timestamp == 100
    ensures InWindowSuffix([a, b, c], 50) == [c]
    ensures AtOrAfter([a, b, c], 50) == [a, c]
  {
    InWindowSuffixUnique([a, b, c], 50, 2);
    assert [a, b, c][1..] == [b, c] && [b, c][1..] == [c] && [c][1..] == [];
    assert AtOrAfter([c], 50) == [c];
    assert AtOrAfter([b, c], 50) == [c];
  }

  /** Entries newer than `asOf` are returned: the query tests only the lower cutoff. */
  lemma WindowHasNoUpperBound(s: seq<Transaction>, asOf: int, window: int)
    requires s != [] && window >= 0 && s[|s| - 1].timestamp > asOf
    ensures var r := InWindowSuffix(s, asOf - window);
            r != [] && r[|r| - 1] == s[|s| - 1] && r[|r| - 1].timestamp > asOf
  {
    assert s == s[..|s| - 1] + [s[|s| - 1]];
  }

  /** The added transaction survives its own eviction as the last entry when retention >= 0. */
  lemma AddKeepsLatest(s: seq<Transaction>, t: Transaction, retention: int)
    requires retention >= 0
    ensures var r := AfterAdd(s, t, retention);
            r != [] && r[|r| - 1] == t
  {
    var u := s + [t];
    var r := AfterAdd(s, t, retention);
    EvictedBounds(u, t.timestamp - retention);
    assert u[|u| - 1] == t;
    if r != [] {
      assert r[|r| - 1] == u[|u| - 1];
    }
  }

  /**
   * A sorted buffer receiving a transaction no older than its tail stays sorted, and every
   * surviving entry lies at or after `t.timestamp - retention`.
   */
  lemma AddKeepsSorted(s: seq<Transaction>, t: Transaction, retention: int)
    requires Sorted(s)
    requires s != [] ==> s[|s| - 1].timestamp <= t.timestamp
    ensures Sorted(AfterAdd(s, t, retention))
    ensures AllAtOrAfter(AfterAdd(s, t, retention), t.timestamp - retention)
  {
    var u := s + [t];
    SortedSnoc(s, t);
    var r := AfterAdd(s, t, retention);
    SortedSuffix(u, |u| - |r|);
    EvictedBounds(u, t.timestamp - retention);
    SortedHeadBound(r, t.timestamp - retention);
  }

  /** Every entry of `s` lies at or after `cutoff`. */
  predicate AllAtOrAfter(s: seq<Transaction>, cutoff: int) {
    forall i :: 0 <= i < |s| ==> s[i].timestamp >= cutoff
  }

  lemma SortedHeadBound(s: seq<Transaction>, cutoff: int)
    requires Sorted(s)
    requires s != [] ==> s[0].timestamp >= cutoff
    ensures AllAtOrAfter(s, cutoff)
  {
    forall i | 0 <= i < |s| ensures s[i].timestamp >= cutoff {
      assert s[0].timestamp <= s[i].timestamp;
    }
  }

  lemma SortedSnoc(s: seq<Transaction>, t: Transaction)
    requires Sorted(s)
    requires s != [] ==> s[|s| - 1].timestamp <= t.timestamp
    ensures Sorted(s + [t])
  {
    var u := s + [t];
    forall i, j | 0 <= i < j < |u| ensures u[i].timestamp <= u[j].timestamp {
      if j == |s| {
        assert u[j] == t;
        assert u[i] == s[i];
        assert s[i].timestamp <= s[|s| - 1].timestamp;
      } else {
        assert u[i] == s[i] && u[j] == s[j];
      }
    }
  }

  lemma SortedSuffix(s: seq<Transaction>, k: nat)
    requires Sorted(s) && k <= |s|
    ensures Sorted(s[k..])
  {
    forall i, j | 0 <= i < j < |s| - k ensures s[k..][i].timestamp <= s[k..][j].timestamp {
      assert s[k..][i] == s[k + i] && s[k..][j] == s[k + j];
    }
  }

  predicate NonDecreasing(ts: seq<Transaction>) {
    forall i :: 0 < i < |ts| ==> ts[i - 1].timestamp <= ts[i].timestamp
  }

  /** The buffer after adding `ts` in order to an empty history. */
  function Replay(ts: seq<Transaction>, retention: int): seq<Transaction> {
    if ts == [] then [] else AfterAdd(Replay(ts[..|ts| - 1], retention), ts[|ts| - 1], retention)
  }

  /**
   * A stream with non-decreasing timestamps leaves a sorted buffer whose entries all lie
   * within `retention` of the latest timestamp, and (retention >= 0) ends with the latest.
   */
  lemma {:induction false} ReplayInvariant(ts: seq<Transaction>, retention: int)
    requires ts != [] && NonDecreasing(ts)
    ensures var r := Replay(ts, retention);
      && Sorted(r)
      && AllAtOrAfter(r, ts[|ts| - 1].timestamp - retention)
      && (retention >= 0 ==> r != [] && r[|r| - 1] == ts[|ts| - 1])
  {
    var n := |ts| - 1;
    var prev := Replay(ts[..n], retention);
    if n > 0 {
      assert NonDecreasing(ts[..n]);
      ReplayInvariant(ts[..n], retention);
      ReplayEndsWithLatest(ts[..n], retention);
      assert ts[..n][n - 1] == ts[n - 1];
    }
    assert prev != [] ==> prev[|prev| - 1].timestamp <= ts[n].timestamp;
    AddKeepsSorted(prev, ts[n], retention);
    if retention >= 0 {
      AddKeepsLatest(prev, ts[n], retention);
    }
  }

  /** Whatever survives a replay ends with the last transaction replayed. */
  lemma ReplayEndsWithLatest(ts: seq<Transaction>, retention: int)
    requires ts != []
    ensures var r := Replay(ts, retention);
            r != [] ==> r[|r| - 1] == ts[|ts| - 1]
  {
    var u := Replay(ts[..|ts| - 1], retention) + [ts[|ts| - 1]];
    var r := Replay(ts, retention);
    if r != [] {
      assert r[|r| - 1] == u[|u| - 1];
    }
  }

  /**
   * The history object. `events` stands for the source's linked list `_events`, and
   * `retention` for `_retention`.
   */
  class TransactionHistory {
    const retention: int
    var events: seq<Transaction>

    constructor (retention: int)
      ensures this.retention == retention && events == []
    {
      this.retention := retention;
      events := [];
    }

    /** Appends `t` at the tail, then evicts relative to `t`'s timestamp. */
    method Add(t: Transaction)
      modifies this
      ensures events == AfterAdd(old(events), t, retention)
    {
      events := events + [t];
      EvictOld(t.timestamp);
    }

    method EvictOld(latestTs: int)
      modifies this
      ensures events == Evicted(old(events), latestTs - retention)
    {
      var cutoff := latestTs - retention;
      while events != [] && events[0].timestamp < cutoff
        invariant Evicted(events, cutoff) == Evicted(old(events), cutoff)
        decreases |events|
      {
        events := events[1..];
      }
    }

    /**
     * Scans from the tail towards the head, stopping at the first entry older than
     * `asOf - window`, and returns what it collected in buffer order: the longest
     * in-window suffix of the buffer. The buffer is left as it is.
     */
    method Recent(asOf: int, window: int) returns (r: seq<Transaction>)
      ensures r == InWindowSuffix(events, asOf - window)
    {
      var cutoff := asOf - window;
      var buffer := events;
      var list: seq<Transaction> := [];
      var i := |buffer|;
      while i > 0
        invariant 0 <= i <= |buffer|
        invariant list == Reversed(buffer[i..])
        invariant ScanStop(buffer, cutoff, i) == ScanStop(buffer, cutoff, |buffer|)
        decreases i
      {
        if buffer[i - 1].timestamp < cutoff {
          break;
        }
        assert buffer[i - 1..][1..] == buffer[i..];
        list := list + [buffer[i - 1]];
        i := i - 1;
      }
      ReversedTwice(buffer[i..]);
      r := Reversed(list);
    }
  }

  /** `Recent` only reads the buffer: two queries with no `Add` between them agree. */
  method RecentTwice(h: TransactionHistory, asOf: int, window: int) returns (first: seq<Transaction>, second: seq<Transaction>)
    ensures first == second
    ensures first == InWindowSuffix(h.events, asOf - window)
  {
    first := h.Recent(asOf, window);
    second := h.Recent(asOf, window);
  }
}
