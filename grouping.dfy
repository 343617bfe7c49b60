/**
 * The `GROUP BY <column>` with `SUM(duration)` step and the `ORDER BY ... DESC`
 * step of the usage queries, over the (key, seconds) pairs a `SELECT` yields.
 */
module Grouping {

  /** One selected row: the text of the grouping column and the row's duration in seconds. */
  type Pair = (string, int)

  /** `SUM(duration)` over the pairs whose key is k; 0 when there are none. */
  function KeySum(ps: seq<Pair>, k: string): int {
    if ps == [] then 0 else (if ps[0].0 == k then ps[0].1 else 0) + KeySum(ps[1..], k)
  }

  /** The seconds of all pairs. */
  function Total(ps: seq<Pair>): int {
    if ps == [] then 0 else ps[0].1 + Total(ps[1..])
  }

  /** The keys that occur. */
  function KeySet(ps: seq<Pair>): set<string> {
    if ps == [] then {} else {ps[0].0} + KeySet(ps[1..])
  }

  /** No key occurs twice. */
  predicate DistinctKeys(ps: seq<Pair>) {
    ps == [] || (ps[0].0 !in KeySet(ps[1..]) && DistinctKeys(ps[1..]))
  }

  lemma {:induction false} KeySetMembers(ps: seq<Pair>)
    ensures forall k :: k in KeySet(ps) <==> exists i :: 0 <= i < |ps| && ps[i].0 == k
  {
    if ps != [] {
      KeySetMembers(ps[1..]);
      forall k | k in KeySet(ps) ensures exists i :: 0 <= i < |ps| && ps[i].0 == k {
        if k != ps[0].0 {
          assert k in KeySet(ps[1..]);
          var i :| 0 <= i < |ps[1..]| && ps[1..][i].0 == k;
          assert ps[i + 1].0 == k;
        }
      }
      forall k | exists i :: 0 <= i < |ps| && ps[i].0 == k ensures k in KeySet(ps) {
        var i :| 0 <= i < |ps| && ps[i].0 == k;
        if i > 0 {
          assert ps[1..][i - 1].0 == k;
        }
      }
    }
  }

  /** Distinct keys, stated over positions. */
  lemma {:induction false} DistinctAt(ps: seq<Pair>)
    requires DistinctKeys(ps)
    ensures forall i, j :: 0 <= i < j < |ps| ==> ps[i].0 != ps[j].0
  {
    if ps != [] {
      DistinctAt(ps[1..]);
      KeySetMembers(ps[1..]);
      forall i, j | 0 <= i < j < |ps| ensures ps[i].0 != ps[j].0 {
        assert ps[j] == ps[1..][j - 1];
        if i > 0 {
          assert ps[i] == ps[1..][i - 1];
        }
      }
    }
  }

  /** A key that does not occur sums to 0. */
  lemma {:induction false} KeySumAbsent(ps: seq<Pair>, k: string)
    requires k !in KeySet(ps)
    ensures KeySum(ps, k) == 0
  {
    if ps != [] {
      KeySumAbsent(ps[1..], k);
    }
  }

  /** With distinct keys, each entry holds the whole sum of its key. */
  lemma {:induction false} EntryIsKeySum(gs: seq<Pair>, i: int)
    requires DistinctKeys(gs) && 0 <= i < |gs|
    ensures KeySum(gs, gs[i].0) == gs[i].1
  {
    if i == 0 {
      KeySumAbsent(gs[1..], gs[0].0);
    } else {
      EntryIsKeySum(gs[1..], i - 1);
      DistinctAt(gs);
    }
  }

  /** Adds one pair to its group, opening a new group at the end when its key is new. */
  function AddTo(gs: seq<Pair>, p: Pair): (r: seq<Pair>)
    ensures KeySet(r) == KeySet(gs) + {p.0}
    ensures DistinctKeys(gs) ==> DistinctKeys(r)
    ensures forall k :: KeySum(r, k) == KeySum(gs, k) + (if k == p.0 then p.1 else 0)
    ensures Total(r) == Total(gs) + p.1
  {
    if gs == [] then
      [p]
    else if gs[0].0 == p.0 then
      var r := [(p.0, gs[0].1 + p.1)] + gs[1..];
      assert r[1..] == gs[1..];
      r
    else
      var r := [gs[0]] + AddTo(gs[1..], p);
      assert r[1..] == AddTo(gs[1..], p);
      r
  }

  /**
   * `GROUP BY key` with `SUM(duration)`: one entry per distinct key, carrying
   * the sum of that key's seconds.
   */
  function GroupBy(ps: seq<Pair>): (gs: seq<Pair>)
    ensures DistinctKeys(gs)
    ensures KeySet(gs) == KeySet(ps)
    ensures forall k :: KeySum(gs, k) == KeySum(ps, k)
    ensures Total(gs) == Total(ps)
  {
    if ps == [] then [] else AddTo(GroupBy(ps[1..]), ps[0])
  }

  /** `ORDER BY seconds DESC`: no later entry has more seconds than an earlier one. */
  predicate SortedDesc(s: seq<Pair>) {
    forall i, j :: 0 <= i < j < |s| ==> s[i].1 >= s[j].1
  }

  /** Inserts p into a list sorted by non-increasing seconds, ahead of the entries with no more seconds than p. */
  function Insert(p: Pair, s: seq<Pair>): (r: seq<Pair>)
    ensures multiset(r) == multiset(s) + multiset{p}
    ensures KeySet(r) == KeySet(s) + {p.0}
    ensures Total(r) == Total(s) + p.1
    ensures DistinctKeys(s) && p.0 !in KeySet(s) ==> DistinctKeys(r)
  {
    if s == [] || p.1 >= s[0].1 then
      var r := [p] + s;
      assert r[1..] == s;
      r
    else
      var r := [s[0]] + Insert(p, s[1..]);
      assert r[1..] == Insert(p, s[1..]);
      assert s == [s[0]] + s[1..];
      r
  }

  /** Insertion keeps a list sorted by non-increasing seconds. */
  lemma {:induction false} InsertSorted(p: Pair, s: seq<Pair>)
    requires SortedDesc(s)
    ensures SortedDesc(Insert(p, s))
  {
    if !(s == [] || p.1 >= s[0].1) {
      var t := Insert(p, s[1..]);
      InsertSorted(p, s[1..]);
      var r := [s[0]] + t;
      assert r == Insert(p, s);
      forall i, j | 0 <= i < j < |r| ensures r[i].1 >= r[j].1 {
        if i == 0 {
          assert r[j] in multiset(t);
          assert r[j] == p || r[j] in s[1..];
        } else {
          assert r[i] == t[i - 1] && r[j] == t[j - 1];
        }
      }
    }
  }

  /** Sorts by non-increasing seconds (insertion sort; equal entries keep no promised order). */
  function SortDesc(s: seq<Pair>): (r: seq<Pair>)
    ensures multiset(r) == multiset(s)
    ensures SortedDesc(r)
    ensures KeySet(r) == KeySet(s)
    ensures Total(r) == Total(s)
    ensures DistinctKeys(s) ==> DistinctKeys(r)
  {
    if s == [] then []
    else
      assert s == [s[0]] + s[1..];
      InsertSorted(s[0], SortDesc(s[1..]));
      Insert(s[0], SortDesc(s[1..]))
  }

  /** Sums per key over two lists add up. */
  lemma {:induction false} KeySumConcat(a: seq<Pair>, b: seq<Pair>, k: string)
    ensures KeySum(a + b, k) == KeySum(a, k) + KeySum(b, k)
  {
    if a == [] {
      assert a + b == b;
    } else {
      assert (a + b)[1..] == a[1..] + b;
      KeySumConcat(a[1..], b, k);
    }
  }

  /** Totals over two lists add up. */
  lemma {:induction false} TotalConcat(a: seq<Pair>, b: seq<Pair>)
    ensures Total(a + b) == Total(a) + Total(b)
  {
    if a == [] {
      assert a + b == b;
    } else {
      assert (a + b)[1..] == a[1..] + b;
      TotalConcat(a[1..], b);
    }
  }

  /** The keys of two lists are the keys of either. */
  lemma {:induction false} KeySetConcat(a: seq<Pair>, b: seq<Pair>)
    ensures KeySet(a + b) == KeySet(a) + KeySet(b)
  {
    if a == [] {
      assert a + b == b;
    } else {
      assert (a + b)[1..] == a[1..] + b;
      KeySetConcat(a[1..], b);
    }
  }
}
