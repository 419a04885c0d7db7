/** Splitting a user's events of one day into time intervals, greedily, and the batching rows
    made from the boundaries. */
module IntervalSplit {
  import opened Common

  /** An event: its timestamp in milliseconds and its other columns. */
  datatype Record = Record(time: int, columns: seq<int>)

  datatype BatchRow = BatchRow(endTime: int, indptr: nat)

  ghost predicate ByTime(s: seq<Record>) {
    forall p, q :: 0 <= p <= q < |s| ==> s[p].time <= s[q].time
  }

  method InsertByTime(s: seq<Record>, x: Record) returns (r: seq<Record>)
    requires ByTime(s)
    ensures ByTime(r) && multiset(r) == multiset(s) + multiset{x}
  {
    var k := |s|;
    while k > 0 && x.time < s[k - 1].time
      invariant 0 <= k <= |s|
      invariant forall q :: k <= q < |s| ==> x.time < s[q].time
    {
      k := k - 1;
    }
    r := s[..k] + [x] + s[k..];
    Inserted(s, k, x);
  }

  lemma Inserted(s: seq<Record>, k: nat, x: Record)
    requires ByTime(s) && k <= |s| && (k > 0 ==> s[k - 1].time <= x.time)
    requires forall q :: k <= q < |s| ==> x.time < s[q].time
    ensures var r := s[..k] + [x] + s[k..]; ByTime(r) && multiset(r) == multiset(s) + multiset{x}
  {
    InsertedInOrder(s, k, x, s[..k] + [x] + s[k..]);
    hide ByTime;
    assert s == s[..k] + s[k..];
  }

  lemma InsertedInOrder(s: seq<Record>, k: nat, x: Record, r: seq<Record>)
    requires ByTime(s) && k <= |s| && (k > 0 ==> s[k - 1].time <= x.time) && r == s[..k] + [x] + s[k..]
    requires forall q :: k <= q < |s| ==> x.time < s[q].time
    ensures ByTime(r)
  {
    forall p, q | 0 <= p <= q < |r| ensures r[p].time <= r[q].time {
      assert r[p] == if p < k then s[p] else if p == k then x else s[p - 1];
      assert r[q] == if q < k then s[q] else if q == k then x else s[q - 1];
    }
  }

  method SortByTime(rows: seq<Record>) returns (s: seq<Record>)
    ensures ByTime(s) && multiset(s) == multiset(rows)
  {
    s := [];
    for n := 0 to |rows|
      invariant ByTime(s) && multiset(s) == multiset(rows[..n])
    {
      assert rows[..n + 1] == rows[..n] + [rows[n]];
      s := InsertByTime(s, rows[n]);
    }
    assert rows[..|rows|] == rows;
  }

  /** Start positions chosen so far: each at least `T` after the one before it, and every
      position below `n` less than `T` after the last start at or before it. */
  ghost predicate Starts(s: seq<Record>, T: int, b: seq<nat>, n: nat)
    requires n <= |s|
  {
    && b != [] && b[0] == 0
    && (forall i :: 0 <= i < |b| ==> b[i] < n)
    && (forall i, j :: 0 <= i < j < |b| ==> b[i] < b[j] && s[b[j]].time - s[b[i]].time >= T)
    && (forall i :: 0 <= i < |b| ==> Short(s, T, b[i], Limit(b, n, i)))
  }

  /** End of interval `i` when the events below `n` have been seen. */
  ghost function Limit(b: seq<nat>, n: nat, i: nat): nat
    requires i < |b|
  {
    if i == |b| - 1 then n else b[i + 1]
  }

  ghost predicate Short(s: seq<Record>, T: int, from: nat, to: nat) {
    forall p :: from <= p < to && p < |s| ==> s[p].time - s[from].time < T
  }

  /** Boundaries strictly increase from 0 to the number of events, and each interval spans
      less than `T`. */
  ghost predicate Splits(s: seq<Record>, T: int, b: seq<nat>) {
    && |b| >= 2 && b[0] == 0 && b[|b| - 1] == |s|
    && (forall i, j :: 0 <= i < j < |b| ==> b[i] < b[j])
    && (forall c, p, q :: 0 <= c < |b| - 1 && b[c] <= p <= q < Limit(b, |s|, c) && q < |s| ==>
          s[q].time - s[p].time < T)
  }

  /** Walk over the sorted events and start an interval where the last one has lasted `T`. */
  method GreedyStarts(s: seq<Record>, T: int) returns (b: seq<nat>)
    requires T > 0 && s != [] && ByTime(s)
    ensures Starts(s, T, b, |s|)
  {
    hide Starts;
    b := [0];
    FirstStart(s, T);
    for n := 1 to |s|
      invariant b != [] && b[|b| - 1] < n && Starts(s, T, b, n)
    {
      if s[n].time - s[b[|b| - 1]].time >= T {
        NextStart(s, T, b, n);
        b := b + [n];
      } else {
        SameInterval(s, T, b, n);
      }
    }
  }

  method CreateInterval(rows: seq<Record>, T: int) returns (s: seq<Record>, b: seq<nat>)
    requires T > 0
    ensures ByTime(s) && multiset(s) == multiset(rows)
    ensures rows == [] ==> b == [0, 0]
    ensures rows != [] ==> |b| >= 2 && b[|b| - 1] == |s| && Starts(s, T, b[..|b| - 1], |s|) && Splits(s, T, b)
  {
    s := SortByTime(rows);
    assert |s| == |multiset(s)| == |multiset(rows)| == |rows|;
    if rows == [] { return s, [0, 0]; }
    b := GreedyStarts(s, T);
    hide Starts, Splits;
    StartsSplit(s, T, b);
    b := b + [|s|];
  }

  lemma FirstStart(s: seq<Record>, T: int)
    requires T > 0 && s != []
    ensures Starts(s, T, [0], 1)
  {
  }

  lemma SameInterval(s: seq<Record>, T: int, b: seq<nat>, n: nat)
    requires n < |s| && b != [] && b[|b| - 1] < n && Starts(s, T, b, n)
    requires s[n].time - s[b[|b| - 1]].time < T
    ensures Starts(s, T, b, n + 1)
  {
    forall i | 0 <= i < |b| ensures Short(s, T, b[i], Limit(b, n + 1, i)) {
      assert Short(s, T, b[i], Limit(b, n, i));
    }
  }

  lemma NextStart(s: seq<Record>, T: int, b: seq<nat>, n: nat)
    requires n < |s| && ByTime(s) && b != [] && b[|b| - 1] < n && Starts(s, T, b, n) && T > 0
    requires s[n].time - s[b[|b| - 1]].time >= T
    ensures Starts(s, T, b + [n], n + 1)
  {
    var c := b + [n];
    forall i | 0 <= i < |b| ensures s[n].time - s[b[i]].time >= T {
      assert s[b[i]].time <= s[b[|b| - 1]].time;
    }
    forall i | 0 <= i < |c| ensures Short(s, T, c[i], Limit(c, n + 1, i)) {
      if i < |b| { assert Short(s, T, b[i], Limit(b, n, i)) && Limit(c, n + 1, i) == Limit(b, n, i); }
    }
  }

  lemma StartsSplit(s: seq<Record>, T: int, b: seq<nat>)
    requires ByTime(s) && Starts(s, T, b, |s|)
    ensures b != [] && Splits(s, T, b + [|s|]) && (b + [|s|])[..|b|] == b
  {
    var c := b + [|s|];
    forall k, p, q | 0 <= k < |c| - 1 && c[k] <= p <= q < Limit(c, |s|, k) && q < |s|
      ensures s[q].time - s[p].time < T
    {
      assert Limit(c, |s|, k) == Limit(b, |s|, k) && c[k] == b[k];
      assert Short(s, T, b[k], Limit(b, |s|, k));
      assert s[b[k]].time <= s[p].time;
    }
  }

  /** A way to put the events into `groups` groups of spread below `T`. */
  ghost predicate Grouping(s: seq<Record>, T: int, group: seq<nat>, groups: nat) {
    && |group| == |s|
    && (forall p :: 0 <= p < |s| ==> group[p] < groups)
    && (forall p, q :: 0 <= p < |s| && 0 <= q < |s| && group[p] == group[q] ==> s[q].time - s[p].time < T)
  }

  /** No grouping, contiguous or not, needs fewer groups than the greedy split has intervals. */
  lemma GreedyIsOptimal(s: seq<Record>, T: int, b: seq<nat>, group: seq<nat>, groups: nat)
    requires Starts(s, T, b, |s|) && Grouping(s, T, group, groups)
    ensures |b| <= groups
  {
    var used := seq(|b|, i requires 0 <= i < |b| => group[b[i]]);
    forall i, j | 0 <= i < j < |used| ensures used[i] != used[j] {
      assert s[b[j]].time - s[b[i]].time >= T;
    }
    Pigeonhole(used, groups);
  }

  lemma {:induction false} Pigeonhole(a: seq<nat>, m: nat)
    requires forall i :: 0 <= i < |a| ==> a[i] < m
    requires forall i, j :: 0 <= i < j < |a| ==> a[i] != a[j]
    ensures |a| <= m
    decreases m
  {
    if a == [] { return; }
    assert a[0] < m;
    if k :| 0 <= k < |a| && a[k] == m - 1 {
      var rest := a[..k] + a[k + 1..];
      forall i, j | 0 <= i < j < |rest| ensures rest[i] != rest[j] {
        assert rest[i] == a[if i < k then i else i + 1] && rest[j] == a[if j < k then j else j + 1];
      }
      forall i | 0 <= i < |rest| ensures rest[i] < m - 1 {
        assert rest[i] == a[if i < k then i else i + 1] && rest[i] != a[k];
      }
      Pigeonhole(rest, m - 1);
    } else {
      Pigeonhole(a, m - 1);
    }
  }

  /** The batching row of interval number `counter`, counted from 1. */
  function FilterInterval(s: seq<Record>, b: seq<nat>, counter: nat): BatchRow
    requires 0 < counter < |b| && 0 < b[counter] <= |s|
  {
    BatchRow(s[b[counter] - 1].time, b[counter])
  }

  /** A batching row cuts the day: the events not later than its time are exactly those before
      its position, and its time is the latest of its interval. */
  lemma RowCutsByTime(s: seq<Record>, T: int, b: seq<nat>, counter: nat, p: nat)
    requires ByTime(s) && T > 0 && |b| >= 2 && b[|b| - 1] == |s| && Starts(s, T, b[..|b| - 1], |s|)
    requires 0 < counter < |b| && p < |s|
    ensures 0 < b[counter] <= |s| && b[counter - 1] < b[counter]
    ensures var r := FilterInterval(s, b, counter);
      && (p < r.indptr <==> s[p].time <= r.endTime)
      && (b[counter - 1] <= p < r.indptr ==> s[p].time <= r.endTime < s[b[counter - 1]].time + T)
  {
    var c, k := b[..|b| - 1], counter;
    assert c[k - 1] == b[k - 1] && Short(s, T, c[k - 1], Limit(c, |s|, k - 1));
    if k < |c| {
      assert c[k] == b[k] && c[k - 1] < c[k];
      assert s[c[k] - 1].time - s[c[k - 1]].time < T && s[c[k]].time - s[c[k - 1]].time >= T;
      if p >= b[k] { assert s[p].time >= s[b[k]].time; }
    } else {
      assert s[|s| - 1].time - s[c[k - 1]].time < T;
    }
  }
}
