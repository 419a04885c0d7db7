/** Vocabulary shared by the models: keys, rows, and the index-tensor operations
    (compact, gather, scatter) that the embedding code is written in. */
module Common {

  datatype Option<+T> = None | Some(value: T)

  function Max(a: int, b: int): int { if a < b then b else a }

  function Min(a: int, b: int): int { if a < b then a else b }

  /** An embedding key together with the logical table it belongs to. */
  datatype Key = Key(table: nat, id: int)

  /** One value row: embedding columns followed by optimizer columns. */
  type Row = seq<real>

  /** A position of `x` in `s`, or -1 where there is none, as every lookup reports it. */
  ghost function IndexOf<T>(s: seq<T>, x: T): (i: int)
    ensures -1 <= i < |s|
    ensures i >= 0 ==> s[i] == x
    ensures i == -1 <==> x !in s
  {
    if x in s then var i :| 0 <= i < |s| && s[i] == x; i else -1
  }

  /** No element occurs twice. */
  ghost predicate Distinct<T>(s: seq<T>) {
    forall i :: 0 <= i < |s| ==> IndexOf(s, s[i]) == i
  }

  lemma DistinctIsPairwise<T>(s: seq<T>)
    ensures Distinct(s) <==> forall i, j :: 0 <= i < j < |s| ==> s[i] != s[j]
  {
    if Distinct(s) {
      forall i, j | 0 <= i < j < |s| ensures s[i] != s[j] {
        assert IndexOf(s, s[i]) == i && IndexOf(s, s[j]) == j;
      }
    }
  }

  lemma PrefixDistinct<T>(s: seq<T>, i: nat)
    requires Distinct(s) && i < |s|
    ensures s[i] !in s[..i] && Distinct(s[..i])
  {
    DistinctIsPairwise(s);
    DistinctIsPairwise(s[..i]);
  }

  lemma IndexInPrefix<T>(s: seq<T>, n: nat, x: T)
    requires Distinct(s) && n + 1 == |s|
    ensures x in s <==> x in s[..n] || x == s[n]
    ensures x in s[..n] ==> x != s[n] && IndexOf(s, x) == IndexOf(s[..n], x)
    ensures IndexOf(s, s[n]) == n
  {
    assert s == s[..n] + [s[n]];
    if x in s[..n] {
      var i := IndexOf(s[..n], x);
      assert s[i] == x && IndexOf(s, s[i]) == i;
    }
    PrefixDistinct(s, n);
  }

  /** The positions a boolean mask selects, in input order (`flagged_compact`). */
  function Positions(mask: seq<bool>): (r: seq<nat>)
    ensures |r| <= |mask|
    ensures forall i :: 0 <= i < |r| ==> r[i] < |mask| && mask[r[i]]
    ensures Distinct(r)
    ensures forall k :: 0 <= k < |mask| && mask[k] ==> k in r
  {
    if |mask| == 0 then []
    else
      var r := Positions(mask[..|mask| - 1]);
      if mask[|mask| - 1] then AppendDistinct(r, |mask| - 1); r + [|mask| - 1] else r
  }

  lemma {:induction false} PositionsMember(mask: seq<bool>, i: nat)
    requires i < |mask|
    ensures i in Positions(mask) <==> mask[i]
  {
    hide Distinct;
    if i in Positions(mask) {
      assert Positions(mask)[IndexOf(Positions(mask), i)] == i;
    }
  }

  lemma AppendDistinct<T>(s: seq<T>, x: T)
    requires Distinct(s) && x !in s
    ensures Distinct(s + [x])
  {
    var t := s + [x];
    forall i | 0 <= i < |t| ensures IndexOf(t, t[i]) == i {
      var j := IndexOf(t, t[i]);
      if i < |s| && j < |s| { assert s[j] == s[i] && IndexOf(s, s[i]) == i && IndexOf(s, s[j]) == j; }
    }
  }

  lemma {:induction false} PositionsStep(mask: seq<bool>, n: nat)
    requires |mask| == n + 1
    ensures Positions(mask) == if mask[n] then Positions(mask[..n]) + [n] else Positions(mask[..n])
  {
  }

  /** Compaction keeps input order. */
  lemma {:induction false} PositionsIncrease(mask: seq<bool>, i: nat, j: nat)
    requires i < j < |Positions(mask)|
    ensures Positions(mask)[i] < Positions(mask)[j]
    decreases |mask|
  {
    hide Positions, Distinct, IndexOf;
    var n := |mask| - 1;
    PositionsStep(mask, n);
    if j < |Positions(mask[..n])| { PositionsIncrease(mask[..n], i, j); }
  }

  /** Tensor indexing `s[idx]`. */
  function Gather<T>(s: seq<T>, idx: seq<nat>): (r: seq<T>)
    requires forall i :: 0 <= i < |idx| ==> idx[i] < |s|
    ensures |r| == |idx|
    ensures forall i :: 0 <= i < |r| ==> r[i] == s[idx[i]]
  {
    seq(|idx|, i requires 0 <= i < |idx| => s[idx[i]])
  }

  /** Write `vals` at the non-negative entries of `idx`, skipping negative ones: the effect
      of a store kernel on a buffer. */
  ghost function Overlay<T>(base: seq<T>, idx: seq<int>, vals: seq<T>): (r: seq<T>)
    requires |idx| == |vals|
    ensures |r| == |base|
    ensures forall s :: 0 <= s < |base| ==>
      r[s] == if s in idx then vals[IndexOf(idx, s)] else base[s]
  {
    seq(|base|, s requires 0 <= s < |base| =>
      if s in idx then vals[IndexOf(idx, s)] else base[s])
  }

  /** Non-negative entries are not repeated. */
  ghost predicate NoRepeats(idx: seq<int>) {
    forall i :: 0 <= i < |idx| && idx[i] >= 0 ==> IndexOf(idx, idx[i]) == i
  }

  lemma PrefixNoRepeats(idx: seq<int>, n: nat)
    requires NoRepeats(idx) && n <= |idx|
    ensures NoRepeats(idx[..n])
  {
    var s := idx[..n];
    forall i | 0 <= i < n && s[i] >= 0 ensures IndexOf(s, s[i]) == i {
      var j := IndexOf(s, s[i]);
      assert idx[j] == idx[i] && IndexOf(idx, idx[i]) == i && IndexOf(idx, idx[j]) == j;
    }
  }

  lemma AppendNoRepeats(idx: seq<int>, s: int)
    requires NoRepeats(idx) && (s >= 0 ==> s !in idx)
    ensures NoRepeats(idx + [s])
    ensures forall q :: q >= 0 ==> IndexOf(idx + [s], q) == if q == s then |idx| else IndexOf(idx, q)
  {
    var t := idx + [s];
    forall q | q >= 0 ensures IndexOf(t, q) == if q == s then |idx| else IndexOf(idx, q) {
      var j := IndexOf(t, q);
      assert q in t <==> q == s || q in idx;
      if 0 <= j < |idx| { assert idx[j] == q && IndexOf(idx, idx[j]) == j; }
    }
    forall i | 0 <= i < |t| && t[i] >= 0 ensures IndexOf(t, t[i]) == i { }
  }

  lemma OverlayStep<T>(base: seq<T>, idx: seq<int>, vals: seq<T>, s: int, v: T)
    requires |idx| == |vals| && s < |base| && NoRepeats(idx) && (s >= 0 ==> s !in idx)
    ensures Overlay(base, idx + [s], vals + [v])
         == if s < 0 then Overlay(base, idx, vals) else Overlay(base, idx, vals)[s := v]
  {
    AppendNoRepeats(idx, s);
    var l := Overlay(base, idx + [s], vals + [v]);
    forall q | 0 <= q < |base| ensures l[q] == if q == s then v else Overlay(base, idx, vals)[q] {
      assert q in idx + [s] <==> q == s || q in idx;
    }
  }

  lemma GatherNoRepeats(idx: seq<int>, p: seq<nat>)
    requires NoRepeats(idx) && Distinct(p) && forall i :: 0 <= i < |p| ==> p[i] < |idx|
    ensures NoRepeats(Gather(idx, p))
  {
    var g := Gather(idx, p);
    forall i | 0 <= i < |g| && g[i] >= 0 ensures IndexOf(g, g[i]) == i {
      var j := IndexOf(g, g[i]);
      assert idx[p[j]] == idx[p[i]] && IndexOf(idx, idx[p[i]]) == p[i] && IndexOf(idx, idx[p[j]]) == p[j];
      assert IndexOf(p, p[i]) == i && IndexOf(p, p[j]) == j;
    }
  }

  /** One slot of a store done for part of the positions. */
  lemma OverlayPart<T>(base: seq<T>, idx: seq<int>, vals: seq<T>, p: seq<nat>, s: nat)
    requires |idx| == |vals| && NoRepeats(idx) && s < |base|
    requires Distinct(p) && forall i :: 0 <= i < |p| ==> p[i] < |idx|
    ensures s in Gather(idx, p) <==> s in idx && IndexOf(idx, s) in p
    ensures Overlay(base, Gather(idx, p), Gather(vals, p))[s]
         == if s in Gather(idx, p) then vals[IndexOf(idx, s)] else base[s]
  {
    var g := Gather(idx, p);
    if s in g {
      var j := IndexOf(g, s);
      assert idx[p[j]] == s && IndexOf(idx, idx[p[j]]) == p[j];
    }
    if s in idx && IndexOf(idx, s) in p { assert g[IndexOf(p, IndexOf(idx, s))] == s; }
  }

  /** Two stores to complementary positions are one store to all of them. */
  lemma OverlaySplit<T>(base: seq<T>, idx: seq<int>, vals: seq<T>, p: seq<nat>, q: seq<nat>)
    requires |idx| == |vals| && NoRepeats(idx) && Distinct(p) && Distinct(q)
    requires forall i :: 0 <= i < |p| ==> p[i] < |idx|
    requires forall i :: 0 <= i < |q| ==> q[i] < |idx|
    requires forall i :: 0 <= i < |idx| ==> (i in p <==> i !in q)
    ensures Overlay(Overlay(base, Gather(idx, p), Gather(vals, p)), Gather(idx, q), Gather(vals, q))
         == Overlay(base, idx, vals)
  {
    var mid := Overlay(base, Gather(idx, p), Gather(vals, p));
    forall s | 0 <= s < |base|
      ensures Overlay(mid, Gather(idx, q), Gather(vals, q))[s] == Overlay(base, idx, vals)[s]
    {
      OverlayPart(base, idx, vals, p, s);
      OverlayPart(mid, idx, vals, q, s);
    }
  }

  /** Tensor assignment `s[pos] = vals` for positions without repetition. */
  method Scatter<T>(s: seq<T>, pos: seq<nat>, vals: seq<T>) returns (r: seq<T>)
    requires |pos| == |vals| && Distinct(pos) && forall i :: 0 <= i < |pos| ==> pos[i] < |s|
    ensures |r| == |s|
    ensures forall i :: 0 <= i < |pos| ==> r[pos[i]] == vals[i]
    ensures forall k :: 0 <= k < |s| && k !in pos ==> r[k] == s[k]
  {
    r := s;
    for i := 0 to |pos|
      invariant |r| == |s|
      invariant forall j :: 0 <= j < i ==> r[pos[j]] == vals[j]
      invariant forall k :: 0 <= k < |s| && k !in pos ==> r[k] == s[k]
    {
      assert forall j :: 0 <= j < i ==> pos[j] != pos[i] by {
        forall j | 0 <= j < i ensures pos[j] != pos[i] {
          assert IndexOf(pos, pos[j]) == j && IndexOf(pos, pos[i]) == i;
        }
      }
      r := r[pos[i] := vals[i]];
    }
  }

  function Not(mask: seq<bool>): (r: seq<bool>)
    ensures |r| == |mask| && forall i :: 0 <= i < |mask| ==> r[i] == !mask[i]
  {
    seq(|mask|, i requires 0 <= i < |mask| => !mask[i])
  }

  /** Where a lookup missed. */
  function Negative(slots: seq<int>): (r: seq<bool>)
    ensures |r| == |slots| && forall i :: 0 <= i < |r| ==> r[i] == (slots[i] < 0)
  {
    seq(|slots|, i requires 0 <= i < |slots| => slots[i] < 0)
  }

  lemma ComplementaryPositions(mask: seq<bool>)
    ensures forall i :: 0 <= i < |mask| ==> (i in Positions(mask) <==> i !in Positions(Not(mask)))
  {
  }

  lemma GatherDistinct<T>(s: seq<T>, idx: seq<nat>)
    requires Distinct(s) && Distinct(idx) && forall i :: 0 <= i < |idx| ==> idx[i] < |s|
    ensures Distinct(Gather(s, idx))
  {
  }

  lemma GatherMember<T>(p: seq<T>, q: seq<nat>, x: T)
    requires Distinct(p) && forall j :: 0 <= j < |q| ==> q[j] < |p|
    ensures x in Gather(p, q) <==> x in p && IndexOf(p, x) in q
  {
    var r := Gather(p, q);
    if x in r {
      var j := q[IndexOf(r, x)];
      assert p[j] == x && IndexOf(p, p[j]) == j;
    }
    if x in p && IndexOf(p, x) in q { assert r[IndexOf(q, IndexOf(p, x))] == x; }
  }

  /** Compacting twice: which positions survive both masks. */
  lemma ComposePositions(outer: seq<bool>, inner: seq<bool>)
    requires |inner| == |Positions(outer)|
    ensures var r := Gather(Positions(outer), Positions(inner));
      && Distinct(r)
      && (forall j :: 0 <= j < |r| ==> r[j] < |outer|)
      && (forall i :: 0 <= i < |outer| ==>
            (i in r <==> outer[i] && inner[IndexOf(Positions(outer), i)]))
  {
    var p, q := Positions(outer), Positions(inner);
    hide Positions;
    GatherDistinct(p, q);
    forall i | 0 <= i < |outer| ensures i in Gather(p, q) <==> outer[i] && inner[IndexOf(p, i)] {
      GatherMember(p, q, i);
    }
  }

  lemma GatherPrefix<T>(p: seq<T>, x: T, q: seq<nat>)
    requires forall j :: 0 <= j < |q| ==> q[j] < |p|
    ensures Gather(p + [x], q) == Gather(p, q)
    ensures Gather(p + [x], q + [|p|]) == Gather(p, q) + [x]
  {
  }

  lemma GatherLast<T>(s: seq<T>, p: seq<nat>, n: nat)
    requires |s| == n + 1 && forall j :: 0 <= j < |p| ==> p[j] < n
    ensures Gather(s, p + [n]) == Gather(s[..n], p) + [s[n]]
    ensures Gather(s, p) == Gather(s[..n], p)
  {
  }

  lemma {:induction false} ComposeLast(p: seq<nat>, n: nat, inner: seq<bool>, b: bool)
    requires |inner| == |p|
    ensures Gather(p + [n], Positions(inner + [b])) == Gather(p, Positions(inner)) + if b then [n] else []
  {
    PositionsStep(inner + [b], |p|);
    assert (inner + [b])[..|p|] == inner;
    GatherPrefix(p, n, Positions(inner));
  }

  /** Compacting by `outer` and then by what `both` says of the survivors is compacting once
      by `both`: the same positions in the same order. */
  lemma {:induction false} ComposeIsPositions(outer: seq<bool>, both: seq<bool>)
    requires |both| == |outer|
    requires forall i :: 0 <= i < |outer| && !outer[i] ==> !both[i]
    ensures Gather(Positions(outer), Positions(Gather(both, Positions(outer)))) == Positions(both)
    decreases |outer|
  {
    hide Distinct, IndexOf, Positions, Gather;
    if |outer| > 0 {
      var n := |outer| - 1;
      var p := Positions(outer[..n]);
      ComposeIsPositions(outer[..n], both[..n]);
      PositionsStep(outer, n);
      PositionsStep(both, n);
      GatherLast(both, p, n);
      if outer[n] { ComposeLast(p, n, Gather(both[..n], p), both[n]); }
    }
  }
}
