/** Exactly when an insertion rejects a key. In the table's layout buckets do not overlap and all
    keys of a bucket share one overflow region, so the answer can be counted before the call:
    the keys a bucket has no room for go to the overflow region, and what that has no room for
    is rejected. */
module Rejection {
  import opened Common
  import opened HashTable

  predicate Apart(a: (nat, nat), b: (nat, nat)) { a.1 <= b.0 || b.1 <= a.0 || a.0 == a.1 || b.0 == b.1 }

  /** Buckets are equal or apart, so are overflow regions, the two kinds are apart, and a bucket
      belongs to one overflow region. */
  ghost predicate Regular(layout: Layout) {
    forall k, l :: RegularFor(layout, k, l)
  }

  ghost predicate RegularFor(layout: Layout, k: Key, l: Key) {
    && (layout.bucket(k) == layout.bucket(l) || Apart(layout.bucket(k), layout.bucket(l)))
    && (layout.overflow(k) == layout.overflow(l) || Apart(layout.overflow(k), layout.overflow(l)))
    && Apart(layout.bucket(k), layout.overflow(l)) && Apart(layout.bucket(l), layout.overflow(k))
    && (layout.bucket(k) == layout.bucket(l) && layout.bucket(k).0 < layout.bucket(k).1 ==>
          layout.overflow(k) == layout.overflow(l))
  }

  /** The slots of a range that an insertion may use: empty or unpinned. */
  ghost function UsableIn(range: (nat, nat), keys: Slots, seen: seq<int>): set<nat>
    requires |seen| == |keys|
  {
    set s: nat | s < |keys| && In(range, s) && (keys[s].None? || seen[s] <= 0)
  }

  /** How many of the first `n` keys belong to the bucket. */
  ghost function KeysOfBucket(layout: Layout, ks: seq<Key>, range: (nat, nat), n: nat): nat
    requires n <= |ks|
  {
    if n == 0 then 0
    else KeysOfBucket(layout, ks, range, n - 1) + if layout.bucket(ks[n - 1]) == range then 1 else 0
  }

  /** The bucket of key `j` has no room left after the earlier keys of the batch. */
  ghost predicate Spills(layout: Layout, keys: Slots, seen: seq<int>, ks: seq<Key>, j: nat)
    requires |seen| == |keys| && j < |ks|
  {
    KeysOfBucket(layout, ks, layout.bucket(ks[j]), j) >= |UsableIn(layout.bucket(ks[j]), keys, seen)|
  }

  /** How many of the first `n` keys ask for a slot of the overflow region. */
  ghost function Demand(layout: Layout, keys: Slots, seen: seq<int>, ks: seq<Key>, region: (nat, nat), n: nat): nat
    requires |seen| == |keys| && n <= |ks|
  {
    if n == 0 then 0
    else
      Demand(layout, keys, seen, ks, region, n - 1)
      + if layout.overflow(ks[n - 1]) == region && Spills(layout, keys, seen, ks, n - 1) then 1 else 0
  }

  /** Every overflow region has room for the keys its buckets have no room for. */
  ghost predicate Fits(layout: Layout, keys: Slots, seen: seq<int>, ks: seq<Key>)
    requires |seen| == |keys|
  {
    forall j :: 0 <= j < |ks| ==>
      Demand(layout, keys, seen, ks, layout.overflow(ks[j]), |ks|) <= |UsableIn(layout.overflow(ks[j]), keys, seen)|
  }

  /** The keys of one bucket that spill are those it has no slot for. */
  ghost function SpilledOf(layout: Layout, keys: Slots, seen: seq<int>, ks: seq<Key>, range: (nat, nat), n: nat): nat
    requires |seen| == |keys| && n <= |ks|
  {
    if n == 0 then 0
    else
      SpilledOf(layout, keys, seen, ks, range, n - 1)
      + if layout.bucket(ks[n - 1]) == range && Spills(layout, keys, seen, ks, n - 1) then 1 else 0
  }

  lemma {:induction false} BucketSpill(layout: Layout, keys: Slots, seen: seq<int>, ks: seq<Key>, range: (nat,
                                       nat), n: nat)
    requires |seen| == |keys| && n <= |ks|
    ensures SpilledOf(layout, keys, seen, ks, range, n)
         == Max(0, KeysOfBucket(layout, ks, range, n) - |UsableIn(range, keys, seen)|)
  {
    if n > 0 { BucketSpill(layout, keys, seen, ks, range, n - 1); }
  }

  /** A key is in its bucket; or the bucket was exhausted, and it is in the overflow region, or
      that was exhausted too. */
  ghost predicate BucketFirstAt(layout: Layout, keys: Slots, seen: seq<int>, k: Key, taken: set<nat>, s: int)
    requires |seen| == |keys|
  {
    In(layout.bucket(k), s) || (
      && Exhausted(layout.bucket(k), keys, seen, taken)
      && if s >= 0 then In(layout.overflow(k), s) else Exhausted(layout.overflow(k), keys, seen, taken))
  }

  /** What the choices of an insertion say apart from the scores. */
  ghost predicate BucketFirst(layout: Layout, keys: Slots, seen: seq<int>, ks: seq<Key>, idx: seq<int>)
    requires |seen| == |keys| && |idx| == |ks|
  {
    forall j :: 0 <= j < |idx| ==> BucketFirstAt(layout, keys, seen, ks[j], Taken(idx[..j]), idx[j])
  }

  lemma ChoicesBucketFirst(layout: Layout, keys: Slots, scores: seq<int>, seen: seq<int>, ks: seq<Key>, idx: seq<int>)
    requires |seen| == |scores| == |keys| && |idx| == |ks| && Choices(layout, keys, scores, seen, ks, idx)
    ensures BucketFirst(layout, keys, seen, ks, idx)
  {
    forall j | 0 <= j < |idx| ensures BucketFirstAt(layout, keys, seen, ks[j], Taken(idx[..j]), idx[j]) {
      assert ChosenAt(layout, keys, scores, seen, ks[j], Taken(idx[..j]), idx[j]);
    }
  }

  /** A batch that was placed: what an insertion promises, in a regular layout. */
  ghost predicate PlacedBatch(layout: Layout, keys: Slots, seen: seq<int>, ks: seq<Key>, idx: seq<int>) {
    && |seen| == |keys| && Regular(layout)
    && GoodPlacement(keys, seen, ks, idx)
    && BucketFirst(layout, keys, seen, ks, idx)
  }

  ghost function TakenIn(range: (nat, nat), idx: seq<int>, n: nat): set<nat>
    requires n <= |idx|
  {
    set s | s in Taken(idx[..n]) && In(range, s)
  }

  lemma TakenInStep(range: (nat, nat), idx: seq<int>, n: nat)
    requires n < |idx|
    ensures TakenIn(range, idx, n + 1)
         == TakenIn(range, idx, n) + if idx[n] >= 0 && In(range, idx[n]) then {idx[n] as nat} else {}
  {
    assert idx[..n + 1] == idx[..n] + [idx[n]];
    TakenStep(idx[..n], idx[n]);
  }

  lemma NotTakenYet(idx: seq<int>, n: nat)
    requires NoRepeats(idx) && n < |idx| && idx[n] >= 0
    ensures idx[n] !in Taken(idx[..n])
  {
    forall i | 0 <= i < n ensures idx[i] != idx[n] {
      assert idx[i] >= 0 ==> IndexOf(idx, idx[i]) == i && IndexOf(idx, idx[n]) == n;
    }
  }

  /** One more key for a range: either it took a usable slot, or all usable slots are taken. */
  lemma RangeStep(range: (nat, nat), keys: Slots, seen: seq<int>, idx: seq<int>, n: nat)
    requires |seen| == |keys| && n < |idx| && NoRepeats(idx)
    requires TakenIn(range, idx, n) <= UsableIn(range, keys, seen)
    requires idx[n] >= 0 && In(range, idx[n]) ==>
      idx[n] < |keys| && (keys[idx[n]].None? || seen[idx[n]] <= 0)
    requires !(idx[n] >= 0 && In(range, idx[n])) ==> Exhausted(range, keys, seen, Taken(idx[..n]))
    ensures TakenIn(range, idx, n + 1) <= UsableIn(range, keys, seen)
    ensures |TakenIn(range, idx, n + 1)| == Min(|TakenIn(range, idx, n)| + 1, |UsableIn(range, keys, seen)|)
    ensures (idx[n] >= 0 && In(range, idx[n])) <==> |TakenIn(range, idx, n)| < |UsableIn(range, keys, seen)|
  {
    var before, usable := TakenIn(range, idx, n), UsableIn(range, keys, seen);
    TakenInStep(range, idx, n);
    if idx[n] >= 0 && In(range, idx[n]) {
      NotTakenYet(idx, n);
      SubsetSize(before + {idx[n] as nat}, usable);
    } else {
      assert usable <= before;
      assert usable == before;
    }
  }

  /** A slot outside a range leaves the range as it is. */
  lemma RangeKept(range: (nat, nat), idx: seq<int>, n: nat)
    requires n < |idx| && !(idx[n] >= 0 && In(range, idx[n]))
    ensures TakenIn(range, idx, n + 1) == TakenIn(range, idx, n)
  {
    TakenInStep(range, idx, n);
  }

  /** After `n` keys a bucket has given away a slot to each of its keys, as long as it had any. */
  lemma {:induction false} BucketTaken(layout: Layout, keys: Slots, seen: seq<int>, ks: seq<Key>,
                                       idx: seq<int>, k: Key, n: nat)
    requires PlacedBatch(layout, keys, seen, ks, idx) && n <= |ks|
    ensures TakenIn(layout.bucket(k), idx, n) <= UsableIn(layout.bucket(k), keys, seen)
    ensures |TakenIn(layout.bucket(k), idx, n)|
         == Min(KeysOfBucket(layout, ks, layout.bucket(k), n), |UsableIn(layout.bucket(k), keys, seen)|)
  {
    if n == 0 {
      assert TakenIn(layout.bucket(k), idx, 0) == {};
    } else {
      var m := n - 1;
      BucketTaken(layout, keys, seen, ks, idx, k, m);
      assert RegularFor(layout, k, ks[m]);
      assert BucketFirstAt(layout, keys, seen, ks[m], Taken(idx[..m]), idx[m]);
      hide Regular;
      if layout.bucket(ks[m]) == layout.bucket(k) {
        RangeStep(layout.bucket(k), keys, seen, idx, m);
      } else {
        RangeKept(layout.bucket(k), idx, m);
      }
    }
  }

  /** A key spills exactly when it did not get a slot of its bucket. */
  lemma {:induction false} SpillsIff(layout: Layout, keys: Slots, seen: seq<int>, ks: seq<Key>,
                                     idx: seq<int>, j: nat)
    requires PlacedBatch(layout, keys, seen, ks, idx) && j < |ks|
    ensures Spills(layout, keys, seen, ks, j) <==> !(idx[j] >= 0 && In(layout.bucket(ks[j]), idx[j]))
  {
    BucketTaken(layout, keys, seen, ks, idx, ks[j], j);
    assert BucketFirstAt(layout, keys, seen, ks[j], Taken(idx[..j]), idx[j]);
    hide Regular;
    RangeStep(layout.bucket(ks[j]), keys, seen, idx, j);
  }

  lemma {:induction false} OverflowTaken(layout: Layout, keys: Slots, seen: seq<int>, ks: seq<Key>,
                                         idx: seq<int>, k: Key, n: nat)
    requires PlacedBatch(layout, keys, seen, ks, idx) && n <= |ks|
    ensures TakenIn(layout.overflow(k), idx, n) <= UsableIn(layout.overflow(k), keys, seen)
    ensures |TakenIn(layout.overflow(k), idx, n)|
         == Min(Demand(layout, keys, seen, ks, layout.overflow(k), n), |UsableIn(layout.overflow(k), keys, seen)|)
  {
    if n == 0 {
      assert TakenIn(layout.overflow(k), idx, 0) == {};
    } else {
      var m := n - 1;
      OverflowTaken(layout, keys, seen, ks, idx, k, m);
      SpillsIff(layout, keys, seen, ks, idx, m);
      assert RegularFor(layout, k, ks[m]) && RegularFor(layout, ks[m], ks[m]);
      assert BucketFirstAt(layout, keys, seen, ks[m], Taken(idx[..m]), idx[m]);
      hide Regular, Spills;
      if layout.overflow(ks[m]) == layout.overflow(k) && Spills(layout, keys, seen, ks, m) {
        RangeStep(layout.overflow(k), keys, seen, idx, m);
      } else {
        RangeKept(layout.overflow(k), idx, m);
      }
    }
  }

  /** Key `j` is rejected exactly when it spills and the earlier keys that spilled into its
      overflow region have used that up. */
  lemma {:induction false} RejectedIff(layout: Layout, keys: Slots, seen: seq<int>, ks: seq<Key>,
                                       idx: seq<int>, j: nat)
    requires PlacedBatch(layout, keys, seen, ks, idx) && j < |ks|
    ensures var region := layout.overflow(ks[j]);
      idx[j] < 0 <==> (Spills(layout, keys, seen, ks, j)
        && Demand(layout, keys, seen, ks, region, j) >= |UsableIn(region, keys, seen)|)
  {
    OverflowTaken(layout, keys, seen, ks, idx, ks[j], j);
    SpillsIff(layout, keys, seen, ks, idx, j);
    assert RegularFor(layout, ks[j], ks[j]);
    assert BucketFirstAt(layout, keys, seen, ks[j], Taken(idx[..j]), idx[j]);
    hide Regular, Spills;
    if Spills(layout, keys, seen, ks, j) { RangeStep(layout.overflow(ks[j]), keys, seen, idx, j); }
  }

  lemma {:induction false} DemandGrows(layout: Layout, keys: Slots, seen: seq<int>, ks: seq<Key>, region: (nat, nat),
                                       m: nat, n: nat)
    requires |seen| == |keys| && m <= n <= |ks|
    ensures Demand(layout, keys, seen, ks, region, m) <= Demand(layout, keys, seen, ks, region, n)
    decreases n - m
  {
    if m < n { DemandGrows(layout, keys, seen, ks, region, m, n - 1); }
  }

  lemma {:induction false} DemandMet(layout: Layout, keys: Slots, seen: seq<int>, ks: seq<Key>,
                                     idx: seq<int>, k: Key, n: nat)
    requires PlacedBatch(layout, keys, seen, ks, idx) && n <= |ks|
    requires forall j :: 0 <= j < |idx| ==> idx[j] >= 0
    ensures Demand(layout, keys, seen, ks, layout.overflow(k), n) <= |UsableIn(layout.overflow(k), keys, seen)|
  {
    if n > 0 {
      DemandMet(layout, keys, seen, ks, idx, k, n - 1);
      hide PlacedBatch, Spills;
      if layout.overflow(ks[n - 1]) == layout.overflow(k) {
        RejectedIff(layout, keys, seen, ks, idx, n - 1);
      }
    }
  }

  /** An insertion rejects nothing if and only if every overflow region has room for the keys its
      buckets have no room for, counted on the slots and counters before the call. */
  lemma {:induction false} NoneRejectedIff(layout: Layout, keys: Slots, seen: seq<int>, ks: seq<Key>,
                                           idx: seq<int>)
    requires PlacedBatch(layout, keys, seen, ks, idx)
    ensures (forall j :: 0 <= j < |idx| ==> idx[j] >= 0) <==> Fits(layout, keys, seen, ks)
  {
    assert |idx| == |ks|;
    hide PlacedBatch, Spills;
    if forall j :: 0 <= j < |idx| ==> idx[j] >= 0 {
      forall j | 0 <= j < |ks|
        ensures Demand(layout, keys, seen, ks, layout.overflow(ks[j]), |ks|)
             <= |UsableIn(layout.overflow(ks[j]), keys, seen)|
      {
        DemandMet(layout, keys, seen, ks, idx, ks[j], |ks|);
      }
    }
    if Fits(layout, keys, seen, ks) {
      forall j | 0 <= j < |idx| ensures idx[j] >= 0 {
        RejectedIff(layout, keys, seen, ks, idx, j);
        DemandGrows(layout, keys, seen, ks, layout.overflow(ks[j]), j + 1, |ks|);
      }
    }
  }
}
