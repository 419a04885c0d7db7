/** The layout the kernels use, and what it does to pinned slots. */
module Pins {
  import opened Common
  import opened HashTable
  import opened Rejection
  import opened BackingStore
  import opened TwoLevel
  import opened CachePath
  import opened FlushEval
  import opened CounterLayout

  /** The bucket of its table that a hash code falls in: the code modulo the slots of the table. */
  function LocalBucket(code: nat, buckets: nat, width: nat): (h: nat)
    requires buckets > 0 && width > 0
    ensures h < buckets
    ensures Times(h, width) <= code % SlotCount(buckets, width) < Times(h + 1, width)
  {
    var slot := code % SlotCount(buckets, width);
    Divided(slot, buckets, width);
    slot / width
  }

  function SlotCount(buckets: nat, width: nat): (n: nat)
    requires buckets > 0 && width > 0
    ensures n == Times(buckets, width) > 0
  {
    Product(buckets, width);
    Times(buckets, width)
  }

  lemma Divided(slot: nat, buckets: nat, width: nat)
    requires width > 0 && slot < Times(buckets, width)
    ensures slot / width < buckets && Times(slot / width, width) <= slot < Times(slot / width + 1, width)
  {
    var h := slot / width;
    assert slot == h * width + slot % width;
    assert Times(h + 1, width) == Times(h, width) + width;
    if h >= buckets { ProductMonotone(buckets, h, width); }
  }

  /** The bucket a key hashes to, in the slots of its table. */
  function BucketOf(c: Counters, hash: Key -> nat, k: Key): (nat, nat)
    requires c.Ok()
  {
    if k.table < c.Tables() && c.offsets[k.table] < c.offsets[k.table + 1] then
      var h := c.offsets[k.table] + LocalBucket(hash(k), c.offsets[k.table + 1] - c.offsets[k.table], c.bucket);
      (Times(h, c.bucket), Times(h + 1, c.bucket))
    else (0, 0)
  }

  /** The overflow region of the key's table. */
  function RegionOf(c: Counters, k: Key): (nat, nat)
    requires c.Ok()
  {
    if k.table < c.Tables() then
      (c.Main() + Times(k.table, c.overflow), c.Main() + Times(k.table + 1, c.overflow))
    else (0, 0)
  }

  /** Buckets of all tables, then their overflow regions; pins are written at the slot and checked
      at its number within the table. */
  function LayoutOf(c: Counters, hash: Key -> nat): (layout: Layout)
    requires c.Ok()
  {
    Layout(k => BucketOf(c, hash, k), k => RegionOf(c, k), s => CheckOf(c, s))
  }

  /** The ranges of a key lie in the bucket slots, and in the overflow slots. */
  lemma RangesWithin(c: Counters, hash: Key -> nat, k: Key)
    requires c.Ok()
    ensures BucketOf(c, hash, k).0 <= BucketOf(c, hash, k).1 <= c.Main()
    ensures RegionOf(c, k).0 <= RegionOf(c, k).1 <= c.Total()
    ensures RegionOf(c, k) != (0, 0) ==> c.Main() <= RegionOf(c, k).0
  {
    var t := k.table;
    if t < c.Tables() {
      ProductMonotone(t, t + 1, c.overflow);
      ProductMonotone(t + 1, c.Tables(), c.overflow);
      if c.offsets[t] < c.offsets[t + 1] {
        var h := c.offsets[t] + LocalBucket(hash(k), c.offsets[t + 1] - c.offsets[t], c.bucket);
        assert h + 1 <= c.offsets[t + 1] <= c.offsets[|c.offsets| - 1];
        ProductMonotone(h, h + 1, c.bucket);
        ProductMonotone(h + 1, c.offsets[|c.offsets| - 1], c.bucket);
      }
    }
  }

  lemma CodeLayoutWithin(c: Counters, hash: Key -> nat)
    requires c.Ok()
    ensures LayoutOf(c, hash).Within(c.Total())
  {
    var layout := LayoutOf(c, hash);
    forall k
      ensures layout.bucket(k).0 <= layout.bucket(k).1 <= c.Total()
      ensures layout.overflow(k).0 <= layout.overflow(k).1 <= c.Total()
    {
      RangesWithin(c, hash, k);
    }
  }

  /** The pieces of the first `t` tables, as the export of a table walks over them: its buckets, then
      its overflow region. */
  function PiecesOf(c: Counters, t: nat): (pieces: seq<(nat, nat)>)
    requires c.Ok() && t <= c.Tables()
    ensures |pieces| == 2 * t
  {
    if t == 0 then []
    else
      PiecesOf(c, t - 1)
      + [(Times(c.offsets[t - 1], c.bucket), Times(c.offsets[t], c.bucket)),
         (c.Main() + Times(t - 1, c.overflow), c.Main() + Times(t, c.overflow))]
  }

  lemma {:induction false} PiecesReach(c: Counters, t: nat)
    requires c.Ok() && t <= c.Tables()
    ensures forall i :: 0 <= i < |PiecesOf(c, t)| ==> PiecesOf(c, t)[i].0 <= PiecesOf(c, t)[i].1 <= c.Total()
    ensures forall s: nat :: s < Times(c.offsets[t], c.bucket) ==> s in SlotsOfPieces(PiecesOf(c, t))
    ensures forall s: nat :: c.Main() <= s < c.Main() + Times(t, c.overflow) ==> s in SlotsOfPieces(PiecesOf(c, t))
  {
    if t == 0 {
      assert Times(c.offsets[0], c.bucket) == 0 && Times(0, c.overflow) == 0;
    } else {
      var before, pieces := PiecesOf(c, t - 1), PiecesOf(c, t);
      PiecesReach(c, t - 1);
      ProductMonotone(c.offsets[t - 1], c.offsets[t], c.bucket);
      ProductMonotone(c.offsets[t], c.offsets[|c.offsets| - 1], c.bucket);
      ProductMonotone(t - 1, t, c.overflow);
      ProductMonotone(t, c.Tables(), c.overflow);
      hide Times;
      TwoMorePieces(before, pieces);
    }
  }

  lemma TwoMorePieces(before: seq<(nat, nat)>, pieces: seq<(nat, nat)>)
    requires |pieces| == |before| + 2 && pieces[..|before|] == before
    ensures var n := |before|;
      SlotsOfPieces(pieces)
      == SlotsOfPieces(before) + RangeSlots(pieces[n]) + RangeSlots(pieces[n + 1])
  {
    assert pieces[..|before| + 1][..|before|] == before;
  }

  /** They cover the cache. */
  lemma CodePiecesCover(c: Counters)
    requires c.Ok()
    ensures Covers(PiecesOf(c, c.Tables()), c.Total())
  {
    PiecesReach(c, c.Tables());
    hide Times, PiecesOf;
  }

  lemma MultiplesApart(h: nat, g: nat, w: nat, base: nat)
    ensures h == g || Apart((base + Times(h, w), base + Times(h + 1, w)), (base + Times(g, w), base + Times(g + 1, w)))
  {
    if h < g { ProductMonotone(h + 1, g, w); }
    if g < h { ProductMonotone(g + 1, h, w); }
  }

  /** The kernels' layout is regular: buckets and regions do not overlap, and a bucket belongs to
      one table and so to one region. */
  lemma CodeLayoutRegular(c: Counters, hash: Key -> nat)
    requires c.Ok()
    ensures Regular(LayoutOf(c, hash))
  {
    var layout := LayoutOf(c, hash);
    forall k, l ensures RegularFor(layout, k, l) {
      RangesWithin(c, hash, k);
      RangesWithin(c, hash, l);
      BucketsApart(c, hash, k, l);
      if k.table < c.Tables() && l.table < c.Tables() { MultiplesApart(k.table, l.table, c.overflow, c.Main()); }
      hide Times;
    }
  }

  lemma BucketsApart(c: Counters, hash: Key -> nat, k: Key, l: Key)
    requires c.Ok()
    ensures BucketOf(c, hash, k) == BucketOf(c, hash, l) || Apart(BucketOf(c, hash, k), BucketOf(c, hash, l))
    ensures BucketOf(c, hash, k) == BucketOf(c, hash, l) && BucketOf(c, hash, k) != (0, 0) ==> k.table == l.table
  {
    var t, u := k.table, l.table;
    if t < c.Tables() && c.offsets[t] < c.offsets[t + 1] && u < c.Tables() && c.offsets[u] < c.offsets[u + 1] {
      var h := c.offsets[t] + LocalBucket(hash(k), c.offsets[t + 1] - c.offsets[t], c.bucket);
      var g := c.offsets[u] + LocalBucket(hash(l), c.offsets[u + 1] - c.offsets[u], c.bucket);
      MultiplesApart(h, g, c.bucket, 0);
      if h != g {
        DifferentMultiples(h, g, c.bucket);
      } else {
        SameTable(c, t, u, h);
      }
    }
  }

  lemma DifferentMultiples(h: nat, g: nat, w: nat)
    requires h != g && w > 0
    ensures Times(h, w) != Times(g, w)
  {
    if h < g { ProductMonotone(h, g, w); Product(g - h, w); } else { ProductMonotone(g, h, w); Product(h - g, w); }
  }

  lemma SameTable(c: Counters, t: nat, u: nat, h: nat)
    requires c.Ok() && t < c.Tables() && u < c.Tables()
    requires c.offsets[t] <= h < c.offsets[t + 1] && c.offsets[u] <= h < c.offsets[u + 1]
    ensures t == u
  {
  }

  /** What an insertion of absent keys into a table of `n` slots, its residents in home slots, may do. */
  ghost predicate MayInsert(layout: Layout, n: nat, keys: Slots, scores: seq<int>, refs: seq<int>, ks: seq<Key>,
                            idx: seq<int>)
    requires layout.Within(n)
  {
    && |keys| == |scores| == |refs| == n && |idx| == |ks|
    && Injective(keys) && (forall s :: 0 <= s < n && keys[s].Some? ==> layout.Home(keys[s].value, s))
    && Distinct(ks) && (forall i :: 0 <= i < |ks| ==> Some(ks[i]) !in keys)
    && GoodPlacement(keys, Seen(layout, refs), ks, idx)
    && Choices(layout, keys, scores, Seen(layout, refs), ks, idx)
  }

  /** Every insertion leaves the keys in pinned slots where they are. */
  ghost predicate PinsKept(layout: Layout, n: nat)
    requires layout.Within(n)
  {
    forall keys, scores, refs, ks, idx :: MayInsert(layout, n, keys, scores, refs, ks, idx) ==>
      KeepsPinned(keys, refs, After(keys, ks, idx))
  }

  /** Where eviction looks at the right counter for the home slots of every key, they do. */
  lemma HonestKeeps(layout: Layout, n: nat)
    requires layout.Within(n) && forall k, s: nat :: s < n && layout.Home(k, s) ==> layout.check(s) == s
    ensures PinsKept(layout, n)
  {
    forall keys, scores, refs, ks, idx | MayInsert(layout, n, keys, scores, refs, ks, idx)
      ensures KeepsPinned(keys, refs, After(keys, ks, idx))
    {
      HonestKeepsOne(layout, n, keys, scores, refs, ks, idx);
    }
  }

  lemma HonestKeepsOne(layout: Layout, n: nat, keys: Slots, scores: seq<int>, refs: seq<int>, ks: seq<Key>,
                       idx: seq<int>)
    requires layout.Within(n) && forall k, s: nat :: s < n && layout.Home(k, s) ==> layout.check(s) == s
    requires MayInsert(layout, n, keys, scores, refs, ks, idx)
    ensures KeepsPinned(keys, refs, After(keys, ks, idx))
  {
    hide Injective, Distinct, LeastScore, Exhausted;
    forall s | 0 <= s < n && keys[s].Some? && refs[s] > 0 ensures s !in idx {
      forall j | 0 <= j < |idx| ensures idx[j] != s {
        assert ChosenAt(layout, keys, scores, Seen(layout, refs), ks[j], Taken(idx[..j]), idx[j]);
        if idx[j] >= 0 { assert layout.Home(ks[j], idx[j]) && layout.check(idx[j]) == idx[j]; }
      }
    }
  }

  /** With one more key than a bucket has slots: the others fill the bucket and are pinned, and if
      eviction looks for their counters outside the bucket, the last key takes a pinned slot. */
  lemma FullBucketTaken(layout: Layout, n: nat, range: (nat, nat), ks: seq<Key>)
    requires layout.Within(n) && range.0 < range.1 <= n && |ks| == range.1 - range.0 + 1 && Distinct(ks)
    requires forall i :: 0 <= i < |ks| ==> layout.bucket(ks[i]) == range
    requires forall q: nat :: In(range, q) ==> !In(range, layout.check(q))
    ensures !PinsKept(layout, n)
  {
    var keys: Slots := seq(n, q requires 0 <= q < n => if In(range, q) then Some(ks[q - range.0]) else None);
    var refs: seq<int> := seq(n, q => if In(range, q) then 1 else 0);
    var last := ks[|ks| - 1];
    FilledBucket(layout, n, range, ks, keys);
    LastTakes(layout, n, range, keys, seq(n, _ => 0), refs, last);
  }

  lemma FilledBucket(layout: Layout, n: nat, range: (nat, nat), ks: seq<Key>, keys: Slots)
    requires range.0 < range.1 <= n && |ks| == range.1 - range.0 + 1 && Distinct(ks) && |keys| == n
    requires forall i :: 0 <= i < |ks| ==> layout.bucket(ks[i]) == range
    requires forall q :: 0 <= q < n ==> keys[q] == if In(range, q) then Some(ks[q - range.0]) else None
    ensures Injective(keys) && Some(ks[|ks| - 1]) !in keys
    ensures forall q :: 0 <= q < n && keys[q].Some? ==> layout.Home(keys[q].value, q)
  {
    forall q | 0 <= q < n && keys[q].Some? ensures IndexOf(keys, keys[q]) == q {
      var r := IndexOf(keys, keys[q]);
      assert ks[q - range.0] == ks[r - range.0];
      assert IndexOf(ks, ks[q - range.0]) == q - range.0 && IndexOf(ks, ks[r - range.0]) == r - range.0;
    }
    forall q | 0 <= q < n ensures keys[q] != Some(ks[|ks| - 1]) {
      if In(range, q) {
        assert IndexOf(ks, ks[q - range.0]) == q - range.0 && IndexOf(ks, ks[|ks| - 1]) == |ks| - 1;
      }
    }
  }

  lemma LastTakes(layout: Layout, n: nat, range: (nat, nat), keys: Slots, scores: seq<int>, refs: seq<int>, k: Key)
    requires layout.Within(n) && |keys| == |scores| == |refs| == n
    requires range.0 < range.1 <= n && layout.bucket(k) == range
    requires Injective(keys) && Some(k) !in keys
    requires forall q :: 0 <= q < n && keys[q].Some? ==> layout.Home(keys[q].value, q)
    requires forall q :: 0 <= q < n ==> scores[q] == 0 && refs[q] == if In(range, q) then 1 else 0
    requires forall q :: 0 <= q < n && In(range, q) ==> keys[q].Some? && !In(range, layout.check(q))
    ensures MayInsert(layout, n, keys, scores, refs, [k], [range.0])
    ensures !KeepsPinned(keys, refs, After(keys, [k], [range.0]))
  {
    hide Injective, After;
    var s := range.0;
    var ks, idx, seen := [k], [s as int], Seen(layout, refs);
    assert In(range, s) && seen[s] == 0;
    assert idx[..0] == [] && Taken([]) == {};
    assert IndexOf(idx, s) == 0 && IndexOf(ks, k) == 0;
    assert ChosenAt(layout, keys, scores, seen, k, Taken(idx[..0]), s);
    PinnedOverwritten(keys, refs, k, s);
    hide LeastScore, Seen;
  }

  lemma PinnedOverwritten(keys: Slots, refs: seq<int>, k: Key, s: nat)
    requires |refs| == |keys| && s < |keys| && keys[s].Some? && refs[s] > 0 && Some(k) !in keys
    ensures !KeepsPinned(keys, refs, After(keys, [k], [s]))
  {
    var idx, now := [s as int], After(keys, [k], [s]);
    assert IndexOf(idx, s) == 0;
    assert now[s] == Some(k) && keys[s] in keys;
  }

  /** The keys of table `t` with an id below `n` that go to bucket `h`. */
  ghost function IdsIn(local: Key -> nat, t: nat, h: nat, n: nat): (ks: seq<Key>)
    ensures forall i :: 0 <= i < |ks| ==> ks[i].table == t && 0 <= ks[i].id < n && local(ks[i]) == h
  {
    if n == 0 then []
    else IdsIn(local, t, h, n - 1) + if local(Key(t, n - 1)) == h then [Key(t, n - 1)] else []
  }

  lemma {:induction false} IdsDistinct(local: Key -> nat, t: nat, h: nat, n: nat)
    ensures Distinct(IdsIn(local, t, h, n))
  {
    if n > 0 {
      IdsDistinct(local, t, h, n - 1);
      if local(Key(t, n - 1)) == h { AppendDistinct(IdsIn(local, t, h, n - 1), Key(t, n - 1)); }
    }
  }

  /** How many ids below `n` go to one of the first `e` buckets. */
  ghost function IdsCounted(local: Key -> nat, t: nat, e: nat, n: nat): nat {
    if e == 0 then 0 else IdsCounted(local, t, e - 1, n) + |IdsIn(local, t, e - 1, n)|
  }

  lemma {:induction false} IdsCountedStep(local: Key -> nat, t: nat, e: nat, n: nat)
    ensures IdsCounted(local, t, e, n + 1) == IdsCounted(local, t, e, n) + if local(Key(t, n)) < e then 1 else 0
  {
    if e > 0 { IdsCountedStep(local, t, e - 1, n); }
  }

  /** Every id is counted once. */
  lemma {:induction false} AllIdsCounted(local: Key -> nat, t: nat, e: nat, n: nat)
    requires n == 0 || forall k :: local(k) < e
    ensures IdsCounted(local, t, e, n) == n
    decreases n, e
  {
    if n > 0 {
      AllIdsCounted(local, t, e, n - 1);
      IdsCountedStep(local, t, e, n - 1);
    } else if e > 0 {
      AllIdsCounted(local, t, e - 1, 0);
    }
  }

  /** Some bucket has more than `m` of more than `e * m` ids. */
  lemma {:induction false} CrowdedBucket(local: Key -> nat, t: nat, e: nat, n: nat, m: nat) returns (h: nat)
    requires IdsCounted(local, t, e, n) > Times(e, m)
    ensures h < e && |IdsIn(local, t, h, n)| > m
  {
    if |IdsIn(local, t, e - 1, n)| > m { return e - 1; }
    assert Times(e, m) == Times(e - 1, m) + m;
    hide Times;
    h := CrowdedBucket(local, t, e - 1, n, m);
  }

  lemma CrowdedIds(local: Key -> nat, t: nat, d: nat, m: nat) returns (h: nat, ks: seq<Key>)
    requires m > 0 && forall k :: local(k) < d
    ensures Distinct(ks) && |ks| == m && forall i :: 0 <= i < |ks| ==> ks[i].table == t && local(ks[i]) == h
  {
    var n := Times(d, m - 1) + 1;
    AllIdsCounted(local, t, d, n);
    h := CrowdedBucket(local, t, d, n, m - 1);
    var all := IdsIn(local, t, h, n);
    IdsDistinct(local, t, h, n);
    hide Times, IdsIn, IdsCounted, Distinct;
    if m < |all| { PrefixDistinct(all, m); } else { assert all[..m] == all; }
    ks := all[..m];
  }

  /** Whatever the hash, a table with buckets has as many keys of one bucket as wanted. */
  lemma SameBucketKeys(c: Counters, hash: Key -> nat, t: nat, m: nat) returns (ks: seq<Key>)
    requires c.Ok() && t < c.Tables() && c.offsets[t] < c.offsets[t + 1] && m > 0
    ensures OfOneBucket(c, hash, t, ks) && |ks| == m
  {
    var d := c.offsets[t + 1] - c.offsets[t];
    var local := (k: Key) => LocalBucket(hash(k), d, c.bucket);
    forall k ensures local(k) == LocalBucket(hash(k), d, c.bucket) < d { }
    var h;
    h, ks := CrowdedIds(local, t, d, m);
    SameHashSameBucket(c, hash, t, d, h, ks);
  }

  lemma SameHashSameBucket(c: Counters, hash: Key -> nat, t: nat, d: nat, h: nat, ks: seq<Key>)
    requires c.Ok() && t < c.Tables() && c.offsets[t] < c.offsets[t + 1] && Distinct(ks)
    requires d == c.offsets[t + 1] - c.offsets[t]
    requires forall i :: 0 <= i < |ks| ==> ks[i].table == t && LocalBucket(hash(ks[i]), d, c.bucket) == h
    ensures OfOneBucket(c, hash, t, ks)
  {
    var r := (Times(c.offsets[t] + h, c.bucket), Times(c.offsets[t] + h + 1, c.bucket));
    forall i | 0 <= i < |ks| ensures BucketOf(c, hash, ks[i]) == r { BucketIs(c, hash, ks[i], d, h); }
    hide BucketOf, Times, Distinct;
  }

  lemma BucketIs(c: Counters, hash: Key -> nat, k: Key, d: nat, h: nat)
    requires c.Ok() && k.table < c.Tables() && c.offsets[k.table] < c.offsets[k.table + 1]
    requires d == c.offsets[k.table + 1] - c.offsets[k.table] && LocalBucket(hash(k), d, c.bucket) == h
    ensures BucketOf(c, hash, k)
         == (Times(c.offsets[k.table] + h, c.bucket), Times(c.offsets[k.table] + h + 1, c.bucket))
  {
    hide Times;
  }

  /** The home of a key in the numbering of the pin counters: the aligned group of slots around the
      slot of its table that the hash code names, and the overflow slots of its table. */
  lemma HomeSlots(c: Counters, hash: Key -> nat, k: Key, slot: nat)
    requires c.Ok() && k.table < c.Tables() && c.offsets[k.table] < c.offsets[k.table + 1]
    ensures var t, r := k.table, BucketOf(c, hash, k);
      && c.TableSlots(t) > 0
      && In(r, c.PinIndex(t, hash(k) % c.TableSlots(t)))
      && r.1 - r.0 == c.bucket && (exists h: nat :: r.0 == Times(h, c.bucket))
      && RegionOf(c, k).1 - RegionOf(c, k).0 == c.overflow
      && (c.TableSlots(t) <= slot < c.TableSlots(t) + c.overflow ==> In(RegionOf(c, k), c.PinIndex(t, slot)))
  {
    var t := k.table;
    var d := c.offsets[t + 1] - c.offsets[t];
    var local := LocalBucket(hash(k), d, c.bucket);
    assert c.TableSlots(t) == SlotCount(d, c.bucket);
    ProductMonotone(c.offsets[t], c.offsets[t] + local, c.bucket);
    ProductMonotone(c.offsets[t], c.offsets[t] + local + 1, c.bucket);
    assert Times(c.offsets[t] + local + 1, c.bucket) == Times(c.offsets[t] + local, c.bucket) + c.bucket;
    assert Times(t + 1, c.overflow) == Times(t, c.overflow) + c.overflow;
  }

  /** Different keys of table `t` that hash to the same bucket. */
  ghost predicate OfOneBucket(c: Counters, hash: Key -> nat, t: nat, ks: seq<Key>)
    requires c.Ok()
  {
    && t < c.Tables() && c.offsets[t] < c.offsets[t + 1] && Distinct(ks)
    && (forall i :: 0 <= i < |ks| ==> ks[i].table == t)
    && (forall i, j :: 0 <= i < |ks| && 0 <= j < |ks| ==> BucketOf(c, hash, ks[i]) == BucketOf(c, hash, ks[j]))
  }

  /** The bucket of a key of a table with buckets before it: its slots are checked outside it. */
  lemma BucketChecked(c: Counters, hash: Key -> nat, k: Key)
    requires c.Ok() && k.table < c.Tables() && c.offsets[k.table] < c.offsets[k.table + 1]
    ensures var r := BucketOf(c, hash, k);
      && r.0 + c.bucket == r.1 <= c.Main()
      && (c.offsets[k.table] > 0 ==> forall q: nat :: In(r, q) ==> CheckOf(c, q) < r.0)
      && forall q: nat :: In(r, q) && c.offsets[k.table] > 0 ==> CheckOf(c, q) < c.Main()
  {
    var t := k.table;
    var h := c.offsets[t] + LocalBucket(hash(k), c.offsets[t + 1] - c.offsets[t], c.bucket);
    var r := BucketOf(c, hash, k);
    assert Times(h + 1, c.bucket) == Times(h, c.bucket) + c.bucket;
    RangesWithin(c, hash, k);
    ProductMonotone(c.offsets[t], h, c.bucket);
    ProductMonotone(h + 1, c.offsets[t + 1], c.bucket);
    if c.offsets[t] > 0 {
      assert Times(1, c.bucket) == c.bucket;
      ProductMonotone(1, c.offsets[t], c.bucket);
      hide Times;
      forall q: nat | In(r, q) ensures CheckOf(c, q) < r.0 { TableFromIs(c, q, t, c.Tables() - 1); }
    }
  }

  /** With the kernels' counters: every insertion into a table of the cache keeps all pinned slots
      if and only if at most one table of the group has buckets, and then eviction looks at the pin
      counter of every slot. */
  lemma CodePinsKeptIff(c: Counters, hash: Key -> nat)
    requires c.Ok()
    ensures LayoutOf(c, hash).Within(c.Total())
    ensures PinsKept(LayoutOf(c, hash), c.Total()) <==> OneTable(c)
    ensures LayoutOf(c, hash).Honest(c.Total()) <==> OneTable(c)
  {
    var layout, n := LayoutOf(c, hash), c.Total();
    CodeLayoutWithin(c, hash);
    CheckOfHonestIff(c);
    forall s: nat ensures layout.check(s) == CheckOf(c, s) { }
    assert layout.Honest(n) <==> OneTable(c);
    if OneTable(c) {
      HonestKeeps(layout, n);
    } else {
      var t :| 0 <= t < c.Tables() && c.offsets[t] > 0 && c.offsets[t + 1] != c.offsets[t];
      PinsLost(c, hash, t);
    }
  }

  lemma PinsLost(c: Counters, hash: Key -> nat, t: nat)
    requires c.Ok() && t < c.Tables() && 0 < c.offsets[t] < c.offsets[t + 1]
    ensures LayoutOf(c, hash).Within(c.Total()) && !PinsKept(LayoutOf(c, hash), c.Total())
  {
    var layout := LayoutOf(c, hash);
    CodeLayoutWithin(c, hash);
    var ks := SameBucketKeys(c, hash, t, c.bucket + 1);
    var range := layout.bucket(ks[0]);
    BucketChecked(c, hash, ks[0]);
    forall i | 0 <= i < |ks| ensures layout.bucket(ks[i]) == range {
      assert BucketOf(c, hash, ks[i]) == BucketOf(c, hash, ks[0]);
    }
    forall q: nat | In(range, q) ensures !In(range, layout.check(q)) { assert layout.check(q) == CheckOf(c, q); }
    hide LayoutOf, OfOneBucket, BucketOf, CheckOf, Times;
    FullBucketTaken(layout, c.Total(), range, ks);
  }
}
