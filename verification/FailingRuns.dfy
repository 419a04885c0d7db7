/** Runs from an empty cache in which the cache does not do what the plain store does, for every layout of
    the kernels: a pinned slot is evicted, and a key the cache has no slot for is spoiled. */
module FailingRuns {
  import opened Common
  import opened PlainStore
  import opened HashTable
  import opened Rejection
  import opened BackingStore
  import opened TwoLevel
  import opened CachePath
  import opened CounterLayout
  import opened Pins
  import opened Room
  import opened Pipeline

  /** A batch with every key once. */
  function Once(ks: seq<Key>): (b: Batch)
    requires Distinct(ks)
    ensures b.Ok() && b.keys == ks
  {
    Batch(ks, seq(|ks|, _ => 1))
  }

  ghost function Nones(n: nat): (keys: Slots)
    ensures |keys| == n && forall s :: 0 <= s < n ==> keys[s].None?
  {
    seq(n, _ => None)
  }

  ghost function Zeros(n: nat): (refs: seq<int>)
    ensures |refs| == n && forall s :: 0 <= s < n ==> refs[s] == 0
  {
    seq(n, _ => 0)
  }

  lemma {:induction false} AllPositions(mask: seq<bool>)
    requires forall i :: 0 <= i < |mask| ==> mask[i]
    ensures |Positions(mask)| == |mask| && forall i :: 0 <= i < |mask| ==> Positions(mask)[i] == i
  {
    if |mask| > 0 {
      var n := |mask| - 1;
      AllPositions(mask[..n]);
      PositionsStep(mask, n);
    }
  }

  lemma GatherAll<T>(s: seq<T>, pos: seq<nat>)
    requires |pos| == |s| && forall i :: 0 <= i < |pos| ==> pos[i] == i
    ensures Gather(s, pos) == s
  {
  }

  lemma NoHitNoPin(refs: seq<int>, hits: seq<int>)
    requires forall i :: 0 <= i < |hits| ==> hits[i] < 0
    ensures Bump(refs, hits, 1) == refs
  {
  }

  /** Prefetching keys that are not cached, without an admission strategy: all are inserted. */
  lemma AllMissPrefetched(cfg: Config, p: Plain, b: Batch, layout: Layout, keys: Slots, refs: seq<int>, slots: seq<int>,
                          now: Slots, counts: seq<int>)
    requires cfg.threshold.None? && b.Ok() && |refs| == |keys| && layout.Within(|keys|)
    requires forall i :: 0 <= i < |b.keys| ==> Some(b.keys[i]) !in keys
    requires Prefetched(cfg, p, b, layout, keys, refs, slots, now, counts)
    ensures |slots| == |b.keys|
    ensures GoodPlacement(keys, Seen(layout, refs), b.keys, slots)
    ensures BucketFirst(layout, keys, Seen(layout, refs), b.keys, slots)
    ensures now == After(keys, b.keys, slots) && counts == Bump(refs, slots, 1)
    ensures Unserved(cfg, p, b, slots) == Rejected(b.keys, slots)
  {
    var hits, mask := HitsOf(keys, b.keys), KeptMisses(cfg, p, b, keys);
    AllPositions(mask);
    NoHitNoPin(refs, hits);
    GatherAll(b.keys, Positions(mask));
    GatherAll(slots, Positions(mask));
    hide Positions, GoodPlacement, BucketFirst, Seen, Bump, Overlay, Keeps;
    UnservedAll(cfg, p, b, slots);
  }

  lemma UnservedAll(cfg: Config, p: Plain, b: Batch, slots: seq<int>)
    requires cfg.threshold.None? && b.Ok() && |slots| == |b.keys|
    ensures Unserved(cfg, p, b, slots) == Rejected(b.keys, slots)
  {
  }

  /** What the combined map is then. */
  lemma StoredKeys(cfg: Config, p: Plain, b: Batch, m: map<Key, Row>, bad: set<Key>, junk: nat -> Row)
    requires cfg.threshold.None? && b.Ok() && Spoiled(m, PrefetchRows(cfg, p, b), bad, junk)
    ensures forall k :: k in m <==> k in p.rows || k in b.keys
    ensures forall k :: k in b.keys && k !in p.rows ==> if k in bad then IsJunk(junk, m[k]) else m[k] == cfg.init(k)
  {
    hide IsJunk;
    forall k ensures k in Admitted(cfg, p, b) <==> k in b.keys && k !in p.rows { }
  }

  lemma {:induction false} TakenCount(slots: seq<int>)
    requires NoRepeats(slots) && forall i :: 0 <= i < |slots| ==> slots[i] >= 0
    ensures |Taken(slots)| == |slots|
  {
    if slots != [] {
      var n := |slots| - 1;
      NotTakenYet(slots, n);
      PrefixNoRepeats(slots, n);
      TakenCount(slots[..n]);
      assert slots == slots[..n] + [slots[n]];
      TakenStep(slots[..n], slots[n]);
    } else {
      assert Taken(slots) == {};
    }
  }

  /** As many different slots of a set as it has are all of it. */
  lemma AllTaken(slots: seq<int>, home: set<nat>)
    requires NoRepeats(slots) && |home| <= |slots|
    requires forall i :: 0 <= i < |slots| ==> slots[i] >= 0 && slots[i] in home
    ensures forall q :: q in home ==> q in slots
  {
    TakenCount(slots);
    var taken := Taken(slots);
    assert taken <= home;
    if q :| q in home && q !in taken {
      SubsetSize(taken + {q}, home);
    }
    forall q | q in home ensures q in slots {
      var i :| 0 <= i < |slots| && slots[i] >= 0 && slots[i] == q;
    }
  }

  lemma {:induction false} FewOfBucket(layout: Layout, ks: seq<Key>, range: (nat, nat), n: nat)
    requires n <= |ks|
    ensures KeysOfBucket(layout, ks, range, n) <= n
  {
    if n > 0 { FewOfBucket(layout, ks, range, n - 1); }
  }

  /** A first batch of as many keys of one bucket as it has slots fills the bucket. */
  lemma {:induction false} FirstFillsBucket(layout: Layout, n: nat, range: (nat, nat), ks: seq<Key>, slots: seq<int>)
    requires layout.Within(n) && Regular(layout) && range.0 <= range.1 <= n
    requires |slots| == |ks| == range.1 - range.0
    requires forall i :: 0 <= i < |ks| ==> layout.bucket(ks[i]) == range
    requires GoodPlacement(Nones(n), Seen(layout, Zeros(n)), ks, slots)
    requires BucketFirst(layout, Nones(n), Seen(layout, Zeros(n)), ks, slots)
    ensures forall j :: 0 <= j < |slots| ==> slots[j] >= 0 && In(range, slots[j])
    ensures forall q: nat :: In(range, q) ==> q in slots
  {
    var keys, seen := Nones(n), Seen(layout, Zeros(n));
    assert PlacedBatch(layout, keys, seen, ks, slots);
    assert UsableIn(range, keys, seen) == RangeSlots(range);
    SlotsSize(range);
    hide PlacedBatch, Regular, BucketFirst;
    forall j | 0 <= j < |slots| ensures slots[j] >= 0 && In(range, slots[j]) {
      SpillsIff(layout, keys, seen, ks, slots, j);
      FewOfBucket(layout, ks, range, j);
    }
    hide UsableIn, Spills;
    AllTaken(slots, RangeSlots(range));
  }

  /** A key of a bucket that eviction takes for unpinned gets one of its slots. */
  lemma NextTakesSlot(layout: Layout, range: (nat, nat), k: Key, keys: Slots, refs: seq<int>, slots: seq<int>)
    requires |refs| == |keys| && layout.Within(|keys|) && layout.bucket(k) == range && range.0 < range.1 <= |keys|
    requires |slots| == 1 && BucketFirst(layout, keys, Seen(layout, refs), [k], slots)
    requires forall q: nat :: In(range, q) ==> refs[layout.check(q)] <= 0
    ensures slots[0] >= 0 && In(range, slots[0])
  {
    assert BucketFirstAt(layout, keys, Seen(layout, refs), k, Taken(slots[..0]), slots[0]);
    assert Taken(slots[..0]) == {} && In(range, range.0);
  }

  /** A cached key's row is its value. */
  lemma CachedRow(cache: Table, storage: Storage, k: Key, s: nat)
    requires cache.Valid() && storage.Valid() && s < cache.keys.Length && cache.keys[s] == Some(k)
    ensures k in Combined(cache, storage) && Combined(cache, storage)[k] == cache.rows[s]
  {
    SlotUnique(cache.keys[..], k, s);
  }

  lemma AfterAt(keys: Slots, ks: seq<Key>, slots: seq<int>, j: nat)
    requires |slots| == |ks| && j < |ks| && NoRepeats(slots) && 0 <= slots[j] < |keys|
    ensures After(keys, ks, slots)[slots[j]] == Some(ks[j])
  {
    assert IndexOf(slots, slots[j]) == j;
  }

  /** An empty cache with the kernels' layout, after a first batch that fills one bucket. */
  method FillBucket(cfg: Config, c: Counters, hash: Key -> nat, t: nat, ks: seq<Key>, mode: Mode,
                    scoring: Scoring, junk: nat -> Row)
    returns (tables: BatchedTables)
    requires cfg.threshold.None? && PlacesFresh(mode) && c.Ok() && OfOneBucket(c, hash, t, ks) && |ks| == c.bucket
    requires c.offsets[t] > 0
    ensures fresh(tables) && fresh(tables.cache) && fresh(tables.cache.keys) && fresh(tables.cache.scores)
    ensures fresh(tables.cache.refs) && fresh(tables.cache.rows) && fresh(tables.storage) && fresh(tables.counter)
    ensures tables.Valid() && tables.cfg == cfg && tables.cache.keys.Length == c.Total() && tables.outs == []
    ensures LayoutOf(c, hash).Within(c.Total()) && tables.cache.layout == LayoutOf(c, hash)
    ensures |tables.waiting| == 1 && tables.outstanding == |ks| && tables.waiting[0].keys == ks
    ensures var range, st := BucketOf(c, hash, ks[0]), tables.waiting[0];
      && |st.slots| == |ks| && NoRepeats(st.slots)
      && (forall j :: 0 <= j < |ks| ==> st.slots[j] >= 0 && In(range, st.slots[j]) && j !in st.skipped)
      && (forall q: nat :: In(range, q) ==> q in st.slots)
      && tables.cache.keys[..] == After(Nones(c.Total()), ks, st.slots)
      && tables.cache.refs[..] == Bump(Zeros(c.Total()), st.slots, 1)
    ensures forall k :: k in Combined(tables.cache, tables.storage) <==> k in ks
  {
    hide PlacesFresh, LayoutOf, BucketOf, Times, Prefetched, Spoiled, Unserved, FitsBatch, RoomFor, Combined,
      Consistent, Layout.Honest, Regular, GoodPlacement, BucketFirst, After, Bump, Moved, LevelsOf;
    CodeLayoutWithin(c, hash);
    CodeLayoutRegular(c, hash);
    BucketChecked(c, hash, ks[0]);
    LayoutIs(c, hash);
    tables := new BatchedTables(cfg, c.Total(), LayoutOf(c, hash), mode);
    ghost var p, layout, n := PlainOf(map[], map[]), LayoutOf(c, hash), c.Total();
    assert tables.cache.keys[..] == Nones(n) && tables.cache.refs[..] == Zeros(n);
    var r := tables.Prefetch(Once(ks), scoring, junk);
    ghost var st := tables.waiting[0];
    AllMissPrefetched(cfg, p, Once(ks), layout, Nones(n), Zeros(n), st.slots, tables.cache.keys[..],
                      tables.cache.refs[..]);
    StoredKeys(cfg, p, Once(ks), Combined(tables.cache, tables.storage), Unserved(cfg, p, Once(ks), st.slots), junk);
    OneBucketRange(c, hash, t, ks);
    FirstFillsBucket(layout, n, BucketOf(c, hash, ks[0]), ks, st.slots);
    assert NoRepeats(st.slots) by { PlacementNoRepeats(Nones(n), Seen(layout, Zeros(n)), ks, st.slots); }
    EveryKept(cfg, p, Once(ks));
  }

  lemma PlacementNoRepeats(keys: Slots, seen: seq<int>, ks: seq<Key>, idx: seq<int>)
    requires |seen| == |keys| && GoodPlacement(keys, seen, ks, idx)
    ensures NoRepeats(idx)
  {
  }

  lemma LayoutIs(c: Counters, hash: Key -> nat)
    requires c.Ok()
    ensures forall k :: LayoutOf(c, hash).bucket(k) == BucketOf(c, hash, k)
    ensures forall k :: LayoutOf(c, hash).overflow(k) == RegionOf(c, k)
    ensures forall s: nat :: LayoutOf(c, hash).check(s) == CheckOf(c, s)
  {
  }

  lemma OneBucketRange(c: Counters, hash: Key -> nat, t: nat, ks: seq<Key>)
    requires c.Ok() && OfOneBucket(c, hash, t, ks) && ks != []
    ensures forall i :: 0 <= i < |ks| ==> BucketOf(c, hash, ks[i]) == BucketOf(c, hash, ks[0])
  {
  }

  lemma EveryKept(cfg: Config, p: Plain, b: Batch)
    requires cfg.threshold.None? && b.Ok()
    ensures forall k :: Keeps(cfg, p, b, k)
  {
  }

  lemma LastNotBefore(ks: seq<Key>, w: nat)
    requires Distinct(ks) && |ks| == w + 1
    ensures ks[w] !in ks[..w] && Distinct(ks[..w])
  {
    PrefixDistinct(ks, w);
  }

  lemma PrefixOfOneBucket(c: Counters, hash: Key -> nat, t: nat, ks: seq<Key>, w: nat)
    requires c.Ok() && OfOneBucket(c, hash, t, ks) && |ks| == w + 1
    ensures OfOneBucket(c, hash, t, ks[..w])
  {
    LastNotBefore(ks, w);
    hide BucketOf;
  }

  /** For every group in which a table with buckets has buckets before it, and any keys of one of its
      buckets, one more than the bucket has slots: the first keys are prefetched and pin the bucket,
      the last one is prefetched and gets one of the pinned slots, and the forward of the first
      batch returns the row of the last key for the key that had the slot. */
  method PinnedSlotEvicted(cfg: Config, c: Counters, hash: Key -> nat, t: nat, ks: seq<Key>, mode: Mode,
                           scoring: Scoring, junk: nat -> Row)
    returns (tables: BatchedTables, out: seq<Row>, ghost i: nat, ghost pins: int)
    requires cfg.threshold.None? && PlacesFresh(mode) && c.Ok() && OfOneBucket(c, hash, t, ks) && |ks| == c.bucket + 1
    requires c.offsets[t] > 0
    ensures tables.outs == [out] && |out| == c.bucket && i < c.bucket && pins == 1
    ensures out[i] == cfg.emb(cfg.init(ks[c.bucket])) && ks[i] != ks[c.bucket]
  {
    hide PlacesFresh, LayoutOf, BucketOf, CheckOf, Times, Prefetched, Spoiled, Unserved, FitsBatch, RoomFor, Combined,
      Consistent, Layout.Honest, Regular, BucketFirst, Injective;
    var w := c.bucket;
    var k := ks[w];
    LastNotBefore(ks, w);
    PrefixOfOneBucket(c, hash, t, ks, w);
    tables := FillBucket(cfg, c, hash, t, ks[..w], mode, scoring, junk);
    ghost var st, range := tables.waiting[0], BucketOf(c, hash, ks[0]);
    ghost var keys, refs, n := tables.cache.keys[..], tables.cache.refs[..], c.Total();
    ghost var layout := LayoutOf(c, hash);
    LayoutIs(c, hash);
    OneBucketRange(c, hash, t, ks);
    BucketChecked(c, hash, k);
    OutsideUnpinned(layout, range, refs, st.slots, n);
    FilledAbsent(n, ks[..w], st.slots, k);
    RoomForBoth(c, hash, k);
    ghost var taken;
    taken, out := TakeNext(tables, range, k, scoring, junk);
    i := IndexOf(st.slots, taken);
    pins := refs[taken];
  }

  /** Prefetch a key whose bucket eviction takes for unpinned, then forward the batch before it. */
  method TakeNext(tables: BatchedTables, ghost range: (nat, nat), k: Key, scoring: Scoring,
                  junk: nat -> Row)
    returns (ghost taken: nat, out: seq<Row>)
    requires tables.Valid() && tables.cfg.threshold.None? && tables.cache.layout.bucket(k) == range
    requires |tables.waiting| == 1 && tables.outstanding + 1 <= tables.cache.keys.Length
    requires k !in Combined(tables.cache, tables.storage) && Some(k) !in tables.cache.keys[..]
    requires range.0 < range.1 <= tables.cache.keys.Length
    requires forall q: nat :: In(range, q) ==> tables.cache.refs[..][tables.cache.layout.check(q)] == 0
    modifies tables, tables.cache.keys, tables.cache.scores, tables.cache.rows, tables.cache.refs, tables.storage,
      tables.counter
    ensures tables.outs == old(tables.outs) + [out] && In(range, taken)
    ensures var st := old(tables.waiting[0]);
      && |out| == |st.slots| == |st.keys|
      && forall i :: 0 <= i < |out| && i !in st.skipped && st.slots[i] == taken ==>
           out[i] == tables.cfg.emb(tables.cfg.init(k))
  {
    hide Prefetched, Spoiled, Unserved, FitsBatch, RoomFor, Combined, Consistent, Regular, BucketFirst, Injective,
      KeysIn, Layout.Honest, Moved, LevelsOf;
    ghost var cfg, layout, keys, refs := tables.cfg, tables.cache.layout, tables.cache.keys[..], tables.cache.refs[..];
    ghost var p := PlainOf(Combined(tables.cache, tables.storage), tables.counter.counts);
    var r := tables.Prefetch(Once1(k), scoring, junk);
    ghost var last := tables.waiting[1];
    LastTakesPinned(cfg, p, layout, range, k, keys, refs, last.slots, tables.cache.keys[..], tables.cache.refs[..]);
    StoredKeys(cfg, p, Once1(k), Combined(tables.cache, tables.storage), Unserved(cfg, p, Once1(k), last.slots), junk);
    taken := last.slots[0];
    CachedRow(tables.cache, tables.storage, k, taken);
    out := tables.Forward(junk);
  }

  function Once1(k: Key): (b: Batch)
    ensures b.Ok() && b.keys == [k]
  {
    assert IndexOf([k], k) == 0;
    Once([k])
  }

  /** There is room for one more key than a bucket in the outstanding limit. */
  lemma RoomForBoth(c: Counters, hash: Key -> nat, k: Key)
    requires c.Ok() && k.table < c.Tables() && 0 < c.offsets[k.table] < c.offsets[k.table + 1]
    ensures c.bucket + 1 <= c.Total()
  {
    BucketChecked(c, hash, k);
    var r := BucketOf(c, hash, k);
    assert In(r, r.0) && CheckOf(c, r.0) < r.0;
  }

  lemma OutsideUnpinned(layout: Layout, range: (nat, nat), refs: seq<int>, slots: seq<int>, n: nat)
    requires layout.Within(n) && range.1 <= n && refs == Bump(Zeros(n), slots, 1)
    requires forall j :: 0 <= j < |slots| ==> In(range, slots[j])
    requires forall q: nat :: In(range, q) ==> layout.check(q) < range.0
    requires forall q: nat :: In(range, q) ==> q in slots
    ensures forall q: nat :: In(range, q) ==> refs[layout.check(q)] == 0 && refs[q] == 1
  {
    forall q: nat | In(range, q) ensures refs[layout.check(q)] == 0 {
      var s := layout.check(q);
      forall j | 0 <= j < |slots| ensures slots[j] != s { }
    }
  }

  lemma FilledAbsent(n: nat, ks: seq<Key>, slots: seq<int>, k: Key)
    requires |slots| == |ks| && k !in ks
    ensures Some(k) !in After(Nones(n), ks, slots)
  {
    var now := After(Nones(n), ks, slots);
    forall s | 0 <= s < |now| ensures now[s] != Some(k) {
      if s in slots { assert ks[IndexOf(slots, s)] in ks; }
    }
  }

  /** The last key gets a slot of the bucket and nothing is rejected. */
  lemma LastTakesPinned(cfg: Config, p: Plain, layout: Layout, range: (nat, nat), k: Key, keys: Slots, refs: seq<int>,
                        slots: seq<int>, now: Slots, counts: seq<int>)
    requires cfg.threshold.None? && |refs| == |keys| && layout.Within(|keys|) && Some(k) !in keys
    requires Prefetched(cfg, p, Once1(k), layout, keys, refs, slots, now, counts)
    requires layout.bucket(k) == range && range.0 < range.1 <= |keys|
    requires forall q: nat :: In(range, q) ==> refs[layout.check(q)] == 0
    ensures |slots| == 1 && slots[0] >= 0 && In(range, slots[0]) && |now| == |keys| && now[slots[0]] == Some(k)
    ensures Unserved(cfg, p, Once1(k), slots) == {}
  {
    AllMissPrefetched(cfg, p, Once1(k), layout, keys, refs, slots, now, counts);
    hide Prefetched, Unserved;
    NextTakesSlot(layout, range, k, keys, refs, slots);
    PlacementNoRepeats(keys, Seen(layout, refs), [k], slots);
    AfterAt(keys, [k], slots, 0);
  }

  /** A first batch of as many keys of one bucket as the bucket and its overflow region have slots
      together fills both. */
  lemma {:induction false} FirstFillsHome(layout: Layout, n: nat, range: (nat, nat), region: (nat, nat), ks: seq<Key>,
                       slots: seq<int>)
    requires layout.Within(n) && range.0 <= range.1 && region.0 <= region.1
    requires |slots| == |ks| == Size(range) + Size(region)
    requires forall i :: 0 <= i < |ks| ==> layout.bucket(ks[i]) == range && layout.overflow(ks[i]) == region
    requires GoodPlacement(Nones(n), Seen(layout, Zeros(n)), ks, slots)
    requires BucketFirst(layout, Nones(n), Seen(layout, Zeros(n)), ks, slots)
    requires forall j :: 0 <= j < |slots| ==> slots[j] >= 0
    ensures forall q: nat :: In(range, q) || In(region, q) ==> q in slots
  {
    var home := RangeSlots(range) + RangeSlots(region);
    SlotsSize(range);
    SlotsSize(region);
    forall j | 0 <= j < |slots| ensures slots[j] in home {
      assert BucketFirstAt(layout, Nones(n), Seen(layout, Zeros(n)), ks[j], Taken(slots[..j]), slots[j]);
    }
    AllTaken(slots, home);
  }

  lemma {:induction false} KeySetSize(ks: seq<Key>)
    ensures |KeySet(ks)| <= |ks|
  {
    if ks != [] {
      var n := |ks| - 1;
      KeySetSize(ks[..n]);
      assert KeySet(ks) == KeySet(ks[..n]) + {ks[n]};
    } else {
      assert KeySet(ks) == {};
    }
  }

  lemma FirstHasRoom(layout: Layout, range: (nat, nat), region: (nat, nat), ks: seq<Key>)
    requires |ks| == Size(range) + Size(region)
    requires forall i :: 0 <= i < |ks| ==> layout.bucket(ks[i]) == range && layout.overflow(ks[i]) == region
    ensures RoomFor(layout, {}, ks)
  {
    forall k | k in ks ensures HasRoom(layout, {} + KeySet(ks), k) {
      assert ks[IndexOf(ks, k)] == k;
      assert {} + KeySet(ks) == KeySet(ks);
      KeySetSize(ks);
      SubsetSize(RegionMates(layout, KeySet(ks), k), KeySet(ks));
    }
  }

  /** A key whose home slots are all pinned is rejected. */
  lemma NextRejected(layout: Layout, k: Key, keys: Slots, refs: seq<int>, slots: seq<int>)
    requires |refs| == |keys| && layout.Within(|keys|) && layout.Honest(|keys|) && |slots| == 1
    requires GoodPlacement(keys, Seen(layout, refs), [k], slots)
    requires BucketFirst(layout, keys, Seen(layout, refs), [k], slots)
    requires forall q: nat :: layout.Home(k, q) ==> q < |keys| && keys[q].Some? && refs[q] > 0
    ensures slots == [-1]
  {
    assert BucketFirstAt(layout, keys, Seen(layout, refs), k, Taken(slots[..0]), slots[0]);
    assert slots[0] >= 0 ==> layout.Home(k, slots[0]);
  }

  /** Filled slots hold keys and are pinned. */
  lemma FilledPinned(layout: Layout, k: Key, n: nat, ks: seq<Key>, slots: seq<int>, refs: seq<int>)
    requires |slots| == |ks| && layout.Within(n) && refs == Bump(Zeros(n), slots, 1)
    requires forall q: nat :: layout.Home(k, q) ==> q in slots
    ensures forall q: nat :: layout.Home(k, q) ==> q < n && After(Nones(n), ks, slots)[q].Some? && refs[q] > 0
  {
  }

  lemma RejectedAlone(cfg: Config, p: Plain, layout: Layout, k: Key, keys: Slots, refs: seq<int>, slots: seq<int>,
                      now: Slots, counts: seq<int>)
    requires cfg.threshold.None? && |refs| == |keys| && layout.Within(|keys|) && layout.Honest(|keys|)
    requires Some(k) !in keys && Prefetched(cfg, p, Once1(k), layout, keys, refs, slots, now, counts)
    requires forall q: nat :: layout.Home(k, q) ==> q < |keys| && keys[q].Some? && refs[q] > 0
    ensures slots == [-1] && Unserved(cfg, p, Once1(k), slots) == {k}
  {
    AllMissPrefetched(cfg, p, Once1(k), layout, keys, refs, slots, now, counts);
    hide Prefetched, Unserved, Layout.Within;
    NextRejected(layout, k, keys, refs, slots);
    assert [k][0] in Rejected([k], slots);
  }

  /** The size of the home of a key, and its bounds. */
  lemma HomeSize(c: Counters, hash: Key -> nat, t: nat, ks: seq<Key>)
    requires c.Ok() && OfOneBucket(c, hash, t, ks) && ks != []
    ensures var range, region := BucketOf(c, hash, ks[0]), RegionOf(c, ks[0]);
      && Size(range) == c.bucket && Size(region) == c.overflow && range.0 <= range.1 && region.0 <= region.1
      && c.bucket + c.overflow <= c.Total()
      && forall i :: 0 <= i < |ks| ==> BucketOf(c, hash, ks[i]) == range && RegionOf(c, ks[i]) == region
  {
    BucketChecked(c, hash, ks[0]);
    RangesWithin(c, hash, ks[0]);
    OneBucketRange(c, hash, t, ks);
    assert Times(t + 1, c.overflow) == Times(t, c.overflow) + c.overflow;
    ProductMonotone(t + 1, c.Tables(), c.overflow);
    hide Times, BucketOf;
  }

  /** There is room for as many keys of one bucket as it and its overflow region have slots. */
  lemma HomeReady(c: Counters, hash: Key -> nat, t: nat, ks: seq<Key>)
    requires c.Ok() && OneTable(c) && OfOneBucket(c, hash, t, ks) && |ks| == c.bucket + c.overflow + 1
    ensures var layout := LayoutOf(c, hash);
      && layout.Within(c.Total()) && layout.Honest(c.Total()) && Regular(layout)
      && RoomFor(layout, {}, ks[..|ks| - 1]) && c.bucket + c.overflow <= c.Total()
  {
    hide LayoutOf, BucketOf, RegionOf, Times, RoomFor, Layout.Honest, Layout.Within, Regular;
    LayoutIs(c, hash);
    HomeSize(c, hash, t, ks);
    CodePinsKeptIff(c, hash);
    CodeLayoutWithin(c, hash);
    CodeLayoutRegular(c, hash);
    FirstHasRoom(LayoutOf(c, hash), BucketOf(c, hash, ks[0]), RegionOf(c, ks[0]), ks[..|ks| - 1]);
  }

  /** Once they are placed, every home slot of the next key of the bucket is occupied and pinned. */
  lemma HomePinned(c: Counters, hash: Key -> nat, t: nat, ks: seq<Key>, slots: seq<int>, refs: seq<int>)
    requires c.Ok() && OfOneBucket(c, hash, t, ks) && |ks| == c.bucket + c.overflow + 1 == |slots| + 1
    requires LayoutOf(c, hash).Within(c.Total()) && refs == Bump(Zeros(c.Total()), slots, 1)
    requires GoodPlacement(Nones(c.Total()), Seen(LayoutOf(c, hash), Zeros(c.Total())), ks[..|slots|], slots)
    requires BucketFirst(LayoutOf(c, hash), Nones(c.Total()), Seen(LayoutOf(c, hash), Zeros(c.Total())),
                         ks[..|slots|], slots)
    requires forall j :: 0 <= j < |slots| ==> slots[j] >= 0
    ensures forall q: nat :: LayoutOf(c, hash).Home(ks[|slots|], q) ==>
      q < c.Total() && After(Nones(c.Total()), ks[..|slots|], slots)[q].Some? && refs[q] > 0
  {
    hide LayoutOf, BucketOf, RegionOf, Times, Layout.Within, GoodPlacement, BucketFirst, Bump, After;
    var layout, m := LayoutOf(c, hash), |slots|;
    LayoutIs(c, hash);
    HomeSize(c, hash, t, ks);
    FirstFillsHome(layout, c.Total(), BucketOf(c, hash, ks[0]), RegionOf(c, ks[0]), ks[..m], slots);
    FilledPinned(layout, ks[m], c.Total(), ks[..m], slots, refs);
  }

  /** For every group of which one table has buckets, and any keys of one of its buckets, one more
      than the bucket and the overflow region have slots: the first keys are prefetched and
      forwarded, which frees the outstanding limit but not the slots; the last key is prefetched
      without an error, gets no slot, and an uninitialised row is stored for it. */
  method KeyRejected(cfg: Config, c: Counters, hash: Key -> nat, t: nat, ks: seq<Key>, mode: Mode,
                     scoring: Scoring, junk: nat -> Row)
    returns (tables: BatchedTables, first: Outcome, second: Outcome, out: seq<Row>)
    requires cfg.threshold.None? && PlacesFresh(mode) && c.Ok() && OneTable(c) && OfOneBucket(c, hash, t, ks)
    requires |ks| == c.bucket + c.overflow + 1
    ensures first.Done? && second.Done? && tables.Valid() && !tables.clean
    ensures var k := ks[|ks| - 1];
      && k in Combined(tables.cache, tables.storage) && IsJunk(junk, Combined(tables.cache, tables.storage)[k])
    ensures out == [cfg.emb(junk(0))]
  {
    hide PlacesFresh, LayoutOf, BucketOf, RegionOf, Times, Prefetched, Spoiled, Unserved, FitsBatch, RoomFor, Combined,
      Consistent, Layout.Honest, Regular, BucketFirst, GoodPlacement, Injective, Bump, After, KeysIn;
    var m := c.bucket + c.overflow;
    var k, before := ks[m], ks[..m];
    LastNotBefore(ks, m);
    PrefixOfOneBucket(c, hash, t, ks, m);
    HomeReady(c, hash, t, ks);
    tables, first := FillHome(cfg, c, hash, before, mode, scoring, junk);
    ghost var keys, refs := tables.cache.keys[..], tables.cache.refs[..];
    HomePinned(c, hash, t, ks, tables.waiting[0].slots, refs);
    FilledAbsent(c.Total(), before, tables.waiting[0].slots, k);
    var _ := tables.Forward(junk);
    assert tables.cache.keys[..] == keys && tables.cache.refs[..] == refs;
    second, out := RejectNext(tables, k, scoring, junk);
  }

  /** Prefetch and forward a key whose home slots are all occupied and pinned. */
  method RejectNext(tables: BatchedTables, k: Key, scoring: Scoring, junk: nat -> Row)
    returns (r: Outcome, out: seq<Row>)
    requires tables.Valid() && tables.Honest() && tables.cfg.threshold.None?
    requires tables.waiting == [] && tables.outstanding == 0 && tables.cache.keys.Length > 0
    requires k !in Combined(tables.cache, tables.storage) && Some(k) !in tables.cache.keys[..]
    requires forall q: nat :: tables.cache.layout.Home(k, q) ==>
      q < tables.cache.keys.Length && tables.cache.keys[..][q].Some? && tables.cache.refs[..][q] > 0
    modifies tables, tables.cache.keys, tables.cache.scores, tables.cache.rows, tables.cache.refs, tables.storage,
      tables.counter
    ensures r.Done? && tables.Valid() && !tables.clean && out == [tables.cfg.emb(junk(0))]
    ensures k in Combined(tables.cache, tables.storage) && IsJunk(junk, Combined(tables.cache, tables.storage)[k])
  {
    hide Prefetched, Spoiled, Unserved, FitsBatch, RoomFor, Combined, Consistent, Regular, BucketFirst, GoodPlacement,
      Injective, KeysIn, Layout.Honest, Layout.Within, Moved, LevelsOf;
    ghost var cfg, layout, keys, refs := tables.cfg, tables.cache.layout, tables.cache.keys[..], tables.cache.refs[..];
    ghost var p := PlainOf(Combined(tables.cache, tables.storage), tables.counter.counts);
    r := tables.Prefetch(Once1(k), scoring, junk);
    ghost var last := tables.waiting[0];
    RejectedAlone(cfg, p, layout, k, keys, refs, last.slots, tables.cache.keys[..], tables.cache.refs[..]);
    StoredKeys(cfg, p, Once1(k), Combined(tables.cache, tables.storage), Unserved(cfg, p, Once1(k), last.slots), junk);
    EveryKept(cfg, p, Once1(k));
    out := tables.Forward(junk);
  }

  /** An empty cache after a first batch for which there is room. */
  method FillHome(cfg: Config, c: Counters, hash: Key -> nat, ks: seq<Key>, mode: Mode,
                  scoring: Scoring, junk: nat -> Row)
    returns (tables: BatchedTables, r: Outcome)
    requires cfg.threshold.None? && PlacesFresh(mode) && c.Ok() && Distinct(ks) && |ks| <= c.Total()
    requires LayoutOf(c, hash).Within(c.Total()) && LayoutOf(c, hash).Honest(c.Total())
    requires Regular(LayoutOf(c, hash)) && RoomFor(LayoutOf(c, hash), {}, ks)
    ensures fresh(tables) && fresh(tables.cache) && fresh(tables.cache.keys) && fresh(tables.cache.scores)
    ensures fresh(tables.cache.refs) && fresh(tables.cache.rows) && fresh(tables.storage) && fresh(tables.counter)
    ensures r.Done? && tables.Valid() && tables.cfg == cfg && tables.cache.keys.Length == c.Total() && tables.clean
    ensures tables.cache.layout == LayoutOf(c, hash) && tables.outs == []
    ensures |tables.waiting| == 1 && tables.outstanding == |ks| && tables.waiting[0].keys == ks
    ensures var layout, st := LayoutOf(c, hash), tables.waiting[0];
      && |st.slots| == |ks| && (forall j :: 0 <= j < |ks| ==> st.slots[j] >= 0)
      && GoodPlacement(Nones(c.Total()), Seen(layout, Zeros(c.Total())), ks, st.slots)
      && BucketFirst(layout, Nones(c.Total()), Seen(layout, Zeros(c.Total())), ks, st.slots)
      && tables.cache.keys[..] == After(Nones(c.Total()), ks, st.slots)
      && tables.cache.refs[..] == Bump(Zeros(c.Total()), st.slots, 1)
    ensures forall k :: k in Combined(tables.cache, tables.storage) <==> k in ks
  {
    hide PlacesFresh, LayoutOf, Prefetched, Spoiled, Unserved, FitsBatch, RoomFor, Combined, Consistent,
      Layout.Honest, Layout.Within, Regular, GoodPlacement, BucketFirst, After, Bump, Injective, Moved, LevelsOf;
    tables := new BatchedTables(cfg, c.Total(), LayoutOf(c, hash), mode);
    ghost var p, layout, n := PlainOf(map[], map[]), LayoutOf(c, hash), c.Total();
    assert tables.cache.keys[..] == Nones(n) && tables.cache.refs[..] == Zeros(n);
    assert tables.InFlight().Keys() == {};
    r := tables.Prefetch(Once(ks), scoring, junk);
    ghost var st := tables.waiting[0];
    AllMissPrefetched(cfg, p, Once(ks), layout, Nones(n), Zeros(n), st.slots, tables.cache.keys[..],
                      tables.cache.refs[..]);
    StoredKeys(cfg, p, Once(ks), Combined(tables.cache, tables.storage), Unserved(cfg, p, Once(ks), st.slots), junk);
    EveryKept(cfg, p, Once(ks));
  }
}
