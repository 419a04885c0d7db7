/** A schedule that is certain to complete, read off the schedule: how many keys are in flight at
    each prefetch, bucket by bucket. */
module Room {
  import opened Common
  import opened PlainStore
  import opened HashTable
  import opened Rejection
  import opened BackingStore
  import opened TwoLevel
  import opened CachePath

  /** The key lists of the batches that wait for their forward, and for their backward. */
  datatype Flight = Flight(waiting: seq<seq<Key>>, active: seq<seq<Key>>) {
    ghost function Keys(): set<Key> { KeysIn(waiting) + KeysIn(active) }
  }

  ghost function KeysIn(ls: seq<seq<Key>>): set<Key> {
    set i, k | 0 <= i < |ls| && k in ls[i] :: k
  }

  /** How many keys the lists have together. */
  ghost function Total(ls: seq<seq<Key>>): nat {
    if ls == [] then 0 else |ls[0]| + Total(ls[1..])
  }

  lemma {:induction false} TotalAppend(ls: seq<seq<Key>>, l: seq<Key>)
    ensures Total(ls + [l]) == Total(ls) + |l|
    decreases |ls|
  {
    if ls != [] {
      TotalAppend(ls[1..], l);
      assert (ls + [l])[1..] == ls[1..] + [l];
    } else {
      assert (ls + [l])[1..] == [];
    }
  }

  function Size(range: (nat, nat)): int { range.1 - range.0 }

  ghost function BucketMates(layout: Layout, flight: set<Key>, k: Key): set<Key> {
    set x | x in flight && layout.bucket(x) == layout.bucket(k)
  }

  ghost function RegionMates(layout: Layout, flight: set<Key>, k: Key): set<Key> {
    set x | x in flight && layout.overflow(x) == layout.overflow(k)
  }

  ghost function KeySet(ks: seq<Key>): set<Key> { set k | k in ks }

  /** With the new batch in flight, every one of its keys has no more bucket mates than its bucket
      has slots, or no more region mates than bucket and overflow region have slots. */
  ghost predicate RoomFor(layout: Layout, flight: set<Key>, ks: seq<Key>) {
    forall k :: k in ks ==> HasRoom(layout, flight + KeySet(ks), k)
  }

  ghost predicate HasRoom(layout: Layout, all: set<Key>, k: Key) {
    || |BucketMates(layout, all, k)| <= Size(layout.bucket(k))
    || |RegionMates(layout, all, k)| <= Size(layout.bucket(k)) + Size(layout.overflow(k))
  }

  ghost predicate Ready(layout: Layout, n: nat, fl: Flight, e: Event) {
    match e
    case Prefetch(b) => b.Ok() && Total(fl.waiting) + |b.keys| <= n && RoomFor(layout, fl.Keys(), b.keys)
    case Forward => fl.waiting != []
    case Backward(j, _) => j < |fl.active|
    case Flush => true
  }

  ghost function Next(fl: Flight, e: Event): Flight
    requires e.Forward? ==> fl.waiting != []
    requires e.Backward? ==> e.pos < |fl.active|
  {
    match e
    case Prefetch(b) => fl.(waiting := fl.waiting + [b.keys])
    case Forward => Flight(fl.waiting[1..], fl.active + [fl.waiting[0]])
    case Backward(j, _) => fl.(active := fl.active[..j] + fl.active[j + 1..])
    case Flush => fl
  }

  /** Every step of the schedule is possible, no prefetch exceeds the outstanding limit `n`, and
      each has room for its keys. */
  ghost predicate Completes(layout: Layout, n: nat, fl: Flight, es: seq<Event>)
    decreases |es|
  {
    es == [] || (Ready(layout, n, fl, es[0]) && Completes(layout, n, Next(fl, es[0]), es[1..]))
  }

  lemma {:induction false} SlotsSize(range: (nat, nat))
    requires range.0 <= range.1
    ensures |RangeSlots(range)| == Size(range)
    decreases range.1 - range.0
  {
    if range.0 < range.1 {
      var less := (range.0, (range.1 - 1) as nat);
      SlotsSize(less);
      assert RangeSlots(range) == RangeSlots(less) + {less.1};
    } else {
      assert RangeSlots(range) == {};
    }
  }

  /** Slots that hold different keys of a set are no more than the set has keys. */
  lemma {:induction false} SlotsHoldKeys(slots: set<nat>, now: Slots, held: set<Key>)
    requires Injective(now) && forall s :: s in slots ==> s < |now| && now[s].Some? && now[s].value in held
    ensures |slots| <= |held|
  {
    if slots != {} {
      var s :| s in slots;
      var k := now[s].value;
      forall q | q in slots - {s} ensures now[q].value in held - {k} {
        assert IndexOf(now, now[q]) == q && IndexOf(now, now[s]) == s;
      }
      SlotsHoldKeys(slots - {s}, now, held - {k});
    }
  }

  /** After a prefetch: a slot of an exhausted range holds a key that is in flight. */
  lemma ExhaustedHeld(layout: Layout, range: (nat, nat), keys: Slots, refs: seq<int>, ks: seq<Key>, hits: seq<int>,
                      idx: seq<int>, batch: seq<Key>, flight: set<Key>, j: nat, q: nat)
    requires |refs| == |keys| && j < |idx| == |ks| && GoodPlacement(keys, Bump(refs, hits, 1), ks, idx)
    requires Exhausted(range, keys, Bump(refs, hits, 1), Taken(idx[..j])) && In(range, q) && q < |keys|
    requires hits == HitsOf(keys, batch) && forall k :: k in ks ==> k in batch
    requires forall s :: 0 <= s < |keys| && keys[s].Some? && refs[s] > 0 ==> keys[s].value in flight
    ensures var now := After(keys, ks, idx); now[q].Some? && now[q].value in flight + KeySet(batch)
  {
    hide Injective;
    var now := After(keys, ks, idx);
    if q in idx {
      var i := IndexOf(idx, q);
      assert now[q] == Some(ks[i]) && ks[i] in ks;
    } else {
      assert q !in Taken(idx[..j]);
      assert now[q] == keys[q] && Bump(refs, hits, 1)[q] > 0;
      if refs[q] <= 0 {
        var i := IndexOf(hits, q);
        assert hits[i] == q && keys[q] == Some(batch[i]) && batch[i] in batch;
      }
    }
  }

  /** Two keys with a slot in common share a bucket, or an overflow region. */
  lemma HomeMates(layout: Layout, k: Key, x: Key, q: nat)
    requires Regular(layout) && layout.Home(x, q)
    ensures In(layout.bucket(k), q) ==> layout.bucket(x) == layout.bucket(k) && layout.overflow(x) == layout.overflow(k)
    ensures In(layout.overflow(k), q) ==> layout.overflow(x) == layout.overflow(k)
  {
    assert RegularFor(layout, k, x);
  }

  /** A key without a slot has as many mates in flight, itself not counted, as its ranges have slots. */
  lemma NoRoomLeft(layout: Layout, now: Slots, all: set<Key>, k: Key)
    requires Regular(layout) && layout.Within(|now|) && Injective(now) && Some(k) !in now && k in all
    requires forall s :: 0 <= s < |now| && now[s].Some? ==> layout.Home(now[s].value, s)
    requires forall q :: 0 <= q < |now| && layout.Home(k, q) ==> now[q].Some? && now[q].value in all
    ensures !HasRoom(layout, all, k)
  {
    var bucket, region := layout.bucket(k), layout.overflow(k);
    var b, r := BucketMates(layout, all, k), RegionMates(layout, all, k);
    forall q | q in RangeSlots(bucket)
      ensures q < |now| && now[q].Some? && now[q].value in b - {k} && now[q].value in r - {k}
    {
      assert layout.Home(k, q) && now[q] in now;
      HomeMates(layout, k, now[q].value, q);
    }
    forall q | q in RangeSlots(region) ensures q < |now| && now[q].Some? && now[q].value in r - {k} {
      assert layout.Home(k, q) && now[q] in now;
      HomeMates(layout, k, now[q].value, q);
    }
    hide Injective, Regular;
    SlotsHoldKeys(RangeSlots(bucket), now, b - {k});
    SlotsHoldKeys(RangeSlots(bucket) + RangeSlots(region), now, r - {k});
    SlotsSize(bucket);
    SlotsSize(region);
    assert RangeSlots(bucket) !! RangeSlots(region) by { ApartSlots(layout, k); }
  }

  lemma ApartSlots(layout: Layout, k: Key)
    requires Regular(layout)
    ensures RangeSlots(layout.bucket(k)) !! RangeSlots(layout.overflow(k))
  {
    assert RegularFor(layout, k, k);
  }

  /** A prefetch that has room gives every kept key a slot. */
  lemma {:induction false} RoomServes(cfg: Config, p: Plain, b: Batch, layout: Layout, keys: Slots, refs: seq<int>,
                   slots: seq<int>, now: Slots, counts: seq<int>, flight: set<Key>)
    requires b.Ok() && |refs| == |keys| && layout.Within(|keys|) && layout.Honest(|keys|) && Regular(layout)
    requires Prefetched(cfg, p, b, layout, keys, refs, slots, now, counts)
    requires |now| == |keys| && Injective(now)
    requires forall s :: 0 <= s < |now| && now[s].Some? ==> layout.Home(now[s].value, s)
    requires forall s :: 0 <= s < |keys| && keys[s].Some? && refs[s] > 0 ==> keys[s].value in flight
    requires RoomFor(layout, flight, b.keys)
    ensures Unserved(cfg, p, b, slots) == {}
  {
    var hits, pos := HitsOf(keys, b.keys), InsertedAt(cfg, p, b, keys);
    var ks, idx := Gather(b.keys, pos), Gather(slots, pos);
    SeenHonest(layout, Bump(refs, hits, 1));
    KeptMissesInserted(cfg, p, b, keys);
    hide Injective, Regular, RoomFor;
    UnservedAreRejected(cfg, p, b, keys, hits, pos, idx, slots);
    forall j | 0 <= j < |idx| ensures idx[j] >= 0 {
      RoomServesOne(cfg, p, b, layout, keys, refs, slots, now, counts, flight, j);
    }
    NoneRejected(ks, idx);
  }

  lemma {:induction false} RoomServesOne(cfg: Config, p: Plain, b: Batch, layout: Layout, keys: Slots, refs: seq<int>,
                      slots: seq<int>, now: Slots, counts: seq<int>, flight: set<Key>, j: nat)
    requires b.Ok() && |refs| == |keys| && layout.Within(|keys|) && layout.Honest(|keys|) && Regular(layout)
    requires Prefetched(cfg, p, b, layout, keys, refs, slots, now, counts)
    requires |now| == |keys| && Injective(now)
    requires forall s :: 0 <= s < |now| && now[s].Some? ==> layout.Home(now[s].value, s)
    requires forall s :: 0 <= s < |keys| && keys[s].Some? && refs[s] > 0 ==> keys[s].value in flight
    requires RoomFor(layout, flight, b.keys) && j < |InsertedAt(cfg, p, b, keys)|
    ensures slots[InsertedAt(cfg, p, b, keys)[j]] >= 0
  {
    var hits, pos := HitsOf(keys, b.keys), InsertedAt(cfg, p, b, keys);
    var ks, idx := Gather(b.keys, pos), Gather(slots, pos);
    SeenHonest(layout, Bump(refs, hits, 1));
    KeptMissesInserted(cfg, p, b, keys);
    GatherDistinct(b.keys, pos);
    if idx[j] < 0 {
      var k, all := ks[j], flight + KeySet(b.keys);
      assert k in b.keys && HasRoom(layout, all, k);
      assert BucketFirstAt(layout, keys, Bump(refs, hits, 1), k, Taken(idx[..j]), idx[j]);
      RejectedAbsent(keys, ks, idx, j);
      hide Injective, Regular, RoomFor, HasRoom;
      forall q | 0 <= q < |now| && layout.Home(k, q) ensures now[q].Some? && now[q].value in all {
        var range := if In(layout.bucket(k), q) then layout.bucket(k) else layout.overflow(k);
        ExhaustedHeld(layout, range, keys, refs, ks, hits, idx, b.keys, flight, j, q);
      }
      NoRoomLeft(layout, now, all, k);
    }
  }

  lemma RejectedAbsent(keys: Slots, ks: seq<Key>, idx: seq<int>, j: nat)
    requires |idx| == |ks| && Distinct(ks) && j < |ks| && idx[j] < 0 && Some(ks[j]) !in keys
    ensures Some(ks[j]) !in After(keys, ks, idx)
  {
    forall i | 0 <= i < |ks| && ks[i] == ks[j] ensures i == j { assert IndexOf(ks, ks[i]) == i; }
    NotResidentAfter(keys, ks, idx, ks[j]);
  }
}
