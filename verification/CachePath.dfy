/** Prefetch in cache mode: look the batch up, pin the hits, admit and insert the misses,
    write evicted rows back, pin the inserted slots. */
module CachePath {
  import opened Common
  import opened PlainStore
  import opened HashTable
  import opened Rejection
  import opened BackingStore
  import opened TwoLevel
  import opened Admission

  /** The map cache and storage stand for together. */
  ghost function Combined(cache: Table, storage: Storage): map<Key, Row>
    reads cache, cache.keys, cache.scores, cache.refs, cache.rows, storage
    requires cache.Valid() && storage.Valid()
  {
    Logical(cache.keys[..], cache.rows[..], storage.Map())
  }

  /** Rows the inserted keys get: their storage row, or the initialiser. */
  function InsertValues(cfg: Config, ks: seq<Key>, fromStore: seq<bool>, stored: seq<Row>): (r: seq<Row>)
    requires |fromStore| == |stored| == |ks|
    ensures |r| == |ks|
    ensures forall i :: 0 <= i < |ks| ==> r[i] == if fromStore[i] then stored[i] else cfg.init(ks[i])
  {
    seq(|ks|, i requires 0 <= i < |ks| => if fromStore[i] then stored[i] else cfg.init(ks[i]))
  }

  /** Store the two kinds of inserted rows, each with its own kernel call. */
  method StoreInserted(cfg: Config, cache: Table, ks: seq<Key>, idx: seq<int>, fromStore: seq<bool>, stored: seq<Row>)
    requires cache.Valid() && |idx| == |fromStore| == |stored| == |ks| && NoRepeats(idx)
    requires forall i :: 0 <= i < |idx| ==> idx[i] < cache.rows.Length
    modifies cache.rows
    ensures cache.Valid()
    ensures cache.rows[..] == Overlay(old(cache.rows[..]), idx, InsertValues(cfg, ks, fromStore, stored))
  {
    ghost var vals := InsertValues(cfg, ks, fromStore, stored);
    var olds, news := Positions(fromStore), Positions(Not(fromStore));
    ComplementaryPositions(fromStore);
    GatherNoRepeats(idx, olds);
    GatherNoRepeats(idx, news);
    OverlaySplit(cache.rows[..], idx, vals, olds, news);
    assert Gather(stored, olds) == Gather(vals, olds);
    cache.StoreToFlat(Gather(idx, olds), Gather(stored, olds));
    var inits := seq(|news|, i requires 0 <= i < |news| => cfg.init(ks[news[i]]));
    assert inits == Gather(vals, news);
    cache.StoreToFlat(Gather(idx, news), inits);
  }

  /** Insert missing keys, load the evicted rows before their slots are overwritten, store
      the new rows, write the evicted ones back, pin the new slots. */
  method InsertWithWriteBack(cfg: Config, cache: Table, storage: Storage, ks: seq<Key>, scores: seq<int>,
                             fromStore: seq<bool>, stored: seq<Row>, junk: nat -> Row)
    returns (idx: seq<int>)
    requires cache.Valid() && storage.Valid()
    requires |scores| == |fromStore| == |stored| == |ks| && Distinct(ks)
    requires forall i :: 0 <= i < |ks| ==> Some(ks[i]) !in cache.keys[..]
    modifies cache.keys, cache.scores, cache.rows, cache.refs, storage
    ensures cache.Valid() && storage.Valid()
    ensures GoodPlacement(old(cache.keys[..]), Seen(cache.layout, old(cache.refs[..])), ks, idx)
    ensures Choices(cache.layout, old(cache.keys[..]), old(cache.scores[..]), Seen(cache.layout, old(cache.refs[..])),
                    ks, idx)
    ensures cache.keys[..] == After(old(cache.keys[..]), ks, idx)
    ensures cache.refs[..] == Bump(old(cache.refs[..]), idx, 1)
    ensures cache.scores[..] == Overlay(old(cache.scores[..]), idx, scores)
    ensures WrittenBack(old(cache.keys[..]), old(cache.rows[..]), old(storage.Map()), ks, idx, storage.Map())
    ensures RowsStable(old(storage.View()), storage.View())
    ensures Spoiled(Combined(cache, storage),
      Merge(old(Combined(cache, storage)), ks, InsertValues(cfg, ks, fromStore, stored)), Rejected(ks, idx), junk)
  {
    hide PlacesFresh, DistinctRows, RowsOwned, RowsBelowNext, Contents, Merge, Injective, Distinct, NoRepeats,
      Logical, Choices, Spoiled, Rejected, WrittenBack;
    ghost var keys0, rows0, slow0 := cache.keys[..], cache.rows[..], storage.Map();
    ghost var seen := Seen(cache.layout, cache.refs[..]);
    var evicted: seq<Evicted>;
    idx, evicted := cache.InsertAndEvict(ks, scores);
    forall e | 0 <= e < |evicted| ensures evicted[e].slot < |keys0| { assert Sound(keys0, ks, idx, evicted[e]); }
    var evVals := cache.LoadFromFlat(EvictedSlots(evicted), seq(|evicted|, i requires 0 <= i < |evicted| => junk(i)));
    StoreInserted(cfg, cache, ks, idx, fromStore, stored);
    if evicted != [] { storage.WriteBackEntries(EvictedKeys(evicted), evVals); }
    cache.UpdateCounter(idx, 1);
    ghost var vals := InsertValues(cfg, ks, fromStore, stored);
    assert Setting(keys0, seen, rows0, ks, idx, vals, evicted, evVals);
    assert storage.Map() == Merge(slow0, EvictedKeys(evicted), evVals);
    RejectsSpoil(keys0, seen, rows0, slow0, ks, idx, vals, evicted, evVals, junk);
    ReportWrittenBack(keys0, seen, rows0, slow0, ks, idx, vals, evicted, evVals);
  }

  /** The hits of a batch are in different slots. */
  lemma HitsDistinct(keys: Slots, ks: seq<Key>, slots: seq<int>)
    requires Distinct(ks) && |slots| == |ks|
    requires forall i :: 0 <= i < |ks| ==> slots[i] == SlotOf(keys, ks[i])
    ensures NoRepeats(slots)
  {
    forall i | 0 <= i < |slots| && slots[i] >= 0 ensures IndexOf(slots, slots[i]) == i {
      var j := IndexOf(slots, slots[i]);
      assert keys[slots[j]] == Some(ks[j]) && keys[slots[i]] == Some(ks[i]);
      assert IndexOf(ks, ks[i]) == i && IndexOf(ks, ks[j]) == j;
    }
  }

  /** How the slots of a batch come about: `hits` from the lookup, and at the positions `pos`,
      which the lookup missed, the slots `idx` of the inserted keys. */
  ghost predicate Assembled(keys: Slots, refs: seq<int>, ks: seq<Key>, hits: seq<int>, pos: seq<nat>,
                            idx: seq<int>, slots: seq<int>)
  {
    && |refs| == |keys| && Injective(keys) && Distinct(ks) && |hits| == |slots| == |ks|
    && (forall s :: 0 <= s < |refs| ==> refs[s] >= 0)
    && (forall i :: 0 <= i < |ks| ==> hits[i] == SlotOf(keys, ks[i]))
    && Distinct(pos) && (forall j :: 0 <= j < |pos| ==> pos[j] < |ks| && hits[pos[j]] < 0)
    && GoodPlacement(keys, Bump(refs, hits, 1), Gather(ks, pos), idx)
    && (forall j :: 0 <= j < |pos| ==> slots[pos[j]] == idx[j])
    && (forall i :: 0 <= i < |ks| && i !in pos ==> slots[i] == hits[i])
  }

  /** A slot that is pinned, or was just hit, is not given away. */
  lemma PinnedNotPlaced(keys: Slots, refs: seq<int>, ks: seq<Key>, hits: seq<int>, pos: seq<nat>,
                        idx: seq<int>, slots: seq<int>, s: nat)
    requires Assembled(keys, refs, ks, hits, pos, idx, slots)
    requires s < |keys| && keys[s].Some? && (refs[s] > 0 || s in hits)
    ensures s !in idx
    ensures After(keys, Gather(ks, pos), idx)[s] == keys[s]
  {
    forall j | 0 <= j < |idx| ensures idx[j] != s { }
  }

  lemma AssembledSlot(keys: Slots, refs: seq<int>, ks: seq<Key>, hits: seq<int>, pos: seq<nat>,
                      idx: seq<int>, slots: seq<int>, i: nat)
    requires Assembled(keys, refs, ks, hits, pos, idx, slots) && i < |ks|
    ensures -1 <= slots[i] < |keys|
    ensures slots[i] >= 0 ==> After(keys, Gather(ks, pos), idx)[slots[i]] == Some(ks[i])
    ensures slots[i] >= 0 ==> slots[i] in hits || slots[i] in idx
  {
    if i in pos {
      var j := IndexOf(pos, i);
      if idx[j] >= 0 { assert IndexOf(idx, idx[j]) == j; }
    } else if slots[i] >= 0 {
      PinnedNotPlaced(keys, refs, ks, hits, pos, idx, slots, slots[i]);
    }
  }

  lemma AssembledNoRepeats(keys: Slots, refs: seq<int>, ks: seq<Key>, hits: seq<int>, pos: seq<nat>,
                           idx: seq<int>, slots: seq<int>)
    requires Assembled(keys, refs, ks, hits, pos, idx, slots)
    ensures NoRepeats(slots)
  {
    forall i | 0 <= i < |slots| && slots[i] >= 0 ensures IndexOf(slots, slots[i]) == i {
      var j := IndexOf(slots, slots[i]);
      AssembledSlot(keys, refs, ks, hits, pos, idx, slots, i);
      AssembledSlot(keys, refs, ks, hits, pos, idx, slots, j);
      assert ks[i] == ks[j] && IndexOf(ks, ks[i]) == i && IndexOf(ks, ks[j]) == j;
    }
  }

  /** Pinning the hits and then the inserted slots pins exactly the slots of the batch, once. */
  lemma AssembledPins(keys: Slots, refs: seq<int>, ks: seq<Key>, hits: seq<int>, pos: seq<nat>,
                      idx: seq<int>, slots: seq<int>)
    requires Assembled(keys, refs, ks, hits, pos, idx, slots)
    ensures Bump(Bump(refs, hits, 1), idx, 1) == Bump(refs, slots, 1)
  {
    forall s | 0 <= s < |refs|
      ensures (s in hits && s in idx) == false
      ensures s in slots <==> s in hits || s in idx
    {
      if s in hits {
        var i := IndexOf(hits, s);
        assert keys[s] == Some(ks[i]);
        PinnedNotPlaced(keys, refs, ks, hits, pos, idx, slots, s);
        assert i !in pos && slots[i] == s;
      } else if s in idx {
        var j := IndexOf(idx, s);
        assert slots[pos[j]] == s;
      } else if s in slots {
        AssembledSlot(keys, refs, ks, hits, pos, idx, slots, IndexOf(slots, s));
      }
    }
  }

  /** The plain state a cache and a counter stand for when no batch is in flight. */
  ghost function PlainOf(rows: map<Key, Row>, counts: map<Key, nat>): Plain {
    Plain(rows, counts, [], [], [])
  }

  /** Prefetch only looks at the stored rows and the counts. */
  lemma SamePrefetch(cfg: Config, p: Plain, q: Plain, b: Batch)
    requires b.Ok() && p.rows == q.rows && p.counts == q.counts
    ensures MakeTicket(cfg, p, b) == MakeTicket(cfg, q, b)
    ensures PrefetchRows(cfg, p, b) == PrefetchRows(cfg, q, b)
    ensures PrefetchCounts(cfg, p, b) == PrefetchCounts(cfg, q, b)
  {
    assert Admitted(cfg, p, b) == Admitted(cfg, q, b);
  }

  /** `pos` names exactly the kept keys that the cache lookup missed. */
  ghost predicate InsertsKeptMisses(cfg: Config, p: Plain, b: Batch, hits: seq<int>, pos: seq<nat>)
    requires b.Ok() && |hits| == |b.keys|
  {
    && Distinct(pos)
    && (forall j :: 0 <= j < |pos| ==>
          pos[j] < |hits| && hits[pos[j]] < 0 && Keeps(cfg, p, b, b.keys[pos[j]]))
    && (forall i :: 0 <= i < |hits| && hits[i] < 0 && Keeps(cfg, p, b, b.keys[i]) ==> i in pos)
  }

  /** `skipped` names exactly the missed keys that are not kept. */
  ghost predicate SkipsOthers(cfg: Config, p: Plain, b: Batch, hits: seq<int>, skipped: seq<nat>)
    requires b.Ok() && |hits| == |b.keys|
  {
    && (forall j :: 0 <= j < |skipped| ==> skipped[j] < |hits|)
    && (forall i :: 0 <= i < |hits| ==> (i in skipped <==> hits[i] < 0 && !Keeps(cfg, p, b, b.keys[i])))
  }

  lemma FreqAt(b: Batch, i: nat)
    requires b.Ok() && i < |b.keys|
    ensures FreqIn(b, b.keys[i]) == b.freqs[i]
  {
    assert IndexOf(b.keys, b.keys[i]) == i;
  }

  lemma ComposedKept(cfg: Config, p: Plain, b: Batch, hits: seq<int>, miss: seq<nat>, mask: seq<bool>)
    requires b.Ok() && |hits| == |b.keys| && miss == Positions(Negative(hits)) && |mask| == |miss|
    requires forall j :: 0 <= j < |miss| ==> mask[j] == Keeps(cfg, p, b, b.keys[miss[j]])
    ensures InsertsKeptMisses(cfg, p, b, hits, Gather(miss, Positions(mask)))
  {
    hide Positions, Keeps;
    ComposePositions(Negative(hits), mask);
    var pos := Gather(miss, Positions(mask));
    forall i | 0 <= i < |hits| && hits[i] < 0 ensures i in pos <==> Keeps(cfg, p, b, b.keys[i]) {
      assert miss[IndexOf(miss, i)] == i;
    }
    forall j | 0 <= j < |pos| ensures hits[pos[j]] < 0 && Keeps(cfg, p, b, b.keys[pos[j]]) {
      assert pos[j] in pos;
    }
  }

  lemma ComposedSkipped(cfg: Config, p: Plain, b: Batch, hits: seq<int>, miss: seq<nat>, mask: seq<bool>)
    requires b.Ok() && |hits| == |b.keys| && miss == Positions(Negative(hits)) && |mask| == |miss|
    requires forall j :: 0 <= j < |miss| ==> mask[j] == Keeps(cfg, p, b, b.keys[miss[j]])
    ensures SkipsOthers(cfg, p, b, hits, Gather(miss, Positions(Not(mask))))
  {
    hide Positions, Keeps;
    ComposePositions(Negative(hits), Not(mask));
    forall i | 0 <= i < |hits| && hits[i] < 0
      ensures i in Gather(miss, Positions(Not(mask))) <==> !Keeps(cfg, p, b, b.keys[i])
    {
      assert miss[IndexOf(miss, i)] == i;
    }
  }

  /** Which keys of a batch are inserted: those the cache misses and the plain store keeps. */
  ghost function KeptMisses(cfg: Config, p: Plain, b: Batch, keys: Slots): (mask: seq<bool>)
    requires b.Ok()
    ensures |mask| == |b.keys|
    ensures forall i :: 0 <= i < |mask| ==> mask[i] == (Some(b.keys[i]) !in keys && Keeps(cfg, p, b, b.keys[i]))
  {
    seq(|b.keys|, i requires 0 <= i < |b.keys| => Some(b.keys[i]) !in keys && Keeps(cfg, p, b, b.keys[i]))
  }

  /** Their positions in the batch. */
  ghost function InsertedAt(cfg: Config, p: Plain, b: Batch, keys: Slots): (pos: seq<nat>)
    requires b.Ok()
    ensures forall j :: 0 <= j < |pos| ==> pos[j] < |b.keys|
  {
    Positions(KeptMisses(cfg, p, b, keys))
  }

  /** The slots a lookup returns. */
  ghost function HitsOf(keys: Slots, ks: seq<Key>): (hits: seq<int>)
    ensures |hits| == |ks| && forall i :: 0 <= i < |ks| ==> hits[i] == SlotOf(keys, ks[i])
  {
    seq(|ks|, i requires 0 <= i < |ks| => SlotOf(keys, ks[i]))
  }

  /** Composing the two compactions (cache misses, then kept ones) selects the kept misses. */
  lemma ComposedPositions(cfg: Config, p: Plain, b: Batch, keys: Slots, hits: seq<int>, miss: seq<nat>,
                          founds: seq<bool>, mask: seq<bool>)
    requires b.Ok() && hits == HitsOf(keys, b.keys) && miss == Positions(Negative(hits))
    requires |founds| == |mask| == |miss|
    requires forall j :: 0 <= j < |miss| ==> founds[j] == (b.keys[miss[j]] in p.rows)
    requires forall j :: 0 <= j < |miss| ==>
      mask[j] == (founds[j] || Admitting(cfg, p.counts, b.keys[miss[j]], b.freqs[miss[j]]))
    ensures Gather(miss, Positions(mask)) == InsertedAt(cfg, p, b, keys)
    ensures InsertsKeptMisses(cfg, p, b, hits, Gather(miss, Positions(mask)))
    ensures SkipsOthers(cfg, p, b, hits, Gather(miss, Positions(Not(mask))))
  {
    hide Positions, InsertsKeptMisses, SkipsOthers;
    forall j | 0 <= j < |miss| ensures mask[j] == Keeps(cfg, p, b, b.keys[miss[j]]) {
      FreqAt(b, miss[j]);
    }
    ComposedKept(cfg, p, b, hits, miss, mask);
    ComposedSkipped(cfg, p, b, hits, miss, mask);
    hide Keeps, Admitting;
    var both := KeptMisses(cfg, p, b, keys);
    ComposeIsPositions(Negative(hits), both);
    assert Gather(both, miss) == mask;
  }

  /** Inserting the kept misses with their storage row or initial value is the plain prefetch. */
  lemma {:induction false} RowsMatch(cfg: Config, p: Plain, b: Batch, keys: Slots, slow: map<Key, Row>,
                  hits: seq<int>, pos: seq<nat>, vals: seq<Row>)
    requires b.Ok() && |hits| == |b.keys| && |vals| == |pos|
    requires forall i :: 0 <= i < |hits| ==> hits[i] == SlotOf(keys, b.keys[i])
    requires InsertsKeptMisses(cfg, p, b, hits, pos)
    requires forall k :: k in p.rows <==> Some(k) in keys || k in slow
    requires forall k :: k in slow && Some(k) !in keys ==> p.rows[k] == slow[k]
    requires forall j :: 0 <= j < |pos| ==> var k := b.keys[pos[j]];
      vals[j] == if k in slow then slow[k] else cfg.init(k)
    ensures Merge(p.rows, Gather(b.keys, pos), vals) == PrefetchRows(cfg, p, b)
  {
    var ks, r := Gather(b.keys, pos), PrefetchRows(cfg, p, b);
    GatherDistinct(b.keys, pos);
    forall k ensures k in r <==> k in p.rows || k in ks {
      if k in Admitted(cfg, p, b) {
        var i := IndexOf(b.keys, k);
        assert hits[i] < 0 && Keeps(cfg, p, b, b.keys[i]);
        assert ks[IndexOf(pos, i)] == k;
      } else if k in ks {
        var j := IndexOf(ks, k);
        assert Keeps(cfg, p, b, b.keys[pos[j]]);
      }
    }
    forall j | 0 <= j < |ks| ensures r[ks[j]] == vals[j] {
      assert Some(ks[j]) !in keys;
      if ks[j] !in p.rows { assert ks[j] in Admitted(cfg, p, b); }
    }
    MergeIs(p.rows, ks, vals, r);
  }

  /** The counter ends as in the plain prefetch. */
  lemma CountsMatch(cfg: Config, p: Plain, b: Batch, news: seq<Key>, freqs: seq<nat>, after: map<Key, nat>)
    requires b.Ok() && |freqs| == |news|
    requires forall k :: k in news <==> k in b.keys && k !in p.rows
    requires forall j :: 0 <= j < |news| ==> freqs[j] == FreqIn(b, news[j])
    requires CountsAfter(cfg, p.counts, after, news, freqs)
    ensures after == PrefetchCounts(cfg, p, b)
  {
    if cfg.threshold.Some? {
      var r := PrefetchCounts(cfg, p, b);
      forall k ensures (k in after <==> k in r) && (k in r ==> after[k] == r[k]) {
        if k in news {
          var j := IndexOf(news, k);
          assert Admitting(cfg, p.counts, news[j], freqs[j]) <==> k in Admitted(cfg, p, b);
        }
      }
    }
  }

  /** The new keys, found by composing the two compactions, are the batch keys stored nowhere. */
  lemma NewKeys(p: Plain, b: Batch, hits: seq<int>, miss: seq<nat>, founds: seq<bool>)
    requires b.Ok() && |hits| == |b.keys| && miss == Positions(Negative(hits)) && |founds| == |miss|
    requires forall i :: 0 <= i < |hits| && hits[i] >= 0 ==> b.keys[i] in p.rows
    requires forall j :: 0 <= j < |miss| ==> founds[j] == (b.keys[miss[j]] in p.rows)
    ensures var n := Positions(Not(founds));
      var news := Gather(Gather(b.keys, miss), n);
      && (forall k :: k in news <==> k in b.keys && k !in p.rows)
      && (forall j :: 0 <= j < |news| ==> Gather(Gather(b.freqs, miss), n)[j] == FreqIn(b, news[j]))
  {
    var n := Positions(Not(founds));
    var news := Gather(Gather(b.keys, miss), n);
    forall k | k in b.keys && k !in p.rows ensures k in news {
      var i := IndexOf(b.keys, k);
      var j := IndexOf(miss, i);
      assert miss[j] == i && !founds[j];
      assert news[IndexOf(n, j)] == k;
    }
    forall k | k in news ensures k in b.keys && k !in p.rows {
      var j := IndexOf(news, k);
      assert k == b.keys[miss[n[j]]] && !founds[n[j]];
    }
    forall j | 0 <= j < |news| ensures Gather(Gather(b.freqs, miss), n)[j] == FreqIn(b, news[j]) {
      FreqAt(b, miss[n[j]]);
    }
  }

  /** Every key the plain store keeps got a slot, that is, no insert was rejected. */
  ghost predicate Served(cfg: Config, p: Plain, b: Batch, slots: seq<int>)
    requires b.Ok() && |slots| == |b.keys|
  {
    forall i :: 0 <= i < |b.keys| && Keeps(cfg, p, b, b.keys[i]) ==> slots[i] >= 0
  }

  /** Occupied slots that were pinned still hold the same key. */
  ghost predicate KeepsPinned(keys: Slots, refs: seq<int>, now: Slots) {
    |refs| == |keys| == |now|
    && forall s :: 0 <= s < |keys| && keys[s].Some? && refs[s] > 0 ==> now[s] == keys[s]
  }

  /** The slots of a prefetched batch name its keys, and name none that is not kept. */
  ghost predicate SlotsNameKeys(cfg: Config, p: Plain, b: Batch, keys: Slots, slots: seq<int>)
    requires b.Ok()
  {
    && |slots| == |b.keys| && NoRepeats(slots)
    && (forall i :: 0 <= i < |slots| ==> -1 <= slots[i] < |keys|)
    && (forall i :: 0 <= i < |slots| && slots[i] >= 0 ==>
          keys[slots[i]] == Some(b.keys[i]) && Keeps(cfg, p, b, b.keys[i]))
  }

  lemma AssembledNames(cfg: Config, p: Plain, b: Batch, keys: Slots, refs: seq<int>, hits: seq<int>,
                       pos: seq<nat>, idx: seq<int>, slots: seq<int>)
    requires b.Ok() && Assembled(keys, refs, b.keys, hits, pos, idx, slots)
    requires InsertsKeptMisses(cfg, p, b, hits, pos)
    requires forall k :: Some(k) in keys ==> k in p.rows
    ensures SlotsNameKeys(cfg, p, b, After(keys, Gather(b.keys, pos), idx), slots)
    ensures Served(cfg, p, b, slots) ==> forall j :: 0 <= j < |idx| ==> idx[j] >= 0
    ensures KeepsPinned(keys, refs, After(keys, Gather(b.keys, pos), idx))
  {
    AssembledNoRepeats(keys, refs, b.keys, hits, pos, idx, slots);
    forall i | 0 <= i < |slots|
      ensures -1 <= slots[i] < |keys|
      ensures slots[i] >= 0 ==> After(keys, Gather(b.keys, pos), idx)[slots[i]] == Some(b.keys[i])
      ensures slots[i] >= 0 ==> Keeps(cfg, p, b, b.keys[i])
    {
      AssembledSlot(keys, refs, b.keys, hits, pos, idx, slots, i);
      if i in pos { assert pos[IndexOf(pos, i)] == i; }
    }
    if Served(cfg, p, b, slots) {
      forall j | 0 <= j < |idx| ensures idx[j] >= 0 {
        assert slots[pos[j]] == idx[j] && Keeps(cfg, p, b, b.keys[pos[j]]);
      }
    }
    forall s | 0 <= s < |keys| && keys[s].Some? && refs[s] > 0
      ensures After(keys, Gather(b.keys, pos), idx)[s] == keys[s]
    {
      PinnedNotPlaced(keys, refs, b.keys, hits, pos, idx, slots, s);
    }
  }

  /** Look the misses up in storage and admit: the batch positions to insert, in order, with
      whether storage has the key and the row to insert. */
  method DecideInserts(cfg: Config, ghost keys: Slots, ghost rows: seq<Row>, storage: Storage, counter: Counter,
                       b: Batch, hits: seq<int>, junk: nat -> Row)
    returns (pos: seq<nat>, skipped: seq<nat>, fromStore: seq<bool>, stored: seq<Row>)
    requires storage.Valid() && b.Ok() && hits == HitsOf(keys, b.keys) && |rows| == |keys|
    modifies counter
    ensures var p := PlainOf(Logical(keys, rows, storage.Map()), old(counter.counts));
      && counter.counts == PrefetchCounts(cfg, p, b)
      && pos == InsertedAt(cfg, p, b, keys)
      && InsertsKeptMisses(cfg, p, b, hits, pos) && SkipsOthers(cfg, p, b, hits, skipped)
      && |fromStore| == |stored| == |pos|
      && Merge(p.rows, Gather(b.keys, pos), InsertValues(cfg, Gather(b.keys, pos), fromStore, stored))
         == PrefetchRows(cfg, p, b)
  {
    hide PlacesFresh, DistinctRows, RowsOwned, RowsBelowNext, Contents, Merge, Positions,
      PrefetchCounts, PrefetchRows, CountsAfter, InsertsKeptMisses, SkipsOthers, FreqIn, KeptMisses;
    ghost var p := PlainOf(Logical(keys, rows, storage.Map()), counter.counts);
    ghost var slow := storage.Map();
    var miss := Positions(Negative(hits));
    var ks := Gather(b.keys, miss);
    GatherDistinct(b.keys, miss);
    var founds, vals := storage.Find(ks, junk);
    var mask := AdmitMissing(cfg, counter, ks, Gather(b.freqs, miss), founds);
    assert forall j :: 0 <= j < |miss| ==> Some(ks[j]) !in keys;
    NewKeys(p, b, hits, miss, founds);
    CountsMatch(cfg, p, b, Gather(ks, Positions(Not(founds))),
                Gather(Gather(b.freqs, miss), Positions(Not(founds))), counter.counts);
    ComposedPositions(cfg, p, b, keys, hits, miss, founds, mask);
    var ins := Positions(mask);
    pos, fromStore, stored := Gather(miss, ins), Gather(founds, ins), Gather(vals, ins);
    skipped := Gather(miss, Positions(Not(mask)));
    RowsMatch(cfg, p, b, keys, slow, hits, pos,
              InsertValues(cfg, Gather(b.keys, pos), fromStore, stored));
  }

  /** Look the batch up and pin the slots that were hit. */
  method PinHits(cache: Table, ks: seq<Key>, scoring: Scoring) returns (hits: seq<int>)
    requires cache.Valid() && Distinct(ks)
    modifies cache.scores, cache.refs
    ensures cache.Valid() && hits == HitsOf(cache.keys[..], ks)
    ensures cache.refs[..] == Bump(old(cache.refs[..]), hits, 1)
    ensures cache.scores[..] == HitScores(old(cache.scores[..]), hits, scoring.policy, Given(scoring.given, ks))
  {
    hide Scored, HitScores;
    hits := cache.Lookup(ks, scoring.policy, Given(scoring.given, ks));
    HitsDistinct(cache.keys[..], ks, hits);
    ScoredIs(old(cache.scores[..]), hits, scoring.policy, Given(scoring.given, ks));
    cache.UpdateCounter(hits, 1);
  }

  /** Insert the kept misses: `pos` are their batch positions, `idx` the slots they got. */
  method InsertMisses(cfg: Config, cache: Table, storage: Storage, counter: Counter, b: Batch, hits: seq<int>,
                      scoring: Scoring, junk: nat -> Row)
    returns (pos: seq<nat>, skipped: seq<nat>, idx: seq<int>)
    requires cache.Valid() && storage.Valid() && b.Ok() && hits == HitsOf(cache.keys[..], b.keys)
    modifies cache.keys, cache.scores, cache.rows, cache.refs, storage, counter
    ensures cache.Valid() && storage.Valid() && RowsStable(old(storage.View()), storage.View())
    ensures var p := PlainOf(old(Combined(cache, storage)), old(counter.counts));
      var seen := Seen(cache.layout, old(cache.refs[..]));
      && counter.counts == PrefetchCounts(cfg, p, b)
      && pos == InsertedAt(cfg, p, b, old(cache.keys[..]))
      && InsertsKeptMisses(cfg, p, b, hits, pos) && SkipsOthers(cfg, p, b, hits, skipped)
      && GoodPlacement(old(cache.keys[..]), seen, Gather(b.keys, pos), idx)
      && Choices(cache.layout, old(cache.keys[..]), old(cache.scores[..]), seen, Gather(b.keys, pos), idx)
      && cache.keys[..] == After(old(cache.keys[..]), Gather(b.keys, pos), idx)
      && cache.refs[..] == Bump(old(cache.refs[..]), idx, 1)
      && cache.scores[..] == Overlay(old(cache.scores[..]), idx, Given(scoring.entry, Gather(b.keys, pos)))
      && WrittenBack(old(cache.keys[..]), old(cache.rows[..]), old(storage.Map()), Gather(b.keys, pos), idx,
                     storage.Map())
      && Spoiled(Combined(cache, storage), PrefetchRows(cfg, p, b), Rejected(Gather(b.keys, pos), idx), junk)
  {
    hide Merge, PrefetchRows, PrefetchCounts, Logical, Contents, PlacesFresh, DistinctRows, RowsOwned,
      RowsBelowNext, InsertValues, GoodPlacement, Overlay, Bump, Keeps, Choices, Spoiled, Rejected, WrittenBack;
    var fromStore, stored;
    pos, skipped, fromStore, stored :=
      DecideInserts(cfg, cache.keys[..], cache.rows[..], storage, counter, b, hits, junk);
    var ks := Gather(b.keys, pos);
    GatherDistinct(b.keys, pos);
    idx := InsertWithWriteBack(cfg, cache, storage, ks, Given(scoring.entry, ks), fromStore, stored, junk);
  }

  /** The slots, keys and counters after a prefetch: hits keep the slot the lookup found, and the
      kept misses have the slots the insertion gave them. */
  ghost predicate Prefetched(cfg: Config, p: Plain, b: Batch, layout: Layout, keys: Slots, refs: seq<int>,
                             slots: seq<int>, now: Slots, counts: seq<int>)
    requires b.Ok() && |refs| == |keys| && layout.Within(|keys|)
  {
    && |slots| == |b.keys|
    && var hits, pos := HitsOf(keys, b.keys), InsertedAt(cfg, p, b, keys);
    var ks, idx, seen := Gather(b.keys, pos), Gather(slots, pos), Seen(layout, Bump(refs, hits, 1));
    && (forall i :: 0 <= i < |slots| && i !in pos ==> slots[i] == hits[i])
    && GoodPlacement(keys, seen, ks, idx) && BucketFirst(layout, keys, seen, ks, idx)
    && now == After(keys, ks, idx)
    && counts == Bump(Bump(refs, hits, 1), idx, 1)
  }

  /** What a caller can count before a prefetch: after its hits are pinned, the overflow regions
      have room for the kept misses that the buckets have no room for. */
  ghost predicate FitsBatch(cfg: Config, p: Plain, b: Batch, layout: Layout, keys: Slots, refs: seq<int>)
    requires b.Ok() && |refs| == |keys| && layout.Within(|keys|)
  {
    Fits(layout, keys, Seen(layout, Bump(refs, HitsOf(keys, b.keys), 1)), Gather(b.keys, InsertedAt(cfg, p, b, keys)))
  }

  /** The kept keys of the batch that got no slot. */
  ghost function Unserved(cfg: Config, p: Plain, b: Batch, slots: seq<int>): set<Key>
    requires b.Ok() && |slots| == |b.keys|
  {
    set i | 0 <= i < |slots| && slots[i] < 0 && Keeps(cfg, p, b, b.keys[i]) :: b.keys[i]
  }

  /** Keys, scores and rows of the cache slots, and the storage map. */
  datatype Levels = Levels(keys: Slots, scores: seq<int>, rows: seq<Row>, slow: map<Key, Row>) {
    ghost predicate Ok() { |keys| == |scores| == |rows| }
  }

  ghost function LevelsOf(cache: Table, storage: Storage): (l: Levels)
    reads cache, cache.keys, cache.scores, cache.refs, cache.rows, storage
    requires cache.Valid() && storage.Valid()
    ensures l.Ok()
  {
    Levels(cache.keys[..], cache.scores[..], cache.rows[..], storage.Map())
  }

  /** The score of a batch key in its slot after a prefetch: that with which it entered, or the one
      it had, kept, replaced or added to. */
  ghost function ScoreOf(was: Levels, scoring: Scoring, k: Key, s: nat): int
    requires was.Ok() && s < |was.keys|
  {
    if Some(k) !in was.keys then scoring.entry(k)
    else match scoring.policy
      case Const => was.scores[s]
      case Assign => scoring.given(k)
      case Accumulate => was.scores[s] + scoring.given(k)
  }

  /** The keys of a batch that are in their slots have their scores, and no other slot has changed. */
  ghost predicate ScoresSet(was: Levels, now: Levels, ks: seq<Key>, scoring: Scoring, slots: seq<int>) {
    && was.Ok() && now.Ok() && |now.keys| == |was.keys| && |slots| == |ks|
    && (forall s :: 0 <= s < |was.keys| && s !in slots ==> now.scores[s] == was.scores[s])
    && (forall i :: 0 <= i < |ks| && 0 <= slots[i] < |was.keys| && now.keys[slots[i]] == Some(ks[i]) ==>
          now.scores[slots[i]] == ScoreOf(was, scoring, ks[i], slots[i]))
  }

  /** What a prefetch does to the two levels: the kept misses go to the slots that the scores, with
      the hits counted in, give them; exactly the displaced and the rejected keys are written back;
      and the scores are set. */
  ghost predicate Moved(cfg: Config, p: Plain, b: Batch, layout: Layout, refs: seq<int>, scoring: Scoring,
                        was: Levels, now: Levels, slots: seq<int>)
    requires b.Ok() && was.Ok() && |refs| == |was.keys| && layout.Within(|refs|) && |slots| == |b.keys|
  {
    var hits, pos := HitsOf(was.keys, b.keys), InsertedAt(cfg, p, b, was.keys);
    var ks, idx := Gather(b.keys, pos), Gather(slots, pos);
    var marks := HitScores(was.scores, hits, scoring.policy, Given(scoring.given, b.keys));
    && Choices(layout, was.keys, marks, Seen(layout, Bump(refs, hits, 1)), ks, idx)
    && WrittenBack(was.keys, was.rows, was.slow, ks, idx, now.slow)
    && ScoresSet(was, now, b.keys, scoring, slots)
  }

  /** Prefetch of one batch in cache mode. */
  method PrefetchCachePath(cfg: Config, cache: Table, storage: Storage, counter: Counter, b: Batch,
                           scoring: Scoring, junk: nat -> Row)
    returns (slots: seq<int>, skipped: seq<nat>)
    requires cache.Valid() && storage.Valid() && b.Ok()
    modifies cache.keys, cache.scores, cache.rows, cache.refs, storage, counter
    ensures cache.Valid() && storage.Valid() && RowsStable(old(storage.View()), storage.View())
    ensures var p := PlainOf(old(Combined(cache, storage)), old(counter.counts));
      && Prefetched(cfg, p, b, cache.layout, old(cache.keys[..]), old(cache.refs[..]), slots, cache.keys[..],
                    cache.refs[..])
      && (forall i :: 0 <= i < |slots| ==> (i in skipped <==> !Keeps(cfg, p, b, b.keys[i])))
      && (forall j :: 0 <= j < |skipped| ==> skipped[j] < |slots|)
      && |slots| == |b.keys| && Moved(cfg, p, b, cache.layout, old(cache.refs[..]), scoring,
                                      old(LevelsOf(cache, storage)), LevelsOf(cache, storage), slots)
      && counter.counts == PrefetchCounts(cfg, p, b)
      && Spoiled(Combined(cache, storage), PrefetchRows(cfg, p, b), Unserved(cfg, p, b, slots), junk)
      && (Regular(cache.layout) ==>
            (Unserved(cfg, p, b, slots) == {}
             <==> FitsBatch(cfg, p, b, cache.layout, old(cache.keys[..]), old(cache.refs[..]))))
  {
    hide Merge, PrefetchRows, PrefetchCounts, Logical, Contents, PlacesFresh, DistinctRows, RowsOwned,
      RowsBelowNext, Overlay, Keeps, Choices, Spoiled, Rejected, Unserved, Prefetched, FitsBatch, Regular, Injective,
      InsertsKeptMisses, GoodPlacement, Bump, InsertedAt, Moved, WrittenBack, HitScores;
    ghost var p := PlainOf(Combined(cache, storage), counter.counts);
    ghost var keys0, refs0 := cache.keys[..], cache.refs[..];
    ghost var was := LevelsOf(cache, storage);
    var hits := PinHits(cache, b.keys, scoring);
    ghost var scores0 := cache.scores[..];
    var pos, idx;
    pos, skipped, idx := InsertMisses(cfg, cache, storage, counter, b, hits, scoring, junk);
    KeptMissesDistinct(cfg, p, b, hits, pos);
    PlacementLength(keys0, Seen(cache.layout, Bump(refs0, hits, 1)), Gather(b.keys, pos), idx);
    slots := Scatter(hits, pos, idx);
    PrefetchedBy(cfg, p, b, cache.layout, keys0, scores0, refs0, hits, pos, idx, slots);
    HitsKept(cfg, p, b, keys0, hits);
    MovedBy(cfg, p, b, cache.layout, refs0, scoring, was, LevelsOf(cache, storage), hits, pos, idx, slots);
  }

  lemma MovedBy(cfg: Config, p: Plain, b: Batch, layout: Layout, refs: seq<int>, scoring: Scoring, was: Levels,
                now: Levels, hits: seq<int>, pos: seq<nat>, idx: seq<int>, slots: seq<int>)
    requires b.Ok() && was.Ok() && now.Ok() && |refs| == |was.keys| && layout.Within(|refs|)
    requires hits == HitsOf(was.keys, b.keys) && pos == InsertedAt(cfg, p, b, was.keys) && |slots| == |hits|
    requires InsertsKeptMisses(cfg, p, b, hits, pos) && |idx| == |pos|
    requires forall j :: 0 <= j < |pos| ==> slots[pos[j]] == idx[j]
    requires forall i :: 0 <= i < |slots| && i !in pos ==> slots[i] == hits[i]
    requires var ks, seen := Gather(b.keys, pos), Seen(layout, Bump(refs, hits, 1));
      var marks := HitScores(was.scores, hits, scoring.policy, Given(scoring.given, b.keys));
      && GoodPlacement(was.keys, seen, ks, idx) && Choices(layout, was.keys, marks, seen, ks, idx)
      && WrittenBack(was.keys, was.rows, was.slow, ks, idx, now.slow)
      && now.keys == After(was.keys, ks, idx) && now.scores == Overlay(marks, idx, Given(scoring.entry, ks))
    ensures Moved(cfg, p, b, layout, refs, scoring, was, now, slots)
  {
    assert Gather(slots, pos) == idx;
    hide Choices, WrittenBack, InsertedAt, Seen, Bump, Keeps, HitScores, Overlay;
    forall s | 0 <= s < |was.keys| && s !in slots ensures now.scores[s] == was.scores[s] {
      OtherScore(was, now, b.keys, scoring, hits, pos, idx, slots, s);
    }
    forall i | 0 <= i < |slots| && 0 <= slots[i] < |was.keys| && now.keys[slots[i]] == Some(b.keys[i])
      ensures now.scores[slots[i]] == ScoreOf(was, scoring, b.keys[i], slots[i])
    {
      BatchScore(was, now, b.keys, scoring, hits, pos, idx, slots, i);
    }
  }

  /** How hits and inserted keys come to their scores. */
  ghost predicate Scores(was: Levels, now: Levels, ks: seq<Key>, scoring: Scoring, hits: seq<int>, pos: seq<nat>,
                         idx: seq<int>, slots: seq<int>)
  {
    && was.Ok() && now.Ok() && |slots| == |ks| && |idx| == |pos| && hits == HitsOf(was.keys, ks)
    && Distinct(ks) && Distinct(pos) && NoRepeats(idx)
    && (forall j :: 0 <= j < |pos| ==> pos[j] < |ks| && hits[pos[j]] < 0 && slots[pos[j]] == idx[j])
    && (forall i :: 0 <= i < |slots| && i !in pos ==> slots[i] == hits[i])
    && now.keys == After(was.keys, Gather(ks, pos), idx)
    && now.scores == Overlay(HitScores(was.scores, hits, scoring.policy, Given(scoring.given, ks)), idx,
                             Given(scoring.entry, Gather(ks, pos)))
  }

  lemma OtherScore(was: Levels, now: Levels, ks: seq<Key>, scoring: Scoring, hits: seq<int>, pos: seq<nat>,
                   idx: seq<int>, slots: seq<int>, s: nat)
    requires Scores(was, now, ks, scoring, hits, pos, idx, slots) && s < |was.keys| && s !in slots
    ensures now.scores[s] == was.scores[s]
  {
    forall i | 0 <= i < |hits| ensures hits[i] != s { assert slots[i] in slots; }
    forall j | 0 <= j < |idx| ensures idx[j] != s { assert slots[pos[j]] in slots; }
  }

  lemma BatchScore(was: Levels, now: Levels, ks: seq<Key>, scoring: Scoring, hits: seq<int>, pos: seq<nat>,
                   idx: seq<int>, slots: seq<int>, i: nat)
    requires Scores(was, now, ks, scoring, hits, pos, idx, slots) && i < |ks|
    requires 0 <= slots[i] < |was.keys| && now.keys[slots[i]] == Some(ks[i])
    ensures now.scores[slots[i]] == ScoreOf(was, scoring, ks[i], slots[i])
  {
    var s := slots[i];
    if i in pos {
      var j := IndexOf(pos, i);
      assert idx[j] == s && IndexOf(idx, idx[j]) == j;
    } else {
      forall j | 0 <= j < |idx| ensures idx[j] != s {
        assert IndexOf(ks, ks[i]) == i && IndexOf(ks, ks[pos[j]]) == pos[j];
        assert idx[j] >= 0 ==> IndexOf(idx, idx[j]) == j;
      }
      HitsDistinct(was.keys, ks, hits);
      assert IndexOf(hits, hits[i]) == i;
    }
  }

  lemma KeptMissesDistinct(cfg: Config, p: Plain, b: Batch, hits: seq<int>, pos: seq<nat>)
    requires b.Ok() && |hits| == |b.keys| && InsertsKeptMisses(cfg, p, b, hits, pos)
    ensures Distinct(pos) && forall j :: 0 <= j < |pos| ==> pos[j] < |hits|
  {
  }

  lemma PlacementLength(keys: Slots, seen: seq<int>, ks: seq<Key>, idx: seq<int>)
    requires |seen| == |keys| && GoodPlacement(keys, seen, ks, idx)
    ensures |idx| == |ks|
  {
  }

  /** Putting the slots of hits and inserted keys together, and who is left without one. */
  lemma PrefetchedBy(cfg: Config, p: Plain, b: Batch, layout: Layout, keys: Slots, scores: seq<int>, refs: seq<int>,
                     hits: seq<int>, pos: seq<nat>, idx: seq<int>, slots: seq<int>)
    requires b.Ok() && |refs| == |scores| == |keys| && layout.Within(|keys|)
    requires hits == HitsOf(keys, b.keys) && pos == InsertedAt(cfg, p, b, keys) && |slots| == |hits|
    requires InsertsKeptMisses(cfg, p, b, hits, pos) && forall k :: Some(k) in keys ==> k in p.rows
    requires var seen := Seen(layout, Bump(refs, hits, 1));
      && GoodPlacement(keys, seen, Gather(b.keys, pos), idx)
      && Choices(layout, keys, scores, seen, Gather(b.keys, pos), idx)
    requires forall j :: 0 <= j < |pos| ==> slots[pos[j]] == idx[j]
    requires forall i :: 0 <= i < |slots| && i !in pos ==> slots[i] == hits[i]
    ensures Prefetched(cfg, p, b, layout, keys, refs, slots, After(keys, Gather(b.keys, pos), idx),
                       Bump(Bump(refs, hits, 1), idx, 1))
    ensures Unserved(cfg, p, b, slots) == Rejected(Gather(b.keys, pos), idx)
    ensures Regular(layout) ==> (Unserved(cfg, p, b, slots) == {} <==> FitsBatch(cfg, p, b, layout, keys, refs))
  {
    var ks, seen := Gather(b.keys, pos), Seen(layout, Bump(refs, hits, 1));
    assert Gather(slots, pos) == idx;
    ChoicesBucketFirst(layout, keys, scores, seen, ks, idx);
    hide Choices, BucketFirst, Exhausted, InsertedAt, Bump, Seen;
    UnservedAreRejected(cfg, p, b, keys, hits, pos, idx, slots);
    if Regular(layout) {
      assert PlacedBatch(layout, keys, seen, ks, idx);
      hide PlacedBatch, Regular, GoodPlacement;
      NoneRejectedIff(layout, keys, seen, ks, idx);
      assert Rejected(ks, idx) == {} <==> forall j :: 0 <= j < |idx| ==> idx[j] >= 0 by {
        NoneRejected(ks, idx);
      }
    }
  }

  lemma NoneRejected(ks: seq<Key>, idx: seq<int>)
    requires |idx| == |ks|
    ensures Rejected(ks, idx) == {} <==> forall j :: 0 <= j < |idx| ==> idx[j] >= 0
  {
    if j :| 0 <= j < |idx| && idx[j] < 0 { assert ks[j] in Rejected(ks, idx); }
  }

  lemma UnservedAreRejected(cfg: Config, p: Plain, b: Batch, keys: Slots, hits: seq<int>, pos: seq<nat>, idx: seq<int>,
                            slots: seq<int>)
    requires b.Ok() && |hits| == |slots| == |b.keys| && hits == HitsOf(keys, b.keys) && |idx| == |pos|
    requires InsertsKeptMisses(cfg, p, b, hits, pos)
    requires forall j :: 0 <= j < |pos| ==> slots[pos[j]] == idx[j]
    requires forall i :: 0 <= i < |slots| && i !in pos ==> slots[i] == hits[i]
    ensures Unserved(cfg, p, b, slots) == Rejected(Gather(b.keys, pos), idx)
  {
    var ks := Gather(b.keys, pos);
    hide Keeps;
    forall k | k in Unserved(cfg, p, b, slots) ensures k in Rejected(ks, idx) {
      var i :| 0 <= i < |slots| && slots[i] < 0 && Keeps(cfg, p, b, b.keys[i]) && b.keys[i] == k;
      var j := IndexOf(pos, i);
      assert i in pos && pos[j] == i && ks[j] == k;
    }
    forall k | k in Rejected(ks, idx) ensures k in Unserved(cfg, p, b, slots) {
      var j :| 0 <= j < |ks| && idx[j] < 0 && ks[j] == k;
      assert slots[pos[j]] < 0 && Keeps(cfg, p, b, b.keys[pos[j]]);
    }
  }

  /** Where eviction looks at the counters that pinning writes, a prefetch pins exactly the slots
      of its batch, these name the kept keys, and pinned slots keep their key. */
  lemma PrefetchedHonest(cfg: Config, p: Plain, b: Batch, layout: Layout, keys: Slots, refs: seq<int>, slots: seq<int>,
                         now: Slots, counts: seq<int>)
    requires b.Ok() && |refs| == |keys| && layout.Within(|keys|) && layout.Honest(|keys|)
    requires Prefetched(cfg, p, b, layout, keys, refs, slots, now, counts)
    requires Injective(keys) && (forall s :: 0 <= s < |refs| ==> refs[s] >= 0)
    requires forall k :: Some(k) in keys ==> k in p.rows
    ensures counts == Bump(refs, slots, 1) && KeepsPinned(keys, refs, now)
    ensures SlotsNameKeys(cfg, p, b, now, slots)
  {
    var hits, pos := HitsOf(keys, b.keys), InsertedAt(cfg, p, b, keys);
    var idx := Gather(slots, pos);
    SeenHonest(layout, Bump(refs, hits, 1));
    KeptMissesInserted(cfg, p, b, keys);
    assert Assembled(keys, refs, b.keys, hits, pos, idx, slots);
    hide Assembled, SlotsNameKeys, KeepsPinned, InsertsKeptMisses, Injective;
    AssembledNames(cfg, p, b, keys, refs, hits, pos, idx, slots);
    AssembledPins(keys, refs, b.keys, hits, pos, idx, slots);
  }

  lemma KeptMissesInserted(cfg: Config, p: Plain, b: Batch, keys: Slots)
    requires b.Ok()
    ensures InsertsKeptMisses(cfg, p, b, HitsOf(keys, b.keys), InsertedAt(cfg, p, b, keys))
  {
    hide Positions, Keeps;
    var mask := KeptMisses(cfg, p, b, keys);
    forall i | 0 <= i < |mask| ensures i in Positions(mask) <==> mask[i] { PositionsMember(mask, i); }
  }

  lemma HitsKept(cfg: Config, p: Plain, b: Batch, keys: Slots, hits: seq<int>)
    requires b.Ok() && |hits| == |b.keys|
    requires forall i :: 0 <= i < |hits| ==> hits[i] == SlotOf(keys, b.keys[i])
    requires forall k :: Some(k) in keys ==> k in p.rows
    ensures forall i :: 0 <= i < |hits| && hits[i] >= 0 ==> Keeps(cfg, p, b, b.keys[i])
  {
  }

  /** With a rejected insert some content of the uninitialised output row shows in the map. */
  lemma {:induction false} RejectionSpoils(keys: Slots, refs: seq<int>, rows: seq<Row>, slow: map<Key, Row>,
                         ks: seq<Key>, idx: seq<int>, vals: seq<Row>, ev: seq<Evicted>, loaded: seq<Row>, j: nat)
    returns (evVals: seq<Row>)
    requires Setting(keys, refs, rows, ks, idx, vals, ev, loaded) && j < |idx| && idx[j] < 0
    ensures Setting(keys, refs, rows, ks, idx, vals, ev, evVals)
    ensures LogicalAfter(keys, rows, slow, ks, idx, vals, ev, evVals) != Merge(Logical(keys, rows, slow), ks, vals)
  {
    var e := Entry(ev, ks, j);
    evVals := loaded[e := vals[j] + [0.0]];
    assert Setting(keys, refs, rows, ks, idx, vals, ev, evVals);
    hide Setting, LogicalAfter, Logical, Merge;
    assert !RejectsCarryValue(ks, idx, vals, ev, evVals) by {
      assert |evVals[e]| != |vals[j]|;
    }
    EvictInsertMerges(keys, refs, rows, slow, ks, idx, vals, ev, evVals);
  }

  /** The write-back of a prefetch is exact for whatever the uninitialised output rows contain
      if and only if, counted on the slots and counters before the insertion, every overflow
      region has room for the keys its buckets have no room for. */
  lemma {:induction false} ExactIffFits(layout: Layout, keys: Slots, seen: seq<int>, rows: seq<Row>,
                     slow: map<Key, Row>, ks: seq<Key>, idx: seq<int>, vals: seq<Row>, ev: seq<Evicted>,
                     loaded: seq<Row>)
    requires PlacedBatch(layout, keys, seen, ks, idx)
    requires Setting(keys, seen, rows, ks, idx, vals, ev, loaded)
    ensures (forall evVals :: Setting(keys, seen, rows, ks, idx, vals, ev, evVals) ==>
              LogicalAfter(keys, rows, slow, ks, idx, vals, ev, evVals) == Merge(Logical(keys, rows, slow), ks, vals))
      <==> Fits(layout, keys, seen, ks)
  {
    NoneRejectedIff(layout, keys, seen, ks, idx);
    hide PlacedBatch, Fits, Setting, LogicalAfter, Logical, Merge;
    ExactIffNoneRejected(keys, seen, rows, slow, ks, idx, vals, ev, loaded);
  }

  lemma {:induction false} ExactIffNoneRejected(keys: Slots, refs: seq<int>, rows: seq<Row>, slow: map<Key, Row>,
                             ks: seq<Key>, idx: seq<int>, vals: seq<Row>, ev: seq<Evicted>, loaded: seq<Row>)
    requires Setting(keys, refs, rows, ks, idx, vals, ev, loaded)
    ensures (forall evVals :: Setting(keys, refs, rows, ks, idx, vals, ev, evVals) ==>
              LogicalAfter(keys, rows, slow, ks, idx, vals, ev, evVals) == Merge(Logical(keys, rows, slow), ks, vals))
      <==> (forall j :: 0 <= j < |idx| ==> idx[j] >= 0)
  {
    hide LogicalAfter, Logical, Merge;
    if j :| 0 <= j < |idx| && idx[j] < 0 {
      var evVals := RejectionSpoils(keys, refs, rows, slow, ks, idx, vals, ev, loaded, j);
    } else {
      forall evVals | Setting(keys, refs, rows, ks, idx, vals, ev, evVals)
        ensures LogicalAfter(keys, rows, slow, ks, idx, vals, ev, evVals) == Merge(Logical(keys, rows, slow), ks, vals)
      {
        EvictInsertMerges(keys, refs, rows, slow, ks, idx, vals, ev, evVals);
      }
    }
  }
}
