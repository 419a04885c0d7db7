/** Flushing the cache into storage, and evaluation lookups through cache and storage. */
module FlushEval {
  import opened Common
  import opened HashTable
  import opened BackingStore
  import opened TwoLevel
  import opened CachePath

  /** Keys and rows of the occupied slots of a range, in slot order. */
  method ExportRange(cache: Table, lo: nat, hi: nat) returns (ks: seq<Key>, vs: seq<Row>)
    requires cache.Valid() && lo <= hi <= cache.keys.Length
    ensures |vs| == |ks| && Exported(cache.keys[..], cache.rows[..], lo, hi, ks, vs)
  {
    ks, vs := [], [];
    ghost var keys, rows := cache.keys[..], cache.rows[..];
    for s := lo to hi
      invariant |vs| == |ks| && Exported(keys, rows, lo, s, ks, vs)
    {
      if cache.keys[s].Some? {
        ExportStep(keys, rows, lo, s, ks, vs);
        ks, vs := ks + [cache.keys[s].value], vs + [cache.rows[s]];
      }
    }
  }

  /** `ks` and `vs` are the entries of the slots from `lo` up to `hi`. */
  ghost predicate Exported(keys: Slots, rows: seq<Row>, lo: nat, hi: nat, ks: seq<Key>, vs: seq<Row>)
    requires lo <= hi <= |keys| == |rows| && |vs| == |ks|
  {
    && Distinct(ks)
    && (forall i :: 0 <= i < |ks| ==> lo <= SlotOf(keys, ks[i]) < hi && vs[i] == rows[SlotOf(keys, ks[i])])
    && (forall s :: lo <= s < hi && keys[s].Some? ==> keys[s].value in ks)
  }

  lemma ExportStep(keys: Slots, rows: seq<Row>, lo: nat, s: nat, ks: seq<Key>, vs: seq<Row>)
    requires lo <= s < |keys| == |rows| && |vs| == |ks| && Injective(keys)
    requires Exported(keys, rows, lo, s, ks, vs) && keys[s].Some?
    ensures Exported(keys, rows, lo, s + 1, ks + [keys[s].value], vs + [rows[s]])
  {
    var k := keys[s].value;
    assert SlotOf(keys, k) == s;
    forall i | 0 <= i < |ks| ensures ks[i] != k { assert SlotOf(keys, ks[i]) < s; }
    AppendDistinct(ks, k);
  }

  /** The slow level once the slots in `done` have been written to it. */
  ghost predicate FlushedTo(keys: Slots, rows: seq<Row>, slow: map<Key, Row>, done: set<nat>, m: map<Key, Row>)
    requires |rows| == |keys|
  {
    && (forall k :: k in m <==> k in slow || SlotOf(keys, k) in done)
    && (forall k :: k in m ==>
          m[k] == if 0 <= SlotOf(keys, k) && SlotOf(keys, k) in done then rows[SlotOf(keys, k)] else slow[k])
  }

  lemma FlushStep(keys: Slots, rows: seq<Row>, slow: map<Key, Row>, done: set<nat>, lo: nat, hi: nat, m: map<Key, Row>,
                  ks: seq<Key>, vs: seq<Row>)
    requires lo <= hi <= |keys| == |rows| && |vs| == |ks| && Injective(keys)
    requires FlushedTo(keys, rows, slow, done, m) && Exported(keys, rows, lo, hi, ks, vs)
    ensures FlushedTo(keys, rows, slow, done + RangeSlots((lo, hi)), Merge(m, ks, vs))
  {
    var r := Merge(m, ks, vs);
    hide Merge, Injective, Distinct, Exported;
    forall k
      ensures k in ks <==> SlotOf(keys, k) in RangeSlots((lo, hi))
      ensures k in ks ==> r[k] == rows[SlotOf(keys, k)]
    {
      ExportedKey(keys, rows, lo, hi, ks, vs, k);
      assert Exported(keys, rows, lo, hi, ks, vs);
      if k in ks { MergeEntry(keys, rows, lo, hi, m, ks, vs, k); }
    }
    MergedKeys(m, ks, vs);
  }

  lemma ExportedKey(keys: Slots, rows: seq<Row>, lo: nat, hi: nat, ks: seq<Key>, vs: seq<Row>, k: Key)
    requires lo <= hi <= |keys| == |rows| && |vs| == |ks| && Exported(keys, rows, lo, hi, ks, vs)
    ensures k in ks <==> SlotOf(keys, k) in RangeSlots((lo, hi))
  {
    var s := SlotOf(keys, k);
    if lo <= s < hi { assert keys[s] == Some(k); }
    if k in ks { assert ks[IndexOf(ks, k)] == k; }
  }

  lemma MergeEntry(keys: Slots, rows: seq<Row>, lo: nat, hi: nat, m: map<Key, Row>, ks: seq<Key>, vs: seq<Row>, k: Key)
    requires lo <= hi <= |keys| == |rows| && |vs| == |ks| && Exported(keys, rows, lo, hi, ks, vs) && k in ks
    ensures 0 <= SlotOf(keys, k) && Merge(m, ks, vs)[k] == rows[SlotOf(keys, k)]
  {
    assert ks[IndexOf(ks, k)] == k;
  }

  lemma MergedKeys(m: map<Key, Row>, ks: seq<Key>, vs: seq<Row>)
    requires |vs| == |ks|
    ensures forall k :: k in Merge(m, ks, vs) <==> k in m || k in ks
    ensures forall k :: k in m && k !in ks ==> Merge(m, ks, vs)[k] == m[k]
  {
  }

  /** Write the cache entries of one piece of a table in batches. */
  method FlushPiece(cache: Table, storage: Storage, ghost slow: map<Key, Row>, ghost done: set<nat>, piece: (nat, nat),
                    batch: nat)
    requires cache.Valid() && storage.Valid() && batch > 0 && piece.0 <= piece.1 <= cache.keys.Length
    requires FlushedTo(cache.keys[..], cache.rows[..], slow, done, storage.Map())
    modifies storage
    ensures storage.Valid() && RowsStable(old(storage.View()), storage.View())
    ensures FlushedTo(cache.keys[..], cache.rows[..], slow, done + RangeSlots(piece), storage.Map())
  {
    hide PlacesFresh, DistinctRows, RowsOwned, RowsBelowNext, Contents, Merge, FlushedTo, Injective, RangeSlots;
    ghost var keys, rows := cache.keys[..], cache.rows[..];
    var (lo, hi) := piece;
    var at := lo;
    NothingBetween(done, lo);
    while at < hi
      invariant lo <= at <= hi
      invariant storage.Valid() && RowsStable(old(storage.View()), storage.View())
      invariant FlushedTo(keys, rows, slow, done + RangeSlots((lo, at)), storage.Map())
    {
      var to := if at + batch < hi then at + batch else hi;
      var ks, vs := ExportRange(cache, at, to);
      FlushStep(keys, rows, slow, done + RangeSlots((lo, at)), at, to, storage.Map(), ks, vs);
      BetweenJoins(done, lo, at, to);
      if ks != [] {
        storage.WriteBackEntries(ks, vs);
      } else {
        MergeNothing(storage.Map(), vs);
      }
      at := to;
    }
  }

  lemma NothingBetween(done: set<nat>, lo: nat)
    ensures done + RangeSlots((lo, lo)) == done
  {
  }

  lemma BetweenJoins(done: set<nat>, lo: nat, at: nat, to: nat)
    requires lo <= at <= to
    ensures done + RangeSlots((lo, at)) + RangeSlots((at, to)) == done + RangeSlots((lo, to))
  {
  }

  /** The pieces that the tables of the cache consist of: buckets and overflow region of one table
      after the other. They are ranges of slots, and every slot is in one of them. */
  ghost predicate Covers(pieces: seq<(nat, nat)>, n: nat) {
    && (forall i :: 0 <= i < |pieces| ==> pieces[i].0 <= pieces[i].1 <= n)
    && (forall s: nat :: s < n ==> s in SlotsOfPieces(pieces))
  }

  ghost function SlotsOfPieces(pieces: seq<(nat, nat)>): set<nat> {
    if pieces == [] then {}
    else var n := |pieces| - 1; SlotsOfPieces(pieces[..n]) + RangeSlots(pieces[n])
  }

  lemma {:induction false} PieceSlots(pieces: seq<(nat, nat)>, i: nat, s: nat)
    requires i < |pieces| && In(pieces[i], s)
    ensures s in SlotsOfPieces(pieces)
    decreases |pieces|
  {
    if i < |pieces| - 1 { PieceSlots(pieces[..|pieces| - 1], i, s); }
  }

  /** Write every cache entry to storage, piece by piece. */
  method FlushCache(cache: Table, storage: Storage, pieces: seq<(nat, nat)>, batch: nat)
    requires cache.Valid() && storage.Valid() && batch > 0 && Covers(pieces, cache.keys.Length)
    modifies storage
    ensures storage.Valid() && RowsStable(old(storage.View()), storage.View())
    ensures storage.Map() == old(Combined(cache, storage))
    ensures Combined(cache, storage) == old(Combined(cache, storage))
  {
    hide PlacesFresh, DistinctRows, RowsOwned, RowsBelowNext, Contents, FlushedTo, Logical;
    ghost var keys, rows, slow := cache.keys[..], cache.rows[..], storage.Map();
    NothingFlushed(keys, rows, slow);
    for i := 0 to |pieces|
      invariant storage.Valid() && RowsStable(old(storage.View()), storage.View())
      invariant FlushedTo(keys, rows, slow, SlotsOfPieces(pieces[..i]), storage.Map())
    {
      assert pieces[..i + 1][..i] == pieces[..i];
      FlushPiece(cache, storage, slow, SlotsOfPieces(pieces[..i]), pieces[i], batch);
    }
    assert pieces[..|pieces|] == pieces;
    AllFlushed(keys, rows, slow, SlotsOfPieces(pieces), storage.Map());
    FlushIsIdempotent(keys, rows, slow);
  }

  lemma NothingFlushed(keys: Slots, rows: seq<Row>, slow: map<Key, Row>)
    requires |rows| == |keys|
    ensures FlushedTo(keys, rows, slow, {}, slow)
  {
  }

  lemma AllFlushed(keys: Slots, rows: seq<Row>, slow: map<Key, Row>, done: set<nat>, m: map<Key, Row>)
    requires |rows| == |keys| && FlushedTo(keys, rows, slow, done, m) && forall s: nat :: s < |keys| ==> s in done
    ensures m == Logical(keys, rows, slow)
  {
    var l := Logical(keys, rows, slow);
    forall k ensures (k in m <==> k in l) && (k in m ==> m[k] == l[k]) {
      if 0 <= SlotOf(keys, k) { assert SlotOf(keys, k) as nat in done; }
    }
  }

  /** With the combined map already in the slow level, the combination is that map again: a
      second flush changes no value. */
  lemma FlushIsIdempotent(keys: Slots, rows: seq<Row>, slow: map<Key, Row>)
    requires |rows| == |keys|
    ensures Logical(keys, rows, Logical(keys, rows, slow)) == Logical(keys, rows, slow)
  {
  }

  /** What an evaluation lookup of a key list means on a plain map. */
  function EvalOutput(emb: Row -> Row, init: Key -> Row, m: map<Key, Row>, ks: seq<Key>): (out: seq<Row>)
    ensures |out| == |ks|
    ensures forall i :: 0 <= i < |ks| ==> out[i] == if ks[i] in m then emb(m[ks[i]]) else init(ks[i])
  {
    seq(|ks|, i requires 0 <= i < |ks| => if ks[i] in m then emb(m[ks[i]]) else init(ks[i]))
  }

  /** Overwrite the positions `pos` with the initialiser of the key there. */
  method InitialiseAt(init: Key -> Row, embs: seq<Row>, pos: seq<nat>, ks: seq<Key>) returns (out: seq<Row>)
    requires |embs| == |ks| && Distinct(pos) && forall j :: 0 <= j < |pos| ==> pos[j] < |ks|
    ensures |out| == |ks|
    ensures forall i :: 0 <= i < |ks| ==> out[i] == if i in pos then init(ks[i]) else embs[i]
  {
    var vals := seq(|pos|, j requires 0 <= j < |pos| => init(ks[pos[j]]));
    out := Scatter(embs, pos, vals);
    forall i | 0 <= i < |ks| ensures out[i] == if i in pos then init(ks[i]) else embs[i] {
      if i in pos { assert pos[IndexOf(pos, i)] == i; }
    }
  }

  method EvalLookupStorage(emb: Row -> Row, init: Key -> Row, storage: Storage, ks: seq<Key>, junk: nat -> Row)
    returns (out: seq<Row>)
    requires storage.Valid()
    ensures out == EvalOutput(emb, init, storage.Map(), ks)
  {
    var founds, vals := storage.Find(ks, junk);
    var embs := seq(|vals|, i requires 0 <= i < |vals| => emb(vals[i]));
    out := InitialiseAt(init, embs, Positions(Not(founds)), ks);
  }

  /** Embedding columns of the rows in the given slots. */
  method LoadEmbeddings(emb: Row -> Row, cache: Table, slots: seq<int>, junk: nat -> Row) returns (embs: seq<Row>)
    requires cache.Valid() && forall i :: 0 <= i < |slots| ==> slots[i] < cache.rows.Length
    ensures |embs| == |slots|
    ensures forall i :: 0 <= i < |slots| && slots[i] >= 0 ==> embs[i] == emb(cache.rows[slots[i]])
  {
    var vals := cache.LoadFromFlat(slots, seq(|slots|, i requires 0 <= i < |slots| => junk(i)));
    embs := seq(|vals|, i requires 0 <= i < |vals| => emb(vals[i]));
  }

  /** Cache first, storage for the misses. Keys may repeat. */
  method EvalLookupCached(emb: Row -> Row, init: Key -> Row, cache: Table, storage: Storage, ks: seq<Key>,
                          junk: nat -> Row)
    returns (out: seq<Row>)
    requires cache.Valid() && storage.Valid()
    modifies cache.scores
    ensures cache.Valid() && cache.scores[..] == old(cache.scores[..])
    ensures out == EvalOutput(emb, init, Combined(cache, storage), ks)
  {
    hide PlacesFresh, DistinctRows, RowsOwned, RowsBelowNext, Contents, Logical, Injective, EvalOutput;
    ScoredConst(cache.scores[..], HitsOf(cache.keys[..], ks), seq(|ks|, i => 0));
    var hits := cache.Lookup(ks, Const, seq(|ks|, i => 0));
    assert hits == HitsOf(cache.keys[..], ks);
    var embs := LoadEmbeddings(emb, cache, hits, junk);
    var miss := Positions(Negative(hits));
    if miss == [] {
      out := embs;
      EvalSplit(emb, init, cache.keys[..], cache.rows[..], storage.Map(), ks, hits, embs, out);
      return;
    }
    var rest := EvalLookupStorage(emb, init, storage, Gather(ks, miss), junk);
    out := Scatter(embs, miss, rest);
    EvalSplit(emb, init, cache.keys[..], cache.rows[..], storage.Map(), ks, hits, embs, out);
  }

  /** Hits answered by the fast level and misses by the slow one are answered by their combination. */
  lemma EvalSplit(emb: Row -> Row, init: Key -> Row, keys: Slots, rows: seq<Row>, slow: map<Key, Row>,
                  ks: seq<Key>, hits: seq<int>, embs: seq<Row>, out: seq<Row>)
    requires |rows| == |keys| && |hits| == |embs| == |out| == |ks|
    requires forall i :: 0 <= i < |ks| ==> hits[i] == SlotOf(keys, ks[i])
    requires forall i :: 0 <= i < |ks| && 0 <= hits[i] < |rows| ==> embs[i] == emb(rows[hits[i]])
    requires var miss := Positions(Negative(hits));
      && (forall j :: 0 <= j < |miss| ==> out[miss[j]] == EvalOutput(emb, init, slow, Gather(ks, miss))[j])
      && (forall i :: 0 <= i < |ks| && i !in miss ==> out[i] == embs[i])
    ensures out == EvalOutput(emb, init, Logical(keys, rows, slow), ks)
  {
    var miss, l := Positions(Negative(hits)), Logical(keys, rows, slow);
    hide Positions, Logical, EvalOutput;
    forall i | 0 <= i < |ks| ensures out[i] == EvalOutput(emb, init, l, ks)[i] {
      PositionsMember(Negative(hits), i);
      if hits[i] < 0 {
        var j := IndexOf(miss, i);
        assert miss[j] == i && 0 <= j < |miss|;
        assert out[miss[j]] == EvalOutput(emb, init, slow, Gather(ks, miss))[j];
        assert ks[i] in l <==> ks[i] in slow;
      } else {
        assert ks[i] in l;
      }
    }
  }

  /** Evaluation through cache and storage is evaluation on the flushed storage alone. */
  method EvalAroundFlush(emb: Row -> Row, init: Key -> Row, cache: Table, storage: Storage, ks: seq<Key>,
                         pieces: seq<(nat, nat)>, batch: nat, junk: nat -> Row)
    returns (before: seq<Row>, after: seq<Row>)
    requires cache.Valid() && storage.Valid() && batch > 0
    requires Covers(pieces, cache.keys.Length)
    modifies cache.scores, storage
    ensures before == after == EvalOutput(emb, init, old(Combined(cache, storage)), ks)
    ensures cache.scores[..] == old(cache.scores[..])
  {
    before := EvalLookupCached(emb, init, cache, storage, ks, junk);
    FlushCache(cache, storage, pieces, batch);
    after := EvalLookupStorage(emb, init, storage, ks, junk);
  }

  /** A second flush changes no value and moves no row. */
  method FlushTwice(cache: Table, storage: Storage, pieces: seq<(nat, nat)>, batch: nat, batch': nat)
    returns (ghost once: map<Key, Row>, ghost rows: map<Key, nat>)
    requires cache.Valid() && storage.Valid() && batch > 0 && batch' > 0 && Covers(pieces, cache.keys.Length)
    modifies storage
    ensures storage.Valid() && once == storage.Map() == old(Combined(cache, storage)) && rows == storage.rowOf
  {
    hide PlacesFresh, DistinctRows, RowsOwned, RowsBelowNext, Contents, Logical;
    FlushCache(cache, storage, pieces, batch);
    once, rows := storage.Map(), storage.rowOf;
    FlushCache(cache, storage, pieces, batch');
    assert storage.rowOf.Keys == once.Keys;
  }
}
