/** The row discipline of the backing storage over whole runs. */
module RowDiscipline {
  import opened Common
  import opened BackingStore
  import opened Expansion

  /** One use of the storage: look keys up, insert keys that find reported missing, refresh keys
      that are present, write evicted or flushed entries back, or grow: insert the exported keys,
      in `order`, into a larger index that puts them at `dst`. */
  datatype StoreOp =
    | Lookup
    | InsertNew(ks: seq<Key>, vs: seq<Row>)
    | Refresh(ks: seq<Key>, vs: seq<Row>)
    | WriteBackOp(ks: seq<Key>, vs: seq<Row>)
    | Grow(order: seq<Key>, dst: seq<nat>)
  {
    /** The entries the operation writes. */
    function Keys(): seq<Key> { if Lookup? || Grow? then [] else ks }
    function Rows(): seq<Row> { if Lookup? || Grow? then [] else vs }
  }

  /** The buffer cells that the index puts the keys at. */
  ghost function Cells(order: seq<Key>, dst: seq<nat>): (r: seq<(nat, nat)>)
    requires |dst| == |order|
    ensures |r| == |order| && forall i :: 0 <= i < |r| ==> r[i] == (order[i].table, dst[i])
  {
    seq(|order|, i requires 0 <= i < |order| => (order[i].table, dst[i]))
  }

  ghost predicate Possible(mode: Mode, st: Store, op: StoreOp) {
    && |op.Rows()| == |op.Keys()| && Distinct(op.Keys())
    && (op.InsertNew? ==> forall k :: k in op.ks ==> k !in st.rowOf)
    && (op.Refresh? ==> forall k :: k in op.ks ==> k in st.rowOf)
    && (op.Grow? ==>
          && |op.dst| == |op.order| && Distinct(op.order) && (forall k :: k in op.order <==> k in st.rowOf)
          && Distinct(Cells(op.order, op.dst)))
  }

  /** Writing rows to cells, one after the other. */
  ghost function Written(buffer: map<(nat, nat), Row>, cells: seq<(nat, nat)>, rows: seq<Row>): map<(nat, nat), Row>
    requires |rows| == |cells|
  {
    if cells == [] then buffer
    else var n := |cells| - 1; Written(buffer, cells[..n], rows[..n])[cells[n] := rows[n]]
  }

  /** The rows of the keys, in the given order. */
  ghost function RowsOf(st: Store, order: seq<Key>): (r: seq<Row>)
    requires forall k :: k in order ==> k in st.rowOf && (k.table, st.rowOf[k]) in st.buffer
    ensures |r| == |order|
    ensures forall i :: 0 <= i < |order| ==>
      order[i] in order && r[i] == st.buffer[(order[i].table, st.rowOf[order[i]])]
  {
    seq(|order|, i requires 0 <= i < |order| =>
      assert order[i] in order; st.buffer[(order[i].table, st.rowOf[order[i]])])
  }

  /** The storage after the rehash: under NO_EVICTION the rows are the scores, which are inserted
      again; otherwise the rows are the new slots, and the values move there. */
  ghost function Rehashed(mode: Mode, st: Store, order: seq<Key>, dst: seq<nat>): Store
    requires Ok(mode, st) && |dst| == |order| && forall k :: k in order ==> k in st.rowOf
  {
    if mode.NoEviction? then st.(rowOf := Rebuilt(order, SlotsOf(st.rowOf, order)))
    else st.(rowOf := Rebuilt(order, dst), buffer := Written(st.buffer, Cells(order, dst), RowsOf(st, order)))
  }

  ghost function Perform(mode: Mode, st: Store, op: StoreOp): Store
    requires Ok(mode, st) && Possible(mode, st, op)
  {
    match op
    case Lookup => st
    case InsertNew(ks, vs) => InsertAll(mode, st, ks, vs, false)
    case Refresh(ks, vs) => InsertAll(mode, st, ks, vs, true)
    case WriteBackOp(ks, vs) => WriteBack(mode, st, ks, vs)
    case Grow(order, dst) => Rehashed(mode, st, order, dst)
  }

  lemma {:induction false} WrittenAt(buffer: map<(nat, nat), Row>, cells: seq<(nat, nat)>, rows: seq<Row>, i: nat)
    requires |rows| == |cells| && Distinct(cells) && i < |cells|
    ensures cells[i] in Written(buffer, cells, rows) && Written(buffer, cells, rows)[cells[i]] == rows[i]
    decreases |cells|
  {
    var n := |cells| - 1;
    if i < n {
      PrefixDistinct(cells, n);
      WrittenAt(buffer, cells[..n], rows[..n], i);
      assert cells[..n][i] == cells[i] && cells[i] in cells[..n];
    }
  }

  /** A rehash keeps the stored map; under NO_EVICTION it keeps every row. */
  lemma {:induction false} RehashKeeps(mode: Mode, st: Store, order: seq<Key>, dst: seq<nat>)
    requires Ok(mode, st) && Possible(mode, st, Grow(order, dst))
    ensures var st' := Rehashed(mode, st, order, dst);
      Ok(mode, st') && Contents(st') == Contents(st) && (mode.NoEviction? ==> st' == st)
  {
    if mode.NoEviction? {
      RebuiltSame(st.rowOf, order);
    } else {
      var st' := Rehashed(mode, st, order, dst);
      RowsStayApart(order, dst);
      forall k
        ensures k in st'.rowOf <==> k in st.rowOf
        ensures k in st.rowOf ==> (k.table, st'.rowOf[k]) in st'.buffer
        ensures k in st.rowOf ==> st'.buffer[(k.table, st'.rowOf[k])] == st.buffer[(k.table, st.rowOf[k])]
      {
        RowMoved(mode, st, order, dst, k);
      }
      hide Rebuilt, Written, PlacesFresh, DistinctRows, Distinct;
    }
  }

  lemma RowMoved(mode: Mode, st: Store, order: seq<Key>, dst: seq<nat>, k: Key)
    requires mode.Hashed? && Ok(mode, st) && Possible(mode, st, Grow(order, dst))
    ensures var st' := Rehashed(mode, st, order, dst);
      && (k in st'.rowOf <==> k in st.rowOf)
      && (k in st.rowOf ==> (k.table, st'.rowOf[k]) in st'.buffer)
      && (k in st.rowOf ==> st'.buffer[(k.table, st'.rowOf[k])] == st.buffer[(k.table, st.rowOf[k])])
  {
    RebuiltIndexed(order, dst);
    hide Rebuilt, Written, PlacesFresh, DistinctRows;
    if k in st.rowOf {
      var i := IndexOf(order, k);
      assert order[i] == k;
      WrittenAt(st.buffer, Cells(order, dst), RowsOf(st, order), i);
    }
  }

  lemma {:induction false} RowsStayApart(order: seq<Key>, dst: seq<nat>)
    requires |dst| == |order| && Distinct(order) && Distinct(Cells(order, dst))
    ensures DistinctRows(Rebuilt(order, dst))
  {
    var m, cells := Rebuilt(order, dst), Cells(order, dst);
    RebuiltIndexed(order, dst);
    DistinctRowsIsPairwise(m);
    hide Rebuilt, DistinctRows;
    forall j, k | j in m && k in m && j.table == k.table && m[j] == m[k] ensures j == k {
      var x, y := IndexOf(order, j), IndexOf(order, k);
      assert order[x] == j && order[y] == k && cells[x] == cells[y];
      assert IndexOf(cells, cells[x]) == x && IndexOf(cells, cells[y]) == y;
    }
  }

  ghost predicate PossibleRun(mode: Mode, st: Store, ops: seq<StoreOp>)
    requires Ok(mode, st)
    decreases |ops|
  {
    ops == [] || (
      && Possible(mode, st, ops[0])
      && (OpKeepsDiscipline(mode, st, ops[0]); PossibleRun(mode, Perform(mode, st, ops[0]), ops[1..])))
  }

  ghost function PerformAll(mode: Mode, st: Store, ops: seq<StoreOp>): Store
    requires Ok(mode, st) && PossibleRun(mode, st, ops)
    decreases |ops|
  {
    if ops == [] then st
    else OpKeepsDiscipline(mode, st, ops[0]); PerformAll(mode, Perform(mode, st, ops[0]), ops[1..])
  }

  ghost predicate Sized(ops: seq<StoreOp>)
    decreases |ops|
  {
    ops == [] || (|ops[0].Rows()| == |ops[0].Keys()| && Sized(ops[1..]))
  }

  /** The plain map after the same writes. */
  ghost function WriteAll(m: map<Key, Row>, ops: seq<StoreOp>): map<Key, Row>
    requires Sized(ops)
    decreases |ops|
  {
    if ops == [] then m else WriteAll(Merge(m, ops[0].Keys(), ops[0].Rows()), ops[1..])
  }

  lemma {:induction false} OpKeepsDiscipline(mode: Mode, st: Store, op: StoreOp)
    requires Ok(mode, st) && Possible(mode, st, op)
    ensures var st' := Perform(mode, st, op);
      && Ok(mode, st') && (mode.NoEviction? ==> RowsStable(st, st'))
      && Contents(st') == Merge(Contents(st), op.Keys(), op.Rows())
  {
    var m := Contents(st);
    match op
    case Lookup => MergeNothing(m, []);
    case Grow(order, dst) =>
      RehashKeeps(mode, st, order, dst);
      hide Ok, Rehashed, Merge, Contents;
      MergeNothing(m, []);
    case InsertNew(ks, vs) =>
      hide Ok, InsertAll, Merge;
      InsertAllMerges(mode, st, ks, vs, false);
    case Refresh(ks, vs) =>
      hide Ok, InsertAll, Merge;
      InsertAllMerges(mode, st, ks, vs, true);
    case WriteBackOp(ks, vs) =>
      hide Ok, WriteBack, Merge;
      WriteBackMerges(mode, st, ks, vs);
  }

  lemma StableTransitive(a: Store, b: Store, c: Store)
    requires RowsStable(a, b) && RowsStable(b, c)
    ensures RowsStable(a, c)
  {
  }

  /** Over every run the discipline holds, under NO_EVICTION a row once assigned never changes, and
      the stored map is the plain map after the same writes. */
  lemma {:induction false} RunKeepsDiscipline(mode: Mode, st: Store, ops: seq<StoreOp>)
    requires Ok(mode, st) && PossibleRun(mode, st, ops)
    ensures Sized(ops)
    ensures var st' := PerformAll(mode, st, ops);
      && Ok(mode, st') && (mode.NoEviction? ==> RowsStable(st, st'))
      && Contents(st') == WriteAll(Contents(st), ops)
    decreases |ops|
  {
    if ops != [] {
      var mid := Perform(mode, st, ops[0]);
      OpKeepsDiscipline(mode, st, ops[0]);
      hide PlacesFresh, DistinctRows, RowsOwned, RowsBelowNext, Contents, Merge, Perform, RowsStable;
      RunKeepsDiscipline(mode, mid, ops[1..]);
      if mode.NoEviction? { StableTransitive(st, mid, PerformAll(mode, mid, ops[1..])); }
    }
  }

  /** What the discipline says under NO_EVICTION: no two keys of a table share a row, and the rows
      of a table are exactly those below its next index. */
  lemma DisciplineMeans(st: Store, j: Key, k: Key, r: nat)
    requires Ok(NoEviction, st) && j in st.rowOf && k in st.rowOf
    ensures j != k && j.table == k.table ==> st.rowOf[j] != st.rowOf[k]
    ensures r < NextRow(st, k.table) <==> exists i :: i in st.rowOf && i.table == k.table && st.rowOf[i] == r
  {
    DistinctRowsIsPairwise(st.rowOf);
    if r < NextRow(st, k.table) { assert OwnerOf(st.rowOf, k.table, r).Some?; }
  }
}
