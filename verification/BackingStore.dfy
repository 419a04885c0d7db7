/** The backing storage: a key index that names a flat row per key, and the value buffer.
    Ordinarily the row is the hash slot; under NO_EVICTION it is an auto-increment number
    kept in the score column. The backing tier is taken not to evict. */
module BackingStore {
  import opened Common

  /** `place` is the slot the hash table picks for an absent key. */
  datatype Mode = NoEviction | Hashed(place: (map<Key, nat>, Key) -> nat)

  datatype Store = Store(rowOf: map<Key, nat>, next: map<nat, nat>, buffer: map<(nat, nat), Row>)

  function NextRow(st: Store, table: nat): nat {
    if table in st.next then st.next[table] else 0
  }

  ghost predicate PlacesFresh(mode: Mode) {
    mode.Hashed? ==> forall m: map<Key, nat>, k: Key, j: Key ::
      k !in m && j in m && j.table == k.table ==> m[j] != mode.place(m, k)
  }

  /** A key that owns row `r` of table `t`. */
  ghost function OwnerOf(rowOf: map<Key, nat>, t: nat, r: nat): (o: Option<Key>)
    ensures o.Some? ==> o.value in rowOf && o.value.table == t && rowOf[o.value] == r
    ensures o.None? ==> forall k :: k in rowOf && k.table == t ==> rowOf[k] != r
  {
    if exists k :: k in rowOf && k.table == t && rowOf[k] == r
    then var k :| k in rowOf && k.table == t && rowOf[k] == r; Some(k)
    else None
  }

  /** No two keys of a table share a row. */
  ghost predicate DistinctRows(rowOf: map<Key, nat>) {
    forall k :: k in rowOf ==> OwnerOf(rowOf, k.table, rowOf[k]) == Some(k)
  }

  lemma DistinctRowsIsPairwise(rowOf: map<Key, nat>)
    ensures DistinctRows(rowOf) <==>
      forall j, k :: j in rowOf && k in rowOf && j != k && j.table == k.table ==> rowOf[j] != rowOf[k]
  {
    if DistinctRows(rowOf) {
      forall j, k | j in rowOf && k in rowOf && j != k && j.table == k.table ensures rowOf[j] != rowOf[k] {
        assert OwnerOf(rowOf, j.table, rowOf[j]) == Some(j) && OwnerOf(rowOf, k.table, rowOf[k]) == Some(k);
      }
    }
  }

  ghost predicate RowsBelowNext(st: Store) {
    forall k :: k in st.rowOf ==> st.rowOf[k] < NextRow(st, k.table)
  }

  /** No row below the next index is left without an owner. */
  ghost predicate RowsOwned(st: Store) {
    forall t: nat, r: nat :: r < NextRow(st, t) ==> OwnerOf(st.rowOf, t, r).Some?
  }

  ghost predicate Ok(mode: Mode, st: Store) {
    && PlacesFresh(mode)
    && (forall k :: k in st.rowOf ==> (k.table, st.rowOf[k]) in st.buffer)
    && DistinctRows(st.rowOf)
    && (mode.NoEviction? ==> RowsBelowNext(st) && RowsOwned(st))
  }

  function Contents(st: Store): (m: map<Key, Row>)
    requires forall k :: k in st.rowOf ==> (k.table, st.rowOf[k]) in st.buffer
    ensures m.Keys == st.rowOf.Keys
  {
    map k | k in st.rowOf :: st.buffer[(k.table, st.rowOf[k])]
  }

  /** The row an insert writes. With `preserve` the stored score of a present key is kept,
      and an absent key gets the empty score, that is row 0; without it NO_EVICTION draws
      a new row even for a present key. */
  function TargetRow(mode: Mode, st: Store, k: Key, preserve: bool): nat {
    match mode
    case NoEviction =>
      if !preserve then NextRow(st, k.table)
      else if k in st.rowOf then st.rowOf[k] else 0
    case Hashed(place) =>
      if k in st.rowOf then st.rowOf[k] else place(st.rowOf, k)
  }

  function InsertRow(mode: Mode, st: Store, k: Key, v: Row, preserve: bool): Store {
    var r := TargetRow(mode, st, k, preserve);
    Store(st.rowOf[k := r],
          if mode.NoEviction? && !preserve then st.next[k.table := r + 1] else st.next,
          st.buffer[(k.table, r) := v])
  }

  /** The keys a mode lets `insert` be used for: under NO_EVICTION, present keys with
      `preserve` and absent keys without. */
  predicate WellUsed(mode: Mode, st: Store, k: Key, preserve: bool) {
    mode.NoEviction? ==> (preserve <==> k in st.rowOf)
  }

  ghost predicate RowsStable(st: Store, st': Store) {
    forall k :: k in st.rowOf ==> k in st'.rowOf && st'.rowOf[k] == st.rowOf[k]
  }

  /** The row written belongs to no other key of the table. */
  lemma TargetRowFree(mode: Mode, st: Store, k: Key, preserve: bool)
    requires Ok(mode, st) && WellUsed(mode, st, k, preserve)
    ensures forall j :: j in st.rowOf && j != k && j.table == k.table ==>
      st.rowOf[j] != TargetRow(mode, st, k, preserve)
    ensures k in st.rowOf ==> TargetRow(mode, st, k, preserve) == st.rowOf[k]
  {
  }

  lemma InsertOk(mode: Mode, st: Store, k: Key, v: Row, preserve: bool)
    requires Ok(mode, st) && WellUsed(mode, st, k, preserve)
    ensures Ok(mode, InsertRow(mode, st, k, v, preserve))
  {
    var st' := InsertRow(mode, st, k, v, preserve);
    forall j | j in st'.rowOf ensures (j.table, st'.rowOf[j]) in st'.buffer {
      InsertedRow(mode, st, k, v, preserve, j);
    }
    RowsStayDistinct(mode, st, k, v, preserve);
    if mode.NoEviction? { OwnershipKept(st, k, v, preserve); }
    hide PlacesFresh, DistinctRows, RowsOwned, RowsBelowNext, InsertRow;
  }

  /** The row of a key after an insert. */
  lemma InsertedRow(mode: Mode, st: Store, k: Key, v: Row, preserve: bool, j: Key)
    requires Ok(mode, st) && WellUsed(mode, st, k, preserve)
    ensures var st' := InsertRow(mode, st, k, v, preserve);
      && (j in st'.rowOf <==> j in st.rowOf || j == k)
      && (j in st'.rowOf ==> (j.table, st'.rowOf[j]) in st'.buffer)
      && (j in st'.rowOf ==>
            st'.buffer[(j.table, st'.rowOf[j])] == if j == k then v else st.buffer[(j.table, st.rowOf[j])])
  {
    TargetRowFree(mode, st, k, preserve);
    hide PlacesFresh, DistinctRows, RowsOwned, RowsBelowNext, TargetRow;
  }

  lemma RowsStayDistinct(mode: Mode, st: Store, k: Key, v: Row, preserve: bool)
    requires Ok(mode, st) && WellUsed(mode, st, k, preserve)
    ensures DistinctRows(InsertRow(mode, st, k, v, preserve).rowOf)
  {
    TargetRowFree(mode, st, k, preserve);
    hide PlacesFresh, RowsOwned, RowsBelowNext, TargetRow;
    DistinctRowsIsPairwise(st.rowOf);
    DistinctRowsIsPairwise(InsertRow(mode, st, k, v, preserve).rowOf);
    hide DistinctRows;
  }

  lemma InsertContents(mode: Mode, st: Store, k: Key, v: Row, preserve: bool)
    requires Ok(mode, st) && WellUsed(mode, st, k, preserve)
    ensures var st' := InsertRow(mode, st, k, v, preserve);
      (forall j :: j in st'.rowOf ==> (j.table, st'.rowOf[j]) in st'.buffer)
      && Contents(st') == Contents(st)[k := v]
  {
    var st' := InsertRow(mode, st, k, v, preserve);
    forall j
      ensures j in st'.rowOf <==> j in st.rowOf || j == k
      ensures j in st'.rowOf ==> (j.table, st'.rowOf[j]) in st'.buffer
      ensures j in st'.rowOf ==>
        st'.buffer[(j.table, st'.rowOf[j])] == if j == k then v else st.buffer[(j.table, st.rowOf[j])]
    {
      InsertedRow(mode, st, k, v, preserve, j);
    }
    hide PlacesFresh, DistinctRows, RowsOwned, RowsBelowNext, InsertRow;
    assert Contents(st') == Contents(st)[k := v];
  }

  lemma InsertKeepsDiscipline(mode: Mode, st: Store, k: Key, v: Row, preserve: bool)
    requires Ok(mode, st) && WellUsed(mode, st, k, preserve)
    ensures var st' := InsertRow(mode, st, k, v, preserve);
      Ok(mode, st') && RowsStable(st, st') && Contents(st') == Contents(st)[k := v]
  {
    InsertOk(mode, st, k, v, preserve);
    InsertContents(mode, st, k, v, preserve);
    TargetRowFree(mode, st, k, preserve);
  }

  lemma OwnershipKept(st: Store, k: Key, v: Row, preserve: bool)
    requires RowsBelowNext(st) && RowsOwned(st) && (preserve <==> k in st.rowOf)
    ensures var st' := InsertRow(NoEviction, st, k, v, preserve);
      RowsBelowNext(st') && RowsOwned(st')
  {
    var st' := InsertRow(NoEviction, st, k, v, preserve);
    forall t: nat, r: nat | r < NextRow(st', t) ensures OwnerOf(st'.rowOf, t, r).Some? {
      if r < NextRow(st, t) {
        var j := OwnerOf(st.rowOf, t, r).value;
        assert j in st'.rowOf && st'.rowOf[j] == r;
      } else {
        assert t == k.table && st'.rowOf[k] == r;
      }
    }
  }

  /** The membership test is needed: under NO_EVICTION one insert keeps every assigned row
      in place, the rows distinct and below the next index, if and only if `preserve`
      agrees with membership. */
  lemma DisciplineNeedsMembership(st: Store, k: Key, v: Row, preserve: bool)
    requires Ok(NoEviction, st)
    ensures var st' := InsertRow(NoEviction, st, k, v, preserve);
      (RowsStable(st, st') && DistinctRows(st'.rowOf) && RowsBelowNext(st'))
      <==> (preserve <==> k in st.rowOf)
  {
    var st' := InsertRow(NoEviction, st, k, v, preserve);
    if preserve <==> k in st.rowOf {
      InsertKeepsDiscipline(NoEviction, st, k, v, preserve);
    } else if preserve {
      assert st'.rowOf[k] == 0;
      if 0 < NextRow(st, k.table) {
        var j := OwnerOf(st.rowOf, k.table, 0).value;
        assert st'.rowOf[j] == 0;
      }
    } else {
      assert st'.rowOf[k] == NextRow(st, k.table);
    }
  }

  function InsertAll(mode: Mode, st: Store, ks: seq<Key>, vs: seq<Row>, preserve: bool): Store
    requires |vs| == |ks|
  {
    if ks == [] then st
    else
      var n := |ks| - 1;
      InsertRow(mode, InsertAll(mode, st, ks[..n], vs[..n], preserve), ks[n], vs[n], preserve)
  }

  /** A map with the entries of a batch written over it. */
  function Merge<V>(m: map<Key, V>, ks: seq<Key>, vs: seq<V>): (r: map<Key, V>)
    requires |vs| == |ks|
    ensures forall k :: k in r <==> k in m || k in ks
    ensures forall k :: k in m && k !in ks ==> r[k] == m[k]
    ensures Distinct(ks) ==> forall i :: 0 <= i < |ks| ==> r[ks[i]] == vs[i]
  {
    if ks == [] then m
    else
      var n := |ks| - 1;
      assert ks == ks[..n] + [ks[n]];
      Merge(m, ks[..n], vs[..n])[ks[n] := vs[n]]
  }

  lemma {:induction false} MergeStep<V>(m: map<Key, V>, ks: seq<Key>, vs: seq<V>, k: Key, v: V)
    requires |vs| == |ks|
    ensures Merge(m, ks + [k], vs + [v]) == Merge(m, ks, vs)[k := v]
  {
    assert (ks + [k])[..|ks|] == ks && (vs + [v])[..|vs|] == vs;
  }

  lemma MergeNothing(m: map<Key, Row>, vs: seq<Row>)
    requires vs == []
    ensures Merge(m, [], vs) == m
  {
  }

  lemma {:induction false} InsertAllMerges(mode: Mode, st: Store, ks: seq<Key>, vs: seq<Row>, preserve: bool)
    requires Ok(mode, st) && |vs| == |ks| && Distinct(ks)
    requires forall i :: 0 <= i < |ks| ==> WellUsed(mode, st, ks[i], preserve)
    ensures var st' := InsertAll(mode, st, ks, vs, preserve);
      Ok(mode, st') && RowsStable(st, st') && Contents(st') == Merge(Contents(st), ks, vs)
  {
    if ks != [] {
      var n := |ks| - 1;
      InsertAllMerges(mode, st, ks[..n], vs[..n], preserve);
      var mid := InsertAll(mode, st, ks[..n], vs[..n], preserve);
      assert WellUsed(mode, mid, ks[n], preserve);
      InsertKeepsDiscipline(mode, mid, ks[n], vs[n], preserve);
    }
  }

  /** The positions of the keys whose membership in `dom` is `want`. */
  function Select(ks: seq<Key>, dom: set<Key>, want: bool): (r: seq<nat>)
    ensures Distinct(r)
    ensures forall i :: 0 <= i < |r| ==> r[i] < |ks| && ((ks[r[i]] in dom) == want)
    ensures forall i :: 0 <= i < |ks| ==> (i in r <==> (ks[i] in dom) == want)
  {
    Positions(seq(|ks|, i requires 0 <= i < |ks| => (ks[i] in dom) == want))
  }

  /** Cache write-back and flush: present keys are refreshed in their row, then the others
      are inserted. Outside NO_EVICTION a plain insert does both. */
  function WriteBack(mode: Mode, st: Store, ks: seq<Key>, vs: seq<Row>): Store
    requires |vs| == |ks|
  {
    if mode.Hashed? then InsertAll(mode, st, ks, vs, false)
    else
      var present, absent := Select(ks, st.rowOf.Keys, true), Select(ks, st.rowOf.Keys, false);
      var mid := InsertAll(mode, st, Gather(ks, present), Gather(vs, present), true);
      InsertAll(mode, mid, Gather(ks, absent), Gather(vs, absent), false)
  }

  lemma {:induction false} SplitInsertMerges(st: Store, ks: seq<Key>, vs: seq<Row>, present: seq<nat>, absent: seq<nat>)
    requires Ok(NoEviction, st) && |vs| == |ks| && Distinct(ks)
    requires present == Select(ks, st.rowOf.Keys, true) && absent == Select(ks, st.rowOf.Keys, false)
    ensures var mid := InsertAll(NoEviction, st, Gather(ks, present), Gather(vs, present), true);
      var st' := InsertAll(NoEviction, mid, Gather(ks, absent), Gather(vs, absent), false);
      Ok(NoEviction, st') && RowsStable(st, st') && Contents(st') == Merge(Contents(st), ks, vs)
  {
    hide PlacesFresh, DistinctRows, RowsOwned, RowsBelowNext, InsertAll, Merge, Select, Contents;
    var a, b := Gather(ks, present), Gather(ks, absent);
    GatherDistinct(ks, present);
    GatherDistinct(ks, absent);
    InsertAllMerges(NoEviction, st, a, Gather(vs, present), true);
    var mid := InsertAll(NoEviction, st, a, Gather(vs, present), true);
    assert mid.rowOf.Keys == st.rowOf.Keys by {
      assert forall k :: k in a ==> k in st.rowOf;
    }
    InsertAllMerges(NoEviction, mid, b, Gather(vs, absent), false);
    MergeSplit(Contents(st), ks, vs, present, absent);
  }

  /** Write-back is one write of the batch into the stored map, and it moves no row. */
  lemma {:induction false} WriteBackMerges(mode: Mode, st: Store, ks: seq<Key>, vs: seq<Row>)
    requires Ok(mode, st) && |vs| == |ks| && Distinct(ks)
    ensures var st' := WriteBack(mode, st, ks, vs);
      && Ok(mode, st') && RowsStable(st, st') && Contents(st') == Merge(Contents(st), ks, vs)
  {
    if mode.Hashed? {
      InsertAllMerges(mode, st, ks, vs, false);
    } else {
      SplitInsertMerges(st, ks, vs, Select(ks, st.rowOf.Keys, true), Select(ks, st.rowOf.Keys, false));
    }
  }

  /** Writing a batch in two complementary parts is writing it whole. */
  lemma {:induction false} MergeSplit(m: map<Key, Row>, ks: seq<Key>, vs: seq<Row>, p: seq<nat>, q: seq<nat>)
    requires |vs| == |ks| && Distinct(ks) && Distinct(p) && Distinct(q)
    requires forall i :: 0 <= i < |p| ==> p[i] < |ks|
    requires forall i :: 0 <= i < |q| ==> q[i] < |ks|
    requires forall i :: 0 <= i < |ks| ==> (i in p <==> i !in q)
    ensures Distinct(Gather(ks, p)) && Distinct(Gather(ks, q))
    ensures Merge(Merge(m, Gather(ks, p), Gather(vs, p)), Gather(ks, q), Gather(vs, q)) == Merge(m, ks, vs)
  {
    var a, b := Gather(ks, p), Gather(ks, q);
    var l := Merge(Merge(m, a, Gather(vs, p)), b, Gather(vs, q));
    assert Distinct(a) && Distinct(b);
    forall i | 0 <= i < |ks| ensures ks[i] in l && l[ks[i]] == vs[i] {
      MergedAt(m, ks, vs, p, q, i);
    }
    GatherMembers(ks, p, q);
    MergeIs(m, ks, vs, l);
  }

  /** `Merge` is determined by its entries. */
  lemma {:induction false} MergeIs<V>(m: map<Key, V>, ks: seq<Key>, vs: seq<V>, l: map<Key, V>)
    requires |vs| == |ks| && Distinct(ks)
    requires forall k :: k in l <==> k in m || k in ks
    requires forall i :: 0 <= i < |ks| ==> l[ks[i]] == vs[i]
    requires forall k :: k in m && k !in ks ==> l[k] == m[k]
    ensures l == Merge(m, ks, vs)
  {
    var r := Merge(m, ks, vs);
    forall k | k in l ensures l[k] == r[k] {
      if k in ks { assert ks[IndexOf(ks, k)] == k; }
    }
  }

  lemma GatherMembers(ks: seq<Key>, p: seq<nat>, q: seq<nat>)
    requires forall i :: 0 <= i < |p| ==> p[i] < |ks|
    requires forall i :: 0 <= i < |q| ==> q[i] < |ks|
    requires forall i :: 0 <= i < |ks| ==> (i in p <==> i !in q)
    ensures forall k :: k in ks <==> k in Gather(ks, p) || k in Gather(ks, q)
  {
    forall k | k in ks ensures k in Gather(ks, p) || k in Gather(ks, q) {
      var i := IndexOf(ks, k);
      if i in p { assert Gather(ks, p)[IndexOf(p, i)] == k; }
      else { assert Gather(ks, q)[IndexOf(q, i)] == k; }
    }
  }

  lemma {:induction false} MergedAt(m: map<Key, Row>, ks: seq<Key>, vs: seq<Row>, p: seq<nat>, q: seq<nat>, i: nat)
    requires forall j :: 0 <= j < |p| ==> p[j] < |ks|
    requires forall j :: 0 <= j < |q| ==> q[j] < |ks|
    requires |vs| == |ks| && Distinct(ks) && Distinct(Gather(ks, p)) && Distinct(Gather(ks, q)) && i < |ks|
    requires i in p <==> i !in q
    ensures var l := Merge(Merge(m, Gather(ks, p), Gather(vs, p)), Gather(ks, q), Gather(vs, q));
      ks[i] in l && l[ks[i]] == vs[i]
  {
    var a, b := Gather(ks, p), Gather(ks, q);
    if i in p {
      assert a[IndexOf(p, i)] == ks[i];
      assert ks[i] !in b;
    } else {
      assert b[IndexOf(q, i)] == ks[i];
    }
  }

  class Storage {
    const mode: Mode
    var rowOf: map<Key, nat>
    var next: map<nat, nat>
    var buffer: map<(nat, nat), Row>

    ghost function View(): Store reads this { Store(rowOf, next, buffer) }

    ghost predicate Valid() reads this { Ok(mode, View()) }

    ghost function Map(): map<Key, Row>
      reads this
      requires Valid()
      ensures Map().Keys == rowOf.Keys
    {
      Contents(View())
    }

    constructor (mode: Mode)
      requires PlacesFresh(mode)
      ensures Valid() && this.mode == mode && Map() == map[]
    {
      this.mode := mode;
      rowOf, next, buffer := map[], map[], map[];
    }

    /** Flags and rows of the keys; where a key is absent the output row keeps `junk`. */
    method Find(ks: seq<Key>, junk: nat -> Row) returns (founds: seq<bool>, vals: seq<Row>)
      requires Valid()
      ensures |founds| == |vals| == |ks|
      ensures forall i :: 0 <= i < |ks| ==> founds[i] == (ks[i] in Map())
      ensures forall i :: 0 <= i < |ks| ==> vals[i] == if ks[i] in Map() then Map()[ks[i]] else junk(i)
    {
      founds, vals := [], [];
      ghost var m := Map();
      for i := 0 to |ks|
        invariant |founds| == |vals| == i
        invariant forall j :: 0 <= j < i ==> founds[j] == (ks[j] in m)
        invariant forall j :: 0 <= j < i ==> vals[j] == if ks[j] in m then m[ks[j]] else junk(j)
      {
        var k := ks[i];
        assert k in m <==> k in rowOf;
        founds := founds + [k in rowOf];
        vals := vals + [if k in rowOf then buffer[(k.table, rowOf[k])] else junk(i)];
      }
    }

    method Insert(ks: seq<Key>, vs: seq<Row>, preserve: bool)
      requires |vs| == |ks|
      modifies this
      ensures View() == InsertAll(mode, old(View()), ks, vs, preserve)
    {
      for i := 0 to |ks|
        invariant View() == InsertAll(mode, old(View()), ks[..i], vs[..i], preserve)
      {
        var k := ks[i];
        var r := match mode
          case NoEviction =>
            if !preserve then (if k.table in next then next[k.table] else 0)
            else if k in rowOf then rowOf[k] else 0
          case Hashed(place) => if k in rowOf then rowOf[k] else place(rowOf, k);
        rowOf := rowOf[k := r];
        if mode.NoEviction? && !preserve { next := next[k.table := r + 1]; }
        buffer := buffer[(k.table, r) := vs[i]];
        assert ks[..i + 1][..i] == ks[..i] && vs[..i + 1][..i] == vs[..i];
      }
      assert ks[..|ks|] == ks && vs[..|vs|] == vs;
    }

    /** Overwrite the rows of stored keys. No key moves. */
    method StoreRows(ks: seq<Key>, vs: seq<Row>)
      requires Valid() && |vs| == |ks| && Distinct(ks)
      requires forall i :: 0 <= i < |ks| ==> ks[i] in rowOf
      modifies this
      ensures Valid() && rowOf == old(rowOf) && Map() == Merge(old(Map()), ks, vs)
    {
      InsertAllMerges(mode, View(), ks, vs, true);
      hide Ok, Merge, Contents, Distinct, InsertAll;
      WriteRows(ks, vs);
    }

    method WriteRows(ks: seq<Key>, vs: seq<Row>)
      requires |vs| == |ks| && forall i :: 0 <= i < |ks| ==> ks[i] in rowOf
      modifies this
      ensures rowOf == old(rowOf) && View() == InsertAll(mode, old(View()), ks, vs, true)
    {
      ghost var st := View();
      hide InsertAll, InsertRow;
      NoneInserted(mode, st);
      for i := 0 to |ks|
        invariant rowOf == st.rowOf && View() == InsertAll(mode, st, ks[..i], vs[..i], true)
      {
        StoredStep(mode, st, ks, vs, i);
        buffer := buffer[(ks[i].table, rowOf[ks[i]]) := vs[i]];
      }
      assert ks[..|ks|] == ks && vs[..|vs|] == vs;
    }

    /** Write evicted or flushed entries; NO_EVICTION splits them by membership first. */
    method WriteBackEntries(ks: seq<Key>, vs: seq<Row>)
      requires Valid() && |vs| == |ks| && Distinct(ks)
      modifies this
      ensures Valid() && RowsStable(old(View()), View())
      ensures Map() == Merge(old(Map()), ks, vs)
    {
      WriteBackMerges(mode, View(), ks, vs);
      if mode.NoEviction? {
        var present, absent := Select(ks, rowOf.Keys, true), Select(ks, rowOf.Keys, false);
        if |present| == |ks| {
          OneSided(View(), ks, vs, true);
          Insert(ks, vs, true);
        } else if |absent| == |ks| {
          OneSided(View(), ks, vs, false);
          Insert(ks, vs, false);
        } else {
          Insert(Gather(ks, present), Gather(vs, present), true);
          Insert(Gather(ks, absent), Gather(vs, absent), false);
        }
      } else {
        Insert(ks, vs, false);
      }
    }
  }

  lemma NoneInserted(mode: Mode, st: Store)
    ensures InsertAll(mode, st, [], [], true) == st
  {
  }

  /** Inserting one more stored key with `preserve` only writes its row. */
  lemma {:induction false} StoredStep(mode: Mode, st: Store, ks: seq<Key>, vs: seq<Row>, i: nat)
    requires |vs| == |ks| && i < |ks|
    requires var mid := InsertAll(mode, st, ks[..i], vs[..i], true); ks[i] in mid.rowOf
    ensures var mid := InsertAll(mode, st, ks[..i], vs[..i], true);
      InsertAll(mode, st, ks[..i + 1], vs[..i + 1], true)
      == mid.(buffer := mid.buffer[(ks[i].table, mid.rowOf[ks[i]]) := vs[i]])
  {
    assert ks[..i + 1][..i] == ks[..i] && vs[..i + 1][..i] == vs[..i];
    var mid := InsertAll(mode, st, ks[..i], vs[..i], true);
    assert mid.rowOf[ks[i] := mid.rowOf[ks[i]]] == mid.rowOf;
  }

  /** When all keys, or none, are present the split is a single insert of the batch. */
  lemma {:induction false} OneSided(st: Store, ks: seq<Key>, vs: seq<Row>, want: bool)
    requires |vs| == |ks| && |Select(ks, st.rowOf.Keys, want)| == |ks|
    ensures WriteBack(NoEviction, st, ks, vs) == InsertAll(NoEviction, st, ks, vs, want)
  {
    SelectAll(ks, vs, st.rowOf.Keys, want);
  }

  lemma {:induction false} SelectAll(ks: seq<Key>, vs: seq<Row>, dom: set<Key>, want: bool)
    requires |vs| == |ks| && |Select(ks, dom, want)| == |ks|
    ensures Gather(ks, Select(ks, dom, want)) == ks && Gather(vs, Select(ks, dom, want)) == vs
    ensures Select(ks, dom, !want) == []
  {
    var mask := seq(|ks|, i requires 0 <= i < |ks| => (ks[i] in dom) == want);
    FullPositions(mask);
    NoPositions(seq(|ks|, i requires 0 <= i < |ks| => (ks[i] in dom) == !want));
  }

  lemma {:induction false} NoPositions(mask: seq<bool>)
    requires forall i :: 0 <= i < |mask| ==> !mask[i]
    ensures Positions(mask) == []
  {
    if |mask| > 0 { NoPositions(mask[..|mask| - 1]); }
  }

  /** A mask that selects as many positions as it has selects them all, in order. */
  lemma {:induction false} FullPositions(mask: seq<bool>)
    requires |Positions(mask)| == |mask|
    ensures forall i :: 0 <= i < |mask| ==> mask[i] && Positions(mask)[i] == i
  {
    if |mask| > 0 {
      var n := |mask| - 1;
      assert mask[n];
      FullPositions(mask[..n]);
    }
  }
}
