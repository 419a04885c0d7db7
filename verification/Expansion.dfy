/** Growing a table: a larger key index is filled from the old one, and the value rows are
    moved inside the same, extended buffer to the slots the new index chose. */
module Expansion {
  import opened Common

  /** Writing `vals` at `idx` in order, a later write winning over an earlier one. */
  ghost function StoreAll(buffer: seq<Row>, idx: seq<nat>, vals: seq<Row>): (r: seq<Row>)
    requires |vals| == |idx| && forall i :: 0 <= i < |idx| ==> idx[i] < |buffer|
    ensures |r| == |buffer|
  {
    if idx == [] then buffer
    else var n := |idx| - 1; StoreAll(buffer, idx[..n], vals[..n])[idx[n] := vals[n]]
  }

  /** A row written last at position `i`, or never written. */
  lemma {:induction false} StoredAt(buffer: seq<Row>, idx: seq<nat>, vals: seq<Row>, i: nat)
    requires |vals| == |idx| && forall j :: 0 <= j < |idx| ==> idx[j] < |buffer|
    requires i < |idx| && forall j :: i < j < |idx| ==> idx[j] != idx[i]
    ensures StoreAll(buffer, idx, vals)[idx[i]] == vals[i]
    decreases |idx|
  {
    var n := |idx| - 1;
    if i < n { StoredAt(buffer, idx[..n], vals[..n], i); }
  }

  lemma {:induction false} NotStored(buffer: seq<Row>, idx: seq<nat>, vals: seq<Row>, s: nat)
    requires |vals| == |idx| && forall j :: 0 <= j < |idx| ==> idx[j] < |buffer|
    requires s < |buffer| && s !in idx
    ensures StoreAll(buffer, idx, vals)[s] == buffer[s]
    decreases |idx|
  {
    if idx != [] { NotStored(buffer, idx[..|idx| - 1], vals[..|idx| - 1], s); }
  }

  lemma {:induction false} StoreAllAppend(buffer: seq<Row>, idx: seq<nat>, vals: seq<Row>, idx': seq<nat>,
                                          vals': seq<Row>)
    requires |vals| == |idx| && |vals'| == |idx'|
    requires forall j :: 0 <= j < |idx| ==> idx[j] < |buffer|
    requires forall j :: 0 <= j < |idx'| ==> idx'[j] < |buffer|
    ensures StoreAll(buffer, idx + idx', vals + vals') == StoreAll(StoreAll(buffer, idx, vals), idx', vals')
    decreases |idx'|
  {
    if idx' == [] {
      assert idx + idx' == idx && vals + vals' == vals;
    } else {
      var n := |idx'| - 1;
      StoreAllAppend(buffer, idx, vals, idx'[..n], vals'[..n]);
      assert (idx + idx')[..|idx| + n] == idx + idx'[..n] && (vals + vals')[..|idx| + n] == vals + vals'[..n];
    }
  }

  /** All rows are read before any is written: exactly the placements that give every key a
      slot of its own carry every row over, whatever the buffer holds and however source and
      destination rows overlap. */
  lemma LoadFirstExactIff(n: nat, src: seq<nat>, dst: seq<nat>)
    requires |dst| == |src| && Distinct(src)
    requires forall i :: 0 <= i < |src| ==> src[i] < n && dst[i] < n
    ensures (forall buffer: seq<Row> :: |buffer| == n ==> Moved(buffer, src, dst)) <==> Distinct(dst)
  {
    hide Moved;
    if Distinct(dst) {
      forall buffer: seq<Row> | |buffer| == n ensures Moved(buffer, src, dst) { DistinctMoves(buffer, src, dst); }
    } else {
      DistinctIsPairwise(dst);
      DistinctIsPairwise(src);
      hide Distinct;
      var i, j :| 0 <= i < j < |dst| && dst[i] == dst[j];
      var buffer := SharedSlotLoses(n, src, dst, i, j);
    }
  }

  /** Two keys sent to one slot: some buffer loses a row. */
  lemma SharedSlotLoses(n: nat, src: seq<nat>, dst: seq<nat>, i: nat, j: nat) returns (buffer: seq<Row>)
    requires |dst| == |src| && forall k :: 0 <= k < |src| ==> src[k] < n && dst[k] < n
    requires i < j < |src| && src[i] != src[j] && dst[i] == dst[j]
    ensures |buffer| == n && !Moved(buffer, src, dst)
  {
    buffer := seq(n, s => if s == src[i] then [0.0] else []);
    assert |buffer[src[i]]| == 1 && |buffer[src[j]]| == 0;
    hide StoreAll;
    var after := StoreAll(buffer, dst, Gather(buffer, src));
    assert after[dst[i]] != buffer[src[i]] || after[dst[j]] != buffer[src[j]];
  }

  ghost predicate Moved(buffer: seq<Row>, src: seq<nat>, dst: seq<nat>)
    requires |dst| == |src| && forall i :: 0 <= i < |src| ==> src[i] < |buffer| && dst[i] < |buffer|
  {
    forall i :: 0 <= i < |dst| ==> StoreAll(buffer, dst, Gather(buffer, src))[dst[i]] == buffer[src[i]]
  }

  lemma DistinctMoves(buffer: seq<Row>, src: seq<nat>, dst: seq<nat>)
    requires |dst| == |src| && Distinct(dst) && forall i :: 0 <= i < |src| ==> src[i] < |buffer| && dst[i] < |buffer|
    ensures Moved(buffer, src, dst)
  {
    DistinctIsPairwise(dst);
    forall i | 0 <= i < |dst| ensures StoreAll(buffer, dst, Gather(buffer, src))[dst[i]] == buffer[src[i]] {
      StoredAt(buffer, dst, Gather(buffer, src), i);
    }
  }

  /** Moving one entry at a time instead: each row is read after the earlier writes. */
  ghost function MoveOneByOne(buffer: seq<Row>, src: seq<nat>, dst: seq<nat>): (r: seq<Row>)
    requires |dst| == |src| && forall i :: 0 <= i < |src| ==> src[i] < |buffer| && dst[i] < |buffer|
    ensures |r| == |buffer|
  {
    if src == [] then buffer
    else
      var n := |src| - 1;
      var mid := MoveOneByOne(buffer, src[..n], dst[..n]);
      mid[dst[n] := mid[src[n]]]
  }

  /** Reading all rows first is needed: two keys that swap rows lose one of them otherwise. */
  lemma OneByOneLosesRows(a: Row, b: Row)
    requires a != b
    ensures MoveOneByOne([a, b], [0, 1], [1, 0]) == [a, a]
    ensures StoreAll([a, b], [1, 0], Gather([a, b], [0, 1])) == [b, a]
  {
    assert [0, 1][..1] == [0] && [1, 0][..1] == [1];
    assert MoveOneByOne([a, b], [0], [1]) == [a, a];
    var g := Gather([a, b], [0, 1]);
    assert g == [a, b] && g[..1] == [a];
    assert StoreAll([a, b], [1], [a]) == [a, a];
  }

  /** One loaded batch: where its rows go, and the rows. */
  datatype Loaded = Loaded(dst: seq<nat>, rows: seq<Row>)

  ghost function Targets(bs: seq<Loaded>): seq<nat> {
    if bs == [] then [] else Targets(bs[..|bs| - 1]) + bs[|bs| - 1].dst
  }

  ghost function Rows(bs: seq<Loaded>): seq<Row> {
    if bs == [] then [] else Rows(bs[..|bs| - 1]) + bs[|bs| - 1].rows
  }

  ghost predicate Whole(bs: seq<Loaded>) {
    forall i :: 0 <= i < |bs| ==> |bs[i].rows| == |bs[i].dst|
  }

  lemma {:induction false} SameLength(bs: seq<Loaded>)
    requires Whole(bs)
    ensures |Rows(bs)| == |Targets(bs)|
  {
    if bs != [] { SameLength(bs[..|bs| - 1]); }
  }

  method LoadBatch(values: array<Row>, src: seq<nat>) returns (rows: seq<Row>)
    requires forall i :: 0 <= i < |src| ==> src[i] < values.Length
    ensures rows == Gather(values[..], src)
  {
    rows := [];
    for i := 0 to |src|
      invariant |rows| == i && forall j :: 0 <= j < i ==> rows[j] == values[src[j]]
    {
      rows := rows + [values[src[i]]];
    }
  }

  /** Load the rows of the exported slots, batch by batch. */
  method LoadAll(values: array<Row>, src: seq<nat>, dst: seq<nat>, batch: nat) returns (bs: seq<Loaded>)
    requires batch > 0 && |dst| == |src| && forall i :: 0 <= i < |src| ==> src[i] < values.Length
    ensures Whole(bs) && Targets(bs) == dst && Rows(bs) == Gather(values[..], src)
  {
    bs := [];
    var at := 0;
    ghost var rows := Gather(values[..], src);
    while at < |src|
      invariant 0 <= at <= |src| && Whole(bs) && Targets(bs) == dst[..at] && Rows(bs) == rows[..at]
    {
      var to := if at + batch < |src| then at + batch else |src|;
      var part := LoadBatch(values, src[at..to]);
      assert part == rows[at..to];
      assert rows[..to] == rows[..at] + rows[at..to] && dst[..to] == dst[..at] + dst[at..to];
      var next := bs + [Loaded(dst[at..to], part)];
      assert next[..|next| - 1] == bs;
      bs, at := next, to;
    }
    assert dst[..at] == dst && rows[..at] == rows;
  }

  /** Write one batch. */
  method StoreBatch(values: array<Row>, idx: seq<nat>, rows: seq<Row>)
    requires |rows| == |idx| && forall i :: 0 <= i < |idx| ==> idx[i] < values.Length
    modifies values
    ensures values[..] == StoreAll(old(values[..]), idx, rows)
  {
    ghost var was := values[..];
    for i := 0 to |idx|
      invariant values[..] == StoreAll(was, idx[..i], rows[..i])
    {
      assert idx[..i + 1][..i] == idx[..i] && rows[..i + 1][..i] == rows[..i];
      values[idx[i]] := rows[i];
    }
    assert idx[..|idx|] == idx && rows[..|rows|] == rows;
  }

  lemma {:induction false} TargetsPrefix(bs: seq<Loaded>, i: nat)
    requires i <= |bs|
    ensures Targets(bs[..i]) <= Targets(bs)
    decreases |bs|
  {
    if i == |bs| {
      assert bs[..i] == bs;
    } else {
      TargetsPrefix(bs[..|bs| - 1], i);
      assert bs[..|bs| - 1][..i] == bs[..i];
    }
  }

  lemma {:induction false} BatchTargets(bs: seq<Loaded>, i: nat, n: nat)
    requires i < |bs| && forall j :: 0 <= j < |Targets(bs)| ==> Targets(bs)[j] < n
    ensures forall j :: 0 <= j < |bs[i].dst| ==> bs[i].dst[j] < n
  {
    var pre := Targets(bs[..i]);
    TargetsPrefix(bs, i + 1);
    assert bs[..i + 1][..i] == bs[..i];
    forall j | 0 <= j < |bs[i].dst| ensures bs[i].dst[j] < n {
      assert Targets(bs)[|pre| + j] == Targets(bs[..i + 1])[|pre| + j] == bs[i].dst[j];
    }
  }

  /** Write the loaded batches one after the other. */
  method StoreBatches(values: array<Row>, bs: seq<Loaded>)
    requires Whole(bs) && forall i :: 0 <= i < |Targets(bs)| ==> Targets(bs)[i] < values.Length
    modifies values
    ensures |Rows(bs)| == |Targets(bs)|
    ensures values[..] == StoreAll(old(values[..]), Targets(bs), Rows(bs))
  {
    ghost var was := values[..];
    for i := 0 to |bs|
      invariant |Rows(bs[..i])| == |Targets(bs[..i])|
      invariant Targets(bs[..i]) <= Targets(bs)
      invariant values[..] == StoreAll(was, Targets(bs[..i]), Rows(bs[..i]))
    {
      assert bs[..i + 1][..i] == bs[..i];
      TargetsPrefix(bs, i + 1);
      BatchTargets(bs, i, values.Length);
      StoreAllAppend(was, Targets(bs[..i]), Rows(bs[..i]), bs[i].dst, bs[i].rows);
      StoreBatch(values, bs[i].dst, bs[i].rows);
    }
    assert bs[..|bs|] == bs;
  }

  /** `row` names a different row for every key. */
  ghost predicate OneRowEach(row: map<Key, nat>) {
    forall j, k :: j in row && k in row && row[j] == row[k] ==> j == k
  }

  /** The rows an index names. */
  ghost function Through(row: map<Key, nat>, rows: seq<Row>): map<Key, Row>
    requires forall k :: k in row ==> row[k] < |rows|
  {
    map k | k in row :: rows[row[k]]
  }

  lemma ThroughPrefix(row: map<Key, nat>, was: seq<Row>, now: seq<Row>)
    requires |was| <= |now| && now[..|was|] == was && forall k :: k in row ==> row[k] < |was|
    ensures Through(row, now) == Through(row, was)
  {
    forall k | k in row ensures now[row[k]] == was[row[k]] { assert now[..|was|][row[k]] == now[row[k]]; }
  }

  /** How many value rows an expansion adds: as many as slots, or as many as there are where no
      target is given. */
  ghost function AddedRows(rows: nat, capacity: nat, target: int): nat {
    if target < 0 then rows else if target > capacity then target - capacity else 0
  }

  /** Capacity, index, scores and value rows of a table. Under NO_EVICTION the row of a key is its
      score, otherwise its slot. */
  datatype TableView = TableView(noEviction: bool, capacity: nat, slotOf: map<Key, nat>, scoreOf: map<Key, nat>,
                                 rows: seq<Row>)
  {
    ghost function RowOf(): map<Key, nat> { if noEviction then scoreOf else slotOf }

    ghost predicate Ok() {
      && slotOf.Keys == scoreOf.Keys
      && (!noEviction ==> capacity <= |rows|)
      && (forall k :: k in slotOf ==> slotOf[k] < capacity)
      && OneRowEach(slotOf)
      && (forall k :: k in RowOf() ==> RowOf()[k] < |rows|)
    }

    ghost function Contents(): map<Key, Row>
      requires Ok()
    {
      Through(RowOf(), rows)
    }
  }

  /** The map is what it was, and under NO_EVICTION so is the row of every key. */
  ghost predicate KeepsMap(was: TableView, now: TableView) {
    was.Ok() && now.Ok() && now.Contents() == was.Contents() && (was.noEviction ==> now.RowOf() == was.RowOf())
  }

  /** The table has the new capacity, its keys are where the rehash put them, with their scores, and
      there are more value rows. */
  ghost predicate Expanded(was: TableView, now: TableView, target: int, order: seq<Key>, dst: seq<nat>) {
    && |dst| == |order|
    && now.capacity == (if target >= 0 then target else 2 * was.capacity)
    && Indexed(order, dst, now.slotOf) && now.scoreOf == was.scoreOf
    && |now.rows| == |was.rows| + AddedRows(|was.rows|, was.capacity, target)
  }

  /** Key index and value rows of one table. */
  class GrowingTable {
    const noEviction: bool
    var capacity: nat
    var slotOf: map<Key, nat>
    var scoreOf: map<Key, nat>
    var values: array<Row>

    ghost function View(): TableView reads this, values {
      TableView(noEviction, capacity, slotOf, scoreOf, values[..])
    }

    ghost predicate Valid() reads this, values { View().Ok() }

    /** Extend the buffer in place by `n` rows. */
    method Extend(n: nat)
      modifies this
      ensures fresh(values) && values.Length == old(values.Length) + n
      ensures values[..old(values.Length)] == old(values[..])
      ensures capacity == old(capacity) && slotOf == old(slotOf) && scoreOf == old(scoreOf)
    {
      var was := values;
      values := new Row[was.Length + n](i requires 0 <= i reads was => if i < was.Length then was[i] else []);
    }

    /** Make room for `target` slots, or for twice the rows where no target is given. */
    method MakeRoom(target: int)
      requires Valid()
      modifies this
      ensures (values == old(values) || fresh(values)) && KeepsMap(old(View()), View())
      ensures capacity == old(capacity) && slotOf == old(slotOf) && scoreOf == old(scoreOf)
      ensures !noEviction ==> values.Length >= if target >= 0 then target else 2 * capacity
      ensures values.Length == old(values.Length) + AddedRows(old(values.Length), capacity, target)
    {
      hide Through, OneRowEach;
      ghost var was, row := values[..], View().RowOf();
      if target < 0 {
        Extend(values.Length);
        ThroughPrefix(row, was, values[..]);
      } else if target > capacity {
        Extend(target - capacity);
        ThroughPrefix(row, was, values[..]);
      }
    }

    /** Grow to `target` slots, or to twice the capacity where no target is given. The exported keys
        are inserted into an empty index with their exported scores, in `order`, at `dst`. */
    method Expand(target: int, order: seq<Key>, dst: seq<nat>, batch: nat)
      requires Valid() && batch > 0
      requires Distinct(order) && (forall k :: k in order <==> k in slotOf)
      requires |dst| == |order| && Distinct(dst)
      requires forall i :: 0 <= i < |dst| ==> dst[i] < if target >= 0 then target else 2 * capacity
      modifies this, values
      ensures values == old(values) || fresh(values)
      ensures KeepsMap(old(View()), View()) && Expanded(old(View()), View(), target, order, dst)
    {
      hide Distinct, Through, Rebuilt, OneRowEach, Indexed, KeepsMap;
      ghost var first := View();
      MakeRoom(target);
      ghost var was := View();
      RoomMade(first, was);
      var src := SlotsOf(slotOf, order);
      if !noEviction { MoveRows(values, src, dst, batch); }
      var scores := SlotsOf(scoreOf, order);
      capacity := if target >= 0 then target else 2 * capacity;
      slotOf, scoreOf := Reinsert(order, dst, scores, batch);
      RehashedView(was, View(), order, src, dst);
      KeptAfter(first, was, View());
    }
  }

  lemma RoomMade(first: TableView, was: TableView)
    requires KeepsMap(first, was)
    ensures was.Ok()
  {
  }

  lemma KeptAfter(first: TableView, mid: TableView, last: TableView)
    requires KeepsMap(first, mid) && KeepsMap(mid, last) && mid.noEviction == first.noEviction
    ensures KeepsMap(first, last)
  {
  }

  lemma KeptSame(was: TableView)
    requires was.Ok()
    ensures KeepsMap(was, was)
  {
  }

  /** A table whose index was rebuilt, and whose rows were moved along unless they are scores, keeps
      its map. */
  lemma RehashedView(was: TableView, now: TableView, order: seq<Key>, src: seq<nat>, dst: seq<nat>)
    requires was.Ok() && now.noEviction == was.noEviction && |now.rows| == |was.rows|
    requires Distinct(order) && (forall k :: k in order <==> k in was.slotOf) && src == SlotsOf(was.slotOf, order)
    requires |dst| == |order| && Distinct(dst) && forall i :: 0 <= i < |dst| ==> dst[i] < now.capacity
    requires if was.noEviction then now.rows == was.rows
      else now.capacity <= |now.rows| && forall i :: 0 <= i < |dst| ==> now.rows[dst[i]] == was.rows[src[i]]
    requires now.slotOf == Rebuilt(order, dst) && now.scoreOf == Rebuilt(order, SlotsOf(was.scoreOf, order))
    ensures KeepsMap(was, now) && Indexed(order, dst, now.slotOf) && now.scoreOf == was.scoreOf
  {
    KeysAndBounds(was);
    hide Distinct, Through, Rebuilt, OneRowEach, Indexed, KeepsMap, TableView.Ok;
    RebuiltSame(was.scoreOf, order);
    RebuiltApart(order, dst);
    SlotsBelow(now.slotOf, dst, now.capacity);
    if was.noEviction {
      SameKeys(was.slotOf, order, dst);
      KeptRows(was, now);
    } else {
      MovedContents(was.rows, now.rows, was.slotOf, order, src, dst);
      MovedRows(was, now);
    }
  }

  lemma KeysAndBounds(was: TableView)
    requires was.Ok()
    ensures was.slotOf.Keys == was.scoreOf.Keys && forall k :: k in was.scoreOf <==> k in was.slotOf
    ensures !was.noEviction ==> forall k :: k in was.slotOf ==> was.slotOf[k] < |was.rows|
  {
    assert forall k :: k in was.scoreOf.Keys <==> k in was.slotOf.Keys;
  }

  lemma KeptRows(was: TableView, now: TableView)
    requires was.Ok() && was.noEviction && now.noEviction && now.rows == was.rows && now.scoreOf == was.scoreOf
    requires now.slotOf.Keys == was.slotOf.Keys && OneRowEach(now.slotOf)
    requires forall k :: k in now.slotOf ==> now.slotOf[k] < now.capacity
    ensures KeepsMap(was, now)
  {
    assert now.RowOf() == was.RowOf();
  }

  lemma MovedRows(was: TableView, now: TableView)
    requires was.Ok() && !was.noEviction && !now.noEviction && now.scoreOf == was.scoreOf
    requires now.slotOf.Keys == was.slotOf.Keys && OneRowEach(now.slotOf) && now.capacity <= |now.rows|
    requires forall k :: k in now.slotOf ==> now.slotOf[k] < now.capacity
    requires forall k :: k in was.slotOf ==> was.slotOf[k] < |was.rows|
    requires Through(now.slotOf, now.rows) == Through(was.slotOf, was.rows)
    ensures KeepsMap(was, now)
  {
    hide Through, OneRowEach;
  }

  lemma SlotsBelow(slotOf: map<Key, nat>, dst: seq<nat>, n: nat)
    requires (forall k :: k in slotOf ==> slotOf[k] in dst) && forall i :: 0 <= i < |dst| ==> dst[i] < n
    ensures forall k :: k in slotOf ==> slotOf[k] < n
  {
  }

  /** Insert exported keys into an empty index, batch by batch, assigning their scores. */
  method Reinsert(order: seq<Key>, dst: seq<nat>, scores: seq<nat>, batch: nat)
    returns (slotOf: map<Key, nat>, scoreOf: map<Key, nat>)
    requires |dst| == |scores| == |order| && Distinct(order) && batch > 0
    ensures slotOf == Rebuilt(order, dst) && scoreOf == Rebuilt(order, scores)
  {
    slotOf, scoreOf := map[], map[];
    assert order[..0] == [] && dst[..0] == [] && scores[..0] == [];
    assert slotOf == Rebuilt([], []);
    hide Rebuilt;
    var at := 0;
    while at < |order|
      invariant 0 <= at <= |order|
      invariant slotOf == Rebuilt(order[..at], dst[..at]) && scoreOf == Rebuilt(order[..at], scores[..at])
    {
      var to := if at + batch < |order| then at + batch else |order|;
      slotOf := InsertBatch(slotOf, order, dst, at, to);
      scoreOf := InsertBatch(scoreOf, order, scores, at, to);
      at := to;
    }
    assert order[..at] == order && dst[..at] == dst && scores[..at] == scores;
  }

  /** One batch of the re-insertion, for slots or for scores. */
  method InsertBatch(m: map<Key, nat>, order: seq<Key>, vals: seq<nat>, at: nat, to: nat) returns (r: map<Key, nat>)
    requires |vals| == |order| && at <= to <= |order| && m == Rebuilt(order[..at], vals[..at])
    ensures r == Rebuilt(order[..to], vals[..to])
  {
    hide Rebuilt;
    r := m;
    for i := at to to
      invariant r == Rebuilt(order[..i], vals[..i])
    {
      RebuiltStep(order, vals, i);
      r := r[order[i] := vals[i]];
    }
  }

  /** What a rehash of one table may choose: every exported key gets a slot of its own. */
  ghost predicate Rehash(t: GrowingTable, target: int, order: seq<Key>, dst: seq<nat>)
    reads t
  {
    && Distinct(order) && (forall k :: k in order <==> k in t.slotOf)
    && |dst| == |order| && Distinct(dst)
    && forall i :: 0 <= i < |dst| ==> dst[i] < if target >= 0 then target else 2 * t.capacity
  }

  /** Expand the chosen tables, and no other. Every table keeps its map, and under NO_EVICTION its rows. */
  method ExpandTables(ts: seq<GrowingTable>, expand: seq<bool>, targets: seq<int>,
                      orders: seq<seq<Key>>, dsts: seq<seq<nat>>, batch: nat)
    requires batch > 0 && |expand| == |targets| == |orders| == |dsts| == |ts|
    requires forall i, j :: 0 <= i < j < |ts| ==> ts[i] != ts[j] && ts[i].values != ts[j].values
    requires forall i :: 0 <= i < |ts| ==> ts[i].Valid()
    requires forall i :: 0 <= i < |ts| && expand[i] ==> Rehash(ts[i], targets[i], orders[i], dsts[i])
    modifies set i | 0 <= i < |ts| :: ts[i]
    modifies set i | 0 <= i < |ts| :: ts[i].values
    ensures forall i :: 0 <= i < |ts| ==> KeepsMap(old(ts[i].View()), ts[i].View())
    ensures forall i :: 0 <= i < |ts| && expand[i] ==>
      Expanded(old(ts[i].View()), ts[i].View(), targets[i], orders[i], dsts[i])
    ensures forall i :: 0 <= i < |ts| && !expand[i] ==> ts[i].View() == old(ts[i].View())
  {
    hide Distinct, Expanded, KeepsMap, TableView.Ok;
    forall i | 0 <= i < |ts| ensures KeepsMap(ts[i].View(), ts[i].View()) {
      assert ts[i].Valid();
      KeptSame(ts[i].View());
    }
    for n := 0 to |ts|
      invariant forall i, j :: 0 <= i < j < |ts| ==> ts[i].values != ts[j].values
      invariant forall i :: 0 <= i < |ts| ==> ts[i].values == old(ts[i].values) || fresh(ts[i].values)
      invariant forall i :: 0 <= i < |ts| ==> KeepsMap(old(ts[i].View()), ts[i].View())
      invariant forall i :: 0 <= i < n && expand[i] ==>
        Expanded(old(ts[i].View()), ts[i].View(), targets[i], orders[i], dsts[i])
      invariant forall i :: 0 <= i < |ts| && (i >= n || !expand[i]) ==> ts[i].View() == old(ts[i].View())
    {
      if expand[n] { ts[n].Expand(targets[n], orders[n], dsts[n], batch); }
    }
  }

  function SlotsOf(slotOf: map<Key, nat>, order: seq<Key>): (src: seq<nat>)
    requires forall k :: k in order ==> k in slotOf
    ensures |src| == |order| && forall i :: 0 <= i < |order| ==> src[i] == slotOf[order[i]]
  {
    seq(|order|, i requires 0 <= i < |order| => assert order[i] in order; slotOf[order[i]])
  }

  /** The index that has the keys of `order` at `dst`. */
  ghost predicate Indexed(order: seq<Key>, dst: seq<nat>, slotOf: map<Key, nat>)
    requires |dst| == |order|
  {
    && (forall k :: k in slotOf <==> k in order)
    && (forall i :: 0 <= i < |order| ==> order[i] in slotOf && slotOf[order[i]] == dst[i])
  }

  /** The map that inserting the keys of `order` with `vals` builds. */
  function Rebuilt(order: seq<Key>, vals: seq<nat>): (m: map<Key, nat>)
    requires |vals| == |order|
    ensures forall k :: k in m <==> k in order
  {
    if order == [] then map[]
    else
      var n := |order| - 1;
      assert order == order[..n] + [order[n]];
      Rebuilt(order[..n], vals[..n])[order[n] := vals[n]]
  }

  lemma {:induction false} RebuiltStep(order: seq<Key>, vals: seq<nat>, i: nat)
    requires |vals| == |order| && i < |order|
    ensures Rebuilt(order[..i + 1], vals[..i + 1]) == Rebuilt(order[..i], vals[..i])[order[i] := vals[i]]
  {
    assert order[..i + 1][..i] == order[..i] && vals[..i + 1][..i] == vals[..i];
  }

  lemma {:induction false} RebuiltIndexed(order: seq<Key>, vals: seq<nat>)
    requires |vals| == |order| && Distinct(order)
    ensures Indexed(order, vals, Rebuilt(order, vals))
  {
    if order != [] {
      var n := |order| - 1;
      PrefixDistinct(order, n);
      RebuiltIndexed(order[..n], vals[..n]);
      var m := Rebuilt(order[..n], vals[..n]);
      forall i | 0 <= i < |order| ensures Rebuilt(order, vals)[order[i]] == vals[i] {
        if i < n { assert order[..n][i] == order[i] && order[i] in order[..n] && m[order[..n][i]] == vals[..n][i]; }
      }
    }
  }

  /** Different slots stay different, and no other slot is used. */
  lemma {:induction false} RebuiltApart(order: seq<Key>, dst: seq<nat>)
    requires |dst| == |order| && Distinct(order) && Distinct(dst)
    ensures OneRowEach(Rebuilt(order, dst)) && Indexed(order, dst, Rebuilt(order, dst))
    ensures forall k :: k in Rebuilt(order, dst) ==> Rebuilt(order, dst)[k] in dst
  {
    var m := Rebuilt(order, dst);
    RebuiltIndexed(order, dst);
    hide Rebuilt;
    forall k | k in m ensures IndexOf(order, k) >= 0 && m[k] == dst[IndexOf(order, k)] {
      assert order[IndexOf(order, k)] == k;
    }
    forall j, k | j in m && k in m && m[j] == m[k] ensures j == k {
      var x, y := IndexOf(order, j), IndexOf(order, k);
      assert dst[x] == dst[y] && IndexOf(dst, dst[x]) == x && IndexOf(dst, dst[y]) == y;
    }
  }

  /** Exporting a map and inserting what was exported gives the map back, in whatever order. */
  lemma {:induction false} RebuiltSame(m: map<Key, nat>, order: seq<Key>)
    requires Distinct(order) && forall k :: k in order <==> k in m
    ensures Rebuilt(order, SlotsOf(m, order)) == m
  {
    var r := Rebuilt(order, SlotsOf(m, order));
    RebuiltIndexed(order, SlotsOf(m, order));
    hide Rebuilt, Distinct;
    forall k | k in m ensures k in r && r[k] == m[k] {
      assert order[IndexOf(order, k)] == k;
    }
    assert forall k :: k in r <==> k in m;
  }

  lemma {:induction false} SameKeys(slotOf: map<Key, nat>, order: seq<Key>, dst: seq<nat>)
    requires |dst| == |order| && forall k :: k in order <==> k in slotOf
    ensures Rebuilt(order, dst).Keys == slotOf.Keys
  {
    var slotOf' := Rebuilt(order, dst);
    hide Rebuilt;
    assert forall k :: k in slotOf' <==> k in order;
  }

  /** Load every row, then store every row. */
  method MoveRows(values: array<Row>, src: seq<nat>, dst: seq<nat>, batch: nat)
    requires batch > 0 && |dst| == |src| && Distinct(dst)
    requires forall i :: 0 <= i < |src| ==> src[i] < values.Length && dst[i] < values.Length
    modifies values
    ensures forall i :: 0 <= i < |dst| ==> values[dst[i]] == old(values[src[i]])
    ensures forall s :: 0 <= s < values.Length && s !in dst ==> values[s] == old(values[s])
  {
    ghost var was := values[..];
    var bs := LoadAll(values, src, dst, batch);
    StoreBatches(values, bs);
    hide StoreAll, Distinct;
    DistinctMoves(was, src, dst);
    forall s | 0 <= s < values.Length && s !in dst ensures values[s] == was[s] {
      NotStored(was, dst, Gather(was, src), s);
    }
    assert Moved(was, src, dst);
  }

  /** Reading the moved buffer through the new index gives what reading the old buffer
      through the old index gave. */
  lemma {:induction false} MovedContents(was: seq<Row>, now: seq<Row>, slotOf: map<Key, nat>, order: seq<Key>,
                                         src: seq<nat>, dst: seq<nat>)
    requires |now| == |was| && |src| == |dst| == |order| && Distinct(order) && Distinct(dst)
    requires forall k :: k in order <==> k in slotOf
    requires forall k :: k in slotOf ==> slotOf[k] < |was|
    requires forall i :: 0 <= i < |order| ==> src[i] == slotOf[order[i]] && dst[i] < |now| && now[dst[i]] == was[src[i]]
    ensures var slotOf' := Rebuilt(order, dst);
      && (forall k :: k in slotOf' ==> slotOf'[k] < |now|)
      && slotOf'.Keys == slotOf.Keys && Through(slotOf', now) == Through(slotOf, was)
  {
    var slotOf' := Rebuilt(order, dst);
    SameKeys(slotOf, order, dst);
    RebuiltIndexed(order, dst);
    hide Rebuilt, Distinct, OneRowEach;
    forall k | k in slotOf' ensures k in slotOf && slotOf'[k] < |now| && now[slotOf'[k]] == was[slotOf[k]] {
      assert order[IndexOf(order, k)] == k;
    }
  }
}
