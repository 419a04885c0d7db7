/** Where a slot's reference counter lives: the index that pinning writes and the index that
    eviction reads, for several tables in one counter array with an overflow region per table. */
module CounterLayout {

  function Times(a: nat, b: nat): nat { a * b }

  /** `offsets` are the bucket offsets of the tables, one more than there are tables. */
  datatype Counters = Counters(offsets: seq<nat>, bucket: nat, overflow: nat) {
    ghost predicate Ok() {
      && |offsets| > 1 && offsets[0] == 0 && bucket > 0
      && forall t, u :: 0 <= t <= u < |offsets| ==> offsets[t] <= offsets[u]
    }
    function Tables(): nat requires |offsets| > 1 { |offsets| - 1 }
    /** Bucket slots and overflow slots of all tables. */
    function Total(): nat requires |offsets| > 1 { Main() + Times(Tables(), overflow) }
    function Main(): nat requires |offsets| > 1 { Times(offsets[|offsets| - 1], bucket) }
    /** Bucket slots of a table; higher slot numbers are its overflow slots. */
    function TableSlots(t: nat): nat
      requires t + 1 < |offsets| && offsets[t] <= offsets[t + 1]
    {
      Times(offsets[t + 1] - offsets[t], bucket)
    }

    /** The counter that pinning increments and unpinning decrements. */
    function PinIndex(t: nat, slot: nat): nat
      requires Ok() && t < Tables() && slot < TableSlots(t) + overflow
    {
      if slot < TableSlots(t) then Times(offsets[t], bucket) + slot
      else Main() + Times(t, overflow) + (slot - TableSlots(t))
    }

    /** The counter that an eviction of the slot looks at. */
    function CheckIndex(t: nat, slot: nat): nat
      requires Ok() && t < Tables() && slot < TableSlots(t) + overflow
    {
      if slot < TableSlots(t) then slot
      else Main() + (Times(t, overflow) + (slot - TableSlots(t)))
    }

    ghost predicate Slot(t: nat, slot: nat) {
      Ok() && t < Tables() && slot < TableSlots(t) + overflow
    }
  }

  lemma Product(a: nat, b: nat)
    requires b > 0
    ensures Times(a, b) == 0 <==> a == 0
  {
    if a > 0 { assert a * b >= b; }
  }

  lemma ProductMonotone(a: nat, b: nat, c: nat)
    requires a <= b
    ensures Times(a, c) <= Times(b, c) && Times(b - a, c) == Times(b, c) - Times(a, c)
  {
  }

  /** Pinning itself is sound: different slots have different counters. */
  lemma PinsApart(c: Counters, t: nat, s: nat, u: nat, r: nat)
    requires c.Slot(t, s) && c.Slot(u, r) && (t != u || s != r)
    ensures c.PinIndex(t, s) != c.PinIndex(u, r)
  {
    hide Times;
    if t < u {
      TablesApart(c, t, s, u, r);
    } else if u < t {
      TablesApart(c, u, r, t, s);
    } else {
      PinRegion(c, t, s);
      PinRegion(c, t, r);
    }
  }

  lemma TablesApart(c: Counters, t: nat, s: nat, u: nat, r: nat)
    requires c.Slot(t, s) && c.Slot(u, r) && t < u
    ensures c.PinIndex(t, s) != c.PinIndex(u, r)
  {
    hide Times;
    PinRegion(c, t, s);
    PinRegion(c, u, r);
    ProductMonotone(c.offsets[t + 1], c.offsets[u], c.bucket);
    ProductMonotone(t + 1, u, c.overflow);
  }

  lemma PinRegion(c: Counters, t: nat, s: nat)
    requires c.Slot(t, s)
    ensures var i := c.PinIndex(t, s);
      if s < c.TableSlots(t) then Times(c.offsets[t], c.bucket) <= i < Times(c.offsets[t + 1], c.bucket) <= c.Main()
      else c.Main() + Times(t, c.overflow) <= i < c.Main() + Times(t + 1, c.overflow)
  {
    ProductMonotone(c.offsets[t], c.offsets[t + 1], c.bucket);
    ProductMonotone(c.offsets[t + 1], c.offsets[|c.offsets| - 1], c.bucket);
    assert Times(t + 1, c.overflow) == Times(t, c.overflow) + c.overflow;
    hide Times;
  }

  /** An eviction sees the pins of a slot if and only if the slot is an overflow slot or its
      table comes first, with no bucket before it. */
  lemma PinSeenIff(c: Counters, t: nat, slot: nat)
    requires c.Slot(t, slot)
    ensures c.CheckIndex(t, slot) == c.PinIndex(t, slot) <==> slot >= c.TableSlots(t) || c.offsets[t] == 0
  {
    Product(c.offsets[t], c.bucket);
  }

  /** So all pins of a group of tables are seen exactly when only one of them, the first with
      buckets, has any. */
  lemma AllPinsSeenIff(c: Counters)
    requires c.Ok()
    ensures (forall t, s :: c.Slot(t, s) ==> c.CheckIndex(t, s) == c.PinIndex(t, s))
      <==> (forall t :: 0 <= t < c.Tables() && c.offsets[t] > 0 ==> c.offsets[t + 1] == c.offsets[t])
  {
    if forall t :: 0 <= t < c.Tables() && c.offsets[t] > 0 ==> c.offsets[t + 1] == c.offsets[t] {
      forall t, s | c.Slot(t, s) ensures c.CheckIndex(t, s) == c.PinIndex(t, s) {
        PinSeenIff(c, t, s);
      }
    } else {
      var t :| 0 <= t < c.Tables() && c.offsets[t] > 0 && c.offsets[t + 1] != c.offsets[t];
      Product(c.offsets[t + 1] - c.offsets[t], c.bucket);
      assert c.Slot(t, 0);
      PinSeenIff(c, t, 0);
    }
  }

  /** At most one table has buckets. */
  ghost predicate OneTable(c: Counters)
    requires c.Ok()
  {
    forall t :: 0 <= t < c.Tables() && c.offsets[t] > 0 ==> c.offsets[t + 1] == c.offsets[t]
  }

  /** The last table, from `t` down, whose buckets begin at or before counter `f`. */
  function TableFrom(c: Counters, f: nat, t: nat): (r: nat)
    requires c.Ok() && t < c.Tables()
    ensures r <= t && Times(c.offsets[r], c.bucket) <= f
  {
    if t == 0 || Times(c.offsets[t], c.bucket) <= f then t else TableFrom(c, f, t - 1)
  }

  function TableOf(c: Counters, f: nat): (t: nat)
    requires c.Ok()
    ensures t < c.Tables() && Times(c.offsets[t], c.bucket) <= f
  {
    TableFrom(c, f, c.Tables() - 1)
  }

  lemma {:induction false} TableFromIs(c: Counters, f: nat, t: nat, u: nat)
    requires c.Ok() && t <= u < c.Tables()
    requires Times(c.offsets[t], c.bucket) <= f < Times(c.offsets[t + 1], c.bucket)
    ensures TableFrom(c, f, u) == t
    decreases u
  {
    if t < u {
      ProductMonotone(c.offsets[t + 1], c.offsets[u], c.bucket);
      hide Times;
      TableFromIs(c, f, t, u - 1);
    }
  }

  lemma {:induction false} TableFromBelow(c: Counters, f: nat, t: nat)
    requires c.Ok() && t < c.Tables() && f < Times(c.offsets[t + 1], c.bucket)
    ensures f < Times(c.offsets[TableFrom(c, f, t) + 1], c.bucket)
  {
    hide Times;
    if t > 0 && Times(c.offsets[t], c.bucket) > f { TableFromBelow(c, f, t - 1); }
  }

  /** The counter an eviction of counter `f`'s slot looks at. */
  function CheckOf(c: Counters, f: nat): nat
    requires c.Ok()
  {
    if f < c.Main() then f - Times(c.offsets[TableOf(c, f)], c.bucket) else f
  }

  /** In the numbering by pin counters, eviction looks where `CheckOf` says. */
  lemma CheckOfPin(c: Counters, t: nat, slot: nat)
    requires c.Slot(t, slot)
    ensures CheckOf(c, c.PinIndex(t, slot)) == c.CheckIndex(t, slot)
  {
    PinRegion(c, t, slot);
    if slot < c.TableSlots(t) { TableFromIs(c, c.PinIndex(t, slot), t, c.Tables() - 1); }
  }

  /** Every counter is checked for its own slot if and only if at most one table has buckets. */
  lemma CheckOfHonestIff(c: Counters)
    requires c.Ok()
    ensures (forall f: nat :: f < c.Total() ==> CheckOf(c, f) == f) <==> OneTable(c)
  {
    if OneTable(c) {
      forall f: nat | f < c.Total() ensures CheckOf(c, f) == f {
        if f < c.Main() {
          var t := TableOf(c, f);
          TableFromBelow(c, f, c.Tables() - 1);
          ProductMonotone(c.offsets[t], c.offsets[t + 1], c.bucket);
          Product(c.offsets[t], c.bucket);
        }
      }
    } else {
      var t :| 0 <= t < c.Tables() && c.offsets[t] > 0 && c.offsets[t + 1] != c.offsets[t];
      BucketsChecked(c, t, 0);
      Product(c.offsets[t], c.bucket);
      assert c.PinIndex(t, 0) < c.Total();
    }
  }

  /** A bucket slot of table `t` is checked at its number within the table. */
  lemma BucketsChecked(c: Counters, t: nat, slot: nat)
    requires c.Ok() && t < c.Tables()
    requires c.offsets[t] < c.offsets[t + 1] && slot < c.bucket
    ensures c.Slot(t, slot) && c.PinIndex(t, slot) == Times(c.offsets[t], c.bucket) + slot < c.Main()
    ensures CheckOf(c, c.PinIndex(t, slot)) == slot
  {
    assert Times(1, c.bucket) == c.bucket;
    ProductMonotone(1, c.offsets[t + 1] - c.offsets[t], c.bucket);
    hide Times;
    PinRegion(c, t, slot);
    CheckOfPin(c, t, slot);
  }

  /** Two tables of one 128-slot bucket each, with overflow regions of 384: a pin on slot 5 of the
      second table is written to counter 133, and the eviction looks at counter 5; slot 7 of the
      overflow region of the second table is counter 256 + 384 + 7 for both. */
  lemma SecondTableUnseen()
    ensures var c := Counters([0, 1, 2], 128, 384);
      && c.Slot(1, 5) && c.PinIndex(1, 5) == 133 && c.CheckIndex(1, 5) == 5
      && c.Slot(1, 135) && c.PinIndex(1, 135) == 647 == c.CheckIndex(1, 135)
  {
  }
}
