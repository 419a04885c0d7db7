/** A fast level of slots over a slow level that is a plain map, and what one
    insert-with-eviction does to the map the two levels stand for together. */
module TwoLevel {
  import opened Common
  import opened HashTable
  import opened BackingStore

  ghost function Resident(keys: Slots): set<Key> {
    set s | 0 <= s < |keys| && keys[s].Some? :: keys[s].value
  }

  /** The fast level wins over the slow one. */
  ghost function Logical(keys: Slots, rows: seq<Row>, slow: map<Key, Row>): (m: map<Key, Row>)
    requires |rows| == |keys|
    ensures forall k :: k in m <==> Some(k) in keys || k in slow
    ensures forall k :: k in m ==> m[k] == if Some(k) in keys then rows[SlotOf(keys, k)] else slow[k]
  {
    map k | k in Resident(keys) + slow.Keys ::
      if Some(k) in keys then rows[SlotOf(keys, k)] else slow[k]
  }

  lemma SlotUnique(keys: Slots, k: Key, s: nat)
    requires Injective(keys) && s < |keys| && keys[s] == Some(k)
    ensures SlotOf(keys, k) == s
  {
  }

  /** The slots after an insertion. */
  ghost function After(keys: Slots, ks: seq<Key>, idx: seq<int>): Slots
    requires |idx| == |ks|
  {
    Overlay(keys, idx, Somes(ks))
  }

  /** An insertion leaves every key in at most one slot, and a key is resident afterwards if
      it was placed, or was resident and not displaced. */
  lemma AfterResidents(keys: Slots, refs: seq<int>, ks: seq<Key>, idx: seq<int>)
    requires |refs| == |keys| && GoodPlacement(keys, refs, ks, idx)
    requires Injective(keys) && Distinct(ks)
    requires forall i :: 0 <= i < |ks| ==> Some(ks[i]) !in keys
    ensures Injective(After(keys, ks, idx))
  {
    var now := After(keys, ks, idx);
    forall s | 0 <= s < |now| && now[s].Some? ensures IndexOf(now, now[s]) == s {
      var t := IndexOf(now, now[s]);
      assert now[t] == now[s];
    }
  }

  lemma PlacedAt(keys: Slots, refs: seq<int>, ks: seq<Key>, idx: seq<int>, vals: seq<Row>, rows: seq<Row>, j: nat)
    requires |refs| == |keys| == |rows| && GoodPlacement(keys, refs, ks, idx) && |vals| == |ks|
    requires j < |ks| && idx[j] >= 0
    ensures After(keys, ks, idx)[idx[j]] == Some(ks[j])
    ensures Overlay(rows, idx, vals)[idx[j]] == vals[j]
  {
    assert IndexOf(idx, idx[j]) == j;
  }

  /** The setting of one insert-with-eviction: absent, distinct keys `ks` with values `vals`
      go to the slots `idx`, and each entry of the report `ev` is written to the slow level
      with the row read from its slot before that slot was overwritten. */
  ghost predicate Setting(keys: Slots, refs: seq<int>, rows: seq<Row>, ks: seq<Key>, idx: seq<int>,
                          vals: seq<Row>, ev: seq<Evicted>, evVals: seq<Row>)
  {
    && |refs| == |keys| == |rows| && GoodPlacement(keys, refs, ks, idx)
    && Injective(keys) && Distinct(ks) && |vals| == |ks|
    && (forall i :: 0 <= i < |ks| ==> Some(ks[i]) !in keys)
    && IsReport(keys, ks, idx, ev) && |evVals| == |ev|
    && (forall e :: 0 <= e < |ev| && ev[e].slot >= 0 ==> evVals[e] == rows[ev[e].slot])
  }

  ghost function LogicalAfter(keys: Slots, rows: seq<Row>, slow: map<Key, Row>, ks: seq<Key>, idx: seq<int>,
                              vals: seq<Row>, ev: seq<Evicted>, evVals: seq<Row>): map<Key, Row>
    requires |rows| == |keys| && |idx| == |ks| == |vals| && |evVals| == |ev|
  {
    Logical(After(keys, ks, idx), Overlay(rows, idx, vals), Merge(slow, EvictedKeys(ev), evVals))
  }

  lemma NotResidentAfter(keys: Slots, ks: seq<Key>, idx: seq<int>, k: Key)
    requires |idx| == |ks|
    requires forall s :: 0 <= s < |keys| && keys[s] == Some(k) ==> s in idx
    requires forall i :: 0 <= i < |ks| && ks[i] == k ==> idx[i] < 0
    ensures Some(k) !in After(keys, ks, idx)
  {
    var now := After(keys, ks, idx);
    forall s | 0 <= s < |now| ensures now[s] != Some(k) {
      var j := IndexOf(idx, s);
      if j >= 0 { assert idx[j] == s && now[s] == Some(ks[j]); }
    }
  }

  /** A key that is not inserted keeps its row, wherever it ends up. */
  lemma {:induction false} OtherKeyKept(keys: Slots, refs: seq<int>, rows: seq<Row>, slow: map<Key, Row>,
                     ks: seq<Key>, idx: seq<int>, vals: seq<Row>, ev: seq<Evicted>, evVals: seq<Row>, k: Key)
    requires Setting(keys, refs, rows, ks, idx, vals, ev, evVals) && k !in ks
    ensures var l, m := Logical(keys, rows, slow), LogicalAfter(keys, rows, slow, ks, idx, vals, ev, evVals);
      (k in m <==> k in l) && (k in l ==> m[k] == l[k])
  {
    var now, s := After(keys, ks, idx), SlotOf(keys, k);
    if s >= 0 && s !in idx {
      AfterResidents(keys, refs, ks, idx);
      assert now[s] == Some(k);
      SlotUnique(now, k, s);
    } else {
      NotResidentAfter(keys, ks, idx, k);
      if s >= 0 {
        var j := IndexOf(idx, s);
        assert idx[j] == s;
        var e := IndexOf(ev, Evicted(k, s));
        assert EvictedKeys(ev)[e] == k && evVals[e] == rows[s];
      } else {
        forall e | 0 <= e < |ev| ensures EvictedKeys(ev)[e] != k {
          assert Sound(keys, ks, idx, ev[e]);
        }
      }
    }
  }

  /** A placed key has its value. */
  lemma {:induction false} PlacedKeyValue(keys: Slots, refs: seq<int>, rows: seq<Row>, slow: map<Key, Row>,
                         ks: seq<Key>, idx: seq<int>, vals: seq<Row>, ev: seq<Evicted>, evVals: seq<Row>, j: nat)
    requires Setting(keys, refs, rows, ks, idx, vals, ev, evVals) && j < |ks| && idx[j] >= 0
    ensures var m := LogicalAfter(keys, rows, slow, ks, idx, vals, ev, evVals);
      ks[j] in m && m[ks[j]] == vals[j]
  {
    PlacedAt(keys, refs, ks, idx, vals, rows, j);
    AfterResidents(keys, refs, ks, idx);
    SlotUnique(After(keys, ks, idx), ks[j], idx[j]);
  }

  /** A rejected key has whatever was written back for it. */
  lemma {:induction false} RejectedKeyValue(keys: Slots, refs: seq<int>, rows: seq<Row>, slow: map<Key, Row>,
                         ks: seq<Key>, idx: seq<int>, vals: seq<Row>, ev: seq<Evicted>, evVals: seq<Row>, j: nat)
    requires Setting(keys, refs, rows, ks, idx, vals, ev, evVals) && j < |ks| && idx[j] < 0
    ensures var m, e := LogicalAfter(keys, rows, slow, ks, idx, vals, ev, evVals), Entry(ev, ks, j);
      e >= 0 && ks[j] in m && m[ks[j]] == evVals[e]
  {
    assert forall i :: 0 <= i < |ks| && ks[i] == ks[j] ==> i == j by {
      forall i | 0 <= i < |ks| && ks[i] == ks[j] ensures i == j {
        assert IndexOf(ks, ks[i]) == i;
      }
    }
    NotResidentAfter(keys, ks, idx, ks[j]);
    var e := Entry(ev, ks, j);
    assert EvictedKeys(ev)[e] == ks[j];
  }

  /** Position of the report entry of rejected input `j`. */
  ghost function Entry(ev: seq<Evicted>, ks: seq<Key>, j: nat): int
    requires j < |ks|
  {
    IndexOf(ev, Evicted(ks[j], -(j + 1)))
  }

  /** The rejected inputs were written back with their own value. */
  ghost predicate RejectsCarryValue(ks: seq<Key>, idx: seq<int>, vals: seq<Row>, ev: seq<Evicted>, evVals: seq<Row>)
    requires |idx| == |ks| == |vals| && |evVals| == |ev|
  {
    forall j :: 0 <= j < |ks| && idx[j] < 0 && Entry(ev, ks, j) >= 0 ==> evVals[Entry(ev, ks, j)] == vals[j]
  }

  lemma {:induction false} CarriedThenMerged(keys: Slots, refs: seq<int>, rows: seq<Row>, slow: map<Key, Row>,
                          ks: seq<Key>, idx: seq<int>, vals: seq<Row>, ev: seq<Evicted>, evVals: seq<Row>)
    requires Setting(keys, refs, rows, ks, idx, vals, ev, evVals)
    requires RejectsCarryValue(ks, idx, vals, ev, evVals)
    ensures LogicalAfter(keys, rows, slow, ks, idx, vals, ev, evVals) == Merge(Logical(keys, rows, slow), ks, vals)
  {
    var l, m := Logical(keys, rows, slow), LogicalAfter(keys, rows, slow, ks, idx, vals, ev, evVals);
    forall k | k !in ks ensures (k in m <==> k in l) && (k in l ==> m[k] == l[k]) {
      OtherKeyKept(keys, refs, rows, slow, ks, idx, vals, ev, evVals, k);
    }
    forall j | 0 <= j < |ks| ensures ks[j] in m && m[ks[j]] == vals[j] {
      if idx[j] >= 0 {
        PlacedKeyValue(keys, refs, rows, slow, ks, idx, vals, ev, evVals, j);
      } else {
        RejectedKeyValue(keys, refs, rows, slow, ks, idx, vals, ev, evVals, j);
      }
    }
    MergeIs(l, ks, vals, m);
  }

  /** The keys an insertion rejected. */
  ghost function Rejected(ks: seq<Key>, idx: seq<int>): set<Key>
    requires |idx| == |ks|
  {
    set j | 0 <= j < |ks| && idx[j] < 0 :: ks[j]
  }

  ghost predicate IsJunk(junk: nat -> Row, v: Row) {
    exists e: nat :: junk(e) == v
  }

  /** `m` is `r`, but for the keys in `bad`, which have the content of uninitialised rows. */
  ghost predicate Spoiled(m: map<Key, Row>, r: map<Key, Row>, bad: set<Key>, junk: nat -> Row) {
    && (forall k :: k in m <==> k in r)
    && (forall k :: k in r ==> if k in bad then IsJunk(junk, m[k]) else m[k] == r[k])
  }

  lemma NothingSpoiled(m: map<Key, Row>, r: map<Key, Row>, junk: nat -> Row)
    requires Spoiled(m, r, {}, junk)
    ensures m == r
  {
  }

  /** When uninitialised rows are written back for the rejected keys, these keys are spoiled and no
      other one is. */
  lemma {:induction false} RejectsSpoil(keys: Slots, refs: seq<int>, rows: seq<Row>, slow: map<Key, Row>, ks: seq<Key>,
                     idx: seq<int>, vals: seq<Row>, ev: seq<Evicted>, evVals: seq<Row>, junk: nat -> Row)
    requires Setting(keys, refs, rows, ks, idx, vals, ev, evVals)
    requires forall e :: 0 <= e < |ev| && ev[e].slot < 0 ==> evVals[e] == junk(e)
    ensures Spoiled(LogicalAfter(keys, rows, slow, ks, idx, vals, ev, evVals),
                    Merge(Logical(keys, rows, slow), ks, vals), Rejected(ks, idx), junk)
  {
    var l, m := Logical(keys, rows, slow), LogicalAfter(keys, rows, slow, ks, idx, vals, ev, evVals);
    hide Logical, LogicalAfter, Merge, Distinct;
    forall k | k !in ks ensures (k in m <==> k in l) && (k in l ==> m[k] == l[k]) {
      OtherKeyKept(keys, refs, rows, slow, ks, idx, vals, ev, evVals, k);
    }
    forall j | 0 <= j < |ks|
      ensures ks[j] in m && if idx[j] >= 0 then m[ks[j]] == vals[j] else IsJunk(junk, m[ks[j]])
    {
      if idx[j] >= 0 {
        PlacedKeyValue(keys, refs, rows, slow, ks, idx, vals, ev, evVals, j);
      } else {
        RejectedKeyValue(keys, refs, rows, slow, ks, idx, vals, ev, evVals, j);
        assert junk(Entry(ev, ks, j)) == m[ks[j]];
      }
    }
    SpoiledByEntries(l, m, ks, idx, vals, junk);
  }

  lemma {:induction false} SpoiledByEntries(l: map<Key, Row>, m: map<Key, Row>, ks: seq<Key>, idx: seq<int>,
                                            vals: seq<Row>,
                         junk: nat -> Row)
    requires |idx| == |vals| == |ks| && Distinct(ks)
    requires forall k :: k !in ks ==> (k in m <==> k in l) && (k in l ==> m[k] == l[k])
    requires forall j :: 0 <= j < |ks| ==>
      ks[j] in m && if idx[j] >= 0 then m[ks[j]] == vals[j] else IsJunk(junk, m[ks[j]])
    ensures Spoiled(m, Merge(l, ks, vals), Rejected(ks, idx), junk)
  {
    var r := Merge(l, ks, vals);
    hide Merge, IsJunk;
    forall k | k in r ensures if k in Rejected(ks, idx) then IsJunk(junk, m[k]) else m[k] == r[k] {
      if k in ks {
        var j := IndexOf(ks, k);
        assert ks[j] == k;
      }
    }
  }

  /** The key was in the fast level and its slot was given to another one. */
  ghost predicate GivenAway(keys: Slots, idx: seq<int>, k: Key) {
    SlotOf(keys, k) >= 0 && SlotOf(keys, k) in idx
  }

  /** What an insertion does to the slow level at a key: it is written if its slot was given away,
      with the row it had there, or if it was rejected, and only then. */
  ghost predicate WrittenBackAt(keys: Slots, rows: seq<Row>, slow: map<Key, Row>, ks: seq<Key>, idx: seq<int>,
                                now: map<Key, Row>, k: Key)
    requires |rows| == |keys| && |idx| == |ks|
  {
    && (k in now <==> k in slow || GivenAway(keys, idx, k) || k in Rejected(ks, idx))
    && (k in now && k !in Rejected(ks, idx) ==>
          now[k] == if GivenAway(keys, idx, k) then rows[SlotOf(keys, k)] else slow[k])
  }

  /** What an insertion writes to the slow level: the displaced keys and the rejected inputs. */
  ghost predicate WrittenBack(keys: Slots, rows: seq<Row>, slow: map<Key, Row>, ks: seq<Key>, idx: seq<int>,
                              now: map<Key, Row>)
    requires |rows| == |keys| && |idx| == |ks|
  {
    forall k :: WrittenBackAt(keys, rows, slow, ks, idx, now, k)
  }

  /** The report names exactly these keys. */
  lemma {:induction false} ReportedIff(keys: Slots, refs: seq<int>, rows: seq<Row>, ks: seq<Key>, idx: seq<int>,
                    vals: seq<Row>, ev: seq<Evicted>, evVals: seq<Row>, k: Key)
    requires Setting(keys, refs, rows, ks, idx, vals, ev, evVals)
    ensures k in EvictedKeys(ev) <==> GivenAway(keys, idx, k) || k in Rejected(ks, idx)
    ensures GivenAway(keys, idx, k) ==> k !in Rejected(ks, idx)
    ensures GivenAway(keys, idx, k) && k in EvictedKeys(ev) ==>
      evVals[IndexOf(EvictedKeys(ev), k)] == rows[SlotOf(keys, k)]
  {
    hide Distinct, NoRepeats;
    var s := SlotOf(keys, k);
    if k in EvictedKeys(ev) {
      var e := IndexOf(EvictedKeys(ev), k);
      assert Sound(keys, ks, idx, ev[e]) && ev[e].key == k;
      if ev[e].slot >= 0 { SlotUnique(keys, k, ev[e].slot); }
    }
    if GivenAway(keys, idx, k) {
      var j := IndexOf(idx, s);
      assert Evicted(k, s) in ev && EvictedKeys(ev)[IndexOf(ev, Evicted(k, s))] == k;
    }
    if k in Rejected(ks, idx) {
      var j :| 0 <= j < |ks| && idx[j] < 0 && ks[j] == k;
      assert Evicted(k, -(j + 1)) in ev && EvictedKeys(ev)[IndexOf(ev, Evicted(k, -(j + 1)))] == k;
    }
  }

  lemma {:induction false} ReportWrittenBack(keys: Slots, refs: seq<int>, rows: seq<Row>, slow: map<Key, Row>,
                          ks: seq<Key>, idx: seq<int>, vals: seq<Row>, ev: seq<Evicted>, evVals: seq<Row>)
    requires Setting(keys, refs, rows, ks, idx, vals, ev, evVals)
    ensures |idx| == |ks| && WrittenBack(keys, rows, slow, ks, idx, Merge(slow, EvictedKeys(ev), evVals))
  {
    var now := Merge(slow, EvictedKeys(ev), evVals);
    assert |idx| == |ks| && |rows| == |keys|;
    hide Merge, Setting, WrittenBackAt;
    forall k ensures WrittenBackAt(keys, rows, slow, ks, idx, now, k) {
      EntryWrittenBack(keys, refs, rows, slow, ks, idx, vals, ev, evVals, k);
    }
  }

  lemma {:induction false} EntryWrittenBack(keys: Slots, refs: seq<int>, rows: seq<Row>, slow: map<Key, Row>,
                         ks: seq<Key>, idx: seq<int>, vals: seq<Row>, ev: seq<Evicted>, evVals: seq<Row>, k: Key)
    requires Setting(keys, refs, rows, ks, idx, vals, ev, evVals)
    ensures |idx| == |ks| && WrittenBackAt(keys, rows, slow, ks, idx, Merge(slow, EvictedKeys(ev), evVals), k)
  {
    var eks := EvictedKeys(ev);
    ReportedIff(keys, refs, rows, ks, idx, vals, ev, evVals, k);
    MergedAt(slow, eks, evVals, k);
    hide Merge, Rejected;
  }

  lemma MergedAt(m: map<Key, Row>, ks: seq<Key>, vs: seq<Row>, k: Key)
    requires |vs| == |ks| && Distinct(ks)
    ensures k in Merge(m, ks, vs) <==> k in m || k in ks
    ensures k in Merge(m, ks, vs) ==> Merge(m, ks, vs)[k] == if k in ks then vs[IndexOf(ks, k)] else m[k]
  {
    if k in ks { assert ks[IndexOf(ks, k)] == k; }
  }

  /** One insert-with-eviction is one write of the batch into the combined map, exactly when
      every rejected key is written back with its own value. */
  lemma {:induction false} EvictInsertMerges(keys: Slots, refs: seq<int>, rows: seq<Row>, slow: map<Key, Row>,
                          ks: seq<Key>, idx: seq<int>, vals: seq<Row>, ev: seq<Evicted>, evVals: seq<Row>)
    requires Setting(keys, refs, rows, ks, idx, vals, ev, evVals)
    ensures LogicalAfter(keys, rows, slow, ks, idx, vals, ev, evVals) == Merge(Logical(keys, rows, slow), ks, vals)
      <==> RejectsCarryValue(ks, idx, vals, ev, evVals)
  {
    if RejectsCarryValue(ks, idx, vals, ev, evVals) {
      CarriedThenMerged(keys, refs, rows, slow, ks, idx, vals, ev, evVals);
    } else {
      var j :| 0 <= j < |ks| && idx[j] < 0 && Entry(ev, ks, j) >= 0 && evVals[Entry(ev, ks, j)] != vals[j];
      RejectedKeyValue(keys, refs, rows, slow, ks, idx, vals, ev, evVals, j);
    }
  }
}
