/** Two-tier storage: an HBM table in front of a host store, holding disjoint sets of keys,
    and the forward and backward that use a storage without prefetching. */
module Hybrid {
  import opened Common
  import opened PlainStore
  import opened HashTable
  import opened BackingStore
  import opened TwoLevel
  import opened Admission
  import opened CachePath

  ghost predicate Disjoint(keys: Slots, slow: map<Key, Row>) {
    forall k :: Some(k) in keys ==> k !in slow
  }

  /** What the lookups in the two tiers returned. */
  ghost predicate TierAnswers(keys: Slots, rows: seq<Row>, slow: map<Key, Row>, ks: seq<Key>, hits: seq<int>,
                              loaded: seq<Row>, hostFounds: seq<bool>, hostVals: seq<Row>)
  {
    && |rows| == |keys| && |hits| == |loaded| == |ks|
    && (forall i :: 0 <= i < |ks| ==> hits[i] == SlotOf(keys, ks[i]))
    && (forall i :: 0 <= i < |ks| && 0 <= hits[i] < |rows| ==> loaded[i] == rows[hits[i]])
    && var miss := Positions(Negative(hits));
    && |hostFounds| == |hostVals| == |miss|
    && (forall j :: 0 <= j < |miss| ==> hostFounds[j] == (ks[miss[j]] in slow))
    && (forall j :: 0 <= j < |miss| && hostFounds[j] ==> hostVals[j] == slow[ks[miss[j]]])
  }

  /** How the two answers were merged. */
  ghost predicate TwoTierAnswer(keys: Slots, rows: seq<Row>, slow: map<Key, Row>, ks: seq<Key>, hits: seq<int>,
                                loaded: seq<Row>, hostFounds: seq<bool>, hostVals: seq<Row>,
                                founds: seq<bool>, vals: seq<Row>)
  {
    && TierAnswers(keys, rows, slow, ks, hits, loaded, hostFounds, hostVals)
    && |founds| == |vals| == |ks|
    && var miss, at := Positions(Negative(hits)), Positions(hostFounds);
    && (forall j :: 0 <= j < |at| ==> founds[miss[at[j]]] && vals[miss[at[j]]] == hostVals[at[j]])
    && (forall i :: 0 <= i < |ks| && i !in Gather(miss, at) ==> founds[i] == (hits[i] >= 0) && vals[i] == loaded[i])
  }

  /** The merged answer at one position is the answer of the union map. */
  lemma {:induction false} AnswerAt(keys: Slots, rows: seq<Row>, slow: map<Key, Row>, ks: seq<Key>, hits: seq<int>,
                 loaded: seq<Row>, hostFounds: seq<bool>, hostVals: seq<Row>,
                 founds: seq<bool>, vals: seq<Row>, i: nat)
    requires TwoTierAnswer(keys, rows, slow, ks, hits, loaded, hostFounds, hostVals, founds, vals) && i < |ks|
    ensures var l := Logical(keys, rows, slow);
      founds[i] == (ks[i] in l) && (founds[i] ==> vals[i] == l[ks[i]])
  {
    var miss, at := Positions(Negative(hits)), Positions(hostFounds);
    hide Positions, Logical, Gather;
    ComposePositions(Negative(hits), hostFounds);
    if hits[i] < 0 {
      var j := IndexOf(miss, i);
      assert i in miss && miss[j] == i;
      if hostFounds[j] { assert at[IndexOf(at, j)] == j; }
    }
  }

  /** The two compactions compose to the positions found in neither tier, in input order. */
  lemma {:induction false} MissingInBoth(keys: Slots, rows: seq<Row>, slow: map<Key, Row>, ks: seq<Key>, hits: seq<int>,
                      loaded: seq<Row>, hostFounds: seq<bool>, hostVals: seq<Row>,
                      founds: seq<bool>, vals: seq<Row>)
    requires TwoTierAnswer(keys, rows, slow, ks, hits, loaded, hostFounds, hostVals, founds, vals)
    ensures var miss, both := Positions(Negative(hits)), Positions(Not(hostFounds));
      && Gather(miss, both) == Positions(Not(founds))
      && Gather(Gather(ks, miss), both) == Gather(ks, Positions(Not(founds)))
  {
    var miss := Positions(Negative(hits));
    hide Positions;
    forall i | 0 <= i < |ks| ensures founds[i] == (ks[i] in Logical(keys, rows, slow)) {
      AnswerAt(keys, rows, slow, ks, hits, loaded, hostFounds, hostVals, founds, vals, i);
    }
    assert Gather(Not(founds), miss) == Not(hostFounds);
    ComposeIsPositions(Negative(hits), Not(founds));
    var both := Positions(Not(hostFounds));
    assert Gather(Gather(ks, miss), both) == Gather(ks, Gather(miss, both));
  }

  /** Replace the rows reported for rejected inputs by the rows that were to be inserted. */
  method SelectInsertFailed(slots: seq<int>, input: seq<Row>, evVals: seq<Row>) returns (r: seq<Row>)
    requires |evVals| == |slots| && forall e :: 0 <= e < |slots| && slots[e] < 0 ==> -slots[e] - 1 < |input|
    ensures |r| == |slots|
    ensures forall e :: 0 <= e < |slots| ==> r[e] == if slots[e] < 0 then input[-slots[e] - 1] else evVals[e]
  {
    r := evVals;
    for e := 0 to |slots|
      invariant |r| == |slots|
      invariant forall d :: 0 <= d < |slots| ==>
        r[d] == if d < e && slots[d] < 0 then input[-slots[d] - 1] else evVals[d]
    {
      if slots[e] < 0 { r := r[e := input[-slots[e] - 1]]; }
    }
  }

  /** An insert-with-eviction keeps the tiers disjoint exactly when no key it placed in the
      fast tier was already stored in the slow one. */
  lemma {:induction false} DisjointAfter(keys: Slots, refs: seq<int>, rows: seq<Row>, slow: map<Key, Row>,
                      ks: seq<Key>, idx: seq<int>, vals: seq<Row>, ev: seq<Evicted>, evVals: seq<Row>)
    requires Setting(keys, refs, rows, ks, idx, vals, ev, evVals) && Disjoint(keys, slow)
    ensures Disjoint(After(keys, ks, idx), Merge(slow, EvictedKeys(ev), evVals))
      <==> forall j :: 0 <= j < |ks| && idx[j] >= 0 ==> ks[j] !in slow
  {
    var now, slow' := After(keys, ks, idx), Merge(slow, EvictedKeys(ev), evVals);
    hide Merge, Overlay;
    if forall j :: 0 <= j < |ks| && idx[j] >= 0 ==> ks[j] !in slow {
      forall k | Some(k) in now ensures k !in slow' {
        var s := IndexOf(now, Some(k));
        NotReported(keys, ks, idx, refs, rows, vals, ev, evVals, s, k);
        StaysApart(keys, slow, ks, idx, s, k);
      }
    } else {
      var j :| 0 <= j < |ks| && idx[j] >= 0 && ks[j] in slow;
      PlacedAt(keys, refs, ks, idx, vals, rows, j);
      assert Some(ks[j]) in now && ks[j] in slow';
    }
  }

  lemma StaysApart(keys: Slots, slow: map<Key, Row>, ks: seq<Key>, idx: seq<int>, s: nat, k: Key)
    requires |idx| == |ks| && Disjoint(keys, slow) && s < |keys| && After(keys, ks, idx)[s] == Some(k)
    requires forall j :: 0 <= j < |ks| && idx[j] >= 0 ==> ks[j] !in slow
    ensures k !in slow
  {
    var j := IndexOf(idx, s);
    if j >= 0 { assert ks[j] == k && idx[j] == s; } else { assert keys[s] == Some(k); }
  }

  /** A key that stayed where it was is not in the report. */
  lemma {:induction false} KeptNotReported(keys: Slots, ks: seq<Key>, idx: seq<int>, v: Evicted, s: nat)
    requires |idx| == |ks| && Injective(keys) && Sound(keys, ks, idx, v)
    requires forall i :: 0 <= i < |ks| ==> Some(ks[i]) !in keys
    requires s < |keys| && s !in idx && keys[s].Some?
    ensures keys[s].value != v.key
  {
    if v.slot >= 0 && keys[s] == Some(v.key) {
      SlotUnique(keys, v.key, s);
      SlotUnique(keys, v.key, v.slot);
    }
  }

  /** A key that was placed is not in the report. */
  lemma {:induction false} PlacedNotReported(keys: Slots, ks: seq<Key>, idx: seq<int>, v: Evicted, j: nat)
    requires |idx| == |ks| && Distinct(ks) && Sound(keys, ks, idx, v)
    requires forall i :: 0 <= i < |ks| ==> Some(ks[i]) !in keys
    requires j < |ks| && idx[j] >= 0
    ensures ks[j] != v.key
  {
    DistinctAt(ks, j);
    if v.slot < 0 { DistinctAt(ks, -v.slot - 1); }
  }

  /** A key that is resident after an insertion is not in its report. */
  lemma {:induction false} NotReported(keys: Slots, ks: seq<Key>, idx: seq<int>, refs: seq<int>, rows: seq<Row>,
                    vals: seq<Row>, ev: seq<Evicted>, evVals: seq<Row>, s: nat, k: Key)
    requires Setting(keys, refs, rows, ks, idx, vals, ev, evVals)
    requires s < |keys| && After(keys, ks, idx)[s] == Some(k)
    ensures k !in EvictedKeys(ev)
  {
    hide Distinct, Injective, NoRepeats, Sound;
    if k in EvictedKeys(ev) {
      var e := IndexOf(EvictedKeys(ev), k);
      assert Sound(keys, ks, idx, ev[e]) && ev[e].key == k;
      if s in idx {
        var j := IndexOf(idx, s);
        assert ks[j] == k && idx[j] == s;
        PlacedNotReported(keys, ks, idx, ev[e], j);
      } else {
        assert keys[s] == Some(k);
        KeptNotReported(keys, ks, idx, ev[e], s);
      }
    }
  }

  /** The entries of `m` whose key is in the batch take the batch's value. */
  ghost function Refreshed(m: map<Key, Row>, ks: seq<Key>, vs: seq<Row>): map<Key, Row>
    requires |vs| == |ks|
  {
    map k | k in m :: if k in ks then vs[IndexOf(ks, k)] else m[k]
  }

  /** The setting of a refresh: where the lookups found the keys of the batch. */
  ghost predicate FoundIn(keys: Slots, rows: seq<Row>, slow: map<Key, Row>, ks: seq<Key>, vs: seq<Row>,
                          hits: seq<int>, inHost: seq<nat>)
  {
    && |rows| == |keys| && |hits| == |vs| == |ks| && Distinct(ks) && Disjoint(keys, slow)
    && (forall i :: 0 <= i < |ks| ==> hits[i] == SlotOf(keys, ks[i]))
    && Distinct(inHost) && (forall j :: 0 <= j < |inHost| ==> inHost[j] < |ks|)
    && (forall i :: 0 <= i < |ks| ==> (i in inHost <==> ks[i] in slow))
  }

  /** The union after writing the found rows of each tier. */
  ghost function RefreshedTiers(keys: Slots, rows: seq<Row>, slow: map<Key, Row>, ks: seq<Key>, vs: seq<Row>,
                                hits: seq<int>, inHost: seq<nat>, inHbm: seq<nat>): map<Key, Row>
    requires FoundIn(keys, rows, slow, ks, vs, hits, inHost) && inHbm == Positions(Not(Negative(hits)))
  {
    Logical(keys, Overlay(rows, Gather(hits, inHbm), Gather(vs, inHbm)),
            Merge(slow, Gather(ks, inHost), Gather(vs, inHost)))
  }

  /** Writing the found rows of each tier refreshes the union. */
  lemma {:induction false} TiersRefreshed(keys: Slots, rows: seq<Row>, slow: map<Key, Row>, ks: seq<Key>, vs: seq<Row>,
                       hits: seq<int>, inHost: seq<nat>, inHbm: seq<nat>)
    requires |rows| == |keys| && |vs| == |ks|
    requires FoundIn(keys, rows, slow, ks, vs, hits, inHost) && inHbm == Positions(Not(Negative(hits)))
    ensures RefreshedTiers(keys, rows, slow, ks, vs, hits, inHost, inHbm)
      == Refreshed(Logical(keys, rows, slow), ks, vs)
  {
    hide *;
    var l := RefreshedTiers(keys, rows, slow, ks, vs, hits, inHost, inHbm);
    var r := Refreshed(Logical(keys, rows, slow), ks, vs);
    forall k ensures (k in l <==> k in r) && (k in r ==> l[k] == r[k]) {
      RefreshedAt(keys, rows, slow, ks, vs, hits, inHost, inHbm, k);
    }
    SameMap(l, r);
  }

  lemma SameMap(l: map<Key, Row>, r: map<Key, Row>)
    requires forall k :: k in l <==> k in r
    requires forall k :: k in r ==> l[k] == r[k]
    ensures l == r
  {
  }

  lemma {:induction false} RefreshedAt(keys: Slots, rows: seq<Row>, slow: map<Key, Row>, ks: seq<Key>, vs: seq<Row>,
                    hits: seq<int>, inHost: seq<nat>, inHbm: seq<nat>, k: Key)
    requires FoundIn(keys, rows, slow, ks, vs, hits, inHost) && inHbm == Positions(Not(Negative(hits)))
    ensures var l := RefreshedTiers(keys, rows, slow, ks, vs, hits, inHost, inHbm);
      var r := Refreshed(Logical(keys, rows, slow), ks, vs);
      (k in l <==> k in r) && (k in r ==> l[k] == r[k])
  {
    HostRefreshed(slow, ks, vs, inHost, k);
    hide Positions, Gather, Merge, Overlay, Distinct, SlotOf;
    if Some(k) in keys { HbmRefreshed(keys, rows, ks, vs, hits, k); }
  }

  lemma {:induction false} HostRefreshed(slow: map<Key, Row>, ks: seq<Key>, vs: seq<Row>, inHost: seq<nat>, k: Key)
    requires |vs| == |ks| && Distinct(ks) && Distinct(inHost)
    requires forall j :: 0 <= j < |inHost| ==> inHost[j] < |ks|
    requires forall i :: 0 <= i < |ks| ==> (i in inHost <==> ks[i] in slow)
    ensures var slow' := Merge(slow, Gather(ks, inHost), Gather(vs, inHost));
      (k in slow' <==> k in slow) && (k in slow ==> slow'[k] == if k in ks then vs[IndexOf(ks, k)] else slow[k])
  {
    var g := Gather(ks, inHost);
    GatherDistinct(ks, inHost);
    GatherMember(ks, inHost, k);
    hide Merge, Distinct;
    if k in g {
      var j := IndexOf(g, k);
      assert ks[inHost[j]] == k;
      assert inHost[j] == IndexOf(ks, k) by { DistinctAt(ks, inHost[j]); }
    }
  }

  lemma DistinctAt<T>(s: seq<T>, i: nat)
    requires Distinct(s) && i < |s|
    ensures IndexOf(s, s[i]) == i
  {
  }

  lemma {:induction false} HbmRefreshed(keys: Slots, rows: seq<Row>, ks: seq<Key>, vs: seq<Row>, hits: seq<int>, k: Key)
    requires |rows| == |keys| && |hits| == |vs| == |ks| && Distinct(ks) && Some(k) in keys
    requires forall i :: 0 <= i < |ks| ==> hits[i] == SlotOf(keys, ks[i])
    ensures var inHbm := Positions(Not(Negative(hits)));
      Overlay(rows, Gather(hits, inHbm), Gather(vs, inHbm))[SlotOf(keys, k)]
      == if k in ks then vs[IndexOf(ks, k)] else rows[SlotOf(keys, k)]
  {
    var inHbm, s := Positions(Not(Negative(hits))), SlotOf(keys, k);
    hide Positions;
    HitsDistinct(keys, ks, hits);
    OverlayPart(rows, hits, vs, inHbm, s);
    if k in ks {
      var i := IndexOf(ks, k);
      assert hits[i] == s && IndexOf(hits, hits[i]) == i;
    }
    if s in hits {
      var j := IndexOf(hits, s);
      assert hits[j] == s && keys[s] == Some(ks[j]);
    }
  }

  /** A lookup leaves the scores as they are if and only if its policy and what it gives for the hits
      say so. A lookup that adds one for every key, as the refresh of a table with an LFU score does,
      changes the score of every hit. */
  lemma ScoresKeptIff(scores: seq<int>, hits: seq<int>, policy: ScorePolicy, given: seq<int>)
    requires |given| == |hits| && NoRepeats(hits) && forall i :: 0 <= i < |hits| ==> hits[i] < |scores|
    ensures HitScores(scores, hits, policy, given) == scores
      <==> forall i :: 0 <= i < |hits| && hits[i] >= 0 ==>
             policy.Const? || given[i] == if policy.Assign? then scores[hits[i]] else 0
  {
    var now := HitScores(scores, hits, policy, given);
    forall i | 0 <= i < |hits| && hits[i] >= 0
      ensures now[hits[i]] == scores[hits[i]]
        <==> policy.Const? || given[i] == if policy.Assign? then scores[hits[i]] else 0
    {
      assert IndexOf(hits, hits[i]) == i;
    }
    if forall i :: 0 <= i < |hits| && hits[i] >= 0 ==> now[hits[i]] == scores[hits[i]] {
      forall s | 0 <= s < |scores| ensures now[s] == scores[s] {
        if IndexOf(hits, s) >= 0 { assert hits[IndexOf(hits, s)] == s; }
      }
    }
  }

  class HybridStorage {
    const hbm: Table
    const host: Storage

    ghost predicate Valid()
      reads this, hbm, hbm.keys, hbm.scores, hbm.refs, hbm.rows, host
    {
      hbm.Valid() && host.Valid() && host.mode.Hashed? && Disjoint(hbm.keys[..], host.Map())
    }

    /** The map the two tiers stand for. */
    ghost function Union(): map<Key, Row>
      reads this, hbm, hbm.keys, hbm.scores, hbm.refs, hbm.rows, host
      requires Valid()
    {
      Logical(hbm.keys[..], hbm.rows[..], host.Map())
    }

    constructor (n: nat, layout: Layout, mode: Mode)
      requires layout.Within(n) && PlacesFresh(mode) && mode.Hashed?
      ensures Valid() && Union() == map[]
    {
      hbm := new Table(n, layout);
      host := new Storage(mode);
    }

    /** Look every key up in HBM and the misses in host, and merge the answers. */
    method Find(ks: seq<Key>, scoring: Scoring, junk: nat -> Row)
      returns (missing: seq<nat>, missingKeys: seq<Key>, founds: seq<bool>, vals: seq<Row>)
      requires Valid()
      modifies hbm.scores
      ensures Valid() && Union() == old(Union())
      ensures hbm.scores[..] ==
        Scored(old(hbm.scores[..]), HitsOf(hbm.keys[..], ks), scoring.policy, Given(scoring.given, ks))
      ensures |founds| == |vals| == |ks|
      ensures forall i :: 0 <= i < |ks| ==> founds[i] == (ks[i] in Union())
      ensures forall i :: 0 <= i < |ks| && founds[i] ==> vals[i] == Union()[ks[i]]
      ensures missing == Positions(Not(founds)) && missingKeys == Gather(ks, missing)
    {
      hide PlacesFresh, DistinctRows, RowsOwned, RowsBelowNext, Contents, Injective, Logical, Positions, Scored;
      var hits := hbm.Lookup(ks, scoring.policy, Given(scoring.given, ks));
      assert hits == HitsOf(hbm.keys[..], ks);
      vals := hbm.LoadFromFlat(hits, seq(|hits|, i requires 0 <= i < |hits| => junk(i)));
      missing := Positions(Negative(hits));
      missingKeys := Gather(ks, missing);
      if missing == [] {
        founds := Not(Negative(hits));
        AllFound(hbm.keys[..], hbm.rows[..], host.Map(), ks, hits, vals);
        return;
      }
      var hostFounds, hostVals := host.Find(missingKeys, junk);
      missing, missingKeys, founds, vals := MergeAnswers(
        hbm.keys[..], hbm.rows[..], host.Map(), ks, hits, vals, missing, missingKeys, hostFounds, hostVals);
    }

    /** Insert keys that HBM does not hold: into HBM, with displaced residents and rejected inputs
        going to host. The tiers stay disjoint when host does not store the keys either. */
    method Insert(ks: seq<Key>, vs: seq<Row>, scores: seq<int>, junk: nat -> Row) returns (ghost idx: seq<int>)
      requires Valid() && |vs| == |scores| == |ks| && Distinct(ks)
      requires forall i :: 0 <= i < |ks| ==> Some(ks[i]) !in hbm.keys[..]
      modifies hbm.keys, hbm.scores, hbm.rows, host
      ensures hbm.Valid() && host.Valid()
      ensures Logical(hbm.keys[..], hbm.rows[..], host.Map()) == Merge(old(Union()), ks, vs)
      ensures (forall i :: 0 <= i < |ks| ==> ks[i] !in old(host.Map())) ==> Valid()
      ensures var seen := Seen(hbm.layout, hbm.refs[..]);
        && GoodPlacement(old(hbm.keys[..]), seen, ks, idx)
        && Choices(hbm.layout, old(hbm.keys[..]), old(hbm.scores[..]), seen, ks, idx)
        && hbm.keys[..] == After(old(hbm.keys[..]), ks, idx)
        && hbm.scores[..] == Overlay(old(hbm.scores[..]), idx, scores)
        && WrittenBack(old(hbm.keys[..]), old(hbm.rows[..]), old(host.Map()), ks, idx, host.Map())
    {
      hide PlacesFresh, DistinctRows, RowsOwned, RowsBelowNext, Contents, Merge, Injective, Distinct,
        Logical, Disjoint, Overlay, Setting, Choices, GoodPlacement, WrittenBack;
      ghost var keys, refs, rows, slow := hbm.keys[..], Seen(hbm.layout, hbm.refs[..]), hbm.rows[..], host.Map();
      var slots, evicted, evVals := InsertFast(hbm, ks, vs, scores, junk);
      idx := slots;
      ReportDistinctKeys(keys, refs, rows, ks, idx, vs, evicted, evVals);
      InsertSlow(host, EvictedKeys(evicted), evVals);
      InsertedTiers(keys, refs, rows, slow, ks, idx, vs, evicted, evVals);
      ReportWrittenBack(keys, refs, rows, slow, ks, idx, vs, evicted, evVals);
    }

    /** Overwrite the rows of the keys that either tier stores; other keys are ignored. The lookup
        counts as one: it changes the scores of the hits by the policy. */
    method Refresh(ks: seq<Key>, vs: seq<Row>, scoring: Scoring)
      requires Valid() && |vs| == |ks| && Distinct(ks)
      modifies hbm.scores, hbm.rows, host
      ensures Valid() && host.rowOf == old(host.rowOf) && Union() == Refreshed(old(Union()), ks, vs)
      ensures hbm.scores[..] ==
        HitScores(old(hbm.scores[..]), HitsOf(hbm.keys[..], ks), scoring.policy, Given(scoring.given, ks))
    {
      hide PlacesFresh, DistinctRows, RowsOwned, RowsBelowNext, Contents, Merge, Injective, NoRepeats,
        Logical, Positions, Overlay, Distinct, HitScores;
      ghost var keys, rows, slow := hbm.keys[..], hbm.rows[..], host.Map();
      var hits, inHbm := RefreshFast(hbm, ks, vs, scoring);
      var inHost := RefreshSlow(host, ks, vs, hits);
      assert hits == HitsOf(keys, ks);
      assert FoundIn(keys, rows, slow, ks, vs, hits, inHost);
      TiersRefreshed(keys, rows, slow, ks, vs, hits, inHost, inHbm);
      assert host.Map().Keys == slow.Keys;
    }
  }

  lemma ReportDistinctKeys(keys: Slots, refs: seq<int>, rows: seq<Row>, ks: seq<Key>, idx: seq<int>,
                           vals: seq<Row>, ev: seq<Evicted>, evVals: seq<Row>)
    requires Setting(keys, refs, rows, ks, idx, vals, ev, evVals)
    ensures Distinct(EvictedKeys(ev)) && |evVals| == |ev| && |idx| == |ks|
  {
  }

  /** Read the displaced rows, and put the input rows in place of those of rejected inputs. */
  method SaveEvicted(hbm: Table, ks: seq<Key>, idx: seq<int>, vs: seq<Row>, ghost keys: Slots, evicted: seq<Evicted>,
                     junk: nat -> Row) returns (evVals: seq<Row>)
    requires hbm.Valid() && |idx| == |vs| == |ks| && |keys| == hbm.keys.Length && IsReport(keys, ks, idx, evicted)
    ensures |evVals| == |evicted|
    ensures forall e :: 0 <= e < |evicted| && evicted[e].slot >= 0 ==>
      evicted[e].slot < hbm.rows.Length && evVals[e] == hbm.rows[evicted[e].slot]
    ensures forall e :: 0 <= e < |evicted| && evicted[e].slot < 0 ==>
      -evicted[e].slot - 1 < |vs| && evVals[e] == vs[-evicted[e].slot - 1]
  {
    ReportInBounds(keys, ks, idx, evicted);
    hide IsReport, Injective;
    var loaded := hbm.LoadFromFlat(EvictedSlots(evicted), seq(|evicted|, i requires 0 <= i < |evicted| => junk(i)));
    evVals := SelectInsertFailed(EvictedSlots(evicted), vs, loaded);
  }

  lemma ReportInBounds(keys: Slots, ks: seq<Key>, idx: seq<int>, ev: seq<Evicted>)
    requires |idx| == |ks| && IsReport(keys, ks, idx, ev)
    ensures forall e :: 0 <= e < |ev| ==> ev[e].slot < |keys| && (ev[e].slot < 0 ==> -ev[e].slot - 1 < |ks|)
  {
    forall e | 0 <= e < |ev| ensures ev[e].slot < |keys| && (ev[e].slot < 0 ==> -ev[e].slot - 1 < |ks|) {
      assert Sound(keys, ks, idx, ev[e]);
    }
  }

  /** The HBM part of an insert: place the keys, save the displaced rows, store the new ones. */
  method InsertFast(hbm: Table, ks: seq<Key>, vs: seq<Row>, scores: seq<int>, junk: nat -> Row)
    returns (idx: seq<int>, evicted: seq<Evicted>, evVals: seq<Row>)
    requires hbm.Valid() && |vs| == |scores| == |ks| && Distinct(ks)
    requires forall i :: 0 <= i < |ks| ==> Some(ks[i]) !in hbm.keys[..]
    modifies hbm.keys, hbm.scores, hbm.rows
    ensures hbm.Valid()
    ensures Setting(old(hbm.keys[..]), Seen(hbm.layout, hbm.refs[..]), old(hbm.rows[..]), ks, idx, vs, evicted, evVals)
    ensures GoodPlacement(old(hbm.keys[..]), Seen(hbm.layout, hbm.refs[..]), ks, idx)
    ensures Choices(hbm.layout, old(hbm.keys[..]), old(hbm.scores[..]), Seen(hbm.layout, hbm.refs[..]), ks, idx)
    ensures hbm.keys[..] == After(old(hbm.keys[..]), ks, idx)
    ensures hbm.scores[..] == Overlay(old(hbm.scores[..]), idx, scores)
    ensures hbm.rows[..] == Overlay(old(hbm.rows[..]), idx, vs)
    ensures forall e :: 0 <= e < |evicted| && evicted[e].slot < 0 && -evicted[e].slot - 1 < |vs| ==>
      evVals[e] == vs[-evicted[e].slot - 1]
  {
    hide Injective, Distinct, NoRepeats, Choices, Overlay, IsReport;
    ghost var keys0 := hbm.keys[..];
    idx, evicted := hbm.InsertAndEvict(ks, scores);
    evVals := SaveEvicted(hbm, ks, idx, vs, keys0, evicted, junk);
    hbm.StoreToFlat(idx, vs);
  }

  /** The host part of an insert. */
  method InsertSlow(host: Storage, ks: seq<Key>, vs: seq<Row>)
    requires host.Valid() && host.mode.Hashed? && |vs| == |ks| && Distinct(ks)
    modifies host
    ensures host.Valid() && host.Map() == Merge(old(host.Map()), ks, vs)
  {
    InsertAllMerges(host.mode, host.View(), ks, vs, false);
    hide PlacesFresh, DistinctRows, Contents, Merge, Distinct, InsertAll;
    if ks != [] {
      host.Insert(ks, vs, false);
    } else {
      MergeNothing(host.Map(), vs);
    }
  }

  /** Store the rows of the keys HBM holds. */
  method RefreshFast(hbm: Table, ks: seq<Key>, vs: seq<Row>, scoring: Scoring)
    returns (hits: seq<int>, inHbm: seq<nat>)
    requires hbm.Valid() && |vs| == |ks| && Distinct(ks)
    modifies hbm.scores, hbm.rows
    ensures hbm.Valid() && |hits| == |ks| && inHbm == Positions(Not(Negative(hits)))
    ensures forall i :: 0 <= i < |ks| ==> hits[i] == SlotOf(hbm.keys[..], ks[i])
    ensures hbm.scores[..] == HitScores(old(hbm.scores[..]), hits, scoring.policy, Given(scoring.given, ks))
    ensures hbm.rows[..] == Overlay(old(hbm.rows[..]), Gather(hits, inHbm), Gather(vs, inHbm))
  {
    hide Positions, Injective, NoRepeats, Distinct, Overlay, Scored, HitScores;
    hits := hbm.Lookup(ks, scoring.policy, Given(scoring.given, ks));
    HitsDistinct(hbm.keys[..], ks, hits);
    ScoredIs(old(hbm.scores[..]), hits, scoring.policy, Given(scoring.given, ks));
    inHbm := Positions(Not(Negative(hits)));
    GatherNoRepeats(hits, inHbm);
    hbm.StoreToFlat(Gather(hits, inHbm), Gather(vs, inHbm));
  }

  /** The positions of the keys that missed in HBM and were found in host. */
  lemma HostPositions(ks: seq<Key>, hits: seq<int>, slow: map<Key, Row>, hostFounds: seq<bool>, inHost: seq<nat>)
    requires |hits| == |ks| && Distinct(ks) && |hostFounds| == |Positions(Negative(hits))|
    requires forall i :: 0 <= i < |ks| && hits[i] >= 0 ==> ks[i] !in slow
    requires forall j :: 0 <= j < |hostFounds| ==> hostFounds[j] == (ks[Positions(Negative(hits))[j]] in slow)
    requires inHost == Gather(Positions(Negative(hits)), Positions(hostFounds))
    ensures Distinct(inHost) && Distinct(Gather(ks, inHost))
    ensures forall i :: 0 <= i < |ks| ==> (i in inHost <==> ks[i] in slow)
    ensures forall j :: 0 <= j < |inHost| ==> ks[inHost[j]] in slow
  {
    var miss := Positions(Negative(hits));
    hide Positions;
    ComposePositions(Negative(hits), hostFounds);
    GatherDistinct(ks, inHost);
    forall i | 0 <= i < |ks| ensures i in inHost <==> ks[i] in slow {
      if hits[i] < 0 { assert i in miss && miss[IndexOf(miss, i)] == i; }
    }
    forall j | 0 <= j < |inHost| ensures ks[inHost[j]] in slow { assert inHost[j] in inHost; }
  }

  /** Store the rows of the keys that missed in HBM and that host holds. */
  method RefreshSlow(host: Storage, ks: seq<Key>, vs: seq<Row>, hits: seq<int>) returns (inHost: seq<nat>)
    requires host.Valid() && |hits| == |vs| == |ks| && Distinct(ks)
    requires forall i :: 0 <= i < |ks| && hits[i] >= 0 ==> ks[i] !in host.Map()
    modifies host
    ensures host.Valid() && host.rowOf == old(host.rowOf)
    ensures Distinct(inHost) && forall j :: 0 <= j < |inHost| ==> inHost[j] < |ks|
    ensures forall i :: 0 <= i < |ks| ==> (i in inHost <==> ks[i] in old(host.Map()))
    ensures host.Map() == Merge(old(host.Map()), Gather(ks, inHost), Gather(vs, inHost))
  {
    hide PlacesFresh, DistinctRows, RowsOwned, RowsBelowNext, Contents, Merge, Positions, Distinct;
    var miss := Positions(Negative(hits));
    var hostFounds, _ := host.Find(Gather(ks, miss), _ => []);
    inHost := Gather(miss, Positions(hostFounds));
    HostPositions(ks, hits, host.Map(), hostFounds, inHost);
    host.StoreRows(Gather(ks, inHost), Gather(vs, inHost));
  }

  lemma {:induction false} CarriesOwn(keys: Slots, refs: seq<int>, rows: seq<Row>, ks: seq<Key>, idx: seq<int>,
                   vals: seq<Row>, ev: seq<Evicted>, evVals: seq<Row>)
    requires Setting(keys, refs, rows, ks, idx, vals, ev, evVals)
    requires forall e :: 0 <= e < |ev| && ev[e].slot < 0 && -ev[e].slot - 1 < |vals| ==>
      evVals[e] == vals[-ev[e].slot - 1]
    ensures RejectsCarryValue(ks, idx, vals, ev, evVals)
  {
    hide Distinct, Injective, NoRepeats, Sound, IsReport, GoodPlacement;
    forall j | 0 <= j < |ks| && Entry(ev, ks, j) >= 0 ensures evVals[Entry(ev, ks, j)] == vals[j] {
      assert ev[Entry(ev, ks, j)].slot == -(j + 1);
    }
  }

  /** The tiers after an insert, every rejected one written with its own row. */
  lemma {:induction false} InsertedTiers(keys: Slots, refs: seq<int>, rows: seq<Row>, slow: map<Key, Row>,
                      ks: seq<Key>, idx: seq<int>, vals: seq<Row>, ev: seq<Evicted>, evVals: seq<Row>)
    requires Setting(keys, refs, rows, ks, idx, vals, ev, evVals) && Disjoint(keys, slow)
    requires forall e :: 0 <= e < |ev| && ev[e].slot < 0 && -ev[e].slot - 1 < |vals| ==>
      evVals[e] == vals[-ev[e].slot - 1]
    ensures (forall i :: 0 <= i < |ks| ==> ks[i] !in slow) ==>
      Disjoint(After(keys, ks, idx), Merge(slow, EvictedKeys(ev), evVals))
    ensures LogicalAfter(keys, rows, slow, ks, idx, vals, ev, evVals) == Merge(Logical(keys, rows, slow), ks, vals)
  {
    CarriesOwn(keys, refs, rows, ks, idx, vals, ev, evVals);
    hide Merge, Logical, LogicalAfter, Setting, Disjoint, RejectsCarryValue;
    DisjointAfter(keys, refs, rows, slow, ks, idx, vals, ev, evVals);
    EvictInsertMerges(keys, refs, rows, slow, ks, idx, vals, ev, evVals);
  }

  /** Scatter the host answers over the HBM ones, and compose the two lists of misses. */
  method MergeAnswers(ghost keys: Slots, ghost rows: seq<Row>, ghost slow: map<Key, Row>, ks: seq<Key>, hits: seq<int>,
                      loaded: seq<Row>, miss: seq<nat>, missKeys: seq<Key>, hostFounds: seq<bool>, hostVals: seq<Row>)
    returns (missing: seq<nat>, missingKeys: seq<Key>, founds: seq<bool>, vals: seq<Row>)
    requires TierAnswers(keys, rows, slow, ks, hits, loaded, hostFounds, hostVals)
    requires miss == Positions(Negative(hits)) && missKeys == Gather(ks, miss)
    ensures |founds| == |vals| == |ks|
    ensures var l := Logical(keys, rows, slow);
      forall i :: 0 <= i < |ks| ==> founds[i] == (ks[i] in l) && (founds[i] ==> vals[i] == l[ks[i]])
    ensures missing == Positions(Not(founds)) && missingKeys == Gather(ks, missing)
  {
    hide Positions, Logical;
    var at := Positions(hostFounds);
    ComposePositions(Negative(hits), hostFounds);
    founds := Scatter(Not(Negative(hits)), Gather(miss, at), seq(|at|, i => true));
    vals := Scatter(loaded, Gather(miss, at), Gather(hostVals, at));
    var both := Positions(Not(hostFounds));
    missing, missingKeys := Gather(miss, both), Gather(missKeys, both);
    Answered(keys, rows, slow, ks, hits, loaded, hostFounds, hostVals, founds, vals);
  }

  lemma {:induction false} Answered(keys: Slots, rows: seq<Row>, slow: map<Key, Row>, ks: seq<Key>, hits: seq<int>,
                 loaded: seq<Row>, hostFounds: seq<bool>, hostVals: seq<Row>,
                 founds: seq<bool>, vals: seq<Row>)
    requires TwoTierAnswer(keys, rows, slow, ks, hits, loaded, hostFounds, hostVals, founds, vals)
    ensures var l := Logical(keys, rows, slow);
      forall i :: 0 <= i < |ks| ==> founds[i] == (ks[i] in l) && (founds[i] ==> vals[i] == l[ks[i]])
    ensures var miss, both := Positions(Negative(hits)), Positions(Not(hostFounds));
      && Gather(miss, both) == Positions(Not(founds))
      && Gather(Gather(ks, miss), both) == Gather(ks, Positions(Not(founds)))
  {
    hide Logical, Positions, Gather;
    MissingInBoth(keys, rows, slow, ks, hits, loaded, hostFounds, hostVals, founds, vals);
    forall i | 0 <= i < |ks|
      ensures founds[i] == (ks[i] in Logical(keys, rows, slow))
      ensures founds[i] ==> vals[i] == Logical(keys, rows, slow)[ks[i]]
    {
      AnswerAt(keys, rows, slow, ks, hits, loaded, hostFounds, hostVals, founds, vals, i);
    }
  }

  /** With no miss in HBM, HBM alone answers. */
  lemma AllFound(keys: Slots, rows: seq<Row>, slow: map<Key, Row>, ks: seq<Key>, hits: seq<int>, vals: seq<Row>)
    requires |rows| == |keys| && |hits| == |vals| == |ks| && Positions(Negative(hits)) == []
    requires forall i :: 0 <= i < |ks| ==> hits[i] == SlotOf(keys, ks[i])
    requires forall i :: 0 <= i < |ks| && 0 <= hits[i] < |rows| ==> vals[i] == rows[hits[i]]
    ensures Not(Not(Negative(hits))) == Negative(hits)
    ensures var l := Logical(keys, rows, slow);
      forall i :: 0 <= i < |ks| ==> hits[i] >= 0 && ks[i] in l && vals[i] == l[ks[i]]
  {
    hide Positions, Logical;
    forall i | 0 <= i < |hits| ensures hits[i] >= 0 { PositionsMember(Negative(hits), i); }
  }
}
