/** The scored hash table behind the cache and the HBM tier, with its value buffer.
    A key lives in one bucket of slots or, for the cache, in an overflow region that is
    tried when every bucket slot is pinned. Slots of all logical tables share one numbering. */
module HashTable {
  import opened Common

  /** The half-open slot ranges a key may live in (hashing itself is not modelled), and for every
      slot the index of the counter an eviction looks at. Pinning counts at the slot itself. */
  datatype Layout = Layout(bucket: Key -> (nat, nat), overflow: Key -> (nat, nat), check: nat -> nat) {
    predicate Home(k: Key, s: int) {
      In(bucket(k), s) || In(overflow(k), s)
    }

    ghost predicate Within(n: nat) {
      && (forall k :: bucket(k).0 <= bucket(k).1 <= n && overflow(k).0 <= overflow(k).1 <= n)
      && (forall s: nat :: s < n ==> check(s) < n)
    }

    /** Eviction looks at the counter that pinning counts at. */
    ghost predicate Honest(n: nat) {
      forall s: nat :: s < n ==> check(s) == s
    }
  }

  predicate In(range: (nat, nat), s: int) { range.0 <= s < range.1 }

  ghost function RangeSlots(range: (nat, nat)): set<nat> { set s: nat | s < range.1 && In(range, s) }

  /** The counters as an eviction sees them, slot by slot. */
  ghost function Seen(layout: Layout, refs: seq<int>): (r: seq<int>)
    requires layout.Within(|refs|)
    ensures |r| == |refs| && forall s :: 0 <= s < |refs| ==> r[s] == refs[layout.check(s)]
  {
    seq(|refs|, s requires 0 <= s < |refs| => refs[layout.check(s)])
  }

  lemma SeenHonest(layout: Layout, refs: seq<int>)
    requires layout.Within(|refs|) && layout.Honest(|refs|)
    ensures Seen(layout, refs) == refs
  {
  }

  /** How a lookup or an insert changes a score word; a timer is `Assign` with the clock. */
  datatype ScorePolicy = Const | Assign | Accumulate {
    function Apply(old_: int, given: int): int {
      match this case Const => old_ case Assign => given case Accumulate => old_ + given
    }
  }

  /** What a step does to the score words: a hit changes its word by the policy, with the value given
      for the key, and an inserted key enters with its own. */
  datatype Scoring = Scoring(policy: ScorePolicy, given: Key -> int, entry: Key -> int)

  function Given(score: Key -> int, ks: seq<Key>): (r: seq<int>)
    ensures |r| == |ks| && forall i :: 0 <= i < |ks| ==> r[i] == score(ks[i])
  {
    seq(|ks|, i requires 0 <= i < |ks| => score(ks[i]))
  }

  /** Outcome of inserting one key: a slot and the key displaced from it, or rejection. */
  datatype Placement = Placed(slot: nat, displaced: Option<Key>) | Busy {
    function Index(): int { if Placed? then slot else -1 }
  }

  /** An entry of the eviction report. Rejected input `i` is reported with slot -(i+1). */
  datatype Evicted = Evicted(key: Key, slot: int)

  type Slots = seq<Option<Key>>

  ghost predicate Injective(keys: Slots) {
    forall s :: 0 <= s < |keys| && keys[s].Some? ==> IndexOf(keys, keys[s]) == s
  }

  /** Slot of a resident key, or -1. */
  ghost function SlotOf(keys: Slots, k: Key): (s: int)
    ensures -1 <= s < |keys|
  {
    IndexOf(keys, Some(k))
  }

  function Somes(ks: seq<Key>): (r: Slots)
    ensures |r| == |ks| && forall i :: 0 <= i < |r| ==> r[i] == Some(ks[i])
  {
    seq(|ks|, i requires 0 <= i < |ks| => Some(ks[i]))
  }

  /** What counter-aware insertion promises about the slots it picks: they are distinct and
      were empty or unpinned as eviction sees it; -1 stands for a rejected key. */
  ghost predicate GoodPlacement(keys: Slots, refs: seq<int>, ks: seq<Key>, idx: seq<int>)
    requires |refs| == |keys|
  {
    && |idx| == |ks|
    && (forall i :: 0 <= i < |idx| ==> -1 <= idx[i] < |keys|)
    && NoRepeats(idx)
    && (forall i :: 0 <= i < |idx| && idx[i] >= 0 ==> keys[idx[i]].None? || refs[idx[i]] <= 0)
  }

  function Report(keys: Slots, ks: seq<Key>, idx: seq<int>): (ev: seq<Evicted>)
    requires |idx| == |ks|
    requires forall i :: 0 <= i < |idx| ==> idx[i] < |keys|
  {
    if |idx| == 0 then []
    else
      var n := |idx| - 1;
      Report(keys, ks[..n], idx[..n]) +
        ReportOne(ks[n], n, if idx[n] < 0 then Busy else Placed(idx[n], keys[idx[n]]))
  }

  /** What the outcome of inserting input `n`, key `k`, adds to the eviction report. */
  function ReportOne(k: Key, n: nat, r: Placement): seq<Evicted> {
    if r.Busy? then [Evicted(k, -(n + 1))]
    else if r.displaced.Some? then [Evicted(r.displaced.value, r.slot)]
    else []
  }

  function Taken(idx: seq<int>): set<nat> {
    set i | 0 <= i < |idx| && idx[i] >= 0 :: idx[i]
  }

  /** Every slot of the range is taken by the same batch, or occupied and pinned. */
  ghost predicate Exhausted(range: (nat, nat), keys: Slots, seen: seq<int>, taken: set<nat>)
    requires |seen| == |keys|
  {
    forall q :: In(range, q) && q < |keys| ==> q in taken || (keys[q].Some? && seen[q] > 0)
  }

  /** The range has no empty slot left, and `s` has the smallest score of its evictable ones. */
  ghost predicate LeastScore(range: (nat, nat), keys: Slots, scores: seq<int>, seen: seq<int>, taken: set<nat>, s: nat)
    requires |seen| == |scores| == |keys| && s < |keys|
  {
    forall q :: In(range, q) && q < |keys| && q !in taken ==>
      keys[q].Some? && (seen[q] <= 0 ==> scores[s] <= scores[q])
  }

  /** How the slot of one key is chosen when `taken` was taken by the same batch: an empty slot of
      its bucket, else the bucket's evictable slot of smallest score; an overflow slot only if the
      bucket is exhausted, and rejection only if both are. */
  ghost predicate ChosenAt(layout: Layout, keys: Slots, scores: seq<int>, seen: seq<int>, k: Key,
                           taken: set<nat>, s: int)
    requires |seen| == |scores| == |keys|
  {
    if In(layout.bucket(k), s) then
      s < |keys| && (keys[s].Some? ==> LeastScore(layout.bucket(k), keys, scores, seen, taken, s))
    else
      && Exhausted(layout.bucket(k), keys, seen, taken)
      && if s >= 0 then In(layout.overflow(k), s) else Exhausted(layout.overflow(k), keys, seen, taken)
  }

  /** Every key of a batch got its slot in that way, one after the other. */
  ghost predicate Choices(layout: Layout, keys: Slots, scores: seq<int>, seen: seq<int>, ks: seq<Key>, idx: seq<int>)
    requires |seen| == |scores| == |keys| && |idx| == |ks|
  {
    forall j :: 0 <= j < |idx| ==> ChosenAt(layout, keys, scores, seen, ks[j], Taken(idx[..j]), idx[j])
  }

  /** Placing one more key extends the placement, the slots and the report. */
  lemma {:induction false} PlacementStep(keys: Slots, refs: seq<int>, ks: seq<Key>, idx: seq<int>, k: Key, s: int)
    requires |refs| == |keys| && GoodPlacement(keys, refs, ks, idx)
    requires -1 <= s < |keys| && (s >= 0 ==> s !in idx)
    requires s >= 0 ==> keys[s].None? || refs[s] <= 0
    ensures GoodPlacement(keys, refs, ks + [k], idx + [s])
    ensures Overlay(keys, idx + [s], Somes(ks + [k]))
         == if s < 0 then Overlay(keys, idx, Somes(ks)) else Overlay(keys, idx, Somes(ks))[s := Some(k)]
    ensures s >= 0 ==> Overlay(keys, idx, Somes(ks))[s] == keys[s]
    ensures Report(keys, ks + [k], idx + [s]) == Report(keys, ks, idx) +
      ReportOne(k, |ks|, if s < 0 then Busy else Placed(s, keys[s]))
  {
    assert Somes(ks + [k]) == Somes(ks) + [Some(k)];
    OverlayStep(keys, idx, Somes(ks), s, Some(k));
    assert (idx + [s])[..|idx|] == idx && (ks + [k])[..|ks|] == ks;
  }

  lemma ChoicesStep(layout: Layout, keys: Slots, scores: seq<int>, seen: seq<int>, ks: seq<Key>, idx: seq<int>,
                    k: Key, s: int)
    requires |seen| == |scores| == |keys| && |idx| == |ks| && Choices(layout, keys, scores, seen, ks, idx)
    requires ChosenAt(layout, keys, scores, seen, k, Taken(idx), s)
    ensures Choices(layout, keys, scores, seen, ks + [k], idx + [s])
  {
    hide ChosenAt;
    forall j | 0 <= j < |idx + [s]|
      ensures ChosenAt(layout, keys, scores, seen, (ks + [k])[j], Taken((idx + [s])[..j]), (idx + [s])[j])
    {
      assert (idx + [s])[..j] == idx[..j];
      if j == |idx| { assert idx[..j] == idx; }
    }
  }

  /** A choice made while the batch is under way is a choice on the slots as they were before. */
  lemma ChosenBefore(layout: Layout, was: Slots, marks: seq<int>, seen: seq<int>, idx: seq<int>, now: Slots,
                     scores: seq<int>, k: Key, s: int)
    requires |seen| == |scores| == |marks| == |was| == |now| && (s >= 0 ==> s !in idx)
    requires forall q :: 0 <= q < |was| && q !in idx ==> now[q] == was[q] && scores[q] == marks[q]
    requires ChosenAt(layout, now, scores, seen, k, Taken(idx), s)
    ensures ChosenAt(layout, was, marks, seen, k, Taken(idx), s)
  {
    forall q | 0 <= q < |was| ensures q in idx <==> q in Taken(idx) {
      if q in idx { assert idx[IndexOf(idx, q)] == q; }
    }
  }

  lemma TakenStep(idx: seq<int>, s: int)
    ensures Taken(idx + [s]) == if s < 0 then Taken(idx) else Taken(idx) + {s as nat}
  {
    var js := idx + [s];
    forall x | x in Taken(idx) ensures x in Taken(js) {
      var i :| 0 <= i < |idx| && idx[i] >= 0 && idx[i] == x;
      assert js[i] == x;
    }
    if s >= 0 { assert js[|idx|] == s; }
  }

  lemma {:induction false} SubsetSize<T>(a: set<T>, b: set<T>)
    requires a <= b
    ensures |a| <= |b|
  {
    if a != {} {
      var x :| x in a;
      SubsetSize(a - {x}, b - {x});
    }
  }

  /** How far an insertion of `ks` has come since the slots were `was` with scores `marks`. */
  ghost predicate Placing(layout: Layout, was: Slots, marks: seq<int>, seen: seq<int>, ks: seq<Key>, given: seq<int>,
                          idx: seq<int>, now: Slots, scores: seq<int>, evicted: seq<Evicted>, locked: set<nat>)
  {
    && |seen| == |marks| == |was| && |given| == |ks|
    && GoodPlacement(was, seen, ks, idx)
    && Choices(layout, was, marks, seen, ks, idx)
    && now == Overlay(was, idx, Somes(ks))
    && scores == Overlay(marks, idx, given)
    && evicted == Report(was, ks, idx)
    && locked == Taken(idx)
  }

  lemma NothingPlaced(layout: Layout, was: Slots, marks: seq<int>, seen: seq<int>)
    requires |seen| == |marks| == |was|
    ensures Placing(layout, was, marks, seen, [], [], [], was, marks, [], {})
  {
    assert Overlay(was, [], Somes([])) == was && Overlay(marks, [], []) == marks;
  }

  /** A slot that was given to a key holds one and is taken. */
  lemma GivenSlot(was: Slots, ks: seq<Key>, idx: seq<int>, now: Slots, s: nat)
    requires |idx| == |ks| && s < |was| && now == Overlay(was, idx, Somes(ks))
    ensures s in idx ==> now[s].Some? && s in Taken(idx)
  {
    if s in idx { assert idx[IndexOf(idx, s)] == s; }
  }

  lemma {:induction false} PlacingStep(layout: Layout, was: Slots, marks: seq<int>, seen: seq<int>, ks: seq<Key>,
                    given: seq<int>, idx: seq<int>, now: Slots, scores: seq<int>, evicted: seq<Evicted>,
                    locked: set<nat>, k: Key, score: int, r: Placement)
    requires Placing(layout, was, marks, seen, ks, given, idx, now, scores, evicted, locked)
    requires r.Placed? ==> r.slot < |now| && r.displaced == now[r.slot]
    requires r.Placed? && r.displaced.Some? ==> seen[r.slot] <= 0 && r.slot !in locked
    requires ChosenAt(layout, now, scores, seen, k, locked, r.Index())
    ensures Placing(layout, was, marks, seen, ks + [k], given + [score], idx + [r.Index()],
      if r.Placed? then now[r.slot := Some(k)] else now, if r.Placed? then scores[r.slot := score] else scores,
      evicted + ReportOne(k, |idx|, r), if r.Placed? then locked + {r.slot} else locked)
  {
    hide Choices, ChosenAt, Report, Taken, NoRepeats;
    var s := r.Index();
    if r.Placed? { GivenSlot(was, ks, idx, now, s); }
    PlacementStep(was, seen, ks, idx, k, s);
    OverlayStep(marks, idx, given, s, score);
    ChosenBefore(layout, was, marks, seen, idx, now, scores, k, s);
    ChoicesStep(layout, was, marks, seen, ks, idx, k, s);
    TakenStep(idx, s);
  }

  /** While a batch is being placed, its next key is still absent. */
  lemma NotYetResident(keys: Slots, ks: seq<Key>, idx: seq<int>)
    requires Distinct(ks) && |idx| < |ks|
    requires forall i :: 0 <= i < |ks| ==> Some(ks[i]) !in keys
    ensures Some(ks[|idx|]) !in Overlay(keys, idx, Somes(ks[..|idx|]))
  {
  }

  function EvictedKeys(ev: seq<Evicted>): (r: seq<Key>)
    ensures |r| == |ev| && forall e :: 0 <= e < |ev| ==> r[e] == ev[e].key
  {
    seq(|ev|, e requires 0 <= e < |ev| => ev[e].key)
  }

  function EvictedSlots(ev: seq<Evicted>): (r: seq<int>)
    ensures |r| == |ev| && forall e :: 0 <= e < |ev| ==> r[e] == ev[e].slot
  {
    seq(|ev|, e requires 0 <= e < |ev| => ev[e].slot)
  }

  /** What a report entry stands for: a displaced resident, or a rejected input. */
  ghost predicate Sound(keys: Slots, ks: seq<Key>, idx: seq<int>, v: Evicted)
    requires |idx| == |ks|
  {
    if v.slot >= 0 then v.slot < |keys| && v.slot in idx && keys[v.slot] == Some(v.key)
    else var j := -v.slot - 1; j < |idx| && idx[j] < 0 && v.key == ks[j]
  }

  lemma {:induction false} ReportSound(keys: Slots, ks: seq<Key>, idx: seq<int>)
    requires |idx| == |ks| && forall i :: 0 <= i < |idx| ==> idx[i] < |keys|
    ensures forall v :: v in Report(keys, ks, idx) ==> Sound(keys, ks, idx, v)
  {
    if |idx| > 0 {
      var n := |idx| - 1;
      ReportSound(keys, ks[..n], idx[..n]);
      forall v | v in Report(keys, ks, idx) ensures Sound(keys, ks, idx, v) {
        if v in Report(keys, ks[..n], idx[..n]) {
          assert Sound(keys, ks[..n], idx[..n], v);
          if v.slot >= 0 { assert v.slot in idx[..n]; }
        }
      }
    }
  }

  /** A report lists exactly the displaced residents and the rejected inputs, each once, in
      any order. */
  ghost predicate IsReport(keys: Slots, ks: seq<Key>, idx: seq<int>, ev: seq<Evicted>)
    requires |idx| == |ks|
  {
    && Distinct(EvictedKeys(ev))
    && (forall e :: 0 <= e < |ev| ==> Sound(keys, ks, idx, ev[e]))
    && (forall j :: 0 <= j < |idx| && idx[j] < 0 ==> Evicted(ks[j], -(j + 1)) in ev)
    && (forall j :: 0 <= j < |idx| && 0 <= idx[j] < |keys| && keys[idx[j]].Some? ==>
          Evicted(keys[idx[j]].value, idx[j]) in ev)
  }

  lemma {:induction false} ReportComplete(keys: Slots, ks: seq<Key>, idx: seq<int>, j: nat)
    requires |idx| == |ks| && j < |idx| && forall i :: 0 <= i < |idx| ==> idx[i] < |keys|
    ensures idx[j] < 0 ==> Evicted(ks[j], -(j + 1)) in Report(keys, ks, idx)
    ensures idx[j] >= 0 && keys[idx[j]].Some? ==> Evicted(keys[idx[j]].value, idx[j]) in Report(keys, ks, idx)
    decreases |idx|
  {
    var n := |idx| - 1;
    if j < n { ReportComplete(keys, ks[..n], idx[..n], j); }
  }

  /** The entry of the last input names a key that no entry before it names. */
  lemma {:induction false} LastEntryNew(keys: Slots, ks: seq<Key>, idx: seq<int>, v: Evicted)
    requires |idx| == |ks| > 0 && (forall i :: 0 <= i < |idx| ==> idx[i] < |keys|)
    requires NoRepeats(idx) && Injective(keys) && Distinct(ks)
    requires forall i :: 0 <= i < |ks| ==> Some(ks[i]) !in keys
    requires var n := |idx| - 1; Sound(keys, ks[..n], idx[..n], v)
    ensures var n := |idx| - 1; idx[n] < 0 ==> v.key != ks[n]
    ensures var n := |idx| - 1; idx[n] >= 0 && keys[idx[n]].Some? ==> v.key != keys[idx[n]].value
  {
    var n := |idx| - 1;
    assert IndexOf(ks, ks[n]) == n;
    if v.slot >= 0 {
      var i := IndexOf(idx[..n], v.slot);
      assert idx[i] == v.slot && IndexOf(idx, idx[i]) == i && IndexOf(keys, keys[v.slot]) == v.slot;
      if idx[n] >= 0 && keys[idx[n]].Some? { assert IndexOf(keys, keys[idx[n]]) == idx[n]; }
    } else {
      var j := -v.slot - 1;
      assert ks[..n][j] == ks[j] && IndexOf(ks, ks[j]) == j;
    }
  }

  lemma OneMoreReported(pre: seq<Evicted>, last: seq<Evicted>)
    requires Distinct(EvictedKeys(pre)) && |last| <= 1
    requires forall e :: 0 <= e < |pre| && last != [] ==> pre[e].key != last[0].key
    ensures Distinct(EvictedKeys(pre + last))
  {
    hide Distinct;
    if last == [] {
      assert pre + last == pre;
    } else {
      assert EvictedKeys(pre + last) == EvictedKeys(pre) + [last[0].key];
      AppendDistinct(EvictedKeys(pre), last[0].key);
    }
  }

  lemma Shorter(keys: Slots, refs: seq<int>, ks: seq<Key>, idx: seq<int>, n: nat)
    requires |refs| == |keys| && GoodPlacement(keys, refs, ks, idx) && Distinct(ks) && |idx| == n + 1
    ensures GoodPlacement(keys, refs, ks[..n], idx[..n]) && Distinct(ks[..n])
  {
    PrefixDistinct(ks, n);
    PrefixNoRepeats(idx, n);
  }

  /** No key is reported twice. */
  lemma {:induction false} ReportDistinct(keys: Slots, refs: seq<int>, ks: seq<Key>, idx: seq<int>)
    requires |refs| == |keys| && GoodPlacement(keys, refs, ks, idx)
    requires Injective(keys) && Distinct(ks)
    requires forall i :: 0 <= i < |ks| ==> Some(ks[i]) !in keys
    ensures Distinct(EvictedKeys(Report(keys, ks, idx)))
  {
    hide Sound, Distinct, NoRepeats, Injective;
    if |idx| > 0 {
      var n := |idx| - 1;
      Shorter(keys, refs, ks, idx, n);
      ReportDistinct(keys, refs, ks[..n], idx[..n]);
      ReportSound(keys, ks[..n], idx[..n]);
      var pre := Report(keys, ks[..n], idx[..n]);
      var last := ReportOne(ks[n], n, if idx[n] < 0 then Busy else Placed(idx[n], keys[idx[n]]));
      forall e | 0 <= e < |pre| && last != [] ensures pre[e].key != last[0].key {
        assert pre[e] in pre;
        LastEntryNew(keys, ks, idx, pre[e]);
      }
      OneMoreReported(pre, last);
    }
  }

  lemma {:induction false} ReportIsReport(keys: Slots, refs: seq<int>, ks: seq<Key>, idx: seq<int>)
    requires |refs| == |keys| && GoodPlacement(keys, refs, ks, idx)
    requires Injective(keys) && Distinct(ks)
    requires forall i :: 0 <= i < |ks| ==> Some(ks[i]) !in keys
    ensures IsReport(keys, ks, idx, Report(keys, ks, idx))
  {
    ReportSound(keys, ks, idx);
    ReportDistinct(keys, refs, ks, idx);
    forall j | 0 <= j < |idx|
      ensures idx[j] < 0 ==> Evicted(ks[j], -(j + 1)) in Report(keys, ks, idx)
      ensures idx[j] >= 0 && keys[idx[j]].Some? ==> Evicted(keys[idx[j]].value, idx[j]) in Report(keys, ks, idx)
    {
      ReportComplete(keys, ks, idx, j);
    }
  }

  function Bump(refs: seq<int>, slots: seq<int>, delta: int): (r: seq<int>)
    ensures |r| == |refs|
    ensures forall s :: 0 <= s < |refs| ==> r[s] == refs[s] + if s in slots then delta else 0
  {
    seq(|refs|, s requires 0 <= s < |refs| => refs[s] + if s in slots then delta else 0)
  }

  /** Score words after the slots were touched one after the other. */
  ghost function Scored(scores: seq<int>, slots: seq<int>, policy: ScorePolicy, given: seq<int>): (r: seq<int>)
    requires |given| == |slots|
    ensures |r| == |scores|
  {
    if slots == [] then scores
    else
      var n := |slots| - 1;
      var p := Scored(scores, slots[..n], policy, given[..n]);
      if 0 <= slots[n] < |scores| then p[slots[n] := policy.Apply(p[slots[n]], given[n])] else p
  }

  /** The scores after a lookup that hit different slots: kept, replaced or added to. */
  ghost function HitScores(scores: seq<int>, hits: seq<int>, policy: ScorePolicy, given: seq<int>): (r: seq<int>)
    requires |given| == |hits|
    ensures |r| == |scores|
  {
    seq(|scores|, s requires 0 <= s < |scores| =>
      var i := IndexOf(hits, s);
      if i < 0 || policy.Const? then scores[s] else if policy.Assign? then given[i] else scores[s] + given[i])
  }

  lemma SlotInPrefix(hits: seq<int>, n: nat, s: nat)
    requires NoRepeats(hits) && n + 1 == |hits|
    ensures IndexOf(hits, s) == if s == hits[n] then n else IndexOf(hits[..n], s)
    ensures s == hits[n] ==> s !in hits[..n]
  {
    var j := IndexOf(hits[..n], s);
    if j >= 0 { assert hits[j] == s && IndexOf(hits, hits[j]) == j; }
    if s == hits[n] { assert IndexOf(hits, hits[n]) == n; }
  }

  lemma {:induction false} ScoredIs(scores: seq<int>, hits: seq<int>, policy: ScorePolicy, given: seq<int>)
    requires |given| == |hits| && NoRepeats(hits)
    ensures Scored(scores, hits, policy, given) == HitScores(scores, hits, policy, given)
    decreases |hits|
  {
    if hits != [] {
      var n := |hits| - 1;
      PrefixNoRepeats(hits, n);
      ScoredIs(scores, hits[..n], policy, given[..n]);
      forall s | 0 <= s < |scores|
        ensures Scored(scores, hits, policy, given)[s] == HitScores(scores, hits, policy, given)[s]
      {
        SlotInPrefix(hits, n, s);
      }
    }
  }

  lemma {:induction false} ScoredConst(scores: seq<int>, slots: seq<int>, given: seq<int>)
    requires |given| == |slots|
    ensures Scored(scores, slots, Const, given) == scores
  {
    if slots != [] { ScoredConst(scores, slots[..|slots| - 1], given[..|slots| - 1]); }
  }

  class Table {
    const layout: Layout
    const keys: array<Option<Key>>
    const scores: array<int>
    const refs: array<int>
    const rows: array<Row>

    ghost predicate Valid()
      reads this, keys, scores, refs, rows
    {
      && keys.Length == scores.Length == refs.Length == rows.Length
      && scores != refs
      && layout.Within(keys.Length)
      && Injective(keys[..])
      && (forall s :: 0 <= s < keys.Length && keys[s].Some? ==> layout.Home(keys[s].value, s))
    }

    constructor (n: nat, layout: Layout)
      requires layout.Within(n)
      ensures Valid() && fresh(keys) && fresh(scores) && fresh(refs) && fresh(rows)
      ensures this.layout == layout && keys.Length == n
      ensures forall s :: 0 <= s < n ==> keys[s] == None && refs[s] == 0
    {
      this.layout := layout;
      keys := new Option<Key>[n](_ => None);
      scores := new int[n](_ => 0);
      refs := new int[n](_ => 0);
      rows := new Row[n](_ => []);
    }

    /** Bucket first, then overflow. */
    method Find(k: Key) returns (s: int)
      requires Valid()
      ensures s == SlotOf(keys[..], k)
    {
      var (lo, hi) := layout.bucket(k);
      s := lo;
      while s < hi
        invariant lo <= s <= hi
        invariant forall q :: lo <= q < s ==> keys[q] != Some(k)
      {
        if keys[s] == Some(k) { return; }
        s := s + 1;
      }
      lo, hi := layout.overflow(k).0, layout.overflow(k).1;
      s := lo;
      while s < hi
        invariant lo <= s <= hi
        invariant forall q :: layout.bucket(k).0 <= q < layout.bucket(k).1 ==> keys[q] != Some(k)
        invariant forall q :: lo <= q < s ==> keys[q] != Some(k)
      {
        if keys[s] == Some(k) { return; }
        s := s + 1;
      }
      s := -1;
    }

    method Lookup(ks: seq<Key>, policy: ScorePolicy, given: seq<int>) returns (slots: seq<int>)
      requires Valid() && |given| == |ks|
      modifies scores
      ensures Valid()
      ensures |slots| == |ks|
      ensures forall i :: 0 <= i < |ks| ==> slots[i] == SlotOf(keys[..], ks[i])
      ensures scores[..] == Scored(old(scores[..]), slots, policy, given)
    {
      slots := [];
      ghost var was := scores[..];
      for i := 0 to |ks|
        invariant Valid() && |slots| == i
        invariant forall j :: 0 <= j < i ==> slots[j] == SlotOf(keys[..], ks[j])
        invariant scores[..] == Scored(was, slots, policy, given[..i])
      {
        var s := Find(ks[i]);
        assert given[..i + 1][..i] == given[..i] && (slots + [s])[..i] == slots;
        if s >= 0 { scores[s] := policy.Apply(scores[s], given[i]); }
        slots := slots + [s];
      }
      assert given[..|ks|] == given;
    }

    /** Occupied, not taken by the same call, and unpinned by the counter eviction looks at. */
    predicate Evictable(s: nat, locked: set<nat>)
      reads this, keys, refs
      requires s < keys.Length && layout.check(s) < refs.Length
    {
      keys[s].Some? && refs[layout.check(s)] <= 0 && s !in locked
    }

    /** First empty slot of a bucket, and its evictable slot of smallest score. */
    method ScanBucket(lo: nat, hi: nat, locked: set<nat>) returns (empty: int, victim: int)
      requires Valid() && lo <= hi <= keys.Length
      ensures empty == -1 || (lo <= empty < hi && keys[empty].None?)
      ensures empty == -1 ==> forall s :: lo <= s < hi ==> keys[s].Some?
      ensures victim == -1 || (lo <= victim < hi && Evictable(victim, locked)
        && forall s :: lo <= s < hi && Evictable(s, locked) ==> scores[victim] <= scores[s])
      ensures victim == -1 ==> forall s :: lo <= s < hi ==> !Evictable(s, locked)
    {
      empty, victim := -1, -1;
      for s := lo to hi
        invariant empty == -1 || (lo <= empty < s && keys[empty].None?)
        invariant empty == -1 ==> forall q :: lo <= q < s ==> keys[q].Some?
        invariant victim == -1 || (lo <= victim < s && Evictable(victim, locked)
          && forall q :: lo <= q < s && Evictable(q, locked) ==> scores[victim] <= scores[q])
        invariant victim == -1 ==> forall q :: lo <= q < s ==> !Evictable(q, locked)
      {
        if empty == -1 && keys[s].None? { empty := s; }
        if Evictable(s, locked) && (victim == -1 || scores[s] < scores[victim]) { victim := s; }
      }
    }

    /** First overflow slot that is empty or evictable. */
    method ScanOverflow(lo: nat, hi: nat, locked: set<nat>) returns (slot: int)
      requires Valid() && lo <= hi <= keys.Length
      ensures slot == -1 || (lo <= slot < hi && (keys[slot].None? || Evictable(slot, locked)))
      ensures slot == -1 ==> forall s :: lo <= s < hi ==> keys[s].Some? && !Evictable(s, locked)
    {
      for s := lo to hi
        invariant forall q :: lo <= q < s ==> keys[q].Some? && !Evictable(q, locked)
      {
        if keys[s].None? || Evictable(s, locked) { return s; }
      }
      return -1;
    }

    /** The slot for a new key: an empty one of its bucket, else the bucket's evictable slot of
        smallest score, else an overflow slot. Slots in `locked` were taken by the same call. */
    method ChooseSlot(k: Key, locked: set<nat>) returns (s: int)
      requires Valid()
      ensures -1 <= s < keys.Length && (s >= 0 ==> keys[s].None? || Evictable(s, locked))
      ensures ChosenAt(layout, keys[..], scores[..], Seen(layout, refs[..]), k, locked, s)
    {
      var (lo, hi) := layout.bucket(k);
      var empty, victim := ScanBucket(lo, hi, locked);
      s := if empty >= 0 then empty else victim;
      ghost var seen := Seen(layout, refs[..]);
      assert forall q :: 0 <= q < keys.Length ==>
        Evictable(q, locked) == (keys[..][q].Some? && seen[q] <= 0 && q !in locked);
      if s < 0 {
        assert Exhausted(layout.bucket(k), keys[..], seen, locked);
        var (olo, ohi) := layout.overflow(k);
        s := ScanOverflow(olo, ohi, locked);
        assert s < 0 ==> Exhausted(layout.overflow(k), keys[..], seen, locked);
        assert s >= 0 ==> !In(layout.bucket(k), s);
      }
    }

    /** Insert a key that is not resident. */
    method InsertOne(k: Key, score: int, locked: set<nat>) returns (r: Placement)
      requires Valid() && Some(k) !in keys[..]
      modifies keys, scores
      ensures Valid()
      ensures r.Placed? ==>
        && r.slot < keys.Length && r.displaced == old(keys[r.slot])
        && (r.displaced.None? || old(Evictable(r.slot, locked)))
        && keys[..] == old(keys[..])[r.slot := Some(k)] && scores[..] == old(scores[..])[r.slot := score]
      ensures r.Busy? ==> keys[..] == old(keys[..]) && scores[..] == old(scores[..])
      ensures ChosenAt(layout, old(keys[..]), old(scores[..]), Seen(layout, refs[..]), k, locked, r.Index())
    {
      var s := ChooseSlot(k, locked);
      assert s >= 0 ==> layout.Home(k, s);
      hide ChosenAt;
      if s < 0 { return Busy; }
      r := Placed(s, keys[s]);
      ghost var before, marks := keys[..], scores[..];
      keys[s] := Some(k);
      scores[s] := score;
      assert keys[..] == before[s := Some(k)] && scores[..] == marks[s := score];
    }

    method PlaceNext(ghost was: Slots, ghost marks: seq<int>, k: Key, score: int, ghost ks: seq<Key>,
                     ghost given: seq<int>, idx: seq<int>, evicted: seq<Evicted>, locked: set<nat>)
      returns (idx': seq<int>, evicted': seq<Evicted>, locked': set<nat>)
      requires Valid() && Some(k) !in keys[..]
      requires Placing(layout, was, marks, Seen(layout, refs[..]), ks, given, idx, keys[..], scores[..], evicted,
                       locked)
      modifies keys, scores
      ensures Valid()
      ensures Placing(layout, was, marks, Seen(layout, refs[..]), ks + [k], given + [score], idx', keys[..], scores[..],
                      evicted', locked')
    {
      hide ChosenAt, Choices;
      ghost var now, counts := keys[..], scores[..];
      var r := InsertOne(k, score, locked);
      PlacingStep(layout, was, marks, Seen(layout, refs[..]), ks, given, idx, now, counts, evicted, locked, k, score,
                  r);
      idx' := idx + [r.Index()];
      evicted' := evicted + ReportOne(k, |idx|, r);
      locked' := if r.Placed? then locked + {r.slot} else locked;
      assert keys[..] == if r.Placed? then now[r.slot := Some(k)] else now;
    }

    /** Insert a batch; keys placed by this call are locked against its own evictions. */
    method InsertAndEvict(ks: seq<Key>, given: seq<int>) returns (idx: seq<int>, evicted: seq<Evicted>)
      requires Valid() && Distinct(ks) && |given| == |ks|
      requires forall i :: 0 <= i < |ks| ==> Some(ks[i]) !in keys[..]
      modifies keys, scores
      ensures Valid()
      ensures GoodPlacement(old(keys[..]), Seen(layout, refs[..]), ks, idx)
      ensures Choices(layout, old(keys[..]), old(scores[..]), Seen(layout, refs[..]), ks, idx)
      ensures keys[..] == Overlay(old(keys[..]), idx, Somes(ks))
      ensures scores[..] == Overlay(old(scores[..]), idx, given)
      ensures IsReport(old(keys[..]), ks, idx, evicted)
    {
      hide Report, Overlay, Choices, IsReport, Taken;
      idx, evicted := [], [];
      var locked: set<nat> := {};
      ghost var was, marks := keys[..], scores[..];
      NothingPlaced(layout, was, marks, Seen(layout, refs[..]));
      for i := 0 to |ks|
        invariant Valid() && |idx| == i
        invariant Placing(layout, was, marks, Seen(layout, refs[..]), ks[..i], given[..i], idx, keys[..], scores[..],
                          evicted, locked)
      {
        NotYetResident(was, ks, idx);
        idx, evicted, locked := PlaceNext(was, marks, ks[i], given[i], ks[..i], given[..i], idx, evicted, locked);
        assert ks[..i + 1] == ks[..i] + [ks[i]] && given[..i + 1] == given[..i] + [given[i]];
      }
      assert ks[..|ks|] == ks && given[..|ks|] == given;
      ReportIsReport(was, Seen(layout, refs[..]), ks, idx);
    }

    /** Add `delta` to the counters of the given slots; negative slots are skipped. */
    method UpdateCounter(slots: seq<int>, delta: int)
      requires Valid() && forall i :: 0 <= i < |slots| ==> slots[i] < refs.Length
      modifies refs
      ensures Valid() && (NoRepeats(slots) ==> refs[..] == Bump(old(refs[..]), slots, delta))
    {
      ghost var was := refs[..];
      for i := 0 to |slots|
        invariant Valid() && (NoRepeats(slots) ==> refs[..] == Bump(was, slots[..i], delta))
      {
        assert slots[..i + 1] == slots[..i] + [slots[i]];
        if slots[i] >= 0 {
          assert NoRepeats(slots) ==> slots[i] !in slots[..i];
          refs[slots[i]] := refs[slots[i]] + delta;
        }
      }
      assert slots[..|slots|] == slots;
    }

    /** Read rows; where the slot is negative the freshly allocated output keeps `junk`. */
    method LoadFromFlat(slots: seq<int>, junk: seq<Row>) returns (out: seq<Row>)
      requires Valid() && |junk| == |slots|
      requires forall i :: 0 <= i < |slots| ==> slots[i] < rows.Length
      ensures |out| == |slots|
      ensures forall i :: 0 <= i < |slots| ==>
        out[i] == if slots[i] < 0 then junk[i] else rows[slots[i]]
    {
      out := [];
      for i := 0 to |slots|
        invariant |out| == i
        invariant forall j :: 0 <= j < i ==> out[j] == if slots[j] < 0 then junk[j] else rows[slots[j]]
      {
        out := out + [if slots[i] < 0 then junk[i] else rows[slots[i]]];
      }
    }

    /** Write rows; negative slots are skipped. */
    method StoreToFlat(slots: seq<int>, vals: seq<Row>)
      requires Valid() && |vals| == |slots| && NoRepeats(slots)
      requires forall i :: 0 <= i < |slots| ==> slots[i] < rows.Length
      modifies rows
      ensures Valid() && rows[..] == Overlay(old(rows[..]), slots, vals)
    {
      ghost var was := rows[..];
      for i := 0 to |slots|
        invariant Valid() && rows[..] == Overlay(was, slots[..i], vals[..i])
      {
        assert slots[..i + 1] == slots[..i] + [slots[i]] && vals[..i + 1] == vals[..i] + [vals[i]];
        OverlayStep(was, slots[..i], vals[..i], slots[i], vals[i]);
        if slots[i] >= 0 { rows[slots[i]] := vals[i]; }
      }
      assert slots[..|slots|] == slots && vals[..|vals|] == vals;
    }
  }
}
