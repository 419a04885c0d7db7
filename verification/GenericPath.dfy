/** Forward and backward on a storage used without prefetching: rows are copied out at
    forward, updated as copies, and written back at backward. */
module GenericPath {
  import opened Common
  import opened PlainStore
  import opened HashTable
  import opened BackingStore
  import opened Admission
  import opened CachePath
  import opened TwoLevel
  import opened Hybrid

  /** `pos` names exactly the batch keys that are new and admitted. */
  ghost predicate AdmittedAt(cfg: Config, p: Plain, b: Batch, pos: seq<nat>)
    requires b.Ok()
  {
    && Distinct(pos) && (forall j :: 0 <= j < |pos| ==> pos[j] < |b.keys|)
    && (forall i :: 0 <= i < |b.keys| ==> (i in pos <==> b.keys[i] in Admitted(cfg, p, b)))
  }

  /** The missing keys of a lookup are the batch keys that are not stored. */
  lemma MissingAreNew(p: Plain, b: Batch, founds: seq<bool>, missing: seq<nat>)
    requires b.Ok() && |founds| == |b.keys| && missing == Positions(Not(founds))
    requires forall i :: 0 <= i < |founds| ==> founds[i] == (b.keys[i] in p.rows)
    ensures var news := Gather(b.keys, missing);
      && Distinct(news)
      && (forall k :: k in news <==> k in b.keys && k !in p.rows)
      && (forall j :: 0 <= j < |news| ==> Gather(b.freqs, missing)[j] == FreqIn(b, news[j]))
  {
    hide Positions;
    var news := Gather(b.keys, missing);
    GatherDistinct(b.keys, missing);
    forall k ensures k in news <==> k in b.keys && k !in p.rows {
      GatherMember(b.keys, missing, k);
      if k in b.keys { assert founds[IndexOf(b.keys, k)] == (k in p.rows); }
    }
    forall j | 0 <= j < |news| ensures Gather(b.freqs, missing)[j] == FreqIn(b, news[j]) {
      FreqAt(b, missing[j]);
    }
  }

  lemma AdmittedPositions(cfg: Config, p: Plain, b: Batch, founds: seq<bool>, missing: seq<nat>, admit: seq<bool>)
    requires b.Ok() && |founds| == |b.keys| && missing == Positions(Not(founds)) && |admit| == |missing|
    requires forall i :: 0 <= i < |founds| ==> founds[i] == (b.keys[i] in p.rows)
    requires forall j :: 0 <= j < |missing| ==>
      admit[j] == Admitting(cfg, p.counts, b.keys[missing[j]], b.freqs[missing[j]])
    ensures AdmittedAt(cfg, p, b, Gather(missing, Positions(admit)))
  {
    hide Positions, Admitting, Admitted;
    ComposePositions(Not(founds), admit);
    var pos := Gather(missing, Positions(admit));
    hide *;
    forall i | 0 <= i < |founds| ensures i in pos <==> b.keys[i] in Admitted(cfg, p, b) {
      AdmittedHere(cfg, p, b, founds, missing, admit, i);
    }
    AdmittedAtIs(cfg, p, b, pos);
  }

  lemma AdmittedAtIs(cfg: Config, p: Plain, b: Batch, pos: seq<nat>)
    requires b.Ok() && Distinct(pos) && (forall j :: 0 <= j < |pos| ==> pos[j] < |b.keys|)
    requires forall i :: 0 <= i < |b.keys| ==> (i in pos <==> b.keys[i] in Admitted(cfg, p, b))
    ensures AdmittedAt(cfg, p, b, pos)
  {
  }

  lemma AdmittedHere(cfg: Config, p: Plain, b: Batch, founds: seq<bool>, missing: seq<nat>, admit: seq<bool>, i: nat)
    requires b.Ok() && |founds| == |b.keys| && missing == Positions(Not(founds)) && |admit| == |missing|
    requires i < |founds| && founds[i] == (b.keys[i] in p.rows)
    requires forall j :: 0 <= j < |missing| ==>
      admit[j] == Admitting(cfg, p.counts, b.keys[missing[j]], b.freqs[missing[j]])
    ensures i in Gather(missing, Positions(admit)) <==> b.keys[i] in Admitted(cfg, p, b)
  {
    hide Positions, Admitting, Admitted;
    ComposePositions(Not(founds), admit);
    PositionsMember(Not(founds), i);
    if !founds[i] {
      assert missing[IndexOf(missing, i)] == i;
      NewAdmitted(cfg, p, b, i);
    } else {
      StoredNotAdmitted(cfg, p, b, b.keys[i]);
    }
  }

  lemma NewAdmitted(cfg: Config, p: Plain, b: Batch, i: nat)
    requires b.Ok() && i < |b.keys| && b.keys[i] !in p.rows
    ensures b.keys[i] in Admitted(cfg, p, b) <==> Admitting(cfg, p.counts, b.keys[i], b.freqs[i])
  {
    FreqAt(b, i);
  }

  lemma StoredNotAdmitted(cfg: Config, p: Plain, b: Batch, k: Key)
    requires b.Ok() && k in p.rows
    ensures k !in Admitted(cfg, p, b)
  {
  }

  /** Inserting the admitted keys with their initial rows is the plain prefetch. */
  lemma {:induction false} AdmittedMerge(cfg: Config, p: Plain, b: Batch, pos: seq<nat>, rows: seq<Row>)
    requires b.Ok() && AdmittedAt(cfg, p, b, pos) && |rows| == |pos|
    requires forall j :: 0 <= j < |pos| ==> rows[j] == cfg.init(b.keys[pos[j]])
    ensures Distinct(Gather(b.keys, pos))
    ensures forall j :: 0 <= j < |pos| ==> b.keys[pos[j]] !in p.rows
    ensures Merge(p.rows, Gather(b.keys, pos), rows) == PrefetchRows(cfg, p, b)
  {
    var ks, r := Gather(b.keys, pos), PrefetchRows(cfg, p, b);
    GatherDistinct(b.keys, pos);
    forall j | 0 <= j < |pos| ensures b.keys[pos[j]] in Admitted(cfg, p, b) { assert pos[j] in pos; }
    forall k | k in Admitted(cfg, p, b) ensures k in ks {
      assert ks[IndexOf(pos, IndexOf(b.keys, k))] == k;
    }
    MergeIs(p.rows, ks, rows, r);
  }

  /** The rows of the kept keys are the stored ones of the plain prefetch. */
  lemma KeptRows(cfg: Config, p: Plain, b: Batch, loaded: seq<Row>, pos: seq<nat>, vals: seq<Row>)
    requires b.Ok() && |loaded| == |vals| == |b.keys| && AdmittedAt(cfg, p, b, pos)
    requires forall i :: 0 <= i < |b.keys| && b.keys[i] in p.rows ==> loaded[i] == p.rows[b.keys[i]]
    requires forall j :: 0 <= j < |pos| ==> vals[pos[j]] == cfg.init(b.keys[pos[j]])
    requires forall i :: 0 <= i < |b.keys| && i !in pos ==> vals[i] == loaded[i]
    ensures forall i :: 0 <= i < |b.keys| && Keeps(cfg, p, b, b.keys[i]) ==>
      b.keys[i] in PrefetchRows(cfg, p, b) && vals[i] == PrefetchRows(cfg, p, b)[b.keys[i]]
  {
    forall i | 0 <= i < |b.keys| && Keeps(cfg, p, b, b.keys[i])
      ensures b.keys[i] in PrefetchRows(cfg, p, b) && vals[i] == PrefetchRows(cfg, p, b)[b.keys[i]]
    {
      if i in pos { assert pos[IndexOf(pos, i)] == i; }
      else { assert b.keys[i] in p.rows; }
    }
  }

  /** The found and the admitted keys are the kept ones. */
  lemma PersistedAreKept(cfg: Config, p: Plain, b: Batch, founds: seq<bool>, pos: seq<nat>, persisted: seq<bool>)
    requires b.Ok() && |founds| == |persisted| == |b.keys| && AdmittedAt(cfg, p, b, pos)
    requires forall i :: 0 <= i < |founds| ==> founds[i] == (b.keys[i] in p.rows)
    requires forall i :: 0 <= i < |founds| ==> persisted[i] == (i in pos || founds[i])
    ensures persisted == MakeTicket(cfg, p, b).kept
  {
    var kept := MakeTicket(cfg, p, b).kept;
    forall i | 0 <= i < |b.keys| ensures persisted[i] == kept[i] {
      assert kept[i] == Keeps(cfg, p, b, b.keys[i]);
      assert b.keys[i] in b.keys;
    }
  }

  /** The positions of the keys that are stored after the forward. */
  method PersistedPositions(cfg: Config, ghost p: Plain, b: Batch, founds: seq<bool>, pos: seq<nat>)
    returns (persisted: seq<nat>)
    requires b.Ok() && |founds| == |b.keys| && AdmittedAt(cfg, p, b, pos)
    requires forall i :: 0 <= i < |founds| ==> founds[i] == (b.keys[i] in p.rows)
    ensures persisted == Positions(MakeTicket(cfg, p, b).kept)
  {
    hide Positions, Admitted, MakeTicket;
    var kept := Scatter(founds, pos, seq(|pos|, i => true));
    forall i | 0 <= i < |founds| ensures kept[i] == (i in pos || founds[i]) {
      if i in pos { assert pos[IndexOf(pos, i)] == i; }
    }
    PersistedAreKept(cfg, p, b, founds, pos, kept);
    persisted := Positions(kept);
  }

  /** Without an admission strategy every missing key is inserted. */
  method ApplyAdmission(cfg: Config, counter: Counter, ks: seq<Key>, freqs: seq<nat>) returns (admit: seq<bool>)
    requires |freqs| == |ks| && Distinct(ks)
    modifies counter
    ensures |admit| == |ks|
    ensures forall i :: 0 <= i < |ks| ==> admit[i] == Admitting(cfg, old(counter.counts), ks[i], freqs[i])
    ensures CountsAfter(cfg, old(counter.counts), counter.counts, ks, freqs)
  {
    if cfg.threshold.None? {
      admit := seq(|ks|, i => true);
    } else {
      admit := PresentNew(cfg, counter, ks, freqs);
    }
  }

  /** Decide which missing keys are inserted and initialise their rows. */
  method AdmitAndInitialise(cfg: Config, ghost p: Plain, counter: Counter, b: Batch, founds: seq<bool>,
                            missing: seq<nat>, loaded: seq<Row>)
    returns (pos: seq<nat>, vals: seq<Row>)
    requires b.Ok() && |founds| == |loaded| == |b.keys| && missing == Positions(Not(founds))
    requires forall i :: 0 <= i < |founds| ==> founds[i] == (b.keys[i] in p.rows)
    requires p.counts == counter.counts
    modifies counter
    ensures AdmittedAt(cfg, p, b, pos) && counter.counts == PrefetchCounts(cfg, p, b)
    ensures |vals| == |b.keys|
    ensures forall j :: 0 <= j < |pos| ==> vals[pos[j]] == cfg.init(b.keys[pos[j]])
    ensures forall i :: 0 <= i < |b.keys| && i !in pos ==> vals[i] == loaded[i]
  {
    hide Positions, PrefetchCounts, CountsAfter, Admitting, Admitted, FreqIn;
    MissingAreNew(p, b, founds, missing);
    var ks, freqs := Gather(b.keys, missing), Gather(b.freqs, missing);
    var admit := ApplyAdmission(cfg, counter, ks, freqs);
    CountsMatch(cfg, p, b, ks, freqs, counter.counts);
    AdmittedPositions(cfg, p, b, founds, missing, admit);
    pos := Gather(missing, Positions(admit));
    vals := Scatter(loaded, pos, seq(|pos|, j requires 0 <= j < |pos| => cfg.init(b.keys[pos[j]])));
  }

  /** Find, admit, initialise, insert. Returns the rows of the batch and the positions whose
      key is stored afterwards. */
  method GenericForward(cfg: Config, st: HybridStorage, counter: Counter, b: Batch,
                        scoring: Scoring, junk: nat -> Row)
    returns (vals: seq<Row>, persisted: seq<nat>, ghost pos: seq<nat>, ghost idx: seq<int>)
    requires st.Valid() && b.Ok()
    modifies st.hbm.keys, st.hbm.scores, st.hbm.rows, st.host, counter
    ensures st.Valid()
    ensures var p := PlainOf(old(st.Union()), old(counter.counts));
      && st.Union() == PrefetchRows(cfg, p, b) && counter.counts == PrefetchCounts(cfg, p, b)
      && persisted == Positions(MakeTicket(cfg, p, b).kept)
      && |vals| == |b.keys|
      && forall i :: 0 <= i < |b.keys| && Keeps(cfg, p, b, b.keys[i]) ==>
           b.keys[i] in st.Union() && vals[i] == st.Union()[b.keys[i]]
    ensures var p := PlainOf(old(st.Union()), old(counter.counts));
      && AdmittedAt(cfg, p, b, pos)
      && TierPlaced(st.hbm, old(st.hbm.keys[..]), old(st.hbm.scores[..]), scoring, b, pos, idx)
    ensures WrittenBack(old(st.hbm.keys[..]), old(st.hbm.rows[..]), old(st.host.Map()), Gather(b.keys, pos), idx,
                        st.host.Map())
  {
    hide Positions, PrefetchCounts, PrefetchRows, Admitted, Merge, Keeps, Logical, Disjoint, PlacesFresh,
      DistinctRows, Contents, Injective, Distinct, MakeTicket, Scored, Choices, GoodPlacement, Overlay, WrittenBack,
      AdmittedAt;
    ghost var p := PlainOf(st.Union(), counter.counts);
    var missing, missingKeys, founds, loaded := st.Find(b.keys, scoring, junk);
    var at;
    at, vals := AdmitAndInitialise(cfg, p, counter, b, founds, missing, loaded);
    AdmittedBelow(cfg, p, b, at);
    AdmittedMerge(cfg, p, b, at, Gather(vals, at));
    KeptRows(cfg, p, b, loaded, at, vals);
    persisted := PersistedPositions(cfg, p, b, founds, at);
    var ks := Gather(b.keys, at);
    idx := st.Insert(ks, Gather(vals, at), Given(scoring.entry, ks), junk);
    pos := at;
  }

  lemma AdmittedBelow(cfg: Config, p: Plain, b: Batch, pos: seq<nat>)
    requires b.Ok() && AdmittedAt(cfg, p, b, pos)
    ensures forall j :: 0 <= j < |pos| ==> pos[j] < |b.keys|
  {
  }

  /** The keys at the positions `pos` are in HBM, in slots chosen by the scores after the lookup, with
      the scores they entered with; `idx` are the slots, -1 for keys that found none. */
  ghost predicate TierPlaced(hbm: Table, keys: Slots, scores: seq<int>, scoring: Scoring, b: Batch, pos: seq<nat>,
                             idx: seq<int>)
    reads hbm, hbm.keys, hbm.scores, hbm.refs, hbm.rows
  {
    && hbm.Valid() && |keys| == |scores| == hbm.keys.Length
    && (forall j :: 0 <= j < |pos| ==> pos[j] < |b.keys|)
    && var ks, seen := Gather(b.keys, pos), Seen(hbm.layout, hbm.refs[..]);
    var marks := Scored(scores, HitsOf(keys, b.keys), scoring.policy, Given(scoring.given, b.keys));
    && GoodPlacement(keys, seen, ks, idx) && Choices(hbm.layout, keys, marks, seen, ks, idx)
    && hbm.keys[..] == After(keys, ks, idx) && hbm.scores[..] == Overlay(marks, idx, Given(scoring.entry, ks))
  }

  /** Writing the updated copies of the persisted keys is the plain update of the batch. */
  lemma RefreshedIsUpdated(cfg: Config, m: map<Key, Row>, t: Ticket, pos: seq<nat>, vals: seq<Row>, news: seq<Row>,
                           outs: seq<seq<Row>>, loss: (seq<seq<Row>>, Key) -> Row)
    requires TicketOk(t, m) && pos == Positions(t.kept) && |vals| == |news| == |t.keys|
    requires forall i :: 0 <= i < |t.keys| && t.kept[i] ==> vals[i] == m[t.keys[i]]
    requires forall i :: 0 <= i < |t.keys| ==> news[i] == cfg.update(vals[i], loss(outs, t.keys[i]))
    ensures Distinct(Gather(t.keys, pos))
    ensures Refreshed(m, Gather(t.keys, pos), Gather(news, pos)) == Updated(cfg, m, t, outs, loss)
  {
    hide Positions;
    var ks := Gather(t.keys, pos);
    GatherDistinct(t.keys, pos);
    forall k | k in m
      ensures k in ks <==> KeptIn(t, k)
      ensures k in ks ==> Gather(news, pos)[IndexOf(ks, k)] == cfg.update(m[k], loss(outs, k))
    {
      GatherMember(t.keys, pos, k);
      if k in ks {
        var j := IndexOf(ks, k);
        assert t.keys[pos[j]] == k && t.kept[pos[j]];
      }
    }
  }

  /** Update the copies taken at forward and store those of the persisted keys; no key set
      changes. `scoring` is that of the lookup. */
  method GenericBackward(cfg: Config, st: HybridStorage, ghost t: Ticket, keys: seq<Key>, vals: seq<Row>,
                         persisted: seq<nat>, grads: seq<Row>,
                         scoring: Scoring, ghost outs: seq<seq<Row>>, ghost loss: (seq<seq<Row>>, Key) -> Row)
    requires st.Valid() && TicketOk(t, st.Union()) && t.keys == keys && persisted == Positions(t.kept)
    requires |vals| == |grads| == |keys|
    requires forall i :: 0 <= i < |keys| && t.kept[i] ==> vals[i] == st.Union()[keys[i]]
    requires forall i :: 0 <= i < |keys| ==> grads[i] == loss(outs, keys[i])
    modifies st.hbm.scores, st.hbm.rows, st.host
    ensures st.Valid() && st.host.rowOf == old(st.host.rowOf)
    ensures st.Union() == Updated(cfg, old(st.Union()), t, outs, loss)
  {
    hide Positions, Logical, Disjoint, PlacesFresh, DistinctRows, Contents, Injective, Distinct, Updated, Refreshed;
    var news := seq(|keys|, i requires 0 <= i < |keys| => cfg.update(vals[i], grads[i]));
    RefreshedIsUpdated(cfg, st.Union(), t, persisted, vals, news, outs, loss);
    st.Refresh(Gather(keys, persisted), Gather(news, persisted), scoring);
  }

  /** One batch of the plain store, from prefetch to backward. */
  ghost function TrainBatch(cfg: Config, p: Plain, b: Batch, loss: (seq<seq<Row>>, Key) -> Row): (q: Plain)
    requires Inv(p) && p.waiting == [] && p.active == [] && b.Ok()
    ensures Inv(q) && q.waiting == [] && q.active == []
  {
    Step(cfg, Step(cfg, Step(cfg, p, Prefetch(b)), Forward), Backward(0, loss))
  }

  /** What a batch does to the rows and the counter of the plain store. */
  lemma TrainBatchIs(cfg: Config, p: Plain, b: Batch, loss: (seq<seq<Row>>, Key) -> Row)
    requires Inv(p) && p.waiting == [] && p.active == [] && b.Ok()
    ensures var q, t := Step(cfg, p, Prefetch(b)), MakeTicket(cfg, p, b);
      && TicketOk(t, PrefetchRows(cfg, p, b))
      && var outs := p.outs + [Output(cfg, PrefetchRows(cfg, p, b), t)];
      && TrainBatch(cfg, p, b, loss).rows == Updated(cfg, PrefetchRows(cfg, p, b), t, outs, loss)
      && TrainBatch(cfg, p, b, loss).counts == PrefetchCounts(cfg, p, b)
      && TrainBatch(cfg, p, b, loss).outs == outs
  {
    var q := Step(cfg, p, Prefetch(b));
    assert q.waiting[0] in q.waiting && q.waiting == [MakeTicket(cfg, p, b)];
    hide PrefetchRows, PrefetchCounts, MakeTicket, Updated, Output;
    assert q.waiting[1..] == [];
    var f := Step(cfg, q, Forward);
    assert f.active == [MakeTicket(cfg, p, b)];
  }

  /** Two output histories agree at the positions of the kept keys. */
  ghost predicate AgreeAt(kept: seq<bool>, o: seq<Row>, o': seq<Row>) {
    |o| == |o'| == |kept| && forall i :: 0 <= i < |kept| && kept[i] ==> o[i] == o'[i]
  }

  ghost predicate Agree(masks: seq<seq<bool>>, outs: seq<seq<Row>>, outs': seq<seq<Row>>) {
    |outs| == |outs'| == |masks| && forall j :: 0 <= j < |masks| ==> AgreeAt(masks[j], outs[j], outs'[j])
  }

  /** The loss does not look at the outputs of keys that were not admitted. */
  ghost predicate Blind(loss: (seq<seq<Row>>, Key) -> Row, masks: seq<seq<bool>>) {
    forall outs, outs', k :: Agree(masks, outs, outs') ==> loss(outs, k) == loss(outs', k)
  }

  /** Where every key is kept, as without an admission strategy, this asks nothing of the loss. */
  lemma AllKeptBlind(loss: (seq<seq<Row>>, Key) -> Row, masks: seq<seq<bool>>)
    requires forall j, i :: 0 <= j < |masks| && 0 <= i < |masks[j]| ==> masks[j][i]
    ensures Blind(loss, masks)
  {
    forall outs, outs', k | Agree(masks, outs, outs') ensures loss(outs, k) == loss(outs', k) {
      forall j | 0 <= j < |masks| ensures outs[j] == outs'[j] { assert AgreeAt(masks[j], outs[j], outs'[j]); }
      assert outs == outs';
    }
  }

  lemma AgreeStep(masks: seq<seq<bool>>, outs: seq<seq<Row>>, outs': seq<seq<Row>>, kept: seq<bool>,
                  o: seq<Row>, o': seq<Row>)
    requires Agree(masks, outs, outs') && AgreeAt(kept, o, o')
    ensures Agree(masks + [kept], outs + [o], outs' + [o'])
  {
  }

  /** The forward's outputs agree with the plain ones on the kept keys. */
  lemma ForwardAgrees(cfg: Config, p: Plain, b: Batch, vals: seq<Row>, out: seq<Row>)
    requires b.Ok() && |vals| == |out| == |b.keys| && TicketOk(MakeTicket(cfg, p, b), PrefetchRows(cfg, p, b))
    requires forall i :: 0 <= i < |b.keys| ==> out[i] == cfg.emb(vals[i])
    requires forall i :: 0 <= i < |b.keys| && Keeps(cfg, p, b, b.keys[i]) ==>
      b.keys[i] in PrefetchRows(cfg, p, b) && vals[i] == PrefetchRows(cfg, p, b)[b.keys[i]]
    ensures var t := MakeTicket(cfg, p, b); AgreeAt(t.kept, out, Output(cfg, PrefetchRows(cfg, p, b), t))
  {
  }

  /** A forward and its backward on the two-tier storage do what the plain store does for the
      batch: the persisted keys are updated and nothing else, wherever forward moved them. The loss
      may depend on all outputs so far but those of keys that were not admitted. */
  method TrainStep(cfg: Config, st: HybridStorage, counter: Counter, b: Batch, loss: (seq<seq<Row>>, Key) -> Row,
                   outs: seq<seq<Row>>, ghost p: Plain, ghost masks: seq<seq<bool>>,
                   scoring: Scoring, again: Scoring, junk: nat -> Row)
    returns (outs': seq<seq<Row>>)
    requires st.Valid() && b.Ok() && Inv(p) && p.waiting == [] && p.active == []
    requires p.rows == st.Union() && p.counts == counter.counts && Agree(masks, outs, p.outs)
    requires Blind(loss, masks + [MakeTicket(cfg, p, b).kept])
    modifies st.hbm.keys, st.hbm.scores, st.hbm.rows, st.host, counter
    ensures st.Valid()
    ensures var q := TrainBatch(cfg, p, b, loss);
      && st.Union() == q.rows && counter.counts == q.counts
      && Agree(masks + [MakeTicket(cfg, p, b).kept], outs', q.outs)
  {
    hide Positions, Logical, Disjoint, PlacesFresh, DistinctRows, Contents, Injective, Distinct, Updated,
      PrefetchRows, PrefetchCounts, TrainBatch, Agree, AgreeAt, Output, Keeps, TierPlaced, WrittenBack, AdmittedAt;
    ghost var t := MakeTicket(cfg, p, b);
    TrainBatchIs(cfg, p, b, loss);
    ghost var right := p.outs + [Output(cfg, PrefetchRows(cfg, p, b), t)];
    SamePrefetch(cfg, p, PlainOf(p.rows, p.counts), b);
    SameKeeps(cfg, p, PlainOf(p.rows, p.counts), b);
    var vals, persisted, pos, idx := GenericForward(cfg, st, counter, b, scoring, junk);
    var out := seq(|vals|, i requires 0 <= i < |vals| => cfg.emb(vals[i]));
    ForwardAgrees(cfg, p, b, vals, out);
    AgreeStep(masks, outs, p.outs, t.kept, out, Output(cfg, PrefetchRows(cfg, p, b), t));
    outs' := outs + [out];
    var grads := seq(|b.keys|, i requires 0 <= i < |b.keys| => loss(outs', b.keys[i]));
    GenericBackward(cfg, st, t, b.keys, vals, persisted, grads, again, right, loss);
  }

  lemma SameKeeps(cfg: Config, p: Plain, q: Plain, b: Batch)
    requires b.Ok() && p.rows == q.rows && p.counts == q.counts
    ensures forall k :: Keeps(cfg, p, b, k) == Keeps(cfg, q, b, k)
  {
  }

  ghost function Trained(cfg: Config, p: Plain, bs: seq<Batch>, losses: seq<(seq<seq<Row>>, Key) -> Row>): (q: Plain)
    requires Inv(p) && p.waiting == [] && p.active == []
    requires |losses| == |bs| && forall i :: 0 <= i < |bs| ==> bs[i].Ok()
    ensures Inv(q) && q.waiting == [] && q.active == []
  {
    if bs == [] then p
    else var n := |bs| - 1; TrainBatch(cfg, Trained(cfg, p, bs[..n], losses[..n]), bs[n], losses[n])
  }

  /** Training batch after batch is the plain run of the schedule without pipelining. */
  lemma {:induction false} TrainedIsSequential(cfg: Config, p: Plain, bs: seq<Batch>,
                                               losses: seq<(seq<seq<Row>>, Key) -> Row>)
    requires Inv(p) && p.waiting == [] && p.active == []
    requires |losses| == |bs| && forall i :: 0 <= i < |bs| ==> bs[i].Ok()
    ensures Legal(cfg, p, OneAtATime(bs, losses))
    ensures Trained(cfg, p, bs, losses) == Run(cfg, p, OneAtATime(bs, losses))
    decreases |bs|
  {
    OneAtATimeLegal(cfg, p, bs, losses);
    hide PrefetchRows, PrefetchCounts, MakeTicket, Updated, Output;
    if bs != [] {
      var e1, e2, e3 := Prefetch(bs[0]), Forward, Backward(0, losses[0]);
      var p1 := Step(cfg, p, e1);
      var p2 := Step(cfg, p1, e2);
      var p3 := Step(cfg, p2, e3);
      assert p3 == TrainBatch(cfg, p, bs[0], losses[0]);
      var rest := OneAtATime(bs[1..], losses[1..]);
      TrainedIsSequential(cfg, p3, bs[1..], losses[1..]);
      RunCons(cfg, p2, e3, rest);
      RunCons(cfg, p1, e2, [e3] + rest);
      RunCons(cfg, p, e1, [e2] + ([e3] + rest));
      assert OneAtATime(bs, losses) == [e1] + ([e2] + ([e3] + rest));
      TrainedFirst(cfg, p, bs, losses);
    }
  }

  lemma {:induction false} TrainedFirst(cfg: Config, p: Plain, bs: seq<Batch>, losses: seq<(seq<seq<Row>>, Key) -> Row>)
    requires Inv(p) && p.waiting == [] && p.active == [] && bs != []
    requires |losses| == |bs| && forall i :: 0 <= i < |bs| ==> bs[i].Ok()
    ensures Trained(cfg, p, bs, losses) == Trained(cfg, TrainBatch(cfg, p, bs[0], losses[0]), bs[1..], losses[1..])
    decreases |bs|
  {
    hide TrainBatch, Inv;
    var n := |bs| - 1;
    if n > 0 {
      TrainedFirst(cfg, p, bs[..n], losses[..n]);
      assert bs[1..][..n - 1] == bs[..n][1..] && losses[1..][..n - 1] == losses[..n][1..];
    }
  }

  /** Which keys of each batch the plain store keeps. */
  ghost function Masks(cfg: Config, p: Plain, bs: seq<Batch>, losses: seq<(seq<seq<Row>>, Key) -> Row>)
    : (r: seq<seq<bool>>)
    requires Inv(p) && p.waiting == [] && p.active == []
    requires |losses| == |bs| && forall i :: 0 <= i < |bs| ==> bs[i].Ok()
  {
    if bs == [] then []
    else
      var n := |bs| - 1;
      Masks(cfg, p, bs[..n], losses[..n]) + [MakeTicket(cfg, Trained(cfg, p, bs[..n], losses[..n]), bs[n]).kept]
  }

  /** Every training run on the two-tier storage ends with the rows and counters of the plain
      run that finishes each batch before the next, and its outputs are the plain ones on the kept
      keys. Losses may depend on all outputs but those of keys that were not admitted. */
  method Train(cfg: Config, st: HybridStorage, counter: Counter, bs: seq<Batch>,
               losses: seq<(seq<seq<Row>>, Key) -> Row>, ghost p: Plain, scoring: nat -> Scoring, again: nat -> Scoring,
               junk: nat -> nat -> Row)
    returns (outs: seq<seq<Row>>)
    requires st.Valid() && Inv(p) && p.waiting == [] && p.active == [] && p.outs == []
    requires p.rows == st.Union() && p.counts == counter.counts
    requires |losses| == |bs| && forall i :: 0 <= i < |bs| ==> bs[i].Ok()
    requires forall i :: 0 <= i < |bs| ==> Blind(losses[i], Masks(cfg, p, bs[..i + 1], losses[..i + 1]))
    modifies st.hbm.keys, st.hbm.scores, st.hbm.rows, st.host, counter
    ensures st.Valid() && Legal(cfg, p, OneAtATime(bs, losses))
    ensures var q := Run(cfg, p, OneAtATime(bs, losses));
      && st.Union() == q.rows && counter.counts == q.counts
      && Agree(Masks(cfg, p, bs, losses), outs, q.outs)
  {
    hide TrainBatch, Inv, Legal, Run, OneAtATime, Disjoint, Blind, MakeTicket;
    outs := [];
    for i := 0 to |bs|
      invariant st.Valid()
      invariant var q := Trained(cfg, p, bs[..i], losses[..i]);
        && st.Union() == q.rows && counter.counts == q.counts
        && Agree(Masks(cfg, p, bs[..i], losses[..i]), outs, q.outs)
    {
      assert bs[..i + 1][..i] == bs[..i] && losses[..i + 1][..i] == losses[..i];
      ghost var q, masks := Trained(cfg, p, bs[..i], losses[..i]), Masks(cfg, p, bs[..i], losses[..i]);
      assert Masks(cfg, p, bs[..i + 1], losses[..i + 1]) == masks + [MakeTicket(cfg, q, bs[i]).kept];
      assert Blind(losses[i], Masks(cfg, p, bs[..i + 1], losses[..i + 1]));
      hide Agree;
      outs := TrainStep(cfg, st, counter, bs[i], losses[i], outs, q, masks, scoring(i), again(i), junk(i));
    }
    assert bs[..|bs|] == bs && losses[..|bs|] == losses;
    TrainedIsSequential(cfg, p, bs, losses);
  }
}
