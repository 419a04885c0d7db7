/** What a stored row is over a whole run: the initial row with one update for every batch that had
    the key when it was stored. */
module RowHistory {
  import opened Common
  import opened PlainStore
  import opened AdmissionHistory

  /** The batch will update the key. */
  ghost predicate Updates(t: Ticket, k: Key) { |t.kept| == |t.keys| && KeptIn(t, k) }

  /** The gradient that an event brings to a key. */
  ghost function GradOf(q: Plain, e: Event, k: Key): seq<Row>
    requires Enabled(q, e)
  {
    if e.Backward? && Updates(q.active[e.pos], k) then [e.loss(q.outs, k)] else []
  }

  /** The gradients a key receives in a run, in order. */
  ghost function Grads(cfg: Config, p: Plain, es: seq<Event>, k: Key): seq<Row>
    requires Inv(p) && Legal(cfg, p, es)
    decreases |es|
  {
    if es == [] then []
    else
      RunAppend(cfg, p, es);
      var n := |es| - 1;
      Grads(cfg, p, es[..n], k) + GradOf(Run(cfg, p, es[..n]), es[n], k)
  }

  ghost function Folded(cfg: Config, r: Row, gs: seq<Row>): Row {
    if gs == [] then r else cfg.update(Folded(cfg, r, gs[..|gs| - 1]), gs[|gs| - 1])
  }

  lemma FoldedStep(cfg: Config, r: Row, gs: seq<Row>, g: Row)
    ensures Folded(cfg, r, gs + [g]) == cfg.update(Folded(cfg, r, gs), g)
  {
    assert (gs + [g])[..|gs|] == gs;
  }

  /** One event updates the row of a stored key with the gradient it brings, and stores a new key with
      its initial row. */
  lemma RowStep(cfg: Config, q: Plain, e: Event, k: Key)
    requires Inv(q) && Enabled(q, e)
    ensures var r, gs := Step(cfg, q, e), GradOf(q, e, k);
      && (k !in q.rows ==> gs == [])
      && (k in r.rows ==> r.rows[k] == if k !in q.rows then cfg.init(k)
                                       else if gs == [] then q.rows[k] else cfg.update(q.rows[k], gs[0]))
      && |gs| <= 1 && (k in q.rows ==> k in r.rows)
  {
    if e.Backward? { assert q.active[e.pos] in q.active; }
  }

  /** Over every run, the row of a stored key is the row it started with, or its initial row, updated
      with the gradients it received, in order. */
  lemma {:induction false} RowIsHistory(cfg: Config, p: Plain, es: seq<Event>, k: Key)
    requires Inv(p) && Legal(cfg, p, es)
    ensures k !in Run(cfg, p, es).rows ==> k !in p.rows && Grads(cfg, p, es, k) == []
    ensures k in Run(cfg, p, es).rows ==>
      Run(cfg, p, es).rows[k] == Folded(cfg, if k in p.rows then p.rows[k] else cfg.init(k), Grads(cfg, p, es, k))
    decreases |es|
  {
    if es != [] {
      var n := |es| - 1;
      RunAppend(cfg, p, es);
      RowIsHistory(cfg, p, es[..n], k);
      var q, gs := Run(cfg, p, es[..n]), Grads(cfg, p, es[..n], k);
      RowStep(cfg, q, es[n], k);
      hide Run, Legal, Step, Inv, GradOf, Folded;
      var g := GradOf(q, es[n], k);
      assert Grads(cfg, p, es, k) == gs + g;
      if g != [] {
        assert g == [g[0]];
        FoldedStep(cfg, if k in p.rows then p.rows[k] else cfg.init(k), gs, g[0]);
      } else {
        assert gs + g == gs;
        assert k !in q.rows ==> Folded(cfg, cfg.init(k), []) == cfg.init(k) by { FoldedNothing(cfg, cfg.init(k)); }
      }
    }
  }

  lemma FoldedNothing(cfg: Config, r: Row)
    ensures Folded(cfg, r, []) == r
  {
  }

  /** How many of the batches still have an update of the key to come. */
  ghost function Pending(ts: seq<Ticket>, k: Key): nat
  {
    if ts == [] then 0 else Pending(ts[..|ts| - 1], k) + if Updates(ts[|ts| - 1], k) then 1 else 0
  }

  lemma {:induction false} PendingAppend(ts: seq<Ticket>, t: Ticket, k: Key)
    ensures Pending(ts + [t], k) == Pending(ts, k) + if Updates(t, k) then 1 else 0
  {
    assert (ts + [t])[..|ts|] == ts;
  }

  lemma {:induction false} PendingRemove(ts: seq<Ticket>, j: nat, k: Key)
    requires j < |ts|
    ensures Pending(ts, k) == Pending(ts[..j] + ts[j + 1..], k) + if Updates(ts[j], k) then 1 else 0
    decreases |ts|
  {
    var n := |ts| - 1;
    if j == n {
      assert ts[..j] + ts[j + 1..] == ts[..n];
    } else {
      PendingRemove(ts[..n], j, k);
      assert ts[..j] + ts[j + 1..] == (ts[..n][..j] + ts[..n][j + 1..]) + [ts[n]];
      PendingAppend(ts[..n][..j] + ts[..n][j + 1..], ts[n], k);
    }
  }

  /** The updates of a key that a state owes. */
  ghost function Owed(p: Plain, k: Key): nat { Pending(p.waiting, k) + Pending(p.active, k) }

  /** The event is a prefetch of a batch with the key, which is stored by then. */
  ghost predicate Keeping(cfg: Config, q: Plain, e: Event, k: Key)
    requires Enabled(q, e)
  {
    e.Prefetch? && k in e.batch.keys && Keeps(cfg, q, e.batch, k)
  }

  /** The number of batches of a run that have the key while it is stored. */
  ghost function KeptBatches(cfg: Config, p: Plain, es: seq<Event>, k: Key): nat
    requires Inv(p) && Legal(cfg, p, es)
    decreases |es|
  {
    if es == [] then 0
    else
      RunAppend(cfg, p, es);
      var n := |es| - 1;
      KeptBatches(cfg, p, es[..n], k) + if Keeping(cfg, Run(cfg, p, es[..n]), es[n], k) then 1 else 0
  }

  lemma TicketKeeps(cfg: Config, q: Plain, b: Batch, k: Key)
    requires b.Ok()
    ensures Updates(MakeTicket(cfg, q, b), k) <==> k in b.keys && Keeps(cfg, q, b, k)
  {
  }

  /** Prefetching a batch adds to what is owed, a backward pays, nothing else counts. */
  lemma OwedStep(cfg: Config, q: Plain, e: Event, k: Key)
    requires Inv(q) && Enabled(q, e)
    ensures |GradOf(q, e, k)| + Owed(Step(cfg, q, e), k) == Owed(q, k) + if Keeping(cfg, q, e, k) then 1 else 0
  {
    hide Updated, PrefetchRows, PrefetchCounts, MakeTicket, Updates, Keeps, Pending, Output;
    match e {
      case Prefetch(b) =>
        TicketKeeps(cfg, q, b, k);
        PendingAppend(q.waiting, MakeTicket(cfg, q, b), k);
      case Forward =>
        PendingRemove(q.waiting, 0, k);
        assert q.waiting[..0] + q.waiting[1..] == q.waiting[1..];
        PendingAppend(q.active, q.waiting[0], k);
      case Backward(j, loss) =>
        PendingRemove(q.active, j, k);
      case Flush =>
    }
  }

  /** Over every run, every batch that has a stored key updates it exactly once, or still owes the
      update: no update is lost and none is made twice, wherever the prefetches sit. */
  lemma {:induction false} UpdatedOncePerBatch(cfg: Config, p: Plain, es: seq<Event>, k: Key)
    requires Inv(p) && Legal(cfg, p, es)
    ensures |Grads(cfg, p, es, k)| + Owed(Run(cfg, p, es), k) == Owed(p, k) + KeptBatches(cfg, p, es, k)
    decreases |es|
  {
    if es != [] {
      var n := |es| - 1;
      RunAppend(cfg, p, es);
      UpdatedOncePerBatch(cfg, p, es[..n], k);
      OwedStep(cfg, Run(cfg, p, es[..n]), es[n], k);
    }
  }

  /** The batches that present a key when its total has reached the threshold with them. */
  ghost function AtOrAbove(bs: seq<Batch>, k: Key, thr: nat): nat
    requires AllOk(bs)
  {
    if bs == [] then 0
    else
      var n := |bs| - 1;
      AtOrAbove(bs[..n], k, thr) + if k in bs[n].keys && Total(bs, k) >= thr then 1 else 0
  }

  lemma KeptStep(cfg: Config, q: Plain, bs: seq<Batch>, b: Batch, k: Key)
    requires cfg.threshold.Some? && AllOk(bs) && b.Ok() && KeyState(q, bs, k, cfg.threshold.value) && k in b.keys
    ensures AllOk(bs + [b]) && (Keeps(cfg, q, b, k) <==> Total(bs + [b], k) >= cfg.threshold.value)
  {
    assert (bs + [b])[..|bs|] == bs;
  }

  /** From the empty store, these are the batches that keep the key: how often a row has been updated
      can be read off the frequencies the key was presented with. */
  lemma {:induction false} KeptAtThreshold(cfg: Config, es: seq<Event>, k: Key)
    requires cfg.threshold.Some? && Legal(cfg, NOTHING, es)
    ensures AllOk(Batches(es))
    ensures KeptBatches(cfg, NOTHING, es, k) == AtOrAbove(Batches(es), k, cfg.threshold.value)
    decreases |es|
  {
    StoredExactlyAtThreshold(cfg, es, k);
    if es != [] {
      var n := |es| - 1;
      RunAppend(cfg, NOTHING, es);
      KeptAtThreshold(cfg, es[..n], k);
      StoredExactlyAtThreshold(cfg, es[..n], k);
      var q, bs := Run(cfg, NOTHING, es[..n]), Batches(es[..n]);
      hide Run, Legal, Step, KeyState, Keeps, Total, Inv;
      if es[n].Prefetch? {
        assert Batches(es) == bs + [es[n].batch] && Batches(es)[..|bs|] == bs;
        if k in es[n].batch.keys { KeptStep(cfg, q, bs, es[n].batch, k); }
      } else {
        assert Batches(es) == bs;
      }
    }
  }

  lemma {:induction false} NothingPending(ts: seq<Ticket>, rows: map<Key, Row>, k: Key)
    requires (forall t :: t in ts ==> TicketOk(t, rows)) && k !in rows
    ensures Pending(ts, k) == 0
  {
    if ts != [] {
      var n := |ts| - 1;
      assert ts[n] in ts;
      NothingPending(ts[..n], rows, k);
    }
  }

  /** Where a waiting batch has a key that was not stored when it was prefetched, nothing that comes
      before its forward updates that key. */
  ghost predicate NoneBefore(p: Plain, gs: seq<Row>, k: Key, i: nat)
    requires i < |p.waiting|
  {
    var t := p.waiting[i];
    k in t.keys && !Updates(t, k) ==> gs == [] && Pending(p.active, k) == 0 && Pending(p.waiting[..i], k) == 0
  }

  lemma {:induction false} NoneBeforeHolds(cfg: Config, es: seq<Event>, k: Key, i: nat)
    requires Legal(cfg, NOTHING, es) && i < |Run(cfg, NOTHING, es).waiting|
    ensures NoneBefore(Run(cfg, NOTHING, es), Grads(cfg, NOTHING, es, k), k, i)
    decreases |es|
  {
    if es != [] {
      var n := |es| - 1;
      RunAppend(cfg, NOTHING, es);
      var q, gs := Run(cfg, NOTHING, es[..n]), Grads(cfg, NOTHING, es[..n], k);
      RowIsHistory(cfg, NOTHING, es[..n], k);
      if es[n].Forward? {
        NoneBeforeHolds(cfg, es[..n], k, i + 1);
      } else if i < |q.waiting| {
        NoneBeforeHolds(cfg, es[..n], k, i);
      }
      assert Grads(cfg, NOTHING, es, k) == gs + GradOf(q, es[n], k);
      hide Run, Grads, Legal;
      NoneBeforeStep(cfg, q, gs, es[n], k, i);
    }
  }

  lemma NoneBeforeStep(cfg: Config, q: Plain, gs: seq<Row>, e: Event, k: Key, i: nat)
    requires Inv(q) && Enabled(q, e) && i < |Step(cfg, q, e).waiting| && (k !in q.rows ==> gs == [])
    requires e.Forward? ==> NoneBefore(q, gs, k, i + 1)
    requires !e.Forward? && i < |q.waiting| ==> NoneBefore(q, gs, k, i)
    ensures NoneBefore(Step(cfg, q, e), gs + GradOf(q, e, k), k, i)
  {
    hide Updated, PrefetchRows, PrefetchCounts, Output;
    match e {
      case Prefetch(b) =>
        TicketKeeps(cfg, q, b, k);
        hide MakeTicket, Updates;
        var all := q.waiting + [MakeTicket(cfg, q, b)];
        assert all[..i] == q.waiting[..i];
        if i == |q.waiting| && k in b.keys && !Keeps(cfg, q, b, k) {
          NothingPending(q.waiting, q.rows, k);
          NothingPending(q.active, q.rows, k);
          assert q.waiting[..i] == q.waiting;
        }
      case Forward =>
        var w := q.waiting[..i + 1];
        PendingRemove(w, 0, k);
        assert w[..0] + w[1..] == q.waiting[1..][..i];
        PendingAppend(q.active, q.waiting[0], k);
        assert q.waiting[0] in q.waiting;
      case Backward(j, loss) =>
        PendingRemove(q.active, j, k);
      case Flush =>
    }
  }

  /** Over every run, what forward returns for a key is the embedding of its initial row updated with
      the gradients it has received so far, whether the key is stored or not. */
  lemma OutputIsHistory(cfg: Config, es: seq<Event>, i: nat)
    requires Legal(cfg, NOTHING, es)
    requires Run(cfg, NOTHING, es).waiting != [] && i < |Run(cfg, NOTHING, es).waiting[0].keys|
    ensures var p := Run(cfg, NOTHING, es);
      && TicketOk(p.waiting[0], p.rows)
      && var k := p.waiting[0].keys[i];
      Output(cfg, p.rows, p.waiting[0])[i] == cfg.emb(Folded(cfg, cfg.init(k), Grads(cfg, NOTHING, es, k)))
  {
    var p := Run(cfg, NOTHING, es);
    var t := p.waiting[0];
    assert t in p.waiting;
    var k := t.keys[i];
    RowIsHistory(cfg, NOTHING, es, k);
    NoneBeforeHolds(cfg, es, k, 0);
    assert IndexOf(t.keys, k) == i;
    hide Run, Legal, Grads;
  }
}
