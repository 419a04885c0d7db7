/** What the frequency admission strategy means over a whole run: the counter and the
    stored map are a function of how often each key has been presented. */
module AdmissionHistory {
  import opened Common
  import opened PlainStore

  ghost predicate AllOk(bs: seq<Batch>) { forall b :: b in bs ==> b.Ok() }

  ghost predicate Presented(bs: seq<Batch>, k: Key) {
    exists i :: 0 <= i < |bs| && k in bs[i].keys
  }

  /** Frequency with which `k` was presented by the batches so far. */
  ghost function Total(bs: seq<Batch>, k: Key): nat
    requires AllOk(bs)
  {
    if bs == [] then 0
    else Total(bs[..|bs| - 1], k) + FreqIn(bs[|bs| - 1], k)
  }

  ghost function Batches(es: seq<Event>): (bs: seq<Batch>) {
    if es == [] then []
    else Batches(es[..|es| - 1]) + (if es[|es| - 1].Prefetch? then [es[|es| - 1].batch] else [])
  }

  /** The state of one key after the batches `bs`, for threshold `thr`. */
  ghost predicate KeyState(p: Plain, bs: seq<Batch>, k: Key, thr: nat)
    requires AllOk(bs)
  {
    && (k in p.rows <==> Presented(bs, k) && Total(bs, k) >= thr)
    && (k in p.counts <==> Presented(bs, k) && Total(bs, k) < thr)
    && (k in p.counts ==> p.counts[k] == Total(bs, k))
    && (!Presented(bs, k) ==> Total(bs, k) == 0)
  }

  lemma KeyStateStep(cfg: Config, p: Plain, bs: seq<Batch>, b: Batch, k: Key)
    requires cfg.threshold.Some? && AllOk(bs) && b.Ok() && Inv(p)
    requires KeyState(p, bs, k, cfg.threshold.value)
    ensures AllOk(bs + [b])
    ensures KeyState(Step(cfg, p, Prefetch(b)), bs + [b], k, cfg.threshold.value)
  {
    var cs := bs + [b];
    assert cs[..|cs| - 1] == bs && cs[|cs| - 1] == b;
    if Presented(bs, k) {
      var i :| 0 <= i < |bs| && k in bs[i].keys;
      assert k in cs[i].keys;
    }
    assert Presented(cs, k) <==> Presented(bs, k) || k in b.keys;
    assert k !in b.keys ==> FreqIn(b, k) == 0;
  }

  lemma {:induction false} RunAppend(cfg: Config, p: Plain, es: seq<Event>)
    requires Inv(p) && es != [] && Legal(cfg, p, es)
    ensures Legal(cfg, p, es[..|es| - 1])
    ensures var q := Run(cfg, p, es[..|es| - 1]);
      Enabled(q, es[|es| - 1]) && Run(cfg, p, es) == Step(cfg, q, es[|es| - 1])
    decreases |es|
  {
    if |es| > 1 {
      RunAppend(cfg, Step(cfg, p, es[0]), es[1..]);
      assert es[1..][..|es| - 2] == es[..|es| - 1][1..];
    }
  }

  /** Over every run from the empty store, a key is stored exactly when the frequency it
      was presented with has reached the threshold, and otherwise its counter is that
      frequency; in particular it is never both counted and stored. */
  lemma {:induction false} StoredExactlyAtThreshold(cfg: Config, es: seq<Event>, k: Key)
    requires cfg.threshold.Some? && Legal(cfg, NOTHING, es)
    ensures AllOk(Batches(es))
    ensures KeyState(Run(cfg, NOTHING, es), Batches(es), k, cfg.threshold.value)
    decreases |es|
  {
    if es != [] {
      var n := |es| - 1;
      RunAppend(cfg, NOTHING, es);
      StoredExactlyAtThreshold(cfg, es[..n], k);
      if es[n].Prefetch? {
        KeyStateStep(cfg, Run(cfg, NOTHING, es[..n]), Batches(es[..n]), es[n].batch, k);
      } else {
        assert Batches(es) == Batches(es[..n]);
      }
    }
  }

  /** A key enters the store at exactly the prefetch that lifts its total to the threshold. */
  lemma {:induction false} EntersAtFirstCrossing(cfg: Config, es: seq<Event>, b: Batch, k: Key)
    requires cfg.threshold.Some? && Legal(cfg, NOTHING, es + [Prefetch(b)]) && Legal(cfg, NOTHING, es)
    ensures AllOk(Batches(es)) && b.Ok()
    ensures (k !in Run(cfg, NOTHING, es).rows && k in Run(cfg, NOTHING, es + [Prefetch(b)]).rows)
      <==> (k in b.keys && Total(Batches(es), k) + FreqIn(b, k) >= cfg.threshold.value
            && (Presented(Batches(es), k) ==> Total(Batches(es), k) < cfg.threshold.value))
  {
    hide Run, Legal, Batches, Total, PrefetchCounts;
    var fs := es + [Prefetch(b)];
    assert fs[..|fs| - 1] == es;
    RunAppend(cfg, NOTHING, fs);
    StoredExactlyAtThreshold(cfg, es, k);
    var p := Run(cfg, NOTHING, es);
    assert k in Step(cfg, p, Prefetch(b)).rows <==> k in p.rows || k in Admitted(cfg, p, b);
  }
}
