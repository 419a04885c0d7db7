/** The simple thing the two-level store speeds up: one map from key to row, an
    admission counter, and the two queues of batches (prefetched but not yet
    forwarded, forwarded but not yet updated). Every step is deterministic. */
module PlainStore {
  import opened Common

  /** Initialiser, embedding columns, optimizer update and admission threshold. */
  datatype Config = Config(
    init: Key -> Row,
    emb: Row -> Row,
    update: (Row, Row) -> Row,
    threshold: Option<nat>)

  /** The unique keys of a batch and how often each occurs in it. */
  datatype Batch = Batch(keys: seq<Key>, freqs: seq<nat>) {
    ghost predicate Ok() { |freqs| == |keys| && Distinct(keys) }
  }

  /** What prefetch fixes for a batch: which of its keys are stored. */
  datatype Ticket = Ticket(keys: seq<Key>, kept: seq<bool>)

  datatype Plain = Plain(
    rows: map<Key, Row>,
    counts: map<Key, nat>,
    waiting: seq<Ticket>,
    active: seq<Ticket>,
    outs: seq<seq<Row>>)

  const NOTHING: Plain := Plain(map[], map[], [], [], [])

  /** The gradient of a key may depend on every output produced so far. */
  datatype Event =
    | Prefetch(batch: Batch)
    | Forward
    | Backward(pos: nat, loss: (seq<seq<Row>>, Key) -> Row)
    | Flush

  ghost function FreqIn(b: Batch, k: Key): nat
    requires b.Ok()
  {
    var i := IndexOf(b.keys, k);
    if i < 0 then 0 else b.freqs[i]
  }

  ghost function CountOf(counts: map<Key, nat>, k: Key): nat {
    if k in counts then counts[k] else 0
  }

  /** Whether a key that is not stored yet is admitted by this batch. */
  ghost predicate Admits(cfg: Config, counts: map<Key, nat>, b: Batch, k: Key)
    requires b.Ok()
  {
    cfg.threshold.None? || CountOf(counts, k) + FreqIn(b, k) >= cfg.threshold.value
  }

  ghost predicate Keeps(cfg: Config, p: Plain, b: Batch, k: Key)
    requires b.Ok()
  {
    k in p.rows || Admits(cfg, p.counts, b, k)
  }

  ghost function Admitted(cfg: Config, p: Plain, b: Batch): set<Key>
    requires b.Ok()
  {
    set k | k in b.keys && k !in p.rows && Admits(cfg, p.counts, b, k)
  }

  ghost function PrefetchRows(cfg: Config, p: Plain, b: Batch): map<Key, Row>
    requires b.Ok()
  {
    p.rows + (map k | k in Admitted(cfg, p, b) :: cfg.init(k))
  }

  /** New keys below the threshold stay counted; admitted ones are erased. */
  ghost function PrefetchCounts(cfg: Config, p: Plain, b: Batch): map<Key, nat>
    requires b.Ok()
  {
    if cfg.threshold.None? then p.counts
    else
      var news := set k | k in b.keys && k !in p.rows;
      map k | k in p.counts.Keys + news && k !in Admitted(cfg, p, b) ::
        if k in news then CountOf(p.counts, k) + FreqIn(b, k) else p.counts[k]
  }

  ghost function MakeTicket(cfg: Config, p: Plain, b: Batch): (t: Ticket)
    requires b.Ok()
    ensures |t.kept| == |t.keys|
  {
    Ticket(b.keys, seq(|b.keys|, i requires 0 <= i < |b.keys| => Keeps(cfg, p, b, b.keys[i])))
  }

  ghost predicate TicketOk(t: Ticket, rows: map<Key, Row>) {
    && |t.kept| == |t.keys| && Distinct(t.keys)
    && forall i :: 0 <= i < |t.keys| && t.kept[i] ==> t.keys[i] in rows
  }

  ghost predicate Inv(p: Plain) {
    && (forall t :: t in p.waiting ==> TicketOk(t, p.rows))
    && (forall t :: t in p.active ==> TicketOk(t, p.rows))
  }

  ghost function Output(cfg: Config, rows: map<Key, Row>, t: Ticket): (out: seq<Row>)
    requires TicketOk(t, rows)
    ensures |out| == |t.keys|
  {
    seq(|t.keys|, i requires 0 <= i < |t.keys| =>
      cfg.emb(if t.kept[i] then rows[t.keys[i]] else cfg.init(t.keys[i])))
  }

  ghost predicate KeptIn(t: Ticket, k: Key)
    requires |t.kept| == |t.keys|
  {
    var i := IndexOf(t.keys, k); i >= 0 && t.kept[i]
  }

  ghost function Updated(cfg: Config, rows: map<Key, Row>, t: Ticket,
                         outs: seq<seq<Row>>, loss: (seq<seq<Row>>, Key) -> Row): map<Key, Row>
    requires |t.kept| == |t.keys|
  {
    map k | k in rows :: if KeptIn(t, k) then cfg.update(rows[k], loss(outs, k)) else rows[k]
  }

  ghost predicate Enabled(p: Plain, e: Event) {
    match e
    case Prefetch(b) => b.Ok()
    case Forward => p.waiting != []
    case Backward(j, _) => j < |p.active|
    case Flush => true
  }

  lemma TicketsSurvive(ts: seq<Ticket>, us: seq<Ticket>, rows: map<Key, Row>, rows': map<Key, Row>)
    requires forall t :: t in ts ==> TicketOk(t, rows)
    requires rows.Keys <= rows'.Keys && forall t :: t in us ==> t in ts
    ensures forall t :: t in us ==> TicketOk(t, rows')
  {
  }

  ghost function Step(cfg: Config, p: Plain, e: Event): (q: Plain)
    requires Inv(p) && Enabled(p, e)
    ensures Inv(q)
    ensures p.rows.Keys <= q.rows.Keys
  {
    match e
    case Prefetch(b) =>
      p.(rows := PrefetchRows(cfg, p, b), counts := PrefetchCounts(cfg, p, b),
         waiting := p.waiting + [MakeTicket(cfg, p, b)])
    case Forward =>
      p.(waiting := p.waiting[1..], active := p.active + [p.waiting[0]],
         outs := p.outs + [Output(cfg, p.rows, p.waiting[0])])
    case Backward(j, loss) =>
      assert p.active[j] in p.active;
      var rows := Updated(cfg, p.rows, p.active[j], p.outs, loss);
      var active := p.active[..j] + p.active[j + 1..];
      TicketsSurvive(p.active, active, p.rows, rows);
      TicketsSurvive(p.waiting, p.waiting, p.rows, rows);
      p.(rows := rows, active := active)
    case Flush => p
  }

  ghost predicate Legal(cfg: Config, p: Plain, es: seq<Event>)
    requires Inv(p)
    decreases |es|
  {
    es == [] || (Enabled(p, es[0]) && Legal(cfg, Step(cfg, p, es[0]), es[1..]))
  }

  ghost function Run(cfg: Config, p: Plain, es: seq<Event>): (q: Plain)
    requires Inv(p) && Legal(cfg, p, es)
    ensures Inv(q)
    decreases |es|
  {
    if es == [] then p else Run(cfg, Step(cfg, p, es[0]), es[1..])
  }

  ghost function Prefetches(es: seq<Event>): (r: seq<Event>)
    ensures forall e :: e in r ==> e.Prefetch?
  {
    if es == [] then [] else (if es[0].Prefetch? then [es[0]] else []) + Prefetches(es[1..])
  }

  ghost function Others(es: seq<Event>): (r: seq<Event>)
    ensures forall e :: e in r ==> !e.Prefetch?
  {
    if es == [] then [] else (if es[0].Prefetch? then [] else [es[0]]) + Others(es[1..])
  }

  /** A step that keeps the stored keys and the counters does not change what a prefetch does. */
  lemma SameNews(cfg: Config, p: Plain, q: Plain, b: Batch)
    requires b.Ok() && p.rows.Keys == q.rows.Keys && p.counts == q.counts
    ensures Admitted(cfg, p, b) == Admitted(cfg, q, b) && MakeTicket(cfg, p, b) == MakeTicket(cfg, q, b)
    ensures PrefetchCounts(cfg, p, b) == PrefetchCounts(cfg, q, b)
  {
    assert forall k :: k in p.rows.Keys <==> k in q.rows.Keys;
    assert Admitted(cfg, p, b) == Admitted(cfg, q, b);
    assert MakeTicket(cfg, p, b).kept == MakeTicket(cfg, q, b).kept;
  }

  /** Updating the rows of a batch and adding rows of new keys commute. */
  lemma UpdateCommutes(cfg: Config, p: Plain, q: Plain, b: Batch, t: Ticket, outs: seq<seq<Row>>,
                       loss: (seq<seq<Row>>, Key) -> Row)
    requires b.Ok() && TicketOk(t, p.rows) && Admitted(cfg, p, b) == Admitted(cfg, q, b)
    requires q.rows == Updated(cfg, p.rows, t, outs, loss)
    ensures PrefetchRows(cfg, q, b) == Updated(cfg, PrefetchRows(cfg, p, b), t, outs, loss)
  {
    assert forall k :: k in Admitted(cfg, p, b) ==> k !in p.rows && !KeptIn(t, k);
  }

  /** Prefetch commutes with any other step that was already possible. */
  lemma Swap(cfg: Config, p: Plain, e: Event, b: Batch)
    requires Inv(p) && !e.Prefetch? && Enabled(p, e) && b.Ok()
    ensures Enabled(Step(cfg, p, Prefetch(b)), e)
    ensures Step(cfg, Step(cfg, p, e), Prefetch(b)) == Step(cfg, Step(cfg, p, Prefetch(b)), e)
  {
    var pb, pe := Step(cfg, p, Prefetch(b)), Step(cfg, p, e);
    assert pe.rows.Keys == p.rows.Keys;
    SameNews(cfg, p, pe, b);
    hide MakeTicket, PrefetchCounts, Admitted, Inv;
    if e.Backward? {
      assert p.active[e.pos] in p.active;
      UpdateCommutes(cfg, p, pe, b, p.active[e.pos], p.outs, e.loss);
    } else if e.Forward? {
      assert pb.waiting[0] == p.waiting[0] && p.waiting[0] in p.waiting;
      SameOutput(cfg, p, b, p.waiting[0]);
      assert p.waiting[1..] + [MakeTicket(cfg, p, b)] == (p.waiting + [MakeTicket(cfg, p, b)])[1..];
    }
  }

  lemma SameOutput(cfg: Config, p: Plain, b: Batch, t: Ticket)
    requires b.Ok() && TicketOk(t, p.rows)
    ensures TicketOk(t, PrefetchRows(cfg, p, b))
    ensures Output(cfg, PrefetchRows(cfg, p, b), t) == Output(cfg, p.rows, t)
  {
  }

  /** A forward or backward moves right across any block of prefetches. */
  lemma {:induction false} Bubble(cfg: Config, p: Plain, e: Event, ps: seq<Event>)
    requires Inv(p) && !e.Prefetch? && Enabled(p, e) && (forall q :: q in ps ==> q.Prefetch?)
    requires Legal(cfg, Step(cfg, p, e), ps)
    ensures Legal(cfg, p, ps) && Enabled(Run(cfg, p, ps), e)
    ensures Run(cfg, Step(cfg, p, e), ps) == Step(cfg, Run(cfg, p, ps), e)
    decreases |ps|
  {
    if ps != [] {
      assert ps[0] in ps && ps[0] == Prefetch(ps[0].batch);
      Swap(cfg, p, e, ps[0].batch);
      Bubble(cfg, Step(cfg, p, ps[0]), e, ps[1..]);
    }
  }

  lemma RunCons(cfg: Config, p: Plain, e: Event, es: seq<Event>)
    requires Inv(p) && Enabled(p, e) && Legal(cfg, Step(cfg, p, e), es)
    ensures Legal(cfg, p, [e] + es)
    ensures Run(cfg, p, [e] + es) == Run(cfg, Step(cfg, p, e), es)
  {
    assert ([e] + es)[1..] == es;
  }

  /** Every legal run equals the run that issues all its prefetches first. */
  lemma {:induction false} PrefetchesFirst(cfg: Config, p: Plain, es: seq<Event>)
    requires Inv(p) && Legal(cfg, p, es)
    ensures Legal(cfg, p, Prefetches(es))
    ensures Legal(cfg, Run(cfg, p, Prefetches(es)), Others(es))
    ensures Run(cfg, p, es) == Run(cfg, Run(cfg, p, Prefetches(es)), Others(es))
    decreases |es|
  {
    if es != [] {
      var e, tail := es[0], es[1..];
      var ps, os := Prefetches(tail), Others(tail);
      PrefetchesFirst(cfg, Step(cfg, p, e), tail);
      if e.Prefetch? {
        assert Others(es) == os;
        RunCons(cfg, p, e, ps);
      } else {
        assert Prefetches(es) == ps;
        Bubble(cfg, p, e, ps);
        RunCons(cfg, Run(cfg, p, ps), e, os);
      }
    }
  }

  /** Pipelining is transparent: where the prefetches sit between the forwards and
      backwards changes neither an output, nor a stored row, nor a counter. */
  lemma PipeliningTransparent(cfg: Config, p: Plain, es: seq<Event>, fs: seq<Event>)
    requires Inv(p) && Legal(cfg, p, es) && Legal(cfg, p, fs)
    requires Prefetches(es) == Prefetches(fs) && Others(es) == Others(fs)
    ensures Run(cfg, p, es) == Run(cfg, p, fs)
  {
    PrefetchesFirst(cfg, p, es);
    PrefetchesFirst(cfg, p, fs);
  }

  /** The schedule without pipelining: prefetch, forward, backward, one batch after another. */
  ghost function OneAtATime(bs: seq<Batch>, losses: seq<(seq<seq<Row>>, Key) -> Row>): seq<Event>
    requires |losses| == |bs|
  {
    if bs == [] then []
    else [Prefetch(bs[0]), Forward, Backward(0, losses[0])] + OneAtATime(bs[1..], losses[1..])
  }

  lemma {:induction false} OneAtATimeLegal(cfg: Config, p: Plain, bs: seq<Batch>,
                                           losses: seq<(seq<seq<Row>>, Key) -> Row>)
    requires Inv(p) && p.waiting == [] && p.active == [] && |losses| == |bs|
    requires forall i :: 0 <= i < |bs| ==> bs[i].Ok()
    ensures Legal(cfg, p, OneAtATime(bs, losses))
    decreases |bs|
  {
    if bs != [] {
      var e1, e2, e3 := Prefetch(bs[0]), Forward, Backward(0, losses[0]);
      var p1 := Step(cfg, p, e1);
      var p2 := Step(cfg, p1, e2);
      var p3 := Step(cfg, p2, e3);
      var rest := OneAtATime(bs[1..], losses[1..]);
      OneAtATimeLegal(cfg, p3, bs[1..], losses[1..]);
      RunCons(cfg, p2, e3, rest);
      RunCons(cfg, p1, e2, [e3] + rest);
      RunCons(cfg, p, e1, [e2] + ([e3] + rest));
      assert OneAtATime(bs, losses) == [e1] + ([e2] + ([e3] + rest));
    }
  }

  ghost function WithoutFlushes(es: seq<Event>): (r: seq<Event>) {
    if es == [] then [] else (if es[0].Flush? then [] else [es[0]]) + WithoutFlushes(es[1..])
  }

  /** Flushes in a run can be left out. */
  lemma {:induction false} FlushesInvisible(cfg: Config, p: Plain, es: seq<Event>)
    requires Inv(p) && Legal(cfg, p, es)
    ensures Legal(cfg, p, WithoutFlushes(es)) && Run(cfg, p, WithoutFlushes(es)) == Run(cfg, p, es)
    ensures Prefetches(WithoutFlushes(es)) == Prefetches(es)
    decreases |es|
  {
    if es != [] {
      var q, rest := Step(cfg, p, es[0]), WithoutFlushes(es[1..]);
      FlushesInvisible(cfg, q, es[1..]);
      if es[0].Flush? {
        assert WithoutFlushes(es) == rest;
      } else {
        RunCons(cfg, p, es[0], rest);
        assert ([es[0]] + rest)[1..] == rest;
      }
    }
  }

  /** A pipelined run of some batches, with flushes anywhere in it, ends in the same state, with the
      same outputs, as the run that finishes each batch before it prefetches the next. */
  lemma PipelinedEqualsSequential(cfg: Config, p: Plain, es: seq<Event>, bs: seq<Batch>,
                                  losses: seq<(seq<seq<Row>>, Key) -> Row>)
    requires Inv(p) && p.waiting == [] && p.active == [] && Legal(cfg, p, es)
    requires |losses| == |bs| && forall i :: 0 <= i < |bs| ==> bs[i].Ok()
    requires Prefetches(es) == Prefetches(OneAtATime(bs, losses))
    requires Others(WithoutFlushes(es)) == Others(OneAtATime(bs, losses))
    ensures Legal(cfg, p, OneAtATime(bs, losses))
    ensures Run(cfg, p, es) == Run(cfg, p, OneAtATime(bs, losses))
  {
    FlushesInvisible(cfg, p, es);
    OneAtATimeLegal(cfg, p, bs, losses);
    PipeliningTransparent(cfg, p, WithoutFlushes(es), OneAtATime(bs, losses));
  }
}
