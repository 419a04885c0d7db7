/** The training pipeline in cache mode: prefetched batches wait in a queue, forward takes
    the oldest and reads its pinned slots, backward updates them in place and unpins. */
module Pipeline {
  import opened Common
  import opened PlainStore
  import opened HashTable
  import opened Rejection
  import opened BackingStore
  import opened TwoLevel
  import opened Admission
  import opened CachePath
  import opened FlushEval
  import opened Room
  import opened CounterLayout
  import opened Pins

  /** What prefetch hands to forward and backward: a slot per unique key, -1 for none, and
      the positions of the keys that were not admitted. */
  datatype PrefetchState = PrefetchState(keys: seq<Key>, slots: seq<int>, skipped: seq<nat>)

  ghost function TicketOf(st: PrefetchState): Ticket {
    Ticket(st.keys, seq(|st.slots|, i requires 0 <= i < |st.slots| => st.slots[i] >= 0))
  }

  ghost function Tickets(sts: seq<PrefetchState>): (r: seq<Ticket>)
    ensures |r| == |sts| && forall i :: 0 <= i < |r| ==> r[i] == TicketOf(sts[i])
  {
    seq(|sts|, i requires 0 <= i < |sts| => TicketOf(sts[i]))
  }

  /** The slots of the state are slots of the cache. */
  ghost predicate Shaped(st: PrefetchState, n: nat) {
    && |st.slots| == |st.keys|
    && (forall i :: 0 <= i < |st.slots| ==> -1 <= st.slots[i] < n)
    && (forall j :: 0 <= j < |st.skipped| ==> st.skipped[j] < |st.slots|)
  }

  ghost predicate AllShaped(sts: seq<PrefetchState>, n: nat) {
    forall j :: 0 <= j < |sts| ==> Shaped(sts[j], n)
  }

  /** The slots of the state hold its keys. */
  ghost predicate Holds(st: PrefetchState, keys: Slots) {
    && |st.slots| == |st.keys| && Distinct(st.keys) && NoRepeats(st.slots)
    && (forall i :: 0 <= i < |st.slots| ==> -1 <= st.slots[i] < |keys|)
    && (forall i :: 0 <= i < |st.slots| && st.slots[i] >= 0 ==> keys[st.slots[i]] == Some(st.keys[i]))
    && (forall j :: 0 <= j < |st.skipped| ==> st.skipped[j] < |st.slots|)
    && (forall i :: 0 <= i < |st.slots| && i in st.skipped ==> st.slots[i] < 0)
  }

  /** Only keys that were not admitted are without a slot. */
  predicate Whole(st: PrefetchState) {
    forall i :: 0 <= i < |st.slots| ==> st.slots[i] >= 0 || i in st.skipped
  }

  /** The number of states that use slot `s`. */
  ghost function Uses(sts: seq<PrefetchState>, s: int): nat {
    if sts == [] then 0
    else Uses(sts[..|sts| - 1], s) + if s in sts[|sts| - 1].slots then 1 else 0
  }

  lemma {:induction false} UsesAppend(sts: seq<PrefetchState>, st: PrefetchState, s: int)
    ensures Uses(sts + [st], s) == Uses(sts, s) + if s in st.slots then 1 else 0
  {
    assert (sts + [st])[..|sts|] == sts;
  }

  lemma {:induction false} UsesRemove(sts: seq<PrefetchState>, j: nat, s: int)
    requires j < |sts|
    ensures Uses(sts[..j] + sts[j + 1..], s) == Uses(sts, s) - if s in sts[j].slots then 1 else 0
    ensures s in sts[j].slots ==> Uses(sts, s) > 0
    decreases |sts|
  {
    var n := |sts| - 1;
    if j == n {
      assert sts[..j] + sts[j + 1..] == sts[..n];
    } else {
      UsesRemove(sts[..n], j, s);
      assert sts[..j] + sts[j + 1..] == (sts[..n][..j] + sts[..n][j + 1..]) + [sts[n]];
      UsesAppend(sts[..n][..j] + sts[..n][j + 1..], sts[n], s);
    }
  }

  ghost predicate AllHold(sts: seq<PrefetchState>, keys: Slots) {
    forall j :: 0 <= j < |sts| ==> Holds(sts[j], keys)
  }

  ghost predicate AllWhole(sts: seq<PrefetchState>) {
    forall j :: 0 <= j < |sts| ==> Whole(sts[j])
  }

  /** Slots in use are pinned, so their keys survive a prefetch. */
  lemma HoldsSurvives(sts: seq<PrefetchState>, keys: Slots, refs: seq<int>, now: Slots)
    requires AllHold(sts, keys) && KeepsPinned(keys, refs, now)
    requires forall s :: 0 <= s < |refs| ==> refs[s] >= Uses(sts, s)
    ensures AllHold(sts, now)
  {
    forall j | 0 <= j < |sts| ensures Holds(sts[j], now) {
      var st := sts[j];
      forall i | 0 <= i < |st.slots| && st.slots[i] >= 0 ensures now[st.slots[i]] == Some(st.keys[i]) {
        assert st.slots[i] in st.slots;
        UsesRemove(sts, j, st.slots[i]);
      }
    }
  }

  /** The stored part of a state is stored in the combined map. */
  lemma TicketsOk(sts: seq<PrefetchState>, keys: Slots, rows: map<Key, Row>)
    requires AllHold(sts, keys) && forall k :: Some(k) in keys ==> k in rows
    ensures forall t :: t in Tickets(sts) ==> TicketOk(t, rows)
  {
    forall t | t in Tickets(sts) ensures TicketOk(t, rows) {
      var j := IndexOf(Tickets(sts), t);
      var st := sts[j];
      assert Holds(st, keys);
      forall i | 0 <= i < |t.keys| && t.kept[i] ensures t.keys[i] in rows {
        assert keys[st.slots[i]] == Some(t.keys[i]);
      }
    }
  }

  /** In-place update of the rows in the slots of a state. */
  ghost function UpdatedRows(cfg: Config, rows: seq<Row>, slots: seq<int>, grads: seq<Row>): (r: seq<Row>)
    requires |grads| == |slots|
    ensures |r| == |rows|
    ensures forall s :: 0 <= s < |rows| ==>
      r[s] == if s in slots then cfg.update(rows[s], grads[IndexOf(slots, s)]) else rows[s]
  {
    seq(|rows|, s requires 0 <= s < |rows| =>
      if s in slots then cfg.update(rows[s], grads[IndexOf(slots, s)]) else rows[s])
  }

  /** Updating the slots of a state is updating its stored keys in the combined map. */
  lemma UpdateMatches(cfg: Config, keys: Slots, rows: seq<Row>, slow: map<Key, Row>, st: PrefetchState,
                      grads: seq<Row>, outs: seq<seq<Row>>, loss: (seq<seq<Row>>, Key) -> Row)
    requires |rows| == |keys| && Injective(keys) && Holds(st, keys) && |grads| == |st.slots|
    requires forall i :: 0 <= i < |grads| ==> grads[i] == loss(outs, st.keys[i])
    ensures Logical(keys, UpdatedRows(cfg, rows, st.slots, grads), slow)
         == Updated(cfg, Logical(keys, rows, slow), TicketOf(st), outs, loss)
  {
    var l, m := Logical(keys, rows, slow), Logical(keys, UpdatedRows(cfg, rows, st.slots, grads), slow);
    var u := Updated(cfg, l, TicketOf(st), outs, loss);
    hide Logical, UpdatedRows, KeptIn, TicketOf, Injective, Holds;
    forall k
      ensures k in m <==> k in l
      ensures k in l ==> m[k] == u[k]
    {
      if k in l { UpdatedKey(cfg, keys, rows, slow, st, grads, outs, loss, k); }
    }
    hide Updated;
  }

  lemma UpdatedKey(cfg: Config, keys: Slots, rows: seq<Row>, slow: map<Key, Row>, st: PrefetchState,
                   grads: seq<Row>, outs: seq<seq<Row>>, loss: (seq<seq<Row>>, Key) -> Row, k: Key)
    requires |rows| == |keys| && Injective(keys) && Holds(st, keys) && |grads| == |st.slots|
    requires forall i :: 0 <= i < |grads| ==> grads[i] == loss(outs, st.keys[i])
    requires k in Logical(keys, rows, slow)
    ensures var l := Logical(keys, rows, slow)[k];
      Logical(keys, UpdatedRows(cfg, rows, st.slots, grads), slow)[k]
      == if KeptIn(TicketOf(st), k) then cfg.update(l, loss(outs, k)) else l
  {
    hide Logical, KeptIn, TicketOf, Injective;
    KeptSlot(keys, st, k);
  }

  /** The slot of a key is among the slots of a state exactly when the state stores the key. */
  lemma KeptSlot(keys: Slots, st: PrefetchState, k: Key)
    requires Injective(keys) && Holds(st, keys)
    ensures var s := SlotOf(keys, k);
      && (s >= 0 && s in st.slots <==> KeptIn(TicketOf(st), k))
      && (s >= 0 && s in st.slots ==> st.keys[IndexOf(st.slots, s)] == k)
  {
    var s := SlotOf(keys, k);
    if s >= 0 && s in st.slots {
      var i := IndexOf(st.slots, s);
      assert keys[s] == Some(st.keys[i]) && IndexOf(st.keys, st.keys[i]) == i;
    }
    if KeptIn(TicketOf(st), k) {
      var i := IndexOf(st.keys, k);
      assert keys[st.slots[i]] == Some(k) && IndexOf(keys, keys[st.slots[i]]) == st.slots[i];
    }
  }

  /** What every step keeps: each slot's counter is the number of unfinished batches that use it,
      and the slots of these batches hold their keys. */
  ghost predicate Consistent(waiting: seq<PrefetchState>, active: seq<PrefetchState>, keys: Slots, refs: seq<int>,
                             clean: bool)
  {
    && |refs| == |keys|
    && (forall s :: 0 <= s < |refs| ==> refs[s] == Uses(waiting, s) + Uses(active, s))
    && AllHold(waiting, keys) && AllHold(active, keys)
    && (clean ==> AllWhole(waiting) && AllWhole(active))
  }

  lemma CountersNotNegative(waiting: seq<PrefetchState>, active: seq<PrefetchState>, keys: Slots, refs: seq<int>,
                            clean: bool)
    requires Consistent(waiting, active, keys, refs, clean)
    ensures forall s :: 0 <= s < |refs| ==> refs[s] >= 0
    ensures AllHold(waiting, keys) && AllHold(active, keys)
  {
  }

  datatype Outcome = Done | Raised

  /** Where a run stopped: the number of completed events, and the state after them. */
  datatype Stop = Stop(at: nat, before: Plain, keys: Slots, refs: seq<int>)

  lemma EnabledPrefetch(p: Plain, e: Event)
    ensures e.Prefetch? ==> (Enabled(p, e) <==> e.batch.Ok())
  {
  }

  /** The run of a prefix, one event longer. */
  lemma PrefixRun(cfg: Config, p: Plain, es: seq<Event>, n: nat)
    requires Inv(p) && es != [] && Enabled(p, es[0]) && n < |es[1..]| && Legal(cfg, Step(cfg, p, es[0]), es[1..][..n])
    ensures Legal(cfg, p, es[..n + 1])
    ensures Run(cfg, p, es[..n + 1]) == Run(cfg, Step(cfg, p, es[0]), es[1..][..n])
  {
    assert es[..n + 1] == [es[0]] + es[1..][..n];
    RunCons(cfg, p, es[0], es[1..][..n]);
  }

  class BatchedTables {
    const cfg: Config
    const cache: Table
    const storage: Storage
    const counter: Counter
    var waiting: seq<PrefetchState>
    var active: seq<PrefetchState>
    var outs: seq<seq<Row>>
    var outstanding: int
    /** No cache insert has been rejected so far. */
    var clean: bool

    ghost predicate Valid()
      reads this, cache, cache.keys, cache.scores, cache.refs, cache.rows, storage, counter
    {
      && cache.Valid() && storage.Valid()
      && AllShaped(waiting, cache.keys.Length) && AllShaped(active, cache.keys.Length)
      && (Honest() ==> Consistent(waiting, active, cache.keys[..], cache.refs[..], clean))
    }

    /** Eviction looks at the counters that pinning writes. */
    ghost predicate Honest() reads this, cache { cache.layout.Honest(cache.keys.Length) }

    /** The plain state this object stands for. */
    ghost function Abs(): Plain
      reads this, cache, cache.keys, cache.scores, cache.refs, cache.rows, storage, counter
      requires Valid() && Honest()
      ensures Inv(Abs())
    {
      TicketsOk(waiting, cache.keys[..], Combined(cache, storage));
      TicketsOk(active, cache.keys[..], Combined(cache, storage));
      Plain(Combined(cache, storage), counter.counts, Tickets(waiting), Tickets(active), outs)
    }

    /** The key lists in flight. */
    ghost function InFlight(): Flight reads this { Flight(KeyLists(waiting), KeyLists(active)) }

    /** The outstanding keys are those of the waiting batches, as long as no prefetch raised. */
    ghost predicate Balanced() reads this { outstanding == Total(KeyLists(waiting)) }

    constructor (cfg: Config, n: nat, layout: Layout, mode: Mode)
      requires layout.Within(n) && PlacesFresh(mode)
      ensures Valid() && clean && this.cfg == cfg && cache.layout == layout && cache.keys.Length == n
      ensures Honest() ==> Abs() == NOTHING
      ensures InFlight() == Flight([], []) && Balanced() && waiting == [] && outs == []
      ensures forall s :: 0 <= s < n ==> cache.keys[s] == None && cache.refs[s] == 0
      ensures Combined(cache, storage) == map[] && counter.counts == map[]
      ensures fresh(cache) && fresh(cache.keys) && fresh(cache.scores) && fresh(cache.refs) && fresh(cache.rows)
      ensures fresh(storage) && fresh(counter)
    {
      hide Logical, PlacesFresh, DistinctRows, RowsOwned, RowsBelowNext, Injective, Holds, Whole, Contents;
      this.cfg := cfg;
      cache := new Table(n, layout);
      storage := new Storage(mode);
      counter := new Counter();
      waiting, active, outs, outstanding, clean := [], [], [], 0, true;
      new;
      NothingStored(cache.keys[..], cache.rows[..]);
    }

    /** Prefetch a batch. Raises when more keys are outstanding than the cache has slots. */
    method Prefetch(b: Batch, scoring: Scoring, junk: nat -> Row) returns (r: Outcome)
      requires Valid() && b.Ok()
      modifies this, cache.keys, cache.scores, cache.rows, cache.refs, storage, counter
      ensures Valid() && outs == old(outs) && active == old(active)
      ensures outstanding == old(outstanding) + |b.keys|
      ensures r.Raised? <==> outstanding > cache.keys.Length
      ensures r.Raised? ==> clean == old(clean) && waiting == old(waiting) && (Honest() ==> Abs() == old(Abs()))
      ensures r.Done? ==> |waiting| == |old(waiting)| + 1 && waiting[..|old(waiting)|] == old(waiting)
      ensures r.Done? ==> waiting[|old(waiting)|].keys == b.keys
      ensures r.Done? ==> clean == (old(clean) && Whole(waiting[|old(waiting)|]))
      ensures r.Done? ==>
        var p, st := PlainOf(old(Combined(cache, storage)), old(counter.counts)), waiting[|old(waiting)|];
        && Prefetched(cfg, p, b, cache.layout, old(cache.keys[..]), old(cache.refs[..]), st.slots, cache.keys[..],
                      cache.refs[..])
        && (forall i :: 0 <= i < |st.slots| ==> (i in st.skipped <==> !Keeps(cfg, p, b, b.keys[i])))
        && |st.slots| == |b.keys| && Moved(cfg, p, b, cache.layout, old(cache.refs[..]), scoring,
                                           old(LevelsOf(cache, storage)), LevelsOf(cache, storage), st.slots)
        && Spoiled(Combined(cache, storage), PrefetchRows(cfg, p, b), Unserved(cfg, p, b, st.slots), junk)
      ensures Honest() && r.Done? && clean ==> Abs() == Step(cfg, old(Abs()), Event.Prefetch(b))
      ensures Honest() && Regular(cache.layout) && r.Done? ==>
        clean == (old(clean) && FitsBatch(cfg, old(Abs()), b, cache.layout, old(cache.keys[..]), old(cache.refs[..])))
      ensures Honest() && Regular(cache.layout) && RoomFor(cache.layout, old(InFlight()).Keys(), b.keys) ==>
        clean == old(clean)
    {
      hide Combined, Logical, PrefetchRows, PrefetchCounts, MakeTicket, Bump, KeepsPinned, Holds, Shaped, AllHold,
        PlacesFresh, DistinctRows, RowsOwned, RowsBelowNext, Injective, RoomFor, Regular, FitsBatch, Whole, KeysIn,
        Consistent, Prefetched, Spoiled, Unserved, Keeps, TicketOf, Layout.Honest, Layout.Within, Moved, LevelsOf;
      outstanding := outstanding + |b.keys|;
      if outstanding > cache.keys.Length { return Raised; }
      ghost var keys0, refs0, flight := cache.keys[..], cache.refs[..], InFlight().Keys();
      ghost var p := PlainOf(Combined(cache, storage), counter.counts);
      ghost var before := if Honest() then Abs() else p;
      if Honest() {
        CountersNotNegative(waiting, active, keys0, refs0, clean);
        PinnedInFlight(waiting, active, keys0, refs0, clean);
        SamePrefetch(cfg, before, p, b);
        SameFits(cfg, before, p, b, cache.layout, keys0, refs0);
      }
      var st := PrefetchInto(cfg, cache, storage, counter, b, flight, scoring, junk);
      if Honest() { ConsistentPrefetch(waiting, active, keys0, refs0, clean, st, cache.keys[..], cache.refs[..]); }
      assert Tickets(waiting + [st]) == Tickets(waiting) + [TicketOf(st)];
      waiting := waiting + [st];
      clean := clean && Whole(st);
      r := Done;
    }

    /** Take the oldest prefetched batch and read its rows from the pinned slots now. */
    method Forward(junk: nat -> Row) returns (out: seq<Row>)
      requires Valid() && waiting != []
      modifies this
      ensures Valid() && clean == old(clean)
      ensures outstanding == old(outstanding) - |old(waiting)[0].keys|
      ensures waiting == old(waiting)[1..] && active == old(active) + [old(waiting)[0]] && outs == old(outs) + [out]
      ensures var st := old(waiting)[0];
        && |out| == |st.keys| == |st.slots|
        && forall i :: 0 <= i < |out| && i !in st.skipped && st.slots[i] < cache.rows.Length ==>
             out[i] == if st.slots[i] >= 0 then cfg.emb(cache.rows[st.slots[i]]) else cfg.emb(junk(i))
      ensures Honest() && clean ==> Abs() == Step(cfg, old(Abs()), Event.Forward)
    {
      hide Combined, Logical, PlacesFresh, DistinctRows, RowsOwned, RowsBelowNext, Injective, Output, Holds, Shaped,
        Whole, Consistent, Layout.Honest, Layout.Within;
      var st := waiting[0];
      SlotsLength(st, cache.keys.Length);
      if Honest() { ConsistentForward(waiting, active, cache.keys[..], cache.refs[..], clean); }
      out := ReadRows(cfg, cache, storage, st, junk);
      assert Tickets(waiting[1..]) == Tickets(waiting)[1..];
      assert Tickets(active + [st]) == Tickets(active) + [TicketOf(st)];
      waiting, active, outs := waiting[1..], active + [st], outs + [out];
      outstanding := outstanding - |st.keys|;
    }

    /** Update the slots of a forwarded batch in place and unpin them. The gradients may be
        any function of the outputs so far. */
    method Backward(j: nat, grads: seq<Row>, ghost loss: (seq<seq<Row>>, Key) -> Row)
      requires Valid() && j < |active| && |grads| == |active[j].keys|
      requires forall i :: 0 <= i < |grads| ==> grads[i] == loss(outs, active[j].keys[i])
      modifies this, cache.rows, cache.refs
      ensures Valid() && clean == old(clean) && outs == old(outs) && outstanding == old(outstanding)
      ensures waiting == old(waiting) && active == old(active)[..j] + old(active)[j + 1..]
      ensures Honest() ==> Abs() == Step(cfg, old(Abs()), Event.Backward(j, loss))
    {
      hide Combined, Logical, PlacesFresh, DistinctRows, RowsOwned, RowsBelowNext, Injective, Updated,
        Holds, Bump, Whole, Shaped, Consistent, TicketOf, Layout.Honest, Layout.Within;
      var st := active[j];
      if Honest() { ConsistentBackward(waiting, active, cache.keys[..], cache.refs[..], clean, j); }
      UpdateAndUnpin(cfg, cache, storage, st, grads, outs, loss);
      assert Tickets(active[..j] + active[j + 1..]) == Tickets(active)[..j] + Tickets(active)[j + 1..];
      active := active[..j] + active[j + 1..];
    }

    /** Flush between steps, with batches in flight or not: nothing observable changes, and
        storage alone now holds the whole map. */
    method FlushNow(pieces: seq<(nat, nat)>, batch: nat)
      requires Valid() && batch > 0 && Covers(pieces, cache.keys.Length)
      modifies storage
      ensures Valid() && (Honest() ==> Abs() == old(Abs())) && storage.Map() == old(Combined(cache, storage))
      ensures RowsStable(old(storage.View()), storage.View())
    {
      hide Consistent, Logical, PlacesFresh, DistinctRows, RowsOwned, RowsBelowNext, Injective, Shaped, Layout.Honest;
      FlushCache(cache, storage, pieces, batch);
    }

    /** Forward as the module calls it: a batch that nobody prefetched is prefetched first. */
    method ForwardBatch(b: Batch, scoring: Scoring, junk: nat -> Row)
      returns (r: Outcome, out: seq<Row>)
      requires Valid() && b.Ok()
      modifies this, cache.keys, cache.scores, cache.rows, cache.refs, storage, counter
      ensures Valid() && (clean ==> old(clean))
      ensures old(waiting) != [] ==> r.Done?
      ensures r.Done? ==> outs == old(outs) + [out]
      ensures Honest() && r.Done? && clean ==>
        var p := if old(waiting) == [] then Step(cfg, old(Abs()), Event.Prefetch(b)) else old(Abs());
        p.waiting != [] && Abs() == Step(cfg, p, Event.Forward)
    {
      hide Combined, Step, Inv, Consistent, Shaped, Layout.Honest, Layout.Within;
      r, out := Done, [];
      if waiting == [] { r := Prefetch(b, scoring, junk); }
      if r.Done? {
        assert Honest() ==> |Abs().waiting| == |waiting|;
        out := Forward(junk);
      }
    }

    /** Run a prefetch of a schedule; fails where it raises or rejects a cache insert. */
    method RunPrefetch(b: Batch, scoring: Scoring, junk: nat -> Row)
      returns (ok: bool, raised: bool)
      requires Valid() && clean && b.Ok()
      modifies this, cache.keys, cache.scores, cache.rows, cache.refs, storage, counter
      ensures Valid() && (ok ==> clean && !raised) && (!ok ==> !clean || raised)
      ensures Honest() && ok ==> Abs() == Step(cfg, old(Abs()), Event.Prefetch(b))
      ensures raised ==> outstanding > cache.keys.Length
      ensures Honest() && Regular(cache.layout) && !raised ==>
        (ok <==> FitsBatch(cfg, old(Abs()), b, cache.layout, old(cache.keys[..]), old(cache.refs[..])))
      ensures Honest() && !raised ==> waiting != [] && Prefetched(cfg, old(Abs()), b, cache.layout,
        old(cache.keys[..]), old(cache.refs[..]), waiting[|waiting| - 1].slots, cache.keys[..], cache.refs[..])
      ensures Honest() && Regular(cache.layout) && old(Balanced()) && old(CanDo(Event.Prefetch(b))) ==>
        ok && Balanced() && InFlight() == Next(old(InFlight()), Event.Prefetch(b))
    {
      hide Combined, Step, Inv, Consistent, Shaped, Whole, Regular, RoomFor, FitsBatch, KeysIn, Layout.Honest,
        Layout.Within, Prefetched, Spoiled, Unserved, Keeps, Holds, PrefetchRows, Moved, LevelsOf;
      ghost var was, before, keys, refs := waiting, if Honest() then Abs() else NOTHING, cache.keys[..], cache.refs[..];
      ghost var p := PlainOf(Combined(cache, storage), counter.counts);
      var r := Prefetch(b, scoring, junk);
      raised := r.Raised?;
      ok := !raised && clean;
      if !raised {
        assert waiting == was + [waiting[|was|]];
        ListsAppend(was, waiting[|was|]);
        if Honest() {
          SamePrefetched(cfg, before, p, b, cache.layout, keys, refs, waiting[|was|].slots, cache.keys[..],
                         cache.refs[..]);
        }
      }
    }

    /** Run one event; fails where the step is impossible, raises, or rejects a cache insert. */
    method RunEvent(e: Event, pieces: seq<(nat, nat)>, batch: nat, scoring: Scoring, junk: nat -> Row)
      returns (ok: bool, raised: bool)
      requires Valid() && clean && batch > 0 && Covers(pieces, cache.keys.Length) && (e.Prefetch? ==> e.batch.Ok())
      modifies this, cache.keys, cache.scores, cache.rows, cache.refs, storage, counter
      ensures Valid() && (ok ==> clean && !raised) && (!ok && e.Prefetch? ==> !clean || raised)
      ensures Honest() && ok ==> Enabled(old(Abs()), e) && Abs() == Step(cfg, old(Abs()), e)
      ensures raised ==> e.Prefetch? && outstanding > cache.keys.Length
      ensures Honest() && !e.Prefetch? ==> (ok <==> Enabled(old(Abs()), e))
      ensures Honest() && Regular(cache.layout) && e.Prefetch? && !raised ==>
        (ok <==> FitsBatch(cfg, old(Abs()), e.batch, cache.layout, old(cache.keys[..]), old(cache.refs[..])))
      ensures Honest() && e.Prefetch? && !raised ==> waiting != [] && Prefetched(cfg, old(Abs()), e.batch, cache.layout,
        old(cache.keys[..]), old(cache.refs[..]), waiting[|waiting| - 1].slots, cache.keys[..], cache.refs[..])
      ensures Honest() && Regular(cache.layout) && old(Balanced()) && old(CanDo(e)) ==>
        ok && Balanced() && InFlight() == Next(old(InFlight()), e)
    {
      hide Combined, Step, Inv, Consistent, Shaped, Whole, Regular, RoomFor, FitsBatch, KeysIn, Layout.Honest,
        Layout.Within, Prefetched, Holds;
      match e {
        case Prefetch(b) =>
          ok, raised := RunPrefetch(b, scoring, junk);
          return;
        case Forward =>
          assert Honest() ==> |Abs().waiting| == |waiting|;
          if waiting == [] { return false, false; }
          ListsForward(waiting, active);
          var _ := Forward(junk);
        case Backward(j, loss) =>
          assert Honest() ==> |Abs().active| == |active|;
          if j >= |active| { return false, false; }
          var st, history := active[j], outs;
          ListsBackward(active, j);
          Backward(j, seq(|st.keys|, i requires 0 <= i < |st.keys| => loss(history, st.keys[i])), loss);
        case Flush =>
          if Honest() { FlushDoesNothing(cfg, Abs()); }
          FlushNow(pieces, batch);
      }
      return true, false;
    }

    ghost predicate CanDo(e: Event) reads this, cache { Ready(cache.layout, cache.keys.Length, InFlight(), e) }

    /** The run stopped at a prefetch that did not fit: `stop` is the state before it, and the object
        is in the state after it. */
    ghost predicate StoppedBy(stop: Stop, b: Batch)
      reads this, cache, cache.keys, cache.scores, cache.refs, cache.rows, storage, counter
      requires Valid() && b.Ok() && |stop.refs| == |stop.keys| == cache.keys.Length
    {
      && !FitsBatch(cfg, stop.before, b, cache.layout, stop.keys, stop.refs)
      && waiting != []
      && Prefetched(cfg, stop.before, b, cache.layout, stop.keys, stop.refs, waiting[|waiting| - 1].slots,
                    cache.keys[..], cache.refs[..])
    }

    /** Run a schedule of prefetches, forwards, backwards and flushes; stops where a step is
        impossible, raises, or rejects a cache insert, and only there. A run that completes is a
        run of the plain store, and a schedule with room for its keys completes. */
    method RunSchedule(es: seq<Event>, pieces: seq<(nat, nat)>, batch: nat, scoring: nat -> Scoring,
                       junk: nat -> nat -> Row)
      returns (ok: bool, raised: bool, ghost stop: Stop)
      requires Valid() && clean && batch > 0 && Covers(pieces, cache.keys.Length)
      requires forall e :: e in es && e.Prefetch? ==> e.batch.Ok()
      modifies this, cache.keys, cache.scores, cache.rows, cache.refs, storage, counter
      ensures Valid()
      ensures Honest() && ok ==> clean && Legal(cfg, old(Abs()), es) && Abs() == Run(cfg, old(Abs()), es)
      ensures Honest() && !ok ==> stop.at < |es| && Legal(cfg, old(Abs()), es[..stop.at])
      ensures Honest() && !ok ==> stop.before == Run(cfg, old(Abs()), es[..stop.at])
      ensures Honest() && !ok && !raised && Enabled(stop.before, es[stop.at]) ==> es[stop.at].Prefetch? && !clean
      ensures Honest() && Regular(cache.layout) && !ok && !raised && Enabled(stop.before, es[stop.at]) ==>
        |stop.refs| == |stop.keys| == cache.keys.Length && StoppedBy(stop, es[stop.at].batch)
      ensures raised ==> outstanding > cache.keys.Length
      ensures Honest() && Regular(cache.layout) && old(Balanced()) && old(CanDoAll(es)) ==> ok
      decreases |es|
    {
      hide Combined, Step, Inv, Consistent, Shaped, Regular, Layout.Honest, Layout.Within, Enabled, Ready, Next,
        FitsBatch, Prefetched, Covers;
      stop := Stop(0, if Honest() then Abs() else NOTHING, cache.keys[..], cache.refs[..]);
      if es == [] { return true, false, stop; }
      assert es[0] in es && forall e :: e in es[1..] ==> e in es;
      ghost var p := stop.before;
      ok, raised := RunEvent(es[0], pieces, batch, scoring(0), junk(0));
      if !ok {
        assert es[..0] == [] && (es[0].Prefetch? ==> es[0].batch.Ok());
        if Honest() { EnabledPrefetch(p, es[0]); }
        return;
      }
      ok, raised, stop := RunSchedule(es[1..], pieces, batch, (i: nat) => scoring(i + 1), (i: nat) => junk(i + 1));
      if !ok && Honest() {
        PrefixRun(cfg, p, es, stop.at);
        stop := stop.(at := stop.at + 1);
      }
    }

    ghost predicate CanDoAll(es: seq<Event>) reads this, cache {
      Completes(cache.layout, cache.keys.Length, InFlight(), es)
    }
  }

  lemma SlotsLength(st: PrefetchState, n: nat)
    requires Shaped(st, n)
    ensures |st.slots| == |st.keys|
  {
  }

  lemma FlushDoesNothing(cfg: Config, p: Plain)
    requires Inv(p)
    ensures Step(cfg, p, Flush) == p
  {
  }

  lemma ConsistentPrefetch(waiting: seq<PrefetchState>, active: seq<PrefetchState>, keys: Slots, refs: seq<int>,
                           clean: bool, st: PrefetchState, now: Slots, counts: seq<int>)
    requires Consistent(waiting, active, keys, refs, clean) && |now| == |keys|
    requires counts == Bump(refs, st.slots, 1) && KeepsPinned(keys, refs, now) && Holds(st, now)
    ensures Consistent(waiting + [st], active, now, counts, clean && Whole(st))
  {
    HoldsSurvives(waiting, keys, refs, now);
    HoldsSurvives(active, keys, refs, now);
    PinsAfterPrefetch(waiting, active, refs, st, counts);
    hide Holds, Whole, Bump, KeepsPinned;
  }

  lemma ConsistentForward(waiting: seq<PrefetchState>, active: seq<PrefetchState>, keys: Slots, refs: seq<int>,
                          clean: bool)
    requires Consistent(waiting, active, keys, refs, clean) && waiting != []
    ensures Consistent(waiting[1..], active + [waiting[0]], keys, refs, clean)
    ensures Holds(waiting[0], keys) && (clean ==> Whole(waiting[0]))
  {
    hide Holds, Whole;
    ListsAfterForward(waiting, active, refs, keys, clean);
  }

  lemma ConsistentBackward(waiting: seq<PrefetchState>, active: seq<PrefetchState>, keys: Slots, refs: seq<int>,
                           clean: bool, j: nat)
    requires Consistent(waiting, active, keys, refs, clean) && j < |active|
    ensures Consistent(waiting, active[..j] + active[j + 1..], keys, Bump(refs, active[j].slots, -1), clean)
    ensures Holds(active[j], keys)
  {
    hide Holds, Whole;
    ListsAfterBackward(waiting, active, refs, j, Bump(refs, active[j].slots, -1), keys, clean);
  }

  ghost function KeyLists(sts: seq<PrefetchState>): (r: seq<seq<Key>>)
    ensures |r| == |sts| && forall i :: 0 <= i < |r| ==> r[i] == sts[i].keys
  {
    seq(|sts|, i requires 0 <= i < |sts| => sts[i].keys)
  }

  lemma ListsAppend(sts: seq<PrefetchState>, st: PrefetchState)
    ensures KeyLists(sts + [st]) == KeyLists(sts) + [st.keys]
    ensures Total(KeyLists(sts + [st])) == Total(KeyLists(sts)) + |st.keys|
  {
    assert KeyLists(sts + [st]) == KeyLists(sts) + [st.keys];
    TotalAppend(KeyLists(sts), st.keys);
  }

  lemma ListsForward(waiting: seq<PrefetchState>, active: seq<PrefetchState>)
    requires waiting != []
    ensures KeyLists(waiting[1..]) == KeyLists(waiting)[1..]
    ensures KeyLists(active + [waiting[0]]) == KeyLists(active) + [KeyLists(waiting)[0]]
    ensures Total(KeyLists(waiting)) == Total(KeyLists(waiting[1..])) + |waiting[0].keys|
  {
    assert KeyLists(waiting[1..]) == KeyLists(waiting)[1..];
  }

  lemma ListsBackward(active: seq<PrefetchState>, j: nat)
    requires j < |active|
    ensures KeyLists(active[..j] + active[j + 1..]) == KeyLists(active)[..j] + KeyLists(active)[j + 1..]
  {
  }

  /** A slot in use is held by a key in flight. */
  lemma PinnedInFlight(waiting: seq<PrefetchState>, active: seq<PrefetchState>, keys: Slots, refs: seq<int>,
                       clean: bool)
    requires Consistent(waiting, active, keys, refs, clean)
    ensures forall s :: 0 <= s < |keys| && keys[s].Some? && refs[s] > 0 ==>
      keys[s].value in Flight(KeyLists(waiting), KeyLists(active)).Keys()
  {
    forall s | 0 <= s < |keys| && keys[s].Some? && refs[s] > 0
      ensures keys[s].value in Flight(KeyLists(waiting), KeyLists(active)).Keys()
    {
      if Uses(waiting, s) > 0 { UsedHeld(waiting, keys, s); } else { UsedHeld(active, keys, s); }
    }
  }

  lemma {:induction false} UsedHeld(sts: seq<PrefetchState>, keys: Slots, s: nat)
    requires AllHold(sts, keys) && s < |keys| && keys[s].Some? && Uses(sts, s) > 0
    ensures keys[s].value in KeysIn(KeyLists(sts))
  {
    var n := |sts| - 1;
    var st := sts[n];
    if s in st.slots {
      assert Holds(st, keys);
      var i := IndexOf(st.slots, s);
      assert keys[s] == Some(st.keys[i]) && st.keys[i] in KeyLists(sts)[n];
    } else {
      UsedHeld(sts[..n], keys, s);
      var i :| 0 <= i < n && keys[s].value in KeyLists(sts[..n])[i];
      assert keys[s].value in KeyLists(sts)[i];
    }
  }

  lemma SamePrefetched(cfg: Config, p: Plain, q: Plain, b: Batch, layout: Layout, keys: Slots, refs: seq<int>,
                       slots: seq<int>, now: Slots, counts: seq<int>)
    requires b.Ok() && |refs| == |keys| && layout.Within(|keys|) && p.rows == q.rows && p.counts == q.counts
    ensures Prefetched(cfg, p, b, layout, keys, refs, slots, now, counts)
         == Prefetched(cfg, q, b, layout, keys, refs, slots, now, counts)
  {
    assert KeptMisses(cfg, p, b, keys) == KeptMisses(cfg, q, b, keys);
  }

  /** Whether a batch fits depends on the stored rows and the counts only. */
  lemma SameFits(cfg: Config, p: Plain, q: Plain, b: Batch, layout: Layout, keys: Slots, refs: seq<int>)
    requires b.Ok() && |refs| == |keys| && layout.Within(|keys|) && p.rows == q.rows && p.counts == q.counts
    ensures FitsBatch(cfg, p, b, layout, keys, refs) == FitsBatch(cfg, q, b, layout, keys, refs)
  {
    assert KeptMisses(cfg, p, b, keys) == KeptMisses(cfg, q, b, keys);
  }

  /** A pipelined run, with flushes anywhere in it, and the run without pipelining, on caches of any
      size over storages of any kind, whatever the scores, with room for their schedules: every output,
      every stored row and every counter is the same. */
  method PipelinedAndSequential(cfg: Config, n: nat, layout: Layout, mode: Mode, pieces: seq<(nat, nat)>,
                                n': nat, layout': Layout, mode': Mode, pieces': seq<(nat, nat)>, batch: nat,
                                es: seq<Event>, bs: seq<Batch>, losses: seq<(seq<seq<Row>>, Key) -> Row>,
                                scoring: nat -> Scoring, scoring': nat -> Scoring, junk: nat -> nat -> Row,
                                junk': nat -> nat -> Row)
    returns (piped: BatchedTables, plain: BatchedTables)
    requires CanRun(n, layout, mode, pieces) && CanRun(n', layout', mode', pieces') && batch > 0
    requires |losses| == |bs| && forall i :: 0 <= i < |bs| ==> bs[i].Ok()
    requires forall e :: e in es && e.Prefetch? ==> e.batch.Ok()
    requires Prefetches(es) == Prefetches(OneAtATime(bs, losses))
    requires Others(WithoutFlushes(es)) == Others(OneAtATime(bs, losses))
    requires Completes(layout, n, Flight([], []), es) && Completes(layout', n', Flight([], []), OneAtATime(bs, losses))
    ensures piped.Valid() && piped.Honest() && plain.Valid() && plain.Honest()
    ensures Legal(cfg, NOTHING, es) && piped.Abs() == plain.Abs() == Run(cfg, NOTHING, es) && piped.outs == plain.outs
  {
    hide CanRun, Run, Legal, Step, OneAtATime, Prefetches, Others, Completes;
    var one := Schedule(bs, losses);
    piped := FreshRun(cfg, n, layout, mode, pieces, batch, es, scoring, junk);
    plain := FreshRun(cfg, n', layout', mode', pieces', batch, one, scoring', junk');
    PipelinedEqualsSequential(cfg, NOTHING, es, bs, losses);
  }

  /** A cache in which eviction sees the pins, of the table's regular layout. */
  ghost predicate CanRun(n: nat, layout: Layout, mode: Mode, pieces: seq<(nat, nat)>) {
    layout.Within(n) && layout.Honest(n) && Regular(layout) && PlacesFresh(mode) && Covers(pieces, n)
  }

  /** The kernels' layout of a group of tables is such a cache if and only if at most one table of
      the group has buckets. */
  lemma CodeCanRun(c: Counters, hash: Key -> nat, mode: Mode)
    requires c.Ok() && PlacesFresh(mode)
    ensures CanRun(c.Total(), LayoutOf(c, hash), mode, PiecesOf(c, c.Tables())) <==> OneTable(c)
  {
    CodePinsKeptIff(c, hash);
    CodeLayoutRegular(c, hash);
    CodePiecesCover(c);
    hide LayoutOf, Regular, Layout.Honest, Layout.Within, OneTable, PlacesFresh, Covers;
  }

  method FreshRun(cfg: Config, n: nat, layout: Layout, mode: Mode, pieces: seq<(nat, nat)>, batch: nat, es: seq<Event>,
                  scoring: nat -> Scoring, junk: nat -> nat -> Row)
    returns (t: BatchedTables)
    requires CanRun(n, layout, mode, pieces) && batch > 0 && Completes(layout, n, Flight([], []), es)
    requires forall e :: e in es && e.Prefetch? ==> e.batch.Ok()
    ensures t.Valid() && t.Honest() && Legal(cfg, NOTHING, es) && t.Abs() == Run(cfg, NOTHING, es)
  {
    t := new BatchedTables(cfg, n, layout, mode);
    hide PlacesFresh, Run, Legal, Combined, Holds, Injective, Regular, Completes;
    var ok, raised, stop := t.RunSchedule(es, pieces, batch, scoring, junk);
  }

  method Schedule(bs: seq<Batch>, losses: seq<(seq<seq<Row>>, Key) -> Row>) returns (es: seq<Event>)
    requires |losses| == |bs| && forall i :: 0 <= i < |bs| ==> bs[i].Ok()
    ensures es == OneAtATime(bs, losses) && forall e :: e in es && e.Prefetch? ==> e.batch.Ok()
  {
    es := [];
    var i := |bs|;
    while i > 0
      invariant 0 <= i <= |bs| && es == OneAtATime(bs[i..], losses[i..])
      invariant forall e :: e in es && e.Prefetch? ==> e.batch.Ok()
    {
      i := i - 1;
      assert bs[i..][1..] == bs[i + 1..] && losses[i..][1..] == losses[i + 1..];
      es := [Prefetch(bs[i]), Forward, Backward(0, losses[i])] + es;
    }
  }

  /** Update the slots of a state in place, then decrement their counters. */
  method UpdateAndUnpin(cfg: Config, cache: Table, storage: Storage, st: PrefetchState, grads: seq<Row>,
                        ghost outs: seq<seq<Row>>, ghost loss: (seq<seq<Row>>, Key) -> Row)
    requires cache.Valid() && storage.Valid() && Shaped(st, cache.keys.Length) && |grads| == |st.keys|
    requires forall i :: 0 <= i < |grads| ==> grads[i] == loss(outs, st.keys[i])
    modifies cache.rows, cache.refs
    ensures cache.Valid()
    ensures Holds(st, cache.keys[..]) ==>
      && cache.refs[..] == Bump(old(cache.refs[..]), st.slots, -1)
      && Combined(cache, storage) == Updated(cfg, old(Combined(cache, storage)), TicketOf(st), outs, loss)
  {
    hide Logical, PlacesFresh, DistinctRows, RowsOwned, RowsBelowNext, Updated, UpdatedRows;
    ghost var rows0 := cache.rows[..];
    FusedUpdate(cfg, cache, st.slots, grads);
    if Holds(st, cache.keys[..]) {
      UpdateMatches(cfg, cache.keys[..], rows0, storage.Map(), st, grads, outs, loss);
    }
    cache.UpdateCounter(st.slots, -1);
  }

  /** Rows of a state: the slot contents, or the initialiser for keys that were not admitted. */
  method ReadRows(cfg: Config, cache: Table, storage: Storage, st: PrefetchState, junk: nat -> Row)
    returns (out: seq<Row>)
    requires cache.Valid() && storage.Valid() && Shaped(st, cache.keys.Length)
    ensures |out| == |st.keys|
    ensures forall i :: 0 <= i < |out| && i !in st.skipped && st.slots[i] < cache.rows.Length ==>
      out[i] == if st.slots[i] >= 0 then cfg.emb(cache.rows[st.slots[i]]) else cfg.emb(junk(i))
    ensures Holds(st, cache.keys[..]) ==> TicketOk(TicketOf(st), Combined(cache, storage))
    ensures Holds(st, cache.keys[..]) && Whole(st) ==> out == Output(cfg, Combined(cache, storage), TicketOf(st))
  {
    hide PlacesFresh, DistinctRows, RowsOwned, RowsBelowNext, Logical, Output;
    var vals := cache.LoadFromFlat(st.slots, seq(|st.slots|, i requires 0 <= i < |st.slots| => junk(i)));
    ghost var loaded := vals;
    for j := 0 to |st.skipped|
      invariant |vals| == |st.slots|
      invariant forall i :: 0 <= i < |vals| && i !in st.skipped ==> vals[i] == loaded[i]
      invariant forall l :: 0 <= l < j ==> vals[st.skipped[l]] == cfg.init(st.keys[st.skipped[l]])
    {
      var i := st.skipped[j];
      assert i in st.skipped;
      vals := vals[i := cfg.init(st.keys[i])];
    }
    out := seq(|vals|, i requires 0 <= i < |vals| => cfg.emb(vals[i]));
    if Holds(st, cache.keys[..]) {
      StateOutput(cfg, cache.keys[..], cache.rows[..], storage.Map(), st, vals, out);
    }
  }

  lemma StateOutput(cfg: Config, keys: Slots, rows: seq<Row>, slow: map<Key, Row>, st: PrefetchState,
                    vals: seq<Row>, out: seq<Row>)
    requires |rows| == |keys| && Injective(keys) && Holds(st, keys) && |out| == |vals| == |st.slots|
    requires forall i :: 0 <= i < |vals| && st.slots[i] >= 0 ==> vals[i] == rows[st.slots[i]]
    requires forall l :: 0 <= l < |st.skipped| ==> vals[st.skipped[l]] == cfg.init(st.keys[st.skipped[l]])
    requires forall i :: 0 <= i < |out| ==> out[i] == cfg.emb(vals[i])
    ensures TicketOk(TicketOf(st), Logical(keys, rows, slow))
    ensures Whole(st) ==> out == Output(cfg, Logical(keys, rows, slow), TicketOf(st))
  {
    var l, t := Logical(keys, rows, slow), TicketOf(st);
    hide Logical;
    forall i | 0 <= i < |t.keys| && t.kept[i] ensures t.keys[i] in l && l[t.keys[i]] == vals[i] {
      assert keys[st.slots[i]] == Some(t.keys[i]);
      SlotUnique(keys, t.keys[i], st.slots[i]);
    }
    if Whole(st) {
      forall i | 0 <= i < |out| ensures out[i] == Output(cfg, l, t)[i] {
        if st.slots[i] < 0 { assert st.skipped[IndexOf(st.skipped, i)] == i; }
      }
    }
  }

  /** The fused optimizer kernel: update the rows in the given slots; -1 is skipped. */
  method FusedUpdate(cfg: Config, cache: Table, slots: seq<int>, grads: seq<Row>)
    requires cache.Valid() && |grads| == |slots|
    requires forall i :: 0 <= i < |slots| ==> slots[i] < cache.rows.Length
    modifies cache.rows
    ensures cache.Valid()
    ensures NoRepeats(slots) ==> cache.rows[..] == UpdatedRows(cfg, old(cache.rows[..]), slots, grads)
  {
    ghost var was := cache.rows[..];
    for i := 0 to |slots|
      invariant cache.Valid()
      invariant NoRepeats(slots) ==> forall s :: 0 <= s < cache.rows.Length ==>
        cache.rows[s] == if s in slots && IndexOf(slots, s) < i
                         then cfg.update(was[s], grads[IndexOf(slots, s)]) else was[s]
    {
      if slots[i] >= 0 {
        assert NoRepeats(slots) ==> IndexOf(slots, slots[i]) == i;
        cache.rows[slots[i]] := cfg.update(cache.rows[slots[i]], grads[i]);
      }
    }
    assert NoRepeats(slots) ==> cache.rows[..] == UpdatedRows(cfg, was, slots, grads);
  }

  lemma PinsAfterPrefetch(waiting: seq<PrefetchState>, active: seq<PrefetchState>, refs: seq<int>,
                          st: PrefetchState, now: seq<int>)
    requires forall s :: 0 <= s < |refs| ==> refs[s] == Uses(waiting, s) + Uses(active, s)
    requires now == Bump(refs, st.slots, 1)
    ensures |now| == |refs| && forall s :: 0 <= s < |now| ==> now[s] == Uses(waiting + [st], s) + Uses(active, s)
  {
    forall s | 0 <= s < |now| ensures now[s] == Uses(waiting + [st], s) + Uses(active, s) {
      UsesAppend(waiting, st, s);
    }
  }

  lemma ForwardLists(waiting: seq<PrefetchState>, active: seq<PrefetchState>, keys: Slots, clean: bool)
    requires waiting != [] && AllHold(waiting, keys) && AllHold(active, keys)
    requires clean ==> AllWhole(waiting) && AllWhole(active)
    ensures AllHold(waiting[1..], keys) && AllHold(active + [waiting[0]], keys)
    ensures clean ==> AllWhole(waiting[1..]) && AllWhole(active + [waiting[0]])
  {
    hide Holds, Whole;
  }

  lemma ListsAfterForward(waiting: seq<PrefetchState>, active: seq<PrefetchState>, refs: seq<int>, keys: Slots,
                          clean: bool)
    requires waiting != [] && AllHold(waiting, keys) && AllHold(active, keys)
    requires forall s :: 0 <= s < |refs| ==> refs[s] == Uses(waiting, s) + Uses(active, s)
    requires clean ==> AllWhole(waiting) && AllWhole(active)
    ensures AllHold(waiting[1..], keys) && AllHold(active + [waiting[0]], keys)
    ensures forall s :: 0 <= s < |refs| ==> refs[s] == Uses(waiting[1..], s) + Uses(active + [waiting[0]], s)
    ensures clean ==> AllWhole(waiting[1..]) && AllWhole(active + [waiting[0]])
  {
    hide Holds, Whole, AllHold, AllWhole;
    ForwardLists(waiting, active, keys, clean);
    assert waiting[..0] + waiting[1..] == waiting[1..];
    forall s | 0 <= s < |refs| ensures refs[s] == Uses(waiting[1..], s) + Uses(active + [waiting[0]], s) {
      UsesRemove(waiting, 0, s);
      UsesAppend(active, waiting[0], s);
    }
  }

  lemma ListsAfterBackward(waiting: seq<PrefetchState>, active: seq<PrefetchState>, refs: seq<int>, j: nat,
                           now: seq<int>, keys: Slots, clean: bool)
    requires j < |active| && now == Bump(refs, active[j].slots, -1) && AllHold(active, keys)
    requires forall s :: 0 <= s < |refs| ==> refs[s] == Uses(waiting, s) + Uses(active, s)
    requires clean ==> AllWhole(active)
    ensures AllHold(active[..j] + active[j + 1..], keys)
    ensures clean ==> AllWhole(active[..j] + active[j + 1..])
    ensures |now| == |refs|
    ensures forall s :: 0 <= s < |now| ==> now[s] == Uses(waiting, s) + Uses(active[..j] + active[j + 1..], s)
  {
    forall s | 0 <= s < |now| ensures now[s] == Uses(waiting, s) + Uses(active[..j] + active[j + 1..], s) {
      UsesRemove(active, j, s);
    }
  }

  lemma NothingStored(keys: Slots, rows: seq<Row>)
    requires |rows| == |keys| && forall s :: 0 <= s < |keys| ==> keys[s].None?
    ensures Logical(keys, rows, map[]) == map[]
  {
  }

  /** The cache path, with what it returns put together as a state. `flight` has at least the keys
      of the pinned slots. */
  method PrefetchInto(cfg: Config, cache: Table, storage: Storage, counter: Counter, b: Batch, ghost flight: set<Key>,
                      scoring: Scoring, junk: nat -> Row)
    returns (st: PrefetchState)
    requires cache.Valid() && storage.Valid() && b.Ok()
    modifies cache.keys, cache.scores, cache.rows, cache.refs, storage, counter
    ensures cache.Valid() && storage.Valid() && st.keys == b.keys && Shaped(st, cache.keys.Length)
    ensures var p := PlainOf(old(Combined(cache, storage)), old(counter.counts));
      && Prefetched(cfg, p, b, cache.layout, old(cache.keys[..]), old(cache.refs[..]), st.slots, cache.keys[..],
                    cache.refs[..])
      && (forall i :: 0 <= i < |st.slots| ==> (i in st.skipped <==> !Keeps(cfg, p, b, b.keys[i])))
      && |st.slots| == |b.keys| && Moved(cfg, p, b, cache.layout, old(cache.refs[..]), scoring,
                                         old(LevelsOf(cache, storage)), LevelsOf(cache, storage), st.slots)
      && counter.counts == PrefetchCounts(cfg, p, b)
      && Spoiled(Combined(cache, storage), PrefetchRows(cfg, p, b), Unserved(cfg, p, b, st.slots), junk)
      && (cache.layout.Honest(cache.keys.Length)
          && (forall s :: 0 <= s < cache.refs.Length ==> old(cache.refs[s]) >= 0) ==>
            && cache.refs[..] == Bump(old(cache.refs[..]), st.slots, 1)
            && KeepsPinned(old(cache.keys[..]), old(cache.refs[..]), cache.keys[..])
            && Holds(st, cache.keys[..])
            && (Whole(st) ==> TicketOf(st) == MakeTicket(cfg, p, b))
            && (Whole(st) ==> Combined(cache, storage) == PrefetchRows(cfg, p, b)))
      && (cache.layout.Honest(cache.keys.Length) && Regular(cache.layout) ==>
            (Whole(st) <==> FitsBatch(cfg, p, b, cache.layout, old(cache.keys[..]), old(cache.refs[..]))))
      && (cache.layout.Honest(cache.keys.Length) && Regular(cache.layout) && RoomFor(cache.layout, flight, b.keys)
          && (forall s :: 0 <= s < cache.keys.Length && old(cache.keys[s]).Some? && old(cache.refs[s]) > 0 ==>
                old(cache.keys[s]).value in flight)
          ==> Whole(st))
  {
    hide Combined, Logical, PrefetchRows, PrefetchCounts, MakeTicket, Bump, KeepsPinned, Holds, Served, Keeps,
      SlotsNameKeys, TicketOf, PlacesFresh, DistinctRows, RowsOwned, RowsBelowNext, Injective, Whole, Prefetched,
      Spoiled, Unserved, FitsBatch, Regular, RoomFor, Moved, LevelsOf;
    ghost var p := PlainOf(Combined(cache, storage), counter.counts);
    ghost var keys0, refs0 := cache.keys[..], cache.refs[..];
    CachedStored(cache, storage);
    var slots, skipped := PrefetchCachePath(cfg, cache, storage, counter, b, scoring, junk);
    st := PrefetchState(b.keys, slots, skipped);
    PrefetchedShape(cfg, p, b, cache.layout, keys0, refs0, st, cache.keys[..], cache.refs[..]);
    WholeIffServed(cfg, p, b, st);
    if cache.layout.Honest(cache.keys.Length) && (forall s :: 0 <= s < |refs0| ==> refs0[s] >= 0) {
      PrefetchedHonest(cfg, p, b, cache.layout, keys0, refs0, slots, cache.keys[..], cache.refs[..]);
      PrefetchedState(cfg, p, b, cache.keys[..], st);
      if Whole(st) { NothingSpoiled(Combined(cache, storage), PrefetchRows(cfg, p, b), junk); }
    }
    if cache.layout.Honest(cache.keys.Length) && Regular(cache.layout) && RoomFor(cache.layout, flight, b.keys)
       && (forall s :: 0 <= s < |keys0| && keys0[s].Some? && refs0[s] > 0 ==> keys0[s].value in flight) {
      RoomServes(cfg, p, b, cache.layout, keys0, refs0, slots, cache.keys[..], cache.refs[..], flight);
    }
  }

  lemma CachedStored(cache: Table, storage: Storage)
    requires cache.Valid() && storage.Valid()
    ensures forall k :: Some(k) in cache.keys[..] ==> k in Combined(cache, storage)
  {
  }

  lemma PrefetchedShape(cfg: Config, p: Plain, b: Batch, layout: Layout, keys: Slots, refs: seq<int>, st: PrefetchState,
                        now: Slots, counts: seq<int>)
    requires b.Ok() && |refs| == |keys| && layout.Within(|keys|) && st.keys == b.keys
    requires Prefetched(cfg, p, b, layout, keys, refs, st.slots, now, counts)
    requires forall j :: 0 <= j < |st.skipped| ==> st.skipped[j] < |st.slots|
    ensures Shaped(st, |keys|)
  {
    var pos := InsertedAt(cfg, p, b, keys);
    forall i | 0 <= i < |st.slots| ensures -1 <= st.slots[i] < |keys| {
      if i in pos { assert pos[IndexOf(pos, i)] == i && Gather(st.slots, pos)[IndexOf(pos, i)] == st.slots[i]; }
    }
  }

  lemma WholeIffServed(cfg: Config, p: Plain, b: Batch, st: PrefetchState)
    requires b.Ok() && |st.slots| == |b.keys|
    requires forall i :: 0 <= i < |st.slots| ==> (i in st.skipped <==> !Keeps(cfg, p, b, b.keys[i]))
    ensures Whole(st) <==> Unserved(cfg, p, b, st.slots) == {}
  {
    hide Keeps;
    if i :| 0 <= i < |st.slots| && st.slots[i] < 0 && i !in st.skipped {
      assert b.keys[i] in Unserved(cfg, p, b, st.slots);
    }
  }

  /** What prefetch returned holds its keys, and is the plain ticket unless a key was rejected. */
  lemma PrefetchedState(cfg: Config, p: Plain, b: Batch, keys: Slots, st: PrefetchState)
    requires b.Ok() && st.keys == b.keys && SlotsNameKeys(cfg, p, b, keys, st.slots)
    requires forall i :: 0 <= i < |st.slots| ==> (i in st.skipped <==> !Keeps(cfg, p, b, b.keys[i]))
    requires forall j :: 0 <= j < |st.skipped| ==> st.skipped[j] < |st.slots|
    ensures Holds(st, keys)
    ensures Whole(st) <==> Served(cfg, p, b, st.slots)
    ensures Whole(st) ==> TicketOf(st) == MakeTicket(cfg, p, b)
  {
  }
}
