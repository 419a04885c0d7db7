/** When to expand: the decision per table, and the lazily refreshed size estimates that
    avoid reading the exact table sizes at every step. */
module SizeEstimate {
  import opened Common

  /** Options of one table. `maxCapacity` does not bind under NO_EVICTION. */
  datatype Options = Options(noEviction: bool, maxCapacity: nat, maxLoad: real, bucket: nat)

  /** Round up to a multiple of `alignment`; nothing rounds to zero. */
  function AlignToTableSize(n: int, alignment: nat): (r: nat)
    requires alignment > 0
    ensures r >= n && r >= alignment && r % alignment == 0
    ensures forall m: nat :: m > 0 && m % alignment == 0 && m >= n ==> r <= m
  {
    if n <= 0 then LeastMultiple(alignment, 1); alignment
    else
      var q := (n + alignment - 1) / alignment;
      LeastMultiple(alignment, q);
      q * alignment
  }

  lemma LeastMultiple(a: nat, q: nat)
    requires a > 0
    ensures (q * a) % a == 0
    ensures forall m: nat :: m % a == 0 && m > (q - 1) * a ==> q * a <= m
  {
    ModOfMultiple(q, a);
    forall m: nat | m % a == 0 && m > (q - 1) * a ensures q * a <= m {
      var k := m / a;
      assert m == k * a;
      Cancel(q - 1, k, a);
      Grows(q, k, a);
    }
  }

  lemma Grows(x: int, y: int, a: nat)
    requires x <= y
    ensures x * a <= y * a
  {
  }

  lemma Cancel(x: int, y: int, a: nat)
    requires x * a < y * a
    ensures x < y
  {
    if y < x { Grows(y, x, a); }
  }

  lemma ModOfMultiple(q: nat, a: nat)
    requires a > 0
    ensures (q * a) % a == 0
  {
    var x := q * a;
    OnlyMultiple(q - x / a, a, x % a);
  }

  lemma OnlyMultiple(d: int, a: nat, r: nat)
    requires r < a && d * a == r
    ensures r == 0
  {
    if d > 0 { assert d * a == a + (d - 1) * a; }
  }

  /** The new capacity of a table of `size` keys that is about to take `n` more, if it has to
      grow. */
  function Decide(o: Options, cap: nat, size: nat, n: nat): Option<nat>
    requires cap > 0 && o.bucket > 0
  {
    if n == 0 || o.maxLoad <= 0.0 || (!o.noEviction && cap >= o.maxCapacity)
       || (size + n) as real / cap as real <= o.maxLoad
    then None
    else
      var grown := Max(cap * 2, AlignToTableSize(size + n, o.bucket));
      Some(if o.noEviction then grown else Min(o.maxCapacity, grown))
  }

  lemma OverLoad(x: real, c: real, h: real)
    requires c > 0.0
    ensures x / c > h <==> x > h * c
  {
    var r := x / c;
    assert x == r * c;
    Scaled(r - h, c);
  }

  lemma Scaled(d: real, c: real)
    requires c > 0.0
    ensures d * c > 0.0 <==> d > 0.0
  {
  }

  /** A larger size never turns a decision to expand into one not to. */
  lemma DecideMonotone(o: Options, cap: nat, size: nat, more: nat, n: nat)
    requires cap > 0 && o.bucket > 0 && size <= more
    ensures Decide(o, cap, size, n).Some? ==> Decide(o, cap, more, n).Some?
  {
    Divides((size + n) as real, (more + n) as real, cap as real);
  }

  lemma Divides(x: real, y: real, c: real)
    requires c > 0.0 && x <= y
    ensures x / c <= y / c
  {
    assert (y - x) / c >= 0.0;
    assert y / c == x / c + (y - x) / c;
  }

  /** A capacity that a bucket-aligned index of at least `total` slots can have. */
  predicate Holds(o: Options, total: nat, m: nat)
    requires o.bucket > 0
  {
    m > 0 && m % o.bucket == 0 && m >= total
  }

  /** What a target is: at least twice the capacity and large enough for an aligned index of `total`
      keys, unless the limit cuts it, and no larger than one of the two demands. */
  ghost predicate IsTarget(o: Options, cap: nat, total: nat, t: nat)
    requires o.bucket > 0
  {
    && (o.noEviction || t <= o.maxCapacity)
    && ((!o.noEviction && t == o.maxCapacity) || (t >= 2 * cap && exists m: nat :: Holds(o, total, m) && m <= t))
    && (t <= 2 * cap || forall m: nat :: Holds(o, total, m) ==> t <= m)
  }

  /** There is one such target. */
  lemma TargetUnique(o: Options, cap: nat, total: nat, t: nat, u: nat)
    requires o.bucket > 0 && IsTarget(o, cap, total, t) && IsTarget(o, cap, total, u)
    ensures t == u
  {
  }

  /** A table expands exactly when new keys push it over its load factor and the limit is not
      reached. It then grows, to the target. */
  lemma DecideMeans(o: Options, cap: nat, size: nat, n: nat)
    requires cap > 0 && o.bucket > 0
    ensures Decide(o, cap, size, n).Some? <==> MustGrow(o, cap, size, n)
    ensures Decide(o, cap, size, n).Some? ==>
      Decide(o, cap, size, n).value > cap && IsTarget(o, cap, size + n, Decide(o, cap, size, n).value)
  {
    DecideIff(o, cap, size, n);
    assert Holds(o, size + n, AlignToTableSize(size + n, o.bucket));
  }

  ghost predicate MustGrow(o: Options, cap: nat, size: nat, n: nat) {
    n > 0 && o.maxLoad > 0.0 && (o.noEviction || cap < o.maxCapacity) && (size + n) as real > o.maxLoad * cap as real
  }

  /** What happens between two looks at the sizes: a step counts `news` unique keys, and its inserts
      leave the sizes `after`; a flush adds keys without counting them, either after its own check
      found enough room, or after it expanded the tables. */
  datatype Round =
    | Counted(news: seq<nat>, after: seq<nat>)
    | Flushed(after: seq<nat>)
    | FlushExpanded(capacities: seq<nat>, after: seq<nat>)

  /** Capacities, size estimates, the flag that asks for a collection, and the exact sizes. */
  datatype Estimate = Estimate(caps: seq<nat>, est: seq<nat>, flag: bool, sizes: seq<nat>)

  ghost predicate Shapes(opts: seq<Options>, caps: seq<nat>, sizes: seq<nat>, news: seq<nat>) {
    && |caps| == |sizes| == |news| == |opts|
    && forall i :: 0 <= i < |opts| ==> opts[i].bucket > 0 && caps[i] > 0
  }

  ghost function Decisions(opts: seq<Options>, caps: seq<nat>, sizes: seq<nat>, news: seq<nat>): (ds: seq<Option<nat>>)
    requires Shapes(opts, caps, sizes, news)
    ensures |ds| == |opts|
    ensures forall i :: 0 <= i < |ds| ==> ds[i] == Decide(opts[i], caps[i], sizes[i], news[i])
  {
    seq(|opts|, i requires 0 <= i < |opts| => Decide(opts[i], caps[i], sizes[i], news[i]))
  }

  function Grown(caps: seq<nat>, ds: seq<Option<nat>>): (r: seq<nat>)
    requires |ds| == |caps|
    ensures |r| == |caps|
    ensures forall i :: 0 <= i < |r| ==> r[i] == if ds[i].Some? then ds[i].value else caps[i]
  {
    seq(|caps|, i requires 0 <= i < |caps| => if ds[i].Some? then ds[i].value else caps[i])
  }

  predicate AnyOf(ds: seq<Option<nat>>) { exists i :: 0 <= i < |ds| && ds[i].Some? }

  ghost predicate AtLeast(est: seq<nat>, sizes: seq<nat>) {
    |est| == |sizes| && forall i :: 0 <= i < |est| ==> est[i] >= sizes[i]
  }

  /** Where the estimates call for no expansion, neither do the exact sizes. */
  lemma NoneByEstimate(opts: seq<Options>, caps: seq<nat>, est: seq<nat>, sizes: seq<nat>, news: seq<nat>)
    requires Shapes(opts, caps, est, news) && AtLeast(est, sizes) && !AnyOf(Decisions(opts, caps, est, news))
    ensures Decisions(opts, caps, est, news) == Decisions(opts, caps, sizes, news)
  {
    forall i | 0 <= i < |opts|
      ensures Decide(opts[i], caps[i], est[i], news[i]) == Decide(opts[i], caps[i], sizes[i], news[i])
    {
      assert Decisions(opts, caps, est, news)[i].None?;
      DecideMonotone(opts[i], caps[i], sizes[i], est[i], news[i]);
    }
  }

  /** The estimates lead to the decisions of the exact sizes: they were just collected, or they
      call for an expansion, upon which exact sizes are read, or no exact size calls for one. */
  ghost predicate Trusted(opts: seq<Options>, s: Estimate, news: seq<nat>)
    requires Shapes(opts, s.caps, s.est, news) && |s.sizes| == |opts|
  {
    s.flag || AnyOf(Decisions(opts, s.caps, s.est, news)) || !AnyOf(Decisions(opts, s.caps, s.sizes, news))
  }

  /** The decisions made by the estimates. */
  ghost function LazyDecisions(opts: seq<Options>, s: Estimate, news: seq<nat>): seq<Option<nat>>
    requires Shapes(opts, s.caps, s.est, news) && |s.sizes| == |opts|
  {
    var lazy := Decisions(opts, s.caps, s.est, news);
    if s.flag || AnyOf(lazy) then Decisions(opts, s.caps, s.sizes, news) else lazy
  }

  /** One check is exact if and only if the estimates can be trusted for it. */
  lemma LazyExactIff(opts: seq<Options>, s: Estimate, news: seq<nat>)
    requires Shapes(opts, s.caps, s.est, news) && |s.sizes| == |opts|
    ensures LazyDecisions(opts, s, news) == Decisions(opts, s.caps, s.sizes, news) <==> Trusted(opts, s, news)
  {
    var lazy, exact := Decisions(opts, s.caps, s.est, news), Decisions(opts, s.caps, s.sizes, news);
    if !AnyOf(lazy) && !AnyOf(exact) {
      forall i | 0 <= i < |opts| ensures lazy[i] == exact[i] { assert lazy[i].None? && exact[i].None?; }
    }
  }

  /** Whatever number of keys the next step counts for the table, its estimate leads to the decision
      of the exact size: it is not too low, or the next key crosses the load factor, or the table
      never expands. */
  ghost predicate SafeEstimate(o: Options, cap: nat, est: nat, size: nat)
    requires cap > 0
  {
    || est >= size || (est + 1) as real > o.maxLoad * cap as real
    || o.maxLoad <= 0.0 || (!o.noEviction && cap >= o.maxCapacity)
  }

  lemma DecideIff(o: Options, cap: nat, size: nat, n: nat)
    requires cap > 0 && o.bucket > 0
    ensures Decide(o, cap, size, n).Some? <==> MustGrow(o, cap, size, n)
  {
    OverLoad((size + n) as real, cap as real, o.maxLoad);
  }

  /** An estimate that is not safe fails for some number of keys: as many as it thinks fit. */
  lemma UnsafeEstimate(o: Options, cap: nat, est: nat, size: nat) returns (n: nat)
    requires cap > 0 && o.bucket > 0 && !SafeEstimate(o, cap, est, size)
    ensures n > 0 && Decide(o, cap, est, n).None? && Decide(o, cap, size, n).Some?
  {
    hide Decide;
    var limit := o.maxLoad * cap as real;
    n := limit.Floor - est;
    DecideIff(o, cap, est, n);
    DecideIff(o, cap, size, n);
  }

  lemma SafeDecides(o: Options, cap: nat, est: nat, size: nat, n: nat)
    requires cap > 0 && o.bucket > 0 && SafeEstimate(o, cap, est, size)
    ensures Decide(o, cap, size, n).Some? ==> Decide(o, cap, est, n).Some?
  {
    DecideIff(o, cap, est, n);
    DecideIff(o, cap, size, n);
  }

  ghost predicate AllSafe(opts: seq<Options>, s: Estimate)
    requires Fitting(opts, s)
  {
    forall i :: 0 <= i < |opts| ==> SafeEstimate(opts[i], s.caps[i], s.est[i], s.sizes[i])
  }

  /** The next check is exact whatever keys it counts, if and only if the estimates were just collected
      or are safe table by table. */
  lemma AlwaysExactIff(opts: seq<Options>, s: Estimate)
    requires Fitting(opts, s)
    ensures (forall news: seq<nat> :: |news| == |opts| ==>
              LazyDecisions(opts, s, news) == Decisions(opts, s.caps, s.sizes, news))
      <==> s.flag || AllSafe(opts, s)
  {
    if s.flag || AllSafe(opts, s) {
      forall news: seq<nat> | |news| == |opts|
        ensures LazyDecisions(opts, s, news) == Decisions(opts, s.caps, s.sizes, news)
      {
        if !s.flag { SafeTrusted(opts, s, news); }
        LazyExactIff(opts, s, news);
      }
    } else {
      var i :| 0 <= i < |opts| && !SafeEstimate(opts[i], s.caps[i], s.est[i], s.sizes[i]);
      var news := FailingStep(opts, s, i);
      LazyExactIff(opts, s, news);
    }
  }

  lemma SafeTrusted(opts: seq<Options>, s: Estimate, news: seq<nat>)
    requires Fitting(opts, s) && AllSafe(opts, s) && |news| == |opts|
    ensures Trusted(opts, s, news)
  {
    var lazy, exact := Decisions(opts, s.caps, s.est, news), Decisions(opts, s.caps, s.sizes, news);
    if AnyOf(exact) {
      var i :| 0 <= i < |exact| && exact[i].Some?;
      SafeDecides(opts[i], s.caps[i], s.est[i], s.sizes[i], news[i]);
      assert lazy[i].Some?;
    }
  }

  /** A step that counts keys for one table only, whose estimate is not safe. */
  lemma FailingStep(opts: seq<Options>, s: Estimate, i: nat) returns (news: seq<nat>)
    requires Fitting(opts, s) && !s.flag && i < |opts|
    requires !SafeEstimate(opts[i], s.caps[i], s.est[i], s.sizes[i])
    ensures |news| == |opts| && !Trusted(opts, s, news)
  {
    var n := UnsafeEstimate(opts[i], s.caps[i], s.est[i], s.sizes[i]);
    news := seq(|opts|, j => if j == i then n else 0);
    var lazy, exact := Decisions(opts, s.caps, s.est, news), Decisions(opts, s.caps, s.sizes, news);
    assert exact[i].Some?;
    assert forall j :: 0 <= j < |opts| ==> lazy[j].None?;
  }

  ghost predicate Fitting(opts: seq<Options>, s: Estimate) {
    Positive(opts, s.caps) && |s.est| == |s.sizes| == |opts|
  }

  ghost predicate RoundOk(opts: seq<Options>, r: Round) {
    match r
    case Counted(news, after) => |news| == |after| == |opts|
    case Flushed(after) => |after| == |opts|
    case FlushExpanded(caps, after) => |after| == |opts| && Positive(opts, caps)
  }

  ghost predicate RunOk(opts: seq<Options>, rounds: seq<Round>) {
    forall i :: 0 <= i < |rounds| ==> RoundOk(opts, rounds[i])
  }

  /** The state a round leaves behind. */
  ghost function After(opts: seq<Options>, s: Estimate, r: Round): (t: Estimate)
    requires Fitting(opts, s) && RoundOk(opts, r)
    ensures Fitting(opts, t) && t.sizes == r.after
  {
    match r
    case Counted(news, after) =>
      var c := Collected(s);
      var lazy, ds := Decisions(opts, c.caps, c.est, news), LazyDecisions(opts, c, news);
      var read := !c.flag && AnyOf(lazy);
      GrownPositive(opts, c.caps, c.sizes, news);
      GrownPositive(opts, c.caps, c.est, news);
      Estimate(Grown(c.caps, ds), Sum(if read then c.sizes else c.est, news), read && !AnyOf(ds), after)
    case Flushed(after) => s.(sizes := after)
    case FlushExpanded(caps, after) => Estimate(caps, s.sizes, true, after)
  }

  ghost function Collected(s: Estimate): Estimate {
    if s.flag then s.(est := s.sizes) else s
  }

  /** The decisions of a run. */
  ghost function LazyRun(opts: seq<Options>, s: Estimate, rounds: seq<Round>): seq<seq<Option<nat>>>
    requires Fitting(opts, s) && RunOk(opts, rounds)
    decreases |rounds|
  {
    if rounds == [] then []
    else
      assert RoundOk(opts, rounds[0]);
      var rest := LazyRun(opts, After(opts, s, rounds[0]), rounds[1..]);
      if rounds[0].Counted? then [LazyDecisions(opts, Collected(s), rounds[0].news)] + rest else rest
  }

  /** Every check of the run can trust its estimates. */
  ghost predicate AllTrusted(opts: seq<Options>, s: Estimate, rounds: seq<Round>)
    requires Fitting(opts, s) && RunOk(opts, rounds)
    decreases |rounds|
  {
    rounds == [] || (
      assert RoundOk(opts, rounds[0]);
      && (rounds[0].Counted? ==> Trusted(opts, Collected(s), rounds[0].news))
      && AllTrusted(opts, After(opts, s, rounds[0]), rounds[1..]))
  }

  ghost predicate Positive(opts: seq<Options>, caps: seq<nat>) {
    |caps| == |opts| && forall i :: 0 <= i < |opts| ==> opts[i].bucket > 0 && caps[i] > 0
  }

  lemma GrownPositive(opts: seq<Options>, caps: seq<nat>, sizes: seq<nat>, news: seq<nat>)
    requires Shapes(opts, caps, sizes, news)
    ensures Positive(opts, Grown(caps, Decisions(opts, caps, sizes, news)))
  {
    forall i | 0 <= i < |opts| && Decide(opts[i], caps[i], sizes[i], news[i]).Some?
      ensures Decide(opts[i], caps[i], sizes[i], news[i]).value > 0
    {
      DecideMeans(opts[i], caps[i], sizes[i], news[i]);
    }
  }

  /** The decisions of the same rounds when the exact sizes are read at every step. */
  ghost function ExactRun(opts: seq<Options>, caps: seq<nat>, sizes: seq<nat>, rounds: seq<Round>)
    : seq<seq<Option<nat>>>
    requires Positive(opts, caps) && |sizes| == |opts| && RunOk(opts, rounds)
    decreases |rounds|
  {
    if rounds == [] then []
    else
      assert RoundOk(opts, rounds[0]);
      match rounds[0]
      case Counted(news, after) =>
        var ds := Decisions(opts, caps, sizes, news);
        GrownPositive(opts, caps, sizes, news);
        [ds] + ExactRun(opts, Grown(caps, ds), after, rounds[1..])
      case Flushed(after) => ExactRun(opts, caps, after, rounds[1..])
      case FlushExpanded(caps', after) => ExactRun(opts, caps', after, rounds[1..])
  }

  /** Over every run, the lazily made decisions and targets are the exact ones if and only if every
      check can trust its estimates. */
  lemma {:induction false} LazyRunExactIff(opts: seq<Options>, s: Estimate, rounds: seq<Round>)
    requires Fitting(opts, s) && RunOk(opts, rounds)
    ensures LazyRun(opts, s, rounds) == ExactRun(opts, s.caps, s.sizes, rounds) <==> AllTrusted(opts, s, rounds)
    decreases |rounds|
  {
    if rounds != [] {
      assert RoundOk(opts, rounds[0]);
      var r, t := rounds[0], After(opts, s, rounds[0]);
      LazyRunExactIff(opts, t, rounds[1..]);
      if r.Counted? {
        LazyExactIff(opts, Collected(s), r.news);
        var lazy, exact := LazyDecisions(opts, Collected(s), r.news), Decisions(opts, s.caps, s.sizes, r.news);
        hide LazyDecisions, Trusted, Decisions;
        GrownPositive(opts, s.caps, s.sizes, r.news);
        var rest, rest' := LazyRun(opts, t, rounds[1..]), ExactRun(opts, Grown(s.caps, exact), r.after, rounds[1..]);
        assert LazyRun(opts, s, rounds) == [lazy] + rest && ExactRun(opts, s.caps, s.sizes, rounds) == [exact] + rest';
        assert ([lazy] + rest)[0] == lazy && ([exact] + rest')[0] == exact;
        assert ([lazy] + rest)[1..] == rest && ([exact] + rest')[1..] == rest';
      }
    }
  }

  /** No key arrives uncounted behind the back of an estimate that stays in use. */
  ghost predicate AllCounted(opts: seq<Options>, s: Estimate, rounds: seq<Round>)
    requires Fitting(opts, s) && RunOk(opts, rounds)
    decreases |rounds|
  {
    rounds == [] || (
      assert RoundOk(opts, rounds[0]);
      && (rounds[0].Counted? ==>
            forall i :: 0 <= i < |opts| ==> rounds[0].after[i] <= s.sizes[i] + rounds[0].news[i])
      && (rounds[0].Flushed? ==> s.flag || AtLeast(s.est, rounds[0].after))
      && AllCounted(opts, After(opts, s, rounds[0]), rounds[1..]))
  }

  /** Such runs decide exactly, from estimates that are not too low or about to be collected. */
  lemma {:induction false} CountedRunsExact(opts: seq<Options>, s: Estimate, rounds: seq<Round>)
    requires Fitting(opts, s) && RunOk(opts, rounds)
    requires (s.flag || AtLeast(s.est, s.sizes)) && AllCounted(opts, s, rounds)
    ensures AllTrusted(opts, s, rounds)
    decreases |rounds|
  {
    if rounds != [] {
      assert RoundOk(opts, rounds[0]);
      var r, c := rounds[0], Collected(s);
      if r.Counted? && !AnyOf(Decisions(opts, c.caps, c.est, r.news)) {
        NoneByEstimate(opts, c.caps, c.est, c.sizes, r.news);
      }
      CountedRunsExact(opts, After(opts, s, r), rounds[1..]);
    }
  }

  class TableSizes {
    const opts: seq<Options>
    var capacities: seq<nat>
    var estimated: seq<nat>
    var collectFlag: bool

    ghost predicate Valid() reads this { Positive(opts, capacities) && |estimated| == |opts| }

    constructor (opts: seq<Options>, capacities: seq<nat>)
      requires Positive(opts, capacities)
      ensures Valid() && this.opts == opts && this.capacities == capacities
      ensures estimated == seq(|opts|, _ => 0) && !collectFlag
    {
      this.opts, this.capacities := opts, capacities;
      estimated, collectFlag := seq(|opts|, _ => 0), false;
    }

    /** Copy the exact sizes, but only when the flag asks for it. */
    method Collect(sizes: seq<nat>)
      requires Valid() && |sizes| == |opts|
      modifies this`estimated
      ensures estimated == if collectFlag then sizes else old(estimated)
    {
      if !collectFlag { return; }
      estimated := sizes;
    }

    method GetExpandInfo(sizes: seq<nat>, news: seq<nat>) returns (ds: seq<Option<nat>>)
      requires Valid() && |sizes| == |news| == |opts|
      ensures ds == Decisions(opts, capacities, sizes, news)
      ensures forall i :: 0 <= i < |ds| ==> (ds[i].Some? <==> MustGrow(opts[i], capacities[i], sizes[i], news[i]))
      ensures forall i :: 0 <= i < |ds| && ds[i].Some? ==>
        IsTarget(opts[i], capacities[i], sizes[i] + news[i], ds[i].value)
    {
      hide IsTarget, MustGrow;
      ds := [];
      for i := 0 to |opts|
        invariant |ds| == i && forall j :: 0 <= j < i ==> ds[j] == Decide(opts[j], capacities[j], sizes[j], news[j])
      {
        var o, cap, total := opts[i], capacities[i], sizes[i] + news[i];
        var d: Option<nat> := None;
        if news[i] != 0 && o.maxLoad > 0.0 {
          if o.noEviction {
            if total as real / cap as real > o.maxLoad {
              d := Some(Max(cap * 2, AlignToTableSize(total, o.bucket)));
            }
          } else if cap < o.maxCapacity {
            if total as real / cap as real > o.maxLoad {
              d := Some(Min(o.maxCapacity, Max(cap * 2, AlignToTableSize(total, o.bucket))));
            }
          }
        }
        ds := ds + [d];
      }
      forall i | 0 <= i < |ds|
        ensures ds[i].Some? <==> MustGrow(opts[i], capacities[i], sizes[i], news[i])
        ensures ds[i].Some? ==> IsTarget(opts[i], capacities[i], sizes[i] + news[i], ds[i].value)
      {
        DecideMeans(opts[i], capacities[i], sizes[i], news[i]);
      }
    }

    /** What the object and the exact sizes stand for. */
    ghost function View(sizes: seq<nat>): Estimate reads this {
      Estimate(capacities, estimated, collectFlag, sizes)
    }

    /** The estimates, which were not just collected, call for an expansion. */
    ghost predicate Unread(s: Estimate, news: seq<nat>)
      requires Shapes(opts, s.caps, s.est, news)
    {
      !s.flag && exists i :: 0 <= i < |opts| && Decide(opts[i], s.caps[i], s.est[i], news[i]).Some?
    }

    /** Decide by the estimates, asking for the exact sizes before an expansion is made on an
        estimate that was not just collected. `sizes` is what the device would report. */
    method ExpandIfNeed(sizes: seq<nat>, news: seq<nat>) returns (ds: seq<Option<nat>>)
      requires Valid() && |sizes| == |news| == |opts| && (collectFlag ==> estimated == sizes)
      modifies this
      ensures Valid() && ds == LazyDecisions(opts, old(View(sizes)), news)
      ensures ds == Decisions(opts, old(capacities), sizes, news) <==> Trusted(opts, old(View(sizes)), news)
      ensures View(sizes) == After(opts, old(View(sizes)), Counted(news, sizes))
      ensures collectFlag <==> Unread(old(View(sizes)), news) && !AnyOf(ds)
      ensures forall i :: 0 <= i < |opts| ==>
        estimated[i] == news[i] + if Unread(old(View(sizes)), news) then sizes[i] else old(estimated)[i]
      ensures forall i :: 0 <= i < |opts| ==>
        capacities[i] == if ds[i].Some? then ds[i].value else old(capacities)[i]
    {
      ghost var s := View(sizes);
      LazyExactIff(opts, s, news);
      assert Collected(s) == s;
      GrownPositive(opts, capacities, sizes, news);
      GrownPositive(opts, capacities, estimated, news);
      hide Decisions;
      ds := GetExpandInfo(estimated, news);
      if AnyOf(ds) {
        if collectFlag {
          capacities := Grown(capacities, ds);
          estimated := Sum(estimated, news);
          collectFlag := false;
          return;
        }
        collectFlag := true;
        Collect(sizes);
        ds := GetExpandInfo(estimated, news);
        if AnyOf(ds) {
          capacities := Grown(capacities, ds);
          collectFlag := false;
        } else {
          NothingGrows(capacities, ds);
        }
        estimated := Sum(estimated, news);
        return;
      }
      NothingGrows(capacities, ds);
      if collectFlag { collectFlag := false; }
      estimated := Sum(estimated, news);
    }

    /** Run rounds of collect, check and insert, with flushes in between. The decisions are those of
        `LazyRun`: exact if and only if every check can trust its estimates. */
    method RunRounds(sizes: seq<nat>, rounds: seq<Round>) returns (made: seq<seq<Option<nat>>>)
      requires Valid() && |sizes| == |opts| && RunOk(opts, rounds)
      modifies this
      ensures made == LazyRun(opts, old(View(sizes)), rounds)
      ensures made == ExactRun(opts, old(capacities), sizes, rounds) <==> AllTrusted(opts, old(View(sizes)), rounds)
      decreases |rounds|
    {
      LazyRunExactIff(opts, View(sizes), rounds);
      if rounds == [] { return []; }
      assert RoundOk(opts, rounds[0]);
      ghost var s := View(sizes);
      match rounds[0] {
        case Counted(news, after) =>
          Collect(sizes);
          assert View(sizes) == Collected(s);
          var ds := ExpandIfNeed(sizes, news);
          assert View(after) == After(opts, s, rounds[0]);
          hide LazyDecisions, AllTrusted, ExactRun;
          var rest := RunRounds(after, rounds[1..]);
          made := [ds] + rest;
        case Flushed(after) =>
          hide AllTrusted, ExactRun;
          made := RunRounds(after, rounds[1..]);
        case FlushExpanded(caps, after) =>
          capacities, estimated, collectFlag := caps, sizes, true;
          hide AllTrusted, ExactRun;
          made := RunRounds(after, rounds[1..]);
      }
    }
  }

  function Sum(a: seq<nat>, b: seq<nat>): (r: seq<nat>)
    requires |a| == |b|
    ensures |r| == |a| && forall i :: 0 <= i < |r| ==> r[i] == a[i] + b[i]
  {
    seq(|a|, i requires 0 <= i < |a| => a[i] + b[i])
  }

  lemma NothingGrows(caps: seq<nat>, ds: seq<Option<nat>>)
    requires |ds| == |caps| && !AnyOf(ds)
    ensures Grown(caps, ds) == caps
  {
    forall i | 0 <= i < |caps| ensures Grown(caps, ds)[i] == caps[i] {
      assert ds[i].None?;
    }
  }

  /** A flush writes without expanding when the index has twice the room of the keys of storage and
      cache together. */
  predicate FlushReturnsEarly(o: Options, cap: nat, merged: nat)
    requires o.bucket > 0
  {
    cap >= AlignToTableSize(2 * merged, o.bucket)
  }

  /** That is: there is an aligned capacity for twice the keys, and the index has it. */
  lemma EarlyIff(o: Options, cap: nat, merged: nat)
    requires o.bucket > 0
    ensures FlushReturnsEarly(o, cap, merged) <==> exists m: nat :: Holds(o, 2 * merged, m) && m <= cap
  {
    assert Holds(o, 2 * merged, AlignToTableSize(2 * merged, o.bucket));
  }

  /** One NO_EVICTION table of 256 slots. A step counts 100 keys, which stay in the cache; a step
      with 60 of them crosses the load factor by the estimate, has the exact sizes read, and asks
      for a collection; the next step's collection resets the estimate to the exact size 0. A
      flush then writes the 100 keys, returning early from its own check. The step after it, with
      64 keys, misses the expansion that the exact size calls for. */
  method ExpansionMissed() returns (ds: seq<Option<nat>>)
    ensures var o := Options(true, 0, 0.5, 128);
      ds == [None] && Decide(o, 256, 100, 64) == Some(512) && FlushReturnsEarly(o, 256, 100)
  {
    var o := Options(true, 0, 0.5, 128);
    Ratios(o);
    var t := new TableSizes([o], [256]);
    assert t.estimated == [0];
    t.Collect([0]);
    ds := Check(t, o, 0, 0, 100);
    t.Collect([0]);
    ds := Check(t, o, 100, 0, 60);
    t.Collect([0]);
    ds := Check(t, o, 0, 0, 10);
    t.Collect([100]);
    ds := Check(t, o, 10, 100, 64);
  }

  /** The decisions of the example. */
  lemma Ratios(o: Options)
    requires o == Options(true, 0, 0.5, 128)
    ensures Decide(o, 256, 0, 100).None? && Decide(o, 256, 0, 60).None? && Decide(o, 256, 0, 10).None?
    ensures Decide(o, 256, 10, 64).None? && Decide(o, 256, 100, 60).Some? && Decide(o, 256, 100, 64) == Some(512)
  {
    assert 100.0 / 256.0 <= 0.5 && 60.0 / 256.0 <= 0.5 && 10.0 / 256.0 <= 0.5 && 74.0 / 256.0 <= 0.5;
    assert 160.0 / 256.0 > 0.5 && 164.0 / 256.0 > 0.5;
  }

  /** One check of a single table. */
  method Check(t: TableSizes, o: Options, ghost est: nat, size: nat, n: nat) returns (ds: seq<Option<nat>>)
    requires o.bucket > 0 && t.Valid() && t.opts == [o] && t.capacities == [256] && t.estimated == [est]
    requires t.collectFlag ==> est == size
    requires Decide(o, 256, size, n).None? || Decide(o, 256, est, n).None?
    modifies t
    ensures t.Valid() && t.capacities == [256]
    ensures ds == [if t.collectFlag then Decide(o, 256, size, n) else Decide(o, 256, est, n)]
    ensures t.collectFlag == (!old(t.collectFlag) && Decide(o, 256, est, n).Some?)
    ensures t.estimated == [(if t.collectFlag then size else est) + n]
  {
    ghost var lazy := Decisions([o], [256], [est], [n]);
    ghost var exact := Decisions([o], [256], [size], [n]);
    assert lazy == [Decide(o, 256, est, n)] && exact == [Decide(o, 256, size, n)];
    assert AnyOf(lazy) <==> lazy[0].Some?;
    assert AnyOf(exact) <==> exact[0].Some?;
    ds := t.ExpandIfNeed([size], [n]);
  }
}
