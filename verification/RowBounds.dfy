/** Under NO_EVICTION a key's row is an auto-increment number, and nothing checks it against
    the length of the value buffer: the sizes have to keep it inside. */
module RowBounds {
  import opened Common
  import opened SizeEstimate

  /** Key-index capacity, value rows and rows used so far. */
  datatype Sizes = Sizes(keys: nat, rows: nat, used: nat)

  /** A step counts `counted` unique keys and assigns rows to `added` of them. */
  datatype Arrival = Arrival(counted: nat, added: nat)

  /** Table as created for `init` rows: a key index twice as large, rounded up. */
  function Created(o: Options, init: nat): Sizes
    requires o.bucket > 0
  {
    Sizes(AlignToTableSize(2 * init, o.bucket), init, 0)
  }

  /** Expand if needed, by the same number of value rows as of index slots; then insert. */
  function Step(o: Options, s: Sizes, a: Arrival): Sizes
    requires o.bucket > 0 && s.keys > 0
  {
    var d := Decide(o, s.keys, s.used, a.counted);
    var grown := match d
      case None => s
      case Some(t) => Sizes(t, s.rows + if t > s.keys then t - s.keys else 0, s.used);
    grown.(used := s.used + a.added)
  }

  ghost predicate NoEvictionHalf(o: Options) { o.noEviction && o.maxLoad == 0.5 && o.bucket > 0 }

  /** What every step keeps: the distance between the two capacities. */
  ghost predicate Kept(init: nat, s: Sizes) {
    s.keys >= 2 * init && s.keys > 0 && s.rows == s.keys - init
  }

  lemma HalfLoad(o: Options, s: Sizes, n: nat)
    requires NoEvictionHalf(o) && s.keys > 0 && n > 0
    ensures Decide(o, s.keys, s.used, n).Some? <==> 2 * (s.used + n) > s.keys
  {
    OverLoad((s.used + n) as real, s.keys as real, 0.5);
  }

  /** A bucket-aligned initial capacity starts the distance off. */
  lemma CreatedKept(o: Options, init: nat)
    requires o.bucket > 0 && init > 0 && init % o.bucket == 0
    ensures Created(o, init).keys == 2 * init && Kept(init, Created(o, init))
  {
    var q := init / o.bucket;
    assert 2 * init == (2 * q) * o.bucket;
    ModOfMultiple(2 * q, o.bucket);
  }

  lemma StepKept(o: Options, init: nat, s: Sizes, a: Arrival)
    requires NoEvictionHalf(o) && Kept(init, s)
    ensures Kept(init, Step(o, s, a))
  {
  }

  /** One step ends inside the value buffer exactly when the new total is at most twice the
      index capacity less the initial rows. */
  lemma StepFitsIff(o: Options, init: nat, s: Sizes, n: nat)
    requires NoEvictionHalf(o) && Kept(init, s) && init > 0 && init % o.bucket == 0 && n > 0
    ensures var t := Step(o, s, Arrival(n, n)); t.used <= t.rows <==> s.used + n <= 2 * s.keys - init
  {
    HalfLoad(o, s, n);
    var total := s.used + n;
    if 2 * total > s.keys {
      AlignedBelow(total, o.bucket);
      AtLeastOneBucket(init, o.bucket);
    }
  }

  lemma AlignedBelow(n: nat, a: nat)
    requires a > 0 && n > 0
    ensures AlignToTableSize(n, a) < n + a
  {
  }

  lemma AtLeastOneBucket(n: nat, a: nat)
    requires a > 0 && n > 0 && n % a == 0
    ensures n >= a
  {
  }

  ghost function Run(o: Options, s: Sizes, run: seq<Arrival>): Sizes
    requires NoEvictionHalf(o) && s.keys > 0
    decreases |run|
  {
    if run == [] then s else Run(o, Step(o, s, run[0]), run[1..])
  }

  /** Every step of the run ends with its rows inside the value buffer. */
  ghost predicate StaysInside(o: Options, s: Sizes, run: seq<Arrival>)
    requires NoEvictionHalf(o) && s.keys > 0
    decreases |run|
  {
    run == [] || (var t := Step(o, s, run[0]); t.used <= t.rows && StaysInside(o, t, run[1..]))
  }

  /** Every step of the run satisfies what a caller can check before it. */
  ghost predicate WithinReach(o: Options, init: nat, s: Sizes, run: seq<Arrival>)
    requires NoEvictionHalf(o) && s.keys > 0
    decreases |run|
  {
    run == [] || (s.used + run[0].counted <= 2 * s.keys - init && WithinReach(o, init, Step(o, s, run[0]), run[1..]))
  }

  /** No step counts more keys than half of the index capacity it meets. */
  ghost predicate SmallSteps(o: Options, s: Sizes, run: seq<Arrival>)
    requires NoEvictionHalf(o) && s.keys > 0
    decreases |run|
  {
    run == [] || (
      && run[0].added <= run[0].counted && 2 * run[0].counted <= s.keys
      && SmallSteps(o, Step(o, s, run[0]), run[1..]))
  }

  /** With steps of at most half the index capacity, every run keeps the used rows at most
      half the index capacity, which is at most the value rows. */
  lemma {:induction false} SmallStepsStayInside(o: Options, init: nat, s: Sizes, run: seq<Arrival>)
    requires NoEvictionHalf(o) && Kept(init, s) && 2 * s.used <= s.keys && SmallSteps(o, s, run)
    ensures StaysInside(o, s, run)
    ensures var t := Run(o, s, run); Kept(init, t) && 2 * t.used <= t.keys && t.used <= t.rows
    decreases |run|
  {
    if run != [] {
      StepKept(o, init, s, run[0]);
      if run[0].counted > 0 { HalfLoad(o, s, run[0].counted); }
      SmallStepsStayInside(o, init, Step(o, s, run[0]), run[1..]);
    }
  }

  /** For runs that store every key they count: inside throughout exactly when every step is
      within reach. */
  lemma {:induction false} RunStaysInsideIff(o: Options, init: nat, s: Sizes, run: seq<Arrival>)
    requires NoEvictionHalf(o) && Kept(init, s) && init > 0 && init % o.bucket == 0
    requires forall i :: 0 <= i < |run| ==> run[i].added == run[i].counted > 0
    ensures StaysInside(o, s, run) <==> WithinReach(o, init, s, run)
    decreases |run|
  {
    if run != [] {
      StepKept(o, init, s, run[0]);
      StepFitsIff(o, init, s, run[0].counted);
      RunStaysInsideIff(o, init, Step(o, s, run[0]), run[1..]);
    }
  }

  /** A first batch of 640 keys into a table created for 128 rows runs past its 512 rows. */
  lemma LargeBatchOverruns()
    ensures var o := Options(true, 0, 0.5, 128);
      Step(o, Created(o, 128), Arrival(640, 640)) == Sizes(640, 512, 640)
  {
    var o := Options(true, 0, 0.5, 128);
    assert Created(o, 128) == Sizes(256, 128, 0);
    HalfLoad(o, Created(o, 128), 640);
  }
}
