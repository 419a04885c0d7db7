/** Choosing into how many parts the key-value blocks of a decode attention are split, over
    exact rationals. */
module SplitHeuristic {
  import opened Common

  function Ceil(w: real): (c: int)
    ensures c as real - 1.0 < w <= c as real
  {
    if w.Floor as real == w then w.Floor else w.Floor + 1
  }

  function Waves(total: nat, sms: nat, ns: nat): (w: real)
    requires total > 0 && sms > 0 && ns > 0
    ensures w > 0.0
  {
    PositiveProduct(total, ns);
    PositiveRatio((total * ns) as real, sms as real);
    (total * ns) as real / sms as real
  }

  /** The share of the last wave's multiprocessors that `ns` splits keep busy. */
  function Efficiency(total: nat, sms: nat, ns: nat): (e: real)
    requires total > 0 && sms > 0 && ns > 0
    ensures 0.0 < e <= 1.0
  {
    var w := Waves(total, sms, ns);
    Fraction(w, Ceil(w) as real);
    w / Ceil(w) as real
  }

  lemma PositiveProduct(a: nat, b: nat)
    requires a > 0 && b > 0
    ensures a * b > 0
  {
  }

  lemma PositiveRatio(x: real, y: real)
    requires x > 0.0 && y > 0.0
    ensures x / y > 0.0
  {
  }

  lemma Fraction(x: real, y: real)
    requires 0.0 < x <= y
    ensures 0.0 < x / y <= 1.0
  {
    PositiveRatio(x, y);
    var q := x / y;
    assert x == q * y;
    if q > 1.0 { assert (q - 1.0) * y > 0.0; }
  }

  /** The number of waves that `ns` splits take, counted in whole waves. */
  ghost function WholeWaves(total: nat, sms: nat, ns: nat): nat
    requires sms > 0
  {
    (total * ns + sms - 1) / sms
  }

  /** The efficiency is the work over the room of the waves it takes. */
  lemma EfficiencyIs(total: nat, sms: nat, ns: nat)
    requires total > 0 && sms > 0 && ns > 0
    ensures WholeWaves(total, sms, ns) > 0
    ensures Efficiency(total, sms, ns) * (sms as real * WholeWaves(total, sms, ns) as real) == (total * ns) as real
  {
    PositiveProduct(total, ns);
    var x, w, c := total * ns, Waves(total, sms, ns), WholeWaves(total, sms, ns);
    RoundsUp(x, sms);
    Quotients(x as real, sms as real, c as real);
  }

  lemma Quotients(x: real, y: real, c: real)
    requires y > 0.0 && c > 0.0
    ensures x / y / c * (y * c) == x
  {
    var q := x / y;
    var e := q / c;
    assert e * c == q && q * y == x;
    assert e * (y * c) == e * c * y;
  }

  /** Comparing two efficiencies is a comparison of whole numbers. */
  lemma EfficiencyCompared(total: nat, sms: nat, j: nat, k: nat)
    requires total > 0 && sms > 0 && j > 0 && k > 0
    ensures Efficiency(total, sms, j) >= 0.85 * Efficiency(total, sms, k)
      <==> 20 * (j * WholeWaves(total, sms, k)) >= 17 * (k * WholeWaves(total, sms, j))
  {
    hide WholeWaves, Efficiency;
    EfficiencyIs(total, sms, j);
    EfficiencyIs(total, sms, k);
    ComparedWhole(Efficiency(total, sms, j), Efficiency(total, sms, k), total, sms, j, k, WholeWaves(total, sms, j),
                  WholeWaves(total, sms, k));
  }

  lemma ComparedWhole(e: real, f: real, total: nat, sms: nat, j: nat, k: nat, v: nat, w: nat)
    requires total > 0 && sms > 0 && v > 0 && w > 0
    requires e * (sms as real * v as real) == (total * j) as real
    requires f * (sms as real * w as real) == (total * k) as real
    ensures e >= 0.85 * f <==> 20 * (j * w) >= 17 * (k * v)
  {
    AsReal(total, j);
    AsReal(total, k);
    Compared(e, f, total as real, sms as real, j as real, k as real, v as real, w as real);
    CrossMultiplied(j, w, k, v);
  }

  lemma AsReal(a: nat, b: nat)
    ensures (a * b) as real == a as real * b as real
  {
  }

  lemma CrossMultiplied(j: nat, w: nat, k: nat, v: nat)
    ensures 20.0 * (j as real * w as real) >= 17.0 * (k as real * v as real) <==> 20 * (j * w) >= 17 * (k * v)
  {
    AsReal(j, w);
    AsReal(k, v);
    Integral(j * w, k * v);
  }

  lemma Integral(x: nat, y: nat)
    ensures 20.0 * x as real >= 17.0 * y as real <==> 20 * x >= 17 * y
  {
  }

  lemma Compared(e: real, f: real, t: real, s: real, j: real, k: real, v: real, w: real)
    requires t > 0.0 && s > 0.0 && v > 0.0 && w > 0.0
    requires e * (s * v) == t * j && f * (s * w) == t * k
    ensures e >= 0.85 * f <==> 20.0 * (j * w) >= 17.0 * (k * v)
  {
    var c := s * v * w;
    assert c > 0.0;
    assert e * c == t * j * w by { assert e * c == e * (s * v) * w; }
    assert f * c == t * k * v by { assert f * c == f * (s * w) * v; }
    SameOrder(e, 0.85 * f, c);
    SameOrder(j * w, 0.85 * (k * v), t);
  }

  lemma SameOrder(x: real, y: real, c: real)
    requires c > 0.0
    ensures x >= y <==> x * c >= y * c
  {
  }

  /** The split counts the search looks at. */
  predicate Tried(sms: nat, nBlocks: nat, maxSplits: int, k: int) {
    1 <= k <= maxSplits && k <= sms && k <= nBlocks
  }

  /** At least 85% of the efficiency of every count that is tried. */
  ghost predicate GoodEnough(total: nat, sms: nat, nBlocks: nat, maxSplits: int, ns: nat)
    requires sms > 0
  {
    forall k: nat :: Tried(sms, nBlocks, maxSplits, k) ==>
      20 * (ns * WholeWaves(total, sms, k)) >= 17 * (k * WholeWaves(total, sms, ns))
  }

  /** What the heuristic returns, branch by branch, in whole numbers. */
  ghost predicate Chosen(total: nat, sms: nat, nBlocks: nat, mBlocks: nat, sizeOneHead: nat, local_: bool,
                         maxSplits: int, ns: int)
    requires sms > 0
  {
    if 5 * total >= 4 * sms then
      if sizeOneHead > 52428800 && mBlocks >= 2 * sms && !local_ then
        && ns <= maxSplits && (ns - 1) * 52428800 < sizeOneHead
        && (ns == maxSplits || ns * 52428800 >= sizeOneHead)
      else ns == 1
    else if nBlocks <= 4 || !Tried(sms, nBlocks, maxSplits, 1) then ns == 1
    else
      && Tried(sms, nBlocks, maxSplits, ns) && GoodEnough(total, sms, nBlocks, maxSplits, ns)
      && forall k: nat :: 1 <= k < ns ==> !GoodEnough(total, sms, nBlocks, maxSplits, k)
  }

  /** There is one such count. */
  lemma ChosenUnique(total: nat, sms: nat, nBlocks: nat, mBlocks: nat, sizeOneHead: nat, local_: bool,
                     maxSplits: int, ns: int, ns': int)
    requires sms > 0
    requires Chosen(total, sms, nBlocks, mBlocks, sizeOneHead, local_, maxSplits, ns)
    requires Chosen(total, sms, nBlocks, mBlocks, sizeOneHead, local_, maxSplits, ns')
    ensures ns == ns'
  {
    hide GoodEnough;
  }

  const L2: nat := 50 * 1024 * 1024

  /** Efficiencies of 1 up to `bound` splits, and their maximum. */
  method Efficiencies(total: nat, sms: nat, bound: int) returns (effs: seq<real>, best: real)
    requires total > 0 && sms > 0
    ensures |effs| == if bound < 0 then 0 else bound
    ensures forall k :: 1 <= k <= bound ==> effs[k - 1] == Efficiency(total, sms, k)
    ensures forall k :: 1 <= k <= bound ==>
      effs[k - 1] * (sms as real * WholeWaves(total, sms, k) as real) == (total * k) as real
    ensures forall k :: 1 <= k <= bound ==> Efficiency(total, sms, k) <= best
    ensures bound >= 1 ==> exists k :: 1 <= k <= bound && Efficiency(total, sms, k) == best
  {
    hide Efficiency, WholeWaves;
    effs, best := [], 0.0;
    var ns := 1;
    ghost var at := 1;
    while ns <= bound
      invariant ns >= 1 && (bound >= 1 ==> ns <= bound + 1) && (bound < 1 ==> ns == 1) && |effs| == ns - 1
      invariant forall k :: 1 <= k < ns ==> effs[k - 1] == Efficiency(total, sms, k)
      invariant forall k :: 1 <= k < ns ==> Efficiency(total, sms, k) <= best
      invariant if ns == 1 then best == 0.0 else 1 <= at < ns && Efficiency(total, sms, at) == best
    {
      var eff := Efficiency(total, sms, ns);
      if eff > best { best, at := eff, ns; }
      effs := effs + [eff];
      ns := ns + 1;
    }
    forall k | 1 <= k <= bound
      ensures effs[k - 1] * (sms as real * WholeWaves(total, sms, k) as real) == (total * k) as real
    {
      EfficiencyIs(total, sms, k);
    }
  }

  method NumSplits(total: nat, sms: nat, nBlocks: nat, mBlocks: nat, sizeOneHead: nat, local_: bool, maxSplits: int)
    returns (ns: int)
    requires total > 0 && sms > 0
    ensures maxSplits >= 1 ==> 1 <= ns <= maxSplits
    ensures Chosen(total, sms, nBlocks, mBlocks, sizeOneHead, local_, maxSplits, ns)
  {
    hide GoodEnough;
    if total as real >= 0.8 * sms as real {
      if sizeOneHead > L2 && mBlocks >= sms * 2 && !local_ {
        return Min((sizeOneHead + L2 - 1) / L2, maxSplits);
      }
      return 1;
    }
    if nBlocks <= 4 { return 1; }
    var bound := Min(Min(maxSplits, sms), nBlocks);
    var effs, best := Efficiencies(total, sms, bound);
    ns := 1;
    while ns <= bound
      invariant 1 <= ns && (bound >= 1 ==> ns <= bound + 1)
      invariant forall k :: 1 <= k < ns ==> Efficiency(total, sms, k) < 0.85 * best
    {
      if effs[ns - 1] >= 0.85 * best {
        LeastGoodEnough(total, sms, nBlocks, maxSplits, bound, best, ns);
        return;
      }
      ns := ns + 1;
    }
    if bound >= 1 { BestIsGoodEnough(total, sms, bound, best); }
    return 1;
  }

  /** Integer rounding up is the ceiling of the quotient. */
  lemma RoundsUp(x: nat, y: nat)
    requires y > 0
    ensures (x + y - 1) / y == Ceil(x as real / y as real)
  {
    var q := (x + y - 1) / y;
    assert (q - 1) * y < x <= q * y;
    CeilIs(x as real, y as real, q);
  }

  lemma CeilIs(x: real, y: real, q: int)
    requires y > 0.0 && (q as real - 1.0) * y < x <= q as real * y
    ensures Ceil(x / y) == q
  {
    var r := x / y;
    assert x == r * y;
    Below(q as real - 1.0, r, y);
    if r > q as real { Increasing(q as real, r, y); }
  }

  lemma Increasing(g: real, h: real, y: real)
    requires y > 0.0 && g < h
    ensures g * y < h * y
  {
  }

  lemma Below(g: real, h: real, y: real)
    requires y > 0.0 && g * y < h * y
    ensures g < h
  {
    if h < g { Increasing(h, g, y); }
  }

  /** The threshold is below the best efficiency, so the search ends before its fallback. */
  lemma BestIsGoodEnough(total: nat, sms: nat, bound: int, best: real)
    requires total > 0 && sms > 0 && bound >= 1
    requires exists k :: 1 <= k <= bound && Efficiency(total, sms, k) == best
    ensures exists k :: 1 <= k <= bound && Efficiency(total, sms, k) >= 0.85 * best
  {
    var k :| 1 <= k <= bound && Efficiency(total, sms, k) == best;
    assert best > 0.0;
  }

  lemma LeastGoodEnough(total: nat, sms: nat, nBlocks: nat, maxSplits: int, bound: int, best: real, ns: nat)
    requires total > 0 && sms > 0 && 1 <= ns <= bound && bound == Min(Min(maxSplits, sms), nBlocks)
    requires forall k :: 1 <= k <= bound ==> Efficiency(total, sms, k) <= best
    requires exists k :: 1 <= k <= bound && Efficiency(total, sms, k) == best
    requires Efficiency(total, sms, ns) >= 0.85 * best
    requires forall k :: 1 <= k < ns ==> Efficiency(total, sms, k) < 0.85 * best
    ensures GoodEnough(total, sms, nBlocks, maxSplits, ns)
    ensures forall k: nat :: 1 <= k < ns ==> !GoodEnough(total, sms, nBlocks, maxSplits, k)
  {
    hide WholeWaves, Efficiency;
    var b :| 1 <= b <= bound && Efficiency(total, sms, b) == best;
    assert Tried(sms, nBlocks, maxSplits, b);
    forall k: nat | Tried(sms, nBlocks, maxSplits, k)
      ensures 20 * (ns * WholeWaves(total, sms, k)) >= 17 * (k * WholeWaves(total, sms, ns))
    {
      EfficiencyCompared(total, sms, ns, k);
    }
    forall k: nat | 1 <= k < ns ensures !GoodEnough(total, sms, nBlocks, maxSplits, k) {
      EfficiencyCompared(total, sms, k, b);
    }
  }

  function Capped(n: int, nBlocks: nat): int { if nBlocks > 0 then Min(n, nBlocks) else n }

  /** The caller's use with the default limit of 128: at least one split, and at least one
      block for every split whenever there are blocks. */
  method ForwardSplits(total: nat, sms: nat, nBlocks: nat, mBlocks: nat, sizeOneHead: nat, local_: bool)
    returns (ns: nat)
    requires total > 0 && sms > 0
    ensures ns >= 1 && (nBlocks > 0 ==> nBlocks / ns >= 1)
    ensures exists n ::
      Chosen(total, sms, nBlocks, mBlocks, sizeOneHead, local_, 128, n) && ns == Capped(n, nBlocks)
  {
    var n := NumSplits(total, sms, nBlocks, mBlocks, sizeOneHead, local_, 128);
    if n > 1 && nBlocks > 0 { n := Min(n, nBlocks); }
    AtLeastOne(nBlocks, n);
    ns := n;
  }

  lemma AtLeastOne(n: nat, ns: nat)
    requires ns >= 1
    ensures n >= ns ==> n / ns >= 1
  {
  }
}
