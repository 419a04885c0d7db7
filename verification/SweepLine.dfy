/** Attributing kernels to the profiler ranges around their launch with one sweep over the
    sorted open, launch and close events. */
module SweepLine {
  import opened Common

  datatype Range = Range(start: int, end: int, name: string)
  datatype Kernel = Kernel(gpuStart: int, gpuEnd: int, name: string, launch: int)

  /** What is yielded for kernel number `kernel`: the ranges around it, outermost first. */
  datatype Attribution = Attribution(kernel: nat, stack: seq<nat>)

  datatype Event = Open(i: nat) | Launch(i: nat) | Close(i: nat) {
    function Kind(): int { if Open? then 0 else if Launch? then 1 else 2 }
    predicate Of(trace: Trace) { if Launch? then i < |trace.kernels| else i < |trace.ranges| }
  }

  datatype Trace = Trace(ranges: seq<Range>, kernels: seq<Kernel>) {
    ghost predicate Ok() { forall i :: 0 <= i < |ranges| ==> ranges[i].start < ranges[i].end }

    function Time(e: Event): int
      requires e.Of(this)
    {
      match e case Open(i) => ranges[i].start case Launch(j) => kernels[j].launch case Close(i) => ranges[i].end
    }

    /** The sort key: time, then open before launch before close. */
    predicate KeyLess(a: Event, b: Event)
      requires a.Of(this) && b.Of(this)
    {
      Time(a) < Time(b) || (Time(a) == Time(b) && a.Kind() < b.Kind())
    }

    /** The order a stable sort by that key produces from events listed by input position. */
    predicate Before(a: Event, b: Event)
      requires a.Of(this) && b.Of(this)
    {
      KeyLess(a, b) || (Time(a) == Time(b) && a.Kind() == b.Kind() && a.i < b.i)
    }

    ghost predicate Sorted(es: seq<Event>) {
      && (forall p :: 0 <= p < |es| ==> es[p].Of(this))
      && (forall p, q :: 0 <= p < q < |es| ==> Before(es[p], es[q]))
    }

    /** Ranges by start, then by input position. */
    predicate Outer(i: nat, j: nat)
      requires i < |ranges| && j < |ranges|
    {
      ranges[i].start < ranges[j].start || (ranges[i].start == ranges[j].start && i < j)
    }

    ghost predicate Nested(stack: seq<nat>) {
      && (forall k :: 0 <= k < |stack| ==> stack[k] < |ranges|)
      && (forall k, l :: 0 <= k < l < |stack| ==> Outer(stack[k], stack[l]))
    }

    /** The definition the sweep stands for: exactly the ranges whose closed interval contains
        the time, by start and then by input position. */
    ghost predicate Encloses(t: int, stack: seq<nat>) {
      && Nested(stack)
      && (forall i :: 0 <= i < |ranges| ==> (i in stack <==> ranges[i].start <= t <= ranges[i].end))
    }
  }

  /** The definition has one answer. */
  lemma {:induction false} EnclosesUnique(trace: Trace, a: seq<nat>, b: seq<nat>)
    requires trace.Nested(a) && trace.Nested(b) && forall i :: i in a <==> i in b
    ensures a == b
    decreases |a|
  {
    if a != [] { assert a[0] in b; }
    if b != [] {
      assert b[0] in a;
      var n, m := |a| - 1, |b| - 1;
      LastSame(trace, a, b);
      forall i ensures i in a[..n] <==> i in b[..m] {
        ButLast(trace, a, i);
        ButLast(trace, b, i);
      }
      EnclosesUnique(trace, a[..n], b[..m]);
      assert a == a[..n] + [a[n]] && b == b[..m] + [b[m]];
    }
  }

  lemma LastSame(trace: Trace, a: seq<nat>, b: seq<nat>)
    requires trace.Nested(a) && trace.Nested(b) && a != [] && b != [] && forall i :: i in a <==> i in b
    ensures a[|a| - 1] == b[|b| - 1]
  {
    var x, y := a[|a| - 1], b[|b| - 1];
    assert x in a && y in b;
    var k :| 0 <= k < |b| && b[k] == x;
    var l :| 0 <= l < |a| && a[l] == y;
  }

  lemma ButLast(trace: Trace, a: seq<nat>, i: nat)
    requires trace.Nested(a) && a != []
    ensures i in a[..|a| - 1] <==> i in a && i != a[|a| - 1]
  {
  }

  /** Events in the order they are listed: per range its open and its close, then the launches. */
  ghost predicate ByPosition(trace: Trace, es: seq<Event>) {
    && (forall p :: 0 <= p < |es| ==> es[p].Of(trace))
    && (forall p, q :: 0 <= p < q < |es| && es[p].Kind() == es[q].Kind() ==> es[p].i < es[q].i)
  }

  method ListEvents(trace: Trace) returns (es: seq<Event>)
    ensures ByPosition(trace, es) && forall e :: e in es <==> e.Of(trace)
  {
    es := [];
    for i := 0 to |trace.ranges|
      invariant ByPosition(trace, es)
      invariant forall e :: e in es <==> !e.Launch? && e.i < i
    {
      assert forall p :: 0 <= p < |es| ==> es[p] in es;
      es := es + [Open(i), Close(i)];
    }
    for j := 0 to |trace.kernels|
      invariant ByPosition(trace, es)
      invariant forall e :: e in es <==> if e.Launch? then e.i < j else e.i < |trace.ranges|
    {
      assert forall p :: 0 <= p < |es| ==> es[p] in es;
      es := es + [Launch(j)];
    }
  }

  /** Stable insertion: `e` goes behind every event whose key is not greater. */
  method InsertStable(trace: Trace, s: seq<Event>, e: Event) returns (r: seq<Event>)
    requires trace.Sorted(s) && e.Of(trace)
    requires forall p :: 0 <= p < |s| && s[p].Kind() == e.Kind() ==> s[p].i < e.i
    ensures trace.Sorted(r) && forall f :: f in r <==> f in s || f == e
  {
    var k := |s|;
    while k > 0 && trace.KeyLess(e, s[k - 1])
      invariant 0 <= k <= |s|
      invariant forall q :: k <= q < |s| ==> trace.KeyLess(e, s[q])
    {
      k := k - 1;
    }
    r := s[..k] + [e] + s[k..];
    forall q | 0 <= q < k ensures trace.Before(s[q], e) {
      if q < k - 1 { assert trace.Before(s[q], s[k - 1]); }
    }
    Inserted(trace, s, k, e, r);
  }

  lemma Inserted(trace: Trace, s: seq<Event>, k: nat, e: Event, r: seq<Event>)
    requires trace.Sorted(s) && e.Of(trace) && k <= |s| && r == s[..k] + [e] + s[k..]
    requires forall q :: 0 <= q < k ==> trace.Before(s[q], e)
    requires forall q :: k <= q < |s| ==> trace.KeyLess(e, s[q])
    ensures trace.Sorted(r) && forall f :: f in r <==> f in s || f == e
  {
    forall p, q | 0 <= p < q < |r| ensures trace.Before(r[p], r[q]) {
      var p', q' := if p < k then p else p - 1, if q < k then q else q - 1;
      if p != k && q != k { assert r[p] == s[p'] && r[q] == s[q']; }
    }
    assert s == s[..k] + s[k..];
  }

  method StableSort(trace: Trace, es: seq<Event>) returns (r: seq<Event>)
    requires ByPosition(trace, es)
    ensures trace.Sorted(r) && forall e :: e in r <==> e in es
  {
    r := [];
    for n := 0 to |es|
      invariant trace.Sorted(r) && forall e :: e in r <==> e in es[..n]
    {
      assert forall p :: 0 <= p < |r| ==> r[p] in es[..n];
      r := InsertStable(trace, r, es[n]);
    }
    assert es[..|es|] == es;
  }

  /** Which events precede the one at `p`. */
  lemma Prefix(trace: Trace, es: seq<Event>, p: nat, e: Event)
    requires trace.Sorted(es) && p < |es| && e in es
    ensures e in es[..p] <==> trace.Before(e, es[p])
  {
    var q :| 0 <= q < |es| && es[q] == e;
    if q < p { assert es[..p][q] == e; }
    if e in es[..p] {
      var r :| 0 <= r < p && es[..p][r] == e;
      assert es[r] == e;
    }
  }

  /** The stack after the events `seen`: ranges opened and not closed, by start. */
  ghost predicate OpenNow(trace: Trace, seen: seq<Event>, stack: seq<nat>) {
    && trace.Nested(stack)
    && (forall i :: 0 <= i < |trace.ranges| ==> (i in stack <==> Open(i) in seen && Close(i) !in seen))
  }

  lemma OpenStep(trace: Trace, es: seq<Event>, p: nat, stack: seq<nat>)
    requires trace.Ok() && trace.Sorted(es) && (forall e :: e in es <==> e.Of(trace))
    requires p < |es| && es[p].Open? && OpenNow(trace, es[..p], stack)
    ensures OpenNow(trace, es[..p + 1], stack + [es[p].i])
  {
    var n := es[p].i;
    assert es[..p + 1] == es[..p] + [es[p]];
    forall k | 0 <= k < |stack| ensures trace.Outer(stack[k], n) {
      assert stack[k] in stack;
      Prefix(trace, es, p, Open(stack[k]));
    }
    Prefix(trace, es, p, Close(n));
  }

  lemma CloseStep(trace: Trace, es: seq<Event>, p: nat, stack: seq<nat>, now: seq<nat>)
    requires trace.Ok() && trace.Sorted(es) && (forall e :: e in es <==> e.Of(trace))
    requires p < |es| && es[p].Close? && OpenNow(trace, es[..p], stack)
    requires trace.Nested(now) && forall i :: i in now <==> i in stack && i != es[p].i
    ensures OpenNow(trace, es[..p + 1], now)
  {
    assert es[..p + 1] == es[..p] + [es[p]];
  }

  /** At a launch the stack is the answer. */
  lemma LaunchStep(trace: Trace, es: seq<Event>, p: nat, stack: seq<nat>)
    requires trace.Ok() && trace.Sorted(es) && (forall e :: e in es <==> e.Of(trace))
    requires p < |es| && es[p].Launch? && OpenNow(trace, es[..p], stack)
    ensures trace.Encloses(trace.kernels[es[p].i].launch, stack)
    ensures OpenNow(trace, es[..p + 1], stack)
  {
    assert es[..p + 1] == es[..p] + [es[p]];
    forall i | 0 <= i < |trace.ranges|
      ensures i in stack <==> trace.ranges[i].start <= trace.kernels[es[p].i].launch <= trace.ranges[i].end
    {
      assert Open(i).Of(trace) && Close(i).Of(trace);
      Prefix(trace, es, p, Open(i));
      Prefix(trace, es, p, Close(i));
    }
  }

  /** Remove `n` from the stack, looking from the top. */
  method PopMatching(trace: Trace, stack: seq<nat>, n: nat) returns (now: seq<nat>)
    requires trace.Nested(stack)
    ensures trace.Nested(now) && forall i :: i in now <==> i in stack && i != n
  {
    var k := |stack| - 1;
    while k >= 0
      invariant -1 <= k < |stack|
      invariant forall l :: k < l < |stack| ==> stack[l] != n
    {
      if stack[k] == n {
        now := stack[..k] + stack[k + 1..];
        Popped(trace, stack, k, now);
        return;
      }
      k := k - 1;
    }
    now := stack;
  }

  lemma Popped(trace: Trace, stack: seq<nat>, k: nat, now: seq<nat>)
    requires trace.Nested(stack) && k < |stack| && now == stack[..k] + stack[k + 1..]
    ensures trace.Nested(now) && forall i :: i in now <==> i in stack && i != stack[k]
  {
    forall i | i in now ensures i in stack && i != stack[k] {
      var l :| 0 <= l < |now| && now[l] == i;
      assert stack[if l < k then l else l + 1] == i;
    }
    forall i | i in stack && i != stack[k] ensures i in now {
      var l :| 0 <= l < |stack| && stack[l] == i;
      assert now[if l < k then l else l - 1] == i;
    }
  }

  /** The stack of one result is the answer of the definition. */
  ghost predicate Right(trace: Trace, a: Attribution) {
    a.kernel < |trace.kernels| && trace.Encloses(trace.kernels[a.kernel].launch, a.stack)
  }

  function KernelsOf(out: seq<Attribution>): (ks: seq<nat>)
    ensures |ks| == |out| && forall k :: 0 <= k < |out| ==> ks[k] == out[k].kernel
  {
    seq(|out|, k requires 0 <= k < |out| => out[k].kernel)
  }

  /** Kernel numbers in launch order, none twice. */
  ghost predicate InLaunchOrder(trace: Trace, ks: seq<nat>) {
    && (forall k :: 0 <= k < |ks| ==> ks[k] < |trace.kernels|)
    && (forall k, l :: 0 <= k < l < |ks| ==> trace.Before(Launch(ks[k]), Launch(ks[l])) && ks[k] != ks[l])
  }

  /** The results so far: one per launch seen. */
  ghost predicate Yielded(trace: Trace, seen: seq<Event>, out: seq<Attribution>) {
    && (forall k :: 0 <= k < |out| ==> Right(trace, out[k]))
    && (forall j: nat :: Launch(j) in seen <==> j in KernelsOf(out))
    && InLaunchOrder(trace, KernelsOf(out))
  }

  lemma YieldStep(trace: Trace, es: seq<Event>, p: nat, out: seq<Attribution>, stack: seq<nat>)
    requires trace.Sorted(es) && p < |es| && Yielded(trace, es[..p], out)
    requires es[p].Launch? ==> trace.Encloses(trace.kernels[es[p].i].launch, stack)
    ensures Yielded(trace, es[..p + 1], if es[p].Launch? then out + [Attribution(es[p].i, stack)] else out)
  {
    assert es[..p + 1] == es[..p] + [es[p]];
    if es[p].Launch? {
      var a := Attribution(es[p].i, stack);
      assert Right(trace, a);
      hide Right;
      assert KernelsOf(out + [a]) == KernelsOf(out) + [es[p].i];
      LaunchOrderStep(trace, es, p, KernelsOf(out));
    }
  }

  lemma LaunchOrderStep(trace: Trace, es: seq<Event>, p: nat, ks: seq<nat>)
    requires trace.Sorted(es) && p < |es| && es[p].Launch? && InLaunchOrder(trace, ks)
    requires forall j :: j in ks ==> Launch(j) in es[..p]
    ensures InLaunchOrder(trace, ks + [es[p].i])
  {
    forall k | 0 <= k < |ks| ensures trace.Before(Launch(ks[k]), es[p]) {
      assert ks[k] in ks && Launch(ks[k]) in es[..p];
      Prefix(trace, es, p, Launch(ks[k]));
    }
  }

  /** Every kernel is yielded exactly once, in launch order, with exactly the ranges whose
      closed interval contains its launch time, outermost first. */
  method AttributeKernels(trace: Trace) returns (out: seq<Attribution>)
    requires trace.Ok()
    ensures forall j :: 0 <= j < |trace.kernels| ==> j in KernelsOf(out)
    ensures forall k :: 0 <= k < |out| ==> Right(trace, out[k])
    ensures InLaunchOrder(trace, KernelsOf(out))
  {
    var listed := ListEvents(trace);
    var es := StableSort(trace, listed);
    var stack: seq<nat> := [];
    out := [];
    for p := 0 to |es|
      invariant OpenNow(trace, es[..p], stack)
      invariant Yielded(trace, es[..p], out)
    {
      hide OpenNow, Yielded;
      match es[p] {
        case Open(i) =>
          OpenStep(trace, es, p, stack);
          YieldStep(trace, es, p, out, stack);
          stack := stack + [i];
        case Close(i) =>
          NestedNow(trace, es[..p], stack);
          var now := PopMatching(trace, stack, i);
          CloseStep(trace, es, p, stack, now);
          YieldStep(trace, es, p, out, stack);
          stack := now;
        case Launch(j) =>
          LaunchStep(trace, es, p, stack);
          YieldStep(trace, es, p, out, stack);
          out := out + [Attribution(j, stack)];
      }
    }
    assert es[..|es|] == es;
    forall j | 0 <= j < |trace.kernels| ensures j in KernelsOf(out) {
      assert Launch(j).Of(trace) && Launch(j) in es;
    }
  }

  lemma NestedNow(trace: Trace, seen: seq<Event>, stack: seq<nat>)
    requires OpenNow(trace, seen, stack)
    ensures trace.Nested(stack)
  {
  }
}
