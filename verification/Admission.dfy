/** The admission counter and the decision which missing keys of a batch are inserted. */
module Admission {
  import opened Common
  import opened BackingStore
  import opened PlainStore

  class Counter {
    var counts: map<Key, nat>

    constructor ()
      ensures counts == map[]
    {
      counts := map[];
    }

    /** Accumulate the frequencies and report the new totals. */
    method Add(ks: seq<Key>, freqs: seq<nat>) returns (totals: seq<nat>)
      requires |freqs| == |ks| && Distinct(ks)
      modifies this
      ensures |totals| == |ks|
      ensures forall i :: 0 <= i < |ks| ==> totals[i] == CountOf(old(counts), ks[i]) + freqs[i]
      ensures counts == Merge(old(counts), ks, totals)
    {
      hide Merge, Distinct;
      totals := [];
      ghost var was := counts;
      for i := 0 to |ks|
        invariant |totals| == i
        invariant forall j :: 0 <= j < i ==> totals[j] == CountOf(was, ks[j]) + freqs[j]
        invariant counts == Merge(was, ks[..i], totals)
        invariant forall k :: k !in ks[..i] ==> CountOf(counts, k) == CountOf(was, k)
      {
        var k := ks[i];
        PrefixDistinct(ks, i);
        var t := (if k in counts then counts[k] else 0) + freqs[i];
        assert ks[..i + 1] == ks[..i] + [k];
        MergeStep(was, ks[..i], totals, k, t);
        totals := totals + [t];
        counts := counts[k := t];
      }
      assert ks[..|ks|] == ks;
    }

    method Erase(ks: seq<Key>)
      modifies this
      ensures forall k :: k in counts <==> k in old(counts) && k !in ks
      ensures forall k :: k in counts ==> counts[k] == old(counts)[k]
    {
      counts := counts - (set k | k in ks);
    }
  }

  /** `frequencies >= threshold`, element by element. */
  function AdmitMask(totals: seq<nat>, threshold: nat): (r: seq<bool>)
    ensures |r| == |totals| && forall i :: 0 <= i < |r| ==> r[i] == (totals[i] >= threshold)
  {
    seq(|totals|, i requires 0 <= i < |totals| => totals[i] >= threshold)
  }

  ghost predicate Admitting(cfg: Config, counts: map<Key, nat>, k: Key, freq: nat) {
    cfg.threshold.None? || CountOf(counts, k) + freq >= cfg.threshold.value
  }

  /** The counter after presenting the keys `ks`: totals for those below the threshold,
      nothing for those admitted. */
  ghost predicate CountsAfter(cfg: Config, before: map<Key, nat>, after: map<Key, nat>, ks: seq<Key>, freqs: seq<nat>)
    requires |freqs| == |ks|
  {
    if cfg.threshold.None? then after == before
    else
      && (forall k :: k in before && k !in ks ==> k in after && after[k] == before[k])
      && (forall k :: k in after ==> k in before || k in ks)
      && (forall i :: 0 <= i < |ks| ==>
            (ks[i] in after <==> !Admitting(cfg, before, ks[i], freqs[i]))
            && (ks[i] in after ==> after[ks[i]] == CountOf(before, ks[i]) + freqs[i]))
  }

  /** Present keys that neither level stores; returns which of them are admitted. */
  method PresentNew(cfg: Config, counter: Counter, ks: seq<Key>, freqs: seq<nat>) returns (admit: seq<bool>)
    requires cfg.threshold.Some? && |freqs| == |ks| && Distinct(ks)
    modifies counter
    ensures |admit| == |ks|
    ensures forall i :: 0 <= i < |ks| ==> admit[i] == Admitting(cfg, old(counter.counts), ks[i], freqs[i])
    ensures CountsAfter(cfg, old(counter.counts), counter.counts, ks, freqs)
  {
    var totals := counter.Add(ks, freqs);
    admit := AdmitMask(totals, cfg.threshold.value);
    var chosen := Gather(ks, Positions(admit));
    forall i | 0 <= i < |ks| ensures ks[i] in chosen <==> admit[i] {
      GatherMember(ks, Positions(admit), ks[i]);
    }
    counter.Erase(chosen);
  }

  /** Which missing keys go into the cache: those found in storage and the admitted new ones. */
  method AdmitMissing(cfg: Config, counter: Counter, ks: seq<Key>, freqs: seq<nat>, founds: seq<bool>)
    returns (mask: seq<bool>)
    requires |founds| == |freqs| == |ks| && Distinct(ks)
    modifies counter
    ensures |mask| == |ks|
    ensures forall i :: 0 <= i < |ks| ==>
      mask[i] == (founds[i] || Admitting(cfg, old(counter.counts), ks[i], freqs[i]))
    ensures var news := Positions(Not(founds));
      CountsAfter(cfg, old(counter.counts), counter.counts, Gather(ks, news), Gather(freqs, news))
  {
    mask := founds;
    var news := Positions(Not(founds));
    ComplementaryPositions(Not(founds));
    if news != [] && cfg.threshold.Some? {
      GatherDistinct(ks, news);
      var admit := PresentNew(cfg, counter, Gather(ks, news), Gather(freqs, news));
      mask := Scatter(mask, news, admit);
      forall i | 0 <= i < |ks| ensures mask[i] ==
        (founds[i] || Admitting(cfg, old(counter.counts), ks[i], freqs[i]))
      {
        if !founds[i] { assert news[IndexOf(news, i)] == i; }
      }
    } else if news != [] {
      mask := seq(|ks|, i => true);
    } else {
      assert forall i :: 0 <= i < |ks| && !founds[i] ==> i in news;
    }
  }
}
