/** Dumping the shards of a table to flat files, one group of files per rank, and loading them
    on any number of ranks. */
module Checkpoint {
  import opened Common

  datatype Word = Timestamp | Frequency | Step | Custom

  /** Embedding, optimizer state and score words of a key. */
  datatype Value = Value(emb: seq<real>, opt: seq<real>, scores: seq<int>)

  datatype Entry = Entry(key: int, value: Value)

  /** Widths of the columns at run time and in a checkpoint, the order of the score words as
      configured and on the device, and whether the score is an LRU timestamp. */
  datatype Format = Format(dim: nat, runtime: nat, ckpt: nat, logical: seq<Word>, physical: seq<Word>,
                           lru: bool, init: real)
  {
    ghost predicate Ok() {
      && ckpt <= runtime && (ckpt == 0 <==> runtime == 0)
      && Distinct(logical) && Distinct(physical) && |logical| == |physical|
      && (forall w :: w in logical <==> w in physical)
      && (lru ==> |physical| == 1)
    }

    ghost predicate Fits(v: Value) { |v.emb| == dim && |v.opt| == runtime && |v.scores| == |physical| }

    ghost predicate FitsFile(v: Value) { |v.emb| == dim && |v.opt| == ckpt && |v.scores| == |physical| }
  }

  /** First position of a word in a list that has it. */
  function Index(s: seq<Word>, w: Word): (i: nat)
    requires w in s
    ensures i < |s| && s[i] == w
  {
    if s[0] == w then 0 else assert w in s[1..]; 1 + Index(s[1..], w)
  }

  /** For every word of `to`, its column in `from`. */
  function ColumnsOf(to: seq<Word>, from: seq<Word>): (perm: seq<nat>)
    requires forall w :: w in to ==> w in from
    ensures |perm| == |to| && forall j :: 0 <= j < |to| ==> perm[j] < |from| && from[perm[j]] == to[j]
  {
    seq(|to|, j requires 0 <= j < |to| => assert to[j] in to; Index(from, to[j]))
  }

  lemma ColumnAt(to: seq<Word>, from: seq<Word>, j: nat, p: nat)
    requires Distinct(from) && (forall w :: w in to ==> w in from) && j < |to| && p < |from| && to[j] == from[p]
    ensures ColumnsOf(to, from)[j] == p
  {
    var c := ColumnsOf(to, from)[j];
    assert IndexOf(from, from[p]) == p && IndexOf(from, from[c]) == c;
  }

  /** The load permutation undoes the dump permutation. */
  lemma PermutationsInvert<T>(logical: seq<Word>, physical: seq<Word>, words: seq<T>)
    requires Distinct(physical) && (forall w :: w in logical <==> w in physical)
    requires |words| == |physical|
    ensures Gather(Gather(words, ColumnsOf(logical, physical)), ColumnsOf(physical, logical)) == words
  {
    var d, l := ColumnsOf(logical, physical), ColumnsOf(physical, logical);
    forall p | 0 <= p < |words| ensures d[l[p]] == p {
      assert physical[d[l[p]]] == logical[l[p]] == physical[p];
      assert IndexOf(physical, physical[p]) == p && IndexOf(physical, physical[d[l[p]]]) == d[l[p]];
    }
  }

  /** Only the checkpointed columns of the optimizer state are written. */
  function Truncate(f: Format, opt: seq<real>): seq<real>
    requires f.ckpt <= |opt|
  {
    if f.ckpt == 0 || |opt| == f.ckpt then opt else opt[..f.ckpt]
  }

  /** Fill a row with the initial accumulator value and overwrite its first columns. */
  method Pad(f: Format, opt: seq<real>) returns (r: seq<real>)
    ensures r == Padded(f, opt)
  {
    if f.runtime == 0 || |opt| == f.runtime { return opt; }
    if |opt| > f.runtime { return opt[..f.runtime]; }
    r := seq(f.runtime, _ => f.init);
    for i := 0 to |opt|
      invariant |r| == f.runtime
      invariant forall j :: 0 <= j < f.runtime ==> r[j] == if j < i then opt[j] else f.init
    {
      r := r[i := opt[i]];
    }
  }

  ghost function Padded(f: Format, opt: seq<real>): seq<real> {
    if f.runtime == 0 || |opt| == f.runtime then opt
    else if |opt| > f.runtime then opt[..f.runtime]
    else opt + seq(f.runtime - |opt|, _ => f.init)
  }

  function ToFile(f: Format, ts: int, v: Value): (w: Value)
    requires f.Ok() && f.Fits(v)
    ensures f.FitsFile(w)
  {
    var words := Gather(v.scores, ColumnsOf(f.logical, f.physical));
    Value(v.emb, Truncate(f, v.opt), if f.lru then [ts - words[0]] else words)
  }

  ghost function FromFile(f: Format, ts: int, w: Value): Value
    requires f.Ok() && f.FitsFile(w)
  {
    var words := Gather(w.scores, ColumnsOf(f.physical, f.logical));
    Value(w.emb, Padded(f, w.opt), if f.lru then [Max(0, ts - words[0])] else words)
  }

  /** What the file holds for a value: the embedding, the checkpointed optimizer columns, and every
      score word in the column of its configured place; of an LRU timestamp its age. */
  ghost predicate Filed(f: Format, ts: int, v: Value, w: Value)
    requires f.Ok() && f.Fits(v)
  {
    && w.emb == v.emb && w.opt == v.opt[..f.ckpt] && |w.scores| == |f.logical|
    && forall j, p :: 0 <= j < |f.logical| && 0 <= p < |f.physical| && f.logical[j] == f.physical[p] ==>
         w.scores[j] == if f.lru then ts - v.scores[p] else v.scores[p]
  }

  lemma ToFileMeans(f: Format, ts: int, v: Value)
    requires f.Ok() && f.Fits(v)
    ensures Filed(f, ts, v, ToFile(f, ts, v))
  {
    var perm := ColumnsOf(f.logical, f.physical);
    forall j, p | 0 <= j < |f.logical| && 0 <= p < |f.physical| && f.logical[j] == f.physical[p] ensures perm[j] == p {
      ColumnAt(f.logical, f.physical, j, p);
    }
    hide ColumnsOf, Distinct;
  }

  /** What a load makes of a file row: the columns that the file has not are initial, every score
      word is in its device column, and an age is taken off the time of the load. */
  ghost predicate ReadAs(f: Format, ts: int, w: Value, v: Value)
    requires f.Ok() && f.FitsFile(w)
  {
    && f.Fits(v) && v.emb == w.emb && v.opt[..f.ckpt] == w.opt
    && (forall i :: f.ckpt <= i < f.runtime ==> v.opt[i] == f.init)
    && forall j, p :: 0 <= j < |f.logical| && 0 <= p < |f.physical| && f.logical[j] == f.physical[p] ==>
         v.scores[p] == if f.lru then Max(0, ts - w.scores[j]) else w.scores[j]
  }

  lemma PaddedIs(f: Format, opt: seq<real>)
    requires f.Ok() && |opt| == f.ckpt
    ensures |Padded(f, opt)| == f.runtime && Padded(f, opt)[..f.ckpt] == opt
    ensures forall i :: f.ckpt <= i < f.runtime ==> Padded(f, opt)[i] == f.init
  {
    hide Distinct;
  }

  lemma FromFileMeans(f: Format, ts: int, w: Value)
    requires f.Ok() && f.FitsFile(w)
    ensures ReadAs(f, ts, w, FromFile(f, ts, w))
  {
    PaddedIs(f, w.opt);
    hide Padded;
    var perm := ColumnsOf(f.physical, f.logical);
    forall j, p | 0 <= j < |f.logical| && 0 <= p < |f.physical| && f.logical[j] == f.physical[p] ensures perm[p] == j {
      ColumnAt(f.physical, f.logical, p, j);
    }
    hide ColumnsOf, Distinct;
  }

  /** What a dump at time `t0` and a load at time `t1` make of a value: the embedding and the
      checkpointed optimizer columns are back, the other columns are initial, the score words
      are in place; an LRU timestamp keeps its age. */
  ghost function Restored(f: Format, t0: int, t1: int, v: Value): Value
    requires f.Ok() && f.Fits(v)
  {
    Value(v.emb, v.opt[..f.ckpt] + seq(f.runtime - f.ckpt, _ => f.init),
          if f.lru then [Max(0, t1 - (t0 - v.scores[0]))] else v.scores)
  }

  lemma ValueRoundTrip(f: Format, t0: int, t1: int, v: Value)
    requires f.Ok() && f.Fits(v)
    ensures FromFile(f, t1, ToFile(f, t0, v)) == Restored(f, t0, t1, v)
  {
    PermutationsInvert(f.logical, f.physical, v.scores);
    if f.lru {
      assert ColumnsOf(f.logical, f.physical) == [0] && ColumnsOf(f.physical, f.logical) == [0];
    }
  }

  /** A group of parallel flat files. */
  datatype Files = Files(keys: seq<int>, embs: seq<real>, opts: seq<real>, scores: seq<int>) {
    function Plus(b: Files): Files { Files(keys + b.keys, embs + b.embs, opts + b.opts, scores + b.scores) }
  }

  function Flatten<T>(rows: seq<seq<T>>): seq<T> {
    if rows == [] then [] else Flatten(rows[..|rows| - 1]) + rows[|rows| - 1]
  }

  lemma {:induction false} FlattenAppend<T>(a: seq<seq<T>>, b: seq<seq<T>>)
    ensures Flatten(a + b) == Flatten(a) + Flatten(b)
    decreases |b|
  {
    if b == [] {
      assert a + b == a;
    } else {
      var n := |b| - 1;
      FlattenAppend(a, b[..n]);
      assert (a + b)[..|a| + n] == a + b[..n];
    }
  }

  ghost predicate Wide<T>(rows: seq<seq<T>>, w: nat) { forall i :: 0 <= i < |rows| ==> |rows[i]| == w }

  lemma {:induction false} FlattenLength<T>(rows: seq<seq<T>>, w: nat)
    requires Wide(rows, w)
    ensures |Flatten(rows)| == |rows| * w
  {
    if rows != [] {
      var n := |rows| - 1;
      FlattenLength(rows[..n], w);
      assert (n + 1) * w == n * w + w;
    }
  }

  /** Read a flat file as `n` rows of width `w`. */
  function View<T>(flat: seq<T>, w: nat, n: nat): (rows: seq<seq<T>>)
    requires |flat| == n * w
    ensures |rows| == n
    decreases n
  {
    if n == 0 then []
    else
      assert n * w == w + (n - 1) * w;
      [flat[..w]] + View(flat[w..], w, n - 1)
  }

  lemma {:induction false} ViewFlatten<T>(rows: seq<seq<T>>, w: nat)
    requires Wide(rows, w)
    ensures |Flatten(rows)| == |rows| * w && View(Flatten(rows), w, |rows|) == rows
    decreases |rows|
  {
    FlattenLength(rows, w);
    if rows != [] {
      ViewFlatten(rows[1..], w);
      FlattenAppend([rows[0]], rows[1..]);
      assert [rows[0]] + rows[1..] == rows;
      assert [rows[0]][..0] == [] && Flatten([rows[0]]) == rows[0];
      assert Flatten(rows)[w..] == Flatten(rows[1..]) && Flatten(rows)[..w] == rows[0];
    }
  }

  function Keys(es: seq<Entry>): (r: seq<int>)
    ensures |r| == |es| && forall i :: 0 <= i < |es| ==> r[i] == es[i].key
  {
    seq(|es|, i requires 0 <= i < |es| => es[i].key)
  }

  function Embs(es: seq<Entry>): (r: seq<seq<real>>)
    ensures |r| == |es| && forall i :: 0 <= i < |es| ==> r[i] == es[i].value.emb
  {
    seq(|es|, i requires 0 <= i < |es| => es[i].value.emb)
  }

  function Opts(es: seq<Entry>): (r: seq<seq<real>>)
    ensures |r| == |es| && forall i :: 0 <= i < |es| ==> r[i] == es[i].value.opt
  {
    seq(|es|, i requires 0 <= i < |es| => es[i].value.opt)
  }

  function Scores(es: seq<Entry>): (r: seq<seq<int>>)
    ensures |r| == |es| && forall i :: 0 <= i < |es| ==> r[i] == es[i].value.scores
  {
    seq(|es|, i requires 0 <= i < |es| => es[i].value.scores)
  }

  /** The files that hold a list of entries. */
  function Written(es: seq<Entry>): Files {
    Files(Keys(es), Flatten(Embs(es)), Flatten(Opts(es)), Flatten(Scores(es)))
  }

  lemma {:induction false} WrittenAppend(a: seq<Entry>, b: seq<Entry>)
    ensures Written(a + b) == Written(a).Plus(Written(b))
  {
    assert Keys(a + b) == Keys(a) + Keys(b);
    assert Embs(a + b) == Embs(a) + Embs(b);
    assert Opts(a + b) == Opts(a) + Opts(b);
    assert Scores(a + b) == Scores(a) + Scores(b);
    FlattenAppend(Embs(a), Embs(b));
    FlattenAppend(Opts(a), Opts(b));
    FlattenAppend(Scores(a), Scores(b));
  }

  function FileForm(f: Format, ts: int, es: seq<Entry>): (r: seq<Entry>)
    requires f.Ok() && forall i :: 0 <= i < |es| ==> f.Fits(es[i].value)
    ensures |r| == |es| && Keys(r) == Keys(es)
    ensures forall i :: 0 <= i < |es| ==> r[i] == Entry(es[i].key, ToFile(f, ts, es[i].value))
    ensures forall i :: 0 <= i < |r| ==> f.FitsFile(r[i].value)
  {
    var r := seq(|es|, i requires 0 <= i < |es| => Entry(es[i].key, ToFile(f, ts, es[i].value)));
    assert Keys(r) == Keys(es);
    r
  }

  /** Row `i` of every file stands for the entry. */
  ghost predicate FilesHold(f: Format, ts: int, files: Files, i: nat, e: Entry)
    requires f.Ok() && f.Fits(e.value)
  {
    var n := |f.logical|;
    && i < |files.keys| && files.keys[i] == e.key
    && (i + 1) * f.dim <= |files.embs| && (i + 1) * f.ckpt <= |files.opts| && (i + 1) * n <= |files.scores|
    && Filed(f, ts, e.value, Value(Row(files.embs, f.dim, i), Row(files.opts, f.ckpt, i), Row(files.scores, n, i)))
  }

  /** Row `i` of a flat file with rows of width `w`. */
  ghost function Row<T>(flat: seq<T>, w: nat, i: nat): seq<T>
    requires (i + 1) * w <= |flat|
  {
    Product(i, w);
    flat[i * w..(i + 1) * w]
  }

  lemma Product(i: nat, w: nat)
    ensures 0 <= i * w <= (i + 1) * w
  {
  }

  lemma {:induction false} FlattenRow<T>(rows: seq<seq<T>>, w: nat, i: nat)
    requires Wide(rows, w) && i < |rows|
    ensures (i + 1) * w <= |Flatten(rows)| && Row(Flatten(rows), w, i) == rows[i]
  {
    var n := |rows| - 1;
    FlattenLength(rows, w);
    FlattenLength(rows[..n], w);
    if i < n {
      FlattenRow(rows[..n], w, i);
      Product(i, w);
    } else {
      assert (n + 1) * w == n * w + w;
    }
  }

  lemma EntryWritten(f: Format, ts: int, es: seq<Entry>, i: nat)
    requires f.Ok() && i < |es| && forall i :: 0 <= i < |es| ==> f.Fits(es[i].value)
    ensures FilesHold(f, ts, Written(FileForm(f, ts, es)), i, es[i])
  {
    var form := FileForm(f, ts, es);
    FlattenRow(Embs(form), f.dim, i);
    FlattenRow(Opts(form), f.ckpt, i);
    FlattenRow(Scores(form), |f.logical|, i);
    ToFileMeans(f, ts, es[i].value);
    hide Flatten, ToFile, Row, Filed;
    assert form[i].value == Value(Embs(form)[i], Opts(form)[i], Scores(form)[i]);
  }

  /** Write the exported entries of one rank, batch by batch. */
  method DumpTable(f: Format, ts: int, es: seq<Entry>, batch: nat) returns (files: Files)
    requires f.Ok() && batch > 0 && forall i :: 0 <= i < |es| ==> f.Fits(es[i].value)
    ensures files == Written(FileForm(f, ts, es)) && |files.keys| == |es|
    ensures forall i :: 0 <= i < |es| ==> FilesHold(f, ts, files, i, es[i])
  {
    files := Files([], [], [], []);
    var at := 0;
    ghost var all := FileForm(f, ts, es);
    hide Flatten, Written, ToFile, FilesHold;
    assert files == Written(all[..0]) by { NothingWritten(); }
    while at < |es|
      invariant 0 <= at <= |es| && files == Written(all[..at])
    {
      var to := if at + batch < |es| then at + batch else |es|;
      var part := FileForm(f, ts, es[at..to]);
      assert all[..to] == all[..at] + part;
      WrittenAppend(all[..at], part);
      files, at := files.Plus(Written(part)), to;
    }
    assert all[..at] == all;
    forall i | 0 <= i < |es| ensures FilesHold(f, ts, files, i, es[i]) { EntryWritten(f, ts, es, i); }
    assert |files.keys| == |es| by { KeysWritten(all); }
  }

  lemma KeysWritten(es: seq<Entry>)
    ensures |Written(es).keys| == |es|
  {
  }

  lemma NothingWritten()
    ensures Written([]) == Files([], [], [], [])
  {
  }

  /** Storage contents after inserting the entries of rank `r` of `W` among `es`. */
  ghost function Loaded(f: Format, ts: int, m: map<int, Value>, es: seq<Entry>, W: nat, r: nat): map<int, Value>
    requires f.Ok() && W > 0 && forall i :: 0 <= i < |es| ==> f.FitsFile(es[i].value)
  {
    if es == [] then m
    else
      var n := |es| - 1;
      var p := Loaded(f, ts, m, es[..n], W, r);
      if es[n].key % W == r then p[es[n].key := FromFile(f, ts, es[n].value)] else p
  }

  lemma {:induction false} LoadedAppend(f: Format, ts: int, m: map<int, Value>, a: seq<Entry>, b: seq<Entry>,
                                        W: nat, r: nat)
    requires f.Ok() && W > 0
    requires forall i :: 0 <= i < |a| ==> f.FitsFile(a[i].value)
    requires forall i :: 0 <= i < |b| ==> f.FitsFile(b[i].value)
    ensures Loaded(f, ts, m, a + b, W, r) == Loaded(f, ts, Loaded(f, ts, m, a, W, r), b, W, r)
    decreases |b|
  {
    if b == [] {
      assert a + b == a;
    } else {
      var n := |b| - 1;
      LoadedAppend(f, ts, m, a, b[..n], W, r);
      assert (a + b)[..|a| + n] == a + b[..n];
    }
  }

  /** Reading files back as rows gives the columns that were written. */
  lemma {:induction false} RowsBack(f: Format, es: seq<Entry>)
    requires forall i :: 0 <= i < |es| ==> f.FitsFile(es[i].value)
    ensures var a, n := Written(es), |es|;
      && |a.keys| == n && |a.embs| == n * f.dim && |a.opts| == n * f.ckpt && |a.scores| == n * |f.physical|
      && Decoded(f, a, n) == es
  {
    ViewFlatten(Embs(es), f.dim);
    ViewFlatten(Opts(es), f.ckpt);
    ViewFlatten(Scores(es), |f.physical|);
    hide Flatten, View;
    assert Decoded(f, Written(es), |es|) == es;
  }

  /** The entries that `n` rows of each file stand for. */
  function Decoded(f: Format, a: Files, n: nat): (es: seq<Entry>)
    requires |a.keys| == n && |a.embs| == n * f.dim && |a.opts| == n * f.ckpt && |a.scores| == n * |f.physical|
    ensures |es| == n
  {
    var embs, opts, scores := View(a.embs, f.dim, n), View(a.opts, f.ckpt, n), View(a.scores, |f.physical|, n);
    seq(n, i requires 0 <= i < n => Entry(a.keys[i], Value(embs[i], opts[i], scores[i])))
  }

  /** The next `n` rows of every file, and the files that remain. */
  function Take(f: Format, w: Files, n: nat): Files
    requires n <= |w.keys| && n * f.dim <= |w.embs| && n * f.ckpt <= |w.opts| && n * |f.physical| <= |w.scores|
  {
    Files(w.keys[..n], w.embs[..n * f.dim], w.opts[..n * f.ckpt], w.scores[..n * |f.physical|])
  }

  function Drop(f: Format, w: Files, n: nat): Files
    requires n <= |w.keys| && n * f.dim <= |w.embs| && n * f.ckpt <= |w.opts| && n * |f.physical| <= |w.scores|
  {
    Files(w.keys[n..], w.embs[n * f.dim..], w.opts[n * f.ckpt..], w.scores[n * |f.physical|..])
  }

  lemma {:induction false} ReadBack(f: Format, es: seq<Entry>, n: nat)
    requires n <= |es| && forall i :: 0 <= i < |es| ==> f.FitsFile(es[i].value)
    ensures var w := Written(es);
      && n <= |w.keys| && n * f.dim <= |w.embs| && n * f.ckpt <= |w.opts| && n * |f.physical| <= |w.scores|
      && Take(f, w, n) == Written(es[..n]) && Drop(f, w, n) == Written(es[n..])
  {
    assert es[..n] + es[n..] == es;
    WrittenAppend(es[..n], es[n..]);
    RowsBack(f, es[..n]);
    var a, b := Written(es[..n]), Written(es[n..]);
    assert Written(es) == a.Plus(b);
    hide Written;
  }

  /** Insert the entries of a batch that belong to this rank. */
  method LoadBatch(f: Format, ts: int, m: map<int, Value>, es: seq<Entry>, W: nat, r: nat) returns (m': map<int, Value>)
    requires f.Ok() && W > 0 && forall i :: 0 <= i < |es| ==> f.FitsFile(es[i].value)
    ensures m' == Loaded(f, ts, m, es, W, r)
  {
    m' := m;
    for i := 0 to |es|
      invariant m' == Loaded(f, ts, m, es[..i], W, r)
    {
      assert es[..i + 1][..i] == es[..i];
      if es[i].key % W == r {
        var v := es[i].value;
        var words := Gather(v.scores, ColumnsOf(f.physical, f.logical));
        var opt := Pad(f, v.opt);
        m' := m'[es[i].key := Value(v.emb, opt, if f.lru then [Max(0, ts - words[0])] else words)];
      }
    }
    assert es[..|es|] == es;
  }

  /** Read one group of files batch by batch, keep the keys of this rank and insert them. */
  method LoadTable(f: Format, ts: int, m: map<int, Value>, files: Files, ghost es: seq<Entry>, W: nat, r: nat,
                   batch: nat)
    returns (m': map<int, Value>)
    requires f.Ok() && W > 0 && batch > 0 && forall i :: 0 <= i < |es| ==> f.FitsFile(es[i].value)
    requires files == Written(es)
    ensures m' == Loaded(f, ts, m, es, W, r)
  {
    hide Written, Loaded, Take, Drop, Decoded;
    m' := m;
    var rest, at, total := files, 0, |files.keys|;
    assert total == |es| by { RowsBack(f, es); }
    assert es[..0] == [] && es[0..] == es;
    NothingLoaded(f, ts, m, W, r);
    while at < total
      invariant 0 <= at <= total == |es| && rest == Written(es[at..])
      invariant m' == Loaded(f, ts, m, es[..at], W, r)
    {
      var n := if total - at < batch then total - at else batch;
      ghost var left := es[at..];
      ReadBack(f, left, n);
      RowsBack(f, left[..n]);
      LoadedAppend(f, ts, m, es[..at], left[..n], W, r);
      assert es[..at] + left[..n] == es[..at + n] && left[n..] == es[at + n..];
      var part := Decoded(f, Take(f, rest, n), n);
      m' := LoadBatch(f, ts, m', part, W, r);
      rest, at := Drop(f, rest, n), at + n;
    }
    assert es[..at] == es;
  }

  lemma NothingLoaded(f: Format, ts: int, m: map<int, Value>, W: nat, r: nat)
    requires f.Ok() && W > 0
    ensures Loaded(f, ts, m, [], W, r) == m
  {
  }

  /** The shards of a table: entry lists in export order, each key on the rank that is its
      residue, no key twice. */
  ghost predicate Shards(f: Format, shards: seq<seq<Entry>>) {
    && f.Ok() && shards != []
    && forall q :: 0 <= q < |shards| ==> ShardOk(f, shards[q], |shards|, q)
  }

  ghost predicate ShardOk(f: Format, es: seq<Entry>, W: nat, q: nat)
    requires W > 0
  {
    && Distinct(Keys(es))
    && (forall i :: 0 <= i < |es| ==> f.Fits(es[i].value) && es[i].key % W == q)
  }

  /** The shards of a table as one map. */
  ghost predicate Stored(shards: seq<seq<Entry>>, k: int)
    requires shards != []
  {
    k in Keys(shards[k % |shards|])
  }

  ghost function ValueOf(shards: seq<seq<Entry>>, k: int): Value
    requires shards != [] && Stored(shards, k)
  {
    var es := shards[k % |shards|];
    es[IndexOf(Keys(es), k)].value
  }

  /** What loading one list of entries changes. */
  lemma {:induction false} LoadedAt(f: Format, ts: int, m: map<int, Value>, es: seq<Entry>, W: nat, r: nat, k: int)
    requires f.Ok() && W > 0 && Distinct(Keys(es)) && forall i :: 0 <= i < |es| ==> f.FitsFile(es[i].value)
    ensures var l := Loaded(f, ts, m, es, W, r);
      if k % W == r && k in Keys(es) then k in l && l[k] == FromFile(f, ts, es[IndexOf(Keys(es), k)].value)
      else (k in l <==> k in m) && (k in m ==> l[k] == m[k])
    decreases |es|
  {
    if es != [] {
      var n := |es| - 1;
      var ks := Keys(es);
      assert Keys(es[..n]) == ks[..n];
      PrefixDistinct(ks, n);
      IndexInPrefix(ks, n, k);
      hide FromFile, Distinct, IndexOf;
      LoadedAt(f, ts, m, es[..n], W, r, k);
    }
  }

  /** The entry lists as the files of the ranks hold them. */
  ghost function FileForms(f: Format, ts: int, shards: seq<seq<Entry>>): (r: seq<seq<Entry>>)
    requires Shards(f, shards)
    ensures |r| == |shards|
    ensures forall q :: 0 <= q < |r| ==> ShardOk(f, shards[q], |shards|, q) && r[q] == FileForm(f, ts, shards[q])
  {
    seq(|shards|, q requires 0 <= q < |shards| =>
      assert ShardOk(f, shards[q], |shards|, q); FileForm(f, ts, shards[q]))
  }

  /** Loading the first `n` groups of files one after the other into an empty storage. */
  ghost function LoadedAll(f: Format, t0: int, t1: int, shards: seq<seq<Entry>>, n: nat, W: nat, r: nat)
    : map<int, Value>
    requires Shards(f, shards) && n <= |shards| && W > 0
  {
    if n == 0 then map[]
    else
      assert ShardOk(f, shards[n - 1], |shards|, n - 1);
      Loaded(f, t1, LoadedAll(f, t0, t1, shards, n - 1, W, r), FileForm(f, t0, shards[n - 1]), W, r)
  }

  ghost function UpTo(n: nat): (s: set<nat>)
    ensures forall q :: q in s <==> 0 <= q < n
  {
    if n == 0 then {} else UpTo(n - 1) + {n - 1}
  }

  /** Rank `r` of `W` holds a key exactly if the key is its residue and was stored in one of
      the shards of `from`, and then it holds the restored value. */
  ghost predicate RankHolds(f: Format, t0: int, t1: int, shards: seq<seq<Entry>>, from: set<nat>, W: nat, r: nat,
                            m: map<int, Value>, k: int)
    requires Shards(f, shards) && W > 0
  {
    && (k in m <==> k % W == r && Stored(shards, k) && k % |shards| in from)
    && (k in m ==> f.Fits(ValueOf(shards, k)) && m[k] == Restored(f, t0, t1, ValueOf(shards, k)))
  }

  /** One more group of files adds the keys of its shard. */
  lemma {:induction false} ShardLoaded(f: Format, t0: int, t1: int, shards: seq<seq<Entry>>, from: set<nat>, q: nat,
                    W: nat, r: nat, m: map<int, Value>, k: int)
    requires Shards(f, shards) && W > 0 && q < |shards| && q !in from
    requires RankHolds(f, t0, t1, shards, from, W, r, m, k)
    requires ShardOk(f, shards[q], |shards|, q)
    ensures RankHolds(f, t0, t1, shards, from + {q}, W, r, Loaded(f, t1, m, FileForm(f, t0, shards[q]), W, r), k)
  {
    var form := FileForm(f, t0, shards[q]);
    LoadedAt(f, t1, m, form, W, r, k);
    hide Loaded, Distinct, Restored, FromFile, ToFile;
    if k in Keys(shards[q]) {
      var i := IndexOf(Keys(shards[q]), k);
      assert shards[q][i].key == k;
      assert k % |shards| == q;
      ValueRoundTrip(f, t0, t1, shards[q][i].value);
    }
  }

  lemma {:induction false} AllLoaded(f: Format, t0: int, t1: int, shards: seq<seq<Entry>>, n: nat, W: nat,
                                     r: nat, k: int)
    requires Shards(f, shards) && n <= |shards| && W > 0
    ensures RankHolds(f, t0, t1, shards, UpTo(n), W, r, LoadedAll(f, t0, t1, shards, n, W, r), k)
  {
    hide Loaded, FileForm, Restored, RankHolds;
    if n == 0 {
      NoneHeld(f, t0, t1, shards, W, r, k);
    } else {
      AllLoaded(f, t0, t1, shards, n - 1, W, r, k);
      assert ShardOk(f, shards[n - 1], |shards|, n - 1);
      ShardLoaded(f, t0, t1, shards, UpTo(n - 1), n - 1, W, r, LoadedAll(f, t0, t1, shards, n - 1, W, r), k);
    }
  }

  lemma NoneHeld(f: Format, t0: int, t1: int, shards: seq<seq<Entry>>, W: nat, r: nat, k: int)
    requires Shards(f, shards) && W > 0
    ensures RankHolds(f, t0, t1, shards, UpTo(0), W, r, map[], k)
  {
  }

  /** Write the files of every rank. */
  method DumpRanks(f: Format, t0: int, shards: seq<seq<Entry>>, batch: nat) returns (files: seq<Files>)
    requires Shards(f, shards) && batch > 0
    ensures |files| == |shards|
    ensures forall q :: 0 <= q < |shards| ==> files[q] == Written(FileForms(f, t0, shards)[q])
  {
    files := [];
    for q := 0 to |shards|
      invariant |files| == q
      invariant forall p :: 0 <= p < q ==> files[p] == Written(FileForms(f, t0, shards)[p])
    {
      assert ShardOk(f, shards[q], |shards|, q);
      var one := DumpTable(f, t0, shards[q], batch);
      files := files + [one];
    }
  }

  /** Load one rank: its own files if there are as many groups as ranks, all groups otherwise. */
  method LoadRank(f: Format, ghost t0: int, t1: int, ghost shards: seq<seq<Entry>>, files: seq<Files>,
                  W: nat, r: nat, batch: nat) returns (m: map<int, Value>)
    requires Shards(f, shards) && batch > 0 && r < W && |files| == |shards|
    requires forall q :: 0 <= q < |shards| ==> files[q] == Written(FileForms(f, t0, shards)[q])
    ensures forall k :: RankHolds(f, t0, t1, shards, UpTo(|shards|), W, r, m, k)
  {
    hide Written, Loaded, RankHolds, FileForm;
    if W == |files| {
      ghost var own := FileForms(f, t0, shards)[r];
      m := LoadTable(f, t1, map[], files[r], own, W, r, batch);
      forall k ensures RankHolds(f, t0, t1, shards, UpTo(|shards|), W, r, m, k) {
        OwnShard(f, t0, t1, shards, r, k);
      }
      return;
    }
    m := map[];
    for q := 0 to |files|
      invariant m == LoadedAll(f, t0, t1, shards, q, W, r)
    {
      m := LoadTable(f, t1, m, files[q], FileForms(f, t0, shards)[q], W, r, batch);
    }
    forall k ensures RankHolds(f, t0, t1, shards, UpTo(|shards|), W, r, m, k) {
      AllLoaded(f, t0, t1, shards, |shards|, W, r, k);
    }
  }

  /** With as many ranks as groups of files, the rank's own group is all it needs. */
  lemma {:induction false} OwnShard(f: Format, t0: int, t1: int, shards: seq<seq<Entry>>, r: nat, k: int)
    requires Shards(f, shards) && r < |shards|
    ensures ShardOk(f, shards[r], |shards|, r)
    ensures RankHolds(f, t0, t1, shards, UpTo(|shards|), |shards|, r,
                      Loaded(f, t1, map[], FileForm(f, t0, shards[r]), |shards|, r), k)
  {
    assert ShardOk(f, shards[r], |shards|, r);
    ShardLoaded(f, t0, t1, shards, {}, r, |shards|, r, map[], k);
  }

  /** Dump on `|shards|` ranks and load on `W`: for every batch size used to write and to read,
      every stored key is on exactly the rank that is its residue, with its restored value, and
      no other key is anywhere. */
  method RoundTrip(f: Format, t0: int, t1: int, shards: seq<seq<Entry>>, W: nat, dumpBatch: nat, loadBatch: nat)
    returns (ranks: seq<map<int, Value>>)
    requires Shards(f, shards) && W > 0 && dumpBatch > 0 && loadBatch > 0
    ensures |ranks| == W
    ensures forall r, k :: 0 <= r < W ==> (k in ranks[r] <==> k % W == r && Stored(shards, k))
    ensures forall r, k :: 0 <= r < W && k in ranks[r] ==>
      f.Fits(ValueOf(shards, k)) && ranks[r][k] == Restored(f, t0, t1, ValueOf(shards, k))
  {
    var files := DumpRanks(f, t0, shards, dumpBatch);
    hide Written, Restored;
    ranks := [];
    ghost var every := UpTo(|shards|);
    for r := 0 to W
      invariant |ranks| == r
      invariant forall p, k :: 0 <= p < r ==> RankHolds(f, t0, t1, shards, every, W, p, ranks[p], k)
    {
      var m := LoadRank(f, t0, t1, shards, files, W, r, loadBatch);
      ranks := ranks + [m];
    }
    forall r, k | 0 <= r < W
      ensures k in ranks[r] <==> k % W == r && Stored(shards, k)
      ensures k in ranks[r] ==> f.Fits(ValueOf(shards, k)) && ranks[r][k] == Restored(f, t0, t1, ValueOf(shards, k))
    {
      assert RankHolds(f, t0, t1, shards, every, W, r, ranks[r], k);
      assert 0 <= k % |shards| < |shards|;
    }
  }
}
