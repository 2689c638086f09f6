/**
 * The e-mail balancing preprocessor: drop the rows whose `Label` or `Body` is missing,
 * keep the `Phishing` and `Safe` rows, downsample the larger class to the size of the
 * smaller one without replacement, and put the phishing rows before the safe rows under
 * a fresh 0..n-1 index.
 */
module EmailPreprocessor {
  import opened Wrappers

  /** One e-mail: the two columns the preprocessor reads, and the other columns, each possibly missing. */
  datatype Row = Row(Label: Option<string>, Body: Option<string>, others: seq<Option<string>>)

  /** A row of a data frame together with its index label. */
  datatype Entry = Entry(index: int, row: Row)

  type Frame = seq<Entry>

  const Phishing: string := "Phishing"
  const Safe: string := "Safe"

  /**
   * The seeded `DataFrame.sample(k, random_state=42)` on a frame of `n` rows: with the seed
   * fixed, the positions it picks depend only on `n` and `k`.
   */
  type Sampler = (nat, nat) -> seq<nat>

  /** `positions` names `k` distinct rows of a frame of `n` rows. */
  ghost predicate IsSelection(positions: seq<nat>, n: nat, k: nat)
  {
    && |positions| == k
    && (forall i :: 0 <= i < k ==> positions[i] < n)
    && (forall i, j :: 0 <= i < j < k ==> positions[i] != positions[j])
  }

  /** Sampling without replacement: asked for `k <= n` rows, the sampler picks `k` distinct ones. */
  ghost predicate ValidSampler(sample: Sampler)
  {
    forall n: nat, k: nat :: k <= n ==> IsSelection(sample(n, k), n, k)
  }

  function Min(a: nat, b: nat): nat
  {
    if a <= b then a else b
  }

  /** The rows of a frame, without their index labels. */
  function Rows(f: Frame): (rs: seq<Row>)
    ensures |rs| == |f|
    ensures forall i :: 0 <= i < |f| ==> rs[i] == f[i].row
  {
    seq(|f|, i requires 0 <= i < |f| => f[i].row)
  }

  /** Neither `Label` nor `Body` is missing; the other columns are not looked at. */
  predicate Complete(r: Row)
  {
    r.Label.Some? && r.Body.Some?
  }

  /** `df.dropna(subset=["Label", "Body"])`: the complete rows, in order, with their index labels. */
  function DropMissing(f: Frame): (r: Frame)
    ensures forall e :: e in r ==> e in f && Complete(e.row)
  {
    if f == [] then []
    else if Complete(f[0].row) then [f[0]] + DropMissing(f[1..])
    else DropMissing(f[1..])
  }

  /** `df[df["Label"] == c]`: the rows labelled `c`, in order, with their index labels. */
  function WithLabel(f: Frame, c: string): (r: Frame)
    ensures forall e :: e in r ==> e in f && e.row.Label == Some(c)
  {
    if f == [] then []
    else if f[0].row.Label == Some(c) then [f[0]] + WithLabel(f[1..], c)
    else WithLabel(f[1..], c)
  }

  /** The rows of class `c` the preprocessor starts from: complete and labelled `c`. */
  function ClassRows(df: Frame, c: string): Frame
  {
    WithLabel(DropMissing(df), c)
  }

  /** Number of rows labelled `c`. */
  function LabelCount(rs: seq<Row>, c: string): nat
  {
    if rs == [] then 0
    else (if rs[0].Label == Some(c) then 1 else 0) + LabelCount(rs[1..], c)
  }

  /** The elements of `s` at `positions`, in the order of `positions`. */
  function Pick<T>(s: seq<T>, positions: seq<nat>): (r: seq<T>)
    requires forall i :: 0 <= i < |positions| ==> positions[i] < |s|
    ensures |r| == |positions|
    ensures forall i :: 0 <= i < |positions| ==> r[i] == s[positions[i]]
  {
    seq(|positions|, i requires 0 <= i < |positions| => s[positions[i]])
  }

  /** `frame.sample(k, random_state=42)`: `k` distinct rows, index labels kept. */
  function Sample(f: Frame, k: nat, sample: Sampler): (r: Frame)
    requires ValidSampler(sample)
    requires k <= |f|
    ensures |r| == k
    ensures multiset(r) <= multiset(f)
    ensures multiset(Rows(r)) <= multiset(Rows(f))
  {
    var positions := sample(|f|, k);
    assert IsSelection(positions, |f|, k);
    PickSubMultiset(f, positions);
    PickSubMultiset(Rows(f), positions);
    assert Rows(Pick(f, positions)) == Pick(Rows(f), positions);
    Pick(f, positions)
  }

  /**
   * Lines 29-32: the larger class is downsampled to the size of the smaller one; a class that
   * is not larger is passed on as it is, so with equal counts nothing is sampled.
   */
  function Balance(phishing: Frame, safe: Frame, sample: Sampler): (pair: (Frame, Frame))
    requires ValidSampler(sample)
    ensures |pair.0| == Min(|phishing|, |safe|) && |pair.1| == Min(|phishing|, |safe|)
    ensures |phishing| <= |safe| ==> pair.0 == phishing
    ensures |safe| <= |phishing| ==> pair.1 == safe
    ensures multiset(pair.0) <= multiset(phishing) && multiset(pair.1) <= multiset(safe)
    ensures multiset(Rows(pair.0)) <= multiset(Rows(phishing))
    ensures multiset(Rows(pair.1)) <= multiset(Rows(safe))
  {
    if |phishing| > |safe| then (Sample(phishing, |safe|, sample), safe)
    else if |safe| > |phishing| then (phishing, Sample(safe, |phishing|, sample))
    else (phishing, safe)
  }

  /** `reset_index(drop=True)`: the same rows, numbered 0..n-1. */
  function ResetIndex(f: Frame): (r: Frame)
    ensures Rows(r) == Rows(f)
    ensures forall i :: 0 <= i < |r| ==> r[i].index == i
  {
    seq(|f|, i requires 0 <= i < |f| => Entry(i, f[i].row))
  }

  /** `EmailPreprocessor.preprocess`. */
  function Preprocess(df: Frame, sample: Sampler): (r: Frame)
    requires ValidSampler(sample)
    ensures |r| == 2 * Min(|ClassRows(df, Phishing)|, |ClassRows(df, Safe)|)
    ensures r == [] <==> ClassRows(df, Phishing) == [] || ClassRows(df, Safe) == []
    ensures forall i :: 0 <= i < |r| ==> r[i].index == i
    ensures forall i :: 0 <= i < |r| ==> Complete(r[i].row)
    ensures forall i :: 0 <= i < |r| ==> r[i].row.Label == Some(if i < |r| / 2 then Phishing else Safe)
  {
    var kept := DropMissing(df);
    var phishing := WithLabel(kept, Phishing);
    var safe := WithLabel(kept, Safe);
    var pair := Balance(phishing, safe, sample);
    var balanced := pair.0 + pair.1;
    var r := ResetIndex(balanced);
    BalancedHalves(phishing, safe, pair.0, pair.1);
    r
  }

  // ---------------------------------------------------------------------------
  // Lemmas

  /** The two halves of the concatenation are drawn from the two classes, so the rows keep their labels. */
  lemma BalancedHalves(phishing: Frame, safe: Frame, p: Frame, s: Frame)
    requires forall e :: e in phishing ==> Complete(e.row) && e.row.Label == Some(Phishing)
    requires forall e :: e in safe ==> Complete(e.row) && e.row.Label == Some(Safe)
    requires multiset(p) <= multiset(phishing) && multiset(s) <= multiset(safe)
    requires |p| == |s|
    ensures forall i :: 0 <= i < |p + s| ==>
      Complete((p + s)[i].row) && (p + s)[i].row.Label == Some(if i < |p + s| / 2 then Phishing else Safe)
  {
    forall i | 0 <= i < |p + s|
      ensures Complete((p + s)[i].row)
      ensures (p + s)[i].row.Label == Some(if i < |p + s| / 2 then Phishing else Safe)
    {
      if i < |p| {
        assert p[i] in multiset(p);
        assert p[i] in phishing;
      } else {
        assert s[i - |p|] in multiset(s);
        assert s[i - |p|] in safe;
      }
    }
  }

  lemma PickAppend<T>(s: seq<T>, a: seq<nat>, b: seq<nat>)
    requires forall i :: 0 <= i < |a| ==> a[i] < |s|
    requires forall i :: 0 <= i < |b| ==> b[i] < |s|
    ensures Pick(s, a + b) == Pick(s, a) + Pick(s, b)
  {
  }

  lemma PickPrefix<T>(s: seq<T>, m: nat, positions: seq<nat>)
    requires m <= |s|
    requires forall i :: 0 <= i < |positions| ==> positions[i] < m
    ensures Pick(s, positions) == Pick(s[..m], positions)
  {
  }

  /** Removing the `j`-th of distinct positions up to `n`, where that one is `n`, leaves distinct positions below `n`. */
  lemma RemoveLast(positions: seq<nat>, j: nat, n: nat, rest: seq<nat>)
    requires j < |positions| && positions[j] == n
    requires forall i :: 0 <= i < |positions| ==> positions[i] <= n
    requires forall i, k :: 0 <= i < k < |positions| ==> positions[i] != positions[k]
    requires rest == positions[..j] + positions[j + 1..]
    ensures forall i :: 0 <= i < |rest| ==> rest[i] < n
    ensures forall i, k :: 0 <= i < k < |rest| ==> rest[i] != rest[k]
  {
    forall i | 0 <= i < |rest| ensures rest[i] < n {
      var pi := if i < j then i else i + 1;
      assert rest[i] == positions[pi] && pi != j;
    }
    forall i, k | 0 <= i < k < |rest| ensures rest[i] != rest[k] {
      var pi := if i < j then i else i + 1;
      var pk := if k < j then k else k + 1;
      assert rest[i] == positions[pi] && rest[k] == positions[pk] && pi < pk;
    }
  }

  /** Picking the last element among other positions: it is added once to what the others pick from the rest. */
  lemma PickLast<T>(s: seq<T>, before: seq<nat>, after: seq<nat>)
    requires |s| > 0
    requires forall i :: 0 <= i < |before| ==> before[i] < |s| - 1
    requires forall i :: 0 <= i < |after| ==> after[i] < |s| - 1
    ensures multiset(Pick(s, before + [|s| - 1] + after))
         == multiset(Pick(s[..|s| - 1], before + after)) + multiset{s[|s| - 1]}
  {
    var last := |s| - 1;
    PickAppend(s, before + [last], after);
    PickAppend(s, before, [last]);
    PickAppend(s, before, after);
    PickPrefix(s, last, before + after);
  }

  /** Sampling without replacement draws a sub-multiset: no element is picked more often than it occurs. */
  lemma {:induction false} PickSubMultiset<T>(s: seq<T>, positions: seq<nat>)
    requires forall i :: 0 <= i < |positions| ==> positions[i] < |s|
    requires forall i, j :: 0 <= i < j < |positions| ==> positions[i] != positions[j]
    ensures multiset(Pick(s, positions)) <= multiset(s)
    decreases |s|
  {
    if |s| > 0 {
      var last := |s| - 1;
      var init := s[..last];
      assert s == init + [s[last]];
      if last in positions {
        var j :| 0 <= j < |positions| && positions[j] == last;
        var before, after := positions[..j], positions[j + 1..];
        var rest := before + after;
        assert positions == before + [last] + after;
        RemoveLast(positions, j, last, rest);
        PickSubMultiset(init, rest);
        PickLast(s, before, after);
      } else {
        assert forall i :: 0 <= i < |positions| ==> positions[i] < last;
        PickSubMultiset(init, positions);
        PickPrefix(s, last, positions);
      }
    }
  }

  lemma RowsAppend(a: Frame, b: Frame)
    ensures Rows(a + b) == Rows(a) + Rows(b)
  {
  }

  lemma RowsSplit(f: Frame, n: nat)
    requires n <= |f|
    ensures Rows(f[..n]) == Rows(f)[..n] && Rows(f[n..]) == Rows(f)[n..]
  {
  }

  /** Counting labels distributes over concatenation. */
  lemma {:induction false} LabelCountAppend(a: seq<Row>, b: seq<Row>, c: string)
    ensures LabelCount(a + b, c) == LabelCount(a, c) + LabelCount(b, c)
  {
    if a == [] {
      assert a + b == b;
    } else {
      assert (a + b)[1..] == a[1..] + b;
      LabelCountAppend(a[1..], b, c);
    }
  }

  /** Rows that all carry label `l` contribute all of themselves to the count of `l` and none to any other. */
  lemma {:induction false} LabelCountUniform(rs: seq<Row>, l: string, c: string)
    requires forall i :: 0 <= i < |rs| ==> rs[i].Label == Some(l)
    ensures LabelCount(rs, c) == if c == l then |rs| else 0
  {
    if rs != [] {
      LabelCountUniform(rs[1..], l, c);
    }
  }

  /** The rows of one label and the rows of another are disjoint parts of the frame. */
  lemma {:induction false} WithLabelDisjoint(f: Frame, a: string, b: string)
    requires a != b
    ensures multiset(Rows(WithLabel(f, a))) + multiset(Rows(WithLabel(f, b))) <= multiset(Rows(f))
  {
    if f != [] {
      var ra, rb := WithLabel(f[1..], a), WithLabel(f[1..], b);
      WithLabelDisjoint(f[1..], a, b);
      assert f == [f[0]] + f[1..];
      RowsAppend([f[0]], f[1..]);
      if f[0].row.Label == Some(a) {
        RowsAppend([f[0]], ra);
      } else if f[0].row.Label == Some(b) {
        RowsAppend([f[0]], rb);
      }
    }
  }

  /** An entry is kept by `dropna` exactly when it occurs in the input and is complete. */
  lemma {:induction false} DropMissingExact(f: Frame, e: Entry)
    ensures e in DropMissing(f) <==> e in f && Complete(e.row)
  {
    if f != [] {
      DropMissingExact(f[1..], e);
      assert e in f <==> e == f[0] || e in f[1..];
    }
  }

  /** The label mask keeps exactly the rows labelled `c`. */
  lemma {:induction false} WithLabelExact(f: Frame, c: string, e: Entry)
    ensures e in WithLabel(f, c) <==> e in f && e.row.Label == Some(c)
  {
    if f != [] {
      WithLabelExact(f[1..], c, e);
      assert e in f <==> e == f[0] || e in f[1..];
    }
  }

  /**
   * `dropna` works row by row: a frame split in two is filtered part by part, and (`DropMissingOne`)
   * a single row is kept exactly when it is complete. So every complete row is kept, as often as
   * it occurs and in input order.
   */
  lemma {:induction false} DropMissingAppend(a: Frame, b: Frame)
    ensures DropMissing(a + b) == DropMissing(a) + DropMissing(b)
  {
    if a == [] {
      assert a + b == b;
    } else {
      assert (a + b)[0] == a[0] && (a + b)[1..] == a[1..] + b;
      DropMissingAppend(a[1..], b);
    }
  }

  lemma DropMissingOne(e: Entry)
    ensures DropMissing([e]) == if Complete(e.row) then [e] else []
  {
    assert [e][1..] == [];
  }

  /** The label mask works row by row in the same way: every row labelled `c` is kept, in order, as often as it occurs. */
  lemma {:induction false} WithLabelAppend(a: Frame, b: Frame, c: string)
    ensures WithLabel(a + b, c) == WithLabel(a, c) + WithLabel(b, c)
  {
    if a == [] {
      assert a + b == b;
    } else {
      assert (a + b)[0] == a[0] && (a + b)[1..] == a[1..] + b;
      WithLabelAppend(a[1..], b, c);
    }
  }

  lemma WithLabelOne(e: Entry, c: string)
    ensures WithLabel([e], c) == if e.row.Label == Some(c) then [e] else []
  {
    assert [e][1..] == [];
  }

  /** Dropping the incomplete rows keeps a sub-multiset of the rows. */
  lemma {:induction false} DropMissingSubMultiset(f: Frame)
    ensures multiset(Rows(DropMissing(f))) <= multiset(Rows(f))
  {
    if f != [] {
      DropMissingSubMultiset(f[1..]);
      assert f == [f[0]] + f[1..];
      RowsAppend([f[0]], f[1..]);
      if Complete(f[0].row) {
        RowsAppend([f[0]], DropMissing(f[1..]));
      }
    }
  }

  /** The first half of the output holds the rows the balancing kept of the phishing class, the second half those of the safe class. */
  lemma PreprocessHalves(df: Frame, sample: Sampler)
    requires ValidSampler(sample)
    ensures var pair := Balance(ClassRows(df, Phishing), ClassRows(df, Safe), sample);
      var r := Preprocess(df, sample);
      && |r| == 2 * |pair.0|
      && Rows(r[..|pair.0|]) == Rows(pair.0)
      && Rows(r[|pair.0|..]) == Rows(pair.1)
  {
    var pair := Balance(ClassRows(df, Phishing), ClassRows(df, Safe), sample);
    var r := Preprocess(df, sample);
    assert r == ResetIndex(pair.0 + pair.1);
    RowsAppend(pair.0, pair.1);
    RowsSplit(r, |pair.0|);
    assert Rows(r) == Rows(pair.0) + Rows(pair.1);
  }

  /** A frame whose first `n` rows are phishing and whose other rows are safe has `n` phishing rows and the rest safe. */
  lemma SplitLabelCount(r: Frame, n: nat)
    requires n <= |r|
    requires forall i :: 0 <= i < |r| ==> r[i].row.Label == Some(if i < n then Phishing else Safe)
    ensures LabelCount(Rows(r), Phishing) == n
    ensures LabelCount(Rows(r), Safe) == |r| - n
  {
    var p, s := Rows(r[..n]), Rows(r[n..]);
    assert r == r[..n] + r[n..];
    RowsAppend(r[..n], r[n..]);
    assert forall i :: 0 <= i < |p| ==> p[i].Label == Some(Phishing) by {
      forall i | 0 <= i < |p| ensures p[i].Label == Some(Phishing) {
        assert p[i] == r[i].row;
      }
    }
    assert forall i :: 0 <= i < |s| ==> s[i].Label == Some(Safe) by {
      forall i | 0 <= i < |s| ensures s[i].Label == Some(Safe) {
        assert s[i] == r[n + i].row;
      }
    }
    LabelCountAppend(p, s, Phishing);
    LabelCountAppend(p, s, Safe);
    LabelCountUniform(p, Phishing, Phishing);
    LabelCountUniform(p, Phishing, Safe);
    LabelCountUniform(s, Safe, Phishing);
    LabelCountUniform(s, Safe, Safe);
  }

  /** The output holds as many phishing rows as safe rows: the size of the smaller class. */
  lemma PreprocessBalanced(df: Frame, sample: Sampler)
    requires ValidSampler(sample)
    ensures LabelCount(Rows(Preprocess(df, sample)), Phishing) == Min(|ClassRows(df, Phishing)|, |ClassRows(df, Safe)|)
    ensures LabelCount(Rows(Preprocess(df, sample)), Safe) == Min(|ClassRows(df, Phishing)|, |ClassRows(df, Safe)|)
  {
    var r := Preprocess(df, sample);
    SplitLabelCount(r, |r| / 2);
  }

  /**
   * Sampling is without replacement: the phishing half is a sub-multiset of the complete
   * phishing input rows, the safe half of the complete safe ones, and the whole output of the input.
   */
  lemma PreprocessSubMultiset(df: Frame, sample: Sampler)
    requires ValidSampler(sample)
    ensures var r := Preprocess(df, sample); var n := |r| / 2;
      && multiset(Rows(r[..n])) <= multiset(Rows(ClassRows(df, Phishing)))
      && multiset(Rows(r[n..])) <= multiset(Rows(ClassRows(df, Safe)))
      && multiset(Rows(r)) <= multiset(Rows(df))
  {
    var r := Preprocess(df, sample);
    var n := |r| / 2;
    PreprocessHalves(df, sample);
    assert r == r[..n] + r[n..];
    RowsAppend(r[..n], r[n..]);
    WithLabelDisjoint(DropMissing(df), Phishing, Safe);
    DropMissingSubMultiset(df);
  }

  /**
   * A class that is not larger than the other reaches the output whole and in its input order;
   * with equal class sizes the output is the two classes one after the other, nothing sampled.
   */
  lemma PreprocessKeepsSmallerClass(df: Frame, sample: Sampler)
    requires ValidSampler(sample)
    ensures var r := Preprocess(df, sample); var n := |r| / 2;
      && (|ClassRows(df, Phishing)| <= |ClassRows(df, Safe)| ==> Rows(r[..n]) == Rows(ClassRows(df, Phishing)))
      && (|ClassRows(df, Safe)| <= |ClassRows(df, Phishing)| ==> Rows(r[n..]) == Rows(ClassRows(df, Safe)))
      && (|ClassRows(df, Phishing)| == |ClassRows(df, Safe)| ==>
            Rows(r) == Rows(ClassRows(df, Phishing)) + Rows(ClassRows(df, Safe)))
  {
    var r := Preprocess(df, sample);
    var n := |r| / 2;
    PreprocessHalves(df, sample);
    assert r == r[..n] + r[n..];
    RowsAppend(r[..n], r[n..]);
  }
}
