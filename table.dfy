/**
 * The table data: a left fold over the source items that appends the row
 * of every item the callback keeps, as `reduce((acc, x) => ..., [])` does.
 */
module Table {
  import opened Wrappers
  import opened Records
  import opened MonthFrame
  import opened RowProjection

  /** One step of the callback: `return acc` or `return [...acc, row]`. */
  function Step<R>(acc: seq<R>, row: Option<R>): (out: seq<R>)
    ensures |out| == |acc| + (if row.Some? then 1 else 0)
    ensures out[..|acc|] == acc
    ensures row.Some? ==> out[|acc|] == row.value
  {
    match row
    case None => acc
    case Some(v) => acc + [v]
  }

  /** `xs.reduce(Step-after-project, acc)`, element by element from the front. */
  function Reduce<T, R>(xs: seq<T>, project: T -> Option<R>, acc: seq<R>): (out: seq<R>)
    ensures |acc| <= |out| <= |acc| + |xs|
    ensures out[..|acc|] == acc
  {
    if xs == [] then acc else Reduce(xs[1..], project, Step(acc, project(xs[0])))
  }

  /** The kept rows, defined independently of the fold: from the back, without an accumulator. */
  function Kept<T, R>(xs: seq<T>, project: T -> Option<R>): seq<R>
  {
    if xs == [] then [] else Step(Kept(xs[..|xs| - 1], project), project(xs[|xs| - 1]))
  }

  /** The positions of the kept elements, in increasing order. */
  function KeptIndices<T, R>(xs: seq<T>, project: T -> Option<R>): seq<int>
  {
    if xs == [] then []
    else
      var rest := KeptIndices(xs[..|xs| - 1], project);
      if project(xs[|xs| - 1]).Some? then rest + [|xs| - 1] else rest
  }

  predicate StrictlyIncreasing(ks: seq<int>)
  {
    forall a, b :: 0 <= a < b < |ks| ==> ks[a] < ks[b]
  }

  /** Folding one more element at the end is one more step. */
  lemma {:induction false} ReduceSnoc<T, R>(xs: seq<T>, x: T, project: T -> Option<R>, acc: seq<R>)
    ensures Reduce(xs + [x], project, acc) == Step(Reduce(xs, project, acc), project(x))
  {
    if xs != [] {
      assert (xs + [x])[1..] == xs[1..] + [x];
      ReduceSnoc(xs[1..], x, project, Step(acc, project(xs[0])));
    }
  }

  /** The fold appends exactly the kept rows to its accumulator. */
  lemma {:induction false} ReduceIsKept<T, R>(xs: seq<T>, project: T -> Option<R>, acc: seq<R>)
    ensures Reduce(xs, project, acc) == acc + Kept(xs, project)
  {
    if xs != [] {
      var init := xs[..|xs| - 1];
      assert xs == init + [xs[|xs| - 1]];
      ReduceSnoc(init, xs[|xs| - 1], project, acc);
      ReduceIsKept(init, project, acc);
    }
  }

  /** There is one position per kept row, each within the input, in increasing order. */
  lemma {:induction false} KeptIndicesShape<T, R>(xs: seq<T>, project: T -> Option<R>)
    ensures var ks := KeptIndices(xs, project);
      && |Kept(xs, project)| == |ks| <= |xs|
      && (forall k :: 0 <= k < |ks| ==> 0 <= ks[k] < |xs|)
      && StrictlyIncreasing(ks)
  {
    if xs != [] {
      var n := |xs|;
      KeptIndicesShape(xs[..n - 1], project);
    }
  }

  /** The row at each kept position is that element's projection. */
  lemma {:induction false} KeptAtIndices<T, R>(xs: seq<T>, project: T -> Option<R>)
    ensures var ks := KeptIndices(xs, project);
      && |Kept(xs, project)| == |ks|
      && forall k :: 0 <= k < |ks| ==> 0 <= ks[k] < |xs| && project(xs[ks[k]]) == Some(Kept(xs, project)[k])
  {
    KeptIndicesShape(xs, project);
    if xs != [] {
      var n := |xs|;
      var init := xs[..n - 1];
      KeptAtIndices(init, project);
      KeptIndicesShape(init, project);
      var ks0 := KeptIndices(init, project);
      forall k | 0 <= k < |ks0|
        ensures KeptIndices(xs, project)[k] == ks0[k] && Kept(xs, project)[k] == Kept(init, project)[k]
        ensures xs[ks0[k]] == init[ks0[k]]
      {
      }
    }
  }

  /** A position is kept exactly when its element's projection is a row. */
  lemma {:induction false} KeptIndicesMembership<T, R>(xs: seq<T>, project: T -> Option<R>)
    ensures forall i :: 0 <= i < |xs| ==> (project(xs[i]).Some? <==> i in KeptIndices(xs, project))
  {
    if xs != [] {
      var n := |xs|;
      var init := xs[..n - 1];
      KeptIndicesMembership(init, project);
      KeptIndicesShape(init, project);
      var ks0 := KeptIndices(init, project);
      assert n - 1 !in ks0;
      forall i | 0 <= i < n - 1
        ensures xs[i] == init[i]
      {
      }
    }
  }

  /**
   * The kept rows are the projections of the kept elements, in input
   * order: an element is kept exactly when its projection is a row.
   */
  lemma KeptIsStableFilter<T, R>(xs: seq<T>, project: T -> Option<R>)
    ensures var rows := Kept(xs, project);
      var ks := KeptIndices(xs, project);
      && |rows| == |ks| <= |xs|
      && StrictlyIncreasing(ks)
      && (forall k :: 0 <= k < |ks| ==> 0 <= ks[k] < |xs| && project(xs[ks[k]]) == Some(rows[k]))
      && (forall i :: 0 <= i < |xs| ==> (project(xs[i]).Some? <==> i in ks))
  {
    KeptIndicesShape(xs, project);
    KeptAtIndices(xs, project);
    KeptIndicesMembership(xs, project);
  }

  /** Concatenated inputs give concatenated rows. */
  lemma {:induction false} KeptConcat<T, R>(xs: seq<T>, ys: seq<T>, project: T -> Option<R>)
    ensures Kept(xs + ys, project) == Kept(xs, project) + Kept(ys, project)
  {
    if ys != [] {
      var init := ys[..|ys| - 1];
      assert (xs + ys)[..|xs + ys| - 1] == xs + init;
      assert (xs + ys)[|xs + ys| - 1] == ys[|ys| - 1];
      KeptConcat(xs, init, project);
    } else {
      assert xs + ys == xs;
    }
  }

  /** The rows of the table, with one injected date for every item. */
  function TableData(rs: seq<SourceRecord>, now: YearMonth): (rows: seq<DisplayRow>)
    ensures |rows| <= |rs|
  {
    Reduce(rs, r => ProjectRecord(r, CurrentMonthData(now)), [])
  }

  /**
   * The table is the order-preserving subsequence of the items' rows taken
   * at the active items, and is never longer than the data.
   */
  lemma TableDataIsStableFilter(rs: seq<SourceRecord>, now: YearMonth)
    ensures var rows := TableData(rs, now);
      var d := CurrentMonthData(now);
      var ks := KeptIndices(rs, r => ProjectRecord(r, d));
      && |rows| == |ks| <= |rs|
      && StrictlyIncreasing(ks)
      && (forall k :: 0 <= k < |ks| ==> 0 <= ks[k] < |rs| && ProjectRecord(rs[ks[k]], d) == Some(rows[k]))
      && (forall i :: 0 <= i < |rs| ==> (Active(rs[i]) <==> i in ks))
  {
    var project := r => ProjectRecord(r, CurrentMonthData(now));
    ReduceIsKept(rs, project, []);
    KeptIsStableFilter(rs, project);
  }

  /** The table of two runs of data is the two tables one after the other. */
  lemma TableDataConcat(xs: seq<SourceRecord>, ys: seq<SourceRecord>, now: YearMonth)
    ensures TableData(xs + ys, now) == TableData(xs, now) + TableData(ys, now)
  {
    var project := r => ProjectRecord(r, CurrentMonthData(now));
    ReduceIsKept(xs + ys, project, []);
    ReduceIsKept(xs, project, []);
    ReduceIsKept(ys, project, []);
    KeptConcat(xs, ys, project);
  }

  /** An element without a row adds nothing, wherever it stands. */
  lemma KeptSkipsNone<T, R>(xs: seq<T>, x: T, ys: seq<T>, project: T -> Option<R>)
    requires project(x).None?
    ensures Kept(xs + [x] + ys, project) == Kept(xs + ys, project)
  {
    KeptConcat(xs + [x], ys, project);
    KeptConcat(xs, [x], project);
    KeptConcat(xs, ys, project);
    assert [x][..0] == [];
  }

  /** A single item gives its own row, or none. */
  lemma TableDataSingle(r: SourceRecord, now: YearMonth)
    ensures TableData([r], now) == (if Active(r) then [ProjectRecord(r, CurrentMonthData(now)).value] else [])
  {
    assert [r][1..] == [];
  }

  /** An item that is not active adds nothing, wherever it stands. */
  lemma InactiveItemAddsNothing(xs: seq<SourceRecord>, r: SourceRecord, ys: seq<SourceRecord>, now: YearMonth)
    requires !Active(r)
    ensures TableData(xs + [r] + ys, now) == TableData(xs + ys, now)
  {
    var project := r => ProjectRecord(r, CurrentMonthData(now));
    assert TableData(xs + [r] + ys, now) == Reduce(xs + [r] + ys, project, []);
    assert TableData(xs + ys, now) == Reduce(xs + ys, project, []);
    ReduceIsKept(xs + [r] + ys, project, []);
    ReduceIsKept(xs + ys, project, []);
    KeptSkipsNone(xs, r, ys, project);
  }
}
