/**
 * `find_failed_tests` (app.py:21-30): for one measurement row, the test
 * columns whose reading lies strictly outside the band given by the
 * benchmark block's 'Upper li' and 'Lower li' rows.
 */
module Classify {
  import opened Basics
  import opened Cells
  import Seqs

  /** The cells of the 'Upper li' and 'Lower li' benchmark rows, one per column. */
  datatype Limits = Limits(upper: seq<Cell>, lower: seq<Cell>)

  /** The first two columns are identifier/metadata; tests are `columns[2:]`. */
  const FirstTestColumn: nat := 2

  /** Row and limit rows carry one cell per column of the table. */
  predicate Aligned(columns: seq<string>, row: seq<Cell>, limits: Limits) {
    |row| == |columns| && |limits.upper| == |columns| && |limits.lower| == |columns|
  }

  /**
   * One cell breaches its band: it is present, coerces to a number, and that
   * number is above a numeric upper bound or below a numeric lower bound.
   * A bound that does not coerce compares false, so it never triggers.
   */
  predicate Breaches(cell: Cell, upper: Cell, lower: Cell) {
    cell != Missing &&
    var v, hi, lo := ToNumeric(cell), ToNumeric(upper), ToNumeric(lower);
    v.Some? && ((hi.Some? && Greater(v.value, hi.value)) || (lo.Some? && Greater(lo.value, v.value)))
  }

  /** The reported columns among the first `n`. */
  function FailedUpTo(columns: seq<string>, row: seq<Cell>, limits: Limits, n: nat): seq<string>
    requires Aligned(columns, row, limits) && n <= |columns|
  {
    if n <= FirstTestColumn then []
    else
      FailedUpTo(columns, row, limits, n - 1) +
      (if Breaches(row[n - 1], limits.upper[n - 1], limits.lower[n - 1]) then [columns[n - 1]] else [])
  }

  /** The failed-test list of one row. */
  function FailedTests(columns: seq<string>, row: seq<Cell>, limits: Limits): seq<string>
    requires Aligned(columns, row, limits)
  {
    FailedUpTo(columns, row, limits, |columns|)
  }

  function Min(a: int, b: int): int { if a < b then a else b }

  /** The loop of app.py:22-29, appending each breaching column in turn. */
  method FindFailedTests(columns: seq<string>, row: seq<Cell>, limits: Limits) returns (failed: seq<string>)
    requires Aligned(columns, row, limits)
    ensures failed == FailedTests(columns, row, limits)
  {
    failed := [];
    var i := FirstTestColumn;
    while i < |columns|
      invariant FirstTestColumn <= i
      invariant failed == FailedUpTo(columns, row, limits, Min(i, |columns|))
    {
      var col := columns[i];
      if row[i] != Missing {
        var maxValue := ToNumeric(limits.upper[i]);
        var minValue := ToNumeric(limits.lower[i]);
        var testValue := ToNumeric(row[i]);
        if testValue.Some? &&
           ((maxValue.Some? && Greater(testValue.value, maxValue.value)) ||
            (minValue.Some? && Greater(minValue.value, testValue.value)))
        {
          failed := failed + [col];
        }
      }
      i := i + 1;
    }
  }

  /** Every column reported among the first `n` is a test column before `n`. */
  lemma {:induction false} FailedUpToBounds(columns: seq<string>, row: seq<Cell>, limits: Limits, n: nat)
    requires Seqs.Distinct(columns) && Aligned(columns, row, limits) && n <= |columns|
    ensures forall k :: 0 <= k < |FailedUpTo(columns, row, limits, n)| ==>
      FailedUpTo(columns, row, limits, n)[k] in columns
    ensures forall k :: 0 <= k < |FailedUpTo(columns, row, limits, n)| ==>
      FirstTestColumn <= Seqs.IndexOf(columns, FailedUpTo(columns, row, limits, n)[k]) < n
  {
    if n > FirstTestColumn {
      FailedUpToBounds(columns, row, limits, n - 1);
      Seqs.IndexOfDistinct(columns, n - 1);
      var prev := FailedUpTo(columns, row, limits, n - 1);
      var r := FailedUpTo(columns, row, limits, n);
      forall k | 0 <= k < |r|
        ensures r[k] in columns && FirstTestColumn <= Seqs.IndexOf(columns, r[k]) < n
      {
        if k < |prev| {
          assert r[k] == prev[k] && prev[k] in columns;
          assert FirstTestColumn <= Seqs.IndexOf(columns, prev[k]) < n - 1;
        } else {
          assert r[k] == columns[n - 1];
        }
      }
    }
  }

  /** The columns reported among the first `n` follow column order. */
  lemma {:induction false} FailedUpToOrdered(columns: seq<string>, row: seq<Cell>, limits: Limits, n: nat)
    requires Seqs.Distinct(columns) && Aligned(columns, row, limits) && n <= |columns|
    ensures forall p, q :: 0 <= p < q < |FailedUpTo(columns, row, limits, n)| ==>
      FailedUpTo(columns, row, limits, n)[p] in columns && FailedUpTo(columns, row, limits, n)[q] in columns &&
      Seqs.IndexOf(columns, FailedUpTo(columns, row, limits, n)[p]) <
      Seqs.IndexOf(columns, FailedUpTo(columns, row, limits, n)[q])
  {
    FailedUpToBounds(columns, row, limits, n);
    if n > FirstTestColumn {
      FailedUpToOrdered(columns, row, limits, n - 1);
      FailedUpToBounds(columns, row, limits, n - 1);
      Seqs.IndexOfDistinct(columns, n - 1);
      var prev := FailedUpTo(columns, row, limits, n - 1);
      var r := FailedUpTo(columns, row, limits, n);
      forall p, q | 0 <= p < q < |r|
        ensures Seqs.IndexOf(columns, r[p]) < Seqs.IndexOf(columns, r[q])
      {
        assert r[p] == prev[p];
        if q < |prev| { assert r[q] == prev[q]; } else { assert r[q] == columns[n - 1]; }
      }
    }
  }

  /** Among the first `n` columns, exactly the breaching test columns are reported. */
  lemma {:induction false} FailedUpToMembers(columns: seq<string>, row: seq<Cell>, limits: Limits, n: nat)
    requires Seqs.Distinct(columns) && Aligned(columns, row, limits) && n <= |columns|
    ensures var r := FailedUpTo(columns, row, limits, n);
      forall i :: 0 <= i < n ==>
        (columns[i] in r <==> FirstTestColumn <= i && Breaches(row[i], limits.upper[i], limits.lower[i]))
  {
    if n > FirstTestColumn {
      FailedUpToMembers(columns, row, limits, n - 1);
      FailedUpToBounds(columns, row, limits, n - 1);
      Seqs.IndexOfDistinct(columns, n - 1);
      var prev := FailedUpTo(columns, row, limits, n - 1);
      var r := FailedUpTo(columns, row, limits, n);
      forall i | 0 <= i < n - 1 ensures columns[i] in r <==> columns[i] in prev {
        assert columns[i] != columns[n - 1];
      }
    } else {
      forall i | 0 <= i < n ensures columns[i] !in FailedUpTo(columns, row, limits, n) { }
    }
  }

  /**
   * A column of `columns[2:]` is reported exactly when its cell breaches its
   * band; nothing else is reported; the list follows column order, so it has
   * no repetitions.
   */
  lemma FailedTestsExactly(columns: seq<string>, row: seq<Cell>, limits: Limits)
    requires Seqs.Distinct(columns) && Aligned(columns, row, limits)
    ensures var r := FailedTests(columns, row, limits);
      forall k :: 0 <= k < |r| ==> r[k] in columns[FirstTestColumn..]
    ensures var r := FailedTests(columns, row, limits);
      forall p, q :: 0 <= p < q < |r| ==> Seqs.IndexOf(columns, r[p]) < Seqs.IndexOf(columns, r[q])
    ensures Seqs.Distinct(FailedTests(columns, row, limits))
    ensures var r := FailedTests(columns, row, limits);
      forall i :: 0 <= i < |columns| ==>
        (columns[i] in r <==> FirstTestColumn <= i && Breaches(row[i], limits.upper[i], limits.lower[i]))
  {
    var r := FailedTests(columns, row, limits);
    FailedUpToBounds(columns, row, limits, |columns|);
    FailedUpToOrdered(columns, row, limits, |columns|);
    FailedUpToMembers(columns, row, limits, |columns|);
    assert r == FailedUpTo(columns, row, limits, |columns|);
    forall k | 0 <= k < |r| ensures r[k] in columns[FirstTestColumn..] {
      InTestColumns(columns, r[k]);
    }
    forall p, q | 0 <= p < q < |r| ensures r[p] != r[q] {
      assert Seqs.IndexOf(columns, r[p]) < Seqs.IndexOf(columns, r[q]);
    }
  }

  lemma InTestColumns(columns: seq<string>, x: string)
    requires x in columns && FirstTestColumn <= Seqs.IndexOf(columns, x)
    ensures x in columns[FirstTestColumn..]
  {
    var i := Seqs.IndexOf(columns, x);
    assert columns[FirstTestColumn..][i - FirstTestColumn] == x;
  }

  /** Strict comparison: a reading equal to either bound of a proper band passes. */
  lemma BandIsStrict(x: real, hi: real, lo: real)
    ensures Breaches(Num(x), Num(hi), Num(lo)) <==> x > hi || x < lo
    ensures lo <= hi && (x == hi || x == lo) ==> !Breaches(Num(x), Num(hi), Num(lo))
  {
  }

  /** A reading or bounds that do not coerce to a number never cause a report. */
  lemma NonNumericNeverBreaches(cell: Cell, upper: Cell, lower: Cell)
    ensures ToNumeric(cell).None? ==> !Breaches(cell, upper, lower)
    ensures ToNumeric(upper).None? && ToNumeric(lower).None? ==> !Breaches(cell, upper, lower)
  {
  }

  /** Upper 10, lower 0, reading 15 in the one test column: reported. */
  lemma ScenarioAboveUpper()
    ensures FailedTests(["File name", "Judgement", "T1"],
                        [Text("ABCDEFGH-0001"), Text("NG"), Num(15.0)],
                        Limits([Text("Upper limit"), Num(0.0), Num(10.0)],
                               [Text("Lower limit"), Num(0.0), Num(0.0)])) == ["T1"]
  {
    var columns: seq<string> := ["File name", "Judgement", "T1"];
    var row := [Text("ABCDEFGH-0001"), Text("NG"), Num(15.0)];
    var limits := Limits([Text("Upper limit"), Num(0.0), Num(10.0)], [Text("Lower limit"), Num(0.0), Num(0.0)]);
    assert Breaches(row[2], limits.upper[2], limits.lower[2]);
    assert FailedUpTo(columns, row, limits, 2) == [];
  }
}
