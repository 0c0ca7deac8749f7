/**
 * The body of `analyse_file` (app.py:45-77) on an already parsed table:
 * derive the product code from `File name`, split off the eight benchmark
 * rows, clean both blocks, classify the NG rows and rank their failures.
 */
module Analysis {
  import opened Basics
  import opened Cells
  import Seqs
  import Classify
  import opened Aggregate

  /** The parsed spreadsheet: header names and one cell per column in every row. */
  datatype Table = Table(columns: seq<string>, rows: seq<seq<Cell>>)

  /** Why the request ends in the 500 path. */
  datatype Error =
    | MissingColumn(name: string)   // `df['File name']` or `data['Judgement']` raises KeyError
    | NoFailingRows                 // the ranking loop never runs, `top_failures` is unbound

  datatype Result<T> = Ok(value: T) | Err(error: Error)

  const FileNameColumn: string := "File name"
  /** The column `set_index` turns into the row index. */
  const IndexColumn: string := "Product Code"
  const JudgementColumn: string := "Judgement"
  const FailingJudgement: string := "NG"
  /** Characters of `File name` kept as the product code (`.str[:8]`). */
  const CodeLength: nat := 8
  /** Rows at the top of the sheet that form the benchmark block (`iloc[:8]`). */
  const BenchmarkRows: nat := 8
  /** 'Upper limit' and 'Lower limit' as the eight-character index holds them. */
  const UpperLabel: string := "Upper li"
  const LowerLabel: string := "Lower li"

  /** `.str[:8]` of one `File name` cell; None (NaN) when the cell holds no text. */
  function ProductCode(c: Cell): (code: Option<string>)
    ensures code.Some? <==> c.Text?
    ensures code.Some? ==> |code.value| <= CodeLength && |code.value| <= |c.s| && code.value == c.s[..|code.value|]
    ensures code.Some? && |c.s| >= CodeLength ==> |code.value| == CodeLength
    ensures code.Some? && |c.s| < CodeLength ==> code.value == c.s
  {
    match c
    case Text(s) => Some(if |s| <= CodeLength then s else s[..CodeLength])
    case _ => None
  }

  /** Every row has one cell per column. */
  predicate RowsFit(columns: seq<string>, rows: seq<seq<Cell>>) {
    forall i :: 0 <= i < |rows| ==> |rows[i]| == |columns|
  }

  predicate Rectangular(t: Table) {
    RowsFit(t.columns, t.rows)
  }

  /** The `Product Code` index, one entry per row. */
  function Codes(t: Table, fileCol: nat): seq<Option<string>>
    requires Rectangular(t) && fileCol < |t.columns|
  {
    seq(|t.rows|, i requires 0 <= i < |t.rows| => ProductCode(t.rows[i][fileCol]))
  }

  /** Number of benchmark rows: eight, or all rows of a shorter sheet. */
  function BlockSize(t: Table): nat {
    if |t.rows| < BenchmarkRows then |t.rows| else BenchmarkRows
  }

  /** `tag` is in the index exactly once. */
  predicate UniqueLabel(codes: seq<Option<string>>, tag: string) {
    Some(tag) in codes && Some(tag) !in codes[Seqs.IndexOf(codes, Some(tag)) + 1..]
  }

  /** `.loc['Upper li', col]` and `.loc['Lower li', col]` each name one benchmark row. */
  predicate LimitsLocatable(t: Table)
    requires Rectangular(t)
  {
    FileNameColumn in t.columns ==>
      var codes := Codes(t, Seqs.IndexOf(t.columns, FileNameColumn))[..BlockSize(t)];
      UniqueLabel(codes, UpperLabel) && UniqueLabel(codes, LowerLabel)
  }

  /** What `read_excel` delivers (distinct header names) plus locatable limit rows. */
  predicate WellFormed(t: Table) {
    Rectangular(t) && Seqs.Distinct(t.columns) && LimitsLocatable(t)
  }

  /**
   * `set_index('Product Code')` (app.py:45-46): that column leaves the header
   * and every row, wherever it stood; the other columns keep their order.
   */
  function Indexed(t: Table): (u: Table)
    requires Rectangular(t) && Seqs.Distinct(t.columns)
    ensures Rectangular(u) && Seqs.Distinct(u.columns) && |u.rows| == |t.rows|
    ensures forall c :: c in u.columns <==> c in t.columns && c != IndexColumn
    ensures IndexColumn in t.columns ==> u.columns == Seqs.RemoveAt(t.columns, Seqs.IndexOf(t.columns, IndexColumn))
    ensures IndexColumn !in t.columns ==> u == t
  {
    if IndexColumn !in t.columns then t
    else
      var p := Seqs.IndexOf(t.columns, IndexColumn);
      Seqs.RemoveAtMembers(t.columns, p);
      Table(Seqs.RemoveAt(t.columns, p),
            seq(|t.rows|, i requires 0 <= i < |t.rows| => Seqs.RemoveAt(t.rows[i], p)))
  }

  /** The columns left after indexing keep the order they had in the sheet. */
  lemma IndexedOrder(t: Table)
    requires Rectangular(t) && Seqs.Distinct(t.columns)
    ensures var u := Indexed(t);
      forall i, j :: 0 <= i < j < |u.columns| ==>
        u.columns[i] in t.columns && u.columns[j] in t.columns &&
        Seqs.IndexOf(t.columns, u.columns[i]) < Seqs.IndexOf(t.columns, u.columns[j])
  {
    if IndexColumn in t.columns {
      Seqs.RemoveAtOrder(t.columns, Seqs.IndexOf(t.columns, IndexColumn));
    } else {
      Seqs.DistinctOrder(t.columns);
    }
  }

  /** Every other column keeps its cells when the index column is dropped. */
  lemma IndexedCell(t: Table, c: string, i: nat)
    requires Rectangular(t) && Seqs.Distinct(t.columns)
    requires c in t.columns && c != IndexColumn && i < |t.rows|
    ensures c in Indexed(t).columns
    ensures Indexed(t).rows[i][Seqs.IndexOf(Indexed(t).columns, c)] == t.rows[i][Seqs.IndexOf(t.columns, c)]
  {
    if IndexColumn in t.columns {
      var p, j := Seqs.IndexOf(t.columns, IndexColumn), Seqs.IndexOf(t.columns, c);
      Seqs.RemoveAtIndexOf(t.columns, p, c);
      var u, k := Indexed(t), if j < p then j else j - 1;
      assert u.rows[i] == Seqs.RemoveAt(t.rows[i], p);
      assert Seqs.IndexOf(u.columns, c) == k;
    }
  }

  /** The product codes read from `File name` are the same before and after indexing. */
  lemma IndexedCodes(t: Table)
    requires Rectangular(t) && Seqs.Distinct(t.columns) && FileNameColumn in t.columns
    ensures FileNameColumn in Indexed(t).columns
    ensures Codes(Indexed(t), Seqs.IndexOf(Indexed(t).columns, FileNameColumn)) ==
            Codes(t, Seqs.IndexOf(t.columns, FileNameColumn))
  {
    forall i | 0 <= i < |t.rows|
      ensures Indexed(t).rows[i][Seqs.IndexOf(Indexed(t).columns, FileNameColumn)] ==
              t.rows[i][Seqs.IndexOf(t.columns, FileNameColumn)]
    {
      IndexedCell(t, FileNameColumn, i);
    }
  }

  /** Indexing keeps a sheet well formed. */
  lemma IndexedWellFormed(t: Table)
    requires WellFormed(t)
    ensures WellFormed(Indexed(t))
  {
    if FileNameColumn in t.columns {
      IndexedCodes(t);
    }
  }

  /** The limit rows of the benchmark block. */
  function LimitsOf(bench: seq<seq<Cell>>, codes: seq<Option<string>>): Classify.Limits
    requires |codes| == |bench| && Some(UpperLabel) in codes && Some(LowerLabel) in codes
  {
    Classify.Limits(bench[Seqs.IndexOf(codes, Some(UpperLabel))], bench[Seqs.IndexOf(codes, Some(LowerLabel))])
  }

  /** The NG rows of the data block with their failed-test lists (app.py:57-58). */
  function FailingRows(columns: seq<string>, data: seq<seq<Cell>>, codes: seq<Option<string>>,
                       judgeCol: nat, limits: Classify.Limits): seq<NgRow>
    requires |codes| == |data| && RowsFit(columns, data) && judgeCol < |columns|
    requires |limits.upper| == |columns| && |limits.lower| == |columns|
  {
    if data == [] then []
    else
      var n := |data| - 1;
      FailingRows(columns, data[..n], codes[..n], judgeCol, limits) +
      (if data[n][judgeCol] == Text(FailingJudgement)
       then [NgRow(codes[n], Classify.FailedTests(columns, data[n], limits))]
       else [])
  }

  /** The cleaned data block: rows 8 onwards. */
  function DataBlock(t: Table): (data: seq<seq<Cell>>)
    requires Rectangular(t)
    ensures |data| == |t.rows| - BlockSize(t) && RowsFit(t.columns, data)
    ensures forall i :: 0 <= i < |data| ==> data[i] == NormalizeRow(t.rows[BlockSize(t) + i])
  {
    NormalizeRows(t.rows[BlockSize(t)..])
  }

  /** The product codes of the data block. */
  function DataCodes(t: Table): (codes: seq<Option<string>>)
    requires Rectangular(t) && FileNameColumn in t.columns
    ensures |codes| == |t.rows| - BlockSize(t)
    ensures forall i :: 0 <= i < |codes| ==>
      codes[i] == ProductCode(t.rows[BlockSize(t) + i][Seqs.IndexOf(t.columns, FileNameColumn)])
  {
    Codes(t, Seqs.IndexOf(t.columns, FileNameColumn))[BlockSize(t)..]
  }

  /** The cleaned 'Upper li' and 'Lower li' rows. */
  function TableLimits(t: Table): (limits: Classify.Limits)
    requires WellFormed(t) && FileNameColumn in t.columns
    ensures |limits.upper| == |t.columns| && |limits.lower| == |t.columns|
  {
    var n := BlockSize(t);
    LimitsOf(NormalizeRows(t.rows[..n]), Codes(t, Seqs.IndexOf(t.columns, FileNameColumn))[..n])
  }

  /** The NG rows of an indexed table that has both named columns. */
  function NgRowsOf(t: Table): seq<NgRow>
    requires WellFormed(t) && FileNameColumn in t.columns && JudgementColumn in t.columns
  {
    FailingRows(t.columns, DataBlock(t), DataCodes(t), Seqs.IndexOf(t.columns, JudgementColumn), TableLimits(t))
  }

  /** The NG rows of an uploaded sheet: indexed first, then split, cleaned and classified. */
  function SheetNgRows(t: Table): seq<NgRow>
    requires WellFormed(t) && FileNameColumn in t.columns && JudgementColumn in t.columns
  {
    IndexedWellFormed(t);
    NgRowsOf(Indexed(t))
  }

  /** The outcome of `analyse_file` for a parsed table: the ranked tests or the 500 path. */
  function Analyse(t: Table): Result<seq<Entry>>
    requires WellFormed(t)
  {
    if FileNameColumn !in t.columns then Err(MissingColumn(FileNameColumn))
    else if JudgementColumn !in t.columns then Err(MissingColumn(JudgementColumn))
    else
      var ng := SheetNgRows(t);
      if ng == [] then Err(NoFailingRows) else Ok(Report(ng))
  }

  // ---- properties --------------------------------------------------------

  /** The benchmark row that `.loc[tag]` reads: the one row indexed by `tag`. */
  function LimitRow(t: Table, tag: string): (i: nat)
    requires Rectangular(t) && FileNameColumn in t.columns
    requires Some(tag) in Codes(t, Seqs.IndexOf(t.columns, FileNameColumn))[..BlockSize(t)]
    ensures i < BlockSize(t) && Codes(t, Seqs.IndexOf(t.columns, FileNameColumn))[i] == Some(tag)
  {
    Seqs.IndexOf(Codes(t, Seqs.IndexOf(t.columns, FileNameColumn))[..BlockSize(t)], Some(tag))
  }

  /** The limits are the cleaned 'Upper li' and 'Lower li' benchmark rows. */
  lemma TableLimitsRows(t: Table)
    requires WellFormed(t) && FileNameColumn in t.columns
    ensures TableLimits(t).upper == NormalizeRow(t.rows[LimitRow(t, UpperLabel)])
    ensures TableLimits(t).lower == NormalizeRow(t.rows[LimitRow(t, LowerLabel)])
  {
    var n := BlockSize(t);
    var bench := NormalizeRows(t.rows[..n]);
    assert bench[LimitRow(t, UpperLabel)] == NormalizeRow(t.rows[LimitRow(t, UpperLabel)]);
    assert bench[LimitRow(t, LowerLabel)] == NormalizeRow(t.rows[LimitRow(t, LowerLabel)]);
  }

  /**
   * A blank or infinite bound reads as 0 once the benchmark block is
   * cleaned; a number or a piece of text is used as it stands.
   */
  lemma BlankBoundReadsZero(t: Table, c: nat)
    requires WellFormed(t) && FileNameColumn in t.columns && c < |t.columns|
    ensures var cell := t.rows[LimitRow(t, UpperLabel)][c];
      (cell.Missing? || cell.Inf? ==> ToNumeric(TableLimits(t).upper[c]) == Some(Finite(0.0))) &&
      (Clean(cell) ==> TableLimits(t).upper[c] == cell)
    ensures var cell := t.rows[LimitRow(t, LowerLabel)][c];
      (cell.Missing? || cell.Inf? ==> ToNumeric(TableLimits(t).lower[c]) == Some(Finite(0.0))) &&
      (Clean(cell) ==> TableLimits(t).lower[c] == cell)
  {
    TableLimitsRows(t);
    NormalizeProperties(t.rows[LimitRow(t, UpperLabel)][c]);
    NormalizeProperties(t.rows[LimitRow(t, LowerLabel)][c]);
  }

  /** Positions of the rows judged "NG", ascending (the mask of app.py:57). */
  function NgIndices(data: seq<seq<Cell>>, judgeCol: nat): (idx: seq<nat>)
    requires forall i :: 0 <= i < |data| ==> judgeCol < |data[i]|
    ensures forall j :: 0 <= j < |idx| ==> idx[j] < |data| && data[idx[j]][judgeCol] == Text(FailingJudgement)
    ensures forall j, k :: 0 <= j < k < |idx| ==> idx[j] < idx[k]
    ensures forall i :: 0 <= i < |data| && data[i][judgeCol] == Text(FailingJudgement) ==> i in idx
  {
    if data == [] then []
    else
      var n := |data| - 1;
      var prev := NgIndices(data[..n], judgeCol);
      assert forall i :: 0 <= i < n ==> data[..n][i] == data[i];
      prev + (if data[n][judgeCol] == Text(FailingJudgement) then [n] else [])
  }

  /**
   * The NG rows in table order: the j-th one is the row at the j-th "NG"
   * position, with its own product code and failed-test list, so two
   * identical NG rows give two entries.
   */
  lemma {:induction false} FailingRowsInOrder(columns: seq<string>, data: seq<seq<Cell>>, codes: seq<Option<string>>,
                                              judgeCol: nat, limits: Classify.Limits)
    requires |codes| == |data| && RowsFit(columns, data) && judgeCol < |columns|
    requires |limits.upper| == |columns| && |limits.lower| == |columns|
    ensures var ng, idx := FailingRows(columns, data, codes, judgeCol, limits), NgIndices(data, judgeCol);
      |ng| == |idx| &&
      forall j :: 0 <= j < |ng| ==>
        ng[j] == NgRow(codes[idx[j]], Classify.FailedTests(columns, data[idx[j]], limits))
  {
    if data != [] {
      var n := |data| - 1;
      FailingRowsInOrder(columns, data[..n], codes[..n], judgeCol, limits);
      var prev, pidx := FailingRows(columns, data[..n], codes[..n], judgeCol, limits), NgIndices(data[..n], judgeCol);
      forall j | 0 <= j < |prev|
        ensures prev[j] == NgRow(codes[pidx[j]], Classify.FailedTests(columns, data[pidx[j]], limits))
      {
        assert data[..n][pidx[j]] == data[pidx[j]] && codes[..n][pidx[j]] == codes[pidx[j]];
      }
      var ng, idx := FailingRows(columns, data, codes, judgeCol, limits), NgIndices(data, judgeCol);
      if data[n][judgeCol] == Text(FailingJudgement) {
        assert ng == prev + [NgRow(codes[n], Classify.FailedTests(columns, data[n], limits))];
        assert idx == pidx + [n];
      } else {
        assert ng == prev && idx == pidx;
      }
    }
  }

  /** There are as many classified rows as "NG" positions. */
  lemma {:induction false} FailingRowsCount(columns: seq<string>, data: seq<seq<Cell>>, codes: seq<Option<string>>,
                                            judgeCol: nat, limits: Classify.Limits)
    requires |codes| == |data| && RowsFit(columns, data) && judgeCol < |columns|
    requires |limits.upper| == |columns| && |limits.lower| == |columns|
    ensures |FailingRows(columns, data, codes, judgeCol, limits)| == |NgIndices(data, judgeCol)|
  {
    FailingRowsInOrder(columns, data, codes, judgeCol, limits);
  }

  /** A data row judged "NG" is always classified, so the list is not empty. */
  lemma FailingRowsNonEmpty(columns: seq<string>, data: seq<seq<Cell>>, codes: seq<Option<string>>,
                            judgeCol: nat, limits: Classify.Limits, k: nat)
    requires |codes| == |data| && RowsFit(columns, data) && judgeCol < |columns|
    requires |limits.upper| == |columns| && |limits.lower| == |columns|
    requires k < |data| && data[k][judgeCol] == Text(FailingJudgement)
    ensures FailingRows(columns, data, codes, judgeCol, limits) != []
  {
    FailingRowsCount(columns, data, codes, judgeCol, limits);
    assert k in NgIndices(data, judgeCol);
  }

  /** Every classified row is an NG data row with its own code and failed-test list. */
  lemma {:induction false} FailingRowsSound(columns: seq<string>, data: seq<seq<Cell>>, codes: seq<Option<string>>,
                                            judgeCol: nat, limits: Classify.Limits)
    requires |codes| == |data| && RowsFit(columns, data) && judgeCol < |columns|
    requires |limits.upper| == |columns| && |limits.lower| == |columns|
    ensures forall r :: r in FailingRows(columns, data, codes, judgeCol, limits) ==>
      exists i :: 0 <= i < |data| && data[i][judgeCol] == Text(FailingJudgement) &&
                  r == NgRow(codes[i], Classify.FailedTests(columns, data[i], limits))
  {
    FailingRowsInOrder(columns, data, codes, judgeCol, limits);
    var ng, idx := FailingRows(columns, data, codes, judgeCol, limits), NgIndices(data, judgeCol);
    forall r | r in ng
      ensures exists i :: 0 <= i < |data| && data[i][judgeCol] == Text(FailingJudgement) &&
                          r == NgRow(codes[i], Classify.FailedTests(columns, data[i], limits))
    {
      var j :| 0 <= j < |ng| && ng[j] == r;
      var i := idx[j];
      assert data[i][judgeCol] == Text(FailingJudgement);
      assert r == NgRow(codes[i], Classify.FailedTests(columns, data[i], limits));
    }
  }

  /** Every NG data row is classified. */
  lemma {:induction false} FailingRowsComplete(columns: seq<string>, data: seq<seq<Cell>>, codes: seq<Option<string>>,
                            judgeCol: nat, limits: Classify.Limits)
    requires |codes| == |data| && RowsFit(columns, data) && judgeCol < |columns|
    requires |limits.upper| == |columns| && |limits.lower| == |columns|
    ensures var ng := FailingRows(columns, data, codes, judgeCol, limits);
      forall i :: 0 <= i < |data| && data[i][judgeCol] == Text(FailingJudgement) ==>
        NgRow(codes[i], Classify.FailedTests(columns, data[i], limits)) in ng
  {
    FailingRowsInOrder(columns, data, codes, judgeCol, limits);
    var ng, idx := FailingRows(columns, data, codes, judgeCol, limits), NgIndices(data, judgeCol);
    forall i | 0 <= i < |data| && data[i][judgeCol] == Text(FailingJudgement)
      ensures NgRow(codes[i], Classify.FailedTests(columns, data[i], limits)) in ng
    {
      var j :| 0 <= j < |idx| && idx[j] == i;
      assert ng[j] == NgRow(codes[i], Classify.FailedTests(columns, data[i], limits));
    }
  }

  /**
   * Every NG data row is classified, and every classified row is an NG data
   * row with its own product code and failed-test list; there are none
   * exactly when no row is judged "NG".
   */
  lemma FailingRowsExactly(columns: seq<string>, data: seq<seq<Cell>>, codes: seq<Option<string>>,
                           judgeCol: nat, limits: Classify.Limits)
    requires |codes| == |data| && RowsFit(columns, data) && judgeCol < |columns|
    requires |limits.upper| == |columns| && |limits.lower| == |columns|
    ensures forall r :: r in FailingRows(columns, data, codes, judgeCol, limits) ==>
      exists i :: 0 <= i < |data| && data[i][judgeCol] == Text(FailingJudgement) &&
                  r == NgRow(codes[i], Classify.FailedTests(columns, data[i], limits))
    ensures var ng := FailingRows(columns, data, codes, judgeCol, limits);
      forall i :: 0 <= i < |data| && data[i][judgeCol] == Text(FailingJudgement) ==>
        NgRow(codes[i], Classify.FailedTests(columns, data[i], limits)) in ng
    ensures FailingRows(columns, data, codes, judgeCol, limits) == [] <==>
      forall i :: 0 <= i < |data| ==> data[i][judgeCol] != Text(FailingJudgement)
  {
    FailingRowsSound(columns, data, codes, judgeCol, limits);
    FailingRowsComplete(columns, data, codes, judgeCol, limits);
  }

  /** A cleaned judgement cell reads "NG" exactly when the raw one did. */
  lemma JudgementSurvivesCleaning(c: Cell)
    ensures Normalize(c) == Text(FailingJudgement) <==> c == Text(FailingJudgement)
  {
  }

  /**
   * The three ways the request fails: a missing `File name` column, a missing
   * `Judgement` column, and a data block (rows 8 onwards) with no row judged
   * "NG"; otherwise the result is the ranked report of the NG rows.
   */
  lemma AnalyseOutcome(t: Table)
    requires WellFormed(t)
    ensures Analyse(t) == Err(MissingColumn(FileNameColumn)) <==> FileNameColumn !in t.columns
    ensures Analyse(t) == Err(MissingColumn(JudgementColumn)) <==>
      FileNameColumn in t.columns && JudgementColumn !in t.columns
    ensures Analyse(t) == Err(NoFailingRows) <==>
      FileNameColumn in t.columns && JudgementColumn in t.columns &&
      forall i :: BlockSize(t) <= i < |t.rows| ==>
        t.rows[i][Seqs.IndexOf(t.columns, JudgementColumn)] != Text(FailingJudgement)
    ensures Analyse(t).Ok? ==> Analyse(t).value == Report(SheetNgRows(t))
  {
    if FileNameColumn in t.columns && JudgementColumn in t.columns {
      SheetNoNgRows(t);
    }
  }

  /** A cleaned data row is judged "NG" exactly when its raw row was. */
  lemma DataJudgement(t: Table, i: nat)
    requires Rectangular(t) && JudgementColumn in t.columns && BlockSize(t) <= i < |t.rows|
    ensures var judgeCol := Seqs.IndexOf(t.columns, JudgementColumn);
      DataBlock(t)[i - BlockSize(t)][judgeCol] == Text(FailingJudgement) <==>
      t.rows[i][judgeCol] == Text(FailingJudgement)
  {
    var judgeCol := Seqs.IndexOf(t.columns, JudgementColumn);
    assert DataBlock(t)[i - BlockSize(t)][judgeCol] == Normalize(t.rows[i][judgeCol]);
    JudgementSurvivesCleaning(t.rows[i][judgeCol]);
  }

  /** Without a data row judged "NG" no NG row is classified. */
  lemma NoneJudgedNoNgRows(t: Table)
    requires WellFormed(t) && FileNameColumn in t.columns && JudgementColumn in t.columns
    requires forall i :: BlockSize(t) <= i < |t.rows| ==>
      t.rows[i][Seqs.IndexOf(t.columns, JudgementColumn)] != Text(FailingJudgement)
    ensures NgRowsOf(t) == []
  {
    var judgeCol := Seqs.IndexOf(t.columns, JudgementColumn);
    var data, codes, limits := DataBlock(t), DataCodes(t), TableLimits(t);
    FailingRowsCount(t.columns, data, codes, judgeCol, limits);
    var idx := NgIndices(data, judgeCol);
    if idx != [] {
      DataJudgement(t, BlockSize(t) + idx[0]);
      assert false;
    }
  }

  /** A data row judged "NG" yields at least one classified NG row. */
  lemma {:induction false} JudgedRowNgRows(t: Table, i: nat)
    requires WellFormed(t) && FileNameColumn in t.columns && JudgementColumn in t.columns
    requires BlockSize(t) <= i < |t.rows|
    requires t.rows[i][Seqs.IndexOf(t.columns, JudgementColumn)] == Text(FailingJudgement)
    ensures NgRowsOf(t) != []
  {
    DataJudgement(t, i);
    FailingRowsNonEmpty(t.columns, DataBlock(t), DataCodes(t), Seqs.IndexOf(t.columns, JudgementColumn),
                        TableLimits(t), i - BlockSize(t));
  }

  /** No NG row is classified exactly when no data row is judged "NG". */
  lemma NoNgRows(t: Table)
    requires WellFormed(t) && FileNameColumn in t.columns && JudgementColumn in t.columns
    ensures NgRowsOf(t) == [] <==>
      forall i :: BlockSize(t) <= i < |t.rows| ==>
        t.rows[i][Seqs.IndexOf(t.columns, JudgementColumn)] != Text(FailingJudgement)
  {
    var judgeCol := Seqs.IndexOf(t.columns, JudgementColumn);
    if forall i :: BlockSize(t) <= i < |t.rows| ==> t.rows[i][judgeCol] != Text(FailingJudgement) {
      NoneJudgedNoNgRows(t);
    } else {
      var i :| BlockSize(t) <= i < |t.rows| && t.rows[i][judgeCol] == Text(FailingJudgement);
      JudgedRowNgRows(t, i);
    }
  }

  /** The same for an uploaded sheet, read through its own header. */
  lemma SheetNoNgRows(t: Table)
    requires WellFormed(t) && FileNameColumn in t.columns && JudgementColumn in t.columns
    ensures SheetNgRows(t) == [] <==>
      forall i :: BlockSize(t) <= i < |t.rows| ==>
        t.rows[i][Seqs.IndexOf(t.columns, JudgementColumn)] != Text(FailingJudgement)
  {
    var u := Indexed(t);
    IndexedWellFormed(t);
    NoNgRows(u);
    forall i | 0 <= i < |t.rows|
      ensures u.rows[i][Seqs.IndexOf(u.columns, JudgementColumn)] == t.rows[i][Seqs.IndexOf(t.columns, JudgementColumn)]
    {
      IndexedCell(t, JudgementColumn, i);
    }
  }

  /**
   * What a successful analysis reports: at most fifteen entries, largest total
   * first; each entry counts the NG rows citing its test; a named test is a
   * column of `columns[2:]` once `Product Code` has left the header, cited at
   * least once; the per-product counts never exceed the total and add up to it
   * when every NG row's `File name` is text.
   */
  lemma AnalyseReport(t: Table)
    requires WellFormed(t) && Analyse(t).Ok?
    ensures var rep, ng := Analyse(t).value, SheetNgRows(t);
      |rep| <= TopCount && SortedDesc(rep) &&
      (forall e :: e in rep ==> e == MakeEntry(ng, e.test) && e.test in Discover(ng)) &&
      (forall e :: e in rep && e.test.Test? ==>
         e.test.name in Indexed(t).columns[Classify.FirstTestColumn..] && e.test.name != IndexColumn &&
         e.total >= 1) &&
      (forall e :: e in rep ==> SumFailures(e.products) <= e.total)
    ensures EveryNgRowNamed(t) ==>
      forall e :: e in Analyse(t).value ==> SumFailures(e.products) == e.total
  {
    var u := Indexed(t);
    IndexedWellFormed(t);
    var rep, ng := Analyse(t).value, SheetNgRows(t);
    assert ng == NgRowsOf(u);
    assert rep == Report(ng);
    assert |rep| <= TopCount && SortedDesc(rep) by {
      ReportShape(ng);
    }
    assert forall e :: e in rep ==> e == MakeEntry(ng, e.test) && e.test in Discover(ng) by {
      ReportMembers(ng);
    }
    assert forall e :: e in rep && e.test.Test? ==>
      e.test.name in u.columns[Classify.FirstTestColumn..] && e.test.name != IndexColumn && e.total >= 1 by {
      NgRowsLists(u);
      ReportTests(ng, u.columns[Classify.FirstTestColumn..]);
    }
    assert forall e :: e in rep ==> SumFailures(e.products) <= e.total by {
      NgRowsLists(u);
      ReportCounts(ng);
    }
    if EveryNgRowNamed(t) {
      assert forall e :: e in rep ==> SumFailures(e.products) == e.total by {
        IndexedNamed(t);
        NgRowsLists(u);
        NgRowsNamed(u);
        ReportCounts(ng);
      }
    }
  }

  /** Every data row judged "NG" has a textual `File name`, hence a product code. */
  predicate EveryNgRowNamed(t: Table)
    requires Rectangular(t) && FileNameColumn in t.columns && JudgementColumn in t.columns
  {
    forall i :: BlockSize(t) <= i < |t.rows| ==>
      t.rows[i][Seqs.IndexOf(t.columns, JudgementColumn)] == Text(FailingJudgement) ==>
      t.rows[i][Seqs.IndexOf(t.columns, FileNameColumn)].Text?
  }

  /** Whether every NG row is named does not depend on indexing. */
  lemma IndexedNamed(t: Table)
    requires Rectangular(t) && Seqs.Distinct(t.columns) && FileNameColumn in t.columns && JudgementColumn in t.columns
    ensures FileNameColumn in Indexed(t).columns && JudgementColumn in Indexed(t).columns
    ensures EveryNgRowNamed(Indexed(t)) <==> EveryNgRowNamed(t)
  {
    forall i | 0 <= i < |t.rows|
      ensures Indexed(t).rows[i][Seqs.IndexOf(Indexed(t).columns, JudgementColumn)] ==
              t.rows[i][Seqs.IndexOf(t.columns, JudgementColumn)]
      ensures Indexed(t).rows[i][Seqs.IndexOf(Indexed(t).columns, FileNameColumn)] ==
              t.rows[i][Seqs.IndexOf(t.columns, FileNameColumn)]
    {
      IndexedCell(t, JudgementColumn, i);
      IndexedCell(t, FileNameColumn, i);
    }
  }

  /**
   * Each selected row's list names test columns only, without repetitions,
   * and its code is present when every row judged "NG" has one.
   */
  lemma FailingRowsLists(columns: seq<string>, data: seq<seq<Cell>>, codes: seq<Option<string>>,
                         judgeCol: nat, limits: Classify.Limits)
    requires |codes| == |data| && RowsFit(columns, data) && judgeCol < |columns| && Seqs.Distinct(columns)
    requires |limits.upper| == |columns| && |limits.lower| == |columns|
    ensures var ng := FailingRows(columns, data, codes, judgeCol, limits);
      forall j :: 0 <= j < |ng| ==> Seqs.Distinct(ng[j].failed)
    ensures var ng := FailingRows(columns, data, codes, judgeCol, limits);
      forall j, k :: 0 <= j < |ng| && 0 <= k < |ng[j].failed| ==>
        Classify.FirstTestColumn < |columns| && ng[j].failed[k] in columns[Classify.FirstTestColumn..]
    ensures (forall i :: 0 <= i < |data| && data[i][judgeCol] == Text(FailingJudgement) ==> codes[i].Some?) ==>
      var ng := FailingRows(columns, data, codes, judgeCol, limits);
      forall j :: 0 <= j < |ng| ==> ng[j].code.Some?
  {
    var ng := FailingRows(columns, data, codes, judgeCol, limits);
    FailingRowsInOrder(columns, data, codes, judgeCol, limits);
    var idx := NgIndices(data, judgeCol);
    forall j | 0 <= j < |ng|
      ensures Seqs.Distinct(ng[j].failed)
      ensures forall k :: 0 <= k < |ng[j].failed| ==>
        Classify.FirstTestColumn < |columns| && ng[j].failed[k] in columns[Classify.FirstTestColumn..]
    {
      Classify.FailedTestsExactly(columns, data[idx[j]], limits);
    }
  }

  /** Each NG row's failed-test list names test columns only, without repetitions. */
  lemma NgRowsLists(t: Table)
    requires WellFormed(t) && FileNameColumn in t.columns && JudgementColumn in t.columns
    ensures forall j :: 0 <= j < |NgRowsOf(t)| ==> Seqs.Distinct(NgRowsOf(t)[j].failed)
    ensures var ng := NgRowsOf(t);
      forall j, k :: 0 <= j < |ng| && 0 <= k < |ng[j].failed| ==>
        ng[j].failed[k] in t.columns[Classify.FirstTestColumn..]
  {
    var judgeCol := Seqs.IndexOf(t.columns, JudgementColumn);
    var data, codes, limits := DataBlock(t), DataCodes(t), TableLimits(t);
    var ng := NgRowsOf(t);
    assert ng == FailingRows(t.columns, data, codes, judgeCol, limits);
    FailingRowsInOrder(t.columns, data, codes, judgeCol, limits);
    var idx := NgIndices(data, judgeCol);
    forall j | 0 <= j < |ng|
      ensures Seqs.Distinct(ng[j].failed)
      ensures forall k :: 0 <= k < |ng[j].failed| ==> ng[j].failed[k] in t.columns[Classify.FirstTestColumn..]
    {
      Classify.FailedTestsExactly(t.columns, data[idx[j]], limits);
    }
  }

  /** A data row judged "NG" of a sheet whose NG rows are all named has a product code. */
  lemma NamedRowCoded(t: Table, i: nat)
    requires Rectangular(t) && FileNameColumn in t.columns && JudgementColumn in t.columns
    requires EveryNgRowNamed(t)
    requires i < |DataBlock(t)| && DataBlock(t)[i][Seqs.IndexOf(t.columns, JudgementColumn)] == Text(FailingJudgement)
    ensures DataCodes(t)[i].Some?
  {
    var k := BlockSize(t) + i;
    var fileCol := Seqs.IndexOf(t.columns, FileNameColumn);
    DataJudgement(t, k);
    assert t.rows[k][fileCol].Text?;
    assert DataCodes(t)[i] == ProductCode(t.rows[k][fileCol]);
  }

  /** Every NG row has a product code when every NG row's `File name` is text. */
  lemma NgRowsNamed(t: Table)
    requires WellFormed(t) && FileNameColumn in t.columns && JudgementColumn in t.columns
    requires EveryNgRowNamed(t)
    ensures forall j :: 0 <= j < |NgRowsOf(t)| ==> NgRowsOf(t)[j].code.Some?
  {
    var judgeCol := Seqs.IndexOf(t.columns, JudgementColumn);
    var data, codes, limits := DataBlock(t), DataCodes(t), TableLimits(t);
    var ng := NgRowsOf(t);
    assert ng == FailingRows(t.columns, data, codes, judgeCol, limits);
    FailingRowsInOrder(t.columns, data, codes, judgeCol, limits);
    var idx := NgIndices(data, judgeCol);
    forall j | 0 <= j < |ng| ensures ng[j].code.Some? {
      NamedRowCoded(t, idx[j]);
    }
  }

  /**
   * A sheet whose benchmark block gives "T1" the band [0, 10] and whose one
   * data row, judged "NG", reads 15 for "T1".
   */
  function ScenarioSheet(): Table {
    var other := [Text("Nominal"), Missing, Missing];
    Table(["File name", "Judgement", "T1"],
          [[Text("Upper limit"), Missing, Num(10.0)], [Text("Lower limit"), Missing, Num(0.0)],
           other, other, other, other, other, other,
           [Text("ABCDEFGH-0001"), Text("NG"), Num(15.0)]])
  }

  lemma ScenarioSheetCodes()
    ensures Rectangular(ScenarioSheet())
    ensures Seqs.IndexOf(ScenarioSheet().columns, FileNameColumn) == 0
    ensures Seqs.IndexOf(ScenarioSheet().columns, JudgementColumn) == 1
    ensures var o := Some("Nominal");
      Codes(ScenarioSheet(), 0) == [Some(UpperLabel), Some(LowerLabel), o, o, o, o, o, o, Some("ABCDEFGH")]
  {
    var t := ScenarioSheet();
    assert Seqs.IndexOf(t.columns, FileNameColumn) == 0;
    assert Seqs.IndexOf(t.columns, JudgementColumn) == 1;
    assert "Upper limit"[..8] == UpperLabel && "Lower limit"[..8] == LowerLabel;
    assert "ABCDEFGH-0001"[..8] == "ABCDEFGH";
    assert ProductCode(Text("Upper limit")) == Some(UpperLabel);
    assert ProductCode(Text("Lower limit")) == Some(LowerLabel);
    assert ProductCode(Text("Nominal")) == Some("Nominal");
    assert ProductCode(Text("ABCDEFGH-0001")) == Some("ABCDEFGH");
  }

  lemma ScenarioSheetWellFormed()
    ensures WellFormed(ScenarioSheet())
  {
    var t := ScenarioSheet();
    ScenarioSheetCodes();
    var u, l, o := Some(UpperLabel), Some(LowerLabel), Some("Nominal");
    var head := Codes(t, 0)[..8];
    assert head == [u, l, o, o, o, o, o, o];
    assert Seqs.IndexOf(head, u) == 0 && Seqs.IndexOf(head, l) == 1;
    assert u !in head[1..] && l !in head[2..];
    assert Seqs.Distinct(t.columns);
  }

  lemma ScenarioSheetLimits()
    requires WellFormed(ScenarioSheet())
    ensures TableLimits(ScenarioSheet()) ==
      Classify.Limits([Text("Upper limit"), Num(0.0), Num(10.0)], [Text("Lower limit"), Num(0.0), Num(0.0)])
  {
    var t := ScenarioSheet();
    ScenarioSheetCodes();
    var u, l, o := Some(UpperLabel), Some(LowerLabel), Some("Nominal");
    var head := Codes(t, 0)[..8];
    assert head == [u, l, o, o, o, o, o, o];
    assert Seqs.IndexOf(head, u) == 0 && Seqs.IndexOf(head, l) == 1;
    assert LimitRow(t, UpperLabel) == 0 && LimitRow(t, LowerLabel) == 1;
    TableLimitsRows(t);
    assert NormalizeRow([Text("Upper limit"), Missing, Num(10.0)]) == [Text("Upper limit"), Num(0.0), Num(10.0)];
    assert NormalizeRow([Text("Lower limit"), Missing, Num(0.0)]) == [Text("Lower limit"), Num(0.0), Num(0.0)];
  }

  lemma ScenarioSheetData()
    requires Rectangular(ScenarioSheet()) && FileNameColumn in ScenarioSheet().columns
    ensures DataBlock(ScenarioSheet()) == [[Text("ABCDEFGH-0001"), Text("NG"), Num(15.0)]]
    ensures DataCodes(ScenarioSheet()) == [Some("ABCDEFGH")]
  {
    var t := ScenarioSheet();
    ScenarioSheetCodes();
    var row := [Text("ABCDEFGH-0001"), Text("NG"), Num(15.0)];
    assert BlockSize(t) == 8 && t.rows[8] == row;
    assert CleanRow(row) && NormalizeRow(row) == row;
    assert DataBlock(t)[0] == row;
  }

  /** The one data row of the sheet above is classified as failing "T1". */
  lemma ScenarioSheetNgRows()
    ensures WellFormed(ScenarioSheet())
    ensures SheetNgRows(ScenarioSheet()) == [NgRow(Some("ABCDEFGH"), ["T1"])]
  {
    var t := ScenarioSheet();
    ScenarioSheetCodes();
    ScenarioSheetWellFormed();
    ScenarioSheetLimits();
    ScenarioSheetData();
    var row := [Text("ABCDEFGH-0001"), Text("NG"), Num(15.0)];
    Classify.ScenarioAboveUpper();
    var limits := Classify.Limits([Text("Upper limit"), Num(0.0), Num(10.0)], [Text("Lower limit"), Num(0.0), Num(0.0)]);
    assert t.columns == ["File name", "Judgement", "T1"];
    assert Classify.FailedTests(t.columns, row, limits) == ["T1"];
    assert [row][..0] == [] && [Some("ABCDEFGH")][..0] == [];
    assert FailingRows(t.columns, [row], [Some("ABCDEFGH")], 1, limits) == [NgRow(Some("ABCDEFGH"), ["T1"])];
    assert Indexed(t) == t;
  }

  /** The sheet above reports "T1" once, for product "ABCDEFGH". */
  lemma ScenarioSheetReport()
    ensures WellFormed(ScenarioSheet())
    ensures Analyse(ScenarioSheet()) == Ok([Entry(Test("T1"), 1, [ProductCount("ABCDEFGH", 1)])])
  {
    ScenarioSheetNgRows();
    OneRowReport();
  }

  // ---- a sheet that already has a `Product Code` column ---------------------

  /** `t` with a leftover `Product Code` column in front of its own columns. */
  function WithStaleIndex(t: Table, stale: Cell): (w: Table)
    requires Rectangular(t)
    ensures Rectangular(w)
  {
    Table([IndexColumn] + t.columns, seq(|t.rows|, i requires 0 <= i < |t.rows| => [stale] + t.rows[i]))
  }

  /** Indexing drops the leftover column and gives back the sheet without it. */
  lemma StaleIndexDropped(t: Table, stale: Cell)
    requires Rectangular(t) && Seqs.Distinct(t.columns) && IndexColumn !in t.columns
    ensures Seqs.Distinct(WithStaleIndex(t, stale).columns)
    ensures Indexed(WithStaleIndex(t, stale)) == t
  {
    var w := WithStaleIndex(t, stale);
    assert Seqs.Distinct(w.columns) by {
      forall j | 1 <= j < |w.columns| ensures w.columns[j] != IndexColumn {
        assert w.columns[j] == t.columns[j - 1];
      }
    }
    assert Seqs.IndexOf(w.columns, IndexColumn) == 0;
    Seqs.RemoveFront(IndexColumn, t.columns);
    var rows := seq(|w.rows|, i requires 0 <= i < |w.rows| => Seqs.RemoveAt(w.rows[i], 0));
    assert rows == t.rows by {
      forall i | 0 <= i < |t.rows| ensures rows[i] == t.rows[i] {
        Seqs.RemoveFront(stale, t.rows[i]);
      }
    }
  }

  /** A leftover `Product Code` column leaves a well-formed sheet well formed. */
  lemma StaleIndexWellFormed(t: Table, stale: Cell)
    requires WellFormed(t) && IndexColumn !in t.columns
    ensures WellFormed(WithStaleIndex(t, stale))
  {
    var w := WithStaleIndex(t, stale);
    StaleIndexDropped(t, stale);
    assert w.columns == [IndexColumn] + t.columns;
    if FileNameColumn in t.columns {
      assert FileNameColumn in w.columns;
      var cw := Codes(w, Seqs.IndexOf(w.columns, FileNameColumn));
      assert cw == Codes(t, Seqs.IndexOf(t.columns, FileNameColumn)) by {
        IndexedCodes(w);
      }
      assert BlockSize(w) == BlockSize(t);
      assert LimitsLocatable(w);
    } else {
      assert FileNameColumn !in w.columns;
    }
  }

  /** The outcome does not change once the leftover column is known to be harmless. */
  lemma StaleIndexSameOutcome(t: Table, stale: Cell)
    requires WellFormed(t) && IndexColumn !in t.columns && WellFormed(WithStaleIndex(t, stale))
    ensures Analyse(WithStaleIndex(t, stale)) == Analyse(t)
  {
    var w := WithStaleIndex(t, stale);
    StaleIndexDropped(t, stale);
    assert w.columns == [IndexColumn] + t.columns;
    if FileNameColumn !in t.columns {
      assert FileNameColumn !in w.columns;
      assert Analyse(w) == Err(MissingColumn(FileNameColumn));
      assert Analyse(t) == Err(MissingColumn(FileNameColumn));
    } else if JudgementColumn !in t.columns {
      assert FileNameColumn in w.columns && JudgementColumn !in w.columns;
      assert Analyse(w) == Err(MissingColumn(JudgementColumn));
      assert Analyse(t) == Err(MissingColumn(JudgementColumn));
    } else {
      assert FileNameColumn in w.columns && JudgementColumn in w.columns;
      var ng := SheetNgRows(t);
      assert SheetNgRows(w) == ng by {
        assert Indexed(w) == t && Indexed(t) == t;
      }
      assert Analyse(w) == if ng == [] then Err(NoFailingRows) else Ok(Report(ng));
      assert Analyse(t) == if ng == [] then Err(NoFailingRows) else Ok(Report(ng));
    }
  }

  /**
   * Whatever a leftover `Product Code` column holds, the analysis is that of
   * the sheet without it: the column is overwritten, then becomes the index,
   * and the test columns are counted from `File name` again.
   */
  lemma StaleIndexIgnored(t: Table, stale: Cell)
    requires WellFormed(t) && IndexColumn !in t.columns
    ensures WellFormed(WithStaleIndex(t, stale))
    ensures Analyse(WithStaleIndex(t, stale)) == Analyse(t)
  {
    StaleIndexWellFormed(t, stale);
    StaleIndexSameOutcome(t, stale);
  }

  // ---- the unbound `top_failures` -------------------------------------------

  /** A sheet holding only its two limit rows: there is no data block at all. */
  function BenchmarkOnlySheet(): Table {
    Table(["File name", "Judgement", "T1"],
          [[Text("Upper limit"), Missing, Num(10.0)], [Text("Lower limit"), Missing, Num(0.0)]])
  }

  /**
   * As written, a sheet without NG rows never enters the ranking loop, so the
   * request fails instead of reporting no tests.
   */
  lemma BenchmarkOnlySheetFails()
    ensures WellFormed(BenchmarkOnlySheet())
    ensures Analyse(BenchmarkOnlySheet()) == Err(NoFailingRows)
  {
    var t := BenchmarkOnlySheet();
    BenchmarkOnlySheetWellFormed();
    assert BlockSize(t) == |t.rows|;
    SheetNoNgRows(t);
    assert Analyse(t) == Err(NoFailingRows);
  }

  /** Both labels of that sheet name exactly one benchmark row. */
  lemma BenchmarkOnlySheetWellFormed()
    ensures WellFormed(BenchmarkOnlySheet())
    ensures FileNameColumn in BenchmarkOnlySheet().columns && JudgementColumn in BenchmarkOnlySheet().columns
  {
    var t := BenchmarkOnlySheet();
    assert Seqs.IndexOf(t.columns, FileNameColumn) == 0;
    assert "Upper limit"[..8] == UpperLabel && "Lower limit"[..8] == LowerLabel;
    var codes := Codes(t, 0);
    assert codes == [Some(UpperLabel), Some(LowerLabel)];
    assert codes[..2] == codes && codes[1..] == [Some(LowerLabel)] && codes[2..] == [];
    assert Seqs.IndexOf(codes, Some(UpperLabel)) == 0;
    assert Seqs.IndexOf(codes, Some(LowerLabel)) == 1;
    assert t.columns[1] == JudgementColumn;
  }

  /**
   * The analysis with `top_failures` assigned after the loop: no NG rows gives
   * an empty report; every other outcome is the one the source produces.
   */
  function AnalyseCorrected(t: Table): (r: Result<seq<Entry>>)
    requires WellFormed(t)
    ensures r.Err? ==> r.error.MissingColumn?
    ensures Analyse(t) == Err(NoFailingRows) ==> r == Ok([])
    ensures Analyse(t) != Err(NoFailingRows) ==> r == Analyse(t)
  {
    if FileNameColumn !in t.columns then Err(MissingColumn(FileNameColumn))
    else if JudgementColumn !in t.columns then Err(MissingColumn(JudgementColumn))
    else
      var ng := SheetNgRows(t);
      ReportEmpty(ng);
      Ok(Report(ng))
  }

  // ---- the imperative steps -------------------------------------------------

  /** `replace([inf, -inf], nan, inplace=True)` then `fillna(0, inplace=True)` on a block. */
  method FillInvalid(block: array<seq<Cell>>)
    modifies block
    ensures block[..] == NormalizeRows(old(block[..]))
  {
    for i := 0 to block.Length
      invariant forall j :: 0 <= j < i ==> block[j] == NormalizeRow(old(block[j]))
      invariant forall j :: i <= j < block.Length ==> block[j] == old(block[j])
    {
      block[i] := NormalizeRow(block[i]);
    }
  }

  /** Filters the NG rows and classifies each one (app.py:57-58). */
  method SelectFailing(columns: seq<string>, data: seq<seq<Cell>>, codes: seq<Option<string>>,
                       judgeCol: nat, limits: Classify.Limits) returns (ng: seq<NgRow>)
    requires |codes| == |data| && RowsFit(columns, data) && judgeCol < |columns|
    requires |limits.upper| == |columns| && |limits.lower| == |columns|
    ensures ng == FailingRows(columns, data, codes, judgeCol, limits)
  {
    ng := [];
    for i := 0 to |data|
      invariant ng == FailingRows(columns, data[..i], codes[..i], judgeCol, limits)
    {
      assert data[..i + 1][..i] == data[..i] && codes[..i + 1][..i] == codes[..i];
      if data[i][judgeCol] == Text(FailingJudgement) {
        var failed := Classify.FindFailedTests(columns, data[i], limits);
        ng := ng + [NgRow(codes[i], failed)];
      }
    }
    assert data[..|data|] == data && codes[..|codes|] == codes;
  }

  /**
   * `iloc[:8]` and `iloc[8:]` as two buffers, each cleaned in place
   * (app.py:48-55).
   */
  method SplitAndClean(rows: seq<seq<Cell>>, n: nat) returns (benchmarks: seq<seq<Cell>>, data: seq<seq<Cell>>)
    requires n <= |rows|
    ensures benchmarks == NormalizeRows(rows[..n])
    ensures data == NormalizeRows(rows[n..])
  {
    var bench := new seq<Cell>[n](i requires 0 <= i < n => rows[i]);
    var rest := new seq<Cell>[|rows| - n](i requires 0 <= i < |rows| - n => rows[n + i]);
    assert bench[..] == rows[..n];
    assert rest[..] == rows[n..];
    FillInvalid(rest);
    FillInvalid(bench);
    benchmarks, data := bench[..], rest[..];
  }

  /** app.py:45-77 in order: index, split, clean, filter, classify, rank. */
  method AnalyseFile(t: Table) returns (r: Result<seq<Entry>>)
    requires WellFormed(t)
    ensures r == Analyse(t)
  {
    if FileNameColumn !in t.columns {
      return Err(MissingColumn(FileNameColumn));
    }
    var codes := Codes(t, Seqs.IndexOf(t.columns, FileNameColumn));
    var u := Indexed(t);
    IndexedWellFormed(t);
    IndexedCodes(t);
    var n := BlockSize(u);
    var benchmarks, data := SplitAndClean(u.rows, n);
    if JudgementColumn !in u.columns {
      return Err(MissingColumn(JudgementColumn));
    }
    var limits := LimitsOf(benchmarks, codes[..n]);
    assert limits == TableLimits(u);
    var ng := SelectFailing(u.columns, data, codes[n..], Seqs.IndexOf(u.columns, JudgementColumn), limits);
    assert ng == SheetNgRows(t) by {
      assert SheetNgRows(t) == NgRowsOf(u);
    }
    var top := RankFailures(ng);
    if top.None? {
      r := Err(NoFailingRows);
    } else {
      r := Ok(top.value);
    }
  }
}
