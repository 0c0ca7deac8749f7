/**
 * The failure aggregation and ranking of `analyse_file` (app.py:57-77):
 * discover the failing test names in first-seen order, count the NG rows
 * citing each, break the count down per product code, stable-sort by total
 * descending and keep the first fifteen.
 */
module Aggregate {
  import opened Basics
  import Seqs
  import Lex

  /**
   * One value of `explode()` over the failed-test lists: a test name, or the
   * NaN placeholder `explode()` emits for an NG row whose list is empty.
   */
  datatype Key = Test(name: string) | NoTest

  /** An NG row: its product code (None when `File name` is not text) and failed tests. */
  datatype NgRow = NgRow(code: Option<string>, failed: seq<string>)

  /** `{"product_code": code, "failures": failures}` */
  datatype ProductCount = ProductCount(code: string, failures: nat)

  /** `{"test_name": test, "total_failures": total, "products": products}` */
  datatype Entry = Entry(test: Key, total: nat, products: seq<ProductCount>)

  /** Entries kept after sorting (`[:15]`). */
  const TopCount: nat := 15

  // ---- discovery: explode().unique() --------------------------------------

  /** `explode()` of one row's list. */
  function Keys(failed: seq<string>): seq<Key> {
    if failed == [] then [NoTest] else seq(|failed|, i requires 0 <= i < |failed| => Test(failed[i]))
  }

  function Explode(ng: seq<NgRow>): seq<Key> {
    if ng == [] then [] else Explode(ng[..|ng| - 1]) + Keys(ng[|ng| - 1].failed)
  }

  /** The distinct keys of the exploded lists, in first-seen order. */
  function Discover(ng: seq<NgRow>): seq<Key> {
    Seqs.Unique(Explode(ng))
  }

  /** `test in tests`: the row's list names the test (never true of the placeholder). */
  predicate Cites(r: NgRow, k: Key) {
    k.Test? && k.name in r.failed
  }

  /** The row contributes `k` to the exploded column. */
  predicate Yields(r: NgRow, k: Key) {
    if r.failed == [] then k == NoTest else Cites(r, k)
  }

  lemma KeysMembers(failed: seq<string>, k: Key)
    ensures k in Keys(failed) <==> Yields(NgRow(None, failed), k)
  {
    if failed != [] && k.Test? && k.name in failed {
      var j :| 0 <= j < |failed| && failed[j] == k.name;
      assert Keys(failed)[j] == k;
    }
  }

  lemma {:induction false} ExplodeMembers(ng: seq<NgRow>, k: Key)
    ensures k in Explode(ng) <==> exists i :: 0 <= i < |ng| && Yields(ng[i], k)
  {
    if ng != [] {
      var init, last := ng[..|ng| - 1], ng[|ng| - 1];
      assert ng == init + [last];
      ExplodeMembers(init, k);
      KeysMembers(last.failed, k);
      assert Explode(ng) == Explode(init) + Keys(last.failed);
      assert Yields(last, k) == Yields(NgRow(None, last.failed), k);
      if k in Explode(ng) && k !in Explode(init) {
        assert Yields(ng[|ng| - 1], k);
      }
      if exists i :: 0 <= i < |ng| && Yields(ng[i], k) {
        var i :| 0 <= i < |ng| && Yields(ng[i], k);
        if i < |init| { assert init[i] == ng[i]; }
      }
    }
  }

  lemma DiscoverMembers(ng: seq<NgRow>, k: Key)
    ensures k in Discover(ng) <==> exists i :: 0 <= i < |ng| && Yields(ng[i], k)
  {
    var e, d := Explode(ng), Discover(ng);
    ExplodeMembers(ng, k);
    if k in e {
      var j :| 0 <= j < |e| && e[j] == k;
    }
    if k in d {
      var j :| 0 <= j < |d| && d[j] == k;
    }
  }

  lemma DiscoverEmpty(ng: seq<NgRow>)
    ensures Discover(ng) == [] <==> ng == []
  {
    if ng != [] {
      var k := Keys(ng[0].failed)[0];
      assert Yields(ng[0], k);
      DiscoverMembers(ng, k);
    }
  }

  /**
   * Discovery lists each key some NG row yields, once, in first-seen order,
   * and is empty exactly when there are no NG rows.
   */
  lemma DiscoverProperties(ng: seq<NgRow>)
    ensures Seqs.Distinct(Discover(ng))
    ensures forall k :: k in Discover(ng) <==> exists i :: 0 <= i < |ng| && Yields(ng[i], k)
    ensures forall i, j :: 0 <= i < j < |Discover(ng)| ==>
      Seqs.IndexOf(Explode(ng), Discover(ng)[i]) < Seqs.IndexOf(Explode(ng), Discover(ng)[j])
    ensures Discover(ng) == [] <==> ng == []
  {
    forall k ensures k in Discover(ng) <==> exists i :: 0 <= i < |ng| && Yields(ng[i], k) {
      DiscoverMembers(ng, k);
    }
    Seqs.UniqueFirstSeen(Explode(ng));
    DiscoverEmpty(ng);
  }

  // ---- counting ------------------------------------------------------------

  /** `tests.count(test)` */
  function CountIn(failed: seq<string>, k: Key): nat {
    if failed == [] then 0
    else CountIn(failed[..|failed| - 1], k) + (if k == Test(failed[|failed| - 1]) then 1 else 0)
  }

  /** A test named once in a list without repetitions is counted once. */
  lemma {:induction false} CountInDistinct(failed: seq<string>, k: Key)
    requires Seqs.Distinct(failed)
    ensures CountIn(failed, k) == if Cites(NgRow(None, failed), k) then 1 else 0
  {
    if failed != [] {
      var init := failed[..|failed| - 1];
      assert failed == init + [failed[|failed| - 1]];
      CountInDistinct(init, k);
    }
  }

  /** The NG rows whose list names `k`, in table order (app.py:62). */
  function FailedRows(ng: seq<NgRow>, k: Key): seq<NgRow> {
    if ng == [] then []
    else FailedRows(ng[..|ng| - 1], k) + (if Cites(ng[|ng| - 1], k) then [ng[|ng| - 1]] else [])
  }

  /** Each citing row is selected as often as it occurs among the NG rows; no other row is. */
  lemma {:induction false} FailedRowsMultiplicity(ng: seq<NgRow>, k: Key)
    ensures forall r :: multiset(FailedRows(ng, k))[r] == if Cites(r, k) then multiset(ng)[r] else 0
  {
    if ng != [] {
      var init, last := ng[..|ng| - 1], ng[|ng| - 1];
      FailedRowsMultiplicity(init, k);
      var prev, tail := FailedRows(init, k), if Cites(last, k) then [last] else [];
      assert ng == init + [last];
      assert FailedRows(ng, k) == prev + tail;
      assert multiset(ng) == multiset(init) + multiset{last};
      assert multiset(FailedRows(ng, k)) == multiset(prev) + multiset(tail);
    }
  }

  /**
   * The selection keeps exactly the citing rows, each as often as it occurs
   * among the NG rows (two identical units count twice).
   */
  lemma FailedRowsMembers(ng: seq<NgRow>, k: Key)
    ensures forall r :: r in FailedRows(ng, k) <==> r in ng && Cites(r, k)
    ensures forall r :: multiset(FailedRows(ng, k))[r] == if Cites(r, k) then multiset(ng)[r] else 0
  {
    FailedRowsMultiplicity(ng, k);
    forall r ensures r in FailedRows(ng, k) <==> r in ng && Cites(r, k) {
      assert r in FailedRows(ng, k) <==> r in multiset(FailedRows(ng, k));
      assert r in ng <==> r in multiset(ng);
    }
  }

  /** Number of NG rows whose list names `k`, counted directly. */
  function Citing(ng: seq<NgRow>, k: Key): nat {
    if ng == [] then 0
    else Citing(ng[..|ng| - 1], k) + (if Cites(ng[|ng| - 1], k) then 1 else 0)
  }

  /** Number of NG rows whose list names `k` and whose product code is `c`. */
  function CitingWithCode(ng: seq<NgRow>, k: Key, c: string): nat {
    if ng == [] then 0
    else
      CitingWithCode(ng[..|ng| - 1], k, c) +
      (if Cites(ng[|ng| - 1], k) && ng[|ng| - 1].code == Some(c) then 1 else 0)
  }

  lemma {:induction false} FailedRowsCount(ng: seq<NgRow>, k: Key)
    ensures |FailedRows(ng, k)| == Citing(ng, k)
  {
    if ng != [] { FailedRowsCount(ng[..|ng| - 1], k); }
  }

  /** Summing `count(test)` over the citing rows of one code counts those rows. */
  lemma {:induction false} OccurrencesCountRows(ng: seq<NgRow>, k: Key, c: string)
    requires forall i :: 0 <= i < |ng| ==> Seqs.Distinct(ng[i].failed)
    ensures Occurrences(FailedRows(ng, k), c, k) == CitingWithCode(ng, k, c)
  {
    if ng != [] {
      var init, last := ng[..|ng| - 1], ng[|ng| - 1];
      var rows := FailedRows(init, k);
      OccurrencesCountRows(init, k, c);
      if Cites(last, k) {
        assert (rows + [last])[..|rows|] == rows;
        CountInDistinct(last.failed, k);
        assert CountIn(last.failed, k) == 1;
      } else {
        assert FailedRows(ng, k) == rows;
      }
    }
  }

  /** When every NG row names the test, the selection keeps them all. */
  lemma {:induction false} FailedRowsAll(ng: seq<NgRow>, k: Key)
    requires forall i :: 0 <= i < |ng| ==> Cites(ng[i], k)
    ensures FailedRows(ng, k) == ng
  {
    if ng != [] {
      FailedRowsAll(ng[..|ng| - 1], k);
      assert ng == ng[..|ng| - 1] + [ng[|ng| - 1]];
    }
  }

  /** The product codes of `groupby("Product Code")`: distinct, ascending, NaN dropped. */
  function GroupCodes(rows: seq<NgRow>): (codes: seq<string>)
    ensures Lex.StrictlyAscending(codes)
  {
    if rows == [] then []
    else
      var codes := GroupCodes(rows[..|rows| - 1]);
      match rows[|rows| - 1].code
      case None => codes
      case Some(c) => Lex.Insert(c, codes)
  }

  lemma {:induction false} GroupCodesMembers(rows: seq<NgRow>)
    ensures forall c :: c in GroupCodes(rows) <==> exists i :: 0 <= i < |rows| && rows[i].code == Some(c)
  {
    if rows != [] {
      var init := rows[..|rows| - 1];
      var last := rows[|rows| - 1];
      GroupCodesMembers(init);
      assert rows == init + [last];
      forall c ensures c in GroupCodes(rows) <==> exists i :: 0 <= i < |rows| && rows[i].code == Some(c) {
        assert c in GroupCodes(rows) <==> c in GroupCodes(init) || last.code == Some(c);
        if exists i :: 0 <= i < |init| && init[i].code == Some(c) {
          var i :| 0 <= i < |init| && init[i].code == Some(c);
          assert rows[i] == init[i];
        }
        if exists i :: 0 <= i < |rows| && rows[i].code == Some(c) {
          var i :| 0 <= i < |rows| && rows[i].code == Some(c);
          if i < |init| { assert init[i] == rows[i]; }
        }
      }
    }
  }

  /** `product_data['Failed Tests'].apply(lambda x: x.count(test)).sum()` for one code. */
  function Occurrences(rows: seq<NgRow>, c: string, k: Key): nat {
    if rows == [] then 0
    else
      Occurrences(rows[..|rows| - 1], c, k) +
      (if rows[|rows| - 1].code == Some(c) then CountIn(rows[|rows| - 1].failed, k) else 0)
  }

  function BreakdownOver(codes: seq<string>, rows: seq<NgRow>, k: Key): seq<ProductCount> {
    if codes == [] then []
    else
      BreakdownOver(codes[..|codes| - 1], rows, k) +
      [ProductCount(codes[|codes| - 1], Occurrences(rows, codes[|codes| - 1], k))]
  }

  /** The `products` list of one test: one count per product code, codes ascending. */
  function Breakdown(rows: seq<NgRow>, k: Key): seq<ProductCount> {
    BreakdownOver(GroupCodes(rows), rows, k)
  }

  function MakeEntry(ng: seq<NgRow>, k: Key): Entry {
    var rows := FailedRows(ng, k);
    Entry(k, |rows|, Breakdown(rows, k))
  }

  /** `test_failures` after the iterations for `tests`. */
  function EntriesFor(ng: seq<NgRow>, tests: seq<Key>): seq<Entry> {
    if tests == [] then []
    else EntriesFor(ng, tests[..|tests| - 1]) + [MakeEntry(ng, tests[|tests| - 1])]
  }

  function Entries(ng: seq<NgRow>): seq<Entry> {
    EntriesFor(ng, Discover(ng))
  }

  // ---- breakdown sums --------------------------------------------------------

  function SumFailures(ps: seq<ProductCount>): nat {
    if ps == [] then 0 else SumFailures(ps[..|ps| - 1]) + ps[|ps| - 1].failures
  }

  function CodesOf(ps: seq<ProductCount>): seq<string> {
    seq(|ps|, i requires 0 <= i < |ps| => ps[i].code)
  }

  /** Occurrences of `k` over the rows that have a product code. */
  function CodedOccurrences(rows: seq<NgRow>, k: Key): nat {
    if rows == [] then 0
    else
      CodedOccurrences(rows[..|rows| - 1], k) +
      (if rows[|rows| - 1].code.Some? then CountIn(rows[|rows| - 1].failed, k) else 0)
  }

  /** Number of rows that have a product code. */
  function Coded(rows: seq<NgRow>): nat {
    if rows == [] then 0
    else Coded(rows[..|rows| - 1]) + (if rows[|rows| - 1].code.Some? then 1 else 0)
  }

  /** What row `r` adds to the counts of the codes in `codes`. */
  function Hits(codes: seq<string>, r: NgRow, k: Key): nat {
    if codes == [] then 0
    else Hits(codes[..|codes| - 1], r, k) + (if r.code == Some(codes[|codes| - 1]) then CountIn(r.failed, k) else 0)
  }

  lemma {:induction false} BreakdownCodes(codes: seq<string>, rows: seq<NgRow>, k: Key)
    ensures CodesOf(BreakdownOver(codes, rows, k)) == codes
  {
    if codes != [] {
      BreakdownCodes(codes[..|codes| - 1], rows, k);
    }
  }

  lemma {:induction false} BreakdownEntries(codes: seq<string>, rows: seq<NgRow>, k: Key)
    ensures |BreakdownOver(codes, rows, k)| == |codes|
    ensures forall i :: 0 <= i < |codes| ==>
      BreakdownOver(codes, rows, k)[i] == ProductCount(codes[i], Occurrences(rows, codes[i], k))
  {
    if codes != [] {
      BreakdownEntries(codes[..|codes| - 1], rows, k);
    }
  }

  lemma {:induction false} BreakdownOfNoRows(codes: seq<string>, k: Key)
    ensures SumFailures(BreakdownOver(codes, [], k)) == 0
  {
    if codes != [] {
      var p := BreakdownOver(codes[..|codes| - 1], [], k);
      BreakdownOfNoRows(codes[..|codes| - 1], k);
      assert (p + [ProductCount(codes[|codes| - 1], 0)])[..|p|] == p;
    }
  }

  lemma {:induction false} BreakdownAddRow(codes: seq<string>, rows: seq<NgRow>, r: NgRow, k: Key)
    ensures SumFailures(BreakdownOver(codes, rows + [r], k)) == SumFailures(BreakdownOver(codes, rows, k)) + Hits(codes, r, k)
  {
    if codes != [] {
      var init, c := codes[..|codes| - 1], codes[|codes| - 1];
      BreakdownAddRow(init, rows, r, k);
      assert (rows + [r])[..|rows|] == rows;
      var p, q := BreakdownOver(init, rows + [r], k), BreakdownOver(init, rows, k);
      assert (p + [ProductCount(c, Occurrences(rows + [r], c, k))])[..|p|] == p;
      assert (q + [ProductCount(c, Occurrences(rows, c, k))])[..|q|] == q;
    }
  }

  lemma {:induction false} HitsDistinct(codes: seq<string>, r: NgRow, k: Key)
    requires Seqs.Distinct(codes)
    ensures Hits(codes, r, k) == if r.code.Some? && r.code.value in codes then CountIn(r.failed, k) else 0
  {
    if codes != [] {
      var init := codes[..|codes| - 1];
      assert codes == init + [codes[|codes| - 1]];
      HitsDistinct(init, r, k);
    }
  }

  lemma {:induction false} BreakdownSumOver(codes: seq<string>, rows: seq<NgRow>, k: Key)
    requires Seqs.Distinct(codes)
    requires forall i :: 0 <= i < |rows| && rows[i].code.Some? ==> rows[i].code.value in codes
    ensures SumFailures(BreakdownOver(codes, rows, k)) == CodedOccurrences(rows, k)
  {
    if rows == [] {
      BreakdownOfNoRows(codes, k);
    } else {
      var init, r := rows[..|rows| - 1], rows[|rows| - 1];
      assert rows == init + [r];
      BreakdownSumOver(codes, init, k);
      BreakdownAddRow(codes, init, r, k);
      HitsDistinct(codes, r, k);
    }
  }

  lemma {:induction false} CodedOccurrencesCiting(rows: seq<NgRow>, k: Key)
    requires forall i :: 0 <= i < |rows| ==> Seqs.Distinct(rows[i].failed) && Cites(rows[i], k)
    ensures CodedOccurrences(rows, k) == Coded(rows)
  {
    if rows != [] {
      var init := rows[..|rows| - 1];
      CodedOccurrencesCiting(init, k);
      CountInDistinct(rows[|rows| - 1].failed, k);
    }
  }

  lemma {:induction false} CodedAll(rows: seq<NgRow>)
    requires forall i :: 0 <= i < |rows| ==> rows[i].code.Some?
    ensures Coded(rows) == |rows|
  {
    if rows != [] { CodedAll(rows[..|rows| - 1]); }
  }

  lemma {:induction false} FailedRowsCite(ng: seq<NgRow>, k: Key)
    ensures forall i :: 0 <= i < |FailedRows(ng, k)| ==> Cites(FailedRows(ng, k)[i], k)
    ensures forall i :: 0 <= i < |FailedRows(ng, k)| ==> FailedRows(ng, k)[i] in ng
  {
    FailedRowsMembers(ng, k);
  }

  /** The placeholder key is cited by no row: total zero and no products. */
  lemma PlaceholderEntry(ng: seq<NgRow>)
    ensures MakeEntry(ng, NoTest).total == 0 && MakeEntry(ng, NoTest).products == []
  {
    var rows := FailedRows(ng, NoTest);
    FailedRowsCite(ng, NoTest);
  }

  /** A discovered test name is cited by at least one NG row. */
  lemma DiscoveredTestCounted(ng: seq<NgRow>, k: Key)
    requires k in Discover(ng) && k.Test?
    ensures MakeEntry(ng, k).total >= 1
  {
    DiscoverMembers(ng, k);
    FailedRowsMembers(ng, k);
    var i :| 0 <= i < |ng| && Yields(ng[i], k);
    assert ng[i] in FailedRows(ng, k);
  }

  /**
   * The `products` of an entry list each product code of the cited rows once,
   * in ascending order, and no other code.
   */
  lemma EntryProductCodes(ng: seq<NgRow>, k: Key)
    ensures var codes := CodesOf(MakeEntry(ng, k).products);
      Lex.StrictlyAscending(codes) &&
      forall c :: c in codes <==> exists r :: r in FailedRows(ng, k) && r.code == Some(c)
  {
    var rows := FailedRows(ng, k);
    var codes := GroupCodes(rows);
    BreakdownCodes(codes, rows, k);
    GroupCodesMembers(rows);
    forall c ensures c in codes <==> exists r :: r in rows && r.code == Some(c) {
      if exists r :: r in rows && r.code == Some(c) {
        var r :| r in rows && r.code == Some(c);
        var i :| 0 <= i < |rows| && rows[i] == r;
      }
    }
  }

  /**
   * `total_failures` is the number of NG rows naming the test, and each
   * product's `failures` the number of those rows with its code (lists
   * without repetitions, as the classifier produces them).
   */
  lemma EntryCounts(ng: seq<NgRow>, k: Key)
    requires forall i :: 0 <= i < |ng| ==> Seqs.Distinct(ng[i].failed)
    ensures MakeEntry(ng, k).total == Citing(ng, k)
    ensures forall p :: p in MakeEntry(ng, k).products ==> p.failures == CitingWithCode(ng, k, p.code)
  {
    var rows := FailedRows(ng, k);
    var codes := GroupCodes(rows);
    FailedRowsCount(ng, k);
    BreakdownEntries(codes, rows, k);
    forall p | p in MakeEntry(ng, k).products ensures p.failures == CitingWithCode(ng, k, p.code) {
      var i :| 0 <= i < |codes| && BreakdownOver(codes, rows, k)[i] == p;
      OccurrencesCountRows(ng, k, codes[i]);
    }
  }

  lemma GroupCodesDistinct(rows: seq<NgRow>)
    ensures Seqs.Distinct(GroupCodes(rows))
  {
    var codes := GroupCodes(rows);
    forall i, j | 0 <= i < j < |codes| ensures codes[i] != codes[j] {
      Lex.BelowIrreflexive(codes[i]);
    }
  }

  /**
   * The per-product counts of an entry add up to the cited rows that have a
   * product code (`groupby` drops NaN codes), hence to `total_failures` when
   * every NG row has one.
   */
  lemma EntryCountsAddUp(ng: seq<NgRow>, k: Key)
    requires forall i :: 0 <= i < |ng| ==> Seqs.Distinct(ng[i].failed)
    ensures SumFailures(MakeEntry(ng, k).products) == Coded(FailedRows(ng, k))
    ensures (forall i :: 0 <= i < |ng| ==> ng[i].code.Some?) ==>
      SumFailures(MakeEntry(ng, k).products) == MakeEntry(ng, k).total
  {
    var rows := FailedRows(ng, k);
    var codes := GroupCodes(rows);
    FailedRowsCite(ng, k);
    assert SumFailures(BreakdownOver(codes, rows, k)) == CodedOccurrences(rows, k) by {
      GroupCodesDistinct(rows);
      GroupCodesMembers(rows);
      forall i | 0 <= i < |rows| && rows[i].code.Some? ensures rows[i].code.value in codes {
      }
      BreakdownSumOver(codes, rows, k);
    }
    assert CodedOccurrences(rows, k) == Coded(rows) by {
      forall i | 0 <= i < |rows| ensures Seqs.Distinct(rows[i].failed) {
        var j :| 0 <= j < |ng| && ng[j] == rows[i];
      }
      CodedOccurrencesCiting(rows, k);
    }
    if forall i :: 0 <= i < |ng| ==> ng[i].code.Some? {
      forall i | 0 <= i < |rows| ensures rows[i].code.Some? {
        var j :| 0 <= j < |ng| && ng[j] == rows[i];
      }
      CodedAll(rows);
    }
  }

  lemma {:induction false} EntriesForShape(ng: seq<NgRow>, tests: seq<Key>)
    ensures |EntriesFor(ng, tests)| == |tests|
    ensures forall i :: 0 <= i < |tests| ==> EntriesFor(ng, tests)[i] == MakeEntry(ng, tests[i])
  {
    if tests != [] { EntriesForShape(ng, tests[..|tests| - 1]); }
  }

  // ---- ranking: sorted(..., key=total_failures, reverse=True)[:15] ----------

  predicate SortedDesc(s: seq<Entry>) {
    forall i, j :: 0 <= i < j < |s| ==> s[i].total >= s[j].total
  }

  /** Places `e` after every entry whose total is at least its own. */
  function InsertDesc(s: seq<Entry>, e: Entry): (r: seq<Entry>)
    requires SortedDesc(s)
    ensures SortedDesc(r)
    ensures |r| == |s| + 1 && (r[0] == e || (s != [] && r[0] == s[0]))
  {
    if s == [] then [e]
    else if s[0].total >= e.total then
      var rest := InsertDesc(s[1..], e);
      assert s == [s[0]] + s[1..];
      assert s[0].total >= rest[0].total;
      [s[0]] + rest
    else [e] + s
  }

  /** A stable sort by total, largest first. */
  function SortDesc(s: seq<Entry>): (r: seq<Entry>)
    ensures SortedDesc(r)
    ensures |r| == |s|
  {
    if s == [] then []
    else
      assert s == s[..|s| - 1] + [s[|s| - 1]];
      InsertDesc(SortDesc(s[..|s| - 1]), s[|s| - 1])
  }

  lemma {:induction false} InsertDescPermutes(s: seq<Entry>, e: Entry)
    requires SortedDesc(s)
    ensures multiset(InsertDesc(s, e)) == multiset(s) + multiset{e}
  {
    if s != [] && s[0].total >= e.total {
      InsertDescBehind(s, e);
      InsertDescPermutes(s[1..], e);
      assert s == [s[0]] + s[1..];
    }
  }

  /** Sorting neither drops nor adds entries. */
  lemma {:induction false} SortDescPermutes(s: seq<Entry>)
    ensures multiset(SortDesc(s)) == multiset(s)
  {
    if s != [] {
      var init, last := s[..|s| - 1], s[|s| - 1];
      assert s == init + [last];
      SortDescPermutes(init);
      InsertDescPermutes(SortDesc(init), last);
    }
  }

  lemma SortDescMembers(s: seq<Entry>)
    ensures forall e :: e in SortDesc(s) ==> e in s
  {
    SortDescPermutes(s);
    forall e | e in SortDesc(s) ensures e in s {
      assert e in multiset(SortDesc(s));
    }
  }

  /** The entries with a given total, in order. */
  function WithTotal(s: seq<Entry>, t: nat): seq<Entry> {
    if s == [] then []
    else (if s[0].total == t then [s[0]] else []) + WithTotal(s[1..], t)
  }

  lemma {:induction false} WithTotalAppend(a: seq<Entry>, b: seq<Entry>, t: nat)
    ensures WithTotal(a + b, t) == WithTotal(a, t) + WithTotal(b, t)
  {
    if a == [] {
      assert a + b == b;
    } else {
      var h: seq<Entry> := if a[0].total == t then [a[0]] else [];
      assert (a + b)[0] == a[0];
      assert (a + b)[1..] == a[1..] + b;
      calc {
        WithTotal(a + b, t);
        h + WithTotal(a[1..] + b, t);
        { WithTotalAppend(a[1..], b, t); }
        h + (WithTotal(a[1..], t) + WithTotal(b, t));
        (h + WithTotal(a[1..], t)) + WithTotal(b, t);
        WithTotal(a, t) + WithTotal(b, t);
      }
    }
  }

  lemma {:induction false} WithTotalNone(s: seq<Entry>, t: nat)
    requires forall i :: 0 <= i < |s| ==> s[i].total < t
    ensures WithTotal(s, t) == []
  {
    if s != [] { WithTotalNone(s[1..], t); }
  }

  lemma WithTotalCons(x: Entry, s: seq<Entry>, t: nat)
    ensures WithTotal([x] + s, t) == (if x.total == t then [x] else []) + WithTotal(s, t)
  {
    assert ([x] + s)[0] == x && ([x] + s)[1..] == s;
  }

  lemma WithTotalInsertFront(s: seq<Entry>, e: Entry, t: nat)
    requires SortedDesc(s) && s != [] && s[0].total < e.total
    ensures WithTotal(InsertDesc(s, e), t) == WithTotal(s, t) + (if e.total == t then [e] else [])
  {
    assert InsertDesc(s, e) == [e] + s;
    WithTotalCons(e, s, t);
    if e.total == t {
      WithTotalNone(s, t);
    }
  }

  lemma InsertDescBehind(s: seq<Entry>, e: Entry)
    requires SortedDesc(s) && s != [] && s[0].total >= e.total
    ensures InsertDesc(s, e) == [s[0]] + InsertDesc(s[1..], e)
  {
  }

  lemma SortedTail(s: seq<Entry>)
    requires SortedDesc(s) && s != []
    ensures SortedDesc(s[1..])
  {
  }

  lemma WithTotalPrepend(x: Entry, rest: seq<Entry>, tail: seq<Entry>, f: seq<Entry>, t: nat)
    requires WithTotal(rest, t) == WithTotal(tail, t) + f
    ensures WithTotal([x] + rest, t) == WithTotal([x] + tail, t) + f
  {
    WithTotalCons(x, rest, t);
    WithTotalCons(x, tail, t);
    var h: seq<Entry> := if x.total == t then [x] else [];
    assert h + (WithTotal(tail, t) + f) == (h + WithTotal(tail, t)) + f;
  }

  lemma WithTotalInsertBehind(s: seq<Entry>, e: Entry, t: nat)
    requires SortedDesc(s) && s != [] && s[0].total >= e.total && SortedDesc(s[1..])
    requires WithTotal(InsertDesc(s[1..], e), t) == WithTotal(s[1..], t) + (if e.total == t then [e] else [])
    ensures WithTotal(InsertDesc(s, e), t) == WithTotal(s, t) + (if e.total == t then [e] else [])
  {
    InsertDescBehind(s, e);
    assert s == [s[0]] + s[1..];
    WithTotalPrepend(s[0], InsertDesc(s[1..], e), s[1..], if e.total == t then [e] else [], t);
  }

  lemma {:induction false} WithTotalInsert(s: seq<Entry>, e: Entry, t: nat)
    requires SortedDesc(s)
    ensures WithTotal(InsertDesc(s, e), t) == WithTotal(s, t) + (if e.total == t then [e] else [])
  {
    if s == [] {
      WithTotalCons(e, [], t);
    } else if s[0].total >= e.total {
      SortedTail(s);
      WithTotalInsert(s[1..], e, t);
      WithTotalInsertBehind(s, e, t);
    } else {
      WithTotalInsertFront(s, e, t);
    }
  }

  /** Entries with equal totals keep their relative order (Python's sort is stable). */
  lemma {:induction false} SortDescStable(s: seq<Entry>, t: nat)
    ensures WithTotal(SortDesc(s), t) == WithTotal(s, t)
  {
    if s != [] {
      var init, last := s[..|s| - 1], s[|s| - 1];
      assert s == init + [last];
      SortDescStable(init, t);
      WithTotalInsert(SortDesc(init), last, t);
      WithTotalAppend(init, [last], t);
    }
  }

  /** `s[:n]` */
  function Take(s: seq<Entry>, n: nat): (r: seq<Entry>)
    ensures |r| == if |s| < n then |s| else n
    ensures r == s[..|r|]
  {
    if |s| <= n then s else s[..n]
  }

  lemma TakeSorted(s: seq<Entry>, n: nat)
    requires SortedDesc(s)
    ensures SortedDesc(Take(s, n))
  {
    var r := Take(s, n);
    forall i, j | 0 <= i < j < |r| ensures r[i].total >= r[j].total {
      assert r[i] == s[i] && r[j] == s[j];
    }
  }

  /** `top_failures` as it stands once every discovered test has been processed. */
  function Report(ng: seq<NgRow>): seq<Entry> {
    Take(SortDesc(Entries(ng)), TopCount)
  }

  /**
   * The ranked report holds at most fifteen entries (fewer only when fewer
   * keys were discovered), largest total first, and is the head of the
   * sorted entries.
   */
  lemma ReportShape(ng: seq<NgRow>)
    ensures var rep := Report(ng);
      |rep| <= TopCount &&
      |rep| == (if |Discover(ng)| < TopCount then |Discover(ng)| else TopCount) &&
      SortedDesc(rep) &&
      rep == SortDesc(Entries(ng))[..|rep|]
  {
    EntriesForShape(ng, Discover(ng));
    TakeSorted(SortDesc(Entries(ng)), TopCount);
  }

  /** Every reported entry is the entry of a discovered key. */
  lemma ReportMembers(ng: seq<NgRow>)
    ensures forall e :: e in Report(ng) ==> e.test in Discover(ng) && e == MakeEntry(ng, e.test)
  {
    var tests, es := Discover(ng), Entries(ng);
    EntriesForShape(ng, tests);
    SortDescMembers(es);
    forall e | e in Report(ng) ensures e.test in tests && e == MakeEntry(ng, e.test) {
      var rep := Report(ng);
      var i :| 0 <= i < |rep| && rep[i] == e;
      assert SortDesc(es)[i] == e;
      assert e in SortDesc(es);
      var j :| 0 <= j < |es| && es[j] == e;
      assert e == MakeEntry(ng, tests[j]);
    }
  }

  lemma {:induction false} CodedAtMost(rows: seq<NgRow>)
    ensures Coded(rows) <= |rows|
  {
    if rows != [] { CodedAtMost(rows[..|rows| - 1]); }
  }

  /**
   * A reported entry's per-product counts never exceed its total, and add up
   * to it when every NG row has a product code.
   */
  lemma ReportCounts(ng: seq<NgRow>)
    requires forall i :: 0 <= i < |ng| ==> Seqs.Distinct(ng[i].failed)
    ensures forall e :: e in Report(ng) ==> SumFailures(e.products) <= e.total
    ensures (forall i :: 0 <= i < |ng| ==> ng[i].code.Some?) ==>
      forall e :: e in Report(ng) ==> SumFailures(e.products) == e.total
  {
    ReportMembers(ng);
    forall e | e in Report(ng) ensures SumFailures(e.products) <= e.total {
      EntryCountsAddUp(ng, e.test);
      CodedAtMost(FailedRows(ng, e.test));
    }
    if forall i :: 0 <= i < |ng| ==> ng[i].code.Some? {
      forall e | e in Report(ng) ensures SumFailures(e.products) == e.total {
        EntryCountsAddUp(ng, e.test);
      }
    }
  }

  /** A reported test is one some NG row names, and it failed at least once. */
  lemma ReportTests(ng: seq<NgRow>, names: seq<string>)
    requires forall i, j :: 0 <= i < |ng| && 0 <= j < |ng[i].failed| ==> ng[i].failed[j] in names
    ensures forall e :: e in Report(ng) && e.test.Test? ==> e.test.name in names && e.total >= 1
  {
    ReportMembers(ng);
    forall e | e in Report(ng) && e.test.Test? ensures e.test.name in names && e.total >= 1 {
      DiscoveredTestCounted(ng, e.test);
      DiscoverMembers(ng, e.test);
      var i :| 0 <= i < |ng| && Yields(ng[i], e.test);
      var j :| 0 <= j < |ng[i].failed| && ng[i].failed[j] == e.test.name;
    }
  }

  /** The report is empty exactly when there are no NG rows. */
  lemma ReportEmpty(ng: seq<NgRow>)
    ensures Report(ng) == [] <==> ng == []
  {
    EntriesForShape(ng, Discover(ng));
    DiscoverEmpty(ng);
  }

  /** A test named by exactly one row, of code `c`, has total 1, all of it for `c`. */
  lemma SingleCitingEntry(ng: seq<NgRow>, c: string, name: string)
    requires FailedRows(ng, Test(name)) == [NgRow(Some(c), [name])]
    ensures MakeEntry(ng, Test(name)) == Entry(Test(name), 1, [ProductCount(c, 1)])
  {
    var k, rows := Test(name), [NgRow(Some(c), [name])];
    assert rows[..0] == [];
    assert GroupCodes(rows) == [c];
    assert [name][..0] == [];
    assert CountIn([name], k) == 1;
    assert Occurrences(rows, c, k) == 1;
    assert [c][..0] == [];
    assert BreakdownOver([c], rows, k) == [ProductCount(c, 1)];
    assert Breakdown(rows, k) == [ProductCount(c, 1)];
  }

  /** Two rows naming one test each: the tests are discovered in row order. */
  lemma TwoTestsDiscover(r1: NgRow, r2: NgRow, n1: string, n2: string)
    requires r1.failed == [n1] && r2.failed == [n2] && n1 != n2
    ensures Discover([r1, r2]) == [Test(n1), Test(n2)]
  {
    var k1, k2 := Test(n1), Test(n2);
    assert Explode([r1, r2]) == [k1, k2] by {
      assert [r1, r2][..1] == [r1] && [r1][..0] == [];
      assert Keys([n1]) == [k1] && Keys([n2]) == [k2];
      assert Explode([r1]) == [k1];
    }
    assert Seqs.Unique([k1, k2]) == [k1, k2] by {
      assert [k1, k2][..1] == [k1] && [k1][..0] == [];
      assert Seqs.Unique([k1]) == [k1];
      assert k2 !in [k1];
    }
  }

  /** Two rows naming different single tests: each test selects only its own row. */
  lemma TwoTestsSelect(r1: NgRow, r2: NgRow, n1: string, n2: string)
    requires r1.failed == [n1] && r2.failed == [n2] && n1 != n2
    ensures FailedRows([r1, r2], Test(n1)) == [r1]
    ensures FailedRows([r1, r2], Test(n2)) == [r2]
  {
    var k1, k2 := Test(n1), Test(n2);
    assert [r1, r2][..1] == [r1] && [r1][..0] == [];
    assert Cites(r1, k1) && !Cites(r1, k2);
    assert Cites(r2, k2) && !Cites(r2, k1);
    assert FailedRows([r1], k1) == [r1] && FailedRows([r1], k2) == [];
  }

  /** Two entries of equal total stay in their order under the stable sort. */
  lemma TieSorted(e1: Entry, e2: Entry)
    requires e1.total == e2.total
    ensures Take(SortDesc([e1, e2]), TopCount) == [e1, e2]
  {
    assert [e1, e2][..1] == [e1] && [e1][..0] == [];
    assert SortDesc([e1]) == [e1];
    assert InsertDesc([e1], e2) == [e1, e2];
  }

  /**
   * Two NG rows failing different single tests: both entries have total 1,
   * and the tie leaves them in discovery order.
   */
  lemma TwoTestsReport(c1: string, n1: string, c2: string, n2: string)
    requires n1 != n2
    ensures Report([NgRow(Some(c1), [n1]), NgRow(Some(c2), [n2])]) ==
      [Entry(Test(n1), 1, [ProductCount(c1, 1)]), Entry(Test(n2), 1, [ProductCount(c2, 1)])]
  {
    var ng := [NgRow(Some(c1), [n1]), NgRow(Some(c2), [n2])];
    var e1, e2 := Entry(Test(n1), 1, [ProductCount(c1, 1)]), Entry(Test(n2), 1, [ProductCount(c2, 1)]);
    TwoTestsDiscover(ng[0], ng[1], n1, n2);
    TwoTestsSelect(ng[0], ng[1], n1, n2);
    SingleCitingEntry(ng, c1, n1);
    SingleCitingEntry(ng, c2, n2);
    EntriesForShape(ng, [Test(n1), Test(n2)]);
    assert Entries(ng) == [e1, e2];
    TieSorted(e1, e2);
  }

  /** Ties keep discovery order: "T3" was seen first, so it stays first. */
  lemma ScenarioTieKeepsDiscoveryOrder()
    ensures Report([NgRow(Some("AAAA0001"), ["T3"]), NgRow(Some("BBBB0002"), ["T1"])]) ==
      [Entry(Test("T3"), 1, [ProductCount("AAAA0001", 1)]), Entry(Test("T1"), 1, [ProductCount("BBBB0002", 1)])]
  {
    TwoTestsReport("AAAA0001", "T3", "BBBB0002", "T1");
  }

  /** Three NG units of one product and two of another, all failing "T2". */
  function TwoProductRows(): seq<NgRow> {
    var a, b := NgRow(Some("AAAA0001"), ["T2"]), NgRow(Some("BBBB0002"), ["T2"]);
    [a, b, a, b, a]
  }

  /** NG rows that all fail the same single test discover that test alone. */
  lemma DiscoverSingle(ng: seq<NgRow>, name: string)
    requires ng != [] && forall i :: 0 <= i < |ng| ==> ng[i].failed == [name]
    ensures Discover(ng) == [Test(name)]
  {
    var k, e := Test(name), Explode(ng);
    assert Yields(ng[0], k);
    ExplodeMembers(ng, k);
    forall j | 0 <= j < |e| ensures e[j] == k {
      ExplodeMembers(ng, e[j]);
    }
    Seqs.UniqueConstant(e, k);
  }

  lemma TwoProductsDiscover()
    ensures Discover(TwoProductRows()) == [Test("T2")]
  {
    DiscoverSingle(TwoProductRows(), "T2");
  }

  lemma InsertSecondCode()
    ensures Lex.Insert("BBBB0002", ["AAAA0001"]) == ["AAAA0001", "BBBB0002"]
  {
    assert !Lex.Below("BBBB0002", "AAAA0001");
    assert "BBBB0002" != "AAAA0001";
    assert ["AAAA0001"][1..] == [];
  }

  lemma TwoProductsGroups()
    ensures FailedRows(TwoProductRows(), Test("T2")) == TwoProductRows()
    ensures GroupCodes(TwoProductRows()) == ["AAAA0001", "BBBB0002"]
  {
    var a, b := NgRow(Some("AAAA0001"), ["T2"]), NgRow(Some("BBBB0002"), ["T2"]);
    var k := Test("T2");
    var p1, p2, p3, p4, p5 := [a], [a, b], [a, b, a], [a, b, a, b], [a, b, a, b, a];
    assert p5[..4] == p4;
    assert p4[..3] == p3;
    assert p3[..2] == p2;
    assert p2[..1] == p1;
    assert p1[..0] == [];
    FailedRowsAll(p5, k);
    var ab := ["AAAA0001", "BBBB0002"];
    assert GroupCodes(p1) == ["AAAA0001"];
    InsertSecondCode();
    assert GroupCodes(p2) == ab;
    assert GroupCodes(p3) == ab;
    assert GroupCodes(p4) == ab;
  }

  lemma TwoProductsCounts()
    ensures Occurrences(TwoProductRows(), "AAAA0001", Test("T2")) == 3
    ensures Occurrences(TwoProductRows(), "BBBB0002", Test("T2")) == 2
  {
    var a, b := NgRow(Some("AAAA0001"), ["T2"]), NgRow(Some("BBBB0002"), ["T2"]);
    var k := Test("T2");
    var p1, p2, p3, p4, p5 := [a], [a, b], [a, b, a], [a, b, a, b], [a, b, a, b, a];
    assert p5[..4] == p4 && p4[..3] == p3 && p3[..2] == p2 && p2[..1] == p1 && p1[..0] == [];
    assert CountIn(["T2"], k) == 1;
    assert Occurrences(p1, "AAAA0001", k) == 1 && Occurrences(p1, "BBBB0002", k) == 0;
    assert Occurrences(p2, "AAAA0001", k) == 1 && Occurrences(p2, "BBBB0002", k) == 1;
    assert Occurrences(p3, "AAAA0001", k) == 2 && Occurrences(p3, "BBBB0002", k) == 1;
    assert Occurrences(p4, "AAAA0001", k) == 2 && Occurrences(p4, "BBBB0002", k) == 2;
  }

  /** When a single test is discovered, the report is that test's entry alone. */
  lemma SingleTestReport(ng: seq<NgRow>, k: Key)
    requires Discover(ng) == [k]
    ensures Report(ng) == [MakeEntry(ng, k)]
  {
    EntriesForShape(ng, [k]);
    var e := MakeEntry(ng, k);
    assert Entries(ng) == [e];
    assert [e][..0] == [];
    assert SortDesc([e]) == [e];
  }

  lemma TwoProductsEntry()
    ensures MakeEntry(TwoProductRows(), Test("T2")) ==
      Entry(Test("T2"), 5, [ProductCount("AAAA0001", 3), ProductCount("BBBB0002", 2)])
  {
    var ng := TwoProductRows();
    TwoProductsGroups();
    TwoProductsCounts();
    var ab := ["AAAA0001", "BBBB0002"];
    assert ab[..1] == ["AAAA0001"] && ab[..1][..0] == [];
    assert BreakdownOver(ab[..1], ng, Test("T2")) == [ProductCount("AAAA0001", 3)];
    assert Breakdown(ng, Test("T2")) == [ProductCount("AAAA0001", 3), ProductCount("BBBB0002", 2)];
  }

  /**
   * Two products failing "T2" on three and two units: one entry, total five,
   * broken down as three for the first code and two for the second.
   */
  lemma ScenarioTwoProducts()
    ensures Report(TwoProductRows()) ==
      [Entry(Test("T2"), 5, [ProductCount("AAAA0001", 3), ProductCount("BBBB0002", 2)])]
  {
    TwoProductsDiscover();
    SingleTestReport(TwoProductRows(), Test("T2"));
    TwoProductsEntry();
  }

  /** One NG row of product "ABCDEFGH" failing "T1" alone. */
  lemma OneRowReport()
    ensures Report([NgRow(Some("ABCDEFGH"), ["T1"])]) == [Entry(Test("T1"), 1, [ProductCount("ABCDEFGH", 1)])]
  {
    var ng := [NgRow(Some("ABCDEFGH"), ["T1"])];
    DiscoverSingle(ng, "T1");
    SingleTestReport(ng, Test("T1"));
    assert ng[..0] == [] && Cites(ng[0], Test("T1"));
    assert FailedRows(ng, Test("T1")) == ng;
    SingleCitingEntry(ng, "ABCDEFGH", "T1");
  }

  /** An NG row whose list is empty contributes the placeholder entry. */
  lemma ScenarioEmptyListPlaceholder()
    ensures Report([NgRow(Some("AAAA0001"), [])]) == [Entry(NoTest, 0, [])]
  {
    var ng := [NgRow(Some("AAAA0001"), [])];
    assert Explode(ng) == [NoTest];
    PlaceholderEntry(ng);
  }

  /** The per-product loop of app.py:64-67: one count per groupby code, codes ascending. */
  method CountProducts(failedProducts: seq<NgRow>, test: Key) returns (products: seq<ProductCount>)
    ensures products == Breakdown(failedProducts, test)
  {
    var groups := GroupCodes(failedProducts);
    products := [];
    for g := 0 to |groups|
      invariant products == BreakdownOver(groups[..g], failedProducts, test)
    {
      var failureCount := Occurrences(failedProducts, groups[g], test);
      assert groups[..g + 1][..g] == groups[..g];
      products := products + [ProductCount(groups[g], failureCount)];
    }
    assert groups[..|groups|] == groups;
  }

  /** One more pass of the loop over the discovered tests appends that test's entry. */
  lemma EntriesForStep(ng: seq<NgRow>, tests: seq<Key>, t: nat)
    requires t < |tests|
    ensures EntriesFor(ng, tests[..t + 1]) == EntriesFor(ng, tests[..t]) + [MakeEntry(ng, tests[t])]
  {
    assert tests[..t + 1][..t] == tests[..t];
  }

  /** Discovers, counts and ranks as app.py:60-75 do; None when the loop never runs. */
  method RankFailures(ng: seq<NgRow>) returns (top: Option<seq<Entry>>)
    ensures top.None? <==> ng == []
    ensures top.Some? ==> top.value == Report(ng)
  {
    var tests := Discover(ng);
    var testFailures: seq<Entry> := [];
    top := None;
    for t := 0 to |tests|
      invariant testFailures == EntriesFor(ng, tests[..t])
      invariant t == 0 ==> top.None?
      invariant t > 0 ==> top == Some(Take(SortDesc(testFailures), TopCount))
    {
      var test := tests[t];
      var failedProducts := FailedRows(ng, test);
      var products := CountProducts(failedProducts, test);
      var entry := Entry(test, |failedProducts|, products);
      assert entry == MakeEntry(ng, test);
      EntriesForStep(ng, tests, t);
      testFailures := testFailures + [entry];
      top := Some(Take(SortDesc(testFailures), TopCount));
    }
    assert testFailures == Entries(ng) by {
      assert tests[..|tests|] == tests;
    }
    DiscoverEmpty(ng);
  }
}
