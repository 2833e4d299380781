/** Aggregator and Ranker: the per-quotation price totals of one requirement
    and the winner levels written back from them (controller/quotation.go,
    CalculateWinnerLevelQuotation). The SQL query becomes `WinnerLevelQuery`,
    the loop of UPDATE statements becomes `Ranked`. */
module Ranking {
  import opened Models
  import opened Sorting

  /** One row of the aggregation query (`winnerLevelResult`). */
  datatype LevelRow = LevelRow(
    id: nat,
    providerId: nat,
    requirementId: nat,
    summation: real,
    suggestWinner: bool)

  /** The requirement line with primary key `id`, if there is one. */
  function FindRequire(rs: seq<Require>, id: nat): (r: Option<Require>)
    ensures r.Some? ==> r.value in rs && r.value.id == id
    ensures r.None? <==> forall k :: 0 <= k < |rs| ==> rs[k].id != id
  {
    if rs == [] then None
    else if rs[0].id == id then Some(rs[0])
    else FindRequire(rs[1..], id)
  }

  /** The rows of `quotation_details INNER JOIN requires` that belong to quotation `qid`,
      in detail order: a detail whose line no longer exists yields no row. */
  function JoinedLines(ds: seq<QuotationDetail>, rs: seq<Require>, qid: nat): (r: seq<(QuotationDetail, Require)>)
    ensures |r| <= |ds|
    ensures forall p :: p in r ==> p.0 in ds && p.0.quotationId == qid && p.1 in rs && p.1.id == p.0.requireId
  {
    if ds == [] then []
    else
      var rest := JoinedLines(ds[1..], rs, qid);
      var d := ds[0];
      match FindRequire(rs, d.requireId)
      case Some(line) => if d.quotationId == qid then [(d, line)] + rest else rest
      case None => rest
  }

  /** Σ unit_price × amount over joined rows. */
  function Total(lines: seq<(QuotationDetail, Require)>): real
  {
    if lines == [] then 0.0 else lines[0].0.unitPrice * lines[0].1.amount + Total(lines[1..])
  }

  /** `sum(quotation_details.unit_price * requires.amount)` of quotation `qid`. */
  function Summation(ds: seq<QuotationDetail>, rs: seq<Require>, qid: nat): real
  {
    Total(JoinedLines(ds, rs, qid))
  }

  /** A quotation forms a group of the aggregation query: it belongs to requirement
      `rid` and at least one of its details joins with a requirement line. */
  predicate Aggregated(q: Quotation, ds: seq<QuotationDetail>, rs: seq<Require>, rid: nat)
  {
    q.requirementId == rid && |JoinedLines(ds, rs, q.id)| > 0
  }

  function RowOf(q: Quotation, ds: seq<QuotationDetail>, rs: seq<Require>): LevelRow
  {
    LevelRow(q.id, q.providerId, q.requirementId, Summation(ds, rs, q.id), q.suggestWinner)
  }

  /** The groups of the aggregation query, in quotation-table order, before sorting. */
  function AggregateRows(qs: seq<Quotation>, ds: seq<QuotationDetail>, rs: seq<Require>, rid: nat): (r: seq<LevelRow>)
    ensures |r| <= |qs|
  {
    if qs == [] then []
    else
      var rest := AggregateRows(qs[1..], ds, rs, rid);
      if Aggregated(qs[0], ds, rs, rid) then [RowOf(qs[0], ds, rs)] + rest else rest
  }

  function SummationKey(row: LevelRow): real
  {
    row.summation
  }

  /** The aggregation query of quotation.go:285-292, ordered by ascending summation. */
  function WinnerLevelQuery(qs: seq<Quotation>, ds: seq<QuotationDetail>, rs: seq<Require>, rid: nat): (r: seq<LevelRow>)
    ensures |r| == |AggregateRows(qs, ds, rs, rid)|
    ensures multiset(r) == multiset(AggregateRows(qs, ds, rs, rid))
    ensures SortedBy(r, SummationKey)
  {
    SortBy(AggregateRows(qs, ds, rs, rid), SummationKey)
  }

  /** 1-based position of the first row with key `id`; 0 when no row has it. */
  function LevelOf(rows: seq<LevelRow>, id: nat): (l: nat)
    ensures l <= |rows|
    ensures l > 0 ==> rows[l - 1].id == id && forall k :: 0 <= k < l - 1 ==> rows[k].id != id
    ensures l == 0 <==> forall k :: 0 <= k < |rows| ==> rows[k].id != id
  {
    if rows == [] then 0
    else if rows[0].id == id then 1
    else
      var l := LevelOf(rows[1..], id);
      if l == 0 then 0 else l + 1
  }

  /** `UPDATE quotations SET winner_level = level WHERE id = id`. */
  function WithWinnerLevel(qs: seq<Quotation>, id: nat, level: nat): (r: seq<Quotation>)
    ensures |r| == |qs|
    ensures forall i :: 0 <= i < |qs| ==> r[i] == if qs[i].id == id then qs[i].(winnerLevel := level) else qs[i]
  {
    seq(|qs|, i requires 0 <= i < |qs| => if qs[i].id == id then qs[i].(winnerLevel := level) else qs[i])
  }

  /** The quotation table after the k-th result row has had winner_level k+1 written,
      for every row: a quotation without a row keeps its level, every other field is kept. */
  function Ranked(qs: seq<Quotation>, rows: seq<LevelRow>): (r: seq<Quotation>)
    ensures |r| == |qs|
    ensures forall i :: 0 <= i < |qs| ==> r[i] == qs[i].(winnerLevel := r[i].winnerLevel)
    ensures forall i :: 0 <= i < |qs| && LevelOf(rows, qs[i].id) == 0 ==> r[i] == qs[i]
  {
    seq(|qs|, i requires 0 <= i < |qs| =>
      var l := LevelOf(rows, qs[i].id);
      if l == 0 then qs[i] else qs[i].(winnerLevel := l))
  }

  ghost predicate DistinctRowIds(rows: seq<LevelRow>)
  {
    forall a, b :: 0 <= a < b < |rows| ==> rows[a].id != rows[b].id
  }

  // ---------------------------------------------------------------------
  // Aggregator
  // ---------------------------------------------------------------------

  /** The join finds every detail of the quotation whose line exists, with that line. */
  lemma {:induction false} JoinedLinesComplete(ds: seq<QuotationDetail>, rs: seq<Require>, qid: nat, d: QuotationDetail, line: Require)
    requires Distinct(RequireIds(rs))
    requires d in ds && d.quotationId == qid && line in rs && line.id == d.requireId
    ensures (d, line) in JoinedLines(ds, rs, qid)
  {
    var k :| 0 <= k < |rs| && rs[k] == line;
    assert rs[k].id == d.requireId;
    var f := FindRequire(rs, d.requireId);
    var m :| 0 <= m < |rs| && rs[m] == f.value;
    assert RequireIds(rs)[m] == RequireIds(rs)[k];
    if ds[0] != d {
      JoinedLinesComplete(ds[1..], rs, qid, d, line);
    }
  }

  lemma {:induction false} JoinedLinesAppend(ds1: seq<QuotationDetail>, ds2: seq<QuotationDetail>, rs: seq<Require>, qid: nat)
    ensures JoinedLines(ds1 + ds2, rs, qid) == JoinedLines(ds1, rs, qid) + JoinedLines(ds2, rs, qid)
  {
    if ds1 == [] {
      assert ds1 + ds2 == ds2;
    } else {
      assert (ds1 + ds2)[1..] == ds1[1..] + ds2;
      JoinedLinesAppend(ds1[1..], ds2, rs, qid);
    }
  }

  lemma {:induction false} TotalAppend(a: seq<(QuotationDetail, Require)>, b: seq<(QuotationDetail, Require)>)
    ensures Total(a + b) == Total(a) + Total(b)
  {
    if a == [] {
      assert a + b == b;
    } else {
      assert (a + b)[1..] == a[1..] + b;
      TotalAppend(a[1..], b);
    }
  }

  /** The summation is additive over the detail table: adding details adds their line totals. */
  lemma SummationAppend(ds1: seq<QuotationDetail>, ds2: seq<QuotationDetail>, rs: seq<Require>, qid: nat)
    ensures Summation(ds1 + ds2, rs, qid) == Summation(ds1, rs, qid) + Summation(ds2, rs, qid)
  {
    JoinedLinesAppend(ds1, ds2, rs, qid);
    TotalAppend(JoinedLines(ds1, rs, qid), JoinedLines(ds2, rs, qid));
  }

  /** Details of other quotations do not contribute. */
  lemma {:induction false} SummationOwnDetailsOnly(ds: seq<QuotationDetail>, rs: seq<Require>, qid: nat)
    requires forall k :: 0 <= k < |ds| ==> ds[k].quotationId != qid
    ensures JoinedLines(ds, rs, qid) == [] && Summation(ds, rs, qid) == 0.0
  {
    if ds != [] {
      SummationOwnDetailsOnly(ds[1..], rs, qid);
    }
  }

  lemma {:induction false} TotalNonNegative(lines: seq<(QuotationDetail, Require)>)
    requires forall p :: p in lines ==> p.0.unitPrice >= 0.0 && p.1.amount >= 0.0
    ensures Total(lines) >= 0.0
  {
    if lines != [] {
      assert lines[0] in lines;
      TotalNonNegative(lines[1..]);
    }
  }

  /** With non-negative prices and amounts, every summation is non-negative. */
  lemma SummationNonNegative(ds: seq<QuotationDetail>, rs: seq<Require>, qid: nat)
    requires forall d :: d in ds ==> d.unitPrice >= 0.0
    requires forall line :: line in rs ==> line.amount >= 0.0
    ensures Summation(ds, rs, qid) >= 0.0
  {
    TotalNonNegative(JoinedLines(ds, rs, qid));
  }

  /** Rows of the aggregation: one per aggregated quotation, carrying its summation. */
  lemma {:induction false} AggregateRowsSound(qs: seq<Quotation>, ds: seq<QuotationDetail>, rs: seq<Require>, rid: nat, row: LevelRow)
    returns (i: nat)
    requires row in AggregateRows(qs, ds, rs, rid)
    ensures i < |qs| && Aggregated(qs[i], ds, rs, rid) && row == RowOf(qs[i], ds, rs)
  {
    var rest := AggregateRows(qs[1..], ds, rs, rid);
    if Aggregated(qs[0], ds, rs, rid) && row == RowOf(qs[0], ds, rs) {
      i := 0;
    } else {
      assert row in rest;
      var j := AggregateRowsSound(qs[1..], ds, rs, rid, row);
      assert qs[j + 1] == qs[1..][j];
      i := j + 1;
    }
  }

  lemma {:induction false} AggregateRowsComplete(qs: seq<Quotation>, ds: seq<QuotationDetail>, rs: seq<Require>, rid: nat, i: nat)
    requires i < |qs| && Aggregated(qs[i], ds, rs, rid)
    ensures RowOf(qs[i], ds, rs) in AggregateRows(qs, ds, rs, rid)
  {
    if i > 0 {
      assert qs[1..][i - 1] == qs[i];
      AggregateRowsComplete(qs[1..], ds, rs, rid, i - 1);
    }
  }

  /** Keys of the aggregation rows are keys of the quotation table, and stay distinct. */
  lemma {:induction false} AggregateRowsDistinct(qs: seq<Quotation>, ds: seq<QuotationDetail>, rs: seq<Require>, rid: nat)
    requires Distinct(QuotationIds(qs))
    ensures DistinctRowIds(AggregateRows(qs, ds, rs, rid))
    ensures forall row :: row in AggregateRows(qs, ds, rs, rid) ==> row.id in QuotationIds(qs)
  {
    if qs != [] {
      var rest := AggregateRows(qs[1..], ds, rs, rid);
      assert Distinct(QuotationIds(qs[1..])) by {
        forall a, b | 0 <= a < |qs[1..]| && 0 <= b < |qs[1..]| && QuotationIds(qs[1..])[a] == QuotationIds(qs[1..])[b]
          ensures a == b
        {
          assert QuotationIds(qs)[a + 1] == QuotationIds(qs)[b + 1];
        }
      }
      AggregateRowsDistinct(qs[1..], ds, rs, rid);
      forall row | row in rest ensures row.id in QuotationIds(qs) && row.id != qs[0].id {
        var k :| 0 <= k < |qs[1..]| && QuotationIds(qs[1..])[k] == row.id;
        assert QuotationIds(qs)[k + 1] == row.id;
        assert QuotationIds(qs)[0] == qs[0].id;
      }
      if Aggregated(qs[0], ds, rs, rid) {
        var r := [RowOf(qs[0], ds, rs)] + rest;
        forall a, b | 0 <= a < b < |r| ensures r[a].id != r[b].id {
          if a > 0 {
            assert r[a] == rest[a - 1] && r[b] == rest[b - 1];
          } else {
            assert r[b] in rest;
          }
        }
        assert QuotationIds(qs)[0] == qs[0].id;
      }
    }
  }

  /** Every row of the sorted query is the aggregate of an aggregated quotation. */
  lemma QueryRowOrigin(qs: seq<Quotation>, ds: seq<QuotationDetail>, rs: seq<Require>, rid: nat, k: nat)
    returns (i: nat)
    requires k < |WinnerLevelQuery(qs, ds, rs, rid)|
    ensures i < |qs| && Aggregated(qs[i], ds, rs, rid) && WinnerLevelQuery(qs, ds, rs, rid)[k] == RowOf(qs[i], ds, rs)
  {
    var rows := WinnerLevelQuery(qs, ds, rs, rid);
    SameElements(rows, AggregateRows(qs, ds, rs, rid), rows[k]);
    i := AggregateRowsSound(qs, ds, rs, rid, rows[k]);
  }

  /** The sorted query rows have distinct keys. */
  lemma QueryRowsDistinct(qs: seq<Quotation>, ds: seq<QuotationDetail>, rs: seq<Require>, rid: nat)
    requires Distinct(QuotationIds(qs))
    ensures DistinctRowIds(WinnerLevelQuery(qs, ds, rs, rid))
  {
    var agg := AggregateRows(qs, ds, rs, rid);
    var rows := WinnerLevelQuery(qs, ds, rs, rid);
    AggregateRowsDistinct(qs, ds, rs, rid);
    assert DistinctValues(agg) by {
      forall a, b | 0 <= a < b < |agg| ensures agg[a] != agg[b] {
        assert agg[a].id != agg[b].id;
      }
    }
    SortDistinct(agg, SummationKey);
    forall a, b | 0 <= a < b < |rows| ensures rows[a].id != rows[b].id {
      var i := QueryRowOrigin(qs, ds, rs, rid, a);
      var j := QueryRowOrigin(qs, ds, rs, rid, b);
      assert rows[a] != rows[b];
      assert QuotationIds(qs)[i] == qs[i].id && QuotationIds(qs)[j] == qs[j].id;
    }
  }

  // ---------------------------------------------------------------------
  // Ranker
  // ---------------------------------------------------------------------

  /** With distinct keys, the level of the key at position k is k + 1. */
  lemma {:induction false} LevelAt(rows: seq<LevelRow>, k: nat)
    requires k < |rows| && DistinctRowIds(rows)
    ensures LevelOf(rows, rows[k].id) == k + 1
  {
  }

  /** An aggregated quotation gets the 1-based position of its row as level, and that row
      carries its summation. */
  lemma RankedLevel(qs: seq<Quotation>, ds: seq<QuotationDetail>, rs: seq<Require>, rid: nat, i: nat)
    requires Distinct(QuotationIds(qs)) && i < |qs| && Aggregated(qs[i], ds, rs, rid)
    ensures var rows := WinnerLevelQuery(qs, ds, rs, rid);
            var l := Ranked(qs, rows)[i].winnerLevel;
            && 1 <= l <= |rows|
            && rows[l - 1] == RowOf(qs[i], ds, rs)
            && rows[l - 1].summation == Summation(ds, rs, qs[i].id)
  {
    var rows := WinnerLevelQuery(qs, ds, rs, rid);
    AggregateRowsComplete(qs, ds, rs, rid, i);
    SameElements(rows, AggregateRows(qs, ds, rs, rid), RowOf(qs[i], ds, rs));
    var k :| 0 <= k < |rows| && rows[k] == RowOf(qs[i], ds, rs);
    QueryRowsDistinct(qs, ds, rs, rid);
    LevelAt(rows, k);
    assert Ranked(qs, rows)[i].winnerLevel == k + 1;
  }

  /** A quotation outside the aggregation (another requirement, or no detail joins a line)
      is left exactly as it was. */
  lemma RankedKeepsOthers(qs: seq<Quotation>, ds: seq<QuotationDetail>, rs: seq<Require>, rid: nat, i: nat)
    requires Distinct(QuotationIds(qs)) && i < |qs| && !Aggregated(qs[i], ds, rs, rid)
    ensures Ranked(qs, WinnerLevelQuery(qs, ds, rs, rid))[i] == qs[i]
  {
    var rows := WinnerLevelQuery(qs, ds, rs, rid);
    var l := LevelOf(rows, qs[i].id);
    if l > 0 {
      var j := QueryRowOrigin(qs, ds, rs, rid, l - 1);
      assert false;
    }
  }

  /** No two quotations share a level. */
  lemma RankedLevelsDistinct(qs: seq<Quotation>, ds: seq<QuotationDetail>, rs: seq<Require>, rid: nat, i: nat, j: nat)
    requires Distinct(QuotationIds(qs)) && i < |qs| && j < |qs| && i != j
    requires Aggregated(qs[i], ds, rs, rid) && Aggregated(qs[j], ds, rs, rid)
    ensures var r := Ranked(qs, WinnerLevelQuery(qs, ds, rs, rid)); r[i].winnerLevel != r[j].winnerLevel
  {
    RankedLevel(qs, ds, rs, rid, i);
    RankedLevel(qs, ds, rs, rid, j);
    assert QuotationIds(qs)[i] != QuotationIds(qs)[j];
  }

  /** Every level 1..n, n the number of aggregated quotations, is held by one of them. */
  lemma RankedLevelsOnto(qs: seq<Quotation>, ds: seq<QuotationDetail>, rs: seq<Require>, rid: nat, level: nat)
    returns (i: nat)
    requires Distinct(QuotationIds(qs))
    requires 1 <= level <= |WinnerLevelQuery(qs, ds, rs, rid)|
    ensures i < |qs| && Aggregated(qs[i], ds, rs, rid)
            && Ranked(qs, WinnerLevelQuery(qs, ds, rs, rid))[i].winnerLevel == level
  {
    var rows := WinnerLevelQuery(qs, ds, rs, rid);
    QueryRowsDistinct(qs, ds, rs, rid);
    i := QueryRowOrigin(qs, ds, rs, rid, level - 1);
    var l := LevelOf(rows, qs[i].id);
    assert l == level;
    assert Ranked(qs, rows)[i].winnerLevel == level;
  }

  /** A strictly cheaper quotation gets a strictly lower level; a lower level never has a
      larger summation. */
  lemma RankedRespectsSummation(qs: seq<Quotation>, ds: seq<QuotationDetail>, rs: seq<Require>, rid: nat, i: nat, j: nat)
    requires Distinct(QuotationIds(qs)) && i < |qs| && j < |qs|
    requires Aggregated(qs[i], ds, rs, rid) && Aggregated(qs[j], ds, rs, rid)
    ensures var r := Ranked(qs, WinnerLevelQuery(qs, ds, rs, rid));
            && (Summation(ds, rs, qs[i].id) < Summation(ds, rs, qs[j].id) ==> r[i].winnerLevel < r[j].winnerLevel)
            && (r[i].winnerLevel < r[j].winnerLevel ==> Summation(ds, rs, qs[i].id) <= Summation(ds, rs, qs[j].id))
  {
    var rows := WinnerLevelQuery(qs, ds, rs, rid);
    RankedLevel(qs, ds, rs, rid, i);
    RankedLevel(qs, ds, rs, rid, j);
    var r := Ranked(qs, rows);
    SortedPositions(rows, r[i].winnerLevel - 1, r[j].winnerLevel - 1);
  }

  lemma SortedPositions(rows: seq<LevelRow>, a: nat, b: nat)
    requires SortedBy(rows, SummationKey) && a < |rows| && b < |rows|
    ensures rows[a].summation < rows[b].summation ==> a < b
    ensures a < b ==> rows[a].summation <= rows[b].summation
  {
    if a < b {
      assert SummationKey(rows[a]) <= SummationKey(rows[b]);
    } else if b < a {
      assert SummationKey(rows[b]) <= SummationKey(rows[a]);
    }
  }

  /** Non-aggregated quotations do not affect the query. */
  lemma {:induction false} AggregateIgnoresLevels(qs: seq<Quotation>, qs': seq<Quotation>, ds: seq<QuotationDetail>, rs: seq<Require>, rid: nat)
    requires |qs| == |qs'|
    requires forall i :: 0 <= i < |qs| ==> qs'[i] == qs[i].(winnerLevel := qs'[i].winnerLevel)
    ensures AggregateRows(qs', ds, rs, rid) == AggregateRows(qs, ds, rs, rid)
  {
    if qs != [] {
      AggregateIgnoresLevels(qs[1..], qs'[1..], ds, rs, rid);
      assert qs'[0] == qs[0].(winnerLevel := qs'[0].winnerLevel);
    }
  }

  /** Re-ranking with no data change in between writes the same levels again. */
  lemma RerankIdempotent(qs: seq<Quotation>, ds: seq<QuotationDetail>, rs: seq<Require>, rid: nat)
    ensures var once := Ranked(qs, WinnerLevelQuery(qs, ds, rs, rid));
            WinnerLevelQuery(once, ds, rs, rid) == WinnerLevelQuery(qs, ds, rs, rid)
            && Ranked(once, WinnerLevelQuery(once, ds, rs, rid)) == once
  {
    var rows := WinnerLevelQuery(qs, ds, rs, rid);
    var once := Ranked(qs, rows);
    AggregateIgnoresLevels(qs, once, ds, rs, rid);
    var twice := Ranked(once, rows);
    forall i | 0 <= i < |qs| ensures twice[i] == once[i] {
      assert once[i].id == qs[i].id;
    }
  }

  /** Extending the result list by one row moves only the quotations with that row's key. */
  lemma {:induction false} LevelOfExtend(rows: seq<LevelRow>, row: LevelRow, id: nat)
    ensures LevelOf(rows + [row], id) ==
      if LevelOf(rows, id) > 0 then LevelOf(rows, id) else if row.id == id then |rows| + 1 else 0
  {
    if rows != [] {
      assert (rows + [row])[1..] == rows[1..] + [row];
      LevelOfExtend(rows[1..], row, id);
    }
  }

  /** One pass of the update loop: writing level k+1 for the k-th row. */
  lemma RankedStep(qs: seq<Quotation>, rows: seq<LevelRow>, k: nat)
    requires k < |rows| && DistinctRowIds(rows)
    ensures Ranked(qs, rows[..k + 1]) == WithWinnerLevel(Ranked(qs, rows[..k]), rows[k].id, k + 1)
  {
    assert rows[..k + 1] == rows[..k] + [rows[k]];
    var a := Ranked(qs, rows[..k + 1]);
    var b := WithWinnerLevel(Ranked(qs, rows[..k]), rows[k].id, k + 1);
    forall i | 0 <= i < |qs| ensures a[i] == b[i] {
      LevelOfExtend(rows[..k], rows[k], qs[i].id);
      if qs[i].id == rows[k].id {
        assert LevelOf(rows[..k], qs[i].id) == 0 by {
          forall m | 0 <= m < k ensures rows[..k][m].id != qs[i].id {
            assert rows[m].id != rows[k].id;
          }
        }
      }
    }
  }

  // ---------------------------------------------------------------------
  // A worked example: two lines (amounts 10 and 5), provider A quotes (3, 4),
  // provider B quotes (2, 5). A totals 50, B totals 45; B ranks first.
  // ---------------------------------------------------------------------

  function ExampleLines(): seq<Require>
  {
    [Require(1, 10.0, "u", 0.0, "", 1, 7), Require(2, 5.0, "u", 0.0, "", 2, 7)]
  }

  function ExampleQuotations(): seq<Quotation>
  {
    [Quotation(1, 0, false, 0, false, 0, "", 100, 1, 7), Quotation(2, 0, false, 0, false, 0, "", 200, 1, 7)]
  }

  function ExampleDetails(): seq<QuotationDetail>
  {
    [QuotationDetail(1, 3.0, 1, 1, 0, 0), QuotationDetail(2, 4.0, 2, 1, 0, 0),
     QuotationDetail(3, 2.0, 1, 2, 0, 0), QuotationDetail(4, 5.0, 2, 2, 0, 0)]
  }

  lemma ExampleJoins()
    ensures JoinedLines(ExampleDetails(), ExampleLines(), 1) == [(ExampleDetails()[0], ExampleLines()[0]), (ExampleDetails()[1], ExampleLines()[1])]
    ensures JoinedLines(ExampleDetails(), ExampleLines(), 2) == [(ExampleDetails()[2], ExampleLines()[0]), (ExampleDetails()[3], ExampleLines()[1])]
  {
    var rs, ds := ExampleLines(), ExampleDetails();
    assert FindRequire(rs, 1) == Some(rs[0]);
    assert FindRequire(rs, 2) == Some(rs[1]);
    assert ds[1..][1..] == ds[2..];
    assert ds[2..][1..] == [ds[3]];
    assert [ds[3]][1..] == [];
    SummationOwnDetailsOnly(ds[2..], rs, 1);
  }

  lemma ExampleSummations()
    ensures Summation(ExampleDetails(), ExampleLines(), 1) == 50.0
    ensures Summation(ExampleDetails(), ExampleLines(), 2) == 45.0
  {
    var ds, rs := ExampleDetails(), ExampleLines();
    ExampleJoins();
    var a, b := [(ds[0], rs[0]), (ds[1], rs[1])], [(ds[2], rs[0]), (ds[3], rs[1])];
    assert Total(a) == 50.0 by {
      assert a[1..] == [(ds[1], rs[1])] && a[1..][1..] == [];
    }
    assert Total(b) == 45.0 by {
      assert b[1..] == [(ds[3], rs[1])] && b[1..][1..] == [];
    }
  }

  lemma ExampleAggregate()
    ensures AggregateRows(ExampleQuotations(), ExampleDetails(), ExampleLines(), 7)
            == [LevelRow(1, 100, 7, 50.0, false), LevelRow(2, 200, 7, 45.0, false)]
  {
    var qs, ds, rs := ExampleQuotations(), ExampleDetails(), ExampleLines();
    assert Aggregated(qs[0], ds, rs, 7) && Aggregated(qs[1], ds, rs, 7) by {
      ExampleJoins();
    }
    assert RowOf(qs[0], ds, rs) == LevelRow(1, 100, 7, 50.0, false)
        && RowOf(qs[1], ds, rs) == LevelRow(2, 200, 7, 45.0, false) by {
      ExampleSummations();
    }
    assert AggregateRows(qs[1..], ds, rs, 7) == [RowOf(qs[1], ds, rs)] by {
      assert qs[1..][0] == qs[1] && qs[1..][1..] == [];
    }
  }

  /** Ordering the example's two rows puts the cheaper one first. */
  lemma ExampleOrder(rowA: LevelRow, rowB: LevelRow)
    requires rowB.summation < rowA.summation
    ensures SortBy([rowA, rowB], SummationKey) == [rowB, rowA]
  {
    assert SortBy([rowB], SummationKey) == [rowB] by {
      assert [rowB][1..] == [];
      assert Insert(rowB, [], SummationKey) == [rowB];
    }
    assert Insert(rowA, [rowB], SummationKey) == [rowB, rowA] by {
      assert [rowB][1..] == [];
      assert Insert(rowA, [], SummationKey) == [rowA];
    }
    assert [rowA, rowB][1..] == [rowB];
  }

  lemma ExampleQuery()
    ensures WinnerLevelQuery(ExampleQuotations(), ExampleDetails(), ExampleLines(), 7)
            == [LevelRow(2, 200, 7, 45.0, false), LevelRow(1, 100, 7, 50.0, false)]
  {
    ExampleAggregate();
    ExampleOrder(LevelRow(1, 100, 7, 50.0, false), LevelRow(2, 200, 7, 45.0, false));
  }

  /** The worked example ranks B (total 45) first and A (total 50) second. */
  lemma ExampleRanking()
    ensures Ranked(ExampleQuotations(), WinnerLevelQuery(ExampleQuotations(), ExampleDetails(), ExampleLines(), 7))
            == [ExampleQuotations()[0].(winnerLevel := 2), ExampleQuotations()[1].(winnerLevel := 1)]
  {
    var rows := [LevelRow(2, 200, 7, 45.0, false), LevelRow(1, 100, 7, 50.0, false)];
    ExampleQuery();
    assert LevelOf(rows, 1) == 2 by {
      assert rows[1..] == [rows[1]];
    }
    assert LevelOf(rows, 2) == 1;
  }
}
