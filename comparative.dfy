/** The comparative table of ComparativeTable (controller/quotation.go): the requirement's
    lines, every offered price of its quotations in rank order, and each price's block
    number ("sequence") computed by the counting loop. */
module Comparative {
  import opened Models
  import opened Sorting

  datatype CtRequire = CtRequire(id: nat, amount: real, name: string, unitMeasure: string, observation: string)

  datatype CtQuotation = CtQuotation(quotationId: nat, unitPrice: real, sequence: nat)

  datatype CtProvider = CtProvider(name: string, manager: string, deliverDate: nat)

  // ----- the three queries -----

  /** The lines of requirement `rid` joined with their product, in key order. The query
      does not select the observation column, so it stays empty. */
  function RequireRows(lines: seq<Require>, products: seq<Product>, rid: nat): seq<CtRequire>
  {
    if lines == [] then []
    else
      var rest := RequireRows(lines[1..], products, rid);
      var line := lines[0];
      match FindProduct(products, line.productId)
      case Some(p) =>
        if line.requirementId == rid then [CtRequire(line.id, line.amount, p.name, line.unitMeasure, "")] + rest else rest
      case None => rest
  }

  /** Every requirement row comes from a line of `rid` whose product exists. */
  lemma {:induction false} RequireRowOrigin(lines: seq<Require>, products: seq<Product>, rid: nat, j: nat)
    returns (k: nat)
    requires j < |RequireRows(lines, products, rid)|
    ensures k < |lines| && lines[k].requirementId == rid && FindProduct(products, lines[k].productId).Some?
    ensures RequireRows(lines, products, rid)[j] ==
      CtRequire(lines[k].id, lines[k].amount, FindProduct(products, lines[k].productId).value.name, lines[k].unitMeasure, "")
  {
    var rest := RequireRows(lines[1..], products, rid);
    var line := lines[0];
    if FindProduct(products, line.productId).Some? && line.requirementId == rid {
      if j == 0 {
        k := 0;
      } else {
        var m := RequireRowOrigin(lines[1..], products, rid, j - 1);
        k := m + 1;
      }
    } else {
      var m := RequireRowOrigin(lines[1..], products, rid, j);
      k := m + 1;
    }
  }

  /** Keys increase along the table, so the rows come out in ascending key order
      (`ORDER BY requires.id ASC`). */
  lemma {:induction false} RequireRowsAscending(lines: seq<Require>, products: seq<Product>, rid: nat, a: nat, b: nat)
    requires forall i, j :: 0 <= i < j < |lines| ==> lines[i].id < lines[j].id
    requires a < b < |RequireRows(lines, products, rid)|
    ensures RequireRows(lines, products, rid)[a].id < RequireRows(lines, products, rid)[b].id
  {
    var ka := RequireRowOrigin(lines, products, rid, a);
    var kb := RequireRowOrigin(lines, products, rid, b);
    var rest := RequireRows(lines[1..], products, rid);
    var line := lines[0];
    if FindProduct(products, line.productId).Some? && line.requirementId == rid {
      if a == 0 {
        var m := RequireRowOrigin(lines[1..], products, rid, b - 1);
        assert lines[1..][m] == lines[m + 1];
      } else {
        RequireRowsAscending(lines[1..], products, rid, a - 1, b - 1);
      }
    } else {
      RequireRowsAscending(lines[1..], products, rid, a, b);
    }
  }

  /** Every line of `rid` whose product exists yields a row (the inner join drops nothing else). */
  lemma {:induction false} RequireRowsComplete(lines: seq<Require>, products: seq<Product>, rid: nat, k: nat)
    requires k < |lines| && lines[k].requirementId == rid && FindProduct(products, lines[k].productId).Some?
    ensures CtRequire(lines[k].id, lines[k].amount, FindProduct(products, lines[k].productId).value.name,
                      lines[k].unitMeasure, "") in RequireRows(lines, products, rid)
  {
    if k > 0 {
      assert lines[1..][k - 1] == lines[k];
      RequireRowsComplete(lines[1..], products, rid, k - 1);
    }
  }

  /** The quotations of `rid` whose provider exists (the inner join with providers). */
  function QuotationsOf(qs: seq<Quotation>, providers: seq<Provider>, rid: nat): (r: seq<Quotation>)
    ensures forall q :: q in r ==> q in qs && q.requirementId == rid && FindProvider(providers, q.providerId).Some?
  {
    if qs == [] then []
    else
      var rest := QuotationsOf(qs[1..], providers, rid);
      if qs[0].requirementId == rid && FindProvider(providers, qs[0].providerId).Some? then [qs[0]] + rest else rest
  }

  /** Every quotation of `rid` whose provider exists is kept by the join. */
  lemma {:induction false} QuotationsOfComplete(qs: seq<Quotation>, providers: seq<Provider>, rid: nat, k: nat)
    requires k < |qs| && qs[k].requirementId == rid && FindProvider(providers, qs[k].providerId).Some?
    ensures qs[k] in QuotationsOf(qs, providers, rid)
  {
    if k > 0 {
      assert qs[1..][k - 1] == qs[k];
      QuotationsOfComplete(qs[1..], providers, rid, k - 1);
    }
  }

  function LevelKey(q: Quotation): real
  {
    q.winnerLevel as real
  }

  /** The joined quotations ordered by ascending winner level. */
  function RankedQuotations(qs: seq<Quotation>, providers: seq<Provider>, rid: nat): (r: seq<Quotation>)
    ensures SortedBy(r, LevelKey)
    ensures multiset(r) == multiset(QuotationsOf(qs, providers, rid))
  {
    SortBy(QuotationsOf(qs, providers, rid), LevelKey)
  }

  /** The ranked list holds exactly the quotations of `rid` whose provider exists. */
  lemma RankedQuotationsMembers(qs: seq<Quotation>, providers: seq<Provider>, rid: nat, q: Quotation)
    ensures q in RankedQuotations(qs, providers, rid) <==>
            q in qs && q.requirementId == rid && FindProvider(providers, q.providerId).Some?
  {
    SameElements(RankedQuotations(qs, providers, rid), QuotationsOf(qs, providers, rid), q);
    if q in qs && q.requirementId == rid && FindProvider(providers, q.providerId).Some? {
      var k :| 0 <= k < |qs| && qs[k] == q;
      QuotationsOfComplete(qs, providers, rid, k);
    }
  }

  /** The prices quotation `qid` offers, one row per detail, in table order. */
  function DetailPrices(ds: seq<QuotationDetail>, qid: nat): (r: seq<CtQuotation>)
    ensures forall k :: 0 <= k < |r| ==> r[k].quotationId == qid && r[k].sequence == 0
  {
    if ds == [] then []
    else
      var rest := DetailPrices(ds[1..], qid);
      if ds[0].quotationId == qid then [CtQuotation(qid, ds[0].unitPrice, 0)] + rest else rest
  }

  /** Every price row is the unit price of a detail of `qid`. */
  lemma {:induction false} DetailPriceOrigin(ds: seq<QuotationDetail>, qid: nat, j: nat) returns (k: nat)
    requires j < |DetailPrices(ds, qid)|
    ensures k < |ds| && ds[k].quotationId == qid && DetailPrices(ds, qid)[j] == CtQuotation(qid, ds[k].unitPrice, 0)
  {
    if ds[0].quotationId == qid && j == 0 {
      k := 0;
    } else {
      var m := DetailPriceOrigin(ds[1..], qid, if ds[0].quotationId == qid then j - 1 else j);
      k := m + 1;
    }
  }

  /** Every detail of `qid` yields a price row. */
  lemma {:induction false} DetailPriceComplete(ds: seq<QuotationDetail>, qid: nat, k: nat)
    requires k < |ds| && ds[k].quotationId == qid
    ensures CtQuotation(qid, ds[k].unitPrice, 0) in DetailPrices(ds, qid)
  {
    if k > 0 {
      assert ds[1..][k - 1] == ds[k];
      DetailPriceComplete(ds[1..], qid, k - 1);
    }
  }

  /** The price rows of the ranked quotations, quotation after quotation. */
  function PriceRows(ranked: seq<Quotation>, ds: seq<QuotationDetail>): seq<CtQuotation>
  {
    if ranked == [] then [] else DetailPrices(ds, ranked[0].id) + PriceRows(ranked[1..], ds)
  }

  /** Every price row is a row of some ranked quotation's prices. */
  lemma {:induction false} PriceRowOrigin(ranked: seq<Quotation>, ds: seq<QuotationDetail>, i: nat)
    returns (p: nat, j: nat)
    requires i < |PriceRows(ranked, ds)|
    ensures p < |ranked| && j < |DetailPrices(ds, ranked[p].id)|
    ensures PriceRows(ranked, ds)[i] == DetailPrices(ds, ranked[p].id)[j]
  {
    var head := DetailPrices(ds, ranked[0].id);
    if i < |head| {
      p, j := 0, i;
    } else {
      var p' := 0;
      p', j := PriceRowOrigin(ranked[1..], ds, i - |head|);
      p := p' + 1;
    }
  }

  /** Every price row of every ranked quotation is in the list. */
  lemma {:induction false} PriceRowsComplete(ranked: seq<Quotation>, ds: seq<QuotationDetail>, p: nat, j: nat)
    requires p < |ranked| && j < |DetailPrices(ds, ranked[p].id)|
    ensures DetailPrices(ds, ranked[p].id)[j] in PriceRows(ranked, ds)
  {
    if p > 0 {
      assert ranked[1..][p - 1] == ranked[p];
      PriceRowsComplete(ranked[1..], ds, p - 1, j);
    }
  }

  /** One provider row per ranked quotation: provider name and manager, delivery date. */
  function ProviderRows(ranked: seq<Quotation>, providers: seq<Provider>): (r: seq<CtProvider>)
    ensures |r| == |ranked|
    ensures forall i :: 0 <= i < |ranked| && FindProvider(providers, ranked[i].providerId).Some? ==>
              r[i] == CtProvider(FindProvider(providers, ranked[i].providerId).value.name,
                                 FindProvider(providers, ranked[i].providerId).value.manager,
                                 ranked[i].deliverDate)
  {
    seq(|ranked|, i requires 0 <= i < |ranked| =>
      match FindProvider(providers, ranked[i].providerId)
      case Some(p) => CtProvider(p.name, p.manager, ranked[i].deliverDate)
      case None => CtProvider("", "", ranked[i].deliverDate))
  }

  /** For the ranked quotations, row i names ranked[i]'s provider (which always exists) and
      ranked[i]'s delivery date. */
  lemma ProviderRowsOfRanked(qs: seq<Quotation>, providers: seq<Provider>, rid: nat, i: nat)
    requires i < |RankedQuotations(qs, providers, rid)|
    ensures var ranked := RankedQuotations(qs, providers, rid);
            var p := FindProvider(providers, ranked[i].providerId);
            && p.Some? && p.value.id == ranked[i].providerId
            && ProviderRows(ranked, providers)[i] == CtProvider(p.value.name, p.value.manager, ranked[i].deliverDate)
  {
    var ranked := RankedQuotations(qs, providers, rid);
    RankedQuotationsMembers(qs, providers, rid, ranked[i]);
  }

  // ----- the sequencing loop -----

  /** The block number the loop gives entry `i` when blocks are `width` entries wide. With
      width 0 the loop's boundary test succeeds on every entry, so numbering starts at 2. */
  function SequenceOf(i: nat, width: nat): nat
  {
    if width == 0 then i + 2 else i / width + 1
  }

  function Sequenced(rows: seq<CtQuotation>, width: nat): (r: seq<CtQuotation>)
    ensures |r| == |rows|
  {
    seq(|rows|, i requires 0 <= i < |rows| => rows[i].(sequence := SequenceOf(i, width)))
  }

  lemma DivBlock(i: nat, width: nat, q: nat)
    requires width > 0 && width * q <= i < width * (q + 1)
    ensures i / width == q
  {
    var d, m := i / width, i % width;
    assert i == width * d + m && 0 <= m < width;
    if d < q {
      MulMono(width, d + 1, q);
      assert false;
    } else if d > q {
      MulMono(width, q + 1, d);
      assert false;
    }
  }

  lemma {:induction false} MulMono(w: nat, x: int, y: int)
    requires x <= y
    ensures w * x <= w * y
    decreases y - x
  {
    if x < y {
      MulMono(w, x, y - 1);
      assert w * y == w * (y - 1) + w;
    }
  }

  lemma DivShift(i: nat, width: nat)
    requires 0 < width <= i
    ensures i / width == (i - width) / width + 1
  {
    DivBlock(i, width, (i - width) / width + 1);
  }

  lemma ModShiftWidth(i: nat, width: nat)
    requires 0 < width <= i
    ensures i % width == (i - width) % width
  {
    DivShift(i, width);
    var q := (i - width) / width;
    assert i == width * (i / width) + i % width;
    assert i - width == width * q + (i - width) % width;
    assert width * (q + 1) == width * q + width;
  }

  /** Labels the rows in place, as the loop over the comparative price list does. */
  method AssignSequences(a: array<CtQuotation>, width: nat)
    modifies a
    ensures a[..] == Sequenced(old(a[..]), width)
  {
    var sequence := 1;
    var separate := width;
    var i := 0;
    while i < a.Length
      invariant 0 <= i <= a.Length
      invariant sequence == if i == 0 then 1 else SequenceOf(i - 1, width)
      invariant separate == width * sequence
      invariant forall k :: 0 <= k < i ==> a[k] == old(a[k]).(sequence := SequenceOf(k, width))
      invariant forall k :: i <= k < a.Length ==> a[k] == old(a[k])
    {
      if width > 0 && i > 0 {
        DivBlock(i - 1, width, sequence - 1);
        if i >= separate {
          DivBlock(i, width, sequence);
        } else {
          DivBlock(i, width, sequence - 1);
        }
      }
      if i >= separate {
        sequence := sequence + 1;
        separate := width * sequence;
      }
      a[i] := a[i].(sequence := sequence);
      i := i + 1;
    }
  }

  // ----- properties of the numbering -----

  /** Sequences start at 1 and never decrease along the list. */
  lemma SequenceMonotone(i: nat, j: nat, width: nat)
    requires i <= j
    ensures SequenceOf(i, width) <= SequenceOf(j, width)
    ensures width > 0 ==> SequenceOf(0, width) == 1
  {
    if width > 0 {
      var a, b := i / width, j / width;
      assert i == width * a + i % width && 0 <= i % width < width;
      assert j == width * b + j % width && 0 <= j % width < width;
      if a > b {
        MulMono(width, b + 1, a);
        assert false;
      }
      DivBlock(0, width, 0);
    }

  }

  /** Entry `i` is in block `b` exactly when it lies in the b-th run of `width` entries. */
  lemma SequenceBlocks(i: nat, width: nat, b: nat)
    requires width > 0
    ensures SequenceOf(i, width) == b + 1 <==> width * b <= i < width * (b + 1)
  {
    if width * b <= i < width * (b + 1) {
      DivBlock(i, width, b);
    }
  }

  lemma {:induction false} PriceRowsLength(ranked: seq<Quotation>, ds: seq<QuotationDetail>, width: nat)
    requires forall k :: 0 <= k < |ranked| ==> |DetailPrices(ds, ranked[k].id)| == width
    ensures |PriceRows(ranked, ds)| == width * |ranked|
  {
    if ranked != [] {
      PriceRowsLength(ranked[1..], ds, width);
    }
  }

  /** When every ranked quotation prices exactly `width` lines, price row `i` belongs to the
      quotation at rank position `i / width`. */
  lemma {:induction false} PriceRowOwner(ranked: seq<Quotation>, ds: seq<QuotationDetail>, width: nat, i: nat)
    requires width > 0
    requires forall k :: 0 <= k < |ranked| ==> |DetailPrices(ds, ranked[k].id)| == width
    requires i < |PriceRows(ranked, ds)|
    ensures i / width < |ranked| && i % width < |DetailPrices(ds, ranked[i / width].id)|
    ensures PriceRows(ranked, ds)[i] == DetailPrices(ds, ranked[i / width].id)[i % width]
    ensures PriceRows(ranked, ds)[i].quotationId == ranked[i / width].id
  {
    var head, tail := DetailPrices(ds, ranked[0].id), ranked[1..];
    assert PriceRows(ranked, ds) == head + PriceRows(tail, ds);
    if i < width {
      DivBlock(i, width, 0);
      assert i == width * 0 + i % width;
      assert PriceRows(ranked, ds)[i] == head[i];
    } else {
      var i' := i - width;
      assert forall k :: 0 <= k < |tail| ==> DetailPrices(ds, tail[k].id) == DetailPrices(ds, ranked[k + 1].id);
      PriceRowOwner(tail, ds, width, i');
      DivShift(i, width);
      ModShiftWidth(i, width);
      assert tail[i' / width] == ranked[i / width];
      assert PriceRows(ranked, ds)[i] == PriceRows(tail, ds)[i'];
    }
  }

  /** The intent of the numbering: when every quotation prices every line of the
      requirement, the sequence of a price row is the 1-based rank position of the
      quotation offering it, so sequences run over 1 .. number of quotations. */
  lemma SequenceIsRankPosition(ranked: seq<Quotation>, ds: seq<QuotationDetail>, width: nat, i: nat)
    requires width > 0
    requires forall k :: 0 <= k < |ranked| ==> |DetailPrices(ds, ranked[k].id)| == width
    requires i < |PriceRows(ranked, ds)|
    ensures var row := Sequenced(PriceRows(ranked, ds), width)[i];
            1 <= row.sequence <= |ranked| && ranked[row.sequence - 1].id == row.quotationId
  {
    PriceRowOwner(ranked, ds, width, i);
  }
}
