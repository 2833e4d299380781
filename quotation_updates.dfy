/** The statements controller/quotation.go issues against the quotations and
    quotation_details tables, each as a function from the old table to the new one. */
module QuotationUpdates {
  import opened Models

  // ----- winner selection -----

  /** The automatic winner calculation is a stub: it always yields 0. */
  function CalculateWinnerByQuotation(rid: nat): nat
  {
    0
  }

  /** The id that winner selection marks, in the order controller/quotation.go:326-330
      computes it: the automatic calculation runs when the request names no quotation,
      and its result is then overwritten by the request's id. */
  function ChosenWinner(requestId: nat, rid: nat): (w: nat)
    ensures w == requestId
  {
    var automatic := if requestId == 0 then CalculateWinnerByQuotation(rid) else 0;
    var winner := requestId;
    winner
  }

  /** `UPDATE quotations SET winner = false WHERE requirement_id = rid`. */
  function ClearWinners(qs: seq<Quotation>, rid: nat): (r: seq<Quotation>)
    ensures |r| == |qs|
  {
    seq(|qs|, i requires 0 <= i < |qs| => if qs[i].requirementId == rid then qs[i].(winner := false) else qs[i])
  }

  /** `UpdateColumn("winner", true)` through a quotation value with key `key`. */
  function MarkWinner(qs: seq<Quotation>, key: nat): (r: seq<Quotation>)
    ensures |r| == |qs|
  {
    seq(|qs|, i requires 0 <= i < |qs| => if KeyHit(key, qs[i].id) then qs[i].(winner := true) else qs[i])
  }

  /** Both winner statements of SetWinnerQuotation, in order. */
  function Selected(qs: seq<Quotation>, rid: nat, key: nat): seq<Quotation>
  {
    MarkWinner(ClearWinners(qs, rid), key)
  }

  /** At most one quotation of requirement `rid` is the winner. */
  ghost predicate SingleWinner(qs: seq<Quotation>, rid: nat)
  {
    forall i, j ::
      (0 <= i < |qs| && 0 <= j < |qs| && qs[i].requirementId == rid && qs[j].requirementId == rid
       && qs[i].winner && qs[j].winner) ==> i == j
  }

  /** Selection rewrites only the winner flag: a quotation is a winner afterwards exactly
      when the key reaches it, or when it was one before and belongs to another requirement. */
  lemma SelectionOutcome(qs: seq<Quotation>, rid: nat, key: nat, i: nat)
    requires i < |qs|
    ensures |Selected(qs, rid, key)| == |qs|
    ensures Selected(qs, rid, key)[i] == qs[i].(winner := Selected(qs, rid, key)[i].winner)
    ensures Selected(qs, rid, key)[i].winner == (KeyHit(key, qs[i].id) || (qs[i].requirementId != rid && qs[i].winner))
  {
    assert ClearWinners(qs, rid)[i].id == qs[i].id;
  }

  /** Success case: when the chosen quotation belongs to the requirement, it is that
      requirement's only winner afterwards. */
  lemma WinnerChosen(qs: seq<Quotation>, rid: nat, k: nat)
    requires Distinct(QuotationIds(qs)) && k < |qs| && qs[k].id != 0 && qs[k].requirementId == rid
    ensures forall i :: 0 <= i < |qs| && qs[i].requirementId == rid ==> (Selected(qs, rid, qs[k].id)[i].winner <==> i == k)
    ensures SingleWinner(Selected(qs, rid, qs[k].id), rid)
  {
    var after := Selected(qs, rid, qs[k].id);
    forall i | 0 <= i < |qs| && qs[i].requirementId == rid
      ensures after[i].winner <==> i == k
    {
      SelectionOutcome(qs, rid, qs[k].id, i);
      assert QuotationIds(qs)[i] == qs[i].id && QuotationIds(qs)[k] == qs[k].id;
    }
    forall i, j | 0 <= i < |qs| && 0 <= j < |qs| && after[i].requirementId == rid && after[j].requirementId == rid
      && after[i].winner && after[j].winner
      ensures i == j
    {
      SelectionOutcome(qs, rid, qs[k].id, i);
      SelectionOutcome(qs, rid, qs[k].id, j);
      assert QuotationIds(qs)[i] == qs[i].id && QuotationIds(qs)[j] == qs[j].id && QuotationIds(qs)[k] == qs[k].id;
    }
  }

  /** When the chosen id is positive and names no quotation of another requirement,
      selection keeps "at most one winner" for every requirement. */
  lemma SelectionKeepsSingleWinner(qs: seq<Quotation>, rid: nat, w: nat, other: nat)
    requires Distinct(QuotationIds(qs)) && w != 0
    requires forall i :: 0 <= i < |qs| && qs[i].id == w ==> qs[i].requirementId == rid
    requires other == rid || SingleWinner(qs, other)
    ensures SingleWinner(Selected(qs, rid, w), other)
  {
    var after := Selected(qs, rid, w);
    forall i, j | 0 <= i < |qs| && 0 <= j < |qs| && after[i].requirementId == other && after[j].requirementId == other
      && after[i].winner && after[j].winner
      ensures i == j
    {
      SelectionOutcome(qs, rid, w, i);
      SelectionOutcome(qs, rid, w, j);
      if other == rid {
        // both are w, and w occurs once
        assert qs[i].id == w && qs[j].id == w;
        assert QuotationIds(qs)[i] == QuotationIds(qs)[j];
      } else {
        assert qs[i].requirementId == other && qs[j].requirementId == other;
        assert qs[i].winner && qs[j].winner;
      }
    }
  }

  /** The chosen id is not checked against the requirement: choosing, for requirement 2,
      a quotation of requirement 1 gives requirement 1 two winners. */
  lemma ForeignWinnerExample()
    ensures var qs := [Quotation(1, 0, true, 1, false, 0, "", 10, 1, 1),
                       Quotation(2, 0, false, 2, false, 0, "", 11, 1, 1),
                       Quotation(3, 0, false, 1, false, 0, "", 12, 1, 2)];
            SingleWinner(qs, 1) && !SingleWinner(Selected(qs, 2, 2), 1)
  {
    var qs := [Quotation(1, 0, true, 1, false, 0, "", 10, 1, 1),
               Quotation(2, 0, false, 2, false, 0, "", 11, 1, 1),
               Quotation(3, 0, false, 1, false, 0, "", 12, 1, 2)];
    var after := Selected(qs, 2, 2);
    assert after[0].winner && after[1].winner && after[0].requirementId == 1 && after[1].requirementId == 1;
  }

  /** A request without a quotation id marks every quotation in the table as a winner. */
  lemma ZeroKeyMarksAll(qs: seq<Quotation>, rid: nat)
    ensures forall i :: 0 <= i < |qs| ==> Selected(qs, rid, 0)[i] == qs[i].(winner := true)
    ensures qs != [] ==> AnyHit(QuotationIds(ClearWinners(qs, rid)), 0)
  {
    if qs != [] {
      assert KeyHit(0, QuotationIds(ClearWinners(qs, rid))[0]);
    }
  }

  /** An automatic request (id 0) does not pick the quotation ranked 1: the chosen id 0
      reaches every quotation, so when the requirement has another quotation too, the
      rank-1 quotation ends as one of at least two winners of its requirement. */
  lemma AutomaticSelectionMarksAll(qs: seq<Quotation>, rid: nat, first: nat, other: nat)
    requires first < |qs| && other < |qs| && first != other
    requires qs[first].requirementId == rid && qs[other].requirementId == rid
    requires qs[first].winnerLevel == 1
    ensures Selected(qs, rid, ChosenWinner(0, rid))[first].winner
    ensures Selected(qs, rid, ChosenWinner(0, rid))[other].winner
    ensures !SingleWinner(Selected(qs, rid, ChosenWinner(0, rid)), rid)
  {
    var r := Selected(qs, rid, ChosenWinner(0, rid));
    SelectionOutcome(qs, rid, 0, first);
    SelectionOutcome(qs, rid, 0, other);
    assert r[first].requirementId == rid && r[other].requirementId == rid;
  }

  // ----- the per-requirement cap -----

  /** `SELECT count(*) FROM quotations WHERE requirement_id = rid`. */
  function CountFor(qs: seq<Quotation>, rid: nat): (n: nat)
    ensures n <= |qs|
  {
    if qs == [] then 0
    else (if qs[|qs| - 1].requirementId == rid then 1 else 0) + CountFor(qs[..|qs| - 1], rid)
  }

  /** Inserting one quotation raises its requirement's count by one and no other. */
  lemma CountAppend(qs: seq<Quotation>, q: Quotation, rid: nat)
    ensures CountFor(qs + [q], rid) == CountFor(qs, rid) + if q.requirementId == rid then 1 else 0
  {
    assert (qs + [q])[..|qs|] == qs;
  }

  /** Changes that keep every quotation's requirement keep every count. */
  lemma {:induction false} CountSameRequirements(qs: seq<Quotation>, qs': seq<Quotation>, rid: nat)
    requires |qs| == |qs'|
    requires forall i :: 0 <= i < |qs| ==> qs'[i].requirementId == qs[i].requirementId
    ensures CountFor(qs', rid) == CountFor(qs, rid)
  {
    if qs != [] {
      CountSameRequirements(qs[..|qs| - 1], qs'[..|qs| - 1], rid);
    }
  }

  /** The position of the setting `db.First` reads: one with the smallest key. */
  function FirstSetting(settings: seq<Setting>): (k: nat)
    requires settings != []
    ensures k < |settings|
    ensures forall m :: 0 <= m < |settings| ==> settings[k].id <= settings[m].id
  {
    if |settings| == 1 then 0
    else
      var k := FirstSetting(settings[1..]);
      if settings[0].id <= settings[1 + k].id then 0 else 1 + k
  }

  /** `db.First(&setting)` orders by primary key and reads one row, or leaves the zero
      value when the table is empty; its `quotations` column is the cap. */
  function QuotationCap(settings: seq<Setting>): (cap: nat)
    ensures settings == [] ==> cap == 0
    ensures settings != [] ==>
              exists k :: 0 <= k < |settings| && cap == settings[k].quotations
                && forall m :: 0 <= m < |settings| ==> settings[k].id <= settings[m].id
  {
    if settings == [] then 0 else settings[FirstSetting(settings)].quotations
  }

  /** With increasing keys, as the table keeps them, the setting read is the first row. */
  lemma QuotationCapOfIncreasing(settings: seq<Setting>)
    requires settings != []
    requires forall i, j :: 0 <= i < j < |settings| ==> settings[i].id < settings[j].id
    ensures QuotationCap(settings) == settings[0].quotations
  {
  }

  // ----- quotation header update -----

  /** Update from a struct: every non-zero field of `patch` overwrites the stored one. */
  function PatchQuotation(stored: Quotation, patch: Quotation): Quotation
  {
    Quotation(
      stored.id,
      if patch.emissionDate != 0 then patch.emissionDate else stored.emissionDate,
      patch.winner || stored.winner,
      if patch.winnerLevel != 0 then patch.winnerLevel else stored.winnerLevel,
      patch.suggestWinner || stored.suggestWinner,
      if patch.deliverDate != 0 then patch.deliverDate else stored.deliverDate,
      if patch.observation != "" then patch.observation else stored.observation,
      if patch.providerId != 0 then patch.providerId else stored.providerId,
      if patch.userId != 0 then patch.userId else stored.userId,
      if patch.requirementId != 0 then patch.requirementId else stored.requirementId)
  }

  /** A patch without any non-zero field: GORM then issues no statement at all. */
  predicate EmptyQuotationPatch(patch: Quotation)
  {
    patch.(id := 0) == Quotation(0, 0, false, 0, false, 0, "", 0, 0, 0)
  }

  function PatchQuotations(qs: seq<Quotation>, patch: Quotation): (r: seq<Quotation>)
    ensures |r| == |qs|
  {
    seq(|qs|, i requires 0 <= i < |qs| => if KeyHit(patch.id, qs[i].id) then PatchQuotation(qs[i], patch) else qs[i])
  }

  /** The patch is idempotent and keeps the key; a patch of zero fields is the identity;
      a boolean flag can be raised by a patch but never lowered. */
  lemma PatchQuotationProperties(stored: Quotation, patch: Quotation)
    ensures PatchQuotation(PatchQuotation(stored, patch), patch) == PatchQuotation(stored, patch)
    ensures PatchQuotation(stored, patch).id == stored.id
    ensures EmptyQuotationPatch(patch) ==> PatchQuotation(stored, patch) == stored
    ensures stored.winner ==> PatchQuotation(stored, patch).winner
    ensures !patch.winner ==> PatchQuotation(stored, patch).winner == stored.winner
  {
  }

  // ----- detail prices -----

  /** `UpdateColumn("unit_price", price)` through a detail value with key `key`. */
  function SetUnitPrice(ds: seq<QuotationDetail>, key: nat, price: real): (r: seq<QuotationDetail>)
    ensures |r| == |ds|
  {
    seq(|ds|, i requires 0 <= i < |ds| => if KeyHit(key, ds[i].id) then ds[i].(unitPrice := price) else ds[i])
  }

  /** The price updates of `ups`, applied in list order. */
  function ApplyPrices(ds: seq<QuotationDetail>, ups: seq<QuotationDetail>): (r: seq<QuotationDetail>)
    ensures |r| == |ds|
  {
    if ups == [] then ds
    else
      var last := ups[|ups| - 1];
      SetUnitPrice(ApplyPrices(ds, ups[..|ups| - 1]), last.id, last.unitPrice)
  }

  /** The price the last update in `ups` that reaches key `id` carries, if any does. */
  function LastPrice(ups: seq<QuotationDetail>, id: nat): (p: Option<real>)
    ensures p.None? <==> forall k :: 0 <= k < |ups| ==> !KeyHit(ups[k].id, id)
    ensures p.Some? ==>
      exists k :: (0 <= k < |ups| && KeyHit(ups[k].id, id) && ups[k].unitPrice == p.value
                   && forall m :: k < m < |ups| ==> !KeyHit(ups[m].id, id))
  {
    if ups == [] then None
    else if KeyHit(ups[|ups| - 1].id, id) then Some(ups[|ups| - 1].unitPrice)
    else
      var p := LastPrice(ups[..|ups| - 1], id);
      assert forall k :: 0 <= k < |ups| - 1 ==> ups[..|ups| - 1][k] == ups[k];
      p
  }

  /** Each detail ends with the price of the last listed update that reaches it, keeps its
      price when none does, and keeps every other column. */
  lemma {:induction false} ApplyPricesEffect(ds: seq<QuotationDetail>, ups: seq<QuotationDetail>, i: nat)
    requires i < |ds|
    ensures ApplyPrices(ds, ups)[i] == ds[i].(unitPrice := ApplyPrices(ds, ups)[i].unitPrice)
    ensures ApplyPrices(ds, ups)[i].unitPrice == match LastPrice(ups, ds[i].id)
                                                 case None => ds[i].unitPrice
                                                 case Some(p) => p
  {
    if ups != [] {
      ApplyPricesEffect(ds, ups[..|ups| - 1], i);
    }
  }

  /** The detail keys are not touched by price updates. */
  lemma ApplyPricesKeepsKeys(ds: seq<QuotationDetail>, ups: seq<QuotationDetail>)
    ensures DetailIds(ApplyPrices(ds, ups)) == DetailIds(ds)
  {
    forall i | 0 <= i < |ds| ensures ApplyPrices(ds, ups)[i].id == ds[i].id {
      ApplyPricesEffect(ds, ups, i);
    }
  }

  /** One more update extends the fold by one step (the loop of UpdateQuotation). */
  lemma ApplyPricesStep(ds: seq<QuotationDetail>, ups: seq<QuotationDetail>, k: nat)
    requires k < |ups|
    ensures ApplyPrices(ds, ups[..k + 1]) == SetUnitPrice(ApplyPrices(ds, ups[..k]), ups[k].id, ups[k].unitPrice)
  {
    assert ups[..k + 1][..k] == ups[..k];
  }
}
