/** The database the handlers of controller/quotation.go, controller/requirement.go and
    controller/provider.go work on, as one object whose tables they update in place. Each
    handler is a method whose contract ties the new tables and the response to the pure
    functions of the other modules. */
module Store {
  import opened Models
  import opened Ranking
  import opened Lifecycle
  import opened QuotationUpdates
  import opened ProviderImport
  import opened Comparative
  import opened Listing
  import opened Integrity

  /** Why a handler answers `success: false`. */
  datatype Reason =
    | LimitReached                          // the requirement has its maximum of quotations
    | NotUpdated(id: nat)                   // an update reached no row
    | StateNotChanged(id: nat)              // the requirement's state update reached no row
    | NoRequires                            // a requirement without lines
    | InsertRejected                        // the insert broke a foreign key
    | ImportRejected(name: string, ruc: string) // the first provider the unique index refused
    | ShortRow                              // a sheet row lacked a column the mapping reads

  datatype Response = Success(data: nat) | Failure(reason: Reason)

  /** The quotation header stored by CreateQuotation: the request's columns, the caller as
      author, the current instant as emission date and the next key. */
  function NewQuotation(request: Quotation, user: nat, now: nat, id: nat): Quotation
  {
    request.(id := id, userId := user, emissionDate := now)
  }

  /** The requirement stored by CreateRequirement: state "0", the caller as author, the
      current instant as emission date and the next key. */
  function NewRequirement(request: Requirement, user: nat, now: nat, id: nat): Requirement
  {
    request.(id := id, userId := user, emissionDate := now, state := Draft)
  }

  class Store {
    var requirements: seq<Requirement>
    var lines: seq<Require>
    var quotations: seq<Quotation>
    var details: seq<QuotationDetail>
    var providers: seq<Provider>
    var products: seq<Product>
    var users: seq<User>
    var settings: seq<Setting>
    // the auto-increment counters of the tables the core inserts into
    var lastRequirement: nat
    var lastLine: nat
    var lastQuotation: nat
    var lastDetail: nat
    var lastProvider: nat

    /** The tables as a value. */
    function Snapshot(): Tables
      reads this
    {
      Tables(requirements, lines, quotations, details, providers, products, users, settings,
             lastRequirement, lastLine, lastQuotation, lastDetail, lastProvider)
    }

    ghost predicate Valid()
      reads this
    {
      Consistent(Snapshot())
    }

    /** A database whose catalogue (products, users, settings) is given and whose other
        tables are empty. */
    constructor (products: seq<Product>, users: seq<User>, settings: seq<Setting>)
      requires forall i, j :: 0 <= i < j < |settings| ==> settings[i].id < settings[j].id
      ensures Valid()
      ensures requirements == [] && lines == [] && quotations == [] && details == [] && providers == []
      ensures this.products == products && this.users == users && this.settings == settings
    {
      requirements, lines, quotations, details, providers := [], [], [], [], [];
      this.products, this.users, this.settings := products, users, settings;
      lastRequirement, lastLine, lastQuotation, lastDetail, lastProvider := 0, 0, 0, 0, 0;
    }

    // ----- controller/quotation.go -----

    /** CalculateWinnerLevelQuotation: runs the price query once, then writes level k+1 into
        the quotation of the k-th result row. */
    method CalculateWinnerLevelQuotation(rid: nat)
      requires Valid()
      modifies this`quotations
      ensures Valid()
      ensures quotations == Ranked(old(quotations), WinnerLevelQuery(old(quotations), details, lines, rid))
    {
      var results := WinnerLevelQuery(quotations, details, lines, rid);
      KeyedDistinct(QuotationIds(quotations), lastQuotation);
      QueryRowsDistinct(quotations, details, lines, rid);
      ghost var start := quotations;
      var k := 0;
      while k < |results|
        invariant 0 <= k <= |results|
        invariant quotations == Ranked(start, results[..k])
      {
        RankedStep(start, results, k);
        quotations := WithWinnerLevel(quotations, results[k].id, k + 1);
        k := k + 1;
      }
      assert results[..k] == results;
      RankedConsistent(old(Snapshot()), results);
    }

    /** SetWinnerQuotation: clears the winner flags of the requirement, marks the chosen
        quotation, then moves the requirement to state "3". A failing statement ends the
        handler, and what the earlier statements wrote stays. */
    method SetWinnerQuotation(requestId: nat, rid: nat) returns (resp: Response)
      requires Valid()
      modifies this`quotations, this`requirements
      ensures Valid()
      ensures var w := ChosenWinner(requestId, rid);
              var cleared := ClearWinners(old(quotations), rid);
              if !AnyHit(QuotationIds(cleared), w) then
                resp == Failure(NotUpdated(w)) && quotations == cleared && requirements == old(requirements)
              else
                && quotations == Selected(old(quotations), rid, w)
                && requirements == SetState(old(requirements), rid, WinnerSet)
                && resp == if AnyHit(RequirementIds(old(requirements)), rid) then Success(w) else Failure(StateNotChanged(rid))
    {
      var w := ChosenWinner(requestId, rid);
      SelectionConsistent(Snapshot(), rid, w);
      quotations := ClearWinners(quotations, rid);
      if !AnyHit(QuotationIds(quotations), w) {
        resp := Failure(NotUpdated(w));
        return;
      }
      quotations := MarkWinner(quotations, w);
      var hit := ChangeState(rid, WinnerSet);
      if !hit {
        resp := Failure(StateNotChanged(rid));
        return;
      }
      resp := Success(w);
    }

    /** The foreign keys a new quotation and its details must satisfy. */
    predicate QuotationAccepted(header: Quotation, ds: seq<QuotationDetail>)
      reads this
    {
      && header.requirementId in RequirementIds(requirements)
      && header.providerId in ProviderIds(providers)
      && header.userId in UserIds(users)
      && forall d :: d in ds ==> d.requireId in RequireIds(lines)
    }

    /** CreateQuotation: refuses once the requirement has as many quotations as the first
        setting allows, inserts the header with its details, moves the requirement to state
        "1" and re-ranks the requirement's quotations. */
    method CreateQuotation(request: Quotation, requestDetails: seq<QuotationDetail>, user: nat, now: nat)
      returns (resp: Response)
      requires Valid()
      modifies this`quotations, this`details, this`requirements, this`lastQuotation, this`lastDetail
      ensures Valid()
      ensures var rid := request.requirementId;
              var header := NewQuotation(request, user, now, old(lastQuotation) + 1);
              var inserted := old(quotations) + [header];
              var ds := old(details) + NewDetails(requestDetails, old(lastDetail), header.id);
              if CountFor(old(quotations), rid) >= QuotationCap(settings) then
                resp == Failure(LimitReached) && unchanged(this)
              else if !old(QuotationAccepted(header, requestDetails)) then
                resp == Failure(InsertRejected) && unchanged(this)
              else
                && resp == Success(header.id)
                && lastQuotation == header.id && lastDetail == old(lastDetail) + |requestDetails|
                && details == ds
                && requirements == SetState(old(requirements), rid, Quoted)
                && quotations == Ranked(inserted, WinnerLevelQuery(inserted, ds, lines, rid))
                && CountFor(quotations, rid) == CountFor(old(quotations), rid) + 1
    {
      var header := NewQuotation(request, user, now, lastQuotation + 1);
      var rid := header.requirementId;
      var cap := QuotationCap(settings);
      var count := CountFor(quotations, rid);
      if count >= cap {
        resp := Failure(LimitReached);
        return;
      }
      if !QuotationAccepted(header, requestDetails) {
        resp := Failure(InsertRejected);
        return;
      }
      ghost var q0 := quotations;
      resp := RecordQuotation(header, requestDetails);
      CountSameRequirements(q0 + [header], quotations, rid);
      CountAppend(q0, header, rid);
    }

    /** The accepted path of CreateQuotation: the insert, the state change to "1" (which
        cannot miss, since the requirement exists) and the re-ranking. */
    method RecordQuotation(header: Quotation, ds: seq<QuotationDetail>) returns (resp: Response)
      requires Valid() && header.id == lastQuotation + 1 && QuotationAccepted(header, ds)
      modifies this`quotations, this`details, this`requirements, this`lastQuotation, this`lastDetail
      ensures Valid()
      ensures var rid := header.requirementId;
              var inserted := old(quotations) + [header];
              var added := old(details) + NewDetails(ds, old(lastDetail), header.id);
              && resp == Success(header.id)
              && lastQuotation == header.id && lastDetail == old(lastDetail) + |ds|
              && details == added
              && requirements == SetState(old(requirements), rid, Quoted)
              && quotations == Ranked(inserted, WinnerLevelQuery(inserted, added, lines, rid))
    {
      var rid := header.requirementId;
      InsertQuotation(header, ds);
      assert rid != 0 by {
        var i :| 0 <= i < |requirements| && RequirementIds(requirements)[i] == rid;
      }
      AnyHitPositive(RequirementIds(requirements), rid);
      var hit := ChangeState(rid, Quoted);
      if !hit {
        resp := Failure(StateNotChanged(rid));
        return;
      }
      CalculateWinnerLevelQuotation(rid);
      resp := Success(header.id);
    }

    /** The insert of a quotation with its details (`db.Create` with associations). */
    method InsertQuotation(header: Quotation, ds: seq<QuotationDetail>)
      requires Valid() && header.id == lastQuotation + 1 && QuotationAccepted(header, ds)
      modifies this`quotations, this`details, this`lastQuotation, this`lastDetail
      ensures Valid()
      ensures quotations == old(quotations) + [header]
      ensures details == old(details) + NewDetails(ds, old(lastDetail), header.id)
      ensures lastQuotation == header.id && lastDetail == old(lastDetail) + |ds|
    {
      InsertQuotationConsistent(Snapshot(), header, ds);
      quotations := quotations + [header];
      details := details + NewDetails(ds, lastDetail, header.id);
      lastQuotation := lastQuotation + 1;
      lastDetail := lastDetail + |ds|;
    }

    /** The foreign keys a header patch must satisfy: every non-zero key names a row. */
    predicate PatchAccepted(patch: Quotation)
      reads this
    {
      && (patch.requirementId == 0 || patch.requirementId in RequirementIds(requirements))
      && (patch.providerId == 0 || patch.providerId in ProviderIds(providers))
      && (patch.userId == 0 || patch.userId in UserIds(users))
    }

    /** UpdateQuotation: patches the header; when that reaches no row the handler fails and
        nothing changed. Otherwise each listed detail takes its new price, in list order, and
        the requirement the request names is re-ranked. */
    method UpdateQuotation(patch: Quotation, prices: seq<QuotationDetail>) returns (resp: Response)
      requires Valid()
      modifies this`quotations, this`details
      ensures Valid()
      ensures var hit := AnyHit(QuotationIds(old(quotations)), patch.id)
                         && !(patch.id == 0 && EmptyQuotationPatch(patch)) && PatchAccepted(patch);
              if !hit then
                resp == Failure(NotUpdated(patch.id)) && unchanged(this)
              else
                var patched := PatchQuotations(old(quotations), patch);
                var priced := ApplyPrices(old(details), prices);
                && resp == Success(patch.id)
                && details == priced
                && quotations == Ranked(patched, WinnerLevelQuery(patched, priced, lines, patch.requirementId))
    {
      var hit := AnyHit(QuotationIds(quotations), patch.id)
                 && !(patch.id == 0 && EmptyQuotationPatch(patch)) && PatchAccepted(patch);
      if !hit {
        resp := Failure(NotUpdated(patch.id));
        return;
      }
      ghost var q0, d0 := quotations, details;
      PatchQuotationConsistent(Snapshot(), patch, prices);
      quotations := PatchQuotations(quotations, patch);
      var k := 0;
      while k < |prices|
        invariant 0 <= k <= |prices|
        invariant quotations == PatchQuotations(q0, patch)
        invariant details == ApplyPrices(d0, prices[..k])
      {
        ApplyPricesStep(d0, prices, k);
        details := SetUnitPrice(details, prices[k].id, prices[k].unitPrice);
        k := k + 1;
      }
      assert prices[..k] == prices;
      CalculateWinnerLevelQuotation(patch.requirementId);
      resp := Success(patch.id);
    }

    /** GetQuotations: the rank-ordered headers of requirement `rid` merged with their
        price sums. */
    method GetQuotations(rid: nat) returns (rows: seq<ListingRow>)
      ensures rows == Merge(HeaderRows(quotations, providers, users, rid), WinnerLevelQuery(quotations, details, lines, rid))
    {
      var headers := HeaderRows(quotations, providers, users, rid);
      var prices := WinnerLevelQuery(quotations, details, lines, rid);
      rows := MergeListing(headers, prices);
    }

    /** ComparativeTable: the requirement's lines, the rank-ordered prices numbered block by
        block (one block per line count), and one provider row per ranked quotation. */
    method ComparativeTable(rid: nat) returns (prices: seq<CtQuotation>, lineRows: seq<CtRequire>, offers: seq<CtProvider>)
      ensures lineRows == RequireRows(lines, products, rid)
      ensures prices == Sequenced(PriceRows(RankedQuotations(quotations, providers, rid), details), |lineRows|)
      ensures offers == ProviderRows(RankedQuotations(quotations, providers, rid), providers)
    {
      lineRows := RequireRows(lines, products, rid);
      var ranked := RankedQuotations(quotations, providers, rid);
      var flat := PriceRows(ranked, details);
      var a := new CtQuotation[|flat|](i requires 0 <= i < |flat| => flat[i]);
      assert a[..] == flat;
      AssignSequences(a, |lineRows|);
      prices := a[..];
      offers := ProviderRows(ranked, providers);
    }

    // ----- controller/requirement.go -----

    /** The foreign keys a new requirement and its lines must satisfy. */
    predicate RequirementAccepted(header: Requirement, ls: seq<Require>)
      reads this
    {
      header.userId in UserIds(users) && forall l :: l in ls ==> l.productId in ProductIds(products)
    }

    /** CreateRequirement: refuses a requirement without lines; otherwise inserts it in
        state "0" with its lines. */
    method CreateRequirement(request: Requirement, requestLines: seq<Require>, user: nat, now: nat)
      returns (resp: Response)
      requires Valid()
      modifies this`requirements, this`lines, this`lastRequirement, this`lastLine
      ensures Valid()
      ensures var header := NewRequirement(request, user, now, old(lastRequirement) + 1);
              if requestLines == [] then
                resp == Failure(NoRequires) && unchanged(this)
              else if !RequirementAccepted(header, requestLines) then
                resp == Failure(InsertRejected) && unchanged(this)
              else
                && resp == Success(header.id)
                && requirements == old(requirements) + [header]
                && lines == old(lines) + NewLines(requestLines, old(lastLine), header.id)
                && lastRequirement == header.id && lastLine == old(lastLine) + |requestLines|
    {
      if |requestLines| == 0 {
        resp := Failure(NoRequires);
        return;
      }
      var header := NewRequirement(request, user, now, lastRequirement + 1);
      if !RequirementAccepted(header, requestLines) {
        resp := Failure(InsertRejected);
        return;
      }
      InsertRequirementConsistent(Snapshot(), header, requestLines);
      requirements := requirements + [header];
      lines := lines + NewLines(requestLines, lastLine, header.id);
      lastRequirement := lastRequirement + 1;
      lastLine := lastLine + |requestLines|;
      resp := Success(header.id);
    }

    /** UpdateRequirement: patches the requirement the request names; fails when the
        statement reaches no row. */
    method UpdateRequirement(patch: Requirement) returns (resp: Response)
      requires Valid()
      modifies this`requirements
      ensures Valid()
      ensures var hit := AnyHit(RequirementIds(old(requirements)), patch.id)
                         && !(patch.id == 0 && EmptyRequirementPatch(patch))
                         && (patch.userId == 0 || patch.userId in UserIds(users));
              if hit then resp == Success(patch.id) && requirements == PatchRequirements(old(requirements), patch)
              else resp == Failure(NotUpdated(patch.id)) && requirements == old(requirements)
    {
      var hit := AnyHit(RequirementIds(requirements), patch.id)
                 && !(patch.id == 0 && EmptyRequirementPatch(patch))
                 && (patch.userId == 0 || patch.userId in UserIds(users));
      if !hit {
        resp := Failure(NotUpdated(patch.id));
        return;
      }
      PatchRequirementsConsistent(Snapshot(), patch);
      requirements := PatchRequirements(requirements, patch);
      resp := Success(patch.id);
    }

    /** `UPDATE requirements SET state = ?` through a requirement value with key `id`;
        `hit` says whether it reached a row. */
    method ChangeState(id: nat, state: string) returns (hit: bool)
      requires Valid()
      modifies this`requirements
      ensures Valid()
      ensures requirements == SetState(old(requirements), id, state)
      ensures hit == AnyHit(RequirementIds(old(requirements)), id)
    {
      SetStateConsistent(Snapshot(), id, state);
      hit := AnyHit(RequirementIds(requirements), id);
      requirements := SetState(requirements, id, state);
    }

    /** SetRejectedRequirement: state "2". */
    method SetRejectedRequirement(id: nat) returns (resp: Response)
      requires Valid()
      modifies this`requirements
      ensures Valid()
      ensures requirements == SetState(old(requirements), id, Rejected)
      ensures resp == if AnyHit(RequirementIds(old(requirements)), id) then Success(id) else Failure(NotUpdated(id))
    {
      var hit := ChangeState(id, Rejected);
      resp := if hit then Success(id) else Failure(NotUpdated(id));
    }

    /** SetClosedRequirement: state "4". */
    method SetClosedRequirement(id: nat) returns (resp: Response)
      requires Valid()
      modifies this`requirements
      ensures Valid()
      ensures requirements == SetState(old(requirements), id, Closed)
      ensures resp == if AnyHit(RequirementIds(old(requirements)), id) then Success(id) else Failure(NotUpdated(id))
    {
      var hit := ChangeState(id, Closed);
      resp := if hit then Success(id) else Failure(NotUpdated(id));
    }

    // ----- controller/provider.go -----

    /** SetTempUploadProvider: maps the sheet, then inserts the providers inside one
        transaction; the first insert the RUC index refuses rolls everything back. A data
        row with fewer than six cells makes the mapping panic before the transaction
        begins; the recovering middleware answers with an error and nothing is written. */
    method ImportProviders(rows: seq<seq<string>>) returns (resp: Response)
      requires Valid()
      modifies this`providers, this`lastProvider
      ensures Valid()
      ensures !WellFormed(rows) ==> resp == Failure(ShortRow) && unchanged(this)
      ensures WellFormed(rows) ==>
              var ps := DataProviders(rows);
              match FirstConflict(old(providers), ps)
              case None =>
                && resp == Success(|ps|)
                && providers == old(providers) + Stamped(ps, old(lastProvider))
                && lastProvider == old(lastProvider) + |ps|
              case Some(k) =>
                resp == Failure(ImportRejected(ps[k].name, ps[k].ruc)) && unchanged(this)
    {
      if !WellFormed(rows) {
        resp := Failure(ShortRow);
        return;
      }
      var ps := MapRows(rows);
      var staged, conflict := StageProviders(providers, ps, lastProvider);
      if conflict.Some? {
        // the rollback: nothing of the transaction stays
        resp := Failure(ImportRejected(ps[conflict.value].name, ps[conflict.value].ruc));
        return;
      }
      CommitProviders(ps, staged);
      resp := Success(|ps|);
    }

    /** The commit of the import transaction. */
    method CommitProviders(ps: seq<Provider>, staged: seq<Provider>)
      requires Valid() && FirstConflict(providers, ps).None? && staged == Stamped(ps, lastProvider)
      modifies this`providers, this`lastProvider
      ensures Valid()
      ensures providers == old(providers) + Stamped(ps, old(lastProvider))
      ensures lastProvider == old(lastProvider) + |ps|
    {
      CommitKeepsRucsUnique(providers, ps, lastProvider);
      ImportConsistent(Snapshot(), ps);
      providers := providers + staged;
      lastProvider := lastProvider + |ps|;
    }
  }
}
