/** The foreign keys the schema declares (main.go:63-73) as predicates on the tables, and
    the facts that every statement of the core keeps them. */
module Integrity {
  import opened Models
  import opened Ranking
  import opened Lifecycle
  import opened QuotationUpdates
  import opened ProviderImport

  ghost predicate RequirementRefs(rs: seq<Requirement>, users: seq<User>)
  {
    forall i :: 0 <= i < |rs| ==> rs[i].userId in UserIds(users)
  }

  ghost predicate LineRefs(ls: seq<Require>, rs: seq<Requirement>, products: seq<Product>)
  {
    forall i :: 0 <= i < |ls| ==> ls[i].requirementId in RequirementIds(rs) && ls[i].productId in ProductIds(products)
  }

  ghost predicate QuotationRefs(qs: seq<Quotation>, rs: seq<Requirement>, providers: seq<Provider>, users: seq<User>)
  {
    forall i :: 0 <= i < |qs| ==>
      qs[i].requirementId in RequirementIds(rs) && qs[i].providerId in ProviderIds(providers) && qs[i].userId in UserIds(users)
  }

  ghost predicate DetailRefs(ds: seq<QuotationDetail>, ls: seq<Require>, qs: seq<Quotation>)
  {
    forall i :: 0 <= i < |ds| ==> ds[i].requireId in RequireIds(ls) && ds[i].quotationId in QuotationIds(qs)
  }

  // ----- requirement statements -----

  lemma SetStateKeepsKeys(rs: seq<Requirement>, key: nat, state: string, users: seq<User>)
    ensures RequirementIds(SetState(rs, key, state)) == RequirementIds(rs)
    ensures RequirementRefs(rs, users) ==> RequirementRefs(SetState(rs, key, state), users)
  {
    SetStateOnlyState(rs, key, state);
    assert forall i :: 0 <= i < |rs| ==> RequirementIds(SetState(rs, key, state))[i] == RequirementIds(rs)[i];
  }

  lemma PatchRequirementsKeepsKeys(rs: seq<Requirement>, patch: Requirement, users: seq<User>)
    requires patch.userId == 0 || patch.userId in UserIds(users)
    ensures RequirementIds(PatchRequirements(rs, patch)) == RequirementIds(rs)
    ensures RequirementRefs(rs, users) ==> RequirementRefs(PatchRequirements(rs, patch), users)
  {
    assert forall i :: 0 <= i < |rs| ==> RequirementIds(PatchRequirements(rs, patch))[i] == RequirementIds(rs)[i];
  }

  lemma RequirementIdsAppend(rs: seq<Requirement>, r: Requirement)
    ensures RequirementIds(rs + [r]) == RequirementIds(rs) + [r.id]
  {
  }

  // ----- quotation statements -----

  lemma QuotationIdsFromFields(qs: seq<Quotation>, qs': seq<Quotation>)
    requires |qs| == |qs'|
    requires forall i :: 0 <= i < |qs| ==>
      (qs'[i].id == qs[i].id && qs'[i].requirementId == qs[i].requirementId
       && qs'[i].providerId == qs[i].providerId && qs'[i].userId == qs[i].userId)
    ensures QuotationIds(qs') == QuotationIds(qs)
    ensures forall rs, providers, users :: QuotationRefs(qs, rs, providers, users) ==> QuotationRefs(qs', rs, providers, users)
  {
    assert forall i :: 0 <= i < |qs| ==> QuotationIds(qs')[i] == QuotationIds(qs)[i];
  }

  lemma RankedKeepsKeys(qs: seq<Quotation>, rows: seq<LevelRow>)
    ensures QuotationIds(Ranked(qs, rows)) == QuotationIds(qs)
    ensures forall rs, providers, users :: QuotationRefs(qs, rs, providers, users) ==> QuotationRefs(Ranked(qs, rows), rs, providers, users)
  {
    QuotationIdsFromFields(qs, Ranked(qs, rows));
  }

  lemma SelectedKeepsKeys(qs: seq<Quotation>, rid: nat, key: nat)
    ensures QuotationIds(ClearWinners(qs, rid)) == QuotationIds(qs)
    ensures QuotationIds(Selected(qs, rid, key)) == QuotationIds(qs)
    ensures forall rs, providers, users :: QuotationRefs(qs, rs, providers, users) ==> QuotationRefs(ClearWinners(qs, rid), rs, providers, users)
    ensures forall rs, providers, users :: QuotationRefs(qs, rs, providers, users) ==> QuotationRefs(Selected(qs, rid, key), rs, providers, users)
  {
    QuotationIdsFromFields(qs, ClearWinners(qs, rid));
    forall i | 0 <= i < |qs| ensures Selected(qs, rid, key)[i] == qs[i].(winner := Selected(qs, rid, key)[i].winner) {
      SelectionOutcome(qs, rid, key, i);
    }
    QuotationIdsFromFields(qs, Selected(qs, rid, key));
  }

  /** A header patch whose foreign keys exist keeps the keys and the foreign keys. */
  lemma PatchQuotationsKeepsKeys(qs: seq<Quotation>, patch: Quotation, rs: seq<Requirement>, providers: seq<Provider>, users: seq<User>)
    requires patch.requirementId == 0 || patch.requirementId in RequirementIds(rs)
    requires patch.providerId == 0 || patch.providerId in ProviderIds(providers)
    requires patch.userId == 0 || patch.userId in UserIds(users)
    ensures QuotationIds(PatchQuotations(qs, patch)) == QuotationIds(qs)
    ensures QuotationRefs(qs, rs, providers, users) ==> QuotationRefs(PatchQuotations(qs, patch), rs, providers, users)
  {
    assert forall i :: 0 <= i < |qs| ==> QuotationIds(PatchQuotations(qs, patch))[i] == QuotationIds(qs)[i];
  }

  lemma QuotationIdsAppend(qs: seq<Quotation>, q: Quotation)
    ensures QuotationIds(qs + [q]) == QuotationIds(qs) + [q.id]
  {
  }

  // ----- detail statements -----

  lemma ApplyPricesKeepsRefs(ds: seq<QuotationDetail>, ups: seq<QuotationDetail>, ls: seq<Require>, qs: seq<Quotation>)
    ensures DetailIds(ApplyPrices(ds, ups)) == DetailIds(ds)
    ensures DetailRefs(ds, ls, qs) ==> DetailRefs(ApplyPrices(ds, ups), ls, qs)
  {
    ApplyPricesKeepsKeys(ds, ups);
    forall i | 0 <= i < |ds| ensures ApplyPrices(ds, ups)[i] == ds[i].(unitPrice := ApplyPrices(ds, ups)[i].unitPrice) {
      ApplyPricesEffect(ds, ups, i);
    }
  }

  // ----- growing a parent table keeps references into it -----

  lemma RefsGrowRequirements(rs: seq<Requirement>, r: Requirement, ls: seq<Require>, qs: seq<Quotation>,
                             products: seq<Product>, providers: seq<Provider>, users: seq<User>)
    ensures LineRefs(ls, rs, products) ==> LineRefs(ls, rs + [r], products)
    ensures QuotationRefs(qs, rs, providers, users) ==> QuotationRefs(qs, rs + [r], providers, users)
  {
    RequirementIdsAppend(rs, r);
  }

  lemma RefsGrowProviders(ps: seq<Provider>, more: seq<Provider>, qs: seq<Quotation>, rs: seq<Requirement>, users: seq<User>)
    ensures QuotationRefs(qs, rs, ps, users) ==> QuotationRefs(qs, rs, ps + more, users)
  {
    assert forall x :: x in ProviderIds(ps) ==> x in ProviderIds(ps + more) by {
      forall x | x in ProviderIds(ps) ensures x in ProviderIds(ps + more) {
        var i :| 0 <= i < |ps| && ProviderIds(ps)[i] == x;
        assert ProviderIds(ps + more)[i] == x;
      }
    }
  }

  lemma RefsGrowQuotations(ds: seq<QuotationDetail>, ls: seq<Require>, qs: seq<Quotation>, q: Quotation)
    ensures DetailRefs(ds, ls, qs) ==> DetailRefs(ds, ls, qs + [q])
  {
    QuotationIdsAppend(qs, q);
  }

  lemma RefsGrowLines(ds: seq<QuotationDetail>, ls: seq<Require>, more: seq<Require>, qs: seq<Quotation>)
    ensures DetailRefs(ds, ls, qs) ==> DetailRefs(ds, ls + more, qs)
  {
    assert RequireIds(ls + more) == RequireIds(ls) + RequireIds(more);
  }

  // ----- the whole database -----

  /** The tables and auto-increment counters of the database. */
  datatype Tables = Tables(
    requirements: seq<Requirement>,
    lines: seq<Require>,
    quotations: seq<Quotation>,
    details: seq<QuotationDetail>,
    providers: seq<Provider>,
    products: seq<Product>,
    users: seq<User>,
    settings: seq<Setting>,
    lastRequirement: nat,
    lastLine: nat,
    lastQuotation: nat,
    lastDetail: nat,
    lastProvider: nat)

  /** Keys are auto-increment values, RUCs are unique, settings are kept in key order, and
      every foreign key names an existing row. */
  ghost predicate Consistent(t: Tables)
  {
    && Keyed(RequirementIds(t.requirements), t.lastRequirement)
    && Keyed(RequireIds(t.lines), t.lastLine)
    && Keyed(QuotationIds(t.quotations), t.lastQuotation)
    && Keyed(DetailIds(t.details), t.lastDetail)
    && Keyed(ProviderIds(t.providers), t.lastProvider)
    && (forall i, j :: 0 <= i < j < |t.settings| ==> t.settings[i].id < t.settings[j].id)
    && UniqueRucs(t.providers)
    && RequirementRefs(t.requirements, t.users)
    && LineRefs(t.lines, t.requirements, t.products)
    && QuotationRefs(t.quotations, t.requirements, t.providers, t.users)
    && DetailRefs(t.details, t.lines, t.quotations)
  }

  /** The details saved with a new quotation: fresh keys, and the new quotation's key. */
  function NewDetails(ds: seq<QuotationDetail>, last: nat, qid: nat): (r: seq<QuotationDetail>)
    ensures |r| == |ds|
    ensures forall i :: 0 <= i < |ds| ==> r[i] == ds[i].(id := last + i + 1, quotationId := qid)
  {
    seq(|ds|, i requires 0 <= i < |ds| => ds[i].(id := last + i + 1, quotationId := qid))
  }

  /** The lines saved with a new requirement: fresh keys, and the new requirement's key. */
  function NewLines(ls: seq<Require>, last: nat, rid: nat): (r: seq<Require>)
    ensures |r| == |ls|
    ensures forall i :: 0 <= i < |ls| ==> r[i] == ls[i].(id := last + i + 1, requirementId := rid)
  {
    seq(|ls|, i requires 0 <= i < |ls| => ls[i].(id := last + i + 1, requirementId := rid))
  }

  /** Inserting a quotation whose foreign keys exist, with its details, keeps the database
      consistent. */
  lemma InsertQuotationConsistent(t: Tables, header: Quotation, ds: seq<QuotationDetail>)
    requires Consistent(t) && header.id == t.lastQuotation + 1
    requires header.requirementId in RequirementIds(t.requirements)
    requires header.providerId in ProviderIds(t.providers) && header.userId in UserIds(t.users)
    requires forall d :: d in ds ==> d.requireId in RequireIds(t.lines)
    ensures Consistent(t.(quotations := t.quotations + [header],
                          details := t.details + NewDetails(ds, t.lastDetail, header.id),
                          lastQuotation := header.id,
                          lastDetail := t.lastDetail + |ds|))
  {
    var added := NewDetails(ds, t.lastDetail, header.id);
    QuotationIdsAppend(t.quotations, header);
    KeyedAppend(QuotationIds(t.quotations), t.lastQuotation);
    assert DetailIds(t.details + added) == DetailIds(t.details) + DetailIds(added);
    KeyedExtend(DetailIds(t.details), t.lastDetail, DetailIds(added));
    RefsGrowQuotations(t.details, t.lines, t.quotations, header);
    assert forall i :: 0 <= i < |added| ==> added[i].requireId == ds[i].requireId && ds[i] in ds;
  }

  /** Inserting a requirement whose author and products exist, with its lines, keeps the
      database consistent. */
  lemma InsertRequirementConsistent(t: Tables, header: Requirement, ls: seq<Require>)
    requires Consistent(t) && header.id == t.lastRequirement + 1
    requires header.userId in UserIds(t.users)
    requires forall l :: l in ls ==> l.productId in ProductIds(t.products)
    ensures Consistent(t.(requirements := t.requirements + [header],
                          lines := t.lines + NewLines(ls, t.lastLine, header.id),
                          lastRequirement := header.id,
                          lastLine := t.lastLine + |ls|))
  {
    var added := NewLines(ls, t.lastLine, header.id);
    RequirementIdsAppend(t.requirements, header);
    KeyedAppend(RequirementIds(t.requirements), t.lastRequirement);
    assert RequireIds(t.lines + added) == RequireIds(t.lines) + RequireIds(added);
    KeyedExtend(RequireIds(t.lines), t.lastLine, RequireIds(added));
    RefsGrowRequirements(t.requirements, header, t.lines, t.quotations, t.products, t.providers, t.users);
    RefsGrowLines(t.details, t.lines, added, t.quotations);
    assert forall i :: 0 <= i < |added| ==> added[i].productId == ls[i].productId && ls[i] in ls;
  }

  /** Committing a batch the RUC index accepts keeps the database consistent. */
  lemma ImportConsistent(t: Tables, ps: seq<Provider>)
    requires Consistent(t) && UniqueRucs(t.providers + Stamped(ps, t.lastProvider))
    ensures Consistent(t.(providers := t.providers + Stamped(ps, t.lastProvider),
                          lastProvider := t.lastProvider + |ps|))
  {
    StampedKeyed(t.providers, ps, t.lastProvider);
    ProvidersGrow(t, t.providers + Stamped(ps, t.lastProvider), t.lastProvider + |ps|);
  }

  /** A longer provider table that is keyed and keeps RUCs unique keeps the database consistent. */
  lemma ProvidersGrow(t: Tables, providers: seq<Provider>, last: nat)
    requires Consistent(t) && |t.providers| <= |providers| && providers[..|t.providers|] == t.providers
    requires Keyed(ProviderIds(providers), last) && UniqueRucs(providers)
    ensures Consistent(t.(providers := providers, lastProvider := last))
  {
    assert providers == t.providers + providers[|t.providers|..];
    RefsGrowProviders(t.providers, providers[|t.providers|..], t.quotations, t.requirements, t.users);
  }

  lemma StampedKeyed(stored: seq<Provider>, ps: seq<Provider>, last: nat)
    requires Keyed(ProviderIds(stored), last)
    ensures Keyed(ProviderIds(stored + Stamped(ps, last)), last + |ps|)
  {
    var added := Stamped(ps, last);
    assert ProviderIds(stored + added) == ProviderIds(stored) + ProviderIds(added);
    KeyedExtend(ProviderIds(stored), last, ProviderIds(added));
  }

  lemma SetStateConsistent(t: Tables, key: nat, state: string)
    requires Consistent(t)
    ensures Consistent(t.(requirements := SetState(t.requirements, key, state)))
  {
    SetStateKeepsKeys(t.requirements, key, state, t.users);
  }

  lemma PatchRequirementsConsistent(t: Tables, patch: Requirement)
    requires Consistent(t) && (patch.userId == 0 || patch.userId in UserIds(t.users))
    ensures Consistent(t.(requirements := PatchRequirements(t.requirements, patch)))
  {
    PatchRequirementsKeepsKeys(t.requirements, patch, t.users);
  }

  lemma RankedConsistent(t: Tables, rows: seq<LevelRow>)
    requires Consistent(t)
    ensures Consistent(t.(quotations := Ranked(t.quotations, rows)))
  {
    RankedKeepsKeys(t.quotations, rows);
  }

  lemma SelectionConsistent(t: Tables, rid: nat, key: nat)
    requires Consistent(t)
    ensures Consistent(t.(quotations := ClearWinners(t.quotations, rid)))
    ensures Consistent(t.(quotations := Selected(t.quotations, rid, key)))
  {
    SelectedKeepsKeys(t.quotations, rid, key);
  }

  /** A header patch whose foreign keys exist, followed by price updates, keeps the
      database consistent. */
  lemma PatchQuotationConsistent(t: Tables, patch: Quotation, ups: seq<QuotationDetail>)
    requires Consistent(t)
    requires patch.requirementId == 0 || patch.requirementId in RequirementIds(t.requirements)
    requires patch.providerId == 0 || patch.providerId in ProviderIds(t.providers)
    requires patch.userId == 0 || patch.userId in UserIds(t.users)
    ensures Consistent(t.(quotations := PatchQuotations(t.quotations, patch),
                          details := ApplyPrices(t.details, ups)))
  {
    PatchQuotationsKeepsKeys(t.quotations, patch, t.requirements, t.providers, t.users);
    ApplyPricesKeepsRefs(t.details, ups, t.lines, t.quotations);
  }
}
