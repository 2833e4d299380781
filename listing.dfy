/** The quotation listing of GetQuotations (controller/quotation.go): the rank-ordered
    headers (quotation, provider, user) merged by quotation key with the price sums. */
module Listing {
  import opened Models
  import opened Sorting
  import opened Ranking

  datatype HeaderRow = HeaderRow(
    id: nat,
    providerId: nat,
    providerName: string,
    userId: nat,
    userFirstName: string,
    userLastName: string,
    requirementId: nat,
    count: nat,
    winnerLevel: nat,
    winner: bool)

  datatype ListingRow = ListingRow(
    id: nat,
    providerId: nat,
    providerName: string,
    userId: nat,
    userFirstName: string,
    userLastName: string,
    requirementId: nat,
    count: nat,
    winnerLevel: nat,
    winner: bool,
    summation: real)

  /** The header query before ordering: each quotation of `rid` whose provider and user
      exist. Its group is that one joined row, so `count(*)` is 1. */
  function HeaderRowsOf(qs: seq<Quotation>, providers: seq<Provider>, users: seq<User>, rid: nat): seq<HeaderRow>
  {
    if qs == [] then []
    else
      var rest := HeaderRowsOf(qs[1..], providers, users, rid);
      var q := qs[0];
      match (FindProvider(providers, q.providerId), FindUser(users, q.userId))
      case (Some(p), Some(u)) =>
        if q.requirementId == rid then [HeaderRow(q.id, p.id, p.name, u.id, u.firstName, u.lastName, q.requirementId, 1, q.winnerLevel, q.winner)] + rest
        else rest
      case _ => rest
  }

  function HeaderKey(h: HeaderRow): real
  {
    h.winnerLevel as real
  }

  /** The header query, ordered by ascending winner level. */
  function HeaderRows(qs: seq<Quotation>, providers: seq<Provider>, users: seq<User>, rid: nat): (r: seq<HeaderRow>)
    ensures SortedBy(r, HeaderKey)
    ensures multiset(r) == multiset(HeaderRowsOf(qs, providers, users, rid))
  {
    SortBy(HeaderRowsOf(qs, providers, users, rid), HeaderKey)
  }

  /** Every header row comes from a quotation of `rid` and carries its level and winner flag. */
  lemma {:induction false} HeaderRowOrigin(qs: seq<Quotation>, providers: seq<Provider>, users: seq<User>, rid: nat, h: HeaderRow)
    returns (i: nat)
    requires h in HeaderRowsOf(qs, providers, users, rid)
    ensures i < |qs| && qs[i].requirementId == rid && h.id == qs[i].id && h.requirementId == rid
    ensures h.winnerLevel == qs[i].winnerLevel && h.winner == qs[i].winner && h.count == 1
    ensures h.providerId == qs[i].providerId && h.userId == qs[i].userId
  {
    var rest := HeaderRowsOf(qs[1..], providers, users, rid);
    if h in rest {
      var m := HeaderRowOrigin(qs[1..], providers, users, rid, h);
      i := m + 1;
    } else {
      i := 0;
    }
  }

  function Combine(h: HeaderRow, v: LevelRow): ListingRow
  {
    ListingRow(h.id, h.providerId, h.providerName, h.userId, h.userFirstName, h.userLastName,
               h.requirementId, h.count, h.winnerLevel, h.winner, v.summation)
  }

  /** The rows the inner loop appends for header `h`. */
  function Matches(h: HeaderRow, ps: seq<LevelRow>): seq<ListingRow>
  {
    if ps == [] then []
    else
      var v := ps[|ps| - 1];
      Matches(h, ps[..|ps| - 1]) + if h.id == v.id then [Combine(h, v)] else []
  }

  /** The rows both loops append. */
  function Merge(hs: seq<HeaderRow>, ps: seq<LevelRow>): seq<ListingRow>
  {
    if hs == [] then [] else Merge(hs[..|hs| - 1], ps) + Matches(hs[|hs| - 1], ps)
  }

  /** The nested merge loop. */
  method MergeListing(hs: seq<HeaderRow>, ps: seq<LevelRow>) returns (out: seq<ListingRow>)
    ensures out == Merge(hs, ps)
  {
    out := [];
    var i := 0;
    while i < |hs|
      invariant 0 <= i <= |hs|
      invariant out == Merge(hs[..i], ps)
    {
      var j := 0;
      while j < |ps|
        invariant 0 <= j <= |ps|
        invariant out == Merge(hs[..i], ps) + Matches(hs[i], ps[..j])
      {
        if hs[i].id == ps[j].id {
          out := out + [Combine(hs[i], ps[j])];
        }
        assert ps[..j + 1][..j] == ps[..j];
        j := j + 1;
      }
      assert ps[..j] == ps;
      assert hs[..i + 1][..i] == hs[..i];
      i := i + 1;
    }
    assert hs[..i] == hs;
  }

  // ----- properties of the merge -----

  lemma {:induction false} MatchesSound(h: HeaderRow, ps: seq<LevelRow>, k: nat)
    returns (j: nat)
    requires k < |Matches(h, ps)|
    ensures j < |ps| && ps[j].id == h.id && Matches(h, ps)[k] == Combine(h, ps[j])
  {
    var init := ps[..|ps| - 1];
    if k < |Matches(h, init)| {
      j := MatchesSound(h, init, k);
    } else {
      j := |ps| - 1;
    }
  }

  lemma {:induction false} MatchesComplete(h: HeaderRow, ps: seq<LevelRow>, j: nat)
    requires j < |ps| && ps[j].id == h.id
    ensures Combine(h, ps[j]) in Matches(h, ps)
  {
    var init := ps[..|ps| - 1];
    if j < |ps| - 1 {
      MatchesComplete(h, init, j);
    }
  }

  /** Every merged row joins a header with a price row of the same quotation. */
  lemma {:induction false} MergeSound(hs: seq<HeaderRow>, ps: seq<LevelRow>, k: nat)
    returns (i: nat, j: nat)
    requires k < |Merge(hs, ps)|
    ensures i < |hs| && j < |ps| && hs[i].id == ps[j].id && Merge(hs, ps)[k] == Combine(hs[i], ps[j])
  {
    var n := |hs| - 1;
    var init := Merge(hs[..n], ps);
    if k < |init| {
      i, j := MergeSound(hs[..n], ps, k);
    } else {
      i := n;
      j := MatchesSound(hs[n], ps, k - |init|);
    }
  }

  /** Every header that has a price row of the same quotation appears joined with it. */
  lemma {:induction false} MergeComplete(hs: seq<HeaderRow>, ps: seq<LevelRow>, i: nat, j: nat)
    requires i < |hs| && j < |ps| && hs[i].id == ps[j].id
    ensures Combine(hs[i], ps[j]) in Merge(hs, ps)
  {
    var n := |hs| - 1;
    if i < n {
      MergeComplete(hs[..n], ps, i, j);
    } else {
      MatchesComplete(hs[n], ps, j);
    }
  }

  /** The merge keeps header order: merged rows from earlier headers come first. */
  lemma {:induction false} MergeKeepsHeaderOrder(hs: seq<HeaderRow>, ps: seq<LevelRow>, a: nat, b: nat)
    requires SortedBy(hs, HeaderKey) && a < b < |Merge(hs, ps)|
    ensures Merge(hs, ps)[a].winnerLevel <= Merge(hs, ps)[b].winnerLevel
  {
    var n := |hs| - 1;
    var init := Merge(hs[..n], ps);
    var ia, ja := MergeSound(hs, ps, a);
    var ib, jb := MergeSound(hs, ps, b);
    if b < |init| {
      MergeKeepsHeaderOrder(hs[..n], ps, a, b);
    } else if a < |init| {
      var i, j := MergeSound(hs[..n], ps, a);
      var m := MatchesSound(hs[n], ps, b - |init|);
      assert HeaderKey(hs[i]) <= HeaderKey(hs[n]);
    } else {
      var ma := MatchesSound(hs[n], ps, a - |init|);
      var mb := MatchesSound(hs[n], ps, b - |init|);
    }
  }

  /** When price rows have distinct keys, every merged row carries the summation of the
      price row with its key. */
  lemma MergeTakesSummation(hs: seq<HeaderRow>, ps: seq<LevelRow>, k: nat, j: nat)
    requires DistinctRowIds(ps) && k < |Merge(hs, ps)| && j < |ps| && ps[j].id == Merge(hs, ps)[k].id
    ensures Merge(hs, ps)[k].summation == ps[j].summation
  {
    var i, j' := MergeSound(hs, ps, k);
    assert ps[j'].id == ps[j].id;
  }

  /** The listing end to end: GetQuotations returns quotations of the requirement only, each
      aggregated by the price query and carrying its own summation and level. */
  lemma ListingRowOrigin(qs: seq<Quotation>, ds: seq<QuotationDetail>, lines: seq<Require>,
                         providers: seq<Provider>, users: seq<User>, rid: nat, k: nat)
    returns (q: nat)
    requires Distinct(QuotationIds(qs))
    requires k < |Merge(HeaderRows(qs, providers, users, rid), WinnerLevelQuery(qs, ds, lines, rid))|
    ensures var row := Merge(HeaderRows(qs, providers, users, rid), WinnerLevelQuery(qs, ds, lines, rid))[k];
            && q < |qs| && qs[q].id == row.id && Aggregated(qs[q], ds, lines, rid)
            && row.summation == Summation(ds, lines, qs[q].id)
            && row.winnerLevel == qs[q].winnerLevel && row.winner == qs[q].winner
  {
    var hs := HeaderRows(qs, providers, users, rid);
    var ps := WinnerLevelQuery(qs, ds, lines, rid);
    var i, j := MergeSound(hs, ps, k);
    SameElements(hs, HeaderRowsOf(qs, providers, users, rid), hs[i]);
    var a := HeaderRowOrigin(qs, providers, users, rid, hs[i]);
    q := QueryRowOrigin(qs, ds, lines, rid, j);
    assert QuotationIds(qs)[a] == QuotationIds(qs)[q];
  }
}
