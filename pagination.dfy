/** Paging arithmetic and the reduced listings of GetRequirements, GetProviders and
    GetProviderSearch. Request fields are Go `uint`s, 64 bits wide on the targets the
    program is built for, so products and differences wrap modulo 2^64. */
module Pagination {
  import opened Models

  const Word: nat := 0x1_0000_0000_0000_0000

  /** A page number of 0 means the first page. */
  function NormalizePage(page: nat): (p: nat)
    ensures p >= 1
    ensures page != 0 ==> p == page
    ensures page < Word ==> p < Word
  {
    if page == 0 then 1 else page
  }

  /** Unsigned 64-bit multiplication. */
  function Mul64(a: nat, b: nat): (r: nat)
    ensures r < Word
  {
    (a * b) % Word
  }

  /** Unsigned 64-bit subtraction (wraps below zero). */
  function Sub64(a: nat, b: nat): (r: nat)
    ensures r < Word
  {
    (a - b) % Word
  }

  /** `limit*page - limit`, as written, with the page normalized first. */
  function Offset(limit: nat, page: nat): nat
  {
    Sub64(Mul64(limit, NormalizePage(page)), limit)
  }

  lemma ModShift(x: int, q: int)
    ensures (x - Word * q) % Word == x % Word
  {
    var r := x % Word;
    var d := x / Word;
    assert x == Word * d + r;
    assert x - Word * q == Word * (d - q) + r;
  }

  /** The offset skips the rows of all previous pages, modulo 2^64; when `limit * page`
      does not overflow, the subtraction never wraps and the offset is exactly
      `(page - 1) * limit`. */
  lemma OffsetSkipsPreviousPages(limit: nat, page: nat)
    requires limit < Word && page < Word
    ensures Offset(limit, page) == (limit * (NormalizePage(page) - 1)) % Word
    ensures limit * NormalizePage(page) < Word ==>
              Mul64(limit, NormalizePage(page)) >= limit
              && Offset(limit, page) == (NormalizePage(page) - 1) * limit
  {
    var p := NormalizePage(page);
    var x := limit * p;
    var q := x / Word;
    assert Mul64(limit, p) == x - Word * q;
    ModShift(x - limit, q);
    assert x - Word * q - limit == (x - limit) - Word * q;
    assert x - limit == limit * (p - 1);
    if x < Word {
      assert limit * p >= limit * 1;
      assert Mul64(limit, p) == x;
      assert 0 <= x - limit < Word;
    }
  }

  /** The first page of any size starts at row 0. */
  lemma FirstPageStartsAtZero(limit: nat)
    requires limit < Word
    ensures Offset(limit, 0) == 0 && Offset(limit, 1) == 0
  {
    OffsetSkipsPreviousPages(limit, 0);
    OffsetSkipsPreviousPages(limit, 1);
  }

  // ----- reduced listings -----

  /** A requirement reduced to its key and name; every other column is the zero value. */
  function MinimalRequirement(r: Requirement): (m: Requirement)
    ensures m.id == r.id && m.name == r.name
  {
    Requirement(r.id, r.name, "", "", 0, 0, "", "", 0)
  }

  predicate IsMinimalRequirement(r: Requirement)
  {
    r == Requirement(r.id, r.name, "", "", 0, 0, "", "", 0)
  }

  /** The listing of GetRequirements: with `kind == 1` each row keeps only key and name. */
  function RequirementListing(rows: seq<Requirement>, kind: nat): (out: seq<Requirement>)
    ensures |out| == |rows|
    ensures forall i :: 0 <= i < |rows| ==> out[i].id == rows[i].id && out[i].name == rows[i].name
    ensures kind == 1 ==> forall i :: 0 <= i < |rows| ==> IsMinimalRequirement(out[i])
    ensures kind != 1 ==> out == rows
  {
    if kind == 1 then seq(|rows|, i requires 0 <= i < |rows| => MinimalRequirement(rows[i])) else rows
  }

  /** The `Type == 1` loop of GetRequirements. */
  method MinimalRequirements(rows: seq<Requirement>) returns (out: seq<Requirement>)
    ensures out == RequirementListing(rows, 1)
  {
    out := [];
    for k := 0 to |rows|
      invariant out == RequirementListing(rows[..k], 1)
    {
      out := out + [MinimalRequirement(rows[k])];
    }
  }

  /** Reducing an already reduced listing changes nothing. */
  lemma RequirementListingIdempotent(rows: seq<Requirement>)
    ensures RequirementListing(RequirementListing(rows, 1), 1) == RequirementListing(rows, 1)
  {
  }

  /** A provider reduced to its key and name. */
  function MinimalProvider(p: Provider): (m: Provider)
    ensures m.id == p.id && m.name == p.name
  {
    Provider(p.id, p.name, "", "", "", "", "", "", false)
  }

  predicate IsMinimalProvider(p: Provider)
  {
    p == Provider(p.id, p.name, "", "", "", "", "", "", false)
  }

  /** The listing of GetProviders: with `kind == 1` each row keeps only key and name. */
  function ProviderListing(rows: seq<Provider>, kind: nat): (out: seq<Provider>)
    ensures |out| == |rows|
    ensures forall i :: 0 <= i < |rows| ==> out[i].id == rows[i].id && out[i].name == rows[i].name
    ensures kind == 1 ==> forall i :: 0 <= i < |rows| ==> IsMinimalProvider(out[i])
    ensures kind != 1 ==> out == rows
  {
    if kind == 1 then seq(|rows|, i requires 0 <= i < |rows| => MinimalProvider(rows[i])) else rows
  }

  /** The `Type == 1` loop of GetProviders. */
  method MinimalProviders(rows: seq<Provider>) returns (out: seq<Provider>)
    ensures out == ProviderListing(rows, 1)
  {
    out := [];
    for k := 0 to |rows|
      invariant out == ProviderListing(rows[..k], 1)
    {
      out := out + [MinimalProvider(rows[k])];
    }
  }

  /** GetProviderSearch: at most five matches, each as a product value carrying only the
      provider's key and name. */
  function ProviderSearch(matches: seq<Provider>): (out: seq<Product>)
    ensures |out| == if |matches| < 5 then |matches| else 5
    ensures forall i :: 0 <= i < |out| ==> out[i] == Product(matches[i].id, matches[i].name, "", "", false)
  {
    var n := if |matches| < 5 then |matches| else 5;
    seq(n, i requires 0 <= i < n => Product(matches[i].id, matches[i].name, "", "", false))
  }

  /** GetProviderSearch's loop over the (at most five) rows the query returns. */
  method SearchResults(matches: seq<Provider>) returns (out: seq<Product>)
    ensures out == ProviderSearch(matches)
  {
    var found := if |matches| < 5 then matches else matches[..5];
    out := [];
    for k := 0 to |found|
      invariant out == ProviderSearch(found[..k])
    {
      out := out + [Product(found[k].id, found[k].name, "", "", false)];
    }
    assert found[..|found|] == found;
  }
}
