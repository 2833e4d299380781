/** The spreadsheet import of SetTempUploadProvider (controller/provider.go): the rows of
    the "proveedores" sheet become providers, which are then inserted all or nothing. */
module ProviderImport {
  import opened Models

  /** White space as Go's `unicode.IsSpace` defines it (used by `strings.TrimSpace`). */
  predicate IsSpace(c: char)
  {
    || c == '\t' || c == '\n' || c == '\U{000B}' || c == '\U{000C}' || c == '\r' || c == ' '
    || c == '\U{0085}' || c == '\U{00A0}' || c == '\U{1680}'
    || ('\U{2000}' <= c <= '\U{200A}')
    || c == '\U{2028}' || c == '\U{2029}' || c == '\U{202F}' || c == '\U{205F}' || c == '\U{3000}'
  }

  /** The number of white-space characters `s` starts with. */
  function LeadingSpaces(s: string): (n: nat)
    ensures n <= |s|
    ensures forall k :: 0 <= k < n ==> IsSpace(s[k])
    ensures n < |s| ==> !IsSpace(s[n])
  {
    if s != [] && IsSpace(s[0]) then 1 + LeadingSpaces(s[1..]) else 0
  }

  /** The number of white-space characters `s` ends with. */
  function TrailingSpaces(s: string): (n: nat)
    ensures n <= |s|
    ensures forall k :: |s| - n <= k < |s| ==> IsSpace(s[k])
    ensures n < |s| ==> !IsSpace(s[|s| - n - 1])
  {
    if s != [] && IsSpace(s[|s| - 1]) then 1 + TrailingSpaces(s[..|s| - 1]) else 0
  }

  /** `strings.TrimSpace`: the infix of `s` left after removing white space at both ends. */
  function TrimSpace(s: string): (r: string)
    ensures LeadingSpaces(s) + |r| <= |s|
    ensures r == [] || (!IsSpace(r[0]) && !IsSpace(r[|r| - 1]))
    ensures r == s[LeadingSpaces(s)..LeadingSpaces(s) + |r|]
    ensures forall k :: 0 <= k < |s| && !(LeadingSpaces(s) <= k < LeadingSpaces(s) + |r|) ==> IsSpace(s[k])
  {
    var a := LeadingSpaces(s);
    var t := s[a..];
    var b := TrailingSpaces(t);
    var r := t[..|t| - b];
    assert r == s[a..a + |r|];
    assert r != [] ==> r[0] == s[a] && r[|r| - 1] == t[|t| - b - 1];
    assert forall k :: a + |r| <= k < |s| ==> s[k] == t[k - a] && IsSpace(t[k - a]);
    r
  }

  lemma NoLeadingSpaces(s: string)
    requires s == [] || !IsSpace(s[0])
    ensures LeadingSpaces(s) == 0
  {
  }

  lemma NoTrailingSpaces(s: string)
    requires s == [] || !IsSpace(s[|s| - 1])
    ensures TrailingSpaces(s) == 0
  {
  }

  /** Trimming twice is trimming once. */
  lemma TrimSpaceIdempotent(s: string)
    ensures TrimSpace(TrimSpace(s)) == TrimSpace(s)
  {
    var r := TrimSpace(s);
    NoLeadingSpaces(r);
    assert r[0..] == r;
    NoTrailingSpaces(r);
    assert r[..|r| - 0] == r;
  }

  /** A string without white space at either end is its own trim. */
  lemma TrimSpaceFixes(s: string)
    requires s == [] || (!IsSpace(s[0]) && !IsSpace(s[|s| - 1]))
    ensures TrimSpace(s) == s
  {
    NoLeadingSpaces(s);
    assert s[0..] == s;
    NoTrailingSpaces(s);
    assert s[..|s| - 0] == s;
  }

  /** One data row: column 0 is the RUC, column 1 the name, and column 5 fills manager,
      e-mail, phone and address alike; the provider is active. The key is assigned on insert. */
  function RowToProvider(row: seq<string>): (p: Provider)
    requires |row| >= 6
    ensures p.ruc == TrimSpace(row[0]) && p.name == TrimSpace(row[1])
    ensures p.manager == p.email == p.phone == p.address == TrimSpace(row[5])
    ensures p.state && p.id == 0 && p.observation == ""
  {
    var contact := TrimSpace(row[5]);
    Provider(0, TrimSpace(row[1]), TrimSpace(row[0]), contact, contact, contact, contact, "", true)
  }

  /** Rows after the heading row all carry the six columns the mapping reads. */
  predicate WellFormed(rows: seq<seq<string>>)
  {
    forall k :: 1 <= k < |rows| ==> |rows[k]| >= 6
  }

  /** The number of data rows: every row except the heading row. */
  function DataRowCount(rows: seq<seq<string>>): nat
  {
    if rows == [] then 0 else |rows| - 1
  }

  /** The providers a sheet describes: one per data row, in row order. */
  function DataProviders(rows: seq<seq<string>>): (ps: seq<Provider>)
    requires WellFormed(rows)
    ensures |ps| == DataRowCount(rows)
    ensures forall i :: 0 <= i < |ps| ==> ps[i] == RowToProvider(rows[i + 1])
  {
    seq(DataRowCount(rows), i requires 0 <= i < DataRowCount(rows) => RowToProvider(rows[i + 1]))
  }

  lemma DataProvidersEq(rows: seq<seq<string>>, providers: seq<Provider>)
    requires WellFormed(rows)
    requires |providers| == DataRowCount(rows)
    requires forall i :: 0 <= i < |providers| ==> providers[i] == RowToProvider(rows[i + 1])
    ensures providers == DataProviders(rows)
  {
  }

  /** The mapping loop: skips the first row and maps every later one, in row order. */
  method MapRows(rows: seq<seq<string>>) returns (providers: seq<Provider>)
    requires WellFormed(rows)
    ensures providers == DataProviders(rows)
  {
    providers := [];
    var ignoreCols := 1;
    var k := 0;
    while k < |rows|
      invariant 0 <= k <= |rows|
      invariant |providers| == if k == 0 then 0 else k - 1
      invariant forall i :: 0 <= i < |providers| ==> providers[i] == RowToProvider(rows[i + 1])
    {
      if k >= ignoreCols {
        providers := providers + [RowToProvider(rows[k])];
      }
      k := k + 1;
    }
    DataProvidersEq(rows, providers);
  }

  // ----- the all-or-nothing insert -----

  function Rucs(ps: seq<Provider>): (r: seq<string>)
    ensures |r| == |ps| && forall i :: 0 <= i < |ps| ==> r[i] == ps[i].ruc
  {
    seq(|ps|, i requires 0 <= i < |ps| => ps[i].ruc)
  }

  /** The `unique` index on the RUC column holds. */
  ghost predicate UniqueRucs(ps: seq<Provider>)
  {
    forall i, j :: 0 <= i < |ps| && 0 <= j < |ps| && ps[i].ruc == ps[j].ruc ==> i == j
  }

  /** The position of the first provider whose insert the unique index rejects: its RUC is
      already stored or was inserted earlier in the same transaction. */
  function FirstConflict(stored: seq<Provider>, ps: seq<Provider>): (c: Option<nat>)
    ensures c.None? <==> forall k :: 0 <= k < |ps| ==> ps[k].ruc !in Rucs(stored + ps[..k])
    ensures c.Some? ==> c.value < |ps| && ps[c.value].ruc in Rucs(stored + ps[..c.value])
                        && forall k :: 0 <= k < c.value ==> ps[k].ruc !in Rucs(stored + ps[..k])
  {
    if ps == [] then None
    else
      var n := |ps| - 1;
      var init := ps[..n];
      var c := FirstConflict(stored, init);
      assert forall k :: 0 <= k <= n ==> ps[..k] == init[..k] && (k < n ==> ps[k] == init[k]);
      if c.Some? then c
      else if ps[n].ruc in Rucs(stored + init) then Some(n)
      else None
  }

  /** The providers as stored: each takes the next auto-increment key. */
  function Stamped(ps: seq<Provider>, last: nat): (r: seq<Provider>)
    ensures |r| == |ps|
    ensures forall i :: 0 <= i < |ps| ==> r[i] == ps[i].(id := last + i + 1)
  {
    seq(|ps|, i requires 0 <= i < |ps| => ps[i].(id := last + i + 1))
  }

  /** Assigning keys does not change the RUCs. */
  lemma RucsStamped(stored: seq<Provider>, ps: seq<Provider>, last: nat)
    ensures Rucs(stored + Stamped(ps, last)) == Rucs(stored + ps)
  {
    assert forall i :: 0 <= i < |stored| + |ps| ==> (stored + Stamped(ps, last))[i].ruc == (stored + ps)[i].ruc;
  }

  /** The first position whose RUC is taken, with none taken before it, is the first conflict. */
  lemma FirstConflictAt(stored: seq<Provider>, ps: seq<Provider>, k: nat)
    requires k < |ps| && ps[k].ruc in Rucs(stored + ps[..k])
    requires forall m :: 0 <= m < k ==> ps[m].ruc !in Rucs(stored + ps[..m])
    ensures FirstConflict(stored, ps) == Some(k)
  {
  }

  lemma StampedStep(ps: seq<Provider>, last: nat, k: nat)
    requires k < |ps|
    ensures Stamped(ps[..k + 1], last) == Stamped(ps[..k], last) + [ps[k].(id := last + k + 1)]
  {
    assert ps[..k + 1][..k] == ps[..k];
  }

  /** The transaction's insert loop: creates the providers one after the other, each with
      the next key, and stops at the first one the unique index refuses. */
  method StageProviders(stored: seq<Provider>, ps: seq<Provider>, last: nat)
    returns (staged: seq<Provider>, conflict: Option<nat>)
    ensures conflict == FirstConflict(stored, ps)
    ensures conflict.None? ==> staged == Stamped(ps, last)
  {
    staged := [];
    var k := 0;
    while k < |ps|
      invariant 0 <= k <= |ps|
      invariant staged == Stamped(ps[..k], last)
      invariant forall m :: 0 <= m < k ==> ps[m].ruc !in Rucs(stored + ps[..m])
    {
      RucsStamped(stored, ps[..k], last);
      if ps[k].ruc in Rucs(stored + staged) {
        FirstConflictAt(stored, ps, k);
        conflict := Some(k);
        return;
      }
      StampedStep(ps, last, k);
      staged := staged + [ps[k].(id := last + k + 1)];
      k := k + 1;
    }
    assert ps[..k] == ps;
    conflict := None;
  }

  /** A RUC committed before position `k` of the batch is among those the insert of `ps[k]`
      is checked against. */
  lemma EarlierRuc(stored: seq<Provider>, ps: seq<Provider>, last: nat, k: nat, lo: nat)
    requires k < |ps| && lo < |stored| + k
    ensures (stored + Stamped(ps, last))[lo].ruc in Rucs(stored + ps[..k])
    ensures (stored + Stamped(ps, last))[|stored| + k].ruc == ps[k].ruc
  {
    var before := stored + ps[..k];
    assert Rucs(before)[lo] == before[lo].ruc;
    if lo >= |stored| {
      assert before[lo] == ps[lo - |stored|];
    }
  }

  /** A batch the index accepts keeps the index valid once committed. */
  lemma CommitKeepsRucsUnique(stored: seq<Provider>, ps: seq<Provider>, last: nat)
    requires UniqueRucs(stored) && FirstConflict(stored, ps).None?
    ensures UniqueRucs(stored + Stamped(ps, last))
  {
    var all := stored + Stamped(ps, last);
    forall i, j | 0 <= i < |all| && 0 <= j < |all| && all[i].ruc == all[j].ruc
      ensures i == j
    {
      if i != j {
        var lo, hi := if i < j then i else j, if i < j then j else i;
        if hi >= |stored| {
          EarlierRuc(stored, ps, last, hi - |stored|, lo);
          assert false;
        }
      }
    }
  }

  /** Re-importing a sheet whose providers were all committed is rejected at its first data
      row, so a second upload of the same file stores nothing. */
  lemma ReimportRejected(stored: seq<Provider>, ps: seq<Provider>, last: nat)
    requires ps != []
    requires FirstConflict(stored, ps).None?
    ensures FirstConflict(stored + Stamped(ps, last), ps) == Some(0)
  {
    var all := stored + Stamped(ps, last);
    assert ps[..0] == [];
    assert all + [] == all;
    assert Rucs(all)[|stored|] == ps[0].ruc;
  }
}
