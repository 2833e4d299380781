/** The records of the purchase-requirement system, one datatype per table.
    Timestamps are abstract instants (`nat`; 0 stands for the zero time value),
    prices and amounts are exact `real`s. `created_at`/`updated_at` are not kept. */
module Models {

  datatype Option<T> = None | Some(value: T)

  /** A purchase requirement; `state` is one of "0" (draft) .. "4" (closed). */
  datatype Requirement = Requirement(
    id: nat,
    name: string,
    place: string,
    destination: string,
    emissionDate: nat,
    expirationDate: nat,
    claimant: string,
    state: string,
    userId: nat)

  /** One requirement line: a product and the quantity wanted. */
  datatype Require = Require(
    id: nat,
    amount: real,
    unitMeasure: string,
    suggestedPrice: real,
    observation: string,
    productId: nat,
    requirementId: nat)

  /** A provider's answer to a requirement. */
  datatype Quotation = Quotation(
    id: nat,
    emissionDate: nat,
    winner: bool,
    winnerLevel: nat,
    suggestWinner: bool,
    deliverDate: nat,
    observation: string,
    providerId: nat,
    userId: nat,
    requirementId: nat)

  /** The unit price a quotation offers for one requirement line. */
  datatype QuotationDetail = QuotationDetail(
    id: nat,
    unitPrice: real,
    requireId: nat,
    quotationId: nat,
    winnerLevelProvider: nat,
    winnerProviderId: nat)

  datatype Provider = Provider(
    id: nat,
    name: string,
    ruc: string,
    manager: string,
    email: string,
    phone: string,
    address: string,
    observation: string,
    state: bool)

  datatype Product = Product(
    id: nat,
    name: string,
    description: string,
    kind: string,
    state: bool)

  /** The part of a user record the engine joins on. */
  datatype User = User(id: nat, firstName: string, lastName: string)

  /** Global configuration; `quotations` caps the quotations per requirement. */
  datatype Setting = Setting(
    id: nat,
    company: string,
    email: string,
    identification: string,
    logo: string,
    city: string,
    item: nat,
    quotations: nat)

  // ----- primary keys -----

  function RequirementIds(t: seq<Requirement>): (ids: seq<nat>)
    ensures |ids| == |t| && forall i :: 0 <= i < |t| ==> ids[i] == t[i].id
  {
    seq(|t|, i requires 0 <= i < |t| => t[i].id)
  }

  function RequireIds(t: seq<Require>): (ids: seq<nat>)
    ensures |ids| == |t| && forall i :: 0 <= i < |t| ==> ids[i] == t[i].id
  {
    seq(|t|, i requires 0 <= i < |t| => t[i].id)
  }

  function QuotationIds(t: seq<Quotation>): (ids: seq<nat>)
    ensures |ids| == |t| && forall i :: 0 <= i < |t| ==> ids[i] == t[i].id
  {
    seq(|t|, i requires 0 <= i < |t| => t[i].id)
  }

  function DetailIds(t: seq<QuotationDetail>): (ids: seq<nat>)
    ensures |ids| == |t| && forall i :: 0 <= i < |t| ==> ids[i] == t[i].id
  {
    seq(|t|, i requires 0 <= i < |t| => t[i].id)
  }

  function ProviderIds(t: seq<Provider>): (ids: seq<nat>)
    ensures |ids| == |t| && forall i :: 0 <= i < |t| ==> ids[i] == t[i].id
  {
    seq(|t|, i requires 0 <= i < |t| => t[i].id)
  }

  function ProductIds(t: seq<Product>): (ids: seq<nat>)
    ensures |ids| == |t| && forall i :: 0 <= i < |t| ==> ids[i] == t[i].id
  {
    seq(|t|, i requires 0 <= i < |t| => t[i].id)
  }

  function UserIds(t: seq<User>): (ids: seq<nat>)
    ensures |ids| == |t| && forall i :: 0 <= i < |t| ==> ids[i] == t[i].id
  {
    seq(|t|, i requires 0 <= i < |t| => t[i].id)
  }

  function SettingIds(t: seq<Setting>): (ids: seq<nat>)
    ensures |ids| == |t| && forall i :: 0 <= i < |t| ==> ids[i] == t[i].id
  {
    seq(|t|, i requires 0 <= i < |t| => t[i].id)
  }

  // ----- lookups by primary key (the inner joins) -----

  function FindProduct(t: seq<Product>, id: nat): (r: Option<Product>)
    ensures r.Some? ==> r.value in t && r.value.id == id
    ensures r.None? <==> forall k :: 0 <= k < |t| ==> t[k].id != id
  {
    if t == [] then None else if t[0].id == id then Some(t[0]) else FindProduct(t[1..], id)
  }

  function FindProvider(t: seq<Provider>, id: nat): (r: Option<Provider>)
    ensures r.Some? ==> r.value in t && r.value.id == id
    ensures r.None? <==> forall k :: 0 <= k < |t| ==> t[k].id != id
  {
    if t == [] then None else if t[0].id == id then Some(t[0]) else FindProvider(t[1..], id)
  }

  function FindUser(t: seq<User>, id: nat): (r: Option<User>)
    ensures r.Some? ==> r.value in t && r.value.id == id
    ensures r.None? <==> forall k :: 0 <= k < |t| ==> t[k].id != id
  {
    if t == [] then None else if t[0].id == id then Some(t[0]) else FindUser(t[1..], id)
  }

  /** An update issued through a model value (`db.Model(&x).Update(...)`, `UpdateColumn`)
      filters on the primary key only when that key is non-zero; with a zero key the
      statement carries no key condition and reaches every row of the table. */
  predicate KeyHit(key: nat, id: nat)
  {
    key == 0 || id == key
  }

  /** Such an update affects at least one row. */
  predicate AnyHit(ids: seq<nat>, key: nat)
  {
    exists i :: 0 <= i < |ids| && KeyHit(key, ids[i])
  }

  lemma AnyHitPositive(ids: seq<nat>, key: nat)
    requires key != 0
    ensures AnyHit(ids, key) <==> key in ids
  {
    if key in ids {
      var i :| 0 <= i < |ids| && ids[i] == key;
      assert KeyHit(key, ids[i]);
    }
  }

  /** Auto-increment keys: positive, in insertion (= increasing) order, none above `last`. */
  ghost predicate Keyed(ids: seq<nat>, last: nat)
  {
    && (forall i :: 0 <= i < |ids| ==> 0 < ids[i] <= last)
    && (forall i, j :: 0 <= i < j < |ids| ==> ids[i] < ids[j])
  }

  /** No key occurs twice. */
  ghost predicate Distinct(ids: seq<nat>)
  {
    forall i, j :: 0 <= i < |ids| && 0 <= j < |ids| && ids[i] == ids[j] ==> i == j
  }

  lemma KeyedDistinct(ids: seq<nat>, last: nat)
    requires Keyed(ids, last)
    ensures Distinct(ids)
  {
  }

  /** Appending a row with the next counter value keeps a table keyed. */
  lemma KeyedAppend(ids: seq<nat>, last: nat)
    requires Keyed(ids, last)
    ensures Keyed(ids + [last + 1], last + 1)
  {
  }

  /** Appending a batch that takes the next counter values in order keeps a table keyed. */
  lemma KeyedExtend(ids: seq<nat>, last: nat, more: seq<nat>)
    requires Keyed(ids, last)
    requires forall i :: 0 <= i < |more| ==> more[i] == last + i + 1
    ensures Keyed(ids + more, last + |more|)
  {
  }
}
