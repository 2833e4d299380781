/** The requirement state machine of controller/requirement.go and the state
    changes controller/quotation.go makes: each store statement
    `UPDATE requirements SET ... WHERE id = ?` as a function on the table. */
module Lifecycle {
  import opened Models

  const Draft: string := "0"
  const Quoted: string := "1"
  const Rejected: string := "2"
  const WinnerSet: string := "3"
  const Closed: string := "4"

  predicate HasRequirement(rs: seq<Requirement>, id: nat)
  {
    id in RequirementIds(rs)
  }

  /** The state column of the requirement with key `id`, if it exists. */
  function StateOf(rs: seq<Requirement>, id: nat): (s: Option<string>)
    ensures s.Some? <==> HasRequirement(rs, id)
    ensures s.Some? ==> exists k :: 0 <= k < |rs| && rs[k].id == id && rs[k].state == s.value
  {
    if rs == [] then None
    else if rs[0].id == id then
      assert RequirementIds(rs)[0] == id;
      Some(rs[0].state)
    else
      var s := StateOf(rs[1..], id);
      assert RequirementIds(rs) == [rs[0].id] + RequirementIds(rs[1..]);
      s
  }

  /** `UPDATE requirements SET state = state` through a model value with key `key`. */
  function SetState(rs: seq<Requirement>, key: nat, state: string): (r: seq<Requirement>)
    ensures |r| == |rs|
  {
    seq(|rs|, i requires 0 <= i < |rs| => if KeyHit(key, rs[i].id) then rs[i].(state := state) else rs[i])
  }

  /** GORM's update from a struct: every non-zero field of `patch` overwrites the stored one;
      the key is never rewritten. */
  function PatchRequirement(stored: Requirement, patch: Requirement): Requirement
  {
    Requirement(
      stored.id,
      if patch.name != "" then patch.name else stored.name,
      if patch.place != "" then patch.place else stored.place,
      if patch.destination != "" then patch.destination else stored.destination,
      if patch.emissionDate != 0 then patch.emissionDate else stored.emissionDate,
      if patch.expirationDate != 0 then patch.expirationDate else stored.expirationDate,
      if patch.claimant != "" then patch.claimant else stored.claimant,
      if patch.state != "" then patch.state else stored.state,
      if patch.userId != 0 then patch.userId else stored.userId)
  }

  /** A patch without any non-zero column besides the key. */
  predicate EmptyRequirementPatch(patch: Requirement)
  {
    patch.(id := 0) == Requirement(0, "", "", "", 0, 0, "", "", 0)
  }

  /** `UPDATE requirements SET <non-zero fields of patch>` through the model value `patch`. */
  function PatchRequirements(rs: seq<Requirement>, patch: Requirement): (r: seq<Requirement>)
    ensures |r| == |rs|
  {
    seq(|rs|, i requires 0 <= i < |rs| => if KeyHit(patch.id, rs[i].id) then PatchRequirement(rs[i], patch) else rs[i])
  }

  // ---------------------------------------------------------------------

  lemma StateOfAt(rs: seq<Requirement>, k: nat)
    requires Distinct(RequirementIds(rs)) && k < |rs|
    ensures StateOf(rs, rs[k].id) == Some(rs[k].state)
  {
    var s := StateOf(rs, rs[k].id);
    var m :| 0 <= m < |rs| && rs[m].id == rs[k].id && rs[m].state == s.value;
    assert RequirementIds(rs)[m] == RequirementIds(rs)[k];
  }

  /** Reject, close and the state changes of quotation creation and winner selection reach
      their target state from ANY prior state of an existing requirement, and no other
      requirement's state moves. */
  lemma SetStateReachesTarget(rs: seq<Requirement>, id: nat, state: string, other: nat)
    requires Distinct(RequirementIds(rs)) && HasRequirement(rs, id) && id != 0 && other != id
    ensures StateOf(SetState(rs, id, state), id) == Some(state)
    ensures StateOf(SetState(rs, id, state), other) == StateOf(rs, other)
    ensures RequirementIds(SetState(rs, id, state)) == RequirementIds(rs)
  {
    var r := SetState(rs, id, state);
    assert RequirementIds(r) == RequirementIds(rs);
    assert forall i :: 0 <= i < |rs| ==> r[i] == if rs[i].id == id then rs[i].(state := state) else rs[i];
    var k :| 0 <= k < |rs| && RequirementIds(rs)[k] == id;
    StateOfAt(r, k);
    if HasRequirement(rs, other) {
      var m :| 0 <= m < |rs| && RequirementIds(rs)[m] == other;
      StateOfAt(r, m);
      StateOfAt(rs, m);
    }
  }

  /** Only the state column changes; an update that reaches no row changes nothing, and
      one that reaches a row is reported as affecting rows. */
  lemma SetStateOnlyState(rs: seq<Requirement>, key: nat, state: string)
    ensures forall i :: 0 <= i < |rs| ==> SetState(rs, key, state)[i] == rs[i].(state := SetState(rs, key, state)[i].state)
    ensures !AnyHit(RequirementIds(rs), key) ==> SetState(rs, key, state) == rs
    ensures forall i :: 0 <= i < |rs| && KeyHit(key, rs[i].id) ==> SetState(rs, key, state)[i].state == state
  {
    if !AnyHit(RequirementIds(rs), key) {
      forall i | 0 <= i < |rs| ensures !KeyHit(key, rs[i].id) {
        assert RequirementIds(rs)[i] == rs[i].id;
      }
    }
  }

  /** With a zero key (a request that names no requirement) every requirement receives
      the new state. */
  lemma SetStateZeroKey(rs: seq<Requirement>, state: string)
    ensures forall i :: 0 <= i < |rs| ==> SetState(rs, 0, state)[i] == rs[i].(state := state)
    ensures rs != [] ==> AnyHit(RequirementIds(rs), 0)
  {
    if rs != [] {
      assert KeyHit(0, RequirementIds(rs)[0]);
    }
  }

  /** Applying the same patch twice is applying it once; an empty patch changes nothing. */
  lemma PatchRequirementProperties(stored: Requirement, patch: Requirement)
    ensures PatchRequirement(PatchRequirement(stored, patch), patch) == PatchRequirement(stored, patch)
    ensures PatchRequirement(stored, patch).id == stored.id
    ensures EmptyRequirementPatch(patch) ==> PatchRequirement(stored, patch) == stored
  {
  }

  /** The patched state column is the patch's when it carries one. */
  lemma PatchRequirementState(stored: Requirement, patch: Requirement)
    ensures PatchRequirement(stored, patch).state == if patch.state == "" then stored.state else patch.state
    ensures patch.userId != 0 ==> PatchRequirement(stored, patch).userId == patch.userId
  {
  }
}
