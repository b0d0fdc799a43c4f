/** Finding or creating the Organization of a Keycloak group, one request at a time
    (`find_organization`, the two backfills, `resolve_or_create_organization` and
    `sync_organization_from_group` of `apps/identity/org_replication.py`). */
module OrgTable {
  import opened Basics
  import opened GroupRefs

  datatype Org = Org(name: string, slug: string, isActive: bool, groupId: Option<string>, path: string)

  /** The organization table in creation order; replication never deletes from it, so an
      organization is identified by its place. */
  type Orgs = seq<Org>

  /** The three unique constraints: slug, group id when set, path when not empty. */
  ghost predicate KeysUnique(orgs: Orgs) {
    forall i, j :: 0 <= i < j < |orgs| ==> Apart(orgs[i], orgs[j])
  }

  ghost predicate Apart(a: Org, b: Org) {
    && a.slug != b.slug
    && (a.groupId.Some? ==> a.groupId != b.groupId)
    && (a.path != "" ==> a.path != b.path)
  }

  function FirstId(orgs: Orgs, id: string): (r: Option<nat>)
    ensures r.Some? ==> r.value < |orgs| && orgs[r.value].groupId == Some(id)
                        && forall i :: 0 <= i < r.value ==> orgs[i].groupId != Some(id)
    ensures r.None? ==> forall i :: 0 <= i < |orgs| ==> orgs[i].groupId != Some(id)
  {
    if orgs == [] then None
    else
      var r := FirstId(orgs[..|orgs| - 1], id);
      if r.Some? then r else if orgs[|orgs| - 1].groupId == Some(id) then Some(|orgs| - 1) else None
  }

  function FirstPath(orgs: Orgs, path: string): (r: Option<nat>)
    ensures r.Some? ==> r.value < |orgs| && orgs[r.value].path == path
                        && forall i :: 0 <= i < r.value ==> orgs[i].path != path
    ensures r.None? ==> forall i :: 0 <= i < |orgs| ==> orgs[i].path != path
  {
    if orgs == [] then None
    else
      var r := FirstPath(orgs[..|orgs| - 1], path);
      if r.Some? then r else if orgs[|orgs| - 1].path == path then Some(|orgs| - 1) else None
  }

  predicate SlugTaken(orgs: Orgs, slug: string) {
    exists i :: 0 <= i < |orgs| && orgs[i].slug == slug
  }

  /** `_backfill_group_path`: set the path, or fall back to the row that owns it. */
  function BackfilledPath(orgs: Orgs, i: nat, path: string): (Orgs, nat)
    requires i < |orgs|
  {
    if orgs[i].path != "" then (orgs, i)
    else
      var owner := FirstPath(orgs, path);
      if owner.Some? then (orgs, owner.value) else (orgs[i := orgs[i].(path := path)], i)
  }

  /** `_backfill_group_id`. */
  function BackfilledId(orgs: Orgs, i: nat, id: string): (Orgs, nat)
    requires i < |orgs|
  {
    if Truthy(orgs[i].groupId) then (orgs, i)
    else
      var owner := FirstId(orgs, id);
      if owner.Some? then (orgs, owner.value) else (orgs[i := orgs[i].(groupId := Some(id))], i)
  }

  /** `find_organization`. */
  function Found(orgs: Orgs, ref: GroupRef): (Orgs, Option<nat>) {
    Lookup(orgs, ref.groupId, NormalizePath(ref.path))
  }

  /** By id first, filling in a missing path; then by path, filling in a missing id. */
  function Lookup(orgs: Orgs, id: Option<string>, path: string): (Orgs, Option<nat>) {
    var byId := if Truthy(id) then FirstId(orgs, id.value) else None;
    if byId.Some? then
      if path != "" && orgs[byId.value].path == "" then
        var (orgs', i) := BackfilledPath(orgs, byId.value, path);
        (orgs', Some(i))
      else (orgs, byId)
    else
      var byPath := if path != "" then FirstPath(orgs, path) else None;
      if byPath.Some? && Truthy(id) && !Truthy(orgs[byPath.value].groupId) then
        var (orgs', i) := BackfilledId(orgs, byPath.value, id.value);
        (orgs', Some(i))
      else (orgs, byPath)
  }

  /** What the resolver derives from a reference once: its id, path, name and slug base. */
  datatype Want = Want(id: Option<string>, path: string, name: string, base: string)

  function Wanted(slugify: string -> string, ref: GroupRef): Want {
    Want(ref.groupId, NormalizePath(ref.path), OrgName(ref), SlugBase(slugify, ref))
  }

  function RowFor(want: Want, attempt: nat): Org {
    Org(want.name, Slug(want.base, attempt), true, if Truthy(want.id) then want.id else None, want.path)
  }

  /** The row `resolve_or_create_organization` inserts at one attempt. */
  function NewOrg(slugify: string -> string, ref: GroupRef, attempt: nat): Org {
    RowFor(Wanted(slugify, ref), attempt)
  }

  /** One of the three unique constraints refuses the row. */
  predicate Refused(orgs: Orgs, org: Org) {
    || SlugTaken(orgs, org.slug)
    || (org.groupId.Some? && FirstId(orgs, org.groupId.value).Some?)
    || (org.path != "" && FirstPath(orgs, org.path).Some?)
  }

  function CreatedFrom(slugify: string -> string, orgs: Orgs, ref: GroupRef, attempt: nat): (Orgs, Option<nat>)
    decreases MAX_SLUG_ATTEMPTS - attempt
  {
    if attempt >= MAX_SLUG_ATTEMPTS then (orgs, None)
    else
      var org := NewOrg(slugify, ref, attempt);
      if !Refused(orgs, org) then (orgs + [org], Some(|orgs|))
      else if Found(orgs, ref).1.Some? then Found(orgs, ref)
      else CreatedFrom(slugify, orgs, ref, attempt + 1)
  }

  /** `resolve_or_create_organization`. */
  function Resolved(slugify: string -> string, orgs: Orgs, ref: GroupRef): (Orgs, Option<nat>) {
    if Found(orgs, ref).1.Some? then Found(orgs, ref) else CreatedFrom(slugify, orgs, ref, 0)
  }

  class OrgRows {
    const slugify: string -> string
    var orgs: Orgs

    constructor (slugify: string -> string)
      ensures orgs == [] && this.slugify == slugify
    {
      this.slugify := slugify;
      orgs := [];
    }

    method BackfillGroupPath(org: nat, path: string) returns (result: nat)
      requires org < |orgs|
      modifies this
      ensures (orgs, result) == BackfilledPath(old(orgs), org, path)
    {
      result := org;
      if orgs[org].path == "" {
        var owner := FirstPath(orgs, path);
        if owner.Some? {
          result := owner.value;
        } else {
          orgs := orgs[org := orgs[org].(path := path)];
        }
      }
    }

    method BackfillGroupId(org: nat, id: string) returns (result: nat)
      requires org < |orgs|
      modifies this
      ensures (orgs, result) == BackfilledId(old(orgs), org, id)
    {
      result := org;
      if !Truthy(orgs[org].groupId) {
        var owner := FirstId(orgs, id);
        if owner.Some? {
          result := owner.value;
        } else {
          orgs := orgs[org := orgs[org].(groupId := Some(id))];
        }
      }
    }

    method FindOrganization(ref: GroupRef) returns (result: Option<nat>)
      modifies this
      ensures (orgs, result) == Found(old(orgs), ref)
    {
      var path := NormalizePath(ref.path);
      if Truthy(ref.groupId) {
        var byId := FirstId(orgs, ref.groupId.value);
        if byId.Some? {
          if path != "" && orgs[byId.value].path == "" {
            var i := BackfillGroupPath(byId.value, path);
            return Some(i);
          }
          return byId;
        }
      }
      if path != "" {
        var byPath := FirstPath(orgs, path);
        if byPath.Some? {
          if Truthy(ref.groupId) && !Truthy(orgs[byPath.value].groupId) {
            var i := BackfillGroupId(byPath.value, ref.groupId.value);
            return Some(i);
          }
          return byPath;
        }
      }
      return None;
    }

    method ResolveOrCreateOrganization(ref: GroupRef) returns (result: Option<nat>)
      modifies this
      ensures (orgs, result) == Resolved(slugify, old(orgs), ref)
    {
      result := FindOrganization(ref);
      if result.Some? {
        return;
      }
      FoundNothing(old(orgs), ref);
      var attempt := 0;
      while attempt < MAX_SLUG_ATTEMPTS
        invariant 0 <= attempt <= MAX_SLUG_ATTEMPTS && orgs == old(orgs) && Found(orgs, ref) == (orgs, None)
        invariant Resolved(slugify, old(orgs), ref) == CreatedFrom(slugify, orgs, ref, attempt)
      {
        var org := NewOrg(slugify, ref, attempt);
        if !Refused(orgs, org) {
          orgs := orgs + [org];
          return Some(|orgs| - 1);
        }
        var recovered := FindOrganization(ref);
        if recovered.Some? {
          return recovered;
        }
        attempt := attempt + 1;
      }
      return None;
    }

    method SyncOrganizationFromGroup(ref: GroupRef) returns (result: Sync)
      requires KeysUnique(orgs)
      modifies this
      ensures result == SyncedFrom(slugify, old(orgs), ref)
      ensures orgs == if result.Synced? then result.orgs else old(orgs)
      ensures KeysUnique(orgs)
    {
      var org := ResolveOrCreateOrganization(ref);
      ResolvedGrows(slugify, old(orgs), ref);
      if org.None? {
        return NoOrganization;
      }
      RefreshKeepsUniqueIf(orgs, org.value, ref.name, NormalizePath(ref.path));
      result := Refresh(orgs, org.value, ref.name, NormalizePath(ref.path));
      if result.Synced? {
        orgs := result.orgs;
      } else {
        ConflictWritesNothing(slugify, old(orgs), ref);
      }
    }
  }

  /** A search that finds nothing changes nothing. */
  lemma FoundNothing(orgs: Orgs, ref: GroupRef)
    requires Found(orgs, ref).1.None?
    ensures Found(orgs, ref).0 == orgs
  {
  }

  // ----------------------------------------------------- what resolving does

  /** Rows keep their place, slug, name and activity; keys are only ever filled in. */
  ghost predicate Grows(orgs: Orgs, orgs': Orgs) {
    && |orgs| <= |orgs'|
    && forall i :: 0 <= i < |orgs| ==> FilledIn(orgs[i], orgs'[i])
  }

  ghost predicate FilledIn(a: Org, b: Org) {
    && a.name == b.name && a.slug == b.slug && a.isActive == b.isActive
    && (Truthy(a.groupId) ==> b.groupId == a.groupId)
    && (a.path != "" ==> b.path == a.path)
  }

  lemma FoundGrows(orgs: Orgs, ref: GroupRef)
    requires KeysUnique(orgs)
    ensures var (orgs', r) := Found(orgs, ref);
            && KeysUnique(orgs') && Grows(orgs, orgs') && |orgs'| == |orgs|
            && (r.Some? ==> r.value < |orgs'| && Represents(orgs'[r.value], ref))
  {
    LookupGrows(orgs, ref.groupId, NormalizePath(ref.path));
  }

  lemma LookupGrows(orgs: Orgs, id: Option<string>, path: string)
    requires KeysUnique(orgs)
    ensures var (orgs', r) := Lookup(orgs, id, path);
            && KeysUnique(orgs') && Grows(orgs, orgs') && |orgs'| == |orgs|
            && (r.Some? ==> r.value < |orgs'|
                            && ((Truthy(id) && orgs'[r.value].groupId == id) || (path != "" && orgs'[r.value].path == path)))
  {
    var byId := if Truthy(id) then FirstId(orgs, id.value) else None;
    if byId.Some? {
      if path != "" { FillPathGrows(orgs, byId.value, path); }
    } else if path != "" && FirstPath(orgs, path).Some? && Truthy(id) {
      FillIdGrows(orgs, FirstPath(orgs, path).value, id.value);
    }
  }

  lemma FillPathGrows(orgs: Orgs, i: nat, path: string)
    requires KeysUnique(orgs) && i < |orgs| && path != ""
    ensures var (orgs', j) := BackfilledPath(orgs, i, path);
            KeysUnique(orgs') && Grows(orgs, orgs') && |orgs'| == |orgs| && j < |orgs'|
  {
  }

  lemma FillIdGrows(orgs: Orgs, i: nat, id: string)
    requires KeysUnique(orgs) && i < |orgs| && id != ""
    ensures var (orgs', j) := BackfilledId(orgs, i, id);
            KeysUnique(orgs') && Grows(orgs, orgs') && |orgs'| == |orgs| && j < |orgs'|
  {
  }

  /** The row carries the reference's id, or else its path. */
  ghost predicate Represents(org: Org, ref: GroupRef) {
    || (Truthy(ref.groupId) && org.groupId == ref.groupId)
    || (NormalizePath(ref.path) != "" && org.path == NormalizePath(ref.path))
  }

  predicate CarriesId(org: Org, id: Option<string>) {
    Truthy(id) && org.groupId == id
  }

  predicate CarriesPath(org: Org, path: string) {
    path != "" && org.path == path
  }

  /** Which row a search returns. The row with the id wins, except that when its path is missing
      and another row owns the path, the owner of the path is returned and nothing is written. */
  lemma FoundWhich(orgs: Orgs, id: Option<string>, path: string)
    requires KeysUnique(orgs)
    ensures var (orgs', r) := Lookup(orgs, id, path);
            && (r.None? <==> (forall i :: 0 <= i < |orgs| ==> !CarriesId(orgs[i], id) && !CarriesPath(orgs[i], path)))
            && (forall i: nat, o: nat :: i < |orgs| && o < |orgs| && CarriesId(orgs[i], id) && CarriesPath(orgs[o], path) ==>
                  orgs' == orgs && r == Some(if orgs[i].path == "" then o else i))
            && (forall i: nat :: i < |orgs| && CarriesId(orgs[i], id) && (forall o :: 0 <= o < |orgs| ==> orgs[o].path != path) ==>
                  r == Some(i) && orgs' == orgs[i := orgs[i].(path := if orgs[i].path == "" then path else orgs[i].path)])
            && (forall o: nat :: o < |orgs| && CarriesPath(orgs[o], path) && (forall i :: 0 <= i < |orgs| ==> !CarriesId(orgs[i], id)) ==>
                  r == Some(o) && orgs' == WithMissingId(orgs, o, id))
  {
    FoundByPath(orgs, id, path);
    FoundById(orgs, id, path);
  }

  /** The row as it is, or with the id where it has none. */
  function WithMissingId(orgs: Orgs, o: nat, id: Option<string>): Orgs
    requires o < |orgs|
  {
    orgs[o := Org(orgs[o].name, orgs[o].slug, orgs[o].isActive,
                  if Truthy(orgs[o].groupId) || !Truthy(id) then orgs[o].groupId else id, orgs[o].path)]
  }

  lemma FoundByPath(orgs: Orgs, id: Option<string>, path: string)
    requires KeysUnique(orgs)
    ensures var (orgs', r) := Lookup(orgs, id, path);
            forall o: nat :: o < |orgs| && CarriesPath(orgs[o], path) && (forall i :: 0 <= i < |orgs| ==> !CarriesId(orgs[i], id)) ==>
              r == Some(o) && orgs' == WithMissingId(orgs, o, id)
  {
    if path != "" && FirstPath(orgs, path).Some? {
      var o := FirstPath(orgs, path).value;
      assert forall k :: 0 <= k < |orgs| && orgs[k].path == path ==> k == o;
      assert orgs[o := orgs[o]] == orgs;
      if Truthy(id) && FirstId(orgs, id.value).Some? {
        assert CarriesId(orgs[FirstId(orgs, id.value).value], id);
      }
    }
  }

  lemma FoundById(orgs: Orgs, id: Option<string>, path: string)
    requires KeysUnique(orgs)
    ensures var (orgs', r) := Lookup(orgs, id, path);
            && (r.None? <==> (forall i :: 0 <= i < |orgs| ==> !CarriesId(orgs[i], id) && !CarriesPath(orgs[i], path)))
            && (forall i: nat, o: nat :: i < |orgs| && o < |orgs| && CarriesId(orgs[i], id) && CarriesPath(orgs[o], path) ==>
                  orgs' == orgs && r == Some(if orgs[i].path == "" then o else i))
            && (forall i: nat :: i < |orgs| && CarriesId(orgs[i], id) && (forall o :: 0 <= o < |orgs| ==> orgs[o].path != path) ==>
                  r == Some(i) && orgs' == orgs[i := orgs[i].(path := if orgs[i].path == "" then path else orgs[i].path)])
  {
    if Truthy(id) && FirstId(orgs, id.value).Some? {
      var i := FirstId(orgs, id.value).value;
      assert forall k :: 0 <= k < |orgs| && orgs[k].groupId == id ==> k == i;
    }
    if path != "" && FirstPath(orgs, path).Some? {
      var o := FirstPath(orgs, path).value;
      assert forall k :: 0 <= k < |orgs| && orgs[k].path == path ==> k == o;
    }
    assert forall i :: 0 <= i < |orgs| ==> orgs[i := orgs[i].(path := orgs[i].path)] == orgs;
  }

  lemma RowAdded(orgs: Orgs, org: Org)
    requires KeysUnique(orgs) && !Refused(orgs, org)
    ensures KeysUnique(orgs + [org]) && Grows(orgs, orgs + [org])
    ensures (orgs + [org])[..|orgs|] == orgs && (orgs + [org])[|orgs|] == org
  {
    forall i | 0 <= i < |orgs| ensures Apart(orgs[i], org) {}
  }

  lemma {:induction false} CreatedGrows(slugify: string -> string, orgs: Orgs, ref: GroupRef, attempt: nat)
    requires KeysUnique(orgs) && Found(orgs, ref).1.None?
    ensures var (orgs', r) := CreatedFrom(slugify, orgs, ref, attempt);
            && KeysUnique(orgs') && Grows(orgs, orgs')
            && (r.None? ==> orgs' == orgs)
            && (r.Some? ==> r.value == |orgs| && |orgs'| == |orgs| + 1 && orgs'[..|orgs|] == orgs
                            && exists k :: attempt <= k < MAX_SLUG_ATTEMPTS && orgs'[|orgs|] == NewOrg(slugify, ref, k))
    decreases MAX_SLUG_ATTEMPTS - attempt
  {
    if attempt < MAX_SLUG_ATTEMPTS {
      var org := NewOrg(slugify, ref, attempt);
      if !Refused(orgs, org) {
        RowAdded(orgs, org);
      } else {
        CreatedGrows(slugify, orgs, ref, attempt + 1);
      }
    }
  }

  /** Resolving keeps the constraints, only fills keys in, and returns a row of the group. */
  lemma ResolvedGrows(slugify: string -> string, orgs: Orgs, ref: GroupRef)
    requires KeysUnique(orgs)
    ensures var (orgs', r) := Resolved(slugify, orgs, ref);
            && KeysUnique(orgs') && Grows(orgs, orgs')
            && (r.None? ==> orgs' == orgs)
            && (r.Some? ==> r.value < |orgs'|
                            && (Represents(orgs'[r.value], ref) || (!HasKey(ref) && r.value == |orgs|)))
            && (r.Some? && r.value >= |orgs| ==> orgs'[r.value].isActive)
  {
    FoundGrows(orgs, ref);
    if Found(orgs, ref).1.None? {
      FoundNothing(orgs, ref);
      CreatedGrows(slugify, orgs, ref, 0);
    }
  }

  /** The reference carries an id or a path that does not normalise to nothing. */
  predicate HasKey(ref: GroupRef) {
    Truthy(ref.groupId) || NormalizePath(ref.path) != ""
  }

  /** A resolved reference is found again, as the same row, without another write. */
  lemma FoundAgain(slugify: string -> string, orgs: Orgs, ref: GroupRef)
    requires KeysUnique(orgs) && HasKey(ref)
    requires Resolved(slugify, orgs, ref).1.Some?
    ensures Found(Resolved(slugify, orgs, ref).0, ref) == Resolved(slugify, orgs, ref)
  {
    FoundGrows(orgs, ref);
    var (orgs', r) := Resolved(slugify, orgs, ref);
    if Found(orgs, ref).1.Some? {
      FoundTwice(orgs, ref);
    } else {
      FoundNothing(orgs, ref);
      CreatedGrows(slugify, orgs, ref, 0);
      CreatedIsFound(orgs, orgs', ref);
    }
  }

  lemma FoundTwice(orgs: Orgs, ref: GroupRef)
    requires Found(orgs, ref).1.Some?
    ensures Found(Found(orgs, ref).0, ref) == Found(orgs, ref)
  {
    var id, path := ref.groupId, NormalizePath(ref.path);
    if Truthy(id) && FirstId(orgs, id.value).Some? {
      PathFilledFoundAgain(orgs, id, path, FirstId(orgs, id.value).value);
    } else {
      IdFilledFoundAgain(orgs, id, path, FirstPath(orgs, path).value);
    }
  }

  lemma {:induction false} PathFilledFoundAgain(orgs: Orgs, id: Option<string>, path: string, i: nat)
    requires Truthy(id) && FirstId(orgs, id.value) == Some(i)
    ensures Lookup(Lookup(orgs, id, path).0, id, path) == Lookup(orgs, id, path)
  {
    var orgs' := Lookup(orgs, id, path).0;
    if orgs' != orgs {
      assert orgs' == orgs[i := orgs[i].(path := path)];
      assert orgs'[i].groupId == id;
      assert FirstId(orgs', id.value) == Some(i);
    }
  }

  lemma {:induction false} IdFilledFoundAgain(orgs: Orgs, id: Option<string>, path: string, i: nat)
    requires path != "" && FirstPath(orgs, path) == Some(i)
    requires Truthy(id) ==> FirstId(orgs, id.value).None?
    ensures Lookup(Lookup(orgs, id, path).0, id, path) == Lookup(orgs, id, path)
  {
    var orgs' := Lookup(orgs, id, path).0;
    if orgs' != orgs {
      assert orgs' == orgs[i := orgs[i].(groupId := id)];
      assert orgs'[i].groupId == id;
      assert forall k :: 0 <= k < i ==> orgs'[k].groupId != id;
      assert orgs'[i].path == path;
    }
  }

  lemma CreatedIsFound(orgs: Orgs, orgs': Orgs, ref: GroupRef)
    requires Found(orgs, ref).1.None? && HasKey(ref)
    requires |orgs'| == |orgs| + 1 && orgs'[..|orgs|] == orgs
    requires orgs'[|orgs|].groupId == (if Truthy(ref.groupId) then ref.groupId else None)
    requires orgs'[|orgs|].path == NormalizePath(ref.path)
    ensures Found(orgs', ref) == (orgs', Some(|orgs|))
  {
  }

  /** Resolving once more changes nothing exactly when the reference carries a key or the slugs
      are used up; otherwise every call creates one more organization. */
  lemma ResolveAgainIff(slugify: string -> string, orgs: Orgs, ref: GroupRef)
    requires KeysUnique(orgs)
    ensures var (orgs', r) := Resolved(slugify, orgs, ref);
            Resolved(slugify, orgs', ref) == (orgs', r) <==> HasKey(ref) || SlugsExhausted(slugify, orgs, ref)
  {
    var (orgs', r) := Resolved(slugify, orgs, ref);
    ResolvedGrows(slugify, orgs, ref);
    ExhaustedIff(slugify, orgs, ref, 0);
    if HasKey(ref) && r.Some? {
      FoundAgain(slugify, orgs, ref);
    }
    if !HasKey(ref) && r.Some? {
      CreatedGrows(slugify, orgs, ref, 0);
      CreatedGrows(slugify, orgs', ref, 0);
    }
  }

  /** All fifty slug candidates from one attempt on are taken. */
  ghost predicate ExhaustedFrom(slugify: string -> string, orgs: Orgs, ref: GroupRef, attempt: nat) {
    forall k: nat :: attempt <= k < MAX_SLUG_ATTEMPTS ==> SlugTaken(orgs, Slug(SlugBase(slugify, ref), k))
  }

  ghost predicate SlugsExhausted(slugify: string -> string, orgs: Orgs, ref: GroupRef) {
    ExhaustedFrom(slugify, orgs, ref, 0)
  }

  /** Run alone, creation gives up exactly when every candidate is taken, and otherwise uses the
      first free one. */
  lemma {:induction false} ExhaustedIff(slugify: string -> string, orgs: Orgs, ref: GroupRef, attempt: nat)
    ensures Found(orgs, ref).1.None? ==>
              (CreatedFrom(slugify, orgs, ref, attempt).1.None? <==> ExhaustedFrom(slugify, orgs, ref, attempt))
    ensures Found(orgs, ref).1.None? && !ExhaustedFrom(slugify, orgs, ref, attempt) ==>
              exists k: nat :: attempt <= k < MAX_SLUG_ATTEMPTS
                && CreatedFrom(slugify, orgs, ref, attempt) == (orgs + [NewOrg(slugify, ref, k)], Some(|orgs|))
                && FirstFree(slugify, orgs, ref, attempt, k)
    decreases MAX_SLUG_ATTEMPTS - attempt
  {
    if attempt < MAX_SLUG_ATTEMPTS && Found(orgs, ref).1.None? {
      var slug := Slug(SlugBase(slugify, ref), attempt);
      assert Refused(orgs, NewOrg(slugify, ref, attempt)) <==> SlugTaken(orgs, slug);
      ExhaustedIff(slugify, orgs, ref, attempt + 1);
      if SlugTaken(orgs, slug) {
        assert ExhaustedFrom(slugify, orgs, ref, attempt) <==> ExhaustedFrom(slugify, orgs, ref, attempt + 1);
      } else {
        assert FirstFree(slugify, orgs, ref, attempt, attempt);
      }
    }
  }

  ghost predicate FirstFree(slugify: string -> string, orgs: Orgs, ref: GroupRef, from: nat, k: nat) {
    && !SlugTaken(orgs, Slug(SlugBase(slugify, ref), k))
    && forall j: nat :: from <= j < k ==> SlugTaken(orgs, Slug(SlugBase(slugify, ref), j))
  }

  /** The organization of a group that no row carries: what its columns are, and when there is none. */
  lemma {:induction false} CreatedIs(slugify: string -> string, orgs: Orgs, ref: GroupRef)
    requires KeysUnique(orgs)
    requires forall i :: 0 <= i < |orgs| ==> !CarriesId(orgs[i], ref.groupId) && !CarriesPath(orgs[i], NormalizePath(ref.path))
    ensures FiftyTaken(slugify, orgs, ref) ==> Resolved(slugify, orgs, ref) == (orgs, None)
    ensures !FiftyTaken(slugify, orgs, ref) ==>
              var (orgs', r) := Resolved(slugify, orgs, ref);
              && r == Some(|orgs|) && |orgs'| == |orgs| + 1 && orgs'[..|orgs|] == orgs
              && IsCreated(slugify, orgs, ref, orgs'[|orgs|])
  {
    FoundWhich(orgs, ref.groupId, NormalizePath(ref.path));
    FoundNothing(orgs, ref);
    FiftyIs(slugify, orgs, ref);
    if SlugsExhausted(slugify, orgs, ref) {
      ExhaustedIff(slugify, orgs, ref, 0);
      CreatedGrows(slugify, orgs, ref, 0);
    } else {
      CreatedRow(slugify, orgs, ref);
    }
  }

  ghost predicate FiftyTaken(slugify: string -> string, orgs: Orgs, ref: GroupRef) {
    forall k: nat :: k < 50 ==> SlugTaken(orgs, Slug(SlugBase(slugify, ref), k))
  }

  lemma FiftyIs(slugify: string -> string, orgs: Orgs, ref: GroupRef)
    ensures FiftyTaken(slugify, orgs, ref) <==> SlugsExhausted(slugify, orgs, ref)
  {
  }

  lemma {:induction false} CreatedRow(slugify: string -> string, orgs: Orgs, ref: GroupRef)
    requires Found(orgs, ref).1.None? && !SlugsExhausted(slugify, orgs, ref)
    ensures var (orgs', r) := CreatedFrom(slugify, orgs, ref, 0);
            && r == Some(|orgs|) && |orgs'| == |orgs| + 1 && orgs'[..|orgs|] == orgs
            && IsCreated(slugify, orgs, ref, orgs'[|orgs|])
  {
    ExhaustedIff(slugify, orgs, ref, 0);
    var k: nat :| 0 <= k < MAX_SLUG_ATTEMPTS
      && CreatedFrom(slugify, orgs, ref, 0) == (orgs + [NewOrg(slugify, ref, k)], Some(|orgs|))
      && FirstFree(slugify, orgs, ref, 0, k);
    FreeRow(slugify, orgs, ref, k);
    assert (orgs + [NewOrg(slugify, ref, k)])[..|orgs|] == orgs;
  }

  lemma FreeRow(slugify: string -> string, orgs: Orgs, ref: GroupRef, k: nat)
    requires k < MAX_SLUG_ATTEMPTS && FirstFree(slugify, orgs, ref, 0, k)
    ensures IsCreated(slugify, orgs, ref, NewOrg(slugify, ref, k))
  {
    OrgNameIs(ref);
    assert NewOrg(slugify, ref, k).slug == Slug(SlugBase(slugify, ref), k);
  }

  /** An active organization with the group's keys and name and the first slug that is free. */
  ghost predicate IsCreated(slugify: string -> string, orgs: Orgs, ref: GroupRef, row: Org) {
    && row.isActive && row.groupId == (if Truthy(ref.groupId) then ref.groupId else None)
    && row.path == NormalizePath(ref.path) && IsNameOf(ref, row.name)
    && exists k: nat :: k < 50 && row.slug == Slug(SlugBase(slugify, ref), k) && !SlugTaken(orgs, row.slug)
                        && forall j: nat :: j < k ==> SlugTaken(orgs, Slug(SlugBase(slugify, ref), j))
  }

  function SlugSet(orgs: Orgs): set<string> {
    set o | o in orgs :: o.slug
  }

  function Candidates(base: string, n: nat): set<string> {
    set k | 0 <= k < n :: Slug(base, k)
  }

  lemma {:induction false} CandidateCount(base: string, n: nat)
    requires n <= MAX_SLUG_ATTEMPTS
    ensures |Candidates(base, n)| == n
  {
    if n > 0 {
      CandidateCount(base, n - 1);
      OneMore(base, n - 1, Slug(base, n - 1));
    }
  }

  lemma OneMore(base: string, n: nat, last: string)
    requires n < MAX_SLUG_ATTEMPTS && last == Slug(base, n)
    ensures last !in Candidates(base, n) && Candidates(base, n + 1) == Candidates(base, n) + {last}
  {
    forall k: nat | k < n ensures Slug(base, k) != last {
      SlugsDistinct(base, k, n);
    }
  }

  lemma {:induction false} SlugSetSize(orgs: Orgs)
    ensures |SlugSet(orgs)| <= |orgs|
  {
    if orgs != [] {
      var front := orgs[..|orgs| - 1];
      SlugSetSize(front);
      assert orgs == front + [orgs[|orgs| - 1]];
      assert SlugSet(orgs) == SlugSet(front) + {orgs[|orgs| - 1].slug};
    }
  }

  lemma SubsetSize(a: set<string>, b: set<string>)
    requires a <= b
    ensures |a| <= |b|
  {
    assert b == a + (b - a);
  }

  /** With fewer than fifty organizations creation never gives up. */
  lemma FewOrganizationsSuffice(slugify: string -> string, orgs: Orgs, ref: GroupRef)
    requires |orgs| < MAX_SLUG_ATTEMPTS
    ensures !SlugsExhausted(slugify, orgs, ref) && Resolved(slugify, orgs, ref).1.Some?
  {
    var base := SlugBase(slugify, ref);
    if SlugsExhausted(slugify, orgs, ref) {
      forall s | s in Candidates(base, MAX_SLUG_ATTEMPTS) ensures s in SlugSet(orgs) {
        var k :| 0 <= k < MAX_SLUG_ATTEMPTS && s == Slug(base, k);
        assert SlugTaken(orgs, Slug(base, k));
      }
      CandidateCount(base, MAX_SLUG_ATTEMPTS);
      SlugSetSize(orgs);
      SubsetSize(Candidates(base, MAX_SLUG_ATTEMPTS), SlugSet(orgs));
      assert false;
    }
    ExhaustedIff(slugify, orgs, ref, 0);
  }

  // ------------------------------------------------------------------- sync

  datatype Sync = Synced(orgs: Orgs, org: nat) | NoOrganization | PathConflict

  /** `sync_organization_from_group`: PathConflict is the IntegrityError of a rename onto a path
      another organization owns; it rolls back and leaves the table alone. */
  function SyncedFrom(slugify: string -> string, orgs: Orgs, ref: GroupRef): (r: Sync)
    requires KeysUnique(orgs)
  {
    var (orgs', r) := Resolved(slugify, orgs, ref);
    if r.None? then NoOrganization
    else
      ResolvedGrows(slugify, orgs, ref);
      Refresh(orgs', r.value, ref.name, NormalizePath(ref.path))
  }

  function Refresh(orgs: Orgs, i: nat, name: Option<string>, path: string): Sync
    requires i < |orgs|
  {
    var row := orgs[i].(name := if Truthy(name) then name.value else orgs[i].name,
                        path := if path != "" then path else orgs[i].path);
    if row.path != orgs[i].path && FirstPath(orgs, path).Some? then PathConflict
    else Synced(orgs[i := row], i)
  }

  /** What a group event leaves, given the row it resolves to: the name and the path it gives and
      nothing else, or a refusal where another row has the path. */
  ghost predicate SyncedAs(found: Orgs, o: nat, name: Option<string>, path: string, s: Sync)
    requires o < |found|
  {
    if path != "" && found[o].path != path && exists i :: 0 <= i < |found| && found[i].path == path then s == PathConflict
    else
      s == Synced(found[o := Org(if Truthy(name) then name.value else found[o].name, found[o].slug, found[o].isActive,
                                 found[o].groupId, if path == "" then found[o].path else path)], o)
  }

  lemma SyncIs(slugify: string -> string, orgs: Orgs, ref: GroupRef)
    requires KeysUnique(orgs)
    ensures SyncOutcome(slugify, orgs, ref, SyncedFrom(slugify, orgs, ref))
  {
    ResolvedGrows(slugify, orgs, ref);
  }

  ghost predicate SyncOutcome(slugify: string -> string, orgs: Orgs, ref: GroupRef, s: Sync) {
    var (found, r) := Resolved(slugify, orgs, ref);
    && (r.None? ==> s == NoOrganization)
    && (r.Some? ==> r.value < |found| && SyncedAs(found, r.value, ref.name, NormalizePath(ref.path), s))
  }

  /** Synchronising twice is synchronising once. */
  lemma SyncAgain(slugify: string -> string, orgs: Orgs, ref: GroupRef)
    requires KeysUnique(orgs) && HasKey(ref) && SyncedFrom(slugify, orgs, ref).Synced?
    ensures var s := SyncedFrom(slugify, orgs, ref);
            && KeysUnique(s.orgs) && SyncedFrom(slugify, s.orgs, ref) == s
            && Resolved(slugify, s.orgs, ref) == (s.orgs, Some(s.org))
  {
    var (orgs', r) := Resolved(slugify, orgs, ref);
    ResolvedGrows(slugify, orgs, ref);
    FoundAgain(slugify, orgs, ref);
    RefreshKeepsUnique(orgs', r.value, ref.name, NormalizePath(ref.path));
    RefreshedFound(orgs', r.value, ref.groupId, ref.name, NormalizePath(ref.path));
    RefreshTwice(orgs', r.value, ref.name, NormalizePath(ref.path));
  }

  lemma RefreshTwice(orgs: Orgs, i: nat, name: Option<string>, path: string)
    requires i < |orgs| && Refresh(orgs, i, name, path).Synced?
    ensures var s := Refresh(orgs, i, name, path);
            s.org == i && |s.orgs| == |orgs| && Refresh(s.orgs, i, name, path) == s
  {
    var s := Refresh(orgs, i, name, path);
    assert s.orgs[i := s.orgs[i]] == s.orgs;
  }

  /** Synchronising keeps the constraints and removes no organization. */
  lemma SyncedGrows(slugify: string -> string, orgs: Orgs, ref: GroupRef)
    requires KeysUnique(orgs)
    ensures var s := SyncedFrom(slugify, orgs, ref);
            s.Synced? ==> KeysUnique(s.orgs) && |orgs| <= |s.orgs|
  {
    ResolvedGrows(slugify, orgs, ref);
    var (orgs', r) := Resolved(slugify, orgs, ref);
    if r.Some? {
      RefreshGrows(orgs', r.value, ref.name, NormalizePath(ref.path));
    }
  }

  lemma RefreshGrows(orgs: Orgs, i: nat, name: Option<string>, path: string)
    requires KeysUnique(orgs) && i < |orgs|
    ensures var s := Refresh(orgs, i, name, path);
            s.Synced? ==> KeysUnique(s.orgs) && |s.orgs| == |orgs|
  {
    RefreshKeepsUniqueIf(orgs, i, name, path);
  }

  /** A rename that fails comes before any write, so rolling it back restores nothing. */
  lemma ConflictWritesNothing(slugify: string -> string, orgs: Orgs, ref: GroupRef)
    requires KeysUnique(orgs) && SyncedFrom(slugify, orgs, ref).PathConflict?
    ensures Resolved(slugify, orgs, ref).0 == orgs
  {
    ResolvedGrows(slugify, orgs, ref);
    if Found(orgs, ref).1.None? {
      CreatedGrows(slugify, orgs, ref, 0);
    } else {
      LookupWrites(orgs, ref.groupId, NormalizePath(ref.path));
    }
  }

  /** A search writes only when the row it returns ends up with the path asked for. */
  lemma LookupWrites(orgs: Orgs, id: Option<string>, path: string)
    ensures var (orgs', r) := Lookup(orgs, id, path);
            orgs' != orgs ==> r.Some? && r.value < |orgs'| && path != "" && orgs'[r.value].path == path
  {
  }

  lemma RefreshKeepsUniqueIf(orgs: Orgs, i: nat, name: Option<string>, path: string)
    requires KeysUnique(orgs) && i < |orgs|
    ensures Refresh(orgs, i, name, path).Synced? ==> KeysUnique(Refresh(orgs, i, name, path).orgs)
  {
    if Refresh(orgs, i, name, path).Synced? {
      RefreshKeepsUnique(orgs, i, name, path);
    }
  }

  lemma RefreshKeepsUnique(orgs: Orgs, i: nat, name: Option<string>, path: string)
    requires KeysUnique(orgs) && i < |orgs| && Refresh(orgs, i, name, path).Synced?
    ensures KeysUnique(Refresh(orgs, i, name, path).orgs)
  {
  }

  lemma RefreshedFound(orgs: Orgs, i: nat, id: Option<string>, name: Option<string>, path: string)
    requires i < |orgs| && Lookup(orgs, id, path) == (orgs, Some(i)) && Refresh(orgs, i, name, path).Synced?
    ensures var orgs' := Refresh(orgs, i, name, path).orgs;
            Lookup(orgs', id, path) == (orgs', Some(i))
  {
    var orgs' := Refresh(orgs, i, name, path).orgs;
    if Truthy(id) {
      SameIds(orgs, orgs', id.value);
    }
    if path != "" {
      assert orgs'[i].path == path;
      SamePaths(orgs, orgs', i, path);
    }
  }

  lemma {:induction false} SameIds(orgs: Orgs, orgs': Orgs, id: string)
    requires |orgs| == |orgs'| && forall k :: 0 <= k < |orgs| ==> orgs'[k].groupId == orgs[k].groupId
    ensures FirstId(orgs', id) == FirstId(orgs, id)
  {
  }

  lemma {:induction false} SamePaths(orgs: Orgs, orgs': Orgs, i: nat, path: string)
    requires i < |orgs| == |orgs'| && forall k :: 0 <= k < |orgs| && k != i ==> orgs'[k] == orgs[k]
    requires orgs'[i].path == path
    ensures FirstPath(orgs, path) == Some(i) ==> FirstPath(orgs', path) == Some(i)
  {
  }
}
