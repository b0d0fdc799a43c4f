/** When running a stored event again changes nothing. A worker may have died after its effect, and
    logins, other events and administrators may have written the tables since. */
module Retries {
  import opened Basics
  import opened GroupRefs
  import opened OrgTable
  import opened Reconcile
  import opened Webhooks
  import opened EventPipeline
  import F = GroupForks
  import P = Projection

  predicate HasId(orgs: Orgs, id: Option<string>) {
    exists i :: 0 <= i < |orgs| && CarriesId(orgs[i], id)
  }

  /** No row carries the id or the path. */
  predicate Unseen(orgs: Orgs, id: Option<string>, path: string) {
    forall i :: 0 <= i < |orgs| ==> !CarriesId(orgs[i], id) && !CarriesPath(orgs[i], path)
  }

  /** The row a search leads to, with no key left to fill in: the id's row, or the path's row where the
      id's row has no path, or where there is none and the path's row has an id of its own. */
  predicate Leads(orgs: Orgs, id: Option<string>, path: string, o: nat)
    requires o < |orgs|
  {
    || (CarriesId(orgs[o], id) && (path == "" || orgs[o].path != ""))
    || (CarriesPath(orgs[o], path)
        && if HasId(orgs, id) then forall i :: 0 <= i < |orgs| && CarriesId(orgs[i], id) ==> orgs[i].path == ""
           else !Truthy(id) || Truthy(orgs[o].groupId))
  }

  lemma LeadsIff(orgs: Orgs, id: Option<string>, path: string, o: nat)
    requires KeysUnique(orgs) && o < |orgs|
    ensures Lookup(orgs, id, path) == (orgs, Some(o)) <==> Leads(orgs, id, path, o)
  {
    if HasId(orgs, id) {
      var i :| 0 <= i < |orgs| && CarriesId(orgs[i], id);
      IdLeads(orgs, id, path, i, o);
    } else {
      NoIdLeads(orgs, id, path, o);
    }
  }

  lemma IdLeads(orgs: Orgs, id: Option<string>, path: string, i: nat, o: nat)
    requires KeysUnique(orgs) && o < |orgs| && i < |orgs| && CarriesId(orgs[i], id)
    ensures Lookup(orgs, id, path) == (orgs, Some(o)) <==> Leads(orgs, id, path, o)
  {
    assert forall k :: 0 <= k < |orgs| && CarriesId(orgs[k], id) ==> k == i;
    assert FirstId(orgs, id.value) == Some(i);
    assert HasId(orgs, id);
    if path != "" && orgs[i].path == "" {
      assert orgs[i := orgs[i].(path := path)][i] != orgs[i];
      OneOwner(orgs, path);
    }
  }

  lemma NoIdLeads(orgs: Orgs, id: Option<string>, path: string, o: nat)
    requires KeysUnique(orgs) && o < |orgs| && !HasId(orgs, id)
    ensures Lookup(orgs, id, path) == (orgs, Some(o)) <==> Leads(orgs, id, path, o)
  {
    assert !CarriesId(orgs[o], id);
    assert Truthy(id) ==> FirstId(orgs, id.value).None?;
    OneOwner(orgs, path);
    var p := FirstPath(orgs, path);
    if path != "" && p.Some? && Truthy(id) && !Truthy(orgs[p.value].groupId) {
      assert orgs[p.value := orgs[p.value].(groupId := id)][p.value] != orgs[p.value];
    }
  }

  lemma {:induction false} OneOwner(orgs: Orgs, path: string)
    requires KeysUnique(orgs)
    ensures path != "" ==> forall k: nat :: k < |orgs| && orgs[k].path == path ==> FirstPath(orgs, path) == Some(k)
  {
    forall k: nat | path != "" && k < |orgs| && orgs[k].path == path {
      F.UniquePath(orgs, path, k);
    }
  }

  // ------------------------------------------------------------ organizations

  /** Finding or creating the organization writes nothing. */
  ghost predicate Resolves(slugify: string -> string, orgs: Orgs, ref: GroupRef) {
    var id, path := ref.groupId, NormalizePath(ref.path);
    if Unseen(orgs, id, path) then SlugsExhausted(slugify, orgs, ref)
    else exists o: nat :: o < |orgs| && Leads(orgs, id, path, o)
  }

  /** The row has the path and the name the event gives. */
  predicate Shows(org: Org, path: string, name: Option<string>) {
    (path != "" ==> org.path == path) && (Truthy(name) ==> org.name == name.value)
  }

  /** The group's organization is as the event has it, or none can be created. */
  ghost predicate GroupReflected(slugify: string -> string, orgs: Orgs, ref: GroupRef) {
    var id, path := ref.groupId, NormalizePath(ref.path);
    if Unseen(orgs, id, path) then SlugsExhausted(slugify, orgs, ref)
    else exists o: nat :: o < |orgs| && Leads(orgs, id, path, o) && Shows(orgs[o], path, ref.name)
  }

  /** The path the event gives its organization belongs to another one. */
  predicate RenameRefused(orgs: Orgs, id: Option<string>, path: string) {
    exists o: nat, p: nat :: o < |orgs| && p < |orgs| &&
      Leads(orgs, id, path, o) && orgs[o].path != path && CarriesPath(orgs[p], path)
  }

  /** A search writes nothing exactly when it leads to a row or no row has the keys. */
  lemma SearchIff(orgs: Orgs, id: Option<string>, path: string)
    requires KeysUnique(orgs)
    ensures var (orgs', r) := Lookup(orgs, id, path);
            && (r.None? <==> Unseen(orgs, id, path))
            && (r.None? ==> orgs' == orgs)
            && (r.Some? ==> (orgs' == orgs <==> exists o: nat :: o < |orgs| && Leads(orgs, id, path, o)))
  {
    LookupGrows(orgs, id, path);
    FoundWhich(orgs, id, path);
    forall o: nat | o < |orgs| ensures Lookup(orgs, id, path) == (orgs, Some(o)) <==> Leads(orgs, id, path, o) {
      LeadsIff(orgs, id, path, o);
    }
  }

  /** Finding or creating writes nothing exactly under `Resolves`, and fails when it may not create. */
  lemma ResolvesIff(slugify: string -> string, orgs: Orgs, ref: GroupRef)
    requires KeysUnique(orgs)
    ensures Resolved(slugify, orgs, ref).0 == orgs <==> Resolves(slugify, orgs, ref)
  {
    SearchIff(orgs, ref.groupId, NormalizePath(ref.path));
    if Found(orgs, ref).1.None? {
      ExhaustedIff(slugify, orgs, ref, 0);
      CreatedGrows(slugify, orgs, ref, 0);
    }
  }

  /** A search that writes returns the row it wrote, with a key it lacked and the path asked for. */
  lemma SearchWrote(orgs: Orgs, id: Option<string>, path: string)
    ensures var (orgs', r) := Lookup(orgs, id, path);
            orgs' != orgs ==>
              && r.Some? && r.value < |orgs| == |orgs'| && path != "" && orgs'[r.value].path == path
              && (orgs'[r.value].path != orgs[r.value].path || orgs'[r.value].groupId != orgs[r.value].groupId)
  {
  }

  lemma {:induction false} RefreshWrites(orgs: Orgs, i: nat, name: Option<string>, path: string)
    requires i < |orgs|
    ensures var s := Refresh(orgs, i, name, path);
            && (s.PathConflict? <==> path != "" && orgs[i].path != path && FirstPath(orgs, path).Some?)
            && (s.Synced? ==> |s.orgs| == |orgs| && s.orgs[i].groupId == orgs[i].groupId
                              && (path != "" ==> s.orgs[i].path == path)
                              && (s.orgs == orgs <==> Shows(orgs[i], path, name)))
  {
    var s := Refresh(orgs, i, name, path);
    if s.Synced? && Shows(orgs[i], path, name) {
      assert s.orgs[i] == orgs[i] && orgs[i := orgs[i]] == orgs;
    }
  }

  /** A group event raises exactly when its path belongs to another organization, and changes nothing
      else than that exactly when its organization is as it says. */
  lemma GroupReflectedIff(slugify: string -> string, orgs: Orgs, ref: GroupRef)
    requires KeysUnique(orgs)
    ensures var s := SyncedFrom(slugify, orgs, ref);
            && (s.PathConflict? <==> RenameRefused(orgs, ref.groupId, NormalizePath(ref.path)))
            && (!s.PathConflict? ==> (s.NoOrganization? || s.orgs == orgs <==> GroupReflected(slugify, orgs, ref)))
  {
    var id, path := ref.groupId, NormalizePath(ref.path);
    if Unseen(orgs, id, path) {
      UnseenReflected(slugify, orgs, ref);
    } else {
      SeenReflected(slugify, orgs, ref);
    }
  }

  lemma UnseenReflected(slugify: string -> string, orgs: Orgs, ref: GroupRef)
    requires KeysUnique(orgs) && Unseen(orgs, ref.groupId, NormalizePath(ref.path))
    ensures var s := SyncedFrom(slugify, orgs, ref);
            !s.PathConflict? && (s.NoOrganization? || s.orgs == orgs <==> SlugsExhausted(slugify, orgs, ref))
  {
    var (orgs', r) := Resolved(slugify, orgs, ref);
    FoundWhich(orgs, ref.groupId, NormalizePath(ref.path));
    ResolvedGrows(slugify, orgs, ref);
    ExhaustedIff(slugify, orgs, ref, 0);
    CreatedGrows(slugify, orgs, ref, 0);
    if r.Some? {
      RefreshWrites(orgs', r.value, ref.name, NormalizePath(ref.path));
    }
  }

  lemma SeenReflected(slugify: string -> string, orgs: Orgs, ref: GroupRef)
    requires KeysUnique(orgs) && !Unseen(orgs, ref.groupId, NormalizePath(ref.path))
    ensures var s := SyncedFrom(slugify, orgs, ref);
            && (s.PathConflict? <==> RenameRefused(orgs, ref.groupId, NormalizePath(ref.path)))
            && (!s.PathConflict? ==> (s.NoOrganization? || s.orgs == orgs <==> GroupReflected(slugify, orgs, ref)))
  {
    var id, path := ref.groupId, NormalizePath(ref.path);
    SearchIff(orgs, id, path);
    FoundGrows(orgs, ref);
    var (orgs', r) := Found(orgs, ref);
    assert SyncedFrom(slugify, orgs, ref) == Refresh(orgs', r.value, ref.name, path);
    if orgs' == orgs {
      LeadRefreshed(orgs, id, path, ref.name, r.value);
    } else {
      FilledRefreshed(orgs, id, path, ref.name);
    }
  }

  /** The search writes nothing: what the refresh does depends on the one row that leads. */
  lemma LeadRefreshed(orgs: Orgs, id: Option<string>, path: string, name: Option<string>, r: nat)
    requires KeysUnique(orgs) && r < |orgs| && Lookup(orgs, id, path) == (orgs, Some(r))
    ensures var s := Refresh(orgs, r, name, path);
            && (s.PathConflict? <==> RenameRefused(orgs, id, path))
            && (s.Synced? ==> (s.orgs == orgs <==> Shows(orgs[r], path, name)))
    ensures forall o: nat :: o < |orgs| && Leads(orgs, id, path, o) <==> o == r
  {
    OnlyLead(orgs, id, path, r);
    RefreshWrites(orgs, r, name, path);
    assert forall p: nat :: p < |orgs| && orgs[r].path != path && CarriesPath(orgs[p], path) ==> RenameRefused(orgs, id, path);
  }

  /** The search writes: no row leads, and the refresh is not refused and does not undo the write. */
  lemma FilledRefreshed(orgs: Orgs, id: Option<string>, path: string, name: Option<string>)
    requires KeysUnique(orgs) && Lookup(orgs, id, path).0 != orgs
    ensures var (orgs', r) := Lookup(orgs, id, path);
            && r.Some? && r.value < |orgs'|
            && Refresh(orgs', r.value, name, path).Synced? && Refresh(orgs', r.value, name, path).orgs != orgs
    ensures forall o: nat :: o < |orgs| ==> !Leads(orgs, id, path, o)
  {
    var (orgs', r) := Lookup(orgs, id, path);
    SearchWrote(orgs, id, path);
    RefreshWrites(orgs', r.value, name, path);
    forall o: nat | o < |orgs| {
      LeadsIff(orgs, id, path, o);
    }
  }

  lemma OnlyLead(orgs: Orgs, id: Option<string>, path: string, r: nat)
    requires KeysUnique(orgs) && r < |orgs| && Lookup(orgs, id, path) == (orgs, Some(r))
    ensures forall o: nat :: o < |orgs| && Leads(orgs, id, path, o) <==> o == r
  {
    forall o: nat | o < |orgs| {
      LeadsIff(orgs, id, path, o);
    }
  }

  // --------------------------------------------------------------- memberships

  /** The membership is active, or is left to be managed by hand; or it is gone, revoked or manual. */
  predicate SeatSettled(members: Members, key: Key, added: bool) {
    if added then key in members && (members[key].origin == Manual || members[key].status == Active)
    else key in members && members[key].origin == Keycloak ==> members[key].status == Revoked && members[key].roles == {}
  }

  ghost predicate MembershipReflected(slugify: string -> string, db: Db, user: string, ref: GroupRef, added: bool) {
    var id, path := ref.groupId, NormalizePath(ref.path);
    if Unseen(db.orgs, id, path) then added ==> SlugsExhausted(slugify, db.orgs, ref)
    else exists o: nat :: o < |db.orgs| && Leads(db.orgs, id, path, o) && SeatSettled(db.members, Key(o, user), added)
  }

  lemma SeatSettledIff(members: Members, user: string, o: nat, added: bool)
    ensures AfterChange(members, user, Some(o), added) == members <==> SeatSettled(members, Key(o, user), added)
  {
    var key := Key(o, user);
    if key in members {
      assert members[key := members[key]] == members;
    }
    if added {
      assert AfterChange(members, user, Some(o), added)[key].status == Active || RowAt(members, key).origin == Manual;
    } else if key in members {
      assert AfterChange(members, user, Some(o), added)[key] == Dropped(members[key]);
    }
  }

  lemma MembershipReflectedIff(slugify: string -> string, db: Db, user: string, ref: GroupRef, added: bool)
    requires DbOk(db)
    ensures Changed(slugify, db, user, ref, added) == db <==> MembershipReflected(slugify, db, user, ref, added)
  {
    var id, path := ref.groupId, NormalizePath(ref.path);
    var (orgs', r) := if added then Resolved(slugify, db.orgs, ref) else Found(db.orgs, ref);
    ChangedIs(slugify, db, user, ref, added, orgs', r);
    SearchIff(db.orgs, id, path);
    if Unseen(db.orgs, id, path) {
      ExhaustedIff(slugify, db.orgs, ref, 0);
      CreatedGrows(slugify, db.orgs, ref, 0);
    } else {
      SeatSettledIff(db.members, user, r.value, added);
      forall o: nat | o < |db.orgs| {
        LeadsIff(db.orgs, id, path, o);
      }
    }
  }

  // --------------------------------------------------------------------- users

  /** The profile has every value the snapshot gives. */
  predicate Agrees(p: P.Profile, a: P.Attributes) {
    && (Truthy(a.username) ==> p.username == a.username.value) && (Truthy(a.email) ==> p.email == a.email.value)
    && (a.firstName.Some? ==> p.firstName == a.firstName.value) && (a.lastName.Some? ==> p.lastName == a.lastName.value)
    && (a.displayName.Some? ==> p.displayName == a.displayName.value)
    && (a.emailVerified.Some? ==> p.emailVerified == a.emailVerified.value)
    && (a.enabled.Some? ==> p.isActive == a.enabled.value)
  }

  /** The username given, or the one a new user would start with, is someone else's. */
  predicate UsernameRefused(users: P.Users, locals: set<string>, sub: string, a: P.Attributes) {
    (Truthy(a.username) || sub !in users) && P.Taken(users, locals, sub, P.Seed(sub, a))
  }

  lemma UpsertIff(users: P.Users, locals: set<string>, sub: string, a: P.Attributes)
    requires P.UsernamesUnique(users, locals)
    ensures var after := P.Upsert(users, locals, sub, a);
            && (after.None? <==> UsernameRefused(users, locals, sub, a))
            && (after.Some? ==> (after.value == users <==> sub in users && Agrees(users[sub], a)))
  {
    var row := P.Row(users, sub, a);
    if sub in users {
      assert !P.Taken(users, locals, sub, users[sub].username);
      assert users[sub := row][sub] == row && users[sub := users[sub]] == users;
    } else {
      assert sub in users[sub := row];
    }
  }

  predicate UserReflected(users: P.Users, e: Entry) {
    if e.operation == "DELETE" then e.sub in users ==> !users[e.sub].isActive
    else e.sub in users && Agrees(users[e.sub], P.FromRepresentation(e.representation))
  }

  lemma UserReflectedIff(w: World, locals: set<string>, e: Entry)
    requires WorldOk(w, locals)
    ensures var a := AppliedUser(w, locals, e);
            && (a.Raised? <==> e.operation != "DELETE"
                               && UsernameRefused(w.users, locals, e.sub, P.FromRepresentation(e.representation)))
            && (a.Done? ==> (a.world == w <==> UserReflected(w.users, e)))
  {
    if e.operation == "DELETE" {
      if e.sub in w.users {
        assert P.Deactivated(w.users, e.sub)[e.sub] == w.users[e.sub].(isActive := false);
        assert w.users[e.sub := w.users[e.sub]] == w.users;
      }
    } else {
      UpsertIff(w.users, locals, e.sub, P.FromRepresentation(e.representation));
    }
  }

  // -------------------------------------------------------------------- events

  /** The tables already say what the event says. */
  ghost predicate Reflected(slugify: string -> string, w: World, e: Entry) {
    match e.kind
    case GroupKind => GroupReflected(slugify, w.db.orgs, RefOf(e))
    case MembershipKind =>
      e.sub in w.users ==> MembershipReflected(slugify, w.db, e.sub, RefOf(e), e.operation != "DELETE")
    case UserKind => UserReflected(w.users, e)
  }

  /** A unique constraint stands against the event. */
  predicate Stopped(locals: set<string>, w: World, e: Entry) {
    match e.kind
    case GroupKind => RenameRefused(w.db.orgs, RefOf(e).groupId, NormalizePath(RefOf(e).path))
    case MembershipKind => false
    case UserKind =>
      e.operation != "DELETE" && UsernameRefused(w.users, locals, e.sub, P.FromRepresentation(e.representation))
  }

  /** The effect of a stored event raises exactly when a unique constraint stands against it, and
      otherwise changes nothing exactly when the tables already say what it says. */
  lemma EffectFreeIff(slugify: string -> string, locals: set<string>, w: World, e: Entry)
    requires WorldOk(w, locals) && HasKeys(e)
    ensures var a := Effect(slugify, locals, w, e);
            && (a.Raised? <==> Stopped(locals, w, e))
            && (a.Done? ==> (a.world == w <==> Reflected(slugify, w, e)))
  {
    match e.kind {
      case GroupKind => GroupReflectedIff(slugify, w.db.orgs, RefOf(e));
      case MembershipKind => MembershipReflectedIff(slugify, w.db, e.sub, RefOf(e), e.operation != "DELETE");
      case UserKind => UserReflectedIff(w, locals, e);
    }
  }

  /** A run of the event that dies at `crash`, if at all, has nothing to write. */
  ghost predicate NothingToWrite(slugify: string -> string, locals: set<string>, w: World, e: Entry, crash: Crash) {
    if crash == Midway then e.kind == GroupKind ==> Resolves(slugify, w.db.orgs, RefOf(e))
    else Stopped(locals, w, e) || Reflected(slugify, w, e)
  }

  lemma RunFreeIff(slugify: string -> string, locals: set<string>, w: World, ledger: Ledger, id: string, crash: Crash)
    requires WorldOk(w, locals) && id in ledger && HasKeys(ledger[id].entry)
    ensures Processed(slugify, locals, ledger, w, id, crash).1 == w
            <==> ledger[id].processed || NothingToWrite(slugify, locals, w, ledger[id].entry, crash)
  {
    EffectFreeIff(slugify, locals, w, ledger[id].entry);
    ResolvesIff(slugify, w.db.orgs, RefOf(ledger[id].entry));
  }

  /** A retry, after a crash and whatever else was delivered, run or written from outside since,
      leaves the tables alone exactly when the event is marked processed or has nothing to write. */
  lemma {:induction false} RetryFreeIff(slugify: string -> string, locals: set<string>, orgReplication: bool, s: Sys, died: Crash,
                     steps: seq<Step>, id: string, crash: Crash)
    requires SysOk(locals, s) && id in s.ledger
    ensures var s' := Run(slugify, locals, orgReplication, s, [Work(id, died)] + steps);
            && SysOk(locals, s') && id in s'.ledger && s'.ledger[id].entry == s.ledger[id].entry
            && (Next(slugify, locals, orgReplication, s', Work(id, crash)).world == s'.world
                <==> s'.ledger[id].processed || NothingToWrite(slugify, locals, s'.world, s.ledger[id].entry, crash))
  {
    PipelineSafe(slugify, locals, orgReplication, s, [Work(id, died)] + steps);
    var s' := Run(slugify, locals, orgReplication, s, [Work(id, died)] + steps);
    RunFreeIff(slugify, locals, s'.world, s'.ledger, id, crash);
  }

  /** An effect that went through is reflected in the tables, so what makes a retry write can only be a
      later write. */
  lemma AppliedIsReflected(slugify: string -> string, locals: set<string>, w: World, e: Entry)
    requires WorldOk(w, locals) && HasKeys(e) && Effect(slugify, locals, w, e).Done?
    ensures Reflected(slugify, Effect(slugify, locals, w, e).world, e)
  {
    EffectTwice(slugify, locals, w, e);
    EffectFreeIff(slugify, locals, Effect(slugify, locals, w, e).world, e);
  }

  function SwitchedOff(w: World, sub: string): World {
    w.(users := P.Deactivated(w.users, sub))
  }

  /** It happens: an event that enables its user leaves `once` and its worker dies before the mark, the
      user is deactivated from elsewhere, and the retry undoes that. */
  lemma RetryReactivates(slugify: string -> string, locals: set<string>, w: World, e: Entry, once: World)
    requires WorldOk(w, locals) && HasKeys(e) && e.kind == UserKind && Effect(slugify, locals, w, e) == Done(once, "")
    requires e.operation != "DELETE" && P.FromRepresentation(e.representation).enabled == Some(true)
    ensures SwitchedOff(once, e.sub) != once && WorldOk(SwitchedOff(once, e.sub), locals)
    ensures Effect(slugify, locals, SwitchedOff(once, e.sub), e) == Done(once, "")
  {
    UpsertEvent(slugify, locals, w, e);
    Reactivated(w, locals, e.sub, P.FromRepresentation(e.representation), once);
    UpsertEvent(slugify, locals, SwitchedOff(once, e.sub), e);
  }

  lemma UpsertEvent(slugify: string -> string, locals: set<string>, w: World, e: Entry)
    requires WorldOk(w, locals) && HasKeys(e) && e.kind == UserKind && e.operation != "DELETE"
    ensures Effect(slugify, locals, w, e) == AppliedUpsert(w, locals, e.sub, P.FromRepresentation(e.representation))
  {
  }

  lemma Reactivated(w: World, locals: set<string>, sub: string, a: P.Attributes, once: World)
    requires WorldOk(w, locals) && AppliedUpsert(w, locals, sub, a) == Done(once, "") && a.enabled == Some(true)
    ensures SwitchedOff(once, sub) != once && WorldOk(SwitchedOff(once, sub), locals)
    ensures AppliedUpsert(SwitchedOff(once, sub), locals, sub, a) == Done(once, "")
  {
    UpsertTwice(locals, w, sub, a);
    UpsertIff(once.users, locals, sub, a);
    DeactivateKeepsUnique(once.users, locals, sub);
    Reapplied(once.users, P.Deactivated(once.users, sub), locals, sub, a);
  }

  /** A user whose row agrees with an enabling snapshot gets that row back by it when deactivated. */
  lemma Reapplied(users: P.Users, off: P.Users, locals: set<string>, sub: string, a: P.Attributes)
    requires P.UsernamesUnique(users, locals) && sub in users && Agrees(users[sub], a) && a.enabled == Some(true)
    requires off == P.Deactivated(users, sub)
    ensures off != users && P.Upsert(off, locals, sub, a) == Some(users)
  {
    P.TakenByOthers(users, locals, sub, off[sub], users[sub].username);
    assert !P.Taken(users, locals, sub, users[sub].username);
    assert off[sub] == users[sub].(isActive := false) && P.Row(off, sub, a) == users[sub];
    assert off[sub := users[sub]] == users;
  }
}
