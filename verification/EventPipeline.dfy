/** The event pipeline end to end: the webhook's dedupe ledger (`keycloak_events`) and the worker
    that applies an event and marks it processed (`process_keycloak_admin_event`). */
module EventPipeline {
  import opened Basics
  import opened GroupRefs
  import opened OrgTable
  import opened Reconcile
  import opened Webhooks
  import P = Projection

  /** One ledger row. */
  datatype Record = Record(entry: Entry, processed: bool, error: string)
  type Ledger = map<string, Record>

  /** The replicated tables. A local user is identified by its Keycloak subject. */
  datatype World = World(users: P.Users, db: Db)

  ghost predicate WorldOk(w: World, locals: set<string>) {
    P.UsernamesUnique(w.users, locals) && DbOk(w.db)
  }

  /** What applying an event comes to: the tables afterwards and the error text to record, or an
      exception, which rolls back whatever was written. */
  datatype Applied = Done(world: World, error: string) | Raised

  /** The tables went from `before` to `after` as the effect says: a raise leaves them alone. */
  predicate Leaves(a: Applied, raised: bool, error: string, before: World, after: World) {
    if raised then a.Raised? && after == before else a == Done(after, error)
  }

  const NO_SUB := "event carried no keycloak sub"

  function AppliedGroup(slugify: string -> string, w: World, e: Entry): Applied
    requires KeysUnique(w.db.orgs)
  {
    AppliedSync(slugify, w, RefOf(e))
  }

  function AppliedSync(slugify: string -> string, w: World, ref: GroupRef): Applied
    requires KeysUnique(w.db.orgs)
  {
    var s := SyncedFrom(slugify, w.db.orgs, ref);
    if s.PathConflict? then Raised
    else if s.NoOrganization? then Done(w, "")
    else Done(w.(db := w.db.(orgs := s.orgs)), "")
  }

  /** A membership event of an unknown user is skipped. */
  function AppliedMembership(slugify: string -> string, w: World, e: Entry): Applied {
    if e.sub !in w.users then Done(w, "")
    else Done(w.(db := Changed(slugify, w.db, e.sub, RefOf(e), e.operation != "DELETE")), "")
  }

  function AppliedUser(w: World, locals: set<string>, e: Entry): Applied {
    if e.operation == "DELETE" then Done(w.(users := P.Deactivated(w.users, e.sub)), "")
    else AppliedUpsert(w, locals, e.sub, P.FromRepresentation(e.representation))
  }

  function AppliedUpsert(w: World, locals: set<string>, sub: string, a: P.Attributes): Applied {
    var users := P.Upsert(w.users, locals, sub, a);
    if users.None? then Raised else Done(w.(users := users.value), "")
  }

  /** Events about a user: they name one, or are skipped. */
  function AppliedToUser(slugify: string -> string, locals: set<string>, w: World, e: Entry): Applied {
    if e.sub == "" then Done(w, NO_SUB)
    else if e.kind == MembershipKind then AppliedMembership(slugify, w, e)
    else AppliedUser(w, locals, e)
  }

  function Effect(slugify: string -> string, locals: set<string>, w: World, e: Entry): Applied
    requires KeysUnique(w.db.orgs)
  {
    if e.kind == GroupKind then AppliedGroup(slugify, w, e) else AppliedToUser(slugify, locals, w, e)
  }

  // ---------------------------------------------------------------- worker

  /** Where a worker dies, if it does: inside the effect or between the effect and the mark. */
  datatype Crash = NoCrash | Midway | BeforeMark

  /** What a crash inside the effect leaves. A group event resolves its organization in one transaction
      and refreshes it in another; every other effect is one transaction. */
  function Partly(slugify: string -> string, w: World, e: Entry): World {
    if e.kind == GroupKind then PartlySynced(slugify, w, RefOf(e)) else w
  }

  function PartlySynced(slugify: string -> string, w: World, ref: GroupRef): World {
    w.(db := w.db.(orgs := Resolved(slugify, w.db.orgs, ref).0))
  }

  datatype Status =
    | Missing | AlreadyProcessed | SkippedNoSub | SkippedNoGroup | OrgCreated | OrgSynced | SkippedNoUser
    | GroupJoined | GroupRemoved | Deactivated | Created | Updated | Failed | Crashed

  function GroupStatus(slugify: string -> string, w: World, e: Entry): Status
    requires KeysUnique(w.db.orgs)
  {
    if SyncedFrom(slugify, w.db.orgs, RefOf(e)).NoOrganization? then SkippedNoGroup
    else if e.operation == "CREATE" then OrgCreated
    else OrgSynced
  }

  function MembershipStatus(w: World, e: Entry): Status {
    if e.sub !in w.users then SkippedNoUser else if e.operation != "DELETE" then GroupJoined else GroupRemoved
  }

  function UserStatus(w: World, e: Entry): Status {
    if e.operation == "DELETE" then Deactivated else if e.sub in w.users then Updated else Created
  }

  function UserEventStatus(w: World, e: Entry): Status {
    if e.sub == "" then SkippedNoSub else if e.kind == MembershipKind then MembershipStatus(w, e) else UserStatus(w, e)
  }

  /** The status of a run whose effect went through. */
  function DoneStatus(slugify: string -> string, w: World, e: Entry): Status
    requires KeysUnique(w.db.orgs)
  {
    if e.kind == GroupKind then GroupStatus(slugify, w, e) else UserEventStatus(w, e)
  }

  function StatusOf(slugify: string -> string, locals: set<string>, ledger: Ledger, w: World, id: string, crash: Crash): Status
    requires KeysUnique(w.db.orgs)
  {
    if id !in ledger then Missing
    else if ledger[id].processed then AlreadyProcessed
    else if crash == Midway then Crashed
    else if Effect(slugify, locals, w, ledger[id].entry).Raised? then Failed
    else if crash == BeforeMark then Crashed
    else DoneStatus(slugify, w, ledger[id].entry)
  }

  class Pipeline {
    const slugify: string -> string
    const orgReplication: bool
    const users: P.UserTable
    const directory: Directory
    var ledger: Ledger
    var enqueued: seq<string>

    constructor (slugify: string -> string, orgReplication: bool, users: P.UserTable, directory: Directory)
      requires directory.table.slugify == slugify
      ensures this.users == users && this.directory == directory && this.slugify == slugify
      ensures ledger == map[] && enqueued == [] && this.orgReplication == orgReplication && Wired()
    {
      this.slugify, this.orgReplication, this.users, this.directory := slugify, orgReplication, users, directory;
      ledger, enqueued := map[], [];
    }

    ghost predicate Wired() {
      directory.table.slugify == slugify
    }

    function Tables(): World
      reads users, directory, directory.table
    {
      World(users.users, Db(directory.table.orgs, directory.members))
    }

    /** `keycloak_events` after authentication: a new event is stored and enqueued, a known one is not. */
    method KeycloakEvents(payload: Payload) returns (created: bool)
      modifies this
      ensures var entry := LedgerEntry(payload, orgReplication);
              && (created <==> entry.Some? && entry.value.0 !in old(ledger))
              && ledger == (if created then old(ledger)[entry.value.0 := Record(entry.value.1, false, "")] else old(ledger))
              && enqueued == (if created then old(enqueued) + [entry.value.0] else old(enqueued))
    {
      var entry := LedgerEntry(payload, orgReplication);
      created := entry.Some? && entry.value.0 !in ledger;
      if created {
        ledger := ledger[entry.value.0 := Record(entry.value.1, false, "")];
        enqueued := enqueued + [entry.value.0];
      }
    }

    method ApplyGroup(e: Entry) returns (raised: bool, status: Status)
      requires Wired() && WorldOk(Tables(), users.locals)
      modifies directory.table
      ensures WorldOk(Tables(), users.locals)
      ensures Leaves(AppliedGroup(slugify, old(Tables()), e), raised, "", old(Tables()), Tables())
      ensures raised || status == GroupStatus(slugify, old(Tables()), e)
    {
      var s := directory.table.SyncOrganizationFromGroup(RefOf(e));
      GroupWorld(slugify, old(Tables()), users.locals, e);
      raised := s.PathConflict?;
      status := if s.NoOrganization? then SkippedNoGroup else if e.operation == "CREATE" then OrgCreated else OrgSynced;
    }

    /** The first of a group event's two transactions, and then a crash. */
    method ApplyPartly(e: Entry)
      requires Wired() && WorldOk(Tables(), users.locals)
      modifies directory.table
      ensures WorldOk(Tables(), users.locals) && Tables() == Partly(slugify, old(Tables()), e)
    {
      PartlyOk(slugify, users.locals, Tables(), e);
      if e.kind == GroupKind {
        var _ := directory.table.ResolveOrCreateOrganization(RefOf(e));
      }
    }

    method ApplyGroupMembership(e: Entry) returns (status: Status)
      requires Wired() && WorldOk(Tables(), users.locals)
      modifies directory, directory.table
      ensures WorldOk(Tables(), users.locals)
      ensures Leaves(AppliedMembership(slugify, old(Tables()), e), false, "", old(Tables()), Tables())
      ensures status == MembershipStatus(old(Tables()), e)
    {
      if e.sub !in users.users {
        return SkippedNoUser;
      }
      directory.ApplyGroupMembershipChange(e.sub, RefOf(e), e.operation != "DELETE");
      status := if e.operation != "DELETE" then GroupJoined else GroupRemoved;
    }

    method ApplyUser(e: Entry) returns (raised: bool, status: Status)
      requires WorldOk(Tables(), users.locals) && e.sub != ""
      modifies users
      ensures WorldOk(Tables(), users.locals)
      ensures Leaves(AppliedUser(old(Tables()), users.locals, e), raised, "", old(Tables()), Tables())
      ensures raised || status == UserStatus(old(Tables()), e)
    {
      raised, status := false, Deactivated;
      if e.operation == "DELETE" {
        var _ := users.DeactivateUserProjection(e.sub);
        DeactivateKeepsUnique(old(users.users), users.locals, e.sub);
      } else {
        raised, status := ApplyUpsert(e.sub, P.FromRepresentation(e.representation));
      }
    }

    method ApplyUpsert(sub: string, a: P.Attributes) returns (raised: bool, status: Status)
      requires WorldOk(Tables(), users.locals) && sub != ""
      modifies users
      ensures WorldOk(Tables(), users.locals)
      ensures Leaves(AppliedUpsert(old(Tables()), users.locals, sub, a), raised, "", old(Tables()), Tables())
      ensures raised || status == if sub in old(users.users) then Updated else Created
    {
      if P.Upsert(users.users, users.locals, sub, a).Some? {
        P.UpsertKeepsUnique(users.users, users.locals, sub, a);
      }
      var outcome := users.UpsertUserProjection(sub, a);
      raised := outcome.UsernameTaken?;
      status := if outcome.Upserted? && outcome.created then Created else Updated;
    }

    /** The branches of the task on an event that is still to be applied. */
    method Apply(e: Entry) returns (raised: bool, error: string, status: Status)
      requires Wired() && WorldOk(Tables(), users.locals)
      modifies users, directory, directory.table
      ensures WorldOk(Tables(), users.locals)
      ensures Leaves(Effect(slugify, users.locals, old(Tables()), e), raised, error, old(Tables()), Tables())
      ensures raised || status == DoneStatus(slugify, old(Tables()), e)
    {
      if e.kind == GroupKind {
        error := "";
        raised, status := ApplyGroup(e);
      } else {
        raised, error, status := ApplyToUser(e);
      }
    }

    method ApplyToUser(e: Entry) returns (raised: bool, error: string, status: Status)
      requires Wired() && WorldOk(Tables(), users.locals)
      modifies users, directory, directory.table
      ensures WorldOk(Tables(), users.locals)
      ensures Leaves(AppliedToUser(slugify, users.locals, old(Tables()), e), raised, error, old(Tables()), Tables())
      ensures raised || status == UserEventStatus(old(Tables()), e)
    {
      raised, error := false, "";
      if e.sub == "" {
        error, status := NO_SUB, SkippedNoSub;
      } else if e.kind == MembershipKind {
        status := ApplyGroupMembership(e);
      } else {
        raised, status := ApplyUser(e);
      }
    }

    /** `process_keycloak_admin_event`, with the point at which the worker dies, if it does. */
    method ProcessKeycloakAdminEvent(eventId: string, crash: Crash) returns (status: Status)
      requires Wired() && WorldOk(Tables(), users.locals)
      modifies this`ledger, users, directory, directory.table
      ensures WorldOk(Tables(), users.locals)
      ensures (ledger, Tables()) == Processed(slugify, users.locals, old(ledger), old(Tables()), eventId, crash)
      ensures status == StatusOf(slugify, users.locals, old(ledger), old(Tables()), eventId, crash)
    {
      if eventId !in ledger {
        return Missing;
      }
      if ledger[eventId].processed {
        return AlreadyProcessed;
      }
      if crash == Midway {
        ApplyPartly(ledger[eventId].entry);
        return Crashed;
      }
      var raised, error, done := Apply(ledger[eventId].entry);
      if raised {
        return Failed;
      }
      if crash == BeforeMark {
        return Crashed;
      }
      ledger := ledger[eventId := ledger[eventId].(processed := true, error := error)];
      return done;
    }
  }

  /** One worker run on the ledger and the tables. */
  function Processed(slugify: string -> string, locals: set<string>, ledger: Ledger, w: World, id: string, crash: Crash):
    (Ledger, World)
    requires KeysUnique(w.db.orgs)
  {
    if id !in ledger || ledger[id].processed then (ledger, w)
    else if crash == Midway then (ledger, Partly(slugify, w, ledger[id].entry))
    else
      match Effect(slugify, locals, w, ledger[id].entry)
      case Raised => (ledger, w)
      case Done(w', error) =>
        (if crash == BeforeMark then ledger else ledger[id := ledger[id].(processed := true, error := error)], w')
  }

  lemma PartlyOk(slugify: string -> string, locals: set<string>, w: World, e: Entry)
    requires WorldOk(w, locals)
    ensures WorldOk(Partly(slugify, w, e), locals)
  {
    ResolvedGrows(slugify, w.db.orgs, RefOf(e));
  }

  lemma GroupWorld(slugify: string -> string, w: World, locals: set<string>, e: Entry)
    requires WorldOk(w, locals)
    ensures var a := AppliedGroup(slugify, w, e); a.Done? ==> WorldOk(a.world, locals)
  {
    SyncedGrows(slugify, w.db.orgs, RefOf(e));
  }

  lemma DeactivateKeepsUnique(users: P.Users, locals: set<string>, sub: string)
    requires P.UsernamesUnique(users, locals)
    ensures P.UsernamesUnique(P.Deactivated(users, sub), locals)
  {
    var users' := P.Deactivated(users, sub);
    forall s | s in users' ensures !P.Taken(users', locals, s, users'[s].username) {
      assert !P.Taken(users, locals, s, users[s].username);
    }
  }

  // ------------------------------------------------ one event, run repeatedly

  /** Applying one membership event twice is applying it once. */
  lemma ChangedAgain(slugify: string -> string, db: Db, user: string, ref: GroupRef, added: bool)
    requires DbOk(db) && HasKey(ref)
    ensures var once := Changed(slugify, db, user, ref, added); Changed(slugify, once, user, ref, added) == once
  {
    var (orgs', r) := if added then Resolved(slugify, db.orgs, ref) else Found(db.orgs, ref);
    ChangedIs(slugify, db, user, ref, added, orgs', r);
    LooksAgain(slugify, db.orgs, ref, added);
    ChangedIs(slugify, Db(orgs', AfterChange(db.members, user, r, added)), user, ref, added, orgs', r);
    SetTwice(db.members, user, r, added);
  }

  lemma SetTwice(members: Members, user: string, r: Option<nat>, added: bool)
    ensures var once := AfterChange(members, user, r, added); AfterChange(once, user, r, added) == once
  {
  }

  /** The organization of a reference with a key is found again without another write. */
  lemma LooksAgain(slugify: string -> string, orgs: Orgs, ref: GroupRef, added: bool)
    requires KeysUnique(orgs) && HasKey(ref)
    ensures added ==> Resolved(slugify, Resolved(slugify, orgs, ref).0, ref) == Resolved(slugify, orgs, ref)
    ensures !added ==> Found(Found(orgs, ref).0, ref) == Found(orgs, ref)
  {
    if added {
      ResolveAgainIff(slugify, orgs, ref);
    } else if Found(orgs, ref).1.Some? {
      FoundTwice(orgs, ref);
    } else {
      FoundNothing(orgs, ref);
    }
  }

  /** Applying a stored event again, with nothing in between, changes nothing more. */
  lemma EffectTwice(slugify: string -> string, locals: set<string>, w: World, e: Entry)
    requires WorldOk(w, locals) && HasKeys(e) && Effect(slugify, locals, w, e).Done?
    ensures var once := Effect(slugify, locals, w, e);
            WorldOk(once.world, locals) && Effect(slugify, locals, once.world, e) == once
  {
    match e.kind {
      case GroupKind => GroupTwice(slugify, locals, w, e);
      case MembershipKind => MembershipTwice(slugify, locals, w, e);
      case UserKind => UserTwice(slugify, locals, w, e);
    }
  }

  lemma GroupTwice(slugify: string -> string, locals: set<string>, w: World, e: Entry)
    requires WorldOk(w, locals) && e.groupId != "" && AppliedGroup(slugify, w, e).Done?
    ensures var once := AppliedGroup(slugify, w, e);
            WorldOk(once.world, locals) && AppliedGroup(slugify, once.world, e) == once
  {
    GroupWorld(slugify, w, locals, e);
    if SyncedFrom(slugify, w.db.orgs, RefOf(e)).Synced? {
      SyncAgain(slugify, w.db.orgs, RefOf(e));
    }
  }

  lemma MembershipTwice(slugify: string -> string, locals: set<string>, w: World, e: Entry)
    requires WorldOk(w, locals) && e.groupId != ""
    ensures var once := AppliedMembership(slugify, w, e);
            WorldOk(once.world, locals) && AppliedMembership(slugify, once.world, e) == once
  {
    if e.sub in w.users {
      var added := e.operation != "DELETE";
      var (orgs', r) := if added then Resolved(slugify, w.db.orgs, RefOf(e)) else Found(w.db.orgs, RefOf(e));
      ChangedIs(slugify, w.db, e.sub, RefOf(e), added, orgs', r);
      ChangedAgain(slugify, w.db, e.sub, RefOf(e), added);
    }
  }

  lemma UserTwice(slugify: string -> string, locals: set<string>, w: World, e: Entry)
    requires WorldOk(w, locals) && AppliedUser(w, locals, e).Done?
    ensures var once := AppliedUser(w, locals, e);
            WorldOk(once.world, locals) && AppliedUser(once.world, locals, e) == once
  {
    if e.operation == "DELETE" {
      DeactivateKeepsUnique(w.users, locals, e.sub);
    } else {
      UpsertTwice(locals, w, e.sub, P.FromRepresentation(e.representation));
    }
  }

  lemma UpsertTwice(locals: set<string>, w: World, sub: string, a: P.Attributes)
    requires WorldOk(w, locals) && AppliedUpsert(w, locals, sub, a).Done?
    ensures var once := AppliedUpsert(w, locals, sub, a);
            WorldOk(once.world, locals) && AppliedUpsert(once.world, locals, sub, a) == once
  {
    P.UpsertKeepsUnique(w.users, locals, sub, a);
    P.UpsertAgain(w.users, sub, a);
  }

  /** An effect that was cut short leaves nothing that changes the whole effect, and neither does one
      that is cut short after a whole one. */
  lemma PartlyThenWhole(slugify: string -> string, locals: set<string>, w: World, e: Entry)
    requires WorldOk(w, locals) && HasKeys(e)
    ensures var once, part := Effect(slugify, locals, w, e), Partly(slugify, w, e);
            && WorldOk(part, locals) && Partly(slugify, part, e) == part
            && Effect(slugify, locals, part, e) == once
            && (once.Raised? ==> part == w)
            && (once.Done? ==> Partly(slugify, once.world, e) == once.world)
  {
    PartlyOk(slugify, locals, w, e);
    if e.kind == GroupKind {
      PartlyGroup(slugify, w, RefOf(e));
    }
  }

  lemma PartlyGroup(slugify: string -> string, w: World, ref: GroupRef)
    requires KeysUnique(w.db.orgs) && HasKey(ref)
    ensures var once, part := AppliedSync(slugify, w, ref), PartlySynced(slugify, w, ref);
            && KeysUnique(part.db.orgs) && PartlySynced(slugify, part, ref) == part && AppliedSync(slugify, part, ref) == once
            && (once.Raised? ==> part == w)
            && (once.Done? ==> PartlySynced(slugify, once.world, ref) == once.world)
  {
    PartlyResolved(slugify, w.db.orgs, ref);
  }

  lemma PartlyResolved(slugify: string -> string, orgs: Orgs, ref: GroupRef)
    requires KeysUnique(orgs) && HasKey(ref)
    ensures var orgs', s := Resolved(slugify, orgs, ref).0, SyncedFrom(slugify, orgs, ref);
            && KeysUnique(orgs') && Resolved(slugify, orgs', ref).0 == orgs' && SyncedFrom(slugify, orgs', ref) == s
            && (!s.Synced? ==> orgs' == orgs)
            && (s.Synced? ==> Resolved(slugify, s.orgs, ref).0 == s.orgs)
  {
    ResolvedGrows(slugify, orgs, ref);
    ResolveAgainIff(slugify, orgs, ref);
    var s := SyncedFrom(slugify, orgs, ref);
    if s.Synced? {
      SyncAgain(slugify, orgs, ref);
    } else if s.PathConflict? {
      ConflictWritesNothing(slugify, orgs, ref);
    }
  }

  /** Worker runs of one event, one after the other; each may crash inside its effect or before its mark. */
  function Runs(slugify: string -> string, locals: set<string>, ledger: Ledger, w: World, id: string, crashes: seq<Crash>):
    (Ledger, World)
    requires WorldOk(w, locals)
    decreases |crashes|
  {
    if crashes == [] then (ledger, w)
    else
      ProcessedOk(slugify, locals, ledger, w, id, crashes[0]);
      var (ledger', w') := Processed(slugify, locals, ledger, w, id, crashes[0]);
      Runs(slugify, locals, ledger', w', id, crashes[1..])
  }

  lemma ProcessedOk(slugify: string -> string, locals: set<string>, ledger: Ledger, w: World, id: string, crash: Crash)
    requires WorldOk(w, locals)
    ensures WorldOk(Processed(slugify, locals, ledger, w, id, crash).1, locals)
  {
    if id in ledger && !ledger[id].processed {
      EffectOk(slugify, locals, w, ledger[id].entry);
      PartlyOk(slugify, locals, w, ledger[id].entry);
    }
  }

  lemma EffectOk(slugify: string -> string, locals: set<string>, w: World, e: Entry)
    requires WorldOk(w, locals)
    ensures var a := Effect(slugify, locals, w, e); a.Done? ==> WorldOk(a.world, locals)
  {
    if e.kind == GroupKind {
      GroupWorld(slugify, w, locals, e);
    } else if e.kind == MembershipKind && e.sub in w.users {
      var added := e.operation != "DELETE";
      var (orgs', r) := if added then Resolved(slugify, w.db.orgs, RefOf(e)) else Found(w.db.orgs, RefOf(e));
      ChangedIs(slugify, w.db, e.sub, RefOf(e), added, orgs', r);
    } else if e.kind == UserKind && e.sub != "" && e.operation == "DELETE" {
      DeactivateKeepsUnique(w.users, locals, e.sub);
    } else if e.kind == UserKind && e.sub != "" && AppliedUser(w, locals, e).Done? {
      UpsertTwice(locals, w, e.sub, P.FromRepresentation(e.representation));
    }
  }

  /** Some run got through its effect. */
  ghost predicate Reached(crashes: seq<Crash>) {
    exists i :: 0 <= i < |crashes| && crashes[i] != Midway
  }

  /** However often an event is run in a row and wherever the runs die, the tables end up as after one
      run as soon as one of them gets through its effect, and as after one broken-off run otherwise; and
      the event is marked exactly when some run that did not raise reached its mark. */
  lemma {:induction false} RunsAreOneRun(slugify: string -> string, locals: set<string>, ledger: Ledger, w: World, id: string,
                                         crashes: seq<Crash>)
    requires WorldOk(w, locals) && crashes != [] && id in ledger && HasKeys(ledger[id].entry) && !ledger[id].processed
    ensures var (ledger', w') := Runs(slugify, locals, ledger, w, id, crashes);
            && w' == Processed(slugify, locals, ledger, w, id, if Reached(crashes) then NoCrash else Midway).1
            && id in ledger'
            && (ledger'[id].processed <==> Effect(slugify, locals, w, ledger[id].entry).Done? && NoCrash in crashes)
    decreases |crashes|
  {
    var e := ledger[id].entry;
    var (ledger1, w1) := Processed(slugify, locals, ledger, w, id, crashes[0]);
    ProcessedOk(slugify, locals, ledger, w, id, crashes[0]);
    PartlyThenWhole(slugify, locals, w, e);
    if Effect(slugify, locals, w, e).Done? {
      EffectTwice(slugify, locals, w, e);
      PartlyThenWhole(slugify, locals, w1, e);
    }
    ReachedFirst(crashes);
    if Effect(slugify, locals, w, e).Done? && crashes[0] == NoCrash {
      ProcessedStays(slugify, locals, ledger1, w1, id, crashes[1..]);
    } else if |crashes| > 1 {
      RunsAreOneRun(slugify, locals, ledger1, w1, id, crashes[1..]);
    } else {
      assert crashes[1..] == [];
    }
  }

  lemma ReachedFirst(crashes: seq<Crash>)
    requires crashes != []
    ensures Reached(crashes) <==> crashes[0] != Midway || Reached(crashes[1..])
    ensures NoCrash in crashes <==> crashes[0] == NoCrash || NoCrash in crashes[1..]
  {
    if Reached(crashes[1..]) {
      var i :| 0 <= i < |crashes[1..]| && crashes[1..][i] != Midway;
      assert crashes[i + 1] == crashes[1..][i];
    }
    if Reached(crashes) && crashes[0] == Midway {
      var i :| 0 <= i < |crashes| && crashes[i] != Midway;
      assert crashes[1..][i - 1] == crashes[i];
    }
    assert crashes == [crashes[0]] + crashes[1..];
  }

  lemma {:induction false} ProcessedStays(slugify: string -> string, locals: set<string>, ledger: Ledger, w: World, id: string,
                                          crashes: seq<Crash>)
    requires WorldOk(w, locals) && id in ledger && ledger[id].processed
    ensures Runs(slugify, locals, ledger, w, id, crashes) == (ledger, w)
    decreases |crashes|
  {
    if crashes != [] {
      ProcessedStays(slugify, locals, ledger, w, id, crashes[1..]);
    }
  }

  // ------------------------------------------------------------- whole runs

  /** `pending` are requests that stored a new event and have not enqueued it yet. */
  datatype Sys = Sys(ledger: Ledger, pending: set<string>, enqueued: multiset<string>, world: World)

  /** Deliveries, duplicated or not; the enqueue that follows a stored event, or its loss; worker
      runs at any time and any number of times; and anything else that writes the tables. */
  datatype Step =
    | Receive(payload: Payload)
    | Enqueue(id: string)
    | Lose(id: string)
    | Work(id: string, crash: Crash)
    | Outside(world: World)

  ghost function Next(slugify: string -> string, locals: set<string>, orgReplication: bool, s: Sys, step: Step): Sys
    requires WorldOk(s.world, locals)
  {
    match step
    case Receive(payload) =>
      var entry := LedgerEntry(payload, orgReplication);
      if entry.None? || entry.value.0 in s.ledger then s
      else s.(ledger := s.ledger[entry.value.0 := Record(entry.value.1, false, "")], pending := s.pending + {entry.value.0})
    case Enqueue(id) =>
      if id in s.pending then s.(pending := s.pending - {id}, enqueued := s.enqueued + multiset{id}) else s
    case Lose(id) => s.(pending := s.pending - {id})
    case Work(id, crash) =>
      var (ledger', w') := Processed(slugify, locals, s.ledger, s.world, id, crash);
      s.(ledger := ledger', world := w')
    case Outside(w) => if WorldOk(w, locals) then s.(world := w) else s
  }

  ghost predicate SysOk(locals: set<string>, s: Sys) {
    && WorldOk(s.world, locals)
    && (forall id :: id in s.ledger ==> HasKeys(s.ledger[id].entry))
    && (forall id :: s.enqueued[id] + (if id in s.pending then 1 else 0) <= if id in s.ledger then 1 else 0)
  }

  /** Rows stay, keep their content, and once processed are never written again. */
  ghost predicate RowsKept(before: Ledger, after: Ledger) {
    forall id :: id in before ==>
      && id in after && after[id].entry == before[id].entry
      && (before[id].processed ==> after[id] == before[id])
  }

  lemma NextOk(slugify: string -> string, locals: set<string>, orgReplication: bool, s: Sys, step: Step)
    requires SysOk(locals, s)
    ensures var s' := Next(slugify, locals, orgReplication, s, step); SysOk(locals, s') && RowsKept(s.ledger, s'.ledger)
  {
    match step {
      case Receive(payload) => StoredEventsHaveKeys(payload, orgReplication);
      case Enqueue(id) =>
      case Lose(id) =>
      case Work(id, crash) => WorkOk(slugify, locals, orgReplication, s, id, crash);
      case Outside(w) =>
    }
  }

  lemma WorkOk(slugify: string -> string, locals: set<string>, orgReplication: bool, s: Sys, id: string, crash: Crash)
    requires SysOk(locals, s)
    ensures var s' := Next(slugify, locals, orgReplication, s, Work(id, crash));
            SysOk(locals, s') && RowsKept(s.ledger, s'.ledger)
  {
    ProcessedOk(slugify, locals, s.ledger, s.world, id, crash);
    MarkedOnly(slugify, locals, s.ledger, s.world, id, crash);
  }

  /** A run writes at most the mark of its own unprocessed row. */
  lemma MarkedOnly(slugify: string -> string, locals: set<string>, ledger: Ledger, w: World, id: string, crash: Crash)
    requires KeysUnique(w.db.orgs)
    ensures var ledger' := Processed(slugify, locals, ledger, w, id, crash).0;
            ledger' == ledger
            || (id in ledger && !ledger[id].processed
                && exists error :: ledger' == ledger[id := ledger[id].(processed := true, error := error)])
  {
  }

  ghost function Run(slugify: string -> string, locals: set<string>, orgReplication: bool, s: Sys, steps: seq<Step>): Sys
    requires SysOk(locals, s)
    decreases |steps|
  {
    if steps == [] then s
    else
      NextOk(slugify, locals, orgReplication, s, steps[0]);
      Run(slugify, locals, orgReplication, Next(slugify, locals, orgReplication, s, steps[0]), steps[1..])
  }

  /** Over all deliveries and worker runs: ledger rows stay as first stored until they are processed
      and for good afterwards, an event id is enqueued at most once, and only after its row exists. */
  lemma {:induction false} PipelineSafe(slugify: string -> string, locals: set<string>, orgReplication: bool, s: Sys,
                                        steps: seq<Step>)
    requires SysOk(locals, s)
    ensures var s' := Run(slugify, locals, orgReplication, s, steps);
            && SysOk(locals, s') && RowsKept(s.ledger, s'.ledger)
            && forall id :: s'.enqueued[id] <= 1 && (id in s'.enqueued ==> id in s'.ledger)
    decreases |steps|
  {
    if steps == [] {
      EnqueuedOnce(locals, s);
    } else {
      NextOk(slugify, locals, orgReplication, s, steps[0]);
      PipelineSafe(slugify, locals, orgReplication, Next(slugify, locals, orgReplication, s, steps[0]), steps[1..]);
    }
  }

  lemma EnqueuedOnce(locals: set<string>, s: Sys)
    requires SysOk(locals, s)
    ensures forall id :: s.enqueued[id] <= 1 && (id in s.enqueued ==> id in s.ledger)
  {
    forall id ensures s.enqueued[id] <= 1 && (id in s.enqueued ==> id in s.ledger) {
      assert s.enqueued[id] + (if id in s.pending then 1 else 0) <= if id in s.ledger then 1 else 0;
    }
  }

  /** Once an event is processed, every later worker run of it, after whatever else has happened,
      changes nothing at all; and a repeated delivery of it changes nothing either. */
  lemma {:induction false} ProcessedForGood(slugify: string -> string, locals: set<string>, orgReplication: bool, s: Sys,
                                            steps: seq<Step>, id: string, crash: Crash, payload: Payload)
    requires SysOk(locals, s) && id in s.ledger && s.ledger[id].processed
    ensures var s' := Run(slugify, locals, orgReplication, s, steps);
            && SysOk(locals, s')
            && Next(slugify, locals, orgReplication, s', Work(id, crash)) == s'
            && (LedgerEntry(payload, orgReplication).Some? && LedgerEntry(payload, orgReplication).value.0 == id ==>
                  Next(slugify, locals, orgReplication, s', Receive(payload)) == s')
  {
    PipelineSafe(slugify, locals, orgReplication, s, steps);
  }
}
