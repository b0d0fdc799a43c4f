/** Whole runs of logins and admin events: the incremental path agrees with the authoritative one,
    a login's outcome forgets earlier group-derived statuses, and manual rows are never touched. */
module MembershipRuns {
  import opened Basics
  import opened GroupRefs
  import opened OrgTable
  import opened Reconcile
  import opened ResolveRace
  import opened TokenLogins

  /** Organizations where the user is active through Keycloak. */
  function ActiveOrgs(members: Members, user: string): set<nat> {
    set k | k in members && k.user == user && members[k].origin == Keycloak && members[k].status == Active :: k.org
  }

  // ----------------------------------------- what a login makes of the statuses

  /** After a login the active group-derived memberships are the token's organizations without the
      manual ones, and every other group-derived row of the user is revoked without roles. */
  lemma {:induction false} LoginDecides(slugify: string -> string, db: Db, user: string, refs: seq<GroupRef>,
                                        codes: set<string>, now: int)
    requires DbOk(db)
    ensures var after := LoginRefs(slugify, db, user, refs, codes, now);
            && DbOk(after)
            && ActiveOrgs(after.members, user) == ResolvedAll(slugify, db.orgs, refs).1 - ManualOrgs(db.members, user)
            && forall k :: k in after.members && RevokedHere(after.members, user, k) ==>
                 after.members[k].status == Revoked && after.members[k].roles == {}
  {
    ResolvedAllGrows(slugify, db.orgs, refs);
    var (orgs', wanted) := ResolvedAll(slugify, db.orgs, refs);
    ReconciledStatuses(db.members, orgs', user, wanted, codes, now);
  }

  predicate RevokedHere(members: Members, user: string, k: Key)
    requires k in members
  {
    k.user == user && members[k].origin == Keycloak && k.org !in ActiveOrgs(members, user)
  }

  lemma ReconciledStatuses(members: Members, orgs: Orgs, user: string, wanted: set<nat>, codes: set<string>, now: int)
    requires (forall o :: o in wanted ==> o < |orgs|) && (forall k :: k in members ==> k.org < |orgs|)
    ensures var after := Reconciled(members, orgs, user, wanted, Pass(codes, true, now));
            && (forall k :: k in after ==> k.org < |orgs|)
            && ActiveOrgs(after, user) == wanted - ManualOrgs(members, user)
            && forall k :: k in after && k.user == user && after[k].origin == Keycloak && k.org !in wanted ==>
                 after[k].status == Revoked && after[k].roles == {}
  {
    var after := Reconciled(members, orgs, user, wanted, Pass(codes, true, now));
    forall o | o in wanted && o !in ManualOrgs(members, user) ensures o in ActiveOrgs(after, user) {
      assert Key(o, user) in after && after[Key(o, user)].origin == Keycloak;
    }
  }

  /** Earlier group-derived statuses do not matter: from any two states with the same organizations
      and manual rows, the same token leads to the same active organizations. */
  lemma HistoryForgotten(slugify: string -> string, db1: Db, db2: Db, user: string, refs: seq<GroupRef>,
                         codes: set<string>, now: int)
    requires DbOk(db1) && DbOk(db2) && db1.orgs == db2.orgs
    requires ManualOrgs(db1.members, user) == ManualOrgs(db2.members, user)
    ensures ActiveOrgs(LoginRefs(slugify, db1, user, refs, codes, now).members, user)
            == ActiveOrgs(LoginRefs(slugify, db2, user, refs, codes, now).members, user)
  {
    LoginDecides(slugify, db1, user, refs, codes, now);
    LoginDecides(slugify, db2, user, refs, codes, now);
  }

  // ---------------------------------------- incremental agrees with authoritative

  /** A row that carries a group's id carries the group's path, or none yet. */
  ghost predicate Consistent(idOf: map<string, string>, orgs: Orgs) {
    && KeysUnique(orgs)
    && forall i, p :: 0 <= i < |orgs| && p in idOf && orgs[i].groupId == Some(idOf[p]) ==> orgs[i].path == p || orgs[i].path == ""
  }

  ghost predicate FitsRef(idOf: map<string, string>, ref: GroupRef) {
    FitsKeys(idOf, ref.groupId, NormalizePath(ref.path))
  }

  ghost predicate FitsKeys(idOf: map<string, string>, id: Option<string>, path: string) {
    path in idOf && (Truthy(id) ==> id == Some(idOf[path]))
  }

  /** Only the returned row may gain the path. */
  ghost predicate PathsKept(orgs: Orgs, orgs': Orgs, r: Option<nat>) {
    && |orgs| <= |orgs'|
    && forall i :: 0 <= i < |orgs'| && Some(i) != r ==> i < |orgs| && orgs'[i].path == orgs[i].path
  }

  /** A search for a group ends at the one row with its path, if there is one at all. */
  lemma LookupFits(idOf: map<string, string>, orgs: Orgs, id: Option<string>, path: string)
    requires Groups(idOf) && Consistent(idOf, orgs) && FitsKeys(idOf, id, path)
    ensures var (orgs', r) := Lookup(orgs, id, path);
            && Consistent(idOf, orgs') && PathsKept(orgs, orgs', r)
            && (r.Some? ==> r.value < |orgs'| && orgs'[r.value].path == path)
            && (r.None? ==> forall i :: 0 <= i < |orgs| ==> orgs[i].path != path)
  {
    LookupGrows(orgs, id, path);
  }

  lemma ResolvedFits(slugify: string -> string, idOf: map<string, string>, orgs: Orgs, ref: GroupRef)
    requires Groups(idOf) && Consistent(idOf, orgs) && FitsRef(idOf, ref)
    ensures var (orgs', r) := Resolved(slugify, orgs, ref);
            && Consistent(idOf, orgs') && PathsKept(orgs, orgs', r)
            && (r.Some? ==> r.value < |orgs'| && orgs'[r.value].path == NormalizePath(ref.path))
  {
    LookupFits(idOf, orgs, ref.groupId, NormalizePath(ref.path));
    ResolvedGrows(slugify, orgs, ref);
    if Found(orgs, ref).1.None? {
      CreatedGrows(slugify, orgs, ref, 0);
      var (orgs', r) := Resolved(slugify, orgs, ref);
      AppendFits(idOf, orgs, orgs', ref.groupId, NormalizePath(ref.path));
    }
  }

  lemma AppendFits(idOf: map<string, string>, orgs: Orgs, orgs': Orgs, id: Option<string>, path: string)
    requires Groups(idOf) && Consistent(idOf, orgs) && FitsKeys(idOf, id, path)
    requires orgs' == orgs || (|orgs'| == |orgs| + 1 && orgs'[..|orgs|] == orgs && KeysUnique(orgs'))
    requires orgs' != orgs ==> orgs'[|orgs|].path == path && orgs'[|orgs|].groupId == if Truthy(id) then id else None
    ensures Consistent(idOf, orgs') && PathsKept(orgs, orgs', if orgs' == orgs then None else Some(|orgs|))
  {
  }

  /** The user's active group-derived memberships are exactly those of the groups, manual rows aside. */
  ghost predicate Matches(db: Db, user: string, groups: set<string>) {
    Mirrors(db.orgs, ActiveOrgs(db.members, user), ManualOrgs(db.members, user), groups)
  }

  ghost predicate Mirrors(orgs: Orgs, active: set<nat>, manual: set<nat>, groups: set<string>) {
    && (forall p :: p in groups ==> p != "" && HasPath(orgs, p))
    && (forall i: nat :: i < |orgs| ==> (i in active <==> orgs[i].path in groups && i !in manual))
  }

  ghost predicate HasPath(orgs: Orgs, path: string) {
    exists i :: 0 <= i < |orgs| && orgs[i].path == path
  }

  datatype GroupEvent = GroupEvent(ref: GroupRef, added: bool)

  function Play(slugify: string -> string, db: Db, user: string, events: seq<GroupEvent>): Db
    decreases |events|
  {
    if events == [] then db
    else Play(slugify, Changed(slugify, db, user, events[0].ref, events[0].added), user, events[1..])
  }

  function Folded(groups: set<string>, events: seq<GroupEvent>): set<string>
    decreases |events|
  {
    if events == [] then groups
    else Folded(After(groups, events[0]), events[1..])
  }

  function After(groups: set<string>, e: GroupEvent): set<string> {
    var p := NormalizePath(e.ref.path);
    if e.added then groups + {p} else groups - {p}
  }

  /** No join along the way meets used-up slugs. */
  ghost predicate NeverExhausted(slugify: string -> string, db: Db, user: string, events: seq<GroupEvent>)
    decreases |events|
  {
    events == []
    || ((events[0].added ==> Resolved(slugify, db.orgs, events[0].ref).1.Some?)
        && NeverExhausted(slugify, Changed(slugify, db, user, events[0].ref, events[0].added), user, events[1..]))
  }

  lemma JoinedActive(members: Members, user: string, r: nat)
    ensures var after := Joined(members, Key(r, user));
            && ManualOrgs(after, user) == ManualOrgs(members, user)
            && ActiveOrgs(after, user) == ActiveOrgs(members, user) + ({r} - ManualOrgs(members, user))
  {
    var after := Joined(members, Key(r, user));
    assert Key(r, user) in after;
    forall o | o in ManualOrgs(members, user) + ActiveOrgs(members, user)
      ensures Key(o, user) in after && after[Key(o, user)].origin == members[Key(o, user)].origin {}
  }

  lemma LeftActive(members: Members, user: string, r: nat)
    ensures var after := Left(members, Key(r, user));
            && ManualOrgs(after, user) == ManualOrgs(members, user)
            && ActiveOrgs(after, user) == ActiveOrgs(members, user) - {r}
  {
    var after := Left(members, Key(r, user));
    forall o | o in ManualOrgs(members, user) + ActiveOrgs(members, user)
      ensures Key(o, user) in after && after[Key(o, user)].origin == members[Key(o, user)].origin {}
  }

  /** The group whose row is `r` is joined or left; every other row keeps its path. */
  lemma MirrorsAfter(orgs: Orgs, orgs': Orgs, active: set<nat>, manual: set<nat>, groups: set<string>, path: string, r: nat,
                     added: bool)
    requires KeysUnique(orgs') && path != "" && Mirrors(orgs, active, manual, groups)
    requires (forall i :: i in active ==> i < |orgs|) && (forall i :: i in manual ==> i < |orgs|)
    requires PathsKept(orgs, orgs', Some(r)) && r < |orgs'| && orgs'[r].path == path
    requires r < |orgs| ==> orgs[r].path == path || orgs[r].path == ""
    ensures added ==> Mirrors(orgs', active + ({r} - manual), manual, groups + {path})
    ensures !added ==> Mirrors(orgs', active - {r}, manual, groups - {path})
  {
    forall i: nat | i < |orgs'| && i != r ensures i < |orgs| && orgs'[i].path == orgs[i].path && orgs'[i].path != path {
      assert Apart(orgs'[if i < r then i else r], orgs'[if i < r then r else i]);
    }
    assert HasPath(orgs', path);
    forall p | p in groups && p != path ensures HasPath(orgs', p) {
      var i :| 0 <= i < |orgs| && orgs[i].path == p;
      assert i != r;
      assert orgs'[i].path == p;
    }
  }

  lemma MatchesAfter(slugify: string -> string, idOf: map<string, string>, db: Db, user: string, groups: set<string>,
                     e: GroupEvent)
    requires Groups(idOf) && DbOk(db) && Consistent(idOf, db.orgs) && FitsRef(idOf, e.ref) && Matches(db, user, groups)
    requires e.added ==> Resolved(slugify, db.orgs, e.ref).1.Some?
    ensures var db' := Changed(slugify, db, user, e.ref, e.added);
            DbOk(db') && Consistent(idOf, db'.orgs) && Matches(db', user, After(groups, e))
  {
    var (orgs', r) := if e.added then Resolved(slugify, db.orgs, e.ref) else Found(db.orgs, e.ref);
    ChangedIs(slugify, db, user, e.ref, e.added, orgs', r);
    EventFits(slugify, idOf, db.orgs, e, orgs', r);
    if r.Some? {
      MembersMatch(db, orgs', user, groups, NormalizePath(e.ref.path), r.value, e.added);
    } else if e.added {
      assert false;
    } else {
      NoOneLeaves(db, user, groups, NormalizePath(e.ref.path));
    }
  }

  lemma NoOneLeaves(db: Db, user: string, groups: set<string>, path: string)
    requires Matches(db, user, groups) && !HasPath(db.orgs, path)
    ensures Matches(db, user, groups - {path})
  {
    assert groups - {path} == groups;
  }

  lemma MembersMatch(db: Db, orgs': Orgs, user: string, groups: set<string>, path: string, r: nat, added: bool)
    requires DbOk(db) && Matches(db, user, groups) && KeysUnique(orgs') && path != ""
    requires PathsKept(db.orgs, orgs', Some(r)) && r < |orgs'| && orgs'[r].path == path
    requires r < |db.orgs| ==> db.orgs[r].path == path || db.orgs[r].path == ""
    ensures Matches(Db(orgs', AfterChange(db.members, user, Some(r), added)), user,
                    if added then groups + {path} else groups - {path})
  {
    MirrorsAfter(db.orgs, orgs', ActiveOrgs(db.members, user), ManualOrgs(db.members, user), groups, path, r, added);
    if added { JoinedActive(db.members, user, r); } else { LeftActive(db.members, user, r); }
  }

  lemma EventFits(slugify: string -> string, idOf: map<string, string>, orgs: Orgs, e: GroupEvent, orgs': Orgs, r: Option<nat>)
    requires Groups(idOf) && Consistent(idOf, orgs) && FitsRef(idOf, e.ref)
    requires (orgs', r) == if e.added then Resolved(slugify, orgs, e.ref) else Found(orgs, e.ref)
    ensures Consistent(idOf, orgs') && PathsKept(orgs, orgs', r)
    ensures NormalizePath(e.ref.path) != ""
    ensures r.Some? ==> r.value < |orgs'| && orgs'[r.value].path == NormalizePath(e.ref.path)
    ensures r.Some? && r.value < |orgs| ==> orgs[r.value].path == NormalizePath(e.ref.path) || orgs[r.value].path == ""
    ensures r.None? && !e.added ==> orgs' == orgs && !HasPath(orgs, NormalizePath(e.ref.path))
  {
    if e.added {
      ResolvedFits(slugify, idOf, orgs, e.ref);
      ResolvedGrows(slugify, orgs, e.ref);
    } else {
      LookupFits(idOf, orgs, e.ref.groupId, NormalizePath(e.ref.path));
      FoundGrows(orgs, e.ref);
      LeavesAlone(orgs, e.ref);
    }
  }

  lemma LeavesAlone(orgs: Orgs, ref: GroupRef)
    ensures Found(orgs, ref).1.None? ==> Found(orgs, ref).0 == orgs
  {
    if Found(orgs, ref).1.None? {
      FoundNothing(orgs, ref);
    }
  }

  /** Folding any events leaves the active memberships matching the folded group set. */
  lemma {:induction false} IncrementalAgrees(slugify: string -> string, idOf: map<string, string>, db: Db, user: string,
                                             groups: set<string>, events: seq<GroupEvent>)
    requires Groups(idOf) && DbOk(db) && Consistent(idOf, db.orgs) && Matches(db, user, groups)
    requires (forall e :: e in events ==> FitsRef(idOf, e.ref)) && NeverExhausted(slugify, db, user, events)
    ensures var db' := Play(slugify, db, user, events);
            && DbOk(db') && Consistent(idOf, db'.orgs) && Matches(db', user, Folded(groups, events))
            && (Healthy(db.members) ==> Healthy(db'.members))
    decreases |events|
  {
    if events != [] {
      ChangeKeeps(slugify, db, user, events[0].ref, events[0].added);
      MatchesAfter(slugify, idOf, db, user, groups, events[0]);
      IncrementalAgrees(slugify, idOf, Changed(slugify, db, user, events[0].ref, events[0].added), user,
                        After(groups, events[0]), events[1..]);
    }
  }

  // ---------------------------------------------------- the login afterwards

  function PathSet(refs: seq<GroupRef>): set<string> {
    set ref | ref in refs :: NormalizePath(ref.path)
  }

  /** Group-derived rows are active, or revoked and without roles. */
  ghost predicate Healthy(members: Members) {
    forall k :: k in members && members[k].origin == Keycloak ==>
      members[k].status == Active || (members[k].status == Revoked && members[k].roles == {})
  }

  /** Resolving paths that all have rows writes nothing and reaches exactly those rows. */
  lemma {:induction false} KnownPaths(slugify: string -> string, orgs: Orgs, refs: seq<GroupRef>)
    requires KeysUnique(orgs) && NoIds(refs)
    requires forall p :: p in PathSet(refs) ==> p != "" && HasPath(orgs, p)
    ensures ResolvedAll(slugify, orgs, refs).0 == orgs
    ensures forall i: nat :: i in ResolvedAll(slugify, orgs, refs).1 <==> i < |orgs| && orgs[i].path in PathSet(refs)
  {
    if refs != [] {
      var front, last := refs[..|refs| - 1], refs[|refs| - 1];
      assert last in refs && PathSet(refs) == PathSet(front) + {NormalizePath(last.path)};
      KnownPaths(slugify, orgs, front);
      KnownPath(slugify, orgs, last);
    }
  }

  lemma KnownPath(slugify: string -> string, orgs: Orgs, ref: GroupRef)
    requires KeysUnique(orgs) && ref.groupId == None && NormalizePath(ref.path) != "" && HasPath(orgs, NormalizePath(ref.path))
    ensures var (orgs', r) := Resolved(slugify, orgs, ref);
            orgs' == orgs && r.Some? && forall i :: 0 <= i < |orgs| ==> (orgs[i].path == NormalizePath(ref.path) <==> i == r.value)
  {
    PathResolved(slugify, orgs, ref);
    var r := FirstPath(orgs, NormalizePath(ref.path)).value;
    forall i | 0 <= i < |orgs| && i != r ensures orgs[i].path != NormalizePath(ref.path) {
      assert Apart(orgs[if i < r then i else r], orgs[if i < r then r else i]);
    }
  }

  /** A login with the group set the memberships already match changes no status, creates no
      organization and no membership. */
  lemma LoginConfirms(slugify: string -> string, db: Db, user: string, groups: set<string>, refs: seq<GroupRef>,
                      codes: set<string>, now: int)
    requires DbOk(db) && Matches(db, user, groups) && Healthy(db.members)
    requires NoIds(refs) && PathSet(refs) == groups
    ensures var after := LoginRefs(slugify, db, user, refs, codes, now);
            && after.orgs == db.orgs && after.members.Keys == db.members.Keys
            && forall k :: k in db.members ==> after.members[k].status == db.members[k].status
  {
    KnownPaths(slugify, db.orgs, refs);
    var wanted := ResolvedAll(slugify, db.orgs, refs).1;
    forall o | o in wanted ensures Key(o, user) in db.members {
      assert o in ActiveOrgs(db.members, user) || o in ManualOrgs(db.members, user);
    }
    StatusesConfirmed(db.members, db.orgs, user, wanted, codes, now);
  }

  lemma StatusesConfirmed(members: Members, orgs: Orgs, user: string, wanted: set<nat>, codes: set<string>, now: int)
    requires Healthy(members) && forall o :: o in wanted ==> o < |orgs| && Key(o, user) in members
    requires forall k :: k in members && k.user == user && members[k].origin == Keycloak ==>
               (members[k].status == Active <==> k.org in wanted)
    ensures var after := Reconciled(members, orgs, user, wanted, Pass(codes, true, now));
            && after.Keys == members.Keys
            && forall k :: k in members ==> after[k].status == members[k].status
  {
  }

  /** The incremental path agrees with the authoritative one: after any events, a login with the
      folded group set finds every status already as it would make it. */
  lemma {:induction false} EventsThenLogin(slugify: string -> string, idOf: map<string, string>, db: Db, user: string,
                                           groups: set<string>, events: seq<GroupEvent>, refs: seq<GroupRef>,
                                           codes: set<string>, now: int)
    requires Groups(idOf) && DbOk(db) && Consistent(idOf, db.orgs) && Matches(db, user, groups) && Healthy(db.members)
    requires (forall e :: e in events ==> FitsRef(idOf, e.ref)) && NeverExhausted(slugify, db, user, events)
    requires NoIds(refs) && PathSet(refs) == Folded(groups, events)
    ensures var before := Play(slugify, db, user, events);
            && DbOk(before)
            && var after := LoginRefs(slugify, before, user, refs, codes, now);
               && after.orgs == before.orgs && after.members.Keys == before.members.Keys
               && forall k :: k in before.members ==> after.members[k].status == before.members[k].status
  {
    IncrementalAgrees(slugify, idOf, db, user, groups, events);
    LoginConfirms(slugify, Play(slugify, db, user, events), user, Folded(groups, events), refs, codes, now);
  }

  // ------------------------------------------------------------------- runs

  datatype Step =
    | LoginStep(user: string, claim: Claim, codes: set<string>, now: int)
    | ChangeStep(user: string, ref: GroupRef, added: bool)
    | SyncStep(ref: GroupRef)

  function Next(slugify: string -> string, db: Db, step: Step): Db
    requires KeysUnique(db.orgs)
  {
    match step
    case LoginStep(user, claim, codes, now) => Login(slugify, db, user, claim, codes, now)
    case ChangeStep(user, ref, added) => Changed(slugify, db, user, ref, added)
    case SyncStep(ref) =>
      var s := SyncedFrom(slugify, db.orgs, ref);
      if s.Synced? then db.(orgs := s.orgs) else db
  }

  /** Every row stays, manual rows stay as they are, and no row changes hands. */
  ghost predicate RowsKept(members: Members, members': Members) {
    forall k :: k in members ==>
      && k in members' && members'[k].origin == members[k].origin
      && (members[k].origin == Manual ==> members'[k] == members[k])
  }

  lemma NextKeeps(slugify: string -> string, db: Db, step: Step)
    requires DbOk(db)
    ensures var db' := Next(slugify, db, step);
            DbOk(db') && RowsKept(db.members, db'.members) && (Healthy(db.members) ==> Healthy(db'.members))
  {
    match step {
      case LoginStep(user, claim, codes, now) =>
        if claim.Items? {
          LoginKeeps(slugify, db, user, PathRefs(claim.items), codes, now);
        }
      case ChangeStep(user, ref, added) =>
        ChangeKeeps(slugify, db, user, ref, added);
      case SyncStep(ref) =>
        SyncKeeps(slugify, db, ref);
    }
  }

  lemma LoginKeeps(slugify: string -> string, db: Db, user: string, refs: seq<GroupRef>, codes: set<string>, now: int)
    requires DbOk(db)
    ensures var db' := LoginRefs(slugify, db, user, refs, codes, now);
            DbOk(db') && RowsKept(db.members, db'.members) && (Healthy(db.members) ==> Healthy(db'.members))
  {
    ResolvedAllGrows(slugify, db.orgs, refs);
    var (orgs', wanted) := ResolvedAll(slugify, db.orgs, refs);
    ReconciledKeeps(db.members, orgs', user, wanted, codes, now);
  }

  lemma ReconciledKeeps(members: Members, orgs: Orgs, user: string, wanted: set<nat>, codes: set<string>, now: int)
    requires (forall o :: o in wanted ==> o < |orgs|) && (forall k :: k in members ==> k.org < |orgs|)
    ensures var members' := Reconciled(members, orgs, user, wanted, Pass(codes, true, now));
            && RowsKept(members, members') && (forall k :: k in members' ==> k.org < |orgs|)
            && (Healthy(members) ==> Healthy(members'))
  {
  }

  lemma ChangeKeeps(slugify: string -> string, db: Db, user: string, ref: GroupRef, added: bool)
    requires DbOk(db)
    ensures var db' := Changed(slugify, db, user, ref, added);
            DbOk(db') && RowsKept(db.members, db'.members) && (Healthy(db.members) ==> Healthy(db'.members))
  {
    var (orgs', r) := if added then Resolved(slugify, db.orgs, ref) else Found(db.orgs, ref);
    ChangedIs(slugify, db, user, ref, added, orgs', r);
  }

  lemma SyncKeeps(slugify: string -> string, db: Db, ref: GroupRef)
    requires DbOk(db)
    ensures DbOk(Next(slugify, db, SyncStep(ref)))
  {
    SyncedGrows(slugify, db.orgs, ref);
  }

  function RunSteps(slugify: string -> string, db: Db, steps: seq<Step>): Db
    requires DbOk(db)
    decreases |steps|
  {
    if steps == [] then db
    else
      NextKeeps(slugify, db, steps[0]);
      RunSteps(slugify, Next(slugify, db, steps[0]), steps[1..])
  }

  lemma {:induction false} RunThenStep(slugify: string -> string, db: Db, steps: seq<Step>, step: Step)
    requires DbOk(db)
    ensures DbOk(RunSteps(slugify, db, steps))
    ensures RunSteps(slugify, db, steps + [step]) == Next(slugify, RunSteps(slugify, db, steps), step)
    decreases |steps|
  {
    if steps == [] {
      assert steps + [step] == [step];
      assert [step][1..] == [];
    } else {
      NextKeeps(slugify, db, steps[0]);
      assert (steps + [step])[1..] == steps[1..] + [step];
      RunThenStep(slugify, Next(slugify, db, steps[0]), steps[1..], step);
    }
  }

  /** Whatever ran before, the login, join, leave or group event that comes last has its outcome. */
  lemma {:induction false} LastStepDecides(slugify: string -> string, db: Db, steps: seq<Step>, step: Step, key: Key)
    requires DbOk(db)
    ensures var before, after := RunSteps(slugify, db, steps), RunSteps(slugify, db, steps + [step]);
            && DbOk(before)
            && match step
               case LoginStep(user, claim, codes, now) =>
                 if claim.Items? then TokenOutcome(before, after, user, claim.items, codes, now, key) else after == before
               case ChangeStep(user, ref, added) =>
                 var (orgs', r) := if added then Resolved(slugify, before.orgs, ref) else Found(before.orgs, ref);
                 after.orgs == orgs' && ChangeOutcome(before, after.members, user, r, added, key)
               case SyncStep(ref) =>
                 after.members == before.members
                 && after.orgs == (var s := SyncedFrom(slugify, before.orgs, ref); if s.Synced? then s.orgs else before.orgs)
  {
    RunThenStep(slugify, db, steps, step);
    var before := RunSteps(slugify, db, steps);
    match step {
      case LoginStep(user, claim, codes, now) =>
        if claim.Items? { TokenDecides(slugify, before, user, claim.items, codes, now, key); }
      case ChangeStep(user, ref, added) => ChangeDecides(slugify, before, user, ref, added, key);
      case SyncStep(ref) =>
    }
  }

  /** Over every run: no membership row is deleted, manual rows keep status, origin, roles and
      expiry, and group-derived rows are active, or revoked without roles. */
  lemma {:induction false} ManualRowsSurvive(slugify: string -> string, db: Db, steps: seq<Step>)
    requires DbOk(db)
    ensures var db' := RunSteps(slugify, db, steps);
            && DbOk(db') && RowsKept(db.members, db'.members)
            && (Healthy(db.members) ==> Healthy(db'.members))
    decreases |steps|
  {
    if steps != [] {
      NextKeeps(slugify, db, steps[0]);
      ManualRowsSurvive(slugify, Next(slugify, db, steps[0]), steps[1..]);
    }
  }
}
