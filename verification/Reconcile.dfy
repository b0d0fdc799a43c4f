/** Memberships that follow Keycloak groups: the authoritative reconcile of a login, the
    incremental change of one admin event, and how the two agree
    (`apps/identity/org_replication.py`). */
module Reconcile {
  import opened Basics
  import opened GroupRefs
  import opened OrgTable

  datatype Status = Invited | Active | Suspended | Revoked
  datatype Origin = Keycloak | Manual

  datatype Membership = Membership(status: Status, origin: Origin, roles: set<string>, expiresAt: Option<int>)

  /** One membership per organization and user: the table's unique constraint. */
  datatype Key = Key(org: nat, user: string)
  type Members = map<Key, Membership>

  /** How a reconcile runs: the mapped role codes, authoritative or additive, and the time. */
  datatype Pass = Pass(codes: set<string>, prune: bool, now: int)

  predicate IsActive(m: Membership, org: Org, now: int) {
    m.status == Active && org.isActive && (m.expiresAt.None? || m.expiresAt.value > now)
  }

  const JOINED := Membership(Active, Keycloak, {}, None)

  /** The row `get_or_create` returns. */
  function RowAt(members: Members, key: Key): Membership {
    if key in members then members[key] else JOINED
  }

  /** `_sync_membership_roles`. */
  function WithRoles(m: Membership, org: Org, pass: Pass): Membership {
    if !IsActive(m, org, pass.now) then m
    else m.(roles := if pass.prune then pass.codes else m.roles + pass.codes)
  }

  /** A desired organization's row: manual rows are left alone. */
  function Granted(m: Membership, org: Org, pass: Pass): Membership {
    if m.origin == Manual then m else WithRoles(m.(status := Active), org, pass)
  }

  function Dropped(m: Membership): Membership {
    if m.origin == Manual then m else m.(status := Revoked, roles := {})
  }

  function UserOrgs(members: Members, user: string): set<nat> {
    set k | k in members && k.user == user :: k.org
  }

  function KeysOf(orgs: set<nat>, user: string): set<Key> {
    set o | o in orgs :: Key(o, user)
  }

  /** Every wanted organization's row granted, every other row as it was. */
  function GrantedAll(members: Members, orgs: Orgs, user: string, wanted: set<nat>, pass: Pass): Members
    requires forall o :: o in wanted ==> o < |orgs|
  {
    map k | k in members.Keys + KeysOf(wanted, user) ::
      if k.user == user && k.org in wanted then Granted(RowAt(members, k), orgs[k.org], pass) else members[k]
  }

  function DroppedAll(members: Members, user: string, drop: set<nat>): Members {
    map k | k in members :: if k.user == user && k.org in drop then Dropped(members[k]) else members[k]
  }

  /** `reconcile_user_memberships` as a set specification. */
  function Reconciled(members: Members, orgs: Orgs, user: string, wanted: set<nat>, pass: Pass): Members
    requires forall o :: o in wanted ==> o < |orgs|
  {
    var granted := GrantedAll(members, orgs, user, wanted, pass);
    if pass.prune then DroppedAll(granted, user, UserOrgs(members, user) - wanted) else granted
  }

  /** The organizations a list of references resolves to, one after the other. */
  function ResolvedAll(slugify: string -> string, orgs: Orgs, refs: seq<GroupRef>): (Orgs, set<nat>) {
    if refs == [] then (orgs, {})
    else
      var (before, wanted) := ResolvedAll(slugify, orgs, refs[..|refs| - 1]);
      var (after, org) := Resolved(slugify, before, refs[|refs| - 1]);
      (after, if org.Some? then wanted + {org.value} else wanted)
  }

  /** Inside the loop over the references: both tables and the result so far. */
  ghost predicate Granting(slugify: string -> string, orgs0: Orgs, members0: Members, user: string, refs: seq<GroupRef>,
                           pass: Pass, orgs: Orgs, members: Members, wanted: set<nat>, active: set<nat>) {
    && KeysUnique(orgs) && Grows(orgs0, orgs) && ResolvedTo(slugify, orgs0, refs, orgs, wanted)
    && (forall o :: o in wanted ==> o < |orgs|)
    && members == GrantedAll(members0, orgs, user, wanted, pass) && active == wanted - ManualOrgs(members0, user)
  }

  ghost predicate ResolvedTo(slugify: string -> string, orgs: Orgs, refs: seq<GroupRef>, orgs': Orgs, wanted: set<nat>) {
    (orgs', wanted) == ResolvedAll(slugify, orgs, refs)
  }

  lemma GrowsFurther(orgs: Orgs, before: Orgs, after: Orgs)
    requires Grows(orgs, before) && Grows(before, after)
    ensures Grows(orgs, after)
  {
  }

  lemma {:induction false} ResolvedAllGrows(slugify: string -> string, orgs: Orgs, refs: seq<GroupRef>)
    requires KeysUnique(orgs)
    ensures var (orgs', wanted) := ResolvedAll(slugify, orgs, refs);
            KeysUnique(orgs') && Grows(orgs, orgs') && forall o :: o in wanted ==> o < |orgs'|
  {
    if refs != [] {
      var (before, wanted) := ResolvedAll(slugify, orgs, refs[..|refs| - 1]);
      ResolvedAllGrows(slugify, orgs, refs[..|refs| - 1]);
      ResolvedGrows(slugify, before, refs[|refs| - 1]);
      GrowsFurther(orgs, before, Resolved(slugify, before, refs[|refs| - 1]).0);
    }
  }

  class Directory {
    const table: OrgRows
    var members: Members

    constructor (table: OrgRows)
      ensures this.table == table && members == map[]
    {
      this.table := table;
      members := map[];
    }

    ghost predicate Valid()
      reads this, table
    {
      KeysUnique(table.orgs) && forall k :: k in members ==> k.org < |table.orgs|
    }

    method SyncMembershipRoles(key: Key, pass: Pass)
      requires key in members && key.org < |table.orgs|
      modifies this
      ensures members == old(members)[key := WithRoles(old(members)[key], table.orgs[key.org], pass)]
    {
      var row := members[key];
      if !IsActive(row, table.orgs[key.org], pass.now) {
        return;
      }
      var todo := pass.codes;
      ghost var done: set<string> := {};
      assert row.(roles := row.roles + done) == row;
      while todo != {}
        invariant todo <= pass.codes && done == pass.codes - todo
        invariant members == old(members)[key := row.(roles := row.roles + done)]
      {
        var code :| code in todo;
        members := members[key := members[key].(roles := members[key].roles + {code})];
        assert row.roles + done + {code} == row.roles + (done + {code});
        todo, done := todo - {code}, done + {code};
      }
      assert done == pass.codes;
      if pass.prune {
        members := members[key := members[key].(roles := members[key].roles * pass.codes)];
        assert (row.roles + pass.codes) * pass.codes == pass.codes;
      }
    }

    method Grant(org: nat, user: string, pass: Pass) returns (active: bool)
      requires org < |table.orgs|
      modifies this
      ensures members == old(members)[Key(org, user) := Granted(RowAt(old(members), Key(org, user)), table.orgs[org], pass)]
      ensures active <==> RowAt(old(members), Key(org, user)).origin == Keycloak
    {
      var key := Key(org, user);
      if key !in members {
        members := members[key := JOINED];
      }
      if members[key].origin != Keycloak {
        return false;
      }
      if members[key].status != Active {
        members := members[key := members[key].(status := Active)];
      }
      SyncMembershipRoles(key, pass);
      return true;
    }

    /** The desired organizations become active ones; with `prune` every other group-derived
        membership of the user is revoked. */
    method ReconcileUserMemberships(user: string, refs: seq<GroupRef>, pass: Pass)
      returns (active: set<nat>, revoked: set<nat>)
      requires Valid()
      modifies this, table
      ensures Valid()
      ensures table.orgs == ResolvedAll(table.slugify, old(table.orgs), refs).0
      ensures forall o :: o in ResolvedAll(table.slugify, old(table.orgs), refs).1 ==> o < |table.orgs|
      ensures var wanted := ResolvedAll(table.slugify, old(table.orgs), refs).1;
              && members == Reconciled(old(members), table.orgs, user, wanted, pass)
              && active == wanted - ManualOrgs(old(members), user)
              && revoked == if pass.prune then UserOrgs(old(members), user) - wanted - ManualOrgs(old(members), user) else {}
      ensures forall o :: o in active <==>
                && o in ResolvedAll(table.slugify, old(table.orgs), refs).1
                && !(Key(o, user) in old(members) && old(members)[Key(o, user)].origin == Manual)
      ensures forall o :: o in revoked <==>
                && pass.prune && o !in ResolvedAll(table.slugify, old(table.orgs), refs).1
                && Key(o, user) in old(members) && old(members)[Key(o, user)].origin == Keycloak
    {
      var locked := UserOrgs(members, user);
      var wanted: set<nat> := {};
      active, revoked := {}, {};
      var i := 0;
      GrantedNone(members, table.orgs, user, pass);
      while i < |refs|
        invariant 0 <= i <= |refs|
        invariant Granting(table.slugify, old(table.orgs), old(members), user, refs[..i], pass, table.orgs, members, wanted, active)
      {
        wanted, active := GrantNext(user, refs, i, pass, wanted, active, old(table.orgs), old(members));
        i := i + 1;
      }
      assert refs[..i] == refs;
      if pass.prune {
        revoked := Prune(user, locked, wanted);
        RevokedAreManaged(old(members), table.orgs, user, wanted, pass);
      }
    }

    /** One reference of the loop: resolve it, then grant the membership. */
    method GrantNext(user: string, refs: seq<GroupRef>, i: nat, pass: Pass, wanted: set<nat>, active: set<nat>,
                     ghost orgs0: Orgs, ghost members0: Members)
      returns (wanted': set<nat>, active': set<nat>)
      requires i < |refs|
      requires Granting(table.slugify, orgs0, members0, user, refs[..i], pass, table.orgs, members, wanted, active)
      modifies this, table
      ensures Granting(table.slugify, orgs0, members0, user, refs[..i + 1], pass, table.orgs, members, wanted', active')
    {
      active' := active;
      var org: Option<nat>;
      org, wanted' := ResolveNext(refs, i, orgs0, wanted);
      GrantingGrown(table.slugify, orgs0, members0, user, refs[..i], pass, old(table.orgs), members, wanted, active, table.orgs);
      if org.Some? {
        GrantingOneMore(members0, members, table.orgs, user, wanted, active, org.value, pass);
        var managed := Grant(org.value, user, pass);
        if managed {
          active' := active + {org.value};
        }
      }
    }

    method ResolveNext(refs: seq<GroupRef>, i: nat, ghost orgs0: Orgs, wanted: set<nat>)
      returns (org: Option<nat>, next: set<nat>)
      requires i < |refs| && KeysUnique(table.orgs)
      requires ResolvedTo(table.slugify, orgs0, refs[..i], table.orgs, wanted)
      modifies table
      ensures ResolvedTo(table.slugify, orgs0, refs[..i + 1], table.orgs, next)
      ensures next == if org.Some? then wanted + {org.value} else wanted
      ensures KeysUnique(table.orgs) && Grows(old(table.orgs), table.orgs) && (org.Some? ==> org.value < |table.orgs|)
    {
      org := table.ResolveOrCreateOrganization(refs[i]);
      next := if org.Some? then wanted + {org.value} else wanted;
      ResolvedOneMore(table.slugify, orgs0, refs, i, old(table.orgs), wanted, table.orgs, org);
    }

    method Prune(user: string, locked: set<nat>, wanted: set<nat>) returns (revoked: set<nat>)
      requires forall o :: o in locked ==> Key(o, user) in members
      modifies this
      ensures members == DroppedAll(old(members), user, locked - wanted)
      ensures revoked == locked - wanted - ManualOrgs(old(members), user)
    {
      revoked := {};
      var todo := locked;
      ghost var done: set<nat> := {};
      assert members == DroppedAll(members, user, {} - wanted);
      while todo != {}
        invariant todo <= locked && done == locked - todo
        invariant members == DroppedAll(old(members), user, done - wanted)
        invariant revoked == done - wanted - ManualOrgs(old(members), user)
      {
        var o :| o in todo;
        var key := Key(o, user);
        if members[key].origin == Keycloak && o !in wanted {
          members := members[key := members[key].(status := Revoked, roles := {})];
          revoked := revoked + {o};
        }
        DroppedOneMore(old(members), user, done - wanted, o);
        assert done + {o} - wanted == if o in wanted then done - wanted else done - wanted + {o};
        todo, done := todo - {o}, done + {o};
      }
      assert done == locked;
    }

    /** `reconcile_from_claims`: without a usable groups claim nothing happens. */
    method ReconcileFromClaims(user: string, claim: Claim, codes: set<string>, now: int)
      requires Valid()
      modifies this, table
      ensures Valid()
      ensures Db(table.orgs, members) == Login(table.slugify, old(Db(table.orgs, members)), user, claim, codes, now)
    {
      var refs := ParseGroups(claim);
      if refs.Some? {
        ResolvedAllGrows(table.slugify, table.orgs, refs.value);
        var _, _ := ReconcileUserMemberships(user, refs.value, Pass(codes, true, now));
      }
    }

    /** `apply_group_membership_change`: one group joined or left, no roles and no pruning. */
    method ApplyGroupMembershipChange(user: string, ref: GroupRef, added: bool)
      requires Valid()
      modifies this, table
      ensures Valid()
      ensures Db(table.orgs, members) == Changed(table.slugify, old(Db(table.orgs, members)), user, ref, added)
    {
      var org: Option<nat>;
      if added {
        org := table.ResolveOrCreateOrganization(ref);
      } else {
        org := table.FindOrganization(ref);
      }
      ChangedIs(table.slugify, old(Db(table.orgs, members)), user, ref, added, table.orgs, org);
      if org.Some? {
        SetMembership(Key(org.value, user), added);
      }
    }

    method SetMembership(key: Key, added: bool)
      modifies this
      ensures members == if added then Joined(old(members), key) else Left(old(members), key)
    {
      if added {
        if key !in members {
          members := members[key := JOINED];
        }
        if members[key].origin == Keycloak && members[key].status != Active {
          members := members[key := members[key].(status := Active)];
        }
      } else if key in members && members[key].origin == Keycloak {
        members := members[key := members[key].(status := Revoked, roles := {})];
      }
    }
  }

  function ManualOrgs(members: Members, user: string): set<nat> {
    set k | k in members && k.user == user && members[k].origin == Manual :: k.org
  }

  // --------------------------------------------------- steps of the two loops

  lemma {:induction false} ResolvedOneMore(slugify: string -> string, orgs0: Orgs, refs: seq<GroupRef>, i: nat,
                                           orgs: Orgs, wanted: set<nat>, orgs': Orgs, org: Option<nat>)
    requires i < |refs| && KeysUnique(orgs)
    requires (orgs, wanted) == ResolvedAll(slugify, orgs0, refs[..i]) && (orgs', org) == Resolved(slugify, orgs, refs[i])
    ensures (orgs', if org.Some? then wanted + {org.value} else wanted) == ResolvedAll(slugify, orgs0, refs[..i + 1])
    ensures KeysUnique(orgs') && Grows(orgs, orgs') && (org.Some? ==> org.value < |orgs'|)
  {
    assert refs[..i + 1][..i] == refs[..i];
    ResolvedGrows(slugify, orgs, refs[i]);
  }

  lemma GrantedNone(members: Members, orgs: Orgs, user: string, pass: Pass)
    ensures GrantedAll(members, orgs, user, {}, pass) == members
  {
  }

  /** Granting looks only at whether an organization is active, which growing keeps. */
  lemma GrantedWhenGrown(members: Members, orgs: Orgs, orgs': Orgs, user: string, wanted: set<nat>, pass: Pass)
    requires Grows(orgs, orgs') && forall o :: o in wanted ==> o < |orgs|
    ensures GrantedAll(members, orgs', user, wanted, pass) == GrantedAll(members, orgs, user, wanted, pass)
  {
  }

  lemma GrantingGrown(slugify: string -> string, orgs0: Orgs, members0: Members, user: string, refs: seq<GroupRef>,
                      pass: Pass, orgs: Orgs, members: Members, wanted: set<nat>, active: set<nat>, orgs': Orgs)
    requires Granting(slugify, orgs0, members0, user, refs, pass, orgs, members, wanted, active) && Grows(orgs, orgs')
    ensures Grows(orgs0, orgs') && forall o :: o in wanted ==> o < |orgs'|
    ensures members == GrantedAll(members0, orgs', user, wanted, pass) && active == wanted - ManualOrgs(members0, user)
  {
    GrantedWhenGrown(members0, orgs, orgs', user, wanted, pass);
  }

  lemma GrantingOneMore(members0: Members, members: Members, orgs: Orgs, user: string, wanted: set<nat>, active: set<nat>,
                        o: nat, pass: Pass)
    requires o < |orgs| && (forall w :: w in wanted ==> w < |orgs|) && active == wanted - ManualOrgs(members0, user)
    requires members == GrantedAll(members0, orgs, user, wanted, pass)
    ensures var key := Key(o, user);
            && GrantedAll(members0, orgs, user, wanted + {o}, pass) == members[key := Granted(RowAt(members, key), orgs[o], pass)]
            && wanted + {o} - ManualOrgs(members0, user)
               == if RowAt(members, key).origin == Keycloak then active + {o} else active
  {
    GrantedOneMore(members0, orgs, user, wanted, o, pass);
  }

  lemma GrantedTwice(m: Membership, org: Org, pass: Pass)
    ensures Granted(Granted(m, org, pass), org, pass) == Granted(m, org, pass)
  {
  }

  lemma GrantedOneMore(members: Members, orgs: Orgs, user: string, wanted: set<nat>, o: nat, pass: Pass)
    requires o < |orgs| && forall w :: w in wanted ==> w < |orgs|
    ensures var before := GrantedAll(members, orgs, user, wanted, pass);
            && GrantedAll(members, orgs, user, wanted + {o}, pass)
               == before[Key(o, user) := Granted(RowAt(before, Key(o, user)), orgs[o], pass)]
            && RowAt(before, Key(o, user)).origin == RowAt(members, Key(o, user)).origin
  {
    GrantedTwice(RowAt(members, Key(o, user)), orgs[o], pass);
  }

  lemma DroppedOneMore(members: Members, user: string, drop: set<nat>, o: nat)
    requires Key(o, user) in members
    ensures var before := DroppedAll(members, user, drop);
            && DroppedAll(members, user, drop + {o}) == before[Key(o, user) := Dropped(before[Key(o, user)])]
            && before[Key(o, user)].origin == members[Key(o, user)].origin
  {
  }

  lemma RevokedAreManaged(members: Members, orgs: Orgs, user: string, wanted: set<nat>, pass: Pass)
    requires forall o :: o in wanted ==> o < |orgs|
    ensures var granted := GrantedAll(members, orgs, user, wanted, pass);
            UserOrgs(members, user) - wanted - ManualOrgs(granted, user)
            == UserOrgs(members, user) - wanted - ManualOrgs(members, user)
  {
  }

  // --------------------------------------------------------- the two entries

  datatype Db = Db(orgs: Orgs, members: Members)

  ghost predicate DbOk(db: Db) {
    KeysUnique(db.orgs) && forall k :: k in db.members ==> k.org < |db.orgs|
  }

  function Login(slugify: string -> string, db: Db, user: string, claim: Claim, codes: set<string>, now: int): Db
    requires KeysUnique(db.orgs)
  {
    var refs := ParseGroups(claim);
    if refs.None? then db else LoginRefs(slugify, db, user, refs.value, codes, now)
  }

  function LoginRefs(slugify: string -> string, db: Db, user: string, refs: seq<GroupRef>, codes: set<string>, now: int): Db
    requires KeysUnique(db.orgs)
  {
    ResolvedAllGrows(slugify, db.orgs, refs);
    var (orgs', wanted) := ResolvedAll(slugify, db.orgs, refs);
    Db(orgs', Reconciled(db.members, orgs', user, wanted, Pass(codes, true, now)))
  }

  function Joined(members: Members, key: Key): Members {
    var row := RowAt(members, key);
    members[key := if row.origin == Keycloak then row.(status := Active) else row]
  }

  function Left(members: Members, key: Key): Members {
    if key in members then members[key := Dropped(members[key])] else members
  }

  function Changed(slugify: string -> string, db: Db, user: string, ref: GroupRef, added: bool): Db {
    var (orgs', org) := if added then Resolved(slugify, db.orgs, ref) else Found(db.orgs, ref);
    Db(orgs', AfterChange(db.members, user, org, added))
  }

  function AfterChange(members: Members, user: string, org: Option<nat>, added: bool): Members {
    if org.None? then members
    else if added then Joined(members, Key(org.value, user))
    else Left(members, Key(org.value, user))
  }

  lemma ChangedIs(slugify: string -> string, db: Db, user: string, ref: GroupRef, added: bool, orgs': Orgs, org: Option<nat>)
    requires DbOk(db) && (orgs', org) == if added then Resolved(slugify, db.orgs, ref) else Found(db.orgs, ref)
    ensures Changed(slugify, db, user, ref, added) == Db(orgs', AfterChange(db.members, user, org, added))
    ensures DbOk(Changed(slugify, db, user, ref, added))
  {
    if added { ResolvedGrows(slugify, db.orgs, ref); } else { FoundGrows(db.orgs, ref); }
  }

  // ------------------------------------------------------- logging in again

  /** What resolving a reference without an id comes to: the row of its path, nothing when the
      slugs are used up, or else one appended row. */
  lemma PathResolved(slugify: string -> string, orgs: Orgs, ref: GroupRef)
    requires KeysUnique(orgs) && ref.groupId == None
    ensures var (orgs', r) := Resolved(slugify, orgs, ref);
            ByPath(orgs, NormalizePath(ref.path), SlugsExhausted(slugify, orgs, ref), orgs', r)
  {
    ResolvedGrows(slugify, orgs, ref);
    if Found(orgs, ref).1.None? {
      ExhaustedIff(slugify, orgs, ref, 0);
      CreatedGrows(slugify, orgs, ref, 0);
    }
  }

  ghost predicate ByPath(orgs: Orgs, path: string, exhausted: bool, orgs': Orgs, r: Option<nat>) {
    if path != "" && FirstPath(orgs, path).Some? then orgs' == orgs && r == FirstPath(orgs, path)
    else if exhausted then orgs' == orgs && r.None?
    else
      && |orgs'| == |orgs| + 1 && orgs'[..|orgs|] == orgs && orgs'[|orgs|].path == path
      && KeysUnique(orgs') && r == Some(|orgs|)
  }

  /** Resolving the reference here writes nothing and leads into `wanted` if anywhere. */
  ghost predicate Settled(slugify: string -> string, orgs: Orgs, ref: GroupRef, wanted: set<nat>) {
    var (orgs', r) := Resolved(slugify, orgs, ref);
    orgs' == orgs && (r.Some? ==> r.value in wanted)
  }

  lemma SettledFurther(slugify: string -> string, orgs: Orgs, ref: GroupRef, wanted: set<nat>, orgs': Orgs)
    requires KeysUnique(orgs) && KeysUnique(orgs') && ref.groupId == None && Settled(slugify, orgs, ref, wanted)
    requires |orgs'| == |orgs| + 1 && orgs'[..|orgs|] == orgs
    ensures Settled(slugify, orgs', ref, wanted + {|orgs|})
    ensures forall w :: ResolvesTo(slugify, orgs, ref, w) ==> ResolvesTo(slugify, orgs', ref, w)
  {
    PathResolved(slugify, orgs, ref);
    PathResolved(slugify, orgs', ref);
    ExhaustedFurther(slugify, orgs, orgs', ref);
    FirstPathFurther(orgs, orgs', NormalizePath(ref.path));
  }

  lemma ExhaustedFurther(slugify: string -> string, orgs: Orgs, orgs': Orgs, ref: GroupRef)
    requires |orgs'| >= |orgs| && orgs'[..|orgs|] == orgs
    ensures SlugsExhausted(slugify, orgs, ref) ==> SlugsExhausted(slugify, orgs', ref)
  {
    forall slug | SlugTaken(orgs, slug) ensures SlugTaken(orgs', slug) {
      var i :| 0 <= i < |orgs| && orgs[i].slug == slug;
      assert orgs'[i] == orgs[i];
    }
  }

  lemma {:induction false} FirstPathFurther(orgs: Orgs, orgs': Orgs, path: string)
    requires |orgs'| == |orgs| + 1 && orgs'[..|orgs|] == orgs
    ensures FirstPath(orgs, path).Some? ==> FirstPath(orgs', path) == FirstPath(orgs, path)
    ensures FirstPath(orgs, path).None? ==>
              FirstPath(orgs', path) == if orgs'[|orgs|].path == path then Some(|orgs|) else None
  {
  }

  ghost predicate NoIds(refs: seq<GroupRef>) {
    forall ref :: ref in refs ==> ref.groupId == None
  }

  ghost predicate AllSettled(slugify: string -> string, orgs: Orgs, refs: seq<GroupRef>, wanted: set<nat>) {
    && (forall ref :: ref in refs ==> Settled(slugify, orgs, ref, wanted))
    && (forall w :: w in wanted ==> Covered(slugify, orgs, refs, w))
  }

  ghost predicate Covered(slugify: string -> string, orgs: Orgs, refs: seq<GroupRef>, w: nat) {
    exists ref :: ref in refs && ResolvesTo(slugify, orgs, ref, w)
  }

  ghost predicate ResolvesTo(slugify: string -> string, orgs: Orgs, ref: GroupRef, w: nat) {
    Resolved(slugify, orgs, ref).1 == Some(w)
  }

  /** Every reference without a key meets used-up slugs. */
  ghost predicate KeylessExhausted(slugify: string -> string, orgs: Orgs, refs: seq<GroupRef>) {
    refs == []
    || (KeylessExhausted(slugify, orgs, refs[..|refs| - 1])
        && (HasKey(refs[|refs| - 1])
            || SlugsExhausted(slugify, ResolvedAll(slugify, orgs, refs[..|refs| - 1]).0, refs[|refs| - 1])))
  }

  /** After the references are resolved once, all of them are settled. */
  ghost predicate Settles(slugify: string -> string, orgs: Orgs, refs: seq<GroupRef>) {
    var (orgs', wanted) := ResolvedAll(slugify, orgs, refs);
    KeysUnique(orgs') && AllSettled(slugify, orgs', refs, wanted)
  }

  lemma {:induction false} SettledAfter(slugify: string -> string, orgs: Orgs, refs: seq<GroupRef>)
    requires KeysUnique(orgs) && NoIds(refs) && KeylessExhausted(slugify, orgs, refs)
    ensures Settles(slugify, orgs, refs)
  {
    if refs != [] {
      SettledAfter(slugify, orgs, refs[..|refs| - 1]);
      SettlesFurther(slugify, orgs, refs);
    }
  }

  lemma {:induction false} SettlesFurther(slugify: string -> string, orgs: Orgs, refs: seq<GroupRef>)
    requires refs != [] && NoIds(refs) && Settles(slugify, orgs, refs[..|refs| - 1])
    requires HasKey(refs[|refs| - 1])
             || SlugsExhausted(slugify, ResolvedAll(slugify, orgs, refs[..|refs| - 1]).0, refs[|refs| - 1])
    ensures Settles(slugify, orgs, refs)
  {
    var (before, wanted) := ResolvedAll(slugify, orgs, refs[..|refs| - 1]);
    FrontAndLast(refs);
    SettledOneMore(slugify, before, refs[..|refs| - 1], wanted, refs[|refs| - 1]);
  }

  lemma FrontAndLast<T>(s: seq<T>)
    requires s != []
    ensures s == s[..|s| - 1] + [s[|s| - 1]]
  {
  }

  lemma SettledOneMore(slugify: string -> string, orgs: Orgs, refs: seq<GroupRef>, wanted: set<nat>, ref: GroupRef)
    requires KeysUnique(orgs) && NoIds(refs + [ref]) && AllSettled(slugify, orgs, refs, wanted)
    requires HasKey(ref) || SlugsExhausted(slugify, orgs, ref)
    ensures var (orgs', r) := Resolved(slugify, orgs, ref);
            && KeysUnique(orgs')
            && AllSettled(slugify, orgs', refs + [ref], if r.Some? then wanted + {r.value} else wanted)
  {
    var (orgs', r) := Resolved(slugify, orgs, ref);
    LastOf(refs, ref);
    LastSettled(slugify, orgs, wanted, ref);
    if orgs' == orgs {
      AllSettledWith(slugify, orgs, refs, wanted, ref, r);
    } else {
      SettledWhenNew(slugify, orgs, refs, wanted, ref, orgs', r);
    }
  }

  lemma LastOf(refs: seq<GroupRef>, ref: GroupRef)
    requires NoIds(refs + [ref])
    ensures NoIds(refs) && ref.groupId == None
  {
    assert ref in refs + [ref] && forall r :: r in refs ==> r in refs + [ref];
  }

  lemma SettledWhenNew(slugify: string -> string, orgs: Orgs, refs: seq<GroupRef>, wanted: set<nat>, ref: GroupRef, orgs': Orgs,
                       r: Option<nat>)
    requires KeysUnique(orgs) && KeysUnique(orgs') && NoIds(refs) && AllSettled(slugify, orgs, refs, wanted)
    requires |orgs'| == |orgs| + 1 && orgs'[..|orgs|] == orgs && r == Some(|orgs|)
    requires Resolved(slugify, orgs', ref) == (orgs', r)
    ensures AllSettled(slugify, orgs', refs + [ref], wanted + {r.value})
  {
    AllSettledFurther(slugify, orgs, refs, wanted, orgs');
    AllSettledWith(slugify, orgs', refs, wanted + {|orgs|}, ref, r);
    assert wanted + {|orgs|} + {r.value} == wanted + {r.value};
  }

  lemma LastSettled(slugify: string -> string, orgs: Orgs, wanted: set<nat>, ref: GroupRef)
    requires KeysUnique(orgs) && ref.groupId == None && (HasKey(ref) || SlugsExhausted(slugify, orgs, ref))
    ensures var (orgs', r) := Resolved(slugify, orgs, ref);
            && KeysUnique(orgs') && Resolved(slugify, orgs', ref) == (orgs', r)
            && (orgs' != orgs ==> r == Some(|orgs|) && |orgs'| == |orgs| + 1 && orgs'[..|orgs|] == orgs)
  {
    PathResolved(slugify, orgs, ref);
    ResolvedGrows(slugify, orgs, ref);
    ResolveAgainIff(slugify, orgs, ref);
  }

  lemma AllSettledFurther(slugify: string -> string, orgs: Orgs, refs: seq<GroupRef>, wanted: set<nat>, orgs': Orgs)
    requires KeysUnique(orgs) && KeysUnique(orgs') && NoIds(refs) && AllSettled(slugify, orgs, refs, wanted)
    requires |orgs'| == |orgs| + 1 && orgs'[..|orgs|] == orgs
    ensures forall ref :: ref in refs ==> Settled(slugify, orgs', ref, wanted + {|orgs|})
    ensures forall w :: w in wanted ==> Covered(slugify, orgs', refs, w)
  {
    forall ref | ref in refs {
      SettledFurther(slugify, orgs, ref, wanted, orgs');
    }
    forall w | w in wanted {
      CoveredFurther(slugify, orgs, refs, wanted, orgs', w);
    }
  }

  lemma CoveredFurther(slugify: string -> string, orgs: Orgs, refs: seq<GroupRef>, wanted: set<nat>, orgs': Orgs, w: nat)
    requires KeysUnique(orgs) && KeysUnique(orgs') && NoIds(refs) && AllSettled(slugify, orgs, refs, wanted) && w in wanted
    requires |orgs'| == |orgs| + 1 && orgs'[..|orgs|] == orgs
    ensures Covered(slugify, orgs', refs, w)
  {
    var ref :| ref in refs && ResolvesTo(slugify, orgs, ref, w);
    SettledFurther(slugify, orgs, ref, wanted, orgs');
    assert ResolvesTo(slugify, orgs', ref, w);
  }

  lemma AllSettledWith(slugify: string -> string, orgs: Orgs, refs: seq<GroupRef>, wanted: set<nat>, ref: GroupRef,
                       r: Option<nat>)
    requires forall ref :: ref in refs ==> Settled(slugify, orgs, ref, wanted)
    requires forall w :: w in wanted ==> Some(w) == r || Covered(slugify, orgs, refs, w)
    requires Resolved(slugify, orgs, ref) == (orgs, r)
    ensures AllSettled(slugify, orgs, refs + [ref], if r.Some? then wanted + {r.value} else wanted)
  {
    var wanted' := if r.Some? then wanted + {r.value} else wanted;
    forall later | later in refs + [ref] ensures Settled(slugify, orgs, later, wanted') {
      assert later in refs || later == ref;
    }
    forall w | w in wanted' {
      CoveredWith(slugify, orgs, refs, ref, r, w);
    }
  }

  lemma CoveredWith(slugify: string -> string, orgs: Orgs, refs: seq<GroupRef>, ref: GroupRef, r: Option<nat>, w: nat)
    requires Some(w) == r || Covered(slugify, orgs, refs, w)
    requires Resolved(slugify, orgs, ref).1 == r
    ensures Covered(slugify, orgs, refs + [ref], w)
  {
    if Some(w) == r {
      assert ref in refs + [ref] && ResolvesTo(slugify, orgs, ref, w);
    } else {
      var earlier :| earlier in refs && ResolvesTo(slugify, orgs, earlier, w);
      assert earlier in refs + [ref];
    }
  }

  /** Resolving settled references once more writes nothing and reaches the same organizations. */
  lemma {:induction false} SettledPass(slugify: string -> string, orgs: Orgs, refs: seq<GroupRef>, wanted: set<nat>)
    requires forall ref :: ref in refs ==> Settled(slugify, orgs, ref, wanted)
    ensures ResolvedAll(slugify, orgs, refs).0 == orgs && ResolvedAll(slugify, orgs, refs).1 <= wanted
    ensures forall w :: Covered(slugify, orgs, refs, w) ==> w in ResolvedAll(slugify, orgs, refs).1
  {
    if refs != [] {
      var front, last := refs[..|refs| - 1], refs[|refs| - 1];
      SettledPass(slugify, orgs, front, wanted);
      assert Settled(slugify, orgs, last, wanted);
      forall w | Covered(slugify, orgs, refs, w) ensures w in ResolvedAll(slugify, orgs, refs).1 {
        var ref :| ref in refs && ResolvesTo(slugify, orgs, ref, w);
        assert ref in front || ref == last;
        assert ref in front ==> Covered(slugify, orgs, front, w);
      }
    }
  }

  lemma {:induction false} OnlyAppends(slugify: string -> string, orgs: Orgs, refs: seq<GroupRef>)
    requires KeysUnique(orgs) && NoIds(refs)
    ensures var orgs' := ResolvedAll(slugify, orgs, refs).0;
            KeysUnique(orgs') && |orgs'| >= |orgs| && orgs'[..|orgs|] == orgs
  {
    if refs != [] {
      var before, last := ResolvedAll(slugify, orgs, refs[..|refs| - 1]).0, refs[|refs| - 1];
      assert NoIds(refs[..|refs| - 1]) && last in refs;
      OnlyAppends(slugify, orgs, refs[..|refs| - 1]);
      AppendsOne(slugify, before, last);
      AppendsFurther(orgs, before, Resolved(slugify, before, last).0);
    }
  }

  lemma AppendsFurther(orgs: Orgs, before: Orgs, after: Orgs)
    requires |before| >= |orgs| && before[..|orgs|] == orgs && |after| >= |before| && after[..|before|] == before
    ensures after[..|orgs|] == orgs
  {
    assert after[..|orgs|] == after[..|before|][..|orgs|];
  }

  lemma AppendsOne(slugify: string -> string, orgs: Orgs, ref: GroupRef)
    requires KeysUnique(orgs) && ref.groupId == None
    ensures var (orgs', r) := Resolved(slugify, orgs, ref);
            && KeysUnique(orgs') && |orgs'| >= |orgs| && orgs'[..|orgs|] == orgs
            && (orgs' == orgs && r.Some? ==> r.value < |orgs| && orgs[r.value].path != "")
            && (!HasKey(ref) && !SlugsExhausted(slugify, orgs, ref) ==>
                  |orgs'| == |orgs| + 1 && r == Some(|orgs|) && orgs'[|orgs|].path == "")
  {
    PathResolved(slugify, orgs, ref);
  }

  /** A pass that writes nothing reaches only organizations that carry a path. */
  lemma {:induction false} WantedHavePaths(slugify: string -> string, orgs: Orgs, refs: seq<GroupRef>)
    requires KeysUnique(orgs) && NoIds(refs) && ResolvedAll(slugify, orgs, refs).0 == orgs
    ensures forall w :: w in ResolvedAll(slugify, orgs, refs).1 ==> w < |orgs| && orgs[w].path != ""
  {
    if refs != [] {
      var front, last := refs[..|refs| - 1], refs[|refs| - 1];
      OnlyAppends(slugify, orgs, front);
      var before := ResolvedAll(slugify, orgs, front).0;
      AppendsOne(slugify, before, last);
      assert before == orgs;
      WantedHavePaths(slugify, orgs, front);
    }
  }

  /** The references lead to `w`, a row that was not there before and has no path. */
  ghost predicate MakesPathless(slugify: string -> string, orgs: Orgs, refs: seq<GroupRef>, w: nat) {
    var (orgs', wanted) := ResolvedAll(slugify, orgs, refs);
    w in wanted && |orgs| <= w < |orgs'| && orgs'[w].path == ""
  }

  /** A reference without a key and with a free slug leads to a new row without a path. */
  lemma {:induction false} KeylessCreates(slugify: string -> string, orgs: Orgs, refs: seq<GroupRef>) returns (w: nat)
    requires KeysUnique(orgs) && NoIds(refs) && !KeylessExhausted(slugify, orgs, refs)
    ensures MakesPathless(slugify, orgs, refs, w)
  {
    if !KeylessExhausted(slugify, orgs, refs[..|refs| - 1]) {
      w := KeylessCreates(slugify, orgs, refs[..|refs| - 1]);
      StillPathless(slugify, orgs, refs, w);
    } else {
      w := PathlessAtLast(slugify, orgs, refs);
    }
  }

  lemma StillPathless(slugify: string -> string, orgs: Orgs, refs: seq<GroupRef>, w: nat)
    requires refs != [] && KeysUnique(orgs) && NoIds(refs) && MakesPathless(slugify, orgs, refs[..|refs| - 1], w)
    ensures MakesPathless(slugify, orgs, refs, w)
  {
    ResolvedAllGrows(slugify, orgs, refs[..|refs| - 1]);
    var before := ResolvedAll(slugify, orgs, refs[..|refs| - 1]).0;
    AppendsOne(slugify, before, refs[|refs| - 1]);
    assert Resolved(slugify, before, refs[|refs| - 1]).0[..|before|][w] == before[w];
  }

  lemma PathlessAtLast(slugify: string -> string, orgs: Orgs, refs: seq<GroupRef>) returns (w: nat)
    requires refs != [] && KeysUnique(orgs) && NoIds(refs) && !HasKey(refs[|refs| - 1])
    requires !SlugsExhausted(slugify, ResolvedAll(slugify, orgs, refs[..|refs| - 1]).0, refs[|refs| - 1])
    ensures MakesPathless(slugify, orgs, refs, w)
  {
    OnlyAppends(slugify, orgs, refs[..|refs| - 1]);
    w := |ResolvedAll(slugify, orgs, refs[..|refs| - 1]).0|;
    AppendsOne(slugify, ResolvedAll(slugify, orgs, refs[..|refs| - 1]).0, refs[|refs| - 1]);
  }

  lemma ReconciledTwice(members: Members, orgs: Orgs, user: string, wanted: set<nat>, codes: set<string>, now: int, later: int)
    requires (forall o :: o in wanted ==> o < |orgs|) && now <= later
    ensures var once := Reconciled(members, orgs, user, wanted, Pass(codes, true, now));
            Reconciled(once, orgs, user, wanted, Pass(codes, true, later)) == once
  {
    forall k: Key | k.user == user && k.org in wanted
      ensures var once := Granted(RowAt(members, k), orgs[k.org], Pass(codes, true, now));
              Granted(once, orgs[k.org], Pass(codes, true, later)) == once
    {
      GrantedLater(RowAt(members, k), orgs[k.org], codes, now, later);
    }
  }

  lemma GrantedLater(m: Membership, org: Org, codes: set<string>, now: int, later: int)
    requires now <= later
    ensures var once := Granted(m, org, Pass(codes, true, now)); Granted(once, org, Pass(codes, true, later)) == once
  {
  }

  /** A row of a new organization is revoked by any later login that does not reach it. */
  lemma RevokedNextTime(members: Members, orgs: Orgs, user: string, wanted: set<nat>, wanted': set<nat>, w: nat,
                        codes: set<string>, now: int, later: int)
    requires (forall o :: o in wanted ==> o < |orgs|) && (forall o :: o in wanted' ==> o < |orgs|)
    requires w in wanted && w !in wanted' && Key(w, user) !in members
    ensures var once := Reconciled(members, orgs, user, wanted, Pass(codes, true, now));
            Reconciled(once, orgs, user, wanted', Pass(codes, true, later)) != once
  {
    var once := Reconciled(members, orgs, user, wanted, Pass(codes, true, now));
    var granted := GrantedAll(once, orgs, user, wanted', Pass(codes, true, later));
    assert once[Key(w, user)].status == Active && once[Key(w, user)].origin == Keycloak;
    assert granted[Key(w, user)] == once[Key(w, user)] && w in UserOrgs(once, user) - wanted';
    assert DroppedAll(granted, user, UserOrgs(once, user) - wanted')[Key(w, user)].status == Revoked;
  }

  /** Logging in again with the same token changes nothing exactly when no reference without a
      key created an organization, that is, when each of them met used-up slugs. */
  lemma {:induction false} LoginAgainIff(slugify: string -> string, db: Db, user: string, refs: seq<GroupRef>,
                                         codes: set<string>, now: int, later: int)
    requires DbOk(db) && NoIds(refs) && now <= later
    ensures var once := LoginRefs(slugify, db, user, refs, codes, now);
            && KeysUnique(once.orgs)
            && (LoginRefs(slugify, once, user, refs, codes, later) == once <==> KeylessExhausted(slugify, db.orgs, refs))
  {
    ResolvedAllGrows(slugify, db.orgs, refs);
    var (orgs', wanted) := ResolvedAll(slugify, db.orgs, refs);
    ResolvedAllGrows(slugify, orgs', refs);
    var (orgs2, wanted2) := ResolvedAll(slugify, orgs', refs);
    if KeylessExhausted(slugify, db.orgs, refs) {
      SettledAfter(slugify, db.orgs, refs);
      SettledPass(slugify, orgs', refs, wanted);
      assert wanted2 == wanted;
      ReconciledTwice(db.members, orgs', user, wanted, codes, now, later);
    } else if orgs2 == orgs' {
      var w := KeylessCreates(slugify, db.orgs, refs);
      WantedHavePaths(slugify, orgs', refs);
      RevokedNextTime(db.members, orgs', user, wanted, wanted2, w, codes, now, later);
    }
  }

  /** The same for a token: an unusable groups claim changes nothing either time. */
  lemma TokenAgainIff(slugify: string -> string, db: Db, user: string, claim: Claim, codes: set<string>, now: int, later: int)
    requires DbOk(db) && now <= later
    ensures var once := Login(slugify, db, user, claim, codes, now);
            KeysUnique(once.orgs)
            && (Login(slugify, once, user, claim, codes, later) == once
                <==> !claim.Items? || KeylessExhausted(slugify, db.orgs, PathRefs(claim.items)))
  {
    if claim.Items? {
      LoginAgainIff(slugify, db, user, PathRefs(claim.items), codes, now, later);
    }
  }

  ghost predicate AllKeyed(refs: seq<GroupRef>) {
    forall ref :: ref in refs ==> HasKey(ref)
  }

  lemma {:induction false} KeyedMeetsCondition(slugify: string -> string, orgs: Orgs, refs: seq<GroupRef>)
    requires AllKeyed(refs)
    ensures KeylessExhausted(slugify, orgs, refs)
  {
    if refs != [] {
      KeyedMeetsCondition(slugify, orgs, refs[..|refs| - 1]);
      assert refs[|refs| - 1] in refs;
    }
  }

  /** Resolving creates at most one organization for each reference. */
  lemma {:induction false} CreatesAtMost(slugify: string -> string, orgs: Orgs, refs: seq<GroupRef>)
    requires KeysUnique(orgs) && NoIds(refs)
    ensures |ResolvedAll(slugify, orgs, refs).0| <= |orgs| + |refs|
  {
    if refs != [] {
      var before := ResolvedAll(slugify, orgs, refs[..|refs| - 1]).0;
      CreatesAtMost(slugify, orgs, refs[..|refs| - 1]);
      ResolvedAllGrows(slugify, orgs, refs[..|refs| - 1]);
      PathResolved(slugify, before, refs[|refs| - 1]);
    }
  }

  /** While slugs cannot run out, the condition is that every reference has a key. */
  lemma {:induction false} FewMeetConditionIff(slugify: string -> string, orgs: Orgs, refs: seq<GroupRef>)
    requires KeysUnique(orgs) && NoIds(refs) && |orgs| + |refs| <= MAX_SLUG_ATTEMPTS
    ensures KeylessExhausted(slugify, orgs, refs) <==> AllKeyed(refs)
  {
    if AllKeyed(refs) {
      KeyedMeetsCondition(slugify, orgs, refs);
    } else {
      var front, last := refs[..|refs| - 1], refs[|refs| - 1];
      FewMeetConditionIff(slugify, orgs, front);
      CreatesAtMost(slugify, orgs, front);
      FewOrganizationsSuffice(slugify, ResolvedAll(slugify, orgs, front).0, last);
      if AllKeyed(front) {
        FrontAndLast(refs);
      }
    }
  }

  /** A login whose paths all normalise to something can be repeated at any later time without
      changing a table. */
  lemma KeyedLoginAgain(slugify: string -> string, db: Db, user: string, refs: seq<GroupRef>, codes: set<string>, now: int,
                        later: int)
    requires DbOk(db) && NoIds(refs) && AllKeyed(refs) && now <= later
    ensures var once := LoginRefs(slugify, db, user, refs, codes, now);
            KeysUnique(once.orgs) && LoginRefs(slugify, once, user, refs, codes, later) == once
  {
    KeyedMeetsCondition(slugify, db.orgs, refs);
    LoginAgainIff(slugify, db, user, refs, codes, now, later);
  }

  /** With few organizations that is the only case. */
  lemma FewLoginAgainIff(slugify: string -> string, db: Db, user: string, refs: seq<GroupRef>, codes: set<string>, now: int,
                         later: int)
    requires DbOk(db) && NoIds(refs) && |db.orgs| + |refs| <= MAX_SLUG_ATTEMPTS && now <= later
    ensures var once := LoginRefs(slugify, db, user, refs, codes, now);
            KeysUnique(once.orgs) && (LoginRefs(slugify, once, user, refs, codes, later) == once <==> AllKeyed(refs))
  {
    FewMeetConditionIff(slugify, db.orgs, refs);
    LoginAgainIff(slugify, db, user, refs, codes, now, later);
  }

  /** It does happen: a token with the group path `//` makes every login write. */
  lemma LoginCanWriteAgain(slugify: string -> string, user: string, codes: set<string>, now: int)
    ensures var once := LoginRefs(slugify, Db([], map[]), user, [PathRef("//")], codes, now);
            KeysUnique(once.orgs) && LoginRefs(slugify, once, user, [PathRef("//")], codes, now) != once
  {
    var ref := PathRef("//");
    SlashesNormaliseToNothing("//");
    OneKeylessWritesAgain(slugify, user, ref, codes, now);
  }

  lemma OneKeylessWritesAgain(slugify: string -> string, user: string, ref: GroupRef, codes: set<string>, now: int)
    requires ref.groupId == None && !HasKey(ref)
    ensures var once := LoginRefs(slugify, Db([], map[]), user, [ref], codes, now);
            KeysUnique(once.orgs) && LoginRefs(slugify, once, user, [ref], codes, now) != once
  {
    assert ref in [ref];
    FewLoginAgainIff(slugify, Db([], map[]), user, [ref], codes, now, now);
  }
}
