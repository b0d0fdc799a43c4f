/** What a token says and what the login makes of it, column by column: from the items of the groups
    claim to the user's memberships (`parse_groups_from_claims` and `reconcile_from_claims`). */
module TokenLogins {
  import opened Basics
  import opened GroupRefs
  import opened OrgTable
  import opened Reconcile

  // ------------------------------------------------------------- organizations

  /** Some string of the claim normalises to this path. */
  ghost predicate Listed(items: seq<Option<string>>, path: string) {
    path != "" && exists i :: 0 <= i < |items| && items[i].Some? && NormalizePath(items[i]) == path
  }

  /** Some reference has this path. */
  ghost predicate Referred(refs: seq<GroupRef>, path: string) {
    path != "" && exists k :: 0 <= k < |refs| && NormalizePath(refs[k].path) == path
  }

  /** A new organization made for a reference without an id. */
  ghost predicate NewFor(ref: GroupRef, org: Org) {
    org.isActive && org.groupId == None && org.path == NormalizePath(ref.path) && IsNameOf(ref, org.name)
  }

  /** The organizations a list of references without ids leads to: those that have one of the paths, and
      the new ones, each made for one of the references. */
  ghost predicate Reached(orgs: Orgs, refs: seq<GroupRef>, orgs': Orgs, wanted: set<nat>) {
    && |orgs| <= |orgs'| <= |orgs| + |refs| && orgs'[..|orgs|] == orgs && KeysUnique(orgs')
    && (forall o: nat :: o in wanted ==> o < |orgs'|)
    && (forall o: nat :: o < |orgs| ==> (o in wanted <==> Referred(refs, orgs[o].path)))
    && (forall o: nat :: |orgs| <= o < |orgs'| ==> o in wanted && exists k :: 0 <= k < |refs| && NewFor(refs[k], orgs'[o]))
  }

  lemma {:induction false} PathsReached(slugify: string -> string, orgs: Orgs, refs: seq<GroupRef>)
    requires KeysUnique(orgs) && NoIds(refs)
    ensures Reached(orgs, refs, ResolvedAll(slugify, orgs, refs).0, ResolvedAll(slugify, orgs, refs).1)
  {
    if refs == [] {
      assert orgs[..|orgs|] == orgs;
    } else {
      var front := refs[..|refs| - 1];
      FrontNoIds(refs);
      PathsReached(slugify, orgs, front);
      var (now, wanted) := ResolvedAll(slugify, orgs, front);
      var (after, r) := Resolved(slugify, now, refs[|refs| - 1]);
      assert ResolvedAll(slugify, orgs, refs) == (after, if r.Some? then wanted + {r.value} else wanted);
      OneMoreReached(slugify, orgs, refs, now, wanted);
    }
  }

  lemma FrontNoIds(refs: seq<GroupRef>)
    requires refs != [] && NoIds(refs)
    ensures NoIds(refs[..|refs| - 1]) && refs[|refs| - 1].groupId == None
  {
    assert forall ref :: ref in refs[..|refs| - 1] ==> ref in refs;
  }

  lemma OneMoreReached(slugify: string -> string, orgs: Orgs, refs: seq<GroupRef>, now: Orgs, wanted: set<nat>)
    requires refs != [] && refs[|refs| - 1].groupId == None && Reached(orgs, refs[..|refs| - 1], now, wanted)
    ensures var (after, r) := Resolved(slugify, now, refs[|refs| - 1]);
            Reached(orgs, refs, after, if r.Some? then wanted + {r.value} else wanted)
  {
    var front, last := refs[..|refs| - 1], refs[|refs| - 1];
    assert refs == front + [last];
    OneReached(slugify, now, last);
    var (after, r) := Resolved(slugify, now, last);
    if after == now {
      ReachedKnown(orgs, front, now, wanted, last, r);
    } else {
      ReachedNew(orgs, front, now, wanted, last, after);
    }
  }

  /** One reference: the row with its path, nothing, or a new row. */
  lemma OneReached(slugify: string -> string, orgs: Orgs, ref: GroupRef)
    requires KeysUnique(orgs) && ref.groupId == None
    ensures var (orgs', r) := Resolved(slugify, orgs, ref);
            var path := NormalizePath(ref.path);
            && KeysUnique(orgs')
            && (orgs' == orgs ==> (r.Some? ==> r.value < |orgs| && CarriesPath(orgs[r.value], path))
                                  && (r.None? ==> forall o :: 0 <= o < |orgs| ==> !CarriesPath(orgs[o], path)))
            && (orgs' != orgs ==> |orgs'| == |orgs| + 1 && orgs'[..|orgs|] == orgs && r == Some(|orgs|)
                                  && NewFor(ref, orgs'[|orgs|]) && forall o :: 0 <= o < |orgs| ==> !CarriesPath(orgs[o], path))
  {
    ResolvedGrows(slugify, orgs, ref);
    FoundWhich(orgs, None, NormalizePath(ref.path));
    if Found(orgs, ref).1.None? {
      CreatedIs(slugify, orgs, ref);
    } else {
      FoundWithPath(orgs, ref);
    }
  }

  lemma FoundWithPath(orgs: Orgs, ref: GroupRef)
    requires KeysUnique(orgs) && ref.groupId == None && Found(orgs, ref).1.Some?
    ensures var (orgs', r) := Found(orgs, ref);
            orgs' == orgs && r.value < |orgs| && CarriesPath(orgs[r.value], NormalizePath(ref.path))
  {
  }

  lemma ReferredNext(refs: seq<GroupRef>, last: GroupRef, path: string)
    ensures Referred(refs + [last], path) <==> Referred(refs, path) || (path != "" && NormalizePath(last.path) == path)
  {
    var all := refs + [last];
    assert all[|refs|] == last && forall k :: 0 <= k < |refs| ==> all[k] == refs[k];
    if Referred(refs, path) {
      var k :| 0 <= k < |refs| && NormalizePath(refs[k].path) == path;
      assert NormalizePath(all[k].path) == path;
    }
  }

  lemma NewStays(orgs: Orgs, refs: seq<GroupRef>, last: GroupRef, org: Org)
    requires exists k :: 0 <= k < |refs| && NewFor(refs[k], org)
    ensures exists k :: 0 <= k < |refs + [last]| && NewFor((refs + [last])[k], org)
  {
    var k :| 0 <= k < |refs| && NewFor(refs[k], org);
    assert NewFor((refs + [last])[k], org);
  }

  lemma SamePathSameRow(orgs: Orgs, i: nat, j: nat)
    requires KeysUnique(orgs) && i < |orgs| && j < |orgs| && orgs[i].path == orgs[j].path != ""
    ensures i == j
  {
  }

  lemma ReachedKnown(orgs: Orgs, refs: seq<GroupRef>, now: Orgs, wanted: set<nat>, last: GroupRef, r: Option<nat>)
    requires Reached(orgs, refs, now, wanted)
    requires r.Some? ==> r.value < |now| && CarriesPath(now[r.value], NormalizePath(last.path))
    requires r.None? ==> forall o :: 0 <= o < |now| ==> !CarriesPath(now[o], NormalizePath(last.path))
    ensures Reached(orgs, refs + [last], now, if r.Some? then wanted + {r.value} else wanted)
  {
    var wanted' := if r.Some? then wanted + {r.value} else wanted;
    forall o: nat | o < |orgs| ensures o in wanted' <==> Referred(refs + [last], orgs[o].path) {
      ReferredNext(refs, last, orgs[o].path);
      assert orgs[o] == now[..|orgs|][o] == now[o];
      if r.Some? && CarriesPath(orgs[o], NormalizePath(last.path)) {
        SamePathSameRow(now, o, r.value);
      }
    }
    forall o: nat | |orgs| <= o < |now| ensures exists k :: 0 <= k < |refs + [last]| && NewFor((refs + [last])[k], now[o]) {
      NewStays(orgs, refs, last, now[o]);
    }
  }

  lemma ReachedNew(orgs: Orgs, refs: seq<GroupRef>, now: Orgs, wanted: set<nat>, last: GroupRef, after: Orgs)
    requires Reached(orgs, refs, now, wanted) && KeysUnique(after)
    requires |after| == |now| + 1 && after[..|now|] == now && NewFor(last, after[|now|])
    requires forall o :: 0 <= o < |now| ==> !CarriesPath(now[o], NormalizePath(last.path))
    ensures Reached(orgs, refs + [last], after, wanted + {|now|})
  {
    assert after[..|orgs|] == now[..|orgs|];
    forall o: nat | o < |orgs| ensures o in wanted + {|now|} <==> Referred(refs + [last], orgs[o].path) {
      ReferredNext(refs, last, orgs[o].path);
      assert orgs[o] == now[o];
    }
    forall o: nat | |orgs| <= o < |after| ensures exists k :: 0 <= k < |refs + [last]| && NewFor((refs + [last])[k], after[o]) {
      if o < |now| {
        assert after[o] == now[o];
        NewStays(orgs, refs, last, now[o]);
      } else {
        assert (refs + [last])[|refs|] == last;
      }
    }
  }

  /** Some organization has the path. */
  ghost predicate Carried(orgs: Orgs, path: string) {
    exists o :: 0 <= o < |orgs| && orgs[o].path == path
  }

  /** As long as slugs cannot run out, every path referred to has its organization afterwards. */
  lemma {:induction false} FewReached(slugify: string -> string, orgs: Orgs, refs: seq<GroupRef>, path: string)
    requires KeysUnique(orgs) && NoIds(refs) && |orgs| + |refs| <= 50 && Referred(refs, path)
    ensures var orgs' := ResolvedAll(slugify, orgs, refs).0; Carried(orgs', path)
  {
    var front, last := refs[..|refs| - 1], refs[|refs| - 1];
    assert refs == front + [last];
    FrontNoIds(refs);
    PathsReached(slugify, orgs, front);
    var now := ResolvedAll(slugify, orgs, front).0;
    ReferredNext(front, last, path);
    if Referred(front, path) {
      FewReached(slugify, orgs, front, path);
    }
    FewNext(slugify, now, last, path);
    assert ResolvedAll(slugify, orgs, refs).0 == Resolved(slugify, now, last).0;
  }

  lemma FewNext(slugify: string -> string, orgs: Orgs, ref: GroupRef, path: string)
    requires KeysUnique(orgs) && ref.groupId == None && |orgs| < 50
    requires (path != "" && NormalizePath(ref.path) == path) || Carried(orgs, path)
    ensures var orgs' := Resolved(slugify, orgs, ref).0; Carried(orgs', path)
  {
    FewOneReached(slugify, orgs, ref);
    if Carried(orgs, path) {
      var o :| 0 <= o < |orgs| && orgs[o].path == path;
      assert Resolved(slugify, orgs, ref).0[o].path == path;
    }
  }

  lemma FewOneReached(slugify: string -> string, orgs: Orgs, ref: GroupRef)
    requires KeysUnique(orgs) && ref.groupId == None && |orgs| < 50
    ensures var orgs', path := Resolved(slugify, orgs, ref).0, NormalizePath(ref.path);
            && |orgs| <= |orgs'| && (forall o :: 0 <= o < |orgs| ==> orgs'[o] == orgs[o])
            && (path != "" ==> Carried(orgs', path))
  {
    OneReached(slugify, orgs, ref);
    FewOrganizationsSuffice(slugify, orgs, ref);
    var (orgs', r) := Resolved(slugify, orgs, ref);
    if orgs' != orgs {
      assert orgs'[..|orgs|] == orgs && orgs'[|orgs|].path == NormalizePath(ref.path);
    }
  }

  // --------------------------------------------------------------- from the items

  lemma StripTwice(s: string)
    ensures Strip(Strip(s)) == Strip(s)
  {
    StripEnds(s);
    var t := Strip(s);
    if t != "" {
      assert LStrip(t) == t && RStrip(t) == t;
    }
  }

  /** An item and its reference normalise alike; a blank item normalises to nothing. */
  lemma SameNormal(item: Option<string>)
    requires item.Some?
    ensures Blank(item.value) ==> NormalizePath(item) == ""
    ensures !Blank(item.value) ==> NormalizePath(Some(Strip(item.value))) == NormalizePath(item)
  {
    StripBlank(item.value);
    StripTwice(item.value);
    NormalOf(item.value);
    NormalOf(Strip(item.value));
  }

  lemma {:induction false} ListedIsReferred(items: seq<Option<string>>, path: string)
    ensures Listed(items, path) <==> Referred(PathRefs(items), path)
  {
    var at := RefsOfItems(items);
    var refs := PathRefs(items);
    if Listed(items, path) {
      var i :| 0 <= i < |items| && items[i].Some? && NormalizePath(items[i]) == path;
      SameNormal(items[i]);
      assert IsGroup(items[i]);
      var k :| 0 <= k < |at| && at[k] == i;
      assert RefOfItem(items[at[k]], refs[k]);
    }
    if Referred(refs, path) {
      var k :| 0 <= k < |refs| && NormalizePath(refs[k].path) == path;
      assert RefOfItem(items[at[k]], refs[k]) && IsGroup(items[at[k]]);
      SameNormal(items[at[k]]);
    }
  }

  lemma {:induction false} RefsHaveNoIds(items: seq<Option<string>>)
    ensures NoIds(PathRefs(items)) && |PathRefs(items)| <= |items|
  {
    var at := RefsOfItems(items);
    PlacesFit(items, at);
  }

  lemma {:induction false} PlacesFit(items: seq<Option<string>>, at: seq<nat>)
    requires GroupPlaces(items, 0, at)
    ensures |at| <= |items|
  {
    if at != [] {
      PlaceAfter(items, at, |at| - 1);
    }
  }

  lemma {:induction false} PlaceAfter(items: seq<Option<string>>, at: seq<nat>, k: nat)
    requires GroupPlaces(items, 0, at) && k < |at|
    ensures k <= at[k]
  {
    if k > 0 {
      PlaceAfter(items, at, k - 1);
    }
  }

  // ---------------------------------------------------------------- memberships

  /** The membership of an organization the token leads to. */
  ghost predicate GrantedRow(before: Option<Membership>, after: Option<Membership>, orgIsActive: bool, codes: set<string>,
                             prune: bool, now: int) {
    if before.Some? && before.value.origin == Manual then after == before
    else
      var expires := if before.Some? then before.value.expiresAt else None;
      var roles := if before.Some? then before.value.roles else {};
      after == Some(Membership(Active, Keycloak,
                               if !orgIsActive || (expires.Some? && expires.value <= now) then roles
                               else if prune then codes else roles + codes, expires))
  }

  /** The membership of another organization. */
  ghost predicate RevokedRow(before: Option<Membership>, after: Option<Membership>, prune: bool) {
    if before.None? || before.value.origin == Manual || !prune then after == before
    else after == Some(Membership(Revoked, Keycloak, {}, before.value.expiresAt))
  }

  function RowOf(members: Members, key: Key): Option<Membership> {
    if key in members then Some(members[key]) else None
  }

  lemma ReconciledIs(members: Members, orgs: Orgs, user: string, wanted: set<nat>, pass: Pass, key: Key)
    requires (forall o :: o in wanted ==> o < |orgs|) && (key in members ==> key.org < |orgs|)
    ensures var before, after := RowOf(members, key), RowOf(Reconciled(members, orgs, user, wanted, pass), key);
            if key.user != user then after == before
            else if key.org in wanted then
              GrantedRow(before, after, orgs[key.org].isActive, pass.codes, pass.prune, pass.now)
            else RevokedRow(before, after, pass.prune)
  {
    assert key in KeysOf(wanted, user) <==> key.user == user && key.org in wanted;
    assert key in members && key.user == user ==> key.org in UserOrgs(members, user);
  }

  ghost predicate TokenOutcome(db: Db, db': Db, user: string, items: seq<Option<string>>, codes: set<string>, now: int, key: Key) {
    var before, after := RowOf(db.members, key), RowOf(db'.members, key);
    && |db.orgs| <= |db'.orgs| && db'.orgs[..|db.orgs|] == db.orgs && (after.Some? ==> key.org < |db'.orgs|)
    && if key.user != user || key.org >= |db'.orgs| then after == before
       else if key.org >= |db.orgs| || Listed(items, db.orgs[key.org].path) then
         GrantedRow(before, after, db'.orgs[key.org].isActive, codes, true, now)
       else RevokedRow(before, after, true)
  }

  /** What a login with a list of groups makes of every membership: those of the organizations that have
      one of its paths, and of the new ones it created for them, are active with the token's roles; the
      user's others are revoked without roles; manual ones and other users' stay as they are. */
  lemma {:induction false} TokenDecides(slugify: string -> string, db: Db, user: string, items: seq<Option<string>>,
                                        codes: set<string>, now: int, key: Key)
    requires DbOk(db)
    ensures TokenOutcome(db, Login(slugify, db, user, Items(items), codes, now), user, items, codes, now, key)
  {
    var refs := PathRefs(items);
    RefsHaveNoIds(items);
    PathsReached(slugify, db.orgs, refs);
    var (orgs', wanted) := ResolvedAll(slugify, db.orgs, refs);
    LoginIs(slugify, db, user, items, codes, now);
    ReconciledIs(db.members, orgs', user, wanted, Pass(codes, true, now), key);
    if key.org < |db.orgs| {
      ListedIsReferred(items, db.orgs[key.org].path);
    }
  }

  lemma {:induction false} LoginIs(slugify: string -> string, db: Db, user: string, items: seq<Option<string>>,
                                   codes: set<string>, now: int)
    requires KeysUnique(db.orgs)
    ensures var (orgs', wanted) := ResolvedAll(slugify, db.orgs, PathRefs(items));
            && (forall o :: o in wanted ==> o < |orgs'|)
            && Login(slugify, db, user, Items(items), codes, now)
               == Db(orgs', Reconciled(db.members, orgs', user, wanted, Pass(codes, true, now)))
  {
    ResolvedAllGrows(slugify, db.orgs, PathRefs(items));
  }

  /** The organizations a login creates: active, for one of the items, with its path and name and no id;
      while slugs cannot run out every listed path has one afterwards. */
  lemma {:induction false} TokenCreates(slugify: string -> string, db: Db, user: string, items: seq<Option<string>>,
                                        codes: set<string>, now: int)
    requires DbOk(db)
    ensures var orgs' := Login(slugify, db, user, Items(items), codes, now).orgs;
            && |db.orgs| <= |orgs'|
            && (forall o: nat :: |db.orgs| <= o < |orgs'| ==> exists i :: 0 <= i < |items| && MadeFor(items[i], orgs'[o]))
            && (|db.orgs| + |items| <= 50 ==>
                  forall path :: Listed(items, path) ==> Carried(orgs', path))
  {
    RefsHaveNoIds(items);
    PathsReached(slugify, db.orgs, PathRefs(items));
    NewAreMade(db.orgs, items, ResolvedAll(slugify, db.orgs, PathRefs(items)).0);
    if |db.orgs| + |items| <= 50 {
      forall path | Listed(items, path)
        ensures var orgs' := ResolvedAll(slugify, db.orgs, PathRefs(items)).0; Carried(orgs', path)
      {
        ListedIsReferred(items, path);
        FewReached(slugify, db.orgs, PathRefs(items), path);
      }
    }
  }

  /** A new organization for one item of the claim: its path, and the path's last part as name. */
  ghost predicate MadeFor(item: Option<string>, org: Org) {
    && item.Some? && !Blank(item.value) && org.isActive && org.groupId == None && org.path == NormalizePath(item)
    && exists leaf :: IsLeaf(Strip(item.value), leaf) && org.name == if leaf == "" then Strip(item.value) else leaf
  }

  lemma {:induction false} NewAreMade(orgs: Orgs, items: seq<Option<string>>, orgs': Orgs)
    requires |orgs| <= |orgs'|
    requires forall o: nat :: |orgs| <= o < |orgs'| ==> exists k :: 0 <= k < |PathRefs(items)| && NewFor(PathRefs(items)[k], orgs'[o])
    ensures forall o: nat :: |orgs| <= o < |orgs'| ==> exists i :: 0 <= i < |items| && MadeFor(items[i], orgs'[o])
  {
    var at := RefsOfItems(items);
    forall o: nat | |orgs| <= o < |orgs'| ensures exists i :: 0 <= i < |items| && MadeFor(items[i], orgs'[o]) {
      var k :| 0 <= k < |PathRefs(items)| && NewFor(PathRefs(items)[k], orgs'[o]);
      assert RefOfItem(items[at[k]], PathRefs(items)[k]) && IsGroup(items[at[k]]);
      SameNormal(items[at[k]]);
      assert MadeFor(items[at[k]], orgs'[o]);
    }
  }

  /** What a join or leave of the organization `r` makes of every membership. */
  ghost predicate ChangeOutcome(db: Db, members': Members, user: string, r: Option<nat>, added: bool, key: Key) {
    var before, after := RowOf(db.members, key), RowOf(members', key);
    if r.None? || key != Key(r.value, user) || (before.Some? && before.value.origin == Manual) then after == before
    else if added then
      if before.None? then after == Some(Membership(Active, Keycloak, {}, None))
      else after == Some(Membership(Active, Keycloak, before.value.roles, before.value.expiresAt))
    else if before.None? then after.None?
    else after == Some(Membership(Revoked, Keycloak, {}, before.value.expiresAt))
  }

  /** A join makes the one membership active and gives it no role, a leave revokes it without roles; a
      join may create the organization, a leave only looks for it. */
  lemma ChangeDecides(slugify: string -> string, db: Db, user: string, ref: GroupRef, added: bool, key: Key)
    requires DbOk(db)
    ensures var (orgs', r) := if added then Resolved(slugify, db.orgs, ref) else Found(db.orgs, ref);
            var db' := Changed(slugify, db, user, ref, added);
            db'.orgs == orgs' && ChangeOutcome(db, db'.members, user, r, added, key)
  {
    var (orgs', r) := if added then Resolved(slugify, db.orgs, ref) else Found(db.orgs, ref);
    ChangedIs(slugify, db, user, ref, added, orgs', r);
  }

  /** Without a usable claim nothing happens. */
  lemma NoClaimNothing(slugify: string -> string, db: Db, user: string, codes: set<string>, now: int)
    requires DbOk(db)
    ensures Login(slugify, db, user, Absent, codes, now) == db && Login(slugify, db, user, NotAList, codes, now) == db
  {
  }
}
