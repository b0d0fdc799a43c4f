/** When a Keycloak group ends up with two organizations. References arrive with the group's id, its
    path or both; an id-only and a path-only row share nothing that a later search could join them by. */
module GroupForks {
  import opened Basics
  import opened GroupRefs
  import opened OrgTable
  import opened Reconcile

  predicate ById(ref: GroupRef) {
    Truthy(ref.groupId)
  }

  predicate ByPath(ref: GroupRef) {
    NormalizePath(ref.path) != ""
  }

  /** The reference names the group by its id, its path or both. */
  predicate Names(ref: GroupRef, id: string, path: string) {
    && (ById(ref) ==> ref.groupId == Some(id)) && (ByPath(ref) ==> NormalizePath(ref.path) == path)
    && (ById(ref) || ByPath(ref))
  }

  /** No organization carries the group's id or path. */
  ghost predicate Unknown(orgs: Orgs, id: string, path: string) {
    id != "" && path != "" && forall i :: 0 <= i < |orgs| ==> orgs[i].groupId != Some(id) && orgs[i].path != path
  }

  /** The rows that carry the group's id and the group's path. */
  datatype Holders = Holders(byId: Option<nat>, byPath: Option<nat>)

  function HoldersOf(orgs: Orgs, id: string, path: string): Holders {
    Holders(FirstId(orgs, id), FirstPath(orgs, path))
  }

  /** The holders once a reference is resolved to a row, `next` being the next row created. */
  function AfterRef(h: Holders, next: nat, byId: bool, byPath: bool): (Holders, nat) {
    var known := if byId && (h.byId.Some? || !byPath) then h.byId else h.byPath;
    var row := if byId && byPath && h.byPath.Some? then h.byPath.value else if known.Some? then known.value else next;
    (Holders(if byId && h.byId.None? then Some(row) else h.byId, if byPath && h.byPath.None? then Some(row) else h.byPath), row)
  }

  /** A row that carries one of the group's keys and not the other has nothing in the other's place. */
  ghost predicate Clean(orgs: Orgs, id: string, path: string) {
    var h := HoldersOf(orgs, id, path);
    && KeysUnique(orgs) && id != "" && path != ""
    && (h.byId.Some? && h.byPath != h.byId ==> orgs[h.byId.value].path == "")
    && (h.byPath.Some? && h.byPath != h.byId ==> !Truthy(orgs[h.byPath.value].groupId))
  }

  lemma {:induction false} UniqueId(orgs: Orgs, id: string, i: nat)
    requires KeysUnique(orgs) && i < |orgs| && orgs[i].groupId == Some(id)
    ensures FirstId(orgs, id) == Some(i)
  {
  }

  lemma {:induction false} UniquePath(orgs: Orgs, path: string, i: nat)
    requires KeysUnique(orgs) && path != "" && i < |orgs| && orgs[i].path == path
    ensures FirstPath(orgs, path) == Some(i)
  {
  }

  lemma LookupHolders(orgs: Orgs, id: string, path: string, byId: bool, byPath: bool)
    requires Clean(orgs, id, path) && (byId || byPath)
    ensures var (orgs', r) := Lookup(orgs, if byId then Some(id) else None, if byPath then path else "");
            var h := HoldersOf(orgs, id, path);
            && KeysUnique(orgs')
            && (r.None? <==> !(byId && h.byId.Some?) && !(byPath && h.byPath.Some?))
            && (r.Some? ==> Clean(orgs', id, path)
                            && (HoldersOf(orgs', id, path), r.value) == AfterRef(h, |orgs|, byId, byPath))
  {
    LookupGrows(orgs, if byId then Some(id) else None, if byPath then path else "");
  }

  lemma FoundHolders(orgs: Orgs, id: string, path: string, ref: GroupRef)
    requires Clean(orgs, id, path) && Names(ref, id, path)
    ensures Found(orgs, ref) == Lookup(orgs, if ById(ref) then Some(id) else None, if ByPath(ref) then path else "")
  {
  }

  /** The row created when neither key that the reference carries is held. */
  lemma CreatedHolders(orgs: Orgs, orgs': Orgs, id: string, path: string, byId: bool, byPath: bool)
    requires Clean(orgs, id, path) && KeysUnique(orgs') && (byId || byPath)
    requires |orgs'| == |orgs| + 1 && orgs'[..|orgs|] == orgs
    requires orgs'[|orgs|].groupId == (if byId then Some(id) else None) && orgs'[|orgs|].path == if byPath then path else ""
    requires var h := HoldersOf(orgs, id, path); !(byId && h.byId.Some?) && !(byPath && h.byPath.Some?)
    ensures Clean(orgs', id, path)
    ensures (HoldersOf(orgs', id, path), |orgs|) == AfterRef(HoldersOf(orgs, id, path), |orgs|, byId, byPath)
  {
    assert orgs'[..|orgs'| - 1] == orgs;
  }

  /** Resolving one reference of the group, wherever the group stands. */
  lemma ResolvedHolders(slugify: string -> string, orgs: Orgs, id: string, path: string, ref: GroupRef)
    requires Clean(orgs, id, path) && Names(ref, id, path) && Resolved(slugify, orgs, ref).1.Some?
    ensures var (orgs', r) := Resolved(slugify, orgs, ref);
            && Clean(orgs', id, path) && |orgs| <= |orgs'|
            && (HoldersOf(orgs', id, path), r.value) == AfterRef(HoldersOf(orgs, id, path), |orgs|, ById(ref), ByPath(ref))
  {
    FoundHolders(orgs, id, path, ref);
    LookupHolders(orgs, id, path, ById(ref), ByPath(ref));
    ResolvedGrows(slugify, orgs, ref);
    if Found(orgs, ref).1.None? {
      CreatedGrows(slugify, orgs, ref, 0);
      CreatedHolders(orgs, Resolved(slugify, orgs, ref).0, id, path, ById(ref), ByPath(ref));
    }
  }

  lemma UnknownHolders(orgs: Orgs, id: string, path: string)
    requires KeysUnique(orgs) && Unknown(orgs, id, path)
    ensures HoldersOf(orgs, id, path) == Holders(None, None) && Clean(orgs, id, path)
  {
  }

  /** Two references of a group nobody has seen lead to one organization exactly when both carry the
      id or both carry the path. */
  lemma ForkIff(slugify: string -> string, orgs: Orgs, id: string, path: string, a: GroupRef, b: GroupRef)
    requires KeysUnique(orgs) && Unknown(orgs, id, path) && Names(a, id, path) && Names(b, id, path)
    requires Resolved(slugify, orgs, a).1.Some?
    ensures var (orgs', r) := Resolved(slugify, orgs, a);
            Resolved(slugify, orgs', b).1 == r <==> (ById(a) && ById(b)) || (ByPath(a) && ByPath(b))
  {
    UnknownHolders(orgs, id, path);
    ResolvedHolders(slugify, orgs, id, path, a);
    var (orgs', r) := Resolved(slugify, orgs, a);
    ResolvedGrows(slugify, orgs, a);
    if Resolved(slugify, orgs', b).1.Some? {
      ResolvedHolders(slugify, orgs', id, path, b);
    } else {
      FoundHolders(orgs', id, path, b);
      LookupHolders(orgs', id, path, ById(b), ByPath(b));
    }
  }

  // -------------------------------------------------------------- sequences

  predicate Both(ref: GroupRef) {
    ById(ref) && ByPath(ref)
  }

  /** Every reference is resolved to a row: no slugs run out. */
  ghost predicate AllResolved(slugify: string -> string, orgs: Orgs, refs: seq<GroupRef>) {
    refs == []
    || (AllResolved(slugify, orgs, refs[..|refs| - 1])
        && Resolved(slugify, ResolvedAll(slugify, orgs, refs[..|refs| - 1]).0, refs[|refs| - 1]).1.Some?)
  }

  ghost predicate AllName(refs: seq<GroupRef>, id: string, path: string) {
    forall i :: 0 <= i < |refs| ==> Names(refs[i], id, path)
  }

  /** An id-only and a path-only reference, both before the first one that carries both. */
  ghost predicate Forks(refs: seq<GroupRef>) {
    exists k, l :: ForksAt(refs, k, l)
  }

  ghost predicate ForksAt(refs: seq<GroupRef>, k: int, l: int) {
    && 0 <= k < |refs| && 0 <= l < |refs| && !ByPath(refs[k]) && !ById(refs[l])
    && forall m :: 0 <= m < |refs| && Both(refs[m]) ==> k < m && l < m
  }

  ghost predicate Seen(refs: seq<GroupRef>, p: GroupRef -> bool) {
    exists i :: 0 <= i < |refs| && p(refs[i])
  }

  /** Whether one more reference makes the sequence fork. */
  lemma ForksNext(refs: seq<GroupRef>, last: GroupRef, id: string, path: string)
    requires AllName(refs, id, path) && Names(last, id, path)
    ensures Seen(refs + [last], ById) <==> Seen(refs, ById) || ById(last)
    ensures Seen(refs + [last], ByPath) <==> Seen(refs, ByPath) || ByPath(last)
    ensures Forks(refs + [last]) <==>
              Forks(refs) || (!Seen(refs, Both) && ((!ByPath(last) && Seen(refs, ByPath)) || (!ById(last) && Seen(refs, ById))))
  {
    SeenNext(refs, last, ById);
    SeenNext(refs, last, ByPath);
    if Forks(refs) {
      var k, l :| ForksAt(refs, k, l);
      ForksStill(refs, last, k, l);
    } else if !Seen(refs, Both) && !ByPath(last) && Seen(refs, ByPath) {
      var l :| 0 <= l < |refs| && ByPath(refs[l]);
      IdAtLast(refs, last, l);
    } else if !Seen(refs, Both) && !ById(last) && Seen(refs, ById) {
      var k :| 0 <= k < |refs| && ById(refs[k]);
      PathAtLast(refs, last, k);
    }
    if Forks(refs + [last]) {
      var k, l :| ForksAt(refs + [last], k, l);
      ForkSeen(refs, last, id, path, k, l);
    }
  }

  lemma ForksStill(refs: seq<GroupRef>, last: GroupRef, k: int, l: int)
    requires ForksAt(refs, k, l)
    ensures ForksAt(refs + [last], k, l)
  {
    assert forall i :: 0 <= i < |refs| ==> (refs + [last])[i] == refs[i];
  }

  lemma NoneWithBoth(refs: seq<GroupRef>, last: GroupRef)
    requires !Seen(refs, Both) && !Both(last)
    ensures forall m :: 0 <= m < |refs + [last]| ==> !Both((refs + [last])[m])
  {
    forall m | 0 <= m < |refs + [last]| ensures !Both((refs + [last])[m]) {
      assert (refs + [last])[m] == if m < |refs| then refs[m] else last;
    }
  }

  lemma IdAtLast(refs: seq<GroupRef>, last: GroupRef, l: nat)
    requires l < |refs| && !Seen(refs, Both) && ByPath(refs[l]) && !ByPath(last)
    ensures ForksAt(refs + [last], |refs|, l)
  {
    NoneWithBoth(refs, last);
    assert !Both(refs[l]) && (refs + [last])[l] == refs[l] && (refs + [last])[|refs|] == last;
  }

  lemma PathAtLast(refs: seq<GroupRef>, last: GroupRef, k: nat)
    requires k < |refs| && !Seen(refs, Both) && ById(refs[k]) && !ById(last)
    ensures ForksAt(refs + [last], k, |refs|)
  {
    NoneWithBoth(refs, last);
    assert !Both(refs[k]) && (refs + [last])[k] == refs[k] && (refs + [last])[|refs|] == last;
  }

  lemma SeenNext(refs: seq<GroupRef>, last: GroupRef, p: GroupRef -> bool)
    ensures Seen(refs + [last], p) <==> Seen(refs, p) || p(last)
  {
    var all := refs + [last];
    assert all[|refs|] == last && forall i :: 0 <= i < |refs| ==> all[i] == refs[i];
    if Seen(refs, p) {
      var i :| 0 <= i < |refs| && p(refs[i]);
      assert p(all[i]);
    }
  }

  lemma ForkSeen(refs: seq<GroupRef>, last: GroupRef, id: string, path: string, k: int, l: int)
    requires AllName(refs, id, path) && Names(last, id, path) && ForksAt(refs + [last], k, l)
    ensures Forks(refs) || (!Seen(refs, Both) && ((!ByPath(last) && Seen(refs, ByPath)) || (!ById(last) && Seen(refs, ById))))
  {
    var all := refs + [last];
    assert all[|refs|] == last && forall i :: 0 <= i < |refs| ==> all[i] == refs[i];
    if k < |refs| && l < |refs| {
      assert ForksAt(refs, k, l);
    } else if k == |refs| {
      assert ByPath(refs[l]);
    } else {
      assert ById(refs[k]);
    }
  }

  /** Where a group nobody has seen stands after a sequence of references. */
  ghost predicate Standing(orgs: Orgs, id: string, path: string, refs: seq<GroupRef>) {
    var h := HoldersOf(orgs, id, path);
    && Clean(orgs, id, path)
    && (h.byId.Some? <==> Seen(refs, ById)) && (h.byPath.Some? <==> Seen(refs, ByPath))
    && (h.byId.Some? && h.byPath.Some? ==> (h.byId != h.byPath <==> Forks(refs)))
    && (Forks(refs) ==> h.byId.Some? && h.byPath.Some?)
    && (Seen(refs, Both) ==> h.byId.Some? && h.byPath.Some?)
    && (h.byId.Some? && h.byPath.Some? ==> Seen(refs, Both) || Forks(refs))
  }

  lemma {:induction false} StandingAfter(slugify: string -> string, orgs: Orgs, id: string, path: string, refs: seq<GroupRef>)
    requires KeysUnique(orgs) && Unknown(orgs, id, path) && AllName(refs, id, path) && AllResolved(slugify, orgs, refs)
    ensures Standing(ResolvedAll(slugify, orgs, refs).0, id, path, refs)
  {
    if refs == [] {
      UnknownHolders(orgs, id, path);
    } else {
      StandingAfter(slugify, orgs, id, path, refs[..|refs| - 1]);
      StandingNext(slugify, orgs, id, path, refs);
    }
  }

  lemma {:induction false} StandingNext(slugify: string -> string, orgs: Orgs, id: string, path: string, refs: seq<GroupRef>)
    requires refs != [] && AllName(refs, id, path) && AllResolved(slugify, orgs, refs)
    requires Standing(ResolvedAll(slugify, orgs, refs[..|refs| - 1]).0, id, path, refs[..|refs| - 1])
    ensures Standing(ResolvedAll(slugify, orgs, refs).0, id, path, refs)
  {
    var front, last := refs[..|refs| - 1], refs[|refs| - 1];
    FrontAndLast(refs);
    var before := ResolvedAll(slugify, orgs, front).0;
    ResolvedHolders(slugify, before, id, path, last);
    StandingMoves(before, Resolved(slugify, before, last).0, id, path, front, last);
  }

  lemma StandingMoves(orgs: Orgs, orgs': Orgs, id: string, path: string, refs: seq<GroupRef>, last: GroupRef)
    requires Standing(orgs, id, path, refs) && Clean(orgs', id, path) && AllName(refs, id, path) && Names(last, id, path)
    requires HoldersOf(orgs', id, path) == AfterRef(HoldersOf(orgs, id, path), |orgs|, ById(last), ByPath(last)).0
    ensures Standing(orgs', id, path, refs + [last])
  {
    ForksNext(refs, last, id, path);
    SeenNext(refs, last, Both);
  }

  /** The organizations of the group, by either key. */
  function GroupRows(orgs: Orgs, id: string, path: string): set<nat> {
    set i | 0 <= i < |orgs| && (orgs[i].groupId == Some(id) || orgs[i].path == path)
  }

  lemma RowsAreHolders(orgs: Orgs, id: string, path: string)
    requires KeysUnique(orgs) && path != ""
    ensures var h := HoldersOf(orgs, id, path);
            GroupRows(orgs, id, path)
            == (if h.byId.Some? then {h.byId.value} else {}) + (if h.byPath.Some? then {h.byPath.value} else {})
  {
    forall i: nat | i < |orgs| && orgs[i].groupId == Some(id) {
      UniqueId(orgs, id, i);
    }
    forall i: nat | i < |orgs| && orgs[i].path == path {
      UniquePath(orgs, path, i);
    }
  }

  /** A group nobody has seen ends up with two organizations exactly when an id-only and a path-only
      reference both come before the first one that carries both, whatever comes after; otherwise it
      has one. */
  lemma {:induction false} ForksExactly(slugify: string -> string, orgs: Orgs, id: string, path: string, refs: seq<GroupRef>)
    requires KeysUnique(orgs) && Unknown(orgs, id, path) && AllName(refs, id, path) && AllResolved(slugify, orgs, refs)
    ensures |GroupRows(ResolvedAll(slugify, orgs, refs).0, id, path)| == if Forks(refs) then 2 else if refs == [] then 0 else 1
  {
    StandingAfter(slugify, orgs, id, path, refs);
    RowsAreHolders(ResolvedAll(slugify, orgs, refs).0, id, path);
    if refs != [] {
      assert Names(refs[0], id, path);
    }
  }

  /** While slugs cannot run out, every reference is resolved. */
  lemma {:induction false} FewAllResolved(slugify: string -> string, orgs: Orgs, refs: seq<GroupRef>)
    requires KeysUnique(orgs) && |orgs| + |refs| <= MAX_SLUG_ATTEMPTS
    ensures AllResolved(slugify, orgs, refs)
    ensures KeysUnique(ResolvedAll(slugify, orgs, refs).0) && |ResolvedAll(slugify, orgs, refs).0| <= |orgs| + |refs|
  {
    if refs != [] {
      FewAllResolved(slugify, orgs, refs[..|refs| - 1]);
      FewResolved(slugify, ResolvedAll(slugify, orgs, refs[..|refs| - 1]).0, refs[|refs| - 1]);
    }
  }

  lemma FewResolved(slugify: string -> string, orgs: Orgs, ref: GroupRef)
    requires KeysUnique(orgs) && |orgs| < MAX_SLUG_ATTEMPTS
    ensures var (orgs', r) := Resolved(slugify, orgs, ref); r.Some? && KeysUnique(orgs') && |orgs'| <= |orgs| + 1
  {
    FewOrganizationsSuffice(slugify, orgs, ref);
    ResolvedGrows(slugify, orgs, ref);
    FoundGrows(orgs, ref);
    if Found(orgs, ref).1.None? {
      CreatedGrows(slugify, orgs, ref, 0);
    }
  }

  /** Once the id alone and the path alone have come first, in either order, no later reference brings
      the two organizations together, also not one that carries both. */
  lemma {:induction false} EitherOrderForks(slugify: string -> string, orgs: Orgs, id: string, path: string,
                                            byId: GroupRef, byPath: GroupRef, rest: seq<GroupRef>)
    requires KeysUnique(orgs) && Unknown(orgs, id, path) && AllName([byId, byPath] + rest, id, path)
    requires !ByPath(byId) && !ById(byPath)
    ensures AllResolved(slugify, orgs, [byId, byPath] + rest) ==>
              |GroupRows(ResolvedAll(slugify, orgs, [byId, byPath] + rest).0, id, path)| == 2
    ensures AllResolved(slugify, orgs, [byPath, byId] + rest) ==>
              |GroupRows(ResolvedAll(slugify, orgs, [byPath, byId] + rest).0, id, path)| == 2
  {
    OrdersFork(id, path, byId, byPath, rest);
    ForkedAt(slugify, orgs, id, path, [byId, byPath] + rest, 0, 1);
    ForkedAt(slugify, orgs, id, path, [byPath, byId] + rest, 1, 0);
  }

  lemma {:induction false} ForkedAt(slugify: string -> string, orgs: Orgs, id: string, path: string,
                                    refs: seq<GroupRef>, k: int, l: int)
    requires KeysUnique(orgs) && Unknown(orgs, id, path) && AllName(refs, id, path) && ForksAt(refs, k, l)
    ensures AllResolved(slugify, orgs, refs) ==> |GroupRows(ResolvedAll(slugify, orgs, refs).0, id, path)| == 2
  {
    if AllResolved(slugify, orgs, refs) {
      ForksExactly(slugify, orgs, id, path, refs);
    }
  }

  lemma OrdersFork(id: string, path: string, byId: GroupRef, byPath: GroupRef, rest: seq<GroupRef>)
    requires AllName([byId, byPath] + rest, id, path) && !ByPath(byId) && !ById(byPath)
    ensures ForksAt([byId, byPath] + rest, 0, 1) && ForksAt([byPath, byId] + rest, 1, 0)
    ensures AllName([byPath, byId] + rest, id, path)
  {
    var idFirst, pathFirst := [byId, byPath] + rest, [byPath, byId] + rest;
    assert idFirst[0] == byId && idFirst[1] == byPath && pathFirst[0] == byPath && pathFirst[1] == byId;
    forall i | 0 <= i < |pathFirst| ensures Names(pathFirst[i], id, path) {
      assert i > 1 ==> pathFirst[i] == idFirst[i];
      assert Names(idFirst[i], id, path) && Names(idFirst[0], id, path) && Names(idFirst[1], id, path);
    }
  }

  function IdRef(id: string): GroupRef {
    GroupRef(Some(id), None, None)
  }

  function FullRef(id: string, path: string): GroupRef {
    GroupRef(Some(id), Some(path), None)
  }

  /** It happens to every group: an event without a path and a login with the path, in either order,
      and then an event that carries both, from any table without the group and with slugs to spare. */
  lemma {:induction false} GroupForksFor(slugify: string -> string, orgs: Orgs, id: string, path: string)
    requires KeysUnique(orgs) && Unknown(orgs, id, NormalizePath(Some(path))) && |orgs| + 3 <= MAX_SLUG_ATTEMPTS
    ensures var orgs' := ResolvedAll(slugify, orgs, [IdRef(id), PathRef(path)] + [FullRef(id, path)]).0;
            |GroupRows(orgs', id, NormalizePath(Some(path)))| == 2
    ensures var orgs' := ResolvedAll(slugify, orgs, [PathRef(path), IdRef(id)] + [FullRef(id, path)]).0;
            |GroupRows(orgs', id, NormalizePath(Some(path)))| == 2
  {
    ThreeRefs(id, path);
    FewAllResolved(slugify, orgs, [IdRef(id), PathRef(path)] + [FullRef(id, path)]);
    FewAllResolved(slugify, orgs, [PathRef(path), IdRef(id)] + [FullRef(id, path)]);
    EitherOrderForks(slugify, orgs, id, NormalizePath(Some(path)), IdRef(id), PathRef(path), [FullRef(id, path)]);
  }

  lemma ThreeRefs(id: string, path: string)
    requires id != "" && NormalizePath(Some(path)) != ""
    ensures AllName([IdRef(id), PathRef(path)] + [FullRef(id, path)], id, NormalizePath(Some(path)))
    ensures !ByPath(IdRef(id)) && !ById(PathRef(path))
  {
    assert Names(IdRef(id), id, NormalizePath(Some(path))) && Names(PathRef(path), id, NormalizePath(Some(path)));
    assert Names(FullRef(id, path), id, NormalizePath(Some(path)));
  }
}
