/** Reading a Keycloak admin event: which events are replicated and what is stored for the worker
    (the pure part of `apps/identity/webhooks.py`). */
module Webhooks {
  import opened Basics
  import opened GroupRefs
  import opened OrgTable
  import Projection

  /** A JSON field as far as the parsers look at it: a string, another truthy value, or a falsy one
      (absent fields included). */
  datatype Field = Text(text: string) | OtherTruthy | Falsy

  /** The fields of an admin event; `representation` is None unless it is, or decodes to, an object. */
  datatype Payload = Payload(resourceType: Field, operationType: Field, id: Field, uid: Field, resourcePath: Field,
                             representation: Option<Projection.Claims>)

  datatype Kind = UserKind | MembershipKind | GroupKind

  /** The dedupe-ledger row of one event. */
  datatype Entry = Entry(kind: Kind, operation: string, sub: string, representation: Projection.Claims,
                         groupId: string, groupPath: string, groupName: string)

  /** `a or b`. */
  function OrElse(a: Field, b: Field): Field {
    if a.Falsy? || (a.Text? && a.text == "") then b else a
  }

  /** `str.upper()` on the letters the operation names use. */
  function Upper(s: string): (r: string)
    ensures |r| == |s|
  {
    seq(|s|, i requires 0 <= i < |s| => if 'a' <= s[i] <= 'z' then s[i] - 'a' + 'A' else s[i])
  }

  function Head(s: string): (r: string)
    ensures |r| <= |s| && r == s[..|r|] && '/' !in r
    ensures |r| < |s| ==> s[|r|] == '/'
  {
    if s == "" || s[0] == '/' then "" else [s[0]] + Head(s[1..])
  }

  /** The non-empty parts between slashes. */
  function Segments(s: string): (r: seq<string>)
    ensures forall i :: 0 <= i < |r| ==> r[i] != "" && '/' !in r[i]
    decreases |s|
  {
    if s == "" then []
    else if s[0] == '/' then Segments(s[1..])
    else [Head(s)] + Segments(s[|Head(s)|..])
  }

  /** The segment after the first `word` that has one. */
  function SegmentAfter(segments: seq<string>, word: string): (r: string)
    ensures r == "" || r in segments
  {
    if |segments| < 2 then ""
    else if segments[0] == word then segments[1]
    else SegmentAfter(segments[1..], word)
  }

  function PathSegments(resourcePath: Field): seq<string> {
    if resourcePath.Text? then Segments(resourcePath.text) else []
  }

  function RepText(rep: Option<Projection.Claims>, key: string): string {
    if rep.Some? then OrEmpty(Projection.StrOrNone(rep.value, key)) else ""
  }

  /** `_extract_sub`. */
  function ExtractSub(resourcePath: Field, rep: Option<Projection.Claims>): string {
    if RepText(rep, "id") != "" then RepText(rep, "id") else SegmentAfter(PathSegments(resourcePath), "users")
  }

  /** `_extract_group_event_id`: a child event's path names the parent, so it does not count. */
  function ExtractGroupEventId(resourcePath: Field, rep: Option<Projection.Claims>): string {
    if RepText(rep, "id") != "" then RepText(rep, "id")
    else if IsTopLevel(resourcePath) then PathSegments(resourcePath)[1]
    else ""
  }

  predicate IsTopLevel(resourcePath: Field) {
    |PathSegments(resourcePath)| == 2 && PathSegments(resourcePath)[0] == "groups"
  }

  /** `_derive_group_path`: the path given, or the one a top-level group must have. */
  function DeriveGroupPath(given: string, name: string, topLevelCreate: bool): string {
    if Strip(given) != "" then Strip(given)
    else if topLevelCreate && name != "" then "/" + name
    else ""
  }

  /** The event id and operation every parser asks for first. */
  function Header(payload: Payload, resourceType: string, operations: set<string>): Option<(string, string)> {
    if payload.resourceType != Text(resourceType) || !payload.operationType.Text? then None
    else
      var operation := Upper(payload.operationType.text);
      var id := OrElse(payload.id, payload.uid);
      if operation !in operations || !id.Text? || id.text == "" then None else Some((id.text, operation))
  }

  const USER_OPERATIONS := {"CREATE", "UPDATE", "DELETE"}
  const GROUP_OPERATIONS := {"CREATE", "UPDATE"}
  const MEMBERSHIP_OPERATIONS := {"CREATE", "DELETE"}

  function ParseUser(payload: Payload): Option<(string, Entry)> {
    var header := Header(payload, "USER", USER_OPERATIONS);
    var sub := ExtractSub(payload.resourcePath, payload.representation);
    if header.None? || sub == "" then None
    else Some((header.value.0, Entry(UserKind, header.value.1, sub, Or(payload.representation), "", "", "")))
  }

  function Or(rep: Option<Projection.Claims>): Projection.Claims {
    if rep.Some? then rep.value else map[]
  }

  function ParseMembership(payload: Payload): Option<(string, Entry)> {
    var header := Header(payload, "GROUP_MEMBERSHIP", MEMBERSHIP_OPERATIONS);
    var sub := ExtractSub(payload.resourcePath, None);
    var groupId := SegmentAfter(PathSegments(payload.resourcePath), "groups");
    if header.None? || sub == "" || groupId == "" then None
    else Some((header.value.0, Entry(MembershipKind, header.value.1, sub, map[], groupId,
                                     RepText(payload.representation, "path"), RepText(payload.representation, "name"))))
  }

  function ParseGroup(payload: Payload): Option<(string, Entry)> {
    GroupEvent(Header(payload, "GROUP", GROUP_OPERATIONS),
               ExtractGroupEventId(payload.resourcePath, payload.representation), RepText(payload.representation, "path"),
               RepText(payload.representation, "name"), IsTopLevel(payload.resourcePath))
  }

  function GroupEvent(header: Option<(string, string)>, groupId: string, path: string, name: string, topLevel: bool):
    Option<(string, Entry)>
  {
    if header.None? || groupId == "" then None
    else Some((header.value.0, Entry(GroupKind, header.value.1, "", map[], groupId,
                                     DeriveGroupPath(path, name, header.value.1 == "CREATE" && topLevel), name)))
  }

  /** `_event_ledger_entry`. */
  function LedgerEntry(payload: Payload, orgReplication: bool): Option<(string, Entry)> {
    if ParseUser(payload).Some? then ParseUser(payload)
    else if !orgReplication then None
    else if ParseMembership(payload).Some? then ParseMembership(payload)
    else ParseGroup(payload)
  }

  /** What the worker can rely on about a stored event: a group event names its group, the others
      name their user, and a membership event names both. */
  predicate HasKeys(e: Entry) {
    match e.kind
    case UserKind => e.sub != "" && e.operation in {"CREATE", "UPDATE", "DELETE"}
    case MembershipKind => e.sub != "" && e.groupId != "" && e.operation in {"CREATE", "DELETE"}
    case GroupKind => e.groupId != "" && e.operation in {"CREATE", "UPDATE"}
  }

  /** Whatever the payload: a stored event has the id of the payload, the kind of its resource type, its
      operation in upper case, and the keys of its kind; group events are stored only when organizations
      are replicated. */
  lemma StoredEventsHaveKeys(payload: Payload, orgReplication: bool)
    ensures var entry := LedgerEntry(payload, orgReplication);
            entry.Some? ==>
              && entry.value.0 != "" && HasKeys(entry.value.1) && HasEventId(payload, entry.value.0)
              && payload.resourceType == Text(TypeName(entry.value.1.kind)) && HasOperation(payload, entry.value.1.operation)
              && (orgReplication || entry.value.1.kind == UserKind)
  {
    UserKeys(payload);
    MembershipKeys(payload);
    GroupKeys(payload);
  }

  function TypeName(kind: Kind): string {
    match kind
    case UserKind => "USER"
    case MembershipKind => "GROUP_MEMBERSHIP"
    case GroupKind => "GROUP"
  }

  /** The payload's `id`, or its `uid` where there is no `id`. */
  predicate HasEventId(payload: Payload, id: string) {
    id != "" && (payload.id == Text(id) || (payload.id in {Falsy, Text("")} && payload.uid == Text(id)))
  }

  /** The payload's operation with its letters in upper case. */
  ghost predicate HasOperation(payload: Payload, operation: string) {
    && payload.operationType.Text? && |payload.operationType.text| == |operation|
    && forall i :: 0 <= i < |operation| ==>
         var c := payload.operationType.text[i] as int;
         operation[i] as int == if 'a' as int <= c <= 'z' as int then c - 32 else c
  }

  lemma HeaderIs(payload: Payload, resourceType: string, operations: set<string>)
    ensures var h := Header(payload, resourceType, operations);
            h.Some? ==> payload.resourceType == Text(resourceType) && HasEventId(payload, h.value.0)
                        && HasOperation(payload, h.value.1) && h.value.1 in operations
  {
  }

  lemma HeaderFound(payload: Payload, resourceType: string, operations: set<string>, id: string, operation: string)
    requires payload.resourceType == Text(resourceType) && HasEventId(payload, id) && HasOperation(payload, operation)
    ensures Header(payload, resourceType, operations) == if operation in operations then Some((id, operation)) else None
  {
    assert Upper(payload.operationType.text) == operation;
  }

  lemma UserKeys(payload: Payload)
    ensures var entry := ParseUser(payload);
            entry.Some? ==>
              && HasKeys(entry.value.1) && HasEventId(payload, entry.value.0) && entry.value.1.kind == UserKind
              && payload.resourceType == Text("USER") && HasOperation(payload, entry.value.1.operation)
  {
    HeaderIs(payload, "USER", USER_OPERATIONS);
  }

  lemma MembershipKeys(payload: Payload)
    ensures var entry := ParseMembership(payload);
            entry.Some? ==>
              && HasKeys(entry.value.1) && HasEventId(payload, entry.value.0) && entry.value.1.kind == MembershipKind
              && payload.resourceType == Text("GROUP_MEMBERSHIP") && HasOperation(payload, entry.value.1.operation)
  {
    HeaderIs(payload, "GROUP_MEMBERSHIP", MEMBERSHIP_OPERATIONS);
  }

  lemma GroupKeys(payload: Payload)
    ensures var entry := ParseGroup(payload);
            entry.Some? ==>
              && HasKeys(entry.value.1) && HasEventId(payload, entry.value.0) && entry.value.1.kind == GroupKind
              && payload.resourceType == Text("GROUP") && HasOperation(payload, entry.value.1.operation)
  {
    HeaderIs(payload, "GROUP", GROUP_OPERATIONS);
  }

  /** The parsers exclude each other: the order in which they are tried does not matter. */
  lemma ParsersExclusive(payload: Payload)
    ensures ParseUser(payload).Some? ==> ParseMembership(payload).None? && ParseGroup(payload).None?
    ensures ParseMembership(payload).Some? ==> ParseGroup(payload).None?
  {
    OtherTypes(payload);
  }

  /** A resource path of two parts has exactly these two segments, however many slashes come before,
      between and after. */
  lemma {:induction false} TwoSegments(before: string, word: string, between: string, part: string, after: string)
    requires word != "" && '/' !in word && part != "" && '/' !in part && between != ""
    requires forall c :: c in before + between + after ==> c == '/'
    ensures Segments(before + (word + (between + (part + after)))) == [word, part]
  {
    assert forall i :: 0 <= i < |before| ==> before[i] in before + between + after;
    assert forall i :: 0 <= i < |between| ==> between[i] in before + between + after;
    assert forall i :: 0 <= i < |after| ==> after[i] in before + between + after;
    SlashesAddNothing(before, word + (between + (part + after)));
    FirstSegment(word, between + (part + after));
    SlashesAddNothing(between, part + after);
    FirstSegment(part, after);
    SlashesAddNothing(after, "");
    assert after + "" == after;
  }

  lemma {:induction false} FirstSegment(word: string, rest: string)
    requires word != "" && '/' !in word && (rest == "" || rest[0] == '/')
    ensures Segments(word + rest) == [word] + Segments(rest)
  {
    if rest == "" {
      assert word + rest == word;
      HeadAll(word);
    } else {
      HeadOf(word, rest);
    }
    assert (word + rest)[0] == word[0];
    assert (word + rest)[|word|..] == rest;
  }

  lemma {:induction false} SlashesAddNothing(slashes: string, s: string)
    requires forall i :: 0 <= i < |slashes| ==> slashes[i] == '/'
    ensures Segments(slashes + s) == Segments(s)
  {
    if slashes == "" {
      assert slashes + s == s;
    } else {
      assert (slashes + s)[1..] == slashes[1..] + s;
      SlashesAddNothing(slashes[1..], s);
    }
  }

  lemma {:induction false} HeadOf(word: string, rest: string)
    requires '/' !in word && rest != "" && rest[0] == '/'
    ensures Head(word + rest) == word
  {
    if word == "" {
      assert word + rest == rest;
    } else {
      assert (word + rest)[1..] == word[1..] + rest;
      HeadOf(word[1..], rest);
    }
  }

  lemma {:induction false} HeadAll(part: string)
    requires '/' !in part
    ensures Head(part) == part
  {
    if part != "" {
      HeadAll(part[1..]);
    }
  }

  // -------------------------------------------------------- the stored rows

  /** The string under a key of the representation, or nothing. */
  predicate HasText(rep: Option<Projection.Claims>, key: string, text: string) {
    text == if rep.Some? && key in rep.value && rep.value[key].Str? then rep.value[key].text else ""
  }

  ghost predicate Word(s: string) {
    s != "" && '/' !in s
  }

  /** Slashes that end a word. */
  ghost predicate Gap(s: string) {
    s != "" && forall i :: 0 <= i < |s| ==> s[i] == '/'
  }

  lemma {:induction false} WordThenGap(word: string, gap: string, rest: string)
    requires Word(word) && Gap(gap)
    ensures Segments(word + (gap + rest)) == [word] + Segments(rest)
  {
    FirstSegment(word, gap + rest);
    SlashesAddNothing(gap, rest);
  }

  /** `users/u`, and whatever follows. */
  lemma {:induction false} UserInPath(before: string, gap: string, u: string, rest: string)
    requires (before == "" || Gap(before)) && Gap(gap) && Word(u) && (rest == "" || rest[0] == '/')
    ensures SegmentAfter(Segments(before + ("users" + (gap + (u + rest)))), "users") == u
  {
    SlashesAddNothing(before, "users" + (gap + (u + rest)));
    WordThenGap("users", gap, u + rest);
    FirstSegment(u, rest);
  }

  /** `users/u/groups/g`. */
  lemma {:induction false} FourSegments(before: string, gap1: string, u: string, gap2: string, gap3: string, g: string,
                                        after: string)
    requires (before == "" || Gap(before)) && Gap(gap1) && Gap(gap2) && Gap(gap3) && (after == "" || Gap(after))
    requires Word(u) && Word(g)
    ensures Segments(before + ("users" + (gap1 + (u + (gap2 + ("groups" + (gap3 + (g + after))))))))
            == ["users", u, "groups", g]
  {
    SlashesAddNothing(before, "users" + (gap1 + (u + (gap2 + ("groups" + (gap3 + (g + after)))))));
    WordThenGap("users", gap1, u + (gap2 + ("groups" + (gap3 + (g + after)))));
    WordThenGap(u, gap2, "groups" + (gap3 + (g + after)));
    WordThenGap("groups", gap3, g + after);
    FirstSegment(g, after);
    SlashesAddNothing(after, "");
    assert after + "" == after;
  }

  lemma {:induction false} AfterGroups(u: string, g: string)
    ensures SegmentAfter(["users", u, "groups", g], "users") == u
    ensures SegmentAfter(["users", u, "groups", g], "groups") == if u == "groups" then "groups" else g
  {
    assert "users" != "groups" by { assert |"users"| != |"groups"|; }
    assert ["users", u, "groups", g][1..] == [u, "groups", g];
    assert [u, "groups", g][1..] == ["groups", g];
    assert SegmentAfter(["groups", g], "groups") == g;
    assert SegmentAfter([u, "groups", g], "groups") == if u == "groups" then "groups" else g;
  }

  /** The row of a membership event. Only for a user whose id is the word `groups` itself is the group
      id misread. */
  lemma MembershipStored(payload: Payload, id: string, operation: string, before: string, gap1: string, u: string,
                         gap2: string, gap3: string, g: string, after: string, path: string, name: string)
    requires payload.resourceType == Text("GROUP_MEMBERSHIP") && HasEventId(payload, id) && HasOperation(payload, operation)
    requires (before == "" || Gap(before)) && Gap(gap1) && Gap(gap2) && Gap(gap3) && (after == "" || Gap(after))
    requires Word(u) && Word(g)
    requires payload.resourcePath == Text(before + ("users" + (gap1 + (u + (gap2 + ("groups" + (gap3 + (g + after))))))))
    requires HasText(payload.representation, "path", path) && HasText(payload.representation, "name", name)
    ensures LedgerEntry(payload, false) == None
    ensures LedgerEntry(payload, true)
            == if operation in {"CREATE", "DELETE"} then
                 Some((id, Entry(MembershipKind, operation, u, map[], if u == "groups" then "groups" else g, path, name)))
               else None
  {
    FourSegments(before, gap1, u, gap2, gap3, g, after);
    AfterGroups(u, g);
    HeaderFound(payload, "GROUP_MEMBERSHIP", MEMBERSHIP_OPERATIONS, id, operation);
    OtherTypes(payload);
  }

  /** A parser leaves the other resource types alone. */
  lemma OtherTypes(payload: Payload)
    ensures payload.resourceType != Text("USER") ==> ParseUser(payload) == None
    ensures payload.resourceType != Text("GROUP_MEMBERSHIP") ==> ParseMembership(payload) == None
    ensures payload.resourceType != Text("GROUP") ==> ParseGroup(payload) == None
    ensures "USER" != "GROUP" && "USER" != "GROUP_MEMBERSHIP" && "GROUP" != "GROUP_MEMBERSHIP"
  {
    assert "USER" != "GROUP" by { assert |"USER"| != |"GROUP"|; }
    assert "USER" != "GROUP_MEMBERSHIP" by { assert |"USER"| != |"GROUP_MEMBERSHIP"|; }
    assert "GROUP" != "GROUP_MEMBERSHIP" by { assert |"GROUP"| != |"GROUP_MEMBERSHIP"|; }
  }

  /** The row of a user event: the user is the representation's, or else the path's. */
  lemma UserStored(payload: Payload, orgReplication: bool, id: string, operation: string, repId: string,
                   before: string, gap: string, u: string, rest: string)
    requires payload.resourceType == Text("USER") && HasEventId(payload, id) && HasOperation(payload, operation)
    requires HasText(payload.representation, "id", repId)
    requires repId == "" ==>
               && (before == "" || Gap(before)) && Gap(gap) && Word(u) && (rest == "" || rest[0] == '/')
               && payload.resourcePath == Text(before + ("users" + (gap + (u + rest))))
    ensures LedgerEntry(payload, orgReplication)
            == if operation in {"CREATE", "UPDATE", "DELETE"} then
                 Some((id, Entry(UserKind, operation, if repId == "" then u else repId,
                                 if payload.representation.Some? then payload.representation.value else map[], "", "", "")))
               else None
  {
    if repId == "" {
      UserInPath(before, gap, u, rest);
    }
    HeaderFound(payload, "USER", USER_OPERATIONS, id, operation);
    OtherTypes(payload);
  }

  /** What a group event's resource path says: a top-level group, or anything else. */
  ghost predicate TopLevelPath(resourcePath: Field, before: string, gap: string, g: string, after: string) {
    && (before == "" || Gap(before)) && Gap(gap) && Word(g) && (after == "" || Gap(after))
    && resourcePath == Text(before + ("groups" + (gap + (g + after))))
  }

  /** The row of the event of a top-level group: the id is the representation's or else the path's; on
      creation a path that is missing is made from the name. */
  lemma TopLevelStored(payload: Payload, id: string, operation: string, before: string, gap: string, g: string,
                       after: string, repId: string, path: string, name: string)
    requires payload.resourceType == Text("GROUP") && HasEventId(payload, id) && HasOperation(payload, operation)
    requires TopLevelPath(payload.resourcePath, before, gap, g, after) && HasText(payload.representation, "id", repId)
    requires HasText(payload.representation, "path", path) && HasText(payload.representation, "name", name)
    ensures LedgerEntry(payload, false) == None
    ensures LedgerEntry(payload, true)
            == if operation in {"CREATE", "UPDATE"} then
                 Some((id, Entry(GroupKind, operation, "", map[], if repId == "" then g else repId,
                                 if !Blank(path) then Strip(path)
                                 else if operation == "CREATE" && name != "" then "/" + name else "", name)))
               else None
  {
    TopSegments(before, gap, g, after);
    GroupFields(payload, repId, path, name);
    HeaderFound(payload, "GROUP", GROUP_OPERATIONS, id, operation);
    GroupRowIs(id, operation, if repId == "" then g else repId, path, name, true);
    OnlyGroup(payload);
  }

  /** The row of a group event with a group id. */
  lemma GroupRowIs(id: string, operation: string, groupId: string, path: string, name: string, top: bool)
    ensures groupId != "" ==>
              GroupEvent(Some((id, operation)), groupId, path, name, top)
              == Some((id, Entry(GroupKind, operation, "", map[], groupId,
                                 if !Blank(path) then Strip(path)
                                 else if operation == "CREATE" && top && name != "" then "/" + name else "", name)))
    ensures groupId == "" ==> GroupEvent(Some((id, operation)), groupId, path, name, top) == None
    ensures GroupEvent(None, groupId, path, name, top) == None
  {
    StripBlank(path);
  }

  lemma OnlyGroup(payload: Payload)
    requires payload.resourceType == Text("GROUP")
    ensures LedgerEntry(payload, true) == ParseGroup(payload) && LedgerEntry(payload, false) == None
  {
    OtherTypes(payload);
  }

  lemma GroupFields(payload: Payload, repId: string, path: string, name: string)
    requires HasText(payload.representation, "id", repId)
    requires HasText(payload.representation, "path", path) && HasText(payload.representation, "name", name)
    ensures var segments := PathSegments(payload.resourcePath);
            var top := |segments| == 2 && segments[0] == "groups";
            ParseGroup(payload) == GroupEvent(Header(payload, "GROUP", GROUP_OPERATIONS),
                                              if repId != "" then repId else if top then segments[1] else "", path, name, top)
  {
    TextIs(payload.representation, "id", repId);
    TextIs(payload.representation, "path", path);
    TextIs(payload.representation, "name", name);
    EventIdIs(payload.resourcePath, payload.representation, repId);
  }

  lemma TextIs(rep: Option<Projection.Claims>, key: string, text: string)
    requires HasText(rep, key, text)
    ensures RepText(rep, key) == text
  {
  }

  lemma EventIdIs(resourcePath: Field, rep: Option<Projection.Claims>, repId: string)
    requires RepText(rep, "id") == repId
    ensures var segments := PathSegments(resourcePath);
            ExtractGroupEventId(resourcePath, rep)
            == if repId != "" then repId else if |segments| == 2 && segments[0] == "groups" then segments[1] else ""
  {
  }

  lemma {:induction false} TopSegments(before: string, gap: string, g: string, after: string)
    requires (before == "" || Gap(before)) && Gap(gap) && Word(g) && (after == "" || Gap(after))
    ensures Segments(before + ("groups" + (gap + (g + after)))) == ["groups", g]
  {
    SlashesAddNothing(before, "groups" + (gap + (g + after)));
    WordThenGap("groups", gap, g + after);
    FirstSegment(g, after);
    SlashesAddNothing(after, "");
    assert after + "" == after;
  }

  /** The row of the event of a subgroup, `groups/g/children`: the path names the parent, so the id must
      be the representation's, and a missing path stays missing. */
  lemma ChildStored(payload: Payload, id: string, operation: string, before: string, gap1: string, g: string,
                    gap2: string, after: string, repId: string, path: string, name: string)
    requires payload.resourceType == Text("GROUP") && HasEventId(payload, id) && HasOperation(payload, operation)
    requires (before == "" || Gap(before)) && Gap(gap1) && Gap(gap2) && Word(g) && (after == "" || Gap(after))
    requires payload.resourcePath == Text(before + ("groups" + (gap1 + (g + (gap2 + ("children" + after))))))
    requires HasText(payload.representation, "id", repId)
    requires HasText(payload.representation, "path", path) && HasText(payload.representation, "name", name)
    ensures LedgerEntry(payload, true)
            == if operation in {"CREATE", "UPDATE"} && repId != "" then
                 Some((id, Entry(GroupKind, operation, "", map[], repId, if !Blank(path) then Strip(path) else "", name)))
               else None
  {
    ChildSegments(before, gap1, g, gap2, after);
    GroupFields(payload, repId, path, name);
    HeaderFound(payload, "GROUP", GROUP_OPERATIONS, id, operation);
    GroupRowIs(id, operation, repId, path, name, false);
    OnlyGroup(payload);
  }

  lemma {:induction false} ChildSegments(before: string, gap1: string, g: string, gap2: string, after: string)
    requires (before == "" || Gap(before)) && Gap(gap1) && Gap(gap2) && Word(g) && (after == "" || Gap(after))
    ensures Segments(before + ("groups" + (gap1 + (g + (gap2 + ("children" + after)))))) == ["groups", g, "children"]
  {
    SlashesAddNothing(before, "groups" + (gap1 + (g + (gap2 + ("children" + after)))));
    WordThenGap("groups", gap1, g + (gap2 + ("children" + after)));
    WordThenGap(g, gap2, "children" + after);
    FirstSegment("children", after);
    SlashesAddNothing(after, "");
    assert after + "" == after;
  }

  // ------------------------------------------------ group events meet logins

  /** `payload.get(...) or None`. */
  function NoneIfEmpty(s: string): Option<string> {
    if s == "" then None else Some(s)
  }

  /** The group reference the worker builds from a stored event. */
  function RefOf(e: Entry): GroupRef {
    GroupRef(NoneIfEmpty(e.groupId), NoneIfEmpty(e.groupPath), NoneIfEmpty(e.groupName))
  }

  /** Once a group event with a path has been applied, a login with that path reaches the same
      organization. */
  lemma GroupEventThenLogin(slugify: string -> string, orgs: Orgs, e: Entry, login: GroupRef)
    requires KeysUnique(orgs) && SyncedFrom(slugify, orgs, RefOf(e)).Synced?
    requires login.groupId == None && NormalizePath(login.path) == NormalizePath(RefOf(e).path) != ""
    ensures var s := SyncedFrom(slugify, orgs, RefOf(e));
            Resolved(slugify, s.orgs, login) == (s.orgs, Some(s.org))
  {
    var ref := RefOf(e);
    var (orgs', r) := Resolved(slugify, orgs, ref);
    ResolvedGrows(slugify, orgs, ref);
    RefreshedOwnsPath(orgs', r.value, ref.name, NormalizePath(ref.path));
  }

  lemma {:induction false} RefreshedOwnsPath(orgs: Orgs, i: nat, name: Option<string>, path: string)
    requires KeysUnique(orgs) && i < |orgs| && path != "" && Refresh(orgs, i, name, path).Synced?
    ensures var s := Refresh(orgs, i, name, path); s.org == i && FirstPath(s.orgs, path) == Some(i)
  {
    RefreshKeepsUnique(orgs, i, name, path);
    var s := Refresh(orgs, i, name, path);
    assert s.orgs[i].path == path;
    var first := FirstPath(s.orgs, path).value;
    assert first < i ==> Apart(s.orgs[first], s.orgs[i]);
  }

  /** The create event of a top-level group carries no path, yet the stored event has the path the
      tokens of its members carry. */
  lemma TopLevelPathDerived(payload: Payload, groupId: string)
    requires payload.resourceType == Text("GROUP") && payload.operationType.Text? && Upper(payload.operationType.text) == "CREATE"
    requires OrElse(payload.id, payload.uid).Text? && OrElse(payload.id, payload.uid).text != ""
    requires payload.resourcePath.Text? && Segments(payload.resourcePath.text) == ["groups", groupId]
    requires Strip(RepText(payload.representation, "path")) == "" && RepText(payload.representation, "name") != ""
    ensures ParseGroup(payload).Some?
    ensures ParseGroup(payload).value.1.groupPath == "/" + RepText(payload.representation, "name")
  {
    CreateHeader(payload);
    GroupIdFound(payload.resourcePath, payload.representation);
    CreatedGroup(OrElse(payload.id, payload.uid).text, ExtractGroupEventId(payload.resourcePath, payload.representation),
                 RepText(payload.representation, "path"), RepText(payload.representation, "name"));
  }

  lemma CreateHeader(payload: Payload)
    requires payload.resourceType == Text("GROUP") && payload.operationType.Text? && Upper(payload.operationType.text) == "CREATE"
    requires OrElse(payload.id, payload.uid).Text? && OrElse(payload.id, payload.uid).text != ""
    ensures Header(payload, "GROUP", GROUP_OPERATIONS) == Some((OrElse(payload.id, payload.uid).text, "CREATE"))
  {
  }

  lemma CreatedGroup(eventId: string, groupId: string, path: string, name: string)
    requires groupId != "" && Strip(path) == "" && name != ""
    ensures var event := GroupEvent(Some((eventId, "CREATE")), groupId, path, name, true);
            event.Some? && event.value.1.groupPath == "/" + name
  {
  }

  lemma GroupIdFound(resourcePath: Field, rep: Option<Projection.Claims>)
    requires IsTopLevel(resourcePath)
    ensures ExtractGroupEventId(resourcePath, rep) != ""
  {
    assert PathSegments(resourcePath)[1] != "";
  }
}
