/** Keycloak group references and what is derived from one: the normalised path, the slug
    candidates and the display name (the pure part of `apps/identity/org_replication.py`). */
module GroupRefs {
  import opened Basics

  datatype GroupRef = GroupRef(groupId: Option<string>, path: Option<string>, name: Option<string>)

  const MAX_SLUG_BASE := 110
  const MAX_SLUG_ATTEMPTS := 50

  function NormalizePath(path: Option<string>): string {
    if !Truthy(path) then "" else WithoutSlash(Strip(path.value))
  }

  function WithoutSlash(stripped: string): string {
    if |stripped| > 1 then RStripChar(stripped, '/') else stripped
  }

  function LStripChar(s: string, c: char): string {
    if s != "" && s[0] == c then LStripChar(s[1..], c) else s
  }

  function Replace(s: string, from: char, to: char): (r: string)
    ensures |r| == |s| && forall i :: 0 <= i < |s| ==> r[i] == if s[i] == from then to else s[i]
  {
    seq(|s|, i requires 0 <= i < |s| => if s[i] == from then to else s[i])
  }

  /** The text after the last slash. */
  function Leaf(s: string): (r: string)
    ensures |r| <= |s| && r == s[|s| - |r|..] && forall i :: 0 <= i < |r| ==> r[i] != '/'
  {
    if s == "" || s[|s| - 1] == '/' then ""
    else
      var front := Leaf(s[..|s| - 1]);
      front + [s[|s| - 1]]
  }

  /** `_slug_base`, for a given `slugify`. */
  function SlugBase(slugify: string -> string, ref: GroupRef): (r: string)
    ensures 0 < |r| <= MAX_SLUG_BASE
  {
    var raw := if Truthy(ref.path) then Replace(RStripChar(LStripChar(ref.path.value, '/'), '/'), '/', '-')
               else OrEmpty(ref.name);
    var slug := if slugify(raw) != "" then slugify(raw) else "org";
    if |slug| > MAX_SLUG_BASE then slug[..MAX_SLUG_BASE] else slug
  }

  /** The slug tried at one attempt: base, base-2, base-3, ... */
  function Slug(base: string, attempt: nat): string {
    if attempt == 0 then base else base + "-" + NatText(attempt + 1)
  }

  /** `_org_name`. */
  function OrgName(ref: GroupRef): string {
    if Truthy(ref.name) then ref.name.value
    else if Truthy(ref.path) && Leaf(RStripChar(ref.path.value, '/')) != "" then Leaf(RStripChar(ref.path.value, '/'))
    else if Truthy(ref.groupId) then ref.groupId.value
    else "Organization"
  }

  /** The token's groups claim: absent, of another type, or a list whose non-string items are None. */
  datatype Claim = Absent | NotAList | Items(items: seq<Option<string>>)

  /** `parse_groups_from_claims`: None means "do not reconcile", [] means "no groups". */
  function ParseGroups(claim: Claim): Option<seq<GroupRef>> {
    if !claim.Items? then None else Some(PathRefs(claim.items))
  }

  /** Login references carry a path and no id; the path can still normalise to nothing. */
  ghost predicate PathOnly(ref: GroupRef) {
    ref.groupId == None && Truthy(ref.path) && Truthy(ref.name)
  }

  function PathRef(path: string): (ref: GroupRef)
    requires path != ""
    ensures PathOnly(ref) && ref.path == Some(path)
  {
    var leaf := Leaf(RStripChar(path, '/'));
    GroupRef(None, Some(path), Some(if leaf == "" then path else leaf))
  }

  function PathRefs(items: seq<Option<string>>): (refs: seq<GroupRef>)
    ensures forall i :: 0 <= i < |refs| ==> PathOnly(refs[i])
  {
    if items == [] then []
    else if items[0].None? || Strip(items[0].value) == "" then PathRefs(items[1..])
    else [PathRef(Strip(items[0].value))] + PathRefs(items[1..])
  }

  // ------------------------------------------- what a reference is made from

  ghost predicate Slashes(s: string) {
    forall i :: 0 <= i < |s| ==> s[i] == '/'
  }

  /** The part of a path between its last two slashes, trailing ones not counted. */
  ghost predicate IsLeaf(path: string, leaf: string) {
    '/' !in leaf && exists j :: |leaf| <= j <= |path| && LeafEnds(path, leaf, j)
  }

  ghost predicate LeafEnds(path: string, leaf: string, j: nat)
    requires |leaf| <= j <= |path|
  {
    && path[j - |leaf|..j] == leaf && Slashes(path[j..])
    && (j == |leaf| || (leaf != "" && path[j - |leaf| - 1] == '/'))
  }

  lemma {:induction false} LeafIs(path: string)
    ensures IsLeaf(path, Leaf(RStripChar(path, '/')))
  {
    var trimmed := RStripChar(path, '/');
    RStripCharDrops(path, '/');
    LeafDrops(trimmed);
    LeafAt(path, trimmed, Leaf(trimmed));
  }

  /** The leaf of a path without its trailing slashes is the path's. */
  lemma LeafAt(path: string, trimmed: string, leaf: string)
    requires |trimmed| <= |path| && path[..|trimmed|] == trimmed && Slashes(path[|trimmed|..])
    requires |leaf| <= |trimmed| && trimmed[|trimmed| - |leaf|..] == leaf && '/' !in leaf
    requires |leaf| < |trimmed| ==> leaf != "" && trimmed[|trimmed| - |leaf| - 1] == '/'
    ensures IsLeaf(path, leaf)
  {
    assert path[|trimmed| - |leaf|..|trimmed|] == trimmed[|trimmed| - |leaf|..];
    assert LeafEnds(path, leaf, |trimmed|);
  }

  lemma {:induction false} LeafDrops(s: string)
    ensures |Leaf(s)| < |s| ==> s[|s| - |Leaf(s)| - 1] == '/'
    ensures s != "" && s[|s| - 1] != '/' ==> Leaf(s) != ""
  {
    if s != "" && s[|s| - 1] != '/' {
      LeafDrops(s[..|s| - 1]);
    }
  }

  /** A string item of the claim that is not blank. */
  ghost predicate IsGroup(item: Option<string>) {
    item.Some? && !Blank(item.value)
  }

  /** `at` lists the places, from `i` on, of the items that are not blank strings, in order. */
  ghost predicate GroupPlaces(items: seq<Option<string>>, i: nat, at: seq<nat>) {
    && (forall k :: 0 <= k < |at| ==> i <= at[k] < |items| && IsGroup(items[at[k]]))
    && (forall k, l :: 0 <= k < l < |at| ==> at[k] < at[l])
    && (forall j: nat :: i <= j < |items| && IsGroup(items[j]) ==> j in at)
  }

  /** The reference of one item: no id, the path without surrounding white space, and as name the
      path's last part, or the whole path where that is empty. */
  ghost predicate RefOfItem(item: Option<string>, ref: GroupRef) {
    && item.Some? && ref.groupId == None && ref.path == Some(Strip(item.value)) && ref.name.Some?
    && exists leaf :: IsLeaf(Strip(item.value), leaf) && ref.name.value == if leaf == "" then Strip(item.value) else leaf
  }

  /** A token gives one reference for each string that is not blank, in the order of the items. */
  lemma RefsOfItems(items: seq<Option<string>>) returns (at: seq<nat>)
    ensures GroupPlaces(items, 0, at) && |PathRefs(items)| == |at|
    ensures forall k :: 0 <= k < |at| ==> RefOfItem(items[at[k]], PathRefs(items)[k])
  {
    at := RefsFrom(items, 0);
    assert items[0..] == items;
    forall k | 0 <= k < |at| ensures RefOfItem(items[at[k]], PathRefs(items)[k]) {
      GroupRefIs(items[at[k]]);
    }
  }

  predicate Gives(item: Option<string>, ref: GroupRef) {
    item.Some? && Strip(item.value) != "" && ref == PathRef(Strip(item.value))
  }

  lemma {:induction false} RefsFrom(items: seq<Option<string>>, i: nat) returns (at: seq<nat>)
    requires i <= |items|
    ensures GroupPlaces(items, i, at) && |PathRefs(items[i..])| == |at|
    ensures forall k :: 0 <= k < |at| ==> Gives(items[at[k]], PathRefs(items[i..])[k])
    decreases |items| - i
  {
    if i == |items| {
      at := [];
    } else {
      var rest := RefsFrom(items, i + 1);
      assert items[i..][0] == items[i] && items[i..][1..] == items[i + 1..];
      OneMorePlace(items, i, rest);
      if IsGroup(items[i]) {
        at := [i] + rest;
        var ref := GroupFirst(items[i..]);
        OneMoreRef(items, i, rest, ref, PathRefs(items[i + 1..]));
      } else {
        at := rest;
        BlankFirst(items[i..]);
      }
    }
  }

  lemma OneMoreRef(items: seq<Option<string>>, i: nat, rest: seq<nat>, ref: GroupRef, refs: seq<GroupRef>)
    requires i < |items| && |refs| == |rest| && Gives(items[i], ref)
    requires forall k :: 0 <= k < |rest| ==> rest[k] < |items| && Gives(items[rest[k]], refs[k])
    ensures var at, all := [i] + rest, [ref] + refs;
            forall k :: 0 <= k < |at| ==> at[k] < |items| && Gives(items[at[k]], all[k])
  {
    var gives := (j: nat, r: GroupRef) => j < |items| && Gives(items[j], r);
    PairedNext(i, rest, ref, refs, gives);
    var at, all := [i] + rest, [ref] + refs;
    assert forall k :: 0 <= k < |at| ==> gives(at[k], all[k]);
  }

  lemma OneMorePlace(items: seq<Option<string>>, i: nat, rest: seq<nat>)
    requires i < |items| && GroupPlaces(items, i + 1, rest)
    ensures GroupPlaces(items, i, if IsGroup(items[i]) then [i] + rest else rest)
  {
    var at := [i] + rest;
    assert forall j :: j in at <==> j == i || j in rest;
  }

  lemma {:induction false} BlankFirst(items: seq<Option<string>>)
    requires items != [] && !IsGroup(items[0])
    ensures PathRefs(items) == PathRefs(items[1..])
  {
    if items[0].Some? {
      StripBlank(items[0].value);
    }
  }

  lemma {:induction false} GroupFirst(items: seq<Option<string>>) returns (ref: GroupRef)
    requires items != [] && IsGroup(items[0])
    ensures Gives(items[0], ref) && PathRefs(items) == [ref] + PathRefs(items[1..])
  {
    StripBlank(items[0].value);
    ref := PathRef(Strip(items[0].value));
  }

  lemma GroupRefIs(item: Option<string>)
    requires IsGroup(item)
    ensures Strip(item.value) != "" && RefOfItem(item, PathRef(Strip(item.value)))
  {
    StripBlank(item.value);
    LeafIs(Strip(item.value));
  }

  lemma NormalOf(path: string)
    ensures NormalizePath(Some(path)) == WithoutSlash(Strip(path))
  {
    StripBlank(path);
  }

  /** A path loses surrounding white space and then, unless one character is left, its trailing slashes. */
  lemma NormalizedIs(path: string)
    ensures var (t, r) := (Strip(path), NormalizePath(Some(path)));
            && |r| <= |t| && r == t[..|r|] && Slashes(t[|r|..])
            && (if |t| <= 1 then r == t else r == "" || r[|r| - 1] != '/')
  {
    NormalOf(path);
    WithoutSlashIs(Strip(path));
  }

  lemma {:induction false} WithoutSlashIs(t: string)
    ensures var r := WithoutSlash(t);
            && |r| <= |t| && r == t[..|r|] && Slashes(t[|r|..])
            && (if |t| <= 1 then r == t else r == "" || r[|r| - 1] != '/')
  {
    RStripCharDrops(t, '/');
  }

  lemma {:induction false} RStripCharIs(s: string, slashes: string)
    requires (s == "" || s[|s| - 1] != '/') && Slashes(slashes)
    ensures RStripChar(s + slashes, '/') == s
  {
    if slashes == "" {
      assert s + slashes == s;
    } else {
      assert (s + slashes)[..|s + slashes| - 1] == s + slashes[..|slashes| - 1];
      RStripCharIs(s, slashes[..|slashes| - 1]);
    }
  }

  lemma {:induction false} LStripCharIs(slashes: string, s: string)
    requires (s == "" || s[0] != '/') && Slashes(slashes)
    ensures LStripChar(slashes + s, '/') == s
  {
    if slashes == "" {
      assert slashes + s == s;
    } else {
      assert (slashes + s)[1..] == slashes[1..] + s;
      LStripCharIs(slashes[1..], s);
    }
  }

  /** `dashed` is `core` with dashes for its slashes. */
  ghost predicate Dashed(core: string, dashed: string) {
    |dashed| == |core| && forall i :: 0 <= i < |core| ==> dashed[i] == if core[i] == '/' then '-' else core[i]
  }

  /** The slug base of a path is made from the path without its outer slashes, the inner ones as
      dashes; that of a reference without a path from the name. It is cut at 110 characters. */
  lemma SlugBaseIs(slugify: string -> string, ref: GroupRef, before: string, core: string, after: string, raw: string)
    requires core == "" || (core[0] != '/' && core[|core| - 1] != '/')
    requires Slashes(before) && Slashes(after)
    requires if Truthy(ref.path) then ref.path.value == before + (core + after) && Dashed(core, raw) else raw == OrEmpty(ref.name)
    ensures var slug := if slugify(raw) == "" then "org" else slugify(raw);
            SlugBase(slugify, ref) == if |slug| <= 110 then slug else slug[..110]
  {
    if Truthy(ref.path) {
      if core == "" {
        assert before + (core + after) == (before + after) + "";
        LStripCharIs(before + after, "");
      } else {
        LStripCharIs(before, core + after);
        RStripCharIs(core, after);
      }
      assert Replace(core, '/', '-') == raw;
    }
  }

  /** The name of a new organization. */
  ghost predicate IsNameOf(ref: GroupRef, name: string) {
    if Truthy(ref.name) then Some(name) == ref.name
    else if Truthy(ref.path) && !Slashes(ref.path.value) then name != "" && IsLeaf(ref.path.value, name)
    else if Truthy(ref.groupId) then Some(name) == ref.groupId
    else name == "Organization"
  }

  lemma OrgNameIs(ref: GroupRef)
    ensures IsNameOf(ref, OrgName(ref))
  {
    if Truthy(ref.path) {
      LeafIs(ref.path.value);
      var leaf := Leaf(RStripChar(ref.path.value, '/'));
      if leaf == "" {
        var j :| 0 <= j <= |ref.path.value| && LeafEnds(ref.path.value, leaf, j);
        assert ref.path.value[j..] == ref.path.value;
      } else if Slashes(ref.path.value) {
        OnlySlashes(ref.path.value);
      }
    }
  }

  /** The candidates are the base, then the base with -2, -3 and so on. */
  lemma SlugIs(base: string, attempt: nat) returns (digits: string)
    ensures attempt == 0 ==> Slug(base, attempt) == base
    ensures attempt > 0 ==>
              && Slug(base, attempt) == base + "-" + digits && digits != "" && digits[0] != '0'
              && (forall i :: 0 <= i < |digits| ==> '0' <= digits[i] <= '9') && DigitsValue(digits) == attempt + 1
  {
    digits := NatText(attempt + 1);
    DigitsOfNatText(attempt + 1);
  }

  lemma {:induction false} OnlySlashes(s: string)
    requires forall i :: 0 <= i < |s| ==> s[i] == '/'
    ensures RStripChar(s, '/') == ""
  {
    if s != "" {
      OnlySlashes(s[..|s| - 1]);
    }
  }

  /** A path of two or more slashes normalises to nothing, so its reference has no key. */
  lemma SlashesNormaliseToNothing(s: string)
    requires |s| > 1 && forall i :: 0 <= i < |s| ==> s[i] == '/'
    ensures NormalizePath(Some(s)) == ""
  {
    assert LStrip(s) == s && RStrip(s) == s;
    OnlySlashes(s);
  }

  /** One trailing slash is removed ... */
  lemma SlashRemoved(t: string)
    requires t != "" && !IsSpace(t[0]) && t[|t| - 1] != '/'
    ensures NormalizePath(Some(t + "/")) == t
  {
    var s := t + "/";
    assert s[0] == t[0] && s[..|t|] == t;
    assert LStrip(s) == s && RStrip(s) == s;
    assert RStripChar(s, '/') == RStripChar(t, '/');
  }

  /** ... and so is one trailing space. */
  lemma SpaceRemoved(t: string)
    requires |t| > 1 && !IsSpace(t[0]) && !IsSpace(t[|t| - 1]) && t[|t| - 1] != '/'
    ensures NormalizePath(Some(t + " ")) == t
  {
    var s := t + " ";
    assert s[0] == t[0] && s[..|t|] == t;
    assert LStrip(s) == s && RStrip(s) == RStrip(t) == t;
  }

  predicate EndsInSpace(s: string) {
    s != "" && IsSpace(s[|s| - 1])
  }

  /** Normalising a normalised path changes it exactly when removing the trailing slashes uncovers
      white space. */
  lemma NormaliseAgainIff(path: string)
    requires path != ""
    ensures var once := NormalizePath(Some(path));
            NormalizePath(Some(once)) == once <==> |Strip(path)| <= 1 || !EndsInSpace(RStripChar(Strip(path), '/'))
  {
    StripEnds(path);
    var stripped := Strip(path);
    assert NormalizePath(Some(path)) == WithoutSlash(stripped);
    WithoutSlashEnds(stripped);
    FixedPath(WithoutSlash(stripped));
  }

  lemma {:induction false} WithoutSlashEnds(stripped: string)
    requires stripped == "" || (!IsSpace(stripped[0]) && !EndsInSpace(stripped))
    ensures var once := WithoutSlash(stripped);
            && (once == "" || !IsSpace(once[0]))
            && (|stripped| <= 1 ==> once == stripped)
            && (|stripped| > 1 ==> once == RStripChar(stripped, '/'))
  {
  }

  /** A path that starts with no white space is left alone exactly when it is at most one character
      or ends neither in white space nor in a slash. */
  lemma FixedPath(s: string)
    requires s == "" || !IsSpace(s[0])
    ensures NormalizePath(Some(s)) == s <==> |s| <= 1 || (!EndsInSpace(s) && s[|s| - 1] != '/')
  {
    if s != "" {
      assert LStrip(s) == s;
      if EndsInSpace(s) {
        assert |RStrip(s)| < |s|;
      } else {
        assert RStrip(s) == s;
      }
    }
  }

  /** It happens: `/a /` normalises to a path that ends in white space and normalises on to `/a`. */
  lemma NormaliseNotIdempotent()
    ensures NormalizePath(Some("/a" + " " + "/")) == "/a" + " "
    ensures NormalizePath(Some("/a" + " ")) == "/a"
  {
    SlashRemoved("/a" + " ");
    SpaceRemoved("/a");
  }

  // ------------------------------------------------------------------ slugs

  lemma {:induction false} ShortNumbers(n: nat)
    ensures n < 10 ==> |NatText(n)| == 1
    ensures 10 <= n < 100 ==> |NatText(n)| == 2
  {
    if 10 <= n < 100 {
      assert n / 10 < 10;
    }
  }

  /** The fifty candidates are pairwise distinct and fit the 120-character column. */
  lemma SlugsDistinct(base: string, i: nat, j: nat)
    requires i < MAX_SLUG_ATTEMPTS && j < MAX_SLUG_ATTEMPTS
    ensures Slug(base, i) == Slug(base, j) <==> i == j
    ensures |Slug(base, i)| <= |base| + 3
  {
    SlugLength(base, i);
    SlugLength(base, j);
    if i > 0 && j > 0 && Slug(base, i) == Slug(base, j) {
      SameSuffix(base + "-", NatText(i + 1), NatText(j + 1));
      SameNumber(i + 1, j + 1);
    }
  }

  lemma {:induction false} SameNumber(m: nat, n: nat)
    requires NatText(m) == NatText(n)
    ensures m == n
  {
    DigitsOfNatText(m);
    DigitsOfNatText(n);
  }

  lemma SlugLength(base: string, i: nat)
    requires i < MAX_SLUG_ATTEMPTS
    ensures i == 0 ==> |Slug(base, i)| == |base|
    ensures i > 0 ==> |base| < |Slug(base, i)| <= |base| + 3
  {
    ShortNumbers(i + 1);
  }

  lemma SameSuffix(front: string, a: string, b: string)
    requires front + a == front + b
    ensures a == b
  {
    assert (front + a)[|front|..] == a && (front + b)[|front|..] == b;
  }
}
