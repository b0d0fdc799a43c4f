/** Keycloak user attributes projected onto local users (`apps/identity/replication.py`). */
module Projection {
  import opened Basics

  /** What the source provided; None leaves the local value alone. */
  datatype Attributes = Attributes(
    username: Option<string>, email: Option<string>, firstName: Option<string>, lastName: Option<string>,
    displayName: Option<string>, emailVerified: Option<bool>, enabled: Option<bool>)

  /** The projected columns of a user row. */
  datatype Profile = Profile(
    username: string, email: string, firstName: string, lastName: string, displayName: string,
    emailVerified: bool, isActive: bool)

  /** A JSON value as far as the projection looks at it. */
  datatype Value = Str(text: string) | Bool(flag: bool) | Other
  type Claims = map<string, Value>

  function StrOrNone(claims: Claims, key: string): Option<string> {
    if key in claims && claims[key].Str? then Some(claims[key].text) else None
  }

  function BoolOrNone(claims: Claims, key: string): Option<bool> {
    if key in claims && claims[key].Bool? then Some(claims[key].flag) else None
  }

  /** `from_claims`: a login never says whether the user is enabled. */
  function FromClaims(claims: Claims): Attributes {
    Attributes(StrOrNone(claims, "preferred_username"), StrOrNone(claims, "email"), StrOrNone(claims, "given_name"),
               StrOrNone(claims, "family_name"), StrOrNone(claims, "name"), BoolOrNone(claims, "email_verified"), None)
  }

  /** First and last name joined by a space, leaving out an absent or empty one. */
  function Composed(first: Option<string>, last: Option<string>): string {
    Strip(if Truthy(first) && Truthy(last) then first.value + " " + last.value
          else if Truthy(first) then first.value
          else OrEmpty(last))
  }

  /** `from_representation`. */
  function FromRepresentation(rep: Claims): Attributes {
    var first, last := StrOrNone(rep, "firstName"), StrOrNone(rep, "lastName");
    Attributes(StrOrNone(rep, "username"), StrOrNone(rep, "email"), first, last,
               if Composed(first, last) == "" then None else Some(Composed(first, last)),
               BoolOrNone(rep, "emailVerified"), BoolOrNone(rep, "enabled"))
  }

  /** An admin event provides a display name exactly when one of the two names is not blank. */
  lemma DisplayNameIff(rep: Claims)
    ensures FromRepresentation(rep).displayName.None?
            <==> Blank(OrEmpty(StrOrNone(rep, "firstName"))) && Blank(OrEmpty(StrOrNone(rep, "lastName")))
  {
    var first, last := StrOrNone(rep, "firstName"), StrOrNone(rep, "lastName");
    if Truthy(first) && Truthy(last) {
      BlankJoin(first.value, last.value);
      StripBlank(first.value + " " + last.value);
    } else {
      StripBlank(OrEmpty(first));
      StripBlank(OrEmpty(last));
    }
  }

  lemma BlankJoin(a: string, b: string)
    ensures Blank(a + " " + b) <==> Blank(a) && Blank(b)
  {
    var s := a + " " + b;
    assert forall i :: 0 <= i < |a| ==> s[i] == a[i];
    assert forall i :: 0 <= i < |b| ==> s[|a| + 1 + i] == b[i];
    assert s[|a|] == ' ';
    if Blank(a) && Blank(b) {
      forall i | 0 <= i < |s| ensures IsSpace(s[i]) {
        assert i < |a| || i == |a| || s[i] == b[i - |a| - 1];
      }
    }
  }

  // ------------------------------------------------------------- projecting

  function Or<T>(a: Option<T>, b: T): T {
    if a.Some? then a.value else b
  }

  /** Empty usernames and e-mail addresses count as absent. */
  function Given(s: Option<string>): Option<string> {
    if Truthy(s) then s else None
  }

  function Projected(p: Profile, a: Attributes): Profile {
    Profile(Or(Given(a.username), p.username), Or(Given(a.email), p.email), Or(a.firstName, p.firstName),
            Or(a.lastName, p.lastName), Or(a.displayName, p.displayName), Or(a.emailVerified, p.emailVerified),
            Or(a.enabled, p.isActive))
  }

  function Mark(name: string, differs: bool): seq<string> {
    if differs then [name] else []
  }

  function AccountMarks(username: bool, email: bool): seq<string> {
    Mark("username", username) + Mark("email", email)
  }

  function NameMarks(first: bool, last: bool, display: bool): seq<string> {
    Mark("first_name", first) + Mark("last_name", last) + Mark("display_name", display)
  }

  function FlagMarks(verified: bool, active: bool): seq<string> {
    Mark("email_verified", verified) + Mark("is_active", active)
  }

  /** The names of the columns in which two profiles differ, in the order of the columns. */
  function Differences(p: Profile, q: Profile): seq<string> {
    AccountMarks(p.username != q.username, p.email != q.email)
    + NameMarks(p.firstName != q.firstName, p.lastName != q.lastName, p.displayName != q.displayName)
    + FlagMarks(p.emailVerified != q.emailVerified, p.isActive != q.isActive)
  }

  class User {
    const sub: string
    var username: string
    var email: string
    var firstName: string
    var lastName: string
    var displayName: string
    var emailVerified: bool
    var isActive: bool

    constructor (sub: string, p: Profile)
      ensures this.sub == sub && Columns() == p
    {
      this.sub, username, email := sub, p.username, p.email;
      firstName, lastName, displayName := p.firstName, p.lastName, p.displayName;
      emailVerified, isActive := p.emailVerified, p.isActive;
    }

    function Columns(): Profile
      reads this
    {
      Profile(username, email, firstName, lastName, displayName, emailVerified, isActive)
    }

    /** `apply_projection`: the row as the snapshot leaves it, and exactly the columns that changed. */
    method ApplyProjection(a: Attributes) returns (changed: seq<string>)
      modifies this
      ensures Columns() == Projected(old(Columns()), a)
      ensures changed == Differences(old(Columns()), Columns())
    {
      var account := ApplyAccount(a);
      var names := ApplyNames(a);
      var flags := ApplyFlags(a);
      changed := account + names + flags;
    }

    method ApplyAccount(a: Attributes) returns (changed: seq<string>)
      modifies this`username, this`email
      ensures username == Or(Given(a.username), old(username)) && email == Or(Given(a.email), old(email))
      ensures changed == AccountMarks(old(username) != username, old(email) != email)
    {
      changed := [];
      if Truthy(a.username) && username != a.username.value {
        username := a.username.value;
        changed := changed + ["username"];
      }
      if Truthy(a.email) && email != a.email.value {
        email := a.email.value;
        changed := changed + ["email"];
      }
    }

    method ApplyNames(a: Attributes) returns (changed: seq<string>)
      modifies this`firstName, this`lastName, this`displayName
      ensures firstName == Or(a.firstName, old(firstName)) && lastName == Or(a.lastName, old(lastName))
      ensures displayName == Or(a.displayName, old(displayName))
      ensures changed == NameMarks(old(firstName) != firstName, old(lastName) != lastName, old(displayName) != displayName)
    {
      changed := [];
      if a.firstName.Some? && firstName != a.firstName.value {
        firstName := a.firstName.value;
        changed := changed + ["first_name"];
      }
      if a.lastName.Some? && lastName != a.lastName.value {
        lastName := a.lastName.value;
        changed := changed + ["last_name"];
      }
      if a.displayName.Some? && displayName != a.displayName.value {
        displayName := a.displayName.value;
        changed := changed + ["display_name"];
      }
    }

    method ApplyFlags(a: Attributes) returns (changed: seq<string>)
      modifies this`emailVerified, this`isActive
      ensures emailVerified == Or(a.emailVerified, old(emailVerified)) && isActive == Or(a.enabled, old(isActive))
      ensures changed == FlagMarks(old(emailVerified) != emailVerified, old(isActive) != isActive)
    {
      changed := [];
      if a.emailVerified.Some? && emailVerified != a.emailVerified.value {
        emailVerified := a.emailVerified.value;
        changed := changed + ["email_verified"];
      }
      if a.enabled.Some? && isActive != a.enabled.value {
        isActive := a.enabled.value;
        changed := changed + ["is_active"];
      }
    }
  }

  /** The changed columns name every difference and nothing else. */
  lemma DifferencesExact(p: Profile, q: Profile, name: string)
    ensures name in Differences(p, q) <==>
              || (name == "username" && p.username != q.username) || (name == "email" && p.email != q.email)
              || (name == "first_name" && p.firstName != q.firstName) || (name == "last_name" && p.lastName != q.lastName)
              || (name == "display_name" && p.displayName != q.displayName)
              || (name == "email_verified" && p.emailVerified != q.emailVerified)
              || (name == "is_active" && p.isActive != q.isActive)
    ensures Differences(p, q) == [] <==> p == q
  {
    var account := AccountMarks(p.username != q.username, p.email != q.email);
    var names := NameMarks(p.firstName != q.firstName, p.lastName != q.lastName, p.displayName != q.displayName);
    var flags := FlagMarks(p.emailVerified != q.emailVerified, p.isActive != q.isActive);
    InBoth(account + names, flags, name);
    InBoth(account, names, name);
    MarksExact(p.username != q.username, p.email != q.email, name);
    NamesExact(p.firstName != q.firstName, p.lastName != q.lastName, p.displayName != q.displayName, name);
    FlagsExact(p.emailVerified != q.emailVerified, p.isActive != q.isActive, name);
  }

  lemma InBoth(a: seq<string>, b: seq<string>, name: string)
    ensures name in a + b <==> name in a || name in b
    ensures |a + b| == |a| + |b|
  {
  }

  lemma MarksExact(username: bool, email: bool, name: string)
    ensures name in AccountMarks(username, email) <==> (name == "username" && username) || (name == "email" && email)
    ensures |AccountMarks(username, email)| == 0 <==> !username && !email
  {
  }

  lemma NamesExact(first: bool, last: bool, display: bool, name: string)
    ensures name in NameMarks(first, last, display)
            <==> (name == "first_name" && first) || (name == "last_name" && last) || (name == "display_name" && display)
    ensures |NameMarks(first, last, display)| == 0 <==> !first && !last && !display
  {
  }

  lemma FlagsExact(verified: bool, active: bool, name: string)
    ensures name in FlagMarks(verified, active) <==> (name == "email_verified" && verified) || (name == "is_active" && active)
    ensures |FlagMarks(verified, active)| == 0 <==> !verified && !active
  {
  }

  function NewProfile(username: string): Profile {
    Profile(username, "", "", "", "", false, true)
  }

  // ------------------------------------------------------------- coalescing

  /** Two snapshots as one: the later one wins where it says something. */
  function Merge(a: Attributes, b: Attributes): Attributes {
    Attributes(Later(Given(a.username), Given(b.username)), Later(Given(a.email), Given(b.email)),
               Later(a.firstName, b.firstName), Later(a.lastName, b.lastName), Later(a.displayName, b.displayName),
               Later(a.emailVerified, b.emailVerified), Later(a.enabled, b.enabled))
  }

  function Later<T>(a: Option<T>, b: Option<T>): Option<T> {
    if b.Some? then b else a
  }

  lemma MergeAssociative(a: Attributes, b: Attributes, c: Attributes)
    ensures Merge(Merge(a, b), c) == Merge(a, Merge(b, c))
  {
  }

  const NOTHING := Attributes(None, None, None, None, None, None, None)

  function MergeAll(snapshots: seq<Attributes>): Attributes {
    if snapshots == [] then NOTHING else Merge(MergeAll(snapshots[..|snapshots| - 1]), snapshots[|snapshots| - 1])
  }

  function ProjectedAll(p: Profile, snapshots: seq<Attributes>): Profile
    decreases |snapshots|
  {
    if snapshots == [] then p else ProjectedAll(Projected(p, snapshots[0]), snapshots[1..])
  }

  lemma {:induction false} ProjectedLast(p: Profile, snapshots: seq<Attributes>, last: Attributes)
    ensures ProjectedAll(p, snapshots + [last]) == Projected(ProjectedAll(p, snapshots), last)
    decreases |snapshots|
  {
    if snapshots == [] {
      assert ProjectedAll(Projected(p, last), []) == Projected(p, last);
    } else {
      assert (snapshots + [last])[1..] == snapshots[1..] + [last];
      ProjectedLast(Projected(p, snapshots[0]), snapshots[1..], last);
    }
  }

  /** Any number of snapshots applied one after the other is their merge applied once. */
  lemma {:induction false} Coalesced(p: Profile, snapshots: seq<Attributes>)
    ensures ProjectedAll(p, snapshots) == Projected(p, MergeAll(snapshots))
  {
    if snapshots != [] {
      var front, last := snapshots[..|snapshots| - 1], snapshots[|snapshots| - 1];
      assert snapshots == front + [last];
      ProjectedLast(p, front, last);
      Coalesced(p, front);
    }
  }

  /** The last value any snapshot gave for a column, or the one it starts from. */
  function LastGiven<T>(start: T, snapshots: seq<Attributes>, column: Attributes -> Option<T>): T {
    if snapshots == [] then start
    else Or(column(snapshots[|snapshots| - 1]), LastGiven(start, snapshots[..|snapshots| - 1], column))
  }

  function Username(a: Attributes): Option<string> { Given(a.username) }
  function Email(a: Attributes): Option<string> { Given(a.email) }
  function FirstName(a: Attributes): Option<string> { a.firstName }
  function LastName(a: Attributes): Option<string> { a.lastName }
  function DisplayName(a: Attributes): Option<string> { a.displayName }
  function EmailVerified(a: Attributes): Option<bool> { a.emailVerified }
  function Enabled(a: Attributes): Option<bool> { a.enabled }

  /** Column by column, the profile ends up with the last value any snapshot gave. */
  lemma {:induction false} LastOneWins(p: Profile, snapshots: seq<Attributes>)
    ensures ProjectedAll(p, snapshots)
            == Profile(LastGiven(p.username, snapshots, Username), LastGiven(p.email, snapshots, Email),
                       LastGiven(p.firstName, snapshots, FirstName), LastGiven(p.lastName, snapshots, LastName),
                       LastGiven(p.displayName, snapshots, DisplayName),
                       LastGiven(p.emailVerified, snapshots, EmailVerified), LastGiven(p.isActive, snapshots, Enabled))
  {
    if snapshots != [] {
      var front, last := snapshots[..|snapshots| - 1], snapshots[|snapshots| - 1];
      assert snapshots == front + [last];
      ProjectedLast(p, front, last);
      LastOneWins(p, front);
    }
  }

  /** No sequence of logins changes whether a user is active. */
  lemma {:induction false} LoginsNeverActivate(p: Profile, logins: seq<Claims>)
    ensures ProjectedAll(p, seq(|logins|, i requires 0 <= i < |logins| => FromClaims(logins[i]))).isActive == p.isActive
    decreases |logins|
  {
    var snapshots := seq(|logins|, i requires 0 <= i < |logins| => FromClaims(logins[i]));
    if logins != [] {
      var next := FromClaims(logins[0]);
      LoginsNeverActivate(Projected(p, next), logins[1..]);
      assert snapshots[1..] == seq(|logins[1..]|, i requires 0 <= i < |logins[1..]| => FromClaims(logins[1..][i]));
    }
  }

  // -------------------------------------------------------------- the table

  /** Users that carry a Keycloak subject, by subject. */
  type Users = map<string, Profile>

  /** The username a new row starts with. */
  function Seed(sub: string, a: Attributes): string {
    if Truthy(a.username) then a.username.value else if Truthy(a.email) then a.email.value else sub
  }

  function Start(users: Users, sub: string, a: Attributes): Profile {
    if sub in users then users[sub] else NewProfile(Seed(sub, a))
  }

  /** The row an upsert leaves behind. */
  function Row(users: Users, sub: string, a: Attributes): Profile {
    Projected(Start(users, sub, a), a)
  }

  /** Another user holds the username; `locals` are the usernames of users without a subject. */
  predicate Taken(users: Users, locals: set<string>, sub: string, username: string) {
    username in locals || exists s :: s in users && s != sub && users[s].username == username
  }

  ghost predicate UsernamesUnique(users: Users, locals: set<string>) {
    forall s :: s in users ==> !Taken(users, locals, s, users[s].username)
  }

  /** The table an upsert leaves, or None where another user holds the username. */
  function Upsert(users: Users, locals: set<string>, sub: string, a: Attributes): Option<Users> {
    var row := Row(users, sub, a);
    if Taken(users, locals, sub, row.username) then None else Some(users[sub := row])
  }

  datatype Outcome = Upserted(created: bool, changed: seq<string>) | UsernameTaken | NoSub

  class UserTable {
    const locals: set<string>
    var users: Users

    constructor (users: Users, locals: set<string>)
      ensures this.users == users && this.locals == locals
    {
      this.users, this.locals := users, locals;
    }

    /** `upsert_user_projection`: a username someone else holds rolls everything back. */
    method UpsertUserProjection(sub: string, a: Attributes) returns (r: Outcome)
      requires UsernamesUnique(users, locals)
      modifies this`users
      ensures r.NoSub? <==> sub == ""
      ensures r.UsernameTaken? <==> sub != "" && Upsert(old(users), locals, sub, a).None?
      ensures r.Upserted? ==> r == Upserted(sub !in old(users), Differences(Start(old(users), sub, a), Row(old(users), sub, a)))
      ensures users == if r.Upserted? then Upsert(old(users), locals, sub, a).value else old(users)
    {
      if sub == "" {
        return NoSub;
      }
      var before := users;
      var created := sub !in users;
      CreatedThenProjected(users, locals, sub, a);
      if created {
        if Taken(users, locals, sub, Seed(sub, a)) {
          return UsernameTaken;
        }
        users := users[sub := NewProfile(Seed(sub, a))];
      }
      var saved, changed := SaveProjection(sub, a);
      if !saved {
        users := before;
        return UsernameTaken;
      }
      return Upserted(created, changed);
    }

    /** The loaded row, projected and saved if anything changed; saving can hit a taken username. */
    method SaveProjection(sub: string, a: Attributes) returns (saved: bool, changed: seq<string>)
      requires sub in users && !Taken(users, locals, sub, users[sub].username)
      modifies this`users
      ensures saved <==> !Taken(old(users), locals, sub, Projected(old(users)[sub], a).username)
      ensures changed == Differences(old(users)[sub], Projected(old(users)[sub], a))
      ensures users == if saved then old(users)[sub := Projected(old(users)[sub], a)] else old(users)
    {
      var user := new User(sub, users[sub]);
      changed := user.ApplyProjection(a);
      DifferencesExact(users[sub], user.Columns(), "username");
      saved := changed == [] || !Taken(users, locals, sub, user.username);
      if saved {
        users := users[sub := user.Columns()];
      }
    }

    /** `deactivate_user_projection`; None is the ValueError for an empty subject. */
    method DeactivateUserProjection(sub: string) returns (done: Option<bool>)
      modifies this`users
      ensures done.None? <==> sub == ""
      ensures done.Some? ==> (done.value <==> sub in old(users) && old(users)[sub].isActive)
      ensures users == if done.Some? then Deactivated(old(users), sub) else old(users)
      ensures users == if sub != "" && sub in old(users) then old(users)[sub := old(users)[sub].(isActive := false)] else old(users)
    {
      if sub == "" {
        return None;
      }
      if sub !in users || !users[sub].isActive {
        return Some(false);
      }
      users := users[sub := users[sub].(isActive := false)];
      return Some(true);
    }
  }

  function Deactivated(users: Users, sub: string): Users {
    if sub in users then users[sub := users[sub].(isActive := false)] else users
  }

  // ------------------------------------------------------- column by column

  /** The string under the key, or the value before. */
  predicate TakesText(column: string, claims: Claims, key: string, before: string) {
    column == if key in claims && claims[key].Str? then claims[key].text else before
  }

  /** The same where an empty string counts as none. */
  predicate TakesGiven(column: string, claims: Claims, key: string, before: string) {
    column == if key in claims && claims[key].Str? && claims[key].text != "" then claims[key].text else before
  }

  predicate TakesFlag(column: bool, claims: Claims, key: string, before: bool) {
    column == if key in claims && claims[key].Bool? then claims[key].flag else before
  }

  /** First and last name joined by a space, an empty one left out and the outer white space removed;
      where nothing is left, the value before. */
  ghost predicate TakesNames(column: string, rep: Claims, before: string) {
    var joined := WithSpace(TextAt(rep, "firstName"), TextAt(rep, "lastName"));
    column == if Blank(joined) then before else Strip(joined)
  }

  /** The string under the key, or the empty one. */
  function TextAt(claims: Claims, key: string): string {
    if key in claims && claims[key].Str? then claims[key].text else ""
  }

  function WithSpace(first: string, last: string): string {
    if first == "" then last else if last == "" then first else first + " " + last
  }

  /** The row before an upsert: a new user starts as active, with the username given, or else the
      e-mail address, or else the subject, and with nothing in the other columns. */
  ghost predicate StartsAs(users: Users, sub: string, claims: Claims, usernameKey: string, start: Profile) {
    if sub in users then start == users[sub]
    else
      && start == Profile(start.username, "", "", "", "", false, true)
      && exists email :: TakesGiven(email, claims, "email", sub) && TakesGiven(start.username, claims, usernameKey, email)
  }

  /** Which key of the representation ends up in which column. */
  ghost predicate FromEvent(row: Profile, rep: Claims, before: Profile) {
    && TakesGiven(row.username, rep, "username", before.username) && TakesGiven(row.email, rep, "email", before.email)
    && TakesText(row.firstName, rep, "firstName", before.firstName) && TakesText(row.lastName, rep, "lastName", before.lastName)
    && TakesNames(row.displayName, rep, before.displayName)
    && TakesFlag(row.emailVerified, rep, "emailVerified", before.emailVerified)
    && TakesFlag(row.isActive, rep, "enabled", before.isActive)
  }

  /** Which claim of a token ends up in which column; none in the user's activity. */
  ghost predicate FromToken(row: Profile, claims: Claims, before: Profile) {
    && TakesGiven(row.username, claims, "preferred_username", before.username)
    && TakesGiven(row.email, claims, "email", before.email)
    && TakesText(row.firstName, claims, "given_name", before.firstName)
    && TakesText(row.lastName, claims, "family_name", before.lastName)
    && TakesText(row.displayName, claims, "name", before.displayName)
    && TakesFlag(row.emailVerified, claims, "email_verified", before.emailVerified) && row.isActive == before.isActive
  }

  /** An upsert writes one user's row and no other. */
  ghost predicate OnlyRow(users: Users, users': Users, sub: string) {
    users'.Keys == users.Keys + {sub} && forall s :: s in users && s != sub ==> users'[s] == users[s]
  }

  /** Another user, known or local, has the username. */
  predicate HeldByOther(users: Users, locals: set<string>, sub: string, username: string) {
    username in locals || exists s :: s in users && s != sub && users[s].username == username
  }

  /** The user's row after an admin event, column by column; the upsert fails exactly when the username
      it comes to is another user's. */
  lemma EventRow(users: Users, locals: set<string>, sub: string, rep: Claims) returns (before: Profile, row: Profile)
    ensures StartsAs(users, sub, rep, "username", before) && FromEvent(row, rep, before)
    ensures var after := Upsert(users, locals, sub, FromRepresentation(rep));
            && (after.None? <==> HeldByOther(users, locals, sub, row.username))
            && (after.Some? ==> OnlyRow(users, after.value, sub) && after.value[sub] == row)
  {
    before, row := Start(users, sub, FromRepresentation(rep)), Row(users, sub, FromRepresentation(rep));
    EventColumns(rep, before);
    UpsertIs(users, locals, sub, FromRepresentation(rep));
    StartIs(users, sub, rep, "username", FromRepresentation(rep));
  }

  /** The same after a login's token. */
  lemma TokenRow(users: Users, locals: set<string>, sub: string, claims: Claims) returns (before: Profile, row: Profile)
    ensures StartsAs(users, sub, claims, "preferred_username", before) && FromToken(row, claims, before)
    ensures var after := Upsert(users, locals, sub, FromClaims(claims));
            && (after.None? <==> HeldByOther(users, locals, sub, row.username))
            && (after.Some? ==> OnlyRow(users, after.value, sub) && after.value[sub] == row)
  {
    before, row := Start(users, sub, FromClaims(claims)), Row(users, sub, FromClaims(claims));
    UpsertIs(users, locals, sub, FromClaims(claims));
    StartIs(users, sub, claims, "preferred_username", FromClaims(claims));
  }

  lemma StartIs(users: Users, sub: string, claims: Claims, usernameKey: string, a: Attributes)
    requires a.username == StrOrNone(claims, usernameKey) && a.email == StrOrNone(claims, "email")
    ensures StartsAs(users, sub, claims, usernameKey, Start(users, sub, a))
  {
    var email := if Truthy(a.email) then a.email.value else sub;
    assert TakesGiven(email, claims, "email", sub);
  }

  lemma UpsertIs(users: Users, locals: set<string>, sub: string, a: Attributes)
    ensures var after, row := Upsert(users, locals, sub, a), Row(users, sub, a);
            && (after.None? <==> HeldByOther(users, locals, sub, row.username))
            && (after.Some? ==> OnlyRow(users, after.value, sub) && after.value[sub] == row)
  {
  }

  lemma EventColumns(rep: Claims, before: Profile)
    ensures FromEvent(Projected(before, FromRepresentation(rep)), rep, before)
  {
    EventNames(rep, before.displayName);
    EventAccount(rep, before);
    EventFlags(rep, before);
  }

  lemma EventAccount(rep: Claims, before: Profile)
    ensures var row := Projected(before, FromRepresentation(rep));
            && TakesGiven(row.username, rep, "username", before.username) && TakesGiven(row.email, rep, "email", before.email)
            && TakesText(row.firstName, rep, "firstName", before.firstName)
            && TakesText(row.lastName, rep, "lastName", before.lastName)
  {
  }

  lemma EventFlags(rep: Claims, before: Profile)
    ensures var row := Projected(before, FromRepresentation(rep));
            && TakesFlag(row.emailVerified, rep, "emailVerified", before.emailVerified)
            && TakesFlag(row.isActive, rep, "enabled", before.isActive)
            && row.displayName == Or(FromRepresentation(rep).displayName, before.displayName)
  {
  }

  lemma ComposedIs(first: Option<string>, last: Option<string>)
    ensures Composed(first, last) == Strip(WithSpace(OrEmpty(first), OrEmpty(last)))
  {
  }

  lemma EventNames(rep: Claims, before: string)
    ensures TakesNames(Or(FromRepresentation(rep).displayName, before), rep, before)
  {
    var first, last := StrOrNone(rep, "firstName"), StrOrNone(rep, "lastName");
    ComposedIs(first, last);
    assert OrEmpty(first) == TextAt(rep, "firstName") && OrEmpty(last) == TextAt(rep, "lastName");
    StripBlank(WithSpace(OrEmpty(first), OrEmpty(last)));
  }

  /** Upserting the same snapshot again finds nothing to change. */
  lemma UpsertAgain(users: Users, sub: string, a: Attributes)
    ensures var users' := users[sub := Row(users, sub, a)];
            Row(users', sub, a) == users'[sub] && Differences(Start(users', sub, a), Row(users', sub, a)) == []
  {
  }

  /** Usernames stay unique, however many upserts succeed. */
  lemma UpsertKeepsUnique(users: Users, locals: set<string>, sub: string, a: Attributes)
    requires UsernamesUnique(users, locals) && !Taken(users, locals, sub, Row(users, sub, a).username)
    ensures UsernamesUnique(users[sub := Row(users, sub, a)], locals)
  {
    var users' := users[sub := Row(users, sub, a)];
    forall s | s in users' ensures !Taken(users', locals, s, users'[s].username) {
      if s != sub {
        assert !Taken(users, locals, s, users[s].username);
      }
    }
  }

  /** Creating a user first and projecting the snapshot then comes to one upsert. */
  lemma CreatedThenProjected(users: Users, locals: set<string>, sub: string, a: Attributes)
    ensures sub !in users ==>
              var created := users[sub := NewProfile(Seed(sub, a))];
              && Projected(created[sub], a) == Row(users, sub, a) && Row(users, sub, a).username == Seed(sub, a)
              && (forall name :: Taken(created, locals, sub, name) <==> Taken(users, locals, sub, name))
              && created[sub := Row(users, sub, a)] == users[sub := Row(users, sub, a)]
  {
    if sub !in users {
      forall name ensures Taken(users[sub := NewProfile(Seed(sub, a))], locals, sub, name) <==> Taken(users, locals, sub, name) {
        TakenByOthers(users, locals, sub, NewProfile(Seed(sub, a)), name);
      }
    }
  }

  /** Whether a username is taken depends on the other users only. */
  lemma TakenByOthers(users: Users, locals: set<string>, sub: string, row: Profile, username: string)
    ensures Taken(users[sub := row], locals, sub, username) <==> Taken(users, locals, sub, username)
  {
    var users' := users[sub := row];
    assert forall s :: s in users && s != sub ==> s in users' && users'[s] == users[s];
  }

  /** After an upsert of a known user that succeeded, a second one succeeds exactly when the one upsert
      of both snapshots merged does, and leaves the same table. */
  lemma UpsertsCoalesce(users: Users, locals: set<string>, sub: string, a: Attributes, b: Attributes)
    requires sub in users && Upsert(users, locals, sub, a).Some?
    ensures Upsert(Upsert(users, locals, sub, a).value, locals, sub, b) == Upsert(users, locals, sub, Merge(a, b))
  {
    var once := users[sub := Row(users, sub, a)];
    SameRows(once, sub, a, b, users);
    TakenByOthers(users, locals, sub, Row(users, sub, a), Row(once, sub, b).username);
    assert once[sub := Row(once, sub, b)] == users[sub := Row(once, sub, b)];
  }

  lemma SameRows(once: Users, sub: string, a: Attributes, b: Attributes, users: Users)
    requires once == users[sub := Row(users, sub, a)]
    ensures sub in users ==> Row(once, sub, b) == Row(users, sub, Merge(a, b))
    ensures sub !in users ==> (Row(once, sub, b) == Row(users, sub, Merge(a, b)) <==> SeedKept(sub, a, b))
    ensures sub !in users && !SeedKept(sub, a, b) ==> Row(once, sub, b).username == Row(users, sub, a).username
    ensures sub !in users && !SeedKept(sub, a, b) ==> Row(once, sub, b) != Row(users, sub, Merge(a, b))
  {
  }

  /** A username is given by either snapshot, or the later one does not change the seed e-mail. */
  predicate SeedKept(sub: string, a: Attributes, b: Attributes) {
    Truthy(a.username) || Truthy(b.username) || !Truthy(b.email) || b.email.value == Seed(sub, a)
  }

  /** For a new user they coalesce, username collisions included, exactly when the seed is kept. */
  lemma NewUserCoalescesIff(users: Users, locals: set<string>, sub: string, a: Attributes, b: Attributes)
    requires sub !in users && Upsert(users, locals, sub, a).Some?
    ensures Upsert(Upsert(users, locals, sub, a).value, locals, sub, b) == Upsert(users, locals, sub, Merge(a, b))
            <==> SeedKept(sub, a, b)
  {
    var once := users[sub := Row(users, sub, a)];
    var twice, merged := Row(once, sub, b), Row(users, sub, Merge(a, b));
    SameRows(once, sub, a, b, users);
    TakenByOthers(users, locals, sub, Row(users, sub, a), twice.username);
    assert once[sub := twice] == users[sub := twice];
    assert users[sub := twice][sub] == twice && users[sub := merged][sub] == merged;
  }
}
