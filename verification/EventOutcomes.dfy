/** What an admin event comes to, column by column, from the stored row to the replicated tables, and
    from its delivery to its mark. */
module EventOutcomes {
  import opened Basics
  import opened GroupRefs
  import opened OrgTable
  import opened Reconcile
  import opened TokenLogins
  import opened Webhooks
  import opened EventPipeline
  import P = Projection

  /** The group reference of a stored row: its id, path and name, empty ones left out. */
  predicate RefersTo(ref: GroupRef, e: Entry) {
    && (if e.groupId == "" then ref.groupId == None else ref.groupId == Some(e.groupId))
    && (if e.groupPath == "" then ref.path == None else ref.path == Some(e.groupPath))
    && (if e.groupName == "" then ref.name == None else ref.name == Some(e.groupName))
  }

  /** A group event: the organization found or created gets the event's name and path, and the other
      tables are left alone; it raises where another organization has the path. */
  ghost predicate GroupOutcome(slugify: string -> string, w: World, e: Entry, a: Applied) {
    exists ref, s :: RefersTo(ref, e) && SyncOutcome(slugify, w.db.orgs, ref, s) && Carries(w, s, a)
  }

  ghost predicate Carries(w: World, s: Sync, a: Applied) {
    match s
    case NoOrganization => a == Done(w, "")
    case PathConflict => a == Raised
    case Synced(orgs', _) => a == Done(World(w.users, Db(orgs', w.db.members)), "")
  }

  lemma GroupDoes(slugify: string -> string, locals: set<string>, w: World, e: Entry)
    requires KeysUnique(w.db.orgs) && e.kind == GroupKind
    ensures GroupOutcome(slugify, w, e, Effect(slugify, locals, w, e))
  {
    var ref := RefOf(e);
    SyncIs(slugify, w.db.orgs, ref);
    assert RefersTo(ref, e) && Carries(w, SyncedFrom(slugify, w.db.orgs, ref), Effect(slugify, locals, w, e));
  }

  /** A membership event joins the user to the group's organization, or takes the user out; that of a
      user nobody knows does nothing, and that of no user is marked with an error. */
  ghost predicate MembershipOutcome(slugify: string -> string, w: World, e: Entry, a: Applied, key: Key) {
    if e.sub == "" then a == Done(w, "event carried no keycloak sub")
    else if e.sub !in w.users then a == Done(w, "")
    else
      exists ref :: RefersTo(ref, e)
        && var (orgs', r) := if e.operation != "DELETE" then Resolved(slugify, w.db.orgs, ref) else Found(w.db.orgs, ref);
           && a.Done? && a.error == "" && a.world.users == w.users && a.world.db.orgs == orgs'
           && ChangeOutcome(w.db, a.world.db.members, e.sub, r, e.operation != "DELETE", key)
  }

  lemma MembershipDoes(slugify: string -> string, locals: set<string>, w: World, e: Entry, key: Key)
    requires WorldOk(w, locals) && e.kind == MembershipKind
    ensures MembershipOutcome(slugify, w, e, Effect(slugify, locals, w, e), key)
  {
    if e.sub != "" && e.sub in w.users {
      assert RefersTo(RefOf(e), e);
      ChangeDecides(slugify, w.db, e.sub, RefOf(e), e.operation != "DELETE", key);
    }
  }

  /** A user event: a deletion makes a known user inactive and changes nothing else; any other writes the
      representation into the user's row, or raises when the username is someone else's. That of no user
      is marked with an error. */
  ghost predicate UserOutcome(w: World, locals: set<string>, e: Entry, a: Applied) {
    if e.sub == "" then a == Done(w, "event carried no keycloak sub")
    else if e.operation == "DELETE" then SwitchedOff(w, e.sub, a)
    else RowWritten(w, locals, e, a)
  }

  ghost predicate SwitchedOff(w: World, sub: string, a: Applied) {
    && a.Done? && a.error == "" && a.world.db == w.db && a.world.users.Keys == w.users.Keys
    && forall s :: s in w.users ==> a.world.users[s] == if s == sub then w.users[s].(isActive := false) else w.users[s]
  }

  ghost predicate RowWritten(w: World, locals: set<string>, e: Entry, a: Applied) {
    exists before, row :: P.StartsAs(w.users, e.sub, e.representation, "username", before)
      && P.FromEvent(row, e.representation, before)
      && if P.HeldByOther(w.users, locals, e.sub, row.username) then a == Raised
         else
           && a.Done? && a.error == "" && a.world.db == w.db && P.OnlyRow(w.users, a.world.users, e.sub)
           && a.world.users[e.sub] == row
  }

  lemma UserDoes(slugify: string -> string, locals: set<string>, w: World, e: Entry)
    requires KeysUnique(w.db.orgs) && e.kind == UserKind
    ensures UserOutcome(w, locals, e, Effect(slugify, locals, w, e))
  {
    if e.sub != "" {
      if e.operation == "DELETE" {
        SwitchesOff(w, locals, e);
      } else {
        WritesRow(w, locals, e);
      }
    }
  }

  lemma SwitchesOff(w: World, locals: set<string>, e: Entry)
    requires e.operation == "DELETE"
    ensures SwitchedOff(w, e.sub, AppliedUser(w, locals, e))
  {
    assert AppliedUser(w, locals, e).world.users == P.Deactivated(w.users, e.sub);
  }

  lemma WritesRow(w: World, locals: set<string>, e: Entry)
    requires e.operation != "DELETE"
    ensures RowWritten(w, locals, e, AppliedUser(w, locals, e))
  {
    var before, row := P.EventRow(w.users, locals, e.sub, e.representation);
    assert P.StartsAs(w.users, e.sub, e.representation, "username", before) && P.FromEvent(row, e.representation, before);
  }

  /** A delivered event that is new is stored, enqueued once, and when its worker gets to it, on whatever
      tables others have left by then, applied and marked unless its effect raises. */
  lemma {:induction false} DeliveredThenWorked(slugify: string -> string, locals: set<string>, orgReplication: bool, s: Sys,
                                               payload: Payload, w: World)
    requires SysOk(locals, s) && WorldOk(w, locals)
    requires var entry := LedgerEntry(payload, orgReplication); entry.Some? && entry.value.0 !in s.ledger
    ensures var (id, e) := LedgerEntry(payload, orgReplication).value;
            var s1 := Next(slugify, locals, orgReplication, s, Receive(payload));
            var s2 := Next(slugify, locals, orgReplication, Next(slugify, locals, orgReplication, s1, Enqueue(id)), Outside(w));
            var s3 := Next(slugify, locals, orgReplication, s2, Work(id, NoCrash));
            && s1.ledger == s.ledger[id := Record(e, false, "")] && id in s1.pending
            && s2.enqueued == s.enqueued + multiset{id} && id !in s2.pending && s2.ledger == s1.ledger
            && s3 == Run(slugify, locals, orgReplication, s, [Receive(payload), Enqueue(id), Outside(w), Work(id, NoCrash)])
            && match Effect(slugify, locals, w, e)
               case Raised => s3 == s2
               case Done(w', error) => s3 == s2.(world := w', ledger := s2.ledger[id := Record(e, true, error)])
  {
    NextOk(slugify, locals, orgReplication, s, Receive(payload));
    var (id, e) := LedgerEntry(payload, orgReplication).value;
    var s1 := Next(slugify, locals, orgReplication, s, Receive(payload));
    var s2 := Next(slugify, locals, orgReplication, Next(slugify, locals, orgReplication, s1, Enqueue(id)), Outside(w));
    WorkedIs(slugify, locals, orgReplication, s2, id, e);
    FourSteps(slugify, locals, orgReplication, s, Receive(payload), Enqueue(id), Outside(w), Work(id, NoCrash));
  }

  lemma {:induction false} FourSteps(slugify: string -> string, locals: set<string>, orgReplication: bool, s: Sys,
                                     a: Step, b: Step, c: Step, d: Step)
    requires SysOk(locals, s)
    ensures var s1 := Next(slugify, locals, orgReplication, s, a);
            && SysOk(locals, s1)
            && var s2 := Next(slugify, locals, orgReplication, s1, b);
            && SysOk(locals, s2)
            && var s3 := Next(slugify, locals, orgReplication, s2, c);
            && SysOk(locals, s3)
            && Run(slugify, locals, orgReplication, s, [a, b, c, d]) == Next(slugify, locals, orgReplication, s3, d)
  {
    RunFirst(slugify, locals, orgReplication, s, a, [b, c, d]);
    var s1 := Next(slugify, locals, orgReplication, s, a);
    RunFirst(slugify, locals, orgReplication, s1, b, [c, d]);
    var s2 := Next(slugify, locals, orgReplication, s1, b);
    RunFirst(slugify, locals, orgReplication, s2, c, [d]);
    RunFirst(slugify, locals, orgReplication, Next(slugify, locals, orgReplication, s2, c), d, []);
  }

  lemma {:induction false} RunFirst(slugify: string -> string, locals: set<string>, orgReplication: bool, s: Sys,
                                    step: Step, rest: seq<Step>)
    requires SysOk(locals, s)
    ensures var s1 := Next(slugify, locals, orgReplication, s, step);
            && SysOk(locals, s1)
            && Run(slugify, locals, orgReplication, s, [step] + rest) == Run(slugify, locals, orgReplication, s1, rest)
            && (rest == [] ==> Run(slugify, locals, orgReplication, s, [step]) == s1)
  {
    NextOk(slugify, locals, orgReplication, s, step);
    assert ([step] + rest)[1..] == rest;
    assert rest == [] ==> [step] + rest == [step];
  }

  /** An event whose enqueueing is lost stays in the ledger and is never enqueued again: repeated
      deliveries find its row there and leave it. */
  lemma {:induction false} LostForGood(slugify: string -> string, locals: set<string>, orgReplication: bool, s: Sys,
                                       id: string, steps: seq<Step>)
    requires SysOk(locals, s) && id in s.ledger
    ensures var s' := Run(slugify, locals, orgReplication, Next(slugify, locals, orgReplication, s, Lose(id)), steps);
            id in s'.ledger && s'.enqueued[id] == s.enqueued[id]
  {
    NextOk(slugify, locals, orgReplication, s, Lose(id));
    NotPending(slugify, locals, orgReplication, Next(slugify, locals, orgReplication, s, Lose(id)), id, steps);
  }

  lemma {:induction false} NotPending(slugify: string -> string, locals: set<string>, orgReplication: bool, s: Sys,
                                      id: string, steps: seq<Step>)
    requires SysOk(locals, s) && id in s.ledger && id !in s.pending
    ensures var s' := Run(slugify, locals, orgReplication, s, steps); id in s'.ledger && s'.enqueued[id] == s.enqueued[id]
    decreases |steps|
  {
    if steps != [] {
      NextOk(slugify, locals, orgReplication, s, steps[0]);
      NextNotPending(slugify, locals, orgReplication, s, id, steps[0]);
      NotPending(slugify, locals, orgReplication, Next(slugify, locals, orgReplication, s, steps[0]), id, steps[1..]);
    }
  }

  lemma NextNotPending(slugify: string -> string, locals: set<string>, orgReplication: bool, s: Sys, id: string, step: Step)
    requires SysOk(locals, s) && id in s.ledger && id !in s.pending
    ensures var s' := Next(slugify, locals, orgReplication, s, step);
            id in s'.ledger && id !in s'.pending && s'.enqueued[id] == s.enqueued[id]
  {
    if step.Work? {
      MarkedOnly(slugify, locals, s.ledger, s.world, step.id, step.crash);
    }
  }

  /** The ledger and the tables once the effect of one unmarked event is known. */
  function Marked(ledger: Ledger, w: World, id: string, a: Applied): (Ledger, World)
    requires id in ledger
  {
    match a
    case Raised => (ledger, w)
    case Done(w', error) => (ledger[id := ledger[id].(processed := true, error := error)], w')
  }

  lemma ProcessedIs(slugify: string -> string, locals: set<string>, ledger: Ledger, w: World, id: string, a: Applied)
    requires KeysUnique(w.db.orgs) && id in ledger && !ledger[id].processed
    requires a == Effect(slugify, locals, w, ledger[id].entry)
    ensures Processed(slugify, locals, ledger, w, id, NoCrash) == Marked(ledger, w, id, a)
  {
  }

  lemma WorkedIs(slugify: string -> string, locals: set<string>, orgReplication: bool, s: Sys, id: string, e: Entry)
    requires WorldOk(s.world, locals) && id in s.ledger && s.ledger[id] == Record(e, false, "")
    ensures var s' := Next(slugify, locals, orgReplication, s, Work(id, NoCrash));
            match Effect(slugify, locals, s.world, e)
            case Raised => s' == s
            case Done(w', error) => s' == s.(world := w', ledger := s.ledger[id := Record(e, true, error)])
  {
    ProcessedIs(slugify, locals, s.ledger, s.world, id, Effect(slugify, locals, s.world, e));
  }
}
