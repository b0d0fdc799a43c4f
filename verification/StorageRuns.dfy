/** The partitioned table against one flat ledger, over whole runs of appends, partition
    creation, re-homing and archiving in any order. */
module StorageRuns {
  import opened TrailLedger
  import opened LedgerProtocol
  import opened TrailStorage

  /** `ledger` never loses a row: it is the flat table the store refines. `floor` is how much of
      a tenant's chain has been archived away, `dropped` the tenants archived with `--drop`. */
  datatype Vault = Vault(store: Store, ledger: LedgerDb, floor: map<Uuid, nat>, dropped: set<Uuid>)

  datatype Event =
    | Append(call: Call)
    | CreatePartition(org: Uuid)
    | Rehome(org: Uuid)
    | Archive(org: Uuid, drop: bool)

  function FloorOf(v: Vault, org: Uuid): nat {
    if org in v.floor then v.floor[org] else 0
  }

  /** An event the database refuses leaves everything as it was. */
  function Next(hash: EntryHash, v: Vault, event: Event): Vault {
    match event
    case Append(c) =>
      var (ledger, e) := Appended(hash, v.ledger, c.action, c.id, c.now);
      if e.None? then v else v.(store := Routing(v.store, {e.value}), ledger := ledger)
    case CreatePartition(org) =>
      var store := WithPartition(v.store, org);
      if store.None? then v else v.(store := store.value)
    case Rehome(org) => v.(store := RehomedOne(v.store, org))
    case Archive(org, drop) =>
      if org !in v.store.parts || (!drop && org in v.store.archives) then v
      else
        Vault(
          Store(v.store.default, v.store.parts - {org},
                if drop then v.store.archives else v.store.archives[org := v.store.parts[org]]),
          v.ledger, v.floor[org := HeadOf(v.ledger, org).sequence],
          if drop then v.dropped + {org} else v.dropped)
  }

  function Runs(hash: EntryHash, v: Vault, events: seq<Event>): Vault
    decreases |events|
  {
    if events == [] then v else Runs(hash, Next(hash, v, events[0]), events[1..])
  }

  /** The tenant's ledger rows with sequences in (low, high]. */
  function Span(rows: map<(Uuid, nat), Entry>, org: Uuid, low: nat, high: nat): set<Entry> {
    set k | k in rows && k.0 == org && low < k.1 <= high :: rows[k]
  }

  /** A tenant's live rows are the contiguous end of its chain, up to its head. */
  ghost predicate TenantStored(v: Vault, org: Uuid) {
    && FloorOf(v, org) <= HeadOf(v.ledger, org).sequence
    && Live(v.store, org) == Span(v.ledger.rows, org, FloorOf(v, org), HeadOf(v.ledger, org).sequence)
  }

  /** Unless rows were dropped, the archive is the chain's beginning. */
  ghost predicate TenantArchived(v: Vault, org: Uuid) {
    org !in v.dropped ==>
      (if org in v.store.archives then v.store.archives[org] else {})
      == Span(v.ledger.rows, org, 0, FloorOf(v, org))
  }

  ghost predicate VaultOk(hash: EntryHash, v: Vault) {
    && LedgerOk(hash, v.ledger) && Routed(v.store)
    && (forall org :: TenantStored(v, org))
    && (forall org :: TenantArchived(v, org))
    && (forall org :: org in v.floor && org !in v.dropped ==> org in v.store.archives)
  }

  // ------------------------------------------------------------------ steps

  /** Each entry of a sound tenant sits under its own sequence. */
  lemma SpanOfRows(hash: EntryHash, db: LedgerDb, org: Uuid, low: nat, high: nat, e: Entry)
    requires TenantOk(hash, db, org)
    ensures e in Span(db.rows, org, low, high)
       <==> (org, e.sequence) in db.rows && db.rows[(org, e.sequence)] == e && low < e.sequence <= high
  {
    forall k | k in db.rows && k.0 == org ensures db.rows[k].sequence == k.1 {
      assert (org, k.1) == k;
      assert RowOk(hash, db.rows, org, k.1);
    }
  }

  /** The next entry joins the end of its tenant's span and of no other. */
  lemma SpanAppend(hash: EntryHash, db: LedgerDb, e: Entry, org: Uuid, low: nat)
    requires TenantOk(hash, db, e.action.organization)
    requires e.sequence == NextSequence(db, e.action.organization)
    requires low <= HeadOf(db, org).sequence
    ensures var db' := WithEntry(db, e);
            Span(db'.rows, org, low, HeadOf(db', org).sequence)
            == Span(db.rows, org, low, HeadOf(db, org).sequence) + RowsOf({e}, org)
  {
    var owner := e.action.organization;
    var rows' := WithEntry(db, e).rows;
    var key := (owner, e.sequence);
    assert key !in db.rows;
    var before := Span(db.rows, org, low, HeadOf(db, org).sequence);
    var after := Span(rows', org, low, HeadOf(WithEntry(db, e), org).sequence);
    forall x | x in after ensures x in before + RowsOf({e}, org) {
      var k :| k in rows' && k.0 == org && low < k.1 <= HeadOf(WithEntry(db, e), org).sequence && rows'[k] == x;
      if k != key {
        SequenceBound(hash, db, org, owner, k.1, e);
      }
    }
    forall x | x in before ensures x in after {
      var k :| k in db.rows && k.0 == org && low < k.1 <= HeadOf(db, org).sequence && db.rows[k] == x;
      assert rows'[k] == x;
    }
    if org == owner {
      assert rows'[key] == e && e in after;
    }
  }

  lemma SequenceBound(hash: EntryHash, db: LedgerDb, org: Uuid, owner: Uuid, q: nat, e: Entry)
    requires TenantOk(hash, db, owner) && e.action.organization == owner && e.sequence == NextSequence(db, owner)
    requires (org, q) in db.rows && q <= HeadOf(WithEntry(db, e), org).sequence
    ensures q <= HeadOf(db, org).sequence
  {
    if org == owner {
      assert (owner, q) in db.rows;
    }
  }

  lemma SpanKept(hash: EntryHash, db: LedgerDb, e: Entry, org: Uuid, high: nat)
    requires TenantOk(hash, db, e.action.organization)
    requires e.sequence == NextSequence(db, e.action.organization) && high <= HeadOf(db, org).sequence
    ensures Span(WithEntry(db, e).rows, org, 0, high) == Span(db.rows, org, 0, high)
  {
    var rows' := WithEntry(db, e).rows;
    var key := (e.action.organization, e.sequence);
    assert key !in db.rows;
    forall k | k in rows' && k.0 == org && k.1 <= high ensures k in db.rows && rows'[k] == db.rows[k] {}
  }

  lemma AppendKeeps(hash: EntryHash, v: Vault, c: Call)
    requires VaultOk(hash, v)
    ensures VaultOk(hash, Next(hash, v, Append(c)))
  {
    var owner := c.action.organization;
    assert TenantOk(hash, v.ledger, owner);
    AppendKeepsLedger(hash, v.ledger, c.action, c.id, c.now);
    AppendExtends(hash, v.ledger, c.action, c.id, c.now);
    var e := NextEntry(hash, HeadOf(v.ledger, owner), c.action, c.id, c.now);
    var v' := Next(hash, v, Append(c));
    assert v' == v.(store := Routing(v.store, {e}), ledger := WithEntry(v.ledger, e));
    RoutingAdds(v.store, {e});
    forall org ensures TenantStored(v', org) {
      assert TenantStored(v, org);
      SpanAppend(hash, v.ledger, e, org, FloorOf(v, org));
    }
    forall org ensures TenantArchived(v', org) {
      assert TenantArchived(v, org) && TenantStored(v, org);
      SpanKept(hash, v.ledger, e, org, FloorOf(v, org));
    }
  }

  /** Steps that move rows without changing any tenant's rows. */
  lemma StoreStepKeeps(hash: EntryHash, v: Vault, store: Store)
    requires VaultOk(hash, v) && Routed(store) && store.archives == v.store.archives
    requires forall org :: Live(store, org) == Live(v.store, org)
    ensures VaultOk(hash, v.(store := store))
  {
    var v' := v.(store := store);
    forall org ensures TenantStored(v', org) && TenantArchived(v', org) {
      assert TenantStored(v, org) && TenantArchived(v, org);
    }
  }

  lemma ArchiveKeeps(hash: EntryHash, v: Vault, org: Uuid, drop: bool)
    requires VaultOk(hash, v) && org in v.store.parts && (drop || org !in v.store.archives)
    ensures VaultOk(hash, Next(hash, v, Archive(org, drop)))
  {
    var v' := Next(hash, v, Archive(org, drop));
    assert TenantStored(v, org) && TenantArchived(v, org);
    assert RowsOf(v.store.default, org) == {};
    var n := HeadOf(v.ledger, org).sequence;
    assert Span(v.ledger.rows, org, n, n) == {};
    forall o ensures TenantStored(v', o) {
      assert TenantStored(v, o);
      assert o != org ==> Live(v'.store, o) == Live(v.store, o);
    }
    forall o ensures TenantArchived(v', o) {
      assert TenantArchived(v, o);
      if o == org && !drop && org !in v.dropped {
        assert FloorOf(v, org) == 0;
      }
    }
  }

  lemma NextKeeps(hash: EntryHash, v: Vault, event: Event)
    requires VaultOk(hash, v)
    ensures VaultOk(hash, Next(hash, v, event))
  {
    match event {
      case Append(c) => AppendKeeps(hash, v, c);
      case CreatePartition(org) =>
        var store := WithPartition(v.store, org);
        if store.Some? {
          NewPartitionKeeps(v.store, org);
          StoreStepKeeps(hash, v, store.value);
        }
      case Rehome(org) =>
        RehomedOneRouted(v.store, org);
        RehomedOneLive(v.store, org);
        StoreStepKeeps(hash, v, RehomedOne(v.store, org));
      case Archive(org, drop) =>
        if org in v.store.parts && (drop || org !in v.store.archives) { ArchiveKeeps(hash, v, org, drop); }
    }
  }

  lemma NewPartitionKeeps(s: Store, org: Uuid)
    requires Routed(s) && WithPartition(s, org).Some?
    ensures var s' := WithPartition(s, org).value;
            Routed(s') && s'.archives == s.archives && forall o :: Live(s', o) == Live(s, o)
  {
    if org !in s.parts {
      forall e | e in s.default ensures OrgOf(e) != org {
        assert e !in RowsOf(s.default, org);
      }
    }
  }

  lemma RehomedOneLive(s: Store, org: Uuid)
    ensures forall o :: Live(RehomedOne(s, org), o) == Live(s, o)
  {
    var s' := RehomedOne(s, org);
    forall o ensures Live(s', o) == Live(s, o) {
      assert RowsOf(s'.default, o) == if o == org then {} else RowsOf(s.default, o);
    }
  }

  lemma {:induction false} RunsKeep(hash: EntryHash, v: Vault, events: seq<Event>)
    requires VaultOk(hash, v)
    ensures VaultOk(hash, Runs(hash, v, events))
    decreases |events|
  {
    if events != [] {
      NextKeeps(hash, v, events[0]);
      RunsKeep(hash, Next(hash, v, events[0]), events[1..]);
    }
  }

  // ------------------------------------------------- what each event does

  /** An append on a sound vault stores its entry as the tenant's newest live row and no other. */
  lemma AppendStores(hash: EntryHash, v: Vault, c: Call)
    requires VaultOk(hash, v)
    ensures var v', org := Next(hash, v, Append(c)), c.action.organization;
            var n := HeadOf(v.ledger, org).sequence + 1;
            && (org, n) !in v.ledger.rows && (org, n) in v'.ledger.rows && v'.ledger.rows[(org, n)].action == c.action
            && Live(v'.store, org) == Live(v.store, org) + {v'.ledger.rows[(org, n)]}
            && (forall o :: o != org ==> Live(v'.store, o) == Live(v.store, o))
            && v'.store.parts.Keys == v.store.parts.Keys && v'.floor == v.floor && v'.dropped == v.dropped
  {
    var org := c.action.organization;
    assert TenantOk(hash, v.ledger, org);
    AppendExtends(hash, v.ledger, c.action, c.id, c.now);
    var e := Appended(hash, v.ledger, c.action, c.id, c.now).1.value;
    RoutingAdds(v.store, {e});
    forall o ensures RowsOf({e}, o) == if o == org then {e} else {} {}
  }

  /** Re-homing leaves no DEFAULT row of the tenant and gives it a partition; creating a partition is
      refused only by DEFAULT rows; neither changes any tenant's rows. */
  lemma PartitionEvents(hash: EntryHash, v: Vault, org: Uuid)
    requires VaultOk(hash, v)
    ensures var rehomed, made := Next(hash, v, Rehome(org)), Next(hash, v, CreatePartition(org));
            && org in rehomed.store.parts && (forall e :: e in rehomed.store.default ==> OrgOf(e) != org)
            && (org in made.store.parts <==> org in v.store.parts || forall e :: e in v.store.default ==> OrgOf(e) != org)
            && (forall o :: Live(rehomed.store, o) == Live(v.store, o) == Live(made.store, o))
            && rehomed == v.(store := rehomed.store) && made == v.(store := made.store)
  {
    RehomedOneLive(v.store, org);
    forall o ensures Live(Next(hash, v, CreatePartition(org)).store, o) == Live(v.store, o) {}
  }

  /** Archiving a tenant with a partition takes its partition's rows out of the live table, into the
      archive unless they are dropped; a taken archive name or a missing partition refuses it. */
  lemma ArchiveTakes(hash: EntryHash, v: Vault, org: Uuid, drop: bool)
    requires VaultOk(hash, v)
    ensures var v' := Next(hash, v, Archive(org, drop));
            if org in v.store.parts && (drop || org !in v.store.archives) then
              && v'.store.parts.Keys == v.store.parts.Keys - {org} && v'.store.default == v.store.default
              && Live(v'.store, org) == {} && (forall o :: o != org ==> Live(v'.store, o) == Live(v.store, o))
              && (!drop ==> v'.store.archives == v.store.archives[org := Live(v.store, org)] && v'.dropped == v.dropped)
              && (drop ==> v'.store.archives == v.store.archives && v'.dropped == v.dropped + {org})
            else v' == v
  {
    assert org in v.store.parts ==> RowsOf(v.store.default, org) == {};
    assert org in v.store.parts ==> Live(v.store, org) == v.store.parts[org];
  }

  // ---------------------------------------------------------- main theorems

  /** A sound flat ledger, as converted by migration 0004 with partitions for `orgs`. */
  function Converted(db: LedgerDb, orgs: set<Uuid>): Vault {
    Vault(Routing(Store({}, map o | o in orgs :: {}, map[]), db.rows.Values), db, map[], {})
  }

  /** Migrating puts the rows of every listed tenant in its partition and all others in DEFAULT. */
  lemma ConvertedIs(db: LedgerDb, orgs: set<Uuid>)
    ensures var v := Converted(db, orgs);
            && v.store.parts.Keys == orgs && v.store.archives == map[]
            && (forall o :: o in orgs ==> v.store.parts[o] == RowsOf(db.rows.Values, o))
            && (forall e :: e in v.store.default <==> e in db.rows.Values && OrgOf(e) !in orgs)
            && v.ledger == db && v.floor == map[] && v.dropped == {}
  {
    var v := Converted(db, orgs);
    forall o | o in orgs ensures v.store.parts[o] == RowsOf(db.rows.Values, o) {
      assert {} + RowsOf(db.rows.Values, o) == RowsOf(db.rows.Values, o);
    }
  }

  /** A tenant's rows are the ones stored under its own keys. */
  lemma RowAtItsKey(hash: EntryHash, db: LedgerDb, org: Uuid, e: Entry)
    requires LedgerOk(hash, db)
    ensures e in RowsOf(db.rows.Values, org)
            <==> (org, e.sequence) in db.rows && db.rows[(org, e.sequence)] == e && 0 < e.sequence <= HeadOf(db, org).sequence
  {
    assert TenantOk(hash, db, org);
    if e in RowsOf(db.rows.Values, org) {
      var k :| k in db.rows && db.rows[k] == e;
      assert TenantOk(hash, db, k.0) && (k.0, k.1) == k;
      assert RowOk(hash, db.rows, k.0, k.1);
    }
    if (org, e.sequence) in db.rows && db.rows[(org, e.sequence)] == e {
      assert RowOk(hash, db.rows, org, e.sequence);
    }
  }

  lemma ConvertedOk(hash: EntryHash, db: LedgerDb, orgs: set<Uuid>)
    requires LedgerOk(hash, db)
    ensures VaultOk(hash, Converted(db, orgs))
  {
    var empty := Store({}, map o | o in orgs :: {}, map[]);
    var v := Converted(db, orgs);
    RoutingAdds(empty, db.rows.Values);
    forall org ensures TenantStored(v, org) && TenantArchived(v, org) {
      assert TenantOk(hash, db, org);
      var n := HeadOf(db, org).sequence;
      forall e ensures e in RowsOf(db.rows.Values, org) <==> e in Span(db.rows, org, 0, n) {
        SpanOfRows(hash, db, org, 0, n, e);
        RowAtItsKey(hash, db, org, e);
      }
      assert Live(empty, org) == {};
      assert Span(db.rows, org, 0, 0) == {};
    }
  }

  /** The appends of a run, in order. */
  function Calls(events: seq<Event>): seq<Call> {
    if events == [] then []
    else if events[0].Append? then [events[0].call] + Calls(events[1..])
    else Calls(events[1..])
  }

  /** However partitions are created, filled and archived meanwhile, the tenants' chains are those that a
      single writer makes with the same appends on a flat table. */
  lemma {:induction false} LedgerIsReplay(hash: EntryHash, v: Vault, events: seq<Event>)
    ensures Runs(hash, v, events).ledger == Replay(hash, v.ledger, Calls(events))
    decreases |events|
  {
    if events != [] {
      var v' := Next(hash, v, events[0]);
      LedgerIsReplay(hash, v', events[1..]);
      if events[0].Append? {
        var c := events[0].call;
        assert v'.ledger == Appended(hash, v.ledger, c.action, c.id, c.now).0;
        ReplayFirst(hash, v.ledger, c, Calls(events[1..]));
      }
    }
  }

  lemma {:induction false} ReplayFirst(hash: EntryHash, db: LedgerDb, c: Call, calls: seq<Call>)
    ensures Replay(hash, db, [c] + calls) == Replay(hash, Appended(hash, db, c.action, c.id, c.now).0, calls)
    decreases |calls|
  {
    if calls == [] {
      assert ([c] + calls)[..0] == [];
      assert Replay(hash, db, []) == db;
    } else {
      assert ([c] + calls)[..|calls|] == [c] + calls[..|calls| - 1];
      ReplayFirst(hash, db, c, calls[..|calls| - 1]);
    }
  }

  /** Whatever the order of appends, partition creation, re-homing and archiving after the
      conversion: routing is correct, and every tenant's live rows are its ledger rows from some
      point of its chain to its head, no more and no fewer. */
  lemma {:induction false} StorageRefinesLedger(hash: EntryHash, db: LedgerDb, orgs: set<Uuid>, events: seq<Event>, org: Uuid)
    requires LedgerOk(hash, db)
    ensures var v := Runs(hash, Converted(db, orgs), events);
            && Routed(v.store) && LedgerOk(hash, v.ledger)
            && FloorOf(v, org) <= HeadOf(v.ledger, org).sequence
            && RowsOf(Flat(v.store), org)
               == Span(v.ledger.rows, org, FloorOf(v, org), HeadOf(v.ledger, org).sequence)
  {
    ConvertedOk(hash, db, orgs);
    RunsKeep(hash, Converted(db, orgs), events);
    var v := Runs(hash, Converted(db, orgs), events);
    assert TenantStored(v, org);
    LiveIsFlat(v.store, org);
  }

  /** Until a tenant is archived with `--drop`, its archived and its live rows are disjoint and
      together its whole chain 1..n. */
  lemma {:induction false} NothingLostWithoutDrop(hash: EntryHash, db: LedgerDb, orgs: set<Uuid>, events: seq<Event>, org: Uuid)
    requires LedgerOk(hash, db) && forall e :: e in events ==> e != Archive(org, true)
    ensures var v := Runs(hash, Converted(db, orgs), events);
            var archived := if org in v.store.archives then v.store.archives[org] else {};
            && archived !! Live(v.store, org)
            && archived + Live(v.store, org) == Span(v.ledger.rows, org, 0, HeadOf(v.ledger, org).sequence)
  {
    ConvertedOk(hash, db, orgs);
    RunsKeep(hash, Converted(db, orgs), events);
    NotDropped(hash, Converted(db, orgs), events, org);
    var v := Runs(hash, Converted(db, orgs), events);
    assert TenantStored(v, org) && TenantArchived(v, org) && TenantOk(hash, v.ledger, org);
    SpanSplits(hash, v.ledger, org, FloorOf(v, org));
  }

  ghost predicate IdsDistinct(rows: set<Entry>) {
    forall e, f :: e in rows && f in rows && e != f ==> e.id != f.id
  }

  /** After any run, the logical table is every tenant's chain from its floor to its head, no two of
      its rows share (organization, sequence), and so reverting to the flat table succeeds exactly
      when the ids of the live rows are pairwise distinct; the flat key is the id alone. */
  lemma {:induction false} RevertAfterRuns(hash: EntryHash, db: LedgerDb, orgs: set<Uuid>, events: seq<Event>)
    requires LedgerOk(hash, db)
    ensures var v := Runs(hash, Converted(db, orgs), events);
            && (FlatKeys(Flat(v.store)) <==> IdsDistinct(Flat(v.store)))
            && (forall e :: e in Flat(v.store) <==> e in LiveSpan(v, OrgOf(e)))
  {
    ConvertedOk(hash, db, orgs);
    RunsKeep(hash, Converted(db, orgs), events);
    var v := Runs(hash, Converted(db, orgs), events);
    forall e ensures e in Flat(v.store) <==> e in LiveSpan(v, OrgOf(e))
      ensures e in Flat(v.store) ==> RowAt(v, e)
    {
      StorageRefinesLedger(hash, db, orgs, events, OrgOf(e));
      assert e in Flat(v.store) <==> e in RowsOf(Flat(v.store), OrgOf(e));
      assert TenantOk(hash, v.ledger, OrgOf(e));
      SpanOfRows(hash, v.ledger, OrgOf(e), FloorOf(v, OrgOf(e)), HeadOf(v.ledger, OrgOf(e)).sequence, e);
    }
    forall e, f | e in Flat(v.store) && f in Flat(v.store) && e != f
      ensures OrgOf(e) != OrgOf(f) || e.sequence != f.sequence
    {
      assert RowAt(v, e) && RowAt(v, f);
    }
  }

  /** The tenant's rows that were not archived away. */
  function LiveSpan(v: Vault, org: Uuid): set<Entry> {
    Span(v.ledger.rows, org, FloorOf(v, org), HeadOf(v.ledger, org).sequence)
  }

  ghost predicate RowAt(v: Vault, e: Entry) {
    (OrgOf(e), e.sequence) in v.ledger.rows && v.ledger.rows[(OrgOf(e), e.sequence)] == e
  }

  lemma SpanSplits(hash: EntryHash, db: LedgerDb, org: Uuid, k: nat)
    requires TenantOk(hash, db, org) && k <= HeadOf(db, org).sequence
    ensures var n := HeadOf(db, org).sequence;
            && Span(db.rows, org, 0, k) !! Span(db.rows, org, k, n)
            && Span(db.rows, org, 0, k) + Span(db.rows, org, k, n) == Span(db.rows, org, 0, n)
  {
    var n := HeadOf(db, org).sequence;
    forall e ensures (e in Span(db.rows, org, 0, n) <==> e in Span(db.rows, org, 0, k) || e in Span(db.rows, org, k, n))
                  && !(e in Span(db.rows, org, 0, k) && e in Span(db.rows, org, k, n)) {
      SpanOfRows(hash, db, org, 0, n, e);
      SpanOfRows(hash, db, org, 0, k, e);
      SpanOfRows(hash, db, org, k, n, e);
    }
  }

  lemma {:induction false} NotDropped(hash: EntryHash, v: Vault, events: seq<Event>, org: Uuid)
    requires org !in v.dropped && forall e :: e in events ==> e != Archive(org, true)
    ensures org !in Runs(hash, v, events).dropped
    decreases |events|
  {
    if events != [] {
      assert events[0] in events;
      forall e | e in events[1..] ensures e in events {}
      NotDropped(hash, Next(hash, v, events[0]), events[1..], org);
    }
  }

  /** Converting the flat table to partitions and reverting gives the same rows back. */
  lemma ConvertRevert(rows: set<Entry>, orgs: set<Uuid>, s: Store)
    requires FlatKeys(rows)
    requires s == Routing(Store({}, map o | o in orgs :: {}, map[]), rows)
    ensures Routed(s) && Flat(s) == rows && FlatKeys(Flat(s))
    ensures s.default == {} <==> Orgs(rows) <= orgs
  {
    var empty := Store({}, map o | o in orgs :: {}, map[]);
    RoutingAdds(empty, rows);
    assert Flat(empty) == {};
    if Orgs(rows) <= orgs {
      assert forall e :: e in rows ==> OrgOf(e) in Orgs(rows);
    }
    if s.default == {} {
      forall o | o in Orgs(rows) ensures o in orgs {
        var e :| e in rows && OrgOf(e) == o;
        assert OrgOf(e) !in orgs ==> e in s.default;
      }
    }
  }
}
