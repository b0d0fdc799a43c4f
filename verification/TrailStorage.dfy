/** Where ledger rows are stored: one LIST partition per tenant and a DEFAULT partition, with
    the commands that create partitions, re-home DEFAULT rows and archive a tenant
    (`apps/trail/partitioning.py`, the management commands and migration 0004). */
module TrailStorage {
  import opened Basics
  import opened TrailLedger

  // ------------------------------------------------------------ table names

  const PARENT_TABLE := "trail_trailentry"
  const DEFAULT_PARTITION := "trail_trailentry_default"

  function PartitionName(org: Uuid): string {
    PARENT_TABLE + "_" + org.hex
  }

  function ArchivedName(org: Uuid): string {
    PartitionName(org) + "_archived"
  }

  /** Table names identify their tenants and never clash, so the catalogue can be keyed by
      tenant; all fit the 63 characters PostgreSQL allows. */
  lemma NamesIdentify(org: Uuid, other: Uuid)
    ensures PartitionName(org) == PartitionName(other) <==> org == other
    ensures ArchivedName(org) == ArchivedName(other) <==> org == other
    ensures PartitionName(org) != ArchivedName(other)
    ensures PartitionName(org) !in {PARENT_TABLE, DEFAULT_PARTITION}
    ensures ArchivedName(org) !in {PARENT_TABLE, DEFAULT_PARTITION}
    ensures |PartitionName(org)| == 49 && |ArchivedName(org)| < 63
    ensures PartitionName(org) == "trail_trailentry_" + org.hex && ArchivedName(org) == "trail_trailentry_" + org.hex + "_archived"
  {
    assert "trail_trailentry" + "_" == "trail_trailentry_";
    assert |PARENT_TABLE| == 16 && |DEFAULT_PARTITION| == 24;
    assert PartitionName(org)[17..] == org.hex && PartitionName(other)[17..] == other.hex;
    assert ArchivedName(org)[17..49] == org.hex && ArchivedName(other)[17..49] == other.hex;
  }

  // ----------------------------------------------------------------- stores

  /** The partitioned table: rows in DEFAULT, rows per tenant partition, and the standalone
      `_archived` tables that are no longer part of it. */
  datatype Store = Store(default: set<Entry>, parts: map<Uuid, set<Entry>>, archives: map<Uuid, set<Entry>>)

  function OrgOf(e: Entry): Uuid {
    e.action.organization
  }

  function RowsOf(rows: set<Entry>, org: Uuid): set<Entry> {
    set e | e in rows && OrgOf(e) == org
  }

  /** What `SELECT * FROM trail_trailentry` returns. */
  function Flat(s: Store): set<Entry> {
    s.default + set o, e | o in s.parts && e in s.parts[o] :: e
  }

  /** A tenant's rows, wherever they are stored. */
  function Live(s: Store, org: Uuid): set<Entry> {
    RowsOf(s.default, org) + if org in s.parts then s.parts[org] else {}
  }

  /** Partition constraints: DEFAULT holds no row of a tenant with a partition, and a partition
      holds its own tenant's rows only. */
  ghost predicate Routed(s: Store) {
    && (forall e :: e in s.default ==> OrgOf(e) !in s.parts)
    && (forall o, e :: o in s.parts && e in s.parts[o] ==> OrgOf(e) == o)
  }

  /** On a routed store the tenant's rows are the flat table's rows of that tenant. */
  lemma LiveIsFlat(s: Store, org: Uuid)
    requires Routed(s)
    ensures Live(s, org) == RowsOf(Flat(s), org)
  {
  }

  /** INSERT through the parent: each row goes to its tenant's partition, or to DEFAULT. */
  function Routing(s: Store, rows: set<Entry>): Store {
    s.(default := s.default + (set e | e in rows && OrgOf(e) !in s.parts),
       parts := map o | o in s.parts :: s.parts[o] + RowsOf(rows, o))
  }

  lemma RoutingAdds(s: Store, rows: set<Entry>)
    requires Routed(s)
    ensures Routed(Routing(s, rows)) && Flat(Routing(s, rows)) == Flat(s) + rows
    ensures forall org :: Live(Routing(s, rows), org) == Live(s, org) + RowsOf(rows, org)
    ensures Routing(s, rows).parts.Keys == s.parts.Keys && Routing(s, rows).archives == s.archives
  {
    var s' := Routing(s, rows);
    forall e ensures e in Flat(s') <==> e in Flat(s) + rows {
      if e in rows && OrgOf(e) in s.parts {
        assert e in s'.parts[OrgOf(e)];
      }
      if e in Flat(s) && e !in s.default {
        var o :| o in s.parts && e in s.parts[o];
        assert e in s'.parts[o];
      }
    }
  }

  /** `CREATE TABLE IF NOT EXISTS ... PARTITION OF ... FOR VALUES IN (org)`, which PostgreSQL
      refuses while DEFAULT holds rows of that tenant. */
  function WithPartition(s: Store, org: Uuid): Option<Store> {
    if org in s.parts then Some(s)
    else if RowsOf(s.default, org) != {} then None
    else Some(s.(parts := s.parts[org := {}]))
  }

  /** DEFAULT after the rows of the tenants `done` moved to partitions of their own. */
  function Rehomed(s: Store, done: set<Uuid>): Store {
    Store((set e | e in s.default && OrgOf(e) !in done), map o | o in s.parts.Keys + done :: Live(s, o), s.archives)
  }

  /** Partitions with an empty one added for each tenant of `orgs` that has none. */
  function WithEmpty(s: Store, orgs: set<Uuid>): Store {
    s.(parts := map o | o in s.parts.Keys + orgs :: if o in s.parts then s.parts[o] else {})
  }

  /** The whole effect of a full `ensure_trail_partitions` run over the organizations `orgs`. */
  function Ensured(s: Store, orgs: set<Uuid>): Store {
    Store({}, map o | o in s.parts.Keys + orgs + Orgs(s.default) :: Live(s, o), s.archives)
  }

  function Orgs(rows: set<Entry>): set<Uuid> {
    set e | e in rows :: OrgOf(e)
  }

  /** A full run empties DEFAULT, gives every organization a partition, keeps the logical table
      and every tenant's rows, and running it again changes nothing and reports nothing. */
  lemma EnsuredComplete(s: Store, orgs: set<Uuid>)
    requires Routed(s)
    ensures var s' := Ensured(s, orgs);
            && s'.default == {} && orgs <= s'.parts.Keys && Routed(s') && Flat(s') == Flat(s)
            && (forall o :: Live(s', o) == Live(s, o)) && s'.archives == s.archives
            && (forall o :: o in s'.parts <==> o in s.parts || o in orgs || exists e :: e in s.default && OrgOf(e) == o)
            && Ensured(s', orgs) == s' && Missing(s', orgs) == {}
  {
    var s' := Ensured(s, orgs);
    forall o ensures Live(s', o) == Live(s, o) {
      EnsuredLive(s, orgs, o);
    }
    assert Routed(s');
    FlatByLive(s, s');
    EnsuredStable(s', orgs);
  }

  lemma EnsuredStable(s: Store, orgs: set<Uuid>)
    requires s.default == {} && orgs <= s.parts.Keys
    ensures Ensured(s, orgs) == s && Missing(s, orgs) == {}
  {
    assert Orgs(s.default) == {};
    assert Ensured(s, orgs).parts.Keys == s.parts.Keys;
    forall o | o in s.parts ensures Ensured(s, orgs).parts[o] == s.parts[o] {}
  }

  lemma EnsuredLive(s: Store, orgs: set<Uuid>, o: Uuid)
    ensures Live(Ensured(s, orgs), o) == Live(s, o)
  {
    if o !in Ensured(s, orgs).parts {
      forall e | e in s.default ensures OrgOf(e) != o {
        assert OrgOf(e) in Orgs(s.default);
      }
    }
  }

  /** Routed stores that agree tenant by tenant hold the same table. */
  lemma FlatByLive(s: Store, s': Store)
    requires Routed(s) && Routed(s') && forall o :: Live(s', o) == Live(s, o)
    ensures Flat(s') == Flat(s)
  {
    forall e ensures e in Flat(s) <==> e in Flat(s') {
      LiveIsFlat(s, OrgOf(e));
      LiveIsFlat(s', OrgOf(e));
      assert e in Flat(s) <==> e in Live(s, OrgOf(e));
      assert e in Flat(s') <==> e in Live(s', OrgOf(e));
    }
  }

  /** The organizations with neither a partition nor DEFAULT rows. */
  function Missing(s: Store, orgs: set<Uuid>): set<Uuid> {
    set o | o in orgs && o !in s.parts && o !in Orgs(s.default)
  }

  /** `missing` are the organizations with neither a partition nor a row in DEFAULT. */
  ghost predicate IsMissing(s: Store, orgs: set<Uuid>, missing: set<Uuid>) {
    forall o :: o in missing <==> o in orgs && o !in s.parts && forall e :: e in s.default ==> e.action.organization != o
  }

  lemma MissingIs(s: Store, orgs: set<Uuid>)
    ensures IsMissing(s, orgs, Missing(s, orgs))
  {
    forall o ensures o in Orgs(s.default) <==> !forall e :: e in s.default ==> e.action.organization != o {
      if o in Orgs(s.default) {
        var e :| e in s.default && OrgOf(e) == o;
      }
    }
  }

  /** Empty partitions for the tenants `added`, and nothing else. */
  ghost predicate AddedEmpty(s: Store, s': Store, added: set<Uuid>) {
    && s'.default == s.default && s'.archives == s.archives && s'.parts.Keys == s.parts.Keys + added
    && forall o :: o in s'.parts ==> s'.parts[o] == if o in s.parts then s.parts[o] else {}
  }

  lemma WithEmptyIs(s: Store, orgs: set<Uuid>)
    ensures AddedEmpty(s, WithEmpty(s, orgs), orgs)
  {
  }

  /** One tenant's DEFAULT rows moved into its own partition. */
  function RehomedOne(s: Store, org: Uuid): Store {
    Store(s.default - RowsOf(s.default, org), s.parts[org := Live(s, org)], s.archives)
  }

  /** Lift, delete, create, reinsert: the partition can be created and receives the rows. */
  lemma RehomeSteps(s: Store, org: Uuid)
    requires Routed(s)
    ensures var lifted := RowsOf(s.default, org);
            var created := WithPartition(s.(default := s.default - lifted), org);
            created.Some? && Routing(created.value, lifted) == RehomedOne(s, org)
  {
    var lifted := RowsOf(s.default, org);
    assert RowsOf(s.default - lifted, org) == {};
    var created := WithPartition(s.(default := s.default - lifted), org).value;
    RoutingLifted(created, lifted, org);
    if org in s.parts {
      assert lifted == {};
    }
    assert created.parts[org] + lifted == Live(s, org);
    assert created.parts[org := Live(s, org)] == s.parts[org := Live(s, org)];
  }

  lemma RoutingLifted(s: Store, lifted: set<Entry>, org: Uuid)
    requires org in s.parts && forall e :: e in lifted ==> OrgOf(e) == org
    ensures Routing(s, lifted) == s.(parts := s.parts[org := s.parts[org] + lifted])
  {
    forall o | o in s.parts ensures s.parts[o] + RowsOf(lifted, o) == s.parts[org := s.parts[org] + lifted][o] {
      assert RowsOf(lifted, o) == if o == org then lifted else {};
    }
    assert Routing(s, lifted).parts == s.parts[org := s.parts[org] + lifted];
    assert Routing(s, lifted).default == s.default;
  }

  lemma RehomedOneRouted(s: Store, org: Uuid)
    requires Routed(s)
    ensures Routed(RehomedOne(s, org))
  {
    var r := RehomedOne(s, org);
    forall o | o in r.parts ensures RowsOf(r.default, o) == {} {
      assert o == org || RowsOf(s.default, o) == {};
    }
    forall o, e | o in r.parts && e in r.parts[o] ensures OrgOf(e) == o {
      assert o == org || e in s.parts[o];
    }
  }

  lemma NoRows(rows: set<Entry>, org: Uuid)
    ensures RowsOf(rows, org) == {} <==> forall e :: e in rows ==> e.action.organization != org
  {
    if RowsOf(rows, org) == {} {
      forall e | e in rows ensures e.action.organization != org {
        assert e !in RowsOf(rows, org);
      }
    }
  }

  /** One tenant's rows are in its partition, everything else is where it was. */
  ghost predicate MovedOut(s: Store, s': Store, org: Uuid) {
    && (forall e :: e in s'.default <==> e in s.default && e.action.organization != org)
    && s'.parts.Keys == s.parts.Keys + {org} && (forall o :: o in s.parts && o != org ==> s'.parts[o] == s.parts[o])
    && (forall e :: e in s'.parts[org] <==>
          (org in s.parts && e in s.parts[org]) || (e in s.default && e.action.organization == org))
    && s'.archives == s.archives
  }

  lemma RehomedOneIs(s: Store, org: Uuid)
    ensures MovedOut(s, RehomedOne(s, org), org)
  {
  }

  lemma RehomedOneCount(s: Store, org: Uuid)
    ensures |RowsOf(s.default, org)| == |s.default| - |RehomedOne(s, org).default|
  {
    var rows, rest := RowsOf(s.default, org), RehomedOne(s, org).default;
    assert rest + rows == s.default && rest !! rows;
    assert |rest + rows| == |rest| + |rows|;
  }

  /** Re-homing one more tenant extends what has been re-homed so far. */
  lemma RehomeNext(s: Store, done: set<Uuid>, org: Uuid)
    requires Routed(s)
    ensures Routed(Rehomed(s, done)) && RehomedOne(Rehomed(s, done), org) == Rehomed(s, done + {org})
    ensures RehomedFor(s, true, done) == s && RehomedFor(s, false, done) == Rehomed(s, done)
    ensures RehomedFor(s, true, done + {org}) == s && RehomedFor(s, false, done + {org}) == Rehomed(s, done + {org})
  {
    var mid := Rehomed(s, done);
    assert Live(mid, org) == Live(s, org);
    assert RehomedOne(mid, org).parts == Rehomed(s, done + {org}).parts;
    assert RehomedOne(mid, org).default == Rehomed(s, done + {org}).default;
  }

  function RehomedFor(s: Store, dryRun: bool, done: set<Uuid>): Store {
    if dryRun then s else Rehomed(s, done)
  }

  lemma RehomedNone(s: Store, dryRun: bool)
    requires Routed(s)
    ensures RehomedFor(s, dryRun, {}) == s
  {
    forall o | o in s.parts ensures Live(s, o) == s.parts[o] {
      assert RowsOf(s.default, o) == {};
    }
  }

  /** Re-homing every DEFAULT tenant and then creating what is missing is a full run. */
  lemma RehomeThenCreate(s: Store, orgs: set<Uuid>)
    requires Routed(s)
    ensures WithEmpty(Rehomed(s, Orgs(s.default)), Missing(s, orgs)) == Ensured(s, orgs)
  {
    var mid := Rehomed(s, Orgs(s.default));
    assert forall e :: e in s.default ==> OrgOf(e) in Orgs(s.default);
    assert mid.default == {};
    forall o | o in Missing(s, orgs) ensures Live(s, o) == {} {}
    assert WithEmpty(mid, Missing(s, orgs)).parts == Ensured(s, orgs).parts;
  }

  datatype ArchiveOutcome = Archived | Dropped | Planned | NoPartition | NameTaken

  class PartitionedTrail {
    var default: set<Entry>
    var parts: map<Uuid, set<Entry>>
    var archives: map<Uuid, set<Entry>>

    function Contents(): Store
      reads this
    {
      Store(default, parts, archives)
    }

    constructor ()
      ensures Contents() == Store({}, map[], map[])
    {
      default, parts, archives := {}, map[], map[];
    }

    /** `create_partition_for_organization`; false stands for the database error. */
    method CreatePartition(org: Uuid) returns (ok: bool)
      modifies this`parts
      ensures ok == WithPartition(old(Contents()), org).Some?
      ensures Contents() == if ok then WithPartition(old(Contents()), org).value else old(Contents())
      ensures ok <==> org in old(parts) || forall e :: e in default ==> e.action.organization != org
      ensures parts == if ok && org !in old(parts) then old(parts)[org := {}] else old(parts)
    {
      NoRows(default, org);
      if org in parts {
        ok := true;
      } else if RowsOf(default, org) != {} {
        ok := false;
      } else {
        parts := parts[org := {}];
        ok := true;
      }
    }

    method InsertThroughParent(rows: set<Entry>)
      modifies this`default, this`parts
      ensures Contents() == Routing(old(Contents()), rows)
    {
      default := default + set e | e in rows && OrgOf(e) !in parts;
      parts := map o | o in parts :: parts[o] + RowsOf(rows, o);
    }

    /** One tenant's re-homing transaction: lift the rows out, delete them from DEFAULT, create
        the partition, insert them through the parent. */
    method RehomeOne(org: Uuid) returns (count: nat)
      requires Routed(Contents())
      modifies this`default, this`parts
      ensures Contents() == RehomedOne(old(Contents()), org) && Routed(Contents())
      ensures MovedOut(old(Contents()), Contents(), org)
      ensures count == |old(default)| - |default|
    {
      RehomeSteps(Contents(), org);
      RehomedOneRouted(Contents(), org);
      RehomedOneCount(Contents(), org);
      RehomedOneIs(Contents(), org);
      var lifted := RowsOf(default, org);
      default := default - lifted;
      var ok := CreatePartition(org);
      InsertThroughParent(lifted);
      count := |lifted|;
    }

    /** `_rehome_default_rows`, over the tenants in whatever order the query returned them. */
    method RehomeDefaultRows(orgIds: set<Uuid>, dryRun: bool) returns (rehomed: nat)
      requires Routed(Contents())
      modifies this`default, this`parts
      ensures Contents() == RehomedFor(old(Contents()), dryRun, orgIds)
      ensures rehomed == |old(default)| - |default|
    {
      rehomed := 0;
      ghost var before := Contents();
      RehomedNone(before, dryRun);
      var todo := orgIds;
      assert orgIds - todo == {};
      while todo != {}
        invariant todo <= orgIds && rehomed == |before.default| - |default|
        invariant Contents() == RehomedFor(before, dryRun, orgIds - todo)
        decreases todo
      {
        var org :| org in todo;
        RehomeNext(before, orgIds - todo, org);
        assert orgIds - (todo - {org}) == (orgIds - todo) + {org};
        if !dryRun {
          var count := RehomeOne(org);
          rehomed := rehomed + count;
        }
        todo := todo - {org};
      }
      assert orgIds - todo == orgIds;
    }

    /** `ensure_trail_partitions`: `created` counts new empty partitions, `rehomed` moved rows. */
    method EnsureTrailPartitions(orgs: set<Uuid>, noRehome: bool, dryRun: bool) returns (created: nat, rehomed: nat)
      requires Routed(Contents())
      modifies this`default, this`parts
      ensures created == |Missing(old(Contents()), orgs)|
      ensures rehomed == if dryRun || noRehome then 0 else |old(default)|
      ensures Contents() ==
                if dryRun then old(Contents())
                else if noRehome then WithEmpty(old(Contents()), Missing(old(Contents()), orgs))
                else Ensured(old(Contents()), orgs)
      ensures IsMissing(old(Contents()), orgs, Missing(old(Contents()), orgs))
      ensures !dryRun && noRehome ==> AddedEmpty(old(Contents()), Contents(), Missing(old(Contents()), orgs))
    {
      ghost var before := Contents();
      MissingIs(before, orgs);
      WithEmptyIs(before, Missing(before, orgs));
      var defaultOrgIds := Orgs(default);
      rehomed := 0;
      if !noRehome {
        rehomed := RehomeDefaultRows(defaultOrgIds, dryRun);
      }
      RehomeThenCreate(before, orgs);
      RehomeKeepsOthers(before);
      created := CreateRemaining(orgs, defaultOrgIds, dryRun, before);
    }

    /** One organization of the create loop: skipped when it has a partition or DEFAULT rows. */
    method CreateIfMissing(org: Uuid, inDefault: bool, dryRun: bool,
                           ghost before: Store, ghost mid: Store, ghost done: set<Uuid>)
      returns (made: bool)
      requires Contents() == CreatedFor(before, mid, dryRun, done)
      requires org !in done && inDefault == (org in Orgs(before.default)) && KeepsOthers(before, mid)
      modifies this`parts
      ensures Contents() == CreatedFor(before, mid, dryRun, done + {org})
      ensures |Missing(before, done + {org})| == |Missing(before, done)| + if made then 1 else 0
    {
      CreateNext(before, mid, dryRun, done, org);
      made := org !in parts && !inDefault;
      if made && !dryRun {
        var ok := CreatePartition(org);
      }
    }

    /** The loop over all organizations that creates the partitions still missing. */
    method CreateRemaining(orgs: set<Uuid>, defaultOrgIds: set<Uuid>, dryRun: bool, ghost before: Store)
      returns (created: nat)
      requires defaultOrgIds == Orgs(before.default) && KeepsOthers(before, Contents())
      modifies this`parts
      ensures created == |Missing(before, orgs)|
      ensures Contents() == CreatedFor(before, old(Contents()), dryRun, orgs)
    {
      ghost var mid := Contents();
      CreatedNone(before, mid, dryRun);
      LookedAtStart(orgs);
      var todo := orgs;
      ghost var done: set<Uuid> := {};
      created := 0;
      while todo != {}
        invariant LookedAt(orgs, todo, done) && CreatedSoFar(before, mid, dryRun, done, created, Contents())
        decreases todo
      {
        var org :| org in todo;
        LookedAtNext(orgs, todo, done, org);
        created := CreateOne(org, org in defaultOrgIds, dryRun, created, before, mid, done);
        todo, done := todo - {org}, done + {org};
      }
      LookedAtEnd(orgs, done);
    }

    method CreateOne(org: Uuid, inDefault: bool, dryRun: bool, created: nat, ghost before: Store, ghost mid: Store,
                     ghost done: set<Uuid>)
      returns (created': nat)
      requires CreatedSoFar(before, mid, dryRun, done, created, Contents())
      requires org !in done && inDefault == (org in Orgs(before.default)) && KeepsOthers(before, mid)
      modifies this`parts
      ensures CreatedSoFar(before, mid, dryRun, done + {org}, created', Contents())
    {
      var made := CreateIfMissing(org, inDefault, dryRun, before, mid, done);
      created' := created + if made then 1 else 0;
    }

    /** `archive_trail_partition`: detach, then drop or rename, in one transaction. */
    method ArchiveTrailPartition(org: Uuid, drop: bool, dryRun: bool) returns (outcome: ArchiveOutcome)
      modifies this`parts, this`archives
      ensures outcome == NoPartition <==> org !in old(parts)
      ensures outcome == NameTaken <==> org in old(parts) && !dryRun && !drop && org in old(archives)
      ensures outcome == Planned <==> org in old(parts) && dryRun
      ensures outcome == Dropped <==> org in old(parts) && !dryRun && drop
      ensures outcome == Archived ==> parts == old(parts) - {org} && archives == old(archives)[org := old(parts)[org]]
      ensures outcome == Dropped ==> parts == old(parts) - {org} && archives == old(archives)
      ensures outcome !in {Archived, Dropped} ==> Contents() == old(Contents())
    {
      if org !in parts {
        return NoPartition;
      }
      if dryRun {
        return Planned;
      }
      var saved := parts;
      var detached := parts[org];
      parts := parts - {org};
      if drop {
        outcome := Dropped;
      } else if org in archives {
        parts := saved;
        outcome := NameTaken;
      } else {
        archives := archives[org := detached];
        outcome := Archived;
      }
    }

    /** Migration 0004 forwards: a partitioned copy of the flat table `rows`. Tables archived before
        an earlier revert are no part of it and stay. */
    method ConvertToPartitioned(rows: set<Entry>, orgs: set<Uuid>)
      modifies this`default, this`parts
      ensures Routed(Contents()) && Flat(Contents()) == rows && parts.Keys == orgs
    {
      default, parts := {}, map[];
      var todo := orgs;
      while todo != {}
        invariant todo <= orgs && default == {}
        invariant parts.Keys == orgs - todo && forall o :: o in parts ==> parts[o] == {}
        decreases todo
      {
        var org :| org in todo;
        parts := parts[org := {}];
        todo := todo - {org};
      }
      assert Routed(Contents()) && Flat(Contents()) == {};
      RoutingAdds(Contents(), rows);
      InsertThroughParent(rows);
    }

    /** Migration 0004 backwards: the rows go to a flat table and the partitioned one is dropped with
        every partition. None stands for the rolled-back transaction when the flat table's primary key
        (the id alone) or its unique (organization, sequence) cannot be added. */
    method RevertToFlat() returns (rows: Option<set<Entry>>)
      modifies this`default, this`parts
      ensures rows.Some? <==> FlatKeys(Flat(old(Contents())))
      ensures rows.Some? ==> rows.value == Flat(old(Contents())) && Contents() == Store({}, map[], old(archives))
      ensures rows.None? ==> Contents() == old(Contents())
    {
      var saved, savedParts := default, parts;
      var flat := Flat(Contents());
      default, parts := {}, map[];
      var idsUnique := forall e, f :: e in flat && f in flat && e != f ==> e.id != f.id;
      var keysUnique := forall e, f :: e in flat && f in flat && e != f ==> OrgOf(e) != OrgOf(f) || e.sequence != f.sequence;
      if !idsUnique || !keysUnique {
        default, parts := saved, savedParts;
        return None;
      }
      return Some(flat);
    }
  }

  ghost predicate FlatKeys(rows: set<Entry>) {
    forall e, f :: e in rows && f in rows && e != f ==> e.id != f.id && (OrgOf(e) != OrgOf(f) || e.sequence != f.sequence)
  }

  /** The store once the create loop has looked at the organizations `done`. */
  function CreatedFor(before: Store, mid: Store, dryRun: bool, done: set<Uuid>): Store {
    if dryRun then mid else WithEmpty(mid, Missing(before, done))
  }

  /** Inside the create loop: the counter and the store agree with what was looked at. */
  ghost predicate CreatedSoFar(before: Store, mid: Store, dryRun: bool, done: set<Uuid>, created: nat, now: Store) {
    created == |Missing(before, done)| && now == CreatedFor(before, mid, dryRun, done)
  }

  /** Tenants without DEFAULT rows are stored in `mid` as in `before`. */
  ghost predicate KeepsOthers(before: Store, mid: Store) {
    forall o :: o !in Orgs(before.default) ==>
      (o in mid.parts <==> o in before.parts) && (o !in mid.parts ==> RowsOf(mid.default, o) == {})
  }

  lemma RehomeKeepsOthers(s: Store)
    requires Routed(s)
    ensures KeepsOthers(s, s) && KeepsOthers(s, Rehomed(s, Orgs(s.default)))
  {
    assert forall e :: e in s.default ==> OrgOf(e) in Orgs(s.default);
  }

  /** One round of the create loop. */
  lemma CreateNext(before: Store, mid: Store, dryRun: bool, done: set<Uuid>, org: Uuid)
    requires KeepsOthers(before, mid) && org !in done
    ensures var now, next := CreatedFor(before, mid, dryRun, done), CreatedFor(before, mid, dryRun, done + {org});
            if org in now.parts || org in Orgs(before.default)
            then next == now && Missing(before, done + {org}) == Missing(before, done)
            else |Missing(before, done + {org})| == |Missing(before, done)| + 1
                 && if dryRun then next == now else WithPartition(now, org) == Some(next)
  {
    var made := Missing(before, done);
    if org in before.parts || org in Orgs(before.default) {
      assert Missing(before, done + {org}) == made;
    } else {
      assert org !in made && Missing(before, done + {org}) == made + {org};
      CreateEmpty(mid, made, org);
    }
  }

  lemma CreatedNone(before: Store, mid: Store, dryRun: bool)
    ensures CreatedFor(before, mid, dryRun, {}) == mid && Missing(before, {}) == {}
  {
    assert Missing(before, {}) == {};
  }

  lemma CreateEmpty(mid: Store, made: set<Uuid>, org: Uuid)
    requires RowsOf(mid.default, org) == {} && org !in mid.parts && org !in made
    ensures WithPartition(WithEmpty(mid, made), org) == Some(WithEmpty(mid, made + {org}))
  {
    assert WithEmpty(mid, made).parts[org := {}] == WithEmpty(mid, made + {org}).parts;
  }
}
