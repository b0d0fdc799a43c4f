# Verified model of the audit ledger, Keycloak replication and idempotent requests

This Dafny project models the stateful core of the service and proves what that
core is relied on for. `dafny verify dfyconfig.toml` checks all of it.

* **Audit ledger** (`CanonicalJson`, `TrailLedger`, `EntryText`, `LedgerProtocol`). Each tenant
  has a hash chain whose tip is a row, `LedgerHead`, locked by every append. The
  canonical text that is hashed is a JSON printer with a reader as its inverse.
  Appends are first modelled alone (`TrailTables`), then as a machine of single
  statements that any number of transactions interleave: lock or seed the head,
  insert, advance, abandon one append, commit, roll back.
* **Ledger storage** (`TrailStorage`, `StorageRuns`). Rows live in per-tenant
  partitions and a DEFAULT partition. Creating, re-homing, archiving, converting
  and reverting are modelled by their effect on rows, and over whole runs the
  partitions refine one flat ledger.
* **Group replication** (`GroupRefs`, `OrgTable`, `GroupForks`, `ResolveRace`,
  `Reconcile`, `TokenLogins`, `MembershipRuns`, `SeatRace`, `GroupMerge`). A Keycloak group is resolved to
  one organization under three unique constraints, alone and under races; a user's
  memberships follow the groups authoritatively at login and incrementally on events,
  one after the other and overlapping; and a migration merges rows that had forked.
* **Event pipeline** (`Projection`, `Webhooks`, `EventPipeline`, `EventOutcomes`,
  `Retries`). Admin events
  are parsed, stored once per event id, enqueued, and applied by workers that may run
  any number of times and may crash between the write and the mark, while logins and
  administrators write the same tables.
* **Idempotent POST** (`Idempotency`). Concurrent requests with an Idempotency-Key,
  and asynchronous jobs dispatched when their transaction commits.

Transactions see committed rows and their own. A step that would have to wait for
another transaction's lock is a step that is not enabled. A unique violation is an
ordinary outcome of a step, not a precondition.

Parameters stand for what is outside: the digest function (collision free and never
empty), `slugify`, the UUID parser, row ids, and the current time. Some
statements in the documentation are stronger than the code, and the model follows
the code:

* `find_organization` says that a group can never fork into an id-only and a path-only
  row, and `_derive_group_path` that a later membership or login event fills in a
  missing path. Two references of a new group lead to one organization exactly when
  both carry the id or both carry the path (`GroupForks.ForkIff`); a sequence of
  references leaves two exactly when an id-only and a path-only one both come before
  the first that carries both (`GroupForks.ForksExactly`), and then no later event or
  login joins them (`GroupForks.EitherOrderForks`; that every group can get there, in
  both orders, is `GroupForks.GroupForksFor`).
* `_normalize_path` is described as canonicalizing a path. Normalising once more changes
  the result exactly when removing trailing slashes uncovers white space
  (`GroupRefs.NormaliseAgainIff`, with an instance in
  `GroupRefs.NormaliseNotIdempotent`).
* `reconcile_user_memberships` promises that re-running it with the same inputs is
  a no-op. That is so exactly when no reference without a key (a path such as `//`,
  which normalises to nothing) created an organization: `Reconcile.LoginAgainIff`,
  `Reconcile.KeyedLoginAgain` and `Reconcile.FewLoginAgainIff`, with an instance in
  `Reconcile.LoginCanWriteAgain`.
* `process_keycloak_admin_event` promises that a projection write is applied at most once
  per event. A worker that dies before the mark makes a retry, and whatever was written in
  between, the retry changes nothing exactly when a unique constraint stops it or the tables
  already say what the event says (`Retries.RetryFreeIff`); otherwise it undoes the later
  write, with an instance in `Retries.RetryReactivates`.
* A join event is said to bring no roles, and a leave removes them. A login that overlaps
  with both can leave roles on a revoked membership, which the next join makes effective
  (`SeatRace.LateHappens`). That takes a membership that appeared after the login began:
  `SeatRace.BareIff` is the exact condition on a run, and a membership that was there before
  is safe in every run (`SeatRace.ExistingRowSerial`).
* The merge migration says that the unique constraint added next cannot fail. That
  is so exactly when, before it runs, the paths of the rows with audit history and of
  those that are nobody's twin are unique: `GroupMerge.UniqueAfterIff`, with an instance
  in `GroupMerge.PathsCanStayShared`.

## Model

| member | source | states |
|---|---|---|
| CanonicalJson.TextRoundTrip | apps/trail/services.py:98-114 | Reading the compact, ASCII-escaped text of a well-formed value, followed by anything a value can be followed by, gives the value back and leaves the rest; `\u` escapes and surrogate pairs included. |
| CanonicalJson.CanonicalRoundTrip | apps/trail/services.py:98-113 | The canonical text reads back as the value with every object's members in key order. |
| CanonicalJson.CanonicalIffSame | apps/trail/services.py:98-113 | Two well-formed values have the same canonical text exactly when they are the same value up to the insertion order of object members, at every depth. |
| CanonicalJson.CompactFormat | apps/trail/services.py:98-113 | Arrays and objects are printed without white space, their parts in order, comma separated, keys quoted and followed by a colon. |
| CanonicalJson.PlainFormat | apps/trail/services.py:98-113 | A string of printable ASCII without quote and backslash is printed as it is, in double quotes. |
| CanonicalJson.EscapeFormat | apps/trail/services.py:98-113 | Every other character without a short escape is printed as `\u` and four lower-case hexadecimal digits of its code, or as a surrogate pair of them. |
| CanonicalJson.ShortFormat | apps/trail/services.py:98-113 | The seven short escapes. |
| CanonicalJson.NumberFormat | apps/trail/services.py:98-113 | Integers are printed in decimal without leading zeros, negative ones with a minus sign. |
| CanonicalJson.KeyLessIs | apps/trail/services.py:111 | Keys are sorted by the first character in which they differ, a proper prefix first. |
| EntryText.HashedText | apps/trail/services.py:85-114 | What is hashed for an entry is exactly its ten members, each value under its key, in key order, comma separated between braces. |
| TrailLedger.CanonicalDetermines | apps/trail/services.py:85-114 | The text that is hashed determines every hashed field of an entry, its sequence and its previous hash, and is determined by them. |
| TrailLedger.HashEntryBinds | apps/trail/services.py:85-114 | Over a collision-free digest, two entry hashes are equal exactly when all hashed fields are. |
| TrailLedger.SameTipSameChain | apps/trail/services.py:41-71 | Two chains that verify link by link and end in the same hash have the same length and agree in every hashed field of every entry. |
| TrailLedger.TamperEvidence | apps/trail/services.py:41-71 | Against the recorded head a candidate history verifies if and only if it agrees with the genuine one in every hashed field. |
| TrailLedger.TamperingDetected | apps/trail/services.py:41-71 | An entry that is missing or differs in a hashed field makes verification against the head fail. |
| TrailLedger.IdAndTimeUncovered | apps/trail/services.py:98-113 | Row id and creation time are outside the hash: rewriting them leaves a verifying chain with the same tip. |
| TrailLedger.AppendExtends | apps/trail/services.py:32-71 | From a sound tenant an append never fails, stores the caller's action under the next sequence, extends that tenant's dense chain by this link, changes no earlier row and leaves every other tenant sound. |
| TrailLedger.HistoryVerifies | apps/trail/services.py:41-71 | The rows of a sound tenant in sequence order verify and end in the head's hash. |
| TrailLedger.TrailTables.AppendTrailEntry | apps/trail/services.py:14-71 | The new row has every argument in its column, the payload as given or `{}` for a falsy one, the next sequence and the hash of the tip; it and the head are the only writes. A unique violation leaves both tables as they were. |
| TrailLedger.TrailTables.Tip | apps/trail/migrations/0002_ledgerhead.py:21-26 | The entry with the greatest sequence of the tenant. |
| TrailLedger.TrailTables.BackfillLedgerHead | apps/trail/migrations/0002_ledgerhead.py:7-34 | Every tenant with entries gets the head of its tip; no other head changes or appears. |
| TrailLedger.BackfillEstablishesLedger | apps/trail/migrations/0002_ledgerhead.py:7-34 | From dense chains, the backfilled heads satisfy the append invariant for every tenant, those without entries included. |
| LedgerProtocol.Serializable | apps/trail/services.py:32-71 | After any interleaving of any transactions the committed ledger is the one its committed appends produce one at a time in commit order, so every tenant's sequences are exactly 1..n, linked, with the head at (n, last hash). |
| LedgerProtocol.UniqueNeverFires | apps/trail/models.py:63-68 | In no reachable state does the next (organization, sequence) collide with a visible row or with another transaction's uncommitted row. |
| LedgerProtocol.CommittedRowsStay | apps/trail/services.py:32-71 | A committed entry is never changed or removed, whatever steps follow. |
| LedgerProtocol.NoLostAppend | apps/trail/services.py:32-71 | In every reachable state a tenant's head has advanced by exactly the number of its committed appends. |
| LedgerProtocol.AppendGoesThrough | apps/trail/services.py:32-71 | From any reachable state, with other transactions open, a transaction that finds its tenant unlocked gets its append through and committed, head row seeded or not. |
| LedgerProtocol.AbandonUndoes | apps/trail/services.py:32-71 | However far an append has come, undoing it to its savepoint leaves the transaction as it was before that append, earlier appends kept, and rolling the transaction back leaves nothing of it. |
| TrailStorage.NamesIdentify | apps/trail/partitioning.py:32-39 | Partition and archive names are the parent's with the tenant's hex digits; they identify their tenants, never clash with each other, the parent or DEFAULT, and fit PostgreSQL's limit. |
| TrailStorage.RoutingAdds | apps/trail/migrations/0004_trailentry_partition.py:87-88 | Inserting through the parent keeps the partition constraints and adds exactly the rows to the logical table and to each tenant. |
| TrailStorage.EnsuredComplete | apps/trail/management/commands/ensure_trail_partitions.py:44-143 | A full run empties DEFAULT, gives every organization a partition, keeps the logical table and each tenant's rows, and a second run changes and reports nothing. |
| TrailStorage.PartitionedTrail.CreatePartition | apps/trail/partitioning.py:42-56 | Nothing happens to an existing partition; creation is refused exactly while DEFAULT holds the tenant's rows. |
| TrailStorage.PartitionedTrail.RehomeOne | apps/trail/management/commands/ensure_trail_partitions.py:128-142 | One tenant's rows move from DEFAULT to its partition, no other row moves, and the count is the number of rows that left DEFAULT. |
| TrailStorage.PartitionedTrail.RehomeDefaultRows | apps/trail/management/commands/ensure_trail_partitions.py:112-143 | The loop moves exactly the listed tenants' rows; a dry run moves none. |
| TrailStorage.PartitionedTrail.EnsureTrailPartitions | apps/trail/management/commands/ensure_trail_partitions.py:44-100 | Both counters and the resulting partitions, for every combination of `--no-rehome` and `--dry-run`. |
| TrailStorage.PartitionedTrail.ArchiveTrailPartition | apps/trail/management/commands/archive_trail_partition.py:72-89 | Detach and rename, or detach and drop; a taken archive name rolls everything back. |
| TrailStorage.PartitionedTrail.ConvertToPartitioned | apps/trail/migrations/0004_trailentry_partition.py:62-94 | The partitioned copy holds exactly the flat table's rows, correctly routed, with one partition per tenant; archived tables are untouched. |
| TrailStorage.PartitionedTrail.RevertToFlat | apps/trail/migrations/0004_trailentry_partition.py:97-119 | The logical rows become the flat table and every partition goes, or the transaction rolls back when a key cannot be added; archived tables stay. When it succeeds and what it returns on reachable stores is `StorageRuns.RevertAfterRuns`. |
| StorageRuns.AppendStores | apps/trail/services.py:32-71 | An append adds its entry to the tenant's live rows and to nothing else. |
| StorageRuns.PartitionEvents | apps/trail/management/commands/ensure_trail_partitions.py:112-143 | Re-homing leaves no DEFAULT row of the tenant and a partition; creating a partition is refused only by DEFAULT rows; neither changes any tenant's rows. |
| StorageRuns.ArchiveTakes | apps/trail/management/commands/archive_trail_partition.py:72-89 | Archiving takes exactly the tenant's rows out of the live table, into its archive unless dropped, or does nothing. |
| StorageRuns.ConvertedIs | apps/trail/migrations/0004_trailentry_partition.py:62-94 | The migrated ledger has a partition with its rows for every listed tenant, all other rows in DEFAULT, and no archive. |
| StorageRuns.StorageRefinesLedger | apps/trail/management/commands/ensure_trail_partitions.py:112-143 | After any run of appends, partition creation, re-homing and archiving, rows are routed correctly and each tenant's live rows are its ledger rows from some point of its chain up to its head. |
| StorageRuns.LedgerIsReplay | apps/trail/services.py:32-71 | However partitions are created, filled and archived meanwhile, the tenants' chains are those a single writer makes with the same appends on a flat table. |
| StorageRuns.NothingLostWithoutDrop | apps/trail/management/commands/archive_trail_partition.py:84-89 | Unless a tenant was archived with `--drop`, its archived and live rows are disjoint and together its whole chain 1..n. |
| StorageRuns.RevertAfterRuns | apps/trail/migrations/0004_trailentry_partition.py:97-119 | After any run, (organization, sequence) never collides in the logical table, so reverting succeeds exactly when the ids of the live rows are pairwise distinct, and it returns exactly every tenant's chain from its floor to its head. |
| StorageRuns.ConvertRevert | apps/trail/migrations/0004_trailentry_partition.py:62-135 | Converting and reverting returns the same rows, routed in between; DEFAULT stays empty exactly when every row's tenant has a partition. |
| GroupRefs.RefsOfItems | apps/identity/org_replication.py:88-96 | A token gives exactly one reference for each string that is not blank, in the order of the items, with the stripped path, the path's last part (or the whole path) as name, and no id. |
| GroupRefs.NormalizedIs | apps/identity/org_replication.py:125-138 | A path loses its surrounding white space and then, if more than one character is left, all trailing slashes and nothing else. |
| GroupRefs.SlugBaseIs | apps/identity/org_replication.py:141-146 | The slug base is `slugify` of the path without its outer slashes and with dashes for the inner ones, or of the name where there is no path; `org` where that is empty; cut at 110 characters. |
| GroupRefs.OrgNameIs | apps/identity/org_replication.py:149-156 | The name given, or the path's last part, or the id, or `Organization`. |
| GroupRefs.SlugIs | apps/identity/org_replication.py:246-247 | The candidates are the base, then the base with -2, -3 and so on in decimal. |
| GroupRefs.NormaliseAgainIff | apps/identity/org_replication.py:125-138 | For every non-empty path, normalising the normalised path leaves it alone exactly when at most one character was left after stripping or removing the slashes uncovers no white space. |
| GroupRefs.NormaliseNotIdempotent | apps/identity/org_replication.py:125-138 | An instance: `/a /` becomes `/a ` and that becomes `/a`. |
| GroupRefs.SlashesNormaliseToNothing | apps/identity/org_replication.py:125-138 | Two or more slashes normalise to the empty path. |
| GroupRefs.SlugsDistinct | apps/identity/org_replication.py:246-247 | The fifty slug candidates are pairwise distinct and at most three characters longer than the base. |
| OrgTable.OrgRows.FindOrganization | apps/identity/org_replication.py:159-190 | The search by id, then path, with its two backfills and their conflict paths, against the `Found` specification. |
| OrgTable.OrgRows.BackfillGroupPath | apps/identity/org_replication.py:211-226 | A missing path is set, or the row that owns it is returned and nothing written. |
| OrgTable.OrgRows.BackfillGroupId | apps/identity/org_replication.py:193-208 | A missing id is set, or the row that owns it is returned and nothing written. |
| OrgTable.OrgRows.ResolveOrCreateOrganization | apps/identity/org_replication.py:229-280 | Finding, creating with the next slug, and recovering after a constraint failure, against the `Resolved` specification. |
| OrgTable.OrgRows.SyncOrganizationFromGroup | apps/identity/org_replication.py:283-311 | Name and path are refreshed, the slug is not, and a rename onto an owned path leaves the table as it was. |
| OrgTable.FoundWhich | apps/identity/org_replication.py:170-226 | Which row a search returns and what it writes, for every table: the id's row, with a missing path filled in, unless another row owns the path, which then wins and nothing is written; else the path's row, with a missing id filled in; nothing exactly when no row has the id or the path. |
| OrgTable.CreatedIs | apps/identity/org_replication.py:229-280 | For a group no row carries: nothing when all fifty slugs are taken, else one new active row with the group's keys and name and the first free slug. |
| OrgTable.SyncIs | apps/identity/org_replication.py:283-311 | A group event sets the name and the path it gives and no other column of no other row, or is refused exactly where another row has the path. |
| OrgTable.ResolvedGrows | apps/identity/org_replication.py:229-280 | Resolving keeps all three constraints, never changes a slug, name or activity, only fills in missing keys, and returns a row that carries the reference's id or path. |
| OrgTable.FoundAgain | apps/identity/org_replication.py:159-190 | A resolved reference with a key is found again as the same row without a write. |
| OrgTable.ResolveAgainIff | apps/identity/org_replication.py:229-280 | Resolving a second time changes nothing exactly when the reference has a key or its slugs are used up. |
| OrgTable.ExhaustedIff | apps/identity/org_replication.py:245-280 | Run alone, creation gives up exactly when all candidates are taken and otherwise uses the first free one. |
| OrgTable.FewOrganizationsSuffice | apps/identity/org_replication.py:245-280 | With fewer than fifty organizations creation never gives up. |
| GroupForks.ForkIff | apps/identity/org_replication.py:159-190 | Of a group that no row carries yet, two references lead to one organization exactly when both carry the id or both carry the path. |
| GroupForks.ForksExactly | apps/identity/org_replication.py:159-280 | Over any sequence of references to such a group, none of which runs out of slugs, it ends with two organizations exactly when an id-only and a path-only reference both precede the first one with both, and otherwise with one. |
| GroupForks.EitherOrderForks | apps/identity/org_replication.py:211-226 | From any table without the group: whichever of the two comes first, no sequence of later references joins the two organizations, also not ones that carry both. |
| GroupForks.GroupForksFor | apps/identity/webhooks.py:268-283 | For every group and any table without it that has slugs to spare, an event without a path and a login with the path, in either order, leave two organizations, also after an event with both. |
| OrgTable.SyncAgain | apps/identity/org_replication.py:283-311 | Applying the same group event twice is applying it once. |
| OrgTable.ConflictWritesNothing | apps/identity/org_replication.py:298-310 | When the rename fails, nothing had been written before it. |
| ResolveRace.NoFork | apps/identity/org_replication.py:159-280 | In any interleaving of queries, backfills, inserts, constraint failures, recoveries, commits and rollbacks, with references that carry a group's path and perhaps its id, each group has at most one organization row, every committed resolver that returned a row returned that one, and transactions still open agree with each other. |
| ResolveRace.RollbackUndoes | apps/identity/org_replication.py:229-280 | Whatever a transaction has looked up, filled and created, rolling it back leaves the committed rows, the other transactions and the answers given as they were. |
| ResolveRace.ResolvesAlone | apps/identity/org_replication.py:159-280 | With nobody else around the statements of the concurrent machine leave the table and return the row that the resolver run alone does, backfills, clashes and slug retries included. |
| Reconcile.Directory.SyncMembershipRoles | apps/identity/org_replication.py:321-344 | Roles become exactly the codes with pruning, or gain them without, and are left alone on an inactive membership or organization or an expired membership. |
| Reconcile.Directory.ReconcileUserMemberships | apps/identity/org_replication.py:347-426 | The two loops against a set specification of the whole table, and both result sets. |
| Reconcile.Directory.ReconcileFromClaims | apps/identity/org_replication.py:429-444 | An absent or malformed groups claim changes nothing; otherwise the login reconciles authoritatively. |
| Reconcile.Directory.ApplyGroupMembershipChange | apps/identity/org_replication.py:447-494 | One group is joined or left; manual rows are skipped; a join assigns no roles and a leave drops them. |
| Reconcile.LoginAgainIff | apps/identity/org_replication.py:347-426 | The same references reconciled again, at any later time, change no table exactly when no reference without a key had a free slug. |
| Reconcile.TokenAgainIff | apps/identity/org_replication.py:429-444 | The same for a token, whatever its groups claim is. |
| Reconcile.KeyedLoginAgain | apps/identity/org_replication.py:356-361 | If every path of the token normalises to something, the same login at any later time changes no table. |
| Reconcile.FewLoginAgainIff | apps/identity/org_replication.py:356-361 | With at most fifty organizations and references together, that condition is also necessary. |
| Reconcile.LoginCanWriteAgain | apps/identity/org_replication.py:356-361 | With the group path `//`, on empty tables, a second login writes again. |
| TokenLogins.TokenDecides | apps/identity/org_replication.py:347-444 | What a login makes of every membership row, from the claim's items: that of each organization whose path some item normalises to, and of each new one, is active with the token's roles (as they were where the organization is inactive or the membership expired); the user's others are revoked without roles; manual ones and other users' stay. |
| TokenLogins.TokenCreates | apps/identity/org_replication.py:71-96 | Every organization a login creates is active, made for one of the items, with its path, its last part as name and no id; while slugs cannot run out every listed path has an organization afterwards. |
| TokenLogins.ChangeDecides | apps/identity/org_replication.py:447-494 | A join makes one membership active, without giving it roles, a leave revokes it without roles; no other row changes. |
| TokenLogins.NoClaimNothing | apps/identity/org_replication.py:84-88 | Without a usable claim a login changes nothing. |
| MembershipRuns.LastStepDecides | apps/identity/org_replication.py:347-494 | Whatever ran before, the login, join, leave or group event that comes last has that outcome. |
| MembershipRuns.LoginDecides | apps/identity/org_replication.py:363-414 | After a login the user's active group-derived organizations are the token's without the manual ones, and every other group-derived row is revoked and has no roles. |
| MembershipRuns.HistoryForgotten | apps/identity/org_replication.py:363-414 | Two states that agree on organizations and manual rows have the same active organizations after the same login, whatever the earlier statuses. |
| MembershipRuns.IncrementalAgrees | apps/identity/org_replication.py:447-494 | Folding any join and leave events keeps the active group-derived memberships equal to the folded group set. |
| MembershipRuns.EventsThenLogin | apps/identity/org_replication.py:347-494 | After any such events, a login with the folded group set changes no status, no organization and no set of memberships. |
| MembershipRuns.ManualRowsSurvive | apps/identity/org_replication.py:393-414 | Over every run of logins, membership events and group events, no membership row is deleted, manual rows do not change at all, and group-derived rows are active, or revoked without roles. |
| SeatRace.AloneIsEffect | apps/identity/org_replication.py:347-495 | A login, join or leave that runs alone makes of the row what its effect says. |
| SeatRace.EffectIsShare | apps/identity/org_replication.py:347-426 | One membership's share of a whole login, join or leave is the effect that the concurrent machine runs on its row. |
| SeatRace.ExistingRowSerial | apps/identity/org_replication.py:369-408 | In every interleaving of logins, joins, leaves and rollbacks, a membership that was there before ends up as after running the transactions that got through one at a time, each once; a manual one is left alone. |
| SeatRace.BareIff | apps/identity/org_replication.py:384-408 | A revoked membership carries no role at any point of a run, committed or pending, exactly when no login wrote roles to a row that it read active without a lock and that was revoked since. |
| SeatRace.LateNotSerial | apps/identity/org_replication.py:384-408 | Once such a login commits, no order of any of the transactions explains the row. |
| SeatRace.LateHappens | apps/identity/org_replication.py:447-495 | An instance: the roles stay on the revoked membership and the next join makes them effective. |
| GroupMerge.MergeTables.MoveSeats | apps/identity/migrations/0006_organization_keycloak_group_path_unique.py:42-56 | Each membership of the twin is repointed, or dropped where the canonical row already has its user. |
| GroupMerge.MergeTables.AbsorbTwins | apps/identity/migrations/0006_organization_keycloak_group_path_unique.py:31-59 | Exactly the twins without audit history are absorbed, earliest first, none with memberships left when it is deleted, and the adopted path is the first one's; it breaks off exactly when one of them is protected by another table. |
| GroupMerge.MergeTables.MergeOne | apps/identity/migrations/0006_organization_keycloak_group_path_unique.py:30-70 | One canonical row: its twins, then its path unless another row holds it. |
| GroupMerge.MergeTables.MergeDuplicateGroupOrgs | apps/identity/migrations/0006_organization_keycloak_group_path_unique.py:6-70 | Over the columns: the rows deleted are exactly those without audit history and id, with a path, for which a row of the same name with an id and no path exists; a membership moves only from such a row to such a one of its name, whose path may become the deleted row's; nothing else changes. It aborts, and undoes everything, exactly when another table protects a row to be deleted. |
| GroupMerge.OtherNamesStay | apps/identity/migrations/0006_organization_keycloak_group_path_unique.py:30-35 | An organization of whose name there is no row with an id and no path keeps its row and its memberships. |
| GroupMerge.ReplayMerges | apps/identity/migrations/0006_organization_keycloak_group_path_unique.py:39-59 | Whatever twins are absorbed in whatever order, (organization, user) stays unique, every user keeps a seat at the row that absorbed theirs, and no other membership moves or disappears. |
| GroupMerge.MergedUsers | apps/identity/migrations/0006_organization_keycloak_group_path_unique.py:42-56 | A surviving row's users are its own and those of the twins it absorbed, no more and no fewer. |
| GroupMerge.ProtectedStay | apps/identity/migrations/0006_organization_keycloak_group_path_unique.py:39-41 | No canonical row and no organization with audit history is deleted or has a membership changed. |
| GroupMerge.NoneDangling | apps/identity/migrations/0006_organization_keycloak_group_path_unique.py:42-59 | Every membership still points at an existing organization. |
| GroupMerge.UniqueAfterIff | apps/identity/migrations/0006_organization_keycloak_group_path_unique.py:60-70 | The rows left are those with audit history and those that are nobody's twin, and the paths are unique afterwards exactly when the paths of these rows were unique before. |
| GroupMerge.PathsCanStayShared | apps/identity/migrations/0006_organization_keycloak_group_path_unique.py:60-70 | Two rows with ids that share a path are both left as they are. |
| GroupMerge.EarliestPathTaken | apps/identity/migrations/0006_organization_keycloak_group_path_unique.py:57-70 | Where paths were unique, an absorbing row takes the path of its earliest absorbed twin and changes in nothing else. |
| Projection.DisplayNameIff | apps/identity/replication.py:64-85 | An admin event gives no display name exactly when both names are absent or blank. |
| Projection.EventRow | apps/identity/replication.py:64-176 | Which key of an admin event's representation ends up in which column of the user's row, a new user's first values included; the upsert writes only that row and fails exactly when its username is another user's. |
| Projection.TokenRow | apps/identity/replication.py:48-176 | The same for the claims of a token, which never change a user's activity. |
| Projection.User.ApplyProjection | apps/identity/replication.py:88-133 | The row afterwards, and exactly the changed columns in order. |
| Projection.DifferencesExact | apps/identity/replication.py:88-133 | The returned list names a column exactly when it changed, and is empty exactly when nothing did. |
| Projection.Coalesced | apps/identity/replication.py:88-133 | Any sequence of snapshots applied one after the other equals their right-biased merge applied once. |
| Projection.LastOneWins | apps/identity/replication.py:88-133 | Column by column the result is the last value any snapshot gave, an empty username or e-mail counting as none. |
| Projection.MergeAssociative | apps/identity/replication.py:88-133 | Merging snapshots is associative. |
| Projection.LoginsNeverActivate | apps/identity/replication.py:48-62 | No sequence of login snapshots changes whether a user is active. |
| Projection.UserTable.UpsertUserProjection | apps/identity/replication.py:136-176 | Create or update by subject, with the outcome and the whole table in every case; a username held by someone else rolls everything back. |
| Projection.UserTable.DeactivateUserProjection | apps/identity/replication.py:179-210 | Only the activity of that user changes, the result says whether it did, and an empty subject is an error. |
| Projection.UpsertKeepsUnique | apps/identity/replication.py:136-176 | Usernames stay unique over upserts that succeed. |
| Projection.UpsertsCoalesce | apps/identity/replication.py:136-163 | For a known user, after an upsert that succeeded, a second one succeeds exactly when one upsert of the merged snapshots does, with the same table. |
| Projection.NewUserCoalescesIff | apps/identity/replication.py:152-163 | For a new user whose first upsert succeeded this holds, username collisions included, exactly when a username is given in either snapshot or the seed e-mail does not change. |
| Webhooks.StoredEventsHaveKeys | apps/identity/webhooks.py:414-476 | Whatever the payload, a stored event has the payload's event id, the kind of its resource type, its operation in upper case and one of its kind, and the user or group ids the worker relies on; group events are stored only when organizations are replicated. |
| Webhooks.MembershipStored | apps/identity/webhooks.py:210-254 | The whole row of a membership event of `users/u/groups/g`, whatever slashes surround the parts: user u, group g (or `groups` where that is the user's id), path and name; for any other operation none. |
| Webhooks.UserStored | apps/identity/webhooks.py:170-207 | The whole row of a user event: the user of the representation or else of the path, the operation and the representation. |
| Webhooks.TopLevelStored | apps/identity/webhooks.py:257-328 | The whole row of a top-level group's event: id, name, and the path given or derived. |
| Webhooks.ChildStored | apps/identity/webhooks.py:147-167 | The whole row of a subgroup's event, whose resource path names the parent. |
| Webhooks.ParsersExclusive | apps/identity/webhooks.py:424-476 | At most one of the three parsers accepts a payload. |
| Webhooks.TwoSegments | apps/identity/webhooks.py:160-165 | A resource path of two parts has exactly these two segments, however many slashes surround them. |
| Webhooks.TopLevelPathDerived | apps/identity/webhooks.py:257-283 | The create event of a top-level group without a path is stored with the path `/name`, whatever the case of its operation, the field its id comes in, and the slashes of its resource path. |
| Webhooks.GroupEventThenLogin | apps/identity/webhooks.py:257-283 | Once a group event with a path is applied, a login with that path reaches the same organization, without creating or writing anything. |
| EventPipeline.Pipeline.KeycloakEvents | apps/identity/webhooks.py:387-411 | A new event is stored and enqueued once; a duplicate or ignored one changes nothing. |
| EventPipeline.Pipeline.ProcessKeycloakAdminEvent | apps/identity/tasks.py:30-138 | One worker run on the ledger and all replicated tables and the status it reports, with its skips, exceptions, the crash inside a group event and the crash between the write and the mark. |
| EventOutcomes.UserDoes | apps/identity/tasks.py:62-83 | A user event writes its representation into the user's row and no other, or deactivates a known user; it raises exactly when the username is another user's, and is marked with an error when it names nobody. |
| EventOutcomes.MembershipDoes | apps/identity/tasks.py:111-138 | A membership event of a known user joins or leaves the group of the row's id, path and name and does nothing else; that of an unknown user does nothing, and that of nobody is marked with an error. |
| EventOutcomes.GroupDoes | apps/identity/tasks.py:90-108 | A group event gives the organization of the row's id and path its name and path, or raises, and changes nothing else. |
| EventOutcomes.DeliveredThenWorked | apps/identity/webhooks.py:387-411 | A new delivery is stored and enqueued once, and its worker applies it to whatever tables there are by then and marks it unless it raises. |
| EventOutcomes.LostForGood | apps/identity/webhooks.py:395-411 | An event stored but lost before it was enqueued stays in the ledger and is never enqueued, because its redeliveries count as duplicates. |
| EventPipeline.EffectTwice | apps/identity/tasks.py:42-83 | Applying a stored event again with nothing in between leaves users, organizations and memberships as they are. |
| EventPipeline.RunsAreOneRun | apps/identity/tasks.py:42-88 | Any number of consecutive runs of one event, dying anywhere or not at all, leaves the tables of a single run as soon as one gets through its effect, and the event is marked exactly when a run that did not raise reached its mark. |
| EventPipeline.PipelineSafe | apps/identity/webhooks.py:395-411 | Over all deliveries, losses, worker runs and outside writes, ledger rows keep what was first stored, processed rows are never written again, and an event id is enqueued at most once and only after its row exists. |
| EventPipeline.ProcessedForGood | apps/identity/tasks.py:49-50 | Once processed, an event's later runs and deliveries change nothing, whatever happened in between. |
| Retries.EffectFreeIff | apps/identity/tasks.py:56-83 | A stored event raises exactly when a unique constraint stands against it (its path is another organization's, its username another user's), and otherwise changes nothing exactly when the tables already say what it says, kind by kind. |
| Retries.RetryFreeIff | apps/identity/tasks.py:42-88 | After a run that died anywhere and then any deliveries, worker runs and outside writes, a retry leaves users, organizations and memberships alone exactly when the event is marked, is stopped by a unique constraint, or is what the tables already say. |
| Retries.AppliedIsReflected | apps/identity/tasks.py:42-83 | Right after an effect that went through the tables say what the event says, so only a later write can make a retry write. |
| Retries.RetryReactivates | apps/identity/tasks.py:42-83 | An instance: a retry after a crash undoes a deactivation made in between. |
| Idempotency.IdempotentViews.Handle | apps/platform/idempotency.py:32-98 | One request run alone: only POSTs are looked at, blank and unreadable keys are refused, a known organization and UUID replays its record to the same path and conflicts otherwise, and a first response is stored, wrapped in `data` if it is no object, with its job. |
| Idempotency.SecondCall | apps/platform/idempotency.py:32-98 | Sending a request again replays the first response's status and body; with another path it is refused. |
| Idempotency.ToldByRecord | apps/platform/idempotency.py:32-98 | In every reachable state whoever was told something had sent a POST and was refused for its key or told what the one record of its organization and UUID says. |
| Idempotency.AloneIsHandled | apps/platform/idempotency.py:57-89 | The concurrent machine, run with one request, has the records, the jobs and the reply of the wrapper, and has its dispatch pending. |
| Idempotency.ClaimWaitsIff | apps/platform/idempotency.py:57-65 | A request without a record waits exactly while another one of its organization and UUID has inserted the record and not ended. |
| Idempotency.RollbackUndoes | apps/platform/idempotency.py:57-89 | A request whose transaction is rolled back leaves no record, job, dispatch or reply, so the next one with its key is the first. |
| Idempotency.AtMostOnce | apps/platform/idempotency.py:57-89 | Over any interleaving of concurrent, repeated and rolled-back requests the view's work is committed at most once per organization and UUID, and exactly once where a record exists. |
| Idempotency.RepliesAgree | apps/platform/idempotency.py:63-98 | Over any run, a replay carries the status and the body of the response the first sender got, wrapped if it was no object; requests with one key and path are answered alike, and one with another path than the first is refused. |
| Idempotency.OneJobOneDispatch | apps/platform/views.py:59-92 | There is at most one job per organization and UUID, it is dispatched at most once, and only after it was committed. |
| Idempotency.DispatchedUnlessLost | apps/platform/views.py:68-87 | In every reachable state a committed job whose dispatch was not lost has been sent once or is sent by its pending dispatch. |
| Idempotency.LostForGood | apps/platform/views.py:68-87 | A dispatch lost after the commit is never made up for, whatever requests and replays follow. |

## Left out

- SHA-256 is a parameter that is assumed collision free and never empty; HMAC, JWT and JWKS checks are not modelled.
- Payloads are null, booleans, integers, strings of Unicode scalar values, arrays and string-keyed objects; floats, NaN and other keys are not modelled.
- `slugify` and `uuid.UUID` are parameters; `str.upper` is modelled on ASCII letters, which decide all operation names.
- Column length limits other than the slug's, and integer widths of sequences and status codes, are not modelled.
- Row ids, timestamps and the current time are parameters; `updated_at` columns are not modelled.
- DRF, middleware, error envelopes, row-level security, Celery scheduling and logging are not modelled.
- Role rows and their names, P7 scope checks and capability tables are not modelled; a role is its code.
- `parse_role_codes_from_claims` is not modelled; the mapped codes are an input of the login.
- TrailStorage.PartitionedTrail.RehomeOne: one tenant's re-homing transaction is one atomic step, because the code takes no lock between copying and deleting.
- StorageRuns.StorageRefinesLedger: appends are whole transactions here; their statement-level interleaving is in `LedgerProtocol`.
- TrailStorage: a table is a set of rows and a partition is keyed by its tenant; indexes and storage parameters are not modelled.
- ResolveRace.NoFork: references with only an id, and renames by group events, are outside the assumption; when they fork a group is `GroupForks.ForksExactly`, for calls that run alone.
- GroupForks.ForksExactly: assumes that no call runs out of slugs, which holds below fifty organizations (`GroupForks.FewAllResolved`); renames by group events are outside it.
- OrgTable, GroupForks, Reconcile: each call runs alone here; only `resolve_or_create_organization` is also modelled under races.
- MembershipRuns: logins and events are whole steps; their overlap is `SeatRace`, one membership at a time.
- SeatRace: the organization is already resolved, a login's writes under a lock are one step, and two logins that read the same row without a lock write its roles one after the other (in the database their role sets could mix).
- MembershipRuns.IncrementalAgrees: assumes one path and one id per group, references with that path, and joins that do not meet used-up slugs.
- GroupMerge: which other tables protect an organization (findings do) is the set `held`, an input.
- GroupMerge.MergeTables.MergeDuplicateGroupOrgs: requires (organization, user) to be unique before, which the table's constraint guarantees.
- Webhooks: a representation given as text is taken as already decoded; the event type, which is only logged, is not modelled.
- EventPipeline: one worker run reads, writes and marks without another run in between, except where it dies; the unauthenticated and unconfigured answers of the webhook are not modelled.
- Idempotency: a view's effect is its response and at most one asynchronous job; `AsyncJob.status`, which redelivery can move backwards, is not modelled.
