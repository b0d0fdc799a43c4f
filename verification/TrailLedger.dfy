/** The audit ledger of `apps/trail/services.py`: entries, the hash that chains them, the
    tables they live in, and what a verified chain proves about its entries. */
module TrailLedger {
  import opened Basics
  import opened CanonicalJson

  // ------------------------------------------------------------ identifiers

  predicate IsHex32(u: string) {
    |u| == 32 && forall i :: 0 <= i < 32 ==> '0' <= u[i] <= '9' || 'a' <= u[i] <= 'f'
  }

  type Hex32 = u: string | IsHex32(u) witness seq(32, _ => '0')

  /** A UUID, held as its 32 hexadecimal digits (`UUID.hex`). */
  datatype Uuid = Uuid(hex: Hex32)

  /** `str(uuid)`: the digits in groups of 8, 4, 4, 4 and 12. */
  function UuidText(id: Uuid): string {
    var u := id.hex;
    u[..8] + "-" + u[8..12] + "-" + u[12..16] + "-" + u[16..20] + "-" + u[20..]
  }

  lemma UuidTextParts(id: Uuid)
    ensures var s := UuidText(id); |s| == 36 && s[8] == s[13] == s[18] == s[23] == '-'
    ensures var s := UuidText(id);
            id.hex == s[..8] + s[9..13] + s[14..18] + s[19..23] + s[24..]
  {
    var s, u := UuidText(id), id.hex;
    assert s[..8] == u[..8] && s[9..13] == u[8..12] && s[14..18] == u[12..16];
    assert s[19..23] == u[16..20] && s[24..] == u[20..];
    assert u == u[..8] + u[8..12] + u[12..16] + u[16..20] + u[20..];
  }

  lemma UuidTextInjective(u: Uuid, v: Uuid)
    requires UuidText(u) == UuidText(v)
    ensures u == v
  {
    UuidTextParts(u);
    UuidTextParts(v);
  }

  // ---------------------------------------------------------------- hashing

  /** What an append records: the caller's arguments, the payload already defaulted. */
  datatype Action = Action(
    organization: Uuid, actorId: int, actorEmail: string, actorDisplayName: string,
    action: string, targetEntity: string, targetId: Uuid, payload: Json)

  datatype Entry = Entry(
    id: Uuid, action: Action, sequence: nat, previousHash: string, entryHash: string, createdAt: int)

  /** `LedgerHead`: the materialised tip of one tenant's chain. */
  datatype Head = Head(sequence: nat, hash: string)

  const EMPTY_HEAD := Head(0, "")

  /** The hash function is a parameter throughout. All that is used of it is that it does not
      collide and never yields the empty string, which stands for "no previous entry". */
  ghost predicate CollisionFree(h: string -> string) {
    && (forall x, y :: h(x) == h(y) ==> x == y)
    && (forall x :: h(x) != "")
  }

  /** Python truthiness of a JSON value. */
  predicate IsTrue(json: Json) {
    match json
    case Null => false
    case Bool(b) => b
    case Num(n) => n != 0
    case Str(s) => s != ""
    case Arr(items) => items != []
    case Obj(members) => members != []
  }

  /** `payload or {}`. */
  function EntryPayload(payload: Option<Json>): Json {
    if payload.Some? && IsTrue(payload.value) then payload.value else Obj([])
  }

  /** The keys of the dict `_hash_entry` serialises, in its source order, ... */
  const HASH_KEYS: seq<string> := [
    "organization_id", "actor_id", "actor_email_snapshot", "actor_display_name_snapshot", "action",
    "target_entity", "target_id", "payload", "sequence", "previous_hash"]

  /** ... the values it puts under them, ... */
  function HashValues(a: Action, sequence: nat, previousHash: string): (r: seq<Json>)
    ensures |r| == 10
  {
    [Str(UuidText(a.organization)), Num(a.actorId), Str(a.actorEmail), Str(a.actorDisplayName), Str(a.action),
     Str(a.targetEntity), Str(UuidText(a.targetId)), a.payload, Num(sequence), Str(previousHash)]
  }

  /** ... and the dict itself. */
  function HashObject(a: Action, sequence: nat, previousHash: string): Json {
    Obj(Zip(HASH_KEYS, HashValues(a, sequence, previousHash)))
  }

  function Zip(keys: seq<string>, values: seq<Json>): (r: seq<Member>)
    requires |keys| == |values|
    ensures |r| == |keys| && forall i :: 0 <= i < |r| ==> r[i] == Member(keys[i], values[i])
  {
    seq(|keys|, i requires 0 <= i < |keys| => Member(keys[i], values[i]))
  }

  function HashEntry(h: string -> string, a: Action, sequence: nat, previousHash: string): string {
    h(Canonical(HashObject(a, sequence, previousHash)))
  }

  /** Equal in every hashed field; payload dicts may differ in insertion order only. */
  ghost predicate SameAction(a: Action, b: Action) {
    a.(payload := Null) == b.(payload := Null) && SameValue(a.payload, b.payload)
  }

  ghost predicate Distinct(keys: seq<string>) {
    forall i, j :: 0 <= i < j < |keys| ==> keys[i] != keys[j]
  }

  lemma HashKeysDistinct()
    ensures Distinct(HASH_KEYS)
  {
    var ks := HASH_KEYS;
    assert |ks[0]| == 15 && |ks[1]| == 8 && |ks[2]| == 20 && |ks[3]| == 27 && |ks[4]| == 6;
    assert |ks[5]| == 13 && |ks[6]| == 9 && |ks[7]| == 7 && |ks[8]| == 8 && |ks[9]| == 13;
    assert ks[1][0] != ks[8][0] && ks[5][0] != ks[9][0];
  }

  lemma HashObjectWellFormed(a: Action, sequence: nat, previousHash: string)
    requires WellFormed(a.payload)
    ensures WellFormed(HashObject(a, sequence, previousHash))
  {
    HashKeysDistinct();
    var values := HashValues(a, sequence, previousHash);
    forall i | 0 <= i < 10 ensures WellFormed(values[i]) {}
  }

  /** Objects over the same distinct keys are the same exactly when they agree value by value. */
  lemma SameZip(keys: seq<string>, vs: seq<Json>, ws: seq<Json>)
    requires |keys| == |vs| == |ws| && Distinct(keys)
    ensures SameValue(Obj(Zip(keys, vs)), Obj(Zip(keys, ws)))
       <==> forall i :: 0 <= i < |vs| ==> SameValue(vs[i], ws[i])
  {
    var ms, ns := Zip(keys, vs), Zip(keys, ws);
    forall i | 0 <= i < |vs| ensures SameMember(ms[i], ns) <==> SameValue(vs[i], ws[i]) {
      if SameMember(ms[i], ns) {
        var j :| 0 <= j < |ns| && ns[j].key == ms[i].key && SameValue(ms[i].value, ns[j].value);
        assert i == j;
      }
      assert ns[i].key == ms[i].key;
    }
    assert SameValue(Obj(ms), Obj(ns)) ==> forall i :: 0 <= i < |vs| ==> SameMember(ms[i], ns);
  }

  /** The ten hashed values agree exactly when the hashed fields do. */
  lemma SameFields(a: Action, p: nat, x: string, b: Action, q: nat, y: string)
    ensures (forall i :: 0 <= i < 10 ==> SameValue(HashValues(a, p, x)[i], HashValues(b, q, y)[i]))
       <==> SameAction(a, b) && p == q && x == y
  {
    if forall i :: 0 <= i < 10 ==> SameValue(HashValues(a, p, x)[i], HashValues(b, q, y)[i]) {
      FieldsFromValues(a, p, x, b, q, y);
    }
  }

  lemma FieldsFromValues(a: Action, p: nat, x: string, b: Action, q: nat, y: string)
    requires forall i :: 0 <= i < 10 ==> SameValue(HashValues(a, p, x)[i], HashValues(b, q, y)[i])
    ensures SameAction(a, b) && p == q && x == y
  {
    var vs, ws := HashValues(a, p, x), HashValues(b, q, y);
    assert SameValue(vs[0], ws[0]) && SameValue(vs[1], ws[1]) && SameValue(vs[2], ws[2]);
    assert SameValue(vs[3], ws[3]) && SameValue(vs[4], ws[4]) && SameValue(vs[5], ws[5]);
    assert SameValue(vs[6], ws[6]) && SameValue(vs[7], ws[7]) && SameValue(vs[8], ws[8]) && SameValue(vs[9], ws[9]);
    UuidTextInjective(a.organization, b.organization);
    UuidTextInjective(a.targetId, b.targetId);
  }

  /** The canonical text of the hashed dict determines every hashed field, up to dict order. */
  lemma CanonicalDetermines(a: Action, p: nat, x: string, b: Action, q: nat, y: string)
    requires WellFormed(a.payload) && WellFormed(b.payload)
    ensures Canonical(HashObject(a, p, x)) == Canonical(HashObject(b, q, y))
       <==> SameAction(a, b) && p == q && x == y
  {
    HashObjectWellFormed(a, p, x);
    HashObjectWellFormed(b, q, y);
    CanonicalIffSame(HashObject(a, p, x), HashObject(b, q, y));
    HashKeysDistinct();
    SameZip(HASH_KEYS, HashValues(a, p, x), HashValues(b, q, y));
    SameFields(a, p, x, b, q, y);
  }

  /** What chaining uses: a hash of (action, sequence, previous hash). */
  type EntryHash = (Action, nat, string) -> string

  /** `_hash_entry` over a digest function `h`. */
  function HashEntryWith(h: string -> string): EntryHash {
    (a: Action, sequence: nat, previousHash: string) => HashEntry(h, a, sequence, previousHash)
  }

  /** The hash determines every hashed field, and nothing else enters it. */
  ghost predicate Binding(hash: EntryHash) {
    && (forall a: Action, p: nat, x: string :: hash(a, p, x) != "")
    && (forall a: Action, p: nat, x: string, b: Action, q: nat, y: string :: WellFormed(a.payload) && WellFormed(b.payload) ==>
          BoundTogether(hash, a, p, x, b, q, y))
  }

  ghost predicate BoundTogether(hash: EntryHash, a: Action, p: nat, x: string, b: Action, q: nat, y: string) {
    hash(a, p, x) == hash(b, q, y) <==> SameAction(a, b) && p == q && x == y
  }

  /** Over a collision-free digest, hashing the canonical text binds. */
  lemma HashEntryBinds(h: string -> string)
    requires CollisionFree(h)
    ensures Binding(HashEntryWith(h))
  {
    forall a: Action, p: nat, x: string, b: Action, q: nat, y: string | WellFormed(a.payload) && WellFormed(b.payload)
      ensures BoundTogether(HashEntryWith(h), a, p, x, b, q, y)
    {
      CanonicalDetermines(a, p, x, b, q, y);
    }
  }

  // --------------------------------------------------------- tamper evidence

  /** What an auditor recomputes: each link and each hash, trusting no stored field. */
  ghost predicate Verifies(hash: EntryHash, xs: seq<Entry>) {
    forall i :: 0 <= i < |xs| ==> LinkOk(hash, xs, i)
  }

  ghost predicate LinkOk(hash: EntryHash, xs: seq<Entry>, i: nat)
    requires i < |xs|
  {
    && WellFormed(xs[i].action.payload)
    && xs[i].previousHash == TipHash(xs[..i])
    && xs[i].entryHash == hash(xs[i].action, xs[i].sequence, xs[i].previousHash)
  }

  function TipHash(xs: seq<Entry>): string {
    if xs == [] then "" else xs[|xs| - 1].entryHash
  }

  /** Equal in everything the hash covers. The row id and the creation time are not covered. */
  ghost predicate SameHashed(e: Entry, f: Entry) {
    && SameAction(e.action, f.action) && e.sequence == f.sequence
    && e.previousHash == f.previousHash && e.entryHash == f.entryHash
  }

  lemma BoundBy(hash: EntryHash, a: Action, p: nat, x: string, b: Action, q: nat, y: string)
    requires Binding(hash) && WellFormed(a.payload) && WellFormed(b.payload)
    ensures hash(a, p, x) == hash(b, q, y) <==> SameAction(a, b) && p == q && x == y
  {
    assert BoundTogether(hash, a, p, x, b, q, y);
  }

  lemma VerifiesPrefix(hash: EntryHash, xs: seq<Entry>)
    requires Verifies(hash, xs) && xs != []
    ensures Verifies(hash, xs[..|xs| - 1]) && TipHash(xs[..|xs| - 1]) == xs[|xs| - 1].previousHash
  {
    var ys := xs[..|xs| - 1];
    forall i | 0 <= i < |ys| ensures LinkOk(hash, ys, i) {
      assert LinkOk(hash, xs, i) && xs[..i] == ys[..i];
    }
    assert LinkOk(hash, xs, |xs| - 1);
  }

  /** Two chains that verify and end in the same hash are the same chain. */
  lemma {:induction false} SameTipSameChain(hash: EntryHash, xs: seq<Entry>, ys: seq<Entry>)
    requires Binding(hash) && Verifies(hash, xs) && Verifies(hash, ys) && TipHash(xs) == TipHash(ys)
    ensures |xs| == |ys| && forall i :: 0 <= i < |xs| ==> SameHashed(xs[i], ys[i])
  {
    if xs != [] { assert LinkOk(hash, xs, |xs| - 1); }
    if ys != [] { assert LinkOk(hash, ys, |ys| - 1); }
    if xs != [] && ys != [] {
      var x, y := xs[|xs| - 1], ys[|ys| - 1];
      BoundBy(hash, x.action, x.sequence, x.previousHash, y.action, y.sequence, y.previousHash);
      VerifiesPrefix(hash, xs);
      VerifiesPrefix(hash, ys);
      SameTipSameChain(hash, xs[..|xs| - 1], ys[..|ys| - 1]);
    }
  }

  /** Tamper evidence: against the recorded head, a candidate history verifies exactly when it
      agrees with the genuine one on every hashed field of every entry. */
  lemma {:induction false} TamperEvidence(hash: EntryHash, genuine: seq<Entry>, candidate: seq<Entry>)
    requires Binding(hash) && Verifies(hash, genuine)
    requires forall e :: e in candidate ==> WellFormed(e.action.payload)
    ensures (Verifies(hash, candidate) && TipHash(candidate) == TipHash(genuine))
       <==> (|candidate| == |genuine| && forall i :: 0 <= i < |genuine| ==> SameHashed(genuine[i], candidate[i]))
  {
    if Verifies(hash, candidate) && TipHash(candidate) == TipHash(genuine) {
      SameTipSameChain(hash, genuine, candidate);
    }
    if |candidate| == |genuine| && forall i :: 0 <= i < |genuine| ==> SameHashed(genuine[i], candidate[i]) {
      forall i: nat | i < |candidate| ensures LinkOk(hash, candidate, i) {
        SameHashedLink(hash, genuine, candidate, i);
      }
    }
  }

  lemma SameHashedLink(hash: EntryHash, xs: seq<Entry>, ys: seq<Entry>, i: nat)
    requires Binding(hash) && |xs| == |ys| && i < |xs| && LinkOk(hash, xs, i) && WellFormed(ys[i].action.payload)
    requires forall k :: 0 <= k < |xs| ==> SameHashed(xs[k], ys[k])
    ensures LinkOk(hash, ys, i)
  {
    assert SameHashed(xs[i], ys[i]);
    if i > 0 {
      assert SameHashed(xs[i - 1], ys[i - 1]);
      assert xs[..i][i - 1] == xs[i - 1] && ys[..i][i - 1] == ys[i - 1];
    }
    BoundBy(hash, xs[i].action, xs[i].sequence, xs[i].previousHash, ys[i].action, ys[i].sequence, ys[i].previousHash);
  }

  /** Every single edit, deletion, insertion or swap of hashed content breaks verification. */
  lemma TamperingDetected(hash: EntryHash, genuine: seq<Entry>, candidate: seq<Entry>, i: nat)
    requires Binding(hash) && Verifies(hash, genuine)
    requires i < |genuine| && (i >= |candidate| || !SameHashed(genuine[i], candidate[i]))
    ensures !Verifies(hash, candidate) || TipHash(candidate) != TipHash(genuine)
  {
    if Verifies(hash, candidate) && TipHash(candidate) == TipHash(genuine) {
      SameTipSameChain(hash, genuine, candidate);
      assert false;
    }
  }

  /** The row id and the creation time can be rewritten without any hash noticing. */
  lemma IdAndTimeUncovered(hash: EntryHash, xs: seq<Entry>, i: nat, id: Uuid, createdAt: int)
    requires Verifies(hash, xs) && i < |xs|
    ensures var ys := xs[i := xs[i].(id := id, createdAt := createdAt)];
            Verifies(hash, ys) && TipHash(ys) == TipHash(xs)
  {
    var ys := xs[i := xs[i].(id := id, createdAt := createdAt)];
    forall j | 0 <= j < |ys| ensures LinkOk(hash, ys, j) {
      assert LinkOk(hash, xs, j);
      assert j > 0 ==> ys[..j][j - 1].entryHash == xs[..j][j - 1].entryHash;
    }
  }

  // ------------------------------------------------------------- the tables

  /** `trail_trailentry`, keyed by its unique (organization, sequence), and `trail_ledgerhead`. */
  datatype LedgerDb = LedgerDb(rows: map<(Uuid, nat), Entry>, heads: map<Uuid, Head>)

  function HeadOf(db: LedgerDb, org: Uuid): Head {
    if org in db.heads then db.heads[org] else EMPTY_HEAD
  }

  /** The tenant's rows carry the sequences 1..n exactly, row q being the q-th link of the chain. */
  ghost predicate ChainUpTo(hash: EntryHash, rows: map<(Uuid, nat), Entry>, org: Uuid, n: nat) {
    && (forall q: nat :: (org, q) in rows <==> 1 <= q <= n)
    && (forall q: nat {:trigger RowOk(hash, rows, org, q)} :: (org, q) in rows ==> RowOk(hash, rows, org, q))
  }

  ghost predicate RowOk(hash: EntryHash, rows: map<(Uuid, nat), Entry>, org: Uuid, q: nat)
    requires (org, q) in rows
  {
    var e := rows[(org, q)];
    && q > 0 && e.action.organization == org && e.sequence == q
    && (if q == 1 then e.previousHash == ""
        else (org, q - 1) in rows && e.previousHash == rows[(org, q - 1)].entryHash)
    && e.entryHash == hash(e.action, q, e.previousHash)
  }

  /** One tenant's chain is dense and its head is its last row. */
  ghost predicate TenantOk(hash: EntryHash, db: LedgerDb, org: Uuid) {
    var head := HeadOf(db, org);
    && ChainUpTo(hash, db.rows, org, head.sequence)
    && head.hash == (if head.sequence == 0 then "" else db.rows[(org, head.sequence)].entryHash)
  }

  ghost predicate LedgerOk(hash: EntryHash, db: LedgerDb) {
    forall org: Uuid :: TenantOk(hash, db, org)
  }

  function NextEntry(hash: EntryHash, head: Head, a: Action, id: Uuid, now: int): Entry {
    Entry(id, a, head.sequence + 1, head.hash, hash(a, head.sequence + 1, head.hash), now)
  }

  /** `next_sequence_for_organization`. */
  function NextSequence(db: LedgerDb, org: Uuid): nat {
    HeadOf(db, org).sequence + 1
  }

  function WithEntry(db: LedgerDb, e: Entry): LedgerDb {
    LedgerDb(
      db.rows[(e.action.organization, e.sequence) := e],
      db.heads[e.action.organization := Head(e.sequence, e.entryHash)])
  }

  /** One append, alone: the head's successor is inserted and the head moves onto it. A unique
      violation on (organization, sequence) rolls everything back. */
  function Appended(hash: EntryHash, db: LedgerDb, a: Action, id: Uuid, now: int): (LedgerDb, Option<Entry>) {
    var e := NextEntry(hash, HeadOf(db, a.organization), a, id, now);
    if (a.organization, e.sequence) in db.rows then (db, None) else (WithEntry(db, e), Some(e))
  }

  /** From a sound ledger an append always succeeds, extends its tenant's chain by one link and
      leaves every other tenant as it was. */
  lemma AppendExtends(hash: EntryHash, db: LedgerDb, a: Action, id: Uuid, now: int)
    requires TenantOk(hash, db, a.organization)
    ensures var (db', e) := Appended(hash, db, a, id, now);
            && e.Some? && e.value.sequence == NextSequence(db, a.organization)
            && e.value.action == a && e.value.id == id && e.value.createdAt == now
            && (a.organization, e.value.sequence) in db'.rows && db'.rows[(a.organization, e.value.sequence)] == e.value
            && TenantOk(hash, db', a.organization)
            && NextSequence(db', a.organization) == NextSequence(db, a.organization) + 1
            && (forall k :: k in db.rows ==> k in db'.rows && db'.rows[k] == db.rows[k])
            && (forall org: Uuid :: org != a.organization && TenantOk(hash, db, org) ==> TenantOk(hash, db', org))
  {
    var e := NextEntry(hash, HeadOf(db, a.organization), a, id, now);
    var db' := WithEntry(db, e);
    assert (a.organization, e.sequence) !in db.rows;
    EntryExtendsTenant(hash, db, a, id, now);
    forall other: Uuid | other != a.organization && TenantOk(hash, db, other) ensures TenantOk(hash, db', other) {
      SameTenant(hash, db, db', other);
    }
  }

  lemma AppendKeepsLedger(hash: EntryHash, db: LedgerDb, a: Action, id: Uuid, now: int)
    requires LedgerOk(hash, db)
    ensures LedgerOk(hash, Appended(hash, db, a, id, now).0) && Appended(hash, db, a, id, now).1.Some?
  {
    AppendExtends(hash, db, a, id, now);
    var db' := Appended(hash, db, a, id, now).0;
    forall org: Uuid ensures TenantOk(hash, db', org) {
      assert TenantOk(hash, db, org);
    }
  }

  lemma EntryExtendsTenant(hash: EntryHash, db: LedgerDb, a: Action, id: Uuid, now: int)
    requires TenantOk(hash, db, a.organization)
    ensures var e := NextEntry(hash, HeadOf(db, a.organization), a, id, now);
            TenantOk(hash, WithEntry(db, e), a.organization)
  {
    var org, head := a.organization, HeadOf(db, a.organization);
    var e := NextEntry(hash, head, a, id, now);
    assert (org, head.sequence + 1) !in db.rows;
    RowsExtend(hash, db.rows, org, head, e);
  }

  /** A chain with the successor of its tip added is one longer. */
  lemma RowsExtend(hash: EntryHash, rows: map<(Uuid, nat), Entry>, org: Uuid, head: Head, e: Entry)
    requires ChainUpTo(hash, rows, org, head.sequence)
    requires head.hash == (if head.sequence == 0 then "" else rows[(org, head.sequence)].entryHash)
    requires e == NextEntry(hash, head, e.action, e.id, e.createdAt) && e.action.organization == org
    ensures ChainUpTo(hash, rows[(org, e.sequence) := e], org, e.sequence)
  {
    var rows' := rows[(org, e.sequence) := e];
    forall q: nat {:trigger RowOk(hash, rows', org, q)} | (org, q) in rows' ensures RowOk(hash, rows', org, q) {
      if q != e.sequence {
        assert RowOk(hash, rows, org, q);
      }
    }
  }

  /** What one tenant sees of the tables. */
  ghost predicate AgreeOn(db: LedgerDb, db': LedgerDb, org: Uuid) {
    && (forall q: nat :: (org, q) in db.rows <==> (org, q) in db'.rows)
    && (forall q: nat :: (org, q) in db.rows ==> db.rows[(org, q)] == db'.rows[(org, q)])
    && HeadOf(db, org) == HeadOf(db', org)
  }

  lemma SameTenant(hash: EntryHash, db: LedgerDb, db': LedgerDb, org: Uuid)
    requires AgreeOn(db, db', org) && TenantOk(hash, db, org)
    ensures TenantOk(hash, db', org)
  {
    forall q: nat {:trigger RowOk(hash, db'.rows, org, q)} | (org, q) in db'.rows ensures RowOk(hash, db'.rows, org, q) {
      assert RowOk(hash, db.rows, org, q);
    }
  }

  /** The tenant's rows in sequence order: the history an auditor reads. */
  function History(db: LedgerDb, org: Uuid, n: nat): (xs: seq<Entry>)
    requires forall q: nat :: 1 <= q <= n ==> (org, q) in db.rows
    ensures |xs| == n && forall i :: 0 <= i < n ==> xs[i] == db.rows[(org, i + 1)]
  {
    seq(n, i requires 0 <= i < n => db.rows[(org, i + 1)])
  }

  /** A sound tenant's history verifies and ends in its head. */
  lemma HistoryVerifies(hash: EntryHash, db: LedgerDb, org: Uuid)
    requires TenantOk(hash, db, org)
    requires forall k :: k in db.rows ==> WellFormed(db.rows[k].action.payload)
    ensures var xs := History(db, org, HeadOf(db, org).sequence);
            Verifies(hash, xs) && TipHash(xs) == HeadOf(db, org).hash
  {
    var xs := History(db, org, HeadOf(db, org).sequence);
    forall i | 0 <= i < |xs| ensures LinkOk(hash, xs, i) {
      assert RowOk(hash, db.rows, org, i + 1);
    }
  }

  class TrailTables {
    const hash: EntryHash
    var rows: map<(Uuid, nat), Entry>
    var heads: map<Uuid, Head>

    function Db(): LedgerDb
      reads this
    {
      LedgerDb(rows, heads)
    }

    constructor (hash: EntryHash)
      ensures Db() == LedgerDb(map[], map[]) && this.hash == hash
    {
      this.hash := hash;
      rows, heads := map[], map[];
    }

    /** `append_trail_entry`, run by one transaction with nobody in between. */
    method AppendTrailEntry(organization: Uuid, actorId: int, actorEmail: string, actorDisplayName: string, action: string,
                            targetEntity: string, targetId: Uuid, payload: Option<Json>, id: Uuid, now: int)
      returns (created: Option<Entry>)
      modifies this
      ensures (Db(), created)
              == Appended(hash, old(Db()), Action(organization, actorId, actorEmail, actorDisplayName, action, targetEntity,
                                                  targetId, EntryPayload(payload)), id, now)
      ensures created.None? ==> rows == old(rows) && heads == old(heads)
      ensures created.Some? ==>
                var e := created.value;
                && e.id == id && e.createdAt == now && e.action.organization == organization && e.action.actorId == actorId
                && e.action.actorEmail == actorEmail && e.action.actorDisplayName == actorDisplayName
                && e.action.action == action && e.action.targetEntity == targetEntity && e.action.targetId == targetId
                && rows == old(rows)[(organization, e.sequence) := e]
                && heads == old(heads)[organization := Head(e.sequence, e.entryHash)]
      ensures var tip := if organization in old(heads) then old(heads)[organization] else Head(0, "");
              && (created.None? <==> (organization, tip.sequence + 1) in old(rows))
              && (created.Some? ==>
                    && created.value.sequence == tip.sequence + 1 && created.value.previousHash == tip.hash
                    && created.value.entryHash == hash(created.value.action, tip.sequence + 1, tip.hash))
      ensures created.Some? && payload.Some? && payload.value !in [Null, Bool(false), Num(0), Str(""), Arr([]), Obj([])] ==>
                created.value.action.payload == payload.value
      ensures created.Some? && (payload.None? || payload.value in [Null, Bool(false), Num(0), Str(""), Arr([]), Obj([])]) ==>
                created.value.action.payload == Obj([])
    {
      var a := Action(organization, actorId, actorEmail, actorDisplayName, action, targetEntity, targetId,
                      EntryPayload(payload));
      var savepoint := heads;
      if organization !in heads {
        heads := heads[organization := EMPTY_HEAD];
      }
      var head := heads[organization];
      var sequence := head.sequence + 1;
      var entryHash := hash(a, sequence, head.hash);
      var entry := Entry(id, a, sequence, head.hash, entryHash, now);
      if (organization, sequence) in rows {
        heads := savepoint;
        created := None;
      } else {
        rows := rows[(organization, sequence) := entry];
        heads := heads[organization := Head(sequence, entryHash)];
        created := Some(entry);
        assert heads == savepoint[organization := Head(sequence, entryHash)];
      }
    }

    /** Migration 0002: one head per tenant that has entries, taken from its tip. */
    method BackfillLedgerHead()
      modifies this`heads
      ensures forall org: Uuid :: org in heads <==> org in old(heads) || org in Tenants(rows)
      ensures forall org: Uuid :: org in Tenants(rows) ==> IsTip(rows, org, heads[org])
      ensures forall org: Uuid :: org in old(heads) && org !in Tenants(rows) ==> heads[org] == old(heads)[org]
    {
      var todo := Tenants(rows);
      while todo != {}
        invariant todo <= Tenants(rows)
        invariant forall org: Uuid :: org in heads <==> org in old(heads) || org in Tenants(rows) - todo
        invariant forall org: Uuid :: org in Tenants(rows) - todo ==> IsTip(rows, org, heads[org])
        invariant forall org: Uuid :: org in old(heads) && org !in Tenants(rows) ==> heads[org] == old(heads)[org]
        decreases todo
      {
        var org :| org in todo;
        var tip := Tip(org);
        heads := heads[org := tip];
        todo := todo - {org};
      }
    }

    /** The entry `order_by("-sequence").first()` finds, as the head it becomes. */
    method Tip(org: Uuid) returns (tip: Head)
      requires org in Tenants(rows)
      ensures IsTip(rows, org, tip)
    {
      var seen: set<(Uuid, nat)> := {};
      var todo := rows.Keys;
      var best: Option<nat> := None;
      while todo != {}
        invariant todo + seen == rows.Keys
        invariant best.None? ==> forall k :: k in seen ==> k.0 != org
        invariant best.Some? ==> (org, best.value) in seen
        invariant best.Some? ==> forall q: nat :: (org, q) in seen ==> q <= best.value
        decreases todo
      {
        var k :| k in todo;
        if k.0 == org && (best.None? || best.value < k.1) {
          best := Some(k.1);
        }
        todo, seen := todo - {k}, seen + {k};
      }
      var k :| k in rows.Keys && k.0 == org;
      tip := Head(best.value, rows[(org, best.value)].entryHash);
    }
  }

  function Tenants(rows: map<(Uuid, nat), Entry>): set<Uuid> {
    set k | k in rows :: k.0
  }

  ghost predicate IsTip(rows: map<(Uuid, nat), Entry>, org: Uuid, head: Head) {
    && (org, head.sequence) in rows && head.hash == rows[(org, head.sequence)].entryHash
    && forall q: nat :: (org, q) in rows ==> q <= head.sequence
  }

  ghost predicate Dense(hash: EntryHash, rows: map<(Uuid, nat), Entry>, org: Uuid) {
    exists n: nat :: ChainUpTo(hash, rows, org, n)
  }

  /** Chains that were dense before heads existed satisfy the append invariant once heads are
      backfilled, also for the tenants whose head is left to lazy seeding. */
  lemma BackfillEstablishesLedger(hash: EntryHash, db: LedgerDb)
    requires forall org: Uuid :: Dense(hash, db.rows, org)
    requires forall org: Uuid :: org in db.heads <==> org in Tenants(db.rows)
    requires forall org: Uuid :: org in db.heads ==> IsTip(db.rows, org, db.heads[org])
    ensures LedgerOk(hash, db)
  {
    forall org: Uuid ensures TenantOk(hash, db, org) {
      assert Dense(hash, db.rows, org);
      var n: nat :| ChainUpTo(hash, db.rows, org, n);
      if n > 0 {
        assert (org, n) in db.rows;
        assert org in Tenants(db.rows);
        assert IsTip(db.rows, org, db.heads[org]);
      } else {
        assert forall k :: k in db.rows && k.0 == org ==> (org, k.1) in db.rows;
      }
    }
  }
}
