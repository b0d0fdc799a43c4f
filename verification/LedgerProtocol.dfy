/** `append_trail_entry` under concurrency. Any number of transactions interleave at the level
    of single statements; a transaction may append several times and to several tenants, may
    abandon one append (its inner atomic block) or roll back whole, and holds its row locks
    to the end. */
module LedgerProtocol {
  import opened TrailLedger

  /** One call of `append_trail_entry`, with the row id and the time it drew. */
  datatype Call = Call(action: Action, id: Uuid, now: int)

  /** What one transaction has written and locked and nobody else can see. */
  datatype Writes = Writes(rows: map<(Uuid, nat), Entry>, heads: map<Uuid, Head>, locks: set<Uuid>)

  /** Where a transaction stands inside `append_trail_entry`. */
  datatype Phase =
    | Idle                             // between appends
    | Seeding(org: Uuid)               // get_or_create saw no head and is about to insert one
    | HaveTip(org: Uuid, head: Head)   // the head row is locked and read
    | Inserted(call: Call, entry: Entry)  // the entry is inserted, the head not yet advanced

  datatype Txn = Txn(own: Writes, log: seq<Call>, savepoint: Writes, phase: Phase)

  /** `history` lists the appends of committed transactions, in commit order. */
  datatype State = State(committed: LedgerDb, txns: map<nat, Txn>, history: seq<Call>)

  datatype Step =
    | Begin(t: nat)
    | LockHead(t: nat, org: Uuid)
    | MissHead(t: nat, org: Uuid)
    | SeedHead(t: nat)
    | InsertEntry(t: nat, call: Call)
    | AdvanceHead(t: nat)
    | AbandonAppend(t: nat)
    | Commit(t: nat)
    | Rollback(t: nat)

  const NOTHING := Writes(map[], map[], {})

  /** What a transaction reads: committed rows overlaid with its own. */
  function View(committed: LedgerDb, w: Writes): LedgerDb {
    LedgerDb(committed.rows + w.rows, committed.heads + w.heads)
  }

  /** Another transaction holds the tenant's head row. */
  ghost predicate LockedByOther(s: State, t: nat, org: Uuid) {
    exists u :: u in s.txns && u != t && org in s.txns[u].own.locks
  }

  /** Another transaction has inserted an uncommitted row under this key. */
  ghost predicate PendingElsewhere(s: State, t: nat, key: (Uuid, nat)) {
    exists u :: u in s.txns && u != t && key in s.txns[u].own.rows
  }

  /** A step that is not enabled waits: the state stays as it is. */
  ghost predicate Enabled(s: State, step: Step) {
    match step
    case Begin(t) => t !in s.txns
    case LockHead(t, org) =>
      && t in s.txns && (s.txns[t].phase == Idle || s.txns[t].phase == Seeding(org))
      && org in View(s.committed, s.txns[t].own).heads && !LockedByOther(s, t, org)
    case MissHead(t, org) =>
      t in s.txns && s.txns[t].phase == Idle && org !in View(s.committed, s.txns[t].own).heads
    case SeedHead(t) =>
      && t in s.txns && s.txns[t].phase.Seeding?
      && s.txns[t].phase.org !in s.committed.heads && !LockedByOther(s, t, s.txns[t].phase.org)
    case InsertEntry(t, call) =>
      && t in s.txns && s.txns[t].phase.HaveTip? && call.action.organization == s.txns[t].phase.org
      && !InsertCollides(s, t)
    case AdvanceHead(t) => t in s.txns && s.txns[t].phase.Inserted?
    case AbandonAppend(t) => t in s.txns && s.txns[t].phase != Idle
    case Commit(t) => t in s.txns && s.txns[t].phase == Idle
    case Rollback(t) => t in s.txns
  }

  /** The unique (organization, sequence) key of the next entry ... */
  function TipKey(txn: Txn): (Uuid, nat)
    requires txn.phase.HaveTip?
  {
    (txn.phase.org, txn.phase.head.sequence + 1)
  }

  /** ... is taken, or is being taken. */
  ghost predicate InsertCollides(s: State, t: nat)
    requires t in s.txns && s.txns[t].phase.HaveTip?
  {
    TipKey(s.txns[t]) in View(s.committed, s.txns[t].own).rows || PendingElsewhere(s, t, TipKey(s.txns[t]))
  }

  ghost function Apply(hash: EntryHash, s: State, step: Step): State {
    if !Enabled(s, step) then s
    else
      match step
      case Begin(t) => s.(txns := s.txns[t := Txn(NOTHING, [], NOTHING, Idle)])
      case Commit(t) =>
        var txn := s.txns[t];
        State(View(s.committed, txn.own), s.txns - {t}, s.history + txn.log)
      case Rollback(t) => s.(txns := s.txns - {t})
      case _ => s.(txns := s.txns[step.t := Moved(hash, s.committed, s.txns[step.t], step)])
  }

  /** The steps that touch one transaction only. */
  ghost function Moved(hash: EntryHash, committed: LedgerDb, txn: Txn, step: Step): Txn {
    match step
    case LockHead(_, org) =>
      Txn(txn.own.(locks := txn.own.locks + {org}), txn.log,
          if txn.phase == Idle then txn.own else txn.savepoint,
          HaveTip(org, HeadOf(View(committed, txn.own), org)))
    case MissHead(_, org) => Txn(txn.own, txn.log, txn.own, Seeding(org))
    case SeedHead(_) =>
      if !txn.phase.Seeding? then txn
      else
        var org := txn.phase.org;
        txn.(own := Writes(txn.own.rows, txn.own.heads[org := EMPTY_HEAD], txn.own.locks + {org}),
             phase := HaveTip(org, EMPTY_HEAD))
    case InsertEntry(_, call) =>
      if !txn.phase.HaveTip? then txn
      else
        var e := NextEntry(hash, txn.phase.head, call.action, call.id, call.now);
        txn.(own := txn.own.(rows := txn.own.rows[(txn.phase.org, e.sequence) := e]), phase := Inserted(call, e))
    case AdvanceHead(_) =>
      if !txn.phase.Inserted? then txn
      else
        var e := txn.phase.entry;
        txn.(own := txn.own.(heads := txn.own.heads[e.action.organization := Head(e.sequence, e.entryHash)]),
             log := txn.log + [txn.phase.call], phase := Idle)
    case AbandonAppend(_) => txn.(own := txn.savepoint, phase := Idle)
    case _ => txn
  }

  ghost function Run(hash: EntryHash, s: State, steps: seq<Step>): State
    decreases |steps|
  {
    if steps == [] then s else Run(hash, Apply(hash, s, steps[0]), steps[1..])
  }

  function Start(db: LedgerDb): State {
    State(db, map[], [])
  }

  /** The calls made one after another by a single writer. */
  function Replay(hash: EntryHash, db: LedgerDb, calls: seq<Call>): LedgerDb {
    if calls == [] then db
    else
      var c := calls[|calls| - 1];
      Appended(hash, Replay(hash, db, calls[..|calls| - 1]), c.action, c.id, c.now).0
  }

  // ---------------------------------------------------------- replay, by tenant

  ghost predicate Same(db: LedgerDb, db': LedgerDb) {
    forall org: Uuid :: AgreeOn(db, db', org)
  }

  lemma AppendLocal(hash: EntryHash, db: LedgerDb, db': LedgerDb, c: Call, org: Uuid)
    requires AgreeOn(db, db', org)
    ensures AgreeOn(Appended(hash, db, c.action, c.id, c.now).0, Appended(hash, db', c.action, c.id, c.now).0, org)
  {
  }

  lemma {:induction false} ReplayLocal(hash: EntryHash, db: LedgerDb, db': LedgerDb, calls: seq<Call>, org: Uuid)
    requires AgreeOn(db, db', org)
    ensures AgreeOn(Replay(hash, db, calls), Replay(hash, db', calls), org)
  {
    if calls != [] {
      var front := calls[..|calls| - 1];
      ReplayLocal(hash, db, db', front, org);
      AppendLocal(hash, Replay(hash, db, front), Replay(hash, db', front), calls[|calls| - 1], org);
    }
  }

  lemma {:induction false} ReplayOutside(hash: EntryHash, db: LedgerDb, calls: seq<Call>, org: Uuid)
    requires forall c :: c in calls ==> c.action.organization != org
    ensures AgreeOn(db, Replay(hash, db, calls), org)
  {
    if calls != [] {
      ReplayOutside(hash, db, calls[..|calls| - 1], org);
      assert calls[|calls| - 1] in calls;
    }
  }

  lemma {:induction false} ReplayConcat(hash: EntryHash, db: LedgerDb, a: seq<Call>, b: seq<Call>)
    ensures Replay(hash, db, a + b) == Replay(hash, Replay(hash, db, a), b)
  {
    if b == [] {
      assert a + b == a;
    } else {
      ReplayConcat(hash, db, a, b[..|b| - 1]);
      assert (a + b)[..|a + b| - 1] == a + b[..|b| - 1];
    }
  }

  lemma {:induction false} ReplayKeepsLedger(hash: EntryHash, db: LedgerDb, calls: seq<Call>)
    requires LedgerOk(hash, db)
    ensures LedgerOk(hash, Replay(hash, db, calls))
  {
    if calls != [] {
      var front, c := calls[..|calls| - 1], calls[|calls| - 1];
      ReplayKeepsLedger(hash, db, front);
      AppendKeepsLedger(hash, Replay(hash, db, front), c.action, c.id, c.now);
    }
  }

  // ------------------------------------------------------------- invariant

  ghost predicate WithinLocks(w: Writes) {
    (forall k :: k in w.rows ==> k.0 in w.locks) && (forall org :: org in w.heads ==> org in w.locks)
  }

  /** The writes amount to the logged appends, replayed on what is committed. */
  ghost predicate Tracks(hash: EntryHash, committed: LedgerDb, w: Writes, log: seq<Call>) {
    && WithinLocks(w) && (forall c :: c in log ==> c.action.organization in w.locks)
    && Same(View(committed, w), Replay(hash, committed, log))
  }

  ghost predicate TxnOk(hash: EntryHash, committed: LedgerDb, txn: Txn) {
    match txn.phase
    case Idle => Tracks(hash, committed, txn.own, txn.log)
    case Seeding(org) => Tracks(hash, committed, txn.own, txn.log) && txn.savepoint == txn.own && org !in txn.own.heads
    case HaveTip(org, head) =>
      && Tracks(hash, committed, txn.own, txn.log) && Tracks(hash, committed, txn.savepoint, txn.log)
      && txn.savepoint.locks <= txn.own.locks
      && org in txn.own.locks && head == HeadOf(View(committed, txn.own), org)
    case Inserted(call, e) =>
      && Tracks(hash, committed, txn.savepoint, txn.log) && txn.savepoint.locks <= txn.own.locks
      && e.action.organization == call.action.organization
      && Tracks(hash, committed, Advanced(txn.own, e), txn.log + [call])
  }

  function Advanced(w: Writes, e: Entry): Writes {
    w.(heads := w.heads[e.action.organization := Head(e.sequence, e.entryHash)])
  }

  ghost predicate LocksDisjoint(s: State) {
    forall t, u :: t in s.txns && u in s.txns && t != u ==> s.txns[t].own.locks !! s.txns[u].own.locks
  }

  ghost predicate Inv(hash: EntryHash, db0: LedgerDb, s: State) {
    && Same(s.committed, Replay(hash, db0, s.history))
    && LocksDisjoint(s)
    && forall t :: t in s.txns ==> TxnOk(hash, s.committed, s.txns[t])
  }

  /** A transaction sees the committed rows of every tenant it has not locked. */
  lemma OutsideLocks(committed: LedgerDb, w: Writes, org: Uuid)
    requires WithinLocks(w) && org !in w.locks
    ensures AgreeOn(committed, View(committed, w), org)
  {
    assert forall q: nat :: (org, q) in w.rows ==> (org, q).0 in w.locks;
  }

  /** A commit of other tenants' rows does not disturb what a transaction has written. */
  lemma TracksFrame(hash: EntryHash, committed: LedgerDb, committed': LedgerDb, w: Writes, log: seq<Call>)
    requires Tracks(hash, committed, w, log)
    requires forall org: Uuid :: org in w.locks ==> AgreeOn(committed, committed', org)
    ensures Tracks(hash, committed', w, log)
  {
    forall org: Uuid ensures AgreeOn(View(committed', w), Replay(hash, committed', log), org) {
      if org in w.locks {
        assert AgreeOn(View(committed, w), Replay(hash, committed, log), org);
        ReplayLocal(hash, committed, committed', log, org);
        ViewLocal(committed, committed', w, org);
        AgreeSquare(View(committed, w), Replay(hash, committed, log), View(committed', w), Replay(hash, committed', log), org);
      } else {
        OutsideLocks(committed', w, org);
        ReplayOutside(hash, committed', log, org);
        AgreeSquare(committed', committed', View(committed', w), Replay(hash, committed', log), org);
      }
    }
  }

  lemma ViewLocal(committed: LedgerDb, committed': LedgerDb, w: Writes, org: Uuid)
    requires AgreeOn(committed, committed', org)
    ensures AgreeOn(View(committed, w), View(committed', w), org)
  {
  }

  lemma AgreeSquare(a: LedgerDb, b: LedgerDb, a': LedgerDb, b': LedgerDb, org: Uuid)
    requires AgreeOn(a, b, org) && AgreeOn(a, a', org) && AgreeOn(b, b', org)
    ensures AgreeOn(a', b', org)
  {
  }

  lemma TxnFrame(hash: EntryHash, committed: LedgerDb, committed': LedgerDb, txn: Txn)
    requires TxnOk(hash, committed, txn)
    requires forall org: Uuid :: org in txn.own.locks ==> AgreeOn(committed, committed', org)
    ensures TxnOk(hash, committed', txn)
  {
    match txn.phase {
      case Inserted(call, e) =>
        TracksFrame(hash, committed, committed', Advanced(txn.own, e), txn.log + [call]);
        TracksFrame(hash, committed, committed', txn.savepoint, txn.log);
      case HaveTip(org, head) =>
        TracksFrame(hash, committed, committed', txn.own, txn.log);
        TracksFrame(hash, committed, committed', txn.savepoint, txn.log);
        assert AgreeOn(committed, committed', org);
      case _ => TracksFrame(hash, committed, committed', txn.own, txn.log);
    }
  }

  // ------------------------------------------------------------------ steps

  lemma SeedTracks(hash: EntryHash, committed: LedgerDb, w: Writes, log: seq<Call>, org: Uuid)
    requires Tracks(hash, committed, w, log) && org !in View(committed, w).heads
    ensures Tracks(hash, committed, Writes(w.rows, w.heads[org := EMPTY_HEAD], w.locks + {org}), log)
  {
    var w' := Writes(w.rows, w.heads[org := EMPTY_HEAD], w.locks + {org});
    forall other: Uuid ensures AgreeOn(View(committed, w'), Replay(hash, committed, log), other) {
      assert AgreeOn(View(committed, w), Replay(hash, committed, log), other);
    }
  }

  lemma LockTracks(hash: EntryHash, committed: LedgerDb, w: Writes, log: seq<Call>, org: Uuid)
    requires Tracks(hash, committed, w, log)
    ensures Tracks(hash, committed, w.(locks := w.locks + {org}), log)
  {
    assert View(committed, w.(locks := w.locks + {org})) == View(committed, w);
  }

  /** Insert and advance together are one append of the single-writer semantics. */
  lemma InsertTracks(hash: EntryHash, committed: LedgerDb, w: Writes, log: seq<Call>, call: Call)
    requires Tracks(hash, committed, w, log) && call.action.organization in w.locks
    requires var head := HeadOf(View(committed, w), call.action.organization);
             (call.action.organization, head.sequence + 1) !in View(committed, w).rows
    ensures var org := call.action.organization;
            var e := NextEntry(hash, HeadOf(View(committed, w), org), call.action, call.id, call.now);
            Tracks(hash, committed, Advanced(w.(rows := w.rows[(org, e.sequence) := e]), e), log + [call])
  {
    var view, replay := View(committed, w), Replay(hash, committed, log);
    var e := NextEntry(hash, HeadOf(view, call.action.organization), call.action, call.id, call.now);
    InsertView(committed, w, e);
    assert (log + [call])[..|log|] == log;
    forall other: Uuid ensures AgreeOn(WithEntry(view, e), Replay(hash, committed, log + [call]), other) {
      assert AgreeOn(view, replay, other);
      AppendLocal(hash, view, replay, call, other);
    }
  }

  lemma InsertView(committed: LedgerDb, w: Writes, e: Entry)
    ensures View(committed, Advanced(w.(rows := w.rows[(e.action.organization, e.sequence) := e]), e))
         == WithEntry(View(committed, w), e)
  {
    OverlayUpdate(committed.rows, w.rows, (e.action.organization, e.sequence), e);
    OverlayUpdate(committed.heads, w.heads, e.action.organization, Head(e.sequence, e.entryHash));
  }

  lemma OverlayUpdate<K, V>(base: map<K, V>, own: map<K, V>, k: K, v: V)
    ensures base + own[k := v] == (base + own)[k := v]
  {
  }

  lemma MovedOk(hash: EntryHash, s: State, step: Step)
    requires Enabled(s, step) && !step.Begin? && !step.Commit? && !step.Rollback?
    requires TxnOk(hash, s.committed, s.txns[step.t])
    ensures TxnOk(hash, s.committed, Moved(hash, s.committed, s.txns[step.t], step))
  {
    var txn := s.txns[step.t];
    match step {
      case LockHead(t, org) => LockTracks(hash, s.committed, txn.own, txn.log, org);
      case SeedHead(t) => SeedHeadOk(hash, s, t);
      case InsertEntry(t, call) => InsertTracks(hash, s.committed, txn.own, txn.log, call);
      case _ =>
    }
  }

  lemma SeedHeadOk(hash: EntryHash, s: State, t: nat)
    requires Enabled(s, SeedHead(t)) && TxnOk(hash, s.committed, s.txns[t])
    ensures TxnOk(hash, s.committed, Moved(hash, s.committed, s.txns[t], SeedHead(t)))
  {
    var txn := s.txns[t];
    SeedTracks(hash, s.committed, txn.own, txn.log, txn.phase.org);
  }

  lemma StepKeepsInv(hash: EntryHash, db0: LedgerDb, s: State, step: Step)
    requires Inv(hash, db0, s)
    ensures Inv(hash, db0, Apply(hash, s, step))
  {
    if Enabled(s, step) {
      match step {
        case Begin(t) => BeginKeepsInv(hash, db0, s, t);
        case Rollback(t) => RollbackKeepsInv(hash, db0, s, t);
        case Commit(t) => CommitKeepsInv(hash, db0, s, t);
        case _ => MovedKeepsInv(hash, db0, s, step);
      }
    }
  }

  lemma BeginKeepsInv(hash: EntryHash, db0: LedgerDb, s: State, t: nat)
    requires Inv(hash, db0, s) && t !in s.txns
    ensures Inv(hash, db0, s.(txns := s.txns[t := Txn(NOTHING, [], NOTHING, Idle)]))
  {
    NothingTracks(hash, s.committed);
  }

  lemma RollbackKeepsInv(hash: EntryHash, db0: LedgerDb, s: State, t: nat)
    requires Inv(hash, db0, s)
    ensures Inv(hash, db0, s.(txns := s.txns - {t}))
  {
  }

  lemma MovedKeepsInv(hash: EntryHash, db0: LedgerDb, s: State, step: Step)
    requires Inv(hash, db0, s) && Enabled(s, step) && !step.Begin? && !step.Commit? && !step.Rollback?
    ensures Inv(hash, db0, s.(txns := s.txns[step.t := Moved(hash, s.committed, s.txns[step.t], step)]))
  {
    MovedOk(hash, s, step);
    MovedLocks(hash, s, step);
  }

  lemma NothingTracks(hash: EntryHash, committed: LedgerDb)
    ensures Tracks(hash, committed, NOTHING, [])
  {
    assert View(committed, NOTHING) == committed;
  }

  /** Locks are only taken when free, and only given back. */
  lemma MovedLocks(hash: EntryHash, s: State, step: Step)
    requires Enabled(s, step) && !step.Begin? && !step.Commit? && !step.Rollback?
    requires LocksDisjoint(s) && TxnOk(hash, s.committed, s.txns[step.t])
    ensures LocksDisjoint(Apply(hash, s, step))
  {
    var txns := s.txns;
    var moved := Moved(hash, s.committed, txns[step.t], step);
    forall u | u in txns && u != step.t ensures moved.own.locks !! txns[u].own.locks {
      assert txns[step.t].own.locks !! txns[u].own.locks;
    }
  }

  lemma CommitKeepsInv(hash: EntryHash, db0: LedgerDb, s: State, t: nat)
    requires Inv(hash, db0, s) && t in s.txns && s.txns[t].phase == Idle
    ensures Inv(hash, db0, Apply(hash, s, Commit(t)))
  {
    var txn := s.txns[t];
    var committed' := View(s.committed, txn.own);
    forall u | u in s.txns && u != t ensures TxnOk(hash, committed', s.txns[u]) {
      assert s.txns[t].own.locks !! s.txns[u].own.locks;
      forall org: Uuid | org in s.txns[u].own.locks ensures AgreeOn(s.committed, committed', org) {
        OutsideLocks(s.committed, txn.own, org);
      }
      TxnFrame(hash, s.committed, committed', s.txns[u]);
    }
    ReplayConcat(hash, db0, s.history, txn.log);
    var before := Replay(hash, db0, s.history);
    forall org: Uuid ensures AgreeOn(committed', Replay(hash, before, txn.log), org) {
      assert AgreeOn(committed', Replay(hash, s.committed, txn.log), org);
      assert AgreeOn(s.committed, before, org);
      ReplayLocal(hash, s.committed, before, txn.log, org);
    }
  }

  lemma {:induction false} RunKeepsInv(hash: EntryHash, db0: LedgerDb, s: State, steps: seq<Step>)
    requires Inv(hash, db0, s)
    ensures Inv(hash, db0, Run(hash, s, steps))
    decreases |steps|
  {
    if steps != [] {
      StepKeepsInv(hash, db0, s, steps[0]);
      RunKeepsInv(hash, db0, Apply(hash, s, steps[0]), steps[1..]);
    }
  }

  // ---------------------------------------------------------- main theorems

  lemma SameLedger(hash: EntryHash, db: LedgerDb, db': LedgerDb)
    requires LedgerOk(hash, db) && Same(db', db)
    ensures LedgerOk(hash, db')
  {
    forall org: Uuid ensures TenantOk(hash, db', org) {
      assert TenantOk(hash, db, org) && AgreeOn(db', db, org);
      SameTenant(hash, db, db', org);
    }
  }

  /** Every interleaving is equivalent to its committed appends made one at a time, in commit
      order; so in every reachable state every tenant's committed entries are the dense chain
      1..n and its head is the last of them. */
  lemma {:induction false} Serializable(hash: EntryHash, db0: LedgerDb, steps: seq<Step>)
    requires LedgerOk(hash, db0)
    ensures var s := Run(hash, Start(db0), steps);
            Same(s.committed, Replay(hash, db0, s.history)) && LedgerOk(hash, s.committed)
  {
    RunKeepsInv(hash, db0, Start(db0), steps);
    var s := Run(hash, Start(db0), steps);
    ReplayKeepsLedger(hash, db0, s.history);
    SameLedger(hash, Replay(hash, db0, s.history), s.committed);
  }

  /** The unique (organization, sequence) constraint never fires: the head lock already keeps
      concurrent appends apart, committed or not. */
  lemma {:induction false} UniqueNeverFires(hash: EntryHash, db0: LedgerDb, steps: seq<Step>, t: nat)
    requires LedgerOk(hash, db0)
    requires var s := Run(hash, Start(db0), steps); t in s.txns && s.txns[t].phase.HaveTip?
    ensures !InsertCollides(Run(hash, Start(db0), steps), t)
  {
    RunKeepsInv(hash, db0, Start(db0), steps);
    Serializable(hash, db0, steps);
    NoCollision(hash, db0, Run(hash, Start(db0), steps), t);
  }

  lemma NoCollision(hash: EntryHash, db0: LedgerDb, s: State, t: nat)
    requires Inv(hash, db0, s) && LedgerOk(hash, s.committed) && t in s.txns && s.txns[t].phase.HaveTip?
    ensures !InsertCollides(s, t)
  {
    ViewSound(hash, s.committed, s.txns[t]);
    NonePending(hash, db0, s, t, TipKey(s.txns[t]));
  }

  lemma NonePending(hash: EntryHash, db0: LedgerDb, s: State, t: nat, key: (Uuid, nat))
    requires Inv(hash, db0, s) && t in s.txns && key.0 in s.txns[t].own.locks
    ensures !PendingElsewhere(s, t, key)
  {
    forall u | u in s.txns && u != t ensures key !in s.txns[u].own.rows {
      NotPending(hash, s.committed, s.txns[t], s.txns[u], key);
    }
  }

  /** A transaction writes no row of a tenant that another one has locked. */
  lemma NotPending(hash: EntryHash, committed: LedgerDb, txn: Txn, other: Txn, key: (Uuid, nat))
    requires txn.own.locks !! other.own.locks && key.0 in txn.own.locks && TxnOk(hash, committed, other)
    ensures key !in other.own.rows
  {
    RowsWithinLocks(hash, committed, other, key);
  }

  /** The next sequence of a locked tenant is free in its transaction's view. */
  lemma ViewSound(hash: EntryHash, committed: LedgerDb, txn: Txn)
    requires LedgerOk(hash, committed) && TxnOk(hash, committed, txn) && txn.phase.HaveTip?
    ensures TipKey(txn).0 in txn.own.locks && TipKey(txn) !in View(committed, txn.own).rows
  {
    ReplayKeepsLedger(hash, committed, txn.log);
    SameLedger(hash, Replay(hash, committed, txn.log), View(committed, txn.own));
    assert TenantOk(hash, View(committed, txn.own), txn.phase.org);
  }

  lemma RowsWithinLocks(hash: EntryHash, committed: LedgerDb, txn: Txn, key: (Uuid, nat))
    requires TxnOk(hash, committed, txn)
    ensures key in txn.own.rows ==> key.0 in txn.own.locks
  {
    if txn.phase.Inserted? {
      assert Advanced(txn.own, txn.phase.entry).rows == txn.own.rows;
    }
  }

  /** Committed entries are never changed or removed, whatever runs after. */
  lemma {:induction false} CommittedRowsStay(hash: EntryHash, db0: LedgerDb, s: State, steps: seq<Step>, key: (Uuid, nat))
    requires LedgerOk(hash, db0) && Inv(hash, db0, s) && key in s.committed.rows
    ensures var s' := Run(hash, s, steps);
            key in s'.committed.rows && s'.committed.rows[key] == s.committed.rows[key]
    decreases |steps|
  {
    if steps != [] {
      var s1 := Apply(hash, s, steps[0]);
      StepKeepsInv(hash, db0, s, steps[0]);
      if s1.committed != s.committed {
        CommitExtends(hash, db0, s, steps[0].t, key);
      }
      CommittedRowsStay(hash, db0, s1, steps[1..], key);
    }
  }

  lemma CommitExtends(hash: EntryHash, db0: LedgerDb, s: State, t: nat, key: (Uuid, nat))
    requires LedgerOk(hash, db0) && Inv(hash, db0, s) && t in s.txns && s.txns[t].phase == Idle
    requires key in s.committed.rows
    ensures View(s.committed, s.txns[t].own).rows[key] == s.committed.rows[key]
  {
    var log := s.txns[t].log;
    ReplayKeepsLedger(hash, db0, s.history);
    SameLedger(hash, Replay(hash, db0, s.history), s.committed);
    ReplayExtends(hash, s.committed, log, key);
    assert AgreeOn(View(s.committed, s.txns[t].own), Replay(hash, s.committed, log), key.0);
    assert (key.0, key.1) == key;
  }

  lemma {:induction false} ReplayExtends(hash: EntryHash, db: LedgerDb, calls: seq<Call>, key: (Uuid, nat))
    requires LedgerOk(hash, db) && key in db.rows
    ensures key in Replay(hash, db, calls).rows && Replay(hash, db, calls).rows[key] == db.rows[key]
  {
    if calls != [] {
      var front, c := calls[..|calls| - 1], calls[|calls| - 1];
      ReplayExtends(hash, db, front, key);
      ReplayKeepsLedger(hash, db, front);
      AppendExtends(hash, Replay(hash, db, front), c.action, c.id, c.now);
    }
  }

  function CallsFor(calls: seq<Call>, org: Uuid): nat {
    if calls == [] then 0
    else CallsFor(calls[..|calls| - 1], org) + if calls[|calls| - 1].action.organization == org then 1 else 0
  }

  lemma {:induction false} ReplayCounts(hash: EntryHash, db: LedgerDb, calls: seq<Call>, org: Uuid)
    requires LedgerOk(hash, db)
    ensures HeadOf(Replay(hash, db, calls), org).sequence == HeadOf(db, org).sequence + CallsFor(calls, org)
  {
    if calls != [] {
      var front, c := calls[..|calls| - 1], calls[|calls| - 1];
      ReplayCounts(hash, db, front, org);
      ReplayKeepsLedger(hash, db, front);
      AppendExtends(hash, Replay(hash, db, front), c.action, c.id, c.now);
    }
  }

  /** No append is lost and none counts twice: in every reachable state a tenant's head has
      moved by exactly the number of its committed appends. */
  lemma {:induction false} NoLostAppend(hash: EntryHash, db0: LedgerDb, steps: seq<Step>, org: Uuid)
    requires LedgerOk(hash, db0)
    ensures var s := Run(hash, Start(db0), steps);
            HeadOf(s.committed, org).sequence == HeadOf(db0, org).sequence + CallsFor(s.history, org)
  {
    Serializable(hash, db0, steps);
    var s := Run(hash, Start(db0), steps);
    assert AgreeOn(s.committed, Replay(hash, db0, s.history), org);
    ReplayCounts(hash, db0, s.history, org);
  }

  // ---------------------------------------------------------------- running alone

  /** The statements of one transaction that appends once. */
  function AppendSteps(t: nat, call: Call, seeded: bool): seq<Step> {
    var org := call.action.organization;
    (if seeded then [Begin(t), LockHead(t, org)] else [Begin(t), MissHead(t, org), SeedHead(t)])
    + [InsertEntry(t, call), AdvanceHead(t), Commit(t)]
  }

  /** A transaction that finds its tenant unlocked and appends once leaves what one append leaves,
      whatever other transactions are open, and is recorded as committed. */
  lemma {:induction false} AppendGoesThrough(hash: EntryHash, db0: LedgerDb, s: State, t: nat, call: Call)
    requires LedgerOk(hash, db0) && Inv(hash, db0, s) && t !in s.txns && !LockedByOther(s, t, call.action.organization)
    ensures Appends(hash, s, Run(hash, s, AppendSteps(t, call, call.action.organization in s.committed.heads)), call)
  {
    var org := call.action.organization;
    if org in s.committed.heads {
      FiveSteps(hash, s, AppendSteps(t, call, true));
      LockedAppend(hash, db0, s, t, call);
    } else {
      SixSteps(hash, s, AppendSteps(t, call, false));
      SeededAppend(hash, db0, s, t, call);
    }
  }

  lemma LockedAppend(hash: EntryHash, db0: LedgerDb, s: State, t: nat, call: Call)
    requires LedgerOk(hash, db0) && Inv(hash, db0, s) && t !in s.txns && !LockedByOther(s, t, call.action.organization)
    requires call.action.organization in s.committed.heads
    ensures var tip := Apply(hash, Apply(hash, s, Begin(t)), LockHead(t, call.action.organization));
            Appends(hash, s, Apply(hash, Apply(hash, Apply(hash, tip, InsertEntry(t, call)), AdvanceHead(t)), Commit(t)), call)
  {
    var org := call.action.organization;
    LockGoesThrough(hash, s, t, org);
    InsertGoesThrough(hash, db0, s, Apply(hash, Apply(hash, s, Begin(t)), LockHead(t, org)), t, call, NOTHING.(locks := {org}));
  }

  lemma SeededAppend(hash: EntryHash, db0: LedgerDb, s: State, t: nat, call: Call)
    requires LedgerOk(hash, db0) && Inv(hash, db0, s) && t !in s.txns && !LockedByOther(s, t, call.action.organization)
    requires call.action.organization !in s.committed.heads
    ensures var tip := Apply(hash, Apply(hash, Apply(hash, s, Begin(t)), MissHead(t, call.action.organization)), SeedHead(t));
            Appends(hash, s, Apply(hash, Apply(hash, Apply(hash, tip, InsertEntry(t, call)), AdvanceHead(t)), Commit(t)), call)
  {
    var org := call.action.organization;
    SeedGoesThrough(hash, s, t, org);
    InsertGoesThrough(hash, db0, s, Apply(hash, Apply(hash, Apply(hash, s, Begin(t)), MissHead(t, org)), SeedHead(t)), t, call,
                      Writes(map[], map[org := EMPTY_HEAD], {org}));
  }

  /** One append more is committed, and nothing else has changed. */
  ghost predicate Appends(hash: EntryHash, s: State, s': State, call: Call) {
    && s'.committed == Appended(hash, s.committed, call.action, call.id, call.now).0
    && s'.txns == s.txns && s'.history == s.history + [call]
  }

  /** The transaction stands at its tenant's tip, with nothing written but perhaps a seeded head. */
  ghost predicate AtTip(s: State, now: State, t: nat, org: Uuid, own: Writes) {
    && t !in s.txns && now.committed == s.committed && now.history == s.history
    && own.rows == map[] && own.locks == {org} && (own.heads == map[] || own.heads == map[org := EMPTY_HEAD])
    && t in now.txns && now.txns == s.txns[t := now.txns[t]]
    && now.txns[t].own == own && now.txns[t].log == [] && now.txns[t].phase == HaveTip(org, HeadOf(s.committed, org))
  }

  lemma LockGoesThrough(hash: EntryHash, s: State, t: nat, org: Uuid)
    requires t !in s.txns && org in s.committed.heads && !LockedByOther(s, t, org)
    ensures AtTip(s, Apply(hash, Apply(hash, s, Begin(t)), LockHead(t, org)), t, org, NOTHING.(locks := {org}))
  {
    var began := Apply(hash, s, Begin(t));
    assert View(s.committed, NOTHING) == s.committed && {} + {org} == {org};
    assert !LockedByOther(began, t, org);
  }

  lemma SeedGoesThrough(hash: EntryHash, s: State, t: nat, org: Uuid)
    requires t !in s.txns && org !in s.committed.heads && !LockedByOther(s, t, org)
    ensures AtTip(s, Apply(hash, Apply(hash, Apply(hash, s, Begin(t)), MissHead(t, org)), SeedHead(t)), t, org,
                  Writes(map[], map[org := EMPTY_HEAD], {org}))
  {
    var began := Apply(hash, s, Begin(t));
    assert View(s.committed, NOTHING) == s.committed && {} + {org} == {org};
    var missed := Apply(hash, began, MissHead(t, org));
    assert !LockedByOther(missed, t, org);
  }

  /** Insert, advance and commit. */
  lemma InsertGoesThrough(hash: EntryHash, db0: LedgerDb, s: State, now: State, t: nat, call: Call, own: Writes)
    requires LedgerOk(hash, db0) && Inv(hash, db0, s) && AtTip(s, now, t, call.action.organization, own)
    requires !LockedByOther(s, t, call.action.organization)
    ensures Appends(hash, s, Apply(hash, Apply(hash, Apply(hash, now, InsertEntry(t, call)), AdvanceHead(t)), Commit(t)), call)
  {
    NextKeyFree(hash, db0, s, now, t, call, own);
    var inserted := Apply(hash, now, InsertEntry(t, call));
    var advanced := Apply(hash, inserted, AdvanceHead(t));
    CommitsAppend(hash, s, now, t, call, own);
  }

  lemma NextKeyFree(hash: EntryHash, db0: LedgerDb, s: State, now: State, t: nat, call: Call, own: Writes)
    requires LedgerOk(hash, db0) && Inv(hash, db0, s) && AtTip(s, now, t, call.action.organization, own)
    requires !LockedByOther(s, t, call.action.organization)
    ensures Enabled(now, InsertEntry(t, call)) && TipKey(now.txns[t]) !in s.committed.rows
  {
    var org := call.action.organization;
    ReplayKeepsLedger(hash, db0, s.history);
    SameLedger(hash, Replay(hash, db0, s.history), s.committed);
    assert TenantOk(hash, s.committed, org);
    forall u | u in now.txns && u != t ensures TipKey(now.txns[t]) !in now.txns[u].own.rows {
      RowsWithinLocks(hash, s.committed, s.txns[u], TipKey(now.txns[t]));
    }
  }

  lemma CommitsAppend(hash: EntryHash, s: State, now: State, t: nat, call: Call, own: Writes)
    requires AtTip(s, now, t, call.action.organization, own)
    requires Enabled(now, InsertEntry(t, call)) && TipKey(now.txns[t]) !in s.committed.rows
    ensures Appends(hash, s, Apply(hash, Apply(hash, Apply(hash, now, InsertEntry(t, call)), AdvanceHead(t)), Commit(t)), call)
  {
    InsertsAndAdvances(hash, s, now, t, call, own);
    var e := NextEntry(hash, HeadOf(s.committed, call.action.organization), call.action, call.id, call.now);
    OneAppendSeen(s.committed, own, e);
    assert s.txns[t := now.txns[t]] - {t} == s.txns;
  }

  /** What the transaction has written just before it commits. */
  function Appending(own: Writes, e: Entry): Writes {
    Writes(own.rows[(e.action.organization, e.sequence) := e],
           own.heads[e.action.organization := Head(e.sequence, e.entryHash)], own.locks)
  }

  lemma InsertsAndAdvances(hash: EntryHash, s: State, now: State, t: nat, call: Call, own: Writes)
    requires AtTip(s, now, t, call.action.organization, own) && Enabled(now, InsertEntry(t, call))
    ensures var advanced := Apply(hash, Apply(hash, now, InsertEntry(t, call)), AdvanceHead(t));
            var e := NextEntry(hash, HeadOf(s.committed, call.action.organization), call.action, call.id, call.now);
            && advanced.committed == s.committed && advanced.history == s.history
            && advanced.txns == s.txns[t := Txn(Appending(own, e), [call], now.txns[t].savepoint, Idle)]
  {
    var e := NextEntry(hash, HeadOf(s.committed, call.action.organization), call.action, call.id, call.now);
    var inserted := Apply(hash, now, InsertEntry(t, call));
    assert inserted.txns[t] == now.txns[t].(own := own.(rows := own.rows[(call.action.organization, e.sequence) := e]),
                                            phase := Inserted(call, e));
    var advanced := Apply(hash, inserted, AdvanceHead(t));
    assert [] + [call] == [call];
    assert advanced.txns[t] == Txn(Appending(own, e), [call], now.txns[t].savepoint, Idle);
  }

  lemma OneAppendSeen(db: LedgerDb, own: Writes, e: Entry)
    requires own.rows == map[]
    requires own.heads == map[] || own.heads == map[e.action.organization := EMPTY_HEAD]
    ensures View(db, Appending(own, e)) == WithEntry(db, e)
  {
    var org := e.action.organization;
    assert db.rows + map[(org, e.sequence) := e] == db.rows[(org, e.sequence) := e];
    assert own.heads[org := Head(e.sequence, e.entryHash)] == map[org := Head(e.sequence, e.entryHash)];
    assert db.heads + map[org := Head(e.sequence, e.entryHash)] == db.heads[org := Head(e.sequence, e.entryHash)];
  }

  /** A step of an append that is under way. */
  predicate OfAppend(step: Step, t: nat) {
    step.t == t && (step.LockHead? || step.MissHead? || step.SeedHead? || step.InsertEntry?)
  }

  /** However far an append has come, abandoning it leaves the transaction as it was before that append:
      what it wrote, locked and appended earlier stays its own. Rolling back leaves nothing of it. */
  lemma {:induction false} AbandonUndoes(hash: EntryHash, s: State, t: nat, steps: seq<Step>)
    requires t in s.txns && s.txns[t].phase == Idle && forall i :: 0 <= i < |steps| ==> OfAppend(steps[i], t)
    ensures var s', before := Run(hash, s, steps), s.txns[t];
            && t in s'.txns
            && (s'.txns[t].phase != Idle ==>
                  Apply(hash, s', AbandonAppend(t)) == s.(txns := s.txns[t := before.(savepoint := before.own)]))
            && Apply(hash, s', Rollback(t)) == s.(txns := s.txns - {t})
  {
    AppendingOnly(hash, s, s, t, steps);
    var s', before := Run(hash, s, steps), s.txns[t];
    assert s'.txns - {t} == s.txns - {t};
    if s'.txns[t].phase != Idle {
      assert Apply(hash, s', AbandonAppend(t)).txns == s'.txns[t := before.(savepoint := before.own)];
      assert s'.txns[t := before.(savepoint := before.own)] == s.txns[t := before.(savepoint := before.own)];
    }
  }

  /** `now` is what `s` has become since one append began. */
  ghost predicate Within(s: State, now: State, t: nat) {
    && t in s.txns && t in now.txns && now == s.(txns := s.txns[t := now.txns[t]]) && s.txns[t].phase == Idle
    && if now.txns[t].phase == Idle then now.txns[t] == s.txns[t]
       else now.txns[t].savepoint == s.txns[t].own && now.txns[t].log == s.txns[t].log
  }

  lemma {:induction false} AppendingOnly(hash: EntryHash, s: State, now: State, t: nat, steps: seq<Step>)
    requires Within(s, now, t) && forall i :: 0 <= i < |steps| ==> OfAppend(steps[i], t)
    ensures Within(s, Run(hash, now, steps), t)
    decreases |steps|
  {
    if steps != [] {
      AppendingNext(hash, s, now, t, steps[0]);
      AppendingOnly(hash, s, Apply(hash, now, steps[0]), t, steps[1..]);
    }
  }

  lemma AppendingNext(hash: EntryHash, s: State, now: State, t: nat, step: Step)
    requires Within(s, now, t) && OfAppend(step, t)
    ensures Within(s, Apply(hash, now, step), t)
  {
    if Enabled(now, step) {
      var moved := Moved(hash, now.committed, now.txns[t], step);
      assert s.txns[t := now.txns[t]][t := moved] == s.txns[t := moved];
    }
  }

  lemma {:induction false} FiveSteps(hash: EntryHash, s: State, steps: seq<Step>)
    requires |steps| == 5
    ensures Run(hash, s, steps)
            == Apply(hash, Apply(hash, Apply(hash, Apply(hash, Apply(hash, s, steps[0]), steps[1]), steps[2]), steps[3]), steps[4])
  {
    var s2 := Apply(hash, Apply(hash, s, steps[0]), steps[1]);
    assert Run(hash, s, steps) == Run(hash, Apply(hash, s, steps[0]), steps[1..]) == Run(hash, s2, steps[1..][1..]);
    ThreeSteps(hash, s2, steps[1..][1..]);
  }

  lemma {:induction false} SixSteps(hash: EntryHash, s: State, steps: seq<Step>)
    requires |steps| == 6
    ensures Run(hash, s, steps)
            == Apply(hash, Apply(hash, Apply(hash, Apply(hash, Apply(hash, Apply(hash, s, steps[0]), steps[1]), steps[2]), steps[3]),
                                 steps[4]), steps[5])
  {
    assert Run(hash, s, steps) == Run(hash, Apply(hash, s, steps[0]), steps[1..]);
    FiveSteps(hash, Apply(hash, s, steps[0]), steps[1..]);
  }

  lemma {:induction false} ThreeSteps(hash: EntryHash, s: State, steps: seq<Step>)
    requires |steps| == 3
    ensures Run(hash, s, steps) == Apply(hash, Apply(hash, Apply(hash, s, steps[0]), steps[1]), steps[2])
  {
    var s2 := Apply(hash, Apply(hash, s, steps[0]), steps[1]);
    assert Run(hash, s, steps) == Run(hash, Apply(hash, s, steps[0]), steps[1..]) == Run(hash, s2, steps[1..][1..]);
    assert Run(hash, s2, steps[1..][1..]) == Run(hash, Apply(hash, s2, steps[2]), []);
  }
}
