/** `resolve_or_create_organization` under concurrency: transactions interleave at the level of
    single queries and writes, unique violations surface as IntegrityError, and everything a
    transaction wrote disappears if it rolls back. */
module ResolveRace {
  import opened Basics
  import opened GroupRefs
  import opened OrgTable

  type Rows = map<nat, Org>

  /** Where a transaction stands inside the resolver. `attempt` is None on the first search and
      the failed slug attempt on a recovery search. */
  datatype Pc =
    | Ready
    | QueryById(want: Want, attempt: Option<nat>)
    | QueryByPath(want: Want, attempt: Option<nat>)
    | FillPath(want: Want, row: nat)
    | PathTaken(want: Want, row: nat)
    | FillId(want: Want, row: nat)
    | IdTaken(want: Want, row: nat)
    | Create(want: Want, slot: nat)

  datatype Result = Result(want: Want, row: nat)

  datatype Txn = Txn(writes: Rows, results: set<Result>, pc: Pc)

  /** `returned` collects what committed transactions were told. */
  datatype State = State(committed: Rows, txns: map<nat, Txn>, returned: set<Result>)

  /** `row` is the row a query returned, if any; `newId` the primary key drawn by an insert. */
  datatype Step =
    | Begin(t: nat)
    | Call(t: nat, ref: GroupRef)
    | RunQuery(t: nat, row: Option<nat>)
    | RunFill(t: nat)
    | RunCreate(t: nat, newId: nat)
    | Commit(t: nat)
    | Rollback(t: nat)

  function View(committed: Rows, txn: Txn): Rows {
    committed + txn.writes
  }

  ghost predicate Clashes(rows: Rows, self: nat, org: Org) {
    exists k :: k in rows && k != self && !Apart(rows[k], org)
  }

  /** An uncommitted row of another transaction holds one of the keys, or the row itself. */
  ghost predicate Waits(s: State, t: nat, self: nat, org: Org) {
    exists u :: u in s.txns && u != t && (self in s.txns[u].writes || Clashes(s.txns[u].writes, self, org))
  }

  ghost predicate ByIdAnswer(rows: Rows, id: Option<string>, row: Option<nat>) {
    if !Truthy(id) then row.None?
    else if row.Some? then row.value in rows && rows[row.value].groupId == id
    else forall k :: k in rows ==> rows[k].groupId != id
  }

  ghost predicate ByPathAnswer(rows: Rows, path: string, row: Option<nat>) {
    if path == "" then row.None?
    else if row.Some? then row.value in rows && rows[row.value].path == path
    else forall k :: k in rows ==> rows[k].path != path
  }

  /** The answer a query may give in the transaction's view. */
  ghost predicate Answers(rows: Rows, pc: Pc, row: Option<nat>) {
    match pc
    case QueryById(want, _) => ByIdAnswer(rows, want.id, row)
    case IdTaken(want, _) => ByIdAnswer(rows, want.id, row)
    case QueryByPath(want, _) => ByPathAnswer(rows, want.path, row)
    case PathTaken(want, _) => ByPathAnswer(rows, want.path, row)
    case _ => false
  }

  function Filled(rows: Rows, pc: Pc): Org
    requires (pc.FillPath? || pc.FillId?) && pc.row in rows
  {
    if pc.FillPath? then rows[pc.row].(path := pc.want.path) else rows[pc.row].(groupId := pc.want.id)
  }

  predicate AlreadyFilled(rows: Rows, pc: Pc)
    requires (pc.FillPath? || pc.FillId?) && pc.row in rows
  {
    if pc.FillPath? then rows[pc.row].path != "" else Truthy(rows[pc.row].groupId)
  }

  ghost predicate Enabled(s: State, step: Step) {
    match step
    case Begin(t) => t !in s.txns
    case Call(t, _) => t in s.txns && s.txns[t].pc == Ready
    case RunQuery(t, row) => t in s.txns && Answers(View(s.committed, s.txns[t]), s.txns[t].pc, row)
    case RunFill(t) =>
      && t in s.txns && (s.txns[t].pc.FillPath? || s.txns[t].pc.FillId?)
      && s.txns[t].pc.row in View(s.committed, s.txns[t])
      && !Waits(s, t, s.txns[t].pc.row, Filled(View(s.committed, s.txns[t]), s.txns[t].pc))
    case RunCreate(t, newId) =>
      && t in s.txns && s.txns[t].pc.Create? && s.txns[t].pc.slot < MAX_SLUG_ATTEMPTS
      && newId !in View(s.committed, s.txns[t])
      && !Waits(s, t, newId, RowFor(s.txns[t].pc.want, s.txns[t].pc.slot))
    case Commit(t) => t in s.txns && s.txns[t].pc == Ready
    case Rollback(t) => t in s.txns
  }

  function Return(txn: Txn, want: Want, row: nat): Txn {
    txn.(results := txn.results + {Result(want, row)}, pc := Ready)
  }

  /** The transaction after its query was answered. */
  function Answered(view: Rows, txn: Txn, row: Option<nat>): Txn {
    match txn.pc
    case QueryById(want, attempt) =>
      if row.None? then txn.(pc := QueryByPath(want, attempt))
      else if want.path != "" && row.value in view && view[row.value].path == "" then txn.(pc := FillPath(want, row.value))
      else Return(txn, want, row.value)
    case QueryByPath(want, attempt) =>
      if row.None? then
        var slot := if attempt.Some? then attempt.value + 1 else 0;
        txn.(pc := if slot < MAX_SLUG_ATTEMPTS then Create(want, slot) else Ready)
      else if Truthy(want.id) && row.value in view && !Truthy(view[row.value].groupId) then txn.(pc := FillId(want, row.value))
      else Return(txn, want, row.value)
    case PathTaken(want, org) => Return(txn, want, if row.Some? then row.value else org)
    case IdTaken(want, org) => Return(txn, want, if row.Some? then row.value else org)
    case _ => txn
  }

  /** The transaction after a backfill: the row is locked and read again first. */
  ghost function AfterFill(view: Rows, txn: Txn): Txn
    requires (txn.pc.FillPath? || txn.pc.FillId?) && txn.pc.row in view
  {
    if AlreadyFilled(view, txn.pc) then Return(txn, txn.pc.want, txn.pc.row)
    else if Clashes(view, txn.pc.row, Filled(view, txn.pc)) then
      txn.(pc := if txn.pc.FillPath? then PathTaken(txn.pc.want, txn.pc.row) else IdTaken(txn.pc.want, txn.pc.row))
    else
      Return(txn.(writes := txn.writes[txn.pc.row := Filled(view, txn.pc)]), txn.pc.want, txn.pc.row)
  }

  ghost function AfterCreate(view: Rows, txn: Txn, newId: nat): Txn
    requires txn.pc.Create?
  {
    var org := RowFor(txn.pc.want, txn.pc.slot);
    if Clashes(view, newId, org) then txn.(pc := QueryById(txn.pc.want, Some(txn.pc.slot)))
    else Return(txn.(writes := txn.writes[newId := org]), txn.pc.want, newId)
  }

  ghost function Apply(slugify: string -> string, s: State, step: Step): State {
    if !Enabled(s, step) then s
    else
      match step
      case Begin(t) => s.(txns := s.txns[t := Txn(map[], {}, Ready)])
      case Call(t, ref) => s.(txns := s.txns[t := s.txns[t].(pc := QueryById(Wanted(slugify, ref), None))])
      case RunQuery(t, row) => s.(txns := s.txns[t := Answered(View(s.committed, s.txns[t]), s.txns[t], row)])
      case RunFill(t) => s.(txns := s.txns[t := AfterFill(View(s.committed, s.txns[t]), s.txns[t])])
      case RunCreate(t, newId) =>
        s.(txns := s.txns[t := AfterCreate(View(s.committed, s.txns[t]), s.txns[t], newId)])
      case Commit(t) =>
        State(View(s.committed, s.txns[t]), s.txns - {t}, s.returned + s.txns[t].results)
      case Rollback(t) => s.(txns := s.txns - {t})
  }

  ghost function Run(slugify: string -> string, s: State, steps: seq<Step>): State
    decreases |steps|
  {
    if steps == [] then s else Run(slugify, Apply(slugify, s, steps[0]), steps[1..])
  }

  // ----------------------------------------------------------- assumptions

  /** Each group has one non-empty normalised path and one id: `idOf` maps the one to the other,
      and no two paths share an id. */
  ghost predicate Groups(idOf: map<string, string>) {
    && "" !in idOf
    && forall p, q :: p in idOf && q in idOf && idOf[p] == idOf[q] ==> p == q
  }

  /** The reference names one of the groups by its path, with or without its id. */
  ghost predicate Fits(idOf: map<string, string>, want: Want) {
    var path := want.path;
    path in idOf && (Truthy(want.id) ==> want.id == Some(idOf[path]))
  }

  /** A row that carries a group's id carries its path. */
  ghost predicate RowFits(idOf: map<string, string>, org: Org) {
    forall p :: p in idOf && org.groupId == Some(idOf[p]) ==> org.path == p
  }

  ghost predicate RowsFit(idOf: map<string, string>, rows: Rows) {
    forall k {:trigger RowFits(idOf, rows[k])} :: k in rows ==> RowFits(idOf, rows[k])
  }

  ghost predicate AllApart(rows: Rows) {
    forall k, l {:trigger Apart(rows[k], rows[l])} :: k in rows && l in rows && k != l ==> Apart(rows[k], rows[l])
  }

  // ------------------------------------------------------------- invariant

  ghost predicate ResultOk(idOf: map<string, string>, rows: Rows, want: Want, row: nat) {
    Fits(idOf, want) && row in rows && rows[row].path == want.path
  }

  ghost predicate ResultsOk(idOf: map<string, string>, rows: Rows, results: set<Result>) {
    forall r :: r in results ==> ResultOk(idOf, rows, r.want, r.row)
  }

  ghost predicate PcOk(idOf: map<string, string>, view: Rows, pc: Pc) {
    match pc
    case Ready => true
    case QueryById(want, _) => Fits(idOf, want)
    case QueryByPath(want, _) => Fits(idOf, want)
    case Create(want, _) => Fits(idOf, want)
    case FillId(want, row) => ResultOk(idOf, view, want, row) && Truthy(want.id)
    case IdTaken(want, row) => ResultOk(idOf, view, want, row)
    case FillPath(_, _) => false
    case PathTaken(_, _) => false
  }

  ghost predicate TxnOk(idOf: map<string, string>, committed: Rows, txn: Txn) {
    var view := View(committed, txn);
    && AllApart(view) && RowsFit(idOf, view) && ResultsOk(idOf, view, txn.results) && PcOk(idOf, view, txn.pc)
    && forall k :: k in txn.writes && k in committed ==> FilledIn(committed[k], txn.writes[k])
  }

  /** Uncommitted rows of two transactions are different rows with different keys. */
  ghost predicate WritesApart(a: Rows, b: Rows) {
    && a.Keys !! b.Keys
    && forall k, l {:trigger Apart(a[k], b[l])} :: k in a && l in b ==> Apart(a[k], b[l])
  }

  ghost predicate Inv(idOf: map<string, string>, s: State) {
    && AllApart(s.committed) && RowsFit(idOf, s.committed) && ResultsOk(idOf, s.committed, s.returned)
    && (forall t :: t in s.txns ==> TxnOk(idOf, s.committed, s.txns[t]))
    && (forall t, u :: t in s.txns && u in s.txns && t != u ==> WritesApart(s.txns[t].writes, s.txns[u].writes))
  }

  // ------------------------------------------------------------------ steps

  lemma AnsweredOk(idOf: map<string, string>, committed: Rows, txn: Txn, row: Option<nat>)
    requires Groups(idOf) && TxnOk(idOf, committed, txn) && Answers(View(committed, txn), txn.pc, row)
    ensures TxnOk(idOf, committed, Answered(View(committed, txn), txn, row))
  {
    var view := View(committed, txn);
    assert View(committed, Answered(view, txn, row)) == view;
    AnswerFits(idOf, view, txn.pc, row);
  }

  /** Whatever row a query finds for a group carries the group's path. */
  lemma AnswerFits(idOf: map<string, string>, view: Rows, pc: Pc, row: Option<nat>)
    requires Groups(idOf) && RowsFit(idOf, view) && PcOk(idOf, view, pc) && Answers(view, pc, row)
    ensures row.Some? ==> ResultOk(idOf, view, pc.want, row.value)
  {
    if row.Some? {
      assert RowFits(idOf, view[row.value]);
    }
  }

  lemma ApartSymmetric(a: Org, b: Org)
    ensures Apart(a, b) <==> Apart(b, a)
  {
  }

  /** A write that clashes with nothing in view keeps the view's keys unique. */
  lemma WriteOk(idOf: map<string, string>, committed: Rows, txn: Txn, row: nat, org: Org, want: Want)
    requires Groups(idOf) && TxnOk(idOf, committed, txn) && !Clashes(View(committed, txn), row, org)
    requires RowFits(idOf, org) && Fits(idOf, want) && org.path == want.path
    requires row in View(committed, txn) ==> FilledIn(View(committed, txn)[row], org)
    ensures TxnOk(idOf, committed, Return(txn.(writes := txn.writes[row := org]), want, row))
  {
    var view := View(committed, txn);
    var txn' := Return(txn.(writes := txn.writes[row := org]), want, row);
    assert View(committed, txn') == view[row := org];
    UpdateApart(view, row, org);
    UpdateResults(idOf, view, txn.results, row, org);
    UpdateFits(idOf, view, row, org);
    WriteFills(committed, txn, row, org);
  }

  lemma UpdateFits(idOf: map<string, string>, view: Rows, row: nat, org: Org)
    requires RowsFit(idOf, view) && RowFits(idOf, org)
    ensures RowsFit(idOf, view[row := org])
  {
  }

  lemma WriteFills(committed: Rows, txn: Txn, row: nat, org: Org)
    requires forall k :: k in txn.writes && k in committed ==> FilledIn(committed[k], txn.writes[k])
    requires row in View(committed, txn) ==> FilledIn(View(committed, txn)[row], org)
    ensures var writes := txn.writes[row := org];
            forall k :: k in writes && k in committed ==> FilledIn(committed[k], writes[k])
  {
  }

  lemma UpdateApart(view: Rows, row: nat, org: Org)
    requires AllApart(view) && !Clashes(view, row, org)
    ensures AllApart(view[row := org])
  {
    var view' := view[row := org];
    forall k, l {:trigger Apart(view'[k], view'[l])} | k in view' && l in view' && k != l ensures Apart(view'[k], view'[l]) {
      if k == row {
        ApartSymmetric(view[l], org);
      } else if l != row {
        assert Apart(view[k], view[l]);
      }
    }
  }

  lemma UpdateResults(idOf: map<string, string>, view: Rows, results: set<Result>, row: nat, org: Org)
    requires Groups(idOf) && ResultsOk(idOf, view, results)
    requires row in view ==> FilledIn(view[row], org)
    ensures ResultsOk(idOf, view[row := org], results)
  {
    forall r | r in results ensures ResultOk(idOf, view[row := org], r.want, r.row) {
      assert ResultOk(idOf, view, r.want, r.row);
    }
  }

  lemma FillOk(idOf: map<string, string>, s: State, t: nat)
    requires Groups(idOf) && t in s.txns && TxnOk(idOf, s.committed, s.txns[t])
    requires s.txns[t].pc.FillId? && s.txns[t].pc.row in View(s.committed, s.txns[t])
    ensures TxnOk(idOf, s.committed, AfterFill(View(s.committed, s.txns[t]), s.txns[t]))
  {
    var txn := s.txns[t];
    var view := View(s.committed, txn);
    var row, want := txn.pc.row, txn.pc.want;
    if AlreadyFilled(view, txn.pc) || Clashes(view, row, Filled(view, txn.pc)) {
      assert View(s.committed, AfterFill(view, txn)) == view;
    } else {
      assert RowFits(idOf, view[row]);
      WriteOk(idOf, s.committed, txn, row, Filled(view, txn.pc), want);
    }
  }

  lemma CreateOk(idOf: map<string, string>, s: State, t: nat, newId: nat)
    requires Groups(idOf) && t in s.txns && TxnOk(idOf, s.committed, s.txns[t])
    requires s.txns[t].pc.Create? && newId !in View(s.committed, s.txns[t])
    ensures TxnOk(idOf, s.committed, AfterCreate(View(s.committed, s.txns[t]), s.txns[t], newId))
  {
    var txn := s.txns[t];
    var view := View(s.committed, txn);
    var org := RowFor(txn.pc.want, txn.pc.slot);
    if Clashes(view, newId, org) {
      assert View(s.committed, AfterCreate(view, txn, newId)) == view;
    } else {
      RowForFits(idOf, txn.pc.want, txn.pc.slot);
      WriteOk(idOf, s.committed, txn, newId, org, txn.pc.want);
    }
  }

  lemma RowForFits(idOf: map<string, string>, want: Want, slot: nat)
    requires Groups(idOf) && Fits(idOf, want)
    ensures RowFits(idOf, RowFor(want, slot)) && RowFor(want, slot).path == want.path
  {
  }

  /** A new write of one transaction stays apart from every other transaction's writes. */
  lemma WritesStayApart(s: State, t: nat, row: nat, org: Org)
    requires t in s.txns && !Waits(s, t, row, org)
    requires forall u :: u in s.txns && u != t ==> WritesApart(s.txns[t].writes, s.txns[u].writes)
    ensures forall u :: u in s.txns && u != t ==> WritesApart(s.txns[t].writes[row := org], s.txns[u].writes)
  {
    forall u | u in s.txns && u != t ensures WritesApart(s.txns[t].writes[row := org], s.txns[u].writes) {
      assert WritesApart(s.txns[t].writes, s.txns[u].writes);
      OneMoreWrite(s.txns[t].writes, s.txns[u].writes, row, org);
    }
  }

  lemma OneMoreWrite(mine: Rows, theirs: Rows, row: nat, org: Org)
    requires WritesApart(mine, theirs) && row !in theirs && !Clashes(theirs, row, org)
    ensures WritesApart(mine[row := org], theirs)
  {
    var mine' := mine[row := org];
    forall k, l {:trigger Apart(mine'[k], theirs[l])} | k in mine' && l in theirs ensures Apart(mine'[k], theirs[l]) {
      if k == row {
        ApartSymmetric(theirs[l], org);
      } else {
        assert Apart(mine[k], theirs[l]);
      }
    }
  }

  lemma WritesApartSymmetric(a: Rows, b: Rows)
    requires WritesApart(a, b)
    ensures WritesApart(b, a)
  {
    forall k, l {:trigger Apart(b[k], a[l])} | k in b && l in a ensures Apart(b[k], a[l]) {
      ApartSymmetric(a[l], b[k]);
    }
  }

  /** Replacing one transaction by a sound one whose writes stay apart keeps the invariant. */
  lemma TxnStep(idOf: map<string, string>, s: State, t: nat, txn: Txn)
    requires Inv(idOf, s) && TxnOk(idOf, s.committed, txn)
    requires forall u :: u in s.txns && u != t ==> WritesApart(txn.writes, s.txns[u].writes)
    ensures Inv(idOf, s.(txns := s.txns[t := txn]))
  {
    forall u | u in s.txns && u != t ensures WritesApart(s.txns[u].writes, txn.writes) {
      WritesApartSymmetric(txn.writes, s.txns[u].writes);
    }
  }

  lemma CommitFrame(idOf: map<string, string>, committed: Rows, txn: Txn, other: Txn)
    requires Groups(idOf) && TxnOk(idOf, committed, txn) && TxnOk(idOf, committed, other) && WritesApart(txn.writes, other.writes)
    ensures TxnOk(idOf, View(committed, txn), other)
  {
    var before, after := View(committed, other), View(View(committed, txn), other);
    forall k, l {:trigger Apart(after[k], after[l])} | k in after && l in after && k != l ensures Apart(after[k], after[l]) {
      CommitPair(idOf, committed, txn, other, k, l);
    }
    forall k | k in after ensures RowFits(idOf, after[k]) {
      if k in other.writes { assert after[k] == before[k]; } else { assert after[k] == View(committed, txn)[k]; }
    }
    CommitFills(idOf, committed, txn, other);
    FilledKeeps(idOf, before, after, other.results, other.pc);
  }

  lemma CommitFills(idOf: map<string, string>, committed: Rows, txn: Txn, other: Txn)
    requires TxnOk(idOf, committed, txn) && WritesApart(txn.writes, other.writes)
    ensures var before, after := View(committed, other), View(View(committed, txn), other);
            forall k :: k in before ==> k in after && FilledIn(before[k], after[k])
  {
  }

  lemma FilledKeeps(idOf: map<string, string>, before: Rows, after: Rows, results: set<Result>, pc: Pc)
    requires Groups(idOf) && ResultsOk(idOf, before, results) && PcOk(idOf, before, pc)
    requires forall k :: k in before ==> k in after && FilledIn(before[k], after[k])
    ensures ResultsOk(idOf, after, results) && PcOk(idOf, after, pc)
  {
    forall r | r in results ensures ResultOk(idOf, after, r.want, r.row) {
      assert ResultOk(idOf, before, r.want, r.row);
    }
  }

  lemma CommitPair(idOf: map<string, string>, committed: Rows, txn: Txn, other: Txn, k: nat, l: nat)
    requires TxnOk(idOf, committed, txn) && TxnOk(idOf, committed, other) && WritesApart(txn.writes, other.writes)
    requires var after := View(View(committed, txn), other); k in after && l in after && k != l
    ensures var after := View(View(committed, txn), other); Apart(after[k], after[l])
  {
    var mine, theirs := View(committed, txn), View(committed, other);
    if k in other.writes && l in other.writes {
      assert Apart(theirs[k], theirs[l]);
    } else if k in other.writes {
      if l in txn.writes { ApartSymmetric(txn.writes[l], other.writes[k]); } else { assert Apart(theirs[k], theirs[l]); }
    } else if l in other.writes {
      if k in txn.writes { assert Apart(txn.writes[k], other.writes[l]); } else { assert Apart(theirs[k], theirs[l]); }
    } else {
      assert Apart(mine[k], mine[l]);
    }
  }

  lemma CommitStep(idOf: map<string, string>, s: State, t: nat)
    requires Groups(idOf) && Inv(idOf, s) && t in s.txns
    ensures Inv(idOf, State(View(s.committed, s.txns[t]), s.txns - {t}, s.returned + s.txns[t].results))
  {
    var committed' := View(s.committed, s.txns[t]);
    forall u | u in s.txns && u != t ensures TxnOk(idOf, committed', s.txns[u]) {
      CommitFrame(idOf, s.committed, s.txns[t], s.txns[u]);
    }
    forall r | r in s.returned ensures ResultOk(idOf, committed', r.want, r.row) {
      assert ResultOk(idOf, s.committed, r.want, r.row);
    }
  }

  /** Calls name known groups. */
  ghost predicate StepFits(slugify: string -> string, idOf: map<string, string>, step: Step) {
    step.Call? ==> Fits(idOf, Wanted(slugify, step.ref))
  }

  lemma PlainStep(idOf: map<string, string>, s: State, t: nat, txn: Txn)
    requires Groups(idOf) && Inv(idOf, s)
    requires if t in s.txns then txn == s.txns[t].(pc := txn.pc) else txn == Txn(map[], {}, Ready)
    requires PcOk(idOf, View(s.committed, txn), txn.pc)
    ensures Inv(idOf, s.(txns := s.txns[t := txn]))
  {
    assert t !in s.txns ==> View(s.committed, txn) == s.committed;
    TxnStep(idOf, s, t, txn);
  }

  lemma QueryStep(idOf: map<string, string>, s: State, t: nat, row: Option<nat>)
    requires Groups(idOf) && Inv(idOf, s) && t in s.txns && Answers(View(s.committed, s.txns[t]), s.txns[t].pc, row)
    ensures Inv(idOf, s.(txns := s.txns[t := Answered(View(s.committed, s.txns[t]), s.txns[t], row)]))
  {
    AnsweredOk(idOf, s.committed, s.txns[t], row);
    TxnStep(idOf, s, t, Answered(View(s.committed, s.txns[t]), s.txns[t], row));
  }

  lemma FillStep(idOf: map<string, string>, s: State, t: nat)
    requires Groups(idOf) && Inv(idOf, s) && Enabled(s, RunFill(t))
    ensures Inv(idOf, s.(txns := s.txns[t := AfterFill(View(s.committed, s.txns[t]), s.txns[t])]))
  {
    var txn := s.txns[t];
    var txn' := AfterFill(View(s.committed, txn), txn);
    FillOk(idOf, s, t);
    WritesStayApart(s, t, txn.pc.row, Filled(View(s.committed, txn), txn.pc));
    FillWrites(View(s.committed, txn), txn);
    TxnStep(idOf, s, t, txn');
  }

  lemma FillWrites(view: Rows, txn: Txn)
    requires (txn.pc.FillPath? || txn.pc.FillId?) && txn.pc.row in view
    ensures AfterFill(view, txn).writes in {txn.writes, txn.writes[txn.pc.row := Filled(view, txn.pc)]}
  {
  }

  lemma CreateStep(idOf: map<string, string>, s: State, t: nat, newId: nat)
    requires Groups(idOf) && Inv(idOf, s) && Enabled(s, RunCreate(t, newId))
    ensures Inv(idOf, s.(txns := s.txns[t := AfterCreate(View(s.committed, s.txns[t]), s.txns[t], newId)]))
  {
    CreateOk(idOf, s, t, newId);
    WritesStayApart(s, t, newId, RowFor(s.txns[t].pc.want, s.txns[t].pc.slot));
    TxnStep(idOf, s, t, AfterCreate(View(s.committed, s.txns[t]), s.txns[t], newId));
  }

  lemma StepKeeps(slugify: string -> string, idOf: map<string, string>, s: State, step: Step)
    requires Groups(idOf) && Inv(idOf, s) && StepFits(slugify, idOf, step)
    ensures Inv(idOf, Apply(slugify, s, step))
  {
    if Enabled(s, step) {
      match step {
        case Begin(t) => PlainStep(idOf, s, t, Txn(map[], {}, Ready));
        case Call(t, ref) => PlainStep(idOf, s, t, s.txns[t].(pc := QueryById(Wanted(slugify, ref), None)));
        case RunQuery(t, row) => QueryStep(idOf, s, t, row);
        case RunFill(t) => FillStep(idOf, s, t);
        case RunCreate(t, newId) => CreateStep(idOf, s, t, newId);
        case Commit(t) => CommitStep(idOf, s, t);
        case Rollback(t) =>
      }
    }
  }

  lemma {:induction false} RunKeeps(slugify: string -> string, idOf: map<string, string>, s: State, steps: seq<Step>)
    requires Groups(idOf) && Inv(idOf, s) && forall i :: 0 <= i < |steps| ==> StepFits(slugify, idOf, steps[i])
    ensures Inv(idOf, Run(slugify, s, steps))
    decreases |steps|
  {
    if steps != [] {
      StepKeeps(slugify, idOf, s, steps[0]);
      RunKeeps(slugify, idOf, Apply(slugify, s, steps[0]), steps[1..]);
    }
  }

  // ----------------------------------------------------------- main theorem

  /** The row belongs to the group of this path: by its path or by the group's id. */
  ghost predicate OfGroup(idOf: map<string, string>, org: Org, path: string) {
    path in idOf && (org.path == path || org.groupId == Some(idOf[path]))
  }

  ghost function RowsOfGroup(idOf: map<string, string>, rows: Rows, path: string): set<nat> {
    set k | k in rows && OfGroup(idOf, rows[k], path)
  }

  /** Results that open transactions hold for one path name the same row. */
  ghost predicate OpenAgree(s: State, path: string) {
    forall t, u, a, b :: OpenResult(s, t, a, path) && OpenResult(s, u, b, path) ==> a.row == b.row
  }

  predicate OpenResult(s: State, t: nat, r: Result, path: string) {
    t in s.txns && r in s.txns[t].results && r.want.path == path
  }

  lemma TwoOpenAgree(idOf: map<string, string>, s: State, t: nat, u: nat, a: Result, b: Result)
    requires Groups(idOf) && Inv(idOf, s) && t in s.txns && u in s.txns
    requires a in s.txns[t].results && b in s.txns[u].results && a.want.path == b.want.path
    ensures a.row == b.row
  {
    var mine, theirs := View(s.committed, s.txns[t]), View(s.committed, s.txns[u]);
    assert TxnOk(idOf, s.committed, s.txns[t]) && TxnOk(idOf, s.committed, s.txns[u]);
    assert ResultOk(idOf, mine, a.want, a.row) && ResultOk(idOf, theirs, b.want, b.row);
    if t != u {
      assert WritesApart(s.txns[t].writes, s.txns[u].writes);
    }
    RowsAgree(idOf, s.committed, s.txns[t], s.txns[u], a.row, b.row, a.want.path);
  }

  /** Two rows with one path, each in view of one of two transactions, are one row. */
  lemma RowsAgree(idOf: map<string, string>, committed: Rows, one: Txn, other: Txn, k: nat, l: nat, path: string)
    requires TxnOk(idOf, committed, one) && TxnOk(idOf, committed, other) && path != ""
    requires one == other || WritesApart(one.writes, other.writes)
    requires var mine, theirs := View(committed, one), View(committed, other);
             k in mine && l in theirs && mine[k].path == path && theirs[l].path == path
    ensures k == l
  {
    var mine, theirs := View(committed, one), View(committed, other);
    if one != other && k in one.writes && l in other.writes {
      WritesDiffer(one.writes, other.writes, k, l);
    } else if l in mine && mine[l].path == path {
      PathsDiffer(mine, k, l);
    } else if k in theirs && theirs[k].path == path {
      PathsDiffer(theirs, k, l);
    }
  }

  lemma WritesDiffer(a: Rows, b: Rows, k: nat, l: nat)
    requires WritesApart(a, b) && k in a && l in b && a[k].path != ""
    ensures a[k].path != b[l].path
  {
    assert Apart(a[k], b[l]);
  }

  lemma PathsDiffer(rows: Rows, k: nat, l: nat)
    requires AllApart(rows) && k in rows && l in rows && rows[k].path != ""
    ensures k == l || rows[k].path != rows[l].path
  {
    assert k != l ==> Apart(rows[k], rows[l]);
  }

  /** No fork: in any interleaving each group has at most one organization row, whichever way one
      looks it up, every committed call that returned a row for the group returned that row, and calls
      of transactions still open agree with each other. */
  lemma {:induction false} NoFork(slugify: string -> string, idOf: map<string, string>, rows: Rows, steps: seq<Step>,
                                  path: string)
    requires Groups(idOf) && AllApart(rows) && RowsFit(idOf, rows)
    requires forall i :: 0 <= i < |steps| ==> StepFits(slugify, idOf, steps[i])
    ensures var s := Run(slugify, State(rows, map[], {}), steps);
            && (forall k, l :: k in RowsOfGroup(idOf, s.committed, path) && l in RowsOfGroup(idOf, s.committed, path) ==> k == l)
            && (forall r :: r in s.returned && r.want.path == path ==>
                  r.row in RowsOfGroup(idOf, s.committed, path))
            && (forall a, b :: a in s.returned && b in s.returned && a.want.path == path && b.want.path == path ==> a.row == b.row)
            && OpenAgree(s, path)
  {
    var s0 := State(rows, map[], {});
    RunKeeps(slugify, idOf, s0, steps);
    var s := Run(slugify, s0, steps);
    forall k, l | k in RowsOfGroup(idOf, s.committed, path) && l in RowsOfGroup(idOf, s.committed, path) ensures k == l {
      assert RowFits(idOf, s.committed[k]) && RowFits(idOf, s.committed[l]);
      assert s.committed[k].path == path && s.committed[l].path == path;
      assert k != l ==> Apart(s.committed[k], s.committed[l]);
    }
    forall r | r in s.returned && r.want.path == path
      ensures r.row in RowsOfGroup(idOf, s.committed, path) {
      assert ResultOk(idOf, s.committed, r.want, r.row);
    }
    forall t, u, a, b | OpenResult(s, t, a, path) && OpenResult(s, u, b, path) ensures a.row == b.row {
      TwoOpenAgree(idOf, s, t, u, a, b);
    }
  }

  // ---------------------------------------------------------------- running alone

  /** The organization table with its places as primary keys. */
  function TableOf(orgs: Orgs): Rows {
    map i: nat | 0 <= i < |orgs| :: orgs[i]
  }

  /** One open transaction and nobody else. */
  function Solo(orgs: Orgs, t: nat, txn: Txn): State {
    State(TableOf(orgs), map[t := txn], {})
  }

  /** The transaction has returned the row of a search and written what the search writes. */
  ghost predicate Found1(orgs: Orgs, want: Want, txn: Txn, orgs': Orgs, row: nat) {
    txn.pc == Ready && txn.results == {Result(want, row)} && TableOf(orgs) + txn.writes == TableOf(orgs')
  }

  lemma {:induction false} RunConcat(slugify: string -> string, s: State, a: seq<Step>, b: seq<Step>)
    ensures Run(slugify, s, a + b) == Run(slugify, Run(slugify, s, a), b)
    decreases |a|
  {
    if a == [] {
      assert a + b == b;
    } else {
      assert (a + b)[1..] == a[1..] + b;
      RunConcat(slugify, Apply(slugify, s, a[0]), a[1..], b);
    }
  }

  lemma {:induction false} RunOne(slugify: string -> string, s: State, step: Step)
    ensures Run(slugify, s, [step]) == Apply(slugify, s, step)
  {
    assert [step][1..] == [];
  }

  /** One more step at the front. */
  lemma {:induction false} RunFrom(slugify: string -> string, s: State, step: Step, steps: seq<Step>)
    ensures Run(slugify, s, [step] + steps) == Run(slugify, Apply(slugify, s, step), steps)
  {
    RunConcat(slugify, s, [step], steps);
    RunOne(slugify, s, step);
  }

  lemma QueryAlone(slugify: string -> string, orgs: Orgs, t: nat, txn: Txn, row: Option<nat>)
    requires txn.writes == map[] && Answers(TableOf(orgs), txn.pc, row)
    ensures Apply(slugify, Solo(orgs, t, txn), RunQuery(t, row)) == Solo(orgs, t, Answered(TableOf(orgs), txn, row))
  {
    assert View(TableOf(orgs), txn) == TableOf(orgs);
    var s' := Apply(slugify, Solo(orgs, t, txn), RunQuery(t, row));
    assert s'.txns == map[t := Answered(TableOf(orgs), txn, row)];
  }

  /** The search alone: by id, then by path, with its backfills, as `Lookup` says. */
  lemma SearchAlone(slugify: string -> string, orgs: Orgs, t: nat, want: Want, attempt: Option<nat>)
    returns (steps: seq<Step>, txn: Txn)
    requires KeysUnique(orgs)
    ensures Run(slugify, Solo(orgs, t, Txn(map[], {}, QueryById(want, attempt))), steps) == Solo(orgs, t, txn)
    ensures var (orgs', r) := Lookup(orgs, want.id, want.path);
            && (r.Some? ==> Found1(orgs, want, txn, orgs', r.value))
            && (r.None? ==>
                  var slot := if attempt.Some? then attempt.value + 1 else 0;
                  txn == Txn(map[], {}, if slot < MAX_SLUG_ATTEMPTS then Create(want, slot) else Ready))
  {
    var byId := if Truthy(want.id) then FirstId(orgs, want.id.value) else None;
    var start := Txn(map[], {}, QueryById(want, attempt));
    QueryAlone(slugify, orgs, t, start, byId);
    var next := Answered(TableOf(orgs), start, byId);
    var rest: seq<Step>;
    if byId.Some? {
      rest, txn := AfterIdAlone(slugify, orgs, t, want, byId.value);
    } else {
      rest, txn := PathAlone(slugify, orgs, t, want, attempt);
    }
    steps := [RunQuery(t, byId)] + rest;
    RunFrom(slugify, Solo(orgs, t, start), RunQuery(t, byId), rest);
  }

  /** The id's row: returned, or its missing path filled in, or the path's owner returned. */
  lemma AfterIdAlone(slugify: string -> string, orgs: Orgs, t: nat, want: Want, i: nat) returns (steps: seq<Step>, txn: Txn)
    requires KeysUnique(orgs) && Truthy(want.id) && FirstId(orgs, want.id.value) == Some(i)
    ensures Run(slugify, Solo(orgs, t, Answered(TableOf(orgs), Txn(map[], {}, QueryById(want, None)), Some(i))), steps)
            == Solo(orgs, t, txn)
    ensures var (orgs', r) := Lookup(orgs, want.id, want.path); r.Some? && Found1(orgs, want, txn, orgs', r.value)
  {
    if want.path != "" && orgs[i].path == "" {
      steps, txn := FillAlone(slugify, orgs, t, FillPath(want, i), FirstPath(orgs, want.path));
    } else {
      steps, txn := [], Txn(map[], {Result(want, i)}, Ready);
      assert {} + {Result(want, i)} == {Result(want, i)};
    }
  }

  lemma PathAlone(slugify: string -> string, orgs: Orgs, t: nat, want: Want, attempt: Option<nat>)
    returns (steps: seq<Step>, txn: Txn)
    requires KeysUnique(orgs) && (Truthy(want.id) ==> FirstId(orgs, want.id.value).None?)
    ensures Run(slugify, Solo(orgs, t, Txn(map[], {}, QueryByPath(want, attempt))), steps) == Solo(orgs, t, txn)
    ensures var (orgs', r) := Lookup(orgs, want.id, want.path);
            && (r.Some? ==> Found1(orgs, want, txn, orgs', r.value))
            && (r.None? ==>
                  var slot := if attempt.Some? then attempt.value + 1 else 0;
                  txn == Txn(map[], {}, if slot < MAX_SLUG_ATTEMPTS then Create(want, slot) else Ready))
  {
    var byPath := if want.path != "" then FirstPath(orgs, want.path) else None;
    var start := Txn(map[], {}, QueryByPath(want, attempt));
    QueryAlone(slugify, orgs, t, start, byPath);
    var next := Answered(TableOf(orgs), start, byPath);
    var rest: seq<Step> := [];
    if byPath.Some? && Truthy(want.id) && !Truthy(orgs[byPath.value].groupId) {
      rest, txn := FillAlone(slugify, orgs, t, FillId(want, byPath.value), None);
    } else {
      txn := next;
      assert byPath.Some? ==> {} + {Result(want, byPath.value)} == {Result(want, byPath.value)};
    }
    steps := [RunQuery(t, byPath)] + rest;
    RunFrom(slugify, Solo(orgs, t, start), RunQuery(t, byPath), rest);
  }

  /** A backfill alone: written, or, where the path has an owner, left for another query. */
  lemma FillAlone(slugify: string -> string, orgs: Orgs, t: nat, pc: Pc, owner: Option<nat>) returns (steps: seq<Step>, txn: Txn)
    requires KeysUnique(orgs) && (pc.FillPath? || pc.FillId?) && pc.row < |orgs| && !AlreadyFilled(TableOf(orgs), pc)
    requires pc.FillPath? ==> pc.want.path != "" && owner == FirstPath(orgs, pc.want.path)
    requires pc.FillId? ==> Truthy(pc.want.id) && FirstId(orgs, pc.want.id.value).None? && owner == None
    ensures Run(slugify, Solo(orgs, t, Txn(map[], {}, pc)), steps) == Solo(orgs, t, txn)
    ensures if owner.Some? then Found1(orgs, pc.want, txn, orgs, owner.value)
            else Found1(orgs, pc.want, txn, orgs[pc.row := Filled(TableOf(orgs), pc)], pc.row)
  {
    var start := Txn(map[], {}, pc);
    assert View(TableOf(orgs), start) == TableOf(orgs);
    FillClash(orgs, pc, owner);
    RunOne(slugify, Solo(orgs, t, start), RunFill(t));
    var filled := AfterFill(TableOf(orgs), start);
    assert Apply(slugify, Solo(orgs, t, start), RunFill(t)).txns == map[t := filled];
    if owner.Some? {
      QueryAlone(slugify, orgs, t, filled, owner);
      RunFrom(slugify, Solo(orgs, t, start), RunFill(t), [RunQuery(t, owner)]);
      RunOne(slugify, Solo(orgs, t, filled), RunQuery(t, owner));
      steps, txn := [RunFill(t)] + [RunQuery(t, owner)], Answered(TableOf(orgs), filled, owner);
      assert TableOf(orgs) + map[] == TableOf(orgs) && {} + {Result(pc.want, owner.value)} == {Result(pc.want, owner.value)};
    } else {
      steps, txn := [RunFill(t)], filled;
      var row := Filled(TableOf(orgs), pc);
      assert TableOf(orgs) + map[pc.row := row] == TableOf(orgs[pc.row := row]);
      assert {} + {Result(pc.want, pc.row)} == {Result(pc.want, pc.row)};
    }
  }

  lemma {:induction false} FillClash(orgs: Orgs, pc: Pc, owner: Option<nat>)
    requires KeysUnique(orgs) && (pc.FillPath? || pc.FillId?) && pc.row < |orgs| && !AlreadyFilled(TableOf(orgs), pc)
    requires pc.FillPath? ==> pc.want.path != "" && owner == FirstPath(orgs, pc.want.path)
    requires pc.FillId? ==> Truthy(pc.want.id) && FirstId(orgs, pc.want.id.value).None? && owner == None
    ensures Clashes(TableOf(orgs), pc.row, Filled(TableOf(orgs), pc)) <==> owner.Some?
  {
    var row := Filled(TableOf(orgs), pc);
    if owner.Some? {
      assert !Apart(TableOf(orgs)[owner.value], row);
    } else {
      forall k | k in TableOf(orgs) && k != pc.row ensures Apart(TableOf(orgs)[k], row) {
        assert if k < pc.row then Apart(orgs[k], orgs[pc.row]) else Apart(orgs[pc.row], orgs[k]);
      }
    }
  }

  /** What creation from one slug on comes to. */
  ghost predicate CreatedAs(orgs: Orgs, want: Want, txn: Txn, orgs': Orgs, r: Option<nat>) {
    if r.Some? then Found1(orgs, want, txn, orgs', r.value) else txn == Txn(map[], {}, Ready)
  }

  /** Creation alone, slug by slug, as `CreatedFrom` says. */
  lemma {:induction false} CreateAlone(slugify: string -> string, orgs: Orgs, t: nat, ref: GroupRef, want: Want, slot: nat)
    returns (steps: seq<Step>, txn: Txn)
    requires KeysUnique(orgs) && Found(orgs, ref).1.None? && slot < MAX_SLUG_ATTEMPTS && want == Wanted(slugify, ref)
    ensures Run(slugify, Solo(orgs, t, Txn(map[], {}, Create(want, slot))), steps) == Solo(orgs, t, txn)
    ensures CreatedAs(orgs, want, txn, CreatedFrom(slugify, orgs, ref, slot).0, CreatedFrom(slugify, orgs, ref, slot).1)
    decreases MAX_SLUG_ATTEMPTS - slot
  {
    CreatedStep(slugify, orgs, ref, slot);
    if Refused(orgs, RowFor(want, slot)) {
      var search, after := SearchAlone(slugify, orgs, t, want, Some(slot));
      var more: seq<Step> := [];
      txn := after;
      if slot + 1 < MAX_SLUG_ATTEMPTS {
        more, txn := CreateAlone(slugify, orgs, t, ref, want, slot + 1);
      }
      steps := [RunCreate(t, |orgs|)] + (search + more);
      AfterRefusal(slugify, orgs, t, want, slot, search, more, after, txn);
    } else {
      steps, txn := InsertAlone(slugify, orgs, t, want, slot);
    }
  }

  lemma InsertAlone(slugify: string -> string, orgs: Orgs, t: nat, want: Want, slot: nat) returns (steps: seq<Step>, txn: Txn)
    requires KeysUnique(orgs) && slot < MAX_SLUG_ATTEMPTS && !Refused(orgs, RowFor(want, slot))
    ensures Run(slugify, Solo(orgs, t, Txn(map[], {}, Create(want, slot))), steps) == Solo(orgs, t, txn)
    ensures Found1(orgs, want, txn, orgs + [RowFor(want, slot)], |orgs|)
  {
    CreateOnce(slugify, orgs, t, want, slot);
    RunOne(slugify, Solo(orgs, t, Txn(map[], {}, Create(want, slot))), RunCreate(t, |orgs|));
    steps, txn := [RunCreate(t, |orgs|)], Txn(map[|orgs| := RowFor(want, slot)], {Result(want, |orgs|)}, Ready);
    assert TableOf(orgs) + map[|orgs| := RowFor(want, slot)] == TableOf(orgs + [RowFor(want, slot)]);
  }

  lemma CreatedStep(slugify: string -> string, orgs: Orgs, ref: GroupRef, slot: nat)
    requires Found(orgs, ref).1.None? && slot < MAX_SLUG_ATTEMPTS
    ensures CreatedFrom(slugify, orgs, ref, MAX_SLUG_ATTEMPTS) == (orgs, None)
    ensures CreatedFrom(slugify, orgs, ref, slot)
            == if Refused(orgs, RowFor(Wanted(slugify, ref), slot)) then CreatedFrom(slugify, orgs, ref, slot + 1)
               else (orgs + [RowFor(Wanted(slugify, ref), slot)], Some(|orgs|))
  {
  }

  /** A refused insert is followed by the recovery search and the next slug. */
  lemma {:induction false} AfterRefusal(slugify: string -> string, orgs: Orgs, t: nat, want: Want, slot: nat,
                                        search: seq<Step>, more: seq<Step>, after: Txn, txn: Txn)
    requires KeysUnique(orgs) && slot < MAX_SLUG_ATTEMPTS && Refused(orgs, RowFor(want, slot))
    requires Run(slugify, Solo(orgs, t, Txn(map[], {}, QueryById(want, Some(slot)))), search) == Solo(orgs, t, after)
    requires Run(slugify, Solo(orgs, t, after), more) == Solo(orgs, t, txn)
    ensures Run(slugify, Solo(orgs, t, Txn(map[], {}, Create(want, slot))), [RunCreate(t, |orgs|)] + (search + more))
            == Solo(orgs, t, txn)
  {
    CreateOnce(slugify, orgs, t, want, slot);
    RunConcat(slugify, Solo(orgs, t, Txn(map[], {}, QueryById(want, Some(slot)))), search, more);
    RunFrom(slugify, Solo(orgs, t, Txn(map[], {}, Create(want, slot))), RunCreate(t, |orgs|), search + more);
  }

  lemma CreateOnce(slugify: string -> string, orgs: Orgs, t: nat, want: Want, slot: nat)
    requires KeysUnique(orgs) && slot < MAX_SLUG_ATTEMPTS
    ensures Apply(slugify, Solo(orgs, t, Txn(map[], {}, Create(want, slot))), RunCreate(t, |orgs|))
            == Solo(orgs, t, if Refused(orgs, RowFor(want, slot)) then Txn(map[], {}, QueryById(want, Some(slot)))
                             else Txn(map[|orgs| := RowFor(want, slot)], {Result(want, |orgs|)}, Ready))
  {
    var start := Txn(map[], {}, Create(want, slot));
    assert View(TableOf(orgs), start) == TableOf(orgs);
    assert {} + {Result(want, |orgs|)} == {Result(want, |orgs|)};
    assert Apply(slugify, Solo(orgs, t, start), RunCreate(t, |orgs|)).txns
           == map[t := AfterCreate(TableOf(orgs), start, |orgs|)];
    RefusedIsClash(orgs, RowFor(want, slot));
  }

  lemma RefusedIsClash(orgs: Orgs, org: Org)
    ensures Refused(orgs, org) <==> Clashes(TableOf(orgs), |orgs|, org)
  {
    if SlugTaken(orgs, org.slug) {
      var i :| 0 <= i < |orgs| && orgs[i].slug == org.slug;
      assert !Apart(TableOf(orgs)[i], org);
    }
    if org.groupId.Some? && FirstId(orgs, org.groupId.value).Some? {
      assert !Apart(TableOf(orgs)[FirstId(orgs, org.groupId.value).value], org);
    }
    if org.path != "" && FirstPath(orgs, org.path).Some? {
      assert !Apart(TableOf(orgs)[FirstPath(orgs, org.path).value], org);
    }
  }

  /** A transaction that resolves one reference with nobody else around, and commits, leaves the table
      and is told the row that the resolver run alone does. */
  lemma ResolvesAlone(slugify: string -> string, orgs: Orgs, t: nat, ref: GroupRef) returns (steps: seq<Step>)
    requires KeysUnique(orgs)
    ensures var (orgs', r) := Resolved(slugify, orgs, ref);
            Run(slugify, State(TableOf(orgs), map[], {}), steps)
            == State(TableOf(orgs'), map[], if r.Some? then {Result(Wanted(slugify, ref), r.value)} else {})
  {
    var want := Wanted(slugify, ref);
    var s0 := State(TableOf(orgs), map[], {});
    var search, txn := SearchAlone(slugify, orgs, t, want, None);
    var more: seq<Step> := [];
    FoundNothingIf(orgs, ref);
    if Found(orgs, ref).1.None? {
      more, txn := CreateAlone(slugify, orgs, t, ref, want, 0);
      CreatedGrows(slugify, orgs, ref, 0);
    }
    var called := Solo(orgs, t, Txn(map[], {}, QueryById(want, None)));
    RunConcat(slugify, called, search, more);
    RunConcat(slugify, called, search + more, [Commit(t)]);
    RunOne(slugify, Solo(orgs, t, txn), Commit(t));
    CommitAlone(slugify, orgs, t, txn, want, Resolved(slugify, orgs, ref).0, Resolved(slugify, orgs, ref).1);
    BeginsAlone(slugify, orgs, t, ref);
    RunFrom(slugify, Apply(slugify, s0, Begin(t)), Call(t, ref), search + more + [Commit(t)]);
    RunFrom(slugify, s0, Begin(t), [Call(t, ref)] + (search + more + [Commit(t)]));
    steps := [Begin(t)] + ([Call(t, ref)] + (search + more + [Commit(t)]));
  }

  lemma FoundNothingIf(orgs: Orgs, ref: GroupRef)
    ensures Found(orgs, ref).1.None? ==> Found(orgs, ref).0 == orgs
  {
    if Found(orgs, ref).1.None? {
      FoundNothing(orgs, ref);
    }
  }

  lemma BeginsAlone(slugify: string -> string, orgs: Orgs, t: nat, ref: GroupRef)
    ensures Apply(slugify, Apply(slugify, State(TableOf(orgs), map[], {}), Begin(t)), Call(t, ref))
            == Solo(orgs, t, Txn(map[], {}, QueryById(Wanted(slugify, ref), None)))
  {
    var began := Apply(slugify, State(TableOf(orgs), map[], {}), Begin(t));
    assert began == Solo(orgs, t, Txn(map[], {}, Ready));
    CallsAlone(slugify, orgs, t, ref);
  }

  lemma CallsAlone(slugify: string -> string, orgs: Orgs, t: nat, ref: GroupRef)
    ensures Apply(slugify, Solo(orgs, t, Txn(map[], {}, Ready)), Call(t, ref))
            == Solo(orgs, t, Txn(map[], {}, QueryById(Wanted(slugify, ref), None)))
  {
    var ready := Solo(orgs, t, Txn(map[], {}, Ready));
    var called := Txn(map[], {}, QueryById(Wanted(slugify, ref), None));
    assert Enabled(ready, Call(t, ref)) && ready.txns[t].(pc := QueryById(Wanted(slugify, ref), None)) == called;
    assert ready.txns[t := called] == map[t := called];
  }

  lemma CommitAlone(slugify: string -> string, orgs: Orgs, t: nat, txn: Txn, want: Want, orgs': Orgs, r: Option<nat>)
    requires if r.Some? then Found1(orgs, want, txn, orgs', r.value) else txn == Txn(map[], {}, Ready) && orgs' == orgs
    ensures Apply(slugify, Solo(orgs, t, txn), Commit(t))
            == State(TableOf(orgs'), map[], if r.Some? then {Result(want, r.value)} else {})
  {
    assert map[t := txn] - {t} == map[];
    assert {} + txn.results == txn.results;
    assert TableOf(orgs) + map[] == TableOf(orgs);
  }

  /** A resolver whose backfill was refused returns the row that holds the key, once it can see it. */
  lemma RefusedGivesOwner(slugify: string -> string, s: State, t: nat, owner: nat)
    requires t in s.txns && (s.txns[t].pc.PathTaken? || s.txns[t].pc.IdTaken?)
    requires Enabled(s, RunQuery(t, Some(owner)))
    ensures var txn, txn' := s.txns[t], Apply(slugify, s, RunQuery(t, Some(owner))).txns[t];
            var view := View(s.committed, txn);
            && txn'.pc == Ready && txn'.writes == txn.writes && txn'.results == txn.results + {Result(txn.pc.want, owner)}
            && owner in view
            && if txn.pc.PathTaken? then view[owner].path == txn.pc.want.path else view[owner].groupId == txn.pc.want.id
  {
    assert Answers(View(s.committed, s.txns[t]), s.txns[t].pc, Some(owner));
  }

  /** Whatever a transaction has looked up and written, rolling it back leaves no trace of it. */
  lemma {:induction false} RollbackUndoes(slugify: string -> string, s: State, t: nat, steps: seq<Step>)
    requires t !in s.txns && forall i :: 0 <= i < |steps| ==> steps[i].t == t && !steps[i].Commit?
    ensures Apply(slugify, Run(slugify, Apply(slugify, s, Begin(t)), steps), Rollback(t)) == s
  {
    var begun := Apply(slugify, s, Begin(t));
    assert begun.txns - {t} == s.txns;
    OnlyItself(slugify, s, begun, t, steps);
    var s' := Run(slugify, begun, steps);
    assert t !in s'.txns ==> s'.txns == s.txns;
  }

  lemma {:induction false} OnlyItself(slugify: string -> string, s: State, now: State, t: nat, steps: seq<Step>)
    requires t !in s.txns && now == s.(txns := now.txns) && now.txns - {t} == s.txns
    requires forall i :: 0 <= i < |steps| ==> steps[i].t == t && !steps[i].Commit?
    ensures var s' := Run(slugify, now, steps); s' == s.(txns := s'.txns) && s'.txns - {t} == s.txns
    decreases |steps|
  {
    if steps != [] {
      var next := Apply(slugify, now, steps[0]);
      assert next.txns - {t} == s.txns;
      OnlyItself(slugify, s, next, t, steps[1..]);
    }
  }
}
