/** One membership under concurrent logins and membership events (`reconcile_user_memberships` and
    `apply_group_membership_change` of `apps/identity/org_replication.py`). A login locks the rows the
    user has when it begins; a row that appears later it reads without a lock. */
module SeatRace {
  import opened Basics
  import opened OrgTable
  import opened Reconcile

  /** A login whose token names the organization or not, a join event, a leave event. */
  datatype Job = Login(wanted: bool, pass: Pass) | Join | Leave

  function Activated(m: Membership): Membership {
    if m.origin == Keycloak then m.(status := Active) else m
  }

  /** What a transaction makes of the row when it runs alone. */
  function Effect(job: Job, org: Org, row: Option<Membership>): Option<Membership> {
    var m := if row.Some? then row.value else JOINED;
    match job
    case Login(wanted, pass) =>
      if wanted then Some(Granted(m, org, pass)) else if row.Some? && pass.prune then Some(Dropped(m)) else row
    case Join => Some(Activated(m))
    case Leave => if row.Some? then Some(Dropped(m)) else None
  }

  function Replay(job: nat -> Job, org: Org, row: Option<Membership>, log: seq<nat>): Option<Membership> {
    if log == [] then row else Effect(job(log[|log| - 1]), org, Replay(job, org, row, log[..|log| - 1]))
  }

  /** Where a transaction stands: it found no row to lock, it has read the row without a lock, it holds
      the row, it is through, or it came too late and had no role to write. */
  datatype Phase = Outside | Knows(seen: Membership) | Holds | Done | TooLate | RolledBack

  /** A version of the row that is not committed; its owner holds the row's lock. */
  datatype Pending = Pending(owner: nat, row: Option<Membership>)

  /** `log` lists the transactions that are through, in the order of their turns at the row. */
  datatype State = State(row: Option<Membership>, pending: Option<Pending>, phases: map<nat, Phase>, log: seq<nat>)

  function Start(row: Option<Membership>): State {
    State(row, None, map[], [])
  }

  datatype Step = Begin(t: nat) | Get(t: nat) | Write(t: nat) | Commit(t: nat) | Rollback(t: nat)

  predicate In(s: State, t: nat, p: Phase -> bool) {
    t in s.phases && p(s.phases[t])
  }

  predicate Owns(s: State, t: nat) {
    s.pending.Some? && s.pending.value.owner == t
  }

  function To(s: State, t: nat, phase: Phase): State {
    s.(phases := s.phases[t := phase])
  }

  function Finished(s: State, t: nat): State {
    To(s, t, Done).(log := s.log + [t])
  }

  /** The lock and what is written under it; nobody else sees the row in between. */
  function Taken(s: State, t: nat, row: Option<Membership>): State {
    To(s, t, Holds).(pending := Some(Pending(t, row)))
  }

  /** `get_or_create` found a row the transaction will not write. */
  predicate NothingToDo(job: Job, org: Org, m: Membership) {
    m.origin == Manual || (m.status == Active && (job.Login? ==> !IsActive(m, org, job.pass.now)))
  }

  /** `get_or_create`: an existing row is read without a lock; an insert waits for another one's end. */
  function Got(job: Job, org: Org, s: State, t: nat): State {
    if s.row.Some? then
      if NothingToDo(job, org, s.row.value) then Finished(s, t) else To(s, t, Knows(s.row.value))
    else if s.pending.None? then Taken(s, t, Effect(job, org, s.row))
    else s
  }

  /** A login and a leave lock the row if there is one. */
  function Begun(job: Job, org: Org, s: State, t: nat): State {
    if job.Join? then Got(job, org, s, t)
    else if s.row.None? then
      if job.Login? && job.wanted then To(s, t, Outside) else Finished(s, t)
    else if s.pending.None? then Taken(s, t, Effect(job, org, s.row))
    else s
  }

  function RolesWritten(m: Membership, pass: Pass): Membership {
    m.(roles := if pass.prune then pass.codes else m.roles + pass.codes)
  }

  /** The writes that follow a read without a lock. Writing the status takes the lock; a login that saw
      the row active writes the roles only. */
  function Written(job: Job, org: Org, s: State, t: nat, seen: Membership): State
    requires s.row.Some?
  {
    if seen.status != Active || !job.Login? then Taken(s, t, Effect(job, org, s.row))
    else
      var row := RolesWritten(s.row.value, job.pass);
      if s.row.value.status != Active && row == s.row.value then To(s, t, TooLate) else Taken(s, t, Some(row))
  }

  function Next(job: nat -> Job, org: Org, s: State, step: Step): State {
    var t := step.t;
    match step
    case Begin(_) => if t in s.phases then s else Begun(job(t), org, s, t)
    case Get(_) => if In(s, t, (p: Phase) => p.Outside?) then Got(job(t), org, s, t) else s
    case Write(_) => if Writes(s, t) then Written(job(t), org, s, t, s.phases[t].seen) else s
    case Commit(_) => if Owns(s, t) then Finished(s, t).(row := s.pending.value.row, pending := None) else s
    case Rollback(_) =>
      if !In(s, t, (p: Phase) => p.Outside? || p.Knows? || p.Holds?) then s
      else To(s, t, RolledBack).(pending := if Owns(s, t) then None else s.pending)
  }

  predicate Writes(s: State, t: nat) {
    In(s, t, (p: Phase) => p.Knows?) && s.pending.None? && s.row.Some?
  }

  function Run(job: nat -> Job, org: Org, s: State, steps: seq<Step>): State {
    if steps == [] then s else Next(job, org, Run(job, org, s, steps[..|steps| - 1]), steps[|steps| - 1])
  }

  /** A login writes roles to a row that it saw active and that was revoked since. */
  predicate Late(job: nat -> Job, s: State, step: Step) {
    && step.Write? && Writes(s, step.t) && job(step.t).Login? && s.phases[step.t].seen.status == Active
    && s.row.value.status != Active && RolesWritten(s.row.value, job(step.t).pass) != s.row.value
  }

  predicate NeverLate(job: nat -> Job, org: Org, s: State, steps: seq<Step>) {
    steps == [] || (NeverLate(job, org, s, steps[..|steps| - 1])
                    && !Late(job, Run(job, org, s, steps[..|steps| - 1]), steps[|steps| - 1]))
  }

  // ---------------------------------------------------- the effects, one by one

  function RowOf(members: Members, key: Reconcile.Key): Option<Membership> {
    if key in members then Some(members[key]) else None
  }

  /** One row's share of a whole login or event. */
  lemma EffectIsShare(members: Members, orgs: Orgs, user: string, wanted: set<nat>, pass: Pass, o: nat)
    requires o < |orgs| && forall w :: w in wanted ==> w < |orgs|
    ensures var key := Reconcile.Key(o, user);
            && RowOf(Reconciled(members, orgs, user, wanted, pass), key)
               == Effect(Login(o in wanted, pass), orgs[o], RowOf(members, key))
            && RowOf(Joined(members, key), key) == Effect(Join, orgs[o], RowOf(members, key))
            && RowOf(Left(members, key), key) == Effect(Leave, orgs[o], RowOf(members, key))
  {
    var key := Reconcile.Key(o, user);
    assert key in UserKeys(members, user) <==> key in members;
    assert o in UserOrgs(members, user) <==> key in members;
    assert o in wanted ==> key in KeysOf(wanted, user);
  }

  function UserKeys(members: Members, user: string): set<Reconcile.Key> {
    set k | k in members && k.user == user
  }

  predicate SameSeat(a: Membership, b: Membership) {
    a.origin == b.origin && a.expiresAt == b.expiresAt
  }

  lemma EffectKeeps(job: Job, org: Org, row: Option<Membership>)
    ensures row.Some? ==> Effect(job, org, row).Some? && SameSeat(row.value, Effect(job, org, row).value)
    ensures row.Some? && row.value.status in {Active, Revoked} ==> Effect(job, org, row).value.status in {Active, Revoked}
  {
  }

  /** A revoked membership that the groups manage carries no role. */
  predicate Bare(row: Option<Membership>) {
    row.Some? && row.value.origin == Keycloak && row.value.status == Revoked ==> row.value.roles == {}
  }

  lemma {:induction false} ReplayBare(job: nat -> Job, org: Org, row: Option<Membership>, log: seq<nat>)
    requires Bare(row)
    ensures Bare(Replay(job, org, row, log))
  {
    if log != [] {
      ReplayBare(job, org, row, log[..|log| - 1]);
    }
  }

  // ----------------------------------------------------------- serializability

  ghost predicate Distinct(log: seq<nat>) {
    forall i, j :: 0 <= i < j < |log| ==> log[i] != log[j]
  }

  /** The committed row is what the transactions in the log make of it one at a time, and the log has
      every transaction that is through exactly once. */
  ghost predicate Serial(job: nat -> Job, org: Org, row0: Option<Membership>, s: State) {
    && s.row == Replay(job, org, row0, s.log) && Distinct(s.log)
    && forall t :: t in s.log <==> t in s.phases && s.phases[t].Done?
  }

  ghost predicate PhaseOk(job: Job, org: Org, s: State, t: nat, phase: Phase) {
    match phase
    case Outside => job.Login? && job.wanted
    case Knows(m) =>
      && (job.Join? || (job.Login? && job.wanted)) && !NothingToDo(job, org, m)
      && s.row.Some? && SameSeat(m, s.row.value) && (m.status == Active ==> s.row.value.status in {Active, Revoked})
    case Holds => Owns(s, t)
    case _ => !Owns(s, t)
  }

  ghost predicate PendingOk(job: nat -> Job, org: Org, s: State) {
    s.pending.Some? ==>
      var t := s.pending.value.owner;
      t in s.phases && s.phases[t].Holds? && s.pending.value.row == Effect(job(t), org, s.row)
  }

  ghost predicate Inv(job: nat -> Job, org: Org, row0: Option<Membership>, s: State) {
    && Serial(job, org, row0, s) && PendingOk(job, org, s)
    && forall t :: t in s.phases ==> PhaseOk(job(t), org, s, t, s.phases[t])
  }

  /** A transaction's turn at the row: it goes to the end of the log. */
  lemma SerialNext(job: nat -> Job, org: Org, row0: Option<Membership>, s: State, t: nat)
    requires Serial(job, org, row0, s) && (t in s.phases ==> !s.phases[t].Done?)
    ensures Serial(job, org, row0, Finished(s, t).(row := Effect(job(t), org, s.row)))
  {
    var log := s.log + [t];
    assert log[..|s.log|] == s.log && log[|log| - 1] == t;
    assert t !in s.log;
    forall u ensures u in log <==> u in s.log || u == t {}
  }

  lemma FinishedOk(job: nat -> Job, org: Org, row0: Option<Membership>, s: State, t: nat)
    requires Inv(job, org, row0, s) && (t in s.phases ==> !s.phases[t].Done?) && !Owns(s, t)
    requires Effect(job(t), org, s.row) == s.row
    ensures Inv(job, org, row0, Finished(s, t))
  {
    SerialNext(job, org, row0, s, t);
    var s' := Finished(s, t);
    assert Serial(job, org, row0, s');
    assert PendingOk(job, org, s');
    forall u | u in s'.phases ensures PhaseOk(job(u), org, s', u, s'.phases[u]) {
      assert u != t ==> PhaseOk(job(u), org, s, u, s.phases[u]);
    }
  }

  lemma TakenOk(job: nat -> Job, org: Org, row0: Option<Membership>, s: State, t: nat)
    requires Inv(job, org, row0, s) && (t in s.phases ==> !s.phases[t].Done?) && s.pending.None?
    ensures Inv(job, org, row0, Taken(s, t, Effect(job(t), org, s.row)))
  {
  }

  lemma GotOk(job: nat -> Job, org: Org, row0: Option<Membership>, s: State, t: nat)
    requires Inv(job, org, row0, s) && (t in s.phases ==> s.phases[t].Outside?)
    requires job(t).Join? || (job(t).Login? && job(t).wanted)
    ensures Inv(job, org, row0, Got(job(t), org, s, t))
  {
    if s.row.Some? && NothingToDo(job(t), org, s.row.value) {
      FinishedOk(job, org, row0, s, t);
    } else if s.row.None? && s.pending.None? {
      TakenOk(job, org, row0, s, t);
    }
  }

  lemma BegunOk(job: nat -> Job, org: Org, row0: Option<Membership>, s: State, t: nat)
    requires Inv(job, org, row0, s) && t !in s.phases
    ensures Inv(job, org, row0, Begun(job(t), org, s, t))
  {
    if job(t).Join? {
      GotOk(job, org, row0, s, t);
    } else if s.row.Some? && s.pending.None? {
      TakenOk(job, org, row0, s, t);
    } else if s.row.None? && !(job(t).Login? && job(t).wanted) {
      FinishedOk(job, org, row0, s, t);
    }
  }

  lemma WrittenOk(job: nat -> Job, org: Org, row0: Option<Membership>, s: State, t: nat)
    requires Inv(job, org, row0, s) && Writes(s, t) && !Late(job, s, Write(t))
    ensures Inv(job, org, row0, Written(job(t), org, s, t, s.phases[t].seen))
  {
    TakenOk(job, org, row0, s, t);
  }

  lemma CommitOk(job: nat -> Job, org: Org, row0: Option<Membership>, s: State, t: nat)
    requires Inv(job, org, row0, s) && Owns(s, t)
    ensures Inv(job, org, row0, Next(job, org, s, Commit(t)))
  {
    SerialNext(job, org, row0, s, t);
    EffectKeeps(job(t), org, s.row);
    var s' := Next(job, org, s, Commit(t));
    forall u | u in s'.phases ensures PhaseOk(job(u), org, s', u, s'.phases[u]) {
      assert u != t ==> PhaseOk(job(u), org, s, u, s.phases[u]);
    }
  }

  lemma NextOk(job: nat -> Job, org: Org, row0: Option<Membership>, s: State, step: Step)
    requires Inv(job, org, row0, s) && !Late(job, s, step)
    ensures Inv(job, org, row0, Next(job, org, s, step))
  {
    var t := step.t;
    match step {
      case Begin(_) => if t !in s.phases { BegunOk(job, org, row0, s, t); }
      case Get(_) => if t in s.phases && s.phases[t].Outside? { GotOk(job, org, row0, s, t); }
      case Write(_) => if Writes(s, t) { WrittenOk(job, org, row0, s, t); }
      case Commit(_) => if Owns(s, t) { CommitOk(job, org, row0, s, t); }
      case Rollback(_) =>
    }
  }

  /** Unless a login writes late, every interleaving is serial. */
  lemma {:induction false} SerialUnlessLate(job: nat -> Job, org: Org, row0: Option<Membership>, steps: seq<Step>)
    requires NeverLate(job, org, Start(row0), steps)
    ensures Inv(job, org, row0, Run(job, org, Start(row0), steps))
  {
    if steps != [] {
      SerialUnlessLate(job, org, row0, steps[..|steps| - 1]);
      NextOk(job, org, row0, Run(job, org, Start(row0), steps[..|steps| - 1]), steps[|steps| - 1]);
    }
  }

  /** The user had the row before: logins lock it, so none reads it without a lock. */
  ghost predicate LoginsLock(job: nat -> Job, s: State) {
    s.row.Some? && forall t :: t in s.phases ==> !s.phases[t].Outside? && (s.phases[t].Knows? ==> !job(t).Login?)
  }

  lemma LoginsLockNext(job: nat -> Job, org: Org, row0: Option<Membership>, s: State, step: Step)
    requires Inv(job, org, row0, s) && LoginsLock(job, s)
    ensures !Late(job, s, step) && LoginsLock(job, Next(job, org, s, step))
  {
    EffectKeeps(job(step.t), org, s.row);
  }

  lemma {:induction false} LoginsLockAlways(job: nat -> Job, org: Org, row0: Option<Membership>, steps: seq<Step>)
    requires row0.Some?
    ensures NeverLate(job, org, Start(row0), steps) && LoginsLock(job, Run(job, org, Start(row0), steps))
    ensures Inv(job, org, row0, Run(job, org, Start(row0), steps))
  {
    if steps != [] {
      var front := steps[..|steps| - 1];
      LoginsLockAlways(job, org, row0, front);
      LoginsLockNext(job, org, row0, Run(job, org, Start(row0), front), steps[|steps| - 1]);
      NextOk(job, org, row0, Run(job, org, Start(row0), front), steps[|steps| - 1]);
    }
  }

  /** Whatever logins and events overlap, a membership that was there before ends up as after running
      the transactions that got through one at a time; a manual one is left alone. */
  lemma {:induction false} ExistingRowSerial(job: nat -> Job, org: Org, row0: Membership, steps: seq<Step>)
    ensures var s := Run(job, org, Start(Some(row0)), steps);
            Serial(job, org, Some(row0), s) && (row0.origin == Manual ==> s.row == Some(row0))
  {
    LoginsLockAlways(job, org, Some(row0), steps);
    ReplayManual(job, org, row0, Run(job, org, Start(Some(row0)), steps).log);
  }

  lemma {:induction false} ReplayManual(job: nat -> Job, org: Org, row: Membership, log: seq<nat>)
    ensures row.origin == Manual ==> Replay(job, org, Some(row), log) == Some(row)
  {
    if log != [] {
      ReplayManual(job, org, row, log[..|log| - 1]);
    }
  }

  // ------------------------------------------------------------------ late logins

  ghost predicate BareState(s: State) {
    Bare(s.row) && (s.pending.Some? ==> Bare(s.pending.value.row))
  }

  lemma InvBare(job: nat -> Job, org: Org, row0: Option<Membership>, s: State)
    requires Inv(job, org, row0, s) && Bare(row0)
    ensures BareState(s)
  {
    ReplayBare(job, org, row0, s.log);
  }

  lemma {:induction false} LateNotBare(job: nat -> Job, org: Org, row0: Option<Membership>, s: State, step: Step)
    requires Inv(job, org, row0, s) && Bare(row0) && Late(job, s, step)
    ensures !BareState(Next(job, org, s, step))
    ensures var s' := Next(job, org, Next(job, org, s, step), Commit(step.t));
            s'.phases[step.t].Done? && forall log :: s'.row != Replay(job, org, row0, log)
  {
    InvBare(job, org, row0, s);
    var s' := Next(job, org, Next(job, org, s, step), Commit(step.t));
    forall log ensures s'.row != Replay(job, org, row0, log) {
      ReplayBare(job, org, row0, log);
    }
  }

  /** At every point of the run. */
  ghost predicate AlwaysBare(job: nat -> Job, org: Org, s: State, steps: seq<Step>) {
    BareState(Run(job, org, s, steps)) && (steps != [] ==> AlwaysBare(job, org, s, steps[..|steps| - 1]))
  }

  /** Revoked memberships carry no role at any point of a run exactly when no login wrote roles to a
      row that it saw active and that was revoked since. */
  lemma {:induction false} BareIff(job: nat -> Job, org: Org, row0: Option<Membership>, steps: seq<Step>)
    requires Bare(row0)
    ensures AlwaysBare(job, org, Start(row0), steps) <==> NeverLate(job, org, Start(row0), steps)
  {
    if steps != [] {
      var front, last := steps[..|steps| - 1], steps[|steps| - 1];
      BareIff(job, org, row0, front);
      if NeverLate(job, org, Start(row0), front) {
        SerialUnlessLate(job, org, row0, front);
        BareNext(job, org, row0, Run(job, org, Start(row0), front), last);
      }
    }
  }

  lemma BareNext(job: nat -> Job, org: Org, row0: Option<Membership>, s: State, step: Step)
    requires Inv(job, org, row0, s) && Bare(row0)
    ensures BareState(Next(job, org, s, step)) <==> !Late(job, s, step)
  {
    if Late(job, s, step) {
      LateNotBare(job, org, row0, s, step);
    } else {
      NextOk(job, org, row0, s, step);
      InvBare(job, org, row0, Next(job, org, s, step));
    }
  }

  /** Once a late login commits, no order of any of the transactions explains the row. */
  lemma {:induction false} LateNotSerial(job: nat -> Job, org: Org, row0: Option<Membership>, steps: seq<Step>,
                                         step: Step, log: seq<nat>)
    requires Bare(row0) && NeverLate(job, org, Start(row0), steps) && Late(job, Run(job, org, Start(row0), steps), step)
    ensures Run(job, org, Start(row0), steps + [step] + [Commit(step.t)]).row != Replay(job, org, row0, log)
  {
    SerialUnlessLate(job, org, row0, steps);
    LateNotBare(job, org, row0, Run(job, org, Start(row0), steps), step);
    RunNext(job, org, row0, steps, step);
    RunNext(job, org, row0, steps + [step], Commit(step.t));
  }

  lemma {:induction false} RunNext(job: nat -> Job, org: Org, row0: Option<Membership>, steps: seq<Step>, step: Step)
    ensures Run(job, org, Start(row0), steps + [step]) == Next(job, org, Run(job, org, Start(row0), steps), step)
  {
    assert (steps + [step])[..|steps|] == steps;
  }

  // ---------------------------------------------------------------- running alone

  /** The statements of one transaction that nobody interrupts. */
  function AloneSteps(t: nat): seq<Step> {
    [Begin(t), Get(t), Write(t), Commit(t)]
  }

  /** A transaction that runs alone makes of the row what its job says, and is through. */
  lemma {:induction false} AloneIsEffect(job: nat -> Job, org: Org, row: Option<Membership>, t: nat)
    ensures var s := Run(job, org, Start(row), AloneSteps(t));
            s.row == Effect(job(t), org, row) && s.pending.None? && s.log == [t] && s.phases == map[t := Done]
  {
    FourSteps(job, org, Start(row), AloneSteps(t));
    var begun := Next(job, org, Start(row), Begin(t));
    BegunAlone(job, org, row, t);
    var got := Next(job, org, begun, Get(t));
    GotAlone(job, org, row, t, begun);
    WrittenAlone(job, org, row, t, got);
  }

  /** Before its commit the transaction has the row, or has read it and will write, or is through. */
  ghost predicate Ready(job: Job, org: Org, row: Option<Membership>, s: State, t: nat) {
    && s.row == row
    && match if t in s.phases then s.phases[t] else RolledBack
       case Holds => s == Taken(Start(row), t, Effect(job, org, row))
       case Knows(m) => row == Some(m) && s == To(Start(row), t, Knows(m)) && !job.Leave? && !NothingToDo(job, org, m)
                        && (job.Login? ==> job.wanted)
       case Done => s == Finished(Start(row), t) && Effect(job, org, row) == row
       case _ => false
  }

  lemma BegunAlone(job: nat -> Job, org: Org, row: Option<Membership>, t: nat)
    ensures var s := Next(job, org, Start(row), Begin(t));
            Ready(job(t), org, row, s, t)
            || (row.None? && job(t).Login? && job(t).wanted && s == To(Start(row), t, Outside))
  {
  }

  lemma GotAlone(job: nat -> Job, org: Org, row: Option<Membership>, t: nat, s: State)
    requires Ready(job(t), org, row, s, t)
             || (row.None? && job(t).Login? && job(t).wanted && s == To(Start(row), t, Outside))
    ensures Ready(job(t), org, row, Next(job, org, s, Get(t)), t)
  {
    assert map[t := Outside][t := Holds] == map[t := Holds];
  }

  lemma WrittenAlone(job: nat -> Job, org: Org, row: Option<Membership>, t: nat, s: State)
    requires Ready(job(t), org, row, s, t)
    ensures var s' := Next(job, org, Next(job, org, s, Write(t)), Commit(t));
            s'.row == Effect(job(t), org, row) && s'.pending.None? && s'.log == [t] && s'.phases == map[t := Done]
  {
    assert forall m :: map[t := Knows(m)][t := Holds] == map[t := Holds];
    assert map[t := Holds][t := Done] == map[t := Done] && [] + [t] == [t];
    var written := Next(job, org, s, Write(t));
    assert written == Taken(Start(row), t, Effect(job(t), org, row)) || written == Finished(Start(row), t);
  }

  /** A transaction rolled back before its commit leaves the row, the lock and the order of the others as
      they were before it began. */
  lemma RollbackUndoes(job: nat -> Job, org: Org, s: State, t: nat)
    requires t !in s.phases && s.pending.None?
    ensures var begun := Next(job, org, s, Begin(t));
            var written := Next(job, org, Next(job, org, begun, Get(t)), Write(t));
            var left := Next(job, org, written, Rollback(t));
            && left.row == s.row && left.pending == None
            && (In(written, t, (p: Phase) => p.Holds?) ==> left == s.(phases := s.phases[t := RolledBack]))
  {
    var begun := Next(job, org, s, Begin(t));
    var got := Next(job, org, begun, Get(t));
    var written := Next(job, org, got, Write(t));
    assert begun.row == s.row && got.row == s.row && written.row == s.row;
    var left := Next(job, org, written, Rollback(t));
    if In(written, t, (p: Phase) => p.Holds?) {
      assert left.phases == s.phases[t := RolledBack];
    }
  }

  /** A login (0) that finds no row to lock, a join (1), a leave (2) and a join again (3). */
  function Jobs(pass: Pass): nat -> Job {
    t => if t == 0 then Login(true, pass) else if t == 2 then Leave else Join
  }

  /** The login reads the row of a join that began after it. */
  const READ_STEPS: seq<Step> := [Begin(0), Begin(1), Commit(1), Get(0)]
  /** The row is revoked, and the login goes on. */
  const LATE_STEPS: seq<Step> := [Begin(2), Commit(2), Write(0), Commit(0)]
  const JOIN_STEPS: seq<Step> := [Begin(3), Write(3), Commit(3)]

  /** It happens: the login reads the row of the first join, the leave revokes it, the login adds its
      roles. The next join makes the membership active with them, though a join brings no roles. */
  lemma {:induction false} LateHappens(org: Org, pass: Pass)
    requires org.isActive && pass.codes != {}
    ensures var late := Run(Jobs(pass), org, Run(Jobs(pass), org, Start(None), READ_STEPS), LATE_STEPS);
            && late.row == Some(JOINED.(status := Revoked, roles := pass.codes))
            && Run(Jobs(pass), org, late, JOIN_STEPS).row == Some(JOINED.(roles := pass.codes))
  {
    var job := Jobs(pass);
    var read := Run(job, org, Start(None), READ_STEPS);
    FourSteps(job, org, Start(None), READ_STEPS);
    ReadState(org, pass);
    FourSteps(job, org, read, LATE_STEPS);
    LateState(org, pass, read);
    var late := Run(job, org, read, LATE_STEPS);
    ThreeSteps(job, org, late, JOIN_STEPS);
    JoinState(org, pass, late);
  }

  lemma ReadState(org: Org, pass: Pass)
    requires org.isActive && pass.codes != {}
    ensures var job := Jobs(pass);
            var begun := Next(job, org, Next(job, org, Start(None), Begin(0)), Begin(1));
            var s := Next(job, org, Next(job, org, begun, Commit(1)), Get(0));
            s.row == Some(JOINED) && s.pending.None? && s.phases == map[0 := Knows(JOINED), 1 := Done]
  {
  }

  lemma LateState(org: Org, pass: Pass, s: State)
    requires org.isActive && pass.codes != {}
    requires s.row == Some(JOINED) && s.pending.None? && s.phases == map[0 := Knows(JOINED), 1 := Done]
    ensures var job := Jobs(pass);
            var left := Next(job, org, Next(job, org, s, Begin(2)), Commit(2));
            var s' := Next(job, org, Next(job, org, left, Write(0)), Commit(0));
            s'.row == Some(JOINED.(status := Revoked, roles := pass.codes)) && s'.pending.None? && 3 !in s'.phases
  {
    LeftState(org, pass, s);
    WroteState(org, pass, Next(Jobs(pass), org, Next(Jobs(pass), org, s, Begin(2)), Commit(2)));
  }

  lemma LeftState(org: Org, pass: Pass, s: State)
    requires s.row == Some(JOINED) && s.pending.None? && s.phases == map[0 := Knows(JOINED), 1 := Done]
    ensures var left := Next(Jobs(pass), org, Next(Jobs(pass), org, s, Begin(2)), Commit(2));
            && left.row == Some(JOINED.(status := Revoked)) && left.pending.None?
            && left.phases == map[0 := Knows(JOINED), 1 := Done, 2 := Done]
  {
  }

  lemma WroteState(org: Org, pass: Pass, s: State)
    requires org.isActive && pass.codes != {}
    requires s.row == Some(JOINED.(status := Revoked)) && s.pending.None?
    requires s.phases == map[0 := Knows(JOINED), 1 := Done, 2 := Done]
    ensures var s' := Next(Jobs(pass), org, Next(Jobs(pass), org, s, Write(0)), Commit(0));
            s'.row == Some(JOINED.(status := Revoked, roles := pass.codes)) && s'.pending.None? && 3 !in s'.phases
  {
    assert {} + pass.codes == pass.codes;
  }

  lemma JoinState(org: Org, pass: Pass, s: State)
    requires s.row == Some(JOINED.(status := Revoked, roles := pass.codes)) && s.pending.None? && 3 !in s.phases
    ensures var job := Jobs(pass);
            var s' := Next(job, org, Next(job, org, Next(job, org, s, Begin(3)), Write(3)), Commit(3));
            s'.row == Some(JOINED.(roles := pass.codes))
  {
  }

  lemma {:induction false} ThreeSteps(job: nat -> Job, org: Org, s: State, steps: seq<Step>)
    requires |steps| == 3
    ensures Run(job, org, s, steps) == Next(job, org, Next(job, org, Next(job, org, s, steps[0]), steps[1]), steps[2])
  {
    assert steps[..2][..1] == steps[..1] && steps[..1][..0] == [];
    assert Run(job, org, s, steps[..1]) == Next(job, org, s, steps[0]);
    assert Run(job, org, s, steps[..2]) == Next(job, org, Run(job, org, s, steps[..1]), steps[1]);
  }

  lemma {:induction false} FourSteps(job: nat -> Job, org: Org, s: State, steps: seq<Step>)
    requires |steps| == 4
    ensures Run(job, org, s, steps)
            == Next(job, org, Next(job, org, Next(job, org, Next(job, org, s, steps[0]), steps[1]), steps[2]), steps[3])
  {
    ThreeSteps(job, org, s, steps[..3]);
  }
}
