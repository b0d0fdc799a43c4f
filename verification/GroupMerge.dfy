/** The one-off merge of organizations that forked into an id-only and a path-only row
    (`merge_duplicate_group_orgs` of the identity migration 0006). */
module GroupMerge {
  import opened Basics

  datatype Row = Row(name: string, groupId: Option<string>, path: string, createdAt: int)
  datatype Seat = Seat(org: nat, user: string)

  /** Organizations and memberships by primary key. */
  type Rows = map<nat, Row>
  type Seats = map<nat, Seat>

  predicate IsCanonical(row: Row) {
    row.groupId.Some? && row.path == ""
  }

  predicate IsTwin(row: Row, canon: Row) {
    row.groupId.None? && row.name == canon.name && row.path != ""
  }

  predicate Seated(seats: Seats, org: nat, user: string) {
    exists m :: m in seats && seats[m] == Seat(org, user)
  }

  /** (organization, user) is unique. */
  ghost predicate OneSeat(seats: Seats) {
    forall m, n :: m in seats && n in seats && seats[m] == seats[n] ==> m == n
  }

  ghost predicate UniquePaths(orgs: Rows) {
    forall a, b :: a in orgs && b in orgs && a != b && orgs[a].path != "" ==> orgs[a].path != orgs[b].path
  }

  /** The memberships `done` of one twin repointed, or dropped where the user is already seated. */
  function Moved(seats: Seats, canon: nat, done: set<nat>): Seats {
    map m | m in seats && !(m in done && Seated(seats, canon, seats[m].user)) ::
      if m in done then Seat(canon, seats[m].user) else seats[m]
  }

  function SeatsOf(seats: Seats, org: nat): set<nat> {
    set m | m in seats && seats[m].org == org
  }

  function UsersOf(seats: Seats, org: nat): set<string> {
    set m | m in seats && seats[m].org == org :: seats[m].user
  }

  // -------------------------------------------------------- what merging means

  /** One twin taken over by one canonical row. */
  datatype Absorption = Absorption(twin: nat, canon: nat)

  function Replay(seats: Seats, log: seq<Absorption>): Seats {
    if log == [] then seats
    else
      var s := Replay(seats, log[..|log| - 1]);
      Moved(s, log[|log| - 1].canon, SeatsOf(s, log[|log| - 1].twin))
  }

  /** Where the memberships of an organization end up. */
  function Home(log: seq<Absorption>, org: nat): nat {
    if log == [] then org
    else
      var home := Home(log[..|log| - 1], org);
      if home == log[|log| - 1].twin then log[|log| - 1].canon else home
  }

  function Twins(log: seq<Absorption>): set<nat> {
    set a | a in log :: a.twin
  }

  function TwinsOf(orgs: Rows, canon: nat): set<nat>
    requires canon in orgs
  {
    set t | t in orgs && IsTwin(orgs[t], orgs[canon])
  }

  function Canonicals(orgs: Rows): set<nat> {
    set c | c in orgs && IsCanonical(orgs[c])
  }

  predicate PathHeld(orgs: Rows, canon: nat, path: string) {
    exists o :: o in orgs && o != canon && orgs[o].path == path
  }

  /** The canonical row after its twins: it takes the adopted path unless another row holds it. */
  function WithPath(orgs: Rows, canon: nat, adopted: string): Rows
    requires canon in orgs
  {
    if adopted != "" && !PathHeld(orgs, canon, adopted) then orgs[canon := orgs[canon].(path := adopted)] else orgs
  }

  /** The log of one canonical row: the given twins, each once, earliest first. */
  ghost predicate Absorbs(orgs: Rows, canon: nat, twins: set<nat>, log: seq<Absorption>) {
    && Twins(log) == twins <= orgs.Keys
    && (forall i :: 0 <= i < |log| ==> log[i].canon == canon)
    && (forall i, j :: 0 <= i < j < |log| ==>
          log[i].twin != log[j].twin && orgs[log[i].twin].createdAt <= orgs[log[j].twin].createdAt)
  }

  function AdoptedPath(orgs: Rows, log: seq<Absorption>): string
    requires Twins(log) <= orgs.Keys
  {
    if log == [] then ""
    else
      assert log[0].twin in Twins(log);
      orgs[log[0].twin].path
  }

  /** Every membership sits at its organization's home, nobody loses a seat, and only rows of
      absorbed twins move or disappear. */
  ghost predicate SeatsMerged(before: Seats, after: Seats, log: seq<Absorption>) {
    && OneSeat(after)
    && (forall m :: m in after ==> m in before && after[m] == Seat(Home(log, before[m].org), before[m].user))
    && (forall m :: m in before ==> Seated(after, Home(log, before[m].org), before[m].user))
    && (forall m :: m in before && before[m].org !in Twins(log) ==> m in after)
  }

  /** Replaying a log moves every seat to its home. */
  lemma {:induction false} ReplayMerges(seats: Seats, log: seq<Absorption>)
    requires OneSeat(seats) && forall a :: a in log ==> a.canon != a.twin
    ensures SeatsMerged(seats, Replay(seats, log), log)
  {
    if log == [] {
      assert forall m :: m in seats ==> Seated(seats, seats[m].org, seats[m].user);
    } else {
      ReplayMerges(seats, log[..|log| - 1]);
      SeatsStayMerged(seats, Replay(seats, log[..|log| - 1]), log);
    }
  }

  lemma SeatsStayMerged(before: Seats, after: Seats, log: seq<Absorption>)
    requires log != [] && SeatsMerged(before, after, log[..|log| - 1]) && log[|log| - 1].canon != log[|log| - 1].twin
    ensures var last := log[|log| - 1]; SeatsMerged(before, Moved(after, last.canon, SeatsOf(after, last.twin)), log)
  {
    var last := log[|log| - 1];
    MovedUnique(after, last.twin, last.canon);
    AllSeated(before, after, log);
    forall m | m in Moved(after, last.canon, SeatsOf(after, last.twin)) {
      SeatAtHome(before, after, log, m);
    }
  }

  lemma {:induction false} AllSeated(before: Seats, after: Seats, log: seq<Absorption>)
    requires log != [] && SeatsMerged(before, after, log[..|log| - 1]) && log[|log| - 1].canon != log[|log| - 1].twin
    ensures var after' := Moved(after, log[|log| - 1].canon, SeatsOf(after, log[|log| - 1].twin));
            && (forall m :: m in before ==> Seated(after', Home(log, before[m].org), before[m].user))
            && (forall m :: m in before && before[m].org !in Twins(log) ==> m in after')
  {
    forall m | m in before {
      SeatStays(before, after, log, m);
    }
  }

  lemma {:induction false} SeatAtHome(before: Seats, after: Seats, log: seq<Absorption>, m: nat)
    requires log != [] && SeatsMerged(before, after, log[..|log| - 1]) && log[|log| - 1].canon != log[|log| - 1].twin
    requires m in Moved(after, log[|log| - 1].canon, SeatsOf(after, log[|log| - 1].twin))
    ensures m in before
    ensures var after' := Moved(after, log[|log| - 1].canon, SeatsOf(after, log[|log| - 1].twin));
            after'[m] == Seat(Home(log, before[m].org), before[m].user)
  {
  }

  lemma {:induction false} SeatStays(before: Seats, after: Seats, log: seq<Absorption>, m: nat)
    requires log != [] && SeatsMerged(before, after, log[..|log| - 1]) && m in before
    requires log[|log| - 1].canon != log[|log| - 1].twin
    ensures var after' := Moved(after, log[|log| - 1].canon, SeatsOf(after, log[|log| - 1].twin));
            && Seated(after', Home(log, before[m].org), before[m].user)
            && (before[m].org !in Twins(log) ==> m in after')
  {
    var last := log[|log| - 1];
    var n :| n in after && after[n] == Seat(Home(log[..|log| - 1], before[m].org), before[m].user);
    SeatKept(after, last.twin, last.canon, n);
    if before[m].org !in Twins(log) {
      NotMoved(log[..|log| - 1], before[m].org);
      assert last in log;
    }
  }

  lemma {:induction false} NotMoved(log: seq<Absorption>, org: nat)
    requires org !in Twins(log)
    ensures Home(log, org) == org
  {
    if log != [] {
      NotMoved(log[..|log| - 1], org);
      assert log[|log| - 1] in log;
    }
  }

  lemma MovedUnique(seats: Seats, twin: nat, canon: nat)
    requires OneSeat(seats) && canon != twin
    ensures OneSeat(Moved(seats, canon, SeatsOf(seats, twin)))
  {
    var moved := Moved(seats, canon, SeatsOf(seats, twin));
    forall m, n | m in moved && n in moved && moved[m] == moved[n] ensures m == n {
      if seats[m].org == twin <==> seats[n].org == twin {
        assert seats[m] == seats[n];
      }
    }
  }

  /** After a twin's memberships were moved, its users sit at the canonical row. */
  lemma SeatKept(seats: Seats, twin: nat, canon: nat, n: nat)
    requires n in seats && canon != twin
    ensures Seated(Moved(seats, canon, SeatsOf(seats, twin)), if seats[n].org == twin then canon else seats[n].org, seats[n].user)
  {
    var after := Moved(seats, canon, SeatsOf(seats, twin));
    if seats[n].org == twin && Seated(seats, canon, seats[n].user) {
      var k :| k in seats && seats[k] == Seat(canon, seats[n].user);
      assert k in after && after[k] == seats[k];
    } else {
      assert n in after;
    }
  }

  /** `trailed` are the organizations with audit entries, `held` those that rows of other tables
      protect from deletion (findings, for one). */
  class MergeTables {
    const trailed: set<nat>
    const held: set<nat>
    var orgs: Rows
    var seats: Seats

    constructor (orgs: Rows, seats: Seats, trailed: set<nat>, held: set<nat>)
      ensures this.orgs == orgs && this.seats == seats && this.trailed == trailed && this.held == held
    {
      this.orgs, this.seats, this.trailed, this.held := orgs, seats, trailed, held;
    }

    /** The innermost loop: each membership of the twin is repointed or dropped. */
    method MoveSeats(twin: nat, canon: nat)
      requires OneSeat(seats) && canon != twin
      modifies this`seats
      ensures seats == Moved(old(seats), canon, SeatsOf(old(seats), twin))
    {
      var all := SeatsOf(seats, twin);
      var todo := all;
      ghost var done: set<nat> := {};
      assert seats == Moved(seats, canon, {});
      while todo != {}
        invariant todo <= all && done == all - todo && seats == Moved(old(seats), canon, done)
      {
        var m :| m in todo;
        assert Seated(seats, canon, seats[m].user) == Seated(old(seats), canon, old(seats)[m].user) by {
          ClashAsBefore(old(seats), twin, canon, done, m);
        }
        if Seated(seats, canon, seats[m].user) {
          seats := seats - {m};
        } else {
          seats := seats[m := Seat(canon, seats[m].user)];
        }
        todo, done := todo - {m}, done + {m};
      }
      assert done == all;
    }

    /** Deleting an organization raises while anything refers to it; memberships no longer do. */
    method DeleteOrganization(org: nat) returns (ok: bool)
      requires SeatsOf(seats, org) == {}
      modifies this`orgs
      ensures ok <==> org !in held
      ensures orgs == if ok then old(orgs) - {org} else old(orgs)
    {
      ok := org !in held;
      if ok {
        orgs := orgs - {org};
      }
    }

    /** The middle loop: the twins of one canonical row, earliest first, except trailed ones; it ends
        early where a delete raises. */
    method AbsorbTwins(canon: nat) returns (ghost log: seq<Absorption>, adopted: string, ok: bool)
      requires canon in orgs && IsCanonical(orgs[canon]) && OneSeat(seats)
      modifies this`orgs, this`seats
      ensures ok <==> TwinsOf(old(orgs), canon) - trailed !! held
      ensures ok ==> Absorbs(old(orgs), canon, TwinsOf(old(orgs), canon) - trailed, log) && adopted == AdoptedPath(old(orgs), log)
      ensures ok ==> Effect(old(orgs), old(seats), log, orgs, seats) && OneSeat(seats)
    {
      var twins := TwinsOf(orgs, canon);
      var todo := twins;
      adopted, log := "", [];
      while todo != {}
        invariant Picking(old(orgs), trailed, canon, todo, log, adopted) && OneSeat(seats)
        invariant Effect(old(orgs), old(seats), log, orgs, seats)
        invariant Released(twins, trailed, todo, held)
      {
        NotYetAbsorbed(old(orgs), trailed, canon, todo, log, adopted);
        ghost var earliest := EarliestOf(orgs, todo);
        var twin :| twin in todo && forall u :: u in todo ==> orgs[twin].createdAt <= orgs[u].createdAt;
        PickNext(old(orgs), trailed, canon, todo, log, adopted, twin);
        ReleasedNext(twins, trailed, todo, held, twin);
        todo := todo - {twin};
        if twin !in trailed {
          EffectNext(old(orgs), old(seats), log, orgs, seats, twin, canon);
          adopted := if adopted == "" then orgs[twin].path else adopted;
          ok := Absorb(twin, canon);
          if !ok {
            return;
          }
          log := log + [Absorption(twin, canon)];
        }
      }
      ok := true;
    }

    method Absorb(twin: nat, canon: nat) returns (ok: bool)
      requires OneSeat(seats) && canon != twin
      modifies this`orgs, this`seats
      ensures ok <==> twin !in held
      ensures ok ==> orgs == old(orgs) - {twin}
      ensures seats == Moved(old(seats), canon, SeatsOf(old(seats), twin)) && OneSeat(seats)
    {
      MovedUnique(seats, twin, canon);
      NoSeatsLeft(seats, twin, canon);
      MoveSeats(twin, canon);
      ok := DeleteOrganization(twin);
    }

    method MergeOne(canon: nat) returns (ghost log: seq<Absorption>, ok: bool)
      requires canon in orgs && IsCanonical(orgs[canon]) && OneSeat(seats)
      modifies this`orgs, this`seats
      ensures ok <==> TwinsOf(old(orgs), canon) - trailed !! held
      ensures ok ==> Absorbs(old(orgs), canon, TwinsOf(old(orgs), canon) - trailed, log)
      ensures ok ==> canon !in Twins(log) && orgs == WithPath(old(orgs) - Twins(log), canon, AdoptedPath(old(orgs), log))
      ensures ok ==> seats == Replay(old(seats), log) && OneSeat(seats)
    {
      var adopted: string;
      log, adopted, ok := AbsorbTwins(canon);
      if ok && adopted != "" && !PathHeld(orgs, canon, adopted) {
        orgs := orgs[canon := orgs[canon].(path := adopted)];
      }
    }

    method MergeNext(canon: nat, ghost orgs0: Rows, ghost seats0: Seats, ghost done: set<nat>, ghost todo: set<nat>,
                     ghost log: seq<Absorption>)
      returns (ghost log': seq<Absorption>, ok: bool)
      requires MergedSoFar(orgs0, seats0, orgs, seats, trailed, held, done, todo, log) && canon in todo
      modifies this`orgs, this`seats
      ensures ok ==> MergedSoFar(orgs0, seats0, orgs, seats, trailed, held, done + {canon}, todo - {canon}, log')
      ensures !ok ==> Stuck(orgs0, trailed, held)
    {
      TwinsNow(orgs0, orgs, trailed, done, todo, log, canon);
      log' := log;
      ghost var more: seq<Absorption>;
      more, ok := MergeOne(canon);
      if ok {
        MergingNext(orgs0, old(orgs), trailed, done, todo, log, canon, more);
        ReplayAppend(seats0, log, more);
        TwinsOfBoth(log, more);
        log' := log + more;
      } else {
        StuckAt(orgs0, old(orgs), trailed, held, canon);
      }
    }

    /** The outer loop, over all canonical rows; it ends early where a delete raises. */
    method MergeAll() returns (ghost log: seq<Absorption>, ok: bool)
      requires OneSeat(seats)
      modifies this`orgs, this`seats
      ensures ok ==> MergedSoFar(old(orgs), old(seats), orgs, seats, trailed, held, Canonicals(old(orgs)), {}, log)
      ensures !ok ==> Stuck(old(orgs), trailed, held)
    {
      var all := Canonicals(orgs);
      var todo := all;
      log := [];
      ghost var done: set<nat> := {};
      MergedNone(orgs, seats, trailed, held);
      LookedAtStart(all);
      while todo != {}
        invariant LookedAt(all, todo, done)
        invariant MergedSoFar(old(orgs), old(seats), orgs, seats, trailed, held, done, todo, log)
      {
        var canon :| canon in todo;
        LookedAtNext(all, todo, done, canon);
        log, ok := MergeNext(canon, old(orgs), old(seats), done, todo, log);
        if !ok {
          return;
        }
        todo, done := todo - {canon}, done + {canon};
      }
      LookedAtEnd(all, done);
      ok := true;
    }

    /** `merge_duplicate_group_orgs`, in the migration's transaction: a delete that raises undoes it. */
    method MergeDuplicateGroupOrgs() returns (ghost log: seq<Absorption>, ok: bool)
      requires OneSeat(seats)
      modifies this`orgs, this`seats
      ensures ok <==> !Stuck(old(orgs), trailed, held)
      ensures ok ==> Merged(old(orgs), orgs, trailed, log) && SeatsMerged(old(seats), seats, log)
      ensures ok <==> forall o :: o in held ==> !Doomed(old(orgs), trailed, o)
      ensures ok ==> RowsOutcome(old(orgs), orgs, trailed) && SeatsOutcome(old(orgs), trailed, old(seats), seats)
      ensures !ok ==> orgs == old(orgs) && seats == old(seats)
    {
      var savedOrgs, savedSeats := orgs, seats;
      log, ok := MergeAll();
      StuckIs(old(orgs), trailed, held);
      if ok {
        MergedAll(old(orgs), old(seats), orgs, seats, trailed, held, log);
        RowsAfter(old(orgs), orgs, trailed, log);
        SeatsAfter(old(orgs), orgs, trailed, log, old(seats), seats);
      } else {
        orgs, seats := savedOrgs, savedSeats;
      }
    }
  }

  lemma MergedNone(orgs: Rows, seats: Seats, trailed: set<nat>, held: set<nat>)
    requires OneSeat(seats)
    ensures MergedSoFar(orgs, seats, orgs, seats, trailed, held, {}, Canonicals(orgs), [])
  {
    MergingStart(orgs, trailed);
  }

  lemma MergedAll(orgs0: Rows, seats0: Seats, orgs: Rows, seats: Seats, trailed: set<nat>, held: set<nat>, log: seq<Absorption>)
    requires OneSeat(seats0) && MergedSoFar(orgs0, seats0, orgs, seats, trailed, held, Canonicals(orgs0), {}, log)
    ensures !Stuck(orgs0, trailed, held) && Merged(orgs0, orgs, trailed, log) && SeatsMerged(seats0, seats, log)
  {
    NotStuck(orgs0, orgs, trailed, held, log);
    LoggedApart(orgs0, trailed, log);
    ReplayMerges(seats0, log);
  }

  /** Between two canonical rows: both tables, and nothing protected among the twins absorbed. */
  ghost predicate MergedSoFar(orgs0: Rows, seats0: Seats, orgs: Rows, seats: Seats, trailed: set<nat>, held: set<nat>,
                              done: set<nat>, todo: set<nat>, log: seq<Absorption>) {
    && Merging(orgs0, orgs, trailed, done, todo, log) && Twins(log) !! held
    && seats == Replay(seats0, log) && OneSeat(seats)
  }

  /** Some twin the merge has to delete is protected by another table. */
  ghost predicate Stuck(orgs: Rows, trailed: set<nat>, held: set<nat>) {
    exists t :: t in held && Absorbable(orgs, trailed, Canonicals(orgs), t)
  }

  lemma StuckAt(before: Rows, now: Rows, trailed: set<nat>, held: set<nat>, canon: nat)
    requires AsBefore(before, now, canon) && !(TwinsOf(now, canon) - trailed !! held)
    ensures Stuck(before, trailed, held)
  {
    var t :| t in TwinsOf(now, canon) - trailed && t in held;
    assert canon in Canonicals(before) && IsTwin(before[t], before[canon]);
    assert Absorbable(before, trailed, Canonicals(before), t);
  }

  lemma NotStuck(before: Rows, now: Rows, trailed: set<nat>, held: set<nat>, log: seq<Absorption>)
    requires Merged(before, now, trailed, log) && Twins(log) !! held
    ensures !Stuck(before, trailed, held)
  {
  }

  /** None of the twins dealt with so far is protected. */
  ghost predicate Released(twins: set<nat>, trailed: set<nat>, todo: set<nat>, held: set<nat>) {
    todo <= twins && twins - trailed - todo !! held
  }

  lemma ReleasedNext(twins: set<nat>, trailed: set<nat>, todo: set<nat>, held: set<nat>, twin: nat)
    requires Released(twins, trailed, todo, held) && twin in todo
    ensures twin in trailed || twin !in held <==> Released(twins, trailed, todo - {twin}, held)
    ensures twin !in trailed && twin in held ==> !(twins - trailed !! held)
  {
    assert twins - trailed - (todo - {twin}) == (twins - trailed - todo) + ({twin} - trailed);
    if twin !in trailed && twin in held {
      assert twin in (twins - trailed) * held;
    }
  }

  /** Inside the middle loop: all twins but those still to do are absorbed or trailed. */
  ghost predicate Picking(orgs: Rows, trailed: set<nat>, canon: nat, todo: set<nat>, log: seq<Absorption>, adopted: string)
    requires canon in orgs
  {
    && todo <= TwinsOf(orgs, canon)
    && Absorbs(orgs, canon, TwinsOf(orgs, canon) - todo - trailed, log) && adopted == AdoptedPath(orgs, log)
    && forall t, u :: t in Twins(log) && u in todo ==> orgs[t].createdAt <= orgs[u].createdAt
  }

  /** What absorbing the twins of a log does to the two tables. */
  ghost predicate Effect(orgs0: Rows, seats0: Seats, log: seq<Absorption>, orgs: Rows, seats: Seats) {
    orgs == orgs0 - Twins(log) && seats == Replay(seats0, log)
  }

  lemma EffectNext(orgs0: Rows, seats0: Seats, log: seq<Absorption>, orgs: Rows, seats: Seats, twin: nat, canon: nat)
    requires Effect(orgs0, seats0, log, orgs, seats)
    ensures Effect(orgs0, seats0, log + [Absorption(twin, canon)], orgs - {twin}, Moved(seats, canon, SeatsOf(seats, twin)))
  {
    var log' := log + [Absorption(twin, canon)];
    assert log'[..|log|] == log;
    assert Twins(log') == Twins(log) + {twin};
  }

  lemma NotYetAbsorbed(orgs: Rows, trailed: set<nat>, canon: nat, todo: set<nat>, log: seq<Absorption>, adopted: string)
    requires canon in orgs && IsCanonical(orgs[canon]) && Picking(orgs, trailed, canon, todo, log, adopted)
    ensures todo <= (orgs - Twins(log)).Keys && canon !in todo
  {
  }

  lemma PickNext(orgs: Rows, trailed: set<nat>, canon: nat, todo: set<nat>, log: seq<Absorption>, adopted: string, twin: nat)
    requires canon in orgs && Picking(orgs, trailed, canon, todo, log, adopted)
    requires twin in todo && forall u :: u in todo ==> orgs[twin].createdAt <= orgs[u].createdAt
    ensures twin in trailed ==> Picking(orgs, trailed, canon, todo - {twin}, log, adopted)
    ensures var log' := log + [Absorption(twin, canon)];
            twin !in trailed ==>
              Picking(orgs, trailed, canon, todo - {twin}, log', if adopted == "" then orgs[twin].path else adopted)
  {
    var twins := TwinsOf(orgs, canon);
    if twin in trailed {
      assert twins - (todo - {twin}) - trailed == twins - todo - trailed;
    } else {
      assert twins - (todo - {twin}) - trailed == twins - todo - trailed + {twin};
      assert adopted == "" <==> log == [] by {
        assert log != [] ==> log[0].twin in Twins(log);
      }
      LogGrows(orgs, canon, twins - todo - trailed, log, twin);
    }
  }

  lemma LogGrows(orgs: Rows, canon: nat, twins: set<nat>, log: seq<Absorption>, twin: nat)
    requires Absorbs(orgs, canon, twins, log) && twin in orgs && twin !in twins
    requires forall t :: t in twins ==> orgs[t].createdAt <= orgs[twin].createdAt
    ensures var log' := log + [Absorption(twin, canon)];
            && Absorbs(orgs, canon, twins + {twin}, log') && Twins(log') == Twins(log) + {twin}
            && log'[..|log|] == log && AdoptedPath(orgs, log') == AdoptedPath(orgs, if log == [] then log' else log)
  {
    var log' := log + [Absorption(twin, canon)];
    forall i | 0 <= i < |log| ensures log[i].twin in twins {
      assert log[i] in log;
    }
    assert Twins(log') == Twins(log) + {twin};
  }

  lemma NoSeatsLeft(seats: Seats, twin: nat, canon: nat)
    requires canon != twin
    ensures SeatsOf(Moved(seats, canon, SeatsOf(seats, twin)), twin) == {}
  {
  }

  lemma {:induction false} EarliestOf(orgs: Rows, some: set<nat>) returns (t: nat)
    requires some != {} && some <= orgs.Keys
    ensures t in some && forall u :: u in some ==> orgs[t].createdAt <= orgs[u].createdAt
  {
    t :| t in some;
    if some != {t} {
      var other := EarliestOf(orgs, some - {t});
      assert forall u :: u in some ==> u == t || u in some - {t};
      if orgs[other].createdAt <= orgs[t].createdAt {
        t := other;
      }
    }
  }

  /** Moving other memberships of the twin does not change whether this one clashes. */
  lemma ClashAsBefore(seats: Seats, twin: nat, canon: nat, done: set<nat>, m: nat)
    requires OneSeat(seats) && canon != twin && done <= SeatsOf(seats, twin) && m in SeatsOf(seats, twin) - done
    ensures m in Moved(seats, canon, done) && Moved(seats, canon, done)[m] == seats[m]
    ensures Seated(Moved(seats, canon, done), canon, seats[m].user) == Seated(seats, canon, seats[m].user)
  {
    var moved := Moved(seats, canon, done);
    if Seated(seats, canon, seats[m].user) {
      var k :| k in seats && seats[k] == Seat(canon, seats[m].user);
      assert k in moved && moved[k] == seats[k];
    }
    if Seated(moved, canon, seats[m].user) {
      var k :| k in moved && moved[k] == Seat(canon, seats[m].user);
      assert k !in done;
    }
  }

  lemma {:induction false} ReplayAppend(seats: Seats, log: seq<Absorption>, more: seq<Absorption>)
    ensures Replay(Replay(seats, log), more) == Replay(seats, log + more)
  {
    if more == [] {
      assert log + more == log;
    } else {
      assert (log + more)[..|log + more| - 1] == log + more[..|more| - 1];
      ReplayAppend(seats, log, more[..|more| - 1]);
    }
  }

  // ------------------------------------------------------ what the merge means

  /** The first twin a row absorbed. */
  function FirstFor(log: seq<Absorption>, canon: nat): (r: Option<nat>)
    ensures r.Some? ==> exists i :: 0 <= i < |log| && log[i] == Absorption(r.value, canon)
                                    && forall j :: 0 <= j < i ==> log[j].canon != canon
    ensures r.None? ==> forall i :: 0 <= i < |log| ==> log[i].canon != canon
  {
    if log == [] then None
    else if log[0].canon == canon then Some(log[0].twin)
    else FirstFor(log[1..], canon)
  }

  ghost predicate TwinInto(before: Rows, trailed: set<nat>, a: Absorption) {
    && a.twin in before && a.canon in before && a.twin !in trailed
    && IsCanonical(before[a.canon]) && IsTwin(before[a.twin], before[a.canon])
  }

  /** Each twin is absorbed once, by a canonical row of the same name, each row's twins earliest first. */
  ghost predicate Logged(before: Rows, trailed: set<nat>, log: seq<Absorption>) {
    && (forall i :: 0 <= i < |log| ==> TwinInto(before, trailed, log[i]))
    && (forall i, j :: 0 <= i < j < |log| ==>
          && log[i].twin != log[j].twin
          && (log[i].canon == log[j].canon ==> before[log[i].twin].createdAt <= before[log[j].twin].createdAt))
  }

  lemma LoggedApart(before: Rows, trailed: set<nat>, log: seq<Absorption>)
    requires Logged(before, trailed, log)
    ensures forall a :: a in log ==> a.canon != a.twin
  {
    forall a | a in log ensures TwinInto(before, trailed, a) {}
  }

  /** The twins without audit history of some of the canonical rows. */
  ghost predicate Absorbable(before: Rows, trailed: set<nat>, canons: set<nat>, t: nat)
    requires canons <= before.Keys
  {
    t in before && t !in trailed && exists c :: c in canons && IsTwin(before[t], before[c])
  }

  /** Another row had this row's path to begin with. */
  ghost predicate Shared(before: Rows, t: nat) {
    t in before && exists o :: o in before && o != t && before[o].path == before[t].path
  }

  /** A row changes only by taking the path of the first twin it absorbed; it does not take it
      only where that path was shared to begin with. */
  ghost predicate RowSettled(before: Rows, row: Row, log: seq<Absorption>, o: nat)
    requires o in before
  {
    var first := FirstFor(log, o);
    if first.None? || first.value !in before then row == before[o]
    else row == before[o].(path := before[first.value].path) || (row == before[o] && Shared(before, first.value))
  }

  /** Two rows share a path afterwards only if they shared it before. */
  ghost predicate NoNewClash(before: Rows, after: Rows) {
    forall a, b :: a in after && b in after && a != b && after[a].path != "" && after[a].path == after[b].path ==>
      a in before && b in before && before[a].path == after[a].path && before[b].path == after[b].path
  }

  /** The organization table once the canonical rows `done` are merged and `todo` are not. */
  ghost predicate Merging(before: Rows, now: Rows, trailed: set<nat>, done: set<nat>, todo: set<nat>, log: seq<Absorption>) {
    MergedKeys(before, now.Keys, trailed, done, todo, log) && MergedRows(before, now, log)
  }

  ghost predicate MergedKeys(before: Rows, now: set<nat>, trailed: set<nat>, done: set<nat>, todo: set<nat>,
                             log: seq<Absorption>)
  {
    && done + todo == Canonicals(before) && done !! todo && Logged(before, trailed, log)
    && now == before.Keys - Twins(log)
    && (forall t :: t in Twins(log) <==> Absorbable(before, trailed, done, t))
    && (forall i :: 0 <= i < |log| ==> log[i].canon in done)
  }

  ghost predicate MergedRows(before: Rows, now: Rows, log: seq<Absorption>) {
    && now.Keys <= before.Keys && NoNewClash(before, now)
    && (forall o :: o in now ==> RowSettled(before, now[o], log, o))
  }

  lemma MergingStart(orgs: Rows, trailed: set<nat>)
    ensures Merging(orgs, orgs, trailed, {}, Canonicals(orgs), [])
  {
  }

  lemma MergingNext(before: Rows, now: Rows, trailed: set<nat>, done: set<nat>, todo: set<nat>, log: seq<Absorption>,
                    canon: nat, more: seq<Absorption>)
    requires Merging(before, now, trailed, done, todo, log) && canon in todo && canon in now
    requires Absorbs(now, canon, TwinsOf(now, canon) - trailed, more) && canon !in Twins(more)
    ensures Merging(before, WithPath(now - Twins(more), canon, AdoptedPath(now, more)), trailed,
                    done + {canon}, todo - {canon}, log + more)
  {
    TwinsNow(before, now, trailed, done, todo, log, canon);
    KeysNext(before, now, trailed, done, todo, log, canon, more);
    RowsNext(before, now, trailed, done, todo, log, canon, more);
    assert WithPath(now - Twins(more), canon, AdoptedPath(now, more)).Keys == now.Keys - Twins(more);
  }

  lemma KeysNext(before: Rows, now: Rows, trailed: set<nat>, done: set<nat>, todo: set<nat>, log: seq<Absorption>,
                 canon: nat, more: seq<Absorption>)
    requires MergedKeys(before, now.Keys, trailed, done, todo, log) && canon in todo && AsBefore(before, now, canon)
    requires Absorbs(now, canon, TwinsOf(now, canon) - trailed, more)
    ensures MergedKeys(before, now.Keys - Twins(more), trailed, done + {canon}, todo - {canon}, log + more)
  {
    LoggedMore(before, now, trailed, done, log, canon, more);
    AbsorbedMore(before, now, trailed, done, log, canon, more);
  }

  lemma RowsNext(before: Rows, now: Rows, trailed: set<nat>, done: set<nat>, todo: set<nat>, log: seq<Absorption>,
                 canon: nat, more: seq<Absorption>)
    requires Merging(before, now, trailed, done, todo, log) && canon in todo && AsBefore(before, now, canon)
    requires Absorbs(now, canon, TwinsOf(now, canon) - trailed, more) && canon !in Twins(more)
    ensures MergedRows(before, WithPath(now - Twins(more), canon, AdoptedPath(now, more)), log + more)
  {
    AllRowsNext(before, now, trailed, done, todo, log, canon, more);
    PathsSettled(before, now, Twins(more), canon, AdoptedPath(now, more));
  }

  lemma AllRowsNext(before: Rows, now: Rows, trailed: set<nat>, done: set<nat>, todo: set<nat>, log: seq<Absorption>,
                    canon: nat, more: seq<Absorption>)
    requires Merging(before, now, trailed, done, todo, log) && canon in todo && AsBefore(before, now, canon)
    requires Absorbs(now, canon, TwinsOf(now, canon) - trailed, more) && canon !in Twins(more)
    ensures var now' := WithPath(now - Twins(more), canon, AdoptedPath(now, more));
            forall o :: o in now' ==> RowSettled(before, now'[o], log + more, o)
  {
    CanonSettled(before, now, trailed, done, todo, log, canon, more);
    forall o | o in now - Twins(more) && o != canon {
      OtherSettled(before, now, trailed, log, canon, more, o);
    }
  }

  lemma {:induction false} FirstForAppend(log: seq<Absorption>, more: seq<Absorption>, canon: nat)
    ensures FirstFor(log + more, canon) == if FirstFor(log, canon).Some? then FirstFor(log, canon) else FirstFor(more, canon)
  {
    if log == [] {
      assert log + more == more;
    } else {
      assert (log + more)[1..] == log[1..] + more;
      FirstForAppend(log[1..], more, canon);
    }
  }

  /** The canonical row and the twins still there are as they were. */
  ghost predicate AsBefore(before: Rows, now: Rows, canon: nat) {
    && canon in now && canon in before && now[canon] == before[canon] && IsCanonical(before[canon])
    && now.Keys <= before.Keys
    && (forall t :: t in TwinsOf(now, canon) <==> t in now && IsTwin(before[t], before[canon]))
    && (forall t :: t in TwinsOf(now, canon) ==> now[t] == before[t])
  }

  lemma TwinsNow(before: Rows, now: Rows, trailed: set<nat>, done: set<nat>, todo: set<nat>, log: seq<Absorption>, canon: nat)
    requires Merging(before, now, trailed, done, todo, log) && canon in todo
    ensures AsBefore(before, now, canon)
  {
    CanonStays(before, trailed, log, canon);
    assert RowSettled(before, now[canon], log, canon);
    forall t | t in now
      ensures now[t].groupId == before[t].groupId && now[t].name == before[t].name
      ensures before[t].groupId.None? ==> now[t] == before[t]
    {
      RowNow(before, now[t], trailed, log, t);
    }
  }

  lemma RowNow(before: Rows, row: Row, trailed: set<nat>, log: seq<Absorption>, t: nat)
    requires Logged(before, trailed, log) && t in before && RowSettled(before, row, log, t)
    ensures row.groupId == before[t].groupId && row.name == before[t].name
    ensures before[t].groupId.None? ==> row == before[t]
  {
    if before[t].groupId.None? {
      NotCanon(before, trailed, log, t);
    }
  }

  lemma CanonStays(before: Rows, trailed: set<nat>, log: seq<Absorption>, canon: nat)
    requires Logged(before, trailed, log) && canon in before && IsCanonical(before[canon])
    ensures canon !in Twins(log)
  {
    forall a | a in log ensures a.twin != canon {
      assert TwinInto(before, trailed, a);
    }
  }

  lemma {:induction false} NotCanon(before: Rows, trailed: set<nat>, log: seq<Absorption>, t: nat)
    requires Logged(before, trailed, log) && t in before && before[t].groupId.None?
    ensures FirstFor(log, t).None?
  {
  }

  lemma LoggedMore(before: Rows, now: Rows, trailed: set<nat>, done: set<nat>, log: seq<Absorption>,
                   canon: nat, more: seq<Absorption>)
    requires Logged(before, trailed, log) && now.Keys == before.Keys - Twins(log) && canon !in done
    requires forall i :: 0 <= i < |log| ==> log[i].canon in done
    requires AsBefore(before, now, canon)
    requires Absorbs(now, canon, TwinsOf(now, canon) - trailed, more)
    ensures Logged(before, trailed, log + more)
    ensures forall i :: 0 <= i < |log + more| ==> (log + more)[i].canon in done + {canon}
    ensures Twins(log + more) == Twins(log) + Twins(more)
  {
    forall i | 0 <= i < |more| ensures more[i].twin in TwinsOf(now, canon) - trailed && TwinInto(before, trailed, more[i]) {
      assert more[i] in more;
    }
    forall i | 0 <= i < |log| ensures log[i].twin in Twins(log) {
      assert log[i] in log;
    }
    TwinsOfBoth(log, more);
    LogsJoin(before, trailed, log, more);
  }

  lemma TwinsOfBoth(log: seq<Absorption>, more: seq<Absorption>)
    ensures Twins(log + more) == Twins(log) + Twins(more)
  {
    assert forall a :: a in log + more <==> a in log || a in more;
  }

  lemma LogsJoin(before: Rows, trailed: set<nat>, log: seq<Absorption>, more: seq<Absorption>)
    requires Logged(before, trailed, log) && Logged(before, trailed, more)
    requires forall i, j :: 0 <= i < |log| && 0 <= j < |more| ==> log[i].twin != more[j].twin && log[i].canon != more[j].canon
    ensures Logged(before, trailed, log + more)
  {
  }

  lemma AbsorbedMore(before: Rows, now: Rows, trailed: set<nat>, done: set<nat>, log: seq<Absorption>,
                     canon: nat, more: seq<Absorption>)
    requires now.Keys == before.Keys - Twins(log) && done <= before.Keys && AsBefore(before, now, canon)
    requires forall t :: t in Twins(log) <==> Absorbable(before, trailed, done, t)
    requires Twins(more) == TwinsOf(now, canon) - trailed
    ensures forall t :: t in Twins(log) + Twins(more) <==> Absorbable(before, trailed, done + {canon}, t)
  {
    forall t | Absorbable(before, trailed, done + {canon}, t) ensures t in Twins(log) + Twins(more) {
      if !Absorbable(before, trailed, done, t) {
        assert IsTwin(before[t], before[canon]);
      }
    }
    forall t | t in Twins(log) + Twins(more) ensures Absorbable(before, trailed, done + {canon}, t) {
      if t in Twins(log) { assert Absorbable(before, trailed, done, t); }
    }
  }

  lemma CanonSettled(before: Rows, now: Rows, trailed: set<nat>, done: set<nat>, todo: set<nat>, log: seq<Absorption>,
                     canon: nat, more: seq<Absorption>)
    requires Merging(before, now, trailed, done, todo, log) && canon in todo && AsBefore(before, now, canon)
    requires Absorbs(now, canon, TwinsOf(now, canon) - trailed, more) && canon !in Twins(more)
    ensures RowSettled(before, WithPath(now - Twins(more), canon, AdoptedPath(now, more))[canon], log + more, canon)
  {
    FirstForAppend(log, more, canon);
    assert FirstFor(log, canon).None?;
    if more != [] {
      var t := more[0].twin;
      assert more[0] in more && t in Twins(more);
      assert FirstFor(more, canon) == Some(t);
      if PathHeld(now - Twins(more), canon, before[t].path) {
        HolderShares(before, now - Twins(more), log, canon, t);
      }
    }
  }

  /** Whoever holds a twin's path now, that path was shared to begin with. */
  lemma HolderShares(before: Rows, now: Rows, log: seq<Absorption>, canon: nat, t: nat)
    requires t in before && t !in now && t !in Twins(log) && now.Keys <= before.Keys
    requires (forall o :: o in now ==> RowSettled(before, now[o], log, o)) && PathHeld(now, canon, before[t].path)
    ensures Shared(before, t)
  {
    var o :| o in now && o != canon && now[o].path == before[t].path;
    assert RowSettled(before, now[o], log, o);
    if now[o] != before[o] {
      var f := FirstFor(log, o).value;
      var i :| 0 <= i < |log| && log[i] == Absorption(f, o);
      assert log[i] in log && f in Twins(log);
      assert f in before && before[f].path == before[t].path;
    }
  }

  lemma OtherSettled(before: Rows, now: Rows, trailed: set<nat>, log: seq<Absorption>, canon: nat, more: seq<Absorption>, o: nat)
    requires o in now && o in before && o != canon && canon in now && RowSettled(before, now[o], log, o)
    requires Twins(more) <= now.Keys && canon !in Twins(more) && o !in Twins(more)
    requires forall i :: 0 <= i < |more| ==> more[i].canon == canon
    ensures RowSettled(before, WithPath(now - Twins(more), canon, AdoptedPath(now, more))[o], log + more, o)
  {
    FirstForAppend(log, more, o);
    assert FirstFor(more, o).None?;
  }

  lemma PathsSettled(before: Rows, now: Rows, gone: set<nat>, canon: nat, adopted: string)
    requires canon in now && canon !in gone && NoNewClash(before, now)
    ensures NoNewClash(before, WithPath(now - gone, canon, adopted))
  {
    ClashesShrink(before, now, gone);
    AdoptedClashesNot(before, now - gone, canon, adopted);
  }

  lemma ClashesShrink(before: Rows, now: Rows, gone: set<nat>)
    requires NoNewClash(before, now)
    ensures NoNewClash(before, now - gone)
  {
  }

  lemma AdoptedClashesNot(before: Rows, now: Rows, canon: nat, adopted: string)
    requires canon in now && NoNewClash(before, now)
    ensures NoNewClash(before, WithPath(now, canon, adopted))
  {
  }

  // ------------------------------------------------------------ main results

  /** The whole migration has run. */
  ghost predicate Merged(before: Rows, now: Rows, trailed: set<nat>, log: seq<Absorption>) {
    Merging(before, now, trailed, Canonicals(before), {}, log)
  }

  lemma {:induction false} HomeIs(before: Rows, trailed: set<nat>, log: seq<Absorption>, o: nat)
    requires Logged(before, trailed, log)
    ensures if o in Twins(log) then Absorption(o, Home(log, o)) in log else Home(log, o) == o
  {
    if log != [] {
      var front, last := log[..|log| - 1], log[|log| - 1];
      HomeIs(before, trailed, front, o);
      FrontTwins(log);
      if o in Twins(front) {
        CanonNotTwin(before, trailed, log, Absorption(o, Home(front, o)), last);
      }
    }
  }

  lemma FrontTwins(log: seq<Absorption>)
    requires log != []
    ensures Twins(log) == Twins(log[..|log| - 1]) + {log[|log| - 1].twin}
    ensures forall a :: a in log[..|log| - 1] ==> a in log
  {
    assert log == log[..|log| - 1] + [log[|log| - 1]];
    TwinsOfBoth(log[..|log| - 1], [log[|log| - 1]]);
  }

  lemma CanonNotTwin(before: Rows, trailed: set<nat>, log: seq<Absorption>, a: Absorption, b: Absorption)
    requires Logged(before, trailed, log) && a in log && b in log
    ensures a.canon != b.twin && (a.twin == b.twin ==> a == b)
  {
    assert TwinInto(before, trailed, a) && TwinInto(before, trailed, b);
  }

  /** A row with an id and no path, and the same name. */
  ghost predicate Anchor(orgs: Rows, c: nat, name: string) {
    c in orgs && orgs[c].groupId.Some? && orgs[c].path == "" && orgs[c].name == name
  }

  /** A row without audit history and without an id, with a path, and with an anchor of its name. */
  ghost predicate Doomed(orgs: Rows, trailed: set<nat>, o: nat) {
    && o in orgs && o !in trailed && orgs[o].groupId.None? && orgs[o].path != ""
    && exists c :: Anchor(orgs, c, orgs[o].name)
  }

  /** Exactly the doomed rows are gone; an anchor may have taken the path of a doomed row of its name,
      and no row has changed in anything else. */
  ghost predicate RowsOutcome(before: Rows, now: Rows, trailed: set<nat>) {
    && (forall o :: o in now <==> o in before && !Doomed(before, trailed, o))
    && forall o :: o in now ==> RowOutcome(before, now[o], trailed, o)
  }

  ghost predicate RowOutcome(before: Rows, row: Row, trailed: set<nat>, o: nat)
    requires o in before
  {
    || row == before[o]
    || (Anchor(before, o, before[o].name)
        && exists t :: Doomed(before, trailed, t) && before[t].name == before[o].name
                       && row == Row(before[o].name, before[o].groupId, before[t].path, before[o].createdAt))
  }

  /** A membership moves, if at all, from a doomed row to an anchor of the same name; those of all other
      rows stay, and every user of a doomed row has a seat at an anchor of its name. */
  ghost predicate SeatsOutcome(orgs: Rows, trailed: set<nat>, before: Seats, after: Seats) {
    && (forall m :: m in after ==>
          m in before && after[m].user == before[m].user
          && (after[m].org == before[m].org || MovesTo(orgs, trailed, before[m].org, after[m].org)))
    && (forall m :: m in before && !Doomed(orgs, trailed, before[m].org) ==> m in after && after[m] == before[m])
    && (forall m :: m in before && Doomed(orgs, trailed, before[m].org) ==>
          exists n :: n in after && after[n].user == before[m].user && MovesTo(orgs, trailed, before[m].org, after[n].org))
  }

  ghost predicate MovesTo(orgs: Rows, trailed: set<nat>, o: nat, c: nat) {
    Doomed(orgs, trailed, o) && Anchor(orgs, c, orgs[o].name)
  }

  lemma DoomedIs(orgs: Rows, trailed: set<nat>, o: nat)
    ensures Doomed(orgs, trailed, o) <==> Absorbable(orgs, trailed, Canonicals(orgs), o)
  {
    if Doomed(orgs, trailed, o) {
      var c :| Anchor(orgs, c, orgs[o].name);
      assert c in Canonicals(orgs) && IsTwin(orgs[o], orgs[c]);
    }
    if Absorbable(orgs, trailed, Canonicals(orgs), o) {
      var c :| c in Canonicals(orgs) && IsTwin(orgs[o], orgs[c]);
      assert Anchor(orgs, c, orgs[o].name);
    }
  }

  lemma StuckIs(orgs: Rows, trailed: set<nat>, held: set<nat>)
    ensures Stuck(orgs, trailed, held) <==> exists o :: o in held && Doomed(orgs, trailed, o)
  {
    forall o | o in held ensures Doomed(orgs, trailed, o) <==> Absorbable(orgs, trailed, Canonicals(orgs), o) {
      DoomedIs(orgs, trailed, o);
    }
  }

  lemma AbsorbedDoomed(before: Rows, trailed: set<nat>, log: seq<Absorption>, a: Absorption)
    requires Logged(before, trailed, log) && a in log
    ensures MovesTo(before, trailed, a.twin, a.canon)
  {
    assert TwinInto(before, trailed, a);
    assert Anchor(before, a.canon, before[a.twin].name);
  }

  lemma RowsAfter(before: Rows, now: Rows, trailed: set<nat>, log: seq<Absorption>)
    requires Merged(before, now, trailed, log)
    ensures RowsOutcome(before, now, trailed)
  {
    forall o ensures o in now <==> o in before && !Doomed(before, trailed, o) {
      DoomedIs(before, trailed, o);
      assert o in Twins(log) <==> Absorbable(before, trailed, Canonicals(before), o);
    }
    forall o | o in now ensures RowOutcome(before, now[o], trailed, o) {
      RowAfter(before, now[o], trailed, log, o);
    }
  }

  lemma RowAfter(before: Rows, row: Row, trailed: set<nat>, log: seq<Absorption>, o: nat)
    requires Logged(before, trailed, log) && o in before && RowSettled(before, row, log, o)
    ensures RowOutcome(before, row, trailed, o)
  {
    var first := FirstFor(log, o);
    if first.Some? {
      var i :| 0 <= i < |log| && log[i] == Absorption(first.value, o);
      AbsorbedDoomed(before, trailed, log, log[i]);
    }
  }

  lemma SeatsAfter(before: Rows, now: Rows, trailed: set<nat>, log: seq<Absorption>, seats: Seats, seats': Seats)
    requires Merged(before, now, trailed, log) && SeatsMerged(seats, seats', log)
    ensures SeatsOutcome(before, trailed, seats, seats')
  {
    forall m | m in seats ensures HomeOutcome(before, trailed, log, seats[m].org) {
      HomeAfter(before, trailed, log, seats[m].org);
    }
    forall m | m in seats && Doomed(before, trailed, seats[m].org)
      ensures exists n :: n in seats' && seats'[n].user == seats[m].user && MovesTo(before, trailed, seats[m].org, seats'[n].org)
    {
      HomeAfter(before, trailed, log, seats[m].org);
      assert Seated(seats', Home(log, seats[m].org), seats[m].user);
    }
  }

  ghost predicate HomeOutcome(before: Rows, trailed: set<nat>, log: seq<Absorption>, o: nat) {
    if o in Twins(log) then MovesTo(before, trailed, o, Home(log, o))
    else Home(log, o) == o && !Doomed(before, trailed, o)
  }

  lemma {:induction false} HomeAfter(before: Rows, trailed: set<nat>, log: seq<Absorption>, o: nat)
    requires Logged(before, trailed, log) && (forall t :: t in Twins(log) <==> Absorbable(before, trailed, Canonicals(before), t))
    ensures HomeOutcome(before, trailed, log, o)
  {
    HomeIs(before, trailed, log, o);
    DoomedIs(before, trailed, o);
    if o in Twins(log) {
      AbsorbedDoomed(before, trailed, log, Absorption(o, Home(log, o)));
    }
  }

  /** An organization of whose name there is no anchor keeps its row and its memberships. */
  lemma OtherNamesStay(before: Rows, now: Rows, trailed: set<nat>, seats: Seats, seats': Seats, o: nat)
    requires RowsOutcome(before, now, trailed) && SeatsOutcome(before, trailed, seats, seats')
    requires o in before && forall c :: !Anchor(before, c, before[o].name)
    ensures o in now && now[o] == before[o]
    ensures forall m :: m in seats && seats[m].org == o ==> m in seats' && seats'[m] == seats[m]
    ensures forall m :: m in seats' && seats'[m].org == o ==> m in seats && seats[m] == seats'[m]
  {
    assert forall name :: Anchor(before, o, name) ==> name == before[o].name;
    forall m | m in seats' && seats'[m].org == o ensures !MovesTo(before, trailed, seats[m].org, o) {}
  }

  /** A surviving row's users afterwards are its own and those of the twins it absorbed. */
  lemma MergedUsers(before: Rows, trailed: set<nat>, log: seq<Absorption>, seats: Seats, seats': Seats, c: nat, user: string)
    requires Logged(before, trailed, log) && SeatsMerged(seats, seats', log) && c !in Twins(log)
    ensures user in UsersOf(seats', c) <==>
            user in UsersOf(seats, c) || exists t :: Absorption(t, c) in log && user in UsersOf(seats, t)
  {
    if user in UsersOf(seats', c) {
      var m :| m in seats' && seats'[m] == Seat(c, user);
      HomeIs(before, trailed, log, seats[m].org);
      assert user in UsersOf(seats, seats[m].org);
    }
    if user in UsersOf(seats, c) {
      var m :| m in seats && seats[m] == Seat(c, user);
      HomeIs(before, trailed, log, c);
      assert Seated(seats', Home(log, seats[m].org), user);
    }
    forall t | Absorption(t, c) in log && user in UsersOf(seats, t) ensures user in UsersOf(seats', c) {
      var m :| m in seats && seats[m] == Seat(t, user);
      assert t in Twins(log);
      HomeIs(before, trailed, log, t);
      CanonNotTwin(before, trailed, log, Absorption(t, c), Absorption(t, Home(log, t)));
      assert Seated(seats', Home(log, seats[m].org), user);
    }
  }

  /** No canonical row and no organization with audit history is deleted or loses a membership. */
  lemma ProtectedStay(before: Rows, now: Rows, trailed: set<nat>, log: seq<Absorption>, seats: Seats, seats': Seats, o: nat)
    requires Merged(before, now, trailed, log) && SeatsMerged(seats, seats', log)
    requires o in before && (IsCanonical(before[o]) || o in trailed)
    ensures o in now && forall m :: m in seats && seats[m].org == o ==> m in seats' && seats'[m] == seats[m]
  {
    assert o !in Twins(log) by {
      forall a | a in log ensures a.twin != o {
        assert TwinInto(before, trailed, a);
      }
    }
    HomeIs(before, trailed, log, o);
  }

  /** Every membership still points at an organization. */
  lemma NoneDangling(before: Rows, now: Rows, trailed: set<nat>, log: seq<Absorption>, seats: Seats, seats': Seats)
    requires Merged(before, now, trailed, log) && SeatsMerged(seats, seats', log)
    requires forall m :: m in seats ==> seats[m].org in before
    ensures forall m :: m in seats' ==> seats'[m].org in now
  {
    forall m | m in seats' ensures seats'[m].org in now {
      HomeIs(before, trailed, log, seats[m].org);
      HomeSurvives(before, trailed, log, seats[m].org);
    }
  }

  lemma {:induction false} HomeSurvives(before: Rows, trailed: set<nat>, log: seq<Absorption>, o: nat)
    requires Logged(before, trailed, log) && o in before
    requires if o in Twins(log) then Absorption(o, Home(log, o)) in log else Home(log, o) == o
    ensures Home(log, o) in before && Home(log, o) !in Twins(log)
  {
    if o in Twins(log) {
      assert TwinInto(before, trailed, Absorption(o, Home(log, o)));
      forall a | a in log ensures a.twin != Home(log, o) {
        assert TwinInto(before, trailed, a);
      }
    }
  }

  /** Some of the rows as they were. */
  function Kept(orgs: Rows, some: set<nat>): Rows {
    map o | o in orgs && o in some :: orgs[o]
  }

  /** The rows the merge leaves: those with audit history and those that are nobody's twin. */
  ghost function Survivors(orgs: Rows, trailed: set<nat>): set<nat> {
    set o | o in orgs && (o in trailed || forall c :: c in Canonicals(orgs) ==> !IsTwin(orgs[o], orgs[c]))
  }

  lemma SurvivorsStay(before: Rows, now: Rows, trailed: set<nat>, log: seq<Absorption>)
    requires MergedKeys(before, now.Keys, trailed, Canonicals(before), {}, log)
    ensures now.Keys == Survivors(before, trailed)
  {
    forall o | o in before ensures o in now <==> o in Survivors(before, trailed) {
      assert o in Twins(log) <==> Absorbable(before, trailed, Canonicals(before), o);
    }
  }

  /** The unique constraint can be added afterwards exactly when, before the merge, the paths of the
      rows with audit history and of those that are nobody's twin were unique. */
  lemma UniqueAfterIff(before: Rows, now: Rows, trailed: set<nat>, log: seq<Absorption>)
    requires Merged(before, now, trailed, log)
    ensures now.Keys == Survivors(before, trailed)
    ensures UniquePaths(now) <==> UniquePaths(Kept(before, Survivors(before, trailed)))
  {
    SurvivorsStay(before, now, trailed, log);
    KeptPaths(before, now, trailed, log);
    ClashIff(before, now);
  }

  lemma KeptPaths(before: Rows, now: Rows, trailed: set<nat>, log: seq<Absorption>)
    requires Logged(before, trailed, log) && MergedRows(before, now, log)
    ensures forall o :: o in now && before[o].path != "" ==> now[o].path == before[o].path
  {
    forall o | o in now ensures before[o].path != "" ==> now[o].path == before[o].path {
      assert RowSettled(before, now[o], log, o);
      PathHeldStays(before, now[o], trailed, log, o);
    }
  }

  lemma ClashIff(before: Rows, now: Rows)
    requires now.Keys <= before.Keys && NoNewClash(before, now)
    requires forall o :: o in now && before[o].path != "" ==> now[o].path == before[o].path
    ensures UniquePaths(now) <==> UniquePaths(Kept(before, now.Keys))
  {
    var kept := Kept(before, now.Keys);
    if UniquePaths(now) {
      forall a, b | a in kept && b in kept && a != b && kept[a].path != "" ensures kept[a].path != kept[b].path {
        assert now[a].path == kept[a].path && (kept[b].path != "" ==> now[b].path == kept[b].path);
      }
    }
    if UniquePaths(kept) {
      forall a, b | a in now && b in now && a != b && now[a].path != "" ensures now[a].path != now[b].path {
        assert kept[a] == before[a] && kept[b] == before[b];
      }
    }
  }

  lemma PathHeldStays(before: Rows, row: Row, trailed: set<nat>, log: seq<Absorption>, o: nat)
    requires Logged(before, trailed, log) && o in before && RowSettled(before, row, log, o)
    ensures before[o].path != "" ==> row.path == before[o].path
  {
    if FirstFor(log, o).Some? {
      var i :| 0 <= i < |log| && log[i] == Absorption(FirstFor(log, o).value, o);
      assert TwinInto(before, trailed, log[i]);
    }
  }

  /** Where paths were unique, they stay unique, and every absorbing row takes the path of the
      earliest twin it absorbed and changes in nothing else. */
  lemma EarliestPathTaken(before: Rows, now: Rows, trailed: set<nat>, log: seq<Absorption>, c: nat, t: nat)
    requires Merged(before, now, trailed, log) && UniquePaths(before) && Absorption(t, c) in log
    ensures UniquePaths(now) && c in now
    ensures exists e :: Absorption(e, c) in log && e in before && t in before
              && now[c] == before[c].(path := before[e].path) && before[e].createdAt <= before[t].createdAt
  {
    UniqueAfterIff(before, now, trailed, log);
    assert TwinInto(before, trailed, Absorption(t, c));
    CanonStays(before, trailed, log, c);
    assert RowSettled(before, now[c], log, c);
    FirstIsEarliest(before, trailed, log, c, t);
    var e := FirstFor(log, c).value;
    NotShared(before, e);
  }

  lemma {:induction false} FirstIsEarliest(before: Rows, trailed: set<nat>, log: seq<Absorption>, c: nat, t: nat)
    requires Logged(before, trailed, log) && Absorption(t, c) in log
    ensures FirstFor(log, c).Some?
    ensures var e := FirstFor(log, c).value;
            && Absorption(e, c) in log && e in before && t in before && before[e].path != ""
            && before[e].createdAt <= before[t].createdAt
  {
    var k :| 0 <= k < |log| && log[k] == Absorption(t, c);
    var e := FirstFor(log, c).value;
    var i :| 0 <= i < |log| && log[i] == Absorption(e, c) && forall j :: 0 <= j < i ==> log[j].canon != c;
    assert TwinInto(before, trailed, log[i]) && TwinInto(before, trailed, log[k]);
  }

  lemma NotShared(before: Rows, t: nat)
    requires UniquePaths(before) && t in before && before[t].path != ""
    ensures !Shared(before, t)
  {
  }

  /** Paths can be left shared: two rows that already carry an id and the same path both stay. */
  lemma PathsCanStayShared()
    ensures var orgs := map[0 := Row("A", Some("x"), "/a", 0), 1 := Row("B", Some("y"), "/a", 1)];
            Merged(orgs, orgs, {}, []) && !UniquePaths(orgs)
  {
    var orgs: Rows := map[0 := Row("A", Some("x"), "/a", 0), 1 := Row("B", Some("y"), "/a", 1)];
    assert Canonicals(orgs) == {};
    MergingStart(orgs, {});
    assert orgs[0].path == orgs[1].path != "";
  }
}
