/**
 * The guard around migration 22, which cannot be undone: the preflight checks, the recovery from a
 * dirty state at startup, and migration runs that may break off or fail at any step.
 */
module Migrations {
  const GUARDED: int := 22

  /** The migrations are numbered from 1 on; version -1 is a database without any. */
  const LATEST: int := 32
  const NIL: int := -1

  /** `rated` contexts have a rate; `unscheduled` of the fee variances have no schedule. */
  datatype Schema = Schema(
    rateColumn: bool, rated: nat,
    varianceTable: bool, variances: nat, scheduleColumn: bool, unscheduled: nat)

  datatype Db = Db(version: int, dirty: bool, schema: Schema)

  datatype Verdict =
    | Approved
    | DirtyState(version: int, previous: int)
    | LegacyRates(found: nat)
    | LegacyVariances(found: nat)
    | Irreversible(from: int, target: int)

  /** Rows that migration 22 would orphan. */
  predicate Legacy(s: Schema) {
    || (s.rateColumn && s.rated > 0)
    || (s.varianceTable && (if s.scheduleColumn then s.unscheduled else s.variances) > 0)
  }

  /** What the version table shows: a clean database without migrations has no row and reads as zero. */
  function Shown(db: Db): int {
    if db.version == NIL && !db.dirty then 0 else db.version
  }

  function Previous(version: int): int {
    if version == 0 then NIL else version - 1
  }

  function PreflightApply(s: Schema, version: int): (v: Verdict)
    ensures v.Approved? <==> version >= GUARDED || !Legacy(s)
    ensures v.LegacyRates? <==> version < GUARDED && s.rateColumn && s.rated > 0
    ensures v.LegacyRates? ==> v.found == s.rated
    ensures v.LegacyVariances? ==> v.found == (if s.scheduleColumn then s.unscheduled else s.variances) > 0
    ensures v.Approved? || v.LegacyRates? || v.LegacyVariances?
  {
    if version >= GUARDED then Approved
    else if s.rateColumn && s.rated > 0 then LegacyRates(s.rated)
    else if !s.varianceTable then Approved
    else
      var found := if s.scheduleColumn then s.unscheduled else s.variances;
      if found > 0 then LegacyVariances(found) else Approved
  }

  function PreflightUp(db: Db): (v: Verdict)
    ensures v.Approved? <==> !db.dirty && (db.version >= GUARDED || !Legacy(db.schema))
    ensures db.dirty ==> v == DirtyState(db.version, db.version - 1)
    ensures !db.dirty ==> v == PreflightApply(db.schema, db.version)
  {
    var version := Shown(db);
    if db.dirty then DirtyState(version, Previous(version)) else PreflightApply(db.schema, version)
  }

  function PreflightDownOne(db: Db): (v: Verdict)
    ensures v.Approved? <==> !db.dirty && db.version != GUARDED
    ensures db.dirty ==> v == DirtyState(db.version, db.version - 1)
    ensures !db.dirty && db.version == GUARDED ==> v == Irreversible(22, 21)
  {
    var version := Shown(db);
    if db.dirty then DirtyState(version, Previous(version))
    else if version == GUARDED then Irreversible(version, version - 1)
    else Approved
  }

  function PreflightGoto(db: Db, target: int): (v: Verdict)
    ensures v.Approved? <==>
            && !db.dirty
            && (db.version >= GUARDED ==> target >= GUARDED)
            && (db.version < GUARDED && target >= GUARDED ==> !Legacy(db.schema))
    ensures db.dirty ==> v == DirtyState(db.version, db.version - 1)
    ensures !db.dirty && db.version >= GUARDED > target ==> v == Irreversible(db.version, target)
    ensures !db.dirty && db.version < GUARDED <= target ==> v == PreflightApply(db.schema, db.version)
  {
    var version := Shown(db);
    if db.dirty then DirtyState(version, Previous(version))
    else if version >= GUARDED && target < GUARDED then Irreversible(version, target)
    else if version < GUARDED && target >= GUARDED then PreflightApply(db.schema, version)
    else Approved
  }

  // ---- The migrator ----

  predicate Known(version: int) {
    version == NIL || 1 <= version <= LATEST
  }

  function NextVersion(version: int, target: int): int {
    if version < target then (if version < 1 then 1 else version + 1)
    else if version <= 1 then NIL
    else version - 1
  }

  /** What one migration does to the rows and columns that the preflight looks at. */
  function Migrated(s: Schema, from: int, to: int): Schema {
    if from < to then
      if to == 1 then Schema(true, 0, true, 0, false, 0)
      else if to == 2 && !s.scheduleColumn then s.(scheduleColumn := true, unscheduled := s.variances)
      else if to == GUARDED then s.(rateColumn := false)
      else s
    else if from == 2 then s.(scheduleColumn := false)
    else if from == 1 then s.(rateColumn := false, varianceTable := false)
    else s
  }

  /** What a migration adds keeps the legacy rows: only the first and the guarded one change what is counted. */
  lemma {:induction false} MigrationsKeepLegacyRows(s: Schema, to: int)
    requires to > 1 && to != 22
    ensures
      var t := Migrated(s, to - 1, to);
      && t.rateColumn == s.rateColumn && t.rated == s.rated && t.varianceTable == s.varianceTable
      && (if t.scheduleColumn then t.unscheduled else t.variances)
         == (if s.scheduleColumn then s.unscheduled else s.variances)
      && (to == 2 ==> t.scheduleColumn)
    ensures !Legacy(Migrated(s, 0, 1)) && Migrated(s, 0, 1).rateColumn && Migrated(s, 0, 1).varianceTable
    ensures Migrated(s, 21, 22) == s.(rateColumn := false)
  {
  }

  /** A step completes, or fails and leaves any schema behind. */
  datatype Outcome = Done | Failed(schema: Schema)

  /** A step records its target as dirty before it runs and clears the mark when it is done. */
  function Step(db: Db, target: int, o: Outcome): Db {
    var next := NextVersion(db.version, target);
    match o
    case Done => Db(next, false, Migrated(db.schema, db.version, next))
    case Failed(schema) => Db(next, true, schema)
  }

  predicate Moving(db: Db, target: int, outcomes: seq<Outcome>) {
    !db.dirty && db.version != target && Known(db.version) && Known(target) && outcomes != []
  }

  /** The databases a run goes through; a run that is out of outcomes has been broken off. */
  function Course(db: Db, target: int, outcomes: seq<Outcome>): (r: seq<Db>)
    ensures r != [] && r[0] == db
    decreases |outcomes|
  {
    if Moving(db, target, outcomes)
    then [db] + Course(Step(db, target, outcomes[0]), target, outcomes[1..])
    else [db]
  }

  function Last(r: seq<Db>): Db
    requires r != []
  {
    r[|r| - 1]
  }

  // ---- Actions ----

  datatype Action =
    | Startup(recover: bool, connected: bool, outcomes: seq<Outcome>)
    | Up(outcomes: seq<Outcome>)
    | DownOne(outcomes: seq<Outcome>)
    | Goto(target: int, outcomes: seq<Outcome>)
    | Edit(schema: Schema)

  /** Startup looks for a dirty mark only where there is a version. */
  predicate Stuck(db: Db) {
    db.dirty && db.version != NIL
  }

  /** Recovery forces the version before the dirty one. */
  function Recovered(db: Db): Db {
    if Stuck(db) then Db(Previous(db.version), false, db.schema) else db
  }

  function Upward(db: Db): int {
    if db.version > LATEST then db.version else LATEST
  }

  /** The databases an action goes through, the one it finds first. */
  function Path(db: Db, a: Action): (r: seq<Db>)
    ensures r != []
  {
    match a
    case Startup(recover, connected, outcomes) =>
      if Stuck(db) && !recover then [db]
      else
        var d := Recovered(db);
        if connected && !PreflightUp(d).Approved? then [d] else Course(d, Upward(d), outcomes)
    case Up(outcomes) =>
      if PreflightUp(db).Approved? then Course(db, Upward(db), outcomes) else [db]
    case DownOne(outcomes) =>
      if PreflightDownOne(db).Approved? then Course(db, NextVersion(db.version, NIL), outcomes) else [db]
    case Goto(target, outcomes) =>
      if PreflightGoto(db, target).Approved? then Course(db, target, outcomes) else [db]
    case Edit(schema) => [db.(schema := schema)]
  }

  function Act(db: Db, a: Action): Db {
    Last(Path(db, a))
  }

  function Run(db: Db, actions: seq<Action>): Db
    decreases |actions|
  {
    if actions == [] then db else Run(Act(db, actions[0]), actions[1..])
  }

  /** The migrator that startup drives. */
  class Migrator {
    var db: Db

    constructor (db: Db)
      ensures this.db == db
    {
      this.db := db;
    }

    /** Without recovery a dirty state stops the startup and stays as it is. */
    method HandleDirtyState(recover: bool) returns (v: Verdict)
      modifies this
      ensures v.Approved? <==> !Stuck(old(db)) || recover
      ensures db == if v.Approved? then Recovered(old(db)) else old(db)
      ensures v.Approved? <==> recover || !old(db).dirty || old(db).version == -1
      ensures db == if v.Approved? && old(db).dirty && old(db).version != -1
                    then Db(old(db).version - 1, false, old(db).schema) else old(db)
      ensures !v.Approved? ==> v == DirtyState(db.version, db.version - 1)
    {
      if db.version == NIL || !db.dirty {
        return Approved;
      }
      var previousVersion := if db.version == 0 then NIL else db.version - 1;
      if !recover {
        return DirtyState(db.version, previousVersion);
      }
      db := Db(previousVersion, false, db.schema);
      return Approved;
    }

    method RunUp(outcomes: seq<Outcome>)
      modifies this
      ensures db == Last(Course(old(db), Upward(old(db)), outcomes))
    {
      var target := if db.version > LATEST then db.version else LATEST;
      var left := outcomes;
      while !db.dirty && db.version != target && Known(db.version) && Known(target) && left != []
        invariant Last(Course(db, target, left)) == Last(Course(old(db), target, outcomes))
        decreases |left|
      {
        db := Step(db, target, left[0]);
        left := left[1..];
      }
    }

    method ApplyMigrations(connected: bool, recover: bool, outcomes: seq<Outcome>) returns (v: Verdict)
      modifies this
      ensures db == Act(old(db), Startup(recover, connected, outcomes))
      ensures v.Approved? <==> (Stuck(old(db)) ==> recover) && (connected ==> PreflightUp(Recovered(old(db))).Approved?)
      ensures v.Approved? && !old(db).dirty && Known(old(db).version) ==> Lands(old(db).version, 32, outcomes, db)
      ensures v.Approved? && !old(db).dirty && Known(old(db).version) && AllDone(outcomes) ==>
                |outcomes| >= 32 ==> db.version == 32 && !db.dirty
      ensures v.Approved? && old(db).dirty && 1 < old(db).version <= 33 ==> Lands(old(db).version - 1, 32, outcomes, db)
      ensures !v.Approved? ==> db.version == old(db).version || (old(db).dirty && db == Recovered(old(db)))
    {
      StartupLandsIfApproved(db, recover, connected, outcomes);
      v := HandleDirtyState(recover);
      if !v.Approved? {
        return;
      }
      if connected {
        v := PreflightUp(db);
        if !v.Approved? {
          return;
        }
      }
      ghost var from := db.version;
      RunUp(outcomes);
      if !old(db).dirty && Known(from) && |outcomes| >= 32 && AllDone(outcomes) {
        LandsOnTarget(from, 32, outcomes, db);
      }
    }
  }

  // ---- Progress ----

  function Place(version: int): nat {
    if version < 1 then 0 else version
  }

  /** The number of steps between two versions. */
  function Distance(from: int, to: int): nat {
    if Place(from) < Place(to) then Place(to) - Place(from) else Place(from) - Place(to)
  }

  /** A run whose steps all succeed ends clean at its target, one migration at a time. */
  lemma {:induction false} FullRunReachesTarget(db: Db, target: int, outcomes: seq<Outcome>)
    requires !db.dirty && Known(db.version) && Known(target)
    requires |outcomes| >= Distance(db.version, target)
    requires forall i :: 0 <= i < |outcomes| ==> outcomes[i].Done?
    ensures var r := Course(db, target, outcomes);
            && Last(r).version == target && !Last(r).dirty && |r| == Distance(db.version, target) + 1
            && forall i :: 0 <= i < |r| ==> Distance(r[i].version, target) == |r| - 1 - i
    decreases |outcomes|
  {
    if Moving(db, target, outcomes) {
      var rest := Course(Step(db, target, outcomes[0]), target, outcomes[1..]);
      FullRunReachesTarget(Step(db, target, outcomes[0]), target, outcomes[1..]);
      var r := Course(db, target, outcomes);
      assert r == [db] + rest;
      assert forall i :: 0 < i < |r| ==> r[i] == rest[i - 1];
    }
  }

  predicate AllDone(outcomes: seq<Outcome>) {
    forall i :: 0 <= i < |outcomes| ==> outcomes[i].Done?
  }

  /** The version a run from `from` towards `target` is at after `n` steps. */
  function VersionAfter(from: int, target: int, n: nat): int {
    if n == 0 then from
    else if from < target then Place(from) + n
    else if Place(from) > n then Place(from) - n
    else NIL
  }

  /** The first `n` steps are done, and then the run is through, is broken off, or fails. */
  predicate Stops(outcomes: seq<Outcome>, distance: nat, n: nat) {
    && n <= distance && n <= |outcomes| && (forall i :: 0 <= i < n ==> outcomes[i].Done?)
    && (n == distance || n == |outcomes| || outcomes[n].Failed?)
  }

  /** Where a run must end: clean where it stops, or dirty at the version of the step that fails. */
  ghost predicate Lands(from: int, target: int, outcomes: seq<Outcome>, end: Db) {
    forall n: nat :: Stops(outcomes, Distance(from, target), n) ==> LandsAfter(from, target, outcomes, end, n)
  }

  predicate LandsAfter(from: int, target: int, outcomes: seq<Outcome>, end: Db, n: nat)
    requires Stops(outcomes, Distance(from, target), n)
  {
    if n < Distance(from, target) && n < |outcomes|
    then end == Db(VersionAfter(from, target, n + 1), true, outcomes[n].schema)
    else end.version == VersionAfter(from, target, n) && !end.dirty
  }

  lemma {:induction false} OneStepOn(from: int, target: int)
    requires Known(from) && Known(target) && from != target
    ensures Known(NextVersion(from, target)) && NextVersion(from, target) == VersionAfter(from, target, 1)
    ensures Distance(NextVersion(from, target), target) == Distance(from, target) - 1
  {
  }

  lemma {:induction false} AfterOneStep(from: int, target: int, n: nat)
    requires Known(from) && Known(target) && from != target && 0 < n <= Distance(from, target)
    ensures VersionAfter(NextVersion(from, target), target, n - 1) == VersionAfter(from, target, n)
  {
  }

  lemma {:induction false} CourseStops(db: Db, target: int, outcomes: seq<Outcome>, n: nat)
    requires !db.dirty && Known(db.version) && Known(target)
    requires Stops(outcomes, Distance(db.version, target), n)
    ensures LandsAfter(db.version, target, outcomes, Last(Course(db, target, outcomes)), n)
    decreases |outcomes|
  {
    if Moving(db, target, outcomes) {
      var next := Step(db, target, outcomes[0]);
      OneStepOn(db.version, target);
      if n > 0 {
        CourseStops(next, target, outcomes[1..], n - 1);
        AfterOneStep(db.version, target, n);
        if n < Distance(db.version, target) {
          AfterOneStep(db.version, target, n + 1);
        }
      }
    }
  }

  lemma {:induction false} CourseLands(db: Db, target: int, outcomes: seq<Outcome>)
    requires !db.dirty && Known(db.version) && Known(target)
    ensures Lands(db.version, target, outcomes, Last(Course(db, target, outcomes)))
  {
    forall n: nat | Stops(outcomes, Distance(db.version, target), n)
      ensures LandsAfter(db.version, target, outcomes, Last(Course(db, target, outcomes)), n)
    {
      CourseStops(db, target, outcomes, n);
    }
  }

  /** A run with enough successes lands clean on its target. */
  lemma {:induction false} LandsOnTarget(from: int, target: int, outcomes: seq<Outcome>, end: Db)
    requires Known(from) && Known(target) && Lands(from, target, outcomes, end)
    requires |outcomes| >= Distance(from, target) && AllDone(outcomes)
    ensures end.version == target && !end.dirty
  {
    var n := Distance(from, target);
    assert Stops(outcomes, Distance(from, target), n);
    assert LandsAfter(from, target, outcomes, end, n) && VersionAfter(from, target, n) == target;
  }

  /** An approved up runs towards the latest version. */
  lemma {:induction false} UpLands(db: Db, outcomes: seq<Outcome>)
    requires PreflightUp(db).Approved? && Known(db.version)
    ensures Lands(db.version, 32, outcomes, Act(db, Up(outcomes)))
  {
    CourseLands(db, LATEST, outcomes);
  }

  /** An approved goto runs towards its target. */
  lemma {:induction false} GotoLands(db: Db, target: int, outcomes: seq<Outcome>)
    requires PreflightGoto(db, target).Approved? && Known(db.version) && Known(target)
    ensures Lands(db.version, target, outcomes, Act(db, Goto(target, outcomes)))
  {
    CourseLands(db, target, outcomes);
  }

  /** An approved down runs one version back, and from the first to none. */
  lemma {:induction false} DownOneLands(db: Db, outcomes: seq<Outcome>)
    requires PreflightDownOne(db).Approved? && Known(db.version)
    ensures Lands(db.version, if db.version > 1 then db.version - 1 else NIL, outcomes, Act(db, DownOne(outcomes)))
  {
    CourseLands(db, if db.version > 1 then db.version - 1 else NIL, outcomes);
  }

  /** An approved startup runs towards the latest version, from where recovery puts it. */
  lemma {:induction false} StartupLands(db: Db, recover: bool, connected: bool, outcomes: seq<Outcome>)
    requires (Stuck(db) ==> recover) && (connected ==> PreflightUp(Recovered(db)).Approved?)
    requires Known(Recovered(db).version) && !Recovered(db).dirty
    ensures Lands(Recovered(db).version, 32, outcomes, Act(db, Startup(recover, connected, outcomes)))
  {
    CourseLands(Recovered(db), LATEST, outcomes);
  }

  lemma {:induction false} StartupLandsIfApproved(db: Db, recover: bool, connected: bool, outcomes: seq<Outcome>)
    ensures
      (Stuck(db) ==> recover) && (connected ==> PreflightUp(Recovered(db)).Approved?)
      && Known(Recovered(db).version) && !Recovered(db).dirty ==>
        Lands(Recovered(db).version, 32, outcomes, Act(db, Startup(recover, connected, outcomes)))
  {
    if (Stuck(db) ==> recover) && (connected ==> PreflightUp(Recovered(db)).Approved?)
       && Known(Recovered(db).version) && !Recovered(db).dirty {
      StartupLands(db, recover, connected, outcomes);
    }
  }

  /** Version 0 names no migration: from there no action whatever moves the database. */
  lemma {:induction false} ZeroIsFinal(db: Db, actions: seq<Action>)
    requires db.version == 0 && !db.dirty
    ensures forall i :: 0 <= i < |Paths(db, actions)| ==> Paths(db, actions)[i].version == 0
    ensures Run(db, actions).version == 0 && !Run(db, actions).dirty
    decreases |actions|
  {
    if actions != [] {
      ZeroActs(db, actions[0]);
      ZeroIsFinal(Act(db, actions[0]), actions[1..]);
    }
  }

  lemma {:induction false} ZeroActs(db: Db, a: Action)
    requires db.version == 0 && !db.dirty
    ensures |Path(db, a)| == 1 && Path(db, a)[0].version == 0 && !Path(db, a)[0].dirty
  {
  }

  /** Startup with recovery forces version 0 exactly on a failed first migration, and never leaves it again. */
  lemma {:induction false} RecoveredFirstMigrationIsFinal(
    db: Db, connected: bool, outcomes: seq<Outcome>, actions: seq<Action>)
    requires db.dirty
    ensures Path(db, Startup(true, connected, outcomes))[0].version == 0 <==> db.version == 1
    ensures db.version == 1 ==> Run(db, [Startup(true, connected, outcomes)] + actions).version == 0
  {
    var startup := Startup(true, connected, outcomes);
    if db.version == 1 {
      ZeroActs(Recovered(db), Up(outcomes));
      assert Act(db, startup).version == 0 && !Act(db, startup).dirty;
      ZeroIsFinal(Act(db, startup), actions);
      assert ([startup] + actions)[1..] == actions;
    }
  }

  // ---- Never below ----

  predicate AllAbove(r: seq<Db>) {
    forall i :: 0 <= i < |r| ==> r[i].version >= GUARDED
  }

  lemma {:induction false} CourseStaysAbove(db: Db, target: int, outcomes: seq<Outcome>)
    requires db.version >= GUARDED && target >= GUARDED
    ensures AllAbove(Course(db, target, outcomes))
    decreases |outcomes|
  {
    if Moving(db, target, outcomes) {
      CourseStaysAbove(Step(db, target, outcomes[0]), target, outcomes[1..]);
    }
  }

  /** Only the recovery of a database that is dirty at version 22 goes below it. */
  lemma {:induction false} ActionStaysAbove(db: Db, a: Action)
    requires db.version >= GUARDED
    requires a.Startup? && a.recover && db.dirty ==> db.version != GUARDED
    ensures AllAbove(Path(db, a))
  {
    match a
    case Startup(recover, connected, outcomes) =>
      var d := Recovered(db);
      if !Stuck(db) || recover {
        CourseStaysAbove(d, Upward(d), outcomes);
      }
    case Up(outcomes) => CourseStaysAbove(db, Upward(db), outcomes);
    case DownOne(outcomes) =>
      if db.version != GUARDED {
        CourseStaysAbove(db, db.version - 1, outcomes);
      }
    case Goto(target, outcomes) =>
      if target >= GUARDED {
        CourseStaysAbove(db, target, outcomes);
      }
    case Edit(schema) =>
  }

  /** And it always does. */
  lemma {:induction false} BelowExactlyWhenRecoveringAtGuard(db: Db, a: Action)
    requires db.version >= GUARDED
    ensures !AllAbove(Path(db, a)) <==> a.Startup? && a.recover && db.dirty && db.version == GUARDED
  {
    if a.Startup? && a.recover && db.dirty && db.version == GUARDED {
      assert Path(db, a)[0].version == GUARDED - 1;
    } else {
      ActionStaysAbove(db, a);
    }
  }

  /** All databases a run of actions goes through. */
  function Paths(db: Db, actions: seq<Action>): seq<Db>
    decreases |actions|
  {
    if actions == [] then [db] else Path(db, actions[0]) + Paths(Act(db, actions[0]), actions[1..])
  }

  /** Once at 22 or above, no run of actions without recovery ever is below, whatever fails on the way. */
  lemma {:induction false} NeverBelow(db: Db, actions: seq<Action>)
    requires db.version >= GUARDED
    requires forall i :: 0 <= i < |actions| && actions[i].Startup? ==> !actions[i].recover
    ensures AllAbove(Paths(db, actions)) && Run(db, actions).version >= GUARDED
    decreases |actions|
  {
    if actions != [] {
      ActionStaysAbove(db, actions[0]);
      NeverBelow(Act(db, actions[0]), actions[1..]);
    }
  }

  /** A rollback from 23 that fails, followed by a startup with recovery, leaves version 21. */
  lemma {:induction false} RecoveryAfterFailedRollbackFalls(schema: Schema, left: Schema, connected: bool)
    ensures Run(Db(23, false, schema), [DownOne([Failed(left)]), Startup(true, connected, [])]).version == 21
  {
    var db := Db(23, false, schema);
    var failed := Db(22, true, left);
    assert Step(db, 22, Failed(left)) == failed;
    assert Course(db, 22, [Failed(left)]) == [db] + Course(failed, 22, []);
    assert Act(db, DownOne([Failed(left)])) == failed;
    assert Act(failed, Startup(true, connected, [])).version == 21;
    var actions := [DownOne([Failed(left)]), Startup(true, connected, [])];
    assert actions[1..] == [Startup(true, connected, [])];
    assert Run(failed, actions[1..]) == Act(failed, actions[1]);
  }

  // ---- No legacy rows at the guard ----

  /** No step of the course enters version 22 or later from below with legacy rows. */
  predicate Clear(r: seq<Db>) {
    forall i :: 0 <= i < |r| - 1 && r[i].version < GUARDED && r[i + 1].version >= GUARDED ==> !Legacy(r[i].schema)
  }

  lemma {:induction false} StepKeepsClear(db: Db, target: int)
    requires db.version < target && !Legacy(db.schema)
    ensures !Legacy(Step(db, target, Done).schema)
  {
  }

  lemma {:induction false} DirtyStops(db: Db, target: int, outcomes: seq<Outcome>)
    requires db.dirty
    ensures Course(db, target, outcomes) == [db]
  {
  }

  lemma {:induction false} ClearPrepend(db: Db, r: seq<Db>)
    requires r != [] && Clear(r)
    requires db.version < GUARDED && r[0].version >= GUARDED ==> !Legacy(db.schema)
    ensures Clear([db] + r)
  {
    var s := [db] + r;
    forall i | 0 <= i < |s| - 1 && s[i].version < GUARDED && s[i + 1].version >= GUARDED
      ensures !Legacy(s[i].schema)
    {
      if i > 0 {
        assert r[i - 1] == s[i] && r[i - 1 + 1] == s[i + 1];
      }
    }
  }

  /** An upward course that starts without legacy rows stays without until it is through. */
  lemma {:induction false} ClimbIsClear(db: Db, target: int, outcomes: seq<Outcome>)
    requires db.version <= target && (db.version < GUARDED ==> !Legacy(db.schema))
    ensures Clear(Course(db, target, outcomes))
    decreases |outcomes|
  {
    if Moving(db, target, outcomes) {
      var next := Step(db, target, outcomes[0]);
      if outcomes[0].Done? {
        if db.version < GUARDED {
          StepKeepsClear(db, target);
        }
        ClimbIsClear(next, target, outcomes[1..]);
      } else {
        DirtyStops(next, target, outcomes[1..]);
      }
      ClearPrepend(db, Course(next, target, outcomes[1..]));
    }
  }

  /** A course towards a version below 22 never enters it from below. */
  lemma {:induction false} LowCourseIsClear(db: Db, target: int, outcomes: seq<Outcome>)
    requires target < GUARDED || db.version >= GUARDED
    ensures Clear(Course(db, target, outcomes))
    decreases |outcomes|
  {
    if Moving(db, target, outcomes) {
      LowCourseIsClear(Step(db, target, outcomes[0]), target, outcomes[1..]);
      ClearPrepend(db, Course(Step(db, target, outcomes[0]), target, outcomes[1..]));
    }
  }

  lemma {:induction false} ActionIsClear(db: Db, a: Action)
    requires a.Startup? ==> a.connected
    ensures Clear(Path(db, a))
  {
    match a
    case Startup(recover, connected, outcomes) =>
      var d := Recovered(db);
      if PreflightUp(d).Approved? {
        ClimbIsClear(d, Upward(d), outcomes);
      }
    case Up(outcomes) =>
      if PreflightUp(db).Approved? {
        ClimbIsClear(db, Upward(db), outcomes);
      }
    case DownOne(outcomes) => LowCourseIsClear(db, NextVersion(db.version, NIL), outcomes);
    case Goto(target, outcomes) =>
      if target < GUARDED || db.version >= GUARDED {
        LowCourseIsClear(db, target, outcomes);
      } else if PreflightGoto(db, target).Approved? {
        ClimbIsClear(db, target, outcomes);
      }
    case Edit(schema) =>
  }

  predicate AllClear(db: Db, actions: seq<Action>)
    decreases |actions|
  {
    actions != [] ==> Clear(Path(db, actions[0])) && AllClear(Act(db, actions[0]), actions[1..])
  }

  /**
   * In every run of actions, recovery included, from any database and with rows edited at will between
   * the actions, every step that reaches version 22 starts without legacy rows.
   */
  lemma {:induction false} NoLegacyRowsAtGuard(db: Db, actions: seq<Action>)
    requires forall i :: 0 <= i < |actions| && actions[i].Startup? ==> actions[i].connected
    ensures AllClear(db, actions)
    decreases |actions|
  {
    if actions != [] {
      ActionIsClear(db, actions[0]);
      NoLegacyRowsAtGuard(Act(db, actions[0]), actions[1..]);
    }
  }
}
