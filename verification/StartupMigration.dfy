/**
  Startup migration of one database by any number of API replicas, possibly of
  different releases: an advisory lock, a freshness check made of two separate
  queries, and then a transactional create-and-stamp, an upgrade or a refusal.

  The protocol is a step relation over a shared state.  Every query, every
  statement of the create-and-stamp transaction and its commit are separate
  steps, so that any other replica may move in between, and a process may die
  at any of them.
*/
module StartupMigration {
  import opened Text

  type Pid = nat

  /** The shape of one table: opaque column definitions. */
  type Shape = int

  /** One value of the `version_num` column. */
  datatype Revision = Null | Label(text: string)

  /** `versions` is the content of the `alembic_version` table, if it exists. */
  datatype Database = Database(relations: map<string, Shape>, versions: Option<seq<Revision>>)

  const EMPTY := Database(map[], None)

  /** What one image carries: its models' tables and its migration scripts. */
  datatype Release = Release(models: map<string, Shape>, known: set<string>, head: string)
  {
    ghost predicate Valid() {
      head in known && forall r :: r in known ==> r != "" && IsTrimmed(r)
    }
  }

  /** The uncommitted work of a create-and-stamp transaction. */
  datatype Transaction = Transaction(created: Option<map<string, Shape>>, stamped: bool)

  datatype Pc =
    | Waiting
    | CheckTable
    | CheckRelations
    | Creating(tx: Transaction)
    | ReadRevision
    | Decide(revision: string)
    | Upgrading
    | Leaving
    | Succeeded
    | Refused
    | Failed
  {
    predicate Critical() {
      !Waiting? && !Terminal()
    }
    predicate Terminal() {
      Succeeded? || Refused? || Failed?
    }
  }

  datatype Proc = Proc(release: Release, pc: Pc)

  /** `creations` counts the committed create-and-stamp transactions. */
  datatype State = State(db: Database, lock: Option<Pid>, procs: map<Pid, Proc>, creations: nat)

  datatype Action =
    | Spawn(release: Release)
    | Acquire
    | FindTable
    | FindRelations
    | CreateAll
    | Stamp
    | Commit
    | FetchRevision
    | Choose
    | AlterSchema(relations: map<string, Shape>)
    | Advance(revision: string)
    | FinishUpgrade
    | Release_
    | Die

  /** `create_all`: create the missing tables, never alter an existing one. */
  function MissingTables(models: map<string, Shape>, db: Database): map<string, Shape> {
    map t | t in models && t !in db.relations :: models[t]
  }

  /** The row that `_get_current_revision` insists on. */
  predicate SoleRevision(db: Database, revision: string) {
    && db.versions == Some([Label(revision)])
    && revision != "" && IsTrimmed(revision)
  }

  /** The pc and the database after process `p` of this release takes `a`. */
  ghost predicate Local(release: Release, pc: Pc, db: Database, a: Action, pc': Pc, db': Database) {
    match a
    case Spawn(_) => false
    case Acquire => false
    case Release_ => false
    case Die => false
    case FindTable =>
      pc.CheckTable? && db' == db && pc' == if db.versions.Some? then ReadRevision else CheckRelations
    case FindRelations =>
      pc.CheckRelations? && db' == db
      && pc' == if db.relations != map[] then Refused else Creating(Transaction(None, false))
    case CreateAll =>
      pc.Creating? && pc.tx.created.None? && db' == db
      && pc' == Creating(pc.tx.(created := Some(MissingTables(release.models, db))))
    case Stamp =>
      pc.Creating? && pc.tx.created.Some? && db' == db
      && pc' == Creating(pc.tx.(stamped := true))
    case Commit =>
      pc.Creating? && pc.tx.created.Some? && pc.tx.stamped && pc' == Leaving
      && db' == Database(db.relations + pc.tx.created.value, Some([Label(release.head)]))
    case FetchRevision =>
      pc.ReadRevision? && db' == db
      && ((pc'.Decide? && SoleRevision(db, pc'.revision))
          || (pc' == Refused && forall r :: !SoleRevision(db, r)))
    case Choose =>
      pc.Decide? && db' == db
      && pc' == if pc.revision == release.head then Leaving
                else if pc.revision !in release.known then Refused
                else Upgrading
    case AlterSchema(relations) =>
      pc.Upgrading? && pc' == pc && db' == db.(relations := relations)
    case Advance(revision) =>
      pc.Upgrading? && pc' == pc && revision in release.known
      && db' == db.(versions := Some([Label(revision)]))
    case FinishUpgrade =>
      pc.Upgrading? && pc' == Leaving && db' == db && db.versions == Some([Label(release.head)])
  }

  /** One step of process `p`.  Refusing, leaving and dying end the guard transaction. */
  ghost predicate Step(s: State, p: Pid, a: Action, s': State) {
    match a
    case Spawn(release) =>
      && p !in s.procs && release.Valid()
      && s' == s.(procs := s.procs[p := Proc(release, Waiting)])
    case Acquire =>
      && p in s.procs && s.procs[p].pc.Waiting? && s.lock.None?
      && s' == s.(lock := Some(p), procs := s.procs[p := s.procs[p].(pc := CheckTable)])
    case Release_ =>
      && p in s.procs && s.procs[p].pc.Leaving?
      && s' == s.(lock := Unlock(s.lock, p), procs := s.procs[p := s.procs[p].(pc := Succeeded)])
    case Die =>  // a crash, a lost connection, a failed statement or the 120 s lock timeout
      && p in s.procs && !s.procs[p].pc.Terminal()
      && s' == s.(lock := Unlock(s.lock, p), procs := s.procs[p := s.procs[p].(pc := Failed)])
    case _ =>
      && p in s.procs
      && exists pc', db' :: LocalStep(s, p, a, pc', db', s')
  }

  ghost predicate LocalStep(s: State, p: Pid, a: Action, pc': Pc, db': Database, s': State)
    requires p in s.procs
  {
    && Local(s.procs[p].release, s.procs[p].pc, s.db, a, pc', db')
    && s'.db == db'
    && s'.procs == s.procs[p := s.procs[p].(pc := pc')]
    && s'.lock == (if pc'.Refused? then Unlock(s.lock, p) else s.lock)
    && s'.creations == s.creations + (if a.Commit? then 1 else 0)
  }

  function Unlock(lock: Option<Pid>, p: Pid): Option<Pid> {
    if lock == Some(p) then None else lock
  }

  ghost predicate Init(s: State) {
    s.lock.None? && s.procs == map[] && s.creations == 0
  }

  datatype Move = Move(actor: Pid, action: Action)

  /** `states` is the run in which `moves[i]` leads from `states[i]` to `states[i + 1]`. */
  ghost predicate Run(states: seq<State>, moves: seq<Move>) {
    && |states| == |moves| + 1
    && Init(states[0])
    && forall i {:trigger moves[i]} :: 0 <= i < |moves| ==>
         Step(states[i], moves[i].actor, moves[i].action, states[i + 1])
  }

  /** Every release that took part so far gives this database no way forward. */
  ghost predicate Ambiguous(db: Database, release: Release) {
    || (db.versions.None? && db.relations != map[])
    || (db.versions.Some? && forall r :: SoleRevision(db, r) ==> r !in release.known)
  }

  /** Relations only together with exactly one revision known to some release present. */
  ghost predicate Versioned(s: State) {
    exists p, r :: KnownTo(s, p, r) && SoleRevision(s.db, r)
  }

  ghost predicate KnownTo(s: State, p: Pid, r: string) {
    p in s.procs && r in s.procs[p].release.known
  }

  // ---------------------------------------------------------------- invariant

  /** What a process inside the critical section may rely on. */
  ghost predicate Believes(proc: Proc, db: Database) {
    match proc.pc
    case CheckRelations => db.versions.None?
    case Creating(tx) =>
      && db == EMPTY
      && (tx.created.Some? ==> tx.created.value == proc.release.models)
    case ReadRevision => db.versions.Some?
    case Decide(r) => SoleRevision(db, r)
    case Upgrading => exists r :: r in proc.release.known && SoleRevision(db, r)
    case Leaving => SoleRevision(db, proc.release.head)
    case _ => true
  }

  /** The lock is held exactly by the process in the critical section. */
  ghost predicate ProcInv(proc: Proc, p: Pid, lock: Option<Pid>, db: Database) {
    && proc.release.Valid()
    && (proc.pc.Critical() <==> lock == Some(p))
    && Believes(proc, db)
  }

  ghost predicate Inv(s: State) {
    && (forall p :: p in s.procs ==> ProcInv(s.procs[p], p, s.lock, s.db))
    && (s.lock.Some? ==> s.lock.value in s.procs)
    && (s.creations > 0 ==> s.db.versions.Some?)
  }

  /** A process outside the critical section depends neither on the database nor on the lock. */
  lemma IdleStays(proc: Proc, q: Pid, lock: Option<Pid>, db: Database, lock': Option<Pid>, db': Database)
    requires ProcInv(proc, q, lock, db) && lock != Some(q) && lock' != Some(q)
    ensures ProcInv(proc, q, lock', db')
  {
  }

  lemma LocalBelief(release: Release, pc: Pc, db: Database, a: Action, pc': Pc, db': Database)
    requires release.Valid() && Believes(Proc(release, pc), db)
    requires Local(release, pc, db, a, pc', db')
    ensures Believes(Proc(release, pc'), db')
    ensures pc.Critical() && (pc'.Critical() || pc'.Refused?)
    ensures db.versions.Some? ==> db'.versions.Some?
    ensures a.Commit? ==> db == EMPTY && db' == Database(release.models, Some([Label(release.head)]))
  {
    match a
    case CreateAll => assert MissingTables(release.models, EMPTY) == release.models;
    case Commit => assert map[] + pc.tx.created.value == pc.tx.created.value;
    case Advance(r) => assert SoleRevision(db', r);
    case AlterSchema(_) =>
      var r :| r in release.known && SoleRevision(db, r);
      assert SoleRevision(db', r);
    case _ =>
  }

  lemma LocalKeepsInv(s: State, p: Pid, a: Action, pc': Pc, db': Database, s': State)
    requires Inv(s) && p in s.procs && LocalStep(s, p, a, pc', db', s')
    ensures Inv(s') && s.lock == Some(p)
  {
    assert ProcInv(s.procs[p], p, s.lock, s.db);
    LocalBelief(s.procs[p].release, s.procs[p].pc, s.db, a, pc', db');
    forall q | q in s'.procs ensures ProcInv(s'.procs[q], q, s'.lock, s'.db) {
      if q != p {
        assert s'.procs[q] == s.procs[q];
        IdleStays(s.procs[q], q, s.lock, s.db, s'.lock, s'.db);
      }
    }
  }

  lemma GuardKeepsInv(s: State, p: Pid, a: Action, s': State)
    requires Inv(s) && Step(s, p, a, s')
    requires a.Spawn? || a.Acquire? || a.Release_? || a.Die?
    ensures Inv(s') && s'.db == s.db
  {
    forall q | q in s'.procs ensures ProcInv(s'.procs[q], q, s'.lock, s'.db) {
      if q != p {
        assert q in s.procs && s'.procs[q] == s.procs[q];
        assert ProcInv(s.procs[q], q, s.lock, s.db);
      } else if !a.Spawn? {
        assert ProcInv(s.procs[p], p, s.lock, s.db);
      }
    }
  }

  /** Every step of every process keeps the invariant. */
  lemma StepKeepsInv(s: State, p: Pid, a: Action, s': State)
    requires Inv(s) && Step(s, p, a, s')
    ensures Inv(s')
  {
    if a.Spawn? || a.Acquire? || a.Release_? || a.Die? {
      GuardKeepsInv(s, p, a, s');
    } else {
      var pc', db' :| LocalStep(s, p, a, pc', db', s');
      LocalKeepsInv(s, p, a, pc', db', s');
    }
  }

  lemma {:induction false} RunInv(states: seq<State>, moves: seq<Move>, i: nat)
    requires Run(states, moves) && i < |states|
    ensures Inv(states[i])
  {
    if i > 0 {
      RunInv(states, moves, i - 1);
      StepKeepsInv(states[i - 1], moves[i - 1].actor, moves[i - 1].action, states[i]);
    }
  }

  // ----------------------------------------------------------- main theorems

  /** At most one process is ever inside the guarded section, and it holds the lock. */
  lemma MutualExclusion(states: seq<State>, moves: seq<Move>, i: nat, p: Pid, q: Pid)
    requires Run(states, moves) && i < |states|
    requires p in states[i].procs && states[i].procs[p].pc.Critical()
    requires q in states[i].procs && states[i].procs[q].pc.Critical()
    ensures p == q && states[i].lock == Some(p)
  {
    RunInv(states, moves, i);
    assert ProcInv(states[i].procs[p], p, states[i].lock, states[i].db);
    assert ProcInv(states[i].procs[q], q, states[i].lock, states[i].db);
  }

  /** What a step did to the database, seen from the process that took it. */
  ghost predicate Justified(s: State, p: Pid, a: Action, s': State) {
    && s.lock == Some(p) && p in s.procs
    && (a.Commit? ==>
          && s.db == EMPTY
          && s'.db == Database(s.procs[p].release.models, Some([Label(s.procs[p].release.head)])))
    && (!a.Commit? ==>
          && (exists r :: r in s.procs[p].release.known && SoleRevision(s.db, r))
          && (exists r :: r in s.procs[p].release.known && SoleRevision(s'.db, r)))
  }

  lemma StepJustified(s: State, p: Pid, a: Action, s': State)
    requires Inv(s) && Step(s, p, a, s')
    requires s'.db != s.db || a.Commit?
    ensures Justified(s, p, a, s')
  {
    if a.Spawn? || a.Acquire? || a.Release_? || a.Die? {
      GuardKeepsInv(s, p, a, s');
    } else {
      var pc', db' :| LocalStep(s, p, a, pc', db', s');
      assert ProcInv(s.procs[p], p, s.lock, s.db);
      LocalBelief(s.procs[p].release, s.procs[p].pc, s.db, a, pc', db');
    }
  }

  /**
    Only the lock holder changes the database, and only in two ways: a commit
    turns the empty database into exactly the models of its release stamped with
    its head, and an upgrade step keeps exactly one revision its release knows.
  */
  lemma OnlyHolderWrites(states: seq<State>, moves: seq<Move>, i: nat)
    requires Run(states, moves) && i < |moves|
    requires states[i + 1].db != states[i].db || moves[i].action.Commit?
    ensures Justified(states[i], moves[i].actor, moves[i].action, states[i + 1])
  {
    RunInv(states, moves, i);
    StepJustified(states[i], moves[i].actor, moves[i].action, states[i + 1]);
  }

  lemma CreationsStep(s: State, p: Pid, a: Action, s': State)
    requires Step(s, p, a, s')
    ensures s'.creations == s.creations + if a.Commit? then 1 else 0
    ensures forall q :: q in s.procs ==> q in s'.procs && s'.procs[q].release == s.procs[q].release
  {
  }

  /** Create-and-stamp commits at most once in any run, and only if the run began with an empty database. */
  lemma {:induction false} CreatedAtMostOnce(states: seq<State>, moves: seq<Move>, i: nat)
    requires Run(states, moves) && i < |states|
    ensures states[i].db == states[0].db || states[i].db.versions.Some?
    ensures states[i].creations <= 1
    ensures states[i].creations == 1 ==> states[0].db == EMPTY && states[i].db.versions.Some?
  {
    if i > 0 {
      var s, m, s' := states[i - 1], moves[i - 1], states[i];
      CreatedAtMostOnce(states, moves, i - 1);
      CreationsStep(s, m.actor, m.action, s');
      if s'.db != s.db || m.action.Commit? {
        OnlyHolderWrites(states, moves, i - 1);
      }
    }
  }

  /**
    A run that starts from the empty database never shows relations without a
    revision: until the one create-and-stamp commits the database stays empty,
    and from then on it carries exactly one revision, known to a release that ran.
  */
  lemma {:induction false} EmptyOrVersioned(states: seq<State>, moves: seq<Move>, i: nat)
    requires Run(states, moves) && i < |states| && states[0].db == EMPTY
    ensures states[i].creations == 0 ==> states[i].db == EMPTY
    ensures states[i].creations > 0 ==> states[i].creations == 1 && Versioned(states[i])
  {
    if i > 0 {
      var s, m, s' := states[i - 1], moves[i - 1], states[i];
      EmptyOrVersioned(states, moves, i - 1);
      CreatedAtMostOnce(states, moves, i);
      CreationsStep(s, m.actor, m.action, s');
      if s'.db != s.db || m.action.Commit? {
        OnlyHolderWrites(states, moves, i - 1);
        RunInv(states, moves, i - 1);
        assert ProcInv(s.procs[m.actor], m.actor, s.lock, s.db);
        var head := s.procs[m.actor].release.head;
        assert m.action.Commit? ==> KnownTo(s', m.actor, head) && SoleRevision(s'.db, head);
        if !m.action.Commit? {
          var r :| r in s.procs[m.actor].release.known && SoleRevision(s'.db, r);
          assert KnownTo(s', m.actor, r);
        }
      } else if s.creations > 0 {
        var p, r :| KnownTo(s, p, r) && SoleRevision(s.db, r);
        assert KnownTo(s', p, r);
      }
    }
  }

  /** No release present in `s` may change the database `db`: it is ambiguous or already at its head. */
  ghost predicate Settled(s: State, db: Database) {
    forall p :: p in s.procs ==>
      Ambiguous(db, s.procs[p].release) || SoleRevision(db, s.procs[p].release.head)
  }

  /** Where a process can be while the database is settled. */
  ghost predicate Harmless(proc: Proc, db: Database) {
    && !proc.pc.Creating? && !proc.pc.Upgrading?
    && ((proc.pc.Leaving? || proc.pc.Succeeded?) ==> SoleRevision(db, proc.release.head))
  }

  lemma HarmlessStep(s: State, p: Pid, a: Action, s': State, q: Pid)
    requires Inv(s) && Step(s, p, a, s') && Settled(s', s.db)
    requires forall o :: o in s.procs ==> Harmless(s.procs[o], s.db)
    requires q in s'.procs
    ensures s'.db == s.db && !a.Commit? && Harmless(s'.procs[q], s'.db)
  {
    if a.Spawn? || a.Acquire? || a.Release_? || a.Die? {
      GuardKeepsInv(s, p, a, s');
      assert q != p ==> s'.procs[q] == s.procs[q];
    } else {
      var pc', db' :| LocalStep(s, p, a, pc', db', s');
      assert Harmless(s.procs[p], s.db);
      assert ProcInv(s.procs[p], p, s.lock, s.db);
      assert p in s'.procs && s'.procs[p].release == s.procs[p].release;
      assert q != p ==> s'.procs[q] == s.procs[q];
    }
  }

  /**
    A database with relations but no history, with missing, several, malformed
    or unknown revisions, or already at the head of every release that runs, is
    never changed; and where it is ambiguous no process ends in success.
  */
  lemma {:induction false} SettledIsUntouched(states: seq<State>, moves: seq<Move>, i: nat)
    requires Run(states, moves) && i < |states|
    requires Settled(states[i], states[0].db)
    ensures states[i].db == states[0].db && states[i].creations == 0
    ensures forall p :: p in states[i].procs ==> Harmless(states[i].procs[p], states[0].db)
    ensures forall p :: p in states[i].procs && Ambiguous(states[0].db, states[i].procs[p].release) ==>
              !states[i].procs[p].pc.Succeeded?
  {
    if i > 0 {
      var s, m, s' := states[i - 1], moves[i - 1], states[i];
      CreationsStep(s, m.actor, m.action, s');
      assert Settled(s, states[0].db) by {
        forall p | p in s.procs
          ensures Ambiguous(states[0].db, s.procs[p].release) || SoleRevision(states[0].db, s.procs[p].release.head)
        { assert s'.procs[p].release == s.procs[p].release; }
      }
      SettledIsUntouched(states, moves, i - 1);
      RunInv(states, moves, i - 1);
      assert m.actor in s'.procs;
      HarmlessStep(s, m.actor, m.action, s', m.actor);
      forall q | q in s'.procs ensures Harmless(s'.procs[q], s'.db) {
        HarmlessStep(s, m.actor, m.action, s', q);
      }
      RunInv(states, moves, i);
    } else {
      RunInv(states, moves, 0);
    }
    forall p | p in states[i].procs && Ambiguous(states[0].db, states[i].procs[p].release)
      ensures !states[i].procs[p].pc.Succeeded?
    {
      assert ProcInv(states[i].procs[p], p, states[i].lock, states[i].db);
      assert Harmless(states[i].procs[p], states[0].db);
    }
  }

  lemma LocalVerdict(release: Release, pc: Pc, db: Database, a: Action, pc': Pc, db': Database)
    requires release.Valid() && Believes(Proc(release, pc), db) && Local(release, pc, db, a, pc', db')
    ensures pc'.Refused? ==> Ambiguous(db', release)
    ensures !pc'.Succeeded?
  {
  }

  lemma StepVerdict(s: State, m: Move, s': State, p: Pid)
    requires Inv(s) && Step(s, m.actor, m.action, s') && p in s.procs && !s.procs[p].pc.Terminal()
    ensures p in s'.procs
    ensures s'.procs[p].pc.Refused? ==> Ambiguous(s'.db, s.procs[p].release)
    ensures s'.procs[p].pc.Succeeded? ==> SoleRevision(s'.db, s.procs[p].release.head)
  {
    var a := m.action;
    assert ProcInv(s.procs[p], p, s.lock, s.db);
    if a.Spawn? || a.Acquire? || a.Release_? || a.Die? {
      GuardKeepsInv(s, m.actor, a, s');
    } else {
      var pc', db' :| LocalStep(s, m.actor, a, pc', db', s');
      if m.actor == p { LocalVerdict(s.procs[p].release, s.procs[p].pc, s.db, a, pc', db'); }
    }
  }

  /** A process refuses only an ambiguous database and succeeds only at its own head. */
  lemma VerdictIsRight(states: seq<State>, moves: seq<Move>, i: nat, p: Pid)
    requires Run(states, moves) && i < |moves|
    requires p in states[i].procs && !states[i].procs[p].pc.Terminal()
    ensures p in states[i + 1].procs
    ensures states[i + 1].procs[p].pc.Refused? ==> Ambiguous(states[i + 1].db, states[i].procs[p].release)
    ensures states[i + 1].procs[p].pc.Succeeded? ==> SoleRevision(states[i + 1].db, states[i].procs[p].release.head)
  {
    RunInv(states, moves, i);
    StepVerdict(states[i], moves[i], states[i + 1], p);
  }

  // ----------------------------------------------------------------- progress

  /** Reachability in any number of steps taken by one process. */
  ghost predicate Leads(s: State, p: Pid, actions: seq<Action>, s': State)
    decreases |actions|
  {
    if actions == [] then s == s'
    else exists t :: Step(s, p, actions[0], t) && Leads(t, p, actions[1..], s')
  }

  /**
    Whatever runs and crashes came before, while the database is still empty and
    the lock is free a new process can install: nothing a dead process left
    behind blocks it, and it ends with the schema of its release at its head.
  */
  lemma FreshInstallStillPossible(s: State, p: Pid, release: Release) returns (actions: seq<Action>, s': State)
    requires Inv(s) && s.db == EMPTY && s.lock.None? && p !in s.procs && release.Valid()
    ensures Leads(s, p, actions, s')
    ensures s'.procs == s.procs[p := Proc(release, Succeeded)] && s'.lock.None?
    ensures s'.db == Database(release.models, Some([Label(release.head)]))
  {
    var s1 := s.(procs := s.procs[p := Proc(release, Waiting)]);
    var s2 := s1.(lock := Some(p), procs := s1.procs[p := Proc(release, CheckTable)]);
    assert s2.procs == s.procs[p := Proc(release, CheckTable)];
    actions, s' := CheckAndCreate(s2, p, release);
    assert s'.procs == s.procs[p := Proc(release, Succeeded)];
    actions := Prepend(s1, p, Acquire, s2, actions, s');
    actions := Prepend(s, p, Spawn(release), s1, actions, s');
  }

  lemma CheckAndCreate(s: State, p: Pid, release: Release) returns (actions: seq<Action>, s': State)
    requires s.db == EMPTY && s.lock == Some(p)
    requires p in s.procs && s.procs[p] == Proc(release, CheckTable)
    ensures Leads(s, p, actions, s')
    ensures s'.procs == s.procs[p := Proc(release, Succeeded)] && s'.lock.None?
    ensures s'.db == Database(release.models, Some([Label(release.head)]))
  {
    var s1 := Moved(s, p, FindTable, CheckRelations, EMPTY);
    var s2 := Moved(s1, p, FindRelations, Creating(Transaction(None, false)), EMPTY);
    actions, s' := CreateAndLeave(s2, p, release);
    assert s'.procs == s.procs[p := Proc(release, Succeeded)];
    actions := Take(s1, p, FindRelations, Creating(Transaction(None, false)), EMPTY, actions, s');
    actions := Take(s, p, FindTable, CheckRelations, EMPTY, actions, s');
  }

  lemma CreateAndLeave(s: State, p: Pid, release: Release) returns (actions: seq<Action>, s': State)
    requires s.db == EMPTY && s.lock == Some(p)
    requires p in s.procs && s.procs[p] == Proc(release, Creating(Transaction(None, false)))
    ensures Leads(s, p, actions, s')
    ensures s'.procs == s.procs[p := Proc(release, Succeeded)] && s'.lock.None?
    ensures s'.db == Database(release.models, Some([Label(release.head)]))
  {
    var built, stamped := Transaction(Some(release.models), false), Transaction(Some(release.models), true);
    var s1 := Moved(s, p, CreateAll, Creating(built), EMPTY);
    var s2 := Moved(s1, p, Stamp, Creating(stamped), EMPTY);
    actions, s' := CommitAndLeave(s2, p, release);
    assert s'.procs == s.procs[p := Proc(release, Succeeded)];
    actions := Take(s1, p, Stamp, Creating(stamped), EMPTY, actions, s');
    assert MissingTables(release.models, EMPTY) == release.models;
    actions := Take(s, p, CreateAll, Creating(built), EMPTY, actions, s');
  }

  lemma CommitAndLeave(s: State, p: Pid, release: Release) returns (actions: seq<Action>, s': State)
    requires s.db == EMPTY && s.lock == Some(p)
    requires p in s.procs && s.procs[p] == Proc(release, Creating(Transaction(Some(release.models), true)))
    ensures Leads(s, p, actions, s')
    ensures s'.procs == s.procs[p := Proc(release, Succeeded)] && s'.lock.None?
    ensures s'.db == Database(release.models, Some([Label(release.head)]))
  {
    var db := Database(release.models, Some([Label(release.head)]));
    var s1 := Moved(s, p, Commit, Leaving, db);
    s' := s1.(lock := None, procs := s1.procs[p := Proc(release, Succeeded)]);
    assert s'.procs == s.procs[p := Proc(release, Succeeded)];
    actions := Prepend(s1, p, Release_, s', [], s');
    assert map[] + release.models == release.models;
    actions := Take(s, p, Commit, Leaving, db, actions, s');
  }

  ghost function Moved(s: State, p: Pid, a: Action, pc': Pc, db': Database): State
    requires p in s.procs
  {
    State(db', s.lock, s.procs[p := s.procs[p].(pc := pc')], s.creations + if a.Commit? then 1 else 0)
  }

  lemma Take(s: State, p: Pid, a: Action, pc': Pc, db': Database, rest: seq<Action>, end: State)
    returns (all: seq<Action>)
    requires p in s.procs && Local(s.procs[p].release, s.procs[p].pc, s.db, a, pc', db') && !pc'.Refused?
    requires Leads(Moved(s, p, a, pc', db'), p, rest, end)
    ensures Leads(s, p, all, end)
  {
    assert LocalStep(s, p, a, pc', db', Moved(s, p, a, pc', db'));
    all := Prepend(s, p, a, Moved(s, p, a, pc', db'), rest, end);
  }

  lemma Prepend(s: State, p: Pid, a: Action, t: State, rest: seq<Action>, s': State) returns (all: seq<Action>)
    requires Step(s, p, a, t) && Leads(t, p, rest, s')
    ensures Leads(s, p, all, s')
  {
    all := [a] + rest;
    assert all[1..] == rest;
  }

  /** This state with process `p` somewhere else. */
  ghost function At(s: State, p: Pid, release: Release, pc: Pc, db: Database, lock: Option<Pid>): State {
    State(db, lock, s.procs[p := Proc(release, pc)], s.creations)
  }

  lemma Then(s: State, p: Pid, release: Release, pc: Pc, db: Database, a: Action, pc': Pc, db': Database,
             rest: seq<Action>, end: State) returns (all: seq<Action>)
    requires Local(release, pc, db, a, pc', db') && !a.Commit?
    requires Leads(At(s, p, release, pc', db', if pc'.Refused? then None else Some(p)), p, rest, end)
    ensures Leads(At(s, p, release, pc, db, Some(p)), p, all, end)
  {
    var from, to := At(s, p, release, pc, db, Some(p)), At(s, p, release, pc', db', if pc'.Refused? then None else Some(p));
    assert to.procs == from.procs[p := from.procs[p].(pc := pc')];
    assert LocalStep(from, p, a, pc', db', to);
    all := Prepend(from, p, a, to, rest, end);
  }

  lemma Leave(s: State, p: Pid, release: Release, db: Database) returns (actions: seq<Action>)
    ensures Leads(At(s, p, release, Leaving, db, Some(p)), p, actions, At(s, p, release, Succeeded, db, None))
  {
    var from, to := At(s, p, release, Leaving, db, Some(p)), At(s, p, release, Succeeded, db, None);
    assert to.procs == from.procs[p := from.procs[p].(pc := Succeeded)];
    actions := Prepend(from, p, Release_, to, [], to);
  }

  lemma Enter(s: State, p: Pid, rest: seq<Action>, end: State) returns (all: seq<Action>)
    requires s.lock.None? && p in s.procs && s.procs[p].pc.Waiting?
    requires Leads(At(s, p, s.procs[p].release, CheckTable, s.db, Some(p)), p, rest, end)
    ensures Leads(s, p, all, end)
  {
    all := Prepend(s, p, Acquire, At(s, p, s.procs[p].release, CheckTable, s.db, Some(p)), rest, end);
  }

  /** From the lock to the decision about a database with one revision. */
  lemma Read(s: State, p: Pid, revision: string, rest: seq<Action>, end: State) returns (all: seq<Action>)
    requires s.lock.None? && p in s.procs && s.procs[p].pc.Waiting? && SoleRevision(s.db, revision)
    requires Leads(At(s, p, s.procs[p].release, Decide(revision), s.db, Some(p)), p, rest, end)
    ensures Leads(s, p, all, end)
  {
    var release := s.procs[p].release;
    all := Then(s, p, release, ReadRevision, s.db, FetchRevision, Decide(revision), s.db, rest, end);
    all := Then(s, p, release, CheckTable, s.db, FindTable, ReadRevision, s.db, all, end);
    all := Enter(s, p, all, end);
  }

  /** A waiting replica can bring a database at an older revision that it knows to its own head. */
  lemma UpgradeStillPossible(s: State, p: Pid, revision: string) returns (actions: seq<Action>)
    requires Inv(s) && s.lock.None? && p in s.procs && s.procs[p].pc.Waiting?
    requires var release := s.procs[p].release; revision in release.known && revision != release.head
    requires SoleRevision(s.db, revision)
    ensures var release := s.procs[p].release;
            Leads(s, p, actions, At(s, p, release, Succeeded, s.db.(versions := Some([Label(release.head)])), None))
  {
    var release := s.procs[p].release;
    assert ProcInv(s.procs[p], p, s.lock, s.db);
    var db := s.db.(versions := Some([Label(release.head)]));
    var end := At(s, p, release, Succeeded, db, None);
    actions := Leave(s, p, release, db);
    actions := Then(s, p, release, Upgrading, db, FinishUpgrade, Leaving, db, actions, end);
    actions := Then(s, p, release, Upgrading, s.db, Advance(release.head), Upgrading, db, actions, end);
    actions := Then(s, p, release, Decide(revision), s.db, Choose, Upgrading, s.db, actions, end);
    actions := Read(s, p, revision, actions, end);
  }

  /** At its own head a waiting replica succeeds without touching the database. */
  lemma HeadIsAccepted(s: State, p: Pid) returns (actions: seq<Action>)
    requires s.lock.None? && p in s.procs && s.procs[p].pc.Waiting? && SoleRevision(s.db, s.procs[p].release.head)
    ensures Leads(s, p, actions, At(s, p, s.procs[p].release, Succeeded, s.db, None))
  {
    var release := s.procs[p].release;
    var end := At(s, p, release, Succeeded, s.db, None);
    actions := Leave(s, p, release, s.db);
    actions := Then(s, p, release, Decide(release.head), s.db, Choose, Leaving, s.db, actions, end);
    actions := Read(s, p, release.head, actions, end);
  }

  /** An ambiguous database is refused, untouched, and the lock is free again. */
  lemma AmbiguousIsRefused(s: State, p: Pid) returns (actions: seq<Action>)
    requires Inv(s) && s.lock.None? && p in s.procs && s.procs[p].pc.Waiting?
    requires Ambiguous(s.db, s.procs[p].release)
    ensures Leads(s, p, actions, At(s, p, s.procs[p].release, Refused, s.db, None))
  {
    var release := s.procs[p].release;
    assert ProcInv(s.procs[p], p, s.lock, s.db);
    var end := At(s, p, release, Refused, s.db, None);
    assert Leads(end, p, [], end);
    if r :| SoleRevision(s.db, r) {
      actions := Then(s, p, release, Decide(r), s.db, Choose, Refused, s.db, [], end);
      actions := Read(s, p, r, actions, end);
    } else if s.db.versions.Some? {
      actions := Then(s, p, release, ReadRevision, s.db, FetchRevision, Refused, s.db, [], end);
      actions := Then(s, p, release, CheckTable, s.db, FindTable, ReadRevision, s.db, actions, end);
      actions := Enter(s, p, actions, end);
    } else {
      actions := Then(s, p, release, CheckRelations, s.db, FindRelations, Refused, s.db, [], end);
      actions := Then(s, p, release, CheckTable, s.db, FindTable, CheckRelations, s.db, actions, end);
      actions := Enter(s, p, actions, end);
    }
  }

  /** What is ambiguous, in terms of the rows of the version table. */
  lemma AmbiguousMeans(db: Database, release: Release)
    requires release.Valid()
    ensures Ambiguous(db, release) <==>
              match db.versions
              case None => db.relations != map[]
              case Some(rows) => !(|rows| == 1 && rows[0].Label? && rows[0].text in release.known)
  {
    if db.versions.Some? {
      var rows := db.versions.value;
      if |rows| == 1 && rows[0].Label? {
        assert rows == [Label(rows[0].text)];
        assert rows[0].text in release.known ==> SoleRevision(db, rows[0].text);
      }
    }
  }

  /** What a startup makes of a database. */
  ghost function Target(db: Database, release: Release): Database {
    if db == EMPTY then Database(release.models, Some([Label(release.head)]))
    else if Ambiguous(db, release) then db
    else db.(versions := Some([Label(release.head)]))
  }

  /**
    While the lock is free a waiting replica can always reach a verdict, and it is
    the right one: refusal, with the database untouched, exactly for an ambiguous
    database, and otherwise success at its own head.
  */
  lemma VerdictIsReachable(s: State, p: Pid) returns (actions: seq<Action>, s': State)
    requires Inv(s) && s.lock.None? && p in s.procs && s.procs[p].pc.Waiting?
    ensures Leads(s, p, actions, s')
    ensures var release := s.procs[p].release;
            && s'.db == Target(s.db, release) && s'.lock.None?
            && s'.procs == s.procs[p := Proc(release, if Ambiguous(s.db, release) then Refused else Succeeded)]
  {
    var release := s.procs[p].release;
    assert ProcInv(s.procs[p], p, s.lock, s.db);
    AmbiguousMeans(s.db, release);
    if s.db == EMPTY {
      var inside := At(s, p, release, CheckTable, s.db, Some(p));
      actions, s' := CheckAndCreate(inside, p, release);
      actions := Enter(s, p, actions, s');
    } else if Ambiguous(s.db, release) {
      actions := AmbiguousIsRefused(s, p);
      s' := At(s, p, release, Refused, s.db, None);
    } else {
      var revision := s.db.versions.value[0].text;
      assert s.db.versions == Some([Label(revision)]);
      if revision == release.head {
        actions := HeadIsAccepted(s, p);
        s' := At(s, p, release, Succeeded, s.db, None);
      } else {
        actions := UpgradeStillPossible(s, p, revision);
        s' := At(s, p, release, Succeeded, s.db.(versions := Some([Label(release.head)])), None);
      }
    }
  }
}
