/** Lazy creation of the physical tables: every interleaving of `ensure_shard` calls and of the
    start-up loop `ensure_current_month_shards` of `app/core/sharding.py`. A coroutine gives way only at
    an await, so a step is what one coroutine does between two awaits. DDL statements commit by
    themselves. */
module ShardCreation {
  import opened Wrappers
  import opened Runs
  import opened Sharding

  /** Where a coroutine stands; each name is the await it is about to come back from. */
  datatype Stage =
    | Start
    | Locking
    | Opening
    | CreatingDb
    | CreatingTable
    | Committing
    | RollingBack
    | Finished(ok: bool)

  datatype Task =
    /** One call of `ensure_shard`, for one table of one database. */
    | Ensure(db: string, shard: string, stage: Stage)
    /** One run of the start-up loop over `shards`; `next` is the one it creates next. */
    | Prewarm(db: string, shards: seq<string>, stage: Stage, next: nat)

  /** How an await ends. A statement that fails may have been carried out all the same. */
  datatype Outcome = Ok | Fails(applied: bool)

  /** The database. */
  datatype Physical = Physical(dbs: set<string>, tables: set<string>)

  /** `_ensured_dbs` and `_ensured_shards`. */
  datatype Cache = Cache(dbs: set<string>, shards: set<string>)

  /** `created` counts the CREATE TABLE statements of `ensure_shard` that were carried out, `unreported`
      those among them that were reported as failed, `completed` the calls that entered their table in
      the cache, `abandoned` those that did not get there because leaving the connection failed. */
  datatype Tally = Tally(created: multiset<string>, unreported: multiset<string>, completed: multiset<string>,
                         abandoned: multiset<string>)

  datatype Shared = Shared(physical: Physical, cache: Cache, lock: Option<nat>, tally: Tally)

  /** What one step leaves behind. */
  datatype Result = Result(shared: Shared, task: Task)

  function At(t: Task, stage: Stage): Task {
    match t
    case Ensure(db, shard, _) => Ensure(db, shard, stage)
    case Prewarm(db, shards, _, next) => Prewarm(db, shards, stage, next)
  }

  function CreateDb(p: Physical, db: string, o: Outcome): Physical {
    if o.Ok? || o.applied then p.(dbs := p.dbs + {db}) else p
  }

  /** The statement is carried out: a table cannot be created in a database that is not there. */
  predicate Creates(p: Physical, db: string, o: Outcome) {
    (o.Ok? || o.applied) && db in p.dbs
  }

  function CreateTable(p: Physical, db: string, shard: string, o: Outcome): Physical {
    if Creates(p, db, o) then p.(tables := p.tables + {shard}) else p
  }

  function Once(shard: string, b: bool): multiset<string> {
    if b then multiset{shard} else multiset{}
  }

  /** What a CREATE of `ensure_shard` adds to the counts. */
  function CountCreate(t: Tally, p: Physical, db: string, shard: string, o: Outcome): Tally {
    t.(created := t.created + Once(shard, Creates(p, db, o)),
       unreported := t.unreported + Once(shard, Creates(p, db, o) && o.Fails?))
  }

  /** One step of `ensure_shard` by coroutine `self`. */
  function StepEnsure(s: Shared, self: nat, t: Task, o: Outcome): Result
    requires t.Ensure?
  {
    var db, shard := t.db, t.shard;
    match t.stage
    case Start =>
      Result(s, At(t, if shard in s.cache.shards then Finished(true) else Locking))
    case Locking =>
      if o.Fails? then Result(s, At(t, Finished(false)))
      else if s.lock.Some? then Result(s, t)
      else if shard in s.cache.shards then Result(s, At(t, Finished(true)))
      else Result(s.(lock := Some(self)), At(t, Opening))
    case Opening =>
      if o.Fails? then Result(s.(lock := None), At(t, Finished(false)))
      else Result(s, At(t, if db in s.cache.dbs then CreatingTable else CreatingDb))
    case CreatingDb =>
      var s1 := s.(physical := CreateDb(s.physical, db, o));
      if o.Fails? then Result(s1, At(t, RollingBack))
      else Result(s1.(cache := s.cache.(dbs := s.cache.dbs + {db})), At(t, CreatingTable))
    case CreatingTable =>
      var s1 := s.(physical := CreateTable(s.physical, db, shard, o), tally := CountCreate(s.tally, s.physical, db, shard, o));
      Result(s1, At(t, if o.Fails? || db !in s.physical.dbs then RollingBack else Committing))
    case Committing =>
      var s1 := s.(lock := None);
      if o.Fails? then
        Result(s1.(tally := s.tally.(abandoned := s.tally.abandoned + multiset{shard})), At(t, Finished(false)))
      else
        Result(s1.(cache := s.cache.(shards := s.cache.shards + {shard}),
                   tally := s.tally.(completed := s.tally.completed + multiset{shard})), At(t, Finished(true)))
    case RollingBack => Result(s.(lock := None), At(t, Finished(false)))
    case Finished(_) => Result(s, t)
  }

  /** One step of `ensure_current_month_shards`, which takes no lock. */
  function StepPrewarm(s: Shared, t: Task, o: Outcome): Result
    requires t.Prewarm?
  {
    var db := t.db;
    match t.stage
    case Start => Result(s, At(t, Opening))
    case Locking => Result(s, t)
    case Opening => Result(s, At(t, if o.Fails? then Finished(false) else CreatingDb))
    case CreatingDb =>
      var s1 := s.(physical := CreateDb(s.physical, db, o));
      if o.Fails? then Result(s1, At(t, RollingBack))
      else Result(s1.(cache := s.cache.(dbs := s.cache.dbs + {db})), At(t, CreatingTable))
    case CreatingTable =>
      if t.next >= |t.shards| then Result(s, At(t, Committing))
      else
        var shard := t.shards[t.next];
        var s1 := s.(physical := CreateTable(s.physical, db, shard, o));
        if o.Fails? || db !in s.physical.dbs then Result(s1, At(t, RollingBack))
        else Result(s1.(cache := s.cache.(shards := s.cache.shards + {shard})),
                    Prewarm(db, t.shards, CreatingTable, t.next + 1))
    case Committing => Result(s, At(t, Finished(o.Ok?)))
    case RollingBack => Result(s, At(t, Finished(false)))
    case Finished(_) => Result(s, t)
  }

  function StepTask(s: Shared, self: nat, t: Task, o: Outcome): Result {
    if t.Ensure? then StepEnsure(s, self, t, o) else StepPrewarm(s, t, o)
  }

  datatype State = State(shared: Shared, tasks: seq<Task>)

  /** Coroutine `i` makes its next step. */
  function Step(s: State, i: nat, o: Outcome): State {
    if i < |s.tasks| then
      var r := StepTask(s.shared, i, s.tasks[i], o);
      State(r.shared, s.tasks[i := r.task])
    else s
  }

  // ---------- the coroutines as they are written ----------

  /** How the awaits of one coroutine end. */
  datatype World = World(lock: Outcome, open: Outcome, createDb: Outcome, createTable: nat -> Outcome, commit: Outcome,
                         rollback: Outcome)

  function OutcomeAt(w: World, t: Task): Outcome {
    match t.stage
    case Locking => w.lock
    case Opening => w.open
    case CreatingDb => w.createDb
    case CreatingTable => w.createTable(if t.Ensure? then 0 else t.next)
    case Committing => w.commit
    case RollingBack => w.rollback
    case _ => Ok
  }

  function StageRank(stage: Stage): nat {
    match stage
    case Start => 7
    case Locking => 6
    case Opening => 5
    case CreatingDb => 4
    case CreatingTable => 3
    case Committing => 2
    case RollingBack => 1
    case Finished(_) => 0
  }

  function TablesLeft(t: Task): nat {
    if t.Prewarm? && t.next < |t.shards| then |t.shards| - t.next else 0
  }

  /** The steps of one coroutine with nothing in between, until it ends or waits for the lock. */
  function Alone(s: Shared, self: nat, t: Task, w: World): Result
    decreases StageRank(t.stage), TablesLeft(t)
  {
    if t.stage.Finished? || (t.stage.Locking? && (t.Prewarm? || s.lock.Some?)) then Result(s, t)
    else
      var r := StepTask(s, self, t, OutcomeAt(w, t));
      Alone(r.shared, self, r.task, w)
  }

  lemma AloneStep(s: Shared, self: nat, t: Task, w: World)
    requires !t.stage.Locking?
    ensures var r := StepTask(s, self, t, OutcomeAt(w, t));
            Alone(s, self, t, w) == Alone(r.shared, self, r.task, w)
  {
  }

  /** The first of the statements from `k` on that fails, or `n`. */
  function FirstFailure(w: World, k: nat, n: nat): (f: nat)
    requires k <= n
    ensures k <= f <= n && (f < n ==> w.createTable(f).Fails?) && forall i :: k <= i < f ==> w.createTable(i).Ok?
    decreases n - k
  {
    if k == n || w.createTable(k).Fails? then k else FirstFailure(w, k + 1, n)
  }

  /** What the start-up loop leaves: the tables are created and cached one after the other up to the first
      statement that fails, nothing else changes, and it succeeds exactly when nothing fails. */
  ghost predicate IsPrewarmed(s: Shared, s': Shared, ok: bool, db: string, shards: seq<string>, w: World) {
    var f := FirstFailure(w, 0, |shards|);
    && (ok <==> w.open.Ok? && w.createDb.Ok? && f == |shards| && w.commit.Ok?)
    && s'.lock == s.lock && s'.tally == s.tally
    && (w.open.Fails? ==> s' == s)
    && (w.open.Ok? && w.createDb.Fails? ==>
          && s'.cache == s.cache && s'.physical.tables == s.physical.tables
          && s'.physical.dbs == s.physical.dbs + if w.createDb.applied then {db} else {})
    && (w.open.Ok? && w.createDb.Ok? ==> UpToFailure(s, s', db, shards, w, 0, f))
  }

  /** The tables from `k` on up to number `f` are created and cached, and the one that failed may be created. */
  ghost predicate UpToFailure(s: Shared, s': Shared, db: string, shards: seq<string>, w: World, k: nat, f: nat)
    requires k <= f <= |shards| && (f < |shards| ==> w.createTable(f).Fails?)
  {
    && s'.cache == Cache(s.cache.dbs + {db}, s.cache.shards + Named(shards[k..f]))
    && s'.physical.dbs == s.physical.dbs + {db}
    && s'.physical.tables == s.physical.tables + Named(shards[k..f])
                             + if f < |shards| && w.createTable(f).applied then {shards[f]} else {}
  }

  function Named(shards: seq<string>): set<string> {
    set name | name in shards
  }

  lemma NamedFirst(shards: seq<string>, k: nat, f: nat)
    requires k < f <= |shards|
    ensures Named(shards[k..f]) == {shards[k]} + Named(shards[k + 1..f])
  {
    assert shards[k..f] == [shards[k]] + shards[k + 1..f];
  }

  /** The loop from table number `k` on. */
  lemma {:induction false} PrewarmFrom(s: Shared, db: string, shards: seq<string>, k: nat, w: World)
    requires k <= |shards| && db in s.physical.dbs && db in s.cache.dbs
    ensures var r, f := Alone(s, 0, Prewarm(db, shards, CreatingTable, k), w), FirstFailure(w, k, |shards|);
            && r.task.stage == Finished(f == |shards| && w.commit.Ok?)
            && r.shared.lock == s.lock && r.shared.tally == s.tally
            && UpToFailure(s, r.shared, db, shards, w, k, f)
    decreases |shards| - k
  {
    var t := Prewarm(db, shards, CreatingTable, k);
    AloneStep(s, 0, t, w);
    if k == |shards| {
      AloneStep(s, 0, At(t, Committing), w);
    } else if w.createTable(k).Fails? {
      AloneStep(StepTask(s, 0, t, w.createTable(k)).shared, 0, At(t, RollingBack), w);
    } else {
      PrewarmFrom(StepTask(s, 0, t, w.createTable(k)).shared, db, shards, k + 1, w);
      NamedFirst(shards, k, FirstFailure(w, k, |shards|));
    }
  }

  lemma PrewarmAlone(s: Shared, db: string, shards: seq<string>, w: World)
    ensures var r := Alone(s, 0, Prewarm(db, shards, Start, 0), w);
            r.task.stage.Finished? && IsPrewarmed(s, r.shared, r.task.stage.ok, db, shards, w)
  {
    var t := Prewarm(db, shards, Start, 0);
    AloneStep(s, 0, t, w);
    AloneStep(s, 0, At(t, Opening), w);
    if w.open.Ok? {
      AloneStep(s, 0, At(t, CreatingDb), w);
      var s1 := StepTask(s, 0, At(t, CreatingDb), w.createDb).shared;
      if w.createDb.Fails? {
        AloneStep(s1, 0, At(t, RollingBack), w);
      } else {
        PrewarmFrom(s1, db, shards, 0, w);
      }
    }
  }

  predicate TakesEffect(o: Outcome) {
    o.Ok? || o.applied
  }

  /** What one call leaves. A cached table is all it needs; a lock that is held makes it wait; otherwise the
      database is created unless it is cached, then the table, and the table is cached exactly when every
      await succeeds. */
  ghost predicate IsEnsured(s: Shared, s': Shared, stage: Stage, db: string, shard: string, w: World) {
    var locked := w.lock.Ok? && w.open.Ok?;
    var createsDb, dbReady := locked && db !in s.cache.dbs, locked && (db in s.cache.dbs || w.createDb.Ok?);
    if shard in s.cache.shards then s' == s && stage == Finished(true)
    else if s.lock.Some? then s' == s && stage == Locking
    else
      && stage.Finished? && s'.lock == None
      && (stage.ok <==> dbReady && db in s'.physical.dbs && w.createTable(0).Ok? && w.commit.Ok?)
      && s'.cache == Cache(s.cache.dbs + (if createsDb && w.createDb.Ok? then {db} else {}),
                           s.cache.shards + (if stage.ok then {shard} else {}))
      && s'.physical.dbs == s.physical.dbs + (if createsDb && TakesEffect(w.createDb) then {db} else {})
      && s'.physical.tables == s.physical.tables
                               + (if dbReady && db in s'.physical.dbs && TakesEffect(w.createTable(0)) then {shard} else {})
  }

  lemma EnsureAlone(s: Shared, self: nat, db: string, shard: string, w: World)
    ensures var r := Alone(s, self, Ensure(db, shard, Start), w); IsEnsured(s, r.shared, r.task.stage, db, shard, w)
  {
    AloneStep(s, self, Ensure(db, shard, Start), w);
    if shard !in s.cache.shards && s.lock.None? && w.lock.Ok? {
      CreatedAlone(s.(lock := Some(self)), self, db, shard, w);
    }
  }

  /** The part under the lock. */
  lemma CreatedAlone(s: Shared, self: nat, db: string, shard: string, w: World)
    requires shard !in s.cache.shards && w.lock.Ok?
    ensures var r := Alone(s, self, Ensure(db, shard, Opening), w);
            IsEnsured(s.(lock := None), r.shared, r.task.stage, db, shard, w)
  {
    var t := Ensure(db, shard, Opening);
    AloneStep(s, self, t, w);
    if w.open.Ok? {
      if db in s.cache.dbs {
        TableAlone(s, self, db, shard, w);
      } else {
        AloneStep(s, self, At(t, CreatingDb), w);
        var s1 := StepTask(s, self, At(t, CreatingDb), w.createDb).shared;
        if w.createDb.Ok? {
          TableAlone(s1, self, db, shard, w);
        } else {
          AloneStep(s1, self, At(t, RollingBack), w);
        }
      }
    }
  }

  lemma TableAlone(s: Shared, self: nat, db: string, shard: string, w: World)
    ensures var r := Alone(s, self, Ensure(db, shard, CreatingTable), w);
            && r.task.stage == Finished(db in s.physical.dbs && w.createTable(0).Ok? && w.commit.Ok?)
            && r.shared.lock == None && r.shared.physical.dbs == s.physical.dbs && r.shared.cache.dbs == s.cache.dbs
            && r.shared.cache.shards == s.cache.shards + (if r.task.stage.ok then {shard} else {})
            && r.shared.physical.tables
               == s.physical.tables + (if db in s.physical.dbs && TakesEffect(w.createTable(0)) then {shard} else {})
  {
    var t := Ensure(db, shard, CreatingTable);
    AloneStep(s, self, t, w);
    var r := StepTask(s, self, t, w.createTable(0));
    AloneStep(r.shared, self, r.task, w);
  }

  /** The process with its caches, and the database behind it. */
  class Process {
    var shared: Shared

    constructor (physical: Physical)
      ensures shared == Shared(physical, Cache({}, {}), None, Tally(multiset{}, multiset{}, multiset{}, multiset{}))
    {
      shared := Shared(physical, Cache({}, {}), None, Tally(multiset{}, multiset{}, multiset{}, multiset{}));
    }

    /** `_ensure_shard_on_conn` and leaving the connection, under the lock. */
    method CreateUnderLock(self: nat, db: string, shard: string, w: World) returns (ok: bool)
      modifies this
      ensures Result(shared, Ensure(db, shard, Finished(ok))) == Alone(old(shared), self, Ensure(db, shard, Opening), w)
    {
      AloneStep(shared, self, Ensure(db, shard, Opening), w);
      if w.open.Fails? {
        shared := shared.(lock := None);
        return false;
      }
      if db !in shared.cache.dbs {
        AloneStep(shared, self, Ensure(db, shard, CreatingDb), w);
        shared := shared.(physical := CreateDb(shared.physical, db, w.createDb));
        if w.createDb.Fails? {
          AloneStep(shared, self, Ensure(db, shard, RollingBack), w);
          shared := shared.(lock := None);
          return false;
        }
        shared := shared.(cache := shared.cache.(dbs := shared.cache.dbs + {db}));
      }
      AloneStep(shared, self, Ensure(db, shard, CreatingTable), w);
      var refused := w.createTable(0).Fails? || db !in shared.physical.dbs;
      shared := shared.(physical := CreateTable(shared.physical, db, shard, w.createTable(0)),
                        tally := CountCreate(shared.tally, shared.physical, db, shard, w.createTable(0)));
      if refused {
        AloneStep(shared, self, Ensure(db, shard, RollingBack), w);
        shared := shared.(lock := None);
        return false;
      }
      AloneStep(shared, self, Ensure(db, shard, Committing), w);
      if w.commit.Fails? {
        shared := shared.(lock := None, tally := shared.tally.(abandoned := shared.tally.abandoned + multiset{shard}));
        return false;
      }
      shared := shared.(lock := None, cache := shared.cache.(shards := shared.cache.shards + {shard}),
                        tally := shared.tally.(completed := shared.tally.completed + multiset{shard}));
      return true;
    }

    /** `ensure_shard`, up to its end or to waiting for the lock that another coroutine holds. When the
        lock is free the second look into the cache follows at once and sees what the first has seen. */
    method EnsureTable(self: nat, db: string, shard: string, w: World) returns (stage: Stage)
      modifies this
      ensures Result(shared, Ensure(db, shard, stage)) == Alone(old(shared), self, Ensure(db, shard, Start), w)
      ensures stage.Locking? || stage.Finished?
      ensures stage.Locking? <==> shard !in old(shared).cache.shards && old(shared).lock.Some?
      ensures IsEnsured(old(shared), shared, stage, db, shard, w)
    {
      EnsureAlone(shared, self, db, shard, w);
      AloneStep(shared, self, Ensure(db, shard, Start), w);
      if shard in shared.cache.shards {
        return Finished(true);
      }
      if shared.lock.Some? {
        return Locking;
      }
      if w.lock.Fails? {
        return Finished(false);
      }
      shared := shared.(lock := Some(self));
      var ok := CreateUnderLock(self, db, shard, w);
      return Finished(ok);
    }

    /** `ensure_current_month_shards`: the tables are created and cached one after the other up to the
        first statement that fails, and it succeeds exactly when none does. */
    method PrewarmTables(db: string, shards: seq<string>, w: World) returns (ok: bool)
      modifies this
      ensures IsPrewarmed(old(shared), shared, ok, db, shards, w)
      ensures Alone(old(shared), 0, Prewarm(db, shards, Start, 0), w).shared == shared
      ensures Alone(old(shared), 0, Prewarm(db, shards, Start, 0), w).task.stage == Finished(ok)
    {
      PrewarmAlone(shared, db, shards, w);
      ok := PrewarmOnConnection(db, shards, w);
    }

    /** The block that holds the connection. */
    method PrewarmOnConnection(db: string, shards: seq<string>, w: World) returns (ok: bool)
      modifies this
      ensures Alone(old(shared), 0, Prewarm(db, shards, Start, 0), w).shared == shared
      ensures Alone(old(shared), 0, Prewarm(db, shards, Start, 0), w).task.stage == Finished(ok)
    {
      AloneStep(shared, 0, Prewarm(db, shards, Start, 0), w);
      AloneStep(shared, 0, Prewarm(db, shards, Opening, 0), w);
      if w.open.Fails? {
        return false;
      }
      AloneStep(shared, 0, Prewarm(db, shards, CreatingDb, 0), w);
      shared := shared.(physical := CreateDb(shared.physical, db, w.createDb));
      if w.createDb.Fails? {
        AloneStep(shared, 0, Prewarm(db, shards, RollingBack, 0), w);
        return false;
      }
      shared := shared.(cache := shared.cache.(dbs := shared.cache.dbs + {db}));
      for next := 0 to |shards|
        invariant Alone(old(shared), 0, Prewarm(db, shards, Start, 0), w)
               == Alone(shared, 0, Prewarm(db, shards, CreatingTable, next), w)
      {
        AloneStep(shared, 0, Prewarm(db, shards, CreatingTable, next), w);
        var refused := w.createTable(next).Fails? || db !in shared.physical.dbs;
        shared := shared.(physical := CreateTable(shared.physical, db, shards[next], w.createTable(next)));
        if refused {
          AloneStep(shared, 0, Prewarm(db, shards, RollingBack, next), w);
          return false;
        }
        shared := shared.(cache := shared.cache.(shards := shared.cache.shards + {shards[next]}));
      }
      AloneStep(shared, 0, Prewarm(db, shards, CreatingTable, |shards|), w);
      AloneStep(shared, 0, Prewarm(db, shards, Committing, |shards|), w);
      return w.commit.Ok?;
    }
  }

  // ---------- what one coroutine keeps ----------

  /** The coroutine is between taking the lock and giving it back. */
  predicate Inside(t: Task) {
    t.Ensure? && (t.stage.Opening? || t.stage.CreatingDb? || t.stage.CreatingTable? || t.stage.Committing?
                  || t.stage.RollingBack?)
  }

  /** What the cache says is there is there. */
  predicate CacheIsTrue(s: Shared) {
    s.cache.shards <= s.physical.tables && s.cache.dbs <= s.physical.dbs
  }

  /** What is known of a coroutine by where it stands. */
  ghost predicate TaskKnows(s: Shared, t: Task) {
    match t
    case Ensure(db, shard, stage) =>
      && (stage.CreatingTable? || stage.Committing? ==> db in s.cache.dbs)
      && (stage.Committing? ==> shard in s.physical.tables)
      && (Inside(t) ==> shard !in s.tally.completed)
      && (stage == Finished(true) ==> shard in s.cache.shards)
    case Prewarm(db, shards, stage, next) =>
      && !stage.Locking? && next <= |shards|
      && (stage.CreatingTable? ==> db in s.cache.dbs)
      && (stage.Committing? || stage == Finished(true) ==> next == |shards|)
      && (forall k :: 0 <= k < next ==> shards[k] in s.cache.shards)
  }

  /** The database and the caches only grow. */
  predicate Grows(s: Shared, s': Shared) {
    && s.cache.shards <= s'.cache.shards && s.cache.dbs <= s'.cache.dbs
    && s.physical.tables <= s'.physical.tables && s.physical.dbs <= s'.physical.dbs
  }

  predicate SameCall(t: Task, t': Task) {
    || (t.Ensure? && t'.Ensure? && t.db == t'.db && t.shard == t'.shard)
    || (t.Prewarm? && t'.Prewarm? && t.db == t'.db && t.shards == t'.shards)
  }

  lemma EnsureKnows(s: Shared, i: nat, t: Task, o: Outcome)
    requires t.Ensure? && TaskKnows(s, t) && CacheIsTrue(s)
    requires t.shard in s.tally.completed ==> t.shard in s.cache.shards
    ensures TaskKnows(StepEnsure(s, i, t, o).shared, StepEnsure(s, i, t, o).task)
  {
  }

  lemma PrewarmKnows(s: Shared, t: Task, o: Outcome)
    requires t.Prewarm? && TaskKnows(s, t)
    ensures TaskKnows(StepPrewarm(s, t, o).shared, StepPrewarm(s, t, o).task)
  {
  }

  lemma StepKnows(s: Shared, i: nat, t: Task, o: Outcome)
    requires TaskKnows(s, t) && CacheIsTrue(s)
    requires forall q :: q in s.tally.completed ==> q in s.cache.shards
    ensures TaskKnows(StepTask(s, i, t, o).shared, StepTask(s, i, t, o).task)
  {
    if t.Ensure? {
      EnsureKnows(s, i, t, o);
    } else {
      PrewarmKnows(s, t, o);
    }
  }

  // ---------- what every step keeps ----------

  /** Exactly the holder of the lock is inside. */
  ghost predicate OneInside(s: State) {
    forall i {:trigger s.tasks[i]} :: 0 <= i < |s.tasks| ==> (Inside(s.tasks[i]) <==> s.shared.lock == Some(i))
  }

  ghost predicate TasksKnow(s: State) {
    forall i :: 0 <= i < |s.tasks| ==> TaskKnows(s.shared, s.tasks[i])
  }

  /** The coroutine that has created its table and is about to leave the connection. */
  function Pending(s: State, q: string): nat {
    if s.shared.lock.Some? && s.shared.lock.value < |s.tasks| && AboutToComplete(s.tasks[s.shared.lock.value], q)
    then 1 else 0
  }

  predicate AboutToComplete(t: Task, q: string) {
    t.Ensure? && t.stage.Committing? && t.shard == q
  }

  /** Every CREATE of a call that was carried out is accounted for, and only one of them entered the
      cache. */
  ghost predicate Accounted(s: State) {
    forall q :: AccountedFor(s, q)
  }

  ghost predicate AccountedFor(s: State, q: string) {
    var tally := s.shared.tally;
    && tally.created[q] == tally.completed[q] + tally.abandoned[q] + tally.unreported[q] + Pending(s, q)
    && tally.completed[q] <= 1
    && (tally.completed[q] == 1 ==> q in s.shared.cache.shards)
  }

  ghost predicate Inv(s: State) {
    CacheIsTrue(s.shared) && OneInside(s) && TasksKnow(s) && Accounted(s)
  }

  /** A process that has just started; any tables may exist already. */
  ghost predicate Initial(s: State) {
    && s.shared.cache == Cache({}, {}) && s.shared.lock == None
    && s.shared.tally == Tally(multiset{}, multiset{}, multiset{}, multiset{})
    && forall i :: 0 <= i < |s.tasks| ==> s.tasks[i].stage.Start? && (s.tasks[i].Prewarm? ==> s.tasks[i].next == 0)
  }

  lemma OneStaysInside(s: State, i: nat, o: Outcome)
    requires i < |s.tasks| && Inv(s)
    ensures OneInside(Step(s, i, o))
  {
  }

  lemma TasksStillKnow(s: State, i: nat, o: Outcome)
    requires i < |s.tasks| && Inv(s)
    ensures TasksKnow(Step(s, i, o))
  {
    var s', t := Step(s, i, o), s.tasks[i];
    forall q | q in s.shared.tally.completed ensures q in s.shared.cache.shards {
      assert AccountedFor(s, q);
    }
    forall j | 0 <= j < |s'.tasks| ensures TaskKnows(s'.shared, s'.tasks[j]) {
      assert TaskKnows(s.shared, s.tasks[j]);
      if j == i {
        StepKnows(s.shared, i, t, o);
      } else {
        assert Inside(s.tasks[j]) <==> s.shared.lock == Some(j);
      }
    }
  }

  lemma PendingAfter(s: State, i: nat, o: Outcome, q: string)
    requires i < |s.tasks| && OneInside(s)
    ensures var s' := Step(s, i, o);
            Pending(s', q) == if s.shared.lock == Some(i) || s'.shared.lock == Some(i)
                              then (if AboutToComplete(s'.tasks[i], q) then 1 else 0)
                              else Pending(s, q)
  {
  }

  lemma StaysAccounted(s: State, i: nat, o: Outcome)
    requires i < |s.tasks| && Inv(s)
    ensures Accounted(Step(s, i, o))
  {
    var t, s' := s.tasks[i], Step(s, i, o);
    assert TaskKnows(s.shared, t);
    forall q ensures AccountedFor(s', q) {
      assert AccountedFor(s, q);
      PendingAfter(s, i, o, q);
    }
  }

  lemma StepKeepsInv(s: State, i: nat, o: Outcome)
    requires Inv(s)
    ensures Inv(Step(s, i, o))
  {
    if i >= |s.tasks| {
      return;
    }
    OneStaysInside(s, i, o);
    TasksStillKnow(s, i, o);
    StaysAccounted(s, i, o);
  }

  // ---------- whole runs ----------

  lemma {:induction false} RunKeepsInv(states: seq<State>, moves: seq<Move<Outcome>>, n: nat)
    requires IsRun(states, moves, Step) && n < |states| && Initial(states[0])
    ensures Inv(states[n])
  {
    if n > 0 {
      RunKeepsInv(states, moves, n - 1);
      StepKeepsInv(states[n - 1], moves[n - 1].task, moves[n - 1].outcome);
    }
  }

  lemma {:induction false} RunGrows(states: seq<State>, moves: seq<Move<Outcome>>, m: nat, n: nat)
    requires IsRun(states, moves, Step) && m <= n < |states|
    ensures Grows(states[m].shared, states[n].shared) && |states[m].tasks| == |states[n].tasks|
    ensures forall i :: 0 <= i < |states[m].tasks| ==> SameCall(states[m].tasks[i], states[n].tasks[i])
  {
    if m < n {
      RunGrows(states, moves, m, n - 1);
      var last, move := states[n - 1], moves[n - 1];
      forall i | 0 <= i < |states[m].tasks| ensures SameCall(states[m].tasks[i], states[n].tasks[i]) {
        assert SameCall(states[m].tasks[i], last.tasks[i]);
      }
    }
  }

  /** At every moment of every run a cached name is the name of a table that exists, a call that
      returned has returned the name of a table that exists, and no table is asked for in a database
      that is not there. */
  lemma CachedTablesExist(states: seq<State>, moves: seq<Move<Outcome>>, n: nat)
    requires IsRun(states, moves, Step) && n < |states| && Initial(states[0])
    ensures var now := states[n];
            && now.shared.cache.shards <= now.shared.physical.tables
            && (forall i :: 0 <= i < |now.tasks| && now.tasks[i].Ensure? && now.tasks[i].stage == Finished(true)
                       ==> now.tasks[i].shard in now.shared.physical.tables)
            && (forall i :: 0 <= i < |now.tasks| && now.tasks[i].stage.CreatingTable?
                       ==> now.tasks[i].db in now.shared.physical.dbs)
  {
    RunKeepsInv(states, moves, n);
    assert forall i :: 0 <= i < |states[n].tasks| ==> TaskKnows(states[n].shared, states[n].tasks[i]);
  }

  lemma PendingIsNotCompleted(s: State, q: string)
    requires Inv(s)
    ensures Pending(s, q) == 1 ==> s.shared.tally.completed[q] == 0
  {
    if Pending(s, q) == 1 {
      assert TaskKnows(s.shared, s.tasks[s.shared.lock.value]);
    }
  }

  /** At most one `ensure_shard` call completes the creation of any one table. The statements that were
      carried out for it are that one, those reported as failed, those whose connection could not be
      left, and the one about to be completed; so without such failures there is at most one. */
  lemma AtMostOneCompletedCreate(states: seq<State>, moves: seq<Move<Outcome>>, n: nat, q: string)
    requires IsRun(states, moves, Step) && n < |states| && Initial(states[0])
    ensures var tally := states[n].shared.tally;
            && tally.completed[q] <= 1
            && tally.created[q] == tally.completed[q] + tally.abandoned[q] + tally.unreported[q] + Pending(states[n], q)
            && (tally.abandoned[q] == 0 && tally.unreported[q] == 0 ==> tally.created[q] <= 1)
  {
    RunKeepsInv(states, moves, n);
    assert AccountedFor(states[n], q);
    PendingIsNotCompleted(states[n], q);
  }

  // ---------- routing and creation together ----------

  /** `ensure_shard(msgkey)` */
  function EnsureShard(msgkey: int, c: Config): Task
    requires c.tableCount > 0
  {
    Ensure(DbName(msgkey, c), QualifiedTable(msgkey, c), Start)
  }

  /** The names of the start-up loop for the month of the key `now`. */
  function MonthTables(now: int, c: Config): seq<string>
    requires c.tableCount > 0
  {
    seq(c.tableCount, k requires 0 <= k => Qualified(DbName(now, c), TableOfIndex(k, c)))
  }

  /** `ensure_current_month_shards()` at the time of the key `now`. */
  function EnsureCurrentMonthShards(now: int, c: Config): Task
    requires c.tableCount > 0
  {
    Prewarm(DbName(now, c), MonthTables(now, c), Start, 0)
  }

  /** The start-up loop prints the name of every table that a key of its month can be routed to. */
  lemma StartupCoversTheMonth(now: int, key: int, c: Config)
    requires c.tableCount > 0
    ensures DbName(key, c) == DbName(now, c) ==> QualifiedTable(key, c) in MonthTables(now, c)
  {
    if DbName(key, c) == DbName(now, c) {
      assert QualifiedTable(key, c) == MonthTables(now, c)[key % c.tableCount];
    }
  }

  /** The loop names no other table: each of its names is where the keys of the month with one
      remainder go. */
  lemma StartupNamesAreRouted(now: int, k: nat, key: int, c: Config)
    requires ValidConfig(c) && k < c.tableCount
    ensures QualifiedTable(key, c) == MonthTables(now, c)[k]
       <==> c.month(TimestampMs(key)) == c.month(TimestampMs(now)) && key % c.tableCount == k
  {
    SameDb(key, now, c);
    SameTable(key % c.tableCount, k, c);
    QualifiedIsInjective(DbName(key, c), TableName(key, c), DbName(now, c), TableOfIndex(k, c));
  }

  /** Once `ensure_current_month_shards` has finished, after `m` moves, every later call of
      `ensure_shard` for a key of that month finds its table in the cache: it ends in its first step,
      changing nothing else. */
  lemma StartupMonthNeedsNoDdl(states: seq<State>, moves: seq<Move<Outcome>>, m: nat, n: nat, c: Config,
                               p: nat, now: int, i: nat, key: int, o: Outcome)
    requires c.tableCount > 0 && IsRun(states, moves, Step) && m <= n < |states| && Initial(states[0])
    requires p < |states[0].tasks| && states[0].tasks[p] == EnsureCurrentMonthShards(now, c)
    requires i < |states[0].tasks| && states[0].tasks[i] == EnsureShard(key, c) && DbName(key, c) == DbName(now, c)
    requires p < |states[m].tasks| && states[m].tasks[p].stage == Finished(true)
    requires i < |states[n].tasks| && states[n].tasks[i].stage.Start?
    ensures Step(states[n], i, o)
         == State(states[n].shared, states[n].tasks[i := At(states[n].tasks[i], Finished(true))])
  {
    RunKeepsInv(states, moves, m);
    RunGrows(states, moves, 0, m);
    RunGrows(states, moves, 0, n);
    RunGrows(states, moves, m, n);
    var done, call := states[m].tasks[p], states[n].tasks[i];
    assert SameCall(states[0].tasks[p], done) && SameCall(states[0].tasks[i], call);
    assert TaskKnows(states[m].shared, done);
    StartupCoversTheMonth(now, key, c);
    var k :| 0 <= k < |done.shards| && done.shards[k] == call.shard;
  }

  // ---------- a table created twice ----------

  /** A call that finds the lock free creates its table; then leaving the connection fails or not. */
  lemma CallCreates(states: seq<State>, moves: seq<Move<Outcome>>, i: nat, end: Outcome)
    returns (longer: seq<State>, more: seq<Move<Outcome>>)
    requires IsRun(states, moves, Step) && i < |states[|moves|].tasks|
    requires var s := states[|moves|];
             && s.shared.lock == None && s.tasks[i].Ensure? && s.tasks[i].stage.Start?
             && s.tasks[i].shard !in s.shared.cache.shards && CacheIsTrue(s.shared)
    ensures IsRun(longer, more, Step) && longer[0] == states[0]
    ensures var s, now := states[|moves|], longer[|more|];
            && now.shared.lock == None && (end.Fails? ==> now.shared.cache.shards == s.shared.cache.shards)
            && now.shared.tally.created == s.shared.tally.created + multiset{s.tasks[i].shard}
            && |now.tasks| == |s.tasks| && (forall j :: 0 <= j < |s.tasks| && j != i ==> now.tasks[j] == s.tasks[j])
  {
    longer, more := Extend(states, moves, Step, i, Ok);
    longer, more := Extend(longer, more, Step, i, Ok);
    longer, more := Extend(longer, more, Step, i, Ok);
    if longer[|more|].tasks[i].stage.CreatingDb? {
      longer, more := Extend(longer, more, Step, i, Ok);
    }
    longer, more := Extend(longer, more, Step, i, Ok);
    longer, more := Extend(longer, more, Step, i, end);
  }

  /** Two calls for one table whose first cannot leave its connection both create the table. */
  lemma CreatedTwice(db: string, q: string)
    ensures exists states: seq<State>, moves: seq<Move<Outcome>> :: IsRun(states, moves, Step) && Initial(states[0])
                                 && states[|moves|].shared.tally.created[q] == 2
  {
    var none: multiset<string> := multiset{};
    var shared := Shared(Physical({}, {}), Cache({}, {}), None, Tally(none, none, none, none));
    var states, moves := [State(shared, [Ensure(db, q, Start), Ensure(db, q, Start)])], [];
    states, moves := CallCreates(states, moves, 0, Fails(true));
    RunKeepsInv(states, moves, |moves|);
    states, moves := CallCreates(states, moves, 1, Ok);
  }

  // ---------- the start-up loop gets through ----------

  /** The table that comes next can always be created. */
  lemma {:induction false} LoopCanFinish(states: seq<State>, moves: seq<Move<Outcome>>, i: nat)
    returns (longer: seq<State>, more: seq<Move<Outcome>>)
    requires IsRun(states, moves, Step) && i < |states[|moves|].tasks|
    requires var s := states[|moves|];
             && s.tasks[i].Prewarm? && s.tasks[i].stage.CreatingTable? && s.tasks[i].next <= |s.tasks[i].shards|
             && s.tasks[i].db in s.shared.physical.dbs
    ensures IsRun(longer, more, Step) && longer[0] == states[0] && i < |longer[|more|].tasks|
    ensures longer[|more|].tasks[i].stage == Finished(true)
    decreases |states[|moves|].tasks[i].shards| - states[|moves|].tasks[i].next
  {
    var t := states[|moves|].tasks[i];
    longer, more := Extend(states, moves, Step, i, Ok);
    if t.next < |t.shards| {
      longer, more := LoopCanFinish(longer, more, i);
    } else {
      longer, more := Extend(longer, more, Step, i, Ok);
    }
  }

  /** From every state of a process that has just started there is a run in which the start-up loop ends
      with success. */
  lemma StartupCanFinish(s: State, i: nat) returns (states: seq<State>, moves: seq<Move<Outcome>>)
    requires Initial(s) && i < |s.tasks| && s.tasks[i].Prewarm?
    ensures IsRun(states, moves, Step) && states[0] == s && i < |states[|moves|].tasks|
    ensures states[|moves|].tasks[i].stage == Finished(true)
  {
    states, moves := [s], [];
    states, moves := Extend(states, moves, Step, i, Ok);
    states, moves := Extend(states, moves, Step, i, Ok);
    states, moves := Extend(states, moves, Step, i, Ok);
    states, moves := LoopCanFinish(states, moves, i);
  }
}
