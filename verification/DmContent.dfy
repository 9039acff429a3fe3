/** Storing message bodies: the consumer `app/consumers/dm.py` and the dead-letter job of
    `app/services/message/dm/dm.py`, with crashes and redeliveries at every await. */
module DmContent {
  import opened Wrappers
  import opened Runs
  import opened Sharding

  /** Where a handler stands; each name is the await it is about to come back from. */
  datatype Stage =
    | Ensuring
    | Writing
    | Marking
    | Burying
    | RollingBack
    | Acking
    | Finished

  datatype Task =
    /** `handle_dm_content` for the message of one key. */
    | Handler(msgkey: int, stage: Stage)
    /** One row of `retry_dead_letters`. */
    | Retry(msgkey: int, stage: Stage)

  /** How an await ends: normally, with an error, or with the end of the process or task. In the last
      two cases the statement may have been carried out all the same. */
  datatype Outcome = Ok | Fails(applied: bool) | Crashes(applied: bool)

  /** `letters` holds the dead letters by key, with their `resolved` flag; `lost` records the keys whose
      dead letter could not be committed although there was none. */
  datatype Shared = Shared(store: Store, ready: set<int>, letters: map<int, bool>, acked: set<int>, lost: set<int>)

  /** The fixed surroundings: the routing, and the body that the message of a key carries. */
  datatype Setting = Setting(config: Config, body: int -> string)

  ghost predicate ValidSetting(e: Setting) {
    e.config.tableCount > 0
  }

  datatype Result = Result(shared: Shared, task: Task)

  predicate Applies(o: Outcome) {
    o.Ok? || o.applied
  }

  function At(t: Task, stage: Stage): Task {
    if t.Handler? then Handler(t.msgkey, stage) else Retry(t.msgkey, stage)
  }

  /** `ensure_shard` */
  function AddTable(store: Store, table: string): Store {
    if table in store then store else store[table := map[]]
  }

  /** `INSERT ... ON DUPLICATE KEY UPDATE` */
  function Put(store: Store, table: string, msgkey: int, text: string): Store {
    if table in store then store[table := store[table][msgkey := Some(text)]] else store
  }

  /** One step of the handler. */
  function StepHandler(s: Shared, t: Task, o: Outcome, e: Setting): Result
    requires ValidSetting(e) && t.Handler?
  {
    var k := t.msgkey;
    var table := QualifiedTable(k, e.config);
    match t.stage
    case Ensuring =>
      Result(if Applies(o) then s.(store := AddTable(s.store, table)) else s,
             At(t, if o.Ok? then Writing else Finished))
    case Writing =>
      Result(if Applies(o) then s.(store := Put(s.store, table, k, e.body(k))) else s,
             At(t, if o.Crashes? then Finished else if o.Ok? && table in s.store then Marking else Burying))
    case Marking =>
      Result(if Applies(o) then s.(ready := s.ready + {k}) else s, At(t, if o.Ok? then Acking else Finished))
    case Burying =>
      // The key is unique: with a letter already there the commit is an error.
      var next := if o.Crashes? then Finished else if o.Ok? && k !in s.letters then Acking else RollingBack;
      Result(if k in s.letters then s
             else if Applies(o) then s.(letters := s.letters[k := false])
             else s.(lost := s.lost + {k}),
             At(t, next))
    case RollingBack => Result(s, At(t, if o.Ok? then Acking else Finished))
    case Acking => Result(if Applies(o) then s.(acked := s.acked + {k}) else s, At(t, Finished))
    case Finished => Result(s, t)
  }

  /** One step of the dead-letter job for one row; marking the message and resolving the letter are
      one commit. */
  function StepRetry(s: Shared, t: Task, o: Outcome, e: Setting): Result
    requires ValidSetting(e) && t.Retry?
  {
    var k := t.msgkey;
    var table := QualifiedTable(k, e.config);
    match t.stage
    case Ensuring =>
      if k !in s.letters || s.letters[k] then Result(s, At(t, Finished))
      else Result(if Applies(o) then s.(store := AddTable(s.store, table)) else s,
                  At(t, if o.Ok? then Writing else Finished))
    case Writing =>
      Result(if Applies(o) then s.(store := Put(s.store, table, k, e.body(k))) else s,
             At(t, if o.Ok? && table in s.store then Marking else Finished))
    case Marking =>
      Result(if Applies(o) && k in s.letters
             then s.(ready := s.ready + {k}, letters := s.letters[k := true]) else s, At(t, Finished))
    case _ => Result(s, At(t, Finished))
  }

  function StepTask(s: Shared, t: Task, o: Outcome, e: Setting): Result
    requires ValidSetting(e)
  {
    if t.Handler? then StepHandler(s, t, o, e) else StepRetry(s, t, o, e)
  }

  // ---------- one handler run, in the handler's own form ----------

  /** How the awaits of one run end. */
  datatype World = World(ensure: Outcome, write: Outcome, mark: Outcome, bury: Outcome, rollback: Outcome, ack: Outcome)

  function OutcomeAt(w: World, stage: Stage): Outcome {
    match stage
    case Ensuring => w.ensure
    case Writing => w.write
    case Marking => w.mark
    case Burying => w.bury
    case RollingBack => w.rollback
    case _ => w.ack
  }

  function Rank(stage: Stage): nat {
    match stage
    case Ensuring => 6
    case Writing => 5
    case Marking => 4
    case Burying => 3
    case RollingBack => 2
    case Acking => 1
    case Finished => 0
  }

  /** The steps of one handler with nothing in between. */
  function Alone(s: Shared, t: Task, w: World, e: Setting): Shared
    requires ValidSetting(e) && t.Handler?
    decreases Rank(t.stage)
  {
    if t.stage.Finished? then s
    else
      var r := StepHandler(s, t, OutcomeAt(w, t.stage), e);
      Alone(r.shared, r.task, w, e)
  }

  lemma AloneStep(s: Shared, t: Task, w: World, e: Setting)
    requires ValidSetting(e) && t.Handler?
    ensures var r := StepHandler(s, t, OutcomeAt(w, t.stage), e);
            Alone(s, t, w, e) == Alone(r.shared, r.task, w, e)
  {
  }

  /** The effect of `DmContentService.write`. */
  function Written(s: Shared, k: int, w: World, e: Setting): Shared
    requires ValidSetting(e)
  {
    var table := QualifiedTable(k, e.config);
    var s1 := if Applies(w.ensure) then s.(store := AddTable(s.store, table)) else s;
    if w.ensure.Ok? && Applies(w.write) then s1.(store := Put(s1.store, table, k, e.body(k))) else s1
  }

  /** The database and the broker, as one handler run sees them. */
  class Services {
    var state: Shared

    constructor (state: Shared)
      ensures this.state == state
    {
      this.state := state;
    }

    /** `DmContentService.write`: errors of the insert are reported, those of creating the table escape. */
    method Write(k: int, w: World, e: Setting) returns (ok: bool, escaped: bool)
      requires ValidSetting(e)
      modifies this
      ensures state == Written(old(state), k, w, e)
      ensures escaped <==> !w.ensure.Ok? || w.write.Crashes?
      ensures ok <==> w.ensure.Ok? && w.write.Ok?
    {
      var table := QualifiedTable(k, e.config);
      if Applies(w.ensure) {
        state := state.(store := AddTable(state.store, table));
      }
      if !w.ensure.Ok? {
        return false, true;
      }
      if Applies(w.write) {
        state := state.(store := Put(state.store, table, k, e.body(k)));
      }
      return w.write.Ok?, w.write.Crashes?;
    }

    /** Writes the dead letter; true means the handler goes on to the acknowledgement. */
    method Bury(k: int, w: World) returns (goesOn: bool)
      modifies this
      ensures state == if k in old(state).letters then old(state)
                       else if Applies(w.bury) then old(state).(letters := old(state).letters[k := false])
                       else old(state).(lost := old(state).lost + {k})
      ensures goesOn <==> !w.bury.Crashes? && ((w.bury.Ok? && k !in old(state).letters) || w.rollback.Ok?)
    {
      var committed := w.bury.Ok? && k !in state.letters;
      if k !in state.letters {
        if Applies(w.bury) {
          state := state.(letters := state.letters[k := false]);
        } else {
          state := state.(lost := state.lost + {k});
        }
      }
      if w.bury.Crashes? {
        return false;
      }
      goesOn := committed || w.rollback.Ok?;
    }

    /** `handle_dm_content` does what its steps do one after the other. */
    method Handle(k: int, w: World, e: Setting)
      requires ValidSetting(e)
      modifies this
      ensures state == Alone(old(state), Handler(k, Ensuring), w, e)
    {
      AfterWrite(state, k, w, e);
      var ok, escaped := Write(k, w, e);
      if escaped {
        return;
      }
      AfterBurying(state, k, w, e);
      if ok {
        AloneStep(state, Handler(k, Marking), w, e);
        if Applies(w.mark) {
          state := state.(ready := state.ready + {k});
        }
        if !w.mark.Ok? {
          return;
        }
      } else {
        var goesOn := Bury(k, w);
        if !goesOn {
          return;
        }
      }
      AloneStep(state, Handler(k, Acking), w, e);
      if Applies(w.ack) {
        state := state.(acked := state.acked + {k});
      }
    }
  }

  lemma AfterWrite(s: Shared, k: int, w: World, e: Setting)
    requires ValidSetting(e)
    ensures var next := if !w.ensure.Ok? || w.write.Crashes? then Finished
                        else if w.write.Ok? then Marking else Burying;
            Alone(s, Handler(k, Ensuring), w, e) == Alone(Written(s, k, w, e), Handler(k, next), w, e)
  {
    AloneStep(s, Handler(k, Ensuring), w, e);
    if w.ensure.Ok? {
      AloneStep(StepHandler(s, Handler(k, Ensuring), w.ensure, e).shared, Handler(k, Writing), w, e);
    }
  }

  lemma AfterBurying(s: Shared, k: int, w: World, e: Setting)
    requires ValidSetting(e)
    ensures var r := StepHandler(s, Handler(k, Burying), w.bury, e);
            Alone(s, Handler(k, Burying), w, e)
            == if r.task.stage.RollingBack? && !w.rollback.Ok? then r.shared
               else if r.task.stage.RollingBack? then Alone(r.shared, Handler(k, Acking), w, e)
               else Alone(r.shared, r.task, w, e)
  {
    var r := StepHandler(s, Handler(k, Burying), w.bury, e);
    AloneStep(s, Handler(k, Burying), w, e);
    AloneStep(r.shared, r.task, w, e);
  }

  // ---------- what every step keeps ----------

  /** Reading the key alone gives the body of its message. */
  predicate Stored(s: Shared, k: int, e: Setting)
    requires ValidSetting(e)
  {
    Lookup(k, s.store, e.config) == Some(e.body(k))
  }

  predicate Delivered(s: Shared, k: int, e: Setting)
    requires ValidSetting(e)
  {
    Stored(s, k, e) && k in s.ready
  }

  /** The body is readable and marked so, or there is a dead letter, or a dead letter was lost. */
  predicate Safe(s: Shared, k: int, e: Setting)
    requires ValidSetting(e)
  {
    Delivered(s, k, e) || k in s.letters || k in s.lost
  }

  predicate TaskKnows(s: Shared, t: Task, e: Setting)
    requires ValidSetting(e)
  {
    && (t.stage.Writing? ==> QualifiedTable(t.msgkey, e.config) in s.store)
    && (t.stage.Marking? ==> Stored(s, t.msgkey, e))
    && (t.Retry? && (t.stage.Writing? || t.stage.Marking?) ==> t.msgkey in s.letters)
    && (t.Handler? && t.stage.RollingBack? ==> t.msgkey in s.letters || t.msgkey in s.lost)
    && (t.Handler? && t.stage.Acking? ==> Safe(s, t.msgkey, e))
  }

  /** A message is marked ready only when its body can be read, a resolved letter means a delivered
      message, and an acknowledged message is safe. */
  ghost predicate Sound(s: Shared, e: Setting)
    requires ValidSetting(e)
  {
    && (forall k :: k in s.ready ==> Stored(s, k, e))
    && (forall k :: k in s.letters && s.letters[k] ==> Delivered(s, k, e))
    && (forall k :: k in s.acked ==> Safe(s, k, e))
  }

  /** Nothing that was achieved is undone. */
  ghost predicate Later(s: Shared, s': Shared, e: Setting)
    requires ValidSetting(e)
  {
    && s.store.Keys <= s'.store.Keys
    && s.ready <= s'.ready && s.letters.Keys <= s'.letters.Keys && s.lost <= s'.lost && s.acked <= s'.acked
    && forall k :: Stored(s, k, e) ==> Stored(s', k, e)
  }

  /** Creating a table or writing a body leaves every other body readable. */
  lemma StoreKept(store: Store, table: string, k: int, text: string, j: int, c: Config)
    requires c.tableCount > 0
    ensures Lookup(j, store, c).Some? ==> Lookup(j, AddTable(store, table), c) == Lookup(j, store, c)
    ensures j != k ==> Lookup(j, Put(store, table, k, text), c) == Lookup(j, store, c)
    ensures table in store && table == QualifiedTable(k, c) ==> Lookup(k, Put(store, table, k, text), c) == Some(text)
  {
  }

  lemma TablesGrow(s: Shared, t: Task, o: Outcome, e: Setting)
    requires ValidSetting(e)
    ensures var s' := StepTask(s, t, o, e).shared;
            && s.store.Keys <= s'.store.Keys && s.ready <= s'.ready && s.letters.Keys <= s'.letters.Keys
            && s.lost <= s'.lost && s.acked <= s'.acked
  {
  }

  lemma StepIsLater(s: Shared, t: Task, o: Outcome, e: Setting)
    requires ValidSetting(e)
    ensures Later(s, StepTask(s, t, o, e).shared, e)
  {
    TablesGrow(s, t, o, e);
    assert forall j :: Stored(s, j, e) ==> Stored(StepTask(s, t, o, e).shared, j, e);
  }

  lemma StepIsSound(s: Shared, t: Task, o: Outcome, e: Setting)
    requires ValidSetting(e) && Sound(s, e) && TaskKnows(s, t, e)
    ensures Sound(StepTask(s, t, o, e).shared, e)
  {
    StepIsLater(s, t, o, e);
  }

  datatype State = State(shared: Shared, tasks: seq<Task>)

  /** Task `i` makes its next step. */
  function Step(s: State, i: nat, o: Outcome, e: Setting): State
    requires ValidSetting(e)
  {
    if i < |s.tasks| then
      var r := StepTask(s.shared, s.tasks[i], o, e);
      State(r.shared, s.tasks[i := r.task])
    else s
  }

  function StepIn(e: Setting): (State, nat, Outcome) -> State
    requires ValidSetting(e)
  {
    (s: State, i: nat, o: Outcome) => Step(s, i, o, e)
  }

  ghost predicate Inv(s: State, e: Setting)
    requires ValidSetting(e)
  {
    Sound(s.shared, e) && forall i :: 0 <= i < |s.tasks| ==> TaskKnows(s.shared, s.tasks[i], e)
  }

  /** Nothing is marked, buried or acknowledged yet; every delivery and redelivery of every message and
      every attempt of the job is one of the tasks. */
  ghost predicate Initial(s: State) {
    && s.shared.ready == {} && s.shared.letters == map[] && s.shared.acked == {} && s.shared.lost == {}
    && forall i :: 0 <= i < |s.tasks| ==> s.tasks[i].stage.Ensuring?
  }

  lemma StepKeepsInv(s: State, i: nat, o: Outcome, e: Setting)
    requires ValidSetting(e) && Inv(s, e)
    ensures Inv(Step(s, i, o, e), e)
  {
    if i >= |s.tasks| {
      return;
    }
    var t, s' := s.tasks[i], Step(s, i, o, e);
    StepIsLater(s.shared, t, o, e);
    StepIsSound(s.shared, t, o, e);
    assert forall j :: 0 <= j < |s'.tasks| ==> TaskKnows(s'.shared, s'.tasks[j], e);
  }

  // ---------- whole runs ----------

  lemma {:induction false} RunKeepsInv(states: seq<State>, moves: seq<Move<Outcome>>, n: nat, e: Setting)
    requires ValidSetting(e) && IsRun(states, moves, StepIn(e)) && n < |states| && Initial(states[0])
    ensures Inv(states[n], e)
  {
    if n > 0 {
      RunKeepsInv(states, moves, n - 1, e);
      StepKeepsInv(states[n - 1], moves[n - 1].task, moves[n - 1].outcome, e);
    }
  }

  /** With any crashes and redeliveries, an acknowledged message can be read from its own table and is
      marked ready, or has a dead letter, or its dead letter failed to commit with none there. A
      resolved letter always means a delivered message. */
  lemma AcknowledgedIsSafe(states: seq<State>, moves: seq<Move<Outcome>>, n: nat, k: int, e: Setting)
    requires ValidSetting(e) && IsRun(states, moves, StepIn(e)) && n < |states| && Initial(states[0])
    ensures var s := states[n].shared;
            && (k in s.acked ==> Delivered(s, k, e) || k in s.letters || k in s.lost)
            && (k in s.letters && s.letters[k] ==> Delivered(s, k, e))
            && (k in s.ready ==> Lookup(k, s.store, e.config) == Some(e.body(k)))
  {
    RunKeepsInv(states, moves, n, e);
  }

  // ---------- when a body is lost ----------

  /** How the awaits of task `i` ended, one after the other, among the first `n` moves: nothing but what the
      outside world decided. */
  function OutcomesOf(moves: seq<Move<Outcome>>, n: nat, i: nat): seq<Outcome>
    requires n <= |moves|
  {
    if n == 0 then []
    else OutcomesOf(moves, n - 1, i) + if moves[n - 1].task == i then [moves[n - 1].outcome] else []
  }

  /** The delivery marks the message as readable, or dead-letters it: the table is there, the insert is
      decided one way or the other, and the commit behind it takes effect. */
  predicate TakesEffect(os: seq<Outcome>) {
    |os| > 2 && os[0].Ok? && !os[1].Crashes? && Applies(os[2])
  }

  /** The delivery acknowledges what it has lost: the insert is reported as failed, the dead letter fails
      without taking effect, and the rollback and the acknowledgement go through. */
  predicate Loses(os: seq<Outcome>) {
    |os| > 4 && os[0].Ok? && os[1].Fails? && os[2] == Fails(false) && os[3].Ok? && Applies(os[4])
  }

  /** Task `i` is a delivery of the message of `k`. */
  predicate Delivers(tasks: seq<Task>, i: nat, k: int) {
    i < |tasks| && tasks[i].Handler? && tasks[i].msgkey == k
  }

  /** Where a delivery stands after these outcomes. A dead letter that is reported as written is one way to
      the acknowledgement, and one to the rollback when there was a letter already. */
  predicate Fits(stage: Stage, os: seq<Outcome>) {
    if |os| == 0 then stage.Ensuring?
    else if !os[0].Ok? then stage.Finished?
    else if |os| == 1 then stage.Writing?
    else if os[1].Crashes? then stage.Finished?
    else if |os| == 2 then if os[1].Ok? then stage.Marking? else stage.Burying?
    else if os[1].Ok? then stage == if os[2].Ok? && |os| == 3 then Acking else Finished
    else if os[2].Crashes? then stage.Finished?
    else if os[2].Ok? then stage.Acking? || stage.RollingBack? || stage.Finished?
    else if |os| == 3 then stage.RollingBack?
    else stage == if os[3].Ok? && |os| == 4 then Acking else Finished
  }

  predicate Reached(s: Shared, k: int) {
    k in s.ready || k in s.letters
  }

  /** `more` is `os` with one outcome behind it. */
  ghost predicate Extends(more: seq<Outcome>, os: seq<Outcome>, o: Outcome) {
    |more| == |os| + 1 && more[|os|] == o && forall j :: 0 <= j < |os| ==> more[j] == os[j]
  }

  lemma DeliveryGoesOn(s: Shared, t: Task, o: Outcome, e: Setting, os: seq<Outcome>, more: seq<Outcome>)
    requires ValidSetting(e) && t.Handler? && TaskKnows(s, t, e) && Fits(t.stage, os) && Extends(more, os, o)
    ensures var r, k := StepTask(s, t, o, e), t.msgkey;
            && Fits(r.task.stage, more)
            && (Reached(r.shared, k) ==> Reached(s, k) || TakesEffect(more))
            && (TakesEffect(more) ==> Reached(r.shared, k) || TakesEffect(os))
            && (k in r.shared.acked ==> k in s.acked || TakesEffect(more) || Loses(more))
            && (Loses(more) ==> k in r.shared.acked || Loses(os))
  {
  }

  /** A step of the dead-letter job, or of a delivery of another message, reaches nothing new. */
  lemma OthersReachNothing(s: Shared, t: Task, o: Outcome, k: int, e: Setting)
    requires ValidSetting(e) && TaskKnows(s, t, e) && (t.Retry? || t.msgkey != k)
    ensures var s' := StepTask(s, t, o, e).shared;
            (Reached(s', k) <==> Reached(s, k)) && (k in s'.acked <==> k in s.acked)
  {
  }

  predicate SameCall(t: Task, t': Task) {
    t.msgkey == t'.msgkey && (t.Handler? <==> t'.Handler?)
  }

  /** Every delivery stands where its own outcomes have brought it. */
  ghost predicate Traced(first: seq<Task>, tasks: seq<Task>, moves: seq<Move<Outcome>>, n: nat)
    requires n <= |moves|
  {
    && |tasks| == |first|
    && forall i {:trigger first[i]} :: 0 <= i < |first| ==>
         SameCall(first[i], tasks[i]) && (first[i].Handler? ==> Fits(tasks[i].stage, OutcomesOf(moves, n, i)))
  }

  /** Some delivery of the message of `k` takes effect. */
  ghost predicate SomeTakesEffect(first: seq<Task>, moves: seq<Move<Outcome>>, n: nat, k: int)
    requires n <= |moves|
  {
    exists i: nat :: Delivers(first, i, k) && TakesEffect(OutcomesOf(moves, n, i))
  }

  /** Some delivery of the message of `k` acknowledges what it has lost. */
  ghost predicate SomeLoses(first: seq<Task>, moves: seq<Move<Outcome>>, n: nat, k: int)
    requires n <= |moves|
  {
    exists i: nat :: Delivers(first, i, k) && Loses(OutcomesOf(moves, n, i))
  }

  /** What the tables say is what the outcomes of the deliveries tell. */
  ghost predicate Told(first: seq<Task>, s: Shared, moves: seq<Move<Outcome>>, n: nat, k: int)
    requires n <= |moves|
  {
    && (Reached(s, k) <==> SomeTakesEffect(first, moves, n, k))
    && (k in s.acked ==> SomeTakesEffect(first, moves, n, k) || SomeLoses(first, moves, n, k))
    && (SomeLoses(first, moves, n, k) ==> k in s.acked)
  }

  lemma OneOutcomeMore(moves: seq<Move<Outcome>>, n: nat, i: nat)
    requires 0 < n <= |moves|
    ensures i != moves[n - 1].task ==> OutcomesOf(moves, n, i) == OutcomesOf(moves, n - 1, i)
    ensures i == moves[n - 1].task ==> Extends(OutcomesOf(moves, n, i), OutcomesOf(moves, n - 1, i), moves[n - 1].outcome)
  {
  }

  /** Only the delivery that moves can change what some delivery has come to. */
  lemma SomeAfter(first: seq<Task>, moves: seq<Move<Outcome>>, n: nat, k: int)
    requires 0 < n <= |moves|
    ensures var i := moves[n - 1].task;
            && (SomeTakesEffect(first, moves, n, k)
                <==> SomeTakesEffect(first, moves, n - 1, k)
                     || (Delivers(first, i, k) && TakesEffect(OutcomesOf(moves, n, i))))
            && (SomeLoses(first, moves, n, k)
                <==> SomeLoses(first, moves, n - 1, k) || (Delivers(first, i, k) && Loses(OutcomesOf(moves, n, i))))
  {
    forall i: nat
      ensures TakesEffect(OutcomesOf(moves, n - 1, i)) ==> TakesEffect(OutcomesOf(moves, n, i))
      ensures Loses(OutcomesOf(moves, n - 1, i)) ==> Loses(OutcomesOf(moves, n, i))
      ensures i != moves[n - 1].task ==> OutcomesOf(moves, n, i) == OutcomesOf(moves, n - 1, i)
    {
      OneOutcomeMore(moves, n, i);
    }
  }

  lemma MoveIsTold(first: seq<Task>, s: State, moves: seq<Move<Outcome>>, n: nat, k: int, e: Setting)
    requires ValidSetting(e) && 0 < n <= |moves| && Inv(s, e)
    requires Traced(first, s.tasks, moves, n - 1) && Told(first, s.shared, moves, n - 1, k)
    ensures var s' := Step(s, moves[n - 1].task, moves[n - 1].outcome, e);
            Traced(first, s'.tasks, moves, n) && Told(first, s'.shared, moves, n, k)
  {
    var i, o := moves[n - 1].task, moves[n - 1].outcome;
    SomeAfter(first, moves, n, k);
    forall j: nat ensures j != i ==> OutcomesOf(moves, n, j) == OutcomesOf(moves, n - 1, j) {
      OneOutcomeMore(moves, n, j);
    }
    if i < |first| {
      var t := s.tasks[i];
      assert SameCall(first[i], t);
      if t.Handler? {
        OneOutcomeMore(moves, n, i);
        DeliveryGoesOn(s.shared, t, o, e, OutcomesOf(moves, n - 1, i), OutcomesOf(moves, n, i));
      }
      if t.Retry? || t.msgkey != k {
        OthersReachNothing(s.shared, t, o, k, e);
      }
    }
  }

  lemma {:induction false} RunIsTold(states: seq<State>, moves: seq<Move<Outcome>>, n: nat, k: int, e: Setting)
    requires ValidSetting(e) && IsRun(states, moves, StepIn(e)) && n < |states| && Initial(states[0])
    ensures Traced(states[0].tasks, states[n].tasks, moves, n) && Told(states[0].tasks, states[n].shared, moves, n, k)
  {
    if n > 0 {
      RunIsTold(states, moves, n - 1, k, e);
      RunKeepsInv(states, moves, n - 1, e);
      assert states[n] == Step(states[n - 1], moves[n - 1].task, moves[n - 1].outcome, e);
      MoveIsTold(states[0].tasks, states[n - 1], moves, n, k, e);
    }
  }

  /** Over every run, with any crashes, redeliveries and attempts of the job in between: a message is
      acknowledged and yet neither marked readable nor dead-lettered exactly when the outcomes of one of its
      deliveries lose it and those of none take effect; and then a dead letter failed with none there. */
  lemma WhenAMessageIsLost(states: seq<State>, moves: seq<Move<Outcome>>, n: nat, k: int, e: Setting)
    requires ValidSetting(e) && IsRun(states, moves, StepIn(e)) && n < |states| && Initial(states[0])
    ensures var s, first := states[n].shared, states[0].tasks;
            && (k in s.acked && !Delivered(s, k, e) && k !in s.letters
                <==> SomeLoses(first, moves, n, k) && !SomeTakesEffect(first, moves, n, k))
            && (SomeLoses(first, moves, n, k) && !SomeTakesEffect(first, moves, n, k) ==> k in s.lost)
  {
    RunIsTold(states, moves, n, k, e);
    RunKeepsInv(states, moves, n, e);
  }

  /** One delivery of a message of which nothing is known yet ends acknowledged with neither a message
      marked ready nor a dead letter exactly when the insert is reported as failed and the dead letter
      fails without taking effect, while the rollback and the acknowledgement go through; and then the
      body cannot be read unless the insert took effect after all. */
  lemma WhenABodyIsLost(s: Shared, k: int, w: World, e: Setting)
    requires ValidSetting(e) && k !in s.letters && k !in s.acked && k !in s.ready && !Stored(s, k, e)
    ensures var end := Alone(s, Handler(k, Ensuring), w, e);
            && (k in end.acked && !Delivered(end, k, e) && k !in end.letters
                <==> w.ensure.Ok? && w.write.Fails? && w.bury == Fails(false) && w.rollback.Ok? && Applies(w.ack))
            && (k in end.acked && !Delivered(end, k, e) && k !in end.letters
                ==> (Stored(end, k, e) <==> w.write.applied))
  {
    var table := QualifiedTable(k, e.config);
    StoreKept(s.store, table, k, e.body(k), k, e.config);
    StoreKept(AddTable(s.store, table), table, k, e.body(k), k, e.config);
    assert Lookup(k, AddTable(s.store, table), e.config) == Lookup(k, s.store, e.config);
    HandlerPath(s, k, w, e);
  }

  /** The handler written out. */
  lemma HandlerPath(s: Shared, k: int, w: World, e: Setting)
    requires ValidSetting(e)
    ensures var table := QualifiedTable(k, e.config);
            var end := Alone(s, Handler(k, Ensuring), w, e);
            var store1 := if Applies(w.ensure) then AddTable(s.store, table) else s.store;
            var written := w.ensure.Ok? && Applies(w.write);
            var buries := w.ensure.Ok? && w.write.Fails?;
            && end.store == (if written then Put(store1, table, k, e.body(k)) else store1)
            && end.ready == (if w.ensure.Ok? && w.write.Ok? && Applies(w.mark) then s.ready + {k} else s.ready)
            && end.letters == (if buries && k !in s.letters && Applies(w.bury) then s.letters[k := false] else s.letters)
            && end.acked == (if && w.ensure.Ok? && Applies(w.ack)
                                && (|| (w.write.Ok? && w.mark.Ok?)
                                    || (w.write.Fails? && !w.bury.Crashes?
                                        && ((w.bury.Ok? && k !in s.letters) || w.rollback.Ok?)))
                             then s.acked + {k} else s.acked)
  {
    var r0 := Result(s, Handler(k, Ensuring));
    var r1 := StepHandler(r0.shared, r0.task, OutcomeAt(w, r0.task.stage), e);
    var r2 := StepHandler(r1.shared, r1.task, OutcomeAt(w, r1.task.stage), e);
    var r3 := StepHandler(r2.shared, r2.task, OutcomeAt(w, r2.task.stage), e);
    var r4 := StepHandler(r3.shared, r3.task, OutcomeAt(w, r3.task.stage), e);
    var r5 := StepHandler(r4.shared, r4.task, OutcomeAt(w, r4.task.stage), e);
    AloneStep(r0.shared, r0.task, w, e);
    AloneStep(r1.shared, r1.task, w, e);
    AloneStep(r2.shared, r2.task, w, e);
    AloneStep(r3.shared, r3.task, w, e);
    AloneStep(r4.shared, r4.task, w, e);
  }
}
