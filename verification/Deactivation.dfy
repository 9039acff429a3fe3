/** Account deactivation in two phases: every interleaving of submissions, logins that revoke, the
    expiry job and the compensation job (`app/tasks/scheduler.py`,
    `app/services/user/deactivation_service.py`, `app/api/pptr_user_gateway.py`). A step is one database
    transaction or one call to another service; a row is written by its id, whatever became of it since
    it was read. */
module Deactivation {
  import opened Runs
  import opened Wrappers

  datatype Status = Cooling | Pending

  datatype Row = Row(id: nat, status: Status)

  /** The deactivation table by user, the users whose local data is purged, and the users whose Casdoor
      account has been deleted. */
  datatype Shared = Shared(rows: map<int, Row>, nextId: nat, purged: set<int>, deleted: set<int>)

  datatype Kind = Submit | Revoke | Expire | Retry

  datatype Stage =
    | Reading
    | Inserting
    | Revoking(id: nat)
    | Purging
    | Rechecking
    | Marking(id: nat)
    /** `row` is what the compensation job hands over; the expiry job hands over nothing. */
    | DeletingAccount(row: Option<nat>)
    | FindingToClear
    | Clearing(id: nat)
    | FindingToBlame
    | Blaming(id: nat)
    | Finished
    /** An error that nobody catches: it ends the job this activity is part of. */
    | Escaped

  /** One activity for one user. */
  datatype Task = Task(kind: Kind, mid: int, stage: Stage)

  /** How a step ends. `listed` says whether a listing of at most 100 rows reaches this user's row;
      a step that fails may have taken effect all the same. */
  datatype Outcome = Ok(listed: bool) | Fails(applied: bool)

  datatype Result = Result(shared: Shared, task: Task)

  function RowOf(s: Shared, mid: int): Option<Row> {
    if mid in s.rows then Some(s.rows[mid]) else None
  }

  predicate IsCooling(s: Shared, mid: int) {
    mid in s.rows && s.rows[mid].status.Cooling?
  }

  predicate IsPending(s: Shared, mid: int) {
    mid in s.rows && s.rows[mid].status.Pending?
  }

  predicate Has(s: Shared, mid: int, id: nat) {
    mid in s.rows && s.rows[mid].id == id
  }

  predicate Applies(o: Outcome) {
    o.Ok? || o.applied
  }

  function Insert(s: Shared, mid: int): Shared {
    if mid in s.rows then s else s.(rows := s.rows[mid := Row(s.nextId, Cooling)], nextId := s.nextId + 1)
  }

  function Remove(s: Shared, mid: int, id: nat): Shared {
    if Has(s, mid, id) then s.(rows := s.rows - {mid}) else s
  }

  function SetPending(s: Shared, mid: int, id: nat): Shared {
    if Has(s, mid, id) then s.(rows := s.rows[mid := Row(id, Pending)]) else s
  }

  /** The first step of an activity: it looks at the row of its user. */
  function Read(s: Shared, t: Task, listed: bool): Stage {
    match t.kind
    case Submit => if t.mid in s.rows then Finished else Inserting
    case Revoke => if IsCooling(s, t.mid) then Revoking(s.rows[t.mid].id) else Finished
    case Expire => if IsCooling(s, t.mid) && listed then Purging else Finished
    case Retry => if IsPending(s, t.mid) && listed then DeletingAccount(Some(s.rows[t.mid].id)) else Finished
  }

  function StepTask(s: Shared, t: Task, o: Outcome): Result {
    var mid := t.mid;
    match t.stage
    case Reading =>
      Result(s, t.(stage := if o.Fails? then Finished else Read(s, t, o.listed)))
    case Inserting =>
      Result(if Applies(o) then Insert(s, mid) else s, t.(stage := Finished))
    case Revoking(id) =>
      Result(if Applies(o) then Remove(s, mid, id) else s, t.(stage := Finished))
    case Purging =>
      Result(if Applies(o) then s.(purged := s.purged + {mid}) else s,
             t.(stage := if o.Fails? then Finished else Rechecking))
    case Rechecking =>
      Result(s, t.(stage := if o.Fails? then Finished
                            else if IsCooling(s, mid) then Marking(s.rows[mid].id) else DeletingAccount(None)))
    case Marking(id) =>
      // Updating a row that is gone is an error.
      Result(if Applies(o) then SetPending(s, mid, id) else s,
             t.(stage := if o.Fails? || !Has(s, mid, id) then Finished else DeletingAccount(None)))
    case DeletingAccount(row) =>
      Result(if Applies(o) then s.(deleted := s.deleted + {mid}) else s,
             t.(stage := if o.Ok? then FindingToClear
                         else if row.Some? then Blaming(row.value) else FindingToBlame))
    case FindingToClear =>
      Result(s, t.(stage := if o.Fails? then Escaped
                            else if o.listed && IsPending(s, mid) then Clearing(s.rows[mid].id) else Finished))
    case Clearing(id) =>
      Result(if Applies(o) then Remove(s, mid, id) else s, t.(stage := if o.Fails? then Escaped else Finished))
    case FindingToBlame =>
      Result(s, t.(stage := if o.Fails? then Escaped
                            else if o.listed && IsPending(s, mid) then Blaming(s.rows[mid].id) else Finished))
    case Blaming(id) =>
      Result(if Applies(o) then SetPending(s, mid, id) else s,
             t.(stage := if o.Fails? || !Has(s, mid, id) then Escaped else Finished))
    case _ => Result(s, t)
  }

  datatype State = State(shared: Shared, tasks: seq<Task>)

  /** Task `i` makes its next step. */
  function Step(s: State, i: nat, o: Outcome): State {
    if i < |s.tasks| then
      var r := StepTask(s.shared, s.tasks[i], o);
      State(r.shared, s.tasks[i := r.task])
    else s
  }

  // ---------- the expiry job as it is written ----------

  /** How the steps for one user end. */
  datatype World = World(purge: Outcome, recheck: Outcome, mark: Outcome, delete: Outcome, find: Outcome, write: Outcome)

  function OutcomeAt(w: World, stage: Stage): Outcome {
    match stage
    case Purging => w.purge
    case Rechecking => w.recheck
    case Marking(_) => w.mark
    case DeletingAccount(_) => w.delete
    case FindingToClear => w.find
    case FindingToBlame => w.find
    case _ => w.write
  }

  predicate Ended(stage: Stage) {
    stage.Finished? || stage.Escaped?
  }

  function Rank(stage: Stage): nat {
    match stage
    case Reading => 7
    case Purging => 6
    case Rechecking => 5
    case Marking(_) => 4
    case DeletingAccount(_) => 3
    case FindingToClear => 2
    case FindingToBlame => 2
    case Finished => 0
    case Escaped => 0
    case _ => 1
  }

  /** The steps of one activity with nothing in between. */
  function Alone(s: Shared, t: Task, w: World): Result
    decreases Rank(t.stage)
  {
    if Ended(t.stage) then Result(s, t)
    else
      var r := StepTask(s, t, OutcomeAt(w, t.stage));
      Alone(r.shared, r.task, w)
  }

  lemma AloneStep(s: Shared, t: Task, w: World)
    ensures var r := StepTask(s, t, OutcomeAt(w, t.stage)); Alone(s, t, w) == Alone(r.shared, r.task, w)
  {
  }

  /** What the job does for one due user. */
  function Expired(s: Shared, mid: int, w: World): Result {
    Alone(s, Task(Expire, mid, Purging), w)
  }

  /** The tables, and whether an error has ended the job. */
  datatype Progress = Progress(shared: Shared, escaped: bool)

  /** What the job does for the first `n` of the due users: after an escape it does nothing more. */
  function ExpiredAll(s: Shared, due: seq<int>, n: nat, w: int -> World): Progress
    requires n <= |due|
  {
    if n == 0 then Progress(s, false)
    else
      var before := ExpiredAll(s, due, n - 1, w);
      if before.escaped then before
      else
        var r := Expired(before.shared, due[n - 1], w(due[n - 1]));
        Progress(r.shared, r.task.stage.Escaped?)
  }

  lemma {:induction false} EscapeEndsTheJob(s: Shared, due: seq<int>, m: nat, n: nat, w: int -> World)
    requires m <= n <= |due| && ExpiredAll(s, due, m, w).escaped
    ensures ExpiredAll(s, due, n, w) == ExpiredAll(s, due, m, w)
  {
    if m < n {
      EscapeEndsTheJob(s, due, m, n - 1, w);
    }
  }

  function Ending(escaped: bool): Stage {
    if escaped then Escaped else Finished
  }

  class Store {
    var shared: Shared

    constructor (shared: Shared)
      ensures this.shared == shared
    {
      this.shared := shared;
    }

    /** Finding the pending row again and blaming it, or blaming the row that was handed over. */
    method Blame(kind: Kind, mid: int, row: Option<nat>, w: World) returns (escaped: bool)
      modifies this
      ensures var stage := if row.Some? then Blaming(row.value) else FindingToBlame;
              Result(shared, Task(kind, mid, Ending(escaped))) == Alone(old(shared), Task(kind, mid, stage), w)
    {
      var target := row;
      if target.None? {
        AloneStep(shared, Task(kind, mid, FindingToBlame), w);
        if w.find.Fails? {
          return true;
        }
        if !w.find.listed || !IsPending(shared, mid) {
          return false;
        }
        target := Some(shared.rows[mid].id);
      }
      AloneStep(shared, Task(kind, mid, Blaming(target.value)), w);
      escaped := w.write.Fails? || !Has(shared, mid, target.value);
      if Applies(w.write) {
        shared := SetPending(shared, mid, target.value);
      }
    }

    /** Finding the pending row and clearing it. */
    method Clear(kind: Kind, mid: int, w: World) returns (escaped: bool)
      modifies this
      ensures Result(shared, Task(kind, mid, Ending(escaped))) == Alone(old(shared), Task(kind, mid, FindingToClear), w)
    {
      AloneStep(shared, Task(kind, mid, FindingToClear), w);
      if w.find.Fails? {
        return true;
      }
      if !w.find.listed || !IsPending(shared, mid) {
        return false;
      }
      var id := shared.rows[mid].id;
      AloneStep(shared, Task(kind, mid, Clearing(id)), w);
      if Applies(w.write) {
        shared := Remove(shared, mid, id);
      }
      return w.write.Fails?;
    }

    /** `_delete_casdoor_with_compensation`; `row` is what the compensation job hands over. Errors of the
        Casdoor call are caught, errors of the listings and commits after it are not. */
    method DeleteCasdoorWithCompensation(kind: Kind, mid: int, row: Option<nat>, w: World) returns (escaped: bool)
      modifies this
      ensures Result(shared, Task(kind, mid, Ending(escaped)))
           == Alone(old(shared), Task(kind, mid, DeletingAccount(row)), w)
    {
      AloneStep(shared, Task(kind, mid, DeletingAccount(row)), w);
      if Applies(w.delete) {
        shared := shared.(deleted := shared.deleted + {mid});
      }
      if w.delete.Fails? {
        escaped := Blame(kind, mid, row, w);
      } else {
        escaped := Clear(kind, mid, w);
      }
    }

    /** The body of the loop of `deactivate_expire_job`: an error before the Casdoor call is caught and
        ends this user only. */
    method ExpireOne(mid: int, w: World) returns (escaped: bool)
      modifies this
      ensures Result(shared, Task(Expire, mid, Ending(escaped))) == Expired(old(shared), mid, w)
    {
      AloneStep(shared, Task(Expire, mid, Purging), w);
      if Applies(w.purge) {
        shared := shared.(purged := shared.purged + {mid});
      }
      if w.purge.Fails? {
        return false;
      }
      AloneStep(shared, Task(Expire, mid, Rechecking), w);
      if w.recheck.Fails? {
        return false;
      }
      if IsCooling(shared, mid) {
        var id := shared.rows[mid].id;
        AloneStep(shared, Task(Expire, mid, Marking(id)), w);
        if Applies(w.mark) {
          shared := SetPending(shared, mid, id);
        }
        if w.mark.Fails? {
          return false;
        }
      }
      escaped := DeleteCasdoorWithCompensation(Expire, mid, None, w);
    }

    /** `deactivate_expire_job`, for the users that `list_due` gave. */
    method ExpireJob(due: seq<int>, w: int -> World) returns (escaped: bool)
      modifies this
      ensures Progress(shared, escaped) == ExpiredAll(old(shared), due, |due|, w)
    {
      escaped := false;
      for n := 0 to |due|
        invariant Progress(shared, escaped) == ExpiredAll(old(shared), due, n, w) && !escaped
      {
        escaped := ExpireOne(due[n], w(due[n]));
        if escaped {
          EscapeEndsTheJob(old(shared), due, n + 1, |due|, w);
          return;
        }
      }
    }
  }

  // ---------- how the due users fare ----------

  /** All that concerns one user. */
  datatype View = View(row: Option<Row>, purged: bool, deleted: bool)

  function ViewOf(s: Shared, mid: int): View {
    View(RowOf(s, mid), mid in s.purged, mid in s.deleted)
  }

  lemma {:induction false} AloneIsLocal(s: Shared, t: Task, w: World, other: int)
    requires other != t.mid
    ensures ViewOf(Alone(s, t, w).shared, other) == ViewOf(s, other)
    decreases Rank(t.stage)
  {
    if !Ended(t.stage) {
      var r := StepTask(s, t, OutcomeAt(w, t.stage));
      AloneIsLocal(r.shared, r.task, w, other);
    }
  }

  predicate PastReading(stage: Stage) {
    !stage.Reading? && !stage.Inserting?
  }

  /** The stage after a step depends on the user's own row alone. */
  lemma StageSeesOwn(s: Shared, s': Shared, t: Task, o: Outcome)
    requires ViewOf(s, t.mid) == ViewOf(s', t.mid)
    ensures StepTask(s, t, o).task == StepTask(s', t, o).task
  {
    assert t.mid in s.rows <==> t.mid in s'.rows;
  }

  /** A step that inserts no row sees and changes nothing but its own user. */
  lemma StepSeesOwn(s: Shared, s': Shared, t: Task, o: Outcome)
    requires ViewOf(s, t.mid) == ViewOf(s', t.mid) && !t.stage.Inserting?
    ensures ViewOf(StepTask(s, t, o).shared, t.mid) == ViewOf(StepTask(s', t, o).shared, t.mid)
  {
    assert t.mid in s.rows <==> t.mid in s'.rows;
  }

  lemma {:induction false} AloneSeesOwn(s: Shared, s': Shared, t: Task, w: World)
    requires ViewOf(s, t.mid) == ViewOf(s', t.mid) && PastReading(t.stage)
    ensures ViewOf(Alone(s, t, w).shared, t.mid) == ViewOf(Alone(s', t, w).shared, t.mid)
    ensures Alone(s, t, w).task == Alone(s', t, w).task
    decreases Rank(t.stage)
  {
    if !Ended(t.stage) {
      var o := OutcomeAt(w, t.stage);
      var r, r' := StepTask(s, t, o), StepTask(s', t, o);
      StageSeesOwn(s, s', t, o);
      StepSeesOwn(s, s', t, o);
      AloneSeesOwn(r.shared, r'.shared, r.task, w);
    }
  }

  /** The error that ends the job, in terms of the user's row and of the outcomes: the user gets as far
      as the Casdoor call, and then a listing fails, or a row is found and writing it fails. */
  predicate Escapes(v: View, w: World) {
    && w.purge.Ok? && w.recheck.Ok? && (v.row.Some? && v.row.value.status.Cooling? ==> w.mark.Ok?)
    && (w.find.Fails? || (w.find.listed && v.row.Some? && w.write.Fails?))
  }

  lemma TailEscapesIff(s: Shared, mid: int, w: World)
    ensures Alone(s, Task(Expire, mid, DeletingAccount(None)), w).task.stage.Escaped?
       <==> w.find.Fails? || (w.find.listed && IsPending(s, mid) && w.write.Fails?)
  {
    var t := Task(Expire, mid, DeletingAccount(None));
    var s1 := StepTask(s, t, w.delete).shared;
    AloneStep(s, t, w);
    AloneStep(s1, t.(stage := if w.delete.Ok? then FindingToClear else FindingToBlame), w);
    if w.find.Ok? && w.find.listed && IsPending(s, mid) {
      var id := s.rows[mid].id;
      AloneStep(s1, t.(stage := if w.delete.Ok? then Clearing(id) else Blaming(id)), w);
    }
  }

  /** Exactly these outcomes end the job. */
  lemma EscapesIff(s: Shared, mid: int, w: World)
    ensures Expired(s, mid, w).task.stage.Escaped? <==> Escapes(ViewOf(s, mid), w)
  {
    var t := Task(Expire, mid, Purging);
    AloneStep(s, t, w);
    if w.purge.Ok? {
      var s1 := s.(purged := s.purged + {mid});
      AloneStep(s1, t.(stage := Rechecking), w);
      if w.recheck.Ok? {
        if IsCooling(s, mid) {
          var id := s.rows[mid].id;
          AloneStep(s1, t.(stage := Marking(id)), w);
          TailEscapesIff(SetPending(s1, mid, id), mid, w);
        } else {
          TailEscapesIff(s1, mid, w);
        }
      }
    }
  }

  ghost predicate DistinctUsers(due: seq<int>) {
    forall i, j :: 0 <= i < j < |due| ==> due[i] != due[j]
  }

  /** One of the first `n` due users ends the job. */
  predicate Stopped(s: Shared, due: seq<int>, n: nat, w: int -> World)
    requires n <= |due|
  {
    n > 0 && (Stopped(s, due, n - 1, w) || Escapes(ViewOf(s, due[n - 1]), w(due[n - 1])))
  }

  lemma {:induction false} OthersUntouched(s: Shared, due: seq<int>, n: nat, w: int -> World, mid: int)
    requires n <= |due| && forall i :: 0 <= i < n ==> due[i] != mid
    ensures ViewOf(ExpiredAll(s, due, n, w).shared, mid) == ViewOf(s, mid)
  {
    if n > 0 {
      OthersUntouched(s, due, n - 1, w, mid);
      AloneIsLocal(ExpiredAll(s, due, n - 1, w).shared, Task(Expire, due[n - 1], Purging), w(due[n - 1]), mid);
    }
  }

  /** When it is a user's turn, the job does for that user what it would do for the user alone. */
  lemma OwnTurn(s: Shared, due: seq<int>, n: nat, w: int -> World)
    requires n < |due| && DistinctUsers(due)
    ensures var mid, before := due[n], ExpiredAll(s, due, n, w).shared;
            && ViewOf(before, mid) == ViewOf(s, mid)
            && ViewOf(Expired(before, mid, w(mid)).shared, mid) == ViewOf(Expired(s, mid, w(mid)).shared, mid)
            && (Expired(before, mid, w(mid)).task.stage.Escaped? <==> Escapes(ViewOf(s, mid), w(mid)))
  {
    var mid, before := due[n], ExpiredAll(s, due, n, w).shared;
    OthersUntouched(s, due, n, w, mid);
    AloneSeesOwn(before, s, Task(Expire, mid, Purging), w(mid));
    EscapesIff(before, mid, w(mid));
  }

  /** The job ends in an error exactly when one of its users escapes. */
  lemma {:induction false} JobEscapesIff(s: Shared, due: seq<int>, n: nat, w: int -> World)
    requires n <= |due| && DistinctUsers(due)
    ensures ExpiredAll(s, due, n, w).escaped <==> Stopped(s, due, n, w)
  {
    if n > 0 {
      JobEscapesIff(s, due, n - 1, w);
      OwnTurn(s, due, n - 1, w);
    }
  }

  /** A due user fares as if alone in the job exactly as long as no earlier user ends the job; after that
      the users behind are not touched at all. Nobody else is touched in any case. */
  lemma {:induction false} UsersFareAloneUntilAnEscape(s: Shared, due: seq<int>, n: nat, w: int -> World, i: nat)
    requires i < n <= |due| && DistinctUsers(due)
    ensures ViewOf(ExpiredAll(s, due, n, w).shared, due[i])
         == if Stopped(s, due, i, w) then ViewOf(s, due[i]) else ViewOf(Expired(s, due[i], w(due[i])).shared, due[i])
    ensures forall mid :: mid !in due ==> ViewOf(ExpiredAll(s, due, n, w).shared, mid) == ViewOf(s, mid)
  {
    forall mid | mid !in due ensures ViewOf(ExpiredAll(s, due, n, w).shared, mid) == ViewOf(s, mid) {
      OthersUntouched(s, due, n, w, mid);
    }
    if i == n - 1 {
      JobEscapesIff(s, due, i, w);
      OwnTurn(s, due, i, w);
    } else {
      UsersFareAloneUntilAnEscape(s, due, n - 1, w, i);
      AloneIsLocal(ExpiredAll(s, due, n - 1, w).shared, Task(Expire, due[n - 1], Purging), w(due[n - 1]), due[i]);
    }
  }

  /** What becomes of one user, in terms of the user's row and of the outcomes. */
  function ViewAfter(v: View, w: World): View {
    var cooling := v.row.Some? && v.row.value.status.Cooling?;
    var goesOn := w.purge.Ok? && w.recheck.Ok?;
    var calls := goesOn && (cooling ==> w.mark.Ok?);
    var row := if goesOn && cooling && Applies(w.mark) then Some(Row(v.row.value.id, Pending)) else v.row;
    var clears := calls && w.delete.Ok? && w.find.Ok? && w.find.listed && Applies(w.write);
    View(if clears && row.Some? && row.value.status.Pending? then None else row,
         v.purged || Applies(w.purge), v.deleted || (calls && Applies(w.delete)))
  }

  lemma TailIs(s: Shared, mid: int, w: World)
    ensures var end := Alone(s, Task(Expire, mid, DeletingAccount(None)), w).shared;
            ViewOf(end, mid)
            == View(if w.delete.Ok? && w.find.Ok? && w.find.listed && Applies(w.write) && IsPending(s, mid) then None
                    else RowOf(s, mid), mid in s.purged, mid in s.deleted || Applies(w.delete))
  {
    var t := Task(Expire, mid, DeletingAccount(None));
    var s1 := StepTask(s, t, w.delete).shared;
    AloneStep(s, t, w);
    AloneStep(s1, t.(stage := if w.delete.Ok? then FindingToClear else FindingToBlame), w);
    if w.find.Ok? && w.find.listed && IsPending(s, mid) {
      var id := s.rows[mid].id;
      AloneStep(s1, t.(stage := if w.delete.Ok? then Clearing(id) else Blaming(id)), w);
    }
  }

  /** Exactly this becomes of a due user. */
  lemma ExpiryIs(s: Shared, mid: int, w: World)
    ensures ViewOf(Expired(s, mid, w).shared, mid) == ViewAfter(ViewOf(s, mid), w)
  {
    var t := Task(Expire, mid, Purging);
    AloneStep(s, t, w);
    var s1 := StepTask(s, t, w.purge).shared;
    if w.purge.Ok? {
      AloneStep(s1, t.(stage := Rechecking), w);
      if w.recheck.Ok? {
        if IsCooling(s, mid) {
          var id := s.rows[mid].id;
          AloneStep(s1, t.(stage := Marking(id)), w);
          TailIs(StepTask(s1, t.(stage := Marking(id)), w.mark).shared, mid, w);
        } else {
          TailIs(s1, mid, w);
        }
      }
    }
  }

  // ---------- the other activities, alone ----------

  /** What a submission leaves: a cooling row for a user who had none. */
  lemma SubmissionIs(s: Shared, mid: int, read: Outcome, insert: Outcome)
    ensures var r := StepTask(s, Task(Submit, mid, Reading), read);
            var end := StepTask(r.shared, r.task, insert).shared;
            ViewOf(end, mid)
            == ViewOf(s, mid).(row := if mid !in s.rows && read.Ok? && Applies(insert) then Some(Row(s.nextId, Cooling))
                                      else RowOf(s, mid))
  {
  }

  /** What a login leaves: it takes a cooling row away, and leaves a pending one alone. */
  lemma RevocationIs(s: Shared, mid: int, read: Outcome, delete: Outcome)
    ensures var r := StepTask(s, Task(Revoke, mid, Reading), read);
            var end := StepTask(r.shared, r.task, delete).shared;
            ViewOf(end, mid)
            == ViewOf(s, mid).(row := if IsCooling(s, mid) && read.Ok? && Applies(delete) then None else RowOf(s, mid))
  {
  }

  /** The expiry job takes up a user whose row it lists as cooling, and nobody else. */
  lemma ExpiryStartsIff(s: Shared, mid: int, read: Outcome)
    ensures StepTask(s, Task(Expire, mid, Reading), read).task.stage
         == if IsCooling(s, mid) && read.Ok? && read.listed then Purging else Finished
    ensures StepTask(s, Task(Expire, mid, Reading), read).shared == s
  {
  }

  /** The compensation job takes up a user whose row it lists as pending, and nobody else. */
  lemma CompensationStartsIff(s: Shared, mid: int, read: Outcome)
    ensures StepTask(s, Task(Retry, mid, Reading), read).task.stage
         == if IsPending(s, mid) && read.Ok? && read.listed then DeletingAccount(Some(s.rows[mid].id)) else Finished
    ensures StepTask(s, Task(Retry, mid, Reading), read).shared == s
  {
  }

  /** What it then leaves: the account is deleted, and the row goes exactly when the deletion succeeds, the
      listing shows it and the write takes effect. */
  lemma CompensationIs(s: Shared, mid: int, w: World)
    requires IsPending(s, mid)
    ensures var end := Alone(s, Task(Retry, mid, DeletingAccount(Some(s.rows[mid].id))), w);
            && ViewOf(end.shared, mid)
               == View(if w.delete.Ok? && w.find.Ok? && w.find.listed && Applies(w.write) then None else RowOf(s, mid),
                       mid in s.purged, mid in s.deleted || Applies(w.delete))
            && (end.task.stage.Escaped?
                <==> if w.delete.Ok? then w.find.Fails? || (w.find.listed && w.write.Fails?) else w.write.Fails?)
  {
    var id := s.rows[mid].id;
    var t := Task(Retry, mid, DeletingAccount(Some(id)));
    var s1 := StepTask(s, t, w.delete).shared;
    AloneStep(s, t, w);
    if w.delete.Ok? {
      AloneStep(s1, t.(stage := FindingToClear), w);
      if w.find.Ok? && w.find.listed {
        AloneStep(s1, t.(stage := Clearing(id)), w);
      }
    } else {
      AloneStep(s1, t.(stage := Blaming(id)), w);
    }
  }

  function AllOk(): World {
    World(Ok(true), Ok(true), Ok(true), Ok(true), Ok(true), Ok(true))
  }

  /** Everything works, but for one listing of one user. */
  function ListingFailsFor(first: int): int -> World {
    (mid: int) => if mid == first then AllOk().(find := Fails(false)) else AllOk()
  }

  /** One listing that fails for the first user keeps the second from being purged at all. */
  lemma OneErrorStopsTheJob(s: Shared, first: int, second: int)
    requires first != second && IsCooling(s, second)
    ensures var w := ListingFailsFor(first);
            && ViewOf(ExpiredAll(s, [first, second], 2, w).shared, second) == ViewOf(s, second)
            && ViewOf(Expired(s, second, w(second)).shared, second) == View(None, true, true)
  {
    var w, due := ListingFailsFor(first), [first, second];
    assert w(first) == AllOk().(find := Fails(false)) && w(second) == AllOk();
    assert Escapes(ViewOf(s, due[0]), w(due[0]));
    assert Stopped(s, due, 1, w);
    UsersFareAloneUntilAnEscape(s, due, 2, w, 1);
    ExpiredEntirely(s, second, w(second));
  }

  /** A cooling user whose steps all succeed ends purged, deleted and without a row, as long as the
      listing reaches the row that was marked. */
  lemma ExpiredEntirely(s: Shared, mid: int, w: World)
    requires IsCooling(s, mid)
    requires w.purge.Ok? && w.recheck.Ok? && w.mark.Ok? && w.delete.Ok? && w.find == Ok(true) && w.write.Ok?
    ensures ViewOf(Expired(s, mid, w).shared, mid) == View(None, true, true)
  {
    var id := s.rows[mid].id;
    var s1 := s.(purged := s.purged + {mid});
    AloneStep(s, Task(Expire, mid, Purging), w);
    AloneStep(s1, Task(Expire, mid, Rechecking), w);
    AloneStep(s1, Task(Expire, mid, Marking(id)), w);
    var s2 := SetPending(s1, mid, id);
    AloneStep(s2, Task(Expire, mid, DeletingAccount(None)), w);
    var s3 := s2.(deleted := s2.deleted + {mid});
    AloneStep(s3, Task(Expire, mid, FindingToClear), w);
    AloneStep(s3, Task(Expire, mid, Clearing(id)), w);
  }

  // ---------- what every step keeps ----------

  /** Once at one of these stages the local data of the user is purged. */
  predicate PastPurge(stage: Stage) {
    !(stage.Reading? || stage.Inserting? || stage.Revoking? || stage.Purging? || Ended(stage))
  }

  /** A row with this id was pending, and so still is if it is there. */
  predicate WasPending(s: Shared, mid: int, id: nat) {
    id < s.nextId && (Has(s, mid, id) ==> s.rows[mid].status.Pending?)
  }

  predicate TaskKnows(s: Shared, t: Task) {
    && (PastPurge(t.stage) ==> t.mid in s.purged)
    && (t.stage.FindingToClear? || t.stage.Clearing? ==> t.mid in s.deleted)
    && (t.stage.Revoking? ==> t.kind.Revoke? && t.stage.id < s.nextId)
    && (t.stage.Marking? ==> t.stage.id < s.nextId)
    && (t.stage.Clearing? ==> WasPending(s, t.mid, t.stage.id))
    && (t.stage.Blaming? ==> WasPending(s, t.mid, t.stage.id))
    && (t.stage.DeletingAccount? && t.stage.row.Some? ==> WasPending(s, t.mid, t.stage.row.value))
  }

  /** A pending row means that the local data is purged. */
  ghost predicate RowsAreSound(s: Shared) {
    forall mid :: mid in s.rows ==> s.rows[mid].id < s.nextId && (s.rows[mid].status.Pending? ==> mid in s.purged)
  }

  /** Time only goes forward: purges and deletions last, ids are not used again, and a pending row
      never cools again. */
  ghost predicate Later(s: Shared, s': Shared) {
    && s.purged <= s'.purged && s.deleted <= s'.deleted && s.nextId <= s'.nextId
    && forall mid :: mid in s'.rows && s'.rows[mid].id < s.nextId ==>
         mid in s.rows && s.rows[mid].id == s'.rows[mid].id
         && (s.rows[mid].status.Pending? ==> s'.rows[mid].status.Pending?)
  }

  lemma StepIsLater(s: Shared, t: Task, o: Outcome)
    requires RowsAreSound(s)
    ensures Later(s, StepTask(s, t, o).shared)
    ensures StepTask(s, t, o).task.kind == t.kind && StepTask(s, t, o).task.mid == t.mid
  {
  }

  lemma StepKeepsRowsSound(s: Shared, t: Task, o: Outcome)
    requires RowsAreSound(s) && TaskKnows(s, t)
    ensures RowsAreSound(StepTask(s, t, o).shared)
  {
  }

  lemma StepKnows(s: Shared, t: Task, o: Outcome)
    requires RowsAreSound(s) && TaskKnows(s, t)
    ensures TaskKnows(StepTask(s, t, o).shared, StepTask(s, t, o).task)
  {
  }

  lemma LaterKnows(s: Shared, s': Shared, t: Task)
    requires Later(s, s') && TaskKnows(s, t)
    ensures TaskKnows(s', t)
  {
  }

  ghost predicate Inv(s: State) {
    RowsAreSound(s.shared) && forall i :: 0 <= i < |s.tasks| ==> TaskKnows(s.shared, s.tasks[i])
  }

  /** No rows yet and nobody has started; anything may have been purged or deleted before. */
  ghost predicate Initial(s: State) {
    s.shared.rows == map[] && forall i :: 0 <= i < |s.tasks| ==> s.tasks[i].stage.Reading?
  }

  lemma StepKeepsInv(s: State, i: nat, o: Outcome)
    requires Inv(s)
    ensures Inv(Step(s, i, o))
  {
    if i >= |s.tasks| {
      return;
    }
    var t, s' := s.tasks[i], Step(s, i, o);
    StepKeepsRowsSound(s.shared, t, o);
    forall j | 0 <= j < |s'.tasks| ensures TaskKnows(s'.shared, s'.tasks[j]) {
      if j == i {
        StepKnows(s.shared, t, o);
      } else {
        LaterKnows(s.shared, s'.shared, s.tasks[j]);
      }
    }
  }

  // ---------- whole runs ----------

  lemma {:induction false} RunKeepsInv(states: seq<State>, moves: seq<Move<Outcome>>, n: nat)
    requires IsRun(states, moves, Step) && n < |states| && Initial(states[0])
    ensures Inv(states[n])
  {
    if n > 0 {
      RunKeepsInv(states, moves, n - 1);
      StepKeepsInv(states[n - 1], moves[n - 1].task, moves[n - 1].outcome);
    }
  }

  /** In every interleaving a pending row means that the local data of its user is purged. */
  lemma PendingMeansPurged(states: seq<State>, moves: seq<Move<Outcome>>, n: nat, mid: int)
    requires IsRun(states, moves, Step) && n < |states| && Initial(states[0])
    requires IsPending(states[n].shared, mid)
    ensures mid in states[n].shared.purged
  {
    RunKeepsInv(states, moves, n);
  }

  /** A row disappears in two ways only: the job clears a pending row after the Casdoor account was
      deleted, or a login that saw the row cooling deletes it. */
  lemma HowRowsDisappear(states: seq<State>, moves: seq<Move<Outcome>>, n: nat, mid: int, id: nat)
    requires IsRun(states, moves, Step) && n < |moves| && Initial(states[0])
    requires Has(states[n].shared, mid, id) && !Has(states[n + 1].shared, mid, id)
    ensures moves[n].task < |states[n].tasks|
    ensures var s, t := states[n].shared, states[n].tasks[moves[n].task];
            && t.mid == mid
            && (|| (t.stage == Clearing(id) && mid in s.deleted && mid in s.purged && IsPending(s, mid))
                || (t.kind.Revoke? && t.stage == Revoking(id)))
  {
    RunKeepsInv(states, moves, n);
    var t := states[n].tasks[moves[n].task];
    assert TaskKnows(states[n].shared, t);
    assert states[n + 1] == Step(states[n], moves[n].task, moves[n].outcome);
  }

  /** `m` is the moment at which the login that is about to delete the row `id` read it, and it was
      cooling then. */
  ghost predicate ReadAt(states: seq<State>, moves: seq<Move<Outcome>>, m: nat, i: nat, id: nat)
    requires IsRun(states, moves, Step)
  {
    && m < |moves| && moves[m].task == i && i < |states[m].tasks|
    && states[m].tasks[i].stage.Reading?
    && states[m].shared.rows.Keys >= {states[m].tasks[i].mid}
    && states[m].shared.rows[states[m].tasks[i].mid] == Row(id, Cooling)
  }

  lemma StartsRevoking(s: Shared, t: Task, o: Outcome, id: nat)
    requires TaskKnows(s, t) && !t.stage.Revoking? && StepTask(s, t, o).task.stage == Revoking(id)
    ensures t.stage.Reading? && t.mid in s.rows && s.rows[t.mid] == Row(id, Cooling)
  {
  }

  /** Every login that is about to delete a row has read it, cooling, at some earlier moment. */
  lemma {:induction false} RevokeReadCooling(states: seq<State>, moves: seq<Move<Outcome>>, n: nat, i: nat, id: nat)
    returns (m: nat)
    requires IsRun(states, moves, Step) && n < |states| && Initial(states[0])
    requires i < |states[n].tasks| && states[n].tasks[i].stage == Revoking(id)
    ensures m < n && ReadAt(states, moves, m, i, id) && states[m].tasks[i].mid == states[n].tasks[i].mid
  {
    assert n > 0;
    var last, move := states[n - 1], moves[n - 1];
    assert states[n] == Step(last, move.task, move.outcome);
    assert i < |last.tasks|;
    if last.tasks[i].stage == Revoking(id) {
      m := RevokeReadCooling(states, moves, n - 1, i, id);
    } else {
      RunKeepsInv(states, moves, n - 1);
      StartsRevoking(last.shared, last.tasks[i], move.outcome, id);
      m := n - 1;
    }
  }

  /** The move marks the row `id` of `mid` as pending. */
  predicate Marks(s: State, move: Move<Outcome>, mid: int, id: nat) {
    && move.task < |s.tasks| && Applies(move.outcome) && s.tasks[move.task].mid == mid
    && s.tasks[move.task].stage == Marking(id)
  }

  /** One of the moves from `m` up to `n` marks the row. */
  predicate MarkedBetween(states: seq<State>, moves: seq<Move<Outcome>>, m: nat, n: nat, mid: int, id: nat)
    requires m <= n <= |moves| < |states|
  {
    m < n && (MarkedBetween(states, moves, m, n - 1, mid, id) || Marks(states[n - 1], moves[n - 1], mid, id))
  }

  lemma RowStep(s: Shared, t: Task, o: Outcome, mid: int, id: nat)
    requires RowsAreSound(s) && TaskKnows(s, t) && id < s.nextId
    requires Has(StepTask(s, t, o).shared, mid, id)
    ensures Has(s, mid, id)
    ensures StepTask(s, t, o).shared.rows[mid].status.Pending?
       <==> s.rows[mid].status.Pending? || (t.mid == mid && t.stage == Marking(id) && Applies(o))
  {
  }

  /** Between two moments at which a row is there, it turns from cooling to pending exactly when one
      of the moves in between marks it. */
  lemma {:induction false} PendingIffMarked(states: seq<State>, moves: seq<Move<Outcome>>, m: nat, n: nat, mid: int, id: nat)
    requires IsRun(states, moves, Step) && m <= n < |states| && Initial(states[0])
    requires mid in states[m].shared.rows && states[m].shared.rows[mid] == Row(id, Cooling)
    requires Has(states[n].shared, mid, id)
    ensures states[n].shared.rows[mid].status.Pending?
       <==> MarkedBetween(states, moves, m, n, mid, id)
  {
    if m < n {
      RunKeepsInv(states, moves, m);
      NextIdGrows(states, moves, m, n - 1);
      LastMove(states, moves, n, mid, id);
      PendingIffMarked(states, moves, m, n - 1, mid, id);
    }
  }

  lemma LastMove(states: seq<State>, moves: seq<Move<Outcome>>, n: nat, mid: int, id: nat)
    requires IsRun(states, moves, Step) && 0 < n < |states| && Initial(states[0])
    requires Has(states[n].shared, mid, id) && id < states[n - 1].shared.nextId
    ensures Has(states[n - 1].shared, mid, id)
    ensures states[n].shared.rows[mid].status.Pending?
       <==> states[n - 1].shared.rows[mid].status.Pending? || Marks(states[n - 1], moves[n - 1], mid, id)
  {
    var last, move := states[n - 1], moves[n - 1];
    RunKeepsInv(states, moves, n - 1);
    if move.task < |last.tasks| {
      RowStep(last.shared, last.tasks[move.task], move.outcome, mid, id);
    }
  }

  lemma {:induction false} NextIdGrows(states: seq<State>, moves: seq<Move<Outcome>>, m: nat, n: nat)
    requires IsRun(states, moves, Step) && m <= n < |states| && Initial(states[0])
    ensures states[m].shared.nextId <= states[n].shared.nextId
  {
    if m < n {
      NextIdGrows(states, moves, m, n - 1);
      RunKeepsInv(states, moves, n - 1);
      if moves[n - 1].task < |states[n - 1].tasks| {
        StepIsLater(states[n - 1].shared, states[n - 1].tasks[moves[n - 1].task], moves[n - 1].outcome);
      }
    }
  }

  /** A login that deletes a row deletes it while it is cooling exactly when the expiry job has not
      marked it between the login's read and its delete; otherwise a pending row is lost. */
  lemma RevokeTakesACoolingRow(states: seq<State>, moves: seq<Move<Outcome>>, n: nat, i: nat, id: nat) returns (m: nat)
    requires IsRun(states, moves, Step) && n < |moves| && Initial(states[0])
    requires moves[n].task == i && i < |states[n].tasks| && states[n].tasks[i].stage == Revoking(id)
    requires Has(states[n].shared, states[n].tasks[i].mid, id)
    ensures m < n && ReadAt(states, moves, m, i, id)
    ensures var mid := states[n].tasks[i].mid;
            IsCooling(states[n].shared, mid)
            <==> !MarkedBetween(states, moves, m, n, mid, id)
  {
    m := RevokeReadCooling(states, moves, n, i, id);
    PendingIffMarked(states, moves, m, n, states[n].tasks[i].mid, id);
  }

  // ---------- a pending row lost to a login ----------

  function Scene(mid: int, rows: map<int, Row>, nextId: nat, purged: set<int>, login: Stage, job: Stage): State {
    State(Shared(rows, nextId, purged, {}), [Task(Submit, mid, Finished), Task(Revoke, mid, login), Task(Expire, mid, job)])
  }

  lemma LoginReadsCoolingRow(mid: int) returns (states: seq<State>, moves: seq<Move<Outcome>>)
    ensures IsRun(states, moves, Step) && Initial(states[0])
    ensures states[|moves|] == Scene(mid, map[mid := Row(0, Cooling)], 1, {}, Revoking(0), Reading)
  {
    var start := State(Shared(map[], 0, {}, {}),
                       [Task(Submit, mid, Reading), Task(Revoke, mid, Reading), Task(Expire, mid, Reading)]);
    states, moves := [start], [];
    states, moves := Extend(states, moves, Step, 0, Ok(true));
    states, moves := Extend(states, moves, Step, 0, Ok(true));
    assert states[|moves|] == Scene(mid, map[mid := Row(0, Cooling)], 1, {}, Reading, Reading);
    states, moves := Extend(states, moves, Step, 1, Ok(true));
  }

  lemma JobMarksRow(mid: int) returns (states: seq<State>, moves: seq<Move<Outcome>>)
    ensures IsRun(states, moves, Step) && Initial(states[0])
    ensures states[|moves|] == Scene(mid, map[mid := Row(0, Pending)], 1, {mid}, Revoking(0), DeletingAccount(None))
  {
    states, moves := LoginReadsCoolingRow(mid);
    var rows := map[mid := Row(0, Cooling)];
    states, moves := Extend(states, moves, Step, 2, Ok(true));
    assert states[|moves|] == Scene(mid, rows, 1, {}, Revoking(0), Purging);
    states, moves := Extend(states, moves, Step, 2, Ok(true));
    assert states[|moves|] == Scene(mid, rows, 1, {mid}, Revoking(0), Rechecking);
    states, moves := Extend(states, moves, Step, 2, Ok(true));
    assert states[|moves|] == Scene(mid, rows, 1, {mid}, Revoking(0), Marking(0));
    states, moves := Extend(states, moves, Step, 2, Ok(true));
  }

  /** A login reads the row while it cools, the job purges and marks it, the login deletes it, and the
      Casdoor call fails: everything is finished, the account is still there and no row is left to make
      the compensation job delete it. */
  lemma PendingRowCanBeLost(mid: int)
    ensures exists states: seq<State>, moves: seq<Move<Outcome>> ::
              && IsRun(states, moves, Step) && Initial(states[0])
              && states[|moves|] == Scene(mid, map[], 1, {mid}, Finished, Finished)
  {
    var states, moves := JobMarksRow(mid);
    states, moves := Extend(states, moves, Step, 1, Ok(true));
    assert states[|moves|] == Scene(mid, map[], 1, {mid}, Finished, DeletingAccount(None));
    states, moves := Extend(states, moves, Step, 2, Fails(false));
    assert states[|moves|] == Scene(mid, map[], 1, {mid}, Finished, FindingToBlame);
    states, moves := Extend(states, moves, Step, 2, Ok(true));
  }
}
