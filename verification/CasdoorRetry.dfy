/** The compensation job for Casdoor deletions that failed, run alone: how its batches of 100 work off
    the pending rows (`app/tasks/scheduler.py`, `app/services/user/deactivation_service.py`). Writing a
    row moves it behind all others in the order of `updated_at`. An error of a listing or of a commit is
    caught nowhere and ends the run. */
module CasdoorRetry {
  const BATCH := 100

  datatype PendingRow = PendingRow(mid: int, userName: string, retries: nat)

  /** How the attempt for one row goes: the Casdoor call, the listing after a success, and the commit,
      which may take effect although it reports an error. */
  datatype Attempt = Attempt(deleted: bool, listed: bool, committed: bool, applied: bool)

  ghost predicate DistinctMids(rows: seq<PendingRow>) {
    forall i, j :: 0 <= i < j < |rows| ==> rows[i].mid != rows[j].mid
  }

  function Min(a: int, b: int): int {
    if a < b then a else b
  }

  /** The attempt comes to its commit. */
  predicate Commits(a: Attempt) {
    a.deleted ==> a.listed
  }

  /** The row is cleared or blamed: either way it leaves its place. */
  predicate Moves(a: Attempt) {
    Commits(a) && (a.committed || a.applied)
  }

  /** The attempt ends the run. */
  predicate Escapes(a: Attempt) {
    !Commits(a) || !a.committed
  }

  /** `mark_casdoor_error` */
  function Blamed(row: PendingRow): PendingRow {
    row.(retries := row.retries + 1)
  }

  /** The first row of `mid`, or -1. */
  function IndexOf(rows: seq<PendingRow>, mid: int, k: nat): (i: int)
    requires k <= |rows|
    ensures i == -1 || (k <= i < |rows| && rows[i].mid == mid)
    ensures i == -1 ==> forall j :: k <= j < |rows| ==> rows[j].mid != mid
    decreases |rows| - k
  {
    if k == |rows| then -1 else if rows[k].mid == mid then k else IndexOf(rows, mid, k + 1)
  }

  function Without(rows: seq<PendingRow>, k: nat): seq<PendingRow>
    requires k < |rows|
  {
    rows[..k] + rows[k + 1..]
  }

  datatype Outcome = Outcome(rows: seq<PendingRow>, escaped: bool)

  /** What the attempt for a row that the job holds does to the table. A row that is gone is no matter
      after a deletion, and an error when it is to be blamed; a row beyond the first hundred is not found
      after a deletion and stays. */
  function Attempted(rows: seq<PendingRow>, row: PendingRow, a: Attempt): Outcome {
    var k := IndexOf(rows, row.mid, 0);
    if a.deleted then
      if !a.listed then Outcome(rows, true)
      else if k == -1 || k >= BATCH then Outcome(rows, false)
      else Outcome(if Moves(a) then Without(rows, k) else rows, !a.committed)
    else if k == -1 then Outcome(rows, true)
    else Outcome(if Moves(a) then Without(rows, k) + [rows[k].(retries := row.retries + 1)] else rows, !a.committed)
  }

  lemma IndexIs(rows: seq<PendingRow>, mid: int, from: nat, k: nat)
    requires DistinctMids(rows) && from <= k < |rows| && rows[k].mid == mid
    ensures IndexOf(rows, mid, from) == k
  {
    var i := IndexOf(rows, mid, from);
  }

  /** What an attempt does for a row that stands at `k`: a deletion is cleared when it is listed among the
      first hundred, a failure counts and moves to the end, both when the commit takes effect; and an error
      of the listing, or of a commit that is reached, escapes. */
  lemma AttemptIs(rows: seq<PendingRow>, row: PendingRow, a: Attempt, k: nat)
    requires DistinctMids(rows) && k < |rows| && rows[k].mid == row.mid
    ensures var end, others, effect := Attempted(rows, row, a), rows[..k] + rows[k + 1..], a.committed || a.applied;
            if a.deleted then
              && end.rows == (if a.listed && k < 100 && effect then others else rows)
              && (end.escaped <==> !a.listed || (k < 100 && !a.committed))
            else
              && end.rows == (if effect then others + [PendingRow(row.mid, rows[k].userName, row.retries + 1)] else rows)
              && (end.escaped <==> !a.committed)
  {
    IndexIs(rows, row.mid, 0, k);
  }

  /** A row that is gone is no matter after a deletion, and an error when it is to be blamed. */
  lemma AttemptOnGoneRow(rows: seq<PendingRow>, row: PendingRow, a: Attempt)
    requires forall j :: 0 <= j < |rows| ==> rows[j].mid != row.mid
    ensures Attempted(rows, row, a) == Outcome(rows, !a.deleted || !a.listed)
  {
  }

  // ---------- one run ----------

  /** The number of the first `n` rows that leave their place: the run ends at the first escape, whose
      own row moves only when its commit took effect. */
  function Moved(rows: seq<PendingRow>, n: nat, w: int -> Attempt): nat
    requires n <= |rows|
  {
    if n == 0 then 0
    else
      var before := Moved(rows, n - 1, w);
      if Stopped(rows, n - 1, w) then before
      else before + if Moves(w(rows[n - 1].mid)) then 1 else 0
  }

  /** One of the first `n` attempts has ended the run. */
  predicate Stopped(rows: seq<PendingRow>, n: nat, w: int -> Attempt)
    requires n <= |rows|
  {
    exists i {:trigger rows[i]} :: 0 <= i < n && Escapes(w(rows[i].mid))
  }

  /** The rows among the first `n` that were blamed. */
  function Failed(rows: seq<PendingRow>, n: nat, w: int -> Attempt): seq<PendingRow>
    requires n <= |rows|
  {
    if n == 0 then []
    else Failed(rows, n - 1, w) + if w(rows[n - 1].mid).deleted then [] else [Blamed(rows[n - 1])]
  }

  /** The table when the first `m` rows have moved: the blamed ones queue up again behind everything. */
  function Queue(rows: seq<PendingRow>, m: nat, w: int -> Attempt): seq<PendingRow>
    requires m <= |rows|
  {
    rows[m..] + Failed(rows, m, w)
  }

  /** The table after one run. */
  function AfterRun(rows: seq<PendingRow>, w: int -> Attempt): seq<PendingRow> {
    MovedInRange(rows, Min(BATCH, |rows|), w);
    Queue(rows, Moved(rows, Min(BATCH, |rows|), w), w)
  }

  lemma {:induction false} MovedInRange(rows: seq<PendingRow>, n: nat, w: int -> Attempt)
    requires n <= |rows|
    ensures Moved(rows, n, w) <= n
    ensures !Stopped(rows, n, w) ==> Moved(rows, n, w) == n
  {
    if n > 0 {
      MovedInRange(rows, n - 1, w);
      if !Stopped(rows, n, w) {
        assert !Escapes(w(rows[n - 1].mid));
        assert !Stopped(rows, n - 1, w);
      }
    }
  }

  lemma {:induction false} FailedRows(rows: seq<PendingRow>, n: nat, w: int -> Attempt)
    requires n <= |rows| && DistinctMids(rows)
    ensures |Failed(rows, n, w)| <= n
    ensures DistinctMids(Failed(rows, n, w))
    ensures forall x :: x in Failed(rows, n, w) ==>
              !w(x.mid).deleted && exists j :: 0 <= j < n && x == Blamed(rows[j])
  {
    if n > 0 {
      FailedRows(rows, n - 1, w);
      var before := Failed(rows, n - 1, w);
      forall i | 0 <= i < |before| ensures before[i].mid != rows[n - 1].mid {
        assert before[i] in before;
      }
    }
  }

  lemma QueueIsDistinct(rows: seq<PendingRow>, n: nat, w: int -> Attempt)
    requires n <= |rows| && DistinctMids(rows)
    ensures DistinctMids(Queue(rows, n, w))
  {
    FailedRows(rows, n, w);
    var failed := Failed(rows, n, w);
    forall i, j | 0 <= i < |rows| - n && 0 <= j < |failed| ensures rows[n..][i].mid != failed[j].mid {
      assert failed[j] in failed;
    }
  }

  /** The row whose turn it is stands first: everything before it has left or moved to the end. */
  lemma NextIsFirst(rows: seq<PendingRow>, n: nat, w: int -> Attempt)
    requires n < |rows|
    ensures var now := Queue(rows, n, w);
            && |now| > 0 && now[0] == rows[n]
            && IndexOf(now, rows[n].mid, 0) == 0
            && Queue(rows, n + 1, w) == Without(now, 0) + if w(rows[n].mid).deleted then [] else [Blamed(rows[n])]
  {
    var now := Queue(rows, n, w);
    assert now == [rows[n]] + (rows[n + 1..] + Failed(rows, n, w));
    assert Without(now, 0) == rows[n + 1..] + Failed(rows, n, w);
  }

  lemma NextAttempt(rows: seq<PendingRow>, n: nat, w: int -> Attempt)
    requires n < |rows|
    ensures Attempted(Queue(rows, n, w), rows[n], w(rows[n].mid))
         == Outcome(if Moves(w(rows[n].mid)) then Queue(rows, n + 1, w) else Queue(rows, n, w), Escapes(w(rows[n].mid)))
  {
    NextIsFirst(rows, n, w);
    var now := Queue(rows, n, w);
    assert Without(now, 0) + [] == Without(now, 0);
  }

  /** The deactivation table, restricted to pending rows and in the order of `updated_at`. */
  class PendingTable {
    var rows: seq<PendingRow>
    const maxRetry: nat

    constructor (rows: seq<PendingRow>, maxRetry: nat)
      ensures this.rows == rows && this.maxRetry == maxRetry
    {
      this.rows := rows;
      this.maxRetry := maxRetry;
    }

    /** `list_pending_casdoor`, then the first of the listed rows that belongs to `mid`. */
    method Find(mid: int, limit: nat) returns (k: int)
      ensures k == if IndexOf(rows, mid, 0) < limit then IndexOf(rows, mid, 0) else -1
    {
      k := 0;
      while k < |rows| && k < limit
        invariant 0 <= k <= |rows| && IndexOf(rows, mid, 0) == IndexOf(rows, mid, k)
      {
        if rows[k].mid == mid {
          return;
        }
        k := k + 1;
      }
      k := -1;
    }

    /** `_delete_casdoor_with_compensation` for a row that the job holds, wherever it stands by now.
        `alarm` says that the failure is reported as needing a human, which changes nothing else: the row
        is tried again. */
    method DeleteWithCompensation(row: PendingRow, a: Attempt) returns (escaped: bool, alarm: bool)
      modifies this
      ensures Outcome(rows, escaped) == Attempted(old(rows), row, a)
      ensures alarm <==> !a.deleted && !escaped && row.retries + 1 >= maxRetry
    {
      alarm := false;
      if !a.deleted {
        var k := Find(row.mid, |rows|);
        if k == -1 {
          return true, false;
        }
        var target := rows[k].(retries := row.retries + 1);
        if a.committed || a.applied {
          rows := rows[..k] + rows[k + 1..] + [target];
        }
        return !a.committed, a.committed && target.retries >= maxRetry;
      }
      if !a.listed {
        return true, false;
      }
      var k := Find(row.mid, BATCH);
      if k == -1 {
        return false, false;
      }
      if a.committed || a.applied {
        rows := rows[..k] + rows[k + 1..];
      }
      return !a.committed, false;
    }

    /** `casdoor_delete_retry_job`, once it has listed its batch: the first escape ends it. */
    method RetryJob(w: int -> Attempt) returns (escaped: bool)
      requires DistinctMids(rows)
      modifies this
      ensures rows == AfterRun(old(rows), w)
      ensures escaped <==> Stopped(old(rows), Min(BATCH, |old(rows)|), w)
      ensures DistinctMids(rows)
    {
      ghost var before := rows;
      var pending := rows[..Min(BATCH, |rows|)];
      assert Queue(before, 0, w) == before;
      for n := 0 to |pending|
        invariant rows == Queue(before, n, w) && !Stopped(before, n, w)
      {
        Turn(before, n, w);
        var alarm: bool;
        escaped, alarm := DeleteWithCompensation(pending[n], w(pending[n].mid));
        if escaped {
          AfterRunIsDistinct(before, w);
          return;
        }
      }
      MovedInRange(before, |pending|, w);
      AfterRunIsDistinct(before, w);
      escaped := false;
    }
  }

  lemma AfterRunIsDistinct(rows: seq<PendingRow>, w: int -> Attempt)
    requires DistinctMids(rows)
    ensures DistinctMids(AfterRun(rows, w))
  {
    MovedInRange(rows, Min(BATCH, |rows|), w);
    QueueIsDistinct(rows, Moved(rows, Min(BATCH, |rows|), w), w);
  }

  /** The attempt for row `n` of the batch either ends the run, leaving its final table, or goes on with
      the next row. */
  lemma Turn(rows: seq<PendingRow>, n: nat, w: int -> Attempt)
    requires n < Min(BATCH, |rows|) && !Stopped(rows, n, w)
    ensures var out := Attempted(Queue(rows, n, w), rows[n], w(rows[n].mid));
            if out.escaped then Stopped(rows, Min(BATCH, |rows|), w) && out.rows == AfterRun(rows, w)
            else !Stopped(rows, n + 1, w) && out.rows == Queue(rows, n + 1, w)
  {
    NextAttempt(rows, n, w);
    MovedInRange(rows, n, w);
    if Escapes(w(rows[n].mid)) {
      RunEndsHere(rows, n, Min(BATCH, |rows|), w);
    }
  }

  /** Nothing moves after the first escape. */
  lemma {:induction false} RunEndsHere(rows: seq<PendingRow>, n: nat, k: nat, w: int -> Attempt)
    requires n < k <= |rows| && Escapes(w(rows[n].mid))
    ensures Stopped(rows, k, w) && Moved(rows, k, w) == Moved(rows, n + 1, w)
  {
    if n + 1 < k {
      RunEndsHere(rows, n, k - 1, w);
    }
  }

  // ---------- many runs ----------

  /** The table after `k` runs; `w(r)` says how the attempts of run `r` go. */
  function AfterRuns(rows: seq<PendingRow>, k: nat, w: nat -> int -> Attempt): seq<PendingRow> {
    if k == 0 then rows else AfterRun(AfterRuns(rows, k - 1, w), w(k - 1))
  }

  /** The rows moved in the first `k` runs altogether. */
  function TotalMoved(rows: seq<PendingRow>, k: nat, w: nat -> int -> Attempt): nat {
    if k == 0 then 0
    else
      var now := AfterRuns(rows, k - 1, w);
      TotalMoved(rows, k - 1, w) + Moved(now, Min(BATCH, |now|), w(k - 1))
  }

  /** Every row has failed in one of the first `k` runs. */
  ghost predicate AllHaveFailed(rows: seq<PendingRow>, k: nat, w: nat -> int -> Attempt) {
    forall i :: 0 <= i < |rows| ==> HasFailed(rows[i].mid, k, w)
  }

  predicate HasFailed(mid: int, k: nat, w: nat -> int -> Attempt) {
    k > 0 && (HasFailed(mid, k - 1, w) || !w(k - 1)(mid).deleted)
  }

  /** What is left of the earlier failures when `n` rows are taken from the front. */
  function FrontOfQueue(rows: seq<PendingRow>, done: nat, failed: seq<PendingRow>, n: nat): (left: seq<PendingRow>)
    requires done <= |rows| && n <= |rows| - done + |failed|
    ensures forall x :: x in left ==> x in failed
  {
    if n <= |rows| - done then failed else failed[n - (|rows| - done)..]
  }

  /** The table holds the rows from number `done` on, and then `failed`. */
  ghost predicate IsLeft(table: seq<PendingRow>, rows: seq<PendingRow>, done: nat, failed: seq<PendingRow>) {
    done <= |rows| && table == rows[done..] + failed
  }

  lemma TakeFromFront(table: seq<PendingRow>, rows: seq<PendingRow>, done: nat, failed: seq<PendingRow>, n: nat)
    requires IsLeft(table, rows, done, failed) && n <= |table|
    ensures IsLeft(table[n..], rows, Min(done + n, |rows|), FrontOfQueue(rows, done, failed, n))
  {
  }

  lemma QueueBehind(table: seq<PendingRow>, rows: seq<PendingRow>, done: nat, failed: seq<PendingRow>,
                    more: seq<PendingRow>)
    requires IsLeft(table, rows, done, failed)
    ensures IsLeft(table + more, rows, done, failed + more)
  {
  }

  /** One run takes rows that have not been tried as long as there are any. */
  lemma OneRun(table: seq<PendingRow>, rows: seq<PendingRow>, done: nat, before: seq<PendingRow>, w: int -> Attempt)
    returns (failed: seq<PendingRow>)
    requires IsLeft(table, rows, done, before) && DistinctMids(table)
    ensures IsLeft(AfterRun(table, w), rows, Min(done + Moved(table, Min(BATCH, |table|), w), |rows|), failed)
    ensures DistinctMids(AfterRun(table, w))
    ensures forall x :: x in failed ==> x in before || !w(x.mid).deleted
  {
    MovedInRange(table, Min(BATCH, |table|), w);
    var n := Moved(table, Min(BATCH, |table|), w);
    FailedRows(table, n, w);
    QueueIsDistinct(table, n, w);
    TakeFromFront(table, rows, done, before, n);
    var front := FrontOfQueue(rows, done, before, n);
    QueueBehind(table[n..], rows, Min(done + n, |rows|), front, Failed(table, n, w));
    failed := front + Failed(table, n, w);
  }

  /** After `k` runs the rows whose turn has not come are still in front and in their old order; all
      others in the table have failed. */
  lemma {:induction false} UntriedStayInFront(rows: seq<PendingRow>, k: nat, w: nat -> int -> Attempt)
    returns (failed: seq<PendingRow>)
    requires DistinctMids(rows)
    ensures IsLeft(AfterRuns(rows, k, w), rows, Min(TotalMoved(rows, k, w), |rows|), failed)
    ensures AllHaveFailed(failed, k, w) && DistinctMids(AfterRuns(rows, k, w))
  {
    if k == 0 {
      failed := [];
    } else {
      var before := UntriedStayInFront(rows, k - 1, w);
      failed := OneRun(AfterRuns(rows, k - 1, w), rows, Min(TotalMoved(rows, k - 1, w), |rows|), before, w(k - 1));
      forall i | 0 <= i < |failed| ensures HasFailed(failed[i].mid, k, w) {
        assert failed[i] in failed;
      }
    }
  }

  /** Once as many rows have moved as there were, only rows whose deletion has failed are left, however
      many others fail. */
  lemma NobodyStarves(rows: seq<PendingRow>, k: nat, w: nat -> int -> Attempt)
    requires DistinctMids(rows) && TotalMoved(rows, k, w) >= |rows|
    ensures AllHaveFailed(AfterRuns(rows, k, w), k, w)
  {
    var failed := UntriedStayInFront(rows, k, w);
    assert AfterRuns(rows, k, w) == failed;
  }

  /** No listing and no commit fails in the first `k` runs. */
  ghost predicate Undisturbed(k: nat, w: nat -> int -> Attempt) {
    forall r: nat, mid: int {:trigger w(r)(mid)} :: r < k ==> !Escapes(w(r)(mid))
  }

  /** The rows that `k` runs can take. */
  function Capacity(k: nat): nat {
    if k == 0 then 0 else Capacity(k - 1) + BATCH
  }

  lemma {:induction false} CapacityIs(k: nat)
    ensures Capacity(k) == BATCH * k
  {
    if k > 0 {
      CapacityIs(k - 1);
    }
  }

  function Batches(n: nat): nat {
    (n + BATCH - 1) / BATCH
  }

  lemma UndisturbedRun(rows: seq<PendingRow>, k: nat, w: nat -> int -> Attempt)
    requires k > 0 && Undisturbed(k, w)
    ensures var now := AfterRuns(rows, k - 1, w);
            Moved(now, Min(BATCH, |now|), w(k - 1)) == Min(BATCH, |now|)
  {
    var now := AfterRuns(rows, k - 1, w);
    assert !Stopped(now, Min(BATCH, |now|), w(k - 1));
    MovedInRange(now, Min(BATCH, |now|), w(k - 1));
  }

  lemma OneRunMore(rows: seq<PendingRow>, k: nat, w: nat -> int -> Attempt)
    requires k > 0 && Undisturbed(k, w)
    ensures TotalMoved(rows, k, w) == TotalMoved(rows, k - 1, w) + Min(BATCH, |AfterRuns(rows, k - 1, w)|)
  {
    UndisturbedRun(rows, k, w);
  }

  lemma TableKeepsUntried(rows: seq<PendingRow>, k: nat, w: nat -> int -> Attempt)
    requires DistinctMids(rows)
    ensures |AfterRuns(rows, k, w)| >= |rows| - TotalMoved(rows, k, w)
  {
    var failed := UntriedStayInFront(rows, k, w);
  }

  lemma MoveOnOnce(rows: seq<PendingRow>, k: nat, w: nat -> int -> Attempt, low: nat, high: nat)
    requires DistinctMids(rows) && k > 0 && Undisturbed(k, w) && high == low + BATCH
    requires TotalMoved(rows, k - 1, w) >= Min(low, |rows|)
    ensures TotalMoved(rows, k, w) >= Min(high, |rows|)
  {
    TableKeepsUntried(rows, k - 1, w);
    OneRunMore(rows, k, w);
  }

  lemma {:induction false} UndisturbedRunsMoveOn(rows: seq<PendingRow>, k: nat, w: nat -> int -> Attempt)
    requires DistinctMids(rows) && Undisturbed(k, w)
    ensures TotalMoved(rows, k, w) >= Min(Capacity(k), |rows|)
    decreases k
  {
    if k > 0 {
      UndisturbedRunsMoveOn(rows, k - 1, w);
      MoveOnOnce(rows, k, w, Capacity(k - 1), Capacity(k));
    }
  }

  /** Without such errors nobody starves: enough runs to cover the table leave only rows whose deletion
      has failed. */
  lemma UndisturbedNobodyStarves(rows: seq<PendingRow>, k: nat, w: nat -> int -> Attempt)
    requires DistinctMids(rows) && k >= Batches(|rows|) && Undisturbed(k, w)
    ensures AllHaveFailed(AfterRuns(rows, k, w), k, w)
  {
    assert BATCH * k >= |rows|;
    CapacityIs(k);
    UndisturbedRunsMoveOn(rows, k, w);
    NobodyStarves(rows, k, w);
  }

  /** A run makes no progress at all exactly when its first attempt ends it without effect. */
  lemma NothingMovesIff(rows: seq<PendingRow>, w: int -> Attempt)
    requires |rows| > 0
    ensures Moved(rows, Min(BATCH, |rows|), w) == 0 <==> !Moves(w(rows[0].mid))
    ensures !Moves(w(rows[0].mid)) ==> AfterRun(rows, w) == rows
  {
    assert !Stopped(rows, 0, w);
    assert Moved(rows, 1, w) == if Moves(w(rows[0].mid)) then 1 else 0;
    if Moves(w(rows[0].mid)) {
      MovedGrows(rows, 1, Min(BATCH, |rows|), w);
    } else {
      RunEndsHere(rows, 0, Min(BATCH, |rows|), w);
      assert rows[0..] == rows;
    }
  }

  lemma {:induction false} MovedGrows(rows: seq<PendingRow>, m: nat, n: nat, w: int -> Attempt)
    requires m <= n <= |rows|
    ensures Moved(rows, m, w) <= Moved(rows, n, w)
  {
    if m < n {
      MovedGrows(rows, m, n - 1, w);
    }
  }

  /** One row whose bookkeeping fails every time without effect starves all others for ever. */
  lemma {:induction false} OneRowStarvesAll(rows: seq<PendingRow>, k: nat, w: nat -> int -> Attempt)
    requires |rows| > 0 && forall r: nat {:trigger w(r)} :: r < k ==> !Moves(w(r)(rows[0].mid))
    ensures AfterRuns(rows, k, w) == rows
  {
    if k > 0 {
      OneRowStarvesAll(rows, k - 1, w);
      NothingMovesIff(rows, w(k - 1));
    }
  }

  lemma {:induction false} NothingFails(rows: seq<PendingRow>, n: nat, w: int -> Attempt)
    requires n <= |rows| && forall mid {:trigger w(mid)} :: w(mid).deleted
    ensures Failed(rows, n, w) == []
  {
    if n > 0 {
      NothingFails(rows, n - 1, w);
    }
  }

  /** Every deletion and all its bookkeeping succeed. */
  ghost predicate AllSucceed(v: int -> Attempt) {
    forall mid {:trigger v(mid)} :: v(mid).deleted && !Escapes(v(mid))
  }

  /** A successful run takes the next batch off the front. */
  lemma NextCut(rows: seq<PendingRow>, low: nat, high: nat, v: int -> Attempt)
    requires high == low + BATCH && AllSucceed(v)
    ensures AfterRun(rows[Min(low, |rows|)..], v) == rows[Min(high, |rows|)..]
  {
    var now := rows[Min(low, |rows|)..];
    assert !Stopped(now, Min(BATCH, |now|), v);
    SuccessfulRun(now, v);
    CutAgain(rows, Min(low, |rows|), Min(BATCH, |now|));
  }

  lemma {:induction false} SuccessfulRunsCut(rows: seq<PendingRow>, k: nat, w: nat -> int -> Attempt)
    requires forall r: nat {:trigger w(r)} :: r < k ==> AllSucceed(w(r))
    ensures AfterRuns(rows, k, w) == rows[Min(Capacity(k), |rows|)..]
    decreases k
  {
    if k > 0 {
      SuccessfulRunsCut(rows, k - 1, w);
      assert AllSucceed(w(k - 1));
      CutOnce(rows, k, w);
    }
  }

  lemma CutOnce(rows: seq<PendingRow>, k: nat, w: nat -> int -> Attempt)
    requires k > 0 && AllSucceed(w(k - 1)) && AfterRuns(rows, k - 1, w) == rows[Min(Capacity(k - 1), |rows|)..]
    ensures AfterRuns(rows, k, w) == rows[Min(Capacity(k), |rows|)..]
  {
    NextCut(rows, Capacity(k - 1), Capacity(k), w(k - 1));
  }

  /** When every deletion and all its bookkeeping succeed, `k` runs leave exactly the rows beyond the
      first hundred times `k`; so the table is empty after as many runs as it has batches, and not
      before. */
  lemma SuccessfulRuns(rows: seq<PendingRow>, k: nat, w: nat -> int -> Attempt)
    requires Undisturbed(k, w)
    requires forall r: nat, mid: int {:trigger w(r)(mid)} :: r < k ==> w(r)(mid).deleted
    ensures AfterRuns(rows, k, w) == rows[Min(BATCH * k, |rows|)..]
    ensures AfterRuns(rows, k, w) == [] <==> k >= Batches(|rows|)
  {
    forall r: nat | r < k ensures AllSucceed(w(r)) {
    }
    SuccessfulRunsCut(rows, k, w);
    CapacityIs(k);
  }

  lemma CutAgain(rows: seq<PendingRow>, m: nat, n: nat)
    requires m <= |rows| && n <= |rows| - m
    ensures rows[m..][n..] == rows[m + n..]
  {
  }

  lemma SuccessfulRun(rows: seq<PendingRow>, w: int -> Attempt)
    requires !Stopped(rows, Min(BATCH, |rows|), w) && forall mid {:trigger w(mid)} :: w(mid).deleted
    ensures AfterRun(rows, w) == rows[Min(BATCH, |rows|)..]
  {
    MovedInRange(rows, Min(BATCH, |rows|), w);
    NothingFails(rows, Min(BATCH, |rows|), w);
  }
}
