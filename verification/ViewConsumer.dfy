/** The view-count consumer `app/consumers/interaction_view.py`: one handler run, and every run of a
    queue whose deliveries may fail or be cancelled at any await and be handed out again. */
module ViewConsumer {
  import opened RetryCount
  import opened Text

  const MAX_VIEW_RETRIES := DEFAULT_MAX_RETRIES

  datatype Payload = Payload(bizType: string, bizId: string, mid: int)

  datatype Message = Message(payload: Payload, headers: Headers)

  /** How one step of the handler ends; `applied` says that it took effect all the same. */
  datatype Step = Done | Raises(error: Error, applied: bool) | Cancelled(applied: bool)

  datatype Existence = Exists | Absent | Unknown

  /** What the outside world does during one handler run. The acknowledgement of an absent resource is
      inside the handler's `try` and has an outcome of its own. */
  datatype World = World(
    fromText: Step, getBiz: Step, checkExists: Step, existence: Existence, absentAck: Step, view: Step, commit: Step,
    rollback: Step, publish: Step, close: Step, ack: Step)

  /** The effects of handler runs on the database, the broker and the delivery. */
  class Effects {
    var commits: nat
    var rollbacks: nat
    var published: seq<Message>
    var acks: nat
  }

  /** `not str(bizId).strip()` */
  predicate Blank(s: string) {
    forall i :: 0 <= i < |s| ==> IsSpace(s[i])
  }

  /** A blank text is one that stripping leaves nothing of. */
  lemma BlankIffStripped(s: string)
    ensures Blank(s) <==> Strip(s) == ""
  {
    var lo, hi := StripTakesSpace(s);
    if Strip(s) != "" {
      assert !IsSpace(Strip(s)[0]) && Strip(s)[0] == s[lo];
    }
  }

  predicate TakesEffect(s: Step) {
    s.Done? || s.applied
  }

  // ---------- what one run does ----------

  /** The message can never be counted and is acknowledged at once. */
  predicate Poison(m: Message, w: World) {
    || Blank(m.payload.bizId)
    || (w.fromText.Raises? && w.fromText.error in {ValueError, KeyError})
    || (w.fromText.Done? && w.getBiz.Raises? && w.getBiz.error == ValueError)
  }

  /** The run reaches the existence check. */
  predicate Looked(m: Message, w: World) {
    !Blank(m.payload.bizId) && w.fromText.Done? && w.getBiz.Done?
  }

  predicate KnownAbsent(m: Message, w: World) {
    Looked(m, w) && w.checkExists.Done? && w.existence.Absent?
  }

  /** The run gets as far as committing the view; an unavailable existence check does not stop it. */
  predicate Commits(m: Message, w: World) {
    Looked(m, w) && w.checkExists.Done? && !w.existence.Absent? && w.view.Done?
  }

  /** The view is in the database. */
  predicate Counted(m: Message, w: World) {
    Commits(m, w) && TakesEffect(w.commit)
  }

  /** How the `try` ends: its first step that is not done, or its last one. */
  function TryEnd(w: World): Step {
    if !w.checkExists.Done? then w.checkExists
    else if w.existence.Absent? then w.absentAck
    else if !w.view.Done? then w.view
    else w.commit
  }

  /** The `try` ended in an error, and the rollback went through. */
  predicate Failed(m: Message, w: World) {
    Looked(m, w) && TryEnd(w).Raises? && w.rollback.Done?
  }

  /** The failed message is sent again. */
  predicate Resent(m: Message, w: World) {
    Failed(m, w) && IsRetryable(TryEnd(w).error) && Count(m.headers) + 1 < MAX_VIEW_RETRIES
  }

  function NextTry(m: Message): Message {
    m.(headers := Republished(m.headers, Count(m.headers) + 1))
  }

  /** The copies the broker holds after the run. */
  function Copies(m: Message, w: World): seq<Message> {
    if Resent(m, w) && TakesEffect(w.publish) then [NextTry(m)] else []
  }

  /** The run comes to the acknowledgement outside the `try`. */
  predicate ReachesAck(m: Message, w: World) {
    || Poison(m, w)
    || (Looked(m, w) && !w.existence.Absent? && TryEnd(w).Done? && w.close.Done?)
    || (Failed(m, w) && !(Resent(m, w) && w.publish.Cancelled?))
  }

  function Ones(b: bool): nat { if b then 1 else 0 }

  /** The acknowledgements that the broker sees. */
  function Acks(m: Message, w: World): nat {
    Ones(KnownAbsent(m, w) && TakesEffect(w.absentAck)) + Ones(ReachesAck(m, w) && TakesEffect(w.ack))
  }

  predicate Acked(m: Message, w: World) {
    Acks(m, w) > 0
  }

  /** `republish_with_retry_count`: a publish error is swallowed, a cancellation is not. */
  method Republish(m: Message, retries: int, w: World, fx: Effects) returns (cancelled: bool)
    requires retries == Count(m.headers) + 1
    modifies fx`published
    ensures fx.published == old(fx.published) + if TakesEffect(w.publish) then [NextTry(m)] else []
    ensures cancelled == w.publish.Cancelled?
  {
    if TakesEffect(w.publish) {
      fx.published := fx.published + [m.(headers := Republished(m.headers, retries))];
    }
    cancelled := w.publish.Cancelled?;
  }

  method Ack(step: Step, fx: Effects)
    modifies fx`acks
    ensures fx.acks == old(fx.acks) + Ones(TakesEffect(step))
  {
    if TakesEffect(step) {
      fx.acks := fx.acks + 1;
    }
  }

  /** The `except Exception` branch, once the rollback went through. */
  method AfterRollback(m: Message, e: Error, w: World, fx: Effects)
    requires Failed(m, w) && e == TryEnd(w).error
    modifies fx`published, fx`acks
    ensures fx.acks == old(fx.acks) + Ones(ReachesAck(m, w) && TakesEffect(w.ack))
    ensures fx.published == old(fx.published) + Copies(m, w)
  {
    if !IsRetryable(e) {
      Ack(w.ack, fx);
      return;
    }
    var retries := Count(m.headers) + 1;
    if retries >= MAX_VIEW_RETRIES {
      Ack(w.ack, fx);
      return;
    }
    var cancelled := Republish(m, retries, w, fx);
    if cancelled {
      return;
    }
    Ack(w.ack, fx);
  }

  /** The `try`: counts the view, or acknowledges the message of an absent resource. */
  method TryToCount(m: Message, w: World, fx: Effects) returns (end: Step)
    requires Looked(m, w)
    modifies fx`commits, fx`acks
    ensures end == TryEnd(w)
    ensures fx.commits == old(fx.commits) + Ones(Counted(m, w))
    ensures fx.acks == old(fx.acks) + Ones(KnownAbsent(m, w) && TakesEffect(w.absentAck))
  {
    if !w.checkExists.Done? {
      return w.checkExists;
    }
    if w.existence.Absent? {
      Ack(w.absentAck, fx);
      return w.absentAck;
    }
    if !w.view.Done? {
      return w.view;
    }
    if TakesEffect(w.commit) {
      fx.commits := fx.commits + 1;
    }
    return w.commit;
  }

  /** `handle_interaction_view`. Leaving without an acknowledgement is how an error or a cancellation
      that the handler does not catch ends. */
  method Handle(m: Message, w: World, fx: Effects)
    modifies fx
    ensures fx.acks == old(fx.acks) + Acks(m, w)
    ensures fx.commits == old(fx.commits) + Ones(Counted(m, w))
    ensures fx.rollbacks == old(fx.rollbacks) + Ones(Failed(m, w))
    ensures fx.published == old(fx.published) + Copies(m, w)
  {
    if Blank(m.payload.bizId) {
      Ack(w.ack, fx);
      return;
    }
    if !w.fromText.Done? {
      if w.fromText.Raises? && (w.fromText.error == ValueError || w.fromText.error == KeyError) {
        Ack(w.ack, fx);
      }
      return;
    }
    if !w.getBiz.Done? {
      if w.getBiz.Raises? && w.getBiz.error == ValueError {
        Ack(w.ack, fx);
      }
      return;
    }
    var end := TryToCount(m, w, fx);
    if end.Done? {
      if !w.existence.Absent? && w.close.Done? {
        Ack(w.ack, fx);
      }
      return;
    }
    if end.Raises? && w.rollback.Done? {
      fx.rollbacks := fx.rollbacks + 1;
      AfterRollback(m, end.error, w, fx);
    }
  }

  // ---------- one run ----------

  /** No step is cancelled, the database session can be rolled back and closed, the acknowledgement
      after the `try` goes through, and looking up the resource type raises only what the handler
      expects of it. */
  predicate Orderly(w: World) {
    && w.ack.Done? && w.rollback.Done? && w.close.Done? && NothingCancelled(w)
    && (w.fromText.Done? || (w.fromText.Raises? && w.fromText.error in {ValueError, KeyError}))
    && (w.getBiz.Done? || (w.getBiz.Raises? && w.getBiz.error == ValueError))
  }

  /** No step is cancelled. */
  predicate NothingCancelled(w: World) {
    && !w.fromText.Cancelled? && !w.getBiz.Cancelled? && !w.checkExists.Cancelled? && !w.absentAck.Cancelled?
    && !w.view.Cancelled? && !w.commit.Cancelled? && !w.rollback.Cancelled? && !w.publish.Cancelled?
    && !w.close.Cancelled?
  }

  /** An orderly run acknowledges its message once, whatever else fails, or twice: exactly when the
      acknowledgement of an absent resource takes effect and reports an error. */
  lemma OrderlyRunsAck(m: Message, w: World)
    requires Orderly(w)
    ensures Acks(m, w) == 1 + Ones(KnownAbsent(m, w) && w.absentAck.Raises? && w.absentAck.applied)
  {
  }

  /** No run acknowledges more than twice, and twice only in that case. */
  lemma WhenAckedTwice(m: Message, w: World)
    ensures Acks(m, w) <= 2
    ensures Acks(m, w) == 2
       <==> && KnownAbsent(m, w) && w.absentAck.Raises? && w.absentAck.applied && w.rollback.Done?
            && !(Resent(m, w) && w.publish.Cancelled?) && TakesEffect(w.ack)
  {
  }

  /** Without cancellations and with a working acknowledgement after the `try`, the message still goes
      without any in exactly four cases: looking up the type or the resource raises something
      unexpected, the rollback fails after an error that left the message unacknowledged, or closing
      the session after a committed view fails. */
  lemma WhenTheAckIsMissed(m: Message, w: World)
    requires NothingCancelled(w) && w.ack.Done?
    ensures !Acked(m, w)
       <==> !Blank(m.payload.bizId)
            && (|| (w.fromText.Raises? && w.fromText.error !in {ValueError, KeyError})
                || (w.fromText.Done? && w.getBiz.Raises? && w.getBiz.error != ValueError)
                || (Looked(m, w) && TryEnd(w).Raises? && w.rollback.Raises?
                    && !(KnownAbsent(m, w) && w.absentAck.applied))
                || (Commits(m, w) && w.commit.Done? && w.close.Raises?))
  {
  }

  /** An acknowledged message that was neither counted nor sent again is lost, and for one of these
      reasons only. */
  lemma WhyMessagesAreDropped(m: Message, w: World)
    requires Acked(m, w)
    ensures !Counted(m, w) && Copies(m, w) == []
       <==> || Poison(m, w)
            || (KnownAbsent(m, w) && !Resent(m, w))
            || (Failed(m, w) && !Counted(m, w) && !IsRetryable(TryEnd(w).error))
            || (Failed(m, w) && !Counted(m, w) && Count(m.headers) + 1 >= MAX_VIEW_RETRIES)
            || (Resent(m, w) && !Counted(m, w) && !TakesEffect(w.publish))
  {
  }

  /** A view is counted and its message sent again exactly when the commit takes effect and then reports
      an error that is worth another attempt. */
  lemma WhenCountedAndResent(m: Message, w: World)
    ensures Counted(m, w) && Copies(m, w) != []
       <==> && Commits(m, w) && w.commit.Raises? && w.commit.applied && IsRetryable(w.commit.error)
            && w.rollback.Done? && Count(m.headers) + 1 < MAX_VIEW_RETRIES && TakesEffect(w.publish)
  {
  }

  // ---------- what a second count of the same view does ----------

  /** The detail row of a viewer and a resource, which remembers the day of the last visit, and the
      public counter of the resource. */
  datatype Views = Views(lastDay: map<Payload, int>, counters: map<Resource, nat>)

  datatype Resource = Resource(bizType: string, bizId: string)

  function ResourceOf(p: Payload): Resource {
    Resource(p.bizType, p.bizId)
  }

  function CounterOf(v: Views, p: Payload): nat {
    if ResourceOf(p) in v.counters then v.counters[ResourceOf(p)] else 0
  }

  /** `report_view` on a given day: the counter moves unless the last visit was on the same day. */
  function ReportView(v: Views, p: Payload, day: int): Views {
    if p in v.lastDay && v.lastDay[p] == day then v
    else Views(v.lastDay[p := day], v.counters[ResourceOf(p) := CounterOf(v, p) + 1])
  }

  /** The views after reporting the same one on each of the first `n` days. */
  function ReportAll(v: Views, p: Payload, days: seq<int>, n: nat): Views
    requires n <= |days|
  {
    if n == 0 then v else ReportView(ReportAll(v, p, days, n - 1), p, days[n - 1])
  }

  /** The number of times the day changes among the first `n`. */
  function DayChanges(days: seq<int>, n: nat): nat
    requires n <= |days|
  {
    if n <= 1 then 0 else DayChanges(days, n - 1) + Ones(days[n - 1] != days[n - 2])
  }

  /** However often one view is counted, by copies and redeliveries, the public counter moves once for
      the first day, unless that day was counted before, and once for every change of day; within one
      day it moves at most once. */
  lemma {:induction false} CopiesCountOncePerDay(v: Views, p: Payload, days: seq<int>, n: nat)
    requires 0 < n <= |days|
    ensures p in ReportAll(v, p, days, n).lastDay && ReportAll(v, p, days, n).lastDay[p] == days[n - 1]
    ensures CounterOf(ReportAll(v, p, days, n), p)
         == CounterOf(v, p) + Ones(!(p in v.lastDay && v.lastDay[p] == days[0])) + DayChanges(days, n)
  {
    if n == 1 {
      assert ReportAll(v, p, days, 0) == v;
    } else {
      CopiesCountOncePerDay(v, p, days, n - 1);
    }
  }

  // ---------- runs of the queue ----------

  /** One delivery: which message is taken and what the world does. */
  datatype Delivery = Delivery(index: nat, world: World)

  /** The queue after a delivery. Without an acknowledgement the broker hands the message out again. */
  function After(q: seq<Message>, d: Delivery): seq<Message>
    requires d.index < |q|
  {
    var m := q[d.index];
    (if Acked(m, d.world) then q[..d.index] + q[d.index + 1..] else q) + Copies(m, d.world)
  }

  /** `queues` are the successive queues of the deliveries `ds`. */
  ghost predicate IsRun(queues: seq<seq<Message>>, ds: seq<Delivery>) {
    && |queues| == |ds| + 1
    && forall k {:trigger ds[k]} :: 0 <= k < |ds| ==>
         ds[k].index < |queues[k]| && queues[k + 1] == After(queues[k], ds[k])
  }

  /** The handler runs left to a message whose count can be read. */
  function RunsLeft(m: Message): nat {
    var left := MAX_VIEW_RETRIES - Count(m.headers);
    if left < 1 then 1 else left
  }

  /** The number of handler runs a message is still good for: an unreadable `x-retry-count` is replaced by
      the first of them. */
  function Weight(m: Message): nat {
    if ReadableCount(m.headers) then RunsLeft(m) else 1 + RunsLeft(NextTry(m))
  }

  ghost predicate AllReadable(q: seq<Message>) {
    forall m :: m in q ==> ReadableDeaths(m.headers)
  }

  /** The sum of a measure over the first `n` messages. */
  function SumTo(q: seq<Message>, n: nat, f: Message -> nat): nat
    requires n <= |q|
  {
    if n == 0 then 0 else SumTo(q, n - 1, f) + f(q[n - 1])
  }

  function TotalWeight(q: seq<Message>): nat {
    SumTo(q, |q|, Weight)
  }

  ghost predicate AllWithin(q: seq<Message>, bound: nat) {
    forall m :: m in q ==> Weight(m) <= bound
  }

  lemma {:induction false} SameSum(a: seq<Message>, b: seq<Message>, n: nat, f: Message -> nat)
    requires n <= |a| && n <= |b| && forall k :: 0 <= k < n ==> a[k] == b[k]
    ensures SumTo(a, n, f) == SumTo(b, n, f)
  {
    if n > 0 {
      SameSum(a, b, n - 1, f);
    }
  }

  lemma WeightAppend(q: seq<Message>, m: Message)
    ensures TotalWeight(q + [m]) == TotalWeight(q) + Weight(m)
  {
    SameSum(q + [m], q, |q|, Weight);
  }

  /** `rest` is `q` without entry `i`. */
  ghost predicate IsWithout(rest: seq<Message>, q: seq<Message>, i: nat) {
    && i < |q| && |rest| == |q| - 1
    && forall k {:trigger rest[k]} :: 0 <= k < |rest| ==> rest[k] == if k < i then q[k] else q[k + 1]
  }

  lemma {:induction false} SumWithout(q: seq<Message>, i: nat, rest: seq<Message>, n: nat, f: Message -> nat)
    requires IsWithout(rest, q, i) && i < n <= |q|
    ensures SumTo(q, n, f) == SumTo(rest, n - 1, f) + f(q[i])
  {
    if n == i + 1 {
      SameSum(q, rest, i, f);
    } else {
      SumWithout(q, i, rest, n - 1, f);
      assert rest[n - 2] == q[n - 1];
    }
  }

  /** Readable `x-death` headers stay readable, and the count of the copy can be read. */
  lemma CopyIsReadable(m: Message)
    requires ReadableDeaths(m.headers)
    ensures ReadableDeaths(NextTry(m).headers) && ReadableCount(NextTry(m).headers)
  {
    assert Get(NextTry(m).headers, X_DEATH_HEADER) == Get(m.headers, X_DEATH_HEADER);
  }

  /** A message that is sent again is one handler run lighter. */
  lemma NextTryIsLighter(m: Message, w: World)
    requires ReadableDeaths(m.headers) && Resent(m, w)
    ensures ReadableDeaths(NextTry(m).headers) && Weight(NextTry(m)) == Weight(m) - 1
  {
    CopyIsReadable(m);
    if ReadableCount(m.headers) {
      ReadableCountsOnceMore(m.headers);
    }
  }

  lemma ReadableAfter(q: seq<Message>, d: Delivery, bound: nat)
    requires AllReadable(q) && AllWithin(q, bound) && d.index < |q|
    ensures AllReadable(After(q, d)) && AllWithin(After(q, d), bound)
  {
    var m := q[d.index];
    assert m in q;
    if Resent(m, d.world) {
      NextTryIsLighter(m, d.world);
    }
    var rest := if Acked(m, d.world) then q[..d.index] + q[d.index + 1..] else q;
    forall x | x in After(q, d) ensures ReadableDeaths(x.headers) && Weight(x) <= bound {
      assert x in rest || x in Copies(m, d.world);
    }
  }

  /** The copies of a run are one handler run lighter than its message, or there is none. */
  lemma WeightOfCopies(rest: seq<Message>, m: Message, w: World)
    requires ReadableDeaths(m.headers)
    ensures TotalWeight(rest + Copies(m, w)) <= TotalWeight(rest) + Weight(m) - 1
  {
    if Copies(m, w) == [] {
      assert rest + [] == rest;
    } else {
      NextTryIsLighter(m, w);
      WeightAppend(rest, NextTry(m));
    }
  }

  /** An acknowledged delivery brings the total weight down; an unacknowledged one raises it by less
      than the weight of its message. */
  lemma WeightAfter(q: seq<Message>, d: Delivery)
    requires AllReadable(q) && d.index < |q|
    ensures Acked(q[d.index], d.world) ==> TotalWeight(After(q, d)) < TotalWeight(q)
    ensures !Acked(q[d.index], d.world) ==> TotalWeight(After(q, d)) < TotalWeight(q) + Weight(q[d.index])
  {
    assert q[d.index] in q;
    if Acked(q[d.index], d.world) {
      WeightWithout(q, d.index);
      WeightOfCopies(q[..d.index] + q[d.index + 1..], q[d.index], d.world);
    } else {
      WeightOfCopies(q, q[d.index], d.world);
    }
  }

  lemma WeightWithout(q: seq<Message>, i: nat)
    requires i < |q|
    ensures TotalWeight(q) == TotalWeight(q[..i] + q[i + 1..]) + Weight(q[i])
  {
    SumWithout(q, i, q[..i] + q[i + 1..], |q|, Weight);
  }

  /** The deliveries among the first `k` that ended without an acknowledgement. */
  ghost function Interrupted(queues: seq<seq<Message>>, ds: seq<Delivery>, k: nat): nat
    requires IsRun(queues, ds) && k <= |ds|
  {
    if k == 0 then 0
    else Interrupted(queues, ds, k - 1) + Ones(!Acked(queues[k - 1][ds[k - 1].index], ds[k - 1].world))
  }

  lemma LastDelivery(q: seq<Message>, d: Delivery, bound: nat)
    requires AllReadable(q) && AllWithin(q, bound) && d.index < |q|
    ensures 1 + TotalWeight(After(q, d)) <= TotalWeight(q) + if Acked(q[d.index], d.world) then 0 else bound
  {
    assert q[d.index] in q;
    WeightAfter(q, d);
  }

  lemma {:induction false} RunStaysReadable(queues: seq<seq<Message>>, ds: seq<Delivery>, k: nat, bound: nat)
    requires IsRun(queues, ds) && k <= |ds| && AllReadable(queues[0]) && AllWithin(queues[0], bound)
    ensures AllReadable(queues[k]) && AllWithin(queues[k], bound)
  {
    if k > 0 {
      RunStaysReadable(queues, ds, k - 1, bound);
      assert ds[k - 1].index < |queues[k - 1]|;
      ReadableAfter(queues[k - 1], ds[k - 1], bound);
    }
  }

  lemma Distribute(bound: nat, a: nat, b: nat)
    ensures bound * (a + b) == bound * a + bound * b
  {
  }

  lemma OneDeliveryMore(queues: seq<seq<Message>>, ds: seq<Delivery>, k: nat, bound: nat)
    requires IsRun(queues, ds) && 0 < k <= |ds| && AllReadable(queues[0]) && AllWithin(queues[0], bound)
    ensures ds[k - 1].index < |queues[k - 1]|
    ensures 1 + TotalWeight(queues[k])
         <= TotalWeight(queues[k - 1]) + if Acked(queues[k - 1][ds[k - 1].index], ds[k - 1].world) then 0 else bound
  {
    RunStaysReadable(queues, ds, k - 1, bound);
    assert ds[k - 1].index < |queues[k - 1]|;
    LastDelivery(queues[k - 1], ds[k - 1], bound);
  }

  predicate AckedAt(queues: seq<seq<Message>>, ds: seq<Delivery>, i: nat) {
    && i < |ds| && i < |queues| && ds[i].index < |queues[i]|
    && Acked(queues[i][ds[i].index], ds[i].world)
  }

  function WeightAt(queues: seq<seq<Message>>, i: nat): nat {
    if i < |queues| then TotalWeight(queues[i]) else 0
  }

  /** `bound` for every interrupted delivery among the first `k`. */
  function Charged(queues: seq<seq<Message>>, ds: seq<Delivery>, k: nat, bound: nat): nat {
    if k == 0 then 0 else Charged(queues, ds, k - 1, bound) + if AckedAt(queues, ds, k - 1) then 0 else bound
  }

  /** Delivery `i` brings the total weight down, but for what it is charged. */
  ghost predicate Pays(queues: seq<seq<Message>>, ds: seq<Delivery>, i: nat, bound: nat) {
    WeightAt(queues, i + 1) + 1 <= WeightAt(queues, i) + if AckedAt(queues, ds, i) then 0 else bound
  }

  lemma {:induction false} ChargedIs(queues: seq<seq<Message>>, ds: seq<Delivery>, k: nat, bound: nat)
    requires IsRun(queues, ds) && k <= |ds|
    ensures Charged(queues, ds, k, bound) == bound * Interrupted(queues, ds, k)
  {
    if k > 0 {
      ChargedIs(queues, ds, k - 1, bound);
      assert ds[k - 1].index < |queues[k - 1]|;
      Distribute(bound, Interrupted(queues, ds, k - 1), Ones(!Acked(queues[k - 1][ds[k - 1].index], ds[k - 1].world)));
    }
  }

  lemma {:induction false} AllPaid(queues: seq<seq<Message>>, ds: seq<Delivery>, k: nat, bound: nat)
    requires forall i: nat :: i < k ==> Pays(queues, ds, i, bound)
    ensures k + WeightAt(queues, k) <= WeightAt(queues, 0) + Charged(queues, ds, k, bound)
  {
    if k > 0 {
      AllPaid(queues, ds, k - 1, bound);
      assert Pays(queues, ds, k - 1, bound);
    }
  }

  lemma DeliveryPays(queues: seq<seq<Message>>, ds: seq<Delivery>, i: nat, bound: nat)
    requires IsRun(queues, ds) && i < |ds| && AllReadable(queues[0]) && AllWithin(queues[0], bound)
    ensures Pays(queues, ds, i, bound)
  {
    OneDeliveryMore(queues, ds, i + 1, bound);
  }

  /** As long as `x-death` can be read every run of the queue comes to an end: its length is bounded by
      what the first queue was good for, and by the heaviest message for every interrupted delivery.
      Without interruptions the total weight bounds it alone. */
  lemma RunsEnd(queues: seq<seq<Message>>, ds: seq<Delivery>, k: nat, bound: nat)
    requires IsRun(queues, ds) && k <= |ds| && AllReadable(queues[0]) && AllWithin(queues[0], bound)
    ensures k + TotalWeight(queues[k]) <= TotalWeight(queues[0]) + bound * Interrupted(queues, ds, k)
  {
    forall i: nat | i < k ensures Pays(queues, ds, i, bound) {
      DeliveryPays(queues, ds, i, bound);
    }
    AllPaid(queues, ds, k, bound);
    ChargedIs(queues, ds, k, bound);
  }

  /** Counts that are not negative keep every weight within the retry limit. */
  lemma UsualWeights(m: Message)
    requires ReadableDeaths(m.headers) && Count(m.headers) >= 0
    ensures Weight(m) <= MAX_VIEW_RETRIES
  {
    if !ReadableCount(m.headers) {
      CopyIsReadable(m);
      assert Count(NextTry(m).headers) >= 1;
    }
  }

  // ---------- a message that always fails ----------

  /** A run in which counting fails for a passing reason and everything after it works. */
  predicate FailsForNow(m: Message, w: World) {
    && Looked(m, w) && TryEnd(w).Raises? && IsRetryable(TryEnd(w).error)
    && w.rollback.Done? && w.publish.Done? && w.ack.Done?
  }

  /** A queue of one message whose every delivery fails for now. */
  ghost predicate FailingRun(m: Message, queues: seq<seq<Message>>, ds: seq<Delivery>) {
    && IsRun(queues, ds) && queues[0] == [m]
    && forall k {:trigger ds[k]} :: 0 <= k < |ds| ==> FailsForNow(queues[k][ds[k].index], ds[k].world)
  }

  /** What such a delivery leaves: the copy, as long as the count allows another run. */
  lemma FailsOnce(m: Message, d: Delivery)
    requires d.index == 0 && FailsForNow(m, d.world)
    ensures After([m], d) == if Count(m.headers) + 1 < MAX_VIEW_RETRIES then [NextTry(m)] else []
  {
  }

  /** One readable message with this count is left. */
  ghost predicate IsLeftAt(queue: seq<Message>, count: int) {
    && |queue| == 1 && Count(queue[0].headers) == count
    && ReadableDeaths(queue[0].headers) && ReadableCount(queue[0].headers)
  }

  lemma CountRisesOnce(queue: seq<Message>, d: Delivery, count: int)
    requires IsLeftAt(queue, count) && d.index == 0 && FailsForNow(queue[0], d.world)
    ensures if count + 1 < MAX_VIEW_RETRIES then IsLeftAt(After(queue, d), count + 1) else After(queue, d) == []
  {
    assert queue == [queue[0]];
    FailsOnce(queue[0], d);
    ReadableCountsOnceMore(queue[0].headers);
  }

  /** After `k` failures the message is there with a count `k` higher, until it has had its runs. */
  lemma {:induction false} CountRises(m: Message, queues: seq<seq<Message>>, ds: seq<Delivery>, k: nat)
    requires FailingRun(m, queues, ds) && k <= |ds| && ReadableDeaths(m.headers) && ReadableCount(m.headers)
    ensures k <= RunsLeft(m)
    ensures if k == RunsLeft(m) then queues[k] == [] else IsLeftAt(queues[k], Count(m.headers) + k)
  {
    if k > 0 {
      CountRises(m, queues, ds, k - 1);
      assert ds[k - 1].index < |queues[k - 1]|;
      CountRisesOnce(queues[k - 1], ds[k - 1], Count(m.headers) + k - 1);
    }
  }

  /** A message whose headers can be read and that fails every time for now gets exactly as many handler
      runs as its count leaves: no run of the queue is longer, and one is over just then. */
  lemma HandledExactly(m: Message, queues: seq<seq<Message>>, ds: seq<Delivery>)
    requires FailingRun(m, queues, ds) && ReadableDeaths(m.headers) && ReadableCount(m.headers)
    ensures |ds| <= RunsLeft(m)
    ensures queues[|ds|] == [] <==> |ds| == RunsLeft(m)
  {
    CountRises(m, queues, ds, |ds|);
  }

  /** A fresh message that always fails for now is handled exactly three times. */
  lemma FreshMessageIsHandledThreeTimes(m: Message, queues: seq<seq<Message>>, ds: seq<Delivery>)
    requires X_DEATH_HEADER !in m.headers && RETRY_COUNT_HEADER !in m.headers
    requires FailingRun(m, queues, ds)
    ensures |ds| <= 3 && (queues[|ds|] == [] <==> |ds| == 3)
  {
    HandledExactly(m, queues, ds);
  }

  /** A message with an unreadable `x-death` is still in the queue after any number of failures. */
  lemma {:induction false} UnreadableNeverEnds(m: Message, queues: seq<seq<Message>>, ds: seq<Delivery>, k: nat)
    requires FailingRun(m, queues, ds) && k <= |ds| && !ReadableDeaths(m.headers)
    ensures |queues[k]| == 1 && !ReadableDeaths(queues[k][0].headers)
  {
    if k > 0 {
      UnreadableNeverEnds(m, queues, ds, k - 1);
      assert ds[k - 1].index < |queues[k - 1]|;
      var before := queues[k - 1][0];
      assert queues[k - 1] == [before];
      FailsOnce(before, ds[k - 1]);
      UnreadableNeverCounts(before.headers, Count(before.headers) + 1);
    }
  }

  /** Everything works but the commit. */
  function BrokenCommit(): World {
    World(Done, Done, Done, Exists, Done, Done, Raises(OtherError, false), Done, Done, Done, Done)
  }

  /** A failing run can be made one delivery longer as long as the message is there. */
  lemma OneMoreFailure(m: Message, queues: seq<seq<Message>>, ds: seq<Delivery>)
    returns (longer: seq<seq<Message>>, more: seq<Delivery>)
    requires FailingRun(m, queues, ds) && |queues[|ds|]| == 1 && !Blank(queues[|ds|][0].payload.bizId)
    ensures FailingRun(m, longer, more) && |more| == |ds| + 1
    ensures longer[|more|] == After(queues[|ds|], Delivery(0, BrokenCommit()))
  {
    var last, d := queues[|ds|], Delivery(0, BrokenCommit());
    longer, more := queues + [After(last, d)], ds + [d];
    forall k | 0 <= k < |more|
      ensures more[k].index < |longer[k]| && longer[k + 1] == After(longer[k], more[k])
      ensures FailsForNow(longer[k][more[k].index], more[k].world)
    {
      if k < |ds| {
        assert ds[k].index < |queues[k]|;
      }
    }
  }

  lemma {:induction false} PayloadKept(m: Message, queues: seq<seq<Message>>, ds: seq<Delivery>, k: nat)
    requires FailingRun(m, queues, ds) && k <= |ds|
    ensures |queues[k]| <= 1 && forall x :: x in queues[k] ==> x.payload == m.payload
  {
    if k > 0 {
      PayloadKept(m, queues, ds, k - 1);
      assert ds[k - 1].index < |queues[k - 1]|;
      var before := queues[k - 1][0];
      assert queues[k - 1] == [before];
      FailsOnce(before, ds[k - 1]);
    }
  }

  /** From a message that can be counted at all, `n` failures or an empty queue are reached. */
  lemma {:induction false} FailureRunExists(m: Message, n: nat)
    returns (queues: seq<seq<Message>>, ds: seq<Delivery>)
    requires !Blank(m.payload.bizId)
    ensures FailingRun(m, queues, ds) && (|ds| == n || queues[|ds|] == [])
  {
    if n == 0 {
      queues, ds := [[m]], [];
    } else {
      queues, ds := FailureRunExists(m, n - 1);
      PayloadKept(m, queues, ds, |ds|);
      if queues[|ds|] != [] {
        assert queues[|ds|][0] in queues[|ds|];
        queues, ds := OneMoreFailure(m, queues, ds);
      }
    }
  }

  ghost predicate GivenUp(m: Message, queues: seq<seq<Message>>, ds: seq<Delivery>) {
    FailingRun(m, queues, ds) && queues[|ds|] == []
  }

  lemma {:induction false} FailingRunsAreBounded(m: Message, queues: seq<seq<Message>>, ds: seq<Delivery>)
    requires FailingRun(m, queues, ds) && ReadableDeaths(m.headers)
    ensures |ds| <= Weight(m)
  {
    OneMessage(m, queues[0]);
    RunsEnd(queues, ds, |ds|, Weight(m));
    NoInterruptions(m, queues, ds, |ds|);
    assert Weight(m) * 0 == 0;
  }

  lemma OneMessage(m: Message, queue: seq<Message>)
    requires queue == [m] && ReadableDeaths(m.headers)
    ensures AllReadable(queue) && AllWithin(queue, Weight(m)) && TotalWeight(queue) == Weight(m)
  {
    assert TotalWeight(queue) == SumTo(queue, 0, Weight) + Weight(m);
  }

  lemma {:induction false} NoInterruptions(m: Message, queues: seq<seq<Message>>, ds: seq<Delivery>, k: nat)
    requires FailingRun(m, queues, ds) && k <= |ds|
    ensures Interrupted(queues, ds, k) == 0
  {
    if k > 0 {
      NoInterruptions(m, queues, ds, k - 1);
      var d := ds[k - 1];
      assert d.index < |queues[k - 1]|;
    }
  }

  /** The retry limit ends the attempts of a failing message exactly when reading its `x-death` raises no
      error. */
  lemma LimitWorksIffDeathsAreReadable(m: Message)
    requires !Blank(m.payload.bizId)
    ensures (exists queues: seq<seq<Message>>, ds: seq<Delivery> :: GivenUp(m, queues, ds)) <==> ReadableDeaths(m.headers)
  {
    if ReadableDeaths(m.headers) {
      var queues, ds := FailureRunExists(m, Weight(m) + 1);
      FailingRunsAreBounded(m, queues, ds);
      assert GivenUp(m, queues, ds);
    } else {
      forall queues: seq<seq<Message>>, ds: seq<Delivery> | FailingRun(m, queues, ds) ensures !GivenUp(m, queues, ds) {
        UnreadableNeverEnds(m, queues, ds, |ds|);
      }
    }
  }
}
