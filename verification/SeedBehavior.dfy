/** Seeding feed behaviour and taking it back: `scripts/seed_feed_behavior.py`. What is shown to whom,
    and how each viewer reacts, is drawn at random there and is a parameter here. */
module SeedBehavior {
  import opened Text
  import opened Wrappers

  const FIRST_VIEWER := 800000000
  const FLUSH_AT := 2000

  datatype Kind = Impression | Click

  datatype Event = Event(viewerKey: string, bizId: int, kind: Kind, position: nat)

  /** One row of likes, or of favourites. */
  datatype Mark = Mark(mid: int, bizId: int)

  /** The counters that seeding moves, and the others of the row. */
  datatype Stat = Stat(like: int, favorite: int, view: int, comment: int)

  datatype Saved = Saved(bizId: int, like: int, favorite: int, view: int)

  /** What a viewer is shown at one position and the strength of the reaction, 0 to 3. */
  datatype Shown = Shown(bizId: int, strength: int)

  /** One position of one request of one viewer. */
  datatype Visit = Visit(mid: int, position: nat, shown: Shown)

  function ViewerKey(mid: int): string
    requires mid >= 0
  {
    "mid:" + Decimal(mid)
  }

  /** `viewerKey LIKE 'seed:%'` */
  predicate CleanedKey(key: string) {
    |key| >= 5 && key[..5] == "seed:"
  }

  // ---------- what the visits amount to ----------

  /** The events of the first `n` visits: an impression each, and a click for a reaction. */
  function EventsOf(visits: seq<Visit>, n: nat): seq<Event>
    requires n <= |visits| && forall i :: 0 <= i < n ==> visits[i].mid >= 0
  {
    if n == 0 then []
    else EventsOf(visits, n - 1) + NewEvents(visits[n - 1])
  }

  /** The events of one visit: the impression, and a click with any reaction. */
  function NewEvents(v: Visit): seq<Event>
    requires v.mid >= 0
  {
    [Event(ViewerKey(v.mid), v.shown.bizId, Impression, v.position)]
    + if v.shown.strength == 0 then [] else [Event(ViewerKey(v.mid), v.shown.bizId, Click, v.position)]
  }

  function Positives(visits: seq<Visit>, n: nat): nat
    requires n <= |visits|
  {
    if n == 0 then 0 else Positives(visits, n - 1) + if visits[n - 1].shown.strength == 0 then 0 else 1
  }

  function MarkOf(v: Visit): Mark {
    Mark(v.mid, v.shown.bizId)
  }

  /** The rows that reactions of one strength leave among the first `n` visits: a viewer marks a
      resource only once. Likes have strength 1 and favourites 3. */
  function MarksOf(visits: seq<Visit>, n: nat, strength: int): seq<Mark>
    requires n <= |visits|
  {
    if n == 0 then []
    else
      var before, v := MarksOf(visits, n - 1, strength), visits[n - 1];
      if v.shown.strength == strength && MarkOf(v) !in before then before + [MarkOf(v)] else before
  }

  /** The new row of visit `n`, if it leaves one. */
  predicate Leaves(visits: seq<Visit>, n: nat, strength: int)
    requires n < |visits|
  {
    visits[n].shown.strength == strength && MarkOf(visits[n]) !in MarksOf(visits, n, strength)
  }

  function One(b: bool): int {
    if b then 1 else 0
  }

  /** `_upsert_stat` */
  function Upserted(stats: map<int, Stat>, bizId: int, like: int, favorite: int, view: int): map<int, Stat> {
    if bizId in stats then
      var s := stats[bizId];
      stats[bizId := s.(like := s.like + like, favorite := s.favorite + favorite, view := s.view + view)]
    else stats[bizId := Stat(like, favorite, view, 0)]
  }

  /** The counters after the first `n` visits. */
  function StatsAfter(stats: map<int, Stat>, visits: seq<Visit>, n: nat): map<int, Stat>
    requires n <= |visits|
  {
    if n == 0 then stats
    else
      var before, v := StatsAfter(stats, visits, n - 1), visits[n - 1];
      if v.shown.strength == 0 then before
      else Upserted(before, v.shown.bizId, One(Leaves(visits, n - 1, 1)), One(Leaves(visits, n - 1, 3)), 1)
  }

  /** The row that visit `n` leaves. */
  function NewMark(visits: seq<Visit>, n: nat, strength: int): seq<Mark>
    requires n < |visits|
  {
    if Leaves(visits, n, strength) then [MarkOf(visits[n])] else []
  }

  // ---------- what cleaning does ----------

  /** What a DELETE leaves among the first `n` rows. */
  function Filtered<T>(rows: seq<T>, n: nat, keep: T -> bool): seq<T>
    requires n <= |rows|
  {
    if n == 0 then [] else Filtered(rows, n - 1, keep) + if keep(rows[n - 1]) then [rows[n - 1]] else []
  }

  function NotCleaned(): Event -> bool {
    (e: Event) => !CleanedKey(e.viewerKey)
  }

  function OfRealUser(): Mark -> bool {
    (m: Mark) => m.mid < FIRST_VIEWER
  }

  /** The events among the first `n` that `clean` leaves. */
  function EventsKept(events: seq<Event>, n: nat): seq<Event>
    requires n <= |events|
  {
    Filtered(events, n, NotCleaned())
  }

  /** The rows among the first `n` that `clean` leaves: those of real users. */
  function MarksKept(marks: seq<Mark>, n: nat): seq<Mark>
    requires n <= |marks|
  {
    Filtered(marks, n, OfRealUser())
  }

  /** A row stays as often as it was there, or goes altogether. */
  lemma {:induction false} FilteredCount<T>(rows: seq<T>, n: nat, keep: T -> bool, row: T)
    requires n <= |rows|
    ensures multiset(Filtered(rows, n, keep))[row] == if keep(row) then multiset(rows[..n])[row] else 0
  {
    if n > 0 {
      FilteredCount(rows, n - 1, keep, row);
      TakenCount(rows, n, row);
    }
  }

  lemma TakenCount<T>(rows: seq<T>, n: nat, row: T)
    requires 0 < n <= |rows|
    ensures multiset(rows[..n])[row] == multiset(rows[..n - 1])[row] + if rows[n - 1] == row then 1 else 0
  {
    assert rows[..n] == rows[..n - 1] + [rows[n - 1]];
  }

  /** The rows that stay keep their order: `at` says where each stood. */
  lemma {:induction false} FilteredOrder<T>(rows: seq<T>, n: nat, keep: T -> bool) returns (at: seq<nat>)
    requires n <= |rows|
    ensures SelectsBelow(Filtered(rows, n, keep), rows, at, n)
  {
    at := [];
    if n > 0 {
      at := FilteredOrder(rows, n - 1, keep);
      at := FilteredOnce(rows, n - 1, keep, at);
    }
  }

  lemma FilteredOnce<T>(rows: seq<T>, p: nat, keep: T -> bool, at: seq<nat>) returns (more: seq<nat>)
    requires p < |rows| && SelectsBelow(Filtered(rows, p, keep), rows, at, p)
    ensures SelectsBelow(Filtered(rows, p + 1, keep), rows, more, p + 1)
  {
    OneMoreSelected(Filtered(rows, p, keep), rows, at, p);
    more := if keep(rows[p]) then at + [p] else at;
  }

  ghost predicate SelectsBelow<T>(kept: seq<T>, rows: seq<T>, at: seq<nat>, n: nat) {
    IsSelection(kept, rows, at) && forall i :: 0 <= i < |at| ==> at[i] < n
  }

  lemma OneMoreSelected<T>(kept: seq<T>, rows: seq<T>, at: seq<nat>, p: nat)
    requires SelectsBelow(kept, rows, at, p) && p < |rows|
    ensures SelectsBelow(kept + [rows[p]], rows, at + [p], p + 1) && SelectsBelow(kept + [], rows, at, p + 1)
  {
    assert kept + [] == kept;
  }

  /** The key of an event that cleaning is meant for. */
  predicate IsSeedKey(key: string) {
    |key| >= 5 && key[0] == 's' && key[1] == 'e' && key[2] == 'e' && key[3] == 'd' && key[4] == ':'
  }

  lemma CleanedKeyIs(key: string)
    ensures CleanedKey(key) <==> IsSeedKey(key)
  {
    if |key| >= 5 {
      assert key[..5] == [key[0], key[1], key[2], key[3], key[4]];
    }
  }

  /** What real users have marked is there as often as before, and nothing else is. */
  ghost predicate RealMarksStay(before: seq<Mark>, after: seq<Mark>) {
    forall m :: multiset(after)[m] == if m.mid < 800000000 then multiset(before)[m] else 0
  }

  ghost predicate OtherEventsStay(before: seq<Event>, after: seq<Event>) {
    forall e :: multiset(after)[e] == if IsSeedKey(e.viewerKey) then 0 else multiset(before)[e]
  }

  lemma MarksKeptExactly(marks: seq<Mark>)
    ensures RealMarksStay(marks, MarksKept(marks, |marks|))
  {
    assert marks[..|marks|] == marks;
    forall m ensures multiset(MarksKept(marks, |marks|))[m] == if m.mid < 800000000 then multiset(marks)[m] else 0 {
      FilteredCount(marks, |marks|, OfRealUser(), m);
    }
  }

  lemma EventsKeptExactly(events: seq<Event>)
    ensures OtherEventsStay(events, EventsKept(events, |events|))
  {
    assert events[..|events|] == events;
    forall e
      ensures multiset(EventsKept(events, |events|))[e] == if IsSeedKey(e.viewerKey) then 0 else multiset(events)[e]
    {
      FilteredCount(events, |events|, NotCleaned(), e);
      CleanedKeyIs(e.viewerKey);
    }
  }

  /** Both keep the old order. */
  lemma KeptInOrder(events: seq<Event>, marks: seq<Mark>) returns (eventsAt: seq<nat>, marksAt: seq<nat>)
    ensures IsSelection(EventsKept(events, |events|), events, eventsAt)
    ensures IsSelection(MarksKept(marks, |marks|), marks, marksAt)
  {
    eventsAt := FilteredOrder(events, |events|, NotCleaned());
    marksAt := FilteredOrder(marks, |marks|, OfRealUser());
  }

  /** `kept` are the rows at the positions `at`, in the order of `rows`. */
  ghost predicate IsSelection<T>(kept: seq<T>, rows: seq<T>, at: seq<nat>) {
    && |at| == |kept|
    && forall i :: 0 <= i < |at| ==> at[i] < |rows| && kept[i] == rows[at[i]] && (i > 0 ==> at[i - 1] < at[i])
  }

  /** `UPDATE TInteractionStat SET ...`: writes the saved counters into the row, if there is one. */
  function WriteBack(stats: map<int, Stat>, row: Saved): map<int, Stat> {
    if row.bizId in stats
    then stats[row.bizId := stats[row.bizId].(like := row.like, favorite := row.favorite, view := row.view)]
    else stats
  }

  /** The counters after the first `n` saved rows are written back. */
  function Restored(stats: map<int, Stat>, backup: seq<Saved>, n: nat): map<int, Stat>
    requires n <= |backup|
  {
    if n == 0 then stats else WriteBack(Restored(stats, backup, n - 1), backup[n - 1])
  }

  function SavedOf(bizId: int, s: Stat): Saved {
    Saved(bizId, s.like, s.favorite, s.view)
  }

  predicate SavesStat(row: Saved, stats: map<int, Stat>) {
    row.bizId in stats && row == SavedOf(row.bizId, stats[row.bizId])
  }

  predicate HasRow(rows: seq<Saved>, bizId: int) {
    exists k :: 0 <= k < |rows| && rows[k].bizId == bizId
  }

  /** `rows` save the counters of exactly the given resources that have any. */
  ghost predicate IsBackup(rows: seq<Saved>, stats: map<int, Stat>, ids: seq<int>) {
    && (forall k :: 0 <= k < |rows| ==> rows[k].bizId in ids && SavesStat(rows[k], stats))
    && (forall id :: id in ids && id in stats ==> HasRow(rows, id))
  }

  lemma BackupStep(rows: seq<Saved>, stats: map<int, Stat>, ids: seq<int>, id: int)
    requires IsBackup(rows, stats, ids)
    ensures IsBackup(if id in stats then rows + [SavedOf(id, stats[id])] else rows, stats, ids + [id])
  {
    if id in stats {
      var more := rows + [SavedOf(id, stats[id])];
      assert more[|rows|].bizId == id;
      forall other | other in ids && other in stats ensures HasRow(more, other) {
        var k :| 0 <= k < |rows| && rows[k].bizId == other;
        assert more[k].bizId == other;
      }
    }
  }

  // ---------- the database ----------

  class Database {
    var events: seq<Event>
    var likes: seq<Mark>
    var favorites: seq<Mark>
    var stats: map<int, Stat>
    var backup: seq<Saved>

    constructor (events: seq<Event>, likes: seq<Mark>, favorites: seq<Mark>, stats: map<int, Stat>, backup: seq<Saved>)
      ensures this.events == events && this.likes == likes && this.favorites == favorites
      ensures this.stats == stats && this.backup == backup
    {
      this.events, this.likes, this.favorites := events, likes, favorites;
      this.stats, this.backup := stats, backup;
    }

    /** The DELETE statements of `clean`. */
    method DeleteSeeded()
      modifies this`events, this`likes, this`favorites
      ensures events == EventsKept(old(events), |old(events)|) && OtherEventsStay(old(events), events)
      ensures likes == MarksKept(old(likes), |old(likes)|) && RealMarksStay(old(likes), likes)
      ensures favorites == MarksKept(old(favorites), |old(favorites)|) && RealMarksStay(old(favorites), favorites)
    {
      EventsKeptExactly(events);
      MarksKeptExactly(likes);
      MarksKeptExactly(favorites);
      events := EventsKept(events, |events|);
      likes := MarksKept(likes, |likes|);
      favorites := MarksKept(favorites, |favorites|);
    }

    /** `clean`: deletes rows by their keys and writes the saved counters back. */
    method Clean()
      modifies this
      ensures events == EventsKept(old(events), |old(events)|)
      ensures likes == MarksKept(old(likes), |old(likes)|) && favorites == MarksKept(old(favorites), |old(favorites)|)
      ensures OtherEventsStay(old(events), events)
      ensures RealMarksStay(old(likes), likes) && RealMarksStay(old(favorites), favorites)
      ensures stats == Restored(old(stats), old(backup), |old(backup)|)
      ensures backup == []
    {
      DeleteSeeded();
      RestoreStats();
      backup := [];
    }

    /** The loop of `clean` over the saved counters. */
    method RestoreStats()
      modifies this`stats
      ensures stats == Restored(old(stats), backup, |backup|)
    {
      var restored := stats;
      for k := 0 to |backup|
        invariant restored == Restored(stats, backup, k)
      {
        restored := WriteBack(restored, backup[k]);
      }
      stats := restored;
    }

    /** `_backup_stats`; with no ids the file is left alone. */
    method BackupStats(ids: seq<int>)
      modifies this`backup
      ensures ids == [] ==> backup == old(backup)
      ensures ids != [] ==> IsBackup(backup, stats, ids)
    {
      if ids == [] {
        return;
      }
      var rows: seq<Saved> := [];
      for k := 0 to |ids|
        invariant IsBackup(rows, stats, ids[..k])
      {
        var id := ids[k];
        BackupStep(rows, stats, ids[..k], id);
        assert ids[..k + 1] == ids[..k] + [id];
        if id in stats {
          rows := rows + [SavedOf(id, stats[id])];
        }
      }
      assert ids[..|ids|] == ids;
      backup := rows;
    }

    /** One visit: the body of the innermost loop. `liked` and `favorited` are the viewer's own sets. */
    method See(ghost visits: seq<Visit>, ghost n: nat, v: Visit, liked: set<int>, favorited: set<int>)
      returns (liked': set<int>, favorited': set<int>)
      requires n < |visits| && visits[n] == v
      requires IsOwnSet(liked, v.mid, visits, n, 1) && IsOwnSet(favorited, v.mid, visits, n, 3)
      modifies this`likes, this`favorites, this`stats
      ensures likes == old(likes) + NewMark(visits, n, 1) && favorites == old(favorites) + NewMark(visits, n, 3)
      ensures stats == if v.shown.strength == 0 then old(stats)
                       else Upserted(old(stats), v.shown.bizId, One(Leaves(visits, n, 1)), One(Leaves(visits, n, 3)), 1)
      ensures IsOwnSet(liked', v.mid, visits, n + 1, 1) && IsOwnSet(favorited', v.mid, visits, n + 1, 3)
    {
      liked', favorited' := liked, favorited;
      var bizId, strength := v.shown.bizId, v.shown.strength;
      if strength == 0 {
        return;
      }
      if strength == 1 && bizId in liked {
        strength := 2;
      }
      if strength == 3 && bizId in favorited {
        strength := 2;
      }
      if strength == 1 {
        liked' := liked + {bizId};
        likes := likes + [Mark(v.mid, bizId)];
        stats := Upserted(stats, bizId, 1, 0, 1);
      } else if strength == 3 {
        favorited' := favorited + {bizId};
        favorites := favorites + [Mark(v.mid, bizId)];
        stats := Upserted(stats, bizId, 0, 1, 1);
      } else {
        stats := Upserted(stats, bizId, 0, 0, 1);
      }
    }

    /** What is stored, with the events that are not yet flushed. */
    ghost function Now(pending: seq<Event>): Snapshot
      reads this
    {
      Snapshot(events + pending, likes, favorites, stats)
    }

    /** One request: the visits of a batch. `n` counts the impressions. */
    method ShowBatch(ghost all: seq<Visit>, ghost start: Snapshot, mid: int, batch: seq<Shown>,
                     pending: seq<Event>, liked: set<int>, favorited: set<int>, n: nat, positives: nat)
      returns (pending': seq<Event>, liked': set<int>, favorited': set<int>, n': nat, positives': nat)
      requires mid >= FIRST_VIEWER && AreAt(BatchVisits(mid, batch), all, n)
      requires Progress(all, n, positives, start, Now(pending))
      requires IsOwnSet(liked, mid, all, n, 1) && IsOwnSet(favorited, mid, all, n, 3)
      modifies this`likes, this`favorites, this`stats
      ensures n' == n + |batch| <= |all| && Progress(all, n', positives', start, Now(pending'))
      ensures IsOwnSet(liked', mid, all, n', 1) && IsOwnSet(favorited', mid, all, n', 3)
    {
      pending', liked', favorited', n', positives' := pending, liked, favorited, n, positives;
      for p := 0 to |batch|
        invariant n' == n + p && Progress(all, n', positives', start, Now(pending'))
        invariant IsOwnSet(liked', mid, all, n', 1) && IsOwnSet(favorited', mid, all, n', 3)
      {
        var visit := Visit(mid, p, batch[p]);
        assert visit == BatchVisits(mid, batch)[p];
        ghost var before, k, seen := Now(pending'), n', positives';
        var more := [Event(ViewerKey(mid), visit.shown.bizId, Impression, p)];
        n' := n' + 1;
        if visit.shown.strength != 0 {
          positives' := positives' + 1;
          more := more + [Event(ViewerKey(mid), visit.shown.bizId, Click, p)];
        }
        liked', favorited' := See(all, k, visit, liked', favorited');
        assert events + (pending' + more) == events + pending' + more;
        pending' := pending' + more;
        OneMoreVisit(all, k, seen, start, before, Now(pending'), more);
      }
    }

    /** Writes the collected events once there are enough of them. */
    method Flush(pending: seq<Event>) returns (pending': seq<Event>)
      modifies this`events
      ensures Now(pending') == old(Now(pending))
    {
      pending' := pending;
      if |pending| >= FLUSH_AT {
        events := events + pending;
        pending' := [];
        assert events + pending' == events;
      }
    }

    /** One request of a viewer and the flush after it. */
    method ShowRequest(ghost all: seq<Visit>, ghost start: Snapshot, mid: int, requests: seq<seq<Shown>>, s: nat,
                       pending: seq<Event>, liked: set<int>, favorited: set<int>, n: nat, positives: nat)
      returns (pending': seq<Event>, liked': set<int>, favorited': set<int>, n': nat, positives': nat)
      requires mid >= FIRST_VIEWER && s < |requests| && n >= |ViewerVisits(mid, requests, s)|
      requires AreAt(ViewerVisits(mid, requests, |requests|), all, n - |ViewerVisits(mid, requests, s)|)
      requires Progress(all, n, positives, start, Now(pending))
      requires IsOwnSet(liked, mid, all, n, 1) && IsOwnSet(favorited, mid, all, n, 3)
      modifies this`events, this`likes, this`favorites, this`stats
      ensures n' == n + |requests[s]| <= |all|
      ensures |ViewerVisits(mid, requests, s + 1)| == |ViewerVisits(mid, requests, s)| + |requests[s]|
      ensures Progress(all, n', positives', start, Now(pending'))
      ensures IsOwnSet(liked', mid, all, n', 1) && IsOwnSet(favorited', mid, all, n', 3)
    {
      BatchFits(mid, requests, s, all, n - |ViewerVisits(mid, requests, s)|);
      pending', liked', favorited', n', positives' :=
        ShowBatch(all, start, mid, requests[s], pending, liked, favorited, n, positives);
      pending' := Flush(pending');
    }

    /** All requests of one viewer. */
    method ShowViewer(ghost all: seq<Visit>, ghost start: Snapshot, mid: int, requests: seq<seq<Shown>>,
                      pending: seq<Event>, n: nat, positives: nat)
      returns (pending': seq<Event>, n': nat, positives': nat)
      requires mid >= FIRST_VIEWER && AreAt(ViewerVisits(mid, requests, |requests|), all, n)
      requires Progress(all, n, positives, start, Now(pending))
      requires IsOwnSet({}, mid, all, n, 1) && IsOwnSet({}, mid, all, n, 3)
      modifies this`events, this`likes, this`favorites, this`stats
      ensures n' == n + |ViewerVisits(mid, requests, |requests|)| <= |all|
      ensures Progress(all, n', positives', start, Now(pending'))
    {
      pending', n', positives' := pending, n, positives;
      var liked: set<int>, favorited: set<int> := {}, {};
      for s := 0 to |requests|
        invariant n' == n + |ViewerVisits(mid, requests, s)| <= |all|
        invariant Progress(all, n', positives', start, Now(pending'))
        invariant IsOwnSet(liked, mid, all, n', 1) && IsOwnSet(favorited, mid, all, n', 3)
      {
        pending', liked, favorited, n', positives' :=
          ShowRequest(all, start, mid, requests, s, pending', liked, favorited, n', positives');
      }
    }

    /** `seed`: takes back the run before, saves the counters of the moments, and runs. Without moments it
        does nothing at all. */
    method CleanAndSeed(moments: seq<int>, requests: seq<seq<seq<Shown>>>) returns (counts: Option<(nat, nat)>)
      modifies this
      ensures moments == [] ==> counts == None && Now([]) == old(Now([])) && backup == old(backup)
      ensures moments != [] ==>
                var start := Cleaned(old(Now([])), old(backup));
                && counts.Some? && counts.value.0 == |VisitsOf(requests, |requests|)|
                && IsBackup(backup, start.stats, moments)
                && Progress(VisitsOf(requests, |requests|), counts.value.0, counts.value.1, start, Now([]))
    {
      if moments == [] {
        return None;
      }
      Clean();
      BackupStats(moments);
      assert EventsKept(old(events), |old(events)|) + [] == EventsKept(old(events), |old(events)|);
      assert old(events) + [] == old(events);
      assert Now([]) == Cleaned(old(Now([])), old(backup));
      var impressions, positives := Seed(requests);
      counts := Some((impressions, positives));
    }

    /** The loops of `seed`: `requests[v][s]` is what viewer `v` is shown in request `s`. Every event is
        written once. */
    method Seed(requests: seq<seq<seq<Shown>>>) returns (impressions: nat, positives: nat)
      modifies this`events, this`likes, this`favorites, this`stats
      ensures Progress(VisitsOf(requests, |requests|), impressions, positives, old(Now([])), Now([]))
      ensures impressions == |VisitsOf(requests, |requests|)|
    {
      ghost var all, start := VisitsOf(requests, |requests|), Now([]);
      VisitsAreViewers(requests, |requests|);
      var pending: seq<Event> := [];
      impressions, positives := 0, 0;
      for v := 0 to |requests|
        invariant impressions == |VisitsOf(requests, v)| <= |all|
        invariant Progress(all, impressions, positives, start, Now(pending))
      {
        NewViewer(requests, v, 1);
        NewViewer(requests, v, 3);
        ViewerFits(requests, v);
        pending, impressions, positives :=
          ShowViewer(all, start, FIRST_VIEWER + v, requests[v], pending, impressions, positives);
      }
      events := events + pending;
      assert events + [] == events;
    }
  }

  /** What `clean` makes of the tables. */
  function Cleaned(s: Snapshot, backup: seq<Saved>): Snapshot {
    Snapshot(EventsKept(s.events, |s.events|), MarksKept(s.likes, |s.likes|), MarksKept(s.favorites, |s.favorites|),
             Restored(s.stats, backup, |backup|))
  }

  /** What a run writes to. */
  datatype Snapshot = Snapshot(events: seq<Event>, likes: seq<Mark>, favorites: seq<Mark>, stats: map<int, Stat>)

  /** The viewer's own set of resources marked so far. */
  ghost predicate IsOwnSet(own: set<int>, mid: int, visits: seq<Visit>, n: nat, strength: int)
    requires n <= |visits|
  {
    forall b :: b in own <==> Mark(mid, b) in MarksOf(visits, n, strength)
  }

  /** The state after the first `n` visits. */
  ghost predicate Progress(all: seq<Visit>, n: nat, positives: nat, start: Snapshot, now: Snapshot) {
    && n <= |all| && AllViewers(all)
    && positives == Positives(all, n)
    && now.events == start.events + EventsOf(all, n)
    && now.likes == start.likes + MarksOf(all, n, 1) && now.favorites == start.favorites + MarksOf(all, n, 3)
    && now.stats == StatsAfter(start.stats, all, n)
  }

  /** What one more visit adds. */
  lemma OneMoreVisit(all: seq<Visit>, n: nat, positives: nat, start: Snapshot, before: Snapshot, now: Snapshot,
                     more: seq<Event>)
    requires n < |all| && Progress(all, n, positives, start, before)
    requires more == NewEvents(all[n])
    requires now.stats == if all[n].shown.strength == 0 then before.stats
                          else Upserted(before.stats, all[n].shown.bizId, One(Leaves(all, n, 1)), One(Leaves(all, n, 3)), 1)
    requires now.events == before.events + more
    requires now.likes == before.likes + NewMark(all, n, 1) && now.favorites == before.favorites + NewMark(all, n, 3)
    ensures Progress(all, n + 1, positives + if all[n].shown.strength == 0 then 0 else 1, start, now)
  {
  }

  /** `part` is a stretch of `all`, from number `n` on. */
  ghost predicate AreAt(part: seq<Visit>, all: seq<Visit>, n: nat) {
    n + |part| <= |all| && forall i {:trigger part[i]} :: 0 <= i < |part| ==> all[n + i] == part[i]
  }

  ghost predicate AllViewers(visits: seq<Visit>) {
    forall i :: 0 <= i < |visits| ==> visits[i].mid >= FIRST_VIEWER
  }

  // ---------- the visits of a run, in order ----------

  function BatchVisits(mid: int, batch: seq<Shown>): seq<Visit> {
    seq(|batch|, p requires 0 <= p < |batch| => Visit(mid, p, batch[p]))
  }

  function ViewerVisits(mid: int, requests: seq<seq<Shown>>, s: nat): seq<Visit>
    requires s <= |requests|
  {
    if s == 0 then [] else ViewerVisits(mid, requests, s - 1) + BatchVisits(mid, requests[s - 1])
  }

  function VisitsOf(requests: seq<seq<seq<Shown>>>, v: nat): seq<Visit>
    requires v <= |requests|
  {
    if v == 0 then []
    else VisitsOf(requests, v - 1) + ViewerVisits(FIRST_VIEWER + v - 1, requests[v - 1], |requests[v - 1]|)
  }

  lemma {:induction false} ViewerVisitsGrow(mid: int, requests: seq<seq<Shown>>, s: nat, s': nat)
    requires s <= s' <= |requests|
    ensures |ViewerVisits(mid, requests, s)| <= |ViewerVisits(mid, requests, s')|
    ensures forall i :: 0 <= i < |ViewerVisits(mid, requests, s)| ==>
              ViewerVisits(mid, requests, s')[i] == ViewerVisits(mid, requests, s)[i]
  {
    if s < s' {
      ViewerVisitsGrow(mid, requests, s, s' - 1);
    }
  }

  lemma {:induction false} ViewerVisitsAreHis(mid: int, requests: seq<seq<Shown>>, s: nat)
    requires s <= |requests|
    ensures forall i :: 0 <= i < |ViewerVisits(mid, requests, s)| ==> ViewerVisits(mid, requests, s)[i].mid == mid
  {
    if s > 0 {
      ViewerVisitsAreHis(mid, requests, s - 1);
    }
  }

  lemma {:induction false} VisitsGrow(requests: seq<seq<seq<Shown>>>, v: nat, v': nat)
    requires v <= v' <= |requests|
    ensures |VisitsOf(requests, v)| <= |VisitsOf(requests, v')|
    ensures forall i :: 0 <= i < |VisitsOf(requests, v)| ==> VisitsOf(requests, v')[i] == VisitsOf(requests, v)[i]
  {
    if v < v' {
      VisitsGrow(requests, v, v' - 1);
    }
  }

  /** The visits of the first `v` viewers are theirs. */
  lemma {:induction false} VisitsAreViewers(requests: seq<seq<seq<Shown>>>, v: nat)
    requires v <= |requests|
    ensures forall i :: 0 <= i < |VisitsOf(requests, v)| ==>
              FIRST_VIEWER <= VisitsOf(requests, v)[i].mid < FIRST_VIEWER + v
  {
    if v > 0 {
      VisitsAreViewers(requests, v - 1);
      ViewerVisitsAreHis(FIRST_VIEWER + v - 1, requests[v - 1], |requests[v - 1]|);
    }
  }

  lemma {:induction false} MarksAreVisits(visits: seq<Visit>, n: nat, strength: int, m: Mark)
    requires n <= |visits| && m in MarksOf(visits, n, strength)
    ensures exists i :: 0 <= i < n && MarkOf(visits[i]) == m && visits[i].shown.strength == strength
  {
    if m !in MarksOf(visits, n - 1, strength) {
      assert MarkOf(visits[n - 1]) == m;
    } else {
      MarksAreVisits(visits, n - 1, strength, m);
    }
  }

  lemma NotMarked(requests: seq<seq<seq<Shown>>>, v: nat, strength: int, b: int)
    requires v < |requests| && |VisitsOf(requests, v)| <= |VisitsOf(requests, |requests|)|
    ensures Mark(FIRST_VIEWER + v, b) !in MarksOf(VisitsOf(requests, |requests|), |VisitsOf(requests, v)|, strength)
  {
    var all, n, m := VisitsOf(requests, |requests|), |VisitsOf(requests, v)|, Mark(FIRST_VIEWER + v, b);
    VisitsGrow(requests, v, |requests|);
    VisitsAreViewers(requests, v);
    if m in MarksOf(all, n, strength) {
      MarksAreVisits(all, n, strength, m);
    }
  }

  /** A new viewer has marked nothing. */
  lemma NewViewer(requests: seq<seq<seq<Shown>>>, v: nat, strength: int)
    requires v < |requests|
    ensures |VisitsOf(requests, v)| <= |VisitsOf(requests, |requests|)|
    ensures IsOwnSet({}, FIRST_VIEWER + v, VisitsOf(requests, |requests|), |VisitsOf(requests, v)|, strength)
  {
    VisitsGrow(requests, v, |requests|);
    forall b: int {:trigger Mark(FIRST_VIEWER + v, b)}
      ensures Mark(FIRST_VIEWER + v, b) !in MarksOf(VisitsOf(requests, |requests|), |VisitsOf(requests, v)|, strength)
    {
      NotMarked(requests, v, strength, b);
    }
  }

  lemma BatchFits(mid: int, requests: seq<seq<Shown>>, s: nat, all: seq<Visit>, n: nat)
    requires s < |requests| && AreAt(ViewerVisits(mid, requests, |requests|), all, n)
    ensures var k := |ViewerVisits(mid, requests, s)|;
            && |ViewerVisits(mid, requests, s + 1)| == k + |requests[s]|
            && AreAt(BatchVisits(mid, requests[s]), all, n + k)
  {
    var k, whole, part := |ViewerVisits(mid, requests, s)|, ViewerVisits(mid, requests, |requests|), BatchVisits(mid, requests[s]);
    ViewerVisitsGrow(mid, requests, s + 1, |requests|);
    forall p | 0 <= p < |part| ensures all[n + k + p] == part[p] {
      assert ViewerVisits(mid, requests, s + 1)[k + p] == part[p];
      assert whole[k + p] == part[p];
      assert n + (k + p) == n + k + p;
    }
  }

  lemma ViewerFits(requests: seq<seq<seq<Shown>>>, v: nat)
    requires v < |requests|
    ensures AreAt(ViewerVisits(FIRST_VIEWER + v, requests[v], |requests[v]|), VisitsOf(requests, |requests|),
                  |VisitsOf(requests, v)|)
    ensures |VisitsOf(requests, v + 1)|
         == |VisitsOf(requests, v)| + |ViewerVisits(FIRST_VIEWER + v, requests[v], |requests[v]|)|
  {
    VisitsGrow(requests, v + 1, |requests|);
    var part, n := ViewerVisits(FIRST_VIEWER + v, requests[v], |requests[v]|), |VisitsOf(requests, v)|;
    forall i | 0 <= i < |part| ensures VisitsOf(requests, |requests|)[n + i] == part[i] {
      assert VisitsOf(requests, v + 1)[n + i] == part[i];
    }
  }

  // ---------- what a run writes ----------

  /** A viewer likes, or favours, a resource at most once. */
  lemma {:induction false} MarkedOnce(visits: seq<Visit>, n: nat, strength: int)
    requires n <= |visits|
    ensures forall i, j :: 0 <= i < j < |MarksOf(visits, n, strength)| ==>
              MarksOf(visits, n, strength)[i] != MarksOf(visits, n, strength)[j]
  {
    if n > 0 {
      MarkedOnce(visits, n - 1, strength);
    }
  }

  /** A resource is marked by every viewer who ever reacts to it that way, not only by the first. */
  lemma {:induction false} MarkedByAll(visits: seq<Visit>, n: nat, strength: int, m: Mark)
    requires n <= |visits|
    ensures m in MarksOf(visits, n, strength)
       <==> exists i :: 0 <= i < n && MarkOf(visits[i]) == m && visits[i].shown.strength == strength
  {
    if n > 0 {
      MarkedByAll(visits, n - 1, strength, m);
      if MarkOf(visits[n - 1]) == m && visits[n - 1].shown.strength == strength {
        assert m in MarksOf(visits, n, strength);
      }
    }
  }

  /** The rows of one resource. */
  function RowsFor(marks: seq<Mark>, n: nat, bizId: int): nat
    requires n <= |marks|
  {
    if n == 0 then 0 else RowsFor(marks, n - 1, bizId) + if marks[n - 1].bizId == bizId then 1 else 0
  }

  /** The reactions to one resource among the first `n` visits. */
  function PositivesFor(visits: seq<Visit>, n: nat, bizId: int): nat
    requires n <= |visits|
  {
    if n == 0 then 0
    else PositivesFor(visits, n - 1, bizId)
         + if visits[n - 1].shown.strength != 0 && visits[n - 1].shown.bizId == bizId then 1 else 0
  }

  lemma {:induction false} RowsForPrefix(marks: seq<Mark>, more: seq<Mark>, n: nat, bizId: int)
    requires n <= |marks|
    ensures RowsFor(marks + more, n, bizId) == RowsFor(marks, n, bizId)
  {
    if n > 0 {
      RowsForPrefix(marks, more, n - 1, bizId);
    }
  }

  /** The rows that the first `n` visits leave for a resource. */
  function RowsLeft(visits: seq<Visit>, n: nat, strength: int, bizId: int): nat
    requires n <= |visits|
  {
    RowsFor(MarksOf(visits, n, strength), |MarksOf(visits, n, strength)|, bizId)
  }

  lemma RowsForStep(visits: seq<Visit>, n: nat, strength: int, bizId: int)
    requires n < |visits|
    ensures RowsLeft(visits, n + 1, strength, bizId)
         == RowsLeft(visits, n, strength, bizId) + One(Leaves(visits, n, strength) && visits[n].shown.bizId == bizId)
  {
    var before := MarksOf(visits, n, strength);
    RowsForPrefix(before, [MarkOf(visits[n])], |before|, bizId);
  }

  function StatOf(stats: map<int, Stat>, bizId: int): Stat {
    if bizId in stats then stats[bizId] else Stat(0, 0, 0, 0)
  }

  function Plus(s: Stat, like: int, favorite: int, view: int): Stat {
    s.(like := s.like + like, favorite := s.favorite + favorite, view := s.view + view)
  }

  /** One visit adds to the counters of its own resource only, and nothing when there is no reaction. */
  lemma StatStep(stats: map<int, Stat>, visits: seq<Visit>, n: nat, bizId: int)
    requires n < |visits|
    ensures var before, after := StatsAfter(stats, visits, n), StatsAfter(stats, visits, n + 1);
            var own, reacts := visits[n].shown.bizId == bizId, visits[n].shown.strength != 0;
            && (bizId in after <==> bizId in before || (own && reacts))
            && StatOf(after, bizId) == Plus(StatOf(before, bizId), One(Leaves(visits, n, 1) && own),
                                            One(Leaves(visits, n, 3) && own), One(reacts && own))
  {
  }

  /** What holds of one resource after `n` visits. */
  ghost predicate Grown(stats: map<int, Stat>, visits: seq<Visit>, n: nat, bizId: int)
    requires n <= |visits|
  {
    && StatOf(StatsAfter(stats, visits, n), bizId)
       == Plus(StatOf(stats, bizId), RowsLeft(visits, n, 1, bizId), RowsLeft(visits, n, 3, bizId),
               PositivesFor(visits, n, bizId))
    && (bizId in StatsAfter(stats, visits, n) <==> bizId in stats || PositivesFor(visits, n, bizId) > 0)
  }

  lemma GrownStep(stats: map<int, Stat>, visits: seq<Visit>, n: nat, bizId: int)
    requires n < |visits| && Grown(stats, visits, n, bizId)
    ensures Grown(stats, visits, n + 1, bizId)
  {
    StatStep(stats, visits, n, bizId);
    RowsForStep(visits, n, 1, bizId);
    RowsForStep(visits, n, 3, bizId);
    PositivesStep(visits, n, bizId);
  }

  lemma PositivesStep(visits: seq<Visit>, n: nat, bizId: int)
    requires n < |visits|
    ensures PositivesFor(visits, n + 1, bizId)
         == PositivesFor(visits, n, bizId) + One(visits[n].shown.strength != 0 && visits[n].shown.bizId == bizId)
  {
  }

  /** The counters of every resource grow by exactly its like rows, its favourite rows and its reactions;
      the other counters stay, and a row appears just for resources that had a reaction. */
  lemma {:induction false} CountersGrowByRows(stats: map<int, Stat>, visits: seq<Visit>, n: nat, bizId: int)
    requires n <= |visits|
    ensures Grown(stats, visits, n, bizId)
  {
    if n > 0 {
      CountersGrowByRows(stats, visits, n - 1, bizId);
      GrownStep(stats, visits, n - 1, bizId);
    }
  }

  /** There is one event for every impression and one more for every reaction. */
  lemma {:induction false} EventCount(visits: seq<Visit>, n: nat)
    requires n <= |visits| && AllViewers(visits)
    ensures |EventsOf(visits, n)| == n + Positives(visits, n)
  {
    if n > 0 {
      EventCount(visits, n - 1);
    }
  }

  /** The visits that write this event: an impression by its viewer, resource and position, and a click
      only with a reaction. */
  predicate Writes(v: Visit, e: Event)
    requires v.mid >= 0
  {
    && e.viewerKey == "mid:" + Decimal(v.mid) && e.bizId == v.shown.bizId && e.position == v.position
    && (e.kind.Impression? || v.shown.strength != 0)
  }

  function Writers(visits: seq<Visit>, n: nat, e: Event): nat
    requires n <= |visits| && AllViewers(visits)
  {
    if n == 0 then 0 else Writers(visits, n - 1, e) + if Writes(visits[n - 1], e) then 1 else 0
  }

  lemma WritesOnce(v: Visit, e: Event)
    requires v.mid >= 0
    ensures multiset(NewEvents(v))[e] == if Writes(v, e) then 1 else 0
  {
    var key := "mid:" + Decimal(v.mid);
    var shown := Event(key, v.shown.bizId, Impression, v.position);
    var clicked := Event(key, v.shown.bizId, Click, v.position);
    assert NewEvents(v) == [shown] + if v.shown.strength == 0 then [] else [clicked];
    if Writes(v, e) {
      assert e == if e.kind.Impression? then shown else clicked;
    }
  }

  lemma WrittenAppend(before: seq<Event>, more: seq<Event>, e: Event)
    ensures multiset(before + more)[e] == multiset(before)[e] + multiset(more)[e]
  {
  }

  /** The event is there exactly as often as visits write it. */
  ghost predicate AsOftenAsWritten(visits: seq<Visit>, n: nat, e: Event)
    requires n <= |visits| && AllViewers(visits)
  {
    multiset(EventsOf(visits, n))[e] == Writers(visits, n, e)
  }

  lemma WrittenOnceMore(visits: seq<Visit>, n: nat, e: Event)
    requires n < |visits| && AllViewers(visits) && AsOftenAsWritten(visits, n, e)
    ensures AsOftenAsWritten(visits, n + 1, e)
  {
    WritesOnce(visits[n], e);
    WrittenAppend(EventsOf(visits, n), NewEvents(visits[n]), e);
  }

  lemma {:induction false} EventsAreWritten(visits: seq<Visit>, n: nat, e: Event)
    requires n <= |visits| && AllViewers(visits)
    ensures AsOftenAsWritten(visits, n, e)
  {
    if n == 0 {
      NothingWritten(visits, e);
    } else {
      EventsAreWritten(visits, n - 1, e);
      WrittenOnceMore(visits, n - 1, e);
    }
  }

  lemma NothingWritten(visits: seq<Visit>, e: Event)
    requires AllViewers(visits)
    ensures AsOftenAsWritten(visits, 0, e)
  {
  }

  // ---------- taking a run back ----------

  lemma {:induction false} NoSeedKeys(visits: seq<Visit>, n: nat)
    requires n <= |visits| && AllViewers(visits)
    ensures forall i :: 0 <= i < |EventsOf(visits, n)| ==> !CleanedKey(EventsOf(visits, n)[i].viewerKey)
  {
    if n > 0 {
      NoSeedKeys(visits, n - 1);
      assert ViewerKey(visits[n - 1].mid)[0] == 'm';
    }
  }

  lemma {:induction false} NoneCleaned(events: seq<Event>, n: nat)
    requires n <= |events| && forall i :: 0 <= i < n ==> !CleanedKey(events[i].viewerKey)
    ensures EventsKept(events, n) == events[..n]
  {
    if n > 0 {
      NoneCleaned(events, n - 1);
      assert events[..n] == events[..n - 1] + [events[n - 1]];
    }
  }

  /** Cleaning removes none of the events of a run: it looks for another prefix than the one they are
      written with. */
  lemma SeededEventsStay(visits: seq<Visit>)
    requires AllViewers(visits)
    ensures var events := EventsOf(visits, |visits|); EventsKept(events, |events|) == events
  {
    var events := EventsOf(visits, |visits|);
    NoSeedKeys(visits, |visits|);
    NoneCleaned(events, |events|);
    assert events[..|events|] == events;
  }

  lemma {:induction false} NoMarksKept(marks: seq<Mark>, n: nat)
    requires n <= |marks| && forall i :: 0 <= i < n ==> marks[i].mid >= FIRST_VIEWER
    ensures MarksKept(marks, n) == []
  {
    if n > 0 {
      NoMarksKept(marks, n - 1);
    }
  }

  /** Cleaning removes every like and favourite of a run. */
  lemma SeededMarksGo(visits: seq<Visit>, strength: int)
    requires AllViewers(visits)
    ensures var marks := MarksOf(visits, |visits|, strength); MarksKept(marks, |marks|) == []
  {
    var marks := MarksOf(visits, |visits|, strength);
    forall i | 0 <= i < |marks| ensures marks[i].mid >= FIRST_VIEWER {
      MarksAreVisits(visits, |visits|, strength, marks[i]);
    }
    NoMarksKept(marks, |marks|);
  }

  lemma {:induction false} RestoredRow(stats: map<int, Stat>, now: map<int, Stat>, backup: seq<Saved>, n: nat, bizId: int)
    requires n <= |backup| && forall k :: 0 <= k < |backup| ==> SavesStat(backup[k], stats)
    ensures bizId in Restored(now, backup, n) <==> bizId in now
    ensures bizId in now ==>
              Restored(now, backup, n)[bizId]
              == if HasRow(backup[..n], bizId)
                 then now[bizId].(like := StatOf(stats, bizId).like, favorite := StatOf(stats, bizId).favorite,
                                  view := StatOf(stats, bizId).view)
                 else now[bizId]
  {
    if n > 0 {
      RestoredRow(stats, now, backup, n - 1, bizId);
      assert backup[..n] == backup[..n - 1] + [backup[n - 1]];
      HasRowStep(backup, n, bizId);
    }
  }

  lemma HasRowStep(backup: seq<Saved>, n: nat, bizId: int)
    requires 0 < n <= |backup|
    ensures HasRow(backup[..n], bizId) <==> HasRow(backup[..n - 1], bizId) || backup[n - 1].bizId == bizId
  {
    if HasRow(backup[..n], bizId) && backup[n - 1].bizId != bizId {
      var k :| 0 <= k < n && backup[..n][k].bizId == bizId;
      assert backup[..n - 1][k].bizId == bizId;
    }
    if HasRow(backup[..n - 1], bizId) {
      var k :| 0 <= k < n - 1 && backup[..n - 1][k].bizId == bizId;
      assert backup[..n][k].bizId == bizId;
    }
    if backup[n - 1].bizId == bizId {
      assert backup[..n][n - 1].bizId == bizId;
    }
  }

  /** Every resource shown in a run is among the moments that were backed up. */
  ghost predicate ShownFrom(visits: seq<Visit>, ids: seq<int>) {
    forall i :: 0 <= i < |visits| ==> visits[i].shown.bizId in ids
  }

  lemma {:induction false} ReactionsAreShown(visits: seq<Visit>, n: nat, ids: seq<int>, bizId: int)
    requires n <= |visits| && ShownFrom(visits, ids) && PositivesFor(visits, n, bizId) > 0
    ensures bizId in ids
  {
    if PositivesFor(visits, n - 1, bizId) > 0 {
      ReactionsAreShown(visits, n - 1, ids, bizId);
    }
  }

  lemma {:induction false} UntouchedRow(stats: map<int, Stat>, visits: seq<Visit>, n: nat, bizId: int)
    requires n <= |visits| && PositivesFor(visits, n, bizId) == 0
    ensures bizId in StatsAfter(stats, visits, n) <==> bizId in stats
    ensures bizId in stats ==> StatsAfter(stats, visits, n)[bizId] == stats[bizId]
  {
    if n > 0 {
      UntouchedRow(stats, visits, n - 1, bizId);
    }
  }

  /** After backup, run and cleaning, every resource that had a row has its old counters again. */
  lemma CleaningRestores(stats: map<int, Stat>, backup: seq<Saved>, ids: seq<int>, visits: seq<Visit>, bizId: int)
    requires IsBackup(backup, stats, ids) && ShownFrom(visits, ids)
    ensures var now := StatsAfter(stats, visits, |visits|);
            var clean := Restored(now, backup, |backup|);
            && (bizId in stats ==> bizId in clean && clean[bizId] == stats[bizId])
            && (bizId in clean <==> bizId in stats || PositivesFor(visits, |visits|, bizId) > 0)
  {
    var now := StatsAfter(stats, visits, |visits|);
    RestoredRow(stats, now, backup, |backup|, bizId);
    assert backup[..|backup|] == backup;
    CountersGrowByRows(stats, visits, |visits|, bizId);
    if bizId in stats {
      if PositivesFor(visits, |visits|, bizId) == 0 {
        UntouchedRow(stats, visits, |visits|, bizId);
      } else {
        ReactionsAreShown(visits, |visits|, ids, bizId);
      }
    }
  }

  /** Cleaning takes the counters back entirely exactly when every resource that got a reaction already
      had a row: rows that the run inserted stay. */
  lemma CleaningRestoresAllIff(stats: map<int, Stat>, backup: seq<Saved>, ids: seq<int>, visits: seq<Visit>)
    requires IsBackup(backup, stats, ids) && ShownFrom(visits, ids)
    ensures Restored(StatsAfter(stats, visits, |visits|), backup, |backup|) == stats
       <==> forall bizId :: PositivesFor(visits, |visits|, bizId) > 0 ==> bizId in stats
  {
    var clean := Restored(StatsAfter(stats, visits, |visits|), backup, |backup|);
    forall bizId | bizId in stats ensures bizId in clean && clean[bizId] == stats[bizId] {
      CleaningRestores(stats, backup, ids, visits, bizId);
    }
    forall bizId | bizId in clean ensures bizId in stats || PositivesFor(visits, |visits|, bizId) > 0 {
      CleaningRestores(stats, backup, ids, visits, bizId);
    }
    forall bizId | PositivesFor(visits, |visits|, bizId) > 0 ensures bizId in clean {
      CleaningRestores(stats, backup, ids, visits, bizId);
    }
    if forall bizId :: PositivesFor(visits, |visits|, bizId) > 0 ==> bizId in stats {
      forall bizId ensures bizId in clean.Keys <==> bizId in stats.Keys {
        CleaningRestores(stats, backup, ids, visits, bizId);
      }
      assert clean.Keys == stats.Keys;
      assert clean == stats;
    }
  }
}
