/** Recounting the comment counters: `scripts/recount_comment_subject.py`. */
module Recount {
  import opened Counting
  import opened Wrappers

  datatype BizType = Dynamic | OtherType(name: string)

  /** A row of the comment index; `visible` is membership of its audit state in the visible states. */
  datatype Comment = Comment(oid: int, bizType: BizType, root: int, visible: bool)

  /** A comment area, with its counters and the fields the script must not touch. */
  datatype Subject = Subject(oid: int, bizType: BizType, rootCount: int, allCount: int,
                             floorSeq: int, state: string, topRpid: Option<int>)

  /** The interaction counters of one dynamic. */
  datatype Stat = Stat(commentCount: int, likeCount: int, viewCount: int, favoriteCount: int)

  datatype Key = Key(oid: int, bizType: BizType)

  datatype Counts = Counts(root: nat, all: nat)

  function KeyOf(s: Subject): Key {
    Key(s.oid, s.bizType)
  }

  // ---------- the truth ----------

  predicate Selected(oid: int, filter: Option<int>) {
    filter == None || filter.value == oid
  }

  predicate Belongs(c: Comment, key: Key) {
    c.visible && c.oid == key.oid && c.bizType == key.bizType
  }

  /** The visible comments of an area among the first `n` rows. */
  function AllOf(comments: seq<Comment>, n: nat, key: Key): nat
    requires n <= |comments|
  {
    if n == 0 then 0 else AllOf(comments, n - 1, key) + if Belongs(comments[n - 1], key) then 1 else 0
  }

  /** Those of them that answer no other comment. */
  function RootsOf(comments: seq<Comment>, n: nat, key: Key): nat
    requires n <= |comments|
  {
    if n == 0 then 0
    else RootsOf(comments, n - 1, key)
         + if Belongs(comments[n - 1], key) && comments[n - 1].root == 0 then 1 else 0
  }

  function CountsOf(comments: seq<Comment>, key: Key): Counts {
    Counts(RootsOf(comments, |comments|, key), AllOf(comments, |comments|, key))
  }

  lemma {:induction false} RootsAreAmongAll(comments: seq<Comment>, n: nat, key: Key)
    requires n <= |comments|
    ensures RootsOf(comments, n, key) <= AllOf(comments, n, key)
  {
    if n > 0 {
      RootsAreAmongAll(comments, n - 1, key);
    }
  }

  /** The rows that count for an area: visible, and of its object and type. */
  ghost function CountsFor(comments: seq<Comment>, key: Key): nat -> bool {
    (i: nat) => i < |comments| && comments[i].visible && comments[i].oid == key.oid && comments[i].bizType == key.bizType
  }

  /** Those among them that answer no other comment. */
  ghost function IsRootFor(comments: seq<Comment>, key: Key): nat -> bool {
    (i: nat) => CountsFor(comments, key)(i) && i < |comments| && comments[i].root == 0
  }

  /** The counts are numbers of rows. */
  lemma {:induction false} CountsAreRows(comments: seq<Comment>, n: nat, key: Key)
    requires n <= |comments|
    ensures AllOf(comments, n, key) == |Among(n, CountsFor(comments, key))|
    ensures RootsOf(comments, n, key) == |Among(n, IsRootFor(comments, key))|
  {
    if n == 0 {
      AmongNone(CountsFor(comments, key));
      AmongNone(IsRootFor(comments, key));
    } else {
      CountsAreRows(comments, n - 1, key);
      AmongStep(n - 1, CountsFor(comments, key));
      AmongStep(n - 1, IsRootFor(comments, key));
    }
  }

  /** Without an object every area is selected, with one just those of it. */
  lemma SelectedIs(oid: int, other: int)
    ensures Selected(oid, None) && (Selected(oid, Some(other)) <==> oid == other)
  {
  }

  /** The grouped counts of the first `n` rows. */
  ghost predicate IsTruth(truth: map<Key, Counts>, comments: seq<Comment>, n: nat, filter: Option<int>)
    requires n <= |comments|
  {
    && (forall key :: key in truth <==> Selected(key.oid, filter) && AllOf(comments, n, key) > 0)
    && (forall key :: key in truth ==> truth[key] == Counts(RootsOf(comments, n, key), AllOf(comments, n, key)))
  }

  function Get(truth: map<Key, Counts>, key: Key): Counts {
    if key in truth then truth[key] else Counts(0, 0)
  }

  function AddRow(truth: map<Key, Counts>, c: Comment): map<Key, Counts> {
    var key := Key(c.oid, c.bizType);
    var before := Get(truth, key);
    truth[key := Counts(before.root + (if c.root == 0 then 1 else 0), before.all + 1)]
  }

  lemma TruthStep(truth: map<Key, Counts>, comments: seq<Comment>, n: nat, filter: Option<int>)
    requires n < |comments| && IsTruth(truth, comments, n, filter)
    ensures var c := comments[n];
            IsTruth(if c.visible && Selected(c.oid, filter) then AddRow(truth, c) else truth, comments, n + 1, filter)
  {
    var c := comments[n];
    var more := if c.visible && Selected(c.oid, filter) then AddRow(truth, c) else truth;
    forall key
      ensures key in more <==> Selected(key.oid, filter) && AllOf(comments, n + 1, key) > 0
      ensures key in more ==> more[key] == Counts(RootsOf(comments, n + 1, key), AllOf(comments, n + 1, key))
    {
      assert key in truth <==> Selected(key.oid, filter) && AllOf(comments, n, key) > 0;
      RootsAreAmongAll(comments, n, key);
    }
  }

  /** `_load_truth`: visible rows, grouped by area. */
  method LoadTruth(comments: seq<Comment>, filter: Option<int>) returns (truth: map<Key, Counts>)
    ensures IsTruth(truth, comments, |comments|, filter)
  {
    truth := map[];
    for n := 0 to |comments|
      invariant IsTruth(truth, comments, n, filter)
    {
      var c := comments[n];
      TruthStep(truth, comments, n, filter);
      if c.visible && Selected(c.oid, filter) {
        truth := AddRow(truth, c);
      }
    }
  }

  lemma TruthIsCounted(truth: map<Key, Counts>, comments: seq<Comment>, filter: Option<int>, key: Key)
    requires IsTruth(truth, comments, |comments|, filter) && Selected(key.oid, filter)
    ensures Get(truth, key) == CountsOf(comments, key)
  {
    RootsAreAmongAll(comments, |comments|, key);
    assert key in truth <==> AllOf(comments, |comments|, key) > 0;
  }

  // ---------- the result of a run ----------

  /** The area with counters that are right. */
  function Recounted(s: Subject, comments: seq<Comment>, filter: Option<int>): Subject {
    if Selected(s.oid, filter) then
      var counts := CountsOf(comments, KeyOf(s));
      s.(rootCount := counts.root, allCount := counts.all)
    else s
  }

  predicate Wrong(s: Subject, comments: seq<Comment>, filter: Option<int>) {
    Recounted(s, comments, filter) != s
  }

  /** A selected area of a dynamic is among the first `n`. */
  predicate HasArea(subjects: seq<Subject>, n: nat, filter: Option<int>, oid: int)
    requires n <= |subjects|
  {
    exists i :: 0 <= i < n && subjects[i].oid == oid && subjects[i].bizType == Dynamic && Selected(oid, filter)
  }

  function RecountedStat(oid: int, stat: Stat, comments: seq<Comment>): Stat {
    stat.(commentCount := AllOf(comments, |comments|, Key(oid, Dynamic)))
  }

  /** What became of the counters of the dynamics after the first `n` areas. */
  ghost predicate StatsAfter(now: map<int, Stat>, stats: map<int, Stat>, subjects: seq<Subject>, n: nat,
                             comments: seq<Comment>, filter: Option<int>)
    requires n <= |subjects|
  {
    && now.Keys == stats.Keys
    && forall oid :: oid in stats ==>
         now[oid] == if HasArea(subjects, n, filter, oid) then RecountedStat(oid, stats[oid], comments) else stats[oid]
  }

  /** What became of the areas after the first `n` of them. */
  ghost predicate SubjectsAfter(now: seq<Subject>, subjects: seq<Subject>, n: nat, comments: seq<Comment>,
                                filter: Option<int>)
    requires n <= |subjects|
  {
    && |now| == |subjects|
    && (forall i :: 0 <= i < n ==> now[i] == Recounted(subjects[i], comments, filter))
    && (forall i :: n <= i < |subjects| ==> now[i] == subjects[i])
  }

  /** The areas among the first `n` whose counters are wrong. */
  function WrongSubjects(subjects: seq<Subject>, n: nat, comments: seq<Comment>, filter: Option<int>): nat
    requires n <= |subjects|
  {
    if n == 0 then 0
    else WrongSubjects(subjects, n - 1, comments, filter) + if Wrong(subjects[n - 1], comments, filter) then 1 else 0
  }

  /** The areas among the first `n` that find a wrong counter of a dynamic. */
  function WrongStats(subjects: seq<Subject>, n: nat, stats: map<int, Stat>, comments: seq<Comment>,
                      filter: Option<int>): nat
    requires n <= |subjects|
  {
    if n == 0 then 0
    else WrongStats(subjects, n - 1, stats, comments, filter)
         + if FindsWrongStat(subjects[n - 1], stats, comments, filter) then 1 else 0
  }

  predicate FindsWrongStat(s: Subject, stats: map<int, Stat>, comments: seq<Comment>, filter: Option<int>) {
    && Selected(s.oid, filter) && s.bizType == Dynamic && s.oid in stats
    && RecountedStat(s.oid, stats[s.oid], comments) != stats[s.oid]
  }

  ghost predicate UniqueAreas(subjects: seq<Subject>) {
    forall i, j :: 0 <= i < j < |subjects| ==> KeyOf(subjects[i]) != KeyOf(subjects[j])
  }

  function Keys(subjects: seq<Subject>, n: nat, filter: Option<int>): set<Key>
    requires n <= |subjects|
  {
    if n == 0 then {}
    else Keys(subjects, n - 1, filter)
         + if Selected(subjects[n - 1].oid, filter) then {KeyOf(subjects[n - 1])} else {}
  }

  /** A selected area one of whose counters is not what its visible comments amount to. */
  ghost function IsWrongArea(subjects: seq<Subject>, comments: seq<Comment>, filter: Option<int>): nat -> bool {
    (i: nat) =>
      && i < |subjects| && (filter == None || filter == Some(subjects[i].oid))
      && (subjects[i].rootCount != RootsOf(comments, |comments|, Key(subjects[i].oid, subjects[i].bizType))
          || subjects[i].allCount != AllOf(comments, |comments|, Key(subjects[i].oid, subjects[i].bizType)))
  }

  /** A selected area of a dynamic whose counter is not what its visible comments amount to. */
  ghost function IsWrongDynamic(subjects: seq<Subject>, stats: map<int, Stat>, comments: seq<Comment>,
                                filter: Option<int>): nat -> bool {
    (i: nat) =>
      && i < |subjects| && (filter == None || filter == Some(subjects[i].oid)) && subjects[i].bizType == Dynamic
      && subjects[i].oid in stats
      && stats[subjects[i].oid].commentCount != AllOf(comments, |comments|, Key(subjects[i].oid, Dynamic))
  }

  /** The totals are numbers of areas. */
  lemma {:induction false} TotalsAreAreas(subjects: seq<Subject>, n: nat, stats: map<int, Stat>, comments: seq<Comment>,
                                          filter: Option<int>)
    requires n <= |subjects|
    ensures WrongSubjects(subjects, n, comments, filter) == |Among(n, IsWrongArea(subjects, comments, filter))|
    ensures WrongStats(subjects, n, stats, comments, filter)
         == |Among(n, IsWrongDynamic(subjects, stats, comments, filter))|
  {
    if n == 0 {
      AmongNone(IsWrongArea(subjects, comments, filter));
      AmongNone(IsWrongDynamic(subjects, stats, comments, filter));
    } else {
      TotalsAreAreas(subjects, n - 1, stats, comments, filter);
      AmongStep(n - 1, IsWrongArea(subjects, comments, filter));
      AmongStep(n - 1, IsWrongDynamic(subjects, stats, comments, filter));
    }
  }

  /** The keys that the warnings leave out are those of the selected areas. */
  lemma {:induction false} KeysAre(subjects: seq<Subject>, n: nat, filter: Option<int>, key: Key)
    requires n <= |subjects|
    ensures key in Keys(subjects, n, filter)
       <==> exists i :: 0 <= i < n && subjects[i].oid == key.oid && subjects[i].bizType == key.bizType
                        && (filter == None || filter == Some(key.oid))
  {
    if n > 0 {
      KeysAre(subjects, n - 1, filter, key);
    }
  }

  /** The two tables of counters. */
  class Tables {
    var subjects: seq<Subject>
    var stats: map<int, Stat>

    constructor (subjects: seq<Subject>, stats: map<int, Stat>)
      ensures this.subjects == subjects && this.stats == stats
    {
      this.subjects := subjects;
      this.stats := stats;
    }

    /** One area of the loop: what is wrong is counted, and written back when `apply` is set. */
    method RecountArea(i: nat, apply: bool, truth: map<Key, Counts>, comments: seq<Comment>, filter: Option<int>)
      returns (wrongSubject: bool, wrongStat: bool)
      requires i < |subjects| && Selected(subjects[i].oid, filter)
      requires IsTruth(truth, comments, |comments|, filter)
      modifies this
      ensures var s, next := old(subjects)[i], old(stats);
              && wrongSubject == Wrong(s, comments, filter)
              && wrongStat == FindsWrongStat(s, old(stats), comments, filter)
              && subjects == (if apply then old(subjects)[i := Recounted(s, comments, filter)] else old(subjects))
              && stats == if apply && s.bizType == Dynamic && s.oid in old(stats)
                          then old(stats)[s.oid := RecountedStat(s.oid, old(stats)[s.oid], comments)] else old(stats)
    {
      var s := subjects[i];
      TruthIsCounted(truth, comments, filter, KeyOf(s));
      var counts := Get(truth, KeyOf(s));
      wrongSubject := s.rootCount != counts.root || s.allCount != counts.all;
      if wrongSubject && apply {
        subjects := subjects[i := s.(rootCount := counts.root, allCount := counts.all)];
      }
      wrongStat := false;
      if s.bizType == Dynamic && s.oid in stats && stats[s.oid].commentCount != counts.all {
        if apply {
          stats := stats[s.oid := stats[s.oid].(commentCount := counts.all)];
        }
        wrongStat := true;
      }
      assert old(subjects)[i := s] == old(subjects);
      assert s.oid in old(stats) ==> old(stats)[s.oid := old(stats)[s.oid]] == old(stats);
    }

    /** The body of the loop for an area whose turn it is. */
    method VisitArea(i: nat, apply: bool, truth: map<Key, Counts>, comments: seq<Comment>, filter: Option<int>,
                     ghost start: Snapshot)
      returns (wrongSubject: bool, wrongStat: bool)
      requires i < |start.subjects| && UniqueAreas(start.subjects) && IsTruth(truth, comments, |comments|, filter)
      requires After(Snapshot(subjects, stats), start, if apply then i else 0, comments, filter)
      modifies this
      ensures After(Snapshot(subjects, stats), start, if apply then i + 1 else 0, comments, filter)
      ensures wrongSubject == Wrong(start.subjects[i], comments, filter)
      ensures wrongStat == FindsWrongStat(start.subjects[i], start.stats, comments, filter)
    {
      wrongSubject, wrongStat := false, false;
      if Selected(subjects[i].oid, filter) {
        wrongSubject, wrongStat := RecountArea(i, apply, truth, comments, filter);
      }
    }

    /** `_run`: with `apply` the selected counters become right and everything else stays; without it
        nothing changes. The totals and the warnings are the same either way. */
    method Run(apply: bool, filter: Option<int>, comments: seq<Comment>)
      returns (changedSubjects: nat, changedStats: nat, orphans: set<Key>)
      requires UniqueAreas(subjects)
      modifies this
      ensures SubjectsAfter(subjects, old(subjects), if apply then |old(subjects)| else 0, comments, filter)
      ensures StatsAfter(stats, old(stats), old(subjects), if apply then |old(subjects)| else 0, comments, filter)
      ensures changedSubjects == WrongSubjects(old(subjects), |old(subjects)|, comments, filter)
      ensures changedStats == WrongStats(old(subjects), |old(subjects)|, old(stats), comments, filter)
      ensures AreOrphans(orphans, Keys(old(subjects), |old(subjects)|, filter), comments, filter)
    {
      var truth := LoadTruth(comments, filter);
      changedSubjects, changedStats := 0, 0;
      ghost var start := Snapshot(subjects, stats);
      var listed := subjects;
      var known: set<Key> := {};
      for i := 0 to |listed|
        invariant After(Snapshot(subjects, stats), start, if apply then i else 0, comments, filter)
        invariant changedSubjects == WrongSubjects(listed, i, comments, filter)
        invariant changedStats == WrongStats(listed, i, start.stats, comments, filter)
        invariant known == Keys(listed, i, filter)
      {
        known := known + if Selected(listed[i].oid, filter) then {KeyOf(listed[i])} else {};
        var wrongSubject, wrongStat := VisitArea(i, apply, truth, comments, filter, start);
        changedSubjects := changedSubjects + if wrongSubject then 1 else 0;
        changedStats := changedStats + if wrongStat then 1 else 0;
      }
      orphans := Orphans(truth, known, comments, filter);
    }
  }

  /** Areas with visible comments and no row; without any selected area the script ends before looking. */
  ghost predicate AreOrphans(orphans: set<Key>, known: set<Key>, comments: seq<Comment>, filter: Option<int>) {
    if known == {} then orphans == {}
    else forall key :: key in orphans <==>
                         Selected(key.oid, filter) && AllOf(comments, |comments|, key) > 0 && key !in known
  }

  method Orphans(truth: map<Key, Counts>, known: set<Key>, comments: seq<Comment>, filter: Option<int>)
    returns (orphans: set<Key>)
    requires IsTruth(truth, comments, |comments|, filter)
    ensures AreOrphans(orphans, known, comments, filter)
  {
    orphans := if known == {} then {} else truth.Keys - known;
  }

  datatype Snapshot = Snapshot(subjects: seq<Subject>, stats: map<int, Stat>)

  /** What became of both tables after the first `n` areas. */
  ghost predicate After(now: Snapshot, start: Snapshot, n: nat, comments: seq<Comment>, filter: Option<int>)
    requires n <= |start.subjects|
  {
    && SubjectsAfter(now.subjects, start.subjects, n, comments, filter)
    && StatsAfter(now.stats, start.stats, start.subjects, n, comments, filter)
  }

  // ---------- properties of a run ----------

  /** After an applied run every selected area carries the from-scratch counts of its visible comments,
      roots are at most all, and no other field and no other area has changed. */
  lemma AppliedRunIsRight(now: seq<Subject>, subjects: seq<Subject>, comments: seq<Comment>, filter: Option<int>, i: nat)
    requires SubjectsAfter(now, subjects, |subjects|, comments, filter) && i < |subjects|
    ensures KeyOf(now[i]) == KeyOf(subjects[i]) && now[i].floorSeq == subjects[i].floorSeq
    ensures now[i].state == subjects[i].state && now[i].topRpid == subjects[i].topRpid
    ensures Selected(subjects[i].oid, filter) ==>
              && Counts(RootsOf(comments, |comments|, KeyOf(now[i])), AllOf(comments, |comments|, KeyOf(now[i])))
                 == CountsOf(comments, KeyOf(subjects[i]))
              && now[i].rootCount == RootsOf(comments, |comments|, KeyOf(subjects[i]))
              && now[i].allCount == AllOf(comments, |comments|, KeyOf(subjects[i]))
              && 0 <= now[i].rootCount <= now[i].allCount
    ensures !Selected(subjects[i].oid, filter) ==> now[i] == subjects[i]
  {
    RootsAreAmongAll(comments, |comments|, KeyOf(subjects[i]));
  }

  /** The counter of a dynamic agrees with its area afterwards. */
  lemma StatAgreesWithArea(now: seq<Subject>, nowStats: map<int, Stat>, subjects: seq<Subject>, stats: map<int, Stat>,
                           comments: seq<Comment>, filter: Option<int>, i: nat)
    requires SubjectsAfter(now, subjects, |subjects|, comments, filter) && i < |subjects|
    requires StatsAfter(nowStats, stats, subjects, |subjects|, comments, filter)
    requires Selected(subjects[i].oid, filter) && subjects[i].bizType == Dynamic && subjects[i].oid in stats
    ensures nowStats[subjects[i].oid] == stats[subjects[i].oid].(commentCount := now[i].allCount)
  {
    assert HasArea(subjects, |subjects|, filter, subjects[i].oid);
  }

  /** A dynamic without a selected area of its own keeps its row as it is. */
  lemma OtherStatsStay(nowStats: map<int, Stat>, subjects: seq<Subject>, stats: map<int, Stat>, comments: seq<Comment>,
                       filter: Option<int>, oid: int)
    requires StatsAfter(nowStats, stats, subjects, |subjects|, comments, filter) && oid in stats
    requires (filter.Some? && filter.value != oid)
             || forall i :: 0 <= i < |subjects| ==> subjects[i].oid != oid || subjects[i].bizType != Dynamic
    ensures nowStats[oid] == stats[oid]
  {
  }

  /** A second applied run over the same comments changes nothing and finds nothing to change. */
  lemma SecondRunChangesNothing(now: seq<Subject>, nowStats: map<int, Stat>, subjects: seq<Subject>,
                                stats: map<int, Stat>, again: seq<Subject>, againStats: map<int, Stat>,
                                comments: seq<Comment>, filter: Option<int>)
    requires SubjectsAfter(now, subjects, |subjects|, comments, filter)
    requires StatsAfter(nowStats, stats, subjects, |subjects|, comments, filter)
    requires SubjectsAfter(again, now, |now|, comments, filter)
    requires StatsAfter(againStats, nowStats, now, |now|, comments, filter)
    ensures again == now && againStats == nowStats
    ensures WrongSubjects(now, |now|, comments, filter) == 0
    ensures WrongStats(now, |now|, nowStats, comments, filter) == 0
  {
    forall i | 0 <= i < |now| ensures !Wrong(now[i], comments, filter) {
      assert now[i] == Recounted(subjects[i], comments, filter);
      assert KeyOf(now[i]) == KeyOf(subjects[i]);
    }
    assert forall i :: 0 <= i < |now| ==> again[i] == now[i];
    forall oid | oid in nowStats ensures againStats[oid] == nowStats[oid] {
      assert HasArea(now, |now|, filter, oid) == HasArea(subjects, |subjects|, filter, oid);
    }
    forall i | 0 <= i < |now| ensures !FindsWrongStat(now[i], nowStats, comments, filter) {
      if Selected(now[i].oid, filter) && now[i].bizType == Dynamic {
        assert HasArea(now, |now|, filter, now[i].oid);
      }
    }
    NothingWrong(now, |now|, nowStats, comments, filter);
  }

  lemma {:induction false} NothingWrong(subjects: seq<Subject>, n: nat, stats: map<int, Stat>, comments: seq<Comment>,
                                        filter: Option<int>)
    requires n <= |subjects|
    requires forall i :: 0 <= i < n ==> !Wrong(subjects[i], comments, filter)
    requires forall i :: 0 <= i < n ==> !FindsWrongStat(subjects[i], stats, comments, filter)
    ensures WrongSubjects(subjects, n, comments, filter) == 0 && WrongStats(subjects, n, stats, comments, filter) == 0
  {
    if n > 0 {
      NothingWrong(subjects, n - 1, stats, comments, filter);
    }
  }
}
