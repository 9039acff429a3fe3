/** Recovering the schema version of the main database: `app/core/migration.py` and the scripts in
    `alembic/versions/`. A schema is its tables with their columns and indexes; types, defaults and
    comments are not modelled. */
module Migration {
  import opened Wrappers

  datatype Table = Table(columns: set<string>, indexes: set<string>)

  type Schema = map<string, Table>

  /** The statements of the scripts. */
  datatype Op =
    | CreateTable(name: string, columns: set<string>)
    | DropTable(name: string)
    | AddColumn(table: string, column: string)
    | DropColumn(table: string, column: string)
    | CreateIndex(index: string, table: string)
    | DropIndex(index: string, table: string)

  /** The server carries the statement out instead of raising an error. */
  predicate Applicable(op: Op, s: Schema) {
    match op
    case CreateTable(name, _) => name !in s
    case DropTable(name) => name in s
    case AddColumn(table, column) => table in s && column !in s[table].columns
    case DropColumn(table, column) => table in s && column in s[table].columns
    case CreateIndex(index, table) => table in s && index !in s[table].indexes
    case DropIndex(index, table) => table in s && index in s[table].indexes
  }

  function Apply(op: Op, s: Schema): Schema
    requires Applicable(op, s)
  {
    match op
    case CreateTable(name, columns) => s[name := Table(columns, {})]
    case DropTable(name) => s - {name}
    case AddColumn(table, column) => s[table := s[table].(columns := s[table].columns + {column})]
    case DropColumn(table, column) => s[table := s[table].(columns := s[table].columns - {column})]
    case CreateIndex(index, table) => s[table := s[table].(indexes := s[table].indexes + {index})]
    case DropIndex(index, table) => s[table := s[table].(indexes := s[table].indexes - {index})]
  }

  /** The schema after the statements, or nothing if one of them is refused. */
  function Run(s: Schema, ops: seq<Op>): Option<Schema>
    decreases |ops|
  {
    if |ops| == 0 then Some(s)
    else if Applicable(ops[0], s) then Run(Apply(ops[0], s), ops[1..])
    else None
  }

  function Then(s: Option<Schema>, ops: seq<Op>): Option<Schema> {
    if s.Some? then Run(s.value, ops) else None
  }

  lemma {:induction false} RunConcat(s: Schema, a: seq<Op>, b: seq<Op>)
    ensures Run(s, a + b) == Then(Run(s, a), b)
    decreases |a|
  {
    if |a| == 0 {
      assert a + b == b;
    } else {
      assert (a + b)[1..] == a[1..] + b;
      if Applicable(a[0], s) {
        RunConcat(Apply(a[0], s), a[1..], b);
      }
    }
  }

  lemma RunOne(s: Schema, op: Op)
    ensures Run(s, [op]) == if Applicable(op, s) then Some(Apply(op, s)) else None
  {
    assert [op][1..] == [];
  }

  // ---------- tables that a script creates ----------

  /** A `create_table` and the `create_index` calls that follow it. */
  datatype NewTable = NewTable(name: string, columns: set<string>, indexes: seq<string>)

  predicate Distinct(names: seq<string>) {
    forall i, j :: 0 <= i < j < |names| ==> names[i] != names[j]
  }

  function IndexSet(t: NewTable, n: nat): set<string>
    requires n <= |t.indexes|
  {
    if n == 0 then {} else IndexSet(t, n - 1) + {t.indexes[n - 1]}
  }

  function Made(t: NewTable): Table {
    Table(t.columns, IndexSet(t, |t.indexes|))
  }

  function IndexOps(t: NewTable, n: nat): seq<Op>
    requires n <= |t.indexes|
  {
    if n == 0 then [] else IndexOps(t, n - 1) + [CreateIndex(t.indexes[n - 1], t.name)]
  }

  function CreateOps(t: NewTable): seq<Op> {
    [CreateTable(t.name, t.columns)] + IndexOps(t, |t.indexes|)
  }

  /** The indexes are dropped in the opposite order, then the table. */
  function DropIndexOps(t: NewTable, n: nat): seq<Op>
    requires n <= |t.indexes|
  {
    if n == 0 then [] else [DropIndex(t.indexes[n - 1], t.name)] + DropIndexOps(t, n - 1)
  }

  function DropOps(t: NewTable): seq<Op> {
    DropIndexOps(t, |t.indexes|) + [DropTable(t.name)]
  }

  lemma {:induction false} IndexSetMembers(t: NewTable, n: nat, index: string)
    requires n <= |t.indexes|
    ensures index in IndexSet(t, n) <==> index in t.indexes[..n]
  {
    if n > 0 {
      IndexSetMembers(t, n - 1, index);
      assert t.indexes[..n] == t.indexes[..n - 1] + [t.indexes[n - 1]];
    }
  }

  lemma {:induction false} IndexesCreated(t: NewTable, n: nat, s: Schema)
    requires n <= |t.indexes| && Distinct(t.indexes)
    requires t.name in s && s[t.name] == Table(t.columns, {})
    ensures Run(s, IndexOps(t, n)) == Some(s[t.name := Table(t.columns, IndexSet(t, n))])
  {
    if n == 0 {
      assert s[t.name := Table(t.columns, {})] == s;
    } else {
      IndexesCreated(t, n - 1, s);
      var before, op := s[t.name := Table(t.columns, IndexSet(t, n - 1))], CreateIndex(t.indexes[n - 1], t.name);
      IndexSetMembers(t, n - 1, t.indexes[n - 1]);
      RunConcat(s, IndexOps(t, n - 1), [op]);
      RunOne(before, op);
      assert Apply(op, before) == s[t.name := Table(t.columns, IndexSet(t, n))];
    }
  }

  /** Creating a table succeeds exactly when its name is free. */
  lemma TableCreated(t: NewTable, s: Schema)
    requires Distinct(t.indexes)
    ensures Run(s, CreateOps(t)) == if t.name in s then None else Some(s[t.name := Made(t)])
  {
    var op := CreateTable(t.name, t.columns);
    RunConcat(s, [op], IndexOps(t, |t.indexes|));
    RunOne(s, op);
    if t.name !in s {
      var s1 := Apply(op, s);
      IndexesCreated(t, |t.indexes|, s1);
      assert s1[t.name := Made(t)] == s[t.name := Made(t)];
    }
  }

  lemma {:induction false} IndexesDropped(t: NewTable, n: nat, s: Schema)
    requires n <= |t.indexes| && Distinct(t.indexes)
    requires t.name in s && s[t.name] == Table(t.columns, IndexSet(t, n))
    ensures Run(s, DropIndexOps(t, n)) == Some(s[t.name := Table(t.columns, {})])
  {
    if n == 0 {
      assert s[t.name := Table(t.columns, {})] == s;
    } else {
      var op := DropIndex(t.indexes[n - 1], t.name);
      RunConcat(s, [op], DropIndexOps(t, n - 1));
      RunOne(s, op);
      IndexSetMembers(t, n - 1, t.indexes[n - 1]);
      assert IndexSet(t, n) - {t.indexes[n - 1]} == IndexSet(t, n - 1);
      var after := Apply(op, s);
      IndexesDropped(t, n - 1, after);
      assert after[t.name := Table(t.columns, {})] == s[t.name := Table(t.columns, {})];
    }
  }

  lemma TableDropped(t: NewTable, s: Schema)
    requires Distinct(t.indexes) && t.name !in s
    ensures Run(s[t.name := Made(t)], DropOps(t)) == Some(s)
  {
    var made := s[t.name := Made(t)];
    RunConcat(made, DropIndexOps(t, |t.indexes|), [DropTable(t.name)]);
    IndexesDropped(t, |t.indexes|, made);
    var bare := made[t.name := Table(t.columns, {})];
    RunOne(bare, DropTable(t.name));
    assert bare - {t.name} == s;
  }

  ghost predicate WellFormed(tables: seq<NewTable>) {
    && (forall i :: 0 <= i < |tables| ==> Distinct(tables[i].indexes))
    && (forall i, j :: 0 <= i < j < |tables| ==> tables[i].name != tables[j].name)
  }

  function CreateAllOps(tables: seq<NewTable>, n: nat): seq<Op>
    requires n <= |tables|
  {
    if n == 0 then [] else CreateAllOps(tables, n - 1) + CreateOps(tables[n - 1])
  }

  function DropAllOps(tables: seq<NewTable>, n: nat): seq<Op>
    requires n <= |tables|
  {
    if n == 0 then [] else DropOps(tables[n - 1]) + DropAllOps(tables, n - 1)
  }

  function WithTables(s: Schema, tables: seq<NewTable>, n: nat): Schema
    requires n <= |tables|
  {
    if n == 0 then s else WithTables(s, tables, n - 1)[tables[n - 1].name := Made(tables[n - 1])]
  }

  ghost predicate NamesFree(s: Schema, tables: seq<NewTable>, n: nat)
    requires n <= |tables|
  {
    forall i :: 0 <= i < n ==> tables[i].name !in s
  }

  lemma {:induction false} WithTablesNames(s: Schema, tables: seq<NewTable>, n: nat, name: string)
    requires n <= |tables|
    ensures name in WithTables(s, tables, n) <==> name in s || exists i :: 0 <= i < n && tables[i].name == name
    ensures (forall i :: 0 <= i < n ==> tables[i].name != name) && name in s ==> WithTables(s, tables, n)[name] == s[name]
  {
    if n > 0 {
      WithTablesNames(s, tables, n - 1, name);
    }
  }

  /** Creating all tables succeeds exactly when all names are free. */
  lemma {:induction false} AllCreated(s: Schema, tables: seq<NewTable>, n: nat)
    requires n <= |tables| && WellFormed(tables)
    ensures NamesFree(s, tables, n) ==> Run(s, CreateAllOps(tables, n)) == Some(WithTables(s, tables, n))
    ensures !NamesFree(s, tables, n) ==> Run(s, CreateAllOps(tables, n)) == None
  {
    if n > 0 {
      AllCreated(s, tables, n - 1);
      var t := tables[n - 1];
      RunConcat(s, CreateAllOps(tables, n - 1), CreateOps(t));
      if NamesFree(s, tables, n - 1) {
        WithTablesNames(s, tables, n - 1, t.name);
        TableCreated(t, WithTables(s, tables, n - 1));
      }
    }
  }

  lemma {:induction false} AllDropped(s: Schema, tables: seq<NewTable>, n: nat)
    requires n <= |tables| && WellFormed(tables) && NamesFree(s, tables, n)
    ensures Run(WithTables(s, tables, n), DropAllOps(tables, n)) == Some(s)
  {
    if n > 0 {
      var t, before := tables[n - 1], WithTables(s, tables, n - 1);
      RunConcat(WithTables(s, tables, n), DropOps(t), DropAllOps(tables, n - 1));
      WithTablesNames(s, tables, n - 1, t.name);
      TableDropped(t, before);
      AllDropped(s, tables, n - 1);
    }
  }

  // ---------- the scripts ----------

  const BASELINE := "20261011_msg_prod_baseline"
  const SYNC := "sync_to_prod"
  const PUSH := "20261013_msg_push_toggles"

  const SETTING := "TUserFavoriteSetting"
  const SETTING_INDEX := "ix_TUserFavoriteSetting_created_at"
  const SETTING_COLUMNS := {"created_at", "updated_at", "mid", "showFavorites"}
  const FOLDER := "TFavoriteFolder"
  const IS_PUBLIC := "is_public"
  const USER_SETTING := "msg_user_setting"
  const PUSH_REPLY := "push_reply"
  const PUSH_AT := "push_at"
  const PUSH_LIKE := "push_like"

  function BanditArms(): NewTable {
    NewTable("TFeedBanditArm",
             {"created_at", "updated_at", "pk", "bizType", "bizId", "dim", "aMatrix", "bVector",
              "impressionCount", "rewardSum", "updatedBy", "lastTrainedAt"},
             ["idx_bandit_arm_updated", "ix_TFeedBanditArm_created_at"])
  }

  function EventLog(): NewTable {
    NewTable("TFeedEventLog",
             {"created_at", "updated_at", "pk", "viewerKey", "bizType", "bizId", "event", "feedScene",
              "position", "score", "valueMs"},
             ["idx_feed_event_biz_time", "idx_feed_event_viewer_time", "ix_TFeedEventLog_created_at"])
  }

  function SpacePrivacy(): NewTable {
    NewTable("TUserSpacePrivacy",
             {"created_at", "updated_at", "mid", "show_personal_info", "show_timeline", "show_follow_list",
              "show_like_list", "show_fans_list"},
             ["ix_TUserSpacePrivacy_created_at"])
  }

  function Deactivations(): NewTable {
    NewTable("msg_user_deactivation",
             {"created_at", "updated_at", "id", "mid", "user_name", "status", "deactivated_at", "delete_after",
              "casdoor_delete_error", "retry_count"},
             ["ix_msg_user_deactivation_created_at", "ix_msg_user_deactivation_delete_after",
              "ix_msg_user_deactivation_mid", "ix_msg_user_deactivation_status"])
  }

  function FollowTags(): NewTable {
    NewTable("msg_user_follow_tag",
             {"created_at", "updated_at", "id", "mid", "name", "tip"},
             ["idx_follow_tag_mid", "ix_msg_user_follow_tag_created_at", "ix_msg_user_follow_tag_mid"])
  }

  function TaggedUsers(): NewTable {
    NewTable("msg_user_follow_tag_user",
             {"created_at", "updated_at", "id", "mid", "tag_id", "target_mid"},
             ["idx_follow_tag_user_mid_target", "idx_follow_tag_user_tag",
              "ix_msg_user_follow_tag_user_created_at", "ix_msg_user_follow_tag_user_mid"])
  }

  /** The tables that the sync creates, in its order. */
  function SyncTables(): seq<NewTable> {
    [BanditArms(), EventLog(), SpacePrivacy(), Deactivations(), FollowTags(), TaggedUsers()]
  }

  function SyncTail(): seq<Op> {
    [DropIndex(SETTING_INDEX, SETTING), DropTable(SETTING), AddColumn(FOLDER, IS_PUBLIC)]
  }

  function SyncBackHead(): seq<Op> {
    [DropColumn(FOLDER, IS_PUBLIC), CreateTable(SETTING, SETTING_COLUMNS), CreateIndex(SETTING_INDEX, SETTING)]
  }

  function UpgradeWith(tables: seq<NewTable>): seq<Op> {
    CreateAllOps(tables, |tables|) + SyncTail()
  }

  function DowngradeWith(tables: seq<NewTable>): seq<Op> {
    SyncBackHead() + DropAllOps(tables, |tables|)
  }

  /** `upgrade` of `sync_to_prod` */
  function SyncUpgrade(): seq<Op> {
    UpgradeWith(SyncTables())
  }

  /** `downgrade` of `sync_to_prod` */
  function SyncDowngrade(): seq<Op> {
    DowngradeWith(SyncTables())
  }

  /** `upgrade` of `20261013_msg_push_toggles` */
  function PushUpgrade(): seq<Op> {
    [AddColumn(USER_SETTING, PUSH_REPLY), AddColumn(USER_SETTING, PUSH_AT), AddColumn(USER_SETTING, PUSH_LIKE)]
  }

  /** `downgrade` of `20261013_msg_push_toggles` */
  function PushDowngrade(): seq<Op> {
    [DropColumn(USER_SETTING, PUSH_LIKE), DropColumn(USER_SETTING, PUSH_AT), DropColumn(USER_SETTING, PUSH_REPLY)]
  }

  /** The chain of revisions and what each does to the schema; the baseline does nothing. */
  function Chain(): seq<string> {
    [BASELINE, SYNC, PUSH]
  }

  function ScriptOf(k: nat): seq<Op>
    requires k < 3
  {
    if k == 0 then [] else if k == 1 then SyncUpgrade() else PushUpgrade()
  }

  /** The schema when the scripts from number `k` up to the end have been run. */
  function FromScript(s: Schema, k: nat): Option<Schema>
    requires k <= 3
    decreases 3 - k
  {
    if k == 3 then Some(s)
    else
      var next := Run(s, ScriptOf(k));
      if next.Some? then FromScript(next.value, k + 1) else None
  }

  /** The schema when the first `k` scripts have been run. */
  function UpToScript(s: Schema, k: nat): Option<Schema>
    requires k <= 3
  {
    if k == 0 then Some(s) else Then(UpToScript(s, k - 1), ScriptOf(k - 1))
  }

  lemma {:induction false} ChainSplits(s: Schema, k: nat)
    requires k <= 3 && FromScript(s, 0).Some?
    ensures UpToScript(s, k).Some? && FromScript(UpToScript(s, k).value, k) == FromScript(s, 0)
  {
    if k > 0 {
      ChainSplits(s, k - 1);
    }
  }

  /** The new tables differ from each other and from the tables that the scripts alter. */
  ghost predicate Fresh(tables: seq<NewTable>) {
    WellFormed(tables) && forall i :: 0 <= i < |tables| ==> tables[i].name !in {SETTING, FOLDER, USER_SETTING}
  }

  /** Names of different lengths differ. */
  lemma IndexNamesDiffer()
    ensures Distinct(BanditArms().indexes) && Distinct(EventLog().indexes) && Distinct(SpacePrivacy().indexes)
  {
    LengthsDiffer(BanditArms().indexes);
    LengthsDiffer(EventLog().indexes);
  }

  lemma MoreIndexNamesDiffer()
    ensures Distinct(Deactivations().indexes) && Distinct(FollowTags().indexes) && Distinct(TaggedUsers().indexes)
  {
    LengthsDiffer(Deactivations().indexes);
    LengthsDiffer(FollowTags().indexes);
    LengthsDiffer(TaggedUsers().indexes);
  }

  lemma LengthsDiffer(names: seq<string>)
    requires forall i, j :: 0 <= i < j < |names| ==> |names[i]| != |names[j]|
    ensures Distinct(names)
  {
    forall i, j | 0 <= i < j < |names| ensures names[i] != names[j] {
      assert |names[i]| != |names[j]|;
    }
  }

  lemma TableNameLengths()
    ensures |BanditArms().name| == 14 && |EventLog().name| == 13 && |SpacePrivacy().name| == 17
    ensures |Deactivations().name| == 21 && |FollowTags().name| == 19 && |TaggedUsers().name| == 24
    ensures |SETTING| == 20 && |FOLDER| == 15 && |USER_SETTING| == 16
  {
  }

  lemma FreshSix(tables: seq<NewTable>)
    requires |tables| == 6 && forall i :: 0 <= i < 6 ==> Distinct(tables[i].indexes)
    requires |tables[0].name| == 14 && |tables[1].name| == 13 && |tables[2].name| == 17
    requires |tables[3].name| == 21 && |tables[4].name| == 19 && |tables[5].name| == 24
    requires |SETTING| == 20 && |FOLDER| == 15 && |USER_SETTING| == 16
    ensures Fresh(tables)
  {
  }

  lemma SyncTablesAreFresh()
    ensures |SyncTables()| == 6 && Fresh(SyncTables())
  {
    TableNameLengths();
    IndexNamesDiffer();
    MoreIndexNamesDiffer();
    FreshSix(SyncTables());
  }

  predicate TailReady(s: Schema) {
    SETTING in s && SETTING_INDEX in s[SETTING].indexes && FOLDER in s && IS_PUBLIC !in s[FOLDER].columns
  }

  function TailRun(s: Schema): Schema
    requires FOLDER in s
  {
    (s - {SETTING})[FOLDER := s[FOLDER].(columns := s[FOLDER].columns + {IS_PUBLIC})]
  }

  /** What `sync_to_prod` needs: its tables do not exist, the favourites setting does with its index, and
      folders have no visibility yet. */
  ghost predicate ReadyFor(s: Schema, tables: seq<NewTable>) {
    NamesFree(s, tables, |tables|) && TailReady(s)
  }

  function SyncedWith(s: Schema, tables: seq<NewTable>): Schema
    requires FOLDER in WithTables(s, tables, |tables|)
  {
    TailRun(WithTables(s, tables, |tables|))
  }

  lemma RunThree(s: Schema, a: Op, b: Op, c: Op)
    ensures Run(s, [a, b, c])
         == if Applicable(a, s) && Applicable(b, Apply(a, s)) && Applicable(c, Apply(b, Apply(a, s)))
            then Some(Apply(c, Apply(b, Apply(a, s)))) else None
  {
    assert [a, b, c][1..] == [b, c] && [b, c][1..] == [c] && [c][1..] == [];
    if Applicable(a, s) {
      var s1 := Apply(a, s);
      assert Run(s, [a, b, c]) == Run(s1, [b, c]);
      if Applicable(b, s1) {
        RunOne(Apply(b, s1), c);
        assert Run(s1, [b, c]) == Run(Apply(b, s1), [c]);
      }
    }
  }

  /** The three statements after the tables of `sync_to_prod`. */
  lemma TailGoesThrough(s: Schema)
    ensures Run(s, SyncTail()) == if TailReady(s) then Some(TailRun(s)) else None
  {
    var a, b, c := DropIndex(SETTING_INDEX, SETTING), DropTable(SETTING), AddColumn(FOLDER, IS_PUBLIC);
    RunThree(s, a, b, c);
    if Applicable(a, s) {
      assert Apply(b, Apply(a, s)) == s - {SETTING};
    }
  }

  /** The alterations see nothing of the new tables. */
  lemma AlteredTablesKept(s: Schema, tables: seq<NewTable>, name: string)
    requires Fresh(tables) && name in {SETTING, FOLDER, USER_SETTING}
    ensures name in WithTables(s, tables, |tables|) <==> name in s
    ensures name in s ==> WithTables(s, tables, |tables|)[name] == s[name]
  {
    WithTablesNames(s, tables, |tables|, name);
  }

  /** `sync_to_prod` goes through exactly on the schemas that are ready for it. */
  lemma UpgradeGoesThrough(s: Schema, tables: seq<NewTable>)
    requires Fresh(tables)
    ensures FOLDER in WithTables(s, tables, |tables|) <==> FOLDER in s
    ensures ReadyFor(s, tables) ==> Run(s, UpgradeWith(tables)) == Some(SyncedWith(s, tables))
    ensures !ReadyFor(s, tables) ==> Run(s, UpgradeWith(tables)) == None
  {
    RunConcat(s, CreateAllOps(tables, |tables|), SyncTail());
    AllCreated(s, tables, |tables|);
    TailGoesThrough(WithTables(s, tables, |tables|));
    AlteredTablesKept(s, tables, SETTING);
    AlteredTablesKept(s, tables, FOLDER);
  }

  predicate PushReady(s: Schema) {
    && USER_SETTING in s && PUSH_REPLY !in s[USER_SETTING].columns && PUSH_AT !in s[USER_SETTING].columns
    && PUSH_LIKE !in s[USER_SETTING].columns
  }

  function Pushed(s: Schema): Schema
    requires USER_SETTING in s
  {
    s[USER_SETTING := s[USER_SETTING].(columns := s[USER_SETTING].columns + {PUSH_REPLY, PUSH_AT, PUSH_LIKE})]
  }

  lemma PushNamesDiffer()
    ensures PUSH_REPLY != PUSH_AT && PUSH_REPLY != PUSH_LIKE && PUSH_AT != PUSH_LIKE
  {
    assert |PUSH_REPLY| == 10 && |PUSH_AT| == 7 && |PUSH_LIKE| == 9;
  }

  lemma PushGoesThrough(s: Schema)
    ensures Run(s, PushUpgrade()) == if PushReady(s) then Some(Pushed(s)) else None
  {
    PushNamesDiffer();
    var t := USER_SETTING;
    var a, b, c := AddColumn(t, PUSH_REPLY), AddColumn(t, PUSH_AT), AddColumn(t, PUSH_LIKE);
    RunThree(s, a, b, c);
    if Applicable(a, s) {
      var s1 := Apply(a, s);
      assert Applicable(b, s1) <==> PUSH_AT !in s[t].columns;
      if Applicable(b, s1) {
        var s2 := Apply(b, s1);
        assert s2[t].columns == s[t].columns + {PUSH_REPLY, PUSH_AT};
        assert Applicable(c, s2) <==> PUSH_LIKE !in s[t].columns;
        if Applicable(c, s2) {
          var s3 := Apply(c, s2);
          assert s3[t].columns == s[t].columns + {PUSH_REPLY, PUSH_AT, PUSH_LIKE};
          assert s3[t] == Pushed(s)[t];
          assert s3 == Pushed(s);
        }
      }
    }
  }

  // ---------- downgrades ----------

  /** The push downgrade undoes the push upgrade on every schema. */
  lemma PushDowngradeUndoes(s: Schema)
    requires Run(s, PushUpgrade()).Some?
    ensures Run(Run(s, PushUpgrade()).value, PushDowngrade()) == Some(s)
  {
    PushGoesThrough(s);
    PushNamesDiffer();
    var p, t, before := Pushed(s), USER_SETTING, s[USER_SETTING].columns;
    var a, b, c := DropColumn(t, PUSH_LIKE), DropColumn(t, PUSH_AT), DropColumn(t, PUSH_REPLY);
    RunThree(p, a, b, c);
    var p1 := Apply(a, p);
    assert p1[t].columns == before + {PUSH_REPLY, PUSH_AT};
    var p2 := Apply(b, p1);
    assert p2[t].columns == before + {PUSH_REPLY};
    var p3 := Apply(c, p2);
    assert p3[t].columns == before;
    assert p3[t] == s[t];
    assert p3 == s;
  }

  /** What the sync downgrade recreates. */
  function Recreated(): Table {
    Table(SETTING_COLUMNS, {SETTING_INDEX})
  }

  /** The first three statements of the sync downgrade. */
  lemma BackHeadGoesThrough(s: Schema)
    requires TailReady(s)
    ensures Run(TailRun(s), SyncBackHead()) == Some(s[SETTING := Recreated()])
  {
    var x := TailRun(s);
    var a, b, c := DropColumn(FOLDER, IS_PUBLIC), CreateTable(SETTING, SETTING_COLUMNS), CreateIndex(SETTING_INDEX, SETTING);
    RunThree(x, a, b, c);
    var x1 := Apply(a, x);
    assert x1[FOLDER].columns == s[FOLDER].columns;
    assert x1[FOLDER] == s[FOLDER];
    assert x1 == s - {SETTING};
    var x2 := Apply(b, x1);
    var x3 := Apply(c, x2);
    assert x3[SETTING].indexes == {SETTING_INDEX};
    assert x3 == s[SETTING := Recreated()];
  }

  lemma {:induction false} WithTablesUpdate(s: Schema, tables: seq<NewTable>, n: nat, name: string, t: Table)
    requires n <= |tables| && forall i :: 0 <= i < n ==> tables[i].name != name
    ensures WithTables(s[name := t], tables, n) == WithTables(s, tables, n)[name := t]
  {
    if n > 0 {
      WithTablesUpdate(s, tables, n - 1, name, t);
    }
  }

  /** The sync downgrade goes through after the upgrade. */
  lemma DowngradeRestores(s: Schema, tables: seq<NewTable>)
    requires Fresh(tables) && ReadyFor(s, tables)
    ensures FOLDER in WithTables(s, tables, |tables|)
    ensures Run(SyncedWith(s, tables), DowngradeWith(tables)) == Some(s[SETTING := Recreated()])
  {
    AlteredTablesKept(s, tables, SETTING);
    AlteredTablesKept(s, tables, FOLDER);
    var made, back := WithTables(s, tables, |tables|), s[SETTING := Recreated()];
    RunConcat(TailRun(made), SyncBackHead(), DropAllOps(tables, |tables|));
    BackHeadGoesThrough(made);
    WithTablesUpdate(s, tables, |tables|, SETTING, Recreated());
    AllDropped(back, tables, |tables|);
  }

  lemma DowngradeUndoesWith(s: Schema, tables: seq<NewTable>)
    requires Fresh(tables) && Run(s, UpgradeWith(tables)).Some?
    ensures SETTING in s
    ensures var back := Run(Run(s, UpgradeWith(tables)).value, DowngradeWith(tables));
            back == Some(s[SETTING := Recreated()]) && (back == Some(s) <==> s[SETTING] == Recreated())
  {
    UpgradeGoesThrough(s, tables);
    DowngradeRestores(s, tables);
    RestoredIff(s, Recreated());
  }

  /** The sync downgrade always goes through after the upgrade, and it restores the schema exactly when
      the dropped favourites setting had just the columns and the index that it recreates. */
  lemma SyncDowngradeUndoes(s: Schema)
    requires Run(s, SyncUpgrade()).Some?
    ensures SETTING in s
    ensures Run(Run(s, SyncUpgrade()).value, SyncDowngrade()) == Some(s[SETTING := Recreated()])
    ensures Run(Run(s, SyncUpgrade()).value, SyncDowngrade()) == Some(s) <==> s[SETTING] == Recreated()
  {
    SyncTablesAreFresh();
    DowngradeUndoesWith(s, SyncTables());
  }

  lemma RestoredIff(s: Schema, t: Table)
    requires SETTING in s
    ensures s[SETTING := t] == s <==> s[SETTING] == t
  {
    assert s[SETTING := t][SETTING] == t;
  }

  // ---------- the resolver ----------

  /** The tables the resolver looks for; it does not look for the sixth. */
  const LOOKED_FOR := {"TFeedBanditArm", "TFeedEventLog", "TUserSpacePrivacy", "msg_user_deactivation",
                       "msg_user_follow_tag"}
  const TOGGLES := {PUSH_REPLY, PUSH_AT, PUSH_LIKE}

  /** `_resolve_stamp_target`; looking at the columns of a table that is not there is an error. */
  function ResolveStampTarget(s: Schema, head: Option<string>): Option<string> {
    if !(LOOKED_FOR <= s.Keys) || SETTING in s then Some(BASELINE)
    else if USER_SETTING !in s then None
    else if head.Some? && head.value != "" && TOGGLES <= s[USER_SETTING].columns then head
    else Some(SYNC)
  }

  /** When the resolver gives which answer, table by table. */
  lemma ResolverAnswers(s: Schema, head: Option<string>)
    ensures (exists name :: name in LOOKED_FOR && name !in s) || SETTING in s ==>
              ResolveStampTarget(s, head) == Some(BASELINE)
    ensures (forall name :: name in LOOKED_FOR ==> name in s) && SETTING !in s ==>
              && (ResolveStampTarget(s, head) == None <==> USER_SETTING !in s)
              && (USER_SETTING in s ==>
                    var columns := s[USER_SETTING].columns;
                    var toggled := PUSH_REPLY in columns && PUSH_AT in columns && PUSH_LIKE in columns;
                    ResolveStampTarget(s, head) == if toggled && head.Some? && head.value != "" then head else Some(SYNC))
  {
    if forall name :: name in LOOKED_FOR ==> name in s {
      assert LOOKED_FOR <= s.Keys;
    }
  }

  /** The five tables it looks for are the first five that the sync creates. */
  lemma LookedForAre(name: string)
    ensures name in LOOKED_FOR <==> exists i :: 0 <= i < 5 && SyncTables()[i].name == name
  {
    var t := SyncTables();
    assert t[0].name == "TFeedBanditArm" && t[1].name == "TFeedEventLog" && t[2].name == "TUserSpacePrivacy";
    assert t[3].name == "msg_user_deactivation" && t[4].name == "msg_user_follow_tag";
  }

  lemma LookedForAreCreated(s: Schema)
    ensures LOOKED_FOR <= WithTables(s, SyncTables(), |SyncTables()|).Keys
  {
    var t := SyncTables();
    forall i | 0 <= i < 6 ensures t[i].name in WithTables(s, t, 6) {
      WithTablesNames(s, t, 6, t[i].name);
    }
    assert t[0].name == "TFeedBanditArm" && t[1].name == "TFeedEventLog" && t[2].name == "TUserSpacePrivacy";
    assert t[3].name == "msg_user_deactivation" && t[4].name == "msg_user_follow_tag";
  }

  lemma FromScriptSteps(s: Schema)
    ensures FromScript(s, 0) == FromScript(s, 1) && UpToScript(s, 1) == Some(s)
    ensures FromScript(s, 1) == var x := Run(s, SyncUpgrade()); if x.Some? then Run(x.value, PushUpgrade()) else None
    ensures UpToScript(s, 2) == Run(s, SyncUpgrade())
    ensures UpToScript(s, 3) == FromScript(s, 1)
  {
    assert Run(s, ScriptOf(0)) == Some(s);
    assert UpToScript(s, 1) == Then(UpToScript(s, 0), ScriptOf(0));
    assert UpToScript(s, 2) == Then(UpToScript(s, 1), ScriptOf(1));
    assert UpToScript(s, 3) == Then(UpToScript(s, 2), ScriptOf(2));
    var x := Run(s, SyncUpgrade());
    if x.Some? {
      var y := Run(x.value, PushUpgrade());
      assert FromScript(x.value, 2) == if y.Some? then FromScript(y.value, 3) else None;
    }
  }

  /** The whole chain, with any new tables for those of the sync. */
  function ChainWith(s: Schema, tables: seq<NewTable>): Option<Schema> {
    Then(Run(s, UpgradeWith(tables)), PushUpgrade())
  }

  /** Where the chain goes through, the schemas on the way are these. */
  lemma ChainOnTheWay(s: Schema, tables: seq<NewTable>)
    requires Fresh(tables) && ChainWith(s, tables).Some?
    ensures ReadyFor(s, tables) && FOLDER in WithTables(s, tables, |tables|) && PushReady(SyncedWith(s, tables))
    ensures Run(s, UpgradeWith(tables)) == Some(SyncedWith(s, tables))
    ensures ChainWith(s, tables) == Some(Pushed(SyncedWith(s, tables)))
  {
    UpgradeGoesThrough(s, tables);
    PushGoesThrough(SyncedWith(s, tables));
  }

  /** The schema on the way when the first `k` scripts have been run. */
  function OnTheWay(s: Schema, tables: seq<NewTable>, k: nat): Option<Schema> {
    if k < 2 then Some(s) else if k == 2 then Run(s, UpgradeWith(tables)) else ChainWith(s, tables)
  }

  /** The resolver's answers along the chain. */
  lemma ResolverOnTheWay(s: Schema, tables: seq<NewTable>, k: nat)
    requires k <= 3 && Fresh(tables) && ChainWith(s, tables).Some?
    requires LOOKED_FOR <= WithTables(s, tables, |tables|).Keys
    ensures OnTheWay(s, tables, k).Some?
    ensures ResolveStampTarget(OnTheWay(s, tables, k).value, Some(PUSH)) == Some(if k == 0 then BASELINE else Chain()[k - 1])
  {
    ChainOnTheWay(s, tables);
  }

  lemma ChainOfSync(s: Schema, k: nat)
    requires k <= 3
    ensures FromScript(s, 0) == ChainWith(s, SyncTables()) && UpToScript(s, k) == OnTheWay(s, SyncTables(), k)
  {
    FromScriptSteps(s);
  }

  /** For any schema on which the whole chain goes through, and any number of its scripts run already,
      the resolver names the last one run; nothing run and the empty baseline look the same. */
  lemma ResolverFindsThePrefix(s: Schema, k: nat)
    requires k <= 3 && FromScript(s, 0).Some?
    ensures UpToScript(s, k).Some?
    ensures ResolveStampTarget(UpToScript(s, k).value, Some(PUSH)) == Some(if k == 0 then BASELINE else Chain()[k - 1])
  {
    ChainOfSync(s, k);
    SyncTablesAreFresh();
    LookedForAreCreated(s);
    ResolverOnTheWay(s, SyncTables(), k);
  }

  /** The smallest schema on which it goes through. */
  function Smallest(): Schema {
    map[SETTING := Recreated(), FOLDER := Table({}, {}), USER_SETTING := Table({}, {})]
  }

  lemma ChainGoesThroughWith(tables: seq<NewTable>)
    requires Fresh(tables)
    ensures ChainWith(Smallest(), tables).Some?
  {
    var s := Smallest();
    assert NamesFree(s, tables, |tables|);
    UpgradeGoesThrough(s, tables);
    AlteredTablesKept(s, tables, USER_SETTING);
    PushGoesThrough(SyncedWith(s, tables));
  }

  /** There are schemas on which the whole chain goes through. */
  lemma ChainGoesThroughSomewhere()
    ensures exists s: Schema :: FromScript(s, 0).Some?
  {
    SyncTablesAreFresh();
    ChainGoesThroughWith(SyncTables());
    ChainOfSync(Smallest(), 0);
  }

  // ---------- repairing and upgrading ----------

  /** The position of a revision in the chain, or 0. */
  function ScriptsRun(revision: string): nat {
    if revision == BASELINE then 1 else if revision == SYNC then 2 else if revision == PUSH then 3 else 0
  }

  predicate Known(revision: string) {
    ScriptsRun(revision) > 0
  }

  /** The known revisions are those of the chain, and a version row says how many scripts have been run. */
  lemma VersionsAre(revision: string)
    ensures Known(revision) <==> revision in Chain()
    ensures forall k :: 0 <= k < 3 ==> Position(Some([Chain()[k]])) == k + 1
    ensures !Known(revision) ==> Position(Some([revision])) == 0
    ensures Position(None) == 0 && Position(Some([])) == 0
  {
    assert |BASELINE| == 26 && |SYNC| == 12 && |PUSH| == 25;
  }

  /** Statement `n` is refused, and `now` is what the statements before it leave. */
  ghost predicate IsStop(s: Schema, ops: seq<Op>, now: Schema, n: nat) {
    n < |ops| && Run(s, ops[..n]) == Some(now) && !Applicable(ops[n], now)
  }

  ghost predicate StoppedIn(s: Schema, ops: seq<Op>, now: Schema) {
    exists n: nat :: IsStop(s, ops, now, n)
  }

  /** The schema when the scripts from number `from` up to number `k` have been run. */
  function Between(s: Schema, from: nat, k: nat): Option<Schema>
    requires from <= k <= 3
  {
    if k == from then Some(s) else Then(Between(s, from, k - 1), ScriptOf(k - 1))
  }

  /** The upgrade has stopped in script `k`: those before it are run, of this one the statements before the
      refused one are, and the version says so far. */
  ghost predicate UpgradeStopped(s: Schema, from: nat, now: Schema, k: nat) {
    from <= k < 3 && Between(s, from, k).Some? && StoppedIn(Between(s, from, k).value, ScriptOf(k), now)
  }

  lemma StopIs(s: Schema, from: nat, k: nat, before: Schema, now: Schema)
    requires from <= k < 3 && Between(s, from, k) == Some(before) && StoppedIn(before, ScriptOf(k), now)
    ensures UpgradeStopped(s, from, now, k)
  {
  }

  lemma BetweenStep(s: Schema, from: nat, k: nat, before: Schema, now: Schema)
    requires from <= k < 3 && Between(s, from, k) == Some(before) && Run(before, ScriptOf(k)) == Some(now)
    ensures Between(s, from, k + 1) == Some(now)
    ensures FromScript(before, k) == FromScript(now, k + 1)
  {
  }

  predicate Located(versions: Option<seq<string>>) {
    versions.Some? ==> forall r :: r in versions.value ==> Known(r)
  }

  /** The main database: its tables and the rows of `alembic_version`, if that table exists. */
  class Database {
    var schema: Schema
    var versions: Option<seq<string>>

    constructor (schema: Schema, versions: Option<seq<string>>)
      ensures this.schema == schema && this.versions == versions
    {
      this.schema := schema;
      this.versions := versions;
    }

    method Execute(op: Op) returns (ok: bool)
      modifies this`schema
      ensures ok <==> Applicable(op, old(schema))
      ensures schema == if ok then Apply(op, old(schema)) else old(schema)
    {
      ok := Applicable(op, schema);
      if ok {
        schema := Apply(op, schema);
      }
    }

    /** Runs the statements of one script until one is refused. */
    method RunScript(ops: seq<Op>) returns (ok: bool)
      modifies this`schema
      ensures ok <==> Run(old(schema), ops).Some?
      ensures ok ==> Some(schema) == Run(old(schema), ops)
      ensures !ok ==> StoppedIn(old(schema), ops, schema)
    {
      ghost var start := schema;
      assert ops[..0] == [];
      for n := 0 to |ops|
        invariant Run(start, ops) == Run(schema, ops[n..]) && Run(start, ops[..n]) == Some(schema)
      {
        assert ops[n..][1..] == ops[n + 1..];
        assert ops[..n + 1] == ops[..n] + [ops[n]];
        RunConcat(start, ops[..n], [ops[n]]);
        RunOne(schema, ops[n]);
        ok := Execute(ops[n]);
        if !ok {
          assert IsStop(start, ops, schema, n);
          return;
        }
      }
      ok := true;
    }

    /** `_repair_dropped_revision`: rewrites the version rows when one of them is unknown. */
    method RepairDroppedRevision() returns (ok: bool)
      modifies this`versions
      ensures old(versions) == None || (forall r :: r in old(versions).value ==> Known(r)) ==>
                ok && versions == old(versions)
      ensures old(versions).Some? && (exists r :: r in old(versions).value && !Known(r)) ==>
                var target := ResolveStampTarget(schema, Some(PUSH));
                ok == target.Some? && versions == if ok then Some([target.value]) else old(versions)
    {
      if versions.None? {
        return true;
      }
      var rows, dropped := versions.value, false;
      for n := 0 to |rows|
        invariant dropped <==> exists i :: 0 <= i < n && !Known(rows[i])
      {
        if !Known(rows[n]) {
          dropped := true;
        }
      }
      if !dropped {
        return true;
      }
      var target := ResolveStampTarget(schema, Some(PUSH));
      if target.None? {
        return false;
      }
      versions := Some([target.value]);
      return true;
    }

    /** `command.upgrade(cfg, "head")`: runs every later script, moving the version row after each.
        A database without a version starts before the baseline; a revision that is not in the chain is
        an error. */
    method Upgrade() returns (ok: bool)
      requires versions.Some? ==> |versions.value| <= 1
      modifies this
      ensures ok <==> Located(old(versions)) && FromScript(old(schema), Position(old(versions))).Some?
      ensures ok ==> Some(schema) == FromScript(old(schema), Position(old(versions))) && Position(versions) == 3
      ensures !Located(old(versions)) ==> schema == old(schema) && versions == old(versions)
      ensures Located(old(versions)) && !ok ==>
                UpgradeStopped(old(schema), Position(old(versions)), schema, Position(versions))
      ensures Position(versions) == Position(old(versions)) ==> versions == old(versions)
    {
      if !Located(versions) {
        return false;
      }
      var k := Position(versions);
      ghost var start, from := schema, k;
      while k < 3
        invariant from <= k <= 3 && Position(versions) == k
        invariant FromScript(start, from) == FromScript(schema, k) && Between(start, from, k) == Some(schema)
        invariant k == from ==> versions == old(versions)
      {
        ghost var before := schema;
        ok := RunScript(ScriptOf(k));
        if !ok {
          StopIs(start, from, k, before, schema);
          return;
        }
        BetweenStep(start, from, k, before, schema);
        versions := Some([Chain()[k]]);
        k := k + 1;
      }
      ok := true;
    }

    /** `_upgrade_message` for a database whose recorded revision was dropped from the chain, whatever
        part of the chain has been run on it: the repair and every remaining statement go through, and
        the database ends at the head with the schema of the whole chain. */
    method UpgradeDropped(ghost base: Schema, ghost k: nat) returns (ok: bool)
      requires k <= 3 && FromScript(base, 0).Some? && UpToScript(base, k) == Some(schema)
      requires versions.Some? && exists r :: r in versions.value && !Known(r)
      modifies this
      ensures ok && Some(schema) == FromScript(base, 0) && Position(versions) == 3
    {
      RemainingScripts(base, k);
      ok := RepairDroppedRevision();
      ok := Upgrade();
    }
  }

  /** The scripts after the one that the resolver names lead to the end of the chain. */
  lemma RemainingScripts(base: Schema, k: nat)
    requires k <= 3 && FromScript(base, 0).Some?
    ensures UpToScript(base, k).Some?
    ensures var target := ResolveStampTarget(UpToScript(base, k).value, Some(PUSH));
            && target.Some? && ScriptsRun(target.value) > 0
            && FromScript(UpToScript(base, k).value, ScriptsRun(target.value)) == FromScript(base, 0)
  {
    ResolverFindsThePrefix(base, k);
    ChainSplits(base, k);
    FromScriptSteps(base);
  }

  /** The number of scripts that the version rows say have been run. */
  function Position(versions: Option<seq<string>>): (k: nat)
    ensures k <= 3
  {
    if versions.Some? && |versions.value| == 1 then ScriptsRun(versions.value[0]) else 0
  }
}
