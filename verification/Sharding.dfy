/** Routing of message bodies to monthly databases and numbered tables, and reading a batch of them:
    `app/core/sharding.py` and `batch_get` of `app/services/message/dm/dm_content.py`. */
module Sharding {
  import opened Text
  import opened Wrappers

  // ---------- message keys ----------

  const EPOCH_MS := 1704038400000
  const WORKERS := 0x400
  const SEQUENCES := 0x1000
  const TIMESTAMP_UNIT := WORKERS * SEQUENCES

  /** 41 bits of time, 10 of worker and 12 of sequence. */
  ghost predicate InLayout(ms: int, worker: int, sequence: int) {
    EPOCH_MS <= ms < EPOCH_MS + 0x200_0000_0000 && 0 <= worker < WORKERS && 0 <= sequence < SEQUENCES
  }

  function MsgKey(ms: int, worker: int, sequence: int): int {
    (ms - EPOCH_MS) * TIMESTAMP_UNIT + worker * SEQUENCES + sequence
  }

  /** `parse_timestamp_ms`: a right shift by 22, which rounds down. */
  function TimestampMs(msgkey: int): int {
    msgkey / TIMESTAMP_UNIT + EPOCH_MS
  }

  /** Keys count from this moment, and a millisecond is worth four million keys and more. */
  lemma KeysCountFrom(t: nat)
    ensures MsgKey(1704038400000 + t, 0, 0) == t * 4194304 && TimestampMs(t * 4194304) == 1704038400000 + t
  {
  }

  /** The timestamp is recovered, and a key is a positive 63-bit number. */
  lemma TimestampIsRecovered(ms: int, worker: int, sequence: int)
    requires InLayout(ms, worker, sequence)
    ensures TimestampMs(MsgKey(ms, worker, sequence)) == ms
    ensures 0 <= MsgKey(ms, worker, sequence) < 0x8000_0000_0000_0000
  {
    var low := worker * SEQUENCES + sequence;
    assert 0 <= low < TIMESTAMP_UNIT;
  }

  /** Keys are ordered as their times, then workers, then sequence numbers; so distinct triples give
      distinct keys. */
  lemma KeyOrder(ms: int, worker: int, sequence: int, ms': int, worker': int, sequence': int)
    requires InLayout(ms, worker, sequence) && InLayout(ms', worker', sequence')
    ensures MsgKey(ms, worker, sequence) < MsgKey(ms', worker', sequence')
       <==> ms < ms' || (ms == ms' && (worker < worker' || (worker == worker' && sequence < sequence')))
  {
    var low, low' := worker * SEQUENCES + sequence, worker' * SEQUENCES + sequence';
    assert 0 <= low < TIMESTAMP_UNIT && 0 <= low' < TIMESTAMP_UNIT;
  }

  // ---------- names ----------

  /** The settings that routing depends on. `month` gives the six digits of year and month of a
      millisecond time in the zone of the process. */
  datatype Config = Config(dbPrefix: string, tablePrefix: string, tableCount: nat, month: int -> string)

  ghost predicate ValidConfig(c: Config) {
    c.tableCount > 0 && forall ms :: |c.month(ms)| == 6
  }

  /** `f"{n:0{width}d}"` */
  function Padded(n: nat, width: nat): string {
    var s := Decimal(n);
    if |s| < width then seq(width - |s|, _ => '0') + s else s
  }

  /** The number that a string of digits reads as. */
  function Reading(s: string): int {
    if |s| == 0 then 0 else Reading(s[..|s| - 1]) * 10 + (s[|s| - 1] as int - '0' as int)
  }

  lemma {:induction false} DecimalReads(n: nat)
    ensures Reading(Decimal(n)) == n
  {
    if n >= 10 {
      DecimalReads(n / 10);
      assert Decimal(n)[..|Decimal(n)| - 1] == Decimal(n / 10);
    } else {
      assert [Digit(n)][..0] == [];
      assert Reading([Digit(n)]) == Reading([]) * 10 + n;
    }
  }

  lemma {:induction false} LeadingZeros(k: nat, s: string)
    ensures Reading(seq(k, _ => '0') + s) == Reading(s)
    decreases |s|, k
  {
    var z := seq(k, _ => '0');
    if |s| > 0 {
      assert (z + s)[..|z + s| - 1] == z + s[..|s| - 1];
      LeadingZeros(k, s[..|s| - 1]);
    } else if k > 0 {
      assert z + s == z;
      assert z[..k - 1] == seq(k - 1, _ => '0') + [];
      LeadingZeros(k - 1, []);
    } else {
      assert z + s == [];
    }
  }

  lemma PaddedReads(n: nat, width: nat)
    ensures Reading(Padded(n, width)) == n
  {
    DecimalReads(n);
    if |Decimal(n)| < width {
      LeadingZeros(width - |Decimal(n)|, Decimal(n));
    }
  }

  lemma {:induction false} DecimalGrows(m: nat, n: nat)
    requires m <= n
    ensures |Decimal(m)| <= |Decimal(n)|
  {
    if m >= 10 {
      DecimalGrows(m / 10, n / 10);
    }
  }

  /** All table numbers are printed with the same number of digits, and differently. */
  lemma PaddedNames(m: nat, n: nat, count: nat)
    requires m < count && n < count
    ensures var width := |Decimal(count - 1)|;
            |Padded(m, width)| == width && (Padded(m, width) == Padded(n, width) <==> m == n)
  {
    var width := |Decimal(count - 1)|;
    DecimalGrows(m, count - 1);
    PaddedReads(m, width);
    PaddedReads(n, width);
  }

  function TableOfIndex(index: nat, c: Config): string
    requires c.tableCount > 0
  {
    c.tablePrefix + "_" + Padded(index, |Decimal(c.tableCount - 1)|)
  }

  /** `db_name_of` */
  function DbName(msgkey: int, c: Config): string {
    c.dbPrefix + "_" + c.month(TimestampMs(msgkey))
  }

  /** `table_name_of` */
  function TableName(msgkey: int, c: Config): string
    requires c.tableCount > 0
  {
    TableOfIndex(msgkey % c.tableCount, c)
  }

  function Qualified(db: string, table: string): string {
    "`" + db + "`.`" + table + "`"
  }

  /** `qualified_table_of` */
  function QualifiedTable(msgkey: int, c: Config): string
    requires c.tableCount > 0
  {
    Qualified(DbName(msgkey, c), TableName(msgkey, c))
  }

  lemma SplitEqual<T>(a: seq<T>, b: seq<T>, a': seq<T>, b': seq<T>)
    requires |a| == |a'| && a + b == a' + b'
    ensures a == a' && b == b'
  {
    assert a == (a + b)[..|a|] && b == (a + b)[|a|..];
    assert a' == (a' + b')[..|a'|] && b' == (a' + b')[|a'|..];
  }

  lemma QualifiedIsInjective(db: string, table: string, db': string, table': string)
    requires |db| == |db'|
    ensures Qualified(db, table) == Qualified(db', table') <==> db == db' && table == table'
  {
    if Qualified(db, table) == Qualified(db', table') {
      var head, head' := "`" + (db + "`.`"), "`" + (db' + "`.`");
      assert Qualified(db, table) == head + (table + "`") && Qualified(db', table') == head' + (table' + "`");
      SplitEqual(head, table + "`", head', table' + "`");
      assert |table| == |table'|;
      SplitEqual(table, "`", table', "`");
      SplitEqual("`", db + "`.`", "`", db' + "`.`");
      SplitEqual(db, "`.`", db', "`.`");
    }
  }

  lemma SameTable(m: nat, n: nat, c: Config)
    requires m < c.tableCount && n < c.tableCount
    ensures TableOfIndex(m, c) == TableOfIndex(n, c) <==> m == n
  {
    PaddedNames(m, n, c.tableCount);
    if TableOfIndex(m, c) == TableOfIndex(n, c) {
      var width := |Decimal(c.tableCount - 1)|;
      SplitEqual(c.tablePrefix + "_", Padded(m, width), c.tablePrefix + "_", Padded(n, width));
    }
  }

  lemma SameDb(k: int, k': int, c: Config)
    requires ValidConfig(c)
    ensures |DbName(k, c)| == |DbName(k', c)|
    ensures DbName(k, c) == DbName(k', c) <==> c.month(TimestampMs(k)) == c.month(TimestampMs(k'))
  {
    assert |c.month(TimestampMs(k))| == |c.month(TimestampMs(k'))| == 6;
    if DbName(k, c) == DbName(k', c) {
      SplitEqual(c.dbPrefix + "_", c.month(TimestampMs(k)), c.dbPrefix + "_", c.month(TimestampMs(k')));
    }
  }

  /** Two messages share a physical table exactly when they are of the same month and their keys leave
      the same remainder. */
  lemma SameShard(k: int, k': int, c: Config)
    requires ValidConfig(c)
    ensures QualifiedTable(k, c) == QualifiedTable(k', c)
       <==> c.month(TimestampMs(k)) == c.month(TimestampMs(k')) && k % c.tableCount == k' % c.tableCount
  {
    SameDb(k, k', c);
    SameTable(k % c.tableCount, k' % c.tableCount, c);
    QualifiedIsInjective(DbName(k, c), TableName(k, c), DbName(k', c), TableName(k', c));
  }

  // ---------- batches ----------

  /** The keys among the first `n` that are routed to one table, in the order asked for. */
  function KeysOf(table: string, keys: seq<int>, n: nat, c: Config): seq<int>
    requires n <= |keys| && c.tableCount > 0
  {
    if n == 0 then []
    else KeysOf(table, keys, n - 1, c) + if QualifiedTable(keys[n - 1], c) == table then [keys[n - 1]] else []
  }

  ghost predicate Grouped(grouped: map<string, seq<int>>, keys: seq<int>, n: nat, c: Config)
    requires n <= |keys| && c.tableCount > 0
  {
    && (forall table :: table in grouped <==> KeysOf(table, keys, n, c) != [])
    && (forall table :: table in grouped ==> grouped[table] == KeysOf(table, keys, n, c))
  }

  /** `grouped.setdefault(qualified_table_of(key), []).append(key)` */
  function AddKey(grouped: map<string, seq<int>>, key: int, c: Config): map<string, seq<int>>
    requires c.tableCount > 0
  {
    var table := QualifiedTable(key, c);
    grouped[table := (if table in grouped then grouped[table] else []) + [key]]
  }

  lemma GroupedStep(grouped: map<string, seq<int>>, keys: seq<int>, n: nat, c: Config)
    requires n < |keys| && c.tableCount > 0 && Grouped(grouped, keys, n, c)
    ensures Grouped(AddKey(grouped, keys[n], c), keys, n + 1, c)
  {
    var more := AddKey(grouped, keys[n], c);
    forall table
      ensures table in more <==> KeysOf(table, keys, n + 1, c) != []
      ensures table in more ==> more[table] == KeysOf(table, keys, n + 1, c)
    {
      assert table in grouped <==> KeysOf(table, keys, n, c) != [];
      if table == QualifiedTable(keys[n], c) {
        assert KeysOf(table, keys, n + 1, c) == KeysOf(table, keys, n, c) + [keys[n]];
      } else {
        assert KeysOf(table, keys, n + 1, c) == KeysOf(table, keys, n, c) + [];
        assert table in more <==> table in grouped;
      }
    }
  }

  /** `group_by_shard` */
  method GroupByShard(keys: seq<int>, c: Config) returns (grouped: map<string, seq<int>>)
    requires c.tableCount > 0
    ensures Grouped(grouped, keys, |keys|, c)
  {
    grouped := map[];
    for n := 0 to |keys|
      invariant Grouped(grouped, keys, n, c)
    {
      GroupedStep(grouped, keys, n, c);
      grouped := AddKey(grouped, keys[n], c);
    }
  }

  lemma TakeOneMore(keys: seq<int>, n: nat, k: int)
    requires 0 < n <= |keys|
    ensures k in keys[..n] <==> k in keys[..n - 1] || k == keys[n - 1]
    ensures multiset(keys[..n])[k] == multiset(keys[..n - 1])[k] + if k == keys[n - 1] then 1 else 0
  {
    assert keys[..n] == keys[..n - 1] + [keys[n - 1]];
  }

  lemma {:induction false} KeysOfMember(table: string, keys: seq<int>, n: nat, c: Config, k: int)
    requires n <= |keys| && c.tableCount > 0
    ensures k in KeysOf(table, keys, n, c) <==> k in keys[..n] && QualifiedTable(k, c) == table
  {
    if n > 0 {
      KeysOfMember(table, keys, n - 1, c, k);
      TakeOneMore(keys, n, k);
    }
  }

  lemma {:induction false} KeysOfCount(table: string, keys: seq<int>, n: nat, c: Config, k: int)
    requires n <= |keys| && c.tableCount > 0 && QualifiedTable(k, c) == table
    ensures multiset(KeysOf(table, keys, n, c))[k] == multiset(keys[..n])[k]
  {
    if n > 0 {
      KeysOfCount(table, keys, n - 1, c, k);
      TakeOneMore(keys, n, k);
    }
  }

  /** No key is lost, duplicated or misplaced: a key is in the group of its own table as often as it
      was asked for, and in no other. */
  lemma GroupsKeepEveryKey(grouped: map<string, seq<int>>, keys: seq<int>, c: Config, table: string, k: int)
    requires c.tableCount > 0 && Grouped(grouped, keys, |keys|, c)
    ensures (if table in grouped then multiset(grouped[table])[k] else 0)
            == if table == QualifiedTable(k, c) then multiset(keys)[k] else 0
  {
    assert keys[..|keys|] == keys;
    KeysOfMember(table, keys, |keys|, c, k);
    if table == QualifiedTable(k, c) {
      KeysOfCount(table, keys, |keys|, c, k);
      assert table !in grouped ==> KeysOf(table, keys, |keys|, c) == [];
    }
  }

  /** The stored bodies of one table; a cleared body is `None`. */
  type Shard = map<int, Option<string>>

  /** What the database answers: a table that is absent or cannot be read raises. */
  type Store = map<string, Shard>

  function BodyText(content: Option<string>): string {
    if content.Some? then content.value else ""
  }

  /** Reading one key alone: look in the one table it is routed to. */
  function Lookup(k: int, store: Store, c: Config): Option<string>
    requires c.tableCount > 0
  {
    var table := QualifiedTable(k, c);
    if table in store && k in store[table] then Some(BodyText(store[table][k])) else None
  }

  /** `result` holds what reading each key of `served` alone gives, and nothing else. */
  ghost predicate Reads(result: map<int, string>, served: set<int>, store: Store, c: Config)
    requires c.tableCount > 0
  {
    && (forall k :: k in result <==> k in served && Lookup(k, store, c).Some?)
    && (forall k :: k in result ==> Some(result[k]) == Lookup(k, store, c))
  }

  ghost predicate Merged(merged: map<int, string>, result: map<int, string>, shard: Shard, keys: seq<int>) {
    && (forall k :: k in merged <==> k in result || (k in keys && k in shard))
    && (forall k :: k in merged ==>
         merged[k] == if k in keys && k in shard then BodyText(shard[k]) else result[k])
  }

  /** The rows of one `SELECT ... IN (...)`, merged in the order of the keys; a table holds at most
      one row of a key, so the order of the rows is of no account. */
  method MergeRows(result: map<int, string>, shard: Shard, keys: seq<int>) returns (merged: map<int, string>)
    ensures Merged(merged, result, shard, keys)
  {
    merged := result;
    assert keys[..|keys|] == keys;
    for n := 0 to |keys|
      invariant Merged(merged, result, shard, keys[..n])
    {
      assert keys[..n + 1] == keys[..n] + [keys[n]];
      if keys[n] in shard {
        merged := merged[keys[n] := BodyText(shard[keys[n]])];
      }
    }
  }

  /** The keys that live in one of the tables still to be read are not served yet. */
  ghost predicate ServedOutside(served: set<int>, keys: seq<int>, tables: set<string>, c: Config)
    requires c.tableCount > 0
  {
    forall k :: k in served <==> k in keys && QualifiedTable(k, c) !in tables
  }

  lemma NothingServedYet(grouped: map<string, seq<int>>, keys: seq<int>, c: Config)
    requires c.tableCount > 0 && Grouped(grouped, keys, |keys|, c)
    ensures ServedOutside({}, keys, grouped.Keys, c)
  {
    assert keys[..|keys|] == keys;
    forall k | k in keys ensures QualifiedTable(k, c) in grouped {
      KeysOfMember(QualifiedTable(k, c), keys, |keys|, c, k);
    }
  }

  /** Reading the group of one table serves exactly the keys routed to it. */
  lemma GroupServes(grouped: map<string, seq<int>>, keys: seq<int>, c: Config, table: string,
                    result: map<int, string>, merged: map<int, string>, served: set<int>, now: set<int>, store: Store)
    requires c.tableCount > 0 && Grouped(grouped, keys, |keys|, c) && table in grouped
    requires now == set k | k in keys && QualifiedTable(k, c) == table
    requires Reads(result, served, store, c)
    requires table !in store ==> merged == result
    requires table in store ==> Merged(merged, result, store[table], grouped[table])
    ensures Reads(merged, served + now, store, c)
  {
    assert keys[..|keys|] == keys;
    forall k ensures k in grouped[table] <==> k in now {
      KeysOfMember(table, keys, |keys|, c, k);
    }
  }

  /** `batch_get`: one query for every table that occurs, tables taken in any order; a table that
      cannot be read is skipped. */
  method BatchGet(keys: seq<int>, store: Store, c: Config) returns (result: map<int, string>)
    requires c.tableCount > 0
    ensures Reads(result, (set k | k in keys), store, c)
  {
    result := map[];
    if keys == [] {
      return;
    }
    var grouped := GroupByShard(keys, c);
    var tables := grouped.Keys;
    ghost var served: set<int> := {};
    NothingServedYet(grouped, keys, c);
    while tables != {}
      invariant tables <= grouped.Keys
      invariant ServedOutside(served, keys, tables, c)
      invariant Reads(result, served, store, c)
      decreases |tables|
    {
      var table :| table in tables;
      tables := tables - {table};
      ghost var before := result;
      if table in store {
        result := MergeRows(result, store[table], grouped[table]);
      }
      ghost var now := set k | k in keys && QualifiedTable(k, c) == table;
      GroupServes(grouped, keys, c, table, before, result, served, now, store);
      served := served + now;
    }
    assert forall k :: k in served <==> k in keys;
  }
}
