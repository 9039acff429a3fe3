/** The retry counter a message carries in its headers: `app/consumers/retry.py`. */
module RetryCount {
  import opened Wrappers

  const RETRY_COUNT_HEADER := "x-retry-count"
  const X_DEATH_HEADER := "x-death"
  const DEFAULT_MAX_RETRIES := 3

  /** A decoded header value. `number` is what `int()` reads from a text, when it reads anything. */
  datatype Value =
    | Missing
    | Flag(b: bool)
    | Number(n: int)
    | Finite(r: real)
    | NotANumber
    | Infinite
    | Text(s: string, number: Option<int>)
    | Moment
    | Items(items: seq<Value>)
    | Table(entries: map<string, Value>)

  type Headers = map<string, Value>

  /** The error classes that `is_retryable` tells apart; a subclass counts as its base. */
  datatype Error =
    | DataError | IntegrityError | ProgrammingError
    | ValueError | TypeError | KeyError | AttributeError
    | OtherError

  /** Only errors that are not the message's own fault are worth another attempt. */
  predicate IsRetryable(e: Error) {
    e.OtherError?
  }

  /** The seven classes that stand for a bad message or bad data are given up, and no others. */
  lemma GivenUpClasses(e: Error)
    ensures !IsRetryable(e)
       <==> e in {DataError, IntegrityError, ProgrammingError, ValueError, TypeError, KeyError, AttributeError}
  {
  }

  function Truncated(r: real): int {
    if r >= 0.0 then r.Floor else -(-r).Floor
  }

  /** Digits behind the point are dropped, on both sides of zero. */
  lemma TruncatedIs(r: real, n: int)
    ensures n == Truncated(r) <==> if r >= 0.0 then n as real <= r < n as real + 1.0 else n as real - 1.0 < r <= n as real
  {
  }

  /** `_to_int`: unreadable values count 0; `None` is the overflow error of `int(inf)`, which the
      function does not catch. */
  function ToInt(v: Value): Option<int> {
    match v
    case Flag(b) => Some(if b then 1 else 0)
    case Number(n) => Some(n)
    case Finite(r) => Some(Truncated(r))
    case Infinite => None
    case Text(_, number) => Some(if number.Some? then number.value else 0)
    case _ => Some(0)
  }

  /** What `int()` makes of a flag, a number and a text, and what it makes 0 of. */
  lemma NumbersAreRead(n: int, s: string)
    ensures ToInt(Flag(true)) == Some(1) && ToInt(Flag(false)) == Some(0)
    ensures ToInt(Number(n)) == Some(n) && ToInt(Text(s, Some(n))) == Some(n) && ToInt(Text(s, None)) == Some(0)
    ensures ToInt(Missing) == ToInt(NotANumber) == ToInt(Moment) == Some(0) && ToInt(Infinite) == None
    ensures forall items: seq<Value> :: ToInt(Items(items)) == Some(0)
    ensures forall entries: Headers :: ToInt(Table(entries)) == Some(0)
  {
  }

  function Get(entries: Headers, key: string): Value {
    if key in entries then entries[key] else Missing
  }

  /** The truth value of `headers.get("x-death")`. */
  predicate Truthy(v: Value) {
    match v
    case Missing => false
    case Flag(b) => b
    case Number(n) => n != 0
    case Finite(r) => r != 0.0
    case Text(s, _) => s != ""
    case Items(items) => items != []
    case Table(entries) => entries != map[]
    case _ => true
  }

  /** The counts of the table entries among the first `k`; `None` when one overflows. */
  function EntryCounts(items: seq<Value>, k: nat): Option<seq<int>>
    requires k <= |items|
  {
    if k == 0 then Some([])
    else
      var rest := EntryCounts(items, k - 1);
      var d := items[k - 1];
      if rest.None? || !d.Table? then rest
      else
        var count := ToInt(if "count" in d.entries then d.entries["count"] else Number(0));
        if count.None? then None else Some(rest.value + [count.value])
  }

  /** What the loop over `x-death` collects; `None` when reading it raises. Texts and tables are
      iterated over their characters and keys, none of which is a table. */
  function Deaths(v: Value): Option<seq<int>> {
    if !Truthy(v) then Some([])
    else match v
      case Items(items) => EntryCounts(items, |items|)
      case Text(_, _) => Some([])
      case Table(_) => Some([])
      case _ => None
  }

  function MaxOf(first: int, rest: seq<int>): (m: int)
    ensures m >= first && (forall x :: x in rest ==> m >= x) && (m == first || m in rest)
  {
    if |rest| == 0 then first
    else
      var n := |rest| - 1;
      var m := MaxOf(first, rest[..n]);
      assert rest == rest[..n] + [rest[n]];
      if rest[n] > m then rest[n] else m
  }

  /** `retry_count`: any error on the way counts 0. */
  function Count(headers: Headers): int {
    var own := ToInt(Get(headers, RETRY_COUNT_HEADER));
    var deaths := Deaths(Get(headers, X_DEATH_HEADER));
    if own.None? || deaths.None? then 0 else MaxOf(own.value, deaths.value)
  }

  /** The counts in the tables of an `x-death` list; a table without one counts 0. */
  ghost predicate HasCount(items: seq<Value>, count: int) {
    exists i :: 0 <= i < |items| && items[i].Table? && ToInt(CountEntry(items[i])) == Some(count)
  }

  function CountEntry(table: Value): Value
    requires table.Table?
  {
    if "count" in table.entries then table.entries["count"] else Number(0)
  }

  lemma {:induction false} EntryCountsAre(items: seq<Value>, k: nat, count: int)
    requires k <= |items|
    ensures EntryCounts(items, k).None?
       <==> exists i :: 0 <= i < k && items[i].Table? && ToInt(CountEntry(items[i])).None?
    ensures EntryCounts(items, k).Some? ==> (count in EntryCounts(items, k).value <==> HasCount(items[..k], count))
  {
    if k > 0 {
      EntryCountsAre(items, k - 1, count);
      OneMoreEntry(items, k, count);
    }
  }

  lemma OneMoreEntry(items: seq<Value>, k: nat, count: int)
    requires 0 < k <= |items|
    ensures HasCount(items[..k], count)
       <==> HasCount(items[..k - 1], count) || (items[k - 1].Table? && ToInt(CountEntry(items[k - 1])) == Some(count))
  {
    if HasCount(items[..k], count) {
      var i :| 0 <= i < k && items[..k][i].Table? && ToInt(CountEntry(items[..k][i])) == Some(count);
      assert i < k - 1 ==> items[..k - 1][i] == items[i];
    }
    if HasCount(items[..k - 1], count) {
      var i :| 0 <= i < k - 1 && items[..k - 1][i].Table? && ToInt(CountEntry(items[..k - 1][i])) == Some(count);
      assert items[..k][i] == items[i];
    }
    if items[k - 1].Table? && ToInt(CountEntry(items[k - 1])) == Some(count) {
      assert items[..k][k - 1] == items[k - 1];
    }
  }

  /** For a list of deaths the count is the largest of the counter and the counts of the list. */
  lemma CountIsLargest(headers: Headers, items: seq<Value>, n: int)
    requires Get(headers, X_DEATH_HEADER) == Items(items) && ReadableDeaths(headers) && ReadableCount(headers)
    ensures var own := ToInt(Get(headers, RETRY_COUNT_HEADER)).value;
            n == Count(headers) <==> (n == own || HasCount(items, n)) && n >= own && forall c :: HasCount(items, c) ==> n >= c
  {
    var own, deaths := ToInt(Get(headers, RETRY_COUNT_HEADER)).value, Deaths(Get(headers, X_DEATH_HEADER)).value;
    forall c ensures c in deaths <==> HasCount(items, c) {
      EntryCountsAre(items, |items|, c);
      assert items[..|items|] == items;
    }
    assert Count(headers) == MaxOf(own, deaths);
  }

  /** The headers that `republish_with_retry_count` writes: every other header is kept. */
  function Republished(headers: Headers, retries: int): (h: Headers)
    ensures Get(h, RETRY_COUNT_HEADER) == Number(retries)
    ensures forall key :: key != RETRY_COUNT_HEADER ==> Get(h, key) == Get(headers, key)
  {
    headers[RETRY_COUNT_HEADER := Number(retries)]
  }

  /** Reading `x-death` raises no error. */
  predicate ReadableDeaths(headers: Headers) {
    Deaths(Get(headers, X_DEATH_HEADER)).Some?
  }

  predicate ReadableCount(headers: Headers) {
    ToInt(Get(headers, RETRY_COUNT_HEADER)).Some?
  }

  /** The republished count is one higher exactly when `x-death` can be read and does not already
      hold more than that; the second half only matters when the old counter was unreadable. */
  lemma CountedOnceMore(headers: Headers)
    ensures Count(Republished(headers, Count(headers) + 1)) == Count(headers) + 1
       <==> ReadableDeaths(headers)
            && forall d :: d in Deaths(Get(headers, X_DEATH_HEADER)).value ==> d <= Count(headers) + 1
  {
    var again := Republished(headers, Count(headers) + 1);
    assert Get(again, X_DEATH_HEADER) == Get(headers, X_DEATH_HEADER);
    if ReadableDeaths(headers) {
      var deaths := Deaths(Get(headers, X_DEATH_HEADER)).value;
      assert Count(again) == MaxOf(Count(headers) + 1, deaths);
    }
  }

  /** With both headers readable a republished message counts exactly one more, `x-death` or not,
      and both headers stay readable. */
  lemma ReadableCountsOnceMore(headers: Headers)
    requires ReadableDeaths(headers) && ReadableCount(headers)
    ensures var again := Republished(headers, Count(headers) + 1);
            Count(again) == Count(headers) + 1 && ReadableDeaths(again) && ReadableCount(again)
  {
    var again := Republished(headers, Count(headers) + 1);
    assert Get(again, X_DEATH_HEADER) == Get(headers, X_DEATH_HEADER);
    CountedOnceMore(headers);
  }

  /** A republished message with an unreadable `x-death` counts 0 whatever was written. */
  lemma UnreadableNeverCounts(headers: Headers, retries: int)
    requires !ReadableDeaths(headers)
    ensures Count(headers) == 0
    ensures Count(Republished(headers, retries)) == 0 && !ReadableDeaths(Republished(headers, retries))
  {
    assert Get(Republished(headers, retries), X_DEATH_HEADER) == Get(headers, X_DEATH_HEADER);
  }

  /** The counter is not always one higher: a number in `x-death` cannot be iterated. */
  lemma CountCanStandStill()
    ensures var headers: Headers := map[X_DEATH_HEADER := Number(5)];
            Count(Republished(headers, Count(headers) + 1)) == Count(headers)
  {
    var headers: Headers := map[X_DEATH_HEADER := Number(5)];
    assert !ReadableDeaths(headers);
    UnreadableNeverCounts(headers, 1);
  }
}
