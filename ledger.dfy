/**
 * The store-credit transactions table (includes/class-transactions.php).
 *
 * The table holds one row per balance change: its direction, its type, the
 * balance before and after, when, whose balance and who made it. The class
 * names the table (prefixed unless AffiliateWP runs network-wide), creates it
 * once and records the schema version, and reads a user's latest 100 rows,
 * newest first. The database itself is abstract state: a map from table name
 * to its rows, and the options table.
 */
module Ledger {
  import opened PhpValues

  /** One row of the table; amounts are in cents, times in seconds. */
  datatype Transaction = Transaction(
    transactionId: int,
    movement: string,
    transactionType: string,
    from: int,
    to: int,
    time: int,
    forUserId: int,
    byUserId: int,
    referenceId: int,
    note: string)

  /** The class's schema version. */
  const Version: string := "1.0.0"
  /** The unprefixed table name. */
  const BaseTableName: string := "affiliate_wp_store_credit_transactions"
  /** The `LIMIT` of the per-user history query. */
  const HistoryLimit: nat := 100

  /** The option that records a table's schema version. */
  function VersionOption(tableName: string): string {
    tableName + "_db_version"
  }

  /**
   * `get_column_defaults()`: the values an inserted row takes for columns it
   * does not set; `now` is the `gmdate()` of the insert.
   */
  function ColumnDefaults(now: int): (t: Transaction)
    ensures t.movement == "increase" && t.transactionType == "unknown"
    ensures t.from == 0 && t.to == 0 && t.to - t.from == 0
    ensures t.forUserId == 0 && t.byUserId == 0 && t.referenceId == 0
    ensures t.note == "" && t.time == now && t.transactionId == 0
  {
    Transaction(0, "increase", "unknown", 0, 0, now, 0, 0, 0, "")
  }

  // ---- The history query: WHERE for_user_id = ? ORDER BY time DESC LIMIT 100 ----

  /** `WHERE for_user_id = userId`, in storage order. */
  function ForUser(rows: seq<Transaction>, userId: int): (r: seq<Transaction>)
    ensures forall t | t in r :: t.forUserId == userId
    ensures forall t :: multiset(r)[t] == if t.forUserId == userId then multiset(rows)[t] else 0
    ensures multiset(r) <= multiset(rows)
  {
    if rows == [] then []
    else
      assert rows == [rows[0]] + rows[1..];
      (if rows[0].forUserId == userId then [rows[0]] else []) + ForUser(rows[1..], userId)
  }

  /** Ordered by `time`, newest first. */
  ghost predicate NewestFirst(s: seq<Transaction>) {
    forall i, j | 0 <= i < j < |s| :: s[i].time >= s[j].time
  }

  /** A row no older than every row of a newest-first sequence may go in front of it. */
  lemma PrependNewestFirst(x: Transaction, s: seq<Transaction>)
    requires NewestFirst(s)
    requires forall y | y in s :: x.time >= y.time
    ensures NewestFirst([x] + s)
  {
    forall i, j | 0 <= i < j < |[x] + s|
      ensures ([x] + s)[i].time >= ([x] + s)[j].time
    {
      if i > 0 {
        assert ([x] + s)[i] == s[i - 1];
      }
      assert ([x] + s)[j] == s[j - 1] && s[j - 1] in s;
    }
  }

  /** Inserts `t` in front of the first row that is not newer than it. */
  function InsertByTime(t: Transaction, s: seq<Transaction>): (r: seq<Transaction>)
    ensures multiset(r) == multiset(s) + multiset{t}
  {
    if s == [] then [t]
    else if t.time >= s[0].time then [t] + s
    else
      assert s == [s[0]] + s[1..];
      [s[0]] + InsertByTime(t, s[1..])
  }

  /** Inserting into a newest-first sequence keeps it newest-first. */
  lemma {:induction false} InsertByTimeKeepsOrder(t: Transaction, s: seq<Transaction>)
    requires NewestFirst(s)
    ensures NewestFirst(InsertByTime(t, s))
  {
    if s == [] {
    } else if t.time >= s[0].time {
      forall y | y in s ensures t.time >= y.time {
        var k :| 0 <= k < |s| && s[k] == y;
        assert k == 0 || s[0].time >= s[k].time;
      }
      PrependNewestFirst(t, s);
    } else {
      var rest := InsertByTime(t, s[1..]);
      InsertByTimeKeepsOrder(t, s[1..]);
      forall y | y in rest ensures s[0].time >= y.time {
        assert y in multiset(rest);
        if y != t {
          assert y in multiset(s[1..]);
          var k :| 0 <= k < |s[1..]| && s[1..][k] == y;
          assert s[k + 1] == y;
        }
      }
      PrependNewestFirst(s[0], rest);
    }
  }

  /**
   * `ORDER BY time DESC`. Rows with equal times keep their storage order: the
   * database guarantees no order among them, and this is one it may use.
   */
  function SortNewestFirst(s: seq<Transaction>): (r: seq<Transaction>)
    ensures NewestFirst(r)
    ensures multiset(r) == multiset(s)
  {
    if s == [] then []
    else
      assert s == [s[0]] + s[1..];
      var sorted := SortNewestFirst(s[1..]);
      InsertByTimeKeepsOrder(s[0], sorted);
      InsertByTime(s[0], sorted)
  }

  /** The result of the query, before `get_transactions_for_user()` checks it. */
  function RecentForUser(rows: seq<Transaction>, userId: int): (r: seq<Transaction>)
    ensures |r| <= HistoryLimit
    ensures forall t | t in r :: t.forUserId == userId
    ensures NewestFirst(r)
    ensures multiset(r) <= multiset(rows)
  {
    var sorted := SortNewestFirst(ForUser(rows, userId));
    var r := if |sorted| <= HistoryLimit then sorted else sorted[..HistoryLimit];
    PrefixOfNewestFirst(sorted, |r|);
    r
  }

  /** A prefix of a newest-first sequence is newest-first and a sub-multiset. */
  lemma PrefixOfNewestFirst(s: seq<Transaction>, k: nat)
    requires NewestFirst(s) && k <= |s|
    ensures NewestFirst(s[..k])
    ensures multiset(s[..k]) <= multiset(s)
  {
    assert s == s[..k] + s[k..];
  }

  /** A user with at most 100 rows gets all of them. */
  lemma RecentForUserComplete(rows: seq<Transaction>, userId: int)
    requires |ForUser(rows, userId)| <= HistoryLimit
    ensures multiset(RecentForUser(rows, userId)) == multiset(ForUser(rows, userId))
    ensures |RecentForUser(rows, userId)| == |ForUser(rows, userId)|
  {
    var sorted := SortNewestFirst(ForUser(rows, userId));
    assert |sorted| == |multiset(sorted)| == |ForUser(rows, userId)|;
  }

  /** A user with more than 100 rows gets exactly 100. */
  lemma RecentForUserFull(rows: seq<Transaction>, userId: int)
    requires |ForUser(rows, userId)| > HistoryLimit
    ensures |RecentForUser(rows, userId)| == HistoryLimit
  {
    var sorted := SortNewestFirst(ForUser(rows, userId));
    assert |sorted| == |multiset(sorted)| == |ForUser(rows, userId)|;
  }

  /** In a newest-first sequence, nothing after the first `k` is newer than them. */
  lemma NewestFirstSplit(s: seq<Transaction>, k: nat)
    requires NewestFirst(s) && k <= |s|
    ensures forall x, y | x in multiset(s) - multiset(s[..k]) && y in s[..k] :: y.time >= x.time
  {
    assert s == s[..k] + s[k..];
    assert multiset(s) - multiset(s[..k]) == multiset(s[k..]);
    forall x, y | x in multiset(s[k..]) && y in s[..k]
      ensures y.time >= x.time
    {
      assert x in s[k..];
      var j :| k <= j < |s| && s[j] == x;
      var i :| 0 <= i < k && s[i] == y;
    }
  }

  /** Every row of the user that is left out is no newer than every row returned. */
  lemma RecentForUserIsNewest(rows: seq<Transaction>, userId: int)
    ensures forall x, y | x in multiset(rows) - multiset(RecentForUser(rows, userId)) && x.forUserId == userId
                       && y in RecentForUser(rows, userId) :: y.time >= x.time
  {
    var matching := ForUser(rows, userId);
    var sorted := SortNewestFirst(matching);
    var r := RecentForUser(rows, userId);
    assert r == sorted[..|r|];
    NewestFirstSplit(sorted, |r|);
    forall x, y | x in multiset(rows) - multiset(r) && x.forUserId == userId && y in r
      ensures y.time >= x.time
    {
      assert multiset(sorted)[x] == multiset(rows)[x];
      assert x in multiset(sorted) - multiset(r);
    }
  }

  // ---- The database and the table class ----

  /** The database as the class sees it: tables by name, and the options table. */
  datatype DbState = DbState(tables: map<string, seq<Transaction>>, options: map<string, string>)

  /** How a PHP call ended: it returned, or it threw an `\Exception`. */
  datatype Outcome = Returned | Threw(message: string)

  datatype Step = Step(state: DbState, outcome: Outcome)

  /**
   * What `create_table()` does to the database. `serverCreates` is whether the
   * `CREATE TABLE` statement leaves the table in place.
   */
  function CreateTableEffect(s: DbState, name: string, serverCreates: bool): (r: Step)
    ensures r.outcome == Returned <==> name in s.tables || serverCreates
    ensures r.outcome == Returned ==> name in r.state.tables
    ensures r.outcome.Threw? ==> r.state == s
    ensures name in s.tables ==> r.state == s
    ensures forall n | n in s.tables :: n in r.state.tables && r.state.tables[n] == s.tables[n]
    ensures forall n | n in r.state.tables :: n in s.tables || n == name
    ensures name !in s.tables && r.outcome == Returned ==>
      r.state.tables[name] == [] && VersionOption(name) in r.state.options &&
      r.state.options[VersionOption(name)] == Version
    ensures forall o | o != VersionOption(name) && o in s.options :: o in r.state.options && r.state.options[o] == s.options[o]
  {
    if name in s.tables then Step(s, Returned)
    else if serverCreates then
      Step(DbState(s.tables[name := []], s.options[VersionOption(name) := Version]), Returned)
    else
      Step(s, Threw("Could not create table " + name))
  }

  /** A second `create_table()` after one that returned changes nothing and returns. */
  lemma CreateTableIdempotent(s: DbState, name: string, first: bool, second: bool)
    requires CreateTableEffect(s, name, first).outcome == Returned
    ensures var once := CreateTableEffect(s, name, first).state;
            CreateTableEffect(once, name, second) == Step(once, Returned)
  {
  }

  /** The database `$wpdb` talks to. */
  class Database {
    var tables: map<string, seq<Transaction>>
    var options: map<string, string>

    constructor(tables: map<string, seq<Transaction>>, options: map<string, string>)
      ensures this.tables == tables && this.options == options
    {
      this.tables := tables;
      this.options := options;
    }

    function State(): DbState
      reads this
    {
      DbState(tables, options)
    }
  }

  /** `$wpdb->get_results()`: the rows, or something that is not an array. */
  datatype QueryResult = Rows(rows: seq<Transaction>) | NotAnArray

  /** The class `Transactions`. */
  class Transactions {
    var tableName: string
    const db: Database

    /**
     * Names the table as `set_table_name()` does. `networkWide` is None when the
     * constant `AFFILIATE_WP_NETWORK_WIDE` is not defined, and otherwise the PHP
     * truthiness of its value; `prefix` is `$wpdb->prefix`.
     */
    constructor(db: Database, prefix: string, networkWide: Option<bool>)
      ensures this.db == db
      ensures tableName == if networkWide == Some(true) then BaseTableName else prefix + BaseTableName
    {
      this.db := db;
      tableName := BaseTableName;
      new;
      SetTableName(prefix, networkWide);
    }

    /**
     * `set_table_name()`: keeps the bare name when AffiliateWP is network-wide,
     * otherwise puts the site's table prefix in front.
     */
    method SetTableName(prefix: string, networkWide: Option<bool>)
      modifies this`tableName
      ensures tableName == if networkWide == Some(true) then old(tableName) else prefix + old(tableName)
    {
      if !(networkWide.Some? && networkWide.value) {
        tableName := prefix + tableName;
      }
    }

    /**
     * `__construct()`: names the table, then creates it. When creation throws
     * the object is not handed out, but the exception is reported here.
     */
    static method Construct(db: Database, prefix: string, networkWide: Option<bool>, serverCreates: bool)
      returns (t: Transactions, outcome: Outcome)
      modifies db
      ensures fresh(t) && t.db == db
      ensures t.tableName == if networkWide == Some(true) then BaseTableName else prefix + BaseTableName
      ensures db.State() == CreateTableEffect(old(db.State()), t.tableName, serverCreates).state
      ensures outcome == CreateTableEffect(old(db.State()), t.tableName, serverCreates).outcome
    {
      t := new Transactions(db, prefix, networkWide);
      outcome := t.CreateTable(serverCreates);
    }

    /**
     * `create_table()`: returns at once when the table exists; otherwise runs
     * `CREATE TABLE`, and records the schema version if the table now exists,
     * or throws if it still does not.
     */
    method CreateTable(serverCreates: bool) returns (outcome: Outcome)
      modifies db
      ensures db.State() == CreateTableEffect(old(db.State()), tableName, serverCreates).state
      ensures outcome == CreateTableEffect(old(db.State()), tableName, serverCreates).outcome
    {
      if tableName in db.tables {
        return Returned;
      }
      if serverCreates {
        db.tables := db.tables[tableName := []];
      }
      if tableName in db.tables {
        db.options := db.options[VersionOption(tableName) := Version];
        return Returned;
      }
      return Threw("Could not create table " + tableName);
    }

    /**
     * `$wpdb->get_results()` of the history query. How `$wpdb` answers a query
     * on a missing table is not part of this model; it is taken to give no
     * array, and `get_transactions_for_user()` makes `[]` of that as it would
     * of an empty array.
     */
    function QueryHistory(userId: int): QueryResult
      reads this, db
    {
      if tableName in db.tables then Rows(RecentForUser(db.tables[tableName], userId)) else NotAnArray
    }

    /** `get_transactions_for_user()`: the query's rows, or `[]` when it gave no array. */
    function GetTransactionsForUser(userId: int): (r: seq<Transaction>)
      reads this, db
      ensures |r| <= HistoryLimit
      ensures forall t | t in r :: t.forUserId == userId
      ensures NewestFirst(r)
      ensures tableName in db.tables ==> multiset(r) <= multiset(db.tables[tableName])
      ensures tableName !in db.tables ==> r == []
      ensures tableName in db.tables ==> r == RecentForUser(db.tables[tableName], userId)
    {
      match QueryHistory(userId)
      case Rows(rows) => rows
      case NotAnArray => []
    }
  }
}
