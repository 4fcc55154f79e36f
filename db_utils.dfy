/**
 * `DatabaseConnection` (db_utils.py): the table-name fallback, the SELECT
 * text built from the field mapping, the per-row value normalisation and
 * the two queries `check_table_exists` and `get_retail_data`. The MySQL
 * server is an input: the tables it has, the rows the SELECT returns and
 * which step (if any) fails.
 */
module DbUtils {
  import opened PyText
  import opened Dates
  import opened Values

  const DefaultTable := "retail_data"

  /** `name.replace('_', '').isalnum()` */
  predicate IsSafeTableName(name: string) {
    IsAlnum(RemoveChar(name, '_'))
  }

  lemma DefaultTableIsSafe()
    ensures IsSafeTableName(DefaultTable)
  {
    var r := RemoveChar(DefaultTable, '_');
    forall i | 0 <= i < |r|
      ensures IsAlnumChar(r[i])
    {
      RemoveCharMembers(DefaultTable, '_', r[i]);
    }
    RemoveCharMembers(DefaultTable, '_', 'r');
  }

  /** The empty name and names made only of underscores are unsafe. */
  lemma {:induction false} OnlyUnderscoresUnsafe(name: string)
    requires forall i :: 0 <= i < |name| ==> name[i] == '_'
    ensures RemoveChar(name, '_') == [] && !IsSafeTableName(name)
  {
    if name != [] {
      OnlyUnderscoresUnsafe(name[1..]);
    }
  }

  /**
   * The table name after the check in the config block: the configured name
   * when it is present and safe, `retail_data` otherwise.
   */
  function ConfiguredTable(configured: Option<string>): (t: string)
    ensures IsSafeTableName(t)
    ensures configured.Some? && IsSafeTableName(configured.value) ==> t == configured.value
    ensures (configured.None? || !IsSafeTableName(configured.value)) ==> t == DefaultTable
  {
    DefaultTableIsSafe();
    match configured
    case None => DefaultTable
    case Some(name) => if name == [] || !IsSafeTableName(name) then DefaultTable else name
  }

  /**
   * MySQL `LIKE` for a pattern free of `%` and `\`: `_` stands for any one
   * character, every other character for itself.
   */
  predicate LikeMatches(pattern: string, name: string) {
    |pattern| == |name| && forall i :: 0 <= i < |pattern| ==> pattern[i] == '_' || pattern[i] == name[i]
  }

  /** `SHOW TABLES LIKE '<t>'` returns a row. */
  predicate ShowTablesFinds(t: string, tables: set<string>) {
    exists x :: x in tables && LikeMatches(t, x)
  }

  lemma ExistingTableIsShown(t: string, tables: set<string>)
    requires t in tables
    ensures ShowTablesFinds(t, tables)
  {
    assert LikeMatches(t, t);
  }

  /** The underscore in `retail_data` is a wildcard, so another table makes the probe succeed. */
  lemma UnderscoreIsWildcard()
    ensures ShowTablesFinds(DefaultTable, {"retailXdata"})
  {
    assert LikeMatches(DefaultTable, "retailXdata");
  }

  /** The table the SELECT reads: the checked name if `SHOW TABLES LIKE` finds it, `retail_data` otherwise. */
  function ResolvedTable(configured: Option<string>, tables: set<string>): (t: string)
    ensures IsSafeTableName(t)
    ensures t == DefaultTable || (configured.Some? && t == configured.value)
    ensures t == ConfiguredTable(configured) <==> ShowTablesFinds(ConfiguredTable(configured), tables) || ConfiguredTable(configured) == DefaultTable
  {
    DefaultTableIsSafe();
    var t := ConfiguredTable(configured);
    if ShowTablesFinds(t, tables) then t else DefaultTable
  }

  // ----- the SELECT text -----

  const ItemIdColumn := "CONCAT('YN', DATE_FORMAT(report_date, '%Y%m%d'), LPAD(id, 6, '0')) as itemId"
  const ReportDateColumn := "DATE_FORMAT(report_date, '%Y-%m-%d')"
  const TodayFilter := "WHERE report_date = CURDATE()"

  /** The query text up to the mapped columns: the fixed itemId column comes first. */
  function QueryHead(): string {
    SelectIntro() + ItemIdColumn + ",\n" + Repeat(' ', 20)
  }

  function SelectIntro(): string {
    "\n" + Repeat(' ', 16) + "SELECT \n" + Repeat(' ', 20)
  }

  /** The query text after the mapped columns: the table and the filter on today's date. */
  function QueryTail(table: string): string {
    "\n" + Repeat(' ', 16) + "FROM " + table + "\n" + Repeat(' ', 16) + TodayFilter + "\n" + Repeat(' ', 12)
  }

  /** One projection entry: `report_date` is reformatted, any other field is used as given. */
  function ProjectionEntry(db: string, api: string): string {
    (if db == "report_date" then ReportDateColumn else db) + " as " + api
  }

  /** `field_list`: one entry per mapping pair, in mapping order. */
  function Projection(fields: seq<(string, string)>): (r: seq<string>)
    ensures |r| == |fields|
    ensures forall i :: 0 <= i < |fields| ==> r[i] == ProjectionEntry(fields[i].0, fields[i].1)
  {
    seq(|fields|, i requires 0 <= i < |fields| => ProjectionEntry(fields[i].0, fields[i].1))
  }

  function QueryText(table: string, fields: seq<(string, string)>): string {
    QueryHead() + Join(Projection(fields), ", ") + QueryTail(table)
  }

  function ShowTablesText(table: string): string {
    "SHOW TABLES LIKE '" + table + "'"
  }

  /** `w` occurs somewhere in `s`. */
  ghost predicate Occurs(w: string, s: string) {
    exists p :: OccursAt(w, s, p)
  }

  predicate OccursAt(w: string, s: string, p: int) {
    0 <= p <= |s| - |w| && s[p..p + |w|] == w
  }

  lemma OccursInside(w: string, a: string, b: string, c: string)
    requires Occurs(w, b)
    ensures Occurs(w, a + b + c)
  {
    var p :| OccursAt(w, b, p);
    assert (a + b + c)[|a| + p..|a| + p + |w|] == w;
    assert OccursAt(w, a + b + c, |a| + p);
  }

  lemma OccursSelf(w: string)
    ensures Occurs(w, w)
  {
    assert w[0..|w|] == w;
    assert OccursAt(w, w, 0);
  }

  lemma {:induction false} OccursInJoin(parts: seq<string>, sep: string, i: nat)
    requires i < |parts|
    ensures Occurs(parts[i], Join(parts, sep))
  {
    if |parts| == 1 {
      OccursSelf(parts[0]);
    } else if i == 0 {
      OccursSelf(parts[0]);
      OccursInside(parts[0], [], parts[0], sep + Join(parts[1..], sep));
      assert [] + parts[0] + (sep + Join(parts[1..], sep)) == Join(parts, sep);
    } else {
      OccursInJoin(parts[1..], sep, i - 1);
      OccursInside(parts[i], parts[0] + sep, Join(parts[1..], sep), []);
      assert parts[0] + sep + Join(parts[1..], sep) + [] == Join(parts, sep);
    }
  }

  /** Whatever the mapping and the table, the query starts with the fixed head holding the itemId column. */
  lemma QueryStartsWithItemId(table: string, fields: seq<(string, string)>)
    ensures QueryText(table, fields)[..|QueryHead()|] == QueryHead()
    ensures OccursAt(ItemIdColumn, QueryText(table, fields), |SelectIntro()|)
  {
    var q, head, n := QueryText(table, fields), QueryHead(), |SelectIntro()|;
    assert q[..|head|] == head;
    assert head[n..n + |ItemIdColumn|] == ItemIdColumn;
    assert q[n..n + |ItemIdColumn|] == head[n..n + |ItemIdColumn|];
  }

  /** Whatever the mapping, the query ends by reading `table` and keeping only today's rows. */
  lemma QueryEndsWithTodayFilter(table: string, fields: seq<(string, string)>)
    ensures var q := QueryText(table, fields);
            var tail := "FROM " + table + "\n" + Repeat(' ', 16) + TodayFilter + "\n" + Repeat(' ', 12);
            |tail| <= |q| && q[|q| - |tail|..] == tail
  {
  }

  /** Every mapped DB field reaches the query text verbatim: field names are not checked for safety. */
  lemma MappedFieldsAppearVerbatim(table: string, fields: seq<(string, string)>, i: nat)
    requires i < |fields|
    ensures fields[i].0 != "report_date" ==> Occurs(fields[i].0 + " as " + fields[i].1, QueryText(table, fields))
    ensures fields[i].0 == "report_date" ==> Occurs(ReportDateColumn + " as " + fields[i].1, QueryText(table, fields))
  {
    OccursInJoin(Projection(fields), ", ", i);
    OccursInside(Projection(fields)[i], QueryHead(), Join(Projection(fields), ", "), QueryTail(table));
  }

  // ----- the itemId column as MySQL computes it -----

  function Pow10(k: nat): (p: nat)
    ensures p >= 1
  {
    if k == 0 then 1 else 10 * Pow10(k - 1)
  }

  /** A number with k+1 digits is written with k+1 characters. */
  lemma {:induction false} DecimalLength(n: nat, k: nat)
    requires Pow10(k) <= n < Pow10(k + 1)
    ensures |Decimal(n)| == k + 1
  {
    if k > 0 {
      DecimalLength(n / 10, k - 1);
    }
  }

  /** MySQL `LPAD(s, n, '0')`: pads on the left, or cuts down to the first n characters. */
  function LPad(s: string, n: nat): (r: string)
    ensures |r| == n
    ensures AllDigits(s) && |s| <= n ==> r == ZFill(s, n)
  {
    if |s| >= n then s[..n] else Repeat('0', n - |s|) + s
  }

  /** The itemId the SELECT yields for a row with date `d` and primary key `id`. */
  function DbItemId(d: Date, id: nat): string
    requires ValidDate(d)
  {
    "YN" + RemoveChar(FormatDate(d), '-') + LPad(Decimal(id), 6)
  }

  /** A number below 10^k has at most k digits. */
  lemma {:induction false} DecimalAtMost(n: nat, k: nat)
    requires 1 <= k && n < Pow10(k)
    ensures |Decimal(n)| <= k
  {
    if n >= 10 {
      DecimalAtMost(n / 10, k - 1);
    }
  }

  /** Below a million, rows of one date get distinct itemIds. */
  lemma DbItemIdInjective(d: Date, i: nat, j: nat)
    requires ValidDate(d) && i < 1000000 && j < 1000000
    requires DbItemId(d, i) == DbItemId(d, j)
    ensures i == j
  {
    var pre := "YN" + RemoveChar(FormatDate(d), '-');
    assert DbItemId(d, i)[|pre|..] == LPad(Decimal(i), 6);
    assert DbItemId(d, j)[|pre|..] == LPad(Decimal(j), 6);
    assert Pow10(6) == 1000000;
    DecimalAtMost(i, 6);
    DecimalAtMost(j, 6);
    ZFillDecimalInjective(i, j, 6);
  }

  /** From a million on, `LPAD` cuts the key to six digits, so neighbouring keys share an itemId. */
  lemma DbItemIdCollides(d: Date)
    requires ValidDate(d)
    ensures DbItemId(d, 1000000) == DbItemId(d, 1000001)
  {
    DecimalLength(100000, 5);
    assert Decimal(1000000) == Decimal(100000) + ['0'];
    assert Decimal(1000001) == Decimal(100000) + ['1'];
    assert LPad(Decimal(1000000), 6) == Decimal(100000) == LPad(Decimal(1000001), 6);
  }

  // ----- row normalisation -----

  /**
   * `processed_row[key]`: a datetime becomes its `%Y-%m-%d` text, a Decimal
   * the float of the same value; every other value is kept, a plain date
   * included (it is not a `datetime`).
   */
  function NormalizeValue(v: Value): (w: Value)
    requires WellFormed(v)
    ensures WellFormed(w)
  {
    match v
    case VDateTime(d, _) => VStr(FormatDate(d))
    case VDecimal(x) => VFloat(x)
    case _ => v
  }

  /** What normalisation does to one value: the text of a datetime parses back to its date. */
  lemma NormalizeValueMeaning(v: Value)
    requires WellFormed(v)
    ensures var w := NormalizeValue(v);
            && (v.VDateTime? ==> w.VStr? && StrpTime(w.s) == Some(v.date))
            && (v.VDecimal? ==> w == VFloat(v.x))
            && (!v.VDateTime? && !v.VDecimal? ==> w == v)
            && !w.VDateTime? && !w.VDecimal?
  {
    if v.VDateTime? {
      FormatThenParse(v.date);
    }
  }

  function NormalizeRow(row: Record): (r: Record)
    requires WellFormedRecord(row)
    ensures r.Keys == row.Keys && WellFormedRecord(r)
  {
    map k | k in row :: NormalizeValue(row[k])
  }

  function NormalizeRows(rows: seq<Record>): (r: seq<Record>)
    requires forall i :: 0 <= i < |rows| ==> WellFormedRecord(rows[i])
    ensures |r| == |rows|
    ensures forall i :: 0 <= i < |rows| ==> r[i] == NormalizeRow(rows[i])
  {
    seq(|rows|, i requires 0 <= i < |rows| => NormalizeRow(rows[i]))
  }

  /** Normalisation keeps the rows, their order and their keys, and changes only datetimes and Decimals. */
  lemma NormalizeRowsKeepsShape(rows: seq<Record>, i: nat, k: string)
    requires forall j :: 0 <= j < |rows| ==> WellFormedRecord(rows[j])
    requires i < |rows| && k in rows[i]
    ensures |NormalizeRows(rows)| == |rows| && NormalizeRows(rows)[i].Keys == rows[i].Keys
    ensures var v, w := rows[i][k], NormalizeRows(rows)[i][k];
            (v.VDateTime? ==> w.VStr? && StrpTime(w.s) == Some(v.date))
            && (v.VDecimal? ==> w == VFloat(v.x))
            && (!v.VDateTime? && !v.VDecimal? ==> w == v)
  {
    NormalizeValueMeaning(rows[i][k]);
  }

  /** Normalising twice is normalising once. */
  lemma NormalizeRowsIdempotent(rows: seq<Record>)
    requires forall i :: 0 <= i < |rows| ==> WellFormedRecord(rows[i])
    ensures var once := NormalizeRows(rows);
            (forall i :: 0 <= i < |once| ==> WellFormedRecord(once[i])) && NormalizeRows(once) == once
  {
    var once := NormalizeRows(rows);
    forall i | 0 <= i < |once|
      ensures NormalizeRow(once[i]) == once[i]
    {
      forall k | k in once[i]
        ensures NormalizeValue(once[i][k]) == once[i][k]
      {
        NormalizeValueMeaning(rows[i][k]);
      }
    }
  }

  // ----- the database as an input -----

  /** The step at which the MySQL server fails, if any. */
  datatype Fault = NoFault | ConnectRefused | CursorRefused | ExecuteFails | SelectFails

  /** The server: its tables, the rows the SELECT returns, and its failure. */
  datatype Server = Server(tables: set<string>, rows: seq<Record>, fault: Fault)

  predicate WellFormedServer(s: Server) {
    forall i :: 0 <= i < |s.rows| ==> WellFormedRecord(s.rows[i])
  }

  /** `config.json` as `get_retail_data` reads it: unreadable, or its `table_mapping` entries. */
  datatype ConfigFile = Unreadable | Loaded(tableName: Option<string>, fields: seq<(string, string)>)

  datatype Exc = ConnectionError | UnboundLocalError

  /** What `get_retail_data` returns, or the exception that escapes it. */
  datatype Fetched = Rows(rows: seq<Record>) | Raised(exc: Exc)

  /** What `check_table_exists` returns, or the exception that escapes it. */
  datatype Probe = Found(present: bool) | ProbeRaised(exc: Exc)

  datatype Statement = Statement(sql: string, params: seq<string>)

  function CountTableText(): string {
    "\n" + Repeat(' ', 16) + "SELECT COUNT(*)\n" + Repeat(' ', 16) + "FROM information_schema.tables \n"
    + Repeat(' ', 16) + "WHERE table_schema = %s \n" + Repeat(' ', 16) + "AND table_name = 'retail_data'\n" + Repeat(' ', 12)
  }

  predicate ConnectFails(connected: bool, s: Server) {
    !connected && s.fault == ConnectRefused
  }

  /**
   * `check_table_exists`: connecting happens outside the `try`, so its error
   * escapes; a cursor that cannot be created leaves `cursor` unbound for the
   * `finally`; any other failure answers False. The table asked about is
   * always `retail_data`.
   */
  function TableCheckOutcome(connected: bool, s: Server): Probe {
    if ConnectFails(connected, s) then ProbeRaised(ConnectionError)
    else if s.fault == CursorRefused then ProbeRaised(UnboundLocalError)
    else if s.fault == ExecuteFails then Found(false)
    else Found(DefaultTable in s.tables)
  }

  /** The configuration block raises (unreadable file or empty field mapping) before the cursor exists. */
  predicate ConfigRaises(config: ConfigFile) {
    config.Unreadable? || config.fields == []
  }

  /**
   * `get_retail_data`: a failure before the cursor exists becomes
   * UnboundLocalError in the `finally`; a failure after it gives `[]`.
   */
  function RetailDataOutcome(connected: bool, config: ConfigFile, s: Server): Fetched
    requires WellFormedServer(s)
  {
    if ConnectFails(connected, s) then Raised(ConnectionError)
    else if ConfigRaises(config) || s.fault == CursorRefused then Raised(UnboundLocalError)
    else if s.fault == ExecuteFails || s.fault == SelectFails then Rows([])
    else Rows(NormalizeRows(s.rows))
  }

  /** The statements `get_retail_data` sends. */
  function RetailDataStatements(connected: bool, config: ConfigFile, s: Server): seq<Statement> {
    if ConnectFails(connected, s) || ConfigRaises(config) || s.fault == CursorRefused then []
    else
      var show := Statement(ShowTablesText(ConfiguredTable(config.tableName)), []);
      if s.fault == ExecuteFails then [show]
      else [show, Statement(QueryText(ResolvedTable(config.tableName, s.tables), config.fields), [])]
  }

  /** An empty field mapping never reaches the SELECT, and the caller gets an exception rather than `[]`. */
  lemma EmptyMappingNeverQueries(connected: bool, table: Option<string>, s: Server)
    requires WellFormedServer(s)
    ensures RetailDataStatements(connected, Loaded(table, []), s) == []
    ensures RetailDataOutcome(connected, Loaded(table, []), s).Raised?
  {
  }

  /** Once the cursor exists, every failure yields an empty list. */
  lemma FailureAfterCursorYieldsEmpty(connected: bool, config: ConfigFile, s: Server)
    requires WellFormedServer(s) && !ConnectFails(connected, s) && !ConfigRaises(config)
    requires s.fault == ExecuteFails || s.fault == SelectFails
    ensures RetailDataOutcome(connected, config, s) == Rows([])
  {
  }

  /** The existence check and the fetch can disagree: the check asks about `retail_data` only. */
  lemma CheckIgnoresMappedTable()
    ensures TableCheckOutcome(true, Server({"sales"}, [], NoFault)) == Found(false)
    ensures ResolvedTable(Some("sales"), {"sales"}) == "sales"
  {
    assert IsSafeTableName("sales") by {
      assert RemoveChar("sales", '_') == "sales";
    }
    ExistingTableIsShown("sales", {"sales"});
  }

  class DatabaseConnection {
    const host: string
    const user: string
    const password: string
    const database: string
    const port: int
    /** `self.conn` is set to a live connection. */
    var conn: bool
    /** The statements sent to the server, in order. */
    var executed: seq<Statement>

    constructor(host: string, user: string, password: string, database: string, port: int := 3306)
      ensures this.host == host && this.user == user && this.password == password
      ensures this.database == database && this.port == port
      ensures !conn && executed == []
    {
      this.host := host;
      this.user := user;
      this.password := password;
      this.database := database;
      this.port := port;
      conn := false;
      executed := [];
    }

    /** `connect`: opens a connection unless one is live; `ok` is false when the error is re-raised. */
    method Connect(s: Server) returns (ok: bool)
      modifies this
      ensures ok == !ConnectFails(old(conn), s)
      ensures conn == (old(conn) || ok) && executed == old(executed)
    {
      if !conn {
        if s.fault == ConnectRefused {
          return false;
        }
        conn := true;
      }
      ok := true;
    }

    method CheckTableExists(s: Server) returns (r: Probe)
      modifies this
      ensures r == TableCheckOutcome(old(conn), s)
      ensures conn == !ConnectFails(old(conn), s) || old(conn)
      ensures executed == old(executed) + (if r.ProbeRaised? then [] else [Statement(CountTableText(), [database])])
    {
      if !conn {
        var ok := Connect(s);
        if !ok {
          return ProbeRaised(ConnectionError);
        }
      }
      if s.fault == CursorRefused {
        return ProbeRaised(UnboundLocalError);
      }
      executed := executed + [Statement(CountTableText(), [database])];
      if s.fault == ExecuteFails {
        return Found(false);
      }
      var count := if DefaultTable in s.tables then 1 else 0;
      r := Found(count != 0);
    }

    method GetRetailData(config: ConfigFile, s: Server) returns (r: Fetched)
      requires WellFormedServer(s)
      modifies this
      ensures r == RetailDataOutcome(old(conn), config, s)
      ensures conn == !ConnectFails(old(conn), s) || old(conn)
      ensures executed == old(executed) + RetailDataStatements(old(conn), config, s)
    {
      if !conn {
        var ok := Connect(s);
        if !ok {
          return Raised(ConnectionError);
        }
      }
      if config.Unreadable? {
        return Raised(UnboundLocalError);
      }
      var tableName := ConfiguredTable(config.tableName);
      if config.fields == [] || s.fault == CursorRefused {
        return Raised(UnboundLocalError);
      }
      executed := executed + [Statement(ShowTablesText(tableName), [])];
      if s.fault == ExecuteFails {
        return Rows([]);
      }
      if !ShowTablesFinds(tableName, s.tables) {
        tableName := DefaultTable;
      }
      var fieldList := BuildFieldList(config.fields);
      var query := QueryHead() + Join(fieldList, ", ") + QueryTail(tableName);
      executed := executed + [Statement(query, [])];
      if s.fault == SelectFails {
        return Rows([]);
      }
      var processed := ProcessRows(s.rows);
      r := Rows(processed);
    }
  }

  /** The `field_list` loop. */
  method BuildFieldList(fields: seq<(string, string)>) returns (fieldList: seq<string>)
    ensures fieldList == Projection(fields)
  {
    fieldList := [];
    for i := 0 to |fields|
      invariant fieldList == Projection(fields[..i])
    {
      var (db, api) := fields[i];
      if db == "report_date" {
        fieldList := fieldList + [ReportDateColumn + " as " + api];
      } else {
        fieldList := fieldList + [db + " as " + api];
      }
      assert fields[..i + 1] == fields[..i] + [fields[i]];
    }
    assert fields[..|fields|] == fields;
  }

  /** The inner loop over `row.items()`. */
  method ProcessRow(row: Record) returns (processed: Record)
    requires WellFormedRecord(row)
    ensures processed == NormalizeRow(row)
  {
    processed := map[];
    var pending := row.Keys;
    while pending != {}
      invariant pending <= row.Keys
      invariant processed.Keys == row.Keys - pending
      invariant forall k :: k in processed ==> processed[k] == NormalizeValue(row[k])
      decreases |pending|
    {
      var key :| key in pending;
      var converted := ConvertValue(row[key]);
      processed := processed[key := converted];
      pending := pending - {key};
    }
    NormalizedEverywhere(row, processed);
  }

  /** A record with the row's keys whose every value is the normalized one is the normalized row. */
  lemma NormalizedEverywhere(row: Record, m: Record)
    requires WellFormedRecord(row) && m.Keys == row.Keys
    requires forall k :: k in m ==> m[k] == NormalizeValue(row[k])
    ensures m == NormalizeRow(row)
  {
    assert m.Keys == NormalizeRow(row).Keys;
  }

  /** The type test on one value inside the row loop. */
  method ConvertValue(value: Value) returns (converted: Value)
    requires WellFormed(value)
    ensures converted == NormalizeValue(value)
  {
    if value.VDateTime? {
      converted := VStr(FormatDate(value.date));
    } else if value.VDecimal? {
      converted := VFloat(value.x);
    } else {
      converted := value;
    }
  }

  /** The outer loop building `processed_results`. */
  method ProcessRows(rows: seq<Record>) returns (processed: seq<Record>)
    requires forall i :: 0 <= i < |rows| ==> WellFormedRecord(rows[i])
    ensures processed == NormalizeRows(rows)
  {
    processed := [];
    for i := 0 to |rows|
      invariant |processed| == i
      invariant forall j :: 0 <= j < i ==> processed[j] == NormalizeRow(rows[j])
    {
      var p := ProcessRow(rows[i]);
      processed := processed + [p];
    }
  }
}
