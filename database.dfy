/** The row and parameter shaping of the SQL worker (`WorkerDatabase`): how a
    JavaScript record becomes bound parameters, how the statements that
    insert, update, delete and create are built, and how a cursor is read out.
    The database itself is a log of the statements run against it, each with
    the parameters bound to it. */
module WorkerDb {
  import opened Strings

  /** A JavaScript value as it reaches the worker. */
  datatype Value =
    | Undefined
    | Null
    | Bool(b: bool)
    | Num(x: real)
    | NaN
    | BigInt(i: int)
    | Str(s: string)
    | Arr(items: seq<Value>)
    | Obj(entries: seq<(string, Value)>)

  /** A plain object: its entries in key order. */
  type Record = seq<(string, Value)>

  /** A statement run against the database with the parameters bound to it. */
  datatype SqlCall = SqlCall(sql: string, params: Record)

  /** The key `formatData` callers add for unparsed CSV columns; never inserted. */
  const ParsedExtra: string := "__parsed_extra"

  /** The match key `updateData` and `deleteData` use when none is given. */
  const DefaultKey: string := "id"

  /** JavaScript's falsy values. */
  predicate Falsy(v: Value) {
    v == Undefined || v == Null || v == Bool(false) || v == Num(0.0) || v == NaN || v == BigInt(0) || v == Str("")
  }

  /** The values SQLite can store: NULL, a number or a text. */
  predicate IsSqlValue(v: Value) {
    v.Null? || v.Num? || v.BigInt? || v.Str?
  }

  function Keys(r: Record): (ks: seq<string>)
    ensures |ks| == |r|
    ensures forall i :: 0 <= i < |r| ==> ks[i] == r[i].0
  {
    if |r| == 0 then [] else [r[0].0] + Keys(r[1..])
  }

  /** A JavaScript object never holds a key twice. */
  predicate UniqueKeys(r: Record) {
    forall i, j :: 0 <= i < j < |r| ==> r[i].0 != r[j].0
  }

  /** `record[key]`: the value under the key, `undefined` when there is none. */
  function Lookup(r: Record, key: string): Value {
    if |r| == 0 then Undefined else if r[0].0 == key then r[0].1 else Lookup(r[1..], key)
  }

  // ---------------------------------------------------------------------------
  // formatData and recordToBindParams.

  /** One value as `formatData` stores it; `stringify` is `JSON.stringify`. */
  function FormatValue(stringify: Value -> string, v: Value): (r: Value)
    ensures IsSqlValue(r)
    ensures v.Bool? ==> r == Num(if v.b then 1.0 else 0.0)
    ensures r == Null <==> Falsy(v) && !v.Bool?
    ensures (v.Obj? || v.Arr?) ==> r == Str(stringify(v))
    ensures IsSqlValue(v) && !Falsy(v) ==> r == v
  {
    if v.Bool? then Num(if v.b then 1.0 else 0.0)
    else if Falsy(v) then Null
    else if v.Obj? || v.Arr? then Str(stringify(v))
    else v
  }

  /** `formatData`: every entry kept, in order, with its value formatted. */
  function FormatData(stringify: Value -> string, d: Record): (r: Record)
    ensures |r| == |d|
  {
    if |d| == 0 then [] else [(d[0].0, FormatValue(stringify, d[0].1))] + FormatData(stringify, d[1..])
  }

  /** `recordToBindParams`: every key `k` becomes the named parameter `@k`. */
  function RecordToBindParams(r: Record): (p: Record)
    ensures |p| == |r|
  {
    if |r| == 0 then [] else [("@" + r[0].0, r[0].1)] + RecordToBindParams(r[1..])
  }

  /** The inverse of `RecordToBindParams`: drops the leading `@` of every name. */
  function Unbind(p: Record): Record {
    if |p| == 0 then []
    else [(if |p[0].0| > 0 then p[0].0[1..] else p[0].0, p[0].1)] + Unbind(p[1..])
  }

  /** `formatData` keeps the keys, in their order. */
  lemma {:induction false} FormatDataKeys(stringify: Value -> string, d: Record)
    ensures Keys(FormatData(stringify, d)) == Keys(d)
  {
    if |d| > 0 {
      FormatDataKeys(stringify, d[1..]);
    }
  }

  /** Each key's value in the formatted record is its formatted value. */
  lemma {:induction false} FormatDataLookup(stringify: Value -> string, d: Record, key: string)
    requires key in Keys(d)
    ensures Lookup(FormatData(stringify, d), key) == FormatValue(stringify, Lookup(d, key))
  {
    if d[0].0 != key {
      assert key in Keys(d[1..]);
      FormatDataLookup(stringify, d[1..], key);
    }
  }

  /** Formatting again changes nothing, except that `false`, stored as `0`,
      would then become NULL. */
  lemma FormatValueStable(stringify: Value -> string, v: Value)
    requires v != Bool(false)
    requires (v.Obj? || v.Arr?) ==> stringify(v) != ""
    ensures FormatValue(stringify, FormatValue(stringify, v)) == FormatValue(stringify, v)
  {
  }

  lemma {:induction false} BindParamsRoundTrip(r: Record)
    ensures Unbind(RecordToBindParams(r)) == r
  {
    if |r| > 0 {
      BindParamsRoundTrip(r[1..]);
      assert ("@" + r[0].0)[1..] == r[0].0;
    }
  }

  /** The parameter `@k` carries the record's value under `k`. */
  lemma {:induction false} BindParamsLookup(r: Record, key: string)
    ensures Lookup(RecordToBindParams(r), "@" + key) == Lookup(r, key)
  {
    if |r| > 0 {
      if r[0].0 != key {
        assert ("@" + r[0].0)[1..] == r[0].0 && ("@" + key)[1..] == key;
      }
      BindParamsLookup(r[1..], key);
    }
  }

  lemma {:induction false} BindParamsKeys(r: Record)
    ensures forall i :: 0 <= i < |r| ==> Keys(RecordToBindParams(r))[i] == "@" + r[i].0
  {
    if |r| > 0 {
      BindParamsKeys(r[1..]);
    }
  }

  /** Distinct keys stay distinct parameter names. */
  lemma BindParamsUnique(r: Record)
    requires UniqueKeys(r)
    ensures UniqueKeys(RecordToBindParams(r))
  {
    var p := RecordToBindParams(r);
    BindParamsKeys(r);
    forall i, j | 0 <= i < j < |p| ensures p[i].0 != p[j].0 {
      assert Keys(p)[i] == "@" + r[i].0 && Keys(p)[j] == "@" + r[j].0;
      assert ("@" + r[i].0)[1..] == r[i].0 && ("@" + r[j].0)[1..] == r[j].0;
    }
  }

  // ---------------------------------------------------------------------------
  // Key lists.

  /** Appends the keys of `ks` not already in `acc`, first occurrence first:
      the key order of an object spread, and lodash's `uniq` from `[]`. */
  function AddNew(acc: seq<string>, ks: seq<string>): (r: seq<string>)
    ensures forall k :: k in r <==> k in acc || k in ks
    ensures acc <= r
    decreases |ks|
  {
    if |ks| == 0 then acc else AddNew(if ks[0] in acc then acc else acc + [ks[0]], ks[1..])
  }

  predicate Distinct(ks: seq<string>) {
    forall i, j :: 0 <= i < j < |ks| ==> ks[i] != ks[j]
  }

  lemma {:induction false} AddNewDistinct(acc: seq<string>, ks: seq<string>)
    requires Distinct(acc)
    ensures Distinct(AddNew(acc, ks))
    decreases |ks|
  {
    if |ks| > 0 {
      AddNewDistinct(if ks[0] in acc then acc else acc + [ks[0]], ks[1..]);
    }
  }

  /** lodash's `uniq`. */
  function Uniq(ks: seq<string>): seq<string> {
    AddNew([], ks)
  }

  lemma UniqSpec(ks: seq<string>)
    ensures Distinct(Uniq(ks))
    ensures forall k :: k in Uniq(ks) <==> k in ks
    ensures Distinct(ks) ==> Uniq(ks) == ks
  {
    AddNewDistinct([], ks);
    if Distinct(ks) {
      AddNewKeepsDistinct([], ks);
    }
  }

  /** When nothing repeats, adding keeps every key, in order. */
  lemma {:induction false} AddNewKeepsDistinct(acc: seq<string>, ks: seq<string>)
    requires Distinct(acc + ks)
    ensures AddNew(acc, ks) == acc + ks
    decreases |ks|
  {
    if |ks| > 0 {
      assert (acc + ks)[|acc|] == ks[0];
      assert acc + [ks[0]] + ks[1..] == acc + ks;
      AddNewKeepsDistinct(acc + [ks[0]], ks[1..]);
    }
  }

  /** The keys of `{...d0, ...d1, ...}`: every key of every record, first
      occurrence first. */
  function UnionKeys(data: seq<Record>): seq<string>
    decreases |data|
  {
    if |data| == 0 then [] else AddNew(UnionKeys(data[..|data| - 1]), Keys(data[|data| - 1]))
  }

  /** Some record of the list has the key. */
  predicate InSomeRecord(data: seq<Record>, k: string) {
    exists i :: 0 <= i < |data| && k in Keys(data[i])
  }

  lemma InSomeRecordSnoc(data: seq<Record>, k: string)
    requires |data| > 0
    ensures InSomeRecord(data, k) <==> InSomeRecord(data[..|data| - 1], k) || k in Keys(data[|data| - 1])
  {
    var init := data[..|data| - 1];
    if InSomeRecord(init, k) {
      var i :| 0 <= i < |init| && k in Keys(init[i]);
      assert data[i] == init[i];
    }
    if InSomeRecord(data, k) {
      var i :| 0 <= i < |data| && k in Keys(data[i]);
      if i < |init| {
        assert data[i] == init[i];
      }
    }
  }

  /** The merged keys hold no key twice, and exactly the keys some record has. */
  lemma {:induction false} UnionKeysSpec(data: seq<Record>)
    ensures Distinct(UnionKeys(data))
    ensures forall k :: k in UnionKeys(data) <==> InSomeRecord(data, k)
    decreases |data|
  {
    if |data| > 0 {
      var init := data[..|data| - 1];
      UnionKeysSpec(init);
      AddNewDistinct(UnionKeys(init), Keys(data[|data| - 1]));
      forall k ensures k in UnionKeys(data) <==> InSomeRecord(data, k) {
        InSomeRecordSnoc(data, k);
      }
    }
  }

  // ---------------------------------------------------------------------------
  // The statements.

  function Placeholders(cols: seq<string>): (r: seq<string>)
    ensures |r| == |cols|
    ensures forall i :: 0 <= i < |cols| ==> r[i] == "@" + cols[i]
  {
    if |cols| == 0 then [] else ["@" + cols[0]] + Placeholders(cols[1..])
  }

  /** The inserted columns: the record's keys without `__parsed_extra`. */
  function InsertColumns(d: Record): (cols: seq<string>)
    ensures forall k :: k in cols <==> k in Keys(d) && k != ParsedExtra
  {
    if |d| == 0 then []
    else (if d[0].0 == ParsedExtra then [] else [d[0].0]) + InsertColumns(d[1..])
  }

  function InsertStatement(table: string, cols: seq<string>): string {
    "INSERT INTO " + table + " (" + Join(cols, ", ") + ") VALUES (" + Join(Placeholders(cols), ", ") + ")"
  }

  /** What `insertData` runs for one record. */
  function InsertCall(stringify: Value -> string, table: string, d: Record): SqlCall {
    SqlCall(InsertStatement(table, InsertColumns(d)), RecordToBindParams(FormatData(stringify, d)))
  }

  function InsertCalls(stringify: Value -> string, table: string, data: seq<Record>): (r: seq<SqlCall>)
    ensures |r| == |data|
    decreases |data|
  {
    if |data| == 0 then [] else InsertCalls(stringify, table, data[..|data| - 1]) + [InsertCall(stringify, table, data[|data| - 1])]
  }

  /** Every placeholder of an INSERT names a bound parameter, which carries the
      formatted value of its column. */
  lemma InsertPlaceholdersBound(stringify: Value -> string, table: string, d: Record)
    ensures var call := InsertCall(stringify, table, d);
      var cols := InsertColumns(d);
      forall i :: 0 <= i < |cols| ==>
        Placeholders(cols)[i] in Keys(call.params) &&
        Lookup(call.params, Placeholders(cols)[i]) == FormatValue(stringify, Lookup(d, cols[i]))
  {
    var cols := InsertColumns(d);
    var formatted := FormatData(stringify, d);
    FormatDataKeys(stringify, d);
    BindParamsKeys(formatted);
    forall i | 0 <= i < |cols|
      ensures Placeholders(cols)[i] in Keys(RecordToBindParams(formatted))
      ensures Lookup(RecordToBindParams(formatted), Placeholders(cols)[i]) == FormatValue(stringify, Lookup(d, cols[i]))
    {
      assert cols[i] in cols;
      var j :| 0 <= j < |d| && Keys(d)[j] == cols[i];
      assert Keys(formatted)[j] == cols[i];
      assert Keys(RecordToBindParams(formatted))[j] == "@" + cols[i];
      BindParamsLookup(formatted, cols[i]);
      FormatDataLookup(stringify, d, cols[i]);
    }
  }

  /** One INSERT per record, in the order of the records. */
  lemma {:induction false} InsertCallsAt(stringify: Value -> string, table: string, data: seq<Record>, i: nat)
    requires i < |data|
    ensures InsertCalls(stringify, table, data)[i] == InsertCall(stringify, table, data[i])
    decreases |data|
  {
    if i < |data| - 1 {
      InsertCallsAt(stringify, table, data[..|data| - 1], i);
    }
  }

  function Assignments(fields: seq<string>): (r: seq<string>)
    ensures |r| == |fields|
    ensures forall i :: 0 <= i < |fields| ==> r[i] == fields[i] + " = @" + fields[i]
  {
    if |fields| == 0 then [] else [fields[0] + " = @" + fields[0]] + Assignments(fields[1..])
  }

  function UpdateStatement(table: string, fields: seq<string>, matchKey: string): string {
    "UPDATE " + table + " SET " + Join(Assignments(fields), ", ") + " WHERE " + matchKey + " = @" + matchKey
  }

  /** What `updateData` runs for each record: the same statement, over the
      keys of all the records, with the record's own values bound unformatted. */
  function UpdateCalls(table: string, fields: seq<string>, matchKey: string, data: seq<Record>): (r: seq<SqlCall>)
    ensures |r| == |data|
    decreases |data|
  {
    if |data| == 0 then []
    else UpdateCalls(table, fields, matchKey, data[..|data| - 1]) +
         [SqlCall(UpdateStatement(table, fields, matchKey), RecordToBindParams(data[|data| - 1]))]
  }

  lemma {:induction false} UpdateCallsAt(table: string, fields: seq<string>, matchKey: string, data: seq<Record>, i: nat)
    requires i < |data|
    ensures UpdateCalls(table, fields, matchKey, data)[i] ==
      SqlCall(UpdateStatement(table, fields, matchKey), RecordToBindParams(data[i]))
    decreases |data|
  {
    if i < |data| - 1 {
      UpdateCallsAt(table, fields, matchKey, data[..|data| - 1], i);
    }
  }

  /** A SET field is bound for a record exactly when the record has that key;
      the others are left unbound, which SQLite reads as NULL. */
  lemma UpdateFieldBound(d: Record, field: string)
    ensures "@" + field in Keys(RecordToBindParams(d)) <==> field in Keys(d)
  {
    BindParamsKeys(d);
    var p := RecordToBindParams(d);
    if "@" + field in Keys(p) {
      var j :| 0 <= j < |p| && Keys(p)[j] == "@" + field;
      assert ("@" + d[j].0)[1..] == d[j].0 && ("@" + field)[1..] == field;
      assert Keys(d)[j] == field;
    }
    if field in Keys(d) {
      var j :| 0 <= j < |d| && Keys(d)[j] == field;
      assert Keys(p)[j] == "@" + field;
    }
  }

  function DeleteCall(name: string, key: string, d: Record): SqlCall {
    SqlCall("DELETE FROM " + name + " WHERE " + key + " = @" + key, [("@" + key, Lookup(d, key))])
  }

  function DeleteCalls(name: string, key: string, data: seq<Record>): (r: seq<SqlCall>)
    ensures |r| == |data|
    decreases |data|
  {
    if |data| == 0 then [] else DeleteCalls(name, key, data[..|data| - 1]) + [DeleteCall(name, key, data[|data| - 1])]
  }

  /** Each DELETE binds only the match key, to the record's value under it. */
  lemma {:induction false} DeleteCallsAt(name: string, key: string, data: seq<Record>, i: nat)
    requires i < |data|
    ensures DeleteCalls(name, key, data)[i].params == [("@" + key, Lookup(data[i], key))]
    decreases |data|
  {
    if i < |data| - 1 {
      DeleteCallsAt(name, key, data[..|data| - 1], i);
    }
  }

  function DropTableCall(table: string): SqlCall {
    SqlCall("DROP TABLE IF EXISTS " + table, [])
  }

  /** `createTableNoTypes`: the table is dropped first unless `noDrop`, then
      created over the distinct sanitised column names. */
  function CreateTableCalls(sanitise: string -> string, table: string, columns: seq<string>, noDrop: bool): seq<SqlCall> {
    (if noDrop then [] else [DropTableCall(table)]) +
    [SqlCall("CREATE TABLE IF NOT EXISTS " + table + "(" + Join(Uniq(SanitisedAll(sanitise, columns)), ",") + ")", [])]
  }

  function SanitisedAll(sanitise: string -> string, columns: seq<string>): (r: seq<string>)
    ensures |r| == |columns|
    ensures forall i :: 0 <= i < |columns| ==> r[i] == sanitise(columns[i])
  {
    if |columns| == 0 then [] else [sanitise(columns[0])] + SanitisedAll(sanitise, columns[1..])
  }

  /** The created table has each sanitised column name exactly once, and no
      other column. */
  lemma CreateTableColumns(sanitise: string -> string, columns: seq<string>)
    ensures Distinct(Uniq(SanitisedAll(sanitise, columns)))
    ensures forall i :: 0 <= i < |columns| ==> sanitise(columns[i]) in Uniq(SanitisedAll(sanitise, columns))
    ensures forall c :: c in Uniq(SanitisedAll(sanitise, columns)) ==> c in SanitisedAll(sanitise, columns)
  {
    var names := SanitisedAll(sanitise, columns);
    UniqSpec(names);
    forall i | 0 <= i < |columns| ensures sanitise(columns[i]) in Uniq(names) {
      assert names[i] == sanitise(columns[i]);
    }
  }

  /** Only `noDrop` decides whether the existing table is dropped first. */
  lemma CreateTableDrops(sanitise: string -> string, table: string, columns: seq<string>, noDrop: bool)
    ensures |CreateTableCalls(sanitise, table, columns, noDrop)| == if noDrop then 1 else 2
    ensures !noDrop ==> CreateTableCalls(sanitise, table, columns, noDrop)[0] == DropTableCall(table)
  {
  }

  // ---------------------------------------------------------------------------
  // The cursor and the database.

  /** A prepared statement being stepped through: its result rows and how many
      have been stepped over. */
  class Cursor {
    const rows: seq<Record>
    var pos: nat

    ghost predicate Valid()
      reads this
    {
      pos <= |rows|
    }

    constructor(rows: seq<Record>)
      ensures this.rows == rows && pos == 0 && Valid()
    {
      this.rows := rows;
      pos := 0;
    }

    /** `step()`: moves to the next row, false once there is none. */
    method Step() returns (more: bool)
      requires Valid()
      modifies this
      ensures Valid()
      ensures more <==> old(pos) < |rows|
      ensures pos == if more then old(pos) + 1 else old(pos)
    {
      more := pos < |rows|;
      if more {
        pos := pos + 1;
      }
    }

    /** `getAsObject()`: the row the cursor is on. */
    method GetAsObject() returns (row: Record)
      requires 0 < pos <= |rows|
      ensures row == rows[pos - 1]
    {
      row := rows[pos - 1];
    }
  }

  /** `toObjectArray`: every remaining row, in cursor order. */
  method ToObjectArray(stmt: Cursor) returns (ret: seq<Record>)
    requires stmt.Valid()
    modifies stmt
    ensures stmt.Valid() && stmt.pos == |stmt.rows|
    ensures ret == stmt.rows[old(stmt.pos)..]
  {
    ret := [];
    ghost var start := stmt.pos;
    while true
      invariant stmt.Valid() && start <= stmt.pos
      invariant ret == stmt.rows[start..stmt.pos]
      decreases |stmt.rows| - stmt.pos
    {
      var more := stmt.Step();
      if !more {
        break;
      }
      var row := stmt.GetAsObject();
      assert stmt.rows[start..stmt.pos] == stmt.rows[start..stmt.pos - 1] + [row];
      ret := ret + [row];
    }
  }

  /** The worker's database, as the log of the statements run against it.
      `stringify` is `JSON.stringify` and `sanitise` the column-name
      sanitiser. */
  class WorkerDatabase {
    const stringify: Value -> string
    const sanitise: string -> string
    var executed: seq<SqlCall>

    constructor(stringify: Value -> string, sanitise: string -> string)
      ensures this.stringify == stringify && this.sanitise == sanitise
      ensures executed == []
    {
      this.stringify := stringify;
      this.sanitise := sanitise;
      executed := [];
    }

    method Run(call: SqlCall)
      modifies this
      ensures executed == old(executed) + [call]
    {
      executed := executed + [call];
    }

    method InsertData(table: string, data: seq<Record>)
      modifies this
      ensures executed == old(executed) + InsertCalls(stringify, table, data)
    {
      var i := 0;
      while i < |data|
        invariant i <= |data|
        invariant executed == old(executed) + InsertCalls(stringify, table, data[..i])
      {
        var d := data[i];
        var columns := InsertColumns(d);
        var statement := InsertStatement(table, columns);
        Run(SqlCall(statement, RecordToBindParams(FormatData(stringify, d))));
        assert data[..i + 1][..i] == data[..i];
        i := i + 1;
      }
      assert data[..|data|] == data;
    }

    method UpdateData(table: string, data: seq<Record>, matchKey: string := DefaultKey)
      modifies this
      ensures executed == old(executed) + UpdateCalls(table, UnionKeys(data), matchKey, data)
    {
      var key := matchKey;
      var fields := UnionKeys(data);
      var i := 0;
      while i < |data|
        invariant i <= |data|
        invariant executed == old(executed) + UpdateCalls(table, fields, key, data[..i])
      {
        Run(SqlCall(UpdateStatement(table, fields, key), RecordToBindParams(data[i])));
        assert data[..i + 1][..i] == data[..i];
        i := i + 1;
      }
      assert data[..|data|] == data;
    }

    method DeleteData(name: string, data: seq<Record>, key: string := DefaultKey)
      modifies this
      ensures executed == old(executed) + DeleteCalls(name, key, data)
    {
      var k := key;
      var i := 0;
      while i < |data|
        invariant i <= |data|
        invariant executed == old(executed) + DeleteCalls(name, k, data[..i])
      {
        Run(DeleteCall(name, k, data[i]));
        assert data[..i + 1][..i] == data[..i];
        i := i + 1;
      }
      assert data[..|data|] == data;
    }

    method CreateTableNoTypes(table: string, columns: seq<string>, noDrop: bool := false)
      modifies this
      ensures executed == old(executed) + CreateTableCalls(sanitise, table, columns, noDrop)
    {
      var fields := Uniq(SanitisedAll(sanitise, columns));
      if !noDrop {
        Run(DropTableCall(table));
      }
      Run(SqlCall("CREATE TABLE IF NOT EXISTS " + table + "(" + Join(fields, ",") + ")", []));
    }
  }
}
