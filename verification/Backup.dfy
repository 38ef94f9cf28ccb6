/**
 * The backup (src/services/backup.ts) and its restore (scripts/restore-backup.ts): every row of a table is exported
 * once, page by page, and a restored row is the row that was exported. `JSON.stringify` and `JSON.parse` are taken as
 * inverse to each other, and the text form of a date (`toISOString`, `new Date`) is given.
 */
module Backup {
  import opened Prelude
  import Base64
  import Utf8

  datatype Json =
    | JNull | JBool(b: bool) | JNum(n: int) | JStr(s: string) | JArr(items: seq<Json>) | JObj(fields: map<string, Json>)

  /** A column's value as the database client returns it; `Document` is a Json column's. */
  datatype Value =
    | Null | Bool(b: bool) | Num(n: int) | Text(s: string) | TextList(items: seq<string>) | Date(ms: int)
    | Bytes(bytes: seq<Utf8.Byte>) | Document(j: Json)

  /** What `revive` hands back to the client: a value, or the marker for a SQL NULL in a Json column. */
  datatype Revived = Plain(v: Value) | DbNull

  /** `toISOString` and `new Date`. */
  datatype Clock = Clock(iso: int -> string, parse: string -> int)

  // ----- one column -----

  predicate IsDigit(c: char) {
    '0' <= c <= '9'
  }

  /** `YYYY-MM-DDTHH:MM:SS`, an optional fraction, `Z`. */
  predicate IsStamp(s: string) {
    && |s| >= 20
    && (forall i :: 0 <= i < 19 && i !in {4, 7, 10, 13, 16} ==> IsDigit(s[i]))
    && s[4] == '-' && s[7] == '-' && s[10] == 'T' && s[13] == ':' && s[16] == ':'
    && s[|s| - 1] == 'Z'
    && (|s| > 20 ==> s[19] == '.' && |s| > 21 && forall i :: 20 <= i < |s| - 1 ==> IsDigit(s[i]))
  }

  predicate AreDigits(s: string) {
    forall i :: 0 <= i < |s| ==> IsDigit(s[i])
  }

  function Triple(a: string, mark: char, b: string, c: string): string {
    a + [mark] + b + [mark] + c
  }

  lemma TripleAt(s: string, at: nat, k: nat, mark: char)
    requires at + k + 6 <= |s| && s[at + k] == mark && s[at + k + 3] == mark
    ensures Triple(s[at..at + k], mark, s[at + k + 1..at + k + 3], s[at + k + 4..at + k + 6]) == s[at..at + k + 6]
  {
  }

  /** The fields of a timestamp as they are written, the fraction without its point. */
  datatype Stamp = Stamp(
    year: string, month: string, day: string, hour: string, minute: string, second: string, fraction: string)
  {
    predicate Valid() {
      && |year| == 4 && |month| == |day| == |hour| == |minute| == |second| == 2
      && AreDigits(year) && AreDigits(month) && AreDigits(day)
      && AreDigits(hour) && AreDigits(minute) && AreDigits(second) && AreDigits(fraction)
    }

    function Show(): string {
      Triple(year, '-', month, day) + "T" + Triple(hour, ':', minute, second)
      + (if fraction == "" then "" else "." + fraction) + "Z"
    }
  }

  function StampOf(s: string): Stamp
    requires IsStamp(s)
  {
    Stamp(s[0..4], s[5..7], s[8..10], s[11..13], s[14..16], s[17..19], if |s| == 20 then "" else s[20..|s| - 1])
  }

  lemma ShownIsStamp(t: Stamp)
    requires t.Valid()
    ensures IsStamp(t.Show())
  {
    var s := t.Show();
    assert |s| == if t.fraction == "" then 20 else 21 + |t.fraction|;
    assert s[..4] == t.year && s[5..7] == t.month && s[8..10] == t.day;
    assert s[11..13] == t.hour && s[14..16] == t.minute && s[17..19] == t.second;
    assert forall i :: 0 <= i < 4 ==> s[i] == t.year[i];
    assert forall i :: 5 <= i < 7 ==> s[i] == t.month[i - 5];
    assert forall i :: 8 <= i < 10 ==> s[i] == t.day[i - 8];
    assert forall i :: 11 <= i < 13 ==> s[i] == t.hour[i - 11];
    assert forall i :: 14 <= i < 16 ==> s[i] == t.minute[i - 14];
    assert forall i :: 17 <= i < 19 ==> s[i] == t.second[i - 17];
    if t.fraction != "" {
      assert forall i :: 20 <= i < |s| - 1 ==> s[i] == t.fraction[i - 20];
    }
  }

  lemma FractionAt(s: string)
    requires IsStamp(s)
    ensures (if |s| == 20 then "" else "." + s[20..|s| - 1]) + "Z" == s[19..]
  {
  }

  lemma StampIsValid(s: string)
    requires IsStamp(s)
    ensures StampOf(s).Valid()
  {
  }

  lemma StampReadsBack(s: string)
    requires IsStamp(s)
    ensures StampOf(s).Show() == s
  {
    TripleAt(s, 0, 4, '-');
    TripleAt(s, 11, 2, ':');
    FractionAt(s);
    assert s == s[0..10] + "T" + s[11..19] + s[19..];
  }

  /** The texts taken for dates are exactly those written as digits in the fields of a timestamp. */
  lemma IsStampIff(s: string)
    ensures IsStamp(s) <==> exists t: Stamp :: t.Valid() && t.Show() == s
  {
    if IsStamp(s) {
      StampIsValid(s);
      StampReadsBack(s);
    } else if exists t: Stamp :: t.Valid() && t.Show() == s {
      var t: Stamp :| t.Valid() && t.Show() == s;
      ShownIsStamp(t);
      assert false;
    }
  }

  const BASE64_KEY := "$base64"

  /** How a value is written: dates as text, bytes as a marked object. */
  function EncodeValue(clock: Clock, v: Value): Json {
    match v
    case Null => JNull
    case Bool(b) => JBool(b)
    case Num(n) => JNum(n)
    case Text(s) => JStr(s)
    case TextList(items) => JArr(Map(s => JStr(s), items))
    case Date(ms) => JStr(clock.iso(ms))
    case Bytes(bytes) => JObj(map[BASE64_KEY := JStr(Base64.Encode(bytes))])
    case Document(j) => j
  }

  predicate IsMarked(j: Json) {
    j.JObj? && j.fields.Keys == {BASE64_KEY} && j.fields[BASE64_KEY].JStr?
  }

  /** What a JSON value is to the client: a column of texts, or a document. */
  function AsValue(j: Json, isJson: bool): Value {
    if isJson then Document(j)
    else
      match j
      case JNull => Null
      case JBool(b) => Bool(b)
      case JNum(n) => Num(n)
      case JStr(s) => Text(s)
      case JArr(items) =>
        if forall i :: 0 <= i < |items| ==> items[i].JStr? then TextList(Texts(items)) else Document(j)
      case JObj(_) => Document(j)
  }

  function Texts(items: seq<Json>): seq<string>
    requires forall i :: 0 <= i < |items| ==> items[i].JStr?
  {
    seq(|items|, i requires 0 <= i < |items| => items[i].s)
  }

  function ReviveValue(clock: Clock, isJson: bool, j: Json): Revived {
    if j.JNull? && isJson then DbNull
    else if IsMarked(j) then Plain(Bytes(Base64.Decode(j.fields[BASE64_KEY].s)))
    else if j.JStr? && IsStamp(j.s) && !isJson then Plain(Date(clock.parse(j.s)))
    else Plain(AsValue(j, isJson))
  }

  /** What the client writes for a revived value; a bare null is refused for a Json column. */
  function Written(r: Revived, isJson: bool): Option<Value> {
    match r
    case DbNull => Some(Null)
    case Plain(v) => if isJson && v.Null? then None else Some(v)
  }

  /** Why the marker: only with it can a null be written to a Json column; any other column needs none. */
  lemma NullNeedsItsMarker(clock: Clock)
    ensures ReviveValue(clock, false, JNull) == Plain(Null)
    ensures Written(ReviveValue(clock, true, JNull), true) == Some(Null) && Written(Plain(Null), true) == None
  {
  }

  /** A value the column can hold: documents in Json columns only, and a null there is a SQL NULL. */
  predicate IsColumnValue(isJson: bool, v: Value) {
    if isJson then v.Null? || (v.Document? && !v.j.JNull?) else !v.Document?
  }

  /** The values that survive: plain texts must not look like timestamps, nor documents like marked bytes. */
  predicate IsRestorable(clock: Clock, v: Value) {
    match v
    case Text(s) => !IsStamp(s)
    case Date(ms) => IsStamp(clock.iso(ms))
    case Document(j) => !IsMarked(j)
    case _ => true
  }

  lemma ListReadsBack(items: seq<string>)
    ensures var j := Map(s => JStr(s), items);
            (forall i :: 0 <= i < |j| ==> j[i].JStr?) && Texts(j) == items
  {
  }

  /** The clock's text of a date reads back as that date, as `toISOString` promises inside its range. */
  predicate ClockReadsBack(clock: Clock, v: Value) {
    v.Date? ==> clock.parse(clock.iso(v.ms)) == v.ms
  }

  /** A column comes back as it was if and only if its value is restorable. */
  lemma ValueRoundTripsIff(clock: Clock, isJson: bool, v: Value)
    requires IsColumnValue(isJson, v) && ClockReadsBack(clock, v)
    ensures Written(ReviveValue(clock, isJson, EncodeValue(clock, v)), isJson) == Some(v) <==> IsRestorable(clock, v)
  {
    match v {
      case Bytes(bytes) => Base64.Base64RoundTrip(bytes);
      case TextList(items) => ListReadsBack(items);
      case _ =>
    }
  }

  // ----- one row -----

  type Row = map<string, Value>
  type JsonRow = map<string, Json>

  const TABLE_KEY := "_table"

  function RowJson(clock: Clock, table: string, row: Row): JsonRow {
    map[TABLE_KEY := JStr(table)] + (map k | k in row :: EncodeValue(clock, row[k]))
  }

  /** The loop over the entries of a parsed line. */
  method Revive(clock: Clock, jsonFields: set<string>, row: JsonRow) returns (out: map<string, Revived>)
    ensures out == map k | k in row && k != TABLE_KEY :: ReviveValue(clock, k in jsonFields, row[k])
  {
    out := map[];
    var todo := row.Keys;
    while todo != {}
      invariant todo <= row.Keys
      invariant out == map k | k in row && k !in todo && k != TABLE_KEY :: ReviveValue(clock, k in jsonFields, row[k])
    {
      var k :| k in todo;
      todo := todo - {k};
      if k != TABLE_KEY {
        out := out[k := ReviveValue(clock, k in jsonFields, row[k])];
      }
    }
  }

  predicate IsTableRow(jsonFields: set<string>, row: Row) {
    TABLE_KEY !in row && forall k :: k in row ==> IsColumnValue(k in jsonFields, row[k])
  }

  /** What restoring an exported line writes to column `k`. */
  function Restored(clock: Clock, jsonFields: set<string>, line: JsonRow, k: string): Option<Value>
    requires k in line
  {
    Written(ReviveValue(clock, k in jsonFields, line[k]), k in jsonFields)
  }

  /** Exporting a row and restoring it gives the same columns, and each its value if and only if that is restorable. */
  lemma RowRoundTripsIff(clock: Clock, table: string, jsonFields: set<string>, row: Row)
    requires IsTableRow(jsonFields, row) && forall k :: k in row ==> ClockReadsBack(clock, row[k])
    ensures var line := RowJson(clock, table, row);
            && line.Keys - {TABLE_KEY} == row.Keys && line[TABLE_KEY] == JStr(table)
            && ((forall k :: k in row ==> Restored(clock, jsonFields, line, k) == Some(row[k]))
                 <==> (forall k :: k in row ==> IsRestorable(clock, row[k])))
  {
    var line := RowJson(clock, table, row);
    forall k | k in row
      ensures Restored(clock, jsonFields, line, k) == Some(row[k]) <==> IsRestorable(clock, row[k])
    {
      assert line[k] == EncodeValue(clock, row[k]);
      ValueRoundTripsIff(clock, k in jsonFields, row[k]);
    }
  }

  // ----- one table -----

  datatype Record = Record(id: nat, row: Row)

  ghost predicate IsTable(rows: seq<Record>) {
    forall i, j :: 0 <= i < j < |rows| ==> rows[i].id < rows[j].id
  }

  predicate HasLaterId(r: Record, cursor: nat) {
    r.id > cursor
  }

  function After(cursor: nat): Record -> bool {
    r => HasLaterId(r, cursor)
  }

  /** `findMany` by id with `take`: the first rows, or those after the cursor row. */
  function Page(selected: seq<Record>, cursor: Option<nat>, take: nat): seq<Record> {
    var rest := if cursor.None? then selected else Filter(After(cursor.value), selected);
    rest[..Min(take, |rest|)]
  }

  lemma IdsAround(selected: seq<Record>, n: nat)
    requires IsTable(selected) && 0 < n <= |selected|
    ensures forall x :: x in selected[..n] ==> !HasLaterId(x, selected[n - 1].id)
    ensures forall x :: x in selected[n..] ==> HasLaterId(x, selected[n - 1].id)
  {
    assert forall i :: 0 <= i < n ==> selected[i].id <= selected[n - 1].id;
    assert forall i :: n <= i < |selected| ==> selected[i].id > selected[n - 1].id;
  }

  /** What follows the cursor is exactly what has not been exported yet. */
  lemma AfterCursor(selected: seq<Record>, n: nat)
    requires IsTable(selected) && 0 < n <= |selected|
    ensures Filter(After(selected[n - 1].id), selected) == selected[n..]
  {
    IdsAround(selected, n);
    FilterSuffix(After(selected[n - 1].id), selected[..n], selected[n..]);
    assert selected == selected[..n] + selected[n..];
  }

  const PAGE := 1000

  function LineOf(clock: Clock, table: string): Record -> JsonRow {
    (r: Record) => RowJson(clock, table, r.row)
  }

  function CursorAt(selected: seq<Record>, count: nat): Option<nat>
    requires count <= |selected|
  {
    if count == 0 then None else Some(selected[count - 1].id)
  }

  function LinesUpTo(clock: Clock, table: string, selected: seq<Record>, count: nat): seq<JsonRow>
    requires count <= |selected|
  {
    Map(LineOf(clock, table), selected[..count])
  }

  /** A page is the next rows: its lines extend those before it, and its last id is the next cursor. */
  lemma PageIsNext(clock: Clock, table: string, selected: seq<Record>, count: nat)
    requires IsTable(selected) && count <= |selected|
    ensures var batch := Page(selected, CursorAt(selected, count), PAGE);
            && |batch| == Min(PAGE, |selected| - count)
            && LinesUpTo(clock, table, selected, count + |batch|)
            == LinesUpTo(clock, table, selected, count) + Map(LineOf(clock, table), batch)
            && (batch != [] ==> CursorAt(selected, count + |batch|) == Some(batch[|batch| - 1].id))
  {
    if count > 0 {
      AfterCursor(selected, count);
    }
    var more := Min(PAGE, |selected| - count);
    assert Page(selected, CursorAt(selected, count), PAGE) == selected[count..count + more];
    MapAppend(LineOf(clock, table), selected, count, count + more);
  }

  lemma MapAppend<T, U>(f: T -> U, s: seq<T>, from: nat, to: nat)
    requires from <= to <= |s|
    ensures Map(f, s[..from]) + Map(f, s[from..to]) == Map(f, s[..to])
  {
  }

  method PushLines(clock: Clock, table: string, batch: seq<Record>, before: seq<JsonRow>) returns (lines: seq<JsonRow>)
    ensures lines == before + Map(LineOf(clock, table), batch)
  {
    lines := before;
    for i := 0 to |batch|
      invariant lines == before + Map(LineOf(clock, table), batch[..i])
    {
      MapLast(LineOf(clock, table), batch[..i + 1]);
      assert batch[..i + 1][..i] == batch[..i];
      lines := lines + [RowJson(clock, table, batch[i].row)];
    }
    assert batch[..|batch|] == batch;
  }

  /** The paging loop over a table that does not change: every selected row, once, in id order. */
  method ExportTable(clock: Clock, table: string, selected: seq<Record>) returns (lines: seq<JsonRow>, count: nat)
    requires IsTable(selected)
    ensures lines == Map(LineOf(clock, table), selected) && count == |selected|
  {
    lines, count := [], 0;
    var cursor: Option<nat> := None;
    while true
      invariant count <= |selected|
      invariant lines == LinesUpTo(clock, table, selected, count) && cursor == CursorAt(selected, count)
      decreases |selected| - count
    {
      var batch := Page(selected, cursor, PAGE);
      PageIsNext(clock, table, selected, count);
      if |batch| == 0 {
        break;
      }
      lines := PushLines(clock, table, batch, lines);
      count := count + |batch|;
      cursor := Some(batch[|batch| - 1].id);
      if |batch| < PAGE {
        break;
      }
    }
    assert selected[..|selected|] == selected;
  }

  datatype Table = Table(name: string, selected: seq<Record>)

  /** The lines of the tables, one after another. */
  function LinesOf(clock: Clock, tables: seq<Table>): seq<JsonRow> {
    if tables == [] then []
    else
      var last := tables[|tables| - 1];
      LinesOf(clock, tables[..|tables| - 1]) + Map(LineOf(clock, last.name), last.selected)
  }

  /** The whole export after its header: all tables in order, with their counts. */
  method BuildBackup(clock: Clock, tables: seq<Table>) returns (lines: seq<JsonRow>, counts: seq<nat>, rows: nat)
    requires forall i :: 0 <= i < |tables| ==> IsTable(tables[i].selected)
    ensures lines == LinesOf(clock, tables) && rows == |lines|
    ensures |counts| == |tables| && forall i :: 0 <= i < |tables| ==> counts[i] == |tables[i].selected|
  {
    lines, counts, rows := [], [], 0;
    for n := 0 to |tables|
      invariant lines == LinesOf(clock, tables[..n]) && rows == |lines|
      invariant |counts| == n && forall i :: 0 <= i < n ==> counts[i] == |tables[i].selected|
    {
      assert tables[..n + 1][..n] == tables[..n];
      var some, count := ExportTable(clock, tables[n].name, tables[n].selected);
      lines, counts, rows := lines + some, counts + [count], rows + count;
    }
    assert tables[..|tables|] == tables;
  }
}
