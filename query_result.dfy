/** Materialisation of a statement result: column metadata plus rows of fields
    become an ordered list of records mapping column names to decoded text. */
module QueryResults {
  import opened Wrappers
  import opened JavaText

  /** One cell as the Data API returns it. `isNull` is how the service flags an
      SQL NULL; the decoder below never looks at it, nor at `doubleValue`. */
  datatype Field = Field(
    stringValue: Option<string>,
    booleanValue: Option<bool>,
    longValue: Option<Long>,
    doubleValue: Option<real>,
    isNull: Option<bool>)

  /** The only part of the column metadata the materialiser reads. */
  datatype ColumnMetadata = ColumnMetadata(name: string)

  /** A row as handed to the materialiser: `None` is a Java `null` element. */
  type Row = seq<Option<Field>>

  /** One materialised row: a hash map from column name to decoded text. */
  type Record = map<string, string>

  /** Text put in place of a row element that is a Java `null`. */
  const NullMarker: string := "NULL"

  /** Decodes one cell: null gives the marker, else the string value, else the
      boolean's text, else the long's decimal text, else the empty text. */
  function FieldValue(f: Option<Field>): (r: string)
    ensures f.None? ==> r == NullMarker
    ensures f.Some? && f.value.stringValue.Some? ==> r == f.value.stringValue.value
    ensures f.Some? && f.value.stringValue.None? && f.value.booleanValue.Some? ==>
      (r == "true" || r == "false") && (r == "true" <==> f.value.booleanValue.value)
    ensures f.Some? && f.value.stringValue.None? && f.value.booleanValue.None? && f.value.longValue.Some? ==>
      && r == LongText(f.value.longValue.value)
      && ParseLong(r) == Some(f.value.longValue.value as int) && r != NullMarker && r != ""
    ensures f.Some? && f.value.stringValue.None? && f.value.booleanValue.None? && f.value.longValue.None? ==>
      r == ""
  {
    match f
    case None => NullMarker
    case Some(field) =>
      if field.stringValue.Some? then field.stringValue.value
      else if field.booleanValue.Some? then BoolText(field.booleanValue.value)
      else if field.longValue.Some? then
        LongTextRoundTrip(field.longValue.value);
        LongTextIsNoMarker(field.longValue.value);
        LongText(field.longValue.value)
      else ""
  }

  /** The record built from the first `|row|` columns, entries put in column
      order, so a later column with the same name replaces an earlier one. */
  function RowRecord(columnMetadata: seq<ColumnMetadata>, row: Row): (r: Record)
    requires |row| <= |columnMetadata|
    ensures |r| <= |row|
    ensures row != [] ==> && columnMetadata[|row| - 1].name in r
                          && r[columnMetadata[|row| - 1].name] == FieldValue(row[|row| - 1])
  {
    if row == [] then map[]
    else
      var n := |row| - 1;
      RowRecord(columnMetadata, row[..n])[columnMetadata[n].name := FieldValue(row[n])]
  }

  /** Every row has a column descriptor for each of its fields. */
  predicate Fits(columnMetadata: seq<ColumnMetadata>, rows: seq<Row>) {
    forall k | 0 <= k < |rows| :: |rows[k]| <= |columnMetadata|
  }

  /** `columnMetadata.get(index)` was out of range while building row `row`. */
  datatype MaterializeError = IndexOutOfBounds(row: nat, index: nat)

  /** What the constructor does with its inputs: the table, or the exception
      raised at the first row that is longer than the column metadata. */
  function Materialize(columnMetadata: seq<ColumnMetadata>, rows: seq<Row>): (r: Result<seq<Record>, MaterializeError>)
    ensures r.Success? <==> Fits(columnMetadata, rows)
    ensures r.Success? ==> |r.value| == |rows|
    ensures r.Success? ==> forall k | 0 <= k < |rows| :: r.value[k] == RowRecord(columnMetadata, rows[k])
    ensures r.Failure? ==>
      && r.error.row < |rows|
      && |rows[r.error.row]| > |columnMetadata|
      && r.error.index == |columnMetadata|
      && Fits(columnMetadata, rows[..r.error.row])
  {
    if rows == [] then Success([])
    else
      var n := |rows| - 1;
      assert forall k | 0 <= k < n :: rows[..n][k] == rows[k];
      match Materialize(columnMetadata, rows[..n])
      case Failure(e) => Failure(e)
      case Success(table) =>
        if |rows[n]| > |columnMetadata| then Failure(IndexOutOfBounds(n, |columnMetadata|))
        else Success(table + [RowRecord(columnMetadata, rows[n])])
  }

  /** Column `i` is the last of the first `n` columns to carry its name. */
  predicate LastWithName(columnMetadata: seq<ColumnMetadata>, n: nat, i: nat)
    requires i < n <= |columnMetadata|
  {
    forall j | i < j < n :: columnMetadata[j].name != columnMetadata[i].name
  }

  /** No two of the first `n` columns share a name. */
  predicate DistinctNames(columnMetadata: seq<ColumnMetadata>, n: nat)
    requires n <= |columnMetadata|
  {
    forall i, j | 0 <= i < j < n :: columnMetadata[i].name != columnMetadata[j].name
  }

  /** The keys of a row's record are exactly the names of its columns. */
  lemma {:induction false} RowRecordKeys(columnMetadata: seq<ColumnMetadata>, row: Row)
    requires |row| <= |columnMetadata|
    ensures RowRecord(columnMetadata, row).Keys == set i | 0 <= i < |row| :: columnMetadata[i].name
  {
    if row != [] {
      var n := |row| - 1;
      RowRecordKeys(columnMetadata, row[..n]);
      var keys := set i | 0 <= i < |row| :: columnMetadata[i].name;
      var prefixKeys := set i | 0 <= i < n :: columnMetadata[i].name;
      forall x | x in keys ensures x in prefixKeys + {columnMetadata[n].name} {
        var i :| 0 <= i < |row| && columnMetadata[i].name == x;
        if i < n { assert x in prefixKeys; }
      }
    }
  }

  /** A column name maps to the value of the last column carrying it. */
  lemma {:induction false} RowRecordValues(columnMetadata: seq<ColumnMetadata>, row: Row)
    requires |row| <= |columnMetadata|
    ensures forall i | 0 <= i < |row| && LastWithName(columnMetadata, |row|, i) ::
      && columnMetadata[i].name in RowRecord(columnMetadata, row)
      && RowRecord(columnMetadata, row)[columnMetadata[i].name] == FieldValue(row[i])
  {
    if row != [] {
      var n := |row| - 1;
      var prefix := row[..n];
      RowRecordValues(columnMetadata, prefix);
      forall i | 0 <= i < |row| && LastWithName(columnMetadata, |row|, i)
        ensures columnMetadata[i].name in RowRecord(columnMetadata, row)
        ensures RowRecord(columnMetadata, row)[columnMetadata[i].name] == FieldValue(row[i])
      {
        if i < n {
          assert columnMetadata[n].name != columnMetadata[i].name;
          assert LastWithName(columnMetadata, n, i);
          assert prefix[i] == row[i];
        }
      }
    }
  }

  /** With distinct column names, entry `i` of the row sits under column `i`'s
      name and the record has exactly one entry per field. */
  lemma {:induction false} RowRecordPositional(columnMetadata: seq<ColumnMetadata>, row: Row)
    requires |row| <= |columnMetadata|
    requires DistinctNames(columnMetadata, |row|)
    ensures |RowRecord(columnMetadata, row)| == |row|
    ensures forall i | 0 <= i < |row| ::
      && columnMetadata[i].name in RowRecord(columnMetadata, row)
      && RowRecord(columnMetadata, row)[columnMetadata[i].name] == FieldValue(row[i])
  {
    RowRecordValues(columnMetadata, row);
    if row != [] {
      var n := |row| - 1;
      var prefix := row[..n];
      RowRecordPositional(columnMetadata, prefix);
      RowRecordKeys(columnMetadata, prefix);
      assert columnMetadata[n].name !in RowRecord(columnMetadata, prefix);
    }
  }

  /** With a repeated column name, the later column's value is the one kept. */
  lemma LaterColumnWins(columnMetadata: seq<ColumnMetadata>, row: Row, i: nat, j: nat)
    requires |row| <= |columnMetadata|
    requires i < j < |row|
    requires columnMetadata[i].name == columnMetadata[j].name
    requires LastWithName(columnMetadata, |row|, j)
    ensures columnMetadata[i].name in RowRecord(columnMetadata, row)
    ensures RowRecord(columnMetadata, row)[columnMetadata[i].name] == FieldValue(row[j])
  {
    RowRecordValues(columnMetadata, row);
  }

  /** The decoder reads only the string, boolean and long slots of a field. */
  lemma FieldValueIgnoresOtherSlots(field: Field, d: Option<real>, isNull: Option<bool>)
    ensures FieldValue(Some(field)) == FieldValue(Some(field.(doubleValue := d, isNull := isNull)))
  {
  }

  /** A Java `null` element and a field with none of string, boolean or long
      set decode differently, the latter to the empty text even when the
      service flags it as an SQL NULL or it carries a double. */
  lemma NullElementDiffersFromEmptyField(d: Option<real>, isNull: Option<bool>)
    ensures FieldValue(None) == NullMarker
    ensures FieldValue(Some(Field(None, None, None, d, isNull))) == ""
  {
  }

  /** A one-column result with two string cells becomes two one-entry records. */
  lemma FirstnameScenario()
    ensures var columns := [ColumnMetadata("firstname")];
      var alice := Some(Field(Some("Alice"), None, None, None, None));
      var bob := Some(Field(Some("Bob"), None, None, None, None));
      Materialize(columns, [[alice], [bob]]) == Success([map["firstname" := "Alice"], map["firstname" := "Bob"]])
  {
    var columns := [ColumnMetadata("firstname")];
    var alice := Some(Field(Some("Alice"), None, None, None, None));
    var bob := Some(Field(Some("Bob"), None, None, None, None));
    var rows := [[alice], [bob]];
    assert [alice][..0] == [] && [bob][..0] == [];
    assert RowRecord(columns, [alice]) == map["firstname" := "Alice"];
    assert RowRecord(columns, [bob]) == map["firstname" := "Bob"];
    assert Fits(columns, rows);
    var table := Materialize(columns, rows).value;
    assert table == [map["firstname" := "Alice"], map["firstname" := "Bob"]];
  }

  /** An immutable result table, built once by the constructor. */
  class QueryResult {
    const table: seq<Record>

    /** Builds one record per row, in row order; each record is filled column
        by column. The source raises an index error for a row longer than
        the metadata, which is excluded here and modelled by `Materialize`. */
    constructor (columnMetadata: seq<ColumnMetadata>, rows: seq<Row>)
      requires Fits(columnMetadata, rows)
      ensures Materialize(columnMetadata, rows) == Success(table)
    {
      var result: seq<Record> := [];
      for k := 0 to |rows|
        invariant Materialize(columnMetadata, rows[..k]) == Success(result)
      {
        var row := rows[k];
        var rowMap: Record := map[];
        for i := 0 to |row|
          invariant rowMap == RowRecord(columnMetadata, row[..i])
        {
          assert row[..i + 1][..i] == row[..i];
          rowMap := rowMap[columnMetadata[i].name := FieldValue(row[i])];
        }
        assert row[..|row|] == row;
        assert rows[..k + 1][..k] == rows[..k];
        result := result + [rowMap];
      }
      assert rows[..|rows|] == rows;
      table := result;
    }
  }

  /** Materialising the same rows twice gives identical tables. */
  method MaterializeTwice(columnMetadata: seq<ColumnMetadata>, rows: seq<Row>) returns (first: seq<Record>, second: seq<Record>)
    requires Fits(columnMetadata, rows)
    ensures first == second
    ensures |first| == |rows|
  {
    var a := new QueryResult(columnMetadata, rows);
    var b := new QueryResult(columnMetadata, rows);
    first, second := a.table, b.table;
  }
}
