/** `collect_metadata` of the legacy script extractor.py: the same three
    frames as the package's collector, but read with subscripts, so a table,
    column, measure or relationship without one of its required keys raises
    `KeyError` instead of getting a default. */
module ExtractorMetadata {
  import opened Wrappers
  import opened Text
  import opened Schema
  import opened DiffEngine
  import MetadataParser

  /** A row of the legacy fields frame. */
  datatype FieldRow = FieldRow(
    table: string,
    objectName: string,
    objectType: string,
    isMeasure: bool,
    dataType: Option<string>,
    isHidden: bool,
    description: string,
    expression: Option<string>)

  datatype Metadata = Metadata(tables: seq<TableRow>, fields: seq<FieldRow>, relationships: seq<RelationshipRow>)

  /** `t.get("columns", [])` cannot be iterated, or a column has no `name`. */
  predicate ColumnsRaise(t: Table) {
    Iterate(t.columns).Raised? || exists c :: c in ItemsOrEmpty(t.columns) && c.name.None?
  }

  predicate MeasuresRaise(t: Table) {
    Iterate(t.measures).Raised? || exists ms :: ms in ItemsOrEmpty(t.measures) && ms.name.None?
  }

  /** Reading a table raises: it has no `name`, or its columns or measures raise. */
  predicate TableRaises(t: Table) {
    t.name.None? || ColumnsRaise(t) || MeasuresRaise(t)
  }

  predicate ColumnsNamed(cols: seq<Column>) {
    forall k :: 0 <= k < |cols| ==> cols[k].name.Some?
  }

  predicate MeasuresNamed(measures: seq<Measure>) {
    forall k :: 0 <= k < |measures| ==> measures[k].name.Some?
  }

  /** No table of `ts` raises when read. */
  predicate TablesReadable(ts: seq<Table>) {
    forall k :: 0 <= k < |ts| ==> !TableRaises(ts[k])
  }

  predicate RelationshipsRaise(m: Model) {
    Iterate(m.relationships).Raised? || exists r :: r in ItemsOrEmpty(m.relationships) && !HasIdentity(r)
  }

  /** Reading the model raises somewhere: the legacy collector and the legacy
      diff read the same keys the same way. */
  predicate ModelRaises(m: Model) {
    || Iterate(m.tables).Raised?
    || (exists t :: t in ItemsOrEmpty(m.tables) && TableRaises(t))
    || RelationshipsRaise(m)
  }

  function TableRowOf(t: Table): (r: TableRow)
    requires t.name.Some?
    ensures r.tableName == t.name.value
    ensures r.isHidden <==> t.isHidden == Some(true)
    ensures t.description.None? ==> r.description == ""
  {
    TableRow(t.name.value, t.isHidden.GetOr(false), t.description.GetOr(""))
  }

  /** A column row: always of type "column", not a measure, without expression. */
  function ColumnRow(tableName: string, c: Column): (r: FieldRow)
    requires c.name.Some?
    ensures r.table == tableName && r.objectName == c.name.value
    ensures r.objectType == "column" && !r.isMeasure && r.expression.None?
    ensures r.dataType == c.dataType
  {
    FieldRow(tableName, c.name.value, "column", false, c.dataType, c.isHidden.GetOr(false), c.description.GetOr(""), None)
  }

  /** A measure row: of type "measure", a measure, with no data type and its
      expression ("" when missing). */
  function MeasureRow(tableName: string, ms: Measure): (r: FieldRow)
    requires ms.name.Some?
    ensures r.table == tableName && r.objectName == ms.name.value
    ensures r.objectType == "measure" && r.isMeasure && r.dataType.None?
    ensures r.expression.Some?
    ensures ms.expression.None? ==> r.expression == Some("")
  {
    FieldRow(tableName, ms.name.value, "measure", true, None, ms.isHidden.GetOr(false), ms.description.GetOr(""), Some(ms.expression.GetOr("")))
  }

  /** The cardinality text, not lower-cased: "many:one" when neither key is
      present, else the two ends with the defaults "many" and "one". */
  function Cardinality(r: Relationship): string {
    if r.fromCardinality.Some? || r.toCardinality.Some? then
      r.fromCardinality.GetOr("many") + ":" + r.toCardinality.GetOr("one")
    else "many:one"
  }

  function RelationshipRowOf(r: Relationship): (row: RelationshipRow)
    requires HasIdentity(r)
    ensures row.fromTable == r.fromTable.value && row.fromColumn == r.fromColumn.value
    ensures row.toTable == r.toTable.value && row.toColumn == r.toColumn.value
    ensures r.crossFilteringBehavior.None? ==> row.crossFilteringBehavior == "singleDirection"
    ensures !row.isActive <==> r.isActive == Some(false)
  {
    RelationshipRow(r.fromTable.value, r.fromColumn.value, r.toTable.value, r.toColumn.value,
      Cardinality(r), r.crossFilteringBehavior.GetOr("singleDirection"), r.isActive.GetOr(true))
  }

  function TableRows(ts: seq<Table>): (rows: seq<TableRow>)
    requires TablesReadable(ts)
    ensures |rows| == |ts|
  {
    if ts == [] then [] else TableRows(ts[..|ts| - 1]) + [TableRowOf(ts[|ts| - 1])]
  }

  function ColumnRows(tableName: string, cols: seq<Column>): (rows: seq<FieldRow>)
    requires ColumnsNamed(cols)
    ensures |rows| == |cols|
  {
    if cols == [] then [] else ColumnRows(tableName, cols[..|cols| - 1]) + [ColumnRow(tableName, cols[|cols| - 1])]
  }

  function MeasureRows(tableName: string, measures: seq<Measure>): (rows: seq<FieldRow>)
    requires MeasuresNamed(measures)
    ensures |rows| == |measures|
  {
    if measures == [] then [] else MeasureRows(tableName, measures[..|measures| - 1]) + [MeasureRow(tableName, measures[|measures| - 1])]
  }

  /** The field rows of a table: its columns, then its measures. */
  function TableFieldRows(t: Table): seq<FieldRow>
    requires !TableRaises(t)
  {
    ColumnRows(t.name.value, ItemsOrEmpty(t.columns)) + MeasureRows(t.name.value, ItemsOrEmpty(t.measures))
  }

  function FieldRowsOf(ts: seq<Table>): seq<FieldRow>
    requires TablesReadable(ts)
  {
    if ts == [] then [] else FieldRowsOf(ts[..|ts| - 1]) + TableFieldRows(ts[|ts| - 1])
  }

  function RelationshipRows(rels: seq<Relationship>): (rows: seq<RelationshipRow>)
    requires forall r :: r in rels ==> HasIdentity(r)
    ensures |rows| == |rels|
  {
    if rels == [] then [] else RelationshipRows(rels[..|rels| - 1]) + [RelationshipRowOf(rels[|rels| - 1])]
  }

  /** What `collect_metadata(model)` returns. */
  function MetadataOf(m: Model): Outcome<Metadata> {
    if ModelRaises(m) then Raised
    else
      var ts := ItemsOrEmpty(m.tables);
      Returned(Metadata(TableRows(ts), FieldRowsOf(ts), RelationshipRows(ItemsOrEmpty(m.relationships))))
  }

  lemma ColumnRowsStep(prefix: seq<FieldRow>, fields: seq<FieldRow>, tableName: string, cols: seq<Column>, j: nat)
    requires j < |cols| && ColumnsNamed(cols[..j]) && cols[j].name.Some?
    requires fields == prefix + ColumnRows(tableName, cols[..j])
    ensures ColumnsNamed(cols[..j + 1])
    ensures fields + [ColumnRow(tableName, cols[j])] == prefix + ColumnRows(tableName, cols[..j + 1])
  {
    assert cols[..j + 1][..j] == cols[..j];
  }

  lemma MeasureRowsStep(prefix: seq<FieldRow>, fields: seq<FieldRow>, tableName: string, measures: seq<Measure>, j: nat)
    requires j < |measures| && MeasuresNamed(measures[..j]) && measures[j].name.Some?
    requires fields == prefix + MeasureRows(tableName, measures[..j])
    ensures MeasuresNamed(measures[..j + 1])
    ensures fields + [MeasureRow(tableName, measures[j])] == prefix + MeasureRows(tableName, measures[..j + 1])
  {
    assert measures[..j + 1][..j] == measures[..j];
  }

  /** The column loop of one table. */
  method AppendColumnRows(fields: seq<FieldRow>, tableName: string, tbl: Table) returns (r: Outcome<seq<FieldRow>>)
    ensures r.Raised? <==> ColumnsRaise(tbl)
    ensures r.Returned? ==> r.value == fields + ColumnRows(tableName, ItemsOrEmpty(tbl.columns))
  {
    var columnsIter := Iterate(tbl.columns);
    if columnsIter.Raised? {
      return Raised;
    }
    var cols := columnsIter.value;
    var out := fields;
    for j := 0 to |cols|
      invariant ColumnsNamed(cols[..j])
      invariant out == fields + ColumnRows(tableName, cols[..j])
    {
      var col := cols[j];
      if col.name.None? {
        assert col in cols;
        return Raised;
      }
      ColumnRowsStep(fields, out, tableName, cols, j);
      out := out + [ColumnRow(tableName, col)];
    }
    assert cols[..|cols|] == cols;
    return Returned(out);
  }

  /** The measure loop of one table. */
  method AppendMeasureRows(fields: seq<FieldRow>, tableName: string, tbl: Table) returns (r: Outcome<seq<FieldRow>>)
    ensures r.Raised? <==> MeasuresRaise(tbl)
    ensures r.Returned? ==> r.value == fields + MeasureRows(tableName, ItemsOrEmpty(tbl.measures))
  {
    var measuresIter := Iterate(tbl.measures);
    if measuresIter.Raised? {
      return Raised;
    }
    var measures := measuresIter.value;
    var out := fields;
    for j := 0 to |measures|
      invariant MeasuresNamed(measures[..j])
      invariant out == fields + MeasureRows(tableName, measures[..j])
    {
      var meas := measures[j];
      if meas.name.None? {
        assert meas in measures;
        return Raised;
      }
      MeasureRowsStep(fields, out, tableName, measures, j);
      out := out + [MeasureRow(tableName, meas)];
    }
    assert measures[..|measures|] == measures;
    return Returned(out);
  }

  /** The relationship loop. */
  method CollectRelationshipRows(m: Model) returns (r: Outcome<seq<RelationshipRow>>)
    ensures r.Raised? <==> RelationshipsRaise(m)
    ensures r.Returned? ==> r.value == RelationshipRows(ItemsOrEmpty(m.relationships))
  {
    var relsIter := Iterate(m.relationships);
    if relsIter.Raised? {
      return Raised;
    }
    var rels := relsIter.value;
    var out: seq<RelationshipRow> := [];
    for i := 0 to |rels|
      invariant forall x :: x in rels[..i] ==> HasIdentity(x)
      invariant out == RelationshipRows(rels[..i])
    {
      var rel := rels[i];
      var cardinality := "many:one";
      if rel.fromCardinality.Some? || rel.toCardinality.Some? {
        cardinality := rel.fromCardinality.GetOr("many") + ":" + rel.toCardinality.GetOr("one");
      }
      var crossFilter := rel.crossFilteringBehavior.GetOr("singleDirection");
      if !HasIdentity(rel) {
        assert rel in rels;
        return Raised;
      }
      assert rels[..i + 1] == rels[..i] + [rel];
      assert rels[..i + 1][..i] == rels[..i];
      out := out + [RelationshipRow(rel.fromTable.value, rel.fromColumn.value, rel.toTable.value, rel.toColumn.value,
        cardinality, crossFilter, rel.isActive.GetOr(true))];
    }
    assert rels[..|rels|] == rels;
    return Returned(out);
  }

  /** The rows of a named table's columns, then of its measures. */
  method AppendTableFields(fields: seq<FieldRow>, tbl: Table) returns (r: Outcome<seq<FieldRow>>)
    requires tbl.name.Some?
    ensures r.Raised? <==> TableRaises(tbl)
    ensures r.Returned? ==> !TableRaises(tbl) && r.value == fields + TableFieldRows(tbl)
  {
    var withColumns := AppendColumnRows(fields, tbl.name.value, tbl);
    if withColumns.Raised? {
      return Raised;
    }
    var withMeasures := AppendMeasureRows(withColumns.value, tbl.name.value, tbl);
    if withMeasures.Raised? {
      return Raised;
    }
    return withMeasures;
  }

  lemma ReadableStep(ts: seq<Table>, i: nat)
    requires i < |ts| && !TableRaises(ts[i]) && TablesReadable(ts[..i])
    ensures TablesReadable(ts[..i + 1])
  {
    assert forall k :: 0 <= k < i ==> ts[..i + 1][k] == ts[..i][k];
  }

  lemma TablesStep(ts: seq<Table>, i: nat, tables: seq<TableRow>, fields: seq<FieldRow>, newFields: seq<FieldRow>)
    requires i < |ts| && !TableRaises(ts[i]) && TablesReadable(ts[..i]) && TablesReadable(ts[..i + 1])
    requires tables == TableRows(ts[..i]) && fields == FieldRowsOf(ts[..i])
    requires newFields == fields + TableFieldRows(ts[i])
    ensures tables + [TableRowOf(ts[i])] == TableRows(ts[..i + 1])
    ensures newFields == FieldRowsOf(ts[..i + 1])
  {
    assert ts[..i + 1][..i] == ts[..i];
  }

  /** The body of the table loop: the row of table `i`, then the rows of its
      columns and measures, after those of the tables before it. */
  method CollectTable(ts: seq<Table>, i: nat, tables: seq<TableRow>, fields: seq<FieldRow>)
    returns (r: Outcome<(seq<TableRow>, seq<FieldRow>)>)
    requires i < |ts| && TablesReadable(ts[..i])
    requires tables == TableRows(ts[..i]) && fields == FieldRowsOf(ts[..i])
    ensures r.Raised? <==> TableRaises(ts[i])
    ensures r.Returned? ==> TablesReadable(ts[..i + 1]) && r.value == (TableRows(ts[..i + 1]), FieldRowsOf(ts[..i + 1]))
  {
    var tbl := ts[i];
    if tbl.name.None? {
      return Raised;
    }
    var withFields := AppendTableFields(fields, tbl);
    if withFields.Raised? {
      return Raised;
    }
    ReadableStep(ts, i);
    TablesStep(ts, i, tables, fields, withFields.value);
    return Returned((tables + [TableRowOf(tbl)], withFields.value));
  }

  /** The table loop: each table's row, followed by the rows of its columns
      and measures. */
  method CollectTableRows(ts: seq<Table>) returns (r: Outcome<(seq<TableRow>, seq<FieldRow>)>)
    ensures r.Raised? <==> exists t :: t in ts && TableRaises(t)
    ensures r.Returned? ==> (forall t :: t in ts ==> !TableRaises(t)) && r.value == (TableRows(ts), FieldRowsOf(ts))
  {
    var tables: seq<TableRow> := [];
    var fields: seq<FieldRow> := [];
    for i := 0 to |ts|
      invariant TablesReadable(ts[..i])
      invariant tables == TableRows(ts[..i])
      invariant fields == FieldRowsOf(ts[..i])
    {
      var step := CollectTable(ts, i, tables, fields);
      if step.Raised? {
        assert ts[i] in ts;
        return Raised;
      }
      tables, fields := step.value.0, step.value.1;
    }
    assert ts[..|ts|] == ts;
    assert forall t :: t in ts ==> !TableRaises(t);
    return Returned((tables, fields));
  }

  /** `collect_metadata`: the table loop, then the relationship loop. */
  method CollectMetadata(model: Model) returns (r: Outcome<Metadata>)
    ensures r == MetadataOf(model)
  {
    var tablesIter := Iterate(model.tables);
    if tablesIter.Raised? {
      return Raised;
    }
    var tableFrames := CollectTableRows(tablesIter.value);
    if tableFrames.Raised? {
      return Raised;
    }
    var rels := CollectRelationshipRows(model);
    if rels.Raised? {
      return Raised;
    }
    return Returned(Metadata(tableFrames.value.0, tableFrames.value.1, rels.value));
  }

  /** The check for either cardinality key changes nothing: the result is
      always the two ends with their defaults. */
  lemma CardinalityOfEnds(r: Relationship)
    ensures Cardinality(r) == r.fromCardinality.GetOr("many") + ":" + r.toCardinality.GetOr("one")
  {
    if r.fromCardinality.None? && r.toCardinality.None? {
      assert "many" + ":" + "one" == "many:one";
    }
  }

  /** The package's collector writes the legacy cardinality in lower case. */
  lemma CardinalityLowerCased(r: Relationship)
    ensures MetadataParser.Cardinality(r) == Lower(Cardinality(r))
  {
    CardinalityOfEnds(r);
    var a := r.fromCardinality.GetOr("many");
    var b := r.toCardinality.GetOr("one");
    LowerAppend(a + ":", b);
    LowerAppend(a, ":");
    assert Lower(":") == ":";
  }

  lemma {:induction false} TableRowsAt(ts: seq<Table>)
    requires TablesReadable(ts)
    ensures forall i :: 0 <= i < |ts| ==> TableRows(ts)[i] == TableRowOf(ts[i])
    decreases |ts|
  {
    if ts != [] {
      TableRowsAt(ts[..|ts| - 1]);
    }
  }

  lemma {:induction false} RelationshipRowsAt(rels: seq<Relationship>)
    requires forall r :: r in rels ==> HasIdentity(r)
    ensures forall i :: 0 <= i < |rels| ==> RelationshipRows(rels)[i] == RelationshipRowOf(rels[i])
    decreases |rels|
  {
    if rels != [] {
      RelationshipRowsAt(rels[..|rels| - 1]);
    }
  }

  /** Where the legacy collector returns, the package's collector returns the
      same table rows, and the same relationship rows but for the cardinality,
      which it lower-cases. */
  lemma CollectorsAgree(m: Model)
    requires MetadataOf(m).Returned?
    ensures MetadataParser.CollectMetadata(Object(m)).Returned?
    ensures MetadataParser.CollectMetadata(Object(m)).value.tables == MetadataOf(m).value.tables
    ensures var newRows := MetadataParser.CollectMetadata(Object(m)).value.relationships;
      var oldRows := MetadataOf(m).value.relationships;
      && |newRows| == |oldRows|
      && forall i :: 0 <= i < |newRows| ==> newRows[i] == oldRows[i].(cardinality := Lower(oldRows[i].cardinality))
  {
    var ts := ItemsOrEmpty(m.tables);
    var rels := ItemsOrEmpty(m.relationships);
    assert forall t :: t in ts ==> !MetadataParser.TableRaises(t);
    var newMeta := MetadataParser.CollectMetadata(Object(m));
    TableRowsAt(ts);
    MetadataParser.TableRowsAt(ts);
    assert newMeta.value.tables == TableRows(ts);
    RelationshipRowsAt(rels);
    MetadataParser.RelationshipRowsAt(rels);
    forall i | 0 <= i < |rels|
      ensures MetadataParser.RelationshipRowOf(rels[i]) == RelationshipRowOf(rels[i]).(cardinality := Lower(Cardinality(rels[i])))
    {
      assert rels[i] in rels;
      CardinalityLowerCased(rels[i]);
    }
  }
}
