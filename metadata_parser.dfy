/** src/pbi_extractor/metadata_parser.py: the rule that turns a parsed
    `database.json` into its `model` value, and `collect_metadata_from_model`,
    which flattens the model into table, field and relationship rows with
    explicit defaults for missing attributes. */
module MetadataParser {
  import opened Wrappers
  import opened Text
  import opened Schema
  import opened Sequences

  /** A row of the fields frame: one per column and one per measure. */
  datatype FieldRow = FieldRow(
    table: string,
    objectName: string,
    objectType: string,
    dataType: Option<string>,
    isHidden: bool,
    description: string,
    expression: string)

  /** The three frames `collect_metadata_from_model` returns. */
  datatype Metadata = Metadata(tables: seq<TableRow>, fields: seq<FieldRow>, relationships: seq<RelationshipRow>)

  /** What `load_model_from_json` makes of a parsed document: the value under
      `model`, or `None` when the key is missing or holds `null`. A top-level
      value that is not an object has no `.get`; the exception is caught and
      also gives `None`. */
  function LoadModel(doc: Document): (r: Option<ModelValue>)
    ensures r.Some? <==> doc.ObjectDocument? && doc.model.Some? && !doc.model.value.Null?
    ensures r.Some? ==> r.value == doc.model.value
  {
    match doc
    case NonObjectDocument => None
    case ObjectDocument(model) => if model.None? || model.value.Null? then None else model
  }

  /** Python truthiness of an optional string attribute. */
  predicate Truthy(s: Option<string>) {
    s.Some? && s.value != ""
  }

  function TableRowOf(t: Table): (r: TableRow)
    ensures t.name.None? ==> r.tableName == "UnknownTable"
    ensures t.name.Some? ==> r.tableName == t.name.value
    ensures r.isHidden <==> t.isHidden == Some(true)
    ensures t.description.None? ==> r.description == ""
  {
    TableRow(t.name.GetOr("UnknownTable"), t.isHidden.GetOr(false), t.description.GetOr(""))
  }

  /** The field row of a column: a calculated column exactly when its `type`
      is truthy. */
  function ColumnRow(tableName: string, c: Column): (r: FieldRow)
    ensures r.table == tableName
    ensures r.objectType == "calculated column" <==> Truthy(c.kind)
    ensures !Truthy(c.kind) ==> r.objectType == "column"
    ensures c.name.None? ==> r.objectName == "UnknownColumn"
    ensures r.dataType == c.dataType
  {
    FieldRow(tableName, c.name.GetOr("UnknownColumn"),
      if Truthy(c.kind) then "calculated column" else "column",
      c.dataType, c.isHidden.GetOr(false), c.description.GetOr(""), c.expression.GetOr(""))
  }

  /** The field row of a measure: always of type "measure", with no data type. */
  function MeasureRow(tableName: string, ms: Measure): (r: FieldRow)
    ensures r.table == tableName
    ensures r.objectType == "measure" && r.dataType.None?
    ensures ms.name.None? ==> r.objectName == "UnknownMeasure"
  {
    FieldRow(tableName, ms.name.GetOr("UnknownMeasure"), "measure",
      None, ms.isHidden.GetOr(false), ms.description.GetOr(""), ms.expression.GetOr(""))
  }

  /** `f"{from_card.lower()}:{to_card.lower()}"` with the defaults "many" and "one". */
  function Cardinality(r: Relationship): string {
    Lower(r.fromCardinality.GetOr("many")) + ":" + Lower(r.toCardinality.GetOr("one"))
  }

  function RelationshipRowOf(r: Relationship): (row: RelationshipRow)
    ensures r.fromTable.None? ==> row.fromTable == "UnknownFromTable"
    ensures r.fromColumn.None? ==> row.fromColumn == "UnknownFromColumn"
    ensures r.toTable.None? ==> row.toTable == "UnknownToTable"
    ensures r.toColumn.None? ==> row.toColumn == "UnknownToColumn"
    ensures r.crossFilteringBehavior.None? ==> row.crossFilteringBehavior == "singleDirection"
    ensures !row.isActive <==> r.isActive == Some(false)
  {
    RelationshipRow(
      r.fromTable.GetOr("UnknownFromTable"),
      r.fromColumn.GetOr("UnknownFromColumn"),
      r.toTable.GetOr("UnknownToTable"),
      r.toColumn.GetOr("UnknownToColumn"),
      Cardinality(r),
      r.crossFilteringBehavior.GetOr("singleDirection"),
      r.isActive.GetOr(true))
  }

  /** One table row per table, in order. */
  function TableRows(ts: seq<Table>): (rows: seq<TableRow>)
    ensures |rows| == |ts|
  {
    if ts == [] then [] else TableRows(ts[..|ts| - 1]) + [TableRowOf(ts[|ts| - 1])]
  }

  function ColumnRows(tableName: string, cols: seq<Column>): (rows: seq<FieldRow>)
    ensures |rows| == |cols|
  {
    if cols == [] then [] else ColumnRows(tableName, cols[..|cols| - 1]) + [ColumnRow(tableName, cols[|cols| - 1])]
  }

  function MeasureRows(tableName: string, measures: seq<Measure>): (rows: seq<FieldRow>)
    ensures |rows| == |measures|
  {
    if measures == [] then [] else MeasureRows(tableName, measures[..|measures| - 1]) + [MeasureRow(tableName, measures[|measures| - 1])]
  }

  /** Row `i` of each frame is made from item `i` of its collection. */
  lemma {:induction false} TableRowsAt(ts: seq<Table>)
    ensures forall i :: 0 <= i < |ts| ==> TableRows(ts)[i] == TableRowOf(ts[i])
    decreases |ts|
  {
    if ts != [] {
      TableRowsAt(ts[..|ts| - 1]);
    }
  }

  lemma {:induction false} ColumnRowsAt(tableName: string, cols: seq<Column>)
    ensures forall i :: 0 <= i < |cols| ==> ColumnRows(tableName, cols)[i] == ColumnRow(tableName, cols[i])
    decreases |cols|
  {
    if cols != [] {
      ColumnRowsAt(tableName, cols[..|cols| - 1]);
    }
  }

  lemma {:induction false} MeasureRowsAt(tableName: string, measures: seq<Measure>)
    ensures forall i :: 0 <= i < |measures| ==> MeasureRows(tableName, measures)[i] == MeasureRow(tableName, measures[i])
    decreases |measures|
  {
    if measures != [] {
      MeasureRowsAt(tableName, measures[..|measures| - 1]);
    }
  }

  lemma {:induction false} RelationshipRowsAt(rels: seq<Relationship>)
    ensures forall i :: 0 <= i < |rels| ==> RelationshipRows(rels)[i] == RelationshipRowOf(rels[i])
    decreases |rels|
  {
    if rels != [] {
      RelationshipRowsAt(rels[..|rels| - 1]);
    }
  }

  /** The field rows of one table: its columns, then its measures. */
  function TableFieldRows(t: Table): seq<FieldRow> {
    var name := t.name.GetOr("UnknownTable");
    ColumnRows(name, ItemsOrEmpty(t.columns)) + MeasureRows(name, ItemsOrEmpty(t.measures))
  }

  /** The field rows of all tables, table by table. */
  function FieldRowsOf(ts: seq<Table>): seq<FieldRow> {
    if ts == [] then [] else FieldRowsOf(ts[..|ts| - 1]) + TableFieldRows(ts[|ts| - 1])
  }

  function RelationshipRows(rels: seq<Relationship>): (rows: seq<RelationshipRow>)
    ensures |rows| == |rels|
  {
    if rels == [] then [] else RelationshipRows(rels[..|rels| - 1]) + [RelationshipRowOf(rels[|rels| - 1])]
  }

  /** A table whose columns or measures cannot be iterated. */
  predicate TableRaises(t: Table) {
    Iterate(t.columns).Raised? || Iterate(t.measures).Raised?
  }

  /** What `collect_metadata_from_model` returns for a model value: three
      empty frames for anything but an object; otherwise the rows, unless one
      of the collections it iterates cannot be iterated. */
  function CollectMetadata(v: ModelValue): Outcome<Metadata> {
    if !v.Object? then Returned(Metadata([], [], []))
    else if Iterate(v.model.tables).Raised? then Raised
    else
      var ts := ItemsOrEmpty(v.model.tables);
      if exists t :: t in ts && TableRaises(t) then Raised
      else if Iterate(v.model.relationships).Raised? then Raised
      else Returned(Metadata(TableRows(ts), FieldRowsOf(ts), RelationshipRows(ItemsOrEmpty(v.model.relationships))))
  }

  /** The step of the column loop: one more row after those already appended. */
  lemma ColumnRowsStep(prefix: seq<FieldRow>, fields: seq<FieldRow>, tableName: string, cols: seq<Column>, j: nat)
    requires j < |cols| && fields == prefix + ColumnRows(tableName, cols[..j])
    ensures fields + [ColumnRow(tableName, cols[j])] == prefix + ColumnRows(tableName, cols[..j + 1])
  {
    assert cols[..j + 1][..j] == cols[..j];
  }

  lemma MeasureRowsStep(prefix: seq<FieldRow>, fields: seq<FieldRow>, tableName: string, measures: seq<Measure>, j: nat)
    requires j < |measures| && fields == prefix + MeasureRows(tableName, measures[..j])
    ensures fields + [MeasureRow(tableName, measures[j])] == prefix + MeasureRows(tableName, measures[..j + 1])
  {
    assert measures[..j + 1][..j] == measures[..j];
  }

  /** The column loop of a table: a field row per column. */
  method AppendColumnRows(fieldsList: seq<FieldRow>, tableName: string, cols: seq<Column>) returns (fields: seq<FieldRow>)
    ensures fields == fieldsList + ColumnRows(tableName, cols)
  {
    fields := fieldsList;
    for j := 0 to |cols|
      invariant fields == fieldsList + ColumnRows(tableName, cols[..j])
    {
      ColumnRowsStep(fieldsList, fields, tableName, cols, j);
      fields := fields + [ColumnRow(tableName, cols[j])];
    }
    assert cols[..|cols|] == cols;
  }

  /** The measure loop of a table: a field row per measure. */
  method AppendMeasureRows(fieldsList: seq<FieldRow>, tableName: string, measures: seq<Measure>) returns (fields: seq<FieldRow>)
    ensures fields == fieldsList + MeasureRows(tableName, measures)
  {
    fields := fieldsList;
    for j := 0 to |measures|
      invariant fields == fieldsList + MeasureRows(tableName, measures[..j])
    {
      MeasureRowsStep(fieldsList, fields, tableName, measures, j);
      fields := fields + [MeasureRow(tableName, measures[j])];
    }
    assert measures[..|measures|] == measures;
  }

  /** The body of the table loop of `collect_metadata_from_model` after the
      table row: the rows of the table's columns, then of its measures,
      appended to `fieldsList`. */
  method AppendTableFields(fieldsList: seq<FieldRow>, tbl: Table) returns (r: Outcome<seq<FieldRow>>)
    ensures r.Raised? <==> TableRaises(tbl)
    ensures r.Returned? ==> r.value == fieldsList + TableFieldRows(tbl)
  {
    var tableName := tbl.name.GetOr("UnknownTable");
    var columnsIter := Iterate(tbl.columns);
    if columnsIter.Raised? {
      return Raised;
    }
    var withColumns := AppendColumnRows(fieldsList, tableName, columnsIter.value);
    var measuresIter := Iterate(tbl.measures);
    if measuresIter.Raised? {
      return Raised;
    }
    var fields := AppendMeasureRows(withColumns, tableName, measuresIter.value);
    AppendAssociative(fieldsList, ColumnRows(tableName, columnsIter.value), MeasureRows(tableName, measuresIter.value));
    return Returned(fields);
  }

  /** The step of the table loop: one more table row, and the field rows of
      one more table. */
  lemma TablesStep(ts: seq<Table>, i: nat, tables: seq<TableRow>, fields: seq<FieldRow>, newFields: seq<FieldRow>)
    requires i < |ts| && tables == TableRows(ts[..i]) && fields == FieldRowsOf(ts[..i])
    requires newFields == fields + TableFieldRows(ts[i])
    ensures tables + [TableRowOf(ts[i])] == TableRows(ts[..i + 1])
    ensures newFields == FieldRowsOf(ts[..i + 1])
  {
    assert ts[..i + 1][..i] == ts[..i];
  }

  lemma RelationshipRowsStep(rows: seq<RelationshipRow>, rels: seq<Relationship>, i: nat)
    requires i < |rels| && rows == RelationshipRows(rels[..i])
    ensures rows + [RelationshipRowOf(rels[i])] == RelationshipRows(rels[..i + 1])
  {
    assert rels[..i + 1][..i] == rels[..i];
  }

  /** The body of the table loop: the row of table `i` and the rows of its
      columns and measures, after those of the tables before it. */
  method CollectTable(ts: seq<Table>, i: nat, tablesList: seq<TableRow>, fieldsList: seq<FieldRow>)
    returns (r: Outcome<(seq<TableRow>, seq<FieldRow>)>)
    requires i < |ts| && tablesList == TableRows(ts[..i]) && fieldsList == FieldRowsOf(ts[..i])
    ensures r.Raised? <==> TableRaises(ts[i])
    ensures r.Returned? ==> r.value == (TableRows(ts[..i + 1]), FieldRowsOf(ts[..i + 1]))
  {
    var withTable := AppendTableFields(fieldsList, ts[i]);
    if withTable.Raised? {
      return Raised;
    }
    TablesStep(ts, i, tablesList, fieldsList, withTable.value);
    return Returned((tablesList + [TableRowOf(ts[i])], withTable.value));
  }

  /** The table loop of `collect_metadata_from_model`: a table row and the
      rows of its columns and measures per table. */
  method CollectTables(ts: seq<Table>) returns (r: Outcome<(seq<TableRow>, seq<FieldRow>)>)
    ensures r.Raised? <==> exists t :: t in ts && TableRaises(t)
    ensures r.Returned? ==> r.value == (TableRows(ts), FieldRowsOf(ts))
  {
    var tablesList: seq<TableRow> := [];
    var fieldsList: seq<FieldRow> := [];
    for i := 0 to |ts|
      invariant tablesList == TableRows(ts[..i])
      invariant fieldsList == FieldRowsOf(ts[..i])
      invariant forall k :: 0 <= k < i ==> !TableRaises(ts[k])
    {
      var step := CollectTable(ts, i, tablesList, fieldsList);
      if step.Raised? {
        assert ts[i] in ts;
        return Raised;
      }
      forall k | 0 <= k < i + 1
        ensures !TableRaises(ts[k])
      {
        if k == i {
          assert step.Returned?;
        }
      }
      tablesList, fieldsList := step.value.0, step.value.1;
    }
    assert ts[..|ts|] == ts;
    assert forall t :: t in ts ==> !TableRaises(t);
    return Returned((tablesList, fieldsList));
  }

  /** The relationship loop of `collect_metadata_from_model`. */
  method CollectRelationships(rels: seq<Relationship>) returns (relationshipsList: seq<RelationshipRow>)
    ensures relationshipsList == RelationshipRows(rels)
  {
    relationshipsList := [];
    for i := 0 to |rels|
      invariant relationshipsList == RelationshipRows(rels[..i])
    {
      RelationshipRowsStep(relationshipsList, rels, i);
      relationshipsList := relationshipsList + [RelationshipRowOf(rels[i])];
    }
    assert rels[..|rels|] == rels;
  }

  /** `collect_metadata_from_model`: the loop over tables appending a table
      row and the rows of its columns and measures, then the loop over
      relationships. */
  method CollectMetadataFromModel(modelData: ModelValue) returns (r: Outcome<Metadata>)
    ensures r == CollectMetadata(modelData)
  {
    if !modelData.Object? {
      return Returned(Metadata([], [], []));
    }
    var m := modelData.model;
    var tablesIter := Iterate(m.tables);
    if tablesIter.Raised? {
      return Raised;
    }
    var tableFrames := CollectTables(tablesIter.value);
    if tableFrames.Raised? {
      return Raised;
    }
    var relsIter := Iterate(m.relationships);
    if relsIter.Raised? {
      return Raised;
    }
    var relationshipsList := CollectRelationships(relsIter.value);
    return Returned(Metadata(tableFrames.value.0, tableFrames.value.1, relationshipsList));
  }

  /** The number of columns and measures over all tables. */
  function ItemCount(ts: seq<Table>): nat {
    if ts == [] then 0
    else ItemCount(ts[..|ts| - 1]) + |ItemsOrEmpty(ts[|ts| - 1].columns)| + |ItemsOrEmpty(ts[|ts| - 1].measures)|
  }

  lemma {:induction false} FieldRowCount(ts: seq<Table>)
    ensures |FieldRowsOf(ts)| == ItemCount(ts)
    decreases |ts|
  {
    if ts != [] {
      FieldRowCount(ts[..|ts| - 1]);
    }
  }

  /** The frames have one table row per table, one field row per column and
      per measure, and one relationship row per relationship. */
  lemma CollectCounts(m: Model)
    requires CollectMetadata(Object(m)).Returned?
    ensures |CollectMetadata(Object(m)).value.tables| == |ItemsOrEmpty(m.tables)|
    ensures |CollectMetadata(Object(m)).value.fields| == ItemCount(ItemsOrEmpty(m.tables))
    ensures |CollectMetadata(Object(m)).value.relationships| == |ItemsOrEmpty(m.relationships)|
  {
    FieldRowCount(ItemsOrEmpty(m.tables));
  }

  /** A model whose collections are all lists or missing is always flattened. */
  lemma CollectListsNeverRaises(m: Model)
    requires !m.tables.NotAList? && !m.relationships.NotAList?
    requires forall t :: t in ItemsOrEmpty(m.tables) ==> !t.columns.NotAList? && !t.measures.NotAList?
    ensures CollectMetadata(Object(m)).Returned?
  {
  }

  /** The cardinality string splits on `:` into the lower-cased ends, as long
      as neither end holds a colon. */
  lemma CardinalitySplits(r: Relationship)
    requires ':' !in r.fromCardinality.GetOr("many") && ':' !in r.toCardinality.GetOr("one")
    ensures Split(Cardinality(r), ':') == [Lower(r.fromCardinality.GetOr("many")), Lower(r.toCardinality.GetOr("one"))]
  {
    var a := Lower(r.fromCardinality.GetOr("many"));
    var b := Lower(r.toCardinality.GetOr("one"));
    assert ':' !in a && ':' !in b;
    SplitTwo(a, b, ':');
  }
}
