/** diff_models of src/pbi_extractor/diff_engine.py: the structural difference
    between two models as sorted set differences of table names,
    (table, field) pairs and relationship identities. */
module DiffEngine {
  import opened Wrappers
  import opened Schema
  import opened Ordering
  import MetadataParser

  /** The named tables: `{t["name"] for t in _get_items(model, "tables") if "name" in t}`.
      A table whose name is the empty string is still named. */
  function TableNames(m: Model): set<string> {
    set t | t in ItemsOrEmpty(m.tables) && t.name.Some? :: t.name.value
  }

  /** The fields one table contributes: nothing when its name is missing or
      empty, else one pair per named column and per named measure. */
  function TableFields(t: Table): set<FieldId> {
    if t.name.None? || t.name.value == "" then {}
    else ColumnFields(t.name.value, ItemsOrEmpty(t.columns)) + MeasureFields(t.name.value, ItemsOrEmpty(t.measures))
  }

  function ColumnFields(tableName: string, columns: seq<Column>): set<FieldId> {
    set c | c in columns && c.name.Some? :: (tableName, c.name.value)
  }

  function MeasureFields(tableName: string, measures: seq<Measure>): set<FieldId> {
    set ms | ms in measures && ms.name.Some? :: (tableName, ms.name.value)
  }

  function FieldsOf(tables: seq<Table>): set<FieldId> {
    set t, f | t in tables && f in TableFields(t) :: f
  }

  /** What `gather_fields_from_model` returns. */
  function FieldSet(m: Model): set<FieldId> {
    FieldsOf(ItemsOrEmpty(m.tables))
  }

  /** All four identity keys are present. */
  predicate HasIdentity(r: Relationship) {
    r.fromTable.Some? && r.fromColumn.Some? && r.toTable.Some? && r.toColumn.Some?
  }

  function Identity(r: Relationship): RelationshipId
    requires HasIdentity(r)
  {
    (r.fromTable.value, r.fromColumn.value, r.toTable.value, r.toColumn.value)
  }

  function RelationshipsOf(rels: seq<Relationship>): set<RelationshipId> {
    set r | r in rels && HasIdentity(r) :: Identity(r)
  }

  /** What `gather_relationships_from_model` returns. */
  function RelationshipSet(m: Model): set<RelationshipId> {
    RelationshipsOf(ItemsOrEmpty(m.relationships))
  }

  /** The diff of two present models. */
  function DiffOf(oldModel: Model, newModel: Model): Delta {
    StrLessIsStrictTotalOrder();
    PairLessIsStrictTotalOrder();
    QuadLessIsStrictTotalOrder();
    Delta(
      SortedList(TableNames(newModel) - TableNames(oldModel), StrLess),
      SortedList(TableNames(oldModel) - TableNames(newModel), StrLess),
      SortedList(FieldSet(newModel) - FieldSet(oldModel), PairLess),
      SortedList(FieldSet(oldModel) - FieldSet(newModel), PairLess),
      SortedList(RelationshipSet(newModel) - RelationshipSet(oldModel), QuadLess),
      SortedList(RelationshipSet(oldModel) - RelationshipSet(newModel), QuadLess))
  }

  /** `diff_models(old_model, new_model)` on any JSON values, `Null` standing
      for Python's `None`: no diff when either model is `None`; a value that is
      not an object has no `.get`, so `_get_items` raises on it. */
  function Diff(oldModel: ModelValue, newModel: ModelValue): Outcome<Option<Delta>> {
    if oldModel.Null? || newModel.Null? then Returned(None)
    else if oldModel.Object? && newModel.Object? then Returned(Some(DiffOf(oldModel.model, newModel.model)))
    else Raised
  }

  lemma FieldsOfSnoc(tables: seq<Table>, t: Table)
    ensures FieldsOf(tables + [t]) == FieldsOf(tables) + TableFields(t)
  {
    forall f | f in FieldsOf(tables + [t]) ensures f in FieldsOf(tables) + TableFields(t) {
      var u :| u in tables + [t] && f in TableFields(u);
    }
  }

  lemma RelationshipsOfSnoc(rels: seq<Relationship>, r: Relationship)
    ensures RelationshipsOf(rels + [r]) == RelationshipsOf(rels) + (if HasIdentity(r) then {Identity(r)} else {})
  {
  }

  /** `gather_fields_from_model`: the loop over tables, then over each named
      table's columns and measures, adding (table name, item name) pairs. */
  lemma ColumnFieldsStep(tableName: string, columns: seq<Column>, j: nat)
    requires j < |columns|
    ensures ColumnFields(tableName, columns[..j + 1])
      == ColumnFields(tableName, columns[..j]) + (if columns[j].name.Some? then {(tableName, columns[j].name.value)} else {})
  {
    assert columns[..j + 1] == columns[..j] + [columns[j]];
  }

  lemma MeasureFieldsStep(tableName: string, measures: seq<Measure>, j: nat)
    requires j < |measures|
    ensures MeasureFields(tableName, measures[..j + 1])
      == MeasureFields(tableName, measures[..j]) + (if measures[j].name.Some? then {(tableName, measures[j].name.value)} else {})
  {
    assert measures[..j + 1] == measures[..j] + [measures[j]];
  }

  /** The column loop of `gather_fields_from_model` for one named table. */
  method AddColumnFields(fields: set<FieldId>, tableName: string, columns: seq<Column>) returns (fieldSet: set<FieldId>)
    ensures fieldSet == fields + ColumnFields(tableName, columns)
  {
    fieldSet := fields;
    for j := 0 to |columns|
      invariant fieldSet == fields + ColumnFields(tableName, columns[..j])
    {
      ColumnFieldsStep(tableName, columns, j);
      if columns[j].name.Some? {
        fieldSet := fieldSet + {(tableName, columns[j].name.value)};
      }
    }
    assert columns[..|columns|] == columns;
  }

  /** The measure loop of `gather_fields_from_model` for one named table. */
  method AddMeasureFields(fields: set<FieldId>, tableName: string, measures: seq<Measure>) returns (fieldSet: set<FieldId>)
    ensures fieldSet == fields + MeasureFields(tableName, measures)
  {
    fieldSet := fields;
    for j := 0 to |measures|
      invariant fieldSet == fields + MeasureFields(tableName, measures[..j])
    {
      MeasureFieldsStep(tableName, measures, j);
      if measures[j].name.Some? {
        fieldSet := fieldSet + {(tableName, measures[j].name.value)};
      }
    }
    assert measures[..|measures|] == measures;
  }

  method GatherFieldsFromModel(m: Model) returns (fieldSet: set<FieldId>)
    ensures fieldSet == FieldSet(m)
  {
    fieldSet := {};
    var tables := ItemsOrEmpty(m.tables);
    for i := 0 to |tables|
      invariant fieldSet == FieldsOf(tables[..i])
    {
      var tableData := tables[i];
      assert tables[..i + 1] == tables[..i] + [tableData];
      FieldsOfSnoc(tables[..i], tableData);
      if tableData.name.None? || tableData.name.value == "" {
        continue;
      }
      var tableName := tableData.name.value;
      fieldSet := AddColumnFields(fieldSet, tableName, ItemsOrEmpty(tableData.columns));
      fieldSet := AddMeasureFields(fieldSet, tableName, ItemsOrEmpty(tableData.measures));
    }
    assert tables[..|tables|] == tables;
  }


  /** `gather_relationships_from_model`: one identity per relationship that has
      all four identity keys; the others are skipped. */
  method GatherRelationshipsFromModel(m: Model) returns (relSet: set<RelationshipId>)
    ensures relSet == RelationshipSet(m)
  {
    relSet := {};
    var rels := ItemsOrEmpty(m.relationships);
    for i := 0 to |rels|
      invariant relSet == RelationshipsOf(rels[..i])
    {
      var relData := rels[i];
      assert rels[..i + 1] == rels[..i] + [relData];
      RelationshipsOfSnoc(rels[..i], relData);
      if HasIdentity(relData) {
        relSet := relSet + {(relData.fromTable.value, relData.fromColumn.value, relData.toTable.value, relData.toColumn.value)};
      }
    }
    assert rels[..|rels|] == rels;
  }

  /** `diff_models`. */
  method DiffModels(oldModel: ModelValue, newModel: ModelValue) returns (r: Outcome<Option<Delta>>)
    ensures r == Diff(oldModel, newModel)
  {
    if oldModel.Null? || newModel.Null? {
      return Returned(None);
    }
    if !oldModel.Object? || !newModel.Object? {
      return Raised;
    }
    StrLessIsStrictTotalOrder();
    PairLessIsStrictTotalOrder();
    QuadLessIsStrictTotalOrder();
    var oldTables := TableNames(oldModel.model);
    var newTables := TableNames(newModel.model);
    var tablesAdded := SortedList(newTables - oldTables, StrLess);
    var tablesRemoved := SortedList(oldTables - newTables, StrLess);
    var oldFields := GatherFieldsFromModel(oldModel.model);
    var newFields := GatherFieldsFromModel(newModel.model);
    var fieldsAdded := SortedList(newFields - oldFields, PairLess);
    var fieldsRemoved := SortedList(oldFields - newFields, PairLess);
    var oldRelationships := GatherRelationshipsFromModel(oldModel.model);
    var newRelationships := GatherRelationshipsFromModel(newModel.model);
    var relationsAdded := SortedList(newRelationships - oldRelationships, QuadLess);
    var relationsRemoved := SortedList(oldRelationships - newRelationships, QuadLess);
    r := Returned(Some(Delta(tablesAdded, tablesRemoved, fieldsAdded, fieldsRemoved, relationsAdded, relationsRemoved)));
  }

  /** Each list of the diff is the sorted set difference: added is new minus
      old, removed is old minus new. */
  lemma DiffIsSortedSetDifference(oldModel: Model, newModel: Model)
    ensures SortedSetOf(DiffOf(oldModel, newModel).tablesAdded, TableNames(newModel) - TableNames(oldModel), StrLess)
    ensures SortedSetOf(DiffOf(oldModel, newModel).tablesRemoved, TableNames(oldModel) - TableNames(newModel), StrLess)
    ensures SortedSetOf(DiffOf(oldModel, newModel).fieldsAdded, FieldSet(newModel) - FieldSet(oldModel), PairLess)
    ensures SortedSetOf(DiffOf(oldModel, newModel).fieldsRemoved, FieldSet(oldModel) - FieldSet(newModel), PairLess)
    ensures SortedSetOf(DiffOf(oldModel, newModel).relationsAdded, RelationshipSet(newModel) - RelationshipSet(oldModel), QuadLess)
    ensures SortedSetOf(DiffOf(oldModel, newModel).relationsRemoved, RelationshipSet(oldModel) - RelationshipSet(newModel), QuadLess)
  {
    StrLessIsStrictTotalOrder();
    PairLessIsStrictTotalOrder();
    QuadLessIsStrictTotalOrder();
  }

  /** There is a diff exactly when both models are objects; `None` on either
      side gives no diff, and otherwise the call raises. */
  lemma DiffPresentIffBothModels(oldModel: ModelValue, newModel: ModelValue)
    ensures Diff(oldModel, newModel).Returned? && Diff(oldModel, newModel).value.Some?
      <==> oldModel.Object? && newModel.Object?
    ensures Diff(oldModel, newModel) == Returned(None) <==> oldModel.Null? || newModel.Null?
    ensures Diff(oldModel, newModel).Raised?
      <==> !oldModel.Null? && !newModel.Null? && (oldModel.OtherValue? || newModel.OtherValue?)
  {
  }

  /** A truthy model that is not a JSON object, as `load_model_from_json`
      returns for `{"model": "x"}`, makes the diff raise. */
  lemma NonObjectModelRaises(m: Model)
    ensures Diff(OtherValue, Object(m)).Raised? && Diff(Object(m), OtherValue).Raised?
    ensures Diff(OtherValue, OtherValue).Raised?
    ensures MetadataParser.LoadModel(ObjectDocument(Some(OtherValue))) == Some(OtherValue)
  {
  }

  /** Swapping the models swaps every added list with its removed list. */
  lemma DiffSymmetric(a: ModelValue, b: ModelValue)
    ensures Diff(a, b).Raised? <==> Diff(b, a).Raised?
    ensures Diff(a, b) == Returned(None) <==> Diff(b, a) == Returned(None)
    ensures Diff(a, b).Returned? && Diff(a, b).value.Some? ==>
      Diff(b, a).Returned? && Diff(b, a).value.Some? && Diff(b, a).value.value == Diff(a, b).value.value.Swapped()
  {
  }

  /** A model compared with itself has no differences. */
  lemma DiffWithItselfIsEmpty(m: Model)
    ensures DiffOf(m, m).IsEmpty()
  {
    DiffIsSortedSetDifference(m, m);
    var d := DiffOf(m, m);
    assert d.tablesAdded == [] by { assert forall x :: x !in d.tablesAdded; }
    assert d.tablesRemoved == [] by { assert forall x :: x !in d.tablesRemoved; }
    assert d.fieldsAdded == [] by { assert forall x :: x !in d.fieldsAdded; }
    assert d.fieldsRemoved == [] by { assert forall x :: x !in d.fieldsRemoved; }
    assert d.relationsAdded == [] by { assert forall x :: x !in d.relationsAdded; }
    assert d.relationsRemoved == [] by { assert forall x :: x !in d.relationsRemoved; }
  }

  /** Nothing is both added and removed. */
  lemma AddedAndRemovedDisjoint(oldModel: Model, newModel: Model)
    ensures forall x :: !(x in DiffOf(oldModel, newModel).tablesAdded && x in DiffOf(oldModel, newModel).tablesRemoved)
    ensures forall x :: !(x in DiffOf(oldModel, newModel).fieldsAdded && x in DiffOf(oldModel, newModel).fieldsRemoved)
    ensures forall x :: !(x in DiffOf(oldModel, newModel).relationsAdded && x in DiffOf(oldModel, newModel).relationsRemoved)
  {
    DiffIsSortedSetDifference(oldModel, newModel);
  }

  /** A table without a name, or named "", adds no field. */
  lemma IgnoredTableAddsNoFields(tables: seq<Table>, t: Table)
    requires t.name.None? || t.name.value == ""
    ensures FieldsOf(tables + [t]) == FieldsOf(tables)
  {
    FieldsOfSnoc(tables, t);
  }

  /** A column or measure without a name adds no field. */
  lemma UnnamedItemsAddNoFields(tableName: string, columns: seq<Column>, c: Column, measures: seq<Measure>, ms: Measure)
    requires c.name.None? && ms.name.None?
    ensures ColumnFields(tableName, columns + [c]) == ColumnFields(tableName, columns)
    ensures MeasureFields(tableName, measures + [ms]) == MeasureFields(tableName, measures)
  {
    ColumnFieldsStep(tableName, columns + [c], |columns|);
    assert (columns + [c])[..|columns|] == columns && (columns + [c])[..|columns| + 1] == columns + [c];
    MeasureFieldsStep(tableName, measures + [ms], |measures|);
    assert (measures + [ms])[..|measures|] == measures && (measures + [ms])[..|measures| + 1] == measures + [ms];
  }

  /** A relationship missing one of its four identity keys is skipped. */
  lemma MalformedRelationshipSkipped(rels: seq<Relationship>, r: Relationship)
    requires !HasIdentity(r)
    ensures RelationshipsOf(rels + [r]) == RelationshipsOf(rels)
  {
    RelationshipsOfSnoc(rels, r);
  }

  predicate SameIdentityKeys(a: Relationship, b: Relationship) {
    a.fromTable == b.fromTable && a.fromColumn == b.fromColumn && a.toTable == b.toTable && a.toColumn == b.toColumn
  }

  lemma RelationshipsOfIncluded(a: seq<Relationship>, b: seq<Relationship>)
    requires |a| == |b| && forall i :: 0 <= i < |a| ==> SameIdentityKeys(a[i], b[i])
    ensures RelationshipsOf(a) <= RelationshipsOf(b)
  {
    forall x | x in RelationshipsOf(a) ensures x in RelationshipsOf(b) {
      var r :| r in a && HasIdentity(r) && Identity(r) == x;
      var i :| 0 <= i < |a| && a[i] == r;
      assert b[i] in b && SameIdentityKeys(a[i], b[i]);
    }
  }

  /** Only the four identity keys of a relationship matter: relationships
      that agree on them, position by position, give the same relationship
      set whatever their cardinalities, filtering or active flag. */
  lemma OnlyIdentityKeysMatter(a: seq<Relationship>, b: seq<Relationship>)
    requires |a| == |b| && forall i :: 0 <= i < |a| ==> SameIdentityKeys(a[i], b[i])
    ensures RelationshipsOf(a) == RelationshipsOf(b)
  {
    RelationshipsOfIncluded(a, b);
    RelationshipsOfIncluded(b, a);
  }

  /** A collection value that is not a list counts as no items: a model
      whose tables and relationships are not lists diffs like an empty one. */
  lemma NonListsCountAsEmpty(m: Model, other: Model)
    requires m.tables.NotAList? && m.relationships.NotAList?
    ensures DiffOf(m, other) == DiffOf(Model(Missing, Missing), other)
    ensures DiffOf(other, m) == DiffOf(other, Model(Missing, Missing))
  {
    var empty := Model(Missing, Missing);
    assert TableNames(m) == {} == TableNames(empty);
    assert FieldSet(m) == {} == FieldSet(empty);
    assert RelationshipSet(m) == {} == RelationshipSet(empty);
  }
}
