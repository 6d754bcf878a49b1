/** `diff_models` of the legacy script extractor.py: the same sorted set
    differences as the package's diff engine, but without the guard for a
    missing model, without skipping tables named "", and reading names with
    subscripts, so a missing key raises. */
module ExtractorDiff {
  import opened Wrappers
  import opened Schema
  import opened Ordering
  import DiffEngine
  import ExtractorMetadata

  /** The fields of a named table: `{(tbl, c["name"]) ...}` over its columns
      and measures, whatever the table's name. */
  function TableFields(t: Table): set<FieldId>
    requires t.name.Some?
  {
    (set c | c in ItemsOrEmpty(t.columns) && c.name.Some? :: (t.name.value, c.name.value))
    + (set ms | ms in ItemsOrEmpty(t.measures) && ms.name.Some? :: (t.name.value, ms.name.value))
  }

  /** What `gather_fields` returns for a model it can read. */
  function FieldSet(m: Model): set<FieldId> {
    set t, f | t in ItemsOrEmpty(m.tables) && t.name.Some? && f in TableFields(t) :: f
  }

  /** What `diff_models(old, new)` returns: it raises when either model has a
      collection it cannot iterate or an item without one of the keys it
      reads; the table names and relationship identities are then exactly
      those of the package's diff engine. */
  function DiffModels(oldModel: Model, newModel: Model): Outcome<Delta> {
    if ExtractorMetadata.ModelRaises(oldModel) || ExtractorMetadata.ModelRaises(newModel) then Raised
    else
      StrLessIsStrictTotalOrder();
      PairLessIsStrictTotalOrder();
      QuadLessIsStrictTotalOrder();
      var oldTables := DiffEngine.TableNames(oldModel);
      var newTables := DiffEngine.TableNames(newModel);
      var oldRelations := DiffEngine.RelationshipSet(oldModel);
      var newRelations := DiffEngine.RelationshipSet(newModel);
      Returned(Delta(
        SortedList(newTables - oldTables, StrLess),
        SortedList(oldTables - newTables, StrLess),
        SortedList(FieldSet(newModel) - FieldSet(oldModel), PairLess),
        SortedList(FieldSet(oldModel) - FieldSet(newModel), PairLess),
        SortedList(newRelations - oldRelations, QuadLess),
        SortedList(oldRelations - newRelations, QuadLess)))
  }

  /** `diff_models(old, new)` on any JSON values, `Null` standing for Python's
      `None`: there is no guard, so `old.get("tables", [])` raises on `None`
      and on every other value that is not an object. */
  function DiffModelsOf(oldValue: ModelValue, newValue: ModelValue): Outcome<Delta> {
    if oldValue.Object? && newValue.Object? then DiffModels(oldValue.model, newValue.model)
    else Raised
  }

  /** The legacy diff raises exactly when a model is not an object, or the
      legacy collector raises on one of the two models; otherwise each list
      is the sorted set difference, new minus old for the added ones. */
  lemma DiffModelsIsSortedSetDifference(oldValue: ModelValue, newValue: ModelValue)
    ensures DiffModelsOf(oldValue, newValue).Raised?
      <==> || !oldValue.Object? || !newValue.Object?
           || ExtractorMetadata.MetadataOf(oldValue.model).Raised?
           || ExtractorMetadata.MetadataOf(newValue.model).Raised?
    ensures DiffModelsOf(oldValue, newValue).Returned? ==>
      oldValue.Object? && newValue.Object? &&
      var oldModel := oldValue.model;
      var newModel := newValue.model;
      var d := DiffModelsOf(oldValue, newValue).value;
      && SortedSetOf(d.tablesAdded, DiffEngine.TableNames(newModel) - DiffEngine.TableNames(oldModel), StrLess)
      && SortedSetOf(d.tablesRemoved, DiffEngine.TableNames(oldModel) - DiffEngine.TableNames(newModel), StrLess)
      && SortedSetOf(d.fieldsAdded, FieldSet(newModel) - FieldSet(oldModel), PairLess)
      && SortedSetOf(d.fieldsRemoved, FieldSet(oldModel) - FieldSet(newModel), PairLess)
      && SortedSetOf(d.relationsAdded, DiffEngine.RelationshipSet(newModel) - DiffEngine.RelationshipSet(oldModel), QuadLess)
      && SortedSetOf(d.relationsRemoved, DiffEngine.RelationshipSet(oldModel) - DiffEngine.RelationshipSet(newModel), QuadLess)
  {
    StrLessIsStrictTotalOrder();
    PairLessIsStrictTotalOrder();
    QuadLessIsStrictTotalOrder();
  }

  /** Swapping the models swaps every added list with its removed list. */
  lemma DiffModelsSymmetric(a: Model, b: Model)
    ensures DiffModels(a, b).Raised? <==> DiffModels(b, a).Raised?
    ensures DiffModels(a, b).Returned? ==> DiffModels(b, a).value == DiffModels(a, b).value.Swapped()
  {
  }

  /** A readable model compared with itself has no differences. */
  lemma DiffModelsWithItselfIsEmpty(m: Model)
    requires !ExtractorMetadata.ModelRaises(m)
    ensures DiffModels(m, m).Returned? && DiffModels(m, m).value.IsEmpty()
  {
    DiffModelsIsSortedSetDifference(Object(m), Object(m));
    var d := DiffModels(m, m).value;
    assert d.tablesAdded == [] by { assert forall x :: x !in d.tablesAdded; }
    assert d.tablesRemoved == [] by { assert forall x :: x !in d.tablesRemoved; }
    assert d.fieldsAdded == [] by { assert forall x :: x !in d.fieldsAdded; }
    assert d.fieldsRemoved == [] by { assert forall x :: x !in d.fieldsRemoved; }
    assert d.relationsAdded == [] by { assert forall x :: x !in d.relationsAdded; }
    assert d.relationsRemoved == [] by { assert forall x :: x !in d.relationsRemoved; }
  }

  /** Without tables named "", the fields the legacy diff gathers are those
      the package's diff engine gathers. */
  lemma FieldSetsAgree(m: Model)
    requires forall t :: t in ItemsOrEmpty(m.tables) ==> t.name.Some? && t.name.value != ""
    ensures FieldSet(m) == DiffEngine.FieldSet(m)
  {
    forall f | f in DiffEngine.FieldSet(m) ensures f in FieldSet(m) {
      var t :| t in ItemsOrEmpty(m.tables) && f in DiffEngine.TableFields(t);
      assert f in TableFields(t);
    }
    forall f | f in FieldSet(m) ensures f in DiffEngine.FieldSet(m) {
      var t :| t in ItemsOrEmpty(m.tables) && t.name.Some? && f in TableFields(t);
      assert f in DiffEngine.TableFields(t);
    }
  }

  /** On readable models whose tables all have non-empty names, the legacy
      diff and the package's diff engine give the same diff. */
  lemma DiffModelsAgreesWithPackage(oldModel: Model, newModel: Model)
    requires !ExtractorMetadata.ModelRaises(oldModel) && !ExtractorMetadata.ModelRaises(newModel)
    requires forall t :: t in ItemsOrEmpty(oldModel.tables) ==> t.name.value != ""
    requires forall t :: t in ItemsOrEmpty(newModel.tables) ==> t.name.value != ""
    ensures DiffModels(oldModel, newModel) == Returned(DiffEngine.DiffOf(oldModel, newModel))
  {
    assert forall t :: t in ItemsOrEmpty(oldModel.tables) ==> !ExtractorMetadata.TableRaises(t);
    assert forall t :: t in ItemsOrEmpty(newModel.tables) ==> !ExtractorMetadata.TableRaises(t);
    FieldSetsAgree(oldModel);
    FieldSetsAgree(newModel);
  }

  /** A model holding one table named "" with one column "c". */
  function EmptyNamedTableModel(): Model {
    Model(List([Table(Some(""), None, None, List([Column(Some("c"), None, None, None, None, None)]), Missing)]), Missing)
  }

  lemma EmptyNamedTableFields()
    ensures !ExtractorMetadata.ModelRaises(EmptyNamedTableModel())
    ensures FieldSet(EmptyNamedTableModel()) == {("", "c")}
    ensures DiffEngine.FieldSet(EmptyNamedTableModel()) == {}
  {
    var m := EmptyNamedTableModel();
    var column := Column(Some("c"), None, None, None, None, None);
    var table := Table(Some(""), None, None, List([column]), Missing);
    assert forall c :: c in ItemsOrEmpty(table.columns) ==> c == column;
    assert forall t :: t in ItemsOrEmpty(m.tables) ==> t == table;
    assert !ExtractorMetadata.ColumnsRaise(table);
    assert TableFields(table) == {("", "c")};
    assert table in ItemsOrEmpty(m.tables);
  }

  /** A table named "" still contributes its fields to the legacy diff, where
      the package's diff engine leaves them out. */
  lemma EmptyTableNameContrast()
    ensures var empty := Model(Missing, Missing);
      && DiffModels(empty, EmptyNamedTableModel()).Returned?
      && DiffModels(empty, EmptyNamedTableModel()).value.fieldsAdded == [("", "c")]
      && DiffEngine.DiffOf(empty, EmptyNamedTableModel()).fieldsAdded == []
  {
    var empty := Model(Missing, Missing);
    EmptyNamedTableFields();
    assert FieldSet(empty) == {} && DiffEngine.FieldSet(empty) == {};
    PairLessIsStrictTotalOrder();
    assert FieldSet(EmptyNamedTableModel()) - FieldSet(empty) == {("", "c")};
    SortedListIsTheSortedList({("", "c")}, [("", "c")], PairLess);
    SortedListIsTheSortedList({}, [], PairLess);
  }

  /** The legacy diff has no guard for a missing model: where the package
      gives no diff for `None`, the legacy diff raises, in either position. */
  lemma NoMissingModelGuard(m: ModelValue)
    ensures DiffModelsOf(Null, m).Raised? && DiffModelsOf(m, Null).Raised?
    ensures DiffEngine.Diff(Null, m) == Returned(None) && DiffEngine.Diff(m, Null) == Returned(None)
  {
  }
}
