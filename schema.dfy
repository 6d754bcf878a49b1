/** The already-parsed model document (the `model` object of `database.json`),
    the flat rows the metadata collectors produce from it, and the diff that
    the two diff engines compute.

    Attributes are `Option`s: `None` is a missing key. A present attribute is
    taken to hold a value of the JSON type the code expects (a string or a
    boolean). The four collections (`tables`, `columns`, `measures`,
    `relationships`) may also hold something other than a list, because the
    code distinguishes that case. */
module Schema {
  import opened Wrappers

  /** The value under a collection key. `NotAList` is any other JSON value;
      `iteratesEmpty` is true for `""` and `{}`, which a Python `for` loop goes
      through zero times, and false for numbers, booleans, `null`, non-empty
      strings and non-empty objects, on which iterating and then calling `.get`
      or subscripting the items raises. */
  datatype Items<T> = Missing | List(elems: seq<T>) | NotAList(iteratesEmpty: bool)

  /** `_get_items` of diff_engine.py: the list, or no items for a missing key or
      a value that is not a list. */
  function ItemsOrEmpty<T>(items: Items<T>): (r: seq<T>)
    ensures items.List? ==> r == items.elems
    ensures !items.List? ==> r == []
  {
    if items.List? then items.elems else []
  }

  /** `for x in d.get(key, [])` without a type check: the items it visits, or
      `Raised` when the value cannot be iterated as a list of objects. */
  function Iterate<T>(items: Items<T>): (r: Outcome<seq<T>>)
    ensures r.Raised? <==> items.NotAList? && !items.iteratesEmpty
    ensures r.Returned? ==> r.value == ItemsOrEmpty(items)
  {
    match items
    case Missing => Returned([])
    case List(elems) => Returned(elems)
    case NotAList(iteratesEmpty) => if iteratesEmpty then Returned([]) else Raised
  }

  /** A column object. `kind` is its `type` key (for example "calculated"). */
  datatype Column = Column(
    name: Option<string>,
    dataType: Option<string>,
    kind: Option<string>,
    isHidden: Option<bool>,
    description: Option<string>,
    expression: Option<string>)

  datatype Measure = Measure(
    name: Option<string>,
    expression: Option<string>,
    isHidden: Option<bool>,
    description: Option<string>)

  datatype Table = Table(
    name: Option<string>,
    isHidden: Option<bool>,
    description: Option<string>,
    columns: Items<Column>,
    measures: Items<Measure>)

  datatype Relationship = Relationship(
    fromTable: Option<string>,
    fromColumn: Option<string>,
    toTable: Option<string>,
    toColumn: Option<string>,
    fromCardinality: Option<string>,
    toCardinality: Option<string>,
    crossFilteringBehavior: Option<string>,
    isActive: Option<bool>)

  /** The `model` object. */
  datatype Model = Model(tables: Items<Table>, relationships: Items<Relationship>)

  /** The JSON value under the top-level `model` key. */
  datatype ModelValue = Null | Object(model: Model) | OtherValue

  /** A parsed `database.json`: an object with an optional `model` key, or some
      other JSON value at the top level. */
  datatype Document = ObjectDocument(model: Option<ModelValue>) | NonObjectDocument

  /** A row of the tables frame. */
  datatype TableRow = TableRow(tableName: string, isHidden: bool, description: string)

  /** A row of the relationships frame. */
  datatype RelationshipRow = RelationshipRow(
    fromTable: string,
    fromColumn: string,
    toTable: string,
    toColumn: string,
    cardinality: string,
    crossFilteringBehavior: string,
    isActive: bool)

  /** Identity of a field: (table name, column or measure name). */
  type FieldId = (string, string)

  /** Identity of a relationship: (fromTable, fromColumn, toTable, toColumn). */
  type RelationshipId = (string, string, string, string)

  /** The diff dictionary: six lists under the keys `tables_added`,
      `tables_removed`, `fields_added`, `fields_removed`, `relations_added`,
      `relations_removed`. */
  datatype Delta = Delta(
    tablesAdded: seq<string>,
    tablesRemoved: seq<string>,
    fieldsAdded: seq<FieldId>,
    fieldsRemoved: seq<FieldId>,
    relationsAdded: seq<RelationshipId>,
    relationsRemoved: seq<RelationshipId>)
  {
    predicate IsEmpty() {
      && tablesAdded == [] && tablesRemoved == []
      && fieldsAdded == [] && fieldsRemoved == []
      && relationsAdded == [] && relationsRemoved == []
    }

    /** The diff in the other direction: every `*_added` list becomes the
        matching `*_removed` list and back. */
    function Swapped(): Delta {
      Delta(tablesRemoved, tablesAdded, fieldsRemoved, fieldsAdded, relationsRemoved, relationsAdded)
    }
  }
}
