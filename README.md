# Power BI schema diff, report and changelog — a Dafny model

This project models the schema-versioning pipeline of the Power BI
versioning toolkit. It starts from an already-parsed Power BI model
document: tables with columns and measures, and relationships. From there
the pipeline:

- flattens the model into table, field and relationship rows
  (`collect_metadata_from_model`);
- computes the structural difference of two models as sorted set
  differences (`diff_models`);
- renders the difference as a Markdown report (`generate_diff_markdown`);
- renders the rows as a Mermaid ER diagram (`generate_mermaid_er_diagram`);
- merges a new entry into a model's `changelog.md` (`update_changelog_file`).

Each piece exists twice: in the package under `src/pbi_extractor/`, and in
the older single-file script `extractor.py`. Each version is modelled as its
own module. Lemmas state where the two agree and exhibit inputs on which
they differ.

Modules:

- `Wrappers`: `Option`, and `Outcome` for a call that returns or raises.
- `Schema`: the parsed model document and its rows.
  - Attributes are `Option`s, where `None` is a missing key.
  - A collection is `Missing`, a `List`, or `NotAList`. The code treats a
    non-list value differently from a list.
- `Ordering`: Python's `<` on strings and on tuples of strings, and `sorted`
  of a set as the one strictly increasing list of its elements.
- `Sequences`, `Text`: `map`, `"".join`, `sep.join`, `str.split`,
  `str.splitlines(keepends=True)`, `rstrip`, `lower`, `replace`,
  `startswith`, `endswith` and `in` on strings.
- `DiffEngine`, `MetadataParser`, `FileExporters`, `ChangelogManager`: the
  package.
- `ExtractorMetadata`, `ExtractorDiff`, `ExtractorExport`,
  `ExtractorChangelog`: the legacy script.

The loops of the package, and the loops of the legacy collector, Markdown,
Mermaid and changelog code, are Dafny methods with loop invariants. Each
method's `ensures` ties its result to a function of the inputs, and the
properties are proved about that function. The legacy `diff_models`
(extractor.py:267-300) is modelled as functions only, by `ExtractorDiff`;
its `gather_fields` loop and `gather_rels` comprehension are set
comprehensions. Where the flattening or the diff raises on the input data,
the model returns `Raised`. A changelog update is a function of the existing file's text
(`None` when there is no file). Its result is the text written back.

## Model

| member | source | states |
|---|---|---|
| Schema.ItemsOrEmpty | src/pbi_extractor/diff_engine.py:39-44 | `_get_items`: the items of a list; no items for a missing key or any value that is not a list |
| Schema.Iterate | src/pbi_extractor/metadata_parser.py:63 | iterating `d.get(key, [])` without a type check raises exactly on a value that is not a list and is not an empty iterable; otherwise it visits the list's items, or none |
| Ordering.SortedList | src/pbi_extractor/diff_engine.py:50-51 | `sorted(list(s))`: strictly increasing, holding exactly the elements of the set, each once |
| Ordering.SortedListIsTheSortedList | src/pbi_extractor/diff_engine.py:50-51 | any strictly increasing list holding exactly the elements of a set is what `sorted` returns for it |
| Ordering.StrLessIsStrictTotalOrder | src/pbi_extractor/diff_engine.py:50-51 | Python's `<` on strings is irreflexive, transitive and total, so sorting table names is well defined |
| Ordering.PairLessIsStrictTotalOrder | src/pbi_extractor/diff_engine.py:71-72 | `<` on (table, field) tuples is a strict total order |
| Ordering.QuadLessIsStrictTotalOrder | src/pbi_extractor/diff_engine.py:93-94 | `<` on relationship 4-tuples is a strict total order |
| Text.RStrip | src/pbi_extractor/changelog_manager.py:95 | `rstrip()` removes exactly the trailing whitespace: a prefix of the input, not ending in whitespace, followed only by whitespace in the input |
| Text.RStripEmptyIffBlank | src/pbi_extractor/changelog_manager.py:92 | `rstrip()` gives "" exactly when `strip()` does, that is when the text is blank |
| Text.Lower | src/pbi_extractor/metadata_parser.py:93 | `lower()` keeps the length and lowers each character |
| Text.SplitCount | src/pbi_extractor/file_exporters.py:179 | `split(':')` gives one more part than there are colons, and no part holds a colon |
| Text.SplitJoin | src/pbi_extractor/file_exporters.py:179 | joining the parts of `split(':')` with ':' gives the text back |
| Text.SplitLinesLossless | src/pbi_extractor/changelog_manager.py:74 | `"".join(s.splitlines(keepends=True)) == s` |
| Text.SplitLinesShape | src/pbi_extractor/changelog_manager.py:74 | each line is non-empty and holds a newline only as its last character |
| Text.ReplaceSameLength | src/pbi_extractor/file_exporters.py:194 | replacing "--" by ".." keeps the length |
| DiffEngine.GatherFieldsFromModel | src/pbi_extractor/diff_engine.py:54-66 | the loop yields the (table, item) pairs of the named columns and measures of every table with a non-empty name |
| DiffEngine.AddColumnFields | src/pbi_extractor/diff_engine.py:60-62 | the column loop adds one pair per named column and nothing else |
| DiffEngine.AddMeasureFields | src/pbi_extractor/diff_engine.py:63-65 | the measure loop adds one pair per named measure and nothing else |
| DiffEngine.IgnoredTableAddsNoFields | src/pbi_extractor/diff_engine.py:57-59 | a table without a name, or named "", contributes no field |
| DiffEngine.UnnamedItemsAddNoFields | src/pbi_extractor/diff_engine.py:61-65 | a column or measure without `name` contributes no field |
| DiffEngine.GatherRelationshipsFromModel | src/pbi_extractor/diff_engine.py:75-88 | the loop yields the identity 4-tuple of every relationship that has all four identity keys |
| DiffEngine.MalformedRelationshipSkipped | src/pbi_extractor/diff_engine.py:79-87 | a relationship missing one of the four identity keys is skipped, without raising |
| DiffEngine.OnlyIdentityKeysMatter | src/pbi_extractor/diff_engine.py:79-85 | relationships agreeing on the four identity keys give the same set, whatever their other attributes |
| DiffEngine.NonListsCountAsEmpty | src/pbi_extractor/diff_engine.py:39-44 | a model whose collections are not lists diffs exactly like an empty model, on either side |
| DiffEngine.DiffModels | src/pbi_extractor/diff_engine.py:11-97 | the method computes the diff: `None` when either model is `None`, a raise when either is another value that is not an object, else the six sorted differences |
| DiffEngine.DiffPresentIffBothModels | src/pbi_extractor/diff_engine.py:22-44 | there is a diff if and only if both models are objects; the result is `None` if and only if either model is `None`; the call raises if and only if neither is `None` and one is not an object |
| DiffEngine.NonObjectModelRaises | src/pbi_extractor/diff_engine.py:39-40 | a model value that is not an object, such as the one `load_model_from_json` returns for `{"model": "x"}`, makes the diff raise, in either position |
| DiffEngine.DiffIsSortedSetDifference | src/pbi_extractor/diff_engine.py:47-94 | each added list is new minus old and each removed list is old minus new, strictly sorted without duplicates; this holds for table names, field pairs and relationship tuples |
| DiffEngine.DiffSymmetric | src/pbi_extractor/diff_engine.py:22-94 | swapping the models keeps whether the call raises or gives `None`, and swaps every added list with the matching removed list |
| DiffEngine.DiffWithItselfIsEmpty | src/pbi_extractor/diff_engine.py:50-94 | a model compared with itself gives six empty lists |
| DiffEngine.AddedAndRemovedDisjoint | src/pbi_extractor/diff_engine.py:50-94 | nothing is both added and removed in the same category |
| MetadataParser.LoadModel | src/pbi_extractor/metadata_parser.py:28-41 | the model is found exactly when the document is an object whose `model` key is present and not null, and it is then that value |
| MetadataParser.TableRowOf | src/pbi_extractor/metadata_parser.py:64-68 | a table row has the table's name or "UnknownTable", is hidden only when `isHidden` is true, and has description "" when the key is missing |
| MetadataParser.ColumnRow | src/pbi_extractor/metadata_parser.py:70-78 | a column row is a "calculated column" if and only if `type` is truthy, else a "column"; it has name "UnknownColumn" when `name` is missing and keeps the data type |
| MetadataParser.MeasureRow | src/pbi_extractor/metadata_parser.py:80-88 | a measure row is always of type "measure", with no data type and name "UnknownMeasure" when `name` is missing |
| MetadataParser.RelationshipRowOf | src/pbi_extractor/metadata_parser.py:95-103 | missing endpoints default to the four `Unknown*` names, filtering to "singleDirection", and a row is inactive only when `isActive` is false |
| MetadataParser.CardinalitySplits | src/pbi_extractor/metadata_parser.py:91-93 | when neither end holds a ':', the cardinality splits into exactly the lowered `fromCardinality` (default "many") and the lowered `toCardinality` (default "one") |
| MetadataParser.TableRowsAt | src/pbi_extractor/metadata_parser.py:63-68 | table row `i` is made from table `i`: one row per table, in order |
| MetadataParser.ColumnRowsAt | src/pbi_extractor/metadata_parser.py:69-78 | field row `i` of a table's columns is made from column `i` |
| MetadataParser.MeasureRowsAt | src/pbi_extractor/metadata_parser.py:79-88 | field row `i` of a table's measures is made from measure `i` |
| MetadataParser.RelationshipRowsAt | src/pbi_extractor/metadata_parser.py:90-103 | relationship row `i` is made from relationship `i` |
| MetadataParser.AppendColumnRows | src/pbi_extractor/metadata_parser.py:69-78 | the column loop appends exactly the rows of the table's columns, in order |
| MetadataParser.AppendMeasureRows | src/pbi_extractor/metadata_parser.py:79-88 | the measure loop appends exactly the rows of the table's measures, in order |
| MetadataParser.AppendTableFields | src/pbi_extractor/metadata_parser.py:69-88 | a table appends its column rows and then its measure rows; it raises if and only if its columns or measures cannot be iterated |
| MetadataParser.CollectTable | src/pbi_extractor/metadata_parser.py:63-88 | one pass of the table loop extends both frames by table `i`, or raises exactly when that table raises |
| MetadataParser.CollectTables | src/pbi_extractor/metadata_parser.py:63-88 | the table loop raises if and only if some table raises; otherwise it gives one row per table and the field rows, table by table |
| MetadataParser.CollectRelationships | src/pbi_extractor/metadata_parser.py:90-103 | the relationship loop gives one row per relationship, in order |
| MetadataParser.CollectMetadataFromModel | src/pbi_extractor/metadata_parser.py:43-109 | a non-object gives three empty frames; otherwise the result is the three frames, or raises when a collection cannot be iterated |
| MetadataParser.FieldRowCount | src/pbi_extractor/metadata_parser.py:69-88 | the number of field rows is the total number of columns and measures |
| MetadataParser.CollectCounts | src/pbi_extractor/metadata_parser.py:55-107 | the frames have one row per table, one per column or measure, and one per relationship |
| MetadataParser.CollectListsNeverRaises | src/pbi_extractor/metadata_parser.py:63-90 | a model whose collections are all lists or missing is always flattened |
| FileExporters.AppendSection | src/pbi_extractor/file_exporters.py:125-134 | a section with items appends its heading, table head, rows and closing blank line |
| FileExporters.AppendSections | src/pbi_extractor/file_exporters.py:116-134 | the section loop appends the lines of every section with items, and `has_content` holds if and only if there was one |
| FileExporters.GenerateDiffMarkdown | src/pbi_extractor/file_exporters.py:100-141 | the method computes the report: the fixed sentence for no diff, or the header (if asked for) and the sections, or one of the two "no changes" texts |
| FileExporters.RowsAt | src/pbi_extractor/file_exporters.py:129-133 | data row `i` is rendered from item `i` of each list, or from "" past a list's end |
| FileExporters.SectionShape | src/pbi_extractor/file_exporters.py:121-134 | a section is emitted if and only if one of its lists is non-empty; it then has exactly `max(len(added), len(removed))` data rows between the table head and a blank line |
| FileExporters.DiffSectionsOrder | src/pbi_extractor/file_exporters.py:110-114 | the sections come in the order Tables, Fields, Relationships, and each is empty exactly when both of its lists are |
| FileExporters.HasContentIffChanged | src/pbi_extractor/file_exporters.py:116-123 | the report has content if and only if the diff has a change |
| FileExporters.NoChangesReport | src/pbi_extractor/file_exporters.py:102-141 | no diff gives the "unavailable" sentence; an unchanged diff gives the "No changes detected…" sentence without the header, or the header followed by "No structural changes…" with it |
| FileExporters.NoContentNoLines | src/pbi_extractor/file_exporters.py:121-122 | sections without items add no line |
| FileExporters.FirstLineIsHeading | src/pbi_extractor/file_exporters.py:125 | when some section has items, the first section line is a "## " heading |
| FileExporters.LastLineIsBlank | src/pbi_extractor/file_exporters.py:134 | when some section has items, the last line is the blank line closing a section |
| FileExporters.SectionsOpenWithHeading | src/pbi_extractor/file_exporters.py:125-141 | when some section has items, the joined sections open with "## " and the report, with or without its header, is not blank |
| FileExporters.ChangedReportOpensWithHeading | src/pbi_extractor/file_exporters.py:116-141 | a report of a changed diff without the header opens with "## ", and with or without the header it is never blank |
| FileExporters.GlyphIffCell | src/pbi_extractor/file_exporters.py:133 | a row shows ✅ if and only if the added cell is non-empty, and ❌ if and only if the removed cell is |
| FileExporters.TupleCellsJoined | src/pbi_extractor/file_exporters.py:131-132 | a tuple cell is its components joined by ", ", and so is never empty |
| FileExporters.SanitizeMermaidId | src/pbi_extractor/file_exporters.py:171-173 | the id keeps the length, holds only `[A-Za-z0-9_]`, and keeps every character that is already allowed |
| FileExporters.SanitizeMermaidIdIdempotent | src/pbi_extractor/file_exporters.py:171-173 | sanitizing twice is sanitizing once |
| FileExporters.SanitizeMermaidIdKeepsIds | src/pbi_extractor/file_exporters.py:171-173 | a name that is already a valid id is unchanged |
| FileExporters.DottedGlyph | src/pbi_extractor/file_exporters.py:194 | replacing "--" by ".." changes only a glyph's middle |
| FileExporters.SymbolForIsGlyph | src/pbi_extractor/file_exporters.py:186-192 | every pair, listed in the map or not, gets a glyph `<left>--<right>` with two valid crow's-foot ends |
| FileExporters.CardinalitySymbolGlyphs | src/pbi_extractor/file_exporters.py:175-194 | the active symbol is a glyph `<left>--<right>` and the inactive one is `<left>..<right>` |
| FileExporters.CardinalitySymbolIgnoresCase | src/pbi_extractor/file_exporters.py:179 | the symbol does not depend on letter case |
| FileExporters.CardinalitySymbolOfPair | src/pbi_extractor/file_exporters.py:179-194 | "from:to" gets the map's glyph for the lowered pair, dotted when inactive |
| FileExporters.CardinalitySymbolMalformed | src/pbi_extractor/file_exporters.py:180-183 | a text that does not split into exactly two parts counts as "many:one" |
| FileExporters.EscapeLabelHasNoQuote | src/pbi_extractor/file_exporters.py:203 | an escaped label holds no double quote |
| FileExporters.AppendTableLines | src/pbi_extractor/file_exporters.py:199-204 | the table loop appends one line per table row, in order |
| FileExporters.AppendRelationshipLines | src/pbi_extractor/file_exporters.py:212-224 | the relationship loop appends one line per relationship row, in order |
| FileExporters.GenerateMermaidErDiagram | src/pbi_extractor/file_exporters.py:165-229 | the method computes the diagram: the fixed shell without data, else the fenced `erDiagram` lines |
| FileExporters.DiagramOfNothing | src/pbi_extractor/file_exporters.py:167-169 | without tables and relationships the diagram is the fixed empty shell |
| FileExporters.DiagramLinesShape | src/pbi_extractor/file_exporters.py:196-227 | with data, the lines are `erDiagram`, then one per table, then one per relationship, in input order, with no comment line |
| FileExporters.FencedLines | src/pbi_extractor/file_exporters.py:229 | lines opening with `erDiagram`, joined and fenced, open with the mermaid fence and `erDiagram` and end with the closing fence |
| FileExporters.DiagramFenced | src/pbi_extractor/file_exporters.py:196-229 | with data, the diagram opens with the mermaid fence and `erDiagram` and ends with the closing fence |
| ChangelogManager.FirstMarker | src/pbi_extractor/changelog_manager.py:77-81 | the index of the first line starting with "## Updated Version at": no earlier line starts so; `None` when no line does |
| ChangelogManager.FindFirstMarker | src/pbi_extractor/changelog_manager.py:77-81 | the scan stops at the first marker line, or gives -1 when there is none |
| ChangelogManager.BuildNewEntry | src/pbi_extractor/changelog_manager.py:31-53 | the entry is its heading followed by the body chosen by the diff |
| ChangelogManager.AppendEntryBody | src/pbi_extractor/changelog_manager.py:35-51 | the parts appended spell the entry body |
| ChangelogManager.AppendReportBody | src/pbi_extractor/changelog_manager.py:37-49 | the parts appended spell the report body, or the "No significant changes" sentence |
| ChangelogManager.AppendSummary | src/pbi_extractor/changelog_manager.py:40-47 | the parts appended are "### Changes Summary", the report and its padding |
| ChangelogManager.UpdateChangelogFile | src/pbi_extractor/changelog_manager.py:14-109 | the method computes the text written: header and entry for a new file, else the merged text |
| ChangelogManager.PaddingEndsWithBlankLine | src/pbi_extractor/changelog_manager.py:42-47 | the report followed by its padding ends with "\n\n" |
| ChangelogManager.HeadingIsMarker | src/pbi_extractor/changelog_manager.py:32 | the entry heading starts with the marker "## Updated Version at" |
| ChangelogManager.EntryBodyEndsWithBlankLine | src/pbi_extractor/changelog_manager.py:35-51 | every entry body ends with "\n\n" |
| ChangelogManager.NewEntryShape | src/pbi_extractor/changelog_manager.py:32-53 | the entry starts with "## Updated Version at {timestamp}\n", is a marker line, and ends with "\n\n" |
| ChangelogManager.EntryBodyCases | src/pbi_extractor/changelog_manager.py:35-51 | no diff gives the initial-version line and an unchanged diff the "no significant changes" line; a changed diff gives the report under "### Changes Summary", unless the report contains "No changes detected" |
| ChangelogManager.AddedTableCanHideChanges | src/pbi_extractor/changelog_manager.py:39 | an added table named "No changes detected" is logged as no significant change |
| ChangelogManager.OneAddedTableLines | src/pbi_extractor/file_exporters.py:116-134 | a diff with one added table renders as the tables section alone |
| ChangelogManager.CreatedChangelog | src/pbi_extractor/changelog_manager.py:57-70 | without a file, the result is exactly the canonical header followed by the entry, opening with the title line |
| ChangelogManager.CanonicalHeaderShape | src/pbi_extractor/changelog_manager.py:57-62 | the canonical header is not blank and ends with "\n\n" |
| ChangelogManager.SplitIsLossless | src/pbi_extractor/changelog_manager.py:74-89 | the text before any line index followed by the text from it is the file |
| ChangelogManager.NormalizeHeaderShape | src/pbi_extractor/changelog_manager.py:91-103 | the header ends with "\n\n"; a blank header is replaced by the canonical one; any other keeps its text up to its trailing whitespace |
| ChangelogManager.NormalizeHeaderIdempotent | src/pbi_extractor/changelog_manager.py:92-103 | normalizing a normalized header changes nothing |
| ChangelogManager.MarkerSplit | src/pbi_extractor/changelog_manager.py:77-89 | the file is the text before the first marker line followed by the text from it, which opens with the marker |
| ChangelogManager.PreviousEntriesKept | src/pbi_extractor/changelog_manager.py:86-107 | with a marker line, everything from the first marker line on is a verbatim suffix of the result, right after the new entry, preceded by the normalized header |
| ChangelogManager.NoMarkerKeepsFileAsHeader | src/pbi_extractor/changelog_manager.py:96-107 | without a marker line, the result is the normalized file and then the entry, with nothing after it |
| ExtractorMetadata.TableRowOf | extractor.py:210-214 | a table row has the table's name, is hidden only when `isHidden` is true, and has description "" when the key is missing |
| ExtractorMetadata.ColumnRow | extractor.py:216-225 | a column row is always a "column", not a measure, with no expression, and keeps the data type |
| ExtractorMetadata.MeasureRow | extractor.py:227-236 | a measure row is a measure with no data type, and its expression is "" when the key is missing |
| ExtractorMetadata.RelationshipRowOf | extractor.py:240-259 | a row keeps the four endpoints, defaults filtering to "singleDirection", and is inactive only when `isActive` is false |
| ExtractorMetadata.CardinalityOfEnds | extractor.py:240-245 | the check for either key changes nothing: the cardinality is always the two ends with defaults "many" and "one" |
| ExtractorMetadata.CardinalityLowerCased | extractor.py:240-245 | the package's cardinality is the legacy one lower-cased |
| ExtractorMetadata.AppendColumnRows | extractor.py:215-225 | the column loop raises if and only if the columns cannot be iterated or a column has no name; otherwise it appends their rows |
| ExtractorMetadata.AppendMeasureRows | extractor.py:226-236 | the measure loop raises if and only if the measures cannot be iterated or a measure has no name; otherwise it appends their rows |
| ExtractorMetadata.AppendTableFields | extractor.py:215-236 | a named table appends its column rows, then its measure rows, or raises exactly when reading it raises |
| ExtractorMetadata.CollectTable | extractor.py:209-236 | one pass of the table loop extends both frames by table `i`, or raises exactly when that table raises |
| ExtractorMetadata.CollectTableRows | extractor.py:209-236 | the table loop raises if and only if some table raises; otherwise it gives the table and field frames |
| ExtractorMetadata.CollectRelationshipRows | extractor.py:238-259 | the relationship loop raises if and only if a relationship lacks an endpoint key; otherwise it gives one row per relationship |
| ExtractorMetadata.CollectMetadata | extractor.py:203-262 | the method raises exactly where reading the model raises, else it gives the three frames |
| ExtractorMetadata.TableRowsAt | extractor.py:209-214 | table row `i` is made from table `i` |
| ExtractorMetadata.RelationshipRowsAt | extractor.py:238-259 | relationship row `i` is made from relationship `i` |
| ExtractorMetadata.CollectorsAgree | extractor.py:203-262 | where the legacy collector returns, the package's collector gives the same table rows, and the same relationship rows except for the lower-cased cardinality |
| ExtractorDiff.DiffModelsIsSortedSetDifference | extractor.py:267-300 | the legacy diff raises if and only if a model is `None` or another value that is not an object, or the legacy collector raises on one of the models; otherwise both are objects and each list is the sorted set difference |
| ExtractorDiff.NoMissingModelGuard | extractor.py:267-276 | with no guard for a missing model, the legacy diff raises on `None` in either position, where the package gives no diff |
| ExtractorDiff.DiffModelsSymmetric | extractor.py:277-299 | swapping the models swaps every added list with its removed list |
| ExtractorDiff.DiffModelsWithItselfIsEmpty | extractor.py:267-300 | a readable model compared with itself gives six empty lists |
| ExtractorDiff.FieldSetsAgree | extractor.py:280-286 | without tables named "", the legacy field set is the package's |
| ExtractorDiff.DiffModelsAgreesWithPackage | extractor.py:267-300 | on readable models without tables named "", the legacy and package diffs are equal |
| ExtractorDiff.EmptyNamedTableFields | extractor.py:282-285 | for a model with one table named "" holding column "c", the legacy field set is {("", "c")} and the package's is empty |
| ExtractorDiff.EmptyTableNameContrast | extractor.py:280-290 | an added table named "" with column "c" adds the field ("", "c") in the legacy diff and nothing in the package's |
| ExtractorExport.AppendSection | extractor.py:318-332 | a section without items adds nothing; any other adds heading, table head, `max(len)` rows and a blank line |
| ExtractorExport.AppendSections | extractor.py:315-332 | the section loop appends the lines of every section with items, in the fixed order |
| ExtractorExport.DiffToMarkdown | extractor.py:305-333 | the method computes the legacy report: the optional header, then the sections' lines, joined by newlines |
| ExtractorExport.EmptyDiffReport | extractor.py:307-333 | an unchanged diff gives "" without the header, and the header line alone with it |
| ExtractorExport.ChangedDiffReport | extractor.py:315-333 | a changed diff's report opens with "## " without the header and is never blank |
| ExtractorExport.ChangedDiffReportEndsWithNewline | extractor.py:332-333 | a changed diff's report ends with a newline |
| ExtractorExport.RowAlwaysHasGlyphs | extractor.py:325-331 | a legacy row always shows ✅ and ❌, even for an empty cell; with both cells non-empty it is the package's row |
| ExtractorExport.Sanitize | extractor.py:349-351 | the id keeps the length, holds only `[A-Za-z0-9_]`, and keeps exactly the alphanumeric characters |
| ExtractorExport.SanitizeAgrees | extractor.py:349-351 | the legacy id equals the package's `sanitize_mermaid_id` |
| ExtractorExport.SymbolCases | extractor.py:337-347 | the three listed texts get their glyphs by exact match and any other text gets `\|\|--\|\|`; the inactive symbol is the dotted glyph |
| ExtractorExport.SymbolOfUnknown | extractor.py:344-345 | an unlisted cardinality gets the one-to-one glyph when active |
| ExtractorExport.SymbolIsCaseSensitive | extractor.py:337-345 | "ONE:MANY" gets the one-to-one glyph in the legacy script and the one-to-many glyph in the package |
| ExtractorExport.SymbolDefaultIsOneToOne | extractor.py:345 | an empty cardinality gets one-to-one in the legacy script and many-to-one in the package |
| ExtractorExport.PackageSymbolOfUpperCase | src/pbi_extractor/file_exporters.py:179-192 | the package maps "ONE:MANY" to the one-to-many glyph |
| ExtractorExport.PackageSymbolOfManyOne | src/pbi_extractor/file_exporters.py:186-192 | the package maps "many:one" to the many-to-one glyph |
| ExtractorExport.PackageSymbolOfEmpty | src/pbi_extractor/file_exporters.py:179-192 | the package maps "" to the many-to-one glyph |
| ExtractorExport.EscapedQuotesFollowBackslash | extractor.py:358 | every double quote in an escaped label follows a backslash |
| ExtractorExport.EscapeQuotesKeepsPlainText | extractor.py:358 | a label without a double quote is unchanged |
| ExtractorExport.AppendTableLines | extractor.py:356-359 | the table loop appends one line per table row, in order |
| ExtractorExport.AppendRelationshipLines | extractor.py:362-370 | the relationship loop appends one line per relationship row, in order |
| ExtractorExport.ModelToMermaid | extractor.py:335-373 | the method computes the legacy diagram: its lines joined by newlines |
| ExtractorExport.MermaidLinesFrame | extractor.py:353-372 | the lines open with the mermaid fence and `erDiagram`, end with the closing fence, and number three plus one per table and relationship |
| ExtractorExport.MermaidTableLines | extractor.py:356-359 | line `2 + i` is the line of table `i` |
| ExtractorExport.MermaidRelationshipLines | extractor.py:362-372 | the relationship lines follow the table lines, in input order |
| ExtractorExport.FencedJoin | extractor.py:353-373 | joining the fenced lines opens with the fence and `erDiagram` and ends with the closing fence |
| ExtractorExport.MermaidFenced | extractor.py:353-373 | the legacy diagram always opens with the mermaid fence and `erDiagram` and ends with the closing fence |
| ExtractorExport.MermaidOfNothing | extractor.py:353-373 | without data the legacy diagram is just the fences around `erDiagram` |
| ExtractorChangelog.BuildNewEntry | extractor.py:396-416 | the entry is its heading, "### Datamodel" and the body chosen by the diff |
| ExtractorChangelog.AppendEntryBody | extractor.py:400-414 | the parts appended spell the entry body |
| ExtractorChangelog.AppendReportBody | extractor.py:401-412 | the parts appended spell the report body, or the "no changes" line for a blank report |
| ExtractorChangelog.AppendSummary | extractor.py:403-410 | the parts appended are "### Changes Summary", the report and its padding |
| ExtractorChangelog.PadHeader | extractor.py:446-467 | a blank header becomes the canonical one; any other is kept and padded with at most two newlines so that it ends with a blank line |
| ExtractorChangelog.UpdateChangelog | extractor.py:391-470 | the method computes the text written: header and entry for a new file, else the merged text |
| ExtractorChangelog.EntryBodyEndsWithBlankLine | extractor.py:400-414 | every entry body ends with "\n\n" |
| ExtractorChangelog.NewEntryShape | extractor.py:396-416 | the entry starts with its heading and "### Datamodel", is a marker line, and ends with "\n\n" |
| ExtractorChangelog.EntryBodyCases | extractor.py:400-414 | no diff gives the "no diff information" line and an unchanged diff the "no changes detected" line; a changed diff always gives the report under "### Changes Summary" |
| ExtractorChangelog.AddedTableIsLogged | extractor.py:401-404 | an added table named "No changes detected" is logged with its report, where the package logs no significant change |
| ExtractorChangelog.CreatedChangelog | extractor.py:426-430 | without a file, the result is the legacy header followed by the entry, opening with the title line |
| ExtractorChangelog.HeaderShape | extractor.py:419-424 | the legacy header is not blank and ends with "\n\n" |
| ExtractorChangelog.NormalizeHeaderShape | extractor.py:446-453 | a blank header becomes the canonical one; any other is kept verbatim and only padded with newlines |
| ExtractorChangelog.NormalizeHeaderIdempotent | extractor.py:446-453 | normalizing a normalized header changes nothing |
| ExtractorChangelog.TrailingSpacesKept | extractor.py:449-453 | a header "a " keeps its trailing space in the legacy script; the package strips it |
| ExtractorChangelog.MergeWithMarker | extractor.py:436-456 | with a marker line, the text from the first marker line on follows the entry verbatim at the end |
| ExtractorChangelog.PreviousEntriesKept | extractor.py:436-456 | with a marker line, the result is the normalized header, the entry and the previous entries verbatim |
| ExtractorChangelog.NoMarkerKeepsFile | extractor.py:457-469 | without a marker line, the result is the padded file, or the legacy header for a blank file, and then the entry |

## Left out

- Reading and writing files, `mkdir`, and the `exists` check. The existing changelog is an `Option<string>` input, and the text written is the result.
- `json.loads` and file access in `load_model_from_json`. The model starts from an already-parsed document, so a JSON decoding error is not modelled.
- The legacy `load_model` (extractor.py:191-201) is not part of this model. It is file I/O with a `{}` default.
- pandas DataFrames are sequences of row records. A DataFrame column missing because every row lacked a key is not modelled.
- Logging, the configuration flags that switch an output off (`save_changelog`, `save_markdown_diff` and others), and `print` in the legacy script.
- The CSV, Excel, JSON, zip and database-copy writers, `save_diff_to_markdown` and `save_mermaid_er_diagram`. They only write files.
- The PBI tools CLI, git operations and the `main` orchestration. They run external processes.
- `datetime.now()`: the timestamp is an input string.
- The `except Exception` around the changelog update (changelog_manager.py:110-112). For the modelled inputs only the file I/O inside the `try` can raise, and that I/O is left out, so the update always gives the text written. Elsewhere a raise is `Raised`, and the exception's kind is not kept.
- Attribute values are taken to be missing or of the JSON type the code expects. A `null` or wrongly typed attribute value (for example a numeric `name`, or a relationship item that is not an object) is not modelled.
- Text.SplitLines: `splitlines(keepends=True)` is modelled with `\n` as the only line break. `\r`, `\r\n` and the Unicode line separators are not modelled.
- Text.Lower: `lower()` is modelled for ASCII letters only. Other characters are unchanged.
- The changelog's `if diff_data:` is taken to be true for every diff. A diff from `diff_models` always has its six keys, so a falsy empty dict never reaches it.
- A report with a non-string item that is not a tuple (`str(item)`) is not modelled. Diff items are strings or tuples of strings.
- Several loops are split into helper methods, such as one pass of a table loop or the body of a column loop. The order of operations is kept.
