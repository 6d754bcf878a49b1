/** The two text generators of src/pbi_extractor/file_exporters.py:
    `generate_diff_markdown`, the side-by-side Markdown report of a diff, and
    `generate_mermaid_er_diagram`, the Mermaid ER diagram of the tables and
    relationships frames, with `sanitize_mermaid_id` and
    `get_cardinality_symbol`. */
module FileExporters {
  import opened Wrappers
  import opened Text
  import opened Schema
  import opened Sequences

  // ---------------------------------------------------------------------
  // Markdown diff report
  // ---------------------------------------------------------------------

  /** One section of the report: its title and the added and removed items,
      each already rendered as the text of its cell. */
  datatype Section = Section(title: string, added: seq<string>, removed: seq<string>)

  predicate SectionEmpty(s: Section) {
    s.added == [] && s.removed == []
  }

  /** A `(table, field)` tuple in a cell: `", ".join(item)`. */
  function PairCell(x: FieldId): string {
    Join(", ", [x.0, x.1])
  }

  /** A relationship tuple in a cell: its four names joined by ", ". */
  function QuadCell(x: RelationshipId): string {
    Join(", ", [x.0, x.1, x.2, x.3])
  }

  function PairCells(xs: seq<FieldId>): (r: seq<string>)
    ensures |r| == |xs|
  {
    seq(|xs|, i requires 0 <= i < |xs| => PairCell(xs[i]))
  }

  function QuadCells(xs: seq<RelationshipId>): (r: seq<string>)
    ensures |r| == |xs|
  {
    seq(|xs|, i requires 0 <= i < |xs| => QuadCell(xs[i]))
  }

  /** The three sections, in their fixed order: tables, fields, relationships. */
  function DiffSections(d: Delta): seq<Section> {
    [ Section("Tables", d.tablesAdded, d.tablesRemoved),
      Section("Fields (Table, Field)", PairCells(d.fieldsAdded), PairCells(d.fieldsRemoved)),
      Section("Relationships (FromTbl, FromCol, ToTbl, ToCol)", QuadCells(d.relationsAdded), QuadCells(d.relationsRemoved)) ]
  }

  function Max(a: nat, b: nat): nat {
    if a < b then b else a
  }

  /** The number of data rows of a section: `max(len(added), len(removed))`. */
  function MaxRows(s: Section): nat {
    Max(|s.added|, |s.removed|)
  }

  /** Item `i` of a list, or "" past its end. */
  function Cell(cells: seq<string>, i: nat): string {
    if i < |cells| then cells[i] else ""
  }

  /** A data row of `generate_diff_markdown`: a cell carries its glyph only
      when it is not empty. */
  function Row(added: string, removed: string): string {
    "| " + (if added != "" then "\U{2705} " + added else "")
    + " | " + (if removed != "" then "\U{274C} " + removed else "") + " |"
  }

  /** The first `n` data rows of a section, each rendered by `row`. */
  function Rows(s: Section, row: (string, string) -> string, n: nat): (r: seq<string>)
    ensures |r| == n
  {
    if n == 0 then [] else Rows(s, row, n - 1) + [row(Cell(s.added, n - 1), Cell(s.removed, n - 1))]
  }

  /** The lines of one section: nothing when both lists are empty, else the
      heading, the table head, one row per index and a closing blank line. */
  function SectionLines(s: Section, row: (string, string) -> string): seq<string> {
    if SectionEmpty(s) then []
    else ["## " + s.title, "", "| Added | Removed |", "|---|---|"] + Rows(s, row, MaxRows(s)) + [""]
  }

  function SectionsLines(ss: seq<Section>, row: (string, string) -> string): seq<string> {
    if ss == [] then [] else SectionsLines(ss[..|ss| - 1], row) + SectionLines(ss[|ss| - 1], row)
  }

  predicate HasContent(ss: seq<Section>) {
    exists s :: s in ss && !SectionEmpty(s)
  }

  function ReportHeader(includeHeader: bool): seq<string> {
    if includeHeader then ["# Model Diff Report", ""] else []
  }

  const NoDiffData := "No differences to report or diff data is unavailable.\n"
  /** The report of an unchanged diff without the header; it opens with the
      words "No changes detected". */
  const NoChangesDetected := "No changes detected" + " in the schema compared to the previous version.\n"
  const NoStructuralChanges := "No structural changes detected between the models."

  /** What `generate_diff_markdown(diff_data, include_header)` returns. */
  function DiffMarkdown(diff: Option<Delta>, includeHeader: bool): string {
    if diff.None? then NoDiffData
    else
      var sections := DiffSections(diff.value);
      var parts := ReportHeader(includeHeader) + SectionsLines(sections, Row);
      if !HasContent(sections) && !includeHeader then NoChangesDetected
      else if !HasContent(sections) then Join("\n", parts + [NoStructuralChanges])
      else Join("\n", parts)
  }

  /** The body of the section loop of `generate_diff_markdown` for a
      section with items: heading, table head, rows, blank line. */
  method AppendSection(mdParts: seq<string>, section: Section) returns (parts: seq<string>)
    requires !SectionEmpty(section)
    ensures parts == mdParts + SectionLines(section, Row)
  {
    parts := mdParts + ["## " + section.title, ""];
    parts := parts + ["| Added | Removed |"];
    parts := parts + ["|---|---|"];
    ghost var head := parts;
    var maxRows := Max(|section.added|, |section.removed|);
    for i := 0 to maxRows
      invariant parts == head + Rows(section, Row, i)
    {
      var addedItem := if i < |section.added| then section.added[i] else "";
      var removedItem := if i < |section.removed| then section.removed[i] else "";
      parts := parts + [Row(addedItem, removedItem)];
    }
    parts := parts + [""];
  }

  /** One more section: its lines follow those of the sections before it. */
  lemma SectionsLinesSnoc(sections: seq<Section>, k: nat, row: (string, string) -> string)
    requires k < |sections|
    ensures SectionsLines(sections[..k + 1], row) == SectionsLines(sections[..k], row) + SectionLines(sections[k], row)
  {
    assert sections[..k + 1][..k] == sections[..k];
  }

  /** The step of a loop that appends the lines of section `k` to `parts`,
      which holds those of the sections before it after `md`. */
  lemma SectionsStep(md: seq<string>, parts: seq<string>, sections: seq<Section>, k: nat, row: (string, string) -> string)
    requires k < |sections| && parts == md + SectionsLines(sections[..k], row)
    ensures parts + SectionLines(sections[k], row) == md + SectionsLines(sections[..k + 1], row)
    ensures SectionEmpty(sections[k]) ==> parts == md + SectionsLines(sections[..k + 1], row)
  {
    SectionsLinesSnoc(sections, k, row);
    AppendAssociative(md, SectionsLines(sections[..k], row), SectionLines(sections[k], row));
    if SectionEmpty(sections[k]) {
      assert parts + [] == parts;
    }
  }

  /** One more section adds content exactly when it has items. */
  lemma HasContentStep(sections: seq<Section>, k: nat)
    requires k < |sections|
    ensures HasContent(sections[..k + 1]) <==> HasContent(sections[..k]) || !SectionEmpty(sections[k])
  {
    assert sections[..k + 1] == sections[..k] + [sections[k]];
  }

  /** The section loop of `generate_diff_markdown`: the lines of every
      section with items appended to `mdParts`, and whether there was one. */
  method AppendSections(mdParts: seq<string>, sections: seq<Section>) returns (parts: seq<string>, hasContent: bool)
    ensures parts == mdParts + SectionsLines(sections, Row)
    ensures hasContent <==> HasContent(sections)
  {
    parts := mdParts;
    hasContent := false;
    for k := 0 to |sections|
      invariant parts == mdParts + SectionsLines(sections[..k], Row)
      invariant hasContent <==> HasContent(sections[..k])
    {
      SectionsStep(mdParts, parts, sections, k, Row);
      HasContentStep(sections, k);
      if !SectionEmpty(sections[k]) {
        hasContent := true;
        parts := AppendSection(parts, sections[k]);
      }
    }
    assert sections[..|sections|] == sections;
  }

  /** `generate_diff_markdown`. */
  method GenerateDiffMarkdown(diff: Option<Delta>, includeHeader: bool) returns (md: string)
    ensures md == DiffMarkdown(diff, includeHeader)
  {
    if diff.None? {
      return NoDiffData;
    }
    var mdParts: seq<string> := [];
    if includeHeader {
      mdParts := mdParts + ["# Model Diff Report", ""];
    }
    assert mdParts == ReportHeader(includeHeader);
    var hasContent;
    mdParts, hasContent := AppendSections(mdParts, DiffSections(diff.value));
    if !hasContent && !includeHeader {
      return NoChangesDetected;
    } else if !hasContent && includeHeader {
      mdParts := mdParts + [NoStructuralChanges];
    }
    return Join("\n", mdParts);
  }

  /** Row `i` of a section is rendered from item `i` of each list. */
  lemma {:induction false} RowsAt(s: Section, row: (string, string) -> string, n: nat)
    ensures forall i :: 0 <= i < n ==> Rows(s, row, n)[i] == row(Cell(s.added, i), Cell(s.removed, i))
  {
    if n > 0 {
      RowsAt(s, row, n - 1);
    }
  }

  /** A section is emitted iff one of its lists is non-empty; it then has the
      heading, the table head, exactly `max(len(added), len(removed))` data
      rows and a blank line. */
  lemma SectionShape(s: Section, row: (string, string) -> string)
    ensures SectionLines(s, row) == [] <==> SectionEmpty(s)
    ensures !SectionEmpty(s) ==>
      && |SectionLines(s, row)| == MaxRows(s) + 5
      && SectionLines(s, row)[0] == "## " + s.title
      && SectionLines(s, row)[2] == "| Added | Removed |"
      && SectionLines(s, row)[3] == "|---|---|"
      && SectionLines(s, row)[MaxRows(s) + 4] == ""
      && forall i :: 0 <= i < MaxRows(s) ==> SectionLines(s, row)[4 + i] == row(Cell(s.added, i), Cell(s.removed, i))
  {
    RowsAt(s, row, MaxRows(s));
  }

  /** The sections come in the order tables, fields, relationships, and each
      is empty exactly when both of its lists are. */
  lemma DiffSectionsOrder(d: Delta)
    ensures var ss := DiffSections(d);
      && |ss| == 3
      && ss[0].title == "Tables" && ss[1].title == "Fields (Table, Field)"
      && ss[2].title == "Relationships (FromTbl, FromCol, ToTbl, ToCol)"
      && (SectionEmpty(ss[0]) <==> d.tablesAdded == [] && d.tablesRemoved == [])
      && (SectionEmpty(ss[1]) <==> d.fieldsAdded == [] && d.fieldsRemoved == [])
      && (SectionEmpty(ss[2]) <==> d.relationsAdded == [] && d.relationsRemoved == [])
  {
  }

  /** The report has content exactly when the diff has a change. */
  lemma HasContentIffChanged(d: Delta)
    ensures HasContent(DiffSections(d)) <==> !d.IsEmpty()
  {
    DiffSectionsOrder(d);
    var ss := DiffSections(d);
    if !d.IsEmpty() {
      if !SectionEmpty(ss[0]) {
        assert ss[0] in ss;
      } else if !SectionEmpty(ss[1]) {
        assert ss[1] in ss;
      } else {
        assert ss[2] in ss;
      }
    }
  }

  /** Without changes, the report is one of two fixed texts; with changes,
      it is the joined lines of the emitted sections. */
  lemma NoChangesReport(d: Delta)
    requires d.IsEmpty()
    ensures DiffMarkdown(None, false) == DiffMarkdown(None, true) == NoDiffData
    ensures DiffMarkdown(Some(d), false) == NoChangesDetected
    ensures DiffMarkdown(Some(d), true) == "# Model Diff Report\n\n" + NoStructuralChanges
  {
    HasContentIffChanged(d);
    var ss := DiffSections(d);
    NoContentNoLines(ss, Row);
    assert ReportHeader(true) + SectionsLines(ss, Row) + [NoStructuralChanges] == ["# Model Diff Report", "", NoStructuralChanges];
    JoinThree("\n", "# Model Diff Report", "", NoStructuralChanges);
    assert "# Model Diff Report" + "\n" + "" + "\n" == "# Model Diff Report\n\n";
  }


  /** Sections without items contribute no lines. */
  lemma {:induction false} NoContentNoLines(ss: seq<Section>, row: (string, string) -> string)
    requires !HasContent(ss)
    ensures SectionsLines(ss, row) == []
    decreases |ss|
  {
    if ss != [] {
      var init := ss[..|ss| - 1];
      assert forall s :: s in init ==> s in ss;
      assert ss[|ss| - 1] in ss;
      NoContentNoLines(init, row);
    }
  }

  /** When some section has items, the first line is a section heading. */
  lemma {:induction false} FirstLineIsHeading(ss: seq<Section>, row: (string, string) -> string)
    requires HasContent(ss)
    ensures SectionsLines(ss, row) != [] && StartsWith(SectionsLines(ss, row)[0], "## ")
    decreases |ss|
  {
    var init := ss[..|ss| - 1];
    var last := ss[|ss| - 1];
    assert SectionsLines(ss, row) == SectionsLines(init, row) + SectionLines(last, row);
    if HasContent(init) {
      FirstLineIsHeading(init, row);
    } else {
      NoContentNoLines(init, row);
      assert !SectionEmpty(last) by {
        var s :| s in ss && !SectionEmpty(s);
        assert s !in init;
      }
      StartsWithAppend("## ", last.title, "## ");
    }
  }

  /** When some section has items, the last line is the blank line that
      closes a section. */
  lemma {:induction false} LastLineIsBlank(ss: seq<Section>, row: (string, string) -> string)
    requires HasContent(ss)
    ensures |SectionsLines(ss, row)| >= 5 && SectionsLines(ss, row)[|SectionsLines(ss, row)| - 1] == ""
    decreases |ss|
  {
    var init := ss[..|ss| - 1];
    var last := ss[|ss| - 1];
    assert ss == init + [last];
    if SectionEmpty(last) {
      assert HasContent(init);
      LastLineIsBlank(init, row);
      assert SectionsLines(ss, row) == SectionsLines(init, row) + [];
    }
  }

  /** The lines of sections with items, with or without the report header,
      open with a heading, so their joined text is never blank. */
  lemma SectionsOpenWithHeading(ss: seq<Section>, row: (string, string) -> string, includeHeader: bool)
    requires HasContent(ss)
    ensures StartsWith(Join("\n", SectionsLines(ss, row)), "## ")
    ensures !IsBlank(Join("\n", ReportHeader(includeHeader) + SectionsLines(ss, row)))
  {
    FirstLineIsHeading(ss, row);
    var lines := SectionsLines(ss, row);
    JoinOpensWith("\n", lines, "## ");
    var parts := ReportHeader(includeHeader) + lines;
    assert StartsWith(parts[0], "#");
    JoinOpensWith("\n", parts, "#");
    assert !IsSpace("#"[0]);
    StartsWithNotBlank(Join("\n", parts), "#");
  }

  /** The report of a diff with changes opens with a section heading, so it
      is never blank. */
  lemma ChangedReportOpensWithHeading(d: Delta, includeHeader: bool)
    requires !d.IsEmpty()
    ensures StartsWith(DiffMarkdown(Some(d), false), "## ")
    ensures !IsBlank(DiffMarkdown(Some(d), includeHeader))
  {
    var ss := DiffSections(d);
    HasContentIffChanged(d);
    SectionsOpenWithHeading(ss, Row, includeHeader);
    var lines := SectionsLines(ss, Row);
    assert ReportHeader(false) + lines == lines;
  }

  /** A cell carries the added glyph exactly when it is not empty, and the
      same for the removed glyph, as long as the items hold no glyph of their own. */
  lemma GlyphIffCell(added: string, removed: string)
    requires '\U{2705}' !in added && '\U{2705}' !in removed
    requires '\U{274C}' !in added && '\U{274C}' !in removed
    ensures '\U{2705}' in Row(added, removed) <==> added != ""
    ensures '\U{274C}' in Row(added, removed) <==> removed != ""
  {
    var a := if added != "" then "\U{2705} " + added else "";
    var r := if removed != "" then "\U{274C} " + removed else "";
    assert Row(added, removed) == "| " + a + " | " + r + " |";
    if added != "" {
      assert a[0] == '\U{2705}';
    }
    if removed != "" {
      assert r[0] == '\U{274C}';
    }
  }

  /** A tuple item renders as its components joined by ", ", so it never
      renders as an empty cell: only a table named "" does. */
  lemma TupleCellsJoined(x: FieldId, y: RelationshipId)
    ensures PairCell(x) == x.0 + ", " + x.1
    ensures QuadCell(y) == y.0 + ", " + y.1 + ", " + y.2 + ", " + y.3
    ensures PairCell(x) != "" && QuadCell(y) != ""
  {
    JoinCons(", ", x.0, [x.1]);
    assert [x.0, x.1] == [x.0] + [x.1];
    JoinCons(", ", y.2, [y.3]);
    JoinCons(", ", y.1, [y.2, y.3]);
    JoinCons(", ", y.0, [y.1, y.2, y.3]);
    assert [y.0, y.1, y.2, y.3] == [y.0] + [y.1, y.2, y.3];
    assert [y.1, y.2, y.3] == [y.1] + [y.2, y.3];
    assert [y.2, y.3] == [y.2] + [y.3];
  }

  // ---------------------------------------------------------------------
  // Mermaid ER diagram
  // ---------------------------------------------------------------------

  /** The characters `[A-Za-z0-9_]` that a Mermaid id may hold. */
  predicate IsIdChar(c: char) {
    ('A' <= c <= 'Z') || ('a' <= c <= 'z') || ('0' <= c <= '9') || c == '_'
  }

  /** `sanitize_mermaid_id`: `re.sub(r'[^A-Za-z0-9_]', '_', name)`. */
  function SanitizeMermaidId(name: string): (r: string)
    ensures |r| == |name|
    ensures forall i :: 0 <= i < |r| ==> IsIdChar(r[i])
    ensures forall i :: 0 <= i < |name| && IsIdChar(name[i]) ==> r[i] == name[i]
  {
    seq(|name|, i requires 0 <= i < |name| => if IsIdChar(name[i]) then name[i] else '_')
  }

  lemma SanitizeMermaidIdIdempotent(name: string)
    ensures SanitizeMermaidId(SanitizeMermaidId(name)) == SanitizeMermaidId(name)
  {
  }

  /** A name that is already a valid id is kept as it is. */
  lemma SanitizeMermaidIdKeepsIds(name: string)
    requires forall i :: 0 <= i < |name| ==> IsIdChar(name[i])
    ensures SanitizeMermaidId(name) == name
  {
  }

  /** A relationship glyph: the left end, two dashes, the right end. */
  function Glyph(left: string, right: string): string {
    left + "--" + right
  }

  /** `symbol_map.get((from_card, to_card), "}o--||")`: the glyph of a
      (from, to) cardinality pair, many-to-one for any other pair. */
  function SymbolFor(fromCard: string, toCard: string): string {
    var symbolMap := map[
      ("one", "many") := Glyph("||", "o{"),
      ("many", "one") := Glyph("}o", "||"),
      ("one", "one") := Glyph("||", "||"),
      ("many", "many") := Glyph("}o", "o{")];
    if (fromCard, toCard) in symbolMap then symbolMap[(fromCard, toCard)] else Glyph("}o", "||")
  }

  /** `get_cardinality_symbol`: lower-case, split on ':', look the pair up; an
      inactive relationship gets the glyph with "--" replaced by "..". */
  function CardinalitySymbol(cardinality: string, isActive: bool): string {
    var parts := Split(Lower(cardinality), ':');
    var fromCard := if |parts| == 2 then parts[0] else "many";
    var toCard := if |parts| == 2 then parts[1] else "one";
    var symbol := SymbolFor(fromCard, toCard);
    if isActive then symbol else Replace(symbol, "--", "..")
  }

  /** The ends a glyph can have. */
  predicate IsEnd(e: string) {
    e == "||" || e == "o{" || e == "}o"
  }

  /** Replacing "--" by ".." in a glyph turns only its middle into dots. */
  lemma DottedGlyph(left: string, right: string)
    requires IsEnd(left) && IsEnd(right)
    ensures Replace(Glyph(left, right), "--", "..") == left + ".." + right
  {
    assert '-' !in left && '-' !in right;
    assert Glyph(left, right) == left + ("--" + right);
    ReplaceSkipsPrefix(left, "--" + right, "--", "..");
    assert ("--" + right)[..2] == "--" && ("--" + right)[2..] == right;
    ReplaceSkipsPrefix(right, [], "--", "..");
    assert right + [] == right;
  }

  /** Every pair, known or not, gets a glyph with two valid ends. */
  lemma SymbolForIsGlyph(fromCard: string, toCard: string)
    ensures exists left, right :: IsEnd(left) && IsEnd(right) && SymbolFor(fromCard, toCard) == Glyph(left, right)
  {
    var symbol := SymbolFor(fromCard, toCard);
    if (fromCard, toCard) == ("one", "many") {
      assert IsEnd("||") && IsEnd("o{") && symbol == Glyph("||", "o{");
    } else if (fromCard, toCard) == ("one", "one") {
      assert IsEnd("||") && IsEnd("||") && symbol == Glyph("||", "||");
    } else if (fromCard, toCard) == ("many", "many") {
      assert IsEnd("}o") && IsEnd("o{") && symbol == Glyph("}o", "o{");
    } else {
      assert IsEnd("}o") && IsEnd("||") && symbol == Glyph("}o", "||");
    }
  }

  /** An active relationship gets a glyph "<left>--<right>"; an inactive one
      the same glyph with the dashes turned into dots. */
  lemma CardinalitySymbolGlyphs(cardinality: string)
    ensures exists left, right ::
      (&& IsEnd(left) && IsEnd(right)
       && CardinalitySymbol(cardinality, true) == Glyph(left, right)
       && CardinalitySymbol(cardinality, false) == left + ".." + right)
  {
    var parts := Split(Lower(cardinality), ':');
    var fromCard := if |parts| == 2 then parts[0] else "many";
    var toCard := if |parts| == 2 then parts[1] else "one";
    SymbolForIsGlyph(fromCard, toCard);
    var left, right :| IsEnd(left) && IsEnd(right) && SymbolFor(fromCard, toCard) == Glyph(left, right);
    DottedGlyph(left, right);
  }

  /** The symbol does not depend on letter case. */
  lemma CardinalitySymbolIgnoresCase(cardinality: string, isActive: bool)
    ensures CardinalitySymbol(Lower(cardinality), isActive) == CardinalitySymbol(cardinality, isActive)
  {
    LowerIdempotent(cardinality);
  }

  /** "from:to" with colon-free ends gets the glyph of the lower-cased pair. */
  lemma CardinalitySymbolOfPair(fromCard: string, toCard: string, isActive: bool)
    requires ':' !in fromCard && ':' !in toCard
    ensures var symbol := SymbolFor(Lower(fromCard), Lower(toCard));
      CardinalitySymbol(fromCard + ":" + toCard, isActive) == if isActive then symbol else Replace(symbol, "--", "..")
  {
    LowerAppend(fromCard + ":", toCard);
    LowerAppend(fromCard, ":");
    assert Lower(":") == ":";
    assert ':' !in Lower(fromCard) && ':' !in Lower(toCard);
    SplitTwo(Lower(fromCard), Lower(toCard), ':');
  }

  /** Anything that does not split into exactly two parts counts as "many:one". */
  lemma CardinalitySymbolMalformed(cardinality: string, isActive: bool)
    requires |Split(Lower(cardinality), ':')| != 2
    ensures CardinalitySymbol(cardinality, isActive) == CardinalitySymbol("many:one", isActive)
  {
    CardinalitySymbolOfPair("many", "one", isActive);
    assert Lower("many") == "many" && Lower("one") == "one";
    assert "many" + ":" + "one" == "many:one";
    var symbol := SymbolFor("many", "one");
    assert CardinalitySymbol(cardinality, isActive) == if isActive then symbol else Replace(symbol, "--", "..");
  }

  /** The label text of a name: `name.replace('"', '#quot;')`. */
  function EscapeLabel(name: string): string {
    Replace(name, "\"", "#quot;")
  }

  /** A label holds no double quote, so it cannot end the quoted label early. */
  lemma {:induction false} EscapeLabelHasNoQuote(name: string)
    ensures '"' !in EscapeLabel(name)
    decreases |name|
  {
    if |name| >= 1 {
      EscapeLabelHasNoQuote(name[1..]);
      assert name[..1] == [name[0]];
    }
  }

  function TableLine(row: TableRow): string {
    "    " + SanitizeMermaidId(row.tableName) + " [label=\"" + EscapeLabel(row.tableName) + "\"]"
  }

  function RelationshipLine(row: RelationshipRow): string {
    "    " + SanitizeMermaidId(row.fromTable) + " " + CardinalitySymbol(row.cardinality, row.isActive)
    + " " + SanitizeMermaidId(row.toTable)
    + " : \"" + EscapeLabel(row.fromColumn) + " \U{2192} " + EscapeLabel(row.toColumn) + "\""
  }

  const EmptyDiagram := "```mermaid\n" + "erDiagram\n" + "    %% No data available for ER diagram" + "\n```"
  const NoTablesLine := "    %% No tables or relationships to display"

  /** The lines between the fences: the `erDiagram` line, a line per table
      and a line per relationship, with a comment line if there is nothing else. */
  function DiagramLines(tables: seq<TableRow>, rels: seq<RelationshipRow>): seq<string> {
    var lines := ["erDiagram"] + Map(TableLine, tables) + Map(RelationshipLine, rels);
    if |lines| == 1 then lines + [NoTablesLine] else lines
  }

  /** What `generate_mermaid_er_diagram(tables_df, rels_df)` returns. */
  function MermaidErDiagram(tables: seq<TableRow>, rels: seq<RelationshipRow>): string {
    if tables == [] && rels == [] then EmptyDiagram
    else "```mermaid\n" + Join("\n", DiagramLines(tables, rels)) + "\n```"
  }

  /** The table loop of `generate_mermaid_er_diagram`: a line per table row. */
  method AppendTableLines(lines: seq<string>, tablesDf: seq<TableRow>) returns (out: seq<string>)
    ensures out == lines + Map(TableLine, tablesDf)
  {
    out := lines;
    for i := 0 to |tablesDf|
      invariant out == lines + Map(TableLine, tablesDf[..i])
    {
      MapPrefixStep(TableLine, tablesDf, i);
      out := out + [TableLine(tablesDf[i])];
    }
    assert tablesDf[..|tablesDf|] == tablesDf;
  }

  /** The relationship loop of `generate_mermaid_er_diagram`: a line per
      relationship row. */
  method AppendRelationshipLines(lines: seq<string>, relsDf: seq<RelationshipRow>) returns (out: seq<string>)
    ensures out == lines + Map(RelationshipLine, relsDf)
  {
    out := lines;
    for i := 0 to |relsDf|
      invariant out == lines + Map(RelationshipLine, relsDf[..i])
    {
      MapPrefixStep(RelationshipLine, relsDf, i);
      out := out + [RelationshipLine(relsDf[i])];
    }
    assert relsDf[..|relsDf|] == relsDf;
  }

  /** `generate_mermaid_er_diagram`. */
  method GenerateMermaidErDiagram(tablesDf: seq<TableRow>, relsDf: seq<RelationshipRow>) returns (diagram: string)
    ensures diagram == MermaidErDiagram(tablesDf, relsDf)
  {
    if tablesDf == [] && relsDf == [] {
      return EmptyDiagram;
    }
    var lines: seq<string> := ["erDiagram"];
    lines := AppendTableLines(lines, tablesDf);
    lines := AppendRelationshipLines(lines, relsDf);
    if |lines| == 1 {
      lines := lines + [NoTablesLine];
    }
    return "```mermaid\n" + Join("\n", lines) + "\n```";
  }

  /** With data, the lines are the `erDiagram` line, then one line per table
      and one per relationship, in input order; the comment line for an
      empty diagram never appears. */
  lemma DiagramLinesShape(tables: seq<TableRow>, rels: seq<RelationshipRow>)
    requires tables != [] || rels != []
    ensures var lines := DiagramLines(tables, rels);
      && |lines| == 1 + |tables| + |rels|
      && lines[0] == "erDiagram"
      && (forall i :: 0 <= i < |tables| ==> lines[1 + i] == TableLine(tables[i]))
      && (forall j :: 0 <= j < |rels| ==> lines[1 + |tables| + j] == RelationshipLine(rels[j]))
  {
    TwoMapsAt(["erDiagram"], TableLine, tables, RelationshipLine, rels);
  }

  /** Without tables and relationships the diagram is the fixed empty shell. */
  lemma DiagramOfNothing(tables: seq<TableRow>, rels: seq<RelationshipRow>)
    requires |tables| + |rels| == 0
    ensures MermaidErDiagram(tables, rels)
      == "```mermaid\n" + "erDiagram\n" + "    %% No data available for ER diagram" + "\n```"
  {
    assert tables == [] && rels == [];
  }

  /** Fenced lines whose first line is `erDiagram`. */
  lemma FencedLines(lines: seq<string>)
    requires lines != [] && lines[0] == "erDiagram"
    ensures StartsWith("```mermaid\n" + Join("\n", lines) + "\n```", "```mermaid\n" + "erDiagram")
    ensures EndsWith("```mermaid\n" + Join("\n", lines) + "\n```", "\n```")
  {
    var opening, closing := "```mermaid\n", "\n```";
    JoinStartsWith("\n", lines);
    StartsWithPrepend(opening, Join("\n", lines), "erDiagram");
    StartsWithAppend(opening + Join("\n", lines), closing, opening + "erDiagram");
    assert EndsWith(closing, closing);
    EndsWithAppend(opening + Join("\n", lines), closing, closing);
  }

  /** With data, the diagram starts with the opening fence and the
      `erDiagram` line and ends with the closing fence. */
  lemma DiagramFenced(tables: seq<TableRow>, rels: seq<RelationshipRow>)
    requires tables != [] || rels != []
    ensures StartsWith(MermaidErDiagram(tables, rels), "```mermaid\n" + "erDiagram")
    ensures EndsWith(MermaidErDiagram(tables, rels), "\n```")
  {
    FencedLines(DiagramLines(tables, rels));
  }
}
