/** The two text generators of the legacy script extractor.py:
    `diff_to_markdown`, whose rows always carry both glyphs, and
    `model_to_mermaid`, whose diagram has no indentation, labels tables with
    `as "..."`, escapes quotes with a backslash and looks cardinalities up
    exactly as written. */
module ExtractorExport {
  import opened Text
  import opened Schema
  import opened Sequences
  import FileExporters

  // ---------------------------------------------------------------------
  // Markdown diff report
  // ---------------------------------------------------------------------

  /** A data row of `diff_to_markdown`: `f"| ✅ {a} | ❌ {r} |"`, glyphs
      included even when a cell is empty. */
  function Row(added: string, removed: string): string {
    "| \U{2705} " + added + " | \U{274C} " + removed + " |"
  }

  /** What `diff_to_markdown(diff, include_header)` returns: the optional
      header and the lines of every section with items, joined by newlines. */
  function DiffMarkdown(d: Delta, includeHeader: bool): string {
    Join("\n", FileExporters.ReportHeader(includeHeader)
      + FileExporters.SectionsLines(FileExporters.DiffSections(d), Row))
  }

  /** The body of the section loop of `diff_to_markdown`: nothing for a
      section without items, else its heading, table head, rows and blank line. */
  method AppendSection(md: seq<string>, section: FileExporters.Section) returns (parts: seq<string>)
    ensures parts == md + FileExporters.SectionLines(section, Row)
  {
    if FileExporters.SectionEmpty(section) {
      assert md + [] == md;
      return md;
    }
    parts := md + ["## " + section.title, ""];
    parts := parts + ["| Added | Removed |"];
    parts := parts + ["|---|---|"];
    ghost var head := parts;
    var rows := FileExporters.Max(|section.added|, |section.removed|);
    for i := 0 to rows
      invariant parts == head + FileExporters.Rows(section, Row, i)
    {
      var a := if i < |section.added| then section.added[i] else "";
      var r := if i < |section.removed| then section.removed[i] else "";
      parts := parts + [Row(a, r)];
    }
    parts := parts + [""];
  }

  /** The section loop of `diff_to_markdown`: sections without items are skipped. */
  method AppendSections(md: seq<string>, sections: seq<FileExporters.Section>) returns (parts: seq<string>)
    ensures parts == md + FileExporters.SectionsLines(sections, Row)
  {
    parts := md;
    for k := 0 to |sections|
      invariant parts == md + FileExporters.SectionsLines(sections[..k], Row)
    {
      FileExporters.SectionsStep(md, parts, sections, k, Row);
      parts := AppendSection(parts, sections[k]);
    }
    assert sections[..|sections|] == sections;
  }

  /** `diff_to_markdown`. */
  method DiffToMarkdown(diff: Delta, includeHeader: bool) returns (text: string)
    ensures text == DiffMarkdown(diff, includeHeader)
  {
    var md: seq<string> := [];
    if includeHeader {
      md := md + ["# Model Diff Report", ""];
    }
    assert md == FileExporters.ReportHeader(includeHeader);
    md := AppendSections(md, FileExporters.DiffSections(diff));
    return Join("\n", md);
  }

  /** Without changes the report is empty, or only the header; unlike the
      package's generator, it has no sentence saying that nothing changed. */
  lemma EmptyDiffReport(d: Delta)
    requires d.IsEmpty()
    ensures DiffMarkdown(d, false) == ""
    ensures DiffMarkdown(d, true) == "# Model Diff Report\n"
  {
    FileExporters.HasContentIffChanged(d);
    FileExporters.NoContentNoLines(FileExporters.DiffSections(d), Row);
    assert FileExporters.ReportHeader(true) + [] == ["# Model Diff Report"] + [""];
    JoinCons("\n", "# Model Diff Report", [""]);
  }

  /** With changes, the report without header opens with a section heading
      and is never blank. */
  lemma ChangedDiffReport(d: Delta, includeHeader: bool)
    requires !d.IsEmpty()
    ensures StartsWith(DiffMarkdown(d, false), "## ")
    ensures !IsBlank(DiffMarkdown(d, includeHeader))
  {
    var ss := FileExporters.DiffSections(d);
    FileExporters.HasContentIffChanged(d);
    FileExporters.SectionsOpenWithHeading(ss, Row, includeHeader);
    var lines := FileExporters.SectionsLines(ss, Row);
    assert FileExporters.ReportHeader(false) + lines == lines;
  }

  /** With changes, the report ends with the newline before the blank line
      that closes the last section. */
  lemma ChangedDiffReportEndsWithNewline(d: Delta, includeHeader: bool)
    requires !d.IsEmpty()
    ensures EndsWith(DiffMarkdown(d, includeHeader), "\n")
  {
    var ss := FileExporters.DiffSections(d);
    FileExporters.HasContentIffChanged(d);
    FileExporters.LastLineIsBlank(ss, Row);
    var all := FileExporters.ReportHeader(includeHeader) + FileExporters.SectionsLines(ss, Row);
    JoinEndsWithSeparator("\n", all);
  }

  /** Every row carries both glyphs, so an empty cell still shows one; a row
      whose cells are both non-empty is the package's row. */
  lemma RowAlwaysHasGlyphs(added: string, removed: string)
    ensures '\U{2705}' in Row(added, removed) && '\U{274C}' in Row(added, removed)
    ensures added != "" && removed != "" ==> Row(added, removed) == FileExporters.Row(added, removed)
  {
    assert Row(added, removed)[2] == '\U{2705}';
    assert Row(added, removed)[|added| + 7] == '\U{274C}';
  }

  // ---------------------------------------------------------------------
  // Mermaid ER diagram
  // ---------------------------------------------------------------------

  predicate IsAlnum(c: char) {
    ('A' <= c <= 'Z') || ('a' <= c <= 'z') || ('0' <= c <= '9')
  }

  /** `sanitize`: `re.sub(r'[^A-Za-z0-9]', '_', name)`. */
  function Sanitize(name: string): (r: string)
    ensures |r| == |name|
    ensures forall i :: 0 <= i < |r| ==> IsAlnum(r[i]) || r[i] == '_'
    ensures forall i :: 0 <= i < |name| ==> (IsAlnum(name[i]) <==> r[i] == name[i] && name[i] != '_')
  {
    seq(|name|, i requires 0 <= i < |name| => if IsAlnum(name[i]) then name[i] else '_')
  }

  /** Replacing every non-alphanumeric character by '_' also replaces
      everything outside `[A-Za-z0-9_]`, and '_' by itself: the id is the
      package's `sanitize_mermaid_id`. */
  lemma SanitizeAgrees(name: string)
    ensures Sanitize(name) == FileExporters.SanitizeMermaidId(name)
  {
  }

  /** `cardinality_symbol`: the exact key is looked up, "||--||" for any
      other; an inactive relationship gets the glyph with "--" replaced by "..". */
  function Symbol(cardinality: string, isActive: bool): string {
    var mapping := map[
      "one:many" := FileExporters.Glyph("||", "o{"),
      "many:one" := FileExporters.Glyph("}o", "||"),
      "one:one" := FileExporters.Glyph("||", "||"),
      "many:many" := FileExporters.Glyph("}o", "o{")];
    var symbol := if cardinality in mapping then mapping[cardinality] else FileExporters.Glyph("||", "||");
    if isActive then symbol else Replace(symbol, "--", "..")
  }

  /** The four known cardinalities get their glyph, anything else the
      one-to-one glyph; an inactive relationship gets the dotted glyph. */
  lemma SymbolCases(cardinality: string)
    ensures cardinality == "one:many" ==> Symbol(cardinality, true) == FileExporters.Glyph("||", "o{")
    ensures cardinality == "many:one" ==> Symbol(cardinality, true) == FileExporters.Glyph("}o", "||")
    ensures cardinality == "many:many" ==> Symbol(cardinality, true) == FileExporters.Glyph("}o", "o{")
    ensures cardinality !in {"one:many", "many:one", "many:many"} ==> Symbol(cardinality, true) == FileExporters.Glyph("||", "||")
    ensures exists left, right ::
      (&& FileExporters.IsEnd(left) && FileExporters.IsEnd(right)
       && Symbol(cardinality, true) == FileExporters.Glyph(left, right)
       && Symbol(cardinality, false) == left + ".." + right)
  {
    if cardinality == "one:many" {
      FileExporters.DottedGlyph("||", "o{");
    } else if cardinality == "many:one" {
      FileExporters.DottedGlyph("}o", "||");
    } else if cardinality == "many:many" {
      FileExporters.DottedGlyph("}o", "o{");
    } else {
      FileExporters.DottedGlyph("||", "||");
    }
  }

  lemma LowerOneMany()
    ensures Lower("ONE") == "one" && Lower("MANY") == "many"
  {
    assert Lower("ONE")[0] == 'o' && Lower("ONE")[1] == 'n' && Lower("ONE")[2] == 'e';
    assert Lower("MANY")[0] == 'm' && Lower("MANY")[1] == 'a' && Lower("MANY")[2] == 'n' && Lower("MANY")[3] == 'y';
  }

  /** A cardinality that is not one of the four keys gets the one-to-one
      glyph when active. */
  lemma SymbolOfUnknown(cardinality: string)
    requires cardinality !in {"one:many", "many:one", "one:one", "many:many"}
    ensures Symbol(cardinality, true) == FileExporters.Glyph("||", "||")
  {
  }

  lemma PackageSymbolOfUpperCase()
    ensures FileExporters.CardinalitySymbol("ONE:MANY", true) == FileExporters.Glyph("||", "o{")
  {
    FileExporters.CardinalitySymbolOfPair("ONE", "MANY", true);
    assert "ONE" + ":" + "MANY" == "ONE:MANY";
    LowerOneMany();
  }

  lemma PackageSymbolOfManyOne()
    ensures FileExporters.CardinalitySymbol("many:one", true) == FileExporters.Glyph("}o", "||")
  {
    FileExporters.CardinalitySymbolOfPair("many", "one", true);
    assert "many" + ":" + "one" == "many:one";
    assert Lower("one")[0] == 'o' && Lower("one")[1] == 'n' && Lower("one")[2] == 'e';
    assert Lower("many")[0] == 'm' && Lower("many")[1] == 'a' && Lower("many")[2] == 'n' && Lower("many")[3] == 'y';
  }

  lemma PackageSymbolOfEmpty()
    ensures FileExporters.CardinalitySymbol("", true) == FileExporters.Glyph("}o", "||")
  {
    assert Split(Lower(""), ':') == [""];
    FileExporters.CardinalitySymbolMalformed("", true);
    PackageSymbolOfManyOne();
  }

  /** The lookup is case-sensitive: "ONE:MANY" gets the default glyph, where
      the package lower-cases it and gets the one-to-many glyph. */
  lemma SymbolIsCaseSensitive()
    ensures Symbol("ONE:MANY", true) == FileExporters.Glyph("||", "||")
    ensures FileExporters.CardinalitySymbol("ONE:MANY", true) == FileExporters.Glyph("||", "o{")
  {
    assert "ONE:MANY"[0] != "one:many"[0] && "ONE:MANY"[0] != "many:one"[0];
    SymbolOfUnknown("ONE:MANY");
    PackageSymbolOfUpperCase();
  }

  /** An unknown cardinality gets the one-to-one glyph, where the package
      falls back to many-to-one. */
  lemma SymbolDefaultIsOneToOne()
    ensures Symbol("", true) == FileExporters.Glyph("||", "||")
    ensures FileExporters.CardinalitySymbol("", true) == FileExporters.Glyph("}o", "||")
  {
    SymbolOfUnknown("");
    PackageSymbolOfEmpty();
  }

  /** `s.replace('"', '\\"')`. */
  function EscapeQuotes(s: string): string {
    Replace(s, "\"", "\\\"")
  }

  /** Every double quote of an escaped text follows a backslash. */
  lemma {:induction false} EscapedQuotesFollowBackslash(s: string)
    ensures var e := EscapeQuotes(s);
      forall i :: 0 <= i < |e| && e[i] == '"' ==> 0 < i && e[i - 1] == '\\'
    decreases |s|
  {
    if |s| >= 1 {
      EscapedQuotesFollowBackslash(s[1..]);
      var rest := EscapeQuotes(s[1..]);
      if s[..1] == "\"" {
        assert EscapeQuotes(s) == "\\\"" + rest;
      } else {
        assert EscapeQuotes(s) == [s[0]] + rest;
        assert s[0] != '"' by { assert s[..1] == [s[0]]; }
      }
    }
  }

  /** A text without double quotes is not changed by escaping. */
  lemma {:induction false} EscapeQuotesKeepsPlainText(s: string)
    requires '"' !in s
    ensures EscapeQuotes(s) == s
  {
    ReplaceSkipsPrefix(s, [], "\"", "\\\"");
    assert s + [] == s;
  }

  /** `f'{table_id} as "{label}"'`. */
  function TableLine(row: TableRow): string {
    Sanitize(row.tableName) + " as \"" + EscapeQuotes(row.tableName) + "\""
  }

  /** `f'{frm} {symbol} {to} : "{frm_col}→{to_col}"'`. */
  function RelationshipLine(row: RelationshipRow): string {
    Sanitize(row.fromTable) + " " + Symbol(row.cardinality, row.isActive) + " " + Sanitize(row.toTable)
    + " : \"" + EscapeQuotes(row.fromColumn) + "\U{2192}" + EscapeQuotes(row.toColumn) + "\""
  }

  /** The lines of `model_to_mermaid`: the opening fence, `erDiagram`, a
      line per table, a line per relationship, the closing fence. */
  function MermaidLines(tables: seq<TableRow>, rels: seq<RelationshipRow>): seq<string> {
    ["```mermaid", "erDiagram"] + Map(TableLine, tables) + Map(RelationshipLine, rels) + ["```"]
  }

  /** What `model_to_mermaid(tables_df, rels_df)` returns. */
  function Mermaid(tables: seq<TableRow>, rels: seq<RelationshipRow>): string {
    Join("\n", MermaidLines(tables, rels))
  }

  /** The table loop of `model_to_mermaid`. */
  method AppendTableLines(lines: seq<string>, tablesDf: seq<TableRow>) returns (out: seq<string>)
    ensures out == lines + Map(TableLine, tablesDf)
  {
    out := lines;
    for i := 0 to |tablesDf|
      invariant out == lines + Map(TableLine, tablesDf[..i])
    {
      MapPrefixStep(TableLine, tablesDf, i);
      out := out + [TableLine(tablesDf[i])];
    }
    assert tablesDf[..|tablesDf|] == tablesDf;
  }

  /** The relationship loop of `model_to_mermaid`. */
  method AppendRelationshipLines(lines: seq<string>, relsDf: seq<RelationshipRow>) returns (out: seq<string>)
    ensures out == lines + Map(RelationshipLine, relsDf)
  {
    out := lines;
    for i := 0 to |relsDf|
      invariant out == lines + Map(RelationshipLine, relsDf[..i])
    {
      MapPrefixStep(RelationshipLine, relsDf, i);
      out := out + [RelationshipLine(relsDf[i])];
    }
    assert relsDf[..|relsDf|] == relsDf;
  }

  /** `model_to_mermaid`. */
  method ModelToMermaid(tablesDf: seq<TableRow>, relsDf: seq<RelationshipRow>) returns (diagram: string)
    ensures diagram == Mermaid(tablesDf, relsDf)
  {
    var lines: seq<string> := ["```mermaid", "erDiagram"];
    lines := AppendTableLines(lines, tablesDf);
    lines := AppendRelationshipLines(lines, relsDf);
    lines := lines + ["```"];
    return Join("\n", lines);
  }

  /** The lines are the two opening lines, a line per table and per
      relationship, and the closing fence. */
  lemma MermaidLinesFrame(tables: seq<TableRow>, rels: seq<RelationshipRow>)
    ensures var lines := MermaidLines(tables, rels);
      && |lines| == 3 + |tables| + |rels|
      && lines[0] == "```mermaid" && lines[1] == "erDiagram"
      && lines[|lines| - 1] == "```"
  {
  }

  /** After the two opening lines comes one line per table, in input order. */
  lemma MermaidTableLines(tables: seq<TableRow>, rels: seq<RelationshipRow>)
    ensures var lines := MermaidLines(tables, rels);
      forall i :: 0 <= i < |tables| ==> lines[2 + i] == TableLine(tables[i])
  {
    var opening := ["```mermaid", "erDiagram"];
    var tail := Map(RelationshipLine, rels) + ["```"];
    assert MermaidLines(tables, rels) == opening + Map(TableLine, tables) + tail;
    MapBetween(opening, TableLine, tables, tail);
  }

  /** After the table lines comes one line per relationship, in input order,
      and then the closing fence. */
  lemma MermaidRelationshipLines(tables: seq<TableRow>, rels: seq<RelationshipRow>)
    ensures var lines := MermaidLines(tables, rels);
      forall j :: 0 <= j < |rels| ==> lines[2 + |tables| + j] == RelationshipLine(rels[j])
  {
    var head := ["```mermaid", "erDiagram"] + Map(TableLine, tables);
    assert MermaidLines(tables, rels) == head + Map(RelationshipLine, rels) + ["```"];
    MapBetween(head, RelationshipLine, rels, ["```"]);
  }

  /** Lines that open with the fence and `erDiagram` and close with the
      fence: the opening fence, a newline, the joined middle lines, a
      newline, the closing fence. */
  lemma FencedJoinParts(middle: seq<string>)
    requires middle != []
    ensures Join("\n", ["```mermaid"] + middle + ["```"]) == "```mermaid\n" + Join("\n", middle) + "\n```"
  {
    assert ["```mermaid"] + middle + ["```"] == ["```mermaid"] + (middle + ["```"]);
    JoinCons("\n", "```mermaid", middle + ["```"]);
    JoinSnoc("\n", middle, "```");
  }

  lemma FencedJoin(middle: seq<string>)
    requires middle != [] && middle[0] == "erDiagram"
    ensures var text := Join("\n", ["```mermaid"] + middle + ["```"]);
      && StartsWith(text, "```mermaid\n" + "erDiagram")
      && EndsWith(text, "\n```")
  {
    FencedJoinParts(middle);
    JoinStartsWith("\n", middle);
    var inner := Join("\n", middle);
    StartsWithPrepend("```mermaid\n", inner, "erDiagram");
    StartsWithAppend("```mermaid\n" + inner, "\n```", "```mermaid\n" + "erDiagram");
    assert EndsWith("\n```", "\n```");
    EndsWithAppend("```mermaid\n" + inner, "\n```", "\n```");
  }

  /** The diagram is always fenced, even with no tables and no
      relationships, where it is just the fences around `erDiagram`. */
  lemma MermaidFenced(tables: seq<TableRow>, rels: seq<RelationshipRow>)
    ensures StartsWith(Mermaid(tables, rels), "```mermaid\n" + "erDiagram")
    ensures EndsWith(Mermaid(tables, rels), "\n```")
  {
    var middle := ["erDiagram"] + Map(TableLine, tables) + Map(RelationshipLine, rels);
    assert MermaidLines(tables, rels) == ["```mermaid"] + middle + ["```"];
    FencedJoin(middle);
  }

  /** Without tables and relationships the diagram is the two opening lines
      and the closing fence. */
  lemma MermaidOfNothing()
    ensures Mermaid([], []) == "```mermaid\n" + "erDiagram\n" + "```"
  {
    assert MermaidLines([], []) == ["```mermaid"] + ["erDiagram", "```"];
    JoinCons("\n", "```mermaid", ["erDiagram", "```"]);
    assert ["erDiagram", "```"] == ["erDiagram"] + ["```"];
    JoinCons("\n", "erDiagram", ["```"]);
  }

}
