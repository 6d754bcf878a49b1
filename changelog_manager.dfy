/** `update_changelog_file` of src/pbi_extractor/changelog_manager.py as text
    surgery: the existing file is given as an optional string and the text
    written back is the result. A new entry goes after the file's header and
    before every earlier entry, which are kept as they are. */
module ChangelogManager {
  import opened Wrappers
  import opened Text
  import opened Schema
  import opened FileExporters

  /** The prefix of every entry heading line. */
  const Marker := "## Updated Version at"
  const InitialEntryBody := "Initial version or no comparison data available." + "\n\n"
  const NoSignificantChanges := "No significant changes detected"
    + " in the schema compared to the previous version." + "\n\n"

  function EntryHeading(timestamp: string): string {
    "## Updated Version at " + timestamp + "\n"
  }

  /** What follows the diff report so that the entry ends with a blank line. */
  function Padding(md: string): string {
    if EndsWith(md, "\n\n") then "" else if EndsWith(md, "\n") then "\n" else "\n\n"
  }

  /** The report is listed under "### Changes Summary" when it has text and
      does not contain the phrase "No changes detected". */
  predicate ShowsChanges(md: string) {
    !IsBlank(md) && !Contains(md, "No changes detected")
  }

  /** The body of an entry for a diff whose header-less report is `md`. */
  function ReportBody(md: string): string {
    if ShowsChanges(md) then "### Changes Summary\n" + md + Padding(md) else NoSignificantChanges
  }

  /** The text under the heading of a new entry. */
  function EntryBody(diff: Option<Delta>): string {
    if diff.None? then InitialEntryBody else ReportBody(DiffMarkdown(diff, false))
  }

  /** `new_entry_content`. */
  function NewEntry(timestamp: string, diff: Option<Delta>): string {
    EntryHeading(timestamp) + EntryBody(diff)
  }

  /** The title line of a changelog for `modelName`, and its blank line. */
  function Title(modelName: string): string {
    "# \U{1F6E0} Changelog - " + modelName + "\n\n"
  }

  const Introduction := "This changelog tracks changes to the Power BI model schema. "
    + "Each entry below summarizes additions and removals of tables, fields, "
    + "and relationships as of the timestamped update." + "\n\n"

  /** The header of a changelog created for `modelName`. */
  function CanonicalHeader(modelName: string): string {
    Title(modelName) + Introduction
  }

  /** The header kept from an existing file: the canonical one when it is
      blank, unchanged when it ends with a blank line, else right-stripped
      and given one. */
  function NormalizeHeader(header: string, canonical: string): string {
    if IsBlank(header) then canonical
    else if EndsWith(header, "\n\n") then header
    else RStrip(header) + "\n\n"
  }

  predicate IsMarker(line: string) {
    StartsWith(line, Marker)
  }

  /** The index of the first marker line, if there is one. */
  function FirstMarker(lines: seq<string>): (r: Option<nat>)
    ensures r.Some? ==> r.value < |lines| && IsMarker(lines[r.value])
    ensures r.Some? ==> forall k :: 0 <= k < r.value ==> !IsMarker(lines[k])
    ensures r.None? ==> forall k :: 0 <= k < |lines| ==> !IsMarker(lines[k])
  {
    if lines == [] then None
    else if IsMarker(lines[0]) then Some(0)
    else
      var rest := FirstMarker(lines[1..]);
      if rest.None? then None else Some(rest.value + 1)
  }

  /** The content of an existing file after the new entry is merged in. */
  function Merge(existing: string, canonical: string, entry: string): string {
    var lines := SplitLines(existing);
    var marker := FirstMarker(lines);
    if marker.Some? then
      NormalizeHeader(Concat(lines[..marker.value]), canonical) + entry + Concat(lines[marker.value..])
    else
      NormalizeHeader(existing, canonical) + entry
  }

  /** The text `update_changelog_file` writes. */
  function UpdatedChangelog(existing: Option<string>, modelName: string, timestamp: string, diff: Option<Delta>): string {
    var canonical := CanonicalHeader(modelName);
    var entry := NewEntry(timestamp, diff);
    if existing.None? then canonical + entry else Merge(existing.value, canonical, entry)
  }

  /** The entry-building part of `update_changelog_file`: the heading, then
      the body chosen by the diff, appended to `new_entry_parts` and joined. */
  method BuildNewEntry(timestamp: string, diff: Option<Delta>) returns (entry: string)
    ensures entry == NewEntry(timestamp, diff)
  {
    var newEntryParts: seq<string> := [];
    ConcatSnoc(newEntryParts, EntryHeading(timestamp));
    newEntryParts := newEntryParts + ["## Updated Version at " + timestamp + "\n"];
    assert Concat(newEntryParts) == EntryHeading(timestamp);
    newEntryParts := AppendEntryBody(newEntryParts, diff);
    entry := Concat(newEntryParts);
  }

  /** The branches on the diff that append the body of the new entry. */
  method AppendEntryBody(parts: seq<string>, diff: Option<Delta>) returns (newEntryParts: seq<string>)
    ensures Concat(newEntryParts) == Concat(parts) + EntryBody(diff)
  {
    if diff.Some? {
      var diffMd := GenerateDiffMarkdown(diff, false);
      newEntryParts := AppendReportBody(parts, diffMd);
    } else {
      ConcatSnoc(parts, InitialEntryBody);
      newEntryParts := parts + [InitialEntryBody];
    }
  }

  /** The body for a diff: the report under "### Changes Summary" and
      padded to end with a blank line, or the "no significant changes" line. */
  method AppendReportBody(parts: seq<string>, diffMd: string) returns (newEntryParts: seq<string>)
    ensures Concat(newEntryParts) == Concat(parts) + ReportBody(diffMd)
  {
    if !IsBlank(diffMd) && !Contains(diffMd, "No changes detected") {
      newEntryParts := AppendSummary(parts, diffMd);
    } else {
      ConcatSnoc(parts, NoSignificantChanges);
      newEntryParts := parts + [NoSignificantChanges];
    }
  }

  /** The "### Changes Summary" line, the report and its padding. */
  method AppendSummary(parts: seq<string>, diffMd: string) returns (newEntryParts: seq<string>)
    ensures Concat(newEntryParts) == Concat(parts) + "### Changes Summary\n" + diffMd + Padding(diffMd)
  {
    var summary := "### Changes Summary\n";
    ConcatSnoc(parts, summary);
    newEntryParts := parts + [summary];
    ConcatSnoc(newEntryParts, diffMd);
    newEntryParts := newEntryParts + [diffMd];
    var padding := "";
    if !EndsWith(diffMd, "\n\n") {
      if EndsWith(diffMd, "\n") {
        padding := "\n";
      } else {
        padding := "\n\n";
      }
      ConcatSnoc(newEntryParts, padding);
      newEntryParts := newEntryParts + [padding];
    }
    assert padding == Padding(diffMd);
    assert Concat(newEntryParts) == Concat(parts) + summary + diffMd + padding;
  }

  /** The scan of the existing lines for the first marker. */
  method FindFirstMarker(existingLines: seq<string>) returns (markerIndex: int)
    ensures FirstMarker(existingLines).None? ==> markerIndex == -1
    ensures FirstMarker(existingLines).Some? ==> markerIndex == FirstMarker(existingLines).value
  {
    markerIndex := -1;
    for i := 0 to |existingLines|
      invariant markerIndex == -1
      invariant forall k :: 0 <= k < i ==> !IsMarker(existingLines[k])
    {
      if StartsWith(existingLines[i], "## Updated Version at") {
        markerIndex := i;
        break;
      }
    }
  }

  /** `update_changelog_file`, with the file given as its content (or `None`
      when it does not exist) and the text to write as the result. */
  method UpdateChangelogFile(existing: Option<string>, modelName: string, timestamp: string, diff: Option<Delta>)
    returns (content: string)
    ensures content == UpdatedChangelog(existing, modelName, timestamp, diff)
  {
    var newEntryContent := BuildNewEntry(timestamp, diff);
    var changelogFileHeader := CanonicalHeader(modelName);
    if existing.None? {
      return changelogFileHeader + newEntryContent;
    }
    var existingFullContent := existing.value;
    var existingLines := SplitLines(existingFullContent);
    var markerIndex := FindFirstMarker(existingLines);
    var currentFileHeaderPart := "";
    var previousEntriesPart := "";
    if markerIndex != -1 {
      currentFileHeaderPart := Concat(existingLines[..markerIndex]);
      previousEntriesPart := Concat(existingLines[markerIndex..]);
      if IsBlank(currentFileHeaderPart) {
        currentFileHeaderPart := changelogFileHeader;
      } else if !EndsWith(currentFileHeaderPart, "\n\n") {
        currentFileHeaderPart := RStrip(currentFileHeaderPart) + "\n\n";
      }
    } else {
      currentFileHeaderPart := existingFullContent;
      if IsBlank(currentFileHeaderPart) {
        currentFileHeaderPart := changelogFileHeader;
      } else if !EndsWith(currentFileHeaderPart, "\n\n") {
        currentFileHeaderPart := RStrip(currentFileHeaderPart) + "\n\n";
      }
    }
    content := currentFileHeaderPart + newEntryContent + previousEntriesPart;
  }

  // ---------------------------------------------------------------------
  // Properties
  // ---------------------------------------------------------------------

  /** A report followed by its padding ends with a blank line. */
  lemma PaddingEndsWithBlankLine(md: string)
    ensures EndsWith(md + Padding(md), "\n\n")
  {
    if EndsWith(md, "\n\n") {
      assert md + Padding(md) == md + "";
    } else if EndsWith(md, "\n") {
      var padded := md + "\n";
      assert padded[|padded| - 2] == md[|md| - 1] == '\n';
      assert padded[|padded| - 2..] == "\n\n";
    } else {
      var padded := md + "\n\n";
      assert padded[|padded| - 2..] == "\n\n";
    }
  }

  /** Every entry heading is a marker line. */
  lemma HeadingIsMarker(timestamp: string)
    ensures StartsWith(EntryHeading(timestamp), Marker)
  {
    assert EntryHeading(timestamp)[..|Marker|] == Marker;
  }

  /** Every entry body ends with a blank line. */
  lemma EntryBodyEndsWithBlankLine(diff: Option<Delta>)
    ensures EndsWith(EntryBody(diff), "\n\n")
  {
    if diff.None? {
      EndsWithAppend("Initial version or no comparison data available.", "\n\n", "\n\n");
    } else {
      var md := DiffMarkdown(diff, false);
      if ShowsChanges(md) {
        PaddingEndsWithBlankLine(md);
        EndsWithAppend("### Changes Summary\n", md + Padding(md), "\n\n");
        assert EntryBody(diff) == "### Changes Summary\n" + (md + Padding(md));
      } else {
        EndsWithAppend("No significant changes detected"
          + " in the schema compared to the previous version.", "\n\n", "\n\n");
      }
    }
  }

  /** A new entry opens with its heading line, which is a marker line, and
      ends with a blank line. */
  lemma NewEntryShape(timestamp: string, diff: Option<Delta>)
    ensures StartsWith(NewEntry(timestamp, diff), EntryHeading(timestamp))
    ensures IsMarker(NewEntry(timestamp, diff))
    ensures EndsWith(NewEntry(timestamp, diff), "\n\n")
  {
    var heading := EntryHeading(timestamp);
    var body := EntryBody(diff);
    StartsWithAppend(heading, body, heading);
    HeadingIsMarker(timestamp);
    StartsWithAppend(heading, body, Marker);
    EntryBodyEndsWithBlankLine(diff);
    EndsWithAppend(heading, body, "\n\n");
  }


  /** The body of an entry: the initial-version line without a diff, the
      "no significant changes" line for a diff without changes, and for a
      diff with changes the report under "### Changes Summary", unless the
      report text contains the phrase "No changes detected". */
  lemma EntryBodyCases(diff: Option<Delta>)
    ensures diff.None? ==> EntryBody(diff) == InitialEntryBody
    ensures diff.Some? && diff.value.IsEmpty() ==> EntryBody(diff) == NoSignificantChanges
    ensures diff.Some? && !diff.value.IsEmpty() ==>
      var md := DiffMarkdown(diff, false);
      && !IsBlank(md)
      && (Contains(md, "No changes detected") ==> EntryBody(diff) == NoSignificantChanges)
      && (!Contains(md, "No changes detected") ==> EntryBody(diff) == "### Changes Summary\n" + md + Padding(md))
  {
    if diff.Some? {
      if diff.value.IsEmpty() {
        NoChangesReport(diff.value);
        var phrase := "No changes detected";
        assert NoChangesDetected[0..|phrase|] == phrase;
        assert OccursAt(NoChangesDetected, phrase, 0);
      } else {
        ChangedReportOpensWithHeading(diff.value, false);
      }
    }
  }

  /** The phrase test looks at the whole report, item names included: a
      table named "No changes detected" that was added is logged as no
      significant change. */
  lemma AddedTableCanHideChanges()
    ensures var d := Delta(["No changes detected"], [], [], [], [], []);
      !d.IsEmpty() && EntryBody(Some(d)) == NoSignificantChanges
  {
    var phrase := "No changes detected";
    var d := Delta([phrase], [], [], [], [], []);
    var lines := ["## " + "Tables", "", "| Added | Removed |", "|---|---|", Row(phrase, ""), ""];
    OneAddedTableLines(phrase);
    HasContentIffChanged(d);
    assert DiffMarkdown(Some(d), false) == Join("\n", lines) by {
      assert ReportHeader(false) + lines == lines;
    }
    var before, after := "| " + "\U{2705} ", " | " + "" + " |";
    assert lines[4] == before + phrase + after;
    OccursBetween(before, phrase, after);
    assert OccursAt(lines[4], phrase, |before|);
    JoinContainsPart("\n", lines, 4, phrase);
  }

  /** A diff with one added table renders as the tables section alone. */
  lemma OneAddedTableLines(name: string)
    requires name != ""
    ensures SectionsLines(DiffSections(Delta([name], [], [], [], [], [])), Row)
      == ["## " + "Tables", "", "| Added | Removed |", "|---|---|", Row(name, ""), ""]
  {
    var ss := DiffSections(Delta([name], [], [], [], [], []));
    var tables := ss[0];
    assert MaxRows(tables) == 1;
    assert Cell(tables.added, 0) == name && Cell(tables.removed, 0) == "";
    assert Rows(tables, Row, 1) == [Row(name, "")];
    var lines := SectionLines(tables, Row);
    assert SectionsLines(ss[..1], Row) == lines by {
      assert ss[..1][..0] == [];
    }
    assert SectionsLines(ss[..2], Row) == lines by {
      assert ss[..2][..1] == ss[..1];
    }
    assert ss[..2] == ss[..|ss| - 1];
  }

  /** Without an existing file the changelog is the canonical header and the
      entry, and it opens with the model's title line. */
  lemma CreatedChangelog(modelName: string, timestamp: string, diff: Option<Delta>)
    ensures UpdatedChangelog(None, modelName, timestamp, diff) == CanonicalHeader(modelName) + NewEntry(timestamp, diff)
    ensures StartsWith(UpdatedChangelog(None, modelName, timestamp, diff), "# \U{1F6E0} Changelog - " + modelName + "\n\n")
  {
    var title := Title(modelName);
    StartsWithAppend(title, Introduction, title);
    StartsWithAppend(CanonicalHeader(modelName), NewEntry(timestamp, diff), title);
  }

  /** The canonical header is not blank and ends with a blank line. */
  lemma CanonicalHeaderShape(modelName: string)
    ensures !IsBlank(CanonicalHeader(modelName))
    ensures EndsWith(CanonicalHeader(modelName), "\n\n")
  {
    assert CanonicalHeader(modelName)[0] == '#';
    var sentences := "This changelog tracks changes to the Power BI model schema. "
      + "Each entry below summarizes additions and removals of tables, fields, "
      + "and relationships as of the timestamped update.";
    EndsWithAppend(sentences, "\n\n", "\n\n");
    EndsWithAppend(Title(modelName), Introduction, "\n\n");
  }

  /** Splitting the file into lines and joining any prefix and the rest of
      them gives the file back. */
  lemma SplitIsLossless(existing: string, i: nat)
    requires i <= |SplitLines(existing)|
    ensures Concat(SplitLines(existing)[..i]) + Concat(SplitLines(existing)[i..]) == existing
  {
    var lines := SplitLines(existing);
    SplitLinesLossless(existing);
    ConcatAppend(lines[..i], lines[i..]);
    assert lines[..i] + lines[i..] == lines;
  }

  /** A normalized header ends with a blank line, keeps the text of the
      header up to its trailing whitespace, and is the canonical one exactly
      when the header is blank. */
  lemma NormalizeHeaderShape(header: string, canonical: string)
    requires !IsBlank(canonical) && EndsWith(canonical, "\n\n")
    ensures EndsWith(NormalizeHeader(header, canonical), "\n\n")
    ensures IsBlank(header) ==> NormalizeHeader(header, canonical) == canonical
    ensures !IsBlank(header) ==>
      && !IsBlank(NormalizeHeader(header, canonical))
      && StartsWith(NormalizeHeader(header, canonical), RStrip(header))
      && RStrip(NormalizeHeader(header, canonical)) == RStrip(header)
  {
    if !IsBlank(header) && !EndsWith(header, "\n\n") {
      var stripped := RStrip(header);
      RStripEmptyIffBlank(header);
      assert stripped[|stripped| - 1] == (stripped + "\n\n")[|stripped| - 1];
      StartsWithAppend(stripped, "\n\n", stripped);
      assert IsBlank("\n\n");
      RStripAppendBlank(stripped, "\n\n");
      RStripIdempotent(header);
      assert (stripped + "\n\n")[|stripped + "\n\n"| - 2..] == "\n\n";
    }
  }

  /** Normalizing a normalized header changes nothing. */
  lemma NormalizeHeaderIdempotent(header: string, canonical: string)
    requires !IsBlank(canonical) && EndsWith(canonical, "\n\n")
    ensures NormalizeHeader(NormalizeHeader(header, canonical), canonical) == NormalizeHeader(header, canonical)
  {
    NormalizeHeaderShape(header, canonical);
  }

  /** The file is the text before its first marker line followed by the
      text from that line on, which opens with the marker. */
  lemma MarkerSplit(existing: string)
    requires FirstMarker(SplitLines(existing)).Some?
    ensures
      var lines := SplitLines(existing);
      var i := FirstMarker(lines).value;
      && existing == Concat(lines[..i]) + Concat(lines[i..])
      && StartsWith(Concat(lines[i..]), Marker)
  {
    var lines := SplitLines(existing);
    var i := FirstMarker(lines).value;
    SplitIsLossless(existing, i);
    assert lines[i..] == [lines[i]] + lines[i + 1..];
    ConcatAppend([lines[i]], lines[i + 1..]);
    StartsWithAppend(lines[i], Concat(lines[i + 1..]), Marker);
  }

  /** With a marker line in the file, everything from the first marker line
      on is kept verbatim at the end, right after the new entry, and what
      precedes it is the normalized text before that line. */
  lemma PreviousEntriesKept(existing: string, modelName: string, timestamp: string, diff: Option<Delta>)
    requires FirstMarker(SplitLines(existing)).Some?
    ensures
      var lines := SplitLines(existing);
      var i := FirstMarker(lines).value;
      var header := Concat(lines[..i]);
      var previous := Concat(lines[i..]);
      var result := UpdatedChangelog(Some(existing), modelName, timestamp, diff);
      && existing == header + previous
      && StartsWith(previous, Marker)
      && (forall k :: 0 <= k < i ==> !IsMarker(lines[k]))
      && EndsWith(result, NewEntry(timestamp, diff) + previous)
      && result == NormalizeHeader(header, CanonicalHeader(modelName)) + NewEntry(timestamp, diff) + previous
  {
    var lines := SplitLines(existing);
    var i := FirstMarker(lines).value;
    MarkerSplit(existing);
    EndsWithLastTwo(NormalizeHeader(Concat(lines[..i]), CanonicalHeader(modelName)), NewEntry(timestamp, diff), Concat(lines[i..]));
  }

  /** Without a marker line, the whole file is taken as the header: the
      result is the normalized file and then the entry, so the file's text
      up to its trailing whitespace opens the result. */
  lemma NoMarkerKeepsFileAsHeader(existing: string, modelName: string, timestamp: string, diff: Option<Delta>)
    requires FirstMarker(SplitLines(existing)).None?
    ensures
      var result := UpdatedChangelog(Some(existing), modelName, timestamp, diff);
      var entry := NewEntry(timestamp, diff);
      && result == NormalizeHeader(existing, CanonicalHeader(modelName)) + entry
      && (IsBlank(existing) ==> result == CanonicalHeader(modelName) + entry)
      && (!IsBlank(existing) ==> StartsWith(result, RStrip(existing)))
      && EndsWith(result, entry)
  {
    var entry := NewEntry(timestamp, diff);
    var canonical := CanonicalHeader(modelName);
    var normalized := NormalizeHeader(existing, canonical);
    assert UpdatedChangelog(Some(existing), modelName, timestamp, diff) == Merge(existing, canonical, entry);
    CanonicalHeaderShape(modelName);
    NormalizeHeaderShape(existing, canonical);
    if !IsBlank(existing) {
      StartsWithAppend(normalized, entry, RStrip(existing));
    }
    assert EndsWith(entry, entry);
    EndsWithAppend(normalized, entry, entry);
  }
}
