/** `update_changelog` of the legacy script extractor.py as text surgery: the
    existing file is given as an optional string and the text written back
    is the result. It splits the file at the first entry heading as the
    package's changelog manager does, but every entry has a "### Datamodel"
    line, the report is logged whenever it has text, and the kept header is
    padded to a blank line without being right-stripped. */
module ExtractorChangelog {
  import opened Wrappers
  import opened Text
  import opened Schema
  import ChangelogManager
  import ExtractorExport

  const NoDiffInformation := "No diff information available to generate the changelog (previous or new model not found)." + "\n\n"
  const NoChangesDetected := "No changes detected" + " in the schema compared to the previous version." + "\n\n"

  /** The body of an entry for a diff whose header-less report is `md`:
      the report under "### Changes Summary", padded to end with a blank
      line, when it has text. */
  function ReportBody(md: string): string {
    if !IsBlank(md) then "### Changes Summary\n" + md + ChangelogManager.Padding(md) else NoChangesDetected
  }

  /** The text under the "### Datamodel" line of a new entry. */
  function EntryBody(diff: Option<Delta>): string {
    if diff.None? then NoDiffInformation else ReportBody(ExtractorExport.DiffMarkdown(diff.value, false))
  }

  /** `new_entry_content_str`. */
  function NewEntry(currentDate: string, diff: Option<Delta>): string {
    ChangelogManager.EntryHeading(currentDate) + "### Datamodel\n" + EntryBody(diff)
  }

  const Introduction := "This changelog tracks daily changes to the Power BI model schema. "
    + "Each entry below summarizes additions and removals of tables, fields, "
    + "and relationships." + "\n\n"

  /** `header_content_str` for `modelName`: the same title line as the
      package's changelog, with a different introduction. */
  function Header(modelName: string): string {
    ChangelogManager.Title(modelName) + Introduction
  }

  /** The header kept from an existing file: the canonical one when it is
      blank, else the header itself padded to end with a blank line. */
  function NormalizeHeader(header: string, canonical: string): string {
    if IsBlank(header) then canonical else header + ChangelogManager.Padding(header)
  }

  /** The content of an existing file after the new entry is merged in. */
  function Merge(existing: string, canonical: string, entry: string): string {
    var lines := SplitLines(existing);
    var marker := ChangelogManager.FirstMarker(lines);
    if marker.Some? then
      NormalizeHeader(Concat(lines[..marker.value]), canonical) + entry + Concat(lines[marker.value..])
    else
      NormalizeHeader(existing, canonical) + entry
  }

  /** The text `update_changelog` writes. */
  function UpdatedChangelog(existing: Option<string>, modelName: string, currentDate: string, diff: Option<Delta>): string {
    var canonical := Header(modelName);
    var entry := NewEntry(currentDate, diff);
    if existing.None? then canonical + entry else Merge(existing.value, canonical, entry)
  }

  /** The entry-building part of `update_changelog`. */
  method BuildNewEntry(currentDate: string, diff: Option<Delta>) returns (entry: string)
    ensures entry == NewEntry(currentDate, diff)
  {
    var parts: seq<string> := [];
    var heading := "## Updated Version at " + currentDate + "\n";
    ConcatSnoc(parts, heading);
    parts := parts + [heading];
    ConcatSnoc(parts, "### Datamodel\n");
    parts := parts + ["### Datamodel\n"];
    assert Concat(parts) == ChangelogManager.EntryHeading(currentDate) + "### Datamodel\n";
    parts := AppendEntryBody(parts, diff);
    entry := Concat(parts);
  }

  /** The branches on the diff that append the body of the new entry. */
  method AppendEntryBody(parts: seq<string>, diff: Option<Delta>) returns (newParts: seq<string>)
    ensures Concat(newParts) == Concat(parts) + EntryBody(diff)
  {
    if diff.Some? {
      var diffMdText := ExtractorExport.DiffToMarkdown(diff.value, false);
      newParts := AppendReportBody(parts, diffMdText);
    } else {
      ConcatSnoc(parts, NoDiffInformation);
      newParts := parts + [NoDiffInformation];
    }
  }

  /** The report under "### Changes Summary", padded to end with a blank
      line, or the "no changes detected" line for a blank report. */
  method AppendReportBody(parts: seq<string>, diffMdText: string) returns (newParts: seq<string>)
    ensures Concat(newParts) == Concat(parts) + ReportBody(diffMdText)
  {
    if !IsBlank(diffMdText) {
      newParts := AppendSummary(parts, diffMdText);
    } else {
      ConcatSnoc(parts, NoChangesDetected);
      newParts := parts + [NoChangesDetected];
    }
  }

  /** The "### Changes Summary" line, the report and its padding. */
  method AppendSummary(parts: seq<string>, diffMdText: string) returns (newParts: seq<string>)
    ensures Concat(newParts) == Concat(parts) + "### Changes Summary\n" + diffMdText + ChangelogManager.Padding(diffMdText)
  {
    var summary := "### Changes Summary\n";
    ConcatSnoc(parts, summary);
    newParts := parts + [summary];
    ConcatSnoc(newParts, diffMdText);
    newParts := newParts + [diffMdText];
    var padding := "";
    if !EndsWith(diffMdText, "\n\n") {
      if EndsWith(diffMdText, "\n") {
        padding := "\n";
      } else {
        padding := "\n\n";
      }
      ConcatSnoc(newParts, padding);
      newParts := newParts + [padding];
    }
    assert padding == ChangelogManager.Padding(diffMdText);
    assert Concat(newParts) == Concat(parts) + summary + diffMdText + padding;
  }

  /** The padding of a header part that is not blank. */
  method PadHeader(filePart: string, canonical: string) returns (header: string)
    ensures header == NormalizeHeader(filePart, canonical)
  {
    header := filePart;
    if IsBlank(header) {
      header := canonical;
    } else if !EndsWith(header, "\n\n") {
      if EndsWith(header, "\n") {
        header := header + "\n";
      } else {
        header := header + "\n\n";
      }
    } else {
      assert header + "" == header;
    }
  }

  /** `update_changelog`, with the file given as its content (or `None` when
      it does not exist) and the text to write as the result. */
  method UpdateChangelog(existing: Option<string>, modelName: string, currentDate: string, diff: Option<Delta>)
    returns (finalWriteContent: string)
    ensures finalWriteContent == UpdatedChangelog(existing, modelName, currentDate, diff)
  {
    var newEntryContent := BuildNewEntry(currentDate, diff);
    var headerContent := Header(modelName);
    if existing.None? {
      return headerContent + newEntryContent;
    }
    var existingFullContent := existing.value;
    var existingLines := SplitLines(existingFullContent);
    var firstEntryLineIndex := ChangelogManager.FindFirstMarker(existingLines);
    if firstEntryLineIndex != -1 {
      var fileHeaderPart := PadHeader(Concat(existingLines[..firstEntryLineIndex]), headerContent);
      var previousEntriesPart := Concat(existingLines[firstEntryLineIndex..]);
      finalWriteContent := fileHeaderPart + newEntryContent + previousEntriesPart;
    } else {
      var fileHeaderPart := PadHeader(existingFullContent, headerContent);
      finalWriteContent := fileHeaderPart + newEntryContent;
    }
  }

  // ---------------------------------------------------------------------
  // Properties
  // ---------------------------------------------------------------------

  /** Every entry body ends with a blank line. */
  lemma EntryBodyEndsWithBlankLine(diff: Option<Delta>)
    ensures EndsWith(EntryBody(diff), "\n\n")
  {
    if diff.None? {
      EndsWithAppend("No diff information available to generate the changelog (previous or new model not found).", "\n\n", "\n\n");
    } else {
      var md := ExtractorExport.DiffMarkdown(diff.value, false);
      if !IsBlank(md) {
        ChangelogManager.PaddingEndsWithBlankLine(md);
        EndsWithAppend("### Changes Summary\n", md + ChangelogManager.Padding(md), "\n\n");
        assert EntryBody(diff) == "### Changes Summary\n" + (md + ChangelogManager.Padding(md));
      } else {
        EndsWithAppend("No changes detected" + " in the schema compared to the previous version.", "\n\n", "\n\n");
      }
    }
  }

  /** A new entry opens with its heading line and the "### Datamodel" line,
      is itself a marker line, and ends with a blank line. */
  lemma NewEntryShape(currentDate: string, diff: Option<Delta>)
    ensures StartsWith(NewEntry(currentDate, diff), ChangelogManager.EntryHeading(currentDate) + "### Datamodel\n")
    ensures ChangelogManager.IsMarker(NewEntry(currentDate, diff))
    ensures EndsWith(NewEntry(currentDate, diff), "\n\n")
  {
    var opening := ChangelogManager.EntryHeading(currentDate) + "### Datamodel\n";
    var body := EntryBody(diff);
    StartsWithAppend(opening, body, opening);
    assert opening[..|ChangelogManager.Marker|] == ChangelogManager.Marker;
    StartsWithAppend(opening, body, ChangelogManager.Marker);
    EntryBodyEndsWithBlankLine(diff);
    EndsWithAppend(opening, body, "\n\n");
  }

  /** The body of an entry: the "no diff information" line without a diff,
      the "no changes detected" line for a diff without changes, and for a
      diff with changes always the report under "### Changes Summary",
      followed by one newline so that the entry ends with a blank line. */
  lemma EntryBodyCases(diff: Option<Delta>)
    ensures diff.None? ==> EntryBody(diff) == NoDiffInformation
    ensures diff.Some? && diff.value.IsEmpty() ==> EntryBody(diff) == NoChangesDetected
    ensures diff.Some? && !diff.value.IsEmpty() ==>
      var md := ExtractorExport.DiffMarkdown(diff.value, false);
      && !IsBlank(md)
      && EntryBody(diff) == "### Changes Summary\n" + md + ChangelogManager.Padding(md)
  {
    if diff.Some? {
      if diff.value.IsEmpty() {
        ExtractorExport.EmptyDiffReport(diff.value);
      } else {
        ExtractorExport.ChangedDiffReport(diff.value, false);
      }
    }
  }

  /** A diff that only adds a table named "No changes detected" is logged
      with its report, where the package's changelog manager logs it as no
      significant change. */
  lemma AddedTableIsLogged()
    ensures var d := Delta(["No changes detected"], [], [], [], [], []);
      && StartsWith(EntryBody(Some(d)), "### Changes Summary\n")
      && ChangelogManager.EntryBody(Some(d)) == ChangelogManager.NoSignificantChanges
  {
    var d := Delta(["No changes detected"], [], [], [], [], []);
    assert !d.IsEmpty();
    EntryBodyCases(Some(d));
    var md := ExtractorExport.DiffMarkdown(d, false);
    var rest := md + ChangelogManager.Padding(md);
    assert EntryBody(Some(d)) == "### Changes Summary\n" + rest;
    StartsWithAppend("### Changes Summary\n", rest, "### Changes Summary\n");
    ChangelogManager.AddedTableCanHideChanges();
  }

  /** Without an existing file the changelog is the header and the entry. */
  lemma CreatedChangelog(modelName: string, currentDate: string, diff: Option<Delta>)
    ensures UpdatedChangelog(None, modelName, currentDate, diff) == Header(modelName) + NewEntry(currentDate, diff)
    ensures StartsWith(UpdatedChangelog(None, modelName, currentDate, diff), "# \U{1F6E0} Changelog - " + modelName + "\n\n")
  {
    var title := ChangelogManager.Title(modelName);
    StartsWithAppend(title, Introduction, title);
    StartsWithAppend(Header(modelName), NewEntry(currentDate, diff), title);
  }

  /** The header is not blank and ends with a blank line. */
  lemma HeaderShape(modelName: string)
    ensures !IsBlank(Header(modelName))
    ensures EndsWith(Header(modelName), "\n\n")
  {
    assert Header(modelName)[0] == '#';
    var sentences := "This changelog tracks daily changes to the Power BI model schema. "
      + "Each entry below summarizes additions and removals of tables, fields, "
      + "and relationships.";
    EndsWithAppend(sentences, "\n\n", "\n\n");
    EndsWithAppend(ChangelogManager.Title(modelName), Introduction, "\n\n");
  }

  /** A normalized header ends with a blank line; a blank header is
      replaced by the canonical one, any other is kept verbatim at the start
      and only newlines are added after it. */
  lemma NormalizeHeaderShape(header: string, canonical: string)
    requires EndsWith(canonical, "\n\n")
    ensures EndsWith(NormalizeHeader(header, canonical), "\n\n")
    ensures IsBlank(header) ==> NormalizeHeader(header, canonical) == canonical
    ensures !IsBlank(header) ==>
      && StartsWith(NormalizeHeader(header, canonical), header)
      && ChangelogManager.Padding(header) in {"", "\n", "\n\n"}
      && NormalizeHeader(header, canonical) == header + ChangelogManager.Padding(header)
  {
    ChangelogManager.PaddingEndsWithBlankLine(header);
    StartsWithAppend(header, ChangelogManager.Padding(header), header);
  }

  /** Normalizing a normalized header changes nothing. */
  lemma NormalizeHeaderIdempotent(header: string, canonical: string)
    requires !IsBlank(canonical) && EndsWith(canonical, "\n\n")
    ensures NormalizeHeader(NormalizeHeader(header, canonical), canonical) == NormalizeHeader(header, canonical)
  {
    NormalizeHeaderShape(header, canonical);
    var h := NormalizeHeader(header, canonical);
    if !IsBlank(header) {
      assert h[0..|header|] == header;
      assert !IsBlank(h) by {
        var i :| 0 <= i < |header| && !IsSpace(header[i]);
        assert h[i] == header[i];
      }
    }
  }

  /** Where the package's manager right-strips a header before padding it,
      the legacy script keeps its trailing spaces. */
  lemma TrailingSpacesKept()
    ensures NormalizeHeader("a ", "\n\n") == "a " + "\n\n"
    ensures ChangelogManager.NormalizeHeader("a ", "\n\n") == "a" + "\n\n"
  {
    assert !IsBlank("a ") by { assert !IsSpace("a "[0]); }
    assert !EndsWith("a ", "\n") && !EndsWith("a ", "\n\n");
    assert RStrip("a ") == RStrip("a ");
    assert "a "[..1] == "a";
    assert RStrip("a ") == RStrip("a");
  }

  /** Merging with a marker line in the file keeps everything from the
      first marker line on verbatim after the entry. */
  lemma MergeWithMarker(existing: string, canonical: string, entry: string)
    requires ChangelogManager.FirstMarker(SplitLines(existing)).Some?
    ensures
      var lines := SplitLines(existing);
      var i := ChangelogManager.FirstMarker(lines).value;
      var previous := Concat(lines[i..]);
      && existing == Concat(lines[..i]) + previous
      && StartsWith(previous, ChangelogManager.Marker)
      && EndsWith(Merge(existing, canonical, entry), entry + previous)
  {
    var lines := SplitLines(existing);
    var i := ChangelogManager.FirstMarker(lines).value;
    ChangelogManager.MarkerSplit(existing);
    EndsWithLastTwo(NormalizeHeader(Concat(lines[..i]), canonical), entry, Concat(lines[i..]));
  }

  /** With a marker line in the file, everything from the first marker line
      on is kept verbatim at the end, right after the new entry, and what
      precedes it is the normalized text before that line. */
  lemma PreviousEntriesKept(existing: string, modelName: string, currentDate: string, diff: Option<Delta>)
    requires ChangelogManager.FirstMarker(SplitLines(existing)).Some?
    ensures
      var lines := SplitLines(existing);
      var i := ChangelogManager.FirstMarker(lines).value;
      var header := Concat(lines[..i]);
      var previous := Concat(lines[i..]);
      var result := UpdatedChangelog(Some(existing), modelName, currentDate, diff);
      && existing == header + previous
      && StartsWith(previous, ChangelogManager.Marker)
      && EndsWith(result, NewEntry(currentDate, diff) + previous)
      && result == NormalizeHeader(header, Header(modelName)) + NewEntry(currentDate, diff) + previous
  {
    MergeWithMarker(existing, Header(modelName), NewEntry(currentDate, diff));
  }

  /** Without a marker line, the whole file is taken as the header and kept
      verbatim before the entry, unless it is blank. */
  lemma NoMarkerKeepsFile(existing: string, modelName: string, currentDate: string, diff: Option<Delta>)
    requires ChangelogManager.FirstMarker(SplitLines(existing)).None?
    ensures
      var result := UpdatedChangelog(Some(existing), modelName, currentDate, diff);
      var entry := NewEntry(currentDate, diff);
      && result == NormalizeHeader(existing, Header(modelName)) + entry
      && (IsBlank(existing) ==> result == Header(modelName) + entry)
      && (!IsBlank(existing) ==> StartsWith(result, existing))
      && EndsWith(result, entry)
  {
    var entry := NewEntry(currentDate, diff);
    var normalized := NormalizeHeader(existing, Header(modelName));
    HeaderShape(modelName);
    NormalizeHeaderShape(existing, Header(modelName));
    if !IsBlank(existing) {
      StartsWithAppend(normalized, entry, existing);
    }
    assert (normalized + entry)[|normalized + entry| - |entry|..] == entry;
  }
}
