/** The bulk-import path of the event form: the text of an uploaded file is cut
    into lines on `\n`, each line is trimmed, blank lines are dropped, the first
    remaining line is taken as a header and discarded, and every other line is
    cut on `,` into positional columns. There is no quoting and no escaping: a
    comma inside a field always starts a new column. */
module CsvImport {
  import opened Text
  import opened Remote

  /** One event as the create, update and bulk-create mutations receive it;
      also the single-event draft of the form and each row of an upload. */
  datatype EventInput = EventInput(
    name: string, contact: string, venue: string, description: string, eventDate: string)

  const EmptyEvent := EventInput("", "", "", "", "")

  /** `cols[k] || ""`: a column past the end of the row reads as "". */
  function Column(cols: seq<string>, k: nat): (c: string)
    ensures k < |cols| ==> c == cols[k]
    ensures k >= |cols| ==> c == ""
    ensures c in cols || c == ""
  {
    if k < |cols| then cols[k] else ""
  }

  /** One data row: columns 0 to 4 are name, contact, venue, description and
      date; further columns are ignored. Fields are not trimmed one by one. */
  function RowToRecord(row: string): (e: EventInput)
    ensures ',' !in e.name && ',' !in e.contact && ',' !in e.venue
    ensures ',' !in e.description && ',' !in e.eventDate
  {
    var cols := Split(row, ',');
    EventInput(Column(cols, 0), Column(cols, 1), Column(cols, 2), Column(cols, 3), Column(cols, 4))
  }

  /** The name is the start of the line, up to its first comma; a line without
      a comma is all name, and every other field is "". */
  lemma RowFirstColumn(row: string)
    ensures RowToRecord(row).name <= row
    ensures ',' !in row ==> RowToRecord(row) == EventInput(row, "", "", "", "")
  {
    SplitFirstPiece(row, ',');
  }

  function TrimAll(ls: seq<string>): (r: seq<string>)
    ensures |r| == |ls|
    ensures forall i :: 0 <= i < |ls| ==> r[i] == Trim(ls[i])
  {
    seq(|ls|, i requires 0 <= i < |ls| => Trim(ls[i]))
  }

  /** Trimmed pieces that had no line break have none afterwards either. */
  lemma TrimmedPieces(pieces: seq<string>)
    requires forall i :: 0 <= i < |pieces| ==> '\n' !in pieces[i]
    ensures forall x :: x in TrimAll(pieces) ==> IsTrimmed(x) && '\n' !in x
  {
    forall i | 0 <= i < |pieces|
      ensures IsTrimmed(Trim(pieces[i])) && '\n' !in Trim(pieces[i])
    {
      TrimIsTrimmed(pieces[i]);
      TrimKeepsOut(pieces[i], '\n');
    }
  }

  /** The lines of an upload that survive trimming and the blank-line filter. */
  function Lines(text: string): (rows: seq<string>)
    ensures forall i :: 0 <= i < |rows| ==> rows[i] != "" && IsTrimmed(rows[i]) && '\n' !in rows[i]
  {
    var pieces := Split(text, '\n');
    TrimmedPieces(pieces);
    DropEmpty(TrimAll(pieces))
  }

  /** The records of an upload: one per line after the header, in order. A
      file with no line, or with the header line only, yields no record. */
  function ParseCsv(text: string): (events: seq<EventInput>)
    ensures |Lines(text)| <= 1 <==> events == []
    ensures |Lines(text)| >= 1 ==> |events| == |Lines(text)| - 1
    ensures forall i :: 0 <= i < |events| ==> events[i] == RowToRecord(Lines(text)[i + 1])
  {
    BodyRecords(Lines(text))
  }

  /** One record per line after the first (the header). */
  function BodyRecords(rows: seq<string>): (events: seq<EventInput>)
    ensures |rows| <= 1 <==> events == []
    ensures |rows| >= 1 ==> |events| == |rows| - 1
    ensures forall i :: 0 <= i < |events| ==> events[i] == RowToRecord(rows[i + 1])
  {
    var body := if rows == [] then [] else rows[1..];
    seq(|body|, i requires 0 <= i < |body| => RowToRecord(body[i]))
  }

  /** Column mapping: a row made of separator-free columns yields those columns
      by position, and a short row yields "" for every missing one. */
  lemma {:induction false} RowColumns(cols: seq<string>)
    requires |cols| >= 1
    requires forall i :: 0 <= i < |cols| ==> ',' !in cols[i]
    ensures RowToRecord(Join(cols, ',')) ==
      EventInput(Column(cols, 0), Column(cols, 1), Column(cols, 2), Column(cols, 3), Column(cols, 4))
    ensures |cols| >= 5 ==>
      RowToRecord(Join(cols, ',')) == EventInput(cols[0], cols[1], cols[2], cols[3], cols[4])
  {
    SplitJoin(cols, ',');
  }

  function Fields(e: EventInput): seq<string> {
    [e.name, e.contact, e.venue, e.description, e.eventDate]
  }

  /** The line an operator writes for `e`: its fields joined by commas. */
  function Serialize(e: EventInput): string {
    Join(Fields(e), ',')
  }

  /** A record that survives the trip through a file unchanged: no field holds
      a comma or a line break, and its line has no whitespace at either end. */
  predicate Importable(e: EventInput) {
    && (forall i :: 0 <= i < 5 ==> ',' !in Fields(e)[i] && '\n' !in Fields(e)[i])
    && IsTrimmed(Serialize(e))
  }

  /** A character that is neither the separator nor in any piece is not in the join. */
  lemma {:induction false} JoinAvoids(parts: seq<string>, sep: char, c: char)
    requires c != sep
    requires forall i :: 0 <= i < |parts| ==> c !in parts[i]
    ensures c !in Join(parts, sep)
  {
    if |parts| > 1 {
      JoinAvoids(parts[1..], sep, c);
    }
  }

  /** Every join of at least two pieces holds a separator, so is not empty. */
  lemma {:induction false} JoinHoldsSeparator(parts: seq<string>, sep: char)
    requires |parts| >= 2
    ensures sep in Join(parts, sep)
  {
    assert Join(parts, sep)[|parts[0]|] == sep;
  }

  /** Reading back the line of an importable record gives the record. */
  lemma {:induction false} RecordRoundTrip(e: EventInput)
    requires Importable(e)
    ensures RowToRecord(Serialize(e)) == e
  {
    RowColumns(Fields(e));
  }

  /** The lines written for a list of records, one each. */
  function SerializedLines(events: seq<EventInput>): (lines: seq<string>)
    ensures |lines| == |events|
    ensures forall i :: 0 <= i < |events| ==> lines[i] == Serialize(events[i])
  {
    seq(|events|, i requires 0 <= i < |events| => Serialize(events[i]))
  }

  /** A file made of a header line and one line per record. */
  function CsvText(header: string, events: seq<EventInput>): string {
    Join([header] + SerializedLines(events), '\n')
  }

  /** The lines of a text written as separator-free, trimmed, non-empty pieces
      are those pieces. */
  lemma {:induction false} LinesOfCleanJoin(xs: seq<string>)
    requires |xs| >= 1
    requires forall i :: 0 <= i < |xs| ==> '\n' !in xs[i] && xs[i] != "" && IsTrimmed(xs[i])
    ensures Lines(Join(xs, '\n')) == xs
  {
    LinesOfJoin(xs);
    assert TrimAll(xs) == xs by {
      forall i | 0 <= i < |xs| ensures TrimAll(xs)[i] == xs[i] {
        TrimOfTrimmed(xs[i]);
      }
    }
    DropEmptyKeepsNonEmpty(xs);
  }

  /** Round trip: writing importable records under any header and parsing the
      file gives back exactly those records, in order. */
  lemma {:induction false} ParseCsvRoundTrip(header: string, events: seq<EventInput>)
    requires header != "" && IsTrimmed(header) && '\n' !in header
    requires forall i :: 0 <= i < |events| ==> Importable(events[i])
    ensures ParseCsv(CsvText(header, events)) == events
  {
    var lines := [header] + SerializedLines(events);
    forall i | 0 <= i < |lines|
      ensures '\n' !in lines[i] && lines[i] != "" && IsTrimmed(lines[i])
    {
      if i > 0 {
        var e := events[i - 1];
        JoinAvoids(Fields(e), ',', '\n');
        JoinHoldsSeparator(Fields(e), ',');
      }
    }
    LinesOfCleanJoin(lines);
    forall i | 0 <= i < |events|
      ensures ParseCsv(CsvText(header, events))[i] == events[i]
    {
      assert lines[i + 1] == Serialize(events[i]);
      RecordRoundTrip(events[i]);
    }
  }

  /** The lines of a text written as separator-free pieces. */
  lemma {:induction false} LinesOfJoin(xs: seq<string>)
    requires |xs| >= 1
    requires forall i :: 0 <= i < |xs| ==> '\n' !in xs[i]
    ensures Lines(Join(xs, '\n')) == DropEmpty(TrimAll(xs))
  {
    SplitJoin(xs, '\n');
  }

  lemma {:induction false} TrimAllAppend(a: seq<string>, b: seq<string>)
    ensures TrimAll(a + b) == TrimAll(a) + TrimAll(b)
  {
  }

  /** A blank line trims to the empty string wherever it sits. */
  lemma {:induction false} TrimAllAroundBlank(before: seq<string>, blank: string, after: seq<string>)
    requires IsBlank(blank)
    ensures TrimAll(before + [blank] + after) == TrimAll(before) + [""] + TrimAll(after)
  {
    BlankIffTrimEmpty(blank);
    assert TrimAll([blank]) == [""];
    TrimAllAppend(before + [blank], after);
    TrimAllAppend(before, [blank]);
  }

  /** Filtering erases an empty string wherever it sits. */
  lemma {:induction false} DropEmptyAroundEmpty(a: seq<string>, b: seq<string>)
    ensures DropEmpty(a + [""] + b) == DropEmpty(a) + DropEmpty(b)
  {
    var e := DropEmpty([""]);
    assert e == [] by {
      assert [""][1..] == [];
    }
    calc {
      DropEmpty(a + [""] + b);
      { DropEmptyAppend(a + [""], b); }
      DropEmpty(a + [""]) + DropEmpty(b);
      { DropEmptyAppend(a, [""]); }
      DropEmpty(a) + e + DropEmpty(b);
    }
  }

  /** The lines of a file with a blank line inserted between two runs of lines. */
  lemma {:induction false} LinesAroundBlank(before: seq<string>, blank: string, after: seq<string>)
    requires IsBlank(blank) && '\n' !in blank
    requires forall i :: 0 <= i < |before| ==> '\n' !in before[i]
    requires forall i :: 0 <= i < |after| ==> '\n' !in after[i]
    ensures Lines(Join(before + [blank] + after, '\n')) == DropEmpty(TrimAll(before)) + DropEmpty(TrimAll(after))
  {
    LinesOfJoin(before + [blank] + after);
    TrimAllAroundBlank(before, blank, after);
    DropEmptyAroundEmpty(TrimAll(before), TrimAll(after));
  }

  /** The lines of a file made of two runs of lines are those of each run. */
  lemma {:induction false} LinesOfAppend(before: seq<string>, after: seq<string>)
    requires forall i :: 0 <= i < |before| ==> '\n' !in before[i]
    requires forall i :: 0 <= i < |after| ==> '\n' !in after[i]
    ensures Lines(Join(before + after, '\n')) == DropEmpty(TrimAll(before)) + DropEmpty(TrimAll(after))
  {
    if before + after == [] {
      EmptyFileHasNoLines();
    } else {
      LinesOfJoin(before + after);
      TrimAllAppend(before, after);
      DropEmptyAppend(TrimAll(before), TrimAll(after));
    }
  }

  /** An empty file has no lines: `"".split("\n")` is `[""]`, which the filter drops. */
  lemma EmptyFileHasNoLines()
    ensures Lines("") == []
  {
    LinesOfJoin([""]);
    assert TrimAll([""]) == [""] by {
      TrimOfTrimmed("");
    }
    assert DropEmpty([""]) == [] by {
      assert [""][1..] == [];
    }
  }

  /** A whitespace-only line anywhere in a file changes nothing. */
  lemma {:induction false} BlankLineIgnored(before: seq<string>, blank: string, after: seq<string>)
    requires IsBlank(blank) && '\n' !in blank
    requires forall i :: 0 <= i < |before| ==> '\n' !in before[i]
    requires forall i :: 0 <= i < |after| ==> '\n' !in after[i]
    ensures ParseCsv(Join(before + [blank] + after, '\n')) == ParseCsv(Join(before + after, '\n'))
  {
    LinesAroundBlank(before, blank, after);
    LinesOfAppend(before, after);
    SameLinesSameRecords(Join(before + [blank] + after, '\n'), Join(before + after, '\n'));
  }

  /** The records depend on the text only through its lines. */
  lemma SameLinesSameRecords(t1: string, t2: string)
    requires Lines(t1) == Lines(t2)
    ensures ParseCsv(t1) == ParseCsv(t2)
  {
  }

  /** The per-row check made before a bulk import: neither the name nor the
      date may trim to the empty string (see `BlankIffTrimEmpty`). */
  predicate RowComplete(e: EventInput)
    ensures RowComplete(e) ==> e.name != "" && e.eventDate != ""
  {
    !IsBlank(e.name) && !IsBlank(e.eventDate)
  }

  /** The 0-based index of the first incomplete row, if any. */
  function FirstIncompleteRow(rows: seq<EventInput>): (r: Option<nat>)
    ensures r.None? <==> forall j :: 0 <= j < |rows| ==> RowComplete(rows[j])
    ensures r.Some? ==> r.value < |rows| && !RowComplete(rows[r.value])
    ensures r.Some? ==> forall j :: 0 <= j < r.value ==> RowComplete(rows[j])
  {
    if rows == [] then None
    else if !RowComplete(rows[0]) then Some(0)
    else
      match FirstIncompleteRow(rows[1..])
      case None =>
        assert forall j :: 1 <= j < |rows| ==> rows[j] == rows[1..][j - 1];
        None
      case Some(k) =>
        assert forall j :: 1 <= j <= k ==> rows[j] == rows[1..][j - 1];
        Some(k + 1)
  }

  const RowAlertSuffix := ": \"Name\" and \"Event Date\" are required."

  /** The alert naming a rejected row by its 1-based number, which can be
      read back from the digits between the fixed prefix and suffix. */
  function MissingFieldsAlert(rowNumber: nat): (alert: string)
    ensures |alert| > 4 + |RowAlertSuffix|
    ensures alert[..4] == "Row "
    ensures alert[|alert| - |RowAlertSuffix|..] == RowAlertSuffix
    ensures var digits := alert[4..|alert| - |RowAlertSuffix|];
      (forall i :: 0 <= i < |digits| ==> '0' <= digits[i] <= '9') && DigitsValue(digits) == rowNumber
  {
    var d := Decimal(rowNumber);
    var alert := "Row " + d + RowAlertSuffix;
    assert alert[4..|alert| - |RowAlertSuffix|] == d;
    DecimalRoundTrip(rowNumber);
    alert
  }
}
