/** The text layout of the test report (create_pdf.py).  The reportlab
    canvas is not modelled: the font's string width is the parameter
    `width`, `textwrap.wrap`'s line count is the parameter `wrapLines`, and
    only the vertical position `y` and the pages are tracked. */
module Report {
  import opened Base
  import opened Text

  /** A field's `user_entry`: text typed by the operator or set by the
      program, or a number shown with two decimals and a unit
      (`f"{value:.2f}{unit}"`). */
  datatype Entry = Typed(text: string) | Shown(value: real, unit: string)

  /** One row of a test table; a key missing from the field's dictionary is
      None. */
  datatype Field = Field(name: string, expected: Option<string>, entry: Option<Entry>, status: Option<string>)

  datatype Table = Table(title: string, fields: seq<Field>)

  // ---------------------------------------------------------------------
  // Page geometry, in points on a letter page

  const PageHeight: int := 792
  /** `height - 50`: where every page starts. */
  const PageTop: int := PageHeight - 50
  /** A table or row that would end below this starts a new page. */
  const BottomMargin: int := 40
  const LineHeight: int := 12
  /** `draw_device_serial_number`: 15 to the line, 20 below it. */
  const SerialHeader: int := 35
  /** The table title and the column headers take 20 each. */
  const TitleGap: int := 20
  const HeaderGap: int := 20
  /** Where rows continue after a page break inside a table: serial number,
      repeated title and repeated headers. */
  const ContinuedTop: int := PageTop - SerialHeader - TitleGap - HeaderGap

  // ---------------------------------------------------------------------
  // draw_justified_text: greedy wrapping

  /** The wrapping loop's variables: the finished `lines` and `current_line`. */
  datatype WrapState = WrapState(lines: seq<seq<string>>, current: seq<string>)

  /** One word: it joins the current line when the joined text fits,
      otherwise the current line (possibly empty) is closed and the word
      starts the next one. */
  function WrapStep(s: WrapState, word: string, width: string -> real, maxWidth: real): WrapState {
    if width(Join(s.current + [word], " ")) <= maxWidth then s.(current := s.current + [word])
    else WrapState(s.lines + [s.current], [word])
  }

  function WrapScan(words: seq<string>, width: string -> real, maxWidth: real): WrapState
    decreases |words|
  {
    if words == [] then WrapState([], [])
    else WrapStep(WrapScan(words[..|words| - 1], width, maxWidth), words[|words| - 1], width, maxWidth)
  }

  /** The lines `draw_justified_text` draws: the closed lines and a
      non-empty last one. */
  function Wrap(words: seq<string>, width: string -> real, maxWidth: real): seq<seq<string>> {
    var s := WrapScan(words, width, maxWidth);
    if s.current != [] then s.lines + [s.current] else s.lines
  }

  /** The words of the lines, in order. */
  function Flatten(lines: seq<seq<string>>): seq<string>
    decreases |lines|
  {
    if lines == [] then [] else Flatten(lines[..|lines| - 1]) + lines[|lines| - 1]
  }

  lemma {:induction false} FlattenSnoc(lines: seq<seq<string>>, line: seq<string>)
    ensures Flatten(lines + [line]) == Flatten(lines) + line
  {
    assert (lines + [line])[..|lines|] == lines;
  }

  /** The current line is non-empty once a word has been seen. */
  lemma {:induction false} WrapScanCurrent(words: seq<string>, width: string -> real, maxWidth: real)
    ensures words != [] ==> WrapScan(words, width, maxWidth).current != []
  {
  }

  /** The scan loses no word and reorders none. */
  lemma {:induction false} WrapScanWords(words: seq<string>, width: string -> real, maxWidth: real)
    ensures var s := WrapScan(words, width, maxWidth); Flatten(s.lines) + s.current == words
    decreases |words|
  {
    if words != [] {
      var init, w := words[..|words| - 1], words[|words| - 1];
      WrapScanWords(init, width, maxWidth);
      var p := WrapScan(init, width, maxWidth);
      if width(Join(p.current + [w], " ")) <= maxWidth {
        calc {
          Flatten(p.lines) + (p.current + [w]);
          (Flatten(p.lines) + p.current) + [w];
          init + [w];
        }
      } else {
        FlattenSnoc(p.lines, p.current);
        calc {
          Flatten(p.lines + [p.current]) + [w];
          (Flatten(p.lines) + p.current) + [w];
          init + [w];
        }
      }
      assert init + [w] == words;
    }
  }

  /** Only the first line can be empty, and it is exactly when the first
      word alone is wider than the line. */
  lemma {:induction false} WrapScanEmptyLine(words: seq<string>, width: string -> real, maxWidth: real)
    ensures var s := WrapScan(words, width, maxWidth);
      (forall k :: 0 < k < |s.lines| ==> s.lines[k] != []) &&
      ((|s.lines| > 0 && s.lines[0] == []) <==> (words != [] && width(words[0]) > maxWidth))
    decreases |words|
  {
    if words != [] {
      var init := words[..|words| - 1];
      WrapScanEmptyLine(init, width, maxWidth);
      WrapScanCurrent(init, width, maxWidth);
      if init == [] {
        assert Join([] + [words[0]], " ") == words[0];
      } else {
        assert init[0] == words[0];
      }
    }
  }

  /** A line that took a second word fits, and so does the current one. */
  lemma {:induction false} WrapScanFits(words: seq<string>, width: string -> real, maxWidth: real)
    ensures var s := WrapScan(words, width, maxWidth);
      (forall k :: 0 <= k < |s.lines| && |s.lines[k]| >= 2 ==> width(Join(s.lines[k], " ")) <= maxWidth) &&
      (|s.current| >= 2 ==> width(Join(s.current, " ")) <= maxWidth)
    decreases |words|
  {
    if words != [] {
      WrapScanFits(words[..|words| - 1], width, maxWidth);
    }
  }

  /** The word after a closed line: the first of the next line. */
  function NextFirst(s: WrapState, k: nat): string
    requires k < |s.lines|
  {
    var next := if k + 1 < |s.lines| then s.lines[k + 1] else s.current;
    if next == [] then "" else next[0]
  }

  /** Greedy: every closed line was closed because the next word did not
      fit after it. */
  lemma {:induction false} WrapScanGreedy(words: seq<string>, width: string -> real, maxWidth: real)
    ensures var s := WrapScan(words, width, maxWidth);
      forall k :: 0 <= k < |s.lines| ==> width(Join(s.lines[k] + [NextFirst(s, k)], " ")) > maxWidth
    decreases |words|
  {
    if words != [] {
      var init := words[..|words| - 1];
      WrapScanGreedy(init, width, maxWidth);
      WrapScanCurrent(init, width, maxWidth);
      var p := WrapScan(init, width, maxWidth);
      var s := WrapScan(words, width, maxWidth);
      forall k | 0 <= k < |s.lines|
        ensures width(Join(s.lines[k] + [NextFirst(s, k)], " ")) > maxWidth
      {
        if k < |p.lines| {
          assert s.lines[k] == p.lines[k];
          if k + 1 == |p.lines| && |s.lines| == |p.lines| {
            assert s.current[0] == p.current[0];
          }
        }
      }
    }
  }

  /** Wrapping keeps every word once and in order. */
  lemma {:induction false} WrapKeepsWords(words: seq<string>, width: string -> real, maxWidth: real)
    ensures Flatten(Wrap(words, width, maxWidth)) == words
  {
    WrapScanWords(words, width, maxWidth);
    var s := WrapScan(words, width, maxWidth);
    FlattenSnoc(s.lines, s.current);
  }

  /** Only the first drawn line can be empty, exactly when the first word
      alone is too wide; there are no lines exactly when there are no
      words. */
  lemma {:induction false} WrapEmptyLines(words: seq<string>, width: string -> real, maxWidth: real)
    ensures var w := Wrap(words, width, maxWidth);
      (forall k :: 0 < k < |w| ==> w[k] != []) &&
      ((|w| > 0 && w[0] == []) <==> (words != [] && width(words[0]) > maxWidth)) &&
      (w == [] <==> words == [])
  {
    WrapScanCurrent(words, width, maxWidth);
    WrapScanEmptyLine(words, width, maxWidth);
  }

  /** Every drawn line of two or more words fits in `maxWidth`. */
  lemma {:induction false} WrapFits(words: seq<string>, width: string -> real, maxWidth: real)
    ensures var w := Wrap(words, width, maxWidth);
      forall k :: 0 <= k < |w| && |w[k]| >= 2 ==> width(Join(w[k], " ")) <= maxWidth
  {
    WrapScanFits(words, width, maxWidth);
  }

  /** Every drawn line but the last is as full as it can be: adding the
      next line's first word would make it too wide. */
  lemma {:induction false} WrapGreedy(words: seq<string>, width: string -> real, maxWidth: real)
    ensures var w := Wrap(words, width, maxWidth);
      forall k :: 0 <= k < |w| - 1 && w[k + 1] != [] ==> width(Join(w[k] + [w[k + 1][0]], " ")) > maxWidth
  {
    WrapScanGreedy(words, width, maxWidth);
    WrapScanCurrent(words, width, maxWidth);
    var s := WrapScan(words, width, maxWidth);
    var w := Wrap(words, width, maxWidth);
    forall k | 0 <= k < |w| - 1 && w[k + 1] != []
      ensures width(Join(w[k] + [w[k + 1][0]], " ")) > maxWidth
    {
      assert w[k] == s.lines[k];
      assert NextFirst(s, k) == w[k + 1][0];
    }
  }

  /** `draw_justified_text`: splits `text` at whitespace, wraps the words
      greedily and moves down one line height per drawn line; the drawing
      itself (justified spacing, the left-aligned last line) is not
      modelled. */
  method DrawJustifiedText(text: string, y: int, maxWidth: real, width: string -> real) returns (newY: int)
    ensures newY == y - LineHeight * |Wrap(Words(text), width, maxWidth)|
  {
    var words := Words(text);
    var lines: seq<seq<string>> := [];
    var current: seq<string> := [];
    for i := 0 to |words|
      invariant WrapScan(words[..i], width, maxWidth) == WrapState(lines, current)
    {
      assert words[..i + 1][..i] == words[..i];
      var testLine := Join(current + [words[i]], " ");
      if width(testLine) <= maxWidth {
        current := current + [words[i]];
      } else {
        lines := lines + [current];
        current := [words[i]];
      }
    }
    assert words[..|words|] == words;
    if current != [] {
      lines := lines + [current];
    }
    newY := y;
    for i := 0 to |lines|
      invariant newY == y - LineHeight * i
    {
      newY := newY - LineHeight;
    }
  }

  /** Justified text moves the position down exactly when it has a word. */
  lemma {:induction false} JustifiedTextMoves(text: string, width: string -> real, maxWidth: real)
    ensures |Wrap(Words(text), width, maxWidth)| == 0 <==> Words(text) == []
    ensures |Wrap(Words(text), width, maxWidth)| <= |Words(text)| + 1
  {
    WrapEmptyLines(Words(text), width, maxWidth);
    WrapKeepsWords(Words(text), width, maxWidth);
    WrapLineCount(Wrap(Words(text), width, maxWidth));
  }

  /** Lines of which only the first may be empty hold at least one word per
      line after the first. */
  lemma {:induction false} WrapLineCount(lines: seq<seq<string>>)
    requires forall k :: 0 < k < |lines| ==> lines[k] != []
    ensures |lines| <= |Flatten(lines)| + 1
    decreases |lines|
  {
    if lines != [] {
      WrapLineCount(lines[..|lines| - 1]);
    }
  }

  // ---------------------------------------------------------------------
  // draw_completion_summary

  const PendingMarker: string := "The following tests are still pending:"

  /** The completed part and the pending part of the summary. */
  function SplitSummary(summary: string): (string, string) {
    if Contains(summary, PendingMarker) then
      var parts := Split(summary, PendingMarker);
      (Strip(parts[0]), PendingMarker + " " + Strip(parts[1]))
    else (summary, "")
  }

  /** With the marker, the completed part is the stripped text before its
      first occurrence, and the pending part is the marker, a blank and the
      stripped text between the first occurrence and the next one (or the
      end); without it, the whole summary is the completed part and nothing
      is pending. */
  lemma {:induction false} SplitSummaryParts(summary: string)
    ensures var (completed, pending) := SplitSummary(summary);
      if Contains(summary, PendingMarker) then
        var i := Find(summary, PendingMarker).value;
        var after := summary[i + |PendingMarker|..];
        completed == Strip(summary[..i])
        && pending == PendingMarker + " " +
             Strip(if Contains(after, PendingMarker) then after[..Find(after, PendingMarker).value] else after)
      else completed == summary && pending == ""
  {
    SplitPieces(summary, PendingMarker);
    if Contains(summary, PendingMarker) {
      var i := Find(summary, PendingMarker).value;
      var after := summary[i + |PendingMarker|..];
      assert Split(summary, PendingMarker) == [summary[..i]] + Split(after, PendingMarker);
      SplitPieces(after, PendingMarker);
    }
  }

  // ---------------------------------------------------------------------
  // Chart titles

  /** The chart file name with its prefix, suffix and underscores removed,
      title-cased. */
  function ChartName(chart: string): string {
    Title(Replace(Replace(Replace(chart, "co2_sensor_", ""), "_chart.png", ""), "_", " "))
  }

  /** The page title of a chart: four fixed titles, checked in order, else
      the cleaned file name. */
  function ChartTitle(chart: string): string {
    var name := ChartName(chart);
    if Contains(Lower(name), "combined") then "Combined Graph Data"
    else if Contains(Lower(name), "co2 flow") then "CO2 Flow Data"
    else if Contains(Lower(name), "return baseline") then "Return Baseline Data"
    else if Contains(Lower(name), "baseline") then "Baseline Data"
    else name
  }

  /** Title-casing does not affect which title is chosen: the checks see
      the cleaned name in lower case. */
  lemma {:induction false} ChartTitleIgnoresCase(chart: string)
    ensures var plain := Lower(Replace(Replace(Replace(chart, "co2_sensor_", ""), "_chart.png", ""), "_", " "));
      ChartTitle(chart) ==
        if Contains(plain, "combined") then "Combined Graph Data"
        else if Contains(plain, "co2 flow") then "CO2 Flow Data"
        else if Contains(plain, "return baseline") then "Return Baseline Data"
        else if Contains(plain, "baseline") then "Baseline Data"
        else ChartName(chart)
  {
    LowerTitle(Replace(Replace(Replace(chart, "co2_sensor_", ""), "_chart.png", ""), "_", " "));
  }

  // ---------------------------------------------------------------------
  // Table rows and page breaks

  /** How many lines `textwrap.wrap` gives each wrapped column of a row. */
  datatype RowLines = RowLines(field: nat, expected: nat, entry: nat)

  /** The row is as tall as its tallest column. */
  function RowHeight(r: RowLines): (h: nat)
    ensures h >= LineHeight * r.field && h >= LineHeight * r.expected && h >= LineHeight * r.entry
    ensures h == LineHeight * r.field || h == LineHeight * r.expected || h == LineHeight * r.entry
  {
    var m := if r.field >= r.expected then r.field else r.expected;
    LineHeight * (if m >= r.entry then m else r.entry)
  }

  /** Where a row of height `h` is drawn: on a new page when it would end
      below the bottom margin. */
  function RowTop(y: int, h: nat): int {
    if y - h < BottomMargin then ContinuedTop else y
  }

  /** The position after a row: its height and 10 more below its top. */
  function RowAfter(y: int, h: nat): int {
    RowTop(y, h) - h - 10
  }

  function RowsEnd(y: int, rows: seq<RowLines>): int
    decreases |rows|
  {
    if rows == [] then y else RowAfter(RowsEnd(y, rows[..|rows| - 1]), RowHeight(rows[|rows| - 1]))
  }

  function RowBreaks(y: int, rows: seq<RowLines>): nat
    decreases |rows|
  {
    if rows == [] then 0
    else
      var before := RowsEnd(y, rows[..|rows| - 1]);
      RowBreaks(y, rows[..|rows| - 1]) + (if before - RowHeight(rows[|rows| - 1]) < BottomMargin then 1 else 0)
  }

  /** A row that fits on a continued page never ends below the bottom
      margin; a taller one starts at the top of a new page and does. */
  lemma {:induction false} RowPlacement(y: int, h: nat)
    ensures h <= ContinuedTop - BottomMargin ==> RowTop(y, h) - h >= BottomMargin
    ensures h > ContinuedTop - BottomMargin ==> RowTop(y, h) == ContinuedTop || RowTop(y, h) - h >= BottomMargin
  {
  }

  /** Without a page break the rows take their heights and 10 apart each. */
  lemma {:induction false} RowsWithoutBreak(y: int, rows: seq<RowLines>)
    requires RowBreaks(y, rows) == 0
    ensures RowsEnd(y, rows) == y - RowsTotal(rows)
    decreases |rows|
  {
    if rows != [] {
      RowsWithoutBreak(y, rows[..|rows| - 1]);
    }
  }

  /** The heights of the rows, 10 apart. */
  function RowsTotal(rows: seq<RowLines>): int
    decreases |rows|
  {
    if rows == [] then 0 else RowsTotal(rows[..|rows| - 1]) + RowHeight(rows[|rows| - 1]) + 10
  }

  /** The row loop: a page break repeats the serial number, the table title
      and the column headers; each row then moves down by its height and 10. */
  method DrawRows(y: int, rows: seq<RowLines>) returns (newY: int, breaks: nat)
    ensures newY == RowsEnd(y, rows) && breaks == RowBreaks(y, rows)
  {
    newY, breaks := y, 0;
    for i := 0 to |rows|
      invariant newY == RowsEnd(y, rows[..i]) && breaks == RowBreaks(y, rows[..i])
    {
      assert rows[..i + 1][..i] == rows[..i];
      var h := RowHeight(rows[i]);
      if newY - h < BottomMargin {
        newY := PageTop - SerialHeader;
        newY := newY - TitleGap - HeaderGap;
        breaks := breaks + 1;
      }
      newY := newY - h - 10;
    }
    assert rows[..|rows|] == rows;
  }

  // ---------------------------------------------------------------------
  // create_pdf

  /** The line counts of a field's row: `textwrap.wrap` of the name at 40
      columns, the expected result at 35 and the entry at 40; `show` is the
      entry's text. */
  function RowOf(f: Field, wrapLines: (string, nat) -> nat, show: Entry -> string): RowLines {
    RowLines(wrapLines(f.name, 40),
             wrapLines(if f.expected.Some? then f.expected.value else "", 35),
             wrapLines(if f.entry.Some? then show(f.entry.value) else "", 40))
  }

  function RowsOf(t: Table, wrapLines: (string, nat) -> nat, show: Entry -> string): (rows: seq<RowLines>)
    ensures |rows| == |t.fields|
  {
    seq(|t.fields|, k requires 0 <= k < |t.fields| => RowOf(t.fields[k], wrapLines, show))
  }

  /** `create_pdf`: the pages of the report, 0 when there is no table (no
      file is written).  The first page has the serial number, the
      previously completed tests, the note and the summary; then come the
      tables, each starting on a new page when less than the bottom margin
      is left; each chart takes one more page. */
  method CreatePdf(tables: seq<Table>, previousCompleted: seq<string>, note: string, summary: string,
                   charts: seq<string>, width: string -> real, wrapLines: (string, nat) -> nat,
                   show: Entry -> string)
    returns (pages: nat)
    ensures tables == [] <==> pages == 0
    ensures tables != [] ==> pages >= 1 + |charts|
  {
    if tables == [] {
      return 0;
    }
    var maxWidth: real := 512.0;
    pages := 1;
    var y := PageTop - SerialHeader;
    if previousCompleted != [] {
      y := y - 15 - LineHeight * |previousCompleted| - 10;
    }
    if note != "" {
      y := y - 15;
      y := DrawJustifiedText(note, y, maxWidth, width);
      y := y - 10;
    }
    var (completed, pending) := SplitSummary(summary);
    y := DrawJustifiedText(completed, y, maxWidth, width);
    y := y - 10;
    if pending != "" {
      y := DrawJustifiedText(pending, y, maxWidth, width);
    }
    y := y - 10;
    for t := 0 to |tables|
      invariant pages >= 1
    {
      if y < BottomMargin {
        pages := pages + 1;
        y := PageTop - SerialHeader;
      }
      y := y - TitleGap - HeaderGap;
      var breaks;
      y, breaks := DrawRows(y, RowsOf(tables[t], wrapLines, show));
      pages := pages + breaks;
    }
    pages := pages + |charts|;
  }
}
