/**
 The evidence ledger: rows of eight cells printed as a Markdown table and read
 back by a line scanner. The printer escapes; the scanner unescapes.
*/
module EvidenceLedger {
  import opened Common
  import opened Text

  datatype Error = BadSeparator | NoSeparator | BadColumns(count: nat) | NoHeader

  const TITLES := ["Research question", "Source fact", "Source title", "URL", "Published / updated", "Units",
      "Confidence", "Deck implication"]
  const COLUMNS := ["research question", "source fact", "source title", "url", "published / updated", "units",
      "confidence", "deck implication"]
  const LEDGER_HEADING := "provider-fetched evidence ledger"
  const VERIFIED_HEADING := "verified evidence ledger"

  datatype Envelope = Envelope(questions: seq<string>, evidence: seq<seq<string>>, excluded: seq<string>)

  predicate WellFormed(e: Envelope) { forall i :: 0 <= i < |e.evidence| ==> |e.evidence[i]| == 8 }

  // ---- Printing ---------------------------------------------------------------------------

  function Newlines(s: string): string { ReplaceAll(ReplaceAll(s, "\r\n", "\n"), "\r", "\n") }

  function Cell(value: string): string {
    var trimmed := Trim(Newlines(value));
    ReplaceAll(ReplaceAll(ReplaceAll(trimmed, "\\", "\\\\"), "|", "\\|"), "\n", "<br>")
  }

  /** What a reader is meant to see in a cell: trimmed, newlines as breaks, nothing else changed. */
  function Shown(value: string): string { ReplaceAll(Trim(Newlines(value)), "\n", "<br>") }

  function Cells(values: seq<string>): seq<string> { seq(|values|, i requires 0 <= i < |values| => Cell(values[i])) }

  function ShownRow(values: seq<string>): seq<string> {
    seq(|values|, i requires 0 <= i < |values| => Shown(values[i]))
  }

  function Row(cells: seq<string>): string { "| " + Join(cells, " | ") + " |" }

  function Bullets(items: seq<string>): seq<string> {
    seq(|items|, i requires 0 <= i < |items| => "- " + Cell(items[i]))
  }

  function RowLines(evidence: seq<seq<string>>): seq<string> {
    seq(|evidence|, i requires 0 <= i < |evidence| => Row(Cells(evidence[i])))
  }

  const SEPARATOR := "|" + Join(["---", "---", "---", "---", "---", "---", "---", "---"], "|") + "|"

  /** The printed lines, given the three headings and the two fixed table lines. */
  function LinesWith(e: Envelope, asked: string, heading: string, header: string, ruler: string,
      end: string): seq<string> {
    [asked] + Bullets(e.questions) + ["", heading, header, ruler] + RowLines(e.evidence) +
    ["", end] + (if e.excluded == [] then ["- None"] else Bullets(e.excluded))
  }

  function Lines(e: Envelope): seq<string> {
    LinesWith(e, "## Research questions", "## Provider-fetched evidence ledger", Row(TITLES), SEPARATOR,
        "## Excluded or unverified")
  }

  function Render(e: Envelope): string { Join(Lines(e), "\n") }

  // ---- Reading one line ----------------------------------------------------------------------

  datatype Scan = Scan(cells: seq<string>, cell: string, escaped: bool)

  function Step(s: Scan, c: char): Scan {
    if s.escaped then Scan(s.cells, s.cell + (if c != '|' && c != '\\' then "\\" else "") + [c], false)
    else if c == '\\' then s.(escaped := true)
    else if c == '|' then Scan(s.cells + [Trim(s.cell)], "", false)
    else s.(cell := s.cell + [c])
  }

  function Fold(s: Scan, line: string): Scan
    decreases line
  {
    if line == "" then s else Fold(Step(s, line[0]), line[1..])
  }

  function TrimBars(line: string): string {
    var left := if line != "" && line[0] == '|' then line[1..] else line;
    if left != "" && left[|left| - 1] == '|' then left[..|left| - 1] else left
  }

  function Close(s: Scan): seq<string> {
    s.cells + [Trim(if s.escaped then s.cell + "\\" else s.cell)]
  }

  function CellsOf(line: string): seq<string> { Close(Fold(Scan([], "", false), TrimBars(Trim(line)))) }

  lemma {:induction false} FoldConcat(s: Scan, x: string, y: string)
    ensures Fold(s, x + y) == Fold(Fold(s, x), y)
    decreases x
  {
    if x == "" {
      assert x + y == y;
    } else {
      assert (x + y)[1..] == x[1..] + y;
      FoldConcat(Step(s, x[0]), x[1..], y);
    }
  }

  /** The character loop over one table line. */
  method MarkdownCells(text: string) returns (cells: seq<string>)
    ensures cells == CellsOf(text)
  {
    var line := TrimBars(Trim(text));
    cells := [];
    var cell, escaped := "", false;
    for i := 0 to |line|
      invariant Scan(cells, cell, escaped) == Fold(Scan([], "", false), line[..i])
    {
      FoldConcat(Scan([], "", false), line[..i], [line[i]]);
      assert line[..i + 1] == line[..i] + [line[i]];
      FoldOne(Scan(cells, cell, escaped), line[i]);
      var character := line[i];
      if escaped {
        if character != '|' && character != '\\' { cell := cell + "\\"; }
        cell := cell + [character];
        escaped := false;
      } else if character == '\\' {
        escaped := true;
      } else if character == '|' {
        cells := cells + [Trim(cell)];
        cell := "";
      } else {
        cell := cell + [character];
      }
    }
    assert line[..|line|] == line;
    if escaped { cell := cell + "\\"; }
    cells := cells + [Trim(cell)];
  }

  lemma FoldOne(s: Scan, c: char)
    ensures Fold(s, [c]) == Step(s, c)
  {
    assert [c][1..] == "";
    assert Fold(Step(s, c), "") == Step(s, c);
  }

  // ---- Escaping is undone by scanning -----------------------------------------------------------

  function Escape(s: string): string {
    if s == "" then ""
    else (if s[0] == '\\' then "\\\\" else if s[0] == '|' then "\\|" else [s[0]]) + Escape(s[1..])
  }

  lemma FoldTwo(s: Scan, c: char)
    requires !s.escaped && (c == '\\' || c == '|')
    ensures Fold(s, ['\\', c]) == s.(cell := s.cell + [c])
  {
    assert ['\\', c][1..] == [c];
    FoldOne(s.(escaped := true), c);
    assert "" + [c] == [c] && s.cell + "" == s.cell;
  }

  /** Scanning an escaped text appends the text, whatever it contains. */
  lemma {:induction false} ScanEscaped(s: Scan, text: string)
    requires !s.escaped
    ensures Fold(s, Escape(text)) == s.(cell := s.cell + text)
    decreases text
  {
    if text == "" {
      assert s.cell + text == s.cell;
    } else {
      var head := if text[0] == '\\' then "\\\\" else if text[0] == '|' then "\\|" else [text[0]];
      var next := s.(cell := s.cell + [text[0]]);
      assert Fold(s, head) == next by {
        if text[0] == '\\' || text[0] == '|' { FoldTwo(s, text[0]); } else { FoldOne(s, text[0]); }
      }
      FoldConcat(s, head, Escape(text[1..]));
      ScanEscaped(next, text[1..]);
      assert next.cell + text[1..] == s.cell + text by { assert [text[0]] + text[1..] == text; }
    }
  }

  lemma {:induction false} EscapeConcat(x: string, y: string)
    ensures Escape(x + y) == Escape(x) + Escape(y)
  {
    if x == "" {
      assert x + y == y;
    } else {
      assert (x + y)[1..] == x[1..] + y;
      EscapeConcat(x[1..], y);
    }
  }

  function Trims(texts: seq<string>): seq<string> { seq(|texts|, i requires 0 <= i < |texts| => Trim(texts[i])) }

  function Escapes(texts: seq<string>): seq<string> { seq(|texts|, i requires 0 <= i < |texts| => Escape(texts[i])) }

  /** Escaped texts joined by bars scan back as the trimmed texts. */
  lemma {:induction false} ScanJoined(s: Scan, texts: seq<string>)
    requires !s.escaped && s.cell == "" && texts != []
    ensures Close(Fold(s, Join(Escapes(texts), "|"))) == s.cells + Trims(texts)
    decreases texts
  {
    if |texts| == 1 {
      ScanFirst(s, texts[0]);
      assert Escapes(texts) == [Escape(texts[0])] && Trims(texts) == [Trim(texts[0])];
    } else {
      JoinEscapes(texts);
      ScanBar(s, texts[0], Join(Escapes(texts[1..]), "|"));
      ScanJoined(Scan(s.cells + [Trim(texts[0])], "", false), texts[1..]);
      TrimsFront(s.cells, texts);
    }
  }

  lemma JoinEscapes(texts: seq<string>)
    requires |texts| > 1
    ensures Join(Escapes(texts), "|") == Escape(texts[0]) + "|" + Join(Escapes(texts[1..]), "|")
  {
    assert Escapes(texts)[1..] == Escapes(texts[1..]);
  }

  lemma TrimsFront(cells: seq<string>, texts: seq<string>)
    requires texts != []
    ensures cells + [Trim(texts[0])] + Trims(texts[1..]) == cells + Trims(texts)
  {
  }

  lemma ScanFirst(s: Scan, text: string)
    requires !s.escaped && s.cell == ""
    ensures Fold(s, Escape(text)) == s.(cell := text)
  {
    ScanEscaped(s, text);
    assert "" + text == text;
  }

  /** An escaped text and a bar close one cell. */
  lemma ScanBar(s: Scan, text: string, rest: string)
    requires !s.escaped && s.cell == ""
    ensures Fold(s, Escape(text) + "|" + rest) == Fold(Scan(s.cells + [Trim(text)], "", false), rest)
  {
    FoldConcat(s, Escape(text) + "|", rest);
    FoldConcat(s, Escape(text), "|");
    ScanFirst(s, text);
    FoldOne(s.(cell := text), '|');
  }

  function Pads(texts: seq<string>): seq<string> { seq(|texts|, i requires 0 <= i < |texts| => " " + texts[i] + " ") }

  lemma {:induction false} JoinPadded(cells: seq<string>)
    requires cells != []
    ensures " " + Join(cells, " | ") + " " == Join(Pads(cells), "|")
  {
    if |cells| > 1 {
      JoinPadded(cells[1..]);
      assert Pads(cells)[1..] == Pads(cells[1..]);
    }
  }

  lemma BarsOff(inner: string)
    ensures TrimBars(Trim("|" + inner + "|")) == inner
  {
    var line := "|" + inner + "|";
    TidyIsTrimmed(line);
    assert line[1..] == inner + "|" && (inner + "|")[..|inner|] == inner;
  }

  lemma EscapePadded(text: string)
    ensures Escape(" " + text + " ") == " " + Escape(text) + " "
  {
    EscapeConcat(" " + text, " ");
    EscapeConcat(" ", text);
    assert Escape(" ") == " " by { assert " "[1..] == "" && Escape("") == ""; }
  }

  /** A table line of escaped, tidy texts reads back as those texts. */
  lemma RowReadsBack(texts: seq<string>)
    requires texts != [] && forall i :: 0 <= i < |texts| ==> Tidy(texts[i])
    ensures CellsOf(Row(Escapes(texts))) == texts
  {
    var inner := " " + Join(Escapes(texts), " | ") + " ";
    assert Row(Escapes(texts)) == "|" + inner + "|";
    BarsOff(inner);
    JoinPadded(Escapes(texts));
    forall i | 0 <= i < |texts| ensures Escapes(Pads(texts))[i] == Pads(Escapes(texts))[i] { EscapePadded(texts[i]); }
    assert Escapes(Pads(texts)) == Pads(Escapes(texts));
    ScanJoined(Scan([], "", false), Pads(texts));
    forall i | 0 <= i < |texts| ensures Trims(Pads(texts))[i] == texts[i] { TrimPadded(texts[i]); }
    assert [] + Trims(Pads(texts)) == texts;
  }

  // ---- A printed cell is the escape of what it shows ----------------------------------------------

  lemma {:induction false} CellOfChar(c: char)
    ensures ReplaceAll(ReplaceAll(ReplaceAll([c], "\\", "\\\\"), "|", "\\|"), "\n", "<br>") ==
        Escape(ReplaceAll([c], "\n", "<br>"))
  {
    ReplaceOne(c, '\\', "\\\\");
    ReplaceOne(c, '|', "\\|");
    ReplaceOne(c, '\n', "<br>");
    assert Escape([c]) == if c == '\\' then "\\\\" else if c == '|' then "\\|" else [c] by {
      assert [c][1..] == "" && Escape("") == "";
    }
    if c == '\\' {
      DoubleStays('\\', '|', "\\|");
      DoubleStays('\\', '\n', "<br>");
    } else if c == '|' {
      BarStays();
    } else if c == '\n' {
      BreakIsPlain();
    }
  }

  lemma DoubleStays(x: char, c: char, new_: string)
    requires x != c
    ensures ReplaceAll([x, x], [c], new_) == [x, x]
  {
    ReplaceOne(x, c, new_);
    ReplaceCharConcat([x], [x], c, new_);
    assert [x] + [x] == [x, x];
  }

  lemma BarStays()
    ensures ReplaceAll("\\|", "\n", "<br>") == "\\|"
  {
    ReplaceOne('\\', '\n', "<br>");
    ReplaceOne('|', '\n', "<br>");
    ReplaceCharConcat("\\", "|", '\n', "<br>");
    assert "\\" + "|" == "\\|";
  }

  lemma BreakIsPlain()
    ensures Escape("<br>") == "<br>"
  {
    PlainEscape("<br>");
  }

  lemma {:induction false} PlainEscape(s: string)
    requires '\\' !in s && '|' !in s
    ensures Escape(s) == s
  {
    if s != "" {
      assert s[0] in s && forall c :: c in s[1..] ==> c in s;
      PlainEscape(s[1..]);
      assert [s[0]] + s[1..] == s;
    }
  }

  /** The three replacements of the printer, in their order, are one escape of the shown text. */
  lemma {:induction false} ReplacementsEscape(t: string)
    ensures ReplaceAll(ReplaceAll(ReplaceAll(t, "\\", "\\\\"), "|", "\\|"), "\n", "<br>") ==
        Escape(ReplaceAll(t, "\n", "<br>"))
  {
    if t != "" {
      var c := t[0];
      var rest := t[1..];
      assert t == [c] + rest;
      ReplacementsEscape(rest);
      CellOfChar(c);
      ReplaceCharConcat([c], rest, '\\', "\\\\");
      ReplaceCharConcat(ReplaceAll([c], "\\", "\\\\"), ReplaceAll(rest, "\\", "\\\\"), '|', "\\|");
      ReplaceCharConcat(ReplaceAll(ReplaceAll([c], "\\", "\\\\"), "|", "\\|"),
          ReplaceAll(ReplaceAll(rest, "\\", "\\\\"), "|", "\\|"), '\n', "<br>");
      ReplaceCharConcat([c], rest, '\n', "<br>");
      EscapeConcat(ReplaceAll([c], "\n", "<br>"), ReplaceAll(rest, "\n", "<br>"));
    }
  }

  lemma CellIsEscaped(value: string)
    ensures Cell(value) == Escape(Shown(value))
  {
    ReplacementsEscape(Trim(Newlines(value)));
  }

  lemma {:induction false} BreaksTidy(t: string)
    ensures var r := ReplaceAll(t, "\n", "<br>");
            && '\n' !in r
            && (t != "" ==> r != "" && r[0] == (if t[0] == '\n' then '<' else t[0])
                               && r[|r| - 1] == (if t[|t| - 1] == '\n' then '>' else t[|t| - 1]))
  {
    if t != "" {
      BreaksTidy(t[1..]);
      assert t == [t[0]] + t[1..];
      ReplaceOne(t[0], '\n', "<br>");
      ReplaceCharConcat([t[0]], t[1..], '\n', "<br>");
    }
  }

  lemma ShownIsTidy(value: string)
    ensures Tidy(Shown(value)) && '\n' !in Shown(value)
  {
    TrimIsTidy(Newlines(value));
    BreaksTidy(Trim(Newlines(value)));
  }

  // ---- Reading the whole body ------------------------------------------------------------------------

  datatype Ledger = Ledger(inSection: bool, foundHeader: bool, wantSeparator: bool, rows: seq<seq<string>>)

  datatype Progress = Go(ledger: Ledger) | Leave | Bad(error: Error)

  const START := Ledger(false, false, false, [])

  function TrimHashes(s: string): string {
    if s == "" || s[0] != '#' then s else TrimHashes(s[1..])
  }

  function TrimEnds(s: string, c: char): string {
    if s == "" then s
    else if s[0] == c then TrimEnds(s[1..], c)
    else if s[|s| - 1] == c then TrimEnds(s[..|s| - 1], c)
    else s
  }

  predicate EvidenceHeading(trimmed: string) {
    var heading := Lower(Trim(TrimHashes(trimmed)));
    heading == LEDGER_HEADING || heading == VERIFIED_HEADING
  }

  function Lowers(cells: seq<string>): seq<string> { seq(|cells|, i requires 0 <= i < |cells| => Lower(cells[i])) }

  predicate IsHeader(cells: seq<string>) { Lowers(cells) == COLUMNS }

  predicate Dashes(cell: string) {
    var separator := TrimEnds(Trim(cell), ':');
    |separator| >= 3 && TrimEnds(separator, '-') == ""
  }

  predicate IsSeparator(cells: seq<string>) { |cells| == 8 && forall i :: 0 <= i < |cells| ==> Dashes(cells[i]) }

  predicate TableLine(trimmed: string) { trimmed != "" && trimmed[0] == '|' && trimmed[|trimmed| - 1] == '|' }

  function ReadLine(st: Ledger, line: string): Progress {
    var trimmed := Trim(line);
    if trimmed != "" && trimmed[0] == '#' then
      if st.inSection && !EvidenceHeading(trimmed) then Leave else Go(st.(inSection := EvidenceHeading(trimmed)))
    else if !st.inSection || !TableLine(trimmed) then Go(st)
    else ReadCells(st, CellsOf(trimmed))
  }

  function ReadCells(st: Ledger, cells: seq<string>): Progress {
    if !st.foundHeader then Go(if IsHeader(cells) then st.(foundHeader := true, wantSeparator := true) else st)
    else if st.wantSeparator then if IsSeparator(cells) then Go(st.(wantSeparator := false)) else Bad(BadSeparator)
    else if |cells| != 8 then Bad(BadColumns(|cells|))
    else Go(st.(rows := st.rows + [cells]))
  }

  function ReadFrom(st: Ledger, lines: seq<string>): Result<Ledger, Error>
    decreases lines
  {
    if lines == [] then Ok(st)
    else
      match ReadLine(st, lines[0])
      case Go(next) => ReadFrom(next, lines[1..])
      case Leave => Ok(st)
      case Bad(e) => Err(e)
  }

  function RowsOf(body: string): Result<seq<seq<string>>, Error> {
    match ReadFrom(START, Split(body, '\n'))
    case Err(e) => Err(e)
    case Ok(st) => if !st.foundHeader then Err(NoHeader) else if st.wantSeparator then Err(NoSeparator) else Ok(st.rows)
  }

  /** The line scanner. Whatever the body, every row it accepts has exactly the eight columns. */
  method LedgerRows(body: string) returns (r: Result<seq<seq<string>>, Error>)
    ensures r == RowsOf(body)
    ensures r.Ok? ==> forall i :: 0 <= i < |r.value| ==> |r.value[i]| == 8
  {
    var lines := Split(body, '\n');
    var inSection, foundHeader, wantSeparator := false, false, false;
    var rows: seq<seq<string>> := [];
    var i := 0;
    while i < |lines|
      invariant i <= |lines|
      invariant ReadFrom(START, lines) == ReadFrom(Ledger(inSection, foundHeader, wantSeparator, rows), lines[i..])
      invariant forall k :: 0 <= k < |rows| ==> |rows[k]| == 8
    {
      var trimmed := Trim(lines[i]);
      assert lines[i..][0] == lines[i] && lines[i..][1..] == lines[i + 1..];
      i := i + 1;
      if trimmed != "" && trimmed[0] == '#' {
        if inSection && !EvidenceHeading(trimmed) { break; }
        inSection := EvidenceHeading(trimmed);
        continue;
      }
      if !inSection || !TableLine(trimmed) { continue; }
      var cells := MarkdownCells(trimmed);
      if !foundHeader {
        if IsHeader(cells) { foundHeader, wantSeparator := true, true; }
        continue;
      }
      if wantSeparator {
        wantSeparator := false;
        if !IsSeparator(cells) { return Err(BadSeparator); }
        continue;
      }
      if |cells| != 8 { return Err(BadColumns(|cells|)); }
      rows := rows + [cells];
    }
    if !foundHeader { return Err(NoHeader); }
    if wantSeparator { return Err(NoSeparator); }
    return Ok(rows);
  }

  // ---- Reading back what was printed ---------------------------------------------------------------------

  lemma {:induction false} TrimHead(line: string)
    requires line != "" && !IsSpace(line[0])
    ensures Trim(line) != "" && Trim(line)[0] == line[0]
  {
    TrimRightHead(line);
  }

  lemma BulletIsSkipped(st: Ledger, item: string)
    ensures ReadLine(st, "- " + item) == Go(st)
  {
    TrimHead("- " + item);
  }

  lemma {:induction false} SkipLines(st: Ledger, skipped: seq<string>, rest: seq<string>)
    requires forall i :: 0 <= i < |skipped| ==> ReadLine(st, skipped[i]) == Go(st)
    ensures ReadFrom(st, skipped + rest) == ReadFrom(st, rest)
  {
    if skipped == [] {
      assert skipped + rest == rest;
    } else {
      assert (skipped + rest)[1..] == skipped[1..] + rest;
      SkipLines(st, skipped[1..], rest);
    }
  }

  lemma HeadingLine(title: string)
    requires Tidy(title) && title != "" && title[0] != '#'
    ensures var line := "## " + title; Trim(line) == line && Trim(TrimHashes(line)) == title
  {
    var line := "## " + title;
    TidyIsTrimmed(line);
    var one := line[1..];
    var two := one[1..];
    assert one == "# " + title && two == " " + title;
    assert TrimHashes(line) == TrimHashes(one) == TrimHashes(two) == two;
    assert two[1..] == title;
    TidyIsTrimmed(title);
    assert TrimLeft(two) == TrimLeft(title) == title;
  }

  lemma LowerLedgerHeading()
    ensures Lower("Provider-fetched evidence ledger") == LEDGER_HEADING
  {
  }

  /** A second-level heading opens the ledger section, or closes an open one. */
  lemma HeadingReads(st: Ledger, title: string)
    requires Tidy(title) && title != "" && title[0] != '#'
    ensures Lower(title) == LEDGER_HEADING ==> ReadLine(st, "## " + title) == Go(st.(inSection := true))
    ensures |title| != |LEDGER_HEADING| && |title| != |VERIFIED_HEADING| ==>
              ReadLine(st, "## " + title) == if st.inSection then Leave else Go(st)
  {
    HeadingLine(title);
    assert |Lower(title)| == |title|;
  }

  lemma RowIsTableLine(cells: seq<string>)
    ensures Trim(Row(cells)) == Row(cells) && TableLine(Row(cells)) && Row(cells)[0] != '#'
  {
    TidyIsTrimmed(Row(cells));
  }

  lemma EvidenceRowReads(st: Ledger, values: seq<string>)
    requires |values| == 8 && st.inSection && st.foundHeader && !st.wantSeparator
    ensures ReadLine(st, Row(Cells(values))) == Go(st.(rows := st.rows + [ShownRow(values)]))
  {
    forall i | 0 <= i < 8 ensures Cells(values)[i] == Escapes(ShownRow(values))[i] && Tidy(ShownRow(values)[i]) {
      CellIsEscaped(values[i]);
      ShownIsTidy(values[i]);
    }
    assert Cells(values) == Escapes(ShownRow(values));
    RowReadsBack(ShownRow(values));
    RowIsTableLine(Cells(values));
  }

  function ShownRows(evidence: seq<seq<string>>): seq<seq<string>> {
    seq(|evidence|, i requires 0 <= i < |evidence| => ShownRow(evidence[i]))
  }

  lemma RowLinesFront(evidence: seq<seq<string>>, rest: seq<string>)
    requires evidence != []
    ensures RowLines(evidence) + rest == [Row(Cells(evidence[0]))] + (RowLines(evidence[1..]) + rest)
    ensures ShownRows(evidence) == [ShownRow(evidence[0])] + ShownRows(evidence[1..])
  {
  }

  lemma {:induction false} EvidenceRowsRead(st: Ledger, evidence: seq<seq<string>>, rest: seq<string>)
    requires st.inSection && st.foundHeader && !st.wantSeparator
    requires forall i :: 0 <= i < |evidence| ==> |evidence[i]| == 8
    ensures ReadFrom(st, RowLines(evidence) + rest) == ReadFrom(st.(rows := st.rows + ShownRows(evidence)), rest)
    decreases evidence
  {
    if evidence == [] {
      assert RowLines(evidence) + rest == rest && st.rows + ShownRows(evidence) == st.rows;
    } else {
      RowLinesFront(evidence, rest);
      var next := st.(rows := st.rows + [ShownRow(evidence[0])]);
      assert ReadFrom(st, [Row(Cells(evidence[0]))] + (RowLines(evidence[1..]) + rest)) ==
          ReadFrom(next, RowLines(evidence[1..]) + rest) by {
        EvidenceRowReads(st, evidence[0]);
        ReadOne(st, Row(Cells(evidence[0])), RowLines(evidence[1..]) + rest);
      }
      EvidenceRowsRead(next, evidence[1..], rest);
      RowsRegroup(st.rows, ShownRow(evidence[0]), ShownRows(evidence[1..]));
    }
  }

  lemma RowsRegroup(x: seq<seq<string>>, y: seq<string>, z: seq<seq<string>>)
    ensures x + [y] + z == x + ([y] + z)
  {
  }

  predicate PlainText(t: string) { Tidy(t) && '\\' !in t && '|' !in t && '\n' !in t }

  lemma TitlesArePlain()
    ensures forall i :: 0 <= i < |TITLES| ==> PlainText(TITLES[i])
  {
    assert PlainText("Research question");
    assert PlainText("Source fact");
    assert PlainText("Source title");
    assert PlainText("URL");
    assert PlainText("Published / updated");
    assert PlainText("Units");
    assert PlainText("Confidence");
    assert PlainText("Deck implication");
  }

  lemma TitlesAreColumns()
    ensures Lowers(TITLES) == COLUMNS
  {
    assert Lower("Research question") == "research question";
    assert Lower("Source fact") == "source fact";
    assert Lower("Source title") == "source title";
    assert Lower("URL") == "url";
    assert Lower("Published / updated") == "published / updated";
    assert Lower("Units") == "units";
    assert Lower("Confidence") == "confidence";
    assert Lower("Deck implication") == "deck implication";
  }

  lemma HeaderReads(st: Ledger, titles: seq<string>)
    requires st.inSection && !st.foundHeader && titles != [] && Lowers(titles) == COLUMNS
    requires forall i :: 0 <= i < |titles| ==> PlainText(titles[i])
    ensures ReadLine(st, Row(titles)) == Go(st.(foundHeader := true, wantSeparator := true))
  {
    forall i | 0 <= i < |titles| ensures Escapes(titles)[i] == titles[i] { PlainEscape(titles[i]); }
    assert Escapes(titles) == titles;
    RowReadsBack(titles);
    RowIsTableLine(titles);
  }

  const DASHES := ["---", "---", "---", "---", "---", "---", "---", "---"]

  lemma DashesAreDashes()
    ensures Dashes("---") && Trim("---") == "---" && Escape("---") == "---"
  {
    TidyIsTrimmed("---");
    PlainEscape("---");
    var d := "---";
    assert TrimEnds(d, ':') == d;
    assert d[1..] == "--" && d[1..][1..] == "-" && d[1..][1..][1..] == "";
    assert TrimEnds(d, '-') == TrimEnds(d[1..], '-') == TrimEnds(d[1..][1..], '-') == TrimEnds(d[1..][1..][1..], '-');
  }

  lemma SeparatorCells(dashes: seq<string>, d: string)
    requires dashes != [] && Escape(d) == d && Trim(d) == d && forall i :: 0 <= i < |dashes| ==> dashes[i] == d
    ensures CellsOf("|" + Join(dashes, "|") + "|") == dashes
  {
    BarsOff(Join(dashes, "|"));
    assert Escapes(dashes) == dashes;
    assert Trims(dashes) == dashes;
    ScanJoined(Scan([], "", false), dashes);
    assert [] + dashes == dashes;
  }

  lemma BarredLine(inner: string)
    ensures var line := "|" + inner + "|"; Trim(line) == line && TableLine(line)
  {
    TidyIsTrimmed("|" + inner + "|");
  }

  lemma RulerReads(st: Ledger, line: string, cells: seq<string>)
    requires st.inSection && st.foundHeader && st.wantSeparator
    requires Trim(line) == line && TableLine(line) && CellsOf(line) == cells && IsSeparator(cells)
    ensures ReadLine(st, line) == Go(st.(wantSeparator := false))
  {
  }

  lemma SeparatorReads(st: Ledger)
    requires st.inSection && st.foundHeader && st.wantSeparator
    ensures ReadLine(st, SEPARATOR) == Go(st.(wantSeparator := false))
  {
    DashesAreDashes();
    SeparatorCells(DASHES, "---");
    BarredLine(Join(DASHES, "|"));
    RulerReads(st, SEPARATOR, DASHES);
  }

  lemma {:induction false} BulletsAreSkipped(st: Ledger, items: seq<string>, rest: seq<string>)
    ensures ReadFrom(st, Bullets(items) + rest) == ReadFrom(st, rest)
  {
    forall i | 0 <= i < |items| ensures ReadLine(st, Bullets(items)[i]) == Go(st) {
      BulletIsSkipped(st, Cell(items[i]));
    }
    SkipLines(st, Bullets(items), rest);
  }

  lemma ReadOne(st: Ledger, line: string, rest: seq<string>)
    ensures ReadLine(st, line).Go? ==> ReadFrom(st, [line] + rest) == ReadFrom(ReadLine(st, line).ledger, rest)
    ensures ReadLine(st, line).Leave? ==> ReadFrom(st, [line] + rest) == Ok(st)
  {
    assert ([line] + rest)[1..] == rest;
  }

  lemma BlankIsSkipped(st: Ledger, rest: seq<string>)
    ensures ReadFrom(st, [""] + rest) == ReadFrom(st, rest)
  {
    ReadOne(st, "", rest);
  }

  lemma ReadTwo(st: Ledger, line: string, next: Ledger, rest: seq<string>)
    requires ReadLine(st, line) == Go(next)
    ensures ReadFrom(st, [line] + rest) == ReadFrom(next, rest)
  {
    ReadOne(st, line, rest);
  }

  const OPEN := Ledger(true, false, false, [])
  const HEADED := Ledger(true, true, true, [])
  const RULED := Ledger(true, true, false, [])

  lemma ReadLast(st: Ledger, end: string, rest: seq<string>)
    requires ReadLine(st, end) == Leave
    ensures ReadFrom(st, [""] + ([end] + rest)) == Ok(st)
  {
    BlankIsSkipped(st, [end] + rest);
    ReadOne(st, end, rest);
  }

  lemma TableReads(evidence: seq<seq<string>>, end: string, rest: seq<string>)
    requires forall i :: 0 <= i < |evidence| ==> |evidence[i]| == 8
    requires ReadLine(Ledger(true, true, false, ShownRows(evidence)), end) == Leave
    ensures ReadFrom(RULED, RowLines(evidence) + ([""] + ([end] + rest))) ==
        Ok(Ledger(true, true, false, ShownRows(evidence)))
  {
    EvidenceRowsRead(RULED, evidence, [""] + ([end] + rest));
    assert [] + ShownRows(evidence) == ShownRows(evidence);
    ReadLast(Ledger(true, true, false, ShownRows(evidence)), end, rest);
  }

  /** The ledger section, from the blank line before its heading on. */
  lemma SectionReads(heading: string, header: string, ruler: string, table: seq<string>, out: Result<Ledger, Error>)
    requires ReadLine(START, heading) == Go(OPEN) && ReadLine(OPEN, header) == Go(HEADED)
        && ReadLine(HEADED, ruler) == Go(RULED)
    requires ReadFrom(RULED, table) == out
    ensures ReadFrom(START, [""] + ([heading] + ([header] + ([ruler] + table)))) == out
  {
    BlankIsSkipped(START, [heading] + ([header] + ([ruler] + table)));
    ReadTwo(START, heading, OPEN, [header] + ([ruler] + table));
    ReadTwo(OPEN, header, HEADED, [ruler] + table);
    ReadTwo(HEADED, ruler, RULED, table);
  }

  lemma LinesGrouped(e: Envelope, asked: string, heading: string, header: string, ruler: string, end: string,
      rest: seq<string>)
    requires rest == if e.excluded == [] then ["- None"] else Bullets(e.excluded)
    ensures LinesWith(e, asked, heading, header, ruler, end) ==
            [asked] + (Bullets(e.questions) + ([""] + ([heading] + ([header] + ([ruler] +
            (RowLines(e.evidence) + ([""] + ([end] + rest))))))))
  {
  }

  lemma LinesRead(e: Envelope, asked: string, heading: string, header: string, ruler: string, end: string)
    requires WellFormed(e) && ReadLine(START, asked) == Go(START)
    requires ReadLine(START, heading) == Go(OPEN) && ReadLine(OPEN, header) == Go(HEADED)
        && ReadLine(HEADED, ruler) == Go(RULED)
    requires ReadLine(Ledger(true, true, false, ShownRows(e.evidence)), end) == Leave
    ensures ReadFrom(START, LinesWith(e, asked, heading, header, ruler, end)) ==
        Ok(Ledger(true, true, false, ShownRows(e.evidence)))
  {
    var rest := if e.excluded == [] then ["- None"] else Bullets(e.excluded);
    LinesGrouped(e, asked, heading, header, ruler, end, rest);
    var table := RowLines(e.evidence) + ([""] + ([end] + rest));
    var section := [""] + ([heading] + ([header] + ([ruler] + table)));
    ReadTwo(START, asked, START, Bullets(e.questions) + section);
    BulletsAreSkipped(START, e.questions, section);
    TableReads(e.evidence, end, rest);
    SectionReads(heading, header, ruler, table, Ok(Ledger(true, true, false, ShownRows(e.evidence))));
  }

  lemma AskedHeadingReads()
    ensures ReadLine(START, "## Research questions") == Go(START)
  {
    var title := "Research questions";
    assert "## " + title == "## Research questions" && Tidy(title);
    HeadingReads(START, title);
  }

  lemma LedgerHeadingReads()
    ensures ReadLine(START, "## Provider-fetched evidence ledger") == Go(OPEN)
  {
    var title := "Provider-fetched evidence ledger";
    assert "## " + title == "## Provider-fetched evidence ledger" && Tidy(title);
    LowerLedgerHeading();
    HeadingReads(START, title);
  }

  lemma EndHeadingReads(st: Ledger)
    requires st.inSection
    ensures ReadLine(st, "## Excluded or unverified") == Leave
  {
    var title := "Excluded or unverified";
    assert "## " + title == "## Excluded or unverified" && Tidy(title);
    HeadingReads(st, title);
  }

  lemma HeaderLineReads()
    ensures ReadLine(OPEN, Row(TITLES)) == Go(HEADED)
  {
    TitlesArePlain();
    TitlesAreColumns();
    HeaderReads(OPEN, TITLES);
  }

  /** Reading a printed envelope gives exactly its rows, in order, each cell as shown: for any text in the
      cells, the questions and the exclusions, backslashes, bars and newlines included. */
  lemma PrintedLedgerReadsBack(e: Envelope)
    requires WellFormed(e)
    ensures RowsOf(Render(e)) == Ok(ShownRows(e.evidence))
  {
    LinesAreLines(e);
    SplitJoin(Lines(e), '\n');
    AskedHeadingReads();
    LedgerHeadingReads();
    HeaderLineReads();
    SeparatorReads(HEADED);
    EndHeadingReads(Ledger(true, true, false, ShownRows(e.evidence)));
    LinesRead(e, "## Research questions", "## Provider-fetched evidence ledger", Row(TITLES), SEPARATOR,
        "## Excluded or unverified");
  }

  lemma {:induction false} EscapeNoNewline(s: string)
    requires '\n' !in s
    ensures '\n' !in Escape(s)
  {
    if s != "" {
      assert s[0] in s && forall c :: c in s[1..] ==> c in s;
      EscapeNoNewline(s[1..]);
    }
  }

  lemma CellNoNewline(value: string)
    ensures '\n' !in Cell(value)
  {
    CellIsEscaped(value);
    ShownIsTidy(value);
    EscapeNoNewline(Shown(value));
  }

  lemma {:induction false} JoinNoNewline(parts: seq<string>, sep: string)
    requires '\n' !in sep && forall i :: 0 <= i < |parts| ==> '\n' !in parts[i]
    ensures '\n' !in Join(parts, sep)
  {
    if |parts| > 1 { JoinNoNewline(parts[1..], sep); }
  }

  lemma RowNoNewline(cells: seq<string>)
    requires forall i :: 0 <= i < |cells| ==> '\n' !in cells[i]
    ensures '\n' !in Row(cells)
  {
    JoinNoNewline(cells, " | ");
  }

  ghost predicate Plain(lines: seq<string>) { forall i :: 0 <= i < |lines| ==> '\n' !in lines[i] }

  lemma BulletsArePlain(items: seq<string>)
    ensures Plain(Bullets(items))
  {
    forall i | 0 <= i < |items| ensures '\n' !in Bullets(items)[i] { CellNoNewline(items[i]); }
  }

  lemma RowLinesArePlain(evidence: seq<seq<string>>)
    ensures Plain(RowLines(evidence))
  {
    forall i | 0 <= i < |evidence| ensures '\n' !in RowLines(evidence)[i] {
      forall k | 0 <= k < |evidence[i]| ensures '\n' !in Cells(evidence[i])[k] { CellNoNewline(evidence[i][k]); }
      RowNoNewline(Cells(evidence[i]));
    }
  }

  lemma HeaderIsPlain()
    ensures '\n' !in Row(TITLES) && '\n' !in SEPARATOR
  {
    hide Row;
    TitlesArePlain();
    RowNoNewline(TITLES);
    JoinNoNewline(DASHES, "|");
    assert SEPARATOR == "|" + Join(DASHES, "|") + "|";
  }

  lemma PlainConcat(x: seq<string>, y: seq<string>)
    requires Plain(x) && Plain(y)
    ensures Plain(x + y)
  {
  }

  lemma LinesWithArePlain(e: Envelope, asked: string, heading: string, header: string, ruler: string, end: string)
    requires Plain([asked]) && Plain(["", heading, header, ruler]) && Plain(["", end])
    ensures Plain(LinesWith(e, asked, heading, header, ruler, end))
  {
    BulletsArePlain(e.questions);
    BulletsArePlain(e.excluded);
    RowLinesArePlain(e.evidence);
    PlainConcat([asked], Bullets(e.questions));
    PlainConcat([asked] + Bullets(e.questions), ["", heading, header, ruler]);
    PlainConcat([asked] + Bullets(e.questions) + ["", heading, header, ruler], RowLines(e.evidence));
    PlainConcat([asked] + Bullets(e.questions) + ["", heading, header, ruler] + RowLines(e.evidence), ["", end]);
  }

  lemma FixedLinesArePlain()
    ensures Plain(["## Research questions"]) && Plain(["", "## Excluded or unverified"])
        && Plain(["## Provider-fetched evidence ledger"])
  {
  }

  lemma LinesAreLines(e: Envelope)
    ensures Lines(e) != [] && Plain(Lines(e))
  {
    HeaderIsPlain();
    FixedLinesArePlain();
    PlainFour("", "## Provider-fetched evidence ledger", Row(TITLES), SEPARATOR);
    LinesWithArePlain(e, "## Research questions", "## Provider-fetched evidence ledger", Row(TITLES), SEPARATOR,
        "## Excluded or unverified");
  }

  lemma PlainFour(a: string, b: string, c: string, d: string)
    requires '\n' !in a && Plain([b]) && '\n' !in c && '\n' !in d
    ensures Plain([a, b, c, d])
  {
    assert '\n' !in [b][0];
  }
}
