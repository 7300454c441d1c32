/** The text file of test results: what mainwindow.cpp saves, and what it shows when it plays the file back. */
module ResultFile {
  import opened Wrappers
  import opened Strings

  /** The three columns of a row in one of the two tables; a cell without an item has the empty text. */
  datatype Cells = Cells(first: string, second: string, third: string)

  datatype Row = Row(step: Cells, manual: Cells)

  datatype Head = Head(sn: string, time: string, assembly: string)

  // ---------------------------------------------------------------- the text

  function RowLine(r: Row): string {
    r.step.first + "|" + (r.step.second + "|" + (r.step.third + "|"
    + (r.manual.first + "|" + (r.manual.second + "|" + r.manual.third))))
  }

  function RowTexts(rows: seq<Row>): string {
    if rows == [] then "" else RowLine(rows[0]) + "\n" + RowTexts(rows[1..])
  }

  function ColumnLine(): string {
    "Step|Item|Result|MStep|" + "Phenomenon|MResult"
  }

  function HeadText(h: Head): string {
    "SN: " + h.sn + "\n" + ("Time: " + h.time + "\n" + ("Assembly: " + h.assembly + "\n" + (ColumnLine() + "\n")))
  }

  function SaveText(h: Head, rows: seq<Row>): string {
    HeadText(h) + RowTexts(rows)
  }

  // ---------------------------------------------------------------- playing back

  /** The lines that `readLine` returns until the end. */
  function ReadAll(text: string): seq<string>
    decreases |text|
  {
    if text == "" then []
    else
      var n := UpTo(text, '\n');
      [text[..n]] + ReadAll(if n < |text| then text[n + 1..] else "")
  }

  /** `QChar::isSpace`. */
  predicate IsSpace(c: char) {
    '\t' <= c <= '\r' || c == ' ' || c == '\U{85}' || c == '\U{A0}' || c == '\U{1680}' || '\U{2000}' <= c <= '\U{200A}'
    || c == '\U{2028}' || c == '\U{2029}' || c == '\U{202F}' || c == '\U{205F}' || c == '\U{3000}'
  }

  function TrimFront(s: string): string {
    if s != "" && IsSpace(s[0]) then TrimFront(s[1..]) else s
  }

  function TrimBack(s: string): string {
    if s != "" && IsSpace(s[|s| - 1]) then TrimBack(s[..|s| - 1]) else s
  }

  /** `QString::trimmed`. */
  function Trimmed(s: string): string {
    TrimBack(TrimFront(s))
  }

  predicate IsHeading(line: string) {
    "SN:" <= line || "Time:" <= line || "Assembly:" <= line || "Step|" <= line
  }

  /** The row that one line adds. */
  function PlayLine(line: string): Option<Row> {
    var t := Trimmed(line);
    if t == "" || IsHeading(t) then None
    else
      var p := Split(t, '|');
      if |p| < 6 then None else Some(Row(Cells(p[0], p[1], p[2]), Cells(p[3], p[4], p[5])))
  }

  function Added(line: string): seq<Row> {
    match PlayLine(line)
    case Some(r) => [r]
    case None => []
  }

  function PlayLines(lines: seq<string>): seq<Row> {
    if lines == [] then []
    else Added(lines[0]) + PlayLines(lines[1..])
  }

  function Played(text: string): seq<Row> {
    PlayLines(ReadAll(text))
  }

  /** Reading in text mode drops carriage returns. */
  function WithoutReturns(text: string): string {
    if text == "" then "" else (if text[0] == '\r' then "" else [text[0]]) + WithoutReturns(text[1..])
  }

  /** The rows that a file shows. */
  function Shown(text: string): seq<Row> {
    Played(WithoutReturns(text))
  }

  function StepCells(rows: seq<Row>): (r: seq<Cells>)
    ensures |r| == |rows|
  {
    seq(|rows|, i requires 0 <= i < |rows| => rows[i].step)
  }

  function ManualCells(rows: seq<Row>): (r: seq<Cells>)
    ensures |r| == |rows|
  {
    seq(|rows|, i requires 0 <= i < |rows| => rows[i].manual)
  }

  /** The two tables of the window. */
  class Tables {
    var stepModel: seq<Cells>
    var manualModel: seq<Cells>

    constructor (steps: seq<Cells>, manuals: seq<Cells>)
      ensures stepModel == steps && manualModel == manuals
    {
      stepModel, manualModel := steps, manuals;
    }

    /** `get` on the manual table, which may have other rows than the step table. */
    function ManualAt(i: nat): Cells
      reads this
    {
      if i < |manualModel| then manualModel[i] else Cells("", "", "")
    }

    /** The rows that saving goes through: those of the step table. */
    function Rows(): (r: seq<Row>)
      reads this
      ensures |r| == |stepModel|
    {
      seq(|stepModel|, i requires 0 <= i < |stepModel| reads this => Row(stepModel[i], ManualAt(i)))
    }

    /** `on_MEstopButton_10_clicked`. */
    method Save(h: Head) returns (text: string)
      ensures text == SaveText(h, Rows())
    {
      hide RowLine, HeadText;
      text := HeadText(h);
      assert Rows()[0..] == Rows();
      for i := 0 to |stepModel|
        invariant text + RowTexts(Rows()[i..]) == SaveText(h, Rows())
      {
        assert Rows()[i..][1..] == Rows()[i + 1..] && Rows()[i..][0] == Rows()[i];
        ghost var was, line, more := text, RowLine(Rows()[i]), RowTexts(Rows()[i + 1..]);
        text := text + (RowLine(Row(stepModel[i], ManualAt(i))) + "\n");
        assert was + (line + "\n" + more) == was + (line + "\n") + more;
      }
      assert Rows()[|stepModel|..] == [] && text + "" == text;
    }

    /** `on_palyback_clicked`, for the text of the newest file. */
    method Playback(text: string)
      modifies this
      ensures stepModel == StepCells(Shown(text)) && manualModel == ManualCells(Shown(text))
    {
      hide PlayLine, Played, StepCells, ManualCells, UpTo;
      NoCells();
      NothingPlayed();
      stepModel, manualModel := [], [];
      var rest := WithoutReturns(text);
      assert [] + Played(rest) == Shown(text);
      ghost var shown: seq<Row> := [];
      while rest != ""
        invariant shown + Played(rest) == Shown(text)
        invariant stepModel == StepCells(shown) && manualModel == ManualCells(shown)
        decreases |rest|
      {
        var n := UpTo(rest, '\n');
        var line := rest[..n];
        ghost var was := rest;
        rest := if n < |rest| then rest[n + 1..] else "";
        var row := PlayLine(line);
        PlayedStep(was);
        Move(shown, Added(line), Played(rest));
        CellsMore(shown, Added(line));
        if row.Some? {
          stepModel := stepModel + [row.value.step];
          manualModel := manualModel + [row.value.manual];
        }
        shown := shown + Added(line);
      }
      assert shown + [] == shown;
    }
  }

  lemma NoCells()
    ensures StepCells([]) == [] && ManualCells([]) == []
  {
  }

  lemma CellsMore(rows: seq<Row>, more: seq<Row>)
    requires |more| <= 1
    ensures StepCells(rows + more) == StepCells(rows) + (if more == [] then [] else [more[0].step])
    ensures ManualCells(rows + more) == ManualCells(rows) + (if more == [] then [] else [more[0].manual])
    ensures StepCells(rows) + [] == StepCells(rows) && ManualCells(rows) + [] == ManualCells(rows)
  {
  }

  lemma PlayedStep(text: string)
    requires text != ""
    ensures var n := UpTo(text, '\n');
            var rest := if n < |text| then text[n + 1..] else "";
            Played(text) == Added(text[..n]) + Played(rest)
  {
    hide Added, UpTo;
    var n := UpTo(text, '\n');
    var rest := if n < |text| then text[n + 1..] else "";
    assert ([text[..n]] + ReadAll(rest))[1..] == ReadAll(rest);
  }

  // ---------------------------------------------------------------- lines

  lemma LineFirst(line: string, rest: string)
    requires Unbroken(line)
    ensures Played(line + "\n" + rest) == Added(line) + Played(rest)
  {
    hide Added, Played, UpTo;
    var text := line + ['\n'] + rest;
    UpToFound(line, '\n', rest);
    PlayedStep(text);
    assert text[..|line|] == line && text[|line| + 1..] == rest;
  }

  lemma FrontStays(s: string)
    ensures s != "" && !IsSpace(s[0]) ==> TrimFront(s) == s
  {
  }

  /** Trimming does not cut into a prefix without spaces at its ends. */
  lemma {:induction false} BackKeeps(p: string, s: string)
    requires p <= s && p != "" && !IsSpace(p[|p| - 1])
    ensures p <= TrimBack(s)
    decreases |s|
  {
    hide IsSpace;
    if IsSpace(s[|s| - 1]) {
      assert |s| > |p|;
      assert p <= s[..|s| - 1];
      BackKeeps(p, s[..|s| - 1]);
    }
  }

  lemma HeadingSkipped(p: string, s: string)
    requires p <= s && p in {"SN:", "Time:", "Assembly:", "Step|"}
    ensures PlayLine(s) == None
  {
    hide TrimFront, TrimBack;
    assert !IsSpace(p[0]) && !IsSpace(p[|p| - 1]);
    FrontStays(s);
    BackKeeps(p, s);
  }

  predicate OneLine(s: string) {
    Unbroken(s) && '\r' !in s
  }

  predicate HeadFits(h: Head) {
    OneLine(h.sn) && OneLine(h.time) && OneLine(h.assembly)
  }

  lemma OneHeading(p: string, value: string, rest: string)
    requires p in {"SN:", "Time:", "Assembly:"} && Unbroken(value)
    ensures Played(p + " " + value + "\n" + rest) == Played(rest)
  {
    hide Played, PlayLine;
    var line := p + " " + value;
    assert p <= line && Unbroken(line);
    HeadingSkipped(p, line);
    LineFirst(line, rest);
    assert [] + Played(rest) == Played(rest);
  }

  lemma ColumnsSkipped(rest: string)
    ensures Played(ColumnLine() + "\n" + rest) == Played(rest)
  {
    hide Played, PlayLine;
    assert Unbroken("Step|Item|Result|MStep|") && Unbroken("Phenomenon|MResult");
    assert "Step|" <= "Step|Item|Result|MStep|" <= ColumnLine();
    HeadingSkipped("Step|", ColumnLine());
    LineFirst(ColumnLine(), rest);
    assert [] + Played(rest) == Played(rest);
  }

  /** The heading adds no row. */
  lemma HeadSkipped(h: Head, rest: string)
    requires HeadFits(h)
    ensures Played(HeadText(h) + rest) == Played(rest)
  {
    hide Played, ColumnLine, Unbroken;
    var columns := ColumnLine() + "\n" + rest;
    var assembly := "Assembly:" + " " + h.assembly + "\n" + columns;
    var time := "Time:" + " " + h.time + "\n" + assembly;
    OneHeading("SN:", h.sn, time);
    OneHeading("Time:", h.time, assembly);
    OneHeading("Assembly:", h.assembly, columns);
    ColumnsSkipped(rest);
    HeadRegroup(h.sn, h.time, h.assembly, ColumnLine(), rest);
  }

  lemma HeadRegroup(a: string, b: string, c: string, d: string, rest: string)
    ensures ("SN: " + a + "\n" + ("Time: " + b + "\n" + ("Assembly: " + c + "\n" + (d + "\n")))) + rest
         == "SN:" + " " + a + "\n" + ("Time:" + " " + b + "\n" + ("Assembly:" + " " + c + "\n" + (d + "\n" + rest)))
  {
    assert "SN: " == "SN:" + " " && "Time: " == "Time:" + " " && "Assembly: " == "Assembly:" + " ";
    assert (d + "\n") + rest == d + "\n" + rest;
    Move("Assembly: " + c + "\n", d + "\n", rest);
    Move("Time: " + b + "\n", "Assembly: " + c + "\n" + (d + "\n"), rest);
    Move("SN: " + a + "\n", "Time: " + b + "\n" + ("Assembly: " + c + "\n" + (d + "\n")), rest);
  }

  lemma Move<T>(a: seq<T>, b: seq<T>, c: seq<T>)
    ensures (a + b) + c == a + (b + c)
  {
  }

  // ---------------------------------------------------------------- one row

  predicate CleanCells(c: Cells) {
    forall ch :: ch in {'|', '\n', '\r'} ==> ch !in c.first && ch !in c.second && ch !in c.third
  }

  /** The six fields hold no separator and no line break. */
  predicate Clean(r: Row) {
    CleanCells(r.step) && CleanCells(r.manual)
  }

  predicate StartsLikeHeading(first: string) {
    "SN:" <= first || "Time:" <= first || "Assembly:" <= first || first == "Step"
  }

  /** The rows that survive: no separators, no space at the outer ends, and a first field that is not taken for a heading. */
  predicate Restorable(r: Row) {
    && Clean(r)
    && (r.step.first != "" ==> !IsSpace(r.step.first[0]))
    && (r.manual.third != "" ==> !IsSpace(r.manual.third[|r.manual.third| - 1]))
    && !StartsLikeHeading(r.step.first)
  }

  lemma {:induction false} FrontOnly(a: string, rest: string)
    ensures TrimFront(a + "|" + rest) == TrimFront(a) + "|" + rest
    decreases |a|
  {
    hide IsSpace;
    if a == "" {
      assert "" + "|" + rest == "|" + rest;
      assert !IsSpace('|') by { BarIsNoSpace(); }
    } else {
      assert (a + "|" + rest)[1..] == a[1..] + "|" + rest && (a + "|" + rest)[0] == a[0];
      FrontOnly(a[1..], rest);
    }
  }

  lemma BarIsNoSpace()
    ensures !IsSpace('|')
  {
  }

  lemma {:induction false} BackOnly(front: string, f: string)
    ensures TrimBack(front + "|" + f) == front + "|" + TrimBack(f)
    decreases |f|
  {
    hide IsSpace;
    var s := front + "|" + f;
    if f == "" {
      assert s == front + "|" && s[|s| - 1] == '|';
      BarIsNoSpace();
    } else {
      assert s[..|s| - 1] == front + "|" + f[..|f| - 1] && s[|s| - 1] == f[|f| - 1];
      BackOnly(front, f[..|f| - 1]);
    }
  }

  function TrimmedRow(r: Row): Row {
    Row(Cells(TrimFront(r.step.first), r.step.second, r.step.third),
        Cells(r.manual.first, r.manual.second, TrimBack(r.manual.third)))
  }

  /** Trimming a line trims the outer ends of its row. */
  lemma TrimmedLine(r: Row)
    ensures Trimmed(RowLine(r)) == RowLine(TrimmedRow(r))
  {
    hide TrimFront, TrimBack;
    var a, b, c, d, e, f := TrimFront(r.step.first), r.step.second, r.step.third, r.manual.first, r.manual.second,
                            r.manual.third;
    FrontOnly(r.step.first, b + "|" + (c + "|" + (d + "|" + (e + "|" + f))));
    var front := a + "|" + (b + "|" + (c + "|" + (d + "|" + e)));
    BackOnly(front, f);
    FiveBars(a, b, c, d, e, f);
    FiveBars(a, b, c, d, e, TrimBack(f));
  }

  lemma FiveBars(a: string, b: string, c: string, d: string, e: string, f: string)
    ensures a + "|" + (b + "|" + (c + "|" + (d + "|" + (e + "|" + f))))
         == a + "|" + (b + "|" + (c + "|" + (d + "|" + e))) + "|" + f
  {
    Bar(d, e, f);
    Bar(c, d + "|" + e, f);
    Bar(b, c + "|" + (d + "|" + e), f);
    Bar(a, b + "|" + (c + "|" + (d + "|" + e)), f);
  }

  lemma Bar(a: string, b: string, f: string)
    ensures a + "|" + (b + "|" + f) == (a + "|" + b) + "|" + f
  {
  }

  lemma LineSplit(r: Row)
    requires Clean(r)
    ensures Split(RowLine(r), '|')
         == [r.step.first, r.step.second, r.step.third, r.manual.first, r.manual.second, r.manual.third]
  {
    hide Split;
    var a, b, c, d, e, f := r.step.first, r.step.second, r.step.third, r.manual.first, r.manual.second, r.manual.third;
    assert '|' in {'|', '\n', '\r'};
    SplitLast(f, '|');
    SplitItem(e, '|', f);
    SplitItem(d, '|', e + "|" + f);
    SplitItem(c, '|', d + "|" + (e + "|" + f));
    SplitItem(b, '|', c + "|" + (d + "|" + (e + "|" + f)));
    SplitItem(a, '|', b + "|" + (c + "|" + (d + "|" + (e + "|" + f))));
    assert [a] + ([b] + ([c] + ([d] + ([e] + [f])))) == [a, b, c, d, e, f];
  }

  lemma HeadingOf(first: string, rest: string)
    requires '|' !in first
    ensures IsHeading(first + "|" + rest) <==> StartsLikeHeading(first)
  {
    var line := first + "|" + rest;
    PrefixOf("SN:", first, rest);
    PrefixOf("Time:", first, rest);
    PrefixOf("Assembly:", first, rest);
    PrefixOf("Step", first, rest);
    assert "Step|" <= line <==> "Step" <= line && line[4] == '|';
    assert |first| > 4 ==> first[4] in first && line[4] == first[4];
  }

  lemma PrefixOf(p: string, first: string, rest: string)
    requires '|' !in p && '|' !in first
    ensures p <= first + "|" + rest <==> p <= first
  {
    var line := first + "|" + rest;
    assert |p| > |first| ==> p[|first|] in p && line[|first|] == '|';
    assert p <= first ==> p <= line;
  }

  lemma FrontPart(s: string)
    ensures forall c :: c in TrimFront(s) ==> c in s
    ensures TrimFront(s) == s <==> (s != "" ==> !IsSpace(s[0]))
    ensures |TrimFront(s)| <= |s|
  {
    hide IsSpace;
  }

  lemma BackPart(s: string)
    ensures forall c :: c in TrimBack(s) ==> c in s
    ensures TrimBack(s) == s <==> (s != "" ==> !IsSpace(s[|s| - 1]))
    ensures |TrimBack(s)| <= |s|
  {
    hide IsSpace;
  }

  /** A clean row comes back with its outer ends trimmed, unless that makes it look like a heading. */
  lemma RowPlayed(r: Row)
    requires Clean(r)
    ensures PlayLine(RowLine(r)) == if StartsLikeHeading(TrimFront(r.step.first)) then None else Some(TrimmedRow(r))
  {
    hide Trimmed, TrimFront, TrimBack, Split, IsHeading, StartsLikeHeading;
    var t := TrimmedRow(r);
    TrimmedLine(r);
    FrontPart(r.step.first);
    BackPart(r.manual.third);
    assert Clean(t);
    LineSplit(t);
    assert '|' in {'|', '\n', '\r'};
    HeadingOf(t.step.first,
              t.step.second + "|" + (t.step.third + "|" + (t.manual.first + "|" + (t.manual.second + "|" + t.manual.third))));
    assert RowLine(t) != "" by { NotEmpty(t); }
  }

  lemma NotEmpty(r: Row)
    ensures RowLine(r) != ""
  {
  }

  lemma RowRestored(r: Row)
    requires Clean(r)
    ensures PlayLine(RowLine(r)) == Some(r) <==> Restorable(r)
  {
    hide PlayLine, RowLine, TrimFront, TrimBack, StartsLikeHeading, IsSpace;
    RowPlayed(r);
    FrontPart(r.step.first);
    BackPart(r.manual.third);
  }

  // ---------------------------------------------------------------- the file

  lemma LineUnbroken(r: Row)
    requires Clean(r)
    ensures Unbroken(RowLine(r))
  {
    assert '\n' in {'|', '\n', '\r'};
  }

  lemma RowsFirst(rows: seq<Row>)
    requires rows != [] && Clean(rows[0])
    ensures Played(RowTexts(rows))
         == Added(RowLine(rows[0])) + Played(RowTexts(rows[1..]))
  {
    hide Played, PlayLine, RowLine;
    LineUnbroken(rows[0]);
    LineFirst(RowLine(rows[0]), RowTexts(rows[1..]));
  }

  lemma NothingPlayed()
    ensures Played("") == []
  {
  }

  /** Clean rows come back exactly when each of them does; no row can stand in for another. */
  lemma {:induction false} RowsRestored(rows: seq<Row>)
    requires forall i :: 0 <= i < |rows| ==> Clean(rows[i])
    ensures |Played(RowTexts(rows))| <= |rows|
    ensures Played(RowTexts(rows)) == rows <==> forall i :: 0 <= i < |rows| ==> Restorable(rows[i])
    decreases |rows|
  {
    hide Played, PlayLine, RowLine, Restorable, Clean;
    if rows == [] {
      NothingPlayed();
    } else {
      var rest := rows[1..];
      RowsFirst(rows);
      RowRestored(rows[0]);
      RowsRestored(rest);
      assert rows == [rows[0]] + rest;
      var first := PlayLine(RowLine(rows[0]));
      if first.Some? && Played(RowTexts(rows)) == rows {
        assert ([first.value] + Played(RowTexts(rest)))[1..] == Played(RowTexts(rest));
      }
    }
  }

  lemma {:induction false} LinesOf(text: string)
    requires '\r' !in text
    ensures forall i :: 0 <= i < |ReadAll(text)| ==> OneLine(ReadAll(text)[i])
    decreases |text|
  {
    hide UpTo;
    if text != "" {
      var n := UpTo(text, '\n');
      FrontUnbroken(text);
      LinesOf(if n < |text| then text[n + 1..] else "");
    }
  }

  lemma {:induction false} NoReturnLeft(text: string)
    ensures '\r' !in WithoutReturns(text)
    ensures '\r' !in text ==> WithoutReturns(text) == text
    decreases |text|
  {
    if text != "" {
      NoReturnLeft(text[1..]);
      assert [text[0]] + text[1..] == text && text[0] in text;
      assert "" + WithoutReturns(text[1..]) == WithoutReturns(text[1..]);
    }
  }

  lemma LineWithoutReturn(r: Row)
    requires Clean(r)
    ensures '\r' !in RowLine(r)
  {
    assert '\r' in {'|', '\n', '\r'};
  }

  lemma {:induction false} RowsWithoutReturn(rows: seq<Row>)
    requires forall i :: 0 <= i < |rows| ==> Clean(rows[i])
    ensures '\r' !in RowTexts(rows)
    decreases |rows|
  {
    hide RowLine, Clean;
    if rows != [] {
      LineWithoutReturn(rows[0]);
      RowsWithoutReturn(rows[1..]);
    }
  }

  lemma HeadWithoutReturn(h: Head)
    requires HeadFits(h)
    ensures '\r' !in HeadText(h)
  {
    assert '\r' !in "SN: " && '\r' !in "Time: " && '\r' !in "Assembly: " && '\r' !in ColumnLine();
  }

  lemma {:induction false} FrontUnbroken(text: string)
    ensures Unbroken(text[..UpTo(text, '\n')])
    decreases |text|
  {
    if text != "" && text[0] != '\n' {
      FrontUnbroken(text[1..]);
      var n := UpTo(text[1..], '\n');
      assert text[..n + 1] == [text[0]] + text[1..][..n];
    }
  }

  lemma LineClean(line: string)
    requires OneLine(line)
    ensures PlayLine(line).Some? ==> Clean(PlayLine(line).value)
  {
    hide IsHeading, TrimFront, TrimBack, Split;
    var t := Trimmed(line);
    FrontPart(line);
    BackPart(TrimFront(line));
    SplitPieces(t, '|');
  }

  lemma {:induction false} PlayedClean(lines: seq<string>)
    requires forall i :: 0 <= i < |lines| ==> OneLine(lines[i])
    ensures forall i :: 0 <= i < |PlayLines(lines)| ==> Clean(PlayLines(lines)[i])
    decreases |lines|
  {
    hide PlayLine, Clean, OneLine;
    if lines != [] {
      LineClean(lines[0]);
      PlayedClean(lines[1..]);
    }
  }

  /** A saved file shows its rows again if and only if every row is restorable. */
  lemma SavedIsPlayed(h: Head, rows: seq<Row>)
    requires HeadFits(h)
    ensures Shown(SaveText(h, rows)) == rows <==> forall i :: 0 <= i < |rows| ==> Restorable(rows[i])
  {
    hide HeadText, RowTexts, Clean, OneLine, ReadAll, PlayLines, Restorable, WithoutReturns, HeadFits;
    var text := SaveText(h, rows);
    NoReturnLeft(text);
    LinesOf(WithoutReturns(text));
    PlayedClean(ReadAll(WithoutReturns(text)));
    forall i | 0 <= i < |rows| ensures Restorable(rows[i]) ==> Clean(rows[i]) { RestorableIsClean(rows[i]); }
    if forall i :: 0 <= i < |rows| ==> Clean(rows[i]) {
      HeadWithoutReturn(h);
      RowsWithoutReturn(rows);
      HeadSkipped(h, RowTexts(rows));
      RowsRestored(rows);
    }
  }

  lemma RestorableIsClean(r: Row)
    ensures Restorable(r) ==> Clean(r)
  {
  }

  lemma OneLineRead(line: string, rest: string)
    requires Unbroken(line)
    ensures ReadAll(line + "\n" + rest) == [line] + ReadAll(rest)
  {
    hide UpTo;
    var text := line + ['\n'] + rest;
    UpToFound(line, '\n', rest);
    assert text[..|line|] == line && text[|line| + 1..] == rest;
  }

  function RowLines(rows: seq<Row>): (lines: seq<string>)
    ensures |lines| == |rows|
  {
    seq(|rows|, i requires 0 <= i < |rows| => RowLine(rows[i]))
  }

  lemma {:induction false} RowsRead(rows: seq<Row>)
    requires forall i :: 0 <= i < |rows| ==> Clean(rows[i])
    ensures ReadAll(RowTexts(rows)) == RowLines(rows)
    decreases |rows|
  {
    hide ReadAll, RowLine, Clean;
    if rows == [] {
      NothingRead();
    } else {
      LineUnbroken(rows[0]);
      OneLineRead(RowLine(rows[0]), RowTexts(rows[1..]));
      RowsRead(rows[1..]);
      assert RowLines(rows) == [RowLine(rows[0])] + RowLines(rows[1..]);
    }
  }

  lemma NothingRead()
    ensures ReadAll("") == []
  {
  }

  /** The lines of a saved file, and the six fields of each row line. */
  lemma FileLines(h: Head, rows: seq<Row>)
    requires HeadFits(h) && forall i :: 0 <= i < |rows| ==> Clean(rows[i])
    ensures ReadAll(SaveText(h, rows))
         == ["SN: " + h.sn, "Time: " + h.time, "Assembly: " + h.assembly, "Step|Item|Result|MStep|" + "Phenomenon|MResult"]
            + RowLines(rows)
    ensures forall i :: 0 <= i < |rows| ==>
              Split(RowLines(rows)[i], '|')
              == [rows[i].step.first, rows[i].step.second, rows[i].step.third,
                  rows[i].manual.first, rows[i].manual.second, rows[i].manual.third]
  {
    hide ReadAll, RowTexts, RowLine, Split, Clean, Unbroken;
    forall i | 0 <= i < |rows|
      ensures Split(RowLine(rows[i]), '|')
           == [rows[i].step.first, rows[i].step.second, rows[i].step.third,
               rows[i].manual.first, rows[i].manual.second, rows[i].manual.third]
    {
      LineSplit(rows[i]);
    }
    HeadUnbroken(h);
    var columns := ColumnLine() + "\n" + RowTexts(rows);
    var assembly := "Assembly: " + h.assembly + "\n" + columns;
    var time := "Time: " + h.time + "\n" + assembly;
    RowsRead(rows);
    OneLineRead(ColumnLine(), RowTexts(rows));
    OneLineRead("Assembly: " + h.assembly, columns);
    OneLineRead("Time: " + h.time, assembly);
    OneLineRead("SN: " + h.sn, time);
    SaveRegroup("SN: " + h.sn, "Time: " + h.time, "Assembly: " + h.assembly, ColumnLine(), RowTexts(rows));
    FourFirst("SN: " + h.sn, "Time: " + h.time, "Assembly: " + h.assembly, ColumnLine(), RowLines(rows));
  }

  lemma HeadUnbroken(h: Head)
    requires HeadFits(h)
    ensures Unbroken("SN: " + h.sn) && Unbroken("Time: " + h.time) && Unbroken("Assembly: " + h.assembly)
    ensures Unbroken(ColumnLine())
  {
    assert Unbroken("Step|Item|Result|MStep|") && Unbroken("Phenomenon|MResult");
  }

  lemma SaveRegroup(a: string, b: string, c: string, d: string, rest: string)
    ensures (a + "\n" + (b + "\n" + (c + "\n" + (d + "\n")))) + rest
         == a + "\n" + (b + "\n" + (c + "\n" + (d + "\n" + rest)))
  {
    assert (d + "\n") + rest == d + "\n" + rest;
    Move(c + "\n", d + "\n", rest);
    Move(b + "\n", c + "\n" + (d + "\n"), rest);
    Move(a + "\n", b + "\n" + (c + "\n" + (d + "\n")), rest);
  }

  lemma FourFirst(a: string, b: string, c: string, d: string, rest: seq<string>)
    ensures [a] + ([b] + ([c] + ([d] + rest))) == [a, b, c, d] + rest
  {
  }

  /** A row that starts like the column heading is lost. */
  lemma StepRowLost(h: Head)
    requires HeadFits(h)
    ensures Shown(SaveText(h, [Row(Cells("Step", "", ""), Cells("", "", ""))])) == []
  {
    hide SaveText, RowTexts, RowLine, PlayLine, Played, HeadText, WithoutReturns;
    var r := Row(Cells("Step", "", ""), Cells("", "", ""));
    assert [r][1..] == [];
    assert Clean(r);
    HeadWithoutReturn(h);
    RowsWithoutReturn([r]);
    assert SaveText(h, [r]) == HeadText(h) + RowTexts([r]) by { SavedParts(h, [r]); }
    NoReturnLeft(SaveText(h, [r]));
    HeadSkipped(h, RowTexts([r]));
    RowsFirst([r]);
    FrontStays("Step");
    RowPlayed(r);
    assert RowTexts([]) == "" by { NoRows(); }
    NothingPlayed();
  }

  lemma SavedParts(h: Head, rows: seq<Row>)
    ensures SaveText(h, rows) == HeadText(h) + RowTexts(rows)
  {
  }

  lemma NoRows()
    ensures RowTexts([]) == ""
  {
  }

  /** Saving and playing back leaves the step table as it was and gives the manual table one row per step. */
  method SaveAndPlayBack(tables: Tables, h: Head)
    requires HeadFits(h)
    requires forall i :: 0 <= i < |tables.Rows()| ==> Restorable(tables.Rows()[i])
    modifies tables
    ensures tables.stepModel == old(tables.stepModel)
    ensures tables.manualModel == ManualCells(old(tables.Rows()))
  {
    hide SaveText, Shown, Restorable;
    ghost var rows := tables.Rows();
    var text := tables.Save(h);
    SavedIsPlayed(h, rows);
    tables.Playback(text);
  }
}
