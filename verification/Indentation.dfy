/** Python's block structure for text indented with tabs: what the interpreter makes of the files that generatedCode.py
    writes. A line that ends in a colon opens a block; the block is the following lines that are indented further, all
    starting at the same column; any other indentation is an error. */
module Indentation {
  import opened Strings
  import opened Wrappers

  datatype Line = Line(indent: nat, text: string)

  datatype Stmt = Simple(text: string) | Compound(header: string, body: seq<Stmt>)

  datatype Error = IndentationError

  // ---------------------------------------------------------------- text and lines

  function Tabs(n: nat): string {
    seq(n, _ => '\t')
  }

  function LineText(l: Line): string {
    Tabs(l.indent) + l.text + "\n"
  }

  function Render(lines: seq<Line>): string {
    if lines == [] then "" else LineText(lines[0]) + Render(lines[1..])
  }

  function LeadingTabs(text: string): (n: nat)
    ensures n <= |text|
  {
    if text == "" || text[0] != '\t' then 0 else 1 + LeadingTabs(text[1..])
  }

  /** The lines of a text that are not blank, each with its indentation counted in tabs. */
  function ReadLines(text: string): seq<Line>
    decreases |text|
  {
    if text == "" then []
    else
      var end := UpTo(text, '\n');
      var n := LeadingTabs(text[..end]);
      (if n == end then [] else [Line(n, text[n..end])]) + ReadLines(if end < |text| then text[end + 1..] else "")
  }

  /** Text that stays on its line and does not add to its indentation. */
  predicate Plain(text: string) {
    text != "" && text[0] != '\t' && '\n' !in text
  }

  lemma {:induction false} TabsCounted(n: nat, text: string)
    requires text == "" || text[0] != '\t'
    ensures LeadingTabs(Tabs(n) + text) == n
  {
    if n > 0 {
      assert (Tabs(n) + text)[1..] == Tabs(n - 1) + text;
      TabsCounted(n - 1, text);
    } else {
      assert Tabs(0) + text == text;
    }
  }

  lemma LineRead(l: Line, rest: string)
    requires Plain(l.text)
    ensures ReadLines(LineText(l) + rest) == [l] + ReadLines(rest)
  {
    var front := Tabs(l.indent) + l.text;
    var text := LineText(l) + rest;
    var end := |front|;
    assert text == front + ("\n" + rest);
    assert '\n' !in front;
    UpToFound(front, '\n', rest);
    assert front + ['\n'] + rest == text;
    TabsCounted(l.indent, l.text);
    assert text[..end] == front && text[l.indent..end] == l.text && text[end + 1..] == rest;
  }

  lemma {:induction false} RenderedIsRead(lines: seq<Line>, rest: string)
    requires AllPlain(lines)
    ensures ReadLines(Render(lines) + rest) == lines + ReadLines(rest)
    decreases |lines|
  {
    hide ReadLines, LineText;
    if lines == [] {
      assert "" + rest == rest && [] + ReadLines(rest) == ReadLines(rest);
    } else {
      LineRead(lines[0], Render(lines[1..]) + rest);
      RenderedIsRead(lines[1..], rest);
      assert Render(lines) + rest == LineText(lines[0]) + (Render(lines[1..]) + rest);
      assert [lines[0]] + (lines[1..] + ReadLines(rest)) == lines + ReadLines(rest);
    }
  }

  lemma NoLines()
    ensures ReadLines("") == []
  {
  }

  lemma BlankSkipped(rest: string)
    ensures ReadLines("\n" + rest) == ReadLines(rest)
  {
    UpToFound("", '\n', rest);
    assert "" + ['\n'] + rest == "\n" + rest && ("\n" + rest)[1..] == rest;
  }

  lemma {:induction false} RenderJoin(a: seq<Line>, b: seq<Line>)
    ensures Render(a + b) == Render(a) + Render(b)
    decreases |a|
  {
    if a == [] {
      assert [] + b == b;
    } else {
      assert (a + b)[1..] == a[1..] + b;
      RenderJoin(a[1..], b);
    }
  }

  // ---------------------------------------------------------------- lines and blocks

  predicate OpensBlock(text: string) {
    text != "" && text[|text| - 1] == ':'
  }

  /** The statements at indentation `d`, and the lines behind them. */
  function ParseBlock(lines: seq<Line>, d: nat): (r: Result<(seq<Stmt>, seq<Line>), Error>)
    ensures r.Success? ==> |r.value.1| <= |lines|
    decreases |lines|
  {
    if lines == [] || lines[0].indent < d then Success(([], lines))
    else if lines[0].indent > d then Failure(IndentationError)
    else if !OpensBlock(lines[0].text) then
      var more :- ParseBlock(lines[1..], d);
      Success(([Simple(lines[0].text)] + more.0, more.1))
    else if |lines| == 1 || lines[1].indent <= d then Failure(IndentationError)
    else
      var inner :- ParseBlock(lines[1..], lines[1].indent);
      if inner.1 != [] && inner.1[0].indent > d then Failure(IndentationError)
      else
        var more :- ParseBlock(inner.1, d);
        Success(([Compound(lines[0].text, inner.0)] + more.0, more.1))
  }

  /** The program that a text is. */
  function ParseText(text: string): Result<seq<Stmt>, Error> {
    var r :- ParseBlock(ReadLines(text), 0);
    if r.1 == [] then Success(r.0) else Failure(IndentationError)
  }

  /** The lines that write a program down, block bodies one tab further. */
  function Lines(stmts: seq<Stmt>, d: nat): seq<Line> {
    if stmts == [] then []
    else LinesOf(stmts[0], d) + Lines(stmts[1..], d)
  }

  function LinesOf(s: Stmt, d: nat): seq<Line> {
    match s
    case Simple(text) => [Line(d, text)]
    case Compound(header, body) => [Line(d, header)] + Lines(body, d + 1)
  }

  /** A statement that can be written down: no block is empty, and only headers end in a colon. */
  predicate WellFormed(s: Stmt) {
    match s
    case Simple(text) => Plain(text) && !OpensBlock(text)
    case Compound(header, body) =>
      Plain(header) && OpensBlock(header) && body != [] && forall b :: b in body ==> WellFormed(b)
  }

  predicate AllWellFormed(stmts: seq<Stmt>) {
    forall i :: 0 <= i < |stmts| ==> WellFormed(stmts[i])
  }

  lemma {:induction false} LinesJoin(a: seq<Stmt>, b: seq<Stmt>, d: nat)
    ensures Lines(a + b, d) == Lines(a, d) + Lines(b, d)
    decreases |a|
  {
    if a == [] {
      assert [] + b == b;
    } else {
      assert (a + b)[1..] == a[1..] + b;
      LinesJoin(a[1..], b, d);
    }
  }

  /** The first line of a program is at its indentation. */
  lemma FirstLine(stmts: seq<Stmt>, d: nat)
    requires stmts != []
    ensures Lines(stmts, d) != [] && Lines(stmts, d)[0].indent == d
  {
  }

  lemma SimpleParsed(text: string, d: nat, behind: seq<Line>, more: seq<Stmt>, rest: seq<Line>)
    requires !OpensBlock(text) && ParseBlock(behind, d) == Success((more, rest))
    ensures ParseBlock([Line(d, text)] + behind, d) == Success(([Simple(text)] + more, rest))
  {
    assert ([Line(d, text)] + behind)[1..] == behind;
  }

  lemma CompoundParsed(header: string, d: nat, inner: seq<Line>, body: seq<Stmt>, behind: seq<Line>,
                       more: seq<Stmt>, rest: seq<Line>)
    requires OpensBlock(header) && inner != [] && inner[0].indent == d + 1
    requires behind == [] || behind[0].indent <= d
    requires ParseBlock(inner + behind, d + 1) == Success((body, behind))
    requires ParseBlock(behind, d) == Success((more, rest))
    ensures ParseBlock([Line(d, header)] + (inner + behind), d) == Success(([Compound(header, body)] + more, rest))
  {
    var lines := [Line(d, header)] + (inner + behind);
    assert lines[1..] == inner + behind && lines[1] == inner[0];
  }

  /** Reading back what was written down, in front of anything that is indented less. */
  lemma {:induction false} LinesParsed(stmts: seq<Stmt>, d: nat, rest: seq<Line>)
    requires AllWellFormed(stmts) && (rest == [] || rest[0].indent < d)
    ensures ParseBlock(Lines(stmts, d) + rest, d) == Success((stmts, rest))
    decreases stmts
  {
    hide ParseBlock, Plain, Lines;
    if stmts == [] {
      NothingParsed(d, rest);
      LinesNothing(d, rest);
    } else {
      var s, more := stmts[0], stmts[1..];
      var behind := Lines(more, d) + rest;
      LinesFront(stmts, d, rest);
      LinesParsed(more, d, rest);
      match s
      case Simple(text) => SimpleParsed(text, d, behind, more, rest);
      case Compound(header, body) =>
        if more != [] { FirstLine(more, d); } else { LinesNothing(d, rest); }
        FirstLine(body, d + 1);
        assert AllWellFormed(body);
        LinesParsed(body, d + 1, behind);
        CompoundParsed(header, d, Lines(body, d + 1), body, behind, more, rest);
    }
  }

  lemma LinesNothing(d: nat, rest: seq<Line>)
    ensures Lines([], d) + rest == rest
  {
    assert [] + rest == rest;
  }

  lemma LinesFront(stmts: seq<Stmt>, d: nat, rest: seq<Line>)
    requires stmts != []
    ensures [stmts[0]] + stmts[1..] == stmts
    ensures var behind := Lines(stmts[1..], d) + rest;
            Lines(stmts, d) + rest
            == match stmts[0]
               case Simple(text) => [Line(d, text)] + behind
               case Compound(header, body) => [Line(d, header)] + (Lines(body, d + 1) + behind)
  {
    var behind := Lines(stmts[1..], d) + rest;
    Associative(LinesOf(stmts[0], d), Lines(stmts[1..], d), rest);
    match stmts[0]
    case Simple(text) =>
    case Compound(header, body) => Associative([Line(d, header)], Lines(body, d + 1), behind);
  }

  lemma Associative<T>(a: seq<T>, b: seq<T>, c: seq<T>)
    ensures (a + b) + c == a + (b + c)
  {
  }

  lemma NothingParsed(d: nat, rest: seq<Line>)
    requires rest == [] || rest[0].indent < d
    ensures ParseBlock(rest, d) == Success(([], rest))
  {
  }

  predicate AllPlain(lines: seq<Line>) {
    forall i :: 0 <= i < |lines| ==> Plain(lines[i].text)
  }

  lemma {:induction false} LinesPlain(stmts: seq<Stmt>, d: nat)
    requires AllWellFormed(stmts)
    ensures AllPlain(Lines(stmts, d))
    decreases stmts
  {
    hide Plain;
    if stmts != [] {
      assert WellFormed(stmts[0]);
      LinesPlain(stmts[1..], d);
      if stmts[0].Compound? {
        assert AllWellFormed(stmts[0].body);
        LinesPlain(stmts[0].body, d + 1);
      }
      assert AllPlain(LinesOf(stmts[0], d));
    }
  }

  lemma RenderOne(l: Line)
    ensures Render([l]) == LineText(l)
  {
    assert [l][1..] == [];
  }

  lemma OneLine(text: string, d: nat)
    ensures Render(Lines([Simple(text)], d)) == LineText(Line(d, text))
    ensures d == 0 ==> LineText(Line(d, text)) == text + "\n"
    ensures d == 1 ==> LineText(Line(d, text)) == "\t" + text + "\n"
  {
    assert Lines([Simple(text)], d) == [Line(d, text)] + [];
    RenderOne(Line(d, text));
    if d == 0 { assert Tabs(0) + text == text; }
    if d == 1 { assert Tabs(1) == "\t"; }
  }

  lemma BlockText(header: string, body: seq<Stmt>, d: nat)
    ensures Render(Lines([Compound(header, body)], d)) == LineText(Line(d, header)) + Render(Lines(body, d + 1))
  {
    hide LineText;
    var c := Compound(header, body);
    assert [c][1..] == [];
    assert Lines([c], d) == LinesOf(c, d) + [];
    assert LinesOf(c, d) + [] == [Line(d, header)] + Lines(body, d + 1);
    RenderJoin([Line(d, header)], Lines(body, d + 1));
    RenderOne(Line(d, header));
  }

  /** The text of a program is read back as that program. */
  lemma TextParsed(stmts: seq<Stmt>)
    requires AllWellFormed(stmts)
    ensures ParseText(Render(Lines(stmts, 0))) == Success(stmts)
  {
    LinesPlain(stmts, 0);
    RenderedIsRead(Lines(stmts, 0), "");
    assert Render(Lines(stmts, 0)) + "" == Render(Lines(stmts, 0));
    NoLines();
    LinesParsed(stmts, 0, []);
    assert Lines(stmts, 0) + [] == Lines(stmts, 0);
  }
}
