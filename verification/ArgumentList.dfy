/** Comma-separated lists inside brackets, as Python reads them in calls, parameter lists and list displays: a comma or a
    closing bracket counts only outside of quotes and inner brackets, a trailing comma is allowed, and no item is empty. */
module ArgumentList {
  import opened Wrappers

  datatype Error = SyntaxError

  function Join(parts: seq<string>): string {
    if parts == [] then "" else if |parts| == 1 then parts[0] else parts[0] + "," + Join(parts[1..])
  }

  // ---------------------------------------------------------------- scanning

  /** The brackets still to be closed, innermost first, and the quote that is open. */
  datatype Mode = Mode(closers: string, quote: Option<char>, escaped: bool)

  const TOP := Mode("", None, false)

  function Closer(c: char): char {
    if c == '(' then ')' else if c == '[' then ']' else '}'
  }

  predicate Opens(c: char) {
    c == '(' || c == '[' || c == '{'
  }

  predicate Closes(c: char) {
    c == ')' || c == ']' || c == '}'
  }

  predicate IsQuote(c: char) {
    c == '\'' || c == '"'
  }

  function After(m: Mode, c: char): Mode {
    match m.quote
    case Some(q) =>
      if m.escaped then m.(escaped := false)
      else if c == '\\' then m.(escaped := true)
      else if c == q then m.(quote := None)
      else m
    case None =>
      if IsQuote(c) then m.(quote := Some(c))
      else if Opens(c) then m.(closers := [Closer(c)] + m.closers)
      else if m.closers != "" && m.closers[0] == c then m.(closers := m.closers[1..])
      else m
  }

  predicate EndsItem(m: Mode, c: char) {
    m == TOP && (c == ',' || Closes(c))
  }

  /** The mode behind `p`, when no item ends within it. */
  function Run(m: Mode, p: string): Option<Mode>
    decreases |p|
  {
    if p == "" then Some(m) else if EndsItem(m, p[0]) then None else Run(After(m, p[0]), p[1..])
  }

  /** Text that can stand as one item: its brackets and quotes are closed, and its commas are inside them. */
  predicate Balanced(p: string) {
    Run(TOP, p) == Some(TOP)
  }

  // ---------------------------------------------------------------- reading

  /** The texts between the commas up to the closing bracket, and what is behind it. */
  function Pieces(s: string, close: char, m: Mode, piece: string): Result<(seq<string>, string), Error>
    decreases |s|
  {
    if s == "" then Failure(SyntaxError)
    else if !EndsItem(m, s[0]) then Pieces(s[1..], close, After(m, s[0]), piece + [s[0]])
    else if s[0] == ',' then
      var more :- Pieces(s[1..], close, TOP, "");
      Success(([piece] + more.0, more.1))
    else if s[0] == close then Success(([piece], s[1..]))
    else Failure(SyntaxError)
  }

  function WithoutTrailing(pieces: seq<string>): seq<string> {
    if pieces != [] && pieces[|pieces| - 1] == "" then pieces[..|pieces| - 1] else pieces
  }

  /** The items of a list whose opening bracket is already read. */
  function ReadItems(s: string, close: char): Result<(seq<string>, string), Error> {
    var r :- Pieces(s, close, TOP, "");
    var items := WithoutTrailing(r.0);
    if "" in items then Failure(SyntaxError) else Success((items, r.1))
  }

  // ---------------------------------------------------------------- reading back what was joined

  lemma {:induction false} PieceRead(p: string, rest: string, close: char, m: Mode, piece: string)
    requires Run(m, p).Some?
    ensures Pieces(p + rest, close, m, piece) == Pieces(rest, close, Run(m, p).value, piece + p)
    decreases |p|
  {
    hide After, EndsItem;
    if p == "" {
      assert p + rest == rest && piece + p == piece;
    } else {
      assert (p + rest)[1..] == p[1..] + rest && (p + rest)[0] == p[0];
      PieceRead(p[1..], rest, close, After(m, p[0]), piece + [p[0]]);
      assert piece + [p[0]] + p[1..] == piece + p;
    }
  }

  predicate AllBalanced(parts: seq<string>) {
    forall i :: 0 <= i < |parts| ==> Balanced(parts[i])
  }

  lemma LastPiece(p: string, close: char, rest: string)
    requires Balanced(p) && Closes(close)
    ensures Pieces(p + ([close] + rest), close, TOP, "") == Success(([p], rest))
  {
    PieceRead(p, [close] + rest, close, TOP, "");
    assert "" + p == p && ([close] + rest)[1..] == rest;
  }

  lemma FirstPiece(p: string, close: char, behind: string)
    requires Balanced(p) && Pieces(behind, close, TOP, "").Success?
    ensures var more := Pieces(behind, close, TOP, "").value;
            Pieces(p + ("," + behind), close, TOP, "") == Success(([p] + more.0, more.1))
  {
    PieceRead(p, "," + behind, close, TOP, "");
    assert "" + p == p && ("," + behind)[1..] == behind;
  }

  lemma {:induction false} PiecesOfJoin(parts: seq<string>, close: char, rest: string)
    requires parts != [] && AllBalanced(parts) && Closes(close)
    ensures Pieces(Join(parts) + ([close] + rest), close, TOP, "") == Success((parts, rest))
    decreases |parts|
  {
    hide Pieces, Balanced, Closes;
    if |parts| == 1 {
      LastPiece(parts[0], close, rest);
      assert [parts[0]] == parts;
    } else {
      var behind := Join(parts[1..]) + ([close] + rest);
      PiecesOfJoin(parts[1..], close, rest);
      FirstPiece(parts[0], close, behind);
      assert Join(parts) + ([close] + rest) == parts[0] + ("," + behind);
      assert [parts[0]] + parts[1..] == parts;
    }
  }

  /** Joined items are read back exactly when none is empty; an empty one is an error or changes their number. */
  lemma ItemsRead(parts: seq<string>, close: char, rest: string)
    requires AllBalanced(parts) && Closes(close)
    ensures var r := ReadItems(Join(parts) + ([close] + rest), close);
            && (r == Success((parts, rest)) <==> "" !in parts)
            && (r.Success? && |r.value.0| == |parts| <==> "" !in parts)
  {
    hide Pieces, Balanced, Closes;
    if parts == [] {
      LastPiece("", close, rest) by { assert Balanced("") by { EmptyBalanced(); } }
    } else {
      PiecesOfJoin(parts, close, rest);
      if "" in parts && parts[|parts| - 1] != "" {
        assert WithoutTrailing(parts) == parts;
      }
    }
  }

  lemma EmptyBalanced()
    ensures Balanced("")
  {
  }

  /** A trailing comma changes nothing. */
  lemma TrailingComma(parts: seq<string>, close: char, rest: string)
    requires parts != [] && AllBalanced(parts) && "" !in parts && Closes(close)
    ensures ReadItems(Join(parts) + "," + ([close] + rest), close) == Success((parts, rest))
  {
    hide Pieces, Balanced, Closes, Join;
    EmptyBalanced();
    var longer := parts + [""];
    JoinLonger(parts, "");
    assert Join(parts) + "," + "" == Join(parts) + ",";
    PiecesOfJoin(longer, close, rest);
    assert longer[..|parts|] == parts;
  }

  lemma {:induction false} JoinLonger(parts: seq<string>, p: string)
    requires parts != []
    ensures Join(parts + [p]) == Join(parts) + "," + p
    decreases |parts|
  {
    assert (parts + [p])[1..] == parts[1..] + [p];
    if |parts| == 1 {
      assert parts[1..] + [p] == [p];
    } else {
      JoinLonger(parts[1..], p);
      assert parts[0] + "," + (Join(parts[1..]) + "," + p) == parts[0] + "," + Join(parts[1..]) + "," + p;
    }
  }

  // ---------------------------------------------------------------- what is balanced

  predicate IsWordChar(c: char) {
    'a' <= c <= 'z' || 'A' <= c <= 'Z' || '0' <= c <= '9' || c == '_'
  }

  predicate IsWord(s: string) {
    s != "" && forall i :: 0 <= i < |s| ==> IsWordChar(s[i])
  }

  /** Text that can stand between single quotes. */
  predicate Quotable(s: string) {
    '\'' !in s && '\\' !in s
  }

  lemma {:induction false} WordRun(s: string)
    requires forall i :: 0 <= i < |s| ==> IsWordChar(s[i])
    ensures Run(TOP, s) == Some(TOP)
    decreases |s|
  {
    if s != "" {
      assert IsWordChar(s[0]);
      WordRun(s[1..]);
    }
  }

  lemma {:induction false} RunJoin(m: Mode, a: string, b: string)
    requires Run(m, a).Some?
    ensures Run(m, a + b) == Run(Run(m, a).value, b)
    decreases |a|
  {
    hide After, EndsItem;
    if a == "" {
      assert a + b == b;
    } else {
      assert (a + b)[1..] == a[1..] + b && (a + b)[0] == a[0];
      RunJoin(After(m, a[0]), a[1..], b);
    }
  }

  lemma {:induction false} QuotedRun(m: Mode, s: string)
    requires m.quote == Some('\'') && !m.escaped && Quotable(s)
    ensures Run(m, s) == Some(m)
    decreases |s|
  {
    if s != "" {
      assert s[0] in s;
      QuotedRun(m, s[1..]);
    }
  }

  lemma OneChar(m: Mode, c: char)
    requires !EndsItem(m, c)
    ensures Run(m, [c]) == Some(After(m, c))
  {
    hide After, EndsItem;
    assert [c][1..] == "";
  }

  lemma QuoteRun(m: Mode, s: string)
    requires m.quote == None && !m.escaped && Quotable(s)
    ensures Run(m, "'" + s + "'") == Some(m)
  {
    hide Run;
    var inside := m.(quote := Some('\''));
    OneChar(m, '\'');
    QuotedRun(inside, s);
    RunJoin(m, "'", s);
    OneChar(inside, '\'');
    RunJoin(m, "'" + s, "'");
  }

  /** Inside a bracket, joined texts that each return to it do so together. */
  lemma {:induction false} JoinRun(m: Mode, parts: seq<string>)
    requires m.quote == None && !m.escaped && m.closers != "" && m.closers[0] != ','
    requires forall i :: 0 <= i < |parts| ==> Run(m, parts[i]) == Some(m)
    ensures Run(m, Join(parts)) == Some(m)
    decreases |parts|
  {
    hide Run;
    if parts == [] {
      EmptyRun(m);
    } else if |parts| > 1 {
      JoinRun(m, parts[1..]);
      OneChar(m, ',');
      RunJoin(m, parts[0], ",");
      RunJoin(m, parts[0] + ",", Join(parts[1..]));
    }
  }

  lemma EmptyRun(m: Mode)
    ensures Run(m, "") == Some(m)
  {
  }

  /** A bracket around text that stays inside it. */
  lemma BracketBalanced(open: char, inner: string)
    requires Opens(open) && Run(Mode([Closer(open)], None, false), inner) == Some(Mode([Closer(open)], None, false))
    ensures Balanced([open] + inner + [Closer(open)])
  {
    hide Run;
    var m := Mode([Closer(open)], None, false);
    OneChar(TOP, open);
    assert [Closer(open)] + "" == [Closer(open)];
    RunJoin(TOP, [open], inner);
    OneChar(m, Closer(open));
    assert m.closers[1..] == "";
    RunJoin(TOP, [open] + inner, [Closer(open)]);
  }
}
