/** Finding and splitting at a character. */
module Strings {

  predicate Unbroken(text: string) {
    '\n' !in text
  }

  /** The position of the first `c`, or the length. */
  function UpTo(s: string, c: char): (n: nat)
    ensures n <= |s|
  {
    if s == "" || s[0] == c then 0 else 1 + UpTo(s[1..], c)
  }

  lemma {:induction false} UpToFound(front: string, c: char, rest: string)
    requires c !in front
    ensures UpTo(front + [c] + rest, c) == |front|
    decreases |front|
  {
    if front != "" {
      assert front[0] in front;
      assert (front + [c] + rest)[1..] == front[1..] + [c] + rest;
      UpToFound(front[1..], c, rest);
    }
  }

  /** The pieces between the separators: `split` of Python and of QString. */
  function Split(text: string, sep: char): (r: seq<string>)
    ensures r != []
  {
    if text == "" then [""]
    else
      var rest := Split(text[1..], sep);
      if text[0] == sep then [""] + rest else [[text[0]] + rest[0]] + rest[1..]
  }

  lemma {:induction false} SplitItem(p: string, sep: char, rest: string)
    requires sep !in p
    ensures Split(p + [sep] + rest, sep) == [p] + Split(rest, sep)
    decreases |p|
  {
    if p == "" {
      assert "" + [sep] + rest == [sep] + rest && ([sep] + rest)[1..] == rest;
    } else {
      assert (p + [sep] + rest)[1..] == p[1..] + [sep] + rest && (p + [sep] + rest)[0] == p[0];
      assert p[0] in p && [p[0]] + p[1..] == p;
      SplitItem(p[1..], sep, rest);
    }
  }

  lemma {:induction false} SplitLast(p: string, sep: char)
    requires sep !in p
    ensures Split(p, sep) == [p]
    decreases |p|
  {
    if p != "" {
      assert p[0] in p && [p[0]] + p[1..] == p;
      SplitLast(p[1..], sep);
    }
  }

  /** Pieces hold no separator, and nothing that was not in the text. */
  lemma {:induction false} SplitPieces(text: string, sep: char)
    ensures forall i :: 0 <= i < |Split(text, sep)| ==> sep !in Split(text, sep)[i]
    ensures forall i, c :: 0 <= i < |Split(text, sep)| && c in Split(text, sep)[i] ==> c in text
    decreases |text|
  {
    if text != "" {
      SplitPieces(text[1..], sep);
      assert forall c :: c in text[1..] ==> c in text;
      assert text[0] in text;
    }
  }
}
