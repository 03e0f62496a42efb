/** The snippet text under construction (`utils.SnippetStringBuilder`):
    literal text, cursor tab stops, a placeholder with default text, and line
    breaks. Tab-stop numbering and the final comment wrapping are the
    utilities module's and are not modelled. */
module Snippet {

  datatype Token = Text(s: string) | Tabstop | Placeholder(s: string) | Newline

  /** `appendLine(s)`: the text followed by a line break. */
  function Line(s: string): seq<Token>
  {
    [Text(s), Newline]
  }

  /** Number of lines, that is of line breaks, in a token sequence. */
  function LineCount(ts: seq<Token>): nat
  {
    if |ts| == 0 then 0 else (if ts[0] == Newline then 1 else 0) + LineCount(ts[1..])
  }

  lemma {:induction false} LineCountAppend(a: seq<Token>, b: seq<Token>)
    ensures LineCount(a + b) == LineCount(a) + LineCount(b)
    decreases |a|
  {
    if |a| == 0 {
      assert a + b == b;
    } else {
      assert (a + b)[0] == a[0];
      assert (a + b)[1..] == a[1..] + b;
      LineCountAppend(a[1..], b);
    }
  }

  /** One line per string, in order. */
  function Lines(ss: seq<string>): seq<Token>
  {
    if |ss| == 0 then [] else Lines(ss[..|ss| - 1]) + Line(ss[|ss| - 1])
  }

  lemma {:induction false} LineCountNone(ts: seq<Token>)
    requires Newline !in ts
    ensures LineCount(ts) == 0
    decreases |ts|
  {
    if |ts| > 0 {
      assert Newline !in ts[1..];
      LineCountNone(ts[1..]);
    }
  }

  lemma LineCountLine(s: string)
    ensures LineCount(Line(s)) == 1
  {
    assert Line(s)[1..] == [Newline];
    assert [Newline][1..] == [];
  }

  /** `Lines` gives exactly one line per string. */
  lemma {:induction false} LineCountLines(ss: seq<string>)
    ensures LineCount(Lines(ss)) == |ss|
    decreases |ss|
  {
    if |ss| > 0 {
      LineCountLines(ss[..|ss| - 1]);
      LineCountAppend(Lines(ss[..|ss| - 1]), Line(ss[|ss| - 1]));
      LineCountLine(ss[|ss| - 1]);
    }
  }

  lemma {:induction false} LinesAppend(a: seq<string>, b: seq<string>)
    ensures Lines(a + b) == Lines(a) + Lines(b)
    decreases |b|
  {
    if |b| == 0 {
      assert a + b == a;
    } else {
      assert (a + b)[..|a + b| - 1] == a + b[..|b| - 1];
      LinesAppend(a, b[..|b| - 1]);
    }
  }

  /** Appending pieces in turn appends their concatenation. */
  lemma AppendInTurn<T>(t: seq<T>, a: seq<T>, b: seq<T>)
    ensures t + a + b == t + (a + b)
  {
  }

  lemma Appended3(t: seq<Token>, a: seq<Token>, b: seq<Token>, c: seq<Token>)
    ensures t + a + b + c == t + (a + b + c)
  {
    AppendInTurn(t, a, b);
    AppendInTurn(t, a + b, c);
  }

  lemma Appended4(t: seq<Token>, a: seq<Token>, b: seq<Token>, c: seq<Token>, d: seq<Token>)
    ensures t + a + b + c + d == t + (a + b + c + d)
  {
    Appended3(t, a, b, c);
    AppendInTurn(t, a + b + c, d);
  }

  lemma Appended5(t: seq<Token>, a: seq<Token>, b: seq<Token>, c: seq<Token>, d: seq<Token>, e: seq<Token>)
    ensures t + a + b + c + d + e == t + (a + b + c + d + e)
  {
    Appended4(t, a, b, c, d);
    AppendInTurn(t, a + b + c + d, e);
  }

  lemma Appended6(t: seq<Token>, a: seq<Token>, b: seq<Token>, c: seq<Token>, d: seq<Token>, e: seq<Token>,
                  f: seq<Token>)
    ensures t + a + b + c + d + e + f == t + (a + b + c + d + e + f)
  {
    Appended5(t, a, b, c, d, e);
    AppendInTurn(t, a + b + c + d + e, f);
  }

  lemma Appended7(t: seq<Token>, a: seq<Token>, b: seq<Token>, c: seq<Token>, d: seq<Token>, e: seq<Token>,
                  f: seq<Token>, g: seq<Token>)
    ensures t + a + b + c + d + e + f + g == t + (a + b + c + d + e + f + g)
  {
    Appended6(t, a, b, c, d, e, f);
    AppendInTurn(t, a + b + c + d + e + f, g);
  }

  class SnippetBuilder {
    var tokens: seq<Token>

    constructor ()
      ensures tokens == []
    {
      tokens := [];
    }

    method Append(s: string)
      modifies this
      ensures tokens == old(tokens) + [Text(s)]
    {
      tokens := tokens + [Text(s)];
    }

    method AppendLine(s: string)
      modifies this
      ensures tokens == old(tokens) + Line(s)
    {
      tokens := tokens + Line(s);
    }

    /** `appendLine()` with no text. */
    method NewLine()
      modifies this
      ensures tokens == old(tokens) + [Newline]
    {
      tokens := tokens + [Newline];
    }

    method AppendSnippetTabstop()
      modifies this
      ensures tokens == old(tokens) + [Tabstop]
    {
      tokens := tokens + [Tabstop];
    }

    method AppendSnippetPlaceholder(s: string)
      modifies this
      ensures tokens == old(tokens) + [Placeholder(s)]
    {
      tokens := tokens + [Placeholder(s)];
    }
  }
}
