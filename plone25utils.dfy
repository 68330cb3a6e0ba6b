/** `stringify` of gen/plone25/utils.py: the text under which a Python value
    is written into a generated source file. */
module Plone25Utils {
  import opened Text

  /** The values stringify distinguishes. A tuple and a list are both a
      `PySeq`; `str()` of any other non-string scalar is given as its text;
      a DateTime is given already formatted as `%Y/%m/%d %H:%M`. */
  datatype PyValue =
    | PySeq(items: seq<PyValue>)
    | PyDateTime(formatted: string)
    | PyStr(s: string)
    | PyScalar(text: string)

  const PYTHON_PREFIX := "python:"

  // ---------------------------------------------------------------------------
  // Quoting a string
  // ---------------------------------------------------------------------------

  /** The quoting as written: `'` becomes `\'` inside the quotes, then every
      newline of the quoted text becomes `\n`; a backslash is kept as is. */
  function QuotedAsWritten(s: string): string {
    ReplaceChar("'" + ReplaceChar(s, '\'', "\\'") + "'", '\n', "\\n")
  }

  /** How Python reads the body of a single-quoted literal, for the escapes
      `\\`, `\'` and `\n`; any other backslash is kept with the character
      after it. */
  function Unescape(body: string): string
    decreases |body|
  {
    if body == [] then []
    else if body[0] == '\\' && |body| >= 2 then
      var c := body[1];
      (if c == 'n' then "\n" else if c == '\'' || c == '\\' then [c] else ['\\', c]) + Unescape(body[2..])
    else [body[0]] + Unescape(body[1..])
  }

  /** The text between the outer quotes of a quoted string. */
  function Body(q: string): string {
    if |q| >= 2 then q[1..|q| - 1] else []
  }

  /** A backslash followed by `n` in the value comes back as a newline: the
      written literal is not the value. */
  lemma BackslashNotKept()
    ensures Unescape(Body(QuotedAsWritten("\\n"))) != "\\n"
  {
    var s := "\\n";
    ReplaceCharAbsent(s, '\'', "\\'");
    var q := "'" + s + "'";
    ReplaceCharAbsent(q, '\n', "\\n");
    assert Body(q) == s;
    assert Unescape(s) == "\n" + Unescape([]);
  }

  /** The escape of one character: backslash, quote and newline are preceded
      by a backslash (the newline written as `n`). */
  function EscapeChar(c: char): string {
    if c == '\\' then "\\\\" else if c == '\'' then "\\'" else if c == '\n' then "\\n" else [c]
  }

  function Escaped(s: string): (r: string)
    ensures |r| >= |s|
  {
    if s == [] then [] else EscapeChar(s[0]) + Escaped(s[1..])
  }

  /** The quoting with backslashes escaped too. */
  function Quoted(s: string): (q: string)
    ensures |q| >= 2 && q[0] == '\'' && q[|q| - 1] == '\''
  {
    "'" + Escaped(s) + "'"
  }

  /** Reading the quoted text back gives the string. */
  lemma {:induction false} UnescapeEscaped(s: string)
    ensures Unescape(Escaped(s)) == s
  {
    if s != [] {
      UnescapeEscaped(s[1..]);
      var e := EscapeChar(s[0]);
      var r := Escaped(s[1..]);
      assert Escaped(s) == e + r;
      if s[0] == '\\' || s[0] == '\'' || s[0] == '\n' {
        assert (e + r)[0] == '\\' && (e + r)[1] == e[1] && (e + r)[2..] == r;
      } else {
        assert (e + r)[0] == s[0] && (e + r)[1..] == r;
      }
    }
  }

  lemma QuotedRoundTrip(s: string)
    ensures Unescape(Body(Quoted(s))) == s
  {
    assert Body(Quoted(s)) == Escaped(s);
    UnescapeEscaped(s);
  }

  lemma {:induction false} ReplaceCharConcat(a: string, b: string, c: char, repl: string)
    ensures ReplaceChar(a + b, c, repl) == ReplaceChar(a, c, repl) + ReplaceChar(b, c, repl)
    decreases |b|
  {
    if b != [] {
      var b' := b[..|b| - 1];
      assert (a + b)[..|a + b| - 1] == a + b';
      ReplaceCharConcat(a, b', c, repl);
    } else {
      assert a + b == a;
    }
  }

  lemma {:induction false} ReplaceCharAbsent(s: string, c: char, repl: string)
    requires c !in s
    ensures ReplaceChar(s, c, repl) == s
  {
    if s != [] {
      ReplaceCharAbsent(s[..|s| - 1], c, repl);
    }
  }

  lemma ReplaceCharOne(x: char, c: char, repl: string)
    ensures ReplaceChar([x], c, repl) == if x == c then repl else [x]
  {
    assert [x][..0] == [];
  }

  /** The two replacements of the quoting as written, on one character that
      is not a backslash, give its escape. */
  lemma EscapeOne(x: char)
    requires x != '\\'
    ensures ReplaceChar(ReplaceChar([x], '\'', "\\'"), '\n', "\\n") == EscapeChar(x)
  {
    ReplaceCharOne(x, '\'', "\\'");
    if x == '\'' {
      ReplaceCharAbsent("\\'", '\n', "\\n");
    } else {
      ReplaceCharOne(x, '\n', "\\n");
    }
  }

  lemma {:induction false} QuoteSteps(s: string)
    requires '\\' !in s
    ensures ReplaceChar(ReplaceChar(s, '\'', "\\'"), '\n', "\\n") == Escaped(s)
  {
    if s != [] {
      var x, t := s[0], s[1..];
      QuoteSteps(t);
      assert s == [x] + t;
      ReplaceCharConcat([x], t, '\'', "\\'");
      ReplaceCharConcat(ReplaceChar([x], '\'', "\\'"), ReplaceChar(t, '\'', "\\'"), '\n', "\\n");
      EscapeOne(x);
    }
  }

  /** The two quotings agree on strings without a backslash. */
  lemma QuotedWithoutBackslash(s: string)
    requires '\\' !in s
    ensures QuotedAsWritten(s) == Quoted(s)
  {
    var inner := ReplaceChar(s, '\'', "\\'");
    ReplaceCharConcat("'" + inner, "'", '\n', "\\n");
    ReplaceCharConcat("'", inner, '\n', "\\n");
    ReplaceCharOne('\'', '\n', "\\n");
    QuoteSteps(s);
  }

  // ---------------------------------------------------------------------------
  // stringify
  // ---------------------------------------------------------------------------

  /** The text of one scalar value. A string is quoted with `Quoted`, which
      escapes backslashes too, where the source uses `QuotedAsWritten`
      (`BackslashNotKept` shows the difference). */
  function ScalarText(v: PyValue): string
    requires !v.PySeq?
  {
    match v
    case PyDateTime(f) => "DateTime(\"" + f + "\")"
    case PyScalar(t) => t
    case PyStr(s) => if StartsWith(s, PYTHON_PREFIX) then s[|PYTHON_PREFIX|..] else Quoted(s)
  }

  /** The value as stringify writes it: a sequence is `(`, each item's text
      followed by a comma, then `)`. */
  function Stringify(v: PyValue): string
    decreases v, 1
  {
    if v.PySeq? then "(" + ItemsText(v, |v.items|) + ")" else ScalarText(v)
  }

  /** The text of the first `n` items of a sequence. */
  function ItemsText(v: PyValue, n: nat): string
    requires v.PySeq? && n <= |v.items|
    decreases v, 0, n
  {
    if n == 0 then [] else ItemsText(v, n - 1) + Stringify(v.items[n - 1]) + ","
  }

  /** stringify: the loop appends each item's text and a comma between the
      parentheses. */
  method StringifyValue(v: PyValue) returns (res: string)
    ensures res == Stringify(v)
    decreases v
  {
    if v.PySeq? {
      res := "(";
      for i := 0 to |v.items|
        invariant res == "(" + ItemsText(v, i)
      {
        var item := StringifyValue(v.items[i]);
        res := res + item + ",";
      }
      res := res + ")";
    } else if v.PyDateTime? {
      res := "DateTime(\"" + v.formatted + "\")";
    } else if v.PyStr? {
      if StartsWith(v.s, PYTHON_PREFIX) {
        res := v.s[|PYTHON_PREFIX|..];
      } else {
        res := Quoted(v.s);
      }
    } else {
      res := v.text;
    }
  }

  /** A string that does not start with `python:` is written as a quoted
      literal that reads back as the string. */
  lemma StringRoundTrip(s: string)
    requires !StartsWith(s, PYTHON_PREFIX)
    ensures var r := Stringify(PyStr(s));
            |r| >= 2 && r[0] == '\'' && r[|r| - 1] == '\'' && Unescape(r[1..|r| - 1]) == s
  {
    QuotedRoundTrip(s);
  }

  /** A string starting with `python:` is written as the expression after
      the prefix, verbatim. */
  lemma PythonExpression(e: string)
    ensures Stringify(PyStr(PYTHON_PREFIX + e)) == e
  {
    assert (PYTHON_PREFIX + e)[..|PYTHON_PREFIX|] == PYTHON_PREFIX;
    assert (PYTHON_PREFIX + e)[|PYTHON_PREFIX|..] == e;
  }
}
