/** Layout strings (gen/layout.py): a layout such as "lrv-d-f" or "l;f!-" is
    decoded into a table of rows of cells. Row delimiters '-', '=', '_' end a
    row (aligned middle, top, bottom); cell delimiters '|', ';', '!' end a cell
    (aligned center, left, right). Letters name the macros to render in a cell,
    digits give its colspan. */
module Layout {
  import opened Wrappers
  import opened Text
  import opened Lists

  const ROW_DELIMS: set<char> := {'-', '=', '_'}
  const CELL_DELIMS: set<char> := {'|', ';', '!'}

  /** The `rowDelimiters` table ('-' is "middle"). */
  function RowAlign(c: char): string {
    if c == '=' then "top" else if c == '_' then "bottom" else "middle"
  }

  /** The `cellDelimiters` table (';' is "left"). */
  function CellAlign(c: char): string {
    if c == '|' then "center" else if c == '!' then "right" else "left"
  }

  /** What a cell renders: one of the macros of `macroDict`, or the field
      itself, whose exact macro is only known at render time ('?'). */
  datatype Item = Macro(kind: string, name: string) | FieldSlot

  /** The `macroDict` table. */
  function MacroOf(c: char): Option<Item> {
    match c
    case 's' => Some(Macro("page", "header"))
    case 'w' => Some(Macro("page", "widgets"))
    case 'n' => Some(Macro("navigate", "objectNavigate"))
    case 'b' => Some(Macro("page", "buttons"))
    case 'l' => Some(Macro("show", "label"))
    case 'd' => Some(Macro("show", "description"))
    case 'h' => Some(Macro("show", "help"))
    case 'v' => Some(Macro("show", "validation"))
    case 'r' => Some(Macro("show", "required"))
    case 'c' => Some(Macro("show", "changes"))
    case _ => None
  }

  const MACRO_KEYS: set<char> := {'s', 'w', 'n', 'b', 'l', 'd', 'h', 'v', 'r', 'c'}

  /** The items one character of a cell chunk contributes. */
  function ItemsOfChar(c: char): seq<Item> {
    if IsDigit(c) then []
    else if MacroOf(c).Some? then [MacroOf(c).value]
    else if c == 'f' then [FieldSlot]
    else []
  }

  /** The items of a cell chunk, in order. */
  function ItemsOf(s: string): seq<Item> {
    if s == [] then [] else ItemsOf(s[..|s| - 1]) + ItemsOfChar(s[|s| - 1])
  }

  /** The digits of a cell chunk, concatenated. */
  function DigitsOf(s: string): (d: string)
    ensures AllDigits(d) && |d| <= |s|
  {
    if s == [] then [] else DigitsOf(s[..|s| - 1]) + (if IsDigit(s[|s| - 1]) then [s[|s| - 1]] else [])
  }

  function ColspanOf(s: string): nat {
    var d := DigitsOf(s);
    if d == [] then 1 else DecimalValue(d)
  }

  /** A decoded cell. A header cell carries the column width and no content. */
  datatype Cell = Cell(align: string, width: Option<string>, content: Option<seq<Item>>, colspan: nat)

  function MakeCell(chunk: string, align: string, isHeader: bool): Cell {
    if isHeader then Cell(align, Some(chunk), None, 1)
    else Cell(align, None, Some(ItemsOf(chunk)), ColspanOf(chunk))
  }

  /** Cell.decodeContent: one pass over the chunk collecting items and digits. */
  method DecodeContent(content: string) returns (items: seq<Item>, colspan: nat)
    ensures items == ItemsOf(content)
    ensures DigitsOf(content) == [] ==> colspan == 1
    ensures DigitsOf(content) != [] ==> colspan == DecimalValue(DigitsOf(content))
  {
    var digits := "";
    items := [];
    colspan := 1;
    var i := 0;
    while i < |content|
      invariant 0 <= i <= |content|
      invariant items == ItemsOf(content[..i])
      invariant digits == DigitsOf(content[..i])
    {
      assert content[..i + 1][..i] == content[..i];
      var c := content[i];
      if IsDigit(c) {
        digits := digits + [c];
      } else {
        var m := MacroOf(c);
        if m.Some? {
          items := items + [m.value];
        } else if c == 'f' {
          items := items + [FieldSlot];
        }
      }
      i := i + 1;
    }
    assert content[..i] == content;
    if digits != [] {
      colspan := DecimalValue(digits);
    }
  }

  /** The Cell constructor. */
  method NewCell(content: string, align: string, isHeader: bool) returns (cell: Cell)
    ensures cell == MakeCell(content, align, isHeader)
  {
    if isHeader {
      cell := Cell(align, Some(content), None, 1);
    } else {
      var items, colspan := DecodeContent(content);
      cell := Cell(align, None, Some(items), colspan);
    }
  }

  /** A string cut at delimiters: the closed chunks, each with the delimiter
      that closed it, and the text after the last delimiter. */
  datatype Chunking = Chunking(closed: seq<(string, char)>, pending: string)

  function Chunks(s: string, delims: set<char>): Chunking {
    if s == [] then Chunking([], [])
    else
      var c := Chunks(s[..|s| - 1], delims);
      var ch := s[|s| - 1];
      if ch in delims then Chunking(c.closed + [(c.pending, ch)], [])
      else Chunking(c.closed, c.pending + [ch])
  }

  /** One more character either closes the pending chunk or extends it. */
  lemma ChunksStep(s: string, i: nat, delims: set<char>)
    requires i < |s|
    ensures var c := Chunks(s[..i], delims);
      Chunks(s[..i + 1], delims) ==
        if s[i] in delims then Chunking(c.closed + [(c.pending, s[i])], [])
        else Chunking(c.closed, c.pending + [s[i]])
  {
    assert s[..i + 1][..i] == s[..i];
  }

  /** The closed chunks put back together, each followed by its delimiter. */
  function Rejoin(closed: seq<(string, char)>): string {
    if closed == [] then []
    else Rejoin(closed[..|closed| - 1]) + closed[|closed| - 1].0 + [closed[|closed| - 1].1]
  }

  /** Cutting at delimiters loses nothing: the chunks and their delimiters give
      the string back. */
  lemma {:induction false} ChunksRejoin(s: string, delims: set<char>)
    ensures Rejoin(Chunks(s, delims).closed) + Chunks(s, delims).pending == s
  {
    if s != [] {
      var s', last := s[..|s| - 1], s[|s| - 1];
      assert s == s' + [last];
      ChunksRejoin(s', delims);
      var c := Chunks(s', delims);
      if last in delims {
        var closed := c.closed + [(c.pending, last)];
        assert closed[..|closed| - 1] == c.closed;
        assert Rejoin(closed) == Rejoin(c.closed) + c.pending + [last];
      } else {
        assert Rejoin(c.closed) + (c.pending + [last]) == (Rejoin(c.closed) + c.pending) + [last];
      }
    }
  }

  /** Every closing character is a delimiter and no chunk holds one. */
  lemma {:induction false} ChunksClean(s: string, delims: set<char>)
    ensures forall k :: 0 <= k < |Chunks(s, delims).closed| ==>
      Chunks(s, delims).closed[k].1 in delims &&
      forall j :: 0 <= j < |Chunks(s, delims).closed[k].0| ==> Chunks(s, delims).closed[k].0[j] !in delims
    ensures forall j :: 0 <= j < |Chunks(s, delims).pending| ==> Chunks(s, delims).pending[j] !in delims
  {
    if s != [] {
      var s', last := s[..|s| - 1], s[|s| - 1];
      ChunksClean(s', delims);
      var c := Chunks(s', delims);
      if last in delims {
        var closed := c.closed + [(c.pending, last)];
        forall k | 0 <= k < |closed|
          ensures closed[k].1 in delims && forall j :: 0 <= j < |closed[k].0| ==> closed[k].0[j] !in delims
        {
          if k < |c.closed| {
            assert closed[k] == c.closed[k];
          }
        }
      } else {
        var pending := c.pending + [last];
        forall j | 0 <= j < |pending|
          ensures pending[j] !in delims
        {
          if j < |c.pending| {
            assert pending[j] == c.pending[j];
          }
        }
      }
    }
  }

  /** The number of closed chunks is the number of delimiters. */
  lemma {:induction false} ChunksCount(s: string, delims: set<char>)
    ensures |Chunks(s, delims).closed| == |set i | 0 <= i < |s| && s[i] in delims|
  {
    if s != [] {
      var s' := s[..|s| - 1];
      ChunksCount(s', delims);
      var before := set i | 0 <= i < |s'| && s'[i] in delims;
      var now := set i | 0 <= i < |s| && s[i] in delims;
      if s[|s| - 1] in delims {
        assert now == before + {|s| - 1};
      } else {
        assert now == before;
      }
    }
  }

  function CellsFrom(closed: seq<(string, char)>, isHeader: bool): (cells: seq<Cell>)
    ensures |cells| == |closed|
  {
    if closed == [] then []
    else
      var last := closed[|closed| - 1];
      CellsFrom(closed[..|closed| - 1], isHeader) + [MakeCell(last.0, CellAlign(last.1), isHeader)]
  }

  /** The cells Row.decodeCells produces from a row chunk. */
  function CellsOf(s: string, isHeader: bool): seq<Cell> {
    var c := Chunks(s, CELL_DELIMS);
    CellsFrom(c.closed, isHeader) + (if c.pending != [] then [MakeCell(c.pending, "left", isHeader)] else [])
  }

  /** Row.decodeCells. */
  method DecodeCells(content: string, isHeader: bool) returns (cells: seq<Cell>)
    ensures cells == CellsOf(content, isHeader)
  {
    cells := [];
    var cellContent := "";
    var i := 0;
    ghost var cs := Chunks([], CELL_DELIMS);
    while i < |content|
      invariant 0 <= i <= |content|
      invariant cs == Chunks(content[..i], CELL_DELIMS)
      invariant cellContent == cs.pending
      invariant cells == CellsFrom(cs.closed, isHeader)
    {
      ChunksStep(content, i, CELL_DELIMS);
      var c := content[i];
      if c in CELL_DELIMS {
        var cell := NewCell(cellContent, CellAlign(c), isHeader);
        ghost var closed := cs.closed + [(cellContent, c)];
        assert closed[..|closed| - 1] == cs.closed;
        cells := cells + [cell];
        cellContent := "";
        cs := Chunking(closed, []);
      } else {
        cellContent := cellContent + [c];
        cs := Chunking(cs.closed, cellContent);
      }
      i := i + 1;
    }
    assert content[..i] == content;
    if cellContent != [] {
      var cell := NewCell(cellContent, "left", isHeader);
      cells := cells + [cell];
    }
  }

  /** Splitting a row chunk gives one cell per cell delimiter, plus one for
      non-empty trailing text; there is never an empty trailing cell. */
  lemma CellsCount(s: string, isHeader: bool)
    ensures |CellsOf(s, isHeader)| ==
      |set i | 0 <= i < |s| && s[i] in CELL_DELIMS| + (if Chunks(s, CELL_DELIMS).pending != [] then 1 else 0)
  {
    ChunksCount(s, CELL_DELIMS);
  }

  /** Each cell closed by a delimiter takes that delimiter's alignment, and the
      trailing cell is aligned left. */
  lemma {:induction false} CellsAlign(s: string, isHeader: bool)
    ensures var c := Chunks(s, CELL_DELIMS);
      forall k :: 0 <= k < |c.closed| ==> (c.closed[k].1 in CELL_DELIMS &&
        CellsOf(s, isHeader)[k] == MakeCell(c.closed[k].0, CellAlign(c.closed[k].1), isHeader))
    ensures var c := Chunks(s, CELL_DELIMS);
      c.pending != [] ==> CellsOf(s, isHeader)[|c.closed|] == MakeCell(c.pending, "left", isHeader)
  {
    var c := Chunks(s, CELL_DELIMS);
    ChunksClean(s, CELL_DELIMS);
    CellsFromAt(c.closed, isHeader);
  }

  lemma {:induction false} CellsFromAt(closed: seq<(string, char)>, isHeader: bool)
    ensures forall k :: 0 <= k < |closed| ==>
      CellsFrom(closed, isHeader)[k] == MakeCell(closed[k].0, CellAlign(closed[k].1), isHeader)
  {
    if closed != [] {
      var n := |closed| - 1;
      var front := closed[..n];
      CellsFromAt(front, isHeader);
      var prev := CellsFrom(front, isHeader);
      var cells := CellsFrom(closed, isHeader);
      assert cells == prev + [MakeCell(closed[n].0, CellAlign(closed[n].1), isHeader)];
      assert |prev| == n;
      var last := MakeCell(closed[n].0, CellAlign(closed[n].1), isHeader);
      assert cells[n] == last;
      forall k | 0 <= k < |closed|
        ensures cells[k] == MakeCell(closed[k].0, CellAlign(closed[k].1), isHeader)
      {
        if k < n {
          assert closed[k] == front[k];
          assert cells[k] == prev[k];
        }
      }
    }
  }

  /** A decoded row; `length` is the number of columns it spans. */
  datatype Row = Row(valign: string, cells: seq<Cell>, length: nat)

  function SumColspans(cells: seq<Cell>): nat {
    if cells == [] then 0 else SumColspans(cells[..|cells| - 1]) + cells[|cells| - 1].colspan
  }

  function MakeRow(content: string, valign: string, isHeader: bool): Row {
    var cells := CellsOf(content, isHeader);
    Row(valign, cells, SumColspans(cells))
  }

  /** The Row constructor: decode the cells, then add up their colspans. */
  method NewRow(content: string, valign: string, isHeader: bool) returns (row: Row)
    ensures row.valign == valign && row.cells == CellsOf(content, isHeader)
    ensures row.length == SumColspans(row.cells)
  {
    var cells := DecodeCells(content, isHeader);
    var length := 0;
    var i := 0;
    while i < |cells|
      invariant 0 <= i <= |cells|
      invariant length == SumColspans(cells[..i])
    {
      assert cells[..i + 1][..i] == cells[..i];
      length := length + cells[i].colspan;
      i := i + 1;
    }
    assert cells[..i] == cells;
    row := Row(valign, cells, length);
  }

  /** Table.isHeaderRow. */
  function IsHeaderRow(s: string): bool {
    if s == [] then true
    else if s[0] in CELL_DELIMS then IsHeaderRow(s[1..])
    else IsDigit(s[0])
  }

  /** A row chunk is a header row iff the first character that is not a cell
      delimiter is a digit, or there is no such character. */
  lemma {:induction false} IsHeaderRowMeaning(s: string)
    ensures IsHeaderRow(s) <==>
      (forall i :: 0 <= i < |s| ==> s[i] in CELL_DELIMS) ||
      (exists i :: 0 <= i < |s| && IsDigit(s[i]) && s[i] !in CELL_DELIMS &&
         forall j :: 0 <= j < i ==> s[j] in CELL_DELIMS)
  {
    if s != [] && s[0] in CELL_DELIMS {
      var t := s[1..];
      IsHeaderRowMeaning(t);
      assert forall i :: 1 <= i < |s| ==> s[i] == t[i - 1];
      if exists i :: 0 <= i < |t| && IsDigit(t[i]) && t[i] !in CELL_DELIMS &&
           forall j :: 0 <= j < i ==> t[j] in CELL_DELIMS {
        var i :| 0 <= i < |t| && IsDigit(t[i]) && t[i] !in CELL_DELIMS &&
          forall j :: 0 <= j < i ==> t[j] in CELL_DELIMS;
        assert forall j :: 0 <= j < i + 1 ==> s[j] in CELL_DELIMS;
      }
      if exists i :: 0 <= i < |s| && IsDigit(s[i]) && s[i] !in CELL_DELIMS &&
           forall j :: 0 <= j < i ==> s[j] in CELL_DELIMS {
        var i :| 0 <= i < |s| && IsDigit(s[i]) && s[i] !in CELL_DELIMS &&
          forall j :: 0 <= j < i ==> s[j] in CELL_DELIMS;
        assert i > 0;
        assert forall j :: 0 <= j < i - 1 ==> t[j] in CELL_DELIMS;
      }
    } else if s != [] {
      assert !(forall i :: 0 <= i < |s| ==> s[i] in CELL_DELIMS);
    }
  }

  /** The header row is the first closed row chunk that is a header row. */
  function HeaderOf(closed: seq<(string, char)>): Option<Row>
  {
    if closed == [] then None
    else
      var h := HeaderOf(closed[..|closed| - 1]);
      var last := closed[|closed| - 1];
      if h.Some? then h
      else if IsHeaderRow(last.0) then Some(MakeRow(last.0, RowAlign(last.1), true))
      else None
  }

  /** The content rows: every closed chunk that is not a header row. */
  function ContentRowsOf(closed: seq<(string, char)>): seq<Row>
  {
    if closed == [] then []
    else
      var last := closed[|closed| - 1];
      ContentRowsOf(closed[..|closed| - 1]) +
        (if IsHeaderRow(last.0) then [] else [MakeRow(last.0, RowAlign(last.1), false)])
  }

  function LayoutHeader(layout: string): Option<Row> {
    HeaderOf(Chunks(layout, ROW_DELIMS).closed)
  }

  /** The loop of `Table.decodeRows`: the header row and content rows of
      the closed chunks, and the text of the row still open. */
  method WalkRows(layout: string) returns (headerRow: Option<Row>, rows: seq<Row>, rowContent: string)
    ensures var cs := Chunks(layout, ROW_DELIMS);
      headerRow == HeaderOf(cs.closed) && rows == ContentRowsOf(cs.closed) && rowContent == cs.pending
  {
    headerRow, rows, rowContent := None, [], "";
    var i := 0;
    ghost var cs := Chunks([], ROW_DELIMS);
    while i < |layout|
      invariant 0 <= i <= |layout|
      invariant cs == Chunks(layout[..i], ROW_DELIMS)
      invariant rowContent == cs.pending
      invariant headerRow == HeaderOf(cs.closed)
      invariant rows == ContentRowsOf(cs.closed)
    {
      ChunksStep(layout, i, ROW_DELIMS);
      var c := layout[i];
      if c in ROW_DELIMS {
        var valign := RowAlign(c);
        ghost var closed := cs.closed + [(rowContent, c)];
        assert closed[..|closed| - 1] == cs.closed;
        if IsHeaderRow(rowContent) {
          if headerRow.None? {
            var row := NewRow(rowContent, valign, true);
            headerRow := Some(row);
          }
        } else {
          var row := NewRow(rowContent, valign, false);
          rows := rows + [row];
        }
        rowContent := "";
        cs := Chunking(closed, []);
      } else {
        rowContent := rowContent + [c];
        cs := Chunking(cs.closed, rowContent);
      }
      i := i + 1;
    }
    assert layout[..i] == layout;
  }

  /** The rows of a layout: its non-header closed chunks, then its trailing
      text, if any, as a "middle" row (trailing text is never a header). */
  function LayoutRows(layout: string): seq<Row> {
    var c := Chunks(layout, ROW_DELIMS);
    ContentRowsOf(c.closed) + (if c.pending != [] then [MakeRow(c.pending, "middle", false)] else [])
  }

  /** Only the first header row is kept: the header, if any, comes from a header
      chunk with no header chunk before it, and without one no chunk is a header. */
  lemma {:induction false} HeaderIsFirst(closed: seq<(string, char)>)
    ensures HeaderOf(closed).None? ==> forall k :: 0 <= k < |closed| ==> !IsHeaderRow(closed[k].0)
    ensures HeaderOf(closed).Some? ==> exists i :: (0 <= i < |closed| && IsHeaderRow(closed[i].0) &&
      HeaderOf(closed) == Some(MakeRow(closed[i].0, RowAlign(closed[i].1), true)) &&
      forall j :: 0 <= j < i ==> !IsHeaderRow(closed[j].0))
  {
    if closed != [] {
      var front := closed[..|closed| - 1];
      HeaderIsFirst(front);
      assert forall k :: 0 <= k < |front| ==> front[k] == closed[k];
      if HeaderOf(front).Some? {
        var i :| 0 <= i < |front| && IsHeaderRow(front[i].0) &&
          HeaderOf(front) == Some(MakeRow(front[i].0, RowAlign(front[i].1), true)) &&
          forall j :: 0 <= j < i ==> !IsHeaderRow(front[j].0);
        assert closed[i] == front[i];
      } else if IsHeaderRow(closed[|closed| - 1].0) {
        var i := |closed| - 1;
        assert forall j :: 0 <= j < i ==> !IsHeaderRow(closed[j].0);
      }
    }
  }

  /** Every non-header chunk gives a content row. */
  lemma {:induction false} ContentRowsComplete(closed: seq<(string, char)>, k: nat)
    requires k < |closed| && !IsHeaderRow(closed[k].0)
    ensures MakeRow(closed[k].0, RowAlign(closed[k].1), false) in ContentRowsOf(closed)
  {
    var n := |closed| - 1;
    var front, last := closed[..n], closed[n];
    var rows := ContentRowsOf(front);
    var tail := if IsHeaderRow(last.0) then [] else [MakeRow(last.0, RowAlign(last.1), false)];
    assert ContentRowsOf(closed) == rows + tail;
    if k < n {
      ContentRowsComplete(front, k);
      assert front[k] == closed[k];
      assert MakeRow(closed[k].0, RowAlign(closed[k].1), false) in rows;
    } else {
      assert k == n && last == closed[k];
    }
  }

  /** Content rows never come from a header chunk. */
  lemma {:induction false} ContentRowsSource(closed: seq<(string, char)>, r: Row)
    requires r in ContentRowsOf(closed)
    ensures exists k :: (0 <= k < |closed| && !IsHeaderRow(closed[k].0) &&
      r == MakeRow(closed[k].0, RowAlign(closed[k].1), false))
  {
    var n := |closed| - 1;
    var front := closed[..n];
    if r in ContentRowsOf(front) {
      ContentRowsSource(front, r);
      var k :| 0 <= k < |front| && !IsHeaderRow(front[k].0) &&
        r == MakeRow(front[k].0, RowAlign(front[k].1), false);
      assert closed[k] == front[k];
    } else {
      assert !IsHeaderRow(closed[n].0);
    }
  }

  /** The two derivations a layout can go through: an "edit" layout gives a
      "view" layout, a "view" layout gives a "cell" layout. */
  function DerivedRepls(derivedType: string): Option<set<char>> {
    if derivedType == "view" then Some({'h', 'r', 'v', 'd'})
    else if derivedType == "cell" then Some({'l', 'd', 'c'})
    else None
  }

  /** Python's `replace(letter, '')` for each of the letters. */
  function RemoveChars(s: string, letters: set<char>): (r: string)
    ensures forall i :: 0 <= i < |r| ==> r[i] !in letters
    ensures |r| <= |s|
  {
    if s == [] then []
    else RemoveChars(s[..|s| - 1], letters) + (if s[|s| - 1] in letters then [] else [s[|s| - 1]])
  }

  /** Removing letters keeps every other character, in order: removing from
      a concatenation removes from each part. */
  lemma {:induction false} RemoveCharsConcat(a: string, b: string, letters: set<char>)
    ensures RemoveChars(a + b, letters) == RemoveChars(a, letters) + RemoveChars(b, letters)
    decreases |b|
  {
    if b == [] {
      assert a + b == a;
    } else {
      var b' := b[..|b| - 1];
      RemoveCharsConcat(a, b', letters);
      assert (a + b)[..|a + b| - 1] == a + b';
    }
  }

  /** The leading strip of deriveLayout: row delimiters, then cell delimiters. */
  function StripFront(s: string): string {
    LStrip(LStrip(s, ROW_DELIMS), CELL_DELIMS)
  }

  /** The trailing strip that a "cell" derivation adds. */
  function StripBack(s: string): string {
    RStrip(RStrip(s, ROW_DELIMS), CELL_DELIMS)
  }

  /** Table.deriveLayout; an unknown derived type fails (the source's KeyError). */
  function DeriveLayout(layout: string, derivedType: string): (r: Option<string>)
    ensures r.None? <==> derivedType !in {"view", "cell"}
  {
    match DerivedRepls(derivedType)
    case None => None
    case Some(letters) =>
      var b := StripFront(RemoveChars(layout, letters));
      if derivedType == "cell" then Some(StripBack(b)) else Some(b)
  }

  /** What the leading strip removes is a run of delimiters, and the rest does
      not start with a cell delimiter. */
  lemma StripFrontShape(s: string)
    ensures EndsWith(s, StripFront(s))
    ensures StripFront(s) != [] ==> StripFront(s)[0] !in CELL_DELIMS
    ensures forall i :: 0 <= i < |s| - |StripFront(s)| ==> s[i] in ROW_DELIMS + CELL_DELIMS
  {
    StripFrontSuffix(s);
    StripFrontRemoved(s);
  }

  lemma StripFrontSuffix(s: string)
    ensures EndsWith(s, StripFront(s))
  {
    var a := LStrip(s, ROW_DELIMS);
    var b := LStrip(a, CELL_DELIMS);
    LStripSuffix(s, ROW_DELIMS);
    LStripSuffix(a, CELL_DELIMS);
    assert s[|s| - |a|..][|a| - |b|..] == s[|s| - |b|..];
  }

  lemma {:induction false} LStripSuffix(s: string, chars: set<char>)
    ensures s[|s| - |LStrip(s, chars)|..] == LStrip(s, chars)
  {
    if s != [] && s[0] in chars {
      LStripSuffix(s[1..], chars);
      assert s[1..][|s| - 1 - |LStrip(s[1..], chars)|..] == s[|s| - |LStrip(s[1..], chars)|..];
    }
  }

  lemma StripFrontRemoved(s: string)
    ensures forall i :: 0 <= i < |s| - |StripFront(s)| ==> s[i] in ROW_DELIMS + CELL_DELIMS
  {
    var a := LStrip(s, ROW_DELIMS);
    var b := LStrip(a, CELL_DELIMS);
    forall i | 0 <= i < |s| - |b| ensures s[i] in ROW_DELIMS + CELL_DELIMS {
      if i >= |s| - |a| {
        assert s[i] == a[i - (|s| - |a|)];
      }
    }
  }

  /** What the trailing strip removes is a run of delimiters, and the rest does
      not end with a cell delimiter. */
  lemma StripBackShape(s: string)
    ensures StartsWith(s, StripBack(s))
    ensures StripBack(s) != [] ==> StripBack(s)[|StripBack(s)| - 1] !in CELL_DELIMS
    ensures forall i :: |StripBack(s)| <= i < |s| ==> s[i] in ROW_DELIMS + CELL_DELIMS
  {
    var c := RStrip(s, ROW_DELIMS);
    var r := RStrip(c, CELL_DELIMS);
    forall i | |r| <= i < |s| ensures s[i] in ROW_DELIMS + CELL_DELIMS {
      if i < |c| {
        assert s[i] == c[i];
      }
    }
  }

  /** A "view" layout is the letter-free layout without its leading row, then
      cell, delimiters: it has none of the letters "hrvd" and does not start
      with a cell delimiter. */
  lemma DeriveViewShape(layout: string)
    ensures var kept := RemoveChars(layout, {'h', 'r', 'v', 'd'});
      var r := DeriveLayout(layout, "view").value;
      EndsWith(kept, r) && (forall i :: 0 <= i < |kept| - |r| ==> kept[i] in ROW_DELIMS + CELL_DELIMS) &&
      (forall i :: 0 <= i < |r| ==> r[i] !in {'h', 'r', 'v', 'd'}) &&
      (r != [] ==> r[0] !in CELL_DELIMS)
  {
    var kept := RemoveChars(layout, {'h', 'r', 'v', 'd'});
    StripFrontShape(kept);
    var r := StripFront(kept);
    assert forall i :: 0 <= i < |r| ==> r[i] == kept[|kept| - |r| + i];
  }

  lemma DeriveCellIs(layout: string)
    ensures DeriveLayout(layout, "cell") == Some(StripBack(StripFront(RemoveChars(layout, {'l', 'd', 'c'}))))
  {
  }

  /** A "cell" layout further loses its trailing row, then cell, delimiters,
      so it neither starts nor ends with a cell delimiter. */
  lemma DeriveCellShape(layout: string)
    ensures var front := StripFront(RemoveChars(layout, {'l', 'd', 'c'}));
      var r := DeriveLayout(layout, "cell").value;
      StartsWith(front, r) &&
      (forall i :: |r| <= i < |front| ==> front[i] in ROW_DELIMS + CELL_DELIMS) &&
      (r != [] ==> r[0] !in CELL_DELIMS && r[|r| - 1] !in CELL_DELIMS)
  {
    var front := StripFront(RemoveChars(layout, {'l', 'd', 'c'}));
    DeriveCellIs(layout);
    StripFrontShape(RemoveChars(layout, {'l', 'd', 'c'}));
    StripBackShape(front);
    var r := StripBack(front);
    if r != [] {
      assert r[0] == front[0];
    }
  }

  /** Stripping delimiters only removes characters. */
  lemma StripKeepsOut(s: string, letters: set<char>)
    requires forall i :: 0 <= i < |s| ==> s[i] !in letters
    ensures forall i :: 0 <= i < |StripFront(s)| ==> StripFront(s)[i] !in letters
    ensures forall i :: 0 <= i < |StripBack(s)| ==> StripBack(s)[i] !in letters
  {
  }

  /** A "cell" layout has none of the letters "ldc". */
  lemma DeriveCellLetters(layout: string)
    ensures var r := DeriveLayout(layout, "cell").value;
      forall i :: 0 <= i < |r| ==> r[i] !in {'l', 'd', 'c'}
  {
    var kept := RemoveChars(layout, {'l', 'd', 'c'});
    DeriveCellIs(layout);
    StripKeepsOut(kept, {'l', 'd', 'c'});
    StripKeepsOut(StripFront(kept), {'l', 'd', 'c'});
  }

  /** ColumnLayout.get: "name*width" followed by an optional alignment
      character. The source reads the last character of the string, so an empty
      layout string fails. */
  function ColumnGet(layoutString: string): (r: Option<(string, string, string)>)
    ensures r.None? <==> layoutString == []
    ensures r.Some? ==>
      var (name, width, align) := r.value;
      var last := layoutString[|layoutString| - 1];
      var consumed := if last in CELL_DELIMS then layoutString[..|layoutString| - 1] else layoutString;
      align == (if last in CELL_DELIMS then CellAlign(last) else "left") &&
      '*' !in width &&
      (if '*' in consumed then name + "*" + width == consumed else name == consumed && width == "")
  {
    if layoutString == [] then None
    else
      var last := layoutString[|layoutString| - 1];
      var align := if last in CELL_DELIMS then CellAlign(last) else "left";
      var consumed := if last in CELL_DELIMS then layoutString[..|layoutString| - 1] else layoutString;
      var (name, width) := SplitLastStar(consumed);
      Some((name, width, align))
  }

  /** "name*width" cut at its last '*'; without one, all of it is the name. */
  function SplitLastStar(consumed: string): (r: (string, string))
    ensures '*' !in r.1
    ensures if '*' in consumed then r.0 + "*" + r.1 == consumed else r.0 == consumed && r.1 == ""
  {
    var star := LastIndexOf(consumed, '*');
    if star >= 0 then
      var name := consumed[..star];
      var width := consumed[star + 1..];
      assert name + "*" + width == consumed;
      assert forall i :: 0 <= i < |width| ==> width[i] == consumed[star + 1 + i];
      (name, width)
    else
      assert forall i :: 0 <= i < |consumed| ==> consumed[i] != '*';
      (consumed, "")
  }

  /** A column layout rebuilt from its parts is read back as those parts. */
  lemma ColumnGetRoundTrip(name: string, width: string, alignChar: char)
    requires '*' !in width && alignChar in CELL_DELIMS
    ensures ColumnGet(name + "*" + width + [alignChar]) == Some((name, width, CellAlign(alignChar)))
  {
    var s := name + "*" + width + [alignChar];
    var consumed := s[..|s| - 1];
    assert consumed == name + "*" + width;
    var star := LastIndexOf(consumed, '*');
    assert consumed[|name|] == '*';
    assert forall i :: |name| < i < |consumed| ==> consumed[i] == width[i - |name| - 1];
    assert star == |name|;
    assert consumed[..star] == name;
    assert consumed[star + 1..] == width;
  }

  function RemoveFromCell(cell: Cell, m: Item): Cell {
    if cell.content.Some? && m in cell.content.value
    then cell.(content := Some(RemoveFirst(cell.content.value, m)))
    else cell
  }

  function RemoveFromRow(row: Row, m: Item): (r: Row)
    ensures r.valign == row.valign && r.length == row.length && |r.cells| == |row.cells|
  {
    row.(cells := seq(|row.cells|, k requires 0 <= k < |row.cells| => RemoveFromCell(row.cells[k], m)))
  }

  datatype TableParams = TableParams(
    style: Option<string>, cssClass: string, cellpadding: int, cellspacing: int,
    width: Option<string>, align: string)

  /** A layout table: its header row (the column specification), if any, and
      its content rows. */
  class Table {
    var layoutString: string
    var params: TableParams
    var headerRow: Option<Row>
    var rows: seq<Row>

    ghost predicate Decoded()
      reads this
    {
      headerRow == LayoutHeader(layoutString) && rows == LayoutRows(layoutString)
    }

    /** The constructor from a layout string. */
    constructor (layoutString: string, params: TableParams)
      ensures this.layoutString == layoutString && this.params == params
      ensures Decoded()
    {
      this.layoutString := layoutString;
      this.params := params;
      headerRow := None;
      rows := [];
      new;
      DecodeRows(layoutString);
    }

    /** The constructor from another table, possibly deriving its layout. */
    constructor FromOther(other: Table, derivedType: Option<string>)
      requires derivedType.Some? ==> DeriveLayout(other.layoutString, derivedType.value).Some?
      ensures params == other.params
      ensures layoutString == (if derivedType.Some? then DeriveLayout(other.layoutString, derivedType.value).value
                               else other.layoutString)
      ensures Decoded()
    {
      layoutString := if derivedType.Some? then DeriveLayout(other.layoutString, derivedType.value).value
                      else other.layoutString;
      params := other.params;
      headerRow := None;
      rows := [];
      new;
      DecodeRows(layoutString);
    }

    /** Table.decodeRows, run by the constructors on a fresh table. */
    method DecodeRows(layout: string)
      requires headerRow.None? && rows == []
      modifies this
      ensures headerRow == LayoutHeader(layout) && rows == LayoutRows(layout)
      ensures layoutString == old(layoutString) && params == old(params)
    {
      var rowContent;
      headerRow, rows, rowContent := WalkRows(layout);
      if rowContent != [] {
        var row := NewRow(rowContent, "middle", false);
        rows := rows + [row];
      }
    }

    /** Table.removeElement: remove the element's macro once from every
        content cell that holds it; the header row is left alone. */
    method RemoveElement(elem: char)
      requires elem in MACRO_KEYS
      modifies this
      ensures layoutString == old(layoutString) && params == old(params) && headerRow == old(headerRow)
      ensures |rows| == |old(rows)|
      ensures forall k :: 0 <= k < |rows| ==> rows[k] == RemoveFromRow(old(rows)[k], MacroOf(elem).value)
    {
      var m := MacroOf(elem).value;
      var i := 0;
      while i < |rows|
        invariant 0 <= i <= |rows| && |rows| == |old(rows)|
        invariant layoutString == old(layoutString) && params == old(params) && headerRow == old(headerRow)
        invariant forall k :: 0 <= k < i ==> rows[k] == RemoveFromRow(old(rows)[k], m)
        invariant forall k :: i <= k < |rows| ==> rows[k] == old(rows)[k]
      {
        rows := rows[i := RemoveFromRow(rows[i], m)];
        i := i + 1;
      }
    }
  }

  /** Removing a macro takes one occurrence out of each cell holding it and
      changes nothing else in the cell. */
  lemma RemoveFromCellEffect(cell: Cell, m: Item)
    requires cell.content.Some?
    ensures RemoveFromCell(cell, m).content.Some?
    ensures multiset(RemoveFromCell(cell, m).content.value) ==
      if m in cell.content.value then multiset(cell.content.value) - multiset{m} else multiset(cell.content.value)
    ensures RemoveFromCell(cell, m).align == cell.align && RemoveFromCell(cell, m).colspan == cell.colspan
  {
    if m in cell.content.value {
      RemoveFirstMultiset(cell.content.value, m);
    }
  }

  /** A cell chunk's items come from its letters, left to right: decoding a
      concatenation decodes each part. */
  lemma {:induction false} ItemsConcat(a: string, b: string)
    ensures ItemsOf(a + b) == ItemsOf(a) + ItemsOf(b)
    decreases |b|
  {
    if b == [] {
      assert a + b == a;
    } else {
      var b' := b[..|b| - 1];
      ItemsConcat(a, b');
      var c := b[|b| - 1];
      var ab := a + b;
      assert ab[..|ab| - 1] == a + b' && ab[|ab| - 1] == c;
      assert ItemsOf(ab) == ItemsOf(a + b') + ItemsOfChar(c);
      assert ItemsOf(b) == ItemsOf(b') + ItemsOfChar(c);
      Lists.ConcatAssoc(ItemsOf(a), ItemsOf(b'), ItemsOfChar(c));
    }
  }

  /** Likewise the digits of a concatenation are the digits of each part. */
  lemma {:induction false} DigitsConcat(a: string, b: string)
    ensures DigitsOf(a + b) == DigitsOf(a) + DigitsOf(b)
    decreases |b|
  {
    if b == [] {
      assert a + b == a;
    } else {
      var b' := b[..|b| - 1];
      DigitsConcat(a, b');
      var c := b[|b| - 1];
      assert (a + b)[..|a + b| - 1] == a + b';
      assert (a + b)[|a + b| - 1] == c;
      calc {
        DigitsOf(a + b);
        DigitsOf(a + b') + (if IsDigit(c) then [c] else []);
        DigitsOf(a) + (DigitsOf(b') + (if IsDigit(c) then [c] else []));
        DigitsOf(a) + DigitsOf(b);
      }
    }
  }

  /** Without digits the colspan stays 1. */
  lemma {:induction false} NoDigitsColspan(s: string)
    requires forall i :: 0 <= i < |s| ==> !IsDigit(s[i])
    ensures DigitsOf(s) == [] && ColspanOf(s) == 1
  {
    if s != [] {
      NoDigitsColspan(s[..|s| - 1]);
    }
  }

  /** A character that is neither a digit, a macro letter nor 'f' adds nothing. */
  lemma {:induction false} IgnoredChars(s: string)
    requires forall i :: 0 <= i < |s| ==> s[i] !in MACRO_KEYS && s[i] != 'f'
    ensures ItemsOf(s) == []
  {
    if s != [] {
      IgnoredChars(s[..|s| - 1]);
    }
  }
}
