/** OdtTable of pod/parts.py: an ODT table written programmatically into a
    text buffer, cell by cell. */
module OdtParts {
  import opened Wrappers
  import opened Text

  // ---------------------------------------------------------------------------
  // cgi.escape
  // ---------------------------------------------------------------------------

  /** `cgi.escape` of one character: `&`, `<` and `>` become entities. */
  function EscapeChar(c: char): string {
    if c == '&' then "&amp;" else if c == '<' then "&lt;" else if c == '>' then "&gt;" else [c]
  }

  /** `cgi.escape(s)`: the text holds no markup. */
  function HtmlEscape(s: string): (r: string)
    ensures '<' !in r && '>' !in r
  {
    if s == [] then [] else EscapeChar(s[0]) + HtmlEscape(s[1..])
  }

  /** Reading the entities back. */
  function HtmlUnescape(s: string): string
    decreases |s|
  {
    if s == [] then []
    else if StartsWith(s, "&amp;") then "&" + HtmlUnescape(s[5..])
    else if StartsWith(s, "&lt;") then "<" + HtmlUnescape(s[4..])
    else if StartsWith(s, "&gt;") then ">" + HtmlUnescape(s[4..])
    else [s[0]] + HtmlUnescape(s[1..])
  }

  lemma UnescapeStep(c: char, rest: string)
    ensures HtmlUnescape(EscapeChar(c) + rest) == [c] + HtmlUnescape(rest)
  {
    var s := EscapeChar(c) + rest;
    if c == '&' {
      assert s[..5] == "&amp;" && s[5..] == rest;
    } else if c == '<' {
      assert s[1] == 'l';
      assert !StartsWith(s, "&amp;");
      assert s[..4] == "&lt;" && s[4..] == rest;
    } else if c == '>' {
      assert s[1] == 'g';
      assert !StartsWith(s, "&amp;") && !StartsWith(s, "&lt;");
      assert s[..4] == "&gt;" && s[4..] == rest;
    } else {
      assert s[0] == c && s[1..] == rest;
      assert !StartsWith(s, "&amp;") && !StartsWith(s, "&lt;") && !StartsWith(s, "&gt;");
    }
  }

  /** Escaping loses nothing. */
  lemma {:induction false} EscapeRoundTrip(s: string)
    ensures HtmlUnescape(HtmlEscape(s)) == s
    decreases |s|
  {
    if s != [] {
      UnescapeStep(s[0], HtmlEscape(s[1..]));
      EscapeRoundTrip(s[1..]);
    }
  }

  // ---------------------------------------------------------------------------
  // The table
  // ---------------------------------------------------------------------------

  /** Python truth of an optional style name. */
  predicate Given(o: Option<string>) {
    o.Some? && o.value != []
  }

  /** `style or default`. */
  function OrDefault(o: Option<string>, default: string): string {
    if Given(o) then o.value else default
  }

  /** The style of a cell: the explicit one, else the header style of a
      header cell, else the normal style. */
  function ChosenStyle(explicit: Option<string>, header: bool, normal: string, headerStyle: string): (r: string)
    ensures Given(explicit) ==> r == explicit.value
    ensures !Given(explicit) && header ==> r == headerStyle
    ensures !Given(explicit) && !header ==> r == normal
  {
    if Given(explicit) then explicit.value else if header then headerStyle else normal
  }

  const CELL_END := "</text:p></table:table-cell>"

  function CellOpen(cellStyle: string, span: int): string {
    "<table:table-cell table:style-name=\"" + cellStyle + "\" table:number-columns-spanned=\"" + IntToString(span) + "\">"
  }

  function ParaOpen(paraStyle: string): string {
    "<text:p text:style-name=\"" + paraStyle + "\">"
  }

  /** What dumpCell appends. */
  function CellText(cellStyle: string, paraStyle: string, content: string, span: int): string {
    CellOpen(cellStyle, span) + ParaOpen(paraStyle) + HtmlEscape(content) + CELL_END
  }

  /** The content of a cell is the escaped text between the paragraph tags:
      it adds no markup and reads back unchanged. */
  lemma CellContent(cellStyle: string, paraStyle: string, content: string, span: int)
    ensures var t := CellText(cellStyle, paraStyle, content, span);
            var from := |CellOpen(cellStyle, span)| + |ParaOpen(paraStyle)|;
            from + |CELL_END| <= |t| &&
            t[..from] == CellOpen(cellStyle, span) + ParaOpen(paraStyle) &&
            t[|t| - |CELL_END|..] == CELL_END &&
            '<' !in t[from..|t| - |CELL_END|] &&
            HtmlUnescape(t[from..|t| - |CELL_END|]) == content
  {
    var head := CellOpen(cellStyle, span) + ParaOpen(paraStyle);
    var t := CellText(cellStyle, paraStyle, content, span);
    assert t == head + HtmlEscape(content) + CELL_END;
    assert t[|head|..|t| - |CELL_END|] == HtmlEscape(content);
    EscapeRoundTrip(content);
  }

  class OdtTable {
    const name: string
    const paraStyle: string
    const cellStyle: string
    const nbOfCols: int
    const paraHeaderStyle: string
    const cellHeaderStyle: string
    var res: string

    /** The header styles default to the normal ones; the buffer starts
        empty. */
    constructor(name: string, paraStyle: string, cellStyle: string, nbOfCols: int,
                paraHeaderStyle: Option<string>, cellHeaderStyle: Option<string>)
      ensures this.name == name && this.paraStyle == paraStyle && this.cellStyle == cellStyle
      ensures this.nbOfCols == nbOfCols
      ensures this.paraHeaderStyle == OrDefault(paraHeaderStyle, paraStyle)
      ensures this.cellHeaderStyle == OrDefault(cellHeaderStyle, cellStyle)
      ensures res == []
    {
      this.name := name;
      this.paraStyle := paraStyle;
      this.cellStyle := cellStyle;
      this.nbOfCols := nbOfCols;
      this.paraHeaderStyle := OrDefault(paraHeaderStyle, paraStyle);
      this.cellHeaderStyle := OrDefault(cellHeaderStyle, cellStyle);
      res := [];
    }

    /** dumpCell: one cell with the chosen styles and the escaped content. */
    method DumpCell(content: string, span: int, header: bool, paraStyle: Option<string>, cellStyle: Option<string>)
      modifies this
      ensures res == old(res) + CellText(ChosenStyle(cellStyle, header, this.cellStyle, cellHeaderStyle),
                                         ChosenStyle(paraStyle, header, this.paraStyle, paraHeaderStyle),
                                         content, span)
    {
      var ps := ChosenStyle(paraStyle, header, this.paraStyle, paraHeaderStyle);
      var cs := ChosenStyle(cellStyle, header, this.cellStyle, cellHeaderStyle);
      res := res + CellText(cs, ps, content, span);
    }

    method StartRow()
      modifies this
      ensures res == old(res) + "<table:table-row>"
    {
      res := res + "<table:table-row>";
    }

    method EndRow()
      modifies this
      ensures res == old(res) + "</table:table-row>"
    {
      res := res + "</table:table-row>";
    }

    /** startTable: the table with its name, then `nbOfCols` repeated
        columns. */
    method StartTable()
      modifies this
      ensures res == old(res) + "<table:table table:name=\"" + name + "\">" +
                    "<table:table-column table:number-columns-repeated=\"" + IntToString(nbOfCols) + "\"/>"
    {
      res := res + "<table:table table:name=\"" + name + "\">";
      res := res + "<table:table-column table:number-columns-repeated=\"" + IntToString(nbOfCols) + "\"/>";
    }

    method EndTable()
      modifies this
      ensures res == old(res) + "</table:table>"
    {
      res := res + "</table:table>";
    }

    /** get: the whole table. */
    function Get(): string
      reads this
    {
      res
    }
  }
}
