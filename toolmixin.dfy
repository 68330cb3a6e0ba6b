/** Helpers of the tool (gen/mixins/ToolMixin.py) that the user interface calls:
    portal types, text direction, truncation and quoting, the encoding of
    search parameters, batch start numbers, the layout of search fields in
    rows, dates from search forms and user names. Text is a sequence of
    characters (the UTF-8 decoding and encoding around the truncations is the
    identity on characters). The request, the catalogue and the translations
    are replaced by the values they provide. */
module Tool {
  import opened Wrappers
  import opened Text
  import Navigation
  import Dates

  // ---------------------------------------------------------------------------
  // getPortalType

  /** `getPortalType` on a class name (a class given as an object is first
      turned into its name, which is not part of this model): the name of a
      generated wrapper, `a_b_c_d_e...` containing `_wrappers`, becomes
      `b` + `e` (an IndexError with fewer than five `_`-parts); `User`,
      `Group` and `Translation` get the application name as prefix. */
  function GetPortalType(name: string, appName: string): (r: Result<string, string>)
    ensures !Contains(name, "_wrappers") && name !in {"User", "Group", "Translation"} ==> r == Ok(name)
    ensures !Contains(name, "_wrappers") && name in {"User", "Group", "Translation"} ==> r == Ok(appName + name)
    ensures Contains(name, "_wrappers") ==> (r.Err? <==> |Split(name, '_')| < 5)
    ensures Contains(name, "_wrappers") && r.Ok? ==>
      var e := Split(name, '_');
      var base := e[1] + e[4];
      r.value == (if base in {"User", "Group", "Translation"} then appName + base else base)
  {
    var elems := Split(name, '_');
    if Contains(name, "_wrappers") && |elems| < 5 then Err("IndexError")
    else
      var res := if Contains(name, "_wrappers") then elems[1] + elems[4] else name;
      Ok(if res in {"User", "Group", "Translation"} then appName + res else res)
  }

  // ---------------------------------------------------------------------------
  // flipLanguageDirection

  /** `flipLanguageDirection`: left to right keeps the alignment; otherwise
      `left` and `right` swap and any other alignment is kept. */
  function FlipLanguageDirection(align: string, dir: string): (r: string)
    ensures dir == "ltr" ==> r == align
    ensures dir != "ltr" && align == "left" ==> r == "right"
    ensures dir != "ltr" && align == "right" ==> r == "left"
    ensures align != "left" && align != "right" ==> r == align
  {
    if dir == "ltr" then align
    else if align == "left" then "right"
    else if align == "right" then "left"
    else align
  }

  /** Flipping twice gives the alignment back. */
  lemma FlipInvolution(align: string, dir: string)
    ensures FlipLanguageDirection(FlipLanguageDirection(align, dir), dir) == align
  {
  }

  // ---------------------------------------------------------------------------
  // getQueryInfo

  const QUERY_PARAM_NAMES: seq<string> := ["className", "search", "sortKey", "sortOrder", "filterKey", "filterValue"]

  /** The request parameter `key` with its semicolons removed ('' if absent). */
  function CleanParam(rq: map<string, string>, key: string): (v: string)
    ensures ';' !in v
  {
    RemoveChar(if key in rq then rq[key] else "", ';')
  }

  /** The six cleaned parameters, in the order of `queryParamNames`. */
  function QueryParams(rq: map<string, string>): (ps: seq<string>)
    ensures |ps| == |QUERY_PARAM_NAMES|
    ensures forall i :: 0 <= i < |ps| ==> ps[i] == CleanParam(rq, QUERY_PARAM_NAMES[i])
  {
    seq(|QUERY_PARAM_NAMES|, i requires 0 <= i < |QUERY_PARAM_NAMES| => CleanParam(rq, QUERY_PARAM_NAMES[i]))
  }

  /** `getQueryInfo`: '' when no search is shown, else the cleaned parameters
      joined with `;`. */
  function GetQueryInfo(rq: map<string, string>): (r: string)
    ensures "search" !in rq ==> r == ""
  {
    if "search" in rq then Join(QueryParams(rq), ";") else ""
  }

  /** The encoded parameters come back by splitting on `;`. */
  lemma QueryInfoRoundTrip(rq: map<string, string>)
    requires "search" in rq
    ensures Split(GetQueryInfo(rq), ';') == QueryParams(rq)
    ensures Split(GetQueryInfo(rq), ';')[1] == RemoveChar(rq["search"], ';')
  {
    var ps := QueryParams(rq);
    assert forall i :: 0 <= i < |ps| ==> ';' !in ps[i];
    JoinSplit(ps, ';');
    assert GetQueryInfo(rq) == Join(ps, [';']);
  }

  // ---------------------------------------------------------------------------
  // truncateValue, truncateText, quote

  /** `truncateValue`: a value longer than `width` is cut to its first
      `width` characters followed by `...`. */
  function TruncateValue(value: string, width: int): (r: string)
    ensures |value| <= width ==> r == value
    ensures |value| > width ==> r == Head(value, width) + "..."
    ensures 0 <= width < |value| ==> |r| == width + 3 && StartsWith(value, r[..width])
  {
    if |value| > width then Head(value, width) + "..." else value
  }

  /** `truncateText`: a text longer than `width` shows its first `width`
      characters followed by `...`, inside an acronym holding the whole text
      as its title. */
  function TruncateText(text: string, width: int): (r: string)
    ensures |text| <= width ==> r == text
    ensures |text| > width ==>
      r == "<acronym title=\"" + text + "\">" + Head(text, width) + "...</acronym>"
  {
    if |text| <= width then text
    else "<acronym title=\"" + text + "\">" + Head(text, width) + "...</acronym>"
  }

  /** The shown part of a truncated text is a prefix of the text of exactly
      `width` characters. */
  lemma TruncatedTextShowsPrefix(text: string, width: nat)
    requires |text| > width
    ensures var r := TruncateText(text, width);
      var open := "<acronym title=\"" + text + "\">";
      StartsWith(r, open) && r[|open|..|open| + width] == text[..width] &&
      r[|open| + width..] == "...</acronym>"
  {
  }

  /** `quote`: single quotes, or `&quot;` around a value that holds one. */
  function Quote(s: string): (r: string)
    ensures '\'' in s ==> r == "&quot;" + s + "&quot;"
    ensures '\'' !in s ==> r == "'" + s + "'"
  {
    if '\'' in s then "&quot;" + s + "&quot;" else "'" + s + "'"
  }

  /** Quoting never produces a single quote inside single quotes: removing
      the delimiters gives the value back, and the delimiters tell which
      quoting was used. */
  lemma QuoteRoundTrip(s: string)
    ensures var r := Quote(s);
      if r[0] == '\'' then '\'' !in s && r[1..|r| - 1] == s
      else '\'' in s && r[6..|r| - 6] == s
  {
  }

  // ---------------------------------------------------------------------------
  // computeStartNumberFrom

  /** `computeStartNumberFrom`: the start of the batch holding element
      `currentNumber` (from 0), scanning batch after batch. */
  method ComputeStartNumberFrom(currentNumber: int, totalNumber: int, batchSize: int) returns (res: int)
    requires totalNumber <= 0 || batchSize > 0
    ensures res == Navigation.BatchStart(currentNumber, totalNumber, batchSize)
  {
    var startNumber := 0;
    while startNumber < totalNumber
      invariant startNumber >= 0
      invariant Navigation.BatchFrom(startNumber, currentNumber, totalNumber, batchSize) ==
        Navigation.BatchStart(currentNumber, totalNumber, batchSize)
      decreases totalNumber - startNumber
    {
      if currentNumber < startNumber + batchSize {
        return startNumber;
      }
      startNumber := startNumber + batchSize;
    }
    return startNumber;
  }

  // ---------------------------------------------------------------------------
  // getGroupedSearchFields

  /** A search field, with the number of columns it spans in the search form. */
  datatype SearchField = SearchField(name: string, scolspan: int)

  /** A row of the search form: fields, and `None` for an empty column. */
  type Row = seq<Option<SearchField>>

  /** The columns a row occupies: its fields' spans plus one per empty column. */
  function Width(row: Row): int {
    if row == [] then 0
    else Width(row[..|row| - 1]) + (match row[|row| - 1] case Some(f) => f.scolspan case None => 1)
  }

  /** The fields of a row, in order. */
  function FieldsOf(row: Row): seq<SearchField> {
    if row == [] then []
    else FieldsOf(row[..|row| - 1]) + (match row[|row| - 1] case Some(f) => [f] case None => [])
  }

  /** The fields of all rows, in order. */
  function AllFields(rows: seq<Row>): seq<SearchField> {
    if rows == [] then [] else AllFields(rows[..|rows| - 1]) + FieldsOf(rows[|rows| - 1])
  }

  lemma {:induction false} RowConcat(a: Row, b: Row)
    ensures Width(a + b) == Width(a) + Width(b)
    ensures FieldsOf(a + b) == FieldsOf(a) + FieldsOf(b)
    decreases |b|
  {
    if b == [] {
      assert a + b == a;
    } else {
      var b' := b[..|b| - 1];
      RowConcat(a, b');
      assert (a + b)[..|a + b| - 1] == a + b';
      var fa, fb := FieldsOf(a), FieldsOf(b');
      var x := match b[|b| - 1] case Some(f) => [f] case None => [];
      assert (fa + fb) + x == fa + (fb + x);
    }
  }

  /** A field put at the end of the current row. */
  lemma RowExtended(res: seq<Row>, row: Row, before: seq<SearchField>, field: SearchField)
    requires AllFields(res) + FieldsOf(row) == before
    ensures AllFields(res) + FieldsOf(row + [Some(field)]) == before + [field]
    ensures Width(row + [Some(field)]) == Width(row) + field.scolspan
  {
    RowConcat(row, [Some(field)]);
    assert [Some(field)][..0] == [];
    var a, b := AllFields(res), FieldsOf(row);
    assert (a + b) + [field] == a + (b + [field]);
  }

  /** The current row closed (padded) and a new one started by a field. */
  lemma RowClosed(res: seq<Row>, padded: Row, row: Row, before: seq<SearchField>, field: SearchField)
    requires AllFields(res) + FieldsOf(row) == before && FieldsOf(padded) == FieldsOf(row)
    ensures AllFields(res + [padded]) + FieldsOf([Some(field)]) == before + [field]
    ensures Width([Some(field)]) == field.scolspan
  {
    assert (res + [padded])[..|res|] == res;
    assert [Some(field)][..0] == [];
  }

  /** Pads `row`, whose width is `rowLength`, with empty columns up to
      `nbOfColumns`. */
  method Pad(row: Row, rowLength: int, nbOfColumns: int) returns (padded: Row, length: int)
    requires Width(row) == rowLength
    ensures length == (if rowLength < nbOfColumns then nbOfColumns else rowLength)
    ensures Width(padded) == length
    ensures FieldsOf(padded) == FieldsOf(row)
    ensures |padded| >= |row| && padded[..|row|] == row
  {
    padded, length := row, rowLength;
    while length < nbOfColumns
      invariant length == rowLength || rowLength < length <= nbOfColumns
      invariant Width(padded) == length && FieldsOf(padded) == FieldsOf(row)
      invariant |padded| >= |row| && padded[..|row|] == row
      decreases nbOfColumns - length
    {
      RowConcat(padded, [None]);
      padded := padded + [None];
      length := length + 1;
    }
  }

  /** `getGroupedSearchFields`: fields are laid out in order, a field that
      does not fit in the current row starting a new one, and every row is
      padded with empty columns up to `nbOfColumns`. */
  method GetGroupedSearchFields(fields: seq<SearchField>, nbOfColumns: int) returns (res: seq<Row>)
    ensures AllFields(res) == fields
    ensures nbOfColumns >= 0 && (forall f :: f in fields ==> f.scolspan <= nbOfColumns) ==>
      forall k :: 0 <= k < |res| ==> Width(res[k]) == nbOfColumns
  {
    var row, rowLength;
    res, row, rowLength := GroupFields(fields, nbOfColumns);
    if row != [] {
      var padded, _ := Pad(row, rowLength, nbOfColumns);
      ghost var before := res;
      res := res + [padded];
      assert res[..|res| - 1] == before;
    }
  }

  /** The loop of `getGroupedSearchFields`: the full rows, and the row
      still open with its width. */
  method GroupFields(fields: seq<SearchField>, nbOfColumns: int) returns (res: seq<Row>, row: Row, rowLength: int)
    ensures Width(row) == rowLength
    ensures AllFields(res) + FieldsOf(row) == fields
    ensures nbOfColumns >= 0 && (forall f :: f in fields ==> f.scolspan <= nbOfColumns) ==>
      rowLength <= nbOfColumns && forall k :: 0 <= k < |res| ==> Width(res[k]) == nbOfColumns
  {
    ghost var fits := nbOfColumns >= 0 && forall f :: f in fields ==> f.scolspan <= nbOfColumns;
    res := [];
    row := [];
    rowLength := 0;
    var i := 0;
    while i < |fields|
      invariant 0 <= i <= |fields|
      invariant Width(row) == rowLength
      invariant AllFields(res) + FieldsOf(row) == fields[..i]
      invariant fits ==> rowLength <= nbOfColumns
      invariant fits ==> forall k :: 0 <= k < |res| ==> Width(res[k]) == nbOfColumns
    {
      var field := fields[i];
      assert field in fields;
      assert fields[..i + 1] == fields[..i] + [field];
      var remaining := nbOfColumns - rowLength;
      if field.scolspan <= remaining {
        RowExtended(res, row, fields[..i], field);
        row := row + [Some(field)];
        rowLength := rowLength + field.scolspan;
      } else {
        var padded, _ := Pad(row, rowLength, nbOfColumns);
        RowClosed(res, padded, row, fields[..i], field);
        res := res + [padded];
        row := [Some(field)];
        rowLength := field.scolspan;
      }
      i := i + 1;
    }
    assert fields[..i] == fields;
  }

  // ---------------------------------------------------------------------------
  // _getDateTime

  /** A DateTime as the search form builds it: a day and a time of day. */
  datatype DateTime = DateTime(date: Dates.Date, hour: string)

  /** The latest valid day of the month not after `day`. */
  function ClampDay(year: int, month: int, day: int): (d: int)
    requires 1 <= month <= 12 && day >= 1
  {
    if day <= Dates.DaysInMonth(year, month) then day else Dates.DaysInMonth(year, month)
  }

  /** `_getDateTime`: no date without a year; a missing month or day is
      replaced by its minimum (1, 1) when `setMin` and by its maximum (12, 31)
      otherwise; the time is 00:00 or 23:59; an invalid day is decremented
      until the date exists. A month outside 1..12 or a day below 1 would make
      that loop run forever, so they are excluded. */
  method GetDateTime(year: Option<int>, month: Option<int>, day: Option<int>, setMin: bool)
    returns (res: Option<DateTime>)
    requires month.Some? ==> 1 <= month.value <= 12
    requires day.Some? ==> day.value >= 1
    ensures year.None? <==> res.None?
    ensures res.Some? ==> Dates.Valid(res.value.date) && res.value.date.year == year.value
    ensures res.Some? ==> res.value.hour == (if setMin then "00:00" else "23:59")
    ensures res.Some? ==> res.value.date.month == (if month.Some? then month.value else if setMin then 1 else 12)
    ensures res.Some? ==>
      var d := if day.Some? then day.value else if setMin then 1 else 31;
      res.value.date.day == ClampDay(year.value, res.value.date.month, d)
  {
    if year.None? {
      return None;
    }
    var m := if month.Some? then month.value else if setMin then 1 else 12;
    var d := if day.Some? then day.value else if setMin then 1 else 31;
    ghost var requested := d;
    var hour := if setMin then "00:00" else "23:59";
    while !Dates.Valid(Dates.Date(year.value, m, d))
      invariant 1 <= d <= requested
      invariant ClampDay(year.value, m, d) == ClampDay(year.value, m, requested)
      decreases d
    {
      d := d - 1;
    }
    res := Some(DateTime(Dates.Date(year.value, m, d), hour));
  }

  // ---------------------------------------------------------------------------
  // getUserName

  /** What the tool knows about a user: the first and last names. */
  datatype UserNames = UserNames(firstName: string, name: string)

  /** `getUserName`: the current login when none is given; the translated
      `anonymous` for `anon`; the login itself for an unknown user; else the
      first name and the name separated by a space, or whichever is present,
      or the login when both are empty. With `normalized`, the anonymous name
      and each non-empty part go through `normalize` (`normalizeString` of
      shared/utils.py, a parameter here). */
  function GetUserName(login: string, currentLogin: string, user: Option<UserNames>, anonymous: string,
                       normalized: bool, normalize: string -> string): (r: string)
    ensures var l := if login == "" then currentLogin else login;
      (l == "anon" ==> r == if normalized then normalize(anonymous) else anonymous) &&
      (l != "anon" && user.None? ==> r == l) &&
      (l != "anon" && user.Some? && !normalized ==>
        r == (if user.value.firstName != "" && user.value.name != "" then user.value.firstName + " " + user.value.name
              else if user.value.firstName != "" then user.value.firstName
              else if user.value.name != "" then user.value.name
              else l))
  {
    var l := if login == "" then currentLogin else login;
    if l == "anon" then (if normalized then normalize(anonymous) else anonymous)
    else match user
      case None => l
      case Some(u) =>
        var res := if u.firstName != "" then (if normalized then normalize(u.firstName) else u.firstName) else "";
        var res :=
          if u.name != "" then
            var name := if normalized then normalize(u.name) else u.name;
            if res != "" then res + " " + name else name
          else res;
        if res == "" then l else res
  }

  /** The names of a user after `normalize`, empty names staying empty. */
  function Normalized(u: UserNames, normalize: string -> string): UserNames {
    UserNames(if u.firstName != "" then normalize(u.firstName) else "",
              if u.name != "" then normalize(u.name) else "")
  }

  /** When `normalize` keeps non-empty strings non-empty, the normalized
      user name is the plain user name of the normalized names. */
  lemma NormalizedUserName(login: string, currentLogin: string, user: UserNames, anonymous: string,
                           normalize: string -> string)
    requires forall x: string :: x != "" ==> normalize(x) != ""
    ensures GetUserName(login, currentLogin, Some(user), anonymous, true, normalize) ==
            GetUserName(login, currentLogin, Some(Normalized(user, normalize)), normalize(anonymous), false, normalize)
  {
    var v := Normalized(user, normalize);
    assert user.firstName != "" ==> v.firstName != "";
    assert user.name != "" ==> v.name != "";
  }
}
