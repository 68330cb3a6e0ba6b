/** The readers of the data files of shared/data/__init__.py: the ISO 639-2
    language codes (`|`-separated lines) and the Belgian postal codes
    (`;`-separated, quoted fields). The files are given as their lines. */
module SharedData {
  import opened Wrappers
  import opened Text

  // ---------------------------------------------------------------------------
  // Countries
  // ---------------------------------------------------------------------------

  /** What one line of the ISO file gives. A line with fewer than three
      fields fails before anything is stored; one with a two-letter code but
      no fourth field fails after the code is stored. */
  datatype CountryLine =
    | SkippedLine
    | Language(code: string, name: string)
    | NoCodeField
    | NoNameField(code: string)

  function CountryLineOf(line: string): CountryLine {
    if Strip(line) == [] then SkippedLine
    else
      var fields := Split(line, '|');
      if |fields| < 3 then NoCodeField
      else if Strip(fields[2]) == [] then SkippedLine
      else if |fields| < 4 then NoNameField(fields[2])
      else Language(fields[2], fields[3])
  }

  /** The two lists of a Countries object, and whether parsing went
      through. */
  datatype Languages = Languages(codes: seq<string>, names: seq<string>, ok: bool)

  /** The lists after one more line. */
  function LanguageStep(before: Languages, l: CountryLine): Languages {
    match l
    case SkippedLine => before
    case Language(c, n) => Languages(before.codes + [c], before.names + [n], true)
    case NoCodeField => before.(ok := false)
    case NoNameField(c) => Languages(before.codes + [c], before.names, false)
  }

  /** The lists after the lines, each read by `read`; nothing changes after
      a failure. */
  function ParsedLanguages(start: Languages, lines: seq<string>, read: string -> CountryLine): Languages {
    if lines == [] then start
    else
      var before := ParsedLanguages(start, lines[..|lines| - 1], read);
      if !before.ok then before else LanguageStep(before, read(lines[|lines| - 1]))
  }

  /** The languages of the lines that have a two-letter code, in order. */
  function LanguagesOf(lines: seq<string>, read: string -> CountryLine): seq<(string, string)> {
    if lines == [] then []
    else
      LanguagesOf(lines[..|lines| - 1], read) +
      match read(lines[|lines| - 1])
      case Language(c, n) => [(c, n)]
      case _ => []
  }

  predicate Bad(l: CountryLine) {
    l.NoCodeField? || l.NoNameField?
  }

  /** Parsing succeeds exactly when no line is short of fields; then the
      codes and the names grow together, by the languages of the lines, in
      order. */
  lemma {:induction false} ParsedLanguagesSpec(start: Languages, lines: seq<string>, read: string -> CountryLine)
    requires start.ok
    ensures var r := ParsedLanguages(start, lines, read);
            (r.ok <==> forall i :: 0 <= i < |lines| ==> !Bad(read(lines[i]))) &&
            (r.ok ==>
               var langs := LanguagesOf(lines, read);
               |r.codes| == |start.codes| + |langs| && |r.names| == |start.names| + |langs| &&
               r.codes[..|start.codes|] == start.codes && r.names[..|start.names|] == start.names &&
               forall k :: 0 <= k < |langs| ==> r.codes[|start.codes| + k] == langs[k].0 && r.names[|start.names| + k] == langs[k].1)
  {
    if lines != [] {
      var init := lines[..|lines| - 1];
      ParsedLanguagesSpec(start, init, read);
      assert forall i :: 0 <= i < |init| ==> init[i] == lines[i];
    }
  }

  /** A language comes from a line with exactly that code and name. */
  lemma {:induction false} LanguagesOfMembers(lines: seq<string>, read: string -> CountryLine)
    ensures forall e :: e in LanguagesOf(lines, read) <==>
              exists i :: 0 <= i < |lines| && read(lines[i]) == Language(e.0, e.1)
  {
    if lines != [] {
      var init := lines[..|lines| - 1];
      LanguagesOfMembers(init, read);
      assert forall i :: 0 <= i < |init| ==> init[i] == lines[i];
    }
  }

  class Countries {
    var languageCodes: seq<string>
    var languageNames: seq<string>

    function State(): Languages
      reads this
    {
      Languages(languageCodes, languageNames, true)
    }

    /** __init__ and its parseFile over the file's lines; `ok` is false when
        the parse raises an IndexError. */
    constructor(lines: seq<string>)
      ensures var r := ParsedLanguages(Languages([], [], true), lines, CountryLineOf);
              languageCodes == r.codes && languageNames == r.names
    {
      languageCodes, languageNames := [], [];
      new;
      var ok := ParseFile(lines);
    }

    /** parseFile: the lines are read one after the other into the two
        lists. */
    method ParseFile(lines: seq<string>) returns (ok: bool)
      modifies this
      ensures Languages(languageCodes, languageNames, ok) == ParsedLanguages(old(State()), lines, CountryLineOf)
    {
      ghost var start := State();
      for i := 0 to |lines|
        invariant ParsedLanguages(start, lines[..i], CountryLineOf) == Languages(languageCodes, languageNames, true)
      {
        ParsedLanguagesStep(start, lines, CountryLineOf, i);
        ok := ParseLine(lines[i]);
        if !ok {
          ParsedLanguagesFailed(start, lines, CountryLineOf, i + 1);
          return;
        }
      }
      assert lines[..|lines|] == lines;
      ok := true;
    }

    /** One turn of parseFile's loop. */
    method ParseLine(line: string) returns (ok: bool)
      modifies this
      ensures var after := LanguageStep(old(State()), CountryLineOf(line));
              languageCodes == after.codes && languageNames == after.names && ok == after.ok
    {
      var l := CountryLineOf(line);
      ok := true;
      match l
      case SkippedLine =>
      case NoCodeField =>
        ok := false;
      case NoNameField(c) =>
        languageCodes := languageCodes + [c];
        ok := false;
      case Language(c, n) =>
        languageCodes := languageCodes + [c];
        languageNames := languageNames + [n];
    }

    /** exists: membership among the codes. */
    function Exists(countryCode: string): (r: bool)
      reads this
      ensures r <==> exists i :: 0 <= i < |languageCodes| && languageCodes[i] == countryCode
    {
      countryCode in languageCodes
    }
  }

  lemma ParsedLanguagesStep(start: Languages, lines: seq<string>, read: string -> CountryLine, i: nat)
    requires i < |lines|
    ensures var before := ParsedLanguages(start, lines[..i], read);
            ParsedLanguages(start, lines[..i + 1], read) == if !before.ok then before else LanguageStep(before, read(lines[i]))
  {
    assert lines[..i + 1][..i] == lines[..i];
  }

  lemma {:induction false} ParsedLanguagesFailed(start: Languages, lines: seq<string>, read: string -> CountryLine, n: nat)
    requires n <= |lines| && !ParsedLanguages(start, lines[..n], read).ok
    ensures ParsedLanguages(start, lines, read) == ParsedLanguages(start, lines[..n], read)
    decreases |lines| - n
  {
    if n < |lines| {
      assert lines[..n + 1][..n] == lines[..n];
      ParsedLanguagesFailed(start, lines, read, n + 1);
    } else {
      assert lines[..n] == lines;
    }
  }

  // ---------------------------------------------------------------------------
  // BelgianCities
  // ---------------------------------------------------------------------------

  const QUOTE: set<char> := {'"'}

  /** `s.strip('"')`. */
  function Unquoted(s: string): (r: string)
    ensures r == [] || (r[0] != '"' && r[|r| - 1] != '"')
  {
    RStrip(LStrip(s, QUOTE), QUOTE)
  }

  /** What one line of the postal-code file gives. */
  datatype CityLine = BlankLine | City(code: int, name: string) | BadLine

  /** A blank line gives nothing; any other gives the postal code (the
      integer of the unquoted first field) and the unquoted city. A missing
      second field, or a code that is not an integer, raises. */
  function CityLineOf(line: string): CityLine {
    if Strip(line) == [] then BlankLine
    else
      var fields := Split(line, ';');
      if |fields| < 2 then BadLine
      else match PyInt(Unquoted(fields[0]))
        case None => BadLine
        case Some(code) => City(code, Unquoted(fields[1]))
  }

  /** The postal codes after the lines, read, and whether parsing went
      through. */
  function ParsedCities(start: map<int, string>, lines: seq<string>, read: string -> CityLine): (map<int, string>, bool) {
    if lines == [] then (start, true)
    else
      var (before, ok) := ParsedCities(start, lines[..|lines| - 1], read);
      if !ok then (before, false) else CityStep(before, read(lines[|lines| - 1]))
  }

  /** The postal codes after one more line. */
  function CityStep(before: map<int, string>, l: CityLine): (map<int, string>, bool) {
    match l
    case BadLine => (before, false)
    case BlankLine => (before, true)
    case City(code, city) => (before[code := city], true)
  }

  /** Parsing succeeds exactly when every line parses; then a postal code is
      present exactly when it was already or some line gives it... */
  lemma {:induction false} ParsedCitiesKeys(start: map<int, string>, lines: seq<string>, read: string -> CityLine)
    ensures var (d, ok) := ParsedCities(start, lines, read);
            (ok <==> forall i :: 0 <= i < |lines| ==> !read(lines[i]).BadLine?) &&
            (ok ==> forall code :: code in d <==>
                      code in start || exists i :: 0 <= i < |lines| && read(lines[i]).City? && read(lines[i]).code == code)
  {
    if lines != [] {
      var init := lines[..|lines| - 1];
      ParsedCitiesKeys(start, init, read);
      assert forall i :: 0 <= i < |init| ==> init[i] == lines[i];
    }
  }

  /** ...with the city of the last line that gives it. */
  lemma {:induction false} ParsedCitiesLast(start: map<int, string>, lines: seq<string>, read: string -> CityLine, i: nat)
    requires i < |lines| && ParsedCities(start, lines, read).1 && read(lines[i]).City?
    requires forall j :: i < j < |lines| && read(lines[j]).City? ==> read(lines[j]).code != read(lines[i]).code
    ensures var c := read(lines[i]);
            c.code in ParsedCities(start, lines, read).0 && ParsedCities(start, lines, read).0[c.code] == c.name
  {
    if i < |lines| - 1 {
      var init := lines[..|lines| - 1];
      assert init[i] == lines[i];
      ParsedCitiesLast(start, init, read, i);
    }
  }

  class BelgianCities {
    var data: map<int, string>

    /** __init__ and its parseFile over the file's lines. */
    constructor(lines: seq<string>)
      ensures data == ParsedCities(map[], lines, CityLineOf).0
    {
      data := map[];
      new;
      var ok := ParseFile(lines);
    }

    /** parseFile: every non-blank line sets its postal code to its city;
        `ok` is false when a line raises. */
    method ParseFile(lines: seq<string>) returns (ok: bool)
      modifies this
      ensures (data, ok) == ParsedCities(old(data), lines, CityLineOf)
    {
      ghost var start := data;
      for i := 0 to |lines|
        invariant ParsedCities(start, lines[..i], CityLineOf) == (data, true)
      {
        assert lines[..i + 1][..i] == lines[..i];
        ok := ParseLine(lines[i]);
        if !ok {
          ParsedCitiesFailed(start, lines, CityLineOf, i + 1);
          return;
        }
      }
      assert lines[..|lines|] == lines;
      ok := true;
    }

    /** One turn of parseFile's loop. */
    method ParseLine(line: string) returns (ok: bool)
      modifies this
      ensures (data, ok) == CityStep(old(data), CityLineOf(line))
    {
      if Strip(line) != [] {
        var fields := Split(line, ';');
        if |fields| < 2 {
          return false;
        }
        var code := PyInt(Unquoted(fields[0]));
        if code.None? {
          return false;
        }
        data := data[code.value := Unquoted(fields[1])];
      }
      ok := true;
    }

    /** exists: whether the postal code is known. */
    function Exists(postalCode: int): (r: bool)
      reads this
      ensures r <==> postalCode in data.Keys
    {
      postalCode in data
    }
  }

  lemma {:induction false} ParsedCitiesFailed(start: map<int, string>, lines: seq<string>, read: string -> CityLine, n: nat)
    requires n <= |lines| && !ParsedCities(start, lines[..n], read).1
    ensures ParsedCities(start, lines, read) == ParsedCities(start, lines[..n], read)
    decreases |lines| - n
  {
    if n < |lines| {
      assert lines[..n + 1][..n] == lines[..n];
      ParsedCitiesFailed(start, lines, read, n + 1);
    } else {
      assert lines[..n] == lines;
    }
  }
}
