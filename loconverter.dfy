/** The LibreOffice converter of appy/pod/converter.py: the choice of the
    export filter from the result and input types, the name of the result
    file, and the properties given to LibreOffice. The UNO calls themselves
    are not part of this model. */
module LoConverters {
  import opened Wrappers
  import opened Text
  import opened Paths

  /** An entry of FILE_TYPES: a filter, or a filter per input type. */
  datatype FilterEntry = Filter(name: string) | ByInput(filters: map<string, string>)

  const HTML_FILTERS: map<string, string> :=
    map["odt" := "HTML (StarWriter)", "ods" := "HTML (StarCalc)", "odp" := "impress_html_Export"]

  const PDF_FILTERS: map<string, string> :=
    map["odt" := "writer_pdf_Export", "ods" := "calc_pdf_Export", "odp" := "impress_pdf_Export",
        "htm" := "writer_pdf_Export", "html" := "writer_pdf_Export", "rtf" := "writer_pdf_Export",
        "txt" := "writer_pdf_Export", "csv" := "calc_pdf_Export", "swf" := "draw_pdf_Export",
        "doc" := "writer_pdf_Export", "xls" := "calc_pdf_Export", "ppt" := "impress_pdf_Export",
        "docx" := "writer_pdf_Export", "xlsx" := "calc_pdf_Export"]

  const FILE_TYPES: map<string, FilterEntry> :=
    map["odt" := Filter("writer8"), "ods" := Filter("calc8"), "odp" := Filter("impress8"),
        "htm" := ByInput(HTML_FILTERS), "html" := ByInput(HTML_FILTERS),
        "rtf" := Filter("Rich Text Format"), "txt" := Filter("Text"),
        "csv" := Filter("Text - txt - csv (StarCalc)"), "pdf" := ByInput(PDF_FILTERS),
        "swf" := Filter("impress_flash_Export"), "doc" := Filter("MS Word 97"),
        "xls" := Filter("MS Excel 97"), "ppt" := Filter("MS PowerPoint 97"),
        "docx" := Filter("MS Word 2007 XML"), "xlsx" := Filter("Calc MS Excel 2007 XML")]

  /** The ConverterError cases (and the KeyError of an input type that a
      per-input entry does not know). */
  datatype ConverterError =
    | DocNotFound(path: string)
    | BadResultType(resultType: string)
    | NoFilterForInput(inputType: string)
    | CannotWriteResult(result: string)

  /** `os.path.splitext(docPath)[1][1:].lower()`. */
  function InputType(docPath: string): string {
    Lower(ExtensionOf(docPath))
  }

  /** getResultFilter. */
  function GetResultFilter(resultType: string, inputType: string): (r: Result<string, ConverterError>)
    ensures r == Err(BadResultType(resultType)) <==> resultType !in FILE_TYPES
    ensures r.Err? && resultType in FILE_TYPES ==>
              FILE_TYPES[resultType].ByInput? && inputType !in FILE_TYPES[resultType].filters &&
              r.error == NoFilterForInput(inputType)
    ensures r.Ok? ==> resultType in FILE_TYPES
    ensures r.Ok? && resultType in FILE_TYPES && FILE_TYPES[resultType].Filter? ==> r.value == FILE_TYPES[resultType].name
    ensures r.Ok? && resultType in FILE_TYPES && FILE_TYPES[resultType].ByInput? ==>
              inputType in FILE_TYPES[resultType].filters && r.value == FILE_TYPES[resultType].filters[inputType]
  {
    if resultType in FILE_TYPES then
      match FILE_TYPES[resultType]
      case Filter(f) => Ok(f)
      case ByInput(m) => if inputType in m then Ok(m[inputType]) else Err(NoFilterForInput(inputType))
    else Err(BadResultType(resultType))
  }

  /** Exactly `htm`, `html` and `pdf` choose their filter by input type. */
  lemma PerInputEntries()
    ensures forall t :: t in FILE_TYPES && FILE_TYPES[t].ByInput? <==> t in {"htm", "html", "pdf"}
  {
  }

  /** Every known type but pdf itself converts to pdf, and the HTML exports
      exist for the three LibreOffice formats only. */
  lemma PdfFromAnyType(inputType: string)
    ensures GetResultFilter("pdf", inputType).Ok? <==> inputType in FILE_TYPES && inputType != "pdf"
    ensures GetResultFilter("html", inputType).Ok? <==> inputType in {"odt", "ods", "odp"}
  {
  }

  /** The result file: `<base>.<resultType>`, or `<base>.res.<resultType>`
      when no real conversion happens. */
  function ResultPath(docPath: string, resultType: string): string {
    var baseName := SplitExt(docPath).0;
    if resultType != InputType(docPath) then baseName + "." + resultType else baseName + ".res." + resultType
  }

  predicate LowerCase(s: string) {
    forall i :: 0 <= i < |s| ==> !IsUpper(s[i])
  }

  lemma LowerOfLowerCase(s: string)
    requires LowerCase(s)
    ensures Lower(s) == s
  {
    assert forall i :: 0 <= i < |s| ==> Lower(s)[i] == s[i];
  }

  /** The result never overwrites the document being converted. */
  lemma {:induction false} ResultNeverInput(docPath: string, resultType: string)
    requires LowerCase(resultType)
    ensures ResultPath(docPath, resultType) != docPath
  {
    var (baseName, ext) := SplitExt(docPath);
    var r := ResultPath(docPath, resultType);
    if ext == [] {
      assert |r| > |docPath|;
    } else if resultType != InputType(docPath) {
      assert r == baseName + ("." + resultType);
      assert docPath == baseName + ext;
      assert r == docPath ==> ext == "." + resultType;
      assert ExtensionOf(docPath) == ext[1..];
      LowerOfLowerCase(resultType);
      assert ext == "." + resultType ==> InputType(docPath) == resultType;
    } else {
      assert ExtensionOf(docPath) == ext[1..];
      assert |InputType(docPath)| == |ext| - 1;
      assert |r| == |docPath| + 4;
    }
  }

  /** The probe of the result file: I/O, given as whether it can be written. */
  function GetResultPath(docPath: string, resultType: string, writable: bool): (r: Result<string, ConverterError>)
    ensures r.Ok? <==> writable
    ensures r.Ok? ==> r.value == ResultPath(docPath, resultType)
    ensures r.Err? ==> r.error == CannotWriteResult(ResultPath(docPath, resultType))
  {
    if writable then Ok(ResultPath(docPath, resultType)) else Err(CannotWriteResult(ResultPath(docPath, resultType)))
  }

  /** What the constructor works out. */
  datatype Conversion = Conversion(docPath: string, inputType: string, resultType: string,
                                   resultFilter: string, resultPath: string)

  /** Converter.__init__: the document must exist, then the filter must be
      known, then the result must be writable, in that order. */
  function NewConverter(docPath: string, resultType: string, docExists: bool, writable: bool): (r: Result<Conversion, ConverterError>)
    ensures !docExists ==> r == Err(DocNotFound(docPath))
    ensures docExists && GetResultFilter(resultType, InputType(docPath)).Err? ==>
              r == Err(GetResultFilter(resultType, InputType(docPath)).error)
    ensures docExists && GetResultFilter(resultType, InputType(docPath)).Ok? && !writable ==>
              r == Err(CannotWriteResult(ResultPath(docPath, resultType)))
    ensures r.Ok? <==> docExists && GetResultFilter(resultType, InputType(docPath)).Ok? && writable
    ensures r.Ok? ==> r.value.inputType == InputType(docPath) && r.value.resultPath != docPath
    ensures r.Ok? ==> GetResultFilter(resultType, InputType(docPath)) == Ok(r.value.resultFilter)
    ensures r.Ok? ==> r.value.resultPath == ResultPath(docPath, resultType)
  {
    if !docExists then Err(DocNotFound(docPath))
    else
      var inputType := InputType(docPath);
      match GetResultFilter(resultType, inputType)
      case Err(e) => Err(e)
      case Ok(f) =>
        match GetResultPath(docPath, resultType, writable)
        case Err(e) => Err(e)
        case Ok(p) =>
          KnownTypesLowerCase();
          ResultNeverInput(docPath, resultType);
          Ok(Conversion(docPath, inputType, resultType, f, p))
  }

  /** Known result types are lower case, so the result path lemma applies. */
  lemma KnownTypesLowerCase()
    ensures forall t :: t in FILE_TYPES ==> LowerCase(t)
  {
  }

  /** A UNO property value. */
  datatype PropValue = Flag(b: bool) | TextValue(s: string)
  datatype Property = Property(name: string, value: PropValue)

  /** props: one property per pair, in the given order. */
  function Props(properties: seq<(string, PropValue)>): (r: seq<Property>)
    ensures |r| == |properties|
    ensures forall i :: 0 <= i < |r| ==> r[i].name == properties[i].0 && r[i].value == properties[i].1
  {
    if properties == [] then [] else [Property(properties[0].0, properties[0].1)] + Props(properties[1..])
  }

  const CSV_OPTIONS := "59,34,76,1"

  /** The properties of loadDocument: hidden, plus the CSV flags for a CSV
      input. */
  function LoadProps(c: Conversion): (r: seq<Property>)
    ensures |r| >= 1 && r[0] == Property("Hidden", Flag(true))
    ensures |r| == 2 <==> c.inputType == "csv"
    ensures |r| == 2 ==> r[1] == Property("FilterFlags", TextValue(CSV_OPTIONS))
  {
    Props([("Hidden", Flag(true))] + (if c.inputType == "csv" then [("FilterFlags", TextValue(CSV_OPTIONS))] else []))
  }

  /** The properties of convertDocument: the filter, plus the CSV options
      for a CSV result. */
  function StoreProps(c: Conversion): (r: seq<Property>)
    ensures |r| >= 1 && r[0] == Property("FilterName", TextValue(c.resultFilter))
    ensures |r| == 2 <==> c.resultType == "csv"
    ensures |r| == 2 ==> r[1] == Property("FilterOptions", TextValue(CSV_OPTIONS))
  {
    Props([("FilterName", TextValue(c.resultFilter))] + (if c.resultType == "csv" then [("FilterOptions", TextValue(CSV_OPTIONS))] else []))
  }
}
