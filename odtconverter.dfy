/** The older OpenOffice converter of pod/converter.py, which turns an ODT
    document into another format: the filter table, the name of the result
    and the store properties. The UNO calls are not part of this model. */
module OdtConverters {
  import opened Wrappers
  import opened Text
  import opened Paths

  const ODT_FILE_TYPES: map<string, string> :=
    map["doc" := "MS Word 97", "pdf" := "writer_pdf_Export", "rtf" := "Rich Text Format",
        "txt" := "Text", "html" := "HTML (StarWriter)", "htm" := "HTML (StarWriter)", "odt" := "ODT"]

  /** The pseudo-filter of an ODT result: no conversion, only a refresh. */
  const ODT_FILTER := "ODT"
  const FILE_SCHEME := "file://"

  datatype ConverterError =
    | DocNotFound(path: string)
    | BadResultType(resultType: string)
    | CannotWriteResult(result: string)

  /** getResultFilter: known types map through the table, the others are an
      error. */
  function GetResultFilter(resultType: string): (r: Result<string, ConverterError>)
    ensures r.Ok? <==> resultType in ODT_FILE_TYPES
    ensures r.Ok? ==> r.value == ODT_FILE_TYPES[resultType]
    ensures r.Err? ==> r.error == BadResultType(resultType)
  {
    if resultType in ODT_FILE_TYPES then Ok(ODT_FILE_TYPES[resultType]) else Err(BadResultType(resultType))
  }

  /** Only the `odt` result leaves the document unconverted. */
  lemma OnlyOdtUnconverted(resultType: string)
    ensures GetResultFilter(resultType) == Ok(ODT_FILTER) <==> resultType == "odt"
  {
  }

  /** The result URL: `<base>.<type>`, or `<base>.res.odt` for an ODT result. */
  function ResultUrl(docUrl: string, resultType: string): string {
    var baseName := SplitExt(docUrl).0;
    if resultType != "odt" then baseName + "." + resultType else baseName + ".res." + resultType
  }

  /** The result overwrites the document exactly when the document already
      has the extension of a non-ODT result type. */
  lemma {:induction false} ResultUrlIsInput(docUrl: string, resultType: string)
    ensures ResultUrl(docUrl, resultType) == docUrl <==> resultType != "odt" && SplitExt(docUrl).1 == "." + resultType
  {
    var (baseName, ext) := SplitExt(docUrl);
    var r := ResultUrl(docUrl, resultType);
    if resultType != "odt" {
      assert r == baseName + ("." + resultType);
      assert docUrl == baseName + ext;
      if r == docUrl {
        assert r[|baseName|..] == "." + resultType && docUrl[|baseName|..] == ext;
      }
    } else {
      assert r[|baseName|..] == ".res.odt";
      assert docUrl[|baseName|..] == ext;
      assert ".res.odt"[1..][3] == '.';
    }
  }

  /** An ODT document is never overwritten. */
  lemma OdtDocumentKept(docUrl: string, resultType: string)
    requires SplitExt(docUrl).1 == ".odt"
    ensures ResultUrl(docUrl, resultType) != docUrl
  {
    ResultUrlIsInput(docUrl, resultType);
  }

  /** `res[7:]`: the file name behind a `file://` URL. */
  function FileName(url: string): string {
    if |url| >= 7 then url[7..] else []
  }

  /** For a `file://` document URL the probed file is the result URL
      without its scheme. */
  lemma {:induction false} FileNameOfResult(docUrl: string, resultType: string)
    requires StartsWith(docUrl, FILE_SCHEME)
    ensures StartsWith(ResultUrl(docUrl, resultType), FILE_SCHEME)
    ensures FILE_SCHEME + FileName(ResultUrl(docUrl, resultType)) == ResultUrl(docUrl, resultType)
  {
    var (baseName, ext) := SplitExt(docUrl);
    assert docUrl == baseName + ext;
    assert baseName[..7] == docUrl[..7];
    var r := ResultUrl(docUrl, resultType);
    assert r[..7] == baseName[..7];
  }

  /** What the constructor as written ends with: one of its own errors, or
      the `IOError` of a failed `open(fileName, 'w')`, which Python 2 raises
      and `except OSError` does not catch. */
  datatype Raised = Raised(error: ConverterError) | UncaughtIOError

  /** `getResultUrl` as written: a result that cannot be written escapes as
      an `IOError` instead of becoming its ConverterError. */
  function GetResultUrlAsWritten(docUrl: string, resultType: string, writable: bool): (r: Result<string, Raised>)
    ensures r.Ok? <==> writable
    ensures r.Ok? ==> r.value == ResultUrl(docUrl, resultType)
    ensures r.Err? ==> r.error == UncaughtIOError
  {
    if writable then Ok(ResultUrl(docUrl, resultType)) else Err(UncaughtIOError)
  }

  /** The probe of the result file as intended, I/O given as whether it can
      be written: the failure becomes the cannot-write error. */
  function GetResultUrl(docUrl: string, resultType: string, writable: bool): (r: Result<string, ConverterError>)
    ensures r.Ok? <==> writable
    ensures r.Ok? ==> r.value == ResultUrl(docUrl, resultType)
    ensures r.Err? ==> r.error == CannotWriteResult(ResultUrl(docUrl, resultType))
  {
    if writable then Ok(ResultUrl(docUrl, resultType)) else Err(CannotWriteResult(ResultUrl(docUrl, resultType)))
  }

  datatype Conversion = Conversion(docUrl: string, resultFilter: string, resultUrl: string)

  /** Converter.__init__: the document must exist, then the result type must
      be known, then the result must be writable. */
  function NewConverter(docUrl: string, resultType: string, docExists: bool, writable: bool): (r: Result<Conversion, ConverterError>)
    ensures !docExists ==> r == Err(DocNotFound(docUrl))
    ensures docExists && resultType !in ODT_FILE_TYPES ==> r == Err(BadResultType(resultType))
    ensures docExists && resultType in ODT_FILE_TYPES && !writable ==> r == Err(CannotWriteResult(ResultUrl(docUrl, resultType)))
    ensures r.Ok? <==> docExists && resultType in ODT_FILE_TYPES && writable
    ensures r.Ok? ==> r.value.resultFilter == ODT_FILE_TYPES[resultType] && r.value.resultUrl == ResultUrl(docUrl, resultType)
  {
    if !docExists then Err(DocNotFound(docUrl))
    else
      match GetResultFilter(resultType)
      case Err(e) => Err(e)
      case Ok(f) =>
        match GetResultUrl(docUrl, resultType, writable)
        case Err(e) => Err(e)
        case Ok(u) => Ok(Conversion(docUrl, f, u))
  }

  /** Converter.__init__ as written: the same checks in the same order, but
      an unwritable result escapes as an `IOError`. */
  function NewConverterAsWritten(docUrl: string, resultType: string, docExists: bool, writable: bool): (r: Result<Conversion, Raised>)
    ensures !docExists ==> r == Err(Raised(DocNotFound(docUrl)))
    ensures docExists && resultType !in ODT_FILE_TYPES ==> r == Err(Raised(BadResultType(resultType)))
    ensures docExists && resultType in ODT_FILE_TYPES && !writable ==> r == Err(UncaughtIOError)
    ensures r.Ok? <==> docExists && resultType in ODT_FILE_TYPES && writable
  {
    if !docExists then Err(Raised(DocNotFound(docUrl)))
    else
      match GetResultFilter(resultType)
      case Err(e) => Err(Raised(e))
      case Ok(f) =>
        match GetResultUrlAsWritten(docUrl, resultType, writable)
        case Err(e) => Err(e)
        case Ok(u) => Ok(Conversion(docUrl, f, u))
  }

  /** The two constructors agree except on an unwritable result, which the
      code as written lets escape as an `IOError` where the intended one
      reports it as the cannot-write error. */
  lemma UnwritableResultEscapes(docUrl: string, resultType: string, docExists: bool, writable: bool)
    ensures NewConverter(docUrl, resultType, docExists, writable).Ok? ==>
      NewConverterAsWritten(docUrl, resultType, docExists, writable) == Ok(NewConverter(docUrl, resultType, docExists, writable).value)
    ensures NewConverter(docUrl, resultType, docExists, writable).Err? ==>
      var e := NewConverter(docUrl, resultType, docExists, writable).error;
      NewConverterAsWritten(docUrl, resultType, docExists, writable) == Err(if e.CannotWriteResult? then UncaughtIOError else Raised(e))
    ensures docExists && resultType in ODT_FILE_TYPES && !writable ==>
      NewConverterAsWritten(docUrl, resultType, docExists, writable) == Err(UncaughtIOError) &&
      NewConverter(docUrl, resultType, docExists, writable) == Err(CannotWriteResult(ResultUrl(docUrl, resultType)))
  {
  }

  /** convertDocument: the `FilterName` property names the filter, and the
      ODT pseudo-filter stores with no property at all. */
  function StoreProps(c: Conversion): (r: seq<(string, string)>)
    ensures r == [] <==> c.resultFilter == ODT_FILTER
    ensures r != [] ==> r == [("FilterName", c.resultFilter)]
  {
    if c.resultFilter != ODT_FILTER then [("FilterName", c.resultFilter)] else []
  }
}
