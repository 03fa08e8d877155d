/**
  `ingestData`: the loader chosen by file extension, the splitter settings,
  the vector-store target, and the result-or-throw contract.

  Loading, splitting, embedding and storing are calls into foreign code; which
  of them (if any) failed is an input, and the settings each one is handed are
  the modelled part.
*/
module IngestData {
  import opened Wrappers
  import opened Js

  datatype LoaderKind = TextLoader | DocxLoader | PdfLoader | CsvLoader

  /** The `switch (extension)`: the four known extensions, and plain text for
      every other string. */
  function LoaderFor(extension: string): (k: LoaderKind)
    ensures k == DocxLoader <==> extension == "docx"
    ensures k == PdfLoader <==> extension == "pdf"
    ensures k == CsvLoader <==> extension == "csv"
    ensures k == TextLoader <==> extension !in {"docx", "pdf", "csv"}
  {
    match extension
    case "txt" => TextLoader
    case "docx" => DocxLoader
    case "pdf" => PdfLoader
    case "csv" => CsvLoader
    case _ => TextLoader
  }

  /** `if (!chunkOverlap) chunkOverlap = 0`: every falsy value (undefined,
      null, 0, NaN, false, "") becomes 0, every other value is kept. */
  function DefaultOverlap(chunkOverlap: JsValue): (r: JsValue)
    ensures !Truthy(chunkOverlap) ==> r == Num(0)
    ensures Truthy(chunkOverlap) ==> r == chunkOverlap
  {
    if !Truthy(chunkOverlap) then Num(0) else chunkOverlap
  }

  /** The overlap handed on is never a falsy value other than 0. */
  lemma DefaultOverlapIsSet(chunkOverlap: JsValue)
    ensures var r := DefaultOverlap(chunkOverlap); Truthy(r) || r == Num(0)
    ensures DefaultOverlap(DefaultOverlap(chunkOverlap)) == DefaultOverlap(chunkOverlap)
  {
  }

  /** What the foreign steps are handed: the loader and the file, the
      splitter's `{chunkSize, chunkOverlap}`, and the vector-store target. */
  datatype IngestPlan = IngestPlan(
    loader: LoaderKind,
    filepath: string,
    chunkSize: JsValue,
    chunkOverlap: JsValue,
    namespace: string,
    textKey: string)

  function Plan(extension: string, filepath: string, namespace: string,
                chunkSize: JsValue, chunkOverlap: JsValue): (p: IngestPlan)
    ensures p.loader == LoaderFor(extension) && p.filepath == filepath
    ensures p.chunkSize == chunkSize && p.chunkOverlap == DefaultOverlap(chunkOverlap)
    ensures p.namespace == namespace && p.textKey == "text"
  {
    IngestPlan(LoaderFor(extension), filepath, chunkSize, DefaultOverlap(chunkOverlap), namespace, "text")
  }

  /** The awaited foreign steps, any of which may throw. */
  datatype Step = Load | Split | WriteLog | Store

  /** `{success, code, message}` */
  datatype IngestResult = IngestResult(success: bool, code: int, message: string)

  /** The message of the error `ingestData` throws. */
  const IngestFailure: string := "Failed to ingest your data"

  /** `ingestData`, given which step threw (if any): the success record, or
      the one error every failure is turned into. */
  function IngestDataOutcome(failed: Option<Step>): (r: Result<IngestResult, string>)
    ensures r.Success? <==> failed.None?
    ensures r.Success? ==> r.value == IngestResult(true, 200, "Ingested data successfully")
    ensures r.Failure? ==> r.error == IngestFailure
  {
    if failed.Some? then Failure(IngestFailure)
    else Success(IngestResult(true, 200, "Ingested data successfully"))
  }
}
