/**
 * The HTTP service: per-request processing options, the dispatch to the two
 * extractors and the two chunkers, the upload, path, batch and rechunk
 * endpoints, the extraction cache and document deletion. The file system,
 * the uploaded bytes, the model replies and the chunking libraries are
 * parameters; an HTTP error is a status code with its detail.
 */
module Service {
  import opened Base
  import opened Text
  import opened Docs
  import Store
  import Semantic
  import AgenticChunker
  import Agentic
  import PdfText
  import Vision

  // ---------------------------------------------------------------------------
  // configuration and processing options
  // ---------------------------------------------------------------------------

  /** The default extractor and chunker (the environment is not modelled). */
  const PDF_EXTRACTOR_MODE := "text"
  const CHUNKER_MODE := "semantic"

  const EXTRACTOR_MODES := ["text", "vision"]
  const CHUNKER_MODES := ["semantic", "agentic"]
  const MERGE_WINDOW_RANGE := (0, 5)

  /** What `/config` reports. */
  datatype Config = Config(extractorMode: string, chunkerMode: string, mergeWindow: int,
                           extractorModes: seq<string>, chunkerModes: seq<string>, mergeWindowRange: (int, int))

  /** `get_config`: the defaults are among the modes it offers, and the default window is in its range. */
  function GetConfig(): (c: Config)
    ensures c.extractorMode in c.extractorModes && c.chunkerMode in c.chunkerModes
    ensures c.mergeWindowRange.0 <= c.mergeWindow <= c.mergeWindowRange.1
    ensures c.extractorModes == ["text", "vision"] && c.chunkerModes == ["semantic", "agentic"] && c.mergeWindowRange == (0, 5)
  {
    Config(PDF_EXTRACTOR_MODE, CHUNKER_MODE, Agentic.AGENTIC_CHUNK_MERGE_WINDOW, EXTRACTOR_MODES, CHUNKER_MODES, MERGE_WINDOW_RANGE)
  }

  datatype ProcessingOptions = ProcessingOptions(extractorMode: string, chunkerMode: string, mergeWindow: int)

  /** `x or d` for an optional string: `None` and the empty string both give `d`. */
  function OrDefault(x: Option<string>, d: string): string
  {
    if x.None? || x.value == [] then d else x.value
  }

  /** `(x or d).lower().strip()`. */
  function Mode(x: Option<string>, d: string): string
  {
    Strip(Lower(OrDefault(x, d)))
  }

  /** No ASCII upper-case letter. */
  predicate IsLower(s: string)
  {
    forall i :: 0 <= i < |s| ==> !('A' <= s[i] <= 'Z')
  }

  /** `ProcessingOptions(...)`. */
  function MakeOptions(extractorMode: Option<string>, chunkerMode: Option<string>, mergeWindow: Option<int>): (o: ProcessingOptions)
    ensures IsStripped(o.extractorMode) && IsLower(o.extractorMode)
    ensures IsStripped(o.chunkerMode) && IsLower(o.chunkerMode)
    ensures extractorMode.None? || extractorMode == Some("") ==> o.extractorMode == PDF_EXTRACTOR_MODE
    ensures chunkerMode.None? || chunkerMode == Some("") ==> o.chunkerMode == CHUNKER_MODE
    ensures mergeWindow.Some? ==> o.mergeWindow == mergeWindow.value
    ensures mergeWindow.None? ==> o.mergeWindow == Agentic.AGENTIC_CHUNK_MERGE_WINDOW
  {
    ModeFacts(extractorMode, PDF_EXTRACTOR_MODE);
    ModeFacts(chunkerMode, CHUNKER_MODE);
    ProcessingOptions(Mode(extractorMode, PDF_EXTRACTOR_MODE), Mode(chunkerMode, CHUNKER_MODE),
                      if mergeWindow.Some? then mergeWindow.value else Agentic.AGENTIC_CHUNK_MERGE_WINDOW)
  }

  /** A normalised mode is stripped and lower-case; the two defaults normalise to themselves. */
  lemma ModeFacts(x: Option<string>, d: string)
    requires d == PDF_EXTRACTOR_MODE || d == CHUNKER_MODE
    ensures IsStripped(Mode(x, d)) && IsLower(Mode(x, d))
    ensures x.None? || x == Some("") ==> Mode(x, d) == d
  {
    ModeNormal(x, d);
    if x.None? || x == Some("") {
      assert Lower(OrDefault(x, d)) == d;
      StrippedIsFixed(d);
    }
  }

  /** `lower().strip()` leaves no whitespace at either end and no upper-case letter. */
  lemma ModeNormal(x: Option<string>, d: string)
    ensures IsStripped(Mode(x, d)) && IsLower(Mode(x, d))
  {
    var l := Lower(OrDefault(x, d));
    StripFacts(l);
    TrimCharsSlice(l, Whitespace);
    var i := LeadCount(l, Whitespace);
    forall k | 0 <= k < |Strip(l)|
      ensures !('A' <= Strip(l)[k] <= 'Z')
    {
      assert Strip(l)[k] == l[i + k];
    }
  }

  /** Whatever `strip()` returns holds only characters of its input. */
  lemma StripKeepsOut(s: string, c: char)
    requires c !in s
    ensures c !in Strip(s)
  {
    TrimCharsSlice(s, Whitespace);
    var i := LeadCount(s, Whitespace);
    forall k | 0 <= k < |Strip(s)|
      ensures Strip(s)[k] != c
    {
      assert Strip(s)[k] == s[i + k];
    }
  }

  /**
   * Options are normalised once and for all: feeding normalised, non-empty
   * modes back in gives the same options.
   */
  lemma OptionsNormalised(o: ProcessingOptions)
    requires o.extractorMode != [] && o.chunkerMode != []
    requires IsStripped(o.extractorMode) && IsLower(o.extractorMode)
    requires IsStripped(o.chunkerMode) && IsLower(o.chunkerMode)
    ensures MakeOptions(Some(o.extractorMode), Some(o.chunkerMode), Some(o.mergeWindow)) == o
  {
    LowerFixed(o.extractorMode);
    LowerFixed(o.chunkerMode);
    StrippedIsFixed(o.extractorMode);
    StrippedIsFixed(o.chunkerMode);
  }

  /** `lower()` leaves a lower-case string unchanged. */
  lemma LowerFixed(s: string)
    requires IsLower(s)
    ensures Lower(s) == s
  {
  }

  /** The options of a request that sets nothing are the configuration's defaults. */
  lemma DefaultOptionsAreConfig()
    ensures var o, c := MakeOptions(None, None, None), GetConfig();
      o == ProcessingOptions(c.extractorMode, c.chunkerMode, c.mergeWindow)
  {
  }

  // ---------------------------------------------------------------------------
  // library parameters and the dispatch to extractors and chunkers
  // ---------------------------------------------------------------------------

  /**
   * The libraries the service calls: the JSON reading of a streamed vision
   * line, the section analysis and the splitter of the agentic chunker, the
   * semantic splitter (absent when it could not be built) and its fallback.
   */
  datatype Engines = Engines(readLine: Vision.LineReader,
                             analyze: string -> Option<AgenticChunker.Analysis>,
                             split: string -> seq<string>,
                             semantic: Option<string -> Option<seq<string>>>,
                             fallback: string -> seq<string>)

  /** A PDF as the service finds it: whether its path exists, what opening it gives, the vision replies per page. */
  datatype PdfSource = PdfSource(fileExists: bool, open: Result<PdfFile>, respond: nat -> Result<Vision.Reply>)

  /** `chunk_with_options` as a value. */
  function ChunkedWith(pages: seq<Page>, base: Metadata, o: ProcessingOptions, eng: Engines): seq<Chunk>
  {
    if o.chunkerMode == "agentic" then AgenticChunker.ChunkPagesSpec(pages, base, eng.analyze, eng.split, Some(o.mergeWindow))
    else AgenticChunker.MergeStep(Semantic.ChunkPagesSpec(pages, base, eng.semantic, eng.fallback), o.mergeWindow)
  }

  /**
   * `chunk_with_options`: the agentic chunker receives the merge window; the
   * semantic chunks are merged afterwards, and only with a window of at least
   * one and more than one chunk.
   */
  method ChunkWithOptions(pages: seq<Page>, base: Metadata, o: ProcessingOptions, eng: Engines) returns (chunks: seq<Chunk>)
    ensures chunks == ChunkedWith(pages, base, o, eng)
  {
    if o.chunkerMode == "agentic" {
      chunks := AgenticChunker.ChunkPages(pages, base, eng.analyze, eng.split, Some(o.mergeWindow));
      return;
    }
    chunks := Semantic.ChunkPages(pages, base, eng.semantic, eng.fallback);
    if o.mergeWindow >= 1 && |chunks| > 1 {
      chunks := Agentic.MergeAdjacentChunks(chunks, o.mergeWindow);
    }
  }

  /** The chunks depend on the chunker mode and the window only, never on the extractor mode. */
  lemma ChunkingIgnoresExtractor(pages: seq<Page>, base: Metadata, o: ProcessingOptions, e: string, eng: Engines)
    ensures ChunkedWith(pages, base, o.(extractorMode := e), eng) == ChunkedWith(pages, base, o, eng)
  {
  }

  /**
   * On the semantic path the merge keeps one chunk per semantic chunk, so the
   * service finds no chunks exactly when the semantic chunker gives none; a
   * window below one keeps the semantic chunks as they are.
   */
  lemma SemanticPathKeepsCount(pages: seq<Page>, base: Metadata, o: ProcessingOptions, eng: Engines)
    requires o.chunkerMode != "agentic"
    ensures var cs := Semantic.ChunkPagesSpec(pages, base, eng.semantic, eng.fallback);
      && |ChunkedWith(pages, base, o, eng)| == |cs|
      && (o.mergeWindow < 1 ==> ChunkedWith(pages, base, o, eng) == cs)
  {
  }

  /** With nothing set, the service chunks semantically without merging. */
  lemma DefaultChunking(pages: seq<Page>, base: Metadata, eng: Engines)
    ensures ChunkedWith(pages, base, MakeOptions(None, None, None), eng) == Semantic.ChunkPagesSpec(pages, base, eng.semantic, eng.fallback)
  {
  }

  /** `extract_with_options` as a value. */
  function ExtractedFromPath(path: string, o: ProcessingOptions, src: PdfSource, eng: Engines): Result<PdfData>
  {
    if o.extractorMode == "vision" then Vision.WithVision(path, src.fileExists, src.open, src.respond, eng.readLine)
    else PdfText.FromPath(path, src.fileExists, src.open)
  }

  /** `extract_bytes_with_options` as a value. */
  function ExtractedFromBytes(filename: string, o: ProcessingOptions, src: PdfSource, eng: Engines): Result<PdfData>
  {
    if o.extractorMode == "vision" then Vision.FromBytesWithVision(src.open, filename, src.respond, eng.readLine)
    else PdfText.FromBytes(src.open, filename)
  }

  /** `extract_with_options`: only the mode "vision" selects the vision extractor; any other mode reads the text layer. */
  method ExtractWithOptions(path: string, o: ProcessingOptions, src: PdfSource, eng: Engines)
    returns (r: Result<PdfData>, ghost requests: seq<Vision.ModelRequest>)
    ensures r == ExtractedFromPath(path, o, src, eng)
    ensures requests == (if o.extractorMode == "vision" && src.fileExists && src.open.Ok? then Vision.ONE_SHOT_REQUESTS else [])
  {
    if o.extractorMode == "vision" {
      r, requests := Vision.ExtractTextWithVision(path, src.fileExists, src.open, src.respond, eng.readLine);
    } else {
      r := PdfText.ExtractTextFromPdf(path, src.fileExists, src.open);
      requests := [];
    }
  }

  /** `extract_bytes_with_options`. */
  method ExtractBytesWithOptions(filename: string, o: ProcessingOptions, src: PdfSource, eng: Engines)
    returns (r: Result<PdfData>, ghost requests: seq<Vision.ModelRequest>)
    ensures r == ExtractedFromBytes(filename, o, src, eng)
    ensures requests == (if o.extractorMode == "vision" && src.open.Ok? then Vision.ONE_SHOT_REQUESTS else [])
  {
    if o.extractorMode == "vision" {
      r, requests := Vision.ExtractTextFromBytesWithVision(src.open, filename, src.respond, eng.readLine);
    } else {
      r := PdfText.ExtractTextFromBytes(src.open, filename);
      requests := [];
    }
  }

  // ---------------------------------------------------------------------------
  // form tags
  // ---------------------------------------------------------------------------

  /** The stripped, non-empty pieces among the first `k`, in order. */
  function CleanList(parts: seq<string>, k: nat): seq<string>
    requires k <= |parts|
  {
    if k == 0 then []
    else
      var t := Strip(parts[k - 1]);
      if t == [] then CleanList(parts, k - 1) else CleanList(parts, k - 1) + [t]
  }

  /** `[t.strip() for t in tags.split(",") if t.strip()]`. */
  function FormTags(tags: string): seq<string>
  {
    var parts := Split(tags, ',');
    CleanList(parts, |parts|)
  }

  /** A tag as the form yields it: not empty, stripped, and without a comma. */
  predicate CleanTag(t: string)
  {
    t != [] && IsStripped(t) && ',' !in t
  }

  lemma {:induction false} CleanListFacts(parts: seq<string>, k: nat)
    requires k <= |parts|
    requires forall j :: 0 <= j < |parts| ==> ',' !in parts[j]
    ensures forall i :: 0 <= i < |CleanList(parts, k)| ==> CleanTag(CleanList(parts, k)[i])
    ensures forall j :: 0 <= j < k && Strip(parts[j]) != [] ==> Strip(parts[j]) in CleanList(parts, k)
  {
    if k > 0 {
      CleanListFacts(parts, k - 1);
      StripFacts(parts[k - 1]);
      StripKeepsOut(parts[k - 1], ',');
    }
  }

  /** Every form tag is clean, and every comma-separated piece that is not blank yields its stripped self. */
  lemma FormTagsClean(tags: string)
    ensures forall i :: 0 <= i < |FormTags(tags)| ==> CleanTag(FormTags(tags)[i])
    ensures var parts := Split(tags, ',');
      forall j :: 0 <= j < |parts| && Strip(parts[j]) != [] ==> Strip(parts[j]) in FormTags(tags)
  {
    var parts := Split(tags, ',');
    CleanListFacts(parts, |parts|);
  }

  lemma {:induction false} CleanListOfClean(parts: seq<string>, k: nat)
    requires k <= |parts|
    requires forall j :: 0 <= j < |parts| ==> CleanTag(parts[j])
    ensures CleanList(parts, k) == parts[..k]
  {
    if k > 0 {
      CleanListOfClean(parts, k - 1);
      StrippedIsFixed(parts[k - 1]);
      PrefixSnoc(parts, k - 1);
    }
  }

  /** Clean tags joined with commas are read back as the same list. */
  lemma FormTagsRoundTrip(tags: seq<string>)
    requires forall j :: 0 <= j < |tags| ==> CleanTag(tags[j])
    ensures FormTags(Join(",", tags)) == tags
  {
    if tags == [] {
      assert Split([], ',') == [[]];
    } else {
      SplitJoin(tags, ',');
      CleanListOfClean(tags, |tags|);
      assert tags[..|tags|] == tags;
    }
  }

  // ---------------------------------------------------------------------------
  // responses and the chunk-and-store step
  // ---------------------------------------------------------------------------

  /** The value of a call that could succeed, or the HTTP error it raises. */
  datatype Http<T> = Done(value: T) | Failed(status: int, detail: string)

  datatype ProcessResponse = ProcessResponse(success: bool, pdfId: string, chunksCreated: nat, message: string)

  const NO_TEXT := "No text content found in PDF"
  const NO_CHUNKS := "Could not create chunks from PDF"

  /** The metadata every chunk of a document starts from. */
  function DocumentBase(filename: string, d: PdfData): Metadata
  {
    map["filename" := Str(filename), "total_pages" := Int(d.totalPages),
        "pdf_title" := Str(d.metadata.title), "pdf_author" := Str(d.metadata.author)]
  }

  /** Chunking an extraction: no pages, or no chunks, is a 400; otherwise the chunks to store. */
  function ChunkPlan(d: PdfData, filename: string, o: ProcessingOptions, eng: Engines, noChunks: string): Http<seq<Chunk>>
  {
    if d.pages == [] then Failed(400, NO_TEXT)
    else
      var chunks := ChunkedWith(d.pages, DocumentBase(filename, d), o, eng);
      if chunks == [] then Failed(400, noChunks) else Done(chunks)
  }

  function ProcessedMessage(filename: string, n: nat): string
  {
    "Successfully processed " + filename + ": " + NatToString(n) + " chunks created"
  }

  function RechunkedMessage(filename: string, n: nat): string
  {
    "Successfully rechunked " + filename + ": " + NatToString(n) + " chunks created (skipped extraction)"
  }

  /** The response to a plan: its error, or success with the number of chunks stored. */
  function Answer(plan: Http<seq<Chunk>>, pdfId: string, filename: string, rechunked: bool): Http<ProcessResponse>
  {
    match plan
    case Failed(s, e) => Failed(s, e)
    case Done(chunks) =>
      Done(ProcessResponse(true, pdfId, |chunks|,
                           if rechunked then RechunkedMessage(filename, |chunks|) else ProcessedMessage(filename, |chunks|)))
  }

  /** The collection after a plan: its chunks added under the document when it succeeds, unchanged otherwise. */
  function StoredBy(coll: Store.Collection, plan: Http<seq<Chunk>>, pdfId: string, filename: string, tags: seq<string>): Store.Collection
  {
    if plan.Done? then Store.InsertNew(coll, Store.Records(plan.value, pdfId, filename, tags)) else coll
  }

  /** A plan that succeeds has something to store; a plan that fails is a 400 about the pages or the chunks. */
  lemma ChunkPlanFacts(d: PdfData, filename: string, o: ProcessingOptions, eng: Engines, noChunks: string)
    ensures var plan := ChunkPlan(d, filename, o, eng, noChunks);
      && (plan.Done? <==> d.pages != [] && ChunkedWith(d.pages, DocumentBase(filename, d), o, eng) != [])
      && (plan.Done? ==> plan.value != [])
      && (d.pages == [] ==> plan == Failed(400, NO_TEXT))
      && (d.pages != [] && plan.Failed? ==> plan == Failed(400, noChunks))
  {
  }

  // ---------------------------------------------------------------------------
  // the extraction cache
  // ---------------------------------------------------------------------------

  /** A cached extraction: the name and tags it was processed with, and the extraction result. */
  datatype CacheEntry = CacheEntry(pdfId: string, filename: string, tags: seq<string>, pdfData: PdfData)

  datatype CacheStatus = CacheStatus(pdfId: string, hasCache: bool, filename: Option<string>)

  // ---------------------------------------------------------------------------
  // uploads
  // ---------------------------------------------------------------------------

  /** The form fields of `/process-pdf`; an empty field means "use the default". */
  datatype UploadForm = UploadForm(pdfId: string, filename: string, tags: string,
                                   extractorMode: string, chunkerMode: string, mergeWindow: string)

  /** An empty form field is `None`. */
  function FormField(s: string): Option<string>
  {
    if s == [] then None else Some(s)
  }

  /** The options of an upload; `int()` on the window field (a parameter) can fail. */
  function FormOptions(form: UploadForm, parseInt: string -> Result<int>): Result<ProcessingOptions>
  {
    if form.mergeWindow != [] && parseInt(form.mergeWindow).Err? then Err(parseInt(form.mergeWindow).error)
    else
      var w := if form.mergeWindow == [] then None else Some(parseInt(form.mergeWindow).value);
      Ok(MakeOptions(FormField(form.extractorMode), FormField(form.chunkerMode), w))
  }

  /** `/process-pdf` as a value: an error becomes a 500 with its message, the pages and chunks checks are 400s. */
  function UploadPlan(form: UploadForm, src: PdfSource, eng: Engines, parseInt: string -> Result<int>): Http<seq<Chunk>>
  {
    match FormOptions(form, parseInt)
    case Err(e) => Failed(500, e)
    case Ok(o) =>
      match ExtractedFromBytes(form.filename, o, src, eng)
      case Err(e) => Failed(500, e)
      case Ok(d) => ChunkPlan(d, form.filename, o, eng, NO_CHUNKS)
  }

  /** An upload of blank pages read by the text extractor is refused for lack of text. */
  lemma BlankUploadRefused(form: UploadForm, src: PdfSource, eng: Engines, parseInt: string -> Result<int>)
    requires FormOptions(form, parseInt).Ok? && FormOptions(form, parseInt).value.extractorMode != "vision"
    requires src.open.Ok? && forall i :: 0 <= i < |src.open.value.pageTexts| ==> IsBlank(src.open.value.pageTexts[i])
    ensures UploadPlan(form, src, eng, parseInt) == Failed(400, NO_TEXT)
  {
    PdfText.BlankFile(src.open.value, form.filename);
  }

  /** An upload that can be read succeeds exactly when it has pages and they give chunks. */
  lemma UploadPlanFacts(form: UploadForm, src: PdfSource, eng: Engines, parseInt: string -> Result<int>)
    ensures var plan := UploadPlan(form, src, eng, parseInt);
      && (plan.Done? ==> plan.value != [])
      && (plan.Failed? ==> plan.status == 400 || plan.status == 500)
      && (plan.Failed? && plan.status == 400 ==> plan.detail == NO_TEXT || plan.detail == NO_CHUNKS)
      && (FormOptions(form, parseInt).Err? ==> plan == Failed(500, FormOptions(form, parseInt).error))
  {
    match FormOptions(form, parseInt)
    case Err(_) =>
    case Ok(o) =>
      match ExtractedFromBytes(form.filename, o, src, eng)
      case Err(_) =>
      case Ok(d) => ChunkPlanFacts(d, form.filename, o, eng, NO_CHUNKS);
  }

  // ---------------------------------------------------------------------------
  // processing from a path
  // ---------------------------------------------------------------------------

  /** The body of `/process-pdf-path`. */
  datatype PathRequest = PathRequest(pdfId: string, filename: string, tags: seq<string>, filePath: Option<string>,
                                     extractorMode: Option<string>, chunkerMode: Option<string>, mergeWindow: Option<int>)

  function PathOptions(req: PathRequest): ProcessingOptions
  {
    MakeOptions(req.extractorMode, req.chunkerMode, req.mergeWindow)
  }

  /** `/process-pdf-path` up to the cache save: a path is required and must exist, and the file must give pages. */
  function PathExtraction(req: PathRequest, src: PdfSource, eng: Engines): Http<PdfData>
  {
    if req.filePath.None? || req.filePath.value == [] then Failed(400, "file_path is required")
    else if !src.fileExists then Failed(404, "File not found: " + req.filePath.value)
    else
      match ExtractedFromPath(req.filePath.value, PathOptions(req), src, eng)
      case Err(e) => Failed(500, e)
      case Ok(d) => if d.pages == [] then Failed(400, NO_TEXT) else Done(d)
  }

  /** `/process-pdf-path` as a value. */
  function PathPlan(req: PathRequest, src: PdfSource, eng: Engines): Http<seq<Chunk>>
  {
    match PathExtraction(req, src, eng)
    case Failed(s, e) => Failed(s, e)
    case Done(d) => ChunkPlan(d, req.filename, PathOptions(req), eng, NO_CHUNKS)
  }

  /** The cache entry a path request writes. */
  function EntryOf(req: PathRequest, d: PdfData): CacheEntry
  {
    CacheEntry(req.pdfId, req.filename, req.tags, d)
  }

  /** Only an extraction with pages is cached; a request that gets past the file checks is either cached or a 500. */
  lemma PathExtractionFacts(req: PathRequest, src: PdfSource, eng: Engines)
    ensures var x := PathExtraction(req, src, eng);
      && (x.Done? ==> x.value.pages != [])
      && (x.Failed? && x.status == 404 ==> req.filePath.Some? && !src.fileExists)
      && (PathPlan(req, src, eng).Done? ==> x.Done?)
  {
  }

  // ---------------------------------------------------------------------------
  // rechunking
  // ---------------------------------------------------------------------------

  function RechunkOptions(chunkerMode: Option<string>, mergeWindow: Option<int>): ProcessingOptions
  {
    MakeOptions(Some("text"), chunkerMode, mergeWindow)
  }

  /** Whether `rechunk_document` gets as far as deleting the stored chunks. */
  predicate RechunkDeletes(cache: map<string, CacheEntry>, pdfId: string)
  {
    pdfId in cache && cache[pdfId].pdfData.pages != []
  }

  /** `rechunk_document` as a value: no cache entry is a 404, a cached extraction without pages a 400. */
  function RechunkPlan(cache: map<string, CacheEntry>, pdfId: string, o: ProcessingOptions, eng: Engines): Http<seq<Chunk>>
  {
    if pdfId !in cache then
      Failed(404, "No extraction cache found for PDF " + pdfId + ". Run full processing first.")
    else
      var e := cache[pdfId];
      if e.pdfData.pages == [] then Failed(400, "Cached extraction has no page data")
      else ChunkPlan(e.pdfData, e.filename, o, eng, "Could not create chunks from cached extraction")
  }

  /**
   * Rechunking the entry a path request cached, with that request's chunker
   * mode and window, plans the same chunks the request stored.
   */
  lemma RechunkReproduces(req: PathRequest, src: PdfSource, eng: Engines, cache: map<string, CacheEntry>)
    requires PathPlan(req, src, eng).Done?
    requires req.pdfId in cache && cache[req.pdfId] == EntryOf(req, PathExtraction(req, src, eng).value)
    ensures RechunkPlan(cache, req.pdfId, RechunkOptions(req.chunkerMode, req.mergeWindow), eng) == PathPlan(req, src, eng)
  {
    var d := PathExtraction(req, src, eng).value;
    var o := PathOptions(req);
    assert RechunkOptions(req.chunkerMode, req.mergeWindow) == o.(extractorMode := Mode(Some("text"), PDF_EXTRACTOR_MODE));
    ChunkingIgnoresExtractor(d.pages, DocumentBase(req.filename, d), o, Mode(Some("text"), PDF_EXTRACTOR_MODE), eng);
  }

  // ---------------------------------------------------------------------------
  // batches
  // ---------------------------------------------------------------------------

  /** One entry of `/process-batch`, with the file it names. */
  datatype BatchItem = BatchItem(pdfId: string, filename: string, filePath: string, tags: seq<string>,
                                 extractorMode: Option<string>, chunkerMode: Option<string>, mergeWindow: Option<int>,
                                 src: PdfSource)

  datatype BatchRequest = BatchRequest(items: seq<BatchItem>, extractorMode: Option<string>,
                                       chunkerMode: Option<string>, mergeWindow: Option<int>)

  /** One entry of the batch response. */
  datatype ItemResult = ItemResult(pdfId: string, filename: string, success: bool, chunksCreated: nat, error: Option<string>)

  datatype BatchResponse = BatchResponse(success: bool, processed: nat, failed: nat, results: seq<ItemResult>)

  /** An item's options: its own fields where set, the global options' otherwise. */
  function ItemOptions(item: BatchItem, g: ProcessingOptions): ProcessingOptions
  {
    MakeOptions(Some(OrDefault(item.extractorMode, g.extractorMode)), Some(OrDefault(item.chunkerMode, g.chunkerMode)),
                Some(if item.mergeWindow.Some? then item.mergeWindow.value else g.mergeWindow))
  }

  /** The text extraction of one item; its file is checked to exist first. */
  function TextItem(item: BatchItem): Result<PdfData>
  {
    if !item.src.fileExists then Err("File not found: " + item.filePath)
    else PdfText.FromPath(item.filePath, true, item.src.open)
  }

  /** The vision extraction of one item; its file is checked to exist first. */
  function VisionItem(item: BatchItem, readLine: Vision.LineReader): Result<PdfData>
  {
    if !item.src.fileExists then Err("File not found: " + item.filePath)
    else Vision.WithVision(item.filePath, true, item.src.open, item.src.respond, readLine)
  }

  /** The extraction of one item with the batch's extractor. */
  function ExtractBatchItem(item: BatchItem, vision: bool, readLine: Vision.LineReader): Result<PdfData>
  {
    if vision then VisionItem(item, readLine) else TextItem(item)
  }

  /** The batch's extractor as a function of the item. */
  function Extraction(vision: bool, readLine: Vision.LineReader): BatchItem -> Result<PdfData>
  {
    (item: BatchItem) => ExtractBatchItem(item, vision, readLine)
  }

  /** What the chunking phase decides for one item. */
  datatype Verdict = Stored(chunks: seq<Chunk>) | Rejected(error: string)

  /**
   * The chunking phase for one item. A failed extraction with an empty
   * message is falsy, so it is reported as having no text.
   */
  function VerdictOf(item: BatchItem, data: Result<PdfData>, o: ProcessingOptions, eng: Engines): Verdict
  {
    if data.Err? && data.error != [] then Rejected("Extraction failed: " + data.error)
    else if data.Err? || data.value.pages == [] then Rejected(NO_TEXT)
    else
      var chunks := ChunkedWith(data.value.pages, DocumentBase(item.filename, data.value), o, eng);
      if chunks == [] then Rejected(NO_CHUNKS) else Stored(chunks)
  }

  /** The verdict on an item of a batch with global options `g`. */
  function ItemVerdict(item: BatchItem, g: ProcessingOptions, eng: Engines): Verdict
  {
    VerdictOf(item, ExtractBatchItem(item, g.extractorMode == "vision", eng.readLine), ItemOptions(item, g), eng)
  }

  function Verdicts(g: ProcessingOptions, eng: Engines): BatchItem -> Verdict
  {
    (item: BatchItem) => ItemVerdict(item, g, eng)
  }

  function ResultOf(item: BatchItem, v: Verdict): ItemResult
  {
    match v
    case Stored(chunks) => ItemResult(item.pdfId, item.filename, true, |chunks|, None)
    case Rejected(e) => ItemResult(item.pdfId, item.filename, false, 0, Some(e))
  }

  /** The collection after one item's verdict. */
  function StoreVerdict(coll: Store.Collection, item: BatchItem, v: Verdict): Store.Collection
  {
    match v
    case Stored(chunks) => Store.InsertNew(coll, Store.Records(chunks, item.pdfId, item.filename, item.tags))
    case Rejected(_) => coll
  }

  /** The results of the first `k` items, in order. */
  function BatchResults(items: seq<BatchItem>, verdict: BatchItem -> Verdict, k: nat): (rs: seq<ItemResult>)
    requires k <= |items|
    ensures |rs| == k
  {
    if k == 0 then [] else BatchResults(items, verdict, k - 1) + [ResultOf(items[k - 1], verdict(items[k - 1]))]
  }

  /** The collection after the first `k` items. */
  function BatchStored(coll: Store.Collection, items: seq<BatchItem>, verdict: BatchItem -> Verdict, k: nat): Store.Collection
    requires k <= |items|
  {
    if k == 0 then coll else StoreVerdict(BatchStored(coll, items, verdict, k - 1), items[k - 1], verdict(items[k - 1]))
  }

  /** The number of successful results. */
  function Successes(rs: seq<ItemResult>): (n: nat)
    ensures n <= |rs|
  {
    if rs == [] then 0 else Successes(rs[..|rs| - 1]) + (if rs[|rs| - 1].success then 1 else 0)
  }

  /** The batch response for a non-empty batch. */
  function BatchOutcome(items: seq<BatchItem>, verdict: BatchItem -> Verdict): BatchResponse
  {
    var rs := BatchResults(items, verdict, |items|);
    var processed := Successes(rs);
    BatchResponse(processed == |items|, processed, |items| - processed, rs)
  }

  /** The chunker mode of each item. */
  function ChunkerModes(g: ProcessingOptions): BatchItem -> string
  {
    (item: BatchItem) => ItemOptions(item, g).chunkerMode
  }

  /** Whether some item chunks agentically. */
  predicate AnyAgentic(items: seq<BatchItem>, g: ProcessingOptions)
  {
    exists i :: 0 <= i < |items| && ChunkerModes(g)(items[i]) == "agentic"
  }

  /** How many of the first `k` items name a file that exists. */
  function ExistingCount(items: seq<BatchItem>, k: nat): nat
    requires k <= |items|
  {
    if k == 0 then 0 else ExistingCount(items, k - 1) + (if items[k - 1].src.fileExists then 1 else 0)
  }

  /** The model calls of a batch: only in vision mode, one extraction per existing file, then the switch if needed. */
  function BatchRequests(items: seq<BatchItem>, g: ProcessingOptions): seq<Vision.ModelRequest>
  {
    if g.extractorMode != "vision" then []
    else
      var s := Vision.Extractions(Vision.FRESH, ExistingCount(items, |items|));
      (if AnyAgentic(items, g) then Vision.PrepareText(s) else s).requests
  }

  /** A verdict that stores, stores something. */
  predicate Sound(v: Verdict)
  {
    v.Stored? ==> v.chunks != []
  }

  /** A result that names its item; a failure created nothing and says why, a success created at least one chunk. */
  predicate Reported(item: BatchItem, r: ItemResult)
  {
    && r.pdfId == item.pdfId && r.filename == item.filename
    && (!r.success ==> r.chunksCreated == 0 && r.error.Some?)
    && (r.success ==> r.chunksCreated > 0 && r.error.None?)
  }

  /** The chunking phase never stores an empty list. */
  lemma VerdictSound(item: BatchItem, g: ProcessingOptions, eng: Engines)
    ensures Sound(Verdicts(g, eng)(item))
  {
  }

  /** With sound verdicts, the batch result lists every item in order, each reported faithfully. */
  lemma {:induction false} BatchResultsFacts(items: seq<BatchItem>, verdict: BatchItem -> Verdict, k: nat)
    requires k <= |items|
    requires forall i :: 0 <= i < |items| ==> Sound(verdict(items[i]))
    ensures var rs := BatchResults(items, verdict, k);
      forall i :: 0 <= i < k ==> Reported(items[i], rs[i])
  {
    if k > 0 {
      BatchResultsFacts(items, verdict, k - 1);
    }
  }

  /** Every item of a batch is reported faithfully. */
  lemma BatchReported(items: seq<BatchItem>, g: ProcessingOptions, eng: Engines)
    ensures var rs := BatchOutcome(items, Verdicts(g, eng)).results;
      forall i :: 0 <= i < |items| ==> Reported(items[i], rs[i])
  {
    forall i | 0 <= i < |items|
      ensures Sound(Verdicts(g, eng)(items[i]))
    {
      VerdictSound(items[i], g, eng);
    }
    BatchResultsFacts(items, Verdicts(g, eng), |items|);
  }

  /** Every result is counted once: all succeeded exactly when the count is the length, none when it is 0. */
  lemma {:induction false} SuccessesFacts(rs: seq<ItemResult>)
    ensures Successes(rs) == |rs| <==> forall i :: 0 <= i < |rs| ==> rs[i].success
    ensures Successes(rs) == 0 <==> forall i :: 0 <= i < |rs| ==> !rs[i].success
    decreases |rs|
  {
    if rs != [] {
      SuccessesFacts(rs[..|rs| - 1]);
    }
  }

  /** A batch succeeds exactly when every item does, and processed and failed add up to the number of items. */
  lemma BatchOutcomeFacts(items: seq<BatchItem>, verdict: BatchItem -> Verdict)
    ensures var r := BatchOutcome(items, verdict);
      && r.processed + r.failed == |items| && |r.results| == |items|
      && (r.success <==> r.failed == 0)
      && (r.success <==> forall i :: 0 <= i < |items| ==> r.results[i].success)
  {
    SuccessesFacts(BatchResults(items, verdict, |items|));
  }

  /** One item of the chunking phase. */
  lemma BatchStep(items: seq<BatchItem>, verdict: BatchItem -> Verdict, i: nat, coll0: Store.Collection,
                  results: seq<ItemResult>, coll: Store.Collection, v: Verdict, res: ItemResult)
    requires i < |items|
    requires results == BatchResults(items, verdict, i) && coll == BatchStored(coll0, items, verdict, i)
    requires v == verdict(items[i]) && res == ResultOf(items[i], v)
    ensures results + [res] == BatchResults(items, verdict, i + 1)
    ensures StoreVerdict(coll, items[i], v) == BatchStored(coll0, items, verdict, i + 1)
    ensures Successes(results + [res]) == Successes(results) + (if res.success then 1 else 0)
  {
    assert (results + [res])[..|results|] == results;
  }

  /** The verdict the chunking phase reaches on an extraction is the item's verdict. */
  lemma VerdictAt(item: BatchItem, data: Result<PdfData>, g: ProcessingOptions, eng: Engines)
    requires data == ExtractBatchItem(item, g.extractorMode == "vision", eng.readLine)
    ensures VerdictOf(item, data, ItemOptions(item, g), eng) == Verdicts(g, eng)(item)
  {
  }

  /** The verdicts the chunking phase reaches on the extractions of a batch are the items' verdicts. */
  lemma VerdictsAgree(items: seq<BatchItem>, datas: seq<Result<PdfData>>, g: ProcessingOptions, eng: Engines)
    requires |datas| == |items|
    requires forall j :: 0 <= j < |items| ==> datas[j] == Extraction(g.extractorMode == "vision", eng.readLine)(items[j])
    ensures forall j :: 0 <= j < |items| ==> Verdicts(g, eng)(items[j]) == VerdictOf(items[j], datas[j], ItemOptions(items[j], g), eng)
  {
    forall j | 0 <= j < |items|
      ensures Verdicts(g, eng)(items[j]) == VerdictOf(items[j], datas[j], ItemOptions(items[j], g), eng)
    {
      VerdictAt(items[j], datas[j], g, eng);
    }
  }

  /** Two batches whose verdicts agree item by item have the same results. */
  lemma {:induction false} SameVerdicts(a: seq<BatchItem>, b: seq<BatchItem>, verdict: BatchItem -> Verdict, k: nat)
    requires |a| == |b| && k <= |a|
    requires forall i :: 0 <= i < |a| ==> verdict(a[i]) == verdict(b[i])
    requires forall i :: 0 <= i < |a| ==> a[i].pdfId == b[i].pdfId && a[i].filename == b[i].filename
    ensures BatchResults(a, verdict, k) == BatchResults(b, verdict, k)
  {
    if k > 0 {
      SameVerdicts(a, b, verdict, k - 1);
    }
  }

  /** The item's extractor field never changes its verdict. */
  lemma ExtractorFieldIgnored(x: BatchItem, y: BatchItem, g: ProcessingOptions, eng: Engines)
    requires x.(extractorMode := None) == y.(extractorMode := None)
    ensures Verdicts(g, eng)(x) == Verdicts(g, eng)(y)
  {
    var ox, oy := ItemOptions(x, g), ItemOptions(y, g);
    assert oy == ox.(extractorMode := oy.extractorMode);
    var d := ExtractBatchItem(x, g.extractorMode == "vision", eng.readLine);
    assert d == ExtractBatchItem(y, g.extractorMode == "vision", eng.readLine);
    if d.Ok? && d.value.pages != [] {
      ChunkingIgnoresExtractor(d.value.pages, DocumentBase(x.filename, d.value), ox, oy.extractorMode, eng);
    }
  }

  /** The extractor of a batch is the global one: what an item asks for as its extractor changes no result. */
  lemma ItemExtractorIgnored(a: seq<BatchItem>, b: seq<BatchItem>, g: ProcessingOptions, eng: Engines)
    requires |a| == |b|
    requires forall i :: 0 <= i < |a| ==> a[i].(extractorMode := None) == b[i].(extractorMode := None)
    ensures BatchOutcome(a, Verdicts(g, eng)) == BatchOutcome(b, Verdicts(g, eng))
  {
    forall i | 0 <= i < |a|
      ensures Verdicts(g, eng)(a[i]) == Verdicts(g, eng)(b[i])
      ensures a[i].pdfId == b[i].pdfId && a[i].filename == b[i].filename
    {
      ExtractorFieldIgnored(a[i], b[i], g, eng);
      assert a[i].(extractorMode := None).pdfId == a[i].pdfId;
      assert b[i].(extractorMode := None).filename == b[i].filename;
    }
    SameVerdicts(a, b, Verdicts(g, eng), |a|);
  }

  /** A batch in text mode makes no model calls; in vision mode the vision model is requested at most once, and the text model only after it. */
  lemma BatchRequestsShape(items: seq<BatchItem>, g: ProcessingOptions)
    ensures var rs, n := BatchRequests(items, g), ExistingCount(items, |items|);
      && (g.extractorMode != "vision" || n == 0 ==> rs == [])
      && (g.extractorMode == "vision" && n > 0 && !AnyAgentic(items, g) ==> rs == [Vision.EnsureLoaded(Vision.VISION_MODEL)])
      && (g.extractorMode == "vision" && n > 0 && AnyAgentic(items, g) ==> rs == Vision.ONE_SHOT_REQUESTS)
  {
    Vision.BatchSwitchesOnce(ExistingCount(items, |items|));
  }

  // ---------------------------------------------------------------------------
  // the service
  // ---------------------------------------------------------------------------

  class RagService {
    /** The vector store every endpoint works on. */
    const store: Store.VectorStore
    /** The extraction cache: one entry per document id. */
    var cache: map<string, CacheEntry>

    constructor(store: Store.VectorStore, persisted: map<string, CacheEntry>)
      ensures this.store == store && cache == persisted
    {
      this.store := store;
      cache := persisted;
    }

    /** Chunk with options and store the chunks under the document; no chunks is a 400 with `noChunks`. */
    method ChunkAndStore(d: PdfData, pdfId: string, filename: string, tags: seq<string>, o: ProcessingOptions,
                         eng: Engines, noChunks: string) returns (r: Http<nat>)
      requires d.pages != []
      modifies store
      ensures var plan := ChunkPlan(d, filename, o, eng, noChunks);
        && (plan.Failed? ==> r == Failed(plan.status, plan.detail))
        && (plan.Done? ==> r == Done(|plan.value|))
        && store.collection == StoredBy(old(store.collection), plan, pdfId, filename, tags)
    {
      var chunks := ChunkWithOptions(d.pages, DocumentBase(filename, d), o, eng);
      if chunks == [] {
        return Failed(400, noChunks);
      }
      var added := store.AddDocuments(chunks, pdfId, filename, tags);
      r := Done(added);
    }

    /** `/process-pdf`. */
    method ProcessPdfFile(form: UploadForm, src: PdfSource, eng: Engines, parseInt: string -> Result<int>)
      returns (r: Http<ProcessResponse>)
      modifies store
      ensures r == Answer(UploadPlan(form, src, eng, parseInt), form.pdfId, form.filename, false)
      ensures store.collection == StoredBy(old(store.collection), UploadPlan(form, src, eng, parseInt), form.pdfId, form.filename, FormTags(form.tags))
    {
      var window: Option<int> := None;
      if form.mergeWindow != [] {
        var parsed := parseInt(form.mergeWindow);
        if parsed.Err? {
          return Failed(500, parsed.error);
        }
        window := Some(parsed.value);
      }
      var o := MakeOptions(FormField(form.extractorMode), FormField(form.chunkerMode), window);
      var tags := FormTags(form.tags);
      var extracted, _ := ExtractBytesWithOptions(form.filename, o, src, eng);
      if extracted.Err? {
        return Failed(500, extracted.error);
      }
      var d := extracted.value;
      if d.pages == [] {
        return Failed(400, NO_TEXT);
      }
      var stored := ChunkAndStore(d, form.pdfId, form.filename, tags, o, eng, NO_CHUNKS);
      if stored.Failed? {
        return Failed(stored.status, stored.detail);
      }
      r := Done(ProcessResponse(true, form.pdfId, stored.value, ProcessedMessage(form.filename, stored.value)));
    }

    /** `/process-pdf-path`: the extraction is cached as soon as it has pages, before chunking. */
    method ProcessPdfFromPath(req: PathRequest, src: PdfSource, eng: Engines) returns (r: Http<ProcessResponse>)
      modifies this, store
      ensures r == Answer(PathPlan(req, src, eng), req.pdfId, req.filename, false)
      ensures store.collection == StoredBy(old(store.collection), PathPlan(req, src, eng), req.pdfId, req.filename, req.tags)
      ensures var x := PathExtraction(req, src, eng);
        cache == if x.Done? then old(cache)[req.pdfId := EntryOf(req, x.value)] else old(cache)
    {
      var x := ExtractForPath(req, src, eng);
      if x.Failed? {
        return Failed(x.status, x.detail);
      }
      var d := x.value;
      cache := cache[req.pdfId := EntryOf(req, d)];
      var stored := ChunkAndStore(d, req.pdfId, req.filename, req.tags, PathOptions(req), eng, NO_CHUNKS);
      if stored.Failed? {
        return Failed(stored.status, stored.detail);
      }
      r := Done(ProcessResponse(true, req.pdfId, stored.value, ProcessedMessage(req.filename, stored.value)));
    }

    /** `/cache/{pdf_id}`. */
    method CheckCacheStatus(pdfId: string) returns (r: CacheStatus)
      ensures r.pdfId == pdfId && (r.hasCache <==> pdfId in cache)
      ensures r.filename.Some? <==> pdfId in cache
      ensures pdfId in cache ==> r.filename == Some(cache[pdfId].filename)
    {
      if pdfId in cache {
        return CacheStatus(pdfId, true, Some(cache[pdfId].filename));
      }
      r := CacheStatus(pdfId, false, None);
    }

    /**
     * `/rechunk/{pdf_id}`: nothing is extracted; the stored chunks are
     * deleted only once the cache entry is found with pages, and stay deleted
     * when the new chunking gives nothing.
     */
    method RechunkDocument(pdfId: string, chunkerMode: Option<string>, mergeWindow: Option<int>, eng: Engines)
      returns (r: Http<ProcessResponse>)
      modifies store
      ensures var plan := RechunkPlan(cache, pdfId, RechunkOptions(chunkerMode, mergeWindow), eng);
        && r == Answer(plan, pdfId, if pdfId in cache then cache[pdfId].filename else "", true)
        && (!RechunkDeletes(cache, pdfId) ==> store.collection == old(store.collection))
        && (RechunkDeletes(cache, pdfId) ==>
              var kept := Store.Without(old(store.collection), Store.DocumentIds(old(store.collection), pdfId));
              store.collection == StoredBy(kept, plan, pdfId, cache[pdfId].filename, cache[pdfId].tags))
    {
      if pdfId !in cache {
        return Failed(404, "No extraction cache found for PDF " + pdfId + ". Run full processing first.");
      }
      var entry := cache[pdfId];
      if entry.pdfData.pages == [] {
        return Failed(400, "Cached extraction has no page data");
      }
      var o := RechunkOptions(chunkerMode, mergeWindow);
      var _ := store.DeleteDocument(pdfId);
      var stored := ChunkAndStore(entry.pdfData, pdfId, entry.filename, entry.tags, o, eng, "Could not create chunks from cached extraction");
      if stored.Failed? {
        return Failed(stored.status, stored.detail);
      }
      r := Done(ProcessResponse(true, pdfId, stored.value, RechunkedMessage(entry.filename, stored.value)));
    }

    /** `/document/{pdf_id}` (DELETE): the document's chunks are deleted and counted, and its cache entry dropped. */
    method DeleteDocument(pdfId: string) returns (chunksDeleted: nat)
      modifies this, store
      ensures chunksDeleted == |Store.DocumentIds(old(store.collection), pdfId)|
      ensures store.collection == Store.Without(old(store.collection), Store.DocumentIds(old(store.collection), pdfId))
      ensures cache == old(cache) - {pdfId}
    {
      chunksDeleted := store.DeleteDocument(pdfId);
      cache := cache - {pdfId};
    }

    /** The body of one item of the chunking phase. */
    method StoreItem(item: BatchItem, data: Result<PdfData>, o: ProcessingOptions, eng: Engines, ghost v: Verdict)
      returns (res: ItemResult)
      requires v == VerdictOf(item, data, o, eng)
      modifies store
      ensures res == ResultOf(item, v)
      ensures store.collection == StoreVerdict(old(store.collection), item, v)
    {
      if data.Err? && data.error != [] {
        return ItemResult(item.pdfId, item.filename, false, 0, Some("Extraction failed: " + data.error));
      }
      if data.Err? || data.value.pages == [] {
        return ItemResult(item.pdfId, item.filename, false, 0, Some(NO_TEXT));
      }
      var stored := ChunkAndStore(data.value, item.pdfId, item.filename, item.tags, o, eng, NO_CHUNKS);
      if stored.Failed? {
        return ItemResult(item.pdfId, item.filename, false, 0, Some(NO_CHUNKS));
      }
      res := ItemResult(item.pdfId, item.filename, true, stored.value, None);
    }

    /** One pass of the chunking loop: the item's verdict carried out, reported and counted. */
    method ChunkStep(items: seq<BatchItem>, datas: seq<Result<PdfData>>, g: ProcessingOptions, eng: Engines,
                     ghost verdict: BatchItem -> Verdict, i: nat, results: seq<ItemResult>, processed: nat, failed: nat,
                     ghost coll0: Store.Collection)
      returns (results': seq<ItemResult>, processed': nat, failed': nat)
      requires i < |items| == |datas|
      requires verdict(items[i]) == VerdictOf(items[i], datas[i], ItemOptions(items[i], g), eng)
      requires results == BatchResults(items, verdict, i) && processed == Successes(results) && failed == i - processed
      requires store.collection == BatchStored(coll0, items, verdict, i)
      modifies store
      ensures results' == BatchResults(items, verdict, i + 1) && processed' == Successes(results') && failed' == i + 1 - processed'
      ensures store.collection == BatchStored(coll0, items, verdict, i + 1)
    {
      ghost var v := verdict(items[i]);
      ghost var coll := store.collection;
      var res := StoreItem(items[i], datas[i], ItemOptions(items[i], g), eng, v);
      BatchStep(items, verdict, i, coll0, results, coll, v, res);
      results' := results + [res];
      if res.success {
        processed', failed' := processed + 1, failed;
      } else {
        processed', failed' := processed, failed + 1;
      }
    }

    /** The chunking phase: every extraction in order, counting successes and failures. */
    method ChunkAll(items: seq<BatchItem>, datas: seq<Result<PdfData>>, g: ProcessingOptions, eng: Engines,
                    ghost verdict: BatchItem -> Verdict)
      returns (r: BatchResponse)
      requires |datas| == |items|
      requires forall j :: 0 <= j < |items| ==> verdict(items[j]) == VerdictOf(items[j], datas[j], ItemOptions(items[j], g), eng)
      modifies store
      ensures r == BatchOutcome(items, verdict)
      ensures store.collection == BatchStored(old(store.collection), items, verdict, |items|)
    {
      var results: seq<ItemResult> := [];
      var processed, failed := 0, 0;
      for i := 0 to |items|
        invariant results == BatchResults(items, verdict, i)
        invariant processed == Successes(results) && failed == i - processed
        invariant store.collection == BatchStored(old(store.collection), items, verdict, i)
      {
        results, processed, failed := ChunkStep(items, datas, g, eng, verdict, i, results, processed, failed, old(store.collection));
      }
      r := BatchResponse(failed == 0, processed, failed, results);
    }

    /**
     * `/process-batch`: an empty batch is a 400; otherwise every file is
     * extracted with the global extractor (in vision mode by one batch
     * extractor, switched to the text model afterwards when an item chunks
     * agentically), then every item is chunked and stored in order.
     * `requests` are the model calls made.
     */
    method ProcessBatch(req: BatchRequest, eng: Engines) returns (r: Http<BatchResponse>, ghost requests: seq<Vision.ModelRequest>)
      modifies store
      ensures var g := MakeOptions(req.extractorMode, req.chunkerMode, req.mergeWindow);
        && (req.items == [] ==> r == Failed(400, "No items provided") && store.collection == old(store.collection) && requests == [])
        && (req.items != [] ==> r == Done(BatchOutcome(req.items, Verdicts(g, eng))))
        && (req.items != [] ==> store.collection == BatchStored(old(store.collection), req.items, Verdicts(g, eng), |req.items|))
        && (req.items != [] ==> requests == BatchRequests(req.items, g))
    {
      var items := req.items;
      if items == [] {
        return Failed(400, "No items provided"), [];
      }
      var g := MakeOptions(req.extractorMode, req.chunkerMode, req.mergeWindow);
      var datas;
      datas, requests := ExtractPhase(items, g, eng.readLine);
      VerdictsAgree(items, datas, g, eng);
      var response := ChunkAll(items, datas, g, eng, Verdicts(g, eng));
      r := Done(response);
    }
  }

  /**
   * The extraction phase of a batch: the global extractor for every item; in
   * vision mode one batch extractor, switched to the text model afterwards
   * when some item chunks agentically.
   */
  method ExtractPhase(items: seq<BatchItem>, g: ProcessingOptions, readLine: Vision.LineReader)
    returns (datas: seq<Result<PdfData>>, ghost requests: seq<Vision.ModelRequest>)
    ensures |datas| == |items|
    ensures forall j :: 0 <= j < |items| ==> datas[j] == Extraction(g.extractorMode == "vision", readLine)(items[j])
    ensures requests == BatchRequests(items, g)
  {
    if g.extractorMode == "vision" {
      var extractor := new Vision.BatchVisionExtractor();
      datas := ExtractWithVision(extractor, items, readLine);
      assert forall j :: 0 <= j < |items| ==> datas[j] == Extraction(true, readLine)(items[j]);
      var needsText := NeedsTextModel(items, ChunkerModes(g));
      if needsText {
        extractor.PrepareForChunking();
      }
      requests := extractor.requests;
    } else {
      datas := ExtractWithText(items);
      requests := [];
      forall j | 0 <= j < |items|
        ensures datas[j] == Extraction(false, readLine)(items[j])
      {
      }
    }
  }

  /** The vision extraction phase of a batch: one extractor for every item whose file exists. */
  method ExtractWithVision(extractor: Vision.BatchVisionExtractor, items: seq<BatchItem>, readLine: Vision.LineReader)
    returns (datas: seq<Result<PdfData>>)
    requires extractor.State() == Vision.FRESH
    modifies extractor
    ensures |datas| == |items|
    ensures forall j :: 0 <= j < |items| ==> datas[j] == VisionItem(items[j], readLine)
    ensures extractor.State() == Vision.Extractions(Vision.FRESH, ExistingCount(items, |items|))
  {
    datas := [];
    for i := 0 to |items|
      invariant |datas| == i
      invariant forall j :: 0 <= j < i ==> datas[j] == VisionItem(items[j], readLine)
      invariant extractor.State() == Vision.Extractions(Vision.FRESH, ExistingCount(items, i))
    {
      var data := VisionStep(extractor, items[i], readLine);
      VisionAppend(items, readLine, i, datas, data);
      datas := datas + [data];
    }
  }

  /** The extractions of the first `i + 1` items, from those of the first `i` and the next one. */
  lemma VisionAppend(items: seq<BatchItem>, readLine: Vision.LineReader, i: nat, datas: seq<Result<PdfData>>, data: Result<PdfData>)
    requires i < |items| && |datas| == i
    requires forall j :: 0 <= j < i ==> datas[j] == VisionItem(items[j], readLine)
    requires data == VisionItem(items[i], readLine)
    ensures forall j :: 0 <= j < i + 1 ==> (datas + [data])[j] == VisionItem(items[j], readLine)
  {
  }

  /** One item of the vision phase: a missing file is reported without touching the models. */
  method VisionStep(extractor: Vision.BatchVisionExtractor, item: BatchItem, readLine: Vision.LineReader)
    returns (data: Result<PdfData>)
    modifies extractor
    ensures data == VisionItem(item, readLine)
    ensures extractor.State() == if item.src.fileExists then Vision.EnsureVision(old(extractor.State())) else old(extractor.State())
  {
    if !item.src.fileExists {
      data := Err("File not found: " + item.filePath);
    } else {
      data := extractor.ExtractFromPath(item.filePath, true, item.src.open, item.src.respond, readLine);
    }
  }

  /** `/process-pdf-path` up to the cache save. */
  method ExtractForPath(req: PathRequest, src: PdfSource, eng: Engines) returns (x: Http<PdfData>)
    ensures x == PathExtraction(req, src, eng)
  {
    if req.filePath.None? || req.filePath.value == [] {
      return Failed(400, "file_path is required");
    }
    var path := req.filePath.value;
    if !src.fileExists {
      return Failed(404, "File not found: " + path);
    }
    var extracted, _ := ExtractWithOptions(path, PathOptions(req), src, eng);
    if extracted.Err? {
      return Failed(500, extracted.error);
    }
    if extracted.value.pages == [] {
      return Failed(400, NO_TEXT);
    }
    x := Done(extracted.value);
  }

  /** The text extraction phase of a batch. */
  method ExtractWithText(items: seq<BatchItem>) returns (datas: seq<Result<PdfData>>)
    ensures |datas| == |items|
    ensures forall j :: 0 <= j < |items| ==> datas[j] == TextItem(items[j])
  {
    datas := [];
    for i := 0 to |items|
      invariant |datas| == i
      invariant forall j :: 0 <= j < i ==> datas[j] == TextItem(items[j])
    {
      var item := items[i];
      var data: Result<PdfData>;
      if !item.src.fileExists {
        data := Err("File not found: " + item.filePath);
      } else {
        data := PdfText.ExtractTextFromPdf(item.filePath, true, item.src.open);
      }
      datas := datas + [data];
    }
  }

  /** `any(options.chunker_mode == "agentic" for item in extracted_data)`. */
  method NeedsTextModel(items: seq<BatchItem>, modeOf: BatchItem -> string) returns (b: bool)
    ensures b <==> exists i :: 0 <= i < |items| && modeOf(items[i]) == "agentic"
  {
    for i := 0 to |items|
      invariant forall j :: 0 <= j < i ==> modeOf(items[j]) != "agentic"
    {
      if modeOf(items[i]) == "agentic" {
        return true;
      }
    }
    return false;
  }
}
