/**
 * The vision extractor: every page image sent to the vision model, the
 * streamed reply collected into the page text, failed pages dropped, and a
 * batch extractor that loads the vision model once for many files and
 * switches to the text model afterwards. The HTTP replies, `json.loads` and
 * what PyMuPDF reads from a file are parameters; the rendering of page
 * images is not modelled.
 */
module Vision {
  import opened Base
  import opened Text
  import opened Docs

  const VISION_MODEL := "qwen3-vl-4b-instruct"
  const TEXT_MODEL := "qwen/qwen3-4b-2507"

  /** The prefix of the debug file the vision extractor writes. */
  const DEBUG_PREFIX := "vision_extracted_"

  // ---------------------------------------------------------------------------
  // which models are loaded
  // ---------------------------------------------------------------------------

  /** `model_name in str(m) or str(m) in model_name`. */
  predicate NameMatches(modelName: string, m: string)
  {
    Contains(m, modelName) || Contains(modelName, m)
  }

  /** `_is_model_loaded` against the list the server reports: the first match ends the search. */
  predicate IsModelLoaded(modelName: string, loaded: seq<string>)
    decreases |loaded|
  {
    if loaded == [] then false
    else if NameMatches(modelName, loaded[0]) then true
    else IsModelLoaded(modelName, loaded[1..])
  }

  /** A model counts as loaded exactly when some reported model contains its name or is contained in it. */
  lemma {:induction false} IsModelLoadedMeans(modelName: string, loaded: seq<string>)
    ensures IsModelLoaded(modelName, loaded) <==> exists i :: 0 <= i < |loaded| && NameMatches(modelName, loaded[i])
    decreases |loaded|
  {
    if loaded != [] {
      IsModelLoadedMeans(modelName, loaded[1..]);
      if !NameMatches(modelName, loaded[0]) && exists i :: 0 <= i < |loaded| && NameMatches(modelName, loaded[i]) {
        var i :| 0 <= i < |loaded| && NameMatches(modelName, loaded[i]);
        assert loaded[1..][i - 1] == loaded[i];
      }
    }
  }

  /** The containment test runs both ways, so the roles of the two names can be swapped. */
  lemma NameMatchesSymmetric(a: string, b: string)
    ensures IsModelLoaded(a, [b]) == IsModelLoaded(b, [a])
  {
  }

  /** The empty name is contained in every name, so it counts as loaded as soon as any model is. */
  lemma EmptyNameLoaded(loaded: seq<string>)
    ensures IsModelLoaded("", loaded) <==> loaded != []
  {
    if loaded != [] {
      assert MatchAt(loaded[0], "", 0);
    }
  }

  // ---------------------------------------------------------------------------
  // one page
  // ---------------------------------------------------------------------------

  /** The reply of the vision endpoint: status code and body. */
  datatype Reply = Reply(status: int, body: string)

  /**
   * What reading one non-empty stream line gives. `Skip`: `json.loads`
   * fails, or the object has no `content`. `Content`: the `content` string
   * is appended. `Raise`: the `TypeError` that the `content` test, the
   * lookup or the `+=` raises, with its message: a number, `true`, `false`
   * or `null`; a string or a list holding `"content"`; an object whose
   * `content` is not a string. The JSON decoding is the parameter.
   */
  datatype LineParse = Skip | Content(text: string) | Raise(message: string)

  /** The JSON reading of one stream line. */
  type LineReader = string -> LineParse

  /** The line is read (it is not empty) and reading it raises. */
  predicate Raises(line: string, readLine: LineReader)
  {
    line != [] && readLine(line).Raise?
  }

  /** The text after one more stripped line: an empty line is skipped before any decoding. */
  function LineStep(text: string, line: string, readLine: LineReader): Result<string>
  {
    if line == [] then Ok(text)
    else match readLine(line)
      case Skip => Ok(text)
      case Content(c) => Ok(text + c)
      case Raise(m) => Err(m)
  }

  /** The stream so far, continued by one line; once a line has raised, nothing more is read. */
  function Continue(sofar: Result<string>, line: string, readLine: LineReader): Result<string>
  {
    match sofar
    case Err(m) => Err(m)
    case Ok(t) => LineStep(t, line, readLine)
  }

  /** The text collected from the stripped stream lines, in order, or the message of the first line that raises. */
  function StreamText(lines: seq<string>, readLine: LineReader): Result<string>
    decreases |lines|
  {
    if lines == [] then Ok([])
    else Continue(StreamText(lines[..|lines| - 1], readLine), lines[|lines| - 1], readLine)
  }

  /** Two stretches collected one after the other: the first failure wins, otherwise the texts are concatenated. */
  function Then(x: Result<string>, y: Result<string>): Result<string>
  {
    if x.Err? then x else if y.Err? then y else Ok(x.value + y.value)
  }

  /** The stream lines of a reply body, each stripped. */
  function StreamLines(body: string): seq<string>
  {
    StripAll(Split(Strip(body), '\n'))
  }

  /** The NDJSON loop of `_extract_page_with_vision`: a line that raises ends it, with the exception's message. */
  method CollectStream(body: string, readLine: LineReader) returns (r: Result<string>)
    ensures r == StreamText(StreamLines(body), readLine)
  {
    var lines := Split(Strip(body), '\n');
    ghost var stripped := StreamLines(body);
    var text := [];
    for k := 0 to |lines|
      invariant StreamText(stripped[..k], readLine) == Ok(text)
    {
      var line := Strip(lines[k]);
      StreamTextSnoc(stripped, k, readLine);
      if line == [] {
        continue;
      }
      var data := readLine(line);
      match data
      case Skip =>
      case Content(c) =>
        text := text + c;
      case Raise(m) =>
        StreamTextAppend(stripped[..k + 1], stripped[k + 1..], readLine);
        assert stripped[..k + 1] + stripped[k + 1..] == stripped;
        return Err(m);
    }
    assert stripped[..|lines|] == stripped;
    r := Ok(text);
  }

  /** One more line of the stream continues what was collected before it. */
  lemma StreamTextSnoc(lines: seq<string>, k: int, readLine: LineReader)
    requires 0 <= k < |lines|
    ensures StreamText(lines[..k + 1], readLine) == Continue(StreamText(lines[..k], readLine), lines[k], readLine)
  {
    assert lines[..k + 1][..k] == lines[..k];
  }

  /** Continuing a combined stretch by a line is continuing its second part. */
  lemma ContinueThen(x: Result<string>, y: Result<string>, line: string, readLine: LineReader)
    ensures Continue(Then(x, y), line, readLine) == Then(x, Continue(y, line, readLine))
  {
    if x.Ok? && y.Ok? && line != [] && readLine(line).Content? {
      assert x.value + y.value + readLine(line).text == x.value + (y.value + readLine(line).text);
    }
  }

  /** Collecting two stretches of the stream one after the other is collecting the whole stream. */
  lemma {:induction false} StreamTextAppend(a: seq<string>, b: seq<string>, readLine: LineReader)
    ensures StreamText(a + b, readLine) == Then(StreamText(a, readLine), StreamText(b, readLine))
    decreases |b|
  {
    if b == [] {
      assert a + b == a;
      if StreamText(a, readLine).Ok? {
        assert StreamText(a, readLine).value + [] == StreamText(a, readLine).value;
      }
    } else {
      var init := b[..|b| - 1];
      assert (a + b)[..|a + b| - 1] == a + init;
      StreamTextAppend(a, init, readLine);
      ContinueThen(StreamText(a, readLine), StreamText(init, readLine), b[|b| - 1], readLine);
    }
  }

  /** A blank line, a line that does not decode and a line without `content` leave the result as it is, wherever they are. */
  lemma SkippedLine(a: seq<string>, line: string, b: seq<string>, readLine: LineReader)
    requires line == [] || readLine(line).Skip?
    ensures StreamText(a + [line] + b, readLine) == StreamText(a + b, readLine)
  {
    assert StreamText([line], readLine) == Ok([]) by {
      assert [line][..0] == [];
    }
    StreamTextAppend(a + [line], b, readLine);
    StreamTextAppend(a, [line], readLine);
    StreamTextAppend(a, b, readLine);
    if StreamText(a, readLine).Ok? {
      assert StreamText(a, readLine).value + [] == StreamText(a, readLine).value;
    }
  }

  /** A line that raises after lines that did not ends the stream with its own message, whatever follows. */
  lemma RaisedLine(a: seq<string>, line: string, b: seq<string>, readLine: LineReader)
    requires StreamText(a, readLine).Ok? && Raises(line, readLine)
    ensures StreamText(a + [line] + b, readLine) == Err(readLine(line).message)
  {
    assert StreamText([line], readLine) == Err(readLine(line).message) by {
      assert [line][..0] == [];
    }
    StreamTextAppend(a + [line], b, readLine);
    StreamTextAppend(a, [line], readLine);
  }

  /** The stream fails exactly when some line raises. */
  lemma {:induction false} StreamFails(lines: seq<string>, readLine: LineReader)
    ensures StreamText(lines, readLine).Err? <==> exists i :: 0 <= i < |lines| && Raises(lines[i], readLine)
    decreases |lines|
  {
    if lines != [] {
      var init := lines[..|lines| - 1];
      StreamFails(init, readLine);
      if StreamText(lines, readLine).Err? {
        if StreamText(init, readLine).Err? {
          var i :| 0 <= i < |init| && Raises(init[i], readLine);
          assert lines[i] == init[i];
        } else {
          assert Raises(lines[|lines| - 1], readLine);
        }
      }
      if exists i :: 0 <= i < |lines| && Raises(lines[i], readLine) {
        var i :| 0 <= i < |lines| && Raises(lines[i], readLine);
        if i < |init| {
          assert init[i] == lines[i];
        }
      }
    }
  }

  /** The text of a failed page. */
  function ErrorText(pageNum: nat, detail: Option<string>): string
  {
    match detail
    case None => "[Error extracting page " + NatToString(pageNum) + "]"
    case Some(e) => "[Error extracting page " + NatToString(pageNum) + ": " + e + "]"
  }

  /**
   * The text `_extract_page_with_vision` returns for a page: an error text
   * when the request raised, when the status is not 200, or when a stream
   * line raised; else the collected stream, stripped.
   */
  function PageText(pageNum: nat, reply: Result<Reply>, readLine: LineReader): string
  {
    match reply
    case Err(e) => ErrorText(pageNum, Some(e))
    case Ok(r) =>
      if r.status != 200 then ErrorText(pageNum, None)
      else match StreamText(StreamLines(r.body), readLine)
        case Err(m) => ErrorText(pageNum, Some(m))
        case Ok(t) => Strip(t)
  }

  /** `_extract_page_with_vision`. */
  method ExtractPageWithVision(pageNum: nat, reply: Result<Reply>, readLine: LineReader) returns (text: string)
    ensures text == PageText(pageNum, reply, readLine)
  {
    if reply.Err? {
      return ErrorText(pageNum, Some(reply.error));
    }
    if reply.value.status != 200 {
      return ErrorText(pageNum, None);
    }
    var extracted := CollectStream(reply.value.body, readLine);
    if extracted.Err? {
      return ErrorText(pageNum, Some(extracted.error));
    }
    text := Strip(extracted.value);
  }

  /** Both error texts start with the `[Error` marker the page filter looks for. */
  lemma ErrorTextMarked(pageNum: nat, detail: Option<string>)
    ensures HasPrefix(ErrorText(pageNum, detail), "[Error")
  {
    var t := ErrorText(pageNum, detail);
    assert t[..6] == "[Error";
  }

  /**
   * A page whose request failed, whose status is not 200, or one of whose
   * stream lines raises gets an `[Error` text; any other page a stripped text.
   */
  lemma PageTextFacts(pageNum: nat, reply: Result<Reply>, readLine: LineReader)
    ensures (reply.Err? || reply.value.status != 200) ==> HasPrefix(PageText(pageNum, reply, readLine), "[Error")
    ensures reply.Ok? && reply.value.status == 200 ==>
      var lines := StreamLines(reply.value.body);
      && ((exists i :: 0 <= i < |lines| && Raises(lines[i], readLine)) ==> HasPrefix(PageText(pageNum, reply, readLine), "[Error"))
      && ((forall i :: 0 <= i < |lines| ==> !Raises(lines[i], readLine)) ==> IsStripped(PageText(pageNum, reply, readLine)))
  {
    match reply
    case Err(e) => ErrorTextMarked(pageNum, Some(e));
    case Ok(r) =>
      if r.status != 200 {
        ErrorTextMarked(pageNum, None);
      } else {
        var s := StreamText(StreamLines(r.body), readLine);
        StreamFails(StreamLines(r.body), readLine);
        match s
        case Err(m) => ErrorTextMarked(pageNum, Some(m));
        case Ok(t) => StripFacts(t);
      }
  }

  // ---------------------------------------------------------------------------
  // one file
  // ---------------------------------------------------------------------------

  /** The vision extractor keeps a page text when it is not empty and does not start with `[Error`. */
  predicate Kept(text: string)
  {
    text != [] && !HasPrefix(text, "[Error")
  }

  /** The page text for each page number; `respond(p)` is the reply for page `p`, counting from 1. */
  function PageTextOf(respond: nat -> Result<Reply>, readLine: LineReader): nat -> string
  {
    (p: nat) => PageText(p, respond(p), readLine)
  }

  /** The text of every page of an `n`-page file. */
  function PageTextsOf(n: nat, respond: nat -> Result<Reply>, readLine: LineReader): (ts: seq<string>)
    ensures |ts| == n
  {
    Numbered(n, PageTextOf(respond, readLine))
  }

  /** Entry `i` of the page texts is the text of page `i + 1`. */
  lemma PageTextAt(n: nat, respond: nat -> Result<Reply>, readLine: LineReader, i: int)
    requires 0 <= i < n
    ensures PageTextsOf(n, respond, readLine)[i] == PageText(i + 1, respond(i + 1), readLine)
  {
    NumberedAt(n, PageTextOf(respond, readLine), i);
  }

  /** `_extract_single_pdf` as a value: the result is titled by the file name when the document has no title. */
  function SinglePdf(file: PdfFile, filename: string, respond: nat -> Result<Reply>, readLine: LineReader): PdfData
  {
    Assembled(PageTextsOf(|file.pageTexts|, respond, readLine), Kept, file.info, filename)
  }

  /** `_extract_single_pdf`: page by page, the vision text, kept when it is not empty and not an error. */
  method ExtractSinglePdf(file: PdfFile, filename: string, respond: nat -> Result<Reply>, readLine: LineReader)
    returns (d: PdfData)
    ensures d == SinglePdf(file, filename, respond, readLine)
  {
    var totalPages := |file.pageTexts|;
    ghost var texts := PageTextsOf(totalPages, respond, readLine);
    var pages: seq<Page> := [];
    var parts: seq<string> := [];
    for pageNum := 0 to totalPages
      invariant pages == KeptPages(texts, Kept, pageNum)
      invariant parts == PageTexts(pages)
    {
      var text := ExtractPageWithVision(pageNum + 1, respond(pageNum + 1), readLine);
      PageTextAt(totalPages, respond, readLine, pageNum);
      pages, parts := KeepPage(texts, Kept, pageNum, pages, parts, text);
    }
    d := PdfData(pages, totalPages, DocMetaOf(file.info, filename), Join(PAGE_SEPARATOR, parts));
  }

  /**
   * Every kept page is a page of the file, numbered from 1, whose request
   * succeeded with status 200 and none of whose stream lines raised; its
   * text is that page's collected text, stripped and not empty.
   */
  lemma SinglePdfPages(file: PdfFile, filename: string, respond: nat -> Result<Reply>, readLine: LineReader)
    ensures var d, texts := SinglePdf(file, filename, respond, readLine), PageTextsOf(|file.pageTexts|, respond, readLine);
      forall j :: 0 <= j < |d.pages| ==>
        var p := d.pages[j];
        && 1 <= p.pageNum <= |file.pageTexts|
        && respond(p.pageNum).Ok? && respond(p.pageNum).value.status == 200
        && StreamText(StreamLines(respond(p.pageNum).value.body), readLine).Ok?
        && p.text == texts[p.pageNum - 1]
        && p.text != [] && IsStripped(p.text)
  {
    var texts := PageTextsOf(|file.pageTexts|, respond, readLine);
    var d := SinglePdf(file, filename, respond, readLine);
    AssembledFacts(texts, Kept, file.info, filename);
    forall j | 0 <= j < |d.pages|
      ensures respond(d.pages[j].pageNum).Ok? && respond(d.pages[j].pageNum).value.status == 200
      ensures StreamText(StreamLines(respond(d.pages[j].pageNum).value.body), readLine).Ok?
      ensures IsStripped(d.pages[j].text)
    {
      KeptPageSucceeded(|file.pageTexts|, respond, readLine, d.pages[j].pageNum, d.pages[j].text);
    }
  }

  /** A kept page text is the collected reply of a request that succeeded with status 200 and whose stream did not raise, and it is stripped. */
  lemma KeptPageSucceeded(n: nat, respond: nat -> Result<Reply>, readLine: LineReader, p: int, text: string)
    requires 1 <= p <= n && text == PageTextsOf(n, respond, readLine)[p - 1] && Kept(text)
    ensures respond(p).Ok? && respond(p).value.status == 200 && IsStripped(text)
    ensures respond(p).Ok? && StreamText(StreamLines(respond(p).value.body), readLine).Ok?
  {
    PageTextAt(n, respond, readLine, p - 1);
    PageTextFacts(p, respond(p), readLine);
    if respond(p).Ok? && respond(p).value.status == 200 {
      StreamFails(StreamLines(respond(p).value.body), readLine);
    }
  }

  /**
   * Page numbers increase, `total_pages` counts all pages, and every page
   * whose text is neither empty nor an error marker is kept under its number.
   */
  lemma SinglePdfComplete(file: PdfFile, filename: string, respond: nat -> Result<Reply>, readLine: LineReader)
    ensures var d, texts := SinglePdf(file, filename, respond, readLine), PageTextsOf(|file.pageTexts|, respond, readLine);
      && PageNumsIncrease(d.pages)
      && |d.pages| <= d.totalPages == |file.pageTexts|
      && forall i :: 0 <= i < |texts| && Kept(texts[i]) ==> Page(i + 1, texts[i]) in d.pages
  {
    AssembledFacts(PageTextsOf(|file.pageTexts|, respond, readLine), Kept, file.info, filename);
  }

  /** A file whose every page request fails yields no pages and no text. */
  lemma AllPagesFailed(file: PdfFile, filename: string, respond: nat -> Result<Reply>, readLine: LineReader)
    requires forall p :: 1 <= p <= |file.pageTexts| ==> respond(p).Err? || respond(p).value.status != 200
    ensures SinglePdf(file, filename, respond, readLine).pages == []
    ensures SinglePdf(file, filename, respond, readLine).fullText == []
  {
    SinglePdfPages(file, filename, respond, readLine);
  }

  /** `extract_text_with_vision` (and `extract_from_path`): a missing file first, then the open failure unwrapped. */
  function WithVision(path: string, fileExists: bool, open: Result<PdfFile>, respond: nat -> Result<Reply>,
                      readLine: LineReader): Result<PdfData>
  {
    if !fileExists then Err("PDF not found: " + path)
    else if open.Err? then Err(open.error)
    else Ok(SinglePdf(open.value, BaseName(path), respond, readLine))
  }

  /** `extract_text_from_bytes_with_vision` (and `extract`): the open failure unwrapped. */
  function FromBytesWithVision(open: Result<PdfFile>, filename: string, respond: nat -> Result<Reply>,
                               readLine: LineReader): Result<PdfData>
  {
    if open.Err? then Err(open.error) else Ok(SinglePdf(open.value, filename, respond, readLine))
  }

  /**
   * `extract_text_with_vision`: a missing file and a file that does not open
   * fail before any model call; otherwise the vision model is loaded, the
   * pages are read, and the text model is loaded in its place.
   */
  method ExtractTextWithVision(path: string, fileExists: bool, open: Result<PdfFile>, respond: nat -> Result<Reply>,
                               readLine: LineReader) returns (r: Result<PdfData>, ghost requests: seq<ModelRequest>)
    ensures r == WithVision(path, fileExists, open, respond, readLine)
    ensures requests == (if fileExists && open.Ok? then ONE_SHOT_REQUESTS else [])
  {
    if !fileExists {
      return Err("PDF not found: " + path), [];
    }
    if open.Err? {
      return Err(open.error), [];
    }
    var d := ExtractSinglePdf(open.value, BaseName(path), respond, readLine);
    r, requests := Ok(d), ONE_SHOT_REQUESTS;
  }

  /** `extract_text_from_bytes_with_vision`: the same for an upload, titled by its file name. */
  method ExtractTextFromBytesWithVision(open: Result<PdfFile>, filename: string, respond: nat -> Result<Reply>,
                                        readLine: LineReader) returns (r: Result<PdfData>, ghost requests: seq<ModelRequest>)
    ensures r == FromBytesWithVision(open, filename, respond, readLine)
    ensures requests == (if open.Ok? then ONE_SHOT_REQUESTS else [])
  {
    if open.Err? {
      return Err(open.error), [];
    }
    var d := ExtractSinglePdf(open.value, filename, respond, readLine);
    r, requests := Ok(d), ONE_SHOT_REQUESTS;
  }

  // ---------------------------------------------------------------------------
  // the batch extractor's model switching
  // ---------------------------------------------------------------------------

  /** A call of `_ensure_model_loaded` or `_unload_model`. */
  datatype ModelRequest = EnsureLoaded(model: string) | Unload(model: string)

  /** The model calls of a one-shot extraction: the vision model, then the switch back to the text model. */
  const ONE_SHOT_REQUESTS := [EnsureLoaded(VISION_MODEL), Unload(VISION_MODEL), EnsureLoaded(TEXT_MODEL)]

  /** The two flags of the batch extractor and the model calls it has made so far. */
  datatype Switches = Switches(visionLoaded: bool, textLoaded: bool, requests: seq<ModelRequest>)

  /** A new extractor: neither model marked loaded, nothing requested. */
  const FRESH := Switches(false, false, [])

  /** `_ensure_vision_model`. */
  function EnsureVision(s: Switches): Switches
  {
    if !s.visionLoaded then Switches(true, false, s.requests + [EnsureLoaded(VISION_MODEL)]) else s
  }

  /** `prepare_for_chunking`. */
  function PrepareText(s: Switches): Switches
  {
    if s.visionLoaded && !s.textLoaded then Switches(false, true, s.requests + [Unload(VISION_MODEL), EnsureLoaded(TEXT_MODEL)])
    else s
  }

  /** The extractor never believes both models loaded at once. */
  predicate Exclusive(s: Switches)
  {
    !(s.visionLoaded && s.textLoaded)
  }

  /** Both switches keep the flags exclusive; a second call of either changes nothing. */
  lemma SwitchFacts(s: Switches)
    requires Exclusive(s)
    ensures Exclusive(EnsureVision(s)) && Exclusive(PrepareText(s))
    ensures EnsureVision(s).visionLoaded && !EnsureVision(s).textLoaded
    ensures !PrepareText(s).visionLoaded
    ensures EnsureVision(EnsureVision(s)) == EnsureVision(s)
    ensures PrepareText(PrepareText(s)) == PrepareText(s)
  {
  }

  /** The state after `n` extractions from `s`. */
  function Extractions(s: Switches, n: nat): Switches
  {
    if n == 0 then s else EnsureVision(Extractions(s, n - 1))
  }

  /**
   * However many files a batch extracts, the vision model is requested once
   * and the switch to the text model happens once; a batch of no files
   * requests nothing at all.
   */
  lemma {:induction false} BatchSwitchesOnce(n: nat)
    ensures n >= 1 ==> Extractions(FRESH, n) == Switches(true, false, [EnsureLoaded(VISION_MODEL)])
    ensures n >= 1 ==> PrepareText(Extractions(FRESH, n)).requests == [EnsureLoaded(VISION_MODEL), Unload(VISION_MODEL), EnsureLoaded(TEXT_MODEL)]
    ensures n == 0 ==> PrepareText(Extractions(FRESH, n)) == FRESH
  {
    if n > 1 {
      BatchSwitchesOnce(n - 1);
    }
  }

  /** `BatchVisionExtractor`. */
  class BatchVisionExtractor {
    var visionLoaded: bool
    var textLoaded: bool
    /** The model calls made so far, in order. */
    var requests: seq<ModelRequest>

    function State(): Switches
      reads this
    {
      Switches(visionLoaded, textLoaded, requests)
    }

    constructor()
      ensures State() == FRESH
    {
      visionLoaded := false;
      textLoaded := false;
      requests := [];
    }

    /** `_ensure_vision_model`. */
    method EnsureVisionModel()
      modifies this
      ensures State() == EnsureVision(old(State()))
    {
      if !visionLoaded {
        requests := requests + [EnsureLoaded(VISION_MODEL)];
        visionLoaded := true;
        textLoaded := false;
      }
    }

    /** `extract`: the vision model first, then the file. */
    method Extract(open: Result<PdfFile>, filename: string, respond: nat -> Result<Reply>, readLine: LineReader)
      returns (r: Result<PdfData>)
      modifies this
      ensures State() == EnsureVision(old(State()))
      ensures r == FromBytesWithVision(open, filename, respond, readLine)
    {
      EnsureVisionModel();
      if open.Err? {
        return Err(open.error);
      }
      var d := ExtractSinglePdf(open.value, filename, respond, readLine);
      r := Ok(d);
    }

    /** `extract_from_path`: the vision model is loaded even when the file then turns out to be missing. */
    method ExtractFromPath(path: string, fileExists: bool, open: Result<PdfFile>, respond: nat -> Result<Reply>,
                           readLine: LineReader) returns (r: Result<PdfData>)
      modifies this
      ensures State() == EnsureVision(old(State()))
      ensures r == WithVision(path, fileExists, open, respond, readLine)
    {
      EnsureVisionModel();
      if !fileExists {
        return Err("PDF not found: " + path);
      }
      if open.Err? {
        return Err(open.error);
      }
      var d := ExtractSinglePdf(open.value, BaseName(path), respond, readLine);
      r := Ok(d);
    }

    /** `prepare_for_chunking`. */
    method PrepareForChunking()
      modifies this
      ensures State() == PrepareText(old(State()))
    {
      if visionLoaded && !textLoaded {
        requests := requests + [Unload(VISION_MODEL), EnsureLoaded(TEXT_MODEL)];
        visionLoaded := false;
        textLoaded := true;
      }
    }
  }

  // ---------------------------------------------------------------------------
  // batch_extract_pdfs
  // ---------------------------------------------------------------------------

  /** One uploaded file of a batch: what opening it gives, its name, and the vision replies for its pages. */
  datatype VisionItem = VisionItem(open: Result<PdfFile>, filename: string, respond: nat -> Result<Reply>)

  /** The extraction of one item. */
  function ExtractItem(readLine: LineReader): VisionItem -> Result<PdfData>
  {
    (item: VisionItem) => FromBytesWithVision(item.open, item.filename, item.respond, readLine)
  }

  /** The extraction result of every item, in order. */
  function ItemResults(items: seq<VisionItem>, readLine: LineReader): (rs: seq<Result<PdfData>>)
    ensures |rs| == |items|
  {
    MapSeq(items, ExtractItem(readLine))
  }

  /** Entry `i` of the results is the extraction of item `i`. */
  lemma ItemResultAt(items: seq<VisionItem>, readLine: LineReader, i: int)
    requires 0 <= i < |items|
    ensures ItemResults(items, readLine)[i] == FromBytesWithVision(items[i].open, items[i].filename, items[i].respond, readLine)
  {
    MapSeqAt(items, ExtractItem(readLine), i);
  }

  /** `batch_extract_pdfs` as a value: the results in order, or the first failure to open a file (which ends the batch). */
  function BatchSpec(items: seq<VisionItem>, readLine: LineReader): Result<seq<PdfData>>
  {
    AllOk(ItemResults(items, readLine), |items|)
  }

  /** Item `i` is the first whose file does not open. */
  predicate FirstUnopened(items: seq<VisionItem>, i: int)
  {
    0 <= i < |items| && items[i].open.Err? && forall j :: 0 <= j < i ==> items[j].open.Ok?
  }

  /**
   * A batch succeeds exactly when every file opens; its results are then one
   * extraction per file, in order. Otherwise it fails with the message of the
   * first file that does not open.
   */
  lemma BatchSpecFacts(items: seq<VisionItem>, readLine: LineReader)
    ensures var r := BatchSpec(items, readLine);
      && (r.Ok? <==> forall i :: 0 <= i < |items| ==> items[i].open.Ok?)
      && (r.Ok? ==> |r.value| == |items| && forall i :: 0 <= i < |items| ==>
            r.value[i] == SinglePdf(items[i].open.value, items[i].filename, items[i].respond, readLine))
      && (r.Err? ==> exists i :: FirstUnopened(items, i) && r.error == items[i].open.error)
  {
    var rs := ItemResults(items, readLine);
    AllOkFacts(rs, |items|);
    forall i | 0 <= i < |items|
      ensures rs[i].Ok? <==> items[i].open.Ok?
      ensures rs[i].Ok? ==> rs[i].value == SinglePdf(items[i].open.value, items[i].filename, items[i].respond, readLine)
      ensures rs[i].Err? ==> rs[i].error == items[i].open.error
    {
      ItemResultAt(items, readLine, i);
    }
  }

  /**
   * The extraction phase of `batch_extract_pdfs`: every file in order with
   * one extractor; a file that does not open ends the phase with its error.
   */
  method ExtractEach(extractor: BatchVisionExtractor, items: seq<VisionItem>, readLine: LineReader)
    returns (r: Result<seq<PdfData>>)
    requires extractor.State() == FRESH
    modifies extractor
    ensures r == BatchSpec(items, readLine)
    ensures extractor.State() == Extractions(FRESH, if |items| == 0 then 0 else 1)
  {
    ghost var rs := ItemResults(items, readLine);
    var results: seq<PdfData> := [];
    for i := 0 to |items|
      invariant AllOk(rs, i) == Ok(results)
      invariant extractor.State() == Extractions(FRESH, if i == 0 then 0 else 1)
    {
      var result := extractor.Extract(items[i].open, items[i].filename, items[i].respond, readLine);
      ItemResultAt(items, readLine, i);
      AllOkStep(rs, i, results, result);
      if result.Err? {
        return Err(result.error);
      }
      results := results + [result.value];
    }
    r := Ok(results);
  }

  /**
   * `batch_extract_pdfs`: every file extracted in order with the vision model
   * loaded once, then the switch to the text model; a file that does not
   * open ends the batch with its error. `requests` are the model calls made.
   */
  method BatchExtractPdfs(items: seq<VisionItem>, readLine: LineReader)
    returns (r: Result<seq<PdfData>>, ghost requests: seq<ModelRequest>)
    ensures r == BatchSpec(items, readLine)
    ensures r.Ok? && |items| > 0 ==> requests == [EnsureLoaded(VISION_MODEL), Unload(VISION_MODEL), EnsureLoaded(TEXT_MODEL)]
    ensures r.Ok? && |items| == 0 ==> requests == []
    ensures r.Err? ==> requests == [EnsureLoaded(VISION_MODEL)]
  {
    var extractor := new BatchVisionExtractor();
    r := ExtractEach(extractor, items, readLine);
    BatchSwitchesOnce(if |items| == 0 then 0 else 1);
    if r.Err? {
      return r, extractor.requests;
    }
    extractor.PrepareForChunking();
    requests := extractor.requests;
  }
}
