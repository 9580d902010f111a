/**
 * The text-layer extractor: every page's text stripped, the non-empty ones
 * kept under their 1-based page number, the document metadata, and the
 * kept texts joined with blank lines. Whether the file exists and what
 * PyMuPDF reads from it (or the message of the exception it raises) are
 * parameters.
 */
module PdfText {
  import opened Base
  import opened Text
  import opened Docs

  /** The prefix of the debug file the text extractor writes. */
  const DEBUG_PREFIX := "extracted_"

  /** The page filter of the text extractor: a stripped text is kept when it is not empty. */
  predicate Kept(text: string)
  {
    text != []
  }

  /** The extraction result of an opened file as a value. */
  function FromFile(file: PdfFile, fallbackTitle: string): PdfData
  {
    Assembled(StripAll(file.pageTexts), Kept, file.info, fallbackTitle)
  }

  /** `extract_text_from_pdf` as a value. */
  function FromPath(path: string, fileExists: bool, open: Result<PdfFile>): Result<PdfData>
  {
    if !fileExists then Err("PDF file not found: " + path)
    else if open.Err? then Err("Error extracting text from PDF: " + open.error)
    else Ok(FromFile(open.value, ""))
  }

  /** `extract_text_from_bytes` as a value. */
  function FromBytes(open: Result<PdfFile>, filename: string): Result<PdfData>
  {
    if open.Err? then Err("Error extracting text from PDF bytes: " + open.error)
    else Ok(FromFile(open.value, filename))
  }

  /** The page loop: strip every page, keep the non-empty ones, join their texts. */
  method CollectPages(pageTexts: seq<string>) returns (pages: seq<Page>, fullText: string)
    ensures pages == KeptPages(StripAll(pageTexts), Kept, |pageTexts|)
    ensures fullText == Join(PAGE_SEPARATOR, PageTexts(pages))
  {
    ghost var texts := StripAll(pageTexts);
    pages := [];
    var parts: seq<string> := [];
    for pageNum := 0 to |pageTexts|
      invariant pages == KeptPages(texts, Kept, pageNum)
      invariant parts == PageTexts(pages)
    {
      var text := Strip(pageTexts[pageNum]);
      pages, parts := KeepPage(texts, Kept, pageNum, pages, parts, text);
    }
    fullText := Join(PAGE_SEPARATOR, parts);
  }

  /**
   * `extract_text_from_pdf`: a missing file is reported before anything
   * else; a failure to read it is wrapped; otherwise the assembled result
   * (the title is the file's own, empty when it has none).
   */
  method ExtractTextFromPdf(path: string, fileExists: bool, open: Result<PdfFile>) returns (r: Result<PdfData>)
    ensures !fileExists ==> r == Err("PDF file not found: " + path)
    ensures fileExists && open.Err? ==> r == Err("Error extracting text from PDF: " + open.error)
    ensures fileExists && open.Ok? ==> r == Ok(FromFile(open.value, ""))
    ensures r == FromPath(path, fileExists, open)
  {
    if !fileExists {
      return Err("PDF file not found: " + path);
    }
    if open.Err? {
      return Err("Error extracting text from PDF: " + open.error);
    }
    var file := open.value;
    var pages, fullText := CollectPages(file.pageTexts);
    r := Ok(PdfData(pages, |file.pageTexts|, DocMetaOf(file.info, ""), fullText));
  }

  /**
   * `extract_text_from_bytes`: a failure to read the upload is wrapped;
   * otherwise the assembled result, titled by the file name when the
   * document has no title of its own.
   */
  method ExtractTextFromBytes(open: Result<PdfFile>, filename: string) returns (r: Result<PdfData>)
    ensures open.Err? ==> r == Err("Error extracting text from PDF bytes: " + open.error)
    ensures open.Ok? ==> r == Ok(FromFile(open.value, filename))
    ensures r == FromBytes(open, filename)
  {
    if open.Err? {
      return Err("Error extracting text from PDF bytes: " + open.error);
    }
    var file := open.value;
    var pages, fullText := CollectPages(file.pageTexts);
    r := Ok(PdfData(pages, |file.pageTexts|, DocMetaOf(file.info, filename), fullText));
  }

  // ---------------------------------------------------------------------------
  // properties of an extraction result
  // ---------------------------------------------------------------------------

  /**
   * Every kept page is a page of the file, numbered from 1, holding that
   * page's text stripped, which is not empty.
   */
  lemma FromFilePages(file: PdfFile, fallbackTitle: string)
    ensures var d, n := FromFile(file, fallbackTitle), |file.pageTexts|;
      forall j :: 0 <= j < |d.pages| ==>
        1 <= d.pages[j].pageNum <= n && d.pages[j].text == Strip(file.pageTexts[d.pages[j].pageNum - 1])
        && d.pages[j].text != [] && IsStripped(d.pages[j].text)
  {
    var texts := StripAll(file.pageTexts);
    var ps := KeptPages(texts, Kept, |texts|);
    KeptPagesSound(texts, Kept, |texts|);
    forall j | 0 <= j < |ps|
      ensures 1 <= ps[j].pageNum <= |texts| && ps[j].text == Strip(file.pageTexts[ps[j].pageNum - 1])
      ensures ps[j].text != [] && IsStripped(ps[j].text)
    {
      StrippedPage(file.pageTexts, ps[j].pageNum - 1);
    }
  }

  /** Page numbers increase, at most every page is kept, and `total_pages` counts all pages, kept or not. */
  lemma FromFileOrder(file: PdfFile, fallbackTitle: string)
    ensures var d := FromFile(file, fallbackTitle);
      && PageNumsIncrease(d.pages)
      && |d.pages| <= d.totalPages == |file.pageTexts|
  {
    var texts := StripAll(file.pageTexts);
    KeptPagesSound(texts, Kept, |texts|);
  }

  /** Page `k` of the stripped texts is page `k` of the file stripped, and has no whitespace at either end. */
  lemma StrippedPage(pageTexts: seq<string>, k: int)
    requires 0 <= k < |pageTexts|
    ensures StripAll(pageTexts)[k] == Strip(pageTexts[k]) && IsStripped(StripAll(pageTexts)[k])
  {
    StripFacts(pageTexts[k]);
  }

  /** Every page whose stripped text is not empty is kept. */
  lemma FromFileComplete(file: PdfFile, fallbackTitle: string)
    ensures forall i :: 0 <= i < |file.pageTexts| && Strip(file.pageTexts[i]) != [] ==>
      Page(i + 1, Strip(file.pageTexts[i])) in FromFile(file, fallbackTitle).pages
  {
    var texts := StripAll(file.pageTexts);
    KeptPagesComplete(texts, Kept, |texts|);
  }

  /** The full text is empty exactly when no page was kept; otherwise it is already stripped. */
  lemma FromFileFullText(file: PdfFile, fallbackTitle: string)
    ensures var d := FromFile(file, fallbackTitle);
      && (d.fullText == [] <==> d.pages == [])
      && IsStripped(d.fullText)
  {
    var d := FromFile(file, fallbackTitle);
    FromFilePages(file, fallbackTitle);
    if d.pages != [] {
      JoinClean(PAGE_SEPARATOR, PageTexts(d.pages));
    }
  }

  /** The title is the document's own when it has one, and the fallback otherwise. */
  lemma FromFileTitle(file: PdfFile, fallbackTitle: string)
    ensures "title" in file.info && file.info["title"] != [] ==> FromFile(file, fallbackTitle).metadata.title == file.info["title"]
    ensures !("title" in file.info && file.info["title"] != []) ==> FromFile(file, fallbackTitle).metadata.title == fallbackTitle
  {
  }

  /** A file of blank pages yields no pages and no text, but still counts its pages. */
  lemma BlankFile(file: PdfFile, fallbackTitle: string)
    requires forall i :: 0 <= i < |file.pageTexts| ==> IsBlank(file.pageTexts[i])
    ensures FromFile(file, fallbackTitle).pages == []
    ensures FromFile(file, fallbackTitle).fullText == []
    ensures FromFile(file, fallbackTitle).totalPages == |file.pageTexts|
  {
    var texts := StripAll(file.pageTexts);
    KeptPagesSound(texts, Kept, |texts|);
    var ps := KeptPages(texts, Kept, |texts|);
    if ps != [] {
      var k := ps[0].pageNum - 1;
      StripFacts(file.pageTexts[k]);
    }
  }
}
