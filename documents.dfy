/**
 * The values that flow between the extractors, the chunkers and the vector
 * store: metadata dictionaries, chunks, pages and extracted documents.
 */
module Docs {
  import opened Base
  import opened Text

  /** A metadata value: the service only ever stores strings, integers and `None`. */
  datatype Value = Str(s: string) | Int(i: int) | Null

  /** A flat metadata dictionary. */
  type Metadata = map<string, Value>

  /** `{"text": ..., "metadata": {...}}`. */
  datatype Chunk = Chunk(text: string, metadata: Metadata)

  /**
   * `{"page_num": ..., "text": ...}`. A missing or `None` page number is
   * written 0, and a missing or `None` text is written "" (both are falsy in
   * Python, which is all the code looks at).
   */
  datatype Page = Page(pageNum: int, text: string)

  /** The metadata block of an extraction result (`title`, `author`, ...). */
  datatype DocMeta = DocMeta(title: string, author: string, subject: string, creator: string, creationDate: string)

  /** What an extractor returns: kept pages, the page count of the file, metadata and the joined text. */
  datatype PdfData = PdfData(pages: seq<Page>, totalPages: int, metadata: DocMeta, fullText: string)

  /** `m.get(k, d)`. */
  function GetOr(m: Metadata, k: string, d: Value): (v: Value)
    ensures k in m ==> v == m[k]
    ensures k !in m ==> v == d
  {
    if k in m then m[k] else d
  }

  /**
   * `m.get(k, 0) or 0` for an entry that holds an integer offset: a missing
   * key, `None` or 0 give 0 (any non-integer value is read as 0 too).
   */
  function IntOrZero(m: Metadata, k: string): (n: int)
    ensures k in m && m[k].Int? ==> n == m[k].i
    ensures !(k in m && m[k].Int?) ==> n == 0
  {
    if k in m && m[k].Int? then m[k].i else 0
  }

  /** The dictionary holds `v` under `k`. */
  predicate HasEntry(m: Metadata, k: string, v: Value)
  {
    k in m && m[k] == v
  }

  /** The texts of a list of chunks, in order. */
  function Texts(chunks: seq<Chunk>): (ts: seq<string>)
    ensures |ts| == |chunks|
    ensures forall i :: 0 <= i < |chunks| ==> ts[i] == chunks[i].text
  {
    seq(|chunks|, i requires 0 <= i < |chunks| => chunks[i].text)
  }

  /** `Texts` distributes over concatenation. */
  lemma TextsAppend(a: seq<Chunk>, b: seq<Chunk>)
    ensures Texts(a + b) == Texts(a) + Texts(b)
  {
  }

  /** The texts of a list of pages, in order. */
  function PageTexts(pages: seq<Page>): (ts: seq<string>)
    ensures |ts| == |pages|
    ensures forall i :: 0 <= i < |pages| ==> ts[i] == pages[i].text
  {
    seq(|pages|, i requires 0 <= i < |pages| => pages[i].text)
  }

  /** Every chunk text is non-empty and has no whitespace at either end. */
  predicate CleanTexts(chunks: seq<Chunk>)
  {
    forall i :: 0 <= i < |chunks| ==> chunks[i].text != [] && IsStripped(chunks[i].text)
  }

  // ---------------------------------------------------------------------------
  // dropping empty chunks
  // ---------------------------------------------------------------------------

  /** The candidates among the first `k` whose text is not empty, in order. */
  function NonEmpty(cands: seq<Chunk>, k: int): seq<Chunk>
    requires 0 <= k <= |cands|
  {
    if k == 0 then [] else NonEmpty(cands, k - 1) + (if cands[k - 1].text != [] then [cands[k - 1]] else [])
  }

  /** The positions of the candidates `NonEmpty` keeps. */
  function Kept(cands: seq<Chunk>, k: int): seq<int>
    requires 0 <= k <= |cands|
  {
    if k == 0 then [] else Kept(cands, k - 1) + (if cands[k - 1].text != [] then [k - 1] else [])
  }

  /** `NonEmpty` keeps exactly the candidates at the positions `Kept` lists, and their texts are not empty. */
  lemma {:induction false} KeptShape(cands: seq<Chunk>, k: int)
    requires 0 <= k <= |cands|
    ensures |Kept(cands, k)| == |NonEmpty(cands, k)|
    ensures forall j :: 0 <= j < |Kept(cands, k)| ==>
      0 <= Kept(cands, k)[j] < k && NonEmpty(cands, k)[j] == cands[Kept(cands, k)[j]] && cands[Kept(cands, k)[j]].text != []
  {
    if k > 0 {
      KeptShape(cands, k - 1);
    }
  }

  /** The kept positions increase. */
  lemma {:induction false} KeptIncreasing(cands: seq<Chunk>, k: int)
    requires 0 <= k <= |cands|
    ensures var ix := Kept(cands, k); forall a, b :: 0 <= a < b < |ix| ==> ix[a] < ix[b]
  {
    if k > 0 {
      KeptIncreasing(cands, k - 1);
      KeptShape(cands, k - 1);
    }
  }

  /** Every candidate with a non-empty text is kept. */
  lemma {:induction false} KeptComplete(cands: seq<Chunk>, k: int)
    requires 0 <= k <= |cands|
    ensures forall i :: 0 <= i < k && cands[i].text != [] ==> i in Kept(cands, k)
  {
    if k > 0 {
      KeptComplete(cands, k - 1);
    }
  }

  /**
   * `NonEmpty` keeps, in increasing order of position, exactly the
   * candidates with a non-empty text.
   */
  lemma KeptFacts(cands: seq<Chunk>, k: int)
    requires 0 <= k <= |cands|
    ensures var r, ix := NonEmpty(cands, k), Kept(cands, k);
      && |ix| == |r|
      && (forall j :: 0 <= j < |ix| ==> 0 <= ix[j] < k && r[j] == cands[ix[j]] && cands[ix[j]].text != [])
      && (forall a, b :: 0 <= a < b < |ix| ==> ix[a] < ix[b])
      && (forall i :: 0 <= i < k && cands[i].text != [] ==> i in ix)
  {
    KeptShape(cands, k);
    KeptIncreasing(cands, k);
    KeptComplete(cands, k);
  }

  /** One step of a filtering loop: the chunks so far, plus the next candidate when its text is not empty. */
  lemma NonEmptyStep(cands: seq<Chunk>, i: int, chunks: seq<Chunk>, c: Chunk)
    requires 0 <= i < |cands| && chunks == NonEmpty(cands, i) && c == cands[i]
    ensures c.text != [] ==> NonEmpty(cands, i + 1) == chunks + [c]
    ensures c.text == [] ==> NonEmpty(cands, i + 1) == chunks
  {
  }

  // ---------------------------------------------------------------------------
  // global index
  // ---------------------------------------------------------------------------

  /** `global_chunk_index` of chunk `i`. */
  function WithGlobalIndex(c: Chunk, i: int): Chunk
  {
    Chunk(c.text, c.metadata["global_chunk_index" := Int(i)])
  }

  /** The global indexing loop of both chunkers' `chunk_pages` as a value. */
  function GlobalIndexAll(chunks: seq<Chunk>): (r: seq<Chunk>)
    ensures |r| == |chunks|
    ensures forall i :: 0 <= i < |chunks| ==> r[i] == WithGlobalIndex(chunks[i], i)
  {
    seq(|chunks|, i requires 0 <= i < |chunks| => WithGlobalIndex(chunks[i], i))
  }

  /** The global indexing loop of both chunkers' `chunk_pages`. */
  method AddGlobalIndex(chunks: seq<Chunk>) returns (r: seq<Chunk>)
    ensures r == GlobalIndexAll(chunks)
  {
    ghost var target := GlobalIndexAll(chunks);
    r := [];
    for i := 0 to |chunks|
      invariant r == target[..i]
    {
      PrefixSnoc(target, i);
      r := r + [WithGlobalIndex(chunks[i], i)];
    }
    assert target[..|chunks|] == target;
  }

  // ---------------------------------------------------------------------------
  // page assembly, shared by the text and the vision extractor
  // ---------------------------------------------------------------------------

  /** An opened PDF as PyMuPDF presents it: the text layer of every page and the `doc.metadata` dictionary. */
  datatype PdfFile = PdfFile(pageTexts: seq<string>, info: map<string, string>)

  /** What both extractors put between page texts in `full_text`. */
  const PAGE_SEPARATOR := "\n\n"

  /** The pages among the first `k` page texts that `keep` accepts, each numbered by its position counting from 1. */
  function KeptPages(texts: seq<string>, keep: string -> bool, k: int): seq<Page>
    requires 0 <= k <= |texts|
  {
    if k == 0 then []
    else KeptPages(texts, keep, k - 1) + (if keep(texts[k - 1]) then [Page(k, texts[k - 1])] else [])
  }

  /** The texts of pages 1 to `n`, as `textOf` gives them for a page number. */
  function Numbered(n: nat, textOf: nat -> string): (ts: seq<string>)
    ensures |ts| == n
  {
    if n == 0 then [] else Numbered(n - 1, textOf) + [textOf(n)]
  }

  /** Entry `i` is the text of page `i + 1`. */
  lemma {:induction false} NumberedAt(n: nat, textOf: nat -> string, i: int)
    requires 0 <= i < n
    ensures Numbered(n, textOf)[i] == textOf(i + 1)
  {
    if i < n - 1 {
      NumberedAt(n - 1, textOf, i);
    }
  }

  /** Page numbers strictly increase along the list. */
  predicate PageNumsIncrease(pages: seq<Page>)
  {
    forall i, j :: 0 <= i < j < |pages| ==> pages[i].pageNum < pages[j].pageNum
  }

  /**
   * Every kept page is one of the first `k` pages, numbered from 1, holding
   * that page's text, which `keep` accepts; the numbers increase.
   */
  lemma {:induction false} KeptPagesSound(texts: seq<string>, keep: string -> bool, k: int)
    requires 0 <= k <= |texts|
    ensures var ps := KeptPages(texts, keep, k);
      && |ps| <= k
      && (forall j :: 0 <= j < |ps| ==> 1 <= ps[j].pageNum <= k && ps[j].text == texts[ps[j].pageNum - 1] && keep(ps[j].text))
      && PageNumsIncrease(ps)
  {
    if k > 0 {
      KeptPagesSound(texts, keep, k - 1);
    }
  }

  /** Every page text that `keep` accepts is kept, under its own number. */
  lemma {:induction false} KeptPagesComplete(texts: seq<string>, keep: string -> bool, k: int)
    requires 0 <= k <= |texts|
    ensures forall i :: 0 <= i < k && keep(texts[i]) ==> Page(i + 1, texts[i]) in KeptPages(texts, keep, k)
  {
    if k > 0 {
      KeptPagesComplete(texts, keep, k - 1);
    }
  }

  /** `metadata.get(key, "")`. */
  function InfoOr(info: map<string, string>, key: string): string
  {
    if key in info then info[key] else ""
  }

  /**
   * The `metadata` block of an extraction result. An empty or missing title
   * is replaced by `fallbackTitle` (`title or filename`); the path variant
   * of the text extractor passes "", which leaves the title as it is.
   */
  function DocMetaOf(info: map<string, string>, fallbackTitle: string): DocMeta
  {
    var title := InfoOr(info, "title");
    DocMeta(if title != [] then title else fallbackTitle,
            InfoOr(info, "author"), InfoOr(info, "subject"), InfoOr(info, "creator"), InfoOr(info, "creationDate"))
  }

  /**
   * An extraction result: the kept pages among all the page texts, the
   * number of pages of the file, the metadata and the kept texts joined
   * with blank lines.
   */
  function Assembled(texts: seq<string>, keep: string -> bool, info: map<string, string>, fallbackTitle: string): PdfData
  {
    var pages := KeptPages(texts, keep, |texts|);
    PdfData(pages, |texts|, DocMetaOf(info, fallbackTitle), Join(PAGE_SEPARATOR, PageTexts(pages)))
  }

  /**
   * The pages of an extraction result: each is one of the page texts,
   * numbered from 1, that `keep` accepts; the numbers increase; every
   * accepted page text is there; `total_pages` counts all pages.
   */
  lemma AssembledFacts(texts: seq<string>, keep: string -> bool, info: map<string, string>, fallbackTitle: string)
    ensures var d := Assembled(texts, keep, info, fallbackTitle);
      && d.totalPages == |texts| && |d.pages| <= |texts|
      && (forall j :: 0 <= j < |d.pages| ==>
            1 <= d.pages[j].pageNum <= |texts| && d.pages[j].text == texts[d.pages[j].pageNum - 1] && keep(d.pages[j].text))
      && PageNumsIncrease(d.pages)
      && (forall i :: 0 <= i < |texts| && keep(texts[i]) ==> Page(i + 1, texts[i]) in d.pages)
  {
    KeptPagesSound(texts, keep, |texts|);
    KeptPagesComplete(texts, keep, |texts|);
  }

  /** One step of a page loop: page `i` joins the pages and texts so far when `keep` accepts its text. */
  method KeepPage(ghost texts: seq<string>, keep: string -> bool, i: int, pages: seq<Page>, parts: seq<string>, text: string)
    returns (pages': seq<Page>, parts': seq<string>)
    requires 0 <= i < |texts| && text == texts[i]
    requires pages == KeptPages(texts, keep, i) && parts == PageTexts(pages)
    ensures pages' == KeptPages(texts, keep, i + 1) && parts' == PageTexts(pages')
  {
    pages', parts' := pages, parts;
    if keep(text) {
      pages' := pages + [Page(i + 1, text)];
      parts' := parts + [text];
    }
  }

  // ---------------------------------------------------------------------------
  // debug file names
  // ---------------------------------------------------------------------------

  /** A character `safe_name` keeps: an ASCII letter or digit, `.`, `_` or `-`. */
  predicate SafeChar(c: char)
  {
    IsAlnum(c) || c == '.' || c == '_' || c == '-'
  }

  /** `safe_name`: every character that is not safe replaced by `_`. */
  function SafeName(filename: string): (r: string)
    ensures |r| == |filename|
  {
    seq(|filename|, i requires 0 <= i < |filename| => if SafeChar(filename[i]) then filename[i] else '_')
  }

  /** A safe name holds only safe characters, keeps every safe character in place, and has no path separator. */
  lemma SafeNameFacts(filename: string)
    ensures forall i :: 0 <= i < |filename| ==> SafeChar(SafeName(filename)[i])
    ensures forall i :: 0 <= i < |filename| && SafeChar(filename[i]) ==> SafeName(filename)[i] == filename[i]
    ensures '/' !in SafeName(filename)
  {
  }

  /** Making a name safe twice changes nothing more; a name that is already safe is kept as it is. */
  lemma SafeNameIdempotent(filename: string)
    ensures SafeName(SafeName(filename)) == SafeName(filename)
    ensures (forall i :: 0 <= i < |filename| ==> SafeChar(filename[i])) ==> SafeName(filename) == filename
  {
  }

  /** The debug file name `<prefix><safe_name>_<timestamp>.txt`. */
  function DebugFileName(prefix: string, filename: string, timestamp: string): string
  {
    prefix + SafeName(filename) + "_" + timestamp + ".txt"
  }

  /** Whatever the uploaded file is called, its debug file lands directly in the cache directory. */
  lemma DebugFileNameStaysInCache(prefix: string, filename: string, timestamp: string)
    requires '/' !in prefix && '/' !in timestamp
    ensures '/' !in DebugFileName(prefix, filename, timestamp)
  {
    SafeNameFacts(filename);
  }
}
