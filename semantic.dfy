/**
 * `SemanticDocumentChunker`: what the service does around LangChain's
 * embedding-based splitter. The splitters are parameters: `semantic` is the
 * semantic splitter (`None` when it could not be initialised; its result
 * `None` when its `split_text` raised) and `fallback` the recursive
 * character splitter.
 */
module Semantic {
  import opened Base
  import opened Text
  import opened Docs

  /** A raw piece longer than this is split again with the fallback splitter. */
  const MAX_PIECE_LENGTH := 2000

  /** The keys `chunk_text` adds to the caller's metadata. */
  const INDEX_KEYS: set<string> := {"chunk_index", "chunk_total", "char_count"}

  // ---------------------------------------------------------------------------
  // secondary splitting
  // ---------------------------------------------------------------------------

  /** What one raw piece becomes: its fallback pieces when it is too long, otherwise itself. */
  function PiecesOf(piece: string, fallback: string -> seq<string>): seq<string>
  {
    if |piece| > MAX_PIECE_LENGTH then fallback(piece) else [piece]
  }

  /** The processed list after the first `k` raw pieces. */
  function Expand(raw: seq<string>, fallback: string -> seq<string>, k: int): seq<string>
    requires 0 <= k <= |raw|
  {
    if k == 0 then [] else Expand(raw, fallback, k - 1) + PiecesOf(raw[k - 1], fallback)
  }

  /** The secondary splitting loop of `chunk_text`. */
  method ExpandPieces(raw: seq<string>, fallback: string -> seq<string>) returns (processed: seq<string>)
    ensures processed == Expand(raw, fallback, |raw|)
  {
    processed := [];
    for i := 0 to |raw|
      invariant processed == Expand(raw, fallback, i)
    {
      var chunk := raw[i];
      if |chunk| > MAX_PIECE_LENGTH {
        var subChunks := fallback(chunk);
        processed := processed + subChunks;
      } else {
        processed := processed + [chunk];
      }
    }
  }

  /** When no raw piece is too long, the processed list is the raw list. */
  lemma {:induction false} ExpandShort(raw: seq<string>, fallback: string -> seq<string>, k: int)
    requires 0 <= k <= |raw|
    requires forall i :: 0 <= i < k ==> |raw[i]| <= MAX_PIECE_LENGTH
    ensures Expand(raw, fallback, k) == raw[..k]
  {
    if k > 0 {
      ExpandShort(raw, fallback, k - 1);
      assert raw[..k] == raw[..k - 1] + [raw[k - 1]];
    }
  }

  /**
   * The processed list of the first `j` raw pieces is a prefix of that of
   * the first `k`: every raw piece is replaced where it stands, and the order
   * is kept.
   */
  lemma {:induction false} ExpandPrefix(raw: seq<string>, fallback: string -> seq<string>, j: int, k: int)
    requires 0 <= j <= k <= |raw|
    ensures Expand(raw, fallback, j) <= Expand(raw, fallback, k)
  {
    if j == k {
    } else {
      ExpandPrefix(raw, fallback, j, k - 1);
      PrefixExtends(Expand(raw, fallback, j), Expand(raw, fallback, k - 1), PiecesOf(raw[k - 1], fallback));
    }
  }

  // ---------------------------------------------------------------------------
  // chunk objects
  // ---------------------------------------------------------------------------

  /** Processed piece `i` out of `total` as a chunk: its stripped text, the base metadata and the index keys. */
  function IndexChunk(piece: string, i: int, total: int, base: Metadata): Chunk
  {
    var t := Strip(piece);
    Chunk(t, base + map["chunk_index" := Int(i), "chunk_total" := Int(total), "char_count" := Int(|t|)])
  }

  /** Every processed piece as a chunk, blank ones included. */
  function IndexCandidates(pieces: seq<string>, base: Metadata): (cands: seq<Chunk>)
    ensures |cands| == |pieces|
    ensures forall i :: 0 <= i < |pieces| ==> cands[i] == IndexChunk(pieces[i], i, |pieces|, base)
  {
    seq(|pieces|, i requires 0 <= i < |pieces| => IndexChunk(pieces[i], i, |pieces|, base))
  }

  /** The chunk objects of `chunk_text`: the processed pieces stripped, the empty ones left out. */
  function IndexedChunks(pieces: seq<string>, base: Metadata): seq<Chunk>
  {
    NonEmpty(IndexCandidates(pieces, base), |pieces|)
  }

  /** The loop that builds the chunk objects. */
  method BuildIndexed(pieces: seq<string>, base: Metadata) returns (chunks: seq<Chunk>)
    ensures chunks == IndexedChunks(pieces, base)
  {
    chunks := [];
    for i := 0 to |pieces|
      invariant chunks == NonEmpty(IndexCandidates(pieces, base), i)
    {
      var chunkText := Strip(pieces[i]);
      IndexedStep(pieces, base, i, chunks, chunkText);
      if chunkText != [] {
        chunks := chunks + [Chunk(chunkText, base + map["chunk_index" := Int(i), "chunk_total" := Int(|pieces|), "char_count" := Int(|chunkText|)])];
      }
    }
  }

  /** One step of the loop that builds the chunk objects. */
  lemma IndexedStep(pieces: seq<string>, base: Metadata, i: int, chunks: seq<Chunk>, t: string)
    requires 0 <= i < |pieces| && chunks == NonEmpty(IndexCandidates(pieces, base), i) && t == Strip(pieces[i])
    ensures t != [] ==>
      NonEmpty(IndexCandidates(pieces, base), i + 1) ==
        chunks + [Chunk(t, base + map["chunk_index" := Int(i), "chunk_total" := Int(|pieces|), "char_count" := Int(|t|)])]
    ensures t == [] ==> NonEmpty(IndexCandidates(pieces, base), i + 1) == chunks
  {
    var cands := IndexCandidates(pieces, base);
    assert cands[i] == IndexChunk(pieces[i], i, |pieces|, base);
    NonEmptyStep(cands, i, chunks, cands[i]);
  }

  /**
   * Chunk `j` is the stripped, non-empty processed piece `ix[j]`, with
   * `chunk_index = ix[j]`, `chunk_total` the number of processed pieces and
   * `char_count` its length.
   */
  lemma IndexedAt(pieces: seq<string>, base: Metadata, j: int)
    requires 0 <= j < |IndexedChunks(pieces, base)|
    ensures var r, ix := IndexedChunks(pieces, base), Kept(IndexCandidates(pieces, base), |pieces|);
      && |ix| == |r| && 0 <= ix[j] < |pieces|
      && r[j].text == Strip(pieces[ix[j]]) && r[j].text != []
      && HasEntry(r[j].metadata, "chunk_index", Int(ix[j]))
      && HasEntry(r[j].metadata, "chunk_total", Int(|pieces|))
      && HasEntry(r[j].metadata, "char_count", Int(|r[j].text|))
  {
    var cands := IndexCandidates(pieces, base);
    KeptShape(cands, |pieces|);
    var ix := Kept(cands, |pieces|);
    assert IndexedChunks(pieces, base)[j] == IndexChunk(pieces[ix[j]], ix[j], |pieces|, base);
  }

  /** The positions of the chunks increase (skipping the blank pieces), and every non-blank piece is among them. */
  lemma IndexedPositions(pieces: seq<string>, base: Metadata)
    ensures var ix := Kept(IndexCandidates(pieces, base), |pieces|);
      && (forall a, b :: 0 <= a < b < |ix| ==> ix[a] < ix[b])
      && (forall i :: 0 <= i < |pieces| && Strip(pieces[i]) != [] ==> i in ix)
  {
    var cands := IndexCandidates(pieces, base);
    KeptIncreasing(cands, |pieces|);
    KeptComplete(cands, |pieces|);
  }

  /** The chunk texts have no whitespace at either end. */
  lemma IndexedClean(pieces: seq<string>, base: Metadata)
    ensures CleanTexts(IndexedChunks(pieces, base))
  {
    var cands := IndexCandidates(pieces, base);
    var r, ix := IndexedChunks(pieces, base), Kept(cands, |pieces|);
    KeptShape(cands, |pieces|);
    forall j | 0 <= j < |r|
      ensures r[j].text != [] && IsStripped(r[j].text)
    {
      StripFacts(pieces[ix[j]]);
    }
  }

  /** Every chunk carries the caller's metadata unchanged, plus the three index keys. */
  lemma IndexedKeys(pieces: seq<string>, base: Metadata)
    ensures forall j :: 0 <= j < |IndexedChunks(pieces, base)| ==>
      && IndexedChunks(pieces, base)[j].metadata.Keys == base.Keys + INDEX_KEYS
      && forall k :: k in base && k !in INDEX_KEYS ==> IndexedChunks(pieces, base)[j].metadata[k] == base[k]
  {
    var cands := IndexCandidates(pieces, base);
    var r, ix := IndexedChunks(pieces, base), Kept(cands, |pieces|);
    KeptShape(cands, |pieces|);
    forall j | 0 <= j < |r|
      ensures r[j].metadata.Keys == base.Keys + INDEX_KEYS
      ensures forall k :: k in base && k !in INDEX_KEYS ==> r[j].metadata[k] == base[k]
    {
      assert r[j] == IndexChunk(pieces[ix[j]], ix[j], |pieces|, base);
    }
  }

  // ---------------------------------------------------------------------------
  // chunk_text
  // ---------------------------------------------------------------------------

  /** The metadata of the chunks made after the semantic path raised. */
  function FallbackBase(metadata: Metadata): Metadata
  {
    metadata["chunking_method" := Str("fallback")]
  }

  /**
   * `chunk_text` as a value: nothing for a blank text; otherwise the raw
   * pieces of the semantic splitter (or of the fallback splitter when there
   * is none), oversized ones split again, as chunk objects; when the
   * semantic splitter raised, the fallback splitter's pieces as chunk
   * objects marked "fallback".
   */
  function ChunkTextSpec(text: string, metadata: Metadata, semantic: Option<string -> Option<seq<string>>>,
                         fallback: string -> seq<string>): seq<Chunk>
  {
    if IsBlank(text) then []
    else
      var raw := if semantic.Some? then semantic.value(text) else Some(fallback(text));
      if raw.Some? then IndexedChunks(Expand(raw.value, fallback, |raw.value|), metadata)
      else IndexedChunks(fallback(text), FallbackBase(metadata))
  }

  /** `chunk_text`. */
  method ChunkText(text: string, metadata: Metadata, semantic: Option<string -> Option<seq<string>>>,
                   fallback: string -> seq<string>) returns (chunks: seq<Chunk>)
    ensures chunks == ChunkTextSpec(text, metadata, semantic, fallback)
  {
    StripFacts(text);
    if text == [] || Strip(text) == [] {
      return [];
    }
    var raw: Option<seq<string>>;
    if semantic.Some? {
      raw := semantic.value(text);
    } else {
      raw := Some(fallback(text));
    }
    if raw.Some? {
      var processed := ExpandPieces(raw.value, fallback);
      chunks := BuildIndexed(processed, metadata);
    } else {
      chunks := BuildIndexed(fallback(text), FallbackBase(metadata));
    }
  }

  /**
   * A blank text gives no chunk; otherwise every chunk is non-empty and
   * stripped and carries the caller's metadata plus the index keys (and the
   * "fallback" method when the semantic splitter raised).
   */
  lemma ChunkTextFacts(text: string, metadata: Metadata, semantic: Option<string -> Option<seq<string>>>,
                       fallback: string -> seq<string>)
    ensures IsBlank(text) ==> ChunkTextSpec(text, metadata, semantic, fallback) == []
    ensures CleanTexts(ChunkTextSpec(text, metadata, semantic, fallback))
    ensures forall j :: 0 <= j < |ChunkTextSpec(text, metadata, semantic, fallback)| ==>
      && metadata.Keys + INDEX_KEYS <= ChunkTextSpec(text, metadata, semantic, fallback)[j].metadata.Keys
      && ChunkTextSpec(text, metadata, semantic, fallback)[j].metadata.Keys <= metadata.Keys + INDEX_KEYS + {"chunking_method"}
      && forall k :: k in metadata && k !in INDEX_KEYS && k != "chunking_method" ==>
           ChunkTextSpec(text, metadata, semantic, fallback)[j].metadata[k] == metadata[k]
  {
    if !IsBlank(text) {
      var raw := if semantic.Some? then semantic.value(text) else Some(fallback(text));
      var pieces := if raw.Some? then Expand(raw.value, fallback, |raw.value|) else fallback(text);
      var base := if raw.Some? then metadata else FallbackBase(metadata);
      IndexedClean(pieces, base);
      IndexedKeys(pieces, base);
    }
  }

  /**
   * With a semantic splitter that does not raise and returns no piece over
   * 2000 characters, the chunks are its pieces stripped, blank ones left
   * out, indexed by their position among all its pieces.
   */
  lemma ChunkTextShortPieces(text: string, metadata: Metadata, split: string -> Option<seq<string>>,
                             fallback: string -> seq<string>)
    requires !IsBlank(text) && split(text).Some?
    requires forall i :: 0 <= i < |split(text).value| ==> |split(text).value[i]| <= MAX_PIECE_LENGTH
    ensures ChunkTextSpec(text, metadata, Some(split), fallback) == IndexedChunks(split(text).value, metadata)
  {
    var raw := split(text).value;
    ExpandShort(raw, fallback, |raw|);
    assert raw[..|raw|] == raw;
  }

  // ---------------------------------------------------------------------------
  // chunk_pages
  // ---------------------------------------------------------------------------

  /** A page's metadata: the base metadata and its page number. */
  function PageMeta(base: Metadata, p: Page): Metadata
  {
    base["page_num" := Int(p.pageNum)]
  }

  /** The chunks of one page: none for a blank page, otherwise `chunk_text` of its text. */
  function PageChunks(p: Page, base: Metadata, semantic: Option<string -> Option<seq<string>>>,
                      fallback: string -> seq<string>): seq<Chunk>
  {
    if IsBlank(p.text) then [] else ChunkTextSpec(p.text, PageMeta(base, p), semantic, fallback)
  }

  /** The chunks of the first `k` pages, in page order, each page giving `chunksOf` of it. */
  function AllPageChunks(pages: seq<Page>, chunksOf: Page -> seq<Chunk>, k: int): seq<Chunk>
    requires 0 <= k <= |pages|
  {
    if k == 0 then [] else AllPageChunks(pages, chunksOf, k - 1) + chunksOf(pages[k - 1])
  }

  /** `chunk_pages` as a value: every page's chunks in page order, then the global index. */
  function ChunkPagesSpec(pages: seq<Page>, base: Metadata, semantic: Option<string -> Option<seq<string>>>,
                          fallback: string -> seq<string>): seq<Chunk>
  {
    GlobalIndexAll(AllPageChunks(pages, p => PageChunks(p, base, semantic, fallback), |pages|))
  }

  /** `chunk_pages`. */
  method ChunkPages(pages: seq<Page>, base: Metadata, semantic: Option<string -> Option<seq<string>>>,
                    fallback: string -> seq<string>) returns (chunks: seq<Chunk>)
    ensures chunks == ChunkPagesSpec(pages, base, semantic, fallback)
  {
    var allChunks := [];
    for i := 0 to |pages|
      invariant allChunks == AllPageChunks(pages, p => PageChunks(p, base, semantic, fallback), i)
    {
      var pageChunks := ChunkPage(pages[i], base, semantic, fallback);
      ChunkPagesStep(pages, base, semantic, fallback, i, allChunks, pageChunks);
      allChunks := allChunks + pageChunks;
    }
    chunks := AddGlobalIndex(allChunks);
  }

  /** The body of the page loop: a blank page is skipped, any other is chunked with its page number. */
  method ChunkPage(page: Page, base: Metadata, semantic: Option<string -> Option<seq<string>>>,
                   fallback: string -> seq<string>) returns (pageChunks: seq<Chunk>)
    ensures pageChunks == PageChunks(page, base, semantic, fallback)
  {
    StripFacts(page.text);
    if page.text == [] || Strip(page.text) == [] {
      return [];
    }
    var pageMetadata := PageMeta(base, page);
    pageChunks := ChunkText(page.text, pageMetadata, semantic, fallback);
  }

  /** One step of the page loop: the chunks so far, then the page's chunks. */
  lemma ChunkPagesStep(pages: seq<Page>, base: Metadata, semantic: Option<string -> Option<seq<string>>>,
                       fallback: string -> seq<string>, i: int, acc: seq<Chunk>, pageChunks: seq<Chunk>)
    requires 0 <= i < |pages|
    requires acc == AllPageChunks(pages, p => PageChunks(p, base, semantic, fallback), i)
    requires pageChunks == PageChunks(pages[i], base, semantic, fallback)
    ensures AllPageChunks(pages, p => PageChunks(p, base, semantic, fallback), i + 1) == acc + pageChunks
  {
  }

  /** The chunks of the first `j` pages come first, in page order: they are a prefix of the chunks of the first `k`. */
  lemma {:induction false} AllPageChunksPrefix(pages: seq<Page>, chunksOf: Page -> seq<Chunk>, j: int, k: int)
    requires 0 <= j <= k <= |pages|
    ensures AllPageChunks(pages, chunksOf, j) <= AllPageChunks(pages, chunksOf, k)
  {
    if j < k {
      AllPageChunksPrefix(pages, chunksOf, j, k - 1);
      PrefixExtends(AllPageChunks(pages, chunksOf, j), AllPageChunks(pages, chunksOf, k - 1), chunksOf(pages[k - 1]));
    }
  }

  /** The page chunk `j` of the first `k` pages comes from. */
  function PageOf(pages: seq<Page>, chunksOf: Page -> seq<Chunk>, k: int, j: int): int
    requires 0 <= k <= |pages| && 0 <= j < |AllPageChunks(pages, chunksOf, k)|
  {
    if k == 0 then 0
    else if j < |AllPageChunks(pages, chunksOf, k - 1)| then PageOf(pages, chunksOf, k - 1, j)
    else k - 1
  }

  /**
   * Chunk `j` of the first `k` pages is a chunk of page `PageOf(j)`, at its
   * offset after the chunks of the earlier pages.
   */
  lemma {:induction false} PageOfFacts(pages: seq<Page>, chunksOf: Page -> seq<Chunk>, k: int, j: int)
    requires 0 <= k <= |pages| && 0 <= j < |AllPageChunks(pages, chunksOf, k)|
    ensures var p := PageOf(pages, chunksOf, k, j);
      && 0 <= p < k
      && |AllPageChunks(pages, chunksOf, p)| <= j < |AllPageChunks(pages, chunksOf, p)| + |chunksOf(pages[p])|
      && AllPageChunks(pages, chunksOf, k)[j] == chunksOf(pages[p])[j - |AllPageChunks(pages, chunksOf, p)|]
  {
    var prev := AllPageChunks(pages, chunksOf, k - 1);
    if j < |prev| {
      PageOfFacts(pages, chunksOf, k - 1, j);
    }
  }

  /** Later chunks come from the same or later pages. */
  lemma {:induction false} PageOfMonotone(pages: seq<Page>, chunksOf: Page -> seq<Chunk>, k: int, i: int, j: int)
    requires 0 <= k <= |pages| && 0 <= i <= j < |AllPageChunks(pages, chunksOf, k)|
    ensures PageOf(pages, chunksOf, k, i) <= PageOf(pages, chunksOf, k, j)
  {
    var prev := AllPageChunks(pages, chunksOf, k - 1);
    if j < |prev| {
      PageOfMonotone(pages, chunksOf, k - 1, i, j);
    } else if i < |prev| {
      PageOfFacts(pages, chunksOf, k - 1, i);
    }
  }

  /** Every chunk of a page records that page's number, and a blank page has none. */
  lemma PageChunksPageNum(p: Page, base: Metadata, semantic: Option<string -> Option<seq<string>>>,
                          fallback: string -> seq<string>)
    ensures PageChunks(p, base, semantic, fallback) != [] ==> !IsBlank(p.text)
    ensures forall j :: 0 <= j < |PageChunks(p, base, semantic, fallback)| ==>
      HasEntry(PageChunks(p, base, semantic, fallback)[j].metadata, "page_num", Int(p.pageNum))
  {
    if !IsBlank(p.text) {
      ChunkTextFacts(p.text, PageMeta(base, p), semantic, fallback);
    }
  }

  /**
   * Chunk `i` of `chunk_pages` is a chunk of page `p = PageOf(i)`, a page
   * that is not blank, whose number it records; it has
   * `global_chunk_index = i`; and chunks of later pages come later.
   */
  lemma ChunkPagesIndex(pages: seq<Page>, base: Metadata, semantic: Option<string -> Option<seq<string>>>,
                        fallback: string -> seq<string>, i: int)
    requires 0 <= i < |ChunkPagesSpec(pages, base, semantic, fallback)|
    ensures var chunksOf := q => PageChunks(q, base, semantic, fallback);
      var all := AllPageChunks(pages, chunksOf, |pages|);
      var r := ChunkPagesSpec(pages, base, semantic, fallback);
      var p := PageOf(pages, chunksOf, |pages|, i);
      && |r| == |all| && 0 <= p < |pages| && !IsBlank(pages[p].text)
      && r[i].text == all[i].text
      && HasEntry(r[i].metadata, "global_chunk_index", Int(i))
      && HasEntry(r[i].metadata, "page_num", Int(pages[p].pageNum))
  {
    var chunksOf := q => PageChunks(q, base, semantic, fallback);
    var all := AllPageChunks(pages, chunksOf, |pages|);
    PageOfFacts(pages, chunksOf, |pages|, i);
    var p := PageOf(pages, chunksOf, |pages|, i);
    PageChunksPageNum(pages[p], base, semantic, fallback);
    assert all[i] in PageChunks(pages[p], base, semantic, fallback);
  }
}
