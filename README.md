# RAG service ingestion core, modelled in Dafny

This project models the deterministic core of the retrieval service `rag-service`. The service takes PDF documents and turns them into tagged, searchable chunks. It has six parts:

- **Text extractor** (`pdf_extractor.py`, module `PdfText`). It strips every page's text, keeps the non-empty pages under their 1-based numbers and joins them with blank lines.
- **Vision extractor** (`vision_pdf_extractor.py`, module `Vision`):
  - the NDJSON stream of the vision endpoint collected into page text;
  - error pages filtered out;
  - the substring test for loaded models;
  - the two-flag model switch of `BatchVisionExtractor`, a class whose methods change its flags and its log of model requests;
  - `batch_extract_pdfs`.
- **Semantic chunker wrapper** (`chunker.py`, module `Semantic`). Oversized pieces are split again, empty ones dropped, chunks indexed, blank pages skipped and chunks numbered across pages.
- **Agentic chunker** (`agentic_chunker.py`):
  - module `Agentic`: anchor search, page spans and page ranges, the sliding-window merge;
  - module `AgenticChunker`: cutting the text between LLM-named section anchors, the fallback splitter, index and page metadata;
  - module `Invoker`: the tool invoker's retry loop, stream collection and JSON extraction.
- **Vector store** (`vector_store.py`, module `Store`). The Chroma collection is a map from chunk id to text and metadata, a field of the class `Store.VectorStore`. The class covers add, filter building, query, delete, retag, tag listing and id listing.
- **Service** (`app.py`, module `Service`):
  - option defaulting and chunker dispatch;
  - the upload, path, batch, rechunk, cache-status and delete endpoints, on the class `Service.RagService`, which owns the store and the extraction cache (a map keyed by `pdf_id`);
  - the batch's two phases and their per-item outcomes.

Shared modules:

- `Base`: Option, Result and small arithmetic.
- `Text`: Python string semantics, namely `strip` with Python's whitespace set, `split`, `join`, `find`, `rfind`, ASCII `lower` and code-point ordering.
- `Docs`: metadata values, chunks, pages, extraction results, the page-assembly loop shared by both extractors, and the `safe_name` of the debug file names.

Each loop of the source is a method proved equal to a specification function. The properties the source promises are proved as lemmas about those functions. The libraries the service calls are parameters of the model:

- the LLM analysis and its cache;
- LangChain's splitters;
- `json.loads`;
- PyMuPDF's page text;
- the vision endpoint's replies;
- Chroma's nearest-neighbour search;
- `int()` on a form field.

Constants are copied from the configuration:

- `MAX_TOP_K = 20`;
- the default modes `text` and `semantic`;
- merge window 0;
- 2 retries;
- the 2000-character re-split limit;
- the 50-character intro threshold.

The batch endpoint writes no extraction cache, so a batch-processed document cannot be rechunked until it is processed by path.

A batch item whose extraction raised an exception with an empty message is reported as "No text content found in PDF". The source's truthiness test on the error text does this.

## Model

| member | source | states |
|---|---|---|
| Agentic.FindAnchor | rag-service/agentic_chunker.py:121-145 | the position found is -1 or lies between the clamped hint and the end of the text |
| Agentic.FindAnchorBlank | rag-service/agentic_chunker.py:123-127 | an empty or whitespace-only anchor is never found (-1) |
| Agentic.FindAnchorExact | rag-service/agentic_chunker.py:129-132 | when the stripped anchor occurs at or after the hint, the result is its first occurrence there |
| Agentic.FindAnchorMatchesPrefix | rag-service/agentic_chunker.py:134-145 | any position returned starts a non-empty prefix of the stripped anchor: the anchor itself or its first word |
| Agentic.Bodies | rag-service/agentic_chunker.py:159 | one body per page: its text with newlines stripped from both ends |
| Agentic.PageNumbers | rag-service/agentic_chunker.py:158 | one page number per page: its own, or its one-based position when it has none |
| Agentic.SpansOfFacts | rag-service/agentic_chunker.py:154-167 | each span holds exactly its body in the joined text; the first starts at 0, the last ends at the end, and neighbours are one separator apart |
| Agentic.JoinWithSpans | rag-service/agentic_chunker.py:157-167 | the loop joins the bodies with the separator and records the span each body occupies |
| Agentic.IterPageSpans | rag-service/agentic_chunker.py:152-167 | the joined text is the separator-join of the bodies; each span carries its page's number, covers exactly its body, and spans tile the text in page order |
| Agentic.StartScanFirst | rag-service/agentic_chunker.py:174-177 | the start scan yields the page of the first span overlapping the range, and 0 when none overlaps |
| Agentic.EndScanLast | rag-service/agentic_chunker.py:174-179 | the end scan yields the page of the last span overlapping the range, and 0 when none overlaps |
| Agentic.PageRangeFallback | rag-service/agentic_chunker.py:180-184 | with no overlapping span the range falls back to the first and last pages, and to (0, 0) with no spans |
| Agentic.PageRangeFirst | rag-service/agentic_chunker.py:170-184 | the start page is the page of the first overlapping span |
| Agentic.PageRangeLast | rag-service/agentic_chunker.py:170-184 | the end page is the page of the last overlapping span |
| Agentic.PagesForRange | rag-service/agentic_chunker.py:170-184 | the loop and the fallbacks compute the page range of the specification |
| Agentic.MergeAdjacentChunks | rag-service/agentic_chunker.py:187-257 | a window below 1 or no chunks returns the input unchanged; otherwise one output per original, output i being the merge centred on i |
| Agentic.MergeAround | rag-service/agentic_chunker.py:211-252 | the loop body builds the output centred on original i, copied when alone and combined otherwise |
| Agentic.WindowFacts | rag-service/agentic_chunker.py:213-214 | output i's window holds original i and w neighbours on each side, fewer only at the ends of the list |
| Agentic.MergedAtText | rag-service/agentic_chunker.py:216-231 | the text of output i is the blank-line join of the originals in its window |
| Agentic.MergedAtMeta | rag-service/agentic_chunker.py:221-250 | output i records its centre, its one-based context range and, when it combines several, how many |
| Agentic.MergedAtContains | rag-service/agentic_chunker.py:203-231 | every original in the window of output i occurs in its text |
| Agentic.NeighboursOverlap | rag-service/agentic_chunker.py:203 | neighbouring outputs share content: each contains the other's centre |
| Agentic.MergedAtKeys | rag-service/agentic_chunker.py:222-250 | output i keeps every metadata key of its centre and adds only the merge's own keys |
| Agentic.MergedAtClean | rag-service/agentic_chunker.py:219-231 | the text of output i is non-empty and stripped when the originals' texts are |
| Agentic.MergedClean | rag-service/agentic_chunker.py:205-257 | merging keeps every chunk's text non-empty and stripped |
| Agentic.MergedKeys | rag-service/agentic_chunker.py:205-257 | merging keeps the chunk count and, chunk by chunk, the centre's metadata keys plus only the merge's own |
| Agentic.MergeWindowExample | rag-service/agentic_chunker.py:194-201 | a worked instance, not a general property: seven chunks with window 2 give the windows the docstring lists |
| AgenticChunker.FindBoundaries | rag-service/agentic_chunker.py:470-487 | the anchor loop collects, in order, the boundaries of the specification: each anchor searched from the previous one's position, entries that are not dicts, have no string anchor or are not found skipped |
| AgenticChunker.AnchorsOrdered | rag-service/agentic_chunker.py:472-487 | the collected positions never decrease, lie inside the text and start at or after the first hint |
| AgenticChunker.Dedup | rag-service/agentic_chunker.py:493 | deduplication never lengthens the list and keeps a non-empty list non-empty |
| AgenticChunker.DedupElements | rag-service/agentic_chunker.py:493 | `sorted(set(...))`: the same boundaries as before, each once |
| AgenticChunker.DedupOrdered | rag-service/agentic_chunker.py:493 | deduplicating an ordered list keeps it ordered by position |
| AgenticChunker.DedupFirst | rag-service/agentic_chunker.py:493 | the first boundary stays first |
| AgenticChunker.SectionMetaFacts | rag-service/agentic_chunker.py:521-529 | a section chunk's metadata is the base metadata with `start`, `end` and `chunk_title` (None for an empty title) set and nothing else changed |
| AgenticChunker.SectionMetaOffsets | rag-service/agentic_chunker.py:525-526 | the recorded start and end read back as the section's offsets |
| AgenticChunker.Candidates | rag-service/agentic_chunker.py:514-529 | one candidate chunk per boundary, in boundary order |
| AgenticChunker.BuildChunksFromSections | rag-service/agentic_chunker.py:463-531 | fewer than two sections or found anchors give no chunks; otherwise the intro chunk and the non-empty section chunks of the specification |
| AgenticChunker.CutSections | rag-service/agentic_chunker.py:513-529 | the section loop keeps exactly the non-empty stripped sections, each cut at the next boundary or the end of the text |
| AgenticChunker.CutSection | rag-service/agentic_chunker.py:515-529 | the loop body cuts section i from its boundary to the next one |
| AgenticChunker.CandidateOffsets | rag-service/agentic_chunker.py:515-526 | section i's chunk records its boundary as start and the next boundary (or the text's end) as end |
| AgenticChunker.CandidateFacts | rag-service/agentic_chunker.py:515-519 | each section chunk's text is the stripped slice between its offsets, and is empty only when that slice is all whitespace |
| AgenticChunker.SectionChunksClean | rag-service/agentic_chunker.py:513-529 | every section chunk is non-empty, stripped, cut from the text, and starts at or after the first boundary |
| AgenticChunker.SectionChunksInOrder | rag-service/agentic_chunker.py:513-529 | section chunks follow each other through the text without overlapping |
| AgenticChunker.CandidatesInOrder | rag-service/agentic_chunker.py:514-515 | every candidate ends where or before each later one starts |
| AgenticChunker.SectionChunksCover | rag-service/agentic_chunker.py:513-529 | every non-whitespace character from the first boundary to the end lies in some section chunk |
| AgenticChunker.ChunksFromSectionsFacts | rag-service/agentic_chunker.py:466-531 | any chunk at all needs at least two sections and two found anchors; the chunks are non-empty, stripped, cut from the text and in order |
| AgenticChunker.ChunksFromSectionsCover | rag-service/agentic_chunker.py:499-531 | no non-whitespace character is lost: from the start of the text when an intro is cut (first anchor past 50), from the first anchor otherwise |
| AgenticChunker.IntroShape | rag-service/agentic_chunker.py:499-511 | at most one intro chunk, none when the first anchor is at or before position 50, and it spans from 0 to the first anchor |
| AgenticChunker.IntroClean | rag-service/agentic_chunker.py:501-503 | the intro chunk is non-empty, stripped and cut from the text |
| AgenticChunker.IntroCovers | rag-service/agentic_chunker.py:500-511 | every non-whitespace character before the first anchor lies in the intro chunk |
| AgenticChunker.DedupWithin | rag-service/agentic_chunker.py:489-493 | the deduplicated boundaries stay ordered and inside the text, and keep the first one |
| AgenticChunker.CutClean | rag-service/agentic_chunker.py:493-531 | intro plus section chunks are non-empty, stripped, cut from the text and in order |
| AgenticChunker.CutCovers | rag-service/agentic_chunker.py:493-531 | intro plus section chunks cover the text from 0 (intro cut) or from the first anchor; with no intro they are exactly the section chunks |
| AgenticChunker.CoversFromStart | rag-service/agentic_chunker.py:499-531 | with an intro, the whole text is covered |
| AgenticChunker.CoversWithoutIntro | rag-service/agentic_chunker.py:499-531 | without an intro, the chunks are the section chunks and cover the text from the first anchor |
| AgenticChunker.KeepTexts | rag-service/agentic_chunker.py:560-570 | the fallback keeps at most one chunk per piece, all carrying the fallback metadata |
| AgenticChunker.KeepTextsSound | rag-service/agentic_chunker.py:561-562 | every kept fallback text is non-empty and one of the pieces |
| AgenticChunker.KeepTextsComplete | rag-service/agentic_chunker.py:560-563 | every non-empty piece is kept |
| AgenticChunker.FallbackChunksFacts | rag-service/agentic_chunker.py:557-570 | fallback chunks are non-empty stripped pieces tagged `fallback` with no title, and every non-blank piece appears |
| AgenticChunker.BuildFallbackChunks | rag-service/agentic_chunker.py:559-570 | the fallback loop computes the fallback chunks of the specification |
| AgenticChunker.IndexAll | rag-service/agentic_chunker.py:579-585 | one indexed chunk per chunk, in order |
| AgenticChunker.AddIndexMetadata | rag-service/agentic_chunker.py:579-585 | the indexing loop computes the indexed chunks of the specification |
| AgenticChunker.WithChunkIndexFacts | rag-service/agentic_chunker.py:580-585 | the text is unchanged; index, total and character count are recorded; a missing chunking method becomes `agentic` with the model name, an existing one is kept |
| AgenticChunker.WithChunkIndexKeys | rag-service/agentic_chunker.py:580-585 | indexing keeps every key and adds only the indexing keys |
| AgenticChunker.ChunkText | rag-service/agentic_chunker.py:533-587 | `chunk_text` computes the specification: blank text gives nothing; section chunks, else the fallback; the merge when the effective window is at least 1 and there are two chunks or more; then the indexes |
| AgenticChunker.PreparedKeys | rag-service/agentic_chunker.py:545-570 | before merging, every chunk carries the caller's metadata keys plus only `chunk_text`'s own |
| AgenticChunker.SectionChunksKeys | rag-service/agentic_chunker.py:521-529 | section chunks carry the caller's keys plus `start`, `end` and `chunk_title` |
| AgenticChunker.PreparedClean | rag-service/agentic_chunker.py:551-570 | before merging, every chunk text is non-empty and stripped |
| AgenticChunker.ChunkTextClean | rag-service/agentic_chunker.py:542-587 | blank text gives no chunks; every chunk text is non-empty and stripped |
| AgenticChunker.ChunkTextKeys | rag-service/agentic_chunker.py:545-587 | every chunk keeps the caller's metadata keys and adds only the chunker's own |
| AgenticChunker.ChunkTextIndex | rag-service/agentic_chunker.py:579-585 | chunk i records index i, the number of chunks, its own length and a chunking method |
| AgenticChunker.RangeOfFacts | rag-service/agentic_chunker.py:627-637 | recorded offsets are used when end > start; otherwise the first occurrence of the chunk text in the joined text, when it has one; else the recorded offsets |
| AgenticChunker.PagedAll | rag-service/agentic_chunker.py:626-642 | one paged chunk per chunk, in order |
| AgenticChunker.AddPages | rag-service/agentic_chunker.py:627-642 | the loop body records the page range of the chunk's text range |
| AgenticChunker.AddPageMetadata | rag-service/agentic_chunker.py:626-642 | the page loop computes the paged chunks of the specification |
| AgenticChunker.ChunkPages | rag-service/agentic_chunker.py:589-648 | `chunk_pages` computes the specification: blank joined pages give nothing; otherwise `chunk_text` on the joined pages, page metadata, then the global indexes |
| AgenticChunker.PageSpansNonZero | rag-service/agentic_chunker.py:158 | page spans never carry page number 0 |
| AgenticChunker.WithPagesFacts | rag-service/agentic_chunker.py:639-642 | the text is unchanged; `page_num` is the range's start page; `page_num_end` is set only when the end page is non-zero and differs; nothing else changes |
| AgenticChunker.ChunkPagesBlank | rag-service/agentic_chunker.py:601-603 | when the joined page text is blank there are no chunks |
| AgenticChunker.PagesAndIndexAt | rag-service/agentic_chunker.py:625-646 | chunk i of `chunk_pages` keeps its text, records global index i and the page range of its text range |
| Invoker.CollectStream | rag-service/agentic_chunker.py:334-352 | the stream loop concatenates, line by line, the `content` of each line that parses as an object with a string `content`, the raw line otherwise, skipping empty lines |
| Invoker.CollectedAppend | rag-service/agentic_chunker.py:336-352 | collecting two runs of lines gives the two collections concatenated |
| Invoker.CollectedOne | rag-service/agentic_chunker.py:338-351 | one line contributes nothing when empty, its `content` when it has one, and itself otherwise |
| Invoker.EmptyLinesIgnored | rag-service/agentic_chunker.py:338-339 | an empty line anywhere changes nothing |
| Invoker.FirstReply | rag-service/agentic_chunker.py:288-312 | the attempt that answers is the first one that does not fail; none when every attempt fails |
| Invoker.Call | rag-service/agentic_chunker.py:281-314 | `retries + 1` attempts at most: the first reply is returned after that many attempts; when all fail, the RuntimeError message with the last failure, after all of them |
| Invoker.CallSucceedsIff | rag-service/agentic_chunker.py:288-314 | the call succeeds exactly when one of its attempts gives a reply |
| Invoker.FirstBalanced | rag-service/agentic_chunker.py:386-396 | the brace scan stops at the first point where the depth from the first `{` is back to 0, or reports that it never is |
| Invoker.DepthSnoc | rag-service/agentic_chunker.py:388-391 | one more character raises the depth on `{`, lowers it on `}` and leaves it otherwise |
| Invoker.ExtractJson | rag-service/agentic_chunker.py:354-397 | `extract_json` computes the specification: empty text gives None; the text between the markers when it parses; else the balanced text from the first `{` when it parses |
| Invoker.MatchBraces | rag-service/agentic_chunker.py:386-396 | the brace loop finds the end of the first balanced group |
| Invoker.ExtractJsonNeedsBrace | rag-service/agentic_chunker.py:354-397 | when only text holding a `{` can parse, a text without `{` yields None |
| Invoker.MarkerCandidateInText | rag-service/agentic_chunker.py:374-377 | the marker candidate is made of characters of the text |
| Invoker.BraceCandidateStart | rag-service/agentic_chunker.py:383-393 | the brace candidate is the slice of the text starting at its first `{` |
| Invoker.BraceCandidateBalanced | rag-service/agentic_chunker.py:386-393 | the brace candidate starts with `{`, ends with `}`, is balanced, and no proper prefix of it is |
| Semantic.ExpandPieces | rag-service/chunker.py:61-68 | the secondary-split loop computes the expanded pieces of the specification: pieces longer than 2000 characters replaced by their fallback split, in order |
| Semantic.ExpandShort | rag-service/chunker.py:63-68 | pieces no longer than 2000 characters pass through unchanged |
| Semantic.ExpandPrefix | rag-service/chunker.py:62-68 | the expansion of a prefix of the pieces is a prefix of the expansion |
| Semantic.IndexCandidates | rag-service/chunker.py:71-83 | one candidate per piece, indexed by its position among all pieces |
| Semantic.BuildIndexed | rag-service/chunker.py:71-83 | the indexing loop keeps the non-empty stripped pieces with their index, the piece count and their length |
| Semantic.IndexedAt | rag-service/chunker.py:71-83 | chunk j is piece ix[j] stripped and non-empty, recording ix[j], the count of all pieces (empty ones included) and its own length |
| Semantic.IndexedPositions | rag-service/chunker.py:71-73 | the kept pieces are in order, and every piece that is non-empty once stripped is kept |
| Semantic.IndexedClean | rag-service/chunker.py:72-73 | every chunk text is non-empty and stripped |
| Semantic.IndexedKeys | rag-service/chunker.py:76-81 | every chunk's metadata is the caller's plus exactly the index keys, the caller's values kept |
| Semantic.ChunkText | rag-service/chunker.py:37-110 | `chunk_text` computes the specification: blank text gives nothing; the semantic split (or the fallback when there is no semantic chunker) expanded and indexed; when the semantic split raises, the fallback split indexed and tagged `fallback` |
| Semantic.ChunkTextFacts | rag-service/chunker.py:37-110 | blank text gives no chunks; chunk texts are non-empty and stripped; each chunk carries the caller's keys and the index keys, and at most `chunking_method` besides |
| Semantic.ChunkTextShortPieces | rag-service/chunker.py:56-83 | when the semantic split succeeds with short pieces, the result is those pieces indexed |
| Semantic.ChunkPages | rag-service/chunker.py:112-145 | `chunk_pages` computes the specification: blank pages skipped, each page chunked with its page number, the results concatenated and globally indexed |
| Semantic.ChunkPage | rag-service/chunker.py:127-139 | the loop body chunks one page, nothing for a blank page |
| Semantic.AllPageChunksPrefix | rag-service/chunker.py:126-139 | the chunks of the first pages are a prefix of the chunks of more pages |
| Semantic.PageOfFacts | rag-service/chunker.py:126-139 | every chunk of the concatenation comes from one page, in the position that page's chunks occupy |
| Semantic.PageOfMonotone | rag-service/chunker.py:126-139 | later chunks come from the same or later pages |
| Semantic.PageChunksPageNum | rag-service/chunker.py:130-138 | a blank page gives no chunks, and every chunk of a page records that page's number |
| Semantic.ChunkPagesIndex | rag-service/chunker.py:126-145 | chunk i keeps its text, records global index i and the number of the non-blank page it comes from |
| Store.SafeTag | rag-service/vector_store.py:99 | the sanitised tag has the tag's length; each character is lower-cased, with spaces and hyphens turned into underscores; no space, hyphen or upper-case letter is left |
| Store.TagKey | rag-service/vector_store.py:100 | the filter key of a tag starts with `tag_`, followed by the sanitised tag |
| Store.TagKeyIgnoresCaseAndSeparators | rag-service/vector_store.py:99-100 | two tags of equal length that differ only in letter case or in space/hyphen/underscore share one filter key |
| Store.BaseKeysAreNotTagKeys | rag-service/vector_store.py:88-95 | none of the six base metadata keys starts with `tag_`, so the tag fields never overwrite them |
| Store.ChunkIdInjective | rag-service/vector_store.py:82 | the ids `<pdf_id>_chunk_<i>` of one document differ for different chunk numbers |
| Store.WithTagFieldsFacts | rag-service/vector_store.py:97-100 | after the tag fields are added, the keys are the old keys plus one `tag_` key per tag, each set to "1"; the other keys keep their values |
| Store.AddTagFields | rag-service/vector_store.py:97-100 | the loop over the tags yields the metadata with the tag fields added |
| Store.BuildMetadata | rag-service/vector_store.py:87-100 | the loop yields the stored metadata of chunk i |
| Store.StoredMetadataFacts | rag-service/vector_store.py:87-100 | the stored metadata holds pdf_id, filename, the comma-joined tags and the chunk's chunk_index/page_num/char_count, each defaulting to the position, 0 and the text length; it holds `tag_<t>` = "1" for every tag; its keys are exactly the base keys plus the tag keys |
| Store.Records | rag-service/vector_store.py:81-104 | one record per chunk, in order; record i carries id `<pdf_id>_chunk_<i>`, the chunk text and its stored metadata |
| Store.InsertNewFacts | rag-service/vector_store.py:111-116 | adding records with distinct ids gives the old keys plus the new ids; existing records are kept unchanged, and a new id gets its record |
| Store.AddedFacts | rag-service/vector_store.py:73-116 | adding no chunks leaves the store unchanged; otherwise the store gains exactly the ids `<pdf_id>_chunk_<i>`, keeps every record it had, and a new id holds the chunk's text and stored metadata |
| Store.TagConditions | rag-service/vector_store.py:152-155 | one `tag_<t>` = "1" condition per query tag, in order |
| Store.PdfConditions | rag-service/vector_store.py:167 | one pdf_id condition per requested document, in order |
| Store.BuildWhere | rag-service/vector_store.py:146-173 | the filter the loops build is the one the where rules define |
| Store.WhereNone | rag-service/vector_store.py:146-173 | there is no filter exactly when neither tags nor document ids are given |
| Store.WhereShape | rag-service/vector_store.py:157-173 | a single condition stands alone; several are grouped by `$or`; tags and ids together are combined by a two-clause `$and` |
| Store.GroupedTags | rag-service/vector_store.py:150-160 | the tag filter admits a record exactly when it carries any of the query tags (OR logic) |
| Store.GroupedDocuments | rag-service/vector_store.py:162-167 | the document filter admits a record exactly when it belongs to one of the requested documents |
| Store.WhereMeans | rag-service/vector_store.py:146-173 | a record passes the filter exactly when it has one of the tags (if tags were given) and belongs to one of the ids (if ids were given) |
| Store.StoredChunkMatches | rag-service/vector_store.py:88-100 | a chunk stored with a tag that is also queried, under an admissible id, passes the query's filter |
| Store.ClampTopK | rag-service/vector_store.py:140 | the result count is the requested one, capped at MAX_TOP_K |
| Store.QueryClamps | rag-service/vector_store.py:140-190 | a query never asks for more than MAX_TOP_K results, and asking for fewer is passed through unchanged |
| Store.DeleteFacts | rag-service/vector_store.py:220-232 | after deletion no record of the document remains, all other records are kept unchanged, and the number removed plus the number left is the old size |
| Store.RetagMetadata | rag-service/vector_store.py:262-273 | the metadata loop gives the retag rule's result |
| Store.RetagFacts | rag-service/vector_store.py:262-273 | after a retag the `tag_` keys are exactly the new tags' keys, each "1"; `tags` holds the comma-joined new tags; every other key and value is unchanged |
| Store.RetagIdempotent | rag-service/vector_store.py:262-273 | retagging twice with the same tags gives the same metadata as retagging once |
| Store.RetagMatches | rag-service/vector_store.py:262-273 | after a retag a record matches every new tag's condition, and no condition whose key is not among the new tags' keys |
| Store.StaleTagsPersist | rag-service/vector_store.py:262-278 | as written, the full dictionary that `collection.update` merges into the stored one leaves every old tag key the new tags do not name in place, with its value |
| Store.StaleTagMatches | rag-service/vector_store.py:262-278 | as written, a record tagged `a` and retagged with `["b"]` still matches the condition on `a`, while the intended rewrite does not |
| Store.RetagUpdateFacts | rag-service/vector_store.py:262-278 | the corrected update dictionary holds `tags`, each new tag key with "1" and every other old tag key with `None`, and nothing else |
| Store.RetagUpdateApplied | rag-service/vector_store.py:262-278 | merging the corrected dictionary into the stored metadata gives exactly the rewritten metadata, so no condition on a dropped tag matches any more |
| Store.RetagRecords | rag-service/vector_store.py:259-278 | the update loop over the document's records, with the corrected write-back, gives the retagged collection |
| Store.RetaggedFacts | rag-service/vector_store.py:248-281 | retagging keeps every id and every text, leaves the other documents' records unchanged, and keeps the document's records its own |
| Store.CleanPartsFacts | rag-service/vector_store.py:297-302 | every tag collected is non-empty and stripped, and every part that strips to something non-empty is collected |
| Store.CollectCleanParts | rag-service/vector_store.py:299-302 | the loop over the comma-separated parts collects the set of stripped non-empty parts |
| Store.ParseTags | rag-service/vector_store.py:296-302 | the tags read from one record are the clean parts of its `tags` string, none when it is missing or empty |
| Store.TagsRoundTrip | rag-service/vector_store.py:87-91 | tags stored as a comma-joined string and read back by get_all_tags give back the same set, when each tag is non-empty, stripped and comma-free |
| Store.CleanTagsRead | rag-service/vector_store.py:299-302 | reading parts that are already clean keeps each of them |
| Store.EmptyTagsString | rag-service/vector_store.py:87 | a document with no tags stores an empty tags string, and no tag is read back from it |
| Store.CleanPartsFixed | rag-service/vector_store.py:299-302 | clean parts are read back unchanged, as the set of the parts seen so far |
| Store.TagsOfClean | rag-service/vector_store.py:300-302 | every tag read from a record is non-empty and stripped |
| Store.CollectTags | rag-service/vector_store.py:291-302 | the loop over every record's metadata collects the union of their tags |
| Store.CollectPdfIds | rag-service/vector_store.py:316-323 | the loop over every record's metadata collects the set of non-empty pdf_ids |
| Store.AllPdfIdsMeans | rag-service/vector_store.py:313-325 | a non-empty id is listed exactly when some record belongs to that document |
| Store.VectorStore.constructor | rag-service/vector_store.py:14-31 | the store opens on the persisted collection |
| Store.VectorStore.ClearAll | rag-service/vector_store.py:35-52 | the store is emptied and the count returned is its old size |
| Store.VectorStore.AddDocuments | rag-service/vector_store.py:54-119 | the records of every chunk are added under new ids by the insert rule, and the number of chunks is returned (0 and nothing changed for no chunks) |
| Store.VectorStore.Query | rag-service/vector_store.py:121-207 | the search runs with the capped count and the built filter; when it fails, it is retried without a filter |
| Store.VectorStore.DeleteDocument | rag-service/vector_store.py:209-235 | the document's records are removed and counted; the rest of the store is kept |
| Store.VectorStore.UpdateDocumentTags | rag-service/vector_store.py:237-286 | with the corrected write-back, every record of the document is retagged and the number of them returned; 0 and nothing changed when it has none |
| Store.VectorStore.GetAllTags | rag-service/vector_store.py:288-304 | a strictly sorted list holding exactly the tags of all records |
| Store.VectorStore.GetDocumentCount | rag-service/vector_store.py:309-311 | the number of records in the store |
| Store.VectorStore.GetPdfIds | rag-service/vector_store.py:313-325 | a strictly sorted list holding exactly the pdf_ids of all records |
| Docs.KeptFacts | rag-service/agentic_chunker.py:515-520 | dropping empty chunks keeps exactly the candidates with a non-empty text, at increasing positions, and leaves none of them out |
| Docs.GlobalIndexAll | rag-service/chunker.py:142-143 | one chunk per input chunk, in order; chunk i is the same chunk with `global_chunk_index` set to i |
| Docs.AddGlobalIndex | rag-service/chunker.py:142-143 | the indexing loop gives every chunk its position as `global_chunk_index` |
| Docs.KeptPagesSound | rag-service/pdf_extractor.py:79-91 | every kept page is one of the pages seen, numbered from 1, holding that page's text, accepted by the filter; page numbers increase |
| Docs.KeptPagesComplete | rag-service/pdf_extractor.py:79-91 | every page text the filter accepts is kept under its own number |
| Docs.AssembledFacts | rag-service/pdf_extractor.py:75-107 | an assembled result counts every page in `total_pages`, keeps exactly the accepted pages under their 1-based numbers in increasing order |
| Docs.KeepPage | rag-service/pdf_extractor.py:86-91 | one step of the page loop: the page joins the pages and the text parts exactly when the filter accepts its text |
| Docs.SafeNameFacts | rag-service/pdf_extractor.py:20 | the safe name has only letters, digits, `.`, `_` and `-`, keeps every such character in place, and holds no `/`; the vision extractor uses the same rule (`vision_pdf_extractor.py`, line 43) |
| Docs.SafeNameIdempotent | rag-service/pdf_extractor.py:20 | making a name safe twice gives the same as once; a name that is already safe is unchanged |
| Docs.DebugFileNameStaysInCache | rag-service/pdf_extractor.py:19-22 | the debug file name `extracted_<safe name>_<timestamp>.txt` never holds a `/`, so it stays in the cache directory |
| PdfText.CollectPages | rag-service/pdf_extractor.py:75-106 | the page loop keeps the stripped non-empty pages under their 1-based numbers and joins their texts with blank lines |
| PdfText.ExtractTextFromPdf | rag-service/pdf_extractor.py:55-117 | a missing file gives "PDF file not found: <path>"; a failure to read gives "Error extracting text from PDF: <message>"; otherwise the file's pages, page count, metadata (own title or empty) and joined text |
| PdfText.ExtractTextFromBytes | rag-service/pdf_extractor.py:120-172 | a failure to read gives "Error extracting text from PDF bytes: <message>"; otherwise the pages, page count, metadata titled by the file name when the document has no title, and joined text |
| PdfText.FromFilePages | rag-service/pdf_extractor.py:79-91 | every kept page is a page of the file, numbered from 1, with that page's text stripped, non-empty |
| PdfText.FromFileOrder | rag-service/pdf_extractor.py:77-98 | page numbers increase, no more pages are kept than the file has, and `total_pages` counts every page |
| PdfText.FromFileComplete | rag-service/pdf_extractor.py:84-91 | every page whose stripped text is non-empty is kept |
| PdfText.FromFileFullText | rag-service/pdf_extractor.py:106 | the full text is empty exactly when no page was kept, and has no whitespace at either end |
| PdfText.FromFileTitle | rag-service/pdf_extractor.py:157 | the title is the document's own when it is non-empty, the fallback otherwise |
| PdfText.BlankFile | rag-service/pdf_extractor.py:84-91 | a file of blank pages gives no pages and an empty text, but still counts its pages |
| Vision.IsModelLoadedMeans | rag-service/vision_pdf_extractor.py:117-123 | a model counts as loaded exactly when some reported model name contains its name or is contained in it |
| Vision.NameMatchesSymmetric | rag-service/vision_pdf_extractor.py:121 | the containment test runs both ways, so swapping the two names gives the same answer |
| Vision.EmptyNameLoaded | rag-service/vision_pdf_extractor.py:120-123 | the empty name counts as loaded exactly when any model is reported |
| Vision.CollectStream | rag-service/vision_pdf_extractor.py:208-219 | the NDJSON loop gives the concatenated `content` of the stripped stream lines, in order, or the message of the `TypeError` a line raises |
| Vision.StreamTextAppend | rag-service/vision_pdf_extractor.py:210-219 | collecting two stretches of the stream one after the other is collecting the whole stream |
| Vision.SkippedLine | rag-service/vision_pdf_extractor.py:212-219 | a blank line, a line that is not JSON and a line without `content` add nothing, wherever they stand |
| Vision.RaisedLine | rag-service/vision_pdf_extractor.py:214-219 | the first line whose reading raises ends the stream with that exception's message, whatever follows it |
| Vision.StreamFails | rag-service/vision_pdf_extractor.py:210-219 | the stream fails exactly when one of its non-empty lines raises on reading |
| Vision.ExtractPageWithVision | rag-service/vision_pdf_extractor.py:171-226 | a failed request or a stream line that raises gives "[Error extracting page <n>: <message>]", a status other than 200 "[Error extracting page <n>]", otherwise the collected stream text stripped |
| Vision.ErrorTextMarked | rag-service/vision_pdf_extractor.py:206-226 | both error texts start with the `[Error` marker the page filter tests |
| Vision.PageTextFacts | rag-service/vision_pdf_extractor.py:203-226 | a failed request, a non-200 status or a stream line that raises gives an `[Error` text; a 200 reply none of whose lines raises gives a stripped text |
| Vision.ExtractSinglePdf | rag-service/vision_pdf_extractor.py:229-266 | the page loop gives, for each page in order, the vision text, kept when non-empty and not an error, with the page count, metadata titled by the file name when the document has none, and the kept texts joined |
| Vision.SinglePdfPages | rag-service/vision_pdf_extractor.py:241-250 | every kept page is numbered within the file, its request succeeded with status 200, no line of its stream raised, and its text is its page's vision text, non-empty and stripped |
| Vision.SinglePdfComplete | rag-service/vision_pdf_extractor.py:235-262 | page numbers increase, no more pages than the file has are kept, `total_pages` counts every page, and every acceptable page text is kept |
| Vision.AllPagesFailed | rag-service/vision_pdf_extractor.py:241-262 | when every page request fails, nothing is kept and the full text is empty |
| Vision.ExtractTextWithVision | rag-service/vision_pdf_extractor.py:273-291 | a missing file fails with "PDF not found: <path>" and requests nothing; otherwise the single-PDF result, with the model calls: load vision, unload vision, load text |
| Vision.ExtractTextFromBytesWithVision | rag-service/vision_pdf_extractor.py:294-311 | an unreadable upload fails and requests nothing; otherwise the single-PDF result, with the same three model calls |
| Vision.SwitchFacts | rag-service/vision_pdf_extractor.py:349-389 | both switches keep the two flags from being set together; after `_ensure_vision_model` only vision is loaded; after `prepare_for_chunking` vision is not; a second call of either changes nothing |
| Vision.BatchSwitchesOnce | rag-service/vision_pdf_extractor.py:349-389 | however many files a batch extracts, the vision model is requested once, and the switch to the text model adds exactly one unload and one load; with no files nothing is requested |
| Vision.BatchVisionExtractor.constructor | rag-service/vision_pdf_extractor.py:335-338 | a new extractor has neither model marked loaded and has requested nothing |
| Vision.BatchVisionExtractor.EnsureVisionModel | rag-service/vision_pdf_extractor.py:349-354 | the vision model is requested only when not yet marked loaded; then vision is marked loaded and text not |
| Vision.BatchVisionExtractor.Extract | rag-service/vision_pdf_extractor.py:356-365 | the vision model is ensured, then the upload is extracted page by page |
| Vision.BatchVisionExtractor.ExtractFromPath | rag-service/vision_pdf_extractor.py:367-380 | the vision model is ensured before the file is checked; a missing file fails, an existing one is extracted |
| Vision.BatchVisionExtractor.PrepareForChunking | rag-service/vision_pdf_extractor.py:382-389 | only when vision is loaded and text is not: unload vision, load text, and flip both flags |
| Vision.ItemResultAt | rag-service/vision_pdf_extractor.py:410-413 | result i of a batch is the extraction of item i |
| Vision.BatchSpecFacts | rag-service/vision_pdf_extractor.py:392-416 | a batch succeeds exactly when every file opens, giving one single-PDF result per file in order; otherwise it fails with the error of the first file that does not open |
| Vision.ExtractEach | rag-service/vision_pdf_extractor.py:409-413 | the extraction loop gives the batch result, having requested the vision model once if there was any file |
| Vision.BatchExtractPdfs | rag-service/vision_pdf_extractor.py:392-416 | the batch result in order; a non-empty successful batch makes the calls load vision, unload vision, load text; an empty one makes none; a failed one stops after loading vision |
| Service.GetConfig | rag-service/app.py:255-269 | the defaults are among the listed options, the merge window default lies in its range, and the option lists are text/vision, semantic/agentic and 0 to 5 |
| Service.MakeOptions | rag-service/app.py:40-50 | both modes are lower-cased and stripped; a missing or empty mode falls back to its configured default; a given merge window is kept, a missing one becomes the configured default |
| Service.ModeFacts | rag-service/app.py:48-49 | a mode is always lower-case and stripped, and a missing or empty one is the default |
| Service.OptionsNormalised | rag-service/app.py:40-50 | options that are already normalised are rebuilt unchanged, so per-item options falling back to the global ones keep them |
| Service.DefaultOptionsAreConfig | rag-service/app.py:40-50 | the options built from nothing are the defaults `/config` reports |
| Service.ChunkWithOptions | rag-service/app.py:67-78 | agentic mode uses the agentic chunker with the merge window; otherwise the semantic chunker, merged only when the window is at least 1 and there are at least two chunks |
| Service.ChunkingIgnoresExtractor | rag-service/app.py:67-78 | the extractor mode plays no part in chunking |
| Service.SemanticPathKeepsCount | rag-service/app.py:72-76 | outside agentic mode the merge keeps the number of semantic chunks, and a window below 1 keeps them unchanged |
| Service.DefaultChunking | rag-service/app.py:40-78 | with default options the chunks are the semantic chunker's |
| Service.ExtractWithOptions | rag-service/app.py:53-57 | vision mode uses the vision extractor (with its model calls), any other mode the text extractor |
| Service.ExtractBytesWithOptions | rag-service/app.py:60-64 | the same dispatch for uploaded bytes |
| Service.FormTagsClean | rag-service/app.py:298 | the parsed form tags are non-empty, stripped and comma-free, and every comma-separated part that strips to something non-empty is among them |
| Service.FormTagsRoundTrip | rag-service/app.py:298 | clean tags joined with commas parse back to the same list |
| Service.ChunkPlanFacts | rag-service/app.py:301-320 | chunking succeeds exactly when there are pages and the chunker gives chunks; no pages fails 400 "No text content found in PDF"; no chunks fails 400 with the route's message |
| Service.BlankUploadRefused | rag-service/app.py:301-305 | with the text extractor, an upload whose every page is blank is refused with 400 "No text content found in PDF" |
| Service.UploadPlanFacts | rag-service/app.py:272-341 | a successful upload created chunks; a failure is 400 (no text or no chunks) or 500; a merge window that does not parse as an integer fails 500 |
| Service.PathExtractionFacts | rag-service/app.py:579-600 | an extraction that gets past the checks has pages; a 404 means the path was given and the file is missing; a successful request got past extraction |
| Service.RechunkReproduces | rag-service/app.py:657-724 | rechunking a cached document with the options it was processed with gives the same chunks as the original processing |
| Service.BatchResults | rag-service/app.py:482-562 | one result per item handled |
| Service.VerdictSound | rag-service/app.py:482-562 | every item's verdict is a success with chunks or a failure with no chunks |
| Service.BatchReported | rag-service/app.py:482-562 | each result carries its item's pdf_id and filename; a success reports a positive chunk count, a failure 0 chunks and an error |
| Service.SuccessesFacts | rag-service/app.py:566-571 | every item succeeded exactly when the success count is the batch size, and none did exactly when it is 0 |
| Service.BatchOutcomeFacts | rag-service/app.py:566-571 | processed plus failed is the number of items, one result per item, and the batch succeeds exactly when nothing failed, that is, when every item succeeded |
| Service.VerdictAt | rag-service/app.py:392-446 | an item's extraction, checked and chunked with the item's own options, gives its verdict |
| Service.VerdictsAgree | rag-service/app.py:382-562 | the verdicts of the two phases, extraction then chunking, agree item by item with the per-item verdict |
| Service.SameVerdicts | rag-service/app.py:482-562 | two batches whose items have the same verdicts, pdf_ids and filenames give the same results |
| Service.ExtractorFieldIgnored | rag-service/app.py:392-396 | an item's own extractor mode changes nothing: only the global mode chooses the extractor |
| Service.ItemExtractorIgnored | rag-service/app.py:382-446 | two batches that differ only in per-item extractor modes give the same outcome |
| Service.BatchRequestsShape | rag-service/app.py:382-432 | in text mode, or with no existing file, no model is requested; in vision mode with some existing file the vision model is loaded once, and the switch to the text model follows only when some item is chunked agentically |
| Service.NeedsTextModel | rag-service/app.py:421-424 | true exactly when some item's chunker mode is agentic |
| Service.RagService.constructor | rag-service/app.py:82-134 | the service starts on the given store and the persisted extraction cache |
| Service.RagService.ChunkAndStore | rag-service/app.py:310-334 | the chunking plan's failure is returned unchanged; on success the chunks are added to the store and their number returned |
| Service.RagService.ProcessPdfFile | rag-service/app.py:272-341 | the answer and the new store are those of the upload plan: stored under the form's parsed tags on success, unchanged on failure |
| Service.RagService.ProcessPdfFromPath | rag-service/app.py:579-643 | the answer and the new store are those of the path plan; the extraction is cached as soon as it has pages, even when chunking then fails |
| Service.RagService.CheckCacheStatus | rag-service/app.py:646-654 | has_cache and the filename are present exactly when the document is in the cache, and the filename is the cached one |
| Service.RagService.RechunkDocument | rag-service/app.py:657-724 | the answer is the rechunk plan's; when the cache has pages the old chunks are deleted first, then the new ones stored under the cached filename and tags; otherwise the store is unchanged |
| Service.RagService.DeleteDocument | rag-service/app.py:755-771 | the document's chunks are removed and counted, and its cache entry is dropped |
| Service.RagService.StoreItem | rag-service/app.py:488-562 | an item's result reports its verdict, and the store gains its chunks only when it succeeds |
| Service.RagService.ChunkStep | rag-service/app.py:482-562 | one step of the chunking phase keeps the results, the two counters and the store in step with the batch so far |
| Service.RagService.ChunkAll | rag-service/app.py:476-571 | the chunking phase gives the batch outcome and stores the chunks of every successful item, in order |
| Service.RagService.ProcessBatch | rag-service/app.py:344-576 | an empty batch fails 400 "No items provided" and changes nothing; otherwise the response is the batch outcome, the store holds every successful item's chunks, and the model calls are those of the batch |
| Service.ExtractPhase | rag-service/app.py:382-472 | one extraction per item, by the global mode's extractor, with the model calls it takes |
| Service.ExtractWithVision | rag-service/app.py:382-419 | the vision loop gives each item's vision extraction, the vision model being requested once some file exists |
| Service.VisionStep | rag-service/app.py:396-419 | a missing file fails "File not found: <path>" before the extractor is involved; an existing file is extracted with the vision model ensured |
| Service.ExtractForPath | rag-service/app.py:583-600 | a missing file_path is 400, a missing file 404, an extraction error 500, no pages 400 "No text content found in PDF" |
| Service.ExtractWithText | rag-service/app.py:434-472 | the text loop gives each item's text extraction, "File not found: <path>" for a missing file |

## Left out

- HTTP transport (FastAPI routing, CORS, pydantic validation, uvicorn): errors are an `Http` result with a status code and detail.
- The `/health`, `/query`, `/document/{pdf_id}/tags`, `/tags`, `/documents`, `/stats` and `/clear-all` endpoints: each only forwards to a `Store.VectorStore` method (or to the collection's count) and wraps its result in a response. They are not modelled as separate members.
- The `/chunks/{pdf_id}` and `/chunks` endpoints: they page through Chroma's own listing of records, and the paging is not part of this model.
- Environment overrides in `config.py`: the configured defaults are constants.
- Merge-window form parsing: `int()` is the parameter `parseInt`, and its failure becomes the 500 the endpoint reports.
- `str.lower` and `str.isalnum`: ASCII only, so non-ASCII letters are neither lower-cased nor counted as alphanumeric.
- Task cancellation, async I/O and concurrency: the model is sequential, as the source is in effect.
- Exceptions raised inside a chunker or by the store during a request: the splitters, the analysis and the store are total. The 500 that such an exception would produce, and the batch's per-item `str(e)` result for it, are not modelled.
- The agentic chunker's `_analyze_document` (the LLM prompt, `_cache_key` and the SQLite analysis cache): it is the parameter `analyze`. Only what the chunker does with the analysis is modelled.
- HTTP requests to the LLM and the vision model, retry sleeps and back-off: a request is a function from the attempt number to a reply or an exception message.
- Model loading and unloading in the vision extractor: each call is an entry in a ghost log of `Vision.ModelRequest`s. Whether the server accepts the call, and `_get_loaded_models`' parsing of its reply, are not modelled; the list of loaded names is an input to `IsModelLoaded`.
- Page rendering to PNG, DPI scaling, resizing and base64 encoding: a page's vision reply is a parameter.
- Chroma's embeddings, ranking, distances and the `1 - distance` similarity rounding: the search is the parameter `search`, applied to the collection, the filter and the capped count.
- Store.VectorStore.AddDocuments: Chroma's `add` is modelled as ignoring a record whose id is already present, which is what the `InsertNew` lemmas assume; other Chroma versions may reject or overwrite such a record.
- Store.VectorStore.UpdateDocumentTags / Store.RetagRecords: these model the corrected write-back of the Findings row, so each record ends with exactly the rewritten metadata; the merge the code as written gets from Chroma's `update` is `Store.MergedRetag`.
- The records a search returns: the model states which records a filter admits (`Store.WhereMeans`), but does not require the search parameter to return only admitted records.
- The extraction cache's JSON files: the cache is a map in `Service.RagService`. Save and load failures, which the source swallows, and malformed cache files are not modelled.
- Debug text dumps: only the file name the dump would get is modelled, up to the timestamp, which is a parameter.
- `sorted(set(boundaries))` in the agentic chunker: positions from the anchor search never decrease, so the model removes duplicates keeping the first. When two sections share a position, the order of their topics follows the analysis, where Python's set order is unspecified.

## Findings

| source | as written | input that shows it | evidently intended | confidence | as-written member | corrected member |
|---|---|---|---|---|---|---|
| rag-service/vector_store.py:262-278 | the old `tag_` keys are deleted from a local copy of the metadata and the full copy is passed to `collection.update`, which merges it into the stored metadata, so the deleted keys stay on the record | a record with `tag_a: "1"` retagged with `["b"]` keeps `tag_a: "1"`, and a query filtered on tag `a` still returns it | after a retag only the new tags' keys remain, so a dropped tag no longer finds the record; passing `None` for each dropped key achieves it | not executed; rests on Chroma's documented merge semantics for `update` | Store.StaleTagMatches | Store.RetagUpdateApplied |
