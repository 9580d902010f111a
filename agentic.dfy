/**
 * The text handling of the LLM-driven chunker: anchor search, joining pages
 * while recording their spans, mapping a character range back to pages, the
 * sliding-window merge, cutting the text between section boundaries, JSON
 * extraction from a model reply, stream collection, the retry loop, and the
 * index and page metadata written onto the chunks.
 */
module Agentic {
  import opened Base
  import opened Text
  import opened Docs

  const JSON_START := "<JSON_START>"
  const JSON_END := "<JSON_END>"

  /** The default number of attempts beyond the first one. */
  const AGENTIC_CHUNKER_RETRIES := 2

  /** The configured (informational) model name written onto agentic chunks. */
  const AGENTIC_CHUNKER_MODEL_NAME := "qwen3-2507"

  /** The configured merge window when a request gives none (0: no merging). */
  const AGENTIC_CHUNK_MERGE_WINDOW := 0

  /** A section starting before this offset gets no intro chunk in front of it. */
  const INTRO_THRESHOLD := 50

  /** The separator `chunk_pages` joins pages with, and the one used between merged chunks. */
  const PARAGRAPH := "\n\n"

  // ---------------------------------------------------------------------------
  // anchor search
  // ---------------------------------------------------------------------------

  /**
   * `_find_anchor`: the first exact occurrence of the stripped anchor at or
   * after the hint; failing that, when the whitespace-collapsed anchor occurs
   * in the whitespace-collapsed text, the first occurrence of the anchor's
   * first word; otherwise -1.
   */
  function FindAnchor(fullText: string, anchor: string, startHint: int): (p: int)
    ensures p == -1 || Max0(startHint) <= p <= |fullText|
  {
    var a := Strip(anchor);
    if anchor == [] || a == [] then -1
    else
      var from := Max0(startHint);
      var pos := Find(fullText, a, from);
      if pos != -1 then pos
      else
        var compactAnchor := Collapse(a);
        if Find(Collapse(fullText), compactAnchor, from) == -1 then -1
        else
          var token := Split(compactAnchor, ' ')[0];
          if token != [] then Find(fullText, token, from) else -1
  }

  /** An empty or whitespace-only anchor is never found. */
  lemma FindAnchorBlank(fullText: string, anchor: string, startHint: int)
    requires IsBlank(anchor)
    ensures FindAnchor(fullText, anchor, startHint) == -1
  {
    StripFacts(anchor);
  }

  /**
   * When the stripped anchor occurs at or after the hint, the result is its
   * first such occurrence.
   */
  lemma FindAnchorExact(fullText: string, anchor: string, startHint: int, i: int)
    requires Strip(anchor) != []
    requires Max0(startHint) <= i && MatchAt(fullText, Strip(anchor), i)
    ensures var p := FindAnchor(fullText, anchor, startHint);
      && Max0(startHint) <= p <= i
      && fullText[p..p + |Strip(anchor)|] == Strip(anchor)
      && forall j :: Max0(startHint) <= j < p ==> !MatchAt(fullText, Strip(anchor), j)
  {
  }

  /**
   * Whatever position is returned, the text there starts with a non-empty
   * prefix of the stripped anchor (the whole anchor, or its first word).
   */
  lemma {:induction false} FindAnchorMatchesPrefix(fullText: string, anchor: string, startHint: int)
    ensures var p, a := FindAnchor(fullText, anchor, startHint), Strip(anchor);
      p != -1 ==> exists k :: 1 <= k <= |a| && MatchAt(fullText, a[..k], p)
  {
    var p, a := FindAnchor(fullText, anchor, startHint), Strip(anchor);
    if p != -1 {
      var from := Max0(startHint);
      if Find(fullText, a, from) != -1 {
        assert a[..|a|] == a;
        assert MatchAt(fullText, a[..|a|], p);
      } else {
        StripFacts(anchor);
        FirstTokenOfCollapse(a);
        var k := FirstSpace(a);
        assert Split(Collapse(a), ' ')[0] == a[..k];
        assert MatchAt(fullText, a[..k], p);
      }
    }
  }

  // ---------------------------------------------------------------------------
  // page spans
  // ---------------------------------------------------------------------------

  /** Where one page's text lies in the joined text: `[start, end)`. */
  datatype Span = Span(pageNum: int, start: int, end: int)

  /** `int(page.get("page_num", idx + 1) or (idx + 1))`. */
  function PageNumberOf(p: Page, idx: int): int
  {
    if p.pageNum == 0 then idx + 1 else p.pageNum
  }

  /** A page's text with newlines stripped from both ends. */
  function PageBody(p: Page): string
  {
    TrimChars(p.text, {'\n'})
  }

  function Bodies(pages: seq<Page>): (bs: seq<string>)
    ensures |bs| == |pages|
    ensures forall i :: 0 <= i < |pages| ==> bs[i] == PageBody(pages[i])
  {
    seq(|pages|, i requires 0 <= i < |pages| => PageBody(pages[i]))
  }

  /** The page numbers `_iter_page_spans` assigns, in order. */
  function PageNumbers(pages: seq<Page>): (ns: seq<int>)
    ensures |ns| == |pages|
    ensures forall i :: 0 <= i < |pages| ==> ns[i] == PageNumberOf(pages[i], i)
  {
    seq(|pages|, i requires 0 <= i < |pages| => PageNumberOf(pages[i], i))
  }

  /**
   * Where body `i` lands when `bodies` are joined with `sep`: after the
   * earlier bodies and their separators, then `|bodies[i]|` long.
   */
  function SpanAt(bodies: seq<string>, nums: seq<int>, sep: string, i: int): Span
    requires 0 <= i < |bodies| && |nums| == |bodies|
  {
    var start := if i == 0 then 0 else |Join(sep, bodies[..i])| + |sep|;
    Span(nums[i], start, start + |bodies[i]|)
  }

  /** The spans `_iter_page_spans` records for `pages`. */
  function PageSpans(pages: seq<Page>, sep: string): (spans: seq<Span>)
    ensures |spans| == |pages|
  {
    SpansOf(Bodies(pages), PageNumbers(pages), sep)
  }

  /** Every span lies inside `joined` and holds exactly its body. */
  predicate SpansCover(joined: string, spans: seq<Span>, bodies: seq<string>)
    requires |spans| == |bodies|
  {
    forall i :: 0 <= i < |spans| ==>
      0 <= spans[i].start <= spans[i].end <= |joined| && joined[spans[i].start..spans[i].end] == bodies[i]
  }

  /** The first part of a join is a prefix of it. */
  lemma JoinStartsWith(sep: string, parts: seq<string>)
    requires |parts| > 0
    ensures |parts[0]| <= |Join(sep, parts)| && Join(sep, parts)[..|parts[0]|] == parts[0]
  {
  }

  /** Body `i` sits in the joined text exactly where `SpanAt` puts it. */
  lemma JoinedAt(bodies: seq<string>, nums: seq<int>, sep: string, i: int)
    requires 0 <= i < |bodies| && |nums| == |bodies|
    ensures var sp, joined := SpanAt(bodies, nums, sep, i), Join(sep, bodies);
      sp.end <= |joined| && joined[sp.start..sp.end] == bodies[i]
  {
    var joined := Join(sep, bodies);
    if i == 0 {
      JoinStartsWith(sep, bodies);
    } else {
      assert bodies == bodies[..i] + bodies[i..];
      JoinAppend(sep, bodies[..i], bodies[i..]);
      JoinStartsWith(sep, bodies[i..]);
      var off := |Join(sep, bodies[..i])| + |sep|;
      var tail := Join(sep, bodies[i..]);
      assert joined == Join(sep, bodies[..i]) + sep + tail;
      assert joined[off..off + |bodies[i]|] == tail[..|bodies[i]|];
    }
  }

  /** Span `i + 1` starts `|sep|` after span `i` ends. */
  lemma NextSpan(bodies: seq<string>, nums: seq<int>, sep: string, i: int)
    requires 0 <= i && i + 1 < |bodies| && |nums| == |bodies|
    ensures SpanAt(bodies, nums, sep, i + 1).start == SpanAt(bodies, nums, sep, i).end + |sep|
  {
    assert bodies[..i + 1] == bodies[..i] + [bodies[i]];
    if i > 0 {
      JoinSnoc(sep, bodies[..i], bodies[i]);
    }
  }

  /** The last span ends where the joined text ends. */
  lemma LastSpan(bodies: seq<string>, nums: seq<int>, sep: string)
    requires 0 < |bodies| && |nums| == |bodies|
    ensures SpanAt(bodies, nums, sep, |bodies| - 1).end == |Join(sep, bodies)|
  {
    var n := |bodies|;
    if n > 1 {
      assert bodies == bodies[..n - 1] + [bodies[n - 1]];
      JoinSnoc(sep, bodies[..n - 1], bodies[n - 1]);
    }
  }

  /** All spans of `bodies` joined with `sep`, in order. */
  function SpansOf(bodies: seq<string>, nums: seq<int>, sep: string): (spans: seq<Span>)
    requires |nums| == |bodies|
    ensures |spans| == |bodies|
    ensures forall i :: 0 <= i < |bodies| ==> spans[i] == SpanAt(bodies, nums, sep, i)
  {
    seq(|bodies|, i requires 0 <= i < |bodies| => SpanAt(bodies, nums, sep, i))
  }

  /**
   * Each span holds exactly its body, the first starts at 0, consecutive
   * spans are exactly `|sep|` apart and the last ends at the end of the
   * joined text.
   */
  lemma SpansOfFacts(bodies: seq<string>, nums: seq<int>, sep: string)
    requires |nums| == |bodies|
    ensures var joined, spans := Join(sep, bodies), SpansOf(bodies, nums, sep);
      && SpansCover(joined, spans, bodies)
      && (|bodies| > 0 ==> spans[0].start == 0 && spans[|bodies| - 1].end == |joined|)
      && forall i, j :: 0 <= i && j == i + 1 && j < |bodies| ==> spans[j].start == spans[i].end + |sep|
  {
    var spans := SpansOf(bodies, nums, sep);
    forall i | 0 <= i < |bodies|
      ensures 0 <= spans[i].start <= spans[i].end <= |Join(sep, bodies)|
      ensures Join(sep, bodies)[spans[i].start..spans[i].end] == bodies[i]
    {
      JoinedAt(bodies, nums, sep, i);
    }
    forall i, j | 0 <= i && j == i + 1 && j < |bodies|
      ensures spans[j].start == spans[i].end + |sep|
    {
      NextSpan(bodies, nums, sep, i);
    }
    if |bodies| > 0 {
      LastSpan(bodies, nums, sep);
    }
  }

  /**
   * The loop of `_iter_page_spans`, over the page bodies and page numbers it
   * has already computed: the bodies joined with `separator`, each with the
   * span it occupies.
   */
  method JoinWithSpans(bodies: seq<string>, nums: seq<int>, separator: string) returns (joined: string, spans: seq<Span>)
    requires |nums| == |bodies|
    ensures joined == Join(separator, bodies)
    ensures |spans| == |bodies|
    ensures forall i :: 0 <= i < |bodies| ==> spans[i] == SpanAt(bodies, nums, separator, i)
  {
    joined := [];
    spans := [];
    var cursor := 0;
    for idx := 0 to |bodies|
      invariant cursor == |joined|
      invariant joined == Join(separator, bodies[..idx])
      invariant |spans| == idx
      invariant forall i :: 0 <= i < idx ==> spans[i] == SpanAt(bodies, nums, separator, i)
    {
      var pageText := bodies[idx];
      if idx > 0 {
        joined := joined + separator;
        cursor := cursor + |separator|;
      }
      var start := cursor;
      joined := joined + pageText;
      cursor := cursor + |pageText|;
      spans := spans + [Span(nums[idx], start, cursor)];
      assert bodies[..idx + 1] == bodies[..idx] + [pageText];
      if idx > 0 {
        JoinSnoc(separator, bodies[..idx], pageText);
      }
    }
    assert bodies[..|bodies|] == bodies;
  }

  /**
   * `_iter_page_spans`: the pages' bodies joined with `separator`, and for
   * each page its number and the span its body occupies in the joined text.
   * The spans are in page order, the first starts at 0, consecutive spans are
   * exactly `|separator|` apart and the last ends at the end of the text.
   */
  method IterPageSpans(pages: seq<Page>, separator: string) returns (joined: string, spans: seq<Span>)
    ensures joined == Join(separator, Bodies(pages))
    ensures spans == PageSpans(pages, separator)
    ensures forall i :: 0 <= i < |pages| ==> spans[i].pageNum == PageNumberOf(pages[i], i)
    ensures SpansCover(joined, spans, Bodies(pages))
    ensures |pages| > 0 ==> spans[0].start == 0 && spans[|pages| - 1].end == |joined|
    ensures forall i, j :: 0 <= i && j == i + 1 && j < |pages| ==> spans[j].start == spans[i].end + |separator|
  {
    var bodies := Bodies(pages);
    joined, spans := JoinWithSpans(bodies, PageNumbers(pages), separator);
    SpansOfFacts(bodies, PageNumbers(pages), separator);
  }

  // ---------------------------------------------------------------------------
  // character range to pages
  // ---------------------------------------------------------------------------

  /** The span shares at least one character with `[start, end)`. */
  predicate Overlaps(sp: Span, start: int, end: int)
  {
    start < sp.end && end > sp.start
  }

  /** The value of `start_page` after the loop has seen `spans`. */
  function StartScan(spans: seq<Span>, start: int, end: int): int
  {
    if spans == [] then 0
    else
      var acc := StartScan(spans[..|spans| - 1], start, end);
      var sp := spans[|spans| - 1];
      if acc == 0 && Overlaps(sp, start, end) then sp.pageNum else acc
  }

  /** The value of `end_page` after the loop has seen `spans`. */
  function EndScan(spans: seq<Span>, start: int, end: int): int
  {
    if spans == [] then 0
    else
      var sp := spans[|spans| - 1];
      if Overlaps(sp, start, end) then sp.pageNum else EndScan(spans[..|spans| - 1], start, end)
  }

  /** `_pages_for_range` as a value: the scans, then the fallbacks to the first and last page. */
  function PageRange(spans: seq<Span>, start: int, end: int): (int, int)
  {
    var s := StartScan(spans, start, end);
    var e := EndScan(spans, start, end);
    (if s == 0 && spans != [] then spans[0].pageNum else s,
     if e == 0 && spans != [] then spans[|spans| - 1].pageNum else e)
  }

  /** Span `i` is the first one overlapping `[start, end)`. */
  predicate FirstOverlap(spans: seq<Span>, start: int, end: int, i: int)
  {
    0 <= i < |spans| && Overlaps(spans[i], start, end) && forall j :: 0 <= j < i ==> !Overlaps(spans[j], start, end)
  }

  /** Span `i` is the last one overlapping `[start, end)`. */
  predicate LastOverlap(spans: seq<Span>, start: int, end: int, i: int)
  {
    0 <= i < |spans| && Overlaps(spans[i], start, end) && forall j :: i < j < |spans| ==> !Overlaps(spans[j], start, end)
  }

  predicate NonZeroPages(spans: seq<Span>)
  {
    forall i :: 0 <= i < |spans| ==> spans[i].pageNum != 0
  }

  /** With non-zero page numbers, the start scan picks the first overlapping span. */
  lemma {:induction false} StartScanFirst(spans: seq<Span>, start: int, end: int)
    requires NonZeroPages(spans)
    ensures (forall i :: 0 <= i < |spans| ==> !Overlaps(spans[i], start, end)) ==> StartScan(spans, start, end) == 0
    ensures forall i :: FirstOverlap(spans, start, end, i) ==> StartScan(spans, start, end) == spans[i].pageNum
  {
    if spans != [] {
      var init := spans[..|spans| - 1];
      StartScanFirst(init, start, end);
      forall i | FirstOverlap(spans, start, end, i)
        ensures StartScan(spans, start, end) == spans[i].pageNum
      {
        if i < |init| {
          assert init[i] == spans[i];
          assert StartScan(init, start, end) == spans[i].pageNum;
        } else {
          assert forall j :: 0 <= j < |init| ==> !Overlaps(init[j], start, end);
        }
      }
    }
  }

  /** The end scan picks the last overlapping span. */
  lemma {:induction false} EndScanLast(spans: seq<Span>, start: int, end: int)
    ensures (forall i :: 0 <= i < |spans| ==> !Overlaps(spans[i], start, end)) ==> EndScan(spans, start, end) == 0
    ensures forall i :: LastOverlap(spans, start, end, i) ==> EndScan(spans, start, end) == spans[i].pageNum
  {
    if spans != [] {
      var init := spans[..|spans| - 1];
      EndScanLast(init, start, end);
      forall i | LastOverlap(spans, start, end, i)
        ensures EndScan(spans, start, end) == spans[i].pageNum
      {
        if i < |init| {
          assert init[i] == spans[i];
        }
      }
      if forall i :: 0 <= i < |spans| ==> !Overlaps(spans[i], start, end) {
        assert forall j :: 0 <= j < |init| ==> !Overlaps(init[j], start, end);
      }
    }
  }

  /**
   * With no spans the page range is `(0, 0)`; when no span overlaps
   * `[start, end)` it falls back to the first and the last page (page
   * numbers being non-zero, as `_iter_page_spans` produces them).
   */
  lemma PageRangeFallback(spans: seq<Span>, start: int, end: int)
    requires NonZeroPages(spans)
    requires forall i :: 0 <= i < |spans| ==> !Overlaps(spans[i], start, end)
    ensures PageRange(spans, start, end) == if spans == [] then (0, 0) else (spans[0].pageNum, spans[|spans| - 1].pageNum)
  {
    StartScanFirst(spans, start, end);
    EndScanLast(spans, start, end);
  }

  /** With non-zero page numbers, the start page is the page of the first span overlapping `[start, end)`. */
  lemma PageRangeFirst(spans: seq<Span>, start: int, end: int, i: int)
    requires NonZeroPages(spans) && FirstOverlap(spans, start, end, i)
    ensures PageRange(spans, start, end).0 == spans[i].pageNum
  {
    StartScanFirst(spans, start, end);
  }

  /** With non-zero page numbers, the end page is the page of the last span overlapping `[start, end)`. */
  lemma PageRangeLast(spans: seq<Span>, start: int, end: int, i: int)
    requires NonZeroPages(spans) && LastOverlap(spans, start, end, i)
    ensures PageRange(spans, start, end).1 == spans[i].pageNum
  {
    EndScanLast(spans, start, end);
  }

  /** `_pages_for_range`: one pass over the spans, then the fallbacks. */
  method PagesForRange(spans: seq<Span>, start: int, end: int) returns (startPage: int, endPage: int)
    ensures (startPage, endPage) == PageRange(spans, start, end)
  {
    startPage := 0;
    endPage := 0;
    for k := 0 to |spans|
      invariant startPage == StartScan(spans[..k], start, end)
      invariant endPage == EndScan(spans[..k], start, end)
    {
      var span := spans[k];
      assert spans[..k + 1][..k] == spans[..k];
      if startPage == 0 && start < span.end && end > span.start {
        startPage := span.pageNum;
      }
      if start < span.end && end > span.start {
        endPage := span.pageNum;
      }
    }
    assert spans[..|spans|] == spans;
    if startPage == 0 && spans != [] {
      startPage := spans[0].pageNum;
    }
    if endPage == 0 && spans != [] {
      endPage := spans[|spans| - 1].pageNum;
    }
  }

  // ---------------------------------------------------------------------------
  // sliding-window merge
  // ---------------------------------------------------------------------------

  /** `f"{start_idx + 1}-{end_idx}"`. */
  function ContextRange(lo: int, hi: int): string
  {
    IntToString(lo + 1) + "-" + IntToString(hi)
  }

  /** The first original of output `i`: `max(0, i - w)`. */
  function WindowStart(i: int, w: int): nat
  {
    Max0(i - w)
  }

  /** One past the last original of output `i`: `min(n, i + w + 1)`. */
  function WindowEnd(n: int, i: int, w: int): int
  {
    Min(n, i + w + 1)
  }

  /** The metadata of an output with no neighbours: the centre's, with its position and range. */
  function SingleMeta(center: Metadata, i: int, lo: int, hi: int): Metadata
  {
    center + map["context_range" := Str(ContextRange(lo, hi)), "center_section" := Int(i)]
  }

  /**
   * The metadata of an output combining `group`: the centre's, with its
   * title (or ""), the first member's start, the last member's end, its
   * position, its range and the number of members.
   */
  function GroupMeta(center: Metadata, group: seq<Chunk>, i: int, lo: int, hi: int): Metadata
    requires group != []
  {
    center + map[
      "chunk_title" := GetOr(center, "chunk_title", Str("")),
      "start" := GetOr(group[0].metadata, "start", Int(0)),
      "end" := GetOr(group[|group| - 1].metadata, "end", Int(0)),
      "sections_included" := Int(hi - lo),
      "context_range" := Str(ContextRange(lo, hi)),
      "center_section" := Int(i)]
  }

  /** Output `i` of `_merge_adjacent_chunks` for a window of at least 1. */
  function MergedAt(chunks: seq<Chunk>, w: int, i: int): Chunk
    requires 1 <= w && 0 <= i < |chunks|
  {
    var lo, hi := WindowStart(i, w), WindowEnd(|chunks|, i, w);
    var group := chunks[lo..hi];
    if |group| == 1 then Chunk(chunks[i].text, SingleMeta(chunks[i].metadata, i, lo, hi))
    else Chunk(Join(PARAGRAPH, Texts(group)), GroupMeta(chunks[i].metadata, group, i, lo, hi))
  }

  /** The whole result of `_merge_adjacent_chunks`. */
  function Merged(chunks: seq<Chunk>, w: int): seq<Chunk>
  {
    if w < 1 then chunks
    else seq(|chunks|, i requires 0 <= i < |chunks| => MergedAt(chunks, w, i))
  }

  /**
   * `_merge_adjacent_chunks`: with a window below 1 or no chunks the input
   * comes back unchanged; otherwise output `i` is centred on original `i`.
   */
  method MergeAdjacentChunks(chunks: seq<Chunk>, window: int) returns (merged: seq<Chunk>)
    ensures merged == Merged(chunks, window)
    ensures window < 1 || chunks == [] ==> merged == chunks
    ensures |merged| == |chunks|
  {
    if window < 1 || |chunks| == 0 {
      return chunks;
    }
    ghost var target := Merged(chunks, window);
    merged := [];
    for centerIdx := 0 to |chunks|
      invariant merged == target[..centerIdx]
    {
      var c := MergeAround(chunks, window, centerIdx);
      assert c == target[centerIdx];
      PrefixSnoc(target, centerIdx);
      merged := merged + [c];
    }
    assert target[..|chunks|] == target;
  }

  /** The body of the merge loop: the output centred on original `centerIdx`. */
  method MergeAround(chunks: seq<Chunk>, window: int, centerIdx: int) returns (c: Chunk)
    requires 1 <= window && 0 <= centerIdx < |chunks|
    ensures c == MergedAt(chunks, window, centerIdx)
  {
    var startIdx := Max0(centerIdx - window);
    var endIdx := Min(|chunks|, centerIdx + window + 1);
    var group := chunks[startIdx..endIdx];
    var center := chunks[centerIdx];
    if |group| == 1 {
      c := Chunk(center.text, SingleMeta(center.metadata, centerIdx, startIdx, endIdx));
    } else {
      var combined := Join(PARAGRAPH, Texts(group));
      c := Chunk(combined, GroupMeta(center.metadata, group, centerIdx, startIdx, endIdx));
    }
  }


  /** Each part of a join occurs in the joined text. */
  lemma {:induction false} JoinContainsPart(sep: string, parts: seq<string>, k: int)
    requires 0 <= k < |parts|
    ensures exists i :: MatchAt(Join(sep, parts), parts[k], i)
  {
    if |parts| == 1 {
      assert MatchAt(Join(sep, parts), parts[k], 0);
    } else if k == 0 {
      assert Join(sep, parts)[..|parts[0]|] == parts[0];
      assert MatchAt(Join(sep, parts), parts[k], 0);
    } else {
      JoinContainsPart(sep, parts[1..], k - 1);
      var i :| MatchAt(Join(sep, parts[1..]), parts[1..][k - 1], i);
      var off := |parts[0]| + |sep|;
      var whole := Join(sep, parts);
      assert whole == parts[0] + sep + Join(sep, parts[1..]);
      assert whole[off + i..off + i + |parts[k]|] == Join(sep, parts[1..])[i..i + |parts[k]|];
      assert MatchAt(whole, parts[k], off + i);
    }
  }

  /**
   * The window of output `i` holds original `i` and `w` neighbours on each
   * side, fewer only where the list ends.
   */
  lemma WindowFacts(n: int, w: int, i: int)
    requires 1 <= w && 0 <= i < n
    ensures WindowStart(i, w) <= i < WindowEnd(n, i, w) <= n
    ensures i - WindowStart(i, w) <= w && WindowEnd(n, i, w) - i - 1 <= w
    ensures WindowStart(i, w) > 0 ==> i - WindowStart(i, w) == w
    ensures WindowEnd(n, i, w) < n ==> WindowEnd(n, i, w) - i - 1 == w
  {
  }

  /** The text of output `i` is the `"\n\n"`-join of the originals in its window. */
  lemma MergedAtText(chunks: seq<Chunk>, w: int, i: int)
    requires 1 <= w && 0 <= i < |chunks|
    ensures MergedAt(chunks, w, i).text == Join(PARAGRAPH, Texts(chunks[WindowStart(i, w)..WindowEnd(|chunks|, i, w)]))
  {
    var lo, hi := WindowStart(i, w), WindowEnd(|chunks|, i, w);
    if hi - lo == 1 {
      assert Texts(chunks[lo..hi]) == [chunks[i].text];
    }
  }

  /**
   * Output `i` records its centre and the one-based range of its window,
   * and the number of originals when there is more than one.
   */
  lemma MergedAtMeta(chunks: seq<Chunk>, w: int, i: int)
    requires 1 <= w && 0 <= i < |chunks|
    ensures MergedAt(chunks, w, i).metadata["center_section"] == Int(i)
    ensures MergedAt(chunks, w, i).metadata["context_range"] == Str(ContextRange(WindowStart(i, w), WindowEnd(|chunks|, i, w)))
    ensures WindowEnd(|chunks|, i, w) - WindowStart(i, w) > 1 ==>
      MergedAt(chunks, w, i).metadata["sections_included"] == Int(WindowEnd(|chunks|, i, w) - WindowStart(i, w))
  {
  }

  /** The text of every original in `chunks[lo..hi]` occurs in their join. */
  lemma JoinedWindowContains(chunks: seq<Chunk>, lo: int, hi: int)
    requires 0 <= lo <= hi <= |chunks|
    ensures forall k :: lo <= k < hi ==> Contains(Join(PARAGRAPH, Texts(chunks[lo..hi])), chunks[k].text)
  {
    var ts := Texts(chunks[lo..hi]);
    forall k | lo <= k < hi
      ensures Contains(Join(PARAGRAPH, ts), chunks[k].text)
    {
      assert ts[k - lo] == chunks[k].text;
      JoinContainsPart(PARAGRAPH, ts, k - lo);
      ContainsMeans(Join(PARAGRAPH, ts), chunks[k].text);
    }
  }

  /** The text of every original in the window of output `i` occurs in it. */
  lemma MergedAtContains(chunks: seq<Chunk>, w: int, i: int)
    requires 1 <= w && 0 <= i < |chunks|
    ensures forall k :: WindowStart(i, w) <= k < WindowEnd(|chunks|, i, w) ==> Contains(MergedAt(chunks, w, i).text, chunks[k].text)
  {
    WindowFacts(|chunks|, w, i);
    MergedAtText(chunks, w, i);
    JoinedWindowContains(chunks, WindowStart(i, w), WindowEnd(|chunks|, i, w));
  }

  /** With a window of at least 1, two neighbouring outputs share both their originals. */
  lemma NeighboursOverlap(chunks: seq<Chunk>, w: int, i: int)
    requires 1 <= w && 0 <= i && i + 1 < |chunks|
    ensures Contains(MergedAt(chunks, w, i).text, chunks[i + 1].text)
    ensures Contains(MergedAt(chunks, w, i + 1).text, chunks[i].text)
  {
    assert WindowStart(i, w) <= i + 1 < WindowEnd(|chunks|, i, w);
    assert WindowStart(i + 1, w) <= i < WindowEnd(|chunks|, i + 1, w);
    MergedAtContains(chunks, w, i);
    MergedAtContains(chunks, w, i + 1);
  }

  /** The metadata keys the merge may add. */
  const MERGE_KEYS: set<string> := {"chunk_title", "start", "end", "center_section", "context_range", "sections_included"}

  /** Output `i` keeps every key of its centre's metadata and adds only the merge's own keys. */
  lemma MergedAtKeys(chunks: seq<Chunk>, w: int, i: int)
    requires 1 <= w && 0 <= i < |chunks|
    ensures chunks[i].metadata.Keys <= MergedAt(chunks, w, i).metadata.Keys <= chunks[i].metadata.Keys + MERGE_KEYS
  {
  }

  /** Joining a non-empty run of non-empty stripped texts gives a non-empty stripped text. */
  lemma JoinedWindowClean(chunks: seq<Chunk>, lo: int, hi: int)
    requires 0 <= lo < hi <= |chunks| && CleanTexts(chunks)
    ensures Join(PARAGRAPH, Texts(chunks[lo..hi])) != [] && IsStripped(Join(PARAGRAPH, Texts(chunks[lo..hi])))
  {
    var ts := Texts(chunks[lo..hi]);
    assert forall k :: 0 <= k < |ts| ==> ts[k] == chunks[lo + k].text;
    JoinClean(PARAGRAPH, ts);
  }

  /** The text of output `i` is non-empty and stripped when the originals' are. */
  lemma MergedAtClean(chunks: seq<Chunk>, w: int, i: int)
    requires 1 <= w && 0 <= i < |chunks| && CleanTexts(chunks)
    ensures MergedAt(chunks, w, i).text != [] && IsStripped(MergedAt(chunks, w, i).text)
  {
    WindowFacts(|chunks|, w, i);
    MergedAtText(chunks, w, i);
    JoinedWindowClean(chunks, WindowStart(i, w), WindowEnd(|chunks|, i, w));
  }

  /** Merging keeps chunks non-empty and stripped: a join of such texts is such a text. */
  lemma MergedClean(chunks: seq<Chunk>, w: int)
    requires 1 <= w && CleanTexts(chunks)
    ensures CleanTexts(Merged(chunks, w))
  {
    var r := Merged(chunks, w);
    forall i | 0 <= i < |chunks|
      ensures r[i].text != [] && IsStripped(r[i].text)
    {
      MergedAtClean(chunks, w, i);
    }
  }

  /** Merging keeps every key of each centre's metadata and adds only the merge's own keys. */
  lemma MergedKeys(chunks: seq<Chunk>, w: int)
    requires 1 <= w
    ensures |Merged(chunks, w)| == |chunks|
    ensures forall i :: 0 <= i < |chunks| ==>
      chunks[i].metadata.Keys <= Merged(chunks, w)[i].metadata.Keys <= chunks[i].metadata.Keys + MERGE_KEYS
  {
    var r := Merged(chunks, w);
    forall i | 0 <= i < |chunks|
      ensures chunks[i].metadata.Keys <= r[i].metadata.Keys <= chunks[i].metadata.Keys + MERGE_KEYS
    {
      MergedAtKeys(chunks, w, i);
    }
  }

  /** The worked example of the merge's documentation: seven chunks, window 2. */
  lemma MergeWindowExample()
    ensures forall i :: 0 <= i < 7 ==>
      (WindowStart(i, 2), WindowEnd(7, i, 2)) == [(0, 3), (0, 4), (0, 5), (1, 6), (2, 7), (3, 7), (4, 7)][i]
  {
  }
}
