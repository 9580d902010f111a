/**
 * `AgenticDocumentChunker`: cutting a text between the section anchors an
 * LLM analysis names, the recursive-splitter fallback, the optional merge,
 * and the index and page metadata written onto the chunks. The analysis
 * (LLM call plus its cache) and the fallback splitter are parameters.
 */
module AgenticChunker {
  import opened Base
  import opened Text
  import opened Docs
  import opened Agentic

  /**
   * One entry of the analysis' `sections` list: something that is not a
   * dict, or a dict with its `anchor_text` (None when missing or not a string)
   * and its `topic` as `str()` gives it ("" when missing).
   */
  datatype SectionItem = NotAnObject | Section(anchor: Option<string>, topic: string)

  /** The analysis reply: its `sections` entry when that is a list (a missing entry reads as the empty list). */
  datatype Analysis = Analysis(sections: Option<seq<SectionItem>>)

  /** A found anchor: where its section starts and the section's stripped topic. */
  datatype Boundary = Boundary(pos: nat, title: string)

  // ---------------------------------------------------------------------------
  // boundaries
  // ---------------------------------------------------------------------------

  /**
   * The boundaries the anchor loop collects from `items` when the previous
   * anchor was found at `last`: each anchor is searched from the previous
   * one's position, and the ones not found are skipped.
   */
  function Anchors(text: string, items: seq<SectionItem>, last: int): seq<Boundary>
    decreases |items|
  {
    if items == [] then []
    else
      match items[0]
      case Section(Some(anchor), topic) =>
        var pos := FindAnchor(text, anchor, last);
        if pos == -1 then Anchors(text, items[1..], last)
        else [Boundary(pos, Strip(topic))] + Anchors(text, items[1..], pos)
      case _ => Anchors(text, items[1..], last)
  }

  /** Positions never decrease along the list. */
  predicate Ordered(bs: seq<Boundary>)
  {
    forall i, j :: 0 <= i < j < |bs| ==> bs[i].pos <= bs[j].pos
  }

  /** Every position is inside the text (or at its end). */
  predicate Within(text: string, bs: seq<Boundary>)
  {
    forall i :: 0 <= i < |bs| ==> bs[i].pos <= |text|
  }

  /** The anchor loop of `_build_chunks_from_sections`. */
  method FindBoundaries(text: string, items: seq<SectionItem>) returns (boundaries: seq<Boundary>)
    ensures boundaries == Anchors(text, items, 0)
  {
    boundaries := [];
    var lastPos := 0;
    for k := 0 to |items|
      invariant boundaries + Anchors(text, items[k..], lastPos) == Anchors(text, items, 0)
    {
      assert items[k..][1..] == items[k + 1..];
      match items[k]
      case NotAnObject =>
      case Section(anchor, topic) =>
        if anchor.Some? {
          var pos := FindAnchor(text, anchor.value, lastPos);
          if pos != -1 {
            boundaries := boundaries + [Boundary(pos, Strip(topic))];
            lastPos := pos;
          }
        }
    }
    assert items[|items|..] == [];
  }

  /**
   * Because each search starts at the previous hit, the found positions are
   * in order, none is before the starting hint and none is past the text.
   */
  lemma {:induction false} AnchorsOrdered(text: string, items: seq<SectionItem>, last: int)
    ensures Ordered(Anchors(text, items, last)) && Within(text, Anchors(text, items, last))
    ensures forall i :: 0 <= i < |Anchors(text, items, last)| ==> Max0(last) <= Anchors(text, items, last)[i].pos
    decreases |items|
  {
    if items != [] {
      match items[0]
      case Section(Some(anchor), topic) =>
        var pos := FindAnchor(text, anchor, last);
        if pos == -1 {
          AnchorsOrdered(text, items[1..], last);
        } else {
          var rest := Anchors(text, items[1..], pos);
          AnchorsOrdered(text, items[1..], pos);
          assert Anchors(text, items, last) == [Boundary(pos, Strip(topic))] + rest;
          BoundaryCons(text, Boundary(pos, Strip(topic)), rest);
        }
      case _ =>
        AnchorsOrdered(text, items[1..], last);
    }
  }

  /** A boundary inside the text and before every boundary of an ordered list inside the text can go in front. */
  lemma BoundaryCons(text: string, b: Boundary, rest: seq<Boundary>)
    requires b.pos <= |text| && Ordered(rest) && Within(text, rest)
    requires forall i :: 0 <= i < |rest| ==> b.pos <= rest[i].pos
    ensures Ordered([b] + rest) && Within(text, [b] + rest)
  {
    var bs := [b] + rest;
    forall i, j | 0 <= i < j < |bs|
      ensures bs[i].pos <= bs[j].pos
    {
      assert bs[j] == rest[j - 1];
      if i > 0 {
        assert bs[i] == rest[i - 1];
      }
    }
  }


  /**
   * `sorted(set(boundaries), key=pos)` on a list already in position order:
   * each distinct (position, topic) pair once, in the order first seen.
   */
  function Dedup(bs: seq<Boundary>): (d: seq<Boundary>)
    ensures |d| <= |bs|
    ensures bs != [] ==> d != []
  {
    if bs == [] then []
    else
      var d := Dedup(bs[..|bs| - 1]);
      var b := bs[|bs| - 1];
      if b in d then d else d + [b]
  }

  /** `Dedup` keeps exactly the elements of its input, each once. */
  lemma {:induction false} DedupElements(bs: seq<Boundary>)
    ensures forall b :: b in Dedup(bs) <==> b in bs
    ensures forall i, j :: 0 <= i < j < |Dedup(bs)| ==> Dedup(bs)[i] != Dedup(bs)[j]
  {
    if bs != [] {
      var init := bs[..|bs| - 1];
      DedupElements(init);
      assert bs == init + [bs[|bs| - 1]];
    }
  }

  /** Deduplicating an ordered list keeps it ordered and keeps its first element. */
  lemma {:induction false} DedupOrdered(bs: seq<Boundary>)
    requires Ordered(bs)
    ensures Ordered(Dedup(bs))
  {
    if bs != [] {
      var init := bs[..|bs| - 1];
      var b := bs[|bs| - 1];
      DedupOrdered(init);
      DedupElements(init);
      var d := Dedup(init);
      if b !in d {
        forall i | 0 <= i < |d|
          ensures d[i].pos <= b.pos
        {
          var k := Position(init, d[i]);
          assert bs[k] == d[i];
        }
        OrderedSnoc(d, b);
      }
    }
  }

  /** A boundary after every boundary of an ordered list can go at its end. */
  lemma OrderedSnoc(d: seq<Boundary>, b: Boundary)
    requires Ordered(d) && forall i :: 0 <= i < |d| ==> d[i].pos <= b.pos
    ensures Ordered(d + [b])
  {
  }

  /** Deduplication keeps the first boundary first. */
  lemma {:induction false} DedupFirst(bs: seq<Boundary>)
    requires bs != []
    ensures Dedup(bs)[0] == bs[0]
  {
    var init := bs[..|bs| - 1];
    if init != [] {
      DedupFirst(init);
      assert init[0] == bs[0];
    }
  }


  // ---------------------------------------------------------------------------
  // cutting between boundaries
  // ---------------------------------------------------------------------------

  /** Where section `i` ends: at the next boundary, or at the end of the text. */
  function SectionEnd(text: string, bs: seq<Boundary>, i: int): nat
    requires 0 <= i < |bs|
  {
    if i + 1 < |bs| then bs[i + 1].pos else |text|
  }

  /** A section chunk's metadata: the base metadata with its offsets and its title (`None` for an empty topic). */
  function SectionMeta(metadata: Metadata, pos: int, end: int, title: string): Metadata
  {
    metadata + map["start" := Int(pos), "end" := Int(end), "chunk_title" := if title != [] then Str(title) else Null]
  }

  /** A section chunk's metadata adds `start`, `end` and `chunk_title` to the base and keeps every other base entry. */
  lemma SectionMetaFacts(metadata: Metadata, pos: int, end: int, title: string)
    ensures SectionMeta(metadata, pos, end, title).Keys == metadata.Keys + {"start", "end", "chunk_title"}
    ensures SectionMeta(metadata, pos, end, title)["start"] == Int(pos)
    ensures SectionMeta(metadata, pos, end, title)["end"] == Int(end)
    ensures SectionMeta(metadata, pos, end, title)["chunk_title"] == (if title != [] then Str(title) else Null)
    ensures forall k :: k in metadata && k !in {"start", "end", "chunk_title"} ==> SectionMeta(metadata, pos, end, title)[k] == metadata[k]
  {
  }

  /** The offsets a section chunk's metadata records. */
  lemma SectionMetaOffsets(metadata: Metadata, pos: int, end: int, title: string)
    ensures IntOrZero(SectionMeta(metadata, pos, end, title), "start") == pos
    ensures IntOrZero(SectionMeta(metadata, pos, end, title), "end") == end
  {
  }

  /** Section `i` as a candidate chunk: the stripped stretch up to the next boundary, with its offsets and title. */
  function Candidate(text: string, bs: seq<Boundary>, metadata: Metadata, i: int): Chunk
    requires 0 <= i < |bs|
  {
    var pos, end := bs[i].pos, SectionEnd(text, bs, i);
    Chunk(Strip(PySlice(text, pos, end)), SectionMeta(metadata, pos, end, bs[i].title))
  }

  /** Every section as a candidate chunk, in boundary order. */
  function Candidates(text: string, bs: seq<Boundary>, metadata: Metadata): (cands: seq<Chunk>)
    ensures |cands| == |bs|
    ensures forall i :: 0 <= i < |bs| ==> cands[i] == Candidate(text, bs, metadata, i)
  {
    seq(|bs|, i requires 0 <= i < |bs| => Candidate(text, bs, metadata, i))
  }

  /** The non-blank sections of `_build_chunks_from_sections`, in boundary order. */
  function SectionChunks(text: string, bs: seq<Boundary>, metadata: Metadata): seq<Chunk>
  {
    NonEmpty(Candidates(text, bs, metadata), |bs|)
  }

  /** The intro chunk: the text before a first section that starts after offset 50, unless it is blank. */
  function IntroChunk(text: string, bs: seq<Boundary>, metadata: Metadata): seq<Chunk>
    requires bs != []
  {
    var first := bs[0].pos;
    var t := Strip(PySlice(text, 0, first));
    if first > INTRO_THRESHOLD && t != [] then
      [Chunk(t, metadata + map["start" := Int(0), "end" := Int(first), "chunk_title" := Null])]
    else []
  }

  /** `_build_chunks_from_sections` as a value. */
  function ChunksFromSections(text: string, analysis: Analysis, metadata: Metadata): seq<Chunk>
  {
    match analysis.sections
    case None => []
    case Some(items) =>
      if |items| < 2 then []
      else
        var found := Anchors(text, items, 0);
        if |found| < 2 then []
        else
          var bs := Dedup(found);
          IntroChunk(text, bs, metadata) + SectionChunks(text, bs, metadata)
  }

  /**
   * `_build_chunks_from_sections`: nothing unless the analysis lists at least
   * two sections and at least two anchors are found; otherwise the optional
   * intro chunk and one chunk per section whose stretch is not blank.
   */
  method BuildChunksFromSections(text: string, analysis: Analysis, metadata: Metadata) returns (chunks: seq<Chunk>)
    ensures chunks == ChunksFromSections(text, analysis, metadata)
  {
    if analysis.sections.None? {
      return [];
    }
    var items := analysis.sections.value;
    if |items| < 2 {
      return [];
    }
    var found := FindBoundaries(text, items);
    if |found| < 2 {
      return [];
    }
    var boundaries := Dedup(found);
    var intro := [];
    var first := boundaries[0].pos;
    if first > INTRO_THRESHOLD {
      var introText := Strip(PySlice(text, 0, first));
      if introText != [] {
        intro := [Chunk(introText, metadata + map["start" := Int(0), "end" := Int(first), "chunk_title" := Null])];
      }
    }
    var sections := CutSections(text, boundaries, metadata);
    chunks := intro + sections;
  }

  /** The section loop of `_build_chunks_from_sections`: one chunk per boundary whose stretch is not blank. */
  method CutSections(text: string, boundaries: seq<Boundary>, metadata: Metadata) returns (chunks: seq<Chunk>)
    ensures chunks == SectionChunks(text, boundaries, metadata)
  {
    ghost var cands := Candidates(text, boundaries, metadata);
    chunks := [];
    for i := 0 to |boundaries|
      invariant chunks == NonEmpty(cands, i)
    {
      var c := CutSection(text, boundaries, metadata, i);
      NonEmptyStep(cands, i, chunks, c);
      if c.text != [] {
        chunks := chunks + [c];
      }
    }
  }

  /** The body of the cutting loop: the stripped text of section `i` with its offsets and title. */
  method CutSection(text: string, boundaries: seq<Boundary>, metadata: Metadata, i: int) returns (c: Chunk)
    requires 0 <= i < |boundaries|
    ensures c == Candidate(text, boundaries, metadata, i)
  {
    var pos := boundaries[i].pos;
    var title := boundaries[i].title;
    var end := SectionEnd(text, boundaries, i);
    var chunkText := Strip(PySlice(text, pos, end));
    c := Chunk(chunkText, SectionMeta(metadata, pos, end, title));
  }


  // ---------------------------------------------------------------------------
  // what the cut guarantees
  // ---------------------------------------------------------------------------

  /** The `start` offset a chunk records (`get("start", 0) or 0`). */
  function StartOf(c: Chunk): int
  {
    IntOrZero(c.metadata, "start")
  }

  /** The `end` offset a chunk records. */
  function EndOf(c: Chunk): int
  {
    IntOrZero(c.metadata, "end")
  }

  /** The chunk's text is the stripped stretch of `text` between the offsets it records. */
  predicate CutFrom(text: string, c: Chunk)
  {
    0 <= StartOf(c) <= EndOf(c) <= |text| && c.text == Strip(text[StartOf(c)..EndOf(c)])
  }

  /** Each chunk ends before the next one starts. */
  ghost predicate InOrder(chunks: seq<Chunk>)
  {
    forall i, j :: 0 <= i && j == i + 1 && j < |chunks| ==> EndOf(chunks[i]) <= StartOf(chunks[j])
  }

  /** Every non-whitespace character of `text` in `[from, to)` lies in the recorded range of some chunk. */
  ghost predicate Covers(text: string, chunks: seq<Chunk>, from: int, to: int)
  {
    forall p :: from <= p < to && 0 <= p < |text| && !IsSpace(text[p]) ==>
      exists k :: 0 <= k < |chunks| && StartOf(chunks[k]) <= p < EndOf(chunks[k])
  }

  /** Candidate `i` records its section's offsets. */
  lemma CandidateOffsets(text: string, bs: seq<Boundary>, metadata: Metadata, i: int)
    requires 0 <= i < |bs|
    ensures StartOf(Candidate(text, bs, metadata, i)) == bs[i].pos
    ensures EndOf(Candidate(text, bs, metadata, i)) == SectionEnd(text, bs, i)
  {
    SectionMetaOffsets(metadata, bs[i].pos, SectionEnd(text, bs, i), bs[i].title);
  }

  /** Candidate `i` is cut from `[bs[i].pos, SectionEnd)` and stripped; it is empty only when that stretch is blank. */
  lemma CandidateFacts(text: string, bs: seq<Boundary>, metadata: Metadata, i: int)
    requires Ordered(bs) && Within(text, bs) && 0 <= i < |bs|
    ensures bs[i].pos <= SectionEnd(text, bs, i) <= |text|
    ensures StartOf(Candidate(text, bs, metadata, i)) == bs[i].pos
    ensures EndOf(Candidate(text, bs, metadata, i)) == SectionEnd(text, bs, i)
    ensures CutFrom(text, Candidate(text, bs, metadata, i)) && IsStripped(Candidate(text, bs, metadata, i).text)
    ensures Candidate(text, bs, metadata, i).text == [] ==> forall p :: bs[i].pos <= p < SectionEnd(text, bs, i) ==> IsSpace(text[p])
  {
    var pos, end := bs[i].pos, SectionEnd(text, bs, i);
    assert pos <= end <= |text|;
    CandidateOffsets(text, bs, metadata, i);
    StrippedSlice(text, pos, end);
  }

  /** The stripped slice `[pos, end)` of `text` is stripped, and empty only when that stretch is blank. */
  lemma StrippedSlice(text: string, pos: int, end: int)
    requires 0 <= pos <= end <= |text|
    ensures PySlice(text, pos, end) == text[pos..end]
    ensures IsStripped(Strip(text[pos..end]))
    ensures Strip(text[pos..end]) == [] ==> forall p :: pos <= p < end ==> IsSpace(text[p])
  {
    var slice := text[pos..end];
    StripFacts(slice);
    forall p | pos <= p < end && Strip(slice) == []
      ensures IsSpace(text[p])
    {
      assert slice[p - pos] == text[p];
    }
  }

  /** The section whose stretch holds offset `p`: the last boundary at or before `p`, searching from `i`. */
  function SectionOf(bs: seq<Boundary>, p: int, i: nat): (r: nat)
    requires i < |bs| && bs[i].pos <= p
    ensures i <= r < |bs| && bs[r].pos <= p && (r + 1 < |bs| ==> p < bs[r + 1].pos)
    decreases |bs| - i
  {
    if i + 1 < |bs| && bs[i + 1].pos <= p then SectionOf(bs, p, i + 1) else i
  }

  /** The section chunks are non-empty, stripped, and cut from the text at or after the first boundary. */
  lemma SectionChunksClean(text: string, bs: seq<Boundary>, metadata: Metadata)
    requires Ordered(bs) && Within(text, bs) && bs != []
    ensures CleanTexts(SectionChunks(text, bs, metadata))
    ensures forall j :: 0 <= j < |SectionChunks(text, bs, metadata)| ==>
      CutFrom(text, SectionChunks(text, bs, metadata)[j]) && bs[0].pos <= StartOf(SectionChunks(text, bs, metadata)[j])
  {
    var cands := Candidates(text, bs, metadata);
    var r, ix := NonEmpty(cands, |bs|), Kept(cands, |bs|);
    KeptFacts(cands, |bs|);
    forall j | 0 <= j < |r|
      ensures r[j].text != [] && IsStripped(r[j].text) && CutFrom(text, r[j]) && bs[0].pos <= StartOf(r[j])
    {
      CandidateFacts(text, bs, metadata, ix[j]);
    }
  }

  /** Filtering keeps the order: if any two candidates are in text order, so is what `NonEmpty` keeps. */
  lemma NonEmptyInOrder(cands: seq<Chunk>, k: int)
    requires 0 <= k <= |cands|
    requires forall a, b :: 0 <= a < b < k ==> EndOf(cands[a]) <= StartOf(cands[b])
    ensures InOrder(NonEmpty(cands, k))
  {
    var r, ix := NonEmpty(cands, k), Kept(cands, k);
    KeptFacts(cands, k);
    forall i, j | 0 <= i && j == i + 1 && j < |r|
      ensures EndOf(r[i]) <= StartOf(r[j])
    {
      assert ix[i] < ix[j];
    }
  }

  /** Each section chunk ends where a later boundary starts, so the chunks are in text order. */
  lemma SectionChunksInOrder(text: string, bs: seq<Boundary>, metadata: Metadata)
    requires Ordered(bs)
    ensures InOrder(SectionChunks(text, bs, metadata))
  {
    CandidatesInOrder(text, bs, metadata);
    NonEmptyInOrder(Candidates(text, bs, metadata), |bs|);
  }

  /** Each candidate ends before any later one starts. */
  lemma CandidatesInOrder(text: string, bs: seq<Boundary>, metadata: Metadata)
    requires Ordered(bs)
    ensures forall a, b :: 0 <= a < b < |bs| ==>
      EndOf(Candidates(text, bs, metadata)[a]) <= StartOf(Candidates(text, bs, metadata)[b])
  {
    var cands := Candidates(text, bs, metadata);
    forall a, b | 0 <= a < b < |bs|
      ensures EndOf(cands[a]) <= StartOf(cands[b])
    {
      CandidateBefore(text, bs, metadata, a, b);
    }
  }

  /** Candidate `a` ends before candidate `b` starts when `a < b`. */
  lemma CandidateBefore(text: string, bs: seq<Boundary>, metadata: Metadata, a: int, b: int)
    requires Ordered(bs) && 0 <= a < b < |bs|
    ensures EndOf(Candidate(text, bs, metadata, a)) <= StartOf(Candidate(text, bs, metadata, b))
  {
    CandidateOffsets(text, bs, metadata, a);
    CandidateOffsets(text, bs, metadata, b);
    assert bs[a + 1].pos <= bs[b].pos;
  }


  /** Filtering loses no cover: a character inside a kept candidate's range is inside some kept chunk's. */
  lemma NonEmptyCovers(text: string, cands: seq<Chunk>, k: int, from: int, to: int)
    requires 0 <= k <= |cands|
    requires forall p :: from <= p < to && 0 <= p < |text| && !IsSpace(text[p]) ==>
      exists i :: 0 <= i < k && cands[i].text != [] && StartOf(cands[i]) <= p < EndOf(cands[i])
    ensures Covers(text, NonEmpty(cands, k), from, to)
  {
    var r, ix := NonEmpty(cands, k), Kept(cands, k);
    KeptFacts(cands, k);
    forall p | from <= p < to && 0 <= p < |text| && !IsSpace(text[p])
      ensures exists j :: 0 <= j < |r| && StartOf(r[j]) <= p < EndOf(r[j])
    {
      var i :| 0 <= i < k && cands[i].text != [] && StartOf(cands[i]) <= p < EndOf(cands[i]);
      var j :| 0 <= j < |ix| && ix[j] == i;
      assert r[j] == cands[i];
    }
  }

  /** Every non-whitespace character from the first boundary on lies in some section chunk. */
  lemma SectionChunksCover(text: string, bs: seq<Boundary>, metadata: Metadata)
    requires Ordered(bs) && Within(text, bs) && bs != []
    ensures Covers(text, SectionChunks(text, bs, metadata), bs[0].pos, |text|)
  {
    var cands := Candidates(text, bs, metadata);
    forall p | bs[0].pos <= p < |text| && 0 <= p < |text| && !IsSpace(text[p])
      ensures exists i :: 0 <= i < |bs| && cands[i].text != [] && StartOf(cands[i]) <= p < EndOf(cands[i])
    {
      var i := SectionOf(bs, p, 0);
      CandidateFacts(text, bs, metadata, i);
      assert cands[i].text != [] && StartOf(cands[i]) <= p < EndOf(cands[i]);
    }
    NonEmptyCovers(text, cands, |bs|, bs[0].pos, |text|);
  }

  /** Two lists in text order, the first ending before the second starts, are in text order together. */
  lemma InOrderAppend(x: seq<Chunk>, y: seq<Chunk>)
    requires InOrder(x) && InOrder(y)
    requires x != [] && y != [] ==> EndOf(x[|x| - 1]) <= StartOf(y[0])
    ensures InOrder(x + y)
  {
    var r := x + y;
    forall i, j | 0 <= i && j == i + 1 && j < |r|
      ensures EndOf(r[i]) <= StartOf(r[j])
    {
      if i < |x| - 1 {
        assert r[i] == x[i] && r[j] == x[j];
      } else if i == |x| - 1 {
        assert r[i] == x[i] && r[j] == y[0];
      } else {
        assert r[i] == y[i - |x|] && r[j] == y[j - |x|];
      }
    }
  }

  /** Cover of `[a, b)` by `x` and of `[b, c)` by `y` is cover of `[a, c)` by `x + y`. */
  lemma CoversAppend(text: string, x: seq<Chunk>, y: seq<Chunk>, a: int, b: int, c: int)
    requires Covers(text, x, a, b) && Covers(text, y, b, c)
    ensures Covers(text, x + y, a, c)
  {
    var r := x + y;
    forall p | a <= p < c && 0 <= p < |text| && !IsSpace(text[p])
      ensures exists k :: 0 <= k < |r| && StartOf(r[k]) <= p < EndOf(r[k])
    {
      if p < b {
        var k :| 0 <= k < |x| && StartOf(x[k]) <= p < EndOf(x[k]);
        assert r[k] == x[k];
      } else {
        var k :| 0 <= k < |y| && StartOf(y[k]) <= p < EndOf(y[k]);
        assert r[|x| + k] == y[k];
      }
    }
  }

  /**
   * The properties of `_build_chunks_from_sections`: no chunk unless there
   * are at least two sections and two anchors are found; every chunk is
   * non-empty, stripped, and the stripped stretch between the offsets it
   * records; and the chunks are in text order.
   */
  lemma ChunksFromSectionsFacts(text: string, analysis: Analysis, metadata: Metadata)
    ensures ChunksFromSections(text, analysis, metadata) != [] ==>
      analysis.sections.Some? && |analysis.sections.value| >= 2 && |Anchors(text, analysis.sections.value, 0)| >= 2
    ensures CleanTexts(ChunksFromSections(text, analysis, metadata))
    ensures InOrder(ChunksFromSections(text, analysis, metadata))
    ensures forall j :: 0 <= j < |ChunksFromSections(text, analysis, metadata)| ==>
      CutFrom(text, ChunksFromSections(text, analysis, metadata)[j])
  {
    if analysis.sections.Some? && |analysis.sections.value| >= 2 {
      var found := Anchors(text, analysis.sections.value, 0);
      if |found| >= 2 {
        AnchorsOrdered(text, analysis.sections.value, 0);
        CutClean(text, found, metadata);
      }
    }
  }

  /**
   * Every non-whitespace character from the first anchor found on lies in
   * some chunk, and so does every one before it when that anchor is past
   * offset 50 (through the intro chunk); when it is at offset 50 or earlier,
   * no chunk starts before it.
   */
  lemma ChunksFromSectionsCover(text: string, analysis: Analysis, metadata: Metadata)
    requires analysis.sections.Some?
    requires |analysis.sections.value| >= 2 && |Anchors(text, analysis.sections.value, 0)| >= 2
    ensures Covers(text, ChunksFromSections(text, analysis, metadata),
      if Anchors(text, analysis.sections.value, 0)[0].pos > INTRO_THRESHOLD then 0 else Anchors(text, analysis.sections.value, 0)[0].pos, |text|)
    ensures Anchors(text, analysis.sections.value, 0)[0].pos <= INTRO_THRESHOLD ==>
      forall j :: 0 <= j < |ChunksFromSections(text, analysis, metadata)| ==>
        Anchors(text, analysis.sections.value, 0)[0].pos <= StartOf(ChunksFromSections(text, analysis, metadata)[j])
  {
    var found := Anchors(text, analysis.sections.value, 0);
    AnchorsOrdered(text, analysis.sections.value, 0);
    CutCovers(text, found, metadata);
    DedupWithin(text, found);
    SectionChunksClean(text, Dedup(found), metadata);
  }

  /**
   * There is at most one intro chunk, none when the first boundary is at
   * offset 50 or earlier, and it records the offsets 0 and the first
   * boundary.
   */
  lemma IntroShape(text: string, bs: seq<Boundary>, metadata: Metadata)
    requires bs != []
    ensures |IntroChunk(text, bs, metadata)| <= 1
    ensures bs[0].pos <= INTRO_THRESHOLD ==> IntroChunk(text, bs, metadata) == []
    ensures IntroChunk(text, bs, metadata) != [] ==>
      StartOf(IntroChunk(text, bs, metadata)[0]) == 0 && EndOf(IntroChunk(text, bs, metadata)[0]) == bs[0].pos
  {
  }

  /** The intro chunk is non-empty, stripped and the stripped text before the first boundary. */
  lemma IntroClean(text: string, bs: seq<Boundary>, metadata: Metadata)
    requires Within(text, bs) && bs != []
    ensures CleanTexts(IntroChunk(text, bs, metadata))
    ensures InOrder(IntroChunk(text, bs, metadata))
    ensures forall j :: 0 <= j < |IntroChunk(text, bs, metadata)| ==> CutFrom(text, IntroChunk(text, bs, metadata)[j])
  {
    var first := bs[0].pos;
    StripFacts(text[0..first]);
    IntroShape(text, bs, metadata);
  }

  /** Past offset 50, the intro chunk covers every non-whitespace character before the first boundary. */
  lemma IntroCovers(text: string, bs: seq<Boundary>, metadata: Metadata)
    requires Within(text, bs) && bs != [] && bs[0].pos > INTRO_THRESHOLD
    ensures Covers(text, IntroChunk(text, bs, metadata), 0, bs[0].pos)
  {
    var first := bs[0].pos;
    var intro := IntroChunk(text, bs, metadata);
    var slice := text[0..first];
    StripFacts(slice);
    IntroShape(text, bs, metadata);
    forall p | 0 <= p < first && 0 <= p < |text| && !IsSpace(text[p])
      ensures exists k :: 0 <= k < |intro| && StartOf(intro[k]) <= p < EndOf(intro[k])
    {
      assert slice[p] == text[p];
      assert StartOf(intro[0]) <= p < EndOf(intro[0]);
    }
  }

  /** The deduplicated boundaries are ordered, lie inside the text and start where the found ones do. */
  lemma DedupWithin(text: string, found: seq<Boundary>)
    requires Ordered(found) && Within(text, found) && found != []
    ensures Ordered(Dedup(found)) && Within(text, Dedup(found))
    ensures Dedup(found) != [] && Dedup(found)[0] == found[0]
  {
    var bs := Dedup(found);
    DedupOrdered(found);
    DedupFirst(found);
    DedupElements(found);
    forall i | 0 <= i < |bs|
      ensures bs[i].pos <= |text|
    {
      assert bs[i] in found;
    }
  }

  /**
   * The intro chunk followed by the section chunks of the deduplicated
   * boundaries: every chunk is non-empty, stripped and cut from the text,
   * and the chunks are in text order.
   */
  lemma CutClean(text: string, found: seq<Boundary>, metadata: Metadata)
    requires Ordered(found) && Within(text, found) && found != []
    ensures CleanTexts(IntroChunk(text, Dedup(found), metadata) + SectionChunks(text, Dedup(found), metadata))
    ensures InOrder(IntroChunk(text, Dedup(found), metadata) + SectionChunks(text, Dedup(found), metadata))
    ensures forall j :: 0 <= j < |IntroChunk(text, Dedup(found), metadata) + SectionChunks(text, Dedup(found), metadata)| ==>
      CutFrom(text, (IntroChunk(text, Dedup(found), metadata) + SectionChunks(text, Dedup(found), metadata))[j])
  {
    var bs := Dedup(found);
    DedupWithin(text, found);
    var intro, s := IntroChunk(text, bs, metadata), SectionChunks(text, bs, metadata);
    SectionChunksClean(text, bs, metadata);
    SectionChunksInOrder(text, bs, metadata);
    IntroShape(text, bs, metadata);
    IntroClean(text, bs, metadata);
    AppendClean(text, intro, s);
    InOrderAppend(intro, s);
  }

  /**
   * The same chunks cover every non-whitespace character from the first
   * boundary found on, and from 0 when that boundary is past offset 50;
   * otherwise none of them starts before it.
   */
  lemma CutCovers(text: string, found: seq<Boundary>, metadata: Metadata)
    requires Ordered(found) && Within(text, found) && found != []
    ensures Covers(text, IntroChunk(text, Dedup(found), metadata) + SectionChunks(text, Dedup(found), metadata),
      if found[0].pos > INTRO_THRESHOLD then 0 else found[0].pos, |text|)
    ensures found[0].pos <= INTRO_THRESHOLD ==>
      IntroChunk(text, Dedup(found), metadata) + SectionChunks(text, Dedup(found), metadata) == SectionChunks(text, Dedup(found), metadata)
  {
    DedupWithin(text, found);
    if found[0].pos > INTRO_THRESHOLD {
      CoversFromStart(text, Dedup(found), metadata);
    } else {
      CoversWithoutIntro(text, Dedup(found), metadata);
    }
  }

  /** With an intro chunk, the chunks cover the whole text. */
  lemma CoversFromStart(text: string, bs: seq<Boundary>, metadata: Metadata)
    requires Ordered(bs) && Within(text, bs) && bs != [] && bs[0].pos > INTRO_THRESHOLD
    ensures Covers(text, IntroChunk(text, bs, metadata) + SectionChunks(text, bs, metadata), 0, |text|)
  {
    SectionChunksCover(text, bs, metadata);
    IntroCovers(text, bs, metadata);
    CoversAppend(text, IntroChunk(text, bs, metadata), SectionChunks(text, bs, metadata), 0, bs[0].pos, |text|);
  }

  /** Without one, the chunks are the section chunks, which cover the text from the first boundary on. */
  lemma CoversWithoutIntro(text: string, bs: seq<Boundary>, metadata: Metadata)
    requires Ordered(bs) && Within(text, bs) && bs != [] && bs[0].pos <= INTRO_THRESHOLD
    ensures IntroChunk(text, bs, metadata) + SectionChunks(text, bs, metadata) == SectionChunks(text, bs, metadata)
    ensures Covers(text, IntroChunk(text, bs, metadata) + SectionChunks(text, bs, metadata), bs[0].pos, |text|)
  {
    IntroShape(text, bs, metadata);
    assert IntroChunk(text, bs, metadata) == [];
    SectionChunksCover(text, bs, metadata);
  }

  /** Two clean lists cut from `text` make a clean list cut from `text`. */
  lemma AppendClean(text: string, x: seq<Chunk>, y: seq<Chunk>)
    requires CleanTexts(x) && CleanTexts(y)
    requires (forall j :: 0 <= j < |x| ==> CutFrom(text, x[j])) && (forall j :: 0 <= j < |y| ==> CutFrom(text, y[j]))
    ensures CleanTexts(x + y) && forall j :: 0 <= j < |x + y| ==> CutFrom(text, (x + y)[j])
  {
    var r := x + y;
    forall j | 0 <= j < |r|
      ensures r[j].text != [] && IsStripped(r[j].text) && CutFrom(text, r[j])
    {
      if j >= |x| {
        assert r[j] == y[j - |x|];
      }
    }
  }

  // ---------------------------------------------------------------------------
  // chunk_text
  // ---------------------------------------------------------------------------

  /** The metadata of a fallback chunk. */
  function FallbackMeta(metadata: Metadata): Metadata
  {
    metadata + map["chunk_title" := Null, "chunking_method" := Str("fallback")]
  }

  /** The first `k` texts that are not empty, each as a chunk with metadata `m`. */
  function KeepTexts(ts: seq<string>, m: Metadata, k: int): (r: seq<Chunk>)
    requires 0 <= k <= |ts|
    ensures |r| <= k
    ensures forall j :: 0 <= j < |r| ==> r[j].metadata == m
  {
    if k == 0 then [] else KeepTexts(ts, m, k - 1) + (if ts[k - 1] != [] then [Chunk(ts[k - 1], m)] else [])
  }

  /** Each kept chunk text is one of the non-empty texts. */
  lemma {:induction false} KeepTextsSound(ts: seq<string>, m: Metadata, k: int)
    requires 0 <= k <= |ts|
    ensures forall j :: 0 <= j < |KeepTexts(ts, m, k)| ==> KeepTexts(ts, m, k)[j].text != [] && KeepTexts(ts, m, k)[j].text in ts
  {
    if k > 0 {
      KeepTextsSound(ts, m, k - 1);
      var r0 := KeepTexts(ts, m, k - 1);
      var r := KeepTexts(ts, m, k);
      assert r == r0 + (if ts[k - 1] != [] then [Chunk(ts[k - 1], m)] else []);
      assert ts[k - 1] in ts;
      forall j | 0 <= j < |r|
        ensures r[j].text != [] && r[j].text in ts
      {
        if j < |r0| {
          assert r[j] == r0[j];
        } else {
          assert ts[k - 1] != [] && r[j] == Chunk(ts[k - 1], m);
        }
      }
    }
  }

  /** Each of the first `k` non-empty texts is a kept chunk text. */
  lemma {:induction false} KeepTextsComplete(ts: seq<string>, m: Metadata, k: int)
    requires 0 <= k <= |ts|
    ensures forall i :: 0 <= i < k && ts[i] != [] ==> ts[i] in Texts(KeepTexts(ts, m, k))
  {
    if k > 0 {
      KeepTextsComplete(ts, m, k - 1);
      var r0 := KeepTexts(ts, m, k - 1);
      var tail := if ts[k - 1] != [] then [Chunk(ts[k - 1], m)] else [];
      assert KeepTexts(ts, m, k) == r0 + tail;
      TextsAppend(r0, tail);
      assert Texts(tail) == if ts[k - 1] != [] then [ts[k - 1]] else [];
    }
  }

  /** The fallback chunks of `chunk_text`: each splitter piece stripped, the empty ones dropped. */
  function FallbackChunks(pieces: seq<string>, metadata: Metadata): seq<Chunk>
  {
    KeepTexts(StripAll(pieces), FallbackMeta(metadata), |pieces|)
  }

  /**
   * The fallback chunks are non-empty and stripped, each is the stripped
   * text of some piece, and the stripped text of every non-blank piece is
   * among them; all of them carry the fallback metadata.
   */
  lemma FallbackChunksFacts(pieces: seq<string>, metadata: Metadata)
    ensures var r := FallbackChunks(pieces, metadata);
      && CleanTexts(r)
      && (forall j :: 0 <= j < |r| ==> r[j].text in StripAll(pieces) && r[j].metadata == FallbackMeta(metadata))
      && (forall k :: 0 <= k < |pieces| && !IsBlank(pieces[k]) ==> Strip(pieces[k]) in Texts(r))
  {
    var ts := StripAll(pieces);
    KeepTextsSound(ts, FallbackMeta(metadata), |pieces|);
    KeepTextsComplete(ts, FallbackMeta(metadata), |pieces|);
    var r := FallbackChunks(pieces, metadata);
    forall k | 0 <= k < |ts|
      ensures IsStripped(ts[k])
    {
      StripFacts(pieces[k]);
    }
    forall k | 0 <= k < |pieces| && !IsBlank(pieces[k])
      ensures Strip(pieces[k]) in Texts(r)
    {
      StripFacts(pieces[k]);
    }
  }

  /** The fallback loop of `chunk_text`. */
  method BuildFallbackChunks(pieces: seq<string>, metadata: Metadata) returns (chunks: seq<Chunk>)
    ensures chunks == FallbackChunks(pieces, metadata)
  {
    var m := FallbackMeta(metadata);
    chunks := [];
    for i := 0 to |pieces|
      invariant chunks == KeepTexts(StripAll(pieces), m, i)
    {
      var c := Strip(pieces[i]);
      FallbackStep(pieces, m, i, chunks, c);
      if c != [] {
        chunks := chunks + [Chunk(c, m)];
      }
    }
  }

  /** One more step of the fallback filter. */
  lemma FallbackStep(pieces: seq<string>, m: Metadata, i: int, chunks: seq<Chunk>, c: string)
    requires 0 <= i < |pieces| && chunks == KeepTexts(StripAll(pieces), m, i) && c == Strip(pieces[i])
    ensures c != [] ==> KeepTexts(StripAll(pieces), m, i + 1) == chunks + [Chunk(c, m)]
    ensures c == [] ==> KeepTexts(StripAll(pieces), m, i + 1) == chunks
  {
  }

  /** The keys `chunk_text`'s final loop writes. */
  const INDEX_KEYS: set<string> := {"chunk_index", "chunk_total", "char_count", "chunking_method", "agentic_model"}

  /** The index metadata of chunk `i` out of `total`, and the agentic label when no chunking method is recorded. */
  function WithChunkIndex(c: Chunk, i: int, total: int): Chunk
  {
    var m := c.metadata + map["chunk_index" := Int(i), "chunk_total" := Int(total), "char_count" := Int(|c.text|)];
    if "chunking_method" in c.metadata then Chunk(c.text, m)
    else Chunk(c.text, m + map["chunking_method" := Str("agentic"), "agentic_model" := Str(AGENTIC_CHUNKER_MODEL_NAME)])
  }

  /** The final loop of `chunk_text` as a value. */
  function IndexAll(chunks: seq<Chunk>): (r: seq<Chunk>)
    ensures |r| == |chunks|
    ensures forall i :: 0 <= i < |chunks| ==> r[i] == WithChunkIndex(chunks[i], i, |chunks|)
  {
    seq(|chunks|, i requires 0 <= i < |chunks| => WithChunkIndex(chunks[i], i, |chunks|))
  }

  /** The final loop of `chunk_text`: position, count, length and method on every chunk. */
  method AddIndexMetadata(chunks: seq<Chunk>) returns (r: seq<Chunk>)
    ensures r == IndexAll(chunks)
  {
    ghost var target := IndexAll(chunks);
    r := [];
    for i := 0 to |chunks|
      invariant r == target[..i]
    {
      PrefixSnoc(target, i);
      r := r + [WithChunkIndex(chunks[i], i, |chunks|)];
    }
    assert target[..|chunks|] == target;
  }

  /**
   * Chunk `i` out of `total` keeps its text, records its position, the
   * number of chunks and its length, and has a chunking method (the
   * existing one, or "agentic" with the model name).
   */
  lemma WithChunkIndexFacts(c: Chunk, i: int, total: int)
    ensures WithChunkIndex(c, i, total).text == c.text
    ensures WithChunkIndex(c, i, total).metadata["chunk_index"] == Int(i)
    ensures WithChunkIndex(c, i, total).metadata["chunk_total"] == Int(total)
    ensures WithChunkIndex(c, i, total).metadata["char_count"] == Int(|c.text|)
    ensures "chunking_method" in WithChunkIndex(c, i, total).metadata
    ensures "chunking_method" in c.metadata ==>
      WithChunkIndex(c, i, total).metadata["chunking_method"] == c.metadata["chunking_method"]
    ensures "chunking_method" !in c.metadata ==>
      && WithChunkIndex(c, i, total).metadata["chunking_method"] == Str("agentic")
      && WithChunkIndex(c, i, total).metadata["agentic_model"] == Str(AGENTIC_CHUNKER_MODEL_NAME)
  {
  }

  /** The index metadata loses no key and adds only the index keys. */
  lemma WithChunkIndexKeys(c: Chunk, i: int, total: int)
    ensures c.metadata.Keys <= WithChunkIndex(c, i, total).metadata.Keys <= c.metadata.Keys + INDEX_KEYS
  {
  }

  /** `merge_window if merge_window is not None else AGENTIC_CHUNK_MERGE_WINDOW`. */
  function EffectiveWindow(mergeWindow: Option<int>): int
  {
    if mergeWindow.Some? then mergeWindow.value else AGENTIC_CHUNK_MERGE_WINDOW
  }

  /** The merge step of `chunk_text`: only with a window of at least 1 and more than one chunk. */
  function MergeStep(chunks: seq<Chunk>, w: int): seq<Chunk>
  {
    if w >= 1 && |chunks| > 1 then Merged(chunks, w) else chunks
  }

  /** The chunks of the analysis when it yields any, otherwise the fallback chunks of the splitter's pieces. */
  function Prepared(text: string, metadata: Metadata, analysis: Option<Analysis>, pieces: seq<string>): seq<Chunk>
  {
    var built := if analysis.Some? then ChunksFromSections(text, analysis.value, metadata) else [];
    if built != [] then built else FallbackChunks(pieces, metadata)
  }

  /**
   * `chunk_text` as a value. `analyze` stands for `_analyze_document` (the
   * LLM call behind its cache) and `split` for the recursive splitter.
   */
  function ChunkTextSpec(text: string, metadata: Metadata, analyze: string -> Option<Analysis>,
                         split: string -> seq<string>, mergeWindow: Option<int>): seq<Chunk>
  {
    if IsBlank(text) then []
    else IndexAll(MergeStep(Prepared(text, metadata, analyze(text), split(text)), EffectiveWindow(mergeWindow)))
  }

  /**
   * `chunk_text`: nothing for a blank text; otherwise the section chunks,
   * or the fallback chunks, optionally merged, with index metadata.
   */
  method ChunkText(text: string, metadata: Metadata, analyze: string -> Option<Analysis>,
                   split: string -> seq<string>, mergeWindow: Option<int>) returns (chunks: seq<Chunk>)
    ensures chunks == ChunkTextSpec(text, metadata, analyze, split, mergeWindow)
  {
    StripFacts(text);
    if text == [] || Strip(text) == [] {
      return [];
    }
    var analysis := analyze(text);
    chunks := [];
    if analysis.Some? {
      chunks := BuildChunksFromSections(text, analysis.value, metadata);
    }
    if chunks == [] {
      chunks := BuildFallbackChunks(split(text), metadata);
    }
    var w := EffectiveWindow(mergeWindow);
    if w >= 1 && |chunks| > 1 {
      chunks := MergeAdjacentChunks(chunks, w);
    }
    chunks := AddIndexMetadata(chunks);
  }

  /** Every key `chunk_text` can write. */
  const CHUNK_TEXT_KEYS: set<string> := {"start", "end", "chunk_title"} + MERGE_KEYS + INDEX_KEYS

  /** Every chunk's metadata holds the base keys and no key other than those or the ones `chunk_text` writes. */
  ghost predicate KeysBetween(chunks: seq<Chunk>, base: set<string>, extra: set<string>)
  {
    forall i :: 0 <= i < |chunks| ==> base <= chunks[i].metadata.Keys <= base + extra
  }

  /** The chunks before the merge carry the base keys and, besides them, only section or fallback keys. */
  lemma PreparedKeys(text: string, metadata: Metadata, analysis: Option<Analysis>, pieces: seq<string>)
    ensures KeysBetween(Prepared(text, metadata, analysis, pieces), metadata.Keys, CHUNK_TEXT_KEYS)
  {
    var r := Prepared(text, metadata, analysis, pieces);
    var built := if analysis.Some? then ChunksFromSections(text, analysis.value, metadata) else [];
    if built != [] {
      var items := analysis.value.sections.value;
      var bs := Dedup(Anchors(text, items, 0));
      var intro, s := IntroChunk(text, bs, metadata), SectionChunks(text, bs, metadata);
      SectionChunksKeys(text, bs, metadata);
      forall i | 0 <= i < |r|
        ensures metadata.Keys <= r[i].metadata.Keys <= metadata.Keys + CHUNK_TEXT_KEYS
      {
        if i >= |intro| {
          assert r[i] == s[i - |intro|];
        }
      }
    }
  }

  /** The section chunks carry the base keys and their offsets and title. */
  lemma SectionChunksKeys(text: string, bs: seq<Boundary>, metadata: Metadata)
    ensures KeysBetween(SectionChunks(text, bs, metadata), metadata.Keys, {"start", "end", "chunk_title"})
  {
    var cands := Candidates(text, bs, metadata);
    var r, ix := NonEmpty(cands, |bs|), Kept(cands, |bs|);
    KeptShape(cands, |bs|);
    forall j | 0 <= j < |r|
      ensures metadata.Keys <= r[j].metadata.Keys <= metadata.Keys + {"start", "end", "chunk_title"}
    {
      var i := ix[j];
      SectionMetaFacts(metadata, bs[i].pos, SectionEnd(text, bs, i), bs[i].title);
    }
  }

  /** The chunks before the merge are non-empty and stripped. */
  lemma PreparedClean(text: string, metadata: Metadata, analysis: Option<Analysis>, pieces: seq<string>)
    ensures CleanTexts(Prepared(text, metadata, analysis, pieces))
  {
    if analysis.Some? {
      ChunksFromSectionsFacts(text, analysis.value, metadata);
    }
    FallbackChunksFacts(pieces, metadata);
  }

  /** The chunks `chunk_text` returns for a text: none when it is blank, and all non-empty and stripped. */
  lemma ChunkTextClean(text: string, metadata: Metadata, analyze: string -> Option<Analysis>,
                       split: string -> seq<string>, mergeWindow: Option<int>)
    ensures IsBlank(text) ==> ChunkTextSpec(text, metadata, analyze, split, mergeWindow) == []
    ensures CleanTexts(ChunkTextSpec(text, metadata, analyze, split, mergeWindow))
  {
    if !IsBlank(text) {
      var p := Prepared(text, metadata, analyze(text), split(text));
      var w := EffectiveWindow(mergeWindow);
      var m := MergeStep(p, w);
      PreparedClean(text, metadata, analyze(text), split(text));
      if w >= 1 && |p| > 1 {
        MergedClean(p, w);
      }
      var r := IndexAll(m);
      forall i | 0 <= i < |r|
        ensures r[i].text != [] && IsStripped(r[i].text)
      {
        WithChunkIndexFacts(m[i], i, |m|);
      }
    }
  }

  /** Every chunk `chunk_text` returns holds the caller's keys and otherwise only keys the chunker writes. */
  lemma ChunkTextKeys(text: string, metadata: Metadata, analyze: string -> Option<Analysis>,
                      split: string -> seq<string>, mergeWindow: Option<int>)
    ensures KeysBetween(ChunkTextSpec(text, metadata, analyze, split, mergeWindow), metadata.Keys, CHUNK_TEXT_KEYS)
  {
    if !IsBlank(text) {
      var p := Prepared(text, metadata, analyze(text), split(text));
      var w := EffectiveWindow(mergeWindow);
      var m := MergeStep(p, w);
      PreparedKeys(text, metadata, analyze(text), split(text));
      if w >= 1 && |p| > 1 {
        MergedKeys(p, w);
      }
      assert KeysBetween(m, metadata.Keys, CHUNK_TEXT_KEYS);
      var r := IndexAll(m);
      forall i | 0 <= i < |r|
        ensures metadata.Keys <= r[i].metadata.Keys <= metadata.Keys + CHUNK_TEXT_KEYS
      {
        WithChunkIndexKeys(m[i], i, |m|);
      }
    }
  }

  /**
   * Chunk `i` of `chunk_text` records `i`, the number of chunks and its
   * length, and has a chunking method.
   */
  lemma ChunkTextIndex(text: string, metadata: Metadata, analyze: string -> Option<Analysis>,
                       split: string -> seq<string>, mergeWindow: Option<int>, i: int)
    requires 0 <= i < |ChunkTextSpec(text, metadata, analyze, split, mergeWindow)|
    ensures ChunkTextSpec(text, metadata, analyze, split, mergeWindow)[i].metadata["chunk_index"] == Int(i)
    ensures ChunkTextSpec(text, metadata, analyze, split, mergeWindow)[i].metadata["chunk_total"] ==
      Int(|ChunkTextSpec(text, metadata, analyze, split, mergeWindow)|)
    ensures ChunkTextSpec(text, metadata, analyze, split, mergeWindow)[i].metadata["char_count"] ==
      Int(|ChunkTextSpec(text, metadata, analyze, split, mergeWindow)[i].text|)
    ensures "chunking_method" in ChunkTextSpec(text, metadata, analyze, split, mergeWindow)[i].metadata
  {
    var m := MergeStep(Prepared(text, metadata, analyze(text), split(text)), EffectiveWindow(mergeWindow));
    WithChunkIndexFacts(m[i], i, |m|);
  }

  // ---------------------------------------------------------------------------
  // chunk_pages
  // ---------------------------------------------------------------------------

  /**
   * The character range `chunk_pages` looks pages up for: the offsets the
   * chunk records, unless the end is not past the start; then the first
   * place the (non-empty) text occurs in the joined text, if it occurs.
   */
  function RangeOf(joined: string, c: Chunk): (int, int)
  {
    var start, end := StartOf(c), EndOf(c);
    if end <= start && c.text != [] && Find(joined, c.text, 0) != -1 then
      (Find(joined, c.text, 0), Find(joined, c.text, 0) + |c.text|)
    else (start, end)
  }

  /** With a recorded range, that range is used; without one, the first occurrence of the text, when there is one. */
  lemma RangeOfFacts(joined: string, c: Chunk)
    ensures StartOf(c) < EndOf(c) ==> RangeOf(joined, c) == (StartOf(c), EndOf(c))
    ensures EndOf(c) <= StartOf(c) && c.text != [] && (exists p :: MatchAt(joined, c.text, p)) ==>
      var (s, e) := RangeOf(joined, c);
      && MatchAt(joined, c.text, s) && e == s + |c.text|
      && joined[s..e] == c.text
      && forall q :: 0 <= q < s ==> !MatchAt(joined, c.text, q)
    ensures (c.text == [] || forall p :: !MatchAt(joined, c.text, p)) ==> RangeOf(joined, c) == (StartOf(c), EndOf(c))
  {
    if EndOf(c) <= StartOf(c) && c.text != [] && exists p :: MatchAt(joined, c.text, p) {
      var p :| MatchAt(joined, c.text, p);
      assert 0 <= p;
    }
  }

  /**
   * The page metadata of one chunk: `page_num` is the first page of its
   * range, and `page_num_end` the last one, written only when it is set and
   * differs from the first.
   */
  function WithPages(spans: seq<Span>, joined: string, c: Chunk): Chunk
  {
    var (start, end) := RangeOf(joined, c);
    var (ps, pe) := PageRange(spans, start, end);
    var m := c.metadata["page_num" := Int(ps)];
    Chunk(c.text, if pe != 0 && pe != ps then m["page_num_end" := Int(pe)] else m)
  }

  /** The page loop of `chunk_pages` as a value. */
  function PagedAll(spans: seq<Span>, joined: string, chunks: seq<Chunk>): (r: seq<Chunk>)
    ensures |r| == |chunks|
    ensures forall i :: 0 <= i < |chunks| ==> r[i] == WithPages(spans, joined, chunks[i])
  {
    seq(|chunks|, i requires 0 <= i < |chunks| => WithPages(spans, joined, chunks[i]))
  }

  /**
   * `chunk_pages` as a value: the pages joined with blank lines; nothing
   * when that text is blank; otherwise `chunk_text` of it, with page and
   * global index metadata.
   */
  function ChunkPagesSpec(pages: seq<Page>, base: Metadata, analyze: string -> Option<Analysis>,
                          split: string -> seq<string>, mergeWindow: Option<int>): seq<Chunk>
  {
    var joined := Join(PARAGRAPH, Bodies(pages));
    if IsBlank(joined) then []
    else GlobalIndexAll(PagedAll(PageSpans(pages, PARAGRAPH), joined, ChunkTextSpec(joined, base, analyze, split, mergeWindow)))
  }

  /** The page metadata of one chunk, with the range lookup of `_pages_for_range`. */
  method AddPages(spans: seq<Span>, joined: string, c: Chunk) returns (d: Chunk)
    ensures d == WithPages(spans, joined, c)
  {
    var start, end := StartOf(c), EndOf(c);
    if end <= start {
      var t := c.text;
      if t != [] {
        var pos := Find(joined, t, 0);
        if pos != -1 {
          start := pos;
          end := pos + |t|;
        }
      }
    }
    var pStart, pEnd := PagesForRange(spans, start, end);
    var m := c.metadata["page_num" := Int(pStart)];
    if pEnd != 0 && pEnd != pStart {
      m := m["page_num_end" := Int(pEnd)];
    }
    d := Chunk(c.text, m);
  }

  /** The page loop of `chunk_pages`. */
  method AddPageMetadata(spans: seq<Span>, joined: string, chunks: seq<Chunk>) returns (r: seq<Chunk>)
    ensures r == PagedAll(spans, joined, chunks)
  {
    ghost var target := PagedAll(spans, joined, chunks);
    r := [];
    for i := 0 to |chunks|
      invariant r == target[..i]
    {
      var d := AddPages(spans, joined, chunks[i]);
      PrefixSnoc(target, i);
      r := r + [d];
    }
    assert target[..|chunks|] == target;
  }

  /** `chunk_pages` (the branch where `chunk_text` returns normally). */
  method ChunkPages(pages: seq<Page>, base: Metadata, analyze: string -> Option<Analysis>,
                    split: string -> seq<string>, mergeWindow: Option<int>) returns (chunks: seq<Chunk>)
    ensures chunks == ChunkPagesSpec(pages, base, analyze, split, mergeWindow)
  {
    var joined, spans := IterPageSpans(pages, PARAGRAPH);
    StripFacts(joined);
    if joined == [] || Strip(joined) == [] {
      return [];
    }
    chunks := ChunkText(joined, base, analyze, split, mergeWindow);
    chunks := AddPageMetadata(spans, joined, chunks);
    chunks := AddGlobalIndex(chunks);
  }

  /** Page numbers as `_iter_page_spans` assigns them are never 0 (a missing one becomes the position plus one). */
  lemma PageSpansNonZero(pages: seq<Page>, sep: string)
    ensures NonZeroPages(PageSpans(pages, sep))
  {
    var spans := PageSpans(pages, sep);
    forall i | 0 <= i < |spans|
      ensures spans[i].pageNum != 0
    {
      assert spans[i] == SpanAt(Bodies(pages), PageNumbers(pages), sep, i);
    }
  }

  /** One chunk's page metadata: `page_num` always, `page_num_end` exactly when the end page is set and differs. */
  lemma WithPagesFacts(spans: seq<Span>, joined: string, c: Chunk)
    ensures WithPages(spans, joined, c).text == c.text
    ensures WithPages(spans, joined, c).metadata["page_num"] ==
      Int(PageRange(spans, RangeOf(joined, c).0, RangeOf(joined, c).1).0)
    ensures var (ps, pe) := PageRange(spans, RangeOf(joined, c).0, RangeOf(joined, c).1);
      pe != 0 && pe != ps ==> WithPages(spans, joined, c).metadata["page_num_end"] == Int(pe)
    ensures var (ps, pe) := PageRange(spans, RangeOf(joined, c).0, RangeOf(joined, c).1);
      !(pe != 0 && pe != ps) ==> ("page_num_end" in WithPages(spans, joined, c).metadata <==> "page_num_end" in c.metadata)
    ensures c.metadata.Keys <= WithPages(spans, joined, c).metadata.Keys <= c.metadata.Keys + {"page_num", "page_num_end"}
    ensures forall k :: k in c.metadata && k != "page_num" && k != "page_num_end" ==>
      WithPages(spans, joined, c).metadata[k] == c.metadata[k]
  {
  }

  /** A blank joined text (all pages blank or no pages) gives no chunk. */
  lemma ChunkPagesBlank(pages: seq<Page>, base: Metadata, analyze: string -> Option<Analysis>,
                        split: string -> seq<string>, mergeWindow: Option<int>)
    requires IsBlank(Join(PARAGRAPH, Bodies(pages)))
    ensures ChunkPagesSpec(pages, base, analyze, split, mergeWindow) == []
  {
  }

  /**
   * Chunk `i` after the page and global index loops: its text, its
   * position as `global_chunk_index` and the first page of its range as
   * `page_num`; `page_num_end` is the last page of its range when that
   * differs, and otherwise only what the chunk already had.
   */
  lemma PagesAndIndexAt(spans: seq<Span>, joined: string, ct: seq<Chunk>, i: int)
    requires 0 <= i < |ct|
    ensures var r := GlobalIndexAll(PagedAll(spans, joined, ct));
      var (ps, pe) := PageRange(spans, RangeOf(joined, ct[i]).0, RangeOf(joined, ct[i]).1);
      && |r| == |ct| && r[i].text == ct[i].text
      && r[i].metadata["global_chunk_index"] == Int(i)
      && r[i].metadata["page_num"] == Int(ps)
      && (pe != 0 && pe != ps ==> r[i].metadata["page_num_end"] == Int(pe))
      && ("page_num_end" !in ct[i].metadata && !(pe != 0 && pe != ps) ==> "page_num_end" !in r[i].metadata)
  {
    WithPagesFacts(spans, joined, ct[i]);
  }
}
