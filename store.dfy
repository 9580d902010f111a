/**
 * `VectorStore`: the Chroma collection as a map from chunk id to the stored
 * text and flat metadata, and everything the service does around Chroma's
 * calls — the metadata it writes, the `where` filters it builds, the tag
 * rewrite, deletion by document and the listings. Embedding and
 * nearest-neighbour search are parameters.
 */
module Store {
  import opened Base
  import opened Text
  import opened Docs

  /** `DEFAULT_TOP_K` and `MAX_TOP_K` of the configuration. */
  const DEFAULT_TOP_K := 8
  const MAX_TOP_K := 20

  /** A stored record: the chunk text and its metadata (its embedding is not modelled). */
  datatype Entry = Entry(text: string, metadata: Metadata)

  /** The collection: chunk id to record. */
  type Collection = map<string, Entry>

  // ---------------------------------------------------------------------------
  // tag keys
  // ---------------------------------------------------------------------------

  /** Every boolean tag field starts with this. */
  const TAG_PREFIX := "tag_"

  /** The keys `add_documents` writes besides the tag fields. */
  const BASE_KEYS: set<string> := {"pdf_id", "filename", "tags", "chunk_index", "page_num", "char_count"}

  /** `tag.lower().replace(" ", "_").replace("-", "_")`: letters lowered, spaces and hyphens made underscores. */
  function SafeTag(tag: string): (r: string)
    ensures |r| == |tag|
    ensures forall i :: 0 <= i < |r| ==> r[i] == if tag[i] == ' ' || tag[i] == '-' then '_' else LowerChar(tag[i])
    ensures forall i :: 0 <= i < |r| ==> r[i] != ' ' && r[i] != '-' && !('A' <= r[i] <= 'Z')
  {
    ReplaceChar(ReplaceChar(Lower(tag), ' ', '_'), '-', '_')
  }

  /** The metadata key that marks a chunk as carrying `tag`. */
  function TagKey(tag: string): (k: string)
    ensures HasPrefix(k, TAG_PREFIX) && |k| == |TAG_PREFIX| + |tag|
  {
    TAG_PREFIX + SafeTag(tag)
  }

  /** The tag keys of a list of tags. */
  function TagKeys(tags: seq<string>): set<string>
  {
    set t | t in tags :: TagKey(t)
  }

  /** A key that does not start with `t` or has no `_` fourth is not a tag key. */
  lemma NotTagKey(k: string)
    requires |k| < 4 || k[0] != 't' || k[3] != '_'
    ensures !HasPrefix(k, TAG_PREFIX)
  {
    if |k| >= 4 {
      assert k[..4][0] == k[0] && k[..4][3] == k[3];
    }
  }

  /** No tag key can overwrite one of the fixed keys. */
  lemma BaseKeysAreNotTagKeys()
    ensures forall k :: k in BASE_KEYS ==> !HasPrefix(k, TAG_PREFIX)
  {
    NotTagKey("pdf_id");
    NotTagKey("filename");
    NotTagKey("tags");
    NotTagKey("chunk_index");
    NotTagKey("page_num");
    NotTagKey("char_count");
  }

  /** Tags that differ only in letter case, or in a space, hyphen or underscore, share one key. */
  lemma TagKeyIgnoresCaseAndSeparators(a: string, b: string)
    requires |a| == |b|
    requires forall i :: 0 <= i < |a| ==>
      (a[i] in "_ -" && b[i] in "_ -") || LowerChar(a[i]) == LowerChar(b[i])
    ensures TagKey(a) == TagKey(b)
  {
    assert SafeTag(a) == SafeTag(b);
  }

  // ---------------------------------------------------------------------------
  // what add_documents writes
  // ---------------------------------------------------------------------------

  /** `f"{pdf_id}_chunk_{i}"`. */
  function ChunkId(pdfId: string, i: nat): string
  {
    pdfId + "_chunk_" + NatToString(i)
  }

  /** The chunks of one document get distinct ids. */
  lemma ChunkIdInjective(pdfId: string, i: nat, j: nat)
    requires ChunkId(pdfId, i) == ChunkId(pdfId, j)
    ensures i == j
  {
    var p := pdfId + "_chunk_";
    assert ChunkId(pdfId, i)[|p|..] == NatToString(i);
    assert ChunkId(pdfId, j)[|p|..] == NatToString(j);
    NatToStringInjective(i, j);
  }

  /** The metadata after the tag loop has written `"1"` under the key of each tag, in order. */
  function WithTagFields(m: Metadata, tags: seq<string>): Metadata
    decreases |tags|
  {
    if tags == [] then m
    else WithTagFields(m, tags[..|tags| - 1])[TagKey(tags[|tags| - 1]) := Str("1")]
  }

  /** The tag loop adds exactly the tag keys, each holding `"1"`, and keeps every other entry. */
  lemma {:induction false} WithTagFieldsFacts(m: Metadata, tags: seq<string>)
    ensures forall k :: k in WithTagFields(m, tags) <==> k in m || k in TagKeys(tags)
    ensures forall k :: k in TagKeys(tags) ==> WithTagFields(m, tags)[k] == Str("1")
    ensures forall k :: k in m && k !in TagKeys(tags) ==> WithTagFields(m, tags)[k] == m[k]
    decreases |tags|
  {
    if tags != [] {
      var init := tags[..|tags| - 1];
      WithTagFieldsFacts(m, init);
      assert tags == init + [tags[|tags| - 1]];
      assert TagKeys(tags) == TagKeys(init) + {TagKey(tags[|tags| - 1])};
    }
  }

  /** `for tag in tags: metadata[f"tag_{safe_tag}"] = "1"`. */
  method AddTagFields(m: Metadata, tags: seq<string>) returns (r: Metadata)
    ensures r == WithTagFields(m, tags)
  {
    r := m;
    for i := 0 to |tags|
      invariant r == WithTagFields(m, tags[..i])
    {
      assert tags[..i + 1][..i] == tags[..i];
      r := r[TagKey(tags[i]) := Str("1")];
    }
    assert tags[..|tags|] == tags;
  }

  /** The fixed part of the metadata of chunk `i`: the chunk's own index, page and length win over the defaults. */
  function BaseMetadata(c: Chunk, i: nat, pdfId: string, filename: string, tags: seq<string>): Metadata
  {
    map["pdf_id" := Str(pdfId), "filename" := Str(filename), "tags" := Str(Join(",", tags)),
        "chunk_index" := GetOr(c.metadata, "chunk_index", Int(i)),
        "page_num" := GetOr(c.metadata, "page_num", Int(0)),
        "char_count" := GetOr(c.metadata, "char_count", Int(|c.text|))]
  }

  /** The metadata stored with chunk `i`. */
  function StoredMetadata(c: Chunk, i: nat, pdfId: string, filename: string, tags: seq<string>): Metadata
  {
    WithTagFields(BaseMetadata(c, i, pdfId, filename, tags), tags)
  }

  /** The metadata building of one iteration of `add_documents`. */
  method BuildMetadata(c: Chunk, i: nat, pdfId: string, filename: string, tags: seq<string>) returns (m: Metadata)
    ensures m == StoredMetadata(c, i, pdfId, filename, tags)
  {
    var tagsStr := if |tags| > 0 then Join(",", tags) else "";
    m := map["pdf_id" := Str(pdfId), "filename" := Str(filename), "tags" := Str(tagsStr),
             "chunk_index" := GetOr(c.metadata, "chunk_index", Int(i)),
             "page_num" := GetOr(c.metadata, "page_num", Int(0)),
             "char_count" := GetOr(c.metadata, "char_count", Int(|c.text|))];
    m := AddTagFields(m, tags);
  }

  /**
   * The stored metadata holds the document, the file name and the
   * comma-joined tags; the chunk's own `chunk_index`, `page_num` and
   * `char_count` when it has them and otherwise `i`, 0 and the text length;
   * and `"1"` under the key of every tag. It holds no other key, and in
   * particular no tag key but those of `tags`.
   */
  lemma StoredMetadataFacts(c: Chunk, i: nat, pdfId: string, filename: string, tags: seq<string>)
    ensures var m := StoredMetadata(c, i, pdfId, filename, tags);
      && HasEntry(m, "pdf_id", Str(pdfId))
      && HasEntry(m, "filename", Str(filename))
      && HasEntry(m, "tags", Str(Join(",", tags)))
      && HasEntry(m, "chunk_index", if "chunk_index" in c.metadata then c.metadata["chunk_index"] else Int(i))
      && HasEntry(m, "page_num", if "page_num" in c.metadata then c.metadata["page_num"] else Int(0))
      && HasEntry(m, "char_count", if "char_count" in c.metadata then c.metadata["char_count"] else Int(|c.text|))
      && (forall t :: t in tags ==> HasEntry(m, TagKey(t), Str("1")))
      && (forall k :: k in m <==> k in BASE_KEYS || k in TagKeys(tags))
      && (forall k :: k in m && HasPrefix(k, TAG_PREFIX) ==> k in TagKeys(tags))
  {
    var b := BaseMetadata(c, i, pdfId, filename, tags);
    WithTagFieldsFacts(b, tags);
    BaseKeysAreNotTagKeys();
    assert b.Keys == BASE_KEYS;
    forall t | t in tags
      ensures TagKey(t) in TagKeys(tags)
    {
    }
    forall k | k in TagKeys(tags)
      ensures HasPrefix(k, TAG_PREFIX)
    {
      var t :| t in tags && TagKey(t) == k;
    }
  }

  /** The record `add_documents` prepares for chunk `i`. */
  function Record(c: Chunk, i: nat, pdfId: string, filename: string, tags: seq<string>): (string, Entry)
  {
    (ChunkId(pdfId, i), Entry(c.text, StoredMetadata(c, i, pdfId, filename, tags)))
  }

  /** The records of all chunks, in order. */
  function Records(chunks: seq<Chunk>, pdfId: string, filename: string, tags: seq<string>): (rs: seq<(string, Entry)>)
    ensures |rs| == |chunks|
    ensures forall i :: 0 <= i < |chunks| ==> rs[i] == Record(chunks[i], i, pdfId, filename, tags)
  {
    seq(|chunks|, i requires 0 <= i < |chunks| => Record(chunks[i], i, pdfId, filename, tags))
  }

  /** The ids of a list of records. */
  function RecordIds(recs: seq<(string, Entry)>): set<string>
  {
    set j | 0 <= j < |recs| :: recs[j].0
  }

  /** Chroma's `add`: a record whose id is already stored is ignored, the others are inserted. */
  function InsertNew(coll: Collection, recs: seq<(string, Entry)>): Collection
    decreases |recs|
  {
    if recs == [] then coll
    else
      var prior := InsertNew(coll, recs[..|recs| - 1]);
      var last := recs[|recs| - 1];
      if last.0 in prior then prior else prior[last.0 := last.1]
  }

  /**
   * With distinct ids, `add` stores exactly the old ids and the new ones,
   * keeps every old record and stores each new record under its id.
   */
  lemma {:induction false} InsertNewFacts(coll: Collection, recs: seq<(string, Entry)>)
    requires forall a, b :: 0 <= a < b < |recs| ==> recs[a].0 != recs[b].0
    ensures forall k :: k in InsertNew(coll, recs) <==> k in coll || k in RecordIds(recs)
    ensures forall k :: k in coll ==> InsertNew(coll, recs)[k] == coll[k]
    ensures forall j :: 0 <= j < |recs| && recs[j].0 !in coll ==>
      recs[j].0 in InsertNew(coll, recs) && InsertNew(coll, recs)[recs[j].0] == recs[j].1
    decreases |recs|
  {
    if recs != [] {
      var init := recs[..|recs| - 1];
      InsertNewFacts(coll, init);
      assert RecordIds(recs) == RecordIds(init) + {recs[|recs| - 1].0};
      forall j | 0 <= j < |recs| && recs[j].0 !in coll
        ensures recs[j].0 in InsertNew(coll, recs) && InsertNew(coll, recs)[recs[j].0] == recs[j].1
      {
        if j < |recs| - 1 {
          assert init[j] == recs[j];
        } else {
          forall k | k in RecordIds(init)
            ensures k != recs[j].0
          {
            var a :| 0 <= a < |init| && init[a].0 == k;
          }
        }
      }
    }
  }

  /** The ids of the chunks of document `pdfId`, for `n` chunks. */
  function NewIds(pdfId: string, n: nat): set<string>
  {
    set i | 0 <= i < n :: ChunkId(pdfId, i)
  }

  /**
   * `add_documents` with no chunks changes nothing. Otherwise the store
   * afterwards holds the old ids and `"{pdf_id}_chunk_{i}"` for every chunk,
   * keeps every old record, and holds chunk `i`'s text and metadata under
   * its id unless that id was already stored.
   */
  lemma AddedFacts(coll: Collection, chunks: seq<Chunk>, pdfId: string, filename: string, tags: seq<string>)
    ensures var r := InsertNew(coll, Records(chunks, pdfId, filename, tags));
      && (chunks == [] ==> r == coll)
      && (forall k :: k in r <==> k in coll || k in NewIds(pdfId, |chunks|))
      && (forall k :: k in coll ==> r[k] == coll[k])
      && (forall i :: 0 <= i < |chunks| && ChunkId(pdfId, i) !in coll ==>
            r[ChunkId(pdfId, i)] == Entry(chunks[i].text, StoredMetadata(chunks[i], i, pdfId, filename, tags)))
  {
    var recs := Records(chunks, pdfId, filename, tags);
    forall a, b | 0 <= a < b < |recs|
      ensures recs[a].0 != recs[b].0
    {
      if recs[a].0 == recs[b].0 {
        ChunkIdInjective(pdfId, a, b);
      }
    }
    InsertNewFacts(coll, recs);
    assert RecordIds(recs) == NewIds(pdfId, |chunks|) by {
      forall k | k in NewIds(pdfId, |chunks|)
        ensures k in RecordIds(recs)
      {
        var i :| 0 <= i < |chunks| && ChunkId(pdfId, i) == k;
        assert recs[i].0 == k;
      }
    }
    forall i | 0 <= i < |chunks| && ChunkId(pdfId, i) !in coll
      ensures InsertNew(coll, recs)[ChunkId(pdfId, i)] == Entry(chunks[i].text, StoredMetadata(chunks[i], i, pdfId, filename, tags))
    {
      assert recs[i].0 == ChunkId(pdfId, i);
    }
  }

  // ---------------------------------------------------------------------------
  // where filters
  // ---------------------------------------------------------------------------

  /**
   * A Chroma `where` filter: `{key: value}` and `{key: {"$eq": value}}` are
   * both `FieldEq`, `{"$or": [...]}` is `Or`, `{"$and": [...]}` is `And`.
   */
  datatype Filter = FieldEq(key: string, value: string) | Or(clauses: seq<Filter>) | And(clauses: seq<Filter>)

  /** What Chroma's filter means on one record's metadata. */
  predicate Matches(f: Filter, m: Metadata)
    decreases f
  {
    match f
    case FieldEq(k, v) => HasEntry(m, k, Str(v))
    case Or(cs) => exists i :: 0 <= i < |cs| && Matches(cs[i], m)
    case And(cs) => forall i :: 0 <= i < |cs| ==> Matches(cs[i], m)
  }

  /** A query without a filter admits every record. */
  predicate Admits(w: Option<Filter>, m: Metadata)
  {
    w.None? || Matches(w.value, m)
  }

  /** `{f"tag_{safe_tag}": {"$eq": "1"}}`. */
  function TagCondition(tag: string): Filter
  {
    FieldEq(TagKey(tag), "1")
  }

  /** `{"pdf_id": pid}`. */
  function PdfCondition(pdfId: string): Filter
  {
    FieldEq("pdf_id", pdfId)
  }

  function TagConditions(tags: seq<string>): (cs: seq<Filter>)
    ensures |cs| == |tags|
    ensures forall i :: 0 <= i < |tags| ==> cs[i] == TagCondition(tags[i])
  {
    seq(|tags|, i requires 0 <= i < |tags| => TagCondition(tags[i]))
  }

  function PdfConditions(pdfIds: seq<string>): (cs: seq<Filter>)
    ensures |cs| == |pdfIds|
    ensures forall i :: 0 <= i < |pdfIds| ==> cs[i] == PdfCondition(pdfIds[i])
  {
    seq(|pdfIds|, i requires 0 <= i < |pdfIds| => PdfCondition(pdfIds[i]))
  }

  /** One condition stands alone; several become an `$or`. */
  function Grouped(cs: seq<Filter>): Filter
    requires |cs| > 0
  {
    if |cs| == 1 then cs[0] else Or(cs)
  }

  /** `where_conditions`: the tag group, then the document group, each only when its list is not empty. */
  function Conditions(tags: seq<string>, pdfIds: seq<string>): seq<Filter>
  {
    (if |tags| > 0 then [Grouped(TagConditions(tags))] else []) +
    (if |pdfIds| > 0 then [Grouped(PdfConditions(pdfIds))] else [])
  }

  /** `where_filter`: none, the single condition, or the `$and` of both. */
  function Where(tags: seq<string>, pdfIds: seq<string>): Option<Filter>
  {
    var cs := Conditions(tags, pdfIds);
    if |cs| == 0 then None else if |cs| == 1 then Some(cs[0]) else Some(And(cs))
  }

  /** The filter building of `query` (a `None` list is the empty list). */
  method BuildWhere(tags: seq<string>, pdfIds: seq<string>) returns (w: Option<Filter>)
    ensures w == Where(tags, pdfIds)
  {
    var conditions: seq<Filter> := [];
    if |tags| > 0 {
      var tagConditions: seq<Filter> := [];
      for i := 0 to |tags|
        invariant tagConditions == TagConditions(tags)[..i]
      {
        PrefixSnoc(TagConditions(tags), i);
        tagConditions := tagConditions + [TagCondition(tags[i])];
      }
      assert tagConditions == TagConditions(tags);
      if |tagConditions| == 1 {
        conditions := conditions + [tagConditions[0]];
      } else {
        conditions := conditions + [Or(tagConditions)];
      }
    }
    if |pdfIds| > 0 {
      if |pdfIds| == 1 {
        conditions := conditions + [PdfCondition(pdfIds[0])];
      } else {
        conditions := conditions + [Or(PdfConditions(pdfIds))];
      }
    }
    assert conditions == Conditions(tags, pdfIds);
    if |conditions| == 1 {
      w := Some(conditions[0]);
    } else if |conditions| > 1 {
      w := Some(And(conditions));
    } else {
      w := None;
    }
  }

  /** The record carries at least one of the tags. */
  predicate HasAnyTag(m: Metadata, tags: seq<string>)
  {
    exists i :: 0 <= i < |tags| && HasEntry(m, TagKey(tags[i]), Str("1"))
  }

  /** The record belongs to one of the documents. */
  predicate InAnyDocument(m: Metadata, pdfIds: seq<string>)
  {
    exists i :: 0 <= i < |pdfIds| && HasEntry(m, "pdf_id", Str(pdfIds[i]))
  }

  /** There is no filter exactly when neither tags nor documents are given. */
  lemma WhereNone(tags: seq<string>, pdfIds: seq<string>)
    ensures Where(tags, pdfIds).None? <==> |tags| == 0 && |pdfIds| == 0
  {
  }

  /** A single tag or id is a bare condition, several are an `$or`, and both kinds together are an `$and` of two. */
  lemma WhereShape(tags: seq<string>, pdfIds: seq<string>)
    ensures |tags| == 1 && |pdfIds| == 0 ==> Where(tags, pdfIds) == Some(TagCondition(tags[0]))
    ensures |tags| > 1 && |pdfIds| == 0 ==> Where(tags, pdfIds) == Some(Or(TagConditions(tags)))
    ensures |tags| == 0 && |pdfIds| == 1 ==> Where(tags, pdfIds) == Some(PdfCondition(pdfIds[0]))
    ensures |tags| == 0 && |pdfIds| > 1 ==> Where(tags, pdfIds) == Some(Or(PdfConditions(pdfIds)))
    ensures |tags| > 0 && |pdfIds| > 0 ==>
      Where(tags, pdfIds).Some? && Where(tags, pdfIds).value.And? && |Where(tags, pdfIds).value.clauses| == 2
  {
  }

  lemma GroupedTags(tags: seq<string>, m: Metadata)
    requires |tags| > 0
    ensures Matches(Grouped(TagConditions(tags)), m) <==> HasAnyTag(m, tags)
  {
    var cs := TagConditions(tags);
    if |tags| > 1 {
      if HasAnyTag(m, tags) {
        var i :| 0 <= i < |tags| && HasEntry(m, TagKey(tags[i]), Str("1"));
        assert Matches(cs[i], m);
      }
    } else {
      assert Matches(cs[0], m) ==> HasAnyTag(m, tags);
    }
  }

  lemma GroupedDocuments(pdfIds: seq<string>, m: Metadata)
    requires |pdfIds| > 0
    ensures Matches(Grouped(PdfConditions(pdfIds)), m) <==> InAnyDocument(m, pdfIds)
  {
    var cs := PdfConditions(pdfIds);
    if |pdfIds| > 1 {
      if InAnyDocument(m, pdfIds) {
        var i :| 0 <= i < |pdfIds| && HasEntry(m, "pdf_id", Str(pdfIds[i]));
        assert Matches(cs[i], m);
      }
    } else {
      assert Matches(cs[0], m) ==> InAnyDocument(m, pdfIds);
    }
  }

  /**
   * The filter admits a record exactly when it carries one of the tags (or
   * no tags are given) and belongs to one of the documents (or none are
   * given): OR within each kind, AND between them.
   */
  lemma WhereMeans(tags: seq<string>, pdfIds: seq<string>, m: Metadata)
    ensures Admits(Where(tags, pdfIds), m) <==>
      (|tags| == 0 || HasAnyTag(m, tags)) && (|pdfIds| == 0 || InAnyDocument(m, pdfIds))
  {
    if |tags| > 0 {
      GroupedTags(tags, m);
    }
    if |pdfIds| > 0 {
      GroupedDocuments(pdfIds, m);
    }
    var cs := Conditions(tags, pdfIds);
    if |tags| > 0 && |pdfIds| > 0 {
      assert cs == [Grouped(TagConditions(tags)), Grouped(PdfConditions(pdfIds))];
      assert Matches(And(cs), m) <==> Matches(cs[0], m) && Matches(cs[1], m);
    }
  }

  /**
   * A chunk stored with tag `t` is admitted by a query that asks for `t`
   * among its tags and, if it names documents, names the chunk's document:
   * the add and the query derive the tag key the same way.
   */
  lemma StoredChunkMatches(c: Chunk, i: nat, pdfId: string, filename: string, tags: seq<string>,
                           t: string, queryTags: seq<string>, queryIds: seq<string>)
    requires t in tags && t in queryTags
    requires |queryIds| == 0 || pdfId in queryIds
    ensures Admits(Where(queryTags, queryIds), StoredMetadata(c, i, pdfId, filename, tags))
  {
    var m := StoredMetadata(c, i, pdfId, filename, tags);
    StoredMetadataFacts(c, i, pdfId, filename, tags);
    WhereMeans(queryTags, queryIds, m);
    var a :| 0 <= a < |queryTags| && queryTags[a] == t;
    assert HasEntry(m, TagKey(queryTags[a]), Str("1"));
    if |queryIds| > 0 {
      var b :| 0 <= b < |queryIds| && queryIds[b] == pdfId;
      assert HasEntry(m, "pdf_id", Str(queryIds[b]));
    }
  }

  // ---------------------------------------------------------------------------
  // query
  // ---------------------------------------------------------------------------

  /** `min(top_k, MAX_TOP_K)`. */
  function ClampTopK(topK: int): (k: int)
    ensures k <= MAX_TOP_K
    ensures k == topK || k == MAX_TOP_K
    ensures topK <= MAX_TOP_K ==> k == topK
  {
    Min(topK, MAX_TOP_K)
  }

  /** One formatted hit (its similarity score is not modelled). */
  datatype Hit = Hit(id: string, text: string, metadata: Metadata)

  /** The search Chroma runs: the store, the query text, the filter and the number of results. */
  type Search = (Collection, string, Option<Filter>, int) -> Result<seq<Hit>>

  /** The filtered search, and when it raises, the same search without a filter. */
  function QueryOutcome(search: Search, coll: Collection, queryText: string, where: Option<Filter>, k: int): Result<seq<Hit>>
  {
    var first := search(coll, queryText, where, k);
    if first.Ok? then first else search(coll, queryText, None, k)
  }

  /** A query that asks for no more than `MAX_TOP_K` results is passed on unchanged; a larger one is cut to `MAX_TOP_K`. */
  lemma QueryClamps(search: Search, coll: Collection, queryText: string, tags: seq<string>, topK: int, pdfIds: seq<string>)
    ensures topK <= MAX_TOP_K ==>
      QueryOutcome(search, coll, queryText, Where(tags, pdfIds), ClampTopK(topK)) == QueryOutcome(search, coll, queryText, Where(tags, pdfIds), topK)
    ensures topK > MAX_TOP_K ==>
      QueryOutcome(search, coll, queryText, Where(tags, pdfIds), ClampTopK(topK)) == QueryOutcome(search, coll, queryText, Where(tags, pdfIds), MAX_TOP_K)
  {
  }

  // ---------------------------------------------------------------------------
  // documents
  // ---------------------------------------------------------------------------

  /** The record belongs to document `pdfId` (`where={"pdf_id": pdf_id}`). */
  predicate OfDocument(e: Entry, pdfId: string)
  {
    HasEntry(e.metadata, "pdf_id", Str(pdfId))
  }

  /** The ids `collection.get(where={"pdf_id": pdf_id})` returns. */
  function DocumentIds(coll: Collection, pdfId: string): set<string>
  {
    set k | k in coll && OfDocument(coll[k], pdfId)
  }

  /** The collection with the given ids deleted. */
  function Without(coll: Collection, ids: set<string>): Collection
  {
    map k | k in coll && k !in ids :: coll[k]
  }

  /**
   * After deleting document `pdfId`, no record belongs to it, every other
   * record is still stored unchanged, and the store has shrunk by the number
   * of its records.
   */
  lemma DeleteFacts(coll: Collection, pdfId: string)
    ensures var r, ids := Without(coll, DocumentIds(coll, pdfId)), DocumentIds(coll, pdfId);
      && (forall k :: k in r ==> !OfDocument(r[k], pdfId))
      && (forall k :: k in coll && !OfDocument(coll[k], pdfId) ==> k in r && r[k] == coll[k])
      && (forall k :: k in r ==> k in coll)
      && |r| + |ids| == |coll|
  {
    var r, ids := Without(coll, DocumentIds(coll, pdfId)), DocumentIds(coll, pdfId);
    assert r.Keys == coll.Keys - ids;
    assert coll.Keys == r.Keys + ids;
    assert r.Keys * ids == {};
  }

  /** The `tag_*` keys of a metadata dictionary. */
  function OldTagKeys(m: Metadata): set<string>
  {
    set k | k in m && HasPrefix(k, TAG_PREFIX)
  }

  /** The metadata `update_document_tags` means a record to end with: old tag keys removed, `tags` rewritten, new tag keys added. */
  function Retag(m: Metadata, tags: seq<string>): Metadata
  {
    WithTagFields((m - OldTagKeys(m))["tags" := Str(Join(",", tags))], tags)
  }

  /** The in-place rewrite of one chunk's metadata in `update_document_tags`. */
  method RetagMetadata(current: Metadata, newTags: seq<string>) returns (m: Metadata)
    ensures m == Retag(current, newTags)
  {
    var tagsStr := if |newTags| > 0 then Join(",", newTags) else "";
    var keysToRemove := set k | k in current && HasPrefix(k, TAG_PREFIX);
    m := current;
    var pending := keysToRemove;
    while pending != {}
      invariant pending <= keysToRemove
      invariant m == current - (keysToRemove - pending)
      decreases |pending|
    {
      var key :| key in pending;
      m := m - {key};
      pending := pending - {key};
    }
    assert keysToRemove - pending == OldTagKeys(current);
    m := m["tags" := Str(tagsStr)];
    m := AddTagFields(m, newTags);
  }

  /**
   * After the rewrite the tag keys are exactly those of the new tags, each
   * holding `"1"`; `tags` holds their comma-join; every other key is kept
   * with its value.
   */
  lemma RetagFacts(m: Metadata, tags: seq<string>)
    ensures var r := Retag(m, tags);
      && (forall k :: HasPrefix(k, TAG_PREFIX) ==> (k in r <==> k in TagKeys(tags)))
      && (forall k :: k in TagKeys(tags) ==> r[k] == Str("1"))
      && HasEntry(r, "tags", Str(Join(",", tags)))
      && (forall k :: k != "tags" && !HasPrefix(k, TAG_PREFIX) ==> (k in r <==> k in m) && (k in m ==> r[k] == m[k]))
  {
    var base := (m - OldTagKeys(m))["tags" := Str(Join(",", tags))];
    WithTagFieldsFacts(base, tags);
    assert !HasPrefix("tags", TAG_PREFIX) by { assert "tags"[3] != TAG_PREFIX[3]; }
    forall k | k in TagKeys(tags)
      ensures HasPrefix(k, TAG_PREFIX)
    {
      var t :| t in tags && TagKey(t) == k;
    }
  }

  /** Rewriting the tags twice with the same list is rewriting them once. */
  lemma RetagIdempotent(m: Metadata, tags: seq<string>)
    ensures Retag(Retag(m, tags), tags) == Retag(m, tags)
  {
    var once := Retag(m, tags);
    RetagFacts(m, tags);
    RetagFacts(once, tags);
    var twice := Retag(once, tags);
    forall k | k in twice
      ensures k in once && twice[k] == once[k]
    {
    }
    forall k | k in once
      ensures k in twice
    {
    }
  }

  /** After the rewrite a query on one of the new tags admits the chunk and one on a tag whose key is not among them does not. */
  lemma RetagMatches(m: Metadata, tags: seq<string>, t: string)
    ensures t in tags ==> Matches(TagCondition(t), Retag(m, tags))
    ensures TagKey(t) !in TagKeys(tags) ==> !Matches(TagCondition(t), Retag(m, tags))
  {
    RetagFacts(m, tags);
    if t in tags {
      assert TagKey(t) in TagKeys(tags);
    }
  }

  /**
   * The metadata `collection.update` leaves on a record: a key of the given
   * dictionary takes the given value, or is deleted when that value is
   * `None`; a key the given dictionary leaves out keeps its stored value.
   */
  function ChromaUpdate(stored: Metadata, given: Metadata): (r: Metadata)
    ensures forall k :: k in given ==> (k in r <==> given[k] != Null) && (k in r ==> r[k] == given[k])
    ensures forall k :: k !in given ==> (k in r <==> k in stored) && (k in r ==> r[k] == stored[k])
  {
    map k | k in stored.Keys + given.Keys && !(k in given && given[k] == Null) :: if k in given then given[k] else stored[k]
  }

  /** What `update_document_tags` as written leaves on a record: the rewritten dictionary merged into the stored one. */
  function MergedRetag(m: Metadata, tags: seq<string>): Metadata
  {
    ChromaUpdate(m, Retag(m, tags))
  }

  /** As written, a tag key of the stored record that the new tags do not name survives with its old value. */
  lemma StaleTagsPersist(m: Metadata, tags: seq<string>, k: string)
    requires k in m && HasPrefix(k, TAG_PREFIX) && k !in TagKeys(tags) && m[k] != Null
    ensures HasEntry(MergedRetag(m, tags), k, m[k])
  {
    RetagFacts(m, tags);
  }

  /** As written, a record tagged `a` and retagged with `["b"]` is still found by a query on `a`, which the rewrite is meant to prevent. */
  lemma StaleTagMatches()
    ensures var m := map["tag_a" := Str("1")];
      && Matches(TagCondition("a"), MergedRetag(m, ["b"]))
      && !Matches(TagCondition("a"), Retag(m, ["b"]))
  {
    var m := map["tag_a" := Str("1")];
    assert SafeTag("a") == "a";
    assert TagKey("a") == "tag_a";
    assert "tag_a" !in TagKeys(["b"]) by {
      forall t | t in ["b"]
        ensures TagKey(t) != "tag_a"
      {
        assert TagKey(t)[4] == SafeTag(t)[0] == 'b';
      }
    }
    StaleTagsPersist(m, ["b"], "tag_a");
    RetagMatches(m, ["b"], "a");
  }

  /**
   * The dictionary `update` needs so that the record ends as `Retag`
   * describes: `tags` and the new tag keys set, and every other old tag key
   * set to `None`.
   */
  function RetagUpdate(m: Metadata, tags: seq<string>): Metadata
  {
    WithTagFields((map k | k in OldTagKeys(m) :: Null)["tags" := Str(Join(",", tags))], tags)
  }

  /**
   * Passing `RetagUpdate` to `update` leaves exactly the rewritten metadata,
   * so a query on a tag the new list does not name no longer finds the record.
   */
  lemma RetagUpdateApplied(m: Metadata, tags: seq<string>)
    ensures ChromaUpdate(m, RetagUpdate(m, tags)) == Retag(m, tags)
    ensures forall t :: TagKey(t) !in TagKeys(tags) ==> !Matches(TagCondition(t), ChromaUpdate(m, RetagUpdate(m, tags)))
  {
    var r, want := ChromaUpdate(m, RetagUpdate(m, tags)), Retag(m, tags);
    RetagUpdateFacts(m, tags);
    RetagFacts(m, tags);
    forall k | k in r
      ensures k in want && r[k] == want[k]
    {
    }
    forall k | k in want
      ensures k in r
    {
    }
    assert r == want;
    forall t | TagKey(t) !in TagKeys(tags)
      ensures !Matches(TagCondition(t), r)
    {
      RetagMatches(m, tags, t);
    }
  }

  /** `RetagUpdate` holds `tags`, each new tag key with `"1"`, and every other old tag key with `None`, and nothing else. */
  lemma RetagUpdateFacts(m: Metadata, tags: seq<string>)
    ensures var u := RetagUpdate(m, tags);
      && (forall k :: k in u <==> k == "tags" || k in TagKeys(tags) || k in OldTagKeys(m))
      && HasEntry(u, "tags", Str(Join(",", tags)))
      && (forall k :: k in TagKeys(tags) ==> u[k] == Str("1"))
      && (forall k :: k in OldTagKeys(m) && k !in TagKeys(tags) ==> u[k] == Null)
      && (forall k :: k in TagKeys(tags) || k in OldTagKeys(m) ==> HasPrefix(k, TAG_PREFIX))
  {
    var nulls := (map k | k in OldTagKeys(m) :: Null)["tags" := Str(Join(",", tags))];
    WithTagFieldsFacts(nulls, tags);
    assert !HasPrefix("tags", TAG_PREFIX) by { assert "tags"[3] != TAG_PREFIX[3]; }
    forall k | k in TagKeys(tags)
      ensures HasPrefix(k, TAG_PREFIX)
    {
      var t :| t in tags && TagKey(t) == k;
    }
  }

  /** The collection with `f` applied to the records with the given ids. */
  function Updated(coll: Collection, ids: set<string>, f: Entry -> Entry): Collection
  {
    map k | k in coll :: if k in ids then f(coll[k]) else coll[k]
  }

  /** One step of an update loop over `ids`: one more record, still pending, is replaced by its update. */
  lemma UpdatedStep(before: Collection, ids: set<string>, pending: set<string>, f: Entry -> Entry, k: string, e: Entry)
    requires ids <= before.Keys && pending <= ids && k in pending && e == f(before[k])
    ensures Updated(before, ids - (pending - {k}), f) == Updated(before, ids - pending, f)[k := e]
  {
    assert ids - (pending - {k}) == (ids - pending) + {k};
  }

  /** The rewrite of one record's tags. */
  function RetagEntry(tags: seq<string>): Entry -> Entry
  {
    (e: Entry) => Entry(e.text, Retag(e.metadata, tags))
  }

  /** The store after the tags of the records with the given ids are rewritten. */
  function Retagged(coll: Collection, ids: set<string>, tags: seq<string>): Collection
  {
    Updated(coll, ids, RetagEntry(tags))
  }

  /**
   * The loop of `update_document_tags` over the matched records, each
   * rewritten and written back so that it holds exactly the rewritten
   * metadata, as an update with `RetagUpdate` achieves.
   */
  method RetagRecords(coll: Collection, ids: set<string>, tags: seq<string>) returns (after: Collection)
    requires ids <= coll.Keys
    ensures after == Retagged(coll, ids, tags)
  {
    ghost var retag := RetagEntry(tags);
    after := coll;
    var pending := ids;
    assert ids - pending == {};
    while pending != {}
      invariant pending <= ids
      invariant after == Updated(coll, ids - pending, retag)
      decreases |pending|
    {
      var chunkId :| chunkId in pending;
      var current := coll[chunkId];
      var metadata := RetagMetadata(current.metadata, tags);
      var e := Entry(current.text, metadata);
      assert e == retag(current);
      UpdatedStep(coll, ids, pending, retag, chunkId, e);
      after := after[chunkId := e];
      pending := pending - {chunkId};
    }
    assert ids - pending == ids;
  }

  /**
   * Rewriting the tags of document `pdfId` keeps every id, leaves the
   * records of other documents unchanged, keeps the text of its own records,
   * and keeps them in the document.
   */
  lemma RetaggedFacts(coll: Collection, pdfId: string, tags: seq<string>)
    ensures var ids := DocumentIds(coll, pdfId); var r := Retagged(coll, ids, tags);
      && r.Keys == coll.Keys
      && (forall k :: k in coll && !OfDocument(coll[k], pdfId) ==> r[k] == coll[k])
      && (forall k :: k in ids ==> r[k].text == coll[k].text && OfDocument(r[k], pdfId))
      && DocumentIds(r, pdfId) == ids
  {
    var ids := DocumentIds(coll, pdfId);
    var r := Retagged(coll, ids, tags);
    forall k | k in ids
      ensures OfDocument(r[k], pdfId)
    {
      RetagFacts(coll[k].metadata, tags);
      NotTagKey("pdf_id");
    }
  }

  // ---------------------------------------------------------------------------
  // listings
  // ---------------------------------------------------------------------------

  /** The stripped, non-empty parts among the first `k`. */
  function CleanParts(parts: seq<string>, k: nat): set<string>
    requires k <= |parts|
  {
    if k == 0 then {}
    else
      var tag := Strip(parts[k - 1]);
      if tag == [] then CleanParts(parts, k - 1) else CleanParts(parts, k - 1) + {tag}
  }

  /** Every member of `CleanParts` is non-empty and stripped, and every part that strips to something is in it. */
  lemma {:induction false} CleanPartsFacts(parts: seq<string>, k: nat)
    requires k <= |parts|
    ensures forall x :: x in CleanParts(parts, k) ==> x != [] && IsStripped(x)
    ensures forall j :: 0 <= j < k && Strip(parts[j]) != [] ==> Strip(parts[j]) in CleanParts(parts, k)
  {
    if k > 0 {
      CleanPartsFacts(parts, k - 1);
      StripFacts(parts[k - 1]);
    }
  }

  /** The loop over the comma-separated parts in `get_all_tags`. */
  method CollectCleanParts(parts: seq<string>) returns (found: set<string>)
    ensures found == CleanParts(parts, |parts|)
  {
    found := {};
    for i := 0 to |parts|
      invariant found == CleanParts(parts, i)
    {
      var tag := Strip(parts[i]);
      if tag != [] {
        found := found + {tag};
      }
    }
  }

  /** The tags of one record: its `tags` string split on commas, trimmed, empty entries dropped. */
  function TagsOf(m: Metadata): set<string>
  {
    if "tags" in m && m["tags"].Str? then
      var parts := Split(m["tags"].s, ',');
      CleanParts(parts, |parts|)
    else {}
  }

  /** The parsing of one record's tags in `get_all_tags`. */
  method ParseTags(m: Metadata) returns (found: set<string>)
    ensures found == TagsOf(m)
  {
    found := {};
    var tagsStr := GetOr(m, "tags", Str(""));
    if tagsStr.Str? && tagsStr.s != [] {
      found := CollectCleanParts(Split(tagsStr.s, ','));
    } else if tagsStr.Str? {
      EmptyTagsString();
    }
  }

  /**
   * Tags written as the comma-join of non-empty, stripped tags without
   * commas are read back as exactly those tags.
   */
  lemma TagsRoundTrip(m: Metadata, tags: seq<string>)
    requires HasEntry(m, "tags", Str(Join(",", tags)))
    requires forall i :: 0 <= i < |tags| ==> tags[i] != [] && IsStripped(tags[i]) && ',' !in tags[i]
    ensures TagsOf(m) == set t | t in tags
  {
    if |tags| == 0 {
      EmptyTagsString();
    } else {
      SplitJoin(tags, ',');
      CleanTagsRead(tags);
    }
  }

  lemma CleanTagsRead(tags: seq<string>)
    requires forall i :: 0 <= i < |tags| ==> tags[i] != [] && IsStripped(tags[i])
    ensures CleanParts(tags, |tags|) == set t | t in tags
  {
    CleanPartsFixed(tags, |tags|);
    assert tags[..|tags|] == tags;
  }

  /** No tags are written as the empty string, which reads back as no tags. */
  lemma EmptyTagsString()
    ensures Join(",", []) == []
    ensures var parts := Split([], ','); CleanParts(parts, |parts|) == {}
  {
    assert Split([], ',') == [""];
    StripFacts("");
  }

  /** When every part is already clean, `CleanParts` is the set of the parts. */
  lemma {:induction false} CleanPartsFixed(parts: seq<string>, k: nat)
    requires k <= |parts|
    requires forall i :: 0 <= i < |parts| ==> parts[i] != [] && IsStripped(parts[i])
    ensures CleanParts(parts, k) == set t | t in parts[..k]
  {
    if k > 0 {
      CleanPartsFixed(parts, k - 1);
      StrippedIsFixed(parts[k - 1]);
      assert parts[..k] == parts[..k - 1] + [parts[k - 1]];
    }
  }

  /** Every listed tag is non-empty and stripped. */
  lemma TagsOfClean(m: Metadata, x: string)
    requires x in TagsOf(m)
    ensures x != [] && IsStripped(x)
  {
    var parts := Split(m["tags"].s, ',');
    CleanPartsFacts(parts, |parts|);
  }

  /** The tags of the records with the given ids. */
  function TagsIn(coll: Collection, ids: set<string>): set<string>
  {
    set k, t | k in ids && k in coll && t in TagsOf(coll[k].metadata) :: t
  }

  /** Every tag in the store. */
  function AllTags(coll: Collection): set<string>
  {
    TagsIn(coll, coll.Keys)
  }

  /** One step of the loop over the records: the tags of one more record join the set. */
  lemma TagsInStep(coll: Collection, pending: set<string>, k: string)
    requires pending <= coll.Keys && k in pending
    ensures TagsIn(coll, coll.Keys - (pending - {k})) == TagsIn(coll, coll.Keys - pending) + TagsOf(coll[k].metadata)
  {
    assert coll.Keys - (pending - {k}) == (coll.Keys - pending) + {k};
  }

  /** The loop of `get_all_tags` over the stored metadata. */
  method CollectTags(coll: Collection) returns (tagsSet: set<string>)
    ensures tagsSet == AllTags(coll)
  {
    tagsSet := {};
    var pending := coll.Keys;
    while pending != {}
      invariant pending <= coll.Keys
      invariant tagsSet == TagsIn(coll, coll.Keys - pending)
      decreases |pending|
    {
      var k :| k in pending;
      var found := ParseTags(coll[k].metadata);
      TagsInStep(coll, pending, k);
      tagsSet := tagsSet + found;
      pending := pending - {k};
    }
    assert coll.Keys - pending == coll.Keys;
  }

  /** The document id of one record, when it is a non-empty string. */
  function PdfIdOf(m: Metadata): set<string>
  {
    if "pdf_id" in m && m["pdf_id"].Str? && m["pdf_id"].s != [] then {m["pdf_id"].s} else {}
  }

  /** The document ids of the records with the given ids. */
  function PdfIdsIn(coll: Collection, ids: set<string>): set<string>
  {
    set k, p | k in ids && k in coll && p in PdfIdOf(coll[k].metadata) :: p
  }

  /** Every document id in the store. */
  function AllPdfIds(coll: Collection): set<string>
  {
    PdfIdsIn(coll, coll.Keys)
  }

  /** One step of the loop over the records: the document id of one more record joins the set. */
  lemma PdfIdsInStep(coll: Collection, pending: set<string>, k: string)
    requires pending <= coll.Keys && k in pending
    ensures PdfIdsIn(coll, coll.Keys - (pending - {k})) == PdfIdsIn(coll, coll.Keys - pending) + PdfIdOf(coll[k].metadata)
  {
    assert coll.Keys - (pending - {k}) == (coll.Keys - pending) + {k};
  }

  /** The loop of `get_pdf_ids` over the stored metadata. */
  method CollectPdfIds(coll: Collection) returns (pdfIds: set<string>)
    ensures pdfIds == AllPdfIds(coll)
  {
    pdfIds := {};
    var pending := coll.Keys;
    while pending != {}
      invariant pending <= coll.Keys
      invariant pdfIds == PdfIdsIn(coll, coll.Keys - pending)
      decreases |pending|
    {
      var k :| k in pending;
      var pdfId := GetOr(coll[k].metadata, "pdf_id", Null);
      PdfIdsInStep(coll, pending, k);
      if pdfId.Str? && pdfId.s != [] {
        pdfIds := pdfIds + {pdfId.s};
      }
      pending := pending - {k};
    }
    assert coll.Keys - pending == coll.Keys;
  }

  /** A document is listed exactly when one of its records is stored. */
  lemma AllPdfIdsMeans(coll: Collection, pdfId: string)
    requires pdfId != []
    ensures pdfId in AllPdfIds(coll) <==> DocumentIds(coll, pdfId) != {}
  {
    if pdfId in AllPdfIds(coll) {
      var k :| k in coll && pdfId in PdfIdOf(coll[k].metadata);
      assert k in DocumentIds(coll, pdfId);
    }
    if DocumentIds(coll, pdfId) != {} {
      var k :| k in DocumentIds(coll, pdfId);
      assert pdfId in PdfIdOf(coll[k].metadata);
    }
  }

  // ---------------------------------------------------------------------------
  // the store
  // ---------------------------------------------------------------------------

  class VectorStore {
    /** The persistent collection. */
    var collection: Collection

    /** Opening the store finds whatever the persistent collection already holds. */
    constructor(persisted: Collection)
      ensures collection == persisted
    {
      collection := persisted;
    }

    /** `clear_all`: the prior count is returned and the store is empty. */
    method ClearAll() returns (count: nat)
      modifies this
      ensures count == |old(collection)|
      ensures collection == map[]
    {
      count := |collection|;
      collection := map[];
    }

    /** `add_documents` (embedding generation is not modelled). */
    method AddDocuments(chunks: seq<Chunk>, pdfId: string, filename: string, tags: seq<string>) returns (added: nat)
      modifies this
      ensures added == |chunks|
      ensures collection == InsertNew(old(collection), Records(chunks, pdfId, filename, tags))
    {
      if |chunks| == 0 {
        assert Records(chunks, pdfId, filename, tags) == [];
        return 0;
      }
      ghost var target := Records(chunks, pdfId, filename, tags);
      var records: seq<(string, Entry)> := [];
      for i := 0 to |chunks|
        invariant records == target[..i]
        invariant collection == old(collection)
      {
        var chunkId := ChunkId(pdfId, i);
        var metadata := BuildMetadata(chunks[i], i, pdfId, filename, tags);
        PrefixSnoc(target, i);
        records := records + [(chunkId, Entry(chunks[i].text, metadata))];
      }
      assert records == target;
      collection := InsertNew(collection, records);
      added := |chunks|;
    }

    /** `query`: the clamp, the filter and the retry without a filter (the search itself is a parameter). */
    method Query(queryText: string, tags: seq<string>, topK: int, pdfIds: seq<string>, search: Search)
      returns (r: Result<seq<Hit>>)
      ensures r == QueryOutcome(search, collection, queryText, Where(tags, pdfIds), ClampTopK(topK))
    {
      var k := Min(topK, MAX_TOP_K);
      var whereFilter := BuildWhere(tags, pdfIds);
      r := search(collection, queryText, whereFilter, k);
      if r.Err? {
        r := search(collection, queryText, None, k);
      }
    }

    /** `delete_document`: the records of the document are deleted and counted. */
    method DeleteDocument(pdfId: string) returns (deleted: nat)
      modifies this
      ensures deleted == |DocumentIds(old(collection), pdfId)|
      ensures collection == Without(old(collection), DocumentIds(old(collection), pdfId))
    {
      var chunkIds := DocumentIds(collection, pdfId);
      if chunkIds != {} {
        collection := Without(collection, chunkIds);
        return |chunkIds|;
      }
      assert Without(collection, chunkIds) == collection;
      return 0;
    }

    /** `update_document_tags`, with the write-back corrected: every record of the document ends with its tags rewritten, the count is returned. */
    method UpdateDocumentTags(pdfId: string, newTags: seq<string>) returns (updated: nat)
      modifies this
      ensures updated == |DocumentIds(old(collection), pdfId)|
      ensures collection == Retagged(old(collection), DocumentIds(old(collection), pdfId), newTags)
    {
      var ids := DocumentIds(collection, pdfId);
      if ids == {} {
        assert Updated(collection, ids, RetagEntry(newTags)) == collection;
        return 0;
      }
      collection := RetagRecords(collection, ids, newTags);
      updated := |ids|;
    }

    /** `get_all_tags`: every tag of every record, sorted and without duplicates. */
    method GetAllTags() returns (r: seq<string>)
      ensures StrictlySorted(r)
      ensures forall x :: x in r <==> x in AllTags(collection)
    {
      var tagsSet := CollectTags(collection);
      r := SortedList(tagsSet);
    }

    /** `get_document_count`: the number of records in the store. */
    method GetDocumentCount() returns (n: nat)
      ensures n == |collection|
    {
      n := |collection|;
    }

    /** `get_pdf_ids`: every document id in the store, sorted and without duplicates. */
    method GetPdfIds() returns (r: seq<string>)
      ensures StrictlySorted(r)
      ensures forall x :: x in r <==> x in AllPdfIds(collection)
    {
      var pdfIds := CollectPdfIds(collection);
      r := SortedList(pdfIds);
    }
  }
}
