/** The provenance table of `rag_page/app.py`: `SourceTracker` derives a
    file label and a page label from a document's metadata, remembers them
    per document id and per content hash, and renders `[출처: …]` citations. */
module SourceTracking {
  import opened PyText
  import opened Model

  /** Placeholder file name when the metadata has no `source`. */
  const UnknownSource: string := "알 수 없음"

  const CitePrefix: string := "[출처: "

  /** The dictionary `extract_precise_source_info` returns. */
  datatype SourceInfo = SourceInfo(
    fileName: string,
    pageInfo: string,
    pages: MetaVal,
    primaryPage: MetaVal,
    chunkIndex: MetaVal,
    totalChunks: MetaVal,
    originalSource: MetaVal)

  /** The file label: for a path, its base name with the last extension
      removed; for any other value, its `str`. */
  function FileLabel(source: MetaVal): string
  {
    match source
    case StrVal(path) => StripExtension(Basename(path))
    case _ => PyStr(source)
  }

  /** A path's label has no directory part: it is a prefix of the base name,
      the whole base name exactly when that has no '.'. */
  lemma FileLabelShape(source: MetaVal)
    ensures var r := FileLabel(source);
            source.StrVal? ==> (forall k :: 0 <= k < |r| ==> r[k] != '/')
                               && |r| <= |Basename(source.s)| && r == Basename(source.s)[..|r|]
                               && (r == Basename(source.s) <==> '.' !in Basename(source.s))
    ensures !source.StrVal? ==> FileLabel(source) == PyStr(source)
  {
  }

  /** The page range of a non-empty page list: the page itself for one page,
      otherwise "<lowest>-<highest>". */
  function PageRange(xs: seq<int>): (r: string)
    requires |xs| > 0
    ensures |xs| == 1 ==> r == IntToString(xs[0])
    ensures |xs| > 1 ==> exists lo, hi :: lo in xs && hi in xs && lo <= hi
                          && (forall x :: x in xs ==> lo <= x <= hi)
                          && r == IntToString(lo) + "-" + IntToString(hi)
  {
    if |xs| == 1 then IntToString(xs[0])
    else
      var lo, hi := SeqMin(xs), SeqMax(xs);
      IntToString(lo) + "-" + IntToString(hi)
  }

  /** The page label, by priority: a non-empty `pages` list, then a truthy
      `primary_page` other than '?' and 0, then a truthy `page_span` other
      than '?' and '0'; otherwise empty. */
  function PageLabel(meta: Metadata): string
  {
    var pages := Get(meta, "pages", IntList([]));
    var primary := Get(meta, "primary_page", NoneVal);
    var span := Get(meta, "page_span", NoneVal);
    if pages.IntList? && pages.xs != [] then
      "p." + PageRange(pages.xs)
    else if Truthy(primary) && primary != StrVal("?") && primary != IntVal(0) then
      "p." + PyStr(primary)
    else if Truthy(span) && span != StrVal("?") && span != StrVal("0") then
      "p." + PyStr(span)
    else
      ""
  }

  /** A page label is empty or "p." followed by something; a non-empty page
      list always wins; the label is empty exactly when none of the three
      keys holds a usable value. */
  lemma PageLabelShape(meta: Metadata)
    ensures var r := PageLabel(meta);
            r == "" || (|r| > 2 && r[..2] == "p.")
    ensures var pages := Get(meta, "pages", IntList([]));
            pages.IntList? && pages.xs != [] ==> PageLabel(meta) == "p." + PageRange(pages.xs)
    ensures var pages, primary, span := Get(meta, "pages", IntList([])), Get(meta, "primary_page", NoneVal),
                                        Get(meta, "page_span", NoneVal);
            PageLabel(meta) == "" <==>
              !(pages.IntList? && pages.xs != [])
              && !(Truthy(primary) && primary != StrVal("?") && primary != IntVal(0))
              && !(Truthy(span) && span != StrVal("?") && span != StrVal("0"))
  {
    var primary := Get(meta, "primary_page", NoneVal);
    var span := Get(meta, "page_span", NoneVal);
    if Truthy(primary) {
      PyStrNonEmpty(primary);
    }
    if Truthy(span) {
      PyStrNonEmpty(span);
    }
  }

  /** A truthy metadata value prints as a non-empty string. */
  lemma PyStrNonEmpty(v: MetaVal)
    requires Truthy(v)
    ensures |PyStr(v)| > 0
  {
  }

  /** `extract_precise_source_info`. */
  function ExtractPreciseSourceInfo(doc: Doc): (info: SourceInfo)
    ensures info.fileName == FileLabel(Get(doc.metadata, "source", StrVal(UnknownSource)))
    ensures info.pageInfo == PageLabel(doc.metadata)
  {
    var meta := doc.metadata;
    var source := Get(meta, "source", StrVal(UnknownSource));
    SourceInfo(
      FileLabel(source),
      PageLabel(meta),
      Get(meta, "pages", IntList([])),
      Get(meta, "primary_page", NoneVal),
      Get(meta, "chunk_index", StrVal("")),
      Get(meta, "total_chunks", StrVal("")),
      source)
  }

  /** The citation text for derived source information:
      `[출처: <file> <page>]`, or `[출처: <file>]` when the page label is empty. */
  function CitationText(info: SourceInfo): string
  {
    if info.pageInfo != "" then
      CitePrefix + info.fileName + " " + info.pageInfo + "]"
    else
      CitePrefix + info.fileName + "]"
  }

  /** A citation opens with the prefix, then the file label, and closes with
      ']'; it carries no page part exactly when the page label is empty. */
  lemma CitationShape(info: SourceInfo)
    ensures var c := CitationText(info);
            |c| > |CitePrefix| + |info.fileName| && c[..|CitePrefix|] == CitePrefix && c[|c| - 1] == ']'
            && c[|CitePrefix|..|CitePrefix| + |info.fileName|] == info.fileName
    ensures info.pageInfo == "" <==> CitationText(info) == CitePrefix + info.fileName + "]"
  {
  }

  /** Two documents cited from the same metadata get the same citation,
      whatever their contents. */
  lemma CitationDependsOnlyOnMetadata(a: Doc, b: Doc)
    requires a.metadata == b.metadata
    ensures CitationText(ExtractPreciseSourceInfo(a)) == CitationText(ExtractPreciseSourceInfo(b))
  {
  }

  /** `primary_page == "0"` (a string) is not a sentinel: it yields "p.0";
      the integer 0 is one. */
  lemma PrimaryPageZeroString()
    ensures PageLabel(map["primary_page" := StrVal("0")]) == "p.0"
    ensures PageLabel(map["primary_page" := IntVal(0)]) == ""
  {
    assert PyStr(StrVal("0")) == "0";
  }

  /** Storing the value a key already holds leaves the map as it was. */
  lemma UpdateSame(m: map<string, SourceInfo>, k: string, v: SourceInfo)
    requires k in m && m[k] == v
    ensures m[k := v] == m
  {
  }

  class SourceTracker {
    /** Document id -> source information. */
    var docSourceMap: map<string, SourceInfo>
    /** Content hash -> source information. */
    var contentHashMap: map<string, SourceInfo>

    constructor ()
      ensures docSourceMap == map[] && contentHashMap == map[]
    {
      docSourceMap := map[];
      contentHashMap := map[];
    }

    /** `get_detailed_source_info`: the registered information for the
        content, else a fresh derivation from the document's own metadata. */
    function GetDetailedSourceInfo(doc: Doc): (info: SourceInfo)
      reads this
      ensures ContentHash(doc.content) in contentHashMap ==>
                info == contentHashMap[ContentHash(doc.content)]
      ensures ContentHash(doc.content) !in contentHashMap ==>
                info == ExtractPreciseSourceInfo(doc)
    {
      var h := ContentHash(doc.content);
      if h in contentHashMap then contentHashMap[h] else ExtractPreciseSourceInfo(doc)
    }

    /** `get_source_citation`: looks the content up on its own and renders
        the citation; it agrees with the detailed information. */
    function GetSourceCitation(doc: Doc): (c: string)
      reads this
      ensures c == CitationText(GetDetailedSourceInfo(doc))
    {
      var h := ContentHash(doc.content);
      var info := if h in contentHashMap then contentHashMap[h] else ExtractPreciseSourceInfo(doc);
      CitationText(info)
    }

    /** `register_document`: derives the information once and stores it
        under the id and under the content hash (last writer wins). */
    method RegisterDocument(docId: string, doc: Doc) returns (info: SourceInfo)
      modifies this
      ensures info == ExtractPreciseSourceInfo(doc)
      ensures docSourceMap == old(docSourceMap)[docId := info]
      ensures contentHashMap == old(contentHashMap)[ContentHash(doc.content) := info]
      ensures forall d: Doc :: d.content == doc.content ==>
                GetDetailedSourceInfo(d) == info && GetSourceCitation(d) == CitationText(info)
      ensures old(docId in docSourceMap && docSourceMap[docId] == ExtractPreciseSourceInfo(doc)
                  && ContentHash(doc.content) in contentHashMap
                  && contentHashMap[ContentHash(doc.content)] == ExtractPreciseSourceInfo(doc))
              ==> docSourceMap == old(docSourceMap) && contentHashMap == old(contentHashMap)
    {
      ghost var ids, hashes := docSourceMap, contentHashMap;
      info := ExtractPreciseSourceInfo(doc);
      var h := ContentHash(doc.content);
      docSourceMap := docSourceMap[docId := info];
      contentHashMap := contentHashMap[h := info];
      if docId in ids && ids[docId] == info && h in hashes && hashes[h] == info {
        UpdateSame(ids, docId, info);
        UpdateSame(hashes, h, info);
      }
      forall d: Doc | d.content == doc.content
        ensures GetDetailedSourceInfo(d) == info && GetSourceCitation(d) == CitationText(info)
      {
        assert ContentHash(d.content) == h;
      }
    }
  }
}
