/** `rag_page/simple_rag_with_pages.py`: the retrieval wrapper. The index
    libraries (FAISS, BM25, the ensemble retriever, the text splitter, PDF
    text extraction) are oracles; what is modelled is the control around
    them: the `is_loaded` guard, the prefix cut of search results, the
    module-level `fast_search`, and the ingestion loops that number pages and
    annotate chunk metadata. */
module Retrieval {
  import opened PyText
  import opened Model
  import SourceTracking

  /** What `get_relevant_documents` does for one query: a ranked list, or an exception. */
  datatype Retrieval = Retrieved(docs: seq<Doc>) | RetrievalRaised

  /** A retriever, as the function from query to its outcome. */
  datatype Retriever = Retriever(query: string -> Retrieval)

  /** A loaded index with the retrievers built on it. The fused retriever is
      the library's weighted ensemble of the other two; its fusion rule is
      not part of this model, so the store supplies it. */
  datatype Store = Store(vector: Retriever, lexical: Retriever, fused: Retriever)

  /** The steps of `load_retriever` that can raise, in order. */
  datatype LoadStep = LoadIndex | MakeVectorRetriever | MakeLexicalRetriever | MakeEnsemble

  /** The text `page.extract_text()` gives for one PDF page. */
  datatype PageText = Text(text: string) | NoText | ExtractRaises

  /** A PDF file: its path and its pages, or a file that fails to open. */
  datatype Pdf = Pdf(path: string, pages: seq<PageText>) | Unopenable(path: string)

  /** The documents one PDF contributes, pages numbered from `first`:
      one per page whose text is non-blank, with the stripped text as
      content; extraction stops at the first page that raises. */
  function PageDocs(fileName: string, pages: seq<PageText>, first: nat, total: nat): seq<Doc>
    decreases |pages|
  {
    if pages == [] || pages[0].ExtractRaises? then []
    else PageContribution(fileName, pages[0], first, total) + PageDocs(fileName, pages[1..], first + 1, total)
  }

  /** The page documents from position `i` on: nothing at a page that
      raises, otherwise that page's contribution followed by the rest. */
  lemma PageDocsStep(fileName: string, pages: seq<PageText>, i: nat, total: nat)
    requires i < |pages|
    ensures pages[i].ExtractRaises? ==> PageDocs(fileName, pages[i..], i + 1, total) == []
    ensures !pages[i].ExtractRaises? ==>
              PageDocs(fileName, pages[i..], i + 1, total)
              == PageContribution(fileName, pages[i], i + 1, total) + PageDocs(fileName, pages[i + 1..], i + 2, total)
  {
    SuffixStep(pages, i);
  }

  /** What one page that did not raise adds: its document when its text is
      non-blank, nothing otherwise. */
  function PageContribution(fileName: string, page: PageText, number: nat, total: nat): seq<Doc> {
    if page.Text? && Strip(page.text) != "" then [PageDoc(fileName, Strip(page.text), number, total)] else []
  }

  /** The number of pages read before the first page whose extraction raises. */
  function ReadablePages(pages: seq<PageText>): (n: nat)
    ensures n <= |pages|
    ensures forall i :: 0 <= i < n ==> !pages[i].ExtractRaises?
    ensures n < |pages| ==> pages[n].ExtractRaises?
  {
    if pages == [] || pages[0].ExtractRaises? then 0 else 1 + ReadablePages(pages[1..])
  }

  /** `d` is the document made from page `i` (0-based) of the list. */
  ghost predicate FromPage(d: Doc, fileName: string, pages: seq<PageText>, first: nat, total: nat, i: int) {
    0 <= i < |pages| && pages[i].Text? && Strip(pages[i].text) != ""
    && d == PageDoc(fileName, Strip(pages[i].text), first + i, total)
  }

  /** Every page document comes from a non-blank page read before the
      first failing page, numbered by its position from `first`. */
  lemma {:induction false} PageDocsFromPages(fileName: string, pages: seq<PageText>, first: nat, total: nat)
    ensures forall d :: d in PageDocs(fileName, pages, first, total) ==>
              exists i :: i < ReadablePages(pages) && FromPage(d, fileName, pages, first, total, i)
    decreases |pages|
  {
    if pages != [] && !pages[0].ExtractRaises? {
      var tail := pages[1..];
      var rest := PageDocs(fileName, tail, first + 1, total);
      PageDocsFromPages(fileName, tail, first + 1, total);
      forall d | d in PageDocs(fileName, pages, first, total)
        ensures exists i :: i < ReadablePages(pages) && FromPage(d, fileName, pages, first, total, i)
      {
        if d in rest {
          var i :| i < ReadablePages(tail) && FromPage(d, fileName, tail, first + 1, total, i);
          FromPageShift(d, fileName, pages, first, total, i);
        } else {
          assert FromPage(d, fileName, pages, first, total, 0);
        }
      }
    }
  }

  /** A document from page `i` of the pages after the first is the document
      from page `i + 1` of all of them. */
  lemma FromPageShift(d: Doc, fileName: string, pages: seq<PageText>, first: nat, total: nat, i: int)
    requires pages != [] && FromPage(d, fileName, pages[1..], first + 1, total, i)
    ensures FromPage(d, fileName, pages, first, total, i + 1)
  {
    assert pages[1..][i] == pages[i + 1];
  }

  /** Every non-blank page read before the first failing page becomes a
      document, with its stripped text and its position as page number. */
  lemma PageDocsComplete(fileName: string, pages: seq<PageText>, first: nat, total: nat)
    ensures forall i :: 0 <= i < ReadablePages(pages) && pages[i].Text? && Strip(pages[i].text) != "" ==>
              PageDoc(fileName, Strip(pages[i].text), first + i, total) in PageDocs(fileName, pages, first, total)
  {
    forall i | 0 <= i < ReadablePages(pages) && pages[i].Text? && Strip(pages[i].text) != ""
      ensures PageDoc(fileName, Strip(pages[i].text), first + i, total) in PageDocs(fileName, pages, first, total)
    {
      PageDocListed(fileName, pages, first, total, i, PageDoc(fileName, Strip(pages[i].text), first + i, total));
    }
  }

  /** What page `i`, read before the first failing page, contributes is among the page documents. */
  lemma {:induction false} PageDocListed(fileName: string, pages: seq<PageText>, first: nat, total: nat, i: nat, d: Doc)
    requires i < ReadablePages(pages) && PageContribution(fileName, pages[i], first + i, total) == [d]
    ensures d in PageDocs(fileName, pages, first, total)
    decreases i
  {
    var tail := pages[1..];
    var rest := PageDocs(fileName, tail, first + 1, total);
    assert PageDocs(fileName, pages, first, total) == PageContribution(fileName, pages[0], first, total) + rest;
    if i > 0 {
      assert tail[i - 1] == pages[i];
      assert (first + 1) + (i - 1) == first + i;
      PageDocListed(fileName, tail, first + 1, total, i - 1, d);
    }
  }

  /** Page documents hold stripped, non-empty text. */
  lemma PageDocsContentStripped(fileName: string, pages: seq<PageText>, first: nat, total: nat)
    ensures forall d :: d in PageDocs(fileName, pages, first, total) ==>
              d.content == Strip(d.content) && d.content != ""
  {
    PageDocsFromPages(fileName, pages, first, total);
    forall d | d in PageDocs(fileName, pages, first, total)
      ensures d.content == Strip(d.content) && d.content != ""
    {
      var i :| i < ReadablePages(pages) && FromPage(d, fileName, pages, first, total, i);
      StripIdempotent(pages[i].text);
    }
  }

  function PageDoc(fileName: string, content: string, page: nat, total: nat): Doc {
    Doc(content, map["source" := StrVal(fileName), "page" := IntVal(page), "total_pages" := IntVal(total)])
  }

  /** The documents of all PDFs, file after file. */
  function AllPageDocs(pdfs: seq<Pdf>): seq<Doc> {
    if pdfs == [] then []
    else AllPageDocs(pdfs[..|pdfs| - 1]) + PdfDocs(pdfs[|pdfs| - 1])
  }

  function PdfDocs(pdf: Pdf): seq<Doc> {
    match pdf
    case Unopenable(_) => []
    case Pdf(path, pages) => PageDocs(Basename(path), pages, 1, |pages|)
  }

  /** The metadata a chunk of a page document carries: the page document's
      metadata with `pages = [page]` and `primary_page = page`. */
  function ChunkMetadata(meta: Metadata): Metadata
    requires "page" in meta && meta["page"].IntVal?
  {
    meta["pages" := IntList([meta["page"].i])]["primary_page" := meta["page"]]
  }

  /** The chunks of one page document, as the splitter cuts its content. */
  function ChunksOf(doc: Doc, split: string -> seq<string>): (chunks: seq<Doc>)
    requires "page" in doc.metadata && doc.metadata["page"].IntVal?
    ensures |chunks| == |split(doc.content)|
    ensures forall i :: 0 <= i < |chunks| ==>
              chunks[i] == Doc(split(doc.content)[i], ChunkMetadata(doc.metadata))
  {
    var parts := split(doc.content);
    seq(|parts|, i requires 0 <= i < |parts| => Doc(parts[i], ChunkMetadata(doc.metadata)))
  }

  ghost predicate HasIntPage(docs: seq<Doc>) {
    forall d :: d in docs ==> "page" in d.metadata && d.metadata["page"].IntVal?
  }

  function AllChunks(docs: seq<Doc>, split: string -> seq<string>): seq<Doc>
    requires HasIntPage(docs)
  {
    if docs == [] then []
    else AllChunks(docs[..|docs| - 1], split) + ChunksOf(docs[|docs| - 1], split)
  }

  /** Every chunk of a page document is cited with exactly that page. */
  lemma {:induction false} ChunkPageLabels(docs: seq<Doc>, split: string -> seq<string>)
    requires HasIntPage(docs)
    ensures forall c :: c in AllChunks(docs, split) ==>
              exists d :: d in docs && c.metadata == ChunkMetadata(d.metadata)
                && SourceTracking.PageLabel(c.metadata) == "p." + IntToString(d.metadata["page"].i)
  {
    if docs != [] {
      var init, last := docs[..|docs| - 1], docs[|docs| - 1];
      assert forall d :: d in init ==> d in docs;
      ChunkPageLabels(init, split);
      forall c | c in ChunksOf(last, split)
        ensures c.metadata == ChunkMetadata(last.metadata)
                && SourceTracking.PageLabel(c.metadata) == "p." + IntToString(last.metadata["page"].i)
      {
        var meta := c.metadata;
        assert Get(meta, "pages", IntList([])) == IntList([last.metadata["page"].i]);
      }
    }
  }

  /** How many steps of `load_retriever` complete before `raisesAt` raises. */
  function StepsDone(raisesAt: Option<LoadStep>): (n: nat)
    ensures n <= 4
    ensures n == 4 <==> raisesAt == None
  {
    match raisesAt
    case None => 4
    case Some(LoadIndex) => 0
    case Some(MakeVectorRetriever) => 1
    case Some(MakeLexicalRetriever) => 2
    case Some(MakeEnsemble) => 3
  }

  class SimpleRagWithPages {
    var vectorstore: Option<Store>
    var faissRetriever: Option<Retriever>
    var bm25Retriever: Option<Retriever>
    var ensembleRetriever: Option<Retriever>
    var isLoaded: bool

    /** Loaded only once every retriever is set. */
    ghost predicate Valid()
      reads this
    {
      isLoaded ==> vectorstore.Some? && faissRetriever.Some? && bm25Retriever.Some?
                   && ensembleRetriever.Some?
    }

    constructor ()
      ensures Valid() && !isLoaded
      ensures vectorstore == None && faissRetriever == None && bm25Retriever == None
      ensures ensembleRetriever == None
    {
      vectorstore, faissRetriever, bm25Retriever, ensembleRetriever := None, None, None, None;
      isLoaded := false;
    }

    /** `load_retriever`. `storeExists` is the file-system check, `store` what
        loading yields, `raisesAt` the step that raises, if any. */
    method LoadRetriever(storeExists: bool, store: Store, raisesAt: Option<LoadStep>) returns (ok: bool)
      requires Valid()
      modifies this
      ensures Valid()
      ensures ok <==> isLoaded
      ensures old(isLoaded) ==> ok && unchanged(this)
      ensures !old(isLoaded) && !storeExists ==> !ok && unchanged(this)
      ensures !old(isLoaded) && storeExists ==> (ok <==> raisesAt == None)
      ensures !old(isLoaded) && storeExists && StepsDone(raisesAt) >= 1 ==> vectorstore == Some(store)
      ensures !old(isLoaded) && storeExists && StepsDone(raisesAt) >= 2 ==> faissRetriever == Some(store.vector)
      ensures !old(isLoaded) && storeExists && StepsDone(raisesAt) >= 3 ==> bm25Retriever == Some(store.lexical)
      ensures !old(isLoaded) && ok ==> ensembleRetriever == Some(store.fused)
      ensures !ok ==> isLoaded == old(isLoaded)
      // A step that raises leaves every field it and the later steps would set as it was.
      ensures !old(isLoaded) && storeExists && StepsDone(raisesAt) < 1 ==> vectorstore == old(vectorstore)
      ensures !old(isLoaded) && storeExists && StepsDone(raisesAt) < 2 ==> faissRetriever == old(faissRetriever)
      ensures !old(isLoaded) && storeExists && StepsDone(raisesAt) < 3 ==> bm25Retriever == old(bm25Retriever)
      ensures !old(isLoaded) && storeExists && StepsDone(raisesAt) < 4 ==> ensembleRetriever == old(ensembleRetriever)
    {
      if isLoaded {
        return true;
      }
      if !storeExists {
        return false;
      }
      var done := StepsDone(raisesAt);
      if done == 0 {
        return false;
      }
      vectorstore := Some(store);
      if done == 1 {
        return false;
      }
      faissRetriever := Some(store.vector);
      if done == 2 {
        return false;
      }
      bm25Retriever := Some(store.lexical);
      if done == 3 {
        return false;
      }
      ensembleRetriever := Some(store.fused);
      isLoaded := true;
      return true;
    }

    /** `search`: nothing unless loaded; otherwise the first `k` results of
        the fused retriever, in its order; nothing if it raises (an absent
        retriever raises too). */
    function Search(query: string, k: nat): (r: seq<Doc>)
      reads this
      ensures |r| <= k
      ensures !isLoaded ==> r == []
      ensures isLoaded && ensembleRetriever.None? ==> r == []
      ensures isLoaded && ensembleRetriever.Some? ==>
                match ensembleRetriever.value.query(query)
                case Retrieved(results) => |r| == Min(k, |results|) && r == results[..|r|]
                case RetrievalRaised => r == []
    {
      if !isLoaded then []
      else match ensembleRetriever
        case None => []
        case Some(retriever) =>
          match retriever.query(query)
          case RetrievalRaised => []
          case Retrieved(results) => if |results| > k then results[..k] else results
    }

    /** The page loop for one opened PDF in `create_vectorstore`. */
    method CollectFromPdf(fileName: string, pages: seq<PageText>) returns (docs: seq<Doc>)
      ensures docs == PageDocs(fileName, pages, 1, |pages|)
    {
      docs := [];
      ghost var whole := PageDocs(fileName, pages, 1, |pages|);
      var i := 0;
      assert pages[i..] == pages;
      while i < |pages|
        invariant 0 <= i <= |pages|
        invariant docs + PageDocs(fileName, pages[i..], i + 1, |pages|) == whole
      {
        if pages[i].ExtractRaises? {
          PageDocsStep(fileName, pages, i, |pages|);
          return;
        }
        ghost var before := docs;
        ghost var added := PageContribution(fileName, pages[i], i + 1, |pages|);
        if pages[i].Text? {
          var text := Strip(pages[i].text);
          if text != "" {
            var doc := PageDoc(fileName, text, i + 1, |pages|);
            assert added == [doc];
            docs := docs + [doc];
          } else {
            assert added == [];
          }
        } else {
          assert added == [];
        }
        CollectStep(fileName, pages, i, before, docs);
        i := i + 1;
      }
      assert pages[i..] == [];
    }

    /** One page of the loop in `CollectFromPdf`: adding the page's contribution
        to the documents so far leaves the same documents to come. */
    static lemma CollectStep(fileName: string, pages: seq<PageText>, i: nat, docs: seq<Doc>, next: seq<Doc>)
      requires i < |pages| && !pages[i].ExtractRaises?
      requires next == docs + PageContribution(fileName, pages[i], i + 1, |pages|)
      ensures next + PageDocs(fileName, pages[i + 1..], i + 2, |pages|) == docs + PageDocs(fileName, pages[i..], i + 1, |pages|)
    {
      PageDocsStep(fileName, pages, i, |pages|);
      AppendAssoc(docs, PageContribution(fileName, pages[i], i + 1, |pages|), PageDocs(fileName, pages[i + 1..], i + 2, |pages|));
    }

    /** The page documents `create_vectorstore` collects: files in order,
        pages in order; a file that fails to open contributes nothing. */
    method CollectPageDocuments(pdfs: seq<Pdf>) returns (docs: seq<Doc>)
      ensures docs == AllPageDocs(pdfs)
    {
      docs := [];
      var j := 0;
      while j < |pdfs|
        invariant 0 <= j <= |pdfs|
        invariant docs == AllPageDocs(pdfs[..j])
      {
        var pdf := pdfs[j];
        if pdf.Pdf? {
          var fromFile := CollectFromPdf(Basename(pdf.path), pdf.pages);
          docs := docs + fromFile;
        }
        PrefixOfPrefix(pdfs, j, j + 1);
        j := j + 1;
      }
      assert pdfs[..j] == pdfs;
    }

    /** The chunk loop of `create_vectorstore`: each page document is split
        and every chunk gets `pages = [page]` and `primary_page = page`. */
    method AnnotateChunks(docs: seq<Doc>, split: string -> seq<string>) returns (chunks: seq<Doc>)
      requires HasIntPage(docs)
      ensures chunks == AllChunks(docs, split)
    {
      chunks := [];
      var j := 0;
      while j < |docs|
        invariant 0 <= j <= |docs|
        invariant chunks == AllChunks(docs[..j], split)
      {
        var doc := docs[j];
        var parts := split(doc.content);
        ghost var before := chunks;
        ghost var cs := ChunksOf(doc, split);
        var i := 0;
        while i < |parts|
          invariant 0 <= i <= |parts| == |cs|
          invariant chunks == before + cs[..i]
        {
          var chunk := Doc(parts[i], doc.metadata);
          chunk := chunk.(metadata := chunk.metadata["pages" := IntList([doc.metadata["page"].i])]
                                                    ["primary_page" := doc.metadata["page"]]);
          assert chunk == cs[i];
          PrefixStep(cs, i);
          AppendAssoc(before, cs[..i], [chunk]);
          chunks := chunks + [chunk];
          i := i + 1;
        }
        PrefixAll(cs);
        PrefixOfPrefix(docs, j, j + 1);
        j := j + 1;
      }
      assert docs[..j] == docs;
    }

    /** `create_vectorstore` up to the documents handed to the index
        builder: nothing without PDF files or without any page document. */
    method CreateVectorstore(pdfs: seq<Pdf>, split: string -> seq<string>) returns (chunks: Option<seq<Doc>>)
      ensures pdfs == [] || AllPageDocs(pdfs) == [] <==> chunks == None
      ensures chunks.Some? ==> HasIntPage(AllPageDocs(pdfs))
                               && chunks.value == AllChunks(AllPageDocs(pdfs), split)
    {
      if pdfs == [] {
        return None;
      }
      var docs := CollectPageDocuments(pdfs);
      if docs == [] {
        return None;
      }
      AllPageDocsHavePages(pdfs);
      var all := AnnotateChunks(docs, split);
      return Some(all);
    }
  }

  lemma {:induction false} AllPageDocsHavePages(pdfs: seq<Pdf>)
    ensures HasIntPage(AllPageDocs(pdfs))
  {
    if pdfs != [] {
      AllPageDocsHavePages(pdfs[..|pdfs| - 1]);
      var last := pdfs[|pdfs| - 1];
      if last.Pdf? {
        PageDocsFromPages(Basename(last.path), last.pages, 1, |last.pages|);
      }
    }
  }

  /** `fast_search`: nothing when no instance exists, otherwise the
      instance's `search`. */
  function FastSearch(rag: SimpleRagWithPages?, query: string, k: nat): (r: seq<Doc>)
    reads rag
    ensures |r| <= k
    ensures rag == null ==> r == []
    ensures rag != null ==> r == rag.Search(query, k)
  {
    if rag == null then [] else rag.Search(query, k)
  }
}
