# A verified model of the page-aware RAG pipeline

This project models the control logic of a question-answering service for
the Korean Military Manpower Administration. The service answers a question
with retrieval-augmented generation over a PDF corpus and cites the file and
page of every passage it uses. It is written in Python. The model covers two
files:

- `rag_page/app.py`:
  - `SourceTracker`, the provenance table. It maps a document id and a
    content hash to a file label and a page label.
  - `enhanced_multi_search`, which runs query expansion, a search per
    query, first-occurrence deduplication by content, LLM reranking on a
    1–9 digit scale, a stable descending sort, the `>= 8` threshold and
    the fallback to a plain search.
  - The four LangGraph nodes: `re_writer`, `question_decomposer`,
    `recursive_search` driven by `check_recursion_complete`, and
    `generate_answer`. It also covers the two prompt formatters,
    `format_docs_for_qwen` and `format_chat_history_for_qwen`.
- `rag_page/simple_rag_with_pages.py`: the `SimpleRAGWithPages` retrieval
  wrapper. This covers the `is_loaded` guard of `load_retriever`, `search`
  (a prefix of the ensemble result), the page and chunk loops of
  `create_vectorstore` that set `pages = [page]` and `primary_page = page`,
  and the module-level `fast_search`.

Every external capability is a parameter. The LLM chains (rewrite,
decompose, expand, rerank, generate), `json.loads` and the ensemble
retriever are functions in the `Oracles` and `Retriever` datatypes, and
each one answers or raises (`Reply = Answered(text) | Raised`). The global
`rag_instance` is a `SimpleRagWithPages?` parameter, and the global
`source_tracker` is a `SourceTracker` parameter.

Modules, one per concern of the source:

| file | module | models |
|---|---|---|
| `model.dfy` | `Model` | metadata values, documents, replies, JSON results, messages, the oracles, the content hash |
| `py_text.dfy` | `PyText` | the Python string operations the core uses: `strip`, `str(int)`, `os.path.basename`, `rsplit('.', 1)`, `min`/`max`, slicing, `join` |
| `source_tracker.dfy` | `SourceTracking` | `SourceTracker` as a class with its two maps |
| `retrieval.dfy` | `Retrieval` | `SimpleRAGWithPages` as a class; the page and chunk loops; `fast_search` |
| `multi_search.dfy` | `MultiSearch` | `enhanced_multi_search`, stage by stage |
| `formatting.dfy` | `Formatting` | the Question/Answer pairing, `format_chat_history_for_qwen`, `format_docs_for_qwen` |
| `pipeline.dfy` | `Pipeline` | the graph state, the four nodes and the graph run as a loop |

Each loop in the source is a method with a `while` loop. The method is
proved equal to a specification function, and the properties are lemmas
about that function. The graph state is a value, and each node returns the
new state. `recursive_search` is a function of the state, and the graph's
"continue" edge is a loop with a `decreases` clause.

Places where the code does something other than its own prompts and
comments suggest. The model follows the code:

- The reranker prompt asks for a score from 1 to 10
  (`rag_page/app.py:234-253`). The parser reads one character, so a score
  is never 10, and the reply "10" scores 1
  (`MultiSearch.ReplyTenScoresOne`).
- The "low default score" 3 is given only when the reranker call raises
  (`rag_page/app.py:448-450`). A reply without a digit from 1 to 9 scores 1
  (`rag_page/app.py:440`).
- The expansion prompt asks for at most two queries
  (`rag_page/app.py:207`). The code does not cap the parsed list
  (`rag_page/app.py:395-397`).
- The decomposer keeps any list, including an empty one. An empty list
  means no search and the "no information" answer
  (`rag_page/app.py:532-543`).
- `primary_page` is compared with the integer 0, while `page_span` is
  compared with the string '0' (`rag_page/app.py:300-302`). So a
  `primary_page` of "0" gives the label `p.0`
  (`SourceTracking.PrimaryPageZeroString`).
- Registration is last-writer-wins. The entry of a content is the
  information of the last document with that content
  (`Pipeline.RegisteredHashesEntries`).
- If every LLM call fails but the plain search found documents, the
  answer is the error fallback: the first three documents cut to 300
  characters. It is not the 500-character summary of the first five
  (`Pipeline.AnswerNeverBlank`).

## Model

| member | source | states |
|---|---|---|
| Model.ContentHashInjective | rag_page/app.py:383-385 | two contents get the same key exactly when they are equal |
| PyText.DigitValue | rag_page/app.py:442-443 | `int(char)` of a digit character is at most 9 |
| PyText.StripShape | rag_page/app.py:429 | `strip()` returns a slice of its input, with only whitespace cut on either side, and it neither starts nor ends with whitespace |
| PyText.StripIdempotent | rag_page/app.py:498 | stripping twice is stripping once |
| PyText.StripEmptyIffBlank | rag_page/app.py:685 | `s.strip()` is empty exactly when every character of `s` is whitespace |
| PyText.NatToString | rag_page/app.py:297 | decimal text of a natural: non-empty, all digits, no leading zero |
| PyText.IntToString | rag_page/app.py:297 | decimal text of an integer: non-empty, starts with '-' exactly for negatives |
| PyText.NatToStringRoundTrip | rag_page/app.py:632 | reading back the digits of `str(n)` gives `n` |
| PyText.IntToStringInjective | rag_page/app.py:632 | different integers print differently |
| PyText.Take | rag_page/app.py:542-543 | `xs[:n]` is the prefix of length `min(n, len(xs))` |
| PyText.LastIndexOf | rag_page/app.py:285 | the index of the last occurrence of a character, or -1 when it is absent |
| PyText.Basename | rag_page/app.py:283 | `os.path.basename`: the longest suffix free of '/', which is preceded by '/' when shorter than the path |
| PyText.StripExtension | rag_page/app.py:284-285 | `rsplit('.', 1)[0]`: the text before the last '.', or the name itself without a '.' |
| PyText.SeqMin | rag_page/app.py:299 | `min(pages)` is an element and no element is smaller |
| PyText.SeqMax | rag_page/app.py:299 | `max(pages)` is an element and no element is larger |
| SourceTracking.FileLabelShape | rag_page/app.py:280-287 | a string source yields its basename with the last extension removed (the whole basename iff it has no '.'); any other source yields `str(source)` |
| SourceTracking.PageRange | rag_page/app.py:296-299 | one page prints as that page; several print as `min-max` of the list |
| SourceTracking.PageLabelShape | rag_page/app.py:290-305 | the page label is empty or starts with "p."; a non-empty `pages` list takes priority over the other keys; the label is empty exactly when `pages` is not a non-empty list, `primary_page` is falsy, '?' or 0, and `page_span` is falsy, '?' or '0' |
| SourceTracking.PyStrNonEmpty | rag_page/app.py:300-303 | a truthy `primary_page` or `page_span` prints as non-empty text |
| SourceTracking.ExtractPreciseSourceInfo | rag_page/app.py:275-319 | the file label and page label are those derived from the metadata alone |
| SourceTracking.CitationShape | rag_page/app.py:332-338 | a citation is `[출처: <file>…]` ending in ']', and it is `[출처: <file>]` exactly when the page label is empty |
| SourceTracking.CitationDependsOnlyOnMetadata | rag_page/app.py:329-330 | the fresh citation of two documents with equal metadata is the same |
| SourceTracking.PrimaryPageZeroString | rag_page/app.py:300 | the string "0" as primary page gives "p.0", while the integer 0 gives no page label |
| SourceTracking.SourceTracker.constructor | rag_page/app.py:261-263 | both maps start empty |
| SourceTracking.SourceTracker.GetDetailedSourceInfo | rag_page/app.py:340-347 | the registered information for the content when there is one, the freshly derived information otherwise |
| SourceTracking.SourceTracker.GetSourceCitation | rag_page/app.py:321-338 | the citation of the information `get_detailed_source_info` returns, with no change to the maps |
| SourceTracking.SourceTracker.RegisterDocument | rag_page/app.py:265-273 | both maps get the derived information under the id and the content key and nothing else changes; afterwards every document with that content looks up this information; registering the same document again changes nothing |
| Retrieval.PageDocsStep | rag_page/simple_rag_with_pages.py:77-95 | a page whose extraction raises ends the PDF's page loop; any other page contributes its document, then the loop goes on |
| Retrieval.ReadablePages | rag_page/simple_rag_with_pages.py:77-95 | the pages read before the first one whose extraction raises |
| Retrieval.PageDocsFromPages | rag_page/simple_rag_with_pages.py:79-90 | every page document comes from a readable page, with its stripped text, its file name, its 1-based page number and the page count |
| Retrieval.PageDocsComplete | rag_page/simple_rag_with_pages.py:79-90 | every readable page with non-blank text yields a document |
| Retrieval.PageDocsContentStripped | rag_page/simple_rag_with_pages.py:80-83 | page documents have non-empty, already stripped content |
| Retrieval.ChunksOf | rag_page/simple_rag_with_pages.py:113-121 | each chunk of a page document carries a split text and the page's metadata with `pages = [page]` and `primary_page = page` |
| Retrieval.ChunkPageLabels | rag_page/simple_rag_with_pages.py:115-120 | every chunk comes from a page document and its citation page label is `p.<page>` |
| Retrieval.AllPageDocsHavePages | rag_page/simple_rag_with_pages.py:82-88 | every page document has an integer `page`, which the chunk loop needs |
| Retrieval.StepsDone | rag_page/simple_rag_with_pages.py:149-183 | how many of the four loading steps complete; all four exactly when none raises |
| Retrieval.SimpleRagWithPages.constructor | rag_page/simple_rag_with_pages.py:50-54 | nothing loaded, every retriever unset |
| Retrieval.SimpleRagWithPages.LoadRetriever | rag_page/simple_rag_with_pages.py:139-183 | an instance already loaded returns true and changes nothing; a missing store returns false and changes nothing; otherwise each field set before a raising step keeps its new value, the field of the raising step and all later ones keep their old values, and the result and `is_loaded` are true exactly when no step raises; a false result leaves `is_loaded` as it was |
| Retrieval.SimpleRagWithPages.Search | rag_page/simple_rag_with_pages.py:185-204 | `[]` when not loaded, when no ensemble retriever is set or when it raises, else the first `min(k, n)` results in order; never more than `k` |
| Retrieval.SimpleRagWithPages.CollectFromPdf | rag_page/simple_rag_with_pages.py:77-95 | the page loop of one PDF builds exactly its page documents |
| Retrieval.SimpleRagWithPages.CollectPageDocuments | rag_page/simple_rag_with_pages.py:73-95 | the loop over PDFs builds the page documents of every PDF, in order |
| Retrieval.SimpleRagWithPages.AnnotateChunks | rag_page/simple_rag_with_pages.py:112-121 | the chunk loop builds the annotated chunks of every page document, in order |
| Retrieval.SimpleRagWithPages.CreateVectorstore | rag_page/simple_rag_with_pages.py:60-121 | no result exactly when there is no PDF or no page document; otherwise the chunks handed to the index are the annotated chunks of all page documents |
| Retrieval.FastSearch | rag_page/simple_rag_with_pages.py:224-232 | `[]` without an instance, otherwise exactly the instance's `search` |
| MultiSearch.QueryList | rag_page/app.py:393-400 | a parsed list is used as is, of any length; anything else falls back to `[question]` |
| MultiSearch.QueryResults | rag_page/app.py:407-410 | one search of depth 5 per query, in query order |
| MultiSearch.DedupAppend | rag_page/app.py:412-416 | deduplicating two lists one after the other equals deduplicating their concatenation |
| MultiSearch.DedupFresh | rag_page/app.py:412-416 | a kept document comes from the input and its key was not seen before |
| MultiSearch.DedupNoDuplicates | rag_page/app.py:412-416 | no two kept documents share content |
| MultiSearch.DedupKeepsFirst | rag_page/app.py:412-416 | the first document of each unseen content is kept |
| MultiSearch.DedupOnlyFirst | rag_page/app.py:412-416 | only first occurrences of unseen contents are kept |
| MultiSearch.DedupExactlyFirst | rag_page/app.py:404-416 | a document is kept exactly when it is the first of its content |
| MultiSearch.DedupCovers | rag_page/app.py:404-416 | every content of the input appears among the kept documents |
| MultiSearch.DedupInOrder | rag_page/app.py:412-416 | the kept documents sit at strictly increasing positions of the input, so the input order is kept |
| MultiSearch.MergedGuarantees | rag_page/app.py:404-420 | the merged list is duplicate-free; it holds exactly the first occurrence of each content in query-then-rank order; it keeps that order (the documents sit at increasing positions of the concatenated results); and it covers every content any query returned |
| MultiSearch.AddUnseen | rag_page/app.py:412-416 | the inner loop appends the unseen-content documents of one search and grows the seen set accordingly |
| MultiSearch.MergeSearchResults | rag_page/app.py:404-420 | the query loop builds the merged list |
| MultiSearch.FirstScoreDigit | rag_page/app.py:440-446 | a parsed score lies in 1..9 |
| MultiSearch.FirstScoreDigitIsFirst | rag_page/app.py:440-446 | the score is the value of the first digit from 1 to 9 in the reply, or 1 when the reply has none |
| MultiSearch.ReplyTenScoresOne | rag_page/app.py:441-446 | the reply "10" scores 1: the scan stops at '1' |
| MultiSearch.RelevanceScore | rag_page/app.py:428-450 | every document's score lies in 1..9 |
| MultiSearch.ScoreAll | rag_page/app.py:425-450 | each merged document gets exactly one score, in merge order |
| MultiSearch.ParseScore | rag_page/app.py:440-446 | the character scan computes the parsed score |
| MultiSearch.ScoreDocument | rag_page/app.py:428-450 | one document's score: 1 for stripped content shorter than 10 without a reranker call, 3 when the call raises, the parsed reply otherwise |
| MultiSearch.ScoreDocuments | rag_page/app.py:425-450 | the scoring loop builds every document's pair |
| MultiSearch.InsertPermutes | rag_page/app.py:453 | insertion adds exactly the one element |
| MultiSearch.InsertKeepsOrder | rag_page/app.py:453 | inserting into a non-increasing list keeps it non-increasing |
| MultiSearch.SortOrders | rag_page/app.py:453 | the sort is non-increasing by score |
| MultiSearch.SortPermutes | rag_page/app.py:453 | the sort is a permutation of its input |
| MultiSearch.InsertWithScore | rag_page/app.py:453 | inserting puts an element after every element of equal score already present |
| MultiSearch.SortStable | rag_page/app.py:453 | the sort is stable: the elements of any one score keep their relative order |
| MultiSearch.ThresholdOfSorted | rag_page/app.py:454 | in a sorted list of scores up to 9, the `>= 8` filter yields the 9s then the 8s |
| MultiSearch.WithScoreMembers | rag_page/app.py:454 | the elements of one score are exactly the entries with that score |
| MultiSearch.WithScoreDistinct | rag_page/app.py:454 | selecting one score keeps contents distinct |
| MultiSearch.RelevantIsNinesThenEights | rag_page/app.py:453-454 | sorting then filtering yields the 9-scored documents then the 8-scored ones, each in merge order |
| MultiSearch.SelectedOrdered | rag_page/app.py:453-454 | the selection is non-increasing by score |
| MultiSearch.SelectedMembers | rag_page/app.py:454 | the selection holds exactly the entries scoring at least 8 |
| MultiSearch.SelectedDistinct | rag_page/app.py:454 | the selection of distinct entries has distinct contents |
| MultiSearch.ScoreAllEntries | rag_page/app.py:425-450 | the scored pairs are exactly the merged documents with their scores; distinct contents stay distinct |
| MultiSearch.RelevantAsEntries | rag_page/app.py:453-454 | the returned documents are, position by position, those of the selected pairs |
| MultiSearch.RelevantMembers | rag_page/app.py:453-454 | a document is returned exactly when it was merged and scores at least 8 |
| MultiSearch.RelevantOrdered | rag_page/app.py:453-454 | returned documents are in non-increasing score order |
| MultiSearch.RelevantDistinct | rag_page/app.py:453-454 | returned documents have distinct contents |
| MultiSearch.MultiSearchGuarantees | rag_page/app.py:387-460 | if expansion raises, the result is the plain search of depth 10 (at most 10 documents); otherwise it is duplicate-free, holds exactly the merged documents scoring at least 8, and is ordered by score |
| MultiSearch.EnhancedMultiSearch | rag_page/app.py:387-460 | the whole stage computes the specified result |
| Formatting.PairLines | rag_page/app.py:478-495 | the pairing yields at most one line per message |
| Formatting.PairLinesAlternate | rag_page/app.py:484-493 | when every message has content, line k is "Question: " for even k and "Answer: " for odd k, followed by message k's content |
| Formatting.PairStep | rag_page/app.py:484-493 | one loop turn adds the question line of message i and the answer line of message i+1 |
| Formatting.PairHistory | rag_page/app.py:478-495 | the pairing loop joins the pair lines with newlines |
| Formatting.HistoryLine | rag_page/app.py:654-658 | a user or human message prints as "human: …", any other as "AI: …" |
| Formatting.HistoryLines | rag_page/app.py:652-659 | one line per message, in order |
| Formatting.LastAssistantAnswerIsLast | rag_page/app.py:645-651 | the previous answer is the content of the last assistant message, or empty when there is none |
| Formatting.ChatHistoryPlaceholderIffEmpty | rag_page/app.py:642-662 | the text is "없음" exactly for an empty history; otherwise it opens with the first message's line |
| Formatting.PreviousAnswer | rag_page/app.py:644-651 | the backward scan finds the last assistant answer before the final message |
| Formatting.FormatChatHistoryForQwen | rag_page/app.py:640-662 | the function computes the specified history text |
| Formatting.DocBlocks | rag_page/app.py:619-637 | at most 15 blocks, block i for document i with id i+1 and the tracker's citation and information |
| Formatting.DocBlockHead | rag_page/app.py:631-633 | a block opens with its id tag and then the document's content |
| Formatting.DocBlocksNumbered | rag_page/app.py:622-633 | block i opens with id i+1 and then the content of document i |
| Formatting.DocIdsDistinct | rag_page/app.py:632 | blocks at different positions open with different id tags |
| Formatting.FormatDocsForQwen | rag_page/app.py:619-638 | the loop joins the specified blocks with blank lines |
| Pipeline.RewrittenQuestion | rag_page/app.py:473-514 | the new question is the old one or the rewrite, and never more than twice as long as the old one |
| Pipeline.RewriteCases | rag_page/app.py:497-514 | the question is kept for a stripped history shorter than 10 characters, a raised call or an over-long rewrite; otherwise the rewrite is taken |
| Pipeline.ReWriter | rag_page/app.py:473-514 | the node changes only the question |
| Pipeline.DecomposeFrom | rag_page/app.py:516-572 | there are never more than 3 sub-questions |
| Pipeline.DecomposeUsesThreeAttempts | rag_page/app.py:518-520 | only the first three attempts affect the outcome |
| Pipeline.DecomposeOutcomes | rag_page/app.py:520-563 | `[question]` when all three attempts raise; otherwise the first answer's list cut to 3 (possibly empty), or `[question]` for a non-list |
| Pipeline.QuestionDecomposer | rag_page/app.py:516-572 | the node sets the sub-questions, resets the cursor, the documents and the answer, and keeps the other fields |
| Pipeline.CheckRecursionComplete | rag_page/app.py:607-615 | "complete" exactly when the cursor is at or past the end |
| Pipeline.SubSearches | rag_page/app.py:588-595 | one multi-search per sub-question, in order |
| Pipeline.SearchStep | rag_page/app.py:581-605 | a visit with the cursor in range appends the current sub-question's results and advances the cursor |
| Pipeline.SearchUntilComplete | rag_page/app.py:575-615 | the search loop visits every sub-question index from the cursor once, in order; it ends complete, with the results concatenated after the earlier documents |
| Pipeline.StoreLastWins | rag_page/app.py:270-271 | after a series of map writes, each key holds its last written value and unwritten keys keep their entries |
| Pipeline.DocIdInjective | rag_page/app.py:676 | the ids `doc_i` of different positions differ |
| Pipeline.RegisteredIdsEntries | rag_page/app.py:675-676 | after registration, `doc_i` maps to the information of document i and other ids keep their entries |
| Pipeline.RegisteredHashesEntries | rag_page/app.py:675-676 | after registration, a content maps to the information of the last document with that content; other keys keep their entries |
| Pipeline.Summaries | rag_page/app.py:687-691 | one summary per document for the first n documents: the content cut to the width, then the citation |
| Pipeline.Summarize | rag_page/app.py:703-707 | the summary loop builds the specified summaries |
| Pipeline.AnswerNeverBlank | rag_page/app.py:684-711 | the answer is never blank: a non-blank reply is passed through, a blank one gives the "found" fallback and a raised call the error fallback |
| Pipeline.AnswerTextNeverBlank | rag_page/app.py:665-712 | `generate_answer` never yields a blank answer, and yields the "no information" text when there are no documents |
| Pipeline.CitationAfterRegistration | rag_page/app.py:675-690 | after registration, a document is cited by the metadata of the last document with the same content |
| Pipeline.GenerateAnswer | rag_page/app.py:665-712 | the node registers every document under `doc_i` and its content key, then sets only the answer |
| Pipeline.AnswerFor | rag_page/app.py:678-711 | the generator call and its fallbacks compute the specified answer |
| Pipeline.AnswerTextFromReply | rag_page/app.py:678-682 | with documents, the answer depends on the generator's reply to the formatted blocks and history |
| Pipeline.RunGraph | rag_page/app.py:715-737 | one graph run: rewritten question, decomposed sub-questions each searched once in order, the documents concatenated, all of them registered, and the answer for them |

## Left out

- The FastAPI routes, CORS, templates, session dictionaries, `ChatManager`
  and the WebSocket loop. These are transport and per-session I/O.
- `process_rag_query`, including its second copy of the Question/Answer
  pairing. It only wires the graph to the session store.
- The prompt texts and LLM clients. Each chain's `invoke` is a field of
  `Oracles` that answers or raises. The oracles are functions, so one
  input always gets the same reply; the nondeterminism of a real model is
  not modelled.
- The LangGraph compilation, `MemorySaver`, `RunnableConfig` and the
  recursion limit. The graph is an explicit loop with a `decreases` clause.
- Model.ContentHash: md5 is modelled as the identity on the content.
  Real md5 collisions and the 32-character hex form are not modelled.
- Unicode `isdigit`: only the ASCII digits '0' to '9' are read as score
  digits. Other characters for which `isdigit()` holds, and on which
  `int()` would raise or give another value, are not modelled. Whitespace
  is Python's full `isspace()` set.
- `json.loads` is an oracle that returns a list of strings, a non-list or
  a failure. Lists whose items are not strings are not modelled.
- Chat messages are values with a role and an optional content. The
  `getattr` and dict duck typing of the formatters, and the `type`
  fallback for the role, are collapsed into these two fields.
- The ensemble retriever's 0.6/0.4 rank fusion, FAISS, BM25, the Ollama
  embeddings, the tokenizer, `count_tokens`, pdfplumber, the text
  splitter and the file-system checks.
  - Retrieval results, page texts and the splitter are parameters.
  - Each loading step of `load_retriever` either completes or raises, as
    a parameter says.
  - `create_vectorstore` yields the chunks it would index. Building and
    saving the FAISS index is not modelled.
- `init_fast_rag` and `reset_rag`: the global instance is a parameter.
- `rag_page/make_vector_store.py`, the browser scripts, and all `print`
  and traceback logging.
- Exception handlers the model cannot reach:
  - The per-query `except` in `enhanced_multi_search` is never taken,
    because `fast_search` never raises.
  - Only query expansion can reach the outer fallback.
  - Only the generator call can raise in `generate_answer`.
  - So the "죄송합니다…" apology (no documents and an exception) is not
    produced.
- MultiSearch.SortByScoreDesc: `list.sort(reverse=True)` in place is
  modelled as a stable insertion sort on a value. The in-place update is
  not modelled.
- Pipeline.DecomposeFrom: the retry loop is bounded by the three attempts
  of the source. The attempt number is passed to the decompose oracle, so
  each attempt may answer differently.
