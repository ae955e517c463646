/** The LangGraph workflow of `rag_page/app.py`: `re_writer` ->
    `question_decomposer` -> `recursive_search`, repeated while
    `check_recursion_complete` says "continue" -> `generate_answer`. The
    graph state is a value; every node returns the new state. */
module Pipeline {
  import opened PyText
  import opened Model
  import opened SourceTracking
  import opened Retrieval
  import opened MultiSearch
  import opened Formatting

  /** Rendered histories shorter than this (stripped) skip the rewrite. */
  const MinHistory: nat := 10
  const MaxSubQuestions: nat := 3
  const MaxRetries: nat := 3
  const NoInfoAnswer: string := "제공된 문서에는 해당 질문에 대한 정보가 없습니다."
  const FoundPrefix: string := "문서에서 찾은 정보:\n\n"
  const ErrorPrefix: string := "처리 중 오류가 발생했지만, 다음 정보를 찾았습니다:\n\n"
  /** Documents and characters per document of the empty-answer fallback. */
  const FoundDocs: nat := 5
  const FoundWidth: nat := 500
  /** Documents and characters per document of the error fallback. */
  const ErrorDocs: nat := 3
  const ErrorWidth: nat := 300

  /** `GraphState`. */
  datatype GraphState = GraphState(
    question: string,
    chatHistory: History,
    subQuestions: seq<string>,
    index: nat,
    document: seq<Doc>,
    generation: string)

  datatype Route = Continue | Complete

  // ---------------------------------------------------------------------------
  // re_writer

  /** The history text the rewriter sees: a string as is, a message list
      through the Question/Answer pairing. */
  function RenderedHistory(h: History): string {
    match h
    case HistoryText(t) => t
    case HistoryMessages(ms) => Join(PairLines(ms), "\n")
  }

  /** The skip test: an empty, blank or (stripped) shorter-than-10 history. */
  predicate SkipRewrite(rendered: string) {
    rendered == "" || Strip(rendered) == "" || |Strip(rendered)| < MinHistory
  }

  /** The question after `re_writer`: the rewrite when there is enough
      history, the call succeeds and the rewrite is at most twice as long as
      the question; the question itself otherwise. */
  function RewrittenQuestion(question: string, h: History, rewrite: (string, string) -> Reply): (q: string)
    ensures |q| <= 2 * |question|
    ensures q == question || rewrite(question, RenderedHistory(h)) == Answered(q)
  {
    var rendered := RenderedHistory(h);
    if SkipRewrite(rendered) then question
    else match rewrite(question, rendered)
      case Raised => question
      case Answered(r) => if |r| > 2 * |question| then question else r
  }

  /** The three cases that keep the question, and the one that does not. */
  lemma RewriteCases(question: string, h: History, rewrite: (string, string) -> Reply)
    ensures |Strip(RenderedHistory(h))| < MinHistory ==> RewrittenQuestion(question, h, rewrite) == question
    ensures rewrite(question, RenderedHistory(h)).Raised? ==> RewrittenQuestion(question, h, rewrite) == question
    ensures var reply := rewrite(question, RenderedHistory(h));
            reply.Answered? && |reply.text| > 2 * |question| ==> RewrittenQuestion(question, h, rewrite) == question
    ensures var reply := rewrite(question, RenderedHistory(h));
            reply.Answered? && |reply.text| <= 2 * |question| && |Strip(RenderedHistory(h))| >= MinHistory ==>
              RewrittenQuestion(question, h, rewrite) == reply.text
  {
    var rendered := RenderedHistory(h);
    if rendered == "" {
      assert Strip(rendered) == "";
    }
  }

  /** `re_writer`: only the question changes. */
  method ReWriter(s: GraphState, rewrite: (string, string) -> Reply) returns (s': GraphState)
    ensures s' == s.(question := RewrittenQuestion(s.question, s.chatHistory, rewrite))
  {
    var rendered: string;
    match s.chatHistory {
      case HistoryMessages(ms) =>
        rendered := PairHistory(ms);
      case HistoryText(t) =>
        rendered := t;
    }
    if SkipRewrite(rendered) {
      return s;
    }
    match rewrite(s.question, rendered)
    case Raised =>
      s' := s;
    case Answered(rewritten) =>
      if |rewritten| > |s.question| * 2 {
        s' := s;
      } else {
        s' := s.(question := rewritten);
      }
  }

  // ---------------------------------------------------------------------------
  // question_decomposer

  /** The sub-questions of the first attempt whose call returns, from
      attempt `attempt` on: the parsed list (or the question alone) cut to
      three; the question alone when every attempt up to the third raises. */
  function DecomposeFrom(question: string, decompose: (string, nat) -> Reply, loads: string -> Json, attempt: nat)
    : (subs: seq<string>)
    ensures |subs| <= MaxSubQuestions
    decreases MaxRetries - attempt
  {
    if attempt >= MaxRetries then [question]
    else match decompose(question, attempt)
      case Raised => DecomposeFrom(question, decompose, loads, attempt + 1)
      case Answered(text) => Take(QueryList(loads(text), question), MaxSubQuestions)
  }

  /** Only the first three attempts matter: oracles that agree on them give
      the same sub-questions. */
  lemma {:induction false} DecomposeUsesThreeAttempts(question: string, d1: (string, nat) -> Reply,
                                                      d2: (string, nat) -> Reply, loads: string -> Json, attempt: nat)
    requires forall k: nat :: attempt <= k < MaxRetries ==> d1(question, k) == d2(question, k)
    ensures DecomposeFrom(question, d1, loads, attempt) == DecomposeFrom(question, d2, loads, attempt)
    decreases MaxRetries - attempt
  {
    if attempt < MaxRetries && d1(question, attempt).Raised? {
      DecomposeUsesThreeAttempts(question, d1, d2, loads, attempt + 1);
    }
  }

  /** The outcomes: the question alone when all three attempts raise;
      otherwise the first answer's parse, which is the question alone for a
      non-list and at most the first three items of a list (possibly none). */
  lemma {:induction false} DecomposeOutcomes(question: string, decompose: (string, nat) -> Reply, loads: string -> Json, attempt: nat)
    ensures (forall k: nat :: attempt <= k < MaxRetries ==> decompose(question, k).Raised?) ==>
              DecomposeFrom(question, decompose, loads, attempt) == [question]
    ensures forall k: nat :: attempt <= k < MaxRetries && decompose(question, k).Answered?
                             && (forall j: nat :: attempt <= j < k ==> decompose(question, j).Raised?) ==>
              var parsed := loads(decompose(question, k).text);
              DecomposeFrom(question, decompose, loads, attempt)
                == (if parsed.JsonList? then Take(parsed.items, MaxSubQuestions) else [question])
    decreases MaxRetries - attempt
  {
    if attempt < MaxRetries {
      DecomposeOutcomes(question, decompose, loads, attempt + 1);
    }
  }

  /** `question_decomposer`: up to three attempts; sets the sub-questions,
      resets the cursor, the documents and the answer, keeps the rest. */
  method QuestionDecomposer(s: GraphState, decompose: (string, nat) -> Reply, loads: string -> Json)
    returns (s': GraphState)
    ensures s' == s.(subQuestions := DecomposeFrom(s.question, decompose, loads, 0),
                     index := 0, document := [], generation := "")
  {
    var attempt: nat := 0;
    while attempt < MaxRetries
      invariant attempt <= MaxRetries
      invariant DecomposeFrom(s.question, decompose, loads, attempt) == DecomposeFrom(s.question, decompose, loads, 0)
    {
      match decompose(s.question, attempt) {
        case Answered(result) =>
          var subQuestions := QueryList(loads(result), s.question);
          if |subQuestions| > MaxSubQuestions {
            subQuestions := subQuestions[..MaxSubQuestions];
          }
          return s.(subQuestions := subQuestions, index := 0, document := [], generation := "");
        case Raised =>
          if attempt == MaxRetries - 1 {
            return s.(subQuestions := [s.question], index := 0, document := [], generation := "");
          }
      }
      attempt := attempt + 1;
    }
    return s.(subQuestions := [s.question], index := 0, document := [], generation := "");
  }

  // ---------------------------------------------------------------------------
  // recursive_search and check_recursion_complete

  /** `recursive_search`: past the end, the state is returned as is;
      otherwise the current sub-question's search results are appended and
      the cursor advances. */
  function RecursiveSearch(s: GraphState, rag: SimpleRagWithPages?, o: Oracles): GraphState
    reads rag
  {
    if s.index >= |s.subQuestions| then s
    else s.(document := s.document + MultiSearchResult(rag, s.subQuestions[s.index], o), index := s.index + 1)
  }

  /** `check_recursion_complete`. */
  function CheckRecursionComplete(s: GraphState): (r: Route)
    ensures r == Complete <==> s.index >= |s.subQuestions|
  {
    if s.index >= |s.subQuestions| then Complete else Continue
  }

  /** The search results of every sub-question, in order. */
  function SubSearches(rag: SimpleRagWithPages?, subs: seq<string>, o: Oracles): (rs: seq<seq<Doc>>)
    reads rag
    ensures |rs| == |subs|
    ensures forall i :: 0 <= i < |subs| ==> rs[i] == MultiSearchResult(rag, subs[i], o)
  {
    seq(|subs|, i reads rag requires 0 <= i < |subs| => MultiSearchResult(rag, subs[i], o))
  }

  /** The search results of the sub-questions from `from` on, concatenated. */
  function Searched(rag: SimpleRagWithPages?, subs: seq<string>, from: nat, o: Oracles): seq<Doc>
    reads rag
  {
    if from >= |subs| then [] else Flatten(SubSearches(rag, subs, o)[from..])
  }

  /** `lo, lo + 1, ..., hi - 1`. */
  function Range(lo: nat, hi: nat): (r: seq<nat>)
    ensures |r| == if lo <= hi then hi - lo else 0
    ensures forall k :: 0 <= k < |r| ==> r[k] == lo + k
    decreases hi - lo
  {
    if lo >= hi then [] else [lo] + Range(lo + 1, hi)
  }

  /** The search part of the graph: `recursive_search` once, then again for
      as long as `check_recursion_complete` says "continue". `searched`
      lists the sub-question indices searched, in order. */
  method SearchUntilComplete(s: GraphState, rag: SimpleRagWithPages?, o: Oracles)
    returns (s': GraphState, ghost searched: seq<nat>)
    ensures s' == s.(document := s.document + Searched(rag, s.subQuestions, s.index, o),
                     index := if s.index < |s.subQuestions| then |s.subQuestions| else s.index)
    ensures searched == Range(s.index, |s.subQuestions|)
    ensures CheckRecursionComplete(s') == Complete
  {
    var subs := s.subQuestions;
    if s.index >= |subs| {
      // The first visit already finds the cursor past the end.
      s' := RecursiveSearch(s, rag, o);
      searched := [];
      return;
    }
    ghost var results := SubSearches(rag, subs, o);
    SearchStep(s, rag, o, results);
    s' := RecursiveSearch(s, rag, o);
    searched := [s.index];
    ProgressStart(s, results);
    while CheckRecursionComplete(s') == Continue
      invariant SearchProgress(s, s', results, searched)
      decreases |subs| - s'.index
    {
      SearchStep(s', rag, o, results);
      ProgressStep(s, s', results, searched);
      searched := searched + [s'.index];
      s' := RecursiveSearch(s', rag, o);
    }
    ProgressDone(s, s', results, searched);
  }

  /** One visit of `recursive_search` with the cursor in range appends the
      results of the current sub-question and advances the cursor. */
  lemma SearchStep(s: GraphState, rag: SimpleRagWithPages?, o: Oracles, results: seq<seq<Doc>>)
    requires s.index < |s.subQuestions|
    requires results == SubSearches(rag, s.subQuestions, o)
    ensures RecursiveSearch(s, rag, o) == Advance(s, results)
  {
  }

  /** A visit of `recursive_search` in terms of the sub-questions' results. */
  function Advance(s: GraphState, results: seq<seq<Doc>>): (t: GraphState)
    requires s.index < |results|
  {
    s.(document := s.document + results[s.index], index := s.index + 1)
  }

  /** What the search loop keeps: the state `t` reached from `s` differs only
      in its documents and cursor; the documents gathered so far followed by
      the results still to come are those of the whole search, and the
      indices searched are those between the two cursors. */
  ghost predicate SearchProgress(s: GraphState, t: GraphState, results: seq<seq<Doc>>, searched: seq<nat>)
  {
    t.question == s.question && t.chatHistory == s.chatHistory
    && t.subQuestions == s.subQuestions && t.generation == s.generation
    && |results| == |s.subQuestions| && s.index < t.index <= |results|
    && t.document + Flatten(results[t.index..]) == s.document + Flatten(results[s.index..])
    && searched == Range(s.index, t.index)
  }

  lemma ProgressStart(s: GraphState, results: seq<seq<Doc>>)
    requires s.index < |results| == |s.subQuestions|
    ensures SearchProgress(s, Advance(s, results), results, [s.index])
  {
    FlattenStep(results, s.index);
    var rest := Flatten(results[s.index + 1..]);
    AppendAssoc(s.document, results[s.index], rest);
  }

  lemma ProgressStep(s: GraphState, t: GraphState, results: seq<seq<Doc>>, searched: seq<nat>)
    requires SearchProgress(s, t, results, searched) && t.index < |results|
    ensures SearchProgress(s, Advance(t, results), results, searched + [t.index])
  {
    FlattenStep(results, t.index);
    var rest := Flatten(results[t.index + 1..]);
    AppendAssoc(t.document, results[t.index], rest);
    RangeSnoc(s.index, t.index);
  }

  lemma ProgressDone(s: GraphState, t: GraphState, results: seq<seq<Doc>>, searched: seq<nat>)
    requires SearchProgress(s, t, results, searched) && t.index >= |results|
    ensures t == s.(document := s.document + Flatten(results[s.index..]), index := |results|)
    ensures searched == Range(s.index, |results|)
  {
    assert results[t.index..] == [];
  }

  lemma RangeSnoc(lo: nat, hi: nat)
    requires lo <= hi
    ensures Range(lo, hi + 1) == Range(lo, hi) + [hi]
  {
  }

  /** One step of the concatenation. */
  lemma FlattenStep(lists: seq<seq<Doc>>, from: nat)
    requires from < |lists|
    ensures Flatten(lists[from..]) == lists[from] + Flatten(lists[from + 1..])
  {
    SuffixStep(lists, from);
  }

  // ---------------------------------------------------------------------------
  // generate_answer

  function DocId(i: nat): string {
    "doc_" + IntToString(i)
  }

  /** `m` after storing `vals[0]` under `keys[0]`, then `vals[1]` under
      `keys[1]`, and so on. */
  function Store(m: map<string, SourceInfo>, keys: seq<string>, vals: seq<SourceInfo>): map<string, SourceInfo>
    requires |keys| == |vals|
  {
    if keys == [] then m
    else Store(m, keys[..|keys| - 1], vals[..|vals| - 1])[keys[|keys| - 1] := vals[|vals| - 1]]
  }

  /** A stored key holds the value of its last occurrence (last writer
      wins); a key never stored keeps its entry. */
  lemma StoreLastWins(m: map<string, SourceInfo>, keys: seq<string>, vals: seq<SourceInfo>)
    requires |keys| == |vals|
    ensures forall i :: 0 <= i < |keys| && (forall j :: i < j < |keys| ==> keys[j] != keys[i]) ==>
              keys[i] in Store(m, keys, vals) && Store(m, keys, vals)[keys[i]] == vals[i]
    ensures forall key :: key in m && key !in keys ==> key in Store(m, keys, vals) && Store(m, keys, vals)[key] == m[key]
  {
    forall i | 0 <= i < |keys| && (forall j :: i < j < |keys| ==> keys[j] != keys[i])
      ensures keys[i] in Store(m, keys, vals) && Store(m, keys, vals)[keys[i]] == vals[i]
    {
      StoreLastAt(m, keys, vals, i);
    }
    forall key | key in m && key !in keys
      ensures key in Store(m, keys, vals) && Store(m, keys, vals)[key] == m[key]
    {
      StoreKeeps(m, keys, vals, key);
    }
  }

  /** The last occurrence of a key decides its entry. */
  lemma {:induction false} StoreLastAt(m: map<string, SourceInfo>, keys: seq<string>, vals: seq<SourceInfo>, i: int)
    requires |keys| == |vals| && 0 <= i < |keys|
    requires forall j :: i < j < |keys| ==> keys[j] != keys[i]
    ensures keys[i] in Store(m, keys, vals) && Store(m, keys, vals)[keys[i]] == vals[i]
  {
    var n := |keys| - 1;
    if i < n {
      var ks, vs := keys[..n], vals[..n];
      forall j | i < j < n ensures ks[j] != ks[i] {
        assert ks[j] == keys[j] && ks[i] == keys[i];
      }
      StoreLastAt(m, ks, vs, i);
      assert ks[i] == keys[i] && vs[i] == vals[i];
    }
  }

  /** A key that is never stored keeps its entry. */
  lemma {:induction false} StoreKeeps(m: map<string, SourceInfo>, keys: seq<string>, vals: seq<SourceInfo>, key: string)
    requires |keys| == |vals| && key in m && key !in keys
    ensures key in Store(m, keys, vals) && Store(m, keys, vals)[key] == m[key]
  {
    if keys != [] {
      var n := |keys| - 1;
      assert key !in keys[..n];
      StoreKeeps(m, keys[..n], vals[..n], key);
    }
  }

  /** Storing one more pair. */
  lemma StoreStep(m: map<string, SourceInfo>, keys: seq<string>, vals: seq<SourceInfo>, i: nat)
    requires |keys| == |vals| && i < |keys|
    ensures Store(m, keys[..i + 1], vals[..i + 1]) == Store(m, keys[..i], vals[..i])[keys[i] := vals[i]]
  {
    assert keys[..i + 1][..i] == keys[..i] && vals[..i + 1][..i] == vals[..i];
  }

  /** The ids "doc_0", "doc_1", ... of `n` documents. */
  function Ids(n: nat): (ids: seq<string>)
    ensures |ids| == n && forall i :: 0 <= i < n ==> ids[i] == DocId(i)
  {
    seq(n, i requires 0 <= i < n => DocId(i))
  }

  /** The source information derived from each document. */
  function Infos(docs: seq<Doc>): (infos: seq<SourceInfo>)
    ensures |infos| == |docs| && forall i :: 0 <= i < |docs| ==> infos[i] == ExtractPreciseSourceInfo(docs[i])
  {
    seq(|docs|, i requires 0 <= i < |docs| => ExtractPreciseSourceInfo(docs[i]))
  }

  /** The content hash of each document. */
  function Hashes(docs: seq<Doc>): (hashes: seq<string>)
    ensures |hashes| == |docs| && forall i :: 0 <= i < |docs| ==> hashes[i] == ContentHash(docs[i].content)
  {
    seq(|docs|, i requires 0 <= i < |docs| => ContentHash(docs[i].content))
  }

  /** Different positions get different ids. */
  lemma DocIdInjective(i: nat, j: nat)
    requires i != j
    ensures DocId(i) != DocId(j)
  {
    if DocId(i) == DocId(j) {
      assert IntToString(i) == DocId(i)[4..] == DocId(j)[4..] == IntToString(j);
      IntToStringInjective(i, j);
    }
  }

  /** The id map after registering `docs` under "doc_0", "doc_1", ... */
  function RegisteredIds(m: map<string, SourceInfo>, docs: seq<Doc>): map<string, SourceInfo>
  {
    Store(m, Ids(|docs|), Infos(docs))
  }

  /** The content-hash map after registering `docs` in order. */
  function RegisteredHashes(m: map<string, SourceInfo>, docs: seq<Doc>): map<string, SourceInfo>
  {
    Store(m, Hashes(docs), Infos(docs))
  }

  /** Every id "doc_i" maps to the information of `docs[i]`; other ids keep
      their entries. */
  lemma RegisteredIdsEntries(m: map<string, SourceInfo>, docs: seq<Doc>)
    ensures forall i :: 0 <= i < |docs| ==>
              DocId(i) in RegisteredIds(m, docs) && RegisteredIds(m, docs)[DocId(i)] == ExtractPreciseSourceInfo(docs[i])
    ensures forall key :: key in m && (forall i :: 0 <= i < |docs| ==> key != DocId(i)) ==>
              key in RegisteredIds(m, docs) && RegisteredIds(m, docs)[key] == m[key]
  {
    var ids, infos := Ids(|docs|), Infos(docs);
    forall i | 0 <= i < |docs|
      ensures DocId(i) in RegisteredIds(m, docs) && RegisteredIds(m, docs)[DocId(i)] == ExtractPreciseSourceInfo(docs[i])
    {
      forall j | i < j < |docs| ensures ids[j] != ids[i] {
        DocIdInjective(i, j);
      }
      StoreLastAt(m, ids, infos, i);
    }
    forall key | key in m && (forall i :: 0 <= i < |docs| ==> key != DocId(i))
      ensures key in RegisteredIds(m, docs) && RegisteredIds(m, docs)[key] == m[key]
    {
      StoreKeeps(m, ids, infos, key);
    }
  }

  /** The entry of a content is the information of the last document with
      that content (last writer wins); other keys keep their entries. */
  lemma RegisteredHashesEntries(m: map<string, SourceInfo>, docs: seq<Doc>)
    ensures forall i :: 0 <= i < |docs| && (forall j :: i < j < |docs| ==> docs[j].content != docs[i].content) ==>
              ContentHash(docs[i].content) in RegisteredHashes(m, docs)
              && RegisteredHashes(m, docs)[ContentHash(docs[i].content)] == ExtractPreciseSourceInfo(docs[i])
    ensures forall key :: key in m && (forall i :: 0 <= i < |docs| ==> key != ContentHash(docs[i].content)) ==>
              key in RegisteredHashes(m, docs) && RegisteredHashes(m, docs)[key] == m[key]
  {
    var hashes, infos := Hashes(docs), Infos(docs);
    forall i | 0 <= i < |docs| && (forall j :: i < j < |docs| ==> docs[j].content != docs[i].content)
      ensures ContentHash(docs[i].content) in RegisteredHashes(m, docs)
              && RegisteredHashes(m, docs)[ContentHash(docs[i].content)] == ExtractPreciseSourceInfo(docs[i])
    {
      StoreLastAt(m, hashes, infos, i);
    }
    forall key | key in m && (forall i :: 0 <= i < |docs| ==> key != ContentHash(docs[i].content))
      ensures key in RegisteredHashes(m, docs) && RegisteredHashes(m, docs)[key] == m[key]
    {
      StoreKeeps(m, hashes, infos, key);
    }
  }

  /** The fallback line of one document: its first `width` characters and,
      on the next line, its citation. */
  function Summary(doc: Doc, citation: string, width: nat): string
  {
    Take(doc.content, width) + "\n" + citation
  }

  /** The fallback lines of the first `n` documents. */
  function Summaries(tracker: SourceTracker, docs: seq<Doc>, n: nat, width: nat): (parts: seq<string>)
    reads tracker
    ensures |parts| == Min(n, |docs|)
    ensures forall i :: 0 <= i < |parts| ==> parts[i] == Summary(docs[i], tracker.GetSourceCitation(docs[i]), width)
  {
    seq(Min(n, |docs|), i reads tracker requires 0 <= i < |docs| => Summary(docs[i], tracker.GetSourceCitation(docs[i]), width))
  }

  /** The loops that build the fallback summaries. */
  method Summarize(tracker: SourceTracker, docs: seq<Doc>, n: nat, width: nat) returns (parts: seq<string>)
    ensures parts == Summaries(tracker, docs, n, width)
  {
    ghost var all := Summaries(tracker, docs, n, width);
    parts := [];
    var top := Take(docs, n);
    var i := 0;
    while i < |top|
      invariant 0 <= i <= |top| == |all|
      invariant parts == all[..i]
    {
      var doc := top[i];
      assert doc == docs[i];
      var citation := tracker.GetSourceCitation(doc);
      PrefixStep(all, i);
      parts := parts + [Summary(doc, citation, width)];
      i := i + 1;
    }
    PrefixAll(all);
  }

  /** The history text handed to the generator. */
  function GeneratorHistory(h: History): string {
    match h
    case HistoryMessages(ms) => ChatHistoryText(ms)
    case HistoryText(t) => t
  }

  /** The answer `generate_answer` produces, read against the tracker after
      the documents are registered. */
  function AnswerText(tracker: SourceTracker, question: string, h: History, docs: seq<Doc>, o: Oracles): string
    reads tracker
  {
    if docs == [] then NoInfoAnswer
    else Answer(o.generate(Join(DocBlocks(tracker, docs), "\n\n"), question, GeneratorHistory(h)),
                Summaries(tracker, docs, FoundDocs, FoundWidth), Summaries(tracker, docs, ErrorDocs, ErrorWidth))
  }

  /** The answer for the generator's reply when there are documents: the
      reply itself unless it is blank, the `found` summaries after a blank
      reply, the `failed` summaries when the generator raised. */
  function Answer(reply: Reply, found: seq<string>, failed: seq<string>): string {
    match reply
    case Answered(answer) =>
      if answer == "" || Strip(answer) == "" then FoundPrefix + Join(found, "\n\n") else answer
    case Raised => ErrorPrefix + Join(failed, "\n\n")
  }

  lemma NonBlankStart(s: string)
    requires |s| > 0 && !IsSpace(s[0])
    ensures Strip(s) != ""
  {
    StripEmptyIffBlank(s);
  }

  /** Whatever the generator does, the answer is not blank: a non-blank
      reply is passed through unchanged, a blank one is replaced by the
      "found" fallback and a raised call by the error fallback. */
  lemma AnswerNeverBlank(reply: Reply, found: seq<string>, failed: seq<string>)
    ensures Strip(Answer(reply, found, failed)) != ""
    ensures reply.Answered? && Strip(reply.text) != "" ==> Answer(reply, found, failed) == reply.text
    ensures reply.Answered? && Strip(reply.text) == "" ==> FoundPrefix <= Answer(reply, found, failed)
    ensures reply.Raised? ==> ErrorPrefix <= Answer(reply, found, failed)
  {
    var a := Answer(reply, found, failed);
    if reply.Raised? {
      assert a[0] == ErrorPrefix[0];
      NonBlankStart(a);
    } else if reply.text == "" || Strip(reply.text) == "" {
      assert a[0] == FoundPrefix[0];
      NonBlankStart(a);
    }
  }

  /** `generate_answer` never answers with a blank text, and answers with
      the no-information message when no document was found. */
  lemma AnswerTextNeverBlank(tracker: SourceTracker, question: string, h: History, docs: seq<Doc>, o: Oracles)
    ensures Strip(AnswerText(tracker, question, h, docs, o)) != ""
    ensures docs == [] ==> AnswerText(tracker, question, h, docs, o) == NoInfoAnswer
  {
    if docs == [] {
      NonBlankStart(NoInfoAnswer);
    } else {
      var reply := o.generate(Join(DocBlocks(tracker, docs), "\n\n"), question, GeneratorHistory(h));
      AnswerNeverBlank(reply, Summaries(tracker, docs, FoundDocs, FoundWidth), Summaries(tracker, docs, ErrorDocs, ErrorWidth));
    }
  }

  /** After registration, a document's citation is derived from the last
      document in the list with the same content. */
  lemma CitationAfterRegistration(tracker: SourceTracker, docs: seq<Doc>, m: map<string, SourceInfo>, i: int, j: int)
    requires tracker.contentHashMap == RegisteredHashes(m, docs)
    requires 0 <= i <= j < |docs| && docs[j].content == docs[i].content
    requires forall k :: j < k < |docs| ==> docs[k].content != docs[j].content
    ensures tracker.GetSourceCitation(docs[i]) == CitationText(ExtractPreciseSourceInfo(docs[j]))
  {
    RegisteredHashesEntries(m, docs);
  }

  /** `generate_answer`: registers every document, then asks the generator
      (documents present) or answers that nothing was found. */
  method GenerateAnswer(tracker: SourceTracker, s: GraphState, o: Oracles) returns (s': GraphState)
    modifies tracker
    ensures tracker.docSourceMap == RegisteredIds(old(tracker.docSourceMap), s.document)
    ensures tracker.contentHashMap == RegisteredHashes(old(tracker.contentHashMap), s.document)
    ensures s' == s.(generation := AnswerText(tracker, s.question, s.chatHistory, s.document, o))
  {
    var docs := s.document;
    if docs == [] {
      return s.(generation := NoInfoAnswer);
    }
    ghost var ids, hashes, infos := Ids(|docs|), Hashes(docs), Infos(docs);
    var i := 0;
    while i < |docs|
      invariant 0 <= i <= |docs|
      invariant tracker.docSourceMap == Store(old(tracker.docSourceMap), ids[..i], infos[..i])
      invariant tracker.contentHashMap == Store(old(tracker.contentHashMap), hashes[..i], infos[..i])
    {
      StoreStep(old(tracker.docSourceMap), ids, infos, i);
      StoreStep(old(tracker.contentHashMap), hashes, infos, i);
      var _ := tracker.RegisterDocument(DocId(i), docs[i]);
      i := i + 1;
    }
    assert ids[..i] == ids && hashes[..i] == hashes && infos[..i] == infos;
    var answer := AnswerFor(tracker, s.question, s.chatHistory, docs, o);
    s' := s.(generation := answer);
  }

  /** The generator call and its fallbacks, once the documents are
      registered. */
  method AnswerFor(tracker: SourceTracker, question: string, h: History, docs: seq<Doc>, o: Oracles)
    returns (answer: string)
    requires docs != []
    ensures answer == AnswerText(tracker, question, h, docs, o)
  {
    var documentText := FormatDocsForQwen(tracker, docs);
    var historyText: string;
    match h {
      case HistoryMessages(ms) =>
        historyText := FormatChatHistoryForQwen(ms);
      case HistoryText(t) =>
        historyText := t;
    }
    var reply := o.generate(documentText, question, historyText);
    ghost var found := Summaries(tracker, docs, FoundDocs, FoundWidth);
    ghost var failed := Summaries(tracker, docs, ErrorDocs, ErrorWidth);
    match reply {
      case Answered(a) =>
        answer := a;
        if answer == "" || Strip(answer) == "" {
          var summaries := Summarize(tracker, docs, FoundDocs, FoundWidth);
          answer := FoundPrefix + Join(summaries, "\n\n");
        }
      case Raised =>
        var summaries := Summarize(tracker, docs, ErrorDocs, ErrorWidth);
        answer := ErrorPrefix + Join(summaries, "\n\n");
    }
    assert answer == Answer(reply, found, failed);
    AnswerTextFromReply(tracker, question, h, docs, o, documentText, historyText);
  }

  /** With documents present, the answer is that of the generator's reply
      to the formatted documents and history. */
  lemma AnswerTextFromReply(tracker: SourceTracker, question: string, h: History, docs: seq<Doc>, o: Oracles,
                            documentText: string, historyText: string)
    requires docs != []
    requires documentText == Join(DocBlocks(tracker, docs), "\n\n") && historyText == GeneratorHistory(h)
    ensures AnswerText(tracker, question, h, docs, o)
            == Answer(o.generate(documentText, question, historyText),
                      Summaries(tracker, docs, FoundDocs, FoundWidth), Summaries(tracker, docs, ErrorDocs, ErrorWidth))
  {
  }

  // ---------------------------------------------------------------------------
  // The graph

  /** One run of the compiled graph from its input state. `searched` lists
      the sub-question indices searched: each once, in order. */
  method RunGraph(tracker: SourceTracker, rag: SimpleRagWithPages?, input: GraphState, o: Oracles)
    returns (result: GraphState, ghost searched: seq<nat>)
    modifies tracker
    ensures result.question == RewrittenQuestion(input.question, input.chatHistory, o.rewrite)
    ensures result.chatHistory == input.chatHistory
    ensures result.subQuestions == DecomposeFrom(result.question, o.decompose, o.loads, 0)
    ensures result.index == |result.subQuestions|
    ensures searched == Range(0, |result.subQuestions|)
    ensures result.document == Searched(rag, result.subQuestions, 0, o)
    ensures tracker.contentHashMap == RegisteredHashes(old(tracker.contentHashMap), result.document)
    ensures tracker.docSourceMap == RegisteredIds(old(tracker.docSourceMap), result.document)
    ensures result.generation == AnswerText(tracker, result.question, result.chatHistory, result.document, o)
  {
    var s := ReWriter(input, o.rewrite);
    s := QuestionDecomposer(s, o.decompose, o.loads);
    s, searched := SearchUntilComplete(s, rag, o);
    result := GenerateAnswer(tracker, s, o);
  }
}
