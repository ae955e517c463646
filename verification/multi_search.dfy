/** `enhanced_multi_search` of `rag_page/app.py`: expand the question into
    search queries, search each, merge the results keeping the first
    document of each content, score every merged document with the
    re-ranking model, sort by score (stable, descending) and keep the
    documents scoring 8 or more. If the expansion call raises, the whole
    stage falls back to a plain search for the question. */
module MultiSearch {
  import opened PyText
  import opened Model
  import opened Retrieval

  /** Documents fetched per expanded query. */
  const QueryDepth: nat := 5
  /** Documents fetched by the outer fallback. */
  const FallbackDepth: nat := 10
  /** The lowest score that is kept. */
  const Threshold: int := 8
  /** Stripped contents shorter than this are not sent to the re-ranker. */
  const ShortContent: nat := 10
  const ScoreWhenShort: int := 1
  const ScoreWhenNoDigit: int := 1
  const ScoreWhenRaised: int := 3

  /** A merged document with its relevance score. */
  datatype Scored = Scored(doc: Doc, score: int)

  // ---------------------------------------------------------------------------
  // Step 1: the query list

  /** The parsed expansion if it is a list (not capped, possibly empty),
      otherwise the question alone. */
  function QueryList(parsed: Json, question: string): (queries: seq<string>)
    ensures parsed.JsonList? ==> queries == parsed.items
    ensures !parsed.JsonList? ==> queries == [question]
  {
    match parsed
    case JsonList(items) => items
    case _ => [question]
  }

  // ---------------------------------------------------------------------------
  // Step 2: per-query search and first-occurrence-wins deduplication

  ghost predicate NoDuplicateContent(docs: seq<Doc>) {
    forall i, j :: 0 <= i < j < |docs| ==> docs[i].content != docs[j].content
  }

  /** No earlier document has the content of `docs[i]`. */
  ghost predicate FirstOccurrence(docs: seq<Doc>, i: int)
    requires 0 <= i < |docs|
  {
    forall j :: 0 <= j < i ==> docs[j].content != docs[i].content
  }

  /** `d` is the first document of its content somewhere in `docs`. */
  ghost predicate FirstOfItsContent(docs: seq<Doc>, d: Doc) {
    exists i :: 0 <= i < |docs| && docs[i] == d && FirstOccurrence(docs, i)
  }

  /** The documents kept when `docs` are scanned in order with the content
      hashes `seen` already taken: each unseen content, first time only. */
  function Dedup(docs: seq<Doc>, seen: set<string>): seq<Doc>
  {
    if docs == [] then []
    else
      var h := ContentHash(docs[0].content);
      if h in seen then Dedup(docs[1..], seen) else [docs[0]] + Dedup(docs[1..], seen + {h})
  }

  /** The hashes taken after scanning `docs` from `seen`. */
  function SeenAfter(docs: seq<Doc>, seen: set<string>): set<string>
  {
    if docs == [] then seen else SeenAfter(docs[1..], seen + {ContentHash(docs[0].content)})
  }

  /** All lists, one after the other. */
  function Flatten(lists: seq<seq<Doc>>): seq<Doc>
  {
    if lists == [] then [] else lists[0] + Flatten(lists[1..])
  }

  /** What each query's search returns, in query order. */
  function QueryResults(rag: SimpleRagWithPages?, queries: seq<string>): (rs: seq<seq<Doc>>)
    reads rag
    ensures |rs| == |queries|
    ensures forall i :: 0 <= i < |rs| ==> rs[i] == FastSearch(rag, queries[i], QueryDepth)
  {
    seq(|queries|, i reads rag requires 0 <= i < |queries| => FastSearch(rag, queries[i], QueryDepth))
  }

  /** The merged document list of step 2. */
  function Merged(rag: SimpleRagWithPages?, queries: seq<string>): seq<Doc>
    reads rag
  {
    Dedup(Flatten(QueryResults(rag, queries)), {})
  }

  lemma {:induction false} DedupAppend(a: seq<Doc>, b: seq<Doc>, seen: set<string>)
    ensures Dedup(a + b, seen) == Dedup(a, seen) + Dedup(b, SeenAfter(a, seen))
  {
    if a != [] {
      TailOfAppend(a, b);
      var h := ContentHash(a[0].content);
      if h in seen {
        assert seen + {h} == seen;
        DedupAppend(a[1..], b, seen);
      } else {
        DedupAppend(a[1..], b, seen + {h});
        AppendAssoc([a[0]], Dedup(a[1..], seen + {h}), Dedup(b, SeenAfter(a, seen)));
      }
    } else {
      AppendEmpty(b);
      AppendEmpty(Dedup(b, seen));
    }
  }

  /** `kept[k]` is `docs[idx[k]]`, at strictly increasing positions `idx`:
      `kept` is `docs` with some elements dropped and the order kept. */
  ghost predicate PlacedAt(kept: seq<Doc>, docs: seq<Doc>, idx: seq<int>) {
    |idx| == |kept|
    && (forall k :: 0 <= k < |idx| ==> 0 <= idx[k] < |docs| && docs[idx[k]] == kept[k])
    && (forall k, l :: 0 <= k < l < |idx| ==> idx[k] < idx[l])
  }

  function Shifted(idx: seq<int>): (r: seq<int>)
    ensures |r| == |idx| && forall k :: 0 <= k < |idx| ==> r[k] == idx[k] + 1
  {
    seq(|idx|, k requires 0 <= k < |idx| => idx[k] + 1)
  }

  lemma PlacedSkip(kept: seq<Doc>, docs: seq<Doc>, idx: seq<int>)
    requires docs != [] && PlacedAt(kept, docs[1..], idx)
    ensures PlacedAt(kept, docs, Shifted(idx))
  {
    var r := Shifted(idx);
    forall k | 0 <= k < |r|
      ensures 0 <= r[k] < |docs| && docs[r[k]] == kept[k]
    {
      assert docs[1..][idx[k]] == docs[idx[k] + 1];
    }
  }

  lemma PlacedKeep(kept: seq<Doc>, docs: seq<Doc>, idx: seq<int>)
    requires docs != [] && PlacedAt(kept, docs[1..], idx)
    ensures PlacedAt([docs[0]] + kept, docs, [0] + Shifted(idx))
  {
    PlacedSkip(kept, docs, idx);
    var r, all := Shifted(idx), [0] + Shifted(idx);
    var out := [docs[0]] + kept;
    forall k | 0 <= k < |all|
      ensures 0 <= all[k] < |docs| && docs[all[k]] == out[k]
    {
      if k > 0 {
        assert all[k] == r[k - 1] && out[k] == kept[k - 1];
      }
    }
    PrependZero(r);
  }

  /** Putting 0 in front of increasing positive positions keeps them increasing. */
  lemma PrependZero(r: seq<int>)
    requires forall k :: 0 <= k < |r| ==> r[k] >= 1
    requires forall k, l :: 0 <= k < l < |r| ==> r[k] < r[l]
    ensures forall k, l :: 0 <= k < l < |[0] + r| ==> ([0] + r)[k] < ([0] + r)[l]
  {
    var all := [0] + r;
    forall k, l | 0 <= k < l < |all|
      ensures all[k] < all[l]
    {
      assert all[l] == r[l - 1];
      if k > 0 {
        assert all[k] == r[k - 1];
      }
    }
  }

  /** Deduplication keeps the input order: the kept documents sit at
      strictly increasing positions of the input. */
  lemma {:induction false} DedupInOrder(docs: seq<Doc>, seen: set<string>) returns (idx: seq<int>)
    ensures PlacedAt(Dedup(docs, seen), docs, idx)
  {
    if docs == [] {
      return [];
    }
    var h := ContentHash(docs[0].content);
    if h in seen {
      var rest := DedupInOrder(docs[1..], seen);
      PlacedSkip(Dedup(docs[1..], seen), docs, rest);
      idx := Shifted(rest);
    } else {
      var rest := DedupInOrder(docs[1..], seen + {h});
      PlacedKeep(Dedup(docs[1..], seen + {h}), docs, rest);
      idx := [0] + Shifted(rest);
    }
  }

  /** Kept documents come from the input and have unseen contents. */
  lemma {:induction false} DedupFresh(docs: seq<Doc>, seen: set<string>)
    ensures forall d :: d in Dedup(docs, seen) ==> d in docs && ContentHash(d.content) !in seen
  {
    if docs != [] {
      var h := ContentHash(docs[0].content);
      if h in seen {
        DedupFresh(docs[1..], seen);
      } else {
        DedupFresh(docs[1..], seen + {h});
      }
    }
  }

  /** The merged list never holds two documents with equal content. */
  lemma {:induction false} DedupNoDuplicates(docs: seq<Doc>, seen: set<string>)
    ensures NoDuplicateContent(Dedup(docs, seen))
  {
    if docs != [] {
      var h := ContentHash(docs[0].content);
      if h in seen {
        DedupNoDuplicates(docs[1..], seen);
      } else {
        var rest := Dedup(docs[1..], seen + {h});
        DedupNoDuplicates(docs[1..], seen + {h});
        DedupFresh(docs[1..], seen + {h});
        var r := [docs[0]] + rest;
        forall i, j | 0 <= i < j < |r| ensures r[i].content != r[j].content {
          if i == 0 {
            assert r[j] in rest;
          } else {
            assert r[i] == rest[i - 1] && r[j] == rest[j - 1];
          }
        }
      }
    }
  }

  /** The first document of every unseen content is kept. */
  lemma {:induction false} DedupKeepsFirst(docs: seq<Doc>, seen: set<string>)
    ensures forall i :: 0 <= i < |docs| && FirstOccurrence(docs, i) && ContentHash(docs[i].content) !in seen ==>
              docs[i] in Dedup(docs, seen)
  {
    if docs != [] {
      var h := ContentHash(docs[0].content);
      var seen' := if h in seen then seen else seen + {h};
      DedupKeepsFirst(docs[1..], seen');
      forall i | 0 <= i < |docs| && FirstOccurrence(docs, i) && ContentHash(docs[i].content) !in seen
        ensures docs[i] in Dedup(docs, seen)
      {
        if i > 0 {
          var tail := docs[1..];
          assert tail[i - 1] == docs[i];
          assert FirstOccurrence(tail, i - 1) by {
            forall j | 0 <= j < i - 1 ensures tail[j].content != tail[i - 1].content {
              assert tail[j] == docs[j + 1];
            }
          }
          assert docs[0].content != docs[i].content;
        }
      }
    }
  }

  /** Only first occurrences of unseen contents are kept. */
  lemma {:induction false} DedupOnlyFirst(docs: seq<Doc>, seen: set<string>)
    ensures forall d :: d in Dedup(docs, seen) ==>
              exists i :: 0 <= i < |docs| && docs[i] == d && FirstOccurrence(docs, i)
                          && ContentHash(d.content) !in seen
  {
    if docs != [] {
      var h := ContentHash(docs[0].content);
      var seen' := if h in seen then seen else seen + {h};
      var tail := docs[1..];
      DedupOnlyFirst(tail, seen');
      forall d | d in Dedup(docs, seen)
        ensures exists i :: 0 <= i < |docs| && docs[i] == d && FirstOccurrence(docs, i)
                            && ContentHash(d.content) !in seen
      {
        if h !in seen && d == docs[0] {
          assert FirstOccurrence(docs, 0);
        } else {
          assert d in Dedup(tail, seen');
          var k :| 0 <= k < |tail| && tail[k] == d && FirstOccurrence(tail, k) && ContentHash(d.content) !in seen';
          assert docs[k + 1] == d;
          assert FirstOccurrence(docs, k + 1) by {
            forall j | 0 <= j < k + 1 ensures docs[j].content != docs[k + 1].content {
              if j > 0 {
                assert docs[j] == tail[j - 1];
              }
            }
          }
        }
      }
    }
  }

  /** Every document has a first occurrence of its content at or before it. */
  lemma FirstOccurrenceExists(docs: seq<Doc>, k: int)
    requires 0 <= k < |docs|
    ensures exists i :: 0 <= i <= k && docs[i].content == docs[k].content && FirstOccurrence(docs, i)
    decreases k
  {
    if !FirstOccurrence(docs, k) {
      var j :| 0 <= j < k && docs[j].content == docs[k].content;
      FirstOccurrenceExists(docs, j);
    }
  }

  lemma {:induction false} FlattenContains(lists: seq<seq<Doc>>, q: int, d: Doc)
    requires 0 <= q < |lists| && d in lists[q]
    ensures d in Flatten(lists)
  {
    if q > 0 {
      assert lists[1..][q - 1] == lists[q];
      FlattenContains(lists[1..], q - 1, d);
    }
  }

  /** The merged list: no two documents share a content; each kept document
      is the first of its content in (query order, retrieval order); every
      content any query returned is represented; the kept documents keep
      their query-then-retrieval order. */
  lemma MergedGuarantees(rag: SimpleRagWithPages?, queries: seq<string>)
    ensures NoDuplicateContent(Merged(rag, queries))
    ensures forall d :: d in Merged(rag, queries) <==> FirstOfItsContent(Flatten(QueryResults(rag, queries)), d)
    ensures forall q, d :: 0 <= q < |queries| && d in FastSearch(rag, queries[q], QueryDepth) ==>
              Represented(Merged(rag, queries), d)
    ensures exists idx :: PlacedAt(Merged(rag, queries), Flatten(QueryResults(rag, queries)), idx)
  {
    var rs := QueryResults(rag, queries);
    var all := Flatten(rs);
    var merged := Merged(rag, queries);
    assert merged == Dedup(all, {});
    var idx := DedupInOrder(all, {});
    DedupNoDuplicates(all, {});
    DedupExactlyFirst(all);
    forall q, d | 0 <= q < |queries| && d in FastSearch(rag, queries[q], QueryDepth)
      ensures Represented(merged, d)
    {
      assert d in rs[q];
      FlattenContains(rs, q, d);
      DedupCovers(all, d);
    }
  }

  /** Some document of `docs` has the content of `d`. */
  ghost predicate Represented(docs: seq<Doc>, d: Doc) {
    exists m :: m in docs && m.content == d.content
  }

  /** Deduplication from nothing keeps exactly the first occurrences. */
  lemma DedupExactlyFirst(all: seq<Doc>)
    ensures forall d :: d in Dedup(all, {}) <==> FirstOfItsContent(all, d)
  {
    DedupKeepsFirst(all, {});
    DedupOnlyFirst(all, {});
    forall d | FirstOfItsContent(all, d)
      ensures d in Dedup(all, {})
    {
      var i :| 0 <= i < |all| && all[i] == d && FirstOccurrence(all, i);
      assert ContentHash(all[i].content) !in {};
    }
  }

  /** Every content of the input is represented after deduplication. */
  lemma DedupCovers(all: seq<Doc>, d: Doc)
    requires d in all
    ensures Represented(Dedup(all, {}), d)
  {
    var k :| 0 <= k < |all| && all[k] == d;
    FirstOccurrenceExists(all, k);
    var i :| 0 <= i <= k && all[i].content == all[k].content && FirstOccurrence(all, i);
    DedupKeepsFirst(all, {});
    assert ContentHash(all[i].content) !in {};
    assert all[i] in Dedup(all, {});
  }

  /** The inner loop of step 2: appends the documents of one query whose
      content hash is new, growing `seen`. */
  method AddUnseen(all: seq<Doc>, seen: set<string>, docs: seq<Doc>)
    returns (all': seq<Doc>, seen': set<string>)
    ensures all' == all + Dedup(docs, seen)
    ensures seen' == SeenAfter(docs, seen)
  {
    all', seen' := all, seen;
    var i := 0;
    while i < |docs|
      invariant 0 <= i <= |docs|
      invariant all' + Dedup(docs[i..], seen') == all + Dedup(docs, seen)
      invariant SeenAfter(docs[i..], seen') == SeenAfter(docs, seen)
    {
      SuffixStep(docs, i);
      var h := ContentHash(docs[i].content);
      if h !in seen' {
        AppendAssoc(all', [docs[i]], Dedup(docs[i + 1..], seen' + {h}));
        seen' := seen' + {h};
        all' := all' + [docs[i]];
      } else {
        assert seen' + {h} == seen';
      }
      i := i + 1;
    }
    assert docs[i..] == [];
    AppendEmpty(all');
  }

  /** Step 2: search every query in order and merge. */
  method MergeSearchResults(rag: SimpleRagWithPages?, queries: seq<string>) returns (merged: seq<Doc>)
    ensures merged == Merged(rag, queries)
  {
    ghost var rs := QueryResults(rag, queries);
    ghost var target := Dedup(Flatten(rs), {});
    merged := [];
    var seen: set<string> := {};
    var j := 0;
    assert rs[j..] == rs;
    AppendEmpty(target);
    while j < |queries|
      invariant 0 <= j <= |queries| == |rs|
      invariant merged + Dedup(Flatten(rs[j..]), seen) == target
    {
      var docs := FastSearch(rag, queries[j], QueryDepth);
      ghost var rest := Flatten(rs[j + 1..]);
      SuffixStep(rs, j);
      assert Flatten(rs[j..]) == docs + rest;
      DedupAppend(docs, rest, seen);
      AppendAssoc(merged, Dedup(docs, seen), Dedup(rest, SeenAfter(docs, seen)));
      merged, seen := AddUnseen(merged, seen, docs);
      j := j + 1;
    }
    assert rs[j..] == [];
    AppendEmpty(merged);
  }

  // ---------------------------------------------------------------------------
  // Step 3: scoring

  /** A character the score parser accepts: a digit whose value is in 1..10. */
  predicate IsScoreDigit(c: char) {
    IsDigit(c) && 1 <= DigitValue(c) <= 10
  }

  /** The value of the first accepted digit of the reply, 1 when there is none. */
  function FirstScoreDigit(text: string): (s: int)
    ensures 1 <= s <= 9
  {
    if text == [] then ScoreWhenNoDigit
    else if IsScoreDigit(text[0]) then DigitValue(text[0])
    else FirstScoreDigit(text[1..])
  }

  /** The parsed score is the value of the first digit 1..9 in the reply,
      or 1 when the reply has none ('0' is skipped, "10" reads as 1). */
  lemma {:induction false} FirstScoreDigitIsFirst(text: string)
    ensures (exists i :: 0 <= i < |text| && IsScoreDigit(text[i])
                         && (forall j :: 0 <= j < i ==> !IsScoreDigit(text[j]))
                         && FirstScoreDigit(text) == DigitValue(text[i]))
            || ((forall j :: 0 <= j < |text| ==> !IsScoreDigit(text[j])) && FirstScoreDigit(text) == 1)
  {
    if text != [] && !IsScoreDigit(text[0]) {
      var tail := text[1..];
      FirstScoreDigitIsFirst(tail);
      if exists i :: 0 <= i < |tail| && IsScoreDigit(tail[i])
                     && (forall j :: 0 <= j < i ==> !IsScoreDigit(tail[j]))
                     && FirstScoreDigit(tail) == DigitValue(tail[i]) {
        var i :| 0 <= i < |tail| && IsScoreDigit(tail[i])
                 && (forall j :: 0 <= j < i ==> !IsScoreDigit(tail[j]))
                 && FirstScoreDigit(tail) == DigitValue(tail[i]);
        assert text[i + 1] == tail[i];
        assert forall j :: 0 <= j < i + 1 ==> !IsScoreDigit(text[j]) by {
          forall j | 0 < j < i + 1 ensures !IsScoreDigit(text[j]) {
            assert text[j] == tail[j - 1];
          }
        }
      } else {
        assert forall j :: 0 <= j < |text| ==> !IsScoreDigit(text[j]) by {
          forall j | 0 < j < |text| ensures !IsScoreDigit(text[j]) {
            assert text[j] == tail[j - 1];
          }
        }
      }
    }
  }

  /** A reply of "10", the rubric's best grade, parses as 1. */
  lemma ReplyTenScoresOne()
    ensures FirstScoreDigit("10") == 1
  {
    assert "10"[1..] == "0";
    assert "0"[1..] == "";
  }

  /** The relevance score of one merged document for the question. */
  function RelevanceScore(doc: Doc, question: string, rerank: (string, string) -> Reply): (s: int)
    ensures 1 <= s <= 9
  {
    var content := Strip(doc.content);
    if |content| < ShortContent then ScoreWhenShort
    else match rerank(content, question)
      case Raised => ScoreWhenRaised
      case Answered(text) => FirstScoreDigit(text)
  }

  /** Every merged document with its score, in merged order. */
  function ScoreAll(docs: seq<Doc>, question: string, rerank: (string, string) -> Reply): (s: seq<Scored>)
    ensures |s| == |docs|
    ensures forall i :: 0 <= i < |s| ==> s[i] == Scored(docs[i], RelevanceScore(docs[i], question, rerank))
  {
    seq(|docs|, i requires 0 <= i < |docs| => Scored(docs[i], RelevanceScore(docs[i], question, rerank)))
  }

  /** The digit scan of the re-ranker's reply. */
  method ParseScore(text: string) returns (score: int)
    ensures score == FirstScoreDigit(text)
  {
    score := ScoreWhenNoDigit;
    var i := 0;
    while i < |text|
      invariant 0 <= i <= |text|
      invariant score == ScoreWhenNoDigit
      invariant FirstScoreDigit(text[i..]) == FirstScoreDigit(text)
    {
      assert text[i..][0] == text[i] && text[i..][1..] == text[i + 1..];
      var c := text[i];
      if IsDigit(c) {
        var potential := DigitValue(c);
        if 1 <= potential <= 10 {
          score := potential;
          break;
        }
      }
      i := i + 1;
    }
  }

  /** The loop body of step 3: the score of one document. */
  method ScoreDocument(doc: Doc, question: string, rerank: (string, string) -> Reply) returns (score: int)
    ensures score == RelevanceScore(doc, question, rerank)
  {
    var content := Strip(doc.content);
    if |content| < ShortContent {
      score := ScoreWhenShort;
    } else {
      match rerank(content, question)
      case Raised =>
        score := ScoreWhenRaised;
      case Answered(text) =>
        score := ParseScore(text);
    }
  }

  /** Step 3: one score per merged document. */
  method ScoreDocuments(docs: seq<Doc>, question: string, rerank: (string, string) -> Reply)
    returns (scored: seq<Scored>)
    ensures scored == ScoreAll(docs, question, rerank)
  {
    scored := [];
    ghost var all := ScoreAll(docs, question, rerank);
    var i := 0;
    while i < |docs|
      invariant 0 <= i <= |docs|
      invariant scored == all[..i]
    {
      var score := ScoreDocument(docs[i], question, rerank);
      PrefixStep(all, i);
      scored := scored + [Scored(docs[i], score)];
      i := i + 1;
    }
    assert all[..i] == all;
  }

  // ---------------------------------------------------------------------------
  // Step 4: stable sort by descending score

  ghost predicate NonIncreasing(s: seq<Scored>) {
    forall i, j :: 0 <= i < j < |s| ==> s[i].score >= s[j].score
  }

  lemma NonIncreasingTail(s: seq<Scored>)
    requires NonIncreasing(s) && s != []
    ensures NonIncreasing(s[1..])
    ensures forall i :: 0 <= i < |s| - 1 ==> s[1..][i].score <= s[0].score
  {
    forall i, j | 0 <= i < j < |s| - 1 ensures s[1..][i].score >= s[1..][j].score {
      assert s[1..][i] == s[i + 1] && s[1..][j] == s[j + 1];
    }
  }

  /** Inserts `x` after every element scoring at least as high. */
  function InsertByScore(x: Scored, s: seq<Scored>): seq<Scored>
  {
    if s == [] then [x]
    else if s[0].score < x.score then [x] + s
    else [s[0]] + InsertByScore(x, s[1..])
  }

  /** `list.sort(key=score, reverse=True)`: Python's sort is stable, also
      in reverse, so equal scores keep their merged order. Stated here as an
      insertion sort; its three lemmas below (ordered, a permutation,
      stable per score) determine the result uniquely. */
  function SortByScoreDesc(s: seq<Scored>): seq<Scored>
  {
    if s == [] then [] else InsertByScore(s[|s| - 1], SortByScoreDesc(s[..|s| - 1]))
  }

  /** The elements of `s` with score `v`, in order. */
  function WithScore(s: seq<Scored>, v: int): seq<Scored>
  {
    if s == [] then [] else (if s[0].score == v then [s[0]] else []) + WithScore(s[1..], v)
  }

  lemma {:induction false} InsertPermutes(x: Scored, s: seq<Scored>)
    ensures multiset(InsertByScore(x, s)) == multiset(s) + multiset{x}
  {
    if s != [] && s[0].score >= x.score {
      InsertPermutes(x, s[1..]);
      assert s == [s[0]] + s[1..];
    }
  }

  lemma {:induction false} InsertKeepsOrder(x: Scored, s: seq<Scored>)
    requires NonIncreasing(s)
    ensures NonIncreasing(InsertByScore(x, s))
  {
    if s != [] && s[0].score >= x.score {
      var tail := s[1..];
      InsertKeepsOrder(x, tail);
      InsertPermutes(x, tail);
      var r := InsertByScore(x, tail);
      forall e | e in r ensures e.score <= s[0].score {
        assert e in multiset(r);
        assert e == x || e in multiset(tail);
      }
      forall i, j | 0 <= i < j < |[s[0]] + r| ensures ([s[0]] + r)[i].score >= ([s[0]] + r)[j].score {
        if i == 0 {
          assert ([s[0]] + r)[j] in r;
        }
      }
    }
  }

  /** The sort orders by non-increasing score. */
  lemma {:induction false} SortOrders(s: seq<Scored>)
    ensures NonIncreasing(SortByScoreDesc(s))
  {
    if s != [] {
      SortOrders(s[..|s| - 1]);
      InsertKeepsOrder(s[|s| - 1], SortByScoreDesc(s[..|s| - 1]));
    }
  }

  /** The sort is a permutation. */
  lemma {:induction false} SortPermutes(s: seq<Scored>)
    ensures multiset(SortByScoreDesc(s)) == multiset(s)
  {
    if s != [] {
      SortPermutes(s[..|s| - 1]);
      InsertPermutes(s[|s| - 1], SortByScoreDesc(s[..|s| - 1]));
      assert s == s[..|s| - 1] + [s[|s| - 1]];
    }
  }

  lemma {:induction false} WithScoreAppend(a: seq<Scored>, b: seq<Scored>, v: int)
    ensures WithScore(a + b, v) == WithScore(a, v) + WithScore(b, v)
  {
    if a == [] {
      AppendEmpty(b);
      AppendEmpty(WithScore(b, v));
    } else {
      TailOfAppend(a, b);
      WithScoreAppend(a[1..], b, v);
      var h := if a[0].score == v then [a[0]] else [];
      AppendAssoc(h, WithScore(a[1..], v), WithScore(b, v));
    }
  }

  lemma {:induction false} WithScoreNone(s: seq<Scored>, v: int)
    requires forall i :: 0 <= i < |s| ==> s[i].score != v
    ensures WithScore(s, v) == []
  {
    if s != [] {
      WithScoreNone(s[1..], v);
    }
  }

  lemma {:induction false} InsertWithScore(x: Scored, s: seq<Scored>, v: int)
    requires NonIncreasing(s)
    ensures WithScore(InsertByScore(x, s), v) == WithScore(s, v) + (if x.score == v then [x] else [])
  {
    if s == [] {
      AppendEmpty(if x.score == v then [x] else []);
    } else if s[0].score < x.score {
      InsertInFront(x, s, v);
    } else {
      var tail := s[1..];
      NonIncreasingTail(s);
      InsertWithScore(x, tail, v);
      TailOfAppend([s[0]], InsertByScore(x, tail));
      var h0 := if s[0].score == v then [s[0]] else [];
      AppendAssoc(h0, WithScore(tail, v), if x.score == v then [x] else []);
    }
  }

  /** Inserting ahead of a non-empty list whose scores are all lower. */
  lemma InsertInFront(x: Scored, s: seq<Scored>, v: int)
    requires NonIncreasing(s) && s != [] && s[0].score < x.score
    ensures WithScore([x] + s, v) == WithScore(s, v) + (if x.score == v then [x] else [])
  {
    TailOfAppend([x], s);
    if x.score == v {
      NonIncreasingTail(s);
      WithScoreNone(s, v);
      AppendEmpty([x]);
    } else {
      AppendEmpty(WithScore(s, v));
    }
  }

  /** The sort is stable: per score, the elements keep their order. */
  lemma {:induction false} SortStable(s: seq<Scored>, v: int)
    ensures WithScore(SortByScoreDesc(s), v) == WithScore(s, v)
  {
    if s != [] {
      var init, last := s[..|s| - 1], s[|s| - 1];
      SortStable(init, v);
      SortOrders(init);
      InsertWithScore(last, SortByScoreDesc(init), v);
      WithScoreAppend(init, [last], v);
      assert s == init + [last];
    }
  }

  // ---------------------------------------------------------------------------
  // Step 5: threshold

  /** `[doc for doc, score in s if score >= 8]`. */
  function AboveThreshold(s: seq<Scored>): seq<Doc>
  {
    if s == [] then [] else (if s[0].score >= Threshold then [s[0].doc] else []) + AboveThreshold(s[1..])
  }

  /** The documents of a scored list, in order. */
  function DocsOf(s: seq<Scored>): seq<Doc>
  {
    if s == [] then [] else [s[0].doc] + DocsOf(s[1..])
  }

  /** On a list sorted by score with scores at most 9, the threshold keeps
      the 9s then the 8s. */
  lemma {:induction false} ThresholdOfSorted(t: seq<Scored>)
    requires NonIncreasing(t)
    requires forall i :: 0 <= i < |t| ==> t[i].score <= 9
    ensures AboveThreshold(t) == DocsOf(WithScore(t, 9)) + DocsOf(WithScore(t, 8))
  {
    if t != [] {
      var tail := t[1..];
      NonIncreasingTail(t);
      ThresholdOfSorted(tail);
      var w9, w8 := WithScore(tail, 9), WithScore(tail, 8);
      if t[0].score == 9 {
        AppendEmpty(w8);
        assert WithScore(t, 8) == w8;
        ThresholdHead(t[0], w9);
        AppendAssoc([t[0].doc], DocsOf(w9), DocsOf(w8));
      } else if t[0].score == 8 {
        WithScoreNone(tail, 9);
        AppendEmpty(w9);
        assert WithScore(t, 9) == [];
        ThresholdHead(t[0], w8);
        AppendEmpty(DocsOf([t[0]] + w8));
      } else {
        WithScoreNone(tail, 9);
        WithScoreNone(tail, 8);
        AppendEmpty(AboveThreshold(tail));
        assert WithScore(t, 9) == [] && WithScore(t, 8) == [];
      }
    }
  }

  lemma ThresholdHead(x: Scored, w: seq<Scored>)
    ensures DocsOf([x] + w) == [x.doc] + DocsOf(w)
  {
    TailOfAppend([x], w);
  }

  lemma {:induction false} DocsOfIndex(s: seq<Scored>)
    ensures |DocsOf(s)| == |s|
    ensures forall i :: 0 <= i < |s| ==> DocsOf(s)[i] == s[i].doc
  {
    if s != [] {
      DocsOfIndex(s[1..]);
      assert forall i :: 0 < i < |s| ==> s[1..][i - 1] == s[i];
    }
  }

  /** Exactly the entries of `s` with score `v` are kept by the filter. */
  lemma {:induction false} WithScoreMembers(s: seq<Scored>, v: int)
    ensures forall e :: e in WithScore(s, v) <==> e in s && e.score == v
  {
    if s != [] {
      WithScoreMembers(s[1..], v);
      assert s == [s[0]] + s[1..];
    }
  }

  /** No two entries share a content. */
  ghost predicate DistinctContent(s: seq<Scored>) {
    forall i, j :: 0 <= i < j < |s| ==> s[i].doc.content != s[j].doc.content
  }

  lemma DistinctContentTail(s: seq<Scored>)
    requires DistinctContent(s) && s != []
    ensures DistinctContent(s[1..])
    ensures forall e :: e in s[1..] ==> e.doc.content != s[0].doc.content
  {
    var tail := s[1..];
    forall i, j | 0 <= i < j < |tail| ensures tail[i].doc.content != tail[j].doc.content {
      assert tail[i] == s[i + 1] && tail[j] == s[j + 1];
    }
    forall e | e in tail ensures e.doc.content != s[0].doc.content {
      var k :| 0 <= k < |tail| && tail[k] == e;
      assert s[k + 1] == e;
    }
  }

  lemma {:induction false} WithScoreDistinct(s: seq<Scored>, v: int)
    requires DistinctContent(s)
    ensures DistinctContent(WithScore(s, v))
  {
    if s != [] {
      var tail := s[1..];
      DistinctContentTail(s);
      WithScoreDistinct(tail, v);
      WithScoreMembers(tail, v);
      var rest := WithScore(tail, v);
      if s[0].score == v {
        var r := [s[0]] + rest;
        forall i, j | 0 <= i < j < |r| ensures r[i].doc.content != r[j].doc.content {
          if i == 0 {
            assert r[j] in rest;
          } else {
            assert r[i] == rest[i - 1] && r[j] == rest[j - 1];
          }
        }
      }
    }
  }

  /** Steps 3 to 5 applied to a merged list. */
  function Relevant(docs: seq<Doc>, question: string, rerank: (string, string) -> Reply): seq<Doc>
  {
    AboveThreshold(SortByScoreDesc(ScoreAll(docs, question, rerank)))
  }

  /** The selected documents are the merged documents scoring 9, in merged
      order, followed by those scoring 8, in merged order. */
  lemma RelevantIsNinesThenEights(docs: seq<Doc>, question: string, rerank: (string, string) -> Reply)
    ensures var s := ScoreAll(docs, question, rerank);
            Relevant(docs, question, rerank) == DocsOf(WithScore(s, 9)) + DocsOf(WithScore(s, 8))
  {
    var s := ScoreAll(docs, question, rerank);
    var t := SortByScoreDesc(s);
    SortOrders(s);
    SortPermutes(s);
    forall i | 0 <= i < |t| ensures t[i].score <= 9 {
      assert t[i] in multiset(s);
    }
    ThresholdOfSorted(t);
    SortStable(s, 9);
    SortStable(s, 8);
  }

  lemma {:induction false} DocsOfAppend(a: seq<Scored>, b: seq<Scored>)
    ensures DocsOf(a + b) == DocsOf(a) + DocsOf(b)
  {
    if a == [] {
      assert a + b == b;
    } else {
      assert (a + b)[0] == a[0] && (a + b)[1..] == a[1..] + b;
      DocsOfAppend(a[1..], b);
    }
  }

  /** The 9s then the 8s of a scored list: ordered by score. */
  lemma SelectedOrdered(s: seq<Scored>)
    ensures NonIncreasing(WithScore(s, 9) + WithScore(s, 8))
  {
    var w9, w8 := WithScore(s, 9), WithScore(s, 8);
    var w := w9 + w8;
    WithScoreMembers(s, 9);
    WithScoreMembers(s, 8);
    forall i, j | 0 <= i < j < |w| ensures w[i].score >= w[j].score {
      if i < |w9| {
        assert w[i] == w9[i] && w9[i] in w9;
      } else {
        assert w[i] == w8[i - |w9|] && w8[i - |w9|] in w8;
      }
      if j < |w9| {
        assert w[j] == w9[j] && w9[j] in w9;
      } else {
        assert w[j] == w8[j - |w9|] && w8[j - |w9|] in w8;
      }
    }
  }

  /** The 9s then the 8s of a scored list with scores at most 9: exactly
      its entries scoring at least 8. */
  lemma SelectedMembers(s: seq<Scored>)
    requires forall i :: 0 <= i < |s| ==> s[i].score <= 9
    ensures forall e :: e in WithScore(s, 9) + WithScore(s, 8) <==> e in s && e.score >= Threshold
  {
    WithScoreMembers(s, 9);
    WithScoreMembers(s, 8);
  }

  /** The 9s then the 8s of a scored list have distinct contents when the
      list has. */
  lemma SelectedDistinct(s: seq<Scored>)
    requires DistinctContent(s)
    ensures DistinctContent(WithScore(s, 9) + WithScore(s, 8))
  {
    var w9, w8 := WithScore(s, 9), WithScore(s, 8);
    var w := w9 + w8;
    WithScoreMembers(s, 9);
    WithScoreMembers(s, 8);
    WithScoreDistinct(s, 9);
    WithScoreDistinct(s, 8);
    forall i, j | 0 <= i < j < |w| ensures w[i].doc.content != w[j].doc.content {
      if j < |w9| {
        assert w[i] == w9[i] && w[j] == w9[j];
      } else if i >= |w9| {
        assert w[i] == w8[i - |w9|] && w[j] == w8[j - |w9|];
      } else {
        assert w[i] == w9[i] && w9[i] in w9;
        assert w[j] == w8[j - |w9|] && w8[j - |w9|] in w8;
        var p :| 0 <= p < |s| && s[p] == w[i];
        var q :| 0 <= q < |s| && s[q] == w[j];
        assert p != q;
        if p < q {
          assert s[p].doc.content != s[q].doc.content;
        } else {
          assert s[q].doc.content != s[p].doc.content;
        }
      }
    }
  }

  /** The scored list pairs each merged document with its own score. */
  lemma ScoreAllEntries(docs: seq<Doc>, question: string, rerank: (string, string) -> Reply)
    ensures forall e: Scored :: e in ScoreAll(docs, question, rerank) <==>
              e.doc in docs && e.score == RelevanceScore(e.doc, question, rerank)
    ensures NoDuplicateContent(docs) ==> DistinctContent(ScoreAll(docs, question, rerank))
  {
    var s := ScoreAll(docs, question, rerank);
    forall e: Scored | e.doc in docs && e.score == RelevanceScore(e.doc, question, rerank)
      ensures e in s
    {
      var p :| 0 <= p < |docs| && docs[p] == e.doc;
      assert s[p] == e;
    }
  }

  /** The selection is the documents of the 9s-then-8s entries. */
  lemma RelevantAsEntries(docs: seq<Doc>, question: string, rerank: (string, string) -> Reply)
    ensures var s := ScoreAll(docs, question, rerank);
            var w := WithScore(s, 9) + WithScore(s, 8);
            var r := Relevant(docs, question, rerank);
            |r| == |w| && forall i :: 0 <= i < |r| ==> r[i] == w[i].doc
  {
    var s := ScoreAll(docs, question, rerank);
    RelevantIsNinesThenEights(docs, question, rerank);
    DocsOfAppend(WithScore(s, 9), WithScore(s, 8));
    DocsOfIndex(WithScore(s, 9) + WithScore(s, 8));
  }

  /** The selection is exactly the merged documents scoring at least 8. */
  lemma RelevantMembers(docs: seq<Doc>, question: string, rerank: (string, string) -> Reply)
    ensures forall d :: d in Relevant(docs, question, rerank) <==>
              d in docs && RelevanceScore(d, question, rerank) >= Threshold
  {
    var s := ScoreAll(docs, question, rerank);
    var w := WithScore(s, 9) + WithScore(s, 8);
    var r := Relevant(docs, question, rerank);
    RelevantAsEntries(docs, question, rerank);
    ScoreAllEntries(docs, question, rerank);
    SelectedMembers(s);
    forall d | d in docs && RelevanceScore(d, question, rerank) >= Threshold
      ensures d in r
    {
      var e := Scored(d, RelevanceScore(d, question, rerank));
      assert e in s;
      assert e in w;
      var k :| 0 <= k < |w| && w[k] == e;
      assert r[k] == d;
    }
    forall d | d in r ensures d in docs && RelevanceScore(d, question, rerank) >= Threshold {
      var k :| 0 <= k < |r| && r[k] == d;
      var e := w[k];
      assert e in w;
      assert e in s && e.score >= Threshold;
      assert e.doc in docs && e.score == RelevanceScore(e.doc, question, rerank);
    }
  }

  /** The selection's scores do not increase along it. */
  lemma RelevantOrdered(docs: seq<Doc>, question: string, rerank: (string, string) -> Reply)
    ensures var r := Relevant(docs, question, rerank);
            forall i, j :: 0 <= i < j < |r| ==>
              RelevanceScore(r[i], question, rerank) >= RelevanceScore(r[j], question, rerank)
  {
    var s := ScoreAll(docs, question, rerank);
    var w := WithScore(s, 9) + WithScore(s, 8);
    var r := Relevant(docs, question, rerank);
    RelevantAsEntries(docs, question, rerank);
    ScoreAllEntries(docs, question, rerank);
    SelectedMembers(s);
    SelectedOrdered(s);
    forall i, j | 0 <= i < j < |r|
      ensures RelevanceScore(r[i], question, rerank) >= RelevanceScore(r[j], question, rerank)
    {
      assert w[i] in w && w[j] in w;
    }
  }

  /** The selection is free of duplicate contents when the merged list is. */
  lemma RelevantDistinct(docs: seq<Doc>, question: string, rerank: (string, string) -> Reply)
    requires NoDuplicateContent(docs)
    ensures NoDuplicateContent(Relevant(docs, question, rerank))
  {
    var s := ScoreAll(docs, question, rerank);
    ScoreAllEntries(docs, question, rerank);
    SelectedDistinct(s);
    RelevantAsEntries(docs, question, rerank);
  }

  // ---------------------------------------------------------------------------
  // The whole stage

  /** What `enhanced_multi_search(question)` returns. */
  function MultiSearchResult(rag: SimpleRagWithPages?, question: string, o: Oracles): seq<Doc>
    reads rag
  {
    match o.expand(question)
    case Raised => FastSearch(rag, question, FallbackDepth)
    case Answered(text) => Relevant(Merged(rag, QueryList(o.loads(text), question)), question, o.rerank)
  }

  /** The stage's guarantees: when the expansion call raises, the plain
      search of the question (at most 10 documents); otherwise a
      duplicate-free selection of exactly the merged documents scoring at
      least 8, in non-increasing score order. */
  lemma MultiSearchGuarantees(rag: SimpleRagWithPages?, question: string, o: Oracles)
    ensures o.expand(question).Raised? ==>
              MultiSearchResult(rag, question, o) == FastSearch(rag, question, FallbackDepth)
              && |MultiSearchResult(rag, question, o)| <= FallbackDepth
    ensures o.expand(question).Answered? ==>
              var merged := Merged(rag, QueryList(o.loads(o.expand(question).text), question));
              var r := MultiSearchResult(rag, question, o);
              NoDuplicateContent(r)
              && (forall d :: d in r <==> d in merged && RelevanceScore(d, question, o.rerank) >= Threshold)
              && (forall i, j :: 0 <= i < j < |r| ==>
                    RelevanceScore(r[i], question, o.rerank) >= RelevanceScore(r[j], question, o.rerank))
  {
    if o.expand(question).Answered? {
      var queries := QueryList(o.loads(o.expand(question).text), question);
      MergedGuarantees(rag, queries);
      RelevantMembers(Merged(rag, queries), question, o.rerank);
      RelevantOrdered(Merged(rag, queries), question, o.rerank);
      RelevantDistinct(Merged(rag, queries), question, o.rerank);
    }
  }

  /** `enhanced_multi_search`. */
  method EnhancedMultiSearch(rag: SimpleRagWithPages?, question: string, o: Oracles) returns (result: seq<Doc>)
    ensures result == MultiSearchResult(rag, question, o)
  {
    var reply := o.expand(question);
    if reply.Raised? {
      return FastSearch(rag, question, FallbackDepth);
    }
    var queries := QueryList(o.loads(reply.text), question);
    var merged := MergeSearchResults(rag, queries);
    var scored := ScoreDocuments(merged, question, o.rerank);
    var ranked := SortByScoreDesc(scored);
    result := AboveThreshold(ranked);
  }
}
