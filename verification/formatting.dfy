/** The text renderings of `rag_page/app.py` that feed the language model:
    the Question/Answer pairing of a message history (`re_writer`), the
    role-labelled history with the previous AI answer
    (`format_chat_history_for_qwen`) and the numbered document blocks with
    citations (`format_docs_for_qwen`). */
module Formatting {
  import opened PyText
  import opened Model
  import opened SourceTracking

  /** `max_docs` of `format_docs_for_qwen`. */
  const MaxDocs: nat := 15
  /** The rendering of an empty history. */
  const NoHistory: string := "없음"
  const PrevAnswerLabel: string := "\n[이전 AI 답변]: "

  /** The first part of `sep.join(parts)` is `parts[0]`. */
  lemma {:induction false} JoinStartsWithFirst(parts: seq<string>, sep: string)
    requires |parts| > 0
    ensures |Join(parts, sep)| >= |parts[0]| && Join(parts, sep)[..|parts[0]|] == parts[0]
  {
    if |parts| > 1 {
      var init := parts[..|parts| - 1];
      JoinStartsWithFirst(init, sep);
      assert init[0] == parts[0];
      var j := Join(init, sep);
      assert Join(parts, sep) == j + sep + parts[|parts| - 1];
      assert (j + sep + parts[|parts| - 1])[..|parts[0]|] == j[..|parts[0]|];
    }
  }

  // ---------------------------------------------------------------------------
  // Question/Answer pairing

  /** The line of a message read as a question: none without a content
      attribute. */
  function QuestionLine(m: Message): seq<string> {
    match m.content
    case None => []
    case Some(c) => ["Question: " + c]
  }

  /** The line of a message read as an answer: none without a content
      attribute. */
  function AnswerLine(m: Message): seq<string> {
    match m.content
    case None => []
    case Some(c) => ["Answer: " + c]
  }

  /** The pairing lines of a message list: messages two at a time, the
      first of each pair as a question and the second as an answer. */
  function PairLines(ms: seq<Message>): (lines: seq<string>)
    ensures |lines| <= |ms|
    decreases |ms|
  {
    if ms == [] then []
    else if |ms| == 1 then QuestionLine(ms[0])
    else QuestionLine(ms[0]) + AnswerLine(ms[1]) + PairLines(ms[2..])
  }

  /** When every message has content, the lines alternate "Question: " and
      "Answer: " from the first message on, one per message. */
  lemma {:induction false} PairLinesAlternate(ms: seq<Message>)
    requires forall k :: 0 <= k < |ms| ==> ms[k].content.Some?
    ensures |PairLines(ms)| == |ms|
    ensures forall k :: 0 <= k < |ms| ==>
              PairLines(ms)[k] == (if k % 2 == 0 then "Question: " else "Answer: ") + ms[k].content.value
    decreases |ms|
  {
    if |ms| >= 2 {
      var rest := ms[2..];
      PairLinesAlternate(rest);
      var head := QuestionLine(ms[0]) + AnswerLine(ms[1]);
      assert |head| == 2;
      forall k | 2 <= k < |ms|
        ensures PairLines(ms)[k] == (if k % 2 == 0 then "Question: " else "Answer: ") + ms[k].content.value
      {
        assert PairLines(ms)[k] == PairLines(rest)[k - 2];
        assert rest[k - 2] == ms[k];
        assert (k - 2) % 2 == k % 2;
      }
    }
  }

  /** The pairing lines from position `i` on: the question line of
      `ms[i]`, then the answer line of `ms[i + 1]` and the lines from
      `i + 2` on, when there is a next message. */
  lemma PairStep(ms: seq<Message>, i: int)
    requires 0 <= i < |ms|
    ensures i + 1 == |ms| ==> PairLines(ms[i..]) == QuestionLine(ms[i])
    ensures i + 1 < |ms| ==>
              PairLines(ms[i..]) == QuestionLine(ms[i]) + AnswerLine(ms[i + 1]) + PairLines(ms[i + 2..])
  {
    var t := ms[i..];
    assert t[0] == ms[i];
    if i + 1 < |ms| {
      assert t[1] == ms[i + 1] && t[2..] == ms[i + 2..];
    }
  }

  /** The pairing loop of `re_writer`: messages two at a time, the first of
      each pair as a question, the second as an answer; lines joined by
      newlines. */
  method PairHistory(messages: seq<Message>) returns (text: string)
    ensures text == Join(PairLines(messages), "\n")
  {
    var pairs: seq<string> := [];
    var i := 0;
    assert messages[0..] == messages;
    AppendEmpty(PairLines(messages));
    while i < |messages|
      invariant 0 <= i
      invariant i < |messages| ==> pairs + PairLines(messages[i..]) == PairLines(messages)
      invariant i >= |messages| ==> pairs == PairLines(messages)
      decreases |messages| - i
    {
      PairStep(messages, i);
      ghost var before := pairs;
      var user := messages[i];
      if user.content.Some? {
        pairs := pairs + ["Question: " + user.content.value];
      }
      assert pairs == before + QuestionLine(user);
      if i + 1 < |messages| {
        ghost var asked := pairs;
        var ai := messages[i + 1];
        if ai.content.Some? {
          pairs := pairs + ["Answer: " + ai.content.value];
        }
        assert pairs == asked + AnswerLine(ai);
        ghost var later := PairLines(messages[i + 2..]);
        AppendAssoc(before, QuestionLine(user) + AnswerLine(ai), later);
        AppendAssoc(before, QuestionLine(user), AnswerLine(ai));
        if i + 2 >= |messages| {
          assert messages[i + 2..] == [];
          AppendEmpty(pairs);
        }
      } else {
        AppendEmpty(pairs);
      }
      i := i + 2;
    }
    text := if pairs != [] then Join(pairs, "\n") else "";
  }

  // ---------------------------------------------------------------------------
  // format_chat_history_for_qwen

  /** `content or ""`. */
  function ContentText(m: Message): string {
    match m.content
    case Some(c) => c
    case None => ""
  }

  predicate IsAssistant(m: Message) {
    m.role == "assistant" || m.role == "ai"
  }

  predicate IsUser(m: Message) {
    m.role == "user" || m.role == "human"
  }

  /** One rendered history line: "human" for user roles, "AI" for any other. */
  function HistoryLine(m: Message): (line: string)
    ensures IsUser(m) ==> line == "human: " + ContentText(m)
    ensures !IsUser(m) ==> line == "AI: " + ContentText(m)
  {
    (if IsUser(m) then "human" else "AI") + ": " + ContentText(m)
  }

  function HistoryLines(ms: seq<Message>): (lines: seq<string>)
    ensures |lines| == |ms|
    ensures forall k :: 0 <= k < |ms| ==> lines[k] == HistoryLine(ms[k])
  {
    seq(|ms|, k requires 0 <= k < |ms| => HistoryLine(ms[k]))
  }

  /** The content of the last assistant message, "" if there is none. */
  function LastAssistantAnswer(ms: seq<Message>): string
  {
    if ms == [] then ""
    else if IsAssistant(ms[|ms| - 1]) then ContentText(ms[|ms| - 1])
    else LastAssistantAnswer(ms[..|ms| - 1])
  }

  /** `ms[k]` is the last assistant message of `ms`. */
  ghost predicate IsLastAssistant(ms: seq<Message>, k: int) {
    0 <= k < |ms| && IsAssistant(ms[k]) && forall j :: k < j < |ms| ==> !IsAssistant(ms[j])
  }

  /** No message of `ms` is from the assistant. */
  ghost predicate NoAssistant(ms: seq<Message>) {
    forall j :: 0 <= j < |ms| ==> !IsAssistant(ms[j])
  }

  /** The previous answer is the content of the last assistant message, or
      "" when no message is from the assistant. */
  lemma {:induction false} LastAssistantAnswerIsLast(ms: seq<Message>)
    ensures (exists k :: IsLastAssistant(ms, k) && LastAssistantAnswer(ms) == ContentText(ms[k]))
            || (NoAssistant(ms) && LastAssistantAnswer(ms) == "")
  {
    if ms == [] {
    } else if IsAssistant(ms[|ms| - 1]) {
      assert IsLastAssistant(ms, |ms| - 1);
    } else {
      var init := ms[..|ms| - 1];
      LastAssistantAnswerIsLast(init);
      if exists k :: IsLastAssistant(init, k) && LastAssistantAnswer(init) == ContentText(init[k]) {
        var k :| IsLastAssistant(init, k) && LastAssistantAnswer(init) == ContentText(init[k]);
        assert ms[k] == init[k];
        assert IsLastAssistant(ms, k) by {
          forall j | k < j < |ms| ensures !IsAssistant(ms[j]) {
            if j < |init| {
              assert ms[j] == init[j];
            }
          }
        }
      } else {
        assert NoAssistant(ms) by {
          forall j | 0 <= j < |ms| ensures !IsAssistant(ms[j]) {
            if j < |init| {
              assert ms[j] == init[j];
            }
          }
        }
      }
    }
  }

  /** What `format_chat_history_for_qwen(history)` returns. */
  function ChatHistoryText(ms: seq<Message>): string
  {
    if ms == [] then NoHistory
    else
      var body := Join(HistoryLines(ms), "\n");
      var prev := LastAssistantAnswer(ms[..|ms| - 1]);
      if prev != "" then body + PrevAnswerLabel + prev else body
  }

  /** The rendering starts with the first message's line, and it is the
      placeholder exactly when the history is empty. */
  lemma ChatHistoryPlaceholderIffEmpty(ms: seq<Message>)
    ensures ChatHistoryText(ms) == NoHistory <==> ms == []
    ensures ms != [] ==> var first := HistoryLine(ms[0]);
              |ChatHistoryText(ms)| >= |first| && ChatHistoryText(ms)[..|first|] == first
  {
    if ms != [] {
      var lines := HistoryLines(ms);
      JoinStartsWithFirst(lines, "\n");
      var first := HistoryLine(ms[0]);
      var body := Join(lines, "\n");
      var text := ChatHistoryText(ms);
      assert text[..|body|] == body;
      assert text[..|first|] == first;
      assert text[0] == first[0];
      assert first[0] == 'h' || first[0] == 'A';
    }
  }

  /** The backward scan of `format_chat_history_for_qwen`: the content of
      the last assistant message before the final one. */
  method PreviousAnswer(history: seq<Message>) returns (prev: string)
    requires |history| > 0
    ensures prev == LastAssistantAnswer(history[..|history| - 1])
  {
    ghost var earlier := history[..|history| - 1];
    prev := "";
    var i := |history| - 1;
    while i > 0
      invariant 0 <= i <= |history| - 1
      invariant prev == ""
      invariant LastAssistantAnswer(history[..i]) == LastAssistantAnswer(earlier)
    {
      i := i - 1;
      PrefixOfPrefix(history, i, i + 1);
      var msg := history[i];
      if IsAssistant(msg) {
        prev := ContentText(msg);
        break;
      }
    }
  }

  /** `format_chat_history_for_qwen`: the previous AI answer (the final
      message excluded) and a forward pass rendering every message. */
  method FormatChatHistoryForQwen(history: seq<Message>) returns (text: string)
    ensures text == ChatHistoryText(history)
  {
    if |history| == 0 {
      return NoHistory;
    }
    var prev := PreviousAnswer(history);
    ghost var lines := HistoryLines(history);
    var formatted: seq<string> := [];
    var j := 0;
    while j < |history|
      invariant 0 <= j <= |history|
      invariant formatted == lines[..j]
    {
      PrefixStep(lines, j);
      formatted := formatted + [HistoryLine(history[j])];
      j := j + 1;
    }
    PrefixAll(lines);
    text := Join(formatted, "\n");
    if prev != "" {
      text := text + PrevAnswerLabel + prev;
    }
  }

  // ---------------------------------------------------------------------------
  // format_docs_for_qwen

  function DocOpen(id: nat): string {
    "<document id=\"" + IntToString(id) + "\">"
  }

  /** One document block: id, content, citation and the debug line
      (file label, page label, chunk index). */
  function DocBlock(id: nat, doc: Doc, citation: string, info: SourceInfo): string {
    DocHead(id, doc) + DocTail(citation, info)
  }

  /** A block up to and including the document's content. */
  function DocHead(id: nat, doc: Doc): string {
    DocOpen(id) + "<content>" + doc.content
  }

  /** The rest of a block: the citation, the debug line and the closing tag. */
  function DocTail(citation: string, info: SourceInfo): string {
    "</content>"
    + "<source_citation>" + citation + "</source_citation>"
    + "<debug_info>파일: " + info.fileName + ", 페이지: " + info.pageInfo + ", 청크: " + PyStr(info.chunkIndex) + "</debug_info>"
    + "</document>"
  }

  /** The blocks of the first 15 documents, with the tracker's citation and
      source information for each. */
  function DocBlocks(tracker: SourceTracker, docs: seq<Doc>): (blocks: seq<string>)
    reads tracker
    ensures |blocks| == Min(MaxDocs, |docs|)
    ensures forall i :: 0 <= i < |blocks| ==>
              blocks[i] == TrackedBlock(tracker, docs[i], i + 1)
  {
    seq(Min(MaxDocs, |docs|), i reads tracker requires 0 <= i < |docs| => TrackedBlock(tracker, docs[i], i + 1))
  }

  /** The block of one document with the given id, as the tracker cites it. */
  function TrackedBlock(tracker: SourceTracker, doc: Doc, id: nat): string
    reads tracker
  {
    DocBlock(id, doc, tracker.GetSourceCitation(doc), tracker.GetDetailedSourceInfo(doc))
  }

  /** A block opens with its id followed by the document's content. */
  lemma DocBlockHead(id: nat, doc: Doc, citation: string, info: SourceInfo)
    ensures var head := DocOpen(id) + "<content>" + doc.content;
            var block := DocBlock(id, doc, citation, info);
            |block| > |head| && block[..|head|] == head
  {
    var head, tail := DocHead(id, doc), DocTail(citation, info);
    assert |tail| > 0;
    assert (head + tail)[..|head|] == head;
  }

  /** Block `i` opens with id `i + 1` followed by the content of `docs[i]`. */
  lemma DocBlocksNumbered(tracker: SourceTracker, docs: seq<Doc>, i: int)
    requires 0 <= i < |DocBlocks(tracker, docs)|
    ensures var head := DocOpen(i + 1) + "<content>" + docs[i].content;
            var block := DocBlocks(tracker, docs)[i];
            |block| > |head| && block[..|head|] == head
  {
    DocBlockHead(i + 1, docs[i], tracker.GetSourceCitation(docs[i]), tracker.GetDetailedSourceInfo(docs[i]));
  }

  /** Different positions get different ids. */
  lemma DocIdsDistinct(i: nat, j: nat)
    requires i != j
    ensures DocOpen(i + 1) != DocOpen(j + 1)
  {
    var a, b := IntToString(i + 1), IntToString(j + 1);
    var p := "<document id=\"";
    if |a| == |b| && DocOpen(i + 1) == DocOpen(j + 1) {
      assert a == DocOpen(i + 1)[|p|..|p| + |a|];
      assert b == DocOpen(j + 1)[|p|..|p| + |b|];
      IntToStringInjective(i + 1, j + 1);
    }
  }

  /** `format_docs_for_qwen(docs)`: the blocks joined by blank lines. */
  method FormatDocsForQwen(tracker: SourceTracker, docs: seq<Doc>) returns (text: string)
    ensures text == Join(DocBlocks(tracker, docs), "\n\n")
  {
    ghost var blocks := DocBlocks(tracker, docs);
    var formatted: seq<string> := [];
    var limited := Take(docs, MaxDocs);
    var i := 0;
    while i < |limited|
      invariant 0 <= i <= |limited| == |blocks|
      invariant formatted == blocks[..i]
    {
      var doc := limited[i];
      assert doc == docs[i];
      var citation := tracker.GetSourceCitation(doc);
      var debugInfo := tracker.GetDetailedSourceInfo(doc);
      PrefixStep(blocks, i);
      formatted := formatted + [DocBlock(i + 1, doc, citation, debugInfo)];
      i := i + 1;
    }
    PrefixAll(blocks);
    text := Join(formatted, "\n\n");
  }
}
