/** The values the RAG pipeline passes around: LangChain documents with a
    metadata dictionary, chat messages, and the outcomes of the external
    capabilities (language-model calls, `json.loads`) that the pipeline
    treats as oracles. */
module Model {
  import opened PyText

  /** A metadata value as stored by the ingestion step: Python `None`, an
      int, a str, or a list of ints (the `pages` field). */
  datatype MetaVal = NoneVal | IntVal(i: int) | StrVal(s: string) | IntList(xs: seq<int>)

  /** A document's metadata dictionary. */
  type Metadata = map<string, MetaVal>

  /** `metadata.get(key, default)`. */
  function Get(meta: Metadata, key: string, default: MetaVal): MetaVal {
    if key in meta then meta[key] else default
  }

  /** Python truthiness of a metadata value. */
  predicate Truthy(v: MetaVal) {
    match v
    case NoneVal => false
    case IntVal(i) => i != 0
    case StrVal(s) => s != ""
    case IntList(xs) => xs != []
  }

  /** `", ".join(str(x) for x in xs)`, the inside of a list's repr. */
  function IntsRepr(xs: seq<int>): string {
    if xs == [] then ""
    else if |xs| == 1 then IntToString(xs[0])
    else IntsRepr(xs[..|xs| - 1]) + ", " + IntToString(xs[|xs| - 1])
  }

  /** Python `str(v)` (what an f-string interpolates). */
  function PyStr(v: MetaVal): string {
    match v
    case NoneVal => "None"
    case IntVal(i) => IntToString(i)
    case StrVal(s) => s
    case IntList(xs) => "[" + IntsRepr(xs) + "]"
  }

  /** A LangChain `Document`: `page_content` and `metadata`. */
  datatype Doc = Doc(content: string, metadata: Metadata)

  /** The md5 hex digest of a content string, used only as a dictionary and
      set key. It is modelled as the content itself: an injective key, so two
      documents share a key exactly when their contents are equal (hash
      collisions are not modelled). */
  function ContentHash(content: string): string
  {
    content
  }

  lemma ContentHashInjective(a: string, b: string)
    ensures ContentHash(a) == ContentHash(b) <==> a == b
  {
  }

  /** The outcome of one text-completion call: the reply text, or an
      exception (timeout, transport error, ...). */
  datatype Reply = Answered(text: string) | Raised

  /** The outcome of `json.loads` on a reply: a list (of strings), some other
      JSON value, or a parse error. */
  datatype Json = JsonList(items: seq<string>) | JsonNotList | JsonError

  /** A chat message. `role` is the first truthy of the message's `role` and
      `type` attributes ("" if neither); `content` is None when the message
      has no content attribute. */
  datatype Message = Message(role: string, content: Option<string>)

  datatype Option<T> = None | Some(value: T)

  /** The `chat_history` field of the graph state: either an already rendered
      string or a list of messages. */
  datatype History = HistoryText(text: string) | HistoryMessages(messages: seq<Message>)

  /** The external capabilities the pipeline calls, as functions of what
      they are given. Each language-model call may raise. */
  datatype Oracles = Oracles(
    rewrite: (string, string) -> Reply,           // (question, rendered history)
    decompose: (string, nat) -> Reply,            // (question, attempt number)
    expand: string -> Reply,                      // (question)
    rerank: (string, string) -> Reply,            // (stripped content, question)
    generate: (string, string, string) -> Reply,  // (documents, question, history)
    loads: string -> Json)                        // json.loads
}
