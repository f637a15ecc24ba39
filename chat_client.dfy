/** Prompt construction and the provider chain of the chatbot backend: OpenAI first when
    its key is set, then OpenRouter when its key is set, else an "exhausted" error. */
module ChatClient {
  import opened Wrappers
  import opened Text
  import opened VectorSearch

  /** The OpenAI model, fixed in the request body (the configurable primary model name
      is read from the environment but never used). */
  const OpenAIModel: string := "gpt-4o-mini"
  /** Default for the configurable OpenRouter model. */
  const DefaultFallbackModel: string := "mistralai/mistral-7b-instruct:free"
  const MaxTokens: nat := 800
  const Temperature: real := 0.0

  const ChunkSeparator: string := "\n\n---\n\n"
  const RagExhausted: string :=
    "All chat API options exhausted (OpenAI and OpenRouter both failed or unavailable)"
  const FollowUpExhausted: string := "All chat API options exhausted for follow-up"
  const FollowUpPreamble: string :=
    "Based only on the previous answer below, respond to the user request.\n\n"

  /** The environment the chat client reads: the two API keys (possibly unset or empty),
      the OpenRouter model name and the system prompt, whose text is not modelled. */
  datatype Config = Config(
    openAIKey: Option<string>,
    openRouterKey: Option<string>,
    fallbackModel: string,
    systemPrompt: string)

  /** A key counts as set when it is present and non-empty. */
  predicate KeySet(k: Option<string>) {
    k.Some? && k.value != ""
  }

  datatype Role = SystemRole | UserRole
  datatype Message = Message(role: Role, content: string)

  datatype Provider = OpenAI | OpenRouter

  /** The body of one chat-completions request. */
  datatype Request = Request(provider: Provider, model: string, messages: seq<Message>,
                             maxTokens: nat, temperature: real)

  /** `choices[0].message.content` of a reply: a string, a JSON object (carried as the
      text `json.dumps` makes of it), or some other value. */
  datatype Content = Text(s: string) | Structured(dumped: string) | OtherValue

  /** The HTTP exchange with a provider: an error status, a timeout or a body without the
      expected fields is a failure. */
  type Transport = Request -> Outcome<Content>

  /** `call_openai` / `call_openrouter` after the reply: an object is serialised, a string
      is stripped, anything else raises on `.strip()`. */
  function NormalizeContent(c: Content): (r: Outcome<string>)
    ensures c.Text? ==> r == Ok(Strip(c.s))
    ensures c.Structured? ==> r == Ok(c.dumped)
    ensures c.OtherValue? ==> r.Fail?
  {
    match c
    case Text(s) => Ok(Strip(s))
    case Structured(d) => Ok(d)
    case OtherValue => Fail("object has no attribute 'strip'")
  }

  /** Normalising a string reply removes exactly its surrounding whitespace: applying it to
      the result again changes nothing. */
  lemma {:induction false} NormalizeTextIdempotent(s: string)
    ensures NormalizeContent(Text(NormalizeContent(Text(s)).value)) == NormalizeContent(Text(s))
  {
    var r := Strip(s);
    StripUnique(r, r, 0);
  }

  /** The body `call_openai` posts: the fixed model, the messages as given, 800 tokens and
      temperature 0. */
  function OpenAIRequest(messages: seq<Message>): (r: Request)
    ensures r.provider == OpenAI && r.model == "gpt-4o-mini" && r.messages == messages
    ensures r.maxTokens == 800 && r.temperature == 0.0
  {
    Request(OpenAI, OpenAIModel, messages, MaxTokens, Temperature)
  }

  /** The body `call_openrouter` posts: the configured model and otherwise the same fields
      as the OpenAI body. */
  function OpenRouterRequest(cfg: Config, messages: seq<Message>): (r: Request)
    ensures r.provider == OpenRouter && r.model == cfg.fallbackModel && r.messages == messages
    ensures r.maxTokens == 800 && r.temperature == 0.0
  {
    Request(OpenRouter, cfg.fallbackModel, messages, MaxTokens, Temperature)
  }

  /** One provider call: an HTTP error raises with its message; a reply succeeds exactly
      when its content is a string, which comes back stripped, or an object, which comes
      back serialised. */
  function Call(transport: Transport, req: Request): (r: Outcome<string>)
    ensures transport(req).Fail? ==> r == Fail(transport(req).msg)
    ensures r.Ok? <==> transport(req).Ok? && !transport(req).value.OtherValue?
    ensures transport(req).Ok? && transport(req).value.Text? ==> r == Ok(Strip(transport(req).value.s))
    ensures transport(req).Ok? && transport(req).value.Structured? ==> r == Ok(transport(req).value.dumped)
  {
    match transport(req)
    case Ok(c) => NormalizeContent(c)
    case Fail(m) => Fail(m)
  }

  /** The outcome of the chain and the requests it sent, in order. */
  datatype ChatRun = ChatRun(result: Outcome<string>, requests: seq<Request>)

  /** The provider chain shared by `call_chat_api` and `_call_chat_api_followup`. */
  function Complete(cfg: Config, transport: Transport, messages: seq<Message>, exhausted: string): (r: ChatRun)
    // OpenAI is asked first and only when its key is set
    ensures (exists j :: 0 <= j < |r.requests| && r.requests[j].provider == OpenAI) ==>
      KeySet(cfg.openAIKey) && r.requests[0] == OpenAIRequest(messages)
    // OpenRouter is asked only when its key is set and OpenAI was not asked or failed
    ensures (exists j :: 0 <= j < |r.requests| && r.requests[j].provider == OpenRouter) ==>
      KeySet(cfg.openRouterKey) && r.requests[|r.requests| - 1] == OpenRouterRequest(cfg, messages)
    // OpenAI is always asked when its key is set
    ensures KeySet(cfg.openAIKey) ==> |r.requests| > 0 && r.requests[0] == OpenAIRequest(messages)
    // OpenRouter is always asked when its key is set and OpenAI was skipped or failed
    ensures KeySet(cfg.openRouterKey) && (!KeySet(cfg.openAIKey) || Call(transport, OpenAIRequest(messages)).Fail?) ==>
      |r.requests| > 0 && r.requests[|r.requests| - 1] == OpenRouterRequest(cfg, messages)
    ensures |r.requests| <= 2
    // no provider is asked twice: there is no retry within a provider
    ensures forall j, j' :: 0 <= j < j' < |r.requests| ==> r.requests[j].provider != r.requests[j'].provider
    ensures forall j :: 0 <= j < |r.requests| ==> r.requests[j].messages == messages
    // every request but the last failed; the first success is returned as it is
    ensures forall j :: 0 <= j < |r.requests| - 1 ==> Call(transport, r.requests[j]).Fail?
    ensures r.result.Ok? ==> |r.requests| > 0 && r.result == Call(transport, r.requests[|r.requests| - 1])
    // the chain fails with the fixed message exactly when every key that is set failed
    ensures r.result.Fail? ==> r.result.msg == exhausted
    ensures r.result.Fail? <==>
      && (KeySet(cfg.openAIKey) ==> Call(transport, OpenAIRequest(messages)).Fail?)
      && (KeySet(cfg.openRouterKey) ==> Call(transport, OpenRouterRequest(cfg, messages)).Fail?)
  {
    var first := if KeySet(cfg.openAIKey) then
      var req := OpenAIRequest(messages);
      Some(ChatRun(Call(transport, req), [req]))
    else None;
    if first.Some? && first.value.result.Ok? then first.value
    else
      var tried := if first.Some? then first.value.requests else [];
      if KeySet(cfg.openRouterKey) then
        var req := OpenRouterRequest(cfg, messages);
        var out := Call(transport, req);
        ChatRun(if out.Ok? then out else Fail(exhausted), tried + [req])
      else ChatRun(Fail(exhausted), tried)
  }

  /** With neither key set no request is sent and the chain fails. */
  lemma {:induction false} NoKeysNoRequests(cfg: Config, transport: Transport, messages: seq<Message>, exhausted: string)
    requires !KeySet(cfg.openAIKey) && !KeySet(cfg.openRouterKey)
    ensures Complete(cfg, transport, messages, exhausted) == ChatRun(Fail(exhausted), [])
  {
  }

  /** `str(c['text'])` of a record: its text, or `None` when it has none. */
  function TextOrNone(t: Option<string>): string {
    if t.Some? then t.value else "None"
  }

  /** The label and text of the `i`-th chunk, counted from 0 and numbered from 1. */
  function ChunkLine(i: nat, c: Chunk): string {
    "[" + NatToString(i + 1) + "] " + TextOrNone(c.text)
  }

  /** The lines of all chunks, in retrieval order. */
  function ChunkLines(chunks: seq<Chunk>): (lines: seq<string>)
    ensures |lines| == |chunks|
    ensures forall i :: 0 <= i < |chunks| ==> lines[i] == ChunkLine(i, chunks[i])
  {
    seq(|chunks|, i requires 0 <= i < |chunks| => ChunkLine(i, chunks[i]))
  }

  /** The context block: the chunk lines joined by the separator. */
  function ContextText(chunks: seq<Chunk>): (r: string)
    ensures chunks == [] ==> r == ""
    ensures |chunks| == 1 ==> r == ChunkLine(0, chunks[0])
    // the block opens with the first chunk's line, labelled `[1]`
    ensures chunks != [] ==> ChunkLine(0, chunks[0]) <= r
  {
    Join(ChunkSeparator, ChunkLines(chunks))
  }

  /** The label of a chunk line gives back its position: the digits between `[` and `]`
      read as the index plus one. */
  lemma {:induction false} ChunkLabelRoundTrip(i: nat, c: Chunk)
    ensures var line := ChunkLine(i, c); var n := |NatToString(i + 1)|;
      && line[0] == '[' && line[n + 1] == ']' && AllDigits(line[1..n + 1])
      && DecimalValue(line[1..n + 1]) == i + 1
  {
    var line := ChunkLine(i, c);
    var d := NatToString(i + 1);
    assert line == "[" + d + "] " + TextOrNone(c.text);
    assert line[1..|d| + 1] == d;
    DecimalRoundTrip(i + 1);
  }

  /** Every retrieved chunk's numbered line appears in the context. */
  lemma {:induction false} ContextHasEveryChunk(chunks: seq<Chunk>, i: nat)
    requires i < |chunks|
    ensures Contains(ContextText(chunks), ChunkLine(i, chunks[i]))
  {
    JoinContainsPart(ChunkSeparator, ChunkLines(chunks), i);
  }

  /** Adding a chunk at the end appends a separator and its line to the context. */
  lemma {:induction false} ContextSnoc(chunks: seq<Chunk>, c: Chunk)
    requires chunks != []
    ensures ContextText(chunks + [c]) == ContextText(chunks) + ChunkSeparator + ChunkLine(|chunks|, c)
  {
    var lines := ChunkLines(chunks + [c]);
    assert lines == ChunkLines(chunks) + [ChunkLine(|chunks|, c)];
    JoinSnoc(ChunkSeparator, ChunkLines(chunks), ChunkLine(|chunks|, c));
  }

  /** The messages of `call_chat_api`: the system prompt, then the context and the question. */
  function RagMessages(cfg: Config, question: string, chunks: seq<Chunk>): (ms: seq<Message>)
    ensures |ms| == 2 && ms[0] == Message(SystemRole, cfg.systemPrompt) && ms[1].role == UserRole
    ensures ms[1].content == "CONTEXT:\n" + ContextText(chunks) + "\n\nQuestion: " + question
  {
    [Message(SystemRole, cfg.systemPrompt),
     Message(UserRole, "CONTEXT:\n" + ContextText(chunks) + "\n\nQuestion: " + question)]
  }

  /** The messages of `_call_chat_api_followup`: the system prompt, then the previous answer
      and the question, with no retrieved text. */
  function FollowUpMessages(cfg: Config, prev: string, question: string): (ms: seq<Message>)
    ensures |ms| == 2 && ms[0] == Message(SystemRole, cfg.systemPrompt) && ms[1].role == UserRole
    ensures ms[1].content == FollowUpPreamble + "Previous answer:\n" + prev + "\n\nQuestion: " + question
  {
    [Message(SystemRole, cfg.systemPrompt),
     Message(UserRole, FollowUpPreamble + "Previous answer:\n" + prev + "\n\nQuestion: " + question)]
  }

  /** The user message of a RAG prompt holds the question and every chunk's line. */
  lemma {:induction false} RagPromptCarriesQuestionAndChunks(cfg: Config, question: string, chunks: seq<Chunk>, i: nat)
    requires i < |chunks|
    ensures var u := RagMessages(cfg, question, chunks)[1].content;
      Contains(u, question) && Contains(u, ChunkLine(i, chunks[i]))
  {
    var ctx := ContextText(chunks);
    var u := "CONTEXT:\n" + ctx + "\n\nQuestion: " + question;
    ContextHasEveryChunk(chunks, i);
    ContainsExtend(ctx, ChunkLine(i, chunks[i]), "CONTEXT:\n", "\n\nQuestion: " + question);
    assert "CONTEXT:\n" + ctx + ("\n\nQuestion: " + question) == u;
    assert OccursAt(u, question, |u| - |question|) by {
      assert u[|u| - |question|..] == question;
    }
  }

  /** The user message of a follow-up prompt holds the previous answer and the question. */
  lemma {:induction false} FollowUpPromptCarriesPrevious(cfg: Config, prev: string, question: string)
    ensures var u := FollowUpMessages(cfg, prev, question)[1].content;
      Contains(u, prev) && Contains(u, question)
  {
    var head := FollowUpPreamble + "Previous answer:\n";
    var tail := "\n\nQuestion: " + question;
    var u := head + prev + tail;
    assert u == FollowUpMessages(cfg, prev, question)[1].content;
    assert OccursAt(u, prev, |head|) by {
      assert u[|head|..|head| + |prev|] == prev;
    }
    assert OccursAt(u, question, |u| - |question|) by {
      assert u[|u| - |question|..] == question;
    }
  }

  /** `call_chat_api`: the provider chain over the RAG prompt. */
  function CallChatApi(cfg: Config, transport: Transport, question: string, chunks: seq<Chunk>): (r: ChatRun)
    ensures forall j :: 0 <= j < |r.requests| ==> r.requests[j].messages == RagMessages(cfg, question, chunks)
    ensures |r.requests| <= 2
    ensures KeySet(cfg.openAIKey) ==> |r.requests| > 0 && r.requests[0].provider == OpenAI
    ensures r.result.Fail? ==> r.result.msg == RagExhausted
    ensures r.result.Ok? ==> |r.requests| > 0 && r.result == Call(transport, r.requests[|r.requests| - 1])
  {
    Complete(cfg, transport, RagMessages(cfg, question, chunks), RagExhausted)
  }

  /** `_call_chat_api_followup`: the same chain over the follow-up prompt, with its own
      error message. */
  function CallChatApiFollowUp(cfg: Config, transport: Transport, prev: string, question: string): (r: ChatRun)
    ensures forall j :: 0 <= j < |r.requests| ==> r.requests[j].messages == FollowUpMessages(cfg, prev, question)
    ensures |r.requests| <= 2
    ensures KeySet(cfg.openAIKey) ==> |r.requests| > 0 && r.requests[0].provider == OpenAI
    ensures r.result.Fail? ==> r.result.msg == FollowUpExhausted
    ensures r.result.Ok? ==> |r.requests| > 0 && r.result == Call(transport, r.requests[|r.requests| - 1])
  {
    Complete(cfg, transport, FollowUpMessages(cfg, prev, question), FollowUpExhausted)
  }
}
