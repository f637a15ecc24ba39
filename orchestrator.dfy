/** `answer_structured`: one chat turn over a single-slot memory of the last question and
    answer. Greetings are answered locally, follow-ups reuse the previous answer, and
    everything else goes through embedding, search and the chat providers. */
module Orchestrator {
  import opened Wrappers
  import opened Text
  import opened Intent
  import opened Embedding
  import opened VectorSearch
  import opened ChatClient

  /** The replies to a greeting, one of which is picked at random. */
  const GreetingReplies: seq<string> := [
    "Hi — I'm the QuotePlan Assistant. How can I help you today?",
    "Hello — I can help with QuotePlan documentation. What would you like to know?",
    "Hi there! Ask me about creating projects, BOMs, POs, or offer letters."
  ]

  /** The answer when the search finds nothing. */
  const NoInfoAnswer: string := "I don't have this information in the QuotePlan manual."

  const DefaultTopK: int := 5

  /** Everything outside the program a turn depends on: configuration, what loading the
      embedding model would give, the encoder, the vector store and the chat transport. */
  datatype Env = Env(
    cfg: Config,
    load: Outcome<Model>,
    encode: (Model, string) -> Outcome<Vector>,
    store: Store,
    transport: Transport)

  /** The memory slot's content: the last question and its answer. */
  datatype Turn = Turn(question: string, answer: string)

  /** The record `answer_structured` returns. */
  datatype AnswerResult = AnswerResult(success: bool, question: string, answer: string, retrieved: seq<Chunk>)

  /** Which of the three paths a question takes. */
  datatype Route = Greet | FollowUp(prev: string) | Rag

  /** No greeting reply is empty, so a greeting leaves a usable previous answer. */
  lemma {:induction false} GreetingRepliesNonEmpty(pick: nat)
    requires pick < |GreetingReplies|
    ensures |GreetingReplies[pick]| > 0
  {
  }

  /** The previous answer counts only when there is one and it is not empty. */
  predicate HasPrevious(memory: Option<Turn>) {
    memory.Some? && memory.value.answer != ""
  }

  /** The routing of `answer_structured`: the greeting test comes first, then a follow-up
      with a previous answer, then retrieval. */
  function RouteOf(question: string, memory: Option<Turn>): (r: Route)
    ensures r.Greet? <==> IsGreeting(question)
    ensures r.FollowUp? <==> !IsGreeting(question) && IsFollowUp(question) && HasPrevious(memory)
    ensures r.FollowUp? ==> r.prev == memory.value.answer
  {
    if IsGreeting(question) then Greet
    else if IsFollowUp(question) && HasPrevious(memory) then FollowUp(memory.value.answer)
    else Rag
  }

  /** What one turn produces: the returned record, the new memory and loader state, the
      chat requests sent, and whether the turn took the retrieval path. That path runs the
      loader first, so `retrievalRoute` holds even when the encoder then raises and no
      search happens. */
  datatype TurnRun = TurnRun(result: AnswerResult, memory: Option<Turn>, loader: LoaderState,
                             requests: seq<Request>, retrievalRoute: bool)

  /** The end of a turn: a successful answer is stored in memory; an exception becomes a
      failed record with the message and no chunks, and memory is left alone. */
  function Conclude(question: string, answer: Outcome<string>, retrieved: seq<Chunk>, memory: Option<Turn>,
                    loader: LoaderState, requests: seq<Request>, retrievalRoute: bool): (t: TurnRun)
    ensures t.result.success <==> answer.Ok?
    ensures answer.Ok? ==>
      t.result == AnswerResult(true, question, answer.value, retrieved) && t.memory == Some(Turn(question, answer.value))
    ensures answer.Fail? ==>
      t.result == AnswerResult(false, question, "Error: " + answer.msg, []) && t.memory == memory
    ensures t.loader == loader && t.requests == requests && t.retrievalRoute == retrievalRoute
  {
    match answer
    case Ok(a) => TurnRun(AnswerResult(true, question, a, retrieved), Some(Turn(question, a)), loader, requests, retrievalRoute)
    case Fail(m) => TurnRun(AnswerResult(false, question, "Error: " + m, []), memory, loader, requests, retrievalRoute)
  }

  /** The retrieval path after the embedding: search, then the fixed answer when nothing
      is found, or the chat providers otherwise. */
  function RagAnswer(env: Env, question: string, vector: Vector, topK: int): (r: (Outcome<string>, seq<Chunk>, seq<Request>))
    ensures var found := SearchChunks(env.store, vector, topK);
      // the chunks returned are exactly those found
      && r.1 == (if found.Ok? then found.value else [])
      // a failed search is the error, and nothing found is the fixed answer; neither asks a provider
      && (found.Fail? ==> r.0 == Fail(found.msg) && r.2 == [])
      && (found == Ok([]) ==> r.0 == Ok(NoInfoAnswer) && r.2 == [])
      // otherwise the providers answer over the chunks found
      && (found.Ok? && found.value != [] ==>
            var run := CallChatApi(env.cfg, env.transport, question, found.value);
            r.0 == run.result && r.2 == run.requests)
      // a provider failure after a successful search is the exhausted-chain error
      && (found.Ok? && r.0.Fail? ==> r.0.msg == RagExhausted)
  {
    match SearchChunks(env.store, vector, topK)
    case Fail(m) => (Fail(m), [], [])
    case Ok(chunks) =>
      if chunks == [] then (Ok(NoInfoAnswer), [], [])
      else
        var run := CallChatApi(env.cfg, env.transport, question, chunks);
        (run.result, chunks, run.requests)
  }

  /** `answer_structured(question, top_k)` given the loader state and memory before the
      turn; `pick` is the index `random.choice` draws. */
  function Respond(env: Env, loader: LoaderState, memory: Option<Turn>, question: string, topK: int, pick: nat): (t: TurnRun)
    requires pick < |GreetingReplies|
    ensures t.result.question == question
    // success stores exactly this turn; failure leaves memory alone and returns no chunks
    ensures t.result.success ==> t.memory == Some(Turn(question, t.result.answer))
    ensures !t.result.success ==>
      && t.memory == memory && t.result.retrieved == []
      && |t.result.answer| >= 7 && t.result.answer[..7] == "Error: "
    // the loader is only touched on the retrieval path
    ensures t.retrievalRoute <==> RouteOf(question, memory).Rag?
    ensures t.retrievalRoute ==> t.loader == Step(loader, env.load)
    ensures !t.retrievalRoute ==> t.loader == loader
  {
    match RouteOf(question, memory)
    case Greet =>
      var reply := GreetingReplies[pick];
      TurnRun(AnswerResult(true, question, reply, []), Some(Turn(question, reply)), loader, [], false)
    case FollowUp(prev) =>
      var run := CallChatApiFollowUp(env.cfg, env.transport, prev, question);
      Conclude(question, run.result, [], memory, loader, run.requests, false)
    case Rag =>
      var loader' := Step(loader, env.load);
      match Embed(loader', question, env.encode)
      case Fail(m) => Conclude(question, Fail(m), [], memory, loader', [], true)
      case Ok(vector) =>
        var (answer, chunks, requests) := RagAnswer(env, question, vector, topK);
        Conclude(question, answer, chunks, memory, loader', requests, true)
  }

  /** A greeting is answered locally with one of the fixed replies, even when it also holds
      a follow-up keyword: no embedding, search or chat request takes place. */
  lemma {:induction false} GreetingWins(env: Env, loader: LoaderState, memory: Option<Turn>, question: string, topK: int, pick: nat)
    requires pick < |GreetingReplies| && IsGreeting(question)
    ensures var t := Respond(env, loader, memory, question, topK, pick);
      && t.result.success && t.result.answer == GreetingReplies[pick] && t.result.retrieved == []
      && t.memory == Some(Turn(question, t.result.answer)) && t.requests == [] && !t.retrievalRoute
  {
  }

  /** A follow-up question is answered from the previous answer alone when there is one:
      nothing is retrieved, the follow-up chain runs on the follow-up prompt, and its answer
      is returned and stored, or its failure reported with memory left alone. */
  lemma {:induction false} FollowUpUsesPrevious(env: Env, loader: LoaderState, memory: Option<Turn>, question: string, topK: int, pick: nat)
    requires pick < |GreetingReplies|
    requires !IsGreeting(question) && IsFollowUp(question) && HasPrevious(memory)
    ensures var t := Respond(env, loader, memory, question, topK, pick);
      && t.result.retrieved == [] && !t.retrievalRoute
      && forall j :: 0 <= j < |t.requests| ==>
        t.requests[j].messages == FollowUpMessages(env.cfg, memory.value.answer, question)
    ensures var t := Respond(env, loader, memory, question, topK, pick);
      var run := CallChatApiFollowUp(env.cfg, env.transport, memory.value.answer, question);
      && t.requests == run.requests
      && (run.result.Ok? ==>
            t.result == AnswerResult(true, question, run.result.value, [])
            && t.memory == Some(Turn(question, run.result.value)))
      && (run.result.Fail? ==>
            t.result == AnswerResult(false, question, "Error: " + FollowUpExhausted, [])
            && t.memory == memory)
  {
  }

  /** An encoder that raises fails the turn with its message: memory is kept, nothing is
      searched and no chat request is sent. */
  lemma {:induction false} EmbedFailureIsError(env: Env, loader: LoaderState, memory: Option<Turn>, question: string,
                                               topK: int, pick: nat, m: string)
    requires pick < |GreetingReplies|
    requires RouteOf(question, memory) == Rag
    requires Embed(Step(loader, env.load), question, env.encode) == Fail(m)
    ensures var t := Respond(env, loader, memory, question, topK, pick);
      && t.result == AnswerResult(false, question, "Error: " + m, [])
      && t.memory == memory && t.requests == []
  {
  }

  /** A search that raises, such as the `RuntimeError` when no search convention works,
      fails the turn with its message: memory is kept and no chat request is sent. */
  lemma {:induction false} SearchFailureIsError(env: Env, loader: LoaderState, memory: Option<Turn>, question: string,
                                                topK: int, pick: nat, m: string)
    requires pick < |GreetingReplies|
    requires RouteOf(question, memory) == Rag
    requires var e := Embed(Step(loader, env.load), question, env.encode);
      e.Ok? && SearchChunks(env.store, e.value, topK) == Fail(m)
    ensures var t := Respond(env, loader, memory, question, topK, pick);
      && t.result == AnswerResult(false, question, "Error: " + m, [])
      && t.memory == memory && t.requests == []
  {
  }

  /** Without a usable previous answer a follow-up question goes through retrieval like any
      other question. */
  lemma {:induction false} FollowUpWithoutPreviousSearches(env: Env, loader: LoaderState, memory: Option<Turn>, question: string,
                                        topK: int, pick: nat)
    requires pick < |GreetingReplies|
    requires !IsGreeting(question) && !HasPrevious(memory)
    ensures Respond(env, loader, memory, question, topK, pick).retrievalRoute
  {
  }

  /** When the search returns no chunks the fixed answer is given and no chat request is
      sent. */
  lemma {:induction false} EmptyRetrievalAnswersFixedText(env: Env, loader: LoaderState, memory: Option<Turn>, question: string,
                                       topK: int, pick: nat)
    requires pick < |GreetingReplies|
    requires RouteOf(question, memory) == Rag
    requires var e := Embed(Step(loader, env.load), question, env.encode);
      e.Ok? && SearchChunks(env.store, e.value, topK) == Ok([])
    ensures var t := Respond(env, loader, memory, question, topK, pick);
      t.result == AnswerResult(true, question, NoInfoAnswer, []) && t.requests == []
  {
  }

  /** When chunks are found the reply is the chat providers' answer and the chunks are
      returned with it; if every provider fails the turn fails with the exhausted message. */
  lemma {:induction false} RetrievalAnswersWithChunks(env: Env, loader: LoaderState, memory: Option<Turn>, question: string,
                                   topK: int, pick: nat, chunks: seq<Chunk>)
    requires pick < |GreetingReplies|
    requires RouteOf(question, memory) == Rag
    requires var e := Embed(Step(loader, env.load), question, env.encode);
      e.Ok? && SearchChunks(env.store, e.value, topK) == Ok(chunks)
    requires chunks != []
    ensures var t := Respond(env, loader, memory, question, topK, pick);
      var run := CallChatApi(env.cfg, env.transport, question, chunks);
      && t.requests == run.requests
      && (run.result.Ok? ==> t.result == AnswerResult(true, question, run.result.value, chunks))
      && (run.result.Fail? ==>
            t.result == AnswerResult(false, question, "Error: " + RagExhausted, []) && t.memory == memory)
  {
  }

  /** After a greeting, a follow-up question is answered from the greeting reply. */
  lemma {:induction false} FollowUpAfterGreeting(env: Env, loader: LoaderState, memory: Option<Turn>, greeting: string, question: string,
                              topK: int, pick: nat, pick2: nat)
    requires pick < |GreetingReplies| && pick2 < |GreetingReplies|
    requires IsGreeting(greeting) && !IsGreeting(question) && IsFollowUp(question)
    ensures var first := Respond(env, loader, memory, greeting, topK, pick);
      RouteOf(question, first.memory) == FollowUp(GreetingReplies[pick])
  {
    GreetingWins(env, loader, memory, greeting, topK, pick);
    GreetingRepliesNonEmpty(pick);
  }

  /** "hello, explain" is also a follow-up question, but it is routed as a greeting
      whatever the memory holds. */
  lemma {:induction false} GreetingShadowsFollowUpExample(q: string, memory: Option<Turn>)
    requires q == "hello, explain"
    ensures IsFollowUp(q) && RouteOf(q, memory) == Greet
  {
    HelloExplainIsGreeting(q);
    HelloExplainIsFollowUp(q);
  }

  /** The module-level state of the backend: the memory slot and the embedding loader. */
  class ChatBot {
    var memory: Option<Turn>
    const embedder: Embedder

    constructor (e: Embedder)
      ensures memory == None && embedder == e
    {
      memory := None;
      embedder := e;
    }

    /** `answer_structured`, step by step. */
    method AnswerStructured(env: Env, question: string, topK: int, pick: nat) returns (r: AnswerResult)
      requires pick < |GreetingReplies| && embedder.Valid()
      modifies this, embedder
      ensures embedder.Valid()
      ensures var t := Respond(env, old(embedder.state), old(memory), question, topK, pick);
        r == t.result && memory == t.memory && embedder.state == t.loader
    {
      var isFollow := IsFollowUp(question);
      var prev := if memory.Some? then Some(memory.value.answer) else None;
      ghost var route := RouteOf(question, memory);

      if IsGreeting(question) {
        var reply := GreetingReplies[pick];
        memory := Some(Turn(question, reply));
        return AnswerResult(true, question, reply, []);
      }

      var answer: Outcome<string>;
      var retrieved: seq<Chunk> := [];
      if isFollow && prev.Some? && prev.value != "" {
        assert route == FollowUp(prev.value);
        answer := CallChatApiFollowUp(env.cfg, env.transport, prev.value, question).result;
      } else {
        assert route == Rag;
        answer, retrieved := Retrieve(env, question, topK);
      }

      if answer.Ok? {
        memory := Some(Turn(question, answer.value));
        r := AnswerResult(true, question, answer.value, retrieved);
      } else {
        r := AnswerResult(false, question, "Error: " + answer.msg, []);
      }
    }

    /** The retrieval path: embed the question, search, and answer from the chunks. */
    method Retrieve(env: Env, question: string, topK: int) returns (answer: Outcome<string>, retrieved: seq<Chunk>)
      requires embedder.Valid()
      modifies embedder
      ensures embedder.Valid() && embedder.state == Step(old(embedder.state), env.load)
      ensures var e := Embed(embedder.state, question, env.encode);
        && (e.Fail? ==> answer == Fail(e.msg) && retrieved == [])
        && (e.Ok? ==> var (a, chunks, _) := RagAnswer(env, question, e.value, topK); answer == a && retrieved == chunks)
    {
      retrieved := [];
      var emb := embedder.EmbedText(question, env.load, env.encode);
      if emb.Fail? {
        answer := Fail(emb.msg);
      } else {
        var found := SearchQdrant(env.store, emb.value, topK);
        if found.Fail? {
          answer := Fail(found.msg);
        } else {
          retrieved := found.value;
          if retrieved == [] {
            answer := Ok(NoInfoAnswer);
          } else {
            answer := CallChatApi(env.cfg, env.transport, question, retrieved).result;
          }
        }
      }
    }

    /** `answer`: the answer text of a turn. */
    method Answer(env: Env, question: string, topK: int, pick: nat) returns (a: string)
      requires pick < |GreetingReplies| && embedder.Valid()
      modifies this, embedder
      ensures embedder.Valid()
      ensures a == Respond(env, old(embedder.state), old(memory), question, topK, pick).result.answer
    {
      var r := AnswerStructured(env, question, topK, pick);
      a := r.answer;
    }
  }
}
