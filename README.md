# QuotePlan assistant — a Dafny model of its core

The QuotePlan assistant answers questions about the QuotePlan manual.

- **Backend (`query_bot_lite.py`).** A Python backend decides how to answer each question:
  - It answers greetings itself, from three fixed replies.
  - It answers follow-up requests ("short", "explain", "aur batao", …) from the previous answer alone.
  - It answers every other question by retrieval: it embeds the question with a lazily loaded sentence-embedding model, searches a Qdrant collection, and asks a chat provider to answer from the retrieved chunks. OpenAI comes first and OpenRouter is the fallback.
  - A single memory slot keeps the last question and answer. Any exception becomes a failed answer record.
- **Server (`app_lite.py`).** A small Flask server validates the request, runs the backend with a 15-second limit and normalises its result.
- **Browser widget (`script.js`).** The widget escapes and formats messages, types bot text character by character, lets the window be dragged inside the viewport, and counts the user's messages.

This project models that core in Dafny and proves what it promises. The modules are:

| module | file | what it models |
|---|---|---|
| `Wrappers` | wrappers.dfy | `Option` and `Outcome` (a value or a raised error) |
| `Text` | text.dfy | Python's `lower`, `strip`, `in`, `join` and `str(int)` on strings |
| `Intent` | intent.dfy | `_is_follow_up`, `_is_greeting` and their keyword sets |
| `Embedding` | embedding.dfy | the `_embedding_model` slot (unloaded / model / failed), `get_embedding_model`, `embed_text` |
| `VectorSearch` | vector_search.dfy | `_qdrant_search_flexible` (three call conventions in order), `search_qdrant` |
| `ChatClient` | chat_client.dfy | prompt building, the OpenAI → OpenRouter chain, reply-content normalisation |
| `Orchestrator` | orchestrator.dfy | `answer_structured` and `answer` over the memory slot (class `ChatBot`) |
| `Server` | server.dfy | `api()` for POST and `fallback_response` |
| `Formatting` | formatting.dfy | `escapeHtml` and `formatMessage` |
| `Widget` | widget.dfy | the typing loop, the delay rule, the drag clamp and handlers, `addMessage` / `sendMessage` |

Everything outside the program is a parameter of the model:

- loading the embedding model and the encoder;
- the three Qdrant client methods;
- the HTTP exchange with a chat provider;
- the environment's keys;
- the random choice of greeting reply;
- the worker thread's completion;
- the browser's geometry and the fetch result.

Each of these is an input value or a function-typed oracle. Functions that call such oracles also return a trace, so that "is not called" can be stated. Examples of traces are the conventions tried and the chat requests sent.

## Model

| member | source | states |
|---|---|---|
| Text.Lower | backend/query_bot_lite.py:52 | `lower()` keeps the length and lower-cases each character independently (ASCII letters). |
| Text.LowerAppend | backend/query_bot_lite.py:52 | Lower-casing distributes over concatenation. |
| Text.Strip | backend/query_bot_lite.py:62 | The stripped text has no whitespace at either end, and the input is that text with only whitespace before and after it. |
| Text.StripUnique | backend/query_bot_lite.py:62 | Any whitespace-free core padded only by whitespace is what `strip()` returns, so the contract determines `strip`. |
| Text.StripEmpty | backend/app_lite.py:65-67 | `strip()` gives the empty string exactly for whitespace-only input. |
| Text.StripPadded | backend/query_bot_lite.py:62 | Whitespace added around a string does not change its stripped form. |
| Text.StripTrimmed | backend/app_lite.py:65 | Whitespace around text with no whitespace at its ends is exactly what `strip()` removes. |
| Text.ContainsExtend | backend/query_bot_lite.py:53 | A substring stays a substring when text is added on either side. |
| Text.JoinSnoc | backend/query_bot_lite.py:354 | Joining one more part appends the separator and that part. |
| Text.JoinContainsPart | backend/query_bot_lite.py:354 | Every part occurs in full in the joined string. |
| Text.NatToString | backend/query_bot_lite.py:354 | `str(n)` is a non-empty digit string without a leading zero. |
| Text.DecimalRoundTrip | backend/query_bot_lite.py:354 | Reading back the digits of `str(n)` gives `n`. |
| Intent.IsFollowUp | backend/query_bot_lite.py:50-53 | `_is_follow_up(q)` holds iff some follow-up keyword occurs anywhere in the lower-cased `q`, even inside a longer word. |
| Intent.AnyContainedIff | backend/query_bot_lite.py:50-53 | `any(kw in s for kw in kws)` holds iff some keyword is a substring. |
| Intent.AnyContainedExtend | backend/query_bot_lite.py:50-53 | Extending the text on either side keeps a contained keyword. |
| Intent.FollowUpMonotone | backend/query_bot_lite.py:50-53 | If `q` is a follow-up, so are `q + s` and `s + q`. |
| Intent.FollowUpAt | backend/query_bot_lite.py:32-53 | A lower-case question with a keyword at some index is a follow-up. |
| Intent.FollowUpSummaryExample | backend/query_bot_lite.py:34 | "can you give a short summary" is a follow-up. |
| Intent.FollowUpYearExample | backend/query_bot_lite.py:38 | "what happened last year" is a follow-up, because the keyword "ye" occurs inside "year". |
| Intent.GreetingMatchIsOpening | backend/query_bot_lite.py:66 | The four-way test equals "the keyword is a prefix that ends the text or is followed by a space, `!` or `,`" (both directions). |
| Intent.AnyGreetingMatchIff | backend/query_bot_lite.py:65-68 | The loop returns true iff some keyword opens the text in that sense. |
| Intent.IsGreeting | backend/query_bot_lite.py:61-68 | `_is_greeting(q)` holds iff the stripped, lower-cased `q` opens with a greeting keyword that ends the text or is followed by a space, `!` or `,` (both directions). The empty-text guard never changes the answer. |
| Intent.BlankIsNoGreeting | backend/query_bot_lite.py:62-64 | Empty and whitespace-only questions are not greetings. |
| Intent.GreetingIgnoresPadding | backend/query_bot_lite.py:62 | Surrounding whitespace does not change whether a question is a greeting. |
| Intent.OpenerMatches | backend/query_bot_lite.py:62-66 | Text starting with a keyword and a delimiter still matches the keyword after stripping. |
| Intent.GreetingOpener | backend/query_bot_lite.py:56-68 | A question whose lower-cased text starts with a greeting keyword and a space, `!` or `,` is a greeting, whatever follows. |
| Intent.NoGreetingInitial | backend/query_bot_lite.py:56-68 | A normalised question starting with neither `h` nor `g` is no greeting. |
| Intent.GreetingHelloExample | backend/query_bot_lite.py:61-68 | "Hello there" is a greeting. |
| Intent.GreetingCommaExample | backend/query_bot_lite.py:61-68 | "Hello, how do I reset a password" is a greeting. |
| Intent.NoGreetingInsideExample | backend/query_bot_lite.py:61-68 | "Tell me about hello world" is not a greeting. |
| Intent.NoGreetingWordStartExample | backend/query_bot_lite.py:61-68 | "history" is not a greeting, although it starts with "hi". |
| Intent.HiWordNoGreeting | backend/query_bot_lite.py:61-68 | A question whose normalised form opens with "hi" followed by anything but a space, `!` or `,` (as in "history" or "hi.") is not a greeting. |
| Intent.HelloExplainIsGreeting | backend/query_bot_lite.py:61-68 | "hello, explain" is a greeting. |
| Intent.HelloExplainIsFollowUp | backend/query_bot_lite.py:32-53 | "hello, explain" is also a follow-up. |
| Embedding.Step | backend/query_bot_lite.py:252-267 | A loader call leaves the slot settled, and a loaded or failed slot never changes. From an unloaded slot, a successful load makes that model available and a failed one leaves none. |
| Embedding.Available | backend/query_bot_lite.py:267 | The loader returns a model exactly when one is loaded (`False` reads as `None`). |
| Embedding.SettledStaysSettled | backend/query_bot_lite.py:255-266 | After any attempt, further calls never load again; a failure is never retried. |
| Embedding.FirstLoadDecides | backend/query_bot_lite.py:255-266 | Only the first call's load outcome matters. A successful first load keeps its model available through every later call, and a failed one leaves the slot failed. |
| Embedding.Zeros | backend/query_bot_lite.py:281 | `[0.0] * n` has length `n` and only zeros. |
| Embedding.Embed | backend/query_bot_lite.py:270-281 | With a model the encoder's result is returned; without one, exactly 384 zeros and no error. |
| Embedding.FallbackAfterFailure | backend/query_bot_lite.py:248-281 | After a failed first load every later embedding is the 384-zero vector. |
| Embedding.Embedder.constructor | backend/query_bot_lite.py:248 | The slot starts unloaded. |
| Embedding.Embedder.GetModel | backend/query_bot_lite.py:252-267 | The slot moves by `Step`, at most one load is ever attempted, and the result is the available model. |
| Embedding.Embedder.EmbedText | backend/query_bot_lite.py:270-281 | Updates the slot as `get_embedding_model` does and returns `Embed` of the new state. |
| Embedding.EmbedTwice | backend/query_bot_lite.py:252-281 | After a failed load, a second call returns zeros even if loading would now succeed. |
| VectorSearch.Attempt | backend/query_bot_lite.py:284-320 | Each convention fails exactly when its client method raises. `search` and `search_points` give their hits as they are. `query_points` gives the response's `.points` when it has them and the response itself otherwise. |
| VectorSearch.SearchFlexible | backend/query_bot_lite.py:284-324 | The conventions are tried in the order search, search_points, query_points, and every one tried before the last raised. A success returns the last one's hits. The call fails, with the fixed message, iff all three raise. |
| VectorSearch.PreferredConventionFirst | backend/query_bot_lite.py:287-294 | When `search` works, nothing else is called and its hits are used. |
| VectorSearch.QueryPointsEitherShape | backend/query_bot_lite.py:311-320 | A `query_points` response with `.points` and a bare list of hits give the same records. |
| VectorSearch.HitText | backend/query_bot_lite.py:345-347 | The text is the payload's `"text"` field, and is absent iff the payload is missing or has no such field. |
| VectorSearch.ToChunk | backend/query_bot_lite.py:331-348 | A record keeps the hit's id and score and takes its text from the payload. |
| VectorSearch.Normalize | backend/query_bot_lite.py:330-349 | One record per hit, in hit order. |
| VectorSearch.NormalizeAppend | backend/query_bot_lite.py:330-349 | Normalisation commutes with concatenation, so order is kept. |
| VectorSearch.SearchChunks | backend/query_bot_lite.py:327-349 | `search_qdrant` succeeds iff some convention works. It then gives one record per hit, in hit order, each the hit's normalised record. Its only error is the fixed "unable to call" message. |
| VectorSearch.SearchQdrant | backend/query_bot_lite.py:327-349 | The appending loop yields exactly the normalised hits of the first working convention, one per hit, or the error. |
| ChatClient.NormalizeContent | backend/query_bot_lite.py:401-405 | A dict reply is serialised, a string reply is stripped, and any other value raises. |
| ChatClient.NormalizeTextIdempotent | backend/query_bot_lite.py:405 | Normalising an already normalised string reply changes nothing. |
| ChatClient.OpenAIRequest | backend/query_bot_lite.py:384-397 | The OpenAI body uses model `gpt-4o-mini`, the messages as given, 800 tokens and temperature 0. |
| ChatClient.OpenRouterRequest | backend/query_bot_lite.py:408-421 | The OpenRouter body uses the configured fallback model and otherwise the same fields. |
| ChatClient.Call | backend/query_bot_lite.py:384-429 | One provider call. An HTTP error or timeout raises with its message. A reply succeeds iff its content is a string, returned stripped, or an object, returned serialised. Any other content raises. |
| ChatClient.Complete | backend/query_bot_lite.py:361-381 | OpenAI is asked first, always when its key is set and never otherwise. OpenRouter is asked, as the last request, exactly when its key is set and OpenAI was skipped or failed. At most two requests are sent, to different providers (no retry), all with the same messages. Every request before the last one failed. The first success is returned as it is. The call fails, with the given message, iff every provider whose key is set fails. |
| ChatClient.NoKeysNoRequests | backend/query_bot_lite.py:361-381 | With neither key set, no request is sent and the chain fails. |
| ChatClient.CallChatApi | backend/query_bot_lite.py:352-381 | Every request carries the RAG prompt. At most two are sent, OpenAI first when its key is set. A success is the last provider's reply. A failure carries the RAG "exhausted" message. |
| ChatClient.CallChatApiFollowUp | backend/query_bot_lite.py:432-459 | The same, with the follow-up prompt and the follow-up "exhausted" message. |
| ChatClient.ContextText | backend/query_bot_lite.py:354 | No chunks give an empty context. One chunk gives its `[1]` line alone. Otherwise the context opens with the first chunk's line. |
| ChatClient.ChunkLines | backend/query_bot_lite.py:354 | One line per chunk, line `i` being `[i+1] text`. |
| ChatClient.ChunkLabelRoundTrip | backend/query_bot_lite.py:354 | The digits between `[` and `]` of line `i` read back as `i + 1`. |
| ChatClient.ContextHasEveryChunk | backend/query_bot_lite.py:354 | Every chunk's numbered line occurs in the context. |
| ChatClient.ContextSnoc | backend/query_bot_lite.py:354 | One more chunk appends the separator `\n\n---\n\n` and its line. |
| ChatClient.RagMessages | backend/query_bot_lite.py:356-359 | One system message, then one user message: `CONTEXT:\n` + context + `\n\nQuestion: ` + question. |
| ChatClient.FollowUpMessages | backend/query_bot_lite.py:434-441 | One system message, then one user message made of the fixed preamble, the previous answer and the question. |
| ChatClient.RagPromptCarriesQuestionAndChunks | backend/query_bot_lite.py:352-359 | The user message contains the question and every chunk's line. |
| ChatClient.FollowUpPromptCarriesPrevious | backend/query_bot_lite.py:432-441 | The follow-up user message contains the previous answer and the question. |
| Orchestrator.RouteOf | backend/query_bot_lite.py:466-494 | Greeting iff `_is_greeting`. Follow-up iff not a greeting, `is_follow`, and a non-empty previous answer, which it carries. Retrieval otherwise. |
| Orchestrator.Conclude | backend/query_bot_lite.py:511-531 | The record is a success iff the answer was computed. A success returns the answer with the chunks and stores this turn. An exception returns `Error: ` plus its message, no chunks, and the memory as it was. |
| Orchestrator.RagAnswer | backend/query_bot_lite.py:495-509 | The chunks returned are exactly those found. A failed search is its error and no provider is asked. An empty search gives the fixed answer and no provider is asked. Otherwise the provider chain answers over the chunks found, and its failure is the "exhausted" error. |
| Orchestrator.Respond | backend/query_bot_lite.py:462-531 | The result echoes the question. Success stores exactly this turn in memory. Failure leaves memory unchanged, returns no chunks and an answer beginning `Error: `. The turn takes the retrieval path iff the routing says so. Only that path touches the embedding slot, by one loader step. |
| Orchestrator.GreetingWins | backend/query_bot_lite.py:471-486 | A greeting gets the picked one of the three replies, which is stored in memory, and no chunks. There is no search and no chat request, even with follow-up keywords. |
| Orchestrator.FollowUpUsesPrevious | backend/query_bot_lite.py:488-493 | A follow-up with a previous answer searches nothing and sends only the follow-up prompt built from that answer. It returns exactly the chain's requests. A success is the chain's reply, stored with the question in memory. A failure is `Error: ` plus the follow-up "exhausted" message, with memory kept. |
| Orchestrator.EmbedFailureIsError | backend/query_bot_lite.py:495-498 | On the retrieval path an encoder error becomes the failed record `Error: ` + message. It has no chunks, memory is kept, and no chat request is sent. |
| Orchestrator.SearchFailureIsError | backend/query_bot_lite.py:500-502 | On the retrieval path a search error, including "unable to call", becomes the failed record `Error: ` + message. It has no chunks, memory is kept, and no chat request is sent. |
| Orchestrator.FollowUpWithoutPreviousSearches | backend/query_bot_lite.py:488-502 | Without a usable previous answer, a non-greeting goes through retrieval. |
| Orchestrator.EmptyRetrievalAnswersFixedText | backend/query_bot_lite.py:504-505 | No chunks gives exactly "I don't have this information in the QuotePlan manual." and no chat request. |
| Orchestrator.RetrievalAnswersWithChunks | backend/query_bot_lite.py:506-523 | With chunks, the answer is the chain's answer returned with the chunks. If every provider fails, the turn fails with the answer `Error: ` plus the exhausted message and no chunks, and memory is kept. |
| Orchestrator.FollowUpAfterGreeting | backend/query_bot_lite.py:477-492 | After a greeting, a follow-up is answered from the greeting reply. |
| Orchestrator.GreetingShadowsFollowUpExample | backend/query_bot_lite.py:466-488 | "hello, explain" is a follow-up yet routed as a greeting, whatever the memory holds. |
| Orchestrator.ChatBot.constructor | backend/query_bot_lite.py:29 | The memory starts empty. |
| Orchestrator.ChatBot.AnswerStructured | backend/query_bot_lite.py:462-531 | Step by step, returns exactly `Respond`'s record and leaves memory and the embedding slot as `Respond` says. |
| Orchestrator.ChatBot.Retrieve | backend/query_bot_lite.py:495-509 | The embedding slot moves by one loader step. An embedding error is the answer's error with no chunks. Otherwise the answer and chunks are those of `RagAnswer` for the embedded question. |
| Orchestrator.ChatBot.Answer | backend/query_bot_lite.py:534-537 | Returns the answer text of that record. |
| Server.Get | backend/app_lite.py:65 | `dict.get(key, default)`. |
| Server.FallbackResponse | backend/app_lite.py:33-45 | The record has exactly the keys success, answer, short, steps and follow_up. `success` is false, answer and short are the generic text, steps is `[]` and follow_up is `null`. |
| Server.FallbackIgnoresQuestion | backend/app_lite.py:33-45 | The fallback record does not depend on the question. |
| Server.ErrorBody | backend/app_lite.py:106-112 | The outer error bodies (and the blank-question body at line 68) have the single key `error` holding the message, and no `success` field. |
| Server.Truncate | backend/app_lite.py:75 | `int(x)` of a float rounds toward zero. |
| Server.ParseInt | backend/app_lite.py:75 | `int(s)` succeeds only when the stripped text is a sign or digit followed by digits, with at least one digit after a sign. The value is negative only after a minus sign. |
| Server.ParseIntSigned | backend/app_lite.py:75 | Any non-empty run of ASCII digits between whitespace, with an optional sign and leading zeros allowed, is read as its decimal value, negated after `-`. |
| Server.DecimalLeadingZero | backend/app_lite.py:75 | Leading zeros do not change a numeral's value, so `int("007") == 7`. |
| Server.ParseIntRejectsInnerChar | backend/app_lite.py:75 | A non-digit between two numbers makes `int()` raise. |
| Server.ParseIntRoundTrip | backend/app_lite.py:75 | `int(str(n)) == n`. |
| Server.ToInt | backend/app_lite.py:75 | Integers pass unchanged, booleans become 1/0, floats are truncated toward zero, strings are parsed by `int(s)`, and null, lists and objects raise. |
| Server.QuestionOf | backend/app_lite.py:64-65 | Succeeds iff the body is an object whose `question` (default `""`) is a string, giving it stripped. |
| Server.NormalizeOutput | backend/app_lite.py:83-90 | Non-objects pass unchanged. `retrieved` is removed and every other key and value is kept. An existing `error` is never overwritten. A failure without one gains the truthy answer or `Unknown error`. A missing `success` counts as true. |
| Server.NormalizeIdempotent | backend/app_lite.py:83-90 | Normalising twice is normalising once. |
| Server.Api | backend/app_lite.py:57-112 | A submission happens exactly for a non-empty stripped question whose `top_k` `int()` accepts, with `verbose` off and that `top_k`. Without a submission the status is 400 or 500. A completed run is answered 200 with the normalised record, a timed-out one 200 with the fallback record, and a raised one 500 with `success` false and `Server error: …`. |
| Server.EmptyQuestionRejected | backend/app_lite.py:65-68 | A blank question gets 400 `Question is required` and nothing is submitted. |
| Server.DefaultTopKSubmitted | backend/app_lite.py:72-77 | Without `top_k`, the stripped question is submitted with 5 and verbose false. |
| Server.TopKSubmitted | backend/app_lite.py:64-77 | A non-blank question is submitted stripped, with whatever limit `int(top_k)` gives. |
| Server.TextTopKSubmitted | backend/app_lite.py:72-77 | A `top_k` sent as padded signed digits, leading zeros allowed, is submitted as their value. |
| Server.BadTopKRejected | backend/app_lite.py:75-112 | A `top_k` that `int()` rejects ends the request with 500 and nothing is submitted. |
| Server.TimeoutSendsFallback | backend/app_lite.py:96-101 | For any body whose `top_k` converts, a timed-out run sends the fallback record with status 200. |
| Server.ChunkJson | backend/query_bot_lite.py:348 | A retrieved record has exactly the keys `id`, `text` and `score`, and a missing value becomes `null`. |
| Server.ResultJson | backend/query_bot_lite.py:481-531 | The dict `answer_structured` returns has exactly the keys success, question, answer and retrieved. `retrieved` holds one record per chunk, in order. |
| Server.NormalizedResult | backend/app_lite.py:83-90 | A normalised result has success, question and answer, plus for a failure an `error` equal to the answer, and never the chunks. |
| Server.ServedTurn | backend/app_lite.py:81-94 | For any turn of `answer_structured`, the client never receives the chunks, and a failure always carries `error` equal to its `Error: …` answer. |
| Formatting.EscapeHtml | frontend/script.js:52-64 | The output is at least as long and has no raw `<`, `>`, `"` or `'`. Text without special characters is unchanged. |
| Formatting.EscapeAppend | frontend/script.js:52-64 | Escaping distributes over concatenation. |
| Formatting.UnescapeStep | frontend/script.js:56-62 | Each of the five entities decodes to the character it replaced. |
| Formatting.EscapeRoundTrip | frontend/script.js:52-64 | Decoding the entities of escaped text gives the original back. |
| Formatting.FindClose | frontend/script.js:68-69 | The lazy `(.+?)` stops at the first closing marker with no line terminator before it. When it finds none, no closing marker is reachable without crossing a line terminator. |
| Formatting.Breaks | frontend/script.js:70 | No line feed is left, and text without one is unchanged. |
| Formatting.BreaksAppend | frontend/script.js:70 | The line-break step distributes over concatenation. |
| Formatting.FormatMessage | frontend/script.js:66-71 | The formatted message contains no line feed. |
| Formatting.ReplaceWithoutMarker | frontend/script.js:68-69 | Without the marker character, the replacement copies the text. |
| Formatting.Bold | frontend/script.js:68 | The bold step leaves text without `*` unchanged. |
| Formatting.Italic | frontend/script.js:69 | The italic step leaves text without `_` unchanged. |
| Formatting.EscapeKeeps | frontend/script.js:52-64 | Escaping introduces no `*`, `_` or line feed. |
| Formatting.PlainTextOnlyEscaped | frontend/script.js:66-71 | Text without `*`, `_` and line feeds is only escaped. |
| Formatting.SpanReplaced | frontend/script.js:68-69 | `DD x DD` with non-empty, single-line `x` free of the marker becomes open tag + `x` + close tag. |
| Formatting.ClosesAt | frontend/script.js:68-69 | The lazy search ends at the first closing marker. |
| Formatting.BoldSpan | frontend/script.js:66-71 | `formatMessage("**x**")` is `<strong>x</strong>` for plain single-line `x`. |
| Formatting.CopyTag | frontend/script.js:68-69 | A tag in the text passes through the marker replacement unchanged. |
| Formatting.MatchUnfold | frontend/script.js:68-69 | A match yields open tag, enclosed text and close tag, and the scan resumes after the closing marker. |
| Formatting.ReplaceKeepsTags | frontend/script.js:68-69 | Replacing marker pairs by allowed tags keeps every `<` at the start of an allowed tag. |
| Formatting.BreaksKeepTags | frontend/script.js:70 | Turning line feeds into `<br>` keeps every `<` at the start of an allowed tag. |
| Formatting.FormatMessageOnlyTags | frontend/script.js:66-71 | Every `<` in `formatMessage`'s output starts `<strong>`, `</strong>`, `<em>`, `</em>` or `<br>`. |
| Widget.Delay | frontend/script.js:102 | The pause lies between half and twice the speed, and is the speed for any character other than space, `.`, `!`, `?`. |
| Widget.DelayOrder | frontend/script.js:127 | A space is quicker and `.`/`!`/`?` four times slower than a space, with other characters in between. |
| Widget.Delays | frontend/script.js:100-103 | One pause per character. |
| Widget.DelayAfterEach | frontend/script.js:100-103 | The `k`-th pause is the delay of the `k`-th character. |
| Widget.TotalDelayBounds | frontend/script.js:100-103 | A whole animation waits between half and twice the nominal time. |
| Widget.Typewriter.constructor | frontend/script.js:88-89 | Index 0 and empty typed text. |
| Widget.Typewriter.TypeChar | frontend/script.js:91-109 | While characters remain: exactly one more character is typed, the element shows the formatted prefix plus the cursor, and the pause is that character's delay. Once all is typed: the element shows `formatMessage(text)` with no cursor and typing stops. After `k` ticks the typed text is the text's first `k` characters. |
| Widget.Frames | frontend/script.js:96 | One frame per typed character. |
| Widget.FramesStep | frontend/script.js:94-97 | A tick adds the frame of one more character. |
| Widget.FrameShowsPrefix | frontend/script.js:96 | Frame `k` is the first `k + 1` characters formatted, plus the cursor. |
| Widget.TypeText | frontend/script.js:87-112 | A run shows one frame per character, with the pauses of the delay rule, waits their sum, and ends on `formatMessage(text)`. |
| Widget.Clamp | frontend/script.js:406-410 | The result is ≥ 0, ≤ `viewport - size` when that is ≥ 0, and equal to the input when it fits. Below 0 it is 0, above a non-negative `viewport - size` it is that bound, and it is 0 whenever the window is wider than the viewport. |
| Widget.ClampIdempotent | frontend/script.js:409-410 | Clamping twice is clamping once. |
| Widget.DragFollowsMouse | frontend/script.js:399-410 | Where there is room, the window moves by exactly the mouse's displacement. |
| Widget.DragBackToStart | frontend/script.js:399-410 | Returning the mouse to its start puts an in-bounds window back where it was. |
| Widget.DragController.constructor | frontend/script.js:376-380 | Not dragging, with the start values 0. |
| Widget.DragController.Begin | frontend/script.js:384-391 | Records the mouse and the window position and starts dragging. |
| Widget.DragController.Follow | frontend/script.js:398-414 | Places the window at the clamped position (≥ 0, within the viewport when it fits) and sets right/bottom to auto. |
| Widget.DragController.MouseDown | frontend/script.js:382-396 | Only the main button starts a drag; any other button changes nothing. |
| Widget.DragController.MouseMove | frontend/script.js:397-415 | Ignored unless dragging; otherwise the window moves to the clamped position. |
| Widget.DragController.End | frontend/script.js:416-423 | Dragging stops and the window stays where it is. |
| Widget.DragController.TouchStart | frontend/script.js:427-439 | Only a single touch starts a drag. |
| Widget.DragController.TouchMove | frontend/script.js:440-455 | Ignored unless dragging with exactly one touch. Otherwise it acts as a mouse move: the clamped position from the start plus the displacement, with the drag origin and the start position kept for the next move. |
| Widget.ReplyBubble | frontend/script.js:238-246 | A reply ends in the structured bubble exactly when it is a successful body. Otherwise it ends in a bot bubble with a non-empty text, the connection message after an exception or an error status. |
| Widget.FailureText | frontend/script.js:238-246 | The shown text is `error` if truthy, else `answer` if truthy, else the fixed retry text. After an exception or an error status it is the connection message. It is never empty. |
| Widget.Conversation.constructor | frontend/script.js:16 | Count 0, with the greeting and quick prompts shown. |
| Widget.Conversation.AddMessage | frontend/script.js:142-182 | The count grows by one exactly for a user message. The greeting and prompts are removed exactly by a bot message while the count is 0. A bubble with the message is appended; it shows `formatMessage(text)` (`Html`). Nothing else changes. |
| Widget.Conversation.SendMessage | frontend/script.js:215-251 | A blank input changes nothing. Otherwise the trimmed question is shown first and counted, then the reply, and the greeting is left as it was. |
| Widget.Conversation.Submit | frontend/script.js:220-250 | One counted user message and one reply bubble. The input is cleared, loading is off and the button is enabled again. |
| Widget.GreetingSurvivesExchanges | frontend/script.js:142-251 | From a fresh page, any series of exchanges keeps the greeting and prompts, and the count equals the number of non-blank inputs. |

## Left out

- Text.Lower: lower-cases ASCII letters only. Python's `lower()` maps every Unicode upper-case letter, so non-ASCII keywords or questions may compare differently.
- Network I/O:
  - The HTTP requests to OpenAI and OpenRouter (headers, 60 s timeout, `raise_for_status`, reply parsing) are the `Transport` oracle.
  - `json.dumps` of a dict reply is carried as its text.
- Configuration: `load_dotenv` and `os.getenv` become `Config` fields. `SYSTEM_PROMPT` is the `systemPrompt` parameter; its wording is not modelled. The Qdrant host and collection name are not modelled.
- Unused values: `CHAT_MODEL_PRIMARY` is read but never used by `call_openai`, which always sends `gpt-4o-mini`; the model does the same. `last_question` is stored but never read.
- Logging and process concerns: `print` logging, `gc.collect`, the `verbose` flag (logging only) and the command-line block.
- `random.choice` of the greeting reply is the `pick` index parameter.
- Embedding: the SentenceTransformer and its `encode` are the `load` outcome and the `encode` oracle.
  - A loaded model is taken to be truthy in `if model:`.
  - Float vector maths is not modelled beyond the 384 zeros.
- VectorSearch.ToChunk: treats each hit field as present or absent. The source reads `getattr(...) or hit.get(...)`, so a falsy id or a score of `0.0` falls through to `hit.get` and usually ends as `None`. Ids are modelled as strings.
- VectorSearch.Attempt: the client methods are oracles, so the model does not bound the number of hits by `top_k`.
- Flask plumbing: routing, static files, CORS and the OPTIONS handler.
- Worker thread: the `ThreadPoolExecutor`, `future.cancel()` and the 15 s limit are not modelled. How the wait ends is the `Completion` input (finished, timed out, raised).
- Request body: how `request.get_json()` fails is the `Unreadable` input. It is a JSON decoding error, or any other exception.
- Server.ParseInt: accepts an optional sign and ASCII digits between whitespace. It does not model `int()`'s underscores or non-ASCII digits. The error text quotes the input without Python's `repr` escaping.
- Server.Truncate: reals have no NaN or infinity, for which `int()` raises.
- Browser concerns: DOM construction, CSS classes and styles, scrolling, focus, `setTimeout` scheduling, the clipboard, opening and closing the chat, and the quick-prompt buttons.
- Concurrency of animations: a typed bot message is recorded with the content its animation ends on (`formatMessage(text)`). Its intermediate frames are modelled by `Widget.TypeText`. Animations running concurrently with later messages are not modelled.
- `addStructuredResponse` is not part of this model. A successful reply appears as one `StructuredReply` bubble.
- Widget.Conversation.SendMessage: trims with Python's whitespace set. JavaScript's `trim()` also removes U+FEFF and keeps U+001C–U+001F and U+0085.
- Widget.DragController.MouseMove: registering and removing window listeners is not modelled. Neither are the `transition`, `cursor` and `userSelect` styles, or writing positions as `px` strings. The window and viewport sizes and the bounding rectangle are parameters.
- Widget.Delay: delays are exact reals, not IEEE doubles.
- Widget.TypeText: the typing loop steps through `text.length` and `text[currentIndex]`, which count UTF-16 code units. Widget.Typewriter.TypeChar, Widget.Delays and Widget.Frames step one Unicode scalar value per tick. So for a character outside the Basic Multilingual Plane, such as an emoji, the model takes one tick and one pause where the page takes two, and it never shows the frame that ends in a lone surrogate.
- Formatting.ReplacePairs: implements the two regular expressions directly rather than a regex engine. JavaScript strings are UTF-16 code units, while Dafny characters are Unicode scalar values, so surrogate pairs are not modelled. `String(text)` of a non-string is not modelled.
