# Spardose analysis: the streamed-frame pipeline and the recommendation panel

This project models two parts of the Spardose DeFi analysis tool.

The first part is the streaming path between the FastAPI server and three React panels:
- General Analysis, Position Analysis and Top Earning Analysis.
- The server encodes every model chunk as a `data: {"content": …}` line and an empty line.
- The shipped model service catches its own failures and yields `Error: <message>` as one more ordinary chunk. A failure therefore reaches the panel as text appended to what was streamed. The server's `data: {"error": …}` frame is sent only for a completion that raises, which the shipped service never does.
- Each panel reads the stream in reads, splits every read on `'\n'` and accumulates the truthy `content` values into `fullResponse`. A truthy `error` replaces the text and stops the rest of that read.

The second part is the Position Recommendations panel:
- its form and setters, submit validation and the query it sends;
- token-address lookup on the token table;
- the single expanded row;
- the analyze button's guard and payload;
- `formatResponse`, which turns the recommendation reply into a text report.

Modules, one per file:

- `wrappers.dfy` (`Wrappers`): `Option` and JavaScript `a || b` on optional strings.
- `strings.dfy` (`Strings`): these helpers:
  - JavaScript `split`, `startsWith` and `endsWith`;
  - the `trim()` blank test;
  - decimal printing of integers;
  - ASCII `toUpperCase`;
  - `repeat`.
- `json.dfy` (`Json`):
  - the frame objects Python's `json.dumps` writes, with `ensure_ascii` escaping as section 7 of RFC 8259 describes;
  - a reference reader for those two object shapes.
- `server.dfy` (`Server`):
  - the frame encoders and `generate()`;
  - the shipped model service's `complete_stream`, which turns every failure into a final `Error: ` chunk;
  - the request validation that runs before a route (an object body for `data: dict`, the chat route's `message` query parameter, a readable `stream` flag), and the 422 reply it gives;
  - the buffered `{"result"}`/`{"error"}` branch;
  - the `stream` query flag;
  - the route → prompt table.
- `stream.dfy` (`Stream`): the client's accumulation loop as a pure fold over reads. It also holds two methods with loops that compute the same fold.
- `roundtrip.dfy` (`RoundTrip`): encoder then fold. It covers:
  - whole responses, with or without an error;
  - responses cut at frame boundaries;
  - a frame cut across two reads.
- `ui.dfy` (`Ui`): a handler as the sequence of React state-setter calls it makes, folded into what the user sees.
- `panels.dfy` (`Panels`): one `handleSubmit` shared by the three streaming panels, instantiated with each panel's endpoint and failure prefix.
- `tokens.dfy` (`Tokens`): the token table and its two lookups.
- `format.dfy` (`Format`): `formatResponse`.
- `recommendations.dfy` (`Recommendations`): the rest of the recommendation panel.

Parameters stand in for code the model does not see:
- JSON parsing on the client is a function `decode: string -> Parsed`. The round-trip lemmas require only that it reads back what the encoder writes (`InvertsEncoder`). The cut-frame lemmas require only that it refuses every proper prefix and suffix of a content object (`RejectsCutObjects`), as `JSON.parse` does. `Json.FrameDecode` meets both.
- The language model is a function from input and prompt name to a `Completion`, meaning its chunks and possibly a raised message.
- Fetching is a function from the request to what it delivers.
- Number rendering and `JSON.stringify` are fields of `Format.Render`.

Two behaviours a reader might expect are not in the code, and the model follows the code:
- `formatResponse` reads only `positions`. There is no ranked reply shape and no `NO MATCHING POSITIONS FOUND` report.
- An `error` frame does not end the stream. The panels' loop only leaves the current read's lines, and later reads are still processed.

## Model

| member | source | states |
|---|---|---|
| `Stream.StepLine` | frontend/app/components/AnalysisInterface.tsx:75-90 | A line stops its read exactly when it is a `data: ` line whose payload decodes with a truthy `error`. The display is then that error. A line that is not a `data: ` line, fails to decode, or has neither field leaves the state unchanged. The accumulator grows by exactly the line's truthy content, which is published as the new running text. |
| `Stream.StepLineExtends` | frontend/app/components/AnalysisInterface.tsx:79-86 | One line only appends to the accumulator and to the list of published values, and the display is the last value published. |
| `Stream.RunLines` | frontend/app/components/AnalysisInterface.tsx:75-91 | The inner loop over a read's lines only extends the state. |
| `Stream.ProcessReads` | frontend/app/components/AnalysisInterface.tsx:68-92 | The outer loop over reads only extends the state, and the accumulator is never reset. |
| `Stream.AccumulateAppend` | frontend/app/components/AnalysisInterface.tsx:80-81 | Appending two runs of content one after the other is appending their concatenation. |
| `Stream.RunLinesNoError` | frontend/app/components/AnalysisInterface.tsx:75-91 | A read with no error line accumulates exactly the truthy contents of its lines, in order, and publishes every running prefix. |
| `Stream.ProcessReadsNoError` | frontend/app/components/AnalysisInterface.tsx:68-92 | Over a stream with no error line, the reads together accumulate the truthy contents of all their lines, in order. |
| `Stream.NoErrorStreamShowsConcatenation` | frontend/app/components/PositionAnalysis.tsx:42-52 | Without error frames, the final text is the in-order concatenation of the truthy contents. There is one update per content, and the k-th update is the concatenation of the first k contents. |
| `Stream.AccumulateFromStart` | frontend/app/components/TopEarningAnalysis.tsx:42-52 | From the empty start, accumulated contents give text and accumulator equal to their concatenation, and each update is the running prefix. |
| `Stream.InertLineInvisible` | frontend/app/components/AnalysisInterface.tsx:75-89 | Inserting a line anywhere in a read changes nothing when that line is not `data: `, fails to decode, or carries no truthy field. This covers the blank line between frames. |
| `Stream.ErrorLineEndsRead` | frontend/app/components/AnalysisInterface.tsx:83-86 | Lines after an error line in the same read are ignored. |
| `Stream.ErrorLineReplacesDisplay` | frontend/app/components/PositionAnalysis.tsx:53-56 | After an error line the display is exactly the error string, not appended to the text. The accumulator keeps all content up to and including that line. |
| `Stream.RunLinesErrorAfter` | frontend/app/components/AnalysisInterface.tsx:79-86 | The lines before an error line are accumulated as usual, then the error line acts on the result. |
| `Stream.ContentThenError` | frontend/app/components/AnalysisInterface.tsx:79-86 | A frame with both fields first appends and publishes its content, then shows its error and stops the read. |
| `Stream.ProcessReadsAppend` | frontend/app/components/AnalysisInterface.tsx:68-70 | Processing reads in two batches is processing them together, so an error in one read does not stop the next. |
| `Stream.ProcessReadsCons` | frontend/app/components/AnalysisInterface.tsx:68-73 | The first read is processed in full before the rest. |
| `Stream.RunLinesSnoc` | frontend/app/components/AnalysisInterface.tsx:75-91 | A line added at the end of a read is ignored after a stop, and otherwise acts on the state the earlier lines left. |
| `Stream.RunLinesStopped` | frontend/app/components/AnalysisInterface.tsx:83-86 | Once a read has stopped, no further line of it has an effect. |
| `Stream.ConsumeRead` | frontend/app/components/AnalysisInterface.tsx:72-91 | The loop over a read's lines, with its `break`, computes the fold for that read. |
| `Stream.ConsumeStream` | frontend/app/components/AnalysisInterface.tsx:65-92 | The whole read loop, starting from an empty `fullResponse`, computes the fold over all reads. |
| `Json.EscapeChar` | server/app/main.py:38 | An escaped character is printable ASCII, and it is left as itself exactly when it is printable ASCII other than `"` and `\`. |
| `Json.Escape` | server/app/main.py:38 | An escaped string consists of printable ASCII only. |
| `Json.ParseHex4RoundTrip` | server/app/main.py:38 | Reading back a four-digit lower-case `\u` escape gives its code unit. |
| `Json.FrameJsonHasNoNewline` | server/app/main.py:38-40 | Neither frame object contains a raw newline. |
| `Json.UnescapeEscapeChar` | server/app/main.py:38 | Reading back one escaped character gives that character. This holds for short escapes, `\u` escapes and surrogate pairs alike. |
| `Json.UnescapeEscape` | server/app/main.py:38 | Un-escaping an escaped string gives the string back. |
| `Json.FrameDecode` | frontend/app/components/AnalysisInterface.tsx:78 | The reference reader accepts only the two one-key frame objects and reports exactly one of the two fields. |
| `Json.FrameDecodeRoundTrip` | frontend/app/components/AnalysisInterface.tsx:78-84 | The reference reader gives back the chunk of a content object and the message of an error object. |
| `Json.QuotesEscaped` | server/app/main.py:38 | Every `"` in escaped text directly follows a `\`. |
| `Json.CutBeforeQuote` | server/app/main.py:38 | Escaped text cut just before one of its `"` does not read back. |
| `Json.ContentPrefixMalformed` | server/app/main.py:38 | No proper prefix of a content object reads as a frame object. |
| `Json.ContentSuffixMalformed` | server/app/main.py:38 | No proper suffix of a content object reads as a frame object. |
| `Server.ContentFrame` | server/app/main.py:38 | A content frame starts with `data: `, ends with an empty line, and has no other newline. |
| `Server.ErrorFrame` | server/app/main.py:40 | An error frame has the same shape as a content frame. |
| `Server.ContentFrames` | server/app/main.py:37-38 | One content frame per chunk, in order. |
| `Server.Generate` | server/app/main.py:35-40 | `generate()` yields the content frames of the chunks, then one error frame exactly when the completion raised. |
| `Server.Yielded` | server/app/core/ai/llm.py:88-90 | The service yields exactly the delivered deltas that are not `None`, never more of them than were delivered. |
| `Server.YieldedAppend` | server/app/core/ai/llm.py:88-90 | Deltas delivered in two stretches yield the chunks of the first stretch, then those of the second. |
| `Server.ServiceCompletion` | server/app/core/ai/llm.py:66-93 | The shipped service never raises. It yields the delivered non-`None` deltas in order, and after a failure one more chunk, `Error: ` and the failure's message. |
| `Server.ServiceText` | server/app/core/ai/llm.py:88-93 | The service's chunks add up to the delivered text, followed by `Error: <message>` when a failure interrupted it. |
| `Server.ServiceNeverSendsErrorFrame` | server/app/main.py:35-40 | With the shipped service, `generate()` writes only content frames. Its `except` branch never sends an error frame, because the service catches every failure itself. |
| `Server.StreamTwin` | server/app/main.py:114-160 | Every endpoint with a `stream` flag has a streaming twin, which has no flag and is not the chat route. |
| `Server.Handle` | server/app/main.py:30-160 | A request that fails validation gets the 422 reply. Validation means an object body on every analysis route, a readable `stream` flag on a flagged route, and the `message` query parameter on the chat route. An accepted request streams exactly when the route always streams or its flag is set. A stream is the generated frames of the model's completion for the route's prompt. Otherwise the reply is `{"result": r}` when the model returned and `{"error": msg}` when it raised. |
| `Server.DefaultIsBuffered` | server/app/main.py:30-46 | Without the `stream` query flag, an analyze endpoint answers with a JSON body exactly when its body is an object, and refuses the request otherwise. |
| `Server.StreamTwinAgrees` | server/app/main.py:114-124 | Each `/stream` twin has the path of its endpoint plus `/stream` and the same prompt name. It answers every request, refusals included, exactly as its endpoint does with `stream=true`. |
| `Server.ChatWrapsMessage` | server/app/main.py:102-112 | With its `message` query parameter, the chat endpoint streams the completion of `{"message": message}` under the `chat_assistant` prompt, whatever the body. Without it, the request is refused. |
| `Server.StreamChatRejected` | frontend/app/lib/api.ts:93-99 | The client's `streamChat` sends the message as a JSON string body and no `message` query parameter, so the chat endpoint always refuses it. |
| `RoundTrip.FrameDecodeInvertsEncoder` | frontend/app/components/AnalysisInterface.tsx:78 | The reference reader inverts both frame encoders. |
| `RoundTrip.FrameDecodeRejectsCutObjects` | frontend/app/components/AnalysisInterface.tsx:78-89 | The reference reader refuses every proper prefix and every proper suffix of a content object, as `JSON.parse` throws on them. |
| `RoundTrip.NonEmpty` | frontend/app/components/AnalysisInterface.tsx:79 | Dropping falsy contents keeps only non-empty strings. |
| `RoundTrip.ConcatNonEmpty` | frontend/app/components/AnalysisInterface.tsx:79-80 | Dropping empty contents does not change their concatenation. |
| `RoundTrip.SplitContentBody` | server/app/main.py:38 | Splitting the content frames on `'\n'` gives, per chunk, its `data: ` line and one empty line. |
| `RoundTrip.ContentLine` | frontend/app/components/AnalysisInterface.tsx:76-82 | An encoded content line contributes its chunk when the chunk is non-empty, and is never an error line. |
| `RoundTrip.FrameLinesRead` | frontend/app/components/AnalysisInterface.tsx:75-82 | The lines of encoded content frames yield exactly the non-empty chunks, in order, and hold no error line. |
| `RoundTrip.ContentBodyRead` | server/app/main.py:35-38 | One read holding a whole run of content frames accumulates exactly its non-empty chunks. |
| `RoundTrip.WholeResponseRoundTrip` | server/app/main.py:35-41 | When the whole response arrives in one read, the panel shows the concatenation of the chunks and publishes every running prefix of the non-empty ones. |
| `RoundTrip.SplitErrorBody` | server/app/main.py:39-40 | A response that raised splits into the content frames' lines, the error line and two empty strings. |
| `RoundTrip.ErrorLineStep` | frontend/app/components/AnalysisInterface.tsx:83-86 | An encoded non-empty error is an error line. It shows the message, publishes it and stops the read, keeping the accumulator. |
| `RoundTrip.ErrorBodyRead` | frontend/app/components/AnalysisInterface.tsx:72-91 | A read holding content frames and then an error frame accumulates the chunks and ends showing the error. |
| `RoundTrip.ErrorResponseRoundTrip` | server/app/main.py:36-40 | When a failed response arrives in one read, the panel shows the error message. The accumulator still holds every chunk, and the updates are the running prefixes followed by the message. |
| `RoundTrip.NoResetAfterError` | frontend/app/components/AnalysisInterface.tsx:65-86 | After a read that ends on an error, a later content frame publishes the content from before the error plus the new chunk, and this overwrites the error. |
| `RoundTrip.OneChunkThenError` | server/app/main.py:35-40 | One chunk followed by an error, in one read, publishes the chunk and then the error. |
| `RoundTrip.OneChunkAfter` | frontend/app/components/AnalysisInterface.tsx:79-82 | A later read with one non-empty chunk appends it to the accumulator and shows the sum. |
| `RoundTrip.FrameAlignedReads` | frontend/app/components/AnalysisInterface.tsx:68-92 | Reads that each hold whole content frames give the same result as one read holding all of them. |
| `RoundTrip.WholeFrameShown` | frontend/app/components/AnalysisInterface.tsx:72-82 | The frame for `hi`, read whole, shows `hi`. |
| `RoundTrip.CutFrameHead` | frontend/app/components/AnalysisInterface.tsx:72-89 | For every reader that refuses the pieces of a cut content object (`RejectsCutObjects`), every content frame and every cut before the end of its `data: ` line, the first part changes nothing. Either it is no `data: ` line, or its JSON text is a proper prefix of the frame object, which does not read. |
| `RoundTrip.CutFrameTail` | frontend/app/components/AnalysisInterface.tsx:72-89 | For every reader that refuses the pieces of a cut content object (`RejectsCutObjects`), every content frame and every cut before the end of its `data: ` line, the second part changes nothing. Its first line is no `data: ` line or reads as nothing, and the rest are blank. |
| `RoundTrip.SplitFrameIsLost` | frontend/app/components/AnalysisInterface.tsx:68-92 | No buffer is carried between reads. So a content frame whose two parts arrive in two reads contributes nothing, from any state, whenever the cut falls before the end of its `data: ` line. This holds for every reader that refuses the pieces of a cut content object (`RejectsCutObjects`). `Json.FrameDecode` is one (`RoundTrip.FrameDecodeRejectsCutObjects`). |
| `RoundTrip.HiCutIsLost` | frontend/app/components/AnalysisInterface.tsx:68-92 | The frame for `hi` read whole shows `hi`, and cut after its `h` it shows nothing. |
| `Ui.Publish` | frontend/app/components/AnalysisInterface.tsx:81 | One `setResponse` call per published value, in order. |
| `Ui.ApplyAppend` | frontend/app/components/AnalysisInterface.tsx:34-99 | Running two batches of state-setter calls is running them one after the other. |
| `Ui.ApplyKeepsLoading` | frontend/app/components/AnalysisInterface.tsx:60-92 | Calls that never set the loading flag leave it unchanged. |
| `Ui.ApplyPublish` | frontend/app/components/AnalysisInterface.tsx:81-84 | After a run of `setResponse` calls the text is the last value set. |
| `Ui.LastTextWins` | frontend/app/components/AnalysisInterface.tsx:95 | A final `setResponse` decides the text. |
| `Ui.ApplyRequestReply` | frontend/app/components/PositionRecommendations.tsx:85-115 | Setting the flag, clearing the text, sending, setting a text and clearing the flag leaves that text with the flag off. |
| `Ui.ApplyFailBeforeRequest` | frontend/app/components/PositionRecommendations.tsx:110-115 | When a handler fails before sending, the failure text is shown and the flag ends off. |
| `Panels.AnalysisRoute` | frontend/app/lib/api.ts:102-136 | Each panel endpoint is a route with a `stream` flag. |
| `Panels.StreamRoute` | frontend/app/lib/api.ts:102-136 | The panels call the always-streaming routes. |
| `Panels.StreamRouteIsTwin` | frontend/app/lib/api.ts:102-136 | The route a panel calls is the `/stream` twin of its analyze endpoint, and distinct panels call distinct routes. |
| `Panels.TypeEndpoint` | frontend/app/components/AnalysisInterface.tsx:45-57 | `position`, `position-plans` and `top-earning` select their own endpoints, and every other type selects the general one. |
| `Panels.AnalysisSubmit` | frontend/app/components/AnalysisInterface.tsx:34-99 | The data-analysis panel runs the shared handler with prefix `Error: ` and sends its requests only to the endpoint `analysisType` selects. |
| `Panels.PositionSubmit` | frontend/app/components/PositionAnalysis.tsx:17-69 | The position panel runs the shared handler with prefix `ERROR: ` and sends its requests only to the position endpoint. |
| `Panels.TopEarningSubmit` | frontend/app/components/TopEarningAnalysis.tsx:17-69 | The top-earning panel runs the shared handler with prefix `ERROR: ` and sends its requests only to the top-earning endpoint. |
| `Panels.Delivered` | frontend/app/components/AnalysisInterface.tsx:60-95 | Delivering a stream only sets the text and sends nothing. A failure means a thrown error, a missing body or an error mid-stream. On a failure the last call shows the prefix and the message. |
| `Panels.Attempt` | frontend/app/components/AnalysisInterface.tsx:40-95 | The `try` block makes at least one call and never touches the flag. |
| `Panels.Submit` | frontend/app/components/AnalysisInterface.tsx:34-99 | Blank input makes no call at all. Otherwise the handler first sets the flag and clears the text, ends by clearing the flag, and does not touch the flag in between. Unparseable input makes the third call show the prefix and the parse error. Every request goes to the panel's endpoint. |
| `Panels.SubmitShape` | frontend/app/components/AnalysisInterface.tsx:36-98 | Unparseable input shows the prefix and the parse error with no request. Parseable input sends one request and hands its delivery to the stream loop. |
| `Panels.RequestIffValid` | frontend/app/components/AnalysisInterface.tsx:36-57 | A request is sent exactly when the input is non-blank and parses. It is then the third call and carries the parsed body. |
| `Panels.BlankInputIsNoop` | frontend/app/components/PositionAnalysis.tsx:19 | Whitespace-only input changes nothing. |
| `Panels.LoadingBracketsSubmit` | frontend/app/components/PositionAnalysis.tsx:21-68 | The flag is on after every proper prefix of the calls and off at the end, whatever the outcome. |
| `Panels.ClearedBeforeRequest` | frontend/app/components/PositionAnalysis.tsx:21-27 | When the request goes out the text is empty. |
| `Panels.InvalidInputShowsError` | frontend/app/components/AnalysisInterface.tsx:41-98 | Unparseable input ends showing the prefix and the message, with the flag off and no request. |
| `Panels.SubmitValid` | frontend/app/components/AnalysisInterface.tsx:38-98 | Parseable input ends as the delivery leaves the cleared text, with the flag off. |
| `Panels.FailureDiscardsPartial` | frontend/app/components/PositionAnalysis.tsx:64-65 | A failure replaces the text, and any partial accumulation, with the prefix and the message. |
| `Panels.StreamedResponseShown` | frontend/app/components/PositionAnalysis.tsx:35-62 | A stream that does not fail publishes exactly the fold's updates, and the panel ends on the fold's display. |
| `Panels.ServerDelivery` | server/app/main.py:114-160 | The server's reply to a panel request arrives in one read and never fails. For an object body it is the frames for the route's prompt. For any other JSON value it is the one-line 422 body. |
| `Panels.PanelShowsServerReply` | server/app/main.py:126-136 | End to end, for input that parses to an object. When the model did not raise, the panel ends showing the concatenated chunks. When it raised a non-empty message, the panel shows that message with no prefix. The flag is off in both cases. |
| `Panels.PanelShowsServiceReply` | server/app/core/ai/llm.py:66-93 | End to end with the shipped service. The panel ends showing the delivered text. After a failure it shows that text followed by `Error: <message>`, so the failure neither replaces the streamed text nor gets the panel's prefix. The flag is off. |
| `Panels.PanelShowsRejection` | frontend/app/components/PositionAnalysis.tsx:21-68 | Input that parses to something other than an object (`[1]`, `42`, `null`) is refused by the server. The panel ends on the empty text with the flag off and no error shown. |
| `Panels.PanelsShareTheLoop` | frontend/app/components/TopEarningAnalysis.tsx:17-69 | Given the same delivery, the Position and Top Earning panels end in the same state. They agree with the general panel whenever nothing fails. |
| `Panels.PanelPrefixes` | frontend/app/components/TopEarningAnalysis.tsx:64-65 | The failure prefix is `Error: ` in the general panel and `ERROR: ` in the other two. |
| `Panels.PanelEndpoints` | frontend/app/components/PositionAnalysis.tsx:27 | Each fixed panel requests only its own endpoint, and the general panel requests the one its type selects. |
| `Tokens.FindSymbol` | frontend/app/components/PositionRecommendations.tsx:35 | `find` gives the first index with the symbol, or nothing when no token has it. |
| `Tokens.TokenAddress` | frontend/app/components/PositionRecommendations.tsx:34-37 | A non-empty address belongs to a token with that symbol that is listed on the network. |
| `Tokens.TokenAddressIsFirstMatch` | frontend/app/components/PositionRecommendations.tsx:34-37 | The address is that of the first token with the symbol, and `''` when it has none on the network. |
| `Tokens.UnknownSymbolHasNoAddress` | frontend/app/components/PositionRecommendations.tsx:36 | An unknown symbol gives `''`. |
| `Tokens.AvailableTokens` | frontend/app/components/PositionRecommendations.tsx:29-31 | The menu holds exactly the table's tokens with an address on the network, and it is no longer than the table. |
| `Tokens.AvailableAppend` | frontend/app/components/PositionRecommendations.tsx:30 | The filter distributes over concatenation, so it keeps table order. |
| `Tokens.AvailableOnNetworkHaveAddress` | frontend/app/components/PositionRecommendations.tsx:29-37 | With distinct symbols, every token the menu offers resolves to a non-empty address. |
| `Tokens.AllKept` | frontend/app/components/PositionRecommendations.tsx:30 | A table whose every token is on the network is kept whole. |
| `Tokens.ArbitrumMenu` | frontend/app/lib/tokens.ts:10-87 | On Arbitrum the menu is WETH, USDC, USDT, WBTC, DAI and ARB, in that order. |
| `Tokens.DefaultPairAddresses` | frontend/app/lib/tokens.ts:11-32 | WETH and USDC resolve to their Arbitrum addresses. |
| `Tokens.ArbOffEthereum` | frontend/app/lib/tokens.ts:66-72 | ARB has no Ethereum address, so it resolves to `''` there. |
| `Tokens.BaseWbtcDaiCollide` | frontend/app/lib/tokens.ts:44-63 | On Base, WBTC and DAI resolve to one and the same non-empty address. |
| `Format.NameText` | frontend/app/components/PositionRecommendations.tsx:182-187 | A string name is shown as its upper-cased form. A truthy non-string throws. A shown name has no lower-case ASCII letter. |
| `Strings.Upper` | frontend/app/components/PositionRecommendations.tsx:185-186 | Upper-casing keeps the length, turns each lower-case ASCII letter into its upper-case form, and keeps every other character. |
| `Format.UnknownName` | frontend/app/components/PositionRecommendations.tsx:182-186 | The default name is `UNKNOWN`. |
| `Format.WeightsText` | frontend/app/components/PositionRecommendations.tsx:189-194 | The weights block appears exactly when `scoring_weights` is present. |
| `Format.Header` | frontend/app/components/PositionRecommendations.tsx:181-194 | The header throws exactly when a name throws. Otherwise it starts with the count line, then `NETWORK: ` and `POOL: ` with the rendered names. |
| `Format.ReportHeaderLines` | frontend/app/components/PositionRecommendations.tsx:181-187 | A report without an error opens with `FOUND <count> UNISWAP POSITIONS`, then `NETWORK: <name>` and `POOL: <name>`, with the names upper-cased or `UNKNOWN`. |
| `Format.IdLine` | frontend/app/components/PositionRecommendations.tsx:201-210 | The k-th entry starts with `k+1. `. |
| `Format.AprLine` | frontend/app/components/PositionRecommendations.tsx:218-220 | The APR line appears exactly when `apr` is a number. |
| `Format.RoiLine` | frontend/app/components/PositionRecommendations.tsx:223-225 | The ROI line appears exactly when `roi` is a number. |
| `Format.Entries` | frontend/app/components/PositionRecommendations.tsx:200 | The listing has `min(10, n)` entries, the k-th built from the k-th position. |
| `Format.FormatResponse` | frontend/app/components/PositionRecommendations.tsx:174-260 | The report starts with `ERROR: ` exactly when `error` is truthy, which never throws. Otherwise it throws exactly when the header does or a listed position has a null age or value, and it starts with the header. |
| `Format.ErrorBranch` | frontend/app/components/PositionRecommendations.tsx:176-178 | A truthy `error` gives `ERROR: `, the error, a newline and the dump, with no header or listing. |
| `Format.CountDefaults` | frontend/app/components/PositionRecommendations.tsx:181 | The count is `total_positions` when truthy, else the list's length, else `0`. |
| `Format.ListingShape` | frontend/app/components/PositionRecommendations.tsx:196-253 | A non-empty list gives the header, the banner and at most ten entries. |
| `Format.EmptyListing` | frontend/app/components/PositionRecommendations.tsx:254-257 | A missing or empty list gives the header, `NO POSITIONS FOUND` and the dump. |
| `Format.EntryNumbering` | frontend/app/components/PositionRecommendations.tsx:200-201 | Entries are numbered from 1, and distinct entries carry distinct numbers. |
| `Format.IdPrecedence` | frontend/app/components/PositionRecommendations.tsx:204-210 | The identifier is taken from `nft_id` first, then `id`, then `Position #k`. |
| `Format.BeyondTenIgnored` | frontend/app/components/PositionRecommendations.tsx:200 | Positions past the tenth do not affect the report. |
| `Format.NullAgeThrows` | frontend/app/components/PositionRecommendations.tsx:243-245 | A null `age` among the first ten positions makes the report throw. |
| `Recommendations.SwapInvolution` | frontend/app/components/PositionRecommendations.tsx:62-66 | Swapping twice restores the form. |
| `Recommendations.LoadSampleKeepsAges` | frontend/app/components/PositionRecommendations.tsx:51-60 | The sample resets every field but the age window, and loading it twice is loading it once. |
| `Recommendations.Validate` | frontend/app/components/PositionRecommendations.tsx:75-83 | `Please select both tokens` is given exactly when a selection is missing or the network or exchange is blank. Otherwise `Please select different tokens` is given exactly when the two symbols are equal. |
| `Recommendations.SwapPreservesValidation` | frontend/app/components/PositionRecommendations.tsx:62-83 | Validation gives the same answer after a swap. |
| `Recommendations.NetworkChangeNeedsTokens` | frontend/app/components/PositionRecommendations.tsx:386-390 | After a network change, validation asks for both tokens. Selecting the old pair again validates as the old form on the new network. |
| `Recommendations.PopularPairsValid` | frontend/app/components/PositionRecommendations.tsx:43-49 | Every quick-select pair passes validation. |
| `Recommendations.EnabledMeansSelected` | frontend/app/components/PositionRecommendations.tsx:509 | An enabled submit button means both selections are made. |
| `Recommendations.Query` | frontend/app/components/PositionRecommendations.tsx:89-100 | The query has the ten parameter names, in order. |
| `Recommendations.QueryIgnoresLimit` | frontend/app/components/PositionRecommendations.tsx:94 | The query always sends `limit=10`, whatever the form holds. |
| `Recommendations.QueryCarriesAddresses` | frontend/app/components/PositionRecommendations.tsx:39-40 | The query sends the two tokens' addresses on the network, not their symbols. A swap exchanges them and changes nothing else. |
| `Recommendations.InitialQuery` | frontend/app/components/PositionRecommendations.tsx:10-12 | The initial form asks for WETH and USDC by their Arbitrum addresses. |
| `Recommendations.FailureText` | frontend/app/components/PositionRecommendations.tsx:112 | The catch text starts with `ERROR: `. |
| `Recommendations.Submit` | frontend/app/components/PositionRecommendations.tsx:73-116 | A rejected form only shows its message. An accepted one sets the flag, clears the text, sends the query, shows the outcome and clears the flag. |
| `Recommendations.SubmitData` | frontend/app/components/PositionRecommendations.tsx:103-108 | A rejected form leaves the stored reply unchanged. |
| `Recommendations.SubmitSendsIffValid` | frontend/app/components/PositionRecommendations.tsx:75-102 | A request is sent exactly when validation passes. |
| `Recommendations.RejectedLeavesLoading` | frontend/app/components/PositionRecommendations.tsx:75-83 | A rejected form leaves the flag and the stored reply untouched. |
| `Recommendations.SubmitOutcome` | frontend/app/components/PositionRecommendations.tsx:102-115 | An accepted form ends with the flag off and one of three texts: the report; the catch text for a failed fetch; or the catch text when formatting throws. |
| `Recommendations.SubmitStoresReply` | frontend/app/components/PositionRecommendations.tsx:103-108 | An accepted form stores the reply exactly when it was fetched and its report was built; otherwise the stored reply stays as it was. |
| `Recommendations.ServerErrorShown` | frontend/app/components/PositionRecommendations.tsx:176-177 | A reply with a truthy `error` ends showing a text that starts with `ERROR: `. |
| `Recommendations.SubmitAsWritten` | frontend/app/components/PositionRecommendations.tsx:73-116 | As written, an accepted form goes from setting the flag to clearing it with no request in between. |
| `Recommendations.AsWrittenNeverSends` | frontend/app/components/PositionRecommendations.tsx:102 | As written, no form ever sends a request, and every accepted form ends showing the catch text. |
| `Recommendations.Toggle` | frontend/app/components/PositionRecommendations.tsx:582 | A click closes the row exactly when it was the open one, and otherwise opens it. |
| `Recommendations.DoubleClick` | frontend/app/components/PositionRecommendations.tsx:582 | Two clicks on one row leave it closed, unless it was already open. |
| `Recommendations.ClicksSnoc` | frontend/app/components/PositionRecommendations.tsx:582 | A further click acts on the state the earlier clicks left. |
| `Recommendations.LastClickDecides` | frontend/app/components/PositionRecommendations.tsx:582-605 | At most one row is open, and it is the last row clicked. That row is closed exactly when it was open before the last click. |
| `Recommendations.OrValue` | frontend/app/components/PositionRecommendations.tsx:135-138 | A stored field is used when truthy, and the form's value otherwise. |
| `Recommendations.MakePayload` | frontend/app/components/PositionRecommendations.tsx:131-149 | With an index the payload carries the one position at that index, or none past the end. Without one it carries the whole list. Network, exchange and tokens fall back to the form. |
| `Recommendations.AnalysisText` | frontend/app/components/PositionRecommendations.tsx:159-168 | The text is `ERROR: ` and the error when the reply has one, the result otherwise, and `ERROR: ` and the message when the POST throws. |
| `Recommendations.Analyze` | frontend/app/components/PositionRecommendations.tsx:118-172 | Without stored positions the handler only shows the guard message. Otherwise it sets the flag, clears the text, posts the payload, shows the outcome and clears the flag. |
| `Recommendations.AnalyzeGuard` | frontend/app/components/PositionRecommendations.tsx:119-122 | A request is made exactly when positions are stored. Without them only the message changes, not the flag. |
| `Recommendations.AnalyzeOutcome` | frontend/app/components/PositionRecommendations.tsx:124-171 | With positions stored, the handler ends showing the reply's text with the flag off. |
| `Recommendations.AnalyzeAsWritten` | frontend/app/components/PositionRecommendations.tsx:118-172 | The analysis handler taken by itself, as written: an attempt past the guard goes from setting the flag to clearing it with no request. Whether a stored reply can get it past the guard is `AnalysisUnreachableAsWritten`. |
| `Recommendations.AnalyzeAsWrittenNeverSends` | frontend/app/components/PositionRecommendations.tsx:151 | The analysis handler taken by itself, as written: it never sends a request, and for any stored reply with positions it ends on the error. As written no such reply is ever stored, so this case only arises once line 102 is fixed (`AnalysisThrowsOnceSubmitFixed`). |
| `Recommendations.SubmitThenAnalyze` | frontend/app/components/PositionRecommendations.tsx:106-143 | A formatted reply with positions makes analysis possible, and the whole-list payload carries exactly those positions. |
| `Recommendations.AnalysisUnreachableAsWritten` | frontend/app/components/PositionRecommendations.tsx:21-151 | As written, the stored reply starts empty and stays empty after any run of submit and analyze presses, because `setResponseData` (line 108) follows the throw at line 102. So the panel is never analyzable, every analysis stops at the guard, and line 151 is never reached. |
| `Recommendations.AnalysisThrowsOnceSubmitFixed` | frontend/app/components/PositionRecommendations.tsx:102-151 | With line 102 corrected, one accepted submit whose reply has positions makes the panel analyzable. The analysis as written then sends nothing and ends on `ERROR: ` and the TypeError's message, with the flag off. |

## Left out

- Network and byte I/O are parameters. This covers `fetch`, axios, `reader.read()` and `TextDecoder`, and reads arrive as decoded strings. `TextDecoder.decode` is called without stream mode, so a UTF-8 sequence cut between reads is not modelled.
- `JSON.parse` on the client is a parameter. Only the frame objects the server writes are given a concrete reader, `Json.FrameDecode`.
- `Server.Handle`: the text of the 422 reply's `detail` list is a parameter of one line, because it is the web framework's rendering. Which spellings the `bool` validator reads as true or false is also left abstract (`Server.FlagText`).
- `Server.Handle`: any JSON value other than an object fails `data: dict`. Older validator versions turn a list of key/value pairs into a dict, and that case is not modelled.
- JSON values other than strings in `content` or `error` are not modelled. The server only writes strings there.
- `JSON.stringify`, `toFixed`, `toLocaleString`, `parseFloat` and the ×100 scalings are uninterpreted fields of `Format.Render`, as is the `${x}` rendering of a number.
- `Format.NameText`: upper-casing is modelled on ASCII letters only, because `toUpperCase` on other scripts depends on Unicode case tables.
- `Strings.Upper`: models `toUpperCase` on ASCII letters only and keeps every other character. JavaScript also maps letters of other scripts, such as `é` to `É`, and some, such as `ß` to `SS`, change the length. Those mappings depend on Unicode case tables.
- `Format.IsTruthy`: a NaN number is treated as truthy, because NaN is not modelled.
- `Format.FormatResponse`: a `positions` value that is truthy but not an array, and a list element that is not an object, are not modelled. The component treats them as follows:
  - A non-empty string `positions` has a `length`, and `slice` works on it, but the result has no `forEach`, so the component throws.
  - An object `positions` whose `length` compares greater than 0 has no `slice`, so the component throws.
  - Any other truthy `positions` takes the `NO POSITIONS FOUND` branch. That covers a number, `true`, and an object whose `length` is missing or not greater than 0. Unless `total_positions` is truthy, the count shows that `length`, which is `undefined` when it is missing.
  - A `null` element throws at its first field read.
  - A number, boolean or string element renders as `k. Position #k` with no detail lines. An array element renders like an object with none of the fields.
- `Format.FormatResponse`: two throws are modelled. One is `toUpperCase` on a truthy non-string `network` or `exchange`, in `Format.NameText`. The other is a null `age` or `underlying_value` in a listed position. Every throw gives one message, `Render.typeError`.
- A truthy `scoring_weights` that is not an object is modelled as an object with none of the three keys. Both read `undefined` for each weight, so each percentage is rendered from `undefined`.
- `Recommendations.AnalysisText`: a reply without `result` shows `""`. The component hands `undefined` to the text setter, which renders nothing.
- The query string's percent-encoding by `URLSearchParams` is not modelled. The query is the list of name/value pairs.
- The `responseData` of the recommendation panel is kept apart from the trace of its text and flag setters (`Recommendations.SubmitData`). `setCopied`, the clipboard and `setTimeout` are left out.
- The structured table's cells and the details pane are not modelled, only which row is expanded.
- `server/app/core/ai/llm.py`: only `complete_stream` is modelled (`Server.ServiceCompletion`), with the OpenAI stream as its delivered deltas and the text of the exception that stopped it. The prompt files, the OpenAI client, the buffered `complete` and `chat_complete` are not part of this model. The server and panel lemmas are stated for any `Server.Completion`, one that raises included, because `generate()` is written for one.
- `Server.ServiceCompletion`: `except Exception` does not catch a `BaseException` such as a cancelled task. Such an exception ends the stream without an `Error: ` chunk or an error frame, and this is not modelled.
- The chat panel, the markdown renderer, the page shells and the environment configuration are not part of this model. They hold no logic the streaming path depends on.
- Lone UTF-16 surrogates cannot be Dafny characters. Python's escaping of them is not modelled.
- Overlapping submissions, React update batching and cancellation are not modelled. Each handler runs alone, start to finish.

## Findings

| source | as written | input that shows it | evidently intended | confidence | as-written member | corrected member |
|---|---|---|---|---|---|---|
| frontend/app/components/PositionRecommendations.tsx:102 | `handleSubmit` builds its URL with `api.getBaseUrl()`, but the `api` object in `frontend/app/lib/api.ts` has no such member, so the call throws a TypeError inside the `try`. TypeScript also reports the missing member (error TS2339), and `frontend/app/next.config.js` does not turn off type checking, so `next build` reports it too | any form that passes validation, e.g. the initial WETH/USDC form on Arbitrum | the request goes to the API base URL and its reply is formatted | high (not executed) | `Recommendations.SubmitAsWritten`, `Recommendations.AsWrittenNeverSends` | `Recommendations.Submit`, `Recommendations.SubmitSendsIffValid`, `Recommendations.SubmitOutcome` |
| frontend/app/components/PositionRecommendations.tsx:151 | `handleAnalyze` posts to `api.getBaseUrl()` as well, so every analysis past the guard ends on `ERROR: ` and the TypeError's message. As written this is hidden behind line 102: no reply is ever stored, so the analyze buttons never appear and the guard stops every analysis | none as written. Once line 102 is fixed: a submit whose reply has at least one position, then the analyze button | the payload is posted and the reply's error or result is shown | high (not executed) | `Recommendations.AnalyzeAsWritten`, `Recommendations.AnalyzeAsWrittenNeverSends`, `Recommendations.AnalysisUnreachableAsWritten`, `Recommendations.AnalysisThrowsOnceSubmitFixed` | `Recommendations.Analyze`, `Recommendations.AnalyzeOutcome` |
