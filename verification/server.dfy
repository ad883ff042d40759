/**
 * The producer side: the API routes, the prompt each one uses, the
 * buffered `{"result"}` / `{"error"}` reply, and the `generate()` frame
 * encoder behind every streaming reply.
 *
 * The language-model client is a parameter: `complete` gives, for a request
 * and a prompt name, the chunks `complete_stream` yields and the message of
 * the exception it raises after them (if any); `answer` gives the outcome of
 * the one-shot call the buffered branch awaits.
 */
module Server {
  import opened Wrappers
  import opened Strings
  import opened Json

  // ---------------------------------------------------------------------
  // Frames
  // ---------------------------------------------------------------------

  /** `f"data: {json.dumps({'content': chunk})}\n\n"`. */
  function ContentFrame(chunk: string): (r: string)
    ensures StartsWith(r, "data: ") && EndsWith(r, "\n\n")
    ensures '\n' !in r[..|r| - 2]
  {
    FrameJsonHasNoNewline(chunk);
    var r := "data: " + ContentJson(chunk) + "\n\n";
    assert r[..|r| - 2] == "data: " + ContentJson(chunk);
    r
  }

  /** `f"data: {json.dumps({'error': str(e)})}\n\n"`. */
  function ErrorFrame(message: string): (r: string)
    ensures StartsWith(r, "data: ") && EndsWith(r, "\n\n")
    ensures '\n' !in r[..|r| - 2]
  {
    FrameJsonHasNoNewline(message);
    var r := "data: " + ErrorJson(message) + "\n\n";
    assert r[..|r| - 2] == "data: " + ErrorJson(message);
    r
  }

  /**
   * What the model's streaming call does for one request: the chunks it
   * yields, in order, and the message of the exception it raises after
   * them, if any.  The shipped service (`ServiceCompletion`) never raises;
   * the server is modelled for any completion, since its `except` branch
   * is written for one that does.
   */
  datatype Completion = Completion(chunks: seq<string>, raised: Option<string>)

  /** The text of the deltas the model's stream delivers that are not `None`, in order. */
  function Yielded(deltas: seq<Option<string>>): (r: seq<string>)
    ensures |r| <= |deltas|
    ensures forall i :: 0 <= i < |r| ==> Some(r[i]) in deltas
    ensures forall i :: 0 <= i < |deltas| && deltas[i].Some? ==> deltas[i].value in r
  {
    if deltas == [] then []
    else
      var rest := Yielded(deltas[1..]);
      assert deltas == [deltas[0]] + deltas[1..];
      if deltas[0].Some? then [deltas[0].value] + rest else rest
  }

  lemma {:induction false} YieldedAppend(a: seq<Option<string>>, b: seq<Option<string>>)
    ensures Yielded(a + b) == Yielded(a) + Yielded(b)
  {
    if a != [] {
      assert (a + b)[1..] == a[1..] + b;
      YieldedAppend(a[1..], b);
    } else {
      assert a + b == b;
    }
  }

  /**
   * The shipped service's `complete_stream`: it yields every delta that is
   * not `None` until an exception interrupts it (in loading the prompt,
   * opening the stream or reading it), and then catches the exception and
   * yields its text after `Error: ` as one more ordinary chunk.  `failure`
   * is the message of that exception, if one occurred, and `deltas` the
   * deltas delivered before it.
   */
  function ServiceCompletion(deltas: seq<Option<string>>, failure: Option<string>): (c: Completion)
    ensures c.raised.None?
    ensures |c.chunks| == |Yielded(deltas)| + (if failure.Some? then 1 else 0)
    ensures c.chunks[..|Yielded(deltas)|] == Yielded(deltas)
    ensures failure.Some? ==> c.chunks[|c.chunks| - 1] == "Error: " + failure.value
  {
    var y := Yielded(deltas);
    var tail := if failure.Some? then ["Error: " + failure.value] else [];
    TakeOfAppend(y, tail, |y|);
    Completion(y + tail, None)
  }

  /** The text the shipped service's chunks add up to: the delivered text, then the failure's text if any. */
  lemma ServiceText(deltas: seq<Option<string>>, failure: Option<string>)
    ensures failure.None? ==> Concat(ServiceCompletion(deltas, failure).chunks) == Concat(Yielded(deltas))
    ensures failure.Some? ==>
      Concat(ServiceCompletion(deltas, failure).chunks) == Concat(Yielded(deltas)) + "Error: " + failure.value
  {
    var c := ServiceCompletion(deltas, failure);
    var y := Yielded(deltas);
    if failure.Some? {
      var m := "Error: " + failure.value;
      assert c.chunks == y + [m];
      ConcatAppend(y, [m]);
      ConcatSingle(m);
    } else {
      assert c.chunks == y;
    }
  }

  /** A failure of the shipped service is only text: the stream never carries an error frame. */
  lemma ServiceNeverSendsErrorFrame(deltas: seq<Option<string>>, failure: Option<string>)
    ensures Generate(ServiceCompletion(deltas, failure)) == ContentFrames(ServiceCompletion(deltas, failure).chunks)
    ensures forall f :: f in Generate(ServiceCompletion(deltas, failure)) ==> exists x :: f == ContentFrame(x)
  {
    var c := ServiceCompletion(deltas, failure);
    var frames := Generate(c);
    assert frames == frames[..|c.chunks|];
    forall f | f in frames
      ensures exists x :: f == ContentFrame(x)
    {
      var i :| 0 <= i < |frames| && frames[i] == f;
      assert f == ContentFrame(c.chunks[i]);
    }
  }

  /** The `async for chunk in ...: yield frame` loop. */
  function ContentFrames(chunks: seq<string>): (frames: seq<string>)
    ensures |frames| == |chunks|
    ensures forall i :: 0 <= i < |chunks| ==> frames[i] == ContentFrame(chunks[i])
  {
    if chunks == [] then [] else [ContentFrame(chunks[0])] + ContentFrames(chunks[1..])
  }

  /**
   * The frames one `generate()` yields: a content frame per chunk, then a
   * single error frame if the completion raised.
   */
  function Generate(c: Completion): (frames: seq<string>)
    ensures |frames| == |c.chunks| + (if c.raised.Some? then 1 else 0)
    ensures frames[..|c.chunks|] == ContentFrames(c.chunks)
    ensures c.raised.Some? ==> frames[|frames| - 1] == ErrorFrame(c.raised.value)
  {
    var frames := ContentFrames(c.chunks) + (if c.raised.Some? then [ErrorFrame(c.raised.value)] else []);
    assert frames[..|c.chunks|] == ContentFrames(c.chunks);
    frames
  }

  /** The text of a streamed body: the yielded frames back to back. */
  function Body(frames: seq<string>): string {
    Concat(frames)
  }

  // ---------------------------------------------------------------------
  // Routes
  // ---------------------------------------------------------------------

  datatype Route =
    | Analyze | AnalyzePosition | AnalyzePositionPlans | AnalyzeTopEarning
    | ChatStream
    | AnalyzeStream | AnalyzePositionStream | AnalyzePositionPlansStream | AnalyzeTopEarningStream

  function Path(r: Route): string {
    match r
    case Analyze => "/analyze"
    case AnalyzePosition => "/analyze/position"
    case AnalyzePositionPlans => "/analyze/position-plans"
    case AnalyzeTopEarning => "/analyze/top-earning"
    case ChatStream => "/chat/stream"
    case AnalyzeStream => "/analyze/stream"
    case AnalyzePositionStream => "/analyze/position/stream"
    case AnalyzePositionPlansStream => "/analyze/position-plans/stream"
    case AnalyzeTopEarningStream => "/analyze/top-earning/stream"
  }

  /** The prompt file name each route hands to the model. */
  function Prompt(r: Route): string {
    match r
    case Analyze | AnalyzeStream => "general_analysis"
    case AnalyzePosition | AnalyzePositionStream => "position_analysis"
    case AnalyzePositionPlans | AnalyzePositionPlansStream => "position_plan_finder"
    case AnalyzeTopEarning | AnalyzeTopEarningStream => "top_earning_analyzer"
    case ChatStream => "chat_assistant"
  }

  /** The four analysis routes that take the `stream` query flag. */
  predicate HasStreamFlag(r: Route) {
    r.Analyze? || r.AnalyzePosition? || r.AnalyzePositionPlans? || r.AnalyzeTopEarning?
  }

  /** The dedicated `/stream` route of an analysis route. */
  function StreamTwin(r: Route): (t: Route)
    requires HasStreamFlag(r)
    ensures !HasStreamFlag(t) && !t.ChatStream?
  {
    match r
    case Analyze => AnalyzeStream
    case AnalyzePosition => AnalyzePositionStream
    case AnalyzePositionPlans => AnalyzePositionPlansStream
    case AnalyzeTopEarning => AnalyzeTopEarningStream
  }

  // ---------------------------------------------------------------------
  // Requests and their validation
  // ---------------------------------------------------------------------

  /** The kind of a JSON value. */
  datatype JsonKind = ObjectKind | ArrayKind | StringKind | NumberKind | BoolKind | NullKind

  /** A JSON value as it is sent: its kind and its text. */
  datatype JsonText = JsonText(kind: JsonKind, text: string)

  /** The request body as the framework reads it: none, text that is not JSON, or a JSON value. */
  datatype RequestBody = Absent | NotJson | Sent(value: JsonText)

  /** How the `bool` validator reads the text of the `stream` query parameter. */
  datatype FlagText = Reads(value: bool) | Unreadable

  /** One request: the `stream` and `message` query parameters, when given, and the body. */
  datatype HttpRequest = HttpRequest(stream: Option<FlagText>, message: Option<string>, body: RequestBody)

  /** A `data: dict` parameter is satisfied by a JSON object body and by nothing else. */
  predicate IsObjectBody(b: RequestBody) {
    b.Sent? && b.value.kind.ObjectKind?
  }

  /**
   * The request validation that runs before a route's body: the chat route
   * needs its `message: str` query parameter; every other route needs an
   * object body, and a flagged route a readable `stream` flag when one is
   * given.  Parameters a route does not declare are ignored.
   */
  predicate Accepted(r: Route, req: HttpRequest) {
    if r.ChatStream? then req.message.Some?
    else IsObjectBody(req.body) && (HasStreamFlag(r) ==> req.stream != Some(Unreadable))
  }

  /** `stream: bool = Query(False)`: an absent flag means False. */
  function StreamFlag(q: Option<FlagText>): bool {
    q == Some(Reads(true))
  }

  /** The object handed to the model: the request body, or `{"message": message}` for chat. */
  datatype ModelInput = DataObject(data: string) | MessageObject(message: string)

  function InputFor(r: Route, req: HttpRequest): ModelInput
    requires Accepted(r, req)
  {
    if r.ChatStream? then MessageObject(req.message.value) else DataObject(req.body.value.text)
  }

  /** The awaited one-shot call of the buffered branch: a result, or an exception message. */
  datatype Answer = Returned(result: string) | Raised(message: string)

  /** The reply of the buffered branch: exactly one of the two keys. */
  datatype JsonBody = ResultBody(result: string) | ErrorBody(error: string)

  /** A route's reply; `Rejected` is the 422 reply of a request that fails validation. */
  datatype Reply = JsonReply(json: JsonBody) | StreamReply(frames: seq<string>) | Rejected

  /** Text without a line break. */
  type OneLine = s: string | '\n' !in s

  /**
   * The body of the 422 reply: `{"detail": errors}`, where `errors` lists
   * the failed checks.  It is rendered compactly, so it is one line, and it
   * opens with `{`.
   */
  function RejectionBody(errors: OneLine): (r: string)
    ensures '\n' !in r && |r| > 0 && r[0] == '{'
  {
    NotInJoin3('\n', "{\"detail\":", errors, "}");
    "{\"detail\":" + errors + "}"
  }

  /**
   * One request to route `r`.  A request that fails validation is refused
   * before the route runs; otherwise the reply streams when the route
   * always streams or its flag is set, and is the buffered JSON reply
   * otherwise.
   */
  function Handle(r: Route, req: HttpRequest,
                  complete: (ModelInput, string) -> Completion,
                  answer: (Route, ModelInput) -> Answer): (reply: Reply)
    ensures reply.Rejected? <==> !Accepted(r, req)
    ensures reply.StreamReply? <==> Accepted(r, req) && (!HasStreamFlag(r) || StreamFlag(req.stream))
    ensures reply.StreamReply? ==> reply.frames == Generate(complete(InputFor(r, req), Prompt(r)))
    ensures reply.JsonReply? ==> (reply.json.ResultBody? <==> answer(r, InputFor(r, req)).Returned?)
    ensures reply.JsonReply? && reply.json.ResultBody? ==> reply.json.result == answer(r, InputFor(r, req)).result
    ensures reply.JsonReply? && reply.json.ErrorBody? ==> reply.json.error == answer(r, InputFor(r, req)).message
  {
    if !Accepted(r, req) then Rejected
    else
      var input := InputFor(r, req);
      if HasStreamFlag(r) && !StreamFlag(req.stream) then
        match answer(r, input)
        case Returned(result) => JsonReply(ResultBody(result))
        case Raised(message) => JsonReply(ErrorBody(message))
      else
        StreamReply(Generate(complete(input, Prompt(r))))
  }

  /**
   * Without the query flag an analysis route answers with the buffered
   * JSON reply exactly when its body is an object; otherwise it refuses.
   */
  lemma DefaultIsBuffered(r: Route, req: HttpRequest,
                          complete: (ModelInput, string) -> Completion,
                          answer: (Route, ModelInput) -> Answer)
    requires HasStreamFlag(r) && req.stream.None?
    ensures Handle(r, req, complete, answer).JsonReply? <==> IsObjectBody(req.body)
    ensures Handle(r, req, complete, answer).Rejected? <==> !IsObjectBody(req.body)
  {
  }

  /**
   * Each analysis route and its `/stream` twin share the prompt, the twin's
   * path is the route's path plus `/stream`, and the twin answers every
   * request exactly as the route does with `stream=true`.
   */
  lemma StreamTwinAgrees(r: Route, req: HttpRequest,
                         complete: (ModelInput, string) -> Completion,
                         answer: (Route, ModelInput) -> Answer)
    requires HasStreamFlag(r)
    ensures Prompt(StreamTwin(r)) == Prompt(r)
    ensures Path(StreamTwin(r)) == Path(r) + "/stream"
    ensures Handle(StreamTwin(r), req, complete, answer)
         == Handle(r, req.(stream := Some(Reads(true))), complete, answer)
  {
    TwinPath(r);
    TwinHandle(r, req, complete, answer);
  }

  lemma TwinPath(r: Route)
    requires HasStreamFlag(r)
    ensures Path(StreamTwin(r)) == Path(r) + "/stream"
  {
    match r
    case Analyze =>
      assert "/analyze/stream" == "/analyze" + "/stream";
    case AnalyzePosition =>
      assert "/analyze/position/stream" == "/analyze/position" + "/stream";
    case AnalyzePositionPlans =>
      assert "/analyze/position-plans/stream" == "/analyze/position-plans" + "/stream";
    case AnalyzeTopEarning =>
      assert "/analyze/top-earning/stream" == "/analyze/top-earning" + "/stream";
  }

  lemma TwinHandle(r: Route, req: HttpRequest,
                   complete: (ModelInput, string) -> Completion,
                   answer: (Route, ModelInput) -> Answer)
    requires HasStreamFlag(r)
    ensures Handle(StreamTwin(r), req, complete, answer)
         == Handle(r, req.(stream := Some(Reads(true))), complete, answer)
  {
    var flagged := req.(stream := Some(Reads(true)));
    assert Prompt(StreamTwin(r)) == Prompt(r);
    assert Accepted(StreamTwin(r), req) == Accepted(r, flagged);
    if Accepted(r, flagged) {
      assert InputFor(StreamTwin(r), req) == InputFor(r, flagged);
    }
  }

  /**
   * The chat route needs its `message` query parameter: with it, the route
   * streams the completion of `{"message": message}` under the
   * `chat_assistant` prompt, whatever the body; without it, the request is
   * refused.
   */
  lemma ChatWrapsMessage(req: HttpRequest,
                         complete: (ModelInput, string) -> Completion,
                         answer: (Route, ModelInput) -> Answer)
    ensures req.message.Some? ==>
              Handle(ChatStream, req, complete, answer)
              == StreamReply(Generate(complete(MessageObject(req.message.value), "chat_assistant")))
    ensures req.message.None? ==> Handle(ChatStream, req, complete, answer) == Rejected
  {
  }

  /**
   * The client's `streamChat` posts the message as a JSON string body and
   * gives no `message` query parameter, so the chat route refuses it.
   */
  lemma StreamChatRejected(text: string,
                           complete: (ModelInput, string) -> Completion,
                           answer: (Route, ModelInput) -> Answer)
    ensures Handle(ChatStream, HttpRequest(None, None, Sent(JsonText(StringKind, text))), complete, answer) == Rejected
  {
  }
}
