/**
 * The three streaming analysis panels' `handleSubmit`.  They share one
 * shape: ignore blank input, set `loading` and clear the response, parse
 * the input, post it to a `/stream` route, run the frame accumulator over
 * the body, show `prefix + message` for anything thrown, and clear
 * `loading` in `finally`.  They differ only in the endpoint and in the
 * failure prefix (`Error: ` for the data-analysis panel, `ERROR: ` for the
 * other two).
 *
 * `JSON.parse` of the input, the `fetch` with its reads, and the browser's
 * JSON reader for frames are parameters.
 */
module Panels {
  import opened Wrappers
  import opened Strings
  import opened Json
  import opened Stream
  import opened Server
  import opened Ui
  import opened RoundTrip

  /** The four streaming calls of the API client. */
  datatype Endpoint = General | Position | PositionPlans | TopEarning

  /** The analysis route behind an endpoint. */
  function AnalysisRoute(e: Endpoint): (r: Route)
    ensures HasStreamFlag(r)
  {
    match e
    case General => Analyze
    case Position => AnalyzePosition
    case PositionPlans => AnalyzePositionPlans
    case TopEarning => AnalyzeTopEarning
  }

  /** The route the client posts to: always the dedicated `/stream` route. */
  function StreamRoute(e: Endpoint): (r: Route)
    ensures !HasStreamFlag(r) && !r.ChatStream?
  {
    match e
    case General => AnalyzeStream
    case Position => AnalyzePositionStream
    case PositionPlans => AnalyzePositionPlansStream
    case TopEarning => AnalyzeTopEarningStream
  }

  /**
   * The client's stream URL is the server's stream twin of the endpoint's
   * analysis route, and distinct endpoints reach distinct routes.
   */
  lemma StreamRouteIsTwin(e: Endpoint, f: Endpoint)
    ensures StreamRoute(e) == StreamTwin(AnalysisRoute(e))
    ensures Path(StreamRoute(e)) == Path(AnalysisRoute(e)) + "/stream"
    ensures StreamRoute(e) == StreamRoute(f) ==> e == f
  {
  }

  /** The `switch (analysisType)` of the data-analysis panel. */
  function TypeEndpoint(kind: string): (e: Endpoint)
    ensures e == Position <==> kind == "position"
    ensures e == PositionPlans <==> kind == "position-plans"
    ensures e == TopEarning <==> kind == "top-earning"
    ensures e == General <==> kind != "position" && kind != "position-plans" && kind != "top-earning"
  {
    if kind == "position" then Position
    else if kind == "position-plans" then PositionPlans
    else if kind == "top-earning" then TopEarning
    else General
  }

  /** A streaming POST: the endpoint and the parsed input, sent back as JSON. */
  datatype Request = Request(endpoint: Endpoint, body: JsonText)

  /**
   * `JSON.parse(inputData)`: the value (its kind and the text it is sent
   * as), or the exception message.
   */
  datatype InputParse = Valid(body: JsonText) | Invalid(message: string)

  /**
   * What the request yields: the fetch throws; the response has no body; or
   * the body delivers `blocks` (already decoded to text) and then ends
   * (`failure == None`) or a read throws (`failure == Some(message)`).
   */
  datatype Delivery = Threw(message: string) | NoBody | Streamed(blocks: seq<string>, failure: Option<string>)

  const NoBodyMessage: string := "No response body"

  /** The message the `catch` shows for a delivery that throws. */
  function FailureMessage(d: Delivery): Option<string> {
    match d
    case Threw(m) => Some(m)
    case NoBody => Some(NoBodyMessage)
    case Streamed(_, failure) => failure
  }

  /** The calls made once the request has been sent. */
  function Delivered(prefix: string, d: Delivery, decode: string -> Parsed): (evs: seq<Event<Request>>)
    ensures NoLoadingCalls(evs) && NoRequests(evs)
    ensures FailureMessage(d).Some? ==> |evs| >= 1 && evs[|evs| - 1] == SetResponse(prefix + FailureMessage(d).value)
  {
    match d
    case Threw(m) => [SetResponse(prefix + m)]
    case NoBody => [SetResponse(prefix + NoBodyMessage)]
    case Streamed(blocks, failure) =>
      var published := Publish<Request>(ProcessReads(Start, blocks, decode).updates);
      if failure.Some? then published + [SetResponse(prefix + failure.value)] else published
  }

  /** The body of the `try`. */
  function Attempt(prefix: string, e: Endpoint, input: string, parse: string -> InputParse,
                   deliver: Request -> Delivery, decode: string -> Parsed): (evs: seq<Event<Request>>)
    ensures |evs| >= 1 && NoLoadingCalls(evs)
  {
    match parse(input)
    case Invalid(m) => [SetResponse(prefix + m)]
    case Valid(body) =>
      var req := Request(e, body);
      [Send(req)] + Delivered(prefix, deliver(req), decode)
  }

  /**
   * One submit of a panel with failure prefix `prefix` posting to `e`:
   * the state-setter calls in order.  Blank input makes no call at all;
   * otherwise the calls open with `setLoading(true)` and `setResponse('')`,
   * close with `setLoading(false)`, and touch the flag nowhere in between.
   */
  function Submit(prefix: string, e: Endpoint, input: string, parse: string -> InputParse,
                  deliver: Request -> Delivery, decode: string -> Parsed): (evs: seq<Event<Request>>)
    ensures evs == [] <==> IsBlank(input)
    ensures !IsBlank(input) ==>
              && |evs| >= 4
              && evs[0] == SetLoading(true) && evs[1] == SetResponse("")
              && evs[|evs| - 1] == SetLoading(false)
              && NoLoadingCalls(evs[1..|evs| - 1])
    ensures !IsBlank(input) && parse(input).Invalid? ==> evs[2] == SetResponse(prefix + parse(input).message)
    ensures forall i :: 0 <= i < |evs| && evs[i].Send? ==> evs[i].request.endpoint == e
  {
    if IsBlank(input) then []
    else
      var body := Attempt(prefix, e, input, parse, deliver, decode);
      var evs := [SetLoading(true), SetResponse("")] + body + [SetLoading(false)];
      assert evs[1..|evs| - 1] == [SetResponse("")] + body;
      evs
  }

  /** The calls of a non-blank submit, spelled out. */
  lemma SubmitShape(prefix: string, e: Endpoint, input: string, parse: string -> InputParse,
                    deliver: Request -> Delivery, decode: string -> Parsed)
    requires !IsBlank(input)
    ensures var evs := Submit(prefix, e, input, parse, deliver, decode);
      && (parse(input).Invalid? ==>
            evs == [SetLoading(true), SetResponse(""), SetResponse(prefix + parse(input).message), SetLoading(false)])
      && (parse(input).Valid? ==>
            var req := Request(e, parse(input).body);
            evs == [SetLoading(true), SetResponse(""), Send(req)] + Delivered(prefix, deliver(req), decode) + [SetLoading(false)])
  {
    var opening: seq<Event<Request>> := [SetLoading(true), SetResponse("")];
    var body := Attempt(prefix, e, input, parse, deliver, decode);
    assert Submit(prefix, e, input, parse, deliver, decode) == opening + body + [SetLoading(false)];
    match parse(input)
    case Invalid(m) =>
      assert body == [SetResponse(prefix + m)];
    case Valid(b) =>
      var req := Request(e, b);
      assert body == [Send(req)] + Delivered(prefix, deliver(req), decode);
      Regroup(SetLoading(true), SetResponse(""), Send(req), Delivered(prefix, deliver(req), decode));
  }

  lemma Regroup<T>(a: T, b: T, c: T, rest: seq<T>)
    ensures [a, b] + ([c] + rest) == [a, b, c] + rest
  {
  }

  /**
   * A request goes out exactly when the input is non-blank and parses, and
   * it is then the parsed input posted to the panel's endpoint, sent once.
   */
  lemma RequestIffValid(prefix: string, e: Endpoint, input: string, parse: string -> InputParse,
                        deliver: Request -> Delivery, decode: string -> Parsed)
    ensures var evs := Submit(prefix, e, input, parse, deliver, decode);
      && ((exists i :: 0 <= i < |evs| && evs[i].Send?) <==> !IsBlank(input) && parse(input).Valid?)
      && (forall i :: 0 <= i < |evs| && evs[i].Send? ==>
            i == 2 && parse(input).Valid? && evs[i].request == Request(e, parse(input).body))
  {
    if !IsBlank(input) {
      if parse(input).Valid? {
        OnlyRequestIsThird(prefix, e, input, parse, deliver, decode);
      } else {
        SubmitShape(prefix, e, input, parse, deliver, decode);
      }
    }
  }

  /** Parseable input: the third call is the request, and no other call is one. */
  lemma OnlyRequestIsThird(prefix: string, e: Endpoint, input: string, parse: string -> InputParse,
                           deliver: Request -> Delivery, decode: string -> Parsed)
    requires !IsBlank(input) && parse(input).Valid?
    ensures var evs := Submit(prefix, e, input, parse, deliver, decode);
      && |evs| > 2 && evs[2] == Send(Request(e, parse(input).body))
      && forall i :: 0 <= i < |evs| && i != 2 ==> !evs[i].Send?
  {
    var req := Request(e, parse(input).body);
    var opening: seq<Event<Request>> := [SetLoading(true), SetResponse("")];
    var delivered := Delivered(prefix, deliver(req), decode);
    assert Attempt(prefix, e, input, parse, deliver, decode) == [Send(req)] + delivered;
    var evs := Submit(prefix, e, input, parse, deliver, decode);
    assert evs == opening + ([Send(req)] + delivered) + [SetLoading(false)];
    SingleRequest(evs, opening, req, delivered, [SetLoading(false)]);
  }

  // ---------------------------------------------------------------------
  // The three panels
  // ---------------------------------------------------------------------

  /** The data-analysis panel: `Error: ` prefix, endpoint chosen by `analysisType`. */
  function AnalysisSubmit(kind: string, input: string, parse: string -> InputParse,
                          deliver: Request -> Delivery, decode: string -> Parsed): (evs: seq<Event<Request>>)
    ensures forall i :: 0 <= i < |evs| && evs[i].Send? ==> evs[i].request.endpoint == TypeEndpoint(kind)
    ensures !IsBlank(input) && parse(input).Invalid? ==> |evs| > 2 && evs[2] == SetResponse("Error: " + parse(input).message)
  {
    Submit("Error: ", TypeEndpoint(kind), input, parse, deliver, decode)
  }

  /** The position panel: `ERROR: ` prefix, always the position endpoint. */
  function PositionSubmit(input: string, parse: string -> InputParse,
                          deliver: Request -> Delivery, decode: string -> Parsed): (evs: seq<Event<Request>>)
    ensures forall i :: 0 <= i < |evs| && evs[i].Send? ==> evs[i].request.endpoint == Position
    ensures !IsBlank(input) && parse(input).Invalid? ==> |evs| > 2 && evs[2] == SetResponse("ERROR: " + parse(input).message)
  {
    Submit("ERROR: ", Position, input, parse, deliver, decode)
  }

  /** The top-earning panel: `ERROR: ` prefix, always the top-earning endpoint. */
  function TopEarningSubmit(input: string, parse: string -> InputParse,
                            deliver: Request -> Delivery, decode: string -> Parsed): (evs: seq<Event<Request>>)
    ensures forall i :: 0 <= i < |evs| && evs[i].Send? ==> evs[i].request.endpoint == TopEarning
    ensures !IsBlank(input) && parse(input).Invalid? ==> |evs| > 2 && evs[2] == SetResponse("ERROR: " + parse(input).message)
  {
    Submit("ERROR: ", TopEarning, input, parse, deliver, decode)
  }

  // ---------------------------------------------------------------------
  // Properties of one submit
  // ---------------------------------------------------------------------

  /** Whitespace-only input changes nothing. */
  lemma BlankInputIsNoop(prefix: string, e: Endpoint, input: string, parse: string -> InputParse,
                         deliver: Request -> Delivery, decode: string -> Parsed, v: View)
    requires IsBlank(input)
    ensures Apply(v, Submit(prefix, e, input, parse, deliver, decode)) == v
  {
  }

  /**
   * `loading` is on after the first call and stays on until the last one,
   * which turns it off, whatever the outcome.
   */
  lemma LoadingBracketsSubmit(prefix: string, e: Endpoint, input: string, parse: string -> InputParse,
                              deliver: Request -> Delivery, decode: string -> Parsed, v: View)
    requires !IsBlank(input)
    ensures var evs := Submit(prefix, e, input, parse, deliver, decode);
      && (forall k :: 0 < k < |evs| ==> Apply(v, evs[..k]).loading)
      && !Apply(v, evs).loading
  {
    Bracketed(v, Submit(prefix, e, input, parse, deliver, decode));
  }

  /** The response is cleared before any request goes out. */
  lemma ClearedBeforeRequest(prefix: string, e: Endpoint, input: string, parse: string -> InputParse,
                             deliver: Request -> Delivery, decode: string -> Parsed, v: View, i: nat)
    requires i < |Submit(prefix, e, input, parse, deliver, decode)|
    requires Submit(prefix, e, input, parse, deliver, decode)[i].Send?
    ensures var evs := Submit(prefix, e, input, parse, deliver, decode);
      Apply(v, evs[..i]).response == ""
  {
    var evs := Submit(prefix, e, input, parse, deliver, decode);
    RequestIffValid(prefix, e, input, parse, deliver, decode);
    assert i == 2;
    assert evs[..2] == [SetLoading(true), SetResponse("")];
    ApplyOpening<Request>(v);
  }

  /** Unparseable input shows `prefix + message` and makes no request. */
  lemma InvalidInputShowsError(prefix: string, e: Endpoint, input: string, parse: string -> InputParse,
                               deliver: Request -> Delivery, decode: string -> Parsed, v: View)
    requires !IsBlank(input) && parse(input).Invalid?
    ensures var evs := Submit(prefix, e, input, parse, deliver, decode);
      && NoRequests(evs)
      && Apply(v, evs) == View(prefix + parse(input).message, false)
  {
    RequestIffValid(prefix, e, input, parse, deliver, decode);
    SubmitShape(prefix, e, input, parse, deliver, decode);
    var evs := Submit(prefix, e, input, parse, deliver, decode);
    var m := parse(input).message;
    ApplyAppend<Request>(v, [SetLoading(true), SetResponse("")], [SetResponse(prefix + m), SetLoading(false)]);
    ApplyOpening<Request>(v);
    ApplyCons<Request>(v.(response := "", loading := true), SetResponse(prefix + m), [SetLoading(false)]);
    ApplyCons(v.(response := prefix + m, loading := true), Event<Request>.SetLoading(false), []);
  }

  /** The calls after the request, and the final view, for a valid input. */
  lemma SubmitValid(prefix: string, e: Endpoint, input: string, parse: string -> InputParse,
                    deliver: Request -> Delivery, decode: string -> Parsed, v: View)
    requires !IsBlank(input) && parse(input).Valid?
    ensures var d := deliver(Request(e, parse(input).body));
      Apply(v, Submit(prefix, e, input, parse, deliver, decode))
        == Apply(v.(response := "", loading := true), Delivered(prefix, d, decode)).(loading := false)
  {
    var req := Request(e, parse(input).body);
    var tail := Delivered(prefix, deliver(req), decode);
    var evs := Submit(prefix, e, input, parse, deliver, decode);
    var head: seq<Event<Request>> := [SetLoading(true), SetResponse(""), Send(req)];
    SubmitShape(prefix, e, input, parse, deliver, decode);
    ApplyAppend(v, head + tail, [SetLoading(false)]);
    ApplyAppend(v, head, tail);
    ApplyAppend(v, [SetLoading(true), SetResponse("")], [Send(req)]);
    ApplyOpening<Request>(v);
    ApplyCons(v.(response := "", loading := true), Send(req), []);
  }

  /**
   * Anything thrown after the request went out replaces the display with
   * `prefix + message`, discarding the text accumulated so far.
   */
  lemma FailureDiscardsPartial(prefix: string, e: Endpoint, input: string, parse: string -> InputParse,
                               deliver: Request -> Delivery, decode: string -> Parsed, v: View)
    requires !IsBlank(input) && parse(input).Valid?
    requires FailureMessage(deliver(Request(e, parse(input).body))).Some?
    ensures var m := FailureMessage(deliver(Request(e, parse(input).body))).value;
      Apply(v, Submit(prefix, e, input, parse, deliver, decode)) == View(prefix + m, false)
  {
    var d := deliver(Request(e, parse(input).body));
    var tail := Delivered(prefix, d, decode);
    SubmitValid(prefix, e, input, parse, deliver, decode, v);
    assert tail == tail[..|tail| - 1] + [tail[|tail| - 1]];
    LastTextWins(v.(response := "", loading := true), tail[..|tail| - 1], prefix + FailureMessage(d).value);
  }

  /**
   * A body read to its end shows what the accumulator last published, and
   * the texts set after the clearing are exactly its publications.
   */
  lemma StreamedResponseShown(prefix: string, e: Endpoint, input: string, parse: string -> InputParse,
                              deliver: Request -> Delivery, decode: string -> Parsed, v: View)
    requires !IsBlank(input) && parse(input).Valid?
    requires deliver(Request(e, parse(input).body)).Streamed?
    requires deliver(Request(e, parse(input).body)).failure.None?
    ensures var r := ProcessReads(Start, deliver(Request(e, parse(input).body)).blocks, decode);
      var evs := Submit(prefix, e, input, parse, deliver, decode);
      && evs[3..|evs| - 1] == Publish(r.updates)
      && Apply(v, evs) == View(r.display, false)
  {
    var req := Request(e, parse(input).body);
    var r := ProcessReads(Start, deliver(req).blocks, decode);
    var evs := Submit(prefix, e, input, parse, deliver, decode);
    var tail := Delivered(prefix, deliver(req), decode);
    SubmitShape(prefix, e, input, parse, deliver, decode);
    assert evs[3..|evs| - 1] == tail;
    assert tail == Publish(r.updates);
    SubmitValid(prefix, e, input, parse, deliver, decode, v);
    var cleared := v.(response := "", loading := true);
    ApplyPublish<Request>(cleared, r.updates);
    assert Extends(Start, r);
  }

  // ---------------------------------------------------------------------
  // The panels against the server
  // ---------------------------------------------------------------------

  /** The server's reply to a panel's request: the frames for an object body, a refusal for any other. */
  lemma PanelRequestReply(e: Endpoint, body: JsonText, complete: (ModelInput, string) -> Completion,
                          answer: (Route, ModelInput) -> Answer)
    ensures var reply := Handle(StreamRoute(e), HttpRequest(None, None, Sent(body)), complete, answer);
      && (body.kind.ObjectKind? ==> reply == StreamReply(Generate(complete(DataObject(body.text), Prompt(AnalysisRoute(e))))))
      && (!body.kind.ObjectKind? ==> reply == Rejected)
  {
  }

  /**
   * The whole reply of the server to a panel's request, delivered in one
   * read.  The panel posts to a `/stream` route with no query parameters:
   * an object body gets the generated frames, and any other JSON value the
   * one-line 422 body (which the panel reads like any other body, since it
   * never looks at the status).
   */
  function ServerDelivery(req: Request, errors: OneLine, complete: (ModelInput, string) -> Completion,
                          answer: (Route, ModelInput) -> Answer): (d: Delivery)
    ensures d.Streamed? && d.failure.None?
    ensures req.body.kind.ObjectKind? ==>
              d.blocks == [Body(Generate(complete(DataObject(req.body.text), Prompt(AnalysisRoute(req.endpoint)))))]
    ensures !req.body.kind.ObjectKind? ==> d.blocks == [RejectionBody(errors)]
  {
    PanelRequestReply(req.endpoint, req.body, complete, answer);
    match Handle(StreamRoute(req.endpoint), HttpRequest(None, None, Sent(req.body)), complete, answer)
    case StreamReply(frames) => Streamed([Body(frames)], None)
    case _ => Streamed([RejectionBody(errors)], None)
  }

  /**
   * End to end: a panel whose input is a JSON object, answered by the
   * server in one read, shows the concatenation of the model's chunks, or
   * exactly the model's error message (without the panel's prefix) when
   * the model raised one.
   */
  lemma PanelShowsServerReply(prefix: string, e: Endpoint, input: string, parse: string -> InputParse,
                              errors: OneLine,
                              complete: (ModelInput, string) -> Completion,
                              answer: (Route, ModelInput) -> Answer,
                              decode: string -> Parsed, v: View)
    requires InvertsEncoder(decode)
    requires !IsBlank(input) && parse(input).Valid? && parse(input).body.kind.ObjectKind?
    ensures var c := complete(DataObject(parse(input).body.text), Prompt(AnalysisRoute(e)));
      var shown := Apply(v, Submit(prefix, e, input, parse, req => ServerDelivery(req, errors, complete, answer), decode));
      && !shown.loading
      && (c.raised.None? ==> shown.response == Concat(c.chunks))
      && (c.raised.Some? && c.raised.value != "" ==> shown.response == c.raised.value)
  {
    var deliver := req => ServerDelivery(req, errors, complete, answer);
    var req := Request(e, parse(input).body);
    var c := complete(DataObject(req.body.text), Prompt(AnalysisRoute(e)));
    StreamedResponseShown(prefix, e, input, parse, deliver, decode, v);
    if c.raised.None? {
      WholeResponseRoundTrip(c.chunks, decode);
      assert c == Completion(c.chunks, None);
    } else if c.raised.value != "" {
      ErrorResponseRoundTrip(c.chunks, c.raised.value, decode);
      assert c == Completion(c.chunks, Some(c.raised.value));
    }
  }

  /**
   * End to end with the shipped service: the panel ends showing the
   * delivered text, and a failure only adds `Error: <message>` after the
   * text already streamed.  It neither replaces that text nor shows the
   * panel's own prefix.
   */
  lemma PanelShowsServiceReply(prefix: string, e: Endpoint, input: string, parse: string -> InputParse,
                               errors: OneLine,
                               complete: (ModelInput, string) -> Completion,
                               answer: (Route, ModelInput) -> Answer,
                               decode: string -> Parsed, v: View,
                               deltas: seq<Option<string>>, failure: Option<string>)
    requires InvertsEncoder(decode)
    requires !IsBlank(input) && parse(input).Valid? && parse(input).body.kind.ObjectKind?
    requires complete(DataObject(parse(input).body.text), Prompt(AnalysisRoute(e))) == ServiceCompletion(deltas, failure)
    ensures var shown := Apply(v, Submit(prefix, e, input, parse, req => ServerDelivery(req, errors, complete, answer), decode));
      && !shown.loading
      && (failure.None? ==> shown.response == Concat(Yielded(deltas)))
      && (failure.Some? ==> shown.response == Concat(Yielded(deltas)) + "Error: " + failure.value)
  {
    PanelShowsServerReply(prefix, e, input, parse, errors, complete, answer, decode, v);
    ServiceText(deltas, failure);
  }

  /**
   * Input that parses to anything but an object (`[1]`, `42`, `"x"`,
   * `null`) is refused by the server, and the panel ends on the empty text
   * it set before the request, with no error shown.
   */
  lemma PanelShowsRejection(prefix: string, e: Endpoint, input: string, parse: string -> InputParse,
                            errors: OneLine,
                            complete: (ModelInput, string) -> Completion,
                            answer: (Route, ModelInput) -> Answer,
                            decode: string -> Parsed, v: View)
    requires !IsBlank(input) && parse(input).Valid? && !parse(input).body.kind.ObjectKind?
    ensures Apply(v, Submit(prefix, e, input, parse, req => ServerDelivery(req, errors, complete, answer), decode))
         == View("", false)
  {
    var deliver := req => ServerDelivery(req, errors, complete, answer);
    var body := RejectionBody(errors);
    StreamedResponseShown(prefix, e, input, parse, deliver, decode, v);
    ProcessReadsSingle(Start, body, decode);
    assert !StartsWith(body, DataPrefix) by {
      assert body[0] != DataPrefix[0];
    }
    PlainReadInert(Start, body, decode);
  }

  /**
   * The three panels run the same loop: on the same input and delivery they
   * make the same calls, except that the failure texts carry their own
   * prefix and the requests go to their own endpoint.
   */
  lemma PanelsShareTheLoop(input: string, parse: string -> InputParse,
                           deliver: Request -> Delivery, decode: string -> Parsed, v: View)
    requires !IsBlank(input) && parse(input).Valid?
    requires deliver(Request(Position, parse(input).body)) == deliver(Request(TopEarning, parse(input).body))
    requires deliver(Request(Position, parse(input).body)) == deliver(Request(General, parse(input).body))
    ensures Apply(v, PositionSubmit(input, parse, deliver, decode))
         == Apply(v, TopEarningSubmit(input, parse, deliver, decode))
    ensures FailureMessage(deliver(Request(Position, parse(input).body))).None? ==>
              (Apply(v, PositionSubmit(input, parse, deliver, decode))
               == Apply(v, AnalysisSubmit("general", input, parse, deliver, decode)))
  {
    SubmitValid("ERROR: ", Position, input, parse, deliver, decode, v);
    SubmitValid("ERROR: ", TopEarning, input, parse, deliver, decode, v);
    SubmitValid("Error: ", General, input, parse, deliver, decode, v);
  }

  /** The failure prefix of each panel. */
  lemma PanelPrefixes(kind: string, input: string, parse: string -> InputParse,
                      deliver: Request -> Delivery, decode: string -> Parsed, v: View)
    requires !IsBlank(input) && parse(input).Invalid?
    ensures Apply(v, AnalysisSubmit(kind, input, parse, deliver, decode)).response == "Error: " + parse(input).message
    ensures Apply(v, PositionSubmit(input, parse, deliver, decode)).response == "ERROR: " + parse(input).message
    ensures Apply(v, TopEarningSubmit(input, parse, deliver, decode)).response == "ERROR: " + parse(input).message
  {
    InvalidInputShowsError("Error: ", TypeEndpoint(kind), input, parse, deliver, decode, v);
    InvalidInputShowsError("ERROR: ", Position, input, parse, deliver, decode, v);
    InvalidInputShowsError("ERROR: ", TopEarning, input, parse, deliver, decode, v);
  }

  /** Each panel posts only to its own endpoint; the data-analysis panel to the chosen one. */
  lemma PanelEndpoints(kind: string, input: string, parse: string -> InputParse,
                       deliver: Request -> Delivery, decode: string -> Parsed)
    ensures var evs := PositionSubmit(input, parse, deliver, decode);
      forall i :: 0 <= i < |evs| && evs[i].Send? ==> evs[i].request.endpoint == Position
    ensures var evs := TopEarningSubmit(input, parse, deliver, decode);
      forall i :: 0 <= i < |evs| && evs[i].Send? ==> evs[i].request.endpoint == TopEarning
    ensures var evs := AnalysisSubmit(kind, input, parse, deliver, decode);
      forall i :: 0 <= i < |evs| && evs[i].Send? ==> evs[i].request.endpoint == TypeEndpoint(kind)
  {
    RequestIffValid("ERROR: ", Position, input, parse, deliver, decode);
    RequestIffValid("ERROR: ", TopEarning, input, parse, deliver, decode);
    RequestIffValid("Error: ", TypeEndpoint(kind), input, parse, deliver, decode);
  }
}
