/**
 * The recommendation panel's handlers: the form and its setters, submit
 * validation and the query it sends, the single expanded row, and the
 * analyze button with its payload.
 *
 * Both handlers fetch from `api.getBaseUrl()`, a member the `api` object
 * does not have; `SubmitAsWritten` and `AnalyzeAsWritten` model that call
 * throwing, `Submit` and `Analyze` the handlers with a base URL supplied.
 */
module Recommendations {
  import opened Wrappers
  import opened Strings
  import opened Tokens
  import opened Format
  import opened Ui

  // ---------------------------------------------------------------------
  // The form
  // ---------------------------------------------------------------------

  /** The form's state: the selected symbols, the pool, and the scoring inputs, all as text. */
  datatype Form = Form(
    token1: string, token2: string, network: string, exchange: string, limit: string,
    weightApr: string, weightRoi: string, weightVolume: string, ageFrom: string, ageTo: string)

  const InitialForm: Form := Form("WETH", "USDC", "arbitrum", "uniswapv3", "10", "0.4", "0.4", "0.2", "0.1", "1")

  /** `swapTokens`. */
  function SwapTokens(f: Form): Form {
    f.(token1 := f.token2, token2 := f.token1)
  }

  /** `selectPair`. */
  function SelectPair(f: Form, a: string, b: string): Form {
    f.(token1 := a, token2 := b)
  }

  /** The network menu's `onChange`: the new network, and both selections cleared. */
  function ChangeNetwork(f: Form, network: string): Form {
    f.(network := network, token1 := "", token2 := "")
  }

  /** `loadSampleData`: every field but the age window goes back to its initial value. */
  function LoadSample(f: Form): Form {
    InitialForm.(ageFrom := f.ageFrom, ageTo := f.ageTo)
  }

  /** The quick-select pairs, in display order. */
  const PopularPairs: seq<(string, string)> :=
    [("WETH", "USDC"), ("WETH", "USDT"), ("WETH", "WBTC"), ("USDC", "USDT"), ("WETH", "DAI")]

  /** Swapping twice gives the form back. */
  lemma SwapInvolution(f: Form)
    ensures SwapTokens(SwapTokens(f)) == f
  {
  }

  /** Loading the sample keeps the age window and is idempotent. */
  lemma LoadSampleKeepsAges(f: Form)
    ensures LoadSample(f).ageFrom == f.ageFrom && LoadSample(f).ageTo == f.ageTo
    ensures LoadSample(LoadSample(f)) == LoadSample(f)
    ensures LoadSample(InitialForm) == InitialForm
  {
  }

  // ---------------------------------------------------------------------
  // Validation and the query
  // ---------------------------------------------------------------------

  const BothTokensMessage: string := "ERROR: Please select both tokens"
  const DifferentTokensMessage: string := "ERROR: Please select different tokens"

  /** The first validation step: a selection is missing or the pool is blank. */
  predicate Incomplete(f: Form) {
    f.token1 == "" || f.token2 == "" || IsBlank(f.network) || IsBlank(f.exchange)
  }

  /** The message `handleSubmit` shows before any request, or `None` when it goes ahead. */
  function Validate(f: Form): (r: Option<string>)
    ensures r == Some(BothTokensMessage) <==> Incomplete(f)
    ensures r == Some(DifferentTokensMessage) <==> !Incomplete(f) && f.token1 == f.token2
    ensures r.None? ==> f.token1 != "" && f.token2 != "" && f.token1 != f.token2
  {
    if Incomplete(f) then Some(BothTokensMessage)
    else if f.token1 == f.token2 then Some(DifferentTokensMessage)
    else None
  }

  /** Validation does not care which selection is which. */
  lemma SwapPreservesValidation(f: Form)
    ensures Validate(SwapTokens(f)) == Validate(f)
  {
  }

  /** After a network change the form cannot be submitted until both tokens are chosen again. */
  lemma NetworkChangeNeedsTokens(f: Form, network: string)
    ensures Validate(ChangeNetwork(f, network)) == Some(BothTokensMessage)
    ensures Validate(SelectPair(ChangeNetwork(f, network), f.token1, f.token2)) == Validate(f.(network := network))
  {
  }

  /** Every quick-select pair passes validation on a non-blank pool. */
  lemma PopularPairsValid(f: Form, i: nat)
    requires i < |PopularPairs|
    requires !IsBlank(f.network) && !IsBlank(f.exchange)
    ensures Validate(SelectPair(f, PopularPairs[i].0, PopularPairs[i].1)) == None
  {
  }

  /** The submit button is enabled: not loading, and both addresses non-blank. */
  predicate CanSubmit(f: Form, tokens: seq<Token>, loading: bool) {
    !loading && !IsBlank(TokenAddress(tokens, f.token1, f.network))
             && !IsBlank(TokenAddress(tokens, f.token2, f.network))
  }

  /**
   * When no token in the table has the empty symbol, an enabled button
   * means both selections are made, so validation can only object to a
   * blank exchange or to equal tokens.
   */
  lemma EnabledMeansSelected(f: Form, tokens: seq<Token>)
    requires forall j :: 0 <= j < |tokens| ==> tokens[j].symbol != ""
    requires CanSubmit(f, tokens, false)
    ensures f.token1 != "" && f.token2 != ""
  {
    if f.token1 == "" {
      UnknownSymbolHasNoAddress(tokens, "", f.network);
    }
    if f.token2 == "" {
      UnknownSymbolHasNoAddress(tokens, "", f.network);
    }
  }

  /** The parameter names of the recommendation query, in order. */
  const QueryKeys: seq<string> :=
    ["token1", "token2", "network", "exchange", "limit", "weight_apr", "weight_roi", "weight_volume", "age_from", "age_to"]

  /** The `URLSearchParams` of `handleSubmit`. */
  function Query(f: Form, tokens: seq<Token>): (q: seq<(string, string)>)
    ensures |q| == |QueryKeys|
    ensures forall i :: 0 <= i < |q| ==> q[i].0 == QueryKeys[i]
  {
    [("token1", TokenAddress(tokens, f.token1, f.network)),
     ("token2", TokenAddress(tokens, f.token2, f.network)),
     ("network", f.network), ("exchange", f.exchange), ("limit", "10"),
     ("weight_apr", f.weightApr), ("weight_roi", f.weightRoi), ("weight_volume", f.weightVolume),
     ("age_from", f.ageFrom), ("age_to", f.ageTo)]
  }

  /** The form's own `limit` never reaches the query: it always asks for ten. */
  lemma QueryIgnoresLimit(f: Form, tokens: seq<Token>, limit: string)
    ensures Query(f.(limit := limit), tokens) == Query(f, tokens)
    ensures Query(f, tokens)[4] == ("limit", "10")
  {
  }

  /** The query carries addresses, not symbols, and swapping exchanges them. */
  lemma QueryCarriesAddresses(f: Form, tokens: seq<Token>)
    ensures Query(f, tokens)[0].1 == TokenAddress(tokens, f.token1, f.network)
    ensures Query(f, tokens)[1].1 == TokenAddress(tokens, f.token2, f.network)
    ensures Query(SwapTokens(f), tokens)[0] == ("token1", Query(f, tokens)[1].1)
    ensures Query(SwapTokens(f), tokens)[1] == ("token2", Query(f, tokens)[0].1)
    ensures Query(SwapTokens(f), tokens)[2..] == Query(f, tokens)[2..]
  {
  }

  /** The initial form asks for WETH/USDC by their Arbitrum addresses. */
  lemma InitialQuery()
    ensures Query(InitialForm, TOKENS)[0] == ("token1", "0x82aF49447D8a07e3BD95BD0d56f35241523fBab1")
    ensures Query(InitialForm, TOKENS)[1] == ("token2", "0xAf88d065e77c8cC2239327C5EDb3A432268e5831")
  {
    var f := InitialForm;
    assert f.token1 == "WETH" && f.token2 == "USDC" && f.network == "arbitrum";
    QueryCarriesAddresses(f, TOKENS);
    DefaultPairAddresses();
  }

  // ---------------------------------------------------------------------
  // Submit
  // ---------------------------------------------------------------------

  /** The GET request: the base URL and the query under `/positions/recommendations`. */
  datatype RecRequest = RecRequest(base: string, query: seq<(string, string)>)

  /** What the request and `response.json()` give: a thrown message, or the parsed reply. */
  datatype Fetched = FetchFailed(message: string) | Fetched(data: RecData)

  /** The catch block's text for a thrown `message`. */
  function FailureText(message: string): (r: string)
    ensures StartsWith(r, "ERROR: ")
  {
    StartsWithAppend("ERROR: ", message + "\n\nThis might be due to:\n1. Backend not running\n2. Invalid API response\n3. Network error");
    "ERROR: " + (message + "\n\nThis might be due to:\n1. Backend not running\n2. Invalid API response\n3. Network error")
  }

  /** The text a sent request ends with: the formatted reply, or the catch block's text. */
  function Outcome(fetched: Fetched, render: Render): string {
    match fetched
    case FetchFailed(m) => FailureText(m)
    case Fetched(d) =>
      match FormatResponse(d, render)
      case Some(t) => t
      case None => FailureText(render.typeError)
  }

  /**
   * `handleSubmit` with a base URL: the validation message alone, or the
   * opening calls, the request, its outcome, and the flag reset.
   */
  function Submit(f: Form, tokens: seq<Token>, base: string, fetch: RecRequest -> Fetched, render: Render)
    : (evs: seq<Event<RecRequest>>)
    ensures Validate(f).Some? ==> evs == [SetResponse(Validate(f).value)]
    ensures Validate(f).None? ==> |evs| == 5 && evs[2] == Send(RecRequest(base, Query(f, tokens)))
    ensures Validate(f).None? ==> evs[0] == SetLoading(true) && evs[1] == SetResponse("") && evs[4] == SetLoading(false)
  {
    match Validate(f)
    case Some(m) => [SetResponse(m)]
    case None =>
      var request := RecRequest(base, Query(f, tokens));
      RequestReply(request, Outcome(fetch(request), render))
  }

  /** The `responseData` after a submit: replaced only when the reply was fetched and formatted. */
  function SubmitData(f: Form, tokens: seq<Token>, base: string, fetch: RecRequest -> Fetched, render: Render,
                      previous: Option<RecData>): (r: Option<RecData>)
    ensures Validate(f).Some? ==> r == previous
  {
    if Validate(f).Some? then previous
    else match fetch(RecRequest(base, Query(f, tokens)))
      case Fetched(d) => if FormatResponse(d, render).Some? then Some(d) else previous
      case FetchFailed(_) => previous
  }

  /** A request goes out exactly when validation passes. */
  lemma SubmitSendsIffValid(f: Form, tokens: seq<Token>, base: string, fetch: RecRequest -> Fetched, render: Render)
    ensures NoRequests(Submit(f, tokens, base, fetch, render)) <==> Validate(f).Some?
  {
    var evs := Submit(f, tokens, base, fetch, render);
    if Validate(f).None? {
      assert evs[2].Send?;
    }
  }

  /** A rejected form only shows the message: the flag and every other state stay as they were. */
  lemma RejectedLeavesLoading(v: View, f: Form, tokens: seq<Token>, base: string, fetch: RecRequest -> Fetched, render: Render)
    requires Validate(f).Some?
    ensures Apply(v, Submit(f, tokens, base, fetch, render)) == v.(response := Validate(f).value)
    ensures SubmitData(f, tokens, base, fetch, render, None) == None
  {
    ApplyCons(v, Event<RecRequest>.SetResponse(Validate(f).value), []);
  }

  /**
   * An accepted form ends with the flag off and one of: the formatted
   * reply, or `ERROR: ` and the thrown message with the three hints.
   */
  lemma SubmitOutcome(v: View, f: Form, tokens: seq<Token>, base: string, fetch: RecRequest -> Fetched, render: Render)
    requires Validate(f).None?
    ensures var fetched := fetch(RecRequest(base, Query(f, tokens)));
      && Apply(v, Submit(f, tokens, base, fetch, render)).loading == false
      && (fetched.FetchFailed? ==> Apply(v, Submit(f, tokens, base, fetch, render)).response == FailureText(fetched.message))
      && (fetched.Fetched? && FormatResponse(fetched.data, render).Some? ==>
            Apply(v, Submit(f, tokens, base, fetch, render)).response == FormatResponse(fetched.data, render).value)
      && (fetched.Fetched? && FormatResponse(fetched.data, render).None? ==>
            Apply(v, Submit(f, tokens, base, fetch, render)).response == FailureText(render.typeError))
  {
    SubmitView(v, f, tokens, base, fetch, render);
    OutcomeCases(fetch(RecRequest(base, Query(f, tokens))), render);
  }

  /** An accepted form ends with the flag off, showing the text its request ended with. */
  lemma SubmitView(v: View, f: Form, tokens: seq<Token>, base: string, fetch: RecRequest -> Fetched, render: Render)
    requires Validate(f).None?
    ensures Apply(v, Submit(f, tokens, base, fetch, render)) == View(Outcome(fetch(RecRequest(base, Query(f, tokens))), render), false)
  {
    var request := RecRequest(base, Query(f, tokens));
    var text := Outcome(fetch(request), render);
    assert Submit(f, tokens, base, fetch, render) == RequestReply(request, text);
    ApplyRequestReply(v, request, text);
  }

  lemma OutcomeCases(fetched: Fetched, render: Render)
    ensures fetched.FetchFailed? ==> Outcome(fetched, render) == FailureText(fetched.message)
    ensures fetched.Fetched? && FormatResponse(fetched.data, render).Some? ==>
              Outcome(fetched, render) == FormatResponse(fetched.data, render).value
    ensures fetched.Fetched? && FormatResponse(fetched.data, render).None? ==>
              Outcome(fetched, render) == FailureText(render.typeError)
  {
    match fetched
    case FetchFailed(_) =>
    case Fetched(d) =>
  }

  /** The reply is stored exactly when it was fetched and its report shown; otherwise the stored reply stays. */
  lemma SubmitStoresReply(f: Form, tokens: seq<Token>, base: string, fetch: RecRequest -> Fetched, render: Render,
                          previous: Option<RecData>)
    requires Validate(f).None?
    ensures var fetched := fetch(RecRequest(base, Query(f, tokens)));
      var shown := fetched.Fetched? && FormatResponse(fetched.data, render).Some?;
      && (shown ==> SubmitData(f, tokens, base, fetch, render, previous) == Some(fetched.data))
      && (!shown ==> SubmitData(f, tokens, base, fetch, render, previous) == previous)
  {
  }

  /** A reply with a truthy `error` is shown as `ERROR: ` and the error, and kept for analysis. */
  lemma ServerErrorShown(v: View, f: Form, tokens: seq<Token>, base: string, fetch: RecRequest -> Fetched, render: Render)
    requires Validate(f).None?
    requires fetch(RecRequest(base, Query(f, tokens))).Fetched?
    requires Present(fetch(RecRequest(base, Query(f, tokens))).data.error)
    ensures StartsWith(Apply(v, Submit(f, tokens, base, fetch, render)).response, "ERROR: ")
  {
    SubmitOutcome(v, f, tokens, base, fetch, render);
  }

  /** `handleSubmit` as written: `api.getBaseUrl` is not a function, so the fetch line throws. */
  function SubmitAsWritten(f: Form, typeError: string): (evs: seq<Event<RecRequest>>)
    ensures Validate(f).Some? ==> evs == [SetResponse(Validate(f).value)]
    ensures Validate(f).None? ==> |evs| == 4 && evs[0] == SetLoading(true) && evs[3] == SetLoading(false)
  {
    match Validate(f)
    case Some(m) => [SetResponse(m)]
    case None => FailBeforeRequest(FailureText(typeError))
  }

  /** As written, no form ever sends a request, and every accepted form ends on the failure text. */
  lemma AsWrittenNeverSends(v: View, f: Form, typeError: string)
    ensures NoRequests(SubmitAsWritten(f, typeError))
    ensures Validate(f).None? ==> Apply(v, SubmitAsWritten(f, typeError)) == View(FailureText(typeError), false)
  {
    if Validate(f).None? {
      ApplyFailBeforeRequest<RecRequest>(v, FailureText(typeError));
    }
  }

  // ---------------------------------------------------------------------
  // The expanded row
  // ---------------------------------------------------------------------

  /** A click on row `i`: it closes when it was the open row, and opens (closing any other) otherwise. */
  function Toggle(expanded: Option<nat>, i: nat): (r: Option<nat>)
    ensures r.None? <==> expanded == Some(i)
    ensures r.Some? ==> r.value == i
  {
    if expanded == Some(i) then None else Some(i)
  }

  /** The open row after a run of clicks, from the first. */
  function Clicks(expanded: Option<nat>, clicks: seq<nat>): Option<nat>
    decreases |clicks|
  {
    if clicks == [] then expanded else Clicks(Toggle(expanded, clicks[0]), clicks[1..])
  }

  /** Two clicks on one row close it, unless it was open before them. */
  lemma DoubleClick(expanded: Option<nat>, i: nat)
    ensures Toggle(Toggle(expanded, i), i) == if expanded == Some(i) then Some(i) else None
  {
  }

  lemma {:induction false} ClicksSnoc(expanded: Option<nat>, clicks: seq<nat>, i: nat)
    ensures Clicks(expanded, clicks + [i]) == Toggle(Clicks(expanded, clicks), i)
    decreases |clicks|
  {
    if clicks == [] {
      assert [i][1..] == [];
    } else {
      assert (clicks + [i])[0] == clicks[0];
      assert (clicks + [i])[1..] == clicks[1..] + [i];
      ClicksSnoc(Toggle(expanded, clicks[0]), clicks[1..], i);
    }
  }

  /**
   * After any clicks the open row, if any, is the last row clicked, and it
   * is open exactly when it was not open before that last click.
   */
  lemma LastClickDecides(expanded: Option<nat>, clicks: seq<nat>)
    requires clicks != []
    ensures var last := clicks[|clicks| - 1];
      && (Clicks(expanded, clicks).Some? ==> Clicks(expanded, clicks) == Some(last))
      && (Clicks(expanded, clicks).None? <==> Clicks(expanded, clicks[..|clicks| - 1]) == Some(last))
  {
    var last := clicks[|clicks| - 1];
    assert clicks == clicks[..|clicks| - 1] + [last];
    ClicksSnoc(expanded, clicks[..|clicks| - 1], last);
  }

  // ---------------------------------------------------------------------
  // Analyze
  // ---------------------------------------------------------------------

  const NoDataMessage: string := "ERROR: No position data available to analyze"

  /** The POST body: one position (absent when the index is past the list), or the whole list. */
  datatype Payload =
    | SinglePayload(position: Option<Position>, network: Value, exchange: Value, token0: Value, token1: Value)
    | AllPayload(positions: seq<Position>, network: Value, exchange: Value, token0: Value, token1: Value)

  /** `a || fallback` for a field of the stored reply. */
  function OrValue(o: Option<Value>, fallback: string): (r: Value)
    ensures Present(o) ==> r == o.value
    ensures !Present(o) ==> r == Str(fallback)
  {
    if Present(o) then o.value else Str(fallback)
  }

  /** The stored reply has a non-empty position list. */
  predicate Analyzable(data: Option<RecData>) {
    data.Some? && HasPositions(data.value)
  }

  /** The payload for the row `index`, or for all rows; the form fills every falsy field. */
  function MakePayload(data: RecData, f: Form, tokens: seq<Token>, index: Option<nat>): (p: Payload)
    requires HasPositions(data)
    ensures p.SinglePayload? <==> index.Some?
    ensures p.AllPayload? ==> p.positions == data.positions.value
    ensures p.SinglePayload? ==> (p.position.Some? <==> index.value < |data.positions.value|)
    ensures p.SinglePayload? && p.position.Some? ==> p.position.value == data.positions.value[index.value]
    ensures p.network == OrValue(data.network, f.network) && p.exchange == OrValue(data.exchange, f.exchange)
    ensures p.token0 == OrValue(data.token0, TokenAddress(tokens, f.token1, f.network))
    ensures p.token1 == OrValue(data.token1, TokenAddress(tokens, f.token2, f.network))
  {
    var ps := data.positions.value;
    var network := OrValue(data.network, f.network);
    var exchange := OrValue(data.exchange, f.exchange);
    var token0 := OrValue(data.token0, TokenAddress(tokens, f.token1, f.network));
    var token1 := OrValue(data.token1, TokenAddress(tokens, f.token2, f.network));
    match index
    case Some(i) => SinglePayload(if i < |ps| then Some(ps[i]) else None, network, exchange, token0, token1)
    case None => AllPayload(ps, network, exchange, token0, token1)
  }

  /** What the POST and `response.json()` give: a thrown message, or the reply's `error` and `result`. */
  datatype AnalyzeReply = PostFailed(message: string) | Replied(error: Option<Value>, result: Option<string>)

  /** The analysis text a reply ends with. */
  function AnalysisText(reply: AnalyzeReply, render: Render): (r: string)
    ensures reply.PostFailed? ==> r == "ERROR: " + reply.message
    ensures reply.Replied? && Present(reply.error) ==> r == "ERROR: " + Show(render, reply.error.value)
    ensures reply.Replied? && !Present(reply.error) ==> r == reply.result.GetOr("")
  {
    match reply
    case PostFailed(m) => "ERROR: " + m
    case Replied(e, result) => if Present(e) then "ERROR: " + Show(render, e.value) else result.GetOr("")
  }

  /**
   * `handleAnalyze` with a base URL, on the analysis text and its flag:
   * the guard message alone, or the opening calls, the POST, its text and
   * the flag reset.
   */
  function Analyze(data: Option<RecData>, f: Form, tokens: seq<Token>, index: Option<nat>,
                   post: Payload -> AnalyzeReply, render: Render): (evs: seq<Event<Payload>>)
    ensures !Analyzable(data) ==> evs == [SetResponse(NoDataMessage)]
    ensures Analyzable(data) ==> |evs| == 5 && evs[2] == Send(MakePayload(data.value, f, tokens, index))
    ensures Analyzable(data) ==> evs[0] == SetLoading(true) && evs[1] == SetResponse("") && evs[4] == SetLoading(false)
  {
    if !Analyzable(data) then [SetResponse(NoDataMessage)]
    else
      var payload := MakePayload(data.value, f, tokens, index);
      RequestReply(payload, AnalysisText(post(payload), render))
  }

  /** Without stored positions nothing is sent and the flag is untouched. */
  lemma AnalyzeGuard(v: View, data: Option<RecData>, f: Form, tokens: seq<Token>, index: Option<nat>,
                     post: Payload -> AnalyzeReply, render: Render)
    ensures NoRequests(Analyze(data, f, tokens, index, post, render)) <==> !Analyzable(data)
    ensures !Analyzable(data) ==> Apply(v, Analyze(data, f, tokens, index, post, render)) == v.(response := NoDataMessage)
  {
    var evs := Analyze(data, f, tokens, index, post, render);
    if Analyzable(data) {
      assert evs[2].Send?;
    } else {
      ApplyCons(v, Event<Payload>.SetResponse(NoDataMessage), []);
    }
  }

  /** With stored positions the text ends as the reply's error or result, and the flag ends off. */
  lemma AnalyzeOutcome(v: View, data: Option<RecData>, f: Form, tokens: seq<Token>, index: Option<nat>,
                       post: Payload -> AnalyzeReply, render: Render)
    requires Analyzable(data)
    ensures Apply(v, Analyze(data, f, tokens, index, post, render))
         == View(AnalysisText(post(MakePayload(data.value, f, tokens, index)), render), false)
  {
    var payload := MakePayload(data.value, f, tokens, index);
    ApplyRequestReply(v, payload, AnalysisText(post(payload), render));
  }

  /** `handleAnalyze` as written: the POST line throws before anything is sent. */
  function AnalyzeAsWritten(data: Option<RecData>, typeError: string): (evs: seq<Event<Payload>>)
    ensures !Analyzable(data) ==> evs == [SetResponse(NoDataMessage)]
    ensures Analyzable(data) ==> |evs| == 4 && evs[0] == SetLoading(true) && evs[3] == SetLoading(false)
  {
    if !Analyzable(data) then [SetResponse(NoDataMessage)]
    else FailBeforeRequest("ERROR: " + typeError)
  }

  /** As written, no analysis is ever requested, and every attempt past the guard ends on the error. */
  lemma AnalyzeAsWrittenNeverSends(v: View, data: Option<RecData>, typeError: string)
    ensures NoRequests(AnalyzeAsWritten(data, typeError))
    ensures Analyzable(data) ==> Apply(v, AnalyzeAsWritten(data, typeError)) == View("ERROR: " + typeError, false)
  {
    if Analyzable(data) {
      ApplyFailBeforeRequest<Payload>(v, "ERROR: " + typeError);
    }
  }

  /**
   * A submit whose reply has positions makes the panel analyzable, and the
   * whole-list payload carries exactly those positions.
   */
  lemma SubmitThenAnalyze(f: Form, tokens: seq<Token>, base: string, fetch: RecRequest -> Fetched, render: Render,
                          previous: Option<RecData>)
    requires Validate(f).None?
    requires fetch(RecRequest(base, Query(f, tokens))).Fetched?
    requires HasPositions(fetch(RecRequest(base, Query(f, tokens))).data)
    requires FormatResponse(fetch(RecRequest(base, Query(f, tokens))).data, render).Some?
    ensures var d := SubmitData(f, tokens, base, fetch, render, previous);
      && Analyzable(d)
      && MakePayload(d.value, f, tokens, None).positions == fetch(RecRequest(base, Query(f, tokens))).data.positions.value
  {
  }

  // ---------------------------------------------------------------------
  // A run of presses: what the stored reply allows
  // ---------------------------------------------------------------------

  /** A press of the submit button with the form as it stands, or of an analyze button. */
  datatype Press = SubmitPress(form: Form) | AnalyzePress

  /**
   * `responseData` after a run of presses, starting from `data`, with the
   * submit handler as written: the throw at line 102 comes before
   * `setResponseData` at line 108, and analysis never stores a reply.
   */
  function StoredAsWritten(data: Option<RecData>, presses: seq<Press>): Option<RecData>
    decreases |presses|
  {
    if presses == [] then data
    else
      var before := StoredAsWritten(data, presses[..|presses| - 1]);
      match presses[|presses| - 1]
      case SubmitPress(_) => before
      case AnalyzePress => before
  }

  /** `responseData` after a run of presses with the corrected submit handler. */
  function Stored(data: Option<RecData>, presses: seq<Press>, tokens: seq<Token>, base: string,
                  fetch: RecRequest -> Fetched, render: Render): Option<RecData>
    decreases |presses|
  {
    if presses == [] then data
    else
      var before := Stored(data, presses[..|presses| - 1], tokens, base, fetch, render);
      match presses[|presses| - 1]
      case SubmitPress(f) => SubmitData(f, tokens, base, fetch, render, before)
      case AnalyzePress => before
  }

  lemma {:induction false} StoredAsWrittenKeeps(data: Option<RecData>, presses: seq<Press>)
    ensures StoredAsWritten(data, presses) == data
    decreases |presses|
  {
    if presses != [] {
      StoredAsWrittenKeeps(data, presses[..|presses| - 1]);
    }
  }

  /**
   * As written, the panel starts with no stored reply (line 21) and never
   * stores one, so after any run of presses it is not analyzable: every
   * analysis stops at the guard, and the POST line 151 is never reached.
   * (The analyze buttons, lines 529-538 and 635-640, are not even shown.)
   */
  lemma AnalysisUnreachableAsWritten(presses: seq<Press>, typeError: string)
    ensures StoredAsWritten(None, presses) == None
    ensures forall k :: 0 <= k <= |presses| ==> !Analyzable(StoredAsWritten(None, presses[..k]))
    ensures forall k :: 0 <= k <= |presses| ==>
              AnalyzeAsWritten(StoredAsWritten(None, presses[..k]), typeError) == [SetResponse(NoDataMessage)]
  {
    StoredAsWrittenKeeps(None, presses);
    forall k | 0 <= k <= |presses|
      ensures StoredAsWritten(None, presses[..k]) == None
    {
      StoredAsWrittenKeeps(None, presses[..k]);
    }
  }

  /**
   * The throw at line 151 shows once line 102 is corrected: a submit whose
   * reply has positions makes the panel analyzable, and the analysis as
   * written then ends on `ERROR: ` and the TypeError's message.
   */
  lemma AnalysisThrowsOnceSubmitFixed(f: Form, tokens: seq<Token>, base: string, fetch: RecRequest -> Fetched,
                                      render: Render, typeError: string, v: View)
    requires Validate(f).None?
    requires fetch(RecRequest(base, Query(f, tokens))).Fetched?
    requires HasPositions(fetch(RecRequest(base, Query(f, tokens))).data)
    requires FormatResponse(fetch(RecRequest(base, Query(f, tokens))).data, render).Some?
    ensures var d := Stored(None, [SubmitPress(f)], tokens, base, fetch, render);
      && Analyzable(d)
      && NoRequests(AnalyzeAsWritten(d, typeError))
      && Apply(v, AnalyzeAsWritten(d, typeError)) == View("ERROR: " + typeError, false)
  {
    var d := Stored(None, [SubmitPress(f)], tokens, base, fetch, render);
    assert [SubmitPress(f)][..0] == [];
    assert d == SubmitData(f, tokens, base, fetch, render, None);
    SubmitThenAnalyze(f, tokens, base, fetch, render, None);
    AnalyzeAsWrittenNeverSends(v, d, typeError);
  }
}
