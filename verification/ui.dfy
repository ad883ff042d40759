/**
 * The React state a handler drives, seen as the sequence of state-setter
 * calls it makes.  Every handler modelled here owns one `loading`-style flag
 * and one text (`response`, or `llmAnalysis` for the analyze button), and
 * sends at most one request of some type `R`.
 */
module Ui {

  /** One call a handler makes: a flag setter, a text setter, or a request going out. */
  datatype Event<R> = SetLoading(on: bool) | SetResponse(text: string) | Send(request: R)

  /** What the user sees of the handler's state. */
  datatype View = View(response: string, loading: bool)

  function Step<R>(v: View, e: Event<R>): View {
    match e
    case SetLoading(on) => v.(loading := on)
    case SetResponse(text) => v.(response := text)
    case Send(_) => v
  }

  /** The view after the calls `evs`, in order. */
  function Apply<R>(v: View, evs: seq<Event<R>>): View
    decreases |evs|
  {
    if evs == [] then v else Apply(Step(v, evs[0]), evs[1..])
  }

  /** One `setResponse` call per published value. */
  function Publish<R>(texts: seq<string>): (evs: seq<Event<R>>)
    ensures |evs| == |texts|
    ensures forall i :: 0 <= i < |texts| ==> evs[i] == SetResponse(texts[i])
  {
    seq(|texts|, i requires 0 <= i < |texts| => SetResponse(texts[i]))
  }

  predicate NoLoadingCalls<R>(evs: seq<Event<R>>) {
    forall i :: 0 <= i < |evs| ==> !evs[i].SetLoading?
  }

  predicate NoRequests<R>(evs: seq<Event<R>>) {
    forall i :: 0 <= i < |evs| ==> !evs[i].Send?
  }

  lemma NoRequestsAppend<R>(a: seq<Event<R>>, b: seq<Event<R>>)
    requires NoRequests(a) && NoRequests(b)
    ensures NoRequests(a + b)
  {
    forall i | 0 <= i < |a + b|
      ensures !(a + b)[i].Send?
    {
      if i >= |a| {
        assert (a + b)[i] == b[i - |a|];
      }
    }
  }

  /** In opening calls, one request, and further calls without requests, the request is the only one. */
  lemma SingleRequest<R>(evs: seq<Event<R>>, opening: seq<Event<R>>, request: R, mid: seq<Event<R>>, closing: seq<Event<R>>)
    requires evs == opening + ([Send(request)] + mid) + closing
    requires NoRequests(opening) && NoRequests(mid) && NoRequests(closing)
    ensures |evs| > |opening| && evs[|opening|] == Send(request)
    ensures forall i :: 0 <= i < |evs| && i != |opening| ==> !evs[i].Send?
  {
    var body := [Send(request)] + mid;
    forall i | 0 <= i < |evs| && i != |opening|
      ensures !evs[i].Send?
    {
      if i < |opening| {
        assert evs[i] == opening[i];
      } else if i < |opening| + |body| {
        assert evs[i] == body[i - |opening|] == mid[i - |opening| - 1];
      } else {
        assert evs[i] == closing[i - |opening| - |body|];
      }
    }
  }

  lemma ApplyCons<R>(v: View, e: Event<R>, rest: seq<Event<R>>)
    ensures Apply(v, [e] + rest) == Apply(Step(v, e), rest)
  {
    assert ([e] + rest)[1..] == rest;
  }

  /** The opening calls of every handler that sets its flag and clears its text. */
  lemma ApplyOpening<R>(v: View)
    ensures Apply(v, [Event<R>.SetLoading(true), SetResponse("")]) == v.(response := "", loading := true)
  {
    ApplyCons(v, Event<R>.SetLoading(true), [SetResponse("")]);
    ApplyCons(v.(loading := true), Event<R>.SetResponse(""), []);
  }

  lemma {:induction false} ApplyAppend<R>(v: View, a: seq<Event<R>>, b: seq<Event<R>>)
    ensures Apply(v, a + b) == Apply(Apply(v, a), b)
    decreases |a|
  {
    if a == [] {
      assert a + b == b;
    } else {
      assert (a + b)[0] == a[0];
      assert (a + b)[1..] == a[1..] + b;
      ApplyAppend(Step(v, a[0]), a[1..], b);
    }
  }

  /** Calls that never touch the flag leave it as it was. */
  lemma {:induction false} ApplyKeepsLoading<R>(v: View, evs: seq<Event<R>>)
    requires NoLoadingCalls(evs)
    ensures Apply(v, evs).loading == v.loading
    decreases |evs|
  {
    if evs != [] {
      assert !evs[0].SetLoading?;
      ApplyKeepsLoading(Step(v, evs[0]), evs[1..]);
    }
  }

  /** After a run of `setResponse` calls the text is the last value set. */
  lemma {:induction false} ApplyPublish<R>(v: View, texts: seq<string>)
    ensures Apply(v, Publish<R>(texts)) == if texts == [] then v else v.(response := texts[|texts| - 1])
    decreases |texts|
  {
    var evs := Publish<R>(texts);
    if texts != [] {
      assert evs[1..] == Publish<R>(texts[1..]);
      ApplyPublish<R>(v.(response := texts[0]), texts[1..]);
    }
  }

  /** A text setter as the last call decides the text. */
  lemma LastTextWins<R>(v: View, evs: seq<Event<R>>, text: string)
    ensures Apply(v, evs + [SetResponse(text)]).response == text
  {
    ApplyAppend(v, evs, [SetResponse(text)]);
  }

  /** The calls of a handler that sends one request and shows one text, between setting and clearing its flag. */
  function RequestReply<R>(request: R, text: string): (evs: seq<Event<R>>)
    ensures |evs| == 5 && evs[2] == Send(request)
    ensures evs[0] == SetLoading(true) && evs[1] == SetResponse("")
    ensures evs[3] == SetResponse(text) && evs[4] == SetLoading(false)
  {
    [SetLoading(true), SetResponse(""), Send(request), SetResponse(text), SetLoading(false)]
  }

  /** The calls of a handler that fails before its request goes out. */
  function FailBeforeRequest<R>(text: string): (evs: seq<Event<R>>)
    ensures |evs| == 4 && evs[0] == SetLoading(true) && evs[3] == SetLoading(false)
    ensures NoRequests(evs)
  {
    [SetLoading(true), SetResponse(""), SetResponse(text), SetLoading(false)]
  }

  /** A handler that sends one request and sets one text: the text stays and the flag ends off. */
  lemma ApplyRequestReply<R>(v: View, request: R, text: string)
    ensures Apply(v, RequestReply(request, text)) == View(text, false)
  {
    var tail := [Event<R>.Send(request), SetResponse(text), SetLoading(false)];
    assert RequestReply(request, text) == [Event<R>.SetLoading(true), SetResponse("")] + tail;
    ApplyAppend(v, [Event<R>.SetLoading(true), SetResponse("")], tail);
    ApplyOpening<R>(v);
    var w := v.(response := "", loading := true);
    ApplyCons(w, tail[0], tail[1..]);
    ApplyCons(w, tail[1], tail[2..]);
    ApplyCons(w.(response := text), tail[2], []);
  }

  /** A handler that fails before sending: the failure text stays and the flag ends off. */
  lemma ApplyFailBeforeRequest<R>(v: View, text: string)
    ensures Apply(v, FailBeforeRequest<R>(text)) == View(text, false)
  {
    var tail := [Event<R>.SetResponse(text), SetLoading(false)];
    assert FailBeforeRequest<R>(text) == [Event<R>.SetLoading(true), SetResponse("")] + tail;
    ApplyAppend(v, [Event<R>.SetLoading(true), SetResponse("")], tail);
    ApplyOpening<R>(v);
    var w := v.(response := "", loading := true);
    ApplyCons(w, tail[0], tail[1..]);
    ApplyCons(w.(response := text), tail[1], []);
  }

  /**
   * Calls that open by setting the flag, close by clearing it, and leave it
   * alone in between: the flag is on after every proper prefix, off at the end.
   */
  lemma Bracketed<R>(v: View, evs: seq<Event<R>>)
    requires |evs| >= 2 && evs[0] == SetLoading(true) && evs[|evs| - 1] == SetLoading(false)
    requires NoLoadingCalls(evs[1..|evs| - 1])
    ensures forall k :: 0 < k < |evs| ==> Apply(v, evs[..k]).loading
    ensures !Apply(v, evs).loading
  {
    var on := v.(loading := true);
    forall k | 0 < k < |evs|
      ensures Apply(v, evs[..k]).loading
    {
      assert evs[..k] == [evs[0]] + evs[1..k];
      ApplyCons(v, evs[0], evs[1..k]);
      assert evs[1..k] == evs[1..|evs| - 1][..k - 1];
      ApplyKeepsLoading(on, evs[1..k]);
    }
    assert evs == evs[..|evs| - 1] + [SetLoading(false)];
    ApplyAppend(v, evs[..|evs| - 1], [SetLoading(false)]);
    ApplyCons(Apply(v, evs[..|evs| - 1]), Event<R>.SetLoading(false), []);
  }
}
