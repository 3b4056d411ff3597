/** `Http.request` (client/config/http.js, lines 60-129): one call of the
    request helper, as the URL it dispatches, the side effects it emits in
    order, and how its promise settles. Storage, the loading event bus, the
    notification widget and the transport are inputs and outputs here: the
    stored token is a parameter, the transport's settlement is a parameter,
    and what the helper publishes or shows is an event in the trace. */
module Http {
  import opened Outcomes
  import opened Url
  import opened Interceptor

  /** The options of one call that the helper itself acts on. */
  datatype Options = Options(
    url: string,
    needToken: bool,
    showLoading: bool,
    loadingText: string,
    hideLoading: bool,
    showSuccess: bool,
    successText: string,
    showError: bool,
    errorText: string)

  /** What the caller passed; `None` is an option left out (`undefined`),
      which takes its default. */
  datatype Overrides = Overrides(
    url: string,
    needToken: Option<bool>,
    showLoading: Option<bool>,
    loadingText: Option<string>,
    hideLoading: Option<bool>,
    showSuccess: Option<bool>,
    successText: Option<string>,
    showError: Option<bool>,
    errorText: Option<string>)

  const DefaultLoadingText: string := "正在加载数据"
  const DefaultSuccessText: string := "数据加载成功"
  const DefaultErrorText: string := "数据加载失败"

  /** The defaults of lines 80-87 filled in for the options left out. */
  function Resolve(ov: Overrides): Options {
    Options(
      ov.url,
      ov.needToken.GetOr(true),
      ov.showLoading.GetOr(true),
      ov.loadingText.GetOr(DefaultLoadingText),
      ov.hideLoading.GetOr(true),
      ov.showSuccess.GetOr(true),
      ov.successText.GetOr(DefaultSuccessText),
      ov.showError.GetOr(true),
      ov.errorText.GetOr(DefaultErrorText))
  }

  /** A call that passes only `url`. */
  function Bare(url: string): Overrides {
    Overrides(url, None, None, None, None, None, None, None, None)
  }

  /** A call that passes every option explicitly. */
  function Explicit(o: Options): Overrides {
    Overrides(o.url, Some(o.needToken), Some(o.showLoading), Some(o.loadingText),
      Some(o.hideLoading), Some(o.showSuccess), Some(o.successText),
      Some(o.showError), Some(o.errorText))
  }

  /** Options passed explicitly are the options used: no default overrides
      a value the caller gave. The case of `ResolvePerOption` where every
      option is passed. */
  lemma ResolveExplicit(o: Options)
    ensures Resolve(Explicit(o)) == o
  {
  }

  /** Option by option, a value the caller passes is the value used, and an
      option left out takes its default from lines 80-87, whatever else the
      call passes. */
  lemma ResolvePerOption(ov: Overrides)
    ensures var o := Resolve(ov);
      && o.url == ov.url
      && (ov.needToken.Some? ==> o.needToken == ov.needToken.value)
      && (ov.needToken.None? ==> o.needToken)
      && (ov.showLoading.Some? ==> o.showLoading == ov.showLoading.value)
      && (ov.showLoading.None? ==> o.showLoading)
      && (ov.loadingText.Some? ==> o.loadingText == ov.loadingText.value)
      && (ov.loadingText.None? ==> o.loadingText == DefaultLoadingText)
      && (ov.hideLoading.Some? ==> o.hideLoading == ov.hideLoading.value)
      && (ov.hideLoading.None? ==> o.hideLoading)
      && (ov.showSuccess.Some? ==> o.showSuccess == ov.showSuccess.value)
      && (ov.showSuccess.None? ==> o.showSuccess)
      && (ov.successText.Some? ==> o.successText == ov.successText.value)
      && (ov.successText.None? ==> o.successText == DefaultSuccessText)
      && (ov.showError.Some? ==> o.showError == ov.showError.value)
      && (ov.showError.None? ==> o.showError)
      && (ov.errorText.Some? ==> o.errorText == ov.errorText.value)
      && (ov.errorText.None? ==> o.errorText == DefaultErrorText)
  {
  }

  /** With only `url` given, every behaviour flag is on and the texts are the
      defaults. */
  lemma ResolveBare(url: string)
    ensures Resolve(Bare(url)) ==
      Options(url, true, true, DefaultLoadingText, true, true, DefaultSuccessText, true, DefaultErrorText)
  {
  }

  /** Observable steps of a call, in the order they happen. `Dispatch` marks
      the hand-over to the transport, with the URL handed over. */
  datatype Event =
    | StartLoading(text: string)
    | Dispatch(url: string)
    | StopLoading
    | SuccessNotice(text: string)
    | ErrorNotice(text: string)

  /** Everything one call produces. */
  datatype Call<P> = Call(url: string, events: seq<Event>, result: Result<P, string>)

  /** The loading-start event, emitted before dispatch when `showLoading`. */
  function StartPart(o: Options): seq<Event> {
    if o.showLoading then [StartLoading(o.loadingText)] else []
  }

  /** The loading-stop event, emitted once the transport settles when
      `hideLoading`, on either path. */
  function StopPart(o: Options): seq<Event> {
    if o.hideLoading then [StopLoading] else []
  }

  /** The notification shown for a settled call: `successText` when it
      resolved and `showSuccess`; `errorText` followed by the error's message
      when it rejected and `showError`. */
  function NoticePart<P>(o: Options, result: Result<P, string>): seq<Event> {
    match result
    case Ok(_) => if o.showSuccess then [SuccessNotice(o.successText)] else []
    case Err(m) => if o.showError then [ErrorNotice(o.errorText + m)] else []
  }

  /** The events of a call that dispatched `url` and settled as `result`. */
  function Trace<P>(o: Options, url: string, result: Result<P, string>): seq<Event> {
    StartPart(o) + [Dispatch(url)] + StopPart(o) + NoticePart(o, result)
  }

  /** One call of `Http.request` with storage holding `token` and the
      transport settling as `t`. */
  function Request<P>(o: Options, token: Option<string>, t: Transport<P>): (c: Call<P>)
    ensures c.url == FixUrl(o.url, o.needToken, token)
    ensures c.result.Ok? <==> t.Delivered? && t.response.body.Envelope? && Passes(t.response.body.code)
    ensures c.result.Ok? ==> c.result.value == t.response.body.data
    ensures t.Failed? ==> c.result == Err(OnRejected(t.error))
    ensures t.Delivered? && t.response.body.Envelope? && !Passes(t.response.body.code) ==>
      c.result.Err? && Parse(c.result.error) == Some(StatusReason(t.response.status, t.response.body.msg))
    ensures t.Delivered? && t.response.body.NullBody? ==> c.result == Err(t.response.body.typeError)
    ensures c.events == Trace(o, c.url, c.result)
  {
    var fixed := FixUrl(o.url, o.needToken, token);
    var result := match Settle(t)
      case Ok(resp) => Ok(resp.body.data)
      case Err(m) => Err(m);
    Call(fixed, Trace(o, fixed, result), result)
  }

  /** Number of times `e` occurs in `es`. */
  function Occurrences(es: seq<Event>, e: Event): nat {
    if |es| == 0 then 0 else (if es[0] == e then 1 else 0) + Occurrences(es[1..], e)
  }

  lemma {:induction false} OccurrencesAppend(a: seq<Event>, b: seq<Event>, e: Event)
    ensures Occurrences(a + b, e) == Occurrences(a, e) + Occurrences(b, e)
    decreases |a|
  {
    if |a| > 0 {
      assert (a + b)[0] == a[0];
      assert (a + b)[1..] == a[1..] + b;
      OccurrencesAppend(a[1..], b, e);
    } else {
      assert a + b == b;
    }
  }

  /** Occurrences in a trace are the occurrences in its parts. */
  lemma OccurrencesTrace<P>(o: Options, url: string, result: Result<P, string>, e: Event)
    ensures Occurrences(Trace(o, url, result), e) ==
      Occurrences(StartPart(o), e) + Occurrences([Dispatch(url)], e)
      + Occurrences(StopPart(o), e) + Occurrences(NoticePart(o, result), e)
  {
    OccurrencesAppend(StartPart(o), [Dispatch(url)], e);
    OccurrencesAppend(StartPart(o) + [Dispatch(url)], StopPart(o), e);
    OccurrencesAppend(StartPart(o) + [Dispatch(url)] + StopPart(o), NoticePart(o, result), e);
  }

  /** The stage of the call an event belongs to. */
  function Stage(e: Event): nat {
    match e
    case StartLoading(_) => 0
    case Dispatch(_) => 1
    case StopLoading => 2
    case SuccessNotice(_) => 3
    case ErrorNotice(_) => 3
  }

  /** Stages strictly increase along a trace: loading starts before dispatch,
      loading stops after the transport settles and before the notification,
      and no stage occurs twice. */
  ghost predicate Ordered(es: seq<Event>) {
    forall i, j :: 0 <= i < j < |es| ==> Stage(es[i]) < Stage(es[j])
  }

  /** The trace of every call follows the lifecycle order, and so holds at
      most one notification of either kind. */
  lemma RequestOrdered<P>(o: Options, token: Option<string>, t: Transport<P>)
    ensures Ordered(Request(o, token, t).events)
  {
  }

  /** Loading starts exactly once, with the configured text, iff
      `showLoading`, and then as the first event; the transport is handed the
      dispatched URL exactly once. */
  lemma StartLoadingIffShow<P>(o: Options, token: Option<string>, t: Transport<P>)
    ensures var c := Request(o, token, t);
      && Occurrences(c.events, StartLoading(o.loadingText)) == (if o.showLoading then 1 else 0)
      && (forall i :: 0 <= i < |c.events| && c.events[i].StartLoading? ==>
            i == 0 && c.events[i] == StartLoading(o.loadingText))
      && Occurrences(c.events, Dispatch(c.url)) == 1
  {
    var c := Request(o, token, t);
    OccurrencesTrace(o, c.url, c.result, StartLoading(o.loadingText));
    OccurrencesTrace(o, c.url, c.result, Dispatch(c.url));
  }

  /** Loading stops exactly once iff `hideLoading`, whether the call resolved
      or rejected. */
  lemma StopLoadingOnce<P>(o: Options, token: Option<string>, t: Transport<P>)
    ensures Occurrences(Request(o, token, t).events, StopLoading) == (if o.hideLoading then 1 else 0)
  {
    var c := Request(o, token, t);
    OccurrencesTrace(o, c.url, c.result, StopLoading);
  }

  /** A resolved call shows the success text exactly once iff `showSuccess`,
      and shows no error. */
  lemma SuccessNotification<P>(o: Options, token: Option<string>, t: Transport<P>)
    requires Request(o, token, t).result.Ok?
    ensures var c := Request(o, token, t);
      && Occurrences(c.events, SuccessNotice(o.successText)) == (if o.showSuccess then 1 else 0)
      && (forall i :: 0 <= i < |c.events| && c.events[i].SuccessNotice? ==>
            c.events[i].text == o.successText)
      && forall i :: 0 <= i < |c.events| ==> !c.events[i].ErrorNotice?
  {
    var c := Request(o, token, t);
    OccurrencesTrace(o, c.url, c.result, SuccessNotice(o.successText));
  }

  /** A rejected call shows `errorText` followed by the message it rejects
      with, exactly once iff `showError`, shows no other error text and no
      success. */
  lemma ErrorNotification<P>(o: Options, token: Option<string>, t: Transport<P>)
    requires Request(o, token, t).result.Err?
    ensures var c := Request(o, token, t);
      && Occurrences(c.events, ErrorNotice(o.errorText + c.result.error)) == (if o.showError then 1 else 0)
      && (forall i :: 0 <= i < |c.events| && c.events[i].ErrorNotice? ==>
            c.events[i].text == o.errorText + c.result.error)
      && forall i :: 0 <= i < |c.events| ==> !c.events[i].SuccessNotice?
  {
    var c := Request(o, token, t);
    OccurrencesTrace(o, c.url, c.result, ErrorNotice(o.errorText + c.result.error));
  }

  /** A response with an accepted HTTP status but an application code other
      than '0' still rejects, with `-{status}：{msg}`, and the error
      notification shows that message. */
  lemma BusinessFailureDespite2xx<P>(o: Options, token: Option<string>, status: nat, code: Code, msg: string, data: P)
    requires 200 <= status < 300 && !Passes(code)
    ensures var c := Request(o, token, Delivered(Response(status, Envelope(code, msg, data))));
      && c.result.Err?
      && Parse(c.result.error) == Some(StatusReason(status, msg))
      && (o.showError ==> ErrorNotice(o.errorText + c.result.error) in c.events)
  {
  }

  /** A transport failure rejects with a message that reports the
      response's status and status text when there is a response, else the
      request's, else the transport's own message after a colon. */
  lemma TransportFailureReason<P>(o: Options, token: Option<string>, e: TransportError)
    ensures var c := Request<P>(o, token, Failed(e));
      && c.result.Err?
      && Parse(c.result.error) == Some(
        match Source(e)
        case Some(line) => StatusReason(line.status, line.statusText)
        case None => BareReason(e.message))
  {
  }

  /** A call that passes only `url` shows the whole lifecycle: loading with
      the default text, dispatch of the URL carrying the token, loading
      stopped, and the default success or error text. */
  lemma BareCallLifecycle<P>(url: string, token: Option<string>, t: Transport<P>)
    ensures var c := Request(Resolve(Bare(url)), token, t);
      && c.url == url + [Separator(url)] + "token=" + RenderToken(token)
      && |c.events| == 4
      && c.events[0] == StartLoading(DefaultLoadingText)
      && c.events[1] == Dispatch(c.url)
      && c.events[2] == StopLoading
      && c.events[3] == (match c.result
                         case Ok(_) => SuccessNotice(DefaultSuccessText)
                         case Err(m) => ErrorNotice(DefaultErrorText + m))
  {
  }

  /** Options of the example calls: `url` '/api/items' without a token, the
      other options at their defaults. */
  function ItemsCall(): Options {
    Resolve(Overrides("/api/items", Some(false), None, None, None, None, None, None, None))
  }

  /** Code '0' with HTTP 200 resolves with the nested payload [1,2,3]. */
  lemma ItemsResolve()
    ensures Request(ItemsCall(), None, Delivered(Response(200, Envelope(StringCode("0"), "undefined", [1, 2, 3])))).result
      == Ok([1, 2, 3])
  {
  }

  lemma RenderBadRequest()
    ensures Render(StatusReason(200, "bad request")) == "-200：bad request"
  {
    assert Decimal.Show(2) == "2";
    assert Decimal.Show(20) == "20";
    assert Decimal.Show(200) == "200";
  }

  lemma RenderTimeout()
    ensures Render(StatusReason(0, "timeout")) == "-0：timeout"
  {
    assert Decimal.Show(0) == "0";
  }

  /** Code '1' with HTTP 200 rejects with "-200：bad request". */
  lemma ItemsBadRequest()
    ensures Request(ItemsCall(), None, Delivered(Response(200, Envelope(StringCode("1"), "bad request", [0])))).result
      == Err("-200：bad request")
  {
    var c := Request(ItemsCall(), None, Delivered(Response(200, Envelope(StringCode("1"), "bad request", [0]))));
    RenderParse(c.result.error);
    RenderBadRequest();
  }

  /** A timeout with only a request object rejects with "-0：timeout". */
  lemma ItemsTimeout()
    ensures Request<int>(ItemsCall(), None, Failed(TransportError("timeout of 2000ms exceeded", None, Some(StatusLine(0, "timeout"))))).result
      == Err("-0：timeout")
  {
    var c := Request<int>(ItemsCall(), None, Failed(TransportError("timeout of 2000ms exceeded", None, Some(StatusLine(0, "timeout")))));
    RenderParse(c.result.error);
    RenderTimeout();
  }
}
