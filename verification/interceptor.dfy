/** The response interceptor the request helper installs on the HTTP client
    (client/config/http.js, lines 15-31): it lets a response through only when
    the body's application code is the string '0', and turns every other
    outcome into an error whose message names the status and the reason, or
    only the reason when no status is known. A null body is the exception:
    it rejects with the TypeError's own message. */
module Interceptor {
  import opened Outcomes
  import opened Decimal

  /** U+FF1A, the full-width colon that separates status and reason. */
  const Colon: char := '：'

  /** The body's `code` field: only a string can equal '0' under `===`; any
      other value (a number, `undefined`, ...) never does. */
  datatype Code = StringCode(s: string) | OtherCode

  /** The response body. `msg` is the text a template literal renders for the
      body's `msg` field ("undefined" when absent). A null body makes the
      destructuring at line 16 throw a TypeError, whose engine-supplied
      message `typeError` carries. */
  datatype Body<P> = Envelope(code: Code, msg: string, data: P) | NullBody(typeError: string)

  datatype Response<P> = Response(status: nat, body: Body<P>)

  /** The status and status text of the response or request object attached
      to a transport error. */
  datatype StatusLine = StatusLine(status: nat, statusText: string)

  /** A rejection from the transport: its message, and the server response
      and the issued request when there are any. */
  datatype TransportError = TransportError(message: string, response: Option<StatusLine>, request: Option<StatusLine>)

  /** How the transport settled, before the interceptor sees it. */
  datatype Transport<P> = Delivered(response: Response<P>) | Failed(error: TransportError)

  /** What an interceptor error message reports: a status with its reason, or
      a bare reason when no status is known. */
  datatype Reason = StatusReason(status: nat, text: string) | BareReason(text: string)

  /** The message text of a reason: `-{status}：{text}` or `：{text}`. */
  function Render(r: Reason): string {
    match r
    case StatusReason(status, text) => "-" + Show(status) + [Colon] + text
    case BareReason(text) => [Colon] + text
  }

  /** Number of leading digits of `s`. */
  function DigitRun(s: string): (k: nat)
    ensures k <= |s|
    ensures AllDigits(s[..k])
    ensures k < |s| ==> !IsDigit(s[k])
  {
    if |s| == 0 || !IsDigit(s[0]) then 0
    else
      var k := DigitRun(s[1..]);
      assert s[..k + 1] == [s[0]] + s[1..][..k];
      k + 1
  }

  /** Reads a message back into the reason it reports; `None` for text that no
      reason renders to. */
  function Parse(m: string): Option<Reason> {
    if |m| >= 1 && m[0] == '-' then
      var k := DigitRun(m[1..]);
      if 1 + k < |m| && m[1 + k] == Colon && Canonical(m[1..1 + k]) then
        Some(StatusReason(Value(m[1..1 + k]), m[2 + k..]))
      else None
    else if |m| >= 1 && m[0] == Colon then Some(BareReason(m[1..]))
    else None
  }

  lemma {:induction false} DigitRunOfDigits(d: string, rest: string)
    requires AllDigits(d)
    requires |rest| >= 1 && !IsDigit(rest[0])
    ensures DigitRun(d + rest) == |d|
    decreases |d|
  {
    if |d| > 0 {
      assert (d + rest)[1..] == d[1..] + rest;
      DigitRunOfDigits(d[1..], rest);
    }
  }

  /** Every reason can be read back from its message. */
  lemma ParseRender(r: Reason)
    ensures Parse(Render(r)) == Some(r)
  {
    match r
    case StatusReason(status, text) =>
      var d := Show(status);
      var m := Render(r);
      assert m[1..] == d + ([Colon] + text);
      DigitRunOfDigits(d, [Colon] + text);
      assert m[1..1 + |d|] == d;
      assert m[2 + |d|..] == text;
      ValueOfShow(status);
    case BareReason(text) =>
      assert Render(r)[1..] == text;
  }

  /** Every message that parses is the rendering of what it parses to. */
  lemma RenderParse(m: string)
    requires Parse(m).Some?
    ensures Render(Parse(m).value) == m
  {
    if m[0] == '-' {
      var k := DigitRun(m[1..]);
      ShowOfValue(m[1..1 + k]);
      assert m == "-" + m[1..1 + k] + [Colon] + m[2 + k..];
    } else {
      assert m == [Colon] + m[1..];
    }
  }

  /** Distinct reasons give distinct messages: in particular a status message
      is never mistaken for a bare one. */
  lemma RenderInjective(r1: Reason, r2: Reason)
    requires Render(r1) == Render(r2)
    ensures r1 == r2
  {
    ParseRender(r1);
    ParseRender(r2);
  }

  /** `code === '0'` */
  predicate Passes(code: Code) {
    code == StringCode("0")
  }

  /** The fulfilled handler (lines 15-21): the response itself when its code
      is '0'; otherwise an error naming the HTTP status and the body's `msg`,
      whatever that status is. */
  function OnFulfilled<P>(resp: Response<P>): (r: Result<Response<P>, string>)
    ensures r.Ok? <==> resp.body.Envelope? && Passes(resp.body.code)
    ensures r.Ok? ==> r.value == resp
    ensures resp.body.Envelope? && !Passes(resp.body.code) ==>
      r.Err? && Parse(r.error) == Some(StatusReason(resp.status, resp.body.msg))
    ensures resp.body.NullBody? ==> r == Err(resp.body.typeError)
  {
    match resp.body
    case NullBody(typeError) => Err(typeError)
    case Envelope(code, msg, _) =>
      if Passes(code) then Ok(resp)
      else
        ParseRender(StatusReason(resp.status, msg));
        Err(Render(StatusReason(resp.status, msg)))
  }

  /** The object whose status the rejected handler reports: the response when
      present (`error.response || error.request`), else the request. */
  function Source(e: TransportError): Option<StatusLine> {
    if e.response.Some? then e.response else e.request
  }

  /** The rejected handler (lines 22-31): the message of the error it rejects
      with. */
  function OnRejected(e: TransportError): (m: string)
    ensures e.response.Some? ==>
      Parse(m) == Some(StatusReason(e.response.value.status, e.response.value.statusText))
    ensures e.response.None? && e.request.Some? ==>
      Parse(m) == Some(StatusReason(e.request.value.status, e.request.value.statusText))
    ensures e.response.None? && e.request.None? ==> Parse(m) == Some(BareReason(e.message))
  {
    var r := match Source(e)
      case Some(line) => StatusReason(line.status, line.statusText)
      case None => BareReason(e.message);
    ParseRender(r);
    Render(r)
  }

  /** The outcome the request helper's own handlers receive once the
      interceptor has run. A fulfilled handler that rejects does not reach
      the rejected handler of the same interceptor. */
  function Settle<P>(t: Transport<P>): (r: Result<Response<P>, string>)
    ensures r.Ok? <==> t.Delivered? && t.response.body.Envelope? && Passes(t.response.body.code)
    ensures r.Ok? ==> r.value == t.response
  {
    match t
    case Delivered(resp) => OnFulfilled(resp)
    case Failed(e) => Err(OnRejected(e))
  }
}
