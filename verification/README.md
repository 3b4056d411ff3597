# Request helper of znode-app, modelled in Dafny

`client/config/http.js` wraps the axios HTTP client for the browser client.
By default each `Http.request(options)` call does three things, each of
which the caller can switch off:

- It appends the stored authentication token to the URL as a `token` query
  parameter (`needToken`).
- It publishes `startLoading`/`stopLoading` on a global event bus around the
  transport call (`showLoading`, `hideLoading`).
- It shows a success or error notification (`showSuccess`, `showError`).

Every call settles its promise once.

The promise settles with the payload nested in the response body, or with an
error. The error comes from a response interceptor, which accepts a response
only when the body's application `code` is the string `'0'`. Every other
outcome becomes an error whose message has the form `-{status}：{reason}` or
`：{message}`, except a null body, which rejects with the TypeError's own
message. The colon is the full-width colon U+FF1A.

The model is a set of pure functions:

- `Http.Request(options, token, transport)` returns the dispatched URL, the
  ordered trace of side effects, and the settlement (`Ok(payload)` or
  `Err(message)`).
- The stored token is an input. It is `Option<string>` because storage
  answers `null` for a missing key.
- The transport's settlement is also an input (`Interceptor.Transport`): a
  delivered response, or a failure with or without a response or request
  object.
- The loading events, the transport hand-over (`Dispatch`) and the
  notifications are `Http.Event`s in the trace.

The modules follow the pieces of the source file:

| module | file | what it holds |
|---|---|---|
| `Outcomes` | outcomes.dfy | `Option` and `Result` |
| `Decimal` | decimal.dfy | how `${status}` renders a number, and the parser that reads it back |
| `Text` | text.dfy | an `indexOf` that agrees with JavaScript's on absence, and `&`-splitting of a query string |
| `Url` | url.dfy | token augmentation of the URL; the query parameters a server reads |
| `Interceptor` | interceptor.dfy | the response interceptor's two handlers; error messages rendered and parsed |
| `Http` | http.dfy | options and their defaults, the event trace, one call of `Http.request` |

Each operation has a partner that is defined independently:

- URL augmentation is paired with `Url.QueryParams`, the parameter list a
  server would read from the URL.
- Message synthesis is paired with `Interceptor.Parse`, which reads a message
  back into the status and reason it reports. Both round trips are proved.
- The event trace is paired with occurrence counts and a stage order
  (`Http.Ordered`).

The model is deterministic by construction. Two calls with equal options,
token and transport outcome give equal results, and no state is shared
between calls.

Behaviour of the code worth knowing, which the model keeps:

- Bare errors. A transport error with neither response nor request does not
  pass its message through unchanged: line 28 puts a full-width colon before
  it, and so does `Interceptor.OnRejected`.
- Token placement. The token is appended as text and never URL-encoded. In
  a URL with `#` it therefore ends up in the fragment
  (`Url.FragmentSwallowsToken`), and a token containing `&` splits into
  several parameters. `Url.TokenIsLastParam` states the query-parameter
  property for fragment-free URLs and tokens free of `&` and `#`.
- Null body. A response whose body is `null` or `undefined` makes the
  destructuring at line 16 throw a TypeError inside the fulfilled handler.
  That rejection does not reach the same interceptor's rejected handler. So
  the call rejects with the engine's TypeError message unchanged
  (`Interceptor.Body.NullBody`).

## Model

| member | source | states |
|---|---|---|
| `Decimal.Show` | client/config/http.js:20 | the rendered status is a canonical decimal: non-empty, only digits, no leading zero; one digit exactly for statuses below 10 |
| `Decimal.ValueOfShow` | client/config/http.js:26 | reading back a rendered status gives the status |
| `Decimal.ShowOfValue` | client/config/http.js:26 | every canonical digit string is the rendering of the number it denotes |
| `Decimal.ShowInjective` | client/config/http.js:20 | different statuses render differently |
| `Text.IndexOf` | client/config/http.js:92 | `indexOf` gives -1 exactly when the character is absent; otherwise the position of its first occurrence |
| `Url.Separator` | client/config/http.js:92 | the separator is `?` exactly when the URL has no `?`, and `&` exactly when it has one |
| `Url.RenderToken` | client/config/http.js:93 | a stored token appears verbatim; a missing one (`null`) appears as "null" |
| `Url.FixUrl` | client/config/http.js:90-94 | without `needToken` the URL is unchanged. With it, the caller's URL is a prefix, followed by the separator and then `token=` with the rendered token |
| `Url.TokenIsLastParam` | client/config/http.js:91-93 | for a fragment-free URL and a token free of `&` and `#`, augmentation adds exactly one query parameter, `token=<token>`, after the URL's own parameters |
| `Url.FragmentSwallowsToken` | client/config/http.js:91-93 | when the URL has a fragment, the token lands inside it: the query parameters the server reads are exactly the URL's own |
| `Interceptor.ParseRender` | client/config/http.js:20-28 | every synthesized message can be parsed back into the status and reason, or the bare reason, it was built from |
| `Interceptor.RenderParse` | client/config/http.js:20-28 | every message that parses is exactly the rendering of what it parses to |
| `Interceptor.RenderInjective` | client/config/http.js:20-28 | distinct reasons give distinct messages; a status message never looks like a bare one |
| `Interceptor.OnFulfilled` | client/config/http.js:15-21 | a response passes through unchanged iff its body's code is the string '0'. Any other code rejects with a message reporting the HTTP status and `msg`. A null body rejects with the TypeError's message |
| `Interceptor.OnRejected` | client/config/http.js:22-31 | a transport error's message reports the response's status and statusText when there is a response, else the request's. With neither, it is the error's own message after a colon |
| `Interceptor.Settle` | client/config/http.js:15-31 | the interceptor lets a call through exactly when the transport delivered a body whose code is '0', and then the response is unchanged |
| `Http.ResolvePerOption` | client/config/http.js:80-88 | for every call, each option the caller passes is the value used, and each option left out takes its default from lines 80-87: true for the five flags, the three default texts |
| `Http.ResolveExplicit` | client/config/http.js:80-88 | a call that passes every option uses exactly the options it passed |
| `Http.ResolveBare` | client/config/http.js:80-87 | with only `url` given, token, loading, success and error behaviour are all on, with the default texts |
| `Http.Request` | client/config/http.js:89-128 | the dispatched URL is the augmented URL. The call resolves iff the transport delivered code '0', and then with the nested payload `data.data`. A failure rejects with the interceptor's message; a null body rejects with the TypeError's message. The trace is loading start, dispatch, loading stop and notification, each as configured |
| `Http.RequestOrdered` | client/config/http.js:95-127 | the events of a call go strictly in the order start loading, dispatch, stop loading, notification, and no stage occurs twice |
| `Http.StartLoadingIffShow` | client/config/http.js:95-117 | loading starts exactly once, with `loadingText`, iff `showLoading`, and is then the first event. The transport is handed the dispatched URL exactly once |
| `Http.StopLoadingOnce` | client/config/http.js:118-127 | loading stops exactly once iff `hideLoading`, on the success and the failure path alike |
| `Http.SuccessNotification` | client/config/http.js:118-122 | a resolved call shows `successText` exactly once iff `showSuccess`, shows no success notice with any other text, and shows no error |
| `Http.ErrorNotification` | client/config/http.js:123-127 | a rejected call shows `errorText` followed by the message it rejects with, exactly once iff `showError`. It shows no other error text and no success |
| `Http.BusinessFailureDespite2xx` | client/config/http.js:15-21 | a 2xx response whose code is not '0' still rejects with the status and `msg`, and the error notification shows that message |
| `Http.TransportFailureReason` | client/config/http.js:22-31 | a transport failure rejects with a message that parses to the response's status line, else the request's, else the bare transport message |
| `Http.BareCallLifecycle` | client/config/http.js:80-127 | a call passing only `url` dispatches the URL with the token and emits exactly four events: start with the default text, dispatch, stop, and the default notification |
| `Http.ItemsResolve` | client/config/http.js:118-121 | '/api/items' without token, HTTP 200 and code '0' resolves with [1,2,3] |
| `Http.ItemsBadRequest` | client/config/http.js:17-21 | HTTP 200 with code '1' and msg 'bad request' rejects with "-200：bad request" |
| `Http.ItemsTimeout` | client/config/http.js:24-26 | a failure with only a request object of status 0 and statusText 'timeout' rejects with "-0：timeout" |

## Left out

- The request interceptor at lines 9-13. Its fulfilled handler is `null`, so requests pass through it. Whether its rejection handler ever runs depends on axios's chaining rules, which the source does not show.
- The axios transport: the network call, timeouts, `validateStatus`, `maxContentLength` and the other transport behaviour. The transport's settlement is an input.
- The transport options of lines 61-79 and 97-117 (method, baseURL, params, headers, timeout and the rest). They are forwarded to axios unchanged, and only the URL is altered.
- `message.config` (line 4) and the antd notification widget, `localStorage` and `window.eventEmitter`. They are browser globals. They appear as the token parameter and the events of the trace.
- Promise mechanics and concurrent calls. Each call settles once. How loading events of concurrent calls interleave is not modelled.
- An exception thrown by the event bus or the notification widget inside the success handler. It would move the call into the `.catch` branch, which emits `stopLoading` a second time. These globals are taken not to throw.
- A call without `url`. The parameter documentation marks `url` as required, so it is a `string` here. Called without one and with `needToken`, line 92 would throw before any event.
- Option flags passed as non-boolean values such as `null`. The defaults written at lines 80-87 apply only for `undefined`, and JavaScript truthiness would then decide. The model's flags are booleans.
- JavaScript string and number details the core does not reach. Dafny strings are Unicode scalar values rather than UTF-16 code units, so `Text.IndexOf` positions differ from JavaScript's after characters outside the Basic Multilingual Plane, and lone surrogates cannot be represented. Line 92 only tests the result against -1, where the two agree. `Decimal.Show` writes every number in plain digits, while a template literal switches to exponent form from 1e21; HTTP statuses are at most 65535.
- build/webpack.config.client.js: bundler configuration with no runtime logic.
