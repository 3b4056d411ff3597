/** The URL the request helper dispatches: the caller's `url`, with the
    stored token appended as a `token` query parameter when the call asks
    for one (client/config/http.js, lines 90-94). */
module Url {
  import opened Outcomes
  import opened Text

  /** The separator put before `token=`: '?' when the URL has no '?' yet
      (`url.indexOf('?') === -1`), '&' otherwise. */
  function Separator(url: string): (sep: char)
    ensures sep == '?' <==> '?' !in url
    ensures sep == '&' <==> '?' in url
  {
    if IndexOf(url, '?') == -1 then '?' else '&'
  }

  /** The text a template literal gives the token read from storage: storage
      answers `null` for a missing key, which renders as "null". */
  function RenderToken(token: Option<string>): (t: string)
    ensures token.Some? ==> t == token.value
    ensures token.None? ==> t == "null"
  {
    token.GetOr("null")
  }

  /** The URL handed to the transport. */
  function FixUrl(url: string, needToken: bool, token: Option<string>): (fixed: string)
    ensures !needToken ==> fixed == url
    ensures needToken ==>
      && url <= fixed
      && |fixed| == |url| + 1 + |"token="| + |RenderToken(token)|
      && fixed[|url|] == Separator(url)
      && fixed[|url| + 1..] == "token=" + RenderToken(token)
  {
    if needToken then url + [Separator(url)] + "token=" + RenderToken(token) else url
  }

  /** The part of `u` before its fragment. */
  function BeforeFragment(u: string): (r: string)
    ensures r <= u
    ensures '#' !in r
    ensures '#' !in u ==> r == u
  {
    var h := IndexOf(u, '#');
    if h == -1 then u else u[..h]
  }

  /** The query parameters of `u`, in order, as the server receives them: the
      `&`-separated pieces between the first '?' and the fragment; none when
      there is no '?'. */
  function QueryParams(u: string): seq<string>
  {
    var v := BeforeFragment(u);
    var q := IndexOf(v, '?');
    if q == -1 then [] else Split(v[q + 1..], '&')
  }

  lemma NotInAppend(a: string, b: string, c: char)
    requires c !in a && c !in b
    ensures c !in a + b
  {
    assert forall k :: 0 <= k < |a + b| ==> (a + b)[k] == (if k < |a| then a[k] else b[k - |a|]);
  }

  /** Appending `&<p>` to a fragment-free URL that already has a query adds
      `p` as its last parameter. */
  lemma AppendToQuery(url: string, p: string)
    requires '#' !in url && '#' !in p && '&' !in p
    requires '?' in url
    ensures QueryParams(url + ['&'] + p) == QueryParams(url) + [p]
  {
    var tail := ['&'] + p;
    var u := url + tail;
    assert url + ['&'] + p == u;
    NotInAppend(['&'], p, '#');
    NotInAppend(url, tail, '#');
    var q := IndexOf(url, '?');
    IndexOfInPrefix(url, tail, '?');
    var query := url[q + 1..];
    assert u[q + 1..] == query + ['&'] + p;
    SplitAppend(query, p, '&');
    SplitWithout(p, '&');
  }

  /** Appending `?<p>` to a fragment-free URL without a query makes `p` its
      only parameter. */
  lemma StartQuery(url: string, p: string)
    requires '#' !in url && '#' !in p && '&' !in p
    requires '?' !in url
    ensures QueryParams(url + ['?'] + p) == [p]
  {
    var tail := ['?'] + p;
    var u := url + tail;
    assert url + ['?'] + p == u;
    NotInAppend(['?'], p, '#');
    NotInAppend(url, tail, '#');
    IndexOfAfterPrefix(url, tail, '?');
    assert u[|url| + 1..] == p;
    SplitWithout(p, '&');
  }

  /** With a fragment-free URL and a token free of '&' and '#', augmenting
      adds exactly one query parameter, `token=<token>`, after the URL's own
      parameters, whichever separator was chosen. */
  lemma TokenIsLastParam(url: string, token: Option<string>)
    requires '#' !in url
    requires '&' !in RenderToken(token) && '#' !in RenderToken(token)
    ensures QueryParams(FixUrl(url, true, token)) == QueryParams(url) + ["token=" + RenderToken(token)]
  {
    var t := RenderToken(token);
    var p := "token=" + t;
    NotInAppend("token=", t, '&');
    NotInAppend("token=", t, '#');
    assert FixUrl(url, true, token) == url + [Separator(url)] + p;
    if '?' in url {
      AppendToQuery(url, p);
    } else {
      StartQuery(url, p);
    }
  }

  /** Text after a fragment does not move the fragment's start. */
  lemma BeforeFragmentExtend(url: string, tail: string)
    requires '#' in url
    ensures BeforeFragment(url + tail) == BeforeFragment(url)
  {
    IndexOfInPrefix(url, tail, '#');
    var h := IndexOf(url, '#');
    assert (url + tail)[..h] == url[..h];
  }

  /** URLs that agree up to their fragments carry the same query. */
  lemma SameQuery(u: string, v: string)
    requires BeforeFragment(u) == BeforeFragment(v)
    ensures QueryParams(u) == QueryParams(v)
  {
  }

  /** When the URL has a fragment, the token is appended inside the
      fragment: the query parameters the server reads are the URL's own, and
      no `token` parameter is among them. */
  lemma FragmentSwallowsToken(url: string, token: Option<string>)
    requires '#' in url
    ensures QueryParams(FixUrl(url, true, token)) == QueryParams(url)
  {
    var tail := [Separator(url)] + "token=" + RenderToken(token);
    assert FixUrl(url, true, token) == url + tail;
    BeforeFragmentExtend(url, tail);
    SameQuery(FixUrl(url, true, token), url);
  }
}
