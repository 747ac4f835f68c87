/**
 * The schema resolver (`fetchSchema`): a process-lifetime cache from the
 * schema URL as written in a document to the parsed schema, consulted before
 * any network access, and a single GET of the URL's raw-content form when the
 * cache misses.
 */
module Resolver {
  import opened Common
  import opened Text
  import opened Values

  /** What `JSON.parse` makes of a response body. */
  datatype Body = Json(value: Value) | Malformed(reason: string)

  /**
   * The abstract outcome of one `https.get` call: an answer with a status and
   * a body, an `error` event (the request was sent and failed), or a
   * synchronous throw before any request is sent (the rewritten URL does not
   * parse, or its protocol is not `https:`).
   */
  datatype Response = Http(status: nat, body: Body) | NetworkError(message: string) | Refused(message: string)

  /** One GET issued by the resolver: the URL as written, the URL requested, and whether the schema was cached. */
  datatype Fetch = Fetch(url: string, rawUrl: string, cached: bool)

  /** Why a `fetchSchema` promise rejects. */
  datatype FetchError =
    | NotAString        // the URL is not a string, so `url.replace` is not a function
    | BadJson(reason: string)
    | HttpStatus(status: nat)
    | Network(message: string)
    | Thrown(message: string)    // `https.get` threw inside the promise executor
  {
    /** The rejection's `error.message`. */
    function Message(): string {
      match this
      case NotAString => "url.replace is not a function"
      case BadJson(reason) => "Failed to parse schema JSON: " + reason
      case HttpStatus(status) => "Failed to fetch schema: HTTP " + Decimal(status)
      case Network(message) => "Network error: " + message
      case Thrown(message) => message
    }
  }

  /**
   * The recorded message tells the three rejections of a sent request apart:
   * a body that is not JSON, a non-200 status and a network error never
   * produce the same text, whatever their details.
   */
  lemma FetchMessagesDistinct(e1: FetchError, e2: FetchError)
    requires e1.BadJson? || e1.HttpStatus? || e1.Network?
    requires e2.BadJson? || e2.HttpStatus? || e2.Network?
    requires e1.Message() == e2.Message()
    ensures e1.BadJson? <==> e2.BadJson?
    ensures e1.HttpStatus? <==> e2.HttpStatus?
    ensures e1.Network? <==> e2.Network?
  {
    var m := e1.Message();
    if e1.Network? || e2.Network? {
      assert m[0] == 'N' <==> e1.Network?;
      assert m[0] == 'N' <==> e2.Network?;
    } else {
      assert m[10] == 'p' <==> e1.BadJson?;
      assert m[10] == 'p' <==> e2.BadJson?;
    }
  }

  /** The result of one `fetchSchema` call, the cache after it and the GETs it issued. */
  datatype Resolution = Resolution(result: Result<Value, FetchError>, cache: map<string, Value>, fetches: seq<Fetch>)

  const GitHubHost := "github.com"
  const RawHost := "raw.githubusercontent.com"
  const BlobSegment := "/blob/"

  /**
   * The GitHub "view" URL rewritten to its raw-content counterpart: the first
   * `github.com` becomes `raw.githubusercontent.com`, then the first `/blob/`
   * of that string becomes `/`.
   */
  function RawUrl(url: string): string {
    ReplaceFirst(ReplaceFirst(url, GitHubHost, RawHost), BlobSegment, "/")
  }

  /** A URL containing neither `github.com` nor `/blob/` is fetched as written. */
  lemma RawUrlUnchanged(url: string)
    requires forall i :: !OccursAt(url, GitHubHost, i)
    requires forall i :: !OccursAt(url, BlobSegment, i)
    ensures RawUrl(url) == url
  {
    ReplaceFirstSpec(url, GitHubHost, RawHost);
    ReplaceFirstSpec(url, BlobSegment, "/");
  }

  /** In an `https://github.com...` URL, the first `github.com` is the host. */
  lemma {:induction false} HostAfterScheme(url: string, tail: string)
    requires url == "https://" + GitHubHost + tail
    ensures FirstAt(url, GitHubHost, 8)
  {
    forall j | 0 <= j < 8 ensures !OccursAt(url, GitHubHost, j) {
      assert url[j] != 'g';
    }
    assert url[8..18] == GitHubHost;
  }

  /** The first replacement turns the GitHub host into the raw-content host. */
  lemma {:induction false} RewriteHost(url: string, tail: string) returns (u: string)
    requires url == "https://" + GitHubHost + tail
    ensures u == ReplaceFirst(url, GitHubHost, RawHost)
    ensures u == "https://" + RawHost + tail
  {
    HostAfterScheme(url, tail);
    ReplaceFirstAt(url, GitHubHost, RawHost, "https://", tail);
    u := ReplaceFirst(url, GitHubHost, RawHost);
  }

  /** `https://raw.githubusercontent.com` holds no `/blob/`, even one running on past it. */
  lemma {:induction false} NoBlobInRawHost(u: string, p: string, t: string)
    requires p == "https://" + RawHost && u == p + t
    ensures forall j :: 0 <= j < |p| ==> !OccursAt(u, BlobSegment, j)
  {
    forall j | 0 <= j < |p| ensures !OccursAt(u, BlobSegment, j) {
      if j + |BlobSegment| <= |u| {
        assert u[j] == p[j];
        if j == 6 || j == 7 {
          assert u[j + 1] == p[j + 1];
        }
      }
    }
  }

  /**
   * The first `pat` of `u` is the one ending the segment `a` behind `p`, when
   * none starts inside `p` and `a + pat` holds none earlier.
   */
  lemma {:induction false} FirstAfterPrefix(u: string, p: string, a: string, pat: string, rest: string)
    requires u == p + ((a + pat) + rest)
    requires forall j :: 0 <= j < |p| ==> !OccursAt(u, pat, j)
    requires FirstAt(a + pat, pat, |a|)
    ensures u == (p + a) + pat + rest
    ensures FirstAt(u, pat, |p| + |a|)
  {
    assert p + ((a + pat) + rest) == (p + a) + pat + rest;
    FirstBehind(p, a + pat, rest, pat, |a|);
  }

  /** The second replacement, applied to the result of the first. */
  lemma {:induction false} RewriteBlob(url: string, u: string, a: string, rest: string)
    requires u == ReplaceFirst(url, GitHubHost, RawHost)
    requires u == a + BlobSegment + rest && FirstAt(u, BlobSegment, |a|)
    ensures RawUrl(url) == a + "/" + rest
  {
    ReplaceFirstAt(u, BlobSegment, "/", a, rest);
  }

  /**
   * A GitHub "view" URL `https://github.com/<repo>/blob/<rest>` is fetched as
   * `https://raw.githubusercontent.com/<repo>/<rest>`, provided the `/blob/`
   * after the repository part is the first one in `/<repo>/blob/`.
   */
  lemma {:induction false} RawUrlOfBlobUrl(url: string, repo: string, rest: string)
    requires url == "https://" + GitHubHost + "/" + repo + BlobSegment + rest
    requires IndexOf("/" + repo + BlobSegment, BlobSegment) == Some(|repo| + 1)
    ensures RawUrl(url) == "https://" + RawHost + "/" + repo + "/" + rest
  {
    var tail := ("/" + repo + BlobSegment) + rest;
    Regroup("https://", GitHubHost, "/", repo, BlobSegment, rest);
    var u := RewriteHost(url, tail);
    var p := "https://" + RawHost;
    NoBlobInRawHost(u, p, tail);
    FirstAfterPrefix(u, p, "/" + repo, BlobSegment, rest);
    RewriteBlob(url, u, p + ("/" + repo), rest);
    Regroup("https://", RawHost, "/", repo, "/", rest);
  }

  /** Regrouping the concatenations that build the URLs above. */
  lemma Regroup(a: string, b: string, c: string, d: string, e: string, f: string)
    ensures a + b + c + d + e + f == a + b + ((c + d + e) + f)
    ensures a + b + c + d + e + f == ((a + b) + (c + d)) + e + f
  {
  }

  /** The schema a response delivers, or the message the promise rejects with. */
  function Receive(response: Response): (r: Result<Value, FetchError>)
    ensures r.Success? <==> response.Http? && response.status == 200 && response.body.Json?
    ensures r.Success? ==> r.value == response.body.value
    ensures response.Refused? ==> r == Failure(Thrown(response.message))
  {
    match response
    case NetworkError(message) => Failure(Network(message))
    case Refused(message) => Failure(Thrown(message))
    case Http(status, body) =>
      if status == 200 then
        match body
        case Json(schema) => Success(schema)
        case Malformed(reason) => Failure(BadJson(reason))
      else
        Failure(HttpStatus(status))
  }

  /**
   * `fetchSchema(url)` against the cache `cache`, where `response` is what a
   * GET would receive. Only string URLs reach the cache: any other value
   * misses it and then fails on `url.replace`, before any GET. A refused
   * URL fails with `https.get`'s own message, also before any GET.
   */
  function Resolve(cache: map<string, Value>, url: Value, response: Response): (r: Resolution)
    ensures url.Str? && url.s in cache ==> r == Resolution(Success(cache[url.s]), cache, [])
    ensures !url.Str? ==> r == Resolution(Failure(NotAString), cache, [])
    ensures r.fetches != [] <==> url.Str? && url.s !in cache && !response.Refused?
    ensures r.fetches != [] ==> r.fetches == [Fetch(url.s, RawUrl(url.s), r.result.Success?)]
    ensures url.Str? && url.s !in cache ==> r.result == Receive(response)
    ensures r.result.Success? ==> url.Str? && r.cache == cache[url.s := r.result.value]
    ensures r.result.Failure? ==> r.cache == cache
  {
    if url.Str? && url.s in cache then
      Resolution(Success(cache[url.s]), cache, [])
    else if !url.Str? then
      Resolution(Failure(NotAString), cache, [])
    else
      var rawUrl := RawUrl(url.s);
      var received := Receive(response);
      var cache' := if received.Success? then cache[url.s := received.value] else cache;
      var fetches := if response.Refused? then [] else [Fetch(url.s, rawUrl, received.Success?)];
      Resolution(received, cache', fetches)
  }

  /** `cache'` keeps every entry of `cache`. */
  predicate Extends(cache: map<string, Value>, cache': map<string, Value>) {
    forall k :: k in cache ==> k in cache' && cache'[k] == cache[k]
  }

  /** A cache hit returns the cached schema, issues no GET and leaves the cache as it was. */
  lemma CacheHit(cache: map<string, Value>, url: string, response: Response)
    requires url in cache
    ensures Resolve(cache, Str(url), response) == Resolution(Success(cache[url]), cache, [])
  {
  }

  /**
   * The cache only grows, and gains an entry exactly when a GET answered 200
   * with a body that parses; the entry is keyed by the URL as written, not by
   * the rewritten one.
   */
  lemma CacheGrowsOnlyOnSuccess(cache: map<string, Value>, url: Value, response: Response)
    ensures var r := Resolve(cache, url, response);
      && Extends(cache, r.cache)
      && (r.cache.Keys != cache.Keys <==>
            url.Str? && url.s !in cache && response.Http? && response.status == 200 && response.body.Json?)
      && (r.cache.Keys != cache.Keys ==> r.cache.Keys == cache.Keys + {url.s} && r.cache[url.s] == response.body.value)
  {
  }

  /** The resolver's state: the schema cache of the running process. */
  class SchemaResolver {
    var cache: map<string, Value>
    /** Every GET issued so far, in order. */
    ghost var fetches: seq<Fetch>

    constructor ()
      ensures cache == map[] && fetches == []
    {
      cache := map[];
      fetches := [];
    }

    /** `fetchSchema(url)`, with `response` standing for the answer a GET would get. */
    method FetchSchema(url: Value, response: Response) returns (result: Result<Value, FetchError>)
      modifies this
      ensures var r := Resolve(old(cache), url, response);
        result == r.result && cache == r.cache && fetches == old(fetches) + r.fetches
      ensures Extends(old(cache), cache)
    {
      if url.Str? && url.s in cache {
        return Success(cache[url.s]);
      }
      if !url.Str? {
        return Failure(NotAString);
      }
      var rawUrl := RawUrl(url.s);
      result := Receive(response);
      if result.Success? {
        cache := cache[url.s := result.value];
      }
      if !response.Refused? {
        fetches := fetches + [Fetch(url.s, rawUrl, result.Success?)];
      }
    }
  }
}
