/** The request handlers of server.go that carry logic: the JSON cache-put and stub handlers over
    the shared cache, the demo-page handler and the echo handler. The fake-JSON generator
    (`makeFakeJson`) is not modelled: each handler receives the text that call produced as the
    parameter `generated`. The file system is the parameter `files`. */
module Handlers {
  import opened Results
  import opened Strings
  import opened Http
  import opened Resolver
  import opened Pages
  import opened ResponseCache

  /** `cache_seconds`: the max-age sent with a prefetched JSON response. */
  const CacheSeconds: string := "60"

  /** The value of the Cache-Control header the stub handler adds for a prefetch. */
  const CacheControlValue: string := "private, max-age=" + CacheSeconds

  /** The route prefix of the cache-put handler, removed from the URI to form the key. */
  const CachePrefix: string := "/cache"

  /** The Link header the echo handler advertises. */
  const PrefetchLink: string := "</cookie-test>; rel=prefetch"

  /** The key `jsonCacher` stores under: the request URI with one leading "/cache" removed,
      and the URI as it is when it does not start with "/cache". */
  function CacheKey(requestURI: string): (key: string)
    ensures HasPrefix(requestURI, CachePrefix) ==> CachePrefix + key == requestURI
    ensures !HasPrefix(requestURI, CachePrefix) ==> key == requestURI
  {
    TrimPrefix(requestURI, CachePrefix)
  }

  /** A put through "/cache" + u stores under u: "/cache/json" under "/json", and
      "/cache/cache/x" under "/cache/x", since only one prefix is removed. */
  lemma CacheKeyOfPutURI(u: string)
    ensures CacheKey(CachePrefix + u) == u
  {
    TrimPrefixOfConcat(CachePrefix, u);
  }

  /** Whether the request asks for a prefetch: its first "Purpose" header value is "prefetch". */
  function PrefetchRequested(request: Request): (prefetch: bool)
    ensures prefetch <==> "Purpose" in request.header && |request.header["Purpose"]| > 0
                          && request.header["Purpose"][0] == "prefetch"
  {
    HeaderGet(request.header, "Purpose") == "prefetch"
  }

  /** The JSON text `jsonStubber` serves: the cached value on a hit for the request URI, the freshly
      generated text on a miss. */
  function ServedJson(items: map<string, string>, requestURI: string, generated: string): (page: string)
    ensures requestURI in items ==> page == items[requestURI]
    ensures requestURI !in items ==> page == generated
  {
    if requestURI in items then items[requestURI] else generated
  }

  /** What is put through "/cache" + u is what a later request for u is served, whatever the
      generator would have produced for it. */
  lemma PutThenServed(items: map<string, string>, u: string, stored: string, generated: string)
    ensures ServedJson(items[CacheKey(CachePrefix + u) := stored], u, generated) == stored
  {
    CacheKeyOfPutURI(u);
  }

  /** `jsonCacher`: stores the generated text under the cache key and replies "cached " + key. */
  method JsonCacher(cache: Cache, w: ResponseWriter, request: Request, generated: string)
    modifies cache, w
    ensures cache.items == old(cache.items)[CacheKey(request.requestURI) := generated]
    ensures w.body == old(w.body) + "cached " + CacheKey(request.requestURI)
    ensures w.header == old(w.header)
  {
    var key := TrimPrefix(request.requestURI, CachePrefix);
    cache.Set(key, generated);
    w.Write("cached " + key);
  }

  /** `jsonStubber`: serves the cached text on a hit, the generated one on a miss without storing it,
      and adds "Cache-Control: private, max-age=60" exactly when the request asks for a prefetch,
      on a hit as on a miss. The cache is only read. */
  method JsonStubber(cache: Cache, w: ResponseWriter, request: Request, generated: string)
    modifies w
    ensures w.body == old(w.body) + ServedJson(cache.items, request.requestURI, generated)
    ensures PrefetchRequested(request) ==> w.header == HeaderAdd(old(w.header), "Cache-Control", CacheControlValue)
    ensures !PrefetchRequested(request) ==> w.header == old(w.header)
  {
    var page: string;
    var cached, found := cache.Get(request.requestURI);
    if found {
      page := cached;
    } else {
      page := generated;
    }
    if HeaderGet(request.header, "Purpose") == "prefetch" {
      w.AddHeader("Cache-Control", "private, max-age=" + CacheSeconds);
    }
    w.Write(page);
  }

  /** `standaloneDemoPageHandler`: loads the page named by the URI and writes it with its placeholders
      replaced; when the file is missing it writes nothing at all. */
  method StandaloneDemoPage(w: ResponseWriter, request: Request, files: map<string, string>)
    requires |request.requestURI| > 0
    modifies w
    ensures w.header == old(w.header)
    ensures LoadPage(DemoTitle(request.requestURI), files).Err? ==> w.body == old(w.body)
    ensures LoadPage(DemoTitle(request.requestURI), files).Ok? ==>
      w.body == old(w.body) + RenderDemoPage(LoadPage(DemoTitle(request.requestURI), files).value.body, request)
  {
    var loaded := LoadPage(request.requestURI[1..] + ".html", files);
    match loaded
    case Err(_) =>
    case Ok(page) =>
      w.Write(RenderDemoPage(page.body, request));
  }

  /** `simpleHandler`: advertises the cookie-test page for prefetching and echoes the request.
      `renderedHeader` is the text Go's `%s` gives for the request's header map. */
  method SimpleHandler(w: ResponseWriter, request: Request, renderedHeader: string)
    modifies w
    ensures w.header == HeaderAdd(old(w.header), "Link", PrefetchLink)
    ensures w.body == old(w.body) + "<html><h4>request:</h4><div>" + Scheme(request) + "://" + request.host
      + request.path + "</div><h4>headers:</h4><div>" + renderedHeader + "</div></html>"
  {
    w.AddHeader("Link", "</cookie-test>; rel=prefetch");
    var scheme := Scheme(request);
    w.Write("<html><h4>request:</h4><div>" + scheme + "://" + request.host + request.path
      + "</div><h4>headers:</h4><div>" + renderedHeader + "</div></html>");
  }

  /** A put through "/cache" + u followed by a request for u: the put is acknowledged with u, and the
      request is served the text the put stored, not a freshly generated one. */
  method PutThenFetch(cache: Cache, host: string, u: string, stored: string, generated: string)
    returns (ack: string, served: string)
    modifies cache
    ensures ack == "cached " + u
    ensures served == stored
    ensures cache.items == old(cache.items)[u := stored]
  {
    CacheKeyOfPutURI(u);
    var put := new ResponseWriter();
    JsonCacher(cache, put, Request(host, CachePrefix + u, CachePrefix + u, false, map[]), stored);
    var fetch := new ResponseWriter();
    JsonStubber(cache, fetch, Request(host, u, u, false, map[]), generated);
    ack, served := put.body, fetch.body;
  }
}
