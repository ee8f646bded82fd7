# Request metadata and JSON cache of the HTTP/HTTPS/HTTP2/QUIC comparison server

The server (`server.go`) serves the same demo content on four ports, one per transport and
protocol configuration, and keeps a small in-memory cache of generated JSON. This Dafny project
models the part of it that has exact, checkable outcomes:

- **Protocol and scheme resolution** (`protocolResolver`, `schemeResolver`): the port taken from
  the request's Host, its label from the fixed table 8080 → "http/1.1", 8081 → "http/1.1 + TLS",
  8082 → "http/2", 8083 → "QUIC", the transport ("udp" only for QUIC), and "https" or "http" by
  whether the request arrived over TLS.
- **Demo pages** (`loadPage`, `standaloneDemoPageHandler`): the file-name rule of `loadPage`, the
  title the demo handler asks for, and the chain of six `strings.Replace` calls that fill in
  `$transport$`, `$port$`, `$protocol$`, `$hostname$`, `$scheme$` and `$data_delay$` in that order.
- **JSON cache put and lookup** (`jsonCacher`, `jsonStubber`) over one shared key → string store,
  and the `Cache-Control` header added to prefetch requests; also the echo handler
  (`simpleHandler`), which adds a `Link` header.

Modules, one per component: `Results` (Option and Result), `Strings` (the behaviour of Go's
`strings.Contains`, `strings.TrimPrefix`, `strings.Replace(…, -1)` and `strconv.Itoa` that the
server relies on), `Http` (the request fields read, header get/add, a response writer class),
`Resolver`, `Pages`, `ResponseCache` (the cache as a class holding a `map<string, string>`) and
`Handlers` (the handlers as methods that update the cache and the response writer).

Outside inputs are parameters: the text `makeFakeJson` would return is `generated`, the file system
is a map `files` from file names to contents, and Go's `%s` rendering of the header map is
`renderedHeader`.

Two details of `server.go` that a reader might expect otherwise:
- the page loader appends ".txt" only when the title has no '.' anywhere, so "a.b/c" gets nothing
  appended even though its last path element has no extension;
- a put to `/cache/foo` stores under "/foo": only "/cache" is trimmed and the slash stays.

Proved beyond the per-member contracts:
- `strings.Replace` with a non-empty pattern keeps the text before the leftmost occurrence, puts the
  replacement in its place and goes on after it (`Strings.ReplaceAtFirst`); it leaves a text
  without the pattern unchanged. It
  removes every occurrence whenever the replacement cannot recreate the pattern around itself
  (`Strings.SafeReplacement`). The values for `$transport$`, `$scheme$` and `$data_delay$`, and
  every label of the port table, meet that condition. The port, the hostname and the empty label
  come from the request and do not.
- Because the six replacements run one after another, placeholder text inside an earlier value is
  replaced by a later step: a Host "a$scheme$" is shown as "ahttp" (`Pages.HostTextIsSubstitutedLater`).

## Model

| member | source | states |
|---|---|---|
| `Strings.TrimPrefix` | server.go:166 | one leading prefix is removed when present (prefix + result is the input), otherwise the text is unchanged |
| `Strings.TrimPrefixOfConcat` | server.go:166 | trimming a prefix undoes prepending it, and removes only one copy |
| `Strings.ReplaceAll` | server.go:95-100 | replacing a pattern with itself changes nothing (which occurrences are replaced: `Strings.ReplaceAtFirst` and `Strings.ReplaceAbsent`) |
| `Strings.ReplaceAtFirst` | server.go:95-100 | the leftmost occurrence is replaced: for a + pattern + b with no occurrence starting inside a, the result is a + replacement + the replaced b |
| `Strings.ReplaceAbsent` | server.go:95-100 | a text that does not contain the pattern is returned unchanged |
| `Strings.ReplaceRemovesAll` | server.go:95-100 | with a safe replacement, no occurrence of the pattern remains in the result |
| `Strings.ReplaceKeepsAbsent` | server.go:95-100 | a replacement sharing no character with another placeholder cannot create that placeholder |
| `Strings.DecimalDigits` | server.go:100 | decimal text of a natural number: non-empty, digits only, no leading zero |
| `Strings.Itoa` | server.go:100 | `strconv.Itoa`: non-empty, starts with '-' exactly for negative numbers |
| `Strings.DecimalRoundTrip` | server.go:100 | parsing the decimal digits of n gives back n |
| `Strings.ItoaRoundTrip` | server.go:100 | the sign and digits of `Itoa(n)` give back n, for negative and non-negative n |
| `Http.HeaderGet` | server.go:156 | `Header.Get`: the first value under the key, "" when there is none |
| `Http.HeaderAdd` | server.go:157 | `Header.Add`: the value is appended to the key's values; every other key keeps its values |
| `Http.AddThenGet` | server.go:156-157 | a value added under a key that had none is what `Get` returns |
| `Http.ResponseWriter.constructor` | server.go:68 | a fresh response has no headers and an empty body |
| `Http.ResponseWriter.AddHeader` | server.go:157 | the header map becomes `HeaderAdd` of the old one; the body is unchanged |
| `Http.ResponseWriter.Write` | server.go:160 | the text is appended to the body; the headers are unchanged |
| `Resolver.LastIndexOf` | server.go:56 | index of the last occurrence of a character, none exactly when the character is absent |
| `Resolver.SplitPort` | server.go:56-59 | port of a host:port text (simplified): fails exactly when there is no ':', else the colon-free text after the last ':' |
| `Resolver.SplitPortOfJoin` | server.go:56 | splitting host + ":" + port gives back the port when it has no ':' |
| `Resolver.ProtocolLabel` | server.go:49-60 | a port has a non-empty label exactly when it is in the table; "QUIC" exactly for 8083 |
| `Resolver.ResolveProtocol` | server.go:47-66 | transport is "udp" exactly when the label is "QUIC" (exactly port 8083), "tcp" otherwise; a Host without ':' gives port "80", the empty label and "tcp" |
| `Resolver.PortTable` | server.go:49-64 | ports 8080–8083 give "http/1.1", "http/1.1 + TLS", "http/2", "QUIC" with their transports; any other port gives the empty label and "tcp" |
| `Resolver.Scheme` | server.go:39-45 | "https" if and only if the request has TLS state, otherwise "http" |
| `Pages.PageFileName` | server.go:106-109 | the title itself when it has a '.', else title + ".txt"; the file name always starts with the title and has a '.' |
| `Pages.LoadPage` | server.go:105-115 | succeeds exactly when the file exists; the page's title is the title asked for, not the file name; the error names the file |
| `Pages.DemoTitle` | server.go:88 | the URI without its first character plus ".html", to which `loadPage` never appends ".txt" |
| `Pages.DemoValues` | server.go:93-100 | the six values in placeholder order: transport, port, label, Host, scheme and "1000" |
| `Pages.DelayText` | server.go:100 | `strconv.Itoa(json_delay_ms)` is "1000" |
| `Pages.DemoStep` | server.go:95-100 | the first k of the six `strings.Replace` calls, in placeholder order; a page without the first k placeholders is unchanged by them |
| `Pages.TransportValueSafe` | server.go:61-64 | "tcp" and "udp" cannot recreate "$transport$" |
| `Pages.ProtocolValueSafe` | server.go:49-54 | no label of the table can recreate "$protocol$" |
| `Pages.SchemeValueSafe` | server.go:99 | "http" and "https" cannot recreate "$scheme$" |
| `Pages.DelayValueSafe` | server.go:100 | "1000" cannot recreate "$data_delay$" and has no character of "$scheme$" |
| `Pages.DemoPlaceholdersRemoved` | server.go:95-100 | "$transport$" is gone after step 1, "$protocol$" after step 3 when the port has a label, "$scheme$" after step 5 and in the final page, "$data_delay$" in the final page |
| `Pages.RenderDemoPage` | server.go:92-100 | the written page has no "$scheme$" and no "$data_delay$", and a page without placeholders is written unchanged |
| `Pages.DelayPlaceholderShown` | server.go:100 | a page that is just "$data_delay$" is written as "1000" |
| `Pages.HostTextIsSubstitutedLater` | server.go:98-99 | placeholder text inside the Host is replaced by the later `$scheme$` step |
| `ResponseCache.Cache.constructor` | server.go:201 | a new cache is empty |
| `ResponseCache.Cache.Get` | server.go:146 | found exactly when the key is stored, with the stored value; "" on a miss; nothing changes |
| `ResponseCache.Cache.Set` | server.go:167 | the key maps to the new value (last set wins); every other key is unchanged |
| `ResponseCache.SetThenGet` | server.go:146-167 | a get right after a set of the same key finds the value set; other keys keep their values |
| `Handlers.CacheKey` | server.go:166 | the URI with one leading "/cache" removed, the URI itself when it has no such prefix |
| `Handlers.CacheKeyOfPutURI` | server.go:166 | a put through "/cache" + u is stored under u ("/cache/json" under "/json") |
| `Handlers.PrefetchRequested` | server.go:156 | true exactly when the request's first "Purpose" header value is "prefetch" (a missing header reads as "") |
| `Handlers.ServedJson` | server.go:145-155 | on a hit for the request URI the stored text, on a miss the generated text |
| `Handlers.PutThenServed` | server.go:146-167 | a value put via "/cache" + u is what a later request for u is served |
| `Handlers.JsonCacher` | server.go:163-172 | stores the generated text under the cache key and replies "cached " + key; headers unchanged |
| `Handlers.JsonStubber` | server.go:143-161 | serves the cached or generated text without changing the cache; adds "Cache-Control: private, max-age=60" if and only if the Purpose header is "prefetch", on a hit or a miss |
| `Handlers.StandaloneDemoPage` | server.go:86-103 | writes the substituted page when the file loads, and nothing at all when it does not |
| `Handlers.SimpleHandler` | server.go:68-76 | adds the Link prefetch header and writes scheme://host+path and the rendered headers |
| `Handlers.PutThenFetch` | server.go:143-172 | a put through "/cache" + u is acknowledged with u, and a following request for u is served the stored text |

## Left out

- Listener startup and lifetime (`main`: the four listeners, their goroutines, the QUIC server and
  the ALPN pinning of port 8081): network I/O and concurrency.
- The cache's expiry: the 5-minute lifetime, the 10-minute sweep, the eviction callback `logCache`
  and `ItemCount` are timing and concurrency inside the go-cache library; the store here never
  expires and has no locking.
- `makeFakeJson`: random identifiers and names, the one-second sleep and JSON encoding; its
  result is the parameter `generated`.
- File and OS I/O: the reading itself in `loadPage` (the file system is the map `files`),
  `Page.save`, `getCertBody` and its panic, and the static file server wrapper.
- `cookieTestHandler`: besides its `Set-Cookie` header and the reply "ok", its only varying content
  is the current time, a clock read.
- Logging, and the exact `%s` rendering of the header map in `simpleHandler` (a parameter).
- `net.SplitHostPort` is simplified to "the text after the last ':', failure when there is none":
  bracketed IPv6 hosts and its "too many colons" and bracket errors are not modelled.
- `fmt.Fprintf(response, page)` treats the page as a format string, so a '%' in a page or in a
  cached value would be read as a formatting verb; the model writes the page itself.
- `strings.Replace` with an empty pattern (which inserts the replacement between characters) is
  not modelled; every call site passes a non-empty placeholder.
- Header keys are taken as already canonical, as Go's server stores incoming headers.
- Page bodies are `[]byte` in Go and `string` here; no byte encoding is modelled.
- Headers added after the first write would not be sent by Go; every handler here adds its
  headers before writing, so that ordering is not modelled.
- Handlers.StandaloneDemoPage: requires a non-empty request URI, where Go would panic on the
  slice; Go's server never hands a handler an empty URI.
- Pages.DemoPlaceholdersRemoved: states removal only for "$transport$", "$scheme$",
  "$data_delay$" and labelled "$protocol$", because the port, the Host and the empty label can
  recreate their placeholder (for example "$p$port$t$" with port "or" gives "$port$").
