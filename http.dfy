/** The slice of Go's `net/http` that the handlers of server.go touch: the request fields they read,
    header lookup and append, and a response writer that collects headers and body text. */
module Http {

  /** A header map from canonical keys to their values, in arrival order (Go's `http.Header`). */
  type Header = map<string, seq<string>>

  /** The request fields the handlers read. `tls` stands for `request.TLS != nil`, `path` for
      `request.URL.Path`; header keys are canonical, as Go's server stores them. */
  datatype Request = Request(
    host: string,
    requestURI: string,
    path: string,
    tls: bool,
    header: Header)

  /** The values stored under `key`, none when the key is absent. */
  function Values(h: Header, key: string): seq<string> {
    if key in h then h[key] else []
  }

  /** Go's `Header.Get`: the first value under `key`, or "" when there is none. */
  function HeaderGet(h: Header, key: string): (v: string)
    ensures |Values(h, key)| > 0 ==> v == Values(h, key)[0]
    ensures |Values(h, key)| == 0 ==> v == ""
  {
    if key in h && |h[key]| > 0 then h[key][0] else ""
  }

  /** Go's `Header.Add`: `value` is appended to the values of `key`; every other key keeps its values. */
  function HeaderAdd(h: Header, key: string, value: string): (r: Header)
    ensures r.Keys == h.Keys + {key}
    ensures Values(r, key) == Values(h, key) + [value]
    ensures forall k :: k in h && k != key ==> r[k] == h[k]
  {
    h[key := Values(h, key) + [value]]
  }

  /** A header added to a key that had none is what `HeaderGet` then returns. */
  lemma AddThenGet(h: Header, key: string, value: string)
    requires |Values(h, key)| == 0
    ensures HeaderGet(HeaderAdd(h, key, value), key) == value
  {
    assert Values(HeaderAdd(h, key, value), key) == [value];
  }

  /** Go's `http.ResponseWriter`, reduced to the header map it sends and the body written to it. */
  class ResponseWriter {
    var header: Header
    var body: string

    constructor ()
      ensures header == map[] && body == ""
    {
      header := map[];
      body := "";
    }

    /** `response.Header().Add(key, value)`. */
    method AddHeader(key: string, value: string)
      modifies this
      ensures header == HeaderAdd(old(header), key, value)
      ensures body == old(body)
    {
      header := HeaderAdd(header, key, value);
    }

    /** A write of `text` to the response (`fmt.Fprintf` with the formatted text). */
    method Write(text: string)
      modifies this
      ensures body == old(body) + text
      ensures header == old(header)
    {
      body := body + text;
    }
  }
}
