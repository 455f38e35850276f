/** The agent's HTTP forwarder (client/foundryProxy.js): replays an
    `http_request` against the private service and shapes what comes back
    into an `http_response`. The network call is a parameter. */
module FoundryProxy {
  import opened Core
  import Base64
  import opened Protocol
  import TunnelServer

  /** The arguments of the `fetch` call. */
  datatype Upstream = Upstream(url: string, httpMethod: string, headers: Fields, body: Option<string>)

  /** How `fetch` ended: it threw, or it gave a status, the response headers
      as `Object.fromEntries(response.headers.entries())`, and the body as
      `arrayBuffer()` would read it and as `text()` would. */
  datatype Outcome = Unreachable | Fetched(status: int, headers: Fields, bytes: seq<byte>, text: string)

  /** The content-type fragments that mark a body as binary. */
  const BinaryMarkers: seq<string> := ["image/", "font/", "woff", "application/octet-stream", "application/pdf"]

  const ErrorBody: string := "Proxy Error: Unable to reach Foundry. Is it running?"

  /** The reply when the private service cannot be reached. */
  const ErrorResponse: ResponseData :=
    ResponseData(503, Some([("Content-Type", "text/plain")]), Some(ErrorBody), None)

  /** `headersObj['content-type'] || ''`. */
  function ContentType(h: Fields): string {
    match Lookup(h, "content-type")
    case Some(v) => v
    case None => ""
  }

  /** A body is binary iff its content type contains one of the markers. */
  function IsBinary(contentType: string): (r: bool)
    ensures r <==> exists k :: 0 <= k < |BinaryMarkers| && Occurs(BinaryMarkers[k], contentType)
  {
    assert BinaryMarkers[0] == "image/" && BinaryMarkers[1] == "font/" && BinaryMarkers[2] == "woff"
      && BinaryMarkers[3] == "application/octet-stream" && BinaryMarkers[4] == "application/pdf";
    Includes(contentType, "image/") || Includes(contentType, "font/") || Includes(contentType, "woff")
    || Includes(contentType, "application/octet-stream") || Includes(contentType, "application/pdf")
  }

  /** A response without a content type is text. */
  lemma MissingContentTypeIsText(h: Fields)
    requires Lookup(h, "content-type").None?
    ensures !IsBinary(ContentType(h))
  {
    forall k | 0 <= k < |BinaryMarkers| ensures !Occurs(BinaryMarkers[k], "") {
      assert |BinaryMarkers[k]| > 0;
    }
  }

  /** `sendToFoundry`. */
  method SendToFoundry(foundryUrl: string, id: string, req: RequestData, fetch: Upstream -> Outcome)
    returns (m: Message)
    ensures m.HttpResponse? && m.id == id && m.response.encoding == None
    ensures var o := fetch(Upstream(foundryUrl + req.url, req.httpMethod, req.headers, req.body));
      && (o.Unreachable? ==> m.response == ErrorResponse)
      && (o.Fetched? ==>
            var binary := IsBinary(ContentType(o.headers));
            && m.response.statusCode == o.status
            && m.response.body == Some(if binary then Base64.Encode(o.bytes) else o.text)
            && m.response.headers.Some?
            && Lookup(m.response.headers.value, "content-encoding") == None
            && Lookup(m.response.headers.value, "content-length") == None
            && Lookup(m.response.headers.value, "x-binary-data")
                 == (if binary then Some("true") else Lookup(o.headers, "x-binary-data"))
            && forall k :: k != "content-encoding" && k != "content-length" && k != "x-binary-data" ==>
                 Lookup(m.response.headers.value, k) == Lookup(o.headers, k))
  {
    var upstream := Upstream(foundryUrl + req.url, req.httpMethod, req.headers, req.body);
    var outcome := fetch(upstream);
    if outcome.Unreachable? {
      return HttpResponse(id, ErrorResponse);
    }
    var headersObj := outcome.headers;
    var binary := IsBinary(ContentType(headersObj));
    var body;
    if binary {
      body := Base64.Encode(outcome.bytes);
      headersObj := Put(headersObj, "x-binary-data", "true");
    } else {
      body := outcome.text;
    }
    headersObj := Remove(headersObj, "content-encoding");
    headersObj := Remove(headersObj, "content-length");
    return HttpResponse(id, ResponseData(outcome.status, Some(headersObj), Some(body), None));
  }

  /** A non-empty text body sent without `encoding` reaches the browser as
      that text, and an `x-binary-data` flag among the headers reaches it too. */
  lemma {:induction false} FlaggedTextReply(status: int, h: Fields, text: string)
    requires text != ""
    requires ("x-binary-data", "true") in h
    ensures var reply := TunnelServer.ReplyFor(ResponseData(status, Some(h), Some(text), None));
      && reply.body == Some(TunnelServer.Text(text))
      && ("x-binary-data", "true") in reply.headers
  {
    assert |Lower("x-binary-data")| != |"transfer-encoding"|;
    TunnelServer.AppliedHeadersMembers(h, ("x-binary-data", "true"));
  }

  /** The agent flags a binary body with `x-binary-data` but never sets
      `encoding`, and the relay decodes only on `encoding: 'base64'`: the
      browser gets the base64 text, with the flag among its headers. */
  lemma BinaryBodyReachesBrowserEncoded(status: int, h: Fields, b: seq<byte>)
    requires |b| > 0
    requires ("x-binary-data", "true") in h
    ensures var reply := TunnelServer.ReplyFor(ResponseData(status, Some(h), Some(Base64.Encode(b)), None));
      && reply.body == Some(TunnelServer.Text(Base64.Encode(b)))
      && ("x-binary-data", "true") in reply.headers
  {
    var text := Base64.Encode(b);
    assert |text| > 0;
    FlaggedTextReply(status, h, text);
  }
}
