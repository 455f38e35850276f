/** The relay's HTTP ingress (server/httpProxy.js): every browser request is
    registered under a fresh correlation id and forwarded to the agent. */
module HttpProxy {
  import opened Core
  import opened Protocol
  import opened TunnelServer

  /** What Express hands the handler: `req.method`, `req.url`, `req.headers`
      and the parsed `req.body` (`None` when undefined). */
  datatype IncomingRequest = IncomingRequest(httpMethod: string, url: string, headers: Fields, body: Option<string>)

  /** The `app.all('*')` handler. `id` is what `crypto.randomUUID()` returned
      and `res` the call's new response object. The entry is registered
      before the send and stays whether or not an agent is attached; the
      handler itself never replies. */
  method HandleRequest(relay: Relay, id: string, res: ReplyHandle, req: IncomingRequest)
    requires relay.Valid()
    requires id !in relay.pendingRequests
    requires res !in relay.replies && res !in relay.pendingRequests.Values
    modifies relay
    ensures relay.Valid() && relay.SameSession() && relay.SameTunnels()
    ensures relay.pendingRequests == old(relay.pendingRequests)[id := res]
    ensures relay.replies == old(relay.replies)
    ensures relay.SameSession() && relay.SameTunnels()
    ensures relay.Sent(HttpRequest(id, RequestData(req.httpMethod, req.url, req.headers, req.body)))
  {
    relay.pendingRequests := relay.pendingRequests[id := res];
    var message := HttpRequest(id, RequestData(req.httpMethod, req.url, req.headers, req.body));
    var _ := relay.SendToClient(message);
  }

  /** A request, its response and a duplicate of that response from the
      agent: the browser gets the first response, the duplicate is dropped. */
  method RequestThenResponses(relay: Relay, agent: SocketId, id: string, res: ReplyHandle,
                              req: IncomingRequest, first: ResponseData, duplicate: ResponseData)
    requires relay.Valid() && relay.connectedClient == Some(agent)
    requires id !in relay.pendingRequests
    requires res !in relay.replies && res !in relay.pendingRequests.Values
    modifies relay
    ensures relay.Valid() && relay.SameSession() && relay.SameTunnels()
    ensures relay.pendingRequests == old(relay.pendingRequests)
    ensures relay.replies == old(relay.replies)[res := ReplyFor(first)]
    ensures relay.emitted == old(relay.emitted) + [(agent, HttpRequest(id, RequestData(req.httpMethod, req.url, req.headers, req.body)))]
  {
    HandleRequest(relay, id, res, req);
    relay.OnMessage(agent, HttpResponse(id, first));
    relay.OnMessage(agent, HttpResponse(id, duplicate));
  }
}
