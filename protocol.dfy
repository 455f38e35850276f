/** The messages that cross the control channel, as a closed variant type, and
    the relay's dispatch of inbound messages by their `type` string. */
module Protocol {
  import opened Core
  import MT = MessageTypes

  /** `data` of an `http_request`: copied from the browser's request. `body`
      is the parsed request body, an opaque value here; `None` is undefined. */
  datatype RequestData = RequestData(httpMethod: string, url: string, headers: Fields, body: Option<string>)

  /** `data` of an `http_response`. `headers`, `body` and `encoding` may be
      missing on the wire; the status is taken to be a number. */
  datatype ResponseData = ResponseData(
    statusCode: int, headers: Option<Fields>, body: Option<string>, encoding: Option<string>)

  datatype Message =
    | AuthSuccess
    | AuthFailure
    | HttpRequest(id: string, request: RequestData)
    | HttpResponse(id: string, response: ResponseData)
    | WsUpgradeSuccess(id: string, headers: Fields)
    | WsUpgradeFailure(id: string)
    | WsData(id: string, chunk: string)      // `data` is base64 text
    | WsClose(id: string)
    | Unrouted(wireType: Option<string>)      // any other message; `None` is a missing type

  function TagOf(m: Message): Option<MT.Tag> {
    match m
    case AuthSuccess => Some(MT.AuthSuccess)
    case AuthFailure => Some(MT.AuthFailure)
    case HttpRequest(_, _) => Some(MT.HttpRequest)
    case HttpResponse(_, _) => Some(MT.HttpResponse)
    case WsUpgradeSuccess(_, _) => Some(MT.WsUpgradeSuccess)
    case WsUpgradeFailure(_) => Some(MT.WsUpgradeFailure)
    case WsData(_, _) => Some(MT.WsData)
    case WsClose(_) => Some(MT.WsClose)
    case Unrouted(_) => None
  }

  /** The `type` field of a message when it is built from `table`. */
  function WireType(table: MT.Tag -> Option<string>, m: Message): Option<string> {
    match TagOf(m)
    case Some(t) => table(t)
    case None => m.wireType
  }

  /** The relay's five message handlers. */
  datatype Handler = OnHttpResponse | OnUpgradeSuccess | OnUpgradeFailure | OnData | OnClose

  function HandledTag(h: Handler): MT.Tag {
    match h
    case OnHttpResponse => MT.HttpResponse
    case OnUpgradeSuccess => MT.WsUpgradeSuccess
    case OnUpgradeFailure => MT.WsUpgradeFailure
    case OnData => MT.WsData
    case OnClose => MT.WsClose
  }

  /** The relay's `switch (message.type)`: the cases in source order, each
      compared with `===` against the table's value, which may be undefined. */
  function Switch(table: MT.Tag -> Option<string>, wireType: Option<string>): Option<Handler> {
    if wireType == table(MT.HttpResponse) then Some(OnHttpResponse)
    else if wireType == table(MT.WsUpgradeSuccess) then Some(OnUpgradeSuccess)
    else if wireType == table(MT.WsUpgradeFailure) then Some(OnUpgradeFailure)
    else if wireType == table(MT.WsData) then Some(OnData)
    else if wireType == table(MT.WsClose) then Some(OnClose)
    else None
  }

  /** The switch as the relay has it: over shared/protocol.js. */
  function RouteAsWritten(wireType: Option<string>): Option<Handler> {
    Switch(MT.SharedTable, wireType)
  }

  /** As written, no WebSocket message string reaches its handler, a message
      without a type runs the upgrade-success handler, and the relay's own
      replies (authentication, WebSocket data and close) go out without a
      type. */
  lemma AsWrittenMisroutes(s: string)
    ensures RouteAsWritten(Some(s)).Some? ==> s == "http_response"
    ensures RouteAsWritten(Some("ws_data")) == None
    ensures RouteAsWritten(Some("ws_close")) == None
    ensures RouteAsWritten(Some("ws_upgrade_success")) == None
    ensures RouteAsWritten(Some("ws_upgrade_failure")) == None
    ensures RouteAsWritten(None) == Some(OnUpgradeSuccess)
    ensures WireType(MT.SharedTable, AuthSuccess) == None
    ensures WireType(MT.SharedTable, AuthFailure) == None
    ensures forall id, d :: WireType(MT.SharedTable, WsData(id, d)) == None
    ensures forall id :: WireType(MT.SharedTable, WsClose(id)) == None
  {
  }

  /** The switch over the full table of FoundryProxyClient/protocol.js: each
      handler runs exactly for its own type string. */
  function Route(wireType: Option<string>): (r: Option<Handler>)
    ensures forall h :: r == Some(h) <==> wireType == Some(MT.Name(HandledTag(h)))
  {
    Switch(MT.AgentTable, wireType)
  }

  /** The handler the relay's dispatch runs for a message. */
  function HandlerOf(m: Message): Option<Handler> {
    match m
    case HttpResponse(_, _) => Some(OnHttpResponse)
    case WsUpgradeSuccess(_, _) => Some(OnUpgradeSuccess)
    case WsUpgradeFailure(_) => Some(OnUpgradeFailure)
    case WsData(_, _) => Some(OnData)
    case WsClose(_) => Some(OnClose)
    case _ => None
  }

  /** A message is `Unrouted` only if its type string is none of the five. */
  predicate Classified(m: Message) {
    m.Unrouted? ==> Route(m.wireType).None?
  }

  /** Matching on the variant is the corrected switch on the type string. */
  lemma {:induction false} DispatchIsRoute(m: Message)
    requires Classified(m)
    ensures Route(WireType(MT.AgentTable, m)) == HandlerOf(m)
  {
    match TagOf(m)
    case Some(t) =>
      assert WireType(MT.AgentTable, m) == Some(MT.Name(t));
      if HandlerOf(m).Some? {
        assert HandledTag(HandlerOf(m).value) == t;
      } else {
        forall h ensures MT.Name(HandledTag(h)) != MT.Name(t) {
          MT.TablesConsistent(HandledTag(h), t);
        }
      }
    case None =>
  }
}
