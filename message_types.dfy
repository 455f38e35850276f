/** The message type strings. The repository has two tables of them:
    FoundryProxyClient/protocol.js names authentication, HTTP and WebSocket
    tunnelling; shared/protocol.js, which the relay and the agent's HTTP
    forwarder import, names only the HTTP pair plus connection, ping, pong
    and error. A key missing from a table reads as `undefined`. */
module MessageTypes {
  import opened Core

  /** Every key of either table. */
  datatype Tag =
    | Auth | AuthSuccess | AuthFailure
    | HttpRequest | HttpResponse
    | WsUpgrade | WsUpgradeSuccess | WsUpgradeFailure | WsData | WsClose
    | ConnectionRequest | ConnectionResponse | Ping | Pong | Error

  /** The table of FoundryProxyClient/protocol.js. */
  function AgentTable(t: Tag): Option<string> {
    match t
    case Auth => Some("auth")
    case AuthSuccess => Some("auth_success")
    case AuthFailure => Some("auth_failure")
    case HttpRequest => Some("http_request")
    case HttpResponse => Some("http_response")
    case WsUpgrade => Some("ws_upgrade")
    case WsUpgradeSuccess => Some("ws_upgrade_success")
    case WsUpgradeFailure => Some("ws_upgrade_failure")
    case WsData => Some("ws_data")
    case WsClose => Some("ws_close")
    case _ => None
  }

  /** The table of shared/protocol.js. */
  function SharedTable(t: Tag): Option<string> {
    match t
    case ConnectionRequest => Some("connection_request")
    case ConnectionResponse => Some("connection_response")
    case HttpRequest => Some("http_request")
    case HttpResponse => Some("http_response")
    case Ping => Some("ping")
    case Pong => Some("pong")
    case Error => Some("error")
    case _ => None
  }

  /** The string a tag stands for, whichever table defines it. */
  function Name(t: Tag): (s: string)
    ensures AgentTable(t) == Some(s) || SharedTable(t) == Some(s)
    ensures AgentTable(t).Some? ==> AgentTable(t) == Some(s)
    ensures SharedTable(t).Some? ==> SharedTable(t) == Some(s)
  {
    match t
    case ConnectionRequest => "connection_request"
    case ConnectionResponse => "connection_response"
    case Ping => "ping"
    case Pong => "pong"
    case Error => "error"
    case _ => AgentTable(t).value
  }

  /** The two tables never give one key two different strings, and each
      table gives different keys different strings. */
  lemma TablesConsistent(t: Tag, u: Tag)
    ensures AgentTable(t).Some? && SharedTable(t).Some? ==> AgentTable(t) == SharedTable(t)
    ensures AgentTable(t).Some? && t != u ==> AgentTable(t) != AgentTable(u)
    ensures SharedTable(t).Some? && t != u ==> SharedTable(t) != SharedTable(u)
  {
  }

  /** The keys shared/protocol.js lacks: the whole authentication and
      WebSocket vocabulary. */
  lemma SharedTableGaps(t: Tag)
    ensures SharedTable(t).None? <==>
      t in {Auth, AuthSuccess, AuthFailure, WsUpgrade, WsUpgradeSuccess, WsUpgradeFailure, WsData, WsClose}
  {
  }
}
