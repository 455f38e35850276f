/** The relay's tunnel bookkeeping (server/tunnelServer.js): one slot for the
    authenticated agent, the correlation tables for HTTP calls, pending
    WebSocket upgrades and established WebSocket tunnels, and the handlers
    that move entries between them. Sockets and reply objects are handles;
    what the relay does to them is recorded in logs. */
module TunnelServer {
  import opened Core
  import Base64
  import Handshake
  import opened Protocol

  /** A control-channel (socket.io) connection. */
  type SocketId = nat
  /** An Express response object waiting for its reply. */
  type ReplyHandle = nat
  /** A browser's raw socket from an upgrade request. */
  type RawSocket = nat

  /** An upgrade waiting for the agent: the browser's socket and the bytes
      already read from it past the request. */
  datatype PendingUpgrade = PendingUpgrade(socket: RawSocket, head: seq<byte>)

  datatype Body = Text(text: string) | Bytes(bytes: seq<byte>)

  /** What an Express response object was given: the `setHeader` calls in
      order, `status`, and `send(body)` or a bare `end()` (`None`). */
  datatype Reply = Reply(status: int, headers: Fields, body: Option<Body>)

  /** The argument of one `socket.write`: a string or a `Buffer`. */
  datatype Output = Str(text: string) | Buf(bytes: seq<byte>)

  /** What the relay did to one raw socket: its `write` calls in order,
      `end()`, `destroy()`. */
  datatype SocketLog = SocketLog(written: seq<Output>, ended: bool, destroyed: bool)

  const Untouched := SocketLog([], false, false)

  function Write(l: SocketLog, o: Output): SocketLog { l.(written := l.written + [o]) }

  /** The bytes the browser receives for a sequence of writes; a string goes
      out UTF-8 encoded, Node's default. */
  function Wire(outs: seq<Output>): seq<byte> {
    if outs == [] then []
    else (match outs[0] case Str(t) => Utf8(t) case Buf(b) => b) + Wire(outs[1..])
  }

  /** Each write appends its own bytes to what the browser has received. */
  lemma {:induction false} WireAppend(outs: seq<Output>, more: seq<Output>)
    ensures Wire(outs + more) == Wire(outs) + Wire(more)
    decreases |outs|
  {
    if outs == [] {
      assert outs + more == more;
    } else {
      var first := match outs[0] case Str(t) => Utf8(t) case Buf(b) => b;
      assert (outs + more)[0] == outs[0];
      assert (outs + more)[1..] == outs[1..] + more;
      WireAppend(outs[1..], more);
      assert Wire(outs + more) == first + (Wire(outs[1..]) + Wire(more));
    }
  }
  function End(l: SocketLog): SocketLog { l.(ended := true) }
  function Destroy(l: SocketLog): SocketLog { l.(destroyed := true) }

  function LogIn(logs: map<RawSocket, SocketLog>, s: RawSocket): SocketLog {
    if s in logs then logs[s] else Untouched
  }

  /** The sockets of a set of pending upgrades. */
  function UpgradeSockets(p: map<string, PendingUpgrade>): set<RawSocket> {
    set id | id in p :: p[id].socket
  }

  /** Every socket in `targets` destroyed, every other log as it was. */
  function DestroyAll(logs: map<RawSocket, SocketLog>, targets: set<RawSocket>): (r: map<RawSocket, SocketLog>)
    ensures r.Keys == logs.Keys + targets
    ensures forall s :: s in targets ==> r[s] == Destroy(LogIn(logs, s))
    ensures forall s :: s in logs && s !in targets ==> r[s] == logs[s]
  {
    map s | s in logs.Keys + targets :: if s in targets then Destroy(LogIn(logs, s)) else logs[s]
  }

  // Replies to HTTP calls

  /** `headers || {}`. */
  function HeadersOrEmpty(h: Option<Fields>): Fields {
    if h.Some? then h.value else []
  }

  /** A response header the relay applies: all but `transfer-encoding`, in
      any letter case. */
  predicate Kept(name: string) {
    Lower(name) != "transfer-encoding"
  }

  /** The `setHeader` calls for a response's headers. */
  function AppliedHeaders(h: Fields): Fields {
    if h == [] then [] else (if Kept(h[0].0) then [h[0]] else []) + AppliedHeaders(h[1..])
  }

  /** A header is applied iff it is in the response and is not
      `transfer-encoding`. */
  lemma {:induction false} AppliedHeadersMembers(h: Fields, e: (string, string))
    ensures e in AppliedHeaders(h) <==> e in h && Kept(e.0)
    decreases |h|
  {
    if h != [] {
      AppliedHeadersMembers(h[1..], e);
      assert e in h <==> e == h[0] || e in h[1..] by {
        assert h == [h[0]] + h[1..];
      }
    }
  }

  lemma {:induction false} AppliedHeadersAppend(h: Fields, e: (string, string))
    ensures AppliedHeaders(h + [e]) == AppliedHeaders(h) + (if Kept(e.0) then [e] else [])
    decreases |h|
  {
    var keep := if Kept(e.0) then [e] else [];
    if h == [] {
      assert [e][1..] == [];
      assert AppliedHeaders([e]) == keep + AppliedHeaders([]);
    } else {
      var first := if Kept(h[0].0) then [h[0]] else [];
      assert (h + [e])[1..] == h[1..] + [e];
      assert AppliedHeaders(h + [e]) == first + AppliedHeaders(h[1..] + [e]);
      AppliedHeadersAppend(h[1..], e);
      assert AppliedHeaders(h) == first + AppliedHeaders(h[1..]);
    }
  }

  /** The `Object.entries(headers || {}).forEach(...)` loop. */
  method ApplyHeaders(h: Fields) returns (applied: Fields)
    ensures applied == AppliedHeaders(h)
  {
    applied := [];
    var i := 0;
    while i < |h|
      invariant 0 <= i <= |h|
      invariant applied == AppliedHeaders(h[..i])
    {
      AppliedHeadersAppend(h[..i], h[i]);
      assert h[..i + 1] == h[..i] + [h[i]];
      if Lower(h[i].0) != "transfer-encoding" {
        applied := applied + [h[i]];
      }
      i := i + 1;
    }
    assert h[..|h|] == h;
  }

  /** The body sent: none for a missing or empty body (a falsy value), the
      base64-decoded bytes when `encoding` is `'base64'`, the text as it is
      otherwise. */
  function ReplyBody(body: Option<string>, encoding: Option<string>): (r: Option<Body>)
    ensures r.None? <==> body.None? || body.value == ""
    ensures r.Some? ==> (r.value.Bytes? <==> encoding == Some("base64"))
    ensures r.Some? && r.value.Text? ==> r.value.text == body.value
    ensures r.Some? && r.value.Bytes? ==> r.value.bytes == Base64.Decode(body.value)
  {
    if body.None? || body.value == "" then None
    else if encoding == Some("base64") then Some(Bytes(Base64.Decode(body.value)))
    else Some(Text(body.value))
  }

  /** A non-empty body sent base64-encoded with `encoding: 'base64'` reaches
      the browser as the original bytes. */
  lemma ReplyBodyDecodes(b: seq<byte>)
    requires |b| > 0
    ensures ReplyBody(Some(Base64.Encode(b)), Some("base64")) == Some(Bytes(b))
  {
    Base64.DecodeEncode(b);
  }

  /** The reply an `http_response` produces. */
  function ReplyFor(d: ResponseData): Reply {
    Reply(d.statusCode, AppliedHeaders(HeadersOrEmpty(d.headers)), ReplyBody(d.body, d.encoding))
  }

  class Relay {
    /** `AUTH_TOKEN` from the relay's configuration. */
    const authToken: string
    /** The one agent connection whose messages are obeyed. */
    var connectedClient: Option<SocketId>
    /** Correlation id to the reply object of an HTTP call not yet answered. */
    var pendingRequests: map<string, ReplyHandle>
    /** Correlation id to an upgrade the agent has not yet answered. */
    var pendingUpgrades: map<string, PendingUpgrade>
    /** Correlation id to the socket of an established WebSocket tunnel. */
    var activeWebSockets: map<string, RawSocket>
    /** Every `socket.emit('message', ...)`, in order, with its connection. */
    var emitted: seq<(SocketId, Message)>
    /** Every `socket.disconnect()`, in order. */
    var disconnected: seq<SocketId>
    /** The reply each reply object has been given. */
    var replies: map<ReplyHandle, Reply>
    /** What has been done to each raw browser socket. */
    var sockets: map<RawSocket, SocketLog>

    /** No id is both pending and established; an unanswered call's reply
        object has no reply yet and belongs to that call alone. */
    ghost predicate Valid()
      reads this
    {
      && pendingUpgrades.Keys !! activeWebSockets.Keys
      && (forall id :: id in pendingRequests ==> pendingRequests[id] !in replies)
      && (forall a, b :: a in pendingRequests && b in pendingRequests && a != b ==>
            pendingRequests[a] != pendingRequests[b])
    }

    constructor (authToken: string)
      ensures Valid() && this.authToken == authToken
      ensures connectedClient == None && emitted == [] && disconnected == []
      ensures pendingRequests == map[] && replies == map[]
      ensures pendingUpgrades == map[] && activeWebSockets == map[] && sockets == map[]
    {
      this.authToken := authToken;
      connectedClient := None;
      pendingRequests := map[];
      pendingUpgrades := map[];
      activeWebSockets := map[];
      emitted := [];
      disconnected := [];
      replies := map[];
      sockets := map[];
    }

    // Two-state summaries of the handlers.

    twostate predicate SameSession()
      reads this
    {
      connectedClient == old(connectedClient) && disconnected == old(disconnected)
    }

    twostate predicate SameRequests()
      reads this
    {
      pendingRequests == old(pendingRequests) && replies == old(replies)
    }

    twostate predicate SameTunnels()
      reads this
    {
      pendingUpgrades == old(pendingUpgrades) && activeWebSockets == old(activeWebSockets)
      && sockets == old(sockets)
    }

    /** `sendToClient(m)` ran: one message to the agent if there is one. */
    twostate predicate Sent(m: Message)
      reads this
    {
      emitted == old(emitted) + (if old(connectedClient).Some? then [(old(connectedClient).value, m)] else [])
    }

    twostate predicate NothingSent()
      reads this
    {
      emitted == old(emitted)
    }

    twostate predicate HttpResponseStep(id: string, d: ResponseData)
      reads this
    {
      && SameSession() && SameTunnels() && NothingSent()
      && if id in old(pendingRequests) then
           && pendingRequests == old(pendingRequests) - {id}
           && replies == old(replies)[old(pendingRequests[id]) := ReplyFor(d)]
         else SameRequests()
    }

    twostate predicate UpgradeSuccessStep(id: string, h: Fields)
      reads this
    {
      && SameSession() && SameRequests()
      && if id in old(pendingUpgrades) then
           var p := old(pendingUpgrades[id]);
           && pendingUpgrades == old(pendingUpgrades) - {id}
           && activeWebSockets == old(activeWebSockets)[id := p.socket]
           && sockets == old(sockets)[p.socket := Write(LogIn(old(sockets), p.socket), Str(Handshake.UpgradeResponse(h)))]
           && if |p.head| > 0 then Sent(WsData(id, Base64.Encode(p.head))) else NothingSent()
         else SameTunnels() && NothingSent()
    }

    twostate predicate UpgradeFailureStep(id: string)
      reads this
    {
      && SameSession() && SameRequests() && NothingSent()
      && activeWebSockets == old(activeWebSockets)
      && if id in old(pendingUpgrades) then
           var s := old(pendingUpgrades[id]).socket;
           && pendingUpgrades == old(pendingUpgrades) - {id}
           && sockets == old(sockets)[s := Destroy(LogIn(old(sockets), s))]
         else SameTunnels()
    }

    twostate predicate DataStep(id: string, chunk: string)
      reads this
    {
      && SameSession() && SameRequests() && NothingSent()
      && pendingUpgrades == old(pendingUpgrades) && activeWebSockets == old(activeWebSockets)
      && if id in old(activeWebSockets) then
           var s := old(activeWebSockets[id]);
           sockets == old(sockets)[s := Write(LogIn(old(sockets), s), Buf(Base64.Decode(chunk)))]
         else sockets == old(sockets)
    }

    twostate predicate CloseStep(id: string)
      reads this
    {
      && SameSession() && SameRequests() && NothingSent()
      && pendingUpgrades == old(pendingUpgrades)
      && if id in old(activeWebSockets) then
           var s := old(activeWebSockets[id]);
           && activeWebSockets == old(activeWebSockets) - {id}
           && sockets == old(sockets)[s := End(LogIn(old(sockets), s))]
         else SameTunnels()
    }

    /** The active agent is gone: every pending upgrade's socket destroyed,
        both socket tables emptied. Established tunnels' sockets are left as
        they are. */
    twostate predicate TornDown()
      reads this
    {
      && connectedClient == None
      && pendingUpgrades == map[] && activeWebSockets == map[]
      && sockets == DestroyAll(old(sockets), UpgradeSockets(old(pendingUpgrades)))
    }

    /** `sendToClient`: reports whether an agent is attached. */
    method SendToClient(m: Message) returns (sent: bool)
      modifies this`emitted
      ensures sent <==> connectedClient.Some?
      ensures Sent(m)
    {
      if connectedClient.Some? {
        emitted := emitted + [(connectedClient.value, m)];
        return true;
      }
      return false;
    }

    /** The `auth` event of connection `s`. A matching token makes `s` the
        agent, replacing (not disconnecting) any previous one. A wrong token is
        answered with `auth_failure` and the connection is dropped; socket.io
        runs the `disconnect` handler at once, which tears down only if `s`
        was the agent. */
    method OnAuth(s: SocketId, token: string)
      requires Valid()
      modifies this
      ensures Valid() && SameRequests()
      ensures token == authToken ==>
        && connectedClient == Some(s) && disconnected == old(disconnected)
        && emitted == old(emitted) + [(s, AuthSuccess)]
        && SameTunnels()
      ensures token != authToken ==>
        && emitted == old(emitted) + [(s, AuthFailure)]
        && disconnected == old(disconnected) + [s]
        && if old(connectedClient) == Some(s) then TornDown()
           else connectedClient == old(connectedClient) && SameTunnels()
    {
      if token == authToken {
        connectedClient := Some(s);
        emitted := emitted + [(s, AuthSuccess)];
      } else {
        emitted := emitted + [(s, AuthFailure)];
        disconnected := disconnected + [s];
        OnDisconnect(s);
      }
    }

    /** The `message` event of connection `s`: ignored unless `s` is the
        agent, otherwise dispatched on the message's variant. */
    method OnMessage(s: SocketId, m: Message)
      requires Valid()
      modifies this
      ensures Valid()
      ensures old(connectedClient) != Some(s) ==> unchanged(this)
      ensures old(connectedClient) == Some(s) ==>
        match m
        case HttpResponse(id, d) => HttpResponseStep(id, d)
        case WsUpgradeSuccess(id, h) => UpgradeSuccessStep(id, h)
        case WsUpgradeFailure(id) => UpgradeFailureStep(id)
        case WsData(id, chunk) => DataStep(id, chunk)
        case WsClose(id) => CloseStep(id)
        case _ => unchanged(this)
    {
      if connectedClient != Some(s) {
        return;
      }
      match m
      case HttpResponse(id, d) => HandleHttpResponse(id, d);
      case WsUpgradeSuccess(id, h) => HandleWsUpgradeSuccess(id, h);
      case WsUpgradeFailure(id) => HandleWsUpgradeFailure(id);
      case WsData(id, chunk) => HandleWsData(id, chunk);
      case WsClose(id) => HandleWsClose(id);
      case _ =>
    }

    /** The `disconnect` event of connection `s`. */
    method OnDisconnect(s: SocketId)
      requires Valid()
      modifies this
      ensures Valid()
      ensures SameRequests() && NothingSent() && disconnected == old(disconnected)
      ensures old(connectedClient) == Some(s) ==> TornDown()
      ensures old(connectedClient) != Some(s) ==> unchanged(this)
    {
      if connectedClient != Some(s) {
        return;
      }
      connectedClient := None;
      var todo := pendingUpgrades.Keys;
      while todo != {}
        invariant todo <= pendingUpgrades.Keys
        invariant pendingUpgrades == old(pendingUpgrades) && activeWebSockets == old(activeWebSockets)
        invariant SameRequests() && NothingSent() && disconnected == old(disconnected)
        invariant connectedClient == None
        invariant sockets == DestroyAll(old(sockets), UpgradeSockets(pendingUpgrades - todo))
        decreases todo
      {
        var id :| id in todo;
        var sock := pendingUpgrades[id].socket;
        DestroyOneMore(old(sockets), pendingUpgrades, todo, id);
        sockets := sockets[sock := Destroy(LogIn(sockets, sock))];
        todo := todo - {id};
      }
      assert pendingUpgrades - {} == pendingUpgrades;
      pendingUpgrades := map[];
      activeWebSockets := map[];
    }

    /** `handleHttpResponse`: an atomic take from `pendingRequests`, then the
        reply. An unknown or already answered id is ignored. */
    method HandleHttpResponse(id: string, d: ResponseData)
      requires Valid()
      modifies this
      ensures Valid() && HttpResponseStep(id, d)
    {
      if id !in pendingRequests {
        return;
      }
      var res := pendingRequests[id];
      pendingRequests := pendingRequests - {id};
      var applied := ApplyHeaders(HeadersOrEmpty(d.headers));
      replies := replies[res := Reply(d.statusCode, applied, ReplyBody(d.body, d.encoding))];
    }

    /** `handleWsUpgradeSuccess`: write the 101 response, forward the buffered
        head to the agent, and move the id from pending to established. */
    method HandleWsUpgradeSuccess(id: string, h: Fields)
      requires Valid()
      modifies this
      ensures Valid() && UpgradeSuccessStep(id, h)
    {
      if id !in pendingUpgrades {
        return;
      }
      var p := pendingUpgrades[id];
      var response := Handshake.BuildUpgradeResponse(h);
      sockets := sockets[p.socket := Write(LogIn(sockets, p.socket), Str(response))];
      if |p.head| > 0 {
        var _ := SendToClient(WsData(id, Base64.Encode(p.head)));
      }
      activeWebSockets := activeWebSockets[id := p.socket];
      pendingUpgrades := pendingUpgrades - {id};
    }

    /** `handleWsUpgradeFailure`: destroy the browser's socket, forget the id. */
    method HandleWsUpgradeFailure(id: string)
      requires Valid()
      modifies this
      ensures Valid() && UpgradeFailureStep(id)
    {
      if id !in pendingUpgrades {
        return;
      }
      var sock := pendingUpgrades[id].socket;
      sockets := sockets[sock := Destroy(LogIn(sockets, sock))];
      pendingUpgrades := pendingUpgrades - {id};
    }

    /** `handleWsData`: the decoded bytes go to the tunnel's socket. */
    method HandleWsData(id: string, chunk: string)
      requires Valid()
      modifies this
      ensures Valid() && DataStep(id, chunk)
    {
      if id !in activeWebSockets {
        return;
      }
      var sock := activeWebSockets[id];
      sockets := sockets[sock := Write(LogIn(sockets, sock), Buf(Base64.Decode(chunk)))];
    }

    /** `handleWsClose`: end the tunnel's socket, forget the id. */
    method HandleWsClose(id: string)
      requires Valid()
      modifies this
      ensures Valid() && CloseStep(id)
    {
      if id !in activeWebSockets {
        return;
      }
      var sock := activeWebSockets[id];
      sockets := sockets[sock := End(LogIn(sockets, sock))];
      activeWebSockets := activeWebSockets - {id};
    }

    /** The `data` listener put on an upgraded socket: bytes from the browser
        go to the agent as one `ws_data`. */
    method OnBrowserData(id: string, data: seq<byte>)
      requires Valid()
      modifies this
      ensures Valid()
      ensures SameSession() && SameRequests() && SameTunnels()
      ensures Sent(WsData(id, Base64.Encode(data)))
    {
      var _ := SendToClient(WsData(id, Base64.Encode(data)));
    }

    /** The `close` listener put on an upgraded socket: forget the id in both
        socket tables and tell the agent. */
    method OnBrowserClose(id: string)
      requires Valid()
      modifies this
      ensures Valid()
      ensures SameSession() && SameRequests() && sockets == old(sockets)
      ensures activeWebSockets == old(activeWebSockets) - {id}
      ensures pendingUpgrades == old(pendingUpgrades) - {id}
      ensures Sent(WsClose(id))
    {
      activeWebSockets := activeWebSockets - {id};
      pendingUpgrades := pendingUpgrades - {id};
      var _ := SendToClient(WsClose(id));
    }

    /** The `error` listener put on an upgraded socket: forget the id, tell
        nobody. */
    method OnBrowserError(id: string)
      requires Valid()
      modifies this
      ensures Valid()
      ensures SameSession() && SameRequests() && sockets == old(sockets) && NothingSent()
      ensures activeWebSockets == old(activeWebSockets) - {id}
      ensures pendingUpgrades == old(pendingUpgrades) - {id}
    {
      activeWebSockets := activeWebSockets - {id};
      pendingUpgrades := pendingUpgrades - {id};
    }

    /** Registers an upgrade request under a freshly minted id; it stands for
        the upgrade ingress, which is not part of this model. */
    method AddPendingUpgrade(id: string, socket: RawSocket, head: seq<byte>)
      requires Valid()
      requires id !in pendingUpgrades && id !in activeWebSockets
      modifies this
      ensures Valid()
      ensures SameSession() && SameRequests() && NothingSent()
      ensures activeWebSockets == old(activeWebSockets) && sockets == old(sockets)
      ensures pendingUpgrades == old(pendingUpgrades)[id := PendingUpgrade(socket, head)]
    {
      pendingUpgrades := pendingUpgrades[id := PendingUpgrade(socket, head)];
    }
  }

  /** One more pending upgrade's socket destroyed in the disconnect loop. */
  lemma DestroyOneMore(logs: map<RawSocket, SocketLog>, p: map<string, PendingUpgrade>, todo: set<string>, id: string)
    requires id in todo && todo <= p.Keys
    ensures var done := DestroyAll(logs, UpgradeSockets(p - todo));
            DestroyAll(logs, UpgradeSockets(p - (todo - {id})))
              == done[p[id].socket := Destroy(LogIn(done, p[id].socket))]
  {
    var s := p[id].socket;
    assert UpgradeSockets(p - (todo - {id})) == UpgradeSockets(p - todo) + {s} by {
      forall x | x in UpgradeSockets(p - (todo - {id})) ensures x in UpgradeSockets(p - todo) + {s} {
        var j :| j in p - (todo - {id}) && (p - (todo - {id}))[j].socket == x;
        if j != id {
          assert j in p - todo;
        }
      }
      forall x | x in UpgradeSockets(p - todo) ensures x in UpgradeSockets(p - (todo - {id})) {
        var j :| j in p - todo && (p - todo)[j].socket == x;
        assert j in p - (todo - {id});
      }
      assert id in p - (todo - {id});
    }
  }
}
