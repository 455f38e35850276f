# Foundry proxy tunnel: a Dafny model of its bookkeeping

The Foundry proxy service makes a Foundry game server on a private network
reachable from the internet. A public **relay** accepts browser HTTP requests
and WebSocket upgrades. It forwards each one as a message over one
authenticated socket.io connection, which an **agent** beside the game server
opens to the relay. The agent replays each request against the game server and
sends the result back.

This project models and proves two parts of that system:

- **The relay's state machine** (`server/tunnelServer.js`, `server/httpProxy.js`).
  The state is one slot for the active agent connection plus three correlation
  tables: HTTP calls waiting for a response, upgrades waiting for the agent's
  answer, and established WebSocket tunnels. `TunnelServer.Relay` is a class
  with these four fields. Each event handler is a method on it whose
  postcondition gives the whole new state. The relay's effects on the outside
  are kept as logs:
  - every message emitted to a control connection, and every connection
    dropped;
  - the reply given to each Express response object: its `setHeader` calls,
    its status and its body;
  - the `write` calls made on each raw browser socket (a string or a
    `Buffer`), and whether the socket was ended or destroyed. `TunnelServer.Wire`
    gives the bytes the browser receives from them.

  An invariant, `Valid`, is kept by every handler. It says that no id is both
  pending and established, and that each unanswered call's response object is
  unanswered and belongs to that call alone. So a browser gets at most one
  reply.
- **The agent's response shaping** (`client/foundryProxy.js`). `fetch` is an
  input: a function from the upstream request to an outcome, which is either
  "threw" or a status, a header object and the body. What is left is the
  binary/text classifier, the header rewriting and the fixed 503 reply.

Supporting modules:

- `MessageTypes`: the two message-type tables, `FoundryProxyClient/protocol.js`
  and `shared/protocol.js`.
- `Protocol`: the messages as a closed variant type, and the relay's `switch`.
- `Base64`: Node's base64. Encoding is section 4 of RFC 4648; decoding is
  lenient. Decoding what was encoded gives back the original bytes.
- `Handshake`: the `101 Switching Protocols` response, with a parser that
  reads the header list back from it.
- `Core`: JavaScript objects as ordered entry lists, and the string helpers
  the source uses.

Two places where the repository disagrees with itself are kept as they are:

- **The relay uses the wrong tag table.** The relay imports
  `shared/protocol.js`, which has no `AUTH_*` or `WS_*` keys. See Findings.
  The relay class uses the corrected dispatch.
- **Binary bodies are never decoded.** The agent marks a binary body with an
  `x-binary-data: true` header. The relay decodes a body only when a separate
  `encoding` field is `'base64'`, and the agent never sets that field. The
  model states what actually happens: the browser receives the base64 text,
  with the flag among its headers (`FoundryProxy.BinaryBodyReachesBrowserEncoded`).
  No end-to-end round trip is claimed. `TunnelServer.ReplyBodyDecodes` shows
  only what the relay would do if `encoding` were set. See Findings.

The code also lacks some behaviour that a design for such a tunnel would
have. The model follows the code:

- There is no deadline and no 504.
- When the agent disconnects, waiting HTTP calls are not failed. They stay in
  `pendingRequests` with no reply.
- Established WebSocket tunnels are dropped from their table when the agent
  disconnects, but their sockets are neither ended nor destroyed. Only the
  sockets of pending upgrades are destroyed.
- A second agent that authenticates replaces the first as the active one, but
  the first connection is not disconnected.
- An HTTP request that arrives with no agent attached is still registered and
  never answered.

## Model

| member | source | states |
|---|---|---|
| `MessageTypes.Name` | FoundryProxyClient/protocol.js:1-17 | each tag's string is the one its table defines; where both tables define a key they agree |
| `MessageTypes.TablesConsistent` | FoundryProxyClient/protocol.js:1-17 | the two tables never give one key two strings, and each table is injective |
| `MessageTypes.SharedTableGaps` | shared/protocol.js:2-10 | the relay's table lacks exactly the authentication and WebSocket keys |
| `Protocol.AsWrittenMisroutes` | server/tunnelServer.js:42-58 | with the imported table, only `http_response` reaches a handler, a type-less message runs the upgrade-success handler, and auth/ws replies are emitted without a type |
| `Protocol.Route` | server/tunnelServer.js:42-58 | with the full table, a handler runs iff the message's type is that handler's own tag string |
| `Protocol.DispatchIsRoute` | server/tunnelServer.js:39-59 | matching on the message variant is the corrected string switch |
| `Core.LowerChars` | server/tunnelServer.js:87 | `Lower`, the model of `toLowerCase` (ASCII folding, exact for the comparison at line 87), maps each character in place: the ASCII capitals to small letters, every other character to itself |
| `Core.Includes` | client/foundryProxy.js:45-49 | `includes` is true iff the fragment occurs at some position |
| `Core.Put` | client/foundryProxy.js:56 | after `obj[k] = v`, `k` reads `v`, every other key reads as before, and a new key is appended at the end |
| `Core.Remove` | client/foundryProxy.js:63-64 | after `delete obj[k]`, `k` is absent and every other entry is kept |
| `Core.Utf8` | server/tunnelServer.js:124 | an ASCII string written to a socket becomes one byte per character, its character code |
| `Core.Utf8CharDecodes` | server/tunnelServer.js:124 | each character's bytes start with a lead byte announcing how many there are, and read back as that character's code point (section 3 of RFC 3629) |
| `Core.Utf8Decodes` | server/tunnelServer.js:124 | decoding the bytes a string write puts on the wire gives back the string's code points, in order |
| `TunnelServer.WireAppend` | server/tunnelServer.js:185 | each `write` appends its own bytes to what the browser has received, after the bytes of the earlier writes |
| `Base64.Encode` | server/tunnelServer.js:131 | the encoding is four characters for every three bytes or part of three |
| `Base64.DecodeEncode` | server/tunnelServer.js:97 | `Buffer.from(x.toString('base64'), 'base64')` gives back `x` |
| `Handshake.BuildUpgradeResponse` | server/tunnelServer.js:116-121 | the response is the status line, one `name: value` CRLF line per header in order, then CRLF |
| `Handshake.UpgradeResponseRoundTrip` | server/tunnelServer.js:116-121 | parsing the 101 response recovers the header list, in order, for well-formed header names and values |
| `TunnelServer.AppliedHeadersMembers` | server/tunnelServer.js:85-90 | a response header is applied iff it is present and its lower-cased name is not `transfer-encoding` |
| `TunnelServer.ApplyHeaders` | server/tunnelServer.js:85-90 | the `setHeader` calls are the response headers, in order, minus `transfer-encoding` |
| `TunnelServer.ReplyBody` | server/tunnelServer.js:94-103 | a missing or empty body ends the reply with no body; otherwise the body is bytes iff `encoding` is `'base64'`, and then exactly the base64 decoding of the text; otherwise the text as is |
| `TunnelServer.ReplyBodyDecodes` | server/tunnelServer.js:96-97 | a non-empty body sent base64-encoded with `encoding: 'base64'` reaches the browser as the original bytes |
| `TunnelServer.DestroyAll` | server/tunnelServer.js:67-69 | the disconnect loop destroys exactly the pending-upgrade sockets and leaves every other socket as it was |
| `TunnelServer.Relay.constructor` | server/tunnelServer.js:10-13 | the relay starts with no agent, empty tables and empty logs |
| `TunnelServer.Relay.SendToClient` | server/tunnelServer.js:15-21 | returns true and emits exactly this message to the agent iff an agent is attached; otherwise emits nothing |
| `TunnelServer.Relay.OnAuth` | server/tunnelServer.js:27-37 | a matching token makes the connection the agent and answers `auth_success`, with the previous agent not disconnected; a wrong token answers `auth_failure`, disconnects the connection and leaves the agent slot alone unless that connection was the agent |
| `TunnelServer.Relay.OnMessage` | server/tunnelServer.js:39-59 | a message from any connection but the agent changes nothing; otherwise the state changes exactly as the handler for its tag says |
| `TunnelServer.Relay.OnDisconnect` | server/tunnelServer.js:61-73 | the agent's disconnect clears the slot, destroys every pending-upgrade socket and empties both socket tables, leaving `pendingRequests` untouched; any other disconnect changes nothing |
| `TunnelServer.Relay.HandleHttpResponse` | server/tunnelServer.js:76-106 | an unknown id is a no-op; otherwise the id is taken out of `pendingRequests` and its reply object gets the status, the filtered headers and the body |
| `TunnelServer.Relay.HandleWsUpgradeSuccess` | server/tunnelServer.js:108-166 | for a pending id: writes the 101 response to its socket, forwards a non-empty head as one `ws_data`, and moves the id from pending to established; an unknown id is a no-op |
| `TunnelServer.Relay.HandleWsUpgradeFailure` | server/tunnelServer.js:168-178 | for a pending id: destroys its socket and drops the id; an unknown id is a no-op |
| `TunnelServer.Relay.HandleWsData` | server/tunnelServer.js:180-186 | for an established id: writes the decoded bytes to its socket as one `Buffer`; an unknown id is a no-op |
| `TunnelServer.Relay.HandleWsClose` | server/tunnelServer.js:188-194 | for an established id: ends its socket and drops the id; an unknown id is a no-op |
| `TunnelServer.Relay.OnBrowserData` | server/tunnelServer.js:139-145 | browser bytes go to the agent as one base64 `ws_data` for the tunnel's id |
| `TunnelServer.Relay.OnBrowserClose` | server/tunnelServer.js:147-154 | a closed browser socket drops its id from both socket tables and sends `ws_close` |
| `TunnelServer.Relay.OnBrowserError` | server/tunnelServer.js:156-160 | a socket error drops the id from both socket tables and sends nothing |
| `TunnelServer.Relay.AddPendingUpgrade` | server/tunnelServer.js:109-113 | registers a (socket, head) pair under a fresh id, which is what the upgrade handlers read |
| `HttpProxy.HandleRequest` | server/httpProxy.js:15-31 | adds exactly the fresh id, mapped to its reply object, to `pendingRequests`; makes one `sendToClient` call with an `http_request` carrying that id and the request's method, url, headers and body unchanged; produces no reply |
| `HttpProxy.RequestThenResponses` | server/tunnelServer.js:76-80 | a request followed by its response and a duplicate response: the browser gets the first, and the duplicate changes nothing |
| `FoundryProxy.IsBinary` | client/foundryProxy.js:45-49 | a body is binary iff its content type contains `image/`, `font/`, `woff`, `application/octet-stream` or `application/pdf` |
| `FoundryProxy.MissingContentTypeIsText` | client/foundryProxy.js:42-49 | a response without a content type is treated as text |
| `FoundryProxy.SendToFoundry` | client/foundryProxy.js:4-75 | fetches `FOUNDRY_URL + url` with the method, headers and body unchanged. The result is an `http_response` with the request's id and no `encoding`. If the fetch fails: 503, `Content-Type: text/plain` and the fixed message. Otherwise: the upstream status; base64 of the bytes plus `x-binary-data: true` when binary, the text when not; no `content-encoding` or `content-length`; every other header as upstream |
| `FoundryProxy.FlaggedTextReply` | server/tunnelServer.js:85-103 | a non-empty body without `encoding` reaches the browser as that text, and an `x-binary-data: true` header reaches it too |
| `FoundryProxy.BinaryBodyReachesBrowserEncoded` | client/foundryProxy.js:51-56 | the relay sends a flagged binary body to the browser as base64 text, flag header included, because `encoding` is never set |

## Findings

| source | as written | input that shows it | evidently intended | confidence | as-written member | corrected member |
|---|---|---|---|---|---|---|
| server/tunnelServer.js:3 | The relay takes `MESSAGE_TYPES` from `shared/protocol.js`, which has no `AUTH_*` or `WS_*` keys. So in the dispatch `switch` at lines 42-58, and in the messages built at lines 31, 34, 129, 141 and 151, those constants are `undefined`. | The agent sends `{type: 'ws_data', id, data}`. It matches no case and is dropped. A message with no `type` runs `handleWsUpgradeSuccess`. | Use the table of `FoundryProxyClient/protocol.js`, so that each handler runs for its own type string. | not executed | `Protocol.AsWrittenMisroutes` | `Protocol.Route` |
| server/tunnelServer.js:96 | The relay decodes a body only when the message's `encoding` field is `'base64'`. The agent never sets `encoding`; it marks a binary body with an `x-binary-data: true` header instead (client/foundryProxy.js:51-56). | An image fetched by the agent. The browser receives the base64 text of the image, with `x-binary-data: true` among the headers, instead of the image bytes. | Agree on one marker: the agent sets `encoding: 'base64'` for a binary body, or the relay decodes when it sees `x-binary-data`. Then the browser gets the original bytes. | not executed | `FoundryProxy.BinaryBodyReachesBrowserEncoded` | `TunnelServer.ReplyBodyDecodes` |

`TunnelServer.Relay.OnMessage` dispatches on the message variant.
`Protocol.DispatchIsRoute` proves that this dispatch is the corrected switch.
The agent in this model is the code as written: it never sets `encoding`.
`TunnelServer.ReplyBodyDecodes` shows that either repair would deliver the
original bytes.

## Left out

- Transport setup is not modelled: the socket.io server, the Express app and
  listener, and `express.json`. The handlers are modelled as methods called one
  at a time. Concurrency is not modelled; Node runs the handlers one at a time
  on one event loop.
- `AUTH_TOKEN` is a constructor parameter. `FOUNDRY_URL` is a parameter of
  `SendToFoundry`. The config modules are not part of this model.
- Console logging is not modelled, including the extra logging for `/`
  requests in `client/foundryProxy.js`.
- `crypto.randomUUID()` is a freshness precondition on the id, and Express's
  new response object is a freshness precondition on the handle.
- `server/pendingRequests` is not part of this model. `pendingRequests` is a
  map field of the relay.
- `pendingUpgrades` is never defined or exported by `server/httpProxy.js`. As
  written, `require('./httpProxy').pendingUpgrades` is `undefined`, so the
  upgrade handlers and the disconnect loop would throw. The model makes it a
  field of the relay.
- The upgrade ingress is not in the source and is not modelled. It would mint
  an id, buffer the socket and send `ws_upgrade`.
  `TunnelServer.Relay.AddPendingUpgrade` stands in for its registration step.
- The browser-socket listeners at `server/tunnelServer.js:139-160` are modelled
  as methods that take the id their closure captured. The model does not
  restrict them to sockets that went through an upgrade.
- Express's own handling of `setHeader`, `status`, `send` and `end` is not
  modelled: content-type inference, merging of header names, and
  `Content-Length`. A reply records the calls made.
- Header objects are entry lists in `Object.entries` order. JavaScript's rule
  that integer-like keys come first is not modelled. Neither are non-string
  header values, such as arrays, which a template literal would join with
  commas.
- `fetch`, `arrayBuffer()` and `text()` are network I/O. The agent takes their
  result as an input. The UTF-8 decoding done by `text()` is part of that
  input. `arrayBuffer()` (client/foundryProxy.js:54) and `text()` (line 59)
  are called outside the `try` at lines 15-39. So a failure while reading the
  body rejects `sendToFoundry` instead of producing the 503 reply.
  `Outcome.Fetched` cannot express such a failure, and the model leaves that
  path out.
- Strings are sequences of Unicode scalar values, while JavaScript strings are
  UTF-16 code units. `Core.Utf8` therefore cannot express a lone surrogate,
  which Node writes as the bytes EF BF BD.
- `Base64.Decode` follows Node's lenient decoder: it skips characters outside
  the alphabet, accepts `-` and `_`, and stops at the first `=`. Node's exact
  results for other malformed input are not modelled.
- `Core.Lower` folds only ASCII letters. This is exact for the one comparison
  made with it: no non-ASCII character lower-cases to a single letter of
  `transfer-encoding`.
- `client/tunnelClient.js` is not part of this model. Its only logic is a
  switch whose outcomes are side effects, and its HTTP handler is a stub.
- Deadlines, 504 replies, 503 replies on disconnect and message validation are
  not modelled, because the source has none of them.
- Exceptions thrown on malformed agent messages are not modelled. The message
  types hold only well-formed messages:
  - `server/tunnelServer.js:82` destructures `message.data`. A missing `data`
    throws after line 80 has already removed the entry from
    `pendingRequests`, so that browser call is never answered.
  - Line 118 calls `Object.entries(headers)` without `|| {}`, so an upgrade
    success without `headers` throws.
  - `setHeader` at line 88 throws on an invalid header name or value.
  - `res.status` at line 92, or the send that follows, throws on a missing or
    out-of-range status code. `ResponseData.statusCode` is always a number
    here, and any number is taken as given.
  - Line 184 `Buffer.from(message.data, 'base64')` throws when `data` is
    missing. `WsData.chunk` is always a string here.
- `FoundryProxy.SendToFoundry`: states header pass-through key by key, by
  lookup. It does not state the order of the remaining entries.
- `Handshake.UpgradeResponseRoundTrip`: assumes header names without colons
  or line breaks and values without line breaks. For other headers the written
  response does not parse back.
