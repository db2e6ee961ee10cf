# devops backend: request-handling core in Dafny

This project models the request-handling logic of the devops demo backend.
That backend serves one `items` table over several transports. The model
covers:

- **Item CRUD with read-through caches** (`Rest`, `Graph`, `Store`). The
  REST `/items` handlers and the GraphQL resolvers share one Postgres table
  whose ids come from a `SERIAL` sequence. Each surface caches its listing
  under its own Redis key: `items:list` for REST, `gql:items:list` for
  GraphQL. Every handler validates, then queries, then invalidates its own
  key. The table and the cache are the classes `Store.Database` and
  `Store.Redis`. The SQL list query is specified by the predicate
  `Store.IsNewestFirst`, which holds of exactly one listing per table.
- **Bearer authentication** (`Auth`). `issueToken` fills in its claim
  defaults. `authMiddleware` takes one decision per request: 401 "Missing
  token", 401 "Invalid token", or pass-through with the decoded claims.
  Signature checking is an abstract `Verifier` (a function from token text
  to optional claims). Every adapter uses the same verifier, as they all
  read the same environment.
- **The raw WebSocket channel** (`RawWs`). This is the reply each inbound
  frame gets. It also covers the per-connection `isAlive` flag that `pong`
  sets and the 30-second heartbeat clears or acts on.
- **Socket.IO rooms** (`Rooms`). This covers the handshake, the
  connection-to-rooms relation that `room:join` and `room:leave` change, and
  the normalisation and audience of `chat:send`.
- **The gRPC echo service** (`Echo`). This covers `SayHello` and the timer
  lifecycle of one `StreamTime` call. Ticks and the `cancelled`, `error` and
  `end` events are modelled as explicit events.
- **Cross-adapter agreement** (`AuthConsistency`). For the same token, the
  REST middleware, the GraphQL gate and context, and the Socket.IO
  handshake agree, with one stated exception.

Handlers that change state are methods of classes over the table, the cache
and the membership maps. Their `ensures` give the whole new state. The
properties the source promises are stated on pure functions and lemmas:

- the listing is unique (`Store.NewestFirstUnique`);
- an insert makes any earlier listing stale (`Store.InsertMakesListingStale`);
- a GraphQL id round-trips through Postgres' integer reading (`Graph.IdTextRoundTrip`);
- a peer that answers every ping survives (`RawWs.AnsweringPeerSurvives`);
- a stream writes exactly one message per tick before its first stop
  (`Echo.WritesAreTicksBeforeStop`).

Each handler method also preserves `SlotFresh`: when its own cache slot is
present, the slot holds the current listing of the table.

Several comments in the source describe more than the code does. The model
follows the code:

- **REST is not authenticated as wired.** The comment "REST routes
  (protected)" (backend/src/index.js:126) sits above `authMiddleware` mounted
  on the `/api` prefix (backend/src/index.js:127). The REST routes are
  registered at `/items` (backend/src/rest/routes.js:19), so no REST handler
  goes through the middleware. `Auth.Authenticate` models the middleware on
  its own, and the `Rest` handlers take no credentials.
- **GraphQL rejects in two places.** The comment at
  backend/src/graphql/server.js:96 says GraphQL is protected by
  `authMiddleware`. In fact it has its own gate, which only checks the
  `"Bearer "` prefix and answers 401 "Missing token" without it
  (backend/src/graphql/server.js:97-102). Every request that passes the gate
  then has its token verified when the context is built, and a failure there
  fails the request (backend/src/graphql/server.js:105-113). So no resolver
  runs without a verified token; only the way a rejection is reported
  differs. The two adapters part only on the header value `"Bearer "` alone:
  `authMiddleware` answers it "Missing token", while the GraphQL gate passes
  it on and the empty token goes to verification. That difference matters
  only for a verifier that accepts the empty token, which `jsonwebtoken`
  does not. See `AuthConsistency.BarePrefixDivergence`.
- **The raw WebSocket channel and the gRPC service check no credentials.**
  The `ws` token check is left commented out, for whoever wants to enforce
  auth (backend/src/ws/ws.js:21-29).
- **The heartbeat that kills dead connections** (backend/src/ws/ws.js:79-86)
  terminates a connection at the first tick that finds its flag still false.
  That is one missed pong after the ping that cleared it. See
  `RawWs.MissedPongTerminates`.
- **GraphQL ids are read by Postgres.** `updateItem` passes `args.id`
  untrimmed and `deleteItem` passes the text after `trim()`. Postgres reads
  the text as an integer literal (`Graph.PgInteger`). It skips only ASCII
  white space (space, tab, line feed, vertical tab, form feed, carriage
  return) around an optional sign and decimal digits. `trim()` also removes
  the no-break space and the byte-order mark. So an id padded with a
  no-break space fails in `updateItem`'s query but is read by `deleteItem`
  (`Graph.NoBreakSpacePaddedId`). Text that is not an integer literal makes
  the query fail with "invalid input syntax for type integer"
  (`Graph.BadIdSyntax`). This happens before any change.

## Model

| member | source | states |
|---|---|---|
| Store.Database.Insert | backend/src/lib/db.js:16-20 | the new row gets id lastId+1, above every existing id, with the given name and creation time; exactly that row is added |
| Store.Database.UpdateName | backend/src/rest/routes.js:77-80 | the `UPDATE ... RETURNING` both surfaces issue (also backend/src/graphql/server.js:56-59): a row is returned iff the id exists; only its name changes; the id counter is unchanged |
| Store.Database.DeleteById | backend/src/rest/routes.js:104 | the `DELETE` both surfaces issue (also backend/src/graphql/server.js:72-75): the result is whether the id existed; exactly that id is removed |
| Store.Database.SelectNewest | backend/src/rest/routes.js:25 | the scan from the newest id down returns what `ORDER BY id DESC LIMIT n` specifies: table rows, strictly descending ids, at most n, all rows when fewer, no unlisted row newer than a listed one |
| Store.NewestFirstAgreeUpTo | backend/src/rest/routes.js:25 | two listings satisfying the list query's specification on one table agree position by position |
| Store.NewestFirstUnique | backend/src/graphql/server.js:33 | the list query has exactly one answer per table, so the REST and GraphQL misses compute the same listing |
| Store.InsertMakesListingStale | backend/src/rest/routes.js:47-48 | after an insert with a fresh larger id, no earlier listing is a correct listing, which is why the create handlers delete their key |
| Store.Redis.Get | backend/src/rest/routes.js:22 | a hit iff the key is present, returning the stored snapshot |
| Store.Redis.SetEx | backend/src/rest/routes.js:26 | only that key is set, to the snapshot and TTL |
| Store.Redis.Del | backend/src/rest/routes.js:48 | only that key is removed |
| Store.Redis.Expire | backend/src/rest/routes.js:26 | TTL expiry removes only that key |
| Rest.ValidateName | backend/src/rest/routes.js:3-5 | a name is accepted iff it is a string of 1 to 100 characters, and is then returned unchanged; empty is TooShort and over 100 is TooLong, never truncated |
| Rest.RestApi.GetItems | backend/src/rest/routes.js:19-28 | a hit answers the cached snapshot with source redis and changes nothing; a miss answers a correct newest-first listing of at most 50 and caches exactly it for 10 seconds |
| Rest.RestApi.PostItem | backend/src/rest/routes.js:41-54 | an invalid name gives 400 and no change; a valid one adds exactly one row with a fresh larger id, deletes only items:list, publishes to the brokers that accept, and answers 201 with the row whatever the brokers did |
| Rest.RestApi.PutItem | backend/src/rest/routes.js:69-84 | a bad id or name gives 400 before any change; a missing row gives 404 and leaves the cache; otherwise only the name changes and items:list is deleted |
| Rest.RestApi.DeleteItem | backend/src/rest/routes.js:99-108 | a bad id gives 400; a missing row gives 404 and leaves the cache; otherwise exactly that row goes, items:list is deleted and 204 is answered |
| Rest.DeleteTwice | backend/src/rest/routes.js:104-105 | a second DELETE of the same id is always 404 |
| Graph.Me | backend/src/graphql/server.js:27 | the caller's sub, or "unknown" when it is absent or empty |
| Graph.NormalizeName | backend/src/graphql/server.js:40 | names longer than 100 characters are cut to their first 100, shorter ones kept; empty only for an empty name |
| Graph.DecimalTextValue | backend/src/graphql/server.js:72-75 | the digits of a non-negative number denote that number |
| Graph.IdTextRoundTrip | backend/src/graphql/server.js:72-75 | the decimal id text a client sends is read back by the integer parameter as the same id |
| Graph.PgInteger | backend/src/graphql/server.js:56-59 | the id text Postgres reads as an integer; empty text and text made only of ASCII white space are syntax errors, and `IdTextRoundTrip` and `NoBreakSpacePaddedId` fix what it reads |
| Graph.IdTextTrimmed | backend/src/graphql/server.js:68 | `trim()` leaves the decimal id text of any item unchanged |
| Graph.NoBreakSpacePaddedId | backend/src/graphql/server.js:56-59 | an id padded with a no-break space is not an integer to Postgres, so `updateItem` fails on it, while after `deleteItem`'s `trim()` it reads as the id |
| Graph.GraphRequestAuth | backend/src/graphql/server.js:97-115 | the gate rejects iff the header lacks the "Bearer " prefix; otherwise the text after the first 7 characters is verified and its claims become the context user, or the request fails |
| Graph.GraphApi.Items | backend/src/graphql/server.js:28-36 | read-through on gql:items:list: a hit answers the snapshot and changes nothing; a miss answers a correct listing and caches it for 10 seconds |
| Graph.GraphApi.CreateItem | backend/src/graphql/server.js:39-50 | an empty name fails "name required" with no change; otherwise one row with the truncated name and a fresh larger id is added, only gql:items:list is deleted and the row answered |
| Graph.GraphApi.UpdateItem | backend/src/graphql/server.js:52-64 | an empty name or an unreadable id fails with no change; otherwise gql:items:list is deleted whether or not the row exists, and a missing row then fails "item not found" |
| Graph.GraphApi.DeleteItem | backend/src/graphql/server.js:66-81 | an id that trims to empty fails "id required" and an unreadable one fails in the query, both with no change; otherwise the answer is whether the row existed, the row is gone and gql:items:list is deleted |
| Graph.DeleteTwice | backend/src/graphql/server.js:72-80 | deleting the same id twice answers whether it existed, then false; never an error |
| Auth.Setting | backend/src/lib/auth.js:5-6 | an unset or empty variable falls back to the default |
| Auth.IssueToken | backend/src/lib/auth.js:3-14 | the signer gets the payload, the secret, HS256, a 3600-second lifetime and the configured issuer and audience, or the defaults when a variable is unset or empty, which pass verification's issuer/audience checks under the same environment |
| Auth.BearerToken | backend/src/lib/auth.js:17-19 | a token exists iff the header starts with "Bearer " and has more after it, and is then exactly the rest of the header |
| Auth.Authenticate | backend/src/lib/auth.js:16-31 | exactly one outcome: "Missing token" iff no bearer token, "Invalid token" iff verification fails, otherwise pass-through with the decoded claims |
| AuthConsistency.SameTokenSameVerdict | backend/src/ws/socket.js:13-25 | a non-empty token is accepted by the REST middleware, the GraphQL context and the Socket.IO handshake alike or by none, with the same claims |
| AuthConsistency.NoTokenRejectedEverywhere | backend/src/graphql/server.js:99-100 | a request without a token is rejected by all three adapters before verification |
| AuthConsistency.BarePrefixDivergence | backend/src/graphql/server.js:100-107 | the header "Bearer " alone is "Missing token" for REST but passes the GraphQL gate and verifies the empty token |
| RawWs.HandleMessageAsWritten | backend/src/ws/ws.js:37-64 | the listener as written: the frame null throws instead of replying |
| RawWs.HandleMessage | backend/src/ws/ws.js:43-63 | every frame gets exactly one reply: unparseable text verbatim, a pong iff the type is "ping", an echo with data or null iff the type is "echo", otherwise unknown with the value |
| RawWs.AsWrittenAgreesExceptNull | backend/src/ws/ws.js:52-63 | on every frame but null the listener as written sends the reply of `HandleMessage` |
| RawWs.NullFrameThrows | backend/src/ws/ws.js:52 | the null frame throws as written, and gets unknown(null) in the corrected listener |
| RawWs.Sweep | backend/src/ws/ws.js:81-85 | a heartbeat keeps exactly the connections whose flag was true, each with its flag cleared |
| RawWs.PongAll | backend/src/ws/ws.js:33-35 | a pong sets the flag of the answering connections and leaves the set of connections alone |
| RawWs.AnsweringPeerSurvives | backend/src/ws/ws.js:80-86 | a live connection that answers every ping is never terminated |
| RawWs.MissedPongTerminates | backend/src/ws/ws.js:82 | a connection that misses one pong is terminated on the next heartbeat |
| RawWs.WsServer.Connect | backend/src/ws/ws.js:31-75 | a new connection starts alive and is sent the welcome frame with path /ws |
| RawWs.WsServer.OnPong | backend/src/ws/ws.js:33-35 | only the answering connection's flag is set |
| RawWs.WsServer.OnClose | backend/src/ws/ws.js:66-68 | the closed connection leaves the client set |
| RawWs.WsServer.Heartbeat | backend/src/ws/ws.js:80-86 | the loop over the clients terminates exactly those whose flag was false, pings exactly the others and leaves the flags as `Sweep` says |
| Rooms.HandshakeToken | backend/src/ws/socket.js:13 | the auth token if non-empty, else the header token if non-empty, else none |
| Rooms.Authorize | backend/src/ws/socket.js:11-26 | "Missing token" iff no token, "Invalid token" iff verification fails, admission iff a token verifies, with the decoded claims |
| Rooms.ChatRoom | backend/src/ws/socket.js:47 | the payload room when truthy, "lobby" otherwise |
| Rooms.ChatText | backend/src/ws/socket.js:48 | the payload message cut to at most 200 characters, empty when falsy |
| Rooms.Members | backend/src/ws/socket.js:51 | exactly the connections currently in the room |
| Rooms.JoinChangesOneAudience | backend/src/ws/socket.js:33-34 | a join adds the joiner to that room's audience and changes no other room's |
| Rooms.LeaveChangesOneAudience | backend/src/ws/socket.js:40-41 | a leave removes the leaver from that room's audience only |
| Rooms.JoinThenLeave | backend/src/ws/socket.js:33-43 | leaving a room just joined (and not held before) restores the membership |
| Rooms.RoomServer.Connect | backend/src/ws/socket.js:11-26 | an admitted connection is recorded with its claims and in its own room; a rejected one changes nothing |
| Rooms.RoomServer.Join | backend/src/ws/socket.js:33-37 | the connection joins `String(room)` only; a callback gets ok with the room as sent |
| Rooms.RoomServer.Leave | backend/src/ws/socket.js:40-43 | the connection leaves `String(room)` only; a callback gets ok with the room as sent |
| Rooms.RoomServer.Send | backend/src/ws/socket.js:46-59 | the message from the sender's sub goes to exactly the room's current members, the sender iff it is one; a callback gets ok; nothing changes |
| Rooms.RoomServer.Disconnect | backend/src/ws/socket.js:62-64 | the connection and all its memberships go |
| Echo.GreetedName | backend/src/grpc/server.js:24 | "world" for an empty name, otherwise the name cut to 50 characters; never empty |
| Echo.SayHello | backend/src/grpc/server.js:23-26 | the reply is at most 68 characters long; what it says is stated by `Echo.GreetingRoundTrip` |
| Echo.GreetingRoundTrip | backend/src/grpc/server.js:23-26 | the reply is "Hello ", the greeted name and " (from gRPC)", and the name can be read back out of it |
| Echo.IntervalSeconds | backend/src/grpc/server.js:30 | the period is the request's when within 1 to 10, 1 for 0 or below, 10 above; always within 1 to 10 |
| Echo.Step | backend/src/grpc/server.js:31-41 | a tick writes only while the timer runs; cancelled, error and end stop it without writing |
| Echo.StoppedStaysSilent | backend/src/grpc/server.js:36-40 | once the timer is cleared no further event writes or restarts it |
| Echo.WritesAreTicksBeforeStop | backend/src/grpc/server.js:31-40 | from an open call, what is written is exactly one message per tick before the first stop, in order |
| Echo.EndedImpliesStopped | backend/src/grpc/server.js:38-41 | a call the server has ended never has a running timer |
| Echo.RepeatedStopIsHarmless | backend/src/grpc/server.js:36-41 | a second stop after a first one writes nothing and leaves the timer cleared |
| Echo.StreamCall.constructor | backend/src/grpc/server.js:29-34 | a call opens with one running timer of period 1000 times the clamped seconds, nothing written |
| Echo.StreamCall.OnTick | backend/src/grpc/server.js:31-34 | the call's state after a tick is `Step` of the old state |
| Echo.StreamCall.OnCancelled | backend/src/grpc/server.js:36 | the timer is cleared, as `Step` says |
| Echo.StreamCall.OnError | backend/src/grpc/server.js:37 | the timer is cleared, as `Step` says |
| Echo.StreamCall.OnEnd | backend/src/grpc/server.js:38-41 | the timer is cleared and the call ended, as `Step` says |

## Left out

- Node's HTTP parser strips trailing spaces from header values, so the header `Bearer ` reaches both handlers as `Bearer`. Header values are taken as sent.
- JSON parsing and serialisation are not modelled. An inbound frame arrives as unparseable text or as a parsed `Json` value. Snapshots are stored as item sequences, and `created_at` and ISO times are integer `Timestamp`s.
- JWT signing, signature checking and expiry are not modelled. Verification is the abstract `Verifier`, and issuing is modelled as the request handed to the signer.
- Timers, wall clocks and concurrency between handlers are not modelled. Ticks, pongs, TTL expiry and stream events are explicit calls applied one at a time, and the `wss` close handler that stops the heartbeat is not modelled.
- Socket termination is modelled as immediate removal from the client set, and `ping()` as membership in the returned `pinged` set.
- Client arguments that are numbers, booleans or objects are not modelled. A client argument is missing, null or a string (`Js.Arg`), and a GraphQL `name`/`id` is a string, as the schema's scalars deliver.
- Rest.RestApi.PutItem and Rest.RestApi.DeleteItem: path ids that Postgres rejects in the query are not modelled. These are finite non-integer ids (such as `1.5`) and integer ids outside the 32-bit `integer` range (such as `3000000000`, or `1e21`, which reaches the driver as `1e+21`). The route does not catch that error, and the model answers 404 instead. The id is `None` when `Number` is not finite, and an integer otherwise.
- Graph.PgInteger: the 32-bit range of the `integer` column is not modelled. Out-of-range id text is read as an ordinary integer.
- Graph.GraphApi.UpdateItem: because of that range gap, out-of-range id text deletes `gql:items:list` and fails "item not found". Postgres would fail the query first, with nothing changed.
- Graph.GraphApi.DeleteItem: because of that range gap, out-of-range id text deletes `gql:items:list` and answers false. Postgres would fail the query first, with nothing changed.
- Graph.PgInteger: integer input is read as Postgres 15 and earlier read it. The `0x`/`0o`/`0b` prefixes and `_` digit separators that Postgres 16 accepts are not modelled. No Postgres version is pinned in the source.
- Js.Trim: only ASCII white space, the no-break space and the byte-order mark count as white space, not every Unicode space separator.
- String lengths count characters, not UTF-16 code units.
- Store failures are not modelled: errors of the database or Redis clients and the unhandled rejections they would cause in the Express handlers.
- Broker publishing is modelled as a call that either accepts the event or fails silently. The `/queue/publish` and `/kafka/produce` forwarding routes (backend/src/rest/routes.js:111-122) add nothing to that.
- The login route (backend/src/index.js:119-124) is not modelled beyond `Auth.IssueToken`, which it wraps with a default subject.
- The `SayHello` and `StreamTime` request fields are taken as a string and an integer. The field types in echo.proto are not part of this model.

## Findings

| source | as written | input that shows it | evidently intended | confidence | as-written member | corrected member |
|---|---|---|---|---|---|---|
| backend/src/ws/ws.js:45,52 | `JSON.parse` succeeds on the frame `null`, and `msg.type` is then read on null, so the listener throws and the client gets no reply | the text frame `null` | every parsed value other than a ping or echo is answered `{type:"unknown", received: msg}` | not executed; follows from JavaScript property access on null | RawWs.NullFrameThrows | RawWs.HandleMessage |
