# Board native server bridge, modelled in Dafny

This project models the request/response correlation core of the native
server bridge of the Board web framework for Elm (`src/Native/Server.js`).
The bridge accepts HTTP connections and buffers each body. It classifies the
body into an Elm `Content` value, tags the verb with an Elm `Method`, and
hands a request record to the application. Later the application sends a
response by the request's correlation id. The bridge keeps a module-level
`requests` map from id to open response handle. Each send takes the handle
out of that map and writes to it only if it was still there.

Modules:

- `Wrappers` (`wrappers.dfy`): the `Option` type, used for Elm's `Maybe` and JavaScript's `undefined`.
- `Classify` (`classify.dfy`): the pure parts of the bridge. `getMethod` is `GetMethod`, with `MethodName` as its inverse. `toMethod` is `ToMethod`. `getData` is `GetData`, over a `JsValue` that is `undefined`, a string or a buffer, with JavaScript truthiness. `getProtocol` is `GetProtocol`, built on an ASCII `ToUpper`.
- `Options` (`options.dfy`): the `reduce` that turns the Elm options record of `Maybe` fields into a JavaScript object, as a loop over the keys.
- `Registry` (`registry.dfy`): the registry as a value, `Pending`. It holds the `requests` map, the log of `res.end` calls, and (for proofs) every handle ever registered. `Stored` is `requests.set` and `Sent` is `sendContent`. The lemmas cover single operations and every admissible sequence of them.
- `Server` (`server.dfy`): the class `NativeServer`. It has the `requests` map and the write log as fields. `Store` models `requests.set`. `SendContent` models the get-then-delete-then-write of `sendContent`, and `SendData`, `SendText`, `SendJson` and `SendEmpty` are its four variants. `HandleConnection` models the per-connection handler. `AccumulateBody` is the `data` handler's loop over chunks. Every state-changing method states its new state as `Stored` or `Sent` of the old state and keeps the registry invariant.

On these points the model follows what the code does:

- Each `data` chunk replaces `content` (line 86). So a body that arrives in several chunks is classified from its last chunk only, not from the concatenation. `LastChunkWins` states this for `["ab","cd","ef"]`.
- The record's `ip` is `req.connection.address().address` (lines 80 and 96). That is the local, server-side address of the socket, not the client's. The id is hashed from the client's `remoteAddress` (line 77).
- A send for an unknown or already consumed id does nothing. It logs no warning (lines 20-24).
- The pending entry has no time-to-live, so nothing ever expires it.
- An unknown verb yields an `undefined` constructor (line 15). It is modelled as `None`.

## Model

| member | source | states |
|---|---|---|
| Classify.GetMethod | src/Native/Server.js:9-16 | the result is `Some(m)` exactly when the verb is the exact name of `m`; every other verb gives `None` |
| Classify.GetMethodInvertsMethodName | src/Native/Server.js:9-16 | `GetMethod` inverts `MethodName` for all four methods |
| Classify.LowerCaseVerbsUnmapped | src/Native/Server.js:9-16 | lower-case, mixed-case, unknown and empty verbs are unmapped |
| Classify.ToMethod | src/Native/Server.js:31-34 | the body passes through unchanged, and the tag is the verb's method, absent exactly for verbs outside GET/POST/PUT/DELETE |
| Classify.GetData | src/Native/Server.js:35-59 | `Empty` exactly for falsy content (absent or empty string) whatever the type; `JSON` exactly for a non-empty string with type `application/json`; `Text` with the header for other strings; `Data` exactly for buffers, whose accessor gives every consumer the unmodified bytes |
| Classify.ClassificationExamples | src/Native/Server.js:35-59 | absent → Empty; "" with JSON type → Empty; "{}" JSON → JSON("{}"); "hi" text/plain → Text; a JSON type with parameters → Text; a buffer's accessor yields the buffer |
| Classify.UpperChar | src/Native/Server.js:60 | the result is never a lower-case letter; letters move to upper case and other characters are unchanged |
| Classify.ToUpper | src/Native/Server.js:60 | same length as the input, every character upper-cased in place |
| Classify.GetProtocol | src/Native/Server.js:60 | "HTTP" for an absent or empty protocol; otherwise the upper-cased protocol, character by character; never empty, never lower case |
| Classify.ToUpperFixesUpper | src/Native/Server.js:60 | upper-casing a string with no lower-case letters returns it unchanged |
| Classify.GetProtocolIdempotent | src/Native/Server.js:60 | selecting the protocol of a selected protocol gives the same protocol |
| Classify.ProtocolExamples | src/Native/Server.js:60 | "http" → "HTTP", "https" → "HTTPS", "HTTPS" → "HTTPS" |
| Options.ConvertOptions | src/Native/Server.js:112-116 | the object has exactly the record's keys; a key is `undefined` exactly when its field is `Nothing`, and holds `v` when the field is `Just v` |
| Registry.StoredKeepsInv | src/Native/Server.js:100 | storing a never-registered handle, whether inserting or overwriting, keeps every handle under at most one id, registered handles unwritten and no handle written twice |
| Registry.SentKeepsInv | src/Native/Server.js:17-25 | a send, with or without an entry for the id, keeps that invariant |
| Registry.Stored | src/Native/Server.js:100 | `requests.set`: afterwards the id maps to the new handle, whether it was present or not; every other entry and the write log are unchanged |
| Registry.Sent | src/Native/Server.js:17-25 | a send removes exactly the id's entry and leaves every other entry unchanged; it writes exactly when an entry existed, once, to that entry's handle, and otherwise writes nothing |
| Registry.SecondSendIsNoOp | src/Native/Server.js:17-25 | a second send for the same id changes nothing, whatever it sends |
| Registry.LaterStoreWins | src/Native/Server.js:75-100 | when two connections' ids collide, the later `set` wins and the earlier handle is no longer registered |
| Registry.ApplyKeepsInv | src/Native/Server.js:17-25 | any single registration of a fresh handle, or any send, keeps the invariant |
| Registry.RunKeepsInv | src/Native/Server.js:17-25 | every admissible sequence of registrations and sends keeps the invariant |
| Registry.RunExtendsSent | src/Native/Server.js:17-25 | writes are only appended; no sequence of operations changes an earlier write |
| Registry.AtMostOneWritePerResponse | src/Native/Server.js:17-25 | from an empty registry, any admissible sequence writes each response handle at most once, and only handles that were registered |
| Registry.UnreachableNeverWritten | src/Native/Server.js:17-25 | a handle that was overwritten by a colliding id, or already written, is never written by any later operations |
| Server.LastChunk | src/Native/Server.js:83-87 | the body after the `data` events: `undefined` when no chunk arrived, otherwise the last chunk, one of those delivered |
| Server.AccumulateBody | src/Native/Server.js:83-87 | after the chunks arrive, `content` is the last chunk, or `undefined` when none arrived |
| Server.LastChunkWins | src/Native/Server.js:83-95 | of the chunks "ab", "cd", "ef" only "ef" survives, and it is what is classified |
| Server.NoChunkMeansEmpty | src/Native/Server.js:83-95 | the body is `undefined` exactly when no chunk arrived, and then it classifies as `Empty` |
| Server.EchoWritesRequestBytes | src/Native/Server.js:49-54 | when a body's last chunk is a buffer, the assembled record's content is `Data` with the request's content type, and its accessor gives every consumer exactly those bytes; once the connection's handle is stored, sending that accessor back writes exactly the received bytes, once, to that handle |
| Server.Assemble | src/Native/Server.js:89-99 | the record carries the connection's id, time, url and host header; cookies default to ""; the cargo is empty; the content is the classification of the body under the content-type header (`Empty` exactly for a falsy body); the ip is the local address; the protocol is the selected protocol |
| Server.NativeServer.ConnectionId | src/Native/Server.js:75-79 | the id depends only on the path, the remote address and the arrival time: connections that agree on these get the same id, whatever their url, verb, headers or body |
| Server.NativeServer.constructor | src/Native/Server.js:4 | the registry starts empty with nothing written |
| Server.NativeServer.Store | src/Native/Server.js:100 | the new state is the old one with the handle stored under the id, and the invariant is kept |
| Server.NativeServer.SendContent | src/Native/Server.js:17-25 | the new state is `Sent` of the old one, so take-and-remove with at most one write, and the result is the empty command |
| Server.NativeServer.SendData | src/Native/Server.js:122-124 | as `SendContent`, writing the bytes the accessor hands to the writer |
| Server.NativeServer.SendText | src/Native/Server.js:27-30 | as `SendContent`, writing the text; the leading content-type argument is ignored |
| Server.NativeServer.SendJson | src/Native/Server.js:126 | as `SendText` with the JSON content type |
| Server.NativeServer.SendEmpty | src/Native/Server.js:127-129 | as `SendContent`, ending the response with no body |
| Server.NativeServer.HandleConnection | src/Native/Server.js:73-104 | when the stream ends, the handle is stored under the hash of (path, remote address, time), and the record is dispatched with the verb's method and the classified last chunk; if the stream never ends, the state is unchanged and nothing is dispatched |
| Server.GetStatusScenario | src/Native/Server.js:88-129 | a bodiless `GET /status` yields content `Empty`, method `Get` and protocol `HTTP`; the first `sendEmpty` writes once, and a second writes nothing and returns the empty command |

## Left out

- `src/Native/File.js` is not part of this model. It wraps `fs.readFile` in a Promise and binds a callback to it, and has no logic of its own.
- Server creation, `listen`, `close` and the `'close'` event (lines 61-68, 106-110, 117, 130-133) are network plumbing and are not modelled. Two observations stay unverified. The branch at lines 63-66 passes the options to the factory only when they are absent. Line 117 always uses the `http` module, so no HTTPS listener is ever created.
- Submitting work to the Elm scheduler (`rawSpawn`, lines 101-103 and 107) is external. `HandleConnection` returns what it would submit as a `Dispatch`.
- The id hash (`object-hash`) and the clock are foreign. The hash is a function parameter of the server, and the arrival time is a method parameter.
- Host-object reads (`req.url`, `req.path`, `req.protocol`, the headers, the socket addresses) are inputs, in `IncomingRequest`.
- The Elm runtime representation helpers (lines 5-8) are left out. The empty cargo dictionary is an empty map, and the empty command is `NoCmd`.
- Classify.ToUpper: models `toUpperCase` for ASCII letters only. Unicode case mapping, including mappings that change length, is not modelled.
- Server.NativeServer.SendContent: in the source, the entry is taken when the send is applied to the request (lines 18-19). The result is a closure that ends the taken handle every time it is applied to a value (lines 20-22). A closure applied twice therefore ends the same response twice, and one never applied removes the entry and writes nothing. The model merges the two applications into one call. So `Registry.AtMostOneWritePerResponse`, `Registry.Sent` ("writes exactly when an entry existed") and the other trace lemmas hold for that one-call send, not for a closure that is reused or never applied, and interleavings between the take and the write are not captured.
- Server.NativeServer.SendData: the accessor is modelled as a function that is given the writer and returns what it writes. So the model assumes the accessor calls the writer exactly once. The accessor built by `getData` (line 53) does.
- Response headers and status are not modelled. The bridge never sets them, and only the argument of `res.end` is recorded.
