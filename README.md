# Injectify WebSocket session engine, in Dafny

This project models the server side of Injectify's real-time control channel
(`src/inject/Websockets.ts`): the browser opens a WebSocket back to the
controller, which validates the connection, exchanges versioned,
optionally-deflated `topic:json` frames with it, prices every inbound message
against a per-session token bucket, answers correlated requests ("vows"), and
keeps a process-wide registry of clients and their sessions.

| module | file | what it models |
|---|---|---|
| `Strings` | strings.dfy | `indexOf`, `split` on one character, the prefix/suffix tests the regular expressions make |
| `Values` | values.dfy | JavaScript values on the wire; the foreign functions (`JSON`, `pako`, `atob`, unary `+`) as a `Runtime` record whose laws are the predicates `JsonLaws`, `ZipLaws` and `NumberLaws` |
| `ConnectionValidator` | validator.dfy | `validate`: URL parsing, base64 decoding, project lookup, the session descriptor or the rejection |
| `MessageCodec` | codec.dfy | `send`'s transport (framing, `#` compression, handshake payloads) and the inbound decoding of the `message` handler, vow unwrapping included |
| `Admission` | admission.dfy | the token-cost switch, the token bucket, and the dispatch / silent drop / throttled notice decision |
| `SessionConnection` | connection.dfy | class `Connection` (the source's `Session`): `send`, the `message` handler, the vow `resolve`/`reject` callbacks, the `error` handler |
| `ClientRegistry` | registry.dfy | class `Registry`: `ledge` and `close` on the project → token → client map, and the watcher notices they schedule |

Pure computations (URL parsing, cost table, decoding as a specification) are
functions; what the source does by reassigning variables or mutating shared
state (`send`, the `message` handler, `ledge`, `close`) is a method that is
proved equal to those functions or to a function of the old state, and the
properties are lemmas about those functions.

The model keeps the source's behaviour where it departs from what its
authors evidently meant:

- `/^core|auth$/` holds for every topic that starts with `core` or ends with
  `auth` (`MessageCodec.HandshakeTopicQuirk`), and `/^p|heartbeat$/` for every
  topic that starts with `p` or ends with `heartbeat`
  (`Admission.QuietTopicQuirk`).
- `case 'l' || 'e'` matches only `l`; topic `e` always costs 1
  (`Admission.TokenCostTable`).
- `if (url)` tests an array and is always true, so the "missing project name"
  rejection can never happen; the model has no such outcome.
- `close` deletes a client whenever it has exactly one session, without
  checking that it is the closing one, so closing a session twice removes
  another live session's client (`ClientRegistry.SecondCloseDeletesLiveSession`).
- The handler refuses a message when the limiter reports fewer than one
  remaining token, so a full bucket of `m` tokens admits `m - 1` unit-cost
  messages, not `m` (`Admission.BurstAdmitsAllButOne`).
- A vow id that is the empty string is captured but never answered, because
  `!vow` is true for it (`SessionConnection.Connection.Reply`).

## Model

| member | source | states |
|---|---|---|
| `Strings.IndexOf` | src/inject/Websockets.ts:224 | the result is the first position of the character, and None exactly when the string does not contain it |
| `Strings.Split` | src/inject/Websockets.ts:40 | `split('?')` returns at least one piece and no piece contains the separator |
| `Strings.JoinSplit` | src/inject/Websockets.ts:40 | joining the pieces of a split with the separator gives back the URL |
| `Strings.SplitJoin` | src/inject/Websockets.ts:40 | splitting a join of separator-free pieces gives back the pieces |
| `Strings.IndexOfAfter` | src/inject/Websockets.ts:224-226 | in `a + ":" + b` with no `:` in `a`, the first `:` is right after `a` |
| `Strings.SplitLastIsSuffix` | src/inject/Websockets.ts:40-43 | the last `?`-piece of the URL, which names the project, is a suffix of the URL that is either the whole URL or follows a `?` |
| `Strings.Substr` | src/inject/Websockets.ts:44 | `substr(2)` is the rest of the string after two characters, and empty for shorter strings |
| `Values.Lookup` | src/inject/Websockets.ts:259-268 | reading a property gives the value the object holds under that key (the first entry carrying it, the only one in a parsed object), and `undefined` when it has no such key |
| `Values.Element` | src/inject/Websockets.ts:241 | `data[2]` is the third element, or `undefined` past the end |
| `ConnectionValidator.VersionOf` | src/inject/Websockets.ts:44 | `+x \|\| 0` is 0 where `+` gives NaN, and the decimal value of a digit string |
| `ConnectionValidator.ParseUrl` | src/inject/Websockets.ts:40-53 | the project part, behind a `$` when debug, is exactly the URL's last `?`-piece: it contains no `?`, the URL ends with it, and it is the whole URL or follows a `?`; debug holds exactly when that piece starts with `$`, which is stripped, so the project itself starts with `$` only when debug (`?$$x`); the version is `VersionOf` of what precedes the first `?` (the whole URL when there is none) from its third character on, so 0 where `+` gives NaN and the digits' value for a digit string |
| `ConnectionValidator.Validate` | src/inject/Websockets.ts:38-97 | a resolved session carries the fresh id and the stored record of the decoded name; a nonexistent-project rejection names a name not in the store (every outcome: `ValidateOutcomes`) |
| `ConnectionValidator.ValidateOutcomes` | src/inject/Websockets.ts:38-97 | both ways: empty project part ⇔ invalid name; undecodable ⇔ invalid base64; decoded name not stored ⇔ nonexistent project; stored ⇔ a session with the decoded name, the stored `{_id, name, config}`, the fresh id and the parsed version and debug flag |
| `ConnectionValidator.ClientUrlPieces` | src/inject/Websockets.ts:40-43 | the `?`-pieces of a client URL are the marker with the version, and the optional `$` with the base64 name |
| `ConnectionValidator.ParseClientUrl` | src/inject/Websockets.ts:40-53 | a URL `<2-char marker><digits>?[$]<base64>` parses to the base64 name with `$` stripped, the digits' value as version, and debug exactly when `$` was there |
| `ConnectionValidator.ValidateClientUrl` | src/inject/Websockets.ts:54-92 | such a URL resolves the session with that version, that debug flag and the stored project when the decoded name is stored, and is refused as a nonexistent project otherwise |
| `ConnectionValidator.LoneDollarIsInvalid` | src/inject/Websockets.ts:47-54 | a project part of a lone `$` is refused as an invalid project name |
| `MessageCodec.Framed` | src/inject/Websockets.ts:136-137 | the frame starts with the topic, and is the topic alone exactly when `JSON.stringify` gives `undefined` |
| `MessageCodec.Transport` | src/inject/Websockets.ts:132-167 | a non-handshake topic always travels as text, behind `#` when compression applies and starting with the topic otherwise (all cases: `TransportCases`) |
| `MessageCodec.Unwrap` | src/inject/Websockets.ts:232-242 | a vow id is captured exactly for a `v` frame whose data starts with two strings, which give the topic and the id, and the data becomes `data[2]` (`undefined` for a two-element array); any other frame keeps its topic and data |
| `MessageCodec.ReadFrame` | src/inject/Websockets.ts:223-230 | a frame with no `:` is all topic, with `undefined` data; a frame is dropped only when the text after a `:` fails to parse |
| `MessageCodec.Decode` | src/inject/Websockets.ts:201-230 | a frame not starting with `#` is read as it is; a `#` frame is dropped when compression is off (inflation: `CompressedFrameGate`) |
| `MessageCodec.ReceiveFrame` | src/inject/Websockets.ts:197-248 | the handler's step-by-step decoding equals `Decode`: `#` gate, split at the first `:`, JSON parse, vow unwrap |
| `MessageCodec.ReadFrameSplitsAfterTopic` | src/inject/Websockets.ts:224-230 | a frame `topic:rest` with no `:` in the topic reads as that topic with the JSON of `rest`, and is dropped when `rest` does not parse |
| `MessageCodec.FramedShape` | src/inject/Websockets.ts:136-137 | the frame is the topic alone when `JSON.stringify` gives `undefined`, and `topic:json` otherwise |
| `MessageCodec.TransportCases` | src/inject/Websockets.ts:136-167 | handshake topics send `JSON.stringify({d: data})` at version 0 and `data` itself otherwise, never deflated; other topics are `#` + deflated frame exactly when compression is on and the session is not debug, and the plain frame otherwise |
| `MessageCodec.DecodeTransport` | src/inject/Websockets.ts:201-230 | decoding what `send` produced gives back topic and data, for every non-handshake topic without `:` other than `v` (not starting with `#` when uncompressed) |
| `MessageCodec.DecodeVowRequest` | src/inject/Websockets.ts:232-242 | `v:[topic, vowId, payload]` decodes to `topic` with `payload` under vow `vowId`, compressed or not |
| `MessageCodec.CompressedFrameGate` | src/inject/Websockets.ts:201-221 | a `#` frame is dropped when compression is off or inflating fails, and read as the inflated frame otherwise |
| `MessageCodec.HandshakeTopicQuirk` | src/inject/Websockets.ts:141 | `core-update` and `oauth` match the handshake pattern, `authority` and `v` do not |
| `Admission.TokenCost` | src/inject/Websockets.ts:256-271 | a cost other than 1 needs a truthy table and one of the topics `p`, `l`, `module`, `i` (the table itself: `TokenCostTable`) |
| `Admission.TokenCostTable` | src/inject/Websockets.ts:256-271 | a topic costs the number configured under its key (`p`→pageGhost, `l`→logger, `module`→modules, `i`→clientInfo) when the table is truthy and the value is a number, and 1 otherwise; `e` always costs 1 |
| `Admission.Take` | src/inject/Websockets.ts:272-273 | a request of `n` tokens is admitted exactly when at least one token remains after removing them |
| `Admission.BurstAdmitsAllButOne` | src/inject/Websockets.ts:272-273 | a full bucket of `m` tokens admits `min(k, m - 1)` of `k` unit-cost requests |
| `Admission.AdmitOutcomes` | src/inject/Websockets.ts:272-296 | both ways: handler called ⇔ admitted and bound; silent drop ⇔ refused and quiet topic; notice `{topic, data}` ⇔ refused, not quiet, and the notice limiter admits; the notice limiter is untouched otherwise |
| `Admission.Admit` | src/inject/Websockets.ts:272-296 | a decoded message is never dropped; the handler is called, with the message, exactly on the dispatch verdict and only for a bound topic; the notice `{topic, data}` is sent exactly on the notified verdict |
| `Admission.Handle` | src/inject/Websockets.ts:195-296 | dropped exactly when the frame does not decode, and then neither limiter changes and no notice is sent; a handler call is always for the decoded message |
| `Admission.QuietTopicQuirk` | src/inject/Websockets.ts:286 | `ping`, `page`, `x-heartbeat` are refused silently; `l` and `heartbeats` get notices |
| `SessionConnection.AfterSend` | src/inject/Websockets.ts:168-171 | a send that goes through appends the frame; one that throws sends nothing and closes the socket exactly when it is not open |
| `SessionConnection.Connection.constructor` | src/inject/Websockets.ts:184-189 | both limiters start full (the notice limiter with 50 tokens), nothing sent or handled |
| `SessionConnection.Connection.Send` | src/inject/Websockets.ts:132-172 | the socket receives exactly the transport `Transport` describes, or is closed when the send throws on a socket that is not open |
| `SessionConnection.Connection.OnMessage` | src/inject/Websockets.ts:191-298 | the verdict, both limiters, the handler calls and the notice sent are those of `Handle` on the decoded frame; an undecodable frame changes nothing |
| `SessionConnection.Connection.Reply` | src/inject/Websockets.ts:274-283 | `v:["resolve" or "reject", vow, x]` is sent exactly when a non-empty vow id was captured, and nothing otherwise |
| `SessionConnection.Connection.OnError` | src/inject/Websockets.ts:300-304 | an error closes the socket exactly when it is not open |
| `SessionConnection.ReplyDecodes` | src/inject/Websockets.ts:274-283 | a vow answer decodes on the other side to the settlement topic with `x` under the same vow id |
| `SessionConnection.DispatchCarriesVow` | src/inject/Websockets.ts:233-283 | an admitted `v:[topic, vowId, payload]` request reaches its handler with that payload and vow id |
| `SessionConnection.FlagsAgreeWithSend` | src/inject/Websockets.ts:360-374 | the advertised compression flag is off for debug sessions and agrees with whether `send` deflates non-handshake frames |
| `SessionConnection.Flags` | src/inject/Websockets.ts:361-374 | the client is told compression is on exactly when it is on globally and the session is not a debug one, and that the core was cached exactly when the query's `t` is `1` |
| `ClientRegistry.Without` | src/inject/Websockets.ts:463-467 | the filter keeps exactly the sessions with another id, and drops as many as carry the id |
| `ClientRegistry.WithoutAppend` | src/inject/Websockets.ts:463-467 | the filter distributes over concatenation, so the kept sessions stay in their order |
| `ClientRegistry.CountIdDistinct` | src/inject/Websockets.ts:463-467 | with distinct ids, at most one session carries a given id |
| `ClientRegistry.WithoutDistinct` | src/inject/Websockets.ts:463-467 | filtering keeps session ids distinct |
| `ClientRegistry.Ledged` | src/inject/Websockets.ts:400-430 | afterwards the project has a client under the token whose last session is the new one, and the project ids are the old ones plus this one |
| `ClientRegistry.Closed` | src/inject/Websockets.ts:440-468 | the project ids are unchanged, no token gains a client, and a client that stays keeps its descriptor |
| `ClientRegistry.Registry.constructor` | src/inject/Websockets.ts:404-406 | the process-wide `global.inject.clients` starts empty (it is set up outside this file; the cited lines are where `ledge` creates a project's bucket on demand): no bucket, no client, no notice scheduled, with the given projects watched |
| `ClientRegistry.Registry.Ledge` | src/inject/Websockets.ts:400-438 | the registry becomes `Ledged` of the old one, and stays well formed when it was and the new session's id is fresh for its client |
| `ClientRegistry.Registry.AnnounceConnect` | src/inject/Websockets.ts:334-343 | a `connect` notice is scheduled exactly when the project has watchers |
| `ClientRegistry.Registry.Close` | src/inject/Websockets.ts:440-483 | the registry becomes `Closed` of the old one, and a `disconnect` notice is scheduled exactly when a client was registered and the project has watchers; a well-formed registry stays well formed |
| `ClientRegistry.LedgedShape` | src/inject/Websockets.ts:404-430 | the bucket and client are created only when absent, an existing client is never overwritten, exactly one session is appended, other tokens and projects are unchanged |
| `ClientRegistry.ClosedShape` | src/inject/Websockets.ts:444-468 | no client: no change; one session: the token is deleted; otherwise the sessions become `Without` of the old ones, so exactly those with this id are removed and the rest keep their order; other tokens and projects are unchanged |
| `ClientRegistry.LedgedWellFormed` | src/inject/Websockets.ts:413-430 | adding a session with a fresh id keeps every client non-empty with distinct session ids |
| `ClientRegistry.ClosedWellFormed` | src/inject/Websockets.ts:452-468 | closing keeps every client non-empty with distinct session ids |
| `ClientRegistry.LedgeThenClose` | src/inject/Websockets.ts:400-468 | registering a session under a new token and closing it restores the registry, except that the project bucket stays |
| `ClientRegistry.TwoSessionsLifecycle` | src/inject/Websockets.ts:400-468 | two sessions under one token make one client with both; closing one leaves the other; closing that deletes the client |
| `ClientRegistry.SecondCloseDeletesLiveSession` | src/inject/Websockets.ts:452-458 | closing the same session twice deletes the client of a session that is still live |

## Left out

- Foreign functions: `JSON.stringify`/`JSON.parse`, `pako.deflate`/`pako.inflate`, `atob` and unary `+` are fields of a `Runtime`; each lemma assumes only the laws it needs: `Values.JsonLaws` (stringify is `undefined` only for `undefined` and never the empty string, so `json ?` in `send` tests only for `undefined`; parse inverts stringify on values JSON carries), `Values.ZipLaws` (inflate inverts deflate), `Values.NumberLaws` (`+` reads decimal digits). `Values.NumberAndZipLawsMet` exhibits functions meeting the last two; the JSON laws are met by any injective text encoding of the values JSON carries, which are countable because their numbers are restricted to finite decimals (`Values.FiniteDecimal`).
- Numbers are reals; the double-precision rounding of JSON numbers and of the version is not modelled. The round-trip lemmas cover numbers with finitely many decimal digits (every double is one), not every real.
- `JSON.stringify` throwing (cycles, BigInt) and functions or symbols among sent values are not modelled.
- `uuidv4` is the `freshId` parameter of `Validate`; the registry lemmas take the freshness of session ids as a hypothesis.
- The project collection's callback and promise plumbing (`initiate`, :28-36, and :63-89) become a map lookup keyed by name; a database error, after which the promise never settles, is not modelled.
- The socket and request objects are reduced to `Socket` (ready state, frames sent, close requested); whether `socket.send` throws is a parameter.
- Binary (Buffer) frames: inbound frames are strings.
- The handshake (`Session` constructor, `auth`, :111-130 and :174-178): the 100 ms delay, `Transforms.auth` and the pending-authentication table are foreign or timer-driven.
- `ClientInfo`, `InjectAPI` and `Transforms.cache`/`Transforms.core`: the handler table is the set of topics with a handler, a handler call is recorded in `handled`, and core delivery is reduced to its `compression` and `cached` flags (`Flags`).
- The `limiter` library: its timing and replenishment are not modelled; a bucket is a count of remaining tokens, taken when enough remain.
- Watcher delivery: the model records the scheduled `connect`/`disconnect` notice, not the later `forEach` over the project's watchers.
- Logging, including log lines that read the client before it is set.
- Interleavings of asynchronous steps (a session closing before its `ClientInfo` lookup resolves) are not modelled; each operation is atomic.
- The `message` listener is attached (:191) before `ledge`'s `ClientInfo` lookup resolves, and `injectAPI` stays undefined until then (:183, :330), so a message admitted in that window throws at :274 instead of reaching a handler; `OnMessage` models the handler after `injectAPI` is set.
- `Registry.Ledge` and `Registry.Close` take the session id as a parameter: the model assumes the entry `ledge` pushes (:428) carries the id that `close` filters by (`this.session.id`, :467), which holds only when `ClientInfo` reports the session with that id.
- The unreachable "missing project name" rejection (:93-95) has no outcome in the model, since `if (url)` is always true.
- src/inject/core/core/lib/ErrorGuard.ts: browser-side exception and timer plumbing, not part of the session engine.
