# Remote screen viewer relay — a Dafny model

The relay server of the remote screen viewer (`server/index.js`) pairs
*clients*, which capture their screen and send frames, with *viewers*, which
watch them. All of its state is in two process-wide JavaScript `Map`s:

- `activeConnections` is the connection registry. It maps a socket id to the
  record the peer registered with: its type (`client` or `viewer`), id, name,
  registration time and socket id.
- `screenStreams` is the stream store. It maps a client id to the latest frame
  accepted for it.

Socket.IO events change these maps. HTTP `GET` routes read them.

This project models the following:

- **The two maps** (`JsMap.dfy`). They are values of an insertion-ordered map
  type, `JsMap.OrderedMap`. Its `keys` keep the order in which `values()` and
  `keys()` enumerate the entries, so list results are built in the server's
  order. The contracts state which entries the lists hold, not their order
  (see "Left out").
- **JavaScript values** (`Js.dfy`). Payload fields are JavaScript values:
  `undefined`, `null`, booleans, integers, strings and objects known only by
  identity. `===` is datatype equality, and the completeness check of
  `screen-stream` uses JavaScript truthiness (`Js.Truthy`).
- **The read side** (`RelayState.dfy`). This covers:
  - the `.find`, `.filter` and `.map` queries the handlers run over the
    registry;
  - the client list sent as `available-clients` and served by `/api/clients`;
  - the counts of `/api/status`;
  - the answer of `/api/clients/:clientId`;
  - the invariants of the two maps, with one lemma per kind of update showing
    that the update keeps them.
- **The socket handlers** (`RelayServer.dfy`). Class `Relay` holds the two
  maps as fields and has one method per Socket.IO event: `client-connect`,
  `viewer-connect`, `screen-stream`, `request-stream`, `remote-control`,
  `client-status` and `disconnect`. Each method returns the messages the
  handler emits, in order, each tagged with its addressee: the sender, or
  every other socket.
- **Whole runs from a fresh server** (`RelayScenarios.dfy`). Their outcomes
  follow from the handlers' contracts alone.

Time (`new Date()`) is a `now: nat` parameter of every handler that reads the
clock.

The class invariant `Relay.Valid` has three parts:

- both maps are well formed;
- every registry entry is filed under its own socket;
- no two entries of one role share an id, and every stored frame passed the
  completeness check.

Every handler keeps `Valid`, so it holds after any sequence of events. A
second property, `Relay.StreamsOwned`, says that every stored frame belongs to
a registered client. It is kept by every handler except one case. A socket
that registers a second time replaces its own entry, and the replaced client
id loses its owner. The frame stored for that id then stays in the store
after the socket disconnects. `RelayScenarios.ReRegistrationOrphansFrame`
shows what follows: a later client that takes that id is listed as streaming
before it has sent anything.

Some of what the code does is easy to miss, and the model follows the code
in each case:

- A frame needs `clientId`, `imageData`, `timestamp` and `quality`, all
  truthy. A second frame sent without `quality` is therefore refused, and the
  first frame stays stored (`RelayScenarios.LatestFrameWins`).
- Every event the server sends beyond the sender goes out with
  `socket.broadcast.emit`, that is to every other socket, clients included.
  The comments at `client-list-updated` (on registration), `screen-update` and
  `client-disconnected` name the viewers as its addressees. The comment at
  `remote-command` names the one client meant. The second
  `client-list-updated` (on disconnect) is commented as going to "the
  others", and `client-status-update` carries no comment on who receives it.
- `screen-stream` does not check the sender. It only checks that some client
  entry holds the frame's `clientId`, so any socket may store a frame for any
  registered client (`RelayScenarios.AnySocketMayStream`).
- `request-stream`, `remote-control` and `client-status` make no registration
  check.
- A registered socket may register again, under another id or as the other
  role. Its entry is replaced, so the role of a socket is not fixed.

## Model

| member | source | states |
|---|---|---|
| `JsMap.OrderedMap.Set` | server/index.js:72-78 | `map.set(k, v)` maps `k` to `v` and leaves every other entry; a new key goes to the end of the key order, while an existing key keeps its position; the map stays well formed |
| `JsMap.OrderedMap.Delete` | server/index.js:247 | `map.delete(k)` removes exactly the entry of `k`; the key order loses `k` alone; an absent key leaves the map unchanged |
| `JsMap.OrderedMap.Values` | server/index.js:62-63 | `Array.from(map.values())` has one element per key, namely the value of the key at that position |
| `JsMap.Without` | server/index.js:234 | removing a key from the key order removes exactly that key, keeps every other key and their distinctness, and changes nothing when the key is absent |
| `JsMap.ValueListed` | server/index.js:62-63 | every entry of the map appears in `Array.from(map.values())`, at its key's position |
| `JsMap.ListedValue` | server/index.js:62-63 | everything in `Array.from(map.values())` is the value of a key of the map |
| `JsMap.DistinctCard` | server/index.js:41 | a list without repeats has as many elements as the set of its elements |
| `JsMap.SizeIsCount` | server/index.js:41 | `map.size` is the number of entries in the map |
| `Js.TruthyUnlessFalsy` | server/index.js:145 | a value is truthy exactly when it is none of `undefined`, `null`, `false`, `0` and `""` |
| `Js.LengthOf` | server/index.js:169 | `imageData.length` is a number exactly for a string, where it is the string's length and positive once the string passed the truthiness check; otherwise it is `undefined` |
| `RelayState.FrameRefusedIffFalsyField` | server/index.js:145-150 | the completeness check refuses a frame exactly when one of `clientId`, `imageData`, `timestamp` and `quality` is a falsy value |
| `RelayState.Find` | server/index.js:62-63 | `.find` finds nothing exactly when no entry has the role and id; otherwise it returns the first entry that has them |
| `RelayState.OfRole` | server/index.js:29-30 | `.filter(c => c.type === role)` keeps exactly the entries of that role |
| `RelayState.FindConn` | server/index.js:153-154 | the registry lookup finds nothing exactly when no entry of the role holds the id; a found entry is in the registry, and with unique ids it is the only such entry |
| `RelayState.RegisterKeepsUnique` | server/index.js:61-78 | filing an entry under its socket, after the duplicate check has passed, keeps the registry keyed by socket with ids unique per role, even when the socket was registered before |
| `RelayState.RegisterKeepsOwned` | server/index.js:72-78 | registering a socket that held no entry leaves every stored frame with its client |
| `RelayState.RemoveKeepsUnique` | server/index.js:247 | deleting a registry entry keeps the registry keyed by socket and unique |
| `RelayState.RemoveClearsId` | server/index.js:229-247 | after the delete, no entry of the departed peer's role holds its id |
| `RelayState.RemoveKeepsOwned` | server/index.js:232-247 | deleting a client entry together with its frame, or a viewer entry alone, leaves every remaining frame with its client |
| `RelayState.UnstoreKeepsComplete` | server/index.js:234 | deleting a frame keeps every remaining frame complete |
| `RelayState.StoreKeepsInvariants` | server/index.js:145-170 | storing a frame that passed the check keeps every frame complete, keeps frames owned when the id is registered, and leaves every other id's frame as it was |
| `RelayState.OfRoleNone` | server/index.js:270-271 | filtering a list that has no entry of the role gives the empty list |
| `RelayState.NoClientsNoList` | server/index.js:270-277 | with no client entry registered the client list is empty |
| `RelayState.OfRoleCount` | server/index.js:29-30 | filtering the values listed under distinct keys keeps exactly as many values as there are keys whose value has the role |
| `RelayState.RoleCount` | server/index.js:42-43 | the length of the client (viewer) filter is the number of client (viewer) entries of the registry |
| `RelayState.RolesPartition` | server/index.js:29-30 | the client and viewer filters together hold every registry entry |
| `RelayState.OfRoleDistinct` | server/index.js:121-122 | filtering a list whose ids are distinct per role gives a list with distinct ids |
| `RelayState.UniqueValues` | server/index.js:121 | with unique ids, `values()` holds distinct ids within each role |
| `RelayState.Summaries` | server/index.js:123-128 | `.map` yields one summary per entry, at the same position |
| `RelayState.ClientListSound` | server/index.js:270-277 | every element of the client list is the summary of some client entry |
| `RelayState.ClientListComplete` | server/index.js:270-277 | every client entry's summary is in the client list |
| `RelayState.ClientListDistinct` | server/index.js:121-128 | with unique ids, the client list names no client id twice |
| `RelayState.ClientList` | server/index.js:269-284 | the list holds exactly the summaries of the client entries, with no id twice; `isStreaming` is true exactly when the store has a frame for that id |
| `RelayState.StatusOf` | server/index.js:28-51 | `clients` is the number of client entries and `viewers` the number of viewer entries; `total` is the number of entries and equals `clients + viewers`; `active` is the number of stored frames; `details` lists each stored client id exactly once |
| `RelayState.ClientDetailOf` | server/index.js:287-314 | 404 exactly when no client entry holds the id; otherwise that entry's id, name and time; the stream is active exactly when a frame is stored, and then carries that frame's quality, `lastUpdate` and timestamp |
| `RelayServer.Relay.constructor` | server/index.js:24-25 | the server starts with both maps empty, valid, and with every frame owned |
| `RelayServer.Relay.ClientConnect` | server/index.js:58-93 | an id a client entry holds is refused with `connection-error` and changes neither map; otherwise the sender's entry becomes a client entry, every other socket gets the client list, and the sender gets a confirmation; the stream store is untouched; the invariant is kept |
| `RelayServer.Relay.ViewerConnect` | server/index.js:96-138 | an id a viewer entry holds is refused; otherwise the sender's entry becomes a viewer entry, and the sender gets `available-clients` with the client list, then a confirmation |
| `RelayServer.Relay.ScreenStream` | server/index.js:141-186 | a falsy field gives `stream-error` "incomplete", and an unknown client id gives `stream-error` "not found"; neither one touches the store; an accepted frame is stored under its id with time and size, leaves every other id's frame as it was, is broadcast as `screen-update` and acknowledged; the registry is untouched |
| `RelayServer.Relay.RequestStream` | server/index.js:189-201 | with a frame stored, the sender alone gets that frame's `screen-update`; with none, nothing is sent |
| `RelayServer.Relay.RemoteControl` | server/index.js:204-214 | exactly one `remote-command`, unchecked, to every other socket, stamped with the server time |
| `RelayServer.Relay.ClientStatus` | server/index.js:217-226 | exactly one `client-status-update`, unchecked, to every other socket, stamped with the server time |
| `RelayServer.Relay.Disconnect` | server/index.js:229-256 | an unregistered socket changes nothing and sends nothing, so a repeated disconnect is a no-op; a client's entry and frame are removed, its departure is announced, then the client list; a viewer's entry alone is removed and the list is sent; afterwards the socket and the departed client id are gone from both maps |
| `RelayScenarios.AliceRegistered` | server/index.js:72-78 | a fresh server after one `client-connect` holds exactly that client entry and no frame |
| `RelayScenarios.AliceStreaming` | server/index.js:164-170 | after the client's frame, the store holds exactly that frame |
| `RelayScenarios.AliceStreamingToVera` | server/index.js:110-116 | after a viewer registers, the registry holds both entries in registration order |
| `RelayScenarios.AliceDeparted` | server/index.js:229-252 | after the client disconnects, only the viewer remains, no frame is stored, and the departure is announced |
| `RelayScenarios.DuplicateClientId` | server/index.js:61-70 | a second socket claiming a taken client id is refused, and the id stays with the first client |
| `RelayScenarios.ViewerMayShareClientId` | server/index.js:99-101 | the duplicate check is per role: a viewer may use an id a client holds |
| `RelayScenarios.LatestFrameWins` | server/index.js:145-200 | a viewer gets the stored frame; a frame without `quality` is refused and the old frame stays; a complete frame replaces it |
| `RelayScenarios.AnySocketMayStream` | server/index.js:152-164 | a viewer's socket may store a frame for a registered client id |
| `RelayScenarios.ClientDeparture` | server/index.js:229-256 | after a client leaves, its frame is not served, the client list is empty, and a second disconnect sends nothing |
| `RelayScenarios.ReRegistrationOrphansFrame` | server/index.js:72-78 | after a socket re-registers under a new id, a later client taking the old id is listed as streaming |

## Left out

- Express, its middleware (`helmet`, `compression`, `cors`, the JSON body limit), `server.listen`, the `PORT` setting and the `SIGTERM` handler are not modelled. They are framework setup and hold no relay logic.
- The periodic log of active connections (`setInterval`) and every `console.log` are not modelled. They only write to the console.
- `/api/health` is not modelled, and neither are the `status`, `server` and `timestamp` fields of `/api/status`. They report process data (`process.uptime`, `memoryUsage`, `platform`, `version`) and the wall clock.
- The `count` and `timestamp` fields of `/api/clients` are not modelled. The count is the list's length, and the timestamp is the wall clock.
- Delivery over the network is not modelled. Each handler returns its outgoing messages and their addressees, and Socket.IO's transport, acknowledgements and reconnection are outside the model.
- Clock values are natural numbers passed in. ISO date formatting is not modelled.
- Numbers are integers. Floating point, `NaN` and `-0` (whose truthiness and `Map`-key equality differ) are not modelled.
- `size` of a stored frame is the string length for a string `imageData` and `undefined` otherwise. The length of an array payload is not represented, and lengths count characters rather than UTF-16 code units.
- A payload that is `undefined` or `null` makes the handler's destructuring throw. The model does not represent a missing payload: every payload field is present as a value, possibly `undefined`.
- The handlers run one at a time, as Node's event loop runs them. No interleaving is modelled.
- `client/viewer.js`, `client/client.js`, `client/main.js`, `vercel-build.js` and `server/config.js` are not part of this model.
- `RelayState.ClientList`: the contract says which summaries the list holds, but not their order. The order is the registry's insertion order by construction, but no contract states it.
- `RelayState.OfRole`, `JsMap.Without`, `JsMap.OrderedMap.Delete` and `RelayState.StatusOf`: their contracts speak of membership and counts, not order. Their bodies keep the source's order (the filter keeps list order, the delete keeps the order of the remaining keys, and `details` is the key order), but no contract states it.
- `RelayServer.Relay.ClientConnect`: every stored frame keeps an owner only when the registering socket held no entry before. The code drops that property on re-registration (see `RelayScenarios.ReRegistrationOrphansFrame`).
- `RelayServer.Relay.ViewerConnect`: as for `ClientConnect`, frame ownership is kept only when the registering socket held no entry before.
