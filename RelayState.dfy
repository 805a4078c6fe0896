/** The relay server's two process-wide tables and everything that only reads
    them: the connection registry `activeConnections` (socket id to peer
    record), the stream store `screenStreams` (client id to its latest frame),
    the lookups the socket handlers make, and the read-only HTTP handlers. */
module RelayState {
  import opened Js
  import opened JsMap

  /** Socket.IO's per-connection `socket.id`. */
  type SocketId = string

  /** The `type` field of a registry entry: 'client' or 'viewer'. */
  datatype Role = Client | Viewer

  /** One `activeConnections` entry. `id` and `name` are `clientId` and
      `clientName` of a client, `viewerId` and `viewerName` of a viewer, as
      the registering peer sent them; `connectedAt` is the registration time. */
  datatype Conn = Conn(role: Role, id: JsValue, name: JsValue, connectedAt: nat, socketId: SocketId)

  /** One `screenStreams` entry: the latest accepted frame of a client.
      `lastUpdate` is the server's time of the write, `size` the payload's `length`. */
  datatype Frame = Frame(imageData: JsValue, timestamp: JsValue, quality: JsValue, lastUpdate: nat, size: JsValue)

  type Conns = OrderedMap<SocketId, Conn>
  type Streams = OrderedMap<JsValue, Frame>

  /** One element of `available-clients` and of the `/api/clients` list. */
  datatype ClientSummary = ClientSummary(clientId: JsValue, clientName: JsValue, connectedAt: nat, isStreaming: bool)

  /** `socket.emit` addresses the sender, `socket.broadcast.emit` every other socket. */
  datatype Target = ToSender | ToOthers

  /** The outbound Socket.IO events and their payloads; `serverTime` is the
      server's `new Date()` at the time of sending. */
  datatype Event =
    | ConnectionError(message: string)
    | ClientConnected(clientId: JsValue, clientName: JsValue, message: string)
    | ViewerConnected(viewerId: JsValue, viewerName: JsValue, message: string)
    | ClientListUpdated(clients: seq<Conn>)
    | AvailableClients(summaries: seq<ClientSummary>)
    | ScreenUpdate(clientId: JsValue, imageData: JsValue, timestamp: JsValue, quality: JsValue)
    | StreamReceived(clientId: JsValue, timestamp: JsValue, message: string)
    | StreamError(message: string)
    | RemoteCommand(clientId: JsValue, action: JsValue, params: JsValue, serverTime: nat)
    | ClientStatusUpdate(clientId: JsValue, status: JsValue, details: JsValue, serverTime: nat)
    | ClientDisconnected(clientId: JsValue, clientName: JsValue, serverTime: nat)

  datatype Outbound = Outbound(target: Target, event: Event)

  const ClientIdInUse := "ClientId já está em uso"
  const ViewerIdInUse := "ViewerId já está em uso"
  const ConnectedMessage := "Conectado com sucesso"
  const IncompleteStream := "Dados do stream incompletos"
  const ClientNotFound := "Cliente não encontrado"
  const StreamReceivedMessage := "Stream recebido com sucesso"

  /** The lookup predicate `c.type === role && c.<role>Id === id`. */
  predicate Matches(c: Conn, role: Role, id: JsValue)
  {
    c.role == role && c.id == id
  }

  /** `Array.prototype.find` with `Matches`: the first matching entry. */
  function Find(cs: seq<Conn>, role: Role, id: JsValue): (r: Option<Conn>)
    ensures r.None? <==> forall i :: 0 <= i < |cs| ==> !Matches(cs[i], role, id)
    ensures r.Some? ==> exists i :: 0 <= i < |cs| && cs[i] == r.value && Matches(cs[i], role, id)
                                    && forall j :: 0 <= j < i ==> !Matches(cs[j], role, id)
  {
    if cs == [] then None
    else if Matches(cs[0], role, id) then Some(cs[0])
    else
      var r := Find(cs[1..], role, id);
      assert forall i :: 0 < i < |cs| ==> cs[i] == cs[1..][i - 1];
      r
  }

  /** `Array.prototype.filter(c => c.type === role)`. */
  function OfRole(cs: seq<Conn>, role: Role): (r: seq<Conn>)
    ensures forall c :: c in r ==> c in cs && c.role == role
    ensures forall c :: c in cs && c.role == role ==> c in r
  {
    if cs == [] then []
    else (if cs[0].role == role then [cs[0]] else []) + OfRole(cs[1..], role)
  }

  /** Some registry entry of this role holds this id. */
  ghost predicate HasEntry(conns: Conns, role: Role, id: JsValue)
  {
    exists s :: s in conns.entries && Matches(conns.entries[s], role, id)
  }

  /** Every registry entry records the socket it is filed under. */
  ghost predicate KeyedBySocket(conns: Conns)
  {
    forall s :: s in conns.entries ==> conns.entries[s].socketId == s
  }

  /** No two entries of the same role share an id. */
  ghost predicate UniqueIds(conns: Conns)
  {
    forall s, t ::
      (s in conns.entries && t in conns.entries && s != t && conns.entries[s].role == conns.entries[t].role)
      ==> conns.entries[s].id != conns.entries[t].id
  }

  /** The `screen-stream` completeness check: all four fields truthy. */
  predicate FrameFieldsPresent(clientId: JsValue, imageData: JsValue, timestamp: JsValue, quality: JsValue)
  {
    Truthy(clientId) && Truthy(imageData) && Truthy(timestamp) && Truthy(quality)
  }

  /** A frame is refused exactly when one of its four fields is a falsy value. */
  lemma FrameRefusedIffFalsyField(clientId: JsValue, imageData: JsValue, timestamp: JsValue, quality: JsValue)
    ensures !FrameFieldsPresent(clientId, imageData, timestamp, quality)
            <==> clientId in FalsyValues || imageData in FalsyValues || timestamp in FalsyValues || quality in FalsyValues
  {
    TruthyUnlessFalsy(clientId);
    TruthyUnlessFalsy(imageData);
    TruthyUnlessFalsy(timestamp);
    TruthyUnlessFalsy(quality);
  }

  /** Every stored frame passed the completeness check when it was stored. */
  ghost predicate FramesComplete(streams: Streams)
  {
    forall k :: k in streams.entries ==>
      FrameFieldsPresent(k, streams.entries[k].imageData, streams.entries[k].timestamp, streams.entries[k].quality)
  }

  /** The registry invariant: a well-formed map, every entry filed under its
      own socket, and no two entries of one role sharing an id. */
  ghost predicate RegistryValid(conns: Conns)
  {
    conns.Valid() && KeyedBySocket(conns) && UniqueIds(conns)
  }

  /** The stream store invariant: a well-formed map of complete frames. */
  ghost predicate StoreValid(streams: Streams)
  {
    streams.Valid() && FramesComplete(streams)
  }

  /** Every stored frame belongs to a registered client. */
  ghost predicate StreamsOwnedBy(conns: Conns, streams: Streams)
  {
    forall k :: k in streams.entries ==> HasEntry(conns, Client, k)
  }

  /** Filing an entry under its socket after the duplicate check keeps the
      registry keyed by socket and its ids unique per role, whatever the
      socket had registered before. */
  lemma RegisterKeepsUnique(conns: Conns, sock: SocketId, c: Conn)
    requires RegistryValid(conns)
    requires c.socketId == sock && !HasEntry(conns, c.role, c.id)
    ensures RegistryValid(conns.Set(sock, c))
  {
    var m := conns.Set(sock, c);
    forall s, t | s in m.entries && t in m.entries && s != t && m.entries[s].role == m.entries[t].role
      ensures m.entries[s].id != m.entries[t].id
    {
      if s == sock {
        assert t in conns.entries && m.entries[t] == conns.entries[t];
      } else if t == sock {
        assert s in conns.entries && m.entries[s] == conns.entries[s];
      } else {
        assert m.entries[s] == conns.entries[s] && m.entries[t] == conns.entries[t];
      }
    }
  }

  /** Registering a socket that held no entry takes no client id away. */
  lemma RegisterKeepsOwned(conns: Conns, streams: Streams, sock: SocketId, c: Conn)
    requires conns.Valid() && StreamsOwnedBy(conns, streams) && sock !in conns.entries
    ensures StreamsOwnedBy(conns.Set(sock, c), streams)
  {
    var m := conns.Set(sock, c);
    forall k | k in streams.entries ensures HasEntry(m, Client, k) {
      var s :| s in conns.entries && Matches(conns.entries[s], Client, k);
      assert s in m.entries && m.entries[s] == conns.entries[s];
    }
  }

  /** Removing an entry keeps the registry keyed by socket and unique. */
  lemma RemoveKeepsUnique(conns: Conns, sock: SocketId)
    requires RegistryValid(conns)
    ensures RegistryValid(conns.Delete(sock))
  {
  }

  /** With unique ids, removing an entry leaves no entry of its role
      holding its id. */
  lemma RemoveClearsId(conns: Conns, sock: SocketId)
    requires conns.Valid() && UniqueIds(conns) && sock in conns.entries
    ensures !HasEntry(conns.Delete(sock), conns.entries[sock].role, conns.entries[sock].id)
  {
  }

  /** Removing a client entry together with its frame, or a viewer entry
      alone, leaves every remaining frame owned. */
  lemma RemoveKeepsOwned(conns: Conns, streams: Streams, sock: SocketId)
    requires conns.Valid() && streams.Valid() && StreamsOwnedBy(conns, streams)
    requires sock in conns.entries
    ensures var c := conns.entries[sock];
            StreamsOwnedBy(conns.Delete(sock), if c.role == Client then streams.Delete(c.id) else streams)
  {
    var c := conns.entries[sock];
    var m := conns.Delete(sock);
    var st := if c.role == Client then streams.Delete(c.id) else streams;
    forall k | k in st.entries ensures HasEntry(m, Client, k) {
      var s :| s in conns.entries && Matches(conns.entries[s], Client, k);
      assert s in m.entries && m.entries[s] == conns.entries[s];
    }
  }

  /** Removing a frame keeps every remaining frame complete. */
  lemma UnstoreKeepsComplete(streams: Streams, k: JsValue)
    requires StoreValid(streams)
    ensures StoreValid(streams.Delete(k))
  {
  }

  /** Storing a complete frame for a registered client keeps every frame
      complete and owned. */
  lemma StoreKeepsInvariants(conns: Conns, streams: Streams, k: JsValue, f: Frame)
    requires StoreValid(streams)
    requires FrameFieldsPresent(k, f.imageData, f.timestamp, f.quality)
    ensures StoreValid(streams.Set(k, f))
    ensures StreamsOwnedBy(conns, streams) && HasEntry(conns, Client, k) ==> StreamsOwnedBy(conns, streams.Set(k, f))
    ensures forall j :: j != k ==> streams.Set(k, f).Get(j) == streams.Get(j)
  {
  }

  /** `Array.from(activeConnections.values()).find(...)`: the registry entry
      of this role and id, found exactly when one exists, and with unique ids
      the only one. */
  function FindConn(conns: Conns, role: Role, id: JsValue): (r: Option<Conn>)
    requires conns.Valid()
    ensures r.None? <==> !HasEntry(conns, role, id)
    ensures r.Some? ==> exists s :: s in conns.entries && conns.entries[s] == r.value && Matches(r.value, role, id)
    ensures r.Some? && UniqueIds(conns) ==>
              forall s :: s in conns.entries && Matches(conns.entries[s], role, id) ==> conns.entries[s] == r.value
  {
    var cs := conns.Values();
    Find(cs, role, id)
  }

  /** A list without entries of the role filters to nothing. */
  lemma {:induction false} OfRoleNone(cs: seq<Conn>, role: Role)
    requires forall i :: 0 <= i < |cs| ==> cs[i].role != role
    ensures OfRole(cs, role) == []
  {
    if cs != [] {
      OfRoleNone(cs[1..], role);
    }
  }

  /** With no client entry the client list is empty. */
  lemma NoClientsNoList(conns: Conns, streams: Streams)
    requires conns.Valid()
    requires forall s :: s in conns.entries ==> conns.entries[s].role == Viewer
    ensures ClientList(conns, streams) == []
  {
    var cs := conns.Values();
    forall i | 0 <= i < |cs| ensures cs[i].role != Client {
      ListedValue(conns, i);
    }
    OfRoleNone(cs, Client);
  }

  /** Every role is client or viewer, so the two filters split the registry. */
  lemma {:induction false} RolesPartition(cs: seq<Conn>)
    ensures |OfRole(cs, Client)| + |OfRole(cs, Viewer)| == |cs|
  {
    if cs != [] {
      RolesPartition(cs[1..]);
    }
  }

  /** The ids of the entries of one role are pairwise different. */
  ghost predicate DistinctIdsOfRole(cs: seq<Conn>, role: Role)
  {
    forall i, j :: 0 <= i < j < |cs| && cs[i].role == role && cs[j].role == role ==> cs[i].id != cs[j].id
  }

  /** Filtering keeps ids distinct. */
  lemma {:induction false} OfRoleDistinct(cs: seq<Conn>, role: Role)
    requires DistinctIdsOfRole(cs, role)
    ensures forall i, j :: 0 <= i < j < |OfRole(cs, role)| ==> OfRole(cs, role)[i].id != OfRole(cs, role)[j].id
  {
    if cs != [] {
      var tail := cs[1..];
      assert DistinctIdsOfRole(tail, role) by {
        forall i, j | 0 <= i < j < |tail| && tail[i].role == role && tail[j].role == role
          ensures tail[i].id != tail[j].id
        {
          assert tail[i] == cs[i + 1] && tail[j] == cs[j + 1];
        }
      }
      OfRoleDistinct(tail, role);
      if cs[0].role == role {
        var r := OfRole(cs, role);
        assert r == [cs[0]] + OfRole(tail, role);
        forall j | 0 < j < |r| ensures r[0].id != r[j].id {
          assert r[j] in OfRole(tail, role);
          var k :| 0 <= k < |tail| && tail[k] == r[j];
          assert cs[k + 1] == r[j];
        }
      }
    }
  }

  /** With unique ids, the registry's values hold distinct ids per role. */
  lemma UniqueValues(conns: Conns, role: Role)
    requires conns.Valid() && UniqueIds(conns)
    ensures DistinctIdsOfRole(conns.Values(), role)
  {
    var cs := conns.Values();
    forall i, j | 0 <= i < j < |cs| && cs[i].role == role && cs[j].role == role
      ensures cs[i].id != cs[j].id
    {
      assert conns.keys[i] != conns.keys[j];
    }
  }

  /** The list element for one client entry (`isStreaming` is `screenStreams.has`). */
  function Summary(c: Conn, streams: Streams): ClientSummary
  {
    ClientSummary(c.id, c.name, c.connectedAt, streams.Has(c.id))
  }

  /** `.map(client => ...)` of `Summary` over a list of entries, its
      contract stated pointwise for the same reason as `OrderedMap.Values`. */
  function Summaries(cs: seq<Conn>, streams: Streams): (r: seq<ClientSummary>)
    ensures |r| == |cs|
    ensures forall i :: 0 <= i < |cs| ==> r[i] == Summary(cs[i], streams)
  {
    seq(|cs|, i requires 0 <= i < |cs| => Summary(cs[i], streams))
  }

  /** `x` is the summary of some client entry. */
  ghost predicate DescribesClient(conns: Conns, streams: Streams, x: ClientSummary)
  {
    exists s :: s in conns.entries && conns.entries[s].role == Client && Summary(conns.entries[s], streams) == x
  }

  /** The client list as the handlers compute it: `.filter` then `.map`.
      `ClientList` below is this list with its contract; the three lemmas
      between them prove that contract one clause at a time, which keeps
      each proof obligation small enough for the solver. */
  function ClientSummaries(conns: Conns, streams: Streams): seq<ClientSummary>
    requires conns.Valid()
  {
    Summaries(OfRole(conns.Values(), Client), streams)
  }

  /** Every element of the client list describes a client entry. */
  lemma ClientListSound(conns: Conns, streams: Streams)
    requires conns.Valid()
    ensures forall i :: 0 <= i < |ClientSummaries(conns, streams)| ==> DescribesClient(conns, streams, ClientSummaries(conns, streams)[i])
  {
    var clients := OfRole(conns.Values(), Client);
    forall i | 0 <= i < |ClientSummaries(conns, streams)|
      ensures DescribesClient(conns, streams, ClientSummaries(conns, streams)[i])
    {
      assert clients[i] in clients;
      var s :| s in conns.entries && conns.entries[s] == clients[i];
      assert Summary(conns.entries[s], streams) == ClientSummaries(conns, streams)[i];
    }
  }

  /** Every client entry is described in the client list. */
  lemma ClientListComplete(conns: Conns, streams: Streams)
    requires conns.Valid()
    ensures forall s :: s in conns.entries && conns.entries[s].role == Client ==> Summary(conns.entries[s], streams) in ClientSummaries(conns, streams)
  {
    var clients := OfRole(conns.Values(), Client);
    forall s | s in conns.entries && conns.entries[s].role == Client
      ensures Summary(conns.entries[s], streams) in ClientSummaries(conns, streams)
    {
      ValueListed(conns, s);
      assert conns.entries[s] in conns.Values();
      var i :| 0 <= i < |clients| && clients[i] == conns.entries[s];
      assert ClientSummaries(conns, streams)[i] == Summary(conns.entries[s], streams);
    }
  }

  /** With unique ids the client list names no id twice. */
  lemma ClientListDistinct(conns: Conns, streams: Streams)
    requires conns.Valid()
    ensures UniqueIds(conns) ==> forall i, j :: 0 <= i < j < |ClientSummaries(conns, streams)| ==>
              ClientSummaries(conns, streams)[i].clientId != ClientSummaries(conns, streams)[j].clientId
  {
    if UniqueIds(conns) {
      UniqueValues(conns, Client);
      OfRoleDistinct(conns.Values(), Client);
    }
  }

  /** The client list sent as `available-clients` and served by `/api/clients`:
      one summary per client entry and nothing else, with `isStreaming` true
      exactly when the store holds a frame for that id, and no id twice. */
  function ClientList(conns: Conns, streams: Streams): (r: seq<ClientSummary>)
    requires conns.Valid()
    ensures forall i :: 0 <= i < |r| ==> r[i].isStreaming == (r[i].clientId in streams.entries)
    ensures forall i :: 0 <= i < |r| ==> DescribesClient(conns, streams, r[i])
    ensures forall s :: s in conns.entries && conns.entries[s].role == Client ==> Summary(conns.entries[s], streams) in r
    ensures UniqueIds(conns) ==> forall i, j :: 0 <= i < j < |r| ==> r[i].clientId != r[j].clientId
  {
    ClientListSound(conns, streams);
    ClientListComplete(conns, streams);
    ClientListDistinct(conns, streams);
    ClientSummaries(conns, streams)
  }

  /** The registry entries of one role. */
  ghost function SocketsOfRole(conns: Conns, role: Role): set<SocketId>
  {
    set s | s in conns.entries && conns.entries[s].role == role
  }

  /** The keys of `ks` whose value has the role: those of its tail, and its
      head when the head's value has the role. */
  lemma KeysOfRoleSplit(ks: seq<SocketId>, e: map<SocketId, Conn>, role: Role)
    requires ks != [] && (forall k :: k in ks ==> k in e)
    ensures (set k | k in ks && e[k].role == role)
            == (set k | k in ks[1..] && e[k].role == role) + (if e[ks[0]].role == role then {ks[0]} else {})
  {
    assert forall k :: k in ks <==> k == ks[0] || k in ks[1..];
  }

  /** Filtering the values listed under distinct keys `ks` keeps as many
      values as there are keys in `ks` whose value has the role. */
  lemma {:induction false} OfRoleCount(ks: seq<SocketId>, e: map<SocketId, Conn>, cs: seq<Conn>, role: Role)
    requires Distinct(ks) && (forall k :: k in ks ==> k in e)
    requires |cs| == |ks| && (forall i :: 0 <= i < |ks| ==> cs[i] == e[ks[i]])
    ensures |OfRole(cs, role)| == |set k | k in ks && e[k].role == role|
  {
    if ks != [] {
      DistinctTail(ks);
      var tail, rest := ks[1..], cs[1..];
      assert forall i :: 0 <= i < |tail| ==> rest[i] == e[tail[i]] by {
        forall i | 0 <= i < |tail| ensures rest[i] == e[tail[i]] {
          assert rest[i] == cs[i + 1] && tail[i] == ks[i + 1];
        }
      }
      OfRoleCount(tail, e, rest, role);
      KeysOfRoleSplit(ks, e, role);
      assert ks[0] !in (set k | k in tail && e[k].role == role);
      assert OfRole(cs, role) == (if cs[0].role == role then [cs[0]] else []) + OfRole(rest, role);
    }
  }

  /** The number of `.filter` results of a role is the number of registry
      entries of that role. */
  lemma RoleCount(conns: Conns, role: Role)
    requires conns.Valid()
    ensures |OfRole(conns.Values(), role)| == |SocketsOfRole(conns, role)|
  {
    OfRoleCount(conns.keys, conns.entries, conns.Values(), role);
    assert (set k | k in conns.keys && conns.entries[k].role == role) == SocketsOfRole(conns, role);
  }

  /** The `connections` and `streams` parts of `/api/status`. */
  datatype Status = Status(total: nat, clients: nat, viewers: nat, activeStreams: nat, streamIds: seq<JsValue>)

  /** `/api/status`: the connection count splits into clients and viewers;
      the stream count is the number of stored frames and `details` lists
      each stored client id once. */
  function StatusOf(conns: Conns, streams: Streams): (r: Status)
    requires conns.Valid() && streams.Valid()
    ensures r.total == r.clients + r.viewers
    ensures r.total == |conns.entries|
    ensures r.clients == |SocketsOfRole(conns, Client)|
    ensures r.viewers == |SocketsOfRole(conns, Viewer)|
    ensures r.activeStreams == |streams.entries| == |r.streamIds|
    ensures forall k :: k in r.streamIds ==> k in streams.entries
    ensures forall k :: k in streams.entries ==> k in r.streamIds
    ensures Distinct(r.streamIds)
  {
    var values := conns.Values();
    RolesPartition(values);
    RoleCount(conns, Client);
    RoleCount(conns, Viewer);
    SizeIsCount(conns);
    SizeIsCount(streams);
    Status(conns.Size(), |OfRole(values, Client)|, |OfRole(values, Viewer)|, streams.Size(), streams.keys)
  }

  /** The `stream` part of `/api/clients/:clientId`. */
  datatype StreamInfo = Inactive | Active(quality: JsValue, lastUpdate: nat, timestamp: JsValue)

  /** The answer of `/api/clients/:clientId`; `NotFound` is the 404 reply. */
  datatype ClientDetail =
    | NotFound
    | Found(clientId: JsValue, clientName: JsValue, connectedAt: nat, stream: StreamInfo)

  /** `/api/clients/:clientId` (a route parameter is always a string): not
      found exactly when no client entry holds that id; otherwise that
      entry's data, and the stored frame's metadata exactly when one exists. */
  function ClientDetailOf(conns: Conns, streams: Streams, clientId: string): (r: ClientDetail)
    requires conns.Valid()
    ensures r.NotFound? <==> !HasEntry(conns, Client, Str(clientId))
    ensures r.Found? ==> r.clientId == Str(clientId)
    ensures r.Found? ==> exists s :: s in conns.entries && Matches(conns.entries[s], Client, Str(clientId))
                                     && conns.entries[s].name == r.clientName && conns.entries[s].connectedAt == r.connectedAt
    ensures r.Found? ==> (r.stream.Active? <==> Str(clientId) in streams.entries)
    ensures r.Found? && r.stream.Active? ==>
              var f := streams.entries[Str(clientId)];
              r.stream == Active(f.quality, f.lastUpdate, f.timestamp)
  {
    match FindConn(conns, Client, Str(clientId))
    case None => NotFound
    case Some(c) =>
      var info := match streams.Get(Str(clientId))
        case None => Inactive
        case Some(f) => Active(f.quality, f.lastUpdate, f.timestamp);
      Found(c.id, c.name, c.connectedAt, info)
  }
}
