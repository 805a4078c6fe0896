/** The Socket.IO event handlers of the relay server. Each handler runs to
    completion over the two tables before the next event is handled; it
    returns, in order, the messages it emits. */
module RelayServer {
  import opened Js
  import opened JsMap
  import opened RelayState

  class Relay {
    /** `activeConnections`: socket id to registry entry. */
    var conns: Conns
    /** `screenStreams`: client id to its latest frame. */
    var streams: Streams

    /** The tables are well-formed maps, every entry is filed under its own
        socket, no two entries of one role share an id, and every stored
        frame passed the completeness check. */
    ghost predicate Valid()
      reads this
    {
      RegistryValid(conns) && StoreValid(streams)
    }

    /** Every stored frame belongs to a registered client. This holds as long
        as no socket registers a second time (see `ClientConnect`). */
    ghost predicate StreamsOwned()
      reads this
    {
      StreamsOwnedBy(conns, streams)
    }

    /** Both tables start empty. */
    constructor ()
      ensures Valid() && StreamsOwned()
      ensures conns == Empty() && streams == Empty()
    {
      conns := Empty();
      streams := Empty();
    }

    /** `client-connect`: rejected with `connection-error` when a client entry
        already holds `clientId`; otherwise the sender's entry becomes a
        client entry (replacing whatever the socket had registered before),
        every other socket gets the new client list and the sender a
        confirmation. The stream store is not touched. */
    method ClientConnect(sock: SocketId, clientId: JsValue, clientName: JsValue, now: nat) returns (out: seq<Outbound>)
      requires Valid()
      modifies this
      ensures Valid()
      ensures streams == old(streams)
      ensures HasEntry(old(conns), Client, clientId) ==>
                conns == old(conns) && out == [Outbound(ToSender, ConnectionError(ClientIdInUse))]
      ensures !HasEntry(old(conns), Client, clientId) ==>
                && conns == old(conns).Set(sock, Conn(Client, clientId, clientName, now, sock))
                && out == [ Outbound(ToOthers, ClientListUpdated(OfRole(conns.Values(), Client))),
                            Outbound(ToSender, ClientConnected(clientId, clientName, ConnectedMessage)) ]
      ensures old(StreamsOwned()) && sock !in old(conns.entries) ==> StreamsOwned()
    {
      var existing := FindConn(conns, Client, clientId);
      if existing.Some? {
        out := [Outbound(ToSender, ConnectionError(ClientIdInUse))];
        return;
      }
      RegisterKeepsUnique(conns, sock, Conn(Client, clientId, clientName, now, sock));
      if sock !in conns.entries && StreamsOwnedBy(conns, streams) {
        RegisterKeepsOwned(conns, streams, sock, Conn(Client, clientId, clientName, now, sock));
      }
      conns := conns.Set(sock, Conn(Client, clientId, clientName, now, sock));
      out := [ Outbound(ToOthers, ClientListUpdated(OfRole(conns.Values(), Client))),
               Outbound(ToSender, ClientConnected(clientId, clientName, ConnectedMessage)) ];
    }

    /** `viewer-connect`: rejected with `connection-error` when a viewer entry
        already holds `viewerId`; otherwise the sender's entry becomes a viewer
        entry and the sender gets the client list and a confirmation. */
    method ViewerConnect(sock: SocketId, viewerId: JsValue, viewerName: JsValue, now: nat) returns (out: seq<Outbound>)
      requires Valid()
      modifies this
      ensures Valid()
      ensures streams == old(streams)
      ensures HasEntry(old(conns), Viewer, viewerId) ==>
                conns == old(conns) && out == [Outbound(ToSender, ConnectionError(ViewerIdInUse))]
      ensures !HasEntry(old(conns), Viewer, viewerId) ==>
                && conns == old(conns).Set(sock, Conn(Viewer, viewerId, viewerName, now, sock))
                && out == [ Outbound(ToSender, AvailableClients(ClientList(conns, streams))),
                            Outbound(ToSender, ViewerConnected(viewerId, viewerName, ConnectedMessage)) ]
      ensures old(StreamsOwned()) && sock !in old(conns.entries) ==> StreamsOwned()
    {
      var existing := FindConn(conns, Viewer, viewerId);
      if existing.Some? {
        out := [Outbound(ToSender, ConnectionError(ViewerIdInUse))];
        return;
      }
      RegisterKeepsUnique(conns, sock, Conn(Viewer, viewerId, viewerName, now, sock));
      if sock !in conns.entries && StreamsOwnedBy(conns, streams) {
        RegisterKeepsOwned(conns, streams, sock, Conn(Viewer, viewerId, viewerName, now, sock));
      }
      conns := conns.Set(sock, Conn(Viewer, viewerId, viewerName, now, sock));
      out := [ Outbound(ToSender, AvailableClients(ClientList(conns, streams))),
               Outbound(ToSender, ViewerConnected(viewerId, viewerName, ConnectedMessage)) ];
    }

    /** `screen-stream`: a frame with a falsy field, or for an id no client
        entry holds, is answered with `stream-error` and stored nowhere; any
        socket may send a frame for any registered client id. An accepted
        frame replaces the stored one for its id, leaves every other id's
        frame alone, goes to every other socket as `screen-update` and is
        acknowledged to the sender. The registry is not touched. */
    method ScreenStream(sock: SocketId, clientId: JsValue, imageData: JsValue, timestamp: JsValue, quality: JsValue, now: nat)
        returns (out: seq<Outbound>)
      requires Valid()
      modifies this
      ensures Valid()
      ensures conns == old(conns)
      ensures !FrameFieldsPresent(clientId, imageData, timestamp, quality) ==>
                streams == old(streams) && out == [Outbound(ToSender, StreamError(IncompleteStream))]
      ensures FrameFieldsPresent(clientId, imageData, timestamp, quality)
              && !HasEntry(conns, Client, clientId) ==>
                streams == old(streams) && out == [Outbound(ToSender, StreamError(ClientNotFound))]
      ensures FrameFieldsPresent(clientId, imageData, timestamp, quality)
              && HasEntry(conns, Client, clientId) ==>
                && streams == old(streams).Set(clientId, Frame(imageData, timestamp, quality, now, LengthOf(imageData)))
                && out == [ Outbound(ToOthers, ScreenUpdate(clientId, imageData, timestamp, quality)),
                            Outbound(ToSender, StreamReceived(clientId, timestamp, StreamReceivedMessage)) ]
      ensures forall k :: k != clientId ==> streams.Get(k) == old(streams).Get(k)
      ensures old(StreamsOwned()) ==> StreamsOwned()
    {
      if !FrameFieldsPresent(clientId, imageData, timestamp, quality) {
        out := [Outbound(ToSender, StreamError(IncompleteStream))];
      } else {
        var client := FindConn(conns, Client, clientId);
        if client.None? {
          out := [Outbound(ToSender, StreamError(ClientNotFound))];
        } else {
          var frame := Frame(imageData, timestamp, quality, now, LengthOf(imageData));
          StoreKeepsInvariants(conns, streams, clientId, frame);
          streams := streams.Set(clientId, frame);
          out := [ Outbound(ToOthers, ScreenUpdate(clientId, imageData, timestamp, quality)),
                   Outbound(ToSender, StreamReceived(clientId, timestamp, StreamReceivedMessage)) ];
        }
      }
    }

    /** `request-stream`: the stored frame for `clientId` goes back to the
        sender alone; with none stored nothing is sent. Nothing changes. */
    method RequestStream(sock: SocketId, clientId: JsValue) returns (out: seq<Outbound>)
      ensures clientId in streams.entries ==>
                var f := streams.entries[clientId];
                out == [Outbound(ToSender, ScreenUpdate(clientId, f.imageData, f.timestamp, f.quality))]
      ensures clientId !in streams.entries ==> out == []
    {
      var stream := streams.Get(clientId);
      out := [];
      if stream.Some? {
        out := [Outbound(ToSender, ScreenUpdate(clientId, stream.value.imageData, stream.value.timestamp, stream.value.quality))];
      }
    }

    /** `remote-control`: forwarded unchecked to every other socket, each of
        which decides by `clientId` whether it is meant. Nothing changes. */
    method RemoteControl(sock: SocketId, clientId: JsValue, action: JsValue, params: JsValue, now: nat) returns (out: seq<Outbound>)
      ensures |out| == 1 && out[0].target == ToOthers
      ensures out[0].event == RemoteCommand(clientId, action, params, now)
    {
      out := [Outbound(ToOthers, RemoteCommand(clientId, action, params, now))];
    }

    /** `client-status`: forwarded unchecked to every other socket. Nothing changes. */
    method ClientStatus(sock: SocketId, clientId: JsValue, status: JsValue, details: JsValue, now: nat) returns (out: seq<Outbound>)
      ensures |out| == 1 && out[0].target == ToOthers
      ensures out[0].event == ClientStatusUpdate(clientId, status, details, now)
    {
      out := [Outbound(ToOthers, ClientStatusUpdate(clientId, status, details, now))];
    }

    /** `disconnect`: an unregistered socket changes nothing and sends
        nothing, so a repeated disconnect is harmless. A registered socket's
        entry is removed and every other socket gets the new client list; a
        client's frame is removed as well, and its departure is announced
        first. Afterwards no entry holds a departed client's id and no frame
        is stored for it. */
    method Disconnect(sock: SocketId, now: nat) returns (out: seq<Outbound>)
      requires Valid()
      modifies this
      ensures Valid()
      ensures sock !in conns.entries
      ensures sock !in old(conns.entries) ==> conns == old(conns) && streams == old(streams) && out == []
      ensures sock in old(conns.entries) && old(conns.entries[sock]).role == Client ==>
                var c := old(conns.entries[sock]);
                && conns == old(conns).Delete(sock)
                && streams == old(streams).Delete(c.id)
                && out == [ Outbound(ToOthers, ClientDisconnected(c.id, c.name, now)),
                            Outbound(ToOthers, ClientListUpdated(OfRole(conns.Values(), Client))) ]
                && !HasEntry(conns, Client, c.id)
                && c.id !in streams.entries
      ensures sock in old(conns.entries) && old(conns.entries[sock]).role == Viewer ==>
                && conns == old(conns).Delete(sock)
                && streams == old(streams)
                && out == [Outbound(ToOthers, ClientListUpdated(OfRole(conns.Values(), Client)))]
      ensures old(StreamsOwned()) ==> StreamsOwned()
    {
      var connection := conns.Get(sock);
      out := [];
      if connection.Some? {
        var c := connection.value;
        RemoveKeepsUnique(conns, sock);
        RemoveClearsId(conns, sock);
        UnstoreKeepsComplete(streams, c.id);
        if StreamsOwnedBy(conns, streams) {
          RemoveKeepsOwned(conns, streams, sock);
        }
        if c.role == Client {
          streams := streams.Delete(c.id);
          out := out + [Outbound(ToOthers, ClientDisconnected(c.id, c.name, now))];
        }
        conns := conns.Delete(sock);
        out := out + [Outbound(ToOthers, ClientListUpdated(OfRole(conns.Values(), Client)))];
      }
    }
  }
}
