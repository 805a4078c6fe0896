/** Whole runs of the relay, each from a fresh server, whose outcome follows
    from the handlers' contracts alone. */
module RelayScenarios {
  import opened Js
  import opened JsMap
  import opened RelayState
  import opened RelayServer

  /** Client "c1", named "Alice", registered on socket "s1" at time 1. */
  const Alice := Conn(Client, Str("c1"), Str("Alice"), 1, "s1")
  /** Viewer "v1", named "Vera", registered on socket "s2" at time 3. */
  const Vera := Conn(Viewer, Str("v1"), Str("Vera"), 3, "s2")
  /** The frame "AAA" sent for "c1", stored at time 2. */
  const FrameAAA := Frame(Str("AAA"), Num(1000), Str("low"), 2, Num(3))

  /** A fresh server on which client "c1" has registered. */
  method AliceRegistered() returns (relay: Relay)
    ensures fresh(relay) && relay.Valid() && relay.StreamsOwned()
    ensures relay.conns == OrderedMap(["s1"], map["s1" := Alice]) && relay.streams == Empty()
  {
    relay := new Relay();
    var out := relay.ClientConnect("s1", Str("c1"), Str("Alice"), 1);
  }

  /** ... and has then sent the frame "AAA". */
  method AliceStreaming() returns (relay: Relay)
    ensures fresh(relay) && relay.Valid() && relay.StreamsOwned()
    ensures relay.conns == OrderedMap(["s1"], map["s1" := Alice])
    ensures relay.streams == OrderedMap([Str("c1")], map[Str("c1") := FrameAAA])
  {
    relay := AliceRegistered();
    assert "s1" in relay.conns.entries;
    var out := relay.ScreenStream("s1", Str("c1"), Str("AAA"), Num(1000), Str("low"), 2);
  }

  /** ... and then viewer "v1" has registered. */
  method AliceStreamingToVera() returns (relay: Relay)
    ensures fresh(relay) && relay.Valid() && relay.StreamsOwned()
    ensures relay.conns == OrderedMap(["s1", "s2"], map["s1" := Alice, "s2" := Vera])
    ensures relay.streams == OrderedMap([Str("c1")], map[Str("c1") := FrameAAA])
  {
    relay := AliceStreaming();
    var out := relay.ViewerConnect("s2", Str("v1"), Str("Vera"), 3);
  }

  /** A second socket claims the client id "c1": it is refused and "c1"
      remains registered to the first. */
  method DuplicateClientId() returns (second: seq<Outbound>, holder: Option<Conn>)
    ensures second == [Outbound(ToSender, ConnectionError(ClientIdInUse))]
    ensures holder == Some(Alice)
  {
    var relay := AliceRegistered();
    assert "s1" in relay.conns.entries;
    second := relay.ClientConnect("s2", Str("c1"), Str("Bob"), 2);
    holder := FindConn(relay.conns, Client, Str("c1"));
    assert relay.conns.entries["s1"] == Alice;
  }

  /** The duplicate check is per role: a viewer may use an id a client holds. */
  method ViewerMayShareClientId() returns (out: seq<Outbound>)
    ensures |out| == 2 && out[1] == Outbound(ToSender, ViewerConnected(Str("c1"), Str("Vera"), ConnectedMessage))
  {
    var relay := AliceRegistered();
    out := relay.ViewerConnect("s2", Str("c1"), Str("Vera"), 2);
  }

  /** A viewer asks for the frame of "c1"; a second frame without `quality`
      is refused and the first stays; a complete second frame replaces it. */
  method LatestFrameWins() returns (first: seq<Outbound>, rejected: seq<Outbound>, stillFirst: seq<Outbound>, second: seq<Outbound>)
    ensures first == [Outbound(ToSender, ScreenUpdate(Str("c1"), Str("AAA"), Num(1000), Str("low")))]
    ensures rejected == [Outbound(ToSender, StreamError(IncompleteStream))]
    ensures stillFirst == first
    ensures second == [Outbound(ToSender, ScreenUpdate(Str("c1"), Str("BBB"), Num(2000), Str("low")))]
  {
    var relay := AliceStreamingToVera();
    first := relay.RequestStream("s2", Str("c1"));
    rejected := relay.ScreenStream("s1", Str("c1"), Str("BBB"), Num(2000), Undefined, 4);
    stillFirst := relay.RequestStream("s2", Str("c1"));
    assert "s1" in relay.conns.entries;
    var out := relay.ScreenStream("s1", Str("c1"), Str("BBB"), Num(2000), Str("low"), 5);
    second := relay.RequestStream("s2", Str("c1"));
  }

  /** Any socket may store a frame for a registered client id: here the
      viewer stores one for "c1". */
  method AnySocketMayStream() returns (out: seq<Outbound>)
    ensures out == [ Outbound(ToOthers, ScreenUpdate(Str("c1"), Str("XYZ"), Num(7), Str("high"))),
                     Outbound(ToSender, StreamReceived(Str("c1"), Num(7), StreamReceivedMessage)) ]
  {
    var relay := AliceStreamingToVera();
    assert "s1" in relay.conns.entries;
    out := relay.ScreenStream("s2", Str("c1"), Str("XYZ"), Num(7), Str("high"), 4);
  }

  /** ... and then client "c1" has disconnected, which was announced. */
  method AliceDeparted() returns (relay: Relay, departure: seq<Outbound>)
    ensures fresh(relay) && relay.Valid() && relay.StreamsOwned()
    ensures relay.conns.entries == map["s2" := Vera] && relay.streams.entries == map[]
    ensures |departure| == 2 && departure[0] == Outbound(ToOthers, ClientDisconnected(Str("c1"), Str("Alice"), 4))
  {
    relay := AliceStreamingToVera();
    departure := relay.Disconnect("s1", 4);
  }

  /** Client "c1" leaves: its departure is announced, a late request for its
      frame gets no answer, the client list is empty, and a repeated
      disconnect does nothing. */
  method ClientDeparture() returns (departure: seq<Outbound>, late: seq<Outbound>, list: seq<ClientSummary>, again: seq<Outbound>)
    ensures |departure| == 2 && departure[0] == Outbound(ToOthers, ClientDisconnected(Str("c1"), Str("Alice"), 4))
    ensures late == [] && list == [] && again == []
  {
    var relay;
    relay, departure := AliceDeparted();
    late := relay.RequestStream("s2", Str("c1"));
    NoClientsNoList(relay.conns, relay.streams);
    list := ClientList(relay.conns, relay.streams);
    again := relay.Disconnect("s1", 5);
  }

  /** A socket that registers a second time leaves its old frame behind: a
      later client that takes the old id is listed as streaming before it
      has sent a frame. */
  method ReRegistrationOrphansFrame() returns (list: seq<ClientSummary>)
    ensures ClientSummary(Str("c1"), Str("Carol"), 4, true) in list
  {
    var relay := AliceStreaming();
    var out := relay.ClientConnect("s1", Str("c2"), Str("Alice"), 3);
    assert relay.conns.entries == map["s1" := Conn(Client, Str("c2"), Str("Alice"), 3, "s1")];
    assert !relay.StreamsOwned() by {
      assert Str("c1") in relay.streams.entries;
    }
    out := relay.ClientConnect("s3", Str("c1"), Str("Carol"), 4);
    assert relay.conns.entries["s3"] == Conn(Client, Str("c1"), Str("Carol"), 4, "s3");
    list := ClientList(relay.conns, relay.streams);
    assert Summary(relay.conns.entries["s3"], relay.streams) in list;
  }
}
