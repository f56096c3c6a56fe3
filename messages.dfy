/**
  The messages a client exchanges with the relay, already decoded from JSON,
  and the events the relay produces on its connections.
 */
module Messages {
  import opened Options
  import opened Spaces

  /** The only resource a GET may ask for. */
  const PeerConnectionResource := "/peerconnection"

  const SuccessCode := "success"

  datatype IceServer = IceServer(url: string)

  /** The argument a browser passes to its RTCPeerConnection constructor. */
  datatype Configuration = Configuration(iceServers: seq<IceServer>)

  /** The fixed configuration every client is given: one public STUN server. */
  const ServerConfiguration := Configuration([IceServer("stun:stun.l.google.com:19302")])

  /**
    An inbound message, keyed by its "method" field. A GET carries its
    "resource" and its optional "msg_id"; a NOTIFY carries its opaque "data";
    `OtherMethod` stands for every other value of "method": the decoder maps
    "GET" and "NOTIFY" to `Get` and `Notify`, so it never carries either name.
   */
  datatype InMsg<D, M> =
    | Get(resource: string, msgId: Option<M>)
    | Notify(data: D)
    | OtherMethod(name: string)

  /** An outbound message: a relayed NOTIFY, or the reply to a configuration GET. */
  datatype OutMsg<D, M> =
    | Relay(data: D)
    | Response(code: string, configuration: Configuration, msgId: Option<M>)

  /** What the relay does to the connections: send one message, or close one. */
  datatype Event<D, M> =
    | Send(to: Conn, msg: OutMsg<D, M>)
    | CloseConn(conn: Conn)

  /**
    The reply to GET /peerconnection: the success code, the fixed configuration,
    and the request's correlation token exactly when the request had one.
   */
  function ConfigResponse<D, M>(msgId: Option<M>): (r: OutMsg<D, M>)
    ensures r.Response? && r.code == SuccessCode && r.configuration == ServerConfiguration
    ensures r.msgId.Some? <==> msgId.Some?
    ensures msgId.Some? ==> r.msgId.value == msgId.value
  {
    Response(SuccessCode, ServerConfiguration, msgId)
  }

  /** Every configuration reply carries the same configuration, whatever the token, and echoes the token as given. */
  lemma ConfigIdempotent<D, M>(a: Option<M>, b: Option<M>)
    ensures (ConfigResponse<D, M>(a)).configuration == (ConfigResponse<D, M>(b)).configuration
    ensures (ConfigResponse<D, M>(a)).msgId == a
  {
  }
}
