/**
 * The QUIC client's connection bootstrap (QuicClient.Connect and
 * QuicClient.ConnectAsync): resolve the peer, send an initial packet seeded
 * with connection ids (0, 0), read exactly one reply, scan its frames and,
 * unless the peer closed, build a connection whose local and peer ids are
 * both the reply's source connection id.
 *
 * Both entry points are one function, `Handshake`, that takes the call mode
 * as a parameter; the mode only labels the two I/O events in the trace. The
 * network is a scripted `Network` value (what the send reports and which
 * packet the single read returns), and the platform's address parser is a
 * parameter.
 */
module QuicClient {
  import opened Wrappers
  import opened Packets
  import opened FrameScan

  /** An IP address as returned by the platform's address parser (opaque here). */
  datatype IpAddress = IpAddress(bytes: seq<bv8>)

  /** Highest port the platform's endpoint constructor accepts; it rejects anything outside 0 to this. */
  const MaxPort: int := 0xFFFF

  type Port = p: int | 0 <= p <= MaxPort

  /** The peer's address and port. */
  datatype Endpoint = Endpoint(address: IpAddress, port: Port)

  /** The connection built on success: the channel bound to the peer and the two connection ids. */
  datatype Connection = Connection(channel: Endpoint, connectionId: uint32, peerConnectionId: uint32)

  /**
   * The client's instance state that a Connect call reads and writes: the
   * peer endpoint, the negotiated stream limit and the last connection built.
   * All three survive the call, including a call that fails part-way.
   */
  datatype Client = Client(peer: Option<Endpoint>, maximumStreams: uint64, connection: Option<Connection>)

  /** Which entry point runs: Connect blocks the thread, ConnectAsync suspends. */
  datatype CallMode = Blocking | Suspending

  /** A transport failure, surfaced unchanged. */
  datatype IoError = IoError(description: string)

  datatype IoResult<+T> = Done(value: T) | IoFailed(error: IoError)

  /** What the transport does on this attempt: the outcome of the one send, and of the one read. */
  datatype Network = Network(send: IoResult<()>, reply: IoResult<Packet>)

  /** The observable steps of one attempt, in order. */
  datatype Event =
    | CreateInitialPacket(localSeed: uint32, peerSeed: uint32)
    | SendPacket(mode: CallMode, to: Endpoint)
    | ReadPacket(mode: CallMode, from: Endpoint)
    | EstablishConnection(connectionId: uint32, peerConnectionId: uint32)

  /** Every way an attempt can end without a connection. */
  datatype ConnectError =
    | AddressFormatError
    | PortOutOfRange
    | SendFailed(sendError: IoError)
    | ReadFailed(readError: IoError)
    | NotInitialPacket
    | ConnectivityError(reason: string)

  /** One call's effect: the client state afterwards, the steps taken, and what the call returned or threw. */
  datatype Attempt = Attempt(client: Client, trace: seq<Event>, result: Result<Connection, ConnectError>)

  /** A freshly constructed client; its stream limit starts at the settings' maximum stream id. */
  function NewClient(maximumStreamId: uint64): Client
  {
    Client(None, maximumStreamId, None)
  }

  /** The transport delivered an initial packet in reply: the attempt gets as far as scanning its frames. */
  predicate Replied(net: Network)
  {
    net.send.Done? && net.reply.Done? && net.reply.value.InitialPacket?
  }

  /** The address parses and the port is in range: the attempt gets as far as the network. */
  predicate Resolves(parse: string -> Option<IpAddress>, ip: string, port: int)
  {
    parse(ip).Some? && 0 <= port <= MaxPort
  }

  /** The frame scan of the reply, run against the client's current stream limit. */
  function ReplyScan(client: Client, net: Network): ScanResult
    requires Replied(net)
  {
    HandleInitialFrames(net.reply.value.frames, client.maximumStreams)
  }

  /** The step sequence shared by Connect and ConnectAsync. */
  function Handshake(mode: CallMode, client: Client, ip: string, port: int,
                     parse: string -> Option<IpAddress>, net: Network): (a: Attempt)
    // an unparsable address or a bad port fails before any I/O and changes nothing
    ensures parse(ip).None? ==> a == Attempt(client, [], Failure(AddressFormatError))
    ensures !Resolves(parse, ip, port) ==> a.trace == [] && a.client == client && a.result.Failure?
    ensures parse(ip).Some? && !(0 <= port <= MaxPort) ==> a.result == Failure(PortOutOfRange)
    // every attempt that reaches the network first builds the initial packet with seeds (0, 0),
    // then sends it, and reads only after the send succeeded
    ensures Resolves(parse, ip, port) ==>
              |a.trace| >= 2 && a.trace[0] == CreateInitialPacket(0, 0) && a.trace[1].SendPacket?
    ensures Resolves(parse, ip, port) ==> a.trace[1] == SendPacket(mode, Endpoint(parse(ip).value, port))
    ensures forall n :: 0 <= n < |a.trace| && a.trace[n].ReadPacket? ==>
              n == 2 && a.trace[1].SendPacket? && net.send.Done?
    ensures Resolves(parse, ip, port) && net.send.Done? ==>
              |a.trace| >= 3 && a.trace[2] == ReadPacket(mode, Endpoint(parse(ip).value, port))
    ensures a.result.Success? ==>
              |a.trace| == 4 && a.trace[3] == EstablishConnection(a.result.value.connectionId, a.result.value.peerConnectionId)
    ensures |a.trace| <= 4
    // a failure ends the call where it happens: no retry, no step after the failing one
    ensures a.result.Failure? ==> |a.trace| <= 3
    // the peer endpoint is recorded before the send, so it persists even when the call fails later
    ensures Resolves(parse, ip, port) ==> a.client.peer == Some(Endpoint(parse(ip).value, port))
    // transport errors and a reply of the wrong packet type surface unchanged, in that order
    ensures Resolves(parse, ip, port) && net.send.IoFailed? ==>
              && a.trace == [CreateInitialPacket(0, 0), SendPacket(mode, Endpoint(parse(ip).value, port))]
              && a.result == Failure(SendFailed(net.send.error))
    ensures Resolves(parse, ip, port) && net.send.Done? && net.reply.IoFailed? ==>
              a.result == Failure(ReadFailed(net.reply.error))
    ensures Resolves(parse, ip, port) && net.send.Done? && net.reply.Done? && !net.reply.value.InitialPacket? ==>
              a.result == Failure(NotInitialPacket)
    // a scanned reply whose scan reaches no close always yields a connection
    ensures Resolves(parse, ip, port) && Replied(net) && ReplyScan(client, net).closeReason.None? ==>
              a.result.Success?
    // a close frame reached by the scan fails the call with exactly its reason
    ensures a.result.Failure? && a.result.error.ConnectivityError? <==>
              Resolves(parse, ip, port) && Replied(net) && ReplyScan(client, net).closeReason.Some?
    ensures Resolves(parse, ip, port) && Replied(net) && ReplyScan(client, net).closeReason.Some? ==>
              a.result == Failure(ConnectivityError(ReplyScan(client, net).closeReason.value))
    // a connection is built only on success, and only then is the client's connection replaced
    ensures a.result.Success? <==> (exists n :: 0 <= n < |a.trace| && a.trace[n].EstablishConnection?)
    ensures a.result.Success? ==> a.client.connection == Some(a.result.value)
    ensures a.result.Failure? ==> a.client.connection == client.connection
    // on success both ids are the reply's source connection id, and the channel is bound to the peer
    ensures a.result.Success? ==>
              && Replied(net)
              && a.result.value.connectionId == net.reply.value.sourceConnectionId
              && a.result.value.peerConnectionId == net.reply.value.sourceConnectionId
              && a.client.peer == Some(a.result.value.channel)
              && a.result.value.channel == Endpoint(parse(ip).value, port)
    // the stream limit changes only through the scan of a reply, and keeps the scan's writes even on a close
    ensures a.client.maximumStreams ==
              if Resolves(parse, ip, port) && Replied(net) then ReplyScan(client, net).maximumStreams
              else client.maximumStreams
  {
    match parse(ip)
    case None => Attempt(client, [], Failure(AddressFormatError))
    case Some(address) =>
      if !(0 <= port <= MaxPort) then Attempt(client, [], Failure(PortOutOfRange))
      else
        var peer := Endpoint(address, port);
        var bound := client.(peer := Some(peer));
        var sent := [CreateInitialPacket(0, 0), SendPacket(mode, peer)];
        match net.send
        case IoFailed(e) => Attempt(bound, sent, Failure(SendFailed(e)))
        case Done(_) =>
          var read := sent + [ReadPacket(mode, peer)];
          match net.reply
          case IoFailed(e) => Attempt(bound, read, Failure(ReadFailed(e)))
          case Done(packet) =>
            if !packet.InitialPacket? then Attempt(bound, read, Failure(NotInitialPacket))
            else
              var scan := HandleInitialFrames(packet.frames, bound.maximumStreams);
              var scanned := bound.(maximumStreams := scan.maximumStreams);
              match scan.closeReason
              case Some(reason) => Attempt(scanned, read, Failure(ConnectivityError(reason)))
              case None =>
                var connection := Connection(peer, packet.sourceConnectionId, packet.sourceConnectionId);
                var established := read + [EstablishConnection(packet.sourceConnectionId, packet.sourceConnectionId)];
                assert established[3].EstablishConnection?;
                Attempt(scanned.(connection := Some(connection)), established, Success(connection))
  }

  /** QuicClient.Connect: the blocking entry point. */
  function Connect(client: Client, ip: string, port: int,
                   parse: string -> Option<IpAddress>, net: Network): (a: Attempt)
    // every network step of the blocking entry point blocks
    ensures forall n :: 0 <= n < |a.trace| && (a.trace[n].SendPacket? || a.trace[n].ReadPacket?) ==>
              a.trace[n].mode == Blocking
  {
    Handshake(Blocking, client, ip, port, parse, net)
  }

  /** QuicClient.ConnectAsync: the suspending entry point. */
  function ConnectAsync(client: Client, ip: string, port: int,
                        parse: string -> Option<IpAddress>, net: Network): (a: Attempt)
    // every network step of the suspending entry point suspends
    ensures forall n :: 0 <= n < |a.trace| && (a.trace[n].SendPacket? || a.trace[n].ReadPacket?) ==>
              a.trace[n].mode == Suspending
  {
    Handshake(Suspending, client, ip, port, parse, net)
  }

  /** An event with its call mode forgotten. */
  function WithoutMode(e: Event): Event
  {
    match e
    case SendPacket(_, to) => SendPacket(Blocking, to)
    case ReadPacket(_, from) => ReadPacket(Blocking, from)
    case _ => e
  }

  /**
   * Connect and ConnectAsync take the same steps in the same order and, given
   * the same reply, leave the same client state and return the same outcome;
   * they differ only in how the two I/O steps wait.
   */
  lemma ConnectAsyncMatchesConnect(client: Client, ip: string, port: int,
                                   parse: string -> Option<IpAddress>, net: Network)
    ensures ConnectAsync(client, ip, port, parse, net).result == Connect(client, ip, port, parse, net).result
    ensures ConnectAsync(client, ip, port, parse, net).client == Connect(client, ip, port, parse, net).client
    ensures |ConnectAsync(client, ip, port, parse, net).trace| == |Connect(client, ip, port, parse, net).trace|
    ensures forall n :: 0 <= n < |Connect(client, ip, port, parse, net).trace| ==>
              WithoutMode(ConnectAsync(client, ip, port, parse, net).trace[n])
              == WithoutMode(Connect(client, ip, port, parse, net).trace[n])
  {
  }

  /**
   * Whether a call succeeds, why it fails, the connection it builds and the
   * steps it takes do not depend on the client's earlier state.
   */
  lemma OutcomeIgnoresClientState(c1: Client, c2: Client, ip: string, port: int,
                                  parse: string -> Option<IpAddress>, net: Network)
    ensures Connect(c1, ip, port, parse, net).result == Connect(c2, ip, port, parse, net).result
    ensures Connect(c1, ip, port, parse, net).trace == Connect(c2, ip, port, parse, net).trace
  {
  }

  /** The reply, if scanned, reaches no max-streams frame. */
  ghost predicate NoStreamLimitIn(parse: string -> Option<IpAddress>, ip: string, port: int, net: Network)
  {
    Resolves(parse, ip, port) && Replied(net) ==>
      forall k :: Reached(net.reply.value.frames, k) ==> !net.reply.value.frames[k].MaxStreamsFrame?
  }

  /** On a fresh client, a reply without a visited max-streams frame leaves the settings' default in place. */
  lemma FreshClientKeepsDefaultLimit(maximumStreamId: uint64, ip: string, port: int,
                                     parse: string -> Option<IpAddress>, net: Network)
    requires NoStreamLimitIn(parse, ip, port, net)
    ensures Connect(NewClient(maximumStreamId), ip, port, parse, net).client.maximumStreams == maximumStreamId
  {
  }

  /**
   * The stream limit is instance state: a second Connect on the same client
   * starts from whatever the first call left, and keeps it when its own reply
   * carries no visited max-streams frame.
   */
  lemma SecondConnectInheritsLimit(client: Client, ip1: string, port1: int, net1: Network,
                                   ip2: string, port2: int, net2: Network,
                                   parse: string -> Option<IpAddress>)
    requires NoStreamLimitIn(parse, ip2, port2, net2)
    ensures var first := Connect(client, ip1, port1, parse, net1);
            Connect(first.client, ip2, port2, parse, net2).client.maximumStreams == first.client.maximumStreams
  {
  }

  /**
   * A reply with at most one frame always yields a connection and leaves the
   * stream limit as it was: the loop never inspects index 0, so even a lone
   * close frame is ignored.
   */
  lemma ShortReplyConnects(client: Client, ip: string, port: int,
                           parse: string -> Option<IpAddress>, net: Network)
    requires Resolves(parse, ip, port) && Replied(net)
    requires |net.reply.value.frames| <= 1
    ensures Connect(client, ip, port, parse, net).result.Success?
    ensures Connect(client, ip, port, parse, net).client.maximumStreams == client.maximumStreams
  {
    var frames := net.reply.value.frames;
    if |frames| == 1 {
      ScanSkipsIndexZero(frames, frames[0], client.maximumStreams);
    }
  }
}
