/**
 * The Proxy's per-connection handler: it reads the client's two-integer
 * handshake, builds the worker the pair asks for, runs it, and closes the
 * socket however that ends. The socket's input is the sequence of integers
 * that arrive before the end of the stream.
 */
module ConnectionHandler {
  import opened Wrappers
  import P = ProtocolConstants
  import R = Receiver
  import CN = ClientNetwork

  /** The Proxy's two relay queues. */
  datatype ProxyQueue = ToInitiator | ToEcho

  /** The worker built for a connection: a Sender draining a queue onto the
      socket, or a Receiver filling a queue from it. */
  datatype Wiring = SenderFrom(queue: ProxyQueue) | ReceiverInto(queue: ProxyQueue)

  datatype HandlerError =
    | IncorrectConnectorType(connectorType: int)
    | IncorrectServerType(clientType: int)

  predicate IsClientRole(clientType: int) {
    clientType == P.Encode(P.InitiatorSign) || clientType == P.Encode(P.EchoSign)
  }

  predicate IsConnectorType(connectorType: int) {
    connectorType == P.Encode(P.SenderSign) || connectorType == P.Encode(P.ReceiverSign)
  }

  /**
   * The routing table. A client that receives gets a Sender, a client that
   * sends gets a Receiver; the queue is the one flowing towards the Echo
   * node exactly when the Initiator sends or the Echo node receives.
   */
  function MakeWorker(clientType: int, connectorType: int): (r: Result<Wiring, HandlerError>)
    ensures r.Success? <==> IsClientRole(clientType) && IsConnectorType(connectorType)
    ensures r.Success? ==> (r.value.SenderFrom? <==> connectorType == P.Encode(P.ReceiverSign))
    ensures r.Success? ==>
      (r.value.queue == ToEcho <==> (clientType == P.Encode(P.InitiatorSign)) == (connectorType == P.Encode(P.SenderSign)))
    ensures !IsClientRole(clientType) ==> r == Failure(IncorrectServerType(clientType))
    ensures IsClientRole(clientType) && !IsConnectorType(connectorType) ==> r == Failure(IncorrectConnectorType(connectorType))
  {
    if clientType == P.Encode(P.InitiatorSign) then
      if connectorType == P.Encode(P.ReceiverSign) then Success(SenderFrom(ToInitiator))
      else if connectorType == P.Encode(P.SenderSign) then Success(ReceiverInto(ToEcho))
      else Failure(IncorrectConnectorType(connectorType))
    else if clientType == P.Encode(P.EchoSign) then
      if connectorType == P.Encode(P.ReceiverSign) then Success(SenderFrom(ToEcho))
      else if connectorType == P.Encode(P.SenderSign) then Success(ReceiverInto(ToInitiator))
      else Failure(IncorrectConnectorType(connectorType))
    else Failure(IncorrectServerType(clientType))
  }

  /** The four valid handshakes, each with the wiring it gets. */
  lemma RoutingTable()
    ensures MakeWorker(-5, -9) == Success(SenderFrom(ToInitiator))
    ensures MakeWorker(-5, -8) == Success(ReceiverInto(ToEcho))
    ensures MakeWorker(-6, -9) == Success(SenderFrom(ToEcho))
    ensures MakeWorker(-6, -8) == Success(ReceiverInto(ToInitiator))
  {
  }

  /** How the handler ended, before running any worker. */
  datatype Handled =
    | AlreadyClosed                             // returned before reading
    | HandshakeCut(read: nat)                   // the stream ended within the handshake
    | Refused(error: HandlerError)              // no worker was built
    | Dispatched(wiring: Wiring, rest: seq<int>) // the worker runs on the rest of the stream

  /**
   * Reads `clientType` then `connectorType` and dispatches. `workerDone`
   * says whether the worker's own call has returned; the second component
   * says whether the socket has been closed, which happens on every way out
   * of the handler.
   */
  function Call(socketClosed: bool, stream: seq<int>, workerDone: bool): (r: (Handled, bool))
    ensures socketClosed ==> r.0 == AlreadyClosed
    ensures !socketClosed && |stream| < 2 ==> r.0 == HandshakeCut(|stream|)
    ensures !socketClosed && |stream| >= 2 ==>
      match MakeWorker(stream[0], stream[1])
      case Success(w) => r.0 == Dispatched(w, stream[2..])
      case Failure(e) => r.0 == Refused(e)
    ensures r.1 <==> !r.0.Dispatched? || workerDone
  {
    if socketClosed then (AlreadyClosed, true)
    else if |stream| < 2 then (HandshakeCut(|stream|), true)
    else
      match MakeWorker(stream[0], stream[1])
      case Failure(e) => (Refused(e), true)
      case Success(w) => (Dispatched(w, stream[2..]), workerDone)
  }

  /** The events a Receiver sees on a stream that ends after `data`. */
  function StreamEvents(data: seq<int>): (es: seq<R.Event>)
    ensures |es| == |data| + 1 && es[|data|] == R.EndOfStream
    ensures forall i :: 0 <= i < |data| ==> es[i] == R.Read(data[i])
  {
    seq(|data|, i requires 0 <= i < |data| => R.Read(data[i])) + [R.EndOfStream]
  }

  lemma {:induction false} ReadValuesOfReads(data: seq<int>)
    ensures R.ReadValues(StreamEvents(data)[..|data|]) == data
    decreases |data|
  {
    if data != [] {
      var es := StreamEvents(data)[..|data|];
      ReadValuesOfReads(data[1..]);
      assert es[1..] == StreamEvents(data[1..])[..|data| - 1];
      assert data == [data[0]] + data[1..];
    }
  }

  /** A Receiver on a stream that ends after `data` puts exactly the payloads
      of `data` on its queue, in order, and closes at the end of the stream. */
  lemma ReceiverForwardsStream(data: seq<int>)
    ensures R.Loop(StreamEvents(data)).forwarded == P.Payloads(data)
    ensures R.Loop(StreamEvents(data)).reason == R.StreamEnded
  {
    var es := StreamEvents(data);
    R.LoopStopsAtFirstEnd(es);
    R.LoopForwardsPayloads(es);
    var r := R.Loop(es);
    assert R.Ends(es[|data|]);
    assert r.reason != R.StillRunning;
    assert forall i :: 0 <= i < |data| ==> !R.Ends(es[i]);
    assert r.consumed == |data| + 1;
    ReadValuesOfReads(data);
  }

  /** No round of the retry loop opened a socket and then had a handshake
      write throw. */
  predicate NoPartialHandshake(attempts: seq<CN.Attempt>) {
    forall i :: 0 <= i < |attempts| && attempts[i].socketOpened ==> attempts[i].intsWritten >= 2
  }

  /** The as-written `connect` writes the whole handshake when no handshake
      write throws. */
  lemma CleanConnectWritesHandshake(c: CN.Client, attempts: seq<CN.Attempt>)
    requires !c.socket && NoPartialHandshake(attempts)
    ensures CN.Connect(c, attempts).Connected? ==>
      CN.Connect(c, attempts).client.written == CN.Handshake(c.clientType, c.direction)
  {
    CN.CheckedAgreesOnCleanAttempts(c, attempts);
    CN.CheckedConnectWritesHandshake(c, attempts);
  }

  /**
   * Composite: an Initiator client that sends, once its `connect` succeeds
   * with no handshake write cut short, is served by a Receiver that puts the
   * payload values it sends on the queue towards the Echo node: the Receiver
   * the handler dispatches runs on the rest of the stream after the
   * handshake and forwards exactly its payloads until the stream ends.
   */
  lemma InitiatorSenderFeedsToEcho(attempts: seq<CN.Attempt>, data: seq<int>)
    requires NoPartialHandshake(attempts)
    requires CN.Connect(CN.SenderClient(P.Encode(P.InitiatorSign)), attempts).Connected?
    ensures var c := CN.Connect(CN.SenderClient(P.Encode(P.InitiatorSign)), attempts).client;
      var h := Call(false, c.written + data, true);
      && h == (Dispatched(ReceiverInto(ToEcho), data), true)
      && R.Loop(StreamEvents(h.0.rest)).forwarded == P.Payloads(data)
      && R.Loop(StreamEvents(h.0.rest)).reason == R.StreamEnded
  {
    var client := CN.SenderClient(P.Encode(P.InitiatorSign));
    CleanConnectWritesHandshake(client, attempts);
    var c := CN.Connect(client, attempts).client;
    assert (c.written + data)[2..] == data;
    ReceiverForwardsStream(data);
  }

  /** Composite: an Echo client that receives, once its `connect` succeeds
      with no handshake write cut short, is served by a Sender that drains
      the queue towards the Echo node. */
  lemma EchoReceiverDrainsToEcho(attempts: seq<CN.Attempt>)
    requires NoPartialHandshake(attempts)
    requires CN.Connect(CN.ReceiverClient(P.Encode(P.EchoSign)), attempts).Connected?
    ensures var c := CN.Connect(CN.ReceiverClient(P.Encode(P.EchoSign)), attempts).client;
      Call(false, c.written, true) == (Dispatched(SenderFrom(ToEcho), []), true)
  {
    CleanConnectWritesHandshake(CN.ReceiverClient(P.Encode(P.EchoSign)), attempts);
  }

  /**
   * Composite, for all four clients: whatever role a client announces and
   * whichever side it is, when its `connect` succeeds with no handshake
   * write cut short, the handshake lands it on the intended worker and queue.
   */
  lemma EveryClientRoutedAsIntended(role: P.Sign, direction: P.Sign, attempts: seq<CN.Attempt>)
    requires P.IsRole(role) && P.IsDirection(direction) && NoPartialHandshake(attempts)
    requires CN.Connect(CN.NewClient(P.Encode(role), direction), attempts).Connected?
    ensures var c := CN.Connect(CN.NewClient(P.Encode(role), direction), attempts).client;
      var h := Call(false, c.written, true).0;
      && h.Dispatched?
      && (h.wiring.ReceiverInto? <==> direction == P.SenderSign)
      && (h.wiring.queue == ToEcho <==> (role == P.InitiatorSign) == (direction == P.SenderSign))
  {
    CleanConnectWritesHandshake(CN.NewClient(P.Encode(role), direction), attempts);
  }

  /**
   * As written, a cut-short handshake is reported connected and the proxy
   * then reads the first data value as the direction: an Initiator that got
   * only its role out and goes on to send 0 and 1 is refused.
   */
  lemma PartialHandshakeMisrouted()
    ensures var c := CN.Connect(CN.SenderClient(P.Encode(P.InitiatorSign)), [CN.Attempt(true, 1, false)]);
      && c.Connected?
      && Call(false, c.client.written + [0, 1], true).0 == Refused(IncorrectConnectorType(0))
  {
    CN.PartialHandshakeReportedConnected();
  }
}
