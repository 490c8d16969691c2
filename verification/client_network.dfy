/**
 * The client end of a relay connection, as the Initiator and the Echo node
 * open it towards the Proxy. Connecting retries until a socket is held; a
 * fresh socket first carries the two-integer handshake `[role, direction]`.
 * The sending and the receiving client differ only in the direction they
 * announce, so one model serves both. Sockets, streams and the retry sleep
 * are abstract: each connection attempt is an `Attempt` record that says
 * how far it got.
 */
module ClientNetwork {
  import P = ProtocolConstants

  /**
   * `socket` says whether a socket is held (the Java field is non-null and
   * connected); `written` is what this client wrote on it.
   */
  datatype Client = Client(clientType: int, direction: P.Sign, socket: bool, written: seq<int>)

  /**
   * One round of the retry loop: whether the socket opened, how many of the
   * two handshake integers were written before a write threw (two or more
   * means the handshake completed), and, when the round failed, whether the
   * one-second sleep before the next round was interrupted.
   */
  datatype Attempt = Attempt(socketOpened: bool, intsWritten: nat, sleepInterrupted: bool)

  datatype ConnectError = AlreadyConnected | Interrupted

  datatype ConnectResult =
    | Connected(client: Client)
    | Failed(error: ConnectError, client: Client)
    | StillTrying(client: Client)   // the attempts ran out while still retrying

  /** The two integers a fresh connection starts with. */
  function Handshake(clientType: int, direction: P.Sign): (h: seq<int>)
    ensures |h| == 2 && h[0] == clientType && h[1] == P.Encode(direction)
  {
    [clientType, P.Encode(direction)]
  }

  function NewClient(clientType: int, direction: P.Sign): (c: Client)
    ensures !c.socket && c.written == [] && c.clientType == clientType && c.direction == direction
  {
    Client(clientType, direction, false, [])
  }

  /** The client that pushes data to the proxy. */
  function SenderClient(clientType: int): (c: Client)
    ensures c == NewClient(clientType, P.SenderSign)
  {
    NewClient(clientType, P.SenderSign)
  }

  /** The client that takes data from the proxy. */
  function ReceiverClient(clientType: int): (c: Client)
    ensures c == NewClient(clientType, P.ReceiverSign)
  {
    NewClient(clientType, P.ReceiverSign)
  }

  function Min(a: int, b: int): int {
    if a <= b then a else b
  }

  /** How much of the handshake an attempt gets onto a new socket. */
  function Opened(c: Client, a: Attempt): (r: Client)
    requires a.socketOpened
    ensures r.socket && r.clientType == c.clientType && r.direction == c.direction
    ensures r.written == Handshake(c.clientType, c.direction)[..Min(a.intsWritten, 2)]
  {
    c.(socket := true, written := Handshake(c.clientType, c.direction)[..Min(a.intsWritten, 2)])
  }

  /**
   * `connect` as written: refuse when a socket is held, otherwise retry
   * while none is held. A round that throws sleeps before the next one; an
   * interrupted sleep makes `connect` fail. A socket that opened stays held
   * even when a handshake write threw, so the loop then stops and reports
   * success.
   */
  function Connect(c: Client, attempts: seq<Attempt>): (r: ConnectResult)
    ensures c.socket ==> r == Failed(AlreadyConnected, c)
  {
    if c.socket then Failed(AlreadyConnected, c) else Retry(c, attempts)
  }

  /** The retry loop: it stops as soon as a socket is held, and otherwise
      only when a sleep is interrupted or the attempts run out. */
  function Retry(c: Client, attempts: seq<Attempt>): (r: ConnectResult)
    ensures c.socket ==> r == Connected(c)
    ensures r.Connected? ==> r.client.socket
    ensures r.StillTrying? ==> !r.client.socket
    ensures r.Failed? ==> r.error == Interrupted
    ensures r.client.clientType == c.clientType && r.client.direction == c.direction
    decreases |attempts|
  {
    if c.socket then Connected(c)
    else if attempts == [] then StillTrying(c)
    else
      var a := attempts[0];
      var c1 := if a.socketOpened then Opened(c, a) else c;
      var threw := !a.socketOpened || a.intsWritten < 2;
      if threw && a.sleepInterrupted then Failed(Interrupted, c1)
      else Retry(c1, attempts[1..])
  }

  /**
   * `connect` with the handshake checked: a round whose handshake write
   * throws closes its socket before sleeping, so only a complete handshake
   * ends the loop.
   */
  function ConnectChecked(c: Client, attempts: seq<Attempt>): (r: ConnectResult)
    ensures c.socket ==> r == Failed(AlreadyConnected, c)
  {
    if c.socket then Failed(AlreadyConnected, c) else RetryChecked(c, attempts)
  }

  function RetryChecked(c: Client, attempts: seq<Attempt>): ConnectResult
    requires !c.socket
    decreases |attempts|
  {
    if attempts == [] then StillTrying(c)
    else
      var a := attempts[0];
      if a.socketOpened && a.intsWritten >= 2 then Connected(Opened(c, a))
      else if a.sleepInterrupted then Failed(Interrupted, c)
      else RetryChecked(c, attempts[1..])
  }

  /** Refused rounds whose sleep was not interrupted. */
  predicate QuietFailures(attempts: seq<Attempt>, k: nat)
    requires k <= |attempts|
  {
    forall i :: 0 <= i < k ==> !attempts[i].socketOpened && !attempts[i].sleepInterrupted
  }

  /**
   * Failed rounds are retried: after any number of refused rounds, a round
   * that completes the handshake connects, with exactly the handshake on the
   * wire. Both versions agree on this.
   */
  lemma {:induction false} RetriesUntilConnected(c: Client, attempts: seq<Attempt>, k: nat)
    requires !c.socket && c.written == [] && k < |attempts| && QuietFailures(attempts, k)
    requires attempts[k].socketOpened && attempts[k].intsWritten >= 2
    ensures Connect(c, attempts) == Connected(c.(socket := true, written := Handshake(c.clientType, c.direction)))
    ensures ConnectChecked(c, attempts) == Connect(c, attempts)
    decreases k
  {
    assert Handshake(c.clientType, c.direction)[..2] == Handshake(c.clientType, c.direction);
    if k > 0 {
      assert !attempts[0].socketOpened && !attempts[0].sleepInterrupted;
      RetriesUntilConnected(c, attempts[1..], k - 1);
    } else {
      var c1 := Opened(c, attempts[0]);
      assert Retry(c1, attempts[1..]) == Connected(c1);
    }
  }

  /** An interrupted sleep after a refused round makes `connect` fail. */
  lemma {:induction false} InterruptedSleepFails(c: Client, attempts: seq<Attempt>, k: nat)
    requires !c.socket && k < |attempts| && QuietFailures(attempts, k)
    requires !attempts[k].socketOpened && attempts[k].sleepInterrupted
    ensures Connect(c, attempts) == Failed(Interrupted, c)
    ensures ConnectChecked(c, attempts) == Failed(Interrupted, c)
    decreases k
  {
    if k > 0 {
      InterruptedSleepFails(c, attempts[1..], k - 1);
    }
  }

  /** As written, a connection reported as established carries some prefix
      of the handshake, not necessarily all of it. */
  lemma {:induction false} ConnectedCarriesHandshakePrefix(c: Client, attempts: seq<Attempt>)
    requires !c.socket
    ensures Connect(c, attempts).Connected? ==>
      exists n :: 0 <= n <= 2 && Connect(c, attempts).client.written == Handshake(c.clientType, c.direction)[..n]
    decreases |attempts|
  {
    if attempts != [] {
      var a := attempts[0];
      if !a.socketOpened {
        ConnectedCarriesHandshakePrefix(c, attempts[1..]);
      } else {
        var n := Min(a.intsWritten, 2);
        var c1 := Opened(c, a);
        assert Retry(c1, attempts[1..]) == Connected(c1);
        assert c1.written == Handshake(c.clientType, c.direction)[..n];
      }
    }
  }

  /** The as-written loop reports success after a handshake that stopped
      half way: the proxy then reads the first data value as the direction. */
  lemma PartialHandshakeReportedConnected()
    ensures Connect(SenderClient(-5), [Attempt(true, 1, false)])
         == Connected(Client(-5, P.SenderSign, true, [-5]))
  {
    assert Handshake(-5, P.SenderSign)[..1] == [-5];
  }

  /** With the check, a connection reported as established always carries
      the whole handshake. */
  lemma {:induction false} CheckedConnectWritesHandshake(c: Client, attempts: seq<Attempt>)
    requires !c.socket
    ensures ConnectChecked(c, attempts).Connected? ==>
      && ConnectChecked(c, attempts).client.socket
      && ConnectChecked(c, attempts).client.written == Handshake(c.clientType, c.direction)
    decreases |attempts|
  {
    if attempts != [] {
      var a := attempts[0];
      if a.socketOpened && a.intsWritten >= 2 {
        assert Handshake(c.clientType, c.direction)[..2] == Handshake(c.clientType, c.direction);
      } else if !a.sleepInterrupted {
        CheckedConnectWritesHandshake(c, attempts[1..]);
      }
    }
  }

  /** Where no handshake write throws, the two versions behave alike. */
  lemma {:induction false} CheckedAgreesOnCleanAttempts(c: Client, attempts: seq<Attempt>)
    requires !c.socket
    requires forall i :: 0 <= i < |attempts| && attempts[i].socketOpened ==> attempts[i].intsWritten >= 2
    ensures ConnectChecked(c, attempts) == Connect(c, attempts)
    decreases |attempts|
  {
    if attempts != [] {
      if !attempts[0].socketOpened {
        CheckedAgreesOnCleanAttempts(c, attempts[1..]);
      } else {
        var c1 := Opened(c, attempts[0]);
        assert Retry(c1, attempts[1..]) == Connected(c1);
      }
    }
  }
}
