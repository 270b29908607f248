/** The client's side of the handshake (src/client.rs).

    `Client` is the client as a value, with one function per operation; `PicklebackClient` updates
    its fields in place and is proved to perform those functions.  Packets are taken as read; what
    the endpoint makes of one, and whether it can send one, are parameters. */
module Clients {
  import opened Words
  import opened Packets
  import opened AckHeaders

  type Addr = nat

  const CONNECTION_TIMEOUT := 5.0
  const HANDSHAKE_RESEND_INTERVAL := 0.1
  const PROTOCOL_VERSION: u64 := 1

  /** Exclusive or of the lowest `n` bits. */
  function XorBits(a: nat, b: nat, n: nat): nat
    decreases n, a
  {
    if n == 0 then 0 else (if a % 2 != b % 2 then 1 else 0) + 2 * XorBits(a / 2, b / 2, n - 1)
  }

  lemma {:induction false} XorBitsBound(a: nat, b: nat, n: nat)
    ensures XorBits(a, b, n) < Pow2(n)
    decreases n
  {
    if n > 0 {
      XorBitsBound(a / 2, b / 2, n - 1);
    }
  }

  lemma {:induction false} XorBitsCommutes(a: nat, b: nat, n: nat)
    ensures XorBits(a, b, n) == XorBits(b, a, n)
    decreases n
  {
    if n > 0 {
      XorBitsCommutes(a / 2, b / 2, n - 1);
    }
  }

  lemma {:induction false} Pow2Sum(m: nat, n: nat)
    ensures Pow2(m + n) == Pow2(m) * Pow2(n)
  {
    if m > 0 {
      Pow2Sum(m - 1, n);
      assert Pow2(m + n) == 2 * (Pow2(m - 1) * Pow2(n));
    }
  }

  lemma {:induction false} Pow2Of64()
    ensures Pow2(64) == 0x1_0000_0000_0000_0000
  {
    assert Pow2(4) == 16;
    Pow2Sum(4, 4);
    Pow2Sum(8, 8);
    Pow2Sum(16, 16);
    Pow2Sum(32, 32);
  }

  function Xor(a: u64, b: u64): u64 {
    XorBitsBound(a, b, 64);
    Pow2Of64();
    XorBits(a, b, 64)
  }

  lemma {:induction false} XorCommutes(a: u64, b: u64)
    ensures Xor(a, b) == Xor(b, a)
  {
    XorBitsCommutes(a, b, 64);
  }

  lemma {:induction false} XorBitsAt(a: nat, b: nat, n: nat, k: nat)
    requires k < n
    ensures Bit(XorBits(a, b, n), k) <==> Bit(a, k) != Bit(b, k)
    decreases n
  {
    var bit, rest := if a % 2 != b % 2 then 1 else 0, XorBits(a / 2, b / 2, n - 1);
    assert (bit + 2 * rest) % 2 == bit && (bit + 2 * rest) / 2 == rest;
    if k > 0 {
      XorBitsAt(a / 2, b / 2, n - 1, k - 1);
    }
  }

  lemma {:induction false} XorBitsBack(a: nat, b: nat, n: nat)
    requires a < Pow2(n)
    ensures XorBits(XorBits(a, b, n), b, n) == a
    decreases n
  {
    if n > 0 {
      var bit, rest := if a % 2 != b % 2 then 1 else 0, XorBits(a / 2, b / 2, n - 1);
      assert (bit + 2 * rest) % 2 == bit && (bit + 2 * rest) / 2 == rest;
      XorBitsBack(a / 2, b / 2, n - 1);
    }
  }

  /** The salt of a connection, bit by bit; with it and one of the two salts goes the other. */
  lemma {:induction false} XorExact(a: u64, b: u64, k: nat)
    requires k < 64
    ensures Bit(Xor(a, b), k) <==> Bit(a, k) != Bit(b, k)
    ensures Xor(Xor(a, b), b) == a
  {
    hide XorBits;
    Pow2Of64();
    XorBitsAt(a, b, 64, k);
    XorBitsBack(a, b, 64);
  }

  datatype ClientState =
    | SendingConnectionRequest
    | SendingChallengeResponse
    | Connected
    | Disconnected(reason: DisconnectReason)
    | SelfInitiatedDisconnect

  datatype Client = Client(
    time: real,
    state: ClientState,
    clientSalt: Option<u64>,
    serverSalt: Option<u64>,
    xorSalt: Option<u64>,
    protoLastSend: real,
    lastReceiveTime: real,
    lastSendTime: real,
    serverAddr: Option<Addr>,
    transitions: seq<ClientState>)

  function NewClient(time: real): Client {
    Client(time, Disconnected(Normal), None, None, None, 0.0, 0.0, 0.0, None, [])
  }

  function Reset(c: Client): Client {
    Client(c.time, c.state, None, None, None, 0.0, 0.0, 0.0, None, c.transitions)
  }

  function Transition(c: Client, state: ClientState): Client {
    var moved := c.(state := state, protoLastSend := 0.0);
    var settled := if state.Disconnected? then Reset(moved) else moved;
    settled.(transitions := c.transitions + [state])
  }

  function Update(c: Client, dt: real): Client {
    var later := c.(time := c.time + dt);
    if !c.state.Disconnected? && later.time - c.lastReceiveTime > CONNECTION_TIMEOUT
    then Transition(later, Disconnected(TimedOut))
    else later
  }

  function Connect(c: Client, server: Addr, salt: u64): Client {
    Transition(c.(serverAddr := Some(server), serverSalt := None, xorSalt := None, clientSalt := Some(salt)),
               SendingConnectionRequest)
  }

  function HangUp(c: Client): Client {
    if c.state.Connected? || c.state.SendingChallengeResponse? then Transition(c, SelfInitiatedDisconnect)
    else Transition(c, Disconnected(Normal))
  }

  /** One packet from `source`.  `processed` is what the endpoint's processing returns. */
  function ClientReceive(c: Client, packet: Packet, source: Addr, processed: Result<(), Error>)
    : (Client, Result<(), Error>)
  {
    if c.serverAddr.None? then (c, Ok(()))
    else if c.serverAddr.value != source then (c, Err(SocketAddrMismatch))
    else
      var heard := c.(lastReceiveTime := c.time);
      match packet
      case ConnectionChallenge(_, clientSalt, serverSalt) =>
        if !c.state.SendingConnectionRequest? || c.clientSalt.None? then (heard, Ok(()))
        else if c.clientSalt.value != clientSalt then (heard, Err(InvalidPacket))
        else
          // the salts are set before the packet is processed, and stay set if that fails
          var salted := heard.(serverSalt := Some(serverSalt), xorSalt := Some(Xor(serverSalt, c.clientSalt.value)));
          if processed.Err? then (salted, processed) else (Transition(salted, SendingChallengeResponse), Ok(()))
      case ConnectionDenied(_, reason) =>
        if c.state.SendingConnectionRequest? || c.state.SendingChallengeResponse?
        then (Transition(heard.(serverSalt := None, xorSalt := None), Disconnected(reason)), Ok(()))
        else (heard, Ok(()))
      case KeepAlive(_, xorSalt, _) =>
        if !(c.state.Connected? || c.state.SendingChallengeResponse?) || c.xorSalt != Some(xorSalt) then (heard, Ok(()))
        else if processed.Err? then (heard, processed)
        else if c.state.SendingChallengeResponse? then (Transition(heard, Connected), Ok(()))
        else (heard, Ok(()))
      case MessagesPacket(_, xorSalt) =>
        if c.state.Connected? && c.xorSalt == Some(xorSalt) then (heard, processed) else (heard, Ok(()))
      case _ => (heard, Ok(()))
  }

  /** What the client sends of the handshake; `headers` are the headers that the endpoint grants, one
      for each attempt, and `None` where it refuses or the packet cannot be sent. */
  function Visit(c: Client, headers: seq<Option<Header>>): (Client, seq<Packet>)
    requires |headers| == 10
  {
    if c.serverAddr.None? then (c, [])
    else match c.state
      case SelfInitiatedDisconnect =>
        if c.xorSalt.None? then (c, [])
        else (Transition(c, Disconnected(Normal)), Disconnects(c.xorSalt.value, headers))
      case SendingConnectionRequest =>
        if c.protoLastSend < c.time - HANDSHAKE_RESEND_INTERVAL && c.clientSalt.Some? && headers[0].Some?
        then (c.(lastSendTime := c.time, protoLastSend := c.time),
              [ConnectionRequest(headers[0].value, c.clientSalt.value, PROTOCOL_VERSION)])
        else (c, [])
      case SendingChallengeResponse =>
        if c.protoLastSend < c.time - HANDSHAKE_RESEND_INTERVAL && c.xorSalt.Some? && headers[0].Some?
        then (c.(lastSendTime := c.time, protoLastSend := c.time),
              [ConnectionChallengeResponse(headers[0].value, c.xorSalt.value)])
        else (c, [])
      case _ => (c, [])
  }

  function Disconnects(xorSalt: u64, headers: seq<Option<Header>>): seq<Packet> {
    if headers == [] then []
    else match headers[0]
      case Some(h) => [Packet.Disconnect(h, xorSalt)] + Disconnects(xorSalt, headers[1..])
      case None => Disconnects(xorSalt, headers[1..])
  }

  class PicklebackClient {
    var time: real
    var state: ClientState
    var clientSalt: Option<u64>
    var serverSalt: Option<u64>
    var xorSalt: Option<u64>
    var protoLastSend: real
    var lastReceiveTime: real
    var lastSendTime: real
    var serverAddr: Option<Addr>
    var stateTransitions: seq<ClientState>

    function Model(): Client
      reads this
    {
      Client(time, state, clientSalt, serverSalt, xorSalt, protoLastSend, lastReceiveTime, lastSendTime, serverAddr,
             stateTransitions)
    }

    constructor (time: real)
      ensures Model() == NewClient(time)
    {
      this.time, state := time, ClientState.Disconnected(Normal);
      clientSalt, serverSalt, xorSalt := None, None, None;
      protoLastSend, lastReceiveTime, lastSendTime := 0.0, 0.0, 0.0;
      serverAddr, stateTransitions := None, [];
    }

    method ResetSession()
      modifies this
      ensures Model() == Reset(old(Model()))
    {
      clientSalt, serverSalt, xorSalt := None, None, None;
      protoLastSend, lastReceiveTime, lastSendTime := 0.0, 0.0, 0.0;
      serverAddr := None;
    }

    method StateTransition(newState: ClientState)
      modifies this
      ensures Model() == Transition(old(Model()), newState)
    {
      state := newState;
      protoLastSend := 0.0;
      if state.Disconnected? {
        ResetSession();
      }
      stateTransitions := stateTransitions + [newState];
    }

    method Advance(dt: real)
      modifies this
      ensures Model() == Update(old(Model()), dt)
    {
      time := time + dt;
      if !state.Disconnected? && time - lastReceiveTime > CONNECTION_TIMEOUT {
        StateTransition(ClientState.Disconnected(TimedOut));
      }
    }

    method ConnectTo(server: Addr, salt: u64)
      modifies this
      ensures Model() == Connect(old(Model()), server, salt)
    {
      serverAddr := Some(server);
      serverSalt, xorSalt := None, None;
      clientSalt := Some(salt);
      StateTransition(SendingConnectionRequest);
    }

    method Close()
      modifies this
      ensures Model() == HangUp(old(Model()))
    {
      if state.Connected? || state.SendingChallengeResponse? {
        StateTransition(SelfInitiatedDisconnect);
      } else {
        StateTransition(ClientState.Disconnected(Normal));
      }
    }

    method ReceivePacket(packet: Packet, source: Addr, processed: Result<(), Error>) returns (r: Result<(), Error>)
      modifies this
      ensures (Model(), r) == ClientReceive(old(Model()), packet, source, processed)
    {
      if serverAddr.None? {
        return Ok(());
      }
      if serverAddr.value != source {
        return Err(SocketAddrMismatch);
      }
      lastReceiveTime := time;
      var newState: Option<ClientState> := None;
      match packet {
        case ConnectionChallenge(_, theirCopy, salt) =>
          if state.SendingConnectionRequest? && clientSalt.Some? {
            if clientSalt.value != theirCopy {
              return Err(InvalidPacket);
            }
            serverSalt := Some(salt);
            xorSalt := Some(Xor(salt, clientSalt.value));
            var _ :- processed;
            newState := Some(SendingChallengeResponse);
          }
        case ConnectionDenied(_, reason) =>
          if state.SendingConnectionRequest? || state.SendingChallengeResponse? {
            serverSalt, xorSalt := None, None;
            newState := Some(ClientState.Disconnected(reason));
          }
        case KeepAlive(_, salt, _) =>
          if (state.Connected? || state.SendingChallengeResponse?) && xorSalt == Some(salt) {
            lastReceiveTime := time;
            var _ :- processed;
            if state.SendingChallengeResponse? {
              newState := Some(Connected);
            }
          }
        case MessagesPacket(_, salt) =>
          if state.Connected? && xorSalt == Some(salt) {
            var _ :- processed;
          }
        case _ =>
      }
      if newState.Some? {
        StateTransition(newState.value);
      }
      return Ok(());
    }

    method VisitPacketsToSend(headers: seq<Option<Header>>) returns (sent: seq<Packet>)
      requires |headers| == 10
      modifies this
      ensures (Model(), sent) == Visit(old(Model()), headers)
    {
      sent := [];
      if serverAddr.None? {
        return;
      }
      match state {
        case SelfInitiatedDisconnect =>
          if xorSalt.Some? {
            var salt := xorSalt.value;
            for i := 0 to 10
              invariant Model() == old(Model()) && xorSalt == Some(salt)
              invariant Disconnects(salt, headers)
                     == if sent == [] then Disconnects(salt, headers[i..]) else sent + Disconnects(salt, headers[i..])
            {
              assert headers[i..][1..] == headers[i + 1..];
              if headers[i].Some? {
                var packet := Packet.Disconnect(headers[i].value, salt);
                assert sent + ([packet] + Disconnects(salt, headers[i + 1..])) ==
                       (sent + [packet]) + Disconnects(salt, headers[i + 1..]);
                sent := sent + [packet];
              }
            }
            assert sent + [] == sent;
            StateTransition(ClientState.Disconnected(Normal));
          }
        case SendingConnectionRequest =>
          if protoLastSend < time - HANDSHAKE_RESEND_INTERVAL && clientSalt.Some? && headers[0].Some? {
            sent := [ConnectionRequest(headers[0].value, clientSalt.value, PROTOCOL_VERSION)];
            lastSendTime := time;
            protoLastSend := time;
          }
        case SendingChallengeResponse =>
          if protoLastSend < time - HANDSHAKE_RESEND_INTERVAL && xorSalt.Some? && headers[0].Some? {
            sent := [ConnectionChallengeResponse(headers[0].value, xorSalt.value)];
            lastSendTime := time;
            protoLastSend := time;
          }
        case _ =>
      }
    }
  }
}
