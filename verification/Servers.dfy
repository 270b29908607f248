/** The server's side of the handshake (src/server.rs).

    `Server` is the server as a value, with one function per operation; `PicklebackServer` updates
    its fields in place and is proved to perform those functions.  Packets are taken as read; what
    the endpoint of a client makes of one, and the header it grants, are parameters, and so is the
    salt drawn for a new client. */
module Servers {
  import opened Words
  import opened Packets
  import opened Clients

  datatype PendingClient = PendingClient(
    clientSalt: u64, serverSalt: u64, firstRequested: real, lastChallenged: real, addr: Addr)

  datatype Session = Session(xorSalt: u64, addr: Addr, confirmed: bool, lastReceived: real, lastSent: real)

  datatype ServerEvent =
    | ClientConnected(id: u64)
    | ClientDisconnected(id: u64, reason: DisconnectReason)

  datatype Addressed = Addressed(addr: Addr, packet: Packet)

  datatype Server = Server(
    time: real,
    pending: seq<PendingClient>,
    connected: seq<Session>,
    outbox: seq<Addressed>,
    events: seq<ServerEvent>)

  function NewServer(time: real): Server {
    Server(time, [], [], [], [])
  }

  // -- finding entries --

  function FindPending(ps: seq<PendingClient>, clientSalt: u64, addr: Addr): (i: nat)
    ensures i <= |ps|
    ensures i < |ps| ==> ps[i].clientSalt == clientSalt && ps[i].addr == addr
  {
    if ps == [] || (ps[0].clientSalt == clientSalt && ps[0].addr == addr) then 0
    else 1 + FindPending(ps[1..], clientSalt, addr)
  }

  function FindByXor(ps: seq<PendingClient>, xorSalt: u64, addr: Addr): (i: nat)
    ensures i <= |ps|
    ensures i < |ps| ==> Xor(ps[i].clientSalt, ps[i].serverSalt) == xorSalt && ps[i].addr == addr
  {
    if ps == [] || (Xor(ps[0].clientSalt, ps[0].serverSalt) == xorSalt && ps[0].addr == addr) then 0
    else 1 + FindByXor(ps[1..], xorSalt, addr)
  }

  function FindSession(cs: seq<Session>, xorSalt: u64, addr: Addr): (i: nat)
    ensures i <= |cs|
    ensures i < |cs| ==> cs[i].xorSalt == xorSalt && cs[i].addr == addr
  {
    if cs == [] || (cs[0].xorSalt == xorSalt && cs[0].addr == addr) then 0
    else 1 + FindSession(cs[1..], xorSalt, addr)
  }

  predicate AnySession(cs: seq<Session>, xorSalt: u64) {
    cs != [] && (cs[0].xorSalt == xorSalt || AnySession(cs[1..], xorSalt))
  }

  function Remove<T>(q: seq<T>, i: nat): seq<T>
    requires i < |q|
  {
    q[..i] + q[i + 1..]
  }

  // -- packets coming in --

  /** What a received packet does to the server, and the packets it sends through the client's
      endpoint at once. */
  function ServerReceive(s: Server, packet: Packet, addr: Addr, salt: u64, processed: Result<(), Error>,
                         granted: Option<Header>)
    : (Server, Result<(), Error>, seq<Addressed>)
  {
    match packet
    case ConnectionRequest(_, clientSalt, version) => Request(s, clientSalt, version, addr, salt, processed)
    case ConnectionChallengeResponse(_, xorSalt) => Response(s, xorSalt, addr, processed, granted)
    case Disconnect(_, xorSalt) =>
      var i := FindSession(s.connected, xorSalt, addr);
      if i == |s.connected| then (s, Ok(()), [])
      else (s.(connected := Remove(s.connected, i), events := s.events + [ClientDisconnected(xorSalt, Normal)]),
          Ok(()), [])
    case KeepAlive(_, xorSalt, _) => Hear(s, xorSalt, addr, processed)
    case MessagesPacket(_, xorSalt) => Hear(s, xorSalt, addr, processed)
    case _ => (s, Ok(()), [])
  }

  function Deny(s: Server, addr: Addr, reason: DisconnectReason): Server {
    s.(outbox := s.outbox + [Addressed(addr, ConnectionDenied(Header(ConnectionDeniedType, 0, None), reason))])
  }

  function Request(s: Server, clientSalt: u64, version: u64, addr: Addr, salt: u64, processed: Result<(), Error>)
    : (Server, Result<(), Error>, seq<Addressed>)
  {
    if version != PROTOCOL_VERSION then (Deny(s, addr, ProtocolMismatch), Ok(()), [])
    else if FindPending(s.pending, clientSalt, addr) < |s.pending| || processed.Err? then (s, processed, [])
    else (s.(pending := s.pending + [PendingClient(clientSalt, salt, s.time, 0.0, addr)]), Ok(()), [])
  }

  /** The pending entry is gone even when the packet cannot be processed or answered. */
  function Response(s: Server, xorSalt: u64, addr: Addr, processed: Result<(), Error>, granted: Option<Header>)
    : (Server, Result<(), Error>, seq<Addressed>)
  {
    var i := FindByXor(s.pending, xorSalt, addr);
    if i == |s.pending| then
      if AnySession(s.connected, xorSalt) then (s, processed, [])
      else (Deny(s, addr, HandshakeTimeout), Ok(()), [])
    else
      var taken := s.(pending := Remove(s.pending, i));
      if processed.Err? then (taken, processed, [])
      else if granted.None? then (taken, Err(TooManyPending), [])
      else
        (taken.(connected := s.connected + [Session(xorSalt, addr, false, s.time, s.time)],
                events := s.events + [ClientConnected(xorSalt)]),
         Ok(()),
         [Addressed(addr, KeepAlive(granted.value, xorSalt, 0))])
  }

  function Hear(s: Server, xorSalt: u64, addr: Addr, processed: Result<(), Error>)
    : (Server, Result<(), Error>, seq<Addressed>)
  {
    var i := FindSession(s.connected, xorSalt, addr);
    if i == |s.connected| then (s, Ok(()), [])
    else (s.(connected := s.connected[i := s.connected[i].(confirmed := true, lastReceived := s.time)]), processed, [])
  }

  // -- time --

  /** A pending client is challenged again. */
  function Challenge(s: Server, i: nat, granted: Option<Header>): (Server, seq<Addressed>)
    requires i < |s.pending|
  {
    var p := s.pending[i];
    if p.lastChallenged < s.time - HANDSHAKE_RESEND_INTERVAL then
      (s.(pending := s.pending[i := p.(lastChallenged := s.time)]),
       match granted
       case Some(h) => [Addressed(p.addr, ConnectionChallenge(h, p.clientSalt, p.serverSalt))]
       case None => [])
    else (s, [])
  }

  class PicklebackServer {
    var time: real
    var pendingClients: seq<PendingClient>
    var connectedClients: seq<Session>
    var outbox: seq<Addressed>
    var serverEvents: seq<ServerEvent>

    function Model(): Server
      reads this
    {
      Server(time, pendingClients, connectedClients, outbox, serverEvents)
    }

    constructor (time: real)
      ensures Model() == NewServer(time)
    {
      this.time := time;
      pendingClients, connectedClients, outbox, serverEvents := [], [], [], [];
    }

    method TakePendingByXorSalt(xorSalt: u64, addr: Addr) returns (taken: Option<PendingClient>)
      modifies this`pendingClients
      ensures var i := FindByXor(old(pendingClients), xorSalt, addr);
              if i == |old(pendingClients)| then taken == None && pendingClients == old(pendingClients)
              else taken == Some(old(pendingClients)[i]) && pendingClients == Remove(old(pendingClients), i)
    {
      hide Xor;
      for search := 0 to |pendingClients|
        invariant pendingClients == old(pendingClients)
        invariant FindByXor(pendingClients, xorSalt, addr) ==
                  search + FindByXor(pendingClients[search..], xorSalt, addr)
      {
        assert pendingClients[search..][1..] == pendingClients[search + 1..];
        var pc := pendingClients[search];
        if Xor(pc.clientSalt, pc.serverSalt) == xorSalt && pc.addr == addr {
          pendingClients := Remove(pendingClients, search);
          return Some(pc);
        }
      }
      return None;
    }

    method RemoveConnectedClient(xorSalt: u64, addr: Addr) returns (removed: Option<Session>)
      modifies this`connectedClients, this`serverEvents
      ensures var i := FindSession(old(connectedClients), xorSalt, addr);
              if i == |old(connectedClients)| then removed == None && unchanged(this)
              else
                && removed == Some(old(connectedClients)[i])
                && connectedClients == Remove(old(connectedClients), i)
                && serverEvents == old(serverEvents) + [ClientDisconnected(xorSalt, Normal)]
    {
      for search := 0 to |connectedClients|
        invariant connectedClients == old(connectedClients) && serverEvents == old(serverEvents)
        invariant FindSession(connectedClients, xorSalt, addr) ==
                  search + FindSession(connectedClients[search..], xorSalt, addr)
      {
        assert connectedClients[search..][1..] == connectedClients[search + 1..];
        var cc := connectedClients[search];
        if cc.xorSalt == xorSalt && cc.addr == addr {
          connectedClients := Remove(connectedClients, search);
          serverEvents := serverEvents + [ClientDisconnected(cc.xorSalt, Normal)];
          return Some(cc);
        }
      }
      return None;
    }

    method PushDenied(addr: Addr, reason: DisconnectReason)
      modifies this`outbox
      ensures Model() == Deny(old(Model()), addr, reason)
    {
      outbox := outbox + [Addressed(addr, ConnectionDenied(Header(ConnectionDeniedType, 0, None), reason))];
    }

    method MarkHeard(xorSalt: u64, addr: Addr) returns (found: bool)
      modifies this`connectedClients
      ensures Model() == Hear(old(Model()), xorSalt, addr, Ok(())).0
      ensures found == (FindSession(old(connectedClients), xorSalt, addr) < |old(connectedClients)|)
    {
      var i := FindSession(connectedClients, xorSalt, addr);
      found := i < |connectedClients|;
      if found {
        connectedClients := connectedClients[i := connectedClients[i].(confirmed := true, lastReceived := time)];
      }
    }

    method ReceivePacket(packet: Packet, addr: Addr, salt: u64, processed: Result<(), Error>, granted: Option<Header>)
      returns (r: Result<(), Error>, sent: seq<Addressed>)
      modifies this
      ensures (Model(), r, sent) == ServerReceive(old(Model()), packet, addr, salt, processed, granted)
    {
      hide Xor, Remove;
      sent := [];
      match packet {
        case ConnectionRequest(_, clientSalt, version) =>
          if version != PROTOCOL_VERSION {
            PushDenied(addr, ProtocolMismatch);
            return Ok(()), [];
          }
          if FindPending(pendingClients, clientSalt, addr) < |pendingClients| {
            return processed, [];
          }
          if processed.Err? {
            return processed, [];
          }
          pendingClients := pendingClients + [PendingClient(clientSalt, salt, time, 0.0, addr)];
        case ConnectionChallengeResponse(_, xorSalt) =>
          var taken := TakePendingByXorSalt(xorSalt, addr);
          if taken.Some? {
            if processed.Err? {
              return processed, [];
            }
            if granted.None? {
              return Err(TooManyPending), [];
            }
            sent := [Addressed(addr, KeepAlive(granted.value, xorSalt, 0))];
            serverEvents := serverEvents + [ClientConnected(xorSalt)];
            connectedClients := connectedClients + [Session(xorSalt, addr, false, time, time)];
          } else {
            if AnySession(connectedClients, xorSalt) {
              return processed, [];
            }
            PushDenied(addr, HandshakeTimeout);
          }
        case Disconnect(_, xorSalt) =>
          var _ := RemoveConnectedClient(xorSalt, addr);
        case KeepAlive(_, xorSalt, _) =>
          var found := MarkHeard(xorSalt, addr);
          if found {
            return processed, [];
          }
        case MessagesPacket(_, xorSalt) =>
          var found := MarkHeard(xorSalt, addr);
          if found {
            return processed, [];
          }
        case _ =>
      }
      r := Ok(());
    }

    method ResendChallenge(i: nat, granted: Option<Header>) returns (sent: seq<Addressed>)
      requires i < |pendingClients|
      modifies this`pendingClients
      ensures (Model(), sent) == Challenge(old(Model()), i, granted)
    {
      sent := [];
      var pc := pendingClients[i];
      if pc.lastChallenged < time - HANDSHAKE_RESEND_INTERVAL {
        pendingClients := pendingClients[i := pc.(lastChallenged := time)];
        if granted.Some? {
          sent := [Addressed(pc.addr, ConnectionChallenge(granted.value, pc.clientSalt, pc.serverSalt))];
        }
      }
    }
  }
}
