/** Agreement of the handshake, over a network that may lose, repeat and reorder packets but does
    not forge them. */
module Handshake {
  import opened Words
  import opened Packets
  import opened Clients
  import opened Servers

  /** One server, a client at each of some addresses, and every packet sent so far by direction.
      `offered` has the salts and the address of every pending entry that was ever made, `admitted`
      the salt and the address of every connected entry that was ever made, and `talked` the salt
      and the address of every client that sent something while it was connected. */
  datatype World = World(
    serverAddr: Addr,
    server: Server,
    clients: map<Addr, Client>,
    toServer: set<Addressed>,
    toClients: set<Addressed>,
    offered: set<(u64, u64, Addr)>,
    admitted: set<(u64, Addr)>,
    talked: set<(u64, Addr)>)

  /** The steps of the clients, of the server, and of the network; a packet is received only if it
      was sent, and may be received any number of times or never. */
  datatype Step =
    | ClientConnects(addr: Addr, salt: u64)
    | ClientHangsUp(addr: Addr)
    | ClientWaits(addr: Addr, dt: real)
    | ClientSends(addr: Addr, headers: seq<Option<Header>>)
    | ClientTalks(addr: Addr, header: Header, alive: bool)
    | ClientReceives(addr: Addr, packet: Packet, processed: Result<(), Error>)
    | ServerReceives(addr: Addr, packet: Packet, salt: u64, processed: Result<(), Error>, granted: Option<Header>)
    | ServerWaits(dt: real)
    | ServerChallenges(index: nat, granted: Option<Header>)
    | ServerSends(index: nat, header: Header, alive: bool)
    | ServerFlushes
    | PendingExpires(index: nat)
    | SessionExpires(index: nat)

  ghost predicate Possible(w: World, step: Step) {
    match step
    case ClientConnects(addr, _) => addr in w.clients
    case ClientHangsUp(addr) => addr in w.clients
    case ClientWaits(addr, _) => addr in w.clients
    case ClientSends(addr, headers) => addr in w.clients && |headers| == 10
    case ClientTalks(addr, _, _) => addr in w.clients && w.clients[addr].state.Connected?
        && w.clients[addr].xorSalt.Some?
    case ClientReceives(addr, packet, _) => addr in w.clients && Addressed(addr, packet) in w.toClients
    case ServerReceives(addr, packet, _, _, _) => Addressed(addr, packet) in w.toServer
    case ServerWaits(_) => true
    case ServerChallenges(i, _) => i < |w.server.pending|
    case ServerSends(i, _, _) => i < |w.server.connected|
    case ServerFlushes => true
    case PendingExpires(i) => i < |w.server.pending|
    case SessionExpires(i) => i < |w.server.connected|
  }

  ghost function WithClient(w: World, addr: Addr, c: Client): World {
    w.(clients := w.clients[addr := c])
  }

  function From(addr: Addr, packets: seq<Packet>): set<Addressed> {
    set p | p in packets :: Addressed(addr, p)
  }

  function AsSet(sent: seq<Addressed>): set<Addressed> {
    set a | a in sent
  }

  ghost function Entries(ps: seq<PendingClient>): set<(u64, u64, Addr)> {
    set p | p in ps :: (p.clientSalt, p.serverSalt, p.addr)
  }

  ghost function Sessions(cs: seq<Session>): set<(u64, Addr)> {
    set c | c in cs :: (c.xorSalt, c.addr)
  }

  ghost function Next(w: World, step: Step): World
    requires Possible(w, step)
  {
    match step
    case ClientConnects(addr, salt) => WithClient(w, addr, Connect(w.clients[addr], w.serverAddr, salt))
    case ClientHangsUp(addr) => WithClient(w, addr, HangUp(w.clients[addr]))
    case ClientWaits(addr, dt) => WithClient(w, addr, Update(w.clients[addr], dt))
    case ClientSends(addr, headers) =>
      var (c, sent) := Visit(w.clients[addr], headers);
      WithClient(w, addr, c).(toServer := w.toServer + From(addr, sent))
    case ClientTalks(addr, header, alive) =>
      var c := w.clients[addr];
      var packet := if alive then KeepAlive(header, c.xorSalt.value, 0) else MessagesPacket(header, c.xorSalt.value);
      WithClient(w, addr, if alive then c.(lastSendTime := c.time) else c)
        .(toServer := w.toServer + From(addr, [packet]), talked := w.talked + {(c.xorSalt.value, addr)})
    case ClientReceives(addr, packet, processed) =>
      WithClient(w, addr, ClientReceive(w.clients[addr], packet, w.serverAddr, processed).0)
    case ServerReceives(addr, packet, salt, processed, granted) =>
      var (s, _, sent) := ServerReceive(w.server, packet, addr, salt, processed, granted);
      w.(server := s, toClients := w.toClients + AsSet(sent),
         offered := w.offered + Entries(s.pending), admitted := w.admitted + Sessions(s.connected))
    case ServerWaits(dt) => w.(server := w.server.(time := w.server.time + dt))
    case ServerChallenges(i, granted) =>
      var (s, sent) := Challenge(w.server, i, granted);
      w.(server := s, toClients := w.toClients + AsSet(sent))
    case ServerSends(i, header, alive) =>
      var c := w.server.connected[i];
      w.(toClients := w.toClients +
          {Addressed(c.addr, if alive then KeepAlive(header, c.xorSalt, 0) else MessagesPacket(header, c.xorSalt))})
    case ServerFlushes =>
      w.(server := w.server.(outbox := []), toClients := w.toClients + AsSet(w.server.outbox))
    case PendingExpires(i) => w.(server := w.server.(pending := Remove(w.server.pending, i)))
    case SessionExpires(i) => w.(server := w.server.(connected := Remove(w.server.connected, i)))
  }

  ghost predicate Reaches(w: World, steps: seq<Step>, w': World)
    decreases |steps|
  {
    if steps == [] then w' == w else Possible(w, steps[0]) && Reaches(Next(w, steps[0]), steps[1..], w')
  }

  function Start(serverAddr: Addr, addrs: set<Addr>, time: real): World {
    World(serverAddr, NewServer(time), map a | a in addrs :: NewClient(time), {}, {}, {}, {}, {})
  }

  // -- what every step keeps --

  ghost predicate ClientOk(w: World, addr: Addr, c: Client) {
    && (c.state.SendingConnectionRequest? ==> c.clientSalt.Some?)
    && (c.xorSalt.Some? ==>
          && c.clientSalt.Some? && c.serverSalt.Some?
          && c.xorSalt.value == Xor(c.serverSalt.value, c.clientSalt.value)
          && (c.clientSalt.value, c.serverSalt.value, addr) in w.offered)
    && (c.state.SendingChallengeResponse? || c.state.Connected? || c.state.SelfInitiatedDisconnect? ==> c.xorSalt.Some?)
    && (c.state.Connected? ==> c.xorSalt.Some? && (c.xorSalt.value, addr) in w.admitted)
  }

  /** What the packets on their way to clients say is true. */
  ghost predicate PacketOk(w: World, a: Addressed) {
    && (a.packet.ConnectionChallenge? ==> (a.packet.clientSalt, a.packet.serverSalt, a.addr) in w.offered)
    && (a.packet.KeepAlive? ==> (a.packet.xorSalt, a.addr) in w.admitted)
  }

  /** Keep-alives and messages come from clients that were connected with the salt in them. */
  ghost predicate HeardOk(w: World, a: Addressed) {
    a.packet.KeepAlive? || a.packet.MessagesPacket? ==> (a.packet.xorSalt, a.addr) in w.talked
  }

  /** The connected entry was made from a pending entry. */
  ghost predicate Rooted(w: World, x: u64, addr: Addr) {
    exists c, s :: (c, s, addr) in w.offered && Xor(c, s) == x
  }

  ghost predicate Ok(w: World) {
    && (forall a | a in w.clients :: ClientOk(w, a, w.clients[a]))
    && (forall a | a in w.toClients :: PacketOk(w, a))
    && (forall a | a in w.toServer :: HeardOk(w, a))
    && (forall c | c in w.server.connected && c.confirmed :: (c.xorSalt, c.addr) in w.talked)
    && w.talked <= w.admitted
    && (forall a | a in w.server.outbox :: a.packet.ConnectionDenied?)
    && Entries(w.server.pending) <= w.offered
    && Sessions(w.server.connected) <= w.admitted
    && (forall e | e in w.admitted :: Rooted(w, e.0, e.1))
  }

  lemma {:induction false} ClientStep(w: World, addr: Addr, c: Client, salt: u64, server: Addr, dt: real,
                                      headers: seq<Option<Header>>)
    requires ClientOk(w, addr, c) && |headers| == 10
    ensures ClientOk(w, addr, Connect(c, server, salt))
    ensures ClientOk(w, addr, HangUp(c))
    ensures ClientOk(w, addr, Update(c, dt))
    ensures ClientOk(w, addr, Visit(c, headers).0)
    ensures forall p | p in Visit(c, headers).1 :: !p.KeepAlive? && !p.MessagesPacket?
  {
    hide Xor, Disconnects;
    if c.xorSalt.Some? {
      OnlyDisconnects(c.xorSalt.value, headers);
    }
  }

  lemma {:induction false} OnlyDisconnects(xorSalt: u64, headers: seq<Option<Header>>)
    ensures forall p | p in Disconnects(xorSalt, headers) :: p.Disconnect?
    decreases |headers|
  {
    if headers != [] {
      OnlyDisconnects(xorSalt, headers[1..]);
    }
  }

  lemma {:induction false} ClientHears(w: World, addr: Addr, c: Client, packet: Packet, source: Addr,
                                       processed: Result<(), Error>)
    requires ClientOk(w, addr, c) && PacketOk(w, Addressed(addr, packet))
    ensures ClientOk(w, addr, ClientReceive(c, packet, source, processed).0)
  {
    hide Xor;
  }

  lemma {:induction false} EntriesOf<T>(q: seq<T>, i: nat, x: T)
    requires i < |q|
    ensures x in q[i := x]
    ensures forall y | y in q[i := x] :: y == x || y in q
    ensures forall y | y in Remove(q, i) :: y in q
  {
    assert q[i := x][i] == x;
  }

  /** The server makes connected entries from pending ones only. */
  lemma {:induction false} ServerStep(s: Server, packet: Packet, addr: Addr, salt: u64, processed: Result<(), Error>,
                                      granted: Option<Header>)
    ensures var (s', _, sent) := ServerReceive(s, packet, addr, salt, processed, granted);
            && (forall p | p in s'.pending ::
                  p in s.pending
                      || (packet.ConnectionRequest? && p.clientSalt == packet.clientSalt && p.serverSalt == salt
                          && p.addr == addr))
            && (forall c | c in s'.connected ::
                  (c.xorSalt, c.addr) in Sessions(s.connected)
                  || exists p | p in s.pending :: p.addr == c.addr && Xor(p.clientSalt, p.serverSalt) == c.xorSalt)
            && (forall c | c in s'.connected && c.confirmed ::
                  || (exists d | d in s.connected :: d.confirmed && d.xorSalt == c.xorSalt && d.addr == c.addr)
                  || ((packet.KeepAlive? || packet.MessagesPacket?) && packet.xorSalt == c.xorSalt && addr == c.addr))
            && (forall a | a in sent :: a.packet.KeepAlive? && (a.packet.xorSalt, a.addr) in Sessions(s'.connected))
            && (forall a | a in s'.outbox :: a in s.outbox || a.packet.ConnectionDenied?)
  {
    hide Xor;
    match packet {
      case ConnectionChallengeResponse(_, xorSalt) =>
        var i := FindByXor(s.pending, xorSalt, addr);
        if i < |s.pending| {
          EntriesOf(s.pending, i, s.pending[i]);
          assert s.pending[i] in s.pending;
          var session := Session(xorSalt, addr, false, s.time, s.time);
          assert session in s.connected + [session];
        }
      case Disconnect(_, xorSalt) =>
        var i := FindSession(s.connected, xorSalt, addr);
        if i < |s.connected| {
          EntriesOf(s.connected, i, s.connected[i]);
        }
      case KeepAlive(_, xorSalt, _) => HearStep(s, xorSalt, addr, processed);
      case MessagesPacket(_, xorSalt) => HearStep(s, xorSalt, addr, processed);
      case _ =>
    }
  }

  lemma {:induction false} HearStep(s: Server, xorSalt: u64, addr: Addr, processed: Result<(), Error>)
    ensures Sessions(Hear(s, xorSalt, addr, processed).0.connected) <= Sessions(s.connected)
    ensures forall c | c in Hear(s, xorSalt, addr, processed).0.connected && c.confirmed ::
              c in s.connected || (c.xorSalt == xorSalt && c.addr == addr)
  {
    var i := FindSession(s.connected, xorSalt, addr);
    if i < |s.connected| {
      assert s.connected[i] in s.connected;
      EntriesOf(s.connected, i, s.connected[i].(confirmed := true, lastReceived := s.time));
    }
  }

  /** More was offered, admitted and sent. */
  ghost predicate Grows(w: World, w': World) {
    w.offered <= w'.offered && w.admitted <= w'.admitted && w.talked <= w'.talked
  }

  lemma {:induction false} GrowthKeeps(w: World, w': World)
    requires Grows(w, w')
    ensures forall a, c | ClientOk(w, a, c) :: ClientOk(w', a, c)
    ensures forall a | PacketOk(w, a) :: PacketOk(w', a)
    ensures forall a | HeardOk(w, a) :: HeardOk(w', a)
    ensures forall x: u64, a: Addr | Rooted(w, x, a) :: Rooted(w', x, a)
  {
    hide Xor;
    forall x: u64, a: Addr | Rooted(w, x, a)
      ensures Rooted(w', x, a)
    {
      var c, s :| (c, s, a) in w.offered && Xor(c, s) == x;
      assert (c, s, a) in w'.offered;
    }
  }

  /** A step of a client. */
  lemma {:induction false} ClientMoves(w: World, w': World, addr: Addr)
    requires Ok(w) && addr in w.clients && addr in w'.clients
    requires w' == w.(clients := w.clients[addr := w'.clients[addr]], toServer := w'.toServer, talked := w'.talked)
    requires ClientOk(w, addr, w'.clients[addr])
    requires w.talked <= w'.talked <= w'.admitted
    requires forall a | a in w'.toServer :: a in w.toServer || HeardOk(w', a)
    ensures Ok(w')
  {
    GrowthKeeps(w, w');
    forall a | a in w'.clients
      ensures ClientOk(w', a, w'.clients[a])
    {
      if a != addr {
        assert ClientOk(w, a, w.clients[a]);
      }
    }
  }

  /** A step of the server. */
  lemma {:induction false} ServerMoves(w: World, w': World)
    requires Ok(w) && Grows(w, w') && w'.clients == w.clients && w'.toServer == w.toServer && w'.talked == w.talked
    requires forall c | c in w'.server.connected && c.confirmed :: (c.xorSalt, c.addr) in w.talked
    requires forall a | a in w'.toClients :: a in w.toClients || PacketOk(w', a)
    requires forall a | a in w'.server.outbox :: a.packet.ConnectionDenied?
    requires Entries(w'.server.pending) <= w'.offered && Sessions(w'.server.connected) <= w'.admitted
    requires forall e | e in w'.admitted :: e in w.admitted || Rooted(w', e.0, e.1)
    ensures Ok(w')
  {
    GrowthKeeps(w, w');
    forall a | a in w'.toClients
      ensures PacketOk(w', a)
    {
      if a in w.toClients {
        assert PacketOk(w, a);
      }
    }
    forall a | a in w'.clients
      ensures ClientOk(w', a, w'.clients[a])
    {
      assert ClientOk(w, a, w.clients[a]);
    }
  }

  lemma {:induction false} ReceivesKeeps(w: World, addr: Addr, packet: Packet, salt: u64, processed: Result<(), Error>,
                                         granted: Option<Header>)
    requires Ok(w) && Addressed(addr, packet) in w.toServer
    ensures Ok(Next(w, ServerReceives(addr, packet, salt, processed, granted)))
  {
    hide Xor, ServerReceive, ClientOk;
    var w' := Next(w, ServerReceives(addr, packet, salt, processed, granted));
    ServerStep(w.server, packet, addr, salt, processed, granted);
    forall e | e in w'.admitted
      ensures e in w.admitted || Rooted(w', e.0, e.1)
    {
      if e !in w.admitted {
        var c :| c in w'.server.connected && e == (c.xorSalt, c.addr);
        var p :| p in w.server.pending && p.addr == c.addr && Xor(p.clientSalt, p.serverSalt) == c.xorSalt;
        assert (p.clientSalt, p.serverSalt, p.addr) in Entries(w.server.pending);
      }
    }
    forall a | a in w'.toClients
      ensures a in w.toClients || PacketOk(w', a)
    {
    }
    assert HeardOk(w, Addressed(addr, packet));
    ServerMoves(w, w');
  }

  lemma {:induction false} ServerTimeKeeps(w: World, step: Step)
    requires Ok(w) && Possible(w, step)
    requires step.ServerWaits? || step.ServerChallenges? || step.ServerSends? || step.ServerFlushes?
             || step.PendingExpires? || step.SessionExpires?
    ensures Ok(Next(w, step))
  {
    hide Xor, ClientOk;
    var w' := Next(w, step);
    match step {
      case ServerChallenges(i, granted) =>
        var p := w.server.pending[i];
        EntriesOf(w.server.pending, i, p.(lastChallenged := w.server.time));
        assert p in w.server.pending;
        assert (p.clientSalt, p.serverSalt, p.addr) in Entries(w.server.pending);
      case ServerSends(i, _, _) =>
        var c := w.server.connected[i];
        assert c in w.server.connected;
        assert (c.xorSalt, c.addr) in Sessions(w.server.connected);
      case PendingExpires(i) =>
        EntriesOf(w.server.pending, i, w.server.pending[i]);
      case SessionExpires(i) =>
        EntriesOf(w.server.connected, i, w.server.connected[i]);
      case _ =>
    }
    ServerMoves(w, w');
  }

  /** What a connected client sends. */
  lemma {:induction false} TalkKeeps(w: World, addr: Addr, header: Header, alive: bool)
    requires Ok(w) && Possible(w, ClientTalks(addr, header, alive))
    ensures Ok(Next(w, ClientTalks(addr, header, alive)))
  {
    hide Xor;
    var c, w' := w.clients[addr], Next(w, ClientTalks(addr, header, alive));
    assert ClientOk(w, addr, c);
    ClientMoves(w, w', addr);
  }

  lemma {:induction false} StepKeeps(w: World, step: Step)
    requires Ok(w) && Possible(w, step)
    ensures Ok(Next(w, step))
  {
    hide Xor, ClientOk, Connect, HangUp, Update, Visit, ClientReceive;
    var none: seq<Option<Header>> := seq(10, _ => None);
    match step {
      case ClientConnects(addr, salt) =>
        ClientStep(w, addr, w.clients[addr], salt, w.serverAddr, 0.0, none);
        ClientMoves(w, Next(w, step), addr);
      case ClientHangsUp(addr) =>
        ClientStep(w, addr, w.clients[addr], 0, w.serverAddr, 0.0, none);
        ClientMoves(w, Next(w, step), addr);
      case ClientWaits(addr, dt) =>
        ClientStep(w, addr, w.clients[addr], 0, w.serverAddr, dt, none);
        ClientMoves(w, Next(w, step), addr);
      case ClientSends(addr, headers) =>
        ClientStep(w, addr, w.clients[addr], 0, w.serverAddr, 0.0, headers);
        ClientMoves(w, Next(w, step), addr);
      case ClientTalks(addr, header, alive) =>
        TalkKeeps(w, addr, header, alive);
      case ClientReceives(addr, packet, processed) =>
        ClientHears(w, addr, w.clients[addr], packet, w.serverAddr, processed);
        ClientMoves(w, Next(w, step), addr);
      case ServerReceives(addr, packet, salt, processed, granted) =>
        ReceivesKeeps(w, addr, packet, salt, processed, granted);
      case _ =>
        ServerTimeKeeps(w, step);
    }
  }

  lemma {:induction false} RunKeeps(w: World, steps: seq<Step>, w': World)
    requires Ok(w) && Reaches(w, steps, w')
    ensures Ok(w')
    decreases |steps|
  {
    hide Ok, Next, Possible;
    if steps != [] {
      StepKeeps(w, steps[0]);
      RunKeeps(Next(w, steps[0]), steps[1..], w');
    }
  }

  /** Agreement: in every run, a client that is connected with salt `x` has a pair of salts that xor to
      `x` and that the server offered to its address, and the server made a connected entry for `x`
      at that address, from a pending entry whose two salts xor to `x`. */
  lemma {:induction false} Agreement(serverAddr: Addr, addrs: set<Addr>, time: real, steps: seq<Step>, w: World,
                                     addr: Addr)
    requires Reaches(Start(serverAddr, addrs, time), steps, w)
    requires addr in w.clients && w.clients[addr].state.Connected?
    ensures var c := w.clients[addr];
            && c.xorSalt.Some? && c.clientSalt.Some? && c.serverSalt.Some?
            && c.xorSalt.value == Xor(c.clientSalt.value, c.serverSalt.value)
            && (c.clientSalt.value, c.serverSalt.value, addr) in w.offered
            && (c.xorSalt.value, addr) in w.admitted
            && Rooted(w, c.xorSalt.value, addr)
  {
    hide Reaches, Xor;
    RunKeeps(Start(serverAddr, addrs, time), steps, w);
    assert ClientOk(w, addr, w.clients[addr]);
    XorCommutes(w.clients[addr].serverSalt.value, w.clients[addr].clientSalt.value);
  }

  /** The salts that the client unwraps while it sends are always there. */
  lemma {:induction false} SaltsAreThere(serverAddr: Addr, addrs: set<Addr>, time: real, steps: seq<Step>, w: World,
                                         addr: Addr)
    requires Reaches(Start(serverAddr, addrs, time), steps, w) && addr in w.clients
    ensures var c := w.clients[addr];
            && (c.state.SendingConnectionRequest? ==> c.clientSalt.Some?)
            && (c.state.SendingChallengeResponse? || c.state.Connected? || c.state.SelfInitiatedDisconnect? ==>
                 c.xorSalt.Some?)
  {
    hide Reaches, Xor;
    RunKeeps(Start(serverAddr, addrs, time), steps, w);
    assert ClientOk(w, addr, w.clients[addr]);
  }

  /** An entry the server has now, it admitted from a pending one. */
  lemma {:induction false} SessionsAreRooted(serverAddr: Addr, addrs: set<Addr>, time: real, steps: seq<Step>, w: World,
                                             i: nat)
    requires Reaches(Start(serverAddr, addrs, time), steps, w) && i < |w.server.connected|
    ensures Rooted(w, w.server.connected[i].xorSalt, w.server.connected[i].addr)
  {
    hide Reaches, Xor;
    RunKeeps(Start(serverAddr, addrs, time), steps, w);
    var c := w.server.connected[i];
    assert (c.xorSalt, c.addr) in Sessions(w.server.connected);
  }

  /** The other direction: an entry that the server has confirmed belongs to a client that was
      connected with the same salt, at the same address, when it sent something. */
  lemma {:induction false} ConfirmedWasConnected(serverAddr: Addr, addrs: set<Addr>, time: real, steps: seq<Step>,
                                                 w: World, i: nat)
    requires Reaches(Start(serverAddr, addrs, time), steps, w) && i < |w.server.connected|
             && w.server.connected[i].confirmed
    ensures var c := w.server.connected[i];
            (c.xorSalt, c.addr) in w.talked && (c.xorSalt, c.addr) in w.admitted && Rooted(w, c.xorSalt, c.addr)
  {
    hide Reaches, Xor;
    RunKeeps(Start(serverAddr, addrs, time), steps, w);
    var c := w.server.connected[i];
    assert c in w.server.connected;
    assert (c.xorSalt, c.addr) in w.admitted;
    SessionsAreRooted(serverAddr, addrs, time, steps, w, i);
  }
}
