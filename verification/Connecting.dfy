/** The handshake gets there: with nothing lost, a client connects. */
module Connecting {
  import opened Words
  import opened Packets
  import opened Clients
  import opened Servers
  import opened ServerSteps
  import opened ClientSteps
  import opened Handshake

  lemma {:induction false} ReachesOn(w: World, steps: seq<Step>, w1: World, step: Step)
    requires Reaches(w, steps, w1) && Possible(w1, step)
    ensures Reaches(w, steps + [step], Next(w1, step))
    decreases |steps|
  {
    hide Possible, Next;
    if steps == [] {
      assert steps + [step] == [step];
      assert Reaches(Next(w, step), [], Next(w, step));
    } else {
      ReachesOn(Next(w, steps[0]), steps[1..], w1, step);
      assert (steps + [step])[1..] == steps[1..] + [step];
    }
  }

  /** The client asks. */
  lemma {:induction false} Asks(w: World, addr: Addr, h: Header, salt: u64) returns (steps: seq<Step>, w': World)
    requires addr in w.clients && w.clients[addr] == NewClient(w.clients[addr].time)
    requires 0.1 < w.clients[addr].time
    ensures Reaches(w, steps, w')
    ensures var c := w.clients[addr];
            && w'.clients == w.clients[addr := c.(state := SendingConnectionRequest, clientSalt := Some(salt),
                                                  serverAddr := Some(w.serverAddr), lastSendTime := c.time,
                                                  protoLastSend := c.time, transitions := [SendingConnectionRequest])]
            && Addressed(addr, ConnectionRequest(h, salt, 1)) in w'.toServer
            && w' == w.(clients := w'.clients, toServer := w'.toServer)
  {
    hide Reaches;
    var headers: seq<Option<Header>> := seq(10, _ => Some(h));
    var connect, send := ClientConnects(addr, salt), ClientSends(addr, headers);
    var w1 := Next(w, connect);
    ConnectsAnew(w.clients[addr], w.serverAddr, salt);
    assert w1.clients[addr].transitions == [SendingConnectionRequest];
    RequestsWhenDue(w1.clients[addr], headers);
    w' := Next(w1, send);
    StaysPut(w);
    ReachesOn(w, [], w, connect);
    ReachesOn(w, [] + [connect], w1, send);
    steps := [] + [connect] + [send];
    assert ConnectionRequest(h, salt, 1) in Visit(w1.clients[addr], headers).1;
  }

  lemma {:induction false} StaysPut(w: World)
    ensures Reaches(w, [], w)
  {
  }

  /** The server holds the request and challenges the client. */
  lemma {:induction false} Challenges(w: World, addr: Addr, h: Header, clientSalt: u64, salt: u64)
    returns (steps: seq<Step>, w': World)
    requires Addressed(addr, ConnectionRequest(h, clientSalt, 1)) in w.toServer
    requires w.server.pending == [] && 0.1 < w.server.time
    ensures Reaches(w, steps, w')
    ensures w'.server == w.server.(pending := [PendingClient(clientSalt, salt, w.server.time, w.server.time, addr)])
    ensures Addressed(addr, ConnectionChallenge(h, clientSalt, salt)) in w'.toClients
    ensures w'.clients == w.clients && w'.serverAddr == w.serverAddr
  {
    hide Reaches;
    var request := ConnectionRequest(h, clientSalt, 1);
    var receive, challenge := ServerReceives(addr, request, salt, Ok(()), None), ServerChallenges(0, Some(h));
    RequestHeld(w.server, h, clientSalt, 1, addr, salt, Ok(()), None);
    var w1 := Next(w, receive);
    assert w1.server.pending == [PendingClient(clientSalt, salt, w.server.time, 0.0, addr)];
    ChallengedWhenDue(w1.server, 0, Some(h));
    w' := Next(w1, challenge);
    StaysPut(w);
    ReachesOn(w, [], w, receive);
    ReachesOn(w, [] + [receive], w1, challenge);
    steps := [] + [receive] + [challenge];
    assert w'.server.pending == [PendingClient(clientSalt, salt, w.server.time, w.server.time, addr)];
    assert Addressed(addr, ConnectionChallenge(h, clientSalt, salt)) in Challenge(w1.server, 0, Some(h)).1;
  }

  /** The client answers the challenge. */
  lemma {:induction false} Answering(w: World, addr: Addr, h: Header, salt: u64) returns (steps: seq<Step>, w': World)
    requires addr in w.clients && w.clients[addr].state.SendingConnectionRequest? && 0.1 < w.clients[addr].time
    requires w.clients[addr].serverAddr == Some(w.serverAddr) && w.clients[addr].clientSalt.Some?
    requires Addressed(addr, ConnectionChallenge(h, w.clients[addr].clientSalt.value, salt)) in w.toClients
    ensures Reaches(w, steps, w')
    ensures var c := w.clients[addr];
            var x := Xor(c.clientSalt.value, salt);
            && w'.clients == w.clients[addr := c.(state := SendingChallengeResponse, serverSalt := Some(salt),
                                                  xorSalt := Some(x), protoLastSend := c.time,
                                                      lastReceiveTime := c.time,
                                                  lastSendTime := c.time,
                                                  transitions := c.transitions + [SendingChallengeResponse])]
            && Addressed(addr, ConnectionChallengeResponse(h, x)) in w'.toServer
            && w' == w.(clients := w'.clients, toServer := w'.toServer)
  {
    hide Reaches, Xor;
    var c := w.clients[addr];
    var challenge := ConnectionChallenge(h, c.clientSalt.value, salt);
    var headers: seq<Option<Header>> := seq(10, _ => Some(h));
    var receive, send := ClientReceives(addr, challenge, Ok(())), ClientSends(addr, headers);
    ChallengedIff(c, challenge, w.serverAddr, Ok(()));
    var w1 := Next(w, receive);
    RespondsWhenDue(w1.clients[addr], headers);
    w' := Next(w1, send);
    StaysPut(w);
    ReachesOn(w, [], w, receive);
    ReachesOn(w, [] + [receive], w1, send);
    steps := [] + [receive] + [send];
    assert ConnectionChallengeResponse(h, Xor(c.clientSalt.value, salt)) in Visit(w1.clients[addr], headers).1;
  }

  /** The server lets the client in, and the client hears of it. */
  lemma {:induction false} LetIn(w: World, addr: Addr, h: Header, clientSalt: u64, salt: u64)
    returns (steps: seq<Step>, w': World)
    requires addr in w.clients && w.clients[addr].state.SendingChallengeResponse?
    requires w.clients[addr].serverAddr == Some(w.serverAddr) && w.clients[addr].xorSalt == Some(Xor(clientSalt, salt))
    requires Addressed(addr, ConnectionChallengeResponse(h, Xor(clientSalt, salt))) in w.toServer
    requires |w.server.pending| == 1 && Answers(w.server.pending[0], Xor(clientSalt, salt), addr)
    ensures Reaches(w, steps, w')
    ensures var x, c := Xor(clientSalt, salt), w.clients[addr];
            && w'.clients == w.clients[addr := c.(state := Connected, protoLastSend := 0.0, lastReceiveTime := c.time,
                                                  transitions := c.transitions + [Connected])]
            && w'.server == w.server.(pending := [], events := w.server.events + [ClientConnected(x)],
                                      connected := w.server.connected +
                                          [Session(x, addr, false, w.server.time, w.server.time)])
  {
    hide Reaches, Xor, ServerReceive, ClientReceive;
    var x := Xor(clientSalt, salt);
    var receive := ServerReceives(addr, ConnectionChallengeResponse(h, x), 0, Ok(()), Some(h));
    var hear := ClientReceives(addr, KeepAlive(h, x, 0), Ok(()));
    assert w.server.pending[0] in w.server.pending;
    var i := ResponseAdmits(w.server, h, x, addr, 0, Ok(()), Some(h));
    var w1 := Next(w, receive);
    assert AllBut(w.server.pending, 0) == [];
    assert Addressed(addr, KeepAlive(h, x, 0)) in [Addressed(addr, KeepAlive(h, x, 0))];
    ConnectsIff(w1.clients[addr], KeepAlive(h, x, 0), w.serverAddr, Ok(()));
    w' := Next(w1, hear);
    StaysPut(w);
    ReachesOn(w, [], w, receive);
    ReachesOn(w, [] + [receive], w1, hear);
    steps := [] + [receive] + [hear];
  }

  lemma {:induction false} ReachesMore(w: World, steps: seq<Step>, w1: World, more: seq<Step>, w2: World)
    requires Reaches(w, steps, w1) && Reaches(w1, more, w2)
    ensures Reaches(w, steps + more, w2)
    decreases |steps|
  {
    hide Possible, Next;
    if steps == [] {
      assert steps + more == more;
    } else {
      ReachesMore(Next(w, steps[0]), steps[1..], w1, more, w2);
      assert (steps + more)[1..] == steps[1..] + more;
    }
  }

  /** The handshake's first packets are due a tenth of a second after the clocks' zero. */
  lemma {:induction false} Waits(serverAddr: Addr, addrs: set<Addr>, time: real, addr: Addr)
    returns (now: real, steps: seq<Step>, w: World)
    requires addr in addrs
    ensures now == if 0.1 < time then time else 0.2
    ensures Reaches(Start(serverAddr, addrs, time), steps, w)
    ensures addr in w.clients && w.clients[addr] == NewClient(now) && w.server == NewServer(now)
    ensures w.serverAddr == serverAddr
  {
    hide Reaches;
    now := if 0.1 < time then time else 0.2;
    var w0 := Start(serverAddr, addrs, time);
    var client, server := ClientWaits(addr, now - time), ServerWaits(now - time);
    var w1 := Next(w0, client);
    w := Next(w1, server);
    StaysPut(w0);
    ReachesOn(w0, [], w0, client);
    ReachesOn(w0, [] + [client], w1, server);
    steps := [] + [client] + [server];
  }

  /** From the start, for any clocks, any salts and any headers that the endpoints grant: request,
      challenge, response and keep-alive, each received once, leave the client connected with the two
      salts and the server with one session for it. */
  lemma {:induction false} NothingLost(serverAddr: Addr, addrs: set<Addr>, time: real, addr: Addr, clientSalt: u64,
                                       salt: u64, h: Header) returns (now: real, steps: seq<Step>, w: World)
    requires addr in addrs
    ensures now == if 0.1 < time then time else 0.2
    ensures Reaches(Start(serverAddr, addrs, time), steps, w)
    ensures var x := Xor(clientSalt, salt);
            && addr in w.clients && w.clients[addr].state.Connected?
            && w.clients[addr].clientSalt == Some(clientSalt) && w.clients[addr].serverSalt == Some(salt)
            && w.clients[addr].xorSalt == Some(x) && w.clients[addr].serverAddr == Some(serverAddr)
            && w.clients[addr].transitions == [SendingConnectionRequest, SendingChallengeResponse, Connected]
            && w.server == Server(now, [], [Session(x, addr, false, now, now)], [], [ClientConnected(x)])
  {
    hide Reaches, Xor;
    var steps0, w0;
    now, steps0, w0 := Waits(serverAddr, addrs, time, addr);
    var steps1, w1 := Asks(w0, addr, h, clientSalt);
    var steps2, w2 := Challenges(w1, addr, h, clientSalt, salt);
    var steps3, w3 := Answering(w2, addr, h, salt);
    var steps4, w4 := LetIn(w3, addr, h, clientSalt, salt);
    ReachesMore(Start(serverAddr, addrs, time), steps0, w0, steps1, w1);
    ReachesMore(Start(serverAddr, addrs, time), steps0 + steps1, w1, steps2, w2);
    ReachesMore(Start(serverAddr, addrs, time), steps0 + steps1 + steps2, w2, steps3, w3);
    ReachesMore(Start(serverAddr, addrs, time), steps0 + steps1 + steps2 + steps3, w3, steps4, w4);
    steps, w := steps0 + steps1 + steps2 + steps3 + steps4, w4;
  }
}
