/** What moves the client from one state to the next. */
module ClientSteps {
  import opened Words
  import opened Packets
  import opened Clients

  /** The states in which the client waits to be let in. */
  predicate Knocking(c: Client) {
    c.state.SendingConnectionRequest? || c.state.SendingChallengeResponse?
  }

  /** A packet from anyone but the server it connects to changes nothing. */
  lemma {:induction false} OnlyTheServer(c: Client, packet: Packet, source: Addr, processed: Result<(), Error>)
    requires c.serverAddr != Some(source)
    ensures ClientReceive(c, packet, source, processed) ==
              (c, if c.serverAddr.None? then Ok(()) else Err(SocketAddrMismatch))
  {
  }

  /** The client becomes connected exactly by a keep-alive of its server, with its salt, that can be
      processed while it sends its challenge response. */
  lemma {:induction false} ConnectsIff(c: Client, packet: Packet, source: Addr, processed: Result<(), Error>)
    requires c.serverAddr == Some(source) && !c.state.Connected?
    ensures var c' := ClientReceive(c, packet, source, processed).0;
            && (c'.state.Connected? <==>
                  && c.state.SendingChallengeResponse? && packet.KeepAlive? && c.xorSalt == Some(packet.xorSalt)
                  && processed.Ok?)
            && (c'.state.Connected? ==>
                  && c' == c.(state := Connected, protoLastSend := 0.0, lastReceiveTime := c.time,
                              transitions := c.transitions + [Connected])
                  && ClientReceive(c, packet, source, processed).1 == Ok(()))
  {
    hide Xor;
  }

  /** It goes on to its challenge response exactly by a challenge that names its own salt and can be
      processed while it sends its request; it then has both salts. */
  lemma {:induction false} ChallengedIff(c: Client, packet: Packet, source: Addr, processed: Result<(), Error>)
    requires c.serverAddr == Some(source) && !c.state.SendingChallengeResponse?
    ensures var c' := ClientReceive(c, packet, source, processed).0;
            && (c'.state.SendingChallengeResponse? <==>
                  && c.state.SendingConnectionRequest? && packet.ConnectionChallenge?
                  && c.clientSalt == Some(packet.clientSalt) && processed.Ok?)
            && (c'.state.SendingChallengeResponse? ==>
                  && packet.ConnectionChallenge?
                  && c' == c.(state := SendingChallengeResponse, serverSalt := Some(packet.serverSalt),
                              xorSalt := Some(Xor(packet.clientSalt, packet.serverSalt)), protoLastSend := 0.0,
                              lastReceiveTime := c.time, transitions := c.transitions + [SendingChallengeResponse])
                  && ClientReceive(c, packet, source, processed).1 == Ok(()))
  {
    hide Xor;
    if packet.ConnectionChallenge? {
      XorCommutes(packet.clientSalt, packet.serverSalt);
    }
  }

  /** A packet disconnects the client exactly when it is a denial while the client waits to be let in;
      everything about the session is then forgotten. */
  lemma {:induction false} DeniedIff(c: Client, packet: Packet, source: Addr, processed: Result<(), Error>)
    requires c.serverAddr == Some(source) && !c.state.Disconnected?
    ensures var c' := ClientReceive(c, packet, source, processed).0;
            && (c'.state.Disconnected? <==> packet.ConnectionDenied? && Knocking(c))
            && (c'.state.Disconnected? ==>
                  && packet.ConnectionDenied?
                  && c' == Client(c.time, Disconnected(packet.reason), None, None, None, 0.0, 0.0, 0.0, None,
                                  c.transitions + [Disconnected(packet.reason)])
                  && ClientReceive(c, packet, source, processed).1 == Ok(()))
  {
    hide Xor;
  }

  /** What a packet of the server does when it does not change the state: the time is noted, and a
      challenge with the right salt leaves its salts behind even if it cannot be processed. */
  lemma {:induction false} OtherwiseHeard(c: Client, packet: Packet, source: Addr, processed: Result<(), Error>)
    requires c.serverAddr == Some(source)
    requires ClientReceive(c, packet, source, processed).0.state == c.state
    requires !(packet.ConnectionDenied? && Knocking(c))
    ensures ClientReceive(c, packet, source, processed).0 ==
              if c.state.SendingConnectionRequest? && packet.ConnectionChallenge?
                  && c.clientSalt == Some(packet.clientSalt)
              then c.(lastReceiveTime := c.time, serverSalt := Some(packet.serverSalt),
                      xorSalt := Some(Xor(packet.clientSalt, packet.serverSalt)))
              else c.(lastReceiveTime := c.time)
  {
    hide Xor;
    if packet.ConnectionChallenge? {
      XorCommutes(packet.clientSalt, packet.serverSalt);
    }
  }

  /** The answer to a packet of the server: a challenge for another salt is invalid, and otherwise it is
      what the endpoint makes of the packets that are meant for the state. */
  lemma {:induction false} AnswerTo(c: Client, packet: Packet, source: Addr, processed: Result<(), Error>)
    requires c.serverAddr == Some(source)
    ensures ClientReceive(c, packet, source, processed).1 ==
              if packet.ConnectionChallenge? && c.state.SendingConnectionRequest? && c.clientSalt.Some? then
                (if c.clientSalt.value != packet.clientSalt then Err(InvalidPacket) else processed)
              else if packet.KeepAlive? && (c.state.Connected? || c.state.SendingChallengeResponse?)
                      && c.xorSalt == Some(packet.xorSalt) then processed
              else if packet.MessagesPacket? && c.state.Connected? && c.xorSalt == Some(packet.xorSalt) then processed
              else Ok(())
  {
    hide Xor;
    if processed.Ok? {
      assert processed.value == ();
    }
  }

  // -- time --

  /** The client times out exactly when it has heard nothing for more than five seconds.  The time of
      the last packet starts from zero, so a client whose clock is beyond that when it connects times
      out at its next update unless the server has answered by then. */
  lemma {:induction false} TimesOutIff(c: Client, dt: real)
    requires !c.state.Disconnected?
    ensures Update(c, dt) ==
              if 5.0 < c.time + dt - c.lastReceiveTime then
                Client(c.time + dt, Disconnected(TimedOut), None, None, None, 0.0, 0.0, 0.0, None,
                       c.transitions + [Disconnected(TimedOut)])
              else c.(time := c.time + dt)
  {
  }

  lemma {:induction false} LateConnectTimesOut(time: real, server: Addr, salt: u64, dt: real)
    requires 5.0 < time && 0.0 <= dt
    ensures Update(Connect(NewClient(time), server, salt), dt).state == Disconnected(TimedOut)
  {
  }

  /** Connecting starts over with a new salt of its own. */
  lemma {:induction false} ConnectsAnew(c: Client, server: Addr, salt: u64)
    ensures Connect(c, server, salt) ==
              Client(c.time, SendingConnectionRequest, Some(salt), None, None, 0.0, c.lastReceiveTime, c.lastSendTime,
                     Some(server), c.transitions + [SendingConnectionRequest])
  {
  }

  /** Hanging up: while the server may hold a session, it is told first; otherwise all is forgotten at
      once. */
  lemma {:induction false} HangsUp(c: Client)
    ensures HangUp(c) ==
              if c.state.Connected? || c.state.SendingChallengeResponse? then
                c.(state := SelfInitiatedDisconnect, protoLastSend := 0.0,
                   transitions := c.transitions + [SelfInitiatedDisconnect])
              else Client(c.time, Disconnected(Normal), None, None, None, 0.0, 0.0, 0.0, None,
                          c.transitions + [Disconnected(Normal)])
  {
  }

  // -- sending --

  /** The request is sent, with the client's salt, exactly when the interval has passed since the last
      handshake packet and a header is granted. */
  lemma {:induction false} RequestsWhenDue(c: Client, headers: seq<Option<Header>>)
    requires |headers| == 10 && c.serverAddr.Some? && c.state.SendingConnectionRequest? && c.clientSalt.Some?
    ensures Visit(c, headers) ==
              if 0.1 < c.time - c.protoLastSend && headers[0].Some? then
                (c.(lastSendTime := c.time, protoLastSend := c.time),
                 [ConnectionRequest(headers[0].value, c.clientSalt.value, 1)])
              else (c, [])
  {
  }

  lemma {:induction false} RespondsWhenDue(c: Client, headers: seq<Option<Header>>)
    requires |headers| == 10 && c.serverAddr.Some? && c.state.SendingChallengeResponse? && c.xorSalt.Some?
    ensures Visit(c, headers) ==
              if 0.1 < c.time - c.protoLastSend && headers[0].Some? then
                (c.(lastSendTime := c.time, protoLastSend := c.time),
                 [ConnectionChallengeResponse(headers[0].value, c.xorSalt.value)])
              else (c, [])
  {
  }

  /** Hanging up sends a disconnect, with the salt, under each of ten headers that is granted. */
  lemma {:induction false} DisconnectsUnder(x: u64, headers: seq<Option<Header>>, p: Packet)
    ensures p in Disconnects(x, headers) <==> exists h :: Some(h) in headers && p == Packet.Disconnect(h, x)
    decreases |headers|
  {
    if headers != [] {
      DisconnectsUnder(x, headers[1..], p);
      assert forall o :: o in headers <==> o == headers[0] || o in headers[1..];
    }
  }

  lemma {:induction false} DisconnectsOnce(x: u64, headers: seq<Option<Header>>)
    ensures |Disconnects(x, headers)| == |headers| - multiset(headers)[None]
    decreases |headers|
  {
    if headers != [] {
      DisconnectsOnce(x, headers[1..]);
      assert headers == [headers[0]] + headers[1..];
    }
  }

  lemma {:induction false} SaysGoodbye(c: Client, headers: seq<Option<Header>>)
    requires |headers| == 10 && c.serverAddr.Some? && c.state.SelfInitiatedDisconnect? && c.xorSalt.Some?
    ensures var (c', sent) := Visit(c, headers);
            && c' == Client(c.time, Disconnected(Normal), None, None, None, 0.0, 0.0, 0.0, None,
                            c.transitions + [Disconnected(Normal)])
            && (forall p :: p in sent <==> exists h :: Some(h) in headers && p == Packet.Disconnect(h, c.xorSalt.value))
            && |sent| == 10 - multiset(headers)[None]
  {
    hide Disconnects;
    forall p
      ensures p in Disconnects(c.xorSalt.value, headers) <==>
              exists h :: Some(h) in headers && p == Packet.Disconnect(h, c.xorSalt.value)
    {
      DisconnectsUnder(c.xorSalt.value, headers, p);
    }
    DisconnectsOnce(c.xorSalt.value, headers);
  }

  /** Connected or not connecting, it sends no packet of the handshake. */
  lemma {:induction false} OtherwiseSilent(c: Client, headers: seq<Option<Header>>)
    requires |headers| == 10
    requires c.serverAddr.None? || c.state.Connected? || c.state.Disconnected?
    ensures Visit(c, headers) == (c, [])
  {
  }
}
