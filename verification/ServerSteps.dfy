/** What the server does with each packet, in terms of the entries it holds. */
module ServerSteps {
  import opened Words
  import opened Packets
  import opened Clients
  import opened Servers

  ghost predicate Answers(p: PendingClient, x: u64, addr: Addr) {
    p.addr == addr && Xor(p.clientSalt, p.serverSalt) == x
  }

  ghost predicate Asked(p: PendingClient, clientSalt: u64, addr: Addr) {
    p.addr == addr && p.clientSalt == clientSalt
  }

  ghost predicate Belongs(c: Session, x: u64, addr: Addr) {
    c.addr == addr && c.xorSalt == x
  }

  function AllBut<T>(q: seq<T>, i: nat): seq<T>
    requires i < |q|
  {
    q[..i] + q[i + 1..]
  }

  function Denial(addr: Addr, reason: DisconnectReason): Addressed {
    Addressed(addr, ConnectionDenied(Header(ConnectionDeniedType, 0, None), reason))
  }

  // -- the first entry --

  lemma {:induction false} FirstAnswer(ps: seq<PendingClient>, x: u64, addr: Addr)
    ensures forall j | 0 <= j < FindByXor(ps, x, addr) :: !Answers(ps[j], x, addr)
  {
    hide Xor;
    if ps != [] && !Answers(ps[0], x, addr) {
      FirstAnswer(ps[1..], x, addr);
      forall j | 0 <= j < FindByXor(ps, x, addr)
        ensures !Answers(ps[j], x, addr)
      {
        if j > 0 {
          assert ps[j] == ps[1..][j - 1];
        }
      }
    }
  }

  lemma {:induction false} FirstAsked(ps: seq<PendingClient>, clientSalt: u64, addr: Addr)
    ensures forall j | 0 <= j < FindPending(ps, clientSalt, addr) :: !Asked(ps[j], clientSalt, addr)
  {
    if ps != [] && !Asked(ps[0], clientSalt, addr) {
      FirstAsked(ps[1..], clientSalt, addr);
      forall j | 0 <= j < FindPending(ps, clientSalt, addr)
        ensures !Asked(ps[j], clientSalt, addr)
      {
        if j > 0 {
          assert ps[j] == ps[1..][j - 1];
        }
      }
    }
  }

  lemma {:induction false} FirstSession(cs: seq<Session>, x: u64, addr: Addr)
    ensures forall j | 0 <= j < FindSession(cs, x, addr) :: !Belongs(cs[j], x, addr)
  {
    if cs != [] && !Belongs(cs[0], x, addr) {
      FirstSession(cs[1..], x, addr);
      forall j | 0 <= j < FindSession(cs, x, addr)
        ensures !Belongs(cs[j], x, addr)
      {
        if j > 0 {
          assert cs[j] == cs[1..][j - 1];
        }
      }
    }
  }

  lemma {:induction false} SomeSession(cs: seq<Session>, x: u64)
    ensures AnySession(cs, x) <==> exists c :: c in cs && c.xorSalt == x
  {
    if cs != [] {
      SomeSession(cs[1..], x);
      assert forall c :: c in cs <==> c == cs[0] || c in cs[1..];
    }
  }

  // -- the challenge response --

  /** A response that answers a challenge: the first pending entry it answers is gone; and if the
      packet can be processed and a header is granted, the client has a session, the application an
      event, and the client a keep-alive. */
  lemma {:induction false} ResponseAdmits(s: Server, h: Header, x: u64, addr: Addr, salt: u64,
                                          processed: Result<(), Error>, granted: Option<Header>) returns (i: nat)
    requires exists p :: p in s.pending && Answers(p, x, addr)
    ensures i < |s.pending| && Answers(s.pending[i], x, addr)
    ensures forall j | 0 <= j < i :: !Answers(s.pending[j], x, addr)
    ensures var left := s.(pending := AllBut(s.pending, i));
            ServerReceive(s, ConnectionChallengeResponse(h, x), addr, salt, processed, granted) ==
              if processed.Err? then (left, processed, [])
              else if granted.None? then (left, Err(TooManyPending), [])
              else (left.(connected := s.connected + [Session(x, addr, false, s.time, s.time)],
                          events := s.events + [ClientConnected(x)]),
                    Ok(()),
                    [Addressed(addr, KeepAlive(granted.value, x, 0))])
  {
    hide Xor;
    FirstAnswer(s.pending, x, addr);
    i := FindByXor(s.pending, x, addr);
    var p :| p in s.pending && Answers(p, x, addr);
    var k :| 0 <= k < |s.pending| && s.pending[k] == p;
  }

  /** A response that answers none: if some session has its salt it is a repeat and changes nothing,
      and otherwise, and only then, the client is denied for having been too slow. */
  lemma {:induction false} ResponseUnmatched(s: Server, h: Header, x: u64, addr: Addr, salt: u64,
                                             processed: Result<(), Error>, granted: Option<Header>)
    requires forall p | p in s.pending :: !Answers(p, x, addr)
    ensures ServerReceive(s, ConnectionChallengeResponse(h, x), addr, salt, processed, granted) ==
              if exists c :: c in s.connected && c.xorSalt == x then (s, processed, [])
              else (s.(outbox := s.outbox + [Denial(addr, HandshakeTimeout)]), Ok(()), [])
  {
    hide Xor;
    SomeSession(s.connected, x);
    assert forall k | 0 <= k < |s.pending| :: s.pending[k] in s.pending;
  }

  // -- the other packets --

  /** A request: of another version it is denied; a repeat, or one that cannot be processed, changes
      nothing; any other makes a pending entry that has not been challenged yet. */
  lemma {:induction false} RequestHeld(s: Server, h: Header, clientSalt: u64, version: u64, addr: Addr, salt: u64,
                                       processed: Result<(), Error>, granted: Option<Header>)
    ensures ServerReceive(s, ConnectionRequest(h, clientSalt, version), addr, salt, processed, granted) ==
              if version != PROTOCOL_VERSION then
                (s.(outbox := s.outbox + [Denial(addr, ProtocolMismatch)]), Ok(()), [])
              else if processed.Err? || exists p :: p in s.pending && Asked(p, clientSalt, addr) then (s, processed, [])
              else (s.(pending := s.pending + [PendingClient(clientSalt, salt, s.time, 0.0, addr)]), Ok(()), [])
  {
    FirstAsked(s.pending, clientSalt, addr);
    var i := FindPending(s.pending, clientSalt, addr);
    if i < |s.pending| {
      assert s.pending[i] in s.pending && Asked(s.pending[i], clientSalt, addr);
    } else {
      forall p | p in s.pending
        ensures !Asked(p, clientSalt, addr)
      {
        var k :| 0 <= k < |s.pending| && s.pending[k] == p;
      }
    }
  }

  /** A disconnect or a packet that is heard, without a session: nothing changes. */
  lemma {:induction false} StrangerIgnored(s: Server, h: Header, x: u64, clientIndex: int, addr: Addr, salt: u64,
                                           processed: Result<(), Error>, granted: Option<Header>)
    requires forall c | c in s.connected :: !Belongs(c, x, addr)
    ensures ServerReceive(s, Disconnect(h, x), addr, salt, processed, granted) == (s, Ok(()), [])
    ensures ServerReceive(s, KeepAlive(h, x, clientIndex), addr, salt, processed, granted) == (s, Ok(()), [])
    ensures ServerReceive(s, MessagesPacket(h, x), addr, salt, processed, granted) == (s, Ok(()), [])
  {
    assert forall k | 0 <= k < |s.connected| :: s.connected[k] in s.connected;
  }

  /** With a session: a disconnect ends the first one, with an event; what is heard confirms it and
      notes the time, also when the endpoint cannot process it. */
  lemma {:induction false} SessionHears(s: Server, h: Header, x: u64, clientIndex: int, addr: Addr, salt: u64,
                                        processed: Result<(), Error>, granted: Option<Header>) returns (i: nat)
    requires exists c :: c in s.connected && Belongs(c, x, addr)
    ensures i < |s.connected| && Belongs(s.connected[i], x, addr)
    ensures forall j | 0 <= j < i :: !Belongs(s.connected[j], x, addr)
    ensures ServerReceive(s, Disconnect(h, x), addr, salt, processed, granted) ==
              (s.(connected := AllBut(s.connected, i), events := s.events + [ClientDisconnected(x, Normal)]), Ok(()),
                  [])
    ensures var c := s.connected[i];
            var heard := s.(connected := s.connected[i := Session(x, addr, true, s.time, c.lastSent)]);
            && ServerReceive(s, KeepAlive(h, x, clientIndex), addr, salt, processed, granted) == (heard, processed, [])
            && ServerReceive(s, MessagesPacket(h, x), addr, salt, processed, granted) == (heard, processed, [])
  {
    FirstSession(s.connected, x, addr);
    i := FindSession(s.connected, x, addr);
    var c :| c in s.connected && Belongs(c, x, addr);
    var k :| 0 <= k < |s.connected| && s.connected[k] == c;
  }

  /** What only a server sends is ignored. */
  lemma {:induction false} OthersIgnored(s: Server, p: Packet, addr: Addr, salt: u64, processed: Result<(), Error>,
                                         granted: Option<Header>)
    requires p.ConnectionChallenge? || p.ConnectionDenied?
    ensures ServerReceive(s, p, addr, salt, processed, granted) == (s, Ok(()), [])
  {
  }

  /** A pending entry is challenged, with its own salts and at its own address, if and only if the
      interval has passed since the last time; the time is noted also when no header is granted. */
  lemma {:induction false} ChallengedWhenDue(s: Server, i: nat, granted: Option<Header>)
    requires i < |s.pending|
    ensures var p := s.pending[i];
            var due := 0.1 < s.time - p.lastChallenged;
            && Challenge(s, i, granted).0 ==
                 (if due
                  then s.(pending := s.pending[i := PendingClient(p.clientSalt, p.serverSalt, p.firstRequested,
                      s.time, p.addr)])
                  else s)
            && Challenge(s, i, granted).1 ==
                 if due && granted.Some?
                 then [Addressed(p.addr, ConnectionChallenge(granted.value, p.clientSalt, p.serverSalt))] else []
  {
  }
}
