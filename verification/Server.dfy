/** The event loop over many connections: every request is routed once and answered in full. */
module Server {
  import opened Net
  import opened Parser
  import opened Connection

  datatype Interest = POLLIN | POLLOUT

  /** The connections map and the epoll set. */
  datatype Server = Server(conns: map<nat, Conn>, interest: map<nat, Interest>)

  const EMPTY := Server(map[], map[])

  /** What one event did: the call to route with its arguments, the bytes it read and wrote, and
      whether a write failed. */
  datatype Effect = Effect(routed: Option<(HttpRequest, string, nat)>, got: string, sent: string, failed: bool)

  const NOTHING := Effect(None, "", "", false)

  function Remove(s: Server, fd: nat): Server { Server(s.conns - {fd}, s.interest - {fd}) }

  function Accept(s: Server, fd: nat, ip: string, port: nat): Server {
    Server(s.conns[fd := Opened(ip, port)], s.interest[fd := POLLIN])
  }

  /** response is what route returns if it is called. */
  function HandleReadable(s: Server, fd: nat, incoming: seq<Read>, response: string, stoul: Stoul): (Server, Effect) {
    if fd !in s.conns then (s, NOTHING)
    else
      var r := OnReadable(s.conns[fd], incoming, stoul);
      match r.c.state
      case WRITING =>
        (Server(s.conns[fd := Queue(r.c, response)], s.interest[fd := POLLOUT]),
         Effect(Some((r.c.parser.request, r.c.ip, r.c.port)), r.got, "", false))
      case CLOSED => (Remove(s, fd), Effect(None, r.got, "", false))
      case READING => (s.(conns := s.conns[fd := r.c]), Effect(None, r.got, "", false))
  }

  function HandleWritable(s: Server, fd: nat, room: seq<Write>): (Server, Effect)
    requires fd in s.conns ==> s.conns[fd].writeOffset <= |s.conns[fd].writeBuf|
  {
    if fd !in s.conns then (s, NOTHING)
    else
      var r := OnWritable(s.conns[fd], room);
      (if r.c.state == CLOSED then Remove(s, fd) else s.(conns := s.conns[fd := r.c]),
       Effect(None, "", r.sent, r.failed))
  }

  lemma RemoveForgets(s: Server, fd: nat, c: Conn)
    ensures Remove(s.(conns := s.conns[fd := c]), fd) == Remove(s, fd)
  {
    assert s.conns[fd := c] - {fd} == s.conns - {fd};
  }

  // ----- the server as the program has it -------------------------------------------------

  class HgServer {
    const stoul: Stoul
    var connections: map<nat, HgConnection>
    var interest: map<nat, Interest>

    ghost function Repr(): set<object>
      reads this
    {
      {this} + connections.Values + set c | c in connections.Values :: c.parser
    }

    /** Each connection is an object of its own with a parser of its own. */
    ghost predicate Apart()
      reads this
    {
      forall a, b | a in connections && b in connections && a != b ::
        connections[a] != connections[b] && connections[a].parser != connections[b].parser
    }

    ghost predicate Valid()
      reads this, Repr()
    {
      && Apart()
      && forall fd | fd in connections ::
           connections[fd].parser.stoul == stoul && connections[fd].writeOffset <= |connections[fd].writeBuf|
    }

    ghost function Value(): Server
      reads this, Repr()
    {
      Server(map fd | fd in connections :: connections[fd].Value(), interest)
    }

    constructor (stoul: Stoul)
      ensures Valid() && Value() == EMPTY
    {
      this.stoul := stoul;
      connections, interest := map[], map[];
    }

    /** A new object is apart from those there were. */
    twostate lemma NewIsApart(fd: nat)
      requires old(Valid()) && fd in connections && connections == old(connections)[fd := connections[fd]]
      requires fresh(connections[fd]) && fresh(connections[fd].parser)
      ensures Apart()
    {
      forall a, b | a in connections && b in connections && a != b
        ensures connections[a] != connections[b] && connections[a].parser != connections[b].parser
      {
        if a != fd {
          assert connections[a] == old(connections)[a];
        }
        if b != fd {
          assert connections[b] == old(connections)[b];
        }
      }
    }

    twostate lemma OthersStay(fd: nat)
      requires old(Valid()) && fd in connections && connections == old(connections)[fd := connections[fd]]
      requires forall k | k in old(connections) :: unchanged(old(connections)[k], old(connections)[k].parser)
      requires connections[fd].parser.stoul == stoul && connections[fd].writeOffset <= |connections[fd].writeBuf|
      requires Apart()
      ensures Valid()
    {
      hide HgConnection.Value, Apart;
      forall k | k in connections
        ensures connections[k].parser.stoul == stoul && connections[k].writeOffset <= |connections[k].writeBuf|
      {
        if k != fd {
          assert connections[k] == old(connections)[k];
        }
      }
    }

    twostate lemma OtherValuesStay(fd: nat)
      requires old(Valid()) && fd in connections && connections == old(connections)[fd := connections[fd]]
      requires forall k | k in old(connections) :: unchanged(old(connections)[k], old(connections)[k].parser)
      ensures Value().conns == old(Value()).conns[fd := connections[fd].Value()]
    {
      hide HgConnection.Value, Apart, Valid;
      forall k | k in connections && k != fd
        ensures k in old(connections) && connections[k].Value() == old(connections[k].Value())
      {
        assert connections[k] == old(connections)[k];
      }
    }

    /** One turn of accept_connections that succeeded. */
    method AcceptConnection(fd: nat, ip: string, port: nat)
      requires Valid()
      modifies this
      ensures Valid() && Value() == Accept(old(Value()), fd, ip, port)
    {
      interest := interest[fd := POLLIN];
      var conn := new HgConnection(ip, port, stoul);
      connections := connections[fd := conn];
      hide HgConnection.Value, Valid, Apart;
      NewIsApart(fd);
      OthersStay(fd);
      OtherValuesStay(fd);
    }

    twostate lemma RestStays(fd: nat)
      requires old(Valid()) && connections == old(connections) - {fd}
      requires forall k | k in connections :: unchanged(connections[k], connections[k].parser)
      ensures Valid() && Value().conns == old(Value()).conns - {fd}
    {
      hide HgConnection.Value;
      forall k | k in connections
        ensures connections[k] == old(connections[k]) && connections[k].Value() == old(connections[k].Value())
      {
      }
    }

    method RemoveConnection(fd: nat)
      requires Valid()
      modifies this
      ensures Valid() && Value() == Remove(old(Value()), fd)
      ensures connections == old(connections) - {fd}
    {
      hide HgConnection.Value, Valid, Apart;
      interest := interest - {fd};
      connections := connections - {fd};
      RestStays(fd);
    }

    /** A change to one connection changes one entry of the value. */
    twostate lemma OnlyOne(fd: nat)
      requires old(Valid()) && unchanged(this) && fd in connections
      requires forall k | k in connections && k != fd :: unchanged(connections[k], connections[k].parser)
      requires connections[fd].writeOffset <= |connections[fd].writeBuf|
      ensures Valid() && Value() == old(Value()).(conns := old(Value()).conns[fd := connections[fd].Value()])
    {
    }

    /** conn->on_readable() seen from the server. */
    method ReadFrom(fd: nat, sock: Socket)
      requires Valid() && fd in connections
      modifies connections[fd], connections[fd].parser, sock`incoming, sock`received
      ensures Valid()
      ensures var r := OnReadable(old(Value()).conns[fd], old(sock.incoming), stoul);
              && connections[fd].Value() == r.c && sock.received == old(sock.received) + r.got
              && Value() == old(Value()).(conns := old(Value()).conns[fd := r.c])
    {
      hide OnReadable;
      connections[fd].Readable(sock);
      OnlyOne(fd);
    }

    method WriteTo(fd: nat, sock: Socket)
      requires Valid() && fd in connections
      modifies connections[fd], connections[fd].parser, sock`room, sock`sent
      ensures Valid()
      ensures var r := OnWritable(old(Value()).conns[fd], old(sock.room));
              && connections[fd].Value() == r.c && sock.sent == old(sock.sent) + r.sent
              && Value() == old(Value()).(conns := old(Value()).conns[fd := r.c])
    {
      hide OnWritable;
      var failed := connections[fd].Writable(sock);
      OnlyOne(fd);
    }

    /** A change of registration changes no connection. */
    twostate lemma SameConnections()
      requires old(Valid()) && connections == old(connections)
      requires forall k | k in connections :: unchanged(connections[k], connections[k].parser)
      ensures Valid() && Value().conns == old(Value()).conns
    {
      hide HgConnection.Value;
    }

    method Answer(fd: nat, response: string)
      requires Valid() && fd in connections
      modifies connections[fd]
      ensures Valid()
      ensures Value() == old(Value()).(conns := old(Value()).conns[fd := Queue(old(Value()).conns[fd], response)])
    {
      hide HgConnection.Value, Queue;
      connections[fd].QueueResponse(response);
      OnlyOne(fd);
    }

    method Respond(fd: nat, response: string)
      requires Valid() && fd in connections
      modifies this`interest, connections[fd]
      ensures Valid()
      ensures Value() == Server(old(Value()).conns[fd := Queue(old(Value()).conns[fd], response)],
                                old(interest)[fd := POLLOUT])
    {
      hide HgConnection.Value, Queue, Valid;
      Answer(fd, response);
      label Answered:
      interest := interest[fd := POLLOUT];
      SameConnections@Answered();
    }

    /** The rest of handle_readable: answer, close, or wait for more. */
    method AfterReading(fd: nat, response: string) returns (routed: Option<(HttpRequest, string, nat)>)
      requires Valid() && fd in connections
      modifies this, connections[fd]
      ensures Valid()
      ensures var v := old(Value());
              var c := v.conns[fd];
              if c.state == WRITING then
                Value() == Server(v.conns[fd := Queue(c, response)], v.interest[fd := POLLOUT])
                && routed == Some((c.parser.request, c.ip, c.port))
              else routed == None && Value() == if c.state == CLOSED then Remove(v, fd) else v
    {
      routed := None;
      var conn := connections[fd];
      if conn.state == WRITING {
        routed := Some((conn.parser.request, conn.ip, conn.port));
        Respond(fd, response);
      } else if conn.state == CLOSED {
        RemoveConnection(fd);
      }
    }

    method Readable(fd: nat, sock: Socket, response: string) returns (routed: Option<(HttpRequest, string, nat)>)
      requires Valid()
      modifies Repr(), sock
      ensures Valid()
      ensures var r := HandleReadable(old(Value()), fd, old(sock.incoming), response, stoul);
              Value() == r.0 && routed == r.1.routed && sock.received == old(sock.received) + r.1.got
      ensures sock.sent == old(sock.sent)
    {
      hide OnReadable, HgConnection.Value, Apart, Queue, Remove;
      if fd !in connections {
        return None;
      }
      ghost var v := Value();
      ghost var c := OnReadable(v.conns[fd], sock.incoming, stoul).c;
      ReadFrom(fd, sock);
      assert Value() == v.(conns := v.conns[fd := c]);
      RemoveForgets(v, fd, c);
      routed := AfterReading(fd, response);
    }

    method Writable(fd: nat, sock: Socket)
      requires Valid()
      modifies Repr(), sock
      ensures Valid()
      ensures var r := HandleWritable(old(Value()), fd, old(sock.room));
              Value() == r.0 && sock.sent == old(sock.sent) + r.1.sent
      ensures sock.received == old(sock.received)
    {
      hide OnWritable, Apart;
      if fd !in connections {
        return;
      }
      ghost var v := Value();
      ghost var c := OnWritable(v.conns[fd], sock.room).c;
      RemoveForgets(v, fd, c);
      WriteTo(fd, sock);
      if connections[fd].state == CLOSED {
        RemoveConnection(fd);
      }
    }

    /** The dispatch of one event that epoll_wait reports: input is looked at first. */
    method Dispatch(fd: nat, pollin: bool, pollout: bool, sock: Socket, response: string)
      returns (routed: Option<(HttpRequest, string, nat)>)
      requires Valid()
      modifies Repr(), sock
      ensures Valid()
      ensures var e := Ready(fd, pollin, pollout, old(sock.incoming), old(sock.room), response);
              var r := Take(old(Value()), e, stoul);
              && Value() == r.0 && routed == r.1.routed
              && sock.received == old(sock.received) + r.1.got && sock.sent == old(sock.sent) + r.1.sent
    {
      routed := None;
      if pollin {
        routed := Readable(fd, sock, response);
      } else if pollout {
        Writable(fd, sock);
      }
    }
  }

  // ----- runs -----------------------------------------------------------------------------

  datatype Event =
    | Connect(fd: nat, ip: string, port: nat)
    | Ready(fd: nat, pollin: bool, pollout: bool, incoming: seq<Read>, room: seq<Write>, response: string)

  ghost predicate OffsetsFit(s: Server) {
    forall fd | fd in s.conns :: s.conns[fd].writeOffset <= |s.conns[fd].writeBuf|
  }

  function Take(s: Server, e: Event, stoul: Stoul): (r: (Server, Effect))
    requires OffsetsFit(s)
    ensures OffsetsFit(r.0)
  {
    match e
    case Connect(fd, ip, port) => (Accept(s, fd, ip, port), NOTHING)
    case Ready(fd, pollin, pollout, incoming, room, response) =>
      if pollin then HandleReadable(s, fd, incoming, response, stoul)
      else if pollout then HandleWritable(s, fd, room)
      else (s, NOTHING)
  }

  function Run(events: seq<Event>, stoul: Stoul): (s: Server)
    ensures OffsetsFit(s)
  {
    if |events| == 0 then EMPTY else Take(Run(events[..|events| - 1], stoul), events[|events| - 1], stoul).0
  }

  /** What the kernel reports: a new connection's descriptor is not open, and readiness is
      reported only for what the descriptor is registered for. */
  predicate KernelKeeps(s: Server, e: Event) {
    match e
    case Connect(fd, _, _) => fd !in s.conns
    case Ready(fd, pollin, pollout, _, _, _) =>
      fd in s.interest ==> (pollin ==> s.interest[fd] == POLLIN) && (pollout ==> s.interest[fd] == POLLOUT)
  }

  ghost predicate KernelKept(events: seq<Event>, stoul: Stoul) {
    forall i | 0 <= i < |events| :: KernelKeeps(Run(events[..i], stoul), events[i])
  }

  /** What happened on a descriptor since it was last accepted. */
  datatype Life = Life(ip: string, port: nat, got: string, routed: seq<(HttpRequest, string, nat)>, response: string,
                       sent: string, failed: bool)

  const UNBORN := Life("", 0, "", [], "", "", false)

  function LifeAfter(l: Life, e: Event, did: Effect, fd: nat): Life {
    if e.fd != fd then l
    else if e.Connect? then Life(e.ip, e.port, "", [], "", "", false)
    else
      l.(got := l.got + did.got, sent := l.sent + did.sent, failed := l.failed || did.failed,
         routed := l.routed + if did.routed.Some? then [did.routed.value] else [],
         response := if did.routed.Some? then e.response else l.response)
  }

  function LifeOf(events: seq<Event>, fd: nat, stoul: Stoul): Life {
    if |events| == 0 then UNBORN
    else
      var n := |events| - 1;
      LifeAfter(LifeOf(events[..n], fd, stoul), events[n], Take(Run(events[..n], stoul), events[n], stoul).1, fd)
  }

  /** A registered connection either reads, unanswered, or writes the answer to its one request. */
  predicate OpenOk(s: Server, fd: nat, l: Life, stoul: Stoul)
    requires fd in s.conns
  {
    var c := s.conns[fd];
    && fd in s.interest && c.ip == l.ip && c.port == l.port && !l.failed
    && c.parser == Drive(Append(FRESH, l.got), stoul)
    && match c.state
       case READING =>
         s.interest[fd] == POLLIN && c.parser.state !in {COMPLETE, ERROR} && l.routed == [] && l.sent == ""
       case WRITING =>
         && s.interest[fd] == POLLOUT && c.parser.state == COMPLETE && l.routed == [(c.parser.request, l.ip, l.port)]
         && c.writeBuf == l.response && c.writeOffset <= |c.writeBuf| && l.sent == l.response[..c.writeOffset]
       case CLOSED => false
  }

  /** A closed descriptor routed at most one request, the one its bytes spell; sent a part of its
      response from the start; and sent all of it unless a write failed. */
  predicate ClosedOk(l: Life, stoul: Stoul) {
    if l.routed == [] then l.sent == ""
    else
      var p := Drive(Append(FRESH, l.got), stoul);
      && p.state == COMPLETE && l.routed == [(p.request, l.ip, l.port)] && l.sent <= l.response
      && (!l.failed ==> l.sent == l.response)
  }

  predicate LifeOk(s: Server, fd: nat, l: Life, stoul: Stoul) {
    if fd in s.conns then OpenOk(s, fd, l, stoul) else fd !in s.interest && ClosedOk(l, stoul)
  }

  lemma ReadableKeeps(s: Server, e: Event, l: Life, stoul: Stoul)
    requires OffsetsFit(s) && e.Ready? && e.pollin && e.fd in s.conns && OpenOk(s, e.fd, l, stoul) && KernelKeeps(s, e)
    ensures var r := HandleReadable(s, e.fd, e.incoming, e.response, stoul);
            LifeOk(r.0, e.fd, LifeAfter(l, e, r.1, e.fd), stoul)
  {
    hide Drive, Turn, OnReadable;
    var c := s.conns[e.fd];
    ReadsAreOneFeed(c, e.incoming, stoul);
    var r := OnReadable(c, e.incoming, stoul);
    DriveAppended(Append(FRESH, l.got), r.got, stoul);
    assert Append(Append(FRESH, l.got), r.got) == Append(FRESH, l.got + r.got);
    assert l.sent + "" == l.sent;
    assert l.routed + [] == l.routed;
  }

  lemma WritableKeeps(s: Server, e: Event, l: Life, stoul: Stoul)
    requires OffsetsFit(s) && e.Ready? && e.pollout && e.fd in s.conns && OpenOk(s, e.fd, l, stoul) && KernelKeeps(s, e)
    ensures var r := HandleWritable(s, e.fd, e.room);
            LifeOk(r.0, e.fd, LifeAfter(l, e, r.1, e.fd), stoul)
  {
    hide Drive, Turn, OnWritable;
    var c := s.conns[e.fd];
    WritesAreInOrder(c, e.room);
    assert l.got + "" == l.got;
    assert l.routed + [] == l.routed;
  }

  lemma LifeStep(s: Server, e: Event, fd: nat, l: Life, stoul: Stoul)
    requires OffsetsFit(s) && LifeOk(s, fd, l, stoul) && KernelKeeps(s, e)
    ensures var r := Take(s, e, stoul);
            LifeOk(r.0, fd, LifeAfter(l, e, r.1, fd), stoul)
  {
    hide Drive, Turn, OnReadable, OnWritable;
    if e.fd != fd {
    } else if e.Connect? {
      assert Append(FRESH, "") == FRESH;
      FreshIsQuiet(stoul);
    } else if fd in s.conns && e.pollin {
      ReadableKeeps(s, e, l, stoul);
    } else if fd in s.conns && e.pollout {
      WritableKeeps(s, e, l, stoul);
    } else {
      assert LifeAfter(l, e, NOTHING, fd) == l;
    }
  }

  lemma FreshIsQuiet(stoul: Stoul)
    ensures Drive(FRESH, stoul) == FRESH
  {
    Quiet(FRESH, stoul);
  }

  lemma ClosedFromTheStart(stoul: Stoul)
    ensures ClosedOk(UNBORN, stoul)
  {
  }

  /** The peer's address and port are those of the accept. */
  lemma {:induction false} PeerOfAccept(events: seq<Event>, fd: nat, ip: string, port: nat, at: nat, stoul: Stoul)
    requires at < |events| && events[at] == Connect(fd, ip, port)
    requires forall i | at < i < |events| :: !(events[i].Connect? && events[i].fd == fd)
    ensures LifeOf(events, fd, stoul).ip == ip && LifeOf(events, fd, stoul).port == port
  {
    hide Take, Run;
    if at < |events| - 1 {
      PeerOfAccept(events[..|events| - 1], fd, ip, port, at, stoul);
    }
  }

  /** Exactly once, for every schedule of accepts, readiness, partial reads and short writes: on
      every descriptor, since its accept, route was called at most once, with the peer's address and
      port and the request that one feed of all the received bytes yields; what was sent is a
      beginning of that call's response; and a connection that is gone without a write error has sent
      all of it. READING goes with POLLIN and WRITING with POLLOUT. */
  lemma {:induction false} ExactlyOnce(events: seq<Event>, fd: nat, stoul: Stoul)
    requires KernelKept(events, stoul)
    ensures LifeOk(Run(events, stoul), fd, LifeOf(events, fd, stoul), stoul)
  {
    hide Take, LifeOk, KernelKeeps, LifeAfter, Drive, Turn;
    if |events| == 0 {
      ClosedFromTheStart(stoul);
      assert LifeOk(EMPTY, fd, UNBORN, stoul) by { EmptyOk(fd, stoul); }
    } else {
      var n := |events| - 1;
      assert KernelKept(events[..n], stoul) by { KeptPrefix(events, stoul); }
      ExactlyOnce(events[..n], fd, stoul);
      LifeStep(Run(events[..n], stoul), events[n], fd, LifeOf(events[..n], fd, stoul), stoul);
    }
  }

  lemma EmptyOk(fd: nat, stoul: Stoul)
    ensures LifeOk(EMPTY, fd, UNBORN, stoul)
  {
  }

  lemma KeptPrefix(events: seq<Event>, stoul: Stoul)
    requires KernelKept(events, stoul) && |events| > 0
    ensures KernelKept(events[..|events| - 1], stoul)
  {
    hide KernelKeeps, Run;
    var before := events[..|events| - 1];
    forall i | 0 <= i < |before|
      ensures KernelKeeps(Run(before[..i], stoul), before[i])
    {
      assert before[..i] == events[..i];
    }
  }

  /** In terms of messages: what is routed is a well-formed message at the start of the received
      bytes, whatever bytes followed it; and a connection that still reads has received none. */
  lemma RoutedIsTheMessage(events: seq<Event>, fd: nat, m: Message, rest: string, stoul: Stoul)
    requires KernelKept(events, stoul) && WellFormed(m, stoul)
    requires LifeOf(events, fd, stoul).got == Wire(m) + rest
    ensures var s, l := Run(events, stoul), LifeOf(events, fd, stoul);
            && (l.routed != [] ==> l.routed == [(RequestOf(m), l.ip, l.port)])
            && (fd in s.conns ==> s.conns[fd].state == WRITING && l.routed == [(RequestOf(m), l.ip, l.port)])
  {
    hide Run, LifeOf, Drive, Turn, WellFormed, Wire;
    ExactlyOnce(events, fd, stoul);
    RoundTrip(m, rest, stoul);
  }

  /** The registration matters: readable input reported for a connection that already writes calls
      route again, and starts the response over, unless the read fails or the peer has closed. */
  lemma MisdeliveryRoutesAgain(s: Server, fd: nat, incoming: seq<Read>, response: string, stoul: Stoul)
    requires fd in s.conns && s.conns[fd].state == WRITING && s.conns[fd].parser.state == COMPLETE
    ensures var r := HandleReadable(s, fd, incoming, response, stoul);
            && (r.1.routed.Some? <==> !(incoming != [] && incoming[0] in {Eof, ReadError}))
            && (r.1.routed.Some? ==> r.0.conns[fd].writeOffset == 0)
  {
    if incoming != [] && incoming[0].Data? {
      Quiet(Append(s.conns[fd].parser, incoming[0].bytes), stoul);
    }
  }
}
