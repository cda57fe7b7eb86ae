/** Progress of a connection under edge-triggered readiness: every read event takes all that has
    arrived and every write event fills all the room, so once the kernel has reported enough of both
    a well-formed request is answered in full. */
module Progress {
  import opened Parser
  import opened Connection
  import opened Server

  // ----- what the kernel offers in one event ----------------------------------------------

  /** The bytes up to the first result that is not data. */
  function Arriving(incoming: seq<Read>): string {
    if incoming == [] || !incoming[0].Data? then "" else incoming[0].bytes + Arriving(incoming[1..])
  }

  /** The room up to the first result that is not a count. */
  function Room(room: seq<Write>): nat {
    if room == [] || !room[0].Wrote? then 0 else room[0].n + Room(room[1..])
  }

  /** A connection that goes on reading has taken all that arrived; one that stopped took a part from
      the start, and all of it unless the request was complete or wrong. */
  lemma {:induction false} ReadsDrain(c: Conn, incoming: seq<Read>, stoul: Stoul)
    requires c.state == READING
    ensures var r := OnReadable(c, incoming, stoul);
            && r.got <= Arriving(incoming)
            && (r.got == Arriving(incoming) || r.c.parser.state in {COMPLETE, ERROR})
            && (r.c.state == READING ==> r.got == Arriving(incoming))
    decreases incoming
  {
    hide OnReadable, Drive;
    ReadTurn(c, incoming, stoul);
    if incoming != [] && incoming[0].Data? {
      var c' := c.(parser := Drive(Append(c.parser, incoming[0].bytes), stoul));
      ReadsDrain(c', incoming[1..], stoul);
      var more := OnReadable(c', incoming[1..], stoul).got;
      assert more <= Arriving(incoming[1..]) ==> incoming[0].bytes + more <= Arriving(incoming);
      assert incoming[0].bytes <= Arriving(incoming);
    }
  }

  /** A connection that goes on writing has filled all the room, and it was less than the rest of
      the response. */
  lemma {:induction false} WritesFill(c: Conn, room: seq<Write>)
    requires c.state == WRITING && c.writeOffset <= |c.writeBuf|
    ensures var r := OnWritable(c, room);
            r.c.state == WRITING ==> r.c.writeOffset == c.writeOffset + Room(room) < |c.writeBuf|
    decreases room
  {
    hide OnWritable;
    WriteTurn(c, room);
    if c.writeOffset < |c.writeBuf| && room != [] && room[0].Wrote? {
      var end := c.writeOffset + Accepted(c, room[0].n);
      WritesFill(c.(writeOffset := end), room[1..]);
      if end == |c.writeBuf| {
        WriteTurn(c.(writeOffset := end), room[1..]);
      }
    }
  }

  // ----- over runs ------------------------------------------------------------------------

  /** What the kernel has offered on a descriptor since its accept: the bytes its read events
      brought, its write events while the response was out, and the room they had. */
  datatype Offered = Offered(bytes: string, writable: nat, room: nat)

  function OfferedAfter(o: Offered, s: Server, e: Event, fd: nat): Offered {
    if e.fd != fd then o
    else if e.Connect? then Offered("", 0, 0)
    else if fd !in s.conns then o
    else if e.pollin && s.conns[fd].state == READING then o.(bytes := o.bytes + Arriving(e.incoming))
    else if e.pollout && s.conns[fd].state == WRITING then
      o.(writable := o.writable + 1, room := o.room + Room(e.room))
    else o
  }

  function OfferedOf(events: seq<Event>, fd: nat, stoul: Stoul): Offered {
    if |events| == 0 then Offered("", 0, 0)
    else
      var n := |events| - 1;
      OfferedAfter(OfferedOf(events[..n], fd, stoul), Run(events[..n], stoul), events[n], fd)
  }

  /** While it reads, a connection has read all that was offered; while it writes, it has filled all
      the room; and one that closed unanswered had been offered no whole request. */
  predicate Kept(s: Server, fd: nat, l: Life, o: Offered, stoul: Stoul) {
    && l.got <= o.bytes
    && if fd in s.conns then
         var c := s.conns[fd];
         match c.state
         case READING => l.got == o.bytes && o.writable == 0 && o.room == 0
         case WRITING => c.writeOffset == o.room && (o.writable > 0 ==> o.room < |c.writeBuf|)
         case CLOSED => false
       else
         l.routed == [] ==>
           var p := Drive(Append(FRESH, l.got), stoul);
           p.state == ERROR || (l.got == o.bytes && p.state != COMPLETE)
  }

  lemma ReadKeeps(s: Server, e: Event, l: Life, o: Offered, stoul: Stoul)
    requires OffsetsFit(s) && e.Ready? && e.fd in s.conns && e.pollin && KernelKeeps(s, e)
    requires OpenOk(s, e.fd, l, stoul) && Kept(s, e.fd, l, o, stoul)
    ensures var r := HandleReadable(s, e.fd, e.incoming, e.response, stoul);
            Kept(r.0, e.fd, LifeAfter(l, e, r.1, e.fd), OfferedAfter(o, s, e, e.fd), stoul)
  {
    hide Drive, Turn, OnReadable;
    var c := s.conns[e.fd];
    ReadsDrain(c, e.incoming, stoul);
    ReadsAreOneFeed(c, e.incoming, stoul);
    var r := OnReadable(c, e.incoming, stoul);
    DriveAppended(Append(FRESH, l.got), r.got, stoul);
    assert Append(Append(FRESH, l.got), r.got) == Append(FRESH, l.got + r.got);
    assert l.got + r.got <= o.bytes + Arriving(e.incoming);
    assert l.routed + [] == l.routed;
  }

  lemma WriteKeeps(s: Server, e: Event, l: Life, o: Offered, stoul: Stoul)
    requires OffsetsFit(s) && e.Ready? && e.fd in s.conns && !e.pollin && e.pollout && KernelKeeps(s, e)
    requires OpenOk(s, e.fd, l, stoul) && Kept(s, e.fd, l, o, stoul)
    ensures var r := HandleWritable(s, e.fd, e.room);
            Kept(r.0, e.fd, LifeAfter(l, e, r.1, e.fd), OfferedAfter(o, s, e, e.fd), stoul)
  {
    hide Drive, Turn, OnWritable;
    var c := s.conns[e.fd];
    WritesFill(c, e.room);
    WritesAreInOrder(c, e.room);
    assert l.got + "" == l.got;
    assert l.routed + [] == l.routed;
  }

  lemma KeptStep(s: Server, e: Event, fd: nat, l: Life, o: Offered, stoul: Stoul)
    requires OffsetsFit(s) && KernelKeeps(s, e) && LifeOk(s, fd, l, stoul) && Kept(s, fd, l, o, stoul)
    ensures var r := Take(s, e, stoul);
            Kept(r.0, fd, LifeAfter(l, e, r.1, fd), OfferedAfter(o, s, e, fd), stoul)
  {
    hide Drive, Turn, OnReadable, OnWritable;
    if e.fd != fd || e.Connect? {
    } else if fd in s.conns && e.pollin {
      ReadKeeps(s, e, l, o, stoul);
    } else if fd in s.conns && e.pollout {
      WriteKeeps(s, e, l, o, stoul);
    } else {
      assert LifeAfter(l, e, NOTHING, fd) == l;
    }
  }

  lemma NothingOffered(fd: nat, stoul: Stoul)
    ensures Kept(EMPTY, fd, UNBORN, Offered("", 0, 0), stoul)
  {
    assert Append(FRESH, "") == FRESH;
    FreshIsQuiet(stoul);
  }

  lemma {:induction false} KeptRun(events: seq<Event>, fd: nat, stoul: Stoul)
    requires KernelKept(events, stoul)
    ensures Kept(Run(events, stoul), fd, LifeOf(events, fd, stoul), OfferedOf(events, fd, stoul), stoul)
  {
    hide Take, Kept, LifeOk, KernelKeeps, LifeAfter, OfferedAfter, Drive, Turn;
    if |events| == 0 {
      NothingOffered(fd, stoul);
    } else {
      var n := |events| - 1;
      assert KernelKept(events[..n], stoul) by { KeptPrefix(events, stoul); }
      KeptRun(events[..n], fd, stoul);
      ExactlyOnce(events[..n], fd, stoul);
      KeptStep(Run(events[..n], stoul), events[n], fd, LifeOf(events[..n], fd, stoul),
               OfferedOf(events[..n], fd, stoul), stoul);
    }
  }

  /** Once a parser has completed or failed, more bytes change neither its state nor its request. */
  lemma MoreChangesNothing(got: string, all: string, stoul: Stoul)
    requires got <= all && Drive(Append(FRESH, got), stoul).state in {COMPLETE, ERROR}
    ensures var p, q := Drive(Append(FRESH, got), stoul), Drive(Append(FRESH, all), stoul);
            q.state == p.state && q.request == p.request
  {
    var p, more := Drive(Append(FRESH, got), stoul), all[|got|..];
    DriveAppended(Append(FRESH, got), more, stoul);
    assert Append(Append(FRESH, got), more) == Append(FRESH, all);
    Quiet(Append(p, more), stoul);
  }

  /** Progress: when the bytes offered on a descriptor, up to a hang-up if there was one, begin with a
      well-formed message, that message has been routed; and when the write events since had room for
      the whole response, the connection is closed, with the response sent in full unless a write
      failed. */
  lemma AnsweredInFull(events: seq<Event>, fd: nat, m: Message, rest: string, stoul: Stoul)
    requires KernelKept(events, stoul) && WellFormed(m, stoul)
    requires OfferedOf(events, fd, stoul).bytes == Wire(m) + rest
    ensures var s, l, o := Run(events, stoul), LifeOf(events, fd, stoul), OfferedOf(events, fd, stoul);
            && l.routed == [(RequestOf(m), l.ip, l.port)]
            && (o.writable > 0 && o.room >= |l.response| ==> fd !in s.conns)
            && (fd !in s.conns ==> l.failed || l.sent == l.response)
  {
    hide Run, LifeOf, OfferedOf, Drive, Turn, WellFormed, Wire;
    KeptRun(events, fd, stoul);
    ExactlyOnce(events, fd, stoul);
    RoundTrip(m, rest, stoul);
    var l, o := LifeOf(events, fd, stoul), OfferedOf(events, fd, stoul);
    if Drive(Append(FRESH, l.got), stoul).state in {COMPLETE, ERROR} {
      MoreChangesNothing(l.got, o.bytes, stoul);
    }
  }
}
