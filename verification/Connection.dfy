/** One HTTP connection: its read and write loops against a scripted socket. */
module Connection {
  import opened Net
  import opened Parser

  datatype ConnectionState = READING | WRITING | CLOSED

  /** What successive read() and write() calls return. A script that is used up goes on with
      EAGAIN; a write accepts at most what it is offered. */
  datatype Read = Data(bytes: string) | NoData | Eof | ReadError

  datatype Write = Wrote(n: nat) | NoRoom | WriteError

  datatype Conn = Conn(state: ConnectionState, parser: Machine, writeBuf: string, writeOffset: nat,
                       ip: string, port: nat)

  function Opened(ip: string, port: nat): Conn { Conn(READING, FRESH, "", 0, ip, port) }

  // ----- on_readable ----------------------------------------------------------------------

  /** The connection after reading, the bytes it got, and the results it did not ask for. */
  datatype ReadRun = ReadRun(c: Conn, got: string, left: seq<Read>)

  function OnReadable(c: Conn, incoming: seq<Read>, stoul: Stoul): (r: ReadRun)
    ensures r.c == c.(state := r.c.state, parser := r.c.parser)
    decreases incoming
  {
    if incoming == [] then ReadRun(c, "", [])
    else
      match incoming[0]
      case NoData => ReadRun(c, "", incoming[1..])
      case Data(bytes) =>
        var c' := c.(parser := Drive(Append(c.parser, bytes), stoul));
        if c'.parser.state == COMPLETE then ReadRun(c'.(state := WRITING), bytes, incoming[1..])
        else if c'.parser.state == ERROR then ReadRun(c'.(state := CLOSED), bytes, incoming[1..])
        else
          var r := OnReadable(c', incoming[1..], stoul);
          r.(got := bytes + r.got)
      case _ => ReadRun(c.(state := CLOSED), "", incoming[1..])
  }

  /** However the bytes were cut into reads, the parser ends as after one feed of them all, and
      the connection leaves READING on a complete request only to write. */
  lemma {:induction false} ReadsAreOneFeed(c: Conn, incoming: seq<Read>, stoul: Stoul)
    requires c.state == READING && Turn(c.parser, stoul).None? && c.parser.state !in {COMPLETE, ERROR}
    ensures var r := OnReadable(c, incoming, stoul);
            && r.c == c.(state := r.c.state, parser := Drive(Append(c.parser, r.got), stoul))
            && (r.c.state == WRITING <==> r.c.parser.state == COMPLETE)
            && (r.c.parser.state == ERROR ==> r.c.state == CLOSED)
    decreases incoming
  {
    hide Turn, Drive;
    var r := OnReadable(c, incoming, stoul);
    if incoming != [] && incoming[0].Data? {
      var p := Drive(Append(c.parser, incoming[0].bytes), stoul);
      if p.state !in {COMPLETE, ERROR} {
        var r' := OnReadable(c.(parser := p), incoming[1..], stoul);
        ReadsAreOneFeed(c.(parser := p), incoming[1..], stoul);
        DriveAppended(Append(c.parser, incoming[0].bytes), r'.got, stoul);
        assert Append(Append(c.parser, incoming[0].bytes), r'.got) == Append(c.parser, r.got);
      }
    } else {
      assert Append(c.parser, "") == c.parser;
      Quiet(c.parser, stoul);
    }
  }

  /** Which results end the reads, and how: the first that is not data decides, unless the request is
      complete or wrong before it. A hang-up or an error closes; EAGAIN waits. */
  lemma {:induction false} FirstStopDecides(c: Conn, incoming: seq<Read>, stoul: Stoul)
    requires c.state == READING
    ensures var r := OnReadable(c, incoming, stoul);
            (r.c.parser.state in {COMPLETE, ERROR} && r.c.state != READING)
            || r.c.state == (if Stop(incoming) in {Eof, ReadError} then CLOSED else READING)
    decreases incoming
  {
    hide OnReadable, Drive;
    ReadTurn(c, incoming, stoul);
    if incoming != [] && incoming[0].Data? {
      FirstStopDecides(c.(parser := Drive(Append(c.parser, incoming[0].bytes), stoul)), incoming[1..], stoul);
    }
  }

  /** The first result that is not data; EAGAIN when the script is used up. */
  function Stop(incoming: seq<Read>): Read {
    if incoming == [] then NoData else if incoming[0].Data? then Stop(incoming[1..]) else incoming[0]
  }

  // ----- queue_response and on_writable ---------------------------------------------------

  function Queue(c: Conn, response: string): Conn {
    c.(writeBuf := response, writeOffset := 0, state := WRITING)
  }

  datatype WriteRun = WriteRun(c: Conn, sent: string, failed: bool, left: seq<Write>)

  function Accepted(c: Conn, n: nat): nat
    requires c.writeOffset <= |c.writeBuf|
  {
    Min(n, |c.writeBuf| - c.writeOffset)
  }

  function OnWritable(c: Conn, room: seq<Write>): (r: WriteRun)
    requires c.writeOffset <= |c.writeBuf|
    ensures r.c == c.(state := r.c.state, writeOffset := r.c.writeOffset) && r.c.writeOffset <= |c.writeBuf|
    decreases room
  {
    if c.writeOffset == |c.writeBuf| then WriteRun(c.(state := CLOSED), "", false, room)
    else if room == [] then WriteRun(c, "", false, [])
    else
      match room[0]
      case NoRoom => WriteRun(c, "", false, room[1..])
      case WriteError => WriteRun(c.(state := CLOSED), "", true, room[1..])
      case Wrote(n) =>
        var end := c.writeOffset + Accepted(c, n);
        var r := OnWritable(c.(writeOffset := end), room[1..]);
        r.(sent := c.writeBuf[c.writeOffset..end] + r.sent)
  }

  lemma NextPiece(s: string, from: nat, end: nat, rest: string)
    requires from <= end <= |s|
    ensures s[..from] + (s[from..end] + rest) == s[..end] + rest
  {
    assert s[..from] + s[from..end] == s[..end];
    Assoc(s[..from], s[from..end], rest);
  }

  /** Whatever a schedule of short writes sends is the next piece of the response, and only an
      I/O error closes the connection before its end. */
  lemma {:induction false} WritesAreInOrder(c: Conn, room: seq<Write>)
    requires c.state == WRITING && c.writeOffset <= |c.writeBuf|
    ensures var r := OnWritable(c, room);
            && c.writeOffset <= r.c.writeOffset
            && c.writeBuf[..c.writeOffset] + r.sent == c.writeBuf[..r.c.writeOffset]
            && r.c.state in {WRITING, CLOSED}
            && (r.c.state == CLOSED <==> r.failed || r.c.writeOffset == |c.writeBuf|)
    decreases room
  {
    hide OnWritable;
    var from := c.writeOffset;
    WriteTurn(c, room);
    if from < |c.writeBuf| && room != [] && room[0].Wrote? {
      var end := from + Accepted(c, room[0].n);
      WritesAreInOrder(c.(writeOffset := end), room[1..]);
      NextPiece(c.writeBuf, from, end, OnWritable(c.(writeOffset := end), room[1..]).sent);
    } else {
      assert c.writeBuf[..from] + "" == c.writeBuf[..from];
    }
  }

  /** One turn of the read loop. */
  lemma ReadTurn(c: Conn, incoming: seq<Read>, stoul: Stoul)
    ensures var r := OnReadable(c, incoming, stoul);
            if incoming == [] then r == ReadRun(c, "", [])
            else if incoming[0].NoData? then r == ReadRun(c, "", incoming[1..])
            else if !incoming[0].Data? then r == ReadRun(c.(state := CLOSED), "", incoming[1..])
            else
              var c' := c.(parser := Drive(Append(c.parser, incoming[0].bytes), stoul));
              if c'.parser.state == COMPLETE then r == ReadRun(c'.(state := WRITING), incoming[0].bytes, incoming[1..])
              else if c'.parser.state == ERROR then r == ReadRun(c'.(state := CLOSED), incoming[0].bytes, incoming[1..])
              else
                var r' := OnReadable(c', incoming[1..], stoul);
                r == r'.(got := incoming[0].bytes + r'.got)
  {
    hide Drive;
  }

  /** One turn of the write loop. */
  lemma WriteTurn(c: Conn, room: seq<Write>)
    requires c.writeOffset <= |c.writeBuf|
    ensures var r := OnWritable(c, room);
            if c.writeOffset == |c.writeBuf| then r == WriteRun(c.(state := CLOSED), "", false, room)
            else if room == [] then r == WriteRun(c, "", false, [])
            else if room[0].NoRoom? then r == WriteRun(c, "", false, room[1..])
            else if room[0].WriteError? then r == WriteRun(c.(state := CLOSED), "", true, room[1..])
            else
              var end := c.writeOffset + Accepted(c, room[0].n);
              var r' := OnWritable(c.(writeOffset := end), room[1..]);
              r == r'.(sent := c.writeBuf[c.writeOffset..end] + r'.sent)
  {
  }

  lemma Assoc(a: string, b: string, c: string)
    ensures a + (b + c) == (a + b) + c
  {
  }

  lemma Piece(s: string, from: nat, k: nat)
    requires from + k <= |s|
    ensures s[from..][..k] == s[from..from + k]
  {
  }

  /** Which results end the writes before the end of the response, and how: the first that is not a
      count decides. An error closes; EAGAIN waits. At the end nothing fails any more. */
  lemma {:induction false} FirstStallDecides(c: Conn, room: seq<Write>)
    requires c.state == WRITING && c.writeOffset <= |c.writeBuf|
    ensures var r := OnWritable(c, room);
            if r.c.writeOffset == |c.writeBuf| then !r.failed && r.c.state == CLOSED
            else r.failed == (Stall(room) == WriteError) && r.c.state == (if r.failed then CLOSED else WRITING)
    decreases room
  {
    hide OnWritable;
    WriteTurn(c, room);
    if c.writeOffset < |c.writeBuf| && room != [] && room[0].Wrote? {
      FirstStallDecides(c.(writeOffset := c.writeOffset + Accepted(c, room[0].n)), room[1..]);
    }
  }

  /** The first result that is not a count; EAGAIN when the script is used up. */
  function Stall(room: seq<Write>): Write {
    if room == [] then NoRoom else if room[0].Wrote? then Stall(room[1..]) else room[0]
  }

  // ----- the connection as the program has it ---------------------------------------------

  /** The kernel's side of one socket. */
  class Socket {
    var incoming: seq<Read>
    var room: seq<Write>
    var received: string
    var sent: string

    constructor (incoming: seq<Read>, room: seq<Write>)
      ensures this.incoming == incoming && this.room == room && received == "" && sent == ""
    {
      this.incoming, this.room, received, sent := incoming, room, "", "";
    }

    method Recv() returns (r: Read)
      modifies this`incoming, this`received
      ensures r == if old(incoming) == [] then NoData else old(incoming)[0]
      ensures incoming == if old(incoming) == [] then [] else old(incoming)[1..]
      ensures received == old(received) + if r.Data? then r.bytes else ""
    {
      if incoming == [] {
        return NoData;
      }
      r := incoming[0];
      incoming := incoming[1..];
      if r.Data? {
        received := received + r.bytes;
      }
    }

    /** Takes at most the whole of data. */
    method Send(data: string) returns (r: Write)
      modifies this`room, this`sent
      ensures r == if old(room) == [] then NoRoom
                   else if old(room)[0].Wrote? then Wrote(Min(old(room)[0].n, |data|)) else old(room)[0]
      ensures room == if old(room) == [] then [] else old(room)[1..]
      ensures sent == old(sent) + if r.Wrote? then data[..r.n] else ""
    {
      if room == [] {
        return NoRoom;
      }
      r := room[0];
      room := room[1..];
      if r.Wrote? {
        r := Wrote(Min(r.n, |data|));
        sent := sent + data[..r.n];
      }
    }
  }

  class HgConnection {
    const parser: HgParser
    const ip: string
    const port: nat
    var state: ConnectionState
    var writeBuf: string
    var writeOffset: nat

    ghost function Value(): Conn
      reads this, parser
    {
      Conn(state, parser.Value(), writeBuf, writeOffset, ip, port)
    }

    constructor (ip: string, port: nat, stoul: Stoul)
      ensures Value() == Opened(ip, port) && writeOffset == 0
      ensures fresh(parser) && parser.stoul == stoul
    {
      this.ip, this.port := ip, port;
      parser := new HgParser(stoul);
      state, writeBuf, writeOffset := READING, "", 0;
    }

    method Readable(sock: Socket)
      modifies this`state, parser, sock`incoming, sock`received
      ensures var r := OnReadable(old(Value()), old(sock.incoming), parser.stoul);
              Value() == r.c && sock.incoming == r.left && sock.received == old(sock.received) + r.got
    {
      hide OnReadable, Drive;
      ghost var whole := OnReadable(Value(), sock.incoming, parser.stoul);
      while true
        invariant state == old(state) && writeBuf == old(writeBuf) && writeOffset == old(writeOffset)
        invariant var r := OnReadable(Value(), sock.incoming, parser.stoul);
                  whole.c == r.c && whole.left == r.left && sock.received + r.got == old(sock.received) + whole.got
        decreases |sock.incoming|
      {
        ReadTurn(Value(), sock.incoming, parser.stoul);
        ghost var already := sock.received;
        var n := sock.Recv();
        match n {
          case Eof =>
            state := CLOSED;
            return;
          case NoData =>
            return;
          case ReadError =>
            state := CLOSED;
            return;
          case Data(bytes) =>
            var ps := parser.Feed(bytes);
            if ps == COMPLETE {
              state := WRITING;
              return;
            }
            if ps == ERROR {
              state := CLOSED;
              return;
            }
            Assoc(already, bytes, OnReadable(Value(), sock.incoming, parser.stoul).got);
        }
      }
    }

    method Writable(sock: Socket) returns (ghost failed: bool)
      requires writeOffset <= |writeBuf|
      modifies this`state, this`writeOffset, sock`room, sock`sent
      ensures var r := OnWritable(old(Value()), old(sock.room));
              && Value() == r.c && sock.room == r.left && sock.sent == old(sock.sent) + r.sent && failed == r.failed
    {
      hide OnWritable, HgParser.Value;
      failed := false;
      ghost var whole := OnWritable(Value(), sock.room);
      while writeOffset < |writeBuf|
        invariant state == old(state) && writeBuf == old(writeBuf) && writeOffset <= |writeBuf|
        invariant parser.Value() == old(parser.Value())
        invariant var r := OnWritable(Value(), sock.room);
                  && whole.c == r.c && whole.failed == r.failed && whole.left == r.left
                  && sock.sent + r.sent == old(sock.sent) + whole.sent
        decreases |sock.room|
      {
        WriteTurn(Value(), sock.room);
        ghost var already := sock.sent;
        var n := sock.Send(writeBuf[writeOffset..]);
        match n {
          case NoRoom =>
            return;
          case WriteError =>
            state := CLOSED;
            failed := true;
            return;
          case Wrote(k) =>
            ghost var piece := writeBuf[writeOffset..writeOffset + k];
            Piece(writeBuf, writeOffset, k);
            writeOffset := writeOffset + k;
            Assoc(already, piece, OnWritable(Value(), sock.room).sent);
        }
      }
      WriteTurn(Value(), sock.room);
      state := CLOSED;
    }

    method QueueResponse(response: string)
      modifies this
      ensures Value() == Queue(old(Value()), response) && writeOffset == 0
    {
      writeBuf := response;
      writeOffset := 0;
      state := WRITING;
    }
  }
}
