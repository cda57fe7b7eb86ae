/** The incremental HTTP request parser: chunk invariance, and exactly which inputs complete.
    Strings are byte strings; stoul stands for std::stoul, None for its exceptions. */
module Parser {
  import opened Net

  // ----- std::string::find ----------------------------------------------------------------

  predicate Occurs(s: string, i: nat, pat: string) { i + |pat| <= |s| && s[i..i + |pat|] == pat }

  /** The first occurrence of pat at from or later. */
  function Find(s: string, pat: string, from: nat): (r: Option<nat>)
    ensures r.Some? ==>
              from <= r.value && Occurs(s, r.value, pat) && forall i | from <= i < r.value :: !Occurs(s, i, pat)
    ensures r.None? ==> forall i | from <= i :: !Occurs(s, i, pat)
    decreases |s| - from
  {
    if from + |pat| > |s| then None
    else if Occurs(s, from, pat) then Some(from)
    else if from == |s| then None
    else Find(s, pat, from + 1)
  }

  const CRLF: string := "\r\n"
  const SP: string := " "
  const COLON: string := ":"

  // ----- the parser as a value ------------------------------------------------------------

  datatype ParseState = REQUEST_LINE | HEADERS | BODY | COMPLETE | ERROR

  datatype HttpRequest = HttpRequest(verb: string, path: string, version: string,
                                     headers: map<string, string>, body: string, contentLength: nat)

  const NO_REQUEST := HttpRequest("", "", "", map[], "", 0)

  datatype Machine = Machine(state: ParseState, request: HttpRequest, buffer: string)

  const FRESH := Machine(REQUEST_LINE, NO_REQUEST, "")

  type Stoul = string -> Option<nat>

  function Append(p: Machine, data: string): Machine { p.(buffer := p.buffer + data) }

  /** A header's value: one leading space is dropped. */
  function ValueOf(raw: string): string { if raw != "" && raw[0] == ' ' then raw[1..] else raw }

  function RequestLine(p: Machine, line: string): Machine {
    var p1 := Find(line, SP, 0);
    var p2 := if p1.Some? then Find(line, SP, p1.value + 1) else None;
    if p1.None? || p2.None? then p.(state := ERROR)
    else
      p.(state := HEADERS,
         request := p.request.(verb := line[..p1.value], path := line[p1.value + 1..p2.value],
                               version := line[p2.value + 1..]))
  }

  const CONTENT_LENGTH: string := "Content-Length"

  function HeaderLine(p: Machine, line: string, stoul: Stoul): Machine {
    if line == "" then p.(state := if p.request.contentLength > 0 then BODY else COMPLETE)
    else
      var colon := Find(line, COLON, 0);
      if colon.None? then p.(state := ERROR)
      else
        var key, value := line[..colon.value], ValueOf(line[colon.value + 1..]);
        var q := p.(request := p.request.(headers := p.request.headers[key := value]));
        if key != CONTENT_LENGTH then q
        else if stoul(value).None? then q.(state := ERROR)
        else q.(request := q.request.(contentLength := stoul(value).value))
  }

  /** One turn of feed's loop; None when feed returns instead. */
  function Turn(p: Machine, stoul: Stoul): (r: Option<Machine>) {
    match p.state
    case REQUEST_LINE =>
      var pos := Find(p.buffer, CRLF, 0);
      if pos.None? then None
      else Some(RequestLine(p.(buffer := p.buffer[pos.value + 2..]), p.buffer[..pos.value]))
    case HEADERS =>
      var pos := Find(p.buffer, CRLF, 0);
      if pos.None? then None
      else Some(HeaderLine(p.(buffer := p.buffer[pos.value + 2..]), p.buffer[..pos.value], stoul))
    case BODY =>
      var n := p.request.contentLength;
      if |p.buffer| >= n then
        Some(Machine(COMPLETE, p.request.(body := p.buffer[..n]), p.buffer[n..]))
      else None
    case _ => None
  }

  function Rank(st: ParseState): nat {
    match st
    case REQUEST_LINE => 3
    case HEADERS => 2
    case BODY => 1
    case _ => 0
  }

  /** Every turn consumes a prefix of the buffer and moves the measure down. */
  lemma TurnConsumes(p: Machine, stoul: Stoul)
    requires Turn(p, stoul).Some?
    ensures var q := Turn(p, stoul).value;
            && |q.buffer| <= |p.buffer| && q.buffer == p.buffer[|p.buffer| - |q.buffer|..]
            && (|q.buffer| < |p.buffer| || Rank(q.state) < Rank(p.state))
  {
    hide RequestLine, HeaderLine;
    if !p.state.BODY? {
      var pos := Find(p.buffer, CRLF, 0).value;
      LinesLeaveBuffer(p, p.buffer[pos + 2..], p.buffer[..pos], stoul);
    }
  }

  /** Turns until feed returns. */
  function Drive(p: Machine, stoul: Stoul): (q: Machine)
    ensures Turn(q, stoul).None?
    decreases |p.buffer|, Rank(p.state)
  {
    var r := Turn(p, stoul);
    if r.None? then p
    else
      TurnConsumes(p, stoul);
      Drive(r.value, stoul)
  }

  /** The consumed bytes followed by the buffer are always the input. */
  lemma {:induction false} DriveConsumes(p: Machine, stoul: Stoul) returns (consumed: string)
    ensures p.buffer == consumed + Drive(p, stoul).buffer
    decreases |p.buffer|, Rank(p.state)
  {
    hide Turn;
    if Turn(p, stoul).None? {
      consumed := "";
    } else {
      var q := Turn(p, stoul).value;
      TurnConsumes(p, stoul);
      var rest := DriveConsumes(q, stoul);
      var head := p.buffer[..|p.buffer| - |q.buffer|];
      assert p.buffer == head + q.buffer;
      Onward(p, q, stoul);
      hide Drive;
      consumed := head + rest;
      assert head + (rest + Drive(q, stoul).buffer) == consumed + Drive(q, stoul).buffer;
    }
  }

  lemma Quiet(p: Machine, stoul: Stoul)
    requires Turn(p, stoul).None?
    ensures Drive(p, stoul) == p
  {
  }

  lemma Onward(p: Machine, q: Machine, stoul: Stoul)
    requires Turn(p, stoul) == Some(q)
    ensures Drive(p, stoul) == Drive(q, stoul)
  {
    hide Turn;
    TurnConsumes(p, stoul);
  }

  // ----- the parser as the program has it -------------------------------------------------

  class HgParser {
    const stoul: Stoul
    var state: ParseState
    var request: HttpRequest
    var buffer: string

    ghost function Value(): Machine
      reads this
    {
      Machine(state, request, buffer)
    }

    constructor (stoul: Stoul)
      ensures Value() == FRESH && this.stoul == stoul
    {
      this.stoul := stoul;
      state, request, buffer := REQUEST_LINE, NO_REQUEST, "";
    }

    method Reset()
      modifies this
      ensures Value() == FRESH
    {
      state, request, buffer := REQUEST_LINE, NO_REQUEST, "";
    }

    /** Takes the next line off the buffer. */
    method TakeLine() returns (line: Option<string>)
      modifies this`buffer
      ensures var pos := Find(old(buffer), CRLF, 0);
              if pos.None? then line == None && buffer == old(buffer)
              else line == Some(old(buffer)[..pos.value]) && buffer == old(buffer)[pos.value + 2..]
    {
      var pos := Find(buffer, CRLF, 0);
      if pos.None? {
        return None;
      }
      line := Some(buffer[..pos.value]);
      buffer := buffer[pos.value + 2..];
    }

    method OnRequestLine(line: string)
      requires state == REQUEST_LINE
      modifies this`state, this`request
      ensures Value() == RequestLine(old(Value()), line)
    {
      var p1 := Find(line, SP, 0);
      if p1.None? {
        state := ERROR;
        return;
      }
      var p2 := Find(line, SP, p1.value + 1);
      if p2.None? {
        state := ERROR;
        return;
      }
      request := request.(verb := line[..p1.value]);
      request := request.(path := line[p1.value + 1..p2.value]);
      request := request.(version := line[p2.value + 1..]);
      state := HEADERS;
    }

    method OnHeaderLine(line: string)
      requires state == HEADERS
      modifies this`state, this`request
      ensures Value() == HeaderLine(old(Value()), line, stoul)
    {
      if line == "" {
        state := if request.contentLength > 0 then BODY else COMPLETE;
        return;
      }
      var colon := Find(line, COLON, 0);
      if colon.None? {
        state := ERROR;
        return;
      }
      var key, value := line[..colon.value], line[colon.value + 1..];
      if value != "" && value[0] == ' ' {
        value := value[1..];
      }
      request := request.(headers := request.headers[key := value]);
      if key == CONTENT_LENGTH {
        var n := stoul(value);
        if n.None? {
          state := ERROR;
          return;
        }
        request := request.(contentLength := n.value);
      }
    }

    method Feed(data: string) returns (ps: ParseState)
      modifies this
      ensures Value() == Drive(Append(old(Value()), data), stoul)
      ensures ps == state
    {
      buffer := buffer + data;
      while true
        invariant Drive(Value(), stoul) == Drive(Append(old(Value()), data), stoul)
        decreases |buffer|, Rank(state)
      {
        ghost var before := Value();
        match state {
          case REQUEST_LINE =>
            var line := TakeLine();
            if line.None? {
              return state;
            }
            OnRequestLine(line.value);
          case HEADERS =>
            var line := TakeLine();
            if line.None? {
              return state;
            }
            OnHeaderLine(line.value);
          case BODY =>
            if |buffer| < request.contentLength {
              return state;
            }
            request := request.(body := buffer[..request.contentLength]);
            buffer := buffer[request.contentLength..];
            state := COMPLETE;
          case _ =>
            return state;
        }
        assert Turn(before, stoul) == Some(Value());
        TurnConsumes(before, stoul);
      }
    }
  }

  // ----- chunk invariance -----------------------------------------------------------------

  lemma OccursAppended(s: string, more: string, i: nat, pat: string)
    requires i + |pat| <= |s|
    ensures Occurs(s + more, i, pat) <==> Occurs(s, i, pat)
  {
    assert (s + more)[i..i + |pat|] == s[i..i + |pat|];
  }

  lemma FindAppended(s: string, more: string, pat: string, from: nat)
    requires Find(s, pat, from).Some?
    ensures Find(s + more, pat, from) == Find(s, pat, from)
  {
    var k := Find(s, pat, from).value;
    OccursAppended(s, more, k, pat);
    forall i | from <= i < k
      ensures !Occurs(s + more, i, pat)
    {
      OccursAppended(s, more, i, pat);
    }
    PinFind(s + more, pat, from, k);
  }

  /** Bytes that have not been reached yet do not change a turn. */
  lemma TurnAppended(p: Machine, more: string, stoul: Stoul)
    requires Turn(p, stoul).Some?
    ensures Turn(Append(p, more), stoul) == Some(Append(Turn(p, stoul).value, more))
  {
    hide RequestLine, HeaderLine;
    if p.state.BODY? {
      var n := p.request.contentLength;
      assert (p.buffer + more)[..n] == p.buffer[..n];
      assert (p.buffer + more)[n..] == p.buffer[n..] + more;
    } else {
      var pos := Find(p.buffer, CRLF, 0).value;
      FindAppended(p.buffer, more, CRLF, 0);
      var line, rest := p.buffer[..pos], p.buffer[pos + 2..];
      assert (p.buffer + more)[..pos] == line;
      assert (p.buffer + more)[pos + 2..] == rest + more;
      if p.state.REQUEST_LINE? {
        LinesLeaveBuffer(p.(buffer := rest), rest + more, line, stoul);
      } else {
        LinesLeaveBuffer(p.(buffer := rest), rest + more, line, stoul);
      }
    }
  }

  lemma LinesLeaveBuffer(p: Machine, buffer: string, line: string, stoul: Stoul)
    ensures RequestLine(p.(buffer := buffer), line) == RequestLine(p, line).(buffer := buffer)
    ensures RequestLine(p, line).buffer == p.buffer
    ensures HeaderLine(p.(buffer := buffer), line, stoul) == HeaderLine(p, line, stoul).(buffer := buffer)
    ensures HeaderLine(p, line, stoul).buffer == p.buffer
  {
  }

  lemma {:induction false} DriveAppended(p: Machine, more: string, stoul: Stoul)
    ensures Drive(Append(p, more), stoul) == Drive(Append(Drive(p, stoul), more), stoul)
    decreases |p.buffer|, Rank(p.state)
  {
    hide Turn;
    if Turn(p, stoul).Some? {
      TurnConsumes(p, stoul);
      TurnAppended(p, more, stoul);
      DriveAppended(Turn(p, stoul).value, more, stoul);
    }
  }

  /** The state after a list of feed calls. */
  function FeedAll(p: Machine, chunks: seq<string>, stoul: Stoul): Machine {
    if chunks == [] then p
    else Drive(Append(FeedAll(p, chunks[..|chunks| - 1], stoul), chunks[|chunks| - 1]), stoul)
  }

  function Concat(chunks: seq<string>): string {
    if chunks == [] then "" else Concat(chunks[..|chunks| - 1]) + chunks[|chunks| - 1]
  }

  /** However a stream is cut into feed calls, and whether or not bytes follow COMPLETE or ERROR,
      the parser ends as after one feed of the whole stream. */
  lemma {:induction false} ChunkInvariance(p: Machine, chunks: seq<string>, stoul: Stoul)
    requires Turn(p, stoul).None?
    ensures FeedAll(p, chunks, stoul) == Drive(Append(p, Concat(chunks)), stoul)
  {
    hide Turn, Drive;
    if chunks == [] {
      assert Append(p, "") == p;
      Quiet(p, stoul);
    } else {
      var n := |chunks| - 1;
      var before := Concat(chunks[..n]);
      ChunkInvariance(p, chunks[..n], stoul);
      DriveAppended(Append(p, before), chunks[n], stoul);
      assert Append(Append(p, before), chunks[n]) == Append(p, Concat(chunks));
    }
  }

  // ----- messages on the wire -------------------------------------------------------------

  /** A header as it stands on its line: the key and everything after the colon. */
  datatype Header = Header(key: string, raw: string)

  datatype Message = Message(verb: string, path: string, version: string, headers: seq<Header>, body: string)

  predicate Free(s: string, pat: string) { Find(s, pat, 0).None? }

  function FirstLine(m: Message): string { m.verb + SP + m.path + SP + m.version }

  function Line(h: Header): string { h.key + COLON + h.raw }

  function HeaderBytes(hs: seq<Header>): string {
    if hs == [] then CRLF else Line(hs[0]) + CRLF + HeaderBytes(hs[1..])
  }

  function Wire(m: Message): string { FirstLine(m) + CRLF + HeaderBytes(m.headers) + m.body }

  /** The declared length after more headers; None once one does not parse. */
  function Declared(n: nat, hs: seq<Header>, stoul: Stoul): Option<nat>
    decreases hs
  {
    if hs == [] then Some(n)
    else if hs[0].key != CONTENT_LENGTH then Declared(n, hs[1..], stoul)
    else
      var v := stoul(ValueOf(hs[0].raw));
      if v.None? then None else Declared(v.value, hs[1..], stoul)
  }

  /** The header map after more headers: the last value of a key wins. */
  function Collected(m: map<string, string>, hs: seq<Header>): map<string, string>
    decreases hs
  {
    if hs == [] then m else Collected(m[hs[0].key := ValueOf(hs[0].raw)], hs[1..])
  }

  predicate GoodHeader(h: Header) { Free(h.key, COLON) && Free(Line(h), CRLF) }

  predicate GoodHeaders(hs: seq<Header>) { forall h | h in hs :: GoodHeader(h) }

  predicate WellFormed(m: Message, stoul: Stoul) {
    && Free(m.verb, SP) && Free(m.path, SP) && Free(FirstLine(m), CRLF)
    && GoodHeaders(m.headers)
    && Declared(0, m.headers, stoul) == Some(|m.body|)
  }

  function RequestOf(m: Message): HttpRequest {
    HttpRequest(m.verb, m.path, m.version, Collected(map[], m.headers), m.body, |m.body|)
  }

  /** The first delimiter after a part free of it is where the part ends. */
  lemma FindAfter(part: string, pat: string, rest: string, from: nat)
    requires |pat| == 1 && from <= |part| && Free(part[from..], pat)
    ensures Find(part + pat + rest, pat, from) == Some(|part|)
  {
    var s := part + pat + rest;
    assert s[|part|..|part| + 1] == pat;
    assert Occurs(s, |part|, pat);
    forall i | from <= i < |part|
      ensures !Occurs(s, i, pat)
    {
      assert s[i..i + 1] == [part[i]] == part[from..][i - from..i - from + 1];
      assert !Occurs(part[from..], i - from, pat);
    }
    PinFind(s, pat, from, |part|);
  }

  lemma PinFind(s: string, pat: string, from: nat, k: nat)
    requires from <= k && Occurs(s, k, pat) && forall i | from <= i < k :: !Occurs(s, i, pat)
    ensures Find(s, pat, from) == Some(k)
  {
    var r := Find(s, pat, from);
    assert r.Some? && !(r.value > k);
  }

  /** A line free of CRLF is found as it stands, even if it ends in a carriage return. */
  lemma FindCrlfAfter(line: string, rest: string)
    requires Free(line, CRLF)
    ensures Find(line + CRLF + rest, CRLF, 0) == Some(|line|)
  {
    var s := line + CRLF + rest;
    assert s[|line|..|line| + 2] == CRLF;
    forall i | 0 <= i < |line|
      ensures !Occurs(s, i, CRLF)
    {
      assert !Occurs(line, i, CRLF);
      if i + 2 <= |line| {
        assert s[i..i + 2] == line[i..i + 2];
      } else {
        assert s[i..i + 2][1] == s[i + 1] == '\r' && CRLF[1] == '\n';
      }
    }
    PinFind(s, CRLF, 0, |line|);
  }

  // ----- every well-formed message completes ----------------------------------------------

  lemma FirstLineParses(p: Machine, m: Message)
    requires Free(m.verb, SP) && Free(m.path, SP)
    ensures RequestLine(p, FirstLine(m)) ==
            p.(state := HEADERS, request := p.request.(verb := m.verb, path := m.path, version := m.version))
  {
    var line := FirstLine(m);
    assert m.verb[0..] == m.verb;
    assert line == m.verb + SP + (m.path + SP + m.version);
    FindAfter(m.verb, SP, m.path + SP + m.version, 0);
    var head := m.verb + SP + m.path;
    assert line == head + SP + m.version;
    assert head[|m.verb| + 1..] == m.path;
    FindAfter(head, SP, m.version, |m.verb| + 1);
  }

  lemma HeaderParses(p: Machine, h: Header, stoul: Stoul)
    requires GoodHeader(h)
    ensures !(h.key == CONTENT_LENGTH && stoul(ValueOf(h.raw)).None?) ==>
              HeaderLine(p, Line(h), stoul) ==
              p.(request := p.request.(headers := p.request.headers[h.key := ValueOf(h.raw)],
                                       contentLength := if h.key == CONTENT_LENGTH then stoul(ValueOf(h.raw)).value
                                                        else p.request.contentLength))
  {
    assert h.key[0..] == h.key;
    FindAfter(h.key, COLON, h.raw, 0);
    var line := Line(h);
    assert line[..|h.key|] == h.key && line[|h.key| + 1..] == h.raw;
  }

  /** What a block of headers followed by a body of the declared length leaves. */
  lemma {:induction false} HeadersParse(p: Machine, hs: seq<Header>, body: string, rest: string, stoul: Stoul)
    requires p.state == HEADERS && p.buffer == HeaderBytes(hs) + body + rest && p.request.body == ""
    requires GoodHeaders(hs) && Declared(p.request.contentLength, hs, stoul) == Some(|body|)
    ensures Drive(p, stoul) ==
            Machine(COMPLETE,
                    p.request.(headers := Collected(p.request.headers, hs), contentLength := |body|, body := body),
                    rest)
    decreases |hs|
  {
    hide HeaderLine, RequestLine;
    if hs == [] {
      BlankLine(p, body, rest, stoul);
    } else {
      var h := hs[0];
      var tail := HeaderBytes(hs[1..]) + body + rest;
      assert p.buffer == Line(h) + CRLF + tail;
      assert GoodHeader(h);
      HeaderParses(p.(buffer := tail), h, stoul);
      TurnOnLine(p, Line(h), tail, stoul);
      var q := HeaderLine(p.(buffer := tail), Line(h), stoul);
      Onward(p, q, stoul);
      HeadersParse(q, hs[1..], body, rest, stoul);
    }
  }

  /** A turn takes exactly the first line. */
  lemma TurnOnLine(p: Machine, line: string, tail: string, stoul: Stoul)
    requires p.buffer == line + CRLF + tail && Free(line, CRLF)
    ensures p.state == REQUEST_LINE ==> Turn(p, stoul) == Some(RequestLine(p.(buffer := tail), line))
    ensures p.state == HEADERS ==> Turn(p, stoul) == Some(HeaderLine(p.(buffer := tail), line, stoul))
  {
    hide RequestLine, HeaderLine;
    FindCrlfAfter(line, tail);
    assert p.buffer[..|line|] == line && p.buffer[|line| + 2..] == tail;
  }

  lemma BlankLine(p: Machine, body: string, rest: string, stoul: Stoul)
    requires p.state == HEADERS && p.buffer == CRLF + body + rest && p.request.body == ""
    requires p.request.contentLength == |body|
    ensures Drive(p, stoul) == Machine(COMPLETE, p.request.(body := body), rest)
  {
    hide RequestLine;
    assert p.buffer == "" + CRLF + (body + rest);
    TurnOnLine(p, "", body + rest, stoul);
    var q := p.(state := if |body| > 0 then BODY else COMPLETE, buffer := body + rest);
    assert Turn(p, stoul) == Some(q);
    Onward(p, q, stoul);
    if |body| > 0 {
      assert (body + rest)[..|body|] == body && (body + rest)[|body|..] == rest;
      Onward(q, Machine(COMPLETE, p.request.(body := body), rest), stoul);
    } else {
      assert body + rest == rest && body == "";
    }
  }

  /** Round trip: a well-formed message followed by anything is parsed back field by field, and
      exactly what follows it stays in the buffer. */
  lemma RoundTrip(m: Message, rest: string, stoul: Stoul)
    requires WellFormed(m, stoul)
    ensures Drive(Append(FRESH, Wire(m) + rest), stoul) == Machine(COMPLETE, RequestOf(m), rest)
  {
    hide RequestLine, HeaderLine, HeaderBytes;
    var p := Append(FRESH, Wire(m) + rest);
    var tail := HeaderBytes(m.headers) + m.body + rest;
    assert p.buffer == FirstLine(m) + CRLF + tail;
    TurnOnLine(p, FirstLine(m), tail, stoul);
    FirstLineParses(p.(buffer := tail), m);
    var q := RequestLine(p.(buffer := tail), FirstLine(m));
    Onward(p, q, stoul);
    HeadersParse(q, m.headers, m.body, rest, stoul);
  }

  /** Likewise for any way to cut the message and what follows it into chunks. */
  lemma RoundTripInChunks(m: Message, rest: string, chunks: seq<string>, stoul: Stoul)
    requires WellFormed(m, stoul) && Concat(chunks) == Wire(m) + rest
    ensures FeedAll(FRESH, chunks, stoul) == Machine(COMPLETE, RequestOf(m), rest)
  {
    ChunkInvariance(FRESH, chunks, stoul);
    RoundTrip(m, rest, stoul);
  }

  ghost predicate LastOfKey(hs: seq<Header>, i: nat)
    requires i < |hs|
  {
    forall j | i < j < |hs| :: hs[j].key != hs[i].key
  }

  /** The header map has the message's keys, each with the last of its values. */
  lemma {:induction false} LastValueWins(m: map<string, string>, hs: seq<Header>)
    ensures forall i | 0 <= i < |hs| && LastOfKey(hs, i) ::
              hs[i].key in Collected(m, hs) && Collected(m, hs)[hs[i].key] == ValueOf(hs[i].raw)
    ensures forall k | k in m && (forall h | h in hs :: h.key != k) ::
              k in Collected(m, hs) && Collected(m, hs)[k] == m[k]
    ensures forall k | k in Collected(m, hs) :: k in m || exists h | h in hs :: h.key == k
    decreases hs
  {
    hide ValueOf;
    if hs != [] {
      LastValueWins(m[hs[0].key := ValueOf(hs[0].raw)], hs[1..]);
      forall i | 0 <= i < |hs| && LastOfKey(hs, i)
        ensures hs[i].key in Collected(m, hs) && Collected(m, hs)[hs[i].key] == ValueOf(hs[i].raw)
      {
        if i > 0 {
          assert hs[i] == hs[1..][i - 1] && LastOfKey(hs[1..], i - 1);
        }
      }
    }
  }

  // ----- nothing else completes -----------------------------------------------------------

  lemma LineSplits(s: string)
    requires Find(s, CRLF, 0).Some?
    ensures var k := Find(s, CRLF, 0).value;
            s == s[..k] + CRLF + s[k + 2..] && Free(s[..k], CRLF)
  {
    var k := Find(s, CRLF, 0).value;
    assert s[k..k + 2] == CRLF;
    forall i: nat
      ensures !Occurs(s[..k], i, CRLF)
    {
      if i + 2 <= k {
        assert s[..k][i..i + 2] == s[i..i + 2];
        assert !Occurs(s, i, CRLF);
      }
    }
  }

  lemma FreeBefore(s: string, pat: string, from: nat)
    requires |pat| == 1 && from <= |s| && Find(s, pat, from).Some?
    ensures var k := Find(s, pat, from).value;
            k < |s| && s == s[..k] + pat + s[k + 1..] && Free(s[from..k], pat)
  {
    var k := Find(s, pat, from).value;
    assert s[k..k + 1] == pat;
    forall i: nat
      ensures !Occurs(s[from..k], i, pat)
    {
      if from + i + 1 <= k {
        assert s[from..k][i..i + 1] == s[from + i..from + i + 1];
        assert !Occurs(s, from + i, pat);
      }
    }
  }

  /** A parser that completes from a state that still reads lines has a line to read. */
  lemma TakesLine(p: Machine, stoul: Stoul) returns (line: string, tail: string)
    requires p.state in {REQUEST_LINE, HEADERS} && Drive(p, stoul).state == COMPLETE
    ensures p.buffer == line + CRLF + tail && Free(line, CRLF)
    ensures var q := if p.state == HEADERS then HeaderLine(p.(buffer := tail), line, stoul)
                     else RequestLine(p.(buffer := tail), line);
            q.state != ERROR && Drive(q, stoul) == Drive(p, stoul)
  {
    hide RequestLine, HeaderLine;
    assert Turn(p, stoul).Some? by {
      if Turn(p, stoul).None? {
        Quiet(p, stoul);
        assert false;
      }
    }
    var pos := Find(p.buffer, CRLF, 0).value;
    LineSplits(p.buffer);
    line, tail := p.buffer[..pos], p.buffer[pos + 2..];
    var q := Turn(p, stoul).value;
    Onward(p, q, stoul);
    if q.state == ERROR {
      Quiet(q, stoul);
      assert false;
    }
  }

  lemma {:induction false} HeadersSound(p: Machine, stoul: Stoul) returns (hs: seq<Header>, body: string)
    requires p.state == HEADERS && p.request.body == "" && Drive(p, stoul).state == COMPLETE
    ensures p.buffer == HeaderBytes(hs) + body + Drive(p, stoul).buffer
    ensures GoodHeaders(hs) && Declared(p.request.contentLength, hs, stoul) == Some(|body|)
    decreases |p.buffer|
  {
    hide HeaderLine, RequestLine, Drive, Turn;
    var line, tail := TakesLine(p, stoul);
    var q := HeaderLine(p.(buffer := tail), line, stoul);
    if line == "" {
      BlankHeaderLine(p.(buffer := tail), stoul);
      hs := [];
      body := BodySound(q, stoul);
    } else {
      var h := HeaderSound(p.(buffer := tail), line, stoul);
      var more, rest := HeadersSound(q, stoul);
      hs, body := [h] + more, rest;
      assert hs[1..] == more;
      assert p.buffer == Line(h) + CRLF + (HeaderBytes(more) + body + Drive(p, stoul).buffer);
    }
  }

  lemma BlankHeaderLine(p: Machine, stoul: Stoul)
    ensures HeaderLine(p, "", stoul) == p.(state := if p.request.contentLength > 0 then BODY else COMPLETE)
  {
  }

  lemma BodySound(q: Machine, stoul: Stoul) returns (body: string)
    requires q.request.body == "" && Drive(q, stoul).state == COMPLETE
    requires q.state == if q.request.contentLength > 0 then BODY else COMPLETE
    ensures q.buffer == body + Drive(q, stoul).buffer && |body| == q.request.contentLength
  {
    body := q.buffer[..q.request.contentLength];
  }

  /** A non-blank line that is no error is a good header, with the effect of one. */
  lemma HeaderSound(p: Machine, line: string, stoul: Stoul) returns (h: Header)
    requires line != "" && Free(line, CRLF) && p.state == HEADERS && HeaderLine(p, line, stoul).state != ERROR
    ensures GoodHeader(h) && line == Line(h)
    ensures var q := HeaderLine(p, line, stoul);
            && q.state == HEADERS && q.buffer == p.buffer && q.request.body == p.request.body
            && (if h.key == CONTENT_LENGTH then stoul(ValueOf(h.raw)) == Some(q.request.contentLength)
                else q.request.contentLength == p.request.contentLength)
  {
    var colon := Find(line, COLON, 0).value;
    FreeBefore(line, COLON, 0);
    h := Header(line[..colon], line[colon + 1..]);
    assert line[0..colon] == line[..colon];
  }

  lemma SplitsInThree(line: string, p1: nat, p2: nat)
    requires p1 < p2 < |line| && line[p1..p1 + 1] == SP && line[p2..p2 + 1] == SP
    ensures line == line[..p1] + SP + line[p1 + 1..p2] + SP + line[p2 + 1..]
  {
    assert line == line[..p1] + line[p1..p1 + 1] + line[p1 + 1..p2] + line[p2..p2 + 1] + line[p2 + 1..];
  }

  lemma FirstLineSound(p: Machine, line: string) returns (m: Message)
    requires p.state != ERROR && RequestLine(p, line).state != ERROR
    ensures Free(m.verb, SP) && Free(m.path, SP) && line == FirstLine(m)
  {
    hide Free;
    var p1 := Find(line, SP, 0).value;
    var p2 := Find(line, SP, p1 + 1).value;
    FreeBefore(line, SP, 0);
    FreeBefore(line, SP, p1 + 1);
    SplitsInThree(line, p1, p2);
    m := Message(line[..p1], line[p1 + 1..p2], line[p2 + 1..], [], "");
    assert line[0..p1] == line[..p1];
  }

  lemma Soundness(input: string, stoul: Stoul) returns (m: Message)
    requires Drive(Append(FRESH, input), stoul).state == COMPLETE
    ensures WellFormed(m, stoul) && input == Wire(m) + Drive(Append(FRESH, input), stoul).buffer
  {
    hide HeaderLine, RequestLine, Drive, Turn, HeaderBytes;
    var p := Append(FRESH, input);
    assert p.buffer == input;
    var line, tail := TakesLine(p, stoul);
    var q := RequestLine(p.(buffer := tail), line);
    m := FirstLineSound(p.(buffer := tail), line);
    FirstLineParses(p.(buffer := tail), m);
    var hs, body := HeadersSound(q, stoul);
    m := m.(headers := hs, body := body);
  }

  /** Exactly which streams complete, in whatever chunks they arrive: those that begin with a
      well-formed message. */
  lemma CompletesIff(input: string, chunks: seq<string>, stoul: Stoul)
    requires Concat(chunks) == input
    ensures FeedAll(FRESH, chunks, stoul).state == COMPLETE <==>
            exists m, rest :: WellFormed(m, stoul) && input == Wire(m) + rest
  {
    ChunkInvariance(FRESH, chunks, stoul);
    if FeedAll(FRESH, chunks, stoul).state == COMPLETE {
      var m := Soundness(input, stoul);
    }
    if m, rest :| WellFormed(m, stoul) && input == Wire(m) + rest {
      RoundTrip(m, rest, stoul);
    }
  }

  // ----- printed requests -----------------------------------------------------------------

  /** A header as a client writes it, with or without the customary space. */
  datatype Field = Field(key: string, value: string, spaced: bool)

  datatype Request = Request(verb: string, path: string, version: string, fields: seq<Field>, body: string)

  function PrintField(f: Field): string { f.key + (if f.spaced then ": " else ":") + f.value }

  function PrintFields(fields: seq<Field>): string {
    if fields == [] then "\r\n" else PrintField(fields[0]) + "\r\n" + PrintFields(fields[1..])
  }

  function Print(q: Request): string {
    q.verb + " " + q.path + " " + q.version + "\r\n" + PrintFields(q.fields) + q.body
  }

  predicate OneLine(s: string) { forall i | 0 <= i < |s| - 1 :: !(s[i] == '\r' && s[i + 1] == '\n') }

  predicate GoodField(f: Field) {
    && ':' !in f.key && OneLine(PrintField(f)) && (!f.spaced ==> f.value == "" || f.value[0] != ' ')
  }

  /** No later field has the key of field i. */
  ghost predicate LastField(fields: seq<Field>, i: nat)
    requires i < |fields|
  {
    forall j | i < j < |fields| :: fields[j].key != fields[i].key
  }

  /** The last Content-Length gives the length of the body. */
  ghost predicate Declares(fields: seq<Field>, length: nat, stoul: Stoul) {
    exists i | 0 <= i < |fields| ::
      fields[i].key == "Content-Length" && LastField(fields, i) && stoul(fields[i].value) == Some(length)
  }

  /** Every Content-Length is a number, and the body is as long as the last one says, or empty without
      one. */
  ghost predicate LengthFits(q: Request, stoul: Stoul) {
    && (forall f | f in q.fields && f.key == "Content-Length" :: stoul(f.value).Some?)
    && (Declares(q.fields, |q.body|, stoul)
        || (q.body == "" && forall f | f in q.fields :: f.key != "Content-Length"))
  }

  ghost predicate GoodRequest(q: Request, stoul: Stoul) {
    && ' ' !in q.verb && ' ' !in q.path && OneLine(q.verb + " " + q.path + " " + q.version)
    && (forall f | f in q.fields :: GoodField(f))
    && LengthFits(q, stoul)
  }

  function AsHeader(f: Field): Header { Header(f.key, (if f.spaced then " " else "") + f.value) }

  function AsHeaders(fields: seq<Field>): seq<Header> {
    seq(|fields|, i requires 0 <= i < |fields| => AsHeader(fields[i]))
  }

  function AsMessage(q: Request): Message { Message(q.verb, q.path, q.version, AsHeaders(q.fields), q.body) }

  lemma FreeOfChar(s: string, c: char)
    requires c !in s
    ensures Free(s, [c])
  {
    forall i: nat
      ensures !Occurs(s, i, [c])
    {
      if i + 1 <= |s| {
        assert s[i..i + 1] == [s[i]];
      }
    }
  }

  lemma FreeOfCrlf(s: string)
    requires OneLine(s)
    ensures Free(s, CRLF)
  {
    forall i: nat
      ensures !Occurs(s, i, CRLF)
    {
      if i + 2 <= |s| {
        assert s[i..i + 2] == [s[i], s[i + 1]];
      }
    }
  }

  lemma FieldIsHeader(f: Field)
    requires GoodField(f)
    ensures GoodHeader(AsHeader(f)) && Line(AsHeader(f)) == PrintField(f) && ValueOf(AsHeader(f).raw) == f.value
  {
    assert Line(AsHeader(f)) == PrintField(f);
    FreeOfChar(f.key, ':');
    FreeOfCrlf(PrintField(f));
    assert (" " + f.value)[1..] == f.value;
    assert "" + f.value == f.value;
  }

  lemma {:induction false} FieldsAreHeaders(fields: seq<Field>)
    requires forall f | f in fields :: GoodField(f)
    ensures PrintFields(fields) == HeaderBytes(AsHeaders(fields)) && GoodHeaders(AsHeaders(fields))
  {
    if fields != [] {
      assert AsHeaders(fields)[1..] == AsHeaders(fields[1..]);
      FieldIsHeader(fields[0]);
      FieldsAreHeaders(fields[1..]);
      assert AsHeaders(fields) == [AsHeader(fields[0])] + AsHeaders(fields[1..]);
    }
  }

  /** The deciding Content-Length is a later field, or the first and the only one. */
  lemma FirstOrLater(fields: seq<Field>, length: nat, stoul: Stoul)
    requires fields != [] && Declares(fields, length, stoul)
    ensures || Declares(fields[1..], length, stoul)
            || (fields[0].key == "Content-Length" && stoul(fields[0].value) == Some(length)
                && forall f | f in fields[1..] :: f.key != "Content-Length")
  {
    var i :| 0 <= i < |fields| && fields[i].key == "Content-Length" && LastField(fields, i)
             && stoul(fields[i].value) == Some(length);
    if i > 0 {
      assert fields[i] == fields[1..][i - 1] && LastField(fields[1..], i - 1);
    }
  }

  lemma DeclaredByFirst(n: nat, fields: seq<Field>, stoul: Stoul)
    requires fields != [] && GoodField(fields[0])
    requires fields[0].key == "Content-Length" ==> stoul(fields[0].value).Some?
    ensures Declared(n, AsHeaders(fields), stoul) ==
            Declared(if fields[0].key == "Content-Length" then stoul(fields[0].value).value else n,
                     AsHeaders(fields[1..]), stoul)
  {
    assert AsHeaders(fields)[1..] == AsHeaders(fields[1..]);
    FieldIsHeader(fields[0]);
    hide ValueOf, GoodField;
  }

  lemma {:induction false} DeclaredByFields(n: nat, fields: seq<Field>, stoul: Stoul)
    requires forall f | f in fields :: GoodField(f)
    requires forall f | f in fields && f.key == "Content-Length" :: stoul(f.value).Some?
    ensures forall length: nat | Declares(fields, length, stoul) ::
              Declared(n, AsHeaders(fields), stoul) == Some(length)
    ensures (forall f | f in fields :: f.key != "Content-Length") ==> Declared(n, AsHeaders(fields), stoul) == Some(n)
    decreases fields
  {
    hide GoodField;
    if fields != [] {
      DeclaredByFirst(n, fields, stoul);
      hide Declared, AsHeaders, Declares;
      var f := fields[0];
      DeclaredByFields(if f.key == "Content-Length" then stoul(f.value).value else n, fields[1..], stoul);
      forall length: nat | Declares(fields, length, stoul)
        ensures Declared(n, AsHeaders(fields), stoul) == Some(length)
      {
        FirstOrLater(fields, length, stoul);
      }
    }
  }

  lemma PrintedIsMessage(q: Request, stoul: Stoul)
    requires GoodRequest(q, stoul)
    ensures Print(q) == Wire(AsMessage(q)) && WellFormed(AsMessage(q), stoul)
  {
    hide AsHeaders, HeaderBytes, PrintFields, Declared, GoodHeaders, GoodField;
    FieldsAreHeaders(q.fields);
    FreeOfChar(q.verb, ' ');
    FreeOfChar(q.path, ' ');
    FreeOfCrlf(q.verb + " " + q.path + " " + q.version);
    DeclaredByFields(0, q.fields, stoul);
  }

  lemma FieldsInMap(fields: seq<Field>)
    requires forall f | f in fields :: GoodField(f)
    ensures var headers := Collected(map[], AsHeaders(fields));
            && (forall i | 0 <= i < |fields| && LastField(fields, i) ::
                  fields[i].key in headers && headers[fields[i].key] == fields[i].value)
            && (forall k | k in headers :: exists f | f in fields :: f.key == k)
  {
    hide Collected, GoodField, ValueOf;
    var hs := AsHeaders(fields);
    LastValueWins(map[], hs);
    forall i | 0 <= i < |fields| && LastField(fields, i)
      ensures fields[i].key in Collected(map[], hs) && Collected(map[], hs)[fields[i].key] == fields[i].value
    {
      assert LastOfKey(hs, i);
      FieldIsHeader(fields[i]);
    }
    forall k | k in Collected(map[], hs)
      ensures exists f | f in fields :: f.key == k
    {
      var h :| h in hs && h.key == k;
      var i :| 0 <= i < |hs| && hs[i] == h;
      assert fields[i].key == k;
    }
  }

  /** Print a request and feed it in any chunks: it completes with the same verb, path, version and
      body, with exactly the value last written for each written key, space or no space, and leaves
      exactly what follows it. */
  lemma PrintedRoundTrip(q: Request, rest: string, chunks: seq<string>, stoul: Stoul)
    requires GoodRequest(q, stoul) && Concat(chunks) == Print(q) + rest
    ensures var p := FeedAll(FRESH, chunks, stoul);
            && p.state == COMPLETE && p.buffer == rest
            && p.request.verb == q.verb && p.request.path == q.path && p.request.version == q.version
            && p.request.body == q.body && p.request.contentLength == |q.body|
            && (forall i | 0 <= i < |q.fields| && LastField(q.fields, i) ::
                  q.fields[i].key in p.request.headers && p.request.headers[q.fields[i].key] == q.fields[i].value)
            && (forall k | k in p.request.headers :: exists f | f in q.fields :: f.key == k)
  {
    PrintedIsMessage(q, stoul);
    FieldsInMap(q.fields);
    hide Print, Wire, WellFormed, FeedAll, Collected, GoodField;
    RoundTripInChunks(AsMessage(q), rest, chunks, stoul);
  }
}
