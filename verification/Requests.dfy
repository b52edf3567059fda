/** Reading one request from a client socket into the fixed buffer, whatever way it arrives. */
module Requests {
  import opened Common
  import opened Strings
  import opened Targets

  const MAX_BUFFER: nat := 8192
  const MAX_HEADERS: nat := 32

  const OK: int := 0
  const ERROR: int := -1
  const CLOSE_CONNECTION: int := -2
  const BAD_REQUEST: int := -3
  const REQUEST_TOO_LONG: int := -4
  const NOT_FOUND: int := -5

  // ---------- the client ----------

  /**
   What the next read() meets: some bytes (perhaps more than it takes), a signal, the receive timeout, or an error.
   */
  datatype Event = Data(bytes: seq<char>) | Interrupted | TimedOut | Failed

  datatype Received = Got(data: seq<char>) | Eintr | Again | Failure | Closed

  /** How the bytes end: after the last event the peer has closed the connection. */
  datatype Ending = ByTimeout | ByFailure | ByClose

  function Bytes(events: seq<Event>): seq<char> {
    if events == [] || events[0].TimedOut? || events[0].Failed? then []
    else if events[0].Interrupted? then Bytes(events[1..])
    else events[0].bytes + Bytes(events[1..])
  }

  function EndingOf(events: seq<Event>): Ending {
    if events == [] then ByClose
    else if events[0].TimedOut? then ByTimeout
    else if events[0].Failed? then ByFailure
    else EndingOf(events[1..])
  }

  function Weight(events: seq<Event>): nat {
    if events == [] then 0 else 1 + (if events[0].Data? then |events[0].bytes| else 0) + Weight(events[1..])
  }

  ghost predicate ValidEvents(events: seq<Event>) {
    forall i :: 0 <= i < |events| && events[i].Data? ==> events[i].bytes != []
  }

  /** One read() of at most count bytes: what it returns, and the events still to come. */
  function ReadOf(events: seq<Event>, count: nat): (r: (Received, seq<Event>))
    requires count > 0
    ensures events != [] ==> Weight(r.1) < Weight(events)
  {
    if events == [] then (Closed, [])
    else match events[0]
      case Data(bytes) =>
        if |bytes| <= count then (Got(bytes), events[1..])
        else (Got(bytes[..count]), [Data(bytes[count..])] + events[1..])
      case Interrupted => (Eintr, events[1..])
      case TimedOut => (Again, events[1..])
      case Failed => (Failure, events[1..])
  }

  /** read() again for as long as a signal interrupts it. */
  function ReadThrough(events: seq<Event>, count: nat): (r: (Received, seq<Event>))
    requires count > 0
    ensures !r.0.Eintr? && (r.0.Got? ==> |r.0.data| <= count && Weight(r.1) < Weight(events))
    decreases Weight(events)
  {
    var (received, rest) := ReadOf(events, count);
    if received.Eintr? then ReadThrough(rest, count) else (received, rest)
  }

  lemma TailIsValid(events: seq<Event>)
    requires events != [] && ValidEvents(events)
    ensures ValidEvents(events[1..]) && (events[0].Data? ==> events[0].bytes != [])
  {
    forall i | 0 <= i < |events[1..]| && events[1..][i].Data?
      ensures events[1..][i].bytes != []
    {
      assert events[1..][i] == events[i + 1];
    }
  }

  /** A read that takes only part of what is there. */
  lemma {:induction false} SplitRead(bytes: seq<char>, tail: seq<Event>, count: nat)
    requires 0 < count < |bytes| && ValidEvents(tail)
    ensures var rest := [Data(bytes[count..])] + tail;
      && ValidEvents(rest) && EndingOf(rest) == EndingOf(tail)
      && bytes + Bytes(tail) == bytes[..count] + Bytes(rest)
  {
    var rest := [Data(bytes[count..])] + tail;
    assert rest[1..] == tail;
    assert bytes == bytes[..count] + bytes[count..];
    Regroup(bytes[..count], bytes[count..], Bytes(tail));
  }

  lemma Regroup(a: seq<char>, b: seq<char>, c: seq<char>)
    ensures (a + b) + c == a + (b + c)
  {
  }

  lemma {:induction false} ReadOfTakes(events: seq<Event>, count: nat)
    requires count > 0 && ValidEvents(events)
    ensures var (received, rest) := ReadOf(events, count);
      && ValidEvents(rest)
      && (received.Got? || received.Eintr? ==> EndingOf(rest) == EndingOf(events))
      && (received.Got? ==> received.data != [] && Bytes(events) == received.data + Bytes(rest))
      && (received.Eintr? ==> Bytes(rest) == Bytes(events))
      && (!received.Got? && !received.Eintr? ==>
            && Bytes(events) == []
            && EndingOf(events) ==
                 (if received.Again? then ByTimeout else if received.Failure? then ByFailure else ByClose))
  {
    if events == [] {
    } else {
      TailIsValid(events);
      if events[0].Data? && |events[0].bytes| > count {
        SplitRead(events[0].bytes, events[1..], count);
      }
    }
  }

  /** Bytes are taken in order and none is lost; otherwise the stream really ended, in the way reported. */
  lemma {:induction false} ReadThroughTakes(events: seq<Event>, count: nat)
    requires count > 0 && ValidEvents(events)
    ensures var (received, rest) := ReadThrough(events, count);
      && ValidEvents(rest)
      && (received.Got? ==>
            received.data != [] && Bytes(events) == received.data + Bytes(rest) && EndingOf(rest) == EndingOf(events))
      && (!received.Got? ==>
            && Bytes(events) == []
            && EndingOf(events) ==
                 (if received.Again? then ByTimeout else if received.Failure? then ByFailure else ByClose))
    decreases Weight(events)
  {
    ReadOfTakes(events, count);
    if ReadOf(events, count).0.Eintr? {
      ReadThroughTakes(ReadOf(events, count).1, count);
    }
  }

  class Client {
    var events: seq<Event>

    constructor (events: seq<Event>)
      ensures this.events == events
    {
      this.events := events;
    }

    ghost predicate Valid()
      reads this
    {
      ValidEvents(events)
    }

    /** read() into free space; asking for no bytes at all would look like the end of the connection. */
    method Read(count: nat) returns (r: Received)
      requires Valid() && count > 0
      modifies this
      ensures Valid() && (r, events) == ReadOf(old(events), count)
    {
      ReadOfTakes(events, count);
      if events == [] {
        return Closed;
      }
      var e, tail := events[0], events[1..];
      match e
      case Data(bytes) =>
        var k := Min(count, |bytes|);
        assert bytes[..|bytes|] == bytes;
        r := Got(bytes[..k]);
        events := if k == |bytes| then tail else [Data(bytes[k..])] + tail;
      case Interrupted => r := Eintr; events := tail;
      case TimedOut => r := Again; events := tail;
      case Failed => r := Failure; events := tail;
    }

    /** The inner loop of request_process. */
    method ReadUninterrupted(count: nat) returns (r: Received)
      requires Valid() && count > 0
      modifies this
      ensures Valid() && (r, events) == ReadThrough(old(events), count)
    {
      r := Eintr;
      while r.Eintr?
        invariant Valid()
        invariant ReadThrough(old(events), count) == if r.Eintr? then ReadThrough(events, count) else (r, events)
        decreases Weight(events), r.Eintr?
      {
        r := Read(count);
      }
    }
  }

  // ---------- the parser and the loop around it ----------

  datatype Header = Header(name: seq<char>, value: seq<char>)

  datatype Parsed = Parsed(method_: seq<char>, target: seq<char>, headers: seq<Header>)

  datatype Verdict = Complete(parsed: Parsed) | Malformed | Partial

  /**
   phr_parse_request on the bytes buffered so far, with the room for headers it is offered and the number of bytes an
   earlier attempt has seen: its verdict, and the number of headers it leaves in num_headers.
   */
  type Parser = (seq<char>, nat, nat) -> (Verdict, nat)

  /** A complete request has a target. */
  ghost predicate GivesTargets(parser: Parser) {
    forall bytes: seq<char>, limit: nat, seen: nat ::
      parser(bytes, limit, seen).0.Complete? ==> parser(bytes, limit, seen).0.parsed.target != []
  }

  /** How the read loop ends: its result, the last verdict, the bytes buffered, the events still to come. */
  datatype LoopEnd = LoopEnd(code: int, verdict: Verdict, buffer: seq<char>, rest: seq<Event>)

  /** The connection stays open after this result of request_process. */
  predicate Arrived(code: int) {
    code == OK || code == BAD_REQUEST || code == REQUEST_TOO_LONG
  }

  /** The loop from p buffered and limit in num_headers; num_headers is handed from one attempt to the next. */
  function RunLoop(parser: Parser, p: seq<char>, limit: nat, events: seq<Event>): (e: LoopEnd)
    requires |p| < MAX_BUFFER
    ensures e.code == OK <==> e.verdict.Complete?
    ensures |e.buffer| <= MAX_BUFFER
    ensures Arrived(e.code) ==> Weight(e.rest) < Weight(events)
    ensures Arrived(e.code) || e.code == ERROR || e.code == CLOSE_CONNECTION
    decreases Weight(events)
  {
    var (received, rest) := ReadThrough(events, MAX_BUFFER - |p|);
    if !received.Got? then
      LoopEnd(if received.Failure? then ERROR else CLOSE_CONNECTION, Partial, p, rest)
    else
      var q := p + received.data;
      var (verdict, count) := parser(q, limit, |p|);
      match verdict
      case Complete(_) => LoopEnd(OK, verdict, q, rest)
      case Malformed => LoopEnd(BAD_REQUEST, verdict, q, rest)
      case Partial =>
        if |q| == MAX_BUFFER then LoopEnd(REQUEST_TOO_LONG, verdict, q, rest) else RunLoop(parser, q, count, rest)
  }

  /** The loop of request_process on these events. */
  function LoopOf(parser: Parser, events: seq<Event>): LoopEnd {
    RunLoop(parser, [], MAX_HEADERS, events)
  }

  /** The result of request_process on these events. */
  function CodeOf(parser: Parser, events: seq<Event>): int {
    var e := LoopOf(parser, events);
    if e.code == OK && HasDotDot(e.verdict.parsed.target) then BAD_REQUEST else e.code
  }

  /**
   From p buffered and these events to the end e: what is buffered and what is left is the stream; and if no request
   arrived, everything is buffered, and the result tells how the stream ended.
   */
  ghost predicate Conserves(p: seq<char>, events: seq<Event>, e: LoopEnd) {
    && ValidEvents(e.rest) && p <= e.buffer
    && (Arrived(e.code) ==> e.buffer + Bytes(e.rest) == p + Bytes(events) && EndingOf(e.rest) == EndingOf(events))
    && (!Arrived(e.code) ==>
          e.buffer == p + Bytes(events)
            && e.code == (if EndingOf(events) == ByFailure then ERROR else CLOSE_CONNECTION))
  }

  lemma {:induction false} ConservesMore(p: seq<char>, data: seq<char>, rest: seq<Event>, events: seq<Event>,
                                         e: LoopEnd)
    requires Bytes(events) == data + Bytes(rest) && EndingOf(rest) == EndingOf(events) && Conserves(p + data, rest, e)
    ensures Conserves(p, events, e)
  {
    Regroup(p, data, Bytes(rest));
    assert p <= p + data;
  }

  /** Whatever the parser says, no byte is lost or repeated between the buffer and what is left of the stream. */
  lemma {:induction false} LoopTakes(parser: Parser, p: seq<char>, limit: nat, events: seq<Event>)
    requires |p| < MAX_BUFFER && ValidEvents(events)
    ensures Conserves(p, events, RunLoop(parser, p, limit, events))
    decreases Weight(events)
  {
    ReadThroughTakes(events, MAX_BUFFER - |p|);
    var (received, rest) := ReadThrough(events, MAX_BUFFER - |p|);
    var e := RunLoop(parser, p, limit, events);
    if received.Got? {
      var q := p + received.data;
      if parser(q, limit, |p|).0 == Partial && |q| < MAX_BUFFER {
        LoopTakes(parser, q, parser(q, limit, |p|).1, rest);
      } else {
        assert Conserves(q, rest, e);
      }
      ConservesMore(p, received.data, rest, events, e);
    } else {
      assert p + Bytes(events) == p;
    }
  }

  /** The value of the first header with exactly this name. */
  function FirstHeader(headers: seq<Header>, name: seq<char>): Option<seq<char>> {
    if headers == [] then None
    else if headers[0].name == name then Some(headers[0].value)
    else FirstHeader(headers[1..], name)
  }

  lemma {:induction false} FirstHeaderIsFirst(headers: seq<Header>, name: seq<char>)
    ensures FirstHeader(headers, name).None? <==> forall i :: 0 <= i < |headers| ==> headers[i].name != name
    ensures FirstHeader(headers, name).Some? ==>
      exists i: nat :: IsFirst(headers, name, i) && FirstHeader(headers, name).value == headers[i].value
  {
    if headers == [] {
    } else if headers[0].name == name {
      assert IsFirst(headers, name, 0);
    } else {
      FirstHeaderIsFirst(headers[1..], name);
      if FirstHeader(headers, name).Some? {
        var i: nat :| IsFirst(headers[1..], name, i) && FirstHeader(headers[1..], name).value == headers[1..][i].value;
        assert IsFirst(headers, name, i + 1);
      }
    }
  }

  ghost predicate IsFirst(headers: seq<Header>, name: seq<char>, i: nat) {
    i < |headers| && headers[i].name == name && forall j :: 0 <= j < i ==> headers[j].name != name
  }

  class Request {
    const buffer: array<char>
    var lenBuffer: nat
    var oldLenBuffer: nat
    var method_: seq<char>
    var path: seq<char>
    var urlArgs: Option<seq<char>>
    var body: seq<char>
    var headers: seq<Header>
    var numHeaders: nat

    constructor ()
      ensures fresh(buffer) && buffer.Length == MAX_BUFFER
    {
      buffer := new char[MAX_BUFFER];
      lenBuffer, oldLenBuffer, numHeaders := 0, 0, 0;
      method_, path, urlArgs, body, headers := [], [], None, [], [];
    }

    method IsRequestValid() returns (valid: bool)
      requires path != []
      ensures valid <==> !HasDotDot(path)
    {
      var i := 0;
      while i < |path| - 1
        invariant 0 <= i <= |path| - 1
        invariant forall j :: 0 <= j < i ==> !(path[j] == '.' && path[j + 1] == '.')
      {
        if path[i] == '.' && path[i + 1] == '.' {
          return false;
        }
        i := i + 1;
      }
      return true;
    }

    /** Splits the target at its first question mark. */
    method ParseUrlArgs()
      modifies this`path, this`urlArgs
      ensures '?' !in path && path == PathOf(old(path))
      ensures old(path) == path + (if urlArgs.Some? then "?" + urlArgs.value else [])
    {
      var i := 0;
      while i < |path|
        invariant 0 <= i <= |path| && path == old(path) && '?' !in path[..i]
      {
        if path[i] == '?' {
          assert path == path[..i] + ("?" + path[i + 1..]);
          PathOfQuery(path[..i], path[i + 1..]);
          assert path[..i] + "?" + path[i + 1..] == path;
          urlArgs := Some(path[i + 1..]);
          path := path[..i];
          return;
        }
        i := i + 1;
      }
      assert path[..|path|] == path;
      PathOfQuery(path, []);
      urlArgs := None;
    }

    /** Copies what a read returned behind the bytes already buffered. */
    method Take(data: seq<char>)
      requires lenBuffer + |data| <= buffer.Length
      modifies this`lenBuffer, this`oldLenBuffer, buffer
      ensures oldLenBuffer == old(lenBuffer) && lenBuffer == old(lenBuffer) + |data|
      ensures buffer[..lenBuffer] == old(buffer[..lenBuffer]) + data
    {
      forall i | 0 <= i < |data| {
        buffer[lenBuffer + i] := data[i];
      }
      oldLenBuffer := lenBuffer;
      lenBuffer := lenBuffer + |data|;
    }

    /**
     The read loop: reads until the parser has a verdict, the buffer is full or the stream ends. No read asks for zero
     bytes, and the buffer never overflows.
     */
    method ReadLoop(parser: Parser, client: Client) returns (code: int, verdict: Verdict)
      requires client.Valid() && buffer.Length == MAX_BUFFER
      modifies this`lenBuffer, this`oldLenBuffer, this`numHeaders, buffer, client
      ensures client.Valid() && lenBuffer <= MAX_BUFFER
      ensures LoopEnd(code, verdict, buffer[..lenBuffer], client.events) == LoopOf(parser, old(client.events))
    {
      lenBuffer, numHeaders, verdict := 0, MAX_HEADERS, Partial;
      assert buffer[..0] == [];
      while true
        invariant client.Valid() && lenBuffer < MAX_BUFFER && verdict == Partial
        invariant RunLoop(parser, buffer[..lenBuffer], numHeaders, client.events) == LoopOf(parser, old(client.events))
        decreases Weight(client.events)
      {
        var ret := client.ReadUninterrupted(MAX_BUFFER - lenBuffer);
        if ret.Again? || ret.Closed? {
          return CLOSE_CONNECTION, verdict;
        } else if ret.Failure? {
          return ERROR, verdict;
        }
        Take(ret.data);
        var judged := parser(buffer[..lenBuffer], numHeaders, oldLenBuffer);
        verdict, numHeaders := judged.0, judged.1;
        if verdict.Complete? {
          return OK, verdict;
        } else if verdict.Malformed? {
          return BAD_REQUEST, verdict;
        } else if lenBuffer == MAX_BUFFER {
          return REQUEST_TOO_LONG, verdict;
        }
      }
    }

    /** What follows the headers in the buffer, to its end; where the headers end is the parser's secret. */
    method ParseBody()
      requires lenBuffer <= buffer.Length
      modifies this`body
      ensures |body| <= lenBuffer && body == buffer[lenBuffer - |body|..lenBuffer]
    {
      var from :| 0 <= from <= lenBuffer;
      body := buffer[from..lenBuffer];
    }

    /** request_process. */
    method Process(parser: Parser, client: Client) returns (code: int)
      requires GivesTargets(parser) && client.Valid() && buffer.Length == MAX_BUFFER
      modifies this, buffer, client
      ensures client.Valid() && lenBuffer <= MAX_BUFFER
      ensures buffer[..lenBuffer] == LoopOf(parser, old(client.events)).buffer
      ensures client.events == LoopOf(parser, old(client.events)).rest
      ensures code == CodeOf(parser, old(client.events))
      ensures code == OK ==>
        var parsed := LoopOf(parser, old(client.events)).verdict.parsed;
        && method_ == parsed.method_ && headers == parsed.headers && path == PathOf(parsed.target)
        && !HasDotDot(parsed.target)
        && parsed.target == path + (if urlArgs.Some? then "?" + urlArgs.value else [])
        && |body| <= lenBuffer && body == buffer[lenBuffer - |body|..lenBuffer]
    {
      var verdict;
      code, verdict := ReadLoop(parser, client);
      if code != OK {
        return;
      }
      TargetGiven(parser, [], MAX_HEADERS, old(client.events));
      method_, path, headers := verdict.parsed.method_, verdict.parsed.target, verdict.parsed.headers;
      var valid := IsRequestValid();
      if valid {
        ParseUrlArgs();
        ParseBody();
        return OK;
      } else {
        return BAD_REQUEST;
      }
    }

    method GetHeader(name: seq<char>) returns (value: Option<seq<char>>)
      requires '\0' !in name
      ensures value == FirstHeader(headers, name)
    {
      CStringOfTerminated(name);
      assert headers[0..] == headers;
      for i := 0 to |headers|
        invariant FirstHeader(headers, name) == FirstHeader(headers[i..], name)
      {
        var same := StringIsEqualTo(headers[i].name, Terminated(name));
        if same {
          return Some(headers[i].value);
        }
      }
      return None;
    }
  }

  lemma {:induction false} TargetGiven(parser: Parser, p: seq<char>, limit: nat, events: seq<Event>)
    requires |p| < MAX_BUFFER && GivesTargets(parser)
    ensures var e := RunLoop(parser, p, limit, events); e.code == OK ==> e.verdict.parsed.target != []
    decreases Weight(events)
  {
    VerdictGiven(parser, p, limit, events);
  }

  /** A complete verdict of the loop is one of the parser's. */
  lemma {:induction false} VerdictGiven(parser: Parser, p: seq<char>, limit: nat, events: seq<Event>)
    requires |p| < MAX_BUFFER
    ensures var e := RunLoop(parser, p, limit, events);
      e.code == OK ==> exists limit': nat, seen: nat :: parser(e.buffer, limit', seen).0 == e.verdict
    decreases Weight(events)
  {
    var (received, rest) := ReadThrough(events, MAX_BUFFER - |p|);
    if received.Got? {
      var q := p + received.data;
      var (verdict, count) := parser(q, limit, |p|);
      if verdict == Partial && |q| < MAX_BUFFER {
        VerdictGiven(parser, q, count, rest);
      } else {
        assert parser(q, limit, |p|).0 == verdict;
      }
    }
  }

  /**
   Validate, split, prefix: for every request that is accepted, whatever its bytes and their cuts, the file lies at or
   below base_path exactly when StaysInside says so, and for an origin-form target always.
   */
  lemma AcceptedRequestsStayInside(parser: Parser, events: seq<Event>, base: seq<char>, dflt: seq<char>)
    requires CodeOf(parser, events) == OK && IsOriginForm(dflt) && !HasDotDot(dflt)
    ensures LoopOf(parser, events).verdict.Complete?
    ensures var target := LoopOf(parser, events).verdict.parsed.target;
      && (IsOriginForm(target) ==> Resolve(base) <= Resolve(Filename(PathOf(target), base, dflt)))
      && (Resolve(base) <= Resolve(Filename(PathOf(target), base, dflt)) <==> StaysInside(PathOf(target), base))
  {
    var target := LoopOf(parser, events).verdict.parsed.target;
    TargetsInsideIff(target, base, dflt);
    if IsOriginForm(target) {
      ServedFilesStayInside(target, base, dflt);
    }
  }
}
