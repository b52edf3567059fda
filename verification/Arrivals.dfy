/** What the way a request arrives in means for it: the read loop against the bytes of the stream. */
module Arrivals {
  import opened Common
  import opened Targets
  import opened Requests

  /** The verdict on these bytes at a first attempt, with room for all headers. */
  function Ideal(parser: Parser, bytes: seq<char>): Verdict {
    parser(bytes, MAX_HEADERS, 0).0
  }

  /** More bytes never change a first verdict once it is reached, and no bytes are no verdict. */
  ghost predicate Monotone(parser: Parser) {
    && Ideal(parser, []) == Partial
    && forall p, q :: p <= q && Ideal(parser, p) != Partial ==> Ideal(parser, q) == Ideal(parser, p)
  }

  // ---------- streams cut into reads ----------

  lemma {:induction false} BytesOfAppend(a: seq<Event>, b: seq<Event>)
    requires forall i :: 0 <= i < |a| ==> a[i].Data? || a[i].Interrupted?
    ensures Bytes(a + b) == Bytes(a) + Bytes(b) && EndingOf(a + b) == EndingOf(b)
  {
    if a == [] {
      assert a + b == b;
    } else {
      assert (a + b)[1..] == a[1..] + b;
      BytesOfAppend(a[1..], b);
    }
  }

  /** The events of a stream cut into the given reads, each preceded by some interruptions. */
  function Cut(cuts: seq<(nat, seq<char>)>): seq<Event> {
    if cuts == [] then [] else Interruptions(cuts[0].0) + [Data(cuts[0].1)] + Cut(cuts[1..])
  }

  function Interruptions(k: nat): (r: seq<Event>)
    ensures |r| == k && forall i :: 0 <= i < k ==> r[i] == Interrupted
  {
    seq(k, _ => Interrupted)
  }

  function Joined(cuts: seq<(nat, seq<char>)>): seq<char> {
    if cuts == [] then [] else cuts[0].1 + Joined(cuts[1..])
  }

  lemma {:induction false} CutKeepsBytes(cuts: seq<(nat, seq<char>)>, rest: seq<Event>)
    ensures Bytes(Cut(cuts) + rest) == Joined(cuts) + Bytes(rest) && EndingOf(Cut(cuts) + rest) == EndingOf(rest)
  {
    if cuts == [] {
      assert Cut(cuts) + rest == rest;
    } else {
      var first := Interruptions(cuts[0].0) + [Data(cuts[0].1)];
      assert Cut(cuts) + rest == first + (Cut(cuts[1..]) + rest);
      BytesOfAppend(first, Cut(cuts[1..]) + rest);
      InterruptedOnly(cuts[0].0, cuts[0].1);
      CutKeepsBytes(cuts[1..], rest);
    }
  }

  lemma {:induction false} InterruptedOnly(k: nat, data: seq<char>)
    ensures Bytes(Interruptions(k) + [Data(data)]) == data
  {
    var s := Interruptions(k) + [Data(data)];
    if k == 0 {
      assert s[1..] == [];
    } else {
      assert s[1..] == Interruptions(k - 1) + [Data(data)];
      InterruptedOnly(k - 1, data);
    }
  }

  /** The next read takes one cut whole, if it fits. */
  lemma {:induction false} ReadsCut(k: nat, data: seq<char>, rest: seq<Event>, count: nat)
    requires 0 < count && |data| <= count
    ensures ReadThrough(Interruptions(k) + [Data(data)] + rest, count) == (Got(data), rest)
  {
    var s := Interruptions(k) + [Data(data)] + rest;
    if k == 0 {
      assert s[0] == Data(data) && s[1..] == rest;
    } else {
      assert s[0] == Interrupted && s[1..] == Interruptions(k - 1) + [Data(data)] + rest;
      ReadsCut(k - 1, data, rest, count);
    }
  }

  // ---------- a parser that judges the bytes alone ----------

  /** The verdict depends on the bytes alone: neither on the room offered nor on what earlier attempts have seen. */
  ghost predicate Steady(parser: Parser) {
    && Monotone(parser)
    && forall bytes: seq<char>, limit: nat, seen: nat :: parser(bytes, limit, seen).0 == Ideal(parser, bytes)
  }

  /** As much of the stream as the buffer can hold. */
  function Front(bytes: seq<char>): (p: seq<char>)
    ensures p <= bytes && |p| <= MAX_BUFFER
  {
    bytes[..Min(|bytes|, MAX_BUFFER)]
  }

  /** What the loop makes of a stream, read off its bytes all at once. */
  function Expected(parser: Parser, bytes: seq<char>, ending: Ending): int {
    match Ideal(parser, Front(bytes))
    case Complete(_) => OK
    case Malformed => BAD_REQUEST
    case Partial =>
      if |bytes| >= MAX_BUFFER then REQUEST_TOO_LONG
      else if ending.ByFailure? then ERROR
      else CLOSE_CONNECTION
  }

  /** A verdict on a prefix that fits the buffer is the verdict on everything that fits. */
  lemma Anticipated(parser: Parser, p: seq<char>, bytes: seq<char>)
    requires Monotone(parser) && p <= bytes && |p| <= MAX_BUFFER
    ensures Ideal(parser, p) != Partial ==> Ideal(parser, Front(bytes)) == Ideal(parser, p)
    ensures |p| == MAX_BUFFER || p == bytes ==> Front(bytes) == p
  {
    assert p <= Front(bytes);
  }

  /** For such a parser the loop finds exactly what the bytes say, however they are cut and interrupted. */
  lemma {:induction false} SteadyLoop(parser: Parser, p: seq<char>, limit: nat, events: seq<Event>)
    requires Steady(parser) && ValidEvents(events) && |p| < MAX_BUFFER && Ideal(parser, p) == Partial
    ensures var e := RunLoop(parser, p, limit, events);
      && e.verdict == Ideal(parser, Front(p + Bytes(events)))
      && e.code == Expected(parser, p + Bytes(events), EndingOf(events))
    decreases Weight(events)
  {
    ReadThroughTakes(events, MAX_BUFFER - |p|);
    var (received, rest) := ReadThrough(events, MAX_BUFFER - |p|);
    var all := p + Bytes(events);
    if received.Got? {
      var q := p + received.data;
      assert all == q + Bytes(rest);
      Anticipated(parser, q, all);
      if Ideal(parser, q) == Partial && |q| < MAX_BUFFER {
        SteadyLoop(parser, q, parser(q, limit, |p|).1, rest);
      }
    } else {
      assert all == p;
      Anticipated(parser, p, all);
    }
  }

  /** A stream that the parser never decides is too long exactly when it has 8192 bytes or more. */
  lemma {:induction false} TooLongIff(parser: Parser, events: seq<Event>)
    requires Steady(parser) && ValidEvents(events)
    requires forall p :: p <= Bytes(events) ==> Ideal(parser, p) == Partial
    ensures CodeOf(parser, events) == REQUEST_TOO_LONG <==> |Bytes(events)| >= 8192
  {
    SteadyLoop(parser, [], MAX_HEADERS, events);
    assert [] + Bytes(events) == Bytes(events);
  }

  /** The first attempt is offered room for 32 headers. */
  lemma FirstAttempt(parser: Parser, data: seq<char>, more: seq<Event>)
    requires 0 < |data| <= 8192 && parser(data, 32, 0).0 != Partial
    ensures var e := LoopOf(parser, [Data(data)] + more);
      e.verdict == parser(data, 32, 0).0 && e.buffer == data && e.rest == more
  {
    var events := [Data(data)] + more;
    assert events[0] == Data(data) && events[1..] == more;
    assert ReadThrough(events, MAX_BUFFER) == (Got(data), more);
    assert [] + data == data;
  }

  /** Two ways of cutting the same bytes, with any interruptions and the same ending, get the same answer. */
  lemma {:induction false} VerdictIgnoresCuts(parser: Parser, a: seq<(nat, seq<char>)>, b: seq<(nat, seq<char>)>,
                                              rest: seq<Event>)
    requires Steady(parser) && Joined(a) == Joined(b) && ValidEvents(Cut(a) + rest) && ValidEvents(Cut(b) + rest)
    ensures CodeOf(parser, Cut(a) + rest) == CodeOf(parser, Cut(b) + rest)
    ensures LoopOf(parser, Cut(a) + rest).verdict == LoopOf(parser, Cut(b) + rest).verdict
  {
    CutKeepsBytes(a, rest);
    CutKeepsBytes(b, rest);
    SteadyLoop(parser, [], MAX_HEADERS, Cut(a) + rest);
    SteadyLoop(parser, [], MAX_HEADERS, Cut(b) + rest);
    assert [] + Bytes(Cut(a) + rest) == [] + Bytes(Cut(b) + rest);
  }

  // ---------- a parser that minds the room for headers ----------

  /** An attempt that comes after one that left these first bytes undecided. */
  predicate Resumes(parser: Parser, bytes: seq<char>, seen: nat) {
    seen <= |bytes| && Ideal(parser, bytes[..seen]) == Partial
  }

  /**
   A request needs room for all its headers, and as much is enough; bytes that are not a complete request are never
   taken for one; and an attempt leaves in num_headers no more than it was offered.
   */
  ghost predicate NeedsRoom(parser: Parser) {
    && Monotone(parser)
    && (forall bytes: seq<char>, limit: nat, seen: nat :: parser(bytes, limit, seen).1 <= limit)
    && (forall bytes: seq<char>, limit: nat, seen: nat :: Resumes(parser, bytes, seen) ==>
          RespectsRoom(Ideal(parser, bytes), limit, parser(bytes, limit, seen).0))
    && (forall p: seq<char>, q: seq<char>, limit: nat, seen: nat ::
          p <= q && Resumes(parser, p, seen) && Ideal(parser, p) == Partial
          && Ideal(parser, q).Complete? && |Ideal(parser, q).parsed.headers| <= limit
          ==> parser(p, limit, seen).0 == Partial)
  }

  /** The verdict with this much room, when the ideal one is known. */
  predicate RespectsRoom(ideal: Verdict, limit: nat, verdict: Verdict) {
    if ideal.Complete? then verdict == (if |ideal.parsed.headers| <= limit then ideal else Malformed)
    else !verdict.Complete?
  }

  /** What num_headers holds when the last of these reads is judged. */
  function LastLimit(parser: Parser, p: seq<char>, limit: nat, cuts: seq<(nat, seq<char>)>): nat
    requires cuts != []
    decreases |cuts|
  {
    if |cuts| == 1 then limit
    else
      var q := p + cuts[0].1;
      LastLimit(parser, q, parser(q, limit, |p|).1, cuts[1..])
  }

  /** A whole request: complete, and undecided before its last byte. */
  ghost predicate IsRequest(parser: Parser, r: seq<char>) {
    && |r| <= MAX_BUFFER && Ideal(parser, r).Complete?
    && forall p :: p < r ==> Ideal(parser, p) == Partial
  }

  /** The loop on the first of these cuts. */
  lemma {:induction false} CutStep(parser: Parser, p: seq<char>, limit: nat, cuts: seq<(nat, seq<char>)>,
                                   more: seq<Event>)
    requires cuts != [] && |p| < MAX_BUFFER && |p| + |cuts[0].1| <= MAX_BUFFER
    ensures var q, rest := p + cuts[0].1, Cut(cuts[1..]) + more;
      var (verdict, count) := parser(q, limit, |p|);
      RunLoop(parser, p, limit, Cut(cuts) + more) == match verdict
        case Complete(_) => LoopEnd(OK, verdict, q, rest)
        case Malformed => LoopEnd(BAD_REQUEST, verdict, q, rest)
        case Partial =>
          if |q| == MAX_BUFFER then LoopEnd(REQUEST_TOO_LONG, verdict, q, rest) else RunLoop(parser, q, count, rest)
  {
    assert Cut(cuts) + more == Interruptions(cuts[0].0) + [Data(cuts[0].1)] + (Cut(cuts[1..]) + more);
    ReadsCut(cuts[0].0, cuts[0].1, Cut(cuts[1..]) + more, MAX_BUFFER - |p|);
  }

  /** An attempt on some more of a request. */
  lemma JudgedInPart(parser: Parser, p: seq<char>, q: seq<char>, r: seq<char>, limit: nat)
    requires NeedsRoom(parser) && IsRequest(parser, r) && p < q <= r
    ensures var (verdict, count) := parser(q, limit, |p|);
      && count <= limit
      && (q < r ==> !verdict.Complete? && (|Ideal(parser, r).parsed.headers| <= limit ==> verdict == Partial))
      && (q == r ==> verdict == if |Ideal(parser, r).parsed.headers| <= limit then Ideal(parser, r) else Malformed)
  {
    assert Resumes(parser, q, |p|) by {
      assert q[..|p|] == p && p < r;
    }
  }

  /**
   The exact condition under which a request that is cut into reads is understood: when its last read is judged,
   the earlier attempts must have left room for all its headers in num_headers. Otherwise it is answered with a 400.
   */
  lemma {:induction false} CutRequest(parser: Parser, p: seq<char>, limit: nat, cuts: seq<(nat, seq<char>)>,
                                      more: seq<Event>)
    requires NeedsRoom(parser) && IsRequest(parser, p + Joined(cuts)) && cuts != []
    requires forall i :: 0 <= i < |cuts| ==> cuts[i].1 != []
    requires |p| < MAX_BUFFER
    ensures var request := Ideal(parser, p + Joined(cuts));
      var e := RunLoop(parser, p, limit, Cut(cuts) + more);
      if LastLimit(parser, p, limit, cuts) >= |request.parsed.headers|
      then e == LoopEnd(OK, request, p + Joined(cuts), more)
      else e.code == BAD_REQUEST
    decreases |cuts|
  {
    var tail, q, r := cuts[1..], p + cuts[0].1, p + Joined(cuts);
    assert r == q + Joined(tail);
    CutStep(parser, p, limit, cuts, more);
    JudgedInPart(parser, p, q, r, limit);
    if tail == [] {
      assert q == r && Cut(tail) + more == more;
    } else {
      assert Joined(tail) != [] by {
        assert tail[0].1 != [];
      }
      assert |q| < |r|;
      if parser(q, limit, |p|).0 == Partial {
        CutRequest(parser, q, parser(q, limit, |p|).1, tail, more);
      }
      LimitsFall(parser, p, limit, cuts);
    }
  }

  lemma {:induction false} LimitsFall(parser: Parser, p: seq<char>, limit: nat, cuts: seq<(nat, seq<char>)>)
    requires NeedsRoom(parser) && cuts != []
    ensures LastLimit(parser, p, limit, cuts) <= limit
    decreases |cuts|
  {
    if |cuts| == 1 {
    } else {
      var q := p + cuts[0].1;
      LimitsFall(parser, q, parser(q, limit, |p|).1, cuts[1..]);
    }
  }

  /** In particular every request that arrives in one read is understood. */
  lemma OneReadIsEnough(parser: Parser, interruptions: nat, r: seq<char>, more: seq<Event>)
    requires NeedsRoom(parser) && IsRequest(parser, r)
    ensures var e := LoopOf(parser, Cut([(interruptions, r)]) + more);
      e.verdict == Ideal(parser, r) && e.buffer == r && e.rest == more
  {
    var cuts := [(interruptions, r)];
    var empty: seq<char> := [];
    assert cuts[1..] == [] && Joined(cuts) == r && empty + Joined(cuts) == r;
    assert empty < r && Ideal(parser, empty) == Partial;
    CutRequest(parser, [], MAX_HEADERS, cuts, more);
  }

  /** Two bytes make a request with one header; the first attempt stores none of it. */
  function OneHeader(): Parser {
    (bytes: seq<char>, limit: nat, seen: nat) =>
      if |bytes| < 2 then (Partial, 0)
      else if limit < 1 then (Malformed, 0)
      else (Complete(Parsed("OPTIONS", "/", [Header("Host", "rask")])), 1)
  }

  lemma OneHeaderIsFine()
    ensures NeedsRoom(OneHeader()) && IsRequest(OneHeader(), "AB")
  {
    forall p | p < "AB"
      ensures Ideal(OneHeader(), p) == Partial
    {
      assert |p| < 2;
    }
  }

  /** The same request gets through in one read and a 400 in two. */
  lemma SplitRequestIsRejected()
    ensures NeedsRoom(OneHeader()) && IsRequest(OneHeader(), "AB")
    ensures CodeOf(OneHeader(), [Data("AB")]) == OK
    ensures CodeOf(OneHeader(), [Data("A"), Data("B")]) == BAD_REQUEST
  {
    var parser := OneHeader();
    var one: seq<(nat, seq<char>)> := [(0, "AB")];
    var two: seq<(nat, seq<char>)> := [(0, "A"), (0, "B")];
    OneHeaderIsFine();
    var empty: seq<char> := [];
    var none: seq<Event> := [];
    assert one[1..] == [] && Cut(one) + none == [Data("AB")];
    OneReadIsEnough(parser, 0, "AB", []);
    assert two[1..] == [(0, "B")] && two[1..][1..] == [];
    assert Cut(two) + none == [Data("A"), Data("B")];
    assert Joined(two) == "AB" && empty + Joined(two) == "AB";
    assert LastLimit(parser, empty, MAX_HEADERS, two) == LastLimit(parser, empty + "A", 0, [(0, "B")]) == 0;
    CutRequest(parser, empty, MAX_HEADERS, two, []);
    assert !HasDotDot("/");
  }

  // ---------- what a request takes with it ----------

  /** A read of this client ends after n more bytes. */
  predicate ReadEndsAt(events: seq<Event>, n: nat)
    decreases |events|
  {
    || n == 0
    || (events != [] && events[0].Interrupted? && ReadEndsAt(events[1..], n))
    || (events != [] && events[0].Data? && |events[0].bytes| <= n && ReadEndsAt(events[1..], n - |events[0].bytes|))
  }

  lemma {:induction false} NextReadEnds(events: seq<Event>, count: nat, n: nat)
    requires count > 0 && n > 0 && ValidEvents(events) && ReadThrough(events, count).0.Got?
    ensures var (received, rest) := ReadThrough(events, count);
      var k := |received.data|;
      && 0 < k <= count
      && (n < k ==> !ReadEndsAt(events, n))
      && (k < count ==> (n >= k ==> (ReadEndsAt(events, n) <==> ReadEndsAt(rest, n - k))))
      && (n == k < count ==> ReadEndsAt(events, n))
    decreases Weight(events)
  {
    ReadThroughTakes(events, count);
    if events[0].Interrupted? {
      NextReadEnds(events[1..], count, n);
    }
  }

  /**
   The loop has taken the request, and what is left is what follows it exactly if a read (or the buffer) ends there.
   */
  ghost predicate TakesExactly(p: seq<char>, events: seq<Event>, r: seq<char>, e: LoopEnd)
    requires |p| <= |r| <= |p + Bytes(events)|
  {
    && r <= e.buffer && e.buffer + Bytes(e.rest) == p + Bytes(events)
    && (Bytes(e.rest) == (p + Bytes(events))[|r|..] <==> |r| == MAX_BUFFER || ReadEndsAt(events, |r| - |p|))
  }

  /** The read that completes the request. */
  lemma {:induction false} TakesNow(p: seq<char>, data: seq<char>, rest: seq<Event>, events: seq<Event>, r: seq<char>,
                                    e: LoopEnd)
    requires ValidEvents(events) && |p| < MAX_BUFFER && |r| <= MAX_BUFFER
    requires ReadThrough(events, MAX_BUFFER - |p|) == (Got(data), rest)
    requires p < r <= p + Bytes(events) && |r| <= |p + data| && e.buffer == p + data && e.rest == rest
    ensures TakesExactly(p, events, r, e)
  {
    ReadThroughTakes(events, MAX_BUFFER - |p|);
    NextReadEnds(events, MAX_BUFFER - |p|, |r| - |p|);
    Regroup(p, data, Bytes(rest));
    PrefixesOfOne(p + data, Bytes(rest), r);
  }

  /** A read before that. */
  lemma {:induction false} TakesLater(p: seq<char>, data: seq<char>, rest: seq<Event>, events: seq<Event>,
                                      r: seq<char>, e: LoopEnd)
    requires ValidEvents(events) && |p| < MAX_BUFFER && |r| <= MAX_BUFFER
    requires ReadThrough(events, MAX_BUFFER - |p|) == (Got(data), rest)
    requires p < r <= p + Bytes(events) && |p + data| < |r|
    ensures p + data < r <= p + data + Bytes(rest)
    ensures TakesExactly(p + data, rest, r, e) ==> TakesExactly(p, events, r, e)
  {
    ReadThroughTakes(events, MAX_BUFFER - |p|);
    NextReadEnds(events, MAX_BUFFER - |p|, |r| - |p|);
    Regroup(p, data, Bytes(rest));
    PrefixesOfOne(p + data, Bytes(rest), r);
  }

  /**
   What a request that got through takes off the connection: the read that completes it is taken whole, so what is
   left is the stream from the end of the request on if and only if a read ends there (or the buffer does). If not,
   what that read brought beyond it is lost.
   */
  lemma {:induction false} NothingLostIff(parser: Parser, p: seq<char>, limit: nat, events: seq<Event>, r: seq<char>)
    requires NeedsRoom(parser) && ValidEvents(events) && |p| < MAX_BUFFER
    requires IsRequest(parser, r) && p < r <= p + Bytes(events)
    requires RunLoop(parser, p, limit, events).code == OK
    ensures TakesExactly(p, events, r, RunLoop(parser, p, limit, events))
    decreases Weight(events)
  {
    ReadThroughTakes(events, MAX_BUFFER - |p|);
    var (received, rest) := ReadThrough(events, MAX_BUFFER - |p|);
    var q, e := p + received.data, RunLoop(parser, p, limit, events);
    if |q| < |r| {
      TakesLater(p, received.data, rest, events, r, e);
      JudgedInPart(parser, p, q, r, limit);
      NothingLostIff(parser, q, parser(q, limit, |p|).1, rest, r);
    } else {
      Regroup(p, received.data, Bytes(rest));
      PrefixesOfOne(q, Bytes(rest), r);
      JudgedBeyond(parser, p, q, r, limit);
      TakesNow(p, received.data, rest, events, r, e);
    }
  }

  /**
   Of two prefixes of one stream, what comes after the one is what comes after the other only if they are the same.
   */
  lemma PrefixesOfOne(q: seq<char>, rest: seq<char>, r: seq<char>)
    requires r <= q + rest
    ensures |q| < |r| ==> q < r
    ensures |r| <= |q| ==> r <= q && (rest == (q + rest)[|r|..] <==> |q| == |r|)
  {
    assert q == (q + rest)[..|q|];
  }

  lemma JudgedBeyond(parser: Parser, p: seq<char>, q: seq<char>, r: seq<char>, limit: nat)
    requires NeedsRoom(parser) && IsRequest(parser, r) && p < r <= q
    ensures parser(q, limit, |p|).0 != Partial
  {
    assert Resumes(parser, q, |p|) by {
      assert q[..|p|] == p;
    }
    assert Ideal(parser, q) == Ideal(parser, r);
  }

  // ---------- one request at a time ----------

  lemma {:induction false} ReadIsLocal(mid: seq<Event>, more: seq<Event>, count: nat)
    requires count > 0 && ReadThrough(mid, count).0.Got?
    ensures ReadThrough(mid + more, count) == (ReadThrough(mid, count).0, ReadThrough(mid, count).1 + more)
    decreases |mid|
  {
    assert (mid + more)[0] == mid[0] && (mid + more)[1..] == mid[1..] + more;
    if mid[0].Interrupted? {
      ReadIsLocal(mid[1..], more, count);
    } else if |mid[0].bytes| > count {
      var rest := [Data(mid[0].bytes[count..])];
      assert rest + (mid[1..] + more) == (rest + mid[1..]) + more;
    }
  }

  /** What decides a request is only what the loop has read; whatever comes later is left as it is. */
  lemma {:induction false} LoopIsLocal(parser: Parser, p: seq<char>, limit: nat, mid: seq<Event>, more: seq<Event>)
    requires |p| < MAX_BUFFER && Arrived(RunLoop(parser, p, limit, mid).code)
    ensures var e := RunLoop(parser, p, limit, mid);
      RunLoop(parser, p, limit, mid + more) == e.(rest := e.rest + more)
    decreases Weight(mid)
  {
    ReadIsLocal(mid, more, MAX_BUFFER - |p|);
    var (received, rest) := ReadThrough(mid, MAX_BUFFER - |p|);
    var q := p + received.data;
    if parser(q, limit, |p|).0 == Partial && |q| < MAX_BUFFER {
      LoopIsLocal(parser, q, parser(q, limit, |p|).1, rest, more);
    }
  }

  /** These events bring one request, well-formed or not, and nothing more. */
  predicate BringsOne(parser: Parser, mid: seq<Event>) {
    Arrived(LoopOf(parser, mid).code) && LoopOf(parser, mid).rest == []
  }

  /** Undecided before its last byte, decided with it. */
  ghost predicate IsDecided(parser: Parser, r: seq<char>) {
    && |r| <= MAX_BUFFER && Ideal(parser, r) != Partial
    && forall p :: p < r ==> Ideal(parser, p) == Partial
  }

  /** For a parser that judges the bytes alone, the reads a request is cut into bring just that request. */
  lemma {:induction false} SteadyCut(parser: Parser, p: seq<char>, limit: nat, cuts: seq<(nat, seq<char>)>,
                                     more: seq<Event>)
    requires Steady(parser) && IsDecided(parser, p + Joined(cuts)) && cuts != [] && |p| < MAX_BUFFER
    requires forall i :: 0 <= i < |cuts| ==> cuts[i].1 != []
    ensures var e := RunLoop(parser, p, limit, Cut(cuts) + more);
      Arrived(e.code) && e.verdict == Ideal(parser, p + Joined(cuts)) && e.buffer == p + Joined(cuts) && e.rest == more
    decreases |cuts|
  {
    var tail, q, r := cuts[1..], p + cuts[0].1, p + Joined(cuts);
    assert r == q + Joined(tail);
    CutStep(parser, p, limit, cuts, more);
    if tail == [] {
      assert q == r && Cut(tail) + more == more;
    } else {
      assert Joined(tail) != [] by {
        assert tail[0].1 != [];
      }
      assert q < r;
      SteadyCut(parser, q, parser(q, limit, |p|).1, tail, more);
    }
  }

  /** When the last of these reads is judged, there is room for all headers of the request they make up. */
  predicate HasRoom(parser: Parser, cuts: seq<(nat, seq<char>)>)
    requires cuts != []
  {
    var request := Ideal(parser, Joined(cuts));
    request.Complete? && LastLimit(parser, [], MAX_HEADERS, cuts) >= |request.parsed.headers|
  }

  /** Reads of which one ends where a request does bring just that request, for a parser that judges the bytes alone. */
  lemma {:induction false} AlignedReadsBringOne(parser: Parser, cuts: seq<(nat, seq<char>)>)
    requires cuts != [] && forall i :: 0 <= i < |cuts| ==> cuts[i].1 != []
    requires Steady(parser) && IsDecided(parser, Joined(cuts))
    ensures BringsOne(parser, Cut(cuts)) && LoopOf(parser, Cut(cuts)).verdict == Ideal(parser, Joined(cuts))
  {
    var empty: seq<char>, none: seq<Event> := [], [];
    assert Cut(cuts) + none == Cut(cuts) && empty + Joined(cuts) == Joined(cuts);
    SteadyCut(parser, empty, MAX_HEADERS, cuts, none);
  }

  /** So they do for a parser that minds the room for headers, exactly if the earlier attempts leave enough of it. */
  lemma {:induction false} RoomyReadsBringOne(parser: Parser, cuts: seq<(nat, seq<char>)>)
    requires cuts != [] && forall i :: 0 <= i < |cuts| ==> cuts[i].1 != []
    requires NeedsRoom(parser) && IsRequest(parser, Joined(cuts))
    ensures LoopOf(parser, Cut(cuts)).verdict == Ideal(parser, Joined(cuts)) <==> HasRoom(parser, cuts)
    ensures HasRoom(parser, cuts) ==> BringsOne(parser, Cut(cuts))
  {
    var empty: seq<char>, none: seq<Event> := [], [];
    assert Cut(cuts) + none == Cut(cuts) && empty + Joined(cuts) == Joined(cuts);
    CutRequest(parser, empty, MAX_HEADERS, cuts, none);
  }

  function Concat(mids: seq<seq<Event>>): seq<Event> {
    if mids == [] then [] else mids[0] + Concat(mids[1..])
  }
}
