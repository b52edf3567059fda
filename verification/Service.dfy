/** One connection from its first request to its last: the turns of the worker's loop, and what the client reads. */
module Service {
  import opened Common
  import opened Streams
  import opened Targets
  import opened Requests
  import opened Arrivals
  import opened Framing
  import opened Responses
  import opened ResponseFraming
  import opened Connections
  import Scripts

  lemma {:induction false} RenderAllAppend(a: seq<Message>, b: seq<Message>)
    ensures RenderAll(a + b) == RenderAll(a) + RenderAll(b)
    decreases |a|
  {
    if a == [] {
      assert a + b == b;
    } else {
      assert (a + b)[1..] == a[1..] + b;
      RenderAllAppend(a[1..], b);
    }
  }

  // ---------- the turns of a connection ----------

  /** What one turn sends and how it ends: the k-th call of the handler, on what the client still does. */
  type Handler = (nat, seq<Event>) -> (seq<Message>, Outcome)

  function HandlerOf(parser: Parser, cfg: Config, ambient: nat -> Ambient): (h: Handler)
    ensures forall k: nat, events: seq<Event> :: h(k, events) == Handled(parser, events, cfg, ambient(k))
  {
    (k: nat, events: seq<Event>) => Handled(parser, events, cfg, ambient(k))
  }

  /** What is left for the next call. */
  function After(parser: Parser, events: seq<Event>): seq<Event> {
    LoopOf(parser, events).rest
  }

  /** The messages sent when the handler is called on each of these in turn. */
  function Replies(h: Handler, turns: seq<seq<Event>>): seq<Message> {
    if turns == [] then []
    else
      var last := |turns| - 1;
      Replies(h, turns[..last]) + h(last, turns[last]).0
  }

  /** Each call but the last leaves the connection open, and the next one gets what the call has left unread. */
  predicate IsService(h: Handler, parser: Parser, turns: seq<seq<Event>>, events: seq<Event>) {
    && turns != [] && turns[0] == events
    && forall k :: 0 <= k < |turns| - 1 ==> !Closing(h(k, turns[k]).1) && turns[k + 1] == After(parser, turns[k])
  }

  /** The last call closes the connection, or the server is gone. */
  predicate IsOver(h: Handler, turns: seq<seq<Event>>)
    requires turns != []
  {
    Closing(h(|turns| - 1, turns[|turns| - 1]).1)
  }

  /** What the client does determines the turns. */
  lemma {:induction false} TurnsAreDetermined(h: Handler, parser: Parser, s: seq<seq<Event>>, t: seq<seq<Event>>,
                                              events: seq<Event>)
    requires IsService(h, parser, s, events) && IsOver(h, s) && IsService(h, parser, t, events) && IsOver(h, t)
    ensures s == t
  {
    SamePrefix(h, parser, s, t, events, if |s| < |t| then |s| else |t|);
  }

  lemma {:induction false} SamePrefix(h: Handler, parser: Parser, s: seq<seq<Event>>, t: seq<seq<Event>>,
                                      events: seq<Event>, n: nat)
    requires IsService(h, parser, s, events) && IsService(h, parser, t, events) && n <= |s| && n <= |t|
    ensures forall i :: 0 <= i < n ==> s[i] == t[i]
  {
    if n <= 1 {
    } else {
      SamePrefix(h, parser, s, t, events, n - 1);
      assert s[n - 2 + 1] == After(parser, s[n - 2]) && t[n - 2 + 1] == After(parser, t[n - 2]);
    }
  }

  // ---------- one response for each request ----------

  /** A request arrives, well-formed or not, and does not kill the server. */
  predicate GetsReply(parser: Parser, events: seq<Event>, cfg: Config, a: Ambient) {
    Arrived(CodeOf(parser, events)) && !KillsServer(parser, events, cfg, a)
  }

  /** The first request to come arrives complete and is a fatal one. */
  predicate KillsServer(parser: Parser, events: seq<Event>, cfg: Config, a: Ambient) {
    && CodeOf(parser, events) == OK
    && var parsed := LoopOf(parser, events).verdict.parsed;
       IsFatal(cfg, a, parsed.method_, PathOf(parsed.target))
  }

  /** The first request to come arrives complete and revalidates an unchanged file. */
  predicate AsksFor304(parser: Parser, events: seq<Event>, cfg: Config, a: Ambient) {
    && CodeOf(parser, events) == OK
    && var parsed := LoopOf(parser, events).verdict.parsed;
       Revalidates(cfg, a, parsed.method_, PathOf(parsed.target), parsed.headers)
  }

  /**
   One turn: one message if a request gets its reply, and otherwise none and the end; a crash exactly when asked for.
   */
  lemma OneTurn(parser: Parser, events: seq<Event>, cfg: Config, a: Ambient)
    ensures OneIfReplied(Handled(parser, events, cfg, a), GetsReply(parser, events, cfg, a))
    ensures Handled(parser, events, cfg, a).1 == Crashed <==> KillsServer(parser, events, cfg, a)
  {
    if CodeOf(parser, events) == OK {
      var parsed := LoopOf(parser, events).verdict.parsed;
      CrashIff(cfg, a, parsed.method_, PathOf(parsed.target), parsed.headers);
    }
  }

  predicate OneIfReplied(r: (seq<Message>, Outcome), replied: bool) {
    |r.0| == (if replied then 1 else 0) && (!replied ==> Closing(r.1))
  }

  lemma {:induction false} OneReplyPerTurn(h: Handler, parser: Parser, turns: seq<seq<Event>>, events: seq<Event>,
                                           replied: (nat, seq<Event>) -> bool)
    requires IsService(h, parser, turns, events)
    requires forall k :: 0 <= k < |turns| ==> OneIfReplied(h(k, turns[k]), replied(k, turns[k]))
    ensures |Replies(h, turns)| == |turns| - (if replied(|turns| - 1, turns[|turns| - 1]) then 0 else 1)
    decreases |turns|
  {
    var last := |turns| - 1;
    if last == 0 {
      assert Replies(h, turns[..0]) == [];
    } else {
      var before := turns[..last];
      assert before[last - 1] == turns[last - 1] && !Closing(h(last - 1, turns[last - 1]).1);
      OneReplyPerTurn(h, parser, before, events, replied);
    }
  }

  /**
   Each turn sends one response, but a last one in which no request arrived or the request killed the server. Which
   requests there are is decided by the reads: see AnsweredOneByOne and PipelinedRequestIsLost.
   */
  lemma {:induction false} OneResponsePerTurn(parser: Parser, turns: seq<seq<Event>>, events: seq<Event>, cfg: Config,
                                              ambient: nat -> Ambient)
    requires IsService(HandlerOf(parser, cfg, ambient), parser, turns, events)
    ensures var last := |turns| - 1;
      |Replies(HandlerOf(parser, cfg, ambient), turns)| ==
        |turns| - (if GetsReply(parser, turns[last], cfg, ambient(last)) then 0 else 1)
  {
    var h := HandlerOf(parser, cfg, ambient);
    forall k | 0 <= k < |turns|
      ensures OneIfReplied(h(k, turns[k]), GetsReply(parser, turns[k], cfg, ambient(k)))
    {
      OneTurn(parser, turns[k], cfg, ambient(k));
    }
    OneReplyPerTurn(h, parser, turns, events, (k: nat, e: seq<Event>) => GetsReply(parser, e, cfg, ambient(k)));
  }

  /** The connection ends in a crash exactly when one of its turns gets a fatal request, which is then the last. */
  lemma CrashedIff(parser: Parser, turns: seq<seq<Event>>, events: seq<Event>, cfg: Config, ambient: nat -> Ambient)
    requires IsService(HandlerOf(parser, cfg, ambient), parser, turns, events)
    ensures HandlerOf(parser, cfg, ambient)(|turns| - 1, turns[|turns| - 1]).1 == Crashed <==>
      exists k :: 0 <= k < |turns| && KillsServer(parser, turns[k], cfg, ambient(k))
  {
    var h := HandlerOf(parser, cfg, ambient);
    forall k | 0 <= k < |turns|
      ensures h(k, turns[k]).1 == Crashed <==> KillsServer(parser, turns[k], cfg, ambient(k))
    {
      OneTurn(parser, turns[k], cfg, ambient(k));
    }
  }

  // ---------- requests sent one at a time ----------

  /** At the j-th call, what comes after these events makes no difference to what they get. */
  ghost predicate GetsItsOwn(h: Handler, j: nat, mid: seq<Event>) {
    forall more :: h(j, mid + more) == h(j, mid)
  }

  lemma BringsItsOwn(parser: Parser, mid: seq<Event>, cfg: Config, ambient: nat -> Ambient, j: nat)
    requires BringsOne(parser, mid)
    ensures GetsItsOwn(HandlerOf(parser, cfg, ambient), j, mid)
  {
    forall more: seq<Event>
      ensures Handled(parser, mid + more, cfg, ambient(j)) == Handled(parser, mid, cfg, ambient(j))
    {
      LoopIsLocal(parser, [], MAX_HEADERS, mid, more);
    }
  }

  lemma AfterOne(parser: Parser, mid: seq<Event>, more: seq<Event>)
    requires BringsOne(parser, mid)
    ensures After(parser, mid + more) == more
  {
    LoopIsLocal(parser, [], MAX_HEADERS, mid, more);
    assert [] + more == more;
  }

  /** The i-th turn starts with the i-th request. */
  lemma {:induction false} TurnMeetsRequest(h: Handler, parser: Parser, mids: seq<seq<Event>>, end: seq<Event>,
                                            turns: seq<seq<Event>>, i: nat)
    requires forall j :: 0 <= j < |mids| ==> BringsOne(parser, mids[j])
    requires IsService(h, parser, turns, Concat(mids) + end) && i < |turns| && Closing(h(|mids|, end).1)
    ensures i <= |mids| && turns[i] == Concat(mids[i..]) + end
  {
    if i == 0 {
      assert mids[0..] == mids;
    } else {
      var k := i - 1;
      TurnMeetsRequest(h, parser, mids, end, turns, k);
      assert !Closing(h(k, turns[k]).1) && turns[k + 1] == After(parser, turns[k]);
      assert Concat(mids[|mids|..]) + end == end;
      if k == |mids| {
        assert false;
      } else {
        ConcatFrom(mids, k, end);
        AfterOne(parser, mids[k], Concat(mids[i..]) + end);
      }
    }
  }

  lemma ConcatFrom(mids: seq<seq<Event>>, k: nat, end: seq<Event>)
    requires k < |mids|
    ensures Concat(mids[k..]) + end == mids[k] + (Concat(mids[k + 1..]) + end)
  {
    assert mids[k..][0] == mids[k] && mids[k..][1..] == mids[k + 1..];
  }

  lemma RequestsGetTheirOwn(h: Handler, parser: Parser, mids: seq<seq<Event>>, end: seq<Event>,
                            turns: seq<seq<Event>>) returns (n: nat)
    requires forall j :: 0 <= j < |mids| ==> BringsOne(parser, mids[j]) && GetsItsOwn(h, j, mids[j])
    requires Closing(h(|mids|, end).1) && h(|mids|, end).0 == []
    requires IsService(h, parser, turns, Concat(mids) + end) && IsOver(h, turns)
    ensures n <= |mids| && Replies(h, turns) == Replies(h, mids[..n])
    ensures n == |mids| || (n > 0 && Closing(h(n - 1, mids[n - 1]).1))
    ensures forall i :: 0 <= i < n - 1 ==> !Closing(h(i, mids[i]).1)
  {
    n := if |turns| <= |mids| then |turns| else |mids|;
    forall i | 0 <= i < n
      ensures h(i, turns[i]) == h(i, mids[i])
    {
      TurnMeetsRequest(h, parser, mids, end, turns, i);
      ConcatFrom(mids, i, end);
      assert GetsItsOwn(h, i, mids[i]);
    }
    SameReplies(h, mids, turns, n);
    if |turns| > |mids| {
      TurnMeetsRequest(h, parser, mids, end, turns, |turns| - 1);
      assert turns[n] == end;
      SilentEnd(h, turns, n);
    } else {
      assert turns[..n] == turns;
    }
  }

  lemma {:induction false} SilentEnd(h: Handler, turns: seq<seq<Event>>, n: nat)
    requires |turns| == n + 1 && h(n, turns[n]).0 == []
    ensures Replies(h, turns) == Replies(h, turns[..n])
  {
  }

  lemma {:induction false} SameReplies(h: Handler, mids: seq<seq<Event>>, turns: seq<seq<Event>>, n: nat)
    requires n <= |mids| && n <= |turns|
    requires forall i :: 0 <= i < n ==> h(i, turns[i]) == h(i, mids[i])
    ensures Replies(h, turns[..n]) == Replies(h, mids[..n])
  {
    if n == 0 {
    } else {
      SameReplies(h, mids, turns, n - 1);
      assert turns[..n][..n - 1] == turns[..n - 1] && mids[..n][..n - 1] == mids[..n - 1];
    }
  }

  /**
   A client whose reads bring one request each time gets each of them answered as if it were alone, in order, up to the
   first that closes the connection (or kills the server): n is their number.
   */
  lemma AnsweredOneByOne(parser: Parser, mids: seq<seq<Event>>, end: seq<Event>, cfg: Config, ambient: nat -> Ambient,
                         turns: seq<seq<Event>>) returns (n: nat)
    requires forall j :: 0 <= j < |mids| ==> BringsOne(parser, mids[j])
    requires !Arrived(LoopOf(parser, end).code)
    requires IsService(HandlerOf(parser, cfg, ambient), parser, turns, Concat(mids) + end)
    requires IsOver(HandlerOf(parser, cfg, ambient), turns)
    ensures n <= |mids|
    ensures Replies(HandlerOf(parser, cfg, ambient), turns) == Replies(HandlerOf(parser, cfg, ambient), mids[..n])
    ensures n == |mids| || (n > 0 && Closing(Handled(parser, mids[n - 1], cfg, ambient(n - 1)).1))
    ensures forall i :: 0 <= i < n - 1 ==> !Closing(Handled(parser, mids[i], cfg, ambient(i)).1)
  {
    forall j | 0 <= j < |mids|
      ensures GetsItsOwn(HandlerOf(parser, cfg, ambient), j, mids[j])
    {
      BringsItsOwn(parser, mids[j], cfg, ambient, j);
    }
    OneTurn(parser, end, cfg, ambient(|mids|));
    n := RequestsGetTheirOwn(HandlerOf(parser, cfg, ambient), parser, mids, end, turns);
  }

  /** Every byte is an OPTIONS request. */
  function OneByte(): Parser {
    (bytes: seq<char>, limit: nat, seen: nat) =>
      (if bytes == [] then Partial else Complete(Parsed("OPTIONS", "/", [])), 0)
  }

  lemma OneByteIsFine()
    ensures Steady(OneByte()) && NeedsRoom(OneByte())
    ensures IsRequest(OneByte(), "A") && IsRequest(OneByte(), "B")
  {
  }

  /** Two requests sent one after the other get two responses. */
  lemma SentApart(cfg: Config, ambient: nat -> Ambient)
    ensures var h, a, b := HandlerOf(OneByte(), cfg, ambient), Data("A"), Data("B");
      IsService(h, OneByte(), [[a, b], [b], []], [a, b]) && IsOver(h, [[a, b], [b], []])
        && |Replies(h, [[a, b], [b], []])| == 2
  {
    var h, a, b, none := HandlerOf(OneByte(), cfg, ambient), [Data("A"), Data("B")], [Data("B")], [];
    OneByteTurn(a, "A", b, cfg, ambient, 0);
    OneByteTurn(b, "B", none, cfg, ambient, 1);
    Chain(h, OneByte(), [a, b, none]);
    CountReplies(cfg, ambient, [a, b, none]);
  }

  /** The same two requests in one read get a single one: the second is lost. */
  lemma PipelinedRequestIsLost(cfg: Config, ambient: nat -> Ambient)
    ensures Bytes([Data("AB")]) == Bytes([Data("A"), Data("B")]) == "AB"
    ensures var h, ab := HandlerOf(OneByte(), cfg, ambient), [Data("AB")];
      IsService(h, OneByte(), [ab, []], ab) && IsOver(h, [ab, []]) && |Replies(h, [ab, []])| == 1
  {
    var h, ab, none := HandlerOf(OneByte(), cfg, ambient), [Data("AB")], [];
    assert [Data("A"), Data("B")][1..] == [Data("B")] && [Data("B")][1..] == none && ab[1..] == none;
    OneByteTurn(ab, "AB", none, cfg, ambient, 0);
    Chain(h, OneByte(), [ab, none]);
    CountReplies(cfg, ambient, [ab, none]);
  }

  lemma Chain(h: Handler, parser: Parser, turns: seq<seq<Event>>)
    requires 1 < |turns| <= 3
    requires !Closing(h(0, turns[0]).1) && After(parser, turns[0]) == turns[1]
    requires |turns| == 3 ==> !Closing(h(1, turns[1]).1) && After(parser, turns[1]) == turns[2]
    ensures IsService(h, parser, turns, turns[0])
  {
  }

  lemma {:induction false} CountReplies(cfg: Config, ambient: nat -> Ambient, turns: seq<seq<Event>>)
    requires turns != [] && turns[|turns| - 1] == []
    requires IsService(HandlerOf(OneByte(), cfg, ambient), OneByte(), turns, turns[0])
    ensures |Replies(HandlerOf(OneByte(), cfg, ambient), turns)| == |turns| - 1
    ensures IsOver(HandlerOf(OneByte(), cfg, ambient), turns)
  {
    OneTurn(OneByte(), turns[|turns| - 1], cfg, ambient(|turns| - 1));
    OneResponsePerTurn(OneByte(), turns, turns[0], cfg, ambient);
  }

  lemma OneByteTurn(events: seq<Event>, data: seq<char>, rest: seq<Event>, cfg: Config, ambient: nat -> Ambient, k: nat)
    requires events == [Data(data)] + rest && 0 < |data| < MAX_BUFFER
    ensures After(OneByte(), events) == rest && !Closing(HandlerOf(OneByte(), cfg, ambient)(k, events).1)
  {
    assert events[0] == Data(data) && events[1..] == rest;
    assert ReadThrough(events, MAX_BUFFER) == (Got(data), rest);
    assert [] + data == data;
    assert LoopOf(OneByte(), events) == LoopEnd(OK, Complete(Parsed("OPTIONS", "/", [])), data, rest);
    assert !HasDotDot("/");
    assert HandlerOf(OneByte(), cfg, ambient)(k, events) == Handled(OneByte(), events, cfg, ambient(k));
  }

  // ---------- the worker's loop ----------

  /** The turns so far, everything they sent, and the outcome of the last one. */
  ghost predicate Served(h: Handler, parser: Parser, turns: seq<seq<Event>>, events: seq<Event>, sent: seq<Message>,
                         o: Outcome) {
    && IsService(h, parser, turns, events)
    && sent == Replies(h, turns) && o == h(|turns| - 1, turns[|turns| - 1]).1
    && forall i :: 0 <= i < |sent| ==> Sendable(sent[i])
  }

  lemma FirstTurn(h: Handler, parser: Parser, events: seq<Event>, sent: seq<Message>, o: Outcome)
    requires (sent, o) == h(0, events) && forall i :: 0 <= i < |sent| ==> Sendable(sent[i])
    ensures Served(h, parser, [events], events, sent, o)
  {
    assert Replies(h, [events]) == [] + sent;
  }

  lemma OneMoreTurn(h: Handler, parser: Parser, turns: seq<seq<Event>>, events: seq<Event>, sent: seq<Message>,
                    o: Outcome, more: seq<Message>, o': Outcome)
    requires Served(h, parser, turns, events, sent, o) && !Closing(o)
    requires (more, o') == h(|turns|, After(parser, turns[|turns| - 1]))
    requires forall i :: 0 <= i < |more| ==> Sendable(more[i])
    ensures Served(h, parser, turns + [After(parser, turns[|turns| - 1])], events, sent + more, o')
  {
    assert (turns + [After(parser, turns[|turns| - 1])])[..|turns|] == turns;
  }

  /** A call that leaves the connection open has taken something off it. */
  lemma {:induction false} TurnTakesSomething(parser: Parser, events: seq<Event>, cfg: Config, a: Ambient)
    ensures !Closing(Handled(parser, events, cfg, a).1) ==> Weight(After(parser, events)) < Weight(events)
  {
    OneTurn(parser, events, cfg, a);
  }

  /** The worker's loop over one connection; it ends because every turn takes something off the connection. */
  method ServeAll(client: Client, out: Outbox, os: Scripts.Processes, parser: Parser, cfg: Config,
                  ambient: nat -> Ambient)
    returns (o: Outcome, ghost sent: seq<Message>, ghost turns: seq<seq<Event>>)
    requires client.Valid() && CleanParser(parser) && Clean(cfg) && forall k :: CleanAmbient(ambient(k))
    requires out.sends == []
    modifies client, out, os
    ensures Closing(o) && Flatten(out.sends) == RenderAll(sent)
    ensures Served(HandlerOf(parser, cfg, ambient), parser, turns, old(client.events), sent, o)
  {
    ghost var events, h := client.events, HandlerOf(parser, cfg, ambient);
    turns := [events];
    o, sent := ConnectionHandler(client, out, os, parser, cfg, ambient(0));
    FirstTurn(h, parser, events, sent, o);
    TurnTakesSomething(parser, events, cfg, ambient(0));
    var k := 1;
    while !Closing(o)
      invariant client.Valid() && Flatten(out.sends) == RenderAll(sent)
      invariant k == |turns| && Served(h, parser, turns, events, sent, o)
      invariant client.events == After(parser, turns[|turns| - 1])
      decreases if !Closing(o) then 1 + Weight(client.events) else 0
    {
      ghost var rest, was, more := client.events, o, [];
      o, more := ServeNext(client, out, os, parser, cfg, ambient(k), sent);
      OneMoreTurn(h, parser, turns, events, sent, was, more, o);
      TurnTakesSomething(parser, rest, cfg, ambient(k));
      sent, turns, k := sent + more, turns + [rest], k + 1;
    }
  }

  /** One more turn of the loop. */
  method ServeNext(client: Client, out: Outbox, os: Scripts.Processes, parser: Parser, cfg: Config, a: Ambient,
                   ghost sent: seq<Message>)
    returns (o: Outcome, ghost more: seq<Message>)
    requires client.Valid() && CleanParser(parser) && Clean(cfg) && CleanAmbient(a)
    requires Flatten(out.sends) == RenderAll(sent)
    modifies client, out, os
    ensures client.Valid() && client.events == After(parser, old(client.events))
    ensures Flatten(out.sends) == RenderAll(sent + more)
    ensures (more, o) == Handled(parser, old(client.events), cfg, a)
    ensures forall i :: 0 <= i < |more| ==> Sendable(more[i])
  {
    o, more := ConnectionHandler(client, out, os, parser, cfg, a);
    RenderAllAppend(sent, more);
  }

  // ---------- what the client reads ----------

  predicate Any304(ms: seq<Message>) {
    exists i :: 0 <= i < |ms| && Is304(ms[i])
  }

  lemma HandledIs304Iff(parser: Parser, events: seq<Event>, cfg: Config, a: Ambient)
    requires CleanParser(parser) && Clean(cfg) && CleanAmbient(a)
    ensures Any304(Handled(parser, events, cfg, a).0) <==> AsksFor304(parser, events, cfg, a)
  {
    ErrorIsFramed(cfg, a.date, 400, "Bad Request");
    ErrorIsFramed(cfg, a.date, 400, "Bad Request - Request Too Long");
    if CodeOf(parser, events) == OK {
      var parsed := LoopOf(parser, events).verdict.parsed;
      AcceptedIsClean(parser, events);
      AnswerIsFramed(cfg, a, parsed.method_, PathOf(parsed.target), parsed.headers);
    }
    OneOf(Handled(parser, events, cfg, a).0);
  }

  lemma OneOf(ms: seq<Message>)
    requires |ms| <= 1
    ensures Any304(ms) <==> ms != [] && Is304(ms[0])
  {
  }

  lemma Any304Append(a: seq<Message>, b: seq<Message>)
    ensures Any304(a + b) <==> Any304(a) || Any304(b)
  {
    if i :| 0 <= i < |a| && Is304(a[i]) {
      assert Is304((a + b)[i]);
    }
    if i :| 0 <= i < |b| && Is304(b[i]) {
      assert Is304((a + b)[|a| + i]);
    }
  }

  /** There is a 304 among the replies exactly when some turn asked for one. */
  lemma {:induction false} Any304Turns(h: Handler, turns: seq<seq<Event>>, asks: (nat, seq<Event>) -> bool)
    requires forall k :: 0 <= k < |turns| ==> (Any304(h(k, turns[k]).0) <==> asks(k, turns[k]))
    ensures Any304(Replies(h, turns)) <==> exists k :: 0 <= k < |turns| && asks(k, turns[k])
    decreases |turns|
  {
    if turns == [] {
    } else {
      var last := |turns| - 1;
      var before := turns[..last];
      assert forall k :: 0 <= k < last ==> before[k] == turns[k];
      Any304Turns(h, before, asks);
      Any304Append(Replies(h, before), h(last, turns[last]).0);
      assert (exists k :: 0 <= k < |turns| && asks(k, turns[k])) <==>
        (exists k :: 0 <= k < last && asks(k, before[k])) || asks(last, turns[last]);
    }
  }

  lemma {:induction false} RepliesHave304Iff(parser: Parser, turns: seq<seq<Event>>, cfg: Config,
                                             ambient: nat -> Ambient)
    requires CleanParser(parser) && Clean(cfg) && forall k :: CleanAmbient(ambient(k))
    ensures Any304(Replies(HandlerOf(parser, cfg, ambient), turns)) <==>
      exists k :: 0 <= k < |turns| && AsksFor304(parser, turns[k], cfg, ambient(k))
  {
    var asks := (k: nat, e: seq<Event>) => AsksFor304(parser, e, cfg, ambient(k));
    forall k | 0 <= k < |turns|
      ensures Any304(HandlerOf(parser, cfg, ambient)(k, turns[k]).0) <==> asks(k, turns[k])
    {
      HandledIs304Iff(parser, turns[k], cfg, ambient(k));
    }
    Any304Turns(HandlerOf(parser, cfg, ambient), turns, asks);
    assert forall k :: 0 <= k < |turns| ==> (asks(k, turns[k]) <==> AsksFor304(parser, turns[k], cfg, ambient(k)));
  }

  /**
   Over a whole connection, whatever the client does: one response per turn, but a last one without; the server dies
   exactly when a turn gets a fatal request; and the client reads back from the stream exactly the responses sent if
   and only if no turn got a request that revalidates an unchanged file.
   */
  method ServeConnection(client: Client, out: Outbox, os: Scripts.Processes, parser: Parser, cfg: Config,
                         ambient: nat -> Ambient)
    returns (o: Outcome, ghost sent: seq<Message>, ghost turns: seq<seq<Event>>)
    requires client.Valid() && CleanParser(parser) && Clean(cfg) && forall k :: CleanAmbient(ambient(k))
    requires out.sends == []
    modifies client, out, os
    ensures Served(HandlerOf(parser, cfg, ambient), parser, turns, old(client.events), sent, o) && Closing(o)
    ensures Flatten(out.sends) == RenderAll(sent)
    ensures var last := |turns| - 1;
      |sent| == |turns| - (if GetsReply(parser, turns[last], cfg, ambient(last)) then 0 else 1)
    ensures o == Crashed <==> exists k :: 0 <= k < |turns| && KillsServer(parser, turns[k], cfg, ambient(k))
    ensures ParseAll(Flatten(out.sends)) == Some(sent) <==>
      forall k :: 0 <= k < |turns| ==> !AsksFor304(parser, turns[k], cfg, ambient(k))
  {
    o, sent, turns := ServeAll(client, out, os, parser, cfg, ambient);
    OneResponsePerTurn(parser, turns, old(client.events), cfg, ambient);
    CrashedIff(parser, turns, old(client.events), cfg, ambient);
    RepliesHave304Iff(parser, turns, cfg, ambient);
    ReadsBackIffNo304(sent);
  }
}
