/** HTTP/1.1 messages as a client delimits them, and the responses it gets back from a byte stream. */
module Framing {
  import opened Common
  import opened Decimal

  const CRLF: seq<char> := "\r\n"
  const CONTENT_LENGTH: seq<char> := "Content-Length: "
  const NOT_MODIFIED: seq<char> := "HTTP/1.1 304"

  /** A response: its status line and header lines, and its body. */
  datatype Message = Message(lines: seq<seq<char>>, body: seq<char>)

  function Join(lines: seq<seq<char>>): (s: seq<char>)
    ensures lines != [] ==> |s| >= 2
  {
    if lines == [] then [] else lines[0] + CRLF + Join(lines[1..])
  }

  function Render(m: Message): seq<char> {
    Join(m.lines) + CRLF + m.body
  }

  function RenderAll(ms: seq<Message>): seq<char> {
    if ms == [] then [] else Render(ms[0]) + RenderAll(ms[1..])
  }

  // ---------- the client ----------

  predicate StartsCrLf(s: seq<char>) {
    |s| >= 2 && s[0] == '\r' && s[1] == '\n'
  }

  predicate StartsBlank(s: seq<char>) {
    |s| >= 4 && StartsCrLf(s) && s[2] == '\r' && s[3] == '\n'
  }

  /** Where the first CR LF CR LF starts. */
  function HeadLength(s: seq<char>): (n: Option<nat>)
    ensures n.Some? ==> n.value + 4 <= |s| && StartsBlank(s[n.value..])
  {
    if |s| < 4 then None
    else if StartsBlank(s) then Some(0)
    else match HeadLength(s[1..]) case None => None case Some(n) => Some(n + 1)
  }

  /** The head cut at every CR LF. */
  function Lines(s: seq<char>): (r: seq<seq<char>>)
    ensures r != []
  {
    if s == [] then [[]]
    else if StartsCrLf(s) then [[]] + Lines(s[2..])
    else [[s[0]] + Lines(s[1..])[0]] + Lines(s[1..])[1..]
  }

  /** The value of the first Content-Length line, if it is a number. */
  function BodyLength(lines: seq<seq<char>>): Option<nat> {
    if lines == [] then None
    else if CONTENT_LENGTH <= lines[0] then
      var digits := lines[0][|CONTENT_LENGTH|..];
      if digits != [] && AllDigits(digits) then Some(ParseNat(digits)) else None
    else BodyLength(lines[1..])
  }

  /** One message off the front of the stream: its head, then as many bytes as it announces; a 304 has no body. */
  function ParseOne(s: seq<char>): (r: Option<(Message, seq<char>)>)
    ensures r.Some? ==> |r.value.1| < |s|
  {
    match HeadLength(s)
    case None => None
    case Some(n) =>
      var lines, after := Lines(s[..n]), s[n + 4..];
      if NOT_MODIFIED <= lines[0] then Some((Message(lines, []), after))
      else match BodyLength(lines)
        case None => None
        case Some(k) => if k <= |after| then Some((Message(lines, after[..k]), after[k..])) else None
  }

  function ParseAll(s: seq<char>): Option<seq<Message>>
    decreases |s|
  {
    if s == [] then Some([])
    else match ParseOne(s)
      case None => None
      case Some((m, rest)) =>
        match ParseAll(rest) case None => None case Some(ms) => Some([m] + ms)
  }

  // ---------- well-framed messages ----------

  predicate Is304(m: Message) {
    m.lines != [] && NOT_MODIFIED <= m.lines[0]
  }

  predicate HasCrLf(s: seq<char>) {
    exists i :: 0 <= i < |s| - 1 && s[i] == '\r' && s[i + 1] == '\n'
  }

  predicate GoodLine(line: seq<char>) {
    line != [] && !HasCrLf(line)
  }

  ghost predicate GoodHead(lines: seq<seq<char>>) {
    lines != [] && forall i :: 0 <= i < |lines| ==> GoodLine(lines[i])
  }

  /** No blank line in the head, and the first Content-Length tells the length of the body. */
  ghost predicate WellFramed(m: Message) {
    GoodHead(m.lines) && !Is304(m) && BodyLength(m.lines) == Some(|m.body|)
  }

  lemma NoCrLfInTail(s: seq<char>)
    requires s != [] && !HasCrLf(s)
    ensures !HasCrLf(s[1..])
  {
    forall i | 0 <= i < |s[1..]| - 1
      ensures !(s[1..][i] == '\r' && s[1..][i + 1] == '\n')
    {
      var j := i + 1;
      assert !(s[j] == '\r' && s[j + 1] == '\n');
    }
  }

  lemma TailOf(line: seq<char>, t: seq<char>)
    requires line != []
    ensures (line + CRLF + t)[1..] == line[1..] + CRLF + t && (line + CRLF + t)[0] == line[0]
    ensures (line + CRLF + t)[1] == if |line| > 1 then line[1] else '\r'
  {
  }

  /** A line that is not blank does not start with CR LF. */
  lemma NotCrLfStart(line: seq<char>, t: seq<char>)
    requires line != [] && !HasCrLf(line)
    ensures !StartsCrLf(line + CRLF + t)
  {
    TailOf(line, t);
    assert |line| > 1 ==> !(line[0] == '\r' && line[0 + 1] == '\n');
  }

  lemma AfterCrLf(t: seq<char>)
    ensures StartsCrLf(CRLF + t) && (CRLF + t)[2..] == t && (CRLF + t)[1..] == ['\n'] + t
    ensures StartsBlank(CRLF + t) <==> StartsCrLf(t)
  {
    assert |t| >= 2 ==> (CRLF + t)[2] == t[0] && (CRLF + t)[3] == t[1];
  }

  /** The first CR LF of line + CRLF + t is the one after the line. */
  lemma {:induction false} LinesFirst(line: seq<char>, t: seq<char>)
    requires !HasCrLf(line)
    ensures Lines(line + CRLF + t) == [line] + Lines(t)
  {
    if line == [] {
      assert line + CRLF + t == CRLF + t;
      AfterCrLf(t);
    } else {
      NoCrLfInTail(line);
      LinesFirst(line[1..], t);
      TailOf(line, t);
      NotCrLfStart(line, t);
      assert [line[0]] + line[1..] == line;
    }
  }

  lemma {:induction false} LinesLast(line: seq<char>)
    requires !HasCrLf(line)
    ensures Lines(line) == [line]
  {
    if line == [] {
    } else {
      NoCrLfInTail(line);
      LinesLast(line[1..]);
      assert |line| >= 2 ==> !(line[0] == '\r' && line[0 + 1] == '\n');
      assert [line[0]] + line[1..] == line;
    }
  }

  /** Right after a CR LF, the blank line is found at once or after the CR LF. */
  lemma {:induction false} HeadLengthAtCrLf(t: seq<char>)
    requires |t| >= 2
    ensures StartsCrLf(t) ==> HeadLength(CRLF + t) == Some(0)
    ensures !StartsCrLf(t) ==>
      HeadLength(CRLF + t) == if HeadLength(t).None? then None else Some(2 + HeadLength(t).value)
  {
    AfterCrLf(t);
    var u := ['\n'] + t;
    assert u[1..] == t && !StartsBlank(u);
    assert HeadLength(u) == if HeadLength(t).None? then None else Some(1 + HeadLength(t).value);
  }

  /** The search for the blank line passes over a line that is followed by another. */
  lemma {:induction false} HeadLengthPasses(line: seq<char>, t: seq<char>)
    requires !HasCrLf(line) && |t| >= 2
    ensures var h := HeadLength(line + CRLF + t);
      if StartsCrLf(t) then h == Some(|line|)
      else if HeadLength(t).None? then h == None
      else h == Some(|line| + 2 + HeadLength(t).value)
  {
    if line == [] {
      assert line + CRLF + t == CRLF + t;
      HeadLengthAtCrLf(t);
    } else {
      NoCrLfInTail(line);
      HeadLengthPasses(line[1..], t);
      TailOf(line, t);
      NotCrLfStart(line, t);
    }
  }

  /** The client finds these lines at the front of the stream, n bytes of head, and this rest after the blank line. */
  ghost predicate FoundAt(s: seq<char>, n: nat, lines: seq<seq<char>>, rest: seq<char>) {
    HeadLength(s) == Some(n) && n + 4 <= |s| && Lines(s[..n]) == lines && s[n + 4..] == rest
  }

  lemma FoundLast(line: seq<char>, rest: seq<char>)
    requires !HasCrLf(line)
    ensures FoundAt(line + CRLF + (CRLF + rest), |line|, [line], rest)
  {
    var s := line + CRLF + (CRLF + rest);
    AfterCrLf(rest);
    HeadLengthPasses(line, CRLF + rest);
    assert s[..|line|] == line && s[|line| + 4..] == rest;
    LinesLast(line);
  }

  lemma FoundMore(line: seq<char>, t: seq<char>, n: nat, lines: seq<seq<char>>, rest: seq<char>)
    requires !HasCrLf(line) && |t| >= 2 && !StartsCrLf(t) && FoundAt(t, n, lines, rest)
    ensures FoundAt(line + CRLF + t, |line| + 2 + n, [line] + lines, rest)
  {
    var s := line + CRLF + t;
    HeadLengthPasses(line, t);
    assert s[..|line| + 2 + n] == line + CRLF + t[..n];
    assert s[|line| + 2 + n + 4..] == t[n + 4..];
    LinesFirst(line, t[..n]);
  }

  lemma {:induction false} FoundCons(line: seq<char>, lines: seq<seq<char>>, rest: seq<char>, n: nat)
    requires GoodLine(line) && GoodHead(lines) && FoundAt(Join(lines) + CRLF + rest, n, lines, rest)
    ensures FoundAt(Join([line] + lines) + CRLF + rest, |line| + 2 + n, [line] + lines, rest)
  {
    var tail := Join(lines) + CRLF + rest;
    StartsWithLine(lines, rest);
    FoundMore(line, tail, n, lines, rest);
    JoinCons(line, lines, rest);
  }

  lemma {:induction false} JoinCons(line: seq<char>, lines: seq<seq<char>>, rest: seq<char>)
    ensures Join([line] + lines) + CRLF + rest == line + CRLF + (Join(lines) + CRLF + rest)
  {
    assert ([line] + lines)[1..] == lines;
    assert Join([line] + lines) == line + CRLF + Join(lines);
  }

  /** The head a client finds in a message with non-blank lines is exactly its lines. */
  lemma {:induction false} HeadIsFound(lines: seq<seq<char>>, rest: seq<char>) returns (n: nat)
    requires GoodHead(lines)
    ensures FoundAt(Join(lines) + CRLF + rest, n, lines, rest)
    decreases |lines|
  {
    var line := lines[0];
    if |lines| == 1 {
      FoundLast(line, rest);
      assert lines == [line];
      assert Join([line]) == line + CRLF;
      assert Join(lines) + CRLF + rest == line + CRLF + (CRLF + rest);
      n := |line|;
    } else {
      var k := HeadIsFound(lines[1..], rest);
      FoundCons(line, lines[1..], rest, k);
      assert lines == [line] + lines[1..];
      n := |line| + 2 + k;
    }
  }

  /** A non-blank line does not look like the end of the head. */
  lemma {:induction false} StartsWithLine(lines: seq<seq<char>>, rest: seq<char>)
    requires GoodHead(lines)
    ensures |Join(lines) + CRLF + rest| >= 2 && !StartsCrLf(Join(lines) + CRLF + rest)
  {
    var more := Join(lines[1..]) + CRLF + rest;
    assert Join(lines) + CRLF + rest == lines[0] + CRLF + more;
    NotCrLfStart(lines[0], more);
  }

  /** The client takes a well-framed message off the stream whole, whatever follows it. */
  lemma ParseOneInverse(m: Message, rest: seq<char>)
    requires WellFramed(m)
    ensures ParseOne(Render(m) + rest) == Some((m, rest))
  {
    var n := HeadIsFound(m.lines, m.body + rest);
    assert Render(m) + rest == Join(m.lines) + CRLF + (m.body + rest);
    assert (m.body + rest)[..|m.body|] == m.body && (m.body + rest)[|m.body|..] == rest;
  }

  lemma {:induction false} ParseAllStep(s: seq<char>, m: Message, rest: seq<char>)
    requires ParseOne(s) == Some((m, rest))
    ensures ParseAll(s) == if ParseAll(rest).None? then None else Some([m] + ParseAll(rest).value)
  {
  }

  /** A stream of well-framed messages splits back into exactly these messages. */
  lemma {:induction false} ParseAllInverse(ms: seq<Message>)
    requires forall i :: 0 <= i < |ms| ==> WellFramed(ms[i])
    ensures ParseAll(RenderAll(ms)) == Some(ms)
    decreases |ms|
  {
    if ms == [] {
    } else {
      ParseOneInverse(ms[0], RenderAll(ms[1..]));
      ParseAllInverse(ms[1..]);
      ParseAllStep(RenderAll(ms), ms[0], RenderAll(ms[1..]));
      assert [ms[0]] + ms[1..] == ms;
    }
  }

  // ---------- the 304 response ----------

  const STRAY: seq<char> := "Connection: keep-alive" + CRLF + CRLF

  /** A 304 response with its blank line before the Connection header instead of after it. */
  ghost predicate StrayNotModified(m: Message) {
    GoodHead(m.lines) && Is304(m) && m.body == STRAY
  }

  lemma StrayIsNoMessage(rest: seq<char>)
    ensures ParseOne(STRAY + rest) == None
  {
    var line := "Connection: keep-alive";
    assert line[0] == 'C' && line[3] == 'n' && CONTENT_LENGTH[3] == 't' && NOT_MODIFIED[0] == 'H';
    assert !HasCrLf(line);
    FoundLast(line, rest);
    assert STRAY + rest == line + CRLF + (CRLF + rest);
    assert !(CONTENT_LENGTH <= line) && !(NOT_MODIFIED <= line);
    assert [line][1..] == [];
    assert BodyLength([line]) == None;
    assert ParseOne(STRAY + rest) == None;
  }

  /** A 304 as the client reads it: no body, and the stray bytes still to come. */
  lemma ParseStray(m: Message, rest: seq<char>)
    requires StrayNotModified(m)
    ensures ParseOne(Render(m) + rest) == Some((Message(m.lines, []), STRAY + rest))
  {
    var n := HeadIsFound(m.lines, m.body + rest);
    assert Render(m) + rest == Join(m.lines) + CRLF + (m.body + rest);
  }

  /** The bytes after the misplaced blank line of a 304 make the stream unreadable from there on. */
  lemma {:induction false} StrayBreaksStream(ms: seq<Message>, k: nat)
    requires k < |ms| && StrayNotModified(ms[k])
    requires forall i :: 0 <= i < k ==> WellFramed(ms[i])
    ensures ParseAll(RenderAll(ms)) == None
    decreases |ms|
  {
    var rest := RenderAll(ms[1..]);
    if k == 0 {
      ParseStray(ms[0], rest);
      StrayIsNoMessage(rest);
      assert STRAY + rest != [];
      ParseAllStep(RenderAll(ms), Message(ms[0].lines, []), STRAY + rest);
    } else {
      ParseOneInverse(ms[0], rest);
      assert ms[1..][k - 1] == ms[k];
      StrayBreaksStream(ms[1..], k - 1);
      ParseAllStep(RenderAll(ms), ms[0], rest);
    }
  }

  /** The stream reads back as the messages sent exactly when there is no 304 among them. */
  lemma {:induction false} ReadsBackIffNo304(ms: seq<Message>)
    requires forall i :: 0 <= i < |ms| ==> WellFramed(ms[i]) || StrayNotModified(ms[i])
    ensures ParseAll(RenderAll(ms)) == Some(ms) <==> forall i :: 0 <= i < |ms| ==> !Is304(ms[i])
  {
    if forall i :: 0 <= i < |ms| ==> !Is304(ms[i]) {
      ParseAllInverse(ms);
    } else {
      var k := First304(ms);
      StrayBreaksStream(ms, k);
    }
  }

  lemma {:induction false} First304(ms: seq<Message>) returns (k: nat)
    requires forall i :: 0 <= i < |ms| ==> WellFramed(ms[i]) || StrayNotModified(ms[i])
    requires exists i :: 0 <= i < |ms| && Is304(ms[i])
    ensures k < |ms| && StrayNotModified(ms[k]) && forall i :: 0 <= i < k ==> WellFramed(ms[i])
  {
    k := 0;
    while WellFramed(ms[k])
      invariant k < |ms| && forall i :: 0 <= i < k ==> WellFramed(ms[i])
      decreases |ms| - k
    {
      k := k + 1;
    }
  }
}
