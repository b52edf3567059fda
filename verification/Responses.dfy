/** The responses of the server, built piece by piece in a DynamicBuffer, and the messages they amount to. */
module Responses {
  import opened Decimal
  import opened Streams
  import opened DynamicBuffer
  import opened Framing
  import FileLoop

  datatype Config = Config(signature: seq<char>, basePath: seq<char>, defaultPath: seq<char>)

  const HTML: seq<char> := "Content-Type: " + "text/html" + "; charset=UTF-8"
  const PLAIN: seq<char> := "Content-Type: " + "text/plain" + "; charset=UTF-8"
  const KEEP_ALIVE: seq<char> := "Connection: keep-alive"
  const ALLOW: seq<char> := "Allow: GET, POST, OPTIONS"
  const CLOSE: seq<char> := "Connection: close"

  // ---------- the messages ----------

  function CommonLines(cfg: Config, date: seq<char>, code: nat, message: seq<char>): seq<seq<char>> {
    ["HTTP/1.1 " + Digits(code) + " " + message, "Date: " + date, "Server: " + cfg.signature]
  }

  function ErrorBody(message: seq<char>): seq<char> {
    "<!DOCTYPE html><h1>" + message + "</h1>"
  }

  function ErrorMessage(cfg: Config, date: seq<char>, code: nat, message: seq<char>): Message {
    Message(CommonLines(cfg, date, code, message)
            + [HTML, CONTENT_LENGTH + Digits(|ErrorBody(message)|), CLOSE],
            ErrorBody(message))
  }

  function OptionsMessage(cfg: Config, date: seq<char>): Message {
    Message(CommonLines(cfg, date, 200, "OK") + [ALLOW, CONTENT_LENGTH + Digits(0), KEEP_ALIVE], [])
  }

  function ScriptMessage(cfg: Config, date: seq<char>, output: seq<char>): Message {
    Message(CommonLines(cfg, date, 200, "OK")
            + [PLAIN, CONTENT_LENGTH + Digits(|output|), KEEP_ALIVE],
            output)
  }

  function TypeLine(contentType: seq<char>): seq<char> {
    "Content-Type: " + contentType + "; charset=UTF-8"
  }

  /** lastModified is whatever strftime left in its 40 bytes; it may hold line breaks of its own. */
  function FileMessage(cfg: Config, date: seq<char>, contentType: seq<char>, etag: seq<char>, lastModified: seq<char>,
                       content: seq<char>): Message {
    Message(CommonLines(cfg, date, 200, "OK")
            + [TypeLine(contentType), "ETag: " + etag, CONTENT_LENGTH + Digits(|content|)]
            + Lines(lastModified + KEEP_ALIVE),
            content)
  }

  function NotModifiedMessage(cfg: Config, date: seq<char>): Message {
    Message(CommonLines(cfg, date, 304, "Not Modified"), STRAY)
  }

  // ---------- Join, piece by piece ----------

  lemma {:induction false} JoinAppend(a: seq<seq<char>>, b: seq<seq<char>>)
    ensures Join(a + b) == Join(a) + Join(b)
    decreases |a|
  {
    if a == [] {
      assert a + b == b;
    } else {
      assert (a + b)[1..] == a[1..] + b;
      JoinAppend(a[1..], b);
    }
  }

  lemma Assoc(a: seq<char>, b: seq<char>, c: seq<char>)
    ensures (a + b) + c == a + (b + c)
  {
  }

  lemma Join1(a: seq<char>)
    ensures Join([a]) == a + CRLF
  {
  }

  lemma Join3(a: seq<char>, b: seq<char>, c: seq<char>)
    ensures Join([a, b, c]) == a + CRLF + b + CRLF + c + CRLF
  {
    Join1(a);
    Join1(b);
    Join1(c);
    JoinAppend([a], [b]);
    JoinAppend([a, b], [c]);
    assert [a] + [b] == [a, b] && [a, b] + [c] == [a, b, c];
    Assoc(a + CRLF, b, CRLF);
    Assoc(a + CRLF + b + CRLF, c, CRLF);
  }

  /** Cutting at every CR LF and joining again gives the text back, with a final CR LF. */
  lemma {:induction false} JoinLines(s: seq<char>)
    ensures Join(Lines(s)) == s + CRLF
  {
    if s == [] {
      assert Lines(s) == [[]];
      Join1([]);
    } else if StartsCrLf(s) {
      JoinLines(s[2..]);
      assert Lines(s)[1..] == Lines(s[2..]);
      assert [] + CRLF == CRLF;
      Assoc(CRLF, s[2..], CRLF);
      assert s == CRLF + s[2..];
    } else {
      JoinLines(s[1..]);
      var r := Lines(s[1..]);
      assert Lines(s)[1..] == r[1..];
      Assoc([s[0]], r[0], CRLF);
      Assoc([s[0]], r[0] + CRLF, Join(r[1..]));
      Assoc([s[0]], s[1..], CRLF);
      assert s == [s[0]] + s[1..];
    }
  }

  /** No line has a CR LF left in it. */
  lemma {:induction false} LinesHaveNoCrLf(s: seq<char>)
    ensures forall i :: 0 <= i < |Lines(s)| ==> !HasCrLf(Lines(s)[i])
    ensures Lines(s)[0] != [] ==> s != [] && Lines(s)[0][0] == s[0]
  {
    if s == [] {
    } else if StartsCrLf(s) {
      LinesHaveNoCrLf(s[2..]);
    } else {
      LinesHaveNoCrLf(s[1..]);
      FirstLineKeeps(s, Lines(s[1..])[0]);
    }
  }

  lemma FirstLineKeeps(s: seq<char>, line: seq<char>)
    requires s != [] && !HasCrLf(line) && !StartsCrLf(s)
    requires line != [] ==> |s| >= 2 && line[0] == s[1]
    ensures !HasCrLf([s[0]] + line)
  {
    var t := [s[0]] + line;
    forall i | 0 <= i < |t| - 1
      ensures !(t[i] == '\r' && t[i + 1] == '\n')
    {
      if i > 0 {
        var j := i - 1;
        assert !(line[j] == '\r' && line[j + 1] == '\n');
      }
    }
  }

  // ---------- building and sending ----------

  /** dynamic_buffer_append_string, with what has been added to base so far. */
  method Put(db: Buffer, src: seq<char>, ghost base: seq<char>, ghost text: seq<char>) returns (ghost text': seq<char>)
    requires db.Valid() && !db.mayFail && db.Contents() == base + text
    modifies db, db.buffer
    ensures db.Valid() && (db.buffer == old(db.buffer) || fresh(db.buffer))
    ensures text' == text + src && db.Contents() == base + text'
  {
    var _ := db.AppendString(src);
    text' := text + src;
    Assoc(base, text, src);
  }

  /** dynamic_buffer_append_number, likewise. */
  method PutNumber(db: Buffer, n: nat, ghost base: seq<char>, ghost text: seq<char>) returns (ghost text': seq<char>)
    requires db.Valid() && !db.mayFail && db.Contents() == base + text && n < Pow10(19)
    modifies db, db.buffer
    ensures db.Valid() && (db.buffer == old(db.buffer) || fresh(db.buffer))
    ensures text' == text + Digits(n) && db.Contents() == base + text'
  {
    PowersOfTen();
    var _ := db.AppendNumber(n);
    text' := text + Digits(n);
    Assoc(base, text, Digits(n));
  }

  method AddStatusLine(db: Buffer, statusCode: nat, message: seq<char>)
    requires db.Valid() && !db.mayFail && statusCode < 1000
    modifies db, db.buffer
    ensures db.Valid() && (db.buffer == old(db.buffer) || fresh(db.buffer))
    ensures db.Contents() == old(db.Contents()) + ("HTTP/1.1 " + Digits(statusCode) + " " + message)
  {
    ghost var base := db.Contents();
    assert base == base + [];
    PowersOfTen();
    ghost var t := Put(db, "HTTP/1.1 ", base, []);
    assert t == "HTTP/1.1 ";
    t := PutNumber(db, statusCode, base, t);
    t := Put(db, " ", base, t);
    t := Put(db, message, base, t);
  }

  lemma CommonText(a: seq<char>, cfg: Config, date: seq<char>)
    ensures a + "\r\nDate: " + date + "\r\nServer: " + cfg.signature + "\r\n" ==
      Join([a, "Date: " + date, "Server: " + cfg.signature])
  {
    var b, c := "Date: " + date, "Server: " + cfg.signature;
    Join3(a, b, c);
    assert CRLF + "Date: " == "\r\nDate: " && CRLF + "Server: " == "\r\nServer: ";
    Assoc(a, CRLF, "Date: ");
    Assoc(a + CRLF, "Date: ", date);
    Assoc(a + CRLF + b, CRLF, "Server: ");
    Assoc(a + CRLF + b + CRLF, "Server: ", cfg.signature);
  }

  method AddCommonHeaders(db: Buffer, cfg: Config, date: seq<char>, statusCode: nat, message: seq<char>)
    requires db.Valid() && !db.mayFail && statusCode < 1000
    modifies db, db.buffer
    ensures db.Valid() && (db.buffer == old(db.buffer) || fresh(db.buffer))
    ensures db.Contents() == old(db.Contents()) + Join(CommonLines(cfg, date, statusCode, message))
  {
    ghost var base, line := db.Contents(), "HTTP/1.1 " + Digits(statusCode) + " " + message;
    AddStatusLine(db, statusCode, message);
    ghost var t := Put(db, "\r\nDate: ", base, line);
    t := Put(db, date, base, t);
    t := Put(db, "\r\nServer: ", base, t);
    t := Put(db, cfg.signature, base, t);
    t := Put(db, "\r\n", base, t);
    CommonText(line, cfg, date);
  }

  /** A message whose head is written in two parts. */
  lemma {:induction false} RenderText(common: seq<seq<char>>, lines: seq<seq<char>>, body: seq<char>)
    ensures Render(Message(common + lines, body)) == Join(common) + (Join(lines) + CRLF + body)
  {
    JoinAppend(common, lines);
    Assoc(Join(common), Join(lines), CRLF);
    Assoc(Join(common), Join(lines) + CRLF, body);
  }

  /** A type line, a length line and a connection line, as they are written. */
  lemma LengthText(a: seq<char>, digits: seq<char>, c: seq<char>)
    ensures [] + (a + CRLF + CONTENT_LENGTH) + digits + (CRLF + c + CRLF + CRLF) ==
      Join([a, CONTENT_LENGTH + digits, c]) + CRLF
  {
    Join3(a, CONTENT_LENGTH + digits, c);
    Assoc(a + CRLF, CONTENT_LENGTH, digits);
    var b := a + CRLF + (CONTENT_LENGTH + digits);
    assert [] + (a + CRLF + CONTENT_LENGTH) == a + CRLF + CONTENT_LENGTH;
    Assoc(b, CRLF, c);
    Assoc(b, CRLF + c, CRLF);
    Assoc(b, CRLF + c + CRLF, CRLF);
  }

  /** The three lines that end the head of an error or script response, and the blank line. */
  method AddLengthHeaders(db: Buffer, typeLine: seq<char>, length: nat, connectionLine: seq<char>)
    requires db.Valid() && !db.mayFail && length < Pow10(19)
    modifies db, db.buffer
    ensures db.Valid() && (db.buffer == old(db.buffer) || fresh(db.buffer))
    ensures db.Contents() ==
      old(db.Contents()) + (Join([typeLine, CONTENT_LENGTH + Digits(length), connectionLine]) + CRLF)
  {
    ghost var base := db.Contents();
    assert base == base + [];
    ghost var t := Put(db, typeLine + CRLF + CONTENT_LENGTH, base, []);
    t := PutNumber(db, length, base, t);
    t := Put(db, CRLF + connectionLine + CRLF + CRLF, base, t);
    LengthText(typeLine, Digits(length), connectionLine);
  }

  method ResponseError(out: Outbox, cfg: Config, date: seq<char>, statusCode: nat, message: seq<char>)
    requires statusCode < 1000 && |ErrorBody(message)| < 1000
    modifies out
    ensures out.sends == old(out.sends) + [Render(ErrorMessage(cfg, date, statusCode, message))]
  {
    var body1, body2 := "<!DOCTYPE html><h1>", "</h1>";
    var db := new Buffer(DEFAULT_INITIAL_CAPACITY, false);
    AddCommonHeaders(db, cfg, date, statusCode, message);
    AddErrorBody(db, message, body1, body2);
    HeadAndBody(CommonLines(cfg, date, statusCode, message), HTML, |body1 + message + body2|, CLOSE,
      body1 + message + body2);
    var data := db.Get();
    out.Send(data);
  }

  method AddErrorBody(db: Buffer, message: seq<char>, body1: seq<char>, body2: seq<char>)
    requires db.Valid() && !db.mayFail && |body1 + message + body2| < 1000
    modifies db, db.buffer
    ensures db.Valid() && (db.buffer == old(db.buffer) || fresh(db.buffer))
    ensures db.Contents() == old(db.Contents())
      + (Join([HTML, CONTENT_LENGTH + Digits(|body1 + message + body2|), CLOSE]) + CRLF + (body1 + message + body2))
  {
    PowersOfTen();
    ghost var base := db.Contents();
    ghost var head := Join([HTML, CONTENT_LENGTH + Digits(|body1 + message + body2|), CLOSE]) + CRLF;
    AddLengthHeaders(db, HTML, |body1| + |message| + |body2|, CLOSE);
    ghost var t := Put(db, body1, base, head);
    t := Put(db, message, base, t);
    t := Put(db, body2, base, t);
    Assoc(head, body1, message);
    Assoc(head, body1 + message, body2);
  }

  /** A response with a three-line second part. */
  lemma {:induction false} HeadAndBody(common: seq<seq<char>>, typeLine: seq<char>, length: nat,
                                       connectionLine: seq<char>, body: seq<char>)
    ensures [] + Join(common) + (Join([typeLine, CONTENT_LENGTH + Digits(length), connectionLine]) + CRLF + body)
         == Render(Message(common + [typeLine, CONTENT_LENGTH + Digits(length), connectionLine], body))
  {
    assert [] + Join(common) == Join(common);
    RenderText(common, [typeLine, CONTENT_LENGTH + Digits(length), connectionLine], body);
  }

  method AddOptionsLines(db: Buffer)
    requires db.Valid() && !db.mayFail
    modifies db, db.buffer
    ensures db.Valid() && (db.buffer == old(db.buffer) || fresh(db.buffer))
    ensures db.Contents() ==
      old(db.Contents()) + (ALLOW + CRLF + (CONTENT_LENGTH + "0" + CRLF) + (KEEP_ALIVE + CRLF + CRLF))
  {
    ghost var base := db.Contents();
    assert base == base + [];
    ghost var t := Put(db, ALLOW + CRLF, base, []);
    assert t == ALLOW + CRLF;
    t := Put(db, CONTENT_LENGTH + "0" + CRLF, base, t);
    t := Put(db, KEEP_ALIVE + CRLF + CRLF, base, t);
  }

  method ResponseOptions(out: Outbox, cfg: Config, date: seq<char>)
    modifies out
    ensures out.sends == old(out.sends) + [Render(OptionsMessage(cfg, date))]
  {
    var db := new Buffer(DEFAULT_INITIAL_CAPACITY, false);
    AddCommonHeaders(db, cfg, date, 200, "OK");
    AddOptionsLines(db);
    OptionsText(CommonLines(cfg, date, 200, "OK"), ALLOW, KEEP_ALIVE);
    var data := db.Get();
    out.Send(data);
  }

  lemma {:induction false} OptionsText(common: seq<seq<char>>, a: seq<char>, c: seq<char>)
    ensures [] + Join(common) + (a + CRLF + (CONTENT_LENGTH + "0" + CRLF) + (c + CRLF + CRLF))
         == Render(Message(common + [a, CONTENT_LENGTH + Digits(0), c], []))
  {
    var b := CONTENT_LENGTH + Digits(0);
    assert Digits(0) == "0";
    assert [] + Join(common) == Join(common);
    Join3(a, b, c);
    Assoc(a + CRLF, b, CRLF);
    Assoc(a + CRLF + b + CRLF, c, CRLF);
    Assoc(a + CRLF + b + CRLF, c + CRLF, CRLF);
    RenderText(common, [a, b, c], []);
    assert Join([a, b, c]) + CRLF + [] == Join([a, b, c]) + CRLF;
  }

  /** The 200 response around a script's output. */
  method SendScriptOutput(out: Outbox, cfg: Config, date: seq<char>, output: Buffer)
    requires output.Valid() && |output.Contents()| < Pow10(19)
    modifies out
    ensures out.sends == old(out.sends) + [Render(ScriptMessage(cfg, date, output.Contents()))]
  {
    var response := new Buffer(DEFAULT_INITIAL_CAPACITY, false);
    var text := output.Get();
    AddCommonHeaders(response, cfg, date, 200, "OK");
    AddScriptOutput(response, output.size, text);
    HeadAndBody(CommonLines(cfg, date, 200, "OK"), PLAIN, |text|, KEEP_ALIVE, text);
    var data := response.Get();
    out.Send(data);
  }

  method AddScriptOutput(db: Buffer, size: nat, text: seq<char>)
    requires db.Valid() && !db.mayFail && size == |text| < Pow10(19)
    modifies db, db.buffer
    ensures db.Valid() && (db.buffer == old(db.buffer) || fresh(db.buffer))
    ensures db.Contents() ==
      old(db.Contents()) + (Join([PLAIN, CONTENT_LENGTH + Digits(|text|), KEEP_ALIVE]) + CRLF + text)
  {
    ghost var base, head := db.Contents(), Join([PLAIN, CONTENT_LENGTH + Digits(|text|), KEEP_ALIVE]) + CRLF;
    AddLengthHeaders(db, PLAIN, size, KEEP_ALIVE);
    ghost var t := Put(db, text, base, head);
  }

  // ---------- files ----------

  /** s cut into pieces of exactly n bytes, the last one possibly shorter. */
  function Chunks(s: seq<char>, n: nat): seq<seq<char>>
    requires n > 0
    decreases |s|
  {
    if s == [] then [] else if |s| <= n then [s] else [s[..n]] + Chunks(s[n..], n)
  }

  /** The pieces make up s, and all but the last are exactly n bytes long. */
  lemma {:induction false} ChunksShape(s: seq<char>, n: nat)
    requires n > 0
    ensures Flatten(Chunks(s, n)) == s
    ensures forall i :: 0 <= i < |Chunks(s, n)| ==> 0 < |Chunks(s, n)[i]| <= n
    ensures forall i :: 0 <= i < |Chunks(s, n)| - 1 ==> |Chunks(s, n)[i]| == n
    decreases |s|
  {
    if |s| > n {
      ChunksShape(s[n..], n);
      assert s == s[..n] + s[n..];
      assert Chunks(s, n)[1..] == Chunks(s[n..], n);
    } else if s != [] {
      assert Chunks(s, n) == [s] && [s][1..] == [];
    }
  }

  /** There are ceil(|s| / n) pieces. */
  lemma {:induction false} ChunksCount(s: seq<char>, n: nat)
    requires n > 0
    ensures n * |Chunks(s, n)| >= |s|
    ensures s != [] ==> |s| > n * (|Chunks(s, n)| - 1)
    decreases |s|
  {
    if |s| > n {
      ChunksCount(s[n..], n);
      var k := |Chunks(s[n..], n)|;
      assert n * (k + 1) == n * k + n && n * (k + 1 - 1) == n * (k - 1) + n;
    }
  }

  lemma {:induction false} ChunksOfFull(c: seq<char>, rest: seq<char>)
    requires c != []
    ensures Chunks(c + rest, |c|) == [c] + Chunks(rest, |c|)
  {
    if rest == [] {
      assert c + rest == c;
    } else {
      assert (c + rest)[..|c|] == c && (c + rest)[|c|..] == rest;
    }
  }

  /**
   The loop of response_get and its final send, whenever the loop ends at all: header block and as much of the file as
   stat announced go out in pieces of exactly the buffer's capacity. A header block that fills the buffer is sent
   before any of the file is read.
   */
  method StreamFile(out: Outbox, db: Buffer, f: File, size: nat)
    requires db.Valid() && db.capacity > 0 && FileLoop.WillEnd(size, db.size, |f.rest|, db.capacity)
    modifies out, db, db.buffer, f
    ensures db.Valid() && size <= |old(f.rest)| && f.rest == old(f.rest)[size..]
    ensures out.sends == old(out.sends) + Chunks(old(db.Contents()) + old(f.rest)[..size], old(db.capacity))
  {
    ghost var sent, cap, total, all := out.sends, db.capacity, db.Contents() + f.rest[..size], f.rest;
    ghost var done: seq<seq<char>> := [];
    var fileSize: nat := size;
    assert done + Chunks(total, cap) == Chunks(total, cap);
    while fileSize > 0
      invariant db.Valid() && db.capacity == cap && db.buffer == old(db.buffer)
      invariant fileSize <= size <= |all| && f.rest == all[size - fileSize..]
      invariant FileLoop.WillEnd(fileSize, db.size, |f.rest|, cap)
      invariant out.sends == sent + done && done + Chunks(db.Contents() + f.rest[..fileSize], cap) == Chunks(total, cap)
      decreases fileSize, db.size
    {
      fileSize := FillOnce(db, f, fileSize);
      var full := db.IsFull();
      if full {
        done := SendFull(out, db, sent, done, f.rest[..fileSize], total);
      }
    }
    assert db.Contents() + f.rest[..0] == db.Contents();
    var empty := db.IsEmpty();
    if !empty {
      var data := db.Get();
      Assoc'(sent, done, [data]);
      out.Send(data);
    }
  }

  /** Sends a full buffer as the next piece of the total. */
  method SendFull(out: Outbox, db: Buffer, ghost sent: seq<seq<char>>, ghost done: seq<seq<char>>,
                  ghost rest: seq<char>, ghost total: seq<char>)
    returns (ghost done': seq<seq<char>>)
    requires db.Valid() && db.size == db.capacity > 0
    requires out.sends == sent + done && done + Chunks(db.Contents() + rest, db.capacity) == Chunks(total, db.capacity)
    modifies out, db`size
    ensures db.Valid() && db.size == 0
    ensures out.sends == sent + done' && done' + Chunks(db.Contents() + rest, db.capacity) == Chunks(total, db.capacity)
  {
    var data := db.Get();
    ChunksOfFull(data, rest);
    Assoc'(done, [data], Chunks(rest, db.capacity));
    Assoc'(sent, done, [data]);
    out.Send(data);
    done' := done + [data];
    db.Clear();
    assert db.Contents() + rest == rest;
  }

  /** One turn of the loop up to the send: what is buffered and what is still to come stay the same together. */
  method FillOnce(db: Buffer, f: File, fileSize: nat) returns (left: nat)
    requires db.Valid() && db.capacity > 0 && fileSize > 0 && FileLoop.WillEnd(fileSize, db.size, |f.rest|, db.capacity)
    modifies db`size, db.buffer, f
    ensures db.Valid() && left <= fileSize && (left == fileSize ==> db.size == db.capacity)
    ensures fileSize - left <= |old(f.rest)| && f.rest == old(f.rest)[fileSize - left..] && left <= |f.rest|
    ensures FileLoop.WillEnd(left, if db.size == db.capacity then 0 else db.size, |f.rest|, db.capacity)
    ensures fileSize <= |old(f.rest)| && db.Contents() + f.rest[..left] == old(db.Contents()) + old(f.rest)[..fileSize]
  {
    ghost var held, rest := db.Contents(), f.rest;
    if fileSize != |f.rest| {
      FileLoop.BigEnough(fileSize, db.size, db.capacity);
    }
    var bytesRead := db.AppendFileChunked(f);
    left := fileSize - bytesRead;
    TakeMore(held, rest, bytesRead, left);
  }

  /** Moving n bytes from the file to the buffer changes nothing about the two together. */
  lemma TakeMore(held: seq<char>, rest: seq<char>, n: nat, left: nat)
    requires n + left <= |rest|
    ensures (held + rest[..n]) + rest[n..][..left] == held + rest[..n + left]
  {
    Assoc(held, rest[..n], rest[n..][..left]);
    assert rest[..n + left] == rest[..n] + rest[n..][..left];
  }

  lemma Assoc'(a: seq<seq<char>>, b: seq<seq<char>>, c: seq<seq<char>>)
    ensures (a + b) + c == a + (b + c)
  {
  }

  method AddTypeAndTag(db: Buffer, contentType: seq<char>, etag: seq<char>)
    requires db.Valid() && !db.mayFail
    modifies db, db.buffer
    ensures db.Valid() && (db.buffer == old(db.buffer) || fresh(db.buffer))
    ensures db.Contents() == old(db.Contents()) + (TypeLine(contentType) + CRLF + ("ETag: " + etag))
  {
    ghost var base := db.Contents();
    assert base == base + [];
    ghost var t := Put(db, "Content-Type: ", base, []);
    t := Put(db, contentType, base, t);
    t := Put(db, "; charset=UTF-8" + CRLF, base, t);
    t := Put(db, "ETag: ", base, t);
    t := Put(db, etag, base, t);
    assert [] + "Content-Type: " == "Content-Type: ";
    Assoc("Content-Type: " + contentType, "; charset=UTF-8", CRLF);
    Assoc(TypeLine(contentType) + CRLF, "ETag: ", etag);
  }

  method AddLengthAndRest(db: Buffer, size: nat, lastModified: seq<char>)
    requires db.Valid() && !db.mayFail && size < Pow10(19)
    modifies db, db.buffer
    ensures db.Valid() && (db.buffer == old(db.buffer) || fresh(db.buffer))
    ensures db.Contents() ==
      old(db.Contents()) + (CRLF + (CONTENT_LENGTH + Digits(size)) + CRLF + (lastModified + KEEP_ALIVE) + CRLF + CRLF)
  {
    ghost var base := db.Contents();
    assert base == base + [];
    ghost var t := Put(db, CRLF + CONTENT_LENGTH, base, []);
    t := PutNumber(db, size, base, t);
    t := Put(db, CRLF, base, t);
    t := Put(db, lastModified, base, t);
    t := Put(db, KEEP_ALIVE + CRLF + CRLF, base, t);
    RestText(Digits(size), lastModified, KEEP_ALIVE);
  }

  lemma RestText(digits: seq<char>, lastModified: seq<char>, c: seq<char>)
    ensures [] + (CRLF + CONTENT_LENGTH) + digits + CRLF + lastModified + (c + CRLF + CRLF)
         == CRLF + (CONTENT_LENGTH + digits) + CRLF + (lastModified + c) + CRLF + CRLF
  {
    var t := CRLF + (CONTENT_LENGTH + digits) + CRLF;
    assert [] + (CRLF + CONTENT_LENGTH) == CRLF + CONTENT_LENGTH;
    Assoc(CRLF, CONTENT_LENGTH, digits);
    Assoc(t, lastModified, c);
    Assoc(t + lastModified, c, CRLF);
    Assoc(t + lastModified, c + CRLF, CRLF);
  }

  /** The 200 response for a file, up to the bytes of the file. */
  method AddFileHeaders(db: Buffer, cfg: Config, date: seq<char>, contentType: seq<char>, etag: seq<char>,
                        lastModified: seq<char>, size: nat)
    requires db.Valid() && !db.mayFail && db.Contents() == [] && size < Pow10(19)
    modifies db, db.buffer
    ensures db.Valid() && (db.buffer == old(db.buffer) || fresh(db.buffer)) && db.Contents() != []
    ensures forall content: seq<char> :: |content| == size ==>
      db.Contents() + content == Render(FileMessage(cfg, date, contentType, etag, lastModified, content))
  {
    AddCommonHeaders(db, cfg, date, 200, "OK");
    AddTypeAndTag(db, contentType, etag);
    AddLengthAndRest(db, size, lastModified);
    forall content: seq<char> | |content| == size
      ensures db.Contents() + content == Render(FileMessage(cfg, date, contentType, etag, lastModified, content))
    {
      FileText(CommonLines(cfg, date, 200, "OK"), TypeLine(contentType), "ETag: " + etag, CONTENT_LENGTH + Digits(size),
        lastModified + KEEP_ALIVE, content);
    }
  }

  lemma {:induction false} FileText(common: seq<seq<char>>, a: seq<char>, b: seq<char>, c: seq<char>, tail: seq<char>,
                                    content: seq<char>)
    ensures [] + Join(common) + (a + CRLF + b) + (CRLF + c + CRLF + tail + CRLF + CRLF) + content
         == Render(Message(common + [a, b, c] + Lines(tail), content))
  {
    var head := a + CRLF + b + CRLF + c + CRLF;
    Join3(a, b, c);
    JoinLines(tail);
    JoinAppend([a, b, c], Lines(tail));
    Assoc(head, tail, CRLF);
    RegroupRest(a + CRLF + b, c, tail);
    assert [] + Join(common) == Join(common);
    Assoc(Join(common), a + CRLF + b, CRLF + c + CRLF + tail + CRLF + CRLF);
    Assoc(Join(common), head + tail + CRLF + CRLF, content);
    assert common + [a, b, c] + Lines(tail) == common + ([a, b, c] + Lines(tail));
    RenderText(common, [a, b, c] + Lines(tail), content);
  }

  lemma RegroupRest(ab: seq<char>, c: seq<char>, tail: seq<char>)
    ensures ab + (CRLF + c + CRLF + tail + CRLF + CRLF) == ab + CRLF + c + CRLF + tail + CRLF + CRLF
  {
    Assoc(ab, CRLF, c);
    Assoc(ab, CRLF + c, CRLF);
    Assoc(ab, CRLF + c + CRLF, tail);
    Assoc(ab, CRLF + c + CRLF + tail, CRLF);
    Assoc(ab, CRLF + c + CRLF + tail + CRLF, CRLF);
  }

  /** The 304 response, whose blank line comes one line too early. */
  method AddNotModified(db: Buffer, cfg: Config, date: seq<char>)
    requires db.Valid() && !db.mayFail && db.Contents() == []
    modifies db, db.buffer
    ensures db.Valid() && (db.buffer == old(db.buffer) || fresh(db.buffer))
    ensures db.Contents() == Render(NotModifiedMessage(cfg, date))
  {
    AddCommonHeaders(db, cfg, date, 304, "Not Modified");
    ghost var base := db.Contents();
    assert base == base + [];
    ghost var t := Put(db, CRLF + STRAY, base, []);
    assert t == CRLF + STRAY;
    assert base == Join(CommonLines(cfg, date, 304, "Not Modified"));
    Assoc(base, CRLF, STRAY);
  }
}
