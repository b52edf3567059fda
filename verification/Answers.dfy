/**
 What each kind of request gets, in the words of the protocol: status, header lines, body and what comes of the
 connection.
 */
module Answers {
  import opened Common
  import opened Decimal
  import opened Streams
  import opened Targets
  import opened Requests
  import opened ETags
  import opened Framing
  import opened Responses
  import opened ResponseFraming
  import opened Connections

  // ---------- the bytes of the responses ----------

  /** The first three lines, as they are sent. */
  function Opening(cfg: Config, date: seq<char>, status: seq<char>): seq<char> {
    "HTTP/1.1 " + status + "\r\nDate: " + date + "\r\nServer: " + cfg.signature + "\r\n"
  }

  lemma {:induction false} OpeningText(cfg: Config, date: seq<char>, code: nat, message: seq<char>)
    ensures Join(CommonLines(cfg, date, code, message)) == Opening(cfg, date, Digits(code) + " " + message)
  {
    var status := "HTTP/1.1 " + Digits(code) + " " + message;
    CommonText(status, cfg, date);
    assert status == "HTTP/1.1 " + (Digits(code) + " " + message);
  }

  /** A response with three lines after the opening, and its body. */
  lemma {:induction false} ThreeLines(cfg: Config, date: seq<char>, code: nat, message: seq<char>, status: seq<char>,
                                      a: seq<char>, b: seq<char>, c: seq<char>, body: seq<char>)
    requires status == Digits(code) + " " + message
    ensures Render(Message(CommonLines(cfg, date, code, message) + [a, b, c], body)) ==
      Opening(cfg, date, status) + (a + CRLF + b + CRLF + c + CRLF + CRLF + body)
  {
    OpeningText(cfg, date, code, message);
    RenderText(CommonLines(cfg, date, code, message), [a, b, c], body);
    Join3(a, b, c);
  }

  /** The fixed parts of the responses. */
  lemma FixedTexts()
    ensures CRLF == "\r\n" && CONTENT_LENGTH == "Content-Length: "
    ensures HTML == "Content-Type: text/html; charset=UTF-8" && PLAIN == "Content-Type: text/plain; charset=UTF-8"
    ensures CLOSE == "Connection: close" && KEEP_ALIVE == "Connection: keep-alive"
    ensures ALLOW == "Allow: GET, POST, OPTIONS" && STRAY == "Connection: keep-alive\r\n\r\n"
  {
  }

  lemma {:induction false} ErrorText(cfg: Config, date: seq<char>, code: nat, message: seq<char>, body: seq<char>)
    requires body == "<!DOCTYPE html><h1>" + message + "</h1>"
    ensures Render(ErrorMessage(cfg, date, code, message)) == Opening(cfg, date, Digits(code) + " " + message)
      + (HTML + CRLF + (CONTENT_LENGTH + Digits(|body|)) + CRLF + CLOSE + CRLF + CRLF + body)
  {
    ThreeLines(cfg, date, code, message, Digits(code) + " " + message, HTML, CONTENT_LENGTH + Digits(|body|), CLOSE,
      body);
  }

  lemma OptionsText(cfg: Config, date: seq<char>)
    ensures Render(OptionsMessage(cfg, date)) == Opening(cfg, date, "200 OK")
      + (ALLOW + CRLF + (CONTENT_LENGTH + "0") + CRLF + KEEP_ALIVE + CRLF + CRLF + [])
  {
    StatusTexts();
    assert Digits(0) == "0";
    ThreeLines(cfg, date, 200, "OK", "200 OK", ALLOW, CONTENT_LENGTH + Digits(0), KEEP_ALIVE, []);
  }

  lemma {:induction false} ScriptText(cfg: Config, date: seq<char>, output: seq<char>)
    ensures Render(ScriptMessage(cfg, date, output)) == Opening(cfg, date, "200 OK")
      + (PLAIN + CRLF + (CONTENT_LENGTH + Digits(|output|)) + CRLF + KEEP_ALIVE + CRLF + CRLF + output)
  {
    StatusTexts();
    ThreeLines(cfg, date, 200, "OK", "200 OK", PLAIN, CONTENT_LENGTH + Digits(|output|), KEEP_ALIVE, output);
  }

  /** The blank line comes before the Connection header. */
  lemma NotModifiedText(cfg: Config, date: seq<char>)
    ensures Render(NotModifiedMessage(cfg, date)) == Opening(cfg, date, "304 Not Modified") + CRLF + STRAY
  {
    OpeningText(cfg, date, 304, "Not Modified");
    StatusTexts();
  }

  lemma {:induction false} FileBytes(cfg: Config, date: seq<char>, contentType: seq<char>, etag: seq<char>,
                                     lastModified: seq<char>, content: seq<char>)
    ensures Render(FileMessage(cfg, date, contentType, etag, lastModified, content)) == Opening(cfg, date, "200 OK")
      + (TypeLine(contentType) + CRLF + ("ETag: " + etag) + CRLF + (CONTENT_LENGTH + Digits(|content|)) + CRLF
         + (lastModified + KEEP_ALIVE) + CRLF + CRLF + content)
  {
    OpeningText(cfg, date, 200, "OK");
    StatusTexts();
    FileParts(CommonLines(cfg, date, 200, "OK"), TypeLine(contentType), "ETag: " + etag,
      CONTENT_LENGTH + Digits(|content|),
      lastModified + KEEP_ALIVE, content);
  }

  lemma {:induction false} FileParts(common: seq<seq<char>>, a: seq<char>, b: seq<char>, c: seq<char>, tail: seq<char>,
                                     content: seq<char>)
    ensures Render(Message(common + [a, b, c] + Lines(tail), content)) ==
      Join(common) + (a + CRLF + b + CRLF + c + CRLF + tail + CRLF + CRLF + content)
  {
    assert common + [a, b, c] + Lines(tail) == common + ([a, b, c] + Lines(tail));
    RenderText(common, [a, b, c] + Lines(tail), content);
    JoinAppend([a, b, c], Lines(tail));
    Join3(a, b, c);
    JoinLines(tail);
    Assoc(a + CRLF + b + CRLF + c + CRLF, tail, CRLF);
  }

  lemma StatusTexts()
    ensures Digits(200) + " " + "OK" == "200 OK" && Digits(304) + " " + "Not Modified" == "304 Not Modified"
    ensures Digits(400) == "400" && Digits(404) == "404" && Digits(500) == "500" && Digits(501) == "501"
  {
    ThreeDigits(200, 2, 0, 0);
    ThreeDigits(304, 3, 0, 4);
    ThreeDigits(400, 4, 0, 0);
    ThreeDigits(404, 4, 0, 4);
    ThreeDigits(500, 5, 0, 0);
    ThreeDigits(501, 5, 0, 1);
  }

  lemma {:induction false} ThreeDigits(n: nat, a: nat, b: nat, c: nat)
    requires 0 < a < 10 && b < 10 && c < 10 && n == 100 * a + 10 * b + c
    ensures Digits(n) == [DigitChar(a), DigitChar(b), DigitChar(c)]
  {
    OneMoreDigit(n, 10 * a + b, c);
    OneMoreDigit(10 * a + b, a, b);
    assert Digits(a) == [DigitChar(a)];
  }

  lemma {:induction false} OneMoreDigit(n: nat, q: nat, d: nat)
    requires 0 < q && d < 10 && n == 10 * q + d
    ensures Digits(n) == Digits(q) + [DigitChar(d)]
  {
    assert n / 10 == q && n % 10 == d;
  }

  // ---------- the answers ----------

  /** The value of the first header line with this name. */
  function Field(lines: seq<seq<char>>, name: seq<char>): Option<seq<char>> {
    if lines == [] then None
    else if name + ": " <= lines[0] then Some(lines[0][|name| + 2..])
    else Field(lines[1..], name)
  }

  /** The reply has this status, closes the connection or not, and comes from this server. */
  predicate Is(reply: Reply, status: seq<char>, cfg: Config, a: Ambient) {
    && reply.Reply? && |reply.message.lines| >= 3
    && reply.message.lines[0] == "HTTP/1.1 " + status
    && reply.message.lines[1] == "Date: " + a.date && reply.message.lines[2] == "Server: " + cfg.signature
  }

  /** The worker goes on to the next request of this client. */
  predicate KeepsOpen(reply: Reply)
    requires reply.Reply?
  {
    !Closing(Done(reply.code))
  }

  /** The worker leaves its loop and closes the connection. */
  predicate EndsIt(reply: Reply)
    requires reply.Reply?
  {
    Closing(Done(reply.code))
  }

  /** An error message for people, after which the client is told that the connection ends. */
  predicate IsError(reply: Reply, status: seq<char>, reason: seq<char>, cfg: Config, a: Ambient) {
    && Is(reply, status + " " + reason, cfg, a)
    && reply.message.body == "<!DOCTYPE html><h1>" + reason + "</h1>"
    && "Connection: close" in reply.message.lines
  }

  lemma {:induction false} ErrorIs(cfg: Config, a: Ambient, code: nat, reason: seq<char>, result: int,
                                   status: seq<char>)
    requires status == Digits(code)
    ensures IsError(Reply(ErrorMessage(cfg, a.date, code, reason), result), status, reason, cfg, a)
  {
    var lines := ErrorMessage(cfg, a.date, code, reason).lines;
    assert lines[5] == CLOSE;
    assert "HTTP/1.1 " + Digits(code) + " " + reason == "HTTP/1.1 " + (status + " " + reason);
  }

  /** The file a path stands for. */
  predicate Names(cfg: Config, path: seq<char>, name: seq<char>) {
    name == if path == "/" then cfg.basePath + cfg.defaultPath else cfg.basePath + path
  }

  /** The end of this name from its last dot on. */
  predicate HasExtension(name: seq<char>, extension: seq<char>) {
    exists k :: 0 <= k < |name| && name[k] == '.' && '.' !in name[k + 1..] && name[k..] == extension
  }

  lemma {:induction false} ExtensionIs(name: seq<char>, extension: seq<char>)
    requires HasExtension(name, extension)
    ensures Extension(name) == Some(extension)
  {
    var k :| 0 <= k < |name| && name[k] == '.' && '.' !in name[k + 1..] && name[k..] == extension;
    ExtensionAt(name, k);
  }

  /** The request brings back the tag of the file as it is now. */
  predicate BringsTag(a: Ambient, path: seq<char>, name: seq<char>, headers: seq<Header>)
    requires name in a.files
  {
    FirstHeader(headers, "If-None-Match").GetOr([]) == Etag(a.files[name].modified, path)
  }

  /** None of the first three lines is this field. */
  lemma {:induction false} FieldAfterCommon(cfg: Config, date: seq<char>, code: nat, message: seq<char>,
                                            rest: seq<seq<char>>, name: seq<char>)
    requires name != [] && name[0] != 'H' && name[0] != 'D' && name[0] != 'S'
    ensures Field(CommonLines(cfg, date, code, message) + rest, name) == Field(rest, name)
  {
    var lines := CommonLines(cfg, date, code, message);
    assert lines[0][0] == 'H' && lines[1][0] == 'D' && lines[2][0] == 'S';
    SkipThree(lines[0], lines[1], lines[2], rest, name);
    assert lines == [lines[0], lines[1], lines[2]];
  }

  lemma {:induction false} SkipThree(a: seq<char>, b: seq<char>, c: seq<char>, rest: seq<seq<char>>, name: seq<char>)
    requires name != [] && a != [] && b != [] && c != []
    requires a[0] != name[0] && b[0] != name[0] && c[0] != name[0]
    ensures Field([a, b, c] + rest, name) == Field(rest, name)
  {
    SkipField(a, [b] + ([c] + rest), name, 0);
    SkipField(b, [c] + rest, name, 0);
    SkipField(c, rest, name, 0);
    assert [a, b, c] + rest == [a] + ([b] + ([c] + rest));
  }

  lemma {:induction false} SkipField(line: seq<char>, rest: seq<seq<char>>, name: seq<char>, k: nat)
    requires k < |name| && k < |line| && line[k] != name[k]
    ensures Field([line] + rest, name) == Field(rest, name)
  {
    assert ([line] + rest)[1..] == rest;
    assert (name + ": ")[k] == name[k];
  }

  lemma {:induction false} FieldFirst(name: seq<char>, value: seq<char>, rest: seq<seq<char>>)
    ensures Field([name + ": " + value] + rest, name) == Some(value)
  {
    assert (name + ": " + value)[|name| + 2..] == value;
  }

  lemma {:induction false} OpeningLines(cfg: Config, date: seq<char>, code: nat, message: seq<char>, status: seq<char>)
    requires status == Digits(code) + " " + message
    ensures CommonLines(cfg, date, code, message) == ["HTTP/1.1 " + status, "Date: " + date, "Server: " + cfg.signature]
  {
    assert "HTTP/1.1 " + status == "HTTP/1.1 " + Digits(code) + " " + message;
  }

  lemma {:induction false} FileLines(cfg: Config, date: seq<char>, contentType: seq<char>, etag: seq<char>,
                                     lastModified: seq<char>, content: seq<char>)
    ensures var lines := FileMessage(cfg, date, contentType, etag, lastModified, content).lines;
      && |lines| >= 6 && lines[0] == "HTTP/1.1 " + "200 OK" && lines[1] == "Date: " + date
      && lines[2] == "Server: " + cfg.signature
      && Field(lines, "Content-Type") == Some(contentType + "; charset=UTF-8")
      && Field(lines, "ETag") == Some(etag) && Field(lines, "Content-Length") == Some(Digits(|content|))
  {
    StatusTexts();
    OpeningLines(cfg, date, 200, "OK", "200 OK");
    var t, e, l := TypeLine(contentType), "ETag: " + etag, CONTENT_LENGTH + Digits(|content|);
    var tail := Lines(lastModified + KEEP_ALIVE);
    assert CommonLines(cfg, date, 200, "OK") + [t, e, l] + tail
        == CommonLines(cfg, date, 200, "OK") + ([t] + ([e] + ([l] + tail)));
    FieldAfterCommon(cfg, date, 200, "OK", [t] + ([e] + ([l] + tail)), "Content-Type");
    FieldAfterCommon(cfg, date, 200, "OK", [t] + ([e] + ([l] + tail)), "ETag");
    FieldAfterCommon(cfg, date, 200, "OK", [t] + ([e] + ([l] + tail)), "Content-Length");
    FileFields(contentType, etag, Digits(|content|), tail);
  }

  lemma FileFields(contentType: seq<char>, etag: seq<char>, digits: seq<char>, tail: seq<seq<char>>)
    ensures var rest := [TypeLine(contentType)] + (["ETag: " + etag] + ([CONTENT_LENGTH + digits] + tail));
      && Field(rest, "Content-Type") == Some(contentType + "; charset=UTF-8")
      && Field(rest, "ETag") == Some(etag) && Field(rest, "Content-Length") == Some(digits)
  {
    var t, e, l := TypeLine(contentType), "ETag: " + etag, CONTENT_LENGTH + digits;
    assert t == "Content-Type" + ": " + (contentType + "; charset=UTF-8");
    assert e == "ETag" + ": " + etag && l == "Content-Length" + ": " + digits;
    FieldFirst("Content-Type", contentType + "; charset=UTF-8", [e] + ([l] + tail));
    SkipField(t, [e] + ([l] + tail), "ETag", 0);
    FieldFirst("ETag", etag, [l] + tail);
    SkipField(t, [e] + ([l] + tail), "Content-Length", 8);
    SkipField(e, [l] + tail, "Content-Length", 0);
    FieldFirst("Content-Length", digits, tail);
  }

  /** A path that stands for this readable file of a known type. */
  predicate Finds(cfg: Config, a: Ambient, path: seq<char>, name: seq<char>, extension: seq<char>) {
    && Names(cfg, path, name) && name in a.files && a.files[name].readable
    && HasExtension(name, extension) && ContentType(extension).Some?
  }

  /** The reply is the whole of this file, with its type, its length and its tag. */
  predicate IsFile(reply: Reply, cfg: Config, a: Ambient, path: seq<char>, name: seq<char>, contentType: seq<char>)
    requires name in a.files
  {
    && Is(reply, "200 OK", cfg, a) && KeepsOpen(reply)
    && reply.message.body == a.files[name].content
    && Field(reply.message.lines, "Content-Type") == Some(contentType + "; charset=UTF-8")
    && Field(reply.message.lines, "Content-Length") == Some(Digits(|a.files[name].content|))
    && Field(reply.message.lines, "ETag") == Some(Etag(a.files[name].modified, path))
  }

  /** A GET for a readable file of a known type gets it. */
  lemma GetServesFile(cfg: Config, a: Ambient, path: seq<char>, headers: seq<Header>, name: seq<char>,
                      extension: seq<char>)
    ensures Finds(cfg, a, path, name, extension) && !BringsTag(a, path, name, headers) ==>
      IsFile(Answer(cfg, a, "GET", path, headers), cfg, a, path, name, ContentType(extension).value)
  {
    if Finds(cfg, a, path, name, extension) && !BringsTag(a, path, name, headers) {
      var info := a.files[name];
      GetIsFile(cfg, a, path, headers, name, extension);
      FileLines(cfg, a.date, ContentType(extension).value, Etag(info.modified, path), a.lastModified, info.content);
    }
  }

  lemma {:induction false} GetIsFile(cfg: Config, a: Ambient, path: seq<char>, headers: seq<Header>, name: seq<char>,
                  extension: seq<char>)
    requires Names(cfg, path, name) && HasExtension(name, extension) && ContentType(extension).Some?
    ensures Answer(cfg, a, "GET", path, headers) ==
      FileReply(cfg, a, name, extension, path, FirstHeader(headers, "If-None-Match").GetOr([]))
  {
    ExtensionIs(name, extension);
    TypedIsNoScript(extension);
  }

  lemma TypedIsNoScript(extension: seq<char>)
    requires ContentType(extension).Some?
    ensures !IsScript(extension)
  {
    if IsScript(extension) {
      ScriptsHaveNoType(extension);
    }
  }

  /** The reply is a 304 and no file. */
  predicate IsNotModified(reply: Reply, cfg: Config, a: Ambient) {
    && Is(reply, "304 Not Modified", cfg, a) && KeepsOpen(reply)
    && reply.message.body == "Connection: keep-alive\r\n\r\n" && |reply.message.lines| == 3
  }

  /** If the request brings the file's tag back, that is what it gets. */
  lemma GetRevalidates(cfg: Config, a: Ambient, path: seq<char>, headers: seq<Header>, name: seq<char>,
                       extension: seq<char>)
    ensures Finds(cfg, a, path, name, extension) && BringsTag(a, path, name, headers) ==>
      IsNotModified(Answer(cfg, a, "GET", path, headers), cfg, a)
  {
    if Finds(cfg, a, path, name, extension) && BringsTag(a, path, name, headers) {
      GetIsFile(cfg, a, path, headers, name, extension);
      StatusTexts();
      FixedTexts();
      assert "HTTP/1.1 " + Digits(304) + " " + "Not Modified" == "HTTP/1.1 " + "304 Not Modified";
    }
  }

  lemma StatusesDiffer()
    ensures "HTTP/1.1 " + "200 OK" != "HTTP/1.1 " + "304 Not Modified"
  {
    assert ("HTTP/1.1 " + "200 OK")[9] == '2' && ("HTTP/1.1 " + "304 Not Modified")[9] == '3';
  }

  /** A GET for this path is answered from this readable file of a known type, with a tag that fits. */
  predicate IsServed(cfg: Config, a: Ambient, path: seq<char>, name: seq<char>, extension: seq<char>) {
    Finds(cfg, a, path, name, extension) && IsOriginForm(path) && Untruncated(a.files[name].modified, path)
  }

  /** And the request does not bring the tag, so it gets the file. */
  predicate Fetches(cfg: Config, a: Ambient, path: seq<char>, headers: seq<Header>, name: seq<char>,
                    extension: seq<char>) {
    IsServed(cfg, a, path, name, extension) && !BringsTag(a, path, name, headers)
  }

  /** The tag in the response to a GET. */
  function IssuedTag(cfg: Config, a: Ambient, path: seq<char>, headers: seq<Header>): Option<seq<char>> {
    match Answer(cfg, a, "GET", path, headers)
    case Reply(message, _) => Field(message.lines, "ETag")
    case Crash => None
  }

  /**
   A client that got a file with a tag (from any file, at any time) and brings that tag back gets a 304 exactly when it
   asks for the same path and the file has the modification time it had then.
   */
  lemma {:induction false} IssuedTagRevalidates(cfg: Config, then_: Ambient, path: seq<char>, headers: seq<Header>,
                                                name: seq<char>, extension: seq<char>, now: Ambient, path': seq<char>,
                                                headers': seq<Header>, name': seq<char>, extension': seq<char>)
    ensures Fetches(cfg, then_, path, headers, name, extension) ==> IssuedTag(cfg, then_, path, headers).Some?
    ensures Fetches(cfg, then_, path, headers, name, extension) && IsServed(cfg, now, path', name', extension') ==>
      FirstHeader(headers', "If-None-Match") == IssuedTag(cfg, then_, path, headers) ==>
        (Is(Answer(cfg, now, "GET", path', headers'), "304 Not Modified", cfg, now) <==>
          path' == path && now.files[name'].modified == then_.files[name].modified)
  {
    if Fetches(cfg, then_, path, headers, name, extension) {
      GetServesFile(cfg, then_, path, headers, name, extension);
      if IsServed(cfg, now, path', name', extension') {
        EtagIdentifies(then_.files[name].modified, path, now.files[name'].modified, path');
        NotModifiedIff(cfg, now, path', headers', name', extension');
      }
    }
  }

  /** A file is answered with a 304 exactly when its tag is brought back. */
  lemma {:induction false} NotModifiedIff(cfg: Config, a: Ambient, path: seq<char>, headers: seq<Header>,
                                          name: seq<char>, extension: seq<char>)
    ensures IsServed(cfg, a, path, name, extension) ==>
      (Is(Answer(cfg, a, "GET", path, headers), "304 Not Modified", cfg, a) <==> BringsTag(a, path, name, headers))
  {
    if IsServed(cfg, a, path, name, extension) {
      if BringsTag(a, path, name, headers) {
        GetRevalidates(cfg, a, path, headers, name, extension);
      } else {
        GetServesFile(cfg, a, path, headers, name, extension);
        StatusesDiffer();
      }
    }
  }

  /** A name that is not a script's and not that of a readable file of a known type. */
  predicate Unservable(a: Ambient, name: seq<char>, extension: seq<char>) {
    && HasExtension(name, extension) && !IsScript(extension)
    && (ContentType(extension).None? || name !in a.files || !a.files[name].readable)
  }

  /** What cannot be served as a file or run as a script closes the connection. */
  lemma GetRefuses(cfg: Config, a: Ambient, path: seq<char>, headers: seq<Header>, name: seq<char>)
    requires Names(cfg, path, name)
    ensures '.' !in name ==>
      var reply := Answer(cfg, a, "GET", path, headers);
      IsError(reply, "501", "Not Implemented", cfg, a) && EndsIt(reply)
    ensures forall extension :: Unservable(a, name, extension) ==>
      var reply := Answer(cfg, a, "GET", path, headers);
      IsError(reply, "404", "Not Found", cfg, a) && EndsIt(reply)
  {
    StatusTexts();
    ErrorIs(cfg, a, 501, "Not Implemented", ERROR, "501");
    ErrorIs(cfg, a, 404, "Not Found", ERROR, "404");
    ExtensionIsFromLastDot(name);
    forall extension | HasExtension(name, extension)
      ensures Extension(name) == Some(extension)
    {
      ExtensionIs(name, extension);
    }
  }

  /** All the calls that start a script and feed it succeed. */
  predicate Runs(a: Ambient) {
    a.luck.pipes && a.luck.fork && a.luck.alloc && a.luck.write
  }

  /** A GET or a POST for a script gets what the script writes. */
  lemma ScriptsRun(cfg: Config, a: Ambient, method_: seq<char>, path: seq<char>, headers: seq<Header>, name: seq<char>,
                   extension: seq<char>)
    requires method_ == "GET" || method_ == "POST"
    requires Names(cfg, path, name) && HasExtension(name, extension) && (extension == ".py" || extension == ".php")
    requires name in a.files && Runs(a)
    ensures var reply := Answer(cfg, a, method_, path, headers);
      && Is(reply, "200 OK", cfg, a) && KeepsOpen(reply) && reply.message.body == Flatten(a.script)
      && Field(reply.message.lines, "Content-Type") == Some("text/plain; charset=UTF-8")
      && Field(reply.message.lines, "Content-Length") == Some(Digits(|Flatten(a.script)|))
  {
    AnswerIsScript(cfg, a, method_, path, headers, name, extension);
    ScriptLines(cfg, a.date, Flatten(a.script));
  }

  /** Or an error: there is no such script, or it could not be run. */
  lemma ScriptsFail(cfg: Config, a: Ambient, method_: seq<char>, path: seq<char>, headers: seq<Header>, name: seq<char>,
                    extension: seq<char>)
    requires method_ == "GET" || method_ == "POST"
    requires Names(cfg, path, name) && HasExtension(name, extension) && (extension == ".py" || extension == ".php")
    requires name !in a.files || !Runs(a)
    ensures var reply := Answer(cfg, a, method_, path, headers);
      if name !in a.files then IsError(reply, "404", "Not Found", cfg, a) && KeepsOpen(reply)
      else IsError(reply, "500", "Internal Server Error", cfg, a) && EndsIt(reply)
  {
    AnswerIsScript(cfg, a, method_, path, headers, name, extension);
    StatusTexts();
    if name !in a.files {
      ErrorIs(cfg, a, 404, "Not Found", NOT_FOUND, "404");
    } else {
      ErrorIs(cfg, a, 500, "Internal Server Error", ERROR, "500");
    }
  }

  lemma AnswerIsScript(cfg: Config, a: Ambient, method_: seq<char>, path: seq<char>, headers: seq<Header>,
                       name: seq<char>, extension: seq<char>)
    requires method_ == "GET" || method_ == "POST"
    requires Names(cfg, path, name) && HasExtension(name, extension) && IsScript(extension)
    ensures Answer(cfg, a, method_, path, headers) == ScriptReply(cfg, a, name, Some(extension))
  {
    ExtensionIs(name, extension);
  }

  lemma {:induction false} ScriptLines(cfg: Config, date: seq<char>, output: seq<char>)
    ensures var lines := ScriptMessage(cfg, date, output).lines;
      && |lines| == 6 && lines[0] == "HTTP/1.1 " + "200 OK" && lines[1] == "Date: " + date
      && lines[2] == "Server: " + cfg.signature
      && Field(lines, "Content-Type") == Some("text/plain; charset=UTF-8")
      && Field(lines, "Content-Length") == Some(Digits(|output|))
  {
    StatusTexts();
    OpeningLines(cfg, date, 200, "OK", "200 OK");
    var l := CONTENT_LENGTH + Digits(|output|);
    FieldAfterCommon(cfg, date, 200, "OK", [PLAIN, l, KEEP_ALIVE], "Content-Type");
    FieldAfterCommon(cfg, date, 200, "OK", [PLAIN, l, KEEP_ALIVE], "Content-Length");
    ScriptFields(Digits(|output|));
  }

  lemma ScriptFields(digits: seq<char>)
    ensures Field([PLAIN, CONTENT_LENGTH + digits, KEEP_ALIVE], "Content-Type") == Some("text/plain; charset=UTF-8")
    ensures Field([PLAIN, CONTENT_LENGTH + digits, KEEP_ALIVE], "Content-Length") == Some(digits)
  {
    var l := CONTENT_LENGTH + digits;
    assert PLAIN == "Content-Type" + ": " + "text/plain; charset=UTF-8" && l == "Content-Length" + ": " + digits;
    assert [PLAIN, l, KEEP_ALIVE] == [PLAIN] + ([l] + [KEEP_ALIVE]);
    FieldFirst("Content-Type", "text/plain; charset=UTF-8", [l] + [KEEP_ALIVE]);
    SkipField(PLAIN, [l] + [KEEP_ALIVE], "Content-Length", 8);
    FieldFirst("Content-Length", digits, [KEEP_ALIVE]);
  }

  /** A POST for what is no script is refused, but keeps the connection open; one without a dot that exists is fatal. */
  lemma PostRefuses(cfg: Config, a: Ambient, path: seq<char>, headers: seq<Header>, name: seq<char>)
    requires Names(cfg, path, name) && name !in a.files
    ensures var reply := Answer(cfg, a, "POST", path, headers);
      IsError(reply, "404", "Not Found", cfg, a) && KeepsOpen(reply)
  {
    StatusTexts();
    ErrorIs(cfg, a, 404, "Not Found", NOT_FOUND, "404");
  }

  lemma PostKills(cfg: Config, a: Ambient, path: seq<char>, headers: seq<Header>, name: seq<char>)
    requires Names(cfg, path, name) && name in a.files && '.' !in name
    ensures Answer(cfg, a, "POST", path, headers) == Crash
  {
    CrashIff(cfg, a, "POST", path, headers);
  }

  lemma PostRefusesOthers(cfg: Config, a: Ambient, path: seq<char>, headers: seq<Header>, name: seq<char>,
                          extension: seq<char>)
    requires Names(cfg, path, name) && name in a.files && HasExtension(name, extension) && !IsScript(extension)
    ensures var reply := Answer(cfg, a, "POST", path, headers);
      IsError(reply, "501", "Not Implemented", cfg, a) && KeepsOpen(reply)
  {
    StatusTexts();
    ErrorIs(cfg, a, 501, "Not Implemented", BAD_REQUEST, "501");
    ExtensionIs(name, extension);
  }

  /** OPTIONS is the same for every path, and any other method is not implemented but keeps the connection open. */
  lemma OtherMethods(cfg: Config, a: Ambient, method_: seq<char>, path: seq<char>, headers: seq<Header>)
    requires method_ != "GET" && method_ != "POST"
    ensures var reply := Answer(cfg, a, method_, path, headers);
      && reply.Reply? && KeepsOpen(reply)
      && (method_ == "OPTIONS" ==>
            && Is(reply, "200 OK", cfg, a) && reply.message.body == []
            && Field(reply.message.lines, "Allow") == Some("GET, POST, OPTIONS")
            && Field(reply.message.lines, "Content-Length") == Some(Digits(0)))
      && (method_ != "OPTIONS" ==> IsError(reply, "501", "Not Implemented", cfg, a))
  {
    StatusTexts();
    ErrorIs(cfg, a, 501, "Not Implemented", OK, "501");
    OptionsLines(cfg, a.date);
  }

  lemma OptionsLines(cfg: Config, date: seq<char>)
    ensures var lines := OptionsMessage(cfg, date).lines;
      && |lines| == 6 && lines[0] == "HTTP/1.1 " + "200 OK" && lines[1] == "Date: " + date
      && lines[2] == "Server: " + cfg.signature
      && Field(lines, "Allow") == Some("GET, POST, OPTIONS") && Field(lines, "Content-Length") == Some(Digits(0))
  {
    StatusTexts();
    OpeningLines(cfg, date, 200, "OK", "200 OK");
    var l := CONTENT_LENGTH + Digits(0);
    FieldAfterCommon(cfg, date, 200, "OK", [ALLOW, l, KEEP_ALIVE], "Allow");
    FieldAfterCommon(cfg, date, 200, "OK", [ALLOW, l, KEEP_ALIVE], "Content-Length");
    OptionsFields(Digits(0));
  }

  lemma OptionsFields(digits: seq<char>)
    ensures Field([ALLOW, CONTENT_LENGTH + digits, KEEP_ALIVE], "Allow") == Some("GET, POST, OPTIONS")
    ensures Field([ALLOW, CONTENT_LENGTH + digits, KEEP_ALIVE], "Content-Length") == Some(digits)
  {
    var l := CONTENT_LENGTH + digits;
    assert ALLOW == "Allow" + ": " + "GET, POST, OPTIONS" && l == "Content-Length" + ": " + digits;
    assert [ALLOW, l, KEEP_ALIVE] == [ALLOW] + ([l] + [KEEP_ALIVE]);
    FieldFirst("Allow", "GET, POST, OPTIONS", [l] + [KEEP_ALIVE]);
    SkipField(ALLOW, [l] + [KEEP_ALIVE], "Content-Length", 0);
    FieldFirst("Content-Length", digits, [KEEP_ALIVE]);
  }

  /**
   A request that cannot be understood gets a 400 and keeps the connection open; one that never arrives gets nothing.
   */
  lemma BadRequests(parser: Parser, events: seq<Event>, cfg: Config, a: Ambient)
    ensures var code := CodeOf(parser, events);
      var (sent, o) := Handled(parser, events, cfg, a);
      && (code == BAD_REQUEST ==>
            |sent| == 1 && !Closing(o) && IsError(Reply(sent[0], OK), "400", "Bad Request", cfg, a))
      && (code == REQUEST_TOO_LONG ==>
            |sent| == 1 && !Closing(o)
              && IsError(Reply(sent[0], OK), "400", "Bad Request - Request Too Long", cfg, a))
      && (!Arrived(code) ==> sent == [] && o == Done(code) && Closing(o))
  {
    StatusTexts();
    ErrorIs(cfg, a, 400, "Bad Request", OK, "400");
    ErrorIs(cfg, a, 400, "Bad Request - Request Too Long", OK, "400");
  }

  /** A complete request gets its answer: the message is sent, and what follows is what its code says. */
  lemma CompleteRequests(parser: Parser, events: seq<Event>, cfg: Config, a: Ambient)
    requires CodeOf(parser, events) == OK
    ensures var parsed := LoopOf(parser, events).verdict.parsed;
      var reply := Answer(cfg, a, parsed.method_, PathOf(parsed.target), parsed.headers);
      var (sent, o) := Handled(parser, events, cfg, a);
      && (reply.Reply? ==> sent == [reply.message] && o == Done(reply.code))
      && (reply.Crash? ==> sent == [] && o == Crashed)
  {
  }

  /** The extensions of static files, and what they stand for. */
  lemma KnownTypes(extension: seq<char>)
    ensures ContentType(extension) == Some("text/plain") <==> extension == ".txt"
    ensures ContentType(extension) == Some("text/html") <==> extension in {".html", ".htm"}
    ensures ContentType(extension) == Some("image/gif") <==> extension == ".gif"
    ensures ContentType(extension) == Some("image/jpeg") <==> extension in {".jpeg", ".jpg"}
    ensures ContentType(extension) == Some("image/png") <==> extension == ".png"
    ensures ContentType(extension) == Some("video/mpeg") <==> extension in {".mpeg", ".mpg"}
    ensures ContentType(extension) == Some("video/mp4") <==> extension == ".mp4"
    ensures ContentType(extension) == Some("application/msword") <==> extension in {".doc", ".docx"}
    ensures ContentType(extension) == Some("application/pdf") <==> extension == ".pdf"
  {
  }
}
