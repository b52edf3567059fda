/** One request: what the handler makes of what the client does, what it sends, and what it returns. */
module Connections {
  import opened Common
  import opened Strings
  import opened Decimal
  import opened Streams
  import opened DynamicBuffer
  import opened Targets
  import opened Requests
  import opened ETags
  import opened Framing
  import opened Responses
  import opened ResponseFraming
  import Scripts

  datatype FileInfo = FileInfo(content: seq<char>, modified: int, readable: bool)

  /** What one request meets outside the server: the clock, the files, and how a script would fare. */
  datatype Ambient = Ambient(date: seq<char>, files: map<seq<char>, FileInfo>, lastModified: seq<char>,
                             luck: Scripts.Luck, script: seq<seq<char>>)

  /** Sizes are below 10^19, and memory lasts. */
  ghost predicate GoodAmbient(a: Ambient) {
    && !a.luck.mayFail && (forall i :: 0 <= i < |a.script| ==> a.script[i] != []) && |Flatten(a.script)| < Pow10(19)
    && (forall name :: name in a.files ==> |a.files[name].content| < Pow10(19))
  }

  function ContentType(extension: seq<char>): Option<seq<char>> {
    if extension == ".txt" then Some("text/plain")
    else if extension == ".html" then Some("text/html")
    else if extension == ".htm" then Some("text/html")
    else if extension == ".gif" then Some("image/gif")
    else if extension == ".jpeg" then Some("image/jpeg")
    else if extension == ".png" then Some("image/png")
    else if extension == ".jpg" then Some("image/jpeg")
    else if extension == ".mpeg" then Some("video/mpeg")
    else if extension == ".mpg" then Some("video/mpeg")
    else if extension == ".mp4" then Some("video/mp4")
    else if extension == ".doc" then Some("application/msword")
    else if extension == ".docx" then Some("application/msword")
    else if extension == ".pdf" then Some("application/pdf")
    else None
  }

  // ---------- the reply a request deserves ----------

  /** The message to send and the code the handler returns, or the death of the whole server in strcmp(NULL, ".py"). */
  datatype Reply = Reply(message: Message, code: int) | Crash

  /** How a call of the handler ends. */
  datatype Outcome = Done(code: int) | Crashed

  /** The reply has been sent, and its code is returned. */
  predicate Answered(reply: Reply, before: seq<char>, after: seq<char>, o: Outcome) {
    match reply
    case Reply(message, code) => o == Done(code) && after == before + Render(message)
    case Crash => o == Crashed && after == before
  }

  predicate IsScript(extension: seq<char>) {
    extension == ".py" || extension == ".php"
  }

  /** filename exists before its extension is looked at. */
  function ScriptReply(cfg: Config, a: Ambient, filename: seq<char>, extension: Option<seq<char>>): Reply {
    if filename !in a.files then Reply(ErrorMessage(cfg, a.date, 404, "Not Found"), NOT_FOUND)
    else if extension.None? then Crash
    else if !IsScript(extension.value) then Reply(ErrorMessage(cfg, a.date, 501, "Not Implemented"), BAD_REQUEST)
    else if a.luck.pipes && a.luck.fork && a.luck.alloc && a.luck.write then
      Reply(ScriptMessage(cfg, a.date, Flatten(a.script)), OK)
    else Reply(ErrorMessage(cfg, a.date, 500, "Internal Server Error"), ERROR)
  }

  function FileReply(cfg: Config, a: Ambient, filename: seq<char>, extension: seq<char>, path: seq<char>,
                     ifNoneMatch: seq<char>): (r: Reply)
    ensures r.Reply?
  {
    if ContentType(extension).None? || filename !in a.files || !a.files[filename].readable then
      Reply(ErrorMessage(cfg, a.date, 404, "Not Found"), ERROR)
    else
      var info := a.files[filename];
      if ifNoneMatch == Etag(info.modified, path) then Reply(NotModifiedMessage(cfg, a.date), OK)
      else Reply(FileMessage(cfg, a.date, ContentType(extension).value, Etag(info.modified, path), a.lastModified,
        info.content), OK)
  }

  function GetReply(cfg: Config, a: Ambient, path: seq<char>, ifNoneMatch: seq<char>): Reply {
    var filename := Filename(path, cfg.basePath, cfg.defaultPath);
    match Extension(filename)
    case None => Reply(ErrorMessage(cfg, a.date, 501, "Not Implemented"), ERROR)
    case Some(extension) =>
      if IsScript(extension) then ScriptReply(cfg, a, filename, Some(extension))
      else FileReply(cfg, a, filename, extension, path, ifNoneMatch)
  }

  function PostReply(cfg: Config, a: Ambient, path: seq<char>): Reply {
    var filename := Filename(path, cfg.basePath, cfg.defaultPath);
    ScriptReply(cfg, a, filename, Extension(filename))
  }

  datatype HttpMethod = GET | POST | OPTIONS | UNKNOWN

  function MethodOf(name: seq<char>): HttpMethod {
    if name == "GET" then GET else if name == "POST" then POST else if name == "OPTIONS" then OPTIONS else UNKNOWN
  }

  function Answer(cfg: Config, a: Ambient, method_: seq<char>, path: seq<char>, headers: seq<Header>): Reply {
    match MethodOf(method_)
    case GET => GetReply(cfg, a, path, FirstHeader(headers, "If-None-Match").GetOr([]))
    case POST => PostReply(cfg, a, path)
    case OPTIONS => Reply(OptionsMessage(cfg, a.date), OK)
    case UNKNOWN => Reply(ErrorMessage(cfg, a.date, 501, "Not Implemented"), OK)
  }

  // ---------- the handlers ----------

  lemma {:induction false} SentOne(sends: seq<seq<char>>, data: seq<char>)
    ensures Flatten(sends + [data]) == Flatten(sends) + data
  {
    FlattenAppend(sends, [data]);
    assert [data][1..] == [];
  }

  /** _response_error and its callers. */
  method SendError(out: Outbox, cfg: Config, date: seq<char>, statusCode: nat, message: seq<char>)
    requires statusCode < 1000 && |message| < 900
    modifies out
    ensures Flatten(out.sends) == old(Flatten(out.sends)) + Render(ErrorMessage(cfg, date, statusCode, message))
  {
    ghost var before := out.sends;
    ResponseError(out, cfg, date, statusCode, message);
    SentOne(before, Render(ErrorMessage(cfg, date, statusCode, message)));
  }

  /** The processes are asked to do what this run of a script takes: python3 or php on the file, fed with args. */
  predicate RanScript(a: Ambient, filename: seq<char>, extension: Option<seq<char>>, args: seq<char>,
                      before: seq<Scripts.Call>, after: seq<Scripts.Call>) {
    if filename in a.files && extension == Some(".py") then
      after == before + Scripts.RunOf(a.luck, "python3", filename, args)
    else if filename in a.files && extension == Some(".php") then
      after == before + Scripts.RunOf(a.luck, "php", filename, args)
    else after == before
  }

  method ResponseCgi(out: Outbox, os: Scripts.Processes, cfg: Config, a: Ambient, args: seq<char>, filename: seq<char>,
                     extension: Option<seq<char>>) returns (o: Outcome)
    requires GoodAmbient(a)
    modifies out, os
    ensures Answered(ScriptReply(cfg, a, filename, extension), old(Flatten(out.sends)), Flatten(out.sends), o)
    ensures RanScript(a, filename, extension, args, old(os.calls), os.calls)
    ensures filename in a.files && a.luck.pipes && a.luck.fork && a.luck.alloc ==>
      && (extension == Some(".py") ==>
            os.calls == old(os.calls)
              + [Scripts.Fork("python3", filename), Scripts.Write(args), Scripts.KillChild, Scripts.Wait])
      && (extension == Some(".php") ==>
            os.calls == old(os.calls)
              + [Scripts.Fork("php", filename), Scripts.Write(args), Scripts.KillChild, Scripts.Wait])
  {
    ghost var before := out.sends;
    if filename !in a.files {
      SendError(out, cfg, a.date, 404, "Not Found");
      return Done(NOT_FOUND);
    }
    if extension.None? {
      return Crashed;
    }
    if !IsScript(extension.value) {
      SendError(out, cfg, a.date, 501, "Not Implemented");
      return Done(BAD_REQUEST);
    }
    var stdout := new Pipe(a.script);
    var interpreter := if extension.value == ".py" then "python3" else "php";
    var output := Scripts.ExecuteScript(os, a.luck, interpreter, filename, args, stdout);
    if output == null {
      SendError(out, cfg, a.date, 500, "Internal Server Error");
      return Done(ERROR);
    }
    assert output.Contents() == Flatten(a.script);
    SendScriptOutput(out, cfg, a.date, output);
    SentOne(before, Render(ScriptMessage(cfg, a.date, Flatten(a.script))));
    return Done(OK);
  }

  /** The static branch of response_get. */
  method ResponseFile(out: Outbox, cfg: Config, a: Ambient, filename: seq<char>, extension: seq<char>, path: seq<char>,
                      ifNoneMatch: seq<char>)
    returns (code: int)
    requires GoodAmbient(a) && '\0' !in path
    modifies out
    ensures var reply := FileReply(cfg, a, filename, extension, path, ifNoneMatch);
      code == reply.code && Flatten(out.sends) == old(Flatten(out.sends)) + Render(reply.message)
  {
    var contentType := ContentType(extension);
    if contentType.None? || filename !in a.files || !a.files[filename].readable {
      SendError(out, cfg, a.date, 404, "Not Found");
      return ERROR;
    }
    var info := a.files[filename];
    var db := new Buffer(DEFAULT_INITIAL_CAPACITY, false);
    var etag := Etag(info.modified, path);
    var same := IsEtag(ifNoneMatch, info.modified, path);
    if same {
      SendNotModified(out, db, cfg, a.date);
    } else {
      SendWholeFile(out, db, cfg, a.date, contentType.value, etag, a.lastModified, info.content);
    }
    return OK;
  }

  method SendWholeFile(out: Outbox, db: Buffer, cfg: Config, date: seq<char>, contentType: seq<char>, etag: seq<char>,
                       lastModified: seq<char>, content: seq<char>)
    requires db.Valid() && !db.mayFail && db.Contents() == [] && |content| < Pow10(19)
    modifies out, db, db.buffer
    ensures Flatten(out.sends) ==
      old(Flatten(out.sends)) + Render(FileMessage(cfg, date, contentType, etag, lastModified, content))
  {
    AddFileHeaders(db, cfg, date, contentType, etag, lastModified, |content|);
    SendFile(out, db, content);
  }

  method SendNotModified(out: Outbox, db: Buffer, cfg: Config, date: seq<char>)
    requires db.Valid() && !db.mayFail && db.Contents() == []
    modifies out, db, db.buffer
    ensures Flatten(out.sends) == old(Flatten(out.sends)) + Render(NotModifiedMessage(cfg, date))
  {
    ghost var before := out.sends;
    AddNotModified(db, cfg, date);
    var data := db.Get();
    out.Send(data);
    SentOne(before, data);
  }

  /** snprintf into etag, then the comparison with the If-None-Match value. */
  method IsEtag(value: seq<char>, modified: int, path: seq<char>) returns (same: bool)
    requires '\0' !in path
    ensures same <==> value == Etag(modified, path)
  {
    var memory := Snprintf(ETAG_SIZE, SignedDigits(modified) + path);
    var tag := Etag(modified, path);
    assert '\0' !in tag;
    CStringOfTerminated(tag);
    same := StringIsEqualTo(value, memory);
  }

  /** The file after its headers, in as many sends as it takes. */
  method SendFile(out: Outbox, db: Buffer, content: seq<char>)
    requires db.Valid() && db.capacity > 0
    modifies out, db, db.buffer
    ensures out.sends == old(out.sends) + Chunks(old(db.Contents()) + content, old(db.capacity))
    ensures Flatten(out.sends) == old(Flatten(out.sends)) + (old(db.Contents()) + content)
  {
    ghost var before, cap, all := out.sends, db.capacity, db.Contents() + content;
    assert content[..|content|] == content;
    var f := new File(content);
    StreamFile(out, db, f, |content|);
    ChunksShape(all, cap);
    FlattenAppend(before, Chunks(all, cap));
  }

  method ResponseGet(out: Outbox, os: Scripts.Processes, cfg: Config, a: Ambient, request: Request)
    returns (o: Outcome)
    requires GoodAmbient(a) && '\0' !in request.path
    modifies out, os
    ensures Answered(GetReply(cfg, a, request.path, FirstHeader(request.headers, "If-None-Match").GetOr([])),
                     old(Flatten(out.sends)), Flatten(out.sends), o)
    ensures var filename := Filename(request.path, cfg.basePath, cfg.defaultPath);
      RanScript(a, filename, Extension(filename), request.urlArgs.GetOr([]), old(os.calls), os.calls)
  {
    var filename := GetFilename(request.path, cfg.basePath, cfg.defaultPath);
    var extension := FindExtension(filename);
    if extension.None? {
      SendError(out, cfg, a.date, 501, "Not Implemented");
      return Done(ERROR);
    }
    if IsScript(extension.value) {
      o := ResponseCgi(out, os, cfg, a, request.urlArgs.GetOr([]), filename, extension);
      return;
    }
    var header := request.GetHeader("If-None-Match");
    var code := ResponseFile(out, cfg, a, filename, extension.value, request.path, header.GetOr([]));
    return Done(code);
  }

  method ResponsePost(out: Outbox, os: Scripts.Processes, cfg: Config, a: Ambient, request: Request)
    returns (o: Outcome)
    requires GoodAmbient(a)
    modifies out, os
    ensures Answered(PostReply(cfg, a, request.path), old(Flatten(out.sends)), Flatten(out.sends), o)
    ensures var filename := Filename(request.path, cfg.basePath, cfg.defaultPath);
      RanScript(a, filename, Extension(filename), request.body, old(os.calls), os.calls)
  {
    var filename := GetFilename(request.path, cfg.basePath, cfg.defaultPath);
    var extension := FindExtension(filename);
    o := ResponseCgi(out, os, cfg, a, request.body, filename, extension);
  }

  method GetMethod(name: seq<char>) returns (m: HttpMethod)
    ensures m == MethodOf(name)
  {
    CStringOfTerminated("GET");
    CStringOfTerminated("POST");
    CStringOfTerminated("OPTIONS");
    var isGet := StringIsEqualTo(name, Terminated("GET"));
    if isGet {
      return GET;
    }
    var isPost := StringIsEqualTo(name, Terminated("POST"));
    if isPost {
      return POST;
    }
    var isOptions := StringIsEqualTo(name, Terminated("OPTIONS"));
    return if isOptions then OPTIONS else UNKNOWN;
  }

  method SendOptions(out: Outbox, cfg: Config, date: seq<char>)
    modifies out
    ensures Flatten(out.sends) == old(Flatten(out.sends)) + Render(OptionsMessage(cfg, date))
  {
    ghost var before := out.sends;
    ResponseOptions(out, cfg, date);
    SentOne(before, Render(OptionsMessage(cfg, date)));
  }

  /** The second half of connection_handler: a complete request gets the reply it deserves. */
  method Dispatch(out: Outbox, os: Scripts.Processes, cfg: Config, a: Ambient, request: Request) returns (o: Outcome)
    requires GoodAmbient(a) && '\0' !in request.path
    modifies out, os
    ensures Answered(Answer(cfg, a, request.method_, request.path, request.headers),
                     old(Flatten(out.sends)), Flatten(out.sends), o)
    ensures var filename := Filename(request.path, cfg.basePath, cfg.defaultPath);
      && (request.method_ == "GET" ==>
            RanScript(a, filename, Extension(filename), request.urlArgs.GetOr([]), old(os.calls), os.calls))
      && (request.method_ == "POST" ==>
            RanScript(a, filename, Extension(filename), request.body, old(os.calls), os.calls))
      && (request.method_ != "GET" && request.method_ != "POST" ==> os.calls == old(os.calls))
  {
    var m := GetMethod(request.method_);
    match m
    case UNKNOWN => SendError(out, cfg, a.date, 501, "Not Implemented"); o := Done(OK);
    case GET => o := ResponseGet(out, os, cfg, a, request);
    case POST => o := ResponsePost(out, os, cfg, a, request);
    case OPTIONS => SendOptions(out, cfg, a.date); o := Done(OK);
  }

  // ---------- the request that kills the server ----------

  /** A POST for something that exists and has no dot anywhere in its name, a directory for instance. */
  predicate IsFatal(cfg: Config, a: Ambient, method_: seq<char>, path: seq<char>) {
    var filename := Filename(path, cfg.basePath, cfg.defaultPath);
    method_ == "POST" && filename in a.files && '.' !in filename
  }

  /** Exactly these requests make the handler compare a NULL extension. */
  lemma CrashIff(cfg: Config, a: Ambient, method_: seq<char>, path: seq<char>, headers: seq<Header>)
    ensures Answer(cfg, a, method_, path, headers).Crash? <==> IsFatal(cfg, a, method_, path)
  {
    var filename := Filename(path, cfg.basePath, cfg.defaultPath);
    ExtensionIsFromLastDot(filename);
    if method_ == "GET" && Extension(filename).Some? {
      assert !ScriptReply(cfg, a, filename, Extension(filename)).Crash?;
    }
  }

  /** POST /scripts on the configuration and the files the repository ships. */
  lemma ScriptsDirectoryIsFatal(cfg: Config, a: Ambient, headers: seq<Header>)
    requires cfg.basePath == "/var/www" && "/var/www/scripts" in a.files
    ensures Answer(cfg, a, "POST", "/scripts", headers).Crash?
  {
    var base := "/var/www";
    assert base + "/scripts" == "/var/www/scripts";
    assert Filename("/scripts", base, cfg.defaultPath) == base + "/scripts" by {
      assert |"/scripts"| != |"/"|;
    }
    CrashIff(cfg, a, "POST", "/scripts", headers);
  }

  // ---------- one request ----------

  /** Complete requests have a target, without line breaks and NUL bytes. */
  ghost predicate CleanParser(parser: Parser) {
    && GivesTargets(parser)
    && forall bytes: seq<char>, limit: nat, seen: nat :: parser(bytes, limit, seen).0.Complete? ==>
         CleanTarget(parser(bytes, limit, seen).0.parsed.target)
  }

  predicate CleanTarget(target: seq<char>) {
    !HasCrLf(target) && '\0' !in target
  }

  predicate Clean(cfg: Config) {
    !HasCrLf(cfg.signature)
  }

  ghost predicate CleanAmbient(a: Ambient) {
    GoodAmbient(a) && !HasCrLf(a.date) && NoBlankLine(a.lastModified)
  }

  /** A response the client can delimit, or a 304. */
  ghost predicate Sendable(m: Message) {
    WellFramed(m) || StrayNotModified(m)
  }

  /** The messages of one call of connection_handler and how it ends, from what the client does alone. */
  function Handled(parser: Parser, events: seq<Event>, cfg: Config, a: Ambient): (r: (seq<Message>, Outcome)) {
    var code := CodeOf(parser, events);
    if code == BAD_REQUEST then ([ErrorMessage(cfg, a.date, 400, "Bad Request")], Done(OK))
    else if code == REQUEST_TOO_LONG then
      ([ErrorMessage(cfg, a.date, 400, "Bad Request - Request Too Long")], Done(OK))
    else if code == OK then
      var parsed := LoopOf(parser, events).verdict.parsed;
      Given(Answer(cfg, a, parsed.method_, PathOf(parsed.target), parsed.headers))
    else ([], Done(code))
  }

  /** The worker's loop does not call the handler again. */
  predicate Closing(o: Outcome) {
    o == Crashed || o == Done(CLOSE_CONNECTION) || o == Done(ERROR)
  }

  /**
   Under every base_path and every rooted default_path, the file for this path is inside exactly when StaysInside says
   so.
   */
  ghost predicate Confined(path: seq<char>) {
    forall base: seq<char>, dflt: seq<char> :: IsOriginForm(dflt) && !HasDotDot(dflt) ==>
      (Resolve(base) <= Resolve(Filename(path, base, dflt)) <==> StaysInside(path, base))
  }

  lemma AcceptedIsConfined(parser: Parser, events: seq<Event>)
    requires CodeOf(parser, events) == OK
    ensures Confined(PathOf(LoopOf(parser, events).verdict.parsed.target))
  {
    var path := PathOf(LoopOf(parser, events).verdict.parsed.target);
    forall base: seq<char>, dflt: seq<char> | IsOriginForm(dflt) && !HasDotDot(dflt)
      ensures Resolve(base) <= Resolve(Filename(path, base, dflt)) <==> StaysInside(path, base)
    {
      AcceptedRequestsStayInside(parser, events, base, dflt);
    }
  }

  lemma AcceptedIsClean(parser: Parser, events: seq<Event>)
    requires CleanParser(parser) && CodeOf(parser, events) == OK
    ensures CleanTarget(PathOf(LoopOf(parser, events).verdict.parsed.target))
  {
    var e := LoopOf(parser, events);
    VerdictGiven(parser, [], MAX_HEADERS, events);
    var limit: nat, seen: nat :| parser(e.buffer, limit, seen).0 == e.verdict;
    PathIsClean(e.verdict.parsed.target, PathOf(e.verdict.parsed.target));
  }

  /** request_process on a new request, whose path is then clean and confined. */
  method Receive(client: Client, parser: Parser) returns (request: Request, code: int)
    requires client.Valid() && CleanParser(parser)
    modifies client
    ensures fresh(request) && client.Valid() && client.events == LoopOf(parser, old(client.events)).rest
    ensures code == CodeOf(parser, old(client.events))
    ensures code == OK ==>
      var parsed := LoopOf(parser, old(client.events)).verdict.parsed;
      && request.method_ == parsed.method_ && request.headers == parsed.headers
      && request.path == PathOf(parsed.target) && CleanTarget(request.path) && Confined(request.path)
      && parsed.target == request.path + (if request.urlArgs.Some? then "?" + request.urlArgs.value else [])
  {
    request := new Request();
    code := request.Process(parser, client);
    if code == OK {
      AcceptedIsClean(parser, old(client.events));
      AcceptedIsConfined(parser, old(client.events));
    }
  }

  /**
   One call of connection_handler. It sends one response for a request that arrived, well-formed or not, unless that
   request kills the server, and nothing when the client has gone, was too slow, or the connection failed.
   */
  method ConnectionHandler(client: Client, out: Outbox, os: Scripts.Processes, parser: Parser, cfg: Config, a: Ambient)
    returns (o: Outcome, ghost sent: seq<Message>)
    requires client.Valid() && CleanParser(parser) && Clean(cfg) && CleanAmbient(a)
    modifies client, out, os
    ensures client.Valid() && client.events == LoopOf(parser, old(client.events)).rest
    ensures Flatten(out.sends) == old(Flatten(out.sends)) + RenderAll(sent)
    ensures (sent, o) == Handled(parser, old(client.events), cfg, a)
    ensures forall i :: 0 <= i < |sent| ==> Sendable(sent[i])
  {
    ghost var events := client.events;
    var request, received := Receive(client, parser);
    o, sent := Respond(out, os, cfg, a, request, received, parser, events);
  }

  /** What connection_handler does with the outcome of request_process. */
  method Respond(out: Outbox, os: Scripts.Processes, cfg: Config, a: Ambient, request: Request, received: int,
                 ghost parser: Parser, ghost events: seq<Event>)
    returns (o: Outcome, ghost sent: seq<Message>)
    requires Clean(cfg) && CleanAmbient(a) && received == CodeOf(parser, events)
    requires received == OK ==>
      var parsed := LoopOf(parser, events).verdict.parsed;
      && request.method_ == parsed.method_ && request.headers == parsed.headers
      && request.path == PathOf(parsed.target) && CleanTarget(request.path)
    modifies out, os
    ensures Flatten(out.sends) == old(Flatten(out.sends)) + RenderAll(sent)
    ensures (sent, o) == Handled(parser, events, cfg, a)
    ensures forall i :: 0 <= i < |sent| ==> Sendable(sent[i])
  {
    if received < 0 {
      if received == BAD_REQUEST {
        sent := RejectRequest(out, cfg, a.date, "Bad Request");
        o := Done(OK);
      } else if received == REQUEST_TOO_LONG {
        sent := RejectRequest(out, cfg, a.date, "Bad Request - Request Too Long");
        o := Done(OK);
      } else {
        sent := [];
        o := Done(received);
      }
    } else {
      o, sent := AnswerRequest(out, os, cfg, a, request);
    }
  }

  method RejectRequest(out: Outbox, cfg: Config, date: seq<char>, message: seq<char>) returns (ghost sent: seq<Message>)
    requires Clean(cfg) && !HasCrLf(date) && !HasCrLf(message) && |message| < 900
    modifies out
    ensures Flatten(out.sends) == old(Flatten(out.sends)) + RenderAll(sent)
    ensures sent == [ErrorMessage(cfg, date, 400, message)] && Sendable(sent[0])
  {
    ghost var before := Flatten(out.sends);
    SendError(out, cfg, date, 400, message);
    sent := [ErrorMessage(cfg, date, 400, message)];
    ErrorIsFramed(cfg, date, 400, message);
    RenderOne(before, sent);
  }

  /** The messages and the outcome a reply stands for. */
  function Given(reply: Reply): (seq<Message>, Outcome) {
    match reply
    case Reply(message, code) => ([message], Done(code))
    case Crash => ([], Crashed)
  }

  method AnswerRequest(out: Outbox, os: Scripts.Processes, cfg: Config, a: Ambient, request: Request)
    returns (o: Outcome, ghost sent: seq<Message>)
    requires Clean(cfg) && CleanAmbient(a) && CleanTarget(request.path)
    modifies out, os
    ensures Flatten(out.sends) == old(Flatten(out.sends)) + RenderAll(sent)
    ensures (sent, o) == Given(Answer(cfg, a, request.method_, request.path, request.headers))
    ensures forall i :: 0 <= i < |sent| ==> Sendable(sent[i])
  {
    ghost var before := Flatten(out.sends);
    o := Dispatch(out, os, cfg, a, request);
    sent := Given(Answer(cfg, a, request.method_, request.path, request.headers)).0;
    AnswerIsFramed(cfg, a, request.method_, request.path, request.headers);
    RenderOne(before, sent);
  }

  lemma {:induction false} RenderOne(before: seq<char>, sent: seq<Message>)
    requires |sent| <= 1
    ensures sent == [] ==> before + RenderAll(sent) == before
    ensures sent != [] ==> before + RenderAll(sent) == before + Render(sent[0])
  {
    if sent != [] {
      assert sent[1..] == [];
      assert RenderAll(sent) == Render(sent[0]);
    }
  }

  lemma PathIsClean(target: seq<char>, path: seq<char>)
    requires CleanTarget(target) && path <= target
    ensures CleanTarget(path)
  {
    forall i | 0 <= i < |path| - 1
      ensures !(path[i] == '\r' && path[i + 1] == '\n')
    {
      assert !(target[i] == '\r' && target[i + 1] == '\n');
    }
    forall i | 0 <= i < |path|
      ensures path[i] != '\0'
    {
      assert path[i] == target[i];
    }
  }

  lemma ContentTypeIsClean(extension: seq<char>)
    ensures ContentType(extension).Some? ==> !HasCrLf(ContentType(extension).value)
  {
    assert !HasCrLf("text/plain") && !HasCrLf("text/html");
    assert !HasCrLf("image/gif") && !HasCrLf("image/jpeg") && !HasCrLf("image/png");
    assert !HasCrLf("video/mpeg") && !HasCrLf("video/mp4");
    assert !HasCrLf("application/msword") && !HasCrLf("application/pdf");
  }

  lemma EtagIsClean(modified: int, path: seq<char>)
    requires !HasCrLf(path)
    ensures !HasCrLf(Etag(modified, path))
  {
    var d, tag := SignedDigits(modified), Etag(modified, path);
    forall i | 0 <= i < |d| - 1
      ensures d[i] != '\r'
    {
      assert IsDigit(d[i]) || d[i] == '-';
    }
    assert d[|d| - 1] != '\r';
    ConcatNoCrLf(d, path);
    forall i | 0 <= i < |tag| - 1
      ensures !(tag[i] == '\r' && tag[i + 1] == '\n')
    {
      assert !(FullTag(modified, path)[i] == '\r' && FullTag(modified, path)[i + 1] == '\n');
    }
  }

  /** The static branch of a GET finds its file, and the tag given with the request is the file's own. */
  predicate Unchanged(a: Ambient, filename: seq<char>, extension: seq<char>, path: seq<char>, tag: seq<char>) {
    && ContentType(extension).Some? && filename in a.files && a.files[filename].readable
    && tag == Etag(a.files[filename].modified, path)
  }

  /** A GET for a readable static file that comes with the file's own tag. */
  predicate Revalidates(cfg: Config, a: Ambient, method_: seq<char>, path: seq<char>, headers: seq<Header>) {
    var extension := Extension(Filename(path, cfg.basePath, cfg.defaultPath));
    && method_ == "GET" && extension.Some?
    && Unchanged(a, Filename(path, cfg.basePath, cfg.defaultPath), extension.value, path,
                 FirstHeader(headers, "If-None-Match").GetOr([]))
  }

  /** A 304 if asked for, and otherwise a response the client can delimit, or none. */
  ghost predicate FramedUnless304(reply: Reply, asked: bool) {
    match reply
    case Reply(m, _) => if asked then StrayNotModified(m) else WellFramed(m)
    case Crash => !asked
  }

  lemma ScriptReplyIsFramed(cfg: Config, a: Ambient, filename: seq<char>, extension: Option<seq<char>>)
    requires Clean(cfg) && CleanAmbient(a)
    ensures FramedUnless304(ScriptReply(cfg, a, filename, extension), false)
  {
    if filename !in a.files {
      ErrorIsFramed(cfg, a.date, 404, "Not Found");
    } else if extension.None? {
    } else if !IsScript(extension.value) {
      ErrorIsFramed(cfg, a.date, 501, "Not Implemented");
    } else if a.luck.pipes && a.luck.fork && a.luck.alloc && a.luck.write {
      ScriptIsFramed(cfg, a.date, Flatten(a.script));
    } else {
      ErrorIsFramed(cfg, a.date, 500, "Internal Server Error");
    }
  }

  lemma FileReplyIsFramed(cfg: Config, a: Ambient, filename: seq<char>, extension: seq<char>, path: seq<char>,
                          tag: seq<char>)
    requires Clean(cfg) && CleanAmbient(a) && !HasCrLf(path)
    ensures FramedUnless304(FileReply(cfg, a, filename, extension, path, tag),
      Unchanged(a, filename, extension, path, tag))
  {
    if ContentType(extension).None? || filename !in a.files || !a.files[filename].readable {
      ErrorIsFramed(cfg, a.date, 404, "Not Found");
    } else if tag == Etag(a.files[filename].modified, path) {
      NotModifiedIsStray(cfg, a.date);
    } else {
      var info, contentType := a.files[filename], ContentType(extension).value;
      ContentTypeIsClean(extension);
      EtagIsClean(info.modified, path);
      FileIsFramedIff(cfg, a.date, contentType, Etag(info.modified, path), a.lastModified, info.content);
    }
  }

  lemma ScriptsHaveNoType(extension: seq<char>)
    requires IsScript(extension)
    ensures ContentType(extension).None?
  {
  }

  lemma GetReplyIsFramed(cfg: Config, a: Ambient, path: seq<char>, tag: seq<char>)
    requires Clean(cfg) && CleanAmbient(a) && !HasCrLf(path)
    ensures var filename := Filename(path, cfg.basePath, cfg.defaultPath);
      FramedUnless304(GetReply(cfg, a, path, tag),
                      Extension(filename).Some? && Unchanged(a, filename, Extension(filename).value, path, tag))
  {
    var filename := Filename(path, cfg.basePath, cfg.defaultPath);
    var extension := Extension(filename);
    if extension.None? {
      ErrorIsFramed(cfg, a.date, 501, "Not Implemented");
    } else if IsScript(extension.value) {
      ScriptsHaveNoType(extension.value);
      ScriptReplyIsFramed(cfg, a, filename, extension);
    } else {
      FileReplyIsFramed(cfg, a, filename, extension.value, path, tag);
    }
  }

  /** The reply to a complete request is a 304 exactly when the request revalidates an unchanged file. */
  lemma AnswerIsFramed(cfg: Config, a: Ambient, method_: seq<char>, path: seq<char>, headers: seq<Header>)
    requires Clean(cfg) && CleanAmbient(a) && !HasCrLf(path)
    ensures FramedUnless304(Answer(cfg, a, method_, path, headers), Revalidates(cfg, a, method_, path, headers))
  {
    match MethodOf(method_)
    case GET => GetReplyIsFramed(cfg, a, path, FirstHeader(headers, "If-None-Match").GetOr([]));
    case POST =>
      var filename := Filename(path, cfg.basePath, cfg.defaultPath);
      ScriptReplyIsFramed(cfg, a, filename, Extension(filename));
    case OPTIONS => OptionsIsFramed(cfg, a.date);
    case UNKNOWN => ErrorIsFramed(cfg, a.date, 501, "Not Implemented");
  }

  // ---------- conditional requests ----------

  /**
   The tag a 200 response for this file carries is answered with 304 later exactly when time and path are still the
   same.
   */
  lemma EchoedTagIff(cfg: Config, a: Ambient, m1: int, p1: seq<char>, path: seq<char>, extension: seq<char>,
                     filename: seq<char>)
    requires path != [] && path[0] == '/' && p1 != [] && p1[0] == '/'
    requires filename in a.files && a.files[filename].readable && ContentType(extension).Some?
    requires Untruncated(m1, p1) && Untruncated(a.files[filename].modified, path)
    ensures FileReply(cfg, a, filename, extension, path, Etag(m1, p1)).message == NotModifiedMessage(cfg, a.date) <==>
      m1 == a.files[filename].modified && p1 == path
  {
    EtagIdentifies(m1, p1, a.files[filename].modified, path);
    var m := FileMessage(cfg, a.date, ContentType(extension).value, Etag(a.files[filename].modified, path),
      a.lastModified, a.files[filename].content);
    assert |m.lines| > 3;
    assert |NotModifiedMessage(cfg, a.date).lines| == 3;
  }
}
