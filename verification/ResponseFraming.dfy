/** The server's responses as a client delimits them. */
module ResponseFraming {
  import opened Common
  import opened Decimal
  import opened Framing
  import opened Responses

  lemma ConcatNoCrLf(a: seq<char>, b: seq<char>)
    requires !HasCrLf(a) && !HasCrLf(b)
    requires a == [] || b == [] || a[|a| - 1] != '\r' || b[0] != '\n'
    ensures !HasCrLf(a + b)
  {
    var s := a + b;
    forall i | 0 <= i < |s| - 1
      ensures !(s[i] == '\r' && s[i + 1] == '\n')
    {
      if i < |a| - 1 {
        assert !(a[i] == '\r' && a[i + 1] == '\n');
      } else if i >= |a| {
        var j := i - |a|;
        assert s[i] == b[j] && s[i + 1] == b[j + 1];
        assert !(b[j] == '\r' && b[j + 1] == '\n');
      }
    }
  }

  lemma {:induction false} DigitsNoCrLf(n: nat)
    ensures !HasCrLf(Digits(n))
  {
    forall i | 0 <= i < |Digits(n)| - 1
      ensures Digits(n)[i] != '\r'
    {
      assert IsDigit(Digits(n)[i]);
    }
  }

  /** A field behind its name. */
  lemma FieldLine(name: seq<char>, value: seq<char>)
    requires name != [] && !HasCrLf(name) && !HasCrLf(value) && name[|name| - 1] == ' '
    ensures GoodLine(name + value)
  {
    ConcatNoCrLf(name, value);
  }

  predicate ErrorCode(code: nat) {
    code == 400 || code == 404 || code == 500 || code == 501
  }

  lemma {:induction false} StatusLineIsGood(code: nat, message: seq<char>)
    requires !HasCrLf(message)
    ensures GoodLine("HTTP/1.1 " + Digits(code) + " " + message)
  {
    DigitsNoCrLf(code);
    ConcatNoCrLf("HTTP/1.1 ", Digits(code));
    ConcatNoCrLf("HTTP/1.1 " + Digits(code), " ");
    ConcatNoCrLf("HTTP/1.1 " + Digits(code) + " ", message);
  }

  lemma {:induction false} StatusDigits(code: nat)
    requires code == 200 || ErrorCode(code)
    ensures Digits(code)[0] != '3'
  {
    assert Digits(code) == Digits(code / 10) + [DigitChar(code % 10)];
    assert Digits(code / 10) == Digits(code / 100) + [DigitChar(code / 10 % 10)];
  }

  /** The first three lines of every response. */
  lemma CommonIsGood(cfg: Config, date: seq<char>, code: nat, message: seq<char>)
    requires !HasCrLf(cfg.signature) && !HasCrLf(date) && !HasCrLf(message)
    ensures GoodHead(CommonLines(cfg, date, code, message))
    ensures AnnouncesNoLength(CommonLines(cfg, date, code, message))
    ensures code == 200 || ErrorCode(code) ==> !(NOT_MODIFIED <= CommonLines(cfg, date, code, message)[0])
    ensures code == 304 ==> NOT_MODIFIED <= CommonLines(cfg, date, code, message)[0]
  {
    StatusLineIsGood(code, message);
    FieldLine("Date: ", date);
    FieldLine("Server: ", cfg.signature);
    var line := "HTTP/1.1 " + Digits(code) + " " + message;
    assert line[0] == 'H' && ("Date: " + date)[0] == 'D' && ("Server: " + cfg.signature)[0] == 'S'
      && CONTENT_LENGTH[0] == 'C';
    if code == 200 || ErrorCode(code) {
      StatusDigits(code);
      assert line[9] == Digits(code)[0] && NOT_MODIFIED[9] == '3';
    } else if code == 304 {
      assert Digits(304) == Digits(30) + ['4'] && Digits(30) == ['3'] + ['0'];
      assert line == NOT_MODIFIED + (" " + message);
    }
  }

  ghost predicate AnnouncesNoLength(lines: seq<seq<char>>) {
    forall i :: 0 <= i < |lines| ==> !(CONTENT_LENGTH <= lines[i])
  }

  lemma {:induction false} BodyLengthSkips(a: seq<seq<char>>, b: seq<seq<char>>)
    requires AnnouncesNoLength(a)
    ensures BodyLength(a + b) == BodyLength(b)
    decreases |a|
  {
    if a == [] {
      assert a + b == b;
    } else {
      assert (a + b)[1..] == a[1..] + b;
      BodyLengthSkips(a[1..], b);
    }
  }

  lemma {:induction false} LengthLine(n: nat)
    ensures GoodLine(CONTENT_LENGTH + Digits(n))
    ensures forall rest: seq<seq<char>> :: BodyLength([CONTENT_LENGTH + Digits(n)] + rest) == Some(n)
  {
    DigitsNoCrLf(n);
    FieldLine(CONTENT_LENGTH, Digits(n));
    DigitsRoundTrip(n);
    assert (CONTENT_LENGTH + Digits(n))[|CONTENT_LENGTH|..] == Digits(n);
  }

  /** Good lines, then the length, then good lines. */
  lemma {:induction false} FramedByParts(before: seq<seq<char>>, after: seq<seq<char>>, body: seq<char>)
    requires GoodHead(before) && AnnouncesNoLength(before) && !(NOT_MODIFIED <= before[0])
    ensures var m := Message(before + [CONTENT_LENGTH + Digits(|body|)] + after, body);
      WellFramed(m) <==> forall i :: 0 <= i < |after| ==> GoodLine(after[i])
  {
    var length := CONTENT_LENGTH + Digits(|body|);
    LengthLine(|body|);
    assert before + [length] + after == before + ([length] + after);
    BodyLengthSkips(before, [length] + after);
    GoodByParts(before, length, after);
  }

  lemma GoodByParts(before: seq<seq<char>>, line: seq<char>, after: seq<seq<char>>)
    requires GoodHead(before) && GoodLine(line)
    ensures GoodHead(before + [line] + after) <==> forall i :: 0 <= i < |after| ==> GoodLine(after[i])
    ensures (before + [line] + after)[0] == before[0]
  {
    var all := before + [line] + after;
    if GoodHead(all) {
      forall i | 0 <= i < |after|
        ensures GoodLine(after[i])
      {
        assert all[|before| + 1 + i] == after[i];
      }
    }
  }

  lemma TypeLineIsGood(contentType: seq<char>)
    requires !HasCrLf(contentType)
    ensures GoodLine(TypeLine(contentType)) && !(CONTENT_LENGTH <= TypeLine(contentType))
  {
    ConcatNoCrLf("Content-Type: ", contentType);
    ConcatNoCrLf("Content-Type: " + contentType, "; charset=UTF-8");
    assert TypeLine(contentType)[8] == 'T' && CONTENT_LENGTH[8] == 'L';
  }

  lemma FixedLines()
    ensures GoodLine(KEEP_ALIVE) && GoodLine(CLOSE)
    ensures HTML == TypeLine("text/html") && PLAIN == TypeLine("text/plain")
  {
  }

  lemma ErrorIsFramed(cfg: Config, date: seq<char>, code: nat, message: seq<char>)
    requires !HasCrLf(cfg.signature) && !HasCrLf(date) && !HasCrLf(message) && ErrorCode(code)
    ensures WellFramed(ErrorMessage(cfg, date, code, message))
  {
    var common, body := CommonLines(cfg, date, code, message), ErrorBody(message);
    CommonIsGood(cfg, date, code, message);
    FixedLines();
    TypeLineIsGood("text/html");
    FramedByParts(common + [HTML], [CLOSE], body);
    assert common + [HTML] + [CONTENT_LENGTH + Digits(|body|)] + [CLOSE] ==
      common + [HTML, CONTENT_LENGTH + Digits(|body|), CLOSE];
  }

  lemma OptionsIsFramed(cfg: Config, date: seq<char>)
    requires !HasCrLf(cfg.signature) && !HasCrLf(date)
    ensures WellFramed(OptionsMessage(cfg, date))
  {
    var common := CommonLines(cfg, date, 200, "OK");
    CommonIsGood(cfg, date, 200, "OK");
    FixedLines();
    assert ALLOW[0] == 'A' && CONTENT_LENGTH[0] == 'C';
    FramedByParts(common + [ALLOW], [KEEP_ALIVE], []);
    assert common + [ALLOW] + [CONTENT_LENGTH + Digits(0)] + [KEEP_ALIVE] ==
      common + [ALLOW, CONTENT_LENGTH + Digits(0), KEEP_ALIVE];
  }

  lemma ScriptIsFramed(cfg: Config, date: seq<char>, output: seq<char>)
    requires !HasCrLf(cfg.signature) && !HasCrLf(date)
    ensures WellFramed(ScriptMessage(cfg, date, output))
  {
    var common := CommonLines(cfg, date, 200, "OK");
    CommonIsGood(cfg, date, 200, "OK");
    FixedLines();
    TypeLineIsGood("text/plain");
    FramedByParts(common + [PLAIN], [KEEP_ALIVE], output);
    assert common + [PLAIN] + [CONTENT_LENGTH + Digits(|output|)] + [KEEP_ALIVE]
        == common + [PLAIN, CONTENT_LENGTH + Digits(|output|), KEEP_ALIVE];
  }

  /** lastModified puts no blank line into the head. */
  ghost predicate NoBlankLine(lastModified: seq<char>) {
    forall i :: 0 <= i < |Lines(lastModified + KEEP_ALIVE)| ==> Lines(lastModified + KEEP_ALIVE)[i] != []
  }

  /** The response for a file is framed exactly when the opaque date text adds no blank line. */
  lemma FileIsFramedIff(cfg: Config, date: seq<char>, contentType: seq<char>, etag: seq<char>, lastModified: seq<char>,
                        content: seq<char>)
    requires !HasCrLf(cfg.signature) && !HasCrLf(date) && !HasCrLf(contentType) && !HasCrLf(etag)
    ensures WellFramed(FileMessage(cfg, date, contentType, etag, lastModified, content)) <==> NoBlankLine(lastModified)
  {
    var common, rest := CommonLines(cfg, date, 200, "OK"), Lines(lastModified + KEEP_ALIVE);
    CommonIsGood(cfg, date, 200, "OK");
    TypeLineIsGood(contentType);
    FieldLine("ETag: ", etag);
    var tag := "ETag: " + etag;
    assert tag[0] == 'E' && CONTENT_LENGTH[0] == 'C';
    LinesHaveNoCrLf(lastModified + KEEP_ALIVE);
    FramedByParts(common + [TypeLine(contentType), tag], rest, content);
    assert common + [TypeLine(contentType), tag] + [CONTENT_LENGTH + Digits(|content|)] + rest
        == common + [TypeLine(contentType), tag, CONTENT_LENGTH + Digits(|content|)] + rest;
  }

  lemma NotModifiedIsStray(cfg: Config, date: seq<char>)
    requires !HasCrLf(cfg.signature) && !HasCrLf(date)
    ensures StrayNotModified(NotModifiedMessage(cfg, date))
  {
    CommonIsGood(cfg, date, 304, "Not Modified");
  }
}
