/** The status line of a response, read back by the parser. */
module HttpStatusLine {
  import opened Wrappers
  import opened HttpChars
  import opened HttpTypes
  import opened HttpStep
  import opened HttpRun
  import opened HttpInvariant
  import opened HttpLength
  import opened HttpRequestLine

  predicate IsReason(reason: string) {
    forall i :: 0 <= i < |reason| ==> reason[i] != CR && reason[i] != LF
  }

  function StatusLine(major: nat, minor: nat, code: string, reason: string): string
    requires major < 10 && minor < 10
  {
    "HTTP/" + [DigitChar(major)] + "." + [DigitChar(minor)] + " " + (code + (" " + (reason + [CR, LF])))
  }

  /** The parser behind a status line of `n` bytes. */
  function BehindStatusLine(n: nat, major: nat, minor: nat, status: nat): Parser {
    Init(ParserType.Response).(length := NO_LENGTH, nread := n, state := HeaderFieldStart, major := major, minor := minor,
                               status := status)
  }

  // ---- the protocol and its version ----

  /** A response just begun. */
  function Begun(): Parser {
    Init(ParserType.Response).(length := NO_LENGTH)
  }

  lemma FirstByte(st: Settings)
    ensures Step(st, Init(ParserType.Response), 'H') == Noting(InLine(Begun(), 1, ResH), MessageBegin)
    ensures OpenKind(Init(ParserType.Response).state) == None
  {
  }

  lemma VersionSteps(st: Settings, s: Parser, n: nat, d: nat)
    requires n < MAX_HEADER_SIZE && d < 10
    ensures Step(st, InLine(s, n, ResHttpMajor), DigitChar(d)) == Go(InLine(s.(major := d), n + 1, ResHttpDot), SILENT)
    ensures Step(st, InLine(s, n, ResHttpMinor), DigitChar(d)) == Go(InLine(s.(minor := d), n + 1, ResHttpEnd), SILENT)
    ensures OpenKind(InLine(s, n, ResHttpMajor).state) == None && OpenKind(InLine(s, n, ResHttpMinor).state) == None
  {
    hide *;
    StatusMajor(st, s, n, d);
    StatusMinor(st, s, n, d);
  }

  lemma StatusMajor(st: Settings, s: Parser, n: nat, d: nat)
    requires n < MAX_HEADER_SIZE && d < 10
    ensures Step(st, InLine(s, n, ResHttpMajor), DigitChar(d)) == Go(InLine(s.(major := d), n + 1, ResHttpDot), SILENT)
    ensures OpenKind(InLine(s, n, ResHttpMajor).state) == None
  {
  }

  lemma StatusMinor(st: Settings, s: Parser, n: nat, d: nat)
    requires n < MAX_HEADER_SIZE && d < 10
    ensures Step(st, InLine(s, n, ResHttpMinor), DigitChar(d)) == Go(InLine(s.(minor := d), n + 1, ResHttpEnd), SILENT)
    ensures OpenKind(InLine(s, n, ResHttpMinor).state) == None
  {
  }

  lemma BegunRun(st: Settings)
    ensures Run(st, Start(Init(ParserType.Response)), ['H']) == Machine(InLine(Begun(), 1, ResH), [MessageBegin], 1, Going)
  {
    hide *;
    var m := Start(Init(ParserType.Response));
    StartFacts();
    FirstByte(st);
    RunNil(st, m);
    NoteIsNoData();
    RunNote(st, m, [], 'H', InLine(Begun(), 1, ResH), MessageBegin);
    assert [] + ['H'] == ['H'];
  }

  lemma StartFacts()
    ensures var m := Start(Init(ParserType.Response)); m.s == Init(ParserType.Response) && m.log == [] && m.n == 0 && m.out.Going?
  {
  }

  lemma NoteIsNoData()
    ensures !MessageBegin.Data? && [] + [MessageBegin] == [MessageBegin]
  {
  }

  /** Everything up to the status code. */
  lemma VersionPart(st: Settings, m: Machine, major: nat, minor: nat)
    requires m.out.Going? && m.s == InLine(Begun(), 1, ResH) && major < 10 && minor < 10
    ensures Leads(st, m, "TTP/" + [DigitChar(major)] + "." + [DigitChar(minor)] + " ",
                  InLine(Begun().(major := major, minor := minor), 9, ResFirstStatusCode))
  {
    hide Step, InLine, Leads, DigitChar, Begun;
    var s, x, y := Begun(), DigitChar(major), DigitChar(minor);
    var s1 := s.(major := major);
    var s2 := s1.(minor := minor);
    LeadsNothing(st, m);
    LeadsLiteral(st, m, [], s, 1, ResH);
    LeadsLiteral(st, m, [] + ['T'], s, 2, ResHT);
    LeadsLiteral(st, m, [] + ['T'] + ['T'], s, 3, ResHTT);
    LeadsLiteral(st, m, [] + ['T'] + ['T'] + ['P'], s, 4, ResHTTP);
    var a := [] + ['T'] + ['T'] + ['P'] + ['/'];
    VersionSteps(st, s, 5, major);
    LeadsOn(st, m, a, x, InLine(s, 5, ResHttpMajor), InLine(s1, 6, ResHttpDot));
    LeadsLiteral(st, m, a + [x], s1, 6, ResHttpDot);
    VersionSteps(st, s1, 7, minor);
    LeadsOn(st, m, a + [x] + ['.'], y, InLine(s1, 7, ResHttpMinor), InLine(s2, 8, ResHttpEnd));
    LeadsLiteral(st, m, a + [x] + ['.'] + [y], s2, 8, ResHttpEnd);
    assert a + [x] + ['.'] + [y] + [' '] == "TTP/" + [x] + "." + [y] + " ";
  }

  // ---- the status code ----

  /** Inside the status code. */
  function InCode(s: Parser, n: nat, v: nat): Parser {
    s.(state := ResStatusCode, nread := n, status := v)
  }

  lemma CodeFirst(st: Settings, s: Parser, n: nat, ch: char)
    requires n < MAX_HEADER_SIZE && IsNum(ch)
    ensures Step(st, InLine(s, n, ResFirstStatusCode), ch) == Go(InCode(s, n + 1, Digit(ch)), SILENT)
    ensures OpenKind(InLine(s, n, ResFirstStatusCode).state) == None
  {
  }

  lemma CodeNext(st: Settings, s: Parser, n: nat, v: nat, ch: char)
    requires n < MAX_HEADER_SIZE && IsNum(ch)
    ensures OpenKind(InCode(s, n, v).state) == None
    ensures var code := v * 10 + Digit(ch);
            Step(st, InCode(s, n, v), ch) == if code > 999 then Fail(InvalidStatus) else Go(InCode(s, n + 1, code), SILENT)
  {
  }

  lemma CodeEnds(st: Settings, s: Parser, n: nat, v: nat)
    requires n < MAX_HEADER_SIZE
    ensures Step(st, InCode(s, n, v), ' ') == Go(InLine(s.(status := v), n + 1, ResStatusStart), SILENT)
    ensures OpenKind(InCode(s, n, v).state) == None
  {
  }

  /** A status code is accepted exactly when its value has at most three digits, and then held exactly. */
  lemma {:induction false} StatusCodeExact(st: Settings, m: Machine, s: Parser, n: nat, ds: string)
    requires m.out.Going? && m.s == InLine(s, n, ResFirstStatusCode)
    requires ds != [] && AllNum(ds) && n + |ds| <= MAX_HEADER_SIZE
    ensures var r := Run(st, m, ds);
            if DecValue(ds) <= 999 then r == Machine(InCode(s, n + |ds|, DecValue(ds)), m.log, m.n + |ds|, Going)
            else r.out.Failed? && r.out.errno == InvalidStatus
    decreases |ds|
  {
    hide *;
    var init, ch := ds[..|ds| - 1], ds[|ds| - 1];
    assert ds == init + [ch];
    DecSnoc(ds);
    if init == [] {
      assert ds == [ch];
      RunNil(st, m);
      CodeFirst(st, s, n, ch);
      RunSilent(st, m, [], ch, InCode(s, n + 1, Digit(ch)));
    } else {
      StatusCodeExact(st, m, s, n, init);
      var r := Run(st, m, init);
      if DecValue(init) > 999 {
        RunStopped(st, r, [ch]);
        RunConcat(st, m, init, [ch]);
      } else {
        var v := DecValue(init) * 10 + Digit(ch);
        CodeNext(st, s, n + |init|, DecValue(init), ch);
        if v > 999 {
          RunFail(st, m, init, ch, InvalidStatus);
        } else {
          RunSilent(st, m, init, ch, InCode(s, n + |ds|, v));
        }
      }
    }
  }

  // ---- the reason ----

  lemma ReasonStarts(st: Settings, s: Parser, n: nat, ch: char)
    requires n < MAX_HEADER_SIZE && ch != LF
    ensures OpenKind(InLine(s, n, ResStatusStart).state) == None
    ensures ch != CR ==> Step(st, InLine(s, n, ResStatusStart), ch) == Marking(InLine(s.(index := 0), n + 1, ResStatus), Status)
    ensures ch == CR ==> Step(st, InLine(s, n, ResStatusStart), ch)
                         == Go(InLine(s.(index := 0), n + 1, ResLineAlmostDone), Calls(Some(Close(Status, true, false)), [], None))
  {
  }

  lemma ReasonGoesOn(st: Settings, s: Parser, n: nat, ch: char)
    requires n < MAX_HEADER_SIZE && ch != LF
    ensures OpenKind(InLine(s, n, ResStatus).state) == Some(Status)
    ensures ch != CR ==> Step(st, InLine(s, n, ResStatus), ch) == Go(InLine(s, n + 1, ResStatus), SILENT)
    ensures ch == CR ==> Step(st, InLine(s, n, ResStatus), ch) == Closing(InLine(s, n + 1, ResStatus), Status, ResLineAlmostDone)
    ensures InLine(s, n + 1, ResStatus).(state := ResLineAlmostDone) == InLine(s, n + 1, ResLineAlmostDone)
  {
  }

  lemma {:induction false} ReasonRun(st: Settings, m: Machine, s: Parser, n: nat, reason: string)
    requires m.out.Going? && m.s == InLine(s, n, ResStatusStart)
    requires reason != [] && IsReason(reason) && n + |reason| <= MAX_HEADER_SIZE
    ensures Run(st, m, reason)
         == Machine(InLine(s.(index := 0), n + |reason|, ResStatus), Push(m.log, Data(Status, reason, false)), m.n + |reason|, Going)
    decreases |reason|
  {
    hide Step, Run, Push, InLine;
    var init, ch, t := reason[..|reason| - 1], reason[|reason| - 1], s.(index := 0);
    assert reason == init + [ch];
    if init == [] {
      assert reason == [ch];
      RunNil(st, m);
      ReasonStarts(st, s, n, ch);
      RunMark(st, m, [], ch, InLine(t, n + 1, ResStatus), Status);
    } else {
      ReasonRun(st, m, s, n, init);
      ReasonGoesOn(st, t, n + |init|, ch);
      RunData(st, m, init, ch, InLine(t, n + |reason|, ResStatus), Status, m.log, init);
    }
  }

  lemma EmptyReason(log: seq<Event>)
    requires log == [MessageBegin]
    ensures PushAll(log, EventsOf(None, Calls(Some(Close(Status, true, false)), [], None), CR)) == log + [Data(Status, [], true)]
    ensures forall reason :: Push(log, Data(Status, reason, true)) == log + [Data(Status, reason, true)]
  {
    assert EventsOf(None, Calls(Some(Close(Status, true, false)), [], None), CR) == [Data(Status, [], true)];
    PushAllOne(log, Data(Status, [], true));
  }

  /** The reason and the end of the line. */
  lemma ReasonPart(st: Settings, m: Machine, s: Parser, n: nat, reason: string)
    requires m.out.Going? && m.s == InLine(s, n, ResStatusStart) && m.log == [MessageBegin]
    requires IsReason(reason) && n + |reason| + 2 <= MAX_HEADER_SIZE
    ensures Run(st, m, reason + [CR, LF])
         == Machine(InLine(s.(index := 0), n + |reason| + 2, HeaderFieldStart), m.log + [Data(Status, reason, true)],
                    m.n + |reason| + 2, Going)
  {
    hide *;
    var t, k := s.(index := 0), n + |reason|;
    EmptyReason(m.log);
    CrIsNotLf();
    LineFeed(st, t, k + 1);
    if reason == [] {
      RunNil(st, m);
      ReasonStarts(st, s, n, CR);
      RunGo(st, m, [], CR, InLine(t, n + 1, ResLineAlmostDone), Calls(Some(Close(Status, true, false)), [], None));
      assert [] + [CR] == [CR] && [] + [CR, LF] == [CR] + [LF];
      RunSilent(st, m, [CR], LF, InLine(t, n + 2, HeaderFieldStart));
    } else {
      ReasonRun(st, m, s, n, reason);
      ReasonGoesOn(st, t, k, CR);
      RunClose(st, m, reason, CR, InLine(t, k + 1, ResStatus), Status, ResLineAlmostDone, m.log, reason);
      assert reason + [CR] + [LF] == reason + [CR, LF];
      RunSilent(st, m, reason + [CR], LF, InLine(t, k + 2, HeaderFieldStart));
    }
  }

  lemma CrIsNotLf()
    ensures CR != LF
  {
  }

  lemma LineFeed(st: Settings, s: Parser, n: nat)
    requires n < MAX_HEADER_SIZE
    ensures Step(st, InLine(s, n, ResLineAlmostDone), LF) == Go(InLine(s, n + 1, HeaderFieldStart), SILENT)
    ensures OpenKind(InLine(s, n, ResLineAlmostDone).state) == None
  {
  }

  // ---- the whole line ----

  /** A status line is read as what it says, and its reason reported whole. */
  lemma StatusLineRead(st: Settings, major: nat, minor: nat, code: string, reason: string)
    requires major < 10 && minor < 10 && code != [] && AllNum(code) && DecValue(code) <= 999 && IsReason(reason)
    requires |StatusLine(major, minor, code, reason)| <= MAX_HEADER_SIZE
    ensures var line := StatusLine(major, minor, code, reason);
            Run(st, Start(Init(ParserType.Response)), line)
            == Machine(BehindStatusLine(|line|, major, minor, DecValue(code)), [MessageBegin, Data(Status, reason, true)], |line|, Going)
  {
    hide *;
    var m0 := Start(Init(ParserType.Response));
    var a, b, c := ['H'] + VersionText(major, minor), code + [' '], reason + [CR, LF];
    LineSplits(major, minor, code, reason);
    BegunRun(st);
    var m1 := Run(st, m0, ['H']);
    VersionPart(st, m1, major, minor);
    VersionTextIs(major, minor);
    var s := Begun().(major := major, minor := minor);
    LeadsHas(st, m1, VersionText(major, minor), InLine(s, 9, ResFirstStatusCode));
    RunConcat(st, m0, ['H'], VersionText(major, minor));
    var m2 := Run(st, m0, a);
    StatusCodeExact(st, m2, s, 9, code);
    var v, n := DecValue(code), 9 + |code|;
    CodeEnds(st, s, n, v);
    RunSilent(st, m2, code, ' ', InLine(s.(status := v), n + 1, ResStatusStart));
    var m3 := Run(st, m2, b);
    ReasonPart(st, m3, s.(status := v), n + 1, reason);
    RunConcat(st, m2, b, c);
    RunConcat(st, m0, a, b + c);
    BehindIs(major, minor, v, n + 1 + |reason| + 2);
  }

  function VersionText(major: nat, minor: nat): string
    requires major < 10 && minor < 10
  {
    "TTP/" + [DigitChar(major)] + "." + [DigitChar(minor)] + " "
  }

  lemma VersionTextIs(major: nat, minor: nat)
    requires major < 10 && minor < 10
    ensures VersionText(major, minor) == "TTP/" + [DigitChar(major)] + "." + [DigitChar(minor)] + " "
    ensures |VersionText(major, minor)| == 8
  {
    hide DigitChar;
  }

  lemma LineSplits(major: nat, minor: nat, code: string, reason: string)
    requires major < 10 && minor < 10
    ensures StatusLine(major, minor, code, reason)
         == (['H'] + VersionText(major, minor)) + ((code + [' ']) + (reason + [CR, LF]))
    ensures |StatusLine(major, minor, code, reason)| == 9 + |code| + 1 + |reason| + 2
    ensures [MessageBegin] + [Data(Status, reason, true)] == [MessageBegin, Data(Status, reason, true)]
  {
    hide DigitChar;
    var x, y := DigitChar(major), DigitChar(minor);
    assert "HTTP/" + [x] + "." + [y] + " " == ['H'] + VersionText(major, minor);
    assert code + (" " + (reason + [CR, LF])) == (code + [' ']) + (reason + [CR, LF]);
  }

  lemma BehindIs(major: nat, minor: nat, status: nat, n: nat)
    ensures InLine(Begun().(major := major, minor := minor).(status := status).(index := 0), n, HeaderFieldStart)
         == BehindStatusLine(n, major, minor, status)
  {
  }
}
