/** The request line as HttpRequest::dump prints it, read back by the parser. */
module HttpRequestLine {
  import opened Wrappers
  import opened HttpChars
  import opened HttpTypes
  import opened HttpStep
  import opened HttpRun
  import opened HttpInvariant
  import opened HttpUrl

  // ---- the method ----

  /** The method the parser takes the name of `m` for after its first `i` bytes. */
  function Guess(m: Method, i: nat): Method {
    match m
    case PUT => if i <= 1 then POST else PUT
    case PATCH => if i <= 1 then POST else PATCH
    case PROPFIND => if i <= 1 then POST else PROPFIND
    case PROPPATCH => if i <= 1 then POST else if i <= 4 then PROPFIND else PROPPATCH
    case PURGE => if i <= 1 then POST else if i <= 2 then PUT else PURGE
    case CHECKOUT => if i <= 1 then CONNECT else CHECKOUT
    case COPY => if i <= 2 then CONNECT else COPY
    case MOVE => if i <= 1 then MKCOL else MOVE
    case MERGE => if i <= 1 then MKCOL else MERGE
    case MSEARCH => if i <= 1 then MKCOL else MSEARCH
    case MKACTIVITY => if i <= 2 then MKCOL else MKACTIVITY
    case MKCALENDAR => if i <= 3 then MKCOL else MKCALENDAR
    case SEARCH => if i <= 1 then SUBSCRIBE else SEARCH
    case SOURCE => if i <= 1 then SUBSCRIBE else SOURCE
    case REBIND => if i <= 2 then REPORT else REBIND
    case LINK => if i <= 1 then LOCK else LINK
    case UNSUBSCRIBE => if i <= 2 then UNLOCK else UNSUBSCRIBE
    case UNBIND => if i <= 2 then UNLOCK else UNBIND
    case UNLINK => if i <= 3 then UNLOCK else UNLINK
    case _ => m
  }

  lemma GuessFirst(m: Method)
    ensures |MethodString(m)| >= 3 && FirstMethod(MethodString(m)[0]) == Some(Guess(m, 1))
    ensures MethodString(m)[0] != CR && MethodString(m)[0] != LF
  {
  }

  lemma GuessLast(m: Method)
    ensures Guess(m, |MethodString(m)|) == m
  {
  }

  lemma GuessStays(m: Method, i: nat)
    requires Guess(m, i) == m
    ensures Guess(m, i + 1) == m
  {
  }

  /** Where the guess is wrong, the byte is shared by both names or a branch of the table. */
  lemma GuessCorrected(m: Method, i: nat)
    requires 1 <= i < |MethodString(m)| && Guess(m, i) != m
    ensures Corrected(m, i)
  {
    hide *;
    if m.PUT? || m.PATCH? || m.PROPFIND? || m.PROPPATCH? || m.PURGE? {
      CorrectedToP(m, i);
    } else if m.MOVE? || m.MERGE? || m.MSEARCH? || m.MKACTIVITY? || m.MKCALENDAR? {
      CorrectedToM(m, i);
    } else {
      CorrectedToOther(m, i);
    }
  }

  /** The byte at which the guess is wrong, as the table has it. */
  predicate Corrected(m: Method, i: nat)
    requires i < |MethodString(m)|
  {
    var v, c := Guess(m, i), MethodString(m)[i];
    i <= 4 && if c == CharAt(MethodString(v), i) then Guess(m, i + 1) == v else Rematch(v, i, c) == Some(Guess(m, i + 1))
  }

  lemma CorrectedToP(m: Method, i: nat)
    requires 1 <= i < |MethodString(m)| && Guess(m, i) != m
    requires m.PUT? || m.PATCH? || m.PROPFIND? || m.PROPPATCH? || m.PURGE?
    ensures Corrected(m, i)
  {
    if i == 1 {
    } else if i == 2 {
    } else {
    }
  }

  lemma CorrectedToM(m: Method, i: nat)
    requires 1 <= i < |MethodString(m)| && Guess(m, i) != m
    requires m.MOVE? || m.MERGE? || m.MSEARCH? || m.MKACTIVITY? || m.MKCALENDAR?
    ensures Corrected(m, i)
  {
    if i == 1 {
    } else if i == 2 {
    } else {
    }
  }

  lemma CorrectedToOther(m: Method, i: nat)
    requires 1 <= i < |MethodString(m)| && Guess(m, i) != m
    requires !(m.PUT? || m.PATCH? || m.PROPFIND? || m.PROPPATCH? || m.PURGE?)
    requires !(m.MOVE? || m.MERGE? || m.MSEARCH? || m.MKACTIVITY? || m.MKCALENDAR?)
    ensures Corrected(m, i)
  {
    if i == 1 {
    } else if i == 2 {
    } else {
    }
  }

  lemma NameByte(m: Method, i: nat)
    requires i < |MethodString(m)|
    ensures MethodString(m)[i] > ' '
  {
    assert MethodString(m)[i] in MethodString(m);
  }

  /** At each byte the name guessed so far goes on with it, or the table of branches has it. */
  lemma GuessNext(m: Method, i: nat)
    requires 1 <= i < |MethodString(m)|
    ensures var v, c := Guess(m, i), MethodString(m)[i];
            && c != '\0' && c != ' '
            && (if c == CharAt(MethodString(v), i) then Guess(m, i + 1) == v else Rematch(v, i, c) == Some(Guess(m, i + 1)))
  {
    hide Guess, MethodString, Rematch;
    NameByte(m, i);
    if Guess(m, i) == m {
      GuessStays(m, i);
    } else {
      GuessCorrected(m, i);
    }
  }

  /** Reading the method of a request line, after `i` bytes and `n` bytes of the header section. */
  function InMethod(s: Parser, n: nat, m: Method, i: nat): Parser {
    s.(state := ReqMethod, flags := NO_FLAGS, length := NO_LENGTH, verb := m, index := i, nread := n)
  }

  function AfterMethod(s: Parser, n: nat, m: Method): Parser {
    InMethod(s, n, m, |MethodString(m)| + 1).(state := ReqSpacesBeforeUrl)
  }

  lemma MethodStarts(st: Settings, s: Parser, ch: char, v: Method)
    requires s.state.StartReq? && s.nread < MAX_HEADER_SIZE && ch != CR && ch != LF && FirstMethod(ch) == Some(v)
    ensures Step(st, s, ch) == Noting(InMethod(s, s.nread + 1, v, 1), MessageBegin) && OpenKind(s.state) == None
  {
    hide FirstMethod;
  }

  lemma MethodGoesOn(st: Settings, s: Parser, n: nat, v: Method, w: Method, i: nat, ch: char)
    requires n < MAX_HEADER_SIZE && ch != '\0' && ch != ' '
    requires if ch == CharAt(MethodString(v), i) then w == v else Rematch(v, i, ch) == Some(w)
    ensures Step(st, InMethod(s, n, v, i), ch) == Go(InMethod(s, n + 1, w, i + 1), SILENT)
    ensures OpenKind(InMethod(s, n, v, i).state) == None
  {
    hide MethodString, Rematch, CharAt;
  }

  lemma MethodEnds(st: Settings, s: Parser, n: nat, m: Method)
    requires n < MAX_HEADER_SIZE
    ensures Step(st, InMethod(s, n, m, |MethodString(m)|), ' ') == Go(AfterMethod(s, n + 1, m), SILENT)
    ensures OpenKind(InMethod(s, n, m, |MethodString(m)|).state) == None
  {
    hide MethodString, Rematch;
  }

  lemma {:induction false} MethodRun(st: Settings, m0: Machine, s: Parser, m: Method, i: nat)
    requires m0.out.Going? && m0.s == s && s.state.StartReq?
    requires 1 <= i <= |MethodString(m)| && s.nread + i <= MAX_HEADER_SIZE
    ensures Run(st, m0, MethodString(m)[..i])
         == Machine(InMethod(s, s.nread + i, Guess(m, i), i), m0.log + [MessageBegin], m0.n + i, Going)
    decreases i
  {
    hide Step, Run, InMethod, Guess, MethodString, Rematch, CharAt, FirstMethod;
    var name, n := MethodString(m), s.nread;
    assert name[..i] == name[..i - 1] + [name[i - 1]];
    if i == 1 {
      GuessFirst(m);
      RunNil(st, m0);
      MethodStarts(st, s, name[0], Guess(m, 1));
      assert name[..0] == [];
      RunNote(st, m0, [], name[0], InMethod(s, n + 1, Guess(m, 1), 1), MessageBegin);
    } else {
      MethodRun(st, m0, s, m, i - 1);
      GuessNext(m, i - 1);
      MethodGoesOn(st, s, n + i - 1, Guess(m, i - 1), Guess(m, i), i - 1, name[i - 1]);
      RunSilent(st, m0, name[..i - 1], name[i - 1], InMethod(s, n + i, Guess(m, i), i));
    }
  }

  /** Every method name is read as that method. */
  lemma MethodRead(st: Settings, m0: Machine, s: Parser, m: Method)
    requires m0.out.Going? && m0.s == s && s.state.StartReq? && s.nread + |MethodString(m)| + 1 <= MAX_HEADER_SIZE
    ensures var k := |MethodString(m)| + 1;
            Run(st, m0, MethodString(m) + [' '])
            == Machine(AfterMethod(s, s.nread + k, m), m0.log + [MessageBegin], m0.n + k, Going)
  {
    hide Step, Run, InMethod, AfterMethod, Guess, MethodString;
    var name := MethodString(m);
    GuessFirst(m);
    GuessLast(m);
    MethodRun(st, m0, s, m, |name|);
    assert name[..|name|] == name;
    MethodEnds(st, s, s.nread + |name|, m);
    RunSilent(st, m0, name, ' ', AfterMethod(s, s.nread + |name| + 1, m));
  }

  // ---- the URL ----

  function InLine(s: Parser, n: nat, state: State): Parser {
    s.(state := state, nread := n)
  }

  /** What a request target is read as: a server for CONNECT. */
  function UrlPass(verb: Method, url: string, n: nat): Pass
    requires n <= |url|
  {
    PassOver(url, verb == CONNECT, n)
  }

  lemma UrlStarts(st: Settings, s: Parser, ch: char)
    requires s.state.ReqSpacesBeforeUrl? && s.nread < MAX_HEADER_SIZE
    requires UrlChar(PassStart(s.verb == CONNECT).s, ch) != Dead
    ensures Step(st, s, ch) == Marking(InLine(s, s.nread + 1, UrlChar(PassStart(s.verb == CONNECT).s, ch)), Url)
  {
    NoBlank(PassStart(s.verb == CONNECT).s, ch);
    hide UrlChar;
  }

  lemma NoBlank(s: State, ch: char)
    requires UrlChar(s, ch) != Dead
    ensures ch != ' ' && ch != CR && ch != LF
  {
  }

  lemma UrlGoesOn(st: Settings, s: Parser, n: nat, state: State, ch: char)
    requires OpenKind(state) == Some(Url) && n < MAX_HEADER_SIZE && UrlChar(state, ch) != Dead
    ensures Step(st, InLine(s, n, state), ch) == Go(InLine(s, n + 1, UrlChar(state, ch)), SILENT)
  {
    hide Dispatch, UrlChar, OpenKind;
    NoBlank(state, ch);
    UrlDispatch(st, InLine(s, n + 1, state), ch);
  }

  lemma UrlDispatch(st: Settings, s: Parser, ch: char)
    requires OpenKind(s.state) == Some(Url) && ch != ' ' && ch != CR && ch != LF && UrlChar(s.state, ch) != Dead
    ensures ParsingHeader(s.state) && Dispatch(st, s, ch) == To(s, UrlChar(s.state, ch))
  {
    hide UrlChar;
  }

  /** Where a URL can end. */
  predicate Endable(state: State) {
    state.ReqServer? || state.ReqServerWithAt? || state.ReqPath? || state.ReqQueryStringStart? || state.ReqQueryString?
    || state.ReqFragmentStart? || state.ReqFragment?
  }

  lemma EndableAlive(state: State)
    requires Endable(state)
    ensures state != Dead
  {
  }

  lemma UrlEnds(st: Settings, s: Parser, n: nat, state: State)
    requires Endable(state) && n < MAX_HEADER_SIZE
    ensures OpenKind(InLine(s, n, state).state) == Some(Url)
    ensures Step(st, InLine(s, n, state), ' ') == Closing(InLine(s, n + 1, state), Url, ReqHttpStart)
  {
  }

  lemma {:induction false} UrlRun(st: Settings, m: Machine, s: Parser, url: string, i: nat)
    requires m.out.Going? && m.s == s && s.state.ReqSpacesBeforeUrl?
    requires 1 <= i <= |url| && s.nread + i <= MAX_HEADER_SIZE && UrlPass(s.verb, url, |url|).s != Dead
    ensures Run(st, m, url[..i]) == Machine(InLine(s, s.nread + i, UrlPass(s.verb, url, i).s),
                                            Push(m.log, Data(Url, url[..i], false)), m.n + i, Going)
    ensures OpenKind(UrlPass(s.verb, url, i).s) == Some(Url)
    decreases i
  {
    hide Step, Run, Push, InLine, UrlChar, PassByte, OpenKind, PassStart;
    PassStartState(s.verb == CONNECT);
    var ch, u := url[i - 1], UrlPass(s.verb, url, i - 1);
    assert url[..i] == url[..i - 1] + [ch];
    PassByteState(u, ch, i - 1);
    if UrlPass(s.verb, url, i).s == Dead {
      DeadStays(url, s.verb == CONNECT, i, |url|);
    }
    UrlCharKind(u.s, ch);
    if i == 1 {
      assert url[..0] == [] && [] + [ch] == [ch];
      RunNil(st, m);
      UrlStarts(st, s, ch);
      RunMark(st, m, [], ch, InLine(s, s.nread + 1, UrlChar(u.s, ch)), Url);
    } else {
      UrlRun(st, m, s, url, i - 1);
      UrlGoesOn(st, s, s.nread + i - 1, u.s, ch);
      InLineKind(s, s.nread + i - 1, u.s);
      RunData(st, m, url[..i - 1], ch, InLine(s, s.nread + i, UrlChar(u.s, ch)), Url, m.log, url[..i - 1]);
    }
  }

  lemma PassStartState(connect: bool)
    ensures PassStart(connect).s == if connect then ReqServerStart else ReqSpacesBeforeUrl
  {
  }

  lemma InLineKind(s: Parser, n: nat, state: State)
    ensures InLine(s, n, state).state == state
  {
  }

  /** A URL the first pass accepts is reported whole at the blank behind it. */
  lemma UrlRead(st: Settings, m: Machine, s: Parser, url: string)
    requires m.out.Going? && m.s == s && s.state.ReqSpacesBeforeUrl?
    requires url != [] && s.nread + |url| + 1 <= MAX_HEADER_SIZE && Endable(UrlPass(s.verb, url, |url|).s)
    ensures Run(st, m, url + [' ']) == Machine(InLine(s, s.nread + |url| + 1, ReqHttpStart),
                                               Push(m.log, Data(Url, url, true)), m.n + |url| + 1, Going)
  {
    hide *;
    EndableAlive(UrlPass(s.verb, url, |url|).s);
    UrlRun(st, m, s, url, |url|);
    assert url[..|url|] == url;
    var state, n: nat := UrlPass(s.verb, url, |url|).s, s.nread + |url|;
    UrlEnds(st, s, n, state);
    RunClose(st, m, url, ' ', InLine(s, n + 1, state), Url, ReqHttpStart, m.log, url);
    InLineAgain(s, n + 1, state);
  }

  lemma InLineAgain(s: Parser, n: nat, state: State)
    ensures InLine(s, n, state).(state := ReqHttpStart) == InLine(s, n, ReqHttpStart)
  {
  }

  // ---- the version ----

  function DigitChar(d: nat): char
    requires d < 10
  {
    (d + '0' as int) as char
  }

  function VersionLine(major: nat, minor: nat): string
    requires major < 10 && minor < 10
  {
    "HTTP/" + [DigitChar(major)] + "." + [DigitChar(minor)] + [CR, LF]
  }

  lemma LiteralStep(st: Settings, s: Parser, n: nat, state: State)
    requires LiteralOf(state).Some? && n < MAX_HEADER_SIZE
    ensures var l := LiteralOf(state).value;
            Step(st, InLine(s, n, state), l.ch) == Go(InLine(s, n + 1, l.next), SILENT)
    ensures OpenKind(InLine(s, n, state).state) == None
  {
  }

  lemma StartStep(st: Settings, s: Parser, n: nat)
    requires n < MAX_HEADER_SIZE
    ensures Step(st, InLine(s, n, ReqHttpStart), 'H') == Go(InLine(s, n + 1, ReqHttpH), SILENT)
    ensures OpenKind(InLine(s, n, ReqHttpStart).state) == None
  {
  }

  lemma MajorStep(st: Settings, s: Parser, n: nat, d: nat)
    requires n < MAX_HEADER_SIZE && d < 10
    ensures Step(st, InLine(s, n, ReqHttpMajor), DigitChar(d)) == Go(InLine(s.(major := d), n + 1, ReqHttpDot), SILENT)
    ensures OpenKind(InLine(s, n, ReqHttpMajor).state) == None
  {
  }

  lemma MinorStep(st: Settings, s: Parser, n: nat, d: nat)
    requires n < MAX_HEADER_SIZE && d < 10
    ensures Step(st, InLine(s, n, ReqHttpMinor), DigitChar(d)) == Go(InLine(s.(minor := d), n + 1, ReqHttpEnd), SILENT)
    ensures OpenKind(InLine(s, n, ReqHttpMinor).state) == None
  {
  }

  lemma EndStep(st: Settings, s: Parser, n: nat)
    requires n < MAX_HEADER_SIZE
    ensures Step(st, InLine(s, n, ReqHttpEnd), CR) == Go(InLine(s, n + 1, ReqLineAlmostDone), SILENT)
    ensures OpenKind(InLine(s, n, ReqHttpEnd).state) == None
  {
  }

  /** Reading `a` leads to `s` without a callback. */
  ghost predicate Leads(st: Settings, m: Machine, a: string, s: Parser) {
    Run(st, m, a) == Machine(s, m.log, m.n + |a|, Going)
  }

  lemma LeadsNothing(st: Settings, m: Machine)
    requires m.out.Going?
    ensures Leads(st, m, [], m.s)
  {
  }

  lemma LeadsOn(st: Settings, m: Machine, a: string, ch: char, s: Parser, s': Parser)
    requires Leads(st, m, a, s) && Step(st, s, ch) == Go(s', SILENT) && OpenKind(s.state) == None
    ensures Leads(st, m, a + [ch], s')
  {
    hide Step, Run;
    RunSilent(st, m, a, ch, s');
  }

  lemma LeadsLiteral(st: Settings, m: Machine, a: string, s: Parser, n: nat, state: State)
    requires Leads(st, m, a, InLine(s, n, state)) && LiteralOf(state).Some? && n < MAX_HEADER_SIZE
    ensures var l := LiteralOf(state).value; Leads(st, m, a + [l.ch], InLine(s, n + 1, l.next))
  {
    hide Step, LiteralOf, InLine, Leads;
    var l := LiteralOf(state).value;
    LiteralStep(st, s, n, state);
    LeadsOn(st, m, a, l.ch, InLine(s, n, state), InLine(s, n + 1, l.next));
  }

  lemma ProtocolRead(st: Settings, m: Machine, s: Parser)
    requires m.out.Going? && m.s == InLine(s, s.nread, ReqHttpStart) && s.nread + 5 <= MAX_HEADER_SIZE
    ensures Leads(st, m, "HTTP/", InLine(s, s.nread + 5, ReqHttpMajor))
  {
    hide Step, InLine, Leads;
    var n := s.nread;
    LeadsNothing(st, m);
    StartStep(st, s, n);
    LeadsOn(st, m, [], 'H', InLine(s, n, ReqHttpStart), InLine(s, n + 1, ReqHttpH));
    LeadsLiteral(st, m, [] + ['H'], s, n + 1, ReqHttpH);
    LeadsLiteral(st, m, [] + ['H'] + ['T'], s, n + 2, ReqHttpHT);
    LeadsLiteral(st, m, [] + ['H'] + ['T'] + ['T'], s, n + 3, ReqHttpHTT);
    LeadsLiteral(st, m, [] + ['H'] + ['T'] + ['T'] + ['P'], s, n + 4, ReqHttpHTTP);
    assert [] + ['H'] + ['T'] + ['T'] + ['P'] + ['/'] == "HTTP/";
  }

  lemma VersionRead(st: Settings, m: Machine, s: Parser, major: nat, minor: nat)
    requires m.out.Going? && m.s == InLine(s, s.nread, ReqHttpStart) && s.nread + 10 <= MAX_HEADER_SIZE
    requires major < 10 && minor < 10
    ensures Leads(st, m, VersionLine(major, minor), InLine(s.(major := major, minor := minor), s.nread + 10, HeaderFieldStart))
  {
    hide Step, InLine, DigitChar, Leads;
    var n, x, y := s.nread, DigitChar(major), DigitChar(minor);
    var s1 := s.(major := major);
    var s2 := s1.(minor := minor);
    ProtocolRead(st, m, s);
    var a := "HTTP/";
    MajorStep(st, s, n + 5, major);
    LeadsOn(st, m, a, x, InLine(s, n + 5, ReqHttpMajor), InLine(s1, n + 6, ReqHttpDot));
    LeadsLiteral(st, m, a + [x], s1, n + 6, ReqHttpDot);
    MinorStep(st, s1, n + 7, minor);
    LeadsOn(st, m, a + [x] + ['.'], y, InLine(s1, n + 7, ReqHttpMinor), InLine(s2, n + 8, ReqHttpEnd));
    EndStep(st, s2, n + 8);
    LeadsOn(st, m, a + [x] + ['.'] + [y], CR, InLine(s2, n + 8, ReqHttpEnd), InLine(s2, n + 9, ReqLineAlmostDone));
    LeadsLiteral(st, m, a + [x] + ['.'] + [y] + [CR], s2, n + 9, ReqLineAlmostDone);
    assert a + [x] + ['.'] + [y] + [CR] + [LF] == VersionLine(major, minor);
  }

  // ---- the whole request line ----

  function RequestLine(verb: Method, url: string, major: nat, minor: nat): string
    requires major < 10 && minor < 10
  {
    (MethodString(verb) + [' ']) + ((url + [' ']) + VersionLine(major, minor))
  }

  /** A URL that can stand in the request line of this method. */
  predicate UrlOk(verb: Method, url: string) {
    url != [] && Endable(UrlPass(verb, url, |url|).s)
  }

  /** A parser that waits for a request, with `k` bytes counted already. */
  function Waiting(k: nat): Parser {
    Init(ParserType.Request).(nread := k)
  }

  /** The parser behind a request line, with `n` bytes counted. */
  function BehindRequestLine(verb: Method, n: nat, major: nat, minor: nat): Parser {
    Init(ParserType.Request).(verb := verb, index := |MethodString(verb)| + 1, length := NO_LENGTH, nread := n,
                              state := HeaderFieldStart, major := major, minor := minor)
  }

  lemma InitState(k: nat)
    ensures var m := Start(Waiting(k));
            m.s == Waiting(k) && m.s.state.StartReq? && m.s.nread == k && m.log == [] && m.n == 0 && m.out.Going?
    ensures Waiting(0) == Init(ParserType.Request)
  {
  }

  lemma PushSecond(a: Event, b: Event)
    requires !a.Data?
    ensures [] + [a] == [a] && Push([a], b) == [a, b]
  {
  }

  lemma AfterMethodState(s: Parser, n: nat, verb: Method)
    ensures var t := AfterMethod(s, n, verb); t.state.ReqSpacesBeforeUrl? && t.verb == verb && t.nread == n
  {
  }

  lemma AtVersionState(s: Parser, verb: Method, n: nat, k: nat, major: nat, minor: nat)
    requires exists c :: s == Waiting(c)
    ensures var u := InLine(AfterMethod(s, n, verb), k, ReqHttpStart);
            && u == InLine(u, u.nread, ReqHttpStart) && u.nread == k
            && InLine(u.(major := major, minor := minor), k + 10, HeaderFieldStart) == BehindRequestLine(verb, k + 10, major, minor)
  {
    hide MethodString;
  }

  lemma VersionLength(x: nat, y: nat)
    requires x < 10 && y < 10
    ensures |VersionLine(x, y)| == 10
  {
  }

  /** The method and the target. */
  lemma TargetRead(st: Settings, c: nat, verb: Method, url: string)
    requires UrlOk(verb, url) && c + |MethodString(verb)| + |url| + 2 <= MAX_HEADER_SIZE
    ensures var s0, k := Waiting(c), |MethodString(verb)| + 1;
            var n := k + |url| + 1;
            Run(st, Start(s0), (MethodString(verb) + [' ']) + (url + [' ']))
            == Machine(InLine(AfterMethod(s0, c + k, verb), c + n, ReqHttpStart), [MessageBegin, Data(Url, url, true)], n, Going)
  {
    hide *;
    var s0 := Waiting(c);
    var a, b := MethodString(verb) + [' '], url + [' '];
    UrlOkHas(verb, url);
    InitState(c);
    MethodRead(st, Start(s0), s0, verb);
    var m1 := Run(st, Start(s0), a);
    AfterMethodState(s0, c + |a|, verb);
    UrlRead(st, m1, m1.s, url);
    RunConcat(st, Start(s0), a, b);
    PushSecond(MessageBegin, Data(Url, url, true));
  }

  lemma UrlOkHas(verb: Method, url: string)
    requires UrlOk(verb, url)
    ensures url != [] && Endable(UrlPass(verb, url, |url|).s)
  {
    hide Endable, UrlPass;
  }

  /** A request line is read as what it says, and its URL reported whole. */
  lemma RequestLineRead(st: Settings, c: nat, verb: Method, url: string, major: nat, minor: nat)
    requires UrlOk(verb, url) && major < 10 && minor < 10 && c + |RequestLine(verb, url, major, minor)| <= MAX_HEADER_SIZE
    ensures var line := RequestLine(verb, url, major, minor);
            Run(st, Start(Waiting(c)), line)
            == Machine(BehindRequestLine(verb, c + |line|, major, minor), [MessageBegin, Data(Url, url, true)], |line|, Going)
  {
    hide *;
    var s0 := Waiting(c);
    var a, b, v := MethodString(verb) + [' '], url + [' '], VersionLine(major, minor);
    RequestLineIs(verb, url, major, minor);
    VersionLength(major, minor);
    TargetRead(st, c, verb, url);
    var m2 := Run(st, Start(s0), a + b);
    AtVersionState(s0, verb, c + |a|, c + |a| + |b|, major, minor);
    VersionRead(st, m2, m2.s, major, minor);
    LeadsHas(st, m2, v, InLine(m2.s.(major := major, minor := minor), m2.s.nread + 10, HeaderFieldStart));
    RunConcat(st, Start(s0), a + b, v);
    assert a + b + v == a + (b + v);
  }

  lemma UrlEndsOld(st: Settings, s: Parser, n: nat, state: State)
    requires Endable(state) && n < MAX_HEADER_SIZE
    ensures OpenKind(InLine(s, n, state).state) == Some(Url)
    ensures Step(st, InLine(s, n, state), CR) == Closing(InLine(s.(major := 0, minor := 9), n + 1, state), Url, ReqLineAlmostDone)
  {
  }

  /** A request line without a version is one of HTTP 0.9. */
  lemma OldLineRead(st: Settings, c: nat, verb: Method, url: string)
    requires UrlOk(verb, url) && c + |MethodString(verb)| + |url| + 3 <= MAX_HEADER_SIZE
    ensures var line := (MethodString(verb) + [' ']) + (url + [CR, LF]);
            Run(st, Start(Waiting(c)), line)
            == Machine(BehindRequestLine(verb, c + |line|, 0, 9), [MessageBegin, Data(Url, url, true)], |line|, Going)
  {
    hide *;
    var s0, a := Waiting(c), MethodString(verb) + [' '];
    UrlOkHas(verb, url);
    InitState(c);
    MethodRead(st, Start(s0), s0, verb);
    var m1 := Run(st, Start(s0), a);
    var s := m1.s;
    AfterMethodState(s0, c + |a|, verb);
    var state, n: nat := UrlPass(verb, url, |url|).s, s.nread + |url|;
    EndableAlive(state);
    UrlRun(st, m1, s, url, |url|);
    assert url[..|url|] == url;
    UrlEndsOld(st, s, n, state);
    var t := s.(major := 0, minor := 9);
    RunClose(st, m1, url, CR, InLine(t, n + 1, state), Url, ReqLineAlmostDone, m1.log, url);
    InLineTo(t, n + 1, state);
    LiteralLineFeed(st, t, n + 1);
    RunSilent(st, m1, url + [CR], LF, InLine(t, n + 2, HeaderFieldStart));
    assert url + [CR] + [LF] == url + [CR, LF];
    RunConcat(st, Start(s0), a, url + [CR, LF]);
    PushSecond(MessageBegin, Data(Url, url, true));
    OldLineState(s0, c, verb, c + |a|, n + 2);
  }

  lemma InLineTo(s: Parser, n: nat, state: State)
    ensures InLine(s, n, state).(state := ReqLineAlmostDone) == InLine(s, n, ReqLineAlmostDone)
  {
  }

  lemma LiteralLineFeed(st: Settings, s: Parser, n: nat)
    requires n < MAX_HEADER_SIZE
    ensures Step(st, InLine(s, n, ReqLineAlmostDone), LF) == Go(InLine(s, n + 1, HeaderFieldStart), SILENT)
    ensures OpenKind(InLine(s, n, ReqLineAlmostDone).state) == None
  {
    hide Dispatch;
    LiteralStep(st, s, n, ReqLineAlmostDone);
  }

  lemma OldLineState(s: Parser, c: nat, verb: Method, n: nat, k: nat)
    requires s == Waiting(c)
    ensures InLine(AfterMethod(s, n, verb).(major := 0, minor := 9), k, HeaderFieldStart) == BehindRequestLine(verb, k, 0, 9)
  {
    hide MethodString;
  }

  lemma RequestLineIs(verb: Method, url: string, major: nat, minor: nat)
    requires major < 10 && minor < 10
    ensures RequestLine(verb, url, major, minor)
         == (MethodString(verb) + [' ']) + ((url + [' ']) + VersionLine(major, minor))
  {
    hide MethodString, VersionLine;
  }

  lemma LeadsHas(st: Settings, m: Machine, a: string, s: Parser)
    requires Leads(st, m, a, s)
    ensures Run(st, m, a) == Machine(s, m.log, m.n + |a|, Going)
  {
    hide Run;
  }
}
