/** Whole requests and responses, from their first byte to their last: which callbacks they make, and where they leave
    the parser. */
module HttpMessages {
  import opened Wrappers
  import opened CaseMap
  import opened HttpChars
  import opened HttpTypes
  import opened HttpStep
  import opened HttpRun
  import opened HttpInvariant
  import opened HttpExecute
  import opened HttpLength
  import opened HttpNames
  import opened HttpRequestLine
  import opened HttpStatusLine
  import opened HttpHeaderLines
  import opened HttpConnection
  import HttpChunked
  import opened HttpFraming
  import opened HttpPipeline

  function RequestText(verb: Method, url: string, major: nat, minor: nat, hs: seq<Entry>, b: Framing): string
    requires major < 10 && minor < 10
  {
    RequestLine(verb, url, major, minor) + MessageText(hs, b)
  }

  /** The callbacks of a request. */
  function RequestEvents(verb: Method, url: string, major: nat, minor: nat, hs: seq<Entry>, b: Framing): seq<Event> {
    [MessageBegin, Data(Url, url, true)] + LinesEvents(hs)
    + ([HeadersComplete(verb, major, minor, 0, SwitchesOver(ParserType.Request, 0, hs))] + BodyEvents(b))
  }

  /** A request within the limit on header sections, of which `c` bytes are counted already. */
  predicate RequestOk(c: nat, verb: Method, url: string, major: nat, minor: nat, hs: seq<Entry>, b: Framing) {
    && major < 10 && minor < 10 && verb != CONNECT && UrlOk(verb, url) && Announced(ParserType.Request, 0, hs, b)
    && c + |RequestLine(verb, url, major, minor)| + |Lines(hs)| + 2 <= MAX_HEADER_SIZE
  }

  /** A request without a body, with a body of known length or with a body in chunks: a waiting parser makes exactly its
      callbacks, with the completion at its last byte. Then it is out of HTTP if the headers ask for another protocol;
      otherwise between messages if the connection stays open, and dead if not. */
  lemma RequestFramed(st: Settings, c: nat, verb: Method, url: string, major: nat, minor: nat, hs: seq<Entry>, b: Framing)
    requires RequestOk(c, verb, url, major, minor, hs, b) && st.headersAnswer == 0
    ensures var text := RequestText(verb, url, major, minor, hs, b);
            var r := Run(st, Start(Waiting(c)), text);
            && r.log == RequestEvents(verb, url, major, minor, hs, b) && r.n == |text|
            && r.out == (if SwitchesOver(ParserType.Request, 0, hs) then Left(r.n) else Going)
            && r.s.upgrade == SwitchesOver(ParserType.Request, 0, hs)
            && r.s.state == (if StaysOpen(major, minor, AllLines(hs, b)) then StartReq else Dead)
            && r.s.typ == ParserType.Request && !r.s.lenient && r.s.nread == Carried(b)
            && CompletesAt(st, Start(Waiting(c)), text)
  {
    hide *;
    RequestOkHas(c, verb, url, major, minor, hs, b);
    var m0, line := Start(Waiting(c)), RequestLine(verb, url, major, minor);
    RequestLineRead(st, c, verb, url, major, minor);
    var m1 := Run(st, m0, line);
    BehindRequest(verb, c + |line|, major, minor);
    OpeningCloses(Data(Url, url, true));
    MessageFramed(st, m1, m1.s, hs, b);
    RunConcat(st, m0, line, MessageText(hs, b));
    RequestSplits(verb, url, major, minor, hs, b);
    RequestNext(major, minor, hs, b);
    CompletesLater(st, m0, line, MessageText(hs, b));
  }

  lemma RequestOkHas(c: nat, verb: Method, url: string, major: nat, minor: nat, hs: seq<Entry>, b: Framing)
    requires RequestOk(c, verb, url, major, minor, hs, b)
    ensures major < 10 && minor < 10 && verb != CONNECT && UrlOk(verb, url) && Announced(ParserType.Request, 0, hs, b)
    ensures c + |RequestLine(verb, url, major, minor)| + |Lines(hs)| + 2 <= MAX_HEADER_SIZE
    ensures !b.ToTheEnd?
  {
    hide UrlOk, RequestLine, Lines, LineOk, AnnouncesChunks;
  }

  lemma BehindRequest(verb: Method, n: nat, major: nat, minor: nat)
    ensures var s := BehindRequestLine(verb, n, major, minor);
            && AtFirstLine(s) && s.nread == n && s.typ == ParserType.Request && s.status == 0
            && s.verb == verb && s.major == major && s.minor == minor && !s.lenient
  {
    hide MethodString;
  }

  lemma OpeningCloses(e: Event)
    requires e.Data? ==> e.final
    ensures ClosedLog([MessageBegin, e])
  {
  }

  lemma RequestSplits(verb: Method, url: string, major: nat, minor: nat, hs: seq<Entry>, b: Framing)
    requires major < 10 && minor < 10
    ensures RequestText(verb, url, major, minor, hs, b) == RequestLine(verb, url, major, minor) + MessageText(hs, b)
    ensures forall s: Parser :: s.verb == verb && s.major == major && s.minor == minor && s.status == 0 && s.typ == ParserType.Request ==>
              [MessageBegin, Data(Url, url, true)] + MessageEvents(s, hs, b) == RequestEvents(verb, url, major, minor, hs, b)
  {
    hide RequestLine, MessageText, LinesEvents, BodyEvents, SwitchesOver;
  }

  lemma RequestNext(major: nat, minor: nat, hs: seq<Entry>, b: Framing)
    requires !b.ToTheEnd?
    ensures BehindMessage(ParserType.Request, major, minor, hs, b) == if StaysOpen(major, minor, AllLines(hs, b)) then StartReq else Dead
  {
    hide StaysOpen;
  }

  /** A CONNECT request is read to its empty line, where the parser leaves HTTP. */
  lemma ConnectLeaves(st: Settings, c: nat, url: string, major: nat, minor: nat, hs: seq<Entry>)
    requires major < 10 && minor < 10 && UrlOk(CONNECT, url) && Announced(ParserType.Request, 0, hs, NoBody)
    requires c + |RequestLine(CONNECT, url, major, minor)| + |Lines(hs)| + 2 <= MAX_HEADER_SIZE && st.headersAnswer == 0
    ensures var text := RequestLine(CONNECT, url, major, minor) + (Lines(hs) + [CR, LF]);
            var r := Run(st, Start(Waiting(c)), text);
            && r.n == |text| && r.out == Left(r.n) && r.s.upgrade
            && r.log == [MessageBegin, Data(Url, url, true)]
                        + (LinesEvents(hs) + [HeadersComplete(CONNECT, major, minor, 0, true), MessageComplete])
  {
    hide *;
    var m0, line := Start(Waiting(c)), RequestLine(CONNECT, url, major, minor);
    RequestLineRead(st, c, CONNECT, url, major, minor);
    var m1 := Run(st, m0, line);
    BehindRequest(CONNECT, c + |line|, major, minor);
    ConnectedIs(m1.s);
    OpeningCloses(Data(Url, url, true));
    ConnectFramed(st, m1, m1.s, hs);
    RunConcat(st, m0, line, Lines(hs) + [CR, LF]);
  }

  lemma ConnectedIs(s: Parser)
    ensures Connected(s) == HeadersComplete(CONNECT, s.major, s.minor, s.status, true)
  {
  }

  // ---- requests one behind the other ----

  /** One request of several on a connection. */
  datatype Link = Link(verb: Method, url: string, major: nat, minor: nat, hs: seq<Entry>, b: Framing)

  predicate Ok(c: nat, q: Link) {
    RequestOk(c, q.verb, q.url, q.major, q.minor, q.hs, q.b)
  }

  function Text(q: Link): string
    requires q.major < 10 && q.minor < 10
  {
    RequestText(q.verb, q.url, q.major, q.minor, q.hs, q.b)
  }

  function EventsOfRequest(q: Link): seq<Event> {
    RequestEvents(q.verb, q.url, q.major, q.minor, q.hs, q.b)
  }

  /** Requests on one connection: all but the last keep it open and stay with HTTP. */
  predicate Chain(c: nat, qs: seq<Link>)
    decreases |qs|
  {
    qs != [] ==>
      && Ok(c, qs[0])
      && (|qs| > 1 ==> StaysOpen(qs[0].major, qs[0].minor, AllLines(qs[0].hs, qs[0].b)) && !SwitchesOver(ParserType.Request, 0, qs[0].hs))
      && Chain(Carried(qs[0].b), qs[1..])
  }

  function Texts(c: nat, qs: seq<Link>): string
    requires Chain(c, qs)
    decreases |qs|
  {
    if qs == [] then [] else Text(qs[0]) + Texts(Carried(qs[0].b), qs[1..])
  }

  function AllEvents(qs: seq<Link>): seq<Event> {
    if qs == [] then [] else EventsOfRequest(qs[0]) + AllEvents(qs[1..])
  }

  /** Any number of pipelined requests make the callbacks of each in turn, and leave the parser where the last one
      does. */
  lemma {:induction false} Pipelined(st: Settings, c: nat, qs: seq<Link>)
    requires Chain(c, qs) && st.headersAnswer == 0 && c <= MAX_HEADER_SIZE
    ensures var r := Run(st, Start(Waiting(c)), Texts(c, qs));
            && r.log == AllEvents(qs) && r.n == |Texts(c, qs)|
            && (qs != [] ==>
                  var q := qs[|qs| - 1];
                  && r.out == (if SwitchesOver(ParserType.Request, 0, q.hs) then Left(r.n) else Going)
                  && r.s.state == (if StaysOpen(q.major, q.minor, AllLines(q.hs, q.b)) then StartReq else Dead))
    decreases |qs|
  {
    hide *;
    TextsAre(c, qs);
    if qs == [] {
      InitState(c);
      RunNil(st, Start(Waiting(c)));
    } else {
      var q, rest, m0 := qs[0], qs[1..], Start(Waiting(c));
      OkHas(c, q);
      RequestFramed(st, c, q.verb, q.url, q.major, q.minor, q.hs, q.b);
      var a := Run(st, m0, Text(q));
      if rest == [] {
        assert Text(q) + [] == Text(q) && EventsOfRequest(q) + [] == EventsOfRequest(q);
      } else {
        var k := Carried(q.b);
        CarriedSmall(c, q);
        EndsComplete(c, q);
        Pipelined(st, k, rest);
        NextWaits(st, c, Text(q), a, k, Texts(k, rest));
        assert qs[|qs| - 1] == rest[|rest| - 1];
      }
    }
  }

  lemma TextsAre(c: nat, qs: seq<Link>)
    requires Chain(c, qs)
    ensures qs == [] ==> Texts(c, qs) == [] && AllEvents(qs) == []
    ensures qs != [] ==>
              && Ok(c, qs[0]) && Chain(Carried(qs[0].b), qs[1..])
              && (|qs| > 1 ==> StaysOpen(qs[0].major, qs[0].minor, AllLines(qs[0].hs, qs[0].b)) && !SwitchesOver(ParserType.Request, 0, qs[0].hs))
              && qs[0].major < 10 && qs[0].minor < 10
              && Texts(c, qs) == Text(qs[0]) + Texts(Carried(qs[0].b), qs[1..])
              && AllEvents(qs) == EventsOfRequest(qs[0]) + AllEvents(qs[1..])
    ensures |qs| == 1 ==> Texts(Carried(qs[0].b), qs[1..]) == [] && AllEvents(qs[1..]) == []
  {
    hide Text, EventsOfRequest, StaysOpen, SwitchesOver, Carried, UrlOk, Announced, RequestLine, Lines;
  }

  lemma OkHas(c: nat, q: Link)
    requires Ok(c, q)
    ensures RequestOk(c, q.verb, q.url, q.major, q.minor, q.hs, q.b) && q.major < 10 && q.minor < 10
    ensures Text(q) == RequestText(q.verb, q.url, q.major, q.minor, q.hs, q.b)
    ensures EventsOfRequest(q) == RequestEvents(q.verb, q.url, q.major, q.minor, q.hs, q.b)
  {
    hide UrlOk, Announced, RequestLine, Lines, RequestText, RequestEvents;
  }

  lemma EndsComplete(c: nat, q: Link)
    requires Ok(c, q)
    ensures var es := EventsOfRequest(q); es != [] && es[|es| - 1] == MessageComplete
  {
    hide UrlOk, RequestLine, Lines, LinesEvents, SwitchesOver, LineOk, AnnouncesChunks;
    if q.b.InChunks? {
      DeliveredEnds(q.b.chunks, q.b.z.trailer);
    }
    var es := BodyEvents(q.b);
    assert es != [] && es[|es| - 1] == MessageComplete;
  }

  lemma {:induction false} DeliveredEnds(chunks: seq<HttpChunked.Chunk>, trailer: seq<Entry>)
    ensures var es := HttpChunked.Delivered(chunks, trailer); es != [] && es[|es| - 1] == MessageComplete
    decreases |chunks|
  {
    if chunks == [] {
    } else {
      DeliveredEnds(chunks[1..], trailer);
    }
  }

  lemma CarriedSmall(c: nat, q: Link)
    requires Ok(c, q)
    ensures Carried(q.b) <= MAX_HEADER_SIZE
  {
    hide UrlOk, RequestLine, Lines, LineOk, AnnouncesChunks, HttpChunked.ChunkOk, HttpChunked.SizeLineOk, OtherLinesOk;
  }

  /** Behind a request that keeps the connection open the parser reads on like one that waits for its first request. */
  lemma NextWaits(st: Settings, c: nat, first: string, a: Machine, k: nat, rest: string)
    requires c <= MAX_HEADER_SIZE && a == Run(st, Start(Waiting(c)), first) && a.out.Going? && a.n == |first|
    requires a.s.state.StartReq? && a.s.typ == ParserType.Request && !a.s.lenient && a.s.nread == k
    requires a.log != [] && a.log[|a.log| - 1] == MessageComplete
    ensures var m, b := Run(st, Start(Waiting(c)), first + rest), Run(st, Start(Waiting(k)), rest);
            && m.log == a.log + b.log && m.n == a.n + b.n && m.s.state == b.s.state
            && m.out == (match b.out case Going => Going case Left(at) => Left(a.n + at) case Failed(e, at) => Failed(e, a.n + at))
  {
    hide *;
    var m0 := Start(Waiting(c));
    WaitingInv(c);
    Reachable(st, Waiting(c), first);
    StartIs(Waiting(c));
    StartIs(a.s);
    StillWaiting(a.s);
    BetweenIsFresh(a.s);
    RunAlike(st, a.s, Fresh(a.s), rest);
    RunConcat(st, m0, first, rest);
    assert a == Machine(a.s, a.log, a.n, Going);
    RunShift(st, a.s, a.log, a.n, rest);
    var d := Run(st, Start(a.s), rest);
    AlikeState(d.s, Run(st, Start(Fresh(a.s)), rest).s);
    PushAllBehind(a.log, d.log);
    CanonOfLog(st, a.s, rest);
    CanonIs(d.log);
    NoData();
  }

  lemma WaitingInv(c: nat)
    requires c <= MAX_HEADER_SIZE
    ensures Inv(Waiting(c))
  {
  }

  lemma StillWaiting(s: Parser)
    requires s.state.StartReq? && s.typ == ParserType.Request && !s.lenient
    ensures Fresh(s) == Waiting(s.nread) && BetweenMessages(s)
  {
  }

  lemma AlikeState(a: Parser, b: Parser)
    requires Alike(a, b)
    ensures a.state == b.state
  {
    hide Level, UsesHState, UsesIndex;
  }

  lemma CanonIs(es: seq<Event>)
    ensures Canon(es) == PushAll([], es)
  {
  }

  lemma NoData()
    ensures !MessageComplete.Data?
  {
  }

  // ---- responses ----

  function ResponseText(major: nat, minor: nat, code: string, reason: string, hs: seq<Entry>, b: Framing): string
    requires major < 10 && minor < 10
  {
    StatusLine(major, minor, code, reason) + MessageText(hs, b)
  }

  function ResponseEvents(major: nat, minor: nat, status: nat, reason: string, hs: seq<Entry>, b: Framing): seq<Event> {
    [MessageBegin, Data(Status, reason, true)] + LinesEvents(hs)
    + ([HeadersComplete(DELETE, major, minor, status, SwitchesOver(ParserType.Response, status, hs))] + BodyEvents(b))
  }

  predicate ResponseOk(major: nat, minor: nat, code: string, reason: string, hs: seq<Entry>, b: Framing) {
    && major < 10 && minor < 10 && code != [] && AllNum(code) && DecValue(code) <= 999 && IsReason(reason)
    && Announced(ParserType.Response, DecValue(code), hs, b)
    && |StatusLine(major, minor, code, reason)| + |Lines(hs)| + 2 <= MAX_HEADER_SIZE
  }

  /** A response: with status 1xx, 204 or 304 and no length it ends at the empty line; with a length or in chunks where
      these say; otherwise its body goes on to the end of the connection. */
  lemma ResponseFramed(st: Settings, major: nat, minor: nat, code: string, reason: string, hs: seq<Entry>, b: Framing)
    requires ResponseOk(major, minor, code, reason, hs, b) && st.headersAnswer == 0
    ensures AllNum(code)
    ensures var text, status := ResponseText(major, minor, code, reason, hs, b), DecValue(code);
            var r := Run(st, Start(Init(ParserType.Response)), text);
            && r.log == ResponseEvents(major, minor, status, reason, hs, b) && r.n == |text|
            && r.out == (if SwitchesOver(ParserType.Response, status, hs) then Left(r.n) else Going)
            && r.s.state == (if b.ToTheEnd? then BodyIdentityEof else if StaysOpen(major, minor, AllLines(hs, b)) then StartRes else Dead)
            && (!b.ToTheEnd? ==> CompletesAt(st, Start(Init(ParserType.Response)), text))
  {
    hide *;
    ResponseOkHas(major, minor, code, reason, hs, b);
    var m0, line := Start(Init(ParserType.Response)), StatusLine(major, minor, code, reason);
    StatusLineRead(st, major, minor, code, reason);
    var m1 := Run(st, m0, line);
    BehindStatus(|line|, major, minor, DecValue(code));
    OpeningCloses(Data(Status, reason, true));
    MessageFramed(st, m1, m1.s, hs, b);
    RunConcat(st, m0, line, MessageText(hs, b));
    ResponseSplits(major, minor, code, reason, hs, b);
    ResponseNext(major, minor, hs, b);
    if !b.ToTheEnd? {
      CompletesLater(st, m0, line, MessageText(hs, b));
    }
  }

  lemma ResponseOkHas(major: nat, minor: nat, code: string, reason: string, hs: seq<Entry>, b: Framing)
    requires ResponseOk(major, minor, code, reason, hs, b)
    ensures major < 10 && minor < 10 && code != [] && AllNum(code) && DecValue(code) <= 999 && IsReason(reason)
    ensures Announced(ParserType.Response, DecValue(code), hs, b)
    ensures |StatusLine(major, minor, code, reason)| + |Lines(hs)| + 2 <= MAX_HEADER_SIZE
  {
    hide StatusLine, Lines, Announced, AllNum, DecValue, IsReason;
  }

  lemma BehindStatus(n: nat, major: nat, minor: nat, status: nat)
    ensures var s := BehindStatusLine(n, major, minor, status);
            && AtFirstLine(s) && s.nread == n && s.typ == ParserType.Response && s.status == status
            && s.verb == DELETE && s.major == major && s.minor == minor
  {
  }

  lemma ResponseSplits(major: nat, minor: nat, code: string, reason: string, hs: seq<Entry>, b: Framing)
    requires major < 10 && minor < 10 && AllNum(code)
    ensures ResponseText(major, minor, code, reason, hs, b) == StatusLine(major, minor, code, reason) + MessageText(hs, b)
    ensures forall s: Parser :: s.verb == DELETE && s.major == major && s.minor == minor && s.status == DecValue(code)
                                && s.typ == ParserType.Response ==>
              [MessageBegin, Data(Status, reason, true)] + MessageEvents(s, hs, b)
              == ResponseEvents(major, minor, DecValue(code), reason, hs, b)
  {
    hide StatusLine, MessageText, LinesEvents, BodyEvents, SwitchesOver, DecValue;
  }

  lemma ResponseNext(major: nat, minor: nat, hs: seq<Entry>, b: Framing)
    ensures BehindMessage(ParserType.Response, major, minor, hs, b)
         == if b.ToTheEnd? then BodyIdentityEof else if StaysOpen(major, minor, AllLines(hs, b)) then StartRes else Dead
  {
    hide StaysOpen;
  }

  /** The end of the connection ends such a body, and only such a one, with a completion. */
  lemma RestEnds(s: Parser, errno: Errno, n: nat, fired: seq<Event>)
    requires AtEof(s, errno, n, fired)
    ensures s.state.BodyIdentityEof? <==> fired == [MessageComplete]
    ensures errno == OK <==> s.state.BodyIdentityEof? || s.state.Dead? || s.state.StartReqOrRes? || s.state.StartRes? || s.state.StartReq?
  {
  }

  // ---- parsers of either kind ----

  function WaitingAs(t: ParserType, k: nat): Parser {
    Init(t).(nread := k)
  }

  /** A parser of either kind decides by the first bytes, and is then the parser of that kind. */
  lemma EitherKind(st: Settings, k: nat, data: string)
    requires k + 2 <= MAX_HEADER_SIZE && data != []
    ensures var both := Run(st, Start(WaitingAs(Both, k)), data);
            var asRequest, asResponse := Run(st, Start(WaitingAs(ParserType.Request, k)), data),
                                         Run(st, Start(WaitingAs(ParserType.Response, k)), data);
            && (data[0] == CR || data[0] == LF ==>
                  both == Run(st, Machine(WaitingAs(Both, k + 1), [], 1, Going), data[1..]))
            && (data[0] == 'H' && |data| >= 2 ==>
                  if data[1] == 'T' then both == asResponse
                  else if data[1] == 'E' then both == asRequest
                  else both.out == Failed(InvalidConstant, 1))
            && (data[0] != CR && data[0] != LF && data[0] != 'H' ==>
                  if FirstMethod(data[0]).Some? then both == asRequest else both.out == Failed(InvalidMethod, 0))
  {
    hide Run, Next;
    var ch := data[0];
    forall t: ParserType ensures Run(st, Start(WaitingAs(t, k)), data) == Run(st, Next(st, Start(WaitingAs(t, k)), ch), data[1..]) {
      RunFirst(st, Start(WaitingAs(t, k)), data);
    }
    if ch != 'H' {
      FirstEither(st, k, ch);
      RunFailed(st, Next(st, Start(WaitingAs(Both, k)), ch), data[1..]);
    } else if |data| >= 2 {
      forall t: ParserType
        ensures Run(st, Next(st, Start(WaitingAs(t, k)), ch), data[1..])
             == Run(st, Next(st, Next(st, Start(WaitingAs(t, k)), ch), data[1]), data[2..])
      {
        RunFirst(st, Next(st, Start(WaitingAs(t, k)), ch), data[1..]);
        assert data[1..][1..] == data[2..];
      }
      SecondEither(st, k, data[1]);
      RunFailed(st, Next(st, Next(st, Start(WaitingAs(Both, k)), 'H'), data[1]), data[2..]);
    }
  }

  lemma RunFirst(st: Settings, m: Machine, data: string)
    requires data != []
    ensures Run(st, m, data) == Run(st, Next(st, m, data[0]), data[1..])
  {
  }

  lemma {:induction false} RunFailed(st: Settings, m: Machine, data: string)
    ensures m.out.Failed? ==> Run(st, m, data).out == m.out
    decreases |data|
  {
    hide Step;
    if data != [] {
      RunFailed(st, Next(st, m, data[0]), data[1..]);
    }
  }

  lemma FirstEither(st: Settings, k: nat, ch: char)
    requires k < MAX_HEADER_SIZE && ch != 'H'
    ensures var both := Next(st, Start(WaitingAs(Both, k)), ch);
            && (ch == CR || ch == LF ==> both == Machine(WaitingAs(Both, k + 1), [], 1, Going))
            && (ch != CR && ch != LF ==>
                  if FirstMethod(ch).Some? then both == Next(st, Start(WaitingAs(ParserType.Request, k)), ch)
                  else both.out == Failed(InvalidMethod, 0))
  {
    hide Step, FirstMethod, Next, EventsOf;
    FirstOfBoth(st, k, ch);
    SameNext(st, WaitingAs(Both, k), WaitingAs(ParserType.Request, k), [], 0, ch);
    if ch == CR || ch == LF {
      NextIs(st, Start(WaitingAs(Both, k)), ch);
      NothingNoted(ch);
    }
  }

  lemma NothingNoted(ch: char)
    ensures PushAll([], EventsOf(None, SILENT, ch)) == []
  {
  }

  /** The same step leads to the same machine. */
  lemma SameNext(st: Settings, s: Parser, t: Parser, log: seq<Event>, n: nat, ch: char)
    requires OpenKind(s.state) == OpenKind(t.state)
    ensures Step(st, s, ch) == Step(st, t, ch) && !Step(st, s, ch).Fail? ==>
              Next(st, Machine(s, log, n, Going), ch) == Next(st, Machine(t, log, n, Going), ch)
    ensures Step(st, s, ch).Fail? ==> Next(st, Machine(s, log, n, Going), ch).out == Failed(Step(st, s, ch).errno, n)
  {
    hide Step;
  }

  lemma SecondEither(st: Settings, k: nat, ch: char)
    requires k + 1 < MAX_HEADER_SIZE
    ensures var both := Next(st, Next(st, Start(WaitingAs(Both, k)), 'H'), ch);
            if ch == 'T' then both == Next(st, Next(st, Start(WaitingAs(ParserType.Response, k)), 'H'), ch)
            else if ch == 'E' then both == Next(st, Next(st, Start(WaitingAs(ParserType.Request, k)), 'H'), ch)
            else both.out == Failed(InvalidConstant, 1)
  {
    hide Step, Next, AtH, WaitingAs;
    NextH(st, Both, k);
    NextH(st, ParserType.Response, k);
    NextH(st, ParserType.Request, k);
    SecondOfBoth(st, k, ch);
    SecondGoes(st, k);
    SameNext(st, AtH(Both, k), AtH(ParserType.Response, k), [MessageBegin], 1, ch);
    SameNext(st, AtH(Both, k), AtH(ParserType.Request, k), [MessageBegin], 1, ch);
  }

  lemma SecondGoes(st: Settings, k: nat)
    requires k + 1 < MAX_HEADER_SIZE
    ensures !Step(st, AtH(Both, k), 'T').Fail? && !Step(st, AtH(Both, k), 'E').Fail?
  {
  }

  /** Behind an 'H'. */
  function AtH(t: ParserType, k: nat): Parser {
    var s := WaitingAs(t, k + 1).(length := NO_LENGTH);
    match t
    case Both => s.(state := ResOrRespH)
    case Request => s.(state := ReqMethod, verb := HEAD, index := 1)
    case Response => s.(state := ResH)
  }

  lemma StepH(st: Settings, t: ParserType, k: nat)
    requires k < MAX_HEADER_SIZE
    ensures Step(st, WaitingAs(t, k), 'H') == Noting(AtH(t, k), MessageBegin)
  {
    if t.Both? {
    } else if t.Request? {
    } else {
    }
  }

  lemma NextH(st: Settings, t: ParserType, k: nat)
    requires k < MAX_HEADER_SIZE
    ensures Next(st, Start(WaitingAs(t, k)), 'H') == Machine(AtH(t, k), [MessageBegin], 1, Going)
  {
    hide Step, AtH;
    StepH(st, t, k);
    NextIs(st, Start(WaitingAs(t, k)), 'H');
    BeginNoted(OpenKind(WaitingAs(t, k).state));
  }

  lemma BeginNoted(open: Option<Kind>)
    requires open == None
    ensures PushAll([], EventsOf(open, Calls(None, [MessageBegin], None), 'H')) == [MessageBegin]
  {
  }

  lemma SecondOfBoth(st: Settings, k: nat, ch: char)
    requires k + 1 < MAX_HEADER_SIZE
    ensures Step(st, AtH(Both, k), ch)
         == if ch == 'T' then Step(st, AtH(ParserType.Response, k), 'T')
            else if ch == 'E' then Step(st, AtH(ParserType.Request, k), 'E') else Fail(InvalidConstant)
    ensures OpenKind(AtH(Both, k).state) == OpenKind(AtH(ParserType.Response, k).state)
         == OpenKind(AtH(ParserType.Request, k).state) == None
  {
    hide *;
    OpenAtH(k);
    if ch == 'T' {
      SecondT(st, k);
    } else if ch == 'E' {
      SecondE(st, k);
    } else {
      SecondElse(st, k, ch);
    }
  }

  lemma OpenAtH(k: nat)
    ensures OpenKind(AtH(Both, k).state) == OpenKind(AtH(ParserType.Response, k).state)
         == OpenKind(AtH(ParserType.Request, k).state) == None
  {
  }

  lemma SecondT(st: Settings, k: nat)
    requires k + 1 < MAX_HEADER_SIZE
    ensures Step(st, AtH(Both, k), 'T') == Step(st, AtH(ParserType.Response, k), 'T')
  {
  }

  lemma SecondE(st: Settings, k: nat)
    requires k + 1 < MAX_HEADER_SIZE
    ensures Step(st, AtH(Both, k), 'E') == Step(st, AtH(ParserType.Request, k), 'E')
  {
  }

  lemma SecondElse(st: Settings, k: nat, ch: char)
    requires k + 1 < MAX_HEADER_SIZE && ch != 'T' && ch != 'E'
    ensures Step(st, AtH(Both, k), ch) == Fail(InvalidConstant)
  {
  }

  lemma FirstOfBoth(st: Settings, k: nat, ch: char)
    requires k < MAX_HEADER_SIZE && ch != 'H'
    ensures Step(st, WaitingAs(Both, k), ch)
         == if ch == CR || ch == LF then Go(WaitingAs(Both, k + 1), SILENT)
            else if FirstMethod(ch).Some? then Step(st, WaitingAs(ParserType.Request, k), ch) else Fail(InvalidMethod)
    ensures FirstMethod(ch).Some? ==> !Step(st, WaitingAs(Both, k), ch).Fail?
    ensures OpenKind(WaitingAs(Both, k).state) == OpenKind(WaitingAs(ParserType.Request, k).state) == None
  {
  }
}
