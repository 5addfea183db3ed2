/** Print, then parse: the parser rebuilds the request that HttpRequest::dump has printed. */
module HttpRoundTrip {
  import opened Wrappers
  import opened CaseMap
  import opened HttpChars
  import opened HttpTypes
  import opened HttpStep
  import opened HttpRun
  import opened HttpInvariant
  import opened HttpExecute
  import opened HttpLength
  import opened HttpNames
  import opened HttpRequestLine
  import opened HttpHeaderLines
  import opened HttpConnection
  import opened HttpFraming
  import opened HttpMessages
  import opened HttpRequests
  import opened HttpTarget
  import HttpUrl

  /** What the printer asks of a request, within the parser's limits on the header section and the URL. */
  predicate WellFormed(r: Content) {
    && r.verb != CONNECT && r.version / 16 < 10 && r.version % 16 < 10
    && PathOk(r.path) && QueryOk(r.query) && FragmentOk(r.fragment) && |Target(r)| <= 0xFFFF
    && Sorted(r.headers)
    && (forall i :: 0 <= i < |r.headers| ==> HeaderOk(r, r.headers[i]))
    && |Head(r)| <= MAX_HEADER_SIZE && |r.body| <= MAX_BUFFER
  }

  predicate HeaderOk(r: Content, e: Entry) {
    && IsName(e.key) && IsPlainValue(e.value) && !Same(e.key, "transfer-encoding")
    && (r.body == [] ==> !Same(e.key, "content-length"))
  }

  // ---- decimal numbers ----

  lemma {:induction false} DecimalValue(n: nat)
    ensures AllNum(Decimal(n)) && Decimal(n) != [] && DecValue(Decimal(n)) == n
  {
    if n < 10 {
      assert Decimal(n)[..0] == [];
    } else {
      DecimalValue(n / 10);
      var d := Decimal(n);
      assert d[..|d| - 1] == Decimal(n / 10);
    }
  }

  // ---- names: strcasecmp and the parser agree on them ----

  lemma {:induction false} FoldTokens(name: string)
    requires forall i :: 0 <= i < |name| ==> IsToken(name[i])
    ensures Fold(name) == Tokens(name)
  {
    if name != [] {
      FoldTokens(name[1..]);
      assert name[0] != '\0' && Token(name[0]) == ToLower(name[0]);
      assert Tokens(name) == [Token(name[0])] + Tokens(name[1..]);
    } else {
      assert Tokens(name) == [];
    }
  }

  lemma SameWord(name: string, w: string)
    requires IsName(name) && TokenWord(w)
    ensures Same(name, w) <==> Tokens(name) == w
  {
    hide Token;
    WordTokens(w);
    FoldTokens(name);
    FoldTokens(w);
  }

  // ---- the printed text as a request ----

  lemma StartLineIs(r: Content)
    requires r.version / 16 < 10 && r.version % 16 < 10
    ensures StartLine(r) == RequestLine(r.verb, Target(r), r.version / 16, r.version % 16)
  {
    hide MethodString, Target, DigitChar;
    var a, t, x, y := MethodString(r.verb), Target(r), DigitChar(r.version / 16), DigitChar(r.version % 16);
    assert Decimal(r.version / 16) == [x] && Decimal(r.version % 16) == [y];
    assert " " == [' '];
    assert a + " " + t + " HTTP/" + [x] + "." + [y] + "\r\n" == (a + " ") + ((t + " ") + ("HTTP/" + [x] + "." + [y] + [CR, LF]));
  }

  lemma TargetReadable(r: Content)
    requires WellFormed(r)
    ensures UrlOk(r.verb, Target(r)) && r.verb != CONNECT
  {
    hide HttpUrl.PassOver, Endable, Target, HeaderOk;
    TargetPass(r);
    TargetNotEmpty(r);
  }

  lemma TargetNotEmpty(r: Content)
    requires WellFormed(r)
    ensures Target(r) != []
  {
  }

  /** The printed headers but the own content-length. */
  function Top(r: Content): seq<Entry> {
    OwnConnection(r) + Kept(r, r.headers)
  }

  predicate TopLine(e: Entry) {
    LineOk(e) && Tokens(e.key) != CONTENT_LENGTH && Tokens(e.key) != TRANSFER_ENCODING
  }

  lemma OwnConnectionOk(r: Content)
    ensures !r.websocket ==> TopLine(OwnConnection(r)[0])
  {
    if !r.websocket {
      WordsOk();
      WordTokens(CONNECTION);
      assert "connection" == CONNECTION && CONNECTION != CONTENT_LENGTH && CONNECTION != TRANSFER_ENCODING;
      OwnValueOk();
    }
  }

  lemma OwnValueOk()
    ensures IsPlainValue("close") && IsPlainValue("keep-alive")
  {
  }

  lemma {:induction false} KeptOnes(r: Content, es: seq<Entry>, k: nat)
    requires k < |Kept(r, es)|
    ensures exists i :: 0 <= i < |es| && es[i] == Kept(r, es)[k] && !Skipped(r, es[i])
    decreases |es|
  {
    hide Skipped;
    var init, last := es[..|es| - 1], |es| - 1;
    if k < |Kept(r, init)| {
      KeptOnes(r, init, k);
      var i :| 0 <= i < |init| && init[i] == Kept(r, init)[k] && !Skipped(r, init[i]);
      assert es[i] == init[i];
    } else {
      assert es[last] == Kept(r, es)[k] && !Skipped(r, es[last]);
    }
  }

  lemma HeaderTopLine(r: Content, e: Entry)
    requires HeaderOk(r, e) && !Skipped(r, e)
    ensures TopLine(e)
  {
    hide Same, TokenWord;
    WordsOk();
    SameWord(e.key, CONTENT_LENGTH);
    SameWord(e.key, TRANSFER_ENCODING);
    assert "content-length" == CONTENT_LENGTH && "transfer-encoding" == TRANSFER_ENCODING;
  }

  lemma TopLines(r: Content)
    requires WellFormed(r)
    ensures forall k :: 0 <= k < |Top(r)| ==> TopLine(Top(r)[k])
  {
    hide TopLine, HeaderOk, Skipped, Head, Target, PathOk, QueryOk, FragmentOk;
    forall k | 0 <= k < |Top(r)| ensures TopLine(Top(r)[k]) {
      var j := k - |OwnConnection(r)|;
      if j < 0 {
        OwnConnectionOk(r);
      } else {
        KeptOnes(r, r.headers, j);
        var i :| 0 <= i < |r.headers| && r.headers[i] == Kept(r, r.headers)[j] && !Skipped(r, r.headers[i]);
        HeaderTopLine(r, r.headers[i]);
      }
    }
  }

  function BodyPieces(body: string): seq<Event> {
    if body == [] then [] else [Data(Body, body, false)]
  }

  /** The callbacks that reading the printed text makes. */
  ghost function Script(r: Content): seq<Event> {
    [MessageBegin, Data(Url, Target(r), true)] + LinesEvents(PrintedHeaders(r))
    + [HeadersComplete(r.verb, r.version / 16, r.version % 16, 0, SwitchesProtocol(PrintedHeaders(r)))]
    + BodyPieces(r.body) + [MessageComplete]
  }

  /** How the printer frames the body. */
  function FramingOf(r: Content): Framing {
    if r.body == [] then NoBody else Sized(|Top(r)|, r.body)
  }

  lemma FramingIs(r: Content)
    ensures Top(r) + OwnLength(r) == PrintedHeaders(r)
    ensures BodyText(FramingOf(r)) == r.body && !FramingOf(r).ToTheEnd? && Carried(FramingOf(r)) == 0
    ensures AllLines(PrintedHeaders(r), FramingOf(r)) == PrintedHeaders(r)
    ensures BodyEvents(FramingOf(r)) == BodyPieces(r.body) + [MessageComplete]
  {
    hide Kept, OwnConnection, Decimal;
  }

  lemma LengthLineOk(r: Content)
    requires |r.body| <= MAX_BUFFER
    ensures var e := Entry("content-length", Decimal(|r.body|)); LengthLine(e) && DecValue(e.value) == |r.body|
  {
    hide Decimal, IsName, Tokens;
    DecimalValue(|r.body|);
    WordsOk();
    WordTokens(CONTENT_LENGTH);
    LengthWord();
  }

  lemma LengthWord()
    ensures "content-length" == CONTENT_LENGTH
    ensures CONTENT_LENGTH != CONNECTION && CONTENT_LENGTH != PROXY_CONNECTION && CONTENT_LENGTH != UPGRADE
  {
  }

  /** The own content-length line asks for nothing. */
  lemma LengthAsksNothing(r: Content, t: string)
    ensures SomeLineNames(PrintedHeaders(r), t) <==> SomeLineNames(Top(r), t)
    ensures (exists i :: 0 <= i < |PrintedHeaders(r)| && HasProtocol(PrintedHeaders(r)[i]))
            <==> exists i :: 0 <= i < |Top(r)| && HasProtocol(Top(r)[i])
  {
    hide Tokens, TextNames, Kept, OwnConnection, Decimal;
    var all, top := PrintedHeaders(r), Top(r);
    if r.body != [] {
      var e := Entry("content-length", Decimal(|r.body|));
      assert all == top + [e];
      WordsOk();
      WordTokens(CONTENT_LENGTH);
      LengthWord();
      assert !IsConnectionName(all[|top|].key) && !HasProtocol(all[|top|]);
      assert forall i :: 0 <= i < |top| ==> all[i] == top[i];
    } else {
      assert all == top;
    }
  }

  lemma PrintedAnnounces(r: Content)
    requires WellFormed(r)
    ensures Announced(ParserType.Request, 0, PrintedHeaders(r), FramingOf(r))
  {
    hide Kept, OwnConnection, Decimal, HeaderOk, Head, Target, PathOk, QueryOk, FragmentOk, Sorted, LineOk, LengthLine, Tokens,
         DecValue, AllNum;
    TopLines(r);
    LengthLineOk(r);
    FramingIs(r);
    var e := Entry("content-length", Decimal(|r.body|));
    LengthLineHas(e);
    LengthLineAlone(e);
    var hs, top := PrintedHeaders(r), Top(r);
    forall i | 0 <= i < |hs|
      ensures (i < |top| ==> LineOk(hs[i])) && (i >= |top| ==> r.body != [] && i == |top| && hs[i] == e) && !SaysChunked(hs[i])
    {
      if i < |top| {
        assert TopLine(top[i]);
      }
    }
  }

  /** The printed text is that of a request whose header lines announce its body. */
  lemma AsRequest(r: Content)
    requires WellFormed(r)
    ensures var x, y, hs, b := r.version / 16, r.version % 16, PrintedHeaders(r), FramingOf(r);
            && RequestOk(0, r.verb, Target(r), x, y, hs, b)
            && Printed(r) == RequestText(r.verb, Target(r), x, y, hs, b)
            && Script(r) == RequestEvents(r.verb, Target(r), x, y, hs, b)
            && (SwitchesOver(ParserType.Request, 0, hs) <==> SwitchesProtocol(PrintedHeaders(r)))
  {
    hide *;
    Limits(r);
    TargetReadable(r);
    StartLineIs(r);
    PrintedAnnounces(r);
    FramingIs(r);
    SwitchesOverIs(PrintedHeaders(r));
    TextIs(r);
    RequestOkIs(r);
  }

  lemma SwitchesOverIs(hs: seq<Entry>)
    ensures SwitchesOver(ParserType.Request, 0, hs) <==> SwitchesProtocol(hs)
  {
    hide SomeLineNames, HasProtocol, SwitchesProtocol;
    SwitchesByText(hs);
  }

  lemma TextIs(r: Content)
    requires r.version / 16 < 10 && r.version % 16 < 10
    requires StartLine(r) == RequestLine(r.verb, Target(r), r.version / 16, r.version % 16)
    requires BodyText(FramingOf(r)) == r.body && BodyEvents(FramingOf(r)) == BodyPieces(r.body) + [MessageComplete]
    requires SwitchesOver(ParserType.Request, 0, PrintedHeaders(r)) <==> SwitchesProtocol(PrintedHeaders(r))
    ensures var x, y, hs, b := r.version / 16, r.version % 16, PrintedHeaders(r), FramingOf(r);
            && Printed(r) == RequestText(r.verb, Target(r), x, y, hs, b)
            && Script(r) == RequestEvents(r.verb, Target(r), x, y, hs, b)
    ensures |Head(r)| == |StartLine(r)| + |Lines(PrintedHeaders(r))| + 2
  {
    hide StartLine, RequestLine, Lines, LinesEvents, PrintedHeaders, BodyText, BodyEvents, FramingOf,
         BodyPieces, SwitchesOver, SwitchesProtocol, Target;
  }

  lemma RequestOkIs(r: Content)
    requires r.version / 16 < 10 && r.version % 16 < 10 && r.verb != CONNECT && UrlOk(r.verb, Target(r))
    requires Announced(ParserType.Request, 0, PrintedHeaders(r), FramingOf(r))
    requires StartLine(r) == RequestLine(r.verb, Target(r), r.version / 16, r.version % 16)
    requires |Head(r)| == |StartLine(r)| + |Lines(PrintedHeaders(r))| + 2 <= MAX_HEADER_SIZE
    ensures RequestOk(0, r.verb, Target(r), r.version / 16, r.version % 16, PrintedHeaders(r), FramingOf(r))
  {
    hide StartLine, RequestLine, Lines, PrintedHeaders, FramingOf, Announced, UrlOk, Target, Head;
  }

  /** Reading the printed text makes exactly the callbacks of the request, the last of them at its last byte. The
      parser then waits for the next request if the printed connection headers keep the connection open, and is dead
      if they do not. */
  lemma ReadBack(st: Settings, r: Content)
    requires WellFormed(r) && st.headersAnswer == 0
    ensures var m := Run(st, Start(Init(ParserType.Request)), Printed(r));
            && m.n == |Printed(r)| && m.s.upgrade == SwitchesProtocol(PrintedHeaders(r)) && m.log == Script(r)
            && m.out == (if m.s.upgrade then Left(m.n) else Going)
            && m.s.state == (if StaysOpen(r.version / 16, r.version % 16, PrintedHeaders(r)) then StartReq else Dead)
            && CompletesAt(st, Start(Init(ParserType.Request)), Printed(r))
  {
    hide *;
    AsRequest(r);
    FramingIs(r);
    InitState(0);
    RequestFramed(st, 0, r.verb, Target(r), r.version / 16, r.version % 16, PrintedHeaders(r), FramingOf(r));
  }

  lemma Limits(r: Content)
    requires WellFormed(r)
    ensures |Head(r)| <= MAX_HEADER_SIZE && |r.body| <= MAX_BUFFER && r.version / 16 < 10 && r.version % 16 < 10
  {
    hide Head, HeaderOk, Target;
  }

  // ---- the request rebuilt ----

  lemma {:induction false} WholeStays(fired: seq<Event>)
    requires forall i :: 0 <= i < |fired| ==> Whole(fired[i])
    ensures var log := Canon(fired); log == [] || Whole(log[|log| - 1])
    decreases |fired|
  {
    if fired == [] {
    } else {
      var init, last := fired[..|fired| - 1], fired[|fired| - 1];
      assert fired == init + [last];
      WholeStays(init);
      PushAllSnoc([], init, last);
    }
  }

  /** Joining pieces changes nothing for the callbacks: only the body comes in pieces, and it is appended. */
  lemma {:induction false} PiecesAlike(b: Builder, fired: seq<Event>)
    requires PiecesAtEnd(fired)
    ensures AllCalled(b, fired) == AllCalled(b, Canon(fired))
    decreases |fired|
  {
    hide OnUrl, Push;
    if fired == [] {
    } else {
      var init, last := fired[..|fired| - 1], fired[|fired| - 1];
      assert fired == init + [last];
      assert PiecesAtEnd(init);
      PiecesAlike(b, init);
      WholeStays(init);
      PushAllSnoc([], init, last);
      PushCalled(b, Canon(init), last);
    }
  }

  lemma PushCalled(b: Builder, log: seq<Event>, e: Event)
    requires log == [] || Whole(log[|log| - 1])
    ensures AllCalled(b, Push(log, e)) == Called(AllCalled(b, log), e)
  {
    hide OnUrl;
    if Push(log, e) == log + [e] {
      assert (log + [e])[..|log|] == log;
    } else {
      var front, last := log[..|log| - 1], log[|log| - 1];
      var joined := Data(e.kind, last.bytes + e.bytes, e.final);
      assert (front + [joined])[..|front|] == front;
      assert last == Data(Body, last.bytes, false);
      var c := AllCalled(b, front);
      assert c.req.body + (last.bytes + e.bytes) == c.req.body + last.bytes + e.bytes;
    }
  }

  /** The headers set one after the other. */
  function PutAll(es: seq<Entry>, hs: seq<Entry>): seq<Entry> {
    if hs == [] then es else Emplace(PutAll(es, hs[..|hs| - 1]), hs[|hs| - 1].key, hs[|hs| - 1].value, true)
  }

  lemma {:induction false} HeadersCalled(b: Builder, hs: seq<Entry>)
    requires !b.failed
    ensures var c := AllCalled(b, LinesEvents(hs));
            c == b.(field := c.field, req := b.req.(headers := PutAll(b.req.headers, hs)))
    decreases |hs|
  {
    hide OnUrl, Emplace;
    if hs == [] {
    } else {
      var init, e := hs[..|hs| - 1], hs[|hs| - 1];
      HeadersCalled(b, init);
      AllCalledConcat(b, LinesEvents(init), LineEvents(e));
      TwoCalled(AllCalled(b, LinesEvents(init)), Data(Field, e.key, true), Data(Value, e.value, true));
    }
  }

  lemma TwoCalled(b: Builder, x: Event, y: Event)
    ensures AllCalled(b, [x, y]) == Called(Called(b, x), y)
    ensures AllCalled(b, [x]) == Called(b, x)
  {
    hide Called;
    assert [x][..0] == [];
    AllCalledConcat(b, [x], [y]);
    assert [y][..0] == [];
    assert [x] + [y] == [x, y];
  }

  predicate Distinct(hs: seq<Entry>) {
    forall i, j :: 0 <= i < j < |hs| ==> !Same(hs[i].key, hs[j].key)
  }

  lemma {:induction false} FindSnoc(hs: seq<Entry>, e: Entry, k: string)
    ensures Find(hs + [e], k) == if Find(hs, k).Some? then Find(hs, k) else if Same(e.key, k) then Some(e) else None
  {
    hide Same;
    if hs != [] {
      assert (hs + [e])[1..] == hs[1..] + [e];
      FindSnoc(hs[1..], e, k);
    } else {
      assert hs + [e] == [e];
    }
  }

  /** Headers with different keys are all found again, as they were spelled. */
  lemma {:induction false} PutAllFind(hs: seq<Entry>, k: string)
    requires Distinct(hs)
    ensures Sorted(PutAll([], hs)) && Find(PutAll([], hs), k) == Find(hs, k)
    decreases |hs|
  {
    hide Same, Emplace, Sorted;
    SortedNothing();
    if hs == [] {
    } else {
      var init, e := hs[..|hs| - 1], hs[|hs| - 1];
      assert hs == init + [e];
      PutAllFind(init, k);
      PutAllFind(init, e.key);
      EmplaceSorted(PutAll([], init), e.key, e.value, true);
      EmplaceFind(PutAll([], init), e.key, e.value, true, k);
      FindSnoc(init, e, k);
      NotAmong(init, e.key);
      if Same(e.key, k) {
        SameKeys(init, e.key, k);
      }
    }
  }

  lemma SortedNothing()
    ensures Sorted([])
  {
  }

  lemma {:induction false} SameKeys(hs: seq<Entry>, k: string, k': string)
    requires Same(k, k')
    ensures Find(hs, k) == Find(hs, k')
  {
    if hs == [] {
    } else {
      SameKeys(hs[1..], k, k');
    }
  }

  predicate SkippedKey(r: Content, k: string) {
    (!r.websocket && Same(k, "connection")) || (r.body != [] && Same(k, "content-length"))
  }

  lemma {:induction false} KeptFind(r: Content, es: seq<Entry>, k: string)
    ensures Find(Kept(r, es), k) == if SkippedKey(r, k) then None else Find(es, k)
    decreases |es|
  {
    hide Fold;
    if es == [] {
    } else {
      var init, e := es[..|es| - 1], es[|es| - 1];
      KeptFind(r, init, k);
      assert es == init + [e];
      FindSnoc(init, e, k);
      FindSnoc(Kept(r, init), e, k);
      assert Kept(r, init) + [] == Kept(r, init);
    }
  }

  lemma {:induction false} KeptDistinct(r: Content, es: seq<Entry>)
    requires Sorted(es)
    ensures Distinct(Kept(r, es))
    decreases |es|
  {
    hide Skipped, Less, Same;
    if es == [] {
    } else {
      var init, last := es[..|es| - 1], |es| - 1;
      KeptDistinct(r, init);
      forall k | 0 <= k < |Kept(r, init)| ensures !Same(Kept(r, init)[k].key, es[last].key) {
        KeptOnes(r, init, k);
        var i :| 0 <= i < |init| && init[i] == Kept(r, init)[k] && !Skipped(r, init[i]);
        assert Less(es[i].key, es[last].key);
        LessTotal(es[i].key, es[last].key);
      }
    }
  }

  lemma OwnKeysDiffer()
    ensures !Same("connection", "content-length")
  {
    WordsOk();
    WordTokens(CONNECTION);
    WordTokens(CONTENT_LENGTH);
    FoldTokens(CONNECTION);
    FoldTokens(CONTENT_LENGTH);
    assert "connection" == CONNECTION && "content-length" == CONTENT_LENGTH;
  }

  /** The entry that the rebuilt request has under a key: its own connection and content-length, else the old one. */
  function Expected(r: Content, k: string): Option<Entry> {
    if !r.websocket && Same(k, "connection") then Some(Entry("connection", if r.close then "close" else "keep-alive"))
    else if r.body != [] && Same(k, "content-length") then Some(Entry("content-length", Decimal(|r.body|)))
    else Find(r.headers, k)
  }

  lemma SameSymmetric(a: string, b: string)
    ensures Same(a, b) == Same(b, a)
  {
  }

  lemma FindConnection(r: Content, hs: seq<Entry>, k: string)
    ensures Find(OwnConnection(r) + hs, k) == if !r.websocket && Same(k, "connection") then Some(OwnConnection(r)[0]) else Find(hs, k)
  {
    hide Fold;
    if r.websocket {
      assert OwnConnection(r) + hs == hs;
    } else {
      assert (OwnConnection(r) + hs)[1..] == hs;
    }
  }

  lemma PrintedFind(r: Content, k: string)
    ensures Find(PrintedHeaders(r), k) == Expected(r, k)
  {
    hide Fold, Kept, OwnConnection, Decimal;
    OwnKeysDiffer();
    var kept := Kept(r, r.headers);
    KeptFind(r, r.headers, k);
    FindConnection(r, kept + OwnLength(r), k);
    assert OwnConnection(r) + kept + OwnLength(r) == OwnConnection(r) + (kept + OwnLength(r));
    OwnConnectionIs(r);
    if r.body == [] {
      assert kept + [] == kept;
    } else {
      FindSnoc(kept, OwnLength(r)[0], k);
    }
  }

  lemma OwnConnectionIs(r: Content)
    ensures if r.websocket then OwnConnection(r) == []
            else OwnConnection(r) == [Entry("connection", if r.close then "close" else "keep-alive")]
  {
  }

  lemma PrintedDistinct(r: Content)
    requires Sorted(r.headers)
    ensures Distinct(PrintedHeaders(r))
  {
    hide Same, Kept, Decimal, OwnConnection;
    OwnKeysDiffer();
    OwnConnectionIs(r);
    KeptDistinct(r, r.headers);
    var kept := Kept(r, r.headers);
    forall k | 0 <= k < |kept|
      ensures !r.websocket ==> !Same("connection", kept[k].key)
      ensures r.body != [] ==> !Same(kept[k].key, "content-length")
    {
      KeptOnes(r, r.headers, k);
      SameSymmetric("connection", kept[k].key);
    }
  }

  /** The request rebuilt is the one printed, but for the headers the printer writes itself, and for `close` and
      `websocket`, which are not taken from the text. */
  ghost predicate Restored(r: Content, q: Content) {
    && q == Content(r.verb, r.version, true, false, r.path, r.query, r.fragment, q.headers, r.body)
    && Sorted(q.headers)
    && forall k :: Find(q.headers, k) == Expected(r, k)
  }

  lemma StartCalled(r: Content)
    requires WellFormed(r)
    ensures var b := NewBuilder();
            AllCalled(b, [MessageBegin, Data(Url, Target(r), true)])
            == b.(req := b.req.(path := r.path, query := r.query, fragment := r.fragment))
  {
    hide Target, OnUrl, PathOk, QueryOk, FragmentOk, HeaderOk, Head;
    TwoCalled(NewBuilder(), MessageBegin, Data(Url, Target(r), true));
    UrlComesBack(r, NewBuilder());
  }

  lemma CalledLast(r: Content, b: Builder, up: bool)
    requires !b.failed && r.version / 16 < 10 && r.version % 16 < 10
    ensures Called(b, HeadersComplete(r.verb, r.version / 16, r.version % 16, 0, up))
         == b.(req := b.req.(verb := r.verb, version := r.version))
    ensures Called(b, MessageComplete) == b.(finished := true)
    ensures Called(b, Data(Body, r.body, false)) == b.(req := b.req.(body := b.req.body + r.body))
  {
    hide OnUrl;
  }

  lemma EndCalled(r: Content, b: Builder, up: bool)
    requires !b.failed && b.req.body == [] && r.version / 16 < 10 && r.version % 16 < 10
    ensures AllCalled(b, [HeadersComplete(r.verb, r.version / 16, r.version % 16, 0, up)] + (BodyPieces(r.body) + [MessageComplete]))
         == b.(req := b.req.(verb := r.verb, version := r.version, body := r.body), finished := true)
  {
    hide AllCalled, Called;
    var h := HeadersComplete(r.verb, r.version / 16, r.version % 16, 0, up);
    AllCalledConcat(b, [h], BodyPieces(r.body) + [MessageComplete]);
    TwoCalled(b, h, h);
    CalledLast(r, b, up);
    var b1 := Called(b, h);
    CalledLast(r, b1, up);
    if r.body == [] {
      assert [] + [MessageComplete] == [MessageComplete];
      TwoCalled(b1, MessageComplete, MessageComplete);
    } else {
      assert [Data(Body, r.body, false)] + [MessageComplete] == [Data(Body, r.body, false), MessageComplete];
      TwoCalled(b1, Data(Body, r.body, false), MessageComplete);
      CalledLast(r, Called(b1, Data(Body, r.body, false)), up);
      assert [] + r.body == r.body;
    }
  }

  lemma ScriptCalled(r: Content)
    requires WellFormed(r)
    ensures var b := AllCalled(NewBuilder(), Script(r)); !b.failed && b.finished && Restored(r, b.req)
  {
    hide *;
    var up, hs := SwitchesProtocol(PrintedHeaders(r)), PrintedHeaders(r);
    var a := [MessageBegin, Data(Url, Target(r), true)];
    var z := [HeadersComplete(r.verb, r.version / 16, r.version % 16, 0, up)] + (BodyPieces(r.body) + [MessageComplete]);
    ScriptParts(r);
    StartCalled(r);
    var b1 := AllCalled(NewBuilder(), a);
    NewBuilderIs();
    AllCalledConcat(NewBuilder(), a, LinesEvents(hs) + z);
    AllCalledConcat(b1, LinesEvents(hs), z);
    HeadersCalled(b1, hs);
    Limited(r);
    EndCalled(r, AllCalled(b1, LinesEvents(hs)), up);
    PrintedDistinct(r);
    PutAllFind(hs, []);
    forall k ensures Find(PutAll([], hs), k) == Expected(r, k) {
      PutAllFind(hs, k);
      PrintedFind(r, k);
    }
    RestoredIs(r, AllCalled(NewBuilder(), Script(r)).req, PutAll([], hs));
  }

  lemma ScriptParts(r: Content)
    ensures Script(r)
         == [MessageBegin, Data(Url, Target(r), true)]
            + (LinesEvents(PrintedHeaders(r))
               + ([HeadersComplete(r.verb, r.version / 16, r.version % 16, 0, SwitchesProtocol(PrintedHeaders(r)))]
                  + (BodyPieces(r.body) + [MessageComplete])))
  {
    hide LinesEvents, PrintedHeaders, BodyEvents, SwitchesProtocol, Target;
  }

  lemma NewBuilderIs()
    ensures var b := NewBuilder();
            b.req == Content(GET, 0x11, true, false, "/", [], [], [], []) && !b.failed
  {
  }

  lemma Limited(r: Content)
    requires WellFormed(r)
    ensures r.version / 16 < 10 && r.version % 16 < 10 && Sorted(r.headers)
  {
    hide Head, HeaderOk, Target, PathOk, QueryOk, FragmentOk, Sorted;
  }

  lemma RestoredIs(r: Content, q: Content, hs: seq<Entry>)
    requires q == Content(r.verb, r.version, true, false, r.path, r.query, r.fragment, hs, r.body)
    requires Sorted(hs) && forall k :: Find(hs, k) == Expected(r, k)
    ensures Restored(r, q)
  {
    hide Find, Sorted, Expected;
  }

  /** Print, then parse. A fresh parser reads the whole printed text in one call without an error, and the
      callbacks of that call rebuild the request. The connection then changes protocol, which the caller takes
      for an error, exactly when the printed headers ask for that. */
  lemma PrintThenParse(r: Content, s: Parser, errno: Errno, n: nat, fired: seq<Event>)
    requires WellFormed(r)
    requires CallResult(Settings(0), Init(ParserType.Request), Printed(r), s, errno, n, fired)
    ensures errno == OK && n == |Printed(r)| && (s.upgrade <==> SwitchesProtocol(PrintedHeaders(r)))
    ensures var b := AllCalled(NewBuilder(), fired); !b.failed && b.finished && Restored(r, b.req)
  {
    hide Run, Printed, Script, SwitchesProtocol, Restored, Canon, WellFormed, AllCalled, PiecesAtEnd;
    ReadBack(Settings(0), r);
    PiecesAlike(NewBuilder(), fired);
    ScriptCalled(r);
  }

  /** The whole way: dump prints a request, the text lies in a buffer, and a new HttpRequestParser reads it in one
      call. Everything printed is read and restored; an error is reported exactly when the text asks for another
      protocol. */
  method DumpThenParse(req: HttpRequest) returns (p: HttpRequestParser)
    requires WellFormed(req.Contents()) && |Printed(req.Contents())| <= MAX_BUFFER
    ensures p.finished && p.parser.errno == OK && Restored(req.Contents(), p.data.Contents())
    ensures p.error == if SwitchesProtocol(PrintedHeaders(req.Contents())) then UnknownError else NoError
  {
    hide *;
    var os := req.Dump();
    var buf := new char[|os|](i requires 0 <= i < |os| => os[i]);
    p := new HttpRequestParser();
    NotEmpty(req.Contents());
    assert buf[..|os|] == os;
    ghost var r := req.Contents();
    var n, fired := p.Execute(buf, |os|);
    BuiltIs(p);
    ghost var s, e, k :| CallResult(Settings(0), Init(ParserType.Request), os, s, e, k, fired);
    PrintThenParse(r, s, e, k, fired);
    PrintThenParse(r, p.parser.st, p.parser.errno, n, fired);
  }

  lemma NotEmpty(r: Content)
    ensures |Printed(r)| > 0
  {
    hide StartLine, Lines;
  }

  lemma BuiltIs(p: HttpRequestParser)
    ensures p.Built() == Builder(p.data.Contents(), p.field, p.finished, false)
  {
  }

  /** A request that is not a websocket handshake never changes protocol unless it has both an upgrade and a
      proxy-connection header. */
  lemma OrdinaryRequest(r: Content)
    requires WellFormed(r) && !r.websocket
    requires (forall i :: 0 <= i < |r.headers| ==> !Same(r.headers[i].key, PROXY_CONNECTION))
             || (forall i :: 0 <= i < |r.headers| ==> !Same(r.headers[i].key, UPGRADE))
    ensures !SwitchesProtocol(PrintedHeaders(r))
  {
    hide Same, TopLine, Tokens, TextNames, Decimal, Target, Head, PathOk, QueryOk, FragmentOk, IsName, IsPlainValue,
         PROXY_CONNECTION, UPGRADE, CONNECTION, SwitchesProtocol;
    SwitchesByText(PrintedHeaders(r));
    LengthAsksNothing(r, "upgrade");
    OtherWordsOk();
    var top := Top(r);
    forall k | 0 <= k < |top|
      ensures IsConnectionName(top[k].key) && TextNames(top[k].value, "upgrade") ==>
                exists i :: 0 <= i < |r.headers| && Same(r.headers[i].key, PROXY_CONNECTION)
      ensures HasProtocol(top[k]) ==> exists i :: 0 <= i < |r.headers| && Same(r.headers[i].key, UPGRADE)
    {
      if k == 0 {
        OwnLine(r, "upgrade");
      } else {
        KeptOnes(r, r.headers, k - 1);
        var i :| 0 <= i < |r.headers| && r.headers[i] == Kept(r, r.headers)[k - 1] && !Skipped(r, r.headers[i]);
        assert HeaderOk(r, r.headers[i]);
        SameWord(top[k].key, PROXY_CONNECTION);
        SameWord(top[k].key, UPGRADE);
        SameWord(top[k].key, CONNECTION);
        ConnectionWord();
      }
    }
  }

  lemma ConnectionWord()
    ensures "connection" == CONNECTION && CONNECTION != UPGRADE && CONNECTION != PROXY_CONNECTION
  {
  }

  /** The own connection header names what it says, and nothing else. */
  lemma OwnLine(r: Content, t: string)
    requires !r.websocket
    ensures var e := OwnConnection(r)[0];
            && IsConnectionName(e.key) && !HasProtocol(e)
            && (TextNames(e.value, t) <==> t == if r.close then "close" else "keep-alive")
  {
    hide TextNames;
    WordsOk();
    WordTokens(CONNECTION);
    ConnectionWord();
    WholeWord(if r.close then "close" else "keep-alive", t);
  }

  // ---- the connection behind a printed request ----

  /** No header of the map speaks of the connection: none is printed besides the own one. */
  predicate SilentOnConnection(r: Content) {
    !r.websocket && forall i :: 0 <= i < |r.headers| ==> !Same(r.headers[i].key, "proxy-connection")
  }

  lemma OnlyOwnLine(r: Content, t: string)
    requires WellFormed(r) && SilentOnConnection(r)
    ensures SomeLineNames(PrintedHeaders(r), t) <==> t == if r.close then "close" else "keep-alive"
  {
    hide Same, TopLine, Tokens, TextNames, Decimal, Target, Head, PathOk, QueryOk, FragmentOk, IsName, IsPlainValue,
         PROXY_CONNECTION, UPGRADE, CONNECTION;
    LengthAsksNothing(r, t);
    OtherWordsOk();
    OwnLine(r, t);
    ProxyWord();
    var top := Top(r);
    assert top[0] == OwnConnection(r)[0];
    forall k | 0 < k < |top| ensures !IsConnectionName(top[k].key) {
      KeptOnes(r, r.headers, k - 1);
      var i :| 0 <= i < |r.headers| && r.headers[i] == Kept(r, r.headers)[k - 1] && !Skipped(r, r.headers[i]);
      assert HeaderOk(r, r.headers[i]);
      SameWord(top[k].key, PROXY_CONNECTION);
      SameWord(top[k].key, CONNECTION);
      ConnectionWord();
    }
  }

  lemma ProxyWord()
    ensures "proxy-connection" == PROXY_CONNECTION
  {
  }

  /** What `close` of the printed request says is what becomes of the connection, for any version. */
  lemma CloseDecides(st: Settings, r: Content)
    requires WellFormed(r) && SilentOnConnection(r) && st.headersAnswer == 0
    ensures var m := Run(st, Start(Init(ParserType.Request)), Printed(r));
            m.s.state == (if r.close then Dead else StartReq) && m.out.Going?
  {
    hide *;
    ReadBack(st, r);
    OwnDecides(r);
    NoSwitch(r);
  }

  lemma OwnDecides(r: Content)
    requires WellFormed(r) && SilentOnConnection(r)
    ensures StaysOpen(r.version / 16, r.version % 16, PrintedHeaders(r)) <==> !r.close
  {
    hide WellFormed, SilentOnConnection, PrintedHeaders, SomeLineNames;
    OnlyOwnLine(r, "close");
    OnlyOwnLine(r, "keep-alive");
  }

  lemma NoSwitch(r: Content)
    requires WellFormed(r) && SilentOnConnection(r)
    ensures !SwitchesProtocol(PrintedHeaders(r))
  {
    hide WellFormed, SilentOnConnection, PrintedHeaders, SomeLineNames, SwitchesProtocol, HasProtocol;
    OnlyOwnLine(r, "upgrade");
    SwitchesByText(PrintedHeaders(r));
  }

  function PrintedAll(rs: seq<Content>): string {
    if rs == [] then [] else Printed(rs[0]) + PrintedAll(rs[1..])
  }

  ghost function Scripts(rs: seq<Content>): seq<Event> {
    if rs == [] then [] else Script(rs[0]) + Scripts(rs[1..])
  }

  /** A printed request as one of a chain. */
  function AsLink(r: Content): Link {
    Link(r.verb, Target(r), r.version / 16, r.version % 16, PrintedHeaders(r), FramingOf(r))
  }

  function AsLinks(rs: seq<Content>): seq<Link> {
    if rs == [] then [] else [AsLink(rs[0])] + AsLinks(rs[1..])
  }

  /** Printed requests one behind the other, all but the last with `close` unset. */
  predicate KeptAlive(rs: seq<Content>) {
    forall i :: 0 <= i < |rs| ==> WellFormed(rs[i]) && SilentOnConnection(rs[i]) && (i < |rs| - 1 ==> !rs[i].close)
  }

  lemma {:induction false} PrintedChain(rs: seq<Content>)
    requires KeptAlive(rs)
    ensures var qs := AsLinks(rs);
            && |qs| == |rs| && Chain(0, qs) && Texts(0, qs) == PrintedAll(rs) && AllEvents(qs) == Scripts(rs)
            && (rs != [] ==> qs[|qs| - 1] == AsLink(rs[|rs| - 1]))
    decreases |rs|
  {
    hide WellFormed, SilentOnConnection, Printed, Script, RequestOk, Text, EventsOfRequest, StaysOpen, SwitchesOver, AsLink, Carried;
    if rs == [] {
    } else {
      var r, rest := rs[0], rs[1..];
      assert forall i :: 0 <= i < |rest| ==> rest[i] == rs[i + 1];
      PrintedChain(rest);
      LinkFacts(r);
      var qs := AsLinks(rs);
      assert qs[0] == AsLink(r) && qs[1..] == AsLinks(rest);
    }
  }

  lemma LinkFacts(r: Content)
    requires WellFormed(r) && SilentOnConnection(r)
    ensures var q := AsLink(r);
            && Ok(0, q) && q.major < 10 && q.minor < 10 && Text(q) == Printed(r) && EventsOfRequest(q) == Script(r) && Carried(q.b) == 0
            && !SwitchesOver(ParserType.Request, 0, q.hs) && (StaysOpen(q.major, q.minor, AllLines(q.hs, q.b)) <==> !r.close)
  {
    hide *;
    AsRequest(r);
    OwnDecides(r);
    NoSwitch(r);
    FramingIs(r);
    Limits(r);
    LinkIs(r);
  }

  lemma LinkIs(r: Content)
    requires r.version / 16 < 10 && r.version % 16 < 10
    ensures var q, x, y, hs, b := AsLink(r), r.version / 16, r.version % 16, PrintedHeaders(r), FramingOf(r);
            && q == Link(r.verb, Target(r), x, y, hs, b) && Text(q) == RequestText(r.verb, Target(r), x, y, hs, b)
            && EventsOfRequest(q) == RequestEvents(r.verb, Target(r), x, y, hs, b)
            && (Ok(0, q) <==> RequestOk(0, r.verb, Target(r), x, y, hs, b))
  {
    hide RequestText, RequestEvents, RequestOk, Target, PrintedHeaders, FramingOf;
  }

  /** Any number of printed requests, sent over one connection without waiting, are read back in turn; the connection
      stays open behind the last one unless that one closes it. */
  lemma PrintedInTurn(st: Settings, rs: seq<Content>)
    requires KeptAlive(rs) && st.headersAnswer == 0
    ensures var m := Run(st, Start(Init(ParserType.Request)), PrintedAll(rs));
            && m.log == Scripts(rs) && m.n == |PrintedAll(rs)|
            && (rs != [] ==> m.out == Going && m.s.state == if rs[|rs| - 1].close then Dead else StartReq)
  {
    hide *;
    PrintedChain(rs);
    InitState(0);
    Pipelined(st, 0, AsLinks(rs));
    if rs != [] {
      LastAlive(rs);
      LinkFacts(rs[|rs| - 1]);
    }
  }

  lemma LastAlive(rs: seq<Content>)
    requires KeptAlive(rs) && rs != []
    ensures WellFormed(rs[|rs| - 1]) && SilentOnConnection(rs[|rs| - 1])
  {
    hide WellFormed, SilentOnConnection;
  }

  /** A request that is legal and yet does not come back without an error: a proxy-connection header that names
      upgrade, with an upgrade header. */
  function ProxyUpgrade(): Content {
    Content(GET, 0x11, false, false, "/", [], [], [Entry("proxy-connection", "upgrade"), Entry("upgrade", "x")], [])
  }

  lemma ProxyUpgradeTop(r: Content)
    requires r == ProxyUpgrade()
    ensures PrintedHeaders(r) == [Entry("connection", "keep-alive"), r.headers[0], r.headers[1]]
    ensures Sorted(r.headers) && forall i :: 0 <= i < |r.headers| ==> HeaderOk(r, r.headers[i])
  {
    hide IsPlainValue, IsName, Same, Less, Decimal;
    var hs := r.headers;
    ProxyUpgradeKeys();
    KeptMore(r, hs, 0);
    KeptMore(r, hs, 1);
    assert hs[..2] == hs && hs[..0] == [];
    OwnConnectionIs(r);
  }

  lemma ProxyUpgradeKeys()
    ensures Less("proxy-connection", "upgrade")
    ensures !Same("proxy-connection", "connection") && !Same("upgrade", "connection")
    ensures !Same("proxy-connection", "transfer-encoding") && !Same("upgrade", "transfer-encoding")
    ensures !Same("proxy-connection", "content-length") && !Same("upgrade", "content-length")
    ensures IsName("proxy-connection") && IsName("upgrade") && IsPlainValue("upgrade") && IsPlainValue("x")
  {
    hide IsPlainValue, Token;
    OtherWordsOk();
    WordsOk();
    ConnectionWord();
    WordTokens(PROXY_CONNECTION);
    WordTokens(UPGRADE);
    SameWord(PROXY_CONNECTION, CONNECTION);
    SameWord(PROXY_CONNECTION, TRANSFER_ENCODING);
    SameWord(PROXY_CONNECTION, CONTENT_LENGTH);
    SameWord(UPGRADE, CONNECTION);
    SameWord(UPGRADE, TRANSFER_ENCODING);
    SameWord(UPGRADE, CONTENT_LENGTH);
    FoldTokens(PROXY_CONNECTION);
    FoldTokens(UPGRADE);
    PlainWords();
  }

  lemma PlainWords()
    ensures IsPlainValue("upgrade") && IsPlainValue("x")
  {
  }

  lemma {:induction false} LinesBound(hs: seq<Entry>)
    requires forall i :: 0 <= i < |hs| ==> |hs[i].key| + |hs[i].value| <= 26
    ensures |Lines(hs)| <= |hs| * 30
    decreases |hs|
  {
    if hs == [] {
    } else {
      LinesBound(hs[..|hs| - 1]);
    }
  }

  /** Its text is read without an error, all of it is restored, and still the caller is told of a failure. */
  lemma ProxyUpgradeRefused(s: Parser, errno: Errno, n: nat, fired: seq<Event>)
    requires CallResult(Settings(0), Init(ParserType.Request), Printed(ProxyUpgrade()), s, errno, n, fired)
    ensures errno == OK && n == |Printed(ProxyUpgrade())| && s.upgrade
    ensures var b := AllCalled(NewBuilder(), fired); !b.failed && b.finished && Restored(ProxyUpgrade(), b.req)
  {
    hide *;
    ProxyUpgradeFormed(ProxyUpgrade());
    PrintThenParse(ProxyUpgrade(), s, errno, n, fired);
  }

  lemma ProxyUpgradeFormed(r: Content)
    requires r == ProxyUpgrade()
    ensures WellFormed(r) && SwitchesProtocol(PrintedHeaders(r))
  {
    hide Lines, StartLine, Sorted, HeaderOk, TextNames, Kept, OwnConnection, Tokens, IsUrlChar, SwitchesProtocol;
    ProxyUpgradeTop(r);
    LinesBound(PrintedHeaders(r));
    StartLineShort(r);
    OtherWordsOk();
    WordTokens(PROXY_CONNECTION);
    WordTokens(UPGRADE);
    WholeWord("upgrade", "upgrade");
    SwitchesByText(PrintedHeaders(r));
    var hs := PrintedHeaders(r);
    assert IsConnectionName(hs[1].key) && TextNames(hs[1].value, "upgrade") && HasProtocol(hs[2]);
  }

  lemma StartLineShort(r: Content)
    requires r == ProxyUpgrade()
    ensures |StartLine(r)| <= 100 && |Target(r)| == 1
  {
  }
}
