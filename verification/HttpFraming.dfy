/** How a message is framed: where its header section ends, which body follows, where the message ends, and whether
    the connection stays open behind it; all of it read off the text of the header lines. */
module HttpFraming {
  import opened Wrappers
  import opened CaseMap
  import opened HttpChars
  import opened HttpTypes
  import opened HttpStep
  import opened HttpRun
  import opened HttpInvariant
  import opened HttpLength
  import opened HttpNames
  import opened HttpHeaderLines
  import opened HttpConnection
  import opened HttpChunked

  // ---- the content-length line ----

  /** A content-length line that is accepted. */
  predicate LengthLine(e: Entry) {
    && IsName(e.key) && Tokens(e.key) == "content-length"
    && e.value != [] && AllNum(e.value) && DecValue(e.value) <= MAX_LENGTH
  }

  lemma BehindLengthName(s: Parser, n: nat, index: nat, k: nat, v: nat)
    ensures var t := BehindName(s, n, ContentLength, index);
            && t.state.HeaderValueDiscardWs? && t.hs == ContentLength && t.flags == s.flags && t.nread == n
            && InLength(t, k, v) == InValue(s.(flags := s.flags.(contentLength := true), length := v), k, ContentLengthNum, 0)
  {
  }

  lemma SettledLength(s: Parser, n: nat, v: nat, log: seq<Event>, at: nat)
    ensures var t := AtLineEnd(s.(flags := s.flags.(contentLength := true), length := v), n, ContentLengthNum, 0);
            var m := Machine(t, log, at, Going);
            && AtLine(m)
            && Settled(m) == m.(s := BehindLine(s.(length := v), n, s.flags.(contentLength := true), t))
  {
  }

  /** The name, the colon and the blank. */
  lemma LengthNamePart(st: Settings, m: Machine, s: Parser, name: string) returns (index: nat)
    requires m.out.Going? && m.s == s && s.state.HeaderFieldStart? && s.nread + |name| + 2 <= MAX_HEADER_SIZE
    requires IsName(name) && Tokens(name) == "content-length"
    ensures var n := |name| + 2;
            Run(st, m, name + [':'] + [' '])
            == Machine(BehindName(s, s.nread + n, ContentLength, index), Push(m.log, Data(Field, name, true)), m.n + n, Going)
  {
    hide *;
    index := HeaderNameExact(st, m, s, name);
    var n := s.nread + |name| + 1;
    NameBehind(s, n, ContentLength, index);
    BlankStep(st, s, n, ContentLength, index);
    RunSilent(st, m, name + [':'], ' ', BehindName(s, n + 1, ContentLength, index));
  }

  /** An accepted content-length line is read as its value. */
  lemma LengthLineRead(st: Settings, m: Machine, s: Parser, e: Entry)
    requires m.out.Going? && m.s == s && s.state.HeaderFieldStart? && !s.flags.contentLength && LengthLine(e)
    requires ClosedLog(m.log) && s.nread + |Line(e)| <= MAX_HEADER_SIZE
    ensures var r := Run(st, m, Line(e));
            && AtLine(r)
            && AllNum(e.value)
            && Settled(r) == Machine(BehindLine(s.(length := DecValue(e.value)), s.nread + |Line(e)|,
                                                s.flags.(contentLength := true), r.s),
                                     m.log + LineEvents(e), m.n + |Line(e)|, Going)
  {
    hide *;
    LengthLineHas(e);
    var ds, v := e.value, DecValue(e.value);
    var a := e.key + [':'] + [' '];
    var b := ds + [CR, LF];
    LineParts(e);
    var index := LengthNamePart(st, m, s, e.key);
    var m1 := Run(st, m, a);
    var n := s.nread + |a|;
    BehindLengthName(s, n, index, n + |ds|, v);
    ContentLengthExact(st, m1.s, ds);
    RunShift(st, m1.s, m1.log, m1.n, ds);
    PushAllOne(m1.log, Data(Value, ds, false));
    var s' := s.(flags := s.flags.(contentLength := true), length := v);
    LineEnds(st, m1, ds, s', n + |ds|, ContentLengthNum, 0, m1.log, ds);
    RunConcat(st, m, a, b);
    PushTwo(m.log, Data(Field, e.key, true), Data(Value, ds, true));
    LineEventsAre(e);
    SettledLength(s, n + |ds| + 2, v, m.log + LineEvents(e), m.n + |Line(e)|);
  }

  lemma LengthLineHas(e: Entry)
    requires LengthLine(e)
    ensures IsName(e.key) && Tokens(e.key) == "content-length"
    ensures e.value != [] && AllNum(e.value) && DecValue(e.value) <= MAX_LENGTH
  {
    hide IsName, Tokens, AllNum, DecValue;
  }

  lemma LineParts(e: Entry)
    ensures Line(e) == e.key + [':'] + [' '] + (e.value + [CR, LF])
    ensures |e.key + [':'] + [' ']| == |e.key| + 2
  {
  }

  lemma LineEventsAre(e: Entry)
    ensures LineEvents(e) == [Data(Field, e.key, true), Data(Value, e.value, true)]
  {
  }

  lemma PushTwo(log: seq<Event>, x: Event, y: Event)
    requires ClosedLog(log) && x.Data? && x.final
    ensures Push(Push(log, x), y) == log + [x, y]
  {
    assert log + [x] + [y] == log + [x, y];
  }

  // ---- the end of the header section ----

  /** The headers ask for another protocol, and so does what they belong to. */
  predicate Switches(s: Parser) {
    s.flags.upgrade && s.flags.connUpgrade && (s.typ == ParserType.Request || s.status == 101)
  }

  function Complete(s: Parser): Event {
    HeadersComplete(s.verb, s.major, s.minor, s.status, Switches(s))
  }

  /** A header section that ends without an error, of a message that is not CONNECT. */
  predicate Ending(s: Parser) {
    s.verb != CONNECT && !s.flags.trailing && !s.flags.skipBody && !(s.flags.chunked && s.flags.contentLength)
  }

  /** Neither chunks nor a length: what then follows depends on the message. */
  predicate Unframed(s: Parser) {
    !s.flags.chunked && s.length == NO_LENGTH
  }

  lemma EndLfStep(st: Settings, s: Parser, n: nat)
    requires Ending(s) && n < MAX_HEADER_SIZE && st.headersAnswer == 0
    ensures Step(st, AtHeadersEnd(s, n), LF)
         == HeadersDoneByte(AtHeadersEnd(s, n + 1).(upgrade := Switches(s)), [Complete(s)])
    ensures OpenKind(AtHeadersEnd(s, n).state) == None
  {
    hide HeadersDoneByte;
    assert s.flags.(skipBody := s.flags.skipBody || st.headersAnswer != 0) == s.flags;
  }

  /** The parser behind the empty line. */
  function BehindHeaders(s: Parser, next: State): Parser {
    s.(state := next, nread := 0, upgrade := Switches(s))
  }

  lemma DoneIs(s: Parser, n: nat)
    requires Ending(s)
    ensures var a := HeadersDoneByte(AtHeadersEnd(s, n).(upgrade := Switches(s)), [Complete(s)]);
            var only, both := Calls(None, [Complete(s)], None), Calls(None, [Complete(s)] + [MessageComplete], None);
            && (s.flags.chunked ==> a == Go(BehindHeaders(s, ChunkSizeStart), only))
            && (!s.flags.chunked && 0 < s.length != NO_LENGTH ==> a == Go(BehindHeaders(s, BodyIdentity), only))
            && (Unframed(s) && NeedsEof(s) && !Switches(s) ==> a == Go(BehindHeaders(s, BodyIdentityEof), only))
            && (!s.flags.chunked && (s.length == 0 || (Unframed(s) && !NeedsEof(s))) ==>
                  var t := BehindHeaders(s, NewMessage(s));
                  a == if Switches(s) then Leave(t, both) else Go(t, both))
  {
    assert AtHeadersEnd(s, n).(upgrade := Switches(s), nread := 0) == BehindHeaders(s, HeadersAlmostDone);
  }

  /** The machine behind the empty line when a body is to come. */
  predicate BodyToCome(r: Machine, m: Machine, s: Parser, next: State) {
    r == Machine(BehindHeaders(s, next), m.log + [Complete(s)], m.n + 2, Going)
  }

  /** The machine behind a message, at the byte that completes it. */
  predicate Ended(r: Machine, n: nat, upgrade: bool, next: State, log: seq<Event>, s: Parser, nread: nat) {
    && r.n == n && r.out == (if upgrade then Left(n) else Going) && r.log == log
    && r.s.upgrade == upgrade && r.s.state == next
    && r.s.typ == s.typ && r.s.lenient == s.lenient && r.s.nread == nread
  }

  /** The empty line. */
  lemma EndRead(st: Settings, m: Machine, s: Parser)
    requires m.out.Going? && m.s == s && s.state.HeaderFieldStart? && s.nread + 2 <= MAX_HEADER_SIZE
    requires Ending(s) && st.headersAnswer == 0
    ensures var r := Run(st, m, [CR, LF]);
            && (s.flags.chunked ==> BodyToCome(r, m, s, ChunkSizeStart))
            && (!s.flags.chunked && 0 < s.length != NO_LENGTH ==> BodyToCome(r, m, s, BodyIdentity))
            && (Unframed(s) && NeedsEof(s) && !Switches(s) ==> BodyToCome(r, m, s, BodyIdentityEof))
            && (!s.flags.chunked && (s.length == 0 || (Unframed(s) && !NeedsEof(s))) ==>
                  && Ended(r, m.n + 2, Switches(s), NewMessage(s), m.log + [Complete(s), MessageComplete], s, 0)
                  && CompletesAt(st, m, [CR, LF]))
  {
    hide *;
    EndCr(st, s);
    RunNil(st, m);
    var s1 := AtHeadersEnd(s, s.nread + 1);
    RunSilent(st, m, [], CR, s1);
    assert [] + [CR] == [CR] && [CR] + [LF] == [CR, LF];
    EndLfStep(st, s, s.nread + 1);
    DoneIs(s, s.nread + 2);
    RunSnoc(st, m, [CR], LF);
    var m1 := Run(st, m, [CR]);
    EndFacts(st, m, m1, s);
  }

  lemma EndFacts(st: Settings, m: Machine, m1: Machine, s: Parser)
    requires m1 == Machine(AtHeadersEnd(s, s.nread + 1), m.log, m.n + 1, Going) && Run(st, m, [CR]) == m1
    requires Ending(s) && st.headersAnswer == 0 && OpenKind(m1.s.state) == None
    requires Step(st, m1.s, LF) == HeadersDoneByte(AtHeadersEnd(s, s.nread + 2).(upgrade := Switches(s)), [Complete(s)])
    ensures var r := Next(st, m1, LF);
            && (s.flags.chunked ==> BodyToCome(r, m, s, ChunkSizeStart))
            && (!s.flags.chunked && 0 < s.length != NO_LENGTH ==> BodyToCome(r, m, s, BodyIdentity))
            && (Unframed(s) && NeedsEof(s) && !Switches(s) ==> BodyToCome(r, m, s, BodyIdentityEof))
            && (!s.flags.chunked && (s.length == 0 || (Unframed(s) && !NeedsEof(s))) ==>
                  && Ended(r, m.n + 2, Switches(s), NewMessage(s), m.log + [Complete(s), MessageComplete], s, 0)
                  && CompletesAt(st, m, [CR, LF]))
  {
    hide Step, Run, HeadersDoneByte, NewMessage, NeedsEof, Switches, Complete, Next, Ending, PushAll, EventsOf, Unframed;
    DoneIs(s, s.nread + 2);
    CompleteNote(s);
    BothNoted(m.log, Complete(s), MessageComplete, LF);
    if !Step(st, m1.s, LF).Fail? {
      NextIs(st, m1, LF);
    }
    assert [CR, LF][..1] == [CR];
  }

  lemma CompleteNote(s: Parser)
    ensures !Complete(s).Data?
  {
  }

  // ---- a body of known length ----

  /** Inside an identity body with `v` bytes to come. */
  function ReadingBody(s: Parser, v: nat): Parser {
    s.(length := v)
  }

  lemma BodyStep(st: Settings, s: Parser, v: nat, ch: char)
    requires s.state.BodyIdentity? && v > 0
    ensures Step(st, ReadingBody(s, v), ch)
         == if v > 1 then Marking(ReadingBody(s, v - 1), Body)
            else
              var t := ReadingBody(s, 0);
              var calls := Calls(Some(Close(Body, true, true)), [] + [MessageComplete], None);
              if s.upgrade then Leave(t.(state := NewMessage(t)), calls) else Go(t.(state := NewMessage(t)), calls)
  {
  }

  lemma {:induction false} BodyRun(st: Settings, m: Machine, s: Parser, v: nat, data: string)
    requires m.out.Going? && m.s == ReadingBody(s, v) && s.state.BodyIdentity? && 0 < |data| < v
    ensures Run(st, m, data) == Machine(ReadingBody(s, v - |data|), Push(m.log, Data(Body, data, false)), m.n + |data|, Going)
    decreases |data|
  {
    hide *;
    var init, ch := data[..|data| - 1], data[|data| - 1];
    assert data == init + [ch];
    BodyStep(st, s, v - |init|, ch);
    if init == [] {
      assert data == [ch];
      RunNil(st, m);
      RunMark(st, m, init, ch, ReadingBody(s, v - 1), Body);
    } else {
      BodyRun(st, m, s, v, init);
      RunMark(st, m, init, ch, ReadingBody(s, v - |data|), Body);
      PushJoin(m.log, Body, init, [ch], false);
    }
  }

  lemma LastEventsAre(ch: char)
    ensures var calls := Calls(Some(Close(Body, true, true)), [] + [MessageComplete], None);
            EventsOf(None, calls, ch) == EventsOf(Some(Body), calls, ch) == [Data(Body, [ch], false)] + [MessageComplete]
  {
  }

  lemma BodyPushed(log: seq<Event>, x: string, ch: char)
    requires ClosedLog(log)
    ensures Push(if x == [] then log else Push(log, Data(Body, x, false)), Data(Body, [ch], false))
         == log + [Data(Body, x + [ch], false)]
  {
    if x == [] {
      assert x + [ch] == [ch];
    } else {
      hide Push;
      PushJoin(log, Body, x, [ch], false);
      PushClosed(log, Data(Body, x + [ch], false));
    }
  }

  lemma PushClosed(log: seq<Event>, e: Event)
    requires ClosedLog(log)
    ensures Push(log, e) == log + [e]
  {
  }

  lemma LastEvents(log: seq<Event>, x: string, ch: char)
    requires ClosedLog(log)
    ensures var calls := Calls(Some(Close(Body, true, true)), [] + [MessageComplete], None);
            && PushAll(if x == [] then log else Push(log, Data(Body, x, false)), EventsOf(Some(Body), calls, ch))
               == log + [Data(Body, x + [ch], false), MessageComplete]
            && EventsOf(None, calls, ch) == EventsOf(Some(Body), calls, ch)
  {
    hide *;
    LastEventsAre(ch);
    var log1 := if x == [] then log else Push(log, Data(Body, x, false));
    var log2 := log + [Data(Body, x + [ch], false)];
    PushAllConcat(log1, [Data(Body, [ch], false)], [MessageComplete]);
    PushAllOne(log1, Data(Body, [ch], false));
    BodyPushed(log, x, ch);
    PushAllOne(log2, MessageComplete);
    PushNote(log2, MessageComplete);
    assert log2 + [MessageComplete] == log + [Data(Body, x + [ch], false), MessageComplete];
  }

  lemma PushNote(log: seq<Event>, e: Event)
    requires !e.Data?
    ensures Push(log, e) == log + [e]
  {
  }

  /** A body of the length announced is delivered whole and its last byte completes the message. */
  lemma BodyRead(st: Settings, m: Machine, s: Parser, body: string)
    requires m.out.Going? && m.s == s && s.state.BodyIdentity? && s.length == |body| > 0 && ClosedLog(m.log)
    ensures Ended(Run(st, m, body), m.n + |body|, s.upgrade, NewMessage(s.(length := 0)),
                  m.log + [Data(Body, body, false), MessageComplete], s, s.nread)
    ensures CompletesAt(st, m, body)
  {
    hide *;
    var k := |body| - 1;
    var init, ch := body[..k], body[k];
    assert body == init + [ch];
    BodyAll(s, |body|);
    BodyStep(st, s, 1, ch);
    if k == 0 {
      assert body == [ch] && init == [];
      RunNil(st, m);
    } else {
      BodyRun(st, m, s, |body|, init);
    }
    RunSnoc(st, m, init, ch);
    NextIs(st, Run(st, m, init), ch);
    BodyAll(s, 1);
    BodyKind();
    LastEvents(m.log, init, ch);
    EndedIs(Run(st, m, body), m.n + |body|, s.upgrade, m.log + [Data(Body, body, false), MessageComplete], s);
    CompletesIs(st, m, body);
  }

  lemma EndedIs(r: Machine, n: nat, upgrade: bool, log: seq<Event>, s: Parser)
    requires r.n == n && r.out == (if upgrade then Left(n) else Going) && r.log == log && r.s.upgrade == upgrade
    requires r.s.typ == s.typ && r.s.lenient == s.lenient
    ensures Ended(r, n, upgrade, r.s.state, log, s, r.s.nread)
  {
  }

  lemma BodyAll(s: Parser, v: nat)
    ensures s.length == v ==> ReadingBody(s, v) == s
    ensures ReadingBody(s, v).upgrade == s.upgrade && ReadingBody(s, v).state == s.state
    ensures ReadingBody(s, 0) == s.(length := 0)
    ensures var t := ReadingBody(s, v); t.typ == s.typ && t.lenient == s.lenient && t.nread == s.nread
  {
  }

  lemma BodyKind()
    ensures OpenKind(BodyIdentity) == None
  {
  }

  // ---- a body up to the end of the connection ----

  lemma RestStep(st: Settings, s: Parser, ch: char)
    requires s.state.BodyIdentityEof?
    ensures Step(st, s, ch) == Marking(s, Body) && OpenKind(s.state) == None
  {
  }

  /** Whatever comes is body, and the parser stays where it is. */
  lemma {:induction false} RestRead(st: Settings, m: Machine, s: Parser, rest: string)
    requires m.out.Going? && m.s == s && s.state.BodyIdentityEof? && ClosedLog(m.log)
    ensures Run(st, m, rest)
         == Machine(s, if rest == [] then m.log else m.log + [Data(Body, rest, false)], m.n + |rest|, Going)
    decreases |rest|
  {
    hide *;
    if rest == [] {
      RunNil(st, m);
    } else {
      var init, ch := rest[..|rest| - 1], rest[|rest| - 1];
      assert rest == init + [ch];
      RestStep(st, s, ch);
      RestRead(st, m, s, init);
      RunMark(st, m, init, ch, s, Body);
      BodyPushed(m.log, init, ch);
      PushClosed(m.log, Data(Body, init, false));
    }
  }

  // ---- whole messages, by their text ----

  /** How a message goes on behind its header lines: not at all; with as many bytes as a content-length line says;
      in chunks; or up to the end of the connection. */
  datatype Framing = NoBody | Sized(at: nat, body: string) | InChunks(chunks: seq<Chunk>, z: LastChunk)
                   | ToTheEnd(rest: string)

  function BodyText(b: Framing): string {
    match b
    case NoBody => []
    case Sized(at, body) => body
    case InChunks(chunks, z) => Encode(chunks, z)
    case ToTheEnd(rest) => rest
  }

  /** The header lines, the empty line, the body. */
  function MessageText(hs: seq<Entry>, b: Framing): string {
    Lines(hs) + ([CR, LF] + BodyText(b))
  }

  /** Statuses whose responses never have a body: section 3.3.3 of RFC 7230. */
  predicate Bodiless(status: nat) {
    100 <= status < 200 || status == 204 || status == 304
  }

  /** The lines but the one at `at` are not content-length. */
  predicate OtherLinesOk(hs: seq<Entry>, at: int) {
    forall i :: 0 <= i < |hs| && i != at ==> LineOk(hs[i])
  }

  /** Header lines that announce this body, or none; a content-length line may stand anywhere among them. */
  predicate Announced(typ: ParserType, status: nat, hs: seq<Entry>, b: Framing) {
    && OtherLinesOk(hs, if b.Sized? then b.at else -1)
    && AnnouncesChunks(hs) == b.InChunks?
    && match b
       case NoBody => typ == ParserType.Request || Bodiless(status)
       case Sized(at, body) => at < |hs| && LengthLine(hs[at]) && DecValue(hs[at].value) == |body|
       case InChunks(chunks, z) => (forall i :: 0 <= i < |chunks| ==> ChunkOk(chunks[i])) && LastOk(z)
       case ToTheEnd(rest) => typ == ParserType.Response && !Bodiless(status)
  }

  /** The message asks for another protocol: an upgrade header with a value, and a connection line that names
      upgrade; in a response, only when it agrees. */
  predicate SwitchesOver(typ: ParserType, status: nat, hs: seq<Entry>) {
    && SomeLineNames(hs, "upgrade") && SomeProtocol(hs)
    && (typ == ParserType.Request || status == 101)
  }

  /** The connection can carry another message: from version 1.1 on unless some connection line names close, before
      only if one names keep-alive. */
  predicate StaysOpen(major: nat, minor: nat, hs: seq<Entry>) {
    if major > 0 && minor > 0 then !SomeLineNames(hs, "close") else SomeLineNames(hs, "keep-alive")
  }

  /** All header lines of a message: those of the trailer too. */
  function AllLines(hs: seq<Entry>, b: Framing): seq<Entry> {
    if b.InChunks? then hs + b.z.trailer else hs
  }

  /** Where the parser is behind a message. */
  function BehindMessage(typ: ParserType, major: nat, minor: nat, hs: seq<Entry>, b: Framing): State {
    if b.ToTheEnd? then BodyIdentityEof
    else if !StaysOpen(major, minor, AllLines(hs, b)) then Dead
    else if typ == ParserType.Request then StartReq
    else StartRes
  }

  /** The bytes of the header limit that the message leaves counted: the trailer and the empty line behind it. */
  function Carried(b: Framing): nat {
    if b.InChunks? then |Lines(b.z.trailer)| + 2 else 0
  }

  function BodyEvents(b: Framing): seq<Event> {
    match b
    case NoBody => [MessageComplete]
    case Sized(at, body) => if body == [] then [MessageComplete] else [Data(Body, body, false), MessageComplete]
    case InChunks(chunks, z) => Delivered(chunks, z.trailer)
    case ToTheEnd(rest) => if rest == [] then [] else [Data(Body, rest, false)]
  }

  /** The callbacks of a message from its first header line on. */
  function MessageEvents(s: Parser, hs: seq<Entry>, b: Framing): seq<Event> {
    LinesEvents(hs) + [HeadersComplete(s.verb, s.major, s.minor, s.status, SwitchesOver(s.typ, s.status, hs))]
    + BodyEvents(b)
  }

  /** Behind a start line, where the first header line begins. */
  predicate AtFirstLine(s: Parser) {
    s.state.HeaderFieldStart? && s.flags == NO_FLAGS && s.length == NO_LENGTH && s.typ != ParserType.Both
  }

  /** What the header lines leave behind. */
  predicate HeadState(u: Parser, s: Parser, hs: seq<Entry>, b: Framing) {
    && u.state.HeaderFieldStart? && u.typ == s.typ && u.lenient == s.lenient && u.verb == s.verb && u.major == s.major && u.minor == s.minor
    && u.status == s.status && u.nread == s.nread + |Lines(hs)|
    && u.length == (if b.Sized? then |b.body| else NO_LENGTH)
    && HeadFlags(u.flags, hs, b)
  }

  predicate HeadFlags(f: Flags, hs: seq<Entry>, b: Framing) {
    && f.contentLength == b.Sized? && !f.trailing && !f.skipBody
    && f.chunked == AnnouncesChunks(hs)
    && f.close == SomeLineNames(hs, "close") && f.keepAlive == SomeLineNames(hs, "keep-alive")
    && f.connUpgrade == SomeLineNames(hs, "upgrade") && f.upgrade == SomeProtocol(hs)
  }

  lemma FlagsByText(hs: seq<Entry>, flags: Flags)
    requires OtherLinesOk(hs, -1)
    ensures AddsFlags(AfterLines(hs, flags), flags, hs)
  {
    hide AfterLines, SomeLineNames, SomeLineAsks, AnnouncesChunks, HasProtocol, IsName, IsPlainValue, Tokens;
    AfterLinesFlags(hs, flags);
    LinesByText(hs, "close");
    LinesByText(hs, "keep-alive");
    LinesByText(hs, "upgrade");
  }

  predicate SomeProtocol(hs: seq<Entry>) {
    exists i :: 0 <= i < |hs| && HasProtocol(hs[i])
  }

  /** What lines other than content-length add to the flags. */
  predicate AddsFlags(f: Flags, before: Flags, hs: seq<Entry>) {
    && f.contentLength == before.contentLength && f.trailing == before.trailing && f.skipBody == before.skipBody
    && (f.chunked <==> before.chunked || AnnouncesChunks(hs))
    && (f.close <==> before.close || SomeLineNames(hs, "close"))
    && (f.keepAlive <==> before.keepAlive || SomeLineNames(hs, "keep-alive"))
    && (f.connUpgrade <==> before.connUpgrade || SomeLineNames(hs, "upgrade"))
    && (f.upgrade <==> before.upgrade || SomeProtocol(hs))
  }

  /** The header lines, the content-length line among them. */
  lemma HeadRead(st: Settings, m: Machine, s: Parser, hs: seq<Entry>, b: Framing)
    requires m.out.Going? && m.s == s && AtFirstLine(s) && ClosedLog(m.log) && Announced(s.typ, s.status, hs, b)
    requires s.nread + |Lines(hs)| + 2 <= MAX_HEADER_SIZE
    ensures var r := Run(st, m, Lines(hs));
            && AtLine(r)
            && Settled(r).log == m.log + LinesEvents(hs) && Settled(r).n == m.n + |Lines(hs)| && Settled(r).out == Going
            && ClosedLog(Settled(r).log) && HeadState(Settled(r).s, s, hs, b)
  {
    hide *;
    AnnouncedHas(s.typ, s.status, hs, b);
    AtFirstLineHas(s);
    var r := Run(st, m, Lines(hs));
    if b.Sized? {
      SizedLinesRead(st, m, s, hs, b.at);
      SizedHead(s, hs, b, r.s);
    } else {
      OtherLines(hs);
      LinesRead(st, m, s, hs);
      FlagsByText(hs, NO_FLAGS);
      BareHead(s, hs, b, r.s);
    }
    AtLineGoes(r);
  }

  lemma OtherLines(hs: seq<Entry>)
    ensures OtherLinesOk(hs, -1) <==> forall i :: 0 <= i < |hs| ==> LineOk(hs[i])
  {
    hide LineOk;
  }

  lemma AtFirstLineHas(s: Parser)
    requires AtFirstLine(s)
    ensures s.state.HeaderFieldStart? && s.flags == NO_FLAGS && s.length == NO_LENGTH && !s.flags.contentLength
    ensures s.typ != ParserType.Both
  {
  }

  lemma AnnouncedHas(typ: ParserType, status: nat, hs: seq<Entry>, b: Framing)
    requires Announced(typ, status, hs, b)
    ensures !b.Sized? ==> OtherLinesOk(hs, -1)
    ensures b.Sized? ==> OtherLinesOk(hs, b.at) && b.at < |hs| && LengthLine(hs[b.at]) && AllNum(hs[b.at].value)
                         && DecValue(hs[b.at].value) == |b.body| <= MAX_LENGTH
    ensures AnnouncesChunks(hs) == b.InChunks?
  {
    hide LineOk, AnnouncesChunks, AllNum, DecValue, IsName, Tokens, OtherLinesOk;
  }

  lemma BareHead(s: Parser, hs: seq<Entry>, b: Framing, t: Parser)
    requires AtFirstLine(s) && !b.Sized? && AddsFlags(AfterLines(hs, NO_FLAGS), NO_FLAGS, hs)
    ensures HeadState(BehindLine(s, s.nread + |Lines(hs)|, AfterLines(hs, s.flags), t), s, hs, b)
  {
    hide AfterLines, SomeLineNames, AnnouncesChunks, SomeProtocol;
  }

  /** The flags behind lines with a content-length line among them. */
  function SizedFlags(flags: Flags, hs: seq<Entry>, at: nat): Flags
    requires at < |hs|
  {
    AfterLines(hs[at + 1..], AfterLines(hs[..at], flags).(contentLength := true))
  }

  /** Header lines with a content-length line among them. */
  lemma SizedLinesRead(st: Settings, m: Machine, s: Parser, hs: seq<Entry>, at: nat)
    requires m.out.Going? && m.s == s && s.state.HeaderFieldStart? && !s.flags.contentLength && ClosedLog(m.log)
    requires OtherLinesOk(hs, at) && at < |hs| && LengthLine(hs[at]) && AllNum(hs[at].value)
    requires s.nread + |Lines(hs)| <= MAX_HEADER_SIZE
    ensures var r := Run(st, m, Lines(hs));
            && AtLine(r) && ClosedLog(Settled(r).log)
            && Settled(r) == Machine(BehindLine(s.(length := DecValue(hs[at].value)), s.nread + |Lines(hs)|,
                                                SizedFlags(s.flags, hs, at), r.s),
                                     m.log + LinesEvents(hs), m.n + |Lines(hs)|, Going)
  {
    hide *;
    var a, e, c := hs[..at], hs[at], hs[at + 1..];
    AroundLines(hs, at, m.log);
    OtherLines(a);
    OtherLines(c);
    LinesRead(st, m, s, a);
    var m1 := Run(st, m, Lines(a));
    var u := Settled(m1).s;
    BehindLineHas(s, s.nread + |Lines(a)|, AfterLines(a, s.flags), m1.s);
    KeepsLength(a, s.flags);
    LengthLineRead(st, Settled(m1), u, e);
    LengthFirst(e);
    AtLineGoes(Run(st, Settled(m1), Line(e)));
    SettlesRun(st, m1, Line(e));
    RunConcat(st, m, Lines(a), Line(e));
    var m2 := Run(st, m, Lines(a) + Line(e));
    var v := Settled(m2).s;
    BehindLineHas(u.(length := DecValue(e.value)), u.nread + |Line(e)|, u.flags.(contentLength := true), m2.s);
    LinesRead(st, Settled(m2), v, c);
    RunConcat(st, m, Lines(a) + Line(e), Lines(c));
    var r := Run(st, m, Lines(hs));
    if c == [] {
      NoLines(c);
      RunNil(st, m2);
      RunNil(st, Settled(m2));
      SettledTwice(m2);
      BehindLineSame(v, v.nread + |Lines(c)|, AfterLines(c, v.flags), Settled(m2).s, m2.s);
    } else {
      LinesFirst(c);
      AtLineGoes(Run(st, Settled(m2), Lines(c)));
      SettlesRun(st, m2, Lines(c));
    }
    SizedBehind(s, hs, at, m1.s, m2.s, r.s);
  }

  lemma BehindLineSame(s: Parser, n: nat, flags: Flags, t: Parser, t': Parser)
    requires t.hs == t'.hs && t.index == t'.index
    ensures BehindLine(s, n, flags, t) == BehindLine(s, n, flags, t')
  {
  }

  lemma KeepsLength(hs: seq<Entry>, flags: Flags)
    requires OtherLinesOk(hs, -1)
    ensures AfterLines(hs, flags).contentLength == flags.contentLength
  {
    hide *;
    FlagsByText(hs, flags);
    LengthKept(AfterLines(hs, flags), flags, hs);
  }

  lemma LengthKept(f: Flags, before: Flags, hs: seq<Entry>)
    requires AddsFlags(f, before, hs)
    ensures f.contentLength == before.contentLength
  {
  }

  lemma SizedBehind(s: Parser, hs: seq<Entry>, at: nat, t1: Parser, t2: Parser, t3: Parser)
    requires at < |hs| && |Lines(hs)| == |Lines(hs[..at])| + |Line(hs[at])| + |Lines(hs[at + 1..])| && AllNum(hs[at].value)
    ensures var v := DecValue(hs[at].value);
            var u := BehindLine(s, s.nread + |Lines(hs[..at])|, AfterLines(hs[..at], s.flags), t1);
            var w := BehindLine(u.(length := v), u.nread + |Line(hs[at])|, u.flags.(contentLength := true), t2);
            BehindLine(w, w.nread + |Lines(hs[at + 1..])|, AfterLines(hs[at + 1..], w.flags), t3)
            == BehindLine(s.(length := v), s.nread + |Lines(hs)|, SizedFlags(s.flags, hs, at), t3)
  {
    hide AfterLines, Lines, Line, DecValue, AllNum;
  }

  /** The texts and the callbacks of the lines around one. */
  lemma AroundLines(hs: seq<Entry>, at: nat, log: seq<Event>)
    requires at < |hs|
    ensures Lines(hs) == Lines(hs[..at]) + Line(hs[at]) + Lines(hs[at + 1..])
    ensures log + LinesEvents(hs[..at]) + LineEvents(hs[at]) + LinesEvents(hs[at + 1..]) == log + LinesEvents(hs)
    ensures ClosedLog(log + LinesEvents(hs[..at]) + LineEvents(hs[at]))
    ensures OtherLinesOk(hs, at) ==> OtherLinesOk(hs[..at], -1) && OtherLinesOk(hs[at + 1..], -1)
  {
    hide *;
    TextsAround(hs, at);
    EventsAround(hs, at);
    Threefold(log, LinesEvents(hs[..at]), LineEvents(hs[at]), LinesEvents(hs[at + 1..]));
    LineCloses(log + LinesEvents(hs[..at]), hs[at]);
    OthersAround(hs, at);
  }

  lemma SplitAt(hs: seq<Entry>, at: nat)
    requires at < |hs|
    ensures hs == (hs[..at] + [hs[at]]) + hs[at + 1..]
  {
  }

  lemma TextsAround(hs: seq<Entry>, at: nat)
    requires at < |hs|
    ensures Lines(hs) == (Lines(hs[..at]) + Line(hs[at])) + Lines(hs[at + 1..])
  {
    hide *;
    SplitAt(hs, at);
    LinesConcat(hs[..at] + [hs[at]], hs[at + 1..]);
    LinesConcat(hs[..at], [hs[at]]);
    LinesOne(hs[at]);
  }

  lemma EventsAround(hs: seq<Entry>, at: nat)
    requires at < |hs|
    ensures LinesEvents(hs) == (LinesEvents(hs[..at]) + LineEvents(hs[at])) + LinesEvents(hs[at + 1..])
  {
    hide *;
    SplitAt(hs, at);
    EventsConcat(hs[..at] + [hs[at]], hs[at + 1..]);
    EventsConcat(hs[..at], [hs[at]]);
    EventsOne(hs[at]);
  }

  lemma Threefold(log: seq<Event>, x: seq<Event>, y: seq<Event>, z: seq<Event>)
    ensures log + x + y + z == log + ((x + y) + z)
  {
  }

  lemma LineCloses(log: seq<Event>, e: Entry)
    ensures ClosedLog(log + LineEvents(e))
  {
  }

  lemma OthersAround(hs: seq<Entry>, at: nat)
    requires at < |hs|
    ensures OtherLinesOk(hs, at) ==> OtherLinesOk(hs[..at], -1) && OtherLinesOk(hs[at + 1..], -1)
  {
    hide LineOk;
    var c := hs[at + 1..];
    assert forall i :: 0 <= i < |c| ==> c[i] == hs[i + at + 1];
  }

  lemma EventsOne(e: Entry)
    ensures LinesEvents([e]) == LineEvents(e)
  {
    assert [e][..0] == [];
  }

  lemma SizedHead(s: Parser, hs: seq<Entry>, b: Framing, t: Parser)
    requires AtFirstLine(s) && b.Sized? && b.at < |hs| && OtherLinesOk(hs, b.at) && LengthLine(hs[b.at])
    ensures HeadState(BehindLine(s.(length := |b.body|), s.nread + |Lines(hs)|, SizedFlags(s.flags, hs, b.at), t), s, hs, b)
  {
    hide AfterLines, SomeLineNames, AnnouncesChunks, SomeProtocol, LineOk, Lines, LengthLine;
    var a, c := hs[..b.at], hs[b.at + 1..];
    AroundFacts(hs, b.at);
    FlagsByText(a, NO_FLAGS);
    FlagsByText(c, AfterLines(a, NO_FLAGS).(contentLength := true));
  }

  /** A content-length line asks for nothing else. */
  lemma AroundFacts(hs: seq<Entry>, at: nat)
    requires at < |hs| && OtherLinesOk(hs, at) && LengthLine(hs[at])
    ensures var a, c := hs[..at], hs[at + 1..];
            && OtherLinesOk(a, -1) && OtherLinesOk(c, -1)
            && (AnnouncesChunks(hs) <==> AnnouncesChunks(a) || AnnouncesChunks(c))
            && (SomeProtocol(hs) <==> SomeProtocol(a) || SomeProtocol(c))
            && (forall t :: SomeLineNames(hs, t) <==> SomeLineNames(a, t) || SomeLineNames(c, t))
  {
    hide LineOk, HasProtocol, SaysChunked, IsConnectionName, TextNames, LengthLine;
    var a, e, c := hs[..at], hs[at], hs[at + 1..];
    LengthLineAlone(e);
    assert forall i :: 0 <= i < |a| ==> a[i] == hs[i];
    assert forall i :: at < i < |hs| ==> hs[i] == c[i - at - 1];
    assert forall i :: 0 <= i < |c| ==> c[i] == hs[i + at + 1];
  }

  lemma LengthLineAlone(e: Entry)
    requires LengthLine(e)
    ensures !HasProtocol(e) && !SaysChunked(e) && !IsConnectionName(e.key)
  {
    hide IsName, Tokens, AllNum, DecValue;
    LengthWords();
  }

  lemma LengthWords()
    ensures "content-length" != CONNECTION && "content-length" != PROXY_CONNECTION && "content-length" != UPGRADE
    ensures "content-length" != TRANSFER_ENCODING
  {
  }

  lemma LengthFirst(e: Entry)
    requires LengthLine(e)
    ensures Line(e) != [] && NotBlank(Line(e)[0])
  {
    hide AllNum, DecValue, Tokens;
    NoBlankToken();
    hide IsToken;
    assert IsToken(e.key[0]) by {
      NameToken(e.key);
    }
  }

  lemma NoBlankToken()
    ensures !IsToken(' ') && !IsToken('\t')
  {
  }

  lemma NameToken(name: string)
    requires IsName(name)
    ensures name != [] && IsToken(name[0])
  {
    hide IsToken;
  }

  /** What the end of the header section makes of the lines. */
  lemma HeadMeans(u: Parser, s: Parser, hs: seq<Entry>, b: Framing)
    requires HeadState(u, s, hs, b) && AtFirstLine(s) && Announced(s.typ, s.status, hs, b) && s.verb != CONNECT
    ensures Ending(u) && Switches(u) == SwitchesOver(s.typ, s.status, hs) && u.state.HeaderFieldStart?
    ensures Complete(u) == HeadersComplete(s.verb, s.major, s.minor, s.status, SwitchesOver(s.typ, s.status, hs))
    ensures u.flags.chunked == b.InChunks?
    ensures b.NoBody? ==> Unframed(u) && !NeedsEof(u)
    ensures b.ToTheEnd? ==> Unframed(u) && NeedsEof(u) && !Switches(u)
    ensures b.Sized? ==> u.length == |b.body| < NO_LENGTH && !NeedsEof(u)
  {
    hide SomeLineNames, AnnouncesChunks, SomeProtocol, Lines, LineOk, AllNum, DecValue, IsName, Tokens, ChunkOk, LastOk;
  }

  /** Where NEW_MESSAGE leads, by the text of the lines. */
  lemma NextByText(t: Parser, s: Parser, hs: seq<Entry>, b: Framing)
    requires !b.ToTheEnd? && s.typ != ParserType.Both
    requires t.typ == s.typ && t.major == s.major && t.minor == s.minor && !NeedsEof(t)
    requires t.flags.close == SomeLineNames(AllLines(hs, b), "close")
    requires t.flags.keepAlive == SomeLineNames(AllLines(hs, b), "keep-alive")
    ensures NewMessage(t) == BehindMessage(s.typ, s.major, s.minor, hs, b)
  {
    hide SomeLineNames;
  }

  lemma HeadFields(u: Parser, s: Parser, hs: seq<Entry>, b: Framing)
    requires HeadState(u, s, hs, b)
    ensures u.typ == s.typ && u.major == s.major && u.minor == s.minor
    ensures u.flags.close == SomeLineNames(hs, "close") && u.flags.keepAlive == SomeLineNames(hs, "keep-alive")
  {
    hide SomeLineNames, AnnouncesChunks, SomeProtocol, Lines;
  }

  /** The empty line and the body. */
  lemma TailRead(st: Settings, m: Machine, u: Parser, s: Parser, hs: seq<Entry>, b: Framing)
    requires m.out.Going? && m.s == u && HeadState(u, s, hs, b) && AtFirstLine(s) && Announced(s.typ, s.status, hs, b)
    requires s.verb != CONNECT
    requires ClosedLog(m.log) && st.headersAnswer == 0 && u.nread + 2 <= MAX_HEADER_SIZE
    ensures var tail := [CR, LF] + BodyText(b);
            && Ended(Run(st, m, tail), m.n + |tail|, SwitchesOver(s.typ, s.status, hs),
                     BehindMessage(s.typ, s.major, s.minor, hs, b), m.log + ([Complete(u)] + BodyEvents(b)), u, Carried(b))
            && (!b.ToTheEnd? ==> CompletesAt(st, m, tail))
  {
    hide *;
    HeadMeans(u, s, hs, b);
    HeadFields(u, s, hs, b);
    AtFirstLineHas(s);
    EndRead(st, m, u);
    match b {
      case NoBody => BareTail(st, m, u, s, hs, b);
      case Sized(at, body) =>
        if body == [] {
          BareTail(st, m, u, s, hs, b);
        } else {
          SizedTail(st, m, u, s, hs, b);
        }
      case InChunks(chunks, z) => ChunkedTail(st, m, u, s, hs, b);
      case ToTheEnd(rest) => RestTail(st, m, u, s, hs, b);
    }
  }

  /** The case of TailRead in which the empty line ends the message. */
  lemma BareTail(st: Settings, m: Machine, u: Parser, s: Parser, hs: seq<Entry>, b: Framing)
    requires b.NoBody? || (b.Sized? && b.body == [])
    requires !NeedsEof(u) && s.typ != ParserType.Both && Switches(u) == SwitchesOver(s.typ, s.status, hs)
    requires u.typ == s.typ && u.major == s.major && u.minor == s.minor
    requires u.flags.close == SomeLineNames(hs, "close") && u.flags.keepAlive == SomeLineNames(hs, "keep-alive")
    requires Ended(Run(st, m, [CR, LF]), m.n + 2, Switches(u), NewMessage(u), m.log + [Complete(u), MessageComplete], u, 0)
    requires CompletesAt(st, m, [CR, LF])
    ensures var tail := [CR, LF] + BodyText(b);
            && Ended(Run(st, m, tail), m.n + |tail|, SwitchesOver(s.typ, s.status, hs),
                     BehindMessage(s.typ, s.major, s.minor, hs, b), m.log + ([Complete(u)] + BodyEvents(b)), u, Carried(b))
            && CompletesAt(st, m, tail)
  {
    hide *;
    AllLinesAre(hs, b);
    NextByText(u, s, hs, b);
    BareText(b, Complete(u));
  }

  lemma BareText(b: Framing, c: Event)
    requires b.NoBody? || (b.Sized? && b.body == [])
    ensures Carried(b) == 0
    ensures [CR, LF] + BodyText(b) == [CR, LF] && [c] + BodyEvents(b) == [c, MessageComplete]
  {
  }

  /** The case of TailRead with a body of known length. */
  lemma SizedTail(st: Settings, m: Machine, u: Parser, s: Parser, hs: seq<Entry>, b: Framing)
    requires b.Sized? && b.body != [] && u.length == |b.body| && ClosedLog(m.log)
    requires s.typ != ParserType.Both && Switches(u) == SwitchesOver(s.typ, s.status, hs)
    requires u.typ == s.typ && u.major == s.major && u.minor == s.minor
    requires u.flags.close == SomeLineNames(hs, "close") && u.flags.keepAlive == SomeLineNames(hs, "keep-alive")
    requires BodyToCome(Run(st, m, [CR, LF]), m, u, BodyIdentity)
    ensures var tail := [CR, LF] + BodyText(b);
            && Ended(Run(st, m, tail), m.n + |tail|, SwitchesOver(s.typ, s.status, hs),
                     BehindMessage(s.typ, s.major, s.minor, hs, b), m.log + ([Complete(u)] + BodyEvents(b)), u, Carried(b))
            && CompletesAt(st, m, tail)
  {
    hide *;
    var r := Run(st, m, [CR, LF]);
    ToComeHas(r, m, u, BodyIdentity);
    BodyRead(st, r, r.s, b.body);
    RunConcat(st, m, [CR, LF], b.body);
    CompletesLater(st, m, [CR, LF], b.body);
    var t := r.s.(length := 0);
    LengthKnown(t);
    AllLinesAre(hs, b);
    NextByText(t, s, hs, b);
    SizedText(b, m.log, Complete(u));
    EndedHas(Run(st, r, b.body));
    EndedIs(Run(st, r, b.body), m.n + 2 + |b.body|, r.s.upgrade, m.log + ([Complete(u)] + BodyEvents(b)), u);
  }

  lemma SizedText(b: Framing, log: seq<Event>, c: Event)
    requires b.Sized? && b.body != []
    ensures BodyText(b) == b.body && Carried(b) == 0
    ensures log + [c] + [Data(Body, b.body, false), MessageComplete] == log + ([c] + BodyEvents(b))
  {
  }

  lemma LengthKnown(t: Parser)
    requires t.length == 0 || t.flags.chunked
    ensures !NeedsEof(t)
  {
  }

  lemma ToComeHas(r: Machine, m: Machine, u: Parser, next: State)
    requires BodyToCome(r, m, u, next)
    ensures r == Machine(r.s, m.log + [Complete(u)], m.n + 2, Going)
    ensures r.s.state == next && r.s.nread == 0 && r.s.upgrade == Switches(u) && ClosedLog(r.log)
    ensures r.s.length == u.length && r.s.flags == u.flags && r.s.typ == u.typ && r.s.lenient == u.lenient && r.s.major == u.major && r.s.minor == u.minor
  {
  }

  /** The case of TailRead with a body in chunks. */
  lemma ChunkedTail(st: Settings, m: Machine, u: Parser, s: Parser, hs: seq<Entry>, b: Framing)
    requires b.InChunks? && ClosedLog(m.log) && Announced(s.typ, s.status, hs, b) && u.flags.chunked
    requires s.typ != ParserType.Both && Switches(u) == SwitchesOver(s.typ, s.status, hs)
    requires u.typ == s.typ && u.major == s.major && u.minor == s.minor
    requires u.flags.close == SomeLineNames(hs, "close") && u.flags.keepAlive == SomeLineNames(hs, "keep-alive")
    requires BodyToCome(Run(st, m, [CR, LF]), m, u, ChunkSizeStart)
    ensures var tail := [CR, LF] + BodyText(b);
            && Ended(Run(st, m, tail), m.n + |tail|, SwitchesOver(s.typ, s.status, hs),
                     BehindMessage(s.typ, s.major, s.minor, hs, b), m.log + ([Complete(u)] + BodyEvents(b)), u, Carried(b))
            && CompletesAt(st, m, tail)
  {
    hide *;
    var r, body := Run(st, m, [CR, LF]), Encode(b.chunks, b.z);
    ToComeHas(r, m, u, ChunkSizeStart);
    ChunksHave(s.typ, s.status, hs, b);
    DecodeInvertsEncode(st, r, r.s, b.chunks, b.z);
    RunConcat(st, m, [CR, LF], body);
    CompletesLater(st, m, [CR, LF], body);
    var e := Run(st, r, body).s;
    var t := AfterChunks(r.s, b.z, e);
    TrailerByText(r.s, s, hs, b, t);
    LengthKnown(t);
    NextByText(t, s, hs, b);
    ChunkedText(b, m.log, Complete(u));
    EndedIs(Run(st, m, [CR, LF] + body), m.n + |[CR, LF] + body|, r.s.upgrade, m.log + ([Complete(u)] + BodyEvents(b)), u);
  }

  /** The parser at the byte that ends the last chunk. */
  function AfterChunks(s: Parser, z: LastChunk, e: Parser): (t: Parser)
    ensures AfterBody(s, z.trailer, e) == t.(state := NewMessage(t)) && AfterBody(s, z.trailer, e).state == NewMessage(t)
    ensures t.typ == s.typ && t.major == s.major && t.minor == s.minor
    ensures t.upgrade == s.upgrade == AfterBody(s, z.trailer, e).upgrade
    ensures t.flags == AfterLines(z.trailer, s.flags.(trailing := true))
    ensures AfterBody(s, z.trailer, e).typ == s.typ && AfterBody(s, z.trailer, e).lenient == s.lenient
    ensures AfterBody(s, z.trailer, e).nread == |Lines(z.trailer)| + 2
  {
    hide AfterLines, Lines;
    AtBodyEnd(s, z.trailer, e)
  }

  /** The trailer's lines count like the others. */
  lemma TrailerByText(u: Parser, s: Parser, hs: seq<Entry>, b: Framing, t: Parser)
    requires b.InChunks? && LastOk(b.z) && u.flags.chunked && t.flags == AfterLines(b.z.trailer, u.flags.(trailing := true))
    requires u.flags.close == SomeLineNames(hs, "close") && u.flags.keepAlive == SomeLineNames(hs, "keep-alive")
    ensures t.flags.chunked && t.flags.close == SomeLineNames(AllLines(hs, b), "close")
    ensures t.flags.keepAlive == SomeLineNames(AllLines(hs, b), "keep-alive")
  {
    hide *;
    var ts := b.z.trailer;
    LastHas(b.z);
    OtherLines(ts);
    FlagsByText(ts, u.flags.(trailing := true));
    FlagsAdd(t.flags, u.flags.(trailing := true), ts);
    AllLinesAre(hs, b);
    NamesInBoth(hs, ts, "close");
    NamesInBoth(hs, ts, "keep-alive");
  }

  lemma FlagsAdd(f: Flags, before: Flags, hs: seq<Entry>)
    requires AddsFlags(f, before, hs)
    ensures (before.chunked ==> f.chunked) && (f.close <==> before.close || SomeLineNames(hs, "close"))
    ensures f.keepAlive <==> before.keepAlive || SomeLineNames(hs, "keep-alive")
  {
    hide SomeLineNames, AnnouncesChunks, SomeProtocol;
  }

  lemma AllLinesAre(hs: seq<Entry>, b: Framing)
    ensures AllLines(hs, b) == if b.InChunks? then hs + b.z.trailer else hs
  {
  }

  lemma NamesInBoth(a: seq<Entry>, c: seq<Entry>, t: string)
    ensures SomeLineNames(a + c, t) <==> SomeLineNames(a, t) || SomeLineNames(c, t)
  {
    hide IsConnectionName, TextNames;
    var hs := a + c;
    assert forall i :: 0 <= i < |a| ==> a[i] == hs[i];
    assert forall i :: |a| <= i < |hs| ==> hs[i] == c[i - |a|];
    assert forall i :: 0 <= i < |c| ==> c[i] == hs[i + |a|];
  }

  lemma ChunksHave(typ: ParserType, status: nat, hs: seq<Entry>, b: Framing)
    requires b.InChunks? && Announced(typ, status, hs, b)
    ensures (forall i :: 0 <= i < |b.chunks| ==> ChunkOk(b.chunks[i])) && LastOk(b.z)
  {
    hide ChunkOk, LastOk, LineOk, AnnouncesChunks;
  }

  lemma ChunkedText(b: Framing, log: seq<Event>, c: Event)
    requires b.InChunks?
    ensures BodyText(b) == Encode(b.chunks, b.z) && Carried(b) == |Lines(b.z.trailer)| + 2
    ensures log + [c] + Delivered(b.chunks, b.z.trailer) == log + ([c] + BodyEvents(b))
  {
    hide Encode, Delivered, Lines;
  }

  /** The case of TailRead with a body up to the end of the connection. */
  lemma RestTail(st: Settings, m: Machine, u: Parser, s: Parser, hs: seq<Entry>, b: Framing)
    requires b.ToTheEnd? && ClosedLog(m.log) && !Switches(u) && Switches(u) == SwitchesOver(s.typ, s.status, hs)
    requires BodyToCome(Run(st, m, [CR, LF]), m, u, BodyIdentityEof)
    ensures var tail := [CR, LF] + BodyText(b);
            Ended(Run(st, m, tail), m.n + |tail|, SwitchesOver(s.typ, s.status, hs),
                  BehindMessage(s.typ, s.major, s.minor, hs, b), m.log + ([Complete(u)] + BodyEvents(b)), u, Carried(b))
  {
    hide *;
    var r := Run(st, m, [CR, LF]);
    ToComeHas(r, m, u, BodyIdentityEof);
    RestRead(st, r, r.s, b.rest);
    RunConcat(st, m, [CR, LF], b.rest);
    RestText(b, s, hs, m.log, Complete(u));
    EndedIs(Run(st, m, [CR, LF] + b.rest), m.n + 2 + |b.rest|, r.s.upgrade, m.log + ([Complete(u)] + BodyEvents(b)), u);
  }

  lemma RestText(b: Framing, s: Parser, hs: seq<Entry>, log: seq<Event>, c: Event)
    requires b.ToTheEnd?
    ensures Carried(b) == 0 && BodyText(b) == b.rest && BehindMessage(s.typ, s.major, s.minor, hs, b) == BodyIdentityEof
    ensures (if b.rest == [] then log + [c] else log + [c] + [Data(Body, b.rest, false)]) == log + ([c] + BodyEvents(b))
  {
    hide StaysOpen;
    assert [c] + [] == [c];
  }

  /** Message framing. Behind any start line but that of CONNECT, header lines and the body they announce make their
      callbacks, once each and in order; a message that ends by itself ends at its last byte, with one completion; and
      then the parser is where the text of the lines says: between messages, dead because the connection is to close,
      or out of HTTP. A body without an end of its own runs on. */
  lemma MessageFramed(st: Settings, m: Machine, s: Parser, hs: seq<Entry>, b: Framing)
    requires m.out.Going? && m.s == s && AtFirstLine(s) && s.verb != CONNECT && ClosedLog(m.log) && st.headersAnswer == 0
    requires Announced(s.typ, s.status, hs, b) && s.nread + |Lines(hs)| + 2 <= MAX_HEADER_SIZE
    ensures var text, r := MessageText(hs, b), Run(st, m, MessageText(hs, b));
            && r.n == m.n + |text| && r.log == m.log + MessageEvents(s, hs, b)
            && r.out == (if SwitchesOver(s.typ, s.status, hs) then Left(r.n) else Going)
            && r.s.upgrade == SwitchesOver(s.typ, s.status, hs)
            && r.s.state == BehindMessage(s.typ, s.major, s.minor, hs, b)
            && r.s.typ == s.typ && r.s.lenient == s.lenient && r.s.nread == Carried(b)
            && (!b.ToTheEnd? ==> CompletesAt(st, m, text))
  {
    hide *;
    var head, tail := Lines(hs), [CR, LF] + BodyText(b);
    HeadRead(st, m, s, hs, b);
    var m1 := Run(st, m, head);
    var u := Settled(m1).s;
    HeadMeans(u, s, hs, b);
    HeadCount(u, s, hs, b);
    TailRead(st, Settled(m1), u, s, hs, b);
    EndedHas(Run(st, Settled(m1), tail));
    CrFirst(tail, BodyText(b));
    SettlesRun(st, m1, tail);
    RunConcat(st, m, head, tail);
    if !b.ToTheEnd? {
      CompletesSettled(st, m1, tail);
      CompletesLater(st, m, head, tail);
    }
    TextSplits(hs, b);
    EventsSplit(m.log, s, hs, b, Complete(u));
  }

  lemma HeadCount(u: Parser, s: Parser, hs: seq<Entry>, b: Framing)
    requires HeadState(u, s, hs, b)
    ensures u.nread == s.nread + |Lines(hs)| && u.typ == s.typ && u.lenient == s.lenient
  {
    hide SomeLineNames, AnnouncesChunks, SomeProtocol, Lines;
  }

  lemma EndedHas(r: Machine)
    ensures forall n, upgrade, next, log, s, k :: Ended(r, n, upgrade, next, log, s, k) ==>
              && r.n == n && r.out == (if upgrade then Left(n) else Going) && r.log == log && r.s.upgrade == upgrade
              && r.s.state == next && r.s.typ == s.typ && r.s.lenient == s.lenient && r.s.nread == k
  {
  }

  lemma TextSplits(hs: seq<Entry>, b: Framing)
    ensures MessageText(hs, b) == Lines(hs) + ([CR, LF] + BodyText(b))
  {
    hide Lines;
  }

  lemma EventsSplit(log: seq<Event>, s: Parser, hs: seq<Entry>, b: Framing, c: Event)
    requires c == HeadersComplete(s.verb, s.major, s.minor, s.status, SwitchesOver(s.typ, s.status, hs))
    ensures log + LinesEvents(hs) + ([c] + BodyEvents(b)) == log + MessageEvents(s, hs, b)
  {
    hide LinesEvents, BodyEvents, SwitchesOver;
  }

  // ---- CONNECT ----

  /** What the end of the header section of CONNECT makes. */
  function Connected(s: Parser): Event {
    HeadersComplete(CONNECT, s.major, s.minor, s.status, true)
  }

  lemma ConnectStep(st: Settings, s: Parser, n: nat)
    requires s.verb == CONNECT && s.typ == ParserType.Request && n < MAX_HEADER_SIZE && st.headersAnswer == 0
    requires !s.flags.trailing && !s.flags.skipBody && !(s.flags.chunked && s.flags.contentLength)
    ensures OpenKind(AtHeadersEnd(s, n).state) == None
    ensures Step(st, AtHeadersEnd(s, n), LF)
         == Leave(s.(state := NewMessage(s), nread := 0, upgrade := true), Calls(None, [Connected(s)] + [MessageComplete], None))
  {
    hide *;
    ConnectByte(st, s, n);
    ConnectDone(s, n + 1);
  }

  lemma ConnectByte(st: Settings, s: Parser, n: nat)
    requires s.verb == CONNECT && s.typ == ParserType.Request && n < MAX_HEADER_SIZE && st.headersAnswer == 0
    requires !s.flags.trailing && !s.flags.skipBody && !(s.flags.chunked && s.flags.contentLength)
    ensures OpenKind(AtHeadersEnd(s, n).state) == None
    ensures Step(st, AtHeadersEnd(s, n), LF) == HeadersDoneByte(AtHeadersEnd(s, n + 1).(upgrade := true), [Connected(s)])
  {
    hide HeadersDoneByte;
    assert s.flags.(skipBody := s.flags.skipBody || st.headersAnswer != 0) == s.flags;
  }

  lemma ConnectDone(s: Parser, n: nat)
    requires s.verb == CONNECT
    ensures HeadersDoneByte(AtHeadersEnd(s, n).(upgrade := true), [Connected(s)])
         == Leave(s.(state := NewMessage(s), nread := 0, upgrade := true), Calls(None, [Connected(s)] + [MessageComplete], None))
  {
  }

  lemma ConnectTail(st: Settings, m: Machine, u: Parser)
    requires m.out.Going? && m.s == u && u.state.HeaderFieldStart? && u.nread + 2 <= MAX_HEADER_SIZE && st.headersAnswer == 0
    requires u.verb == CONNECT && u.typ == ParserType.Request
    requires !u.flags.trailing && !u.flags.skipBody && !(u.flags.chunked && u.flags.contentLength)
    ensures Ended(Run(st, m, [CR, LF]), m.n + 2, true, NewMessage(u), m.log + [Connected(u), MessageComplete], u, 0)
  {
    hide *;
    EndCr(st, u);
    RunNil(st, m);
    RunSilent(st, m, [], CR, AtHeadersEnd(u, u.nread + 1));
    assert [] + [CR] == [CR] && [CR] + [LF] == [CR, LF];
    ConnectStep(st, u, u.nread + 1);
    RunSnoc(st, m, [CR], LF);
    ConnectedNote(u);
    BothNoted(m.log, Connected(u), MessageComplete, LF);
    NextIs(st, Run(st, m, [CR]), LF);
    EndedIs(Run(st, m, [CR, LF]), m.n + 2, true, m.log + [Connected(u), MessageComplete], u);
  }

  lemma ConnectedNote(s: Parser)
    ensures !Connected(s).Data? && !MessageComplete.Data?
  {
  }

  /** A CONNECT request leaves HTTP at its empty line. */
  lemma ConnectFramed(st: Settings, m: Machine, s: Parser, hs: seq<Entry>)
    requires m.out.Going? && m.s == s && AtFirstLine(s) && s.verb == CONNECT && s.typ == ParserType.Request
    requires ClosedLog(m.log) && st.headersAnswer == 0
    requires Announced(s.typ, s.status, hs, NoBody) && s.nread + |Lines(hs)| + 2 <= MAX_HEADER_SIZE
    ensures var text, r := Lines(hs) + [CR, LF], Run(st, m, Lines(hs) + [CR, LF]);
            && r.n == m.n + |text| && r.out == Left(r.n) && r.s.upgrade
            && r.log == m.log + (LinesEvents(hs) + [Connected(s), MessageComplete])
  {
    hide *;
    HeadRead(st, m, s, hs, NoBody);
    var m1 := Run(st, m, Lines(hs));
    var u := Settled(m1).s;
    ConnectHead(u, s, hs);
    ConnectTail(st, Settled(m1), u);
    EndedHas(Run(st, Settled(m1), [CR, LF]));
    CrFirst([CR, LF] + [], []);
    assert [CR, LF] + [] == [CR, LF];
    SettlesRun(st, m1, [CR, LF]);
    RunConcat(st, m, Lines(hs), [CR, LF]);
    assert m.log + LinesEvents(hs) + [Connected(s), MessageComplete] == m.log + (LinesEvents(hs) + [Connected(s), MessageComplete]);
  }

  lemma ConnectHead(u: Parser, s: Parser, hs: seq<Entry>)
    requires HeadState(u, s, hs, NoBody) && s.verb == CONNECT && s.typ == ParserType.Request
    ensures u.state.HeaderFieldStart? && u.verb == CONNECT && u.typ == ParserType.Request && u.nread == s.nread + |Lines(hs)|
    ensures !u.flags.trailing && !u.flags.skipBody && !(u.flags.chunked && u.flags.contentLength)
    ensures Connected(u) == Connected(s)
  {
    hide SomeLineNames, AnnouncesChunks, SomeProtocol, Lines;
  }
}
