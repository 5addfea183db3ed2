/** Where a header section ends otherwise than MessageFramed says: two ways to frame a body are refused, and what the
    headers-complete callback answers can drop the body, leave HTTP or stop the parser. */
module HttpHeadEnd {
  import opened Wrappers
  import opened CaseMap
  import opened HttpChars
  import opened HttpTypes
  import opened HttpStep
  import opened HttpRun
  import opened HttpInvariant
  import opened HttpLength
  import opened HttpNames
  import opened HttpHeaderLines
  import opened HttpConnection
  import opened HttpFraming

  /** Header lines with one content-length line, whatever the others announce. */
  predicate OneLength(hs: seq<Entry>, at: nat) {
    at < |hs| && OtherLinesOk(hs, at) && LengthLine(hs[at])
  }

  lemma OneLengthHas(hs: seq<Entry>, at: nat)
    requires OneLength(hs, at)
    ensures at < |hs| && OtherLinesOk(hs, at) && LengthLine(hs[at]) && AllNum(hs[at].value)
  {
    hide OtherLinesOk, AllNum, DecValue, Tokens, IsName;
  }

  /** The state behind such lines. */
  lemma OneLengthRead(st: Settings, m: Machine, s: Parser, hs: seq<Entry>, at: nat)
    requires m.out.Going? && m.s == s && AtFirstLine(s) && ClosedLog(m.log) && OneLength(hs, at)
    requires s.nread + |Lines(hs)| <= MAX_HEADER_SIZE
    ensures var r := Run(st, m, Lines(hs));
            var u := Settled(r).s;
            && AtLine(r) && Settled(r).out.Going? && Settled(r).n == m.n + |Lines(hs)| && ClosedLog(Settled(r).log)
            && u.state.HeaderFieldStart? && u.nread == s.nread + |Lines(hs)| && !u.flags.trailing
            && u.flags.contentLength && u.flags.chunked == AnnouncesChunks(hs)
  {
    hide *;
    OneLengthHas(hs, at);
    AtFirstLineHas(s);
    SizedLinesRead(st, m, s, hs, at);
    var r := Run(st, m, Lines(hs));
    var b := Sized(at, seq(DecValue(hs[at].value), i => ' '));
    SizedHead(s, hs, b, r.s);
    LengthHead(Settled(r).s, s, hs, b);
  }

  lemma LengthHead(u: Parser, s: Parser, hs: seq<Entry>, b: Framing)
    requires HeadState(u, s, hs, b) && b.Sized?
    ensures u.state.HeaderFieldStart? && u.nread == s.nread + |Lines(hs)| && !u.flags.trailing
    ensures u.flags.contentLength && u.flags.chunked == AnnouncesChunks(hs)
  {
    hide SomeLineNames, AnnouncesChunks, SomeProtocol, Lines;
  }

  lemma ConflictStep(st: Settings, s: Parser, n: nat)
    requires n < MAX_HEADER_SIZE && !s.flags.trailing && s.flags.chunked && s.flags.contentLength
    ensures Step(st, AtHeadersEnd(s, n), LF) == Fail(UnexpectedContentLength)
  {
  }

  /** Chunked coding and a content-length line together are refused at the end of the header section, whatever their
      order. */
  lemma BothFramingsRefused(st: Settings, m: Machine, s: Parser, hs: seq<Entry>, at: nat)
    requires m.out.Going? && m.s == s && AtFirstLine(s) && ClosedLog(m.log) && OneLength(hs, at) && AnnouncesChunks(hs)
    requires s.nread + |Lines(hs)| + 2 <= MAX_HEADER_SIZE
    ensures Run(st, m, Lines(hs) + [CR, LF]).out == Failed(UnexpectedContentLength, m.n + |Lines(hs)| + 1)
  {
    hide *;
    OneLengthRead(st, m, s, hs, at);
    var m1 := Run(st, m, Lines(hs));
    var u := Settled(m1).s;
    CrRead(st, m1, u);
    ConflictStep(st, u, u.nread + 1);
    RunFail(st, m1, [CR], LF, UnexpectedContentLength);
    assert [CR] + [LF] == [CR, LF];
    RunConcat(st, m, Lines(hs), [CR, LF]);
  }

  lemma SecondLengthStep(st: Settings, s: Parser, n: nat, index: nat, d: char)
    requires n < MAX_HEADER_SIZE && s.flags.contentLength && IsNum(d)
    ensures Step(st, BehindName(s, n, ContentLength, index), d) == Fail(UnexpectedContentLength)
  {
  }

  /** A second content-length line is refused at its first digit, even if it says the same. */
  lemma TwoLengthsRefused(st: Settings, m: Machine, s: Parser, hs: seq<Entry>, at: nat, name: string, d: char)
    requires m.out.Going? && m.s == s && AtFirstLine(s) && ClosedLog(m.log) && OneLength(hs, at)
    requires IsName(name) && Tokens(name) == "content-length" && IsNum(d)
    requires s.nread + |Lines(hs)| + |name| + 3 <= MAX_HEADER_SIZE
    ensures Run(st, m, Lines(hs) + (name + [':'] + [' '] + [d])).out
         == Failed(UnexpectedContentLength, m.n + |Lines(hs)| + |name| + 2)
  {
    hide *;
    OneLengthRead(st, m, s, hs, at);
    var m1 := Run(st, m, Lines(hs));
    var u, head := Settled(m1).s, name + [':'] + [' '];
    var index := LengthNamePart(st, Settled(m1), u, name);
    NameToken(name);
    NoBlankToken();
    assert head[0] == name[0];
    TokenNotBlank(head[0]);
    SettlesRun(st, m1, head);
    BehindNameKeeps(u, u.nread + |head|, index);
    SecondLengthStep(st, u, u.nread + |head|, index, d);
    RunFail(st, m1, head, d, UnexpectedContentLength);
    RunConcat(st, m, Lines(hs), head + [d]);
  }

  lemma TokenNotBlank(c: char)
    requires IsToken(c) && !IsToken(' ') && !IsToken('\t')
    ensures NotBlank(c)
  {
    hide IsToken;
  }

  lemma BehindNameKeeps(s: Parser, n: nat, index: nat)
    ensures BehindName(s, n, ContentLength, index).flags == s.flags
  {
  }

  // ---- the answer of the headers-complete callback ----

  /** What a body would come behind no longer matters: it is skipped. */
  function Skipping(s: Parser, upgrade: bool): Parser {
    s.(state := NewMessage(s.(flags := s.flags.(skipBody := true))), nread := 0, upgrade := upgrade,
       flags := s.flags.(skipBody := true))
  }

  /** The parser as the callback's answer leaves it. */
  function Answered(s: Parser, n: nat, upgrade: bool): Parser {
    s.(state := HeadersAlmostDone, nread := n, upgrade := upgrade, flags := s.flags.(skipBody := true))
  }

  lemma AnswerStep(st: Settings, s: Parser, n: nat)
    requires Ending(s) && n < MAX_HEADER_SIZE && st.headersAnswer != 0
    ensures OpenKind(AtHeadersEnd(s, n).state) == None
    ensures var leaves := Switches(s) || st.headersAnswer == 2;
            var both := Calls(None, [Complete(s)] + [MessageComplete], None);
            Step(st, AtHeadersEnd(s, n), LF)
            == if st.headersAnswer != 1 && st.headersAnswer != 2 then Fail(CbHeadersComplete)
               else if leaves then Leave(Skipping(s, leaves), both) else Go(Skipping(s, leaves), both)
  {
    hide *;
    AnswerByte(st, s, n);
    AnswerDone(s, n + 1, Switches(s) || st.headersAnswer == 2, [Complete(s)]);
  }

  lemma AnswerByte(st: Settings, s: Parser, n: nat)
    requires Ending(s) && n < MAX_HEADER_SIZE && st.headersAnswer != 0
    ensures OpenKind(AtHeadersEnd(s, n).state) == None
    ensures Step(st, AtHeadersEnd(s, n), LF)
         == if st.headersAnswer != 1 && st.headersAnswer != 2 then Fail(CbHeadersComplete)
            else HeadersDoneByte(Answered(s, n + 1, Switches(s) || st.headersAnswer == 2), [Complete(s)])
  {
    hide HeadersDoneByte;
    assert s.flags.(skipBody := s.flags.skipBody || st.headersAnswer != 0) == s.flags.(skipBody := true);
  }

  lemma AnswerDone(s: Parser, n: nat, upgrade: bool, notes: seq<Event>)
    ensures var both, t := Calls(None, notes + [MessageComplete], None), Skipping(s, upgrade);
            HeadersDoneByte(Answered(s, n, upgrade), notes) == if upgrade then Leave(t, both) else Go(t, both)
  {
  }

  /** Answered 1, the callback drops whatever body was announced: the message is complete at its empty line. Answered 2,
      the parser leaves HTTP there as well. Any other answer but 0 stops the parser. */
  lemma AnswerDecides(st: Settings, m: Machine, s: Parser, hs: seq<Entry>, b: Framing)
    requires m.out.Going? && m.s == s && AtFirstLine(s) && s.verb != CONNECT && ClosedLog(m.log) && st.headersAnswer != 0
    requires Announced(s.typ, s.status, hs, b) && s.nread + |Lines(hs)| + 2 <= MAX_HEADER_SIZE
    ensures var text, r, switches := Lines(hs) + [CR, LF], Run(st, m, Lines(hs) + [CR, LF]), SwitchesOver(s.typ, s.status, hs);
            if st.headersAnswer != 1 && st.headersAnswer != 2 then r.out == Failed(CbHeadersComplete, m.n + |text| - 1)
            else
              && r.log == m.log + LinesEvents(hs)
                          + [HeadersComplete(s.verb, s.major, s.minor, s.status, switches), MessageComplete]
              && r.n == m.n + |text| && r.s.upgrade == (switches || st.headersAnswer == 2)
              && r.out == (if r.s.upgrade then Left(r.n) else Going)
              && r.s.state == BehindMessage(s.typ, s.major, s.minor, hs, NoBody)
  {
    hide *;
    HeadRead(st, m, s, hs, b);
    var m1 := Run(st, m, Lines(hs));
    var u := Settled(m1).s;
    HeadMeans(u, s, hs, b);
    HeadCount(u, s, hs, b);
    CrRead(st, m1, u);
    AnswerStep(st, u, u.nread + 1);
    assert [CR] + [LF] == [CR, LF];
    RunConcat(st, m, Lines(hs), [CR, LF]);
    if st.headersAnswer != 1 && st.headersAnswer != 2 {
      RunFail(st, m1, [CR], LF, CbHeadersComplete);
    } else {
      RunSnoc(st, m1, [CR], LF);
      CompleteNote(u);
      NoData();
      BothNoted(Settled(m1).log, Complete(u), MessageComplete, LF);
      NextIs(st, Run(st, m1, [CR]), LF);
      SkippedNext(u, s, hs, b);
    }
  }

  lemma NoData()
    ensures !MessageComplete.Data?
  {
  }

  lemma SkippedNext(u: Parser, s: Parser, hs: seq<Entry>, b: Framing)
    requires HeadState(u, s, hs, b) && AtFirstLine(s)
    ensures forall upgrade :: var t := Skipping(u, upgrade);
              t.upgrade == upgrade && t.state == BehindMessage(s.typ, s.major, s.minor, hs, NoBody)
  {
    hide SomeLineNames, AnnouncesChunks, SomeProtocol, Lines;
    NextByText(u.(flags := u.flags.(skipBody := true)), s, hs, NoBody);
  }
}
