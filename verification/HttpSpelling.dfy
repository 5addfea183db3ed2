/** Spellings that make no difference: blanks and empty lines that are passed over, and a line feed alone at the end of a
    line. Taking such a byte out of an input changes nothing but the count of header bytes. */
module HttpSpelling {
  import opened Wrappers
  import opened HttpChars
  import opened HttpTypes
  import opened HttpStep
  import opened HttpRun
  import opened HttpNames
  import opened HttpHeaderLines

  /** Equal but for the bytes counted, of which the first has counted at least as many. */
  predicate Near(x: Parser, y: Parser) {
    x == y.(nread := x.nread) && y.nread <= x.nread
  }

  predicate NearAct(x: Act, y: Act) {
    match (x, y)
    case (Go(a, f), Go(b, g)) => Near(a, b) && f == g
    case (Leave(a, f), Leave(b, g)) => Near(a, b) && f == g
    case (Fail(e), Fail(f)) => e == f
    case _ => false
  }

  lemma StartsNear(x: Parser, y: Parser, ch: char)
    requires Near(x, y)
    ensures NearAct(StartReqByte(x, ch), StartReqByte(y, ch)) && NearAct(StartResByte(x, ch), StartResByte(y, ch))
    ensures NearAct(StartReqOrResByte(x, ch), StartReqOrResByte(y, ch)) && NearAct(ResOrRespHByte(x, ch), ResOrRespHByte(y, ch))
  {
    hide FirstMethod;
  }

  lemma MethodNear(x: Parser, y: Parser, ch: char)
    requires Near(x, y)
    ensures NearAct(MethodByte(x, ch), MethodByte(y, ch))
  {
    hide MethodString, Rematch, CharAt;
  }

  lemma UrlNear(x: Parser, y: Parser, ch: char)
    requires Near(x, y)
    ensures NearAct(SpacesBeforeUrlByte(x, ch), SpacesBeforeUrlByte(y, ch))
    ensures NearAct(UrlByte(x, ch), UrlByte(y, ch)) && NearAct(UrlEndableByte(x, ch), UrlEndableByte(y, ch))
  {
    hide UrlChar;
  }

  lemma VersionNear(x: Parser, y: Parser, ch: char, next: State)
    requires Near(x, y)
    ensures NearAct(MajorByte(x, ch, next), MajorByte(y, ch, next)) && NearAct(MinorByte(x, ch, next), MinorByte(y, ch, next))
  {
    hide NearAct, Digit, IsNum;
    HereNear(x, y);
    if IsNum(ch) {
      HereNear(x.(major := Digit(ch)), y.(major := Digit(ch)));
      HereNear(x.(minor := Digit(ch)), y.(minor := Digit(ch)));
    }
  }

  lemma ProtocolNear(x: Parser, y: Parser, ch: char)
    requires Near(x, y)
    ensures NearAct(HttpStartByte(x, ch), HttpStartByte(y, ch)) && NearAct(HttpEndByte(x, ch), HttpEndByte(y, ch))
  {
    hide NearAct;
    HereNear(x, y);
  }

  lemma StatusNear(x: Parser, y: Parser, ch: char)
    requires Near(x, y)
    ensures NearAct(FirstStatusCodeByte(x, ch), FirstStatusCodeByte(y, ch)) && NearAct(StatusCodeByte(x, ch), StatusCodeByte(y, ch))
    ensures NearAct(StatusStartByte(x, ch), StatusStartByte(y, ch)) && NearAct(StatusByte(x, ch), StatusByte(y, ch))
  {
  }

  lemma LiteralNear(x: Parser, y: Parser, ch: char)
    requires Near(x, y) && LiteralOf(x.state).Some?
    ensures NearAct(LiteralByte(x, ch), LiteralByte(y, ch))
  {
    hide LiteralOf;
  }

  lemma NewMessageNear(x: Parser, y: Parser)
    requires Near(x, y)
    ensures NewMessage(x) == NewMessage(y) && AfterHeaders(x) == AfterHeaders(y)
  {
  }

  lemma DoneNear(x: Parser, y: Parser, notes: seq<Event>)
    requires Near(x, y)
    ensures NearAct(HeadersDoneByte(x, notes), HeadersDoneByte(y, notes))
    ensures forall close :: NearAct(MessageDoneByte(x, notes, close), MessageDoneByte(y, notes, close))
  {
    NewMessageNear(x, y);
    hide NewMessage, AfterHeaders;
  }

  lemma EndNear(st: Settings, x: Parser, y: Parser, ch: char)
    requires Near(x, y)
    ensures NearAct(HeadersAlmostDoneByte(st, x, ch), HeadersAlmostDoneByte(st, y, ch))
  {
    hide HeadersDoneByte, MessageDoneByte;
    DoneNear(x, y, [ChunkComplete]);
    var up := if x.flags.upgrade && x.flags.connUpgrade then x.typ == Request || x.status == 101 else x.verb == CONNECT;
    var flags := x.flags.(skipBody := x.flags.skipBody || st.headersAnswer != 0);
    DoneNear(x.(upgrade := up || st.headersAnswer == 2, flags := flags), y.(upgrade := up || st.headersAnswer == 2, flags := flags),
             [HeadersComplete(x.verb, x.major, x.minor, x.status, up)]);
  }

  lemma FieldNear(st: Settings, x: Parser, y: Parser, ch: char)
    requires Near(x, y)
    ensures NearAct(FieldStartByte(st, x, ch), FieldStartByte(st, y, ch)) && NearAct(FieldByte(x, ch), FieldByte(y, ch))
  {
    hide HeadersAlmostDoneByte, FieldNext, IsToken, Token, FirstHState;
    EndNear(st, x.(state := HeadersAlmostDone), y.(state := HeadersAlmostDone), ch);
  }

  lemma ValueNear(x: Parser, y: Parser, ch: char)
    requires Near(x, y)
    ensures NearAct(ValueStartByte(x, ch), ValueStartByte(y, ch)) && NearAct(DiscardWsByte(x, ch), DiscardWsByte(y, ch))
    ensures NearAct(ValueByte(x, ch), ValueByte(y, ch))
  {
    hide ValueStart, ValueNext, Lower, IsHeaderChar;
  }

  lemma LineNear(st: Settings, x: Parser, y: Parser, ch: char)
    requires Near(x, y)
    ensures NearAct(ValueLwsByte(st, x, ch), ValueLwsByte(st, y, ch)) && NearAct(DiscardLwsByte(st, x, ch), DiscardLwsByte(st, y, ch))
  {
    hide ValueStartByte, FieldStartByte, LineFlags;
    var hs := if x.hs == ContentLengthNum then ContentLengthWs else x.hs;
    ValueNear(x.(hs := hs, state := HeaderValueStart), y.(hs := hs, state := HeaderValueStart), ch);
    var flags := LineFlags(x.hs, x.flags);
    FieldNear(st, x.(flags := flags, state := HeaderFieldStart), y.(flags := flags, state := HeaderFieldStart), ch);
  }

  lemma ChunkNear(x: Parser, y: Parser, ch: char)
    requires Near(x, y)
    ensures NearAct(ChunkSizeStartByte(x, ch), ChunkSizeStartByte(y, ch)) && NearAct(ChunkSizeByte(x, ch), ChunkSizeByte(y, ch))
    ensures NearAct(ChunkSizeAlmostDoneByte(x, ch), ChunkSizeAlmostDoneByte(y, ch))
  {
    hide Unhex;
  }

  lemma DataNear(x: Parser, y: Parser, ch: char)
    requires Near(x, y)
    ensures NearAct(ChunkDataByte(x), ChunkDataByte(y)) && NearAct(ChunkDataDoneByte(x, ch), ChunkDataDoneByte(y, ch))
    ensures NearAct(BodyIdentityByte(x), BodyIdentityByte(y))
  {
    hide MessageDoneByte;
    DoneNear(x.(length := 0), y.(length := 0), []);
  }

  lemma HereNear(x: Parser, y: Parser)
    requires Near(x, y)
    ensures forall state: State :: NearAct(To(x, state), To(y, state))
    ensures forall k: Kind :: NearAct(Marking(x, k), Marking(y, k))
    ensures forall k: Kind, state: State :: NearAct(Closing(x, k, state), Closing(y, k, state))
    ensures NearAct(Go(x, SILENT), Go(y, SILENT)) && forall e :: NearAct(Fail(e), Fail(e))
  {
  }

  lemma DispatchNear(st: Settings, x: Parser, y: Parser, ch: char)
    requires Near(x, y)
    ensures NearAct(Dispatch(st, x, ch), Dispatch(st, y, ch))
  {
    hide NearAct, LiteralByte, MajorByte, MinorByte, HttpStartByte, HttpEndByte, FirstStatusCodeByte, StatusCodeByte, StatusStartByte,
         StatusByte, StartReqOrResByte, ResOrRespHByte, StartResByte, StartReqByte, MethodByte, SpacesBeforeUrlByte, UrlByte,
         UrlEndableByte, FieldStartByte, FieldByte, DiscardWsByte, ValueStartByte, ValueByte, ValueLwsByte, DiscardLwsByte,
         HeadersAlmostDoneByte, HeadersDoneByte, MessageDoneByte, BodyIdentityByte, ChunkSizeStartByte, ChunkSizeByte,
         ChunkSizeAlmostDoneByte, ChunkDataByte, ChunkDataDoneByte, To, Marking, Closing;
    HereNear(x, y);
    StartsNear(x, y, ch);
    MethodNear(x, y, ch);
    UrlNear(x, y, ch);
    VersionNear(x, y, ch, ResHttpDot);
    VersionNear(x, y, ch, ResHttpEnd);
    VersionNear(x, y, ch, ReqHttpDot);
    VersionNear(x, y, ch, ReqHttpEnd);
    ProtocolNear(x, y, ch);
    StatusNear(x, y, ch);
    EndNear(st, x, y, ch);
    FieldNear(st, x, y, ch);
    ValueNear(x, y, ch);
    LineNear(st, x, y, ch);
    ChunkNear(x, y, ch);
    DataNear(x, y, ch);
    DoneNear(x, y, []);
    if LiteralOf(x.state).Some? {
      LiteralNear(x, y, ch);
    }
  }

  lemma StepNear(st: Settings, x: Parser, y: Parser, ch: char)
    requires Near(x, y) && Step(st, x, ch) != Fail(HeaderOverflow)
    ensures NearAct(Step(st, x, ch), Step(st, y, ch))
  {
    hide Dispatch;
    DispatchNear(st, x, y, ch);
    DispatchNear(st, x.(nread := x.nread + 1), y.(nread := y.nread + 1), ch);
  }

  function Shifted(out: Outcome, d: nat): Outcome {
    match out
    case Going => Going
    case Left(n) => Left(n + d)
    case Failed(e, n) => Failed(e, n + d)
  }

  /** The same run, `d` bytes further on. */
  predicate NearRun(x: Machine, y: Machine, d: nat) {
    x.n == y.n + d && x.log == y.log && Near(x.s, y.s) && x.out == Shifted(y.out, d)
  }

  /** The same end; callbacks made at the very byte that fails are not compared. */
  predicate SameEnd(x: Machine, y: Machine, d: nat) {
    x.out == Shifted(y.out, d) && (x.out.Failed? || NearRun(x, y, d))
  }

  predicate Overflows(m: Machine) {
    m.out.Failed? && m.out.errno == HeaderOverflow
  }

  lemma {:induction false} RunNear(st: Settings, x: Machine, y: Machine, data: string, d: nat)
    requires NearRun(x, y, d) && !Overflows(Run(st, x, data))
    ensures NearRun(Run(st, x, data), Run(st, y, data), d)
    decreases |data|
  {
    hide Step, Near, PushAll, EventsOf, OpenKind;
    if data != [] {
      if x.out.Going? {
        NearKind(x.s, y.s);
        if Step(st, x.s, data[0]) == Fail(HeaderOverflow) {
          RunStays(st, Next(st, x, data[0]), data[1..]);
        }
        StepNear(st, x.s, y.s, data[0]);
      }
      RunNear(st, Next(st, x, data[0]), Next(st, y, data[0]), data[1..], d);
    }
  }

  lemma NearKind(x: Parser, y: Parser)
    requires Near(x, y)
    ensures x.state == y.state
  {
  }

  lemma {:induction false} RunStays(st: Settings, m: Machine, data: string)
    requires m.out.Failed?
    ensures Run(st, m, data) == m
    decreases |data|
  {
    hide Step;
    if data != [] {
      RunStays(st, Next(st, m, data[0]), data[1..]);
    }
  }

  // ---- bytes passed over ----

  /** A byte that the state passes over: a blank line in front of a message, a blank in front of the target, the protocol,
      the status or a value, and what stands in a chunk extension. */
  predicate PassedOver(s: State, ch: char) {
    || ((ch == CR || ch == LF) && (s.StartReq? || s.StartRes? || s.StartReqOrRes? || s.Dead?))
    || (ch == ' ' && (s.ReqSpacesBeforeUrl? || s.ReqHttpStart? || s.ResFirstStatusCode?))
    || ((ch == ' ' || ch == '\t') && s.HeaderValueDiscardWs?)
    || (ch != CR && s.ChunkParameters?)
  }

  lemma PassedOverStep(st: Settings, s: Parser, ch: char)
    requires PassedOver(s.state, ch)
    ensures OpenKind(s.state) == None
    ensures Step(st, s, ch) == if s.nread + 1 > MAX_HEADER_SIZE then Fail(HeaderOverflow) else Go(s.(nread := s.nread + 1), SILENT)
  {
  }

  /** Taking out a byte that is passed over changes nothing: the same callbacks, the same outcome, the same state but for
      the count. */
  lemma DropPassedOver(st: Settings, s: Parser, a: string, ch: char, b: string)
    requires Run(st, Start(s), a).out.Going? && PassedOver(Run(st, Start(s), a).s.state, ch)
    requires !Overflows(Run(st, Start(s), a + [ch] + b))
    ensures NearRun(Run(st, Start(s), a + [ch] + b), Run(st, Start(s), a + b), 1)
  {
    hide Step, PassedOver, Run, NearRun;
    var m := Run(st, Start(s), a);
    RunConcat(st, Start(s), a, b);
    RunConcat(st, Start(s), a + [ch], b);
    PassedOverStep(st, m.s, ch);
    if m.s.nread + 1 > MAX_HEADER_SIZE {
      RunFail(st, Start(s), a, ch, HeaderOverflow);
      RunStays(st, Run(st, Start(s), a + [ch]), b);
    } else {
      RunSilent(st, Start(s), a, ch, m.s.(nread := m.s.nread + 1));
      CountedMore(m);
      RunNear(st, Run(st, Start(s), a + [ch]), m, b, 1);
    }
  }

  lemma CountedMore(m: Machine)
    requires m.out.Going?
    ensures NearRun(Machine(m.s.(nread := m.s.nread + 1), m.log, m.n + 1, Going), m, 1)
  {
  }

  // ---- a line feed alone ----

  /** Where a line can end. */
  predicate LineCanEnd(s: State) {
    s.ReqServer? || s.ReqServerWithAt? || s.ReqPath? || s.ReqQueryStringStart? || s.ReqQueryString? || s.ReqFragmentStart?
    || s.ReqFragment? || s.ReqHttpEnd? || s.ResStatusCode? || s.ResStatusStart? || s.ResStatus?
    || s.HeaderFieldStart? || s.HeaderValueDiscardWs? || s.HeaderValue? || s.HeaderValueLws? || s.HeaderValueDiscardLws?
  }

  /** Carriage return and line feed do in two steps what the line feed alone does in one. */
  predicate Alone(st: Settings, s: Parser) {
    var a, c := Dispatch(st, s, CR), Dispatch(st, s, LF);
    a.Fail? ||
    (a.Go? && OpenKind(a.s.state) == None && ParsingHeader(a.s.state) && a.s.nread == s.nread &&
     var b := Dispatch(st, a.s, LF);
     (b.Fail? && c == b) ||
     (!b.Fail? && !c.Fail? && b.s == c.s && (b.Go? <==> c.Go?)
      && EventsOf(OpenKind(s.state), a.calls, CR) + EventsOf(None, b.calls, LF) == EventsOf(OpenKind(s.state), c.calls, LF)))
  }

  /** A string closed at either byte is closed alike. */
  lemma ClosedAlike(open: Option<Kind>, close: Option<Close>, notes: seq<Event>)
    requires close.Some? ==> !close.value.through
    ensures EventsOf(open, Calls(close, [], None), CR) + EventsOf(None, Calls(None, notes, None), LF)
         == if open.Some? && close.None? then EventsOf(open, SILENT, CR) + notes else EventsOf(open, Calls(close, notes, None), LF)
  {
  }

  lemma NoEvents(calls: Calls)
    ensures EventsOf(None, SILENT, CR) + EventsOf(None, calls, LF) == EventsOf(None, calls, LF)
  {
  }

  lemma UrlAlone(st: Settings, s: Parser)
    requires s.state.ReqServer? || s.state.ReqServerWithAt? || s.state.ReqPath? || s.state.ReqQueryStringStart?
             || s.state.ReqQueryString? || s.state.ReqFragmentStart? || s.state.ReqFragment?
    ensures Alone(st, s)
  {
    hide EventsOf;
    ClosedAlike(Some(Url), Some(Close(Url, false, false)), []);
  }

  lemma StatusAlone(st: Settings, s: Parser)
    requires s.state.ResStatusCode? || s.state.ResStatusStart? || s.state.ResStatus?
    ensures Alone(st, s)
  {
    hide EventsOf;
    ClosedAlike(Some(Status), Some(Close(Status, false, false)), []);
    ClosedAlike(None, Some(Close(Status, true, false)), []);
  }

  lemma VersionAlone(st: Settings, s: Parser)
    requires s.state.ReqHttpEnd? || s.state.HeaderValueDiscardWs?
    ensures Alone(st, s)
  {
    hide EventsOf;
    NoEvents(SILENT);
  }

  lemma ValueAlone(st: Settings, s: Parser)
    requires s.state.HeaderValue?
    ensures Alone(st, s)
  {
    hide EventsOf;
    ClosedAlike(Some(Value), Some(Close(Value, false, false)), []);
  }

  lemma StartAlone(st: Settings, s: Parser)
    requires s.state.HeaderFieldStart?
    ensures Alone(st, s)
  {
    hide EventsOf, HeadersAlmostDoneByte;
    var c := HeadersAlmostDoneByte(st, s.(state := HeadersAlmostDone), LF);
    if !c.Fail? {
      NoEvents(c.calls);
    }
  }

  lemma LwsAlone(st: Settings, s: Parser)
    requires s.state.HeaderValueLws?
    ensures Alone(st, s)
  {
    hide EventsOf, HeadersAlmostDoneByte, LineFlags;
    var c := HeadersAlmostDoneByte(st, s.(flags := LineFlags(s.hs, s.flags), state := HeadersAlmostDone), LF);
    if !c.Fail? {
      NoEvents(c.calls);
    }
  }

  lemma EndCalls(st: Settings, s: Parser)
    ensures var c := HeadersAlmostDoneByte(st, s, LF);
            !c.Fail? ==> c.calls == Calls(None, c.calls.notes, None)
  {
    hide NewMessage, AfterHeaders;
  }

  lemma DiscardLwsAlone(st: Settings, s: Parser)
    requires s.state.HeaderValueDiscardLws?
    ensures Alone(st, s)
  {
    hide EventsOf, HeadersAlmostDoneByte, LineFlags;
    var t := s.(flags := LineFlags(s.hs, s.flags), state := HeadersAlmostDone);
    var c := HeadersAlmostDoneByte(st, t, LF);
    EndCalls(st, t);
    if !c.Fail? {
      ClosedAlike(None, Some(Close(Value, true, false)), c.calls.notes);
    }
  }

  lemma StandsAlone(st: Settings, s: Parser)
    requires LineCanEnd(s.state)
    ensures Alone(st, s)
  {
    hide Alone;
    if s.state.ReqHttpEnd? || s.state.HeaderValueDiscardWs? {
      VersionAlone(st, s);
    } else if s.state.ResStatusCode? || s.state.ResStatusStart? || s.state.ResStatus? {
      StatusAlone(st, s);
    } else if s.state.HeaderFieldStart? {
      StartAlone(st, s);
    } else if s.state.HeaderValue? {
      ValueAlone(st, s);
    } else if s.state.HeaderValueLws? {
      LwsAlone(st, s);
    } else if s.state.HeaderValueDiscardLws? {
      DiscardLwsAlone(st, s);
    } else {
      UrlAlone(st, s);
    }
  }

  /** A line may end in a line feed alone: taking out the carriage return in front of it changes nothing, wherever a line
      can end. */
  lemma DropCarriageReturn(st: Settings, s: Parser, a: string, b: string)
    requires Run(st, Start(s), a).out.Going? && LineCanEnd(Run(st, Start(s), a).s.state)
    requires Run(st, Start(s), a + [CR]).out.Going? && !Overflows(Run(st, Start(s), a + [CR, LF] + b))
    ensures SameEnd(Run(st, Start(s), a + [CR, LF] + b), Run(st, Start(s), a + [LF] + b), 1)
  {
    hide Step, Run, Near, Next, Alone, LineCanEnd, Dispatch;
    var m := Run(st, Start(s), a);
    var m1 := Run(st, Start(s), a + [CR]);
    RunConcat(st, Start(s), a + [CR, LF], b);
    RunConcat(st, Start(s), a + [LF], b);
    RunSnoc(st, Start(s), a, CR);
    RunSnoc(st, Start(s), a, LF);
    RunSnoc(st, Start(s), a + [CR], LF);
    assert a + [CR] + [LF] == a + [CR, LF];
    if Overflows(Next(st, m1, LF)) {
      RunStays(st, Next(st, m1, LF), b);
    }
    BothEnds(st, m);
    if Next(st, m1, LF).out.Failed? {
      RunStays(st, Next(st, m1, LF), b);
      RunStays(st, Next(st, m, LF), b);
    } else {
      RunNear(st, Next(st, m1, LF), Next(st, m, LF), b, 1);
    }
  }

  lemma BothEnds(st: Settings, m: Machine)
    requires m.out.Going? && LineCanEnd(m.s.state) && Next(st, m, CR).out.Going? && !Overflows(Next(st, Next(st, m, CR), LF))
    ensures SameEnd(Next(st, Next(st, m, CR), LF), Next(st, m, LF), 1)
  {
    hide Dispatch, LineCanEnd, EventsOf, PushAll, OpenKind, ParsingHeader;
    var s1 := m.s.(nread := m.s.nread + 1);
    HeaderLine(m.s.state);
    StandsAlone(st, s1);
    var a := Dispatch(st, s1, CR);
    DispatchNear(st, a.s.(nread := s1.nread + 1), a.s, LF);
    var b := Dispatch(st, a.s, LF);
    if !b.Fail? {
      PushAllConcat(m.log, EventsOf(OpenKind(m.s.state), a.calls, CR), EventsOf(None, b.calls, LF));
    }
  }

  lemma HeaderLine(s: State)
    requires LineCanEnd(s)
    ensures ParsingHeader(s)
  {
  }

  // ---- folded values ----

  /** The blank behind a transfer-encoding line starts the value anew, and nothing is looked for any more. */
  lemma FoldStep(st: Settings, s: Parser, n: nat, v: string, index: nat, blank: char)
    requires (blank == ' ' || blank == '\t') && n < MAX_HEADER_SIZE
    ensures Step(st, AtLineEnd(s, n, ChunkedState(v), index), blank) == Marking(InValue(s, n + 1, General, 0), Value)
    ensures OpenKind(AtLineEnd(s, n, ChunkedState(v), index).state) == None
  {
    ChunkedStates(v);
    hide ChunkedState, ValueStartByte;
    FoldValue(s, n + 1, ChunkedState(v), index, blank);
  }

  lemma ChunkedStates(v: string)
    ensures var hs := ChunkedState(v); hs.General? || hs.MatchingTransferEncodingChunked? || hs.TransferEncodingChunked?
  {
  }

  lemma FoldValue(s: Parser, n: nat, hs: HState, index: nat, blank: char)
    requires hs.General? || hs.MatchingTransferEncodingChunked? || hs.TransferEncodingChunked?
    ensures ValueStartByte(AtLineEnd(s, n, hs, index).(state := HeaderValueStart), blank) == Marking(InValue(s, n, General, 0), Value)
  {
    hide Lower;
    assert s.flags.(upgrade := s.flags.upgrade, contentLength := s.flags.contentLength) == s.flags;
  }

  lemma GeneralStep(st: Settings, s: Parser, n: nat, ch: char)
    requires n < MAX_HEADER_SIZE && ch != CR && ch != LF && (s.lenient || IsHeaderChar(ch))
    ensures Step(st, InValue(s, n, General, 0), ch) == Go(InValue(s, n + 1, General, 0), SILENT)
    ensures OpenKind(InValue(s, n, General, 0).state) == Some(Value)
  {
    hide IsHeaderChar, Lower;
  }

  lemma {:induction false} GeneralRun(st: Settings, m: Machine, a: string, s: Parser, n: nat, log: seq<Event>, x: string, w: string)
    requires Run(st, m, a).out.Going? && Run(st, m, a).s == InValue(s, n, General, 0)
    requires Run(st, m, a).log == Push(log, Data(Value, x, false))
    requires IsValue(w, s.lenient) && n + |w| <= MAX_HEADER_SIZE
    ensures Run(st, m, a + w) == Machine(InValue(s, n + |w|, General, 0), Push(log, Data(Value, x + w, false)),
                                         Run(st, m, a).n + |w|, Going)
    decreases |w|
  {
    hide Step, Run, Push, InValue, IsHeaderChar;
    if w == [] {
      assert a + w == a && x + w == x;
    } else {
      var init, ch := w[..|w| - 1], w[|w| - 1];
      GeneralRun(st, m, a, s, n, log, x, init);
      GeneralStep(st, s, n + |init|, ch);
      RunData(st, m, a + init, ch, InValue(s, n + |w|, General, 0), Value, log, x + init);
      assert a + init + [ch] == a + w && x + init + [ch] == x + w;
    }
  }

  /** A transfer-encoding value that is folded never announces chunks, whatever it says: the fold forgets the match. Its
      two lines are reported as two values. */
  lemma FoldedChunkedLost(st: Settings, m: Machine, s: Parser, v: string, blank: char, w: string)
    requires m.out.Going? && m.s == s && s.state.HeaderValueDiscardWs? && s.hs.TransferEncoding?
    requires v != [] && NotBlank(v[0]) && IsValue(v, s.lenient) && (blank == ' ' || blank == '\t') && IsValue(w, s.lenient)
    requires s.nread + |v| + |w| + 5 <= MAX_HEADER_SIZE
    ensures var r := Run(st, m, v + [CR, LF] + [blank] + w + [CR, LF]);
            && AtLine(r) && Settled(r).s.flags == s.flags
            && Settled(r).log == Push(Push(m.log, Data(Value, v, true)), Data(Value, [blank] + w, true))
  {
    hide *;
    PlainFold(v);
    var index := ChunkedRun(st, m, s, v);
    var n: nat := s.nread + |v|;
    LineEnds(st, m, v, s, n, ChunkedState(v), index, m.log, v);
    var log, a := Push(m.log, Data(Value, v, true)), v + [CR, LF];
    FoldStep(st, s, n + 2, v, index, blank);
    RunMark(st, m, a, blank, InValue(s, n + 3, General, 0), Value);
    GeneralRun(st, m, a + [blank], s, n + 3, log, [blank], w);
    LineEnds(st, m, a + [blank] + w, s, n + 3 + |w|, General, 0, log, [blank] + w);
    SettledGeneral(Run(st, m, a + [blank] + w + [CR, LF]), s, n + 5 + |w|);
  }

  lemma PlainFold(v: string)
    requires v != [] && NotBlank(v[0])
    ensures v[0] != ' ' && v[0] != '\t'
  {
  }

  lemma SettledGeneral(r: Machine, s: Parser, n: nat)
    requires r.out.Going? && r.s == AtLineEnd(s, n, General, 0)
    ensures AtLine(r) && Settled(r).s.flags == s.flags && Settled(r).log == r.log
  {
  }
}
