/** What holds of the parser between any two bytes, and hence that none of its internal asserts can fail. */
module HttpInvariant {
  import opened Wrappers
  import opened HttpChars
  import opened HttpTypes
  import opened HttpStep
  import opened HttpRun

  /** The largest Content-Length and the largest chunk size that pass the overflow guards. */
  const MAX_LENGTH: nat := 18446744073709551609
  const MAX_CHUNK: nat := 18446744073709551599

  /** The header states in which a header name, or the blanks before its value, can be read. */
  predicate FieldHState(hs: HState) {
    (hs.General? || hs.C? || hs.CO? || hs.CON? || hs.MatchingConnection? || hs.MatchingProxyConnection?
      || hs.MatchingContentLength? || hs.MatchingTransferEncoding? || hs.MatchingUpgrade?
      || hs.Connection? || hs.ContentLength? || hs.TransferEncoding? || hs.Upgrade?)
  }

  /** The header states inside a value. */
  predicate ValueHState(hs: HState) {
    (hs.General? || hs.ContentLengthNum? || hs.ContentLengthWs? || hs.MatchingTransferEncodingChunked?
      || hs.MatchingConnectionTokenStart? || hs.MatchingConnectionKeepAlive?
      || hs.MatchingConnectionClose? || hs.MatchingConnectionUpgrade? || hs.MatchingConnectionToken?
      || hs.TransferEncodingChunked? || hs.ConnectionKeepAlive? || hs.ConnectionClose?
      || hs.ConnectionUpgrade?)
  }

  /** What the state says about the type of the message. */
  datatype Phase = Opening | InRequestLine | InStatusLine | Later

  function PhaseOf(s: State): Phase {
    match s
    case StartReqOrRes => Opening case ResOrRespH => Opening
    case StartReq => InRequestLine case ReqMethod => InRequestLine case ReqSpacesBeforeUrl => InRequestLine
    case ReqSchema => InRequestLine case ReqSchemaSlash => InRequestLine case ReqSchemaSlashSlash => InRequestLine
    case ReqServerStart => InRequestLine case ReqServer => InRequestLine case ReqServerWithAt => InRequestLine
    case ReqPath => InRequestLine case ReqQueryStringStart => InRequestLine case ReqQueryString => InRequestLine
    case ReqFragmentStart => InRequestLine case ReqFragment => InRequestLine
    case ReqHttpStart => InRequestLine case ReqHttpH => InRequestLine case ReqHttpHT => InRequestLine
    case ReqHttpHTT => InRequestLine case ReqHttpHTTP => InRequestLine case ReqHttpI => InRequestLine
    case ReqHttpIC => InRequestLine case ReqHttpMajor => InRequestLine case ReqHttpDot => InRequestLine
    case ReqHttpMinor => InRequestLine case ReqHttpEnd => InRequestLine case ReqLineAlmostDone => InRequestLine
    case StartRes => InStatusLine case ResH => InStatusLine case ResHT => InStatusLine case ResHTT => InStatusLine
    case ResHTTP => InStatusLine case ResHttpMajor => InStatusLine case ResHttpDot => InStatusLine
    case ResHttpMinor => InStatusLine case ResHttpEnd => InStatusLine case ResFirstStatusCode => InStatusLine
    case ResStatusCode => InStatusLine case ResStatusStart => InStatusLine case ResStatus => InStatusLine
    case ResLineAlmostDone => InStatusLine
    case _ => Later
  }

  /** The type of the message is known after its first two bytes. */
  predicate TypeInv(s: Parser) {
    && (match PhaseOf(s.state)
        case Opening => s.typ == Both && (s.state.StartReqOrRes? || !s.flags.trailing)
        case InRequestLine => s.typ == Request && (s.state.StartReq? || !s.flags.trailing)
        case InStatusLine => s.typ == Response && (s.state.StartRes? || !s.flags.trailing)
        case Later => s.typ != Both)
    && (s.typ != Request ==> s.verb == DELETE)
    && (s.typ != Response ==> s.status == 0)
  }

  predicate StateInv(s: Parser) {
    match s.state
    case ReqMethod => 1 <= s.index <= |MethodString(s.verb)|
    case HeaderField => FieldHState(s.hs) && IndexOk(s.hs, s.index)
    case HeaderValueDiscardWs => FieldHState(s.hs)
    case HeaderValueDiscardWsAlmostDone => FieldHState(s.hs)
    case HeaderValueDiscardLws => FieldHState(s.hs)
    case HeaderValue => ValueHState(s.hs) && IndexOk(s.hs, s.index)
    case HeaderAlmostDone => ValueHState(s.hs)
    case HeaderValueLws => ValueHState(s.hs)
    case ChunkSizeStart => s.nread == 0 && s.flags.chunked && !s.flags.trailing
    case ChunkSize => s.flags.chunked && s.length <= MAX_CHUNK && !s.flags.trailing
    case ChunkParameters => s.flags.chunked && s.length <= MAX_CHUNK && !s.flags.trailing
    case ChunkSizeAlmostDone => s.flags.chunked && s.length <= MAX_CHUNK && !s.flags.trailing
    case ChunkData => s.flags.chunked && 0 < s.length <= MAX_CHUNK && !s.flags.trailing
    case ChunkDataAlmostDone => s.flags.chunked && s.length == 0 && !s.flags.trailing
    case ChunkDataDone => s.flags.chunked && s.length == 0 && !s.flags.trailing
    case BodyIdentity => 0 < s.length <= MAX_LENGTH && !s.flags.chunked && !s.flags.trailing && s.nread == 0
    case BodyIdentityEof => s.typ == Response
    // these are only passed through within one byte
    case HeaderValueStart => false
    case HeadersDone => false
    case MessageDone => false
    case _ => true
  }

  /** The keyword index never leaves the keyword. */
  predicate IndexOk(hs: HState, index: nat) {
    match hs
    case C => index == 0
    case CO => index == 1
    case CON => index == 2
    case MatchingConnectionTokenStart => index == 0
    case MatchingConnection => index < 17 case MatchingProxyConnection => index < 17
    case MatchingContentLength => index < 17 case MatchingTransferEncoding => index < 17
    case MatchingUpgrade => index < 17 case MatchingTransferEncodingChunked => index < 17
    case MatchingConnectionKeepAlive => index < 17 case MatchingConnectionClose => index < 17
    case MatchingConnectionUpgrade => index < 17
    case _ => index <= 17
  }

  /** What holds in every state. */
  predicate FieldsInv(s: Parser) {
    && s.nread <= MAX_HEADER_SIZE
    && s.index < 128
    && s.status <= 999 && s.major <= 9 && s.minor <= 9
    && (s.length <= MAX_LENGTH || s.length == NO_LENGTH)
    && (s.flags.trailing ==> s.flags.chunked)
  }

  predicate Inv(s: Parser) {
    FieldsInv(s) && TypeInv(s) && StateInv(s)
  }

  /** The states for which StateInv asks nothing. */
  predicate PlainState(s: State) {
    match s
    case ReqMethod => false case HeaderField => false case HeaderValueDiscardWs => false
    case HeaderValueDiscardWsAlmostDone => false case HeaderValueDiscardLws => false case HeaderValue => false
    case HeaderAlmostDone => false case HeaderValueLws => false case ChunkSizeStart => false case ChunkSize => false
    case ChunkParameters => false case ChunkSizeAlmostDone => false case ChunkData => false
    case ChunkDataAlmostDone => false case ChunkDataDone => false case BodyIdentity => false
    case BodyIdentityEof => false case HeaderValueStart => false case HeadersDone => false case MessageDone => false
    case _ => true
  }

  /** The internal asserts of the case for `s.state`, as they stand once the byte is counted. */
  predicate AssertsHold(s: Parser) {
    match s.state
    case HeaderField => FieldHState(s.hs)
    case HeaderValue => s.hs != Connection && s.hs != TransferEncoding
    case BodyIdentity => s.length != 0 && s.length != NO_LENGTH
    case ChunkSizeStart => s.nread == 1 && s.flags.chunked
    case ChunkSize => s.flags.chunked
    case ChunkParameters => s.flags.chunked
    case ChunkSizeAlmostDone => s.flags.chunked
    case ChunkData => s.flags.chunked && s.length != 0 && s.length != NO_LENGTH
    case ChunkDataAlmostDone => s.flags.chunked && s.length == 0
    case ChunkDataDone => s.flags.chunked
    case ReqMethod => s.index <= |MethodString(s.verb)|
    case _ => true
  }

  lemma InitInv(t: ParserType)
    ensures Inv(Init(t))
  {
  }

  /** `a` did not fail to keep the invariant. */
  predicate Keeps(a: Act) {
    !a.Fail? ==> Inv(a.s)
  }

  /** Going on within a phase, or to a later one, into a state that asks nothing. */
  lemma PlainKeeps(s: Parser, t: Parser)
    requires TypeInv(s) && FieldsInv(t) && t.typ == s.typ && (t.typ == Request || t.verb == s.verb)
    requires (t.typ == Response || t.status == s.status) && t.flags == s.flags
    requires PlainState(t.state) && !s.state.StartReq? && !s.state.StartRes? && !PhaseOf(s.state).Opening?
    requires PhaseOf(t.state) == PhaseOf(s.state) || PhaseOf(t.state).Later?
    ensures Inv(t)
  {
  }

  /** Where `a` goes on, its state asks nothing and its fields are in range. */
  predicate Plainly(s: Parser, a: Act) {
    !a.Leave? && (a.Go? ==>
      && FieldsInv(a.s) && a.s.typ == s.typ && a.s.verb == s.verb && a.s.flags == s.flags
      && (a.s.typ == Response || a.s.status == s.status)
      && PlainState(a.s.state)
      && (PhaseOf(a.s.state) == PhaseOf(s.state) || (PhaseOf(a.s.state).Later? && !PhaseOf(s.state).Opening?)))
  }

  lemma StartReqKeeps(s: Parser, ch: char)
    requires Inv(s) && s.state.StartReq?
    ensures Keeps(StartReqByte(s, ch))
  {
    hide MethodString, FirstMethod;
    if FirstMethod(ch).Some? {
      MethodLength(FirstMethod(ch).value);
    }
  }

  lemma OpeningKeeps(s: Parser, ch: char)
    requires Inv(s)
    ensures s.state.StartReqOrRes? ==> Keeps(StartReqOrResByte(s, ch))
    ensures s.state.ResOrRespH? ==> Keeps(ResOrRespHByte(s, ch))
    ensures s.state.StartRes? ==> Keeps(StartResByte(s, ch))
  {
    hide StartReqByte;
    if s.state.StartReqOrRes? {
      StartReqKeeps(s.(flags := NO_FLAGS, length := NO_LENGTH, typ := Request, state := StartReq), ch);
    }
  }

  lemma LiteralPhase(s: State)
    requires LiteralOf(s).Some? && !s.HeaderAlmostDone? && !s.HeaderValueDiscardWsAlmostDone?
    ensures var next := LiteralOf(s).value.next;
            PlainState(next) && (PhaseOf(next) == PhaseOf(s) || (PhaseOf(next).Later? && !PhaseOf(s).Opening?))
  {
  }

  lemma LiteralPlain(s: Parser, ch: char)
    requires FieldsInv(s) && LiteralOf(s.state).Some?
    requires !s.state.HeaderAlmostDone? && !s.state.HeaderValueDiscardWsAlmostDone?
    ensures Plainly(s, LiteralByte(s, ch))
  {
    hide LiteralOf, PlainState, PhaseOf;
    LiteralPhase(s.state);
  }

  lemma MajorPlain(s: Parser, ch: char)
    requires FieldsInv(s)
    ensures s.state.ResHttpMajor? ==> Plainly(s, MajorByte(s, ch, ResHttpDot))
    ensures s.state.ReqHttpMajor? ==> Plainly(s, MajorByte(s, ch, ReqHttpDot))
  {
  }

  lemma MinorPlain(s: Parser, ch: char)
    requires FieldsInv(s)
    ensures s.state.ResHttpMinor? ==> Plainly(s, MinorByte(s, ch, ResHttpEnd))
    ensures s.state.ReqHttpMinor? ==> Plainly(s, MinorByte(s, ch, ReqHttpEnd))
  {
  }

  lemma HttpStartPlain(s: Parser, ch: char)
    requires FieldsInv(s) && s.state.ReqHttpStart?
    ensures Plainly(s, HttpStartByte(s, ch))
  {
  }

  lemma HttpEndPlain(s: Parser, ch: char)
    requires FieldsInv(s) && s.state.ReqHttpEnd?
    ensures Plainly(s, HttpEndByte(s, ch))
  {
  }

  lemma StatusCodePlain(s: Parser, ch: char)
    requires FieldsInv(s) && s.typ == Response
    ensures s.state.ResFirstStatusCode? ==> Plainly(s, FirstStatusCodeByte(s, ch))
    ensures s.state.ResStatusCode? ==> Plainly(s, StatusCodeByte(s, ch))
  {
    if IsNum(ch) {} else if ch == ' ' {} else if ch == CR {} else if ch == LF {} else {}
  }

  lemma StatusStartPlain(s: Parser, ch: char)
    requires FieldsInv(s) && s.state.ResStatusStart?
    ensures Plainly(s, StatusStartByte(s, ch))
  {
  }

  lemma StatusPlain(s: Parser, ch: char)
    requires FieldsInv(s) && s.state.ResStatus?
    ensures Plainly(s, StatusByte(s, ch))
  {
  }

  lemma UrlStatePlain(s: State)
    requires OpenKind(s) == Some(Url)
    ensures PlainState(s) && PhaseOf(s) == InRequestLine
  {
  }

  lemma UrlPlain(s: Parser, ch: char)
    requires FieldsInv(s) && OpenKind(s.state) == Some(Url)
    ensures Plainly(s, UrlByte(s, ch)) && Plainly(s, UrlEndableByte(s, ch))
  {
    hide UrlChar, OpenKind;
    UrlCharKind(s.state, ch);
    UrlStatePlain(s.state);
    if UrlChar(s.state, ch) != Dead {
      UrlStatePlain(UrlChar(s.state, ch));
    }
  }

  lemma MethodLength(m: Method)
    ensures 3 <= |MethodString(m)| <= 11
  {
  }

  lemma RematchEarly(m: Method, index: nat, ch: char)
    ensures var r := Rematch(m, index, ch);
            r.Some? ==> index <= 2 || (index <= 4 && (r.value.PROPPATCH? || r.value.UNLINK? || r.value.MKCALENDAR?))
  {
  }

  /** A name that branches off at a position is longer than that. */
  lemma RematchLonger(m: Method, index: nat, ch: char)
    ensures Rematch(m, index, ch).Some? ==> index < |MethodString(Rematch(m, index, ch).value)|
  {
    hide Rematch;
    RematchEarly(m, index, ch);
    if Rematch(m, index, ch).Some? {
      MethodLength(Rematch(m, index, ch).value);
    }
  }

  lemma MethodKeeps(s: Parser, ch: char)
    requires Inv(s) && s.state.ReqMethod?
    ensures Keeps(MethodByte(s, ch))
  {
    hide MethodString, Rematch;
    MethodLength(s.verb);
    RematchLonger(s.verb, s.index, ch);
  }

  lemma SpacesBeforeUrlKeeps(s: Parser, ch: char)
    requires Inv(s) && s.state.ReqSpacesBeforeUrl?
    ensures Keeps(SpacesBeforeUrlByte(s, ch))
  {
    hide UrlChar, OpenKind, StateInv;
    var next := UrlChar(if s.verb == CONNECT then ReqServerStart else s.state, ch);
    UrlCharKind(ReqServerStart, ch);
    UrlCharKind(s.state, ch);
    if ch == ' ' {
      PlainKeeps(s, s);
    } else if next != Dead {
      UrlStatePlain(next);
      PlainKeeps(s, s.(state := next));
    }
  }

  lemma StartLineKeeps(st: Settings, s: Parser, ch: char)
    requires Inv(s) && (s.state.Dead? || !PhaseOf(s.state).Later?)
    ensures Keeps(Dispatch(st, s, ch))
  {
    if s.state.StartReq? {
      hide StartReqByte, Inv;
      StartReqKeeps(s, ch);
    } else if s.state.StartReqOrRes? || s.state.ResOrRespH? || s.state.StartRes? {
      hide StartReqOrResByte, ResOrRespHByte, StartResByte, Inv;
      OpeningKeeps(s, ch);
    } else if s.state.ReqMethod? || s.state.ReqSpacesBeforeUrl? {
      hide MethodByte, SpacesBeforeUrlByte, Inv;
      if s.state.ReqMethod? {
        MethodKeeps(s, ch);
      } else {
        SpacesBeforeUrlKeeps(s, ch);
      }
    } else {
      hide FieldsInv, TypeInv, StateInv;
      if OpenKind(s.state) == Some(Url) {
        hide UrlByte, UrlEndableByte;
        UrlPlain(s, ch);
      } else {
        PlainDispatch(st, s, ch);
      }
      var a := Dispatch(st, s, ch);
      if a.Go? {
        PlainKeeps(s, a.s);
      }
    }
  }

  lemma PlainDispatch(st: Settings, s: Parser, ch: char)
    requires FieldsInv(s) && (s.state.Dead? || !PhaseOf(s.state).Later?) && OpenKind(s.state) != Some(Url)
    requires PhaseOf(s.state).InStatusLine? ==> s.typ == Response
    requires !s.state.StartReqOrRes? && !s.state.ResOrRespH? && !s.state.StartReq? && !s.state.StartRes?
    requires !s.state.ReqMethod? && !s.state.ReqSpacesBeforeUrl?
    ensures Plainly(s, Dispatch(st, s, ch))
  {
    hide FieldsInv, LiteralByte, MajorByte, MinorByte, HttpStartByte, HttpEndByte, FirstStatusCodeByte, StatusCodeByte,
         StatusStartByte, StatusByte;
    if s.state.Dead? {
    } else {
      hide Plainly;
      MajorPlain(s, ch);
      MinorPlain(s, ch);
      if s.state.ReqHttpStart? {
        HttpStartPlain(s, ch);
      } else if s.state.ReqHttpEnd? {
        HttpEndPlain(s, ch);
      } else if s.state.ResStatusStart? {
        StatusStartPlain(s, ch);
      } else if s.state.ResStatus? {
        StatusPlain(s, ch);
      }
      if PhaseOf(s.state).InStatusLine? {
        StatusCodePlain(s, ch);
      }
      if LiteralOf(s.state).Some? {
        LiteralPlain(s, ch);
      }
    }
  }

  /** What every state behind the first line provides. */
  predicate LaterOk(s: Parser) {
    && FieldsInv(s) && s.typ != Both
    && (s.typ == Response ==> s.verb == DELETE) && (s.typ == Request ==> s.status == 0)
  }

  lemma LaterInv(s: Parser)
    requires PhaseOf(s.state).Later?
    ensures Inv(s) <==> LaterOk(s) && StateInv(s)
  {
    hide FieldsInv, StateInv;
  }

  /** The new state of the start of a message, or the end of the connection. */
  lemma NewMessageInv(s: Parser)
    requires LaterOk(s)
    ensures Inv(s.(state := NewMessage(s)))
  {
    hide ShouldKeepAlive;
  }

  lemma HeadersDoneKeeps(s: Parser, notes: seq<Event>)
    requires LaterOk(s) && !s.flags.trailing
    ensures Keeps(HeadersDoneByte(s, notes))
  {
    var t := s.(nread := 0);
    NewMessageInv(t);
    NewMessageNread(s);
    if AfterHeaders(s) != NewMessage(s) {
      hide NewMessage;
      AfterHeadersInv(s);
    }
  }

  lemma NewMessageNread(s: Parser)
    ensures NewMessage(s.(nread := 0)) == NewMessage(s)
  {
  }

  lemma AfterHeadersInv(s: Parser)
    requires LaterOk(s) && !s.flags.trailing && AfterHeaders(s) != NewMessage(s)
    ensures Inv(s.(nread := 0, state := AfterHeaders(s)))
  {
    hide NewMessage;
  }

  lemma MessageDoneKeeps(s: Parser, notes: seq<Event>, close: Option<Close>)
    requires LaterOk(s)
    ensures Keeps(MessageDoneByte(s, notes, close))
  {
    hide NewMessage, Inv;
    NewMessageInv(s);
  }

  lemma HeadersAlmostDoneKeeps(st: Settings, s: Parser, ch: char)
    requires LaterOk(s)
    ensures Keeps(HeadersAlmostDoneByte(st, s, ch))
  {
    hide HeadersDoneByte, MessageDoneByte, Inv;
    MessageDoneKeeps(s, [ChunkComplete], None);
    var up := if s.flags.upgrade && s.flags.connUpgrade then s.typ == Request || s.status == 101 else s.verb == CONNECT;
    if s.flags.trailing {
      return;
    }
    HeadersDoneKeeps(s.(upgrade := up || st.headersAnswer == 2,
                        flags := s.flags.(skipBody := s.flags.skipBody || st.headersAnswer != 0)),
                     [HeadersComplete(s.verb, s.major, s.minor, s.status, up)]);
  }

  lemma LaterFields(s: Parser, t: Parser)
    requires LaterOk(s) && FieldsInv(t) && t.typ == s.typ && t.verb == s.verb && t.status == s.status
    ensures LaterOk(t)
  {
    hide FieldsInv;
  }

  lemma FieldStartKeeps(st: Settings, s: Parser, ch: char)
    requires LaterOk(s) && s.state.HeaderFieldStart?
    ensures Keeps(FieldStartByte(st, s, ch))
  {
    hide HeadersAlmostDoneByte, FieldsInv, LaterOk, FirstHState, Token, IsToken;
    FirstFits(Token(ch));
    var ended := s.(state := HeadersAlmostDone);
    var named := s.(index := 0, state := HeaderField, hs := FirstHState(Token(ch)));
    FieldsOfLater(s);
    SameFields(s, ended);
    LaterFields(s, ended);
    HeadersAlmostDoneKeeps(st, ended, ch);
    LaterInv(ended);
    SameFields(s, named);
    LaterFields(s, named);
    LaterInv(named);
  }

  lemma FirstFits(c: char)
    ensures FieldHState(FirstHState(c)) && IndexOk(FirstHState(c), 0)
  {
  }

  lemma FieldsOfLater(s: Parser)
    requires LaterOk(s)
    ensures FieldsInv(s)
  {
  }

  /** The general invariant does not look at the state, and an index of 0 fits. */
  lemma SameFields(s: Parser, t: Parser)
    requires FieldsInv(s) && t == s.(state := t.state, hs := t.hs, index := t.index, flags := t.flags, length := t.length)
    requires t.index == 0 || t.index == s.index || t.index <= 17
    requires t.length == s.length || t.length <= MAX_LENGTH || t.length == NO_LENGTH
    requires t.flags == s.flags || (t.flags.trailing ==> t.flags.chunked)
    ensures FieldsInv(t)
  {
  }

  lemma ValueStartKeeps(s: Parser, ch: char)
    requires LaterOk(s)
    ensures Keeps(ValueStartByte(s, ch))
  {
    hide ValueStart;
    ValueStartOk(s.hs, Lower(ch));
  }

  lemma ValueStartOk(hs: HState, c: char)
    ensures ValueHState(ValueStart(hs, c)) && IndexOk(ValueStart(hs, c), 0)
  {
  }

  lemma FieldNextOk(hs: HState, index: nat, c: char)
    requires FieldHState(hs) && IndexOk(hs, index) && c != '\0'
    ensures var (hs', index') := FieldNext(hs, index, c); FieldHState(hs') && IndexOk(hs', index')
  {
  }

  lemma ValueNextOk(v: Scan, ch: char)
    requires v.Scan? && ValueHState(v.hs) && IndexOk(v.hs, v.index)
    requires v.length <= MAX_LENGTH || v.length == NO_LENGTH
    ensures var w := ValueNext(v, ch);
            w.Scan? ==> && ValueHState(w.hs) && IndexOk(w.hs, w.index)
                        && (w.length <= MAX_LENGTH || w.length == NO_LENGTH)
                        && w.flags.trailing == v.flags.trailing && w.flags.chunked == v.flags.chunked
  {
  }

  lemma FieldKeeps(s: Parser, ch: char)
    requires LaterOk(s) && StateInv(s) && s.state.HeaderField?
    ensures Keeps(FieldByte(s, ch))
  {
    hide FieldNext, FieldHState, IndexOk, FieldsInv;
    if IsToken(ch) {
      FieldNextOk(s.hs, s.index, Token(ch));
      var (hs, index) := FieldNext(s.hs, s.index, Token(ch));
      IndexSmall(hs, index);
      SameFields(s, s.(hs := hs, index := index));
    } else if ch == ':' {
      SameFields(s, s.(state := HeaderValueDiscardWs));
    }
  }

  lemma IndexSmall(hs: HState, index: nat)
    requires IndexOk(hs, index)
    ensures index <= 17
  {
  }

  lemma ValueKeeps(s: Parser, ch: char)
    requires LaterOk(s) && StateInv(s) && s.state.HeaderValue?
    ensures Keeps(ValueByte(s, ch))
  {
    hide ValueNext, ValueHState, IndexOk;
    ValueNextOk(ScanOf(s), ch);
    if ch == CR {} else if ch == LF {} else {
      var v := ValueNext(ScanOf(s), ch);
      if v.Scan? {
        IndexSmall(v.hs, v.index);
      }
    }
  }

  lemma DiscardWsKeeps(s: Parser, ch: char)
    requires LaterOk(s) && StateInv(s) && s.state.HeaderValueDiscardWs?
    ensures Keeps(DiscardWsByte(s, ch))
  {
    hide ValueStartByte, FieldsInv;
    ValueStartKeeps(s, ch);
    SameFields(s, s.(state := HeaderValueDiscardWsAlmostDone));
    SameFields(s, s.(state := HeaderValueDiscardLws));
  }

  /** The flags a line leaves are set before the next header starts. */
  function LineDone(s: Parser): Parser {
    s.(flags := LineFlags(s.hs, s.flags), state := HeaderFieldStart)
  }

  lemma LineDoneOk(s: Parser)
    requires LaterOk(s)
    ensures LaterOk(LineDone(s))
  {
  }

  lemma DiscardLwsKeeps(st: Settings, s: Parser, ch: char)
    requires LaterOk(s) && StateInv(s) && s.state.HeaderValueDiscardLws?
    ensures Keeps(DiscardLwsByte(st, s, ch))
  {
    hide FieldStartByte, LineFlags, FieldsInv;
    LineDoneOk(s);
    FieldStartKeeps(st, LineDone(s), ch);
    SameFields(s, s.(state := HeaderValueDiscardWs));
  }

  lemma ValueLwsKeeps(st: Settings, s: Parser, ch: char)
    requires LaterOk(s) && StateInv(s) && s.state.HeaderValueLws?
    ensures Keeps(ValueLwsByte(st, s, ch))
  {
    hide FieldStartByte, ValueStartByte, LineFlags, Inv, StateInv;
    LineDoneOk(s);
    FieldStartKeeps(st, LineDone(s), ch);
    ValueStartKeeps(s.(hs := if s.hs == ContentLengthNum then ContentLengthWs else s.hs, state := HeaderValueStart), ch);
  }

  lemma LineLiteralKeeps(s: Parser, ch: char)
    requires LaterOk(s) && StateInv(s)
    ensures s.state.HeaderValueDiscardWsAlmostDone? ==> Keeps(LiteralByte(s, ch))
    ensures s.state.HeaderAlmostDone? ==> Keeps(LiteralByte(s, ch))
  {
    hide FieldHState, ValueHState;
  }

  lemma HeaderKeeps(st: Settings, s: Parser, ch: char)
    requires LaterOk(s) && StateInv(s)
    requires s.state.HeaderFieldStart? || s.state.HeaderField? || s.state.HeaderValueDiscardWs?
             || s.state.HeaderValueDiscardWsAlmostDone? || s.state.HeaderValueDiscardLws? || s.state.HeaderValue?
             || s.state.HeaderValueLws? || s.state.HeaderAlmostDone? || s.state.HeadersAlmostDone?
    ensures Keeps(Dispatch(st, s, ch))
  {
    hide Keeps, LaterOk, StateInv;
    hide FieldStartByte, FieldByte, DiscardWsByte, DiscardLwsByte, ValueByte, ValueLwsByte, HeadersAlmostDoneByte, LiteralByte;
    if s.state.HeaderFieldStart? {
      FieldStartKeeps(st, s, ch);
    } else if s.state.HeaderField? {
      FieldKeeps(s, ch);
    } else if s.state.HeaderValueDiscardWs? {
      DiscardWsKeeps(s, ch);
    } else if s.state.HeaderValueDiscardLws? {
      DiscardLwsKeeps(st, s, ch);
    } else if s.state.HeaderValue? {
      ValueKeeps(s, ch);
    } else if s.state.HeaderValueLws? {
      ValueLwsKeeps(st, s, ch);
    } else if s.state.HeadersAlmostDone? {
      HeadersAlmostDoneKeeps(st, s, ch);
    } else {
      LineLiteralKeeps(s, ch);
    }
  }

  lemma ChunkSizeStartKeeps(s: Parser, ch: char)
    requires LaterOk(s) && s.flags.chunked && !s.flags.trailing && s.state.ChunkSizeStart?
    ensures Keeps(ChunkSizeStartByte(s, ch))
  {
  }

  lemma ChunkSizeKeeps(s: Parser, ch: char)
    requires LaterOk(s) && StateInv(s) && s.state.ChunkSize?
    ensures Keeps(ChunkSizeByte(s, ch))
  {
    hide Unhex;
    UnhexRange(ch);
    if ch == CR {} else if Unhex(ch) == -1 {} else {}
  }

  lemma UnhexRange(ch: char)
    ensures -1 <= Unhex(ch) < 16
  {
  }

  lemma ChunkSizeDoneKeeps(s: Parser, ch: char)
    requires LaterOk(s) && StateInv(s) && s.state.ChunkSizeAlmostDone?
    ensures Keeps(ChunkSizeAlmostDoneByte(s, ch))
  {
  }

  lemma ChunkDataKeeps(s: Parser)
    requires LaterOk(s) && StateInv(s) && s.state.ChunkData?
    ensures Keeps(ChunkDataByte(s))
  {
  }

  lemma ChunkDataDoneKeeps(s: Parser, ch: char)
    requires LaterOk(s) && StateInv(s) && s.state.ChunkDataDone?
    ensures Keeps(ChunkDataDoneByte(s, ch))
  {
  }

  lemma BodyIdentityKeeps(s: Parser)
    requires LaterOk(s) && StateInv(s) && s.state.BodyIdentity?
    ensures Keeps(BodyIdentityByte(s))
  {
    hide MessageDoneByte;
    MessageDoneKeeps(s.(length := 0), [], Some(Close(Body, true, true)));
  }

  lemma ParametersKeep(st: Settings, s: Parser, ch: char)
    requires LaterOk(s) && StateInv(s) && s.state.ChunkParameters?
    ensures Keeps(Dispatch(st, s, ch))
  {
    hide FieldsInv;
    SameFields(s, s.(state := ChunkSizeAlmostDone));
  }

  lemma DataEndKeeps(st: Settings, s: Parser, ch: char)
    requires LaterOk(s) && StateInv(s) && s.state.ChunkDataAlmostDone?
    ensures Keeps(Dispatch(st, s, ch))
  {
    hide FieldsInv;
    SameFields(s, s.(state := ChunkDataDone));
  }

  lemma UntilEofKeeps(st: Settings, s: Parser, ch: char)
    requires LaterOk(s) && StateInv(s) && s.state.BodyIdentityEof?
    ensures Keeps(Dispatch(st, s, ch))
  {
    hide FieldsInv;
  }

  lemma PlainBodyKeeps(st: Settings, s: Parser, ch: char)
    requires LaterOk(s) && StateInv(s)
    requires s.state.ChunkParameters? || s.state.ChunkDataAlmostDone? || s.state.BodyIdentityEof?
    ensures Keeps(Dispatch(st, s, ch))
  {
    hide *;
    if s.state.ChunkParameters? {
      ParametersKeep(st, s, ch);
    } else if s.state.ChunkDataAlmostDone? {
      DataEndKeeps(st, s, ch);
    } else {
      UntilEofKeeps(st, s, ch);
    }
  }

  lemma BodyKeeps(st: Settings, s: Parser, ch: char)
    requires LaterOk(s) && PhaseOf(s.state).Later?
    requires StateInv(s) || (s.state.ChunkSizeStart? && s.flags.chunked && !s.flags.trailing)
    requires s.state.ChunkSizeStart? || s.state.ChunkSize? || s.state.ChunkParameters? || s.state.ChunkSizeAlmostDone?
             || !ParsingHeader(s.state)
    ensures Keeps(Dispatch(st, s, ch))
  {
    if s.state.ChunkParameters? || s.state.ChunkDataAlmostDone? || s.state.BodyIdentityEof? {
      hide Keeps, Dispatch, LaterOk;
      PlainBodyKeeps(st, s, ch);
    } else {
      hide Keeps, LaterOk, MessageDoneByte;
      hide ChunkSizeStartByte, ChunkSizeByte, ChunkSizeAlmostDoneByte, ChunkDataByte, ChunkDataDoneByte, BodyIdentityByte;
      if s.state.ChunkSizeStart? {
        ChunkSizeStartKeeps(s, ch);
      } else if s.state.ChunkSize? {
        ChunkSizeKeeps(s, ch);
      } else if s.state.ChunkSizeAlmostDone? {
        ChunkSizeDoneKeeps(s, ch);
      } else if s.state.ChunkData? {
        ChunkDataKeeps(s);
      } else if s.state.ChunkDataDone? {
        ChunkDataDoneKeeps(s, ch);
      } else {
        BodyIdentityKeeps(s);
      }
    }
  }

  /** One byte keeps the invariant; an exit to another protocol too. */
  lemma StepInv(st: Settings, s: Parser, ch: char)
    requires Inv(s)
    ensures !Step(st, s, ch).Fail? ==> Inv(Step(st, s, ch).s)
  {
    hide Dispatch;
    var counted := s.(nread := s.nread + 1);
    if ParsingHeader(s.state) && s.nread + 1 > MAX_HEADER_SIZE {
    } else if s.state.Dead? || !PhaseOf(s.state).Later? {
      StartLineKeeps(st, counted, ch);
    } else if s.state.ChunkSizeStart? || s.state.ChunkSize? || s.state.ChunkParameters? || s.state.ChunkSizeAlmostDone? {
      BodyKeeps(st, counted, ch);
    } else if ParsingHeader(s.state) {
      HeaderKeeps(st, counted, ch);
    } else {
      BodyKeeps(st, s, ch);
    }
  }

  /** Every state a fresh parser can reach, on any input cut anywhere, keeps the invariant. */
  lemma {:induction false} Reachable(st: Settings, s: Parser, data: string)
    requires Inv(s)
    ensures Inv(Run(st, Start(s), data).s)
    decreases |data|
  {
    if data == [] {
    } else {
      var last := |data| - 1;
      assert data == data[..last] + [data[last]];
      Reachable(st, s, data[..last]);
      RunSnoc(st, Start(s), data[..last], data[last]);
      StepInv(st, Run(st, Start(s), data[..last]).s, data[last]);
    }
  }

  /** No internal assert fails: they hold whenever a byte reaches the switch. */
  lemma NoAssertFails(st: Settings, t: ParserType, data: string)
    ensures var m := Run(st, Start(Init(t)), data);
            && (ParsingHeader(m.s.state) && m.s.nread < MAX_HEADER_SIZE ==> AssertsHold(m.s.(nread := m.s.nread + 1)))
            && (!ParsingHeader(m.s.state) ==> AssertsHold(m.s))
  {
    Reachable(st, Init(t), data);
  }
}
