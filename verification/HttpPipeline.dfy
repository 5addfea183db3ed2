/** Messages on a kept-alive connection do not influence each other. */
module HttpPipeline {
  import opened Wrappers
  import opened HttpChars
  import opened HttpTypes
  import opened HttpStep
  import opened HttpRun
  import opened HttpInvariant

  /** How much of the record later bytes can still depend on: 0 nothing, 1 flags, length and method, 2 major,
      3 minor, 4 status, 5 the upgrade flag. */
  function Level(s: State): nat {
    if s.Dead? || s.StartReqOrRes? || s.StartRes? || s.StartReq? then 0
    else if s.ResOrRespH? || s.ResH? || s.ResHT? || s.ResHTT? || s.ResHTTP? || s.ResHttpMajor? || s.ReqMethod?
       || s.ReqSpacesBeforeUrl? || s.ReqSchema? || s.ReqSchemaSlash? || s.ReqSchemaSlashSlash? ||
       s.ReqServerStart? || s.ReqServer? || s.ReqServerWithAt? || s.ReqPath? || s.ReqQueryStringStart? ||
       s.ReqQueryString? || s.ReqFragmentStart? || s.ReqFragment? || s.ReqHttpStart? || s.ReqHttpH? ||
       s.ReqHttpHT? || s.ReqHttpHTT? || s.ReqHttpHTTP? || s.ReqHttpI? || s.ReqHttpIC? || s.ReqHttpMajor? then 1
    else if s.ResHttpDot? || s.ResHttpMinor? || s.ReqHttpDot? || s.ReqHttpMinor? then 2
    else if s.ResHttpEnd? || s.ResFirstStatusCode? || s.ReqHttpEnd? then 3
    else if s.ChunkSizeStart? || s.ChunkSize? || s.ChunkParameters? || s.ChunkSizeAlmostDone? || s.HeadersDone?
       || s.ChunkData? || s.ChunkDataAlmostDone? || s.ChunkDataDone? || s.BodyIdentity? ||
       s.BodyIdentityEof? || s.MessageDone? then 5
    else 4
  }

  lemma LevelFour()
    ensures forall s: State ::
               (s.ResStatusCode? || s.ResStatusStart? || s.ResStatus? || s.ResLineAlmostDone? ||
               s.ReqLineAlmostDone? || s.HeaderFieldStart? || s.HeaderField? || s.HeaderValueDiscardWs? ||
               s.HeaderValueDiscardWsAlmostDone? || s.HeaderValueDiscardLws? || s.HeaderValueStart? ||
               s.HeaderValue? || s.HeaderValueLws? || s.HeaderAlmostDone? || s.HeadersAlmostDone?) ==> Level(s) == 4
  {
  }

  lemma LevelFive()
    ensures forall s: State ::
               (s.ChunkSizeStart? || s.ChunkSize? || s.ChunkParameters? || s.ChunkSizeAlmostDone? ||
               s.HeadersDone? || s.ChunkData? || s.ChunkDataAlmostDone? || s.ChunkDataDone? || s.BodyIdentity?
               || s.BodyIdentityEof? || s.MessageDone?) ==> Level(s) == 5
  {
  }

  lemma LevelsBelow()
    ensures Level(Dead) == 0 && Level(StartReqOrRes) == 0 && Level(StartRes) == 0 && Level(StartReq) == 0
    ensures Level(ResHttpDot) == 2 && Level(ResHttpMinor) == 2 && Level(ReqHttpDot) == 2 && Level(ReqHttpMinor) == 2
    ensures Level(ResHttpEnd) == 3 && Level(ResFirstStatusCode) == 3 && Level(ReqHttpEnd) == 3
  {
  }

  lemma LevelsOne()
    ensures Level(ResOrRespH) == 1 && Level(ResH) == 1 && Level(ResHT) == 1 && Level(ResHTT) == 1 && Level(ResHTTP) == 1 &&
            Level(ResHttpMajor) == 1 && Level(ReqMethod) == 1 && Level(ReqSpacesBeforeUrl) == 1 && Level(ReqSchema) == 1 &&
            Level(ReqSchemaSlash) == 1
  {
  }

  lemma LevelsOneMore()
    ensures Level(ReqSchemaSlashSlash) == 1 && Level(ReqServerStart) == 1 && Level(ReqServer) == 1 &&
            Level(ReqServerWithAt) == 1 && Level(ReqPath) == 1 && Level(ReqQueryStringStart) == 1 &&
            Level(ReqQueryString) == 1 && Level(ReqFragmentStart) == 1 && Level(ReqFragment) == 1 && Level(ReqHttpStart) == 1
            && Level(ReqHttpH) == 1 && Level(ReqHttpHT) == 1 && Level(ReqHttpHTT) == 1 && Level(ReqHttpHTTP) == 1 &&
            Level(ReqHttpI) == 1 && Level(ReqHttpIC) == 1 && Level(ReqHttpMajor) == 1
  {
  }

  /** The levels as facts, for proofs that hide the function. */
  lemma Levels()
    ensures Level(Dead) == 0 && Level(StartReqOrRes) == 0 && Level(StartRes) == 0 && Level(StartReq) == 0
    ensures Level(ResOrRespH) == 1 && Level(ResH) == 1 && Level(ResHT) == 1 && Level(ResHTT) == 1 && Level(ResHTTP) == 1 &&
            Level(ResHttpMajor) == 1 && Level(ReqMethod) == 1 && Level(ReqSpacesBeforeUrl) == 1 && Level(ReqSchema) == 1 &&
            Level(ReqSchemaSlash) == 1 && Level(ReqSchemaSlashSlash) == 1 && Level(ReqServerStart) == 1 &&
            Level(ReqServer) == 1 && Level(ReqServerWithAt) == 1 && Level(ReqPath) == 1 && Level(ReqQueryStringStart) == 1 &&
            Level(ReqQueryString) == 1 && Level(ReqFragmentStart) == 1 && Level(ReqFragment) == 1 && Level(ReqHttpStart) == 1
            && Level(ReqHttpH) == 1 && Level(ReqHttpHT) == 1 && Level(ReqHttpHTT) == 1 && Level(ReqHttpHTTP) == 1 &&
            Level(ReqHttpI) == 1 && Level(ReqHttpIC) == 1 && Level(ReqHttpMajor) == 1
    ensures Level(ResHttpDot) == 2 && Level(ResHttpMinor) == 2 && Level(ReqHttpDot) == 2 && Level(ReqHttpMinor) == 2
    ensures Level(ResHttpEnd) == 3 && Level(ResFirstStatusCode) == 3 && Level(ReqHttpEnd) == 3
    ensures Level(ResStatusCode) == 4 && Level(ResStatusStart) == 4 && Level(ResStatus) == 4 && Level(ResLineAlmostDone) == 4
            && Level(ReqLineAlmostDone) == 4 && Level(HeaderFieldStart) == 4 && Level(HeaderField) == 4 &&
            Level(HeaderValueDiscardWs) == 4 && Level(HeaderValueDiscardWsAlmostDone) == 4 &&
            Level(HeaderValueDiscardLws) == 4 && Level(HeaderValueStart) == 4 && Level(HeaderValue) == 4 &&
            Level(HeaderValueLws) == 4 && Level(HeaderAlmostDone) == 4 && Level(HeadersAlmostDone) == 4
    ensures Level(ChunkSizeStart) == 5 && Level(ChunkSize) == 5 && Level(ChunkParameters) == 5 &&
            Level(ChunkSizeAlmostDone) == 5 && Level(HeadersDone) == 5 && Level(ChunkData) == 5 &&
            Level(ChunkDataAlmostDone) == 5 && Level(ChunkDataDone) == 5 && Level(BodyIdentity) == 5 &&
            Level(BodyIdentityEof) == 5 && Level(MessageDone) == 5
  {
    hide Level;
    LevelsBelow();
    LevelsOne();
    LevelsOneMore();
    LevelFour();
    LevelFive();
  }

  predicate UsesHState(s: State) {
    s.HeaderField? || s.HeaderValueDiscardWs? || s.HeaderValueDiscardWsAlmostDone? || s.HeaderValueDiscardLws?
    || s.HeaderValueStart? || s.HeaderValue? || s.HeaderValueLws? || s.HeaderAlmostDone?
  }

  predicate UsesIndex(s: State) {
    s.ReqMethod? || s.HeaderField? || s.HeaderValue?
  }

  /** Equal in everything later bytes can depend on. */
  predicate Alike(a: Parser, b: Parser) {
    && a.typ == b.typ && a.state == b.state && a.nread == b.nread && a.lenient == b.lenient
    && (a.typ != Request ==> a.verb == b.verb) && (a.typ != Response ==> a.status == b.status)
    && (Level(a.state) >= 1 ==> a.flags == b.flags && a.length == b.length && a.verb == b.verb)
    && (Level(a.state) >= 2 ==> a.major == b.major)
    && (Level(a.state) >= 3 ==> a.minor == b.minor)
    && (Level(a.state) >= 4 ==> a.status == b.status)
    && (Level(a.state) >= 5 || (Level(a.state) == 4 && a.flags.trailing) ==> a.upgrade == b.upgrade)
    && (UsesHState(a.state) ==> a.hs == b.hs)
    && (UsesIndex(a.state) ==> a.index == b.index)
  }

  /** The same outcome, the same callbacks, and alike again. */
  predicate SameAct(x: Act, y: Act) {
    && (x.Go? <==> y.Go?) && (x.Leave? <==> y.Leave?)
    && (x.Fail? ==> y.Fail? && x.errno == y.errno)
    && (!x.Fail? ==> !y.Fail? && x.calls == y.calls && Alike(x.s, y.s))
  }

  lemma SameGo(a: Parser, b: Parser, calls: Calls)
    requires Alike(a, b)
    ensures SameAct(Go(a, calls), Go(b, calls))
  {
    hide Alike;
  }

  lemma SameFail(e: Errno)
    ensures SameAct(Fail(e), Fail(e))
  {
  }

  /** Moving to a state that asks for no more. */
  lemma MovesAlike(a: Parser, b: Parser, next: State)
    requires Alike(a, b) && Level(next) <= Level(a.state)
    requires (UsesHState(next) ==> UsesHState(a.state)) && (UsesIndex(next) ==> UsesIndex(a.state))
    ensures Alike(a.(state := next), b.(state := next))
  {
    hide Level, UsesHState, UsesIndex;
  }

  lemma StartReqAlike(a: Parser, b: Parser, ch: char)
    requires Alike(a, b) && a.state.StartReq?
    ensures SameAct(StartReqByte(a, ch), StartReqByte(b, ch))
  {
    hide FirstMethod;
  }

  lemma StartResAlike(a: Parser, b: Parser, ch: char)
    requires Alike(a, b) && a.state.StartRes? && a.typ == Response
    ensures SameAct(StartResByte(a, ch), StartResByte(b, ch))
  {
  }

  lemma StartReqOrResAlike(a: Parser, b: Parser, ch: char)
    requires Alike(a, b) && a.typ == Both && a.state.StartReqOrRes?
    ensures SameAct(StartReqOrResByte(a, ch), StartReqOrResByte(b, ch))
  {
    hide StartReqByte;
    StartReqAlike(a.(flags := NO_FLAGS, length := NO_LENGTH, typ := Request, state := StartReq),
                  b.(flags := NO_FLAGS, length := NO_LENGTH, typ := Request, state := StartReq), ch);
  }

  lemma ResOrRespHAlike(a: Parser, b: Parser, ch: char)
    requires Alike(a, b) && a.typ == Both && a.state.ResOrRespH?
    ensures SameAct(ResOrRespHByte(a, ch), ResOrRespHByte(b, ch))
  {
  }

  lemma LiteralLevel(s: State)
    requires LiteralOf(s).Some?
    ensures var next := LiteralOf(s).value.next;
            && Level(next) == Level(s)
            && (UsesHState(next) ==> UsesHState(s)) && !UsesIndex(next)
  {
    hide Level;
    Levels();
  }

  lemma LiteralAlike(a: Parser, b: Parser, ch: char)
    requires Alike(a, b) && LiteralOf(a.state).Some?
    ensures SameAct(LiteralByte(a, ch), LiteralByte(b, ch))
  {
    hide LiteralOf, Level, UsesHState, UsesIndex;
    LiteralLevel(a.state);
  }

  lemma MajorRead(a: Parser, b: Parser, d: nat, next: State)
    requires Alike(a, b) && Level(a.state) == 1 && Level(next) == 2 && !UsesHState(next) && !UsesIndex(next)
    ensures Alike(a.(major := d, state := next), b.(major := d, state := next))
  {
    hide Level, UsesHState, UsesIndex;
  }

  lemma MajorAlike(a: Parser, b: Parser, ch: char, next: State)
    requires Alike(a, b) && Level(a.state) == 1 && Level(next) == 2 && !UsesHState(next) && !UsesIndex(next)
    ensures SameAct(MajorByte(a, ch, next), MajorByte(b, ch, next))
  {
    hide Level, UsesHState, UsesIndex, Alike, SameAct;
    SameFail(InvalidVersion);
    if IsNum(ch) {
      MajorRead(a, b, Digit(ch), next);
      SameGo(a.(major := Digit(ch), state := next), b.(major := Digit(ch), state := next), SILENT);
    }
  }

  lemma MinorRead(a: Parser, b: Parser, d: nat, next: State)
    requires Alike(a, b) && Level(a.state) == 2 && Level(next) == 3 && !UsesHState(next) && !UsesIndex(next)
    ensures Alike(a.(minor := d, state := next), b.(minor := d, state := next))
  {
    hide Level, UsesHState, UsesIndex;
  }

  lemma MinorAlike(a: Parser, b: Parser, ch: char, next: State)
    requires Alike(a, b) && Level(a.state) == 2 && Level(next) == 3 && !UsesHState(next) && !UsesIndex(next)
    ensures SameAct(MinorByte(a, ch, next), MinorByte(b, ch, next))
  {
    hide Level, UsesHState, UsesIndex, Alike, SameAct;
    SameFail(InvalidVersion);
    if IsNum(ch) {
      MinorRead(a, b, Digit(ch), next);
      SameGo(a.(minor := Digit(ch), state := next), b.(minor := Digit(ch), state := next), SILENT);
    }
  }

  lemma VersionAlike(a: Parser, b: Parser, ch: char)
    requires Alike(a, b)
    ensures a.state.ResHttpMajor? ==> SameAct(MajorByte(a, ch, ResHttpDot), MajorByte(b, ch, ResHttpDot))
    ensures a.state.ReqHttpMajor? ==> SameAct(MajorByte(a, ch, ReqHttpDot), MajorByte(b, ch, ReqHttpDot))
    ensures a.state.ResHttpMinor? ==> SameAct(MinorByte(a, ch, ResHttpEnd), MinorByte(b, ch, ResHttpEnd))
    ensures a.state.ReqHttpMinor? ==> SameAct(MinorByte(a, ch, ReqHttpEnd), MinorByte(b, ch, ReqHttpEnd))
  {
    hide Level, Alike, SameAct, MajorByte, MinorByte;
    Levels();
    if a.state.ResHttpMajor? {
      MajorAlike(a, b, ch, ResHttpDot);
    } else if a.state.ReqHttpMajor? {
      MajorAlike(a, b, ch, ReqHttpDot);
    } else if a.state.ResHttpMinor? {
      MinorAlike(a, b, ch, ResHttpEnd);
    } else if a.state.ReqHttpMinor? {
      MinorAlike(a, b, ch, ReqHttpEnd);
    }
  }

  lemma HttpStartAlike(a: Parser, b: Parser, ch: char)
    requires Alike(a, b) && a.typ == Request && !a.flags.trailing && a.state.ReqHttpStart?
    ensures SameAct(HttpStartByte(a, ch), HttpStartByte(b, ch))
  {
  }

  /** The last byte of the request's version: the record is compared in full from here on. */
  lemma RequestLineAlikeTo(a: Parser, b: Parser, next: State)
    requires Alike(a, b) && a.typ == Request && !a.flags.trailing && Level(a.state) == 3 && Level(next) == 4
    requires !UsesHState(next) && !UsesIndex(next)
    ensures Alike(a.(state := next), b.(state := next))
  {
    hide Level, UsesHState, UsesIndex;
  }

  lemma LineStates()
    ensures !UsesHState(ReqLineAlmostDone) && !UsesIndex(ReqLineAlmostDone) && !UsesHState(HeaderFieldStart)
    ensures !UsesIndex(HeaderFieldStart) && !UsesHState(ResLineAlmostDone) && !UsesIndex(ResLineAlmostDone)
    ensures !UsesHState(ResStatus) && !UsesIndex(ResStatus) && !UsesHState(ResStatusCode) && !UsesIndex(ResStatusCode)
  {
  }

  lemma HttpEndAlike(a: Parser, b: Parser, ch: char)
    requires Alike(a, b) && a.typ == Request && !a.flags.trailing && a.state.ReqHttpEnd?
    ensures SameAct(HttpEndByte(a, ch), HttpEndByte(b, ch))
  {
    hide Level, UsesHState, UsesIndex, Alike, SameAct;
    SameFail(InvalidVersion);
    Levels();
    LineStates();
    var next := if ch == CR then ReqLineAlmostDone else HeaderFieldStart;
    if ch == CR || ch == LF {
      StateIs(a, b);
      RequestLineAlikeTo(a, b, next);
      SameGo(a.(state := next), b.(state := next), SILENT);
    }
  }

  lemma StateIs(a: Parser, b: Parser)
    requires Alike(a, b)
    ensures a.state == b.state
  {
  }

  lemma StatusRead(a: Parser, b: Parser, d: nat)
    requires Alike(a, b) && !a.flags.trailing && Level(a.state) == 3
    requires Level(ResStatusCode) == 4 && !UsesHState(ResStatusCode) && !UsesIndex(ResStatusCode)
    ensures Alike(a.(status := d, state := ResStatusCode), b.(status := d, state := ResStatusCode))
  {
    hide Level, UsesHState, UsesIndex;
  }

  lemma FirstStatusCodeAlike(a: Parser, b: Parser, ch: char)
    requires Alike(a, b) && !a.flags.trailing && a.state.ResFirstStatusCode?
    ensures SameAct(FirstStatusCodeByte(a, ch), FirstStatusCodeByte(b, ch))
  {
    hide Level, UsesHState, UsesIndex, Alike, SameAct;
    SameFail(InvalidStatus);
    Levels();
    LineStates();
    StateIs(a, b);
    SameGo(a, b, SILENT);
    if IsNum(ch) {
      StatusRead(a, b, Digit(ch));
      SameGo(a.(status := Digit(ch), state := ResStatusCode), b.(status := Digit(ch), state := ResStatusCode), SILENT);
    }
  }

  lemma IndexReset(a: Parser, b: Parser)
    requires Alike(a, b)
    ensures Alike(a.(index := 0), b.(index := 0))
  {
    hide Level, UsesHState, UsesIndex;
  }

  lemma StatusStartAlike(a: Parser, b: Parser, ch: char)
    requires Alike(a, b) && !a.flags.trailing && a.state.ResStatusStart?
    ensures SameAct(StatusStartByte(a, ch), StatusStartByte(b, ch))
  {
    hide Level, UsesHState, UsesIndex, Alike, SameAct;
    Levels();
    LineStates();
    StateIs(a, b);
    IndexReset(a, b);
    var next := if ch == CR then ResLineAlmostDone else if ch == LF then HeaderFieldStart else ResStatus;
    MovesAlike(a.(index := 0), b.(index := 0), next);
    SameGo(a.(index := 0, state := next), b.(index := 0, state := next),
           if ch == CR || ch == LF then Calls(Some(Close(Status, true, false)), [], None) else Calls(None, [], Some(Status)));
  }

  lemma StatusAlike(a: Parser, b: Parser, ch: char)
    requires Alike(a, b) && !a.flags.trailing && a.state.ResStatus?
    ensures SameAct(StatusByte(a, ch), StatusByte(b, ch))
  {
    hide Level, UsesHState, UsesIndex, Alike, SameAct;
    Levels();
    LineStates();
    StateIs(a, b);
    SameGo(a, b, SILENT);
    if ch == CR || ch == LF {
      var next := if ch == CR then ResLineAlmostDone else HeaderFieldStart;
      MovesAlike(a, b, next);
      SameGo(a.(state := next), b.(state := next), Calls(Some(Close(Status, false, false)), [], None));
    }
  }

  lemma StatusCodeAlike(a: Parser, b: Parser, ch: char)
    requires Alike(a, b) && !a.flags.trailing && a.state.ResStatusCode?
    ensures SameAct(StatusCodeByte(a, ch), StatusCodeByte(b, ch))
  {
    hide Level, StatusStartByte;
    Levels();
    if ch == CR || ch == LF {
      StatusStartAlike(a.(state := ResStatusStart), b.(state := ResStatusStart), ch);
      StatusStartAnywhere(a, ch);
      StatusStartAnywhere(b, ch);
    }
  }

  lemma StatusStartAnywhere(s: Parser, ch: char)
    ensures StatusStartByte(s.(state := ResStatusStart), ch) == StatusStartByte(s, ch)
  {
  }

  lemma MethodAlike(a: Parser, b: Parser, ch: char)
    requires Alike(a, b) && a.state.ReqMethod?
    ensures SameAct(MethodByte(a, ch), MethodByte(b, ch))
  {
    hide MethodString, Rematch, Level;
    Levels();
  }

  lemma UrlCharLevel(s: State, ch: char)
    ensures var next := UrlChar(s, ch);
            next == Dead || (Level(next) == 1 && !UsesHState(next) && !UsesIndex(next))
  {
    hide Level;
    Levels();
  }

  lemma VerbIs(a: Parser, b: Parser)
    requires Alike(a, b) && Level(a.state) >= 1
    ensures a.verb == b.verb && a.state == b.state
  {
    hide Level, UsesHState, UsesIndex;
  }

  lemma SpacesAlike(a: Parser, b: Parser, ch: char)
    requires Alike(a, b) && a.state.ReqSpacesBeforeUrl?
    ensures SameAct(SpacesBeforeUrlByte(a, ch), SpacesBeforeUrlByte(b, ch))
  {
    hide UrlChar, UsesHState, UsesIndex, Level, Alike, SameAct;
    Levels();
    VerbIs(a, b);
    SameGo(a, b, SILENT);
    SameFail(InvalidUrl);
    var next := UrlChar(if a.verb == CONNECT then ReqServerStart else a.state, ch);
    UrlCharLevel(if a.verb == CONNECT then ReqServerStart else a.state, ch);
    if next != Dead {
      MovesAlike(a, b, next);
      SameGo(a.(state := next), b.(state := next), Calls(None, [], Some(Url)));
    }
  }

  lemma UrlLevel(s: State)
    requires OpenKind(s) == Some(Url)
    ensures Level(s) == 1
  {
  }

  lemma UrlByteAlike(a: Parser, b: Parser, ch: char)
    requires Alike(a, b) && OpenKind(a.state) == Some(Url)
    ensures SameAct(UrlByte(a, ch), UrlByte(b, ch))
  {
    hide UrlChar, Level, OpenKind, UsesHState, UsesIndex, Alike, SameAct;
    StateIs(a, b);
    SameFail(InvalidUrl);
    UrlCharLevel(a.state, ch);
    UrlLevel(a.state);
    var next := UrlChar(a.state, ch);
    if next != Dead {
      MovesAlike(a, b, next);
      SameGo(a.(state := next), b.(state := next), SILENT);
    }
  }

  /** The end of a URL, which may set the version. */
  lemma UrlEndAlike(a: Parser, b: Parser, next: State, old09: bool)
    requires Alike(a, b) && Level(a.state) == 1 && a.typ == Request && !a.flags.trailing
    requires if old09 then Level(next) == 4 else Level(next) == 1
    requires !UsesHState(next) && !UsesIndex(next)
    ensures old09 ==> Alike(a.(major := 0, minor := 9, state := next), b.(major := 0, minor := 9, state := next))
    ensures !old09 ==> Alike(a.(state := next), b.(state := next))
  {
    hide Level, UsesHState, UsesIndex;
  }

  lemma UrlAlike(a: Parser, b: Parser, ch: char)
    requires Alike(a, b) && OpenKind(a.state) == Some(Url) && a.typ == Request && !a.flags.trailing
    ensures SameAct(UrlByte(a, ch), UrlByte(b, ch)) && SameAct(UrlEndableByte(a, ch), UrlEndableByte(b, ch))
  {
    hide Level, OpenKind, UsesHState, UsesIndex, Alike, SameAct, UrlByte;
    Levels();
    UrlLevel(a.state);
    LineStates();
    ReqHttpStartUses();
    UrlByteAlike(a, b, ch);
    var calls := Calls(Some(Close(Url, false, false)), [], None);
    if ch == ' ' {
      UrlEndAlike(a, b, ReqHttpStart, false);
      SameGo(a.(state := ReqHttpStart), b.(state := ReqHttpStart), calls);
    } else if ch == CR || ch == LF {
      var next := if ch == CR then ReqLineAlmostDone else HeaderFieldStart;
      UrlEndAlike(a, b, next, true);
      SameGo(a.(major := 0, minor := 9, state := next), b.(major := 0, minor := 9, state := next), calls);
    }
  }

  lemma ReqHttpStartUses()
    ensures !UsesHState(ReqHttpStart) && !UsesIndex(ReqHttpStart)
  {
  }

  // ---- headers ----

  lemma NewMessageAlike(a: Parser, b: Parser)
    requires a.typ == b.typ && a.flags == b.flags && a.length == b.length && a.status == b.status
    requires a.major == b.major && a.minor == b.minor
    ensures NewMessage(a) == NewMessage(b)
    ensures Level(NewMessage(a)) == 0 && !UsesHState(NewMessage(a)) && !UsesIndex(NewMessage(a))
  {
  }

  lemma MessageDoneAlike(a: Parser, b: Parser, notes: seq<Event>, close: Option<Close>)
    requires Alike(a, b) && a.upgrade == b.upgrade && Level(a.state) >= 4
    ensures SameAct(MessageDoneByte(a, notes, close), MessageDoneByte(b, notes, close))
  {
    hide Level, UsesHState, UsesIndex, NewMessage;
    NewMessageAlike(a, b);
  }

  lemma AfterHeadersLevel(s: Parser)
    ensures AfterHeaders(s) == NewMessage(s)
            || (Level(AfterHeaders(s)) == 5 && !UsesHState(AfterHeaders(s)) && !UsesIndex(AfterHeaders(s)))
  {
    hide Level;
    Levels();
  }

  lemma HeadersDoneAlike(a: Parser, b: Parser, notes: seq<Event>)
    requires Alike(a, b) && a.upgrade == b.upgrade && Level(a.state) >= 4
    ensures SameAct(HeadersDoneByte(a, notes), HeadersDoneByte(b, notes))
  {
    hide Level, UsesHState, UsesIndex, NewMessage;
    NewMessageAlike(a, b);
    NewMessageAlike(a.(nread := 0), b.(nread := 0));
    AfterHeadersLevel(a);
  }

  lemma HeadersAlmostDoneAlike(st: Settings, a: Parser, b: Parser, ch: char)
    requires Alike(a, b) && a.state.HeadersAlmostDone?
    ensures SameAct(HeadersAlmostDoneByte(st, a, ch), HeadersAlmostDoneByte(st, b, ch))
  {
    hide Level, HeadersDoneByte, MessageDoneByte;
    Levels();
    if a.flags.trailing {
      MessageDoneAlike(a, b, [ChunkComplete], None);
    } else {
      var up := if a.flags.upgrade && a.flags.connUpgrade then a.typ == Request || a.status == 101 else a.verb == CONNECT;
      var flags := a.flags.(skipBody := a.flags.skipBody || st.headersAnswer != 0);
      HeadersDoneAlike(a.(upgrade := up || st.headersAnswer == 2, flags := flags),
                       b.(upgrade := up || st.headersAnswer == 2, flags := flags),
                       [HeadersComplete(a.verb, a.major, a.minor, a.status, up)]);
    }
  }

  lemma FieldStartAlike(st: Settings, a: Parser, b: Parser, ch: char)
    requires Alike(a, b) && a.state.HeaderFieldStart?
    ensures SameAct(FieldStartByte(st, a, ch), FieldStartByte(st, b, ch))
  {
    hide Level, HeadersAlmostDoneByte;
    Levels();
    HeadersAlmostDoneAlike(st, a.(state := HeadersAlmostDone), b.(state := HeadersAlmostDone), ch);
  }

  lemma FieldAlike(a: Parser, b: Parser, ch: char)
    requires Alike(a, b) && a.state.HeaderField?
    ensures SameAct(FieldByte(a, ch), FieldByte(b, ch))
  {
    hide Level, FieldNext;
    Levels();
  }

  lemma ValueStartAlike(a: Parser, b: Parser, ch: char)
    requires Alike(a, b) && Level(a.state) == 4 && UsesHState(a.state)
    ensures SameAct(ValueStartByte(a, ch), ValueStartByte(b, ch))
  {
    hide Level, ValueStart;
    Levels();
  }

  lemma DiscardWsAlike(a: Parser, b: Parser, ch: char)
    requires Alike(a, b) && a.state.HeaderValueDiscardWs?
    ensures SameAct(DiscardWsByte(a, ch), DiscardWsByte(b, ch))
  {
    hide Level, ValueStartByte;
    Levels();
    ValueStartAlike(a, b, ch);
  }

  lemma ValueAlike(a: Parser, b: Parser, ch: char)
    requires Alike(a, b) && a.state.HeaderValue?
    ensures SameAct(ValueByte(a, ch), ValueByte(b, ch))
  {
    hide Level, ValueNext;
    Levels();
    assert ScanOf(a) == ScanOf(b);
    KeepsTrailing(ScanOf(a), ch);
  }

  lemma TokenEndKeeps(v: Scan, ch: char, flags: Flags)
    requires v.Scan? && flags.trailing == v.flags.trailing
    ensures var w := TokenEnd(v, ch, flags); w.Scan? && w.flags.trailing == v.flags.trailing
  {
  }

  lemma KeepsTrailing(v: Scan, ch: char)
    requires v.Scan?
    ensures ValueNext(v, ch).Scan? ==> ValueNext(v, ch).flags.trailing == v.flags.trailing
  {
    hide Matched, Lower, IsToken, TokenEnd;
    TokenEndKeeps(v, ch, v.flags.(keepAlive := true));
    TokenEndKeeps(v, ch, v.flags.(close := true));
    TokenEndKeeps(v, ch, v.flags.(connUpgrade := true));
  }

  lemma LineDoneAlike(a: Parser, b: Parser)
    requires Alike(a, b) && Level(a.state) == 4 && UsesHState(a.state)
    ensures Alike(LineDone(a), LineDone(b))
  {
    hide Level;
    Levels();
  }

  lemma DiscardLwsAlike(st: Settings, a: Parser, b: Parser, ch: char)
    requires Alike(a, b) && a.state.HeaderValueDiscardLws?
    ensures SameAct(DiscardLwsByte(st, a, ch), DiscardLwsByte(st, b, ch))
  {
    hide Level, FieldStartByte, LineFlags;
    Levels();
    LineDoneAlike(a, b);
    FieldStartAlike(st, LineDone(a), LineDone(b), ch);
  }

  lemma ValueLwsAlike(st: Settings, a: Parser, b: Parser, ch: char)
    requires Alike(a, b) && a.state.HeaderValueLws?
    ensures SameAct(ValueLwsByte(st, a, ch), ValueLwsByte(st, b, ch))
  {
    hide Level, FieldStartByte, ValueStartByte, LineFlags;
    Levels();
    LineDoneAlike(a, b);
    FieldStartAlike(st, LineDone(a), LineDone(b), ch);
    var hs := if a.hs == ContentLengthNum then ContentLengthWs else a.hs;
    ValueStartAlike(a.(hs := hs, state := HeaderValueStart), b.(hs := hs, state := HeaderValueStart), ch);
  }

  // ---- bodies ----

  lemma ChunkSizeStartAlike(a: Parser, b: Parser, ch: char)
    requires Alike(a, b) && a.state.ChunkSizeStart?
    ensures SameAct(ChunkSizeStartByte(a, ch), ChunkSizeStartByte(b, ch))
  {
    hide Unhex;
    UnhexRange(ch);
  }

  lemma ChunkSizeAlike(a: Parser, b: Parser, ch: char)
    requires Alike(a, b) && a.state.ChunkSize?
    ensures SameAct(ChunkSizeByte(a, ch), ChunkSizeByte(b, ch))
  {
    hide Unhex, Alike;
    UnhexRange(ch);
    SameState(a, b);
    SizeFields(a, b);
    var v := a.length * 16 + Unhex(ch);
    if ch == CR {
    } else if Unhex(ch) == -1 {
    } else {
      SizeRead(a, b, v);
    }
  }

  lemma SizeRead(a: Parser, b: Parser, v: nat)
    requires Alike(a, b) && a.state.ChunkSize?
    ensures Alike(a.(length := v), b.(length := v))
  {
  }

  lemma SizeFields(a: Parser, b: Parser)
    requires Alike(a, b) && a.state.ChunkSize?
    ensures a.length == b.length
    ensures Alike(a.(state := ChunkSizeAlmostDone), b.(state := ChunkSizeAlmostDone))
    ensures Alike(a.(state := ChunkParameters), b.(state := ChunkParameters))
  {
    hide Alike;
    SameLength(a, b);
    SizeLevels();
    SameState(a, b);
    MovesAlike(a, b, ChunkSizeAlmostDone);
    MovesAlike(a, b, ChunkParameters);
  }

  lemma SameLength(a: Parser, b: Parser)
    requires Alike(a, b) && a.state.ChunkSize?
    ensures a.length == b.length
  {
  }

  lemma SizeLevels()
    ensures Level(ChunkSize) >= Level(ChunkSizeAlmostDone) && Level(ChunkSize) >= Level(ChunkParameters)
    ensures !UsesHState(ChunkSizeAlmostDone) && !UsesIndex(ChunkSizeAlmostDone)
    ensures !UsesHState(ChunkParameters) && !UsesIndex(ChunkParameters)
  {
  }

  lemma ChunkSizeEndAlike(a: Parser, b: Parser, ch: char)
    requires Alike(a, b) && a.state.ChunkSizeAlmostDone?
    ensures SameAct(ChunkSizeAlmostDoneByte(a, ch), ChunkSizeAlmostDoneByte(b, ch))
  {
  }

  lemma ChunkDataAlike(a: Parser, b: Parser, ch: char)
    requires Alike(a, b)
    ensures a.state.ChunkData? ==> SameAct(ChunkDataByte(a), ChunkDataByte(b))
    ensures a.state.ChunkDataDone? ==> SameAct(ChunkDataDoneByte(a, ch), ChunkDataDoneByte(b, ch))
  {
    hide Level;
    Levels();
  }

  lemma BodyIdentityAlike(a: Parser, b: Parser)
    requires Alike(a, b) && a.state.BodyIdentity?
    ensures SameAct(BodyIdentityByte(a), BodyIdentityByte(b))
  {
    hide Level, MessageDoneByte;
    Levels();
    MessageDoneAlike(a.(length := 0), b.(length := 0), [], Some(Close(Body, true, true)));
  }

  // ---- the switch ----

  lemma StartLineAlike(st: Settings, a: Parser, b: Parser, ch: char)
    requires Alike(a, b) && TypeInv(a) && (a.state.Dead? || !PhaseOf(a.state).Later?)
    ensures SameAct(Dispatch(st, a, ch), Dispatch(st, b, ch))
  {
    hide Alike, Dispatch, SameAct, LiteralOf, OpenKind, PhaseOf, TypeInv;
    SameState(a, b);
    if a.state.Dead? {
      DeadAlike(st, a, b, ch);
    } else if a.state.StartReq? || a.state.StartRes? || a.state.StartReqOrRes? || a.state.ResOrRespH? {
      OpeningAlike(st, a, b, ch);
    } else if LiteralOf(a.state).Some? || OpenKind(a.state) == Some(Url) || a.state.ReqMethod?
              || a.state.ReqSpacesBeforeUrl? || a.state.ReqHttpStart? || a.state.ReqHttpEnd? {
      RequestLineAlike(st, a, b, ch);
    } else {
      RestOfLineAlike(st, a, b, ch);
    }
  }

  lemma DeadAlike(st: Settings, a: Parser, b: Parser, ch: char)
    requires Alike(a, b) && a.state.Dead?
    ensures SameAct(Dispatch(st, a, ch), Dispatch(st, b, ch))
  {
    hide Alike;
    SameState(a, b);
  }

  lemma OpeningAlike(st: Settings, a: Parser, b: Parser, ch: char)
    requires Alike(a, b) && TypeInv(a)
    requires a.state.StartReq? || a.state.StartRes? || a.state.StartReqOrRes? || a.state.ResOrRespH?
    ensures SameAct(Dispatch(st, a, ch), Dispatch(st, b, ch))
  {
    hide Alike, SameAct, StartReqByte, StartReqOrResByte, ResOrRespHByte, StartResByte;
    SameState(a, b);
    if a.state.StartReq? {
      StartReqAlike(a, b, ch);
    } else if a.state.StartRes? {
      StartResAlike(a, b, ch);
    } else if a.state.StartReqOrRes? {
      StartReqOrResAlike(a, b, ch);
    } else {
      ResOrRespHAlike(a, b, ch);
    }
  }

  lemma RequestLineAlike(st: Settings, a: Parser, b: Parser, ch: char)
    requires Alike(a, b) && TypeInv(a) && !PhaseOf(a.state).Later?
    requires LiteralOf(a.state).Some? || OpenKind(a.state) == Some(Url) || a.state.ReqMethod?
             || a.state.ReqSpacesBeforeUrl? || a.state.ReqHttpStart? || a.state.ReqHttpEnd?
    ensures SameAct(Dispatch(st, a, ch), Dispatch(st, b, ch))
  {
    hide Alike, SameAct, MethodByte, SpacesBeforeUrlByte, UrlByte, UrlEndableByte, LiteralByte, HttpStartByte, HttpEndByte;
    SameState(a, b);
    if LiteralOf(a.state).Some? {
      LiteralAlike(a, b, ch);
    } else if OpenKind(a.state) == Some(Url) {
      UrlAlike(a, b, ch);
    } else if a.state.ReqMethod? {
      MethodAlike(a, b, ch);
    } else if a.state.ReqSpacesBeforeUrl? {
      SpacesAlike(a, b, ch);
    } else if a.state.ReqHttpStart? {
      HttpStartAlike(a, b, ch);
    } else {
      HttpEndAlike(a, b, ch);
    }
  }

  lemma RestOfLineAlike(st: Settings, a: Parser, b: Parser, ch: char)
    requires Alike(a, b) && TypeInv(a) && !PhaseOf(a.state).Later?
    requires !a.state.StartReq? && !a.state.StartRes? && !a.state.StartReqOrRes? && !a.state.ResOrRespH?
    requires LiteralOf(a.state).None? && OpenKind(a.state) != Some(Url) && !a.state.ReqMethod?
    requires !a.state.ReqSpacesBeforeUrl? && !a.state.ReqHttpStart? && !a.state.ReqHttpEnd?
    ensures SameAct(Dispatch(st, a, ch), Dispatch(st, b, ch))
  {
    hide Alike, SameAct, MajorByte, MinorByte, FirstStatusCodeByte, StatusCodeByte, StatusStartByte, StatusByte;
    SameState(a, b);
    if a.state.ResStatusCode? {
      StatusCodeAlike(a, b, ch);
    } else if a.state.ResFirstStatusCode? {
      FirstStatusCodeAlike(a, b, ch);
    } else if a.state.ResStatusStart? {
      StatusStartAlike(a, b, ch);
    } else if a.state.ResStatus? {
      StatusAlike(a, b, ch);
    } else {
      VersionAlike(a, b, ch);
    }
  }

  lemma SameState(a: Parser, b: Parser)
    requires Alike(a, b)
    ensures a.state == b.state && a.typ == b.typ && a.nread == b.nread
    ensures Alike(a.(nread := a.nread + 1), b.(nread := b.nread + 1))
  {
  }

  lemma HeaderAlike(st: Settings, a: Parser, b: Parser, ch: char)
    requires Alike(a, b) && PhaseOf(a.state).Later? && !a.state.Dead? && ParsingHeader(a.state)
    requires !a.state.HeaderValueStart? && !a.state.HeadersDone?
    ensures SameAct(Dispatch(st, a, ch), Dispatch(st, b, ch))
  {
    hide Alike, FieldStartByte, FieldByte, DiscardWsByte, DiscardLwsByte, ValueByte, ValueLwsByte, HeadersAlmostDoneByte,
         LiteralByte, ChunkSizeStartByte, ChunkSizeByte, ChunkSizeAlmostDoneByte;
    SameState(a, b);
    if a.state.ChunkParameters? {
      ChunkParametersAlike(a, b);
    } else {
      hide SameAct;
      if a.state.HeaderFieldStart? {
        FieldStartAlike(st, a, b, ch);
      } else if a.state.HeaderField? {
        FieldAlike(a, b, ch);
      } else if a.state.HeaderValueDiscardWs? {
        DiscardWsAlike(a, b, ch);
      } else if a.state.HeaderValueDiscardLws? {
        DiscardLwsAlike(st, a, b, ch);
      } else if a.state.HeaderValue? {
        ValueAlike(a, b, ch);
      } else if a.state.HeaderValueLws? {
        ValueLwsAlike(st, a, b, ch);
      } else if a.state.HeadersAlmostDone? {
        HeadersAlmostDoneAlike(st, a, b, ch);
      } else if LiteralOf(a.state).Some? {
        LiteralAlike(a, b, ch);
      } else if a.state.ChunkSizeStart? {
        ChunkSizeStartAlike(a, b, ch);
      } else if a.state.ChunkSize? {
        ChunkSizeAlike(a, b, ch);
      } else {
        ChunkSizeEndAlike(a, b, ch);
      }
    }
  }

  lemma ChunkParametersAlike(a: Parser, b: Parser)
    requires Alike(a, b) && a.state.ChunkParameters?
    ensures Alike(a.(state := ChunkSizeAlmostDone), b.(state := ChunkSizeAlmostDone))
  {
    hide Level;
    Levels();
  }

  lemma ChunkDataEndAlike(a: Parser, b: Parser)
    requires Alike(a, b) && a.state.ChunkDataAlmostDone?
    ensures Alike(a.(state := ChunkDataDone), b.(state := ChunkDataDone))
  {
    hide Level;
    Levels();
  }

  lemma BodyAlike(st: Settings, a: Parser, b: Parser, ch: char)
    requires Alike(a, b) && !ParsingHeader(a.state) && !a.state.MessageDone?
    ensures SameAct(Dispatch(st, a, ch), Dispatch(st, b, ch))
  {
    hide Alike, ChunkDataByte, ChunkDataDoneByte, BodyIdentityByte;
    SameState(a, b);
    if a.state.ChunkDataAlmostDone? {
      ChunkDataEndAlike(a, b);
    } else if a.state.BodyIdentityEof? {
    } else {
      hide SameAct;
      if a.state.BodyIdentity? {
        BodyIdentityAlike(a, b);
      } else {
        ChunkDataAlike(a, b, ch);
      }
    }
  }

  /** One byte does the same to parsers that are alike. */
  lemma StepAlike(st: Settings, a: Parser, b: Parser, ch: char)
    requires Alike(a, b) && Inv(a)
    ensures SameAct(Step(st, a, ch), Step(st, b, ch))
  {
    hide Alike, Dispatch, SameAct;
    SameState(a, b);
    var a', b' := a.(nread := a.nread + 1), b.(nread := b.nread + 1);
    if !ParsingHeader(a.state) {
      BodyAlike(st, a, b, ch);
    } else if a.nread + 1 > MAX_HEADER_SIZE {
      SameFail(HeaderOverflow);
    } else if a.state.Dead? || !PhaseOf(a.state).Later? {
      StartLineAlike(st, a', b', ch);
    } else {
      HeaderAlike(st, a', b', ch);
    }
  }

  /** Parsers that are alike read any bytes alike: the same outcome at the same byte and the same callbacks. */
  lemma {:induction false} RunAlike(st: Settings, a: Parser, b: Parser, data: string)
    requires Alike(a, b) && Inv(a)
    ensures var x, y := Run(st, Start(a), data), Run(st, Start(b), data);
            x.log == y.log && x.n == y.n && x.out == y.out && Alike(x.s, y.s)
    decreases |data|
  {
    hide Step, Alike, SameAct, Inv;
    if data == [] {
    } else {
      var last := |data| - 1;
      assert data == data[..last] + [data[last]];
      RunAlike(st, a, b, data[..last]);
      RunSnoc(st, Start(a), data[..last], data[last]);
      RunSnoc(st, Start(b), data[..last], data[last]);
      var x, y := Run(st, Start(a), data[..last]), Run(st, Start(b), data[..last]);
      Reachable(st, a, data[..last]);
      StepAlike(st, x.s, y.s, data[last]);
      SameActs(Step(st, x.s, data[last]), Step(st, y.s, data[last]));
      SameState(x.s, y.s);
    }
  }

  lemma SameActs(x: Act, y: Act)
    requires SameAct(x, y)
    ensures (x.Go? <==> y.Go?) && (x.Leave? <==> y.Leave?)
    ensures x.Fail? ==> x.errno == y.errno
    ensures !x.Fail? ==> x.calls == y.calls && Alike(x.s, y.s)
  {
  }

  // ---- one message after another ----

  /** A parser as initialised for this type of message, having read `nread` bytes of the header section. */
  function Fresh(s: Parser): Parser {
    Init(s.typ).(nread := s.nread, lenient := s.lenient)
  }

  predicate BetweenMessages(s: Parser) {
    s.state.StartReq? || s.state.StartRes?
  }

  /** Between messages a parser with any past is like a fresh one. */
  lemma BetweenIsFresh(s: Parser)
    requires Inv(s) && BetweenMessages(s)
    ensures Alike(s, Fresh(s))
  {
  }

  /** Message independence: two messages on one connection make the callbacks of the first followed by those a
      fresh parser makes for the second, and end alike; only the bytes that chunk trailers have added to `nread`
      are carried over. */
  lemma MessageIndependence(st: Settings, t: ParserType, first: string, rest: string)
    requires var a := Run(st, Start(Init(t)), first);
             && a.out.Going? && BetweenMessages(a.s) && a.log != [] && a.log[|a.log| - 1] == MessageComplete
    ensures var a := Run(st, Start(Init(t)), first);
            var b := Run(st, Start(Fresh(a.s)), rest);
            var m := Run(st, Start(Init(t)), first + rest);
            && m.log == a.log + b.log && m.n == a.n + b.n && Alike(m.s, b.s)
            && m.out == (match b.out case Going => Going case Left(at) => Left(a.n + at) case Failed(e, at) => Failed(e, a.n + at))
  {
    hide Step, Alike, Inv;
    InitInv(t);
    Reachable(st, Init(t), first);
    var a := Run(st, Start(Init(t)), first);
    BetweenIsFresh(a.s);
    RunAlike(st, a.s, Fresh(a.s), rest);
    RunConcat(st, Start(Init(t)), first, rest);
    RunShift(st, a.s, a.log, a.n, rest);
    var c := Run(st, Start(a.s), rest);
    PushAllBehind(a.log, c.log);
    CanonOfLog(st, a.s, rest);
  }

  /** No message completed, or `nread` left at 0, unless the message had a chunk trailer. */
  predicate Clean(a: Act) {
    a.Go? && MessageComplete in a.calls.notes ==> a.s.nread == 0 || a.s.flags.trailing
  }

  lemma HeadersEndClean(st: Settings, s: Parser, ch: char)
    ensures Clean(HeadersAlmostDoneByte(st, s, ch))
  {
  }

  lemma FieldStartClean(st: Settings, s: Parser, ch: char)
    ensures Clean(FieldStartByte(st, s, ch))
  {
    hide HeadersAlmostDoneByte, FirstHState, Token, IsToken;
    HeadersEndClean(st, s.(state := HeadersAlmostDone), ch);
  }

  lemma LwsClean(st: Settings, s: Parser, ch: char)
    ensures Clean(ValueLwsByte(st, s, ch)) && Clean(DiscardLwsByte(st, s, ch))
  {
    hide FieldStartByte, LineFlags, ValueStart;
    FieldStartClean(st, s.(flags := LineFlags(s.hs, s.flags), state := HeaderFieldStart), ch);
  }

  /** States in which a byte can complete a message. */
  predicate Completing(s: State) {
    s.HeaderFieldStart? || s.HeaderValueLws? || s.HeaderValueDiscardLws? || s.HeadersAlmostDone? || s.BodyIdentity?
    || s.HeadersDone? || s.MessageDone?
  }

  lemma OthersQuiet(st: Settings, s: Parser, ch: char)
    requires !Completing(s.state)
    ensures Dispatch(st, s, ch).Go? ==> MessageComplete !in Dispatch(st, s, ch).calls.notes
  {
  }

  lemma HeaderClean(st: Settings, s: Parser, ch: char)
    requires s.state.HeaderFieldStart? || s.state.HeaderValueLws? || s.state.HeaderValueDiscardLws? || s.state.HeadersAlmostDone?
    ensures Clean(Dispatch(st, s, ch))
  {
    hide FieldStartByte, ValueLwsByte, DiscardLwsByte, HeadersAlmostDoneByte, Clean;
    FieldStartClean(st, s, ch);
    LwsClean(st, s, ch);
    HeadersEndClean(st, s, ch);
  }

  lemma BodyClean(st: Settings, s: Parser, ch: char)
    requires s.state.BodyIdentity? && s.nread == 0
    ensures Clean(Step(st, s, ch))
  {
  }

  lemma StepIs(st: Settings, s: Parser, ch: char)
    ensures Step(st, s, ch) == if !ParsingHeader(s.state) then Dispatch(st, s, ch)
                               else if s.nread + 1 > MAX_HEADER_SIZE then Fail(HeaderOverflow)
                               else Dispatch(st, s.(nread := s.nread + 1), ch)
  {
    hide Dispatch;
  }

  lemma CompletingIs(s: Parser)
    requires Inv(s) && Completing(s.state)
    ensures s.state.HeaderFieldStart? || s.state.HeaderValueLws? || s.state.HeaderValueDiscardLws? || s.state.HeadersAlmostDone?
            || (s.state.BodyIdentity? && s.nread == 0)
  {
  }

  /** The byte that completes a message leaves `nread` at 0, unless the message had a chunk trailer. */
  lemma CompletionClean(st: Settings, s: Parser, ch: char)
    requires Inv(s)
    ensures Clean(Step(st, s, ch))
  {
    hide Dispatch, Step, Inv, Completing;
    StepIs(st, s, ch);
    var t := s.(nread := s.nread + 1);
    if !Completing(s.state) {
      OthersQuiet(st, s, ch);
      OthersQuiet(st, t, ch);
    } else {
      CompletingIs(s);
      if s.state.BodyIdentity? {
        BodyClean(st, s, ch);
      } else {
        HeaderClean(st, s, ch);
        HeaderClean(st, t, ch);
      }
    }
  }

  /** Without a chunk trailer nothing at all is carried over: from the byte that completes the first message, the
      second is read as by a parser just initialised for its type. */
  lemma CleanIndependence(st: Settings, t: ParserType, init: string, ch: char, rest: string)
    requires var a := Run(st, Start(Init(t)), init + [ch]);
             && a.out.Going? && BetweenMessages(a.s) && a.log != [] && a.log[|a.log| - 1] == MessageComplete
    requires var s := Run(st, Start(Init(t)), init).s;
             Step(st, s, ch).Go? && MessageComplete in Step(st, s, ch).calls.notes && !Step(st, s, ch).s.flags.trailing
    ensures var a := Run(st, Start(Init(t)), init + [ch]);
            var b := Run(st, Start(Init(a.s.typ).(lenient := a.s.lenient)), rest);
            var m := Run(st, Start(Init(t)), init + [ch] + rest);
            && m.log == a.log + b.log && m.n == a.n + b.n && Alike(m.s, b.s)
            && m.out == (match b.out case Going => Going case Left(at) => Left(a.n + at) case Failed(e, at) => Failed(e, a.n + at))
  {
    hide Step, Alike, Inv, Init, Fresh, Next, Run;
    var m0 := Run(st, Start(Init(t)), init);
    InitInv(t);
    Reachable(st, Init(t), init);
    CompletionClean(st, m0.s, ch);
    RunSnoc(st, Start(Init(t)), init, ch);
    if !m0.out.Going? {
      NextStopped(st, m0, ch);
    }
    NextIs(st, m0, ch);
    FreshIs(Step(st, m0.s, ch).s);
    MessageIndependence(st, t, init + [ch], rest);
  }

  lemma NextStopped(st: Settings, m: Machine, ch: char)
    requires !m.out.Going?
    ensures Next(st, m, ch) == m
  {
    hide Step;
  }

  lemma FreshIs(s: Parser)
    ensures s.nread == 0 ==> Fresh(s) == Init(s.typ).(lenient := s.lenient)
  {
  }

  /** The log of a run is in normal form. */
  lemma CanonOfLog(st: Settings, s: Parser, data: string)
    ensures var m := Run(st, Start(s), data); Canon(m.log) == m.log
  {
    RunShift(st, s, [], 0, data);
  }
}
