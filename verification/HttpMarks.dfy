/** Marks: how the real loop reports strings in whole pieces, and why that agrees with byte by byte. */
module HttpMarks {
  import opened Wrappers
  import opened HttpChars
  import opened HttpTypes
  import opened HttpStep
  import opened HttpRun

  /** The set marks: for each string being collected in this buffer, where its piece starts. */
  type Marks = map<Kind, nat>

  /** MARK: does not move a mark that is set. */
  function SetMark(marks: Marks, k: Kind, p: nat): Marks {
    if k in marks then marks else marks[k := p]
  }

  /** The marks after the callbacks of the byte at `p`. */
  function MarksAfter(calls: Calls, marks: Marks, p: nat): Marks {
    var left := if calls.close.Some? then marks - {calls.close.value.kind} else marks;
    if calls.mark.Some? then SetMark(left, calls.mark.value, p) else left
  }

  /** The data callback made at the byte at `p`: everything behind the mark. */
  function ClosingOf(close: Option<Close>, marks: Marks, data: string, p: nat): seq<Event>
    requires p < |data|
    requires forall k <- marks :: marks[k] <= p
  {
    match close
    case None => []
    case Some(c) =>
      var end := if c.through then p + 1 else p;
      if c.kind in marks then [DataEvent(c.kind, data[marks[c.kind]..end], true)]
      else if c.markFirst then [DataEvent(c.kind, data[p..end], true)]
      else []
  }

  /** The callbacks made at the byte at `p`. */
  function FiredBy(calls: Calls, marks: Marks, data: string, p: nat): seq<Event>
    requires p < |data|
    requires forall k <- marks :: marks[k] <= p
  {
    ClosingOf(calls.close, marks, data, p) + calls.notes
  }

  /** The states in which a body mark can be set between bytes. */
  predicate InBody(s: State) {
    s.ChunkData? || s.ChunkDataAlmostDone? || s.BodyIdentity? || s.BodyIdentityEof?
  }

  /** At most one mark is set, and the state says which. */
  ghost predicate MarksOk(s: State, marks: Marks, p: nat) {
    match OpenKind(s)
    case Some(k) => marks.Keys == {k} && marks[k] <= p && (p > 0 ==> marks[k] < p)
    case None => marks == map[] || (marks.Keys == {Body} && marks[Body] < p && InBody(s))
  }

  ghost function PendingOf(k: Kind, marks: Marks, data: string, p: nat): seq<Event>
    requires p <= |data|
  {
    if k in marks && marks[k] < p then [Data(k, data[marks[k]..p], false)] else []
  }

  /** What has been read behind the marks and not been reported yet, in the order of the final flush. */
  ghost function Pending(marks: Marks, data: string, p: nat): seq<Event>
    requires p <= |data|
  {
    PendingOf(Field, marks, data, p) + PendingOf(Value, marks, data, p) + PendingOf(Url, marks, data, p)
    + PendingOf(Body, marks, data, p) + PendingOf(Status, marks, data, p)
  }

  lemma PendingNone(data: string, p: nat)
    requires p <= |data|
    ensures Pending(map[], data, p) == []
  {
  }

  lemma PendingOne(k: Kind, marks: Marks, data: string, p: nat)
    requires p <= |data| && marks.Keys == {k}
    ensures Pending(marks, data, p) == PendingOf(k, marks, data, p)
  {
  }

  /** How the callbacks of a byte fit the states before and after it. */
  ghost predicate Fits(s: State, next: State, calls: Calls) {
    && (forall e <- calls.notes :: !e.Data?)
    && (match calls.close
        case Some(c) =>
          && (OpenKind(s).Some? ==> c.kind == OpenKind(s).value && !c.through)
          && (OpenKind(s).None? ==> if c.markFirst then InBody(s) ==> c.kind == Body else c.kind == Body && InBody(s))
          && (c.through ==> c.kind == Body && c.markFirst)
          && (c.markFirst && c.kind == Body ==> c.through)
          && (calls.mark.None? ==> OpenKind(next) == None)
        case None =>
          && (OpenKind(s).Some? ==> calls.mark == None && calls.notes == [] && OpenKind(next) == OpenKind(s))
          && (OpenKind(s).None? && InBody(s) ==> calls.mark == Some(Body) && calls.notes == [])
          && (OpenKind(s).None? && !InBody(s) && calls.mark == None ==> OpenKind(next) == None))
    && (calls.mark.Some? ==>
          || OpenKind(next) == calls.mark
          || (OpenKind(next) == None && calls.mark == Some(Body) && InBody(next)))
    && (calls.mark.Some? && InBody(s) && calls.close.None? ==> calls.mark == Some(Body) && InBody(next) && OpenKind(next) == None)
  }

  predicate AtMessageEnd(s: State) {
    s.StartReq? || s.StartRes? || s.Dead?
  }

  /** The callbacks fit the states, and an exit to another protocol happens between messages. */
  ghost predicate ActFits(s: State, a: Act) {
    && (!a.Fail? ==> Fits(s, a.s.state, a.calls))
    && (a.Leave? ==> AtMessageEnd(a.s.state))
    && (a.Fail? ==> a.errno != OK)
  }

  // ---- the shapes callbacks come in ----

  lemma Quiet(s: State, next: State)
    requires OpenKind(next) == OpenKind(s) && !InBody(s)
    ensures Fits(s, next, SILENT)
  {
  }

  lemma ClosesString(s: State, next: State, k: Kind)
    requires OpenKind(s) == Some(k) && k != Body && OpenKind(next) == None
    ensures Fits(s, next, Calls(Some(Close(k, false, false)), [], None))
  {
  }

  lemma StartsString(s: State, next: State, k: Kind)
    requires OpenKind(s) == None && !InBody(s) && OpenKind(next) == Some(k)
    ensures Fits(s, next, Calls(None, [], Some(k)))
  {
  }

  lemma Notifies(s: State, next: State, notes: seq<Event>)
    requires OpenKind(s) == None && !InBody(s) && OpenKind(next) == None && forall e <- notes :: !e.Data?
    ensures Fits(s, next, Calls(None, notes, None))
  {
  }

  /** A body byte that does not end its run, and the byte behind a chunk's data. */
  lemma TakesBody(s: State, next: State)
    requires InBody(s) && InBody(next)
    ensures Fits(s, next, Calls(None, [], Some(Body)))
    ensures OpenKind(next) == None ==> Fits(s, next, Calls(Some(Close(Body, false, false)), [], None))
  {
  }

  /** The states outside strings and body runs. */
  lemma Outside(s: State)
    requires s.HeaderFieldStart? || s.HeaderValueStart? || s.HeaderValueLws? || s.HeaderValueDiscardLws?
             || s.HeaderValueDiscardWs? || s.HeaderValueDiscardWsAlmostDone? || s.HeaderAlmostDone?
             || s.HeadersAlmostDone? || s.HeadersDone? || s.ChunkSizeStart? || s.ChunkSize? || s.ChunkParameters?
             || s.ChunkSizeAlmostDone? || s.ChunkDataDone? || s.MessageDone? || s.ReqHttpStart? || s.ReqHttpH?
             || s.ReqHttpHT? || s.ReqHttpHTT? || s.ReqHttpHTTP? || s.ReqHttpI? || s.ReqHttpIC? || s.ReqHttpMajor?
             || s.ReqHttpDot? || s.ReqHttpMinor? || s.ReqHttpEnd? || s.ReqLineAlmostDone?
    ensures OpenKind(s) == None && !InBody(s)
  {
  }

  lemma BodyRun(s: State)
    requires s.ChunkData? || s.ChunkDataAlmostDone? || s.BodyIdentity? || s.BodyIdentityEof?
    ensures OpenKind(s) == None && InBody(s)
  {
  }

  lemma HeaderStrings()
    ensures OpenKind(HeaderField) == Some(Field) && OpenKind(HeaderValue) == Some(Value)
    ensures !InBody(HeaderField) && !InBody(HeaderValue)
  {
  }

  lemma HeadersAlmostDoneFits(st: Settings, s: Parser, ch: char)
    ensures var a := HeadersAlmostDoneByte(st, s, ch);
            && (!a.Fail? ==> a.calls.close == None && a.calls.mark == None && OpenKind(a.s.state) == None)
            && (!a.Fail? ==> forall e <- a.calls.notes :: !e.Data?)
            && (a.Leave? ==> AtMessageEnd(a.s.state))
            && (a.Fail? ==> a.errno != OK)
  {
  }

  lemma FieldStartFits(st: Settings, s: Parser, ch: char)
    ensures var a := FieldStartByte(st, s, ch);
            && (!a.Fail? ==> && a.calls.close == None
                             && (a.calls.mark == None || a.calls.mark == Some(Field))
                             && OpenKind(a.s.state) == a.calls.mark
                             && forall e <- a.calls.notes :: !e.Data?)
            && (a.Leave? ==> AtMessageEnd(a.s.state))
            && (a.Fail? ==> a.errno != OK)
  {
    hide HeadersAlmostDoneByte;
    HeadersAlmostDoneFits(st, s.(state := HeadersAlmostDone), ch);
  }

  lemma StartLineFits(st: Settings, s: Parser, ch: char)
    requires s.state.Dead? || s.state.StartReqOrRes? || s.state.ResOrRespH? || s.state.StartRes? || s.state.ResH?
             || s.state.ResHT? || s.state.ResHTT? || s.state.ResHTTP? || s.state.ResHttpMajor? || s.state.ResHttpDot?
             || s.state.ResHttpMinor? || s.state.ResHttpEnd? || s.state.ResFirstStatusCode? || s.state.ResStatusCode?
             || s.state.ResStatusStart? || s.state.ResStatus? || s.state.ResLineAlmostDone? || s.state.StartReq?
    ensures ActFits(s.state, Dispatch(st, s, ch))
  {
    hide FirstMethod, MethodString;
  }

  lemma MethodFits(s: Parser, ch: char)
    ensures s.state.ReqMethod? ==> ActFits(ReqMethod, MethodByte(s, ch))
    ensures s.state.ReqSpacesBeforeUrl? ==> ActFits(ReqSpacesBeforeUrl, SpacesBeforeUrlByte(s, ch))
  {
    hide MethodString, Rematch, UrlChar;
    UrlCharKind(ReqServerStart, ch);
    UrlCharKind(s.state, ch);
  }

  lemma ReqHttpFits(st: Settings, s: Parser, ch: char)
    requires s.state.ReqHttpStart? || s.state.ReqHttpH? || s.state.ReqHttpHT? || s.state.ReqHttpHTT?
             || s.state.ReqHttpHTTP? || s.state.ReqHttpI? || s.state.ReqHttpIC?
    ensures ActFits(s.state, Dispatch(st, s, ch))
  {
    hide Fits, OpenKind, InBody, Dispatch;
    ReqHttpActs(st, s, ch);
    Outside(s.state);
    if !Dispatch(st, s, ch).Fail? {
      Outside(Dispatch(st, s, ch).s.state);
      Quiet(s.state, Dispatch(st, s, ch).s.state);
    }
  }

  lemma ReqHttpActs(st: Settings, s: Parser, ch: char)
    requires s.state.ReqHttpStart? || s.state.ReqHttpH? || s.state.ReqHttpHT? || s.state.ReqHttpHTT?
             || s.state.ReqHttpHTTP? || s.state.ReqHttpI? || s.state.ReqHttpIC?
    ensures match Dispatch(st, s, ch)
            case Fail(e) => e != OK
            case Leave(t, calls) => false
            case Go(t, calls) =>
              calls == SILENT
              && (t.state.ReqHttpStart? || t.state.ReqHttpH? || t.state.ReqHttpHT? || t.state.ReqHttpHTT?
                  || t.state.ReqHttpHTTP? || t.state.ReqHttpI? || t.state.ReqHttpIC? || t.state.ReqHttpMajor?)
  {
  }

  lemma ReqVersionFits(st: Settings, s: Parser, ch: char)
    requires s.state.ReqHttpMajor? || s.state.ReqHttpDot? || s.state.ReqHttpMinor? || s.state.ReqHttpEnd?
             || s.state.ReqLineAlmostDone?
    ensures ActFits(s.state, Dispatch(st, s, ch))
  {
    hide Fits, OpenKind, InBody, Dispatch;
    ReqVersionActs(st, s, ch);
    Outside(s.state);
    if !Dispatch(st, s, ch).Fail? {
      Outside(Dispatch(st, s, ch).s.state);
      Quiet(s.state, Dispatch(st, s, ch).s.state);
    }
  }

  lemma ReqVersionActs(st: Settings, s: Parser, ch: char)
    requires s.state.ReqHttpMajor? || s.state.ReqHttpDot? || s.state.ReqHttpMinor? || s.state.ReqHttpEnd?
             || s.state.ReqLineAlmostDone?
    ensures match Dispatch(st, s, ch)
            case Fail(e) => e != OK
            case Leave(t, calls) => false
            case Go(t, calls) =>
              calls == SILENT
              && (t.state.ReqHttpDot? || t.state.ReqHttpMinor? || t.state.ReqHttpEnd? || t.state.ReqLineAlmostDone?
                  || t.state.HeaderFieldStart?)
  {
  }

  lemma UrlFits(s: Parser, ch: char)
    requires OpenKind(s.state) == Some(Url)
    ensures ActFits(s.state, UrlByte(s, ch)) && ActFits(s.state, UrlEndableByte(s, ch))
  {
    hide UrlChar;
    UrlCharKind(s.state, ch);
    if ch == ' ' {} else if ch == CR {} else if ch == LF {} else {}
  }

  lemma ValueLwsFits(st: Settings, s: Parser, ch: char)
    ensures ActFits(HeaderValueLws, ValueLwsByte(st, s, ch))
  {
    hide FieldStartByte, ValueStartByte, LineFlags, OpenKind, Fits, InBody;
    Outside(HeaderValueLws);
    var t := s.(flags := LineFlags(s.hs, s.flags), state := HeaderFieldStart);
    if ch == ' ' || ch == '\t' {
      ValueStartFits(s.(hs := if s.hs == ContentLengthNum then ContentLengthWs else s.hs, state := HeaderValueStart), ch,
                     HeaderValueLws);
    } else {
      FieldStartShape(st, t, ch, HeaderValueLws);
    }
  }

  /** What the start of a field does fits any state outside strings and bodies. */
  lemma FieldStartShape(st: Settings, s: Parser, ch: char, from: State)
    requires OpenKind(from) == None && !InBody(from)
    ensures ActFits(from, FieldStartByte(st, s, ch))
  {
    hide FieldStartByte;
    FieldStartFits(st, s, ch);
  }

  lemma DiscardLwsFits(st: Settings, s: Parser, ch: char)
    ensures ActFits(HeaderValueDiscardLws, DiscardLwsByte(st, s, ch))
  {
    hide FieldStartByte, LineFlags;
    FieldStartFits(st, s.(flags := LineFlags(s.hs, s.flags), state := HeaderFieldStart), ch);
    if ch == ' ' {} else if ch == '\t' {} else {}
  }

  lemma ValueNextError(v: Scan, ch: char)
    requires v.Scan?
    ensures ValueNext(v, ch).Bad? ==> ValueNext(v, ch).errno != OK
  {
  }

  lemma FieldFits(s: Parser, ch: char)
    requires s.state.HeaderField?
    ensures ActFits(HeaderField, FieldByte(s, ch))
  {
    hide FieldNext, Fits, OpenKind, InBody, Token;
    HeaderStrings();
    Outside(HeaderValueDiscardWs);
    Quiet(HeaderField, HeaderField);
    ClosesString(HeaderField, HeaderValueDiscardWs, Field);
  }

  lemma ValueFits(s: Parser, ch: char)
    requires s.state.HeaderValue?
    ensures ActFits(HeaderValue, ValueByte(s, ch))
  {
    hide ValueNext, Fits, OpenKind, InBody, IsHeaderChar;
    ValueNextError(ScanOf(s), ch);
    HeaderStrings();
    Outside(HeaderAlmostDone);
    Outside(HeaderValueLws);
    Quiet(HeaderValue, HeaderValue);
    ClosesString(HeaderValue, HeaderAlmostDone, Value);
    ClosesString(HeaderValue, HeaderValueLws, Value);
  }

  lemma ValueStartFits(s: Parser, ch: char, from: State)
    requires OpenKind(from) == None && !InBody(from)
    ensures ActFits(from, ValueStartByte(s, ch))
  {
    hide ValueStart, Fits, OpenKind, InBody, Lower;
    HeaderStrings();
    StartsString(from, HeaderValue, Value);
  }

  lemma DiscardWsFits(s: Parser, ch: char)
    requires s.state.HeaderValueDiscardWs?
    ensures ActFits(HeaderValueDiscardWs, DiscardWsByte(s, ch))
  {
    hide ValueStartByte, Fits, OpenKind, InBody;
    Outside(HeaderValueDiscardWs);
    Outside(HeaderValueDiscardWsAlmostDone);
    Outside(HeaderValueDiscardLws);
    ValueStartFits(s, ch, HeaderValueDiscardWs);
    Quiet(HeaderValueDiscardWs, HeaderValueDiscardWs);
    Quiet(HeaderValueDiscardWs, HeaderValueDiscardWsAlmostDone);
    Quiet(HeaderValueDiscardWs, HeaderValueDiscardLws);
  }

  lemma HeadersDoneFits(s: Parser, notes: seq<Event>)
    requires forall e <- notes :: !e.Data?
    ensures ActFits(HeadersDone, HeadersDoneByte(s, notes))
  {
    hide NewMessage;
    NewMessageBetween(s);
    NewMessageBetween(s.(nread := 0));
  }

  lemma NewMessageBetween(s: Parser)
    ensures AtMessageEnd(NewMessage(s)) && OpenKind(NewMessage(s)) == None && !InBody(NewMessage(s))
  {
  }

  lemma HeaderFits(st: Settings, s: Parser, ch: char)
    requires s.state.HeaderValueDiscardWsAlmostDone? || s.state.HeaderAlmostDone? || s.state.HeadersDone?
    ensures ActFits(s.state, Dispatch(st, s, ch))
  {
    hide HeadersDoneByte, Fits, OpenKind, InBody;
    Outside(s.state);
    Outside(HeaderValueDiscardLws);
    Outside(HeaderValueLws);
    HeadersDoneFits(s, []);
    Quiet(s.state, HeaderValueDiscardLws);
    Quiet(s.state, HeaderValueLws);
  }

  lemma ChunkSizeFits(st: Settings, s: Parser, ch: char)
    requires s.state.ChunkSizeStart? || s.state.ChunkSize? || s.state.ChunkParameters?
    ensures ActFits(s.state, Dispatch(st, s, ch))
  {
    hide Fits, OpenKind, InBody, Unhex;
    Outside(s.state);
    Outside(ChunkSize);
    Outside(ChunkParameters);
    Outside(ChunkSizeAlmostDone);
    Quiet(s.state, s.state);
    Quiet(s.state, ChunkSize);
    Quiet(s.state, ChunkParameters);
    Quiet(s.state, ChunkSizeAlmostDone);
  }

  lemma ChunkEndFits(st: Settings, s: Parser, ch: char)
    requires s.state.ChunkSizeAlmostDone? || s.state.ChunkDataDone? || s.state.ChunkDataAlmostDone? || s.state.ChunkData?
    ensures ActFits(s.state, Dispatch(st, s, ch))
  {
    hide Fits, OpenKind, InBody;
    BodyRun(ChunkData);
    BodyRun(ChunkDataAlmostDone);
    if s.state.ChunkSizeAlmostDone? {
      Outside(ChunkSizeAlmostDone);
      Outside(HeaderFieldStart);
      Notifies(s.state, HeaderFieldStart, [ChunkHeader(0)]);
      Notifies(s.state, ChunkData, [ChunkHeader(s.length)]);
    } else if s.state.ChunkDataDone? {
      Outside(ChunkDataDone);
      Outside(ChunkSizeStart);
      Notifies(s.state, ChunkSizeStart, [ChunkComplete]);
    } else if s.state.ChunkData? {
      TakesBody(ChunkData, ChunkData);
      TakesBody(ChunkData, ChunkDataAlmostDone);
    } else {
      LeavesBody();
    }
  }

  lemma LeavesBody()
    ensures Fits(ChunkDataAlmostDone, ChunkDataDone, Calls(Some(Close(Body, false, false)), [], None))
  {
  }

  lemma EndsBody(next: State)
    requires OpenKind(next) == None
    ensures Fits(BodyIdentity, next, Calls(Some(Close(Body, true, true)), [] + [MessageComplete], None))
  {
  }

  lemma MessageEndFits(st: Settings, s: Parser, ch: char)
    requires s.state.BodyIdentity? || s.state.BodyIdentityEof? || s.state.MessageDone?
    ensures ActFits(s.state, Dispatch(st, s, ch))
  {
    hide NewMessage, Fits, OpenKind, InBody, AtMessageEnd;
    NewMessageBetween(s);
    NewMessageBetween(s.(length := 0));
    if s.state.MessageDone? {
      Outside(MessageDone);
      Notifies(MessageDone, NewMessage(s), [] + [MessageComplete]);
    } else {
      BodyRun(s.state);
      TakesBody(s.state, s.state);
      EndsBody(NewMessage(s.(length := 0)));
    }
  }

  lemma BodyFits(st: Settings, s: Parser, ch: char)
    requires s.state.ChunkSizeStart? || s.state.ChunkSize? || s.state.ChunkParameters? || s.state.ChunkSizeAlmostDone?
             || s.state.ChunkData? || s.state.ChunkDataAlmostDone? || s.state.ChunkDataDone?
             || s.state.BodyIdentity? || s.state.BodyIdentityEof? || s.state.MessageDone?
    ensures ActFits(s.state, Dispatch(st, s, ch))
  {
    hide Dispatch, ActFits;
    if s.state.ChunkSizeStart? || s.state.ChunkSize? || s.state.ChunkParameters? {
      ChunkSizeFits(st, s, ch);
    } else if s.state.BodyIdentity? || s.state.BodyIdentityEof? || s.state.MessageDone? {
      MessageEndFits(st, s, ch);
    } else {
      ChunkEndFits(st, s, ch);
    }
  }

  lemma UrlDispatchFits(st: Settings, s: Parser, ch: char)
    requires OpenKind(s.state) == Some(Url)
    ensures ActFits(s.state, Dispatch(st, s, ch))
  {
    hide UrlByte, UrlEndableByte, ActFits;
    UrlFits(s, ch);
  }

  lemma LwsDispatchFits(st: Settings, s: Parser, ch: char)
    requires s.state.HeaderValueLws? || s.state.HeaderValueDiscardLws?
    ensures ActFits(s.state, Dispatch(st, s, ch))
  {
    hide ValueLwsByte, DiscardLwsByte, ActFits;
    ValueLwsFits(st, s, ch);
    DiscardLwsFits(st, s, ch);
  }

  lemma FieldStartDispatchFits(st: Settings, s: Parser, ch: char)
    requires s.state.HeaderFieldStart? || s.state.HeadersAlmostDone?
    ensures ActFits(s.state, Dispatch(st, s, ch))
  {
    hide FieldStartByte, HeadersAlmostDoneByte;
    FieldStartFits(st, s, ch);
    HeadersAlmostDoneFits(st, s, ch);
  }

  lemma MethodDispatchFits(st: Settings, s: Parser, ch: char)
    requires s.state.ReqMethod? || s.state.ReqSpacesBeforeUrl?
    ensures ActFits(s.state, Dispatch(st, s, ch))
  {
    hide MethodByte, SpacesBeforeUrlByte, ActFits;
    MethodFits(s, ch);
  }

  lemma ValueDispatchFits(st: Settings, s: Parser, ch: char)
    requires s.state.HeaderField? || s.state.HeaderValue? || s.state.HeaderValueStart? || s.state.HeaderValueDiscardWs?
    ensures ActFits(s.state, Dispatch(st, s, ch))
  {
    hide FieldByte, ValueByte, ValueStartByte, DiscardWsByte, ActFits, OpenKind;
    if s.state.HeaderField? {
      FieldFits(s, ch);
    } else if s.state.HeaderValue? {
      ValueFits(s, ch);
    } else if s.state.HeaderValueStart? {
      Outside(HeaderValueStart);
      ValueStartFits(s, ch, HeaderValueStart);
    } else {
      DiscardWsFits(s, ch);
    }
  }

  lemma DispatchFits(st: Settings, s: Parser, ch: char)
    ensures ActFits(s.state, Dispatch(st, s, ch))
  {
    hide Dispatch, ActFits, OpenKind;
    if OpenKind(s.state) == Some(Url) {
      UrlDispatchFits(st, s, ch);
    } else {
      OtherDispatchFits(st, s, ch);
    }
  }

  lemma OtherDispatchFits(st: Settings, s: Parser, ch: char)
    requires OpenKind(s.state) != Some(Url)
    ensures ActFits(s.state, Dispatch(st, s, ch))
  {
    hide Dispatch, ActFits;
    match s.state {
      case HeaderValueLws => LwsDispatchFits(st, s, ch);
      case HeaderValueDiscardLws => LwsDispatchFits(st, s, ch);
      case HeaderFieldStart => FieldStartDispatchFits(st, s, ch);
      case HeadersAlmostDone => FieldStartDispatchFits(st, s, ch);
      case ReqMethod => MethodDispatchFits(st, s, ch);
      case ReqSpacesBeforeUrl => MethodDispatchFits(st, s, ch);
      case HeaderField => ValueDispatchFits(st, s, ch);
      case HeaderValue => ValueDispatchFits(st, s, ch);
      case HeaderValueStart => ValueDispatchFits(st, s, ch);
      case HeaderValueDiscardWs => ValueDispatchFits(st, s, ch);
      case ReqHttpStart => ReqHttpFits(st, s, ch);
      case ReqHttpH => ReqHttpFits(st, s, ch);
      case ReqHttpHT => ReqHttpFits(st, s, ch);
      case ReqHttpHTT => ReqHttpFits(st, s, ch);
      case ReqHttpHTTP => ReqHttpFits(st, s, ch);
      case ReqHttpI => ReqHttpFits(st, s, ch);
      case ReqHttpIC => ReqHttpFits(st, s, ch);
      case ReqHttpMajor => ReqVersionFits(st, s, ch);
      case ReqHttpDot => ReqVersionFits(st, s, ch);
      case ReqHttpMinor => ReqVersionFits(st, s, ch);
      case ReqHttpEnd => ReqVersionFits(st, s, ch);
      case ReqLineAlmostDone => ReqVersionFits(st, s, ch);
      case HeaderValueDiscardWsAlmostDone => HeaderFits(st, s, ch);
      case HeaderAlmostDone => HeaderFits(st, s, ch);
      case HeadersDone => HeaderFits(st, s, ch);
      case ChunkSizeStart => BodyFits(st, s, ch);
      case ChunkSize => BodyFits(st, s, ch);
      case ChunkParameters => BodyFits(st, s, ch);
      case ChunkSizeAlmostDone => BodyFits(st, s, ch);
      case ChunkData => BodyFits(st, s, ch);
      case ChunkDataAlmostDone => BodyFits(st, s, ch);
      case ChunkDataDone => BodyFits(st, s, ch);
      case BodyIdentity => BodyFits(st, s, ch);
      case BodyIdentityEof => BodyFits(st, s, ch);
      case MessageDone => BodyFits(st, s, ch);
      case _ => StartLineFits(st, s, ch);
    }
  }

  /** A byte that goes on with the string behind mark `k`. */
  lemma Continues(log: seq<Event>, data: string, p: nat, k: Kind, marks: Marks)
    requires p < |data| && (marks == map[] || (marks.Keys == {k} && marks[k] <= p))
    ensures PushAll(log, Pending(SetMark(marks, k, p), data, p + 1))
         == PushAll(PushAll(log, Pending(marks, data, p)), [Data(k, [data[p]], false)])
  {
    var after := SetMark(marks, k, p);
    PendingOne(k, after, data, p + 1);
    var i := after[k];
    assert Pending(after, data, p + 1) == [Data(k, data[i..p + 1], false)];
    if marks == map[] {
      PendingNone(data, p);
    } else {
      PendingOne(k, marks, data, p);
    }
    assert Pending(marks, data, p) == if i < p then [Data(k, data[i..p], false)] else [];
    assert data[i..p + 1] == data[i..p] + [data[p]];
    hide *;
    JoinsPending(log, k, data[i..p], [data[p]], false);
  }

  /** Reporting the string behind mark `k` up to `end`, against closing it with the bytes not yet read. */
  lemma Closes(log: seq<Event>, data: string, p: nat, k: Kind, marks: Marks, through: bool)
    requires p < |data| && marks.Keys == {k} && marks[k] <= p && (through ==> k == Body)
    ensures PushAll(log, [DataEvent(k, data[marks[k]..if through then p + 1 else p], true)])
         == PushAll(PushAll(log, Pending(marks, data, p)), [DataEvent(k, if through then [data[p]] else [], true)])
  {
    var i, end := marks[k], if through then p + 1 else p;
    var rest := if through then [data[p]] else [];
    PendingOne(k, marks, data, p);
    assert Pending(marks, data, p) == if i < p then [Data(k, data[i..p], false)] else [];
    assert data[i..end] == data[i..p] + rest;
    hide *;
    JoinsPending(log, k, data[i..p], rest, k != Body);
    if i == p {
      assert data[i..end] == rest;
    }
    EventIs(k, data[i..end]);
    EventIs(k, rest);
  }

  lemma EventIs(k: Kind, x: string)
    ensures DataEvent(k, x, true) == Data(k, x, k != Body)
  {
  }

  /** A piece reported in two callbacks, the first of which may be empty and not made. */
  lemma JoinsPending(log: seq<Event>, k: Kind, x: string, y: string, final: bool)
    ensures PushAll(log, [Data(k, x + y, final)])
         == PushAll(PushAll(log, if x == [] then [] else [Data(k, x, false)]), [Data(k, y, final)])
  {
    hide PushAll, Push;
    PushAllOne(log, Data(k, x + y, final));
    if x == [] {
      assert x + y == y;
      PushAllNone(log);
    } else {
      PushAllOne(log, Data(k, x, false));
      PushAllOne(Push(log, Data(k, x, false)), Data(k, y, final));
      PushJoin(log, k, x, y, final);
    }
  }

  lemma PushAllNone(log: seq<Event>)
    ensures PushAll(log, []) == log
  {
  }

  /** After the closing callback come the same notifications and the same new mark. */
  lemma Tail(log: seq<Event>, base: seq<Event>, fired: seq<Event>, events: seq<Event>, data: string, p: nat,
             calls: Calls, marks: Marks)
    requires p < |data| && PushAll(log, fired) == PushAll(base, events)
    requires marks == if calls.mark.Some? then map[calls.mark.value := p] else map[]
    ensures var tail := if calls.mark.Some? then [DataEvent(calls.mark.value, [data[p]], false)] else [];
            PushAll(log, fired + calls.notes + Pending(marks, data, p + 1)) == PushAll(base, events + calls.notes + tail)
  {
    hide Push, PushAll;
    if calls.mark.Some? {
      PendingOne(calls.mark.value, marks, data, p + 1);
      assert data[p..p + 1] == [data[p]];
    } else {
      PendingNone(data, p + 1);
    }
    var tail := Pending(marks, data, p + 1);
    PushAllConcat(log, fired, calls.notes);
    PushAllConcat(log, fired + calls.notes, tail);
    PushAllConcat(base, events, calls.notes);
    PushAllConcat(base, events + calls.notes, tail);
  }

  lemma CloseFires(log: seq<Event>, data: string, p: nat, s: State, next: State, calls: Calls, marks: Marks)
    requires p < |data| && MarksOk(s, marks, p) && Fits(s, next, calls) && calls.close.Some?
    ensures marks - {calls.close.value.kind} == map[]
    ensures PushAll(log, ClosingOf(calls.close, marks, data, p))
         == PushAll(PushAll(log, Pending(marks, data, p)), CloseEvents(OpenKind(s), calls.close, data[p]))
  {
    hide Push;
    var c := calls.close.value;
    if c.kind in marks {
      if c.markFirst || OpenKind(s) == Some(c.kind) {
        Closes(log, data, p, c.kind, marks, c.through);
      } else {
        PendingOne(Body, marks, data, p);
      }
    } else {
      PendingNone(data, p);
      assert data[p..p + 1] == [data[p]];
      assert data[p..p] == [];
    }
  }

  /** The callbacks of one byte, made from the marks, are those of the reference machine up to joining pieces. */
  lemma OneByteFires(log: seq<Event>, data: string, p: nat, s: State, next: State, calls: Calls, marks: Marks)
    requires p < |data| && MarksOk(s, marks, p) && Fits(s, next, calls)
    ensures MarksOk(next, MarksAfter(calls, marks, p), p + 1)
    ensures PushAll(log, FiredBy(calls, marks, data, p) + Pending(MarksAfter(calls, marks, p), data, p + 1))
         == PushAll(PushAll(log, Pending(marks, data, p)), EventsOf(OpenKind(s), calls, data[p]))
  {
    hide *;
    var ch, marks' := data[p], MarksAfter(calls, marks, p);
    var open, base := OpenKind(s), PushAll(log, Pending(marks, data, p));
    MarksFollow(data, p, s, next, calls, marks);
    if calls.close == None && (open.Some? || InBody(s)) {
      var k := if open.Some? then open.value else Body;
      GoesOn(log, data, p, s, next, calls, marks);
    } else {
      var closing := ClosingOf(calls.close, marks, data, p);
      if calls.close.Some? {
        CloseFires(log, data, p, s, next, calls, marks);
      } else {
        NothingCloses(log, data, p);
        ClosingNone(marks, data, p, open);
      }
      Tail(log, base, closing, CloseEvents(open, calls.close, ch), data, p, calls, marks');
      EventsSplit(open, calls, ch);
      FiredSplit(calls, marks, data, p);
    }
  }

  lemma EventsSplit(open: Option<Kind>, calls: Calls, ch: char)
    requires calls.close.Some? || open.None?
    ensures EventsOf(open, calls, ch)
         == CloseEvents(open, calls.close, ch) + calls.notes
            + if calls.mark.Some? then [DataEvent(calls.mark.value, [ch], false)] else []
  {
    hide DataEvent;
  }

  lemma FiredSplit(calls: Calls, marks: Marks, data: string, p: nat)
    requires p < |data| && forall k <- marks :: marks[k] <= p
    ensures FiredBy(calls, marks, data, p) == ClosingOf(calls.close, marks, data, p) + calls.notes
  {
  }

  lemma ClosingNone(marks: Marks, data: string, p: nat, open: Option<Kind>)
    requires p < |data| && forall k <- marks :: marks[k] <= p
    ensures ClosingOf(None, marks, data, p) == [] && CloseEvents(open, None, data[p]) == []
  {
  }

  lemma OnlyMark(marks: Marks, k: Kind, p: nat)
    requires marks == map[] || marks.Keys == {k}
    ensures marks - {k} == map[]
    ensures SetMark(marks, k, p).Keys == {k}
    ensures SetMark(marks, k, p)[k] == if k in marks then marks[k] else p
    ensures SetMark(map[], k, p) == map[k := p]
  {
  }

  /** The marks stay in step with the state: behind a byte that goes on with its string. */
  lemma MarksGoOn(p: nat, s: State, next: State, calls: Calls, marks: Marks)
    requires MarksOk(s, marks, p) && Fits(s, next, calls) && calls.close == None && (OpenKind(s).Some? || InBody(s))
    ensures (forall k <- marks :: marks[k] <= p) && MarksOk(next, MarksAfter(calls, marks, p), p + 1)
  {
    hide OpenKind, InBody, SetMark;
    if OpenKind(s).Some? {
      assert MarksAfter(calls, marks, p) == marks;
    } else {
      OnlyMark(marks, Body, p);
    }
  }

  /** A closing callback leaves no mark, and without one there was none. */
  lemma MarksCleared(p: nat, s: State, next: State, calls: Calls, marks: Marks)
    requires MarksOk(s, marks, p) && Fits(s, next, calls) && !(calls.close == None && (OpenKind(s).Some? || InBody(s)))
    ensures forall k <- marks :: marks[k] <= p
    ensures if calls.close.Some? then marks - {calls.close.value.kind} == map[] else marks == map[]
  {
    hide OpenKind, InBody, SetMark;
    if calls.close.Some? {
      var k := calls.close.value.kind;
      assert marks == map[] || marks.Keys == {k};
      OnlyMark(marks, k, p);
    }
  }

  lemma NewMark(p: nat, s: State, next: State, calls: Calls)
    requires Fits(s, next, calls) && !(calls.close == None && (OpenKind(s).Some? || InBody(s)))
    ensures MarksOk(next, if calls.mark.Some? then map[calls.mark.value := p] else map[], p + 1)
  {
    hide OpenKind, InBody;
  }

  /** And behind any other byte. */
  lemma MarksEnd(p: nat, s: State, next: State, calls: Calls, marks: Marks)
    requires MarksOk(s, marks, p) && Fits(s, next, calls) && !(calls.close == None && (OpenKind(s).Some? || InBody(s)))
    ensures (forall k <- marks :: marks[k] <= p) && MarksOk(next, MarksAfter(calls, marks, p), p + 1)
    ensures MarksAfter(calls, marks, p) == if calls.mark.Some? then map[calls.mark.value := p] else map[]
    ensures calls.close == None ==> marks == map[]
  {
    hide OpenKind, InBody, SetMark, MarksOk, Fits;
    MarksCleared(p, s, next, calls, marks);
    NewMark(p, s, next, calls);
    if calls.mark.Some? {
      OnlyMark(map[], calls.mark.value, p);
    }
  }

  lemma MarksFollow(data: string, p: nat, s: State, next: State, calls: Calls, marks: Marks)
    requires p < |data| && MarksOk(s, marks, p) && Fits(s, next, calls)
    ensures (forall k <- marks :: marks[k] <= p) && MarksOk(next, MarksAfter(calls, marks, p), p + 1)
    ensures !(calls.close == None && (OpenKind(s).Some? || InBody(s))) ==>
              MarksAfter(calls, marks, p) == if calls.mark.Some? then map[calls.mark.value := p] else map[]
    ensures calls.close == None && OpenKind(s).None? && !InBody(s) ==> marks == map[]
  {
    hide *;
    if calls.close == None && (OpenKind(s).Some? || InBody(s)) {
      MarksGoOn(p, s, next, calls, marks);
    } else {
      MarksEnd(p, s, next, calls, marks);
    }
  }

  /** A byte of a string or body that goes on. */
  lemma GoesOn(log: seq<Event>, data: string, p: nat, s: State, next: State, calls: Calls, marks: Marks)
    requires p < |data| && MarksOk(s, marks, p) && Fits(s, next, calls)
    requires calls.close == None && (OpenKind(s).Some? || InBody(s))
    ensures forall k <- marks :: marks[k] <= p
    ensures PushAll(log, FiredBy(calls, marks, data, p) + Pending(MarksAfter(calls, marks, p), data, p + 1))
         == PushAll(PushAll(log, Pending(marks, data, p)), EventsOf(OpenKind(s), calls, data[p]))
  {
    hide OpenKind, Push, PushAll, Pending;
    var k := if OpenKind(s).Some? then OpenKind(s).value else Body;
    Continues(log, data, p, k, marks);
    assert SetMark(marks, k, p) == MarksAfter(calls, marks, p);
    assert FiredBy(calls, marks, data, p) == [];
    assert [] + Pending(MarksAfter(calls, marks, p), data, p + 1) == Pending(MarksAfter(calls, marks, p), data, p + 1);
    assert EventsOf(OpenKind(s), calls, data[p]) == [Data(k, [data[p]], false)];
  }

  lemma NothingCloses(log: seq<Event>, data: string, p: nat)
    requires p < |data|
    ensures PushAll(log, []) == PushAll(PushAll(log, Pending(map[], data, p)), [])
  {
    PendingNone(data, p);
  }
}
