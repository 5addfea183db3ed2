/** The order of the callbacks, and the bytes they hand over: what holds of every input, well-formed or not. */
module HttpProtocol {
  import opened Wrappers
  import opened HttpChars
  import opened HttpTypes
  import opened HttpStep
  import opened HttpRun
  import opened HttpInvariant
  import HttpExecute
  import HttpFragments

  /** Where a series of callbacks stands: between messages; behind the begin; inside a string, of the trailer or not;
      between header lines, with one that can be folded or without; behind a name; behind the header section;
      inside a chunk with so many bytes to come; behind a chunk; behind the last one. */
  datatype Place =
    | Between | Begun | Within(kind: Kind, trailer: bool) | Lines(trailer: bool, folds: bool) | Named(trailer: bool)
    | Opened | Chunk(left: nat) | Chunked | Trailed

  predicate Visible(c: char) {
    '!' <= c <= '~'
  }

  /** A byte a string can go on with. */
  predicate GoesOn(k: Kind, c: char) {
    match k
    case Url => Visible(c)
    case Status => c != CR && c != LF
    case Field => c in UPPER || c in SMALL || c in DIGITS || c in "!#$%&'*+-.^_`|~"
    case Value => c == '\t' || ' ' <= c <= '~' || c as int >= 128
    case Body => true
  }

  /** A byte a string can start with: that of a value is not looked at. */
  predicate StartsWith(k: Kind, c: char) {
    GoesOn(k, c) || (k == Value && c != CR && c != LF)
  }

  predicate AllGoOn(k: Kind, x: string) {
    forall i :: 0 <= i < |x| ==> GoesOn(k, x[i])
  }

  predicate Whole(k: Kind, x: string) {
    forall i :: 0 <= i < |x| ==> if i == 0 then StartsWith(k, x[i]) else GoesOn(k, x[i])
  }

  /** Where a string that is complete, or not, leads. */
  function Behind(k: Kind, trailer: bool, final: bool): Place {
    if !final then Within(k, trailer) else if k == Field then Named(trailer) else Lines(trailer, k == Value)
  }

  /** The callback that may come at a place, and the place behind it. Strings but body pieces are never empty as long as
      they are not complete. */
  function Next(p: Place, e: Event): Option<Place> {
    match e
    case MessageBegin => if p == Between then Some(Begun) else None
    case HeadersComplete(_, _, _, _, _) => if p.Lines? && !p.trailer then Some(Opened) else None
    case ChunkHeader(n) =>
      if p == Opened || p == Chunked then Some(if n == 0 then Lines(true, false) else Chunk(n)) else None
    case ChunkComplete => if p == Chunk(0) then Some(Chunked) else if p.Lines? && p.trailer then Some(Trailed) else None
    case MessageComplete => if p == Opened || p == Trailed then Some(Between) else None
    case Data(k, x, final) =>
      if x == [] && !final && k != Body then None
      else match p
      case Begun => if (k == Url || k == Status) && Whole(k, x) then Some(Behind(k, false, final)) else None
      case Lines(trailer, folds) =>
        if (k == Field || (k == Value && folds)) && Whole(k, x) then Some(Behind(k, trailer, final)) else None
      case Named(trailer) => if k == Value && Whole(k, x) then Some(Behind(k, trailer, final)) else None
      case Within(kind, trailer) => if k == kind && AllGoOn(k, x) then Some(Behind(k, trailer, final)) else None
      case Opened => if k == Body then Some(Opened) else None
      case Chunk(left) => if k == Body && |x| <= left then Some(Chunk(left - |x|)) else None
      case _ => None
  }

  /** The place behind a series of callbacks, if each may come where it comes. */
  function Walk(p: Place, es: seq<Event>): Option<Place> {
    if es == [] then Some(p)
    else match Walk(p, es[..|es| - 1])
      case None => None
      case Some(q) => Next(q, es[|es| - 1])
  }

  /** The place a parser is at, as far as its state tells. */
  predicate Stands(s: Parser, p: Place) {
    match s.state
    case Dead => p == Between case StartReqOrRes => p == Between case StartRes => p == Between case StartReq => p == Between
    case ResStatus => p == Within(Status, false)
    case HeaderFieldStart => p == Lines(s.flags.trailing, false)
    case HeaderField => p == Within(Field, s.flags.trailing)
    case HeaderValueDiscardWs => p == Named(s.flags.trailing)
    case HeaderValueDiscardWsAlmostDone => p == Named(s.flags.trailing)
    case HeaderValueDiscardLws => p == Named(s.flags.trailing)
    case HeaderValue => p == Within(Value, s.flags.trailing)
    case HeaderAlmostDone => p == Lines(s.flags.trailing, true)
    case HeaderValueLws => p == Lines(s.flags.trailing, true)
    case HeadersAlmostDone => p.Lines? && p.trailer == s.flags.trailing
    case ChunkSizeStart => p == Opened || p == Chunked
    case ChunkSize => p == Opened || p == Chunked
    case ChunkParameters => p == Opened || p == Chunked
    case ChunkSizeAlmostDone => p == Opened || p == Chunked
    case ChunkData => p == Chunk(s.length)
    case ChunkDataAlmostDone => p == Chunk(0)
    case ChunkDataDone => p == Chunk(0)
    case BodyIdentity => p == Opened
    case BodyIdentityEof => p == Opened
    case _ =>
      if OpenKind(s.state) == Some(Url) then p == Within(Url, false)
      else if BehindTarget(s.state) then p == Lines(false, false)
      else p == Begun
  }

  /** Between the target or the reason and the end of its line. */
  predicate BehindTarget(s: State) {
    s.ReqHttpStart? || s.ReqHttpH? || s.ReqHttpHT? || s.ReqHttpHTT? || s.ReqHttpHTTP? || s.ReqHttpI? || s.ReqHttpIC?
    || s.ReqHttpMajor? || s.ReqHttpDot? || s.ReqHttpMinor? || s.ReqHttpEnd? || s.ReqLineAlmostDone? || s.ResLineAlmostDone?
  }

  // ---- walks ----

  lemma WalkOne(p: Place, e: Event)
    ensures Walk(p, [e]) == Next(p, e)
  {
    hide Next;
    assert [e][..0] == [];
  }

  lemma WalkTwo(p: Place, a: Event, b: Event)
    ensures Walk(p, [a, b]) == match Next(p, a) case None => None case Some(q) => Next(q, b)
  {
    hide Next;
    WalkOne(p, a);
    assert [a, b][..1] == [a];
  }

  lemma {:induction false} WalkConcat(p: Place, a: seq<Event>, b: seq<Event>)
    ensures Walk(p, a + b) == match Walk(p, a) case None => None case Some(q) => Walk(q, b)
    decreases |b|
  {
    hide Next;
    if b == [] {
      assert a + b == a;
    } else {
      var init := b[..|b| - 1];
      assert (a + b)[..|a + b| - 1] == a + init;
      WalkConcat(p, a, init);
    }
  }

  /** Joining pieces of a string does not matter. */
  lemma NextJoined(p: Place, k: Kind, x: string, y: string, final: bool)
    requires Next(p, Data(k, x, false)).Some? && Next(Next(p, Data(k, x, false)).value, Data(k, y, final)).Some?
    ensures Next(p, Data(k, x + y, final)) == Next(Next(p, Data(k, x, false)).value, Data(k, y, final))
  {
    hide GoesOn, StartsWith;
    assert forall i :: |x| <= i < |x + y| ==> (x + y)[i] == y[i - |x|];
    assert forall i :: 0 <= i < |x| ==> (x + y)[i] == x[i];
  }

  lemma {:induction false} WalkPush(p: Place, log: seq<Event>, e: Event)
    requires Walk(p, log).Some? && Next(Walk(p, log).value, e).Some?
    ensures Walk(p, Push(log, e)) == Next(Walk(p, log).value, e)
  {
    hide Next;
    var last := |log| - 1;
    if |log| > 0 && e.Data? && log[last].Data? && !log[last].final && log[last].kind == e.kind {
      var init, f := log[..last], log[last];
      var joined := Data(e.kind, f.bytes + e.bytes, e.final);
      NextJoined(Walk(p, init).value, e.kind, f.bytes, e.bytes, e.final);
      assert (init + [joined])[..last] == init;
    } else {
      assert (log + [e])[..|log|] == log;
    }
  }

  lemma {:induction false} WalkPushAll(p: Place, log: seq<Event>, es: seq<Event>)
    requires Walk(p, log).Some? && Walk(Walk(p, log).value, es).Some?
    ensures Walk(p, PushAll(log, es)) == Walk(Walk(p, log).value, es)
    decreases |es|
  {
    hide Next, Push;
    if es != [] {
      var q := Walk(p, log).value;
      assert es == [es[0]] + es[1..];
      WalkConcat(q, [es[0]], es[1..]);
      WalkOne(q, es[0]);
      WalkPush(p, log, es[0]);
      WalkPushAll(p, Push(log, es[0]), es[1..]);
    }
  }

  // ---- the shapes of a step ----

  /** The callbacks of an act may come at `p`, and it leaves the parser behind them. */
  predicate Follows(open: Option<Kind>, p: Place, a: Act, ch: char) {
    !a.Fail? ==>
      && !a.s.lenient
      && match Walk(p, EventsOf(open, a.calls, ch)) case None => false case Some(q) => Stands(a.s, q)
  }

  lemma SilentFollows(p: Place, a: Act, ch: char)
    requires a.Go? && a.calls == SILENT && Stands(a.s, p) && !a.s.lenient
    ensures Follows(None, p, a, ch)
  {
    hide Stands;
    assert EventsOf(None, SILENT, ch) == [];
  }

  /** A byte of a string that goes on. */
  lemma GoesOnFollows(p: Place, k: Kind, trailer: bool, a: Act, ch: char)
    requires p == Within(k, trailer) && k != Body && GoesOn(k, ch) && a.Go? && a.calls == SILENT && Stands(a.s, p) && !a.s.lenient
    ensures Follows(Some(k), p, a, ch)
  {
    hide Stands, GoesOn;
    var e := Data(k, [ch], false);
    assert EventsOf(Some(k), SILENT, ch) == [e];
    WalkOne(p, e);
  }

  /** The first byte of a string, or a body byte. */
  lemma MarkFollows(open: Option<Kind>, p: Place, a: Act, k: Kind, ch: char)
    requires a.Go? && a.calls == Calls(None, [], Some(k)) && !a.s.lenient
    requires var q := Next(p, Data(k, [ch], false)); q.Some? && Stands(a.s, q.value)
    ensures Follows(open, p, a, ch)
  {
    hide Stands, Next;
    var e := Data(k, [ch], false);
    assert EventsOf(open, a.calls, ch) == [e];
    WalkOne(p, e);
  }

  /** The end of a string. */
  lemma CloseFollows(open: Option<Kind>, p: Place, a: Act, k: Kind, first: bool, ch: char)
    requires a.Go? && a.calls == Calls(Some(Close(k, first, false)), [], None) && k != Body && !a.s.lenient
    requires first || open == Some(k)
    requires var q := Next(p, Data(k, [], true)); q.Some? && Stands(a.s, q.value)
    ensures Follows(open, p, a, ch)
  {
    hide Stands, Next;
    var e := Data(k, [], true);
    assert EventsOf(open, a.calls, ch) == [e];
    WalkOne(p, e);
  }

  lemma NoteFollows(p: Place, a: Act, e: Event, ch: char)
    requires a.Go? && a.calls == Calls(None, [e], None) && !a.s.lenient
    requires var q := Next(p, e); q.Some? && Stands(a.s, q.value)
    ensures Follows(None, p, a, ch)
  {
    hide Stands, Next;
    assert EventsOf(None, a.calls, ch) == [e];
    WalkOne(p, e);
  }

  lemma TopStands(s: Parser)
    ensures BehindTarget(s.state) ==> forall p :: Stands(s, p) <==> p == Lines(false, false)
    ensures s.state.HeaderFieldStart? ==> forall p :: Stands(s, p) <==> p == Lines(s.flags.trailing, false)
    ensures s.state.ResH? || s.state.ResHT? || s.state.ResHTT? || s.state.ResHTTP? || s.state.ResHttpMajor?
            || s.state.ResHttpDot? || s.state.ResHttpMinor? || s.state.ResHttpEnd? || s.state.ResFirstStatusCode?
            || s.state.ResStatusCode? || s.state.ResStatusStart? || s.state.ReqMethod? || s.state.ReqSpacesBeforeUrl? ==>
              forall p :: Stands(s, p) <==> p == Begun
    ensures s.state.ResStatus? ==> forall p :: Stands(s, p) <==> p == Within(Status, false)
  {
  }

  lemma BodyStands(s: Parser)
    ensures s.state.ChunkSizeStart? || s.state.ChunkSize? || s.state.ChunkParameters? || s.state.ChunkSizeAlmostDone? ==>
              forall p :: Stands(s, p) <==> p == Opened || p == Chunked
    ensures s.state.ChunkData? ==> forall p :: Stands(s, p) <==> p == Chunk(s.length)
    ensures s.state.ChunkDataAlmostDone? || s.state.ChunkDataDone? ==> forall p :: Stands(s, p) <==> p == Chunk(0)
    ensures s.state.BodyIdentity? || s.state.BodyIdentityEof? ==> forall p :: Stands(s, p) <==> p == Opened
  {
  }

  // ---- the start line ----

  /** States that read no string and belong to no header section or body. */
  predicate Quiet(s: State) {
    s.Dead? || s.StartReqOrRes? || s.ResOrRespH? || s.StartRes? || s.StartReq? || s.ReqMethod?
    || s.ResH? || s.ResHT? || s.ResHTT? || s.ResHTTP? || s.ResHttpMajor? || s.ResHttpDot? || s.ResHttpMinor? || s.ResHttpEnd?
    || s.ResFirstStatusCode? || BehindTarget(s)
  }

  /** Go on without a callback, at the same place; or with the begin of a message. */
  predicate QuietAct(s: Parser, a: Act, p: Place) {
    || a.Fail?
    || (a.Go? && a.calls == SILENT && Stands(a.s, p) && a.s.lenient == s.lenient)
    || (a.Go? && a.calls == Calls(None, [MessageBegin], None) && p == Between && Stands(a.s, Begun) && a.s.lenient == s.lenient)
  }

  lemma LiteralQuiet(s: Parser, ch: char, p: Place)
    requires LiteralOf(s.state).Some? && Quiet(s.state) && Stands(s, p) && !s.flags.trailing
    ensures QuietAct(s, LiteralByte(s, ch), p)
  {
    LiteralLeads(s.state);
    hide LiteralOf, Stands;
    TopStands(s);
    TopStands(s.(state := LiteralOf(s.state).value.next));
  }

  lemma LiteralLeads(s: State)
    requires LiteralOf(s).Some? && Quiet(s)
    ensures var next := LiteralOf(s).value.next;
            if BehindTarget(s) then BehindTarget(next) || next.HeaderFieldStart?
            else next.ResHT? || next.ResHTT? || next.ResHTTP? || next.ResHttpMajor? || next.ResHttpMinor? || next.ResFirstStatusCode?
    ensures BehindTarget(s) || s.ResH? || s.ResHT? || s.ResHTT? || s.ResHTTP? || s.ResHttpDot? || s.ResHttpEnd?
  {
  }

  lemma StartsQuiet(s: Parser, ch: char, p: Place)
    ensures s.state.StartReqOrRes? && p == Between ==> QuietAct(s, StartReqOrResByte(s, ch), p)
    ensures s.state.ResOrRespH? && p == Begun ==> QuietAct(s, ResOrRespHByte(s, ch), p)
    ensures s.state.StartRes? && p == Between ==> QuietAct(s, StartResByte(s, ch), p)
    ensures s.state.StartReq? && p == Between ==> QuietAct(s, StartReqByte(s, ch), p)
  {
    hide FirstMethod;
  }

  lemma MethodQuiet(s: Parser, ch: char)
    requires s.state.ReqMethod?
    ensures QuietAct(s, MethodByte(s, ch), Begun)
  {
    hide Rematch, MethodString, CharAt;
  }

  lemma StatusVersionQuiet(s: Parser, ch: char)
    ensures QuietAct(s, MajorByte(s, ch, ResHttpDot), Begun) && QuietAct(s, MinorByte(s, ch, ResHttpEnd), Begun)
    ensures s.state.ResFirstStatusCode? ==> QuietAct(s, FirstStatusCodeByte(s, ch), Begun)
  {
    hide Stands;
    TopStands(s);
    TopStands(s.(major := if IsNum(ch) then Digit(ch) else 0, state := ResHttpDot));
    TopStands(s.(minor := if IsNum(ch) then Digit(ch) else 0, state := ResHttpEnd));
    TopStands(s.(status := if IsNum(ch) then Digit(ch) else 0, state := ResStatusCode));
  }

  lemma VersionQuiet(s: Parser, ch: char)
    ensures QuietAct(s, MajorByte(s, ch, ReqHttpDot), Lines(false, false))
    ensures QuietAct(s, MinorByte(s, ch, ReqHttpEnd), Lines(false, false))
  {
    hide Stands;
    TopStands(s.(major := if IsNum(ch) then Digit(ch) else 0, state := ReqHttpDot));
    TopStands(s.(minor := if IsNum(ch) then Digit(ch) else 0, state := ReqHttpEnd));
  }

  lemma BehindTargetQuiet(s: Parser, ch: char)
    requires !s.flags.trailing
    ensures s.state.ReqHttpStart? ==> QuietAct(s, HttpStartByte(s, ch), Lines(false, false))
    ensures s.state.ReqHttpEnd? ==> QuietAct(s, HttpEndByte(s, ch), Lines(false, false))
  {
    hide Stands;
    TopStands(s);
    TopStands(s.(state := ReqHttpH));
    TopStands(s.(state := ReqHttpI));
    TopStands(s.(state := ReqLineAlmostDone));
    TopStands(s.(state := HeaderFieldStart));
  }

  lemma QuietStands(s: Parser, p: Place)
    requires Quiet(s.state)
    ensures Stands(s, p) <==> p == if s.state.Dead? || s.state.StartReqOrRes? || s.state.StartRes? || s.state.StartReq? then Between
                                   else if BehindTarget(s.state) then Lines(false, false) else Begun
    ensures OpenKind(s.state) == None
  {
  }

  lemma DeadQuiet(s: Parser, ch: char)
    requires s.state.Dead?
    ensures QuietAct(s, if ch == CR || ch == LF then Go(s, SILENT) else Fail(ClosedConnection), Between)
  {
  }

  lemma QuietDispatch(st: Settings, s: Parser, ch: char, p: Place)
    requires Quiet(s.state) && Stands(s, p)
    requires !s.flags.trailing || s.state.Dead? || s.state.StartReqOrRes? || s.state.StartRes? || s.state.StartReq?
    ensures QuietAct(s, Dispatch(st, s, ch), p)
  {
    hide LiteralByte, MajorByte, MinorByte, HttpStartByte, HttpEndByte, FirstStatusCodeByte, StartReqOrResByte, ResOrRespHByte,
         StartResByte, StartReqByte, MethodByte, QuietAct, Stands;
    QuietStands(s, p);
    StartsQuiet(s, ch, p);
    VersionQuiet(s, ch);
    StatusVersionQuiet(s, ch);
    if s.state.Dead? {
      DeadQuiet(s, ch);
    } else if s.state.ReqMethod? {
      MethodQuiet(s, ch);
    } else if LiteralOf(s.state).Some? {
      LiteralQuiet(s, ch, p);
    } else if BehindTarget(s.state) {
      BehindTargetQuiet(s, ch);
    }
  }

  lemma QuietFollows(st: Settings, s: Parser, ch: char, p: Place)
    requires Quiet(s.state) && Stands(s, p) && !s.lenient
    requires !s.flags.trailing || s.state.Dead? || s.state.StartReqOrRes? || s.state.StartRes? || s.state.StartReq?
    ensures Follows(None, p, Dispatch(st, s, ch), ch)
  {
    hide Dispatch, Stands, Follows;
    QuietDispatch(st, s, ch, p);
    var a := Dispatch(st, s, ch);
    if a.Fail? {
      FailFollows(None, p, a, ch);
    } else if a.calls == SILENT {
      SilentFollows(p, a, ch);
    } else {
      NoteFollows(p, a, MessageBegin, ch);
    }
  }

  lemma FailFollows(open: Option<Kind>, p: Place, a: Act, ch: char)
    requires a.Fail?
    ensures Follows(open, p, a, ch)
  {
  }

  lemma UrlVisible(s: State, ch: char)
    ensures UrlChar(s, ch) != Dead ==> Visible(ch)
  {
  }

  lemma UrlStands(s: Parser, p: Place)
    requires OpenKind(s.state) == Some(Url)
    ensures Stands(s, p) <==> p == Within(Url, false)
  {
  }

  lemma SpacesFollow(s: Parser, ch: char)
    requires s.state.ReqSpacesBeforeUrl? && !s.lenient
    ensures Follows(None, Begun, SpacesBeforeUrlByte(s, ch), ch)
  {
    hide UrlChar, Follows, Stands;
    var a := SpacesBeforeUrlByte(s, ch);
    if a.Fail? {
      FailFollows(None, Begun, a, ch);
    } else if ch == ' ' {
      SpacesStand(s);
      SilentFollows(Begun, a, ch);
    } else {
      var next := a.s.state;
      UrlVisible(if s.verb == CONNECT then ReqServerStart else s.state, ch);
      UrlCharKind(if s.verb == CONNECT then ReqServerStart else s.state, ch);
      UrlStands(a.s, Within(Url, false));
      MarkFollows(None, Begun, a, Url, ch);
    }
  }

  lemma SpacesStand(s: Parser)
    requires s.state.ReqSpacesBeforeUrl?
    ensures Stands(s, Begun)
  {
  }

  lemma UrlGoesOnFollows(s: Parser, ch: char)
    requires OpenKind(s.state) == Some(Url) && !s.lenient
    ensures Follows(Some(Url), Within(Url, false), UrlByte(s, ch), ch)
  {
    hide UrlChar, Follows, Stands, OpenKind;
    var a := UrlByte(s, ch);
    if a.Fail? {
      FailFollows(Some(Url), Within(Url, false), a, ch);
    } else {
      UrlVisible(s.state, ch);
      UrlCharKind(s.state, ch);
      UrlStands(a.s, Within(Url, false));
      GoesOnFollows(Within(Url, false), Url, false, a, ch);
    }
  }

  lemma UrlEndFollows(s: Parser, ch: char)
    requires OpenKind(s.state) == Some(Url) && !s.lenient && !s.flags.trailing
    ensures Follows(Some(Url), Within(Url, false), UrlEndableByte(s, ch), ch)
  {
    hide UrlByte, Follows, Stands;
    if ch == ' ' || ch == CR || ch == LF {
      TopStands(UrlEndableByte(s, ch).s);
      CloseFollows(Some(Url), Within(Url, false), UrlEndableByte(s, ch), Url, false, ch);
    } else {
      UrlGoesOnFollows(s, ch);
    }
  }

  lemma UrlFollows(st: Settings, s: Parser, ch: char)
    requires OpenKind(s.state) == Some(Url) && !s.lenient && !s.flags.trailing
    ensures Follows(Some(Url), Within(Url, false), Dispatch(st, s, ch), ch)
  {
    hide UrlByte, UrlEndableByte, Follows;
    UrlGoesOnFollows(s, ch);
    UrlEndFollows(s, ch);
  }

  lemma StatusFollows(s: Parser, ch: char)
    requires !s.lenient && !s.flags.trailing
    ensures s.state.ResStatusStart? || s.state.ResStatusCode? ==> Follows(None, Begun, StatusStartByte(s, ch), ch)
    ensures s.state.ResStatus? ==> Follows(Some(Status), Within(Status, false), StatusByte(s, ch), ch)
  {
    hide Follows, Stands;
    if s.state.ResStatus? {
      var p, a := Within(Status, false), StatusByte(s, ch);
      TopStands(a.s);
      if ch == CR || ch == LF {
        CloseFollows(Some(Status), p, a, Status, false, ch);
      } else {
        GoesOnFollows(p, Status, false, a, ch);
      }
    } else {
      var a := StatusStartByte(s, ch);
      TopStands(a.s);
      if ch == CR || ch == LF {
        CloseFollows(None, Begun, a, Status, true, ch);
      } else {
        MarkFollows(None, Begun, a, Status, ch);
      }
    }
  }

  lemma CodeFollows(s: Parser, ch: char)
    requires !s.lenient && !s.flags.trailing && s.state.ResStatusCode?
    ensures Follows(None, Begun, StatusCodeByte(s, ch), ch)
  {
    hide Follows, StatusStartByte;
    StatusFollows(s, ch);
    var a := StatusCodeByte(s, ch);
    if a.Fail? {
      FailFollows(None, Begun, a, ch);
    } else if ch != CR && ch != LF {
      SilentFollows(Begun, a, ch);
    }
  }

  // ---- headers ----

  lemma TokenGoesOn(ch: char)
    ensures IsToken(ch) ==> GoesOn(Field, ch)
  {
    TokenAlphabet(ch);
    hide UPPER, SMALL, DIGITS, IsToken;
  }

  lemma ValueGoesOn(ch: char)
    ensures ch != CR && ch != LF && IsHeaderChar(ch) ==> GoesOn(Value, ch)
    ensures ch != CR && ch != LF ==> StartsWith(Value, ch)
  {
    if ch != CR && ch != LF {
      ValueAlphabet(ch);
    }
  }

  lemma EndFollows(st: Settings, s: Parser, p: Place, ch: char)
    requires s.state.HeadersAlmostDone? && p.Lines? && p.trailer == s.flags.trailing && !s.lenient
    ensures Follows(None, p, HeadersAlmostDoneByte(st, s, ch), ch)
  {
    hide Follows, NewMessage;
    var a := HeadersAlmostDoneByte(st, s, ch);
    if a.Fail? {
      FailFollows(None, p, a, ch);
    } else if s.flags.trailing {
      NewMessageStands(s);
      TwoFollow(p, a, ChunkComplete, MessageComplete, Trailed, Between, ch);
    } else {
      SectionFollows(st, s, p, ch);
    }
  }

  /** The end of a header section that is not a trailer. */
  lemma SectionFollows(st: Settings, s: Parser, p: Place, ch: char)
    requires s.state.HeadersAlmostDone? && p.Lines? && !p.trailer && !s.flags.trailing && !s.lenient
    ensures Follows(None, p, HeadersAlmostDoneByte(st, s, ch), ch)
  {
    hide HeadersDoneByte, Follows;
    var a := HeadersAlmostDoneByte(st, s, ch);
    if a.Fail? {
      FailFollows(None, p, a, ch);
    } else {
      var up := if s.flags.upgrade && s.flags.connUpgrade then s.typ == ParserType.Request || s.status == 101
                else s.verb == CONNECT;
      var t := s.(upgrade := up || st.headersAnswer == 2, flags := s.flags.(skipBody := s.flags.skipBody || st.headersAnswer != 0));
      DoneFollows(t, HeadersComplete(s.verb, s.major, s.minor, s.status, up), p, ch);
    }
  }

  lemma DoneFollows(s: Parser, e: Event, p: Place, ch: char)
    requires e.HeadersComplete? && p.Lines? && !p.trailer && !s.lenient
    ensures Follows(None, p, HeadersDoneByte(s, [e]), ch)
  {
    hide Follows, NewMessage, NeedsEof, Stands;
    NewMessageStands(s);
    BodyStands(HeadersDoneByte(s, [e]).s);
    var a := HeadersDoneByte(s, [e]);
    if a.calls == Calls(None, [e], None) {
      NoteFollows(p, a, e, ch);
    } else {
      TwoFollow(p, a, e, MessageComplete, Opened, Between, ch);
    }
  }

  lemma NewMessageStands(s: Parser)
    ensures var next := NewMessage(s);
            && (next.Dead? || next.StartReq? || next.StartRes? || next.StartReqOrRes?)
            && forall t: Parser :: t.state == next ==> Stands(t, Between)
  {
  }

  lemma TwoFollow(p: Place, a: Act, e: Event, f: Event, q: Place, r: Place, ch: char)
    requires !a.Fail? && a.calls == Calls(None, [e] + [f], None) && !a.s.lenient
    requires Next(p, e) == Some(q) && Next(q, f) == Some(r) && Stands(a.s, r)
    ensures Follows(None, p, a, ch)
  {
    hide Stands, Next;
    assert EventsOf(None, a.calls, ch) == [e, f];
    WalkTwo(p, e, f);
  }

  /** Inside a header section the place tells whether it is the trailer. */
  lemma HeaderStands(s: Parser)
    ensures s.state.HeaderFieldStart? ==> forall p :: Stands(s, p) <==> p == Lines(s.flags.trailing, false)
    ensures s.state.HeaderField? ==> forall p :: Stands(s, p) <==> p == Within(Field, s.flags.trailing)
    ensures s.state.HeaderValueDiscardWs? || s.state.HeaderValueDiscardWsAlmostDone? || s.state.HeaderValueDiscardLws? ==>
              forall p :: Stands(s, p) <==> p == Named(s.flags.trailing)
    ensures s.state.HeaderValue? ==> forall p :: Stands(s, p) <==> p == Within(Value, s.flags.trailing)
    ensures s.state.HeaderAlmostDone? || s.state.HeaderValueLws? ==> forall p :: Stands(s, p) <==> p == Lines(s.flags.trailing, true)
    ensures s.state.HeadersAlmostDone? ==> forall p :: Stands(s, p) <==> p.Lines? && p.trailer == s.flags.trailing
  {
  }

  lemma FieldStartFollows(st: Settings, s: Parser, p: Place, ch: char)
    requires p.Lines? && p.trailer == s.flags.trailing && !s.lenient
    ensures Follows(None, p, FieldStartByte(st, s, ch), ch)
    ensures !FieldStartByte(st, s, ch).Fail? ==> FieldStartByte(st, s, ch).calls.close == None
  {
    hide Follows, HeadersAlmostDoneByte, Stands, IsToken, GoesOn;
    var a := FieldStartByte(st, s, ch);
    TokenGoesOn(ch);
    EndCloses(st, s.(state := HeadersAlmostDone), ch);
    if ch == CR {
      HeaderStands(a.s);
      SilentFollows(p, a, ch);
    } else if ch == LF {
      EndFollows(st, s.(state := HeadersAlmostDone), p, ch);
    } else if a.Fail? {
      FailFollows(None, p, a, ch);
    } else {
      HeaderStands(a.s);
      MarkFollows(None, p, a, Field, ch);
    }
  }

  lemma EndCloses(st: Settings, s: Parser, ch: char)
    ensures var a := HeadersAlmostDoneByte(st, s, ch); !a.Fail? ==> a.calls.close == None
  {
    hide NewMessage, AfterHeaders;
  }

  lemma FieldFollows(s: Parser, ch: char)
    requires s.state.HeaderField? && !s.lenient
    ensures Follows(Some(Field), Within(Field, s.flags.trailing), FieldByte(s, ch), ch)
  {
    hide Follows, Stands, IsToken, GoesOn, FieldNext, Token;
    var a, p := FieldByte(s, ch), Within(Field, s.flags.trailing);
    TokenGoesOn(ch);
    if a.Fail? {
      FailFollows(Some(Field), p, a, ch);
    } else {
      HeaderStands(a.s);
      if IsToken(ch) {
        GoesOnFollows(p, Field, s.flags.trailing, a, ch);
      } else {
        CloseFollows(Some(Field), p, a, Field, false, ch);
      }
    }
  }

  lemma ValueStartFollows(s: Parser, p: Place, ch: char)
    requires p == Named(s.flags.trailing) || p == Lines(s.flags.trailing, true)
    requires ch != CR && ch != LF && !s.lenient
    ensures Follows(None, p, ValueStartByte(s, ch), ch)
  {
    hide Follows, Stands, GoesOn, StartsWith, ValueStart, Lower;
    var a := ValueStartByte(s, ch);
    ValueGoesOn(ch);
    if a.Fail? {
      FailFollows(None, p, a, ch);
    } else {
      HeaderStands(a.s);
      MarkFollows(None, p, a, Value, ch);
    }
  }

  lemma DiscardWsFollows(s: Parser, ch: char)
    requires s.state.HeaderValueDiscardWs? && !s.lenient
    ensures Follows(None, Named(s.flags.trailing), DiscardWsByte(s, ch), ch)
  {
    hide Follows, Stands, ValueStartByte;
    var a, p := DiscardWsByte(s, ch), Named(s.flags.trailing);
    if ch == ' ' || ch == '\t' || ch == CR || ch == LF {
      HeaderStands(a.s);
      SilentFollows(p, a, ch);
    } else {
      ValueStartFollows(s, p, ch);
    }
  }

  lemma ValueKeepsTrailing(v: Scan, ch: char)
    requires v.Scan?
    ensures ValueNext(v, ch).Scan? ==> ValueNext(v, ch).flags.trailing == v.flags.trailing
  {
    hide MatchedValue, TokenEnd, LengthDigit, Lower, IsToken;
    EndKeepsTrailing(v, ch, v.flags.(keepAlive := true));
    EndKeepsTrailing(v, ch, v.flags.(close := true));
    EndKeepsTrailing(v, ch, v.flags.(connUpgrade := true));
    MatchKeepsTrailing(v, Lower(ch));
  }

  lemma EndKeepsTrailing(v: Scan, ch: char, flags: Flags)
    requires v.Scan? && flags.trailing == v.flags.trailing
    ensures TokenEnd(v, ch, flags).Scan? && TokenEnd(v, ch, flags).flags.trailing == v.flags.trailing
    ensures LengthDigit(v, ch).Scan? ==> LengthDigit(v, ch).flags.trailing == v.flags.trailing
  {
  }

  lemma MatchKeepsTrailing(v: Scan, c: char)
    requires v.Scan?
    ensures forall word: string, lost: HState, done: HState ::
              MatchedValue(v, word, c, lost, done).Scan? && MatchedValue(v, word, c, lost, done).flags.trailing == v.flags.trailing
  {
    hide Matched;
  }

  lemma ValueFollows(s: Parser, ch: char)
    requires s.state.HeaderValue? && !s.lenient
    ensures Follows(Some(Value), Within(Value, s.flags.trailing), ValueByte(s, ch), ch)
  {
    hide Follows, Stands, GoesOn, ValueNext, IsHeaderChar;
    var a, p := ValueByte(s, ch), Within(Value, s.flags.trailing);
    ValueKeepsTrailing(ScanOf(s), ch);
    ValueGoesOn(ch);
    if a.Fail? {
      FailFollows(Some(Value), p, a, ch);
    } else {
      HeaderStands(a.s);
      if ch == CR || ch == LF {
        CloseFollows(Some(Value), p, a, Value, false, ch);
      } else {
        GoesOnFollows(p, Value, s.flags.trailing, a, ch);
      }
    }
  }

  lemma LineKeepsTrailing(hs: HState, flags: Flags)
    ensures LineFlags(hs, flags).trailing == flags.trailing
  {
  }

  lemma ValueLwsFollows(st: Settings, s: Parser, ch: char)
    requires s.state.HeaderValueLws? && !s.lenient
    ensures Follows(None, Lines(s.flags.trailing, true), ValueLwsByte(st, s, ch), ch)
  {
    hide Follows, ValueStartByte, FieldStartByte, LineFlags;
    LineKeepsTrailing(s.hs, s.flags);
    var p := Lines(s.flags.trailing, true);
    if ch == ' ' || ch == '\t' {
      ValueStartFollows(s.(hs := if s.hs == ContentLengthNum then ContentLengthWs else s.hs, state := HeaderValueStart), p, ch);
    } else {
      FieldStartFollows(st, s.(flags := LineFlags(s.hs, s.flags), state := HeaderFieldStart), p, ch);
    }
  }

  /** The empty value is reported first. */
  lemma EmptyFirst(p: Place, q: Place, a: Act, b: Act, ch: char)
    requires Follows(None, q, a, ch) && !a.Fail? && a.calls.close == None && Next(p, Data(Value, [], true)) == Some(q)
    requires !b.Fail? && b.s == a.s && b.calls == a.calls.(close := Some(Close(Value, true, false)))
    ensures Follows(None, p, b, ch)
  {
    hide Stands, Next;
    var e := Data(Value, [], true);
    assert EventsOf(None, b.calls, ch) == [e] + EventsOf(None, a.calls, ch);
    WalkOne(p, e);
    WalkConcat(p, [e], EventsOf(None, a.calls, ch));
  }

  lemma DiscardLwsFollows(st: Settings, s: Parser, ch: char)
    requires s.state.HeaderValueDiscardLws? && !s.lenient
    ensures Follows(None, Named(s.flags.trailing), DiscardLwsByte(st, s, ch), ch)
  {
    hide Follows, FieldStartByte, LineFlags, Stands;
    LineKeepsTrailing(s.hs, s.flags);
    var p, q := Named(s.flags.trailing), Lines(s.flags.trailing, true);
    var b := DiscardLwsByte(st, s, ch);
    if b.Fail? {
      FailFollows(None, p, b, ch);
    } else if ch == ' ' || ch == '\t' {
      HeaderStands(b.s);
      SilentFollows(p, b, ch);
    } else {
      var t := s.(flags := LineFlags(s.hs, s.flags), state := HeaderFieldStart);
      FieldStartFollows(st, t, q, ch);
      EmptyFirst(p, q, FieldStartByte(st, t, ch), b, ch);
    }
  }

  lemma LineLiteralFollows(s: Parser, p: Place, ch: char)
    requires s.state.HeaderValueDiscardWsAlmostDone? || s.state.HeaderAlmostDone?
    requires Stands(s, p) && !s.lenient
    ensures Follows(None, p, LiteralByte(s, ch), ch)
  {
    hide Follows, Stands;
    HeaderStands(s);
    var a := LiteralByte(s, ch);
    if a.Fail? {
      FailFollows(None, p, a, ch);
    } else {
      HeaderStands(a.s);
      SilentFollows(p, a, ch);
    }
  }

  // ---- bodies ----

  lemma ChunkFollows(s: Parser, p: Place, ch: char)
    requires Stands(s, p) && !s.lenient
    ensures s.state.ChunkSizeStart? ==> Follows(None, p, ChunkSizeStartByte(s, ch), ch)
    ensures s.state.ChunkSize? ==> Follows(None, p, ChunkSizeByte(s, ch), ch)
    ensures s.state.ChunkParameters? ==>
              Follows(None, p, if ch == CR then To(s, ChunkSizeAlmostDone) else Go(s, SILENT), ch)
  {
    hide Follows, Unhex, Stands;
    BodyStands(s);
    var a := if s.state.ChunkSizeStart? then ChunkSizeStartByte(s, ch) else if s.state.ChunkSize? then ChunkSizeByte(s, ch)
             else if ch == CR then To(s, ChunkSizeAlmostDone) else Go(s, SILENT);
    if a.Fail? {
      FailFollows(None, p, a, ch);
    } else if s.state.ChunkSizeStart? || s.state.ChunkSize? || s.state.ChunkParameters? {
      BodyStands(a.s);
      SilentFollows(p, a, ch);
    }
  }

  lemma SizeFollows(s: Parser, p: Place, ch: char)
    requires s.state.ChunkSizeAlmostDone? && (p == Opened || p == Chunked) && !s.lenient
    ensures Follows(None, p, ChunkSizeAlmostDoneByte(s, ch), ch)
  {
    hide Follows;
    var a := ChunkSizeAlmostDoneByte(s, ch);
    if a.Fail? {
      FailFollows(None, p, a, ch);
    } else {
      NoteFollows(p, a, ChunkHeader(s.length), ch);
    }
  }

  lemma DataFollows(s: Parser, ch: char)
    requires s.state.ChunkData? && s.length > 0 && !s.lenient
    ensures Follows(None, Chunk(s.length), ChunkDataByte(s), ch)
  {
    hide Follows;
    MarkFollows(None, Chunk(s.length), ChunkDataByte(s), Body, ch);
  }

  lemma DataEndFollows(s: Parser, ch: char)
    requires (s.state.ChunkDataAlmostDone? || s.state.ChunkDataDone?) && !s.lenient
    ensures s.state.ChunkDataAlmostDone? ==>
              Follows(None, Chunk(0), if ch != CR then Fail(Strict) else Closing(s, Body, ChunkDataDone), ch)
    ensures s.state.ChunkDataDone? ==> Follows(None, Chunk(0), ChunkDataDoneByte(s, ch), ch)
  {
    var a := if s.state.ChunkDataDone? then ChunkDataDoneByte(s, ch)
             else if ch != CR then Fail(Strict) else Closing(s, Body, ChunkDataDone);
    if a.Fail? {
    } else if s.state.ChunkDataAlmostDone? {
      assert EventsOf(None, a.calls, ch) == [];
    } else {
      hide Follows;
      NoteFollows(Chunk(0), a, ChunkComplete, ch);
    }
  }

  lemma IdentityFollows(s: Parser, ch: char)
    requires s.state.BodyIdentity? && s.length > 0 && !s.lenient
    ensures Follows(None, Opened, BodyIdentityByte(s), ch)
  {
    hide NewMessage, Stands;
    var a := BodyIdentityByte(s);
    BodyStands(a.s);
    NewMessageStands(s.(length := 0));
    if s.length == 1 {
      var e := Data(Body, [ch], false);
      assert EventsOf(None, a.calls, ch) == [e, MessageComplete];
      WalkTwo(Opened, e, MessageComplete);
    } else {
      hide Follows;
      MarkFollows(None, Opened, a, Body, ch);
    }
  }

  lemma RestFollows(s: Parser, ch: char)
    requires s.state.BodyIdentityEof? && !s.lenient
    ensures Follows(None, Opened, Marking(s, Body), ch)
  {
    hide Follows;
    MarkFollows(None, Opened, Marking(s, Body), Body, ch);
  }

  // ---- every byte, every run ----

  predicate HeadState(s: State) {
    (s.HeaderFieldStart? || s.HeaderField? || s.HeaderValueDiscardWs? || s.HeaderValueDiscardWsAlmostDone?
     || s.HeaderValueDiscardLws? || s.HeaderValue? || s.HeaderAlmostDone? || s.HeaderValueLws? || s.HeadersAlmostDone?)
  }

  lemma HeadFollows(st: Settings, s: Parser, p: Place, ch: char)
    requires HeadState(s.state) && Stands(s, p) && !s.lenient
    ensures Follows(OpenKind(s.state), p, Dispatch(st, s, ch), ch)
  {
    hide Follows, Stands, FieldStartByte, FieldByte, DiscardWsByte, LiteralByte, DiscardLwsByte, ValueByte, ValueLwsByte,
         HeadersAlmostDoneByte;
    HeaderStands(s);
    if s.state.HeaderFieldStart? {
      FieldStartFollows(st, s, p, ch);
    } else if s.state.HeaderField? {
      FieldFollows(s, ch);
    } else if s.state.HeadersAlmostDone? {
      EndFollows(st, s, p, ch);
    } else if s.state.HeaderValueDiscardWsAlmostDone? || s.state.HeaderAlmostDone? {
      LineLiteralFollows(s, p, ch);
    } else {
      InValueFollows(st, s, p, ch);
    }
  }

  lemma InValueFollows(st: Settings, s: Parser, p: Place, ch: char)
    requires s.state.HeaderValueDiscardWs? || s.state.HeaderValueDiscardLws? || s.state.HeaderValue? || s.state.HeaderValueLws?
    requires Stands(s, p) && !s.lenient
    ensures Follows(OpenKind(s.state), p, Dispatch(st, s, ch), ch)
  {
    hide Follows, Stands, DiscardWsByte, DiscardLwsByte, ValueByte, ValueLwsByte;
    HeaderStands(s);
    if s.state.HeaderValueDiscardWs? {
      DiscardWsFollows(s, ch);
    } else if s.state.HeaderValueDiscardLws? {
      DiscardLwsFollows(st, s, ch);
    } else if s.state.HeaderValue? {
      ValueFollows(s, ch);
    } else {
      ValueLwsFollows(st, s, ch);
    }
  }

  predicate BodyState(s: State) {
    (s.ChunkSizeStart? || s.ChunkSize? || s.ChunkParameters? || s.ChunkSizeAlmostDone? || s.ChunkData?
     || s.ChunkDataAlmostDone? || s.ChunkDataDone? || s.BodyIdentity? || s.BodyIdentityEof?)
  }

  lemma BodyFollows(st: Settings, s: Parser, p: Place, ch: char)
    requires BodyState(s.state) && Stands(s, p) && !s.lenient && (s.state.ChunkData? || s.state.BodyIdentity? ==> s.length > 0)
    ensures Follows(OpenKind(s.state), p, Dispatch(st, s, ch), ch)
  {
    hide Follows, Stands, ChunkSizeStartByte, ChunkSizeByte, ChunkSizeAlmostDoneByte, ChunkDataByte, ChunkDataDoneByte,
         BodyIdentityByte;
    BodyStands(s);
    if s.state.ChunkSizeStart? || s.state.ChunkSize? || s.state.ChunkParameters? {
      ChunkFollows(s, p, ch);
    } else if s.state.ChunkSizeAlmostDone? {
      SizeFollows(s, p, ch);
    } else if s.state.ChunkData? {
      DataFollows(s, ch);
    } else if s.state.BodyIdentity? {
      IdentityFollows(s, ch);
    } else if s.state.BodyIdentityEof? {
      RestFollows(s, ch);
    } else {
      DataEndFollows(s, ch);
    }
  }

  lemma StatusLineFollows(st: Settings, s: Parser, p: Place, ch: char)
    requires s.state.ResStatusCode? || s.state.ResStatusStart? || s.state.ResStatus?
    requires Stands(s, p) && !s.lenient && !s.flags.trailing
    ensures Follows(OpenKind(s.state), p, Dispatch(st, s, ch), ch)
  {
    hide Follows, Stands, StatusCodeByte, StatusStartByte, StatusByte;
    TopStands(s);
    if s.state.ResStatusCode? {
      CodeFollows(s, ch);
    } else {
      StatusFollows(s, ch);
    }
  }

  /** What the invariant says here. */
  lemma InvHas(s: Parser)
    requires Inv(s)
    ensures Quiet(s.state) || OpenKind(s.state) == Some(Url) || HeadState(s.state) || BodyState(s.state)
            || s.state.ReqSpacesBeforeUrl? || s.state.ResStatusCode? || s.state.ResStatusStart? || s.state.ResStatus?
    ensures s.state.ChunkData? || s.state.BodyIdentity? ==> s.length > 0
    ensures Quiet(s.state) || OpenKind(s.state) == Some(Url) || s.state.ReqSpacesBeforeUrl? || s.state.ResStatusCode?
            || s.state.ResStatusStart? || s.state.ResStatus? ==>
              !s.flags.trailing || s.state.Dead? || s.state.StartReqOrRes? || s.state.StartRes? || s.state.StartReq?
  {
    hide FieldsInv, IndexOk, FieldHState, ValueHState, MethodString;
  }

  /** Counting the byte does not matter. */
  lemma CountedStands(s: Parser, n: nat, p: Place)
    ensures Stands(s.(nread := n), p) <==> Stands(s, p)
  {
  }

  lemma DispatchFollows(st: Settings, s: Parser, p: Place, ch: char)
    requires Stands(s, p) && !s.lenient
    requires Quiet(s.state) || OpenKind(s.state) == Some(Url) || HeadState(s.state) || BodyState(s.state)
             || s.state.ReqSpacesBeforeUrl? || s.state.ResStatusCode? || s.state.ResStatusStart? || s.state.ResStatus?
    requires s.state.ChunkData? || s.state.BodyIdentity? ==> s.length > 0
    requires Quiet(s.state) || OpenKind(s.state) == Some(Url) || s.state.ReqSpacesBeforeUrl? || s.state.ResStatusCode?
             || s.state.ResStatusStart? || s.state.ResStatus? ==>
               !s.flags.trailing || s.state.Dead? || s.state.StartReqOrRes? || s.state.StartRes? || s.state.StartReq?
    ensures Follows(OpenKind(s.state), p, Dispatch(st, s, ch), ch)
  {
    hide Follows, Stands, Dispatch, OpenKind, Quiet, HeadState, BodyState;
    if Quiet(s.state) {
      QuietStands(s, p);
      QuietFollows(st, s, ch, p);
    } else if OpenKind(s.state) == Some(Url) {
      UrlStands(s, p);
      UrlFlagged(s.state);
      UrlFollows(st, s, ch);
    } else if HeadState(s.state) {
      HeadFollows(st, s, p, ch);
    } else if BodyState(s.state) {
      BodyFollows(st, s, p, ch);
    } else if s.state.ReqSpacesBeforeUrl? {
      TopStands(s);
      SpacesDispatch(st, s, ch);
      SpacesFollow(s, ch);
    } else {
      StatusLineFollows(st, s, p, ch);
    }
  }

  lemma UrlFlagged(s: State)
    requires OpenKind(s) == Some(Url)
    ensures !s.Dead? && !s.StartReqOrRes? && !s.StartRes? && !s.StartReq?
  {
  }

  lemma SpacesDispatch(st: Settings, s: Parser, ch: char)
    requires s.state.ReqSpacesBeforeUrl?
    ensures Dispatch(st, s, ch) == SpacesBeforeUrlByte(s, ch) && OpenKind(s.state) == None
  {
    hide SpacesBeforeUrlByte;
  }

  /** Every byte, in every state, makes only callbacks that may come where the parser stands. */
  lemma StepFollows(st: Settings, s: Parser, p: Place, ch: char)
    requires Inv(s) && Stands(s, p) && !s.lenient
    ensures Follows(OpenKind(s.state), p, Step(st, s, ch), ch)
  {
    hide Follows, Stands, Dispatch, OpenKind, Quiet, HeadState, BodyState, Inv;
    InvHas(s);
    if !ParsingHeader(s.state) {
      DispatchFollows(st, s, p, ch);
    } else if s.nread + 1 > MAX_HEADER_SIZE {
      FailFollows(OpenKind(s.state), p, Step(st, s, ch), ch);
    } else {
      CountedStands(s, s.nread + 1, p);
      DispatchFollows(st, s.(nread := s.nread + 1), p, ch);
    }
  }

  /** On every input whatsoever, the callbacks come in order: of each message first its begin, then its target or
      reason, names each with its value, the end of the header section once, then a body or chunks of the size announced,
      each closed, and a completion at last; and targets, names, reasons and values contain no byte that cannot stand
      there, but for the first byte of a value, which is not looked at. */
  lemma {:induction false} CallbacksInOrder(st: Settings, t: ParserType, data: string)
    ensures var m := Run(st, Start(Init(t)), data);
            Walk(Between, m.log).Some? && Stands(m.s, Walk(Between, m.log).value) && !m.s.lenient
    decreases |data|
  {
    hide Step, Stands, Follows, Inv, Next;
    if data == [] {
      InitStands(t);
    } else {
      var last := |data| - 1;
      CallbacksInOrder(st, t, data[..last]);
      Reachable(st, Init(t), data[..last]);
      InitInv(t);
      assert data == data[..last] + [data[last]];
      RunSnoc(st, Start(Init(t)), data[..last], data[last]);
      NextStands(st, Run(st, Start(Init(t)), data[..last]), data[last]);
    }
  }

  lemma InitStands(t: ParserType)
    ensures Stands(Init(t), Between) && !Init(t).lenient
  {
  }

  lemma NextStands(st: Settings, m: Machine, ch: char)
    requires Inv(m.s) && Walk(Between, m.log).Some? && Stands(m.s, Walk(Between, m.log).value) && !m.s.lenient
    ensures var r := HttpRun.Next(st, m, ch);
            Walk(Between, r.log).Some? && Stands(r.s, Walk(Between, r.log).value) && !r.s.lenient
  {
    hide Step, Stands, Inv, Next;
    if m.out.Going? {
      var p, a := Walk(Between, m.log).value, Step(st, m.s, ch);
      StepFollows(st, m.s, p, ch);
      if !a.Fail? {
        WalkPushAll(Between, m.log, EventsOf(OpenKind(m.s.state), a.calls, ch));
      }
    }
  }

  /** The same through http_parser_execute, cut anywhere, and at the end of the connection. */
  lemma InOrderFromAnyCut(st: Settings, t: ParserType, calls: seq<HttpFragments.Call>, errno: Errno, n: nat, eof: seq<Event>)
    requires calls != [] && HttpFragments.Consecutive(st, Init(t), calls)
    requires !Run(st, Start(Init(t)), HttpFragments.Bytes(calls)).out.Failed?
    requires HttpExecute.AtEof(calls[|calls| - 1].s, errno, n, eof)
    ensures Walk(Between, Canon(HttpFragments.Fired(calls))).Some?
    ensures Walk(Between, Canon(HttpFragments.Fired(calls)) + eof).Some?
  {
    hide Stands, Next, Run, Canon;
    HttpFragments.CutsAgree(st, Init(t), calls);
    CallbacksInOrder(st, t, HttpFragments.Bytes(calls));
    var m := Run(st, Start(Init(t)), HttpFragments.Bytes(calls));
    EofFollows(m.s, Walk(Between, m.log).value, errno, n, eof);
    WalkConcat(Between, m.log, eof);
  }

  lemma EofFollows(s: Parser, p: Place, errno: Errno, n: nat, eof: seq<Event>)
    requires Stands(s, p) && HttpExecute.AtEof(s, errno, n, eof)
    ensures Walk(p, eof).Some?
  {
    if s.state.BodyIdentityEof? {
      WalkOne(p, MessageComplete);
    }
  }
}
