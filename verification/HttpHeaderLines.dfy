/** Header lines as HttpRequest::dump prints them, read back by the parser. */
module HttpHeaderLines {
  import opened Wrappers
  import opened CaseMap
  import opened HttpChars
  import opened HttpTypes
  import opened HttpStep
  import opened HttpRun
  import opened HttpNames

  predicate NotBlank(c: char) {
    c != ' ' && c != '\t'
  }

  /** A value that comes back as it is: no line break, no control byte, no blank in front. */
  predicate IsPlainValue(v: string) {
    IsValue(v, false) && (v != [] ==> NotBlank(v[0]))
  }

  function Line(h: Entry): string {
    h.key + [':'] + [' '] + h.value + [CR, LF]
  }

  function Lines(hs: seq<Entry>): string {
    if hs == [] then [] else Lines(hs[..|hs| - 1]) + Line(hs[|hs| - 1])
  }

  function LineEvents(h: Entry): seq<Event> {
    [Data(Field, h.key, true), Data(Value, h.value, true)]
  }

  function LinesEvents(hs: seq<Entry>): seq<Event> {
    if hs == [] then [] else LinesEvents(hs[..|hs| - 1]) + LineEvents(hs[|hs| - 1])
  }

  lemma {:induction false} LinesConcat(a: seq<Entry>, b: seq<Entry>)
    ensures Lines(a + b) == Lines(a) + Lines(b)
    decreases |b|
  {
    if b == [] {
      assert a + b == a;
    } else {
      LinesConcat(a, b[..|b| - 1]);
      assert (a + b)[..|a + b| - 1] == a + b[..|b| - 1];
    }
  }

  lemma LinesOne(e: Entry)
    ensures Lines([e]) == Line(e)
  {
    assert [e][..0] == [];
  }

  lemma {:induction false} EventsConcat(a: seq<Entry>, b: seq<Entry>)
    ensures LinesEvents(a + b) == LinesEvents(a) + LinesEvents(b)
    decreases |b|
  {
    if b == [] {
      assert a + b == a;
    } else {
      EventsConcat(a, b[..|b| - 1]);
      assert (a + b)[..|a + b| - 1] == a + b[..|b| - 1];
    }
  }

  // ---- between two lines ----

  /** Where the next byte decides whether a header line has ended. */
  predicate AtLine(m: Machine) {
    && m.out.Going?
    && (m.s.state.HeaderFieldStart? || m.s.state.HeaderValueLws?
        || (m.s.state.HeaderValueDiscardLws? && m.s.hs != ContentLength))
  }

  /** The machine once it knows that the line has ended: an empty value is reported only then. */
  function Settled(m: Machine): Machine {
    if m.s.state.HeaderFieldStart? then m
    else Machine(m.s.(state := HeaderFieldStart, flags := LineFlags(m.s.hs, m.s.flags)),
                 if m.s.state.HeaderValueDiscardLws? then Push(m.log, Data(Value, [], true)) else m.log, m.n, m.out)
  }

  lemma DispatchLws(st: Settings, s: Parser, ch: char)
    requires s.state.HeaderValueLws?
    ensures Dispatch(st, s, ch) == ValueLwsByte(st, s, ch)
  {
    hide ValueLwsByte;
  }

  lemma DispatchDiscardLws(st: Settings, s: Parser, ch: char)
    requires s.state.HeaderValueDiscardLws?
    ensures Dispatch(st, s, ch) == DiscardLwsByte(st, s, ch)
  {
    hide DiscardLwsByte;
  }

  lemma LineStep(st: Settings, s: Parser, ch: char)
    requires NotBlank(ch) && (s.state.HeaderValueLws? || (s.state.HeaderValueDiscardLws? && s.hs != ContentLength))
    ensures var a := Step(st, s.(state := HeaderFieldStart, flags := LineFlags(s.hs, s.flags)), ch);
            Step(st, s, ch) == if a.Fail? || s.state.HeaderValueLws? then a
                               else a.(calls := a.calls.(close := Some(Close(Value, true, false))))
  {
    hide FieldStartByte, LineFlags, Dispatch;
    var counted := s.(nread := s.nread + 1);
    DispatchFieldStart(st, counted.(state := HeaderFieldStart, flags := LineFlags(s.hs, s.flags)), ch);
    if s.state.HeaderValueLws? {
      DispatchLws(st, counted, ch);
    } else {
      DispatchDiscardLws(st, counted, ch);
    }
  }

  lemma FieldStartCloses(st: Settings, s: Parser, ch: char)
    requires s.state.HeaderFieldStart?
    ensures !Step(st, s, ch).Fail? ==> Step(st, s, ch).calls.close == None
  {
    hide Dispatch;
    DispatchFieldStart(st, s.(nread := s.nread + 1), ch);
  }

  lemma LateValue(log: seq<Event>, calls: Calls, ch: char)
    requires calls.close == None
    ensures PushAll(log, EventsOf(None, calls.(close := Some(Close(Value, true, false))), ch))
         == PushAll(Push(log, Data(Value, [], true)), EventsOf(None, calls, ch))
  {
    hide Push;
    var empty, rest := Data(Value, [], true), EventsOf(None, calls, ch);
    assert EventsOf(None, calls.(close := Some(Close(Value, true, false))), ch) == [empty] + rest;
    PushAllConcat(log, [empty], rest);
    PushAllOne(log, empty);
  }

  /** The next byte does to the machine what it does to the settled one, unless it is refused. */
  lemma Settles(st: Settings, m: Machine, ch: char)
    requires AtLine(m) && NotBlank(ch) && !Next(st, Settled(m), ch).out.Failed?
    ensures Next(st, m, ch) == Next(st, Settled(m), ch) && OpenKind(m.s.state) == None
  {
    hide Step, Push, LineFlags, EventsOf;
    if !m.s.state.HeaderFieldStart? {
      var s := m.s.(state := HeaderFieldStart, flags := LineFlags(m.s.hs, m.s.flags));
      LineStep(st, m.s, ch);
      assert Settled(m).s == s && OpenKind(m.s.state) == OpenKind(s.state) == None;
      if m.s.state.HeaderValueDiscardLws? {
        FieldStartCloses(st, s, ch);
        match Step(st, s, ch) {
          case Fail(e) =>
          case Go(s', calls) => LateValue(m.log, calls, ch);
          case Leave(s', calls) => LateValue(m.log, calls, ch);
        }
      }
    }
  }

  lemma SettlesRun(st: Settings, m: Machine, data: string)
    requires AtLine(m) && data != [] && NotBlank(data[0]) && !Run(st, Settled(m), data).out.Failed?
    ensures Run(st, m, data) == Run(st, Settled(m), data)
  {
    hide Next, Settled;
    if Next(st, Settled(m), data[0]).out.Failed? {
      RunStopped(st, Next(st, Settled(m), data[0]), data[1..]);
    }
    Settles(st, m, data[0]);
  }

  // ---- values ----

  predicate LengthState(hs: HState) {
    hs.ContentLength? || hs.ContentLengthNum? || hs.ContentLengthWs?
  }

  /** The value of a header read up to its end, by the header state its name left. */
  function ScanValue(hs: HState, flags: Flags, length: nat, v: string): Scan
    requires v != []
  {
    if |v| == 1 then
      Scan(ValueStart(hs, Lower(v[0])), 0, flags.(upgrade := flags.upgrade || hs == Upgrade), length)
    else
      var x := ScanValue(hs, flags, length, v[..|v| - 1]);
      if x.Bad? then x else ValueNext(x, v[|v| - 1])
  }

  lemma StartPlain(hs: HState, c: char)
    requires !LengthState(hs)
    ensures !LengthState(ValueStart(hs, c))
  {
  }

  lemma NextPlain(x: Scan, ch: char)
    requires x.Scan? && !LengthState(x.hs)
    ensures ValueNext(x, ch).Scan? && !LengthState(ValueNext(x, ch).hs) && ValueNext(x, ch).length == x.length
  {
  }

  lemma {:induction false} ScanPlain(hs: HState, flags: Flags, length: nat, v: string)
    requires v != [] && !LengthState(hs)
    ensures var x := ScanValue(hs, flags, length, v); x.Scan? && !LengthState(x.hs) && x.length == length
    decreases |v|
  {
    hide ValueNext, LengthState, ValueStart;
    if |v| == 1 {
      StartPlain(hs, Lower(v[0]));
    } else {
      ScanPlain(hs, flags, length, v[..|v| - 1]);
      NextPlain(ScanValue(hs, flags, length, v[..|v| - 1]), v[|v| - 1]);
    }
  }

  lemma NextLength(x: Scan, ch: char, length: nat)
    requires x.Scan? && !LengthState(x.hs)
    ensures ValueNext(x, ch).Scan? && ValueNext(x.(length := length), ch) == ValueNext(x, ch).(length := length)
  {
  }

  /** The length plays no part in other values. */
  lemma {:induction false} ScanLength(hs: HState, flags: Flags, length: nat, v: string)
    requires v != [] && !LengthState(hs)
    ensures var x := ScanValue(hs, flags, NO_LENGTH, v);
            x.Scan? && !LengthState(x.hs) && ScanValue(hs, flags, length, v) == x.(length := length)
    decreases |v|
  {
    hide ValueNext, LengthState, ValueStart;
    ScanPlain(hs, flags, NO_LENGTH, v);
    if |v| > 1 {
      ScanLength(hs, flags, length, v[..|v| - 1]);
      NextLength(ScanValue(hs, flags, NO_LENGTH, v[..|v| - 1]), v[|v| - 1], length);
    }
  }

  function Scanning(s: Parser, n: nat, x: Scan): Parser
    requires x.Scan?
  {
    WithScan(s.(state := HeaderValue, nread := n), x)
  }

  lemma ValueStarts(st: Settings, s: Parser, ch: char)
    requires s.state.HeaderValueDiscardWs? && !LengthState(s.hs) && s.nread < MAX_HEADER_SIZE
    requires NotBlank(ch) && ch != CR && ch != LF
    ensures ScanValue(s.hs, s.flags, s.length, [ch]).Scan?
    ensures Step(st, s, ch) == Marking(Scanning(s, s.nread + 1, ScanValue(s.hs, s.flags, s.length, [ch])), Value)
  {
    hide ValueStart, Lower;
    assert s.flags.(upgrade := s.flags.upgrade || s.hs == Upgrade, contentLength := s.flags.contentLength)
        == s.flags.(upgrade := s.flags.upgrade || s.hs == Upgrade);
  }

  lemma ValueGoes(st: Settings, s: Parser, n: nat, x: Scan, y: Scan, ch: char)
    requires x.Scan? && y.Scan? && ValueNext(x, ch) == y && n < MAX_HEADER_SIZE
    requires ch != CR && ch != LF && IsHeaderChar(ch)
    ensures Step(st, Scanning(s, n, x), ch) == Go(Scanning(s, n + 1, y), SILENT)
    ensures OpenKind(Scanning(s, n, x).state) == Some(Value)
  {
    hide ValueNext, IsHeaderChar;
    assert ScanOf(Scanning(s, n + 1, x)) == x;
  }

  lemma {:induction false} ValueRun(st: Settings, m: Machine, s: Parser, v: string) returns (x: Scan)
    requires m.out.Going? && m.s == s && s.state.HeaderValueDiscardWs? && !LengthState(s.hs)
    requires v != [] && IsPlainValue(v) && s.nread + |v| <= MAX_HEADER_SIZE
    ensures x == ScanValue(s.hs, s.flags, s.length, v) && x.Scan? && !LengthState(x.hs)
    ensures Run(st, m, v) == Machine(Scanning(s, s.nread + |v|, x), Push(m.log, Data(Value, v, false)), m.n + |v|, Going)
    decreases |v|
  {
    hide Step, Run, Push, Scanning, ValueNext, ScanValue, IsHeaderChar, LengthState;
    var init, ch := v[..|v| - 1], v[|v| - 1];
    assert v == init + [ch];
    ScanPlain(s.hs, s.flags, s.length, v);
    x := ScanValue(s.hs, s.flags, s.length, v);
    if init == [] {
      assert v == [ch];
      RunNil(st, m);
      ValueStarts(st, s, ch);
      RunMark(st, m, [], ch, Scanning(s, s.nread + 1, x), Value);
    } else {
      var before := ValueRun(st, m, s, init);
      ScanMore(s.hs, s.flags, s.length, init, ch);
      ValueGoes(st, s, s.nread + |init|, before, x, ch);
      RunData(st, m, init, ch, Scanning(s, s.nread + |v|, x), Value, m.log, init);
    }
  }

  lemma ScanOne(hs: HState, flags: Flags, length: nat, c: char)
    ensures ScanValue(hs, flags, length, [c])
         == Scan(ValueStart(hs, Lower(c)), 0, flags.(upgrade := flags.upgrade || hs == Upgrade), length)
  {
    hide ValueStart, Lower;
  }

  lemma ScanMore(hs: HState, flags: Flags, length: nat, v: string, ch: char)
    requires v != [] && ScanValue(hs, flags, length, v).Scan?
    ensures ScanValue(hs, flags, length, v + [ch]) == ValueNext(ScanValue(hs, flags, length, v), ch)
  {
    hide ValueNext;
    assert (v + [ch])[..|v|] == v;
  }

  // ---- one line ----

  /** The flags a line leaves behind. */
  function AfterLine(h: Entry, flags: Flags): Flags {
    if h.value == [] then flags
    else match ScanValue(NameState(Tokens(h.key)), flags, NO_LENGTH, h.value)
      case Bad(e) => flags
      case Scan(hs, index, flags', length) => LineFlags(hs, flags')
  }

  predicate LineOk(h: Entry) {
    IsName(h.key) && IsPlainValue(h.value) && Tokens(h.key) != CONTENT_LENGTH
  }

  /** Behind the line of a header with its flags taken in; the matcher's own fields no longer matter. */
  function BehindLine(s: Parser, n: nat, flags: Flags, t: Parser): Parser {
    s.(state := HeaderFieldStart, nread := n, flags := flags, hs := t.hs, index := t.index)
  }

  predicate ClosedLog(log: seq<Event>) {
    log == [] || !log[|log| - 1].Data? || log[|log| - 1].final
  }

  /** Behind the colon of a name. */
  function BehindName(s: Parser, n: nat, hs: HState, index: nat): Parser {
    InName(s, n, hs, index).(state := HeaderValueDiscardWs)
  }

  lemma BlankStep(st: Settings, s: Parser, n: nat, hs: HState, index: nat)
    requires n < MAX_HEADER_SIZE
    ensures Step(st, BehindName(s, n, hs, index), ' ') == Go(BehindName(s, n + 1, hs, index), SILENT)
    ensures OpenKind(BehindName(s, n, hs, index).state) == None
  {
  }

  lemma EmptyCr(st: Settings, s: Parser, n: nat, hs: HState, index: nat)
    requires n < MAX_HEADER_SIZE
    ensures var t := BehindName(s, n, hs, index);
            Step(st, t, CR) == Go(t.(nread := n + 1, state := HeaderValueDiscardWsAlmostDone), SILENT) && OpenKind(t.state) == None
  {
  }

  lemma EmptyLf(st: Settings, s: Parser, n: nat, hs: HState, index: nat)
    requires n < MAX_HEADER_SIZE
    ensures var t := BehindName(s, n, hs, index).(state := HeaderValueDiscardWsAlmostDone);
            Step(st, t, LF) == Go(t.(nread := n + 1, state := HeaderValueDiscardLws), SILENT) && OpenKind(t.state) == None
  {
  }

  lemma NameStatePlain(n: string)
    ensures NameState(n) == ContentLength <==> n == CONTENT_LENGTH
    ensures LengthState(NameState(n)) ==> NameState(n) == ContentLength
    ensures forall flags :: LineFlags(NameState(n), flags) == flags
  {
    WholeName(n);
    hide CONTENT_LENGTH, Pre;
  }

  /** The name, the colon and the blank. */
  lemma NamePart(st: Settings, m: Machine, s: Parser, h: Entry) returns (index: nat)
    requires m.out.Going? && m.s == s && s.state.HeaderFieldStart? && LineOk(h) && s.nread + |h.key| + 2 <= MAX_HEADER_SIZE
    ensures var n := |h.key| + 2;
            Run(st, m, h.key + [':'] + [' '])
            == Machine(BehindName(s, s.nread + n, NameState(Tokens(h.key)), index), Push(m.log, Data(Field, h.key, true)),
                       m.n + n, Going)
  {
    hide Step, Run, Push, InName, NameState, BehindName, Token;
    index := HeaderNameExact(st, m, s, h.key);
    var n, hs := s.nread + |h.key| + 1, NameState(Tokens(h.key));
    assert InName(s, n, hs, index).(state := HeaderValueDiscardWs) == BehindName(s, n, hs, index) by {
      NameBehind(s, n, hs, index);
    }
    BlankStep(st, s, n, hs, index);
    RunSilent(st, m, h.key + [':'], ' ', BehindName(s, n + 1, hs, index));
  }

  lemma NameBehind(s: Parser, n: nat, hs: HState, index: nat)
    ensures InName(s, n, hs, index).(state := HeaderValueDiscardWs) == BehindName(s, n, hs, index)
  {
  }

  /** The value and the end of its line. */
  lemma ValuePart(st: Settings, m: Machine, s: Parser, n: nat, hs: HState, index: nat, flags: Flags, v: string)
    requires m.out.Going? && m.s == BehindName(s, n, hs, index) && !LengthState(hs)
    requires IsPlainValue(v) && n + |v| + 2 <= MAX_HEADER_SIZE && ClosedLog(m.log)
    requires forall f :: LineFlags(hs, f) == f
    requires flags == if v == [] then s.flags
                      else var x := ScanValue(hs, s.flags, NO_LENGTH, v); if x.Bad? then s.flags else LineFlags(x.hs, x.flags)
    ensures var r := Run(st, m, v + [CR, LF]);
            && AtLine(r) && r.n == m.n + |v| + 2
            && Settled(r) == Machine(BehindLine(s, n + |v| + 2, flags, r.s), Push(m.log, Data(Value, v, true)), r.n, Going)
  {
    hide Step, Run, Push, LineFlags, ScanValue, IsHeaderChar;
    if v == [] {
      EmptyCr(st, s, n, hs, index);
      RunNil(st, m);
      RunSilent(st, m, [], CR, BehindName(s, n + 1, hs, index).(state := HeaderValueDiscardWsAlmostDone));
      EmptyLf(st, s, n + 1, hs, index);
      RunSilent(st, m, [] + [CR], LF, BehindName(s, n + 2, hs, index).(state := HeaderValueDiscardLws));
      assert v + [CR, LF] == [] + [CR] + [LF];
    } else {
      var x := ValueRun(st, m, m.s, v);
      var s' := s.(flags := x.flags, length := x.length);
      ScanPlain(hs, s.flags, s.length, v);
      ScanLength(hs, s.flags, s.length, v);
      assert Scanning(m.s, n + |v|, x) == InValue(s', n + |v|, x.hs, x.index);
      LineEnds(st, m, v, s', n + |v|, x.hs, x.index, m.log, v);
    }
  }

  /** A whole line. */
  lemma LineRead(st: Settings, m: Machine, s: Parser, h: Entry)
    requires m.out.Going? && m.s == s && s.state.HeaderFieldStart? && LineOk(h)
    requires s.nread + |Line(h)| <= MAX_HEADER_SIZE && ClosedLog(m.log)
    ensures var r := Run(st, m, Line(h));
            && AtLine(r)
            && Settled(r) == Machine(BehindLine(s, s.nread + |Line(h)|, AfterLine(h, s.flags), r.s), m.log + LineEvents(h),
                                     m.n + |Line(h)|, Going)
  {
    hide Step, Run, BehindName, Settled, AtLine, IsPlainValue, NameState, BehindLine, IsName, Tokens;
    var index := NamePart(st, m, s, h);
    var a, b := h.key + [':'] + [' '], h.value + [CR, LF];
    NameStatePlain(Tokens(h.key));
    var m1 := Run(st, m, a);
    ValuePart(st, m1, s, s.nread + |a|, NameState(Tokens(h.key)), index, AfterLine(h, s.flags), h.value);
    RunConcat(st, m, a, b);
    assert a + b == Line(h);
    assert m.log + [Data(Field, h.key, true)] + [Data(Value, h.value, true)] == m.log + LineEvents(h);
  }

  // ---- all lines ----

  function AfterLines(hs: seq<Entry>, flags: Flags): Flags {
    if hs == [] then flags else AfterLine(hs[|hs| - 1], AfterLines(hs[..|hs| - 1], flags))
  }

  lemma {:induction false} LinesRead(st: Settings, m: Machine, s: Parser, hs: seq<Entry>)
    requires m.out.Going? && m.s == s && s.state.HeaderFieldStart?
    requires forall i :: 0 <= i < |hs| ==> LineOk(hs[i])
    requires s.nread + |Lines(hs)| <= MAX_HEADER_SIZE && ClosedLog(m.log)
    ensures var r := Run(st, m, Lines(hs));
            && AtLine(r) && ClosedLog(Settled(r).log)
            && Settled(r) == Machine(BehindLine(s, s.nread + |Lines(hs)|, AfterLines(hs, s.flags), r.s),
                                     m.log + LinesEvents(hs), m.n + |Lines(hs)|, Going)
    decreases |hs|
  {
    hide Step, Run, AfterLine, LineOk;
    if hs == [] {
      RunNil(st, m);
      assert m.log + [] == m.log;
    } else {
      var init, h := hs[..|hs| - 1], hs[|hs| - 1];
      LinesRead(st, m, s, init);
      var m1 := Run(st, m, Lines(init));
      LineRead(st, Settled(m1), Settled(m1).s, h);
      hide Settled, AtLine, LinesEvents, ClosedLog;
      NameFirst(h);
      SettlesRun(st, m1, Line(h));
      RunConcat(st, m, Lines(init), Line(h));
      Logged(m.log, hs);
    }
  }

  lemma NameFirst(h: Entry)
    requires LineOk(h)
    ensures Line(h) != [] && NotBlank(Line(h)[0])
  {
    assert IsToken(h.key[0]) && !IsToken(' ') && !IsToken('\t');
  }

  lemma Logged(log: seq<Event>, hs: seq<Entry>)
    requires hs != []
    ensures log + LinesEvents(hs[..|hs| - 1]) + LineEvents(hs[|hs| - 1]) == log + LinesEvents(hs)
    ensures ClosedLog(log + LinesEvents(hs))
  {
  }

  // ---- what the lines ask for ----

  /** How far the matcher of connection tokens has come behind `v`. */
  function TokenState(v: string): HState
    requires v != []
  {
    var x := ScanValue(Connection, NO_FLAGS, NO_LENGTH, v);
    if x.Bad? then General else x.hs
  }

  /** The matcher completes the keyword of `done` in a connection value, at its end or at a comma. */
  ghost predicate NamesWord(v: string, done: HState) {
    exists i :: 0 < i <= |v| && TokenState(v[..i]) == done && (i == |v| || v[i] == ',')
  }

  predicate IsConnectionName(name: string) {
    Tokens(name) == CONNECTION || Tokens(name) == PROXY_CONNECTION
  }

  /** The flags that no header line touches but content-length and transfer-encoding. */
  predicate SameFraming(a: Flags, b: Flags) {
    && a.chunked == b.chunked && a.contentLength == b.contentLength && a.trailing == b.trailing
    && a.skipBody == b.skipBody
  }

  predicate PlainValueState(hs: HState) {
    !LengthState(hs) && !hs.MatchingTransferEncodingChunked? && !hs.TransferEncodingChunked?
  }

  /** Scans at the same place in the same word. */
  predicate SamePlace(x: Scan, y: Scan) {
    x.Scan? && y.Scan? && x.hs == y.hs && x.index == y.index
  }

  lemma NextSame(x: Scan, y: Scan, ch: char)
    requires SamePlace(x, y) && PlainValueState(x.hs)
    ensures SamePlace(ValueNext(x, ch), ValueNext(y, ch)) && PlainValueState(ValueNext(x, ch).hs)
  {
  }

  lemma NextFlags(x: Scan, ch: char)
    requires x.Scan? && PlainValueState(x.hs)
    ensures var y := ValueNext(x, ch);
            && y.Scan? && SameFraming(y.flags, x.flags) && y.flags.upgrade == x.flags.upgrade
            && (y.flags.connUpgrade <==> x.flags.connUpgrade || (x.hs.ConnectionUpgrade? && ch == ','))
            && (y.flags.close <==> x.flags.close || (x.hs.ConnectionClose? && ch == ','))
            && (y.flags.keepAlive <==> x.flags.keepAlive || (x.hs.ConnectionKeepAlive? && ch == ','))
  {
    hide Matched, Lower, IsToken;
    if x.hs.ConnectionKeepAlive? || x.hs.ConnectionClose? || x.hs.ConnectionUpgrade? {
    } else if x.hs.MatchingConnectionTokenStart? || x.hs.MatchingConnectionToken? {
    } else {
    }
  }

  predicate KeywordDone(hs: HState) {
    hs.ConnectionUpgrade? || hs.ConnectionClose? || hs.ConnectionKeepAlive?
  }

  lemma StartConnection(c: char)
    ensures PlainValueState(ValueStart(Connection, c)) && !KeywordDone(ValueStart(Connection, c))
  {
  }

  /** The flags of a connection value so far: those of the keywords completed at a comma. */
  ghost predicate FlagsAtCommas(after: Flags, before: Flags, v: string) {
    && SameFraming(after, before) && after.upgrade == before.upgrade
    && (after.connUpgrade <==> before.connUpgrade || EndsAtComma(v, ConnectionUpgrade))
    && (after.close <==> before.close || EndsAtComma(v, ConnectionClose))
    && (after.keepAlive <==> before.keepAlive || EndsAtComma(v, ConnectionKeepAlive))
  }

  /** The matcher runs the same whatever the flags were, and adds a keyword's flag at a comma. */
  lemma {:induction false} ScanConnection(flags: Flags, v: string)
    requires v != []
    ensures var x := ScanValue(Connection, flags, NO_LENGTH, v);
            && x.Scan? && PlainValueState(x.hs) && SamePlace(x, ScanValue(Connection, NO_FLAGS, NO_LENGTH, v))
            && FlagsAtCommas(x.flags, flags, v)
    decreases |v|
  {
    hide ValueNext, ValueStart, PlainValueState, ScanValue, EndsAtComma, Lower;
    if |v| == 1 {
      assert v == [v[0]];
      StartConnection(Lower(v[0]));
      ScanOne(Connection, flags, NO_LENGTH, v[0]);
      ScanOne(Connection, NO_FLAGS, NO_LENGTH, v[0]);
      NoCommaYet(v);
    } else {
      var init, ch := v[..|v| - 1], v[|v| - 1];
      ScanConnection(flags, init);
      var x := ScanValue(Connection, flags, NO_LENGTH, init);
      NextSame(x, ScanValue(Connection, NO_FLAGS, NO_LENGTH, init), ch);
      NextFlags(x, ch);
      assert v == init + [ch];
      ScanMore(Connection, flags, NO_LENGTH, init, ch);
      ScanMore(Connection, NO_FLAGS, NO_LENGTH, init, ch);
      CommaLater(init, ch, ConnectionUpgrade);
      CommaLater(init, ch, ConnectionClose);
      CommaLater(init, ch, ConnectionKeepAlive);
    }
  }

  lemma NoCommaYet(v: string)
    requires |v| == 1
    ensures forall done :: !EndsAtComma(v, done)
  {
  }

  ghost predicate EndsAtComma(v: string, done: HState) {
    exists i :: 0 < i < |v| && TokenState(v[..i]) == done && v[i] == ','
  }

  lemma CommaLater(v: string, ch: char, done: HState)
    requires v != []
    ensures EndsAtComma(v + [ch], done) <==> EndsAtComma(v, done) || (TokenState(v) == done && ch == ',')
  {
    hide TokenState;
    var w := v + [ch];
    assert w[..|v|] == v;
    assert forall i :: 0 < i < |v| ==> w[..i] == v[..i];
    if EndsAtComma(v, done) {
      var i :| 0 < i < |v| && TokenState(v[..i]) == done && v[i] == ',';
      assert 0 < i < |w| && TokenState(w[..i]) == done && w[i] == ',';
    }
    if TokenState(v) == done && ch == ',' {
      assert TokenState(w[..|v|]) == done && w[|v|] == ',';
    }
  }

  lemma NamesWordSplit(v: string, done: HState)
    requires v != []
    ensures NamesWord(v, done) <==> EndsAtComma(v, done) || TokenState(v) == done
  {
    hide TokenState;
    assert v[..|v|] == v;
    if EndsAtComma(v, done) {
      var i :| 0 < i < |v| && TokenState(v[..i]) == done && v[i] == ',';
      assert 0 < i <= |v| && TokenState(v[..i]) == done && (i == |v| || v[i] == ',');
    }
    if TokenState(v) == done {
      assert 0 < |v| <= |v| && TokenState(v[..|v|]) == done;
    }
  }

  /** Any other header's value is passed over. */
  lemma {:induction false} ScanOther(hs: HState, flags: Flags, v: string)
    requires v != [] && hs != Connection && hs != TransferEncoding && !LengthState(hs) && hs != MatchingConnectionTokenStart
    ensures var x := ScanValue(hs, flags, NO_LENGTH, v);
            x.Scan? && x.hs == General && x.flags == flags.(upgrade := flags.upgrade || hs == Upgrade)
    decreases |v|
  {
    if |v| == 1 {
    } else {
      ScanOther(hs, flags, v[..|v| - 1]);
    }
  }

  /** A transfer-encoding value is matched with "chunked". */
  lemma {:induction false} ScanChunked(flags: Flags, v: string)
    requires v != []
    ensures var x := ScanValue(TransferEncoding, flags, NO_LENGTH, v);
            && x.Scan? && x.hs == ChunkedState(v) && x.flags == flags && x.length == NO_LENGTH
            && (x.hs == MatchingTransferEncodingChunked ==> x.index == |v| - 1)
    decreases |v|
  {
    hide ValueNext, ValueStart, ChunkedState, Lower, ScanValue;
    var init, ch := v[..|v| - 1], v[|v| - 1];
    assert v == init + [ch];
    if |v| == 1 {
      assert v == [ch];
      ChunkedStart(ch);
      ScanOne(TransferEncoding, flags, NO_LENGTH, ch);
    } else {
      ScanChunked(flags, init);
      ScanMore(TransferEncoding, flags, NO_LENGTH, init, ch);
      ChunkedNext(init, ScanValue(TransferEncoding, flags, NO_LENGTH, init), ch);
    }
  }

  lemma NameStateRange(n: string)
    ensures NameState(n) != MatchingConnectionTokenStart
  {
    hide Pre;
  }

  lemma LineFlagsPlain(hs: HState, flags: Flags)
    requires PlainValueState(hs)
    ensures var f := LineFlags(hs, flags);
            && SameFraming(f, flags) && f.upgrade == flags.upgrade
            && (f.connUpgrade <==> flags.connUpgrade || hs.ConnectionUpgrade?)
            && (f.close <==> flags.close || hs.ConnectionClose?)
            && (f.keepAlive <==> flags.keepAlive || hs.ConnectionKeepAlive?)
  {
  }

  /** What one header line does to the flags. */
  ghost predicate LineSets(after: Flags, before: Flags, h: Entry) {
    && after.contentLength == before.contentLength && after.trailing == before.trailing && after.skipBody == before.skipBody
    && (after.chunked <==> before.chunked || SaysChunked(h))
    && (after.upgrade <==> before.upgrade || HasProtocol(h))
    && (after.connUpgrade <==> before.connUpgrade || AsksFor(h, ConnectionUpgrade))
    && (after.close <==> before.close || AsksFor(h, ConnectionClose))
    && (after.keepAlive <==> before.keepAlive || AsksFor(h, ConnectionKeepAlive))
  }

  predicate SaysChunked(h: Entry) {
    Tokens(h.key) == TRANSFER_ENCODING && IsChunkedValue(h.value)
  }

  ghost predicate AsksFor(h: Entry, done: HState) {
    IsConnectionName(h.key) && NamesWord(h.value, done)
  }

  predicate HasProtocol(h: Entry) {
    Tokens(h.key) == UPGRADE && h.value != []
  }

  /** The effect of one line on the flags, for every header but content-length. */
  lemma AfterLineFlags(h: Entry, flags: Flags)
    requires Tokens(h.key) != CONTENT_LENGTH
    ensures LineSets(AfterLine(h, flags), flags, h)
  {
    hide ScanValue, NameState, LineFlags, NamesWord, EndsAtComma, PlainValueState, IsChunkedValue, ChunkedState, CONNECTION,
         PROXY_CONNECTION, CONTENT_LENGTH, TRANSFER_ENCODING, UPGRADE;
    var n, hs := Tokens(h.key), NameState(Tokens(h.key));
    WholeName(n);
    NameStatePlain(n);
    NameStateRange(n);
    NamesDiffer();
    if h.value == [] {
      EmptyNames();
    } else if hs == Connection {
      ConnectionLine(flags, h.value);
    } else if hs == TransferEncoding {
      ScanChunked(flags, h.value);
      ChunkedFlags(h.value, flags);
    } else {
      ScanOther(hs, flags, h.value);
      GeneralPlain();
      LineFlagsPlain(General, flags.(upgrade := flags.upgrade || hs == Upgrade));
    }
  }

  /** A connection value sets the flag of each keyword it names. */
  lemma ConnectionLine(flags: Flags, v: string)
    requires v != []
    ensures var x := ScanValue(Connection, flags, NO_LENGTH, v);
            && x.Scan?
            && var f := LineFlags(x.hs, x.flags);
               && SameFraming(f, flags) && f.upgrade == flags.upgrade
               && (f.connUpgrade <==> flags.connUpgrade || NamesWord(v, ConnectionUpgrade))
               && (f.close <==> flags.close || NamesWord(v, ConnectionClose))
               && (f.keepAlive <==> flags.keepAlive || NamesWord(v, ConnectionKeepAlive))
  {
    hide ScanValue, LineFlags, NamesWord, EndsAtComma, PlainValueState;
    ScanConnection(flags, v);
    NamesWordSplit(v, ConnectionUpgrade);
    NamesWordSplit(v, ConnectionClose);
    NamesWordSplit(v, ConnectionKeepAlive);
    var x := ScanValue(Connection, flags, NO_LENGTH, v);
    LineFlagsPlain(x.hs, x.flags);
  }

  lemma ChunkedFlags(v: string, flags: Flags)
    ensures LineFlags(ChunkedState(v), flags) == flags.(chunked := flags.chunked || IsChunkedValue(v))
  {
    hide IsChunkedValue, Pre;
    assert IsChunkedValue(v) ==> |v| >= 7 by {
      ChunkedIsLong(v);
    }
  }

  lemma ChunkedIsLong(v: string)
    ensures IsChunkedValue(v) ==> |v| >= 7
  {
  }

  lemma NamesDiffer()
    ensures UPGRADE != CONNECTION && UPGRADE != PROXY_CONNECTION && UPGRADE != TRANSFER_ENCODING
    ensures TRANSFER_ENCODING != CONNECTION && TRANSFER_ENCODING != PROXY_CONNECTION
  {
  }

  lemma EmptyNames()
    ensures forall done :: !NamesWord([], done)
    ensures !IsChunkedValue([])
  {
  }

  lemma GeneralPlain()
    ensures PlainValueState(General) && !KeywordDone(General)
  {
  }

  ghost predicate AsksUpgrade(h: Entry) {
    AsksFor(h, ConnectionUpgrade)
  }

  /** The headers ask for another protocol and name one. */
  ghost predicate SwitchesProtocol(hs: seq<Entry>) {
    (exists i :: 0 <= i < |hs| && AsksUpgrade(hs[i])) && (exists i :: 0 <= i < |hs| && HasProtocol(hs[i]))
  }

  /** Some line announces chunked coding. */
  predicate AnnouncesChunks(hs: seq<Entry>) {
    exists i :: 0 <= i < |hs| && SaysChunked(hs[i])
  }

  /** Some connection line names the keyword of `done`. */
  ghost predicate SomeLineAsks(hs: seq<Entry>, done: HState) {
    exists i :: 0 <= i < |hs| && AsksFor(hs[i], done)
  }

  /** What any number of header lines do to the flags. */
  lemma {:induction false} AfterLinesFlags(hs: seq<Entry>, flags: Flags)
    requires forall i :: 0 <= i < |hs| ==> Tokens(hs[i].key) != CONTENT_LENGTH
    ensures var f := AfterLines(hs, flags);
            && f.contentLength == flags.contentLength && f.trailing == flags.trailing && f.skipBody == flags.skipBody
            && (f.chunked <==> flags.chunked || AnnouncesChunks(hs))
            && (f.upgrade <==> flags.upgrade || exists i :: 0 <= i < |hs| && HasProtocol(hs[i]))
            && (f.connUpgrade <==> flags.connUpgrade || SomeLineAsks(hs, ConnectionUpgrade))
            && (f.close <==> flags.close || SomeLineAsks(hs, ConnectionClose))
            && (f.keepAlive <==> flags.keepAlive || SomeLineAsks(hs, ConnectionKeepAlive))
    decreases |hs|
  {
    hide AfterLine, Tokens, NamesWord, SaysChunked, HasProtocol, AsksFor;
    if hs == [] {
    } else {
      var init, last := hs[..|hs| - 1], hs[|hs| - 1];
      AfterLinesFlags(init, flags);
      AfterLineFlags(last, AfterLines(init, flags));
      assert hs == init + [last];
      OneMoreAsks(init, last, ConnectionUpgrade);
      OneMoreAsks(init, last, ConnectionClose);
      OneMoreAsks(init, last, ConnectionKeepAlive);
      OneMoreSays(init, last);
    }
  }

  lemma OneMoreAsks(init: seq<Entry>, last: Entry, done: HState)
    ensures SomeLineAsks(init + [last], done) <==> SomeLineAsks(init, done) || AsksFor(last, done)
  {
    hide AsksFor;
    var hs := init + [last];
    assert hs[|init|] == last && forall i :: 0 <= i < |init| ==> hs[i] == init[i];
    if SomeLineAsks(init, done) {
      var i :| 0 <= i < |init| && AsksFor(init[i], done);
      assert AsksFor(hs[i], done);
    }
    if AsksFor(last, done) {
      assert AsksFor(hs[|init|], done);
    }
  }

  lemma OneMoreSays(init: seq<Entry>, last: Entry)
    ensures AnnouncesChunks(init + [last]) <==> AnnouncesChunks(init) || SaysChunked(last)
    ensures (exists i :: 0 <= i < |init + [last]| && HasProtocol((init + [last])[i]))
            <==> (exists i :: 0 <= i < |init| && HasProtocol(init[i])) || HasProtocol(last)
  {
    hide SaysChunked, HasProtocol;
    var hs := init + [last];
    assert hs[|init|] == last && forall i :: 0 <= i < |init| ==> hs[i] == init[i];
    if AnnouncesChunks(init) {
      var i :| 0 <= i < |init| && SaysChunked(init[i]);
      assert SaysChunked(hs[i]);
    }
    if exists i :: 0 <= i < |init| && HasProtocol(init[i]) {
      var i :| 0 <= i < |init| && HasProtocol(init[i]);
      assert HasProtocol(hs[i]);
    }
    if SaysChunked(last) {
      assert SaysChunked(hs[|init|]);
    }
    if HasProtocol(last) {
      assert HasProtocol(hs[|init|]);
    }
  }

  // ---- the end of a header section ----

  function AtHeadersEnd(s: Parser, n: nat): Parser {
    s.(state := HeadersAlmostDone, nread := n)
  }

  lemma EndCr(st: Settings, s: Parser)
    requires s.state.HeaderFieldStart? && s.nread < MAX_HEADER_SIZE
    ensures Step(st, s, CR) == Go(AtHeadersEnd(s, s.nread + 1), SILENT) && OpenKind(s.state) == None
  {
  }

  lemma AtLineGoes(m: Machine)
    requires AtLine(m)
    ensures m.out == Settled(m).out == Going
  {
  }

  /** The carriage return of the empty line. */
  lemma CrRead(st: Settings, m: Machine, u: Parser)
    requires AtLine(m) && Settled(m).s == u && u.state.HeaderFieldStart? && u.nread < MAX_HEADER_SIZE
    ensures Run(st, m, [CR]) == Machine(AtHeadersEnd(u, u.nread + 1), Settled(m).log, Settled(m).n + 1, Going)
  {
    hide *;
    AtLineGoes(m);
    EndCr(st, u);
    RunNil(st, Settled(m));
    RunSilent(st, Settled(m), [], CR, AtHeadersEnd(u, u.nread + 1));
    assert [] + [CR] == [CR];
    CrNotBlank();
    SettlesRun(st, m, [CR]);
  }

  lemma CrNotBlank()
    ensures NotBlank(CR)
  {
  }

  lemma CrFirst(tail: string, body: string)
    requires tail == [CR, LF] + body
    ensures |tail| > 1 && NotBlank(tail[0])
  {
  }

  lemma CompletesSettled(st: Settings, m: Machine, text: string)
    requires AtLine(m) && |text| > 1 && NotBlank(text[0]) && CompletesAt(st, Settled(m), text)
    ensures CompletesAt(st, m, text)
  {
    hide Step, Run, AtLine, Settled;
    SettlesRun(st, m, text[..|text| - 1]);
  }

  lemma {:induction false} LinesFirst(hs: seq<Entry>)
    requires hs != [] && forall i :: 0 <= i < |hs| ==> LineOk(hs[i])
    ensures Lines(hs) != [] && NotBlank(Lines(hs)[0])
    decreases |hs|
  {
    hide LineOk, Line;
    if |hs| == 1 {
      assert hs[..0] == [];
      NameFirst(hs[0]);
    } else {
      LinesFirst(hs[..|hs| - 1]);
    }
  }

  lemma BehindLineHas(s: Parser, n: nat, flags: Flags, t: Parser)
    ensures var u := BehindLine(s, n, flags, t);
            u.state.HeaderFieldStart? && u.nread == n && u.flags == flags && u.length == s.length
  {
  }

  lemma NoLines(c: seq<Entry>)
    requires c == []
    ensures Lines(c) == []
  {
  }

  lemma SettledTwice(m: Machine)
    ensures AtLine(m) ==> Settled(Settled(m)) == Settled(m) && AtLine(Settled(m))
    ensures Settled(m).s.hs == m.s.hs && Settled(m).s.index == m.s.index
  {
  }

  lemma BothNoted(log: seq<Event>, a: Event, b: Event, ch: char)
    requires !a.Data? && !b.Data?
    ensures PushAll(log, EventsOf(None, Calls(None, [a] + [b], None), ch)) == log + [a, b]
    ensures PushAll(log, EventsOf(None, Calls(None, [a], None), ch)) == log + [a]
  {
    assert EventsOf(None, Calls(None, [a] + [b], None), ch) == [a] + [b];
    assert EventsOf(None, Calls(None, [a], None), ch) == [a];
    PushAllOne(log, a);
    PushAllConcat(log, [a], [b]);
    PushAllOne(log + [a], b);
    assert log + [a] + [b] == log + [a, b];
  }
}
