/** http_parser_execute as it runs: moving pointer, marks, run-skipping loops, one flush at the end. */
module HttpExecute {
  import opened Basics
  import opened Wrappers
  import opened HttpChars
  import opened HttpTypes
  import opened HttpStep
  import opened HttpRun
  import opened HttpInvariant
  import opened HttpMarks

  /** The largest buffer a caller passes: its length is an `int`. */
  const MAX_BUFFER: nat := 0x7FFF_FFFF

  /** `nread += (uint32_t)(v)` */
  function Count(nread: nat, v: nat): nat {
    (nread + v % 0x1_0000_0000) % 0x1_0000_0000
  }

  // ---- what one call promises ----

  /** The call reports an error the reference machine finds: the same one at the same byte, unless that
      machine has seen the header section outgrow its limit, which the real loop may notice later. */
  ghost predicate Refused(st: Settings, s0: Parser, data: string, errno: Errno, n: nat) {
    var out := Run(st, Start(s0), data).out;
    && errno != OK
    && out.Failed?
    && (out.errno == HeaderOverflow || (out.errno == errno && out.at == n))
  }

  /** The call ends without an error, in the state and with the callbacks of the reference machine. */
  ghost predicate Accepted(st: Settings, s0: Parser, data: string, s: Parser, n: nat, fired: seq<Event>) {
    var m := Run(st, Start(s0), data);
    && !m.out.Failed?
    && s == m.s && Canon(fired) == m.log
    && n == (if m.out.Left? then m.out.at else |data|)
  }

  /** Only the last callback can be an unfinished piece of a string other than the body. */
  predicate PiecesAtEnd(fired: seq<Event>) {
    forall i :: 0 <= i < |fired| - 1 ==> Whole(fired[i])
  }

  predicate Whole(e: Event) {
    e.Data? ==> e.final || e.kind == Body
  }

  /** The outcome of a call on a non-empty buffer, by the parser before it. */
  ghost predicate CallResult(st: Settings, s0: Parser, data: string, s: Parser, errno: Errno, n: nat, fired: seq<Event>) {
    || (errno == OK && Accepted(st, s0, data, s, n, fired) && PiecesAtEnd(fired))
    || Refused(st, s0, data, errno, n)
  }

  /** A call with no bytes tells the parser that the connection has ended. */
  ghost predicate AtEof(s: Parser, errno: Errno, n: nat, fired: seq<Event>) {
    match s.state
    case BodyIdentityEof => errno == OK && n == 0 && fired == [MessageComplete]
    case Dead => errno == OK && n == 0 && fired == []
    case StartReqOrRes => errno == OK && n == 0 && fired == []
    case StartRes => errno == OK && n == 0 && fired == []
    case StartReq => errno == OK && n == 0 && fired == []
    case _ => errno == InvalidEofState && n == 1 && fired == []
  }

  // ---- the relation between the loop and the reference machine ----

  /** After `p` bytes the real loop, with its unreported pieces counted in, is where the reference machine is. */
  ghost predicate Tracks(st: Settings, s0: Parser, data: string, p: nat, s: Parser, fired: seq<Event>, marks: Marks) {
    && p <= |data|
    && Run(st, Start(s0), data[..p]) == Machine(s, Canon(fired + Pending(marks, data, p)), p, Going)
    && MarksOk(s.state, marks, p)
    && Inv(s)
  }

  /** The reference machine has given up because of the header limit. */
  ghost predicate Overflowed(st: Settings, s0: Parser, data: string) {
    var out := Run(st, Start(s0), data).out;
    out.Failed? && out.errno == HeaderOverflow
  }

  lemma ActAt(st: Settings, s: Parser, ch: char)
    ensures ActFits(s.state, Step(st, s, ch))
  {
    hide Dispatch;
    DispatchFits(st, s, ch);
    DispatchFits(st, s.(nread := s.nread + 1), ch);
  }

  lemma TracksHas(st: Settings, s0: Parser, data: string, p: nat, s: Parser, fired: seq<Event>, marks: Marks)
    requires Tracks(st, s0, data, p, s, fired, marks)
    ensures p <= |data| && Run(st, Start(s0), data[..p]) == Machine(s, Canon(fired + Pending(marks, data, p)), p, Going)
    ensures MarksOk(s.state, marks, p) && Inv(s) && forall k <- marks :: marks[k] <= p
  {
    hide Run, Canon, Pending, Inv;
  }

  lemma TracksIs(st: Settings, s0: Parser, data: string, p: nat, s: Parser, fired: seq<Event>, marks: Marks)
    requires p <= |data| && MarksOk(s.state, marks, p) && Inv(s)
    requires Run(st, Start(s0), data[..p]) == Machine(s, Canon(fired + Pending(marks, data, p)), p, Going)
    ensures Tracks(st, s0, data, p, s, fired, marks)
  {
    hide Run, Canon, Pending, Inv;
  }

  /** One byte of the reference machine, followed by the real loop with its marks. */
  lemma StepTracks(st: Settings, s0: Parser, data: string, p: nat, s: Parser, fired: seq<Event>, marks: Marks)
    requires Tracks(st, s0, data, p, s, fired, marks) && p < |data|
    ensures forall k <- marks :: marks[k] <= p
    ensures var a := Step(st, s, data[p]);
            match a
            case Go(s', calls) =>
              Tracks(st, s0, data, p + 1, s', fired + FiredBy(calls, marks, data, p), MarksAfter(calls, marks, p))
            case Leave(s', calls) =>
              && Accepted(st, s0, data, s', p + 1, fired + FiredBy(calls, marks, data, p)) && Inv(s')
            case Fail(e) => Refused(st, s0, data, e, p)
  {
    hide *;
    var m, ch := Run(st, Start(s0), data[..p]), data[p];
    TracksHas(st, s0, data, p, s, fired, marks);
    RunTo(st, Start(s0), data, p);
    ActAt(st, s, ch);
    ActHas(s.state, Step(st, s, ch));
    StepInv(st, s, ch);
    if Step(st, s, ch).Fail? {
      NextFails(st, m, ch);
      RunStoppedAt(st, Start(s0), data, p + 1);
      RefusedIs(st, s0, data, Step(st, s, ch).errno, p);
    } else {
      var s', calls := Step(st, s, ch).s, Step(st, s, ch).calls;
      NextIs(st, m, ch);
      FiresOnto(data, p, s.state, s'.state, calls, marks, fired);
      if Step(st, s, ch).Go? {
        TracksIs(st, s0, data, p + 1, s', fired + FiredBy(calls, marks, data, p), MarksAfter(calls, marks, p));
      } else {
        Leaves(st, s0, data, p, s', fired + FiredBy(calls, marks, data, p), MarksAfter(calls, marks, p));
      }
    }
  }

  lemma ActHas(s: State, a: Act)
    requires ActFits(s, a)
    ensures (!a.Fail? ==> Fits(s, a.s.state, a.calls)) && (a.Fail? ==> a.errno != OK)
    ensures a.Leave? ==> AtMessageEnd(a.s.state)
  {
    hide Fits;
  }

  lemma RefusedIs(st: Settings, s0: Parser, data: string, errno: Errno, n: nat)
    requires errno != OK && Run(st, Start(s0), data).out == Failed(errno, n)
    ensures Refused(st, s0, data, errno, n)
  {
  }

  /** Leaving HTTP: nothing is pending between messages. */
  lemma Leaves(st: Settings, s0: Parser, data: string, p: nat, s: Parser, fired: seq<Event>, marks: Marks)
    requires p < |data| && MarksOk(s.state, marks, p + 1) && AtMessageEnd(s.state)
    requires Run(st, Start(s0), data[..p + 1]) == Machine(s, Canon(fired + Pending(marks, data, p + 1)), p + 1, Left(p + 1))
    ensures Accepted(st, s0, data, s, p + 1, fired)
  {
    hide Run, Pending, Canon;
    RunStoppedAt(st, Start(s0), data, p + 1);
    PendingNone(data, p + 1);
    assert fired + [] == fired;
  }

  lemma FiresOnto(data: string, p: nat, s: State, next: State, calls: Calls, marks: Marks, fired: seq<Event>)
    requires p < |data| && MarksOk(s, marks, p) && Fits(s, next, calls)
    ensures MarksOk(next, MarksAfter(calls, marks, p), p + 1)
    ensures Canon(fired + FiredBy(calls, marks, data, p) + Pending(MarksAfter(calls, marks, p), data, p + 1))
         == PushAll(Canon(fired + Pending(marks, data, p)), EventsOf(OpenKind(s), calls, data[p]))
  {
    hide Push, Pending;
    var more, rest := FiredBy(calls, marks, data, p), Pending(MarksAfter(calls, marks, p), data, p + 1);
    OneByteFires(Canon(fired), data, p, s, next, calls, marks);
    PushAllConcat([], fired, more + rest);
    PushAllConcat([], fired, Pending(marks, data, p));
    assert fired + more + rest == fired + (more + rest);
  }

  /** Inside a run of name or value bytes: `now` is the parser with the run's bytes read but not yet counted. */
  ghost predicate Running(st: Settings, s0: Parser, data: string, p0: nat, p: nat, s1: Parser, now: Parser,
                          fired: seq<Event>, marks: Marks) {
    && p0 <= p <= |data|
    && ParsingHeader(now.state)
    && var counted := s1.nread + (p - p0);
       if counted <= MAX_HEADER_SIZE then Tracks(st, s0, data, p, now.(nread := counted), fired, marks)
       else Overflowed(st, s0, data)
  }

  lemma RunStarts(st: Settings, s0: Parser, data: string, p0: nat, s1: Parser, fired: seq<Event>, marks: Marks)
    requires p0 <= |data| && Tracks(st, s0, data, p0, s1, fired, marks) && ParsingHeader(s1.state)
    ensures Running(st, s0, data, p0, p0, s1, s1.(nread := s1.nread + 1), fired, marks)
  {
    hide Tracks;
    TracksMarks(st, s0, data, p0, s1, fired, marks);
    assert s1.(nread := s1.nread + 1).(nread := s1.nread) == s1;
  }

  lemma RunningStep(st: Settings, s0: Parser, data: string, p0: nat, p: nat, s1: Parser, now: Parser,
                    fired: seq<Event>, marks: Marks)
    requires Running(st, s0, data, p0, p, s1, now, fired, marks) && p < |data|
    requires forall k <- marks :: marks[k] <= p
    ensures var counted := s1.nread + (p - p0) + 1;
            if counted > MAX_HEADER_SIZE then Overflowed(st, s0, data)
            else match Dispatch(st, now.(nread := counted), data[p])
              case Go(s', calls) =>
                Tracks(st, s0, data, p + 1, s', fired + FiredBy(calls, marks, data, p), MarksAfter(calls, marks, p))
              case Leave(s', calls) => true
              case Fail(e) => Refused(st, s0, data, e, p)
  {
    hide Dispatch, Tracks, Pending, Accepted;
    var counted := s1.nread + (p - p0);
    if counted <= MAX_HEADER_SIZE {
      var s := now.(nread := counted);
      assert s.(nread := s.nread + 1) == now.(nread := counted + 1);
      StepTracks(st, s0, data, p, s, fired, marks);
    }
  }

  /** A byte without callbacks takes the run one further. */
  lemma RunningOn(st: Settings, s0: Parser, data: string, p0: nat, p: nat, s1: Parser, now: Parser, next: Parser,
                  fired: seq<Event>, marks: Marks)
    requires Running(st, s0, data, p0, p, s1, now, fired, marks) && p < |data| && ParsingHeader(next.state)
    requires forall k <- marks :: marks[k] <= p
    requires var counted := s1.nread + (p - p0) + 1;
             Dispatch(st, now.(nread := counted), data[p]) == Go(next.(nread := counted), SILENT)
    ensures Running(st, s0, data, p0, p + 1, s1, next, fired, marks)
  {
    hide Dispatch, Tracks;
    RunningStep(st, s0, data, p0, p, s1, now, fired, marks);
    assert fired + FiredBy(SILENT, marks, data, p) == fired;
  }

  /** Reading `j` body bytes that do not end the body. */
  lemma {:induction false} BodyTracks(st: Settings, s0: Parser, data: string, p: nat, s: Parser,
                                      fired: seq<Event>, marks: Marks, j: nat)
    requires Tracks(st, s0, data, p, s, fired, marks) && p + j <= |data|
    requires s.state.BodyIdentityEof? || ((s.state.BodyIdentity? || s.state.ChunkData?) && j < s.length)
    ensures Tracks(st, s0, data, p + j, if s.state.BodyIdentityEof? then s else s.(length := s.length - j),
                   fired, if j == 0 then marks else SetMark(marks, Body, p))
  {
    hide Dispatch, Tracks, Pending;
    if j == 0 {
    } else {
      BodyTracks(st, s0, data, p, s, fired, marks, j - 1);
      var q := p + j - 1;
      var s' := if s.state.BodyIdentityEof? then s else s.(length := s.length - (j - 1));
      var marks' := if j == 1 then marks else SetMark(marks, Body, p);
      BodyGoesOn(st, s', data[q]);
      StepTracks(st, s0, data, q, s', fired, marks');
      TracksMarks(st, s0, data, q, s', fired, marks');
      assert fired + FiredBy(Calls(None, [], Some(Body)), marks', data, q) == fired;
    }
  }

  lemma BodyGoesOn(st: Settings, s: Parser, ch: char)
    requires s.state.BodyIdentityEof? || ((s.state.BodyIdentity? || s.state.ChunkData?) && s.length > 1)
    ensures Step(st, s, ch)
         == Go(if s.state.BodyIdentityEof? then s else s.(length := s.length - 1), Calls(None, [], Some(Body)))
  {
  }

  lemma TracksMarks(st: Settings, s0: Parser, data: string, p: nat, s: Parser, fired: seq<Event>, marks: Marks)
    requires Tracks(st, s0, data, p, s, fired, marks)
    ensures forall k <- marks :: marks[k] <= p
    ensures OpenKind(s.state).Some? ==> OpenKind(s.state).value in marks
    ensures Inv(s)
  {
  }

  /** The end of a run of name or value bytes: its bytes are counted, and the byte that ends it is read. */
  lemma RunEnds(st: Settings, s0: Parser, data: string, p0: nat, p: nat, s1: Parser, now: Parser, k: Kind,
                fired: seq<Event>, marks: Marks)
    requires Running(st, s0, data, p0, p, s1, now, fired, marks)
    requires k in marks && forall k <- marks :: marks[k] <= p
    ensures var counted := s1.nread + (p - p0);
            && (counted > MAX_HEADER_SIZE || (p < |data| && counted == MAX_HEADER_SIZE) ==> Overflowed(st, s0, data))
            && (p == |data| && counted <= MAX_HEADER_SIZE ==>
                  Tracks(st, s0, data, p, now.(nread := counted), fired, marks))
            && (p < |data| && counted < MAX_HEADER_SIZE ==>
                  match Dispatch(st, now.(nread := counted + 1), data[p])
                  case Go(s', calls) =>
                    calls == Calls(Some(Close(k, false, false)), [], None) ==>
                      Tracks(st, s0, data, p + 1, s', fired + [DataEvent(k, data[marks[k]..p], true)], marks - {k})
                  case Leave(s', calls) => true
                  case Fail(e) => Refused(st, s0, data, e, p))
  {
    hide Dispatch, Tracks, Pending, Overflowed, Refused;
    if p < |data| {
      RunningStep(st, s0, data, p0, p, s1, now, fired, marks);
      var calls := Calls(Some(Close(k, false, false)), [], None);
      assert fired + FiredBy(calls, marks, data, p) == fired + [DataEvent(k, data[marks[k]..p], true)];
    }
  }

  /** The count of a run of bytes does not wrap. */
  lemma CountIs(nread: nat, v: nat)
    requires nread <= MAX_HEADER_SIZE && v <= MAX_BUFFER
    ensures Count(nread, v) == nread + v
  {
  }

  lemma TokenIs(ch: char)
    requires IsToken(ch)
    ensures Token(ch) != '\0'
  {
  }

  /** What ends a name. */
  lemma FieldByteIs(s: Parser, ch: char)
    requires !IsToken(ch)
    ensures FieldByte(s, ch) == if ch == ':' then Go(s.(state := HeaderValueDiscardWs), Calls(Some(Close(Field, false, false)), [], None))
                                else Fail(InvalidHeaderToken)
  {
  }

  /** What ends a value. */
  lemma ValueByteIs(s: Parser, ch: char)
    requires ch == CR || ch == LF
    ensures ValueByte(s, ch) == Go(s.(state := if ch == CR then HeaderAlmostDone else HeaderValueLws),
                                   Calls(Some(Close(Value, false, false)), [], None))
  {
  }

  lemma StringStates()
    ensures OpenKind(HeaderField) == Some(Field) && OpenKind(HeaderValue) == Some(Value)
    ensures ParsingHeader(HeaderField) && ParsingHeader(HeaderValue)
  {
  }

  lemma DataIsWhole(fired: seq<Event>, k: Kind, x: string)
    requires forall e <- fired :: Whole(e)
    ensures forall e <- fired + [DataEvent(k, x, true)] :: Whole(e)
  {
  }

  lemma NoNameState(hs: HState)
    requires ValueHState(hs)
    ensures hs != Connection && hs != TransferEncoding
  {
  }

  lemma StateOk(s: Parser)
    requires Inv(s)
    ensures s.nread <= MAX_HEADER_SIZE && (s.length <= MAX_LENGTH || s.length == NO_LENGTH)
    ensures s.state.HeaderField? ==> FieldHState(s.hs) && IndexOk(s.hs, s.index)
    ensures s.state.HeaderValue? ==> ValueHState(s.hs) && IndexOk(s.hs, s.index)
    ensures s.state.BodyIdentity? || s.state.ChunkData? ==> 0 < s.length <= MAX_LENGTH
  {
  }

  /** Before the first byte nothing is pending: a preset mark is at the start of the buffer. */
  lemma StartTracks(st: Settings, s0: Parser, data: string, marks: Marks)
    requires Inv(s0) && marks == if OpenKind(s0.state).Some? then map[OpenKind(s0.state).value := 0] else map[]
    ensures Tracks(st, s0, data, 0, s0, [], marks)
  {
    assert data[..0] == [];
    if OpenKind(s0.state).Some? {
      PendingOne(OpenKind(s0.state).value, marks, data, 0);
    } else {
      PendingNone(data, 0);
    }
  }

  lemma OneMark(s: State, marks: Marks, p: nat)
    requires MarksOk(s, marks, p)
    ensures |marks| <= 1
  {
  }

  lemma FieldGoesOn(st: Settings, s0: Parser, data: string, p0: nat, p: nat, s1: Parser, now: Parser,
                    fired: seq<Event>, marks: Marks)
    requires Running(st, s0, data, p0, p, s1, now, fired, marks) && p < |data|
    requires forall k <- marks :: marks[k] <= p
    requires now.state.HeaderField? && IsToken(data[p])
    ensures var (hs, index) := FieldNext(now.hs, now.index, Token(data[p]));
            Running(st, s0, data, p0, p + 1, s1, now.(hs := hs, index := index), fired, marks)
  {
    hide FieldNext, Running;
    var (hs, index) := FieldNext(now.hs, now.index, Token(data[p]));
    RunningOn(st, s0, data, p0, p, s1, now, now.(hs := hs, index := index), fired, marks);
  }

  lemma ValueGoesOn(st: Settings, s0: Parser, data: string, p0: nat, p: nat, s1: Parser, now: Parser,
                    fired: seq<Event>, marks: Marks)
    requires Running(st, s0, data, p0, p, s1, now, fired, marks) && p < |data|
    requires forall k <- marks :: marks[k] <= p
    requires now.state.HeaderValue? && data[p] != CR && data[p] != LF && (now.lenient || IsHeaderChar(data[p]))
    requires ValueNext(ScanOf(now), data[p]).Scan?
    ensures Running(st, s0, data, p0, p + 1, s1, WithScan(now, ValueNext(ScanOf(now), data[p])), fired, marks)
  {
    hide ValueNext, Running;
    RunningOn(st, s0, data, p0, p, s1, now, WithScan(now, ValueNext(ScanOf(now), data[p])), fired, marks);
  }

  lemma DispatchField(st: Settings, s: Parser, ch: char)
    requires s.state.HeaderField?
    ensures Dispatch(st, s, ch) == FieldByte(s, ch)
  {
  }

  lemma DispatchValue(st: Settings, s: Parser, ch: char)
    requires s.state.HeaderValue?
    ensures Dispatch(st, s, ch) == ValueByte(s, ch)
  {
  }

  lemma LastBodyByte(st: Settings, s: Parser, ch: char)
    requires s.length == 1 && (s.state.BodyIdentity? || s.state.ChunkData?)
    ensures Step(st, s, ch) == if s.state.ChunkData? then Marking(s.(length := 0, state := ChunkDataAlmostDone), Body)
                               else MessageDoneByte(s.(length := 0), [], Some(Close(Body, true, true)))
  {
  }

  lemma OverflowRefuses(st: Settings, s0: Parser, data: string, errno: Errno, n: nat)
    requires Overflowed(st, s0, data) && errno != OK
    ensures Refused(st, s0, data, errno, n)
  {
  }

  /** A byte the case for a name or a value rejects. */
  lemma RunningFails(st: Settings, s0: Parser, data: string, p0: nat, p: nat, s1: Parser, now: Parser,
                     fired: seq<Event>, marks: Marks, e: Errno)
    requires Running(st, s0, data, p0, p, s1, now, fired, marks) && p < |data|
    requires forall k <- marks :: marks[k] <= p
    requires Dispatch(st, now.(nread := s1.nread + (p - p0) + 1), data[p]) == Fail(e) && e != OK
    ensures Refused(st, s0, data, e, p)
  {
    hide Dispatch, Tracks, Pending;
    RunningStep(st, s0, data, p0, p, s1, now, fired, marks);
  }

  /** A value byte that is not allowed, or that the header state rejects. */
  lemma ValueRejected(st: Settings, s0: Parser, data: string, p0: nat, p: nat, s1: Parser, now: Parser,
                      fired: seq<Event>, marks: Marks)
    requires Running(st, s0, data, p0, p, s1, now, fired, marks) && p < |data|
    requires forall k <- marks :: marks[k] <= p
    requires p0 <= p && now.state.HeaderValue? && data[p] != CR && data[p] != LF
    ensures !now.lenient && !IsHeaderChar(data[p]) ==> Refused(st, s0, data, InvalidHeaderToken, p)
    ensures var v := ValueNext(ScanOf(now), data[p]);
            (now.lenient || IsHeaderChar(data[p])) && v.Bad? ==> Refused(st, s0, data, v.errno, p) && v.errno != OK
  {
    hide Dispatch, Running, Refused, ValueNext, IsHeaderChar;
    DispatchValue(st, now.(nread := s1.nread + (p - p0) + 1), data[p]);
    ValueNextError(ScanOf(now), data[p]);
    if !now.lenient && !IsHeaderChar(data[p]) {
      RunningFails(st, s0, data, p0, p, s1, now, fired, marks, InvalidHeaderToken);
    } else if ValueNext(ScanOf(now), data[p]).Bad? {
      RunningFails(st, s0, data, p0, p, s1, now, fired, marks, ValueNext(ScanOf(now), data[p]).errno);
    }
  }

  // ---- the loop ----

  datatype Verdict = More | Done | Broken

  class HttpParser {
    /** struct http_parser, without its error number. */
    var st: Parser
    var errno: Errno

    ghost predicate Valid()
      reads this
    {
      errno == OK ==> Inv(st)
    }

    constructor (t: ParserType)
      ensures Valid() && errno == OK && st == Init(t)
    {
      st := Init(t);
      errno := OK;
    }

    /** http_parser_execute: parses one buffer, returns the bytes read and the callbacks made. */
    method Execute(cfg: Settings, data: string) returns (n: nat, fired: seq<Event>)
      requires Valid() && |data| <= MAX_BUFFER
      modifies this
      ensures Valid()
      ensures old(errno) != OK ==> n == 0 && fired == [] && st == old(st) && errno == old(errno)
      ensures old(errno) == OK && data == [] ==> AtEof(old(st), errno, n, fired) && st == old(st)
      ensures old(errno) == OK && data != [] ==>
                CallResult(cfg, old(st), data, st, errno, n, fired)
    {
      n, fired := 0, [];
      if errno != OK {
        return;
      }
      if |data| == 0 {
        if st.state.BodyIdentityEof? {
          fired := [MessageComplete];
        } else if !(st.state.Dead? || st.state.StartReqOrRes? || st.state.StartRes? || st.state.StartReq?) {
          errno := InvalidEofState;
          n := 1;
        }
        return;
      }
      ghost var s0 := st;
      hide *;
      n, fired := ParseBuffer(cfg, data);
      CallIs(cfg, s0, data, st, errno, n, fired);
    }

    lemma CallIs(cfg: Settings, s0: Parser, data: string, s: Parser, code: Errno, n: nat, fired: seq<Event>)
      requires code == errno && s == st && (errno == OK ==> Inv(st))
      requires if code == OK then Accepted(cfg, s0, data, s, n, fired) && PiecesAtEnd(fired) else Refused(cfg, s0, data, code, n)
      ensures CallResult(cfg, s0, data, s, code, n, fired) && Valid()
    {
      hide Accepted, Refused, PiecesAtEnd, Inv;
    }

    /** The loop over a non-empty buffer, and the flush behind it. */
    method ParseBuffer(cfg: Settings, data: string) returns (n: nat, fired: seq<Event>)
      requires errno == OK && Inv(st) && 0 < |data| <= MAX_BUFFER
      modifies this
      ensures errno == OK ==> Inv(st)
      ensures if errno == OK then Accepted(cfg, old(st), data, st, n, fired) && PiecesAtEnd(fired)
              else Refused(cfg, old(st), data, errno, n)
    {
      hide *;
      ghost var s0 := st;
      fired := [];
      var marks: Marks := if OpenKind(st.state).Some? then map[OpenKind(st.state).value := 0] else map[];
      StartTracks(cfg, s0, data, marks);
      var p: nat, verdict := 0, More;
      while p < |data|
        invariant p <= |data| && errno == OK && Tracks(cfg, s0, data, p, st, fired, marks)
        invariant forall e <- fired :: Whole(e)
      {
        ghost var from := p;
        verdict, p, marks, fired := OneRound(cfg, data, p, marks, fired, s0);
        RoundIs(cfg, data, from, s0, verdict, p, marks, fired);
        if verdict != More {
          n := p;
          WholePieces(fired);
          return;
        }
      }
      n := |data|;
      TracksHas(cfg, s0, data, p, st, fired, marks);
      OneMark(st.state, marks, p);
      assert |marks| <= 1;
      fired := Flush(cfg, data, marks, fired, s0);
    }

    lemma RoundIs(cfg: Settings, data: string, p: nat, s0: Parser, verdict: Verdict, q: nat, marks: Marks, fired: seq<Event>)
      requires AfterRound(cfg, data, p, s0, verdict, q, marks, fired)
      ensures verdict.More? ==> errno == OK && p < q <= |data| && Tracks(cfg, s0, data, q, st, fired, marks)
      ensures verdict.Done? ==> errno == OK && Accepted(cfg, s0, data, st, q, fired) && Inv(st)
      ensures verdict.Broken? ==> Refused(cfg, s0, data, errno, q) && errno != OK
      ensures forall e <- fired :: Whole(e)
    {
      hide Accepted, Whole, Inv;
      if verdict.More? {
        TracksHas(cfg, s0, data, q, st, fired, marks);
      }
    }

    lemma WholePieces(fired: seq<Event>)
      requires forall e <- fired :: Whole(e)
      ensures PiecesAtEnd(fired)
    {
      hide Whole;
    }

    /** The callbacks for the marks left over when the bytes run out. */
    method Flush(cfg: Settings, data: string, marks: Marks, sofar: seq<Event>, ghost s0: Parser)
        returns (fired: seq<Event>)
      requires data != [] && Tracks(cfg, s0, data, |data|, st, sofar, marks)
      requires forall e <- sofar :: Whole(e)
      ensures Accepted(cfg, s0, data, st, |data|, fired) && PiecesAtEnd(fired)
    {
      hide Pending, Run, Canon, Inv;
      var end := |data|;
      fired := sofar;
      if Field in marks {
        fired := fired + [Data(Field, data[marks[Field]..end], false)];
      }
      if Value in marks {
        fired := fired + [Data(Value, data[marks[Value]..end], false)];
      }
      if Url in marks {
        fired := fired + [Data(Url, data[marks[Url]..end], false)];
      }
      if Body in marks {
        fired := fired + [Data(Body, data[marks[Body]..end], false)];
      }
      if Status in marks {
        fired := fired + [Data(Status, data[marks[Status]..end], false)];
      }
      assert data[..end] == data;
      if marks == map[] {
        PendingNone(data, end);
        assert fired == sofar + [];
      } else {
        ghost var k :| marks.Keys == {k};
        PendingOne(k, marks, data, end);
        assert fired == sofar + PendingOf(k, marks, data, end);
      }
    }

    /** One turn of the loop: count the byte, then the case for the state, which may read further bytes. */
    method OneRound(cfg: Settings, data: string, p: nat, marks0: Marks, fired0: seq<Event>, ghost s0: Parser)
        returns (verdict: Verdict, q: nat, marks: Marks, fired: seq<Event>)
      requires errno == OK && p < |data| <= MAX_BUFFER && Tracks(cfg, s0, data, p, st, fired0, marks0)
      requires forall e <- fired0 :: Whole(e)
      modifies this
      ensures AfterRound(cfg, data, p, s0, verdict, q, marks, fired)
    {
      hide Dispatch, Tracks, Pending;
      ghost var s1 := st;
      TracksMarks(cfg, s0, data, p, s1, fired0, marks0);
      marks, fired, q := marks0, fired0, p;
      if ParsingHeader(st.state) {
        st := st.(nread := Count(st.nread, 1));
        if st.nread > MAX_HEADER_SIZE {
          errno := HeaderOverflow;
          StepTracks(cfg, s0, data, p, s1, fired, marks);
          return Broken, p, marks, fired;
        }
      }
      if st.state.HeaderField? {
        verdict, q, marks, fired := FieldRun(cfg, data, p, marks, fired, s0, s1);
      } else if st.state.HeaderValue? {
        verdict, q, marks, fired := ValueRun(cfg, data, p, marks, fired, s0, s1);
      } else if st.state.BodyIdentity? || st.state.ChunkData? {
        verdict, q, marks, fired := BodyRun(cfg, data, p, marks, fired, s0);
      } else if st.state.BodyIdentityEof? {
        BodyTracks(cfg, s0, data, p, st, fired, marks, |data| - p);
        verdict, q, marks := More, |data|, SetMark(marks, Body, p);
      } else {
        verdict, q, marks, fired := Switch(cfg, data, p, marks, fired, s0, s1);
      }
    }

    /** What a turn of the loop leaves: the relation further on, or the end of the call. */
    ghost predicate AfterRound(cfg: Settings, data: string, p: nat, s0: Parser, verdict: Verdict, q: nat,
                               marks: Marks, fired: seq<Event>)
      reads this
    {
      && (verdict.More? ==> errno == OK && p < q && Tracks(cfg, s0, data, q, st, fired, marks))
      && (verdict.Done? ==> errno == OK && Accepted(cfg, s0, data, st, q, fired) && Inv(st))
      && (verdict.Broken? ==> Refused(cfg, s0, data, errno, q))
      && forall e <- fired :: Whole(e)
    }

    lemma RoundMore(cfg: Settings, data: string, p: nat, s0: Parser, q: nat, marks: Marks, fired: seq<Event>)
      requires errno == OK && p < q && Tracks(cfg, s0, data, q, st, fired, marks) && forall e <- fired :: Whole(e)
      ensures AfterRound(cfg, data, p, s0, More, q, marks, fired)
    {
      hide Tracks, Whole;
    }

    lemma RoundBroken(cfg: Settings, data: string, p: nat, s0: Parser, q: nat, marks: Marks, fired: seq<Event>)
      requires Refused(cfg, s0, data, errno, q) && forall e <- fired :: Whole(e)
      ensures AfterRound(cfg, data, p, s0, Broken, q, marks, fired)
    {
      hide Refused, Whole;
    }

    /** The states that read one byte. */
    method Switch(cfg: Settings, data: string, p: nat, marks0: Marks, fired0: seq<Event>, ghost s0: Parser,
                  ghost s1: Parser)
        returns (verdict: Verdict, q: nat, marks: Marks, fired: seq<Event>)
      requires errno == OK && p < |data| && Tracks(cfg, s0, data, p, s1, fired0, marks0)
      requires s1.nread < MAX_HEADER_SIZE || !ParsingHeader(s1.state)
      requires st == if ParsingHeader(s1.state) then s1.(nread := s1.nread + 1) else s1
      requires forall e <- fired0 :: Whole(e)
      modifies this
      ensures AfterRound(cfg, data, p, s0, verdict, q, marks, fired)
    {
      hide Dispatch, Tracks;
      StepTracks(cfg, s0, data, p, s1, fired0, marks0);
      TracksMarks(cfg, s0, data, p, s1, fired0, marks0);
      ActAt(cfg, s1, data[p]);
      marks, fired := marks0, fired0;
      match Dispatch(cfg, st, data[p]) {
        case Fail(e) =>
          errno := e;
          return Broken, p, marks, fired;
        case Go(s', calls) =>
          marks, fired := Perform(data, p, calls, marks0, fired0);
          st := s';
          return More, p + 1, marks, fired;
        case Leave(s', calls) =>
          marks, fired := Perform(data, p, calls, marks0, fired0);
          st := s';
          return Done, p + 1, marks, fired;
      }
    }

    /** The callback macros of one byte. */
    method Perform(data: string, p: nat, calls: Calls, marks0: Marks, fired0: seq<Event>)
        returns (marks: Marks, fired: seq<Event>)
      requires p < |data| && forall k <- marks0 :: marks0[k] <= p
      requires forall e <- fired0 :: Whole(e)
      requires forall e <- calls.notes :: !e.Data?
      ensures marks == MarksAfter(calls, marks0, p) && fired == fired0 + FiredBy(calls, marks0, data, p)
      ensures forall e <- fired :: Whole(e)
    {
      marks, fired := marks0, fired0;
      if calls.close.Some? {
        var c := calls.close.value;
        if c.markFirst {
          marks := SetMark(marks, c.kind, p);
        }
        if c.kind in marks {
          fired := fired + [DataEvent(c.kind, data[marks[c.kind]..if c.through then p + 1 else p], true)];
          marks := marks - {c.kind};
        }
      }
      fired := fired + calls.notes;
      if calls.mark.Some? {
        marks := SetMark(marks, calls.mark.value, p);
      }
    }

    /** s_header_field: reads name bytes up to the colon or the end of the buffer, then counts them. */
    method FieldRun(cfg: Settings, data: string, p0: nat, marks0: Marks, fired0: seq<Event>, ghost s0: Parser,
                    ghost s1: Parser)
        returns (verdict: Verdict, q: nat, marks: Marks, fired: seq<Event>)
      requires errno == OK && p0 < |data| <= MAX_BUFFER && Tracks(cfg, s0, data, p0, s1, fired0, marks0)
      requires s1.state.HeaderField? && s1.nread < MAX_HEADER_SIZE && st == s1.(nread := s1.nread + 1)
      requires forall e <- fired0 :: Whole(e)
      modifies this
      ensures AfterRound(cfg, data, p0, s0, verdict, q, marks, fired)
    {
      hide *;
      StringStates();
      TracksMarks(cfg, s0, data, p0, s1, fired0, marks0);
      RunStarts(cfg, s0, data, p0, s1, fired0, marks0);
      StateOk(s1);
      marks, fired := marks0, fired0;
      var p: nat := p0;
      while p < |data| && IsToken(data[p])
        invariant p0 <= p <= |data| && errno == OK
        invariant st == s1.(nread := s1.nread + 1, hs := st.hs, index := st.index)
        invariant FieldHState(st.hs) && IndexOk(st.hs, st.index)
        invariant Running(cfg, s0, data, p0, p, s1, st, fired, marks)
      {
        assert FieldHState(st.hs);  // "Unknown header_state"
        if st.hs == General {
          p := SkipField(cfg, data, p0, p, marks, fired, s0, s1);
        } else {
          TokenIs(data[p]);
          FieldNextOk(st.hs, st.index, Token(data[p]));
          FieldGoesOn(cfg, s0, data, p0, p, s1, st, fired, marks);
          var (hs, index) := FieldNext(st.hs, st.index, Token(data[p]));
          st := st.(hs := hs, index := index);
        }
        p := p + 1;
      }
      RunEnds(cfg, s0, data, p0, p, s1, st, Field, fired, marks);
      var last: nat := if p == |data| then p - 1 else p;
      CountIs(st.nread, last - p0);
      ghost var now := st;
      if p < |data| {
        DispatchField(cfg, st.(nread := s1.nread + (p - p0) + 1), data[p]);
        FieldByteIs(st.(nread := s1.nread + (p - p0) + 1), data[p]);
      }
      st := st.(nread := Count(st.nread, last - p0));
      if st.nread > MAX_HEADER_SIZE {
        errno := HeaderOverflow;
        OverflowRefuses(cfg, s0, data, errno, last);
        RoundBroken(cfg, data, p0, s0, last, marks, fired);
        return Broken, last, marks, fired;
      }
      if p == |data| {
        RoundMore(cfg, data, p0, s0, p, marks, fired);
        return More, p, marks, fired;
      }
      if data[p] != ':' {
        errno := InvalidHeaderToken;
        RoundBroken(cfg, data, p0, s0, p, marks, fired);
        return Broken, p, marks, fired;
      }
      DataIsWhole(fired, Field, data[marks[Field]..p]);
      fired := fired + [DataEvent(Field, data[marks[Field]..p], true)];
      marks := marks - {Field};
      st := st.(state := HeaderValueDiscardWs);
      RoundMore(cfg, data, p0, s0, p + 1, marks, fired);
      return More, p + 1, marks, fired;
    }

    /** The h_general case inside a name: skips on while the next byte is a token byte. */
    method SkipField(cfg: Settings, data: string, p0: nat, p1: nat, marks: Marks, fired: seq<Event>,
                     ghost s0: Parser, ghost s1: Parser)
        returns (p: nat)
      requires forall k <- marks :: marks[k] <= p1
      requires p0 <= p1 < |data| && IsToken(data[p1])
      requires st.state.HeaderField? && st.hs == General
      requires Running(cfg, s0, data, p0, p1, s1, st, fired, marks)
      ensures p1 <= p < |data| && Running(cfg, s0, data, p0, p + 1, s1, st, fired, marks)
    {
      hide Dispatch, Tracks, Overflowed;
      p := p1;
      var pe := p + Min(|data| - p, MAX_HEADER_SIZE);
      while p + 1 < pe && IsToken(data[p + 1])
        invariant p1 <= p < pe <= |data| && IsToken(data[p])
        invariant Running(cfg, s0, data, p0, p, s1, st, fired, marks)
        modifies {}
      {
        FieldGoesOn(cfg, s0, data, p0, p, s1, st, fired, marks);
        p := p + 1;
      }
      FieldGoesOn(cfg, s0, data, p0, p, s1, st, fired, marks);
    }

    /** s_header_value: reads value bytes up to the end of the line or of the buffer, then counts them. */
    method ValueRun(cfg: Settings, data: string, p0: nat, marks0: Marks, fired0: seq<Event>, ghost s0: Parser,
                    ghost s1: Parser)
        returns (verdict: Verdict, q: nat, marks: Marks, fired: seq<Event>)
      requires errno == OK && p0 < |data| <= MAX_BUFFER && Tracks(cfg, s0, data, p0, s1, fired0, marks0)
      requires s1.state.HeaderValue? && s1.nread < MAX_HEADER_SIZE && st == s1.(nread := s1.nread + 1)
      requires forall e <- fired0 :: Whole(e)
      modifies this
      ensures AfterRound(cfg, data, p0, s0, verdict, q, marks, fired)
    {
      hide *;
      StringStates();
      TracksMarks(cfg, s0, data, p0, s1, fired0, marks0);
      RunStarts(cfg, s0, data, p0, s1, fired0, marks0);
      StateOk(s1);
      ScanBack(s1);
      marks, fired := marks0, fired0;
      var p: nat := p0;
      while p < |data| && data[p] != CR && data[p] != LF
        invariant p0 <= p <= |data| && errno == OK
        invariant ScanOf(st).Scan? && st == WithScan(s1.(nread := s1.nread + 1), ScanOf(st))
        invariant ValueHState(st.hs) && IndexOk(st.hs, st.index)
        invariant st.length <= MAX_LENGTH || st.length == NO_LENGTH
        invariant Running(cfg, s0, data, p0, p, s1, st, fired, marks)
      {
        ScanIs(s1.(nread := s1.nread + 1), st);
        ValueRejected(cfg, s0, data, p0, p, s1, st, fired, marks);
        if !st.lenient && !IsHeaderChar(data[p]) {
          errno := InvalidHeaderToken;
          RoundBroken(cfg, data, p0, s0, p, marks, fired);
          return Broken, p, marks, fired;
        }
        NoNameState(st.hs);
        assert st.hs != Connection && st.hs != TransferEncoding;  // "Shouldn't get here."
        if st.hs == General {
          var bad: bool;
          p, bad := SkipValue(cfg, data, p0, p, marks, fired, s0, s1);
          if bad {
            errno := InvalidHeaderToken;
            RoundBroken(cfg, data, p0, s0, p, marks, fired);
            return Broken, p, marks, fired;
          }
        } else {
          ValueNextOk(ScanOf(st), data[p]);
          match ValueNext(ScanOf(st), data[p]) {
            case Bad(e) =>
              errno := e;
              RoundBroken(cfg, data, p0, s0, p, marks, fired);
              return Broken, p, marks, fired;
            case Scan(hs, index, flags, length) =>
              ValueGoesOn(cfg, s0, data, p0, p, s1, st, fired, marks);
              WithScanIs(s1.(nread := s1.nread + 1), st, Scan(hs, index, flags, length));
              st := st.(hs := hs, index := index, flags := flags, length := length);
          }
        }
        p := p + 1;
      }
      verdict, q, marks, fired := ValueEnd(cfg, data, p0, p, marks, fired, s0, s1);
    }

    lemma ScanBack(s: Parser)
      ensures var t := s.(nread := s.nread + 1); ScanOf(t).Scan? && t == WithScan(t, ScanOf(t))
    {
    }

    lemma ScanIs(s: Parser, t: Parser)
      requires t == WithScan(s, ScanOf(t))
      ensures t.state == s.state && t.lenient == s.lenient && t.nread == s.nread
      ensures ScanOf(t).Scan? && ScanOf(t).hs == t.hs && ScanOf(t).index == t.index && ScanOf(t).length == t.length
    {
    }

    lemma WithScanIs(s: Parser, t: Parser, x: Scan)
      requires t == WithScan(s, ScanOf(t)) && x.Scan?
      ensures var u := t.(hs := x.hs, index := x.index, flags := x.flags, length := x.length);
              u == WithScan(t, x) && ScanOf(u).Scan? && u == WithScan(s, ScanOf(u))
    {
    }

    /** The end of s_header_value: the bytes are counted, and the byte that ends the line is read. */
    method ValueEnd(cfg: Settings, data: string, p0: nat, p: nat, marks0: Marks, fired0: seq<Event>, ghost s0: Parser,
                    ghost s1: Parser)
        returns (verdict: Verdict, q: nat, marks: Marks, fired: seq<Event>)
      requires errno == OK && p0 <= p <= |data| <= MAX_BUFFER && p0 < |data| && s1.nread < MAX_HEADER_SIZE
      requires st == WithScan(s1.(nread := s1.nread + 1), ScanOf(st)) && s1.state.HeaderValue?
      requires Running(cfg, s0, data, p0, p, s1, st, fired0, marks0) && (p == |data| || data[p] == CR || data[p] == LF)
      requires p == p0 ==> p < |data|
      requires Value in marks0 && forall k <- marks0 :: marks0[k] <= p
      requires forall e <- fired0 :: Whole(e)
      modifies this
      ensures AfterRound(cfg, data, p0, s0, verdict, q, marks, fired)
    {
      hide *;
      ScanIs(s1.(nread := s1.nread + 1), st);
      marks, fired := marks0, fired0;
      RunEnds(cfg, s0, data, p0, p, s1, st, Value, fired, marks);
      var last: nat := if p == |data| then p - 1 else p;
      CountIs(st.nread, last - p0);
      if p < |data| {
        DispatchValue(cfg, st.(nread := s1.nread + (p - p0) + 1), data[p]);
        ValueByteIs(st.(nread := s1.nread + (p - p0) + 1), data[p]);
      }
      st := st.(nread := Count(st.nread, last - p0));
      if st.nread > MAX_HEADER_SIZE {
        errno := HeaderOverflow;
        OverflowRefuses(cfg, s0, data, errno, last);
        RoundBroken(cfg, data, p0, s0, last, marks, fired);
        return Broken, last, marks, fired;
      }
      if p == |data| {
        RoundMore(cfg, data, p0, s0, p, marks, fired);
        return More, p, marks, fired;
      }
      DataIsWhole(fired, Value, data[marks[Value]..p]);
      fired := fired + [DataEvent(Value, data[marks[Value]..p], true)];
      marks := marks - {Value};
      st := st.(state := if data[p] == CR then HeaderAlmostDone else HeaderValueLws);
      RoundMore(cfg, data, p0, s0, p + 1, marks, fired);
      return More, p + 1, marks, fired;
    }

    /** The h_general case inside a value: skips to the end of the line, at most the header limit at once.
        When it stops at that limit the caller's `p := p + 1` passes over one byte unseen. */
    method SkipValue(cfg: Settings, data: string, p0: nat, p1: nat, marks: Marks, fired: seq<Event>,
                     ghost s0: Parser, ghost s1: Parser)
        returns (p: nat, bad: bool)
      requires forall k <- marks :: marks[k] <= p1
      requires p0 <= p1 < |data| && data[p1] != CR && data[p1] != LF
      requires s1.state.HeaderValue? && st == WithScan(s1.(nread := s1.nread + 1), ScanOf(st))
      requires st.hs == General && (st.lenient || IsHeaderChar(data[p1]))
      requires Running(cfg, s0, data, p0, p1, s1, st, fired, marks)
      ensures bad ==> Refused(cfg, s0, data, InvalidHeaderToken, p)
      ensures !bad ==> p1 <= p < |data| && Running(cfg, s0, data, p0, p + 1, s1, st, fired, marks)
    {
      hide Dispatch, Tracks;
      p := p1;
      var pe := p + Min(|data| - p, MAX_HEADER_SIZE);
      while p != pe && data[p] != CR && data[p] != LF
        invariant p1 <= p <= pe
        modifies {}
        invariant Running(cfg, s0, data, p0, p, s1, st, fired, marks)
      {
        ValueRejected(cfg, s0, data, p0, p, s1, st, fired, marks);
        if !st.lenient && !IsHeaderChar(data[p]) {
          return p, true;
        }
        ValueGoesOn(cfg, s0, data, p0, p, s1, st, fired, marks);
        p := p + 1;
      }
      bad := false;
      if p != pe || p == |data| {
        p := p - 1;
      } else {
        RunningStep(cfg, s0, data, p0, p, s1, st, fired, marks);
      }
    }

    /** s_body_identity and s_chunk_data: takes all the body bytes the buffer holds at once. */
    method BodyRun(cfg: Settings, data: string, p0: nat, marks0: Marks, fired0: seq<Event>, ghost s0: Parser)
        returns (verdict: Verdict, q: nat, marks: Marks, fired: seq<Event>)
      requires errno == OK && p0 < |data| && Tracks(cfg, s0, data, p0, st, fired0, marks0)
      requires st.state.BodyIdentity? || st.state.ChunkData?
      requires forall e <- fired0 :: Whole(e)
      modifies this
      ensures AfterRound(cfg, data, p0, s0, verdict, q, marks, fired)
    {
      hide *;
      ghost var s1 := st;
      TracksMarks(cfg, s0, data, p0, s1, fired0, marks0);
      StateOk(s1);
      NoLengthIs();
      MinIs(st.length, |data| - p0);
      var toRead := Min(st.length, |data| - p0);
      assert st.length != 0 && st.length != NO_LENGTH;
      marks, fired := SetMark(marks0, Body, p0), fired0;
      var p: nat := p0 + (toRead - 1);
      BodyTracks(cfg, s0, data, p0, s1, fired, marks0, if toRead == st.length then toRead - 1 else toRead);
      st := st.(length := st.length - toRead);
      if st.length > 0 {
        BodyState(s1);
        RoundMore(cfg, data, p0, s0, p + 1, marks, fired);
        return More, p + 1, marks, fired;
      }
      BodyState(s1);
      ghost var s2, marks1 := s1.(length := 1), if toRead == 1 then marks0 else marks;
      assert toRead == s1.length ==> s1.(length := s1.length - (toRead - 1)) == s2;
      LastBodyByte(cfg, s2, data[p]);
      TracksMarks(cfg, s0, data, p, s2, fired, marks1);
      StepTracks(cfg, s0, data, p, s2, fired, marks1);
      MarkedTwice(marks0, p0, p, marks1, data);
      if st.state.ChunkData? {
        MarkingIs(s2.(length := 0, state := ChunkDataAlmostDone));
        st := st.(state := ChunkDataAlmostDone);
        assert fired + [] == fired;
        RoundMore(cfg, data, p0, s0, p + 1, marks, fired);
        return More, p + 1, marks, fired;
      }
      LastFired(s2.(length := 0), marks1, data, p, fired);
      DataIsWhole(fired, Body, data[marks[Body]..p + 1]);
      fired := fired + [DataEvent(Body, data[marks[Body]..p + 1], true)];
      marks := marks - {Body};
      st := st.(state := NewMessage(st));
      NoteIsWhole(fired);
      fired := fired + [MessageComplete];
      if st.upgrade {
        RoundDone(cfg, data, p0, s0, p + 1, marks, fired);
        return Done, p + 1, marks, fired;
      }
      RoundMore(cfg, data, p0, s0, p + 1, marks, fired);
      return More, p + 1, marks, fired;
    }

    lemma NoLengthIs()
      ensures NO_LENGTH > MAX_LENGTH
    {
    }

    lemma BodyState(s: Parser)
      requires s.state.BodyIdentity? || s.state.ChunkData?
      ensures !s.state.BodyIdentityEof?
    {
    }

    lemma MarkingIs(s: Parser)
      ensures Marking(s, Body) == Go(s, Calls(None, [], Some(Body)))
    {
    }

    /** A mark set earlier in the run stays. */
    lemma MarkedTwice(marks0: Marks, p0: nat, p: nat, marks1: Marks, data: string)
      requires p0 <= p < |data| && marks1 == (if p == p0 then marks0 else SetMark(marks0, Body, p0))
      requires forall k <- marks1 :: marks1[k] <= p
      ensures var marks, calls := SetMark(marks0, Body, p0), Calls(None, [], Some(Body));
              && MarksAfter(calls, marks1, p) == marks && FiredBy(calls, marks1, data, p) == []
              && SetMark(marks1, Body, p) == marks && Body in marks && marks[Body] <= p
    {
    }

    /** The callbacks of the last byte of an identity body. */
    lemma LastFired(s: Parser, marks1: Marks, data: string, p: nat, fired: seq<Event>)
      requires p < |data| && forall k <- marks1 :: marks1[k] <= p
      ensures var marks := SetMark(marks1, Body, p);
              var a := MessageDoneByte(s, [], Some(Close(Body, true, true)));
              && Body in marks && marks[Body] <= p && !a.Fail? && a.s == s.(state := NewMessage(s)) && (a.Leave? <==> s.upgrade)
              && fired + FiredBy(a.calls, marks1, data, p)
                 == fired + [DataEvent(Body, data[marks[Body]..p + 1], true)] + [MessageComplete]
              && MarksAfter(a.calls, marks1, p) == marks - {Body}
    {
      hide NewMessage, DataEvent;
    }

    lemma NoteIsWhole(fired: seq<Event>)
      requires forall e <- fired :: Whole(e)
      ensures forall e <- fired + [MessageComplete] :: Whole(e)
    {
    }

    lemma RoundDone(cfg: Settings, data: string, p: nat, s0: Parser, q: nat, marks: Marks, fired: seq<Event>)
      requires errno == OK && Accepted(cfg, s0, data, st, q, fired) && Inv(st) && forall e <- fired :: Whole(e)
      ensures AfterRound(cfg, data, p, s0, Done, q, marks, fired)
    {
      hide Accepted, Inv, Whole;
    }
  }
}
