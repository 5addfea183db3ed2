/** Runs of the reference machine and the normal form of its callbacks. */
module HttpRun {
  import opened Wrappers
  import opened HttpTypes
  import opened HttpStep

  /** The string a buffer that starts in this state continues: the marks preset on entry. */
  function OpenKind(s: State): Option<Kind> {
    match s
    case HeaderField => Some(Field)
    case HeaderValue => Some(Value)
    case ResStatus => Some(Status)
    case ReqPath => Some(Url) case ReqSchema => Some(Url) case ReqSchemaSlash => Some(Url)
    case ReqSchemaSlashSlash => Some(Url) case ReqServerStart => Some(Url) case ReqServer => Some(Url)
    case ReqServerWithAt => Some(Url) case ReqQueryStringStart => Some(Url) case ReqQueryString => Some(Url)
    case ReqFragmentStart => Some(Url) case ReqFragment => Some(Url)
    case _ => None
  }

  lemma UrlCharKind(s: State, ch: char)
    ensures UrlChar(s, ch) == Dead || OpenKind(UrlChar(s, ch)) == Some(Url)
  {
  }

  /** A data callback as the parser makes it. */
  function DataEvent(k: Kind, bytes: string, final: bool): Event {
    Data(k, bytes, final && k != Body)
  }

  // ---- the normal form: pieces of one string are joined ----

  /** Appends an event, joining it to the last one when that is an unfinished piece of the same string. */
  function Push(log: seq<Event>, e: Event): seq<Event> {
    if |log| > 0 && e.Data? && log[|log| - 1].Data? && !log[|log| - 1].final && log[|log| - 1].kind == e.kind
    then log[..|log| - 1] + [Data(e.kind, log[|log| - 1].bytes + e.bytes, e.final)]
    else log + [e]
  }

  function PushAll(log: seq<Event>, es: seq<Event>): seq<Event>
    decreases |es|
  {
    if es == [] then log else PushAll(Push(log, es[0]), es[1..])
  }

  /** The callbacks with the pieces of each string joined: what does not depend on buffer boundaries. */
  function Canon(es: seq<Event>): seq<Event> {
    PushAll([], es)
  }

  lemma {:induction false} PushAllConcat(log: seq<Event>, a: seq<Event>, b: seq<Event>)
    ensures PushAll(log, a + b) == PushAll(PushAll(log, a), b)
    decreases |a|
  {
    if a == [] {
      assert a + b == b;
    } else {
      assert (a + b)[0] == a[0] && (a + b)[1..] == a[1..] + b;
      PushAllConcat(Push(log, a[0]), a[1..], b);
    }
  }

  lemma PushAllOne(log: seq<Event>, e: Event)
    ensures PushAll(log, [e]) == Push(log, e)
  {
    assert PushAll(Push(log, e), [e][1..]) == Push(log, e);
  }

  lemma PushAllSnoc(log: seq<Event>, es: seq<Event>, e: Event)
    ensures PushAll(log, es + [e]) == Push(PushAll(log, es), e)
  {
    PushAllConcat(log, es, [e]);
    PushAllOne(PushAll(log, es), e);
  }

  /** Two pieces of a string pushed one after the other are one piece. */
  lemma PushJoin(log: seq<Event>, k: Kind, x: string, y: string, final: bool)
    ensures Push(Push(log, Data(k, x, false)), Data(k, y, final)) == Push(log, Data(k, x + y, final))
  {
    var one := Push(log, Data(k, x, false));
    if one == log + [Data(k, x, false)] {
      assert one[..|one| - 1] == log;
    } else {
      var z := log[|log| - 1].bytes;
      assert z + x + y == z + (x + y);
      assert one[..|one| - 1] == log[..|log| - 1];
    }
  }

  /** Nothing joins an event that is not an unfinished piece. */
  lemma {:induction false} PushAllBehind(log: seq<Event>, es: seq<Event>)
    requires log == [] || !log[|log| - 1].Data? || log[|log| - 1].final
    ensures PushAll(log, es) == log + Canon(es)
    decreases |es|
  {
    if es == [] {
      assert log + [] == log;
    } else {
      PushAllSplit(log, [es[0]], es[1..]);
      assert Push([], es[0]) == [es[0]];
      assert Push(log, es[0]) == log + [es[0]];
    }
  }

  lemma {:induction false} PushAllSplit(log: seq<Event>, tail: seq<Event>, es: seq<Event>)
    requires tail != []
    ensures PushAll(log + tail, es) == log + PushAll(tail, es)
    decreases |es|
  {
    if es == [] {
    } else {
      assert (log + tail)[|log + tail| - 1] == tail[|tail| - 1];
      assert (log + tail)[..|log + tail| - 1] == log + tail[..|tail| - 1];
      assert Push(log + tail, es[0]) == log + Push(tail, es[0]);
      PushAllSplit(log, Push(tail, es[0]), es[1..]);
    }
  }

  // ---- runs ----

  /** The data callback that ends a string at this byte; its earlier bytes have been reported one by one. */
  function CloseEvents(open: Option<Kind>, close: Option<Close>, ch: char): seq<Event> {
    match close
    case None => []
    case Some(c) =>
      if c.through then [DataEvent(c.kind, [ch], true)]
      else if c.markFirst || open == Some(c.kind) then [DataEvent(c.kind, [], true)]
      else []
  }

  /** The byte itself, when it starts a string or goes on with one. */
  function ByteEvents(open: Option<Kind>, calls: Calls, ch: char): seq<Event> {
    match calls.mark
    case Some(k) => [DataEvent(k, [ch], false)]
    case None => if calls.close.None? && open.Some? then [DataEvent(open.value, [ch], false)] else []
  }

  /** The callbacks of one byte in the reference machine: each data byte is its own piece. */
  function EventsOf(open: Option<Kind>, calls: Calls, ch: char): seq<Event> {
    CloseEvents(open, calls.close, ch) + calls.notes + ByteEvents(open, calls, ch)
  }

  /** How a run ended, with the number of bytes http_parser_execute reports. */
  datatype Outcome = Going | Left(at: nat) | Failed(errno: Errno, at: nat)

  /** The machine after `n` bytes, with the normal form of the callbacks so far. */
  datatype Machine = Machine(s: Parser, log: seq<Event>, n: nat, out: Outcome)

  function Start(s: Parser): Machine {
    Machine(s, [], 0, Going)
  }

  function Next(st: Settings, m: Machine, ch: char): Machine {
    if !m.out.Going? then m
    else match Step(st, m.s, ch)
      case Fail(e) => m.(out := Failed(e, m.n))
      case Go(s, calls) => Machine(s, PushAll(m.log, EventsOf(OpenKind(m.s.state), calls, ch)), m.n + 1, Going)
      case Leave(s, calls) => Machine(s, PushAll(m.log, EventsOf(OpenKind(m.s.state), calls, ch)), m.n + 1, Left(m.n + 1))
  }

  function Run(st: Settings, m: Machine, data: string): Machine
    decreases |data|
  {
    if data == [] then m else Run(st, Next(st, m, data[0]), data[1..])
  }

  lemma {:induction false} RunConcat(st: Settings, m: Machine, a: string, b: string)
    ensures Run(st, m, a + b) == Run(st, Run(st, m, a), b)
    decreases |a|
  {
    if a == [] {
      assert a + b == b;
    } else {
      assert (a + b)[0] == a[0] && (a + b)[1..] == a[1..] + b;
      RunConcat(st, Next(st, m, a[0]), a[1..], b);
    }
  }

  lemma RunOne(st: Settings, m: Machine, ch: char)
    ensures Run(st, m, [ch]) == Next(st, m, ch)
  {
    assert Run(st, Next(st, m, ch), [ch][1..]) == Next(st, m, ch);
  }

  lemma RunSnoc(st: Settings, m: Machine, a: string, ch: char)
    ensures Run(st, m, a + [ch]) == Next(st, Run(st, m, a), ch)
  {
    RunConcat(st, m, a, [ch]);
    RunOne(st, Run(st, m, a), ch);
  }

  /** A byte the machine goes on from. */
  lemma RunGo(st: Settings, m: Machine, a: string, ch: char, s: Parser, calls: Calls)
    requires Run(st, m, a).out.Going? && Step(st, Run(st, m, a).s, ch) == Go(s, calls)
    ensures var r := Run(st, m, a);
            Run(st, m, a + [ch]) == Machine(s, PushAll(r.log, EventsOf(OpenKind(r.s.state), calls, ch)), r.n + 1, Going)
  {
    hide Step;
    RunSnoc(st, m, a, ch);
  }

  /** A byte the machine goes on from without a callback, outside any string. */
  lemma RunSilent(st: Settings, m: Machine, a: string, ch: char, s: Parser)
    requires Run(st, m, a).out.Going? && Step(st, Run(st, m, a).s, ch) == Go(s, SILENT)
    requires OpenKind(Run(st, m, a).s.state) == None
    ensures var r := Run(st, m, a); Run(st, m, a + [ch]) == Machine(s, r.log, r.n + 1, Going)
  {
    hide Step, Run;
    RunGo(st, m, a, ch, s, SILENT);
    assert EventsOf(None, SILENT, ch) == [];
  }

  /** A byte of a string that was started before. */
  lemma RunData(st: Settings, m: Machine, a: string, ch: char, s: Parser, k: Kind, log: seq<Event>, x: string)
    requires Run(st, m, a).out.Going? && Step(st, Run(st, m, a).s, ch) == Go(s, SILENT)
    requires OpenKind(Run(st, m, a).s.state) == Some(k)
    requires Run(st, m, a).log == Push(log, Data(k, x, false))
    ensures Run(st, m, a + [ch]) == Machine(s, Push(log, Data(k, x + [ch], false)), Run(st, m, a).n + 1, Going)
  {
    hide Step, Run, Push;
    RunGo(st, m, a, ch, s, SILENT);
    assert EventsOf(Some(k), SILENT, ch) == [Data(k, [ch], false)];
    PushAllOne(Run(st, m, a).log, Data(k, [ch], false));
    PushJoin(log, k, x, [ch], false);
  }

  /** The byte that sets the mark of a string. */
  lemma RunMark(st: Settings, m: Machine, a: string, ch: char, s: Parser, k: Kind)
    requires Run(st, m, a).out.Going? && Step(st, Run(st, m, a).s, ch) == Marking(s, k)
    ensures Run(st, m, a + [ch])
         == Machine(s, Push(Run(st, m, a).log, Data(k, [ch], false)), Run(st, m, a).n + 1, Going)
  {
    hide Step, Run, Push;
    RunGo(st, m, a, ch, s, Calls(None, [], Some(k)));
    assert EventsOf(OpenKind(Run(st, m, a).s.state), Calls(None, [], Some(k)), ch) == [Data(k, [ch], false)];
    PushAllOne(Run(st, m, a).log, Data(k, [ch], false));
  }

  /** The byte behind a string, which reports it. */
  lemma RunClose(st: Settings, m: Machine, a: string, ch: char, s: Parser, k: Kind, next: State, log: seq<Event>, x: string)
    requires Run(st, m, a).out.Going? && Step(st, Run(st, m, a).s, ch) == Closing(s, k, next)
    requires OpenKind(Run(st, m, a).s.state) == Some(k) && k != Body
    requires Run(st, m, a).log == Push(log, Data(k, x, false))
    ensures Run(st, m, a + [ch]) == Machine(s.(state := next), Push(log, Data(k, x, true)), Run(st, m, a).n + 1, Going)
  {
    hide Step, Run, Push;
    var calls := Calls(Some(Close(k, false, false)), [], None);
    RunGo(st, m, a, ch, s.(state := next), calls);
    assert EventsOf(Some(k), calls, ch) == [Data(k, [], true)];
    PushAllOne(Run(st, m, a).log, Data(k, [], true));
    PushJoin(log, k, x, [], true);
    assert x + [] == x;
  }

  /** A byte that only makes a notification. */
  lemma RunNote(st: Settings, m: Machine, a: string, ch: char, s: Parser, e: Event)
    requires Run(st, m, a).out.Going? && Step(st, Run(st, m, a).s, ch) == Noting(s, e) && !e.Data?
    requires OpenKind(Run(st, m, a).s.state) == None
    ensures Run(st, m, a + [ch]) == Machine(s, Run(st, m, a).log + [e], Run(st, m, a).n + 1, Going)
  {
    hide Step, Run;
    RunGo(st, m, a, ch, s, Calls(None, [e], None));
    assert EventsOf(None, Calls(None, [e], None), ch) == [e];
    PushAllOne(Run(st, m, a).log, e);
  }

  lemma RunFail(st: Settings, m: Machine, a: string, ch: char, e: Errno)
    requires Run(st, m, a).out.Going? && Step(st, Run(st, m, a).s, ch) == Fail(e)
    ensures Run(st, m, a + [ch]).out == Failed(e, Run(st, m, a).n)
  {
    hide Step;
    RunSnoc(st, m, a, ch);
  }

  lemma NextIs(st: Settings, m: Machine, ch: char)
    requires m.out.Going? && !Step(st, m.s, ch).Fail?
    ensures var a := Step(st, m.s, ch);
            Next(st, m, ch) == Machine(a.s, PushAll(m.log, EventsOf(OpenKind(m.s.state), a.calls, ch)), m.n + 1,
                                       if a.Go? then Going else Left(m.n + 1))
  {
    hide Step;
  }

  lemma NextFails(st: Settings, m: Machine, ch: char)
    requires m.out.Going? && Step(st, m.s, ch).Fail?
    ensures Next(st, m, ch) == m.(out := Failed(Step(st, m.s, ch).errno, m.n))
  {
    hide Step;
  }

  lemma RunNil(st: Settings, m: Machine)
    ensures Run(st, m, []) == m
  {
  }

  /** One more byte of `data`. */
  lemma RunTo(st: Settings, m: Machine, data: string, p: nat)
    requires p < |data|
    ensures Run(st, m, data[..p + 1]) == Next(st, Run(st, m, data[..p]), data[p])
  {
    assert data[..p + 1] == data[..p] + [data[p]];
    RunSnoc(st, m, data[..p], data[p]);
  }

  lemma {:induction false} RunStopped(st: Settings, m: Machine, data: string)
    requires !m.out.Going?
    ensures Run(st, m, data) == m
    decreases |data|
  {
    if data == [] {
    } else {
      RunStopped(st, m, data[1..]);
    }
  }

  /** A run that has stopped after `p` bytes has stopped for good. */
  lemma RunStoppedAt(st: Settings, m: Machine, data: string, p: nat)
    requires p <= |data| && !Run(st, m, data[..p]).out.Going?
    ensures Run(st, m, data) == Run(st, m, data[..p])
  {
    assert data == data[..p] + data[p..];
    RunConcat(st, m, data[..p], data[p..]);
    RunStopped(st, Run(st, m, data[..p]), data[p..]);
  }

  /** The run does not look at the log or the count: both only grow. */
  lemma {:induction false} RunShift(st: Settings, s: Parser, log: seq<Event>, n: nat, data: string)
    ensures var a := Run(st, Start(s), data);
            var b := Run(st, Machine(s, log, n, Going), data);
            && b.s == a.s && b.n == n + a.n && b.log == PushAll(log, a.log)
            && b.out == (match a.out case Going => Going case Left(at) => Left(n + at) case Failed(e, at) => Failed(e, n + at))
    decreases |data|
  {
    if data == [] {
    } else {
      var last := |data| - 1;
      assert data == data[..last] + [data[last]];
      RunShift(st, s, log, n, data[..last]);
      RunSnoc(st, Start(s), data[..last], data[last]);
      RunSnoc(st, Machine(s, log, n, Going), data[..last], data[last]);
      var a := Run(st, Start(s), data[..last]);
      if a.out.Going? {
        match Step(st, a.s, data[last]) {
          case Fail(e) =>
          case Go(s', calls) => PushAllPushAll(log, a.log, EventsOf(OpenKind(a.s.state), calls, data[last]));
          case Leave(s', calls) => PushAllPushAll(log, a.log, EventsOf(OpenKind(a.s.state), calls, data[last]));
        }
      }
    }
  }

  /** Normalising first and pushing then is pushing. */
  lemma {:induction false} PushAllPushAll(log: seq<Event>, a: seq<Event>, b: seq<Event>)
    ensures PushAll(log, PushAll(a, b)) == PushAll(PushAll(log, a), b)
    decreases |b|
  {
    if b == [] {
    } else {
      PushAllPush(log, a, b[0]);
      PushAllPushAll(log, Push(a, b[0]), b[1..]);
    }
  }

  lemma PushAllPush(log: seq<Event>, a: seq<Event>, e: Event)
    ensures PushAll(log, Push(a, e)) == Push(PushAll(log, a), e)
  {
    if Push(a, e) == a + [e] {
      PushAllSnoc(log, a, e);
    } else {
      var front, last := a[..|a| - 1], a[|a| - 1];
      assert a == front + [last];
      PushAllSnoc(log, front, last);
      PushAllSnoc(log, front, Data(e.kind, last.bytes + e.bytes, e.final));
      PushJoin(PushAll(log, front), e.kind, last.bytes, e.bytes, e.final);
    }
  }

  lemma CanonPushAll(a: seq<Event>, b: seq<Event>)
    ensures PushAll(Canon(a), b) == Canon(a + b)
    ensures PushAll(a, Canon(b)) == PushAll(a, b)
  {
    PushAllConcat([], a, b);
    PushAllPushAll(a, [], b);
  }

  // ---- where a message ends ----

  /** The last byte of the text is the one that completes a message. */
  predicate CompletesAt(st: Settings, m: Machine, text: string) {
    text != [] &&
    var before := Run(st, m, text[..|text| - 1]);
    && before.out.Going?
    && var a := Step(st, before.s, text[|text| - 1]);
       !a.Fail? && MessageComplete in a.calls.notes
  }

  lemma CompletesLater(st: Settings, m: Machine, a: string, b: string)
    requires CompletesAt(st, Run(st, m, a), b)
    ensures CompletesAt(st, m, a + b)
  {
    hide Step, Run;
    var init := b[..|b| - 1];
    assert (a + b)[..|a + b| - 1] == a + init;
    RunConcat(st, m, a, init);
  }

  lemma CompletesIs(st: Settings, m: Machine, text: string)
    requires text != [] && Run(st, m, text[..|text| - 1]).out.Going?
    requires var a := Step(st, Run(st, m, text[..|text| - 1]).s, text[|text| - 1]);
             !a.Fail? && (a.calls.notes == [] + [MessageComplete] || a.calls.notes == [ChunkComplete] + [MessageComplete])
    ensures CompletesAt(st, m, text)
  {
    hide Step, Run;
  }
}
