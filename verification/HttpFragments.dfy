/** Where a byte stream is cut into buffers does not matter. */
module HttpFragments {
  import opened HttpTypes
  import opened HttpStep
  import opened HttpRun
  import opened HttpExecute

  /** One call of http_parser_execute: its buffer, the state it left, what it returned and what it called. */
  datatype Call = Call(data: string, s: Parser, errno: Errno, n: nat, fired: seq<Event>)

  function Bytes(calls: seq<Call>): string {
    if calls == [] then [] else Bytes(calls[..|calls| - 1]) + calls[|calls| - 1].data
  }

  function Fired(calls: seq<Call>): seq<Event> {
    if calls == [] then [] else Fired(calls[..|calls| - 1]) + calls[|calls| - 1].fired
  }

  /** The parser after the calls. */
  function After(s0: Parser, calls: seq<Call>): Parser {
    if calls == [] then s0 else calls[|calls| - 1].s
  }

  /** `calls` are calls made one after the other on a parser in state `s0`: all but the last one read their
      whole buffer without an error and without leaving HTTP. */
  ghost predicate Consecutive(st: Settings, s0: Parser, calls: seq<Call>) {
    forall i :: 0 <= i < |calls| ==>
      var before := After(s0, calls[..i]);
      && calls[i].data != []
      && CallResult(st, before, calls[i].data, calls[i].s, calls[i].errno, calls[i].n, calls[i].fired)
      && (i < |calls| - 1 ==> calls[i].errno == OK && Run(st, Start(before), calls[i].data).out.Going?)
  }

  ghost predicate AllWentOn(st: Settings, s0: Parser, calls: seq<Call>) {
    && Consecutive(st, s0, calls)
    && (calls != [] ==>
          var last := calls[|calls| - 1];
          last.errno == OK && Run(st, Start(After(s0, calls[..|calls| - 1])), last.data).out.Going?)
  }

  /** Calls that all went on leave the reference machine where one run over all the bytes leaves it. */
  lemma {:induction false} CallsRun(st: Settings, s0: Parser, calls: seq<Call>)
    requires AllWentOn(st, s0, calls)
    ensures Run(st, Start(s0), Bytes(calls)) == Machine(After(s0, calls), Canon(Fired(calls)), |Bytes(calls)|, Going)
    decreases |calls|
  {
    if calls == [] {
    } else {
      var init, last := calls[..|calls| - 1], calls[|calls| - 1];
      InitWentOn(st, s0, calls);
      CallsRun(st, s0, init);
      NextCall(st, s0, init, last);
      BytesRead(st, Start(After(s0, init)), last.data);
    }
  }

  lemma InitWentOn(st: Settings, s0: Parser, calls: seq<Call>)
    requires Consecutive(st, s0, calls) && calls != []
    ensures AllWentOn(st, s0, calls[..|calls| - 1])
  {
    hide Run, CallResult;
    var init := calls[..|calls| - 1];
    assert forall i :: 0 <= i < |init| ==> init[..i] == calls[..i] && init[i] == calls[i];
  }

  /** A run over the bytes of earlier calls and one more buffer is the run over that buffer, shifted. */
  lemma NextCall(st: Settings, s0: Parser, init: seq<Call>, last: Call)
    requires Run(st, Start(s0), Bytes(init)) == Machine(After(s0, init), Canon(Fired(init)), |Bytes(init)|, Going)
    ensures var m := Run(st, Start(s0), Bytes(init) + last.data);
            var a := Run(st, Start(After(s0, init)), last.data);
            && m.s == a.s
            && (Canon(last.fired) == a.log ==> m.log == Canon(Fired(init) + last.fired))
            && m.out == (match a.out
                         case Going => Going
                         case Left(at) => Left(|Bytes(init)| + at)
                         case Failed(e, at) => Failed(e, |Bytes(init)| + at))
            && m.n == |Bytes(init)| + a.n
  {
    RunConcat(st, Start(s0), Bytes(init), last.data);
    RunShift(st, After(s0, init), Canon(Fired(init)), |Bytes(init)|, last.data);
    CanonPushAll(Canon(Fired(init)), last.fired);
    CanonPushAll(Fired(init), last.fired);
  }

  lemma {:induction false} BytesRead(st: Settings, m: Machine, data: string)
    ensures var r := Run(st, m, data);
            (m.out.Going? && r.out.Going? ==> r.n == m.n + |data|) && (m.out.Going? && r.out.Left? ==> r.n == r.out.at)
    decreases |data|
  {
    if data == [] {
    } else {
      var last := |data| - 1;
      assert data == data[..last] + [data[last]];
      RunSnoc(st, m, data[..last], data[last]);
      BytesRead(st, m, data[..last]);
    }
  }

  /** Fragmentation independence. However the bytes are cut into buffers, one call over all of them ends in
      the same parser state, has read as many bytes, and makes the same callbacks up to joining the pieces of
      strings cut by buffer ends. If the last call fails, so does the single call, with the same error at the
      same byte, as long as the header section stays within its limit. */
  lemma FragmentationIndependence(st: Settings, s0: Parser, calls: seq<Call>, one: Call)
    requires calls != [] && Consecutive(st, s0, calls)
    requires one.data == Bytes(calls)
    requires CallResult(st, s0, one.data, one.s, one.errno, one.n, one.fired)
    requires !Overflowed(st, s0, one.data)
    ensures var last := calls[|calls| - 1];
            && one.errno == last.errno
            && one.n == |Bytes(calls[..|calls| - 1])| + last.n
            && (one.errno == OK ==> one.s == last.s && Canon(one.fired) == Canon(Fired(calls)))
  {
    var init, last := calls[..|calls| - 1], calls[|calls| - 1];
    InitWentOn(st, s0, calls);
    CallsRun(st, s0, init);
    NextCall(st, s0, init, last);
  }

  /** As long as the reference machine finds no error, calls on any pieces of its input end where it ends, with its
      callbacks. */
  lemma CutsAgree(st: Settings, s0: Parser, calls: seq<Call>)
    requires calls != [] && Consecutive(st, s0, calls) && !Run(st, Start(s0), Bytes(calls)).out.Failed?
    ensures var last, m := calls[|calls| - 1], Run(st, Start(s0), Bytes(calls));
            && last.errno == OK && last.s == m.s && Canon(Fired(calls)) == m.log
            && |Bytes(calls[..|calls| - 1])| + last.n == (if m.out.Left? then m.out.at else |Bytes(calls)|)
  {
    hide Run, Canon;
    var init, last := calls[..|calls| - 1], calls[|calls| - 1];
    InitWentOn(st, s0, calls);
    CallsRun(st, s0, init);
    NextCall(st, s0, init, last);
  }
}
