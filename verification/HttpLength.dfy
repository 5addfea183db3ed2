/** The two 64-bit lengths are read exactly or refused: they neither wrap nor reach the sentinel. */
module HttpLength {
  import opened Basics
  import opened Wrappers
  import opened HttpChars
  import opened HttpTypes
  import opened HttpStep
  import opened HttpRun
  import opened HttpInvariant

  predicate AllNum(ds: string) {
    forall i :: 0 <= i < |ds| ==> IsNum(ds[i])
  }

  function DecValue(ds: string): nat
    requires AllNum(ds)
  {
    if ds == [] then 0 else DecValue(ds[..|ds| - 1]) * 10 + Digit(ds[|ds| - 1])
  }

  /** Every byte is taken for a hexadecimal digit, rightly or not. */
  predicate PassesForHex(ds: string) {
    forall i :: 0 <= i < |ds| ==> Unhex(ds[i]) != -1
  }

  function HexValue(ds: string): nat
    requires PassesForHex(ds)
  {
    if ds == [] then 0 else HexValue(ds[..|ds| - 1]) * 16 + Unhex(ds[|ds| - 1])
  }

  /** The bytes taken for hexadecimal digits are the digits and, wrongly, every byte from 0x80 up, as zeros. */
  lemma WhatPassesForHex(c: char)
    ensures Unhex(c) != -1 <==> IsHex(c) || c as int >= 128
    ensures c as int >= 128 ==> Unhex(c) == 0
    ensures -1 <= Unhex(c) < 16
  {
  }

  /** Digits in front count as many tens as there are digits behind them. */
  lemma {:induction false} DecimalPlaces(a: string, b: string)
    requires AllNum(a) && AllNum(b)
    ensures AllNum(a + b) && DecValue(a + b) == DecValue(a) * Power(10, |b|) + DecValue(b)
    ensures |b| == 1 ==> DecValue(b) == b[0] as int - '0' as int
    decreases |b|
  {
    if b == [] {
      assert a + b == a;
    } else {
      var init := b[..|b| - 1];
      DecimalPlaces(a, init);
      assert (a + b)[..|a + b| - 1] == a + init;
      OnePlace(DecValue(a), Power(10, |init|), DecValue(init), 10, Digit(b[|b| - 1]));
    }
  }

  /** The same for hexadecimal digits and sixteens; the letters of both cases stand for ten to fifteen. */
  lemma {:induction false} HexPlaces(a: string, b: string)
    requires PassesForHex(a) && PassesForHex(b)
    ensures PassesForHex(a + b) && HexValue(a + b) == HexValue(a) * Power(16, |b|) + HexValue(b)
    decreases |b|
  {
    hide Unhex;
    if b == [] {
      assert a + b == a;
    } else {
      var init := b[..|b| - 1];
      HexPlaces(a, init);
      assert (a + b)[..|a + b| - 1] == a + init;
      WhatPassesForHex(b[|b| - 1]);
      OnePlace(HexValue(a), Power(16, |init|), HexValue(init), 16, Unhex(b[|b| - 1]));
    }
  }

  lemma {:induction false} DecValuePrefix(ds: string, i: nat)
    requires i <= |ds| && AllNum(ds)
    ensures DecValue(ds[..i]) <= DecValue(ds)
    decreases |ds|
  {
    if i < |ds| {
      var init := ds[..|ds| - 1];
      DecValuePrefix(init, i);
      assert init[..i] == ds[..i];
    } else {
      assert ds[..i] == ds;
    }
  }

  lemma {:induction false} HexValuePrefix(ds: string, i: nat)
    requires i <= |ds| && PassesForHex(ds)
    ensures HexValue(ds[..i]) <= HexValue(ds)
    decreases |ds|
  {
    if i < |ds| {
      var init := ds[..|ds| - 1];
      HexValuePrefix(init, i);
      assert init[..i] == ds[..i];
    } else {
      assert ds[..i] == ds;
    }
  }

  /** The guards tested before a digit is added are exact. */
  lemma Guards(v: nat, d: nat)
    ensures d < 10 ==> (v <= LENGTH_GUARD <==> v * 10 + d <= MAX_LENGTH)
    ensures d < 16 ==> (v <= CHUNK_GUARD <==> v * 16 + d <= MAX_CHUNK)
    ensures d < 16 ==> d <= MAX_LENGTH && d <= MAX_CHUNK
  {
  }

  // ---- Content-Length ----

  /** The parser inside a Content-Length value, after `n` bytes of the header section and digits of value `v`. */
  function InLength(s: Parser, n: nat, v: nat): Parser {
    s.(state := HeaderValue, index := 0, hs := ContentLengthNum, nread := n,
       flags := s.flags.(contentLength := true), length := v)
  }

  lemma LengthStartByte(st: Settings, s: Parser, ch: char)
    requires s.state.HeaderValueDiscardWs? && s.hs.ContentLength? && !s.flags.contentLength
    requires s.nread < MAX_HEADER_SIZE && IsNum(ch)
    ensures Step(st, s, ch) == Marking(InLength(s, s.nread + 1, Digit(ch)), Value)
  {
  }

  lemma LengthByte(st: Settings, s: Parser, n: nat, v: nat, ch: char)
    requires n < MAX_HEADER_SIZE && IsNum(ch)
    ensures OpenKind(InLength(s, n, v).state) == Some(Value)
    ensures Step(st, InLength(s, n, v), ch) == if LENGTH_GUARD < v then Fail(InvalidContentLength)
                                               else Go(InLength(s, n + 1, v * 10 + Digit(ch)), SILENT)
  {
  }

  lemma PushFirst(e: Event)
    ensures Push([], e) == [e]
  {
  }

  /** A Content-Length of decimal digits is accepted exactly when its value is at most 2^64 - 7, and then the
      parser holds exactly that value, which is not the sentinel. */
  lemma {:induction false} ContentLengthExact(st: Settings, s: Parser, ds: string)
    requires s.state.HeaderValueDiscardWs? && s.hs.ContentLength? && !s.flags.contentLength
    requires ds != [] && AllNum(ds) && s.nread + |ds| <= MAX_HEADER_SIZE
    ensures var m := Run(st, Start(s), ds);
            if DecValue(ds) <= MAX_LENGTH
            then DecValue(ds) < NO_LENGTH
                 && m == Machine(InLength(s, s.nread + |ds|, DecValue(ds)), [Data(Value, ds, false)], |ds|, Going)
            else m.out.Failed? && m.out.errno == InvalidContentLength
    decreases |ds|
  {
    hide *;
    var init, ch, m0 := ds[..|ds| - 1], ds[|ds| - 1], Start(s);
    assert ds == init + [ch];
    GuardBelow();
    StartIs(s);
    DecSnoc(ds);
    Guards(DecValue(init), Digit(ch));
    PushFirst(Data(Value, init, false));
    PushFirst(Data(Value, ds, false));
    if init == [] {
      assert ds == [ch];
      RunNil(st, m0);
      LengthStartByte(st, s, ch);
      RunMark(st, m0, [], ch, InLength(s, s.nread + 1, Digit(ch)), Value);
    } else {
      ContentLengthExact(st, s, init);
      LengthMore(st, s, init, ch);
    }
  }

  /** One digit more. */
  lemma LengthMore(st: Settings, s: Parser, init: string, ch: char)
    requires AllNum(init) && IsNum(ch) && s.nread + |init| < MAX_HEADER_SIZE
    requires var m := Run(st, Start(s), init);
             if DecValue(init) <= MAX_LENGTH
             then m == Machine(InLength(s, s.nread + |init|, DecValue(init)), [Data(Value, init, false)], |init|, Going)
             else m.out.Failed? && m.out.errno == InvalidContentLength
    ensures var m, v := Run(st, Start(s), init + [ch]), DecValue(init) * 10 + Digit(ch);
            if v <= MAX_LENGTH
            then m == Machine(InLength(s, s.nread + |init| + 1, v), [Data(Value, init + [ch], false)], |init| + 1, Going)
            else m.out.Failed? && m.out.errno == InvalidContentLength
  {
    hide *;
    var m0, v := Start(s), DecValue(init);
    var m := Run(st, m0, init);
    DigitRange(ch);
    Guards(v, Digit(ch));
    PushFirst(Data(Value, init, false));
    PushFirst(Data(Value, init + [ch], false));
    if v > MAX_LENGTH {
      RunStopped(st, m, [ch]);
      RunConcat(st, m0, init, [ch]);
      GuardBelow();
    } else {
      LengthByte(st, s, s.nread + |init|, v, ch);
      if LENGTH_GUARD < v {
        RunFail(st, m0, init, ch, InvalidContentLength);
      } else {
        RunData(st, m0, init, ch, InLength(s, s.nread + |init| + 1, v * 10 + Digit(ch)), Value, [], init);
      }
    }
  }

  /** Neither bound reaches the sentinel. */
  lemma GuardBelow()
    ensures LENGTH_GUARD <= MAX_LENGTH < NO_LENGTH && CHUNK_GUARD <= MAX_CHUNK < NO_LENGTH
  {
  }

  lemma DigitRange(ch: char)
    requires IsNum(ch)
    ensures 0 <= Digit(ch) < 10
  {
  }

  lemma StartIs(s: Parser)
    ensures Start(s) == Machine(s, [], 0, Going)
  {
  }

  lemma DecSnoc(ds: string)
    requires ds != [] && AllNum(ds)
    ensures var init, ch := ds[..|ds| - 1], ds[|ds| - 1];
            && AllNum(init) && IsNum(ch) && 0 <= Digit(ch) < 10 && DecValue(ds) == DecValue(init) * 10 + Digit(ch)
            && (init == [] ==> DecValue(init) == 0)
  {
  }

  // ---- chunk size ----

  /** The parser inside a chunk size. */
  function InChunkSize(s: Parser, n: nat, v: nat): Parser {
    s.(state := ChunkSize, nread := n, length := v)
  }

  lemma ChunkStartByte(st: Settings, s: Parser, ch: char)
    requires s.state.ChunkSizeStart? && s.nread == 0 && Unhex(ch) != -1
    ensures Step(st, s, ch) == Go(InChunkSize(s, 1, Unhex(ch)), SILENT)
  {
  }

  lemma ChunkSizeNext(st: Settings, s: Parser, n: nat, v: nat, ch: char)
    requires n < MAX_HEADER_SIZE && Unhex(ch) != -1
    ensures OpenKind(InChunkSize(s, n, v).state) == None
    ensures Step(st, InChunkSize(s, n, v), ch) == if CHUNK_GUARD < v then Fail(InvalidContentLength)
                                                  else Go(InChunkSize(s, n + 1, v * 16 + Unhex(ch)), SILENT)
  {
  }

  /** A chunk size is accepted exactly when its value is at most 2^64 - 17, and then held exactly; it is
      not the sentinel. */
  lemma {:induction false} ChunkSizeExact(st: Settings, s: Parser, ds: string)
    requires s.state.ChunkSizeStart? && s.nread == 0 && ds != [] && PassesForHex(ds) && |ds| <= MAX_HEADER_SIZE
    ensures var m := Run(st, Start(s), ds);
            if HexValue(ds) <= MAX_CHUNK
            then HexValue(ds) < NO_LENGTH && m == Machine(InChunkSize(s, |ds|, HexValue(ds)), [], |ds|, Going)
            else m.out.Failed? && m.out.errno == InvalidContentLength
    decreases |ds|
  {
    hide *;
    var init, ch, m0 := ds[..|ds| - 1], ds[|ds| - 1], Start(s);
    assert ds == init + [ch];
    GuardBelow();
    StartIs(s);
    HexSnoc(ds);
    Guards(HexValue(init), Unhex(ch));
    if init == [] {
      assert ds == [ch];
      RunNil(st, m0);
      ChunkStartByte(st, s, ch);
      SizeStartKind(s);
      RunSilent(st, m0, [], ch, InChunkSize(s, 1, Unhex(ch)));
    } else {
      ChunkSizeExact(st, s, init);
      SizeMore(st, s, init, ch);
    }
  }

  lemma SizeStartKind(s: Parser)
    requires s.state.ChunkSizeStart?
    ensures OpenKind(s.state) == None
  {
  }

  lemma HexSnoc(ds: string)
    requires ds != [] && PassesForHex(ds)
    ensures var init, ch := ds[..|ds| - 1], ds[|ds| - 1];
            && PassesForHex(init) && 0 <= Unhex(ch) < 16 && HexValue(ds) == HexValue(init) * 16 + Unhex(ch)
            && (init == [] ==> HexValue(init) == 0)
  {
    WhatPassesForHex(ds[|ds| - 1]);
    hide Unhex;
  }

  /** One hexadecimal digit more. */
  lemma SizeMore(st: Settings, s: Parser, init: string, ch: char)
    requires PassesForHex(init) && 0 <= Unhex(ch) < 16 && |init| < MAX_HEADER_SIZE
    requires var m := Run(st, Start(s), init);
             if HexValue(init) <= MAX_CHUNK then m == Machine(InChunkSize(s, |init|, HexValue(init)), [], |init|, Going)
             else m.out.Failed? && m.out.errno == InvalidContentLength
    ensures var m, v := Run(st, Start(s), init + [ch]), HexValue(init) * 16 + Unhex(ch);
            if v <= MAX_CHUNK then m == Machine(InChunkSize(s, |init| + 1, v), [], |init| + 1, Going)
            else m.out.Failed? && m.out.errno == InvalidContentLength
  {
    hide *;
    var m0, v := Start(s), HexValue(init);
    var m := Run(st, m0, init);
    Guards(v, Unhex(ch));
    GuardBelow();
    if v > MAX_CHUNK {
      RunStopped(st, m, [ch]);
      RunConcat(st, m0, init, [ch]);
    } else {
      ChunkSizeNext(st, s, |init|, v, ch);
      if CHUNK_GUARD < v {
        RunFail(st, m0, init, ch, InvalidContentLength);
      } else {
        RunSilent(st, m0, init, ch, InChunkSize(s, |init| + 1, v * 16 + Unhex(ch)));
      }
    }
  }

  /** A byte that is no digit: only the end of the size, an extension or an error can follow. */
  lemma ChunkSizeRefuses(st: Settings, s: Parser, ch: char)
    requires (s.state.ChunkSizeStart? || s.state.ChunkSize?) && s.nread < MAX_HEADER_SIZE && Unhex(ch) == -1
    ensures Step(st, s, ch) == Fail(InvalidChunkSize)
            <==> s.state.ChunkSizeStart? || !(ch == CR || ch == ';' || ch == ' ')
  {
  }
}
