/** Chunked transfer coding (section 4.1 of RFC 7230): decoding inverts encoding. */
module HttpChunked {
  import opened Wrappers
  import opened CaseMap
  import opened HttpChars
  import opened HttpTypes
  import opened HttpStep
  import opened HttpRun
  import opened HttpFragments
  import opened HttpInvariant
  import opened HttpLength
  import opened HttpNames
  import opened HttpHeaderLines

  /** A chunk as written: its size in hexadecimal, an extension or nothing, its bytes. */
  datatype Chunk = Chunk(digits: string, ext: string, data: string)

  predicate ExtOk(ext: string) {
    ext == [] || ((ext[0] == ';' || ext[0] == ' ') && forall i :: 0 <= i < |ext| ==> ext[i] != CR)
  }

  /** A size line that can be read: bytes that pass for hexadecimal digits, and an extension, within the
      header limit. */
  predicate SizeLineOk(digits: string, ext: string) {
    digits != [] && PassesForHex(digits) && ExtOk(ext) && |digits| + |ext| + 2 <= MAX_HEADER_SIZE
  }

  predicate ChunkOk(c: Chunk) {
    && SizeLineOk(c.digits, c.ext)
    && HexValue(c.digits) == |c.data| && 0 < |c.data| <= MAX_CHUNK
  }

  function SizeLine(digits: string, ext: string): string {
    digits + ext + [CR, LF]
  }

  function EncodeChunk(c: Chunk): string {
    SizeLine(c.digits, c.ext) + (c.data + [CR, LF])
  }

  /** What comes behind the last chunk: a size of zero with its extension, and header lines as a trailer. */
  datatype LastChunk = LastChunk(zero: string, ext: string, trailer: seq<Entry>)

  predicate LastOk(z: LastChunk) {
    && SizeLineOk(z.zero, z.ext) && HexValue(z.zero) == 0
    && (forall i :: 0 <= i < |z.trailer| ==> LineOk(z.trailer[i])) && |Lines(z.trailer)| + 2 <= MAX_HEADER_SIZE
  }

  /** The chunks, then a chunk of size zero, then the trailer and the empty line. */
  function Encode(chunks: seq<Chunk>, z: LastChunk): string {
    if chunks == [] then SizeLine(z.zero, z.ext) + (Lines(z.trailer) + [CR, LF])
    else EncodeChunk(chunks[0]) + Encode(chunks[1..], z)
  }

  /** The callbacks of a chunked body. */
  function Delivered(chunks: seq<Chunk>, trailer: seq<Entry>): seq<Event> {
    if chunks == [] then [ChunkHeader(0)] + (LinesEvents(trailer) + [ChunkComplete, MessageComplete])
    else [ChunkHeader(|chunks[0].data|), Data(Body, chunks[0].data, false), ChunkComplete] + Delivered(chunks[1..], trailer)
  }

  /** The body the callbacks hand over. */
  function BodyOf(events: seq<Event>): string {
    if events == [] then []
    else (if events[0].Data? && events[0].kind == Body then events[0].bytes else []) + BodyOf(events[1..])
  }

  function Payload(chunks: seq<Chunk>): string {
    if chunks == [] then [] else chunks[0].data + Payload(chunks[1..])
  }

  // ---- sizes ----

  /** A number in hexadecimal, with letters of either case. */
  function Hex(n: nat, upper: bool): (text: string)
    ensures text != []
  {
    var digits := if upper then "0123456789ABCDEF" else "0123456789abcdef";
    if n < 16 then [digits[n]] else Hex(n / 16, upper) + [digits[n % 16]]
  }

  /** Sizes printed in hexadecimal are read as what they are. */
  lemma {:induction false} HexRead(n: nat, upper: bool)
    ensures PassesForHex(Hex(n, upper)) && HexValue(Hex(n, upper)) == n
  {
    hide Unhex;
    HexDigits(n % 16);
    var text, last := Hex(n, upper), |Hex(n, upper)| - 1;
    if n < 16 {
      assert text[..last] == [];
    } else {
      HexRead(n / 16, upper);
      assert text[..last] == Hex(n / 16, upper);
    }
  }

  // ---- one byte at a time, on named states ----

  function InExt(s: Parser, n: nat, v: nat): Parser {
    s.(state := ChunkParameters, nread := n, length := v)
  }

  function AtSizeEnd(s: Parser, n: nat, v: nat): Parser {
    s.(state := ChunkSizeAlmostDone, nread := n, length := v)
  }

  /** Inside the data of a chunk with `v` bytes to come. */
  function InData(s: Parser, v: nat): Parser {
    s.(state := if v == 0 then ChunkDataAlmostDone else ChunkData, nread := 0, length := v)
  }

  function AtDataEnd(s: Parser): Parser {
    s.(state := ChunkDataDone, nread := 0, length := 0)
  }

  function NextChunk(s: Parser): Parser {
    s.(state := ChunkSizeStart, nread := 0, length := 0)
  }

  /** Where a trailer can start. */
  function AtTrailer(s: Parser): Parser {
    s.(state := HeaderFieldStart, nread := 0, length := 0, flags := s.flags.(trailing := true))
  }

  /** At the last byte of the body; the matcher's own fields, as in `t`, no longer matter. */
  function AtBodyEnd(s: Parser, trailer: seq<Entry>, t: Parser): Parser {
    var u := AtTrailer(s);
    BehindLine(u, |Lines(trailer)|, AfterLines(trailer, u.flags), t).(state := HeadersAlmostDone, nread := |Lines(trailer)| + 2)
  }

  /** Behind the whole body. */
  function AfterBody(s: Parser, trailer: seq<Entry>, t: Parser): Parser {
    var u := AtBodyEnd(s, trailer, t);
    u.(state := NewMessage(u))
  }

  lemma ExtStart(st: Settings, s: Parser, n: nat, v: nat, ch: char)
    requires n < MAX_HEADER_SIZE && (ch == ';' || ch == ' ')
    ensures Step(st, InChunkSize(s, n, v), ch) == Go(InExt(s, n + 1, v), SILENT) && OpenKind(InChunkSize(s, n, v).state) == None
  {
  }

  lemma ExtNext(st: Settings, s: Parser, n: nat, v: nat, ch: char)
    requires n < MAX_HEADER_SIZE && ch != CR
    ensures Step(st, InExt(s, n, v), ch) == Go(InExt(s, n + 1, v), SILENT) && OpenKind(InExt(s, n, v).state) == None
  {
  }

  lemma SizeCr(st: Settings, s: Parser, n: nat, v: nat)
    requires n < MAX_HEADER_SIZE
    ensures Step(st, InChunkSize(s, n, v), CR) == Go(AtSizeEnd(s, n + 1, v), SILENT) && OpenKind(InChunkSize(s, n, v).state) == None
  {
  }

  lemma ExtCr(st: Settings, s: Parser, n: nat, v: nat)
    requires n < MAX_HEADER_SIZE
    ensures Step(st, InExt(s, n, v), CR) == Go(AtSizeEnd(s, n + 1, v), SILENT) && OpenKind(InExt(s, n, v).state) == None
  {
  }

  lemma SizeLf(st: Settings, s: Parser, n: nat, v: nat)
    requires n < MAX_HEADER_SIZE
    ensures Step(st, AtSizeEnd(s, n, v), LF) == Noting(if v == 0 then AtTrailer(s) else InData(s, v), ChunkHeader(v))
    ensures OpenKind(AtSizeEnd(s, n, v).state) == None
  {
  }

  lemma DataByte(st: Settings, s: Parser, v: nat, ch: char)
    requires v > 0
    ensures Step(st, InData(s, v), ch) == Marking(InData(s, v - 1), Body)
  {
  }

  lemma DataCr(st: Settings, s: Parser)
    ensures Step(st, InData(s, 0), CR) == Closing(InData(s, 0), Body, ChunkDataDone)
    ensures InData(s, 0).(state := ChunkDataDone) == AtDataEnd(s) && OpenKind(InData(s, 0).state) == None
  {
  }

  lemma DataLf(st: Settings, s: Parser)
    ensures Step(st, AtDataEnd(s), LF) == Noting(NextChunk(s), ChunkComplete) && OpenKind(AtDataEnd(s).state) == None
  {
  }

  /** The line feed behind a trailer. */
  lemma TrailerLf(st: Settings, u: Parser, n: nat)
    requires u.flags.trailing && n < MAX_HEADER_SIZE
    ensures OpenKind(AtHeadersEnd(u, n).state) == None
    ensures Step(st, AtHeadersEnd(u, n), LF)
         == var t, calls := AtHeadersEnd(u, n + 1), Calls(None, [ChunkComplete] + [MessageComplete], None);
            if u.upgrade then Leave(t.(state := NewMessage(t)), calls) else Go(t.(state := NewMessage(t)), calls)
  {
  }

  lemma AtTrailerHas(s: Parser)
    ensures var u := AtTrailer(s);
            u.state.HeaderFieldStart? && u.nread == 0 && u.length == 0 && u.flags == s.flags.(trailing := true) && u.upgrade == s.upgrade
  {
  }

  /** The trailer and the empty line, or the empty line alone. */
  lemma TrailerRun(st: Settings, m: Machine, s: Parser, trailer: seq<Entry>)
    requires m.out.Going? && m.s == AtTrailer(s) && ClosedLog(m.log)
    requires (forall i :: 0 <= i < |trailer| ==> LineOk(trailer[i])) && |Lines(trailer)| + 2 <= MAX_HEADER_SIZE
    ensures var text := Lines(trailer) + [CR, LF];
            var n, r := m.n + |text|, Run(st, m, text);
            && r == Machine(AfterBody(s, trailer, r.s), m.log + (LinesEvents(trailer) + [ChunkComplete, MessageComplete]), n,
                            if s.upgrade then Left(n) else Going)
            && CompletesAt(st, m, text)
  {
    hide *;
    AtTrailerHas(s);
    LinesRead(st, m, m.s, trailer);
    var m1 := Run(st, m, Lines(trailer));
    var u := Settled(m1).s;
    KeepsTrailing(trailer, m.s.flags);
    BehindLineHas(m.s, |Lines(trailer)|, AfterLines(trailer, m.s.flags), m1.s);
    BehindLineUpgrade(m.s, |Lines(trailer)|, AfterLines(trailer, m.s.flags), m1.s);
    CrRead(st, m1, u);
    TrailerLf(st, u, u.nread + 1);
    RunSnoc(st, m1, [CR], LF);
    NextIs(st, Run(st, m1, [CR]), LF);
    LastNotes();
    BothNoted(Settled(m1).log, ChunkComplete, MessageComplete, LF);
    assert [CR] + [LF] == [CR, LF] && [CR, LF][..1] == [CR];
    CompletesIs(st, m1, [CR, LF]);
    RunConcat(st, m, Lines(trailer), [CR, LF]);
    CompletesLater(st, m, Lines(trailer), [CR, LF]);
    assert m.log + LinesEvents(trailer) + [ChunkComplete, MessageComplete]
        == m.log + (LinesEvents(trailer) + [ChunkComplete, MessageComplete]);
    BodyEnds(s, trailer, m1.s, Run(st, m1, [CR, LF]).s);
  }

  lemma LastNotes()
    ensures !ChunkComplete.Data? && !MessageComplete.Data?
  {
  }

  lemma BehindLineUpgrade(s: Parser, n: nat, flags: Flags, t: Parser)
    ensures BehindLine(s, n, flags, t).upgrade == s.upgrade
  {
  }

  lemma {:induction false} KeepsTrailing(trailer: seq<Entry>, flags: Flags)
    requires flags.trailing && forall i :: 0 <= i < |trailer| ==> LineOk(trailer[i])
    ensures AfterLines(trailer, flags).trailing
  {
    hide *;
    OthersThan(trailer);
    AfterLinesFlags(trailer, flags);
  }

  lemma OthersThan(hs: seq<Entry>)
    requires forall i :: 0 <= i < |hs| ==> LineOk(hs[i])
    ensures forall i :: 0 <= i < |hs| ==> Tokens(hs[i].key) != CONTENT_LENGTH
  {
    hide IsName, IsPlainValue, Tokens, CONTENT_LENGTH;
  }

  lemma BodyEnds(s: Parser, trailer: seq<Entry>, t: Parser, r: Parser)
    requires var a := AtTrailer(s);
             var u := BehindLine(a, a.nread + |Lines(trailer)|, AfterLines(trailer, a.flags), t);
             var e := AtHeadersEnd(u, u.nread + 2);
             r == e.(state := NewMessage(e))
    ensures r == AfterBody(s, trailer, r)
  {
    hide AfterLines, NewMessage, Lines;
  }

  // ---- runs ----

  lemma {:induction false} ExtRun(st: Settings, m: Machine, s: Parser, n: nat, v: nat, ext: string)
    requires m.out.Going? && m.s == InChunkSize(s, n, v) && ExtOk(ext) && n + |ext| <= MAX_HEADER_SIZE
    ensures Run(st, m, ext) == if ext == [] then m else m.(s := InExt(s, n + |ext|, v), n := m.n + |ext|)
    decreases |ext|
  {
    hide Step, Run, InChunkSize, InExt;
    if ext == [] {
      RunNil(st, m);
    } else {
      var init, ch := ext[..|ext| - 1], ext[|ext| - 1];
      assert ext == init + [ch];
      ExtRun(st, m, s, n, v, init);
      if init == [] {
        ExtStart(st, s, n, v, ch);
        RunSilent(st, m, init, ch, InExt(s, n + 1, v));
      } else {
        ExtNext(st, s, n + |init|, v, ch);
        RunSilent(st, m, init, ch, InExt(s, n + |ext|, v));
      }
    }
  }

  /** A size line is read as its value and reported once. */
  lemma SizeLineRun(st: Settings, m: Machine, s: Parser, digits: string, ext: string)
    requires m.out.Going? && m.s == s && s.state.ChunkSizeStart? && s.nread == 0
    requires SizeLineOk(digits, ext) && HexValue(digits) <= MAX_CHUNK
    ensures var v := HexValue(digits);
            Run(st, m, SizeLine(digits, ext))
            == Machine(if v == 0 then AtTrailer(s) else InData(s, v), m.log + [ChunkHeader(v)], m.n + |SizeLine(digits, ext)|, Going)
  {
    hide Step, Run, InChunkSize, InExt, AtSizeEnd, AtTrailer, InData, PassesForHex, HexValue, ExtOk;
    var v, d := HexValue(digits), |digits|;
    ChunkSizeExact(st, s, digits);
    RunShift(st, s, m.log, m.n, digits);
    var m1 := Run(st, m, digits);
    assert PushAll(m.log, []) == m.log;
    ExtRun(st, m1, s, d, v, ext);
    RunConcat(st, m, digits, ext);
    SizeCr(st, s, d + |ext|, v);
    ExtCr(st, s, d + |ext|, v);
    var n := d + |ext| + 1;
    RunSilent(st, m, digits + ext, CR, AtSizeEnd(s, n, v));
    SizeLf(st, s, n, v);
    RunNote(st, m, digits + ext + [CR], LF, if v == 0 then AtTrailer(s) else InData(s, v), ChunkHeader(v));
    assert digits + ext + [CR] + [LF] == SizeLine(digits, ext);
  }

  /** Conservation inside a chunk: at every point the bytes delivered and `content_length` add up to its size. */
  lemma {:induction false} DataRun(st: Settings, m: Machine, s: Parser, v: nat, data: string)
    requires m.out.Going? && m.s == InData(s, v) && 0 < |data| <= v
    ensures Run(st, m, data) == Machine(InData(s, v - |data|), Push(m.log, Data(Body, data, false)), m.n + |data|, Going)
    ensures |data| + Run(st, m, data).s.length == v
    decreases |data|
  {
    hide Step, Run, Push;
    var init, ch := data[..|data| - 1], data[|data| - 1];
    assert data == init + [ch];
    DataByte(st, s, v - |init|, ch);
    if init == [] {
      RunNil(st, m);
      RunMark(st, m, init, ch, InData(s, v - 1), Body);
    } else {
      DataRun(st, m, s, v, init);
      RunMark(st, m, init, ch, InData(s, v - |data|), Body);
      PushJoin(m.log, Body, init, [ch], false);
    }
  }

  /** One chunk: announced with its size, delivered whole, completed. */
  lemma ChunkRun(st: Settings, m: Machine, s: Parser, c: Chunk)
    requires m.out.Going? && m.s == s && s.state.ChunkSizeStart? && s.nread == 0 && ChunkOk(c)
    ensures Run(st, m, EncodeChunk(c))
         == Machine(NextChunk(s), m.log + [ChunkHeader(|c.data|), Data(Body, c.data, false), ChunkComplete],
                    m.n + |EncodeChunk(c)|, Going)
  {
    hide Step, Run, InData, AtDataEnd, NextChunk, SizeLine, SizeLineOk, HexValue;
    var v, line := |c.data|, SizeLine(c.digits, c.ext);
    SizeLineRun(st, m, s, c.digits, c.ext);
    var m1 := Run(st, m, line);
    DataRun(st, m1, s, v, c.data);
    var log := m.log + [ChunkHeader(v)] + [Data(Body, c.data, false)];
    assert Push(m1.log, Data(Body, c.data, false)) == log;
    DataCr(st, s);
    var calls := Calls(Some(Close(Body, false, false)), [], None);
    RunGo(st, m1, c.data, CR, AtDataEnd(s), calls);
    assert EventsOf(None, calls, CR) == [];
    DataLf(st, s);
    RunNote(st, m1, c.data + [CR], LF, NextChunk(s), ChunkComplete);
    assert c.data + [CR] + [LF] == c.data + [CR, LF];
    RunConcat(st, m, line, c.data + [CR, LF]);
    assert log + [ChunkComplete] == m.log + [ChunkHeader(v), Data(Body, c.data, false), ChunkComplete];
  }

  /** Decoding inverts encoding: every chunk is announced with its declared size and delivered unchanged, in order, the
      trailer's lines are reported, and the message is completed once, at the last byte. A body that was announced
      together with a change of protocol ends the call there. */
  lemma {:induction false} DecodeInvertsEncode(st: Settings, m: Machine, s: Parser, chunks: seq<Chunk>, z: LastChunk)
    requires m.out.Going? && m.s == s && s.state.ChunkSizeStart? && s.nread == 0
    requires (forall i :: 0 <= i < |chunks| ==> ChunkOk(chunks[i])) && LastOk(z)
    ensures var n, r := m.n + |Encode(chunks, z)|, Run(st, m, Encode(chunks, z));
            r == Machine(AfterBody(s, z.trailer, r.s), m.log + Delivered(chunks, z.trailer), n, if s.upgrade then Left(n) else Going)
    ensures CompletesAt(st, m, Encode(chunks, z))
    decreases |chunks|
  {
    hide Step, Run, EncodeChunk, SizeLine, ChunkOk, LastOk, AfterBody, CompletesAt, Lines, LinesEvents;
    if chunks == [] {
      LastChunkRun(st, m, s, z);
    } else {
      ChunkRun(st, m, s, chunks[0]);
      var m1 := Run(st, m, EncodeChunk(chunks[0]));
      DecodeInvertsEncode(st, m1, NextChunk(s), chunks[1..], z);
      RunConcat(st, m, EncodeChunk(chunks[0]), Encode(chunks[1..], z));
      CompletesLater(st, m, EncodeChunk(chunks[0]), Encode(chunks[1..], z));
      NextChunkEnds(s, z.trailer, Run(st, m, Encode(chunks, z)).s);
      var first := [ChunkHeader(|chunks[0].data|), Data(Body, chunks[0].data, false), ChunkComplete];
      assert m.log + first + Delivered(chunks[1..], z.trailer) == m.log + Delivered(chunks, z.trailer);
    }
  }

  lemma NextChunkEnds(s: Parser, trailer: seq<Entry>, t: Parser)
    ensures AfterBody(NextChunk(s), trailer, t) == AfterBody(s, trailer, t) && NextChunk(s).upgrade == s.upgrade
  {
    hide AfterLines, Lines, NewMessage;
  }

  lemma LastChunkRun(st: Settings, m: Machine, s: Parser, z: LastChunk)
    requires m.out.Going? && m.s == s && s.state.ChunkSizeStart? && s.nread == 0 && LastOk(z)
    ensures var n, r := m.n + |Encode([], z)|, Run(st, m, Encode([], z));
            r == Machine(AfterBody(s, z.trailer, r.s), m.log + Delivered([], z.trailer), n, if s.upgrade then Left(n) else Going)
    ensures CompletesAt(st, m, Encode([], z))
  {
    hide *;
    LastHas(z);
    var line, tail := SizeLine(z.zero, z.ext), Lines(z.trailer) + [CR, LF];
    SizeLineRun(st, m, s, z.zero, z.ext);
    var m1 := Run(st, m, line);
    HeaderCloses(m.log, z);
    TrailerRun(st, m1, s, z.trailer);
    RunConcat(st, m, line, tail);
    CompletesLater(st, m, line, tail);
  }

  lemma LastHas(z: LastChunk)
    requires LastOk(z)
    ensures SizeLineOk(z.zero, z.ext) && PassesForHex(z.zero) && HexValue(z.zero) == 0 && HexValue(z.zero) <= MAX_CHUNK
    ensures (forall i :: 0 <= i < |z.trailer| ==> LineOk(z.trailer[i])) && |Lines(z.trailer)| + 2 <= MAX_HEADER_SIZE
  {
    hide LineOk, Lines, PassesForHex, HexValue, ExtOk;
  }

  lemma HeaderCloses(log: seq<Event>, z: LastChunk)
    ensures ClosedLog(log + [ChunkHeader(0)])
    ensures Encode([], z) == SizeLine(z.zero, z.ext) + (Lines(z.trailer) + [CR, LF])
    ensures log + [ChunkHeader(0)] + (LinesEvents(z.trailer) + [ChunkComplete, MessageComplete]) == log + Delivered([], z.trailer)
  {
    hide Lines, LinesEvents, SizeLine;
  }

  lemma {:induction false} NoBodyBytes(es: seq<Event>, rest: seq<Event>)
    requires forall i :: 0 <= i < |es| ==> !(es[i].Data? && es[i].kind == Body)
    ensures BodyOf(es + rest) == BodyOf(rest)
    decreases |es|
  {
    if es == [] {
      assert es + rest == rest;
    } else {
      assert (es + rest)[0] == es[0] && (es + rest)[1..] == es[1..] + rest;
      NoBodyBytes(es[1..], rest);
    }
  }

  lemma {:induction false} LinesHaveNoBody(hs: seq<Entry>)
    ensures forall i :: 0 <= i < |LinesEvents(hs)| ==> !(LinesEvents(hs)[i].Data? && LinesEvents(hs)[i].kind == Body)
    decreases |hs|
  {
    if hs != [] {
      LinesHaveNoBody(hs[..|hs| - 1]);
    }
  }

  /** The body handed over is the concatenation of the chunks. */
  lemma {:induction false} DeliveredBody(chunks: seq<Chunk>, trailer: seq<Entry>)
    ensures BodyOf(Delivered(chunks, trailer)) == Payload(chunks)
    decreases |chunks|
  {
    hide LinesEvents;
    var events := Delivered(chunks, trailer);
    if chunks != [] {
      var c, rest := chunks[0], Delivered(chunks[1..], trailer);
      DeliveredBody(chunks[1..], trailer);
      assert events[1..] == [Data(Body, c.data, false), ChunkComplete] + rest;
      assert events[1..][1..] == [ChunkComplete] + rest;
      assert events[1..][1..][1..] == rest;
      assert BodyOf(events[1..][1..]) == BodyOf(rest);
    } else {
      LinesHaveNoBody(trailer);
      NoBodyBytes(events, []);
      assert events + [] == events;
    }
  }

  /** The same through http_parser_execute, however the encoded body is cut into buffers: no call fails, and the
      callbacks of all calls, with the pieces of cut strings joined, are those chunks, the trailer and one completion. */
  lemma DecodedFromAnyCut(st: Settings, s: Parser, chunks: seq<Chunk>, z: LastChunk, calls: seq<Call>)
    requires s.state.ChunkSizeStart? && s.nread == 0
    requires (forall i :: 0 <= i < |chunks| ==> ChunkOk(chunks[i])) && LastOk(z)
    requires calls != [] && Consecutive(st, s, calls) && Bytes(calls) == Encode(chunks, z)
    ensures var last := calls[|calls| - 1];
            && last.errno == OK && last.n == |last.data| && last.s == AfterBody(s, z.trailer, last.s)
            && Canon(Fired(calls)) == Delivered(chunks, z.trailer) && BodyOf(Canon(Fired(calls))) == Payload(chunks)
  {
    hide Run, Canon, Encode, AfterBody, Delivered, Consecutive, Fired, ChunkOk, LastOk, Payload, BodyOf;
    DecodeInvertsEncode(st, Start(s), s, chunks, z);
    CutsAgree(st, s, calls);
    DeliveredBody(chunks, z.trailer);
    assert [] + Delivered(chunks, z.trailer) == Delivered(chunks, z.trailer);
  }
}
