/** The parser one byte at a time: the reference machine. REEXECUTE is a direct call of the next case. */
module HttpStep {
  import opened Wrappers
  import opened HttpChars
  import opened HttpTypes

  /** What on_headers_complete answers: 0 go on, 1 no body, 2 no body and no further message, else an error. */
  datatype Settings = Settings(headersAnswer: int)

  /** A data callback made at this byte. `markFirst`: the byte itself sets the mark if none is set;
      `through`: the byte belongs to the string. */
  datatype Close = Close(kind: Kind, markFirst: bool, through: bool)

  /** The callbacks of one byte, in order, then a MARK at the byte. */
  datatype Calls = Calls(close: Option<Close>, notes: seq<Event>, mark: Option<Kind>)

  /** The effect of one byte: go on; leave because the connection changes protocol; or fail. */
  datatype Act = Go(s: Parser, calls: Calls) | Leave(s: Parser, calls: Calls) | Fail(errno: Errno)

  const SILENT := Calls(None, [], None)

  function To(s: Parser, state: State): Act {
    Go(s.(state := state), SILENT)
  }

  function Marking(s: Parser, k: Kind): Act {
    Go(s, Calls(None, [], Some(k)))
  }

  function Closing(s: Parser, k: Kind, state: State): Act {
    Go(s.(state := state), Calls(Some(Close(k, false, false)), [], None))
  }

  function Noting(s: Parser, e: Event): Act {
    Go(s, Calls(None, [e], None))
  }

  // ---- request and status line ----

  function StartReqOrResByte(s: Parser, ch: char): Act {
    if ch == CR || ch == LF then Go(s, SILENT)
    else
      var s := s.(flags := NO_FLAGS, length := NO_LENGTH);
      if ch == 'H' then Noting(s.(state := ResOrRespH), MessageBegin)
      else StartReqByte(s.(typ := Request, state := StartReq), ch)
  }

  function ResOrRespHByte(s: Parser, ch: char): Act {
    if ch == 'T' then To(s.(typ := Response), ResHT)
    else if ch != 'E' then Fail(InvalidConstant)
    else To(s.(typ := Request, verb := HEAD, index := 2), ReqMethod)
  }

  function StartResByte(s: Parser, ch: char): Act {
    if ch == CR || ch == LF then Go(s, SILENT)
    else if ch != 'H' then Fail(InvalidConstant)
    else Noting(s.(flags := NO_FLAGS, length := NO_LENGTH, state := ResH), MessageBegin)
  }

  function FirstStatusCodeByte(s: Parser, ch: char): Act {
    if IsNum(ch) then To(s.(status := Digit(ch)), ResStatusCode)
    else if ch == ' ' then Go(s, SILENT)
    else Fail(InvalidStatus)
  }

  function StatusCodeByte(s: Parser, ch: char): Act {
    if IsNum(ch) then
      var code := s.status * 10 + Digit(ch);
      if code > 999 then Fail(InvalidStatus) else Go(s.(status := code), SILENT)
    else if ch == ' ' then To(s, ResStatusStart)
    else if ch == CR || ch == LF then StatusStartByte(s, ch)
    else Fail(InvalidStatus)
  }

  function StatusStartByte(s: Parser, ch: char): Act {
    var s := s.(state := ResStatus, index := 0);
    if ch == CR then Go(s.(state := ResLineAlmostDone), Calls(Some(Close(Status, true, false)), [], None))
    else if ch == LF then Go(s.(state := HeaderFieldStart), Calls(Some(Close(Status, true, false)), [], None))
    else Marking(s, Status)
  }

  function StatusByte(s: Parser, ch: char): Act {
    if ch == CR then Closing(s, Status, ResLineAlmostDone)
    else if ch == LF then Closing(s, Status, HeaderFieldStart)
    else Go(s, SILENT)
  }

  function FirstMethod(ch: char): Option<Method> {
    match ch
    case 'A' => Some(ACL) case 'B' => Some(BIND) case 'C' => Some(CONNECT) case 'D' => Some(DELETE)
    case 'G' => Some(GET) case 'H' => Some(HEAD) case 'L' => Some(LOCK) case 'M' => Some(MKCOL)
    case 'N' => Some(NOTIFY) case 'O' => Some(OPTIONS) case 'P' => Some(POST) case 'R' => Some(REPORT)
    case 'S' => Some(SUBSCRIBE) case 'T' => Some(TRACE) case 'U' => Some(UNLOCK)
    case _ => None
  }

  function StartReqByte(s: Parser, ch: char): Act {
    if ch == CR || ch == LF then Go(s, SILENT)
    else match FirstMethod(ch)
      case None => Fail(InvalidMethod)
      case Some(m) =>
        Noting(s.(flags := NO_FLAGS, length := NO_LENGTH, verb := m, index := 1, state := ReqMethod), MessageBegin)
  }

  /** The table of method names that branch off another one at (position, byte). */
  function Rematch(m: Method, index: nat, ch: char): Option<Method> {
    match (m, index, ch)
    case (POST, 1, 'U') => Some(PUT)
    case (POST, 1, 'A') => Some(PATCH)
    case (POST, 1, 'R') => Some(PROPFIND)
    case (PUT, 2, 'R') => Some(PURGE)
    case (CONNECT, 1, 'H') => Some(CHECKOUT)
    case (CONNECT, 2, 'P') => Some(COPY)
    case (MKCOL, 1, 'O') => Some(MOVE)
    case (MKCOL, 1, 'E') => Some(MERGE)
    case (MKCOL, 1, '-') => Some(MSEARCH)
    case (MKCOL, 2, 'A') => Some(MKACTIVITY)
    case (MKCOL, 3, 'A') => Some(MKCALENDAR)
    case (SUBSCRIBE, 1, 'E') => Some(SEARCH)
    case (SUBSCRIBE, 1, 'O') => Some(SOURCE)
    case (REPORT, 2, 'B') => Some(REBIND)
    case (PROPFIND, 4, 'P') => Some(PROPPATCH)
    case (LOCK, 1, 'I') => Some(LINK)
    case (UNLOCK, 2, 'S') => Some(UNSUBSCRIBE)
    case (UNLOCK, 2, 'B') => Some(UNBIND)
    case (UNLOCK, 3, 'I') => Some(UNLINK)
    case _ => None
  }

  /** The C string `str` at `i`: its terminating NUL at its length. */
  function CharAt(str: string, i: nat): char {
    if i < |str| then str[i] else '\0'
  }

  function MethodByte(s: Parser, ch: char): Act {
    var want := CharAt(MethodString(s.verb), s.index);
    var s' := s.(index := s.index + 1);
    if ch == '\0' then Fail(InvalidMethod)
    else if ch == ' ' && want == '\0' then To(s', ReqSpacesBeforeUrl)
    else if ch == want then Go(s', SILENT)
    else match Rematch(s.verb, s.index, ch)
      case None => Fail(InvalidMethod)
      case Some(m) => Go(s'.(verb := m), SILENT)
  }

  /** parse_url_char */
  function UrlChar(s: State, ch: char): State {
    if ch in " \r\n\t\U{000C}" then Dead
    else match s
      case ReqSpacesBeforeUrl =>
        if ch == '/' || ch == '*' then ReqPath else if IsAlpha(ch) then ReqSchema else Dead
      case ReqSchema =>
        if IsAlpha(ch) then ReqSchema else if ch == ':' then ReqSchemaSlash else Dead
      case ReqSchemaSlash =>
        if ch == '/' then ReqSchemaSlashSlash else Dead
      case ReqSchemaSlashSlash =>
        if ch == '/' then ReqServerStart else Dead
      case ReqServerWithAt =>
        if ch == '@' then Dead else ServerChar(ch)
      case ReqServerStart => ServerChar(ch)
      case ReqServer => ServerChar(ch)
      case ReqPath =>
        if IsUrlChar(ch) then ReqPath
        else if ch == '?' then ReqQueryStringStart else if ch == '#' then ReqFragmentStart else Dead
      case ReqQueryStringStart => QueryChar(ch)
      case ReqQueryString => QueryChar(ch)
      case ReqFragmentStart =>
        if IsUrlChar(ch) || ch == '?' then ReqFragment else if ch == '#' then ReqFragmentStart else Dead
      case ReqFragment =>
        if IsUrlChar(ch) || ch == '?' || ch == '#' then ReqFragment else Dead
      case _ => Dead
  }

  function ServerChar(ch: char): State {
    if ch == '/' then ReqPath
    else if ch == '?' then ReqQueryStringStart
    else if ch == '@' then ReqServerWithAt
    else if IsUserInfoChar(ch) || ch == '[' || ch == ']' then ReqServer
    else Dead
  }

  function QueryChar(ch: char): State {
    if IsUrlChar(ch) || ch == '?' then ReqQueryString else if ch == '#' then ReqFragmentStart else Dead
  }

  function SpacesBeforeUrlByte(s: Parser, ch: char): Act {
    if ch == ' ' then Go(s, SILENT)
    else
      var next := UrlChar(if s.verb == CONNECT then ReqServerStart else s.state, ch);
      if next == Dead then Fail(InvalidUrl) else Marking(s.(state := next), Url)
  }

  function UrlByte(s: Parser, ch: char): Act {
    var next := UrlChar(s.state, ch);
    if next == Dead then Fail(InvalidUrl) else To(s, next)
  }

  function UrlEndableByte(s: Parser, ch: char): Act {
    if ch == ' ' then Closing(s, Url, ReqHttpStart)
    else if ch == CR then Closing(s.(major := 0, minor := 9), Url, ReqLineAlmostDone)
    else if ch == LF then Closing(s.(major := 0, minor := 9), Url, HeaderFieldStart)
    else UrlByte(s, ch)
  }

  function HttpStartByte(s: Parser, ch: char): Act {
    if ch == ' ' then Go(s, SILENT)
    else if ch == 'H' then To(s, ReqHttpH)
    else if ch == 'I' && s.verb == SOURCE then To(s, ReqHttpI)
    else Fail(InvalidConstant)
  }

  function MajorByte(s: Parser, ch: char, next: State): Act {
    if IsNum(ch) then To(s.(major := Digit(ch)), next) else Fail(InvalidVersion)
  }

  function MinorByte(s: Parser, ch: char, next: State): Act {
    if IsNum(ch) then To(s.(minor := Digit(ch)), next) else Fail(InvalidVersion)
  }

  function HttpEndByte(s: Parser, ch: char): Act {
    if ch == CR then To(s, ReqLineAlmostDone) else if ch == LF then To(s, HeaderFieldStart) else Fail(InvalidVersion)
  }

  // ---- headers ----

  const CONNECTION := "connection"
  const PROXY_CONNECTION := "proxy-connection"
  const CONTENT_LENGTH := "content-length"
  const TRANSFER_ENCODING := "transfer-encoding"
  const UPGRADE := "upgrade"
  const CHUNKED := "chunked"
  const KEEP_ALIVE := "keep-alive"
  const CLOSE := "close"

  function FirstHState(c: char): HState {
    match c
    case 'c' => C
    case 'p' => MatchingProxyConnection
    case 't' => MatchingTransferEncoding
    case 'u' => MatchingUpgrade
    case _ => General
  }

  function FieldStartByte(st: Settings, s: Parser, ch: char): Act {
    if ch == CR then To(s, HeadersAlmostDone)
    else if ch == LF then HeadersAlmostDoneByte(st, s.(state := HeadersAlmostDone), ch)
    else if !IsToken(ch) then Fail(InvalidHeaderToken)
    else Marking(s.(index := 0, state := HeaderField, hs := FirstHState(Token(ch))), Field)
  }

  /** One more byte of a keyword: lost, matched to its end, or still matching. */
  function Matched(word: string, index: nat, c: char, lost: HState, going: HState, done: HState): (HState, nat) {
    if index + 1 > |word| || c != CharAt(word, index + 1) then (lost, index + 1)
    else if index + 1 == |word| - 1 then (done, index + 1)
    else (going, index + 1)
  }

  /** One byte `c` (lowered) of a header name. */
  function FieldNext(hs: HState, index: nat, c: char): (HState, nat) {
    match hs
    case General => (General, index)
    case C => (if c == 'o' then CO else General, index + 1)
    case CO => (if c == 'n' then CON else General, index + 1)
    case CON => (if c == 'n' then MatchingConnection else if c == 't' then MatchingContentLength else General, index + 1)
    case MatchingConnection => Matched(CONNECTION, index, c, General, hs, Connection)
    case MatchingProxyConnection => Matched(PROXY_CONNECTION, index, c, General, hs, Connection)
    case MatchingContentLength => Matched(CONTENT_LENGTH, index, c, General, hs, ContentLength)
    case MatchingTransferEncoding => Matched(TRANSFER_ENCODING, index, c, General, hs, TransferEncoding)
    case MatchingUpgrade => Matched(UPGRADE, index, c, General, hs, Upgrade)
    case _ => (General, index)
  }

  function FieldByte(s: Parser, ch: char): Act {
    if IsToken(ch) then
      var (hs, index) := FieldNext(s.hs, s.index, Token(ch));
      Go(s.(hs := hs, index := index), SILENT)
    else if ch == ':' then Closing(s, Field, HeaderValueDiscardWs)
    else Fail(InvalidHeaderToken)
  }

  function DiscardWsByte(s: Parser, ch: char): Act {
    if ch == ' ' || ch == '\t' then Go(s, SILENT)
    else if ch == CR then To(s, HeaderValueDiscardWsAlmostDone)
    else if ch == LF then To(s, HeaderValueDiscardLws)
    else ValueStartByte(s, ch)
  }

  /** The header state a value starts in, by the header state its name left and its first byte, lowered. */
  function ValueStart(hs: HState, c: char): HState {
    match hs
    case TransferEncoding => if c == 'c' then MatchingTransferEncodingChunked else General
    case ContentLength => ContentLengthNum
    case ContentLengthWs => ContentLengthWs
    case Connection => if c == 'k' then MatchingConnectionKeepAlive
                       else if c == 'c' then MatchingConnectionClose
                       else if c == 'u' then MatchingConnectionUpgrade
                       else MatchingConnectionToken
    case MatchingConnectionTokenStart => MatchingConnectionTokenStart
    case _ => General
  }

  function ValueStartByte(s: Parser, ch: char): Act {
    var isLength := s.hs == ContentLength;
    if isLength && !IsNum(ch) then Fail(InvalidContentLength)
    else if isLength && s.flags.contentLength then Fail(UnexpectedContentLength)
    else
      Marking(s.(state := HeaderValue, index := 0, hs := ValueStart(s.hs, Lower(ch)),
                 flags := s.flags.(upgrade := s.flags.upgrade || s.hs == Upgrade,
                                   contentLength := s.flags.contentLength || isLength),
                 length := if isLength then Digit(ch) else s.length), Value)
  }

  /** The part of the parser a value byte works on. */
  datatype Scan = Scan(hs: HState, index: nat, flags: Flags, length: nat) | Bad(errno: Errno)

  const LENGTH_GUARD: nat := (NO_LENGTH - 10) / 10
  const CHUNK_GUARD: nat := (NO_LENGTH - 16) / 16

  function LengthDigit(v: Scan, ch: char): Scan
    requires v.Scan?
  {
    if ch == ' ' then v.(hs := ContentLengthWs)
    else if !IsNum(ch) then Bad(InvalidContentLength)
    else if LENGTH_GUARD < v.length then Bad(InvalidContentLength)
    else v.(hs := ContentLengthNum, length := v.length * 10 + Digit(ch))
  }

  function MatchedValue(v: Scan, word: string, c: char, lost: HState, done: HState): Scan
    requires v.Scan?
  {
    var (hs, index) := Matched(word, v.index, c, lost, v.hs, done);
    v.(hs := hs, index := index)
  }

  function TokenEnd(v: Scan, ch: char, flags: Flags): Scan
    requires v.Scan?
  {
    if ch == ',' then Scan(MatchingConnectionTokenStart, 0, flags, v.length)
    else if ch != ' ' then v.(hs := MatchingConnectionToken)
    else v
  }

  /** One byte of a header value that is neither CR nor LF. */
  function ValueNext(v: Scan, ch: char): Scan
    requires v.Scan?
  {
    var c := Lower(ch);
    match v.hs
    case General => v
    case ContentLength => if ch == ' ' then v else LengthDigit(v, ch)
    case ContentLengthNum => LengthDigit(v, ch)
    case ContentLengthWs => if ch == ' ' then v else Bad(InvalidContentLength)
    case MatchingTransferEncodingChunked => MatchedValue(v, CHUNKED, c, General, TransferEncodingChunked)
    case MatchingConnectionTokenStart =>
      v.(hs := if c == 'k' then MatchingConnectionKeepAlive
               else if c == 'c' then MatchingConnectionClose
               else if c == 'u' then MatchingConnectionUpgrade
               else if IsToken(c) then MatchingConnectionToken
               else if c == ' ' || c == '\t' then v.hs
               else General)
    case MatchingConnectionKeepAlive => MatchedValue(v, KEEP_ALIVE, c, MatchingConnectionToken, ConnectionKeepAlive)
    case MatchingConnectionClose => MatchedValue(v, CLOSE, c, MatchingConnectionToken, ConnectionClose)
    case MatchingConnectionUpgrade => MatchedValue(v, UPGRADE, c, MatchingConnectionToken, ConnectionUpgrade)
    case MatchingConnectionToken => if ch == ',' then v.(hs := MatchingConnectionTokenStart, index := 0) else v
    case TransferEncodingChunked => if ch != ' ' then v.(hs := General) else v
    case ConnectionKeepAlive => TokenEnd(v, ch, v.flags.(keepAlive := true))
    case ConnectionClose => TokenEnd(v, ch, v.flags.(close := true))
    case ConnectionUpgrade => TokenEnd(v, ch, v.flags.(connUpgrade := true))
    case _ => v.(hs := General)
  }

  function ScanOf(s: Parser): Scan {
    Scan(s.hs, s.index, s.flags, s.length)
  }

  function WithScan(s: Parser, v: Scan): Parser
    requires v.Scan?
  {
    s.(hs := v.hs, index := v.index, flags := v.flags, length := v.length)
  }

  function ValueByte(s: Parser, ch: char): Act {
    if ch == CR then Closing(s, Value, HeaderAlmostDone)
    else if ch == LF then Closing(s, Value, HeaderValueLws)
    else if !s.lenient && !IsHeaderChar(ch) then Fail(InvalidHeaderToken)
    else match ValueNext(ScanOf(s), ch)
      case Bad(e) => Fail(e)
      case Scan(hs, index, flags, length) => Go(s.(hs := hs, index := index, flags := flags, length := length), SILENT)
  }

  /** What a complete header line leaves behind. */
  function LineFlags(hs: HState, flags: Flags): Flags {
    match hs
    case ConnectionKeepAlive => flags.(keepAlive := true)
    case ConnectionClose => flags.(close := true)
    case TransferEncodingChunked => flags.(chunked := true)
    case ConnectionUpgrade => flags.(connUpgrade := true)
    case _ => flags
  }

  function ValueLwsByte(st: Settings, s: Parser, ch: char): Act {
    if ch == ' ' || ch == '\t' then
      ValueStartByte(s.(hs := if s.hs == ContentLengthNum then ContentLengthWs else s.hs, state := HeaderValueStart), ch)
    else FieldStartByte(st, s.(flags := LineFlags(s.hs, s.flags), state := HeaderFieldStart), ch)
  }

  function DiscardLwsByte(st: Settings, s: Parser, ch: char): Act {
    if ch == ' ' || ch == '\t' then To(s, HeaderValueDiscardWs)
    else if s.hs == ContentLength then Fail(InvalidContentLength)
    else
      match FieldStartByte(st, s.(flags := LineFlags(s.hs, s.flags), state := HeaderFieldStart), ch)
      case Fail(e) => Fail(e)
      case Go(s', calls) => Go(s', calls.(close := Some(Close(Value, true, false))))
      case Leave(s', calls) => Leave(s', calls.(close := Some(Close(Value, true, false))))
  }

  function HeadersAlmostDoneByte(st: Settings, s: Parser, ch: char): Act {
    if ch != LF then Fail(Strict)
    else if s.flags.trailing then MessageDoneByte(s, [ChunkComplete], None)
    else if s.flags.chunked && s.flags.contentLength then Fail(UnexpectedContentLength)
    else
      var up := if s.flags.upgrade && s.flags.connUpgrade then s.typ == Request || s.status == 101
                else s.verb == CONNECT;
      var seen := [HeadersComplete(s.verb, s.major, s.minor, s.status, up)];
      if st.headersAnswer != 0 && st.headersAnswer != 1 && st.headersAnswer != 2 then Fail(CbHeadersComplete)
      else HeadersDoneByte(s.(upgrade := up || st.headersAnswer == 2,
                              flags := s.flags.(skipBody := s.flags.skipBody || st.headersAnswer != 0)), seen)
  }

  /** Where a complete header section leads. */
  function AfterHeaders(s: Parser): State {
    if s.flags.skipBody then NewMessage(s)
    else if s.flags.chunked then ChunkSizeStart
    else if s.length == 0 then NewMessage(s)
    else if s.length != NO_LENGTH then BodyIdentity
    else if !NeedsEof(s) then NewMessage(s)
    else BodyIdentityEof
  }

  function HeadersDoneByte(s: Parser, notes: seq<Event>): Act {
    var hasBody := s.flags.chunked || (s.length > 0 && s.length != NO_LENGTH);
    var next := AfterHeaders(s);
    if s.upgrade && (s.verb == CONNECT || s.flags.skipBody || !hasBody) then
      Leave(s.(nread := 0, state := NewMessage(s)), Calls(None, notes + [MessageComplete], None))
    else
      Go(s.(nread := 0, state := next),
         Calls(None, if next.ChunkSizeStart? || next.BodyIdentity? || next.BodyIdentityEof? then notes
                     else notes + [MessageComplete], None))
  }

  // ---- body ----

  function MessageDoneByte(s: Parser, notes: seq<Event>, close: Option<Close>): Act {
    var s' := s.(state := NewMessage(s));
    var calls := Calls(close, notes + [MessageComplete], None);
    if s.upgrade then Leave(s', calls) else Go(s', calls)
  }

  /** The last byte of an identity body is seen again by s_message_done. */
  function BodyIdentityByte(s: Parser): Act {
    var s := s.(length := if s.length == 0 then 0 else s.length - 1);
    if s.length == 0 then MessageDoneByte(s, [], Some(Close(Body, true, true)))
    else Marking(s, Body)
  }

  function ChunkSizeStartByte(s: Parser, ch: char): Act {
    if Unhex(ch) == -1 then Fail(InvalidChunkSize) else To(s.(length := Unhex(ch)), ChunkSize)
  }

  function ChunkSizeByte(s: Parser, ch: char): Act {
    if ch == CR then To(s, ChunkSizeAlmostDone)
    else if Unhex(ch) == -1 then
      if ch == ';' || ch == ' ' then To(s, ChunkParameters) else Fail(InvalidChunkSize)
    else if CHUNK_GUARD < s.length then Fail(InvalidContentLength)
    else Go(s.(length := s.length * 16 + Unhex(ch)), SILENT)
  }

  function ChunkSizeAlmostDoneByte(s: Parser, ch: char): Act {
    if ch != LF then Fail(Strict)
    else if s.length == 0 then
      Noting(s.(nread := 0, flags := s.flags.(trailing := true), state := HeaderFieldStart), ChunkHeader(0))
    else Noting(s.(nread := 0, state := ChunkData), ChunkHeader(s.length))
  }

  function ChunkDataByte(s: Parser): Act {
    var s := s.(length := if s.length == 0 then 0 else s.length - 1);
    Marking(if s.length == 0 then s.(state := ChunkDataAlmostDone) else s, Body)
  }

  function ChunkDataDoneByte(s: Parser, ch: char): Act {
    if ch != LF then Fail(Strict) else Noting(s.(nread := 0, state := ChunkSizeStart), ChunkComplete)
  }

  /** A state that accepts one byte only. */
  datatype Literal = Literal(ch: char, errno: Errno, next: State)

  function LiteralOf(s: State): Option<Literal> {
    match s
    case ResH => Some(Literal('T', Strict, ResHT))
    case ResHT => Some(Literal('T', Strict, ResHTT))
    case ResHTT => Some(Literal('P', Strict, ResHTTP))
    case ResHTTP => Some(Literal('/', Strict, ResHttpMajor))
    case ResHttpDot => Some(Literal('.', InvalidVersion, ResHttpMinor))
    case ResHttpEnd => Some(Literal(' ', InvalidVersion, ResFirstStatusCode))
    case ResLineAlmostDone => Some(Literal(LF, Strict, HeaderFieldStart))
    case ReqHttpH => Some(Literal('T', Strict, ReqHttpHT))
    case ReqHttpHT => Some(Literal('T', Strict, ReqHttpHTT))
    case ReqHttpHTT => Some(Literal('P', Strict, ReqHttpHTTP))
    case ReqHttpI => Some(Literal('C', Strict, ReqHttpIC))
    case ReqHttpIC => Some(Literal('E', Strict, ReqHttpHTTP))
    case ReqHttpHTTP => Some(Literal('/', Strict, ReqHttpMajor))
    case ReqHttpDot => Some(Literal('.', InvalidVersion, ReqHttpMinor))
    case ReqLineAlmostDone => Some(Literal(LF, LfExpected, HeaderFieldStart))
    case HeaderValueDiscardWsAlmostDone => Some(Literal(LF, Strict, HeaderValueDiscardLws))
    case HeaderAlmostDone => Some(Literal(LF, LfExpected, HeaderValueLws))
    case _ => None
  }

  function LiteralByte(s: Parser, ch: char): Act
    requires LiteralOf(s.state).Some?
  {
    var l := LiteralOf(s.state).value;
    if ch == l.ch then To(s, l.next) else Fail(l.errno)
  }

  // ---- the switch ----

  function Dispatch(st: Settings, s: Parser, ch: char): Act {
    match s.state
    case Dead => if ch == CR || ch == LF then Go(s, SILENT) else Fail(ClosedConnection)
    case StartReqOrRes => StartReqOrResByte(s, ch)
    case ResOrRespH => ResOrRespHByte(s, ch)
    case StartRes => StartResByte(s, ch)
    case ResH => LiteralByte(s, ch)
    case ResHT => LiteralByte(s, ch)
    case ResHTT => LiteralByte(s, ch)
    case ResHTTP => LiteralByte(s, ch)
    case ResHttpMajor => MajorByte(s, ch, ResHttpDot)
    case ResHttpDot => LiteralByte(s, ch)
    case ResHttpMinor => MinorByte(s, ch, ResHttpEnd)
    case ResHttpEnd => LiteralByte(s, ch)
    case ResFirstStatusCode => FirstStatusCodeByte(s, ch)
    case ResStatusCode => StatusCodeByte(s, ch)
    case ResStatusStart => StatusStartByte(s, ch)
    case ResStatus => StatusByte(s, ch)
    case ResLineAlmostDone => LiteralByte(s, ch)
    case StartReq => StartReqByte(s, ch)
    case ReqMethod => MethodByte(s, ch)
    case ReqSpacesBeforeUrl => SpacesBeforeUrlByte(s, ch)
    case ReqSchema => UrlByte(s, ch)
    case ReqSchemaSlash => UrlByte(s, ch)
    case ReqSchemaSlashSlash => UrlByte(s, ch)
    case ReqServerStart => UrlByte(s, ch)
    case ReqServer => UrlEndableByte(s, ch)
    case ReqServerWithAt => UrlEndableByte(s, ch)
    case ReqPath => UrlEndableByte(s, ch)
    case ReqQueryStringStart => UrlEndableByte(s, ch)
    case ReqQueryString => UrlEndableByte(s, ch)
    case ReqFragmentStart => UrlEndableByte(s, ch)
    case ReqFragment => UrlEndableByte(s, ch)
    case ReqHttpStart => HttpStartByte(s, ch)
    case ReqHttpH => LiteralByte(s, ch)
    case ReqHttpHT => LiteralByte(s, ch)
    case ReqHttpHTT => LiteralByte(s, ch)
    case ReqHttpI => LiteralByte(s, ch)
    case ReqHttpIC => LiteralByte(s, ch)
    case ReqHttpHTTP => LiteralByte(s, ch)
    case ReqHttpMajor => MajorByte(s, ch, ReqHttpDot)
    case ReqHttpDot => LiteralByte(s, ch)
    case ReqHttpMinor => MinorByte(s, ch, ReqHttpEnd)
    case ReqHttpEnd => HttpEndByte(s, ch)
    case ReqLineAlmostDone => LiteralByte(s, ch)
    case HeaderFieldStart => FieldStartByte(st, s, ch)
    case HeaderField => FieldByte(s, ch)
    case HeaderValueDiscardWs => DiscardWsByte(s, ch)
    case HeaderValueDiscardWsAlmostDone => LiteralByte(s, ch)
    case HeaderValueDiscardLws => DiscardLwsByte(st, s, ch)
    case HeaderValueStart => ValueStartByte(s, ch)
    case HeaderValue => ValueByte(s, ch)
    case HeaderValueLws => ValueLwsByte(st, s, ch)
    case HeaderAlmostDone => LiteralByte(s, ch)
    case ChunkSizeStart => ChunkSizeStartByte(s, ch)
    case ChunkSize => ChunkSizeByte(s, ch)
    case ChunkParameters => if ch == CR then To(s, ChunkSizeAlmostDone) else Go(s, SILENT)
    case ChunkSizeAlmostDone => ChunkSizeAlmostDoneByte(s, ch)
    case HeadersAlmostDone => HeadersAlmostDoneByte(st, s, ch)
    case HeadersDone => if ch != LF then Fail(Strict) else HeadersDoneByte(s, [])
    case ChunkData => ChunkDataByte(s)
    case ChunkDataAlmostDone => if ch != CR then Fail(Strict) else Closing(s, Body, ChunkDataDone)
    case ChunkDataDone => ChunkDataDoneByte(s, ch)
    case BodyIdentity => BodyIdentityByte(s)
    case BodyIdentityEof => Marking(s, Body)
    case MessageDone => MessageDoneByte(s, [], None)
  }

  /** COUNT_HEADER_SIZE(1), then the switch. */
  function Step(st: Settings, s: Parser, ch: char): Act {
    if !ParsingHeader(s.state) then Dispatch(st, s, ch)
    else if s.nread + 1 > MAX_HEADER_SIZE then Fail(HeaderOverflow)
    else Dispatch(st, s.(nread := s.nread + 1), ch)
  }
}
