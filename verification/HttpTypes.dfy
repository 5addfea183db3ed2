/** The data of the HTTP/1.x parser: its state record, the callbacks it makes, its settings. */
module HttpTypes {
  import opened Wrappers

  datatype ParserType = Request | Response | Both

  datatype Method =
    | DELETE | GET | HEAD | POST | PUT | CONNECT | OPTIONS | TRACE | COPY | LOCK | MKCOL | MOVE | PROPFIND
    | PROPPATCH | SEARCH | UNLOCK | BIND | REBIND | UNBIND | ACL | REPORT | MKACTIVITY | CHECKOUT | MERGE
    | MSEARCH | NOTIFY | SUBSCRIBE | UNSUBSCRIBE | PATCH | PURGE | MKCALENDAR | LINK | UNLINK | SOURCE

  function MethodString(m: Method): string {
    match m
    case DELETE => "DELETE" case GET => "GET" case HEAD => "HEAD" case POST => "POST" case PUT => "PUT"
    case CONNECT => "CONNECT" case OPTIONS => "OPTIONS" case TRACE => "TRACE" case COPY => "COPY"
    case LOCK => "LOCK" case MKCOL => "MKCOL" case MOVE => "MOVE" case PROPFIND => "PROPFIND"
    case PROPPATCH => "PROPPATCH" case SEARCH => "SEARCH" case UNLOCK => "UNLOCK" case BIND => "BIND"
    case REBIND => "REBIND" case UNBIND => "UNBIND" case ACL => "ACL" case REPORT => "REPORT"
    case MKACTIVITY => "MKACTIVITY" case CHECKOUT => "CHECKOUT" case MERGE => "MERGE"
    case MSEARCH => "M-SEARCH" case NOTIFY => "NOTIFY" case SUBSCRIBE => "SUBSCRIBE"
    case UNSUBSCRIBE => "UNSUBSCRIBE" case PATCH => "PATCH" case PURGE => "PURGE"
    case MKCALENDAR => "MKCALENDAR" case LINK => "LINK" case UNLINK => "UNLINK" case SOURCE => "SOURCE"
  }

  datatype State =
    | Dead | StartReqOrRes | ResOrRespH | StartRes
    | ResH | ResHT | ResHTT | ResHTTP | ResHttpMajor | ResHttpDot | ResHttpMinor | ResHttpEnd
    | ResFirstStatusCode | ResStatusCode | ResStatusStart | ResStatus | ResLineAlmostDone
    | StartReq | ReqMethod | ReqSpacesBeforeUrl
    | ReqSchema | ReqSchemaSlash | ReqSchemaSlashSlash | ReqServerStart | ReqServer | ReqServerWithAt
    | ReqPath | ReqQueryStringStart | ReqQueryString | ReqFragmentStart | ReqFragment
    | ReqHttpStart | ReqHttpH | ReqHttpHT | ReqHttpHTT | ReqHttpHTTP | ReqHttpI | ReqHttpIC
    | ReqHttpMajor | ReqHttpDot | ReqHttpMinor | ReqHttpEnd | ReqLineAlmostDone
    | HeaderFieldStart | HeaderField
    | HeaderValueDiscardWs | HeaderValueDiscardWsAlmostDone | HeaderValueDiscardLws
    | HeaderValueStart | HeaderValue | HeaderValueLws | HeaderAlmostDone
    | ChunkSizeStart | ChunkSize | ChunkParameters | ChunkSizeAlmostDone
    | HeadersAlmostDone | HeadersDone
    | ChunkData | ChunkDataAlmostDone | ChunkDataDone
    | BodyIdentity | BodyIdentityEof | MessageDone

  datatype HState =
    | General | C | CO | CON
    | MatchingConnection | MatchingProxyConnection | MatchingContentLength | MatchingTransferEncoding
    | MatchingUpgrade
    | Connection | ContentLength | ContentLengthNum | ContentLengthWs | TransferEncoding | Upgrade
    | MatchingTransferEncodingChunked | MatchingConnectionTokenStart | MatchingConnectionKeepAlive
    | MatchingConnectionClose | MatchingConnectionUpgrade | MatchingConnectionToken
    | TransferEncodingChunked | ConnectionKeepAlive | ConnectionClose | ConnectionUpgrade

  datatype Flags = Flags(chunked: bool, keepAlive: bool, close: bool, connUpgrade: bool,
                         trailing: bool, upgrade: bool, skipBody: bool, contentLength: bool)

  const NO_FLAGS := Flags(false, false, false, false, false, false, false, false)

  /** ULLONG_MAX: the value of `content_length` that stands for "no length known". */
  const NO_LENGTH: nat := 0xFFFF_FFFF_FFFF_FFFF

  /** HTTP_MAX_HEADER_SIZE: the limit on the bytes of one header section. */
  const MAX_HEADER_SIZE: nat := 80 * 1024

  /** The fields of `struct http_parser` except `http_errno` and the user pointer. */
  datatype Parser = Parser(typ: ParserType, flags: Flags, state: State, hs: HState, index: nat, nread: nat,
                           length: nat, major: nat, minor: nat, status: nat, verb: Method,
                           upgrade: bool, lenient: bool)

  datatype Errno =
    | OK | CbHeadersComplete | CbUrl | InvalidEofState | HeaderOverflow | ClosedConnection | InvalidVersion
    | InvalidStatus | InvalidMethod | InvalidUrl | LfExpected | InvalidHeaderToken | InvalidContentLength
    | UnexpectedContentLength | InvalidChunkSize | InvalidConstant | Strict

  /** The five strings the parser reports piecewise. */
  datatype Kind = Url | Status | Field | Value | Body

  /** One callback. `final` tells a data callback made where the string ends (CALLBACK_DATA) from one made
      because the buffer ended; body callbacks never say which, since the body runs on over chunks. */
  datatype Event =
    | Data(kind: Kind, bytes: string, final: bool)
    | MessageBegin
    | HeadersComplete(verb: Method, major: nat, minor: nat, status: nat, upgrade: bool)
    | ChunkHeader(size: nat)
    | ChunkComplete
    | MessageComplete

  predicate ParsingHeader(s: State) {
    !(s.ChunkData? || s.ChunkDataAlmostDone? || s.ChunkDataDone? || s.BodyIdentity?
      || s.BodyIdentityEof? || s.MessageDone?)
  }

  /** http_parser_init */
  function Init(t: ParserType): Parser {
    Parser(t, NO_FLAGS, match t case Request => StartReq case Response => StartRes case Both => StartReqOrRes,
           General, 0, 0, 0, 0, 0, 0, DELETE, false, false)
  }

  /** http_message_needs_eof: only the end of the connection ends this message. */
  predicate NeedsEof(s: Parser) {
    && s.typ != Request
    && s.status / 100 != 1 && s.status != 204 && s.status != 304 && !s.flags.skipBody
    && !s.flags.chunked && s.length == NO_LENGTH
  }

  /** http_should_keep_alive */
  predicate ShouldKeepAlive(s: Parser) {
    && (if s.major > 0 && s.minor > 0 then !s.flags.close else s.flags.keepAlive)
    && !NeedsEof(s)
  }

  /** NEW_MESSAGE of the strict build. */
  function NewMessage(s: Parser): State {
    if !ShouldKeepAlive(s) then Dead else if s.typ == Request then StartReq else StartRes
  }
}
