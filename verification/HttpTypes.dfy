/** The record, the states and the character classes of the HTTP/1 parser
    (third-party/http-parser/http_parser.h and http_parser.c), in strict mode.

    A `char` stands for one byte of input. */
module HttpTypes {
  import opened Decimals
  import opened Options

  const CR := '\r'
  const LF := '\n'

  /** 2^64 - 1: the largest length, and the mark for "no length given". */
  const ULLONG_MAX: nat := 0xFFFF_FFFF_FFFF_FFFF
  const HTTP_MAX_HEADER_SIZE: nat := 80 * 1024

  datatype ParserType = Request | Response | Both

  datatype Flags = Flags(
    chunked: bool, keepAlive: bool, close: bool, connectionUpgrade: bool,
    trailing: bool, upgrade: bool, skipBody: bool, hasLength: bool)

  const NO_FLAGS := Flags(false, false, false, false, false, false, false, false)

  datatype Errno =
    | Ok | CallbackFailed | InvalidEofState | HeaderOverflow | ClosedConnection
    | InvalidVersion | InvalidStatus | InvalidMethod | InvalidUrl | LfExpected
    | InvalidHeaderToken | InvalidContentLength | UnexpectedContentLength
    | InvalidChunkSize | InvalidConstant | Strict | Paused

  datatype State =
    | Dead
    | StartReqOrRes | ResOrRespH | StartRes | ResH | ResHT | ResHTT | ResHTTP
    | ResHttpMajor | ResHttpDot | ResHttpMinor | ResHttpEnd
    | ResFirstStatusCode | ResStatusCode | ResStatusStart | ResStatus | ResLineAlmostDone
    | StartReq | ReqMethod | ReqSpacesBeforeUrl
    | ReqSchema | ReqSchemaSlash | ReqSchemaSlashSlash
    | ReqServerStart | ReqServer | ReqServerWithAt
    | ReqPath | ReqQueryStringStart | ReqQueryString | ReqFragmentStart | ReqFragment
    | ReqHttpStart | ReqHttpH | ReqHttpHT | ReqHttpHTT | ReqHttpHTTP
    | ReqHttpMajor | ReqHttpDot | ReqHttpMinor | ReqHttpEnd | ReqLineAlmostDone
    | HeaderFieldStart | HeaderField
    | HeaderValueDiscardWs | HeaderValueDiscardWsAlmostDone | HeaderValueDiscardLws
    | HeaderValueStart | HeaderValue | HeaderValueLws | HeaderAlmostDone
    | ChunkSizeStart | ChunkSize | ChunkParameters | ChunkSizeAlmostDone
    | HeadersAlmostDone | HeadersDone
    // The states from here on are body states: bytes read in them are not
    // counted against the header limit.
    | ChunkData | ChunkDataAlmostDone | ChunkDataDone
    | BodyIdentity | BodyIdentityEof | MessageDone

  predicate ParsingHeader(s: State) {
    !(s.ChunkData? || s.ChunkDataAlmostDone? || s.ChunkDataDone?
      || s.BodyIdentity? || s.BodyIdentityEof? || s.MessageDone?)
  }

  datatype HeaderState =
    | General | C | CO | CON
    | MatchingConnection | MatchingProxyConnection | MatchingContentLength
    | MatchingTransferEncoding | MatchingUpgrade
    | Connection | ContentLength | TransferEncoding | Upgrade
    | MatchingChunked
    | MatchingTokenStart | MatchingKeepAlive | MatchingClose | MatchingTokenUpgrade | MatchingToken
    | Chunked | KeepAlive | Close | TokenUpgrade

  datatype Method =
    | DELETE | GET | HEAD | POST | PUT | CONNECT | OPTIONS | TRACE
    | COPY | LOCK | MKCOL | MOVE | PROPFIND | PROPPATCH | SEARCH | UNLOCK
    | BIND | REBIND | UNBIND | ACL
    | REPORT | MKACTIVITY | CHECKOUT | MERGE
    | MSEARCH | NOTIFY | SUBSCRIBE | UNSUBSCRIBE
    | PATCH | PURGE | MKCALENDAR | LINK | UNLINK

  function MethodString(m: Method): string {
    match m
    case DELETE => "DELETE" case GET => "GET" case HEAD => "HEAD" case POST => "POST"
    case PUT => "PUT" case CONNECT => "CONNECT" case OPTIONS => "OPTIONS" case TRACE => "TRACE"
    case COPY => "COPY" case LOCK => "LOCK" case MKCOL => "MKCOL" case MOVE => "MOVE"
    case PROPFIND => "PROPFIND" case PROPPATCH => "PROPPATCH" case SEARCH => "SEARCH"
    case UNLOCK => "UNLOCK" case BIND => "BIND" case REBIND => "REBIND" case UNBIND => "UNBIND"
    case ACL => "ACL" case REPORT => "REPORT" case MKACTIVITY => "MKACTIVITY"
    case CHECKOUT => "CHECKOUT" case MERGE => "MERGE" case MSEARCH => "M-SEARCH"
    case NOTIFY => "NOTIFY" case SUBSCRIBE => "SUBSCRIBE" case UNSUBSCRIBE => "UNSUBSCRIBE"
    case PATCH => "PATCH" case PURGE => "PURGE" case MKCALENDAR => "MKCALENDAR"
    case LINK => "LINK" case UNLINK => "UNLINK"
  }

  /** The fields of `struct http_parser` that the state machine reads and writes.
      `nread`, `http_errno` and `lenient_http_headers` are kept apart: no
      transition depends on the first two and none writes the third. */
  datatype Rec = Rec(
    ptype: ParserType, flags: Flags, state: State, hstate: HeaderState, index: nat,
    contentLength: int, major: nat, minor: nat, status: nat, meth: Method, upgrade: bool)

  /** What `on_headers_complete` answers, and whether header values are checked. */
  datatype Env = Env(lenient: bool, onHeadersComplete: Rec -> int)

  datatype Kind = Url | Status | Field | Value | Body

  /** One callback made by the parser. */
  datatype Event =
    | MessageBegin
    | HeadersComplete
    | MessageComplete
    | ChunkHeader(size: int)
    | ChunkComplete
    | Data(kind: Kind, bytes: string)

  // ----- character classes -----

  /** `c | 0x20` */
  function Lower(c: char): char {
    if c as int < 256 && (c as int / 32) % 2 == 0 then (c as int + 32) as char else c
  }

  predicate IsAlpha(c: char) { 'a' <= Lower(c) <= 'z' }

  predicate IsAlphaNum(c: char) { IsAlpha(c) || IsNum(c) }

  predicate IsHex(c: char) { IsNum(c) || 'a' <= Lower(c) <= 'f' }

  predicate IsMark(c: char) {
    c == '-' || c == '_' || c == '.' || c == '!' || c == '~' || c == '*' || c == '\'' || c == '(' || c == ')'
  }

  predicate IsUserinfoChar(c: char) {
    IsAlphaNum(c) || IsMark(c) || c == '%' || c == ';' || c == ':' || c == '&' || c == '=' || c == '+'
    || c == '$' || c == ','
  }

  predicate IsHostChar(c: char) { IsAlphaNum(c) || c == '.' || c == '-' }

  /** The bit table `normal_url_char`: the printable ASCII bytes but `#` and `?`. */
  predicate IsUrlChar(c: char) { '!' <= c <= '~' && c != '#' && c != '?' }

  predicate IsHeaderChar(c: char) {
    c == CR || c == LF || c == '\t' || (c as int > 31 && c as int != 127)
  }

  /** The table `tokens`, which also lower-cases; None is its zero entry. */
  function Token(c: char): Option<char> {
    if 'A' <= c <= 'Z' then Some((c as int + 32) as char)
    else if 'a' <= c <= 'z' || IsNum(c) || c in "!#$%&'*+-.^_`|~" then Some(c)
    else None
  }

  /** The table `unhex`. It has 128 initialisers for 256 entries, so the upper
      half holds zero, not -1. */
  function Unhex(c: char): Option<nat> {
    if IsNum(c) then Some(c as int - '0' as int)
    else if 'A' <= c <= 'F' then Some(c as int - 'A' as int + 10)
    else if 'a' <= c <= 'f' then Some(c as int - 'a' as int + 10)
    else if c as int >= 128 then Some(0)
    else None
  }

  // ----- the URL automaton -----

  /** One step of the automaton shared by request parsing and URL splitting. */
  function ParseUrlChar(s: State, ch: char): State {
    if ch == ' ' || ch == CR || ch == LF || ch == '\t' || ch as int == 12 then Dead
    else
      match s
      case ReqSpacesBeforeUrl =>
        if ch == '/' || ch == '*' then ReqPath
        else if IsAlpha(ch) then ReqSchema
        else Dead
      case ReqSchema =>
        if IsAlpha(ch) then ReqSchema
        else if ch == ':' then ReqSchemaSlash
        else Dead
      case ReqSchemaSlash => if ch == '/' then ReqSchemaSlashSlash else Dead
      case ReqSchemaSlashSlash => if ch == '/' then ReqServerStart else Dead
      case ReqServerWithAt => if ch == '@' then Dead else ParseServerChar(ch)
      case ReqServerStart => ParseServerChar(ch)
      case ReqServer => ParseServerChar(ch)
      case ReqPath =>
        if IsUrlChar(ch) then ReqPath
        else if ch == '?' then ReqQueryStringStart
        else if ch == '#' then ReqFragmentStart
        else Dead
      case ReqQueryStringStart => ParseQueryChar(ch)
      case ReqQueryString => ParseQueryChar(ch)
      case ReqFragmentStart =>
        if IsUrlChar(ch) || ch == '?' then ReqFragment
        else if ch == '#' then ReqFragmentStart
        else Dead
      case ReqFragment => if IsUrlChar(ch) || ch == '?' || ch == '#' then ReqFragment else Dead
      case _ => Dead
  }

  function ParseServerChar(ch: char): State {
    if ch == '/' then ReqPath
    else if ch == '?' then ReqQueryStringStart
    else if ch == '@' then ReqServerWithAt
    else if IsUserinfoChar(ch) || ch == '[' || ch == ']' then ReqServer
    else Dead
  }

  function ParseQueryChar(ch: char): State {
    if IsUrlChar(ch) || ch == '?' then ReqQueryString
    else if ch == '#' then ReqFragmentStart
    else Dead
  }

  /** The URL automaton over a whole string. */
  function UrlRun(s: State, url: string): State {
    if url == [] then s else ParseUrlChar(UrlRun(s, url[..|url| - 1]), url[|url| - 1])
  }

  /** The states in which `http_parser_execute` has `url_mark` set between bytes. */
  predicate InUrl(s: State) {
    s.ReqSchema? || s.ReqSchemaSlash? || s.ReqSchemaSlashSlash? || s.ReqServerStart?
    || s.ReqServer? || s.ReqServerWithAt? || s.ReqPath? || s.ReqQueryStringStart?
    || s.ReqQueryString? || s.ReqFragmentStart? || s.ReqFragment?
  }
}
