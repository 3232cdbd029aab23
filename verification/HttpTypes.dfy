/** The data model of the incremental HTTP parser: its states, its record, its events. */
module HttpTypes {
  import opened Bytes

  // ---------------------------------------------------------------- characters

  const TAB: byte := 9
  const LF: byte := 10
  const CR: byte := 13
  const SP: byte := 32
  const HASH: byte := 35
  const STAR: byte := 42
  const COMMA: byte := 44
  const DASH: byte := 45
  const DOT: byte := 46
  const SLASH: byte := 47
  const COLON: byte := 58
  const SEMICOLON: byte := 59
  const QUESTION: byte := 63
  const AT: byte := 64

  /** Bit 5 set: the parser's LOWER macro, which also moves characters that are not letters. */
  function Lower(c: byte): byte {
    if (c / 32) % 2 == 0 then c + 32 else c
  }

  predicate IsAlpha(c: byte) {
    97 <= Lower(c) <= 122
  }

  predicate IsNum(c: byte) {
    48 <= c <= 57
  }

  /** '-' '_' '.' '!' '~' '*' '\'' '(' ')' */
  predicate IsMark(c: byte) {
    c in {45, 95, 46, 33, 126, 42, 39, 40, 41}
  }

  /** Letters, digits, marks and '%' ';' ':' '&' '=' '+' '$' ',' */
  predicate IsUserinfoChar(c: byte) {
    IsAlpha(c) || IsNum(c) || IsMark(c) || c in {37, 59, 58, 38, 61, 43, 36, 44}
  }

  /** The strict-mode bitmap: printable ASCII but for SP, '#' and '?'. */
  predicate IsUrlChar(c: byte) {
    33 <= c <= 126 && c != HASH && c != QUESTION
  }

  predicate IsHeaderChar(c: byte) {
    c == CR || c == LF || c == TAB || (c > 31 && c != 127)
  }

  /** The tokens table: the lower-cased token character, or 0. */
  function Token(c: byte): byte {
    if IsAlpha(c) then Lower(c)
    else if IsNum(c) || c in {33, 35, 36, 37, 38, 39, 42, 43, 45, 46, 94, 95, 96, 124, 126} then c
    else 0
  }

  predicate IsHexChar(c: byte) {
    IsNum(c) || 65 <= c <= 70 || 97 <= c <= 102
  }

  /** The unhex table. Only its first 128 entries are spelled out in the source, so the others
      are zero and every byte from 128 up reads as the digit 0. */
  function Unhex(c: byte): int {
    if IsNum(c) then c - 48
    else if 65 <= c <= 70 then c - 55
    else if 97 <= c <= 102 then c - 87
    else if c >= 128 then 0
    else -1
  }

  // ---------------------------------------------------------------- the parser record

  datatype MessageType = Request | Response | Both

  datatype State =
    | Dead
    | StartReqOrRes | ResOrRespH | StartRes
    | ResH | ResHT | ResHTT | ResHTTP | ResHttpMajor | ResHttpDot | ResHttpMinor | ResHttpEnd
    | ResFirstStatusCode | ResStatusCode | ResStatusStart | ResStatus | ResLineAlmostDone
    | StartReq
    | ReqMethod | ReqSpacesBeforeUrl
    | ReqSchema | ReqSchemaSlash | ReqSchemaSlashSlash
    | ReqServerStart | ReqServer | ReqServerWithAt
    | ReqPath | ReqQueryStringStart | ReqQueryString | ReqFragmentStart | ReqFragment
    | ReqHttpStart | ReqHttpH | ReqHttpHT | ReqHttpHTT | ReqHttpHTTP | ReqHttpI | ReqHttpIC
    | ReqHttpMajor | ReqHttpDot | ReqHttpMinor | ReqHttpEnd | ReqLineAlmostDone
    | HeaderFieldStart | HeaderField
    | HeaderValueDiscardWs | HeaderValueDiscardWsAlmostDone | HeaderValueDiscardLws
    | HeaderValueStart | HeaderValue | HeaderValueLws | HeaderAlmostDone
    | ChunkSizeStart | ChunkSize | ChunkParameters | ChunkSizeAlmostDone
    | HeadersAlmostDone | HeadersDone
    | ChunkData | ChunkDataAlmostDone | ChunkDataDone
    | BodyIdentity | BodyIdentityEof
    | MessageDone

  /** The PARSING_HEADER macro: every state up to s_headers_done in the enum's order. */
  predicate ParsingHeader(s: State) {
    !(s.ChunkData? || s.ChunkDataAlmostDone? || s.ChunkDataDone? || s.BodyIdentity?
      || s.BodyIdentityEof? || s.MessageDone?)
  }

  datatype HeaderState =
    | General
    | HC | HCO | HCON
    | MatchingConnection | MatchingProxyConnection | MatchingContentLength
    | MatchingTransferEncoding | MatchingUpgrade
    | Connection | ContentLength | ContentLengthNum | ContentLengthWs | TransferEncoding | Upgrade
    | MatchingChunked
    | MatchingTokenStart | MatchingKeepAlive | MatchingClose | MatchingConnUpgrade | MatchingToken
    | Chunked | ConnKeepAlive | ConnClose | ConnUpgrade

  /** The eight bits of the flags field. */
  datatype Flags = Flags(
    chunked: bool, keepAlive: bool, close: bool, connUpgrade: bool,
    trailing: bool, upgrade: bool, skipBody: bool, contentLength: bool)

  const NO_FLAGS := Flags(false, false, false, false, false, false, false, false)

  datatype Errno =
    | Ok
    | CbHeadersComplete
    | InvalidEofState | HeaderOverflow | ClosedConnection | InvalidVersion | InvalidStatus
    | InvalidMethod | InvalidUrl | LfExpected | InvalidHeaderToken | InvalidContentLength
    | UnexpectedContentLength | InvalidChunkSize | InvalidConstant | InvalidInternalState | Strict

  datatype Parser = Parser(
    kind: MessageType, flags: Flags, state: State, hstate: HeaderState,
    index: nat,          // seven bits
    nread: nat,          // thirty-two bits
    contentLength: nat,  // sixty-four bits; all ones stands for "no length known"
    major: nat, minor: nat, statusCode: nat, methodId: nat,
    errno: Errno, upgrade: bool)

  const NO_LENGTH: nat := UINT64_SPAN - 1

  // ---------------------------------------------------------------- what the embedder sees

  datatype DataKind = Url | Status | Field | Value | Body

  datatype NotifyKind = MessageBegin | HeadersComplete | MessageComplete | ChunkHeader | ChunkComplete

  /** The beginning of a piece of data, one delivered byte of it, or one notification together with the record the
      callback can read. A piece may be empty. The nread member of the record is private to the parser and masked. */
  datatype Event =
    | Begin(kind: DataKind)
    | Data(kind: DataKind, b: byte)
    | Notified(what: NotifyKind, seen: Parser)

  /** One call into the embedder. */
  datatype Callback =
    | DataCall(kind: DataKind, bytes: seq<byte>)
    | NotifyCall(what: NotifyKind, seen: Parser)

  /** What stays fixed over the life of a parser: the header limit, the lenient bit and the
      embedder's on_headers_complete verdict (the other callbacks return 0). */
  datatype Config = Config(maxHeader: nat, lenient: bool, onHeadersComplete: Parser -> int)

  /** What the embedder is shown. The count is private; so is the state, which the source has not stored
      yet when it calls on_headers_complete: the record shown there has the state HeadersDone, whatever
      was stored before, and no verdict can depend on where the input was cut. */
  function Seen(p: Parser): Parser {
    p.(nread := 0)
  }

  // ---------------------------------------------------------------- one turn of the switch

  /** How a turn of the switch ends: on to the next byte, the same byte again, the early
      return of an upgraded connection, or the error exit. */
  datatype Control = Next | Again | Exit | Fail(e: Errno)

  /** The record after the turn, then in order: the mark it sets, the mark it delivers, the
      notification it sends, and how it ends. */
  datatype Outcome = Outcome(
    p: Parser, mark: Option<DataKind>, flush: Option<DataKind>, note: seq<Event>, ctl: Control)

  // ---------------------------------------------------------------- pure predicates on the record

  /** http_message_needs_eof */
  predicate NeedsEof(p: Parser) {
    !p.kind.Request?
    && !(p.statusCode / 100 == 1 || p.statusCode == 204 || p.statusCode == 304 || p.flags.skipBody)
    && !p.flags.chunked && p.contentLength == NO_LENGTH
  }

  /** http_should_keep_alive */
  predicate ShouldKeepAlive(p: Parser) {
    && (if p.major > 0 && p.minor > 0 then !p.flags.close else p.flags.keepAlive)
    && !NeedsEof(p)
  }

  /** The strict-mode NEW_MESSAGE macro. */
  function NewMessage(p: Parser): State {
    if !ShouldKeepAlive(p) then Dead
    else if p.kind.Request? then StartReq
    else StartRes
  }

  const METHOD_COUNT: nat := 34

  /** The method table, in the order of the enum. */
  function MethodWord(m: nat): (word: string)
    ensures m < METHOD_COUNT ==> 3 <= |word| <= 11
  {
    match m
    case 0 => "DELETE"
    case 1 => "GET"
    case 2 => "HEAD"
    case 3 => "POST"
    case 4 => "PUT"
    case 5 => "CONNECT"
    case 6 => "OPTIONS"
    case 7 => "TRACE"
    case 8 => "COPY"
    case 9 => "LOCK"
    case 10 => "MKCOL"
    case 11 => "MOVE"
    case 12 => "PROPFIND"
    case 13 => "PROPPATCH"
    case 14 => "SEARCH"
    case 15 => "UNLOCK"
    case 16 => "BIND"
    case 17 => "REBIND"
    case 18 => "UNBIND"
    case 19 => "ACL"
    case 20 => "REPORT"
    case 21 => "MKACTIVITY"
    case 22 => "CHECKOUT"
    case 23 => "MERGE"
    case 24 => "M-SEARCH"
    case 25 => "NOTIFY"
    case 26 => "SUBSCRIBE"
    case 27 => "UNSUBSCRIBE"
    case 28 => "PATCH"
    case 29 => "PURGE"
    case 30 => "MKCALENDAR"
    case 31 => "LINK"
    case 32 => "UNLINK"
    case 33 => "SOURCE"
    case _ => ""
  }

  const CONNECT_METHOD: nat := 5
  const HEAD_METHOD: nat := 2
  const SOURCE_METHOD: nat := 33
}
