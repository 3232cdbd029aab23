/** One turn of the parser's switch, for one byte in one state, in strict mode. The states that the
    source handles with an inner loop appear here as they behave on a single byte; module
    HttpExecute has the loops. */
module HttpStep {
  import opened Bytes
  import opened HttpTypes

  // ---------------------------------------------------------------- ways a turn ends

  function Stay(p: Parser): Outcome {
    Outcome(p, None, None, [], Next)
  }

  function Go(p: Parser, s: State): Outcome {
    Stay(p.(state := s))
  }

  function Redo(p: Parser, s: State): Outcome {
    Outcome(p.(state := s), None, None, [], Again)
  }

  function Bad(p: Parser, e: Errno): Outcome
    requires e != Ok
  {
    Outcome(p.(errno := e), None, None, [], Fail(e))
  }

  /** STRICT_CHECK followed by a plain change of state. */
  function Expect(p: Parser, ok: bool, s: State): Outcome {
    if ok then Go(p, s) else Bad(p, Strict)
  }

  /** UPDATE_STATE and a notification. */
  function Announce(p: Parser, s: State, what: NotifyKind): Outcome {
    var q := p.(state := s);
    Outcome(q, None, None, [Notified(what, Seen(q))], Next)
  }

  /** UPDATE_STATE and the delivery of a mark, without the current byte. */
  function Deliver(p: Parser, s: State, kind: DataKind): Outcome {
    Outcome(p.(state := s), None, Some(kind), [], Next)
  }

  // ---------------------------------------------------------------- start of a message

  function Fresh(p: Parser): Parser {
    p.(flags := NO_FLAGS, contentLength := NO_LENGTH)
  }

  /** The method guessed from the first letter of the request. */
  function FirstMethod(ch: byte): Option<nat> {
    match ch
    case 65 => Some(19)  // ACL
    case 66 => Some(16)  // BIND
    case 67 => Some(5)   // CONNECT
    case 68 => Some(0)   // DELETE
    case 71 => Some(1)   // GET
    case 72 => Some(2)   // HEAD
    case 76 => Some(9)   // LOCK
    case 77 => Some(10)  // MKCOL
    case 78 => Some(25)  // NOTIFY
    case 79 => Some(6)   // OPTIONS
    case 80 => Some(3)   // POST
    case 82 => Some(20)  // REPORT
    case 83 => Some(26)  // SUBSCRIBE
    case 84 => Some(7)   // TRACE
    case 85 => Some(15)  // UNLOCK
    case _ => None
  }

  function StepStart(p: Parser, ch: byte): Outcome {
    match p.state
    case Dead =>
      if ch == CR || ch == LF then Stay(p) else Bad(p, ClosedConnection)
    case StartReqOrRes =>
      if ch == CR || ch == LF then Stay(p)
      else if ch == 72 then Announce(Fresh(p), ResOrRespH, MessageBegin)
      else Redo(Fresh(p).(kind := Request), StartReq)
    case ResOrRespH =>
      if ch == 84 then Go(p.(kind := Response), ResHT)
      else if ch != 69 then Bad(p, InvalidConstant)
      else Go(p.(kind := Request, methodId := HEAD_METHOD, index := 2), ReqMethod)
    case StartRes =>
      if ch == CR || ch == LF then Stay(p)
      else if ch == 72 then Announce(Fresh(p), ResH, MessageBegin)
      else Bad(Fresh(p), InvalidConstant)
    case _ =>  // StartReq
      if ch == CR || ch == LF then Stay(p)
      else if !IsAlpha(ch) then Bad(Fresh(p), InvalidMethod)
      else match FirstMethod(ch)
        case None => Bad(Fresh(p).(methodId := 0, index := 1), InvalidMethod)
        case Some(m) => Announce(Fresh(p).(methodId := m, index := 1), ReqMethod, MessageBegin)
  }

  // ---------------------------------------------------------------- status line

  function StepStatusLine(p: Parser, ch: byte): Outcome {
    match p.state
    case ResH => Expect(p, ch == 84, ResHT)
    case ResHT => Expect(p, ch == 84, ResHTT)
    case ResHTT => Expect(p, ch == 80, ResHTTP)
    case ResHTTP => Expect(p, ch == SLASH, ResHttpMajor)
    case ResHttpMajor =>
      if !IsNum(ch) then Bad(p, InvalidVersion) else Go(p.(major := ch - 48), ResHttpDot)
    case ResHttpDot =>
      if ch != DOT then Bad(p, InvalidVersion) else Go(p, ResHttpMinor)
    case ResHttpMinor =>
      if !IsNum(ch) then Bad(p, InvalidVersion) else Go(p.(minor := ch - 48), ResHttpEnd)
    case ResHttpEnd =>
      if ch != SP then Bad(p, InvalidVersion) else Go(p, ResFirstStatusCode)
    case ResFirstStatusCode =>
      if IsNum(ch) then Go(p.(statusCode := ch - 48), ResStatusCode)
      else if ch == SP then Stay(p)
      else Bad(p, InvalidStatus)
    case ResStatusCode =>
      if IsNum(ch) then
        var q := p.(statusCode := (p.statusCode * 10 + ch - 48) % UINT16_SPAN);
        if q.statusCode > 999 then Bad(q, InvalidStatus) else Stay(q)
      else if ch == SP then Go(p, ResStatusStart)
      else if ch == CR || ch == LF then Redo(p, ResStatusStart)
      else Bad(p, InvalidStatus)
    case ResStatusStart =>
      var q := p.(state := ResStatus, index := 0);
      Outcome(q, Some(Status), None, [], if ch == CR || ch == LF then Again else Next)
    case ResStatus =>
      if ch == CR then Deliver(p, ResLineAlmostDone, Status)
      else if ch == LF then Deliver(p, HeaderFieldStart, Status)
      else Stay(p)
    case _ =>  // ResLineAlmostDone
      Expect(p, ch == LF, HeaderFieldStart)
  }

  // ---------------------------------------------------------------- request method

  /** The switch on (method, index, byte) that turns one guess into another. */
  function NextMethod(methodId: nat, index: nat, ch: byte): Option<nat> {
    match (methodId, index, ch)
    case (3, 1, 85) => Some(4)     // POST -> PUT
    case (3, 1, 65) => Some(28)    // POST -> PATCH
    case (3, 1, 82) => Some(12)    // POST -> PROPFIND
    case (4, 2, 82) => Some(29)    // PUT -> PURGE
    case (5, 1, 72) => Some(22)    // CONNECT -> CHECKOUT
    case (5, 2, 80) => Some(8)     // CONNECT -> COPY
    case (10, 1, 79) => Some(11)   // MKCOL -> MOVE
    case (10, 1, 69) => Some(23)   // MKCOL -> MERGE
    case (10, 1, 45) => Some(24)   // MKCOL -> M-SEARCH
    case (10, 2, 65) => Some(21)   // MKCOL -> MKACTIVITY
    case (10, 3, 65) => Some(30)   // MKCOL -> MKCALENDAR
    case (26, 1, 69) => Some(14)   // SUBSCRIBE -> SEARCH
    case (26, 1, 79) => Some(33)   // SUBSCRIBE -> SOURCE
    case (20, 2, 66) => Some(17)   // REPORT -> REBIND
    case (12, 4, 80) => Some(13)   // PROPFIND -> PROPPATCH
    case (9, 1, 73) => Some(31)    // LOCK -> LINK
    case (15, 2, 83) => Some(27)   // UNLOCK -> UNSUBSCRIBE
    case (15, 2, 66) => Some(18)   // UNLOCK -> UNBIND
    case (15, 3, 73) => Some(32)   // UNLOCK -> UNLINK
    case _ => None
  }

  /** Advances the seven-bit index. */
  function Bump(index: nat): nat {
    (index + 1) % 128
  }

  function StepMethod(p: Parser, ch: byte): Outcome {
    var word := MethodWord(p.methodId);
    if ch == 0 then Bad(p, InvalidMethod)
    else if ch == SP && p.index == |word| then Go(p.(index := Bump(p.index)), ReqSpacesBeforeUrl)
    else if p.index < |word| && ch == word[p.index] as int then Stay(p.(index := Bump(p.index)))
    else if 65 <= ch <= 90 || ch == DASH then
      match NextMethod(p.methodId, p.index, ch)
      case None => Bad(p, InvalidMethod)
      case Some(m) => Stay(p.(methodId := m, index := Bump(p.index)))
    else Bad(p, InvalidMethod)
  }

  // ---------------------------------------------------------------- request target

  /** parse_url_char; Dead stands for a byte that cannot continue the URL. */
  function ParseUrlChar(s: State, ch: byte): State {
    if ch == SP || ch == CR || ch == LF || ch == TAB || ch == 12 then Dead
    else match s
      case ReqSpacesBeforeUrl =>
        if ch == SLASH || ch == STAR then ReqPath
        else if IsAlpha(ch) then ReqSchema
        else Dead
      case ReqSchema =>
        if IsAlpha(ch) then ReqSchema else if ch == COLON then ReqSchemaSlash else Dead
      case ReqSchemaSlash =>
        if ch == SLASH then ReqSchemaSlashSlash else Dead
      case ReqSchemaSlashSlash =>
        if ch == SLASH then ReqServerStart else Dead
      case ReqServerWithAt =>
        if ch == AT then Dead else ParseServerChar(ch)
      case ReqServerStart => ParseServerChar(ch)
      case ReqServer => ParseServerChar(ch)
      case ReqPath =>
        if IsUrlChar(ch) then ReqPath
        else if ch == QUESTION then ReqQueryStringStart
        else if ch == HASH then ReqFragmentStart
        else Dead
      case ReqQueryStringStart => ParseQueryChar(ch)
      case ReqQueryString => ParseQueryChar(ch)
      case ReqFragmentStart =>
        if IsUrlChar(ch) || ch == QUESTION then ReqFragment
        else if ch == HASH then ReqFragmentStart
        else Dead
      case ReqFragment =>
        if IsUrlChar(ch) || ch == QUESTION || ch == HASH then ReqFragment else Dead
      case _ => Dead
  }

  function ParseServerChar(ch: byte): State {
    if ch == SLASH then ReqPath
    else if ch == QUESTION then ReqQueryStringStart
    else if ch == AT then ReqServerWithAt
    else if IsUserinfoChar(ch) || ch == 91 || ch == 93 then ReqServer
    else Dead
  }

  function ParseQueryChar(ch: byte): State {
    if IsUrlChar(ch) || ch == QUESTION then ReqQueryString
    else if ch == HASH then ReqFragmentStart
    else Dead
  }

  /** UPDATE_STATE(parse_url_char(...)) with its error exit. */
  function UrlOutcome(p: Parser, s: State, mark: Option<DataKind>): Outcome {
    if s.Dead? then Bad(p.(state := Dead), InvalidUrl)
    else Outcome(p.(state := s), mark, None, [], Next)
  }

  function StepUrl(p: Parser, ch: byte): Outcome {
    match p.state
    case ReqSpacesBeforeUrl =>
      if ch == SP then Stay(p)
      else UrlOutcome(
             p, ParseUrlChar(if p.methodId == CONNECT_METHOD then ReqServerStart else p.state, ch), Some(Url))
    case ReqSchema => StepUrlHead(p, ch)
    case ReqSchemaSlash => StepUrlHead(p, ch)
    case ReqSchemaSlashSlash => StepUrlHead(p, ch)
    case ReqServerStart => StepUrlHead(p, ch)
    case _ =>
      if ch == SP then Deliver(p, ReqHttpStart, Url)
      else if ch == CR || ch == LF then
        Deliver(p.(major := 0, minor := 9), if ch == CR then ReqLineAlmostDone else HeaderFieldStart, Url)
      else UrlOutcome(p, ParseUrlChar(p.state, ch), None)
  }

  function StepUrlHead(p: Parser, ch: byte): Outcome {
    if ch == SP || ch == CR || ch == LF then Bad(p, InvalidUrl)
    else UrlOutcome(p, ParseUrlChar(p.state, ch), None)
  }

  // ---------------------------------------------------------------- request version

  function StepVersion(p: Parser, ch: byte): Outcome {
    match p.state
    case ReqHttpStart =>
      if ch == SP then Stay(p)
      else if ch == 72 then Go(p, ReqHttpH)
      else if ch == 73 && p.methodId == SOURCE_METHOD then Go(p, ReqHttpI)
      else Bad(p, InvalidConstant)
    case ReqHttpH => Expect(p, ch == 84, ReqHttpHT)
    case ReqHttpHT => Expect(p, ch == 84, ReqHttpHTT)
    case ReqHttpHTT => Expect(p, ch == 80, ReqHttpHTTP)
    case ReqHttpI => Expect(p, ch == 67, ReqHttpIC)
    case ReqHttpIC => Expect(p, ch == 69, ReqHttpHTTP)
    case ReqHttpHTTP => Expect(p, ch == SLASH, ReqHttpMajor)
    case ReqHttpMajor =>
      if !IsNum(ch) then Bad(p, InvalidVersion) else Go(p.(major := ch - 48), ReqHttpDot)
    case ReqHttpDot =>
      if ch != DOT then Bad(p, InvalidVersion) else Go(p, ReqHttpMinor)
    case ReqHttpMinor =>
      if !IsNum(ch) then Bad(p, InvalidVersion) else Go(p.(minor := ch - 48), ReqHttpEnd)
    case ReqHttpEnd =>
      if ch == CR then Go(p, ReqLineAlmostDone)
      else if ch == LF then Go(p, HeaderFieldStart)
      else Bad(p, InvalidVersion)
    case _ =>  // ReqLineAlmostDone
      if ch != LF then Bad(p, LfExpected) else Go(p, HeaderFieldStart)
  }

  // ---------------------------------------------------------------- header names

  /** The keyword a name-matching state is comparing with. */
  function NameKeyword(h: HeaderState): string {
    match h
    case MatchingConnection => "connection"
    case MatchingProxyConnection => "proxy-connection"
    case MatchingContentLength => "content-length"
    case MatchingTransferEncoding => "transfer-encoding"
    case MatchingUpgrade => "upgrade"
    case _ => ""
  }

  /** The state that announces the keyword of h. */
  function NameFound(h: HeaderState): HeaderState {
    match h
    case MatchingConnection => Connection
    case MatchingProxyConnection => Connection
    case MatchingContentLength => ContentLength
    case MatchingTransferEncoding => TransferEncoding
    case _ => Upgrade
  }

  /** One comparison with keyword[index + 1]. */
  function NameMatch(p: Parser, c: byte): Parser {
    var word := NameKeyword(p.hstate);
    var i := Bump(p.index);
    if i >= |word| || c != word[i] as int then p.(index := i, hstate := General)
    else if i == |word| - 1 then p.(index := i, hstate := NameFound(p.hstate))
    else p.(index := i)
  }

  /** The inner switch of s_header_field on the token c of a byte that is part of the name. */
  function NameStep(p: Parser, c: byte): Parser {
    match p.hstate
    case General => p
    case HC => p.(index := Bump(p.index), hstate := if c == 111 then HCO else General)
    case HCO => p.(index := Bump(p.index), hstate := if c == 110 then HCON else General)
    case HCON =>
      p.(index := Bump(p.index),
         hstate := if c == 110 then MatchingConnection else if c == 116 then MatchingContentLength else General)
    case MatchingConnection => NameMatch(p, c)
    case MatchingProxyConnection => NameMatch(p, c)
    case MatchingContentLength => NameMatch(p, c)
    case MatchingTransferEncoding => NameMatch(p, c)
    case MatchingUpgrade => NameMatch(p, c)
    case _ => p.(hstate := General)  // a keyword followed by another token character
  }

  function FirstNameState(c: byte): HeaderState {
    if c == 99 then HC
    else if c == 112 then MatchingProxyConnection
    else if c == 116 then MatchingTransferEncoding
    else if c == 117 then MatchingUpgrade
    else General
  }

  function StepName(p: Parser, ch: byte): Outcome {
    match p.state
    case HeaderFieldStart =>
      if ch == CR then Go(p, HeadersAlmostDone)
      else if ch == LF then Redo(p, HeadersAlmostDone)
      else if Token(ch) == 0 then Bad(p, InvalidHeaderToken)
      else Outcome(p.(state := HeaderField, index := 0, hstate := FirstNameState(Token(ch))),
                   Some(Field), None, [], Next)
    case _ =>  // HeaderField
      if Token(ch) != 0 then Stay(NameStep(p, Token(ch)))
      else if ch == COLON then Deliver(p, HeaderValueDiscardWs, Field)
      else Bad(p, InvalidHeaderToken)
  }

  // ---------------------------------------------------------------- header values

  function ValueKeyword(h: HeaderState): string {
    match h
    case MatchingChunked => "chunked"
    case MatchingKeepAlive => "keep-alive"
    case MatchingClose => "close"
    case MatchingConnUpgrade => "upgrade"
    case _ => ""
  }

  function ValueFound(h: HeaderState): HeaderState {
    match h
    case MatchingChunked => Chunked
    case MatchingKeepAlive => ConnKeepAlive
    case MatchingClose => ConnClose
    case _ => ConnUpgrade
  }

  /** One comparison with keyword[index + 1]; a mismatch falls back to the state miss. */
  function ValueMatch(p: Parser, c: byte, miss: HeaderState): Parser {
    var word := ValueKeyword(p.hstate);
    var i := Bump(p.index);
    if i >= |word| || c != word[i] as int then p.(index := i, hstate := miss)
    else if i == |word| - 1 then p.(index := i, hstate := ValueFound(p.hstate))
    else p.(index := i)
  }

  /** The flag that a completed header raises. */
  function RaiseFlag(f: Flags, h: HeaderState): Flags {
    match h
    case ConnKeepAlive => f.(keepAlive := true)
    case ConnClose => f.(close := true)
    case ConnUpgrade => f.(connUpgrade := true)
    case Chunked => f.(chunked := true)
    case _ => f
  }

  datatype Accumulated = Fits(v: nat) | Overflow

  /** The multiply-and-add of both length accumulators on 64-bit words, behind the guard the
      source puts on the value before the step. */
  function Accumulate(base: nat, v: nat, digit: nat): Accumulated
    requires base == 10 || base == 16
  {
    var t := (v * base + digit) % UINT64_SPAN;
    if (UINT64_SPAN - 1 - base) / base < v then Overflow else Fits(t)
  }

  /** The inner switch of s_header_value on a byte that is neither CR, LF nor invalid. */
  function ValueStep(p: Parser, ch: byte): Outcome {
    var c := Lower(ch);
    match p.hstate
    case ContentLength =>
      if ch == SP then Stay(p) else LengthStep(p.(hstate := ContentLengthNum), ch)
    case ContentLengthNum => LengthStep(p, ch)
    case ContentLengthWs =>
      if ch == SP then Stay(p) else Bad(p, InvalidContentLength)
    case MatchingChunked => Stay(ValueMatch(p, c, General))
    case MatchingTokenStart =>
      Stay(p.(hstate :=
        if c == 107 then MatchingKeepAlive
        else if c == 99 then MatchingClose
        else if c == 117 then MatchingConnUpgrade
        else if Token(c) != 0 then MatchingToken
        else if c == SP || c == TAB then MatchingTokenStart
        else General))
    case MatchingKeepAlive => Stay(ValueMatch(p, c, MatchingToken))
    case MatchingClose => Stay(ValueMatch(p, c, MatchingToken))
    case MatchingConnUpgrade => Stay(ValueMatch(p, c, MatchingToken))
    case MatchingToken =>
      if ch == COMMA then Stay(p.(hstate := MatchingTokenStart, index := 0)) else Stay(p)
    case Chunked =>
      if ch != SP then Stay(p.(hstate := General)) else Stay(p)
    case ConnKeepAlive => Stay(TokenEnd(p, ch))
    case ConnClose => Stay(TokenEnd(p, ch))
    case ConnUpgrade => Stay(TokenEnd(p, ch))
    case _ => Stay(p.(hstate := General))
  }

  function LengthStep(p: Parser, ch: byte): Outcome {
    if ch == SP then Stay(p.(hstate := ContentLengthWs))
    else if !IsNum(ch) then Bad(p, InvalidContentLength)
    else match Accumulate(10, p.contentLength, ch - 48)
      case Overflow => Bad(p, InvalidContentLength)
      case Fits(t) => Stay(p.(contentLength := t))
  }

  function TokenEnd(p: Parser, ch: byte): Parser {
    if ch == COMMA then p.(flags := RaiseFlag(p.flags, p.hstate), hstate := MatchingTokenStart, index := 0)
    else if ch != SP then p.(hstate := MatchingToken)
    else p
  }

  /** s_header_value_start: the first byte of a value. */
  function StartValue(p: Parser, ch: byte): Outcome {
    var q := p.(state := HeaderValue, index := 0);
    var c := Lower(ch);
    var first := (r: Parser) => Outcome(r, Some(Value), None, [], Next);
    match p.hstate
    case Upgrade => first(q.(flags := q.flags.(upgrade := true), hstate := General))
    case TransferEncoding => first(q.(hstate := if c == 99 then MatchingChunked else General))
    case ContentLength =>
      if !IsNum(ch) then Bad(q, InvalidContentLength)
      else if q.flags.contentLength then Bad(q, UnexpectedContentLength)
      else first(q.(flags := q.flags.(contentLength := true), contentLength := ch - 48,
                    hstate := ContentLengthNum))
    case ContentLengthWs => first(q)
    case Connection =>
      first(q.(hstate :=
        if c == 107 then MatchingKeepAlive
        else if c == 99 then MatchingClose
        else if c == 117 then MatchingConnUpgrade
        else MatchingToken))
    case MatchingTokenStart => first(q)
    case _ => first(q.(hstate := General))
  }

  function StepValue(cfg: Config, p: Parser, ch: byte): Outcome {
    match p.state
    case HeaderValueDiscardWs =>
      if ch == SP || ch == TAB then Stay(p)
      else if ch == CR then Go(p, HeaderValueDiscardWsAlmostDone)
      else if ch == LF then Go(p, HeaderValueDiscardLws)
      else StartValue(p, ch)
    case HeaderValueStart => StartValue(p, ch)
    case HeaderValue =>
      if ch == CR then Deliver(p, HeaderAlmostDone, Value)
      else if ch == LF then Outcome(p.(state := HeaderAlmostDone), None, Some(Value), [], Again)
      else if !cfg.lenient && !IsHeaderChar(ch) then Bad(p, InvalidHeaderToken)
      else ValueStep(p, ch)
    case HeaderAlmostDone =>
      if ch != LF then Bad(p, LfExpected) else Go(p, HeaderValueLws)
    case HeaderValueLws =>
      if ch == SP || ch == TAB then
        Redo(if p.hstate.ContentLengthNum? then p.(hstate := ContentLengthWs) else p, HeaderValueStart)
      else Redo(p.(flags := RaiseFlag(p.flags, p.hstate)), HeaderFieldStart)
    case HeaderValueDiscardWsAlmostDone =>
      Expect(p, ch == LF, HeaderValueDiscardLws)
    case _ =>  // HeaderValueDiscardLws
      if ch == SP || ch == TAB then Go(p, HeaderValueDiscardWs)
      else if p.hstate.ContentLength? then Bad(p, InvalidContentLength)
      else Outcome(p.(flags := RaiseFlag(p.flags, p.hstate), state := HeaderFieldStart),
                   Some(Value), Some(Value), [], Again)
  }

  // ---------------------------------------------------------------- end of the headers

  /** The record on_headers_complete sees. */
  function HeadersSeen(p: Parser): Parser {
    p.(state := HeadersDone,
       upgrade := if p.flags.upgrade && p.flags.connUpgrade
                  then p.kind.Request? || p.statusCode == 101
                  else p.methodId == CONNECT_METHOD)
  }

  function StepHeadersEnd(cfg: Config, p: Parser, ch: byte): Outcome {
    if ch != LF then Bad(p, Strict)
    else if p.flags.trailing then
      Announce(p, MessageDone, ChunkComplete).(ctl := Again)
    else if p.flags.chunked && p.flags.contentLength then Bad(p, UnexpectedContentLength)
    else
      var q := HeadersSeen(p);
      var note := [Notified(HeadersComplete, Seen(q))];
      var verdict := cfg.onHeadersComplete(Seen(q));
      var skipped := q.(flags := q.flags.(skipBody := true));
      if verdict == 0 then Outcome(q, None, None, note, Again)
      else if verdict == 1 then Outcome(skipped, None, None, note, Again)
      else if verdict == 2 then Outcome(skipped.(upgrade := true), None, None, note, Again)
      else Outcome(q.(errno := CbHeadersComplete), None, None, note, Fail(CbHeadersComplete))
  }

  predicate HasBody(p: Parser) {
    p.flags.chunked || (p.contentLength > 0 && p.contentLength != NO_LENGTH)
  }

  function EndMessage(p: Parser): Outcome {
    Announce(p, NewMessage(p), MessageComplete)
  }

  function StepHeadersDone(p: Parser, ch: byte): Outcome {
    if ch != LF then Bad(p, Strict)
    else
      var q := p.(nread := 0);
      if q.upgrade && (q.methodId == CONNECT_METHOD || q.flags.skipBody || !HasBody(q)) then
        EndMessage(q).(ctl := Exit)
      else if q.flags.skipBody then EndMessage(q)
      else if q.flags.chunked then Go(q, ChunkSizeStart)
      else if q.contentLength == 0 then EndMessage(q)
      else if q.contentLength != NO_LENGTH then Go(q, BodyIdentity)
      else if !NeedsEof(q) then EndMessage(q)
      else Go(q, BodyIdentityEof)
  }

  // ---------------------------------------------------------------- bodies

  /** One byte of a body of known length. */
  function Consume(p: Parser, n: nat): Parser {
    p.(contentLength := if n <= p.contentLength then p.contentLength - n else 0)
  }

  function StepBody(p: Parser, ch: byte): Outcome {
    match p.state
    case BodyIdentity =>
      var q := Consume(p, 1);
      if q.contentLength == 0 then Redo(q, MessageDone) else Stay(q)
    case BodyIdentityEof => Stay(p)
    case MessageDone =>
      EndMessage(p).(ctl := if p.upgrade then Exit else Next)
    case _ =>  // ChunkData
      var q := Consume(p, 1);
      if q.contentLength == 0 then Go(q, ChunkDataAlmostDone) else Stay(q)
  }

  function StepChunk(p: Parser, ch: byte): Outcome {
    match p.state
    case ChunkSizeStart =>
      if Unhex(ch) == -1 then Bad(p, InvalidChunkSize)
      else Go(p.(contentLength := Unhex(ch)), ChunkSize)
    case ChunkSize =>
      if ch == CR then Go(p, ChunkSizeAlmostDone)
      else if Unhex(ch) == -1 then
        if ch == SEMICOLON || ch == SP then Go(p, ChunkParameters) else Bad(p, InvalidChunkSize)
      else (match Accumulate(16, p.contentLength, Unhex(ch))
            case Overflow => Bad(p, InvalidContentLength)
            case Fits(t) => Stay(p.(contentLength := t)))
    case ChunkParameters =>
      if ch == CR then Go(p, ChunkSizeAlmostDone) else Stay(p)
    case ChunkSizeAlmostDone =>
      if ch != LF then Bad(p, Strict)
      else if p.contentLength == 0 then
        Announce(p.(nread := 0, flags := p.flags.(trailing := true)), HeaderFieldStart, ChunkHeader)
      else Announce(p.(nread := 0), ChunkData, ChunkHeader)
    case ChunkDataAlmostDone =>
      if ch != CR then Bad(p, Strict) else Deliver(p, ChunkDataDone, Body)
    case _ =>  // ChunkDataDone
      if ch != LF then Bad(p, Strict) else Announce(p.(nread := 0), ChunkSizeStart, ChunkComplete)
  }

  // ---------------------------------------------------------------- the switch

  datatype Phase =
    | PStart | PStatusLine | PMethod | PUrl | PVersion | PName | PValue | PHeadersEnd | PHeadersDone
    | PBody | PChunk

  function PhaseOf(s: State): Phase {
    match s
    case Dead => PStart
    case StartReqOrRes => PStart
    case ResOrRespH => PStart
    case StartRes => PStart
    case StartReq => PStart
    case ResH => PStatusLine
    case ResHT => PStatusLine
    case ResHTT => PStatusLine
    case ResHTTP => PStatusLine
    case ResHttpMajor => PStatusLine
    case ResHttpDot => PStatusLine
    case ResHttpMinor => PStatusLine
    case ResHttpEnd => PStatusLine
    case ResFirstStatusCode => PStatusLine
    case ResStatusCode => PStatusLine
    case ResStatusStart => PStatusLine
    case ResStatus => PStatusLine
    case ResLineAlmostDone => PStatusLine
    case ReqMethod => PMethod
    case ReqSpacesBeforeUrl => PUrl
    case ReqSchema => PUrl
    case ReqSchemaSlash => PUrl
    case ReqSchemaSlashSlash => PUrl
    case ReqServerStart => PUrl
    case ReqServer => PUrl
    case ReqServerWithAt => PUrl
    case ReqPath => PUrl
    case ReqQueryStringStart => PUrl
    case ReqQueryString => PUrl
    case ReqFragmentStart => PUrl
    case ReqFragment => PUrl
    case ReqHttpStart => PVersion
    case ReqHttpH => PVersion
    case ReqHttpHT => PVersion
    case ReqHttpHTT => PVersion
    case ReqHttpHTTP => PVersion
    case ReqHttpI => PVersion
    case ReqHttpIC => PVersion
    case ReqHttpMajor => PVersion
    case ReqHttpDot => PVersion
    case ReqHttpMinor => PVersion
    case ReqHttpEnd => PVersion
    case ReqLineAlmostDone => PVersion
    case HeaderFieldStart => PName
    case HeaderField => PName
    case HeaderValueDiscardWs => PValue
    case HeaderValueDiscardWsAlmostDone => PValue
    case HeaderValueDiscardLws => PValue
    case HeaderValueStart => PValue
    case HeaderValue => PValue
    case HeaderValueLws => PValue
    case HeaderAlmostDone => PValue
    case ChunkSizeStart => PChunk
    case ChunkSize => PChunk
    case ChunkParameters => PChunk
    case ChunkSizeAlmostDone => PChunk
    case HeadersAlmostDone => PHeadersEnd
    case HeadersDone => PHeadersDone
    case ChunkData => PBody
    case ChunkDataAlmostDone => PChunk
    case ChunkDataDone => PChunk
    case BodyIdentity => PBody
    case BodyIdentityEof => PBody
    case MessageDone => PBody
  }

  function StepOnce(cfg: Config, p: Parser, ch: byte): Outcome {
    match PhaseOf(p.state)
    case PStart => StepStart(p, ch)
    case PStatusLine => StepStatusLine(p, ch)
    case PMethod => StepMethod(p, ch)
    case PUrl => StepUrl(p, ch)
    case PVersion => StepVersion(p, ch)
    case PName => StepName(p, ch)
    case PValue => StepValue(cfg, p, ch)
    case PHeadersEnd => StepHeadersEnd(cfg, p, ch)
    case PHeadersDone => StepHeadersDone(p, ch)
    case PBody => StepBody(p, ch)
    case PChunk => StepChunk(p, ch)
  }

  // ---------------------------------------------------------------- termination of goto reexecute

  /** Strictly smaller after every jump back to the switch. */
  function Rank(s: State): nat {
    match s
    case ResStatusCode => 2
    case ResStatusStart => 1
    case StartReqOrRes => 1
    case HeaderValue => 1
    case HeaderValueLws => 5
    case HeaderValueDiscardLws => 5
    case HeaderFieldStart => 4
    case HeadersAlmostDone => 3
    case HeadersDone => 1
    case BodyIdentity => 1
    case _ => 0
  }

  // ---------------------------------------------------------------- which data is pending where

  /** The kind of data whose mark can be set between two bytes. */
  function LiveKind(s: State): Option<DataKind> {
    if s.ChunkData? || s.ChunkDataAlmostDone? || s.BodyIdentity? || s.BodyIdentityEof? then Some(Body)
    else StrictKind(s)
  }

  /** The kind of data whose mark must be set between two bytes: the list of states that
      http_parser_execute re-marks when it is entered. */
  function StrictKind(s: State): Option<DataKind> {
    match s
    case ReqPath => Some(Url)
    case ReqSchema => Some(Url)
    case ReqSchemaSlash => Some(Url)
    case ReqSchemaSlashSlash => Some(Url)
    case ReqServerStart => Some(Url)
    case ReqServer => Some(Url)
    case ReqServerWithAt => Some(Url)
    case ReqQueryStringStart => Some(Url)
    case ReqQueryString => Some(Url)
    case ReqFragmentStart => Some(Url)
    case ReqFragment => Some(Url)
    case ResStatus => Some(Status)
    case HeaderField => Some(Field)
    case HeaderValue => Some(Value)
    case _ => None
  }

  /** The body states, which the source skips through in one go. */
  predicate Skipping(s: State) {
    s.BodyIdentity? || s.BodyIdentityEof? || s.ChunkData?
  }

  /** How a turn from state s treats the marks: a live mark is kept or delivered, a new one is set
      only when none is live, and every state that needs a live mark is entered with one. */
  predicate KeepsMarks(s: State, o: Outcome) {
    match LiveKind(s)
    case Some(k) =>
      && o.mark == None
      && (if o.flush == None then StrictKind(o.p.state) == Some(k) && o.ctl.Next? && o.note == []
          else o.flush == Some(k) && LiveKind(o.p.state) == None)
    case None =>
      if o.flush != None then o.flush == o.mark && LiveKind(o.p.state) == None
      else if o.mark != None then StrictKind(o.p.state) == o.mark && o.note == []
      else StrictKind(o.p.state) == None
  }

  /** What every turn keeps to, whatever the byte. */
  predicate Disciplined(p: Parser, o: Outcome) {
    && |o.note| <= 1
    && (forall e <- o.note :: e.Notified?)
    && (o.ctl == Fail(o.p.errno) || (!o.ctl.Fail? && o.p.errno == p.errno))
    && (o.ctl.Fail? ==> o.p.errno != Ok && o.p.errno != HeaderOverflow)
    && (o.ctl.Fail? && o.note != [] ==> LiveKind(p.state) == None)
    && (o.ctl.Exit? ==> o.p.upgrade)
    && (o.ctl.Again? ==>
          && Rank(o.p.state) < Rank(p.state) && o.p.nread == p.nread
          && (ParsingHeader(o.p.state) ==> ParsingHeader(p.state)))
    && (!Skipping(p.state) ==>
          && (o.ctl.Next? || o.ctl.Again? ==> KeepsMarks(p.state, o))
          && (o.ctl.Exit? ==> o.mark == None && o.flush == None && LiveKind(p.state) == None))
  }

  lemma StartIsDisciplined(p: Parser, ch: byte)
    requires PhaseOf(p.state).PStart?
    ensures Disciplined(p, StepStart(p, ch))
  {
  }

  lemma StatusLineIsDisciplined(p: Parser, ch: byte)
    requires PhaseOf(p.state).PStatusLine?
    ensures Disciplined(p, StepStatusLine(p, ch))
  {
  }

  lemma MethodIsDisciplined(p: Parser, ch: byte)
    requires PhaseOf(p.state).PMethod?
    ensures Disciplined(p, StepMethod(p, ch))
  {
  }

  /** A byte keeps the URL scanner among the states whose bytes are URL data, or kills it. */
  lemma UrlTargets(s: State, ch: byte)
    ensures var t := ParseUrlChar(s, ch); t.Dead? || (StrictKind(t) == Some(Url) && PhaseOf(t).PUrl?)
  {
  }

  lemma UrlIsDisciplined(p: Parser, ch: byte)
    requires PhaseOf(p.state).PUrl?
    ensures Disciplined(p, StepUrl(p, ch))
  {
    UrlTargets(p.state, ch);
    UrlTargets(ReqServerStart, ch);
    hide ParseUrlChar;
  }

  lemma VersionIsDisciplined(p: Parser, ch: byte)
    requires PhaseOf(p.state).PVersion?
    ensures Disciplined(p, StepVersion(p, ch))
  {
  }

  /** Inside a name the switch only moves the nested machine along. */
  lemma NameStepStays(p: Parser, c: byte)
    ensures var q := NameStep(p, c); q == p.(index := q.index, hstate := q.hstate)
  {
  }

  lemma NameIsDisciplined(p: Parser, ch: byte)
    requires PhaseOf(p.state).PName?
    ensures Disciplined(p, StepName(p, ch))
  {
    NameStepStays(p, Token(ch));
    hide NameStep, FirstNameState;
  }

  lemma StartValueIsDisciplined(p: Parser, ch: byte)
    requires p.state.HeaderValueDiscardWs? || p.state.HeaderValueStart?
    ensures Disciplined(p, StartValue(p, ch))
  {
  }

  /** The keyword matchers and the flags of a value leave everything else alone. */
  lemma MatchersStay(p: Parser, ch: byte, other: HeaderState)
    ensures ValueMatch(p, ch, other).state == p.state && ValueMatch(p, ch, other).nread == p.nread
    ensures ValueMatch(p, ch, other).errno == p.errno
    ensures TokenEnd(p, ch).state == p.state && TokenEnd(p, ch).nread == p.nread && TokenEnd(p, ch).errno == p.errno
  {
    hide RaiseFlag;
  }

  /** What a turn inside a value does to the rest of the record. */
  predicate StaysInValue(p: Parser, o: Outcome) {
    && o.mark == None && o.flush == None && o.note == []
    && o.p.state == p.state && o.p.nread == p.nread
    && if o.ctl.Fail? then o.ctl == Fail(o.p.errno) && o.p.errno == InvalidContentLength
       else o.ctl.Next? && o.p.errno == p.errno
  }

  lemma LengthStepStays(p: Parser, ch: byte)
    ensures StaysInValue(p, LengthStep(p, ch))
  {
    hide Accumulate;
  }

  /** Inside a value the switch only moves the nested machine along. */
  lemma ValueStepStays(p: Parser, ch: byte)
    requires p.state.HeaderValue?
    ensures StaysInValue(p, ValueStep(p, ch))
  {
    hide LengthStep, ValueMatch, TokenEnd, Token, Lower;
    LengthStepStays(p, ch);
    LengthStepStays(p.(hstate := ContentLengthNum), ch);
    MatchersStay(p, Lower(ch), General);
    MatchersStay(p, Lower(ch), MatchingToken);
    MatchersStay(p, ch, General);
  }

  lemma BlankIsDisciplined(cfg: Config, p: Parser, ch: byte)
    requires p.state.HeaderValueDiscardWs? || p.state.HeaderValueStart?
    ensures Disciplined(p, StepValue(cfg, p, ch))
  {
    hide StartValue;
    StartValueIsDisciplined(p, ch);
  }

  lemma InsideIsDisciplined(cfg: Config, p: Parser, ch: byte)
    requires p.state.HeaderValue?
    ensures Disciplined(p, StepValue(cfg, p, ch))
  {
    hide ValueStep;
    ValueStepStays(p, ch);
  }

  lemma ValueIsDisciplined(cfg: Config, p: Parser, ch: byte)
    requires PhaseOf(p.state).PValue?
    ensures Disciplined(p, StepValue(cfg, p, ch))
  {
    hide StepValue, Disciplined, PhaseOf;
    match p.state
    case HeaderValueDiscardWs => BlankIsDisciplined(cfg, p, ch);
    case HeaderValueStart => BlankIsDisciplined(cfg, p, ch);
    case HeaderValue => InsideIsDisciplined(cfg, p, ch);
    case _ => FoldIsDisciplined(cfg, p, ch);
  }

  /** The states between two lines of a value. */
  lemma FoldIsDisciplined(cfg: Config, p: Parser, ch: byte)
    requires PhaseOf(p.state).PValue?
    requires !p.state.HeaderValueDiscardWs? && !p.state.HeaderValueStart? && !p.state.HeaderValue?
    ensures Disciplined(p, StepValue(cfg, p, ch))
  {
    hide ValueStep, StartValue, RaiseFlag;
  }

  lemma EndIsDisciplined(cfg: Config, p: Parser, ch: byte)
    requires PhaseOf(p.state).PHeadersEnd?
    ensures Disciplined(p, StepHeadersEnd(cfg, p, ch))
  {
    assert p.state.HeadersAlmostDone?;
    hide HeadersSeen, Seen, PhaseOf, Rank, LiveKind, StrictKind, Skipping, ParsingHeader;
    HeadersSeenKeeps(p);
    EndTables();
  }

  lemma HeadersSeenKeeps(p: Parser)
    ensures var q := HeadersSeen(p);
      q.state.HeadersDone? && q.errno == p.errno && q.nread == p.nread
  {
  }

  /** What the tables say of the states around the end of the headers. */
  lemma EndTables()
    ensures Rank(HeadersAlmostDone) == 3 && Rank(HeadersDone) == 1 && Rank(MessageDone) == 0
    ensures !Skipping(HeadersAlmostDone) && ParsingHeader(HeadersAlmostDone)
    ensures LiveKind(HeadersAlmostDone) == LiveKind(HeadersDone) == LiveKind(MessageDone) == None
    ensures StrictKind(HeadersDone) == StrictKind(MessageDone) == None
  {
  }

  lemma DoneIsDisciplined(p: Parser, ch: byte)
    requires PhaseOf(p.state).PHeadersDone?
    ensures Disciplined(p, StepHeadersDone(p, ch))
  {
  }

  lemma BodyIsDisciplined(p: Parser, ch: byte)
    requires PhaseOf(p.state).PBody?
    ensures Disciplined(p, StepBody(p, ch))
  {
  }

  lemma ChunkIsDisciplined(p: Parser, ch: byte)
    requires PhaseOf(p.state).PChunk?
    ensures Disciplined(p, StepChunk(p, ch))
  {
  }

  /** Every turn descends in rank when it repeats its byte, and handles the marks soundly. */
  lemma TurnIsDisciplined(cfg: Config, p: Parser, ch: byte)
    ensures Disciplined(p, StepOnce(cfg, p, ch))
  {
    match PhaseOf(p.state)
    case PStart => StartIsDisciplined(p, ch);
    case PStatusLine => StatusLineIsDisciplined(p, ch);
    case PMethod => MethodIsDisciplined(p, ch);
    case PUrl => UrlIsDisciplined(p, ch);
    case PVersion => VersionIsDisciplined(p, ch);
    case PName => NameIsDisciplined(p, ch);
    case PValue => ValueIsDisciplined(cfg, p, ch);
    case PHeadersEnd => EndIsDisciplined(cfg, p, ch);
    case PHeadersDone => DoneIsDisciplined(p, ch);
    case PBody => BodyIsDisciplined(p, ch);
    case PChunk => ChunkIsDisciplined(p, ch);
  }
}
