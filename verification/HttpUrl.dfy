/** http_parser_parse_url: the fields of a URL, found by one pass over it and a second over its host. */
module HttpUrl {
  import opened Bytes
  import opened HttpTypes
  import opened HttpStep

  // ---------------------------------------------------------------- struct http_parser_url

  /** How many values the numbers of a field have: 2^16 in the source. Every pass below takes it as its last
      argument, to compare what the source does with what wider numbers would give. */
  type Width = m: int | m > 0 witness 1

  /** A stretch of the input. */
  datatype Span = Span(off: nat, len: nat)

  /** The fields that are set, and the port as a number. */
  datatype Parts = Parts(
    schema: Option<Span>,
    userinfo: Option<Span>,
    host: Option<Span>,
    port: Option<Span>,
    path: Option<Span>,
    query: Option<Span>,
    fragment: Option<Span>,
    value: nat)

  const NO_PARTS := Parts(None, None, None, None, None, None, None, 0)

  function Word(n: nat, m: Width := UINT16_SPAN): nat {
    n % m
  }

  function Longer(s: Span, m: Width := UINT16_SPAN): Span {
    s.(len := Word(s.len + 1, m))
  }

  /** The fields of the first pass; the whole authority is the host at first. */
  datatype Piece = Scheme | Authority | Path | Query | Fragment

  function Get(u: Parts, f: Piece): Option<Span> {
    match f
    case Scheme => u.schema
    case Authority => u.host
    case Path => u.path
    case Query => u.query
    case Fragment => u.fragment
  }

  function Set(u: Parts, f: Piece, s: Span): Parts {
    match f
    case Scheme => u.(schema := Some(s))
    case Authority => u.(host := Some(s))
    case Path => u.(path := Some(s))
    case Query => u.(query := Some(s))
    case Fragment => u.(fragment := Some(s))
  }

  // ---------------------------------------------------------------- the first pass

  /** The variables of the loop: s, old_uf, found_at and the fields. */
  datatype Scan = Scan(state: State, last: Option<Piece>, at: bool, u: Parts)

  /** The field a byte belongs to by the state it leads to; a delimiter belongs to none. */
  function PieceOf(s: State): Option<Piece> {
    match s
    case ReqSchema => Some(Scheme)
    case ReqServer => Some(Authority)
    case ReqServerWithAt => Some(Authority)
    case ReqPath => Some(Path)
    case ReqQueryString => Some(Query)
    case ReqFragment => Some(Fragment)
    case _ => None
  }

  function UrlStep(z: Scan, pos: nat, ch: byte, m: Width := UINT16_SPAN): Scan {
    var s := ParseUrlChar(z.state, ch);
    match PieceOf(s)
    case None => z.(state := s)
    case Some(f) =>
      var longer := z.last == Some(f) && Get(z.u, f).Some?;
      Scan(s, Some(f), z.at || s.ReqServerWithAt?,
           Set(z.u, f, if longer then Longer(Get(z.u, f).value, m) else Span(Word(pos, m), 1)))
  }

  /** The loop over the bytes t that stand at pos. */
  function UrlScan(z: Scan, pos: nat, t: seq<byte>, m: Width := UINT16_SPAN): Scan
    decreases |t|
  {
    if t == [] then z else UrlScan(UrlStep(z, pos, t[0], m), pos + 1, t[1..], m)
  }

  // ---------------------------------------------------------------- the second pass

  datatype HostState =
    | HostDead | UserinfoStart | InUserinfo | HostStart | InHost
    | V6Start | InV6 | V6End | ZoneStart | InZone | PortStart | InPort

  predicate IsHostChar(ch: byte) {
    IsAlpha(ch) || IsNum(ch) || ch == DOT || ch == DASH
  }

  predicate IsZoneChar(ch: byte) {
    IsAlpha(ch) || IsNum(ch) || ch in {37, 46, 45, 95, 126}
  }

  /** http_parse_host_char */
  function ParseHostChar(s: HostState, ch: byte): HostState {
    match s
    case UserinfoStart => if ch == AT then HostStart else if IsUserinfoChar(ch) then InUserinfo else HostDead
    case InUserinfo => if ch == AT then HostStart else if IsUserinfoChar(ch) then InUserinfo else HostDead
    case HostStart => if ch == 91 then V6Start else if IsHostChar(ch) then InHost else HostDead
    case InHost => if IsHostChar(ch) then InHost else if ch == COLON then PortStart else HostDead
    case V6End => if ch == COLON then PortStart else HostDead
    case InV6 =>
      if ch == 93 then V6End
      else if IsHexChar(ch) || ch == COLON || ch == DOT then InV6
      else if ch == 37 then ZoneStart
      else HostDead
    case V6Start => if IsHexChar(ch) || ch == COLON || ch == DOT then InV6 else HostDead
    case InZone => if ch == 93 then V6End else if IsZoneChar(ch) then InZone else HostDead
    case ZoneStart => if IsZoneChar(ch) then InZone else HostDead
    case InPort => if IsNum(ch) then InPort else HostDead
    case PortStart => if IsNum(ch) then InPort else HostDead
    case HostDead => HostDead
  }

  datatype HostScan = HostScan(state: HostState, userinfo: Option<Span>, host: Span, port: Option<Span>)

  function LongerOrNew(s: Option<Span>, longer: bool, pos: nat, m: Width := UINT16_SPAN): Option<Span> {
    if longer && s.Some? then Some(Longer(s.value, m)) else Some(Span(Word(pos, m), 1))
  }

  function HostStep(h: HostScan, pos: nat, ch: byte, m: Width := UINT16_SPAN): HostScan {
    var s := ParseHostChar(h.state, ch);
    match s
    case InHost =>
      h.(state := s, host := if h.state.InHost? then Longer(h.host, m) else Longer(h.host, m).(off := Word(pos, m)))
    case InV6 =>
      h.(state := s, host := if h.state.InV6? then Longer(h.host, m) else Longer(h.host, m).(off := Word(pos, m)))
    case ZoneStart => h.(state := s, host := Longer(h.host, m))
    case InZone => h.(state := s, host := Longer(h.host, m))
    case InPort => h.(state := s, port := LongerOrNew(h.port, h.state.InPort?, pos, m))
    case InUserinfo => h.(state := s, userinfo := LongerOrNew(h.userinfo, h.state.InUserinfo?, pos, m))
    case _ => h.(state := s)
  }

  function HostScanAll(h: HostScan, pos: nat, t: seq<byte>, m: Width := UINT16_SPAN): HostScan
    decreases |t|
  {
    if t == [] then h else HostScanAll(HostStep(h, pos, t[0], m), pos + 1, t[1..], m)
  }

  /** The states a host may end in. */
  predicate HostEnds(s: HostState) {
    s.InHost? || s.V6End? || s.InPort?
  }

  // ---------------------------------------------------------------- the whole

  function Decimal(t: seq<byte>): nat {
    if t == [] then 0 else Decimal(t[..|t| - 1]) * 10 + (if t[|t| - 1] >= 48 then t[|t| - 1] - 48 else 0)
  }

  /** One byte of the port, as a signed char added to an unsigned long: below zero it wraps, and is too large
      as well. */
  function PortStep(v: nat, ch: byte): Option<nat> {
    var w := v * 10 + (if ch >= 128 then ch - 256 else ch) - 48;
    if 0 <= w <= 0xffff then Some(w) else None
  }

  function PortValue(v: nat, t: seq<byte>): Option<nat>
    decreases |t|
  {
    if t == [] then Some(v)
    else match PortStep(v, t[0]) case None => None case Some(w) => PortValue(w, t[1..])
  }

  function StartScan(connect: bool): Scan {
    Scan(if connect then ReqServerStart else ReqSpacesBeforeUrl, None, false, NO_PARTS)
  }

  function Slice(buf: seq<byte>, s: Span): (t: seq<byte>) {
    if s.off + s.len <= |buf| then buf[s.off..s.off + s.len] else []
  }

  /** http_parse_host on the authority that the first pass has found. */
  function SplitHost(buf: seq<byte>, z: Scan, m: Width := UINT16_SPAN): Option<Parts> {
    match z.u.host
    case None => Some(z.u)
    case Some(a) =>
      var h := HostScanAll(HostScan(if z.at then UserinfoStart else HostStart, None, Span(a.off, 0), None),
                           a.off, Slice(buf, a), m);
      if HostEnds(h.state) then Some(z.u.(userinfo := h.userinfo, host := Some(h.host), port := h.port)) else None
  }

  /** CONNECT takes a host and a port, and nothing else. */
  predicate HostAndPort(u: Parts) {
    u.host.Some? && u.port.Some? && u.schema.None? && u.userinfo.None? && u.path.None? && u.query.None? && u.fragment.None?
  }

  function ParseUrl(buf: seq<byte>, connect: bool, m: Width := UINT16_SPAN): Option<Parts> {
    var z := UrlScan(StartScan(connect), 0, buf, m);
    if buf == [] || z.state.Dead? then None
    else if z.u.schema.Some? && z.u.host.None? then None
    else
      match SplitHost(buf, z, m)
      case None => None
      case Some(u) =>
        if connect && !HostAndPort(u) then None
        else if u.port.None? then Some(u)
        else
          match PortValue(0, Slice(buf, u.port.value))
          case None => None
          case Some(v) => Some(u.(value := v))
  }
}
