/** The fields of a parsed URL partition it: they are in order, none overlaps another, and what lies
    between them is delimiters. */
module HttpUrlPartition {
  import opened Bytes
  import opened HttpTypes
  import opened HttpStep
  import opened HttpUrl

  // ---------------------------------------------------------------- spans

  function End(s: Span): nat {
    s.off + s.len
  }

  predicate Inside(s: Option<Span>, i: nat) {
    s.Some? && s.value.off <= i < End(s.value)
  }

  predicate Before(s: Option<Span>, t: Option<Span>) {
    s.Some? && t.Some? ==> End(s.value) <= t.value.off
  }

  predicate EndsAt(s: Option<Span>, n: nat) {
    s.Some? && End(s.value) == n
  }

  /** ':' '/' '?' '#' '@' '[' ']' */
  predicate IsDelimiter(ch: byte) {
    ch in {58, 47, 63, 35, 64, 91, 93}
  }

  predicate Allowed(f: Piece, ch: byte) {
    match f
    case Scheme => IsAlpha(ch)
    case Authority => IsUserinfoChar(ch) || ch == 91 || ch == 93 || ch == AT
    case Path => IsUrlChar(ch)
    case Query => IsUrlChar(ch) || ch == QUESTION
    case Fragment => IsUrlChar(ch) || ch == QUESTION || ch == HASH
  }

  /** A field that is set is not empty, within the bytes b, and made of its characters. */
  ghost predicate Well(b: seq<byte>, f: Piece, s: Option<Span>) {
    s.Some? ==>
      && s.value.len > 0 && End(s.value) <= |b|
      && forall i :: s.value.off <= i < End(s.value) ==> Allowed(f, b[i])
  }

  // ---------------------------------------------------------------- after the first pass

  ghost predicate AllWell(b: seq<byte>, u: Parts) {
    Well(b, Scheme, u.schema) && Well(b, Authority, u.host) && Well(b, Path, u.path) && Well(b, Query, u.query)
    && Well(b, Fragment, u.fragment)
  }

  predicate InOrder(u: Parts) {
    && Before(u.schema, u.host) && Before(u.schema, u.path) && Before(u.schema, u.query) && Before(u.schema, u.fragment)
    && Before(u.host, u.path) && Before(u.host, u.query) && Before(u.host, u.fragment)
    && Before(u.path, u.query) && Before(u.path, u.fragment) && Before(u.query, u.fragment)
  }

  predicate InPiece(u: Parts, i: nat) {
    Inside(u.schema, i) || Inside(u.host, i) || Inside(u.path, i) || Inside(u.query, i) || Inside(u.fragment, i)
  }

  ghost predicate Covered(b: seq<byte>, u: Parts) {
    forall i :: 0 <= i < |b| ==> IsDelimiter(b[i]) || InPiece(u, i)
  }

  /** Which fields can be set in a state, and where the current one ends. */
  predicate Reached(z: Scan, n: nat) {
    var u := z.u;
    match z.state
    case ReqSpacesBeforeUrl => n == 0 && u == NO_PARTS && z.last == None
    case ReqSchema => EndsAt(u.schema, n) && z.last == Some(Scheme) && u.host.None? && NoTail(u)
    case ReqSchemaSlash => z.last == Some(Scheme) && u.schema.Some? && u.host.None? && NoTail(u)
    case ReqSchemaSlashSlash => z.last == Some(Scheme) && u.schema.Some? && u.host.None? && NoTail(u)
    case ReqServerStart => (z.last == None || z.last == Some(Scheme)) && u.host.None? && NoTail(u)
    case ReqServer => EndsAt(u.host, n) && z.last == Some(Authority) && NoTail(u)
    case ReqServerWithAt => EndsAt(u.host, n) && z.last == Some(Authority) && NoTail(u)
    case ReqPath => EndsAt(u.path, n) && z.last == Some(Path) && u.query.None? && u.fragment.None?
    case ReqQueryStringStart => z.last != Some(Query) && z.last != Some(Fragment) && u.query.None? && u.fragment.None?
    case ReqQueryString => EndsAt(u.query, n) && z.last == Some(Query) && u.fragment.None?
    case ReqFragmentStart => z.last != Some(Fragment) && u.fragment.None?
    case ReqFragment => EndsAt(u.fragment, n) && z.last == Some(Fragment)
    case _ => false
  }

  predicate NoTail(u: Parts) {
    u.path.None? && u.query.None? && u.fragment.None?
  }

  /** A path begins with '/', or is '*' and more where no scheme and no host is; a fragment does not
      begin with '#'. */
  predicate Starts(b: seq<byte>, u: Parts) {
    && (u.path.Some? && u.path.value.off < |b| ==>
          b[u.path.value.off] == SLASH || (b[u.path.value.off] == STAR && u.schema.None? && u.host.None?))
    && (u.fragment.Some? && u.fragment.value.off < |b| ==> b[u.fragment.value.off] != HASH)
  }

  ghost predicate UrlInv(z: Scan, b: seq<byte>) {
    && AllWell(b, z.u) && InOrder(z.u) && Covered(b, z.u) && Reached(z, |b|) && Starts(b, z.u)
    && z.u.userinfo.None? && z.u.port.None? && z.u.value == 0
  }

  lemma WordSmall(n: nat, m: Width)
    ensures n < m ==> Word(n, m) == n
  {
  }

  lemma LongerSmall(s: Span, m: Width)
    ensures s.len + 1 < m ==> Longer(s, m) == Span(s.off, s.len + 1)
  {
    WordSmall(s.len + 1, m);
    hide Word;
  }

  /** A delimiter belongs to no field. */
  lemma Skips(z: Scan, b: seq<byte>, ch: byte)
    requires UrlInv(z, b) && IsDelimiter(ch)
    ensures AllWell(b + [ch], z.u) && InOrder(z.u) && Covered(b + [ch], z.u) && Starts(b + [ch], z.u)
  {
  }

  /** The current field becomes longer. */
  lemma Extends(z: Scan, b: seq<byte>, ch: byte, f: Piece, s: State, m: Width := UINT16_SPAN)
    requires UrlInv(z, b) && EndsAt(Get(z.u, f), |b|) && Allowed(f, ch) && |b| + 1 < m
    requires f.Scheme? ==> z.u.host.None? && NoTail(z.u)
    requires f.Authority? ==> NoTail(z.u)
    requires f.Path? ==> z.u.query.None? && z.u.fragment.None?
    requires f.Query? ==> z.u.fragment.None?
    ensures var y := Scan(s, Some(f), z.at || (f.Authority? && ch == AT), Set(z.u, f, Longer(Get(z.u, f).value, m)));
      && AllWell(b + [ch], y.u) && InOrder(y.u) && Covered(b + [ch], y.u) && Starts(b + [ch], y.u)
      && EndsAt(Get(y.u, f), |b| + 1)
  {
    hide Longer;
    var span := Get(z.u, f).value;
    LongerSpan(z, b, f, m);
    ExtendsCovered(z, b, ch, f, m);
    ExtendsWell(z.u, b, ch, f, span);
    assert span.len > 0 && (z.u.path.Some? ==> z.u.path.value.off < |b|)
           && (z.u.fragment.Some? ==> z.u.fragment.value.off < |b|);
    hide Covered, Reached, AllWell, Allowed;
    ExtendsOrder(z.u, b, ch, f, span);
  }

  lemma LongerSpan(z: Scan, b: seq<byte>, f: Piece, m: Width := UINT16_SPAN)
    requires AllWell(b, z.u) && EndsAt(Get(z.u, f), |b|) && |b| + 1 < m
    ensures var s := Get(z.u, f).value; Longer(s, m) == Span(s.off, s.len + 1)
  {
    hide Longer;
    assert Get(z.u, f).value.len <= |b|;
    LongerSmall(Get(z.u, f).value, m);
  }

  lemma ExtendsWell(u: Parts, b: seq<byte>, ch: byte, f: Piece, span: Span)
    requires AllWell(b, u) && Get(u, f) == Some(span) && End(span) == |b| && Allowed(f, ch)
    ensures AllWell(b + [ch], Set(u, f, Span(span.off, span.len + 1)))
  {
    hide Allowed;
    Stays(b, ch, Scheme, u.schema);
    Stays(b, ch, Authority, u.host);
    Stays(b, ch, Path, u.path);
    Stays(b, ch, Query, u.query);
    Stays(b, ch, Fragment, u.fragment);
    assert Well(b, f, Some(span)) by { assert Well(b, f, Get(u, f)); }
    ExtendsField(b, ch, f, span);
    hide Well;
  }

  /** One more byte behind a field leaves it as it is. */
  lemma Stays(b: seq<byte>, ch: byte, f: Piece, s: Option<Span>)
    requires Well(b, f, s)
    ensures Well(b + [ch], f, s)
  {
    hide Allowed;
  }

  lemma ExtendsOrder(u: Parts, b: seq<byte>, ch: byte, f: Piece, span: Span)
    requires InOrder(u) && Starts(b, u) && Get(u, f) == Some(span) && End(span) == |b| && span.len > 0
    requires u.path.Some? ==> u.path.value.off < |b|
    requires u.fragment.Some? ==> u.fragment.value.off < |b|
    requires f.Scheme? ==> u.host.None? && NoTail(u)
    requires f.Authority? ==> NoTail(u)
    requires f.Path? ==> u.query.None? && u.fragment.None?
    requires f.Query? ==> u.fragment.None?
    ensures InOrder(Set(u, f, Span(span.off, span.len + 1))) && Starts(b + [ch], Set(u, f, Span(span.off, span.len + 1)))
  {
  }

  lemma ExtendsField(b: seq<byte>, ch: byte, f: Piece, s: Span)
    requires Well(b, f, Some(s)) && End(s) == |b| && Allowed(f, ch)
    ensures Well(b + [ch], f, Some(Span(s.off, s.len + 1)))
  {
    hide Allowed;
  }

  lemma ExtendsCovered(z: Scan, b: seq<byte>, ch: byte, f: Piece, m: Width := UINT16_SPAN)
    requires UrlInv(z, b) && EndsAt(Get(z.u, f), |b|) && |b| + 1 < m
    ensures Covered(b + [ch], Set(z.u, f, Longer(Get(z.u, f).value, m)))
  {
    hide Longer;
    LongerSpan(z, b, f, m);
    var u := Set(z.u, f, Longer(Get(z.u, f).value, m));
    forall i | 0 <= i < |b| + 1
      ensures IsDelimiter((b + [ch])[i]) || InPiece(u, i)
    {
      if i < |b| {
        assert IsDelimiter(b[i]) || InPiece(z.u, i);
      }
    }
  }

  /** A field begins behind all that are set. */
  lemma Begins(z: Scan, b: seq<byte>, ch: byte, f: Piece, s: State, m: Width := UINT16_SPAN)
    requires UrlInv(z, b) && Get(z.u, f).None? && Allowed(f, ch) && |b| + 1 < m
    requires f.Scheme? ==> z.u.host.None? && NoTail(z.u)
    requires f.Authority? ==> NoTail(z.u)
    requires f.Path? ==> z.u.query.None? && z.u.fragment.None?
    requires f.Path? ==> ch == SLASH || (ch == STAR && z.u.schema.None? && z.u.host.None?)
    requires f.Query? ==> z.u.fragment.None?
    requires f.Fragment? ==> ch != HASH
    ensures var y := Scan(s, Some(f), z.at || (f.Authority? && ch == AT), Set(z.u, f, Span(Word(|b|, m), 1)));
      && AllWell(b + [ch], y.u) && InOrder(y.u) && Covered(b + [ch], y.u) && Starts(b + [ch], y.u)
      && EndsAt(Get(y.u, f), |b| + 1)
  {
    hide Word;
    var c := b + [ch];
    WordSmall(|b|, m);
    BeginsCovered(z, b, ch, f, m);
  }

  lemma BeginsCovered(z: Scan, b: seq<byte>, ch: byte, f: Piece, m: Width := UINT16_SPAN)
    requires UrlInv(z, b) && Get(z.u, f).None? && |b| + 1 < m
    ensures Covered(b + [ch], Set(z.u, f, Span(Word(|b|, m), 1)))
  {
    hide Word;
    WordSmall(|b|, m);
    var u := Set(z.u, f, Span(Word(|b|, m), 1));
    forall i | 0 <= i < |b| + 1
      ensures IsDelimiter((b + [ch])[i]) || InPiece(u, i)
    {
      if i < |b| {
        assert IsDelimiter(b[i]) || InPiece(z.u, i);
      }
    }
  }

  /** One byte of the first pass. */
  lemma UrlStepInv(z: Scan, b: seq<byte>, ch: byte, m: Width := UINT16_SPAN)
    requires UrlInv(z, b) && |b| + 1 < m && !ParseUrlChar(z.state, ch).Dead?
    ensures UrlInv(UrlStep(z, |b|, ch, m), b + [ch])
  {
    hide AllWell, InOrder, Covered, Starts, ParseUrlChar, Reached, Allowed;
    var s := ParseUrlChar(z.state, ch);
    StateSteps(z, |b|, ch);
    match PieceOf(s)
    case None =>
      DelimiterSteps(z.state, ch);
      Skips(z, b, ch);
    case Some(f) =>
      PieceSteps(z, |b|, ch, f);
      if z.last == Some(f) {
        Extends(z, b, ch, f, s, m);
      } else {
        Begins(z, b, ch, f, s, m);
      }
  }

  /** What a step makes of the state's own condition. */
  lemma StateSteps(z: Scan, n: nat, ch: byte)
    requires Reached(z, n) && !ParseUrlChar(z.state, ch).Dead?
    ensures var s := ParseUrlChar(z.state, ch); PieceOf(s).None? ==> Reached(z.(state := s), n + 1)
    ensures var s := ParseUrlChar(z.state, ch);
      PieceOf(s).Some? ==>
        forall x: Span, at: bool :: End(x) == n + 1 ==>
          Reached(Scan(s, PieceOf(s), at, Set(z.u, PieceOf(s).value, x)), n + 1)
  {
  }

  lemma DelimiterSteps(s: State, ch: byte)
    ensures var t := ParseUrlChar(s, ch); !t.Dead? && PieceOf(t).None? ==> IsDelimiter(ch)
  {
  }

  lemma PieceSteps(z: Scan, n: nat, ch: byte, f: Piece)
    requires Reached(z, n) && !ParseUrlChar(z.state, ch).Dead? && PieceOf(ParseUrlChar(z.state, ch)) == Some(f)
    ensures Allowed(f, ch) && (ParseUrlChar(z.state, ch).ReqServerWithAt? <==> f.Authority? && ch == AT)
    ensures z.last == Some(f) ==> EndsAt(Get(z.u, f), n)
    ensures z.last != Some(f) ==> Get(z.u, f).None?
    ensures f.Scheme? ==> z.u.host.None? && NoTail(z.u)
    ensures f.Authority? ==> NoTail(z.u)
    ensures f.Path? ==> z.u.query.None? && z.u.fragment.None?
    ensures f.Path? && z.last != Some(f) ==> ch == SLASH || (ch == STAR && z.u.schema.None? && z.u.host.None?)
    ensures f.Query? ==> z.u.fragment.None?
    ensures f.Fragment? && z.last != Some(f) ==> ch != HASH
  {
  }

  lemma {:induction false} UrlScanInv(z: Scan, b: seq<byte>, t: seq<byte>, m: Width := UINT16_SPAN)
    requires UrlInv(z, b) && |b| + |t| < m && !UrlScan(z, |b|, t, m).state.Dead?
    ensures UrlInv(UrlScan(z, |b|, t, m), b + t)
    decreases |t|
  {
    hide UrlInv, UrlStep, ParseUrlChar;
    if t == [] {
      assert b + t == b;
    } else {
      if ParseUrlChar(z.state, t[0]).Dead? {
        DeadStays(z, |b|, t, m);
      }
      UrlStepInv(z, b, t[0], m);
      assert b + t == (b + [t[0]]) + t[1..];
      UrlScanInv(UrlStep(z, |b|, t[0], m), b + [t[0]], t[1..], m);
    }
  }

  lemma {:induction false} DeadStays(z: Scan, pos: nat, t: seq<byte>, m: Width := UINT16_SPAN)
    requires z.state.Dead? || (t != [] && ParseUrlChar(z.state, t[0]).Dead?)
    ensures UrlScan(z, pos, t, m).state.Dead?
    decreases |t|
  {
    if t != [] {
      DeadStays(UrlStep(z, pos, t[0], m), pos + 1, t[1..], m);
    }
  }

  // ---------------------------------------------------------------- after the second pass

  /** The characters of a host, in brackets or not. */
  predicate IsHostText(ch: byte) {
    IsHostChar(ch) || ch == COLON || IsZoneChar(ch)
  }

  predicate InHostPiece(h: HostScan, i: nat) {
    Inside(h.userinfo, i) || Inside(Some(h.host), i) || Inside(h.port, i)
  }

  ghost predicate HostWell(h: HostScan, lo: nat, b: seq<byte>) {
    && (h.userinfo.Some? ==> h.userinfo.value.len > 0 && HostPiece(b, lo, 1, h.userinfo.value))
    && HostPiece(b, lo, 2, h.host)
    && (h.port.Some? ==> h.port.value.len > 0 && HostPiece(b, lo, 3, h.port.value))
  }

  /** A stretch of the authority, made of the characters of field k. */
  ghost predicate HostPiece(b: seq<byte>, lo: nat, k: nat, s: Span) {
    lo <= s.off && End(s) <= |b| && forall i :: s.off <= i < End(s) ==> Allows(k, b[i])
  }

  predicate Allows(k: nat, ch: byte) {
    match k
    case 0 => IsAlpha(ch)
    case 1 => IsUserinfoChar(ch)
    case 2 => IsHostText(ch)
    case 3 => IsNum(ch)
    case 4 => Allowed(Path, ch)
    case 5 => Allowed(Query, ch)
    case _ => Allowed(Fragment, ch)
  }

  predicate HostInOrder(h: HostScan) {
    (h.host.len > 0 ==> Before(h.userinfo, Some(h.host))) && Before(h.userinfo, h.port) && Before(Some(h.host), h.port)
  }

  ghost predicate HostCovered(h: HostScan, lo: nat, b: seq<byte>) {
    forall i :: lo <= i < |b| ==> IsDelimiter(b[i]) || InHostPiece(h, i)
  }

  ghost predicate HostReached(h: HostScan, n: nat) {
    match h.state
    case UserinfoStart => h.userinfo.None? && h.host.len == 0 && h.port.None?
    case InUserinfo => EndsAt(h.userinfo, n) && h.host.len == 0 && h.port.None?
    case HostStart => h.host.len == 0 && h.port.None?
    case V6Start => h.host.len == 0 && h.port.None?
    case InHost => h.host.len > 0 && End(h.host) == n && h.port.None?
    case InV6 => h.host.len > 0 && End(h.host) == n && h.port.None?
    case ZoneStart => h.host.len > 0 && End(h.host) == n && h.port.None?
    case InZone => h.host.len > 0 && End(h.host) == n && h.port.None?
    case V6End => h.host.len > 0 && End(h.host) + 1 == n && h.port.None?
    case PortStart => h.host.len > 0 && h.port.None?
    case InPort => h.host.len > 0 && EndsAt(h.port, n)
    case HostDead => false
  }

  ghost predicate HostInv(h: HostScan, lo: nat, b: seq<byte>) {
    lo <= |b| && HostWell(h, lo, b) && HostInOrder(h) && HostCovered(h, lo, b) && HostReached(h, |b|)
  }

  /** What a byte of the second pass is, by the state it leads to and the one it comes from. */
  lemma HostTable(h: HostScan, n: nat, ch: byte, m: Width := UINT16_SPAN)
    requires HostReached(h, n) && n + 1 < m && h.host.len <= n
    ensures var s := ParseHostChar(h.state, ch);
      match s
      case HostDead => true
      case InUserinfo => Allows(1, ch) && h.host.len == 0 && h.port.None?
                         && (if h.state.InUserinfo? then EndsAt(h.userinfo, n) else h.userinfo.None?)
      case InPort => Allows(3, ch) && h.host.len > 0 && (if h.state.InPort? then EndsAt(h.port, n) else h.port.None?)
      case HostStart => IsDelimiter(ch) && HostReached(h.(state := s), n + 1)
      case V6Start => IsDelimiter(ch) && HostReached(h.(state := s), n + 1)
      case V6End => IsDelimiter(ch) && HostReached(h.(state := s), n + 1)
      case PortStart => IsDelimiter(ch) && HostReached(h.(state := s), n + 1)
      case _ => Allows(2, ch) && h.port.None? && (h.host.len > 0 ==> End(h.host) == n)
                && HostStep(h, n, ch, m) == h.(state := s, host := Span(if h.host.len > 0 then h.host.off else n, h.host.len + 1))
  {
  }

  lemma PieceGrows(b: seq<byte>, lo: nat, k: nat, s: Span, ch: byte)
    requires HostPiece(b, lo, k, s)
    ensures HostPiece(b + [ch], lo, k, s)
    ensures End(s) == |b| && Allows(k, ch) ==> HostPiece(b + [ch], lo, k, Span(s.off, s.len + 1))
    ensures lo <= |b| && Allows(k, ch) ==> HostPiece(b + [ch], lo, k, Span(|b|, 1))
  {
    hide Allows;
  }

  lemma HostStepWell(h: HostScan, lo: nat, b: seq<byte>, ch: byte, m: Width := UINT16_SPAN)
    requires HostInv(h, lo, b) && |b| + 1 < m && !ParseHostChar(h.state, ch).HostDead?
    ensures HostWell(HostStep(h, |b|, ch, m), lo, b + [ch]) && HostInOrder(HostStep(h, |b|, ch, m))
    ensures HostReached(HostStep(h, |b|, ch, m), |b| + 1)
  {
    HostTable(h, |b|, ch, m);
    hide HostCovered, ParseHostChar, HostPiece, Allows;
    if h.userinfo.Some? {
      PieceGrows(b, lo, 1, h.userinfo.value, ch);
    }
    PieceGrows(b, lo, 2, h.host, ch);
    if h.port.Some? {
      PieceGrows(b, lo, 3, h.port.value, ch);
    }
    NewPiece(b, lo, ch);
    NoWrap(h, lo, b, m);
  }

  lemma NewPiece(b: seq<byte>, lo: nat, ch: byte)
    requires lo <= |b|
    ensures forall k :: Allows(k, ch) ==> HostPiece(b + [ch], lo, k, Span(|b|, 1))
  {
    hide Allows;
  }

  lemma NoWrap(h: HostScan, lo: nat, b: seq<byte>, m: Width := UINT16_SPAN)
    requires HostWell(h, lo, b) && |b| + 1 < m
    ensures Word(|b|, m) == |b|
    ensures h.userinfo.Some? ==> Longer(h.userinfo.value, m) == Span(h.userinfo.value.off, h.userinfo.value.len + 1)
                                 && End(h.userinfo.value) <= |b|
    ensures h.port.Some? ==> Longer(h.port.value, m) == Span(h.port.value.off, h.port.value.len + 1)
                             && End(h.port.value) <= |b|
    ensures End(h.host) <= |b|
  {
    hide Word, Longer, Allows;
    WordSmall(|b|, m);
    if h.userinfo.Some? {
      LongerSmall(h.userinfo.value, m);
    }
    if h.port.Some? {
      LongerSmall(h.port.value, m);
    }
  }

  lemma HostStepCovered(h: HostScan, lo: nat, b: seq<byte>, ch: byte, m: Width := UINT16_SPAN)
    requires HostInv(h, lo, b) && |b| + 1 < m && !ParseHostChar(h.state, ch).HostDead?
    ensures HostCovered(HostStep(h, |b|, ch, m), lo, b + [ch])
  {
    HostTable(h, |b|, ch, m);
    NoWrap(h, lo, b, m);
    hide HostWell, HostInOrder, Allows, ParseHostChar, HostReached;
    var g := HostStep(h, |b|, ch, m);
    assert IsDelimiter(ch) || InHostPiece(g, |b|);
    forall i | lo <= i < |b| + 1
      ensures IsDelimiter((b + [ch])[i]) || InHostPiece(g, i)
    {
      if i < |b| {
        assert IsDelimiter(b[i]) || InHostPiece(h, i);
      }
    }
  }

  lemma {:induction false} HostScanInv(h: HostScan, lo: nat, b: seq<byte>, t: seq<byte>, m: Width := UINT16_SPAN)
    requires HostInv(h, lo, b) && |b| + |t| < m && !HostScanAll(h, |b|, t, m).state.HostDead?
    ensures HostInv(HostScanAll(h, |b|, t, m), lo, b + t)
    decreases |t|
  {
    hide HostWell, HostInOrder, HostCovered, HostReached, HostStep, ParseHostChar;
    if t == [] {
      assert b + t == b;
    } else {
      if ParseHostChar(h.state, t[0]).HostDead? {
        HostDeadStays(h, |b|, t, m);
      }
      HostStepWell(h, lo, b, t[0], m);
      HostStepCovered(h, lo, b, t[0], m);
      assert b + t == (b + [t[0]]) + t[1..];
      HostScanInv(HostStep(h, |b|, t[0], m), lo, b + [t[0]], t[1..], m);
    }
  }

  lemma {:induction false} HostDeadStays(h: HostScan, pos: nat, t: seq<byte>, m: Width := UINT16_SPAN)
    requires h.state.HostDead? || (t != [] && ParseHostChar(h.state, t[0]).HostDead?)
    ensures HostScanAll(h, pos, t, m).state.HostDead?
    decreases |t|
  {
    if t != [] {
      HostDeadStays(HostStep(h, pos, t[0], m), pos + 1, t[1..], m);
    }
  }

  // ---------------------------------------------------------------- the partition

  /** The fields of a URL in their order. */
  function Fields(u: Parts): seq<Option<Span>> {
    [u.schema, u.userinfo, u.host, u.port, u.path, u.query, u.fragment]
  }

  /** Fields that are set are not empty and within the input, and are made of their own characters. */
  ghost predicate FieldsWell(buf: seq<byte>, u: Parts) {
    forall k :: 0 <= k < 7 && Fields(u)[k].Some? ==> FieldWell(buf, k, Fields(u)[k].value)
  }

  ghost predicate FieldWell(buf: seq<byte>, k: nat, s: Span) {
    s.len > 0 && End(s) <= |buf| && forall i :: s.off <= i < End(s) ==> Allows(k, buf[i])
  }

  ghost predicate FieldsInOrder(u: Parts) {
    forall j, k :: 0 <= j < k < 7 ==> Before(Fields(u)[j], Fields(u)[k])
  }

  /** Every byte is in a field or is a delimiter. */
  ghost predicate FieldsCover(buf: seq<byte>, u: Parts) {
    forall i :: 0 <= i < |buf| ==> IsDelimiter(buf[i]) || exists k :: 0 <= k < 7 && Inside(Fields(u)[k], i)
  }

  /** Splitting the authority keeps what the first pass has found around it. */
  lemma SplitPartition(buf: seq<byte>, z: Scan, m: Width := UINT16_SPAN)
    requires |buf| < m && UrlInv(z, buf) && SplitHost(buf, z, m).Some?
    ensures var u := SplitHost(buf, z, m).value;
      && FieldsWell(buf, u) && FieldsInOrder(u) && FieldsCover(buf, u) && Starts(buf, u)
      && u.schema == z.u.schema && (u.host.Some? <==> z.u.host.Some?) && u.value == 0
      && (u.port.Some? || u.userinfo.Some? ==> u.host.Some?)
  {
    var u := SplitHost(buf, z, m).value;
    if z.u.host.None? {
      NoHostCover(buf, z.u);
    } else {
      var a := z.u.host.value;
      var h := HostScan(if z.at then UserinfoStart else HostStart, None, Span(a.off, 0), None);
      var b, t := buf[..a.off], buf[a.off..End(a)];
      var g := HostScanAll(h, a.off, t, m);
      assert HostInv(h, a.off, b);
      HostScanInv(h, a.off, b, t, m);
      assert b + t == buf[..End(a)];
      SplitWell(buf, z, g);
      SplitCover(buf, z, g);
    }
  }

  lemma NoHostCover(buf: seq<byte>, u: Parts)
    requires AllWell(buf, u) && InOrder(u) && Covered(buf, u) && u.host.None? && u.userinfo.None? && u.port.None?
    ensures FieldsWell(buf, u) && FieldsInOrder(u) && FieldsCover(buf, u)
  {
    forall i | 0 <= i < |buf|
      ensures IsDelimiter(buf[i]) || exists k :: 0 <= k < 7 && Inside(Fields(u)[k], i)
    {
      assert IsDelimiter(buf[i]) || InPiece(u, i);
      Found(u, i);
    }
  }

  lemma Found(u: Parts, i: nat)
    ensures (Inside(u.schema, i) || Inside(u.userinfo, i) || Inside(u.host, i) || Inside(u.port, i) || Inside(u.path, i)
             || Inside(u.query, i) || Inside(u.fragment, i)) ==> exists k :: 0 <= k < 7 && Inside(Fields(u)[k], i)
  {
    assert Fields(u)[0] == u.schema && Fields(u)[1] == u.userinfo && Fields(u)[2] == u.host && Fields(u)[3] == u.port;
    assert Fields(u)[4] == u.path && Fields(u)[5] == u.query && Fields(u)[6] == u.fragment;
  }

  lemma SplitWell(buf: seq<byte>, z: Scan, g: HostScan)
    requires UrlInv(z, buf) && z.u.host.Some? && HostEnds(g.state)
    requires HostInv(g, z.u.host.value.off, buf[..End(z.u.host.value)])
    ensures var u := z.u.(userinfo := g.userinfo, host := Some(g.host), port := g.port);
      FieldsWell(buf, u) && FieldsInOrder(u) && Starts(buf, u)
  {
    var u := z.u.(userinfo := g.userinfo, host := Some(g.host), port := g.port);
    SplitFields(buf, z, g);
    SplitOrder(buf, z, g);
  }

  lemma SplitFields(buf: seq<byte>, z: Scan, g: HostScan)
    requires AllWell(buf, z.u) && z.u.host.Some? && HostEnds(g.state)
    requires HostInv(g, z.u.host.value.off, buf[..End(z.u.host.value)])
    ensures FieldsWell(buf, z.u.(userinfo := g.userinfo, host := Some(g.host), port := g.port))
  {
    hide HostCovered, HostInOrder, IsHostText, IsUserinfoChar, IsNum, IsAlpha, IsUrlChar;
    var u := z.u.(userinfo := g.userinfo, host := Some(g.host), port := g.port);
    var b := buf[..End(z.u.host.value)];
    assert forall i :: 0 <= i < |b| ==> b[i] == buf[i];
    forall k | 0 <= k < 7 && Fields(u)[k].Some?
      ensures FieldWell(buf, k, Fields(u)[k].value)
    {
      match k
      case 0 => assert Well(buf, Scheme, u.schema);
      case 1 => assert HostPiece(b, z.u.host.value.off, 1, g.userinfo.value);
      case 2 => assert HostPiece(b, z.u.host.value.off, 2, g.host);
      case 3 => assert HostPiece(b, z.u.host.value.off, 3, g.port.value);
      case 4 => assert Well(buf, Path, u.path);
      case 5 => assert Well(buf, Query, u.query);
      case _ => assert Well(buf, Fragment, u.fragment);
    }
  }

  lemma SplitOrder(buf: seq<byte>, z: Scan, g: HostScan)
    requires AllWell(buf, z.u) && InOrder(z.u) && z.u.host.Some? && HostEnds(g.state)
    requires HostInv(g, z.u.host.value.off, buf[..End(z.u.host.value)])
    ensures FieldsInOrder(z.u.(userinfo := g.userinfo, host := Some(g.host), port := g.port))
  {
    hide HostCovered, Allows, Allowed;
    var u := z.u.(userinfo := g.userinfo, host := Some(g.host), port := g.port);
    var a := z.u.host.value;
    assert u.userinfo.Some? ==> a.off <= u.userinfo.value.off && End(u.userinfo.value) <= End(a);
    assert u.port.Some? ==> a.off <= u.port.value.off && End(u.port.value) <= End(a);
    assert a.off <= u.host.value.off && End(u.host.value) <= End(a);
    assert Before(u.userinfo, u.host) && Before(u.userinfo, u.port) && Before(u.host, u.port);
    hide AllWell, HostInv;
    PairsInOrder(u, a);
  }

  /** The pairs of fields, around and inside the authority a. */
  lemma PairsInOrder(u: Parts, a: Span)
    requires Before(u.schema, Some(a)) && Before(Some(a), u.path) && Before(Some(a), u.query) && Before(Some(a), u.fragment)
    requires Before(u.schema, u.path) && Before(u.schema, u.query) && Before(u.schema, u.fragment)
    requires Before(u.path, u.query) && Before(u.path, u.fragment) && Before(u.query, u.fragment)
    requires u.userinfo.Some? ==> a.off <= u.userinfo.value.off && End(u.userinfo.value) <= End(a)
    requires u.host.Some? ==> a.off <= u.host.value.off && End(u.host.value) <= End(a)
    requires u.port.Some? ==> a.off <= u.port.value.off && End(u.port.value) <= End(a)
    requires Before(u.userinfo, u.host) && Before(u.userinfo, u.port) && Before(u.host, u.port)
    ensures FieldsInOrder(u)
  {
  }

  lemma SplitCover(buf: seq<byte>, z: Scan, g: HostScan)
    requires UrlInv(z, buf) && z.u.host.Some?
    requires HostInv(g, z.u.host.value.off, buf[..End(z.u.host.value)])
    ensures FieldsCover(buf, z.u.(userinfo := g.userinfo, host := Some(g.host), port := g.port))
  {
    hide InOrder, HostInOrder, HostWell, HostReached, Reached, Starts;
    var u := z.u.(userinfo := g.userinfo, host := Some(g.host), port := g.port);
    var b := buf[..End(z.u.host.value)];
    forall i | 0 <= i < |buf|
      ensures IsDelimiter(buf[i]) || exists k :: 0 <= k < 7 && Inside(Fields(u)[k], i)
    {
      assert IsDelimiter(buf[i]) || InPiece(z.u, i);
      if Inside(z.u.host, i) {
        assert b[i] == buf[i];
        assert IsDelimiter(b[i]) || InHostPiece(g, i);
      }
      Found(u, i);
    }
  }

  lemma {:induction false} DecimalGrows(t: seq<byte>, n: nat)
    requires n <= |t|
    ensures Decimal(t[..n]) <= Decimal(t)
    decreases |t|
  {
    if n == |t| {
      assert t[..n] == t;
    } else {
      var front := t[..|t| - 1];
      assert t[..n] == front[..n];
      DecimalGrows(front, n);
    }
  }

  lemma {:induction false} PortFrom(a: seq<byte>, b: seq<byte>)
    requires forall i :: 0 <= i < |a + b| ==> IsNum((a + b)[i])
    requires Decimal(a) <= 0xffff
    ensures PortValue(Decimal(a), b) == if Decimal(a + b) <= 0xffff then Some(Decimal(a + b)) else None
    decreases |b|
  {
    if b == [] {
      assert a + b == a;
    } else {
      var next := a + [b[0]];
      assert next[..|a|] == a && (a + b)[|a|] == b[0] && next + b[1..] == a + b;
      assert Decimal(next) == Decimal(a) * 10 + (b[0] - 48);
      assert PortStep(Decimal(a), b[0]) == if Decimal(next) <= 0xffff then Some(Decimal(next)) else None;
      assert (a + b)[..|next|] == next;
      DecimalGrows(a + b, |next|);
      if Decimal(next) <= 0xffff {
        PortFrom(next, b[1..]);
      }
    }
  }

  /** For digits the port loop gives their decimal value, or refuses them when it is above 65535. */
  lemma PortIsDecimal(t: seq<byte>)
    requires forall i :: 0 <= i < |t| ==> IsNum(t[i])
    ensures PortValue(0, t) == if Decimal(t) <= 0xffff then Some(Decimal(t)) else None
  {
    assert [] + t == t && Decimal([]) == 0;
    PortFrom([], t);
  }

  lemma PortDigits(buf: seq<byte>, u: Parts)
    requires FieldsWell(buf, u) && u.port.Some?
    ensures forall i :: 0 <= i < |Slice(buf, u.port.value)| ==> IsNum(Slice(buf, u.port.value)[i])
  {
    hide Allowed, IsHostText, IsUserinfoChar, IsNum;
    assert FieldWell(buf, 3, Fields(u)[3].value);
  }

  /** A URL of at most 65535 bytes that parses: its fields lie within it, in the order scheme,
      userinfo, host, port, path, query, fragment, and do not overlap; every other byte is a delimiter;
      a scheme has a host; and the port is the decimal value of its digits, at most 65535. */
  lemma UrlPartition(buf: seq<byte>, connect: bool, m: Width := UINT16_SPAN)
    requires |buf| < m && ParseUrl(buf, connect, m).Some?
    ensures var u := ParseUrl(buf, connect, m).value;
      && FieldsWell(buf, u) && FieldsInOrder(u) && FieldsCover(buf, u) && Starts(buf, u)
      && (u.schema.Some? ==> u.host.Some?)
      && (u.port.Some? ==> u.host.Some? && u.value == Decimal(Slice(buf, u.port.value)) <= 0xffff)
      && (u.port.None? ==> u.value == 0) && (connect ==> HostAndPort(u))
  {
    hide UrlInv, FieldsWell, FieldsInOrder, FieldsCover, Starts, UrlScan, SplitHost, PortValue, Decimal, Slice;
    var z := UrlScan(StartScan(connect), 0, buf, m);
    StartInv(connect);
    UrlScanInv(StartScan(connect), [], buf, m);
    assert [] + buf == buf;
    SplitPartition(buf, z, m);
    var u := SplitHost(buf, z, m).value;
    if u.port.Some? {
      PortDigits(buf, u);
      PortIsDecimal(Slice(buf, u.port.value));
    }
    ValueAside(buf, u, ParseUrl(buf, connect, m).value);
  }

  lemma StartInv(connect: bool)
    ensures UrlInv(StartScan(connect), [])
  {
  }

  lemma ValueAside(buf: seq<byte>, u: Parts, v: Parts)
    requires v == u.(value := v.value) && FieldsWell(buf, u) && FieldsInOrder(u) && FieldsCover(buf, u) && Starts(buf, u)
    ensures FieldsWell(buf, v) && FieldsInOrder(v) && FieldsCover(buf, v) && Starts(buf, v)
  {
    assert Fields(v) == Fields(u);
  }

  // ---------------------------------------------------------------- longer URLs

  /** A path goes on, its length in 16 bits. */
  lemma {:induction false} PathGoesOn(z: Scan, pos: nat, t: seq<byte>)
    requires z.state.ReqPath? && z.last == Some(Path) && z.u.path.Some? && forall i :: 0 <= i < |t| ==> IsUrlChar(t[i])
    requires z.u.path.value.len < UINT16_SPAN
    ensures UrlScan(z, pos, t) == z.(u := z.u.(path := Some(z.u.path.value.(len := Word(z.u.path.value.len + |t|)))))
    decreases |t|
  {
    hide ParseUrlChar;
    if t != [] {
      UrlCharStays(t[0]);
      PathGoesOn(UrlStep(z, pos, t[0]), pos + 1, t[1..]);
    }
  }

  lemma UrlCharStays(ch: byte)
    ensures IsUrlChar(ch) ==> ParseUrlChar(ReqPath, ch) == ReqPath
  {
  }

  /** In a longer URL the numbers of a field can wrap: a path of '/' and 65536 letters parses as the
      path "/", and the letters are neither in a field nor delimiters. */
  lemma LongPathWraps(t: seq<byte>)
    requires |t| == UINT16_SPAN && forall i :: 0 <= i < |t| ==> t[i] == 97
    ensures var url := [SLASH] + t;
      ParseUrl(url, false) == Some(NO_PARTS.(path := Some(Span(0, 1)))) && !FieldsCover(url, ParseUrl(url, false).value)
  {
    var url := [SLASH] + t;
    var z := UrlStep(StartScan(false), 0, SLASH);
    assert z == Scan(ReqPath, Some(Path), false, NO_PARTS.(path := Some(Span(0, 1))));
    assert url[0] == SLASH && url[1..] == t;
    PathGoesOn(z, 1, t);
    assert UrlScan(StartScan(false), 0, url) == z;
    hide UrlScan;
    var u := NO_PARTS.(path := Some(Span(0, 1)));
    assert ParseUrl(url, false) == Some(u);
    NotCovered(url, u);
  }

  lemma NotCovered(url: seq<byte>, u: Parts)
    requires |url| > 1 && url[1] == 97 && u == NO_PARTS.(path := Some(Span(0, 1)))
    ensures !FieldsCover(url, u)
  {
    assert !IsDelimiter(url[1]) && forall k :: 0 <= k < 7 ==> !Inside(Fields(u)[k], 1);
  }
}
