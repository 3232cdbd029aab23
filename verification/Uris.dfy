/** Uri: what Create reads from a URL, what toString prints, and exactly when the printed form reads
    back as the same Uri. */
module Uris {
  import opened Bytes
  import opened HttpTypes
  import opened HttpStep
  import opened HttpUrl
  import opened HttpUrlPartition

  // ---------------------------------------------------------------- Uri

  datatype Uri = Uri(
    scheme: seq<byte>,
    userinfo: seq<byte>,
    host: seq<byte>,
    port: nat,
    path: seq<byte>,
    query: seq<byte>,
    fragment: seq<byte>)

  const HTTP_SCHEME: seq<byte> := [104, 116, 116, 112]
  const HTTPS_SCHEME: seq<byte> := [104, 116, 116, 112, 115]
  const WS_SCHEME: seq<byte> := [119, 115]
  const WSS_SCHEME: seq<byte> := [119, 115, 115]

  /** The substring of a field, empty when the field is not set. */
  function Text(url: seq<byte>, s: Option<Span>): seq<byte> {
    if s.Some? then Slice(url, s.value) else []
  }

  function DefaultPort(scheme: seq<byte>): nat {
    if scheme == HTTP_SCHEME || scheme == WS_SCHEME then 80 else if scheme == HTTPS_SCHEME then 443 else 0
  }

  /** Uri::Create */
  function Create(url: seq<byte>): Option<Uri> {
    match ParseUrl(url, false)
    case None => None
    case Some(u) =>
      Some(Uri(Text(url, u.schema), Text(url, u.userinfo), Text(url, u.host),
               if u.port.Some? then Decimal(Slice(url, u.port.value)) else DefaultPort(Text(url, u.schema)),
               Text(url, u.path), Text(url, u.query), Text(url, u.fragment)))
  }

  /** Uri::getPort, which also knows wss */
  function GetPort(u: Uri): nat {
    if u.port != 0 then u.port
    else if u.scheme == HTTP_SCHEME || u.scheme == WS_SCHEME then 80
    else if u.scheme == HTTPS_SCHEME || u.scheme == WSS_SCHEME then 443
    else 0
  }

  /** Uri::getPath */
  function GetPath(u: Uri): seq<byte> {
    if u.path == [] then [SLASH] else u.path
  }

  /** Uri::isDefaultPort */
  predicate IsDefaultPort(u: Uri) {
    if u.scheme == HTTP_SCHEME || u.scheme == WS_SCHEME then u.port == 80
    else u.scheme == HTTPS_SCHEME && u.port == 443
  }

  /** std::to_string */
  function Digits(n: nat): (t: seq<byte>)
    ensures t != []
  {
    if n < 10 then [48 + n] else Digits(n / 10) + [48 + n % 10]
  }

  function UserPart(u: Uri): seq<byte> {
    if u.userinfo == [] then [] else u.userinfo + [AT]
  }

  function PortPart(u: Uri): seq<byte> {
    if IsDefaultPort(u) then [] else [COLON] + Digits(u.port)
  }

  function AuthorityPart(u: Uri): seq<byte> {
    UserPart(u) + u.host + PortPart(u)
  }

  function QueryPart(u: Uri): seq<byte> {
    if u.query == [] then [] else [QUESTION] + u.query
  }

  function FragmentPart(u: Uri): seq<byte> {
    if u.fragment == [] then [] else [HASH] + u.fragment
  }

  /** Uri::toString */
  function ToString(u: Uri): seq<byte> {
    u.scheme + [COLON, SLASH, SLASH] + AuthorityPart(u) + GetPath(u) + QueryPart(u) + FragmentPart(u)
  }

  /** What the getters show of a Uri. */
  datatype View = View(scheme: seq<byte>, userinfo: seq<byte>, host: seq<byte>, port: nat, path: seq<byte>,
                       query: seq<byte>, fragment: seq<byte>)

  function Getters(u: Uri): View {
    View(u.scheme, u.userinfo, u.host, GetPort(u), GetPath(u), u.query, u.fragment)
  }

  // ---------------------------------------------------------------- numbers

  lemma {:induction false} DigitsRead(n: nat)
    ensures Decimal(Digits(n)) == n && forall i :: 0 <= i < |Digits(n)| ==> IsNum(Digits(n)[i])
  {
    var t := Digits(n);
    if n < 10 {
      assert t[..|t| - 1] == [] && Decimal([]) == 0;
    } else {
      DigitsRead(n / 10);
      assert t[..|t| - 1] == Digits(n / 10);
    }
  }

  // ---------------------------------------------------------------- parsed Uris

  ghost predicate Made(t: seq<byte>, k: nat) {
    forall i :: 0 <= i < |t| ==> Allows(k, t[i])
  }

  /** What every Uri is that came from a URL. */
  ghost predicate WellFormed(u: Uri) {
    && Made(u.scheme, 0) && Made(u.userinfo, 1) && Made(u.host, 2) && Made(u.path, 4) && Made(u.query, 5)
    && Made(u.fragment, 6) && u.port <= 0xffff
    && (u.scheme != [] ==> u.host != [] && (u.path != [] ==> u.path[0] == SLASH))
    && (u.fragment != [] ==> u.fragment[0] != HASH)
  }

  lemma TextMade(url: seq<byte>, p: Parts, k: nat)
    requires k < 7 && FieldsWell(url, p)
    ensures Made(Text(url, Fields(p)[k]), k)
    ensures Text(url, Fields(p)[k]) == [] <==> Fields(p)[k].None?
    ensures Fields(p)[k].Some? ==> Text(url, Fields(p)[k])[0] == url[Fields(p)[k].value.off]
  {
    if Fields(p)[k].Some? {
      assert FieldWell(url, k, Fields(p)[k].value);
    }
  }

  lemma CreateWellFormed(url: seq<byte>)
    requires |url| < UINT16_SPAN && Create(url).Some?
    ensures WellFormed(Create(url).value)
  {
    hide ParseUrl, FieldsWell, FieldsInOrder, FieldsCover, Made, Text, Decimal, Slice;
    UrlPartition(url, false);
    var p := ParseUrl(url, false).value;
    TextMade(url, p, 0);
    TextMade(url, p, 1);
    TextMade(url, p, 2);
    TextMade(url, p, 4);
    TextMade(url, p, 5);
    TextMade(url, p, 6);
    InBounds(url, p);
  }

  lemma InBounds(url: seq<byte>, p: Parts)
    requires FieldsWell(url, p)
    ensures p.path.Some? ==> p.path.value.off < |url|
    ensures p.fragment.Some? ==> p.fragment.value.off < |url|
  {
    assert p.path.Some? ==> FieldWell(url, 4, Fields(p)[4].value);
    assert p.fragment.Some? ==> FieldWell(url, 6, Fields(p)[6].value);
  }

  // ---------------------------------------------------------------- the first pass over a printed form

  lemma {:induction false} UrlScanAppend(z: Scan, pos: nat, a: seq<byte>, b: seq<byte>)
    ensures UrlScan(z, pos, a + b) == UrlScan(UrlScan(z, pos, a), pos + |a|, b)
    decreases |a|
  {
    hide UrlStep;
    if a == [] {
      assert a + b == b;
    } else {
      assert (a + b)[0] == a[0] && (a + b)[1..] == a[1..] + b;
      UrlScanAppend(UrlStep(z, pos, a[0]), pos + 1, a[1..], b);
    }
  }

  /** Every byte of t, the first from the state s and the others from st, leads to st. */
  ghost predicate LeadsTo(s: State, t: seq<byte>, st: State) {
    t != [] && ParseUrlChar(s, t[0]) == st && forall i :: 0 < i < |t| ==> ParseUrlChar(st, t[i]) == st
  }

  /** The bytes of one field make it as long as they are. */
  lemma {:induction false} Grows(z: Scan, pos: nat, t: seq<byte>, st: State, f: Piece)
    requires LeadsTo(z.state, t, st) && PieceOf(st) == Some(f) && !st.ReqServerWithAt?
    requires z.last == Some(f) && Get(z.u, f).Some? && End(Get(z.u, f).value) == pos && pos + |t| < UINT16_SPAN
    ensures var s := Get(z.u, f).value;
      UrlScan(z, pos, t) == Scan(st, Some(f), z.at, Set(z.u, f, Span(s.off, s.len + |t|)))
    decreases |t|
  {
    hide ParseUrlChar;
    var y := UrlStep(z, pos, t[0]);
    var s := Get(z.u, f).value;
    GetSet(z.u, f, Span(s.off, s.len + 1), Span(s.off, s.len + |t|));
    assert y == Scan(st, Some(f), z.at, Set(z.u, f, Span(s.off, s.len + 1)));
    if |t| > 1 {
      Grows(y, pos + 1, t[1..], st, f);
    } else {
      assert t[1..] == [];
    }
  }

  lemma GetSet(u: Parts, f: Piece, s: Span, t: Span)
    ensures Get(Set(u, f, s), f) == Some(s) && Set(Set(u, f, s), f, t) == Set(u, f, t)
  {
  }

  /** The bytes of a new field. */
  lemma Appears(z: Scan, pos: nat, t: seq<byte>, st: State, f: Piece)
    requires LeadsTo(z.state, t, st) && PieceOf(st) == Some(f) && !st.ReqServerWithAt?
    requires z.last != Some(f) && pos + |t| < UINT16_SPAN
    ensures UrlScan(z, pos, t) == Scan(st, Some(f), z.at, Set(z.u, f, Span(pos, |t|)))
  {
    hide ParseUrlChar;
    var y := UrlStep(z, pos, t[0]);
    GetSet(z.u, f, Span(pos, 1), Span(pos, |t|));
    assert y == Scan(st, Some(f), z.at, Set(z.u, f, Span(pos, 1)));
    if |t| > 1 {
      Grows(y, pos + 1, t[1..], st, f);
    } else {
      assert t[1..] == [];
    }
  }

  /** The scan behind the scheme and "://". */
  function AfterScheme(u: Uri): Scan {
    Scan(ReqServerStart, Some(Scheme), false, NO_PARTS.(schema := Some(Span(0, |u.scheme|))))
  }

  lemma SchemePass(u: Uri)
    requires u.scheme != [] && Made(u.scheme, 0) && |u.scheme| < UINT16_SPAN
    ensures UrlScan(StartScan(false), 0, u.scheme + [COLON, SLASH, SLASH]) == AfterScheme(u)
  {
    var z := StartScan(false);
    UrlScanAppend(z, 0, u.scheme, [COLON, SLASH, SLASH]);
    assert LeadsTo(z.state, u.scheme, ReqSchema) by { AlphaLeads(u.scheme); }
    Appears(z, 0, u.scheme, ReqSchema, Scheme);
    SlashesPass(UrlScan(z, 0, u.scheme), |u.scheme|);
  }

  lemma AlphaLeads(t: seq<byte>)
    requires t != [] && Made(t, 0)
    ensures LeadsTo(ReqSpacesBeforeUrl, t, ReqSchema)
  {
    forall i | 0 <= i < |t|
      ensures ParseUrlChar(ReqSpacesBeforeUrl, t[i]) == ParseUrlChar(ReqSchema, t[i]) == ReqSchema
    {
      assert Allows(0, t[i]);
    }
  }

  lemma NoByte(z: Scan, pos: nat)
    ensures UrlScan(z, pos, []) == z
  {
  }

  lemma OneByte(z: Scan, pos: nat, ch: byte)
    ensures UrlScan(z, pos, [ch]) == UrlStep(z, pos, ch)
  {
    hide UrlStep;
    assert [ch][1..] == [];
  }

  lemma SlashesPass(z: Scan, pos: nat)
    requires z.state.ReqSchema?
    ensures UrlScan(z, pos, [COLON, SLASH, SLASH]) == z.(state := ReqServerStart)
  {
    hide UrlScan;
    assert [COLON, SLASH, SLASH] == [COLON] + ([SLASH] + [SLASH]);
    UrlScanAppend(z, pos, [COLON], [SLASH] + [SLASH]);
    OneByte(z, pos, COLON);
    UrlScanAppend(z.(state := ReqSchemaSlash), pos + 1, [SLASH], [SLASH]);
    OneByte(z.(state := ReqSchemaSlash), pos + 1, SLASH);
    OneByte(z.(state := ReqSchemaSlashSlash), pos + 2, SLASH);
  }

  predicate IsServerState(s: State) {
    s.ReqServerStart? || s.ReqServer? || s.ReqServerWithAt?
  }

  /** Userinfo, host and port are server characters. */
  lemma ServerLeads(s: State, t: seq<byte>)
    requires IsServerState(s) && t != [] && forall i :: 0 <= i < |t| ==> IsUserinfoChar(t[i])
    ensures LeadsTo(s, t, ReqServer)
  {
    hide IsUserinfoChar;
    forall i | 0 <= i < |t|
      ensures ParseUrlChar(s, t[i]) == ReqServer && ParseUrlChar(ReqServer, t[i]) == ReqServer
    {
      ServerChar(s, t[i]);
      ServerChar(ReqServer, t[i]);
    }
  }

  lemma ServerChar(s: State, ch: byte)
    requires IsServerState(s) && IsUserinfoChar(ch)
    ensures ParseUrlChar(s, ch) == ReqServer
  {
  }

  lemma HostTextIsServer(t: seq<byte>)
    requires Made(t, 2)
    ensures forall i :: 0 <= i < |t| ==> IsUserinfoChar(t[i])
  {
    forall i | 0 <= i < |t|
      ensures IsUserinfoChar(t[i])
    {
      assert Allows(2, t[i]);
    }
  }

  lemma HostAndPortAreServer(u: Uri)
    requires Made(u.host, 2)
    ensures forall i :: 0 <= i < |u.host + PortPart(u)| ==> IsUserinfoChar((u.host + PortPart(u))[i])
  {
    HostTextIsServer(u.host);
    DigitsRead(u.port);
  }

  function AfterAuthority(u: Uri): Scan {
    Scan(ReqServer, Some(Authority), u.userinfo != [],
         AfterScheme(u).u.(host := Some(Span(|u.scheme| + 3, |AuthorityPart(u)|))))
  }

  lemma AuthorityPass(u: Uri)
    requires WellFormed(u) && u.scheme != [] && |u.scheme| + 3 + |AuthorityPart(u)| < UINT16_SPAN
    ensures UrlScan(AfterScheme(u), |u.scheme| + 3, AuthorityPart(u)) == AfterAuthority(u)
  {
    hide ParseUrlChar, Digits, UrlScan, LeadsTo, PortPart;
    var z, pos, rest := AfterScheme(u), |u.scheme| + 3, u.host + PortPart(u);
    HostAndPortAreServer(u);
    if u.userinfo == [] {
      assert AuthorityPart(u) == rest;
      ServerLeads(z.state, rest);
      Appears(z, pos, rest, ReqServer, Authority);
    } else {
      assert AuthorityPart(u) == u.userinfo + ([AT] + rest);
      UrlScanAppend(z, pos, u.userinfo, [AT] + rest);
      UserinfoIsServer(u.userinfo);
      ServerLeads(z.state, u.userinfo);
      Appears(z, pos, u.userinfo, ReqServer, Authority);
      var y := UrlScan(z, pos, u.userinfo);
      UrlScanAppend(y, pos + |u.userinfo|, [AT], rest);
      AtPass(y, pos + |u.userinfo|);
      var x := UrlScan(y, pos + |u.userinfo|, [AT]);
      ServerLeads(x.state, rest);
      Grows(x, pos + |u.userinfo| + 1, rest, ReqServer, Authority);
    }
  }

  lemma UserinfoIsServer(t: seq<byte>)
    requires Made(t, 1)
    ensures forall i :: 0 <= i < |t| ==> IsUserinfoChar(t[i])
  {
    forall i | 0 <= i < |t|
      ensures IsUserinfoChar(t[i])
    {
      assert Allows(1, t[i]);
    }
  }

  lemma AtPass(z: Scan, pos: nat)
    requires z.state.ReqServer? && z.last == Some(Authority) && z.u.host.Some? && End(z.u.host.value) == pos < UINT16_SPAN - 1
    ensures UrlScan(z, pos, [AT]) == Scan(ReqServerWithAt, Some(Authority), true,
                                          z.u.(host := Some(Span(z.u.host.value.off, z.u.host.value.len + 1))))
  {
    assert [AT][1..] == [];
  }

  function PathOffset(u: Uri): nat {
    |u.scheme| + 3 + |AuthorityPart(u)|
  }

  function AfterPath(u: Uri): Scan {
    var z := AfterAuthority(u);
    Scan(ReqPath, Some(Path), z.at, z.u.(path := Some(Span(PathOffset(u), |GetPath(u)|))))
  }

  lemma PathLeads(u: Uri)
    requires WellFormed(u) && u.scheme != []
    ensures LeadsTo(ReqServer, GetPath(u), ReqPath)
  {
    var t := GetPath(u);
    assert t[0] == SLASH;
    forall i | 0 < i < |t|
      ensures ParseUrlChar(ReqPath, t[i]) == ReqPath
    {
      assert Allows(4, t[i]);
    }
  }

  function AfterQuery(u: Uri): Scan {
    var z, o := AfterPath(u), PathOffset(u) + |GetPath(u)| + 1;
    if u.query == [] then z else Scan(ReqQueryString, Some(Query), z.at, z.u.(query := Some(Span(o, |u.query|))))
  }

  lemma QueryPass(u: Uri, z: Scan, pos: nat)
    requires WellFormed(u) && z.state.ReqPath? && z.last != Some(Query) && pos + |QueryPart(u)| < UINT16_SPAN
    ensures UrlScan(z, pos, QueryPart(u)) ==
            if u.query == [] then z
            else Scan(ReqQueryString, Some(Query), z.at, z.u.(query := Some(Span(pos + 1, |u.query|))))
  {
    NoByte(z, pos);
    hide UrlScan, LeadsTo, Made;
    if u.query != [] {
      UrlScanAppend(z, pos, [QUESTION], u.query);
      OneByte(z, pos, QUESTION);
      assert UrlStep(z, pos, QUESTION) == z.(state := ReqQueryStringStart);
      hide UrlScan, UrlStep, ParseUrlChar, LeadsTo;
      QueryLeads(u.query);
      Appears(z.(state := ReqQueryStringStart), pos + 1, u.query, ReqQueryString, Query);
    }
  }

  lemma QueryLeads(t: seq<byte>)
    requires Made(t, 5) && t != []
    ensures LeadsTo(ReqQueryStringStart, t, ReqQueryString)
  {
    forall i | 0 <= i < |t|
      ensures ParseUrlChar(ReqQueryStringStart, t[i]) == ReqQueryString == ParseUrlChar(ReqQueryString, t[i])
    {
      assert Allows(5, t[i]);
    }
  }

  lemma FragmentPass(u: Uri, z: Scan, pos: nat)
    requires WellFormed(u) && (z.state.ReqPath? || z.state.ReqQueryString?) && z.last != Some(Fragment)
    requires pos + |FragmentPart(u)| < UINT16_SPAN
    ensures UrlScan(z, pos, FragmentPart(u)) ==
            if u.fragment == [] then z
            else Scan(ReqFragment, Some(Fragment), z.at, z.u.(fragment := Some(Span(pos + 1, |u.fragment|))))
  {
    NoByte(z, pos);
    hide UrlScan, LeadsTo, Made;
    if u.fragment != [] {
      UrlScanAppend(z, pos, [HASH], u.fragment);
      OneByte(z, pos, HASH);
      HashStarts(z, pos);
      hide UrlStep, ParseUrlChar;
      FragmentLeads(u.fragment);
      Appears(z.(state := ReqFragmentStart), pos + 1, u.fragment, ReqFragment, Fragment);
    }
  }

  lemma HashStarts(z: Scan, pos: nat)
    requires z.state.ReqPath? || z.state.ReqQueryString?
    ensures UrlStep(z, pos, HASH) == z.(state := ReqFragmentStart)
  {
  }

  lemma FragmentLeads(t: seq<byte>)
    requires Made(t, 6) && t != [] && t[0] != HASH
    ensures LeadsTo(ReqFragmentStart, t, ReqFragment)
  {
    forall i | 0 <= i < |t|
      ensures ParseUrlChar(ReqFragment, t[i]) == ReqFragment
      ensures i == 0 ==> ParseUrlChar(ReqFragmentStart, t[i]) == ReqFragment
    {
      assert Allows(6, t[i]);
    }
  }

  function Printed(u: Uri): Scan {
    var z, o := AfterQuery(u), PathOffset(u) + |GetPath(u)| + |QueryPart(u)| + 1;
    if u.fragment == [] then z else Scan(ReqFragment, Some(Fragment), z.at, z.u.(fragment := Some(Span(o, |u.fragment|))))
  }

  /** The first pass finds every part of a printed form where it was put. */
  lemma FirstPass(u: Uri)
    requires WellFormed(u) && u.scheme != [] && |ToString(u)| < UINT16_SPAN
    ensures UrlScan(StartScan(false), 0, ToString(u)) == Printed(u)
  {
    hide UrlScan, ParseUrlChar, WellFormed, AuthorityPart, GetPath, QueryPart, FragmentPart;
    var z := StartScan(false);
    var a, b, c, d, e := u.scheme + [COLON, SLASH, SLASH], AuthorityPart(u), GetPath(u), QueryPart(u), FragmentPart(u);
    UrlScanAppend(z, 0, a + b + c + d, e);
    UrlScanAppend(z, 0, a + b + c, d);
    UrlScanAppend(z, 0, a + b, c);
    UrlScanAppend(z, 0, a, b);
    assert Made(u.scheme, 0) by { SchemeMade(u); }
    SchemePass(u);
    AuthorityPass(u);
    PathLeads(u);
    Appears(AfterAuthority(u), PathOffset(u), c, ReqPath, Path);
    QueryPass(u, AfterPath(u), PathOffset(u) + |c|);
    FragmentPass(u, AfterQuery(u), PathOffset(u) + |c| + |d|);
  }

  lemma SchemeMade(u: Uri)
    requires WellFormed(u)
    ensures Made(u.scheme, 0)
  {
  }

  // ---------------------------------------------------------------- the second pass over a printed form

  lemma {:induction false} HostScanAppend(h: HostScan, pos: nat, a: seq<byte>, b: seq<byte>)
    ensures HostScanAll(h, pos, a + b) == HostScanAll(HostScanAll(h, pos, a), pos + |a|, b)
    decreases |a|
  {
    hide HostStep;
    if a == [] {
      assert a + b == b;
    } else {
      assert (a + b)[0] == a[0] && (a + b)[1..] == a[1..] + b;
      HostScanAppend(HostStep(h, pos, a[0]), pos + 1, a[1..], b);
    }
  }

  lemma OneHostByte(h: HostScan, pos: nat, ch: byte)
    ensures HostScanAll(h, pos, [ch]) == HostStep(h, pos, ch)
  {
    hide HostStep;
    assert [ch][1..] == [];
  }

  predicate AllHostChars(t: seq<byte>) {
    forall i :: 0 <= i < |t| ==> IsHostChar(t[i])
  }

  lemma {:induction false} UserinfoGrows(h: HostScan, pos: nat, t: seq<byte>)
    requires h.state.InUserinfo? && h.userinfo.Some? && End(h.userinfo.value) == pos && pos + |t| < UINT16_SPAN
    requires forall i :: 0 <= i < |t| ==> IsUserinfoChar(t[i])
    ensures HostScanAll(h, pos, t) ==
            h.(userinfo := Some(Span(h.userinfo.value.off, h.userinfo.value.len + |t|)))
    decreases |t|
  {
    if t != [] {
      UserinfoIsNotAt(t[0]);
      var g := HostStep(h, pos, t[0]);
      assert g == h.(userinfo := Some(Span(h.userinfo.value.off, h.userinfo.value.len + 1)));
      UserinfoGrows(g, pos + 1, t[1..]);
    }
  }

  lemma UserinfoIsNotAt(ch: byte)
    ensures IsUserinfoChar(ch) ==> ch != AT
  {
  }

  lemma UserinfoRun(h: HostScan, pos: nat, t: seq<byte>)
    requires h.state.UserinfoStart? && t != [] && pos + |t| < UINT16_SPAN
    requires forall i :: 0 <= i < |t| ==> IsUserinfoChar(t[i])
    ensures HostScanAll(h, pos, t) == h.(state := InUserinfo, userinfo := Some(Span(pos, |t|)))
  {
    UserinfoIsNotAt(t[0]);
    var g := HostStep(h, pos, t[0]);
    assert g == h.(state := InUserinfo, userinfo := Some(Span(pos, 1)));
    UserinfoGrows(g, pos + 1, t[1..]);
  }

  lemma {:induction false} HostGrows(h: HostScan, pos: nat, t: seq<byte>)
    requires h.state.InHost? && End(h.host) == pos && pos + |t| < UINT16_SPAN && AllHostChars(t)
    ensures HostScanAll(h, pos, t) == h.(host := Span(h.host.off, h.host.len + |t|))
    decreases |t|
  {
    if t != [] {
      var g := HostStep(h, pos, t[0]);
      assert g == h.(host := Span(h.host.off, h.host.len + 1));
      HostGrows(g, pos + 1, t[1..]);
    }
  }

  lemma HostRun(h: HostScan, pos: nat, t: seq<byte>)
    requires h.state.HostStart? && h.host.len == 0 && t != [] && pos + |t| < UINT16_SPAN && AllHostChars(t)
    ensures HostScanAll(h, pos, t) == h.(state := InHost, host := Span(pos, |t|))
  {
    assert IsHostChar(t[0]);
    var g := HostStep(h, pos, t[0]);
    assert g == h.(state := InHost, host := Span(pos, 1));
    HostGrows(g, pos + 1, t[1..]);
  }

  lemma {:induction false} PortGrows(h: HostScan, pos: nat, t: seq<byte>)
    requires h.state.InPort? && h.port.Some? && End(h.port.value) == pos && pos + |t| < UINT16_SPAN
    requires forall i :: 0 <= i < |t| ==> IsNum(t[i])
    ensures HostScanAll(h, pos, t) == h.(port := Some(Span(h.port.value.off, h.port.value.len + |t|)))
    decreases |t|
  {
    if t != [] {
      var g := HostStep(h, pos, t[0]);
      assert g == h.(port := Some(Span(h.port.value.off, h.port.value.len + 1)));
      PortGrows(g, pos + 1, t[1..]);
    }
  }

  lemma PortRun(h: HostScan, pos: nat, t: seq<byte>)
    requires h.state.InHost? && t != [] && pos + 1 + |t| < UINT16_SPAN && forall i :: 0 <= i < |t| ==> IsNum(t[i])
    ensures HostScanAll(h, pos, [COLON] + t) == h.(state := InPort, port := Some(Span(pos + 1, |t|)))
  {
    HostScanAppend(h, pos, [COLON], t);
    OneHostByte(h, pos, COLON);
    var g := h.(state := PortStart);
    assert HostStep(h, pos, COLON) == g;
    assert IsNum(t[0]);
    assert HostStep(g, pos + 1, t[0]) == h.(state := InPort, port := Some(Span(pos + 1, 1)));
    PortGrows(HostStep(g, pos + 1, t[0]), pos + 2, t[1..]);
  }

  // ---------------------------------------------------------------- hosts that are printed as they are

  function AuthorityOffset(u: Uri): nat {
    |u.scheme| + 3
  }

  function HostOffset(u: Uri): nat {
    AuthorityOffset(u) + |UserPart(u)|
  }

  /** The start of the second pass. */
  function HostScanStart(u: Uri): HostScan {
    HostScan(if u.userinfo != [] then UserinfoStart else HostStart, None, Span(AuthorityOffset(u), 0), None)
  }

  /** The second pass, at the beginning of the host. */
  function AtHost(u: Uri): HostScan {
    HostScan(HostStart, if u.userinfo == [] then None else Some(Span(AuthorityOffset(u), |u.userinfo|)),
             Span(AuthorityOffset(u), 0), None)
  }

  lemma UserPass(u: Uri)
    requires Made(u.userinfo, 1) && HostOffset(u) < UINT16_SPAN
    ensures HostScanAll(HostScanStart(u), AuthorityOffset(u), UserPart(u)) == AtHost(u)
  {
    if u.userinfo != [] {
      var h, pos := HostScanStart(u), AuthorityOffset(u);
      UserinfoIsServer(u.userinfo);
      HostScanAppend(h, pos, u.userinfo, [AT]);
      UserinfoRun(h, pos, u.userinfo);
      var g := h.(state := InUserinfo, userinfo := Some(Span(pos, |u.userinfo|)));
      OneHostByte(g, pos + |u.userinfo|, AT);
      assert HostStep(g, pos + |u.userinfo|, AT) == g.(state := HostStart);
    }
  }

  /** The second pass behind a host without brackets. */
  function Split(u: Uri): HostScan {
    var g := AtHost(u).(state := InHost, host := Span(HostOffset(u), |u.host|));
    if IsDefaultPort(u) then g
    else g.(state := InPort, port := Some(Span(HostOffset(u) + |u.host| + 1, |Digits(u.port)|)))
  }

  lemma SecondPass(u: Uri)
    requires WellFormed(u) && u.host != [] && AllHostChars(u.host) && AuthorityOffset(u) + |AuthorityPart(u)| < UINT16_SPAN
    ensures HostScanAll(HostScanStart(u), AuthorityOffset(u), AuthorityPart(u)) == Split(u)
  {
    hide HostScanAll, Digits;
    HostScanAppend(HostScanStart(u), AuthorityOffset(u), UserPart(u) + u.host, PortPart(u));
    HostScanAppend(HostScanStart(u), AuthorityOffset(u), UserPart(u), u.host);
    UserPass(u);
    HostRun(AtHost(u), HostOffset(u), u.host);
    var g := AtHost(u).(state := InHost, host := Span(HostOffset(u), |u.host|));
    if IsDefaultPort(u) {
      NoMore(g, HostOffset(u) + |u.host|);
    } else {
      DigitsRead(u.port);
      PortRun(g, HostOffset(u) + |u.host|, Digits(u.port));
    }
  }

  lemma NoMore(h: HostScan, pos: nat)
    ensures HostScanAll(h, pos, []) == h
  {
  }

  lemma Middle(a: seq<byte>, b: seq<byte>, c: seq<byte>)
    ensures Slice(a + b + c, Span(|a|, |b|)) == b
  {
  }

  // ---------------------------------------------------------------- hosts that are not

  /** Behind the colon of a port the host is as it was. */
  lemma {:induction false} PortKeepsHost(h: HostScan, pos: nat, t: seq<byte>)
    requires h.state.PortStart? || h.state.InPort?
    ensures var g := HostScanAll(h, pos, t); g.state.HostDead? || g.host == h.host
    decreases |t|
  {
    if t != [] {
      if ParseHostChar(h.state, t[0]).HostDead? {
        HostDeadStays(h, pos, t);
      } else {
        PortKeepsHost(HostStep(h, pos, t[0]), pos + 1, t[1..]);
      }
    }
  }

  /** The first character of a host that a plain host cannot have ends it. */
  lemma OddCharacter(h: HostScan, pos: nat, ch: byte, t: seq<byte>)
    requires (h.state.HostStart? || h.state.InHost?) && IsHostText(ch) && !IsHostChar(ch)
    ensures var g := HostScanAll(h, pos, [ch] + t); g.state.HostDead? || (h.state.InHost? && g.host == h.host)
  {
    assert ([ch] + t)[0] == ch && ([ch] + t)[1..] == t;
    if ParseHostChar(h.state, ch).HostDead? {
      HostDeadStays(h, pos, [ch] + t);
    } else {
      PortKeepsHost(HostStep(h, pos, ch), pos + 1, t);
    }
  }

  /** A host with such a character is cut short, or the printed form does not parse. */
  lemma OddHost(u: Uri, i: nat)
    requires WellFormed(u) && AuthorityOffset(u) + |AuthorityPart(u)| < UINT16_SPAN
    requires i < |u.host| && !IsHostChar(u.host[i]) && AllHostChars(u.host[..i])
    ensures var g := HostScanAll(HostScanStart(u), AuthorityOffset(u), AuthorityPart(u));
      g.state.HostDead? || g.host.len < |u.host|
  {
    hide HostScanAll, Digits, PortPart;
    var front, ch, back := u.host[..i], u.host[i], u.host[i + 1..] + PortPart(u);
    assert AuthorityPart(u) == UserPart(u) + (front + ([ch] + back));
    HostScanAppend(HostScanStart(u), AuthorityOffset(u), UserPart(u), front + ([ch] + back));
    HostScanAppend(AtHost(u), HostOffset(u), front, [ch] + back);
    UserPass(u);
    assert Allows(2, ch);
    if i == 0 {
      NoMore(AtHost(u), HostOffset(u));
      OddCharacter(AtHost(u), HostOffset(u), ch, back);
    } else {
      HostRun(AtHost(u), HostOffset(u), front);
      OddCharacter(AtHost(u).(state := InHost, host := Span(HostOffset(u), i)), HostOffset(u) + i, ch, back);
    }
  }

  // ---------------------------------------------------------------- reading a printed form back

  /** The fields of a printed form whose host is plain. */
  function PrintedParts(u: Uri): Parts {
    var h := Split(u);
    Printed(u).u.(userinfo := h.userinfo, host := Some(h.host), port := h.port)
  }

  lemma PrintedState(u: Uri)
    ensures !Printed(u).state.Dead? && Printed(u).u.schema == Some(Span(0, |u.scheme|)) && Printed(u).at == (u.userinfo != [])
    ensures Printed(u).u.host == Some(Span(AuthorityOffset(u), |AuthorityPart(u)|)) && Printed(u).u.value == 0
  {
  }

  lemma AuthoritySlice(u: Uri)
    ensures Slice(ToString(u), Span(AuthorityOffset(u), |AuthorityPart(u)|)) == AuthorityPart(u)
    ensures AuthorityOffset(u) + |AuthorityPart(u)| <= |ToString(u)|
  {
    hide AuthorityPart, GetPath, QueryPart, FragmentPart, Slice;
    var a, c := u.scheme + [COLON, SLASH, SLASH], GetPath(u) + QueryPart(u) + FragmentPart(u);
    assert ToString(u) == a + AuthorityPart(u) + c;
    Middle(a, AuthorityPart(u), c);
  }

  lemma SplitPrinted(u: Uri)
    requires WellFormed(u) && u.scheme != [] && |ToString(u)| < UINT16_SPAN && AllHostChars(u.host)
    ensures SplitHost(ToString(u), Printed(u)) == Some(PrintedParts(u))
  {
    hide HostScanAll, AuthorityPart, ToString, Printed, Slice;
    PrintedState(u);
    AuthoritySlice(u);
    SecondPass(u);
  }

  /** Every field of the printed form is the part that was printed. */
  lemma PrintedTexts(u: Uri)
    ensures var url, p := ToString(u), PrintedParts(u);
      && Text(url, p.userinfo) == u.userinfo && Text(url, p.host) == u.host
      && (p.port.Some? <==> !IsDefaultPort(u)) && (p.port.Some? ==> Slice(url, p.port.value) == Digits(u.port))
  {
    hide GetPath, QueryPart, FragmentPart, Slice, Digits, IsDefaultPort;
    var a, c := u.scheme + [COLON, SLASH, SLASH], GetPath(u) + QueryPart(u) + FragmentPart(u);
    var h := u.host;
    if u.userinfo != [] {
      assert ToString(u) == a + u.userinfo + ([AT] + h + PortPart(u) + c);
      Middle(a, u.userinfo, [AT] + h + PortPart(u) + c);
    }
    assert ToString(u) == (a + UserPart(u)) + h + (PortPart(u) + c);
    Middle(a + UserPart(u), h, PortPart(u) + c);
    if !IsDefaultPort(u) {
      assert ToString(u) == (a + UserPart(u) + h + [COLON]) + Digits(u.port) + c;
      Middle(a + UserPart(u) + h + [COLON], Digits(u.port), c);
    }
  }

  lemma PrintedTail(u: Uri)
    ensures var url, p := ToString(u), PrintedParts(u);
      && Text(url, p.schema) == u.scheme && Text(url, p.path) == GetPath(u)
      && Text(url, p.query) == u.query && Text(url, p.fragment) == u.fragment
  {
    hide GetPath, Slice, AuthorityPart, Split;
    var a := [COLON, SLASH, SLASH] + AuthorityPart(u);
    var front := u.scheme + a;
    assert ToString(u) == [] + u.scheme + (a + GetPath(u) + QueryPart(u) + FragmentPart(u));
    Middle([], u.scheme, a + GetPath(u) + QueryPart(u) + FragmentPart(u));
    assert ToString(u) == front + GetPath(u) + (QueryPart(u) + FragmentPart(u));
    Middle(front, GetPath(u), QueryPart(u) + FragmentPart(u));
    if u.query != [] {
      assert ToString(u) == (front + GetPath(u) + [QUESTION]) + u.query + FragmentPart(u);
      Middle(front + GetPath(u) + [QUESTION], u.query, FragmentPart(u));
    }
    if u.fragment != [] {
      assert ToString(u) == (front + GetPath(u) + QueryPart(u) + [HASH]) + u.fragment + [];
      Middle(front + GetPath(u) + QueryPart(u) + [HASH], u.fragment, []);
    }
  }

  lemma PlainHostReadsBack(u: Uri)
    requires WellFormed(u) && u.scheme != [] && |ToString(u)| < UINT16_SPAN && AllHostChars(u.host)
    ensures Create(ToString(u)) == Some(u.(path := GetPath(u)))
  {
    hide UrlScan, SplitHost, ToString, Printed, PrintedParts, Slice, Digits, Split, GetPath, PortValue, Decimal;
    var url, p := ToString(u), PrintedParts(u);
    FirstPass(u);
    PrintedState(u);
    SplitPrinted(u);
    PrintedTexts(u);
    PrintedTail(u);
    PrintedNotEmpty(u);
    PrintedFields(u);
    DigitsRead(u.port);
    PortIsDecimal(Digits(u.port));
    assert url != [];
    assert ParseUrl(url, false) == Some(if p.port.Some? then p.(value := u.port) else p);
  }

  lemma PrintedNotEmpty(u: Uri)
    ensures ToString(u) != []
  {
  }

  lemma PrintedFields(u: Uri)
    ensures PrintedParts(u).schema.Some? && PrintedParts(u).host.Some?
  {
  }

  lemma OddSplit(u: Uri)
    requires WellFormed(u) && u.scheme != [] && |ToString(u)| < UINT16_SPAN && !AllHostChars(u.host)
    ensures var p := SplitHost(ToString(u), Printed(u));
      p.Some? ==> p.value.host.Some? && p.value.host.value.len < |u.host|
  {
    var i := FirstOdd(u.host);
    hide ToString, Printed, Slice, HostScanAll, AuthorityPart, AllHostChars;
    PrintedState(u);
    AuthoritySlice(u);
    OddHost(u, i);
  }

  lemma OddHostLost(u: Uri)
    requires WellFormed(u) && u.scheme != [] && |ToString(u)| < UINT16_SPAN && !AllHostChars(u.host)
    ensures Create(ToString(u)).Some? ==> Create(ToString(u)).value.host != u.host
  {
    hide UrlScan, SplitHost, ToString, Printed, Slice, AllHostChars, WellFormed;
    FirstPass(u);
    OddSplit(u);
    SliceLength(ToString(u));
  }

  lemma SliceLength(url: seq<byte>)
    ensures forall s: Span :: |Slice(url, s)| <= s.len
  {
  }

  lemma {:induction false} FirstOdd(t: seq<byte>) returns (i: nat)
    requires !AllHostChars(t)
    ensures i < |t| && !IsHostChar(t[i]) && AllHostChars(t[..i])
  {
    if !IsHostChar(t[0]) {
      i := 0;
    } else {
      i := FirstOdd(t[1..]);
      i := i + 1;
      assert t[..i] == [t[0]] + t[1..][..i - 1];
    }
  }

  lemma NoSchemeLost(u: Uri)
    requires u.scheme == []
    ensures Create(ToString(u)) == None
  {
    var url := ToString(u);
    assert url[0] == COLON;
    DeadStays(StartScan(false), 0, url);
  }

  /** The printed form of a Uri that came from a URL, when it has at most 65535 bytes, reads back with
      the same getters exactly when the Uri has a scheme and its host needs no brackets. */
  lemma PrintedReadsBack(url: seq<byte>)
    requires |url| < UINT16_SPAN && Create(url).Some? && |ToString(Create(url).value)| < UINT16_SPAN
    ensures var u := Create(url).value; var v := Create(ToString(u));
      v.Some? && Getters(v.value) == Getters(u) <==> u.scheme != [] && AllHostChars(u.host)
  {
    hide ParseUrl, WellFormed, AllHostChars, ToString;
    CreateWellFormed(url);
    var u := Create(url).value;
    hide Create;
    if u.scheme == [] {
      NoSchemeLost(u);
    } else if AllHostChars(u.host) {
      PlainHostReadsBack(u);
    } else {
      OddHostLost(u);
    }
  }

  /** The Uri of "a://[::]": printed without its brackets it is lost. */
  lemma BracketsLost()
    ensures var u := Uri([97], [], [COLON, COLON], 0, [], [], []);
      WellFormed(u) && (Create(ToString(u)).Some? ==> Create(ToString(u)).value.host != u.host)
  {
    var u := Uri([97], [], [COLON, COLON], 0, [], [], []);
    assert !IsHostChar(u.host[0]);
    assert |ToString(u)| < UINT16_SPAN;
    hide Create, ToString;
    OddHostLost(u);
  }
}
