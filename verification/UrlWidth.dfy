/** What the 16-bit numbers of a URL's fields lose: the passes of the source compared with the same passes on
    numbers that are wide enough for the input. */
module UrlWidth {
  import opened Bytes
  import opened HttpTypes
  import opened HttpStep
  import opened HttpUrl
  import opened HttpUrlPartition

  function Wide(buf: seq<byte>): Width {
    |buf| + 1
  }

  /** A field as the source keeps it. */
  function Cut(s: Span): Span {
    Span(Word(s.off), Word(s.len))
  }

  function CutField(s: Option<Span>): Option<Span> {
    if s.Some? then Some(Cut(s.value)) else None
  }

  function CutParts(u: Parts): Parts {
    Parts(CutField(u.schema), CutField(u.userinfo), CutField(u.host), CutField(u.port), CutField(u.path),
          CutField(u.query), CutField(u.fragment), u.value)
  }

  predicate Narrow(s: Option<Span>) {
    s.Some? ==> s.value.off < UINT16_SPAN && s.value.len < UINT16_SPAN
  }

  predicate NarrowParts(u: Parts) {
    Narrow(u.schema) && Narrow(u.userinfo) && Narrow(u.host) && Narrow(u.port) && Narrow(u.path) && Narrow(u.query)
    && Narrow(u.fragment)
  }

  /** Every field that the wide passes find, the whole authority among them, has an offset and a length below
      2^16. */
  ghost predicate AllNarrow(buf: seq<byte>, connect: bool) {
    var z := UrlScan(StartScan(connect), 0, buf, Wide(buf));
    NarrowParts(z.u) && match SplitHost(buf, z, Wide(buf)) case None => true case Some(u) => NarrowParts(u)
  }

  lemma NarrowIsCut(s: Option<Span>)
    ensures Narrow(s) <==> CutField(s) == s
  {
  }

  lemma NarrowPartsCut(u: Parts)
    ensures NarrowParts(u) <==> CutParts(u) == u
  {
    hide Narrow, CutField;
    NarrowIsCut(u.schema);
    NarrowIsCut(u.userinfo);
    NarrowIsCut(u.host);
    NarrowIsCut(u.port);
    NarrowIsCut(u.path);
    NarrowIsCut(u.query);
    NarrowIsCut(u.fragment);
  }

  // ---------------------------------------------------------------- the first pass

  predicate FieldUpto(s: Option<Span>, n: nat) {
    s.Some? ==> End(s.value) <= n
  }

  predicate Upto(u: Parts, n: nat) {
    FieldUpto(u.schema, n) && FieldUpto(u.host, n) && FieldUpto(u.path, n) && FieldUpto(u.query, n)
    && FieldUpto(u.fragment, n)
  }

  function CutScan(y: Scan): Scan {
    y.(u := CutParts(y.u))
  }

  lemma LongerCuts(s: Span, m: Width)
    requires s.len + 1 < m
    ensures Longer(Cut(s)) == Cut(Longer(s, m)) && Longer(s, m) == Span(s.off, s.len + 1)
  {
    LongerSmall(s, m);
    assert (s.len % UINT16_SPAN + 1) % UINT16_SPAN == (s.len + 1) % UINT16_SPAN;
  }

  lemma StartCuts(pos: nat, m: Width)
    requires pos < m
    ensures Span(Word(pos), 1) == Cut(Span(Word(pos, m), 1)) && Word(pos, m) == pos
  {
    WordSmall(pos, m);
  }

  lemma GetCuts(u: Parts, f: Piece)
    ensures Get(CutParts(u), f) == CutField(Get(u, f))
  {
  }

  lemma SetCuts(u: Parts, f: Piece, s: Span)
    ensures Set(CutParts(u), f, Cut(s)) == CutParts(Set(u, f, s))
  {
    hide Cut;
  }

  lemma SetUpto(u: Parts, f: Piece, s: Span, n: nat)
    requires Upto(u, n) && End(s) <= n + 1
    ensures Upto(Set(u, f, s), n + 1) && Upto(u, n + 1)
  {
  }

  lemma GetUpto(u: Parts, f: Piece, n: nat)
    requires Upto(u, n)
    ensures FieldUpto(Get(u, f), n)
  {
  }

  /** One byte of the first pass: the source's fields are those of the wide pass, cut. */
  lemma UrlStepCuts(y: Scan, pos: nat, ch: byte, m: Width)
    requires Upto(y.u, pos) && pos + 1 < m
    ensures UrlStep(CutScan(y), pos, ch) == CutScan(UrlStep(y, pos, ch, m)) && Upto(UrlStep(y, pos, ch, m).u, pos + 1)
  {
    hide ParseUrlChar, Get, Set, CutParts, Cut, Longer, Word, Upto;
    var s := ParseUrlChar(y.state, ch);
    match PieceOf(s)
    case None => SetUpto(y.u, Scheme, Span(0, 0), pos);
    case Some(f) =>
      GetCuts(y.u, f);
      GetUpto(y.u, f, pos);
      if y.last == Some(f) && Get(y.u, f).Some? {
        var x := Get(y.u, f).value;
        LongerCuts(x, m);
        SetCuts(y.u, f, Longer(x, m));
        SetUpto(y.u, f, Longer(x, m), pos);
      } else {
        StartCuts(pos, m);
        SetCuts(y.u, f, Span(Word(pos, m), 1));
        SetUpto(y.u, f, Span(Word(pos, m), 1), pos);
      }
  }

  lemma {:induction false} UrlScanCuts(y: Scan, pos: nat, t: seq<byte>, m: Width)
    requires Upto(y.u, pos) && pos + |t| < m
    ensures UrlScan(CutScan(y), pos, t) == CutScan(UrlScan(y, pos, t, m))
    ensures Upto(UrlScan(y, pos, t, m).u, pos + |t|)
    decreases |t|
  {
    hide UrlStep, CutScan, Upto;
    if t != [] {
      UrlStepCuts(y, pos, t[0], m);
      UrlScanCuts(UrlStep(y, pos, t[0], m), pos + 1, t[1..], m);
    }
  }

  // ---------------------------------------------------------------- the second pass

  predicate BeforeHost(s: HostState) {
    s.UserinfoStart? || s.InUserinfo? || s.HostStart? || s.V6Start?
  }

  predicate HostUpto(g: HostScan, n: nat) {
    && End(g.host) <= n && FieldUpto(g.userinfo, n) && FieldUpto(g.port, n)
    && (BeforeHost(g.state) ==> g.host.len == 0)
  }

  function CutHost(g: HostScan): HostScan {
    HostScan(g.state, CutField(g.userinfo), Cut(g.host), CutField(g.port))
  }

  lemma FieldCuts(s: Option<Span>, longer: bool, pos: nat, m: Width)
    requires FieldUpto(s, pos) && pos + 1 < m
    ensures LongerOrNew(CutField(s), longer, pos) == CutField(LongerOrNew(s, longer, pos, m))
    ensures FieldUpto(LongerOrNew(s, longer, pos, m), pos + 1)
  {
    hide Cut, Longer, Word;
    StartCuts(pos, m);
    if s.Some? {
      LongerCuts(s.value, m);
    }
  }

  /** From which states a byte of a host leads where. */
  lemma HostStates(s: HostState, ch: byte)
    ensures var t := ParseHostChar(s, ch);
      && (BeforeHost(t) ==> BeforeHost(s))
      && (t.InHost? && !s.InHost? ==> BeforeHost(s)) && (t.InV6? && !s.InV6? ==> BeforeHost(s))
  {
  }

  lemma HostStepCuts(g: HostScan, pos: nat, ch: byte, m: Width)
    requires HostUpto(g, pos) && pos + 1 < m
    ensures HostStep(CutHost(g), pos, ch) == CutHost(HostStep(g, pos, ch, m)) && HostUpto(HostStep(g, pos, ch, m), pos + 1)
  {
    hide ParseHostChar, LongerOrNew, CutField, Longer;
    HostStates(g.state, ch);
    FieldCuts(g.port, g.state.InPort?, pos, m);
    FieldCuts(g.userinfo, g.state.InUserinfo?, pos, m);
    LongerCuts(g.host, m);
    StartCuts(pos, m);
    FieldLater(g.port, pos);
    FieldLater(g.userinfo, pos);
    hide Word;
  }

  lemma FieldLater(s: Option<Span>, n: nat)
    ensures FieldUpto(s, n) ==> FieldUpto(s, n + 1)
  {
  }

  lemma {:induction false} HostScanCuts(g: HostScan, pos: nat, t: seq<byte>, m: Width)
    requires HostUpto(g, pos) && pos + |t| < m
    ensures HostScanAll(CutHost(g), pos, t) == CutHost(HostScanAll(g, pos, t, m))
    ensures HostUpto(HostScanAll(g, pos, t, m), pos + |t|)
    decreases |t|
  {
    hide HostStep, CutHost, HostUpto;
    if t != [] {
      HostStepCuts(g, pos, t[0], m);
      HostScanCuts(HostStep(g, pos, t[0], m), pos + 1, t[1..], m);
    }
  }

  // ---------------------------------------------------------------- the whole

  function HostBegins(at: bool, off: nat): HostScan {
    HostScan(if at then UserinfoStart else HostStart, None, Span(off, 0), None)
  }

  /** The two passes over one authority that is kept in 16 bits. */
  lemma SplitCuts(buf: seq<byte>, at: bool, a: Span)
    requires a.off < UINT16_SPAN && End(a) <= |buf|
    ensures var h := HostScanAll(HostBegins(at, a.off), a.off, Slice(buf, a));
      var g := HostScanAll(HostBegins(at, a.off), a.off, Slice(buf, a), Wide(buf));
      h == CutHost(g) && HostUpto(g, End(a))
  {
    hide HostScanAll;
    assert CutHost(HostBegins(at, a.off)) == HostBegins(at, a.off);
    HostScanCuts(HostBegins(at, a.off), a.off, Slice(buf, a), Wide(buf));
  }

  lemma FirstPassCuts(buf: seq<byte>, connect: bool)
    ensures var z := UrlScan(StartScan(connect), 0, buf, Wide(buf));
      UrlScan(StartScan(connect), 0, buf) == CutScan(z) && Upto(z.u, |buf|)
  {
    hide UrlScan;
    assert CutScan(StartScan(connect)) == StartScan(connect);
    UrlScanCuts(StartScan(connect), 0, buf, Wide(buf));
  }

  /** As long as every field is narrow the source finds what the wide passes find. */
  lemma NarrowParses(buf: seq<byte>, connect: bool)
    requires AllNarrow(buf, connect)
    ensures ParseUrl(buf, connect) == ParseUrl(buf, connect, Wide(buf))
  {
    hide UrlScan, HostScanAll, NarrowParts, CutParts, PortValue, Slice;
    FirstPassCuts(buf, connect);
    var z := UrlScan(StartScan(connect), 0, buf, Wide(buf));
    NarrowPartsCut(z.u);
    assert UrlScan(StartScan(connect), 0, buf) == z;
    NarrowSplits(buf, z);
  }

  lemma NarrowSplits(buf: seq<byte>, z: Scan)
    requires NarrowParts(z.u) && Upto(z.u, |buf|)
    requires match SplitHost(buf, z, Wide(buf)) case None => true case Some(u) => NarrowParts(u)
    ensures SplitHost(buf, z) == SplitHost(buf, z, Wide(buf))
  {
    hide HostScanAll, Slice;
    if z.u.host.Some? {
      var a := z.u.host.value;
      SplitCuts(buf, z.at, a);
    }
  }

  /** What equal results say about the authority a of the wide passes: g is what they find in it, and h what
      the source finds in the cut authority. */
  lemma AuthorityNarrow(buf: seq<byte>, at: bool, a: Span)
    requires End(a) <= |buf|
    requires var b := buf[..End(a)];
      var g := HostScanAll(HostBegins(at, a.off), a.off, Slice(buf, a), Wide(buf));
      var h := HostScanAll(HostBegins(at, Cut(a).off), Cut(a).off, Slice(buf, Cut(a)));
      && HostInv(g, a.off, b) && HostEnds(g.state)
      && h.userinfo == g.userinfo && h.host == g.host && h.port == g.port
    ensures Narrow(Some(a))
    ensures var g := HostScanAll(HostBegins(at, a.off), a.off, Slice(buf, a), Wide(buf));
      Narrow(g.userinfo) && Narrow(Some(g.host)) && Narrow(g.port)
  {
    hide HostScanAll, Slice, HostWell, HostCovered, HostInOrder;
    var c := Cut(a);
    var g := HostScanAll(HostBegins(at, a.off), a.off, Slice(buf, a), Wide(buf));
    CutSmaller(a);
    SplitCuts(buf, at, c);
    var k := HostScanAll(HostBegins(at, c.off), c.off, Slice(buf, c), Wide(buf));
    NarrowCut(k);
    CutSmaller(k.host);
    if k.port.Some? {
      CutSmaller(k.port.value);
    }
    HostStartsIn(g, a.off, buf[..End(a)]);
    assert a.off < UINT16_SPAN;
  }

  lemma CutSmaller(s: Span)
    ensures Cut(s).off <= s.off && Cut(s).len <= s.len && Cut(s).off < UINT16_SPAN && Cut(s).len < UINT16_SPAN
    ensures s.len >= UINT16_SPAN ==> Cut(s).len + UINT16_SPAN <= s.len
  {
  }

  lemma NarrowCut(k: HostScan)
    ensures var h := CutHost(k); Narrow(h.userinfo) && Narrow(Some(h.host)) && Narrow(h.port)
  {
  }

  lemma HostStartsIn(g: HostScan, lo: nat, b: seq<byte>)
    requires HostWell(g, lo, b)
    ensures lo <= g.host.off
  {
  }

  /** When the wide passes accept a URL, the source finds the same fields if and only if each of them, and the
      whole authority, has an offset and a length below 2^16. */
  lemma ParseUrlExact(buf: seq<byte>, connect: bool)
    requires ParseUrl(buf, connect, Wide(buf)).Some?
    ensures ParseUrl(buf, connect) == ParseUrl(buf, connect, Wide(buf)) <==> AllNarrow(buf, connect)
  {
    hide ParseUrl, AllNarrow;
    if AllNarrow(buf, connect) {
      NarrowParses(buf, connect);
    }
    if ParseUrl(buf, connect) == ParseUrl(buf, connect, Wide(buf)) {
      EqualNarrow(buf, connect);
    }
  }

  lemma EqualNarrow(buf: seq<byte>, connect: bool)
    requires ParseUrl(buf, connect).Some? && ParseUrl(buf, connect) == ParseUrl(buf, connect, Wide(buf))
    ensures AllNarrow(buf, connect)
  {
    hide UrlScan, HostScanAll, PortValue, Slice, Narrow, CutField, UrlInv, HostInv;
    FirstPassCuts(buf, connect);
    var m := Wide(buf);
    var z := UrlScan(StartScan(connect), 0, buf, m);
    StartInv(connect);
    UrlScanInv(StartScan(connect), [], buf, m);
    assert [] + buf == buf;
    NarrowIsCut(z.u.schema);
    NarrowIsCut(z.u.path);
    NarrowIsCut(z.u.query);
    NarrowIsCut(z.u.fragment);
    NoneNarrow();
    UnsetYet(z, buf);
    if z.u.host.Some? {
      var a := z.u.host.value;
      HostFound(buf, z);
      CutSome(a);
      AuthorityNarrow(buf, z.at, a);
    }
  }

  lemma NoneNarrow()
    ensures Narrow(None) && CutField(None) == None
  {
  }

  lemma CutSome(s: Span)
    ensures CutField(Some(s)) == Some(Cut(s))
  {
  }

  lemma UnsetYet(z: Scan, buf: seq<byte>)
    requires UrlInv(z, buf)
    ensures z.u.userinfo.None? && z.u.port.None?
  {
  }

  /** The wide second pass reads the whole authority. */
  lemma HostFound(buf: seq<byte>, z: Scan)
    requires UrlInv(z, buf) && z.u.host.Some? && SplitHost(buf, z, Wide(buf)).Some?
    ensures var a := z.u.host.value;
      var g := HostScanAll(HostBegins(z.at, a.off), a.off, Slice(buf, a), Wide(buf));
      End(a) <= |buf| && HostInv(g, a.off, buf[..End(a)]) && HostEnds(g.state)
  {
    hide Allowed, Covered, InOrder, Reached, Starts, HostScanAll;
    var a := z.u.host.value;
    assert Well(buf, Authority, z.u.host);
    var b, t := buf[..a.off], buf[a.off..End(a)];
    var h := HostBegins(z.at, a.off);
    assert HostInv(h, a.off, b);
    HostScanInv(h, a.off, b, t, Wide(buf));
    assert b + t == buf[..End(a)];
  }

  /** A URL of any length that the wide passes accept and whose fields are narrow is partitioned by them. */
  lemma LongUrlPartition(buf: seq<byte>, connect: bool)
    requires ParseUrl(buf, connect, Wide(buf)).Some? && AllNarrow(buf, connect)
    ensures ParseUrl(buf, connect).Some?
    ensures var u := ParseUrl(buf, connect).value;
      && FieldsWell(buf, u) && FieldsInOrder(u) && FieldsCover(buf, u) && Starts(buf, u)
      && (u.schema.Some? ==> u.host.Some?)
      && (u.port.Some? ==> u.host.Some? && u.value == Decimal(Slice(buf, u.port.value)) <= 0xffff)
  {
    hide ParseUrl, AllNarrow, FieldsWell, FieldsInOrder, FieldsCover, Starts, Decimal, Slice;
    ParseUrlExact(buf, connect);
    UrlPartition(buf, connect, Wide(buf));
  }

  // ---------------------------------------------------------------- what only the source accepts

  /** The letter b, and '['. */
  const B: byte := 98
  const BRACKET: byte := 91

  lemma StepWord(n: nat, k: nat, m: Width)
    requires m == UINT16_SPAN || n + 1 + k < m
    ensures Word(Word(n + 1, m) + k, m) == Word(n + 1 + k, m) && Word(n + 1, m) < m
  {
    if m != UINT16_SPAN {
      WordSmall(n + 1, m);
    }
  }

  /** A host goes on, its length in the width. */
  lemma {:induction false} ServerGoesOn(z: Scan, pos: nat, t: seq<byte>, m: Width)
    requires z.state.ReqServer? && z.last == Some(Authority) && z.u.host.Some? && forall i :: 0 <= i < |t| ==> t[i] == B
    requires z.u.host.value.len < m && (m == UINT16_SPAN || z.u.host.value.len + |t| < m)
    ensures UrlScan(z, pos, t, m) == z.(u := z.u.(host := Some(z.u.host.value.(len := Word(z.u.host.value.len + |t|, m)))))
    decreases |t|
  {
    hide ParseUrlChar, Word;
    var n := z.u.host.value.len;
    if t == [] {
      WordSmall(n, m);
    } else {
      ServerStays();
      StepWord(n, |t| - 1, m);
      if m != UINT16_SPAN {
        WordSmall(n + 1, m);
      }
      ServerGoesOn(UrlStep(z, pos, t[0], m), pos + 1, t[1..], m);
    }
  }

  lemma ServerStays()
    ensures ParseUrlChar(ReqServer, B) == ReqServer && ParseUrlChar(ReqServerStart, B) == ReqServer
    ensures ParseUrlChar(ReqServer, BRACKET) == ReqServer
  {
  }

  lemma ScanOne(z: Scan, pos: nat, ch: byte, rest: seq<byte>, m: Width)
    ensures UrlScan(z, pos, [ch] + rest, m) == UrlScan(UrlStep(z, pos, ch, m), pos + 1, rest, m)
  {
    hide UrlStep;
    assert ([ch] + rest)[0] == ch && ([ch] + rest)[1..] == rest;
  }

  lemma {:induction false} ScanAppend(z: Scan, pos: nat, a: seq<byte>, b: seq<byte>, m: Width)
    ensures UrlScan(z, pos, a + b, m) == UrlScan(UrlScan(z, pos, a, m), pos + |a|, b, m)
    decreases |a|
  {
    hide UrlStep;
    if a == [] {
      assert a + b == b;
    } else {
      assert (a + b)[0] == a[0] && (a + b)[1..] == a[1..] + b;
      ScanAppend(UrlStep(z, pos, a[0], m), pos + 1, a[1..], b, m);
    }
  }

  lemma {:induction false} HostDies(h: HostScan, pos: nat, t: seq<byte>, m: Width)
    requires h.state.InHost? && t != [] && t[|t| - 1] == BRACKET && forall i :: 0 <= i < |t| - 1 ==> t[i] == B
    ensures HostScanAll(h, pos, t, m).state.HostDead?
    decreases |t|
  {
    hide Longer;
    if |t| == 1 {
      HostDeadStays(h, pos, t, m);
    } else {
      HostDies(HostStep(h, pos, t[0], m), pos + 1, t[1..], m);
    }
  }

  /** "a://", then the host t, then '['. */
  function BracketUrl(t: seq<byte>): seq<byte> {
    [97] + ([COLON] + ([SLASH] + ([SLASH] + (t + [BRACKET]))))
  }

  function HostFields(len: nat): Parts {
    NO_PARTS.(schema := Some(Span(0, 1)), host := Some(Span(4, len)))
  }

  function SchemeScan(s: State): Scan {
    Scan(s, Some(Scheme), false, NO_PARTS.(schema := Some(Span(0, 1))))
  }

  lemma SchemeSteps(m: Width)
    ensures UrlStep(StartScan(false), 0, 97, m) == SchemeScan(ReqSchema)
    ensures UrlStep(SchemeScan(ReqSchema), 1, COLON, m) == SchemeScan(ReqSchemaSlash)
    ensures UrlStep(SchemeScan(ReqSchemaSlash), 2, SLASH, m) == SchemeScan(ReqSchemaSlashSlash)
    ensures UrlStep(SchemeScan(ReqSchemaSlashSlash), 3, SLASH, m) == SchemeScan(ReqServerStart)
  {
    hide Word;
    WordSmall(0, m);
    SchemeStates();
  }

  lemma SchemeStates()
    ensures ParseUrlChar(ReqSpacesBeforeUrl, 97) == ReqSchema && ParseUrlChar(ReqSchema, COLON) == ReqSchemaSlash
    ensures ParseUrlChar(ReqSchemaSlash, SLASH) == ReqSchemaSlashSlash
    ensures ParseUrlChar(ReqSchemaSlashSlash, SLASH) == ReqServerStart
  {
  }

  lemma SchemeScans(t: seq<byte>, m: Width)
    ensures UrlScan(StartScan(false), 0, BracketUrl(t), m) == UrlScan(SchemeScan(ReqServerStart), 4, t + [BRACKET], m)
  {
    hide UrlScan, UrlStep, StartScan, SchemeScan;
    SchemeSteps(m);
    var rest := t + [BRACKET];
    ScanOne(StartScan(false), 0, 97, [COLON] + ([SLASH] + ([SLASH] + rest)), m);
    ScanOne(SchemeScan(ReqSchema), 1, COLON, [SLASH] + ([SLASH] + rest), m);
    ScanOne(SchemeScan(ReqSchemaSlash), 2, SLASH, [SLASH] + rest, m);
    ScanOne(SchemeScan(ReqSchemaSlashSlash), 3, SLASH, rest, m);
  }

  function Hosted(n: nat, m: Width): Scan {
    Scan(ReqServer, Some(Authority), false, HostFields(Word(n, m)))
  }

  lemma HostFirst(m: Width)
    requires m > 4
    ensures UrlStep(SchemeScan(ReqServerStart), 4, B, m) == Hosted(1, m)
  {
    hide Word, ParseUrlChar;
    WordSmall(4, m);
    WordSmall(1, m);
    ServerStays();
  }

  lemma HostOn(t: seq<byte>, m: Width)
    requires (forall i :: 0 <= i < |t| ==> t[i] == B) && m > 4 && (m == UINT16_SPAN || |t| + 1 < m)
    ensures UrlScan(Hosted(1, m), 5, t, m) == Hosted(|t| + 1, m)
  {
    hide UrlScan, Word;
    WordSmall(1, m);
    ServerGoesOn(Hosted(1, m), 5, t, m);
  }

  lemma BracketScan(t: seq<byte>, m: Width)
    requires t != [] && (forall i :: 0 <= i < |t| ==> t[i] == B) && m > 4
    requires m == UINT16_SPAN || |t| + 5 < m
    ensures UrlScan(StartScan(false), 0, BracketUrl(t), m) == Hosted(|t| + 1, m)
  {
    hide UrlScan, Word, BracketUrl, SchemeScan, Hosted, StartScan, UrlStep;
    SchemeScans(t, m);
    HostFirst(m);
    var r := t[1..];
    assert t + [BRACKET] == [B] + (r + [BRACKET]);
    ScanOne(SchemeScan(ReqServerStart), 4, B, r + [BRACKET], m);
    ScanAppend(Hosted(1, m), 5, r, [BRACKET], m);
    HostOn(r, m);
    BracketEnds(5 + |r|, |t|, m);
  }

  lemma BracketEnds(pos: nat, n: nat, m: Width)
    requires m == UINT16_SPAN || n + 1 < m
    ensures UrlScan(Hosted(n, m), pos, [BRACKET], m) == Hosted(n + 1, m)
  {
    hide Word, UrlScan, ParseUrlChar;
    ServerStays();
    var z := Hosted(n, m);
    assert [BRACKET] + [] == [BRACKET];
    ScanOne(z, pos, BRACKET, [], m);
    ScanNone(UrlStep(z, pos, BRACKET, m), pos + 1, m);
    if m != UINT16_SPAN {
      WordSmall(n, m);
      WordSmall(n + 1, m);
    } else {
      WordNext(n);
    }
  }

  lemma WordNext(n: nat)
    ensures Word(Word(n) + 1) == Word(n + 1)
  {
  }

  lemma ScanNone(z: Scan, pos: nat, m: Width)
    ensures UrlScan(z, pos, [], m) == z
  {
  }

  /** What the wide passes refuse may be accepted: "a://", 65536 letters, and '['. The authority is cut to its
      first letter, so that the bracket is not looked at. */
  lemma OnlySourceAccepts(t: seq<byte>)
    requires |t| == UINT16_SPAN && forall i :: 0 <= i < |t| ==> t[i] == B
    ensures ParseUrl(BracketUrl(t), false) == Some(HostFields(1))
    ensures ParseUrl(BracketUrl(t), false, Wide(BracketUrl(t))) == None
  {
    hide UrlScan, HostScanAll, BracketUrl, PortValue;
    var url := BracketUrl(t);
    BracketBytes(t);
    BracketScan(t, UINT16_SPAN);
    BracketScan(t, Wide(url));
    SourceHost(url);
    WideHost(url, t);
  }

  lemma BracketBytes(t: seq<byte>)
    ensures |BracketUrl(t)| == |t| + 5 && BracketUrl(t)[4..] == t + [BRACKET]
  {
  }

  lemma SourceHost(url: seq<byte>)
    requires |url| > 4 && url[4] == B
    ensures SplitHost(url, Hosted(UINT16_SPAN + 1, UINT16_SPAN)) == Some(HostFields(1))
  {
    hide HostScanAll;
    var t := Slice(url, Span(4, 1));
    assert t == [B] && t[1..] == [];
    var h := HostBegins(false, 4);
    HostOne(h, 4, t, UINT16_SPAN);
    var d := HostStep(h, 4, B);
    assert d == HostScan(InHost, None, Span(4, 1), None);
    HostNone(d, 5);
  }

  lemma HostNone(h: HostScan, pos: nat)
    ensures HostScanAll(h, pos, []) == h
  {
  }

  lemma WideHost(url: seq<byte>, t: seq<byte>)
    requires t != [] && (forall i :: 0 <= i < |t| ==> t[i] == B) && |url| == |t| + 5 && url[4..] == t + [BRACKET]
    ensures SplitHost(url, Hosted(|t| + 1, Wide(url)), Wide(url)) == None
  {
    hide HostScanAll, Word;
    var m := Wide(url);
    WordSmall(|t| + 1, m);
    var a := Span(4, |t| + 1);
    var s := Slice(url, a);
    assert s == t + [BRACKET];
    var h := HostBegins(false, 4);
    HostOne(h, 4, s, m);
    HostDies(HostStep(h, 4, B, m), 5, s[1..], m);
  }

  lemma HostOne(h: HostScan, pos: nat, t: seq<byte>, m: Width)
    requires t != []
    ensures HostScanAll(h, pos, t, m) == HostScanAll(HostStep(h, pos, t[0], m), pos + 1, t[1..], m)
  {
    hide HostStep;
  }
}
