/** The loops of http_parser_parse_url and http_parse_host. */
module UrlParser {
  import opened Bytes
  import opened HttpTypes
  import opened HttpStep
  import opened HttpUrl
  import opened HttpUrlPartition

  /** The loop of the first pass, which stops at a byte that cannot continue the URL. */
  method FindPieces(buf: seq<byte>, connect: bool) returns (z: Scan)
    ensures z.state.Dead? <==> UrlScan(StartScan(connect), 0, buf).state.Dead?
    ensures !z.state.Dead? ==> z == UrlScan(StartScan(connect), 0, buf)
  {
    hide ParseUrlChar;
    z := StartScan(connect);
    var p := 0;
    while p < |buf|
      invariant 0 <= p <= |buf|
      invariant UrlScan(StartScan(connect), 0, buf) == UrlScan(z, p, buf[p..])
    {
      var s := ParseUrlChar(z.state, buf[p]);
      ghost var rest := buf[p..];
      assert rest[0] == buf[p] && rest[1..] == buf[p + 1..];
      if s.Dead? {
        DeadStays(z, p, rest);
        return z.(state := s);
      }
      var piece := PieceOf(s);
      if piece == None {
        z := z.(state := s);
      } else {
        var f := piece.value;
        var at := z.at || s.ReqServerWithAt?;
        var current := Get(z.u, f);
        if z.last == Some(f) && current.Some? {
          z := Scan(s, Some(f), at, Set(z.u, f, Span(current.value.off, (current.value.len + 1) % UINT16_SPAN)));
        } else {
          z := Scan(s, Some(f), at, Set(z.u, f, Span(p % UINT16_SPAN, 1)));
        }
      }
      p := p + 1;
    }
  }

  lemma HostUnrolled(h: HostScan, pos: nat, t: seq<byte>)
    ensures HostScanAll(h, pos, t) == if t == [] then h else HostScanAll(HostStep(h, pos, t[0]), pos + 1, t[1..])
  {
    hide HostStep;
  }

  /** The loop of the second pass over the bytes t of the authority, which stand at off. */
  method FindHost(t: seq<byte>, off: nat, at: bool) returns (h: HostScan)
    ensures var g := HostScanAll(HostScan(if at then UserinfoStart else HostStart, None, Span(off, 0), None), off, t);
      (h.state.HostDead? <==> g.state.HostDead?) && (!h.state.HostDead? ==> h == g)
  {
    hide ParseHostChar, HostStep, HostScanAll;
    h := HostScan(if at then UserinfoStart else HostStart, None, Span(off, 0), None);
    ghost var start := h;
    var p: nat := 0;
    while p < |t|
      invariant p <= |t| && HostScanAll(start, off, t) == HostScanAll(h, off + p, t[p..])
    {
      var s := ParseHostChar(h.state, t[p]);
      HostUnrolled(h, off + p, t[p..]);
      if s.HostDead? {
        HostDeadStays(h, off + p, t[p..]);
        return h.(state := s);
      }
      assert t[p..][1..] == t[p + 1..];
      h := HostStep(h, off + p, t[p]);
      p := p + 1;
    }
    HostUnrolled(h, off + p, t[p..]);
  }

  lemma PortUnrolled(v: nat, t: seq<byte>)
    requires t != []
    ensures PortValue(v, t) == match PortStep(v, t[0]) case None => None case Some(w) => PortValue(w, t[1..])
  {
    hide PortStep;
  }

  /** The loop that reads the port, and stops once it is too large. */
  method ReadPort(t: seq<byte>) returns (r: Option<nat>)
    ensures r == PortValue(0, t)
    ensures (forall i :: 0 <= i < |t| ==> IsNum(t[i])) ==> r == if Decimal(t) <= 0xffff then Some(Decimal(t)) else None
  {
    hide PortValue, Decimal;
    ghost var whole := PortValue(0, t);
    if forall i :: 0 <= i < |t| ==> IsNum(t[i]) {
      PortIsDecimal(t);
    }
    var v: nat := 0;
    var p := 0;
    while p < |t|
      invariant 0 <= p <= |t| && PortValue(v, t[p..]) == whole
    {
      ghost var rest := t[p..];
      PortUnrolled(v, rest);
      assert rest[0] == t[p] && rest[1..] == t[p + 1..];
      var c: int := t[p];
      var w := v * 10 + (if c >= 128 then c - 256 else c) - 48;
      if w < 0 || w > 0xffff {
        return None;
      }
      v := w;
      p := p + 1;
    }
    assert t[p..] == [];
    PortNothing(v);
    r := Some(v);
  }

  lemma PortNothing(v: nat)
    ensures PortValue(v, []) == Some(v)
  {
  }

  /** Spans are within the bytes that were read, however long the input is. */
  lemma {:induction false} AuthorityInside(z: Scan, pos: nat, t: seq<byte>)
    requires z.u.host.Some? ==> End(z.u.host.value) <= pos
    ensures var y := UrlScan(z, pos, t); y.u.host.Some? ==> End(y.u.host.value) <= pos + |t|
    decreases |t|
  {
    hide UrlStep;
    if t != [] {
      StepInside(z, pos, t[0]);
      AuthorityInside(UrlStep(z, pos, t[0]), pos + 1, t[1..]);
    }
  }

  lemma StepInside(z: Scan, pos: nat, ch: byte)
    requires z.u.host.Some? ==> End(z.u.host.value) <= pos
    ensures var y := UrlStep(z, pos, ch); y.u.host.Some? ==> End(y.u.host.value) <= pos + 1
  {
    hide ParseUrlChar;
  }

  method ParseUrlLoop(buf: seq<byte>, connect: bool) returns (r: Option<Parts>)
    ensures r == ParseUrl(buf, connect)
  {
    hide UrlScan, HostScanAll, PortValue, Decimal;
    if |buf| == 0 {
      return None;
    }
    var z := FindPieces(buf, connect);
    AuthorityInside(StartScan(connect), 0, buf);
    if z.state.Dead? {
      return None;
    }
    var u := z.u;
    if u.schema.Some? && u.host.None? {
      return None;
    }
    if u.host.Some? {
      var h := FindHost(Slice(buf, u.host.value), u.host.value.off, z.at);
      if !HostEnds(h.state) {
        return None;
      }
      u := u.(userinfo := h.userinfo, host := Some(h.host), port := h.port);
    }
    if connect && !HostAndPort(u) {
      return None;
    }
    if u.port.Some? {
      var v := ReadPort(Slice(buf, u.port.value));
      if v.None? {
        return None;
      }
      u := u.(value := v.value);
    }
    r := Some(u);
  }
}
