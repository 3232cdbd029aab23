/** Chunked decoding (section 4.1 of RFC 7230) is exact. */
module HttpChunked {
  import opened Bytes
  import opened HttpTypes
  import opened HttpStep
  import opened HttpSpec
  import opened HttpInvariant
  import opened HttpMarks
  import opened HttpExecute
  import opened HttpPieces
  import opened HttpLength
  import opened HttpHeaders

  // ---------------------------------------------------------------- the wire format

  /** A chunk as a sender may write it: any spelling of the size, any extension, the data. */
  datatype Chunk = Chunk(size: seq<byte>, ext: seq<byte>, data: seq<byte>)

  /** Nothing, or a ';' or ' ' and whatever follows up to CR. */
  predicate IsExtension(ext: seq<byte>) {
    ext != [] ==> (ext[0] == SEMICOLON || ext[0] == SP) && CR !in ext
  }

  /** The size line spells n and stays within the header limit and the accumulator's guard. */
  predicate Spells(cfg: Config, size: seq<byte>, ext: seq<byte>, n: nat) {
    && size != [] && Digits(16, size) && Number(16, 0, size) == n
    && Number(16, 0, size[..|size| - 1]) <= Guard(16)
    && IsExtension(ext)
    && |size| + |ext| + 2 <= cfg.maxHeader
  }

  predicate WellFormed(cfg: Config, c: Chunk) {
    c.data != [] && Spells(cfg, c.size, c.ext, |c.data|)
  }

  function SizeLine(size: seq<byte>, ext: seq<byte>): seq<byte> {
    size + (ext + [CR]) + [LF]
  }

  function ChunkWire(c: Chunk): seq<byte> {
    SizeLine(c.size, c.ext) + c.data + [CR] + [LF]
  }

  function ChunksWire(chunks: seq<Chunk>): seq<byte> {
    if chunks == [] then [] else ChunkWire(chunks[0]) + ChunksWire(chunks[1..])
  }

  /** The last chunk: any spelling of zero, any extension, and the trailer fields. */
  datatype Last = Last(size: seq<byte>, ext: seq<byte>, trailer: seq<Line>)

  predicate LastWellFormed(cfg: Config, l: Last) {
    Spells(cfg, l.size, l.ext, 0) && ArePlainFields(l.trailer) && |FieldsWire(l.trailer)| + 2 <= cfg.maxHeader
  }

  /** The last chunk with its trailer, without the final LF. */
  function LastWire(l: Last): seq<byte> {
    SizeLine(l.size, l.ext) + (FieldsWire(l.trailer) + [CR])
  }

  function Payload(chunks: seq<Chunk>): seq<byte> {
    if chunks == [] then [] else chunks[0].data + Payload(chunks[1..])
  }

  // ---------------------------------------------------------------- what a trace delivers

  function BodyOf(t: seq<Event>): seq<byte> {
    if t == [] then []
    else (if t[0].Data? && t[0].kind == Body then [t[0].b] else []) + BodyOf(t[1..])
  }

  function Times(what: NotifyKind, t: seq<Event>): nat {
    if t == [] then 0
    else (if t[0].Notified? && t[0].what == what then 1 else 0) + Times(what, t[1..])
  }

  lemma {:induction false} TraceAppend(what: NotifyKind, s: seq<Event>, t: seq<Event>)
    ensures BodyOf(s + t) == BodyOf(s) + BodyOf(t)
    ensures Times(what, s + t) == Times(what, s) + Times(what, t)
  {
    if s == [] {
      assert s + t == t;
    } else {
      assert (s + t)[1..] == s[1..] + t;
      TraceAppend(what, s[1..], t);
    }
  }

  lemma {:induction false} LettersDeliver(what: NotifyKind, data: seq<byte>)
    ensures BodyOf(Letters(Body, data)) == data && Times(what, Letters(Body, data)) == 0
  {
    if data != [] {
      assert Letters(Body, data)[1..] == Letters(Body, data[1..]);
      assert [data[0]] + data[1..] == data;
      LettersDeliver(what, data[1..]);
    }
  }

  // ---------------------------------------------------------------- the size line

  lemma ExtensionTurn(cfg: Config, p: Parser, ch: byte)
    requires p.state.ChunkSize? || p.state.ChunkParameters?
    requires ch == CR || p.state.ChunkParameters? || ch == SEMICOLON || ch == SP
    ensures var o := StepOnce(cfg, p, ch);
      && o.ctl.Next? && TurnTrace(p.state, o, ch) == []
      && o.p == p.(state := if ch == CR then ChunkSizeAlmostDone else ChunkParameters)
  {
    hide StepStart, StepStatusLine, StepMethod, StepUrl, StepVersion, StepName, StepValue, StepHeadersEnd,
         StepHeadersDone, StepBody, Accumulate;
  }

  lemma {:induction false} ExtensionRead(cfg: Config, p: Parser, ext: seq<byte>)
    requires p.state.ChunkParameters? || (p.state.ChunkSize? && IsExtension(ext))
    requires CR !in ext && p.nread + |ext| + 1 <= cfg.maxHeader < UINT32_SPAN
    ensures Through(cfg, p, ext + [CR], p.(state := ChunkSizeAlmostDone, nread := p.nread + |ext| + 1), [])
    decreases |ext|
  {
    hide StepOnce, TurnTrace, Run;
    if ext == [] {
      assert ext + [CR] == [CR];
      ExtensionTurn(cfg, Counted(p, 1), CR);
      ThroughByte(cfg, p, CR);
    } else {
      var ch, rest := ext[0], ext[1..];
      assert ch in ext && ext + [CR] == [ch] + (rest + [CR]);
      ExtensionTurn(cfg, Counted(p, 1), ch);
      ThroughByte(cfg, p, ch);
      var q := p.(state := ChunkParameters, nread := p.nread + 1);
      ExtensionRead(cfg, q, rest);
      var r := p.(state := ChunkSizeAlmostDone, nread := p.nread + |ext| + 1);
      ThroughAppend(cfg, p, [ch], q, [], rest + [CR], r, []);
    }
  }

  /** The record a size line that spells n leaves. */
  function SizeRead(p: Parser, n: nat): Parser {
    if n == 0 then p.(state := HeaderFieldStart, contentLength := 0, nread := 0,
                      flags := p.flags.(trailing := true))
    else p.(state := ChunkData, contentLength := n, nread := 0)
  }

  lemma SizeEndTurn(cfg: Config, p: Parser)
    requires p.state.ChunkSizeAlmostDone?
    ensures var o := StepOnce(cfg, p, LF); var q := SizeRead(p, p.contentLength);
      o.ctl.Next? && o.p == q && TurnTrace(p.state, o, LF) == [Notified(ChunkHeader, Seen(q))]
  {
  }

  lemma SizeLineRead(cfg: Config, p: Parser, size: seq<byte>, ext: seq<byte>, n: nat)
    requires p.state.ChunkSizeStart? && p.nread == 0 && Spells(cfg, size, ext, n)
    requires cfg.maxHeader < UINT32_SPAN
    ensures var q := SizeRead(p, n); Through(cfg, p, SizeLine(size, ext), q, [Notified(ChunkHeader, Seen(q))])
  {
    hide StepOnce, TurnTrace, Run, Number, Guard, Digits;
    ChunkSizeExact(cfg, p, size);
    var q1 := p.(state := ChunkSize, contentLength := n, nread := |size|);
    assert CR !in ext;
    ExtensionRead(cfg, q1, ext);
    var q2 := p.(state := ChunkSizeAlmostDone, contentLength := n, nread := |size| + |ext| + 1);
    ThroughAppend(cfg, p, size, q1, [], ext + [CR], q2, []);
    SizeEndTurn(cfg, Counted(q2, 1));
    ThroughByte(cfg, q2, LF);
    var q := SizeRead(p, n);
    ThroughAppend(cfg, p, size + (ext + [CR]), q2, [], [LF], q, [Notified(ChunkHeader, Seen(q))]);
    assert [] + [Notified(ChunkHeader, Seen(q))] == [Notified(ChunkHeader, Seen(q))];
  }

  // ---------------------------------------------------------------- one chunk

  /** The record between two chunks. */
  function ChunkDone(p: Parser): Parser {
    p.(state := ChunkSizeStart, contentLength := 0, nread := 0)
  }

  function ChunkTrace(p: Parser, data: seq<byte>): seq<Event> {
    [Notified(ChunkHeader, Seen(SizeRead(p, |data|)))] + Letters(Body, data)
    + [Notified(ChunkComplete, Seen(ChunkDone(p)))]
  }

  lemma DataRead(cfg: Config, p: Parser, data: seq<byte>)
    requires p.state.ChunkData? && data != [] && p.contentLength == |data|
    ensures Through(cfg, p, data, p.(contentLength := 0, state := ChunkDataAlmostDone), Letters(Body, data))
  {
    hide Settle, RunCounted, Letters;
    BodyFold(cfg, p, data, 0, |data|);
    RunUncounted(cfg, p, data, 0);
    assert data[0..|data|] == data;
    assert Letters(Body, data) + [] == Letters(Body, data);
  }

  lemma DataEndTurn(cfg: Config, p: Parser)
    requires p.state.ChunkDataAlmostDone?
    ensures var o := StepOnce(cfg, p, CR);
      o.ctl.Next? && o.p == p.(state := ChunkDataDone) && TurnTrace(p.state, o, CR) == []
  {
  }

  lemma ChunkEndTurn(cfg: Config, p: Parser)
    requires p.state.ChunkDataDone?
    ensures var o := StepOnce(cfg, p, LF); var q := p.(state := ChunkSizeStart, nread := 0);
      o.ctl.Next? && o.p == q && TurnTrace(p.state, o, LF) == [Notified(ChunkComplete, Seen(q))]
  {
  }

  lemma ChunkRead(cfg: Config, p: Parser, c: Chunk)
    requires p.state.ChunkSizeStart? && p.nread == 0 && WellFormed(cfg, c) && cfg.maxHeader < UINT32_SPAN
    ensures Through(cfg, p, ChunkWire(c), ChunkDone(p), ChunkTrace(p, c.data))
  {
    hide StepOnce, TurnTrace, Run, Letters, Spells, SizeLine;
    var n := |c.data|;
    SizeLineRead(cfg, p, c.size, c.ext, n);
    var q1 := SizeRead(p, n);
    var t1 := [Notified(ChunkHeader, Seen(q1))];
    DataRead(cfg, q1, c.data);
    var q2 := q1.(contentLength := 0, state := ChunkDataAlmostDone);
    ThroughAppend(cfg, p, SizeLine(c.size, c.ext), q1, t1, c.data, q2, Letters(Body, c.data));
    DataEndTurn(cfg, q2);
    ThroughByte(cfg, q2, CR);
    var q3 := q2.(state := ChunkDataDone);
    ChunkEndTurn(cfg, q3);
    var t2 := t1 + Letters(Body, c.data);
    ThroughAppend(cfg, p, SizeLine(c.size, c.ext) + c.data, q2, t2, [CR], q3, []);
    ThroughByte(cfg, q3, LF);
    ThroughAppend(cfg, p, SizeLine(c.size, c.ext) + c.data + [CR], q3, t2 + [], [LF], ChunkDone(p),
                  [Notified(ChunkComplete, Seen(ChunkDone(p)))]);
    assert t2 + [] == t2;
  }

  lemma NotifiedDelivers(what: NotifyKind, e: Event)
    requires e.Notified?
    ensures BodyOf([e]) == [] && Times(what, [e]) == if e.what == what then 1 else 0
  {
    assert [e][1..] == [];
  }

  lemma ChunkTraceDelivers(what: NotifyKind, p: Parser, data: seq<byte>)
    ensures var t := ChunkTrace(p, data);
      BodyOf(t) == data && Times(what, t) == if what == ChunkHeader || what == ChunkComplete then 1 else 0
  {
    hide Letters, BodyOf, Times;
    var a, b := Notified(ChunkHeader, Seen(SizeRead(p, |data|))), Notified(ChunkComplete, Seen(ChunkDone(p)));
    var l := Letters(Body, data);
    LettersDeliver(what, data);
    NotifiedDelivers(what, a);
    NotifiedDelivers(what, b);
    TraceAppend(what, [a], l);
    TraceAppend(what, [a] + l, [b]);
    assert [] + data + [] == data;
  }

  // ---------------------------------------------------------------- all chunks

  function AfterChunks(p: Parser, chunks: seq<Chunk>): Parser {
    if chunks == [] then p else ChunkDone(p)
  }

  function ChunksTrace(p: Parser, chunks: seq<Chunk>): seq<Event>
    decreases |chunks|
  {
    if chunks == [] then [] else ChunkTrace(p, chunks[0].data) + ChunksTrace(ChunkDone(p), chunks[1..])
  }

  lemma {:induction false} ChunksRead(cfg: Config, p: Parser, chunks: seq<Chunk>)
    requires p.state.ChunkSizeStart? && p.nread == 0 && cfg.maxHeader < UINT32_SPAN
    requires forall i :: 0 <= i < |chunks| ==> WellFormed(cfg, chunks[i])
    ensures Through(cfg, p, ChunksWire(chunks), AfterChunks(p, chunks), ChunksTrace(p, chunks))
    ensures BodyOf(ChunksTrace(p, chunks)) == Payload(chunks)
    ensures Times(MessageComplete, ChunksTrace(p, chunks)) == 0
    ensures Times(ChunkHeader, ChunksTrace(p, chunks)) == |chunks|
    decreases |chunks|
  {
    hide Run, ChunkTrace, ChunkWire, WellFormed;
    if chunks == [] {
      ThroughNothing(cfg, p);
    } else {
      var c, rest := chunks[0], chunks[1..];
      ChunkRead(cfg, p, c);
      ChunksRead(cfg, ChunkDone(p), rest);
      ThroughAppend(cfg, p, ChunkWire(c), ChunkDone(p), ChunkTrace(p, c.data), ChunksWire(rest),
                    AfterChunks(ChunkDone(p), rest), ChunksTrace(ChunkDone(p), rest));
      ChunkTraceDelivers(MessageComplete, p, c.data);
      ChunkTraceDelivers(ChunkHeader, p, c.data);
      TraceAppend(MessageComplete, ChunkTrace(p, c.data), ChunksTrace(ChunkDone(p), rest));
      TraceAppend(ChunkHeader, ChunkTrace(p, c.data), ChunksTrace(ChunkDone(p), rest));
    }
  }

  // ---------------------------------------------------------------- the end of the message

  /** The record before the final LF. */
  function Trailing(p: Parser, l: Last): Parser
    requires ArePlainFields(l.trailer)
  {
    FieldsRead(SizeRead(p, 0), l.trailer)
  }

  function LastTrace(p: Parser, l: Last): seq<Event> {
    [Notified(ChunkHeader, Seen(SizeRead(p, 0)))] + FieldsTrace(l.trailer)
  }

  lemma LastRead(cfg: Config, p: Parser, l: Last)
    requires p.state.ChunkSizeStart? && p.nread == 0 && LastWellFormed(cfg, l) && cfg.maxHeader < UINT32_SPAN
    ensures Through(cfg, p, LastWire(l), Trailing(p, l), LastTrace(p, l))
  {
    hide Through, Spells, SizeLine, FieldsWire, FieldsRead, FieldsTrace, ArePlainFields;
    SizeLineRead(cfg, p, l.size, l.ext, 0);
    var q := SizeRead(p, 0);
    FieldsThrough(cfg, q, l.trailer);
    ThroughAppend(cfg, p, SizeLine(l.size, l.ext), q, [Notified(ChunkHeader, Seen(q))],
                  FieldsWire(l.trailer) + [CR], Trailing(p, l), FieldsTrace(l.trailer));
  }

  /** What the lines of a trailer hand over is no body. */
  lemma {:induction false} FieldsDeliver(what: NotifyKind, fields: seq<Line>)
    ensures BodyOf(FieldsTrace(fields)) == [] && Times(what, FieldsTrace(fields)) == 0
    decreases |fields|
  {
    hide Piece;
    if fields != [] {
      var a, b := Piece(Field, fields[0].name), Piece(Value, fields[0].v);
      OtherPiece(what, Field, fields[0].name);
      OtherPiece(what, Value, fields[0].v);
      FieldsDeliver(what, fields[1..]);
      TraceAppend(what, a, b);
      TraceAppend(what, a + b, FieldsTrace(fields[1..]));
    }
  }

  lemma OtherPiece(what: NotifyKind, kind: DataKind, data: seq<byte>)
    requires kind != Body
    ensures BodyOf(Piece(kind, data)) == [] && Times(what, Piece(kind, data)) == 0
  {
    assert Piece(kind, data)[1..] == Letters(kind, data);
    OtherLetters(what, kind, data);
  }

  lemma {:induction false} OtherLetters(what: NotifyKind, kind: DataKind, data: seq<byte>)
    requires kind != Body
    ensures BodyOf(Letters(kind, data)) == [] && Times(what, Letters(kind, data)) == 0
  {
    if data != [] {
      assert Letters(kind, data)[1..] == Letters(kind, data[1..]);
      OtherLetters(what, kind, data[1..]);
    }
  }

  /** What the final LF announces. */
  function Endings(p: Parser): (Parser, seq<Event>) {
    var done := p.(state := MessageDone);
    var next := p.(state := NewMessage(done));
    (next, [Notified(ChunkComplete, Seen(done)), Notified(MessageComplete, Seen(next))])
  }

  lemma FinalTurn(cfg: Config, p: Parser)
    requires p.state.HeadersAlmostDone? && p.flags.trailing
    ensures var o := StepOnce(cfg, p, LF); var done := p.(state := MessageDone);
      o.ctl.Again? && o.p == done && TurnTrace(p.state, o, LF) == [Notified(ChunkComplete, Seen(done))]
  {
  }

  lemma MessageDoneTurn(cfg: Config, p: Parser)
    requires p.state.MessageDone?
    ensures var o := StepOnce(cfg, p, LF); var q := p.(state := NewMessage(p));
      o.p == q && TurnTrace(p.state, o, LF) == [Notified(MessageComplete, Seen(q))]
      && o.ctl == if p.upgrade then Exit else Next
  {
  }

  lemma FinalRead(cfg: Config, p: Parser)
    requires p.state.HeadersAlmostDone? && p.flags.trailing
    requires p.nread + 1 <= cfg.maxHeader < UINT32_SPAN
    ensures var (next, t) := Endings(p.(nread := p.nread + 1));
      Run(cfg, p, [LF], 0) == Result(next, t, 1, if p.upgrade then Exited else Running)
  {
    hide StepOnce, TurnTrace, Run, NewMessage;
    var q := Counted(p, 1);
    FinalTurn(cfg, q);
    MessageDoneTurn(cfg, q.(state := MessageDone));
    ThroughByteTwice(cfg, p, LF);
  }

  /** The fold over a whole chunked body, up to the final LF and with it. */
  lemma ChunkedRun(cfg: Config, p: Parser, chunks: seq<Chunk>, l: Last)
    requires p.state.ChunkSizeStart? && p.nread == 0 && cfg.maxHeader < UINT32_SPAN
    requires forall i :: 0 <= i < |chunks| ==> WellFormed(cfg, chunks[i])
    requires LastWellFormed(cfg, l)
    ensures var q := AfterChunks(p, chunks);
      var wire := ChunksWire(chunks) + LastWire(l);
      var t := ChunksTrace(p, chunks) + LastTrace(q, l);
      var z := Trailing(q, l);
      var (next, ends) := Endings(z.(nread := z.nread + 1));
      && Through(cfg, p, wire, z, t)
      && Run(cfg, p, wire + [LF], 0) == Result(next, t + ends, |wire| + 1, if p.upgrade then Exited else Running)
  {
    hide Run, ChunksWire, LastWire, ChunksTrace, LastTrace, Payload, Spells, WellFormed, NewMessage, ArePlainFields,
         FieldsRead, FieldsWire;
    ChunksRead(cfg, p, chunks);
    var q := AfterChunks(p, chunks);
    LastRead(cfg, q, l);
    ThroughAppend(cfg, p, ChunksWire(chunks), q, ChunksTrace(p, chunks), LastWire(l), Trailing(q, l), LastTrace(q, l));
    FieldsKeep(SizeRead(q, 0), l.trailer);
    FinalRead(cfg, Trailing(q, l));
    RunAppend(cfg, p, ChunksWire(chunks) + LastWire(l), [LF], 0);
  }

  lemma EndingsDeliver(what: NotifyKind, p: Parser, t: seq<Event>, header: Event, fields: seq<Line>)
    requires header.Notified? && header.what == ChunkHeader
    ensures var last := [header] + FieldsTrace(fields);
      var all := t + last + Endings(p).1;
      && BodyOf(t + last) == BodyOf(all) == BodyOf(t)
      && Times(what, t + last) == Times(what, t) + (if what == ChunkHeader then 1 else 0)
      && Times(what, all) == Times(what, t + last) + (if what == ChunkComplete || what == MessageComplete then 1 else 0)
  {
    hide BodyOf, Times, NewMessage, FieldsTrace;
    var ends, last := Endings(p).1, [header] + FieldsTrace(fields);
    assert ends == [ends[0]] + [ends[1]];
    NotifiedDelivers(what, header);
    NotifiedDelivers(what, ends[0]);
    NotifiedDelivers(what, ends[1]);
    FieldsDeliver(what, fields);
    TraceAppend(what, [ends[0]], [ends[1]]);
    TraceAppend(what, [header], FieldsTrace(fields));
    TraceAppend(what, t, last);
    TraceAppend(what, t + last, ends);
    assert BodyOf(t) + [] == BodyOf(t);
  }

  /** Chunked decoding is exact: for every list of non-empty chunks, every spelling of their sizes, every
      extension and every trailer within the header limit, the body delivered is the payload, every chunk
      is announced, and the message is completed exactly once, by the final LF. */
  lemma ChunkedDecoding(cfg: Config, p: Parser, chunks: seq<Chunk>, l: Last)
    requires p.state.ChunkSizeStart? && p.nread == 0 && cfg.maxHeader < UINT32_SPAN
    requires forall i :: 0 <= i < |chunks| ==> WellFormed(cfg, chunks[i])
    requires LastWellFormed(cfg, l)
    ensures var wire := ChunksWire(chunks) + LastWire(l);
      var r, w := Run(cfg, p, wire, 0), Run(cfg, p, wire + [LF], 0);
      && r.stop.Running? && Times(MessageComplete, r.trace) == 0
      && w.stop == (if p.upgrade then Exited else Running) && w.used == |wire| + 1
      && BodyOf(r.trace) == BodyOf(w.trace) == Payload(chunks)
      && Times(ChunkHeader, w.trace) == |chunks| + 1
      && Times(MessageComplete, w.trace) == 1
      && w.trace != [] && w.trace[|w.trace| - 1] == Notified(MessageComplete, Seen(w.p))
  {
    hide Run, ChunksWire, LastWire, ChunksTrace, Payload, WellFormed, LastWellFormed, NewMessage, BodyOf, Times, FieldsTrace,
         ArePlainFields, FieldsRead;
    ChunkedRun(cfg, p, chunks, l);
    ChunksRead(cfg, p, chunks);
    var q := AfterChunks(p, chunks);
    var last := Notified(ChunkHeader, Seen(SizeRead(q, 0)));
    TrailerPlain(cfg, l);
    var z := Trailing(q, l);
    EndingsDeliver(MessageComplete, z.(nread := z.nread + 1), ChunksTrace(p, chunks), last, l.trailer);
    EndingsDeliver(ChunkHeader, z.(nread := z.nread + 1), ChunksTrace(p, chunks), last, l.trailer);
  }

  lemma TrailerPlain(cfg: Config, l: Last)
    requires LastWellFormed(cfg, l)
    ensures ArePlainFields(l.trailer)
  {
  }

  /** The same for the parser object: whatever pieces the encoded body arrived in, the on_body data
      put back together is the payload and on_message_complete is called once. */
  lemma ChunkedBodyDelivered(cfg: Config, p: Parser, had: seq<Callback>, chunks: seq<Chunk>, l: Last,
                             after: Parser, calls: seq<Callback>, used: nat)
    requires p.state.ChunkSizeStart? && p.nread == 0 && p.errno == Ok && cfg.maxHeader < UINT32_SPAN
    requires forall i :: 0 <= i < |chunks| ==> WellFormed(cfg, chunks[i])
    requires LastWellFormed(cfg, l)
    requires Executes(cfg, p, had, ChunksWire(chunks) + LastWire(l) + [LF], after, calls, used)
    ensures after.errno == Ok && used == |ChunksWire(chunks) + LastWire(l)| + 1
    ensures BodyOf(Flatten(calls)) == BodyOf(Flatten(had)) + Payload(chunks)
    ensures Times(MessageComplete, Flatten(calls)) == Times(MessageComplete, Flatten(had)) + 1
  {
    hide Run, ChunksWire, LastWire, Payload, LastWellFormed, WellFormed, Flatten, BodyOf, Times;
    ChunkedDecoding(cfg, p, chunks, l);
    var wire := ChunksWire(chunks) + LastWire(l) + [LF];
    RunBounds(cfg, p, wire, 0);
    TraceAppend(MessageComplete, Flatten(had), Run(cfg, p, wire, 0).trace);
  }
}
