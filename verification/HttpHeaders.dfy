/** Whole header lines for Connection and Transfer-Encoding: the flags that the fold has set when the next
    line begins. */
module HttpHeaders {
  import opened Bytes
  import opened HttpTypes
  import opened HttpStep
  import opened HttpSpec
  import opened HttpMarks
  import opened HttpPieces
  import opened HttpNames
  import opened HttpLength
  import opened HttpValues
  import opened HttpLists

  function HeaderLine(name: seq<byte>, v: seq<byte>): seq<byte> {
    name + [COLON, SP] + v + [CR, LF]
  }

  /** A byte that ends a header: the end of the headers, or the first of the next name. */
  predicate StartsNext(x: byte) {
    x == CR || Token(x) != 0
  }

  /** The record in front of that byte. */
  function LineRead(p: Parser, name: seq<byte>, v: seq<byte>): Parser
    requires name != [] && v != []
  {
    ValueRead(NameRead(p, name).(state := HeaderValueDiscardWs), v).(state := HeaderValueLws,
                                                                    nread := p.nread + |HeaderLine(name, v)|)
  }

  /** The record behind it. */
  function NextRead(p: Parser, name: seq<byte>, v: seq<byte>, x: byte): Parser
    requires name != [] && v != []
  {
    var q := LineRead(p, name, v);
    var r := q.(flags := RaiseFlag(q.flags, q.hstate), nread := q.nread + 1);
    if x == CR then r.(state := HeadersAlmostDone)
    else r.(state := HeaderField, index := 0, hstate := FirstNameState(Token(x)))
  }

  function LineTrace(name: seq<byte>, v: seq<byte>, x: byte): seq<Event> {
    Piece(Field, name) + Piece(Value, v) + if x == CR then [] else [Begin(Field), Data(Field, x)]
  }

  /** A value as it stands on a line: not empty, and not beginning with a blank. */
  predicate IsFullValue(v: seq<byte>) {
    v != [] && IsValue(v) && v[0] != SP && v[0] != TAB
  }

  function NoEvents(): seq<Event> {
    []
  }

  /** The four bytes around a value, as turns of the switch. */
  lemma FrameTurns(cfg: Config, p: Parser)
    ensures p.state.HeaderField? ==> StepOnce(cfg, p, COLON) == Deliver(p, HeaderValueDiscardWs, Field)
    ensures p.state.HeaderValueDiscardWs? ==> StepOnce(cfg, p, SP) == Stay(p)
    ensures p.state.HeaderValue? ==> StepOnce(cfg, p, CR) == Deliver(p, HeaderAlmostDone, Value)
    ensures p.state.HeaderAlmostDone? ==> StepOnce(cfg, p, LF) == Go(p, HeaderValueLws)
  {
    assert Token(COLON) == 0;
    hide Token, ValueStep, StartValue, NameStep;
  }

  /** A byte that delivers nothing and is taken. */
  lemma QuietThrough(cfg: Config, p: Parser, ch: byte, q: Parser)
    requires p.nread + 1 <= cfg.maxHeader < UINT32_SPAN && ParsingHeader(p.state)
    requires var o := StepOnce(cfg, p.(nread := p.nread + 1), ch);
      o.ctl.Next? && o.mark == None && o.note == [] && o.p == q && StrictKind(q.state).None?
    ensures Through(cfg, p, [ch], q, [])
  {
    hide Run, Settle, StepOnce, StrictKind, Through;
    assert Entered(p) == p.(nread := p.nread + 1);
    ThroughByte(cfg, p, ch);
    assert TurnTrace(p.state, StepOnce(cfg, Entered(p), ch), ch) == [];
  }

  lemma ColonThrough(cfg: Config, p: Parser)
    requires p.state.HeaderField? && p.nread + 2 <= cfg.maxHeader < UINT32_SPAN
    ensures Through(cfg, p, [COLON, SP], p.(state := HeaderValueDiscardWs, nread := p.nread + 2), [])
  {
    hide StepOnce, Through;
    var q := p.(state := HeaderValueDiscardWs, nread := p.nread + 1);
    FrameTurns(cfg, p.(nread := p.nread + 1));
    QuietThrough(cfg, p, COLON, q);
    FrameTurns(cfg, q.(nread := q.nread + 1));
    QuietThrough(cfg, q, SP, q.(nread := q.nread + 1));
    ThroughAppend(cfg, p, [COLON], q, [], [SP], q.(nread := q.nread + 1), []);
    assert [COLON] + [SP] == [COLON, SP] && NoEvents() + NoEvents() == NoEvents();
  }

  lemma LineEndThrough(cfg: Config, p: Parser)
    requires p.state.HeaderValue? && p.nread + 2 <= cfg.maxHeader < UINT32_SPAN
    ensures Through(cfg, p, [CR, LF], p.(state := HeaderValueLws, nread := p.nread + 2), [])
  {
    hide StepOnce, Through;
    var q := p.(state := HeaderAlmostDone, nread := p.nread + 1);
    FrameTurns(cfg, p.(nread := p.nread + 1));
    QuietThrough(cfg, p, CR, q);
    FrameTurns(cfg, q.(nread := q.nread + 1));
    QuietThrough(cfg, q, LF, q.(state := HeaderValueLws, nread := q.nread + 1));
    ThroughAppend(cfg, p, [CR], q, [], [LF], q.(state := HeaderValueLws, nread := q.nread + 1), []);
    assert [CR] + [LF] == [CR, LF] && NoEvents() + NoEvents() == NoEvents();
  }

  /** The byte behind the line raises the flag of the value, and is looked at again. */
  lemma NextTurns(cfg: Config, p: Parser, x: byte)
    requires StartsNext(x)
    ensures p.state.HeaderValueLws? ==>
              StepOnce(cfg, p, x) == Redo(p.(flags := RaiseFlag(p.flags, p.hstate)), HeaderFieldStart)
  {
    NoBlank(x);
    hide Token, RaiseFlag, StartsNext;
  }

  /** A byte that is looked at twice, and taken the second time. */
  lemma TwiceThrough(cfg: Config, p: Parser, ch: byte, m: Parser, q: Parser, t: seq<Event>)
    requires p.nread + 1 <= cfg.maxHeader < UINT32_SPAN && ParsingHeader(p.state)
    requires StepOnce(cfg, p.(nread := p.nread + 1), ch) == Outcome(m, None, None, [], Again)
    requires var o := StepOnce(cfg, m, ch); o.ctl.Next? && o.p == q && TurnTrace(m.state, o, ch) == t
    ensures Through(cfg, p, [ch], q, t)
  {
    hide StepOnce, Settle, StrictKind, Through;
    assert Entered(p) == p.(nread := p.nread + 1);
    ThroughByteTwice(cfg, p, ch);
    assert TurnTrace(p.state, StepOnce(cfg, Entered(p), ch), ch) == [];
    assert [] + t == t;
  }

  lemma NextThrough(cfg: Config, p: Parser, x: byte)
    requires p.state.HeaderValueLws? && StartsNext(x) && p.nread + 1 <= cfg.maxHeader < UINT32_SPAN
    ensures var r := p.(flags := RaiseFlag(p.flags, p.hstate), nread := p.nread + 1);
      if x == CR then Through(cfg, p, [x], r.(state := HeadersAlmostDone), [])
      else Through(cfg, p, [x], r.(state := HeaderField, index := 0, hstate := FirstNameState(Token(x))),
                   [Begin(Field), Data(Field, x)])
  {
    hide StepOnce, Through, RaiseFlag, FirstNameState, Token, TurnTrace;
    var e := p.(nread := p.nread + 1);
    var m := e.(flags := RaiseFlag(p.flags, p.hstate), state := HeaderFieldStart);
    NextTurns(cfg, e, x);
    if x == CR {
      EndTurn(cfg, m);
      TwiceThrough(cfg, p, x, m, m.(state := HeadersAlmostDone), []);
    } else {
      FirstNameTurn(cfg, m, x);
      TwiceThrough(cfg, p, x, m, m.(state := HeaderField, index := 0, hstate := FirstNameState(Token(x))),
                   [Begin(Field), Data(Field, x)]);
    }
  }

  lemma EndTurn(cfg: Config, p: Parser)
    requires p.state.HeaderFieldStart?
    ensures var o := StepOnce(cfg, p, CR);
      o.ctl.Next? && o.p == p.(state := HeadersAlmostDone) && TurnTrace(p.state, o, CR) == []
  {
    hide Token;
  }

  lemma NoBlank(x: byte)
    requires StartsNext(x)
    ensures x != SP && x != TAB && x != LF
  {
  }

  lemma ValueReadStays(p: Parser, v: seq<byte>)
    requires v != [] && StartsWord(p.hstate)
    ensures ValueRead(p, v).state.HeaderValue?
  {
    hide FirstWord, WordStep, IsWordState, Words;
    FirstStays(p, v[0]);
    WordsStay(FirstWord(p, v[0]), v[1..]);
  }

  lemma FirstStays(p: Parser, ch: byte)
    requires StartsWord(p.hstate)
    ensures FirstWord(p, ch).state.HeaderValue? && IsWordState(FirstWord(p, ch).hstate)
  {
    hide Lower;
  }

  lemma {:induction false} WordsStay(p: Parser, v: seq<byte>)
    requires IsWordState(p.hstate) && p.state.HeaderValue?
    ensures Words(p, v).state.HeaderValue?
    decreases |v|
  {
    hide WordStep, IsWordState;
    if v != [] {
      WordStays(p, v[0]);
      WordsStay(WordStep(p, v[0]), v[1..]);
    }
  }

  /** A whole line goes through the fold. */
  lemma LineThrough(cfg: Config, p: Parser, name: seq<byte>, v: seq<byte>)
    requires p.state.HeaderFieldStart? && name != [] && IsToken(name) && IsFullValue(v)
    requires StartsWord(NameRead(p, name).hstate)
    requires p.nread + |HeaderLine(name, v)| <= cfg.maxHeader < UINT32_SPAN
    ensures Through(cfg, p, HeaderLine(name, v), LineRead(p, name, v), Piece(Field, name) + Piece(Value, v))
  {
    hide Through, Recognised, ValueRead, IsToken, IsValue, Piece, StartsWord;
    var n, m := p.nread + |name|, p.nread + |name| + 2 + |v|;
    NameRuns(cfg, p, name);
    var q := NameRead(p, name);
    ColonThrough(cfg, q);
    var q2 := q.(state := HeaderValueDiscardWs, nread := n + 2);
    ThroughAppend(cfg, p, name, q, Piece(Field, name), [COLON, SP], q2, []);
    ValueRuns(cfg, q2, v);
    ValueReadStays(q2, v);
    var q3 := ValueRead(q2, v).(nread := m);
    ThroughAppend(cfg, p, name + [COLON, SP], q2, Piece(Field, name) + [], v, q3, Piece(Value, v));
    LineEndThrough(cfg, q3);
    var q4 := q3.(state := HeaderValueLws, nread := m + 2);
    ThroughAppend(cfg, p, name + [COLON, SP] + v, q3, Piece(Field, name) + [] + Piece(Value, v), [CR, LF], q4, []);
    ValueReadCount(q.(state := HeaderValueDiscardWs), v, n + 2);
    assert q4 == LineRead(p, name, v);
    assert Piece(Field, name) + [] + Piece(Value, v) + [] == Piece(Field, name) + Piece(Value, v);
  }

  /** The same up to and with the byte behind it. */
  lemma LineRuns(cfg: Config, p: Parser, name: seq<byte>, v: seq<byte>, x: byte)
    requires p.state.HeaderFieldStart? && name != [] && IsToken(name) && IsFullValue(v) && StartsNext(x)
    requires StartsWord(NameRead(p, name).hstate)
    requires p.nread + |HeaderLine(name, v)| < cfg.maxHeader < UINT32_SPAN
    ensures Through(cfg, p, HeaderLine(name, v) + [x], NextRead(p, name, v, x), LineTrace(name, v, x))
  {
    hide Through, Recognised, ValueRead, IsToken, IsValue, StartsNext, Piece, RaiseFlag, FirstNameState, Token, StartsWord;
    LineThrough(cfg, p, name, v);
    var q := LineRead(p, name, v);
    NextThrough(cfg, q, x);
    ThroughAppend(cfg, p, HeaderLine(name, v), q, Piece(Field, name) + Piece(Value, v), [x], NextRead(p, name, v, x),
                  if x == CR then [] else [Begin(Field), Data(Field, x)]);
  }

  lemma ValueReadCount(p: Parser, v: seq<byte>, n: nat)
    requires v != [] && StartsWord(p.hstate)
    ensures ValueRead(p.(nread := n), v) == ValueRead(p, v).(nread := n)
  {
    hide FirstWord, IsWordState, Words;
    FirstWordCount(p, v[0], n);
    FirstStays(p, v[0]);
    WordsCount(FirstWord(p, v[0]), v[1..], n);
  }

  // ---------------------------------------------------------------- many lines

  /** The record that the next line starts from. */
  function Flagged(q: Parser): Parser {
    q.(state := HeaderFieldStart, flags := RaiseFlag(q.flags, q.hstate))
  }

  /** Whatever follows a line and begins a next one, or ends the headers, is read as from the record in which the
      flag is raised. */
  lemma NextLine(cfg: Config, q: Parser, rest: seq<byte>)
    requires q.state.HeaderValueLws? && rest != [] && StartsNext(rest[0]) && q.nread + 1 <= cfg.maxHeader < UINT32_SPAN
    ensures Run(cfg, q, rest, 0) == Run(cfg, Flagged(q), rest, 0)
  {
    hide StepOnce, Settle, RaiseFlag, StartsNext, RunCounted, TurnTrace;
    var e := q.(nread := q.nread + 1);
    NextTurns(cfg, e, rest[0]);
    RunTurn(cfg, e, rest, 0);
    assert StepOnce(cfg, e, rest[0]).p == Flagged(e);
    RedoTrace(e.state, Flagged(e), rest[0]);
    PrependNothing(RunCounted(cfg, Flagged(e), rest, 0));
  }

  lemma RedoTrace(s: State, m: Parser, ch: byte)
    requires s.HeaderValueLws?
    ensures TurnTrace(s, Outcome(m, None, None, [], Again), ch) == []
  {
  }

  datatype Line = Line(name: seq<byte>, v: seq<byte>)

  /** A header that sets no length. */
  predicate IsPlainField(f: Line) {
    && f.name != [] && IsToken(f.name) && IsFullValue(f.v)
    && !Is(Lowered(f.name), "content-length")
  }

  predicate ArePlainFields(fields: seq<Line>) {
    forall i :: 0 <= i < |fields| ==> IsPlainField(fields[i])
  }

  function FieldsWire(fields: seq<Line>): seq<byte> {
    if fields == [] then [] else HeaderLine(fields[0].name, fields[0].v) + FieldsWire(fields[1..])
  }

  /** The record behind the lines and the CR that ends the headers. */
  function FieldsRead(p: Parser, fields: seq<Line>): Parser
    requires ArePlainFields(fields)
    decreases |fields|
  {
    if fields == [] then p.(state := HeadersAlmostDone, nread := p.nread + 1)
    else FieldsRead(Flagged(LineRead(p, fields[0].name, fields[0].v)), fields[1..])
  }

  function FieldsTrace(fields: seq<Line>): seq<Event> {
    if fields == [] then [] else Piece(Field, fields[0].name) + Piece(Value, fields[0].v) + FieldsTrace(fields[1..])
  }

  lemma NameStarts(cfg: Config, p: Parser, name: seq<byte>)
    requires p.state.HeaderFieldStart? && name != [] && IsToken(name)
    requires p.nread + |name| <= cfg.maxHeader < UINT32_SPAN
    requires !Is(Lowered(name), "content-length")
    ensures StartsWord(NameRead(p, name).hstate)
  {
    hide Knows, IsToken, Is;
    RecognisedKnows(name);
    var (h, i) := Recognised(name);
    KnowsKeywords(Lowered(name), h, i);
    KnownStates(Lowered(name), h, i);
  }

  lemma KnownStates(t: seq<byte>, h: HeaderState, index: nat)
    requires Knows(t, h, index)
    ensures !h.ContentLengthWs? && !h.MatchingTokenStart?
  {
  }

  /** Lines that begin from a record go through, up to and with the CR behind them. */
  lemma {:induction false} FieldsThrough(cfg: Config, p: Parser, fields: seq<Line>)
    requires p.state.HeaderFieldStart? && ArePlainFields(fields)
    requires p.nread + |FieldsWire(fields)| + 1 <= cfg.maxHeader < UINT32_SPAN
    ensures Through(cfg, p, FieldsWire(fields) + [CR], FieldsRead(p, fields), FieldsTrace(fields))
    decreases |fields|
  {
    hide StepOnce, Run, LineRead, IsToken, IsValue, Is, Piece, RaiseFlag, StartsWord, StartsNext, HeaderLine;
    if fields == [] {
      EndTurn(cfg, Counted(p, 1));
      ThroughByte(cfg, p, CR);
      assert FieldsWire(fields) + [CR] == [CR];
    } else {
      var f, rest := fields[0], fields[1..];
      assert IsPlainField(f);
      LineLength(f.name, f.v);
      NameStarts(cfg, p, f.name);
      LineThrough(cfg, p, f.name, f.v);
      var q := LineRead(p, f.name, f.v);
      LineState(p, f.name, f.v);
      FieldsThrough(cfg, Flagged(q), rest);
      var wire := FieldsWire(rest) + [CR];
      WireStarts(rest);
      NextLine(cfg, q, wire);
      ThroughAppend(cfg, p, HeaderLine(f.name, f.v), q, Piece(Field, f.name) + Piece(Value, f.v),
                    wire, FieldsRead(p, fields), FieldsTrace(rest));
      assert FieldsWire(fields) + [CR] == HeaderLine(f.name, f.v) + wire;
    }
  }

  lemma LineLength(name: seq<byte>, v: seq<byte>)
    ensures |HeaderLine(name, v)| == |name| + |v| + 4
  {
  }

  lemma LineState(p: Parser, name: seq<byte>, v: seq<byte>)
    requires name != [] && v != []
    ensures var q := LineRead(p, name, v); q.state.HeaderValueLws? && q.nread == p.nread + |HeaderLine(name, v)|
  {
    hide ValueRead, Recognised;
  }

  lemma WireStarts(fields: seq<Line>)
    requires ArePlainFields(fields)
    ensures FieldsWire(fields) + [CR] != [] && StartsNext((FieldsWire(fields) + [CR])[0])
  {
    hide Is, IsFullValue;
    if fields != [] {
      assert IsPlainField(fields[0]);
      assert (FieldsWire(fields) + [CR])[0] == fields[0].name[0];
    }
  }

  /** The lines change nothing of the record but the flags they raise and the state of the header machine. */
  lemma {:induction false} FieldsKeep(p: Parser, fields: seq<Line>)
    requires ArePlainFields(fields)
    ensures var q := FieldsRead(p, fields);
      && q.state.HeadersAlmostDone? && q.nread == p.nread + |FieldsWire(fields)| + 1
      && q == p.(state := q.state, hstate := q.hstate, index := q.index, nread := q.nread, flags := q.flags)
      && q.flags.trailing == p.flags.trailing
    decreases |fields|
  {
    hide LineRead, IsToken, IsValue, Is, HeaderLine, Flagged;
    if fields != [] {
      var f := fields[0];
      assert IsPlainField(f);
      LineKeeps(p, f);
      LineState(p, f.name, f.v);
      FlaggedKeeps(LineRead(p, f.name, f.v));
      FieldsKeep(Flagged(LineRead(p, f.name, f.v)), fields[1..]);
    }
  }

  lemma FlaggedKeeps(q: Parser)
    ensures Flagged(q) == q.(state := HeaderFieldStart, flags := Flagged(q).flags)
    ensures Flagged(q).flags.trailing == q.flags.trailing
  {
  }

  lemma LineKeeps(p: Parser, f: Line)
    requires IsPlainField(f)
    ensures var q := LineRead(p, f.name, f.v);
      && q == p.(state := q.state, hstate := q.hstate, index := q.index, nread := q.nread, flags := q.flags)
      && q.flags.trailing == p.flags.trailing
  {
    hide Recognised, Words, FirstWord, IsToken, IsValue, Is, Knows;
    RecognisedKnows(f.name);
    var (h, i) := Recognised(f.name);
    KnowsKeywords(Lowered(f.name), h, i);
    KnownStates(Lowered(f.name), h, i);
    var r := NameRead(p, f.name).(state := HeaderValueDiscardWs);
    FirstKeeps(r, f.v[0]);
    FirstStays(r, f.v[0]);
    WordsKeep(FirstWord(r, f.v[0]), f.v[1..]);
  }

  lemma FirstKeeps(p: Parser, ch: byte)
    requires StartsWord(p.hstate)
    ensures var q := FirstWord(p, ch);
      && q == p.(state := q.state, hstate := q.hstate, index := q.index, flags := q.flags)
      && q.flags.trailing == p.flags.trailing
  {
    hide Lower;
  }

  lemma {:induction false} WordsKeep(p: Parser, v: seq<byte>)
    requires IsWordState(p.hstate)
    ensures var q := Words(p, v);
      q == p.(hstate := q.hstate, index := q.index, flags := q.flags) && q.flags.trailing == p.flags.trailing
    decreases |v|
  {
    hide WordStep, IsWordState;
    if v != [] {
      WordStays(p, v[0]);
      WordKeepsTrailing(p, v[0]);
      WordsKeep(WordStep(p, v[0]), v[1..]);
    }
  }

  lemma WordKeepsTrailing(p: Parser, ch: byte)
    requires IsWordState(p.hstate)
    ensures WordStep(p, ch).flags.trailing == p.flags.trailing
  {
    hide Token, Lower, ValueMatch, RaiseFlag, LengthStep;
    RaiseKeeps(p.flags, p.hstate);
    MatchKeeps(p, Lower(ch), General);
    MatchKeeps(p, Lower(ch), MatchingToken);
  }

  lemma RaiseKeeps(f: Flags, h: HeaderState)
    ensures RaiseFlag(f, h).trailing == f.trailing
  {
  }

  lemma MatchKeeps(p: Parser, c: byte, miss: HeaderState)
    ensures ValueMatch(p, c, miss).flags == p.flags
  {
    hide ValueKeyword, ValueFound;
  }

  // ---------------------------------------------------------------- the two headers

  predicate IsConnection(name: seq<byte>) {
    Is(Lowered(name), "connection") || Is(Lowered(name), "proxy-connection")
  }

  /** A Connection header, whatever its name's case and its value, leaves exactly the flags of the options that
      the parser looks at, when the next line begins. */
  lemma ConnectionHeader(cfg: Config, p: Parser, name: seq<byte>, v: seq<byte>, x: byte)
    requires p.state.HeaderFieldStart? && name != [] && IsToken(name) && IsConnection(name)
    requires IsFullValue(v) && StartsNext(x) && p.nread + |HeaderLine(name, v)| < cfg.maxHeader < UINT32_SPAN
    ensures var q := NextRead(p, name, v, x);
      && Through(cfg, p, HeaderLine(name, v) + [x], q, LineTrace(name, v, x))
      && q.flags == Raised(p.flags, Options(Split(v)))
  {
    hide Through, Recognised, Options, Raised, Is, RaiseFlag, Split, ValueRead, IsToken, IsValue, StartsNext;
    HeaderNameExact(cfg, p, name);
    LineRuns(cfg, p, name, v, x);
    ConnectionExact(NameRead(p, name).(state := HeaderValueDiscardWs), v);
  }

  /** A Transfer-Encoding header raises the chunked flag if and only if its value is "chunked", in any mixture
      of cases, with nothing but spaces behind it; and it changes no other flag. */
  lemma TransferEncodingHeader(cfg: Config, p: Parser, name: seq<byte>, v: seq<byte>, x: byte)
    requires p.state.HeaderFieldStart? && name != [] && IsToken(name) && Is(Lowered(name), "transfer-encoding")
    requires IsFullValue(v) && StartsNext(x) && p.nread + |HeaderLine(name, v)| < cfg.maxHeader < UINT32_SPAN
    ensures var q := NextRead(p, name, v, x);
      && Through(cfg, p, HeaderLine(name, v) + [x], q, LineTrace(name, v, x))
      && q.flags == p.flags.(chunked := p.flags.chunked || Named(v, "chunked"))
  {
    hide Through, Recognised, Named, Is, RaiseFlag, ValueRead, IsToken, IsValue, StartsNext;
    HeaderNameExact(cfg, p, name);
    LineRuns(cfg, p, name, v, x);
    TransferEncodingExact(NameRead(p, name).(state := HeaderValueDiscardWs), v);
  }

  // ---------------------------------------------------------------- what a list means

  /** A Connection header leaves the flags of its list, whatever they were before, if and only if every keyword
      on the list is read. */
  lemma ConnectionMeansList(cfg: Config, p: Parser, name: seq<byte>, v: seq<byte>, x: byte)
    requires p.state.HeaderFieldStart? && name != [] && IsToken(name) && IsConnection(name)
    requires IsFullValue(v) && StartsNext(x) && p.nread + |HeaderLine(name, v)| < cfg.maxHeader < UINT32_SPAN
    ensures (forall f: Flags :: NextRead(p.(flags := f), name, v, x).flags == ListFlags(f, Split(v)))
            <==> KeywordsRead(Split(v))
  {
    hide Through, NextRead, Is, IsToken, StartsNext, Split, Options, KeywordsRead, Raised, ListFlags, IsValue;
    forall f: Flags
      ensures NextRead(p.(flags := f), name, v, x).flags == Raised(f, Options(Split(v)))
    {
      ConnectionHeader(cfg, p.(flags := f), name, v, x);
    }
    FirstPart(v);
    FlagsMeanList(Split(v));
  }

  /** A value does not begin with a space, and so neither does its first part. */
  lemma FirstPart(v: seq<byte>)
    requires v != [] && v[0] != SP
    ensures Split(v)[0] != [] ==> Split(v)[0][0] != SP
  {
    hide Split;
    SplitParts(v);
  }

  /** Three values that list close and raise no flag: "k,close", ",close", and "close" with a tab behind it. */
  lemma CloseIsLost(cfg: Config, p: Parser, name: seq<byte>, v: seq<byte>, x: byte)
    requires p.state.HeaderFieldStart? && name != [] && IsToken(name) && IsConnection(name) && StartsNext(x)
    requires v == [107, COMMA] + CLOSE || v == [COMMA] + CLOSE || v == CLOSE + [TAB]
    requires p.nread + |name| + 11 < cfg.maxHeader < UINT32_SPAN
    ensures Lists(Split(v), "close")
    ensures Through(cfg, p, HeaderLine(name, v) + [x], NextRead(p, name, v, x), LineTrace(name, v, x))
    ensures NextRead(p, name, v, x).flags == p.flags
  {
    hide Through, NextRead, LineTrace, Is, IsToken, StartsNext, Split, Options, Lists;
    ConnectionHeader(cfg, p, name, v, x);
    CloseUnseen(v);
  }
}
