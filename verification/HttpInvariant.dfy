/** One inductive invariant over the whole machine. Every assert() of the source follows from it. */
module HttpInvariant {
  import opened Bytes
  import opened HttpTypes
  import opened HttpStep
  import opened HttpSpec

  /** The nested states a header name can be in. */
  predicate NameState(h: HeaderState) {
    match h
    case General => true
    case HC => true
    case HCO => true
    case HCON => true
    case MatchingConnection => true
    case MatchingProxyConnection => true
    case MatchingContentLength => true
    case MatchingTransferEncoding => true
    case MatchingUpgrade => true
    case Connection => true
    case ContentLength => true
    case TransferEncoding => true
    case Upgrade => true
    case _ => false
  }

  /** The nested states a header value can be in. */
  predicate ValueState(h: HeaderState) {
    h.General? || !NameState(h)
  }

  /** A matcher has not run past its keyword. */
  predicate IndexFits(p: Parser) {
    match p.hstate
    case HC => p.index == 0
    case HCO => p.index == 1
    case HCON => p.index == 2
    case MatchingConnection => p.index < 9
    case MatchingProxyConnection => p.index < 15
    case MatchingContentLength => p.index < 13
    case MatchingTransferEncoding => p.index < 16
    case MatchingUpgrade => p.index < 6
    case MatchingChunked => p.index < 6
    case MatchingKeepAlive => p.index < 9
    case MatchingClose => p.index < 4
    case MatchingConnUpgrade => p.index < 6
    case MatchingTokenStart => p.index == 0
    case ContentLengthNum => p.contentLength <= NO_LENGTH - 6
    case ContentLengthWs => p.contentLength <= NO_LENGTH - 6
    case _ => true
  }

  /** A length that a body state may count down: neither zero nor the sentinel. */
  predicate RealLength(n: nat) {
    0 < n < NO_LENGTH
  }

  predicate InName(s: State) {
    s.HeaderField? || s.HeaderValueDiscardWs? || s.HeaderValueDiscardWsAlmostDone? || s.HeaderValueDiscardLws?
  }

  predicate InValue(s: State) {
    s.HeaderValueStart? || s.HeaderValue? || s.HeaderAlmostDone? || s.HeaderValueLws?
  }

  /** The nested machine suits the state. */
  predicate Nested(p: Parser) {
    && (InName(p.state) ==> NameState(p.hstate))
    && (InValue(p.state) ==> ValueState(p.hstate))
    && (p.state.HeaderField? || InValue(p.state) ==> IndexFits(p))
    && (p.state.HeaderValueStart? ==> !p.hstate.ContentLengthNum?)
  }

  predicate InChunk(s: State) {
    s.ChunkSizeStart? || s.ChunkSize? || s.ChunkParameters? || s.ChunkSizeAlmostDone?
    || s.ChunkData? || s.ChunkDataAlmostDone? || s.ChunkDataDone?
  }

  /** The lengths and flags the body states assert. */
  predicate Framed(p: Parser) {
    && (InChunk(p.state) ==> p.flags.chunked)
    && (p.state.ChunkSize? || p.state.ChunkParameters? || p.state.ChunkSizeAlmostDone? ==>
          p.contentLength <= NO_LENGTH - 16)
    && (p.state.ChunkData? || p.state.BodyIdentity? ==> RealLength(p.contentLength))
    && (p.state.ChunkDataAlmostDone? ==> p.contentLength == 0)
  }

  predicate Legal(p: Parser) {
    && p.errno == Ok
    && p.nread < UINT32_SPAN && p.contentLength < UINT64_SPAN
    && p.index <= 17 && p.statusCode <= 999
    && (p.state.ReqMethod? ==> p.methodId < METHOD_COUNT && p.index <= 11)
    && Nested(p)
    && Framed(p)
  }

  /** Between two bytes. Three states are only passed through within a byte. */
  predicate AtBoundary(cfg: Config, p: Parser) {
    && Legal(p)
    && p.nread <= cfg.maxHeader
    && (p.state.ChunkSizeStart? ==> p.nread == 0)
    && !p.state.HeadersDone? && !p.state.MessageDone? && !p.state.HeaderValueStart?
  }

  /** Within a byte, once it has been counted. */
  predicate WithinByte(cfg: Config, p: Parser) {
    && Legal(p)
    && p.nread <= cfg.maxHeader
    && (ParsingHeader(p.state) ==> 1 <= p.nread)
    && (p.state.ChunkSizeStart? ==> p.nread == 1)
  }

  /** The invariant survives a turn, however it ends. */
  predicate Survives(cfg: Config, o: Outcome) {
    && (o.ctl.Next? || o.ctl.Exit? ==> AtBoundary(cfg, o.p))
    && (o.ctl.Again? ==> WithinByte(cfg, o.p))
  }

  lemma StartSurvives(cfg: Config, p: Parser, ch: byte)
    requires WithinByte(cfg, p) && PhaseOf(p.state).PStart?
    ensures Survives(cfg, StepStart(p, ch))
  {
    hide IndexFits, NameState, ValueState;
  }

  /** A turn of the request or status line: nothing but the line's own fields changes. */
  predicate Plain(p: Parser, o: Outcome) {
    o.ctl.Fail?
    || (&& o.p == p.(state := o.p.state, index := o.p.index, statusCode := o.p.statusCode,
                     major := o.p.major, minor := o.p.minor)
        && o.p.statusCode <= 999 && (o.p.index == p.index || o.p.index == 0)
        && InLine(o.p.state)
        && !o.ctl.Exit?)
  }

  predicate InLine(s: State) {
    PhaseOf(s).PStatusLine? || PhaseOf(s).PUrl? || PhaseOf(s).PVersion? || s.HeaderFieldStart?
  }

  lemma PlainSurvives(cfg: Config, p: Parser, o: Outcome)
    requires WithinByte(cfg, p) && Plain(p, o) && InLine(p.state)
    ensures Survives(cfg, o)
  {
    hide IndexFits, NameState, ValueState;
  }

  lemma StatusLineIsPlain(p: Parser, ch: byte)
    requires PhaseOf(p.state).PStatusLine? && p.statusCode <= 999
    ensures Plain(p, StepStatusLine(p, ch))
  {
  }

  lemma UrlIsPlain(p: Parser, ch: byte)
    requires PhaseOf(p.state).PUrl? && p.statusCode <= 999
    ensures Plain(p, StepUrl(p, ch))
  {
    UrlTargets(p.state, ch);
    UrlTargets(ReqServerStart, ch);
    hide ParseUrlChar;
  }

  lemma VersionIsPlain(p: Parser, ch: byte)
    requires PhaseOf(p.state).PVersion? && p.statusCode <= 999
    ensures Plain(p, StepVersion(p, ch))
  {
  }

  /** A word has at most eleven letters, and a change of guess happens within its first five. */
  lemma MethodIndex(p: Parser, ch: byte)
    requires p.methodId < METHOD_COUNT && p.index <= 11
    ensures |MethodWord(p.methodId)| <= 11
    ensures NextMethod(p.methodId, p.index, ch).Some? ==>
      p.index <= 4 && NextMethod(p.methodId, p.index, ch).value < METHOD_COUNT
  {
    hide MethodWord;
  }

  lemma MethodSurvives(cfg: Config, p: Parser, ch: byte)
    requires WithinByte(cfg, p) && p.state.ReqMethod?
    ensures Survives(cfg, StepMethod(p, ch))
  {
    hide IndexFits, NameState, ValueState, MethodWord, NextMethod;
    MethodIndex(p, ch);
  }

  lemma NameMatchSurvives(p: Parser, c: byte)
    requires Legal(p) && p.state.HeaderField? && NameKeyword(p.hstate) != "" && c != 0
    ensures Legal(NameMatch(p, c))
  {
  }

  lemma NameStepSurvives(p: Parser, c: byte)
    requires Legal(p) && p.state.HeaderField? && c != 0
    ensures Legal(NameStep(p, c))
  {
    hide NameMatch;
    NameStepStays(p, c);
    if NameKeyword(p.hstate) != "" {
      NameMatchSurvives(p, c);
    }
  }

  lemma FirstNameLegal(p: Parser, c: byte)
    ensures var q := p.(index := 0, hstate := FirstNameState(c)); NameState(q.hstate) && IndexFits(q)
  {
  }

  lemma FieldStartSurvives(cfg: Config, p: Parser, ch: byte)
    requires WithinByte(cfg, p) && p.state.HeaderFieldStart?
    ensures Survives(cfg, StepName(p, ch))
  {
    hide FirstNameState, Token, NameState, ValueState;
    FirstNameLegal(p.(state := HeaderField), Token(ch));
  }

  lemma FieldSurvives(cfg: Config, p: Parser, ch: byte)
    requires WithinByte(cfg, p) && p.state.HeaderField?
    ensures Survives(cfg, StepName(p, ch))
  {
    if Token(ch) != 0 {
      NameStepSurvives(p, Token(ch));
    }
    NameStepStays(p, Token(ch));
    hide NameStep, Token, IndexFits;
  }

  lemma NameSurvives(cfg: Config, p: Parser, ch: byte)
    requires WithinByte(cfg, p) && PhaseOf(p.state).PName?
    ensures Survives(cfg, StepName(p, ch))
  {
    hide Survives, StepName;
    if p.state.HeaderField? {
      FieldSurvives(cfg, p, ch);
    } else {
      FieldStartSurvives(cfg, p, ch);
    }
  }

  lemma LengthStepSurvives(p: Parser, ch: byte)
    requires Legal(p) && p.state.HeaderValue? && p.hstate.ContentLengthNum?
    ensures var o := LengthStep(p, ch); o.ctl.Next? ==> Legal(o.p)
  {
  }

  lemma ValueMatchSurvives(p: Parser, c: byte, miss: HeaderState)
    requires Legal(p) && p.state.HeaderValue?
    requires p.hstate.MatchingChunked? || p.hstate.MatchingKeepAlive? || p.hstate.MatchingClose?
             || p.hstate.MatchingConnUpgrade?
    requires miss.General? || miss.MatchingToken?
    ensures Legal(ValueMatch(p, c, miss))
  {
  }

  lemma ValueStepSurvives(p: Parser, ch: byte)
    requires Legal(p) && p.state.HeaderValue?
    ensures var o := ValueStep(p, ch); o.ctl.Next? ==> Legal(o.p)
  {
    hide LengthStep, ValueMatch;
    match p.hstate
    case ContentLengthNum => LengthStepSurvives(p, ch);
    case MatchingChunked => ValueMatchSurvives(p, Lower(ch), General);
    case MatchingKeepAlive => ValueMatchSurvives(p, Lower(ch), MatchingToken);
    case MatchingClose => ValueMatchSurvives(p, Lower(ch), MatchingToken);
    case MatchingConnUpgrade => ValueMatchSurvives(p, Lower(ch), MatchingToken);
    case _ => hide Lower;
  }

  lemma StartValueSurvives(cfg: Config, p: Parser, ch: byte)
    requires WithinByte(cfg, p)
    requires p.state.HeaderValueDiscardWs? || p.state.HeaderValueStart?
    ensures Survives(cfg, StartValue(p, ch))
  {
  }

  lemma ContentSurvives(cfg: Config, p: Parser, ch: byte)
    requires WithinByte(cfg, p) && p.state.HeaderValue?
    ensures Survives(cfg, StepValue(cfg, p, ch))
  {
    ValueStepStays(p, ch);
    ValueStepSurvives(p, ch);
    hide ValueStep;
  }

  lemma FoldSurvives(cfg: Config, p: Parser, ch: byte)
    requires WithinByte(cfg, p)
    requires p.state.HeaderValueLws? || p.state.HeaderAlmostDone? || p.state.HeaderValueStart?
    ensures Survives(cfg, StepValue(cfg, p, ch))
  {
    hide StartValue, RaiseFlag, Survives, WithinByte;
    if p.state.HeaderValueStart? {
      StartValueSurvives(cfg, p, ch);
      assert StepValue(cfg, p, ch) == StartValue(p, ch);
    } else if p.state.HeaderValueLws? {
      LwsSurvives(cfg, p, ch);
    } else {
      LineEndSurvives(cfg, p, ch);
    }
  }

  lemma LwsSurvives(cfg: Config, p: Parser, ch: byte)
    requires WithinByte(cfg, p) && p.state.HeaderValueLws?
    ensures Survives(cfg, StepValue(cfg, p, ch))
  {
    hide StartValue;
  }

  lemma LineEndSurvives(cfg: Config, p: Parser, ch: byte)
    requires WithinByte(cfg, p) && p.state.HeaderAlmostDone?
    ensures Survives(cfg, StepValue(cfg, p, ch))
  {
    hide StartValue, RaiseFlag;
  }

  lemma BlankSurvives(cfg: Config, p: Parser, ch: byte)
    requires WithinByte(cfg, p)
    requires p.state.HeaderValueDiscardWs? || p.state.HeaderValueDiscardWsAlmostDone?
             || p.state.HeaderValueDiscardLws?
    ensures Survives(cfg, StepValue(cfg, p, ch))
  {
    hide StartValue, IndexFits, RaiseFlag;
    if p.state.HeaderValueDiscardWs? {
      StartValueSurvives(cfg, p, ch);
    }
  }

  lemma ValueSurvives(cfg: Config, p: Parser, ch: byte)
    requires WithinByte(cfg, p) && PhaseOf(p.state).PValue?
    ensures Survives(cfg, StepValue(cfg, p, ch))
  {
    hide Survives, StepValue, WithinByte;
    if p.state.HeaderValue? {
      ContentSurvives(cfg, p, ch);
    } else if p.state.HeaderValueLws? || p.state.HeaderAlmostDone? || p.state.HeaderValueStart? {
      FoldSurvives(cfg, p, ch);
    } else {
      BlankSurvives(cfg, p, ch);
    }
  }

  lemma EndSurvives(cfg: Config, p: Parser, ch: byte)
    requires WithinByte(cfg, p) && p.state.HeadersAlmostDone?
    ensures Survives(cfg, StepHeadersEnd(cfg, p, ch))
  {
    hide IndexFits, NameState, ValueState;
  }

  lemma DoneSurvives(cfg: Config, p: Parser, ch: byte)
    requires WithinByte(cfg, p) && p.state.HeadersDone?
    ensures Survives(cfg, StepHeadersDone(p, ch))
  {
    hide IndexFits, NameState, ValueState;
  }

  lemma BodySurvives(cfg: Config, p: Parser, ch: byte)
    requires WithinByte(cfg, p) && PhaseOf(p.state).PBody?
    ensures Survives(cfg, StepBody(p, ch))
  {
    hide IndexFits, NameState, ValueState;
  }

  lemma SizeSurvives(cfg: Config, p: Parser, ch: byte)
    requires WithinByte(cfg, p) && (p.state.ChunkSizeStart? || p.state.ChunkSize?)
    ensures Survives(cfg, StepChunk(p, ch))
  {
    hide IndexFits, NameState, ValueState;
  }

  lemma ChunkSurvives(cfg: Config, p: Parser, ch: byte)
    requires WithinByte(cfg, p) && PhaseOf(p.state).PChunk?
    ensures Survives(cfg, StepChunk(p, ch))
  {
    hide IndexFits, NameState, ValueState, Accumulate, Unhex;
    if p.state.ChunkSizeStart? || p.state.ChunkSize? {
      SizeSurvives(cfg, p, ch);
    }
  }

  /** Every turn of the switch keeps the invariant, for every state and every byte. */
  lemma TurnSurvives(cfg: Config, p: Parser, ch: byte)
    requires WithinByte(cfg, p)
    ensures Survives(cfg, StepOnce(cfg, p, ch))
  {
    match PhaseOf(p.state)
    case PStart => StartSurvives(cfg, p, ch);
    case PStatusLine => StatusLineIsPlain(p, ch); PlainSurvives(cfg, p, StepStatusLine(p, ch));
    case PMethod => MethodSurvives(cfg, p, ch);
    case PUrl => UrlIsPlain(p, ch); PlainSurvives(cfg, p, StepUrl(p, ch));
    case PVersion => VersionIsPlain(p, ch); PlainSurvives(cfg, p, StepVersion(p, ch));
    case PName => NameSurvives(cfg, p, ch);
    case PValue => ValueSurvives(cfg, p, ch);
    case PHeadersEnd => EndSurvives(cfg, p, ch);
    case PHeadersDone => DoneSurvives(cfg, p, ch);
    case PBody => BodySurvives(cfg, p, ch);
    case PChunk => ChunkSurvives(cfg, p, ch);
  }

  lemma {:induction false} SettleSurvives(cfg: Config, p: Parser, ch: byte)
    requires WithinByte(cfg, p)
    ensures var b := Settle(cfg, p, ch); b.ctl.Next? || b.ctl.Exit? ==> AtBoundary(cfg, b.p)
    decreases Rank(p.state)
  {
    TurnSurvives(cfg, p, ch);
    TurnIsDisciplined(cfg, p, ch);
    hide StepOnce;
    var o := StepOnce(cfg, p, ch);
    if o.ctl.Again? {
      SettleSurvives(cfg, o.p, ch);
    }
  }

  lemma CountingEnters(cfg: Config, p: Parser)
    requires AtBoundary(cfg, p) && cfg.maxHeader < UINT32_SPAN - 1
    ensures !ParsingHeader(p.state) ==> WithinByte(cfg, p)
    ensures ParsingHeader(p.state) && Counted(p, 1).nread <= cfg.maxHeader ==> WithinByte(cfg, Counted(p, 1))
  {
  }

  /** The invariant holds after every input the parser gets through. */
  lemma {:induction false} RunSurvives(cfg: Config, p: Parser, data: seq<byte>, i: nat)
    requires AtBoundary(cfg, p) && cfg.maxHeader < UINT32_SPAN - 1 && i <= |data|
    ensures var r := Run(cfg, p, data, i); !r.stop.Failed? ==> AtBoundary(cfg, r.p)
    decreases |data| - i
  {
    hide Settle;
    if i < |data| {
      CountingEnters(cfg, p);
      var counted := if ParsingHeader(p.state) then Counted(p, 1) else p;
      if WithinByte(cfg, counted) {
        SettleSurvives(cfg, counted, data[i]);
        SettleEnds(cfg, counted, data[i]);
        var c := Settle(cfg, counted, data[i]);
        if c.ctl.Next? {
          RunSurvives(cfg, c.p, data, i + 1);
        }
      }
    }
  }
}
