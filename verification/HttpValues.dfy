/** What the parser makes of the values of Transfer-Encoding and Connection. */
module HttpValues {
  import opened Bytes
  import opened HttpTypes
  import opened HttpStep
  import opened HttpSpec
  import opened HttpMarks
  import opened HttpPieces
  import opened HttpNames
  import opened HttpLength

  // ---------------------------------------------------------------- the nested machine

  /** The bytes a value may have; a value begins with its first byte that is not blank. */
  predicate IsValue(v: seq<byte>) {
    forall i :: 0 <= i < |v| ==> IsHeaderChar(v[i]) && v[i] != CR && v[i] != LF
  }

  /** The values that name encodings or connection options, and no length. */
  predicate IsWordState(h: HeaderState) {
    h.MatchingChunked? || h.Chunked? || h.General? || h.MatchingTokenStart? || h.MatchingToken?
    || h.MatchingKeepAlive? || h.MatchingClose? || h.MatchingConnUpgrade?
    || h.ConnKeepAlive? || h.ConnClose? || h.ConnUpgrade?
  }

  /** A name after which the value is no length. */
  predicate StartsWord(h: HeaderState) {
    !h.ContentLength? && !h.ContentLengthWs? && !h.MatchingTokenStart?
  }

  function WordStep(p: Parser, ch: byte): Parser {
    ValueStep(p, ch).p
  }

  lemma WordStays(p: Parser, ch: byte)
    requires IsWordState(p.hstate)
    ensures ValueStep(p, ch).ctl.Next? && IsWordState(WordStep(p, ch).hstate)
    ensures var q := WordStep(p, ch); q == p.(hstate := q.hstate, index := q.index, flags := q.flags)
  {
    hide Token;
  }

  /** The nested machine does not look at the count. */
  lemma WordStepCount(p: Parser, ch: byte, n: nat)
    requires IsWordState(p.hstate)
    ensures WordStep(p.(nread := n), ch) == WordStep(p, ch).(nread := n)
  {
    hide Token, Lower, RaiseFlag, LengthStep, ValueKeyword, ValueFound;
  }

  function Words(p: Parser, v: seq<byte>): Parser
    decreases |v|
  {
    if v == [] then p else Words(WordStep(p, v[0]), v[1..])
  }

  lemma {:induction false} WordsAppend(p: Parser, a: seq<byte>, b: seq<byte>)
    ensures Words(p, a + b) == Words(Words(p, a), b)
    decreases |a|
  {
    hide WordStep;
    if a == [] {
      assert a + b == b;
    } else {
      assert (a + b)[0] == a[0] && (a + b)[1..] == a[1..] + b;
      WordsAppend(WordStep(p, a[0]), a[1..], b);
    }
  }

  lemma {:induction false} WordsRun(cfg: Config, p: Parser, v: seq<byte>)
    requires p.state.HeaderValue? && IsWordState(p.hstate) && IsValue(v) && p.nread + |v| <= cfg.maxHeader < UINT32_SPAN
    ensures Through(cfg, p, v, Words(p, v).(nread := p.nread + |v|), Letters(Value, v))
    decreases |v|
  {
    hide StepOnce, Settle, TurnTrace, Run, WordStep, IsWordState, ValueStep, Through, Letters, IsHeaderChar;
    if v == [] {
      ThroughNothing(cfg, p);
      NoLetters();
    } else {
      var ch, q := v[0], WordStep(p, v[0]);
      WordThrough(cfg, p, ch);
      WordStays(p, ch);
      WordsRun(cfg, q.(nread := p.nread + 1), v[1..]);
      WordsCount(q, v[1..], p.nread + 1);
      ThroughAppend(cfg, p, [ch], q.(nread := p.nread + 1), [Data(Value, ch)],
                    v[1..], Words(p, v).(nread := p.nread + |v|), Letters(Value, v[1..]));
      LettersFront(v);
    }
  }

  lemma NoLetters()
    ensures Letters(Value, []) == []
  {
  }

  lemma WordThrough(cfg: Config, p: Parser, ch: byte)
    requires p.state.HeaderValue? && IsWordState(p.hstate) && IsHeaderChar(ch) && ch != CR && ch != LF
    requires p.nread < cfg.maxHeader < UINT32_SPAN
    ensures Through(cfg, p, [ch], WordStep(p, ch).(nread := p.nread + 1), [Data(Value, ch)])
  {
    hide StepOnce, Settle, TurnTrace, Run, WordStep, IsWordState, ValueStep, Through, IsHeaderChar;
    WordTurn(cfg, Counted(p, 1), ch);
    ThroughByte(cfg, p, ch);
    WordStepCount(p, ch, p.nread + 1);
  }

  lemma {:induction false} WordsCount(p: Parser, v: seq<byte>, n: nat)
    requires IsWordState(p.hstate)
    ensures Words(p.(nread := n), v) == Words(p, v).(nread := n)
    decreases |v|
  {
    hide WordStep, IsWordState;
    if v != [] {
      WordStepCount(p, v[0], n);
      WordStays(p, v[0]);
      WordsCount(WordStep(p, v[0]), v[1..], n);
    }
  }

  lemma WordTurn(cfg: Config, p: Parser, ch: byte)
    requires p.state.HeaderValue? && IsWordState(p.hstate) && IsHeaderChar(ch) && ch != CR && ch != LF
    ensures var o := StepOnce(cfg, p, ch);
      o.ctl.Next? && o.p == WordStep(p, ch) && TurnTrace(p.state, o, ch) == [Data(Value, ch)]
  {
    WordStays(p, ch);
    ValueStepStays(p, ch);
    hide ValueStep, IsHeaderChar, IsWordState;
  }

  /** The record behind the first byte of a value. */
  function FirstWord(p: Parser, ch: byte): Parser {
    StartValue(p, ch).p
  }

  lemma FirstWordTurn(cfg: Config, p: Parser, ch: byte)
    requires p.state.HeaderValueDiscardWs? && StartsWord(p.hstate)
    requires ch != CR && ch != LF && ch != SP && ch != TAB
    ensures var o := StepOnce(cfg, p, ch);
      o.ctl.Next? && o.p == FirstWord(p, ch) && TurnTrace(p.state, o, ch) == [Begin(Value), Data(Value, ch)]
    ensures FirstWord(p, ch).state.HeaderValue? && IsWordState(FirstWord(p, ch).hstate)
    ensures FirstWord(p, ch).nread == p.nread
  {
    hide StepOnce, Lower;
    ValueStarts(cfg, p, ch);
  }

  /** The record behind a value. */
  function ValueRead(p: Parser, v: seq<byte>): Parser
    requires v != []
  {
    Words(FirstWord(p, v[0]), v[1..])
  }

  /** A whole value goes through the parser, is delivered, and leaves what the nested machine makes of it. */
  lemma ValueRuns(cfg: Config, p: Parser, v: seq<byte>)
    requires p.state.HeaderValueDiscardWs? && StartsWord(p.hstate)
    requires v != [] && IsValue(v) && v[0] != SP && v[0] != TAB && p.nread + |v| <= cfg.maxHeader < UINT32_SPAN
    ensures Through(cfg, p, v, ValueRead(p, v).(nread := p.nread + |v|), Piece(Value, v))
  {
    hide StepOnce, Settle, TurnTrace, Run, FirstWord, Words, IsWordState, Through, Letters, IsHeaderChar;
    var ch, c := v[0], Counted(p, 1);
    FirstWordTurn(cfg, c, ch);
    ThroughByte(cfg, p, ch);
    FirstWordCount(p, ch, p.nread + 1);
    var q := FirstWord(c, ch);
    WordsRun(cfg, q, v[1..]);
    FirstWordTurn(cfg, p, ch);
    WordsCount(FirstWord(p, ch), v[1..], p.nread + 1);
    ThroughAppend(cfg, p, [ch], q, [Begin(Value), Data(Value, ch)],
                  v[1..], ValueRead(p, v).(nread := p.nread + |v|), Letters(Value, v[1..]));
    LettersFront(v);
    assert Piece(Value, v) == [Begin(Value), Data(Value, ch)] + Letters(Value, v[1..]);
  }

  lemma LettersFront(v: seq<byte>)
    requires v != []
    ensures v == [v[0]] + v[1..] && Letters(Value, v) == [Data(Value, v[0])] + Letters(Value, v[1..])
  {
  }

  lemma FirstWordCount(p: Parser, ch: byte, n: nat)
    requires StartsWord(p.hstate)
    ensures FirstWord(p.(nread := n), ch) == FirstWord(p, ch).(nread := n)
  {
  }

  // ---------------------------------------------------------------- words with spaces behind them

  /** The bytes as the value machine compares them. */
  function LowerAll(v: seq<byte>): (t: seq<byte>)
    ensures |t| == |v| && forall i :: 0 <= i < |v| ==> t[i] == Lower(v[i])
  {
    seq(|v|, i requires 0 <= i < |v| => Lower(v[i]))
  }

  lemma LowerPush(v: seq<byte>, ch: byte)
    ensures LowerAll(v + [ch]) == LowerAll(v) + [Lower(ch)]
  {
  }

  /** A proper beginning of the word, in any mixture of cases. */
  predicate Partial(t: seq<byte>, word: string) {
    |t| < |word| && Begins(LowerAll(t), word)
  }

  /** The word in any mixture of cases, with nothing but spaces behind it. */
  predicate Named(t: seq<byte>, word: string) {
    |t| >= |word| && Begins(LowerAll(t[..|word|]), word) && forall i :: |word| <= i < |t| ==> t[i] == SP
  }

  /** What one more byte makes of both. */
  lemma TrackPush(t: seq<byte>, ch: byte, word: string)
    ensures Partial(t + [ch], word) <==> Partial(t, word) && |t| + 1 < |word| && Lower(ch) == word[|t|] as int
    ensures Named(t + [ch], word) <==>
            (Partial(t, word) && |t| + 1 == |word| && Lower(ch) == word[|t|] as int) || (Named(t, word) && ch == SP)
  {
    LowerPush(t, ch);
    BeginsPush(LowerAll(t), Lower(ch), word);
    NamedPush(t, ch, word);
  }

  lemma NamedPush(t: seq<byte>, ch: byte, word: string)
    ensures Named(t + [ch], word) <==>
            if |t| < |word| then |t| + 1 == |word| && Begins(LowerAll(t + [ch]), word) else Named(t, word) && ch == SP
  {
    hide Begins, LowerAll, Lower;
    var w, n := t + [ch], |word|;
    if |t| >= n {
      assert w[..n] == t[..n];
      assert w[|t|] == ch;
      if Named(w, word) {
        forall i | n <= i < |t|
          ensures t[i] == SP
        {
          assert w[i] == t[i];
        }
      }
    } else if |t| + 1 == n {
      assert w[..n] == w;
    }
  }

  /** Both show in the first letter. */
  lemma TrackFirst(t: seq<byte>, word: string)
    requires t != [] && word != ""
    ensures Partial(t, word) || Named(t, word) ==> Lower(t[0]) == word[0] as int
    ensures !(Partial(t, word) && Named(t, word))
  {
    if Partial(t, word) {
      assert LowerAll(t)[0] == Lower(t[0]);
    }
    if Named(t, word) {
      assert LowerAll(t[..|word|])[0] == Lower(t[..|word|][0]);
    }
  }

  lemma TrackOne(ch: byte, word: string)
    requires |word| > 1
    ensures (Partial([ch], word) <==> Lower(ch) == word[0] as int) && !Named([ch], word)
  {
    assert LowerAll([ch]) == [Lower(ch)];
  }

  // ---------------------------------------------------------------- Transfer-Encoding

  /** What the machine knows of a Transfer-Encoding value v. */
  ghost predicate KnowsEncoding(v: seq<byte>, h: HeaderState, index: nat) {
    match h
    case MatchingChunked => Partial(v, "chunked") && index == |v| - 1
    case Chunked => Named(v, "chunked")
    case General => !Partial(v, "chunked") && !Named(v, "chunked")
    case _ => false
  }

  lemma EncodingByte(v: seq<byte>, ch: byte, p: Parser)
    requires KnowsEncoding(v, p.hstate, p.index) && v != []
    ensures var q := WordStep(p, ch); KnowsEncoding(v + [ch], q.hstate, q.index) && q.flags == p.flags
  {
    hide Named, Lower, Token;
    TrackPush(v, ch, "chunked");
    TrackFirst(v, "chunked");
    if p.hstate.MatchingChunked? {
      assert Bump(p.index) == |v|;
    }
  }

  lemma {:induction false} EncodingWords(v: seq<byte>, t: seq<byte>, p: Parser)
    requires v != [] && KnowsEncoding(v, p.hstate, p.index)
    ensures var q := Words(p, t); KnowsEncoding(v + t, q.hstate, q.index) && q.flags == p.flags
    decreases |t|
  {
    hide KnowsEncoding, WordStep;
    if t == [] {
      assert v + t == v;
    } else {
      EncodingByte(v, t[0], p);
      assert v + t == (v + [t[0]]) + t[1..];
      EncodingWords(v + [t[0]], t[1..], WordStep(p, t[0]));
    }
  }

  /** The end of a Transfer-Encoding value raises the chunked flag if and only if the value is "chunked", in any
      mixture of cases, with nothing but spaces behind it. */
  lemma TransferEncodingExact(p: Parser, v: seq<byte>)
    requires p.hstate.TransferEncoding? && v != []
    ensures var q := ValueRead(p, v);
      RaiseFlag(q.flags, q.hstate) == p.flags.(chunked := p.flags.chunked || Named(v, "chunked"))
  {
    hide Named, Partial, Words, FirstWord, KnowsEncoding, RaiseFlag;
    var q := FirstWord(p, v[0]);
    FirstEncodingByte(p, v[0]);
    EncodingWords([v[0]], v[1..], q);
    assert [v[0]] + v[1..] == v;
    KnownChunked(v, p.flags, ValueRead(p, v).hstate, ValueRead(p, v).index);
  }

  lemma FirstEncodingByte(p: Parser, ch: byte)
    requires p.hstate.TransferEncoding?
    ensures var q := FirstWord(p, ch); KnowsEncoding([ch], q.hstate, q.index) && q.flags == p.flags
  {
    hide Named, Partial, Lower;
    TrackOne(ch, "chunked");
    assert "chunked"[0] as int == 99;
  }

  lemma KnownChunked(v: seq<byte>, f: Flags, h: HeaderState, index: nat)
    requires KnowsEncoding(v, h, index) && v != []
    ensures RaiseFlag(f, h) == f.(chunked := f.chunked || Named(v, "chunked"))
  {
    hide Named, Partial;
    TrackFirst(v, "chunked");
  }

  // ---------------------------------------------------------------- Connection: one option

  /** What the machine knows within an option whose bytes so far, from the first that is no space on, are t. */
  ghost predicate KnowsOption(t: seq<byte>, h: HeaderState, index: nat) {
    match h
    case MatchingKeepAlive => Partial(t, "keep-alive") && index == |t| - 1
    case MatchingClose => Partial(t, "close") && index == |t| - 1
    case MatchingConnUpgrade => Partial(t, "upgrade") && index == |t| - 1
    case ConnKeepAlive => Named(t, "keep-alive")
    case ConnClose => Named(t, "close")
    case ConnUpgrade => Named(t, "upgrade")
    case MatchingToken => !Swallows(t) && !IsKeyword(t)
    case _ => false
  }

  /** The option is a proper beginning of a keyword: a comma right behind it is compared with the keyword,
      and lost as a separator. */
  predicate Swallows(t: seq<byte>) {
    Partial(t, "keep-alive") || Partial(t, "close") || Partial(t, "upgrade")
  }

  predicate IsKeyword(t: seq<byte>) {
    Named(t, "keep-alive") || Named(t, "close") || Named(t, "upgrade")
  }

  /** What one more byte makes of the six comparisons. */
  lemma OptionPush(t: seq<byte>, ch: byte)
    ensures Partial(t + [ch], "keep-alive") <==>
            Partial(t, "keep-alive") && |t| < 9 && Lower(ch) == "keep-alive"[|t|] as int
    ensures Partial(t + [ch], "close") <==> Partial(t, "close") && |t| < 4 && Lower(ch) == "close"[|t|] as int
    ensures Partial(t + [ch], "upgrade") <==> Partial(t, "upgrade") && |t| < 6 && Lower(ch) == "upgrade"[|t|] as int
    ensures Named(t + [ch], "keep-alive") <==>
            (Partial(t, "keep-alive") && |t| == 9 && Lower(ch) == "keep-alive"[9] as int)
            || (Named(t, "keep-alive") && ch == SP)
    ensures Named(t + [ch], "close") <==>
            (Partial(t, "close") && |t| == 4 && Lower(ch) == "close"[4] as int) || (Named(t, "close") && ch == SP)
    ensures Named(t + [ch], "upgrade") <==>
            (Partial(t, "upgrade") && |t| == 6 && Lower(ch) == "upgrade"[6] as int) || (Named(t, "upgrade") && ch == SP)
  {
    hide Partial, Named, Lower;
    TrackPush(t, ch, "keep-alive");
    TrackPush(t, ch, "close");
    TrackPush(t, ch, "upgrade");
  }

  /** No two of the keywords begin with the same letter. */
  lemma FirstLetters(t: seq<byte>)
    requires t != []
    ensures Partial(t, "keep-alive") || Named(t, "keep-alive") ==> Lower(t[0]) == 107
    ensures Partial(t, "close") || Named(t, "close") ==> Lower(t[0]) == 99
    ensures Partial(t, "upgrade") || Named(t, "upgrade") ==> Lower(t[0]) == 117
    ensures !(Partial(t, "keep-alive") && Named(t, "keep-alive"))
    ensures !(Partial(t, "close") && Named(t, "close"))
    ensures !(Partial(t, "upgrade") && Named(t, "upgrade"))
  {
    hide Partial, Named, Lower;
    TrackFirst(t, "keep-alive");
    TrackFirst(t, "close");
    TrackFirst(t, "upgrade");
    assert "keep-alive"[0] as int == 107 && "close"[0] as int == 99 && "upgrade"[0] as int == 117;
  }

  lemma OptionByte(t: seq<byte>, ch: byte, p: Parser)
    requires KnowsOption(t, p.hstate, p.index) && t != [] && ch != COMMA
    ensures var q := WordStep(p, ch); KnowsOption(t + [ch], q.hstate, q.index) && q.flags == p.flags
  {
    hide Partial, Named, ValueMatch, WordStep;
    if p.hstate.MatchingKeepAlive? {
      MatchStep(p, ch);
      KeepAliveByte(t, ch, p);
    } else if p.hstate.MatchingClose? {
      MatchStep(p, ch);
      CloseByte(t, ch, p);
    } else if p.hstate.MatchingConnUpgrade? {
      MatchStep(p, ch);
      UpgradeByte(t, ch, p);
    } else {
      LaterByte(t, ch, p);
    }
  }

  lemma MatchStep(p: Parser, ch: byte)
    requires p.hstate.MatchingKeepAlive? || p.hstate.MatchingClose? || p.hstate.MatchingConnUpgrade?
    ensures WordStep(p, ch) == ValueMatch(p, Lower(ch), MatchingToken)
  {
    hide ValueMatch, Lower, Token, TokenEnd;
  }

  lemma KeepAliveByte(t: seq<byte>, ch: byte, p: Parser)
    requires KnowsOption(t, p.hstate, p.index) && t != [] && p.hstate.MatchingKeepAlive?
    ensures var q := ValueMatch(p, Lower(ch), MatchingToken);
      KnowsOption(t + [ch], q.hstate, q.index) && q.flags == p.flags
  {
    hide Named, Begins, Lower, LowerAll;
    OptionPush(t, ch);
    FirstLetters(t);
    assert Bump(p.index) == |t|;
  }

  lemma CloseByte(t: seq<byte>, ch: byte, p: Parser)
    requires KnowsOption(t, p.hstate, p.index) && t != [] && p.hstate.MatchingClose?
    ensures var q := ValueMatch(p, Lower(ch), MatchingToken);
      KnowsOption(t + [ch], q.hstate, q.index) && q.flags == p.flags
  {
    hide Named, Begins, Lower, LowerAll;
    OptionPush(t, ch);
    FirstLetters(t);
    assert Bump(p.index) == |t|;
  }

  lemma UpgradeByte(t: seq<byte>, ch: byte, p: Parser)
    requires KnowsOption(t, p.hstate, p.index) && t != [] && p.hstate.MatchingConnUpgrade?
    ensures var q := ValueMatch(p, Lower(ch), MatchingToken);
      KnowsOption(t + [ch], q.hstate, q.index) && q.flags == p.flags
  {
    hide Named, Begins, Lower, LowerAll;
    OptionPush(t, ch);
    FirstLetters(t);
    assert Bump(p.index) == |t|;
  }

  /** A byte behind a keyword, or within an option that is off every track. */
  lemma LaterByte(t: seq<byte>, ch: byte, p: Parser)
    requires KnowsOption(t, p.hstate, p.index) && t != [] && ch != COMMA
    requires p.hstate.MatchingToken? || p.hstate.ConnKeepAlive? || p.hstate.ConnClose? || p.hstate.ConnUpgrade?
    ensures var q := WordStep(p, ch); KnowsOption(t + [ch], q.hstate, q.index) && q.flags == p.flags
  {
    hide Partial, Named, Lower, Token, ValueMatch;
    OptionPush(t, ch);
    FirstLetters(t);
  }

  lemma OneLetter(ch: byte)
    ensures Partial([ch], "keep-alive") <==> Lower(ch) == 107
    ensures Partial([ch], "close") <==> Lower(ch) == 99
    ensures Partial([ch], "upgrade") <==> Lower(ch) == 117
    ensures !IsKeyword([ch])
  {
    hide Partial, Named, Lower;
    TrackOne(ch, "keep-alive");
    TrackOne(ch, "close");
    TrackOne(ch, "upgrade");
    assert "keep-alive"[0] as int == 107 && "close"[0] as int == 99 && "upgrade"[0] as int == 117;
  }

  lemma {:induction false} OptionBytes(t: seq<byte>, more: seq<byte>, p: Parser)
    requires KnowsOption(t, p.hstate, p.index) && t != [] && COMMA !in more
    ensures var q := Words(p, more); KnowsOption(t + more, q.hstate, q.index) && q.flags == p.flags
    decreases |more|
  {
    hide KnowsOption, WordStep;
    if more == [] {
      assert t + more == t;
    } else {
      OptionByte(t, more[0], p);
      assert t + more == (t + [more[0]]) + more[1..];
      OptionBytes(t + [more[0]], more[1..], WordStep(p, more[0]));
    }
  }

  // ---------------------------------------------------------------- Connection: the list

  /** The parts of a value between its commas. */
  function Split(v: seq<byte>): (segs: seq<seq<byte>>)
    ensures segs != []
    decreases |v|
  {
    if v == [] then [[]]
    else
      var rest := Split(v[1..]);
      if v[0] == COMMA then [[]] + rest else [[v[0]] + rest[0]] + rest[1..]
  }

  predicate IsSplit(segs: seq<seq<byte>>) {
    forall i :: 0 <= i < |segs| ==> COMMA !in segs[i]
  }

  function Join(segs: seq<seq<byte>>): seq<byte>
    requires segs != []
  {
    segs[0] + RestJoined(segs[1..])
  }

  /** Parts behind the first, each after its comma. */
  function RestJoined(segs: seq<seq<byte>>): seq<byte> {
    if segs == [] then [] else [COMMA] + segs[0] + RestJoined(segs[1..])
  }

  lemma JoinNothing()
    ensures Join([[]]) == []
  {
  }

  lemma JoinEmpty(rest: seq<seq<byte>>)
    requires rest != []
    ensures Join([[]] + rest) == [COMMA] + Join(rest)
  {
    assert ([[]] + rest)[1..] == rest;
  }

  lemma JoinFront(ch: byte, segs: seq<seq<byte>>)
    requires segs != []
    ensures Join([[ch] + segs[0]] + segs[1..]) == [ch] + Join(segs)
  {
    assert ([[ch] + segs[0]] + segs[1..])[1..] == segs[1..];
  }

  /** A value is its parts with the commas between them. */
  lemma {:induction false} SplitParts(v: seq<byte>)
    ensures Join(Split(v)) == v && IsSplit(Split(v))
    decreases |v|
  {
    hide Join;
    if v == [] {
      JoinNothing();
    } else {
      var rest := Split(v[1..]);
      SplitParts(v[1..]);
      if v[0] == COMMA {
        JoinEmpty(rest);
      } else {
        JoinFront(v[0], rest);
      }
    }
  }

  /** Splitting is the inverse of joining, so that the parts of a value are what stands between its commas. */
  lemma {:induction false} SplitJoin(segs: seq<seq<byte>>)
    requires segs != [] && IsSplit(segs)
    ensures Split(Join(segs)) == segs
    decreases |Join(segs)|
  {
    var v, first, rest := Join(segs), segs[0], segs[1..];
    if first == [] {
      if rest != [] {
        assert segs == [[]] + rest;
        JoinEmpty(rest);
        assert v[1..] == Join(rest);
        SplitJoin(rest);
      } else {
        assert segs == [[]];
      }
    } else {
      var shorter := [first[1..]] + rest;
      assert [first[0]] + first[1..] == first && segs == [first] + rest && shorter[1..] == rest;
      JoinFront(first[0], shorter);
      assert first[0] in first && v[1..] == Join(shorter);
      assert IsSplit(shorter);
      SplitJoin(shorter);
    }
  }

  /** A part from its first byte that is no space on. */
  function Stripped(seg: seq<byte>): (b: seq<byte>)
    ensures |b| <= |seg| && b == seg[|seg| - |b|..]
    ensures b != [] ==> b[0] != SP
  {
    if seg != [] && seg[0] == SP then Stripped(seg[1..]) else seg
  }

  /** The option begins as a later one must for the machine to go on looking for options. The table of
      token characters is asked about the lowered byte: '_' and the tab are none there. */
  predicate Opens(b: seq<byte>) {
    b != [] && Token(Lower(b[0])) != 0
  }

  /** The options that the parser looks at, among the parts behind a comma. A part behind a swallowed
      comma is read as the rest of the one before, and a part that does not open ends the search. */
  function LookedAt(segs: seq<seq<byte>>, lost: bool): seq<seq<byte>> {
    if segs == [] then []
    else if lost then LookedAt(segs[1..], false)
    else if !Opens(Stripped(segs[0])) then []
    else [Stripped(segs[0])] + LookedAt(segs[1..], Swallows(Stripped(segs[0])))
  }

  /** The options of a whole value: it may begin with any byte, and a comma there is no separator. */
  function Options(segs: seq<seq<byte>>): seq<seq<byte>>
    requires segs != []
  {
    if segs[0] == [] then LookedAt(segs[1..], true) else [segs[0]] + LookedAt(segs[1..], Swallows(segs[0]))
  }

  predicate Has(options: seq<seq<byte>>, word: string) {
    exists i :: 0 <= i < |options| && Named(options[i], word)
  }

  /** The flags with those of the options added. */
  function Raised(f: Flags, options: seq<seq<byte>>): Flags {
    f.(keepAlive := f.keepAlive || Has(options, "keep-alive"),
       close := f.close || Has(options, "close"),
       connUpgrade := f.connUpgrade || Has(options, "upgrade"))
  }

  /** The record behind an option: the flags so far, and what is known of it. */
  ghost predicate Ready(f: Flags, b: seq<byte>, q: Parser) {
    q.flags == f && b != [] && KnowsOption(b, q.hstate, q.index)
  }

  /** The end of the value raises the flag of the last option. */
  lemma LastOption(f: Flags, b: seq<byte>, q: Parser)
    requires Ready(f, b, q)
    ensures RaiseFlag(q.flags, q.hstate) == Raised(f, [b])
  {
    hide Named, RaiseFlag, Raised, KnowsOption;
    KnownWorth(b, q.hstate, q.index);
    WorthRaises(f, b, q.hstate);
  }

  /** The state names a keyword exactly when the option is that keyword. */
  ghost predicate Worth(t: seq<byte>, h: HeaderState) {
    && (h.ConnKeepAlive? <==> Named(t, "keep-alive"))
    && (h.ConnClose? <==> Named(t, "close"))
    && (h.ConnUpgrade? <==> Named(t, "upgrade"))
    && !h.Chunked?
  }

  lemma KnownWorth(t: seq<byte>, h: HeaderState, index: nat)
    requires KnowsOption(t, h, index) && t != []
    ensures Worth(t, h)
  {
    hide Partial, Named, Lower;
    FirstLetters(t);
  }

  lemma WorthRaises(f: Flags, b: seq<byte>, h: HeaderState)
    requires Worth(b, h)
    ensures RaiseFlag(f, h) == Raised(f, [b])
  {
    hide Named;
    HasOne(b, "keep-alive");
    HasOne(b, "close");
    HasOne(b, "upgrade");
  }

  lemma HasOne(b: seq<byte>, word: string)
    ensures Has([b], word) <==> Named(b, word)
  {
    hide Named;
    assert [b][0] == b;
  }

  /** A comma behind an option raises its flag and starts the next one, unless it is swallowed. */
  lemma CommaStep(f: Flags, b: seq<byte>, q: Parser)
    requires Ready(f, b, q)
    ensures var r := WordStep(q, COMMA);
      if Swallows(b) then r.hstate.MatchingToken? && r.flags == f && Raised(f, [b]) == f
      else r.hstate.MatchingTokenStart? && r.index == 0 && r.flags == Raised(f, [b])
  {
    hide WordStep, Raised, RaiseFlag, Partial, Named, Lower, ValueMatch;
    LastOption(f, b, q);
    if q.hstate.MatchingKeepAlive? || q.hstate.MatchingClose? || q.hstate.MatchingConnUpgrade? {
      NoFlag(f, q.hstate);
      MatchStep(q, COMMA);
      CommaMisses(q);
    } else {
      CommaEnds(q);
      FirstLetters(b);
    }
  }

  lemma NoFlag(f: Flags, h: HeaderState)
    requires h.MatchingKeepAlive? || h.MatchingClose? || h.MatchingConnUpgrade?
    ensures RaiseFlag(f, h) == f
  {
  }

  lemma CommaMisses(q: Parser)
    requires q.hstate.MatchingKeepAlive? || q.hstate.MatchingClose? || q.hstate.MatchingConnUpgrade?
    ensures var r := ValueMatch(q, Lower(COMMA), MatchingToken); r.hstate.MatchingToken? && r.flags == q.flags
  {
    hide Lower;
    CommaIsNoLetter();
  }

  lemma CommaIsNoLetter()
    ensures forall i :: 0 <= i < 10 ==> "keep-alive"[i] as int != Lower(COMMA)
    ensures forall i :: 0 <= i < 5 ==> "close"[i] as int != Lower(COMMA)
    ensures forall i :: 0 <= i < 7 ==> "upgrade"[i] as int != Lower(COMMA)
  {
  }

  lemma CommaEnds(q: Parser)
    requires q.hstate.MatchingToken? || q.hstate.ConnKeepAlive? || q.hstate.ConnClose? || q.hstate.ConnUpgrade?
    ensures var r := WordStep(q, COMMA);
      r.hstate.MatchingTokenStart? && r.index == 0 && r.flags == RaiseFlag(q.flags, q.hstate)
  {
    hide Lower, Token, ValueMatch;
    if q.hstate.MatchingToken? {
      assert RaiseFlag(q.flags, q.hstate) == q.flags;
    }
  }

  /** Within an option that names nothing, everything up to the next comma is the same option. */
  lemma {:induction false} LostBytes(p: Parser, t: seq<byte>)
    requires p.hstate.MatchingToken? && COMMA !in t
    ensures Words(p, t) == p
    decreases |t|
  {
    if t != [] {
      assert t[0] in t;
      assert WordStep(p, t[0]) == p;
      LostBytes(p, t[1..]);
    }
  }

  /** Once the search has ended, no byte takes it up again. */
  lemma {:induction false} EndedBytes(p: Parser, t: seq<byte>)
    requires p.hstate.General?
    ensures Words(p, t) == p
    decreases |t|
  {
    if t != [] {
      assert WordStep(p, t[0]) == p;
      EndedBytes(p, t[1..]);
    }
  }

  lemma {:induction false} SkipSpaces(p: Parser, seg: seq<byte>)
    requires p.hstate.MatchingTokenStart?
    ensures Words(p, seg) == Words(p, Stripped(seg))
    decreases |seg|
  {
    if seg != [] && seg[0] == SP {
      assert WordStep(p, SP) == p by {
        assert Lower(SP) == SP && Token(SP) == 0;
      }
      SkipSpaces(p, seg[1..]);
    }
  }

  lemma OpeningByte(ch: byte, p: Parser)
    requires p.hstate.MatchingTokenStart? && p.index == 0 && ch != SP && IsHeaderChar(ch)
    ensures var q := WordStep(p, ch);
      && q.flags == p.flags
      && (if Token(Lower(ch)) != 0 then KnowsOption([ch], q.hstate, q.index) else q.hstate.General?)
  {
    OneLetter(ch);
    LowerOpening(ch);
    hide Token, Lower, Partial, Named, IsHeaderChar;
  }

  lemma LowerOpening(ch: byte)
    requires ch != SP && IsHeaderChar(ch)
    ensures Lower(ch) != SP && Lower(ch) != TAB
    ensures Token(99) != 0 && Token(107) != 0 && Token(117) != 0
  {
  }

  /** A part behind a comma that opens is read to its end as an option. */
  lemma SegmentRead(seg: seq<byte>, p: Parser)
    requires p.hstate.MatchingTokenStart? && p.index == 0 && COMMA !in seg && IsValue(seg) && Opens(Stripped(seg))
    ensures Ready(p.flags, Stripped(seg), Words(p, seg))
  {
    hide KnowsOption, WordStep, Words, IsHeaderChar, Token, Lower;
    SkipSpaces(p, seg);
    var b := Stripped(seg);
    assert b == [b[0]] + b[1..];
    WordsAppend(p, [b[0]], b[1..]);
    OneWord(p, b[0]);
    OpeningByte(b[0], p);
    OptionBytes([b[0]], b[1..], WordStep(p, b[0]));
  }

  /** One that does not open ends the search, with its own first byte or with the comma behind it. */
  lemma SegmentEnds(seg: seq<byte>, p: Parser)
    requires p.hstate.MatchingTokenStart? && p.index == 0 && IsValue(seg) && !Opens(Stripped(seg))
    ensures var q := Words(p, seg); q == p || (q.hstate.General? && q.flags == p.flags)
  {
    hide KnowsOption, WordStep, Words, IsHeaderChar, Token, Lower;
    SkipSpaces(p, seg);
    var b := Stripped(seg);
    if b == [] {
      NoWords(p);
    } else {
      assert b == [b[0]] + b[1..];
      WordsAppend(p, [b[0]], b[1..]);
      OneWord(p, b[0]);
      OpeningByte(b[0], p);
      EndedBytes(WordStep(p, b[0]), b[1..]);
    }
  }

  lemma NoWords(p: Parser)
    ensures Words(p, []) == p
  {
  }

  lemma OneWord(p: Parser, ch: byte)
    ensures Words(p, [ch]) == WordStep(p, ch)
  {
    hide WordStep;
    assert [ch][1..] == [];
  }

  lemma RaisedMore(f: Flags, a: seq<seq<byte>>, b: seq<seq<byte>>)
    ensures Raised(Raised(f, a), b) == Raised(f, a + b) && Raised(f, []) == f
  {
    hide Has;
    HasMore(a, b, "keep-alive");
    HasMore(a, b, "close");
    HasMore(a, b, "upgrade");
    HasNone("keep-alive");
    HasNone("close");
    HasNone("upgrade");
  }

  lemma HasNone(word: string)
    ensures !Has([], word)
  {
  }

  lemma HasMore(a: seq<seq<byte>>, b: seq<seq<byte>>, word: string)
    ensures Has(a + b, word) <==> Has(a, word) || Has(b, word)
  {
    hide Named;
    if Has(a, word) {
      var i :| 0 <= i < |a| && Named(a[i], word);
      assert (a + b)[i] == a[i];
    }
    if Has(b, word) {
      var i :| 0 <= i < |b| && Named(b[i], word);
      assert (a + b)[|a| + i] == b[i];
    }
  }

  predicate AreValues(segs: seq<seq<byte>>) {
    forall i :: 0 <= i < |segs| ==> IsValue(segs[i])
  }

  /** The rest of a value behind an option. */
  lemma {:induction false} RestRead(f: Flags, b: seq<byte>, q: Parser, segs: seq<seq<byte>>)
    requires Ready(f, b, q) && IsSplit(segs) && AreValues(segs)
    ensures var r := Words(q, RestJoined(segs)); RaiseFlag(r.flags, r.hstate) == Raised(f, [b] + LookedAt(segs, Swallows(b)))
    decreases |segs|, 1
  {
    hide WordStep, Ready, Raised, RaiseFlag, Swallows, Words, IsValue, LookedAt;
    if segs == [] {
      NoWords(q);
      LastOption(f, b, q);
      SeenNothing(Swallows(b));
      assert [b] + [] == [b] && RestJoined(segs) == [];
    } else {
      var r := WordStep(q, COMMA);
      CommaStep(f, b, q);
      assert RestJoined(segs) == [COMMA] + Join(segs);
      WordsAppend(q, [COMMA], Join(segs));
      OneWord(q, COMMA);
      RaisedMore(f, [b], LookedAt(segs, Swallows(b)));
      if Swallows(b) {
        LostRead(r, segs);
      } else {
        NextRead(r, segs);
      }
    }
  }

  /** The rest of a value from the start of an option on. */
  lemma {:induction false} NextRead(p: Parser, segs: seq<seq<byte>>)
    requires p.hstate.MatchingTokenStart? && p.index == 0 && segs != [] && IsSplit(segs) && AreValues(segs)
    ensures var r := Words(p, Join(segs)); RaiseFlag(r.flags, r.hstate) == Raised(p.flags, LookedAt(segs, false))
    decreases |segs|, 0
  {
    hide WordStep, Ready, Raised, RaiseFlag, Swallows, Words, IsValue, Opens, LookedAt, Stripped, RestJoined, Split;
    SeenStep(segs);
    var seg, rest := segs[0], segs[1..];
    WordsAppend(p, seg, RestJoined(rest));
    var q := Words(p, seg);
    if Opens(Stripped(seg)) {
      SegmentRead(seg, p);
      RestRead(p.flags, Stripped(seg), q, rest);
    } else {
      SegmentEnds(seg, p);
      RaisedMore(p.flags, [], []);
      EndRead(q, rest);
    }
  }

  lemma SeenNothing(lost: bool)
    ensures LookedAt([], lost) == []
  {
  }

  lemma SeenStep(segs: seq<seq<byte>>)
    requires segs != []
    ensures var b := Stripped(segs[0]);
      LookedAt(segs, false) == if Opens(b) then [b] + LookedAt(segs[1..], Swallows(b)) else []
  {
    hide Stripped, Opens, Swallows;
  }

  /** The rest of a value behind a part that does not open. */
  lemma EndRead(q: Parser, segs: seq<seq<byte>>)
    requires q.hstate.MatchingTokenStart? || q.hstate.General?
    ensures var r := Words(q, RestJoined(segs)); RaiseFlag(r.flags, r.hstate) == q.flags
  {
    hide WordStep, Words;
    if segs == [] {
      NoWords(q);
    } else {
      assert RestJoined(segs) == [COMMA] + Join(segs);
      WordsAppend(q, [COMMA], Join(segs));
      OneWord(q, COMMA);
      CommaGivesUp(q);
      EndedBytes(WordStep(q, COMMA), Join(segs));
    }
  }

  lemma CommaGivesUp(q: Parser)
    requires q.hstate.MatchingTokenStart? || q.hstate.General?
    ensures WordStep(q, COMMA).hstate.General? && WordStep(q, COMMA).flags == q.flags
  {
    assert Lower(COMMA) == COMMA && Token(COMMA) == 0;
  }

  /** The rest of a value behind a swallowed comma. */
  lemma {:induction false} LostRead(p: Parser, segs: seq<seq<byte>>)
    requires p.hstate.MatchingToken? && segs != [] && IsSplit(segs) && AreValues(segs)
    ensures var r := Words(p, Join(segs)); RaiseFlag(r.flags, r.hstate) == Raised(p.flags, LookedAt(segs, true))
    decreases |segs|, 0
  {
    hide WordStep, Raised, Words, IsValue, Opens, Swallows;
    var seg, rest := segs[0], segs[1..];
    WordsAppend(p, seg, RestJoined(rest));
    LostBytes(p, seg);
    if rest == [] {
      NoWords(p);
      RaisedMore(p.flags, [], []);
    } else {
      assert RestJoined(rest) == [COMMA] + Join(rest);
      WordsAppend(p, [COMMA], Join(rest));
      OneWord(p, COMMA);
      CommaEnds(p);
      NextRead(WordStep(p, COMMA), rest);
    }
  }

  lemma FirstOption(p: Parser, ch: byte)
    requires p.hstate.Connection?
    ensures KnowsOption([ch], FirstWord(p, ch).hstate, FirstWord(p, ch).index) && FirstWord(p, ch).flags == p.flags
  {
    hide Token, Lower, Partial, Named;
    OneLetter(ch);
  }

  /** The flags that a Connection value raises, whatever its bytes: those of the options that the parser
      looks at, where a keyword counts in any mixture of cases and with spaces around it. */
  lemma ConnectionExact(p: Parser, v: seq<byte>)
    requires p.hstate.Connection? && v != [] && IsValue(v)
    ensures var q := ValueRead(p, v); RaiseFlag(q.flags, q.hstate) == Raised(p.flags, Options(Split(v)))
  {
    hide KnowsOption, WordStep, Words, LookedAt, Raised, RaiseFlag, FirstWord, IsHeaderChar, Swallows, Split;
    var segs := Split(v);
    SplitParts(v);
    PartsAreValues(segs);
    var q := FirstWord(p, v[0]);
    FirstOption(p, v[0]);
    if segs[0] == [] {
      assert v == [] + RestJoined(segs[1..]) == [COMMA] + Join(segs[1..]);
      assert v[1..] == Join(segs[1..]);
      FirstComma(p);
      LostRead(q, segs[1..]);
    } else {
      assert v[0] == segs[0][0] && v[1..] == segs[0][1..] + RestJoined(segs[1..]);
      WordsAppend(q, segs[0][1..], RestJoined(segs[1..]));
      OptionBytes([v[0]], segs[0][1..], q);
      assert [v[0]] + segs[0][1..] == segs[0];
      RestRead(p.flags, segs[0], Words(q, segs[0][1..]), segs[1..]);
    }
  }

  lemma FirstComma(p: Parser)
    requires p.hstate.Connection?
    ensures FirstWord(p, COMMA).hstate.MatchingToken? && FirstWord(p, COMMA).flags == p.flags
  {
  }

  lemma {:induction false} PartsAreValues(segs: seq<seq<byte>>)
    requires segs != [] && IsValue(Join(segs))
    ensures AreValues(segs)
    decreases |segs|
  {
    hide IsHeaderChar;
    var v, n := Join(segs), |segs[0]|;
    assert v[..n] == segs[0];
    if |segs| > 1 {
      assert RestJoined(segs[1..]) == [COMMA] + Join(segs[1..]);
      assert v[n + 1..] == Join(segs[1..]);
      PartsAreValues(segs[1..]);
    }
  }
}
