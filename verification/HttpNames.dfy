/** The incremental matcher of header names recognises exactly its keywords. */
module HttpNames {
  import opened Bytes
  import opened HttpTypes
  import opened HttpStep
  import opened HttpSpec
  import opened HttpMarks
  import opened HttpExecute
  import opened HttpPieces

  // ---------------------------------------------------------------- words

  /** t is the beginning of word. */
  predicate Begins(t: seq<byte>, word: string) {
    |t| <= |word| && forall i :: 0 <= i < |t| ==> t[i] == word[i] as int
  }

  predicate Is(t: seq<byte>, word: string) {
    |t| == |word| && Begins(t, word)
  }

  predicate IsToken(s: seq<byte>) {
    forall i :: 0 <= i < |s| ==> Token(s[i]) != 0
  }

  /** A name as the tokens table reads it: lower-cased. */
  function Lowered(s: seq<byte>): (t: seq<byte>)
    ensures |t| == |s| && forall i :: 0 <= i < |s| ==> t[i] == Token(s[i])
  {
    seq(|s|, i requires 0 <= i < |s| => Token(s[i]))
  }

  /** The name t is headed for the keyword of h, one character per step. */
  predicate Underway(t: seq<byte>, h: HeaderState, index: nat, from: nat) {
    from <= |t| < |NameKeyword(h)| && index == |t| - 1 && Begins(t, NameKeyword(h))
  }

  predicate OffTrack(t: seq<byte>) {
    && !Begins(t, "connection") && !Begins(t, "proxy-connection") && !Begins(t, "content-length")
    && !Begins(t, "transfer-encoding") && !Begins(t, "upgrade")
  }

  /** What the nested machine knows after reading the name t. */
  predicate Knows(t: seq<byte>, h: HeaderState, index: nat) {
    match h
    case HC => index == 0 && Is(t, "c")
    case HCO => index == 1 && Is(t, "co")
    case HCON => index == 2 && Is(t, "con")
    case MatchingConnection => Underway(t, h, index, 4)
    case MatchingContentLength => Underway(t, h, index, 4)
    case MatchingProxyConnection => Underway(t, h, index, 1)
    case MatchingTransferEncoding => Underway(t, h, index, 1)
    case MatchingUpgrade => Underway(t, h, index, 1)
    case Connection => Is(t, "connection") || Is(t, "proxy-connection")
    case ContentLength => Is(t, "content-length")
    case TransferEncoding => Is(t, "transfer-encoding")
    case Upgrade => Is(t, "upgrade")
    case General => OffTrack(t)
    case _ => false
  }

  // ---------------------------------------------------------------- one character

  lemma BeginsPush(t: seq<byte>, c: byte, word: string)
    ensures Begins(t + [c], word) <==> Begins(t, word) && |t| < |word| && c == word[|t|] as int
  {
    if Begins(t + [c], word) {
      forall i | 0 <= i < |t| ensures t[i] == word[i] as int {
        assert (t + [c])[i] == t[i];
      }
      assert (t + [c])[|t|] == c;
    }
  }

  /** Off track once, off track for good. */
  lemma OffTrackPush(t: seq<byte>, c: byte)
    requires OffTrack(t)
    ensures OffTrack(t + [c])
  {
    hide Begins;
    BeginsPush(t, c, "connection");
    BeginsPush(t, c, "proxy-connection");
    BeginsPush(t, c, "content-length");
    BeginsPush(t, c, "transfer-encoding");
    BeginsPush(t, c, "upgrade");
  }

  /** A name that shares its first letter with one keyword only. */
  lemma LoneKeyword(t: seq<byte>, word: string)
    requires word == "proxy-connection" || word == "transfer-encoding" || word == "upgrade"
    requires t != [] && Begins(t, word)
    ensures word != "proxy-connection" ==> !Begins(t, "proxy-connection")
    ensures word != "transfer-encoding" ==> !Begins(t, "transfer-encoding")
    ensures word != "upgrade" ==> !Begins(t, "upgrade")
    ensures !Begins(t, "connection") && !Begins(t, "content-length")
  {
    assert t[0] == word[0] as int;
  }

  /** The two keywords that start alike are told apart by their fourth letter. */
  lemma TwinKeyword(t: seq<byte>, word: string)
    requires word == "connection" || word == "content-length"
    requires 4 <= |t| && Begins(t, word)
    ensures word == "connection" ==> !Begins(t, "content-length")
    ensures word == "content-length" ==> !Begins(t, "connection")
    ensures !Begins(t, "proxy-connection") && !Begins(t, "transfer-encoding") && !Begins(t, "upgrade")
  {
    assert t[0] == word[0] as int;
    assert t[3] == word[3] as int;
  }

  /** A character that does not continue the only keyword the name was headed for. */
  lemma LoneKeywordLost(t: seq<byte>, c: byte, word: string)
    requires word == "proxy-connection" || word == "transfer-encoding" || word == "upgrade"
    requires t != [] && Begins(t, word) && !(|t| < |word| && c == word[|t|] as int)
    ensures OffTrack(t + [c])
  {
    LoneKeyword(t, word);
    hide Begins;
    BeginsPush(t, c, "connection");
    BeginsPush(t, c, "proxy-connection");
    BeginsPush(t, c, "content-length");
    BeginsPush(t, c, "transfer-encoding");
    BeginsPush(t, c, "upgrade");
  }

  lemma TwinKeywordLost(t: seq<byte>, c: byte, word: string)
    requires word == "connection" || word == "content-length"
    requires 4 <= |t| && Begins(t, word) && !(|t| < |word| && c == word[|t|] as int)
    ensures OffTrack(t + [c])
  {
    TwinKeyword(t, word);
    hide Begins;
    BeginsPush(t, c, "connection");
    BeginsPush(t, c, "proxy-connection");
    BeginsPush(t, c, "content-length");
    BeginsPush(t, c, "transfer-encoding");
    BeginsPush(t, c, "upgrade");
  }

  // ---------------------------------------------------------------- the machine, one character at a time

  lemma FirstCharacter(c: byte)
    ensures Knows([c], FirstNameState(c), 0)
  {
    var none: seq<byte> := [];
    assert none + [c] == [c];
    BeginsPush(none, c, "connection");
    BeginsPush(none, c, "proxy-connection");
    BeginsPush(none, c, "content-length");
    BeginsPush(none, c, "transfer-encoding");
    BeginsPush(none, c, "upgrade");
    BeginsPush(none, c, "c");
  }

  /** The three states that read "con". */
  lemma PrefixCharacter(t: seq<byte>, c: byte, p: Parser)
    requires p.hstate.HC? || p.hstate.HCO? || p.hstate.HCON?
    requires Knows(t, p.hstate, p.index)
    ensures var q := NameStep(p, c); Knows(t + [c], q.hstate, q.index)
  {
    assert t[0] == 99;
    BeginsPush(t, c, "connection");
    BeginsPush(t, c, "proxy-connection");
    BeginsPush(t, c, "content-length");
    BeginsPush(t, c, "transfer-encoding");
    BeginsPush(t, c, "upgrade");
    BeginsPush(t, c, "co");
    BeginsPush(t, c, "con");
  }

  lemma NameStepMatches(p: Parser, c: byte)
    requires NameKeyword(p.hstate) != ""
    ensures NameStep(p, c) == NameMatch(p, c)
  {
    hide NameMatch;
  }

  /** One comparison with a keyword. */
  lemma MatchCharacter(t: seq<byte>, c: byte, p: Parser, from: nat)
    requires NameKeyword(p.hstate) != "" && 1 <= from && Underway(t, p.hstate, p.index, from) && c != 0
    requires c != NameKeyword(p.hstate)[|t|] as int ==> OffTrack(t + [c])
    ensures var q := NameMatch(p, c); var word := NameKeyword(p.hstate);
      if c != word[|t|] as int then q.hstate.General? && OffTrack(t + [c])
      else if |t| == |word| - 1 then q.hstate == NameFound(p.hstate) && Is(t + [c], word)
      else q.hstate == p.hstate && Underway(t + [c], p.hstate, q.index, from)
  {
    hide OffTrack, Begins, NameFound;
    BeginsPush(t, c, NameKeyword(p.hstate));
    KeywordLength(p.hstate);
    hide NameKeyword;
    assert Bump(p.index) == |t|;
  }

  lemma KeywordLength(h: HeaderState)
    ensures |NameKeyword(h)| <= 17
  {
  }

  lemma LoneCharacter(t: seq<byte>, c: byte, p: Parser)
    requires p.hstate.MatchingProxyConnection? || p.hstate.MatchingTransferEncoding? || p.hstate.MatchingUpgrade?
    requires Knows(t, p.hstate, p.index) && c != 0
    ensures var q := NameStep(p, c); Knows(t + [c], q.hstate, q.index)
  {
    hide Begins, OffTrack, NameStep, NameMatch;
    var word := NameKeyword(p.hstate);
    if c != word[|t|] as int {
      LoneKeywordLost(t, c, word);
    }
    NameStepMatches(p, c);
    MatchCharacter(t, c, p, 1);
  }

  lemma TwinCharacter(t: seq<byte>, c: byte, p: Parser)
    requires p.hstate.MatchingConnection? || p.hstate.MatchingContentLength?
    requires Knows(t, p.hstate, p.index) && c != 0
    ensures var q := NameStep(p, c); Knows(t + [c], q.hstate, q.index)
  {
    hide Begins, OffTrack, NameStep, NameMatch;
    var word := NameKeyword(p.hstate);
    if c != word[|t|] as int {
      TwinKeywordLost(t, c, word);
    }
    NameStepMatches(p, c);
    MatchCharacter(t, c, p, 4);
  }

  lemma KeywordCharacter(t: seq<byte>, c: byte, p: Parser)
    requires p.hstate.Connection? || p.hstate.ContentLength? || p.hstate.TransferEncoding? || p.hstate.Upgrade?
             || p.hstate.General?
    requires Knows(t, p.hstate, p.index)
    ensures var q := NameStep(p, c); Knows(t + [c], q.hstate, q.index)
  {
    if p.hstate.General? {
      OffTrackPush(t, c);
    } else if Is(t, "connection") {
      TwinKeywordLost(t, c, "connection");
    } else if Is(t, "proxy-connection") {
      LoneKeywordLost(t, c, "proxy-connection");
    } else if p.hstate.ContentLength? {
      TwinKeywordLost(t, c, "content-length");
    } else if p.hstate.TransferEncoding? {
      LoneKeywordLost(t, c, "transfer-encoding");
    } else {
      LoneKeywordLost(t, c, "upgrade");
    }
    hide Begins, OffTrack;
  }

  /** What the machine knows stays right with every character of the name. */
  lemma NameCharacter(t: seq<byte>, c: byte, p: Parser)
    requires Knows(t, p.hstate, p.index) && c != 0
    ensures var q := NameStep(p, c); Knows(t + [c], q.hstate, q.index)
  {
    if p.hstate.HC? || p.hstate.HCO? || p.hstate.HCON? {
      PrefixCharacter(t, c, p);
    } else if p.hstate.MatchingConnection? || p.hstate.MatchingContentLength? {
      TwinCharacter(t, c, p);
    } else if p.hstate.MatchingProxyConnection? || p.hstate.MatchingTransferEncoding? || p.hstate.MatchingUpgrade? {
      LoneCharacter(t, c, p);
    } else {
      hide NameStep, OffTrack, Is, Underway;
      KeywordCharacter(t, c, p);
    }
  }

  // ---------------------------------------------------------------- a whole name

  lemma FirstNameTurn(cfg: Config, p: Parser, ch: byte)
    requires p.state.HeaderFieldStart? && Token(ch) != 0
    ensures var o := StepOnce(cfg, p, ch);
      && o.ctl.Next? && TurnTrace(p.state, o, ch) == [Begin(Field), Data(Field, ch)]
      && o.p == p.(state := HeaderField, index := 0, hstate := FirstNameState(Token(ch)))
  {
    hide Token, FirstNameState;
    assert Token(CR) == 0 && Token(LF) == 0 by { TokenEnds(); }
  }

  lemma TokenEnds()
    ensures Token(CR) == 0 && Token(LF) == 0
  {
  }

  /** The nested machine after a whole name. */
  function Recognised(s: seq<byte>): (HeaderState, nat)
    requires s != []
  {
    if |s| == 1 then (FirstNameState(Token(s[0])), 0)
    else
      var (h, i) := Recognised(s[..|s| - 1]);
      var p := NameStep(BLANK.(hstate := h, index := i), Token(s[|s| - 1]));
      (p.hstate, p.index)
  }

  const BLANK := Parser(Request, NO_FLAGS, HeaderField, General, 0, 0, 0, 0, 0, 0, 0, Ok, false)

  lemma NameStepNested(p: Parser, q: Parser, c: byte)
    requires p.hstate == q.hstate && p.index == q.index
    ensures NameStep(p, c).hstate == NameStep(q, c).hstate && NameStep(p, c).index == NameStep(q, c).index
  {
  }

  lemma {:induction false} RecognisedKnows(s: seq<byte>)
    requires s != [] && IsToken(s)
    ensures var (h, i) := Recognised(s); Knows(Lowered(s), h, i)
    decreases |s|
  {
    hide Knows, NameStep, FirstNameState, Token;
    var n := |s| - 1;
    var (h, i) := Recognised(s);
    if n == 0 {
      FirstCharacter(Token(s[0]));
      assert Lowered(s) == [Token(s[0])];
    } else {
      RecognisedKnows(s[..n]);
      var (h0, i0) := Recognised(s[..n]);
      NameCharacter(Lowered(s[..n]), Token(s[n]), BLANK.(hstate := h0, index := i0));
      assert Lowered(s) == Lowered(s[..n]) + [Token(s[n])];
    }
  }

  /** A keyword is recognised in no other state than its own. */
  lemma KnowsKeywords(t: seq<byte>, h: HeaderState, index: nat)
    requires Knows(t, h, index)
    ensures h.Connection? <==> Is(t, "connection") || Is(t, "proxy-connection")
    ensures h.ContentLength? <==> Is(t, "content-length")
    ensures h.TransferEncoding? <==> Is(t, "transfer-encoding")
    ensures h.Upgrade? <==> Is(t, "upgrade")
  {
    if Is(t, "connection") {
      TwinKeyword(t, "connection");
    } else if Is(t, "content-length") {
      TwinKeyword(t, "content-length");
    } else if Is(t, "proxy-connection") {
      LoneKeyword(t, "proxy-connection");
    } else if Is(t, "transfer-encoding") {
      LoneKeyword(t, "transfer-encoding");
    } else if Is(t, "upgrade") {
      LoneKeyword(t, "upgrade");
    }
    hide Begins;
  }

  /** The record after the name s. */
  function NameRead(p: Parser, s: seq<byte>): Parser
    requires s != []
  {
    var (h, i) := Recognised(s);
    p.(state := HeaderField, hstate := h, index := i, nread := p.nread + |s|)
  }

  lemma {:induction false} NameRuns(cfg: Config, p: Parser, s: seq<byte>)
    requires p.state.HeaderFieldStart? && s != [] && IsToken(s)
    requires p.nread + |s| <= cfg.maxHeader < UINT32_SPAN
    ensures Through(cfg, p, s, NameRead(p, s), Piece(Field, s))
    decreases |s|
  {
    hide StepOnce, TurnTrace, Run, NameStep, FirstNameState, Token;
    var n := |s| - 1;
    assert Token(s[n]) != 0;
    if n == 0 {
      FirstNameTurn(cfg, Counted(p, 1), s[0]);
      ThroughByte(cfg, p, s[0]);
      assert s == [s[0]] && Piece(Field, s) == [Begin(Field), Data(Field, s[0])];
    } else {
      var init, ch := s[..n], s[n];
      NameRuns(cfg, p, init);
      var q := NameRead(p, init);
      NameTurn(cfg, Counted(q, 1), ch);
      ThroughByte(cfg, q, ch);
      NameStepStays(Counted(q, 1), Token(ch));
      NameStepNested(Counted(q, 1), BLANK.(hstate := q.hstate, index := q.index), Token(ch));
      ThroughAppend(cfg, p, init, q, Piece(Field, init), [ch], NameRead(p, s), [Data(Field, ch)]);
      assert s == init + [ch] && Piece(Field, s) == Piece(Field, init) + [Data(Field, ch)];
    }
  }

  /** Header names are recognised exactly: after any name, in any mixture of cases, the nested
      machine announces a keyword if and only if the lower-cased name is that keyword, with
      proxy-connection counting as connection; and the name is handed over as one piece. */
  lemma HeaderNameExact(cfg: Config, p: Parser, s: seq<byte>)
    requires p.state.HeaderFieldStart? && s != [] && IsToken(s)
    requires p.nread + |s| <= cfg.maxHeader < UINT32_SPAN
    ensures var q := NameRead(p, s); var t := Lowered(s);
      && Through(cfg, p, s, q, Piece(Field, s))
      && (q.hstate.Connection? <==> Is(t, "connection") || Is(t, "proxy-connection"))
      && (q.hstate.ContentLength? <==> Is(t, "content-length"))
      && (q.hstate.TransferEncoding? <==> Is(t, "transfer-encoding"))
      && (q.hstate.Upgrade? <==> Is(t, "upgrade"))
  {
    hide Run, Recognised, Knows, Is, Token;
    NameRuns(cfg, p, s);
    RecognisedKnows(s);
    var (h, i) := Recognised(s);
    KnowsKeywords(Lowered(s), h, i);
  }
}
