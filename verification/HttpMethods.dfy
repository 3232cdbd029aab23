/** The incremental matcher of request methods accepts exactly the method table. */
module HttpMethods {
  import opened Bytes
  import opened HttpTypes
  import opened HttpStep
  import opened HttpSpec
  import opened HttpPieces
  import opened HttpNames

  // ---------------------------------------------------------------- guesses

  /** The guess after one more byte that is not the closing space. */
  function Advance(g: nat, i: nat, ch: byte): Option<nat> {
    var word := MethodWord(g);
    if ch == 0 then None
    else if i < |word| && ch == word[i] as int then Some(g)
    else if 65 <= ch <= 90 || ch == DASH then NextMethod(g, i, ch)
    else None
  }

  /** The guess after the bytes b, if they are still the beginning of a method. */
  function Guess(b: seq<byte>): Option<nat>
    requires b != []
  {
    var n := |b| - 1;
    if n == 0 then FirstMethod(b[0])
    else match Guess(b[..n])
      case None => None
      case Some(g) => Advance(g, n, b[n])
  }

  /** A change of guess keeps what has been read and continues with the byte that caused it. */
  lemma NextMethodSound(g: nat, i: nat, ch: byte)
    ensures match NextMethod(g, i, ch)
      case None => true
      case Some(m) =>
        && g < METHOD_COUNT && m < METHOD_COUNT && i < |MethodWord(m)| && i <= |MethodWord(g)|
        && MethodWord(m)[i] as int == ch && MethodWord(m)[..i] == MethodWord(g)[..i]
  {
  }

  lemma FirstMethodSound(ch: byte)
    ensures match FirstMethod(ch)
      case None => true
      case Some(m) => m < METHOD_COUNT && |MethodWord(m)| > 0 && MethodWord(m)[0] as int == ch && IsAlpha(ch)
  {
  }

  /** During the method, the bytes read are the beginning of the guessed method's name. */
  lemma {:induction false} GuessSound(b: seq<byte>)
    requires b != []
    ensures match Guess(b)
      case None => true
      case Some(m) => m < METHOD_COUNT && Begins(b, MethodWord(m))
    decreases |b|
  {
    hide MethodWord, NextMethod, FirstMethod;
    var n := |b| - 1;
    if n == 0 {
      FirstMethodSound(b[0]);
    } else {
      GuessSound(b[..n]);
      match Guess(b[..n])
      case None =>
      case Some(g) =>
        NextMethodSound(g, n, b[n]);
        match Guess(b)
        case None =>
        case Some(m) =>
          forall k | 0 <= k < n ensures b[k] == MethodWord(m)[k] as int {
            assert b[..n][k] == b[k];
            assert MethodWord(m)[..n][k] == MethodWord(g)[..n][k];
          }
    }
  }

  // ---------------------------------------------------------------- every method is reached

  /** The guess a method is reached from, and the place where the two part. */
  function Parent(m: nat): Option<(nat, nat)> {
    match m
    case 4 => Some((3, 1))
    case 8 => Some((5, 2))
    case 11 => Some((10, 1))
    case 12 => Some((3, 1))
    case 13 => Some((12, 4))
    case 14 => Some((26, 1))
    case 17 => Some((20, 2))
    case 18 => Some((15, 2))
    case 21 => Some((10, 2))
    case 22 => Some((5, 1))
    case 23 => Some((10, 1))
    case 24 => Some((10, 1))
    case 27 => Some((15, 2))
    case 28 => Some((3, 1))
    case 29 => Some((4, 2))
    case 30 => Some((10, 3))
    case 31 => Some((9, 1))
    case 32 => Some((15, 3))
    case 33 => Some((26, 1))
    case _ => None
  }

  /** How many changes of guess it takes. */
  function Depth(m: nat): nat {
    if Parent(m).None? then 0 else if m == 29 || m == 13 then 2 else 1
  }

  /** Where the guess becomes m, counted in bytes read. */
  function Settles(m: nat): nat {
    if Parent(m).None? then 1 else Parent(m).value.1 + 1
  }

  /** The parting place is right: both names agree before it, and the byte there changes the guess. */
  predicate ParentFits(m: nat) {
    match Parent(m)
    case None => |MethodWord(m)| > 0 && MethodWord(m)[0] < 256 as char && FirstMethod(MethodWord(m)[0] as int) == Some(m)
    case Some((g, at)) =>
      && g < METHOD_COUNT && Depth(g) < Depth(m)
      && 1 <= Settles(g) <= at < |MethodWord(m)| && at < |MethodWord(g)|
      && MethodWord(m)[..at] == MethodWord(g)[..at] && MethodWord(m)[at] != MethodWord(g)[at]
      && IsMethodByte(MethodWord(m)[at]) && NextMethod(g, at, MethodWord(m)[at] as int) == Some(m)
  }

  lemma RootFits(m: nat)
    requires m < METHOD_COUNT && Parent(m).None?
    ensures ParentFits(m)
  {
  }

  lemma PostFits(m: nat)
    requires Parent(m).Some? && (Parent(m).value.0 in {3, 4, 12})
    ensures ParentFits(m)
  {
  }

  lemma ConnectFits(m: nat)
    requires Parent(m).Some? && Parent(m).value.0 in {5, 9, 20}
    ensures ParentFits(m)
  {
  }

  lemma MkcolFits(m: nat)
    requires Parent(m).Some? && Parent(m).value.0 == 10
    ensures ParentFits(m)
  {
  }

  lemma OtherFits(m: nat)
    requires Parent(m).Some? && Parent(m).value.0 in {15, 26}
    ensures ParentFits(m)
  {
  }

  lemma ParentSound(m: nat)
    requires m < METHOD_COUNT
    ensures ParentFits(m)
  {
    hide ParentFits;
    if Parent(m).None? {
      RootFits(m);
    } else if Parent(m).value.0 in {3, 4, 12} {
      PostFits(m);
    } else if Parent(m).value.0 in {5, 9, 20} {
      ConnectFits(m);
    } else if Parent(m).value.0 == 10 {
      MkcolFits(m);
    } else {
      OtherFits(m);
    }
  }

  predicate IsMethodByte(c: char) {
    'A' <= c <= 'Z' || c == '-'
  }

  lemma MethodWordBytes(m: nat, i: nat)
    requires m < METHOD_COUNT && i < |MethodWord(m)|
    ensures IsMethodByte(MethodWord(m)[i])
  {
  }

  lemma MethodWordAll(m: nat)
    requires m < METHOD_COUNT
    ensures forall i :: 0 <= i < |MethodWord(m)| ==> IsMethodByte(MethodWord(m)[i])
  {
    hide MethodWord;
    forall i | 0 <= i < |MethodWord(m)|
      ensures IsMethodByte(MethodWord(m)[i])
    {
      MethodWordBytes(m, i);
    }
  }

  function ToBytes(word: string): (t: seq<byte>)
    requires forall i :: 0 <= i < |word| ==> IsMethodByte(word[i])
    ensures |t| == |word| && forall i :: 0 <= i < |t| ==> t[i] == word[i] as int
  {
    seq(|word|, i requires 0 <= i < |word| && IsMethodByte(word[i]) => word[i] as int)
  }

  /** The name of a method as bytes. */
  function Text(m: nat): (t: seq<byte>)
    requires m < METHOD_COUNT
    ensures |t| == |MethodWord(m)| && forall i :: 0 <= i < |t| ==> t[i] == MethodWord(m)[i] as int
  {
    hide MethodWord;
    MethodWordAll(m);
    ToBytes(MethodWord(m))
  }

  /** From the place where the guess becomes m, the name of m keeps it. */
  lemma {:induction false} Reaches(m: nat, n: nat)
    requires m < METHOD_COUNT && Settles(m) <= n <= |MethodWord(m)|
    ensures Guess(Text(m)[..n]) == Some(m)
    decreases Depth(m), n
  {
    hide MethodWord, NextMethod, FirstMethod, Parent;
    ParentSound(m);
    var b := Text(m)[..n];
    if n > Settles(m) {
      Reaches(m, n - 1);
      assert b[..n - 1] == Text(m)[..n - 1];
      MethodWordBytes(m, n - 1);
    } else if Parent(m).Some? {
      var (g, at) := Parent(m).value;
      Reaches(g, at);
      assert b[..at] == Text(g)[..at] by {
        forall k | 0 <= k < at ensures Text(m)[k] == Text(g)[k] {
          assert MethodWord(m)[..at][k] == MethodWord(g)[..at][k];
        }
      }
    }
  }

  /** The bytes b are the name of some method. */
  predicate InTable(b: seq<byte>) {
    exists m: nat :: m < METHOD_COUNT && Is(b, MethodWord(m))
  }

  /** The matcher ends at the end of its guess exactly for the names in the table. */
  lemma GuessExact(b: seq<byte>)
    requires b != []
    ensures InTable(b) <==> Guess(b).Some? && |b| == |MethodWord(Guess(b).value)|
    ensures InTable(b) ==> Guess(b).value < METHOD_COUNT && Is(b, MethodWord(Guess(b).value))
  {
    GuessSound(b);
    hide MethodWord;
    if InTable(b) {
      var m: nat :| m < METHOD_COUNT && Is(b, MethodWord(m));
      ParentSound(m);
      Reaches(m, |MethodWord(m)|);
      assert b == Text(m)[..|MethodWord(m)|];
    }
  }

  // ---------------------------------------------------------------- the machine

  lemma FirstMethodTurn(cfg: Config, p: Parser, ch: byte)
    requires p.state.StartReq? && ch != CR && ch != LF
    ensures var o := StepOnce(cfg, p, ch);
      match FirstMethod(ch)
      case None => o.ctl == Fail(InvalidMethod) && o.p.errno == InvalidMethod && o.note == []
      case Some(m) =>
        var q := Fresh(p).(state := ReqMethod, methodId := m, index := 1);
        o.ctl.Next? && o.p == q && TurnTrace(p.state, o, ch) == [Notified(MessageBegin, Seen(q))]
  {
    FirstMethodSound(ch);
    hide FirstMethod, IsAlpha;
  }

  lemma MethodTurn(cfg: Config, p: Parser, ch: byte)
    requires p.state.ReqMethod? && ch != SP
    ensures var o := StepOnce(cfg, p, ch);
      match Advance(p.methodId, p.index, ch)
      case None => o.ctl == Fail(InvalidMethod) && o.p.errno == InvalidMethod
      case Some(m) =>
        o.ctl.Next? && o.p == p.(methodId := m, index := Bump(p.index)) && TurnTrace(p.state, o, ch) == []
  {
    hide MethodWord, NextMethod;
  }

  lemma MethodEndTurn(cfg: Config, p: Parser)
    requires p.state.ReqMethod? && p.methodId < METHOD_COUNT && p.index <= |MethodWord(p.methodId)|
    ensures var o := StepOnce(cfg, p, SP);
      if p.index == |MethodWord(p.methodId)| then
        o.ctl.Next? && o.p == p.(state := ReqSpacesBeforeUrl, index := Bump(p.index)) && TurnTrace(p.state, o, SP) == []
      else o.ctl == Fail(InvalidMethod) && o.p.errno == InvalidMethod
  {
    if p.index < |MethodWord(p.methodId)| {
      MethodWordBytes(p.methodId, p.index);
    }
    hide MethodWord, NextMethod;
  }

  /** The record after n bytes of a method guessed to be m. */
  function Guessing(p: Parser, m: nat, n: nat): Parser {
    Fresh(p).(state := ReqMethod, methodId := m, index := n, nread := p.nread + n)
  }

  function MethodTrace(p: Parser, b: seq<byte>): seq<Event>
    requires b != []
  {
    match FirstMethod(b[0])
    case None => []
    case Some(m) => [Notified(MessageBegin, Seen(Fresh(p).(state := ReqMethod, methodId := m, index := 1)))]
  }

  predicate Refused(cfg: Config, p: Parser, data: seq<byte>, e: Errno) {
    var r := Run(cfg, p, data, 0);
    r.stop.Failed? && r.p.errno == e
  }

  lemma RefusedAppend(cfg: Config, p: Parser, a: seq<byte>, b: seq<byte>, e: Errno)
    requires Refused(cfg, p, a, e)
    ensures Refused(cfg, p, a + b, e)
  {
    hide Run;
    RunAppend(cfg, p, a, b, 0);
  }

  lemma RefusedByte(cfg: Config, p: Parser, a: seq<byte>, q: Parser, t: seq<Event>, ch: byte, e: Errno)
    requires Through(cfg, p, a, q, t) && Admitted(cfg, q)
    requires var o := StepOnce(cfg, Entered(q), ch); o.ctl.Fail? && o.p.errno == e
    ensures Refused(cfg, p, a + [ch], e)
  {
    hide StepOnce, Settle, TurnTrace;
    RunTurn(cfg, Entered(q), [ch], 0);
    assert Run(cfg, q, [ch], 0) == RunCounted(cfg, Entered(q), [ch], 0) by { hide RunCounted; }
    hide Run, RunCounted;
    RunAppend(cfg, p, a, [ch], 0);
  }

  lemma {:induction false} MethodRuns(cfg: Config, p: Parser, b: seq<byte>)
    requires p.state.StartReq? && b != [] && b[0] != CR && b[0] != LF && SP !in b
    requires p.nread + |b| <= cfg.maxHeader < UINT32_SPAN
    ensures match Guess(b)
      case None => Refused(cfg, p, b, InvalidMethod)
      case Some(m) => Through(cfg, p, b, Guessing(p, m, |b|), MethodTrace(p, b))
    decreases |b|
  {
    hide StepOnce, TurnTrace, Run, FirstMethod, MethodWord, Advance;
    var n := |b| - 1;
    var init, ch := b[..n], b[n];
    assert b == init + [ch];
    if n == 0 {
      FirstMethodTurn(cfg, Counted(p, 1), ch);
      assert b == [ch];
      if FirstMethod(ch).Some? {
        ThroughByte(cfg, p, ch);
      } else {
        ThroughNothing(cfg, p);
        RefusedByte(cfg, p, init, p, [], ch, InvalidMethod);
      }
    } else {
      assert SP !in init;
      MethodRuns(cfg, p, init);
      match Guess(init)
      case None => RefusedAppend(cfg, p, init, [ch], InvalidMethod);
      case Some(g) =>
        GuessSound(init);
        MethodWordBound(g);
        MethodExtends(cfg, p, init, g, ch);
    }
  }

  lemma MethodWordBound(m: nat)
    requires m < METHOD_COUNT
    ensures |MethodWord(m)| <= 11
  {
    hide MethodWord;
  }

  lemma MethodExtends(cfg: Config, p: Parser, init: seq<byte>, g: nat, ch: byte)
    requires p.state.StartReq? && init != [] && ch != SP && |init| <= 11
    requires p.nread + |init| + 1 <= cfg.maxHeader < UINT32_SPAN
    requires Through(cfg, p, init, Guessing(p, g, |init|), MethodTrace(p, init))
    ensures match Advance(g, |init|, ch)
      case None => Refused(cfg, p, init + [ch], InvalidMethod)
      case Some(m) => Through(cfg, p, init + [ch], Guessing(p, m, |init| + 1), MethodTrace(p, init + [ch]))
  {
    hide StepOnce, TurnTrace, Run, FirstMethod, MethodWord, Advance;
    var q, t := Guessing(p, g, |init|), MethodTrace(p, init);
    MethodTurn(cfg, Counted(q, 1), ch);
    match Advance(g, |init|, ch)
    case None => RefusedByte(cfg, p, init, q, t, ch, InvalidMethod);
    case Some(m) =>
      ThroughByte(cfg, q, ch);
      ThroughAppend(cfg, p, init, q, t, [ch], Guessing(p, m, |init| + 1), []);
      assert t + [] == t && MethodTrace(p, init + [ch]) == t;
  }

  /** A request method is accepted if and only if it is in the table, and then the record names it;
      any other word is refused as an invalid method. */
  lemma MethodExact(cfg: Config, p: Parser, b: seq<byte>)
    requires p.state.StartReq? && b != [] && b[0] != CR && b[0] != LF && SP !in b
    requires p.nread + |b| + 1 <= cfg.maxHeader < UINT32_SPAN
    ensures if InTable(b) then
              && Guess(b).Some? && Is(b, MethodWord(Guess(b).value))
              && Through(cfg, p, b + [SP],
                         Guessing(p, Guess(b).value, |b| + 1).(state := ReqSpacesBeforeUrl), MethodTrace(p, b))
            else Refused(cfg, p, b + [SP], InvalidMethod)
  {
    hide StepOnce, TurnTrace, Run, MethodWord, Guess, MethodTrace;
    MethodRuns(cfg, p, b);
    GuessExact(b);
    GuessSound(b);
    match Guess(b)
    case None => RefusedAppend(cfg, p, b, [SP], InvalidMethod);
    case Some(m) =>
      MethodWordBound(m);
      var q := Guessing(p, m, |b|);
      MethodEndTurn(cfg, Counted(q, 1));
      if InTable(b) {
        ThroughByte(cfg, q, SP);
        ThroughAppend(cfg, p, b, q, MethodTrace(p, b), [SP],
                      Guessing(p, m, |b| + 1).(state := ReqSpacesBeforeUrl), []);
        assert MethodTrace(p, b) + [] == MethodTrace(p, b);
      } else {
        RefusedByte(cfg, p, b, q, MethodTrace(p, b), SP, InvalidMethod);
      }
  }
}
