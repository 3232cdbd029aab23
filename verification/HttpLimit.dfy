/** When counting a whole name or value at once agrees with counting its bytes one by one. */
module HttpLimit {
  import opened Bytes
  import opened HttpTypes
  import opened HttpStep
  import opened HttpSpec
  import opened HttpMarks
  import opened HttpExecute
  import opened HttpPieces

  /** n bytes counted one by one on a 32-bit word stay within the limit. */
  predicate CountsOneByOne(count: nat, n: nat, limit: nat)
    decreases n
  {
    n == 0 || ((count + 1) % UINT32_SPAN <= limit && CountsOneByOne((count + 1) % UINT32_SPAN, n - 1, limit))
  }

  /** The source counts the first byte at the head of its loop and the other n - 1 at the end of the
      inner loop, in one addition. */
  predicate CountsAtOnce(count: nat, n: nat, limit: nat) {
    n == 0
    || ((count + 1) % UINT32_SPAN <= limit && ((count + 1) % UINT32_SPAN + n - 1) % UINT32_SPAN <= limit)
  }

  lemma {:induction false} OneByOneExact(count: nat, n: nat, limit: nat)
    requires count <= limit < UINT32_SPAN
    ensures CountsOneByOne(count, n, limit) <==> count + n <= limit || limit == UINT32_SPAN - 1
    decreases n
  {
    if n > 0 && (count + 1) % UINT32_SPAN <= limit {
      OneByOneExact((count + 1) % UINT32_SPAN, n - 1, limit);
    }
  }

  /** The two ways of counting agree on every name or value of n bytes, whatever was counted before from low on,
      if and only if limit and length together do not exceed 2^32 or there is no limit at all. The lowest count does
      not matter, and every count from 19 on is that of a header (CountReached). */
  lemma CountFitsExact(n: nat, limit: nat, low: nat)
    requires low < limit < UINT32_SPAN && 0 < n <= UINT32_SPAN
    ensures (forall count: nat :: low <= count <= limit ==>
               (CountsAtOnce(count, n, limit) <==> CountsOneByOne(count, n, limit)))
            <==> limit + n <= UINT32_SPAN || limit == UINT32_SPAN - 1
  {
    forall count: nat | count <= limit
      ensures CountsOneByOne(count, n, limit) <==> count + n <= limit || limit == UINT32_SPAN - 1
    {
      OneByOneExact(count, n, limit);
    }
    if limit + n > UINT32_SPAN && limit < UINT32_SPAN - 1 {
      var count: nat := limit - 1;
      assert CountsAtOnce(count, n, limit) && !CountsOneByOne(count, n, limit);
    }
  }

  // ---------------------------------------------------------------- the two counts in the machine

  /** A value of n bytes that match nothing. */
  function Filler(n: nat): (s: seq<byte>)
    ensures |s| == n && forall i :: 0 <= i < n ==> s[i] == 97
  {
    seq(n, _ => 97)
  }

  lemma PlainTurn(cfg: Config, p: Parser)
    requires p.state.HeaderValue? && p.hstate.General?
    ensures var o := StepOnce(cfg, p, 97);
      o.ctl.Next? && o.p == p && TurnTrace(p.state, o, 97) == [Data(Value, 97)]
  {
  }

  /** Fed byte by byte, a value is refused for its length exactly when counting one by one leaves
      the limit. */
  lemma {:induction false} PlainRuns(cfg: Config, p: Parser, data: seq<byte>, i: nat)
    requires p.state.HeaderValue? && p.hstate.General? && i <= |data|
    requires forall k :: 0 <= k < |data| ==> data[k] == 97
    ensures var r := Run(cfg, p, data, i);
      if CountsOneByOne(p.nread, |data| - i, cfg.maxHeader)
      then r.stop.Running? && (p.nread + |data| - i < UINT32_SPAN ==> r.p == p.(nread := p.nread + |data| - i))
      else r.stop.Failed? && r.p.errno == HeaderOverflow
    decreases |data| - i
  {
    hide StepOnce, TurnTrace, RunCounted;
    if i < |data| {
      var q := Counted(p, 1);
      PlainTurn(cfg, q);
      RunTurn(cfg, q, data, i);
      if q.nread <= cfg.maxHeader {
        PlainRuns(cfg, q, data, i + 1);
      }
    }
  }

  /** A concrete failure: a value of so many plain bytes, in one buffer, that the sum is 2^32. Counted at once it
      comes to 0, so a single call accepts it, while the same bytes in small pieces overflow the header limit. */
  lemma CountWraps(cfg: Config, p: Parser)
    requires p.state.HeaderValue? && p.hstate.General? && p.nread < cfg.maxHeader < UINT32_SPAN - 1
    ensures var n := UINT32_SPAN - p.nread;
      && Counted(Counted(p, 1), n - 1).nread == 0 && CountsAtOnce(p.nread, n, cfg.maxHeader)
      && var r := Run(cfg, p, Filler(n), 0); r.stop.Failed? && r.p.errno == HeaderOverflow
  {
    hide Run;
    var n := UINT32_SPAN - p.nread;
    OneByOneExact(p.nread, n, cfg.maxHeader);
    PlainRuns(cfg, p, Filler(n), 0);
  }

  // ---------------------------------------------------------------- every count can be that of a header

  /** A request parser as http_parser_init leaves it. */
  const FRESH := Parser(Request, NO_FLAGS, StartReq, General, 0, 0, 0, 0, 0, 0, 0, Ok, false)

  /** "GET / HTTP/1.1", the end of the line, "a:" and the first byte of the value. */
  const OPENING: seq<byte> := [71, 69, 84, 32, 47, 32, 72, 84, 84, 80, 47, 49, 46, 49, 13, 10, 97, 58, 97]

  /** The record after i bytes of the opening. */
  function Opened(i: nat): Parser {
    var line := FRESH.(nread := i, contentLength := NO_LENGTH, methodId := 1);
    var versioned := line.(index := 4, major := 1);
    var named := versioned.(minor := 1, index := 0);
    match i
    case 0 => FRESH
    case 1 => line.(state := ReqMethod, index := 1)
    case 2 => line.(state := ReqMethod, index := 2)
    case 3 => line.(state := ReqMethod, index := 3)
    case 4 => line.(state := ReqSpacesBeforeUrl, index := 4)
    case 5 => line.(state := ReqPath, index := 4)
    case 6 => line.(state := ReqHttpStart, index := 4)
    case 7 => line.(state := ReqHttpH, index := 4)
    case 8 => line.(state := ReqHttpHT, index := 4)
    case 9 => line.(state := ReqHttpHTT, index := 4)
    case 10 => line.(state := ReqHttpHTTP, index := 4)
    case 11 => line.(state := ReqHttpMajor, index := 4)
    case 12 => versioned.(state := ReqHttpDot)
    case 13 => versioned.(state := ReqHttpMinor)
    case 14 => versioned.(state := ReqHttpEnd, minor := 1)
    case 15 => versioned.(state := ReqLineAlmostDone, minor := 1)
    case 16 => versioned.(state := HeaderFieldStart, minor := 1)
    case 17 => named.(state := HeaderField)
    case 18 => named.(state := HeaderValueDiscardWs)
    case _ => named.(state := HeaderValue)
  }

  predicate Opens(cfg: Config, i: nat)
    requires i < 19
  {
    && ParsingHeader(Opened(i).state) && Opened(i).nread == i
    && var o := StepOnce(cfg, Counted(Opened(i), 1), OPENING[i]); o.ctl.Next? && o.p == Opened(i + 1)
  }

  lemma MethodOpens(cfg: Config, i: nat)
    requires i < 4
    ensures Opens(cfg, i)
  {
    hide StepStatusLine, StepUrl, StepVersion, StepName, StepValue,
         StepHeadersEnd, StepHeadersDone, StepBody, StepChunk;
  }

  lemma UrlOpens(cfg: Config, i: nat)
    requires 4 <= i < 6
    ensures Opens(cfg, i)
  {
    hide StepStart, StepStatusLine, StepMethod, StepVersion, StepName, StepValue,
         StepHeadersEnd, StepHeadersDone, StepBody, StepChunk;
  }

  lemma ProtocolOpens(cfg: Config, i: nat)
    requires 6 <= i < 11
    ensures Opens(cfg, i)
  {
    hide StepStart, StepStatusLine, StepMethod, StepUrl, StepName, StepValue,
         StepHeadersEnd, StepHeadersDone, StepBody, StepChunk;
  }

  lemma VersionOpens(cfg: Config, i: nat)
    requires 11 <= i < 16
    ensures Opens(cfg, i)
  {
    hide StepStart, StepStatusLine, StepMethod, StepUrl, StepName, StepValue,
         StepHeadersEnd, StepHeadersDone, StepBody, StepChunk;
  }

  lemma NameOpens(cfg: Config, i: nat)
    requires 16 <= i < 18
    ensures Opens(cfg, i)
  {
    hide StepStart, StepStatusLine, StepMethod, StepUrl, StepVersion, StepValue,
         StepHeadersEnd, StepHeadersDone, StepBody, StepChunk;
  }

  lemma ValueOpens(cfg: Config)
    ensures Opens(cfg, 18)
  {
    hide StepStart, StepStatusLine, StepMethod, StepUrl, StepVersion, StepName,
         StepHeadersEnd, StepHeadersDone, StepBody, StepChunk;
  }

  lemma OpeningStep(cfg: Config, i: nat)
    requires i < 19
    ensures Opens(cfg, i)
  {
    hide Opens;
    if i < 4 {
      MethodOpens(cfg, i);
    } else if i < 6 {
      UrlOpens(cfg, i);
    } else if i < 11 {
      ProtocolOpens(cfg, i);
    } else if i < 16 {
      VersionOpens(cfg, i);
    } else if i < 18 {
      NameOpens(cfg, i);
    } else {
      ValueOpens(cfg);
    }
  }

  lemma {:induction false} OpeningRuns(cfg: Config, i: nat)
    requires i <= 19 <= cfg.maxHeader
    ensures var r := Run(cfg, Opened(i), OPENING, i); r.stop.Running? && r.p == Opened(19)
    decreases 19 - i
  {
    hide StepOnce, TurnTrace, Opened, RunCounted;
    if i < 19 {
      OpeningStep(cfg, i);
      RunTurn(cfg, Counted(Opened(i), 1), OPENING, i);
      OpeningRuns(cfg, i + 1);
    }
  }

  /** From 19 bytes to the limit, every count is reached within a plain header value. */
  lemma CountReached(cfg: Config, c: nat)
    requires 19 <= c <= cfg.maxHeader < UINT32_SPAN
    ensures exists data: seq<byte> ::
      var r := Run(cfg, FRESH, data, 0);
      r.stop.Running? && r.p.state.HeaderValue? && r.p.hstate.General? && r.p.nread == c
  {
    hide Run;
    assert Opened(0) == FRESH;
    OpeningRuns(cfg, 0);
    OneByOneExact(19, c - 19, cfg.maxHeader);
    PlainRuns(cfg, Opened(19), Filler(c - 19), 0);
    RunAppend(cfg, FRESH, OPENING, Filler(c - 19), 0);
    var r := Run(cfg, FRESH, OPENING + Filler(c - 19), 0);
    assert r.p.nread == c;
  }
}
