/** http_parser_execute: the loop over a buffer with its mark pointers, its inner loops over names
    and values and its bulk skips over bodies, proved to be the fold of module HttpSpec. */
module HttpExecute {
  import opened Bytes
  import opened HttpTypes
  import opened HttpStep
  import opened HttpSpec
  import opened HttpInvariant
  import opened HttpJoins
  import opened HttpMarks

  /** COUNT_HEADER_SIZE adds a whole name or value at once on a 32-bit word; the sum cannot wrap
      when the limit and the buffer together do not exceed 2^32 (HttpLimit.CountFitsExact, where a limit
      of 2^32 - 1, which limits nothing, is the one other case). */
  predicate CountFits(cfg: Config, data: seq<byte>) {
    cfg.maxHeader < UINT32_SPAN - 1 && cfg.maxHeader + |data| <= UINT32_SPAN
  }

  // ---------------------------------------------------------------- where a run stands

  /** The fold has failed on the header limit. */
  predicate Doomed(goal: Result) {
    goal.stop.Failed? && goal.p.errno.HeaderOverflow?
  }

  /** Delivered and pending data, followed by the rest of the fold, make up the whole fold: before
      byte i is counted. */
  ghost predicate Between(cfg: Config, goal: Result, rec: Parser, calls: seq<Callback>, marks: Marks,
                          data: seq<byte>, i: nat)
  {
    && i <= |data| && MarksFit(rec.state, marks, i) && AtBoundary(cfg, rec)
    && var had := Handed(calls, rec.state, marks, data, i);
       Leads(rec.state, Last(had)) && Prepend(had, Run(cfg, rec, data, i)) == goal
  }

  /** The same within byte i, once it is counted. */
  ghost predicate Inside(cfg: Config, goal: Result, rec: Parser, calls: seq<Callback>, marks: Marks,
                         data: seq<byte>, i: nat)
  {
    && i < |data| && MarksFit(rec.state, marks, i) && WithinByte(cfg, rec)
    && var had := Handed(calls, rec.state, marks, data, i);
       Leads(rec.state, Last(had)) && Prepend(had, RunCounted(cfg, rec, data, i)) == goal
  }

  /** A failure: the fold fails too, and unless it fails on the header limit it fails at the same
      byte with the same error, having delivered what was delivered here and perhaps more. */
  ghost predicate Broken(goal: Result, rec: Parser, calls: seq<Callback>, used: nat) {
    && rec.errno != Ok
    && goal.stop.Failed?
    && (!Doomed(goal) ==>
          goal.p.errno == rec.errno && goal.used == used && Flatten(calls) <= goal.trace)
  }

  ghost predicate Resolved(cfg: Config, goal: Result, ctl: Control, rec: Parser, calls: seq<Callback>,
                           marks: Marks, data: seq<byte>, q: nat)
  {
    && q < |data|
    && match ctl
       case Next => Between(cfg, goal, rec, calls, marks, data, q + 1)
       case Again => Inside(cfg, goal, rec, calls, marks, data, q)
       case Exit => AtBoundary(cfg, rec) && goal == Result(rec, Flatten(calls), q + 1, Exited)
       case Fail(_) => Broken(goal, rec, calls, q)
  }

  // ---------------------------------------------------------------- one turn outside the bulk skips

  lemma TurnResolves(cfg: Config, goal: Result, rec: Parser, calls: seq<Callback>, marks: Marks,
                     data: seq<byte>, i: nat)
    requires Inside(cfg, goal, rec, calls, marks, data, i) && !Skipping(rec.state)
    ensures var o := StepOnce(cfg, rec, data[i]);
      && |o.note| <= 1 && (forall e <- o.note :: e.Notified?)
      && Resolved(cfg, goal, o.ctl, o.p,
                  if o.ctl.Fail? then calls + NoteCalls(o.note) else CallsAfter(calls, marks, o, data, i),
                  MarksAfter(marks, o, i), data, i)
      && (o.ctl.Again? ==> Rank(o.p.state) < Rank(rec.state))
  {
    var o := StepOnce(cfg, rec, data[i]);
    TurnIsDisciplined(cfg, rec, data[i]);
    TurnSurvives(cfg, rec, data[i]);
    RunTurn(cfg, rec, data, i);
    var had := Handed(calls, rec.state, marks, data, i);
    var t := TurnTrace(rec.state, o, data[i]);
    TurnMarks(cfg, rec, data[i]);
    TurnLeads(cfg, rec, data[i], Last(had));
    LastOfIs(rec.state, had, o, data[i]);
    if o.ctl.Fail? {
      FailKeepsAccounts(rec, o, calls, marks, data, i);
    } else if o.ctl.Exit? {
      ExitKeepsAccounts(rec, o, calls, marks, data, i);
    } else {
      TurnKeepsAccounts(rec, o, calls, marks, data, i);
    }
    hide StepOnce, TurnTrace, Handed, Flatten, MarksAfter, CallsAfter, NoteCalls, MarksFit, KeepsMarks, MarkFits, Leads,
         LastOf, Last, Skipping, Rank, LiveKind, ParsingHeader, Run, RunCounted, AtBoundary, WithinByte;
    if o.ctl.Next? {
      PrependTwice(had, t, Run(cfg, o.p, data, i + 1));
    } else if o.ctl.Again? {
      PrependTwice(had, t, RunCounted(cfg, o.p, data, i));
    }
  }

  // ---------------------------------------------------------------- names and values

  /** Where the fold stands when an inner loop over header bytes, entered at start, is at byte j.
      The loop settles its account with COUNT_HEADER_SIZE only when it ends, so rec still holds the
      count at start; the fold may have failed on the limit in between. */
  ghost predicate Lag(cfg: Config, goal: Result, rec: Parser, had: seq<Event>, data: seq<byte>, start: nat, j: nat)
  {
    && start <= j <= |data|
    && var n := rec.nread + (j - start);
       if j < |data| then
         if n <= cfg.maxHeader then Prepend(had, RunCounted(cfg, rec.(nread := n), data, j)) == goal
         else Doomed(goal)
       else
         if n <= cfg.maxHeader + 1 && n > 0 then
           Prepend(had, Result(rec.(nread := n - 1), [], |data|, Running)) == goal
         else Doomed(goal)
  }

  /** One byte further in an inner loop. */
  lemma LagStep(cfg: Config, goal: Result, rec: Parser, next: Parser, had: seq<Event>, e: Event,
                data: seq<byte>, start: nat, j: nat)
    requires Lag(cfg, goal, rec, had, data, start, j) && j < |data| && CountFits(cfg, data)
    requires next.nread == rec.nread && ParsingHeader(next.state)
    requires rec.nread + (j - start) <= cfg.maxHeader ==>
      var p := rec.(nread := rec.nread + (j - start));
      var o := StepOnce(cfg, p, data[j]);
      o.ctl.Next? && o.p == next.(nread := p.nread) && TurnTrace(p.state, o, data[j]) == [e]
    ensures Lag(cfg, goal, next, had + [e], data, start, j + 1)
  {
    hide StepOnce, TurnTrace, ParsingHeader;
    var n := rec.nread + (j - start);
    if n <= cfg.maxHeader {
      var p := rec.(nread := n);
      RunTurn(cfg, p, data, j);
      hide RunCounted;
      PrependTwice(had, [e], Run(cfg, next.(nread := n), data, j + 1));
    }
  }

  /** An inner loop that has used up the buffer: the remaining count is added and the fold is at
      the same place, or both have failed. */
  lemma LagEnds(cfg: Config, goal: Result, rec: Parser, had: seq<Event>, data: seq<byte>, start: nat)
    requires start < |data| && Lag(cfg, goal, rec, had, data, start, |data|)
    requires CountFits(cfg, data) && rec.nread <= cfg.maxHeader
    ensures var p := Counted(rec, |data| - 1 - start);
      && p == rec.(nread := rec.nread + (|data| - 1 - start))
      && if p.nread <= cfg.maxHeader then Prepend(had, Run(cfg, p, data, |data|)) == goal else Doomed(goal)
  {
    hide RunCounted;
  }

  /** An inner loop that stops at byte j: the count is added and the fold is within byte j. */
  lemma LagStops(cfg: Config, goal: Result, rec: Parser, had: seq<Event>, data: seq<byte>, start: nat, j: nat)
    requires j < |data| && Lag(cfg, goal, rec, had, data, start, j)
    requires CountFits(cfg, data) && rec.nread <= cfg.maxHeader
    ensures var p := Counted(rec, j - start);
      && p == rec.(nread := rec.nread + (j - start))
      && if p.nread <= cfg.maxHeader then Prepend(had, RunCounted(cfg, p, data, j)) == goal else Doomed(goal)
  {
    hide RunCounted;
  }

  lemma NameTurn(cfg: Config, p: Parser, ch: byte)
    requires p.state.HeaderField? && Token(ch) != 0
    ensures var o := StepOnce(cfg, p, ch);
      && o.ctl.Next? && o.p == NameStep(p, Token(ch)) && TurnTrace(p.state, o, ch) == [Data(Field, ch)]
  {
    NameStepStays(p, Token(ch));
    hide NameStep, Token;
  }

  /** The nested machine of names does not look at the count. */
  lemma NameStepCount(p: Parser, c: byte, n: nat)
    ensures NameStep(p.(nread := n), c) == NameStep(p, c).(nread := n)
  {
  }

  lemma ValueTurn(cfg: Config, p: Parser, ch: byte)
    requires p.state.HeaderValue? && ch != CR && ch != LF && (cfg.lenient || IsHeaderChar(ch))
    ensures var o := StepOnce(cfg, p, ch);
      && o == ValueStep(p, ch)
      && (o.ctl.Next? ==> TurnTrace(p.state, o, ch) == [Data(Value, ch)])
      && (o.ctl.Fail? ==> TurnTrace(p.state, o, ch) == [])
  {
    ValueStepStays(p, ch);
    hide ValueStep, IsHeaderChar;
  }

  lemma LengthStepCount(p: Parser, ch: byte, n: nat)
    ensures LengthStep(p.(nread := n), ch) == LengthStep(p, ch).(p := LengthStep(p, ch).p.(nread := n))
  {
  }

  lemma ValueMatchCount(p: Parser, c: byte, miss: HeaderState, n: nat)
    ensures ValueMatch(p.(nread := n), c, miss) == ValueMatch(p, c, miss).(nread := n)
  {
  }

  lemma TokenEndCount(p: Parser, ch: byte, n: nat)
    ensures TokenEnd(p.(nread := n), ch) == TokenEnd(p, ch).(nread := n)
  {
  }

  /** Nor does the nested machine of values. */
  lemma ValueStepCount(p: Parser, ch: byte, n: nat)
    ensures ValueStep(p.(nread := n), ch) == ValueStep(p, ch).(p := ValueStep(p, ch).p.(nread := n))
  {
    hide LengthStep, ValueMatch, TokenEnd, Lower, Token;
    match p.hstate
    case ContentLength => LengthStepCount(p.(hstate := ContentLengthNum), ch, n);
    case ContentLengthNum => LengthStepCount(p, ch, n);
    case MatchingChunked => ValueMatchCount(p, Lower(ch), General, n);
    case MatchingKeepAlive => ValueMatchCount(p, Lower(ch), MatchingToken, n);
    case MatchingClose => ValueMatchCount(p, Lower(ch), MatchingToken, n);
    case MatchingConnUpgrade => ValueMatchCount(p, Lower(ch), MatchingToken, n);
    case ConnKeepAlive => TokenEndCount(p, ch, n);
    case ConnClose => TokenEndCount(p, ch, n);
    case ConnUpgrade => TokenEndCount(p, ch, n);
    case _ =>
  }

  /** The data of the running name or value up to byte j. */
  ghost function Had(calls: seq<Callback>, kind: DataKind, marks: Marks, data: seq<byte>, j: nat): seq<Event>
    requires j <= |data| && kind in marks && marks[kind] <= j
  {
    Flatten(calls) + Spread(Flatten(calls), DataCall(kind, data[marks[kind]..j]))
  }

  lemma HadGrows(calls: seq<Callback>, kind: DataKind, marks: Marks, data: seq<byte>, j: nat)
    requires j < |data| && kind in marks && marks[kind] <= j
    ensures Had(calls, kind, marks, data, j + 1) == Had(calls, kind, marks, data, j) + [Data(kind, data[j])]
  {
    SpreadGrows(Flatten(calls), kind, data, marks[kind], j);
    hide Spread, Flatten;
  }

  /** An inner loop over a name or a value, entered at start, is at byte j. */
  ghost predicate Scanning(cfg: Config, goal: Result, rec: Parser, calls: seq<Callback>, marks: Marks,
                           data: seq<byte>, start: nat, j: nat)
  {
    && start <= j <= |data| && start < |data| && CountFits(cfg, data)
    && Legal(rec) && 1 <= rec.nread <= cfg.maxHeader
    && (rec.state.HeaderField? || rec.state.HeaderValue?)
    && MarksFit(rec.state, marks, start)
    && Lag(cfg, goal, rec, Had(calls, StrictKind(rec.state).value, marks, data, j), data, start, j)
  }

  lemma ScanStarts(cfg: Config, goal: Result, rec: Parser, calls: seq<Callback>, marks: Marks,
                   data: seq<byte>, start: nat)
    requires Inside(cfg, goal, rec, calls, marks, data, start) && CountFits(cfg, data)
    requires rec.state.HeaderField? || rec.state.HeaderValue?
    ensures start < |data| && Scanning(cfg, goal, rec, calls, marks, data, start, start)
  {
    hide LiveKind, RunCounted, Spread, Flatten, Nested, Framed, Leads, Handed, Had;
    ScanHands(calls, rec.state, marks, data, start, start);
  }

  /** Within a name or a value, what is handed over is the data of it so far. */
  lemma ScanHands(calls: seq<Callback>, s: State, marks: Marks, data: seq<byte>, start: nat, j: nat)
    requires (s.HeaderField? || s.HeaderValue?) && MarksFit(s, marks, start) && start <= j <= |data|
    ensures StrictKind(s).Some? && StrictKind(s).value in marks && marks[StrictKind(s).value] <= j && MarksFit(s, marks, j)
    ensures var had := Had(calls, StrictKind(s).value, marks, data, j);
      Handed(calls, s, marks, data, j) == had && Leads(s, Last(had))
  {
    hide Flatten, Leads, LiveKind;
    StrictIsLive(s);
    StrictLeads(s, Last(Had(calls, StrictKind(s).value, marks, data, j)));
  }

  lemma ScanBounds(cfg: Config, rec: Parser, n: nat)
    requires Legal(rec) && (rec.state.HeaderField? || rec.state.HeaderValue?)
    requires 1 <= rec.nread && rec.nread + n <= cfg.maxHeader < UINT32_SPAN
    ensures var p := rec.(nread := rec.nread + n); AtBoundary(cfg, p) && WithinByte(cfg, p)
  {
    hide NameState, ValueState;
  }

  /** The loop has used up the buffer: it adds the remaining count. */
  lemma ScanEnds(cfg: Config, goal: Result, rec: Parser, calls: seq<Callback>, marks: Marks,
                 data: seq<byte>, start: nat)
    requires Scanning(cfg, goal, rec, calls, marks, data, start, |data|)
    ensures var p := Counted(rec, |data| - 1 - start);
      if p.nread <= cfg.maxHeader then Between(cfg, goal, p, calls, marks, data, |data|) else Doomed(goal)
  {
    hide LiveKind, StrictKind, Run, RunCounted, Flatten, Lag, Leads, Handed, Had, MarksFit, Legal, AtBoundary;
    ScanHands(calls, rec.state, marks, data, start, |data|);
    var n := |data| - 1 - start;
    LagEnds(cfg, goal, rec, Had(calls, StrictKind(rec.state).value, marks, data, |data|), data, start);
    if Counted(rec, n).nread <= cfg.maxHeader {
      ScanBounds(cfg, rec, n);
    }
  }

  /** The loop stops at byte j: it adds the remaining count and turns to that byte. */
  lemma ScanStops(cfg: Config, goal: Result, rec: Parser, calls: seq<Callback>, marks: Marks,
                  data: seq<byte>, start: nat, j: nat)
    requires j < |data| && Scanning(cfg, goal, rec, calls, marks, data, start, j)
    ensures var p := Counted(rec, j - start);
      if p.nread <= cfg.maxHeader then Inside(cfg, goal, p, calls, marks, data, j) else Doomed(goal)
  {
    hide LiveKind, StrictKind, Run, RunCounted, Flatten, Lag, Leads, Handed, Had, MarksFit, Legal, WithinByte;
    ScanHands(calls, rec.state, marks, data, start, j);
    LagStops(cfg, goal, rec, Had(calls, StrictKind(rec.state).value, marks, data, j), data, start, j);
    if Counted(rec, j - start).nread <= cfg.maxHeader {
      ScanBounds(cfg, rec, j - start);
    }
  }

  lemma NameLag(cfg: Config, goal: Result, rec: Parser, calls: seq<Callback>, marks: Marks,
                data: seq<byte>, start: nat, j: nat)
    requires rec.state.HeaderField? && Field in marks && marks[Field] <= j < |data| && Token(data[j]) != 0
    requires start <= j
    requires Lag(cfg, goal, rec, Had(calls, Field, marks, data, j), data, start, j) && CountFits(cfg, data)
    ensures Lag(cfg, goal, NameStep(rec, Token(data[j])), Had(calls, Field, marks, data, j + 1), data, start, j + 1)
  {
    hide StepOnce, TurnTrace, NameStep, Token, Lag, Had;
    var n := rec.nread + (j - start);
    NameTurn(cfg, rec.(nread := n), data[j]);
    NameStepCount(rec, Token(data[j]), n);
    NameStepStays(rec, Token(data[j]));
    HadGrows(calls, Field, marks, data, j);
    LagStep(cfg, goal, rec, NameStep(rec, Token(data[j])), Had(calls, Field, marks, data, j),
            Data(Field, data[j]), data, start, j);
  }

  lemma ValueLag(cfg: Config, goal: Result, rec: Parser, calls: seq<Callback>, marks: Marks,
                 data: seq<byte>, start: nat, j: nat)
    requires rec.state.HeaderValue? && Value in marks && marks[Value] <= j < |data|
    requires data[j] != CR && data[j] != LF && (cfg.lenient || IsHeaderChar(data[j]))
    requires start <= j
    requires Lag(cfg, goal, rec, Had(calls, Value, marks, data, j), data, start, j) && CountFits(cfg, data)
    requires ValueStep(rec, data[j]).ctl.Next?
    ensures Lag(cfg, goal, ValueStep(rec, data[j]).p, Had(calls, Value, marks, data, j + 1), data, start, j + 1)
  {
    hide StepOnce, TurnTrace, ValueStep, IsHeaderChar, Lag, Had;
    var n := rec.nread + (j - start);
    ValueTurn(cfg, rec.(nread := n), data[j]);
    ValueStepCount(rec, data[j], n);
    ValueStepStays(rec, data[j]);
    HadGrows(calls, Value, marks, data, j);
    LagStep(cfg, goal, rec, ValueStep(rec, data[j]).p, Had(calls, Value, marks, data, j),
            Data(Value, data[j]), data, start, j);
  }

  lemma LegalNested(rec: Parser)
    requires Legal(rec)
    ensures rec.state.HeaderField? ==> NameState(rec.hstate)
    ensures rec.state.HeaderValue? ==> !rec.hstate.Connection? && !rec.hstate.TransferEncoding?
  {
    hide IndexFits;
  }

  lemma NameScans(cfg: Config, goal: Result, rec: Parser, calls: seq<Callback>, marks: Marks,
                  data: seq<byte>, start: nat, j: nat)
    requires Scanning(cfg, goal, rec, calls, marks, data, start, j)
    requires j < |data| && rec.state.HeaderField? && Token(data[j]) != 0
    ensures NameState(rec.hstate)
    ensures var next := NameStep(rec, Token(data[j]));
      next.state.HeaderField? && Scanning(cfg, goal, next, calls, marks, data, start, j + 1)
    ensures rec.hstate.General? ==> NameStep(rec, Token(data[j])) == rec
  {
    assert rec.hstate.General? ==> NameStep(rec, Token(data[j])) == rec;
    hide NameStep, Token, Lag, Had, Legal, LiveKind;
    NameLag(cfg, goal, rec, calls, marks, data, start, j);
    NameStepStays(rec, Token(data[j]));
    NameStepSurvives(rec, Token(data[j]));
    LegalNested(rec);
  }

  /** The error, if any, that a byte of a value other than CR and LF raises. */
  predicate ValueError(cfg: Config, rec: Parser, ch: byte, e: Errno) {
    if !cfg.lenient && !IsHeaderChar(ch) then e == InvalidHeaderToken else ValueStep(rec, ch).ctl == Fail(e)
  }

  lemma ValueErrorCount(cfg: Config, p: Parser, ch: byte, e: Errno, n: nat)
    requires p.state.HeaderValue? && ValueError(cfg, p, ch, e)
    ensures ValueError(cfg, p.(nread := n), ch, e)
  {
    ValueStepCount(p, ch, n);
    hide ValueStep, IsHeaderChar;
  }

  lemma ValueFails(cfg: Config, p: Parser, ch: byte, e: Errno)
    requires p.state.HeaderValue? && ch != CR && ch != LF && ValueError(cfg, p, ch, e)
    ensures var o := StepOnce(cfg, p, ch);
      o.ctl.Fail? && o.p.errno == e && e != Ok && e != HeaderOverflow && TurnTrace(p.state, o, ch) == []
  {
    ValueStepStays(p, ch);
    hide ValueStep, IsHeaderChar;
  }

  /** An error inside a value. */
  lemma ValueBreaks(cfg: Config, goal: Result, rec: Parser, calls: seq<Callback>, marks: Marks,
                    data: seq<byte>, start: nat, j: nat, e: Errno)
    requires Scanning(cfg, goal, rec, calls, marks, data, start, j) && j < |data| && rec.state.HeaderValue?
    requires data[j] != CR && data[j] != LF && ValueError(cfg, rec, data[j], e)
    ensures Broken(goal, rec.(errno := e), calls, j)
  {
    ScanStops(cfg, goal, rec, calls, marks, data, start, j);
    var p := Counted(rec, j - start);
    ValueErrorCount(cfg, rec, data[j], e, p.nread);
    ValueFails(cfg, p, data[j], e);
    RunTurn(cfg, p, data, j);
    hide ValueError, StepOnce, TurnTrace, RunCounted, Scanning, WithinByte, MarksFit, Pending, Flatten;
  }

  lemma ValueScans(cfg: Config, goal: Result, rec: Parser, calls: seq<Callback>, marks: Marks,
                   data: seq<byte>, start: nat, j: nat)
    requires Scanning(cfg, goal, rec, calls, marks, data, start, j)
    requires j < |data| && rec.state.HeaderValue? && data[j] != CR && data[j] != LF
    requires cfg.lenient || IsHeaderChar(data[j])
    ensures !rec.hstate.Connection? && !rec.hstate.TransferEncoding?
    ensures var o := ValueStep(rec, data[j]);
      if o.ctl.Fail? then Broken(goal, o.p, calls, j)
      else o.ctl.Next? && o.p.state.HeaderValue? && Scanning(cfg, goal, o.p, calls, marks, data, start, j + 1)
    ensures rec.hstate.General? ==> ValueStep(rec, data[j]) == Stay(rec)
  {
    hide Lag, Had, Legal, LiveKind, Flatten;
    var o := ValueStep(rec, data[j]);
    ValueStepStays(rec, data[j]);
    LegalNested(rec);
    if o.ctl.Fail? {
      ValueBreaks(cfg, goal, rec, calls, marks, data, start, j, o.p.errno);
      assert Broken(goal, o.p, calls, j);
    } else {
      ValueStepSurvives(rec, data[j]);
      ValueLag(cfg, goal, rec, calls, marks, data, start, j);
    }
  }

  /** Past the header limit the bound of the inner loop over an unmatched value may jump over a
      byte; by then the fold has failed on the limit, and so will the loop. */
  lemma ScanJumps(cfg: Config, goal: Result, rec: Parser, calls: seq<Callback>, marks: Marks,
                  data: seq<byte>, start: nat, j: nat)
    requires Scanning(cfg, goal, rec, calls, marks, data, start, j) && start + cfg.maxHeader <= j < |data|
    ensures Scanning(cfg, goal, rec, calls, marks, data, start, j + 1)
  {
    hide RunCounted, Letters, Flatten, LiveKind;
  }

  lemma ValueEndTurn(cfg: Config, p: Parser, ch: byte)
    requires p.state.HeaderValue? && (ch == CR || ch == LF)
    ensures StepOnce(cfg, p, ch) == Outcome(p.(state := HeaderAlmostDone), None, Some(Value), [],
                                            if ch == CR then Next else Again)
  {
  }

  lemma ValueEndResolves(cfg: Config, goal: Result, p: Parser, calls: seq<Callback>, marks: Marks,
                         data: seq<byte>, j: nat)
    requires Inside(cfg, goal, p, calls, marks, data, j) && p.state.HeaderValue?
    requires data[j] == CR || data[j] == LF
    ensures Value in marks && marks[Value] <= j
    ensures Resolved(cfg, goal, if data[j] == CR then Next else Again, p.(state := HeaderAlmostDone),
                     calls + [DataCall(Value, data[marks[Value]..j])], marks - {Value}, data, j)
  {
    hide LiveKind, RunCounted, Flatten, Pending, WithinByte, StepOnce, Resolved, NoteCalls, CallsAfter, MarksAfter;
    StrictIsLive(p.state);
    ValueEndTurn(cfg, p, data[j]);
    TurnResolves(cfg, goal, p, calls, marks, data, j);
    DeliversOnly(calls, marks, StepOnce(cfg, p, data[j]), Value, data, j);
  }

  /** CR or LF after a value: the value is delivered, and LF is looked at again. The count and the
      delivery may come in either order. */
  lemma ValueStops(cfg: Config, goal: Result, rec: Parser, calls: seq<Callback>, marks: Marks,
                   data: seq<byte>, start: nat, j: nat)
    requires Scanning(cfg, goal, rec, calls, marks, data, start, j) && j < |data| && rec.state.HeaderValue?
    requires data[j] == CR || data[j] == LF
    ensures Value in marks && marks[Value] <= j
    ensures var p := Counted(rec.(state := HeaderAlmostDone), j - start);
      if p.nread > cfg.maxHeader then Doomed(goal)
      else Resolved(cfg, goal, if data[j] == CR then Next else Again, p,
                    calls + [DataCall(Value, data[marks[Value]..j])], marks - {Value}, data, j)
  {
    hide Resolved, Inside, Lag, Legal, LiveKind;
    ScanStops(cfg, goal, rec, calls, marks, data, start, j);
    var p := Counted(rec, j - start);
    StrictIsLive(rec.state);
    if p.nread <= cfg.maxHeader {
      ValueEndResolves(cfg, goal, p, calls, marks, data, j);
    }
  }

  // ---------------------------------------------------------------- bodies

  lemma BodyTurn(cfg: Config, p: Parser, ch: byte)
    requires p.state.BodyIdentity? || p.state.BodyIdentityEof? || p.state.ChunkData?
    ensures var o := StepOnce(cfg, p, ch);
      && TurnTrace(p.state, o, ch) == [Data(Body, ch)]
      && (p.state.BodyIdentityEof? ==> o.ctl.Next? && o.p == p)
      && (!p.state.BodyIdentityEof? ==>
            if p.contentLength > 1 then o.ctl.Next? && o.p == Consume(p, 1)
            else if p.state.ChunkData? then o.ctl.Next? && o.p == Consume(p, 1).(state := ChunkDataAlmostDone)
            else o.ctl.Again? && o.p == Consume(p, 1).(state := MessageDone))
  {
  }

  lemma RunUncounted(cfg: Config, p: Parser, data: seq<byte>, i: nat)
    requires i < |data| && !ParsingHeader(p.state)
    ensures Run(cfg, p, data, i) == RunCounted(cfg, p, data, i)
  {
    hide RunCounted;
  }

  /** What is left of the fold once a body of known length has been followed from byte i up to e. */
  function AfterBody(cfg: Config, rec: Parser, data: seq<byte>, i: nat, e: nat): Result
    requires i < e <= |data|
  {
    if e - i < rec.contentLength then Run(cfg, Consume(rec, e - i), data, e)
    else if rec.state.ChunkData? then
      Run(cfg, Consume(rec, e - i).(state := ChunkDataAlmostDone), data, e)
    else RunCounted(cfg, Consume(rec, e - i).(state := MessageDone), data, e - 1)
  }

  lemma AfterBodyShift(cfg: Config, rec: Parser, data: seq<byte>, i: nat, e: nat)
    requires i + 1 < e <= |data| && e - i <= rec.contentLength
    ensures AfterBody(cfg, Consume(rec, 1), data, i + 1, e) == AfterBody(cfg, rec, data, i, e)
  {
    hide Run, RunCounted;
  }

  /** The fold over a stretch of a body of known length, in one go. */
  lemma {:induction false} BodyFold(cfg: Config, rec: Parser, data: seq<byte>, i: nat, e: nat)
    requires rec.state.BodyIdentity? || rec.state.ChunkData?
    requires i < e <= |data| && e - i <= rec.contentLength
    ensures RunCounted(cfg, rec, data, i) == Prepend(Letters(Body, data[i..e]), AfterBody(cfg, rec, data, i, e))
    decreases e - i
  {
    BodyTurn(cfg, rec, data[i]);
    RunTurn(cfg, rec, data, i);
    var first := [Data(Body, data[i])];
    assert data[i..i + 1] == [data[i]];
    assert Letters(Body, data[i..i + 1]) == first;
    hide StepOnce, TurnTrace, Run, RunCounted, Letters, ParsingHeader;
    if e - i > 1 {
      BodyStretch(cfg, rec, data, i, e);
      LettersJoin(Body, data, i, i + 1, e);
    }
  }

  lemma {:induction false} BodyStretch(cfg: Config, rec: Parser, data: seq<byte>, i: nat, e: nat)
    requires rec.state.BodyIdentity? || rec.state.ChunkData?
    requires i + 1 < e <= |data| && e - i <= rec.contentLength
    ensures Prepend([Data(Body, data[i])], Run(cfg, Consume(rec, 1), data, i + 1))
            == Prepend([Data(Body, data[i])] + Letters(Body, data[i + 1..e]), AfterBody(cfg, rec, data, i, e))
    decreases e - i, 0
  {
    var rest := Consume(rec, 1);
    RunUncounted(cfg, rest, data, i + 1);
    BodyFold(cfg, rest, data, i + 1, e);
    AfterBodyShift(cfg, rec, data, i, e);
    hide Run, RunCounted, AfterBody, Letters;
    PrependTwice([Data(Body, data[i])], Letters(Body, data[i + 1..e]), AfterBody(cfg, rec, data, i, e));
  }

  /** The fold over a body that ends with the connection. */
  lemma {:induction false} EofFold(cfg: Config, rec: Parser, data: seq<byte>, i: nat)
    requires rec.state.BodyIdentityEof? && i < |data|
    ensures RunCounted(cfg, rec, data, i) == Prepend(Letters(Body, data[i..|data|]), Run(cfg, rec, data, |data|))
    decreases |data| - i
  {
    hide StepOnce, TurnTrace, RunCounted;
    BodyTurn(cfg, rec, data[i]);
    RunTurn(cfg, rec, data, i);
    assert Letters(Body, data[i..i + 1]) == [Data(Body, data[i])];
    LettersJoin(Body, data, i, i + 1, |data|);
    if i + 1 < |data| {
      EofFold(cfg, rec, data, i + 1);
      RunUncounted(cfg, rec, data, i + 1);
      PrependTwice([Data(Body, data[i])], Letters(Body, data[i + 1..|data|]), Run(cfg, rec, data, |data|));
    }
  }

  /** The states in which data of a body may be pending; anything may have come before it. */
  lemma BodyStates(s: State, last: Option<Event>)
    ensures Skipping(s) || s.ChunkDataAlmostDone? ==> LiveKind(s) == Some(Body) && StrictKind(s) == None
    ensures Skipping(s) || s.ChunkDataAlmostDone? || s.MessageDone? ==> Leads(s, last)
  {
  }

  /** What the source asserts before it skips. */
  lemma SkipAsserts(cfg: Config, goal: Result, rec: Parser, calls: seq<Callback>, marks: Marks, data: seq<byte>, i: nat)
    requires Inside(cfg, goal, rec, calls, marks, data, i) && Skipping(rec.state)
    ensures i < |data| && (rec.state.ChunkData? ==> rec.flags.chunked)
    ensures !rec.state.BodyIdentityEof? ==> rec.contentLength != 0 && rec.contentLength != NO_LENGTH
  {
    hide Handed, RunCounted, Leads, MarksFit, Nested;
  }

  /** The mark of a skip covers what was pending and what is skipped, in every body state it may lead to. */
  lemma SkipHands(calls: seq<Callback>, s: State, t: State, marks: Marks, data: seq<byte>, i: nat, e: nat)
    requires Skipping(s) && MarksFit(s, marks, i) && i < e <= |data| && (Skipping(t) || t.ChunkDataAlmostDone?)
    ensures var marked := Marked(marks, Some(Body), i);
      && marked.Keys == {Body} && marked[Body] <= i && MarksFit(t, marked, e)
      && Handed(calls, t, marked, data, e) == Handed(calls, s, marks, data, i) + Letters(Body, data[i..e])
      && Handed(calls, t, marked, data, e) == Flatten(calls) + Spread(Flatten(calls), DataCall(Body, data[marked[Body]..e]))
  {
    hide Flatten, Spread, Letters, StrictKind, LiveKind, Leads;
    BodyStates(s, None);
    BodyStates(t, None);
    SkipCovers(Flatten(calls), s, marks, data, i, e);
    assert Handed(calls, s, marks, data, i) + Letters(Body, data[i..e])
        == Flatten(calls) + (Pending(Flatten(calls), s, marks, data, i) + Letters(Body, data[i..e]));
  }

  /** A stretch of a body of known length, and the fold behind it. */
  lemma SkipFolds(cfg: Config, goal: Result, rec: Parser, calls: seq<Callback>, marks: Marks,
                  data: seq<byte>, i: nat, e: nat, t: State)
    requires Inside(cfg, goal, rec, calls, marks, data, i) && (rec.state.BodyIdentity? || rec.state.ChunkData?)
    requires i < e <= |data| && e - i <= rec.contentLength && (Skipping(t) || t.ChunkDataAlmostDone?)
    ensures var marked := Marked(marks, Some(Body), i);
      && marked.Keys == {Body} && marked[Body] <= i && MarksFit(t, marked, e)
      && Prepend(Handed(calls, t, marked, data, e), AfterBody(cfg, rec, data, i, e)) == goal
      && Handed(calls, t, marked, data, e) == Flatten(calls) + Spread(Flatten(calls), DataCall(Body, data[marked[Body]..e]))
  {
    hide Handed, Flatten, Spread, Letters, AfterBody, RunCounted, Run, Legal, Leads, StrictKind, LiveKind, MarksFit;
    SkipHands(calls, rec.state, t, marks, data, i, e);
    BodyFold(cfg, rec, data, i, e);
    PrependTwice(Handed(calls, rec.state, marks, data, i), Letters(Body, data[i..e]), AfterBody(cfg, rec, data, i, e));
  }

  /** A body of known length, followed to byte e, with bytes of it still to come. */
  lemma SkipContinues(cfg: Config, goal: Result, rec: Parser, calls: seq<Callback>, marks: Marks,
                      data: seq<byte>, i: nat, e: nat)
    requires Inside(cfg, goal, rec, calls, marks, data, i)
    requires rec.state.BodyIdentity? || rec.state.ChunkData?
    requires i < e <= |data| && e - i < rec.contentLength
    ensures Between(cfg, goal, Consume(rec, e - i), calls, Marked(marks, Some(Body), i), data, e)
  {
    hide Handed, Flatten, Spread, Letters, RunCounted, Run, IndexFits, NameState, ValueState, Leads, MarksFit;
    SkipFolds(cfg, goal, rec, calls, marks, data, i, e, rec.state);
    BodyStates(rec.state, Last(Handed(calls, rec.state, Marked(marks, Some(Body), i), data, e)));
  }

  /** The last byte of a chunk. */
  lemma SkipEndsChunk(cfg: Config, goal: Result, rec: Parser, calls: seq<Callback>, marks: Marks,
                      data: seq<byte>, i: nat, e: nat)
    requires Inside(cfg, goal, rec, calls, marks, data, i) && rec.state.ChunkData?
    requires i < e <= |data| && e - i == rec.contentLength
    ensures Between(cfg, goal, Consume(rec, e - i).(state := ChunkDataAlmostDone), calls,
                    Marked(marks, Some(Body), i), data, e)
  {
    hide Handed, Flatten, Spread, Letters, RunCounted, Run, IndexFits, NameState, ValueState, Leads, MarksFit;
    SkipFolds(cfg, goal, rec, calls, marks, data, i, e, ChunkDataAlmostDone);
    BodyStates(ChunkDataAlmostDone, Last(Handed(calls, ChunkDataAlmostDone, Marked(marks, Some(Body), i), data, e)));
  }

  /** The last byte of a body of known length: it is delivered at once, and looked at again. */
  lemma SkipEndsBody(cfg: Config, goal: Result, rec: Parser, calls: seq<Callback>, marks: Marks,
                     data: seq<byte>, i: nat, e: nat)
    requires Inside(cfg, goal, rec, calls, marks, data, i) && rec.state.BodyIdentity?
    requires i < e <= |data| && e - i == rec.contentLength
    ensures var marked := Marked(marks, Some(Body), i);
      && marked.Keys == {Body} && marked[Body] <= e
      && Inside(cfg, goal, Consume(rec, e - i).(state := MessageDone),
                calls + [DataCall(Body, data[marked[Body]..e])], marked - {Body}, data, e - 1)
  {
    hide Handed, Flatten, Spread, Letters, RunCounted, Run, IndexFits, NameState, ValueState, Leads;
    SkipFolds(cfg, goal, rec, calls, marks, data, i, e, rec.state);
    var marked := Marked(marks, Some(Body), i);
    var now := calls + [DataCall(Body, data[marked[Body]..e])];
    FlattenPush(calls, DataCall(Body, data[marked[Body]..e]));
    NothingMarked(now, MessageDone, map[], data, e - 1);
    assert marked - {Body} == map[];
    BodyStates(MessageDone, Last(Flatten(now)));
  }

  /** The rest of the buffer belongs to a body that ends with the connection. */
  lemma SkipToEof(cfg: Config, goal: Result, rec: Parser, calls: seq<Callback>, marks: Marks,
                  data: seq<byte>, i: nat)
    requires Inside(cfg, goal, rec, calls, marks, data, i) && rec.state.BodyIdentityEof?
    ensures Between(cfg, goal, rec, calls, Marked(marks, Some(Body), i), data, |data|)
  {
    hide Handed, Flatten, Spread, Letters, RunCounted, Run, IndexFits, NameState, ValueState, Leads, MarksFit;
    SkipHands(calls, rec.state, rec.state, marks, data, i, |data|);
    BodyStates(rec.state, Last(Handed(calls, rec.state, Marked(marks, Some(Body), i), data, |data|)));
    EofFold(cfg, rec, data, i);
    PrependTwice(Handed(calls, rec.state, marks, data, i), Letters(Body, data[i..|data|]), Run(cfg, rec, data, |data|));
  }

  // ---------------------------------------------------------------- the whole call

  /** What a call of http_parser_execute on a non-empty buffer amounts to: it ends with an error
      exactly when the fold does, and otherwise leaves the fold's record, takes the fold's bytes
      and delivers the fold's trace. Only the header limit may be noticed later than in the fold;
      any other error is the fold's, at the same byte. */
  ghost predicate Executes(cfg: Config, before: Parser, had: seq<Callback>, data: seq<byte>,
                           after: Parser, calls: seq<Callback>, used: nat)
  {
    var r := Run(cfg, before, data, 0);
    if r.stop.Failed? then
      && after.errno != Ok
      && (!r.p.errno.HeaderOverflow? ==>
            after.errno == r.p.errno && used == r.used && Flatten(calls) <= Flatten(had) + r.trace)
    else
      after == r.p && used == r.used && Flatten(calls) == Flatten(had) + r.trace
  }

  lemma ExecuteStarts(cfg: Config, rec: Parser, calls: seq<Callback>, data: seq<byte>)
    requires AtBoundary(cfg, rec) && Leads(rec.state, Last(Flatten(calls)))
    ensures Between(cfg, Prepend(Flatten(calls), Run(cfg, rec, data, 0)), rec, calls, Remarked(rec.state), data, 0)
  {
    hide Run, AtBoundary, Flatten, Leads, Pending;
    RemarkedFits(Flatten(calls), rec.state, data);
    assert Flatten(calls) + [] == Flatten(calls);
  }

  /** COUNT_HEADER_SIZE(1) at the head of the loop. */
  lemma ExecuteCounts(cfg: Config, goal: Result, rec: Parser, calls: seq<Callback>, marks: Marks,
                      data: seq<byte>, i: nat)
    requires Between(cfg, goal, rec, calls, marks, data, i) && i < |data| && CountFits(cfg, data)
    ensures if !ParsingHeader(rec.state) then Inside(cfg, goal, rec, calls, marks, data, i)
            else if Counted(rec, 1).nread > cfg.maxHeader then Doomed(goal)
            else Inside(cfg, goal, Counted(rec, 1), calls, marks, data, i)
  {
    hide RunCounted, Flatten, Letters, IndexFits, NameState, ValueState, LiveKind, StrictKind;
    CountingEnters(cfg, rec);
  }

  lemma ExecuteEnds(cfg: Config, before: Parser, had: seq<Callback>, rec: Parser, calls: seq<Callback>,
                    marks: Marks, data: seq<byte>)
    requires Between(cfg, Prepend(Flatten(had), Run(cfg, before, data, 0)), rec, calls, marks, data, |data|)
    ensures |marks.Keys| <= 1
    ensures forall k :: k in marks ==> marks[k] <= |data|
    ensures Executes(cfg, before, had, data, rec, calls + Leftover(marks, data), |data|)
  {
    OneMark(rec.state, marks, |data|);
    LeftoverFlatten(rec.state, calls, marks, data);
    assert Run(cfg, rec, data, |data|) == Result(rec, [], |data|, Running);
    hide Run, Flatten, Pending, AtBoundary, Leftover, LiveKind, StrictKind;
    assert forall k :: k in marks ==> marks[k] <= |data|;
  }

  lemma ExecuteBreaks(cfg: Config, before: Parser, had: seq<Callback>, rec: Parser, calls: seq<Callback>,
                      data: seq<byte>, used: nat)
    requires Broken(Prepend(Flatten(had), Run(cfg, before, data, 0)), rec, calls, used)
    ensures Executes(cfg, before, had, data, rec, calls, used)
  {
    hide Run, Flatten;
  }

  lemma ExecuteOverflows(cfg: Config, before: Parser, had: seq<Callback>, rec: Parser, calls: seq<Callback>,
                         data: seq<byte>, used: nat)
    requires Doomed(Prepend(Flatten(had), Run(cfg, before, data, 0))) && rec.errno != Ok
    ensures Executes(cfg, before, had, data, rec, calls, used)
  {
    hide Run, Flatten;
  }

  lemma ExecuteExits(cfg: Config, before: Parser, had: seq<Callback>, rec: Parser, calls: seq<Callback>,
                     data: seq<byte>, q: nat)
    requires Prepend(Flatten(had), Run(cfg, before, data, 0)) == Result(rec, Flatten(calls), q + 1, Exited)
    ensures Executes(cfg, before, had, data, rec, calls, q + 1)
  {
    hide Run, Flatten;
  }

  /** The call with an empty buffer, which announces the end of the connection. */
  function EndOfInput(rec: Parser): (Parser, seq<Callback>, nat) {
    match rec.state
    case BodyIdentityEof => (rec, [NotifyCall(MessageComplete, Seen(rec))], 0)
    case Dead => (rec, [], 0)
    case StartReqOrRes => (rec, [], 0)
    case StartRes => (rec, [], 0)
    case StartReq => (rec, [], 0)
    case _ => (rec.(errno := InvalidEofState), [], 1)
  }

  // ---------------------------------------------------------------- cutting the input

  function Concat(pieces: seq<seq<byte>>): seq<byte> {
    if pieces == [] then [] else Concat(pieces[..|pieces| - 1]) + pieces[|pieces| - 1]
  }

  lemma ConcatNothing(pieces: seq<seq<byte>>)
    ensures Concat(pieces[..0]) == []
  {
    assert pieces[..0] == [];
  }

  lemma ConcatPush(pieces: seq<seq<byte>>, n: nat)
    requires n < |pieces|
    ensures Concat(pieces[..n + 1]) == Concat(pieces[..n]) + pieces[n]
  {
    assert pieces[..n + 1][..n] == pieces[..n];
  }

  lemma RunStaysRunning(cfg: Config, p: Parser, had: seq<Callback>, a: seq<byte>, q: Parser, mid: seq<Callback>,
                        b: seq<byte>)
    requires Executes(cfg, p, had, a, q, mid, |a|) && Run(cfg, p, a, 0).stop.Running?
    ensures Run(cfg, p, a + b, 0).stop == Run(cfg, q, b, 0).stop
  {
    hide Run, Flatten;
    RunAppend(cfg, p, a, b, 0);
  }

  lemma FeedsNothing(cfg: Config, p: Parser, calls: seq<Callback>)
    ensures Executes(cfg, p, calls, [], p, calls, 0) && Run(cfg, p, [], 0).stop.Running?
  {
    assert Run(cfg, p, [], 0) == Result(p, [], 0, Running);
    hide Run, Flatten;
    assert Flatten(calls) + [] == Flatten(calls);
  }

  lemma ExecutesSurvives(cfg: Config, before: Parser, had: seq<Callback>, data: seq<byte>,
                         after: Parser, calls: seq<Callback>, used: nat)
    requires AtBoundary(cfg, before) && Leads(before.state, Last(Flatten(had))) && CountFits(cfg, data) && data != []
    requires Executes(cfg, before, had, data, after, calls, used)
    ensures after.errno == Ok ==> AtBoundary(cfg, after) && Leads(after.state, Last(Flatten(calls)))
    ensures after.errno == Ok && !after.upgrade ==> Run(cfg, before, data, 0).stop.Running? && used == |data|
  {
    hide Run, Flatten, AtBoundary, Leads, Last;
    RunSurvives(cfg, before, data, 0);
    RunBounds(cfg, before, data, 0);
    RunLeads(cfg, before, data, 0, Flatten(had));
  }

  /** A call on b after a call on a that got through a is a call on a + b. */
  lemma ExecutesAppend(cfg: Config, p: Parser, had: seq<Callback>, a: seq<byte>, q: Parser, mid: seq<Callback>,
                       b: seq<byte>, r: Parser, calls: seq<Callback>, used: nat)
    requires Executes(cfg, p, had, a, q, mid, |a|) && Run(cfg, p, a, 0).stop.Running?
    requires Executes(cfg, q, mid, b, r, calls, used)
    ensures Executes(cfg, p, had, a + b, r, calls, |a| + used)
  {
    hide Run, Flatten;
    RunAppend(cfg, p, a, b, 0);
    var s, t := Run(cfg, p, a, 0), Run(cfg, q, b, 0);
    assert (Flatten(had) + s.trace) + t.trace == Flatten(had) + (s.trace + t.trace);
  }

  /** Split invariance: cut an input anywhere into two pieces. If one call on the whole input ends
      without an error or an upgrade, then so do two calls on the pieces, they leave the same
      record, and the same notifications and the same pieces of data, the data of each piece put back
      together, were delivered in the same order; a piece may be empty. */
  lemma SplitInvariance(cfg: Config, p: Parser, had: seq<Callback>, a: seq<byte>, b: seq<byte>,
                        whole: Parser, wholeCalls: seq<Callback>, wholeUsed: nat,
                        q: Parser, mid: seq<Callback>, n: nat,
                        parts: Parser, partCalls: seq<Callback>, m: nat)
    requires Executes(cfg, p, had, a + b, whole, wholeCalls, wholeUsed)
    requires whole.errno == Ok && !whole.upgrade
    requires Executes(cfg, p, had, a, q, mid, n)
    requires Executes(cfg, q, mid, b, parts, partCalls, m)
    ensures q.errno == Ok && n == |a| && m == |b| && wholeUsed == |a + b|
    ensures parts == whole
    ensures Flatten(partCalls) == Flatten(wholeCalls)
  {
    hide Run, Flatten;
    RunAppend(cfg, p, a, b, 0);
    RunBounds(cfg, p, a, 0);
    RunBounds(cfg, p, a + b, 0);
    RunBounds(cfg, q, b, 0);
    var r := Run(cfg, p, a, 0);
    assert r.stop.Running?;
    assert (Flatten(had) + r.trace) + Run(cfg, q, b, 0).trace == Flatten(had) + (r.trace + Run(cfg, q, b, 0).trace);
  }
}
