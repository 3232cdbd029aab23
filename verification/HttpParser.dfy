/** The parser object: http_parser_execute over a record that is updated in place. */
module HttpParser {
  import opened Bytes
  import opened HttpTypes
  import opened HttpStep
  import opened HttpSpec
  import opened HttpInvariant
  import opened HttpJoins
  import opened HttpMarks
  import opened HttpExecute

  class HttpParser {
    const cfg: Config
    var rec: Parser
    var calls: seq<Callback>  // every call made into the embedder so far

    /** http_parser_init */
    constructor (cfg: Config, kind: MessageType)
      ensures this.cfg == cfg && calls == []
      ensures rec.kind == kind && Ready()
      ensures rec.state == (if kind.Request? then StartReq else if kind.Response? then StartRes else StartReqOrRes)
    {
      this.cfg := cfg;
      rec := Parser(kind, NO_FLAGS,
                    if kind.Request? then StartReq else if kind.Response? then StartRes else StartReqOrRes,
                    General, 0, 0, 0, 0, 0, 0, 0, Ok, false);
      calls := [];
    }

    /** Between two calls without an error. */
    ghost predicate Ready()
      reads this
    {
      AtBoundary(cfg, rec) && Leads(rec.state, Last(Flatten(calls)))
    }

    /** A turn of the switch outside the bulk skips: the record, then MARK, CALLBACK_DATA and
        CALLBACK_NOTIFY as the turn asks for them. */
    method Turn(data: seq<byte>, p: nat, marks: Marks, ghost goal: Result)
      returns (after: Marks, ctl: Control)
      requires Inside(cfg, goal, rec, calls, marks, data, p) && !Skipping(rec.state)
      modifies this
      ensures Resolved(cfg, goal, ctl, rec, calls, after, data, p)
      ensures ctl.Again? ==> Rank(rec.state) < Rank(old(rec.state))
    {
      TurnResolves(cfg, goal, rec, calls, marks, data, p);
      var o := StepOnce(cfg, rec, data[p]);
      rec := o.p;
      after := Marked(marks, o.mark, p);
      if !o.ctl.Fail? {
        calls := calls + Delivery(after, o.flush, data, p);
        after := Cleared(after, o.flush);
      }
      calls := calls + NoteCalls(o.note);
      ctl := o.ctl;
    }

    /** s_header_field: the loop over the rest of a name. */
    method Name(data: seq<byte>, p: nat, marks: Marks, ghost goal: Result)
      returns (q: nat, after: Marks, ctl: Control)
      requires Inside(cfg, goal, rec, calls, marks, data, p) && rec.state.HeaderField? && CountFits(cfg, data)
      modifies this
      ensures Resolved(cfg, goal, ctl, rec, calls, after, data, q)
      ensures p <= q && (ctl.Again? ==> Rank(rec.state) < Rank(old(rec.state)))
    {
      hide Scanning, Inside, Between, StepOnce, NameStep, Token;
      var start, j := p, p;
      ScanStarts(cfg, goal, rec, calls, marks, data, start);
      while j < |data| && Token(data[j]) != 0
        invariant start <= j <= |data| && start < |data| && rec.state.HeaderField? && calls == old(calls)
        invariant Scanning(cfg, goal, rec, calls, marks, data, start, j)
      {
        NameScans(cfg, goal, rec, calls, marks, data, start, j);
        assert NameState(rec.hstate);  // "Unknown header_state"
        if rec.hstate.General? {
          ghost var was := rec;
          var pe := j + Min(|data| - j, cfg.maxHeader);
          while j + 1 < pe && Token(data[j + 1]) != 0
            invariant start <= j < |data| && rec == was && calls == old(calls)
            invariant Scanning(cfg, goal, rec, calls, marks, data, start, j + 1)
          {
            j := j + 1;
            NameScans(cfg, goal, rec, calls, marks, data, start, j);
          }
        } else {
          rec := NameStep(rec, Token(data[j]));
        }
        j := j + 1;
      }
      after, ctl := marks, Next;
      if j == |data| {
        ScanEnds(cfg, goal, rec, calls, marks, data, start);
        q := j - 1;
        rec := Counted(rec, q - start);
      } else {
        ScanStops(cfg, goal, rec, calls, marks, data, start, j);
        q := j;
        rec := Counted(rec, q - start);
        if rec.nread <= cfg.maxHeader {
          after, ctl := Turn(data, q, marks, goal);
          return;
        }
      }
      if rec.nread > cfg.maxHeader {
        rec, ctl := rec.(errno := HeaderOverflow), Fail(HeaderOverflow);
      }
    }

    /** The loop of s_header_value while nothing is being matched. It stops in front of the byte
        where the outer loop goes on, or with an error. */
    method Unmatched(data: seq<byte>, start: nat, from: nat, marks: Marks, ghost goal: Result)
      returns (j: nat, bad: bool)
      requires Scanning(cfg, goal, rec, calls, marks, data, start, from) && start <= from < |data|
      requires rec.state.HeaderValue? && rec.hstate.General? && data[from] != CR && data[from] != LF
      modifies this
      ensures calls == old(calls)
      ensures bad ==> from <= j < |data| && rec == old(rec).(errno := InvalidHeaderToken) && Broken(goal, rec, calls, j)
      ensures !bad ==> from <= j < |data| && rec == old(rec)
                       && Scanning(cfg, goal, rec, calls, marks, data, start, j + 1)
    {
      hide Scanning, StepOnce, Flatten, IsHeaderChar;
      var pe := from + Min(|data| - from, cfg.maxHeader);
      j, bad := from, false;
      while j != pe
        invariant from <= j <= pe && rec == old(rec) && calls == old(calls)
        invariant Scanning(cfg, goal, rec, calls, marks, data, start, j)
        decreases pe - j
      {
        var ch := data[j];
        if ch == CR || ch == LF {
          j := j - 1;
          return;
        }
        if !cfg.lenient && !IsHeaderChar(ch) {
          ValueBreaks(cfg, goal, rec, calls, marks, data, start, j, InvalidHeaderToken);
          rec, bad := rec.(errno := InvalidHeaderToken), true;
          return;
        }
        ValueScans(cfg, goal, rec, calls, marks, data, start, j);
        j := j + 1;
      }
      if j == |data| {
        j := j - 1;
      } else {
        ScanJumps(cfg, goal, rec, calls, marks, data, start, j);
      }
    }

    /** s_header_value: the loop over the rest of a value. */
    method Value(data: seq<byte>, p: nat, marks: Marks, ghost goal: Result)
      returns (q: nat, after: Marks, ctl: Control)
      requires Inside(cfg, goal, rec, calls, marks, data, p) && rec.state.HeaderValue? && CountFits(cfg, data)
      modifies this
      ensures Resolved(cfg, goal, ctl, rec, calls, after, data, q)
      ensures p <= q && (ctl.Again? ==> Rank(rec.state) < Rank(old(rec.state)))
    {
      hide Scanning, Inside, Between, StepOnce, Flatten, IsHeaderChar, ValueStep, CountFits, Legal;
      var start, j := p, p;
      after := marks;
      ScanStarts(cfg, goal, rec, calls, marks, data, start);
      while j < |data|
        invariant start <= j <= |data| && start < |data| && rec.state.HeaderValue? && calls == old(calls)
        invariant Scanning(cfg, goal, rec, calls, marks, data, start, j)
      {
        var ch := data[j];
        if ch == CR || ch == LF {
          ValueStops(cfg, goal, rec, calls, marks, data, start, j);
          q, ctl := j, if ch == CR then Next else Again;
          rec := rec.(state := HeaderAlmostDone);
          if ch == CR {
            calls, after := calls + [DataCall(HttpTypes.Value, data[marks[HttpTypes.Value]..j])], marks - {HttpTypes.Value};
          }
          rec := Counted(rec, q - start);
          if rec.nread > cfg.maxHeader {
            rec, ctl := rec.(errno := HeaderOverflow), Fail(HeaderOverflow);
          } else if ch == LF {
            calls, after := calls + [DataCall(HttpTypes.Value, data[marks[HttpTypes.Value]..j])], marks - {HttpTypes.Value};
          }
          return;
        }
        if !cfg.lenient && !IsHeaderChar(ch) {
          ValueBreaks(cfg, goal, rec, calls, marks, data, start, j, InvalidHeaderToken);
          q, rec, ctl := j, rec.(errno := InvalidHeaderToken), Fail(InvalidHeaderToken);
          return;
        }
        ValueScans(cfg, goal, rec, calls, marks, data, start, j);
        assert !rec.hstate.Connection? && !rec.hstate.TransferEncoding?;  // "Shouldn't get here."
        if rec.hstate.General? {
          var bad;
          j, bad := Unmatched(data, start, j, marks, goal);
          if bad {
            q, ctl := j, Fail(InvalidHeaderToken);
            return;
          }
        } else {
          var o := ValueStep(rec, ch);
          rec := o.p;
          if o.ctl.Fail? {
            q, ctl := j, o.ctl;
            return;
          }
        }
        j := j + 1;
      }
      ScanEnds(cfg, goal, rec, calls, marks, data, start);
      q, ctl := j - 1, Next;
      rec := Counted(rec, q - start);
      if rec.nread > cfg.maxHeader {
        rec, ctl := rec.(errno := HeaderOverflow), Fail(HeaderOverflow);
      }
    }

    /** s_body_identity, s_chunk_data and s_body_identity_eof: as much of the body as the buffer has. */
    method Skip(data: seq<byte>, p: nat, marks: Marks, ghost goal: Result)
      returns (q: nat, after: Marks, ctl: Control)
      requires Inside(cfg, goal, rec, calls, marks, data, p) && Skipping(rec.state)
      modifies this
      ensures Resolved(cfg, goal, ctl, rec, calls, after, data, q)
      ensures p <= q && (ctl.Again? ==> Rank(rec.state) < Rank(old(rec.state)))
    {
      hide Inside, Between;
      SkipAsserts(cfg, goal, rec, calls, marks, data, p);
      after, ctl := Marked(marks, Some(Body), p), Next;
      if rec.state.BodyIdentityEof? {
        SkipToEof(cfg, goal, rec, calls, marks, data, p);
        q := |data| - 1;
        return;
      }
      assert rec.state.ChunkData? ==> rec.flags.chunked;
      assert rec.contentLength != 0 && rec.contentLength != NO_LENGTH;
      var toRead := Min(rec.contentLength, |data| - p);
      q := p + toRead - 1;
      if toRead < rec.contentLength {
        SkipContinues(cfg, goal, rec, calls, marks, data, p, p + toRead);
        rec := rec.(contentLength := rec.contentLength - toRead);
      } else if rec.state.ChunkData? {
        SkipEndsChunk(cfg, goal, rec, calls, marks, data, p, p + toRead);
        rec := rec.(contentLength := rec.contentLength - toRead, state := ChunkDataAlmostDone);
      } else {
        SkipEndsBody(cfg, goal, rec, calls, marks, data, p, p + toRead);
        rec := rec.(contentLength := rec.contentLength - toRead, state := MessageDone);
        calls := calls + [DataCall(Body, data[after[Body]..q + 1])];
        after, ctl := after - {Body}, Again;
      }
    }

    /** The switch, with its inner loops. */
    method Dispatch(data: seq<byte>, p: nat, marks: Marks, ghost goal: Result)
      returns (q: nat, after: Marks, ctl: Control)
      requires Inside(cfg, goal, rec, calls, marks, data, p) && CountFits(cfg, data)
      modifies this
      ensures Resolved(cfg, goal, ctl, rec, calls, after, data, q)
      ensures p <= q && (ctl.Again? ==> Rank(rec.state) < Rank(old(rec.state)))
    {
      hide Inside, Resolved, CountFits;
      if rec.state.HeaderField? {
        q, after, ctl := Name(data, p, marks, goal);
      } else if rec.state.HeaderValue? {
        q, after, ctl := Value(data, p, marks, goal);
      } else if Skipping(rec.state) {
        q, after, ctl := Skip(data, p, marks, goal);
      } else {
        q := p;
        after, ctl := Turn(data, p, marks, goal);
      }
    }

    /** http_parser_execute on a buffer that is not empty. */
    method ExecuteBytes(data: seq<byte>) returns (used: nat)
      requires data != [] && Ready() && CountFits(cfg, data)
      modifies this
      ensures Executes(cfg, old(rec), old(calls), data, rec, calls, used)
    {
      hide Between, Inside, Executes, Broken, Remarked, Flatten, Run, Leftover, AtBoundary, CountFits;
      ghost var before, had := rec, calls;
      ghost var goal := Prepend(Flatten(had), Run(cfg, before, data, 0));
      ExecuteStarts(cfg, rec, calls, data);
      var p, marks := 0, Remarked(rec.state);
      while p < |data|
        invariant 0 <= p <= |data|
        invariant Between(cfg, goal, rec, calls, marks, data, p)
      {
        ExecuteCounts(cfg, goal, rec, calls, marks, data, p);
        if ParsingHeader(rec.state) {
          rec := Counted(rec, 1);
          if rec.nread > cfg.maxHeader {
            rec := rec.(errno := HeaderOverflow);
            ExecuteOverflows(cfg, before, had, rec, calls, data, p);
            return p;
          }
        }
        var q: nat, ctl := p, Again;
        while ctl.Again?
          invariant p <= q < |data|
          invariant match ctl
                    case Again => Inside(cfg, goal, rec, calls, marks, data, q)
                    case _ => Resolved(cfg, goal, ctl, rec, calls, marks, data, q)
          decreases ctl.Again?, Rank(rec.state)
        {
          q, marks, ctl := Dispatch(data, q, marks, goal);
        }
        match ctl
        case Fail(_) =>
          ExecuteBreaks(cfg, before, had, rec, calls, data, q);
          return q;
        case Exit =>
          ExecuteExits(cfg, before, had, rec, calls, data, q);
          return q + 1;
        case _ =>
          p := q + 1;
      }
      ExecuteEnds(cfg, before, had, rec, calls, marks, data);
      assert |marks.Keys| <= 1;
      calls := calls + Leftover(marks, data);
      used := |data|;
    }

    /** http_parser_execute */
    method Execute(data: seq<byte>) returns (used: nat)
      requires rec.errno == Ok ==> Ready()
      requires CountFits(cfg, data)
      modifies this
      ensures old(rec).errno != Ok ==> used == 0 && rec == old(rec) && calls == old(calls)
      ensures old(rec).errno == Ok && data == [] ==>
        var (after, made, n) := EndOfInput(old(rec)); rec == after && calls == old(calls) + made && used == n
      ensures old(rec).errno == Ok && data != [] ==> Executes(cfg, old(rec), old(calls), data, rec, calls, used)
      ensures rec.errno == Ok ==> Ready()
    {
      hide Executes, Flatten, AtBoundary, Leads, Last;
      if rec.errno != Ok {
        return 0;
      }
      if data == [] {
        match rec.state
        case BodyIdentityEof =>
          calls := calls + [NotifyCall(MessageComplete, Seen(rec))];
          BodyStates(rec.state, Last(Flatten(calls)));
          return 0;
        case Dead => return 0;
        case StartReqOrRes => return 0;
        case StartRes => return 0;
        case StartReq => return 0;
        case _ =>
          rec := rec.(errno := InvalidEofState);
          return 1;
      }
      used := ExecuteBytes(data);
      ExecutesSurvives(cfg, old(rec), old(calls), data, rec, calls, used);
    }

    /** The reading loops of the session and connection classes: pieces are fed in turn until one
        ends in an error or an upgrade. However the input was cut, the result is that of the fold
        over all the bytes fed. */
    method Feed(pieces: seq<seq<byte>>) returns (fed: nat, used: nat)
      requires Ready()
      requires forall i :: 0 <= i < |pieces| ==> pieces[i] != [] && CountFits(cfg, pieces[i])
      modifies this
      ensures fed <= |pieces|
      ensures Executes(cfg, old(rec), old(calls), Concat(pieces[..fed]), rec, calls, used)
      ensures fed < |pieces| ==> rec.errno != Ok || rec.upgrade
    {
      hide Executes, Flatten, AtBoundary, Run, Concat, CountFits;
      fed, used := 0, 0;
      FeedsNothing(cfg, rec, calls);
      ConcatNothing(pieces);
      while fed < |pieces|
        invariant 0 <= fed <= |pieces|
        invariant Executes(cfg, old(rec), old(calls), Concat(pieces[..fed]), rec, calls, used)
        invariant Ready()
        invariant used == |Concat(pieces[..fed])| && Run(cfg, old(rec), Concat(pieces[..fed]), 0).stop.Running?
        decreases |pieces| - fed
      {
        ghost var p, mid, a := rec, calls, Concat(pieces[..fed]);
        var n := ExecuteBytes(pieces[fed]);
        ExecutesAppend(cfg, old(rec), old(calls), a, p, mid, pieces[fed], rec, calls, n);
        ExecutesSurvives(cfg, p, mid, pieces[fed], rec, calls, n);
        ConcatPush(pieces, fed);
        RunStaysRunning(cfg, old(rec), old(calls), a, p, mid, pieces[fed]);
        fed, used := fed + 1, used + n;
        if rec.errno != Ok || rec.upgrade {
          return;
        }
      }
    }
  }
}
