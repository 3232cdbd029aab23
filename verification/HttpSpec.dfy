/** The parser as a plain fold over single bytes: the meaning that the loop of module HttpExecute
    is measured against. There are no marks, no inner loops and no buffers here. */
module HttpSpec {
  import opened Bytes
  import opened HttpTypes
  import opened HttpStep

  // ---------------------------------------------------------------- one byte

  /** The record once a byte is done with, what it delivered, and how it ended (never Again). */
  datatype Settled = Settled(p: Parser, trace: seq<Event>, ctl: Control)

  /** The data that a turn of the switch hands over for its byte. */
  function Owned(s: State, o: Outcome, ch: byte): seq<Event> {
    if s.BodyIdentity? || s.BodyIdentityEof? || s.ChunkData? then [Data(Body, ch)]
    else if o.ctl.Next? && StrictKind(o.p.state).Some? then [Data(StrictKind(o.p.state).value, ch)]
    else []
  }

  /** Where a turn sets a mark, a piece of data begins, unless it is the next line of the same header value. A body is
      not marked by the switch, and is no piece of its own: it is told apart by the notifications around it. */
  function TurnData(s: State, o: Outcome, ch: byte): seq<Event> {
    if o.mark.Some? && !s.HeaderValueStart? then [Begin(o.mark.value)] + Owned(s, o, ch) else Owned(s, o, ch)
  }

  function TurnTrace(s: State, o: Outcome, ch: byte): seq<Event> {
    TurnData(s, o, ch) + o.note
  }

  /** The switch, repeated while a turn asks for the same byte again. */
  function Settle(cfg: Config, p: Parser, ch: byte): Settled
    decreases Rank(p.state)
  {
    var o := StepOnce(cfg, p, ch);
    if o.ctl.Again? then
      TurnIsDisciplined(cfg, p, ch);
      var rest := Settle(cfg, o.p, ch);
      rest.(trace := TurnTrace(p.state, o, ch) + rest.trace)
    else Settled(o.p, TurnTrace(p.state, o, ch), o.ctl)
  }

  // ---------------------------------------------------------------- a whole input

  datatype Stop = Running | Exited | Failed

  /** The record, everything delivered, the number of bytes taken and why the run ended. */
  datatype Result = Result(p: Parser, trace: seq<Event>, used: nat, stop: Stop)

  function Prepend(t: seq<Event>, r: Result): Result {
    r.(trace := t + r.trace)
  }

  /** COUNT_HEADER_SIZE on a 32-bit word. */
  function Counted(p: Parser, n: nat): Parser {
    p.(nread := (p.nread + n) % UINT32_SPAN)
  }

  /** The fold from byte i on. */
  function Run(cfg: Config, p: Parser, data: seq<byte>, i: nat): Result
    requires i <= |data|
    decreases |data| - i, 1
  {
    if i == |data| then Result(p, [], i, Running)
    else if !ParsingHeader(p.state) then RunCounted(cfg, p, data, i)
    else if Counted(p, 1).nread > cfg.maxHeader then
      Result(Counted(p, 1).(errno := HeaderOverflow), [], i, Failed)
    else RunCounted(cfg, Counted(p, 1), data, i)
  }

  /** The fold from byte i on, when byte i has already been counted. */
  function RunCounted(cfg: Config, p: Parser, data: seq<byte>, i: nat): Result
    requires i < |data|
    decreases |data| - i, 0
  {
    var b := Settle(cfg, p, data[i]);
    match b.ctl
    case Next => Prepend(b.trace, Run(cfg, b.p, data, i + 1))
    case Again => Result(b.p, b.trace, i + 1, Running)  // Settle never ends so
    case Exit => Result(b.p, b.trace, i + 1, Exited)
    case Fail(_) => Result(b.p, b.trace, i, Failed)
  }

  lemma {:induction false} SettleEnds(cfg: Config, p: Parser, ch: byte)
    ensures var b := Settle(cfg, p, ch);
      && !b.ctl.Again?
      && (if b.ctl.Fail? then b.p.errno != Ok && b.p.errno != HeaderOverflow else b.p.errno == p.errno)
      && (b.ctl.Exit? ==> b.p.upgrade)
    decreases Rank(p.state)
  {
    TurnIsDisciplined(cfg, p, ch);
    var o := StepOnce(cfg, p, ch);
    if o.ctl.Again? {
      SettleEnds(cfg, o.p, ch);
    }
  }

  /** The fold, one turn of the switch at a time. */
  lemma RunTurn(cfg: Config, p: Parser, data: seq<byte>, i: nat)
    requires i < |data|
    ensures var o := StepOnce(cfg, p, data[i]); var t := TurnTrace(p.state, o, data[i]);
      RunCounted(cfg, p, data, i) ==
        match o.ctl
        case Next => Prepend(t, Run(cfg, o.p, data, i + 1))
        case Again => Prepend(t, RunCounted(cfg, o.p, data, i))
        case Exit => Result(o.p, t, i + 1, Exited)
        case Fail(_) => Result(o.p, t, i, Failed)
  {
    hide StepOnce, Owned;
    var o := StepOnce(cfg, p, data[i]);
    if o.ctl.Again? {
      TurnIsDisciplined(cfg, p, data[i]);
      SettleEnds(cfg, o.p, data[i]);
      var b := Settle(cfg, o.p, data[i]);
      if b.ctl.Next? {
        PrependTwice(TurnTrace(p.state, o, data[i]), b.trace, Run(cfg, b.p, data, i + 1));
      }
    }
  }

  lemma PrependTwice(s: seq<Event>, t: seq<Event>, r: Result)
    ensures Prepend(s, Prepend(t, r)) == Prepend(s + t, r)
  {
    assert s + (t + r.trace) == (s + t) + r.trace;
  }

  lemma PrependNothing(r: Result)
    ensures Prepend([], r) == r
  {
    assert [] + r.trace == r.trace;
  }

  // ---------------------------------------------------------------- runs compose

  /** The fold depends on its input only from byte i on. */
  lemma {:induction false} RunShift(cfg: Config, p: Parser, a: seq<byte>, data: seq<byte>, i: nat)
    requires i <= |data|
    ensures var r := Run(cfg, p, data, i);
      Run(cfg, p, a + data, |a| + i) == r.(used := |a| + r.used)
    decreases |data| - i
  {
    hide Settle;
    if i < |data| {
      assert (a + data)[|a| + i] == data[i];
      var counted := if ParsingHeader(p.state) then Counted(p, 1) else p;
      RunShift(cfg, Settle(cfg, counted, data[i]).p, a, data, i + 1);
    }
  }

  /** A run over a + b is the run over a followed, if that one got to the end of a, by the run of
      b from the record it left. */
  lemma {:induction false} RunAppend(cfg: Config, p: Parser, a: seq<byte>, b: seq<byte>, i: nat)
    requires i <= |a|
    ensures var r := Run(cfg, p, a, i);
      Run(cfg, p, a + b, i) ==
        if r.stop.Running?
        then var s := Run(cfg, r.p, b, 0); Prepend(r.trace, s.(used := |a| + s.used))
        else r
    decreases |a| - i
  {
    hide Settle;
    if i == |a| {
      RunShift(cfg, p, a, b, 0);
      PrependNothing(Run(cfg, p, a + b, i));
    } else {
      assert (a + b)[i] == a[i];
      var counted := if ParsingHeader(p.state) then Counted(p, 1) else p;
      if !(ParsingHeader(p.state) && counted.nread > cfg.maxHeader) {
        var c := Settle(cfg, counted, a[i]);
        SettleEnds(cfg, counted, a[i]);
        if c.ctl.Next? {
          RunAppend(cfg, c.p, a, b, i + 1);
          var r := Run(cfg, c.p, a, i + 1);
          var s := Run(cfg, r.p, b, 0);
          PrependTwice(c.trace, r.trace, s.(used := |a| + s.used));
        }
      }
    }
  }

  lemma {:induction false} RunBounds(cfg: Config, p: Parser, data: seq<byte>, i: nat)
    requires i <= |data|
    ensures var r := Run(cfg, p, data, i);
      && i <= r.used <= |data|
      && (r.stop.Running? ==> r.used == |data|)
      && (if r.stop.Failed? then r.p.errno != Ok else r.p.errno == p.errno)
      && (r.stop.Exited? ==> r.p.upgrade)
    decreases |data| - i
  {
    hide Settle;
    if i < |data| {
      var counted := if ParsingHeader(p.state) then Counted(p, 1) else p;
      SettleEnds(cfg, counted, data[i]);
      var c := Settle(cfg, counted, data[i]);
      if c.ctl.Next? {
        RunBounds(cfg, c.p, data, i + 1);
      }
    }
  }
}
