/** Runs of the fold over pieces of input that get all the way through. */
module HttpPieces {
  import opened Bytes
  import opened HttpTypes
  import opened HttpStep
  import opened HttpSpec

  /** The fold takes all of data, from p to q, delivering t. */
  predicate Through(cfg: Config, p: Parser, data: seq<byte>, q: Parser, t: seq<Event>) {
    Run(cfg, p, data, 0) == Result(q, t, |data|, Running)
  }

  lemma ThroughNothing(cfg: Config, p: Parser)
    ensures Through(cfg, p, [], p, [])
  {
    hide Settle;
  }

  /** The record as the switch sees it: counted when a header is being parsed. */
  function Entered(p: Parser): Parser {
    if ParsingHeader(p.state) then Counted(p, 1) else p
  }

  predicate Admitted(cfg: Config, p: Parser) {
    ParsingHeader(p.state) ==> Counted(p, 1).nread <= cfg.maxHeader
  }

  lemma ThroughByte(cfg: Config, p: Parser, ch: byte)
    requires Admitted(cfg, p) && StepOnce(cfg, Entered(p), ch).ctl.Next?
    ensures var o := StepOnce(cfg, Entered(p), ch); Through(cfg, p, [ch], o.p, TurnTrace(p.state, o, ch))
  {
    hide StepOnce, Settle, TurnTrace, ParsingHeader;
    RunTurn(cfg, Entered(p), [ch], 0);
    var o := StepOnce(cfg, Entered(p), ch);
    assert Run(cfg, o.p, [ch], 1) == Result(o.p, [], 1, Running);
    assert TurnTrace(p.state, o, ch) + [] == TurnTrace(p.state, o, ch);
  }

  /** A byte that is looked at twice. */
  lemma ThroughByteTwice(cfg: Config, p: Parser, ch: byte)
    requires Admitted(cfg, p) && StepOnce(cfg, Entered(p), ch).ctl.Again?
    ensures var o := StepOnce(cfg, Entered(p), ch); var o2 := StepOnce(cfg, o.p, ch);
      var t := TurnTrace(p.state, o, ch) + TurnTrace(o.p.state, o2, ch);
      if o2.ctl.Next? then Through(cfg, p, [ch], o2.p, t)
      else o2.ctl.Exit? ==> Run(cfg, p, [ch], 0) == Result(o2.p, t, 1, Exited)
  {
    hide StepOnce, Settle, TurnTrace, ParsingHeader;
    RunTurn(cfg, Entered(p), [ch], 0);
    var o := StepOnce(cfg, Entered(p), ch);
    RunTurn(cfg, o.p, [ch], 0);
    var o2 := StepOnce(cfg, o.p, ch);
    assert Run(cfg, o2.p, [ch], 1) == Result(o2.p, [], 1, Running);
    assert TurnTrace(o.p.state, o2, ch) + [] == TurnTrace(o.p.state, o2, ch);
  }

  lemma ThroughAppend(cfg: Config, p: Parser, a: seq<byte>, q: Parser, s: seq<Event>,
                      b: seq<byte>, r: Parser, t: seq<Event>)
    requires Through(cfg, p, a, q, s) && Through(cfg, q, b, r, t)
    ensures Through(cfg, p, a + b, r, s + t)
  {
    hide Run;
    RunAppend(cfg, p, a, b, 0);
  }
}
