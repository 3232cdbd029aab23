/** The two length accumulators: the digits of a Content-Length value and of a chunk size. */
module HttpLength {
  import opened Bytes
  import opened HttpTypes
  import opened HttpStep
  import opened HttpSpec
  import opened HttpMarks
  import opened HttpExecute
  import opened HttpPieces

  function DigitOf(base: nat, ch: byte): int {
    if base == 10 then (if IsNum(ch) then ch - 48 else -1) else Unhex(ch)
  }

  predicate Digits(base: nat, ds: seq<byte>) {
    forall i :: 0 <= i < |ds| ==> DigitOf(base, ds[i]) != -1
  }

  /** The exact value of the digits ds written after a number v. */
  function Number(base: nat, v: nat, ds: seq<byte>): nat
    requires (base == 10 || base == 16) && Digits(base, ds)
  {
    if ds == [] then v else Number(base, v, ds[..|ds| - 1]) * base + DigitOf(base, ds[|ds| - 1])
  }

  /** The largest value the guard of the source lets grow by another digit. */
  function Guard(base: nat): nat
    requires base == 10 || base == 16
  {
    (UINT64_SPAN - 1 - base) / base
  }

  /** Behind its guard the 64-bit step is exact, and stays below the sentinel. */
  lemma AccumulateExact(base: nat, v: nat, digit: nat)
    requires (base == 10 || base == 16) && digit < base
    ensures Accumulate(base, v, digit) == if v > Guard(base) then Overflow else Fits(v * base + digit)
    ensures v <= Guard(base) ==> v * base + digit < NO_LENGTH
  {
  }

  lemma {:induction false} NumberGrows(base: nat, v: nat, ds: seq<byte>, n: nat)
    requires (base == 10 || base == 16) && Digits(base, ds) && n <= |ds|
    ensures Number(base, v, ds[..n]) <= Number(base, v, ds)
    decreases |ds| - n
  {
    if n == |ds| {
      assert ds[..n] == ds;
    } else {
      assert ds[..n + 1][..n] == ds[..n];
      NumberGrows(base, v, ds, n + 1);
    }
  }

  /** No digit but perhaps the last finds the accumulator above the guard. */
  predicate WithinGuard(base: nat, v: nat, ds: seq<byte>)
    requires (base == 10 || base == 16) && Digits(base, ds)
  {
    ds == [] || Number(base, v, ds[..|ds| - 1]) <= Guard(base)
  }

  // ---------------------------------------------------------------- digits in the machine

  /** The two states that read digits. */
  predicate Reading(p: Parser, base: nat) {
    (base == 10 && p.state.HeaderValue? && p.hstate.ContentLengthNum?)
    || (base == 16 && p.state.ChunkSize?)
  }

  function DigitTrace(base: nat, ds: seq<byte>): seq<Event> {
    if base == 10 then Letters(Value, ds) else []
  }

  /** What a whole number hands over, from its first digit on. */
  function NumberTrace(base: nat, ds: seq<byte>): seq<Event> {
    if base == 10 then Piece(Value, ds) else []
  }

  lemma DigitTurn(cfg: Config, p: Parser, base: nat, ch: byte)
    requires Reading(p, base) && DigitOf(base, ch) != -1
    ensures var o := StepOnce(cfg, p, ch);
      match Accumulate(base, p.contentLength, DigitOf(base, ch))
      case Overflow => o == Bad(p, InvalidContentLength)
      case Fits(t) => o == Stay(p.(contentLength := t)) && TurnTrace(p.state, o, ch) == DigitTrace(base, [ch])
  {
    hide Accumulate;
  }

  /** The record after n counted digits that add up to v. */
  function AfterDigits(p: Parser, v: nat, n: nat): Parser {
    p.(contentLength := v, nread := p.nread + n)
  }

  lemma DigitByte(cfg: Config, p: Parser, base: nat, ch: byte)
    requires Reading(p, base) && DigitOf(base, ch) != -1
    requires p.nread + 1 <= cfg.maxHeader < UINT32_SPAN
    ensures if p.contentLength > Guard(base) then
              var r := Run(cfg, p, [ch], 0); r.stop.Failed? && r.p.errno == InvalidContentLength
            else
              Through(cfg, p, [ch], AfterDigits(p, p.contentLength * base + DigitOf(base, ch), 1),
                      DigitTrace(base, [ch]))
  {
    DigitTurn(cfg, Counted(p, 1), base, ch);
    AccumulateExact(base, p.contentLength, DigitOf(base, ch));
    hide StepOnce, Settle, Accumulate, TurnTrace, Letters, Unhex, IsNum;
    if p.contentLength > Guard(base) {
      RunTurn(cfg, Counted(p, 1), [ch], 0);
    } else {
      ThroughByte(cfg, p, ch);
    }
  }

  lemma DigitTraceGrows(base: nat, ds: seq<byte>)
    requires ds != []
    ensures DigitTrace(base, ds[..|ds| - 1]) + DigitTrace(base, [ds[|ds| - 1]]) == DigitTrace(base, ds)
  {
    var n := |ds| - 1;
    assert ds[..n] + [ds[n]] == ds;
  }

  /** Digits are either read exactly, or refused when the accumulator is above the guard. */
  lemma {:induction false} DigitsRead(cfg: Config, p: Parser, base: nat, ds: seq<byte>)
    requires Reading(p, base) && Digits(base, ds)
    requires p.nread + |ds| <= cfg.maxHeader < UINT32_SPAN
    ensures if WithinGuard(base, p.contentLength, ds) then
              Through(cfg, p, ds, AfterDigits(p, Number(base, p.contentLength, ds), |ds|), DigitTrace(base, ds))
            else
              var r := Run(cfg, p, ds, 0); r.stop.Failed? && r.p.errno == InvalidContentLength
    decreases |ds|
  {
    hide Run, Letters, DigitOf, Through;
    if ds == [] {
      ThroughNothing(cfg, p);
      assert DigitTrace(base, ds) == [] by { EmptyTrace(base); }
    } else {
      var n := |ds| - 1;
      var init, last := ds[..n], ds[n];
      assert ds == init + [last];
      DigitsRead(cfg, p, base, init);
      DigitsStep(cfg, p, base, init, last);
      DigitTraceGrows(base, ds);
    }
  }

  lemma EmptyTrace(base: nat)
    ensures DigitTrace(base, []) == []
  {
  }

  lemma DigitsStep(cfg: Config, p: Parser, base: nat, init: seq<byte>, last: byte)
    requires (base == 10 || base == 16) && Reading(p, base) && Digits(base, init + [last]) && Digits(base, init)
    requires p.nread + |init| + 1 <= cfg.maxHeader < UINT32_SPAN
    requires if WithinGuard(base, p.contentLength, init) then
               Through(cfg, p, init, AfterDigits(p, Number(base, p.contentLength, init), |init|), DigitTrace(base, init))
             else
               var r := Run(cfg, p, init, 0); r.stop.Failed? && r.p.errno == InvalidContentLength
    ensures var ds := init + [last];
      if WithinGuard(base, p.contentLength, ds) then
        Through(cfg, p, ds, AfterDigits(p, Number(base, p.contentLength, ds), |ds|),
                DigitTrace(base, init) + DigitTrace(base, [last]))
      else
        var r := Run(cfg, p, ds, 0); r.stop.Failed? && r.p.errno == InvalidContentLength
  {
    hide Run, Letters, DigitOf, Number, Guard, Reading, DigitTrace, WithinGuard;
    var ds, v := init + [last], p.contentLength;
    RunAppend(cfg, p, init, [last], 0);
    NumberPush(base, v, init, last);
    if WithinGuard(base, v, init) {
      var q := AfterDigits(p, Number(base, v, init), |init|);
      assert Reading(q, base) by { ReadingStays(p, base, q); }
      DigitByte(cfg, q, base, last);
      if Number(base, v, init) <= Guard(base) {
        ThroughAppend(cfg, p, init, q, DigitTrace(base, init), [last],
                      AfterDigits(q, Number(base, v, ds), 1), DigitTrace(base, [last]));
      }
    }
  }

  lemma ReadingStays(p: Parser, base: nat, q: Parser)
    requires Reading(p, base) && q.state == p.state && q.hstate == p.hstate
    ensures Reading(q, base)
  {
  }

  lemma NumberPush(base: nat, v: nat, init: seq<byte>, last: byte)
    requires (base == 10 || base == 16) && Digits(base, init + [last]) && Digits(base, init)
    ensures DigitOf(base, last) != -1
    ensures Number(base, v, init + [last]) == Number(base, v, init) * base + DigitOf(base, last)
    ensures WithinGuard(base, v, init + [last]) <==> Number(base, v, init) <= Guard(base)
    ensures WithinGuard(base, v, init + [last]) ==> WithinGuard(base, v, init)
  {
    var ds := init + [last];
    assert ds[..|ds| - 1] == init && ds[|init|] == last;
    if init != [] {
      NumberGrows(base, v, init, |init| - 1);
    }
    hide DigitOf;
  }

  // ---------------------------------------------------------------- whole numbers

  /** The first digit may be taken as the number the others are written after. */
  lemma {:induction false} NumberFront(base: nat, ds: seq<byte>)
    requires (base == 10 || base == 16) && ds != [] && Digits(base, ds)
    ensures Number(base, DigitOf(base, ds[0]), ds[1..]) == Number(base, 0, ds)
    ensures WithinGuard(base, DigitOf(base, ds[0]), ds[1..]) <==> WithinGuard(base, 0, ds)
  {
    hide DigitOf;
    var n := |ds| - 1;
    if n == 0 {
      assert ds[..0] == [];
    } else {
      assert ds[1..][..n - 1] == ds[..n][1..] && ds[1..][n - 1] == ds[n];
      NumberFront(base, ds[..n]);
    }
  }

  /** The record after the first digit of a Content-Length value. */
  function LengthStarted(p: Parser, digit: nat): Parser {
    p.(state := HeaderValue, hstate := ContentLengthNum, index := 0,
       flags := p.flags.(contentLength := true), contentLength := digit)
  }

  lemma ValueStarts(cfg: Config, p: Parser, ch: byte)
    requires p.state.HeaderValueDiscardWs? && ch != SP && ch != TAB && ch != CR && ch != LF
    ensures StepOnce(cfg, p, ch) == StartValue(p, ch)
  {
    hide StartValue;
  }

  lemma FirstLengthTurn(cfg: Config, p: Parser, ch: byte)
    requires p.state.HeaderValueDiscardWs? && p.hstate.ContentLength? && !p.flags.contentLength && IsNum(ch)
    ensures var o := StepOnce(cfg, p, ch);
      o.ctl.Next? && o.p == LengthStarted(p, ch - 48) && TurnTrace(p.state, o, ch) == NumberTrace(10, [ch])
  {
    hide StepOnce;
    ValueStarts(cfg, p, ch);
  }

  lemma FirstLengthDigit(cfg: Config, p: Parser, ch: byte)
    requires p.state.HeaderValueDiscardWs? && p.hstate.ContentLength? && !p.flags.contentLength
    requires IsNum(ch) && p.nread + 1 <= cfg.maxHeader < UINT32_SPAN
    ensures Through(cfg, p, [ch], LengthStarted(p, ch - 48).(nread := p.nread + 1), NumberTrace(10, [ch]))
  {
    hide StepOnce, Settle, TurnTrace, Run, NumberTrace;
    FirstLengthTurn(cfg, Counted(p, 1), ch);
    ThroughByte(cfg, p, ch);
  }

  /** A Content-Length value: the record ends up with exactly the number the digits spell, which is
      below the sentinel; or the call fails, exactly when the number without its last digit is
      above the guard. */
  lemma ContentLengthExact(cfg: Config, p: Parser, ds: seq<byte>)
    requires p.state.HeaderValueDiscardWs? && p.hstate.ContentLength? && !p.flags.contentLength
    requires ds != [] && Digits(10, ds) && p.nread + |ds| <= cfg.maxHeader < UINT32_SPAN
    ensures var q := LengthStarted(p, Number(10, 0, ds)).(nread := p.nread + |ds|);
      if Number(10, 0, ds[..|ds| - 1]) <= Guard(10) then
        Number(10, 0, ds) < NO_LENGTH && Through(cfg, p, ds, q, Piece(Value, ds))
      else
        var r := Run(cfg, p, ds, 0); r.stop.Failed? && r.p.errno == InvalidContentLength
  {
    assert DigitOf(10, ds[0]) != -1;
    assert IsNum(ds[0]) && DigitOf(10, ds[0]) == ds[0] - 48;
    FirstLengthDigit(cfg, p, ds[0]);
    SizeFits(10, ds);
    hide Run, DigitOf, Piece, IsNum, Reading;
    NumberRead(cfg, p, LengthStarted(p, ds[0] - 48).(nread := p.nread + 1), 10, ds);
  }

  lemma SizeFits(base: nat, ds: seq<byte>)
    requires (base == 10 || base == 16) && ds != [] && Digits(base, ds)
    ensures Number(base, 0, ds[..|ds| - 1]) <= Guard(base) ==> Number(base, 0, ds) < NO_LENGTH
  {
    var n := |ds| - 1;
    assert DigitOf(base, ds[n]) != -1;
    AccumulateExact(base, Number(base, 0, ds[..n]), DigitOf(base, ds[n]));
  }

  /** The number read from its first digit on. */
  lemma NumberRead(cfg: Config, p: Parser, first: Parser, base: nat, ds: seq<byte>)
    requires (base == 10 || base == 16) && ds != [] && Digits(base, ds)
    requires Reading(first, base) && first.nread + |ds| - 1 <= cfg.maxHeader < UINT32_SPAN
    requires Through(cfg, p, [ds[0]], first, NumberTrace(base, [ds[0]]))
    requires DigitOf(base, ds[0]) == first.contentLength
    ensures if WithinGuard(base, 0, ds) then
              Through(cfg, p, ds, first.(contentLength := Number(base, 0, ds), nread := first.nread + |ds| - 1),
                      NumberTrace(base, ds))
            else
              var r := Run(cfg, p, ds, 0); r.stop.Failed? && r.p.errno == InvalidContentLength
  {
    hide Run, Letters, DigitOf, Number, Guard, Reading, WithinGuard;
    var rest := ds[1..];
    assert ds == [ds[0]] + rest;
    NumberFront(base, ds);
    DigitsRead(cfg, first, base, rest);
    RunAppend(cfg, p, [ds[0]], rest, 0);
    NumberTraceFront(base, ds);
    hide DigitTrace, NumberTrace;
    if WithinGuard(base, 0, ds) {
      ThroughAppend(cfg, p, [ds[0]], first, NumberTrace(base, [ds[0]]), rest,
                    AfterDigits(first, Number(base, 0, ds), |rest|), DigitTrace(base, rest));
    }
  }

  lemma NumberTraceFront(base: nat, ds: seq<byte>)
    requires ds != []
    ensures NumberTrace(base, [ds[0]]) + DigitTrace(base, ds[1..]) == NumberTrace(base, ds)
  {
    hide Letters;
    assert ds[0..1] == [ds[0]] && ds[1..|ds|] == ds[1..] && ds[0..|ds|] == ds;
    LettersJoin(Value, ds, 0, 1, |ds|);
  }

  lemma FirstSizeTurn(cfg: Config, p: Parser, ch: byte)
    requires p.state.ChunkSizeStart? && Unhex(ch) != -1
    ensures var o := StepOnce(cfg, p, ch);
      o.ctl.Next? && o.p == p.(state := ChunkSize, contentLength := Unhex(ch)) && TurnTrace(p.state, o, ch) == []
  {
    hide Unhex;
  }

  lemma FirstSizeDigit(cfg: Config, p: Parser, ch: byte)
    requires p.state.ChunkSizeStart? && Unhex(ch) != -1 && p.nread + 1 <= cfg.maxHeader < UINT32_SPAN
    ensures Through(cfg, p, [ch], p.(state := ChunkSize, contentLength := Unhex(ch), nread := p.nread + 1), [])
  {
    hide StepOnce, Settle, TurnTrace, Run, Unhex;
    FirstSizeTurn(cfg, Counted(p, 1), ch);
    ThroughByte(cfg, p, ch);
  }

  /** "0123456789abcdef" */
  function HexValue(c: byte): (v: nat)
    requires IsHexChar(c)
    ensures v < 16 && (Lower(c) == "0123456789abcdef"[v] as int || c == "0123456789abcdef"[v] as int)
  {
    if IsNum(c) then c - 48 else Lower(c) - 87
  }

  /** The table reads more bytes as digits than there are: every byte from 128 up is a zero. */
  lemma UnhexExact(c: byte)
    ensures Unhex(c) != -1 <==> IsHexChar(c) || c >= 128
    ensures IsHexChar(c) ==> Unhex(c) == HexValue(c)
    ensures c >= 128 ==> Unhex(c) == 0
  {
  }

  /** A byte begins a chunk size if and only if it is a hexadecimal digit or is 128 or more; that one, which no
      sender may use, begins a size as a zero. Every other byte is refused. */
  lemma SizeBegins(cfg: Config, p: Parser, c: byte)
    requires p.state.ChunkSizeStart? && p.nread + 1 <= cfg.maxHeader < UINT32_SPAN
    ensures if IsHexChar(c) || c >= 128 then
              var v := if c >= 128 then 0 else HexValue(c);
              Through(cfg, p, [c], p.(state := ChunkSize, contentLength := v, nread := p.nread + 1), [])
            else
              var r := Run(cfg, p, [c], 0); r.stop.Failed? && r.p.errno == InvalidChunkSize
  {
    hide Unhex, HexValue, IsHexChar, Through, Run;
    UnhexExact(c);
    if Unhex(c) != -1 {
      FirstSizeDigit(cfg, p, c);
    } else {
      SizeFails(cfg, p, c);
    }
  }

  lemma SizeFails(cfg: Config, p: Parser, c: byte)
    requires p.state.ChunkSizeStart? && Unhex(c) == -1 && p.nread + 1 <= cfg.maxHeader < UINT32_SPAN
    ensures var r := Run(cfg, p, [c], 0); r.stop.Failed? && r.p.errno == InvalidChunkSize
  {
    hide StepOnce, Unhex, Settle, TurnTrace;
    SizeRefused(cfg, Counted(p, 1), c);
    RunTurn(cfg, Counted(p, 1), [c], 0);
  }

  lemma SizeRefused(cfg: Config, p: Parser, c: byte)
    requires p.state.ChunkSizeStart? && Unhex(c) == -1
    ensures StepOnce(cfg, p, c) == Bad(p, InvalidChunkSize)
  {
    hide Unhex;
  }

  /** A chunk size, in any spelling: exactly its value, below the sentinel, or an error exactly when
      the value without its last digit is above the guard. */
  lemma ChunkSizeExact(cfg: Config, p: Parser, ds: seq<byte>)
    requires p.state.ChunkSizeStart? && ds != [] && Digits(16, ds)
    requires p.nread + |ds| <= cfg.maxHeader < UINT32_SPAN
    ensures var q := p.(state := ChunkSize, contentLength := Number(16, 0, ds), nread := p.nread + |ds|);
      if Number(16, 0, ds[..|ds| - 1]) <= Guard(16) then
        Number(16, 0, ds) < NO_LENGTH && Through(cfg, p, ds, q, [])
      else
        var r := Run(cfg, p, ds, 0); r.stop.Failed? && r.p.errno == InvalidContentLength
  {
    assert DigitOf(16, ds[0]) != -1;
    assert DigitOf(16, ds[0]) == Unhex(ds[0]);
    FirstSizeDigit(cfg, p, ds[0]);
    SizeFits(16, ds);
    hide Run, DigitOf, Letters, Unhex;
    NumberRead(cfg, p, p.(state := ChunkSize, contentLength := Unhex(ds[0]), nread := p.nread + 1), 16, ds);
  }

  /** At every step inside a body of known length, the bytes delivered and the remaining length add
      up to the length it had. */
  lemma BodyConserves(cfg: Config, p: Parser, data: seq<byte>)
    requires p.state.BodyIdentity? || p.state.ChunkData?
    requires |data| < p.contentLength
    ensures Through(cfg, p, data, p.(contentLength := p.contentLength - |data|), Letters(Body, data))
  {
    if data == [] {
      ThroughNothing(cfg, p);
    } else {
      hide Settle, RunCounted;
      BodyFold(cfg, p, data, 0, |data|);
      RunUncounted(cfg, p, data, 0);
      assert data[0..|data|] == data;
      assert Letters(Body, data) + [] == Letters(Body, data);
    }
  }

  /** A body that only the end of the connection ends is begun for no message that another one may follow; the
      call that announces the end completes it, and does so again each time it is made. */
  lemma EofBody(cfg: Config, p: Parser)
    requires p.state.HeadersDone? && StepOnce(cfg, p, LF).p.state.BodyIdentityEof?
    ensures var q := StepOnce(cfg, p, LF).p;
      && NeedsEof(p) && NeedsEof(q) && !ShouldKeepAlive(q) && NewMessage(q).Dead?
      && EndOfInput(q) == (q, [NotifyCall(MessageComplete, Seen(q))], 0)
  {
    hide StepOnce;
    DoneTurn(cfg, p);
  }

  lemma DoneTurn(cfg: Config, p: Parser)
    requires p.state.HeadersDone?
    ensures StepOnce(cfg, p, LF) == StepHeadersDone(p, LF)
  {
    hide StepHeadersDone;
  }
}
