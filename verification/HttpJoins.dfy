/** Where pieces of data meet: whether the next byte of a kind goes on with what was handed over last, or begins a piece
    of its own. That depends on the state alone. */
module HttpJoins {
  import opened Bytes
  import opened HttpTypes
  import opened HttpStep
  import opened HttpSpec

  function Last(t: seq<Event>): Option<Event> {
    if t == [] then None else Some(t[|t| - 1])
  }

  lemma LastAfter(t: seq<Event>, u: seq<Event>)
    ensures Last(t + u) == if u == [] then Last(t) else Last(u)
  {
    if u == [] {
      assert t + u == t;
    }
  }

  predicate OfKind(e: Event, k: DataKind) {
    !e.Notified? && e.kind == k
  }

  /** More data of the kind belongs to the piece that was handed over last. */
  predicate Continues(last: Option<Event>, k: DataKind) {
    k.Body? || (last.Some? && OfKind(last.value, k))
  }

  // ---------------------------------------------------------------- what came last, by the state

  datatype Lead = EndsIn(kind: DataKind) | EndsNot(kind: DataKind) | Announced | Anything

  function LeadOf(s: State): Lead {
    match PhaseOf(s)
    case PStart => if s.ResOrRespH? then Announced else Anything
    case PStatusLine =>
      if s.ResStatus? then EndsIn(Status) else if s.ResLineAlmostDone? then EndsNot(Field) else Announced
    case PMethod => Announced
    case PUrl => if s.ReqSpacesBeforeUrl? then Announced else EndsIn(Url)
    case PVersion => EndsNot(Field)
    case PName => if s.HeaderField? then EndsIn(Field) else EndsNot(Field)
    case PValue =>
      if s.HeaderValueDiscardWs? || s.HeaderValueDiscardWsAlmostDone? || s.HeaderValueDiscardLws? then EndsIn(Field)
      else EndsIn(Value)
    case _ => Anything
  }

  /** In state s, the last event so far is one that the state allows. */
  predicate Leads(s: State, last: Option<Event>) {
    match LeadOf(s)
    case EndsIn(k) => Continues(last, k)
    case EndsNot(k) => !Continues(last, k)
    case Announced => last.Some? && last.value.Notified?
    case Anything => true
  }

  /** The last event after a turn. */
  function LastOf(s: State, last: Option<Event>, o: Outcome, ch: byte): Option<Event> {
    if o.note != [] then Some(o.note[|o.note| - 1])
    else if Skipping(s) then Some(Data(Body, ch))
    else if o.ctl.Next? && StrictKind(o.p.state).Some? then Some(Data(StrictKind(o.p.state).value, ch))
    else if o.mark.Some? && !s.HeaderValueStart? then Some(Begin(o.mark.value))
    else last
  }

  lemma LastOfIs(s: State, t: seq<Event>, o: Outcome, ch: byte)
    ensures Last(t + TurnTrace(s, o, ch)) == LastOf(s, Last(t), o, ch)
  {
    hide StrictKind;
    LastAfter(t, TurnTrace(s, o, ch));
  }

  predicate KeepsLead(p: Parser, last: Option<Event>, o: Outcome, ch: byte) {
    o.ctl.Fail? || Leads(o.p.state, LastOf(p.state, last, o, ch))
  }

  // What the turns of a phase can lead to.

  predicate Quiet(o: Outcome) {
    o.mark == None && o.note == []
  }

  predicate Noted(o: Outcome) {
    |o.note| == 1 && o.note[0].Notified?
  }

  lemma StartLeads(p: Parser, ch: byte, last: Option<Event>)
    requires PhaseOf(p.state).PStart? && Leads(p.state, last)
    ensures KeepsLead(p, last, StepStart(p, ch), ch)
  {
  }

  lemma StatusLineGoes(p: Parser, ch: byte)
    requires PhaseOf(p.state).PStatusLine?
    ensures var o, s, t := StepStatusLine(p, ch), p.state, StepStatusLine(p, ch).p.state;
      || o.ctl.Fail?
      || (Quiet(o) && t.ResStatus? && s.ResStatus?)
      || (o.note == [] && t.ResStatus? && s.ResStatusStart? && o.mark == Some(Status))
      || (Quiet(o) && !t.ResStatus? && PhaseOf(t).PStatusLine? && (t.ResLineAlmostDone? <==> s.ResStatus?)
          && !s.ResLineAlmostDone?)
      || (Quiet(o) && t.HeaderFieldStart? && (s.ResStatus? || s.ResLineAlmostDone?))
  {
  }

  lemma StatusLineLeads(p: Parser, ch: byte, last: Option<Event>)
    requires PhaseOf(p.state).PStatusLine? && Leads(p.state, last)
    ensures KeepsLead(p, last, StepStatusLine(p, ch), ch)
  {
    hide StepStatusLine;
    StatusLineGoes(p, ch);
  }

  lemma MethodLeads(p: Parser, ch: byte, last: Option<Event>)
    requires PhaseOf(p.state).PMethod? && Leads(p.state, last)
    ensures KeepsLead(p, last, StepMethod(p, ch), ch)
  {
  }

  lemma UrlLeads(p: Parser, ch: byte, last: Option<Event>)
    requires PhaseOf(p.state).PUrl? && Leads(p.state, last)
    ensures KeepsLead(p, last, StepUrl(p, ch), ch)
  {
    hide ParseUrlChar;
    UrlTargets(p.state, ch);
    UrlTargets(ReqServerStart, ch);
  }

  lemma VersionGoes(p: Parser, ch: byte)
    requires PhaseOf(p.state).PVersion?
    ensures var o := StepVersion(p, ch);
      o.ctl.Fail? || (Quiet(o) && (PhaseOf(o.p.state).PVersion? || o.p.state.HeaderFieldStart?))
  {
  }

  lemma VersionLeads(p: Parser, ch: byte, last: Option<Event>)
    requires PhaseOf(p.state).PVersion? && Leads(p.state, last)
    ensures KeepsLead(p, last, StepVersion(p, ch), ch)
  {
    hide StepVersion;
    VersionGoes(p, ch);
  }

  lemma NameGoes(p: Parser, ch: byte)
    requires PhaseOf(p.state).PName?
    ensures var o, s, t := StepName(p, ch), p.state, StepName(p, ch).p.state;
      || o.ctl.Fail?
      || (s.HeaderFieldStart? && Quiet(o) && t.HeadersAlmostDone?)
      || (s.HeaderFieldStart? && o.ctl.Next? && o.mark == Some(Field) && o.note == [] && t.HeaderField?)
      || (s.HeaderField? && Quiet(o) && o.ctl.Next? && (t.HeaderField? || t.HeaderValueDiscardWs?))
  {
    hide NameStep, FirstNameState, Token;
    NameStepStays(p, Token(ch));
  }

  lemma NameLeads(p: Parser, ch: byte, last: Option<Event>)
    requires PhaseOf(p.state).PName? && Leads(p.state, last)
    ensures KeepsLead(p, last, StepName(p, ch), ch)
  {
    hide StepName;
    NameGoes(p, ch);
  }

  lemma StartValueGoes(p: Parser, ch: byte)
    ensures var o := StartValue(p, ch);
      o.ctl.Fail? || (o.ctl.Next? && o.mark == Some(Value) && o.note == [] && o.p.state.HeaderValue?)
  {
  }

  lemma ValueGoes(cfg: Config, p: Parser, ch: byte)
    requires PhaseOf(p.state).PValue?
    ensures var o, s, t := StepValue(cfg, p, ch), p.state, StepValue(cfg, p, ch).p.state;
      || o.ctl.Fail?
      || (s.HeaderValue? && Quiet(o) && ((o.ctl.Next? && t.HeaderValue?) || t.HeaderAlmostDone?))
      || ((s.HeaderValueDiscardWs? || s.HeaderValueStart?) && o.ctl.Next? && o.mark == Some(Value) && o.note == []
          && t.HeaderValue?)
      || (s.HeaderAlmostDone? && Quiet(o) && t.HeaderValueLws?)
      || (s.HeaderValueLws? && Quiet(o) && (t.HeaderValueStart? || t.HeaderFieldStart?))
      || (LeadOf(s) == EndsIn(Field) && Quiet(o) && LeadOf(t) == EndsIn(Field) && StrictKind(t) == None)
      || (s.HeaderValueDiscardLws? && o.ctl.Again? && o.mark == Some(Value) && o.note == [] && t.HeaderFieldStart?)
  {
    hide ValueStep, RaiseFlag, StartValue;
    StartValueGoes(p, ch);
    if p.state.HeaderValue? {
      ValueStepStays(p, ch);
    }
  }

  lemma ValueLeads(cfg: Config, p: Parser, ch: byte, last: Option<Event>)
    requires PhaseOf(p.state).PValue? && Leads(p.state, last)
    ensures KeepsLead(p, last, StepValue(cfg, p, ch), ch)
  {
    hide StepValue;
    ValueGoes(cfg, p, ch);
  }

  lemma EndLeads(cfg: Config, p: Parser, ch: byte, last: Option<Event>)
    requires PhaseOf(p.state).PHeadersEnd?
    ensures KeepsLead(p, last, StepHeadersEnd(cfg, p, ch), ch)
  {
    hide StrictKind;
    TailsLead(StepHeadersEnd(cfg, p, ch).p.state);
  }

  lemma DoneLeads(p: Parser, ch: byte, last: Option<Event>)
    requires PhaseOf(p.state).PHeadersDone?
    ensures KeepsLead(p, last, StepHeadersDone(p, ch), ch)
  {
    hide StrictKind;
    TailsLead(StepHeadersDone(p, ch).p.state);
  }

  lemma BodyLeads(p: Parser, ch: byte, last: Option<Event>)
    requires PhaseOf(p.state).PBody?
    ensures KeepsLead(p, last, StepBody(p, ch), ch)
  {
    hide StrictKind;
    TailsLead(StepBody(p, ch).p.state);
  }

  /** After the headers, and between messages, anything may have come last. */
  lemma TailsLead(s: State)
    ensures (PhaseOf(s).PHeadersEnd? || PhaseOf(s).PHeadersDone? || PhaseOf(s).PBody? || PhaseOf(s).PChunk?
             || s.Dead? || s.StartReq? || s.StartRes? || s.StartReqOrRes?) ==> LeadOf(s) == Anything
  {
  }

  lemma ChunkGoes(p: Parser, ch: byte)
    requires PhaseOf(p.state).PChunk?
    ensures var o := StepChunk(p, ch);
      o.ctl.Fail? || LeadOf(o.p.state) == Anything || (o.p.state.HeaderFieldStart? && Noted(o))
  {
    hide Accumulate, Unhex, StrictKind;
  }

  lemma ChunkLeads(p: Parser, ch: byte, last: Option<Event>)
    requires PhaseOf(p.state).PChunk?
    ensures KeepsLead(p, last, StepChunk(p, ch), ch)
  {
    hide StepChunk;
    ChunkGoes(p, ch);
  }

  /** Every turn of the switch leads from a state that allows what came last to one that allows what then came last. */
  lemma TurnLeads(cfg: Config, p: Parser, ch: byte, last: Option<Event>)
    requires Leads(p.state, last)
    ensures KeepsLead(p, last, StepOnce(cfg, p, ch), ch)
  {
    hide KeepsLead, Leads;
    match PhaseOf(p.state)
    case PStart => StartLeads(p, ch, last);
    case PStatusLine => StatusLineLeads(p, ch, last);
    case PMethod => MethodLeads(p, ch, last);
    case PUrl => UrlLeads(p, ch, last);
    case PVersion => VersionLeads(p, ch, last);
    case PName => NameLeads(p, ch, last);
    case PValue => ValueLeads(cfg, p, ch, last);
    case PHeadersEnd => EndLeads(cfg, p, ch, last);
    case PHeadersDone => DoneLeads(p, ch, last);
    case PBody => BodyLeads(p, ch, last);
    case PChunk => ChunkLeads(p, ch, last);
  }

  // ---------------------------------------------------------------- where marks are set

  /** A mark is set where its kind cannot have come last, or for the next line of a value. */
  predicate MarkFits(s: State, o: Outcome) {
    o.mark.Some? ==>
      && !o.ctl.Fail? && o.mark != Some(Body)
      && match LeadOf(s)
         case EndsIn(k) => if s.HeaderValueStart? then o.mark == Some(k) && o.flush == None else o.mark != Some(k)
         case EndsNot(k) => o.mark == Some(k)
         case Announced => true
         case Anything => false
  }

  lemma ValueMarks(cfg: Config, p: Parser, ch: byte)
    requires PhaseOf(p.state).PValue?
    ensures MarkFits(p.state, StepValue(cfg, p, ch))
  {
    hide ValueStep, RaiseFlag;
    if p.state.HeaderValue? {
      ValueStepStays(p, ch);
    }
  }

  lemma UrlMarks(p: Parser, ch: byte)
    requires PhaseOf(p.state).PUrl?
    ensures MarkFits(p.state, StepUrl(p, ch))
  {
    hide ParseUrlChar;
  }

  lemma NameMarks(p: Parser, ch: byte)
    requires PhaseOf(p.state).PName?
    ensures MarkFits(p.state, StepName(p, ch))
  {
    hide NameStep, FirstNameState, Token;
  }

  lemma StatusMarks(p: Parser, ch: byte)
    requires PhaseOf(p.state).PStatusLine?
    ensures MarkFits(p.state, StepStatusLine(p, ch))
  {
  }

  /** No other turn sets a mark. */
  lemma UnmarkedChunk(p: Parser, ch: byte)
    ensures StepChunk(p, ch).mark == None
  {
    hide Accumulate, Unhex;
  }

  lemma UnmarkedEnd(cfg: Config, p: Parser, ch: byte)
    ensures StepHeadersEnd(cfg, p, ch).mark == None && StepHeadersDone(p, ch).mark == None && StepBody(p, ch).mark == None
  {
  }

  lemma UnmarkedLine(p: Parser, ch: byte)
    ensures StepStart(p, ch).mark == None && StepMethod(p, ch).mark == None && StepVersion(p, ch).mark == None
  {
    hide MethodWord, NextMethod, FirstMethod;
  }

  lemma TurnMarks(cfg: Config, p: Parser, ch: byte)
    ensures MarkFits(p.state, StepOnce(cfg, p, ch))
  {
    hide MarkFits;
    match PhaseOf(p.state)
    case PValue => ValueMarks(cfg, p, ch);
    case PUrl => UrlMarks(p, ch);
    case PName => NameMarks(p, ch);
    case PStatusLine => StatusMarks(p, ch);
    case _ => Unmarked(cfg, p, ch);
  }

  lemma Unmarked(cfg: Config, p: Parser, ch: byte)
    requires !PhaseOf(p.state).PValue? && !PhaseOf(p.state).PUrl? && !PhaseOf(p.state).PName?
             && !PhaseOf(p.state).PStatusLine?
    ensures MarkFits(p.state, StepOnce(cfg, p, ch))
  {
    hide PhaseOf, StepStart, StepMethod, StepVersion, StepHeadersEnd, StepHeadersDone, StepBody, StepChunk;
    UnmarkedChunk(p, ch);
    UnmarkedEnd(cfg, p, ch);
    UnmarkedLine(p, ch);
  }

  /** So a piece begins where a mark is set, but for the next line of a value. */
  lemma MarkBegins(s: State, o: Outcome, last: Option<Event>)
    requires Leads(s, last) && MarkFits(s, o) && o.mark.Some?
    ensures Continues(last, o.mark.value) <==> s.HeaderValueStart?
    ensures s.HeaderValueStart? ==> o.flush == None
  {
    if s.HeaderValueStart? {
      assert LeadOf(s) == EndsIn(Value);
    }
  }

  /** A state that is entered with a mark set again goes on with what came last. */
  lemma StrictLeads(s: State, last: Option<Event>)
    requires StrictKind(s).Some?
    ensures Leads(s, last) <==> Continues(last, StrictKind(s).value)
  {
  }

  /** A value that is empty is a piece all the same. */
  lemma EmptyValue(cfg: Config, p: Parser, ch: byte)
    requires p.state.HeaderValueDiscardLws? && !p.hstate.ContentLength? && ch != SP && ch != TAB
    ensures TurnTrace(p.state, StepOnce(cfg, p, ch), ch) == [Begin(Value)]
  {
    hide RaiseFlag;
  }

  // ---------------------------------------------------------------- runs

  lemma {:induction false} RunLeads(cfg: Config, p: Parser, data: seq<byte>, i: nat, t: seq<Event>)
    requires i <= |data| && Leads(p.state, Last(t))
    ensures var r := Run(cfg, p, data, i); !r.stop.Failed? ==> Leads(r.p.state, Last(t + r.trace))
    decreases |data| - i, 1, 0
  {
    hide Leads, Last;
    if i == |data| {
      assert t + [] == t;
    } else {
      SettleLeads(cfg, if ParsingHeader(p.state) then Counted(p, 1) else p, data, i, t);
    }
  }

  lemma {:induction false} SettleLeads(cfg: Config, p: Parser, data: seq<byte>, i: nat, t: seq<Event>)
    requires i < |data| && Leads(p.state, Last(t))
    ensures var r := RunCounted(cfg, p, data, i); !r.stop.Failed? ==> Leads(r.p.state, Last(t + r.trace))
    decreases |data| - i, 0, Rank(p.state)
  {
    hide Leads, Last, StepOnce, TurnTrace, Run, RunCounted;
    var o := StepOnce(cfg, p, data[i]);
    var u := TurnTrace(p.state, o, data[i]);
    TurnIsDisciplined(cfg, p, data[i]);
    TurnLeads(cfg, p, data[i], Last(t));
    LastOfIs(p.state, t, o, data[i]);
    RunTurn(cfg, p, data, i);
    if o.ctl.Next? {
      RunLeads(cfg, o.p, data, i + 1, t + u);
      assert (t + u) + Run(cfg, o.p, data, i + 1).trace == t + (u + Run(cfg, o.p, data, i + 1).trace);
    } else if o.ctl.Again? {
      SettleLeads(cfg, o.p, data, i, t + u);
      assert (t + u) + RunCounted(cfg, o.p, data, i).trace == t + (u + RunCounted(cfg, o.p, data, i).trace);
    }
  }
}
