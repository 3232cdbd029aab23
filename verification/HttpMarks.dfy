/** The mark pointers of http_parser_execute and what they owe the embedder. */
module HttpMarks {
  import opened Bytes
  import opened HttpTypes
  import opened HttpStep
  import opened HttpSpec
  import opened HttpJoins

  /** The five mark pointers: a kind is present when its pointer is not null. */
  type Marks = map<DataKind, nat>

  function Letters(kind: DataKind, s: seq<byte>): (t: seq<Event>)
    ensures |t| == |s|
    ensures forall i :: 0 <= i < |s| ==> t[i] == Data(kind, s[i])
  {
    seq(|s|, i requires 0 <= i < |s| => Data(kind, s[i]))
  }

  /** A piece of data, from its beginning. */
  function Piece(kind: DataKind, s: seq<byte>): seq<Event> {
    [Begin(kind)] + Letters(kind, s)
  }

  /** A call after others, byte by byte: data of a kind goes on with the piece of that kind that came last, or begins
      one. */
  function Spread(had: seq<Event>, c: Callback): seq<Event> {
    match c
    case DataCall(k, s) => if Continues(Last(had), k) then Letters(k, s) else Piece(k, s)
    case NotifyCall(w, seen) => [Notified(w, seen)]
  }

  /** What a sequence of calls amounts to when the data of each piece is put back together. */
  function Flatten(calls: seq<Callback>): seq<Event> {
    if calls == [] then [] else
      var had := Flatten(calls[..|calls| - 1]);
      had + Spread(had, calls[|calls| - 1])
  }

  lemma FlattenPush(calls: seq<Callback>, c: Callback)
    ensures Flatten(calls + [c]) == Flatten(calls) + Spread(Flatten(calls), c)
  {
    assert (calls + [c])[..|calls|] == calls;
  }

  /** Only the mark that belongs to the state is live, and it is when the state requires it. */
  ghost predicate MarksFit(s: State, marks: Marks, i: nat) {
    && (forall k :: k in marks ==> LiveKind(s) == Some(k) && marks[k] <= i)
    && (StrictKind(s).Some? ==> StrictKind(s).value in marks)
  }

  /** The bytes in front of i that no callback has received yet, and where their piece begins. */
  ghost function Pending(had: seq<Event>, s: State, marks: Marks, data: seq<byte>, i: nat): seq<Event>
    requires MarksFit(s, marks, i) && i <= |data|
  {
    match LiveKind(s)
    case Some(k) => if k in marks then Spread(had, DataCall(k, data[marks[k]..i])) else []
    case None => []
  }

  /** What was handed over, and what is pending. */
  ghost function Handed(calls: seq<Callback>, s: State, marks: Marks, data: seq<byte>, i: nat): seq<Event>
    requires MarksFit(s, marks, i) && i <= |data|
  {
    Flatten(calls) + Pending(Flatten(calls), s, marks, data, i)
  }

  /** At most one of the five marks is live. */
  lemma OneMark(s: State, marks: Marks, i: nat)
    requires MarksFit(s, marks, i)
    ensures |marks.Keys| <= 1
  {
    if LiveKind(s).Some? {
      assert marks.Keys <= {LiveKind(s).value};
      SubsetSize(marks.Keys, {LiveKind(s).value});
    } else {
      assert marks.Keys == {};
    }
  }

  lemma SubsetSize<T>(a: set<T>, b: set<T>)
    requires a <= b
    ensures |a| <= |b|
  {
    assert a + (b - a) == b;
  }

  // ---------------------------------------------------------------- the macros

  /** MARK */
  function Marked(marks: Marks, kind: Option<DataKind>, i: nat): Marks {
    if kind.Some? && kind.value !in marks then marks[kind.value := i] else marks
  }

  /** The call that CALLBACK_DATA makes for a live mark. */
  function Delivery(marks: Marks, kind: Option<DataKind>, data: seq<byte>, i: nat): seq<Callback>
    requires i <= |data| && forall k :: k in marks ==> marks[k] <= i
  {
    if kind.Some? && kind.value in marks then [DataCall(kind.value, data[marks[kind.value]..i])] else []
  }

  function Cleared(marks: Marks, kind: Option<DataKind>): Marks {
    if kind.Some? then marks - {kind.value} else marks
  }

  function NoteCalls(note: seq<Event>): seq<Callback>
    requires |note| <= 1 && forall e <- note :: e.Notified?
  {
    if note == [] then [] else [NotifyCall(note[0].what, note[0].seen)]
  }

  lemma NoteCallsFlatten(calls: seq<Callback>, note: seq<Event>)
    requires |note| <= 1 && forall e <- note :: e.Notified?
    ensures Flatten(calls + NoteCalls(note)) == Flatten(calls) + note
  {
    if note == [] {
      assert calls + NoteCalls(note) == calls;
    } else {
      assert note[0] in note;
      FlattenPush(calls, NoteCalls(note)[0]);
      assert note == [note[0]];
    }
  }

  lemma DeliveryFlatten(calls: seq<Callback>, marks: Marks, kind: Option<DataKind>, data: seq<byte>, i: nat)
    requires i <= |data| && forall k :: k in marks ==> marks[k] <= i
    ensures Flatten(calls + Delivery(marks, kind, data, i)) ==
            Flatten(calls) + if kind.Some? && kind.value in marks
                             then Spread(Flatten(calls), DataCall(kind.value, data[marks[kind.value]..i])) else []
  {
    if Delivery(marks, kind, data, i) == [] {
      assert calls + Delivery(marks, kind, data, i) == calls;
    } else {
      FlattenPush(calls, Delivery(marks, kind, data, i)[0]);
    }
  }

  lemma LettersGrow(kind: DataKind, data: seq<byte>, m: nat, i: nat)
    requires m <= i < |data|
    ensures Letters(kind, data[m..i + 1]) == Letters(kind, data[m..i]) + [Data(kind, data[i])]
  {
    assert data[m..i + 1] == data[m..i] + [data[i]];
  }

  lemma LettersJoin(kind: DataKind, data: seq<byte>, m: nat, i: nat, j: nat)
    requires m <= i <= j <= |data|
    ensures Letters(kind, data[m..i]) + Letters(kind, data[i..j]) == Letters(kind, data[m..j])
  {
    assert data[m..i] + data[i..j] == data[m..j];
  }

  // ---------------------------------------------------------------- one turn

  function MarksAfter(marks: Marks, o: Outcome, i: nat): Marks {
    Cleared(Marked(marks, o.mark, i), o.flush)
  }

  function CallsAfter(calls: seq<Callback>, marks: Marks, o: Outcome, data: seq<byte>, i: nat): seq<Callback>
    requires i <= |data| && forall k :: k in marks ==> marks[k] <= i
    requires |o.note| <= 1 && forall e <- o.note :: e.Notified?
  {
    calls + Delivery(Marked(marks, o.mark, i), o.flush, data, i) + NoteCalls(o.note)
  }

  /** A turn that does nothing but deliver a live mark. */
  lemma DeliversOnly(calls: seq<Callback>, marks: Marks, o: Outcome, kind: DataKind, data: seq<byte>, i: nat)
    requires i <= |data| && kind in marks && forall k :: k in marks ==> marks[k] <= i
    requires o.mark == None && o.flush == Some(kind) && o.note == []
    ensures MarksAfter(marks, o, i) == marks - {kind}
    ensures CallsAfter(calls, marks, o, data, i) == calls + [DataCall(kind, data[marks[kind]..i])]
  {
  }

  lemma StrictIsLive(s: State)
    ensures StrictKind(s).Some? ==> LiveKind(s) == StrictKind(s)
  {
  }

  lemma OwnedOutsideSkips(s: State, o: Outcome, ch: byte)
    requires !Skipping(s)
    ensures Owned(s, o, ch) == if o.ctl.Next? && StrictKind(o.p.state).Some?
                               then [Data(StrictKind(o.p.state).value, ch)] else []
  {
    hide StrictKind;
  }

  lemma SpreadGrows(had: seq<Event>, kind: DataKind, data: seq<byte>, m: nat, i: nat)
    requires m <= i < |data|
    ensures Spread(had, DataCall(kind, data[m..i + 1])) == Spread(had, DataCall(kind, data[m..i])) + [Data(kind, data[i])]
  {
    LettersGrow(kind, data, m, i);
  }

  /** No mark is live in the state. */
  ghost predicate NothingLive(s: State, marks: Marks) {
    LiveKind(s).Some? ==> LiveKind(s).value !in marks
  }

  /** The marks after a turn suit its target state. The data they cover, if the turn delivered none, is the data they
      covered before and that of the turn; if it delivered, nothing is pending any more. */
  lemma TurnKeepsMarks(p: Parser, o: Outcome, had: seq<Event>, marks: Marks, data: seq<byte>, i: nat)
    requires i < |data| && !Skipping(p.state) && MarksFit(p.state, marks, i)
    requires (o.ctl.Next? || o.ctl.Again?) && KeepsMarks(p.state, o) && MarkFits(p.state, o)
    requires marks == map[] ==> Leads(p.state, Last(had))
    ensures var j := if o.ctl.Next? then i + 1 else i;
      var marked, after := Marked(marks, o.mark, i), MarksAfter(marks, o, i);
      && MarksFit(o.p.state, after, j)
      && (o.flush == None ==>
            && Pending(had, o.p.state, after, data, j)
               == Pending(had, p.state, marks, data, i) + TurnData(p.state, o, data[i])
            && (o.note == [] || NothingLive(o.p.state, after)))
      && (o.flush.Some? ==>
            && NothingLive(o.p.state, after)
            && Pending(had, p.state, marks, data, i) + TurnData(p.state, o, data[i])
               == if o.flush.value in marked
                  then Spread(had, DataCall(o.flush.value, data[marked[o.flush.value]..i])) else [])
  {
    var s, t := p.state, o.p.state;
    StrictIsLive(s);
    StrictIsLive(t);
    OwnedOutsideSkips(s, o, data[i]);
    if o.mark.Some? && marks == map[] {
      MarkBegins(s, o, Last(had));
    }
    hide StrictKind, LiveKind, Skipping, Owned, MarkFits, Leads, Continues;
    if LiveKind(s).Some? {
      var k := LiveKind(s).value;
      if o.flush == None {
        SpreadGrows(had, k, data, marks[k], i);
      }
    } else {
      assert marks == map[];
      if o.mark != None && o.ctl.Next? {
        assert data[i..i + 1] == [data[i]];
      }
    }
  }

  /** A turn outside the bulk skips owes the embedder exactly the turn's own trace: delivered and
      pending data together grow by what the fold hands over. */
  lemma TurnKeepsAccounts(p: Parser, o: Outcome, calls: seq<Callback>, marks: Marks, data: seq<byte>, i: nat)
    requires i < |data| && !Skipping(p.state) && Disciplined(p, o) && MarksFit(p.state, marks, i)
    requires o.ctl.Next? || o.ctl.Again?
    requires MarkFits(p.state, o) && Leads(p.state, Last(Handed(calls, p.state, marks, data, i)))
    ensures var j := if o.ctl.Next? then i + 1 else i;
      && MarksFit(o.p.state, MarksAfter(marks, o, i), j)
      && Handed(CallsAfter(calls, marks, o, data, i), o.p.state, MarksAfter(marks, o, i), data, j)
         == Handed(calls, p.state, marks, data, i) + TurnTrace(p.state, o, data[i])
  {
    hide StrictKind, LiveKind, Skipping, Rank, TurnData, ParsingHeader, MarkFits, Leads, Flatten, Spread, NoteCalls,
         MarksAfter, Delivery, Pending, NothingLive, MarksFit;
    var had, marked, left := Flatten(calls), Marked(marks, o.mark, i), MarksAfter(marks, o, i);
    var j := if o.ctl.Next? then i + 1 else i;
    NothingMarked(calls, p.state, marks, data, i);
    MarksBehind(p.state, marks, i);
    TurnKeepsMarks(p, o, had, marks, data, i);
    DeliveryFlatten(calls, marked, o.flush, data, i);
    NoteCallsFlatten(calls + Delivery(marked, o.flush, data, i), o.note);
    var d := if o.flush.Some? && o.flush.value in marked
             then Spread(had, DataCall(o.flush.value, data[marked[o.flush.value]..i])) else [];
    var before, now := Pending(had, p.state, marks, data, i), Flatten(CallsAfter(calls, marks, o, data, i));
    if o.flush == None && o.note == [] {
      assert now == had + [] + [] == had;
    } else {
      NothingPending(had, o.p.state, left, data, j);
      NothingPending(now, o.p.state, left, data, j);
    }
    Balance(had, d, o.note, before, TurnData(p.state, o, data[i]), Pending(now, o.p.state, left, data, j));
  }

  lemma MarksBehind(s: State, marks: Marks, i: nat)
    requires MarksFit(s, marks, i)
    ensures forall k :: k in marks ==> marks[k] <= i
  {
  }

  lemma NothingPending(had: seq<Event>, s: State, marks: Marks, data: seq<byte>, i: nat)
    requires MarksFit(s, marks, i) && i <= |data| && NothingLive(s, marks)
    ensures Pending(had, s, marks, data, i) == []
  {
  }

  lemma NothingMarked(calls: seq<Callback>, s: State, marks: Marks, data: seq<byte>, i: nat)
    requires MarksFit(s, marks, i) && i <= |data|
    ensures marks == map[] ==> Handed(calls, s, marks, data, i) == Flatten(calls)
  {
    hide Flatten;
    assert Flatten(calls) + [] == Flatten(calls);
  }

  lemma Balance<T>(f: seq<T>, d: seq<T>, note: seq<T>, before: seq<T>, data: seq<T>, after: seq<T>)
    requires || (d == [] && after == before + data && (note == [] || after == []))
             || (d == before + data && after == [])
    ensures f + d + note + after == f + before + (data + note)
  {
    if d == [] && after == before + data && note != [] {
      assert before == [] && data == [] by {
        assert |before + data| == |before| + |data|;
      }
    }
  }

  /** An early return of an upgraded connection leaves nothing pending. */
  lemma ExitKeepsAccounts(p: Parser, o: Outcome, calls: seq<Callback>, marks: Marks, data: seq<byte>, i: nat)
    requires i < |data| && !Skipping(p.state) && Disciplined(p, o) && MarksFit(p.state, marks, i)
    requires o.ctl.Exit?
    ensures Flatten(CallsAfter(calls, marks, o, data, i))
            == Handed(calls, p.state, marks, data, i) + TurnTrace(p.state, o, data[i])
  {
    assert marks == map[];
    assert calls + [] == calls;
    NoteCallsFlatten(calls, o.note);
  }

  /** An error leaves pending data undelivered, and delivers nothing the fold does not. */
  lemma FailKeepsAccounts(p: Parser, o: Outcome, calls: seq<Callback>, marks: Marks, data: seq<byte>, i: nat)
    requires i < |data| && !Skipping(p.state) && Disciplined(p, o) && MarksFit(p.state, marks, i)
    requires o.ctl.Fail? && MarkFits(p.state, o)
    ensures Flatten(calls + NoteCalls(o.note))
            <= Handed(calls, p.state, marks, data, i) + TurnTrace(p.state, o, data[i])
  {
    NoteCallsFlatten(calls, o.note);
    OwnedOutsideSkips(p.state, o, data[i]);
    hide StrictKind, LiveKind, Skipping, Rank, Owned, ParsingHeader, KeepsMarks, Flatten, NoteCalls, LeadOf, Spread;
  }

  /** A body state marks its first byte unless a mark is live already; either way the mark covers
      what was pending and what is skipped. */
  lemma SkipCovers(had: seq<Event>, s: State, marks: Marks, data: seq<byte>, i: nat, e: nat)
    requires Skipping(s) && MarksFit(s, marks, i) && i < e <= |data|
    ensures var marked := Marked(marks, Some(Body), i);
      && marked.Keys == {Body} && marked[Body] <= i
      && Spread(had, DataCall(Body, data[marked[Body]..e])) == Pending(had, s, marks, data, i) + Letters(Body, data[i..e])
  {
    if Body in marks {
      LettersJoin(Body, data, marks[Body], i, e);
    }
  }

  // ---------------------------------------------------------------- entry and exit

  /** The marks http_parser_execute sets before it looks at the first byte. */
  function Remarked(s: State): Marks {
    if StrictKind(s).Some? then map[StrictKind(s).value := 0] else map[]
  }

  lemma RemarkedFits(had: seq<Event>, s: State, data: seq<byte>)
    requires Leads(s, Last(had))
    ensures MarksFit(s, Remarked(s), 0) && Pending(had, s, Remarked(s), data, 0) == []
  {
    StrictIsLive(s);
    if StrictKind(s).Some? {
      StrictLeads(s, Last(had));
    }
    hide StrictKind, LiveKind, Leads;
  }

  /** The five CALLBACK_DATA calls for marks that are left over at the end of the buffer. */
  function Leftover(marks: Marks, data: seq<byte>): seq<Callback>
    requires forall k :: k in marks ==> marks[k] <= |data|
  {
    Delivery(marks, Some(Field), data, |data|) + Delivery(marks, Some(Value), data, |data|)
    + Delivery(marks, Some(Url), data, |data|) + Delivery(marks, Some(Body), data, |data|)
    + Delivery(marks, Some(Status), data, |data|)
  }

  lemma LeftoverFlatten(s: State, calls: seq<Callback>, marks: Marks, data: seq<byte>)
    requires MarksFit(s, marks, |data|)
    ensures Flatten(calls + Leftover(marks, data)) == Handed(calls, s, marks, data, |data|)
  {
    hide Flatten, StrictKind;
    if LiveKind(s).Some? && LiveKind(s).value in marks {
      var k := LiveKind(s).value;
      assert marks.Keys == {k};
      assert Delivery(marks, Some(k), data, |data|) == [DataCall(k, data[marks[k]..|data|])];
      assert forall j :: j != k ==> Delivery(marks, Some(j), data, |data|) == [];
      assert Leftover(marks, data) == [DataCall(k, data[marks[k]..|data|])];
      FlattenPush(calls, DataCall(k, data[marks[k]..|data|]));
    } else {
      assert marks == map[];
      assert calls + Leftover(marks, data) == calls && Flatten(calls) + [] == Flatten(calls);
    }
  }
}
