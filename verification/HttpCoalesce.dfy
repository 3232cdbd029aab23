/** The calls an embedder sees when it puts together what belongs together: adjacent data calls of one kind are one
    call. They do not depend on how the input was cut, empty values included. */
module HttpCoalesce {
  import opened Bytes
  import opened HttpTypes
  import opened HttpStep
  import opened HttpSpec
  import opened HttpInvariant
  import opened HttpJoins
  import opened HttpMarks
  import opened HttpExecute

  predicate EndsWith(calls: seq<Callback>, k: DataKind) {
    calls != [] && calls[|calls| - 1].DataCall? && calls[|calls| - 1].kind == k
  }

  /** A call behind others: data goes on with data of its kind. A piece of a body that is empty is no call. */
  function Join(calls: seq<Callback>, c: Callback): seq<Callback> {
    match c
    case NotifyCall(_, _) => calls + [c]
    case DataCall(k, s) =>
      if EndsWith(calls, k) then calls[|calls| - 1 := DataCall(k, calls[|calls| - 1].bytes + s)]
      else if k.Body? && s == [] then calls
      else calls + [c]
  }

  function Coalesce(calls: seq<Callback>): seq<Callback> {
    if calls == [] then [] else Join(Coalesce(calls[..|calls| - 1]), calls[|calls| - 1])
  }

  /** The same from the events: what each adds to the calls so far. */
  function Glue(calls: seq<Callback>, e: Event): seq<Callback> {
    match e
    case Begin(k) => if EndsWith(calls, k) then calls else calls + [DataCall(k, [])]
    case Data(k, b) => Join(calls, DataCall(k, [b]))
    case Notified(what, seen) => calls + [NotifyCall(what, seen)]
  }

  function Pieces(calls: seq<Callback>, t: seq<Event>): seq<Callback>
    decreases |t|
  {
    if t == [] then calls else Pieces(Glue(calls, t[0]), t[1..])
  }

  lemma {:induction false} PiecesAppend(calls: seq<Callback>, t: seq<Event>, u: seq<Event>)
    ensures Pieces(calls, t + u) == Pieces(Pieces(calls, t), u)
    decreases |t|
  {
    hide Glue;
    if t == [] {
      assert t + u == u;
    } else {
      assert (t + u)[0] == t[0] && (t + u)[1..] == t[1..] + u;
      PiecesAppend(Glue(calls, t[0]), t[1..], u);
    }
  }

  lemma JoinTwice(calls: seq<Callback>, k: DataKind, s: seq<byte>, t: seq<byte>)
    requires EndsWith(calls, k) || !k.Body? || s != []
    ensures Join(Join(calls, DataCall(k, s)), DataCall(k, t)) == Join(calls, DataCall(k, s + t))
  {
    if EndsWith(calls, k) {
      var b := calls[|calls| - 1].bytes;
      assert b + s + t == b + (s + t);
    }
  }

  /** Bytes behind a piece of their kind extend it. */
  lemma {:induction false} LettersGlue(calls: seq<Callback>, k: DataKind, s: seq<byte>)
    requires EndsWith(calls, k) || k.Body?
    ensures Pieces(calls, Letters(k, s)) == Join(calls, DataCall(k, s))
    decreases |s|
  {
    if s == [] {
      assert Letters(k, s) == [];
      if EndsWith(calls, k) {
        assert calls[|calls| - 1].bytes + s == calls[|calls| - 1].bytes;
      }
    } else {
      var rest := s[1..];
      assert [s[0]] + rest == s;
      assert Letters(k, s)[1..] == Letters(k, rest);
      LettersGlue(Join(calls, DataCall(k, [s[0]])), k, rest);
      JoinTwice(calls, k, [s[0]], rest);
    }
  }

  /** The calls end with data of a kind exactly when the events do. */
  lemma {:induction false} EndsAlike(t: seq<Event>, k: DataKind)
    ensures var calls := Pieces([], t); EndsWith(calls, k) ==> t != [] && OfKind(t[|t| - 1], k)
    ensures var calls := Pieces([], t); t != [] && OfKind(t[|t| - 1], k) && !k.Body? ==> EndsWith(calls, k)
    decreases |t|
  {
    if t != [] {
      var init, e := t[..|t| - 1], t[|t| - 1];
      assert t == init + [e];
      PiecesAppend([], init, [e]);
      assert [e][1..] == [];
      assert Pieces([], t) == Glue(Pieces([], init), e);
      EndsAlike(init, k);
    }
  }

  /** One call more. */
  lemma SpreadGlues(t: seq<Event>, c: Callback)
    ensures Pieces(Pieces([], t), Spread(t, c)) == Join(Pieces([], t), c)
  {
    var calls := Pieces([], t);
    match c
    case NotifyCall(what, seen) =>
      assert [Notified(what, seen)][1..] == [];
    case DataCall(k, s) =>
      EndsAlike(t, k);
      if Continues(Last(t), k) {
        LettersGlue(calls, k, s);
      } else {
        var begun := calls + [DataCall(k, [])];
        assert Piece(k, s)[0] == Begin(k) && Piece(k, s)[1..] == Letters(k, s);
        LettersGlue(begun, k, s);
        JoinTwice(calls, k, [], s);
        assert [] + s == s;
      }
  }

  /** The calls put together are what the events say. */
  lemma {:induction false} CoalesceIs(calls: seq<Callback>)
    ensures Coalesce(calls) == Pieces([], Flatten(calls))
    decreases |calls|
  {
    hide Spread, Join;
    if calls != [] {
      var init, c := calls[..|calls| - 1], calls[|calls| - 1];
      CoalesceIs(init);
      PiecesAppend([], Flatten(init), Spread(Flatten(init), c));
      SpreadGlues(Flatten(init), c);
    }
  }

  /** Cut an input anywhere into two pieces. If one call on the whole input ends without an error or an upgrade, two
      calls on the pieces make the same calls into the embedder, put together. */
  lemma SplitCoalesced(cfg: Config, p: Parser, had: seq<Callback>, a: seq<byte>, b: seq<byte>,
                       whole: Parser, wholeCalls: seq<Callback>, wholeUsed: nat,
                       q: Parser, mid: seq<Callback>, n: nat,
                       parts: Parser, partCalls: seq<Callback>, m: nat)
    requires Executes(cfg, p, had, a + b, whole, wholeCalls, wholeUsed)
    requires whole.errno == Ok && !whole.upgrade
    requires Executes(cfg, p, had, a, q, mid, n)
    requires Executes(cfg, q, mid, b, parts, partCalls, m)
    ensures Coalesce(partCalls) == Coalesce(wholeCalls)
  {
    hide Executes, Flatten, Coalesce;
    SplitInvariance(cfg, p, had, a, b, whole, wholeCalls, wholeUsed, q, mid, n, parts, partCalls, m);
    CoalesceIs(partCalls);
    CoalesceIs(wholeCalls);
  }
}
