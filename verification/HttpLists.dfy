/** What a Connection value means as a list, and when the parser reads all of that. */
module HttpLists {
  import opened Bytes
  import opened HttpTypes
  import opened HttpStep
  import opened HttpNames
  import opened HttpValues

  // ---------------------------------------------------------------- the meaning of a list

  predicate IsBlank(ch: byte) {
    ch == SP || ch == TAB
  }

  function TrimFront(s: seq<byte>): seq<byte> {
    if s != [] && IsBlank(s[0]) then TrimFront(s[1..]) else s
  }

  function TrimBack(s: seq<byte>): seq<byte> {
    if s != [] && IsBlank(s[|s| - 1]) then TrimBack(s[..|s| - 1]) else s
  }

  /** The part names the option: section 7 of RFC 7230 allows spaces and tabs around it. */
  predicate Means(seg: seq<byte>, word: string) {
    Is(LowerAll(TrimBack(TrimFront(seg))), word)
  }

  predicate Lists(segs: seq<seq<byte>>, word: string) {
    exists i :: 0 <= i < |segs| && Means(segs[i], word)
  }

  /** The flags with those of the list added. */
  function ListFlags(f: Flags, segs: seq<seq<byte>>): Flags {
    f.(keepAlive := f.keepAlive || Lists(segs, "keep-alive"),
       close := f.close || Lists(segs, "close"),
       connUpgrade := f.connUpgrade || Lists(segs, "upgrade"))
  }

  // ---------------------------------------------------------------- which parts are read

  /** A comma right behind this part is no separator when the part begins an option: the part is a proper
      beginning of a keyword, as an empty first part is. */
  predicate TakesComma(segs: seq<seq<byte>>, i: nat)
    requires i < |segs|
  {
    Swallows(Stripped(segs[i]))
  }

  /** How many parts in a row, right before part i, take a comma. */
  function TakenRun(segs: seq<seq<byte>>, i: nat): nat
    requires i < |segs|
  {
    if i == 0 || !TakesComma(segs, i - 1) then 0 else 1 + TakenRun(segs, i - 1)
  }

  /** Part i begins an option of its own: every second of a row takes the comma of the one before. */
  predicate Separate(segs: seq<seq<byte>>, i: nat)
    requires i < |segs|
  {
    TakenRun(segs, i) % 2 == 0
  }

  /** Part i is read as an option: it begins one, and so far every part behind the first that does opens. */
  predicate IsRead(segs: seq<seq<byte>>, i: nat)
    requires i < |segs|
  {
    Separate(segs, i) && forall j :: 0 < j <= i && Separate(segs, j) ==> Opens(Stripped(segs[j]))
  }

  /** The option is in a part that is read, with nothing but spaces around it. */
  predicate Reads(segs: seq<seq<byte>>, word: string) {
    exists i :: 0 <= i < |segs| && IsRead(segs, i) && Named(Stripped(segs[i]), word)
  }

  // ---------------------------------------------------------------- the search, by positions

  predicate LostAt(segs: seq<seq<byte>>, lost: bool, i: nat)
    requires i < |segs|
  {
    if i == 0 then lost else !LostAt(segs, lost, i - 1) && Swallows(Stripped(segs[i - 1]))
  }

  predicate Looked(segs: seq<seq<byte>>, lost: bool, i: nat)
    requires i < |segs|
  {
    !LostAt(segs, lost, i) && forall j :: 0 <= j <= i && !LostAt(segs, lost, j) ==> Opens(Stripped(segs[j]))
  }

  function NextLost(seg: seq<byte>, lost: bool): bool {
    !lost && Swallows(Stripped(seg))
  }

  lemma {:induction false} LostBehind(segs: seq<seq<byte>>, lost: bool, i: nat)
    requires 0 < i < |segs|
    ensures LostAt(segs, lost, i) == LostAt(segs[1..], NextLost(segs[0], lost), i - 1)
    decreases i
  {
    hide Swallows, Stripped;
    if i > 1 {
      LostBehind(segs, lost, i - 1);
    }
  }

  lemma LookedBehind(segs: seq<seq<byte>>, lost: bool, i: nat)
    requires 0 < i < |segs|
    ensures Looked(segs, lost, i) <==>
            (lost || Opens(Stripped(segs[0]))) && Looked(segs[1..], NextLost(segs[0], lost), i - 1)
  {
    hide Swallows, Stripped, Opens, NextLost;
    var rest, next := segs[1..], NextLost(segs[0], lost);
    forall j | 0 < j <= i
      ensures LostAt(segs, lost, j) == LostAt(rest, next, j - 1) && rest[j - 1] == segs[j]
    {
      LostBehind(segs, lost, j);
    }
    if Looked(segs, lost, i) {
      forall j | 0 <= j <= i - 1 && !LostAt(rest, next, j)
        ensures Opens(Stripped(rest[j]))
      {
        assert !LostAt(segs, lost, j + 1);
      }
      assert LostAt(segs, lost, 0) == lost;
    }
    if (lost || Opens(Stripped(segs[0]))) && Looked(rest, next, i - 1) {
      forall j | 0 <= j <= i && !LostAt(segs, lost, j)
        ensures Opens(Stripped(segs[j]))
      {
        if j > 0 {
          assert !LostAt(rest, next, j - 1);
        }
      }
    }
  }

  ghost predicate Found(segs: seq<seq<byte>>, lost: bool, word: string) {
    exists i :: 0 <= i < |segs| && Looked(segs, lost, i) && Named(Stripped(segs[i]), word)
  }

  lemma FoundFront(segs: seq<seq<byte>>, lost: bool, word: string)
    requires segs != []
    ensures var b := Stripped(segs[0]);
      Found(segs, lost, word) <==>
        || (!lost && Opens(b) && Named(b, word))
        || ((lost || Opens(b)) && Found(segs[1..], NextLost(segs[0], lost), word))
  {
    hide Swallows, Stripped, Opens, NextLost, Named, Looked;
    var rest, next := segs[1..], NextLost(segs[0], lost);
    assert Looked(segs, lost, 0) <==> !lost && Opens(Stripped(segs[0])) by {
      LookedFirst(segs, lost);
    }
    forall i | 0 < i < |segs|
      ensures Looked(segs, lost, i) <==> (lost || Opens(Stripped(segs[0]))) && Looked(rest, next, i - 1)
      ensures rest[i - 1] == segs[i]
    {
      LookedBehind(segs, lost, i);
    }
    if Found(rest, next, word) && (lost || Opens(Stripped(segs[0]))) {
      var i :| 0 <= i < |rest| && Looked(rest, next, i) && Named(Stripped(rest[i]), word);
      assert Looked(segs, lost, i + 1) && segs[i + 1] == rest[i];
    }
    if Found(segs, lost, word) {
      var i :| 0 <= i < |segs| && Looked(segs, lost, i) && Named(Stripped(segs[i]), word);
      if i > 0 {
        assert Looked(rest, next, i - 1) && rest[i - 1] == segs[i];
      }
    }
  }

  lemma LookedFirst(segs: seq<seq<byte>>, lost: bool)
    requires segs != []
    ensures Looked(segs, lost, 0) <==> !lost && Opens(Stripped(segs[0]))
  {
    hide Opens, Stripped;
    assert LostAt(segs, lost, 0) == lost;
  }

  /** The search of the parser, by positions. */
  lemma {:induction false} LookedFound(segs: seq<seq<byte>>, lost: bool, word: string)
    ensures Has(LookedAt(segs, lost), word) <==> Found(segs, lost, word)
    decreases |segs|
  {
    hide Swallows, Stripped, Opens, Named, Has, Found;
    if segs == [] {
      HasNone(word);
      NoneFound(lost, word);
    } else {
      var b, rest := Stripped(segs[0]), segs[1..];
      FoundFront(segs, lost, word);
      LookedFound(rest, NextLost(segs[0], lost), word);
      if !lost && Opens(b) {
        HasMore([b], LookedAt(rest, Swallows(b)), word);
        HasOne(b, word);
      } else if !lost {
        HasNone(word);
      }
    }
  }

  lemma NoneFound(lost: bool, word: string)
    ensures !Found([], lost, word)
  {
  }

  lemma {:induction false} SeparateIsKept(segs: seq<seq<byte>>, i: nat)
    requires 0 < i < |segs| && (segs[0] != [] ==> segs[0][0] != SP)
    ensures Separate(segs, i) <==> !LostAt(segs[1..], segs[0] == [] || Swallows(segs[0]), i - 1)
    decreases i
  {
    hide Swallows, Separate;
    assert segs[0] != [] ==> Stripped(segs[0]) == segs[0];
    assert segs[0] == [] ==> Stripped(segs[0]) == [];
    SeparateSteps(segs, i);
    NothingSwallows();
    if i > 1 {
      SeparateIsKept(segs, i - 1);
      assert segs[1..][i - 2] == segs[i - 1];
    } else {
      assert Separate(segs, 0) by {
        SeparateFirst(segs);
      }
    }
  }

  lemma SeparateSteps(segs: seq<seq<byte>>, i: nat)
    requires 0 < i < |segs|
    ensures Separate(segs, i) <==> !(TakesComma(segs, i - 1) && Separate(segs, i - 1))
  {
    hide TakesComma;
    assert TakenRun(segs, i) == if TakesComma(segs, i - 1) then 1 + TakenRun(segs, i - 1) else 0;
  }

  lemma SeparateFirst(segs: seq<seq<byte>>)
    requires segs != []
    ensures Separate(segs, 0)
  {
  }

  lemma NothingSwallows()
    ensures Swallows([])
  {
  }

  lemma ReadIsLooked(segs: seq<seq<byte>>, i: nat)
    requires 0 < i < |segs| && (segs[0] != [] ==> segs[0][0] != SP)
    ensures IsRead(segs, i) <==> Looked(segs[1..], segs[0] == [] || Swallows(segs[0]), i - 1)
  {
    hide Swallows, Stripped, Opens, Separate;
    var rest, lost := segs[1..], segs[0] == [] || Swallows(segs[0]);
    forall j | 0 < j <= i
      ensures Separate(segs, j) <==> !LostAt(rest, lost, j - 1)
      ensures rest[j - 1] == segs[j]
    {
      SeparateIsKept(segs, j);
    }
    if IsRead(segs, i) {
      forall j | 0 <= j <= i - 1 && !LostAt(rest, lost, j)
        ensures Opens(Stripped(rest[j]))
      {
        assert Separate(segs, j + 1);
      }
    }
    if Looked(rest, lost, i - 1) {
      forall j | 0 < j <= i && Separate(segs, j)
        ensures Opens(Stripped(segs[j]))
      {
        assert !LostAt(rest, lost, j - 1);
      }
    }
  }

  /** The parser finds an option if and only if it stands, with nothing but spaces around it, in a part that is
      read. */
  lemma OptionsExact(segs: seq<seq<byte>>, word: string)
    requires segs != [] && (segs[0] != [] ==> segs[0][0] != SP) && word != ""
    ensures Has(Options(segs), word) <==> Reads(segs, word)
  {
    hide Swallows, Opens, Has, LookedAt, Looked, Separate, IsRead, Named, Stripped;
    var rest, lost := segs[1..], segs[0] == [] || Swallows(segs[0]);
    LookedFound(rest, lost, word);
    FirstIsRead(segs, word);
    if segs[0] != [] {
      HasMore([segs[0]], LookedAt(rest, lost), word);
      HasOne(segs[0], word);
    }
    forall i | 0 < i < |segs|
      ensures IsRead(segs, i) <==> Looked(rest, lost, i - 1)
      ensures rest[i - 1] == segs[i]
    {
      ReadIsLooked(segs, i);
    }
    if Found(rest, lost, word) {
      var i :| 0 <= i < |rest| && Looked(rest, lost, i) && Named(Stripped(rest[i]), word);
      assert IsRead(segs, i + 1) && segs[i + 1] == rest[i];
    }
    if Reads(segs, word) {
      var i :| 0 <= i < |segs| && IsRead(segs, i) && Named(Stripped(segs[i]), word);
      if i > 0 {
        assert Looked(rest, lost, i - 1) && rest[i - 1] == segs[i];
      }
    }
  }

  lemma FirstIsRead(segs: seq<seq<byte>>, word: string)
    requires segs != [] && (segs[0] != [] ==> segs[0][0] != SP) && word != ""
    ensures IsRead(segs, 0) && Stripped(segs[0]) == segs[0]
    ensures segs[0] == [] ==> !Named(Stripped(segs[0]), word)
  {
    assert TakenRun(segs, 0) == 0;
  }

  // ---------------------------------------------------------------- what is read is on the list

  lemma {:induction false} TrimStripped(seg: seq<byte>)
    ensures TrimFront(seg) == TrimFront(Stripped(seg))
    decreases |seg|
  {
    if seg != [] && seg[0] == SP {
      TrimStripped(seg[1..]);
    }
  }

  lemma {:induction false} TrimSpaces(t: seq<byte>, n: nat)
    requires n <= |t| && forall i :: n <= i < |t| ==> t[i] == SP
    requires n > 0 && !IsBlank(t[n - 1])
    ensures TrimBack(t) == t[..n]
    decreases |t|
  {
    if |t| > n {
      var front := t[..|t| - 1];
      assert front[n - 1] == t[n - 1] && front[..n] == t[..n];
      TrimSpaces(front, n);
    } else {
      assert t[..n] == t;
    }
  }

  /** A word that neither begins nor ends like a lowered blank. */
  predicate IsWord(word: string) {
    word != "" && word[0] != ' ' && word[0] != ')' && word[|word| - 1] != ' ' && word[|word| - 1] != ')'
  }

  lemma NamedMeans(seg: seq<byte>, word: string)
    requires Named(Stripped(seg), word) && IsWord(word)
    ensures Means(seg, word)
  {
    hide Stripped;
    var t, n := Stripped(seg), |word|;
    TrimStripped(seg);
    var low := LowerAll(t[..n]);
    assert low[0] == Lower(t[0]) && low[n - 1] == Lower(t[n - 1]);
    assert low[0] == word[0] as int && low[n - 1] == word[n - 1] as int;
    BlankLowered(t[0]);
    BlankLowered(t[n - 1]);
    TrimSpaces(t, n);
  }

  lemma BlankLowered(ch: byte)
    ensures IsBlank(ch) ==> Lower(ch) == ' ' as int || Lower(ch) == ')' as int
  {
  }

  lemma ReadIsListed(segs: seq<seq<byte>>, word: string)
    requires IsWord(word)
    ensures Reads(segs, word) ==> Lists(segs, word)
  {
    hide Means, Named, IsRead, Stripped;
    if Reads(segs, word) {
      var i :| 0 <= i < |segs| && IsRead(segs, i) && Named(Stripped(segs[i]), word);
      NamedMeans(segs[i], word);
    }
  }

  /** Every keyword on the list stands in a part that is read, with nothing but spaces around it. */
  predicate KeywordsRead(segs: seq<seq<byte>>) {
    && (Lists(segs, "keep-alive") ==> Reads(segs, "keep-alive"))
    && (Lists(segs, "close") ==> Reads(segs, "close"))
    && (Lists(segs, "upgrade") ==> Reads(segs, "upgrade"))
  }

  /** The flags that a Connection value raises are those of its list, whatever they were before, if and only if
      every keyword on the list is read. */
  lemma FlagsMeanList(segs: seq<seq<byte>>)
    requires segs != [] && (segs[0] != [] ==> segs[0][0] != SP)
    ensures (forall f: Flags :: Raised(f, Options(segs)) == ListFlags(f, segs)) <==> KeywordsRead(segs)
  {
    hide Has, Options, Lists, Reads;
    OptionsExact(segs, "keep-alive");
    OptionsExact(segs, "close");
    OptionsExact(segs, "upgrade");
    ReadIsListed(segs, "keep-alive");
    ReadIsListed(segs, "close");
    ReadIsListed(segs, "upgrade");
    if forall f: Flags :: Raised(f, Options(segs)) == ListFlags(f, segs) {
      assert Raised(NO_FLAGS, Options(segs)) == ListFlags(NO_FLAGS, segs);
    }
  }

  // ---------------------------------------------------------------- when the whole list is read

  function Bodies(segs: seq<seq<byte>>): (bs: seq<seq<byte>>)
    ensures |bs| == |segs| && forall i :: 0 <= i < |segs| ==> bs[i] == Stripped(segs[i])
  {
    seq(|segs|, i requires 0 <= i < |segs| => Stripped(segs[i]))
  }

  /** The first part is not empty, every other one opens, and no part with a comma behind it is a proper
      beginning of a keyword. */
  predicate PlainList(segs: seq<seq<byte>>)
    requires segs != []
  {
    && segs[0] != []
    && (forall i :: 0 < i < |segs| ==> Opens(Stripped(segs[i])))
    && (forall i :: 0 <= i < |segs| - 1 ==> !Swallows(Stripped(segs[i])))
  }

  /** The parser looks at every part of a value as an option if and only if the list is plain: no part is
      empty or opens with a byte like '_' or the tab, and none is "k,", "cl," or the like. */
  lemma WholeListExact(segs: seq<seq<byte>>)
    requires segs != [] && (segs[0] != [] ==> segs[0][0] != SP)
    ensures Options(segs) == Bodies(segs) <==> PlainList(segs)
  {
    hide Swallows, Opens, LookedAt;
    var first, rest := segs[0], segs[1..];
    BodiesFront(segs);
    if first == [] {
      SeenAll(rest, true);
    } else {
      SeenAll(rest, Swallows(first));
      assert Stripped(first) == first;
      PlainFront(segs);
      SameTail(first, LookedAt(rest, Swallows(first)), Bodies(rest));
    }
  }

  lemma BodiesFront(segs: seq<seq<byte>>)
    requires segs != []
    ensures Bodies(segs) == [Stripped(segs[0])] + Bodies(segs[1..])
  {
    hide Stripped;
  }

  lemma SameTail(b: seq<byte>, x: seq<seq<byte>>, y: seq<seq<byte>>)
    ensures [b] + x == [b] + y <==> x == y
  {
    assert ([b] + x)[1..] == x && ([b] + y)[1..] == y;
  }

  predicate PlainBehind(segs: seq<seq<byte>>, lost: bool) {
    segs == [] || (!lost && Opens(Stripped(segs[0])) && PlainList(segs))
  }

  lemma PlainFront(segs: seq<seq<byte>>)
    requires segs != []
    ensures PlainList(segs) <==> segs[0] != [] && PlainBehind(segs[1..], Swallows(Stripped(segs[0])))
  {
    hide Swallows, Opens, Stripped;
    OpensNotEmpty(segs);
    var rest := segs[1..];
    if PlainList(segs) && rest != [] {
      assert rest[0] == segs[1];
    }
    if PlainBehind(rest, Swallows(Stripped(segs[0]))) && rest != [] {
      forall i | 0 < i < |segs|
        ensures Opens(Stripped(segs[i]))
      {
        assert segs[i] == rest[i - 1];
      }
      forall i | 0 <= i < |segs| - 1
        ensures !Swallows(Stripped(segs[i]))
      {
        if i > 0 {
          assert segs[i] == rest[i - 1];
        }
      }
    }
  }

  lemma OpensNotEmpty(segs: seq<seq<byte>>)
    ensures forall i :: 0 <= i < |segs| && Opens(Stripped(segs[i])) ==> segs[i] != []
  {
  }

  lemma {:induction false} SeenAll(segs: seq<seq<byte>>, lost: bool)
    ensures |LookedAt(segs, lost)| <= |segs| && (segs != [] && lost ==> |LookedAt(segs, lost)| < |segs|)
    ensures LookedAt(segs, lost) == Bodies(segs) <==> PlainBehind(segs, lost)
    decreases |segs|
  {
    hide Swallows, Opens, PlainList, Stripped, Bodies;
    OpensNotEmpty(segs);
    if segs != [] {
      var b, rest := Stripped(segs[0]), segs[1..];
      if lost {
        SeenAll(rest, false);
      } else if Opens(b) {
        SeenAll(rest, Swallows(b));
        PlainFront(segs);
        BodiesFront(segs);
        SameTail(b, LookedAt(rest, Swallows(b)), Bodies(rest));
      }
    }
  }

  /** A later option that begins with '_' or a tab ends the search, although RFC 7230 allows both there. */
  lemma UnderscoreAndTabEnd(b: seq<byte>)
    requires b != [] && (b[0] == 95 || b[0] == TAB)
    ensures !Opens(b) && LookedAt([b], false) == []
  {
    assert Lower(95) == 127 && Lower(TAB) == 41 && Token(127) == 0 && Token(41) == 0;
    assert Stripped(b) == b;
  }

  // ---------------------------------------------------------------- lists that are not read

  const CLOSE: seq<byte> := [99, 108, 111, 115, 101]

  /** The comma of "k,close" is compared with a keyword, that of ",close" is the first byte of an option, and the
      tab of the last is no space. */
  lemma CloseUnseen(v: seq<byte>)
    requires v == [107, COMMA] + CLOSE || v == [COMMA] + CLOSE || v == CLOSE + [TAB]
    ensures Lists(Split(v), "close") && forall f: Flags :: Raised(f, Options(Split(v))) == f
  {
    hide Split, Options, Raised, Means, Swallows, Named, Partial, TrimBack, TrimFront, Is;
    if v[0] == 107 {
      SplitTwo([107], v);
      OnlyFirst(Split(v));
      OneLetter(107);
      CloseMeans(CLOSE);
      assert Means(Split(v)[1], "close");
      NoneRaised([107]);
    } else if v[0] == COMMA {
      SplitTwo([], v);
      OnlyFirst(Split(v));
      CloseMeans(CLOSE);
      assert Means(Split(v)[1], "close");
      forall f: Flags
        ensures Raised(f, []) == f
      {
        RaisedMore(f, [], []);
      }
    } else {
      SplitOne(v);
      OnlyOne(v);
      CloseMeans(v);
      assert Means(Split(v)[0], "close");
      TabNames(v);
      NoneRaised(v);
    }
  }

  lemma SplitTwo(first: seq<byte>, v: seq<byte>)
    requires COMMA !in first && v == first + [COMMA] + CLOSE
    ensures Split(v) == [first, CLOSE]
  {
    hide Split;
    assert [first, CLOSE][1..] == [CLOSE] && [CLOSE][1..] == [] && RestJoined([]) == [];
    assert RestJoined([CLOSE]) == [COMMA] + CLOSE;
    assert Join([first, CLOSE]) == v;
    SplitJoin([first, CLOSE]);
  }

  lemma SplitOne(v: seq<byte>)
    requires COMMA !in v
    ensures Split(v) == [v]
  {
    hide Split;
    assert [v][1..] == [] && RestJoined([]) == [];
    assert Join([v]) == v;
    SplitJoin([v]);
  }

  /** The first part takes the comma, so that the second is not looked at. */
  lemma OnlyFirst(segs: seq<seq<byte>>)
    requires |segs| == 2 && (segs[0] == [] || segs[0] == [107])
    ensures Options(segs) == if segs[0] == [] then [] else [segs[0]]
  {
    hide Partial, Named;
    OneLetter(107);
    var rest := segs[1..];
    assert rest == [segs[1]] && rest[1..] == [];
    assert LookedAt([segs[1]], true) == [];
  }

  lemma OnlyOne(b: seq<byte>)
    requires b != []
    ensures Options([b]) == [b]
  {
    hide Swallows;
    assert [b][1..] == [];
  }

  lemma NoneRaised(b: seq<byte>)
    requires !IsKeyword(b)
    ensures forall f: Flags :: Raised(f, [b]) == f
  {
    hide Named, Has;
    HasOne(b, "keep-alive");
    HasOne(b, "close");
    HasOne(b, "upgrade");
  }

  lemma TabNames(v: seq<byte>)
    requires v == CLOSE + [TAB]
    ensures !IsKeyword(v)
  {
    hide Partial;
    FirstLetters(v);
    assert v[5] == TAB && v[0] == 99 && Lower(99) == 99;
    hide Named;
    assert !Named(v, "close") by {
      NotNamed(v, "close", 5);
    }
  }

  lemma NotNamed(t: seq<byte>, word: string, i: nat)
    requires |word| <= i < |t| && t[i] != SP
    ensures !Named(t, word)
  {
  }

  lemma CloseMeans(v: seq<byte>)
    requires v == CLOSE || v == CLOSE + [TAB]
    ensures Means(v, "close")
  {
    assert TrimFront(v) == v;
    assert TrimBack(CLOSE) == CLOSE;
    assert (CLOSE + [TAB])[..5] == CLOSE;
    assert TrimBack(v) == CLOSE;
    assert LowerAll(CLOSE) == CLOSE;
    assert "close" == ['c', 'l', 'o', 's', 'e'];
  }
}
