/** The typed readers and writers of ByteArray: what a list of values is written as, and exactly when
    reading it back gives the list again. */
module TypedStreams {
  import opened Bytes
  import opened ByteArrays
  import opened Codec

  // ---------------------------------------------------------------- values

  /** How the length of a string is written. */
  datatype Prefix = F16 | F32 | F64 | Vint

  /** The kinds of value with a writer and a reader: width in bytes, or in bits for a varint. */
  datatype Kind = FixedInt(n: nat, signed: bool) | VarInt(bits: nat, signed: bool) | Text(prefix: Prefix)

  datatype Value = Number(v: int) | String(s: seq<byte>)

  datatype Item = Item(kind: Kind, value: Value)

  /** The values a C++ variable of the kind can have; a std::string is shorter than 2^64. */
  ghost predicate Typed(item: Item) {
    match item.kind
    case FixedInt(n, signed) => n in {1, 2, 4, 8} && item.value.Number? && InWidth(8 * n, signed, item.value.v)
    case VarInt(bits, signed) => bits in {32, 64} && item.value.Number? && InWidth(bits, signed, item.value.v)
    case Text(_) => item.value.String? && |item.value.s| < UINT64_SPAN
  }

  predicate InWidth(bits: nat, signed: bool, v: int)
    requires bits > 0
  {
    if signed then IsSigned(bits, v) else 0 <= v < Pow2(bits)
  }

  // ---------------------------------------------------------------- writing

  function PrefixWidth(prefix: Prefix): nat {
    match prefix
    case F16 => 2
    case F32 => 4
    case F64 => 8
    case Vint => 0
  }

  /** The length, cut to the width of its parameter type. */
  function EncodeLength(host: bool, little: bool, prefix: Prefix, length: nat): (s: seq<byte>)
    ensures s != []
  {
    if prefix.Vint? then Varint(Word(64, length))
    else
      var n := PrefixWidth(prefix);
      WriteFixed(host, little, Word(8 * n, length), n)
  }

  function Encode(host: bool, little: bool, item: Item): (s: seq<byte>)
    requires Typed(item)
    ensures s != []
  {
    match item.kind
    case FixedInt(n, _) => WriteFixed(host, little, Word(8 * n, item.value.v), n)
    case VarInt(bits, signed) => Varint(if signed then EncodeZigzag(bits, item.value.v) else item.value.v)
    case Text(prefix) => EncodeLength(host, little, prefix, |item.value.s|) + item.value.s
  }

  function EncodeAll(host: bool, little: bool, items: seq<Item>): seq<byte>
    requires forall i :: 0 <= i < |items| ==> Typed(items[i])
  {
    if items == [] then [] else Encode(host, little, items[0]) + EncodeAll(host, little, items[1..])
  }

  // ---------------------------------------------------------------- reading

  /** What a reader makes of the contents: a value and the next position, or an exception or a null
      block met at a position. */
  datatype Outcome<+T> =
    | Got(value: T, next: nat)
    | Short(next: nat)
    | Crash(next: nat)

  /** read of n bytes of the contents s at p; full: no byte of capacity is left behind s. */
  function Grab(s: seq<byte>, p: nat, n: nat, full: bool): (r: Outcome<seq<byte>>)
    requires p <= |s|
    ensures r.next <= |s|
  {
    if n > |s| - p then Short(p)
    else if n == 0 && p == |s| && full then Crash(p)
    else Got(s[p..p + n], p + n)
  }

  function DecodeFixed(host: bool, little: bool, n: nat, s: seq<byte>, p: nat, full: bool): (r: Outcome<nat>)
    requires p <= |s|
    ensures r.next <= |s|
  {
    match Grab(s, p, n, full)
    case Got(bytes, next) => Got(ReadFixed(host, little, bytes), next)
    case Short(next) => Short(next)
    case Crash(next) => Crash(next)
  }

  function DecodeVarint(bits: nat, s: seq<byte>, p: nat): (r: Outcome<nat>)
    requires p <= |s| && bits > 0
    ensures r.next <= |s|
  {
    var r := ReadVarint(bits, s[p..], 0, 0);
    ReadVarintBounds(bits, s[p..], 0, 0);
    if r.complete then Got(r.value, p + r.used) else Short(p + r.used)
  }

  function DecodeLength(host: bool, little: bool, prefix: Prefix, s: seq<byte>, p: nat, full: bool): (r: Outcome<nat>)
    requires p <= |s|
    ensures r.next <= |s|
  {
    if prefix.Vint? then DecodeVarint(64, s, p) else DecodeFixed(host, little, PrefixWidth(prefix), s, p, full)
  }

  /** The number a word stands for. */
  function FromWord(bits: nat, signed: bool, w: nat): int
    requires bits > 0
  {
    if signed then Signed(bits, w) else w
  }

  function DecodeText(host: bool, little: bool, prefix: Prefix, s: seq<byte>, p: nat, full: bool): (r: Outcome<Value>)
    requires p <= |s|
    ensures r.next <= |s|
  {
    match DecodeLength(host, little, prefix, s, p, full)
    case Short(next) => Short(next)
    case Crash(next) => Crash(next)
    case Got(length, q) =>
      match Grab(s, q, length, full)
      case Got(text, next) => Got(String(text), next)
      case Short(next) => Short(next)
      case Crash(next) => Crash(next)
  }

  predicate AllReadable(kinds: seq<Kind>) {
    forall i :: 0 <= i < |kinds| ==> Readable(kinds[i])
  }

  predicate Readable(kind: Kind) {
    match kind
    case FixedInt(n, _) => n in {1, 2, 4, 8}
    case VarInt(bits, _) => bits in {32, 64}
    case Text(_) => true
  }

  function Decode(host: bool, little: bool, kind: Kind, s: seq<byte>, p: nat, full: bool): (r: Outcome<Value>)
    requires p <= |s| && Readable(kind)
    ensures r.next <= |s|
  {
    match kind
    case FixedInt(n, signed) => (
      match DecodeFixed(host, little, n, s, p, full)
      case Got(w, next) => Got(Number(FromWord(8 * n, signed, w)), next)
      case Short(next) => Short(next)
      case Crash(next) => Crash(next))
    case VarInt(bits, signed) => (
      ReadVarintBounds(bits, s[p..], 0, 0);
      match DecodeVarint(bits, s, p)
      case Got(w, next) => Got(Number(if signed then DecodeZigzag(bits, w) else w), next)
      case Short(next) => Short(next)
      case Crash(next) => Crash(next))
    case Text(prefix) => DecodeText(host, little, prefix, s, p, full)
  }

  /** Values read one after the other, up to the first that fails. */
  function DecodeAll(host: bool, little: bool, kinds: seq<Kind>, s: seq<byte>, p: nat, full: bool): Outcome<seq<Value>>
    requires p <= |s| && AllReadable(kinds)
    decreases |kinds|
  {
    if kinds == [] then Got([], p)
    else
      match Decode(host, little, kinds[0], s, p, full)
      case Short(next) => Short(next)
      case Crash(next) => Crash(next)
      case Got(v, next) =>
        match DecodeAll(host, little, kinds[1..], s, next, full)
        case Got(rest, last) => Got([v] + rest, last)
        case Short(last) => Short(last)
        case Crash(last) => Crash(last)
  }

  function Kinds(items: seq<Item>): seq<Kind> {
    seq(|items|, i requires 0 <= i < |items| => items[i].kind)
  }

  function Values(items: seq<Item>): seq<Value> {
    seq(|items|, i requires 0 <= i < |items| => items[i].value)
  }

  // ---------------------------------------------------------------- one value

  /** The length of the string is not cut by its parameter type. */
  predicate Fits(item: Item) {
    item.kind.Text? && item.value.String? ==>
      match item.kind.prefix
      case F16 => |item.value.s| < UINT16_SPAN
      case F32 => |item.value.s| < UINT32_SPAN
      case _ => |item.value.s| < UINT64_SPAN
  }

  predicate EmptyText(item: Item) {
    item.value == String([])
  }

  /** The value is read, up to next, if the condition holds, and is not read otherwise. */
  ghost predicate Exactly(r: Outcome<Value>, value: Value, next: nat, condition: bool) {
    if condition then r == Got(value, next) else !(r.Got? && r.value == value)
  }

  lemma GrabMiddle(pre: seq<byte>, e: seq<byte>, tail: seq<byte>, full: bool)
    ensures Grab(pre + e + tail, |pre|, |e|, full)
            == if e == [] && tail == [] && full then Crash(|pre|) else Got(e, |pre| + |e|)
  {
    assert (pre + e + tail)[|pre|..|pre| + |e|] == e;
  }

  lemma FixedItem(host: bool, little: bool, w: nat, n: nat, pre: seq<byte>, tail: seq<byte>, full: bool)
    requires w < Pow2(8 * n) && n > 0
    ensures DecodeFixed(host, little, n, pre + WriteFixed(host, little, w, n) + tail, |pre|, full) == Got(w, |pre| + n)
  {
    hide Grab, WriteFixed, ReadFixed, Pow2;
    GrabMiddle(pre, WriteFixed(host, little, w, n), tail, full);
    FixedRoundTrip(host, host, little, w, n);
  }

  lemma VarintItem(bits: nat, w: nat, pre: seq<byte>, tail: seq<byte>)
    requires bits > 0 && w < Pow2(bits)
    ensures DecodeVarint(bits, pre + Varint(w) + tail, |pre|) == Got(w, |pre| + |Varint(w)|)
  {
    hide Varint, ReadVarint, Pow2;
    VarintRoundTrip(bits, w, tail);
    assert (pre + Varint(w) + tail)[|pre|..] == Varint(w) + tail;
  }

  lemma FromWordInverse(bits: nat, signed: bool, v: int)
    requires bits > 0 && InWidth(bits, signed, v)
    ensures FromWord(bits, signed, Word(bits, v)) == v
  {
    if signed {
      SignedWord(bits, v);
    } else {
      WordOf(bits, v);
    }
  }

  function LengthBits(prefix: Prefix): nat {
    if prefix.Vint? then 64 else 8 * PrefixWidth(prefix)
  }

  lemma LengthItem(host: bool, little: bool, prefix: Prefix, length: nat, pre: seq<byte>, tail: seq<byte>, full: bool)
    ensures var e := EncodeLength(host, little, prefix, length);
      DecodeLength(host, little, prefix, pre + e + tail, |pre|, full)
      == Got(Word(LengthBits(prefix), length), |pre| + |e|)
  {
    hide DecodeFixed, DecodeVarint, WriteFixed, Word, Varint;
    if prefix.Vint? {
      VarintItem(64, Word(64, length), pre, tail);
    } else {
      var n := PrefixWidth(prefix);
      FixedItem(host, little, Word(8 * n, length), n, pre, tail, full);
    }
  }

  lemma FitsWord(item: Item)
    requires item.kind.Text? && Typed(item)
    ensures Fits(item) <==> Word(LengthBits(item.kind.prefix), |item.value.s|) == |item.value.s|
  {
    Pow2Values();
    var n, bits := |item.value.s|, LengthBits(item.kind.prefix);
    if Fits(item) {
      WordOf(bits, n);
    } else {
      assert Word(bits, n) < Pow2(bits) <= n;
    }
  }

  /** A string comes back unless its length was cut, or it is empty and ends at the capacity. */
  lemma TextItem(host: bool, little: bool, item: Item, pre: seq<byte>, tail: seq<byte>, full: bool)
    requires item.kind.Text? && Typed(item)
    ensures var e := Encode(host, little, item);
      Exactly(Decode(host, little, item.kind, pre + e + tail, |pre|, full), item.value, |pre| + |e|,
              Fits(item) && !(EmptyText(item) && tail == [] && full))
  {
    hide DecodeLength, EncodeLength, Word, Fits, Grab;
    var e, text := Encode(host, little, item), item.value.s;
    var l := EncodeLength(host, little, item.kind.prefix, |text|);
    var s := pre + e + tail;
    LengthItem(host, little, item.kind.prefix, |text|, pre, text + tail, full);
    assert s == pre + l + (text + tail) == (pre + l) + text + tail;
    FitsWord(item);
    if Fits(item) {
      GrabMiddle(pre + l, text, tail, full);
      assert item.value == String(text);
    } else {
      var cut := Word(LengthBits(item.kind.prefix), |text|);
      GrabLength(s, |pre| + |l|, cut, full);
    }
  }

  lemma GrabLength(s: seq<byte>, p: nat, n: nat, full: bool)
    requires p <= |s|
    ensures Grab(s, p, n, full).Got? ==> |Grab(s, p, n, full).value| == n
  {
  }

  /** A number always comes back. */
  lemma NumberItem(host: bool, little: bool, item: Item, pre: seq<byte>, tail: seq<byte>, full: bool)
    requires !item.kind.Text? && Typed(item)
    ensures var e := Encode(host, little, item);
      Decode(host, little, item.kind, pre + e + tail, |pre|, full) == Got(item.value, |pre| + |e|)
  {
    hide DecodeFixed, DecodeVarint, WriteFixed, Varint, EncodeZigzag, DecodeZigzag, FromWord, Pow2, Word;
    match item.kind
    case FixedInt(n, signed) =>
      FixedItem(host, little, Word(8 * n, item.value.v), n, pre, tail, full);
      FromWordInverse(8 * n, signed, item.value.v);
    case VarInt(bits, signed) =>
      var w: nat := if signed then EncodeZigzag(bits, item.value.v) else item.value.v;
      if signed {
        ZigzagRoundTrip(bits, item.value.v);
      }
      VarintItem(bits, w, pre, tail);
  }

  lemma ItemRoundTrip(host: bool, little: bool, item: Item, pre: seq<byte>, tail: seq<byte>, full: bool)
    requires Typed(item)
    ensures Readable(item.kind)
    ensures var e := Encode(host, little, item);
      Exactly(Decode(host, little, item.kind, pre + e + tail, |pre|, full), item.value, |pre| + |e|,
              Fits(item) && !(EmptyText(item) && tail == [] && full))
  {
    hide Decode, Encode;
    if item.kind.Text? {
      TextItem(host, little, item, pre, tail, full);
    } else {
      NumberItem(host, little, item, pre, tail, full);
    }
  }

  // ---------------------------------------------------------------- lists of values

  ghost predicate AllTyped(items: seq<Item>) {
    forall i :: 0 <= i < |items| ==> Typed(items[i])
  }

  /** No length is cut, and the list does not end in an empty string that ends at the capacity. */
  predicate ComesBack(items: seq<Item>, full: bool) {
    && (forall i :: 0 <= i < |items| ==> Fits(items[i]))
    && !(items != [] && EmptyText(items[|items| - 1]) && full)
  }

  /** Written values read back as they were exactly when none is cut and the last read does not
      find the cursor past the last block. */
  lemma {:induction false} ListRoundTrip(host: bool, little: bool, items: seq<Item>, pre: seq<byte>, full: bool)
    requires AllTyped(items)
    ensures AllReadable(Kinds(items))
    ensures var s := pre + EncodeAll(host, little, items);
      DecodeAll(host, little, Kinds(items), s, |pre|, full) == Got(Values(items), |s|) <==> ComesBack(items, full)
    decreases |items|
  {
    hide Decode, Encode, Typed, Fits;
    forall i | 0 <= i < |items|
      ensures Readable(Kinds(items)[i])
    {
      ItemRoundTrip(host, little, items[i], [], [], full);
    }
    if items == [] {
      assert Kinds(items) == [] && Values(items) == [];
    } else {
      var item, rest := items[0], items[1..];
      var e, tail := Encode(host, little, item), EncodeAll(host, little, rest);
      var s := pre + EncodeAll(host, little, items);
      assert s == pre + e + tail == (pre + e) + tail;
      assert tail == [] <==> rest == [];
      ItemRoundTrip(host, little, item, pre, tail, full);
      ListRoundTrip(host, little, rest, pre + e, full);
      ComesBackSplit(items, full);
      ReadOn(host, little, items, s, |pre|, |pre| + |e|,
             Fits(item) && !(EmptyText(item) && tail == [] && full), full);
    }
  }

  lemma ComesBackSplit(items: seq<Item>, full: bool)
    requires items != []
    ensures ComesBack(items, full) <==>
            (Fits(items[0]) && !(EmptyText(items[0]) && items[1..] == [] && full) && ComesBack(items[1..], full))
  {
    hide Fits;
    var rest := items[1..];
    assert forall i :: 0 < i < |items| ==> items[i] == rest[i - 1];
  }

  /** The whole list is read as it was exactly when its first value and the rest are. */
  lemma ReadOn(host: bool, little: bool, items: seq<Item>, s: seq<byte>, p: nat, q: nat, c: bool, full: bool)
    requires items != [] && p <= q <= |s| && AllReadable(Kinds(items)) && Readable(items[0].kind)
    requires Exactly(Decode(host, little, items[0].kind, s, p, full), items[0].value, q, c)
    ensures AllReadable(Kinds(items[1..]))
    ensures DecodeAll(host, little, Kinds(items), s, p, full) == Got(Values(items), |s|) <==>
            (c && DecodeAll(host, little, Kinds(items[1..]), s, q, full) == Got(Values(items[1..]), |s|))
  {
    hide Decode;
    assert Kinds(items)[1..] == Kinds(items[1..]) && Values(items)[1..] == Values(items[1..]);
    assert Values(items) == [items[0].value] + Values(items[1..]);
    forall i | 0 <= i < |items[1..]|
      ensures Readable(Kinds(items[1..])[i])
    {
      assert Kinds(items[1..])[i] == Kinds(items)[i + 1];
    }
  }

  /** An empty string behind a 16-bit length, in blocks of two bytes: it is written, and does not read back. */
  lemma EmptyTextLost(host: bool, little: bool)
    ensures var items := [Item(Text(F16), String([]))];
      && AllTyped(items) && |EncodeAll(host, little, items)| == 2 && !ComesBack(items, true)
      && AllReadable(Kinds(items))
      && DecodeAll(host, little, Kinds(items), EncodeAll(host, little, items), 0, true) != Got(Values(items), 2)
  {
    var item := Item(Text(F16), String([]));
    var items := [item];
    assert items[1..] == [];
    var s := Encode(host, little, item);
    assert |s| == 2;
    assert EncodeAll(host, little, items) == s;
    ListRoundTrip(host, little, items, [], true);
    assert [] + EncodeAll(host, little, items) == s;
  }
}
