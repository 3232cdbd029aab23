/** The typed writers and readers on a ByteArray object, and the write-all, rewind, read-all use of it. */
module TypedArrays {
  import opened Bytes
  import opened ByteArrays
  import opened Codec
  import opened TypedStreams

  // ---------------------------------------------------------------- the abstract stream

  /** The contents, the position, and whether no block is wasted. */
  datatype Stream = Stream(contents: seq<byte>, position: nat, tight: bool)

  ghost function StreamOf(ba: ByteArray): Stream
    requires ba.Valid()
    reads ba, ba.Repr
  {
    Stream(ba.Contents(), ba.position, ba.Tight())
  }

  /** The bytes e were written at the position. */
  ghost predicate Appended(was: Stream, e: seq<byte>, now: Stream) {
    && was.position <= |was.contents| && now.contents == Written(was.contents, was.position, e)
    && now.position == was.position + |e| <= |now.contents| && (was.tight ==> now.tight)
  }

  lemma AppendedTwice(a: Stream, e: seq<byte>, b: Stream, f: seq<byte>, c: Stream)
    requires Appended(a, e, b) && Appended(b, f, c)
    ensures Appended(a, e + f, c)
  {
  }

  // ---------------------------------------------------------------- writers

  method WriteBytes(ba: ByteArray, e: seq<byte>)
    requires ba.Valid()
    modifies ba.Repr
    ensures ba.Valid() && fresh(ba.Repr - old(ba.Repr)) && ba.littleEndian == old(ba.littleEndian)
    ensures Appended(old(StreamOf(ba)), e, StreamOf(ba))
  {
    hide Grown, Written, ba.Valid;
    ba.InRange();
    GrownFits(ba.capacity, ba.baseSize, ba.position + |e|);
    ba.Write(e);
    ba.InRange();
  }

  /** writeFint8 to writeFuint64: the word is swapped when the array's byte order is not the host's,
      and copied from memory. */
  method WriteFixedInt(ba: ByteArray, host: bool, value: int, n: nat)
    requires ba.Valid()
    modifies ba.Repr
    ensures ba.Valid() && fresh(ba.Repr - old(ba.Repr)) && ba.littleEndian == old(ba.littleEndian)
    ensures Appended(old(StreamOf(ba)), WriteFixed(host, ba.littleEndian, Word(8 * n, value), n), StreamOf(ba))
  {
    hide ByteSwap, ToMemory, Word, Appended, StreamOf, ba.Valid;
    var word: nat := Word(8 * n, value);
    if ba.littleEndian != host {
      word := ByteSwap(word, n);
    }
    WriteBytes(ba, ToMemory(host, word, n));
  }

  lemma {:induction false} VarintHead(v: nat)
    ensures v < 0x80 ==> Varint(v) == [v]
    ensures v >= 0x80 ==> Varint(v) == [v % 0x80 + 0x80] + Varint(v / 0x80) && |Varint(v / 0x80)| > 0
  {
  }

  /** The loop of writeUint32 and writeUint64: the temporary buffer has room for 5 or 10 bytes. */
  method FillVarint(value: nat, bits: nat) returns (e: seq<byte>)
    requires bits in {32, 64} && value < Pow2(bits)
    ensures e == Varint(value) && |e| <= if bits == 32 then 5 else 10
  {
    hide Pow2, Varint;
    var room := if bits == 32 then 5 else 10;
    Pow2Values();
    VarintBuffer(value);
    var tmp := new byte[room];
    var i, v := 0, value;
    while v >= 0x80
      invariant 0 <= i < room && 0 <= v && Varint(value) == tmp[..i] + Varint(v) && |Varint(value)| <= room
    {
      VarintHead(v);
      tmp[i] := v % 0x80 + 0x80;
      v := v / 0x80;
      i := i + 1;
      assert tmp[..i] == tmp[..i - 1] + [tmp[i - 1]];
    }
    VarintHead(v);
    tmp[i] := v;
    i := i + 1;
    e := tmp[..i];
  }

  method WriteVarint(ba: ByteArray, value: nat, bits: nat)
    requires ba.Valid() && bits in {32, 64} && value < Pow2(bits)
    modifies ba.Repr
    ensures ba.Valid() && fresh(ba.Repr - old(ba.Repr)) && ba.littleEndian == old(ba.littleEndian)
    ensures Appended(old(StreamOf(ba)), Varint(value), StreamOf(ba))
  {
    hide Appended, StreamOf, ba.Valid, Varint, Pow2;
    var e := FillVarint(value, bits);
    WriteBytes(ba, e);
  }

  /** writeStringF16 to writeStringVint. */
  method WriteText(ba: ByteArray, host: bool, prefix: Prefix, text: seq<byte>)
    requires ba.Valid() && |text| < UINT64_SPAN
    modifies ba.Repr
    ensures ba.Valid() && fresh(ba.Repr - old(ba.Repr)) && ba.littleEndian == old(ba.littleEndian)
    ensures Appended(old(StreamOf(ba)), EncodeLength(host, ba.littleEndian, prefix, |text|) + text, StreamOf(ba))
  {
    hide Appended, StreamOf, ba.Valid, Word, WriteFixed, Varint, Pow2;
    ghost var start := StreamOf(ba);
    if prefix.Vint? {
      Pow2Values();
      WordOf(64, |text|);
      WriteVarint(ba, |text|, 64);
    } else {
      WriteFixedInt(ba, host, |text|, PrefixWidth(prefix));
    }
    ghost var middle := StreamOf(ba);
    WriteBytes(ba, text);
    AppendedTwice(start, EncodeLength(host, ba.littleEndian, prefix, |text|), middle, text, StreamOf(ba));
  }

  method WriteItem(ba: ByteArray, host: bool, item: Item)
    requires ba.Valid() && Typed(item)
    modifies ba.Repr
    ensures ba.Valid() && fresh(ba.Repr - old(ba.Repr)) && ba.littleEndian == old(ba.littleEndian)
    ensures Appended(old(StreamOf(ba)), Encode(host, ba.littleEndian, item), StreamOf(ba))
  {
    hide Appended, StreamOf, ba.Valid, Word, WriteFixed, Varint, Pow2, EncodeLength, EncodeZigzag;
    match item.kind
    case FixedInt(n, _) => WriteFixedInt(ba, host, item.value.v, n);
    case VarInt(bits, signed) =>
      var w: nat := if signed then EncodeZigzag(bits, item.value.v) else item.value.v;
      WriteVarint(ba, w, bits);
    case Text(prefix) => WriteText(ba, host, prefix, item.value.s);
  }

  // ---------------------------------------------------------------- readers

  /** read(&v, n) and what it throws. */
  method ReadBytes(ba: ByteArray, n: nat) returns (r: Outcome<seq<byte>>)
    requires ba.Valid()
    modifies ba`position, ba`cur, ba`at
    ensures ba.Valid() && ba.Contents() == old(ba.Contents()) && old(ba.position) <= |ba.Contents()|
    ensures r == Grab(ba.Contents(), old(ba.position), n, ba.size == ba.capacity) && ba.position == r.next
  {
    ba.InRange();
    var outcome := ba.Read(n);
    ba.InRange();
    match outcome
    case Data(data) => r := Got(data, ba.position);
    case OutOfRange => r := Short(ba.position);
    case NullCursor => r := Crash(ba.position);
  }

  method ReadFixedInt(ba: ByteArray, host: bool, n: nat) returns (r: Outcome<nat>)
    requires ba.Valid()
    modifies ba`position, ba`cur, ba`at
    ensures ba.Valid() && ba.Contents() == old(ba.Contents()) && old(ba.position) <= |ba.Contents()|
    ensures r == DecodeFixed(host, ba.littleEndian, n, ba.Contents(), old(ba.position), ba.size == ba.capacity)
    ensures ba.position == r.next
  {
    hide Grab, FromMemory, ByteSwap, ba.Valid;
    var bytes := ReadBytes(ba, n);
    match bytes
    case Got(data, next) =>
      assert |data| == n by { GrabLength(ba.Contents(), old(ba.position), n, ba.size == ba.capacity); }
      var v := FromMemory(host, data);
      if ba.littleEndian != host {
        v := ByteSwap(v, n);
      }
      r := Got(v, next);
    case Short(next) => r := Short(next);
    case Crash(next) => r := Crash(next);
  }

  /** readUint32 and readUint64: byte by byte, at most one for every seven bits. */
  method ReadVarintWord(ba: ByteArray, bits: nat) returns (r: Outcome<nat>)
    requires ba.Valid() && bits > 0
    modifies ba`position, ba`cur, ba`at
    ensures ba.Valid() && ba.Contents() == old(ba.Contents()) && old(ba.position) <= |ba.Contents()|
    ensures r == DecodeVarint(bits, ba.Contents(), old(ba.position)) && ba.position == r.next
  {
    hide ba.Valid, Word, Pow2;
    ba.InRange();
    ghost var p, all := ba.position, ba.Contents()[ba.position..];
    var result: nat := 0;
    var i: nat := 0;
    ghost var k: nat := 0;
    while i < bits
      invariant ba.Valid() && ba.Contents() == old(ba.Contents()) && i == 7 * k && ba.position == p + k
      invariant k <= |all| && ReadVarint(bits, all, 0, 0) == ReadVarint(bits, all, k, result)
      decreases bits - i
    {
      ba.InRange();
      var b := ReadBytes(ba, 1);
      match b {
        case Got(data, next) =>
          assert data[0] == all[k];
          result := result + Word(bits, (data[0] % 0x80) * Pow2(i));
          if data[0] < 0x80 {
            return Got(result, next);
          }
        case Short(next) => return Short(next);
        case Crash(next) => return Crash(next);
      }
      k := k + 1;
      i := i + 7;
    }
    r := Got(result, ba.position);
  }

  /** readStringF16 to readStringVint. */
  method ReadText(ba: ByteArray, host: bool, prefix: Prefix) returns (r: Outcome<Value>)
    requires ba.Valid()
    modifies ba`position, ba`cur, ba`at
    ensures ba.Valid() && ba.Contents() == old(ba.Contents()) && old(ba.position) <= |ba.Contents()|
    ensures r == DecodeText(host, ba.littleEndian, prefix, ba.Contents(), old(ba.position), ba.size == ba.capacity)
    ensures ba.position == r.next
  {
    hide ba.Valid, Grab, DecodeFixed, DecodeVarint;
    var length;
    if prefix.Vint? {
      length := ReadVarintWord(ba, 64);
    } else {
      length := ReadFixedInt(ba, host, PrefixWidth(prefix));
    }
    match length
    case Short(next) => r := Short(next);
    case Crash(next) => r := Crash(next);
    case Got(n, _) =>
      var text := ReadBytes(ba, n);
      match text
      case Got(data, next) => r := Got(String(data), next);
      case Short(next) => r := Short(next);
      case Crash(next) => r := Crash(next);
  }

  method ReadItem(ba: ByteArray, host: bool, kind: Kind) returns (r: Outcome<Value>)
    requires ba.Valid() && Readable(kind)
    modifies ba`position, ba`cur, ba`at
    ensures ba.Valid() && ba.Contents() == old(ba.Contents()) && old(ba.position) <= |ba.Contents()|
    ensures r == Decode(host, ba.littleEndian, kind, ba.Contents(), old(ba.position), ba.size == ba.capacity)
    ensures ba.position == r.next
  {
    hide ba.Valid, Grab, DecodeFixed, DecodeVarint, DecodeText, FromWord, DecodeZigzag;
    match kind
    case FixedInt(n, signed) => {
      var w := ReadFixedInt(ba, host, n);
      match w
      case Got(v, next) => r := Got(Number(FromWord(8 * n, signed, v)), next);
      case Short(next) => r := Short(next);
      case Crash(next) => r := Crash(next);
    }
    case VarInt(bits, signed) => {
      ba.InRange();
      ghost var rest := ba.Contents()[ba.position..];
      var w := ReadVarintWord(ba, bits);
      match w
      case Got(v, next) =>
        assert v < Pow2(bits) by { VarintInWidth(bits, ba.Contents(), old(ba.position)); }
        r := Got(Number(if signed then DecodeZigzag(bits, v) else v), next);
      case Short(next) => r := Short(next);
      case Crash(next) => r := Crash(next);
    }
    case Text(prefix) => r := ReadText(ba, host, prefix);
  }

  lemma VarintInWidth(bits: nat, s: seq<byte>, p: nat)
    requires p <= |s| && bits > 0
    ensures DecodeVarint(bits, s, p).Got? ==> DecodeVarint(bits, s, p).value < Pow2(bits)
  {
    ReadVarintBounds(bits, s[p..], 0, 0);
  }

  // ---------------------------------------------------------------- write all, rewind, read all

  method WriteAll(ba: ByteArray, host: bool, items: seq<Item>)
    requires ba.Valid() && AllTyped(items)
    modifies ba.Repr
    ensures ba.Valid() && fresh(ba.Repr - old(ba.Repr)) && ba.littleEndian == old(ba.littleEndian)
    ensures Appended(old(StreamOf(ba)), EncodeAll(host, ba.littleEndian, items), StreamOf(ba))
  {
    hide ba.Valid, Encode, Typed, Appended, StreamOf;
    ghost var little := ba.littleEndian;
    EncodeNothing(ba);
    for i := 0 to |items|
      invariant ba.Valid() && fresh(ba.Repr - old(ba.Repr)) && ba.littleEndian == little
      invariant Appended(old(StreamOf(ba)), EncodeAll(host, little, items[..i]), StreamOf(ba))
    {
      ghost var before := StreamOf(ba);
      WriteItem(ba, host, items[i]);
      AppendedTwice(old(StreamOf(ba)), EncodeAll(host, little, items[..i]), before,
                    Encode(host, little, items[i]), StreamOf(ba));
      EncodeSnoc(host, little, items[..i], items[i]);
      assert items[..i + 1] == items[..i] + [items[i]];
    }
    assert items[..|items|] == items;
  }

  lemma EncodeNothing(ba: ByteArray)
    requires ba.Valid()
    ensures Appended(StreamOf(ba), [], StreamOf(ba))
  {
    ba.InRange();
    WrittenNothing(ba.Contents(), ba.position);
  }

  lemma {:induction false} EncodeSnoc(host: bool, little: bool, items: seq<Item>, item: Item)
    requires AllTyped(items) && Typed(item)
    ensures EncodeAll(host, little, items + [item]) == EncodeAll(host, little, items) + Encode(host, little, item)
    decreases |items|
  {
    hide Encode, Typed;
    if items == [] {
      assert EncodeAll(host, little, [item][1..]) == [];
    } else {
      EncodeSnoc(host, little, items[1..], item);
      assert (items + [item])[1..] == items[1..] + [item];
    }
  }

  method ReadAll(ba: ByteArray, host: bool, kinds: seq<Kind>) returns (r: Outcome<seq<Value>>)
    requires ba.Valid() && AllReadable(kinds)
    modifies ba`position, ba`cur, ba`at
    ensures ba.Valid() && ba.Contents() == old(ba.Contents()) && old(ba.position) <= |ba.Contents()|
    ensures r == DecodeAll(host, ba.littleEndian, kinds, ba.Contents(), old(ba.position), ba.size == ba.capacity)
    ensures ba.position == r.next
    decreases |kinds|
  {
    hide ba.Valid, Decode, Readable;
    ba.InRange();
    if kinds == [] {
      return Got([], ba.position);
    }
    var first := ReadItem(ba, host, kinds[0]);
    match first
    case Short(next) => r := Short(next);
    case Crash(next) => r := Crash(next);
    case Got(v, _) =>
      var rest := ReadAll(ba, host, kinds[1..]);
      match rest
      case Got(values, last) => r := Got([v] + values, last);
      case Short(last) => r := Short(last);
      case Crash(last) => r := Crash(last);
  }

  /** Written values come back in order, and nothing is left to read, exactly when no string is longer
      than its length field says and the list does not end in an empty string that fills the last
      block: then the last read meets a null block. */
  method RoundTrip(baseSize: nat, host: bool, little: bool, items: seq<Item>)
    returns (r: Outcome<seq<Value>>, left: nat)
    requires baseSize > 0 && AllTyped(items)
    ensures var total := |EncodeAll(host, little, items)|;
      r.Got? && r.value == Values(items) && left == 0 <==> ComesBack(items, total > 0 && total % baseSize == 0)
  {
    hide Decode, Encode, Typed, DecodeAll, EncodeAll, ComesBack, ByteArray.Valid, Appended;
    var ba := new ByteArray(baseSize);
    ba.SetIsLittleEndian(little);
    ghost var start := StreamOf(ba);
    WriteAll(ba, host, items);
    WrittenAtFirst(start, EncodeAll(host, little, items), StreamOf(ba));
    ghost var total := |EncodeAll(host, little, items)|;
    ListRoundTrip(host, little, items, [], total > 0 && total % baseSize == 0);
    r, left := Rewind(ba, host, Kinds(items));
    assert [] + EncodeAll(host, little, items) == EncodeAll(host, little, items);
  }

  lemma WrittenAtFirst(a: Stream, e: seq<byte>, b: Stream)
    requires a == Stream([], 0, true) && Appended(a, e, b)
    ensures b == Stream(e, |e|, true)
  {
  }

  /** setPosition(0), the reads, and getReadSize(). */
  method Rewind(ba: ByteArray, host: bool, kinds: seq<Kind>) returns (r: Outcome<seq<Value>>, left: nat)
    requires ba.Valid() && ba.Tight() && AllReadable(kinds)
    modifies ba`position, ba`size, ba`cur, ba`at
    ensures ba.Valid() && ba.Contents() == old(ba.Contents())
    ensures var s := ba.Contents();
      r == DecodeAll(host, ba.littleEndian, kinds, s, 0, |s| > 0 && |s| % ba.baseSize == 0) && left == |s| - r.next
  {
    hide Decode, DecodeAll, ba.Valid;
    ba.InRange();
    ba.TightFull();
    var ok := ba.SetPosition(0);
    ba.InRange();
    r := ReadAll(ba, host, kinds);
    ba.InRange();
    left := ba.ReadSize();
  }
}
