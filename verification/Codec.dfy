/** The byte encodings of ByteArray: fixed-width integers in either byte order, zigzag and varints. */
module Codec {
  import opened Bytes

  // ---------------------------------------------------------------- powers of two

  function Pow2(n: nat): (p: nat)
    ensures p > 0
  {
    if n == 0 then 1 else 2 * Pow2(n - 1)
  }

  lemma {:induction false} Pow2Grows(a: nat, b: nat)
    requires a <= b
    ensures Pow2(a) <= Pow2(b)
    decreases b - a
  {
    if a < b {
      Pow2Grows(a, b - 1);
    }
  }

  lemma {:induction false} Pow2Adds(a: nat, b: nat)
    ensures Pow2(a + b) == Pow2(a) * Pow2(b)
  {
    if b > 0 {
      Pow2Adds(a, b - 1);
      assert Pow2(a + b) == 2 * (Pow2(a) * Pow2(b - 1));
    }
  }

  lemma Pow2Small()
    ensures Pow2(7) == 128 && Pow2(8) == 256
  {
    assert Pow2(3) == 8;
    assert Pow2(6) == 64;
  }

  lemma Pow2Values()
    ensures Pow2(7) == 128 && Pow2(8) == 256 && Pow2(16) == UINT16_SPAN
    ensures Pow2(32) == UINT32_SPAN && Pow2(64) == UINT64_SPAN
  {
    hide Pow2;
    Pow2Small();
    Pow2Adds(8, 8);
    Pow2Adds(16, 16);
    Pow2Adds(32, 32);
  }

  // ---------------------------------------------------------------- products and remainders

  lemma MulCancels(a: int, b: int, m: nat)
    ensures a * m < (b + 1) * m ==> a <= b
  {
    MulGrows(b + 1, a, m);
  }

  /** Quotient and remainder are determined by what they add up to. */
  lemma DivModUnique(x: int, m: nat, q: int, r: nat)
    requires m > 0 && x == q * m + r && r < m
    ensures x / m == q && x % m == r
  {
    var q', r' := x / m, x % m;
    assert x == q' * m + r';
    assert (q + 1) * m == q * m + m && (q' + 1) * m == q' * m + m;
    MulCancels(q', q, m);
    MulCancels(q, q', m);
  }

  lemma ModScale(a: nat, m: nat, s: nat)
    requires m > 0 && s > 0
    ensures s * m > 0 && (a * s) % (s * m) == (a % m) * s
  {
    var q, r := a / m, a % m;
    MulGrows(r, m - 1, s);
    Regroup(a, q, r, m, s);
    DivModUnique(a * s, s * m, q, r * s);
  }

  lemma Regroup(a: nat, q: nat, r: nat, m: nat, s: nat)
    requires a == q * m + r && m > 0 && s > 0
    ensures a * s == q * (s * m) + r * s && (m - 1) * s == s * m - s && s * m > 0
  {
    assert (q * m) * s == q * (s * m);
  }

  // ---------------------------------------------------------------- two's complement

  /** The width-bit word that holds the integer v. */
  function Word(bits: nat, v: int): (w: nat)
    ensures w < Pow2(bits)
  {
    v % Pow2(bits)
  }

  /** The signed reading of a width-bit word. */
  function Signed(bits: nat, w: nat): int
    requires bits > 0
  {
    if w < Pow2(bits - 1) then w else w - Pow2(bits)
  }

  predicate IsSigned(bits: nat, v: int)
    requires bits > 0
  {
    -(Pow2(bits - 1) as int) <= v < Pow2(bits - 1)
  }

  lemma SignedWord(bits: nat, v: int)
    requires bits > 0 && IsSigned(bits, v)
    ensures Signed(bits, Word(bits, v)) == v
  {
    var m := Pow2(bits);
    assert m == 2 * Pow2(bits - 1);
    DivModUnique(v, m, if v < 0 then -1 else 0, if v < 0 then v + m else v);
  }

  // ---------------------------------------------------------------- fixed width

  /** The n low-order bytes of v, least significant first. */
  function LittleEndian(v: nat, n: nat): (s: seq<byte>)
    ensures |s| == n
  {
    if n == 0 then [] else [v % 256] + LittleEndian(v / 256, n - 1)
  }

  function FromLittleEndian(s: seq<byte>): nat {
    if s == [] then 0 else s[0] + 256 * FromLittleEndian(s[1..])
  }

  function Reverse(s: seq<byte>): (r: seq<byte>)
    ensures |r| == |s|
    ensures forall i :: 0 <= i < |s| ==> r[i] == s[|s| - 1 - i]
  {
    seq(|s|, i requires 0 <= i < |s| => s[|s| - 1 - i])
  }

  /** How a host of the given byte order lays out a word of n bytes in memory. */
  function ToMemory(little: bool, v: nat, n: nat): (s: seq<byte>)
    ensures |s| == n
  {
    if little then LittleEndian(v, n) else Reverse(LittleEndian(v, n))
  }

  function FromMemory(little: bool, s: seq<byte>): nat {
    FromLittleEndian(if little then s else Reverse(s))
  }

  /** byteswap on words of n bytes. */
  function ByteSwap(v: nat, n: nat): nat {
    FromLittleEndian(Reverse(LittleEndian(v, n)))
  }

  /** A fixed-width write on a host of byte order host to an array of byte order endian. */
  function WriteFixed(host: bool, endian: bool, v: nat, n: nat): (s: seq<byte>)
    ensures |s| == n
  {
    ToMemory(host, if endian != host then ByteSwap(v, n) else v, n)
  }

  function ReadFixed(host: bool, endian: bool, s: seq<byte>): nat {
    var v := FromMemory(host, s);
    if endian == host then v else ByteSwap(v, |s|)
  }

  lemma {:induction false} LittleEndianInverse(v: nat, n: nat)
    requires v < Pow2(8 * n)
    ensures FromLittleEndian(LittleEndian(v, n)) == v
    decreases n
  {
    if n > 0 {
      EightMoreBits(n - 1);
      assert v / 256 < Pow2(8 * (n - 1));
      LittleEndianInverse(v / 256, n - 1);
      assert LittleEndian(v, n)[1..] == LittleEndian(v / 256, n - 1);
    }
  }

  lemma {:induction false} FromLittleEndianInverse(s: seq<byte>)
    ensures FromLittleEndian(s) < Pow2(8 * |s|)
    ensures LittleEndian(FromLittleEndian(s), |s|) == s
    decreases |s|
  {
    if s != [] {
      FromLittleEndianInverse(s[1..]);
      EightMoreBits(|s| - 1);
      hide Pow2;
      var rest := FromLittleEndian(s[1..]);
      DivModUnique(s[0] + 256 * rest, 256, rest, s[0]);
      assert s == [s[0]] + s[1..];
    }
  }

  lemma EightMoreBits(n: nat)
    ensures Pow2(8 * (n + 1)) == 256 * Pow2(8 * n)
  {
    Pow2Adds(8 * n, 8);
    Pow2Small();
  }

  /** The bytes on the wire depend on the array's byte order only, not on the host's. */
  lemma WriteFixedOrder(host: bool, endian: bool, v: nat, n: nat)
    ensures WriteFixed(host, endian, v, n) == ToMemory(endian, v, n)
  {
    var s := LittleEndian(v, n);
    FromLittleEndianInverse(Reverse(s));
    assert Reverse(Reverse(s)) == s;
  }

  /** A fixed-width value is read back whatever the byte orders of the two hosts. */
  lemma FixedRoundTrip(writer: bool, reader: bool, endian: bool, v: nat, n: nat)
    requires v < Pow2(8 * n)
    ensures ReadFixed(reader, endian, WriteFixed(writer, endian, v, n)) == v
  {
    WriteFixedOrder(writer, endian, v, n);
    var s := LittleEndian(v, n);
    LittleEndianInverse(v, n);
    assert Reverse(Reverse(s)) == s;
    FromLittleEndianInverse(Reverse(s));
    FromLittleEndianInverse(s);
  }

  // ---------------------------------------------------------------- zigzag

  /** EncodeZigzag32 and EncodeZigzag64, on words that wrap around. */
  function EncodeZigzag(bits: nat, v: int): (w: nat)
    ensures w < Pow2(bits)
  {
    if v < 0 then Word(bits, Word(bits, -v) * 2 - 1) else Word(bits, v * 2)
  }

  /** Exclusive or with the word -b, which is all zeros or all ones. */
  function XorMask(bits: nat, w: nat, b: nat): nat
    requires w < Pow2(bits) && b < 2
  {
    if b == 0 then w else Pow2(bits) - 1 - w
  }

  /** DecodeZigzag32 and DecodeZigzag64. */
  function DecodeZigzag(bits: nat, w: nat): int
    requires bits > 0 && w < Pow2(bits)
  {
    Signed(bits, XorMask(bits, w / 2, w % 2))
  }

  lemma WordOf(bits: nat, v: int)
    requires 0 <= v < Pow2(bits)
    ensures Word(bits, v) == v
  {
    DivModUnique(v, Pow2(bits), 0, v);
  }

  /** Zigzag numbers the integers 0, -1, 1, -2, ...; nothing wraps, not even for the least value. */
  lemma ZigzagOrder(bits: nat, v: int)
    requires bits > 0 && IsSigned(bits, v)
    ensures EncodeZigzag(bits, v) == if v < 0 then -2 * v - 1 else 2 * v
  {
    if v < 0 {
      WordOf(bits, -v);
      WordOf(bits, -v * 2 - 1);
    } else {
      WordOf(bits, v * 2);
    }
  }

  lemma ZigzagRoundTrip(bits: nat, v: int)
    requires bits > 0 && IsSigned(bits, v)
    ensures DecodeZigzag(bits, EncodeZigzag(bits, v)) == v
  {
    ZigzagOrder(bits, v);
    var w := EncodeZigzag(bits, v);
    assert w / 2 == if v < 0 then -v - 1 else v;
    assert w % 2 == if v < 0 then 1 else 0;
  }

  lemma ZigzagOnto(bits: nat, w: nat)
    requires bits > 0 && w < Pow2(bits)
    ensures IsSigned(bits, DecodeZigzag(bits, w)) && EncodeZigzag(bits, DecodeZigzag(bits, w)) == w
  {
    var v := DecodeZigzag(bits, w);
    assert v == if w % 2 == 0 then w / 2 else -(w / 2) - 1;
    ZigzagOrder(bits, v);
  }

  // ---------------------------------------------------------------- varints

  /** The base-128 form of v: seven bits a byte, least significant first, the top bit set on all
      bytes but the last. */
  function Varint(v: nat): (s: seq<byte>)
    ensures s != []
  {
    if v < 128 then [v] else [v % 128 + 128] + Varint(v / 128)
  }

  /** A varint is minimal: n bytes exactly when v needs n groups of seven bits. */
  lemma {:induction false} VarintLength(v: nat, n: nat)
    requires n > 0
    ensures |Varint(v)| <= n <==> v < Pow2(7 * n)
    decreases v
  {
    Pow2Values();
    if n == 1 {
    } else {
      Pow2Adds(7 * (n - 1), 7);
      if v >= 128 {
        VarintLength(v / 128, n - 1);
        assert v / 128 < Pow2(7 * (n - 1)) <==> v < 128 * Pow2(7 * (n - 1));
      } else {
        Pow2Grows(7, 7 * n);
      }
    }
  }

  /** The temporary buffers of five and ten bytes are large enough, and no smaller ones are. */
  lemma VarintBuffer(v: nat)
    ensures v < UINT32_SPAN ==> |Varint(v)| <= 5
    ensures v < UINT64_SPAN ==> |Varint(v)| <= 10
    ensures |Varint(UINT32_SPAN - 1)| == 5 && |Varint(UINT64_SPAN - 1)| == 10
  {
    Pow2Values();
    Pow2Grows(32, 35);
    Pow2Grows(28, 31);
    Pow2Grows(64, 70);
    Pow2Grows(63, 63);
    assert Pow2(28) < UINT32_SPAN by { assert Pow2(32) == 2 * Pow2(31); }
    assert Pow2(63) < UINT64_SPAN by { assert Pow2(64) == 2 * Pow2(63); }
    VarintLength(v, 5);
    VarintLength(v, 10);
    VarintLength(UINT32_SPAN - 1, 5);
    VarintLength(UINT32_SPAN - 1, 4);
    VarintLength(UINT64_SPAN - 1, 10);
    VarintLength(UINT64_SPAN - 1, 9);
  }

  /** What a varint reader makes of the bytes s: the value, the bytes taken, and whether the input
      lasted. */
  datatype VarintRead = VarintRead(value: nat, used: nat, complete: bool)

  /** readUint32 and readUint64 after k bytes that add up to acc: at most one byte for every seven
      bits of the result, shifted into place on a word of the given width. */
  function ReadVarint(bits: nat, s: seq<byte>, k: nat, acc: nat): VarintRead
    requires k <= |s|
    decreases |s| - k
  {
    if 7 * k >= bits then VarintRead(acc, k, true)
    else if k == |s| then VarintRead(acc, k, false)
    else
      var sum := acc + Word(bits, (s[k] % 128) * Pow2(7 * k));
      if s[k] < 128 then VarintRead(sum, k + 1, true) else ReadVarint(bits, s, k + 1, sum)
  }

  /** The lowest group of w, put in its place, and what remains. */
  lemma VarintArith(bits: nat, k: nat, w: nat)
    requires w * Pow2(7 * k) < Pow2(bits)
    ensures Word(bits, (w % 128) * Pow2(7 * k)) == (w % 128) * Pow2(7 * k)
    ensures w * Pow2(7 * k) == (w / 128) * Pow2(7 * (k + 1)) + (w % 128) * Pow2(7 * k)
    ensures (w / 128) * Pow2(7 * (k + 1)) < Pow2(bits)
  {
    Pow2Adds(7 * k, 7);
    Pow2Small();
    hide Pow2;
    var scale, low, high := Pow2(7 * k), w % 128, w / 128;
    assert w == high * 128 + low;
    MulGrows(low, w, scale);
    MulGrows(0, low, scale);
    WordOf(bits, low * scale);
    Distribute(high, low, scale);
  }

  /** The encoder and the decoder, in step after k bytes. */
  lemma {:induction false} VarintStep(bits: nat, pre: seq<byte>, w: nat, rest: seq<byte>, acc: nat)
    requires bits > 0 && w * Pow2(7 * |pre|) < Pow2(bits)
    requires pre != [] ==> w > 0
    ensures ReadVarint(bits, pre + Varint(w) + rest, |pre|, acc)
            == VarintRead(acc + w * Pow2(7 * |pre|), |pre| + |Varint(w)|, true)
    decreases w
  {
    hide Pow2, Word;
    var k := |pre|;
    var s := pre + Varint(w) + rest;
    ShiftFits(bits, k, w);
    VarintArith(bits, k, w);
    assert s[k] == Varint(w)[0];
    var low, high := w % 128, w / 128;
    assert s[k] % 128 == low;
    if w >= 128 {
      assert s == (pre + [low + 128]) + Varint(high) + rest;
      VarintStep(bits, pre + [low + 128], high, rest, acc + low * Pow2(7 * k));
    }
  }

  lemma Distribute(high: nat, low: nat, scale: nat)
    ensures (high * 128 + low) * scale == high * (scale * 128) + low * scale
  {
  }

  /** A group of bits that is still part of the value has a place in the word. */
  lemma ShiftFits(bits: nat, k: nat, w: nat)
    requires bits > 0 && (k > 0 ==> w > 0)
    ensures w * Pow2(7 * k) < Pow2(bits) ==> 7 * k < bits
  {
    if 7 * k >= bits {
      Pow2Grows(bits, 7 * k);
      MulGrows(1, w, Pow2(7 * k));
    }
  }

  /** Reading a varint gives the value back and stops at its last byte, whatever follows. */
  lemma VarintRoundTrip(bits: nat, v: nat, rest: seq<byte>)
    requires bits > 0 && v < Pow2(bits)
    ensures ReadVarint(bits, Varint(v) + rest, 0, 0) == VarintRead(v, |Varint(v)|, true)
  {
    assert [] + Varint(v) + rest == Varint(v) + rest;
    VarintStep(bits, [], v, rest, 0);
  }

  /** The reader never takes more than one byte for seven bits of the result. */
  lemma {:induction false} ReadVarintBounds(bits: nat, s: seq<byte>, k: nat, acc: nat)
    requires k <= |s| && acc < Pow2(7 * k) && acc < Pow2(bits) && bits > 0
    ensures var r := ReadVarint(bits, s, k, acc);
      && k <= r.used <= |s| && r.value < Pow2(bits)
      && (!r.complete ==> r.used == |s|)
      && 7 * r.used < bits + 7 + (if 7 * k >= bits then 7 * k else 0)
    decreases |s| - k
  {
    if 7 * k < bits && k < |s| {
      var place := Word(bits, (s[k] % 128) * Pow2(7 * k));
      PlaceFits(bits, k, acc, s[k] % 128);
      if s[k] >= 128 {
        ReadVarintBounds(bits, s, k + 1, acc + place);
      }
    }
  }

  lemma PlaceArith(scale: nat, m: nat, acc: nat, group: nat)
    requires scale > 0 && m > 0 && acc < scale && group < 128
    ensures scale * m > 0
    ensures var place := (group * scale) % (scale * m);
      acc + place < scale * m && acc + place < scale * 128 && place % scale == 0
  {
    ModScale(group, m, scale);
    PlaceBounds(scale, m, acc, group % m);
  }

  lemma PlaceBounds(scale: nat, m: nat, acc: nat, g: nat)
    requires scale > 0 && m > 0 && acc < scale && g < m && g <= 127
    ensures acc + g * scale < scale * m && acc + g * scale < scale * 128 && (g * scale) % scale == 0
  {
    MulGrows(g, m - 1, scale);
    MulGrows(g, 127, scale);
    Regroup(0, 0, 0, m, scale);
    DivModUnique(g * scale, scale, g, 0);
  }

  /** Adding a shifted group to what came before is the same as or-ing it in: no carry, and no bit
      beyond the word. */
  lemma PlaceFits(bits: nat, k: nat, acc: nat, group: nat)
    requires 7 * k < bits && acc < Pow2(7 * k) && group < 128
    ensures var place := Word(bits, group * Pow2(7 * k));
      acc + place < Pow2(bits) && acc + place < Pow2(7 * (k + 1)) && place % Pow2(7 * k) == 0
  {
    Pow2Adds(7 * k, bits - 7 * k);
    Pow2Adds(7 * k, 7);
    Pow2Small();
    hide Pow2;
    PlaceArith(Pow2(7 * k), Pow2(bits - 7 * k), acc, group);
  }
}
