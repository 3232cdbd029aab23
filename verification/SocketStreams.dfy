/** SocketStream and the four fixed-size loops of Stream: however the kernel cuts a transfer into
    pieces, the bytes arrive once, in order and without a gap. */
module SocketStreams {
  import opened Bytes
  import opened ByteArrays

  lemma WrittenTwice(s: seq<byte>, p: nat, a: seq<byte>, b: seq<byte>)
    requires p <= |s|
    ensures p + |a| <= |Written(s, p, a)| && Written(Written(s, p, a), p + |a|, b) == Written(s, p, a + b)
  {
  }

  lemma PrefixMore(s: seq<byte>, a: nat, b: nat)
    requires a + b <= |s|
    ensures s[..a] + s[a..][..b] == s[..a + b] && s[a..][b..] == s[a + b..]
  {
  }

  /** A connected socket and the two byte streams through it. What the kernel makes of a call is a
      parameter: a number of bytes up to what there is room and data for, or a failure. */
  class SocketStream {
    var connected: bool
    var incoming: seq<byte>  // sent by the peer and not yet received
    var outgoing: seq<byte>  // accepted from this side so far

    constructor (incoming: seq<byte>)
      ensures connected && this.incoming == incoming && outgoing == []
    {
      connected, this.incoming, outgoing := true, incoming, [];
    }

    /** What a call that can move at most so many bytes returns. */
    function Result(answer: int, most: nat): (rt: int)
      reads `connected
      ensures rt <= most
    {
      if !connected then -1 else if answer > most then most else answer
    }

    /** The bytes a result stands for. */
    static function Moved(rt: int): nat {
      if rt > 0 then rt else 0
    }

    // -------------------------------------------------------------- one call

    method Read(buffer: array<byte>, offset: nat, length: nat, answer: int) returns (rt: int)
      requires offset + length <= buffer.Length
      modifies buffer, `incoming
      ensures rt == Result(answer, Min(length, |old(incoming)|))
      ensures incoming == old(incoming)[Moved(rt)..]
      ensures buffer[..] == Overlay(old(buffer[..]), offset, old(incoming)[..Moved(rt)])
    {
      OverlayNothing(buffer[..], offset);
      rt := Result(answer, Min(length, |incoming|));
      if rt > 0 {
        Memcpy(buffer, offset, incoming[..rt]);
        incoming := incoming[rt..];
      }
    }

    method Write(buffer: seq<byte>, answer: int) returns (rt: int)
      modifies `outgoing
      ensures rt == Result(answer, |buffer|)
      ensures outgoing == old(outgoing) + buffer[..Moved(rt)]
    {
      rt := Result(answer, |buffer|);
      if rt > 0 {
        outgoing := outgoing + buffer[..rt];
      }
    }

    /** recv into the write buffers of the array, and setPosition. */
    method ReadArray(ba: ByteArray, length: nat, answer: int) returns (rt: int)
      requires ba.Valid() && this !in ba.Repr
      modifies ba.Repr, `incoming
      ensures ba.Valid() && fresh(ba.Repr - old(ba.Repr))
      ensures rt == Result(answer, Min(length, |old(incoming)|))
      ensures incoming == old(incoming)[Moved(rt)..]
      ensures old(ba.position) <= old(|ba.Contents()|)
      ensures ba.Contents() == Written(old(ba.Contents()), old(ba.position), old(incoming)[..Moved(rt)])
      ensures ba.position == old(ba.position) + Moved(rt)
    {
      hide Written, Grown, ByteArray.Valid, ByteArray.Tiles;
      ba.InRange();
      WrittenNothing(ba.Contents(), ba.position);
      if !connected {
        return -1;
      }
      var iovs := ba.GetWriteBuffers(length);
      rt := Result(answer, Min(length, |incoming|));
      if rt > 0 {
        ba.InRange();
        Deposit(ba, iovs, length, incoming[..rt]);
        incoming := incoming[rt..];
      }
    }

    /** The data goes into the buffers from the position on, and the position behind it. */
    static method Deposit(ba: ByteArray, iovs: seq<IoVec>, ghost n: nat, data: seq<byte>)
      requires ba.Valid() && ba.Tiles(iovs, ba.position, n) && |data| <= n && ba.position + n <= ba.capacity
      modifies ba.blocks, ba`flat, ba`position, ba`size, ba`cur, ba`at
      ensures ba.Valid() && old(ba.position) <= old(|ba.Contents()|)
      ensures ba.Contents() == Written(old(ba.Contents()), old(ba.position), data)
      ensures ba.position == old(ba.position) + |data|
    {
      hide Written, Overlay, ByteArray.Chained, ByteArray.Backed, ByteArray.AtCursor, ByteArray.Tiles;
      ba.InRange();
      ba.BackedFacts();
      ghost var contents, p, flat := ba.Contents(), ba.position, ba.flat;
      assert contents[..|contents|] == contents;
      ba.Scatter(iovs, p, n, data);
      OverlayWrites(contents, flat, |contents|, p, data);
      var ok := ba.SetPosition(ba.position + |data|);
    }

    /** send from the read buffers of the array, and setPosition. */
    method WriteArray(ba: ByteArray, length: nat, answer: int) returns (rt: int)
      requires ba.Valid() && this !in ba.Repr
      modifies ba`position, ba`size, ba`cur, ba`at, `outgoing
      ensures ba.Valid() && ba.Contents() == old(ba.Contents())
      ensures rt == Result(answer, Min(length, old(ba.size - ba.position)))
      ensures ba.position == old(ba.position) + Moved(rt) <= |ba.Contents()|
      ensures outgoing == old(outgoing) + ba.Contents()[old(ba.position)..ba.position]
    {
      hide ByteArray.Valid, ByteArray.Tiles, Gathered;
      ba.InRange();
      if !connected {
        return -1;
      }
      var n, iovs := ba.GetReadBuffers(length);
      rt := Result(answer, n);
      if rt > 0 {
        var data := Gathered(iovs);
        outgoing := outgoing + data[..rt];
        var ok := ba.SetPosition(ba.position + rt);
        ba.InRange();
      }
    }

    // -------------------------------------------------------------- transfers of a fixed size

    /** What a fixed-size transfer of moved bytes out of length returns. */
    static predicate Completes(rt: int, moved: nat, length: nat) {
      && moved <= length
      && if moved == length then rt == length else rt <= 0
    }

    /** readFixSize into an array object, for every sequence of answers of the kernel. */
    method ReadFixSizeArray(ba: ByteArray, length: nat, answers: nat -> int) returns (rt: int)
      requires ba.Valid() && this !in ba.Repr
      modifies ba.Repr, `incoming
      ensures ba.Valid() && fresh(ba.Repr - old(ba.Repr))
      ensures |incoming| <= |old(incoming)| && old(ba.position) <= old(|ba.Contents()|)
      ensures var moved := |old(incoming)| - |incoming|;
        && Completes(rt, moved, length) && incoming == old(incoming)[moved..]
        && ba.Contents() == Written(old(ba.Contents()), old(ba.position), old(incoming)[..moved])
        && ba.position == old(ba.position) + moved
      ensures connected && (forall k :: answers(k) > 0) && |old(incoming)| >= length ==> rt == length
    {
      hide Written, ByteArray.Valid;
      ba.InRange();
      var left := length;
      ghost var all, was, p, moved: nat := incoming, ba.Contents(), ba.position, 0;
      var calls := 0;
      WrittenNothing(was, p);
      while left > 0
        invariant ba.Valid() && fresh(ba.Repr - old(ba.Repr)) && this !in ba.Repr && connected == old(connected)
        invariant 0 <= left && moved == length - left <= |all| && calls >= 0
        invariant incoming == all[moved..] && p <= |was| && ba.position == p + moved
        invariant ba.Contents() == Written(was, p, all[..moved])
      {
        var len := ReadArray(ba, left, answers(calls));
        PrefixMore(all, moved, Moved(len));
        WrittenTwice(was, p, all[..moved], all[moved..][..Moved(len)]);
        if len <= 0 {
          return len;
        }
        moved := moved + len;
        left := left - len;
        calls := calls + 1;
      }
      rt := length;
    }

    /** writeFixSize from an array object: with length bytes to read, none is lost or repeated. */
    method WriteFixSizeArray(ba: ByteArray, length: nat, answers: nat -> int) returns (rt: int)
      requires ba.Valid() && this !in ba.Repr
      modifies ba`position, ba`size, ba`cur, ba`at, `outgoing
      ensures ba.Valid() && ba.Contents() == old(ba.Contents())
      ensures old(ba.position) <= ba.position <= |ba.Contents()|
      ensures Completes(rt, ba.position - old(ba.position), length)
      ensures outgoing == old(outgoing) + ba.Contents()[old(ba.position)..ba.position]
      ensures connected && (forall k :: answers(k) > 0) && length <= old(ba.size - ba.position) ==> rt == length
    {
      hide ByteArray.Valid;
      ba.InRange();
      var left := length;
      ghost var contents, p := ba.Contents(), ba.position;
      var calls := 0;
      while left > 0
        invariant ba.Valid() && ba.Contents() == contents && calls >= 0
        invariant 0 <= left <= length && p <= ba.position == p + length - left <= |contents|
        invariant outgoing == old(outgoing) + contents[p..ba.position]
      {
        ba.InRange();
        ghost var q := ba.position;
        var len := WriteArray(ba, left, answers(calls));
        assert contents[p..q] + contents[q..ba.position] == contents[p..ba.position];
        if len <= 0 {
          return len;
        }
        left := left - len;
        calls := calls + 1;
      }
      rt := length;
    }

    /** readFixSize into plain memory. */
    method ReadFixSize(buffer: array<byte>, length: nat, answers: nat -> int) returns (rt: int)
      requires length <= buffer.Length
      modifies buffer, `incoming
      ensures |incoming| <= |old(incoming)|
      ensures var moved := |old(incoming)| - |incoming|;
        && Completes(rt, moved, length) && incoming == old(incoming)[moved..]
        && buffer[..] == Overlay(old(buffer[..]), 0, old(incoming)[..moved])
      ensures connected && (forall k :: answers(k) > 0) && |old(incoming)| >= length ==> rt == length
    {
      hide Overlay;
      var offset: nat, left := 0, length;
      ghost var all, was := incoming, buffer[..];
      var calls := 0;
      OverlayNothing(was, 0);
      while left > 0
        invariant 0 <= left && offset == length - left <= |all| && calls >= 0 && connected == old(connected)
        invariant incoming == all[offset..] && buffer[..] == Overlay(was, 0, all[..offset])
      {
        var len := Read(buffer, offset, left, answers(calls));
        PrefixMore(all, offset, Moved(len));
        OverlayTwice(was, 0, all[..offset], all[offset..][..Moved(len)]);
        if len <= 0 {
          return len;
        }
        offset := offset + len;
        left := left - len;
        calls := calls + 1;
      }
      rt := length;
    }

    /** writeFixSize from plain memory. */
    method WriteFixSize(buffer: seq<byte>, answers: nat -> int) returns (rt: int, ghost moved: nat)
      modifies `outgoing
      ensures Completes(rt, moved, |buffer|) && outgoing == old(outgoing) + buffer[..moved]
      ensures connected && (forall k :: answers(k) > 0) ==> rt == |buffer|
    {
      var offset, left := 0, |buffer|;
      var calls := 0;
      while left > 0
        invariant 0 <= left && offset == |buffer| - left && calls >= 0 && connected == old(connected)
        invariant outgoing == old(outgoing) + buffer[..offset]
      {
        var len := Write(buffer[offset..], answers(calls));
        PrefixMore(buffer, offset, Moved(len));
        if len <= 0 {
          return len, offset;
        }
        offset := offset + len;
        left := left - len;
        calls := calls + 1;
      }
      assert buffer[..offset] == buffer;
      rt, moved := |buffer|, |buffer|;
    }
  }
}
