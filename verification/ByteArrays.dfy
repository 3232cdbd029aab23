/** ByteArray: a linked list of blocks of one size with a cursor, proved to be one flat sequence of
    bytes with a position. */
module ByteArrays {
  import opened Bytes

  // ---------------------------------------------------------------- flat sequences

  /** s with b laid over it from position p on. */
  function Overlay(s: seq<byte>, p: nat, b: seq<byte>): (r: seq<byte>)
    requires p + |b| <= |s|
    ensures |r| == |s|
  {
    s[..p] + b + s[p + |b|..]
  }

  /** The contents s after b was written at position p: overwritten, extended, or both. */
  function Written(s: seq<byte>, p: nat, b: seq<byte>): seq<byte>
    requires p <= |s|
  {
    s[..p] + b + if p + |b| <= |s| then s[p + |b|..] else []
  }

  lemma OverlayTwice(s: seq<byte>, p: nat, a: seq<byte>, b: seq<byte>)
    requires p + |a| + |b| <= |s|
    ensures Overlay(Overlay(s, p, a), p + |a|, b) == Overlay(s, p, a + b)
  {
  }

  lemma WrittenNothing(s: seq<byte>, p: nat)
    requires p <= |s|
    ensures Written(s, p, []) == s
  {
  }

  lemma OverlayNothing(s: seq<byte>, p: nat)
    requires p <= |s|
    ensures Overlay(s, p, []) == s
  {
  }

  /** Laying b over, piece by piece: chunk is the next piece after the first done bytes. */
  lemma OverlayMore(s: seq<byte>, p: nat, b: seq<byte>, done: nat, n: nat)
    requires done + n <= |b| && p + |b| <= |s|
    ensures Overlay(Overlay(s, p, b[..done]), p + done, b[done..done + n]) == Overlay(s, p, b[..done + n])
  {
    hide Overlay;
    assert b[..done] + b[done..done + n] == b[..done + n];
    OverlayTwice(s, p, b[..done], b[done..done + n]);
  }

  /** Laying b over a sequence that goes on beyond the n bytes written so far writes it into these. */
  lemma OverlayWrites(before: seq<byte>, s: seq<byte>, n: nat, p: nat, b: seq<byte>)
    requires before <= s && p <= n <= |before| && p + |b| <= |s|
    ensures Overlay(s, p, b)[..if p + |b| <= n then n else p + |b|] == Written(before[..n], p, b)
  {
    assert s[..n] == before[..n];
  }

  /** Multiples of the block size are in order. */
  lemma BlockOrder(a: nat, b: nat, size: nat)
    ensures a <= b ==> a * size <= b * size
    ensures a < b ==> a * size + size <= b * size
    ensures (a + 1) * size == a * size + size
  {
    MulGrows(a, b, size);
    MulGrows(a + 1, b, size);
  }

  /** A position within block k has quotient k and the offset as remainder. */
  lemma BlockOffset(pos: nat, k: nat, size: nat)
    requires k * size <= pos < k * size + size
    ensures pos / size == k && pos % size == pos - k * size
  {
    var q, r := pos / size, pos % size;
    assert pos == q * size + r;
    BlockOrder(q, k, size);
    BlockOrder(k, q, size);
  }

  /** n bytes in the least number of blocks leave no room exactly when they fill their last block. */
  lemma FullBlocks(n: nat, capacity: nat, count: nat, size: nat)
    requires size > 0 && count > 0 && capacity == count * size && n <= capacity
    requires capacity == size || capacity < n + size
    ensures n == capacity <==> n > 0 && n % size == 0
  {
    BlockOrder(1, count, size);
    BlockOrder(count - 1, count, size);
    if n == capacity {
      BlockOffset(n, count, size);
    } else if capacity == size {
      BlockOffset(n, 0, size);
    } else {
      BlockOffset(n, count - 1, size);
    }
  }

  /** A stretch of an overlaid sequence. */
  lemma OverlaySlice(s: seq<byte>, p: nat, b: seq<byte>, lo: nat, hi: nat)
    requires p + |b| <= |s| && lo <= hi <= |s|
    ensures hi <= p || p + |b| <= lo ==> Overlay(s, p, b)[lo..hi] == s[lo..hi]
    ensures lo <= p && p + |b| <= hi ==> Overlay(s, p, b)[lo..hi] == Overlay(s[lo..hi], p - lo, b)
  {
  }

  lemma SliceOfSlice(s: seq<byte>, start: nat, size: nat, off: nat, n: nat)
    requires start + size <= |s| && off + n <= size
    ensures s[start..start + size][off..off + n] == s[start + off..start + off + n]
  {
    var a, b := s[start..start + size][off..off + n], s[start + off..start + off + n];
    forall i | 0 <= i < n ensures a[i] == b[i] {
      assert s[start..start + size][off + i] == s[start + off + i];
    }
  }

  lemma SliceMore(s: seq<byte>, p: nat, q: nat, n: nat)
    requires p <= q && q + n <= |s|
    ensures s[p..q] + s[q..q + n] == s[p..q + n]
  {
  }

  /** The least number of blocks that hold n bytes. */
  function Ceil(n: nat, size: nat): nat
    requires size > 0
  {
    (n + size - 1) / size
  }

  /** The capacity after room for need bytes was made. */
  function Grown(capacity: nat, size: nat, need: nat): nat
    requires size > 0
  {
    if capacity >= need then capacity else capacity + Ceil(need - capacity, size) * size
  }

  /** There is room, and no more blocks than necessary were added. */
  lemma GrownFits(capacity: nat, size: nat, need: nat)
    requires size > 0
    ensures need <= Grown(capacity, size, need) && (need <= capacity ==> Grown(capacity, size, need) == capacity)
    ensures capacity < need ==> Grown(capacity, size, need) < need + size
  {
    if capacity < need {
      var n := need - capacity;
      var q, r := (n + size - 1) / size, (n + size - 1) % size;
      assert n + size - 1 == q * size + r;
    }
  }

  /** memcpy(ptr + off, src, n) */
  method Memcpy(ptr: array<byte>, off: nat, src: seq<byte>)
    requires off + |src| <= ptr.Length
    modifies ptr
    ensures ptr[..] == Overlay(old(ptr[..]), off, src)
  {
    forall i | 0 <= i < |src| {
      ptr[off + i] := src[i];
    }
  }

  // ---------------------------------------------------------------- blocks

  class Node {
    const size: nat
    const ptr: array<byte>
    var next: Node?

    constructor (s: nat)
      ensures size == s && ptr.Length == s && next == null && fresh(ptr)
    {
      size := s;
      ptr := new byte[s];
      next := null;
    }
  }

  /** Nodes and blocks go together, are all different, belong to the representation and have the
      block size. */
  ghost predicate Shaped(nodes: seq<Node>, blocks: seq<array<byte>>, repr: set<object>, size: nat) {
    && |blocks| == |nodes|
    && (forall i :: 0 <= i < |nodes| ==> nodes[i] in repr && nodes[i].size == size)
    && (forall i :: 0 <= i < |nodes| ==> nodes[i].ptr == blocks[i])
    && (forall i :: 0 <= i < |blocks| ==> blocks[i] in repr && blocks[i].Length == size)
    && (forall i, j :: 0 <= i < j < |nodes| ==> nodes[i] != nodes[j])
    && (forall i, j :: 0 <= i < j < |blocks| ==> blocks[i] != blocks[j])
  }

  lemma ShapedAppend(nodes: seq<Node>, blocks: seq<array<byte>>, repr: set<object>, size: nat, node: Node)
    requires Shaped(nodes, blocks, repr, size)
    requires node !in repr && node.ptr !in repr && node.size == size == node.ptr.Length
    ensures Shaped(nodes + [node], blocks + [node.ptr], repr + {node, node.ptr}, size)
  {
  }

  ghost predicate Linked(nodes: seq<Node>)
    reads nodes
  {
    forall i :: 0 <= i < |nodes| ==> nodes[i].next == Successor(nodes, i)
  }

  ghost function Successor(nodes: seq<Node>, i: nat): Node? {
    if i + 1 < |nodes| then nodes[i + 1] else null
  }

  /** What a read ends in: the bytes, std::out_of_range, or a null block that is dereferenced. */
  datatype ReadOutcome = Data(data: seq<byte>) | OutOfRange | NullCursor

  // -------------------------------------------------------------- reads at a position of their own

  /** What a read of n bytes at pos is for. */
  ghost function Wanted(flat: seq<byte>, size: nat, n: nat, pos: nat): ReadOutcome
    requires size <= |flat|
  {
    if pos + n <= size then Data(flat[pos..pos + n]) else OutOfRange
  }

  /** What the positioned read makes of it: the length check is in 64-bit unsigned arithmetic, and the
      bytes come from the block of the cursor, number at, whatever block pos is in. */
  ghost function Peeked(flat: seq<byte>, size: nat, block: nat, at: nat, n: nat, pos: nat): ReadOutcome
    requires block > 0
  {
    var from := at * block + pos % block;
    if n > (size - pos) % UINT64_SPAN then OutOfRange
    else if at * block == |flat| || from + n > |flat| then NullCursor
    else Data(flat[from..from + n])
  }

  /** The bytes wanted are there and begin in the block of the cursor, or are none and there is a block;
      or they are not there, and the length check does not wrap. */
  predicate ReadFits(capacity: nat, size: nat, block: nat, at: nat, n: nat, pos: nat)
    requires block > 0
  {
    if pos + n > size then pos <= size || n > size - pos + UINT64_SPAN
    else if n > 0 then pos / block == at
    else at * block < capacity
  }

  /** The positioned read is right for every contents if and only if it fits. */
  lemma ReadAtExact(capacity: nat, size: nat, block: nat, count: nat, at: nat, n: nat, pos: nat)
    requires block > 0 && capacity == count * block && at <= count
    requires size <= capacity && size < UINT64_SPAN && n < UINT64_SPAN && pos < UINT64_SPAN
    ensures (forall flat: seq<byte> :: |flat| == capacity ==>
              Peeked(flat, size, block, at, n, pos) == Wanted(flat, size, n, pos))
            <==> ReadFits(capacity, size, block, at, n, pos)
  {
    hide Peeked, Wanted;
    BlockOrder(at, count, block);
    if ReadFits(capacity, size, block, at, n, pos) {
      forall flat: seq<byte> | |flat| == capacity
        ensures Peeked(flat, size, block, at, n, pos) == Wanted(flat, size, n, pos)
      {
        ReadRight(flat, size, block, count, at, n, pos);
      }
    } else {
      var flat := Marked(capacity, at * block + pos % block);
      ReadWrong(flat, size, block, count, at, n, pos);
    }
  }

  /** Zeros, and a 1 at one position. */
  ghost function Marked(capacity: nat, from: nat): (flat: seq<byte>)
    ensures |flat| == capacity && forall i :: 0 <= i < capacity ==> flat[i] == if i == from then 1 else 0
  {
    seq(capacity, i => if i == from then 1 else 0)
  }

  lemma ReadRight(flat: seq<byte>, size: nat, block: nat, count: nat, at: nat, n: nat, pos: nat)
    requires block > 0 && |flat| == count * block && at <= count
    requires size <= |flat| && size < UINT64_SPAN && n < UINT64_SPAN && pos < UINT64_SPAN
    requires ReadFits(|flat|, size, block, at, n, pos)
    ensures Peeked(flat, size, block, at, n, pos) == Wanted(flat, size, n, pos)
  {
    LengthCheck(size, n, pos);
    BlockStart(at, count, block, pos);
  }

  lemma BlockStart(at: nat, count: nat, block: nat, pos: nat)
    requires block > 0 && at <= count
    ensures pos / block == at ==> at * block + pos % block == pos
    ensures at * block < count * block ==> at * block + pos % block < count * block
  {
    BlockOrder(at, count, block);
  }

  lemma ReadWrong(flat: seq<byte>, size: nat, block: nat, count: nat, at: nat, n: nat, pos: nat)
    requires block > 0 && |flat| == count * block && at <= count
    requires size <= |flat| && size < UINT64_SPAN && n < UINT64_SPAN && pos < UINT64_SPAN
    requires !ReadFits(|flat|, size, block, at, n, pos)
    requires flat == Marked(|flat|, at * block + pos % block)
    ensures Peeked(flat, size, block, at, n, pos) != Wanted(flat, size, n, pos)
  {
    LengthCheck(size, n, pos);
    BlockOrder(at, count, block);
    var from := at * block + pos % block;
    if pos + n <= size && n > 0 {
      if from == pos {
        BlockOffset(pos, at, block);
        assert false;
      }
      assert flat[pos] == 0;
      if from + n <= |flat| {
        assert flat[from] == 1;
        assert flat[from..from + n][0] == flat[from] && flat[pos..pos + n][0] == flat[pos];
      }
    }
  }

  lemma LengthCheck(size: nat, n: nat, pos: nat)
    requires size < UINT64_SPAN && n < UINT64_SPAN && pos < UINT64_SPAN
    ensures n > (size - pos) % UINT64_SPAN <==>
            if pos <= size then pos + n > size else n > size - pos + UINT64_SPAN
  {
    if pos <= size {
      assert (size - pos) % UINT64_SPAN == size - pos;
    } else {
      assert (size - pos) % UINT64_SPAN == size - pos + UINT64_SPAN;
    }
  }

  /** Blocks of four bytes, eight bytes written and the position 0: the byte at 5 is read as the one at 1. */
  lemma ReadAtMisses(flat: seq<byte>)
    requires |flat| == 8
    ensures Wanted(flat, 8, 1, 5) == Data([flat[5]]) && Peeked(flat, 8, 4, 0, 1, 5) == Data([flat[1]])
  {
    assert 3 % UINT64_SPAN == 3;
  }

  /** The length the positioned getReadBuffers is for. */
  function ClampWanted(len: nat, size: nat, pos: nat): nat {
    if pos <= size then Min(len, size - pos) else 0
  }

  /** It clamps by the bytes behind the array's own position. The length is the wanted one if and only if
      the two positions are the same, or nothing is asked for, or there are enough bytes behind both, or
      there are none behind either. */
  lemma ClampExact(len: nat, size: nat, position: nat, pos: nat)
    requires position <= size
    ensures Min(len, size - position) == ClampWanted(len, size, pos) <==> ClampFits(len, size, position, pos)
  {
  }

  /** Eight bytes, the position at their beginning: four are asked for from 6 on, where there are two, and the
      length stays four. */
  lemma ClampMisses()
    ensures Min(4, 8 - 0) == 4 && ClampWanted(4, 8, 6) == 2 && !ClampFits(4, 8, 0, 6)
  {
  }

  predicate ClampFits(len: nat, size: nat, position: nat, pos: nat) {
    pos == position || len == 0 || (pos + len <= size && position + len <= size) || (position == size && size <= pos)
  }

  /** One buffer of a scatter or gather list. */
  datatype IoVec = IoVec(base: array<byte>, off: nat, len: nat)

  ghost predicate InBounds(iovs: seq<IoVec>) {
    forall i :: 0 <= i < |iovs| ==> iovs[i].off + iovs[i].len <= iovs[i].base.Length
  }

  ghost function Bases(iovs: seq<IoVec>): set<array<byte>> {
    set i | 0 <= i < |iovs| :: iovs[i].base
  }

  function TotalLength(iovs: seq<IoVec>): nat {
    if iovs == [] then 0 else iovs[0].len + TotalLength(iovs[1..])
  }

  /** The memory of a list of buffers, in a row. */
  function Gathered(iovs: seq<IoVec>): seq<byte>
    requires InBounds(iovs)
    reads Bases(iovs)
  {
    if iovs == [] then []
    else
      assert iovs[0].base in Bases(iovs);
      assert forall i :: 0 <= i < |iovs[1..]| ==> iovs[1..][i] == iovs[i + 1];
      iovs[0].base[iovs[0].off..iovs[0].off + iovs[0].len] + Gathered(iovs[1..])
  }

  class ByteArray {
    const baseSize: nat
    var position: nat
    var capacity: nat
    var size: nat
    var root: Node
    var cur: Node?
    var littleEndian: bool

    ghost var nodes: seq<Node>          // the list from root on
    ghost var blocks: seq<array<byte>>  // their memory
    ghost var flat: seq<byte>           // the blocks in a row
    ghost var at: nat                   // the number of the cursor's block
    ghost var Repr: set<object>

    // -------------------------------------------------------------- representation

    ghost function Start(k: nat): nat {
      k * baseSize
    }

    /** The blocks form one list from the root, share nothing and all have the block size. */
    ghost predicate Chained()
      reads `nodes, `blocks, `root, `Repr, nodes
    {
      && this in Repr && baseSize > 0 && |nodes| > 0 && root == nodes[0]
      && Shaped(nodes, blocks, Repr, baseSize) && Linked(nodes)
    }

    /** Block k holds its stretch of the flat sequence. */
    ghost predicate Backs(k: nat)
      requires k < |blocks|
      reads `blocks, `flat, blocks[k]
    {
      Start(k) + baseSize <= |flat| && blocks[k][..] == flat[Start(k)..Start(k) + baseSize]
    }

    ghost predicate Backed()
      reads `blocks, `flat, `capacity, blocks
    {
      && |flat| == capacity == Start(|blocks|)
      && (forall k :: 0 <= k < |blocks| ==> Backs(k))
    }

    /** The cursor is at the block of the position, and null exactly at the end of the capacity. */
    ghost predicate AtCursor()
      reads `nodes, `at, `cur, `position, `capacity
    {
      && at <= |nodes|
      && (if at < |nodes| then cur == nodes[at] && Start(at) <= position < Start(at) + baseSize
          else cur == null && position == capacity)
    }

    ghost predicate Valid()
      reads this, Repr
      ensures Valid() ==> this in Repr
    {
      && this in Repr && (forall i :: 0 <= i < |nodes| ==> nodes[i] in Repr)
      && (forall i :: 0 <= i < |blocks| ==> blocks[i] in Repr)
      && Chained() && Backed() && AtCursor() && position <= size <= capacity
    }

    /** The bytes written so far. */
    ghost function Contents(): seq<byte>
      requires Valid()
      reads this, Repr
    {
      flat[..size]
    }

    /** No more blocks than the contents need, apart from the first. */
    ghost predicate Tight()
      reads `capacity, `size
    {
      capacity == baseSize || capacity < size + baseSize
    }

    /** The contents end exactly at the capacity. */
    lemma TightFull()
      requires Valid() && Tight()
      ensures size == capacity <==> size > 0 && size % baseSize == 0
    {
      hide Chained, Backed, Linked;
      ChainedFacts();
      BackedFacts();
      FullBlocks(size, capacity, |blocks|, baseSize);
    }

    lemma InRange()
      requires Valid()
      ensures position <= size == |Contents()| <= capacity && this in Repr && baseSize > 0
      ensures forall b :: b in blocks ==> b in Repr
    {
      hide Linked, Start;
      ChainedFacts();
      BackedFacts();
    }

    function ReadSize(): nat
      requires position <= size
      reads this
    {
      size - position
    }

    // -------------------------------------------------------------- construction

    constructor (baseSize: nat)
      requires baseSize > 0
      ensures Valid() && fresh(Repr) && this.baseSize == baseSize
      ensures position == 0 && size == 0 && capacity == baseSize && Contents() == [] && !littleEndian
    {
      this.baseSize := baseSize;
      littleEndian := false;
      position, capacity, size := 0, baseSize, 0;
      var node := new Node(baseSize);
      root, cur := node, node;
      nodes, blocks, flat, at := [node], [node.ptr], node.ptr[..], 0;
      Repr := {this, node, node.ptr};
      new;
      assert Start(1) == baseSize && Start(0) == 0;
    }

    method SetIsLittleEndian(val: bool)
      requires Valid()
      modifies `littleEndian
      ensures Valid() && littleEndian == val && Contents() == old(Contents())
    {
      littleEndian := val;
    }

    // -------------------------------------------------------------- memcpy into a block

    lemma ChainedFacts()
      requires Chained()
      ensures baseSize > 0 && |nodes| > 0 && root == nodes[0] && |blocks| == |nodes| && this in Repr
      ensures forall i :: 0 <= i < |nodes| ==> nodes[i] in Repr && nodes[i].ptr == blocks[i]
      ensures forall i :: 0 <= i < |blocks| ==> blocks[i] in Repr && blocks[i].Length == baseSize
    {
      hide Linked;
    }

    lemma BlocksApart(i: nat, j: nat)
      requires Chained() && i < |blocks| && j < |blocks| && i != j
      ensures blocks[i] != blocks[j]
    {
      hide Linked;
    }

    lemma BackedFacts()
      requires Backed()
      ensures |flat| == capacity == Start(|blocks|)
    {
    }

    /** memcpy into a block. */
    method Store(ptr: array<byte>, ghost k: nat, off: nat, src: seq<byte>)
      requires Chained() && Backed() && k < |blocks| && blocks[k] == ptr && off + |src| <= baseSize
      modifies ptr, `flat
      ensures Chained() && Backed()
      ensures Start(k) + off + |src| <= |old(flat)| && flat == Overlay(old(flat), Start(k) + off, src)
    {
      hide Chained, Overlay;
      ChainedFacts();
      BlockOrder(k, |blocks|, baseSize);
      assert Backs(k);
      ghost var was := flat;
      label before:
      Memcpy(ptr, off, src);
      flat := Overlay(was, Start(k) + off, src);
      forall j | 0 <= j < |blocks|
        ensures Backs(j)
      {
        assert old(Backs(j));
        BlockOrder(j, k, baseSize);
        BlockOrder(k, j, baseSize);
        OverlaySlice(was, Start(k) + off, src, Start(j), Start(j) + baseSize);
        if j != k {
          BlocksApart(j, k);
          assert blocks[j][..] == old(blocks[j][..]);
        }
      }
    }

    // -------------------------------------------------------------- capacity

    lemma LastInNodes()
      requires Chained()
      ensures nodes[|nodes| - 1] in Repr
      ensures forall i :: 0 <= i < |nodes| - 1 ==> nodes[i] != nodes[|nodes| - 1]
    {
    }

    /** A new node at the end of the list. */
    method Link(last: Node) returns (node: Node)
      requires Chained() && last == nodes[|nodes| - 1]
      modifies last`next, `nodes, `blocks, `Repr
      ensures Chained()
      ensures fresh(node) && fresh(node.ptr) && Repr == old(Repr) + {node, node.ptr}
      ensures nodes == old(nodes) + [node] && blocks == old(blocks) + [node.ptr]
    {
      hide Shaped;
      LastInNodes();
      node := new Node(baseSize);
      ShapedAppend(nodes, blocks, Repr, baseSize, node);
      last.next := node;
      nodes, blocks := nodes + [node], blocks + [node.ptr];
      Repr := Repr + {node, node.ptr};
      assert Linked(nodes) by {
        forall i | 0 <= i < |nodes| ensures nodes[i].next == Successor(nodes, i) {
          if i < |nodes| - 2 {
            assert old(nodes[i].next == Successor(nodes, i)) && nodes[i] != last;
          }
        }
      }
    }

    /** One round of the loop that adds room: an empty block is hung behind the last one, and the capacity
        grows by its size. */
    method Append(last: Node) returns (node: Node)
      requires Chained() && Backed() && last == nodes[|nodes| - 1]
      modifies last`next, `capacity, `nodes, `blocks, `flat, `Repr
      ensures Chained() && Backed()
      ensures fresh(node) && fresh(node.ptr) && Repr == old(Repr) + {node, node.ptr}
      ensures nodes == old(nodes) + [node] && capacity == old(capacity) + baseSize && old(flat) <= flat
    {
      hide Chained;
      ChainedFacts();
      BackedFacts();
      ghost var n, was := |blocks|, flat;
      node := Link(last);
      ChainedFacts();
      assert blocks[n].Length == baseSize;
      capacity := capacity + baseSize;
      flat := was + node.ptr[..];
      BlockOrder(n, n + 1, baseSize);
      forall k | 0 <= k < |blocks|
        ensures Backs(k)
      {
        if k < n {
          assert old(Backs(k));
          assert blocks[k] == old(blocks[k]) && blocks[k][..] == old(blocks[k][..]);
          BlockOrder(k, n, baseSize);
          assert flat[Start(k)..Start(k) + baseSize] == was[Start(k)..Start(k) + baseSize];
        } else {
          assert flat[Start(n)..Start(n) + baseSize] == node.ptr[..];
        }
      }
    }

    /** The end of the list. */
    method Last() returns (tmp: Node)
      requires Chained()
      ensures tmp == nodes[|nodes| - 1]
    {
      tmp := root;
      ghost var i := 0;
      while tmp.next != null
        invariant 0 <= i < |nodes| && tmp == nodes[i]
        decreases |nodes| - i
      {
        assert nodes[i].next == Successor(nodes, i);
        tmp := tmp.next;
        i := i + 1;
      }
      assert nodes[i].next == Successor(nodes, i);
    }

    /** The loop that appends count blocks and remembers the first of them. */
    method AppendBlocks(count: nat) returns (first: Node?)
      requires Chained() && Backed()
      modifies Repr
      ensures Chained() && Backed() && fresh(Repr - old(Repr))
      ensures position == old(position) && size == old(size) && cur == old(cur) && at == old(at)
      ensures littleEndian == old(littleEndian)
      ensures old(flat) <= flat && old(nodes) <= nodes
      ensures |nodes| == old(|nodes|) + count && capacity == old(capacity) + count * baseSize
      ensures count > 0 ==> first == nodes[old(|nodes|)]
    {
      hide Chained, Backed;
      var tmp := Last();
      first := null;
      ghost var length := |nodes|;
      assert length > 0 && this in Repr && nodes[length - 1] in Repr by { ChainedFacts(); }
      for c := 0 to count
        invariant Chained() && Backed() && fresh(Repr - old(Repr)) && length <= |nodes|
        invariant tmp == nodes[|nodes| - 1] && this in Repr && tmp in Repr
        invariant position == old(position) && size == old(size) && cur == old(cur) && at == old(at)
        invariant littleEndian == old(littleEndian)
        invariant old(flat) <= flat && old(nodes) <= nodes
        invariant |nodes| == length + c && capacity == old(capacity) + c * baseSize
        invariant if c == 0 then first == null else first == nodes[length]
      {
        BlockOrder(c, c + 1, baseSize);
        tmp := Append(tmp);
        if first == null {
          first := tmp;
        }
      }
    }

    /** The cursor is past the last block exactly when no room is left. */
    lemma CursorAtEnd()
      requires Chained() && Backed() && AtCursor()
      ensures position <= capacity && (position == capacity <==> at == |nodes|)
    {
      BlockOrder(at, |nodes|, baseSize);
    }

    /** Blocks added at the end leave the cursor where it is, unless it was past the last block. */
    lemma CursorStays(length: nat)
      requires Chained() && Backed() && at <= length < |nodes|
      requires if at < length then cur == nodes[at] && Start(at) <= position < Start(at) + baseSize
               else cur == nodes[length] && position == Start(length)
      ensures AtCursor()
    {
      hide Linked, Backed;
    }

    method AddCapacity(n: nat)
      requires Valid()
      modifies Repr
      ensures Valid() && fresh(Repr - old(Repr))
      ensures position == old(position) && size == old(size) && old(flat) <= flat && old(nodes) <= nodes
      ensures littleEndian == old(littleEndian)
      ensures capacity == Grown(old(capacity), baseSize, position + n)
    {
      hide Chained, Backed;
      ChainedFacts();
      CursorAtEnd();
      if n == 0 {
        return;
      }
      var oldCap := capacity - position;
      if oldCap >= n {
        return;
      }
      var count := Ceil(n - oldCap, baseSize);
      GrownFits(capacity, baseSize, position + n);
      ghost var length := |nodes|;
      assert capacity == Start(length) by { BackedFacts(); }
      assert count > 0;
      var first := AppendBlocks(count);
      if oldCap == 0 {
        cur := first;
      }
      CursorStays(length);
      ChainedFacts();
    }

    // -------------------------------------------------------------- write

    /** What lies at and behind block k. */
    lemma NodeFacts(k: nat)
      requires Chained() && Backed() && k < |nodes|
      ensures nodes[k].size == baseSize && nodes[k].next == Successor(nodes, k)
      ensures Start(k + 1) == Start(k) + baseSize <= capacity
      ensures k + 1 == |nodes| <==> Start(k + 1) == capacity
    {
      BlockOrder(k, |nodes|, baseSize);
      BlockOrder(k + 1, |nodes|, baseSize);
    }

    /** A piece that fits is copied into the cursor's block, and the position moves behind it. */
    method Fill(npos: nat, src: seq<byte>)
      requires Chained() && Backed() && AtCursor() && cur != null
      requires npos == position - Start(at) && npos + |src| <= baseSize
      modifies `position, `flat, cur.ptr
      ensures Chained() && Backed()
      ensures position == old(position) + |src| <= |old(flat)| == |flat|
      ensures flat == Overlay(old(flat), old(position), src)
    {
      hide Chained, Backed, Linked, Overlay, Start;
      AtBlock();
      Store(cur.ptr, at, npos, src);
      position := position + |src|;
    }

    /** A cursor that is not null is at a block, at the position modulo the block size. */
    lemma AtBlock()
      requires Chained() && AtCursor() && cur != null
      ensures at < |nodes| == |blocks| && cur == nodes[at] && cur.ptr == blocks[at] && baseSize > 0
      ensures position % baseSize == position - Start(at) && position / baseSize == at
    {
      hide Linked;
      BlockOffset(position, at, baseSize);
    }

    /** At the end of a block the cursor moves on to the next one. */
    method NextBlock()
      requires Chained() && Backed() && at < |nodes| && cur == nodes[at] && position == Start(at) + baseSize
      modifies `cur, `at
      ensures Chained() && Backed() && AtCursor() && position == Start(at) && at == old(at) + 1
      ensures position < capacity ==> cur != null && at < |nodes| && cur.size == baseSize
    {
      hide Chained, Backed, Linked, Start;
      ChainedFacts();
      BackedFacts();
      NodeFacts(at);
      cur := cur.next;
      at := at + 1;
      if at < |nodes| {
        NodeFacts(at);
      }
    }

    /** The copying loop: from the cursor on, block by block. */
    method CopyIn(buf: seq<byte>)
      requires Chained() && Backed() && AtCursor() && cur != null && position + |buf| <= capacity
      modifies `position, `cur, `at, `flat, blocks
      ensures Chained() && Backed() && AtCursor()
      ensures position == old(position) + |buf| <= |old(flat)|
      ensures flat == Overlay(old(flat), old(position), buf)
    {
      hide Chained, Backed, Linked, Overlay, Start;
      ghost var p, was := position, flat;
      BackedFacts();
      AtBlock();
      NodeFacts(at);
      var npos := position % baseSize;
      var ncap := cur.size - npos;
      var bpos := 0;
      var left := |buf|;
      OverlayNothing(was, p);
      while left > 0
        invariant Chained() && Backed() && AtCursor()
        invariant 0 <= bpos <= |buf| && left == |buf| - bpos && position == p + bpos
        invariant left > 0 ==> cur != null && npos == position - Start(at) && ncap == baseSize - npos
        invariant flat == Overlay(was, p, buf[..bpos])
      {
        AtBlock();
        NodeFacts(at);
        if ncap >= left {
          Fill(npos, buf[bpos..bpos + left]);
          OverlayMore(was, p, buf, bpos, left);
          if cur.size == npos + left {
            NextBlock();
          }
          bpos := bpos + left;
          left := 0;
        } else {
          Fill(npos, buf[bpos..bpos + ncap]);
          OverlayMore(was, p, buf, bpos, ncap);
          bpos := bpos + ncap;
          left := left - ncap;
          NextBlock();
          ncap := cur.size;
          npos := 0;
        }
      }
      assert buf[..bpos] == buf;
    }

    method Write(buf: seq<byte>)
      requires Valid()
      modifies Repr
      ensures Valid() && fresh(Repr - old(Repr))
      ensures Contents() == Written(old(Contents()), old(position), buf)
      ensures position == old(position) + |buf| && size == if position > old(size) then position else old(size)
      ensures capacity == Grown(old(capacity), baseSize, position) && littleEndian == old(littleEndian)
    {
      hide Chained, Backed, Linked, Overlay, Written, Grown, Start;
      ChainedFacts();
      BackedFacts();
      GrownFits(capacity, baseSize, position + |buf|);
      if |buf| == 0 {
        WrittenNothing(Contents(), position);
        return;
      }
      ghost var p, length, before := position, size, flat;
      AddCapacity(|buf|);
      CursorAtEnd();
      BackedFacts();
      OverlayWrites(before, flat, length, p, buf);
      CopyIn(buf);
      if position > size {
        size := position;
      }
      ChainedFacts();
      BackedFacts();
    }

    // -------------------------------------------------------------- read

    /** A stretch of a block is a stretch of the flat sequence. */
    lemma BlockSlice(k: nat, off: nat, n: nat)
      requires Chained() && Backed() && k < |blocks| && off + n <= baseSize
      ensures blocks[k].Length == baseSize && Start(k) + off + n <= |flat| == capacity
      ensures blocks[k][off..off + n] == flat[Start(k) + off..Start(k) + off + n]
    {
      hide Linked, Start;
      BlockOrder(k, |blocks|, baseSize);
      assert Backs(k);
      SliceOfSlice(flat, Start(k), baseSize, off, n);
      assert blocks[k][off..off + n] == blocks[k][..][off..off + n];
    }

    /** A piece that lies within the cursor's block is copied out, and the position moves behind it. */
    method Take(npos: nat, n: nat) returns (chunk: seq<byte>)
      requires Chained() && Backed() && AtCursor() && cur != null
      requires npos == position - Start(at) && npos + n <= baseSize
      modifies `position
      ensures Chained() && Backed()
      ensures position == old(position) + n <= |flat| && chunk == flat[old(position)..position]
    {
      hide Chained, Backed, Linked, Start;
      AtBlock();
      BlockSlice(at, npos, n);
      chunk := cur.ptr[npos..npos + n];
      position := position + n;
    }

    /** The copying loop of read: n bytes from the cursor on. */
    method CopyOut(n: nat) returns (data: seq<byte>)
      requires Chained() && Backed() && AtCursor() && cur != null && position + n <= capacity
      modifies `position, `cur, `at
      ensures Chained() && Backed() && AtCursor()
      ensures position == old(position) + n <= |flat| && data == flat[old(position)..position]
    {
      hide Chained, Backed, Linked, Start;
      BackedFacts();
      AtBlock();
      ghost var p := position;
      var npos := position % baseSize;
      var ncap := cur.size - npos;
      data := [];
      var left := n;
      NodeFacts(at);
      while left > 0
        invariant Chained() && Backed() && AtCursor() && 0 <= left <= n
        invariant position + left == p + n
        invariant left > 0 ==> cur != null && npos == position - Start(at) && ncap == baseSize - npos
        invariant data == flat[p..position]
      {
        AtBlock();
        NodeFacts(at);
        var chunk;
        if ncap >= left {
          chunk := Take(npos, left);
          SliceMore(flat, p, position - left, left);
          data := data + chunk;
          if cur.size == npos + left {
            NextBlock();
          }
          left := 0;
        } else {
          chunk := Take(npos, ncap);
          SliceMore(flat, p, position - ncap, ncap);
          data := data + chunk;
          left := left - ncap;
          NextBlock();
          ncap := cur.size;
          npos := 0;
        }
      }
    }

    /** read: the next n bytes; a cursor past the last block is dereferenced even when n is 0. */
    method Read(n: nat) returns (r: ReadOutcome)
      requires Valid()
      modifies `position, `cur, `at
      ensures Valid()
      ensures r.OutOfRange? <==> n > old(size - position)
      ensures r.NullCursor? <==> n == 0 && old(position) == capacity
      ensures r.Data? ==> old(position) + n <= size && r.data == Contents()[old(position)..old(position) + n]
      ensures position == if r.Data? then old(position) + n else old(position)
    {
      hide Chained, Backed, Linked, Start;
      CursorAtEnd();
      BackedFacts();
      if n > size - position {
        return OutOfRange;
      }
      if cur == null {
        return NullCursor;
      }
      var data := CopyOut(n);
      r := Data(data);
    }

    /** The bytes from offset npos of block k on; null unless they all lie within the blocks. */
    method Peek(node: Node?, ghost k: nat, npos: nat, n: nat) returns (r: ReadOutcome)
      requires Chained() && Backed() && k <= |nodes| && npos < baseSize
      requires node == if k < |nodes| then nodes[k] else null
      ensures r.NullCursor? <==> k == |nodes| || Start(k) + npos + n > capacity
      ensures r.Data? ==> Start(k) + npos + n <= |flat| && r.data == flat[Start(k) + npos..Start(k) + npos + n]
      ensures !r.OutOfRange?
    {
      hide Chained, Backed, Linked, Start;
      BackedFacts();
      if node == null {
        return NullCursor;
      }
      NodeFacts(k);
      ghost var p: nat := Start(k) + npos;
      var cur, off, ncap := node, npos, node.size - npos;
      ghost var j: nat := k;
      var data: seq<byte> := [];
      var left := n;
      while left > 0
        invariant 0 <= left <= n && p + n - left <= |flat| && data == flat[p..p + n - left]
        invariant left > 0 ==> j < |nodes| && cur == nodes[j]
        invariant left > 0 ==> 0 <= off < baseSize && ncap == baseSize - off && Start(j) + off == p + n - left
      {
        NodeFacts(j);
        ChainedFacts();
        if ncap >= left {
          PieceRead(j, off, p, p + n - left, left);
          data := data + cur.ptr[off..off + left];
          left := 0;
        } else {
          PieceRead(j, off, p, p + n - left, ncap);
          data := data + cur.ptr[off..off + ncap];
          left := left - ncap;
          if cur.next == null {
            return NullCursor;
          }
          cur := cur.next;
          j := j + 1;
          NodeFacts(j);
          ncap := cur.size;
          off := 0;
        }
      }
      r := Data(data);
    }

    /** The bytes of block k behind the flat bytes from p to q. */
    lemma PieceRead(k: nat, off: nat, p: nat, q: nat, n: nat)
      requires Chained() && Backed() && k < |blocks| && off + n <= baseSize && Start(k) + off == q && p <= q
      ensures blocks[k].Length == baseSize && q + n <= |flat|
      ensures flat[p..q] + blocks[k][off..off + n] == flat[p..q + n]
    {
      hide Chained, Backed, Start;
      BlockSlice(k, off, n);
      SliceMore(flat, p, q, n);
    }

    /** read with a position; where it is right is `ReadAtExact`. */
    method ReadAt(n: nat, pos: nat) returns (r: ReadOutcome)
      requires Valid()
      ensures baseSize > 0 && size <= |flat| && r == Peeked(flat, size, baseSize, at, n, pos)
      ensures (size < UINT64_SPAN && n < UINT64_SPAN && pos < UINT64_SPAN
               && ReadFits(capacity, size, baseSize, at, n, pos)) ==> r == Wanted(flat, size, n, pos)
    {
      hide Chained, Backed, Linked, Wanted, ReadFits;
      ChainedFacts();
      CursorAtEnd();
      BackedFacts();
      if size < UINT64_SPAN && n < UINT64_SPAN && pos < UINT64_SPAN && ReadFits(capacity, size, baseSize, at, n, pos) {
        ReadRight(flat, size, baseSize, |blocks|, at, n, pos);
      }
      if n > (size - pos) % UINT64_SPAN {
        return OutOfRange;
      }
      r := Peek(cur, at, pos % baseSize, n);
    }

    /** toString: everything from the position on. */
    method ToString() returns (r: ReadOutcome)
      requires Valid() && size < UINT64_SPAN
      ensures r == Data(Contents()[position..])
    {
      hide Chained, Backed, Linked, Start, Peeked;
      ChainedFacts();
      BackedFacts();
      if size == position {
        return Data([]);
      }
      CursorAtEnd();
      AtBlock();
      assert ReadFits(capacity, size, baseSize, at, size - position, position);
      assert Contents()[position..] == flat[position..size];
      r := ReadAt(size - position, position);
    }

    // -------------------------------------------------------------- position

    method SetPosition(v: nat) returns (ok: bool)
      requires Valid()
      modifies `position, `size, `cur, `at
      ensures Valid()
      ensures ok <==> v <= capacity
      ensures if ok then position == v && size == if v > old(size) then v else old(size)
              else position == old(position) && size == old(size)
      ensures old(Contents()) <= Contents() == flat[..size]
    {
      hide Chained, Backed, Linked, Start;
      BackedFacts();
      if v > capacity {
        return false;
      }
      Seek(v);
      ok := true;
    }

    /** The loop of setPosition: from the root to the block that v is in, or at the end of. */
    method Walk(v: nat) returns (rest: nat)
      requires Chained() && Backed() && v <= capacity
      modifies `cur, `at
      ensures at < |nodes| && cur == nodes[at] && cur.size == baseSize && Start(at) + rest == v && rest <= baseSize
    {
      hide Chained, Backed, Linked, Start;
      ChainedFacts();
      BackedFacts();
      cur, at := root, 0;
      rest := v;
      StartOfFirst();
      NodeFacts(0);
      while rest > cur.size
        invariant at < |nodes| && cur == nodes[at] && cur.size == baseSize && Start(at) + rest == v
      {
        NodeFacts(at);
        rest := rest - cur.size;
        cur := cur.next;
        at := at + 1;
        NodeFacts(at);
      }
    }

    /** The rest of setPosition. */
    method Seek(v: nat)
      requires Chained() && Backed() && v <= capacity
      modifies `position, `size, `cur, `at
      ensures AtCursor() && position == v && size == if v > old(size) then v else old(size)
    {
      hide Chained, Backed, Linked, Start;
      position := v;
      if position > size {
        size := position;
      }
      var rest := Walk(v);
      if rest == cur.size {
        NextBlock();
      }
    }

    lemma StartOfFirst()
      ensures Start(0) == 0 && Start(1) == baseSize
    {
    }

    /** The loop of clear that deletes every block behind the root. */
    method DeleteBlocks()
      requires Chained()
      modifies `cur
    {
      var tmp := root.next;
      assert nodes[0].next == Successor(nodes, 0);
      ghost var i: nat := 1;
      while tmp != null
        invariant i <= |nodes| && tmp == if i < |nodes| then nodes[i] else null
        decreases |nodes| - i
      {
        assert nodes[i].next == Successor(nodes, i);
        cur := tmp;
        tmp := tmp.next;
        i := i + 1;
      }
    }

    /** clear: all blocks but the first are deleted. */
    method Clear()
      requires Valid()
      modifies this, root
      ensures Valid() && Repr == old(Repr)
      ensures position == 0 && size == 0 && capacity == baseSize && Contents() == []
      ensures littleEndian == old(littleEndian)
    {
      hide Chained, Backed, Linked, Start;
      ClearFacts();
      position, size := 0, 0;
      capacity := baseSize;
      DeleteBlocks();
      cur := root;
      root.next := null;
      nodes, blocks, flat, at := [root], [root.ptr], root.ptr[..], 0;
      OneBlock();
    }

    lemma OneBlock()
      requires nodes == [root] && blocks == [root.ptr] && flat == root.ptr[..] && at == 0 && cur == root
      requires this in Repr && root in Repr && root.ptr in Repr && root.next == null
      requires root.size == root.ptr.Length == baseSize == capacity > 0 && position == size == 0
      ensures Valid()
    {
      StartOfFirst();
    }

    lemma ClearFacts()
      requires Valid()
      ensures root in Repr && root.ptr in Repr && root.size == root.ptr.Length == baseSize > 0
    {
      assert nodes[0].ptr == blocks[0];
    }

    // -------------------------------------------------------------- scatter and gather lists

    /** The buffer is the stretch of block k that the flat sequence has at p. */
    ghost predicate Lies(v: IoVec, k: nat, p: nat)
      reads `blocks
    {
      k < |blocks| && v.base == blocks[k] && Start(k) + v.off == p && 0 < v.len && v.off + v.len <= baseSize
    }

    /** The buffers are the n flat bytes from p on, in order, none missing and none twice. */
    ghost predicate Tiles(iovs: seq<IoVec>, p: nat, n: nat)
      reads `blocks
    {
      if iovs == [] then n == 0
      else
        && iovs[0].len <= n && (exists k :: Lies(iovs[0], k, p))
        && Tiles(iovs[1..], p + iovs[0].len, n - iovs[0].len)
    }

    lemma {:induction false} TilesAppend(iovs: seq<IoVec>, v: IoVec, p: nat, n: nat, k: nat)
      requires Tiles(iovs, p, n) && Lies(v, k, p + n)
      ensures Tiles(iovs + [v], p, n + v.len)
      decreases |iovs|
    {
      if iovs == [] {
        assert Tiles([v][1..], p + v.len, 0);
      } else {
        TilesAppend(iovs[1..], v, p + iovs[0].len, n - iovs[0].len, k);
        assert (iovs + [v])[1..] == iovs[1..] + [v];
      }
    }

    /** What the buffers of a tiling hold is the stretch they tile. */
    lemma {:induction false} TilesGather(iovs: seq<IoVec>, p: nat, n: nat)
      requires Chained() && Backed() && Tiles(iovs, p, n) && p <= capacity
      ensures InBounds(iovs) && p + n <= |flat| && Gathered(iovs) == flat[p..p + n] && TotalLength(iovs) == n
      decreases |iovs|
    {
      hide Chained, Backed, Linked, Start;
      BackedFacts();
      if iovs != [] {
        var v := iovs[0];
        var k :| Lies(v, k, p);
        BlockSlice(k, v.off, v.len);
        TilesGather(iovs[1..], p + v.len, n - v.len);
        SliceMore(flat, p, p + v.len, n - v.len);
        forall i | 0 <= i < |iovs|
          ensures iovs[i].off + iovs[i].len <= iovs[i].base.Length
        {
          if i > 0 {
            assert iovs[1..][i - 1] == iovs[i];
          }
        }
      }
    }

    /** The loop the three functions share: buffers for n bytes from offset npos of a block on; it
        dereferences null unless they all lie within the blocks. */
    method Tile(node: Node?, ghost k: nat, npos: nat, n: nat) returns (ok: bool, iovs: seq<IoVec>)
      requires Chained() && Backed() && k <= |nodes| && npos < baseSize
      requires node == if k < |nodes| then nodes[k] else null
      ensures ok <==> k < |nodes| && Start(k) + npos + n <= capacity
      ensures ok ==> Tiles(iovs, Start(k) + npos, n)
    {
      hide Chained, Backed, Linked, Start;
      iovs := [];
      if node == null {
        return false, [];
      }
      NodeFacts(k);
      ghost var p: nat, j: nat := Start(k) + npos, k;
      var cur, off, ncap := node, npos, node.size - npos;
      var len := n;
      while len > 0
        invariant 0 <= len <= n && Tiles(iovs, p, n - len)
        invariant len > 0 ==> j < |nodes| && cur == nodes[j]
        invariant len > 0 ==> 0 <= off < baseSize && ncap == baseSize - off && Start(j) + off == p + n - len
        invariant len == 0 ==> p + n <= capacity
      {
        NodeFacts(j);
        ChainedFacts();
        if ncap >= len {
          TilesAppend(iovs, IoVec(cur.ptr, off, len), p, n - len, j);
          iovs := iovs + [IoVec(cur.ptr, off, len)];
          len := 0;
        } else {
          TilesAppend(iovs, IoVec(cur.ptr, off, ncap), p, n - len, j);
          iovs := iovs + [IoVec(cur.ptr, off, ncap)];
          len := len - ncap;
          if cur.next == null {
            return false, [];
          }
          cur := cur.next;
          j := j + 1;
          NodeFacts(j);
          ncap := cur.size;
          off := 0;
        }
      }
      ok := true;
    }

    /** Buffers for the next bytes, at most as many as there are to read. */
    method GetReadBuffers(len: nat) returns (n: nat, iovs: seq<IoVec>)
      requires Valid()
      ensures n == Min(len, size - position) && Tiles(iovs, position, n)
      ensures InBounds(iovs) && Gathered(iovs) == Contents()[position..position + n]
    {
      hide Chained, Backed, Linked, Start, Lies;
      BackedFacts();
      n := Min(len, size - position);
      iovs := [];
      if n > 0 {
        CursorAtEnd();
        AtBlock();
        var ok;
        ok, iovs := Tile(cur, at, position % baseSize, n);
      }
      TilesGather(iovs, position, n);
    }

    /** The buffers are n bytes of the contents from pos on. */
    ghost predicate HoldContents(iovs: seq<IoVec>, n: nat, pos: nat)
      requires Valid() && size <= |flat|
      reads this, Repr, Bases(iovs)
    {
      InBounds(iovs) && if n == 0 then iovs == [] else pos + n <= size && Gathered(iovs) == Contents()[pos..pos + n]
    }

    /** Buffers from a given position on. The length is clamped by the bytes behind the array's own
        position; when that is right is `ClampExact`. Clamped wrongly, the buffers hold bytes that are not
        contents, or run past the last block. */
    method GetReadBuffersAt(len: nat, pos: nat) returns (ok: bool, n: nat, iovs: seq<IoVec>)
      requires Valid()
      ensures n == Min(len, size - position)
      ensures ok <==> n == 0 || pos + n <= capacity
      ensures ok ==> Tiles(iovs, pos, n)
      ensures ok && n > 0 ==> InBounds(iovs) && pos + n <= |flat| && Gathered(iovs) == flat[pos..pos + n]
      ensures size <= |flat| && (ok && HoldContents(iovs, n, pos) <==> n == 0 || pos + n <= size)
      ensures n == ClampWanted(len, size, pos) <==> ClampFits(len, size, position, pos)
      ensures ClampFits(len, size, position, pos) ==> ok && HoldContents(iovs, n, pos)
    {
      hide Chained, Backed, Linked, Start, Lies, ClampFits, HoldContents, Tiles;
      ClampExact(len, size, position, pos);
      ChainedFacts();
      BackedFacts();
      n := Min(len, size - position);
      if n == 0 {
        TilesHold([], n, pos);
        return true, n, [];
      }
      var node: Node? := root;
      var count := pos / baseSize;
      ghost var k: nat := 0;
      StartOfFirst();
      BlockOfPosition(pos);
      while count > 0
        invariant 0 <= count && k + count == pos / baseSize && k <= |nodes|
        invariant node == if k < |nodes| then nodes[k] else null
      {
        if node == null {
          PastTheEnd(k, pos / baseSize);
          return false, n, [];
        }
        NodeFacts(k);
        node := node.next;
        k := k + 1;
        count := count - 1;
      }
      PastTheEnd(k, pos / baseSize);
      ok, iovs := Tile(node, k, pos % baseSize, n);
      if ok {
        TilesHold(iovs, n, pos);
      }
    }

    lemma TilesHold(iovs: seq<IoVec>, n: nat, pos: nat)
      requires Valid() && size <= |flat| == capacity && (if n == 0 then iovs == [] else Tiles(iovs, pos, n))
      requires n == 0 || pos + n <= capacity
      ensures Tiles(iovs, pos, n)
      ensures n > 0 ==> InBounds(iovs) && Gathered(iovs) == flat[pos..pos + n]
      ensures HoldContents(iovs, n, pos) <==> n == 0 || pos + n <= size
    {
      hide Chained, Backed, Linked, Lies;
      if n > 0 {
        TilesGather(iovs, pos, n);
        if pos + n <= size {
          assert Contents()[pos..pos + n] == flat[pos..pos + n];
        }
      }
    }

    lemma BlockOfPosition(pos: nat)
      requires baseSize > 0
      ensures Start(pos / baseSize) + pos % baseSize == pos
    {
    }

    /** A block number at or beyond the last stands for positions outside the capacity. */
    lemma PastTheEnd(k: nat, q: nat)
      requires Chained() && Backed()
      ensures k == |nodes| && k <= q ==> capacity <= Start(q)
    {
      BlockOrder(k, q, baseSize);
    }

    /** Buffers for n bytes from the position on, for which room is made. */
    method GetWriteBuffers(n: nat) returns (iovs: seq<IoVec>)
      requires Valid()
      modifies Repr
      ensures Valid() && fresh(Repr - old(Repr))
      ensures position == old(position) && size == old(size) && Contents() == old(Contents())
      ensures littleEndian == old(littleEndian)
      ensures capacity == Grown(old(capacity), baseSize, position + n) && position + n <= capacity
      ensures Tiles(iovs, position, n) && InBounds(iovs) && TotalLength(iovs) == n
    {
      hide Chained, Backed, Linked, Start, Lies, Grown;
      ChainedFacts();
      BackedFacts();
      GrownFits(capacity, baseSize, position + n);
      iovs := [];
      if n > 0 {
        AddCapacity(n);
        CursorAtEnd();
        AtBlock();
        BackedFacts();
        var ok;
        ok, iovs := Tile(cur, at, position % baseSize, n);
      }
      TilesGather(iovs, position, n);
    }

    /** What recv does to memory: the data goes into the buffers in their order. */
    method Scatter(iovs: seq<IoVec>, ghost p: nat, ghost n: nat, data: seq<byte>)
      requires Chained() && Backed() && Tiles(iovs, p, n) && |data| <= n && p + n <= capacity
      modifies blocks, `flat
      ensures Chained() && Backed() && Tiles(iovs, p, n)
      ensures p + |data| <= |old(flat)| && flat == Overlay(old(flat), p, data)
    {
      hide Chained, Backed, Linked, Start, Overlay;
      BackedFacts();
      ghost var was := flat;
      var rest, done: nat := iovs, 0;
      OverlayNothing(was, p);
      while done < |data|
        invariant Chained() && Backed() && done <= |data| <= n && Tiles(rest, p + done, n - done)
        invariant p + n <= |was| && flat == Overlay(was, p, data[..done])
        decreases |data| - done
      {
        var v := rest[0];
        ghost var k :| Lies(v, k, p + done);
        var m := Min(v.len, |data| - done);
        Store(v.base, k, v.off, data[done..done + m]);
        OverlayMore(was, p, data, done, m);
        if m < v.len {
          assert data[..done + m] == data;
          return;
        }
        done := done + m;
        rest := rest[1..];
      }
      assert data[..done] == data;
    }
  }
}
