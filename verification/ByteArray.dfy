// The chunked cursor buffer: a singly linked list of equal-sized blocks and a
// pointer that caches the block under the cursor.  Every operation is specified
// on one flat view of the contents.

module ByteArrays {
  import opened Common

  /** What the buffer means: `data` is the whole capacity, of which the first
      `size` bytes are in use, with the cursor at `position`. */
  datatype Flat = Flat(data: seq<byte>, position: nat, size: nat) {
    ghost predicate Valid() {
      position <= size <= |data|
    }

    /** The bytes in use. */
    function Bytes(): seq<byte>
      requires Valid()
    {
      data[..size]
    }

    function ReadSize(): nat
      requires Valid()
    {
      size - position
    }
  }

  /** Capacity after making room up to `end`: whole blocks, and no more of them
      than needed. */
  ghost predicate Grown(before: nat, end: nat, base: nat, after: nat) {
    && end <= after
    && (end <= before ==> after == before)
    && (end > before ==> after < end + base)
    && base > 0 && after % base == 0
  }

  /** `after` is `before` with `chunk` stored at the cursor and the cursor moved
      past it; there may be more room than before. */
  ghost predicate Stored(before: Flat, chunk: seq<byte>, after: Flat) {
    && before.Valid() && after.Valid()
    && |before.data| <= |after.data|
    && after.data[..before.position] == before.data[..before.position]
    && after.position == before.position + |chunk|
    && after.data[before.position..after.position] == chunk
    && (after.position <= |before.data| ==>
         after.data[after.position..|before.data|] == before.data[after.position..])
    && after.size == Max(before.size, after.position)
  }

  /** What a write does: it stores the chunk and grows no more than it must. */
  ghost predicate Wrote(before: Flat, chunk: seq<byte>, after: Flat, base: nat) {
    && Stored(before, chunk, after)
    && Grown(|before.data|, before.position + |chunk|, base, |after.data|)
  }

  /** Seen through the bytes in use, storing overwrites at the cursor and
      extends past the end, and the outcome is unique. */
  lemma StoredBytes(before: Flat, chunk: seq<byte>, after: Flat)
    requires Stored(before, chunk, after)
    ensures after.Bytes() ==
      before.Bytes()[..before.position] + chunk +
      (if before.position + |chunk| <= before.size
       then before.Bytes()[before.position + |chunk|..] else [])
  {
    var p, e := before.position, after.position;
    var rest := if e <= before.size then before.data[e..before.size] else [];
    assert after.data[e..after.size] == rest by {
      if e < before.size {
        SameStretch(after.data, before.data, e, before.size, |before.data|);
      }
    }
    assert after.data[..after.size] == after.data[..p] + after.data[p..e] + after.data[e..after.size];
    assert before.Bytes()[..p] == before.data[..p];
    assert e <= before.size ==> before.Bytes()[e..] == rest;
  }

  /** Two stores in a row are one store of both. */
  lemma StoredTwice(a: Flat, x: seq<byte>, b: Flat, y: seq<byte>, c: Flat)
    requires Stored(a, x, b) && Stored(b, y, c)
    ensures Stored(a, x + y, c)
  {
    var p, q, e := a.position, b.position, c.position;
    SameStretch(c.data, b.data, 0, p, q);
    assert c.data[p..q] == c.data[..q][p..] == b.data[..q][p..];
    assert c.data[p..e] == c.data[p..q] + c.data[q..e];
    if e <= |a.data| {
      SameStretch(c.data, b.data, e, |a.data|, |b.data|);
      assert b.data[e..|a.data|] == b.data[q..|a.data|][e - q..] == a.data[q..][e - q..];
    }
  }

  class Node {
    const ptr: array<byte>
    const size: nat
    var next: Node?

    constructor (s: nat)
      ensures size == s && ptr.Length == s && next == null && fresh(ptr)
    {
      ptr := new byte[s];
      size := s;
      next := null;
    }
  }

  /** A region handed to the kernel: `len` bytes of `base` from `off`. */
  datatype Iovec = Iovec(base: array<byte>, off: nat, len: nat)

  function NodeAt(bs: seq<Node>, i: nat): Node? {
    if i < |bs| then bs[i] else null
  }

  /** The blocks, joined end to end, spell out `data`. */
  ghost predicate Spells(bs: seq<Node>, base: nat, data: seq<byte>)
    reads set n | n in bs :: n.ptr
  {
    && |data| == Offset(base, |bs|)
    && forall i :: 0 <= i < |bs| ==> BlockIs(bs[i], data, Offset(base, i))
  }

  /** The block's bytes are those of `data` from `at` on. */
  ghost predicate BlockIs(n: Node, data: seq<byte>, at: nat)
    reads n.ptr
  {
    at + n.ptr.Length <= |data| && forall k :: 0 <= k < n.ptr.Length ==> n.ptr[k] == data[at + k]
  }

  lemma SpellsMore(bs: seq<Node>, base: nat, data: seq<byte>, node: Node)
    requires Spells(bs, base, data) && node.ptr.Length == base
    ensures Spells(bs + [node], base, data + node.ptr[..])
  {
    forall i | 0 <= i < |bs|
      ensures BlockIs(bs[i], data + node.ptr[..], Offset(base, i))
    {
      assert BlockIs(bs[i], data, Offset(base, i));
    }
  }

  function Ceil(x: real): int {
    -(-x).Floor
  }

  const EXACT: nat := 0x20_0000_0000_0000

  /** A double-precision quotient: within half a unit in the last place of the true
      one, and on the same side of every integer.  From 2^53 on it is taken as
      exact. */
  predicate Rounds(r: real, size: nat, base: nat)
    requires base > 0
  {
    var x := size as real / base as real;
    if size >= EXACT then r == x
    else (x - r) * EXACT as real <= x && r <= Ceil(x) as real
  }

  /** Rounding the quotient does not change its ceiling. */
  lemma CeilRounded(r: real, size: nat, base: nat)
    requires base > 0 && size > 0 && Rounds(r, size, base)
    ensures Ceil(r) == Ceil(size as real / base as real)
  {
    var x := size as real / base as real;
    var c := Ceil(x);
    if size < EXACT {
      QuotientPositive(size, base);
      CeilBounds(size, base);
      GapScaled(x, c - 1, size, base);
      AboveFloor(x, r, (c - 1) as real, base as real, EXACT as real, size as real);
    }
  }

  /** A rounding error below one part in `e` does not close a gap of one part in
      `b`. */
  lemma AboveFloor(x: real, r: real, k: real, b: real, e: real, size: real)
    requires b > 0.0 && e > size > 0.0 && x * b == size
    requires (x - k) * b >= 1.0 && (x - r) * e <= x
    ensures r > k
  {
    RealScale((x - r) * e, x, b);
    assert (x - r) * e * b == (x - r) * b * e;
    RealCancel((x - r) * b, 1.0, e);
    assert (x - r) * b < (x - k) * b;
    RealCancel(x - r, x - k, b);
  }

  lemma RealCancel(y: real, z: real, b: real)
    requires b > 0.0 && y * b < z * b
    ensures y < z
  {
  }

  lemma GapScaled(x: real, k: int, size: nat, base: nat)
    requires base > 0 && x * base as real == size as real && k * base < size
    ensures (x - k as real) * base as real >= 1.0
  {
    RealProduct(k, base);
    assert (x - k as real) * base as real == x * base as real - k as real * base as real;
  }

  lemma CeilAbove(x: real)
    ensures x <= Ceil(x) as real
  {
  }

  lemma CeilScaled(x: real, b: real)
    requires b > 0.0
    ensures (Ceil(x) - 1) as real * b < x * b <= Ceil(x) as real * b
  {
    RealScale((Ceil(x) - 1) as real, x, b);
    RealScale(x, Ceil(x) as real, b);
  }

  lemma QuotientPositive(size: nat, base: nat)
    requires base > 0 && size > 0
    ensures size as real / base as real > 0.0
    ensures size as real / base as real * base as real == size as real
  {
  }

  lemma CeilBounds(size: nat, base: nat)
    requires base > 0 && size > 0
    ensures var c := Ceil(size as real / base as real);
            c >= 1 && (c - 1) * base < size <= c * base
  {
    var x := size as real / base as real;
    var c := Ceil(x);
    QuotientPositive(size, base);
    assert c >= 1;
    CeilScaled(x, base as real);
    RealProduct(c - 1, base);
    RealProduct(c, base);
  }

  lemma RealProduct(i: int, j: int)
    ensures (i * j) as real == i as real * j as real
  {
  }

  lemma CeilBlocks(size: nat, base: nat)
    requires base > 0 && size > 0
    ensures var c := Ceil(size as real / base as real);
            c >= 1 && Offset(base, c - 1) < size <= Offset(base, c)
  {
    CeilBounds(size, base);
    var c := Ceil(size as real / base as real);
    OffsetIsProduct(base, c - 1);
    OffsetIsProduct(base, c);
  }

  lemma RealScale(x: real, y: real, b: real)
    requires b > 0.0
    ensures x < y ==> x * b < y * b
    ensures x <= y ==> x * b <= y * b
  {
  }

  class ByteArray {
    const baseSize: nat
    const root: Node
    var position: nat
    var size: nat
    var capacity: nat
    var littleEndian: bool
    var cur: Node?

    /** The block list first to last, the bytes it holds, and every object the
        buffer is made of. */
    ghost var blocks: seq<Node>
    ghost var data: seq<byte>
    ghost var Repr: set<object>

    /** The list is acyclic, its blocks are distinct and equally large, and
        `capacity` counts them. */
    ghost predicate Shape()
      reads `blocks, `capacity, `Repr, blocks
    {
      && this in Repr
      && baseSize > 0
      && |blocks| > 0 && blocks[0] == root
      && (forall i :: 0 <= i < |blocks| ==>
            && blocks[i] in Repr && blocks[i].ptr in Repr
            && blocks[i].size == baseSize == blocks[i].ptr.Length)
      && (forall i, j :: 0 <= i < j < |blocks| ==> blocks[i].ptr != blocks[j].ptr)
      && (forall i {:trigger blocks[i].next} :: 0 <= i < |blocks| ==>
            blocks[i].next == NodeAt(blocks, i + 1))
      && capacity == Offset(baseSize, |blocks|)
    }

    /** The list holds `data`. */
    ghost predicate Linked()
      reads `blocks, `data, `capacity, `Repr, blocks, set n | n in blocks :: n.ptr
      ensures Linked() ==> this in Repr
    {
      Shape() && Spells(blocks, baseSize, data)
    }

    /** The cached pointer is the block under the cursor, and null exactly when
        the cursor is at capacity. */
    ghost predicate Valid()
      reads this, blocks, set n | n in blocks :: n.ptr
      ensures Valid() ==> this in Repr
    {
      && Linked()
      && position <= size <= capacity
      && cur == NodeAt(blocks, BlockOf(baseSize, position))
    }

    ghost function View(): Flat
      reads this
    {
      Flat(data, position, size)
    }

    lemma CursorNull()
      requires Valid()
      ensures cur == null <==> position == capacity
    {
      var q := BlockOf(baseSize, position);
      BlockOfBounds(baseSize, position);
      if q < |blocks| {
        OffsetMonotone(baseSize, q + 1, |blocks|);
      } else {
        OffsetMonotone(baseSize, |blocks|, q);
      }
    }

    /** One block, empty for a base size of 0: then the cursor is at capacity and yet
        its block is not null. */
    constructor (base: nat)
      ensures base > 0 ==> Valid()
      ensures position == 0 && size == 0 && capacity == base == baseSize && !littleEndian
      ensures blocks == [root] && cur == root && root.next == null && root.ptr.Length == root.size == base
      ensures fresh(Repr)
    {
      var node := new Node(base);
      baseSize := base;
      position, size, capacity := 0, 0, base;
      littleEndian := false;
      root := node;
      cur := node;
      blocks := [node];
      data := node.ptr[..];
      Repr := {this, node, node.ptr};
      new;
      if base > 0 {
        BlockOfUnique(base, 0, 0);
      }
    }

    lemma Separate()
      requires Shape()
      ensures forall i :: 0 <= i < |blocks| ==> blocks[i].ptr.Length == baseSize
      ensures forall i, j :: 0 <= i < |blocks| && 0 <= j < |blocks| && i != j ==> blocks[i].ptr != blocks[j].ptr
    {
    }

    method Poke(ptr: array<byte>, at: nat, chunk: seq<byte>)
      requires at + |chunk| <= ptr.Length
      modifies ptr
      ensures forall k :: 0 <= k < ptr.Length ==> ptr[k] == if at <= k < at + |chunk| then chunk[k - at] else old(ptr[k])
    {
      forall j | 0 <= j < |chunk| {
        ptr[at + j] := chunk[j];
      }
    }

    /** memcpy into one block. */
    method CopyIn(ghost idx: nat, ptr: array<byte>, at: nat, chunk: seq<byte>)
      requires Linked() && idx < |blocks| && blocks[idx].ptr == ptr
      requires at + |chunk| <= baseSize
      modifies ptr, this`data
      ensures Linked()
      ensures Offset(baseSize, idx) + at + |chunk| <= |data| == |old(data)|
      ensures data == Splice(old(data), Offset(baseSize, idx) + at, chunk)
    {
      hide Shape, Splice, NodeAt;
      Separate();
      ghost var start := Offset(baseSize, idx) + at;
      assert BlockIs(blocks[idx], data, start - at);
      Poke(ptr, at, chunk);
      SpliceIndex(data, start, chunk);
      data := Splice(data, start, chunk);
      forall i | 0 <= i < |blocks|
        ensures BlockIs(blocks[i], data, Offset(baseSize, i))
      {
        ghost var lo := Offset(baseSize, i);
        assert old(BlockIs(blocks[i], data, lo));
        if i != idx {
          BlocksApart(baseSize, i, idx);
          assert blocks[i].ptr != ptr;
          forall k | 0 <= k < baseSize
            ensures blocks[i].ptr[k] == data[lo + k]
          {
            assert blocks[i].ptr[k] == old(blocks[i].ptr[k]) == old(data)[lo + k];
          }
        }
      }
    }

    /** memcpy out of one block. */
    method CopyOut(ghost idx: nat, node: Node, at: nat, n: nat) returns (chunk: seq<byte>)
      requires Linked() && idx < |blocks| && blocks[idx] == node
      requires at + n <= baseSize
      ensures Offset(baseSize, idx) + at + n <= |data|
      ensures chunk == data[Offset(baseSize, idx) + at..Offset(baseSize, idx) + at + n]
    {
      chunk := node.ptr[at..at + n];
      assert BlockIs(node, data, Offset(baseSize, idx));
    }

    method AppendBlock(tail: Node) returns (node: Node)
      requires Linked() && tail == blocks[|blocks| - 1]
      modifies tail`next, this`blocks, this`capacity, this`Repr, this`data
      ensures Linked() && blocks == old(blocks) + [node]
      ensures fresh(node) && Repr == old(Repr) + {node, node.ptr} && fresh(node.ptr)
      ensures old(data) <= data
    {
      hide Spells;
      node := new Node(baseSize);
      SpellsMore(blocks, baseSize, data, node);
      tail.next := node;
      capacity := capacity + baseSize;
      blocks := blocks + [node];
      data := data + node.ptr[..];
      Repr := Repr + {node, node.ptr};
    }

    method LastBlock() returns (tail: Node)
      requires Linked()
      ensures tail == blocks[|blocks| - 1]
    {
      tail := root;
      ghost var at := 0;
      while tail.next != null
        invariant at < |blocks| && tail == blocks[at]
        decreases |blocks| - at
      {
        tail := tail.next;
        at := at + 1;
      }
    }

    method AppendBlocks(tail: Node, count: nat) returns (first: Node?)
      requires Linked() && tail == blocks[|blocks| - 1]
      modifies tail`next, this`blocks, this`capacity, this`Repr, this`data
      ensures Linked() && |blocks| == old(|blocks|) + count && old(blocks) <= blocks
      ensures first == NodeAt(blocks, old(|blocks|))
      ensures fresh(Repr - old(Repr))
      ensures old(data) <= data
    {
      var tmp := tail;
      first := null;
      for i := 0 to count
        invariant Linked() && |blocks| == old(|blocks|) + i && old(blocks) <= blocks
        invariant tmp == blocks[|blocks| - 1] && (tmp == tail || fresh(tmp))
        invariant first == NodeAt(blocks, old(|blocks|))
        invariant forall o :: o in Repr ==> o in old(Repr) || fresh(o)
        invariant old(data) <= data
      {
        tmp := AppendBlock(tmp);
        if first == null {
          first := tmp;
        }
      }
    }

    /** `count` more blocks at the end of the list. */
    method Grow(count: nat)
      requires Valid() && count > 0
      modifies Repr
      ensures Valid() && |blocks| == old(|blocks|) + count && old(blocks) <= blocks
      ensures position == old(position) && size == old(size) && littleEndian == old(littleEndian)
      ensures fresh(Repr - old(Repr))
      ensures old(data) <= data
    {
      hide Linked, Offset;
      FirstBlock();
      CursorNull();
      var oldCap := capacity - position;
      ghost var n := |blocks|;
      if oldCap == 0 {
        BlockOfUnique(baseSize, position, n);
      }
      var tail := LastBlock();
      BlockInside(n - 1);
      var first := AppendBlocks(tail, count);
      FirstBlock();
      assert capacity >= old(capacity) by {
        OffsetMonotone(baseSize, n, n + count);
      }
      if oldCap == 0 {
        cur := first;
      }
    }

    /** Room for `n` more bytes at the cursor. */
    method AddCapacity(n: nat)
      requires Valid()
      modifies Repr
      ensures Valid() && old(blocks) <= blocks
      ensures position == old(position) && size == old(size) && littleEndian == old(littleEndian)
      ensures fresh(Repr - old(Repr))
      ensures Grown(old(capacity), position + n, baseSize, capacity)
      ensures old(data) <= data
    {
      GrowthNone(|blocks|, position + n, baseSize);
      if n == 0 {
        return;
      }
      var oldCap := capacity - position;
      if oldCap >= n {
        return;
      }
      var need := n - oldCap;
      assert Rounds(need as real / baseSize as real, need, baseSize) by { CeilAbove(need as real / baseSize as real); }
      var quotient :| Rounds(quotient, need, baseSize);
      var count := Ceil(quotient);
      CeilRounded(quotient, need, baseSize);
      CeilBlocks(need, baseSize);
      GrowthExact(|blocks|, count, position + n, baseSize);
      Grow(count);
    }

    /** The cursor pointer is right, whatever `size` says. */
    ghost predicate Tracking()
      reads this, blocks, set n | n in blocks :: n.ptr
    {
      && Linked()
      && position <= capacity
      && cur == NodeAt(blocks, BlockOf(baseSize, position))
    }

    /** Where position `p` lies in its block. */
    ghost function Within(p: nat): int
      requires baseSize > 0
    {
      p - Offset(baseSize, BlockOf(baseSize, p))
    }

    lemma Start(p: nat)
      requires Linked()
      ensures baseSize > 0 && capacity == |data|
      ensures p < capacity ==> NodeAt(blocks, BlockOf(baseSize, p)) != null && NodeAt(blocks, BlockOf(baseSize, p)).size == baseSize
      ensures p % baseSize == Within(p) && 0 <= Within(p) < baseSize
      ensures p < capacity ==> BlockOf(baseSize, p) < |blocks|
    {
      BlockOfBounds(baseSize, p);
      if |blocks| <= BlockOf(baseSize, p) {
        OffsetMonotone(baseSize, |blocks|, BlockOf(baseSize, p));
      }
    }

    /** Moving `n` bytes on within one block. */
    lemma Advance(p: nat, n: nat)
      requires Linked() && p < capacity && Within(p) + n <= baseSize
      ensures p + n <= capacity
      ensures var q := BlockOf(baseSize, p);
              BlockOf(baseSize, p + n) == if Within(p) + n == baseSize then q + 1 else q
    {
      Start(p);
      var q := BlockOf(baseSize, p);
      BlockOfBounds(baseSize, p);
      OffsetMonotone(baseSize, q + 1, |blocks|);
      BlockOfUnique(baseSize, p + n, if Within(p) + n == baseSize then q + 1 else q);
    }

    lemma CapacityBlocks()
      requires Linked()
      ensures capacity == |data| && baseSize > 0 && this in Repr
      ensures Grown(capacity, capacity, baseSize, capacity)
    {
      GrowthNone(|blocks|, capacity, baseSize);
    }

    method Write(buf: seq<byte>)
      requires Valid()
      modifies Repr
      ensures Valid() && fresh(Repr - old(Repr)) && littleEndian == old(littleEndian)
      ensures Wrote(old(View()), buf, View(), baseSize)
    {
      hide Spells, Shape, NodeAt, Splice;
      CapacityBlocks();
      if |buf| == 0 {
        return;
      }
      AddCapacity(|buf|);
      ghost var before := data;
      CopyLoop(buf);
      if position > size {
        size := position;
      }
      StoredSplice(old(View()), buf, before, View());
    }

    /** One memcpy of the write loop, and the cursor move after it: on to the
        next block when this one is full. */
    method PutChunk(npos: nat, chunk: seq<byte>)
      requires Tracking() && position < capacity
      requires npos == Within(position) && npos + |chunk| <= baseSize
      modifies Repr
      ensures blocks == old(blocks) && Repr == old(Repr) && littleEndian == old(littleEndian)
      ensures size == old(size) && capacity == old(capacity)
      ensures Tracking() && position == old(position) + |chunk|
      ensures npos + |chunk| == baseSize ==> Within(position) == 0
      ensures |old(data)| == capacity && data == Splice(old(data), old(position), chunk)
    {
      hide Spells, Splice;
      Start(position);
      Advance(position, |chunk|);
      CopyIn(BlockOf(baseSize, position), cur.ptr, npos, chunk);
      if cur.size == npos + |chunk| {
        cur := cur.next;
      }
      position := position + |chunk|;
    }

    /** One memcpy of the read loop, and the cursor move after it. */
    method GetChunk(npos: nat, n: nat) returns (chunk: seq<byte>)
      requires Tracking() && position < capacity
      requires npos == Within(position) && npos + n <= baseSize
      modifies `position, `cur
      ensures Tracking() && position == old(position) + n
      ensures npos + n == baseSize ==> Within(position) == 0
      ensures |data| == capacity && chunk == data[old(position)..position]
    {
      hide Linked, Offset;
      Start(position);
      Advance(position, n);
      BlockInside(BlockOf(baseSize, position));
      chunk := CopyOut(BlockOf(baseSize, position), cur, npos, n);
      if cur.size == npos + n {
        cur := cur.next;
      }
      position := position + n;
    }

    /** The copy loop of Write, once there is room. */
    method CopyLoop(buf: seq<byte>)
      requires Valid() && |buf| > 0 && position + |buf| <= capacity
      modifies Repr
      ensures Tracking() && blocks == old(blocks) && Repr == old(Repr) && littleEndian == old(littleEndian)
      ensures position == old(position) + |buf| && size == old(size) && capacity == old(capacity)
      ensures |old(data)| == capacity && data == Splice(old(data), old(position), buf)
    {
      hide Spells, Shape, NodeAt, Splice;
      Start(position);
      var npos: nat := position % baseSize;
      var ncap := cur.size - npos;
      var bpos := 0;
      var left := |buf|;
      SpliceEmpty(data, position);
      while left > 0
        invariant Tracking() && blocks == old(blocks) && Repr == old(Repr)
        invariant littleEndian == old(littleEndian) && size == old(size) && capacity == old(capacity)
        invariant old(position) + |buf| <= capacity
        invariant position == old(position) + bpos && left == |buf| - bpos && bpos <= |buf|
        invariant left > 0 ==> npos == Within(position) && ncap == baseSize - npos > 0
        invariant |old(data)| == capacity && data == Splice(old(data), old(position), buf[..bpos])
      {
        CopyStep(old(data), old(position), buf, bpos, Min(left, ncap));
        if ncap >= left {
          PutChunk(npos, buf[bpos..bpos + left]);
          bpos := bpos + left;
          left := 0;
        } else {
          PutChunk(npos, buf[bpos..bpos + ncap]);
          bpos := bpos + ncap;
          left := left - ncap;
          Start(position);
          ncap := cur.size;
          npos := 0;
        }
      }
      assert buf[..bpos] == buf;
    }

    /** Bytes from the cursor on.  The access to `cur` comes before the size is
        looked at, so an empty read at capacity goes through a null pointer. */
    method Read(n: nat) returns (r: Result<seq<byte>>)
      requires Valid()
      modifies `position, `cur
      ensures Valid()
      ensures r == ReadResult(old(View()), n)
      ensures r == if n > size - old(position) then Failure(OutOfRange)
                   else if n == 0 && old(position) == |data| then Failure(NullBlock)
                   else Success(data[old(position)..old(position) + n])
      ensures position == old(position) + if r.Success? then n else 0
    {
      hide Linked, NodeAt, Offset;
      CapacityBlocks();
      if n > size - position {
        return Failure(OutOfRange);
      }
      CursorNull();
      if cur == null {
        return Failure(NullBlock);
      }
      Start(position);
      var npos: nat := position % baseSize;
      var ncap := cur.size - npos;
      var buf: seq<byte> := [];
      var left := n;
      while left > 0
        invariant Tracking() && old(position) + n <= capacity
        invariant position == old(position) + |buf| && left == n - |buf| >= 0
        invariant |data| == capacity && buf == data[old(position)..position]
        invariant left > 0 ==> npos == Within(position) && ncap == baseSize - npos > 0
      {
        if ncap >= left {
          SliceJoin(data, old(position), position, position + left);
          var chunk := GetChunk(npos, left);
          buf := buf + chunk;
          left := 0;
        } else {
          SliceJoin(data, old(position), position, position + ncap);
          var chunk := GetChunk(npos, ncap);
          buf := buf + chunk;
          left := left - ncap;
          Start(position);
          ncap := cur.size;
          npos := 0;
        }
      }
      r := Success(buf);
    }

    /** Bytes from a given position, leaving the cursor alone.  The walk starts
        from the cursor's block, not from the block of `pos`. */
    method ReadAt(n: nat, pos: nat) returns (r: Result<seq<byte>>)
      requires Valid()
      ensures r == ReadAtResult(View(), baseSize, n, pos)
      ensures r == Failure(OutOfRange) <==> n > (size - pos) % 0x1_0000_0000_0000_0000
    {
      hide Linked, Offset;
      CapacityBlocks();
      if n > (size - pos) % U64 {
        return Failure(OutOfRange);
      }
      CursorNull();
      if cur == null {
        return Failure(NullBlock);
      }
      Start(position);
      BlockOfBounds(baseSize, pos);
      r := CopyFrom(cur, BlockOf(baseSize, position), pos % baseSize, n);
    }

    /** The copy loop of the positional read, from byte `at` of a block. */
    method CopyFrom(from: Node, ghost first: nat, at: nat, n: nat) returns (r: Result<seq<byte>>)
      requires Linked() && first < |blocks| && from == blocks[first] && at < baseSize
      ensures var start := Offset(baseSize, first) + at;
              r == if start + n <= |data| then Success(data[start..start + n]) else Failure(NullBlock)
    {
      hide Linked, Offset;
      FirstBlock();
      var npos: nat := at;
      BlockInside(first);
      var ncap := from.size - npos;
      var buf: seq<byte> := [];
      var left := n;
      var node: Node? := from;
      ghost var idx: nat := first;
      ghost var start: nat := Offset(baseSize, idx) + npos;
      ghost var pos: nat := start;
      while left > 0
        invariant start <= pos <= |data| && buf == data[start..pos] && pos + left == start + n && left >= 0
        invariant left > 0 ==> idx < |blocks| && node == blocks[idx] && npos + ncap == baseSize && ncap > 0
        invariant left > 0 ==> pos == Offset(baseSize, idx) + npos
      {
        BlockInside(idx);
        SliceJoin(data, start, pos, pos + if ncap >= left then left else ncap);
        if ncap >= left {
          var chunk := CopyOut(idx, node, npos, left);
          buf := buf + chunk;
          pos := pos + left;
          left := 0;
        } else {
          var chunk := CopyOut(idx, node, npos, ncap);
          buf := buf + chunk;
          pos := pos + ncap;
          left := left - ncap;
          if node.next == null {
            return Failure(NullBlock);
          }
          node := node.next;
          idx := idx + 1;
          BlockInside(idx);
          ncap := node.size;
          npos := 0;
        }
      }
      r := Success(buf);
    }

    lemma BlockInside(idx: nat)
      requires Linked() && idx < |blocks|
      ensures blocks[idx].size == baseSize == blocks[idx].ptr.Length && blocks[idx].ptr in Repr && blocks[idx] in Repr
      ensures Offset(baseSize, idx) + baseSize == Offset(baseSize, idx + 1) <= |data| == capacity
      ensures blocks[idx].next == NodeAt(blocks, idx + 1)
      ensures idx + 1 == |blocks| ==> Offset(baseSize, idx) + baseSize == capacity
    {
      OffsetMonotone(baseSize, idx + 1, |blocks|);
    }

    lemma FirstBlock()
      requires Linked()
      ensures this in Repr && baseSize > 0 && |blocks| > 0 && blocks[0] == root && Offset(baseSize, 0) == 0
      ensures |data| == capacity == Offset(baseSize, |blocks|)
    {
    }

    method ToString() returns (r: Result<seq<byte>>)
      requires Valid() && position < U64 && size < U64
      ensures r == Success(View().Bytes()[position..])
    {
      if size - position == 0 {
        assert View().Bytes()[position..] == [];
        return Success([]);
      }
      r := ReadAt(size - position, position);
      ReadAtCursor(View(), baseSize, size - position);
      assert View().Bytes()[position..] == data[position..size];
    }

    /** Puts the cursor at `v`, anywhere up to capacity, and counts everything
        before it as written. */
    method SetPosition(v: nat) returns (r: Result<()>)
      requires Valid()
      modifies `position, `size, `cur
      ensures Valid()
      ensures r == if v <= capacity then Success(()) else Failure(OutOfRange)
      ensures r.Failure? ==> position == old(position) && size == old(size)
      ensures r.Success? ==> position == v && size == Max(old(size), v)
    {
      hide Linked, Offset;
      FirstBlock();
      if v > capacity {
        return Failure(OutOfRange);
      }
      position := v;
      if position > size {
        size := position;
      }
      cur := root;
      var rest: nat := v;
      ghost var idx: nat := 0;
      while rest > cur.size
        invariant Linked() && idx < |blocks| && cur == blocks[idx]
        invariant Offset(baseSize, idx) + rest == v == position && size == Max(old(size), v)
        decreases rest
      {
        BlockInside(idx);
        rest := rest - cur.size;
        cur := cur.next;
        idx := idx + 1;
      }
      BlockInside(idx);
      BlockOfUnique(baseSize, v, if rest == baseSize then idx + 1 else idx);
      if rest == cur.size {
        cur := cur.next;
      }
      r := Success(());
    }

    /** The walk of clear over the blocks behind the first, each freed as it is
        passed. */
    method FreeBlocks() returns (ghost freed: seq<Node>)
      requires Linked()
      modifies `cur
      ensures freed == blocks[1..]
    {
      hide Linked, Offset;
      FirstBlock();
      BlockInside(0);
      var tmp := root.next;
      freed := [];
      ghost var k := 1;
      while tmp != null
        invariant 1 <= k <= |blocks| && tmp == NodeAt(blocks, k) && freed == blocks[1..k]
        decreases |blocks| - k
      {
        BlockInside(k);
        cur := tmp;
        tmp := tmp.next;
        freed := freed + [cur];
        k := k + 1;
      }
    }

    /** Back to one block; the bytes it holds stay where they are.  Every other block
        is freed, once. */
    method Clear() returns (ghost freed: seq<Node>)
      requires Valid()
      modifies this, root
      ensures Valid() && Repr == old(Repr) && littleEndian == old(littleEndian)
      ensures position == 0 && size == 0 && capacity == baseSize
      ensures baseSize <= |old(data)| && data == old(data)[..baseSize]
      ensures blocks == old(blocks)[..1] && freed == old(blocks)[1..]
    {
      hide Linked;
      freed := FreeBlocks();
      position, size := 0, 0;
      cur := root;
      KeepFirst();
      BlockOfUnique(baseSize, 0, 0);
    }

    /** The list ends behind its first block. */
    method KeepFirst()
      requires Linked()
      modifies root`next, `capacity, `blocks, `data
      ensures Linked() && |old(blocks)| > 0 && blocks == old(blocks)[..1] == [root] && capacity == baseSize
      ensures baseSize <= |old(data)| && data == old(data)[..baseSize]
    {
      BlockInside(0);
      capacity := baseSize;
      root.next := null;
      assert BlockIs(blocks[0], data, Offset(baseSize, 0));
      blocks := [root];
      data := data[..baseSize];
    }

    method SetIsLittleEndian(val: bool)
      requires Valid()
      modifies `littleEndian
      ensures Valid() && littleEndian == val
    {
      littleEndian := val;
    }

    // -------------------------------------------------- scatter and gather

    /** `v` is the memory of positions `p` .. `p + v.len`, all in one block. */
    ghost predicate Lies(v: Iovec, p: nat)
      reads `blocks
    {
      && baseSize > 0 && BlockOf(baseSize, p) < |blocks|
      && v.base == blocks[BlockOf(baseSize, p)].ptr
      && v.off == Within(p) && v.off + v.len <= baseSize
    }

    /** The regions are the memory of positions `start` .. `start + len`, in
        order and without overlap. */
    ghost predicate Covers(iovs: seq<Iovec>, start: nat, len: nat)
      reads `blocks
    {
      if iovs == [] then len == 0 else
        var v := iovs[|iovs| - 1];
        0 < v.len <= len && Lies(v, start + len - v.len) && Covers(iovs[..|iovs| - 1], start, len - v.len)
    }

    lemma CoversNone(start: nat)
      ensures Covers([], start, 0)
    {
    }

    lemma CoversNext(iovs: seq<Iovec>, start: nat, done: nat, iov: Iovec)
      requires Covers(iovs, start, done) && 0 < iov.len && Lies(iov, start + done)
      ensures Covers(iovs + [iov], start, done + iov.len)
    {
      assert (iovs + [iov])[..|iovs|] == iovs;
    }

    /** The loop shared by the three methods that hand out regions.  Past the
        last block it reads the size of a null node. */
    method Regions(from: Node, at: nat, len: nat, ghost start: nat) returns (r: Result<seq<Iovec>>)
      requires Linked() && len > 0 && start < capacity
      requires from == NodeAt(blocks, BlockOf(baseSize, start)) && at == Within(start)
      ensures r.Success? <==> start + len <= capacity
      ensures r.Success? ==> Covers(r.value, start, len)
      ensures r.Failure? ==> r.error == NullBlock
    {
      hide Linked, Offset, Covers;
      CoversNone(start);
      var iovs: seq<Iovec> := [];
      var npos := at;
      Start(start);
      var ncap := from.size - at;
      var left := len;
      var node: Node? := from;
      while left > 0
        invariant 0 <= left <= len && Covers(iovs, start, len - left)
        invariant start + len - left <= capacity
        invariant left > 0 ==> start + len - left < capacity
        invariant left > 0 ==> node == NodeAt(blocks, BlockOf(baseSize, start + len - left))
        invariant left > 0 ==> npos == Within(start + len - left) && npos < baseSize
        invariant left > 0 ==> ncap == baseSize - npos
      {
        ghost var p := start + len - left;
        Start(p);
        Advance(p, Min(ncap, left));
        var iov: Iovec;
        if ncap >= left {
          iov := Iovec(node.ptr, npos, left);
          left := 0;
        } else {
          iov := Iovec(node.ptr, npos, ncap);
          left := left - ncap;
          BlockInside(BlockOf(baseSize, p));
          node := node.next;
          if node == null {
            return Failure(NullBlock);
          }
          BlockInside(BlockOf(baseSize, p) + 1);
          Start(start + len - left);
          ncap := node.size;
          npos := 0;
        }
        CoversNext(iovs, start, p - start, iov);
        iovs := iovs + [iov];
      }
      r := Success(iovs);
    }

    method GetReadBuffers(want: nat) returns (iovs: seq<Iovec>, len: nat)
      requires Valid()
      ensures len == Min(want, size - position)
      ensures Covers(iovs, position, len)
    {
      len := if want > size - position then size - position else want;
      if len == 0 {
        return [], 0;
      }
      Start(position);
      var npos := position % baseSize;
      var regions := Regions(cur, npos, len, position);
      iovs := regions.value;
    }

    /** Regions from a given position.  Their length is clamped by the cursor's
        read size, not by that of `pos`. */
    method GetReadBuffersAt(want: nat, pos: nat) returns (r: Result<(seq<Iovec>, nat)>)
      requires Valid()
      ensures var len := Min(want, size - position);
              if len == 0 then r == Success(([], 0))
              else if pos + len <= capacity then r.Success? && r.value.1 == len && Covers(r.value.0, pos, len)
              else r == Failure(NullBlock)
    {
      hide Spells;
      var len := if want > size - position then size - position else want;
      if len == 0 {
        return Success(([], 0));
      }
      var npos := pos % baseSize;
      var count := pos / baseSize;
      Start(pos);
      BlockOfBounds(baseSize, pos);
      var node: Node? := root;
      ghost var idx: nat := 0;
      while count > 0
        invariant count >= 0 && idx + count == BlockOf(baseSize, pos)
        invariant idx < |blocks| && node == blocks[idx]
      {
        node := node.next;
        idx := idx + 1;
        count := count - 1;
        if node == null {
          OffsetMonotone(baseSize, |blocks|, BlockOf(baseSize, pos));
          return Failure(NullBlock);
        }
      }
      BlockInside(idx);
      var regions := Regions(node, npos, len, pos);
      r := if regions.Success? then Success((regions.value, len)) else Failure(NullBlock);
    }

    /** Room for `len` bytes at the cursor, as regions; the cursor stays. */
    method GetWriteBuffers(len: nat) returns (iovs: seq<Iovec>)
      requires Valid()
      modifies Repr
      ensures Valid() && fresh(Repr - old(Repr)) && littleEndian == old(littleEndian)
      ensures position == old(position) && size == old(size)
      ensures Grown(old(capacity), position + len, baseSize, capacity)
      ensures old(data) <= data
      ensures Covers(iovs, position, len)
    {
      if len == 0 {
        CapacityBlocks();
        return [];
      }
      AddCapacity(len);
      Start(position);
      var npos := position % baseSize;
      var regions := Regions(cur, npos, len, position);
      iovs := regions.value;
    }
  }

  /** Where the positional read really starts. */
  function ReadAtStart(position: nat, base: nat, pos: nat): nat
    requires base > 0
  {
    Offset(base, BlockOf(base, position)) + pos % base
  }

  function ReadAtResult(f: Flat, base: nat, n: nat, pos: nat): Result<seq<byte>>
    requires f.Valid() && base > 0
  {
    var start := ReadAtStart(f.position, base, pos);
    if n > (f.size - pos) % U64 then Failure(OutOfRange)
    else if f.position == |f.data| then Failure(NullBlock)
    else if start + n > |f.data| then Failure(NullBlock)
    else Success(f.data[start..start + n])
  }

  /** The positional read starts where it was asked to exactly when the position
      is in the cursor's block. */
  lemma ReadAtStartExact(position: nat, base: nat, pos: nat)
    requires base > 0
    ensures ReadAtStart(position, base, pos) == pos <==> pos / base == position / base
  {
    BlockOfBounds(base, position);
    BlockOfBounds(base, pos);
    if pos / base != position / base {
      BlocksApart(base, pos / base, position / base);
    }
  }

  /** What the positional read is meant to give. */
  function ReadAtMeant(f: Flat, n: nat, pos: nat): Result<seq<byte>>
    requires f.Valid()
  {
    if pos + n <= f.size then Success(f.data[pos..pos + n]) else Failure(OutOfRange)
  }

  ghost predicate OfShape(f: Flat, position: nat, size: nat, capacity: nat) {
    f.Valid() && f.position == position && f.size == size && |f.data| == capacity
  }

  /** Behind the size the length check wraps, and refuses only lengths near 2^64; up
      to the size it is right, and then the cursor must be in the same block and not
      at capacity. */
  predicate ReadAtRight(position: nat, size: nat, capacity: nat, base: nat, n: nat, pos: nat)
    requires base > 0
  {
    if pos > size then n > (size - pos) % U64
    else n > size - pos || (position < capacity && (n == 0 || pos / base == position / base))
  }

  /** The positional read gives what it is meant to, whatever the bytes, exactly
      then. */
  lemma ReadAtExact(position: nat, size: nat, blocks: nat, base: nat, n: nat, pos: nat)
    requires base > 0 && position <= size <= Offset(base, blocks) && size < U64
    ensures (forall f :: OfShape(f, position, size, Offset(base, blocks)) ==>
               ReadAtResult(f, base, n, pos) == ReadAtMeant(f, n, pos)) <==>
            ReadAtRight(position, size, Offset(base, blocks), base, n, pos)
  {
    hide ReadAtResult, ReadAtMeant, ReadAtRight, Offset, BlockOf;
    var capacity := Offset(base, blocks);
    if ReadAtRight(position, size, capacity, base, n, pos) {
      forall f | OfShape(f, position, size, capacity)
        ensures ReadAtResult(f, base, n, pos) == ReadAtMeant(f, n, pos)
      {
        ReadAtAgrees(f, blocks, base, n, pos);
      }
    } else {
      var f := Flat(Marked(capacity, pos), position, size);
      assert OfShape(f, position, size, capacity);
      ReadAtDiffers(f, base, n, pos);
    }
  }

  lemma ReadAtAgrees(f: Flat, blocks: nat, base: nat, n: nat, pos: nat)
    requires base > 0 && f.Valid() && |f.data| == Offset(base, blocks) && f.size < U64
    requires ReadAtRight(f.position, f.size, |f.data|, base, n, pos)
    ensures ReadAtResult(f, base, n, pos) == ReadAtMeant(f, n, pos)
  {
    hide Offset, BlockOf, ReadAtStart;
    if pos <= f.size {
      ModSmall(f.size - pos, U64);
      ReadAtStartExact(f.position, base, pos);
      if f.position < |f.data| {
        StartInside(f.position, blocks, base, pos);
        var start := ReadAtStart(f.position, base, pos);
        if n == 0 {
          assert f.data[start..start + n] == [] == f.data[pos..pos + n];
        }
      }
    }
  }

  lemma StartInside(position: nat, blocks: nat, base: nat, pos: nat)
    requires base > 0 && position < Offset(base, blocks)
    ensures ReadAtStart(position, base, pos) < Offset(base, blocks)
  {
    BlockOfBounds(base, position);
    var q := BlockOf(base, position);
    if q + 1 > blocks {
      OffsetMonotone(base, blocks, q);
    } else {
      OffsetMonotone(base, q + 1, blocks);
    }
  }

  lemma ReadAtDiffers(f: Flat, base: nat, n: nat, pos: nat)
    requires base > 0 && f.Valid() && f.size < U64 && f.data == Marked(|f.data|, pos)
    requires !ReadAtRight(f.position, f.size, |f.data|, base, n, pos)
    ensures ReadAtResult(f, base, n, pos) != ReadAtMeant(f, n, pos)
  {
    hide Offset, BlockOf, ReadAtStart;
    if pos <= f.size {
      ModSmall(f.size - pos, U64);
      ReadAtStartExact(f.position, base, pos);
      var start := ReadAtStart(f.position, base, pos);
      if f.position < |f.data| && start + n <= |f.data| {
        assert f.data[start..start + n][0] == 0 && f.data[pos..pos + n][0] == 1;
      }
    }
  }

  /** A single 1 among zeros. */
  function Marked(length: nat, at: nat): (r: seq<byte>)
    ensures |r| == length && forall i :: 0 <= i < length ==> r[i] == if i == at then 1 else 0
  {
    if length == 0 then [] else Marked(length - 1, at) + [if length - 1 == at then 1 else 0]
  }

  /** Behind the size, in the cursor's own block: bytes that were never written come
      back. */
  lemma ReadAtUnwritten(f: Flat)
    requires OfShape(f, 5, 10, 4096)
    ensures ReadAtResult(f, 4096, 8, 20) == Success(f.data[20..28])
  {
    BlockOfUnique(4096, 5, 0);
  }

  lemma ReadAtCursor(f: Flat, base: nat, n: nat)
    requires f.Valid() && base > 0 && 0 < n <= f.size - f.position && f.size < U64
    ensures ReadAtResult(f, base, n, f.position) == Success(f.data[f.position..f.position + n])
  {
    ReadAtStartExact(f.position, base, f.position);
  }

  /** With the cursor in the second block, a read inside the first block gives
      the bytes of the second. */
  lemma ReadAtWrongBlock(f: Flat, base: nat, n: nat, pos: nat)
    requires f.Valid() && 0 < base <= f.position < base + base <= |f.data|
    requires f.size < U64 && 0 < n && pos + n <= base
    requires f.position < |f.data|
    ensures ReadAtResult(f, base, n, pos) == Success(f.data[base + pos..base + pos + n])
  {
    hide ReadAtResult;
    StartInSecond(f.position, base, pos);
    ReadAtGives(f, base, n, pos);
  }

  lemma StartInSecond(position: nat, base: nat, pos: nat)
    requires 0 < base <= position < base + base && pos < base
    ensures ReadAtStart(position, base, pos) == base + pos
  {
    BlockOfUnique(base, position, 1);
    BlockOfUnique(base, pos, 0);
    BlockOfBounds(base, pos);
  }

  lemma ReadAtGives(f: Flat, base: nat, n: nat, pos: nat)
    requires f.Valid() && base > 0 && f.size < U64 && 0 < n && pos + n <= f.size && f.position < |f.data|
    ensures var start := ReadAtStart(f.position, base, pos);
            start + n <= |f.data| ==> ReadAtResult(f, base, n, pos) == Success(f.data[start..start + n])
  {
    hide BlockOf, Offset, ReadAtStart;
    assert (f.size - pos) % U64 == f.size - pos;
  }

  lemma CopyStep(data: seq<byte>, at: nat, buf: seq<byte>, bpos: nat, n: nat)
    requires bpos + n <= |buf| && at + |buf| <= |data|
    ensures Splice(Splice(data, at, buf[..bpos]), at + bpos, buf[bpos..bpos + n]) ==
            Splice(data, at, buf[..bpos + n])
  {
    SpliceAdjacent(data, at, buf[..bpos], buf[bpos..bpos + n]);
    assert buf[..bpos] + buf[bpos..bpos + n] == buf[..bpos + n];
  }

  /** What a read of `n` bytes gives. */
  function ReadResult(f: Flat, n: nat): Result<seq<byte>>
    requires f.Valid()
  {
    if n > f.size - f.position then Failure(OutOfRange)
    else if f.position == |f.data| then Failure(NullBlock)
    else Success(f.data[f.position..f.position + n])
  }

  lemma StoredSplice(before: Flat, buf: seq<byte>, grown: seq<byte>, after: Flat)
    requires before.Valid() && before.data <= grown && before.position + |buf| <= |grown|
    requires after.data == Splice(grown, before.position, buf)
    requires after.position == before.position + |buf|
    requires after.size == Max(before.size, after.position)
    ensures Stored(before, buf, after)
  {
    hide Splice;
    SpliceIndex(grown, before.position, buf);
    var q := after.position;
    if q <= |before.data| {
      assert after.data[q..|before.data|] == grown[q..|before.data|] == before.data[q..];
    }
    assert after.data[..before.position] == grown[..before.position] == before.data[..before.position];
  }

  lemma GrowthNone(blocks: nat, end: nat, base: nat)
    requires base > 0
    ensures end <= Offset(base, blocks) ==> Grown(Offset(base, blocks), end, base, Offset(base, blocks))
  {
    BlockOfUnique(base, Offset(base, blocks), blocks);
    BlockOfBounds(base, Offset(base, blocks));
  }

  lemma GrowthExact(blocks: nat, count: nat, end: nat, base: nat)
    requires base > 0 && end > Offset(base, blocks)
    requires count >= 1 && Offset(base, count - 1) < end - Offset(base, blocks) <= Offset(base, count)
    ensures Grown(Offset(base, blocks), end, base, Offset(base, blocks + count))
  {
    OffsetAdd(base, blocks, count);
    BlockOfUnique(base, Offset(base, blocks + count), blocks + count);
    BlockOfBounds(base, Offset(base, blocks + count));
  }
}
