// Streams over the chunked buffer: the regions a buffer hands to the kernel, the
// socket stream that moves the cursor after a transfer, and the fixed-size
// transfers built on it.

module Streams {
  import opened Common
  import opened ByteArrays

  /** The bytes of the regions, in order. */
  ghost function Gather(iovs: seq<Iovec>): seq<byte>
    reads set v | v in iovs :: v.base
  {
    if iovs == [] then [] else
      var v := iovs[|iovs| - 1];
      Gather(iovs[..|iovs| - 1]) +
      if v.off + v.len <= v.base.Length then v.base[v.off..v.off + v.len] else []
  }

  lemma {:induction false} CoversInside(ba: ByteArray, iovs: seq<Iovec>, start: nat, len: nat)
    requires ba.Linked() && start <= ba.capacity && ba.Covers(iovs, start, len)
    ensures start + len <= ba.capacity == |ba.data|
  {
    if iovs != [] {
      var v := iovs[|iovs| - 1];
      var p := start + len - v.len;
      CoversInside(ba, iovs[..|iovs| - 1], start, len - v.len);
      ba.BlockInside(BlockOf(ba.baseSize, p));
      BlockOfBounds(ba.baseSize, p);
    }
  }

  /** The regions spell the bytes they cover. */
  lemma {:induction false} GatherCovers(ba: ByteArray, iovs: seq<Iovec>, start: nat, len: nat)
    requires ba.Linked() && start <= ba.capacity && ba.Covers(iovs, start, len)
    ensures start + len <= |ba.data| && Gather(iovs) == ba.data[start..start + len]
  {
    hide ByteArray.Linked, ByteArray.Lies, Gather;
    CoversInside(ba, iovs, start, len);
    GatherNone();
    if iovs == [] {
      assert ba.data[start..start] == [];
    } else {
      var v := iovs[|iovs| - 1];
      var p := start + len - v.len;
      GatherCovers(ba, iovs[..|iovs| - 1], start, len - v.len);
      LiesBytes(ba, v, p);
      GatherStep(iovs, ba.data, start, p);
    }
  }

  lemma GatherNone()
    ensures Gather([]) == []
  {
  }

  lemma GatherStep(iovs: seq<Iovec>, data: seq<byte>, start: nat, p: nat)
    requires iovs != [] && start <= p
    requires var v := iovs[|iovs| - 1];
             p + v.len <= |data| && v.off + v.len <= v.base.Length &&
             v.base[v.off..v.off + v.len] == data[p..p + v.len]
    requires Gather(iovs[..|iovs| - 1]) == data[start..p]
    ensures Gather(iovs) == data[start..p + iovs[|iovs| - 1].len]
  {
    hide Gather;
    GatherUnfold(iovs);
    SliceJoin(data, start, p, p + iovs[|iovs| - 1].len);
  }

  lemma GatherUnfold(iovs: seq<Iovec>)
    requires iovs != []
    ensures var v := iovs[|iovs| - 1];
            v.off + v.len <= v.base.Length ==>
              Gather(iovs) == Gather(iovs[..|iovs| - 1]) + v.base[v.off..v.off + v.len]
  {
  }

  lemma LiesBytes(ba: ByteArray, v: Iovec, p: nat)
    requires ba.Linked() && ba.Lies(v, p)
    ensures v.off + v.len <= v.base.Length && p + v.len <= |ba.data|
    ensures v.base[v.off..v.off + v.len] == ba.data[p..p + v.len]
  {
    var q := BlockOf(ba.baseSize, p);
    BlockOfBounds(ba.baseSize, p);
    ba.BlockInside(q);
    assert BlockIs(ba.blocks[q], ba.data, Offset(ba.baseSize, q));
  }

  /** Where region `i` lies. */
  lemma {:induction false} CoversAt(ba: ByteArray, iovs: seq<Iovec>, start: nat, len: nat, i: nat) returns (p: nat)
    requires ba.Covers(iovs, start, len) && i < |iovs|
    ensures start <= p && p + iovs[i].len <= start + len && ba.Lies(iovs[i], p)
    decreases |iovs|
  {
    var w := iovs[|iovs| - 1];
    if i == |iovs| - 1 {
      p := start + len - w.len;
    } else {
      p := CoversAt(ba, iovs[..|iovs| - 1], start, len - w.len, i);
    }
  }

  /** No two regions share a byte. */
  lemma {:induction false} CoversDisjoint(ba: ByteArray, iovs: seq<Iovec>, start: nat, len: nat, i: nat, j: nat)
    requires ba.Linked() && ba.Covers(iovs, start, len) && i < j < |iovs|
    ensures iovs[i].base == iovs[j].base ==> iovs[i].off + iovs[i].len <= iovs[j].off
    decreases |iovs|
  {
    var w := iovs[|iovs| - 1];
    var init := iovs[..|iovs| - 1];
    if j < |iovs| - 1 {
      CoversDisjoint(ba, init, start, len - w.len, i, j);
    } else {
      var p := CoversAt(ba, init, start, len - w.len, i);
      LiesApart(ba, iovs[i], p, w, start + len - w.len);
    }
  }

  lemma LiesApart(ba: ByteArray, v: Iovec, p: nat, w: Iovec, q: nat)
    requires ba.Linked() && ba.Lies(v, p) && ba.Lies(w, q) && p + v.len <= q
    ensures v.base == w.base ==> v.off + v.len <= w.off
  {
    ba.Separate();
  }

  // ------------------------------------------------------------------ kernel

  /** The kernel stores `bytes` through the regions, first to last. */
  method Scatter(ba: ByteArray, iovs: seq<Iovec>, ghost start: nat, len: nat, bytes: seq<byte>)
    requires ba.Valid() && start <= ba.capacity && ba.Covers(iovs, start, len) && |bytes| <= len
    modifies ba.Repr
    ensures ba.Valid() && ba.Repr == old(ba.Repr) && ba.blocks == old(ba.blocks)
    ensures ba.position == old(ba.position) && ba.size == old(ba.size) && ba.littleEndian == old(ba.littleEndian)
    ensures ba.capacity == old(ba.capacity)
    ensures start + |bytes| <= |old(ba.data)| && ba.data == Splice(old(ba.data), start, bytes)
    decreases |iovs|
  {
    hide ByteArray.Linked, Splice, Offset, NodeAt;
    CoversInside(ba, iovs, start, len);
    ba.FirstBlock();
    if bytes == [] {
      SpliceEmpty(ba.data, start);
      return;
    }
    var last := iovs[|iovs| - 1];
    var init := iovs[..|iovs| - 1];
    var before := len - last.len;
    if |bytes| <= before {
      Scatter(ba, init, start, before, bytes);
    } else {
      Scatter(ba, init, start, before, bytes[..before]);
      ba.BlockInside(BlockOf(ba.baseSize, start + before));
      BlockOfBounds(ba.baseSize, start + before);
      ba.CopyIn(BlockOf(ba.baseSize, start + before), last.base, last.off, bytes[before..]);
      SpliceAdjacent(old(ba.data), start, bytes[..before], bytes[before..]);
      assert bytes[..before] + bytes[before..] == bytes;
    }
  }

  /** The kernel reads the regions. */
  method Collect(iovs: seq<Iovec>) returns (bytes: seq<byte>)
    ensures bytes == old(Gather(iovs))
  {
    bytes := [];
    for i := 0 to |iovs|
      invariant bytes == Gather(iovs[..i])
    {
      var v := iovs[i];
      assert iovs[..i + 1][..i] == iovs[..i];
      if v.off + v.len <= v.base.Length {
        bytes := bytes + v.base[v.off..v.off + v.len];
      }
    }
    assert iovs[..|iovs|] == iovs;
  }

  /** One system call: how many bytes it was for, and its result. */
  datatype Transfer = Transfer(asked: nat, result: int)

  /** How many bytes the calls moved. */
  ghost function Total(ts: seq<Transfer>): nat {
    if ts == [] then 0 else Total(ts[..|ts| - 1]) + Max(ts[|ts| - 1].result, 0)
  }

  /** Each call was for all that was still missing, up to `most`, and every call but
      the last moved something. */
  ghost predicate Insists(ts: seq<Transfer>, length: nat, most: nat) {
    forall i :: 0 <= i < |ts| ==>
      ts[i].asked == Min(length, most) - Total(ts[..i]) && (i + 1 < |ts| ==> ts[i].result > 0)
  }

  ghost predicate AllMoved(ts: seq<Transfer>) {
    forall i :: 0 <= i < |ts| ==> ts[i].result > 0
  }

  /** A fixed-size transfer ends with the whole length exactly when no call failed;
      otherwise with what the last call gave, the one that failed. */
  ghost predicate Ended(ts: seq<Transfer>, length: nat, r: int) {
    if AllMoved(ts) then r == length == Total(ts) else ts != [] && r == ts[|ts| - 1].result <= 0 && Total(ts) < length
  }

  /** A connected socket: what the peer will still send, what it was sent, and the
      calls made so far. */
  class Socket {
    var connected: bool
    var incoming: seq<byte>
    var outgoing: seq<byte>
    ghost var recvs: seq<Transfer>
    ghost var sends: seq<Transfer>

    constructor (bytes: seq<byte>)
      ensures connected && incoming == bytes && outgoing == [] && recvs == sends == []
    {
      connected, incoming, outgoing := true, bytes, [];
      recvs, sends := [], [];
    }

    /** Any part of what was asked for, nothing, or an error. */
    method Recv(ba: ByteArray, iovs: seq<Iovec>, ghost start: nat, len: nat) returns (rt: int)
      requires ba.Valid() && this !in ba.Repr
      requires start <= ba.capacity && ba.Covers(iovs, start, len)
      modifies `incoming, `recvs, ba.Repr
      ensures recvs == old(recvs) + [Transfer(len, rt)]
      ensures ba.Valid() && ba.Repr == old(ba.Repr) && ba.blocks == old(ba.blocks)
      ensures ba.position == old(ba.position) && ba.size == old(ba.size) && ba.littleEndian == old(ba.littleEndian)
      ensures ba.capacity == old(ba.capacity)
      ensures rt <= len && rt <= |old(incoming)|
      ensures var n := Max(rt, 0);
              incoming == old(incoming)[n..] &&
              start + n <= |old(ba.data)| && ba.data == Splice(old(ba.data), start, old(incoming)[..n])
    {
      hide ByteArray.Linked, Offset, BlockOf, NodeAt, Splice;
      CoversInside(ba, iovs, start, len);
      SpliceEmpty(ba.data, start);
      assert 0 <= len && 0 <= |incoming|;
      rt :| rt <= len && rt <= |incoming|;
      if rt > 0 {
        Scatter(ba, iovs, start, len, incoming[..rt]);
        incoming := incoming[rt..];
      }
      recvs := recvs + [Transfer(len, rt)];
    }

    method Send(iovs: seq<Iovec>) returns (rt: int)
      modifies `outgoing, `sends
      ensures sends == old(sends) + [Transfer(|old(Gather(iovs))|, rt)]
      ensures rt <= |old(Gather(iovs))|
      ensures outgoing == old(outgoing) + old(Gather(iovs))[..Max(rt, 0)]
    {
      var bytes := Collect(iovs);
      assert 0 <= |bytes|;
      rt :| rt <= |bytes|;
      if rt > 0 {
        outgoing := outgoing + bytes[..rt];
      }
      sends := sends + [Transfer(|bytes|, rt)];
    }
  }

  // ------------------------------------------------------------ socket stream

  class SocketStream {
    const socket: Socket?

    constructor (s: Socket?)
      ensures socket == s
    {
      socket := s;
    }

    predicate IsConnected()
      reads this, socket
    {
      socket != null && socket.connected
    }

    /** The stream and the buffer are separate objects. */
    ghost predicate Apart(ba: ByteArray)
      reads ba
    {
      socket != null ==> socket !in ba.Repr
    }

    /** Receives into the buffer at its cursor.  `noRegion` says that the address of
        the first of no regions is taken. */
    method Read(ba: ByteArray, length: nat) returns (rt: int, noRegion: bool)
      requires ba.Valid() && Apart(ba)
      modifies socket, ba.Repr
      ensures ba.Valid() && fresh(ba.Repr - old(ba.Repr)) && Apart(ba) && ba.littleEndian == old(ba.littleEndian)
      ensures IsConnected() == old(IsConnected()) && (!IsConnected() ==> rt == -1)
      ensures rt <= length && rt <= |old(Incoming())|
      ensures Recvs() == old(Recvs()) + if IsConnected() then [Transfer(length, rt)] else []
      ensures noRegion <==> IsConnected() && length == 0
      ensures Stored(old(ba.View()), old(Incoming())[..Max(rt, 0)], ba.View())
      ensures Incoming() == old(Incoming())[Max(rt, 0)..] && Outgoing() == old(Outgoing())
    {
      hide ByteArray.Linked;
      ba.CapacityBlocks();
      if !IsConnected() {
        StoredNothing(ba);
        return -1, false;
      }
      var iovs := ba.GetWriteBuffers(length);
      noRegion := iovs == [];
      ghost var grown := ba.View();
      ba.CapacityBlocks();
      rt := socket.Recv(ba, iovs, ba.position, length);
      if rt > 0 {
        var _ := ba.SetPosition(ba.position + rt);
      }
      StoredSplice(old(ba.View()), old(Incoming())[..Max(rt, 0)], grown.data, ba.View());
    }

    ghost function Incoming(): seq<byte>
      reads this, socket
    {
      if socket == null then [] else socket.incoming
    }

    ghost function Outgoing(): seq<byte>
      reads this, socket
    {
      if socket == null then [] else socket.outgoing
    }

    ghost function Recvs(): seq<Transfer>
      reads this, socket
    {
      if socket == null then [] else socket.recvs
    }

    ghost function Sends(): seq<Transfer>
      reads this, socket
    {
      if socket == null then [] else socket.sends
    }

    /** Sends from the buffer's cursor on.  `noRegion` as for Read: there is nothing
        to send. */
    method Write(ba: ByteArray, length: nat) returns (rt: int, noRegion: bool)
      requires ba.Valid() && Apart(ba)
      modifies socket, ba`position, ba`size, ba`cur
      ensures ba.Valid() && ba.size == old(ba.size)
      ensures IsConnected() == old(IsConnected()) && (!IsConnected() ==> rt == -1)
      ensures rt <= length && old(ba.position) + Max(rt, 0) <= ba.size <= |ba.data|
      ensures ba.position == old(ba.position) + Max(rt, 0)
      ensures Outgoing() == old(Outgoing()) + ba.data[old(ba.position)..ba.position]
      ensures Incoming() == old(Incoming())
      ensures Sends() == old(Sends()) +
                if IsConnected() then [Transfer(Min(length, old(ba.size - ba.position)), rt)] else []
      ensures noRegion <==> IsConnected() && Min(length, old(ba.size - ba.position)) == 0
    {
      hide ByteArray.Linked, ByteArray.Covers, Gather, Offset, BlockOf, NodeAt;
      ba.CapacityBlocks();
      if !IsConnected() {
        return -1, false;
      }
      var iovs, len := ba.GetReadBuffers(length);
      noRegion := iovs == [];
      assert noRegion <==> len == 0;
      GatherCovers(ba, iovs, ba.position, len);
      rt := socket.Send(iovs);
      if rt > 0 {
        var _ := ba.SetPosition(ba.position + rt);
      }
    }

    // ------------------------------------------------- fixed-size transfers

    /** Receives exactly `length` bytes, or stops at the first read that fails:
        the bytes received so far are in the buffer either way. */
    method ReadFixSize(ba: ByteArray, length: nat) returns (r: int, ghost ts: seq<Transfer>)
      requires ba.Valid() && Apart(ba)
      modifies socket, ba.Repr
      ensures ba.Valid() && fresh(ba.Repr - old(ba.Repr)) && Apart(ba)
      ensures Recvs() == old(Recvs()) + ts && Insists(ts, length, length)
      ensures IsConnected() == old(IsConnected())
      ensures if IsConnected() then Ended(ts, length, r) else ts == [] && r == if length == 0 then 0 else -1
      ensures Total(ts) <= |old(Incoming())| && Incoming() == old(Incoming())[Total(ts)..]
      ensures Stored(old(ba.View()), old(Incoming())[..Total(ts)], ba.View())
    {
      hide ByteArray.Linked, Stored, Insists, AllMoved, Total;
      var left := length;
      ts := [];
      StoredNothing(ba);
      NoTransfer(length, length);
      ghost var view, bytes, calls := ba.View(), Incoming(), Recvs();
      while left > 0
        invariant ba.Valid() && Apart(ba) && fresh(ba.Repr - old(ba.Repr))
        invariant left >= 0 && Total(ts) == length - left
        invariant Recvs() == calls + ts && Insists(ts, length, length) && AllMoved(ts)
        invariant IsConnected() == old(IsConnected()) && (!IsConnected() ==> ts == [])
        invariant Total(ts) <= |bytes| && Incoming() == bytes[Total(ts)..]
        invariant Stored(view, bytes[..Total(ts)], ba.View())
      {
        var len, n := ReadMore(ba, left, view, bytes, Total(ts));
        if IsConnected() {
          OneMore(ts, Transfer(left, len), length, length);
          ConcatAssociates(calls, ts, [Transfer(left, len)]);
          ts := ts + [Transfer(left, len)];
        }
        if len <= 0 {
          return len, ts;
        }
        left := left - len;
      }
      r := length;
    }

    /** One read of the loop, on top of `got` bytes already received. */
    method ReadMore(ba: ByteArray, left: nat, ghost view: Flat, ghost bytes: seq<byte>, ghost got: nat)
      returns (len: int, ghost n: nat)
      requires ba.Valid() && Apart(ba) && left > 0
      requires got <= |bytes| && Incoming() == bytes[got..] && Stored(view, bytes[..got], ba.View())
      modifies socket, ba.Repr
      ensures ba.Valid() && fresh(ba.Repr - old(ba.Repr)) && Apart(ba)
      ensures len <= left && n == Max(len, 0) && got + n <= |bytes|
      ensures IsConnected() == old(IsConnected()) && (!IsConnected() ==> len == -1)
      ensures Recvs() == old(Recvs()) + if IsConnected() then [Transfer(left, len)] else []
      ensures Incoming() == bytes[got + n..] && Stored(view, bytes[..got + n], ba.View())
    {
      hide ByteArray.Linked, Stored;
      ghost var before := ba.View();
      var noRegion;
      len, noRegion := Read(ba, left);
      n := Max(len, 0);
      PrefixExtend(bytes, got, n);
      StoredTwice(view, bytes[..got], before, bytes[got..][..n], ba.View());
    }

    /** Sends exactly `length` bytes, or stops at the first write that fails: the
        cursor is past the bytes sent so far either way.  `noRegion` says that one of
        the writes found nothing to send: all of the buffer was sent and more was
        asked for. */
    method WriteFixSize(ba: ByteArray, length: nat) returns (r: int, noRegion: bool, ghost ts: seq<Transfer>)
      requires ba.Valid() && Apart(ba)
      modifies socket, ba`position, ba`size, ba`cur
      ensures ba.Valid() && ba.size == old(ba.size)
      ensures Sends() == old(Sends()) + ts && Insists(ts, length, old(ba.size - ba.position))
      ensures IsConnected() == old(IsConnected())
      ensures if IsConnected() then Ended(ts, length, r) else ts == [] && r == if length == 0 then 0 else -1
      ensures old(ba.position) + Total(ts) == ba.position <= |ba.data|
      ensures Outgoing() == old(Outgoing()) + ba.data[old(ba.position)..ba.position]
      ensures noRegion <==> IsConnected() && Total(ts) < length && ba.position == ba.size
    {
      hide ByteArray.Linked, Insists, AllMoved, Total;
      ba.CapacityBlocks();
      noRegion := false;
      var left := length;
      ts := [];
      ghost var calls, most := Sends(), ba.size - ba.position;
      NoTransfer(length, most);
      while left > 0
        invariant ba.Valid() && ba.size == old(ba.size)
        invariant left >= 0 && Total(ts) == length - left && ba.position == old(ba.position) + Total(ts) <= |ba.data|
        invariant Sends() == calls + ts && Insists(ts, length, most) && AllMoved(ts)
        invariant IsConnected() == old(IsConnected()) && (!IsConnected() ==> ts == [])
        invariant Outgoing() == old(Outgoing()) + ba.data[old(ba.position)..ba.position] && !noRegion
      {
        ghost var mid := ba.position;
        var len;
        len, noRegion := Write(ba, left);
        SliceJoin(ba.data, old(ba.position), mid, ba.position);
        if IsConnected() {
          ghost var t := Transfer(Min(left, ba.size - mid), len);
          OneMore(ts, t, length, most);
          ConcatAssociates(calls, ts, [t]);
          ts := ts + [t];
        }
        if len <= 0 {
          return len, noRegion, ts;
        }
        left := left - len;
      }
      r := length;
    }
  }

  lemma NoTransfer(length: nat, most: nat)
    ensures Insists([], length, most) && AllMoved([]) && Total([]) == 0
  {
  }

  /** One more call, for what is still missing. */
  lemma OneMore(ts: seq<Transfer>, t: Transfer, length: nat, most: nat)
    requires Insists(ts, length, most) && AllMoved(ts) && t.asked == Min(length, most) - Total(ts)
    ensures Insists(ts + [t], length, most) && (AllMoved(ts + [t]) <==> t.result > 0)
    ensures Total(ts + [t]) == Total(ts) + Max(t.result, 0)
  {
    hide Total;
    var all := ts + [t];
    forall i | 0 <= i < |all|
      ensures all[..i] == if i == |ts| then ts else ts[..i]
    {
    }
    TotalSnoc(ts, t);
    assert all[|ts|] == t;
  }

  lemma TotalSnoc(ts: seq<Transfer>, t: Transfer)
    ensures Total(ts + [t]) == Total(ts) + Max(t.result, 0)
  {
    assert (ts + [t])[..|ts|] == ts;
  }

  lemma StoredNothing(ba: ByteArray)
    requires ba.Valid()
    ensures Stored(ba.View(), [], ba.View())
  {
    ba.CapacityBlocks();
  }
}
