/** `chaos::Buffer` itself: a list of nodes with a read and a write iterator, updated in
    place, proved against the ring of values in `Ring`, `RingWrite` and `RingQueue`. */
module Buffers {
  import opened Rotation
  import opened Parts
  import opened Ring
  import opened RingWrite
  import opened RingAppend
  import opened RingQueue
  import opened RingRuns

  class BufferNode {
    const buffer: array<byte>
    var readCursor: nat  // offset of the read position from the start of `buffer`
    var useSize: nat

    constructor ()
      ensures fresh(buffer) && buffer[..] == Blank().mem && readCursor == 0 == useSize
    {
      buffer := new byte[NODE_SIZE](_ => 0);
      readCursor, useSize := 0, 0;
    }

    function TotalSize(): nat { buffer.Length }

    ghost predicate Shows(c: Cell)
      reads this, buffer
    {
      c == Cell(buffer[..], readCursor, useSize)
    }
  }

  /** A segment of a node's memory, as an `iovec` holds it. */
  datatype IoVec = IoVec(node: BufferNode, off: nat, len: nat)

  /** `memcpy` into a node's memory. */
  method Memcpy(dst: array<byte>, at: nat, src: seq<byte>)
    requires at + |src| <= dst.Length
    modifies dst
    ensures dst[..] == old(dst[..at]) + src + old(dst[at + |src|..])
  {
    ghost var before := dst[..];
    for k := 0 to |src|
      invariant dst[..] == before[..at] + src[..k] + before[at + k..]
    {
      dst[at + k] := src[k];
      assert src[..k + 1] == src[..k] + [src[k]];
    }
  }

  /** `memcpy` out of a node's memory. Bytes past its end are whatever lies there. */
  method MemcpyOut(dst: array<byte>, at: nat, src: array<byte>, from: nat, n: nat)
    requires at + n <= dst.Length && dst != src
    modifies dst
    ensures dst[..at] == old(dst[..at]) && dst[at + n..] == old(dst[at + n..])
    ensures from + n <= src.Length ==> dst[at..at + n] == src[from..from + n]
  {
    for k := 0 to n
      invariant dst[..at] == old(dst[..at]) && dst[at + n..] == old(dst[at + n..])
      invariant from + n <= src.Length ==> dst[at..at + k] == src[from..from + k]
    {
      if from + k < src.Length {
        dst[at + k] := src[from + k];
      } else {
        dst[at + k] := *;
      }
    }
  }

  class Buffer {
    var buffList: seq<BufferNode>
    var wNodeIt: nat  // index into buffList; 0 for end() when the list is empty
    var rNodeIt: nat
    var useSize: nat

    ghost var cells: seq<Cell>
    ghost var Repr: set<object>

    /** The state as a value. */
    ghost function Abs(): State
      reads this
    {
      State(cells, rNodeIt, wNodeIt, useSize)
    }

    /** `cells` shows the nodes, which are all different and have memory of their own. */
    ghost predicate Mirrors()
      reads this, Repr
      ensures Mirrors() ==> this in Repr && Indexed(Abs())
    {
      && this in Repr
      && |cells| == |buffList| && Indexed(Abs()) && AllFit(cells)
      && (forall i | 0 <= i < |buffList| :: buffList[i] in Repr && buffList[i].buffer in Repr)
      && (forall i | 0 <= i < |buffList| :: buffList[i].Shows(cells[i]))
      && (forall i, j | 0 <= i < j < |buffList| ::
            buffList[i] != buffList[j] && buffList[i].buffer != buffList[j].buffer)
    }

    ghost predicate Valid()
      reads this, Repr
      ensures Valid() ==> this in Repr && Indexed(Abs())
    {
      Mirrors() && Accounted(Abs())
    }

    constructor ()
      ensures Valid() && fresh(Repr) && Abs() == EMPTY
    {
      buffList, cells := [], [];
      wNodeIt, rNodeIt, useSize := 0, 0, 0;
      Repr := {this};
    }

    function GetReadSize(): nat
      reads this
    {
      useSize
    }

    function GetLeftSize(): nat
      reads this
    {
      U32(NODE_SIZE * |buffList| - useSize)
    }

    method GetNextWNodeIt()
      requires wNodeIt < |buffList|
      modifies this`wNodeIt
      ensures wNodeIt == Next(old(wNodeIt), |buffList|)
    {
      wNodeIt := wNodeIt + 1;
      if wNodeIt == |buffList| {
        wNodeIt := 0;
      }
    }

    method GetNextRNodeIt()
      requires rNodeIt < |buffList|
      modifies this`rNodeIt
      ensures rNodeIt == if useSize > 0 then Next(old(rNodeIt), |buffList|) else wNodeIt
    {
      rNodeIt := rNodeIt + 1;
      if rNodeIt == |buffList| {
        if useSize > 0 {
          rNodeIt := 0;
        } else {
          rNodeIt := wNodeIt;
        }
      } else {
        if useSize <= 0 {
          rNodeIt := wNodeIt;
        }
      }
    }

    /** The read node gives up `v` bytes: what one iteration of either reading loop does to
        the node, the counter and the read iterator. */
    method GiveUp(v: nat)
      requires Mirrors() && buffList != [] && v <= buffList[rNodeIt].useSize && v <= useSize
      modifies this, buffList[rNodeIt]
      ensures Mirrors() && Repr == old(Repr) && buffList == old(buffList)
      ensures Abs() == DrainOne(old(Abs()), v)
    {
      var node := buffList[rNodeIt];
      node.useSize := node.useSize - v;
      useSize := useSize - v;
      if 0 == node.useSize {
        node.readCursor := 0;
        cells := cells[rNodeIt := Cell(cells[rNodeIt].mem, 0, 0)];
        GetNextRNodeIt();
      } else {
        node.readCursor := node.readCursor + v;
        cells := cells[rNodeIt := Cell(cells[rNodeIt].mem, node.readCursor, node.useSize)];
      }
    }

    /** Moves the read position over `size` bytes: the stored bytes lose their front. */
    method MoveReadPos(size: nat)
      requires Valid()
      modifies Repr
      ensures Valid() && Repr == old(Repr)
      ensures Abs() == MoveRead(old(Abs()), size)
      ensures useSize == old(useSize) - Min(size, old(useSize))
      ensures old(Sound(Abs())) ==> var m := Min(size, old(useSize)); var was := old(Contents(Abs()));
        Sound(Abs()) && m <= |was| && Contents(Abs()) == was[m..]
    {
      hide Rot, Rest, Flat, Data, Head, Contents, Drain, DrainOne, CopyOut, Used, Room, AllFit, U32, Tidy, Within;
      ghost var s := Abs();
      MoveReadTakes(s, size);
      if buffList == [] {
        SumBounds(s);
        return;
      }
      var left: nat := if size > useSize then useSize else size;
      ghost var laps: nat := |buffList|;
      LapBegins(s, left);
      while 0 < left
        invariant Valid() && Repr == old(Repr) && buffList == old(buffList) && left <= useSize
        invariant laps <= |cells| && left <= Used(Rot(cells, rNodeIt)[..laps])
        invariant Drain(Abs(), left, laps) == Drain(s, Min(size, s.used), |s.cells|)
        decreases laps
      {
        LapGoesOn(Abs(), left, laps);
        var node := buffList[rNodeIt];
        assert node.Shows(cells[rNodeIt]);
        var validSize := if node.useSize > left then left else node.useSize;
        GiveUp(validSize);
        left := left - validSize;
        laps := laps - 1;
      }
      LapEnds(Abs(), laps);
    }

    /** Copies what the read node has, up to `left` bytes, to `out[at..]`. */
    method CopyNode(out: array<byte>, at: nat, left: nat) returns (cpSize: nat)
      requires Mirrors() && buffList != [] && out !in Repr && left <= useSize && at + left <= out.Length
      modifies this, buffList[rNodeIt], out
      ensures Mirrors() && Repr == old(Repr) && buffList == old(buffList)
      ensures cpSize == Min(old(cells[rNodeIt].used), left) && Abs() == DrainOne(old(Abs()), cpSize)
      ensures out[at + cpSize..] == old(out[at + cpSize..])
      ensures var c := old(cells[rNodeIt]); c.cursor + cpSize <= |c.mem| ==>
        out[..at + cpSize] == old(out[..at]) + Bytes(c, cpSize)
    {
      var node := buffList[rNodeIt];
      assert node.Shows(cells[rNodeIt]);
      cpSize := if left > node.useSize then node.useSize else left;
      MemcpyOut(out, at, node.buffer, node.readCursor, cpSize);
      ghost var all := out[..];
      assert all[..at + cpSize] == all[..at] + all[at..at + cpSize];
      GiveUp(cpSize);
      assert out[..] == all;
    }

    /** The copying loop. */
    method CopyAll(out: array<byte>, realSize: nat)
      requires Valid() && out !in Repr && realSize <= out.Length && realSize <= useSize && buffList != []
      modifies Repr, out
      ensures Valid() && Repr == old(Repr) && Abs() == Drain(old(Abs()), realSize, |old(cells)|)
      ensures out[realSize..] == old(out[realSize..])
      ensures old(Sound(Abs())) ==> out[..realSize] == CopyOut(old(Abs()), realSize, |old(cells)|)
    {
      hide Rot, Rest, Contents, Drain, DrainOne, CopyOut, Used, AllFit, U32, Tidy, Within, Bytes;
      ghost var s := Abs();
      var left: nat := realSize;
      ghost var laps: nat := |buffList|;
      LapBegins(s, left);
      assert [] + CopyOut(s, left, laps) == CopyOut(s, left, laps);
      while 0 < left
        invariant Valid() && Repr == old(Repr) && buffList == old(buffList)
        invariant left <= useSize && left <= realSize
        invariant laps <= |cells| && left <= Used(Rot(cells, rNodeIt)[..laps])
        invariant Drain(Abs(), left, laps) == Drain(s, realSize, |s.cells|)
        invariant out[realSize..] == old(out[realSize..])
        invariant Sound(s) ==> Sound(Abs())
        invariant Sound(s) ==> out[..realSize - left] + CopyOut(Abs(), left, laps) == CopyOut(s, realSize, |s.cells|)
        decreases laps
      {
        ghost var now, done := Abs(), out[..realSize - left];
        LapGoesOn(now, left, laps);
        if Sound(s) { CopyGoesOn(now, left, laps); }
        var cpSize := CopyNode(out, realSize - left, left);
        left := left - cpSize;
        laps := laps - 1;
        if Sound(s) { Associate(done, Bytes(now.cells[now.r], cpSize), CopyOut(Abs(), left, laps)); }
      }
      LapEnds(Abs(), laps);
    }

    /** Copies up to `size` bytes out. In a sound ring they are the first bytes stored. */
    method ReadBuffer(out: array<byte>, size: nat) returns (realSize: nat)
      requires Valid() && out !in Repr && size <= out.Length
      modifies Repr, out
      ensures Valid() && Repr == old(Repr)
      ensures Abs() == MoveRead(old(Abs()), size) && realSize == Min(size, old(useSize))
      ensures out[realSize..] == old(out[realSize..])
      ensures old(Sound(Abs())) ==> var was := old(Contents(Abs()));
        && Sound(Abs()) && realSize <= |was|
        && out[..realSize] == was[..realSize] && Contents(Abs()) == was[realSize..]
    {
      hide Rot, Contents, Drain, CopyOut, Used, AllFit, U32, Tidy, Within;
      MoveReadTakes(Abs(), size);
      if Sound(Abs()) { ReadsPrefix(Abs(), size); }
      realSize := if size > useSize then useSize else size;
      if buffList == [] {
        SumBounds(Abs());
        NothingStored();
        return 0;
      }
      CopyAll(out, realSize);
    }

    /** The unread data of the read node, in place: a prefix of what is stored. */
    method ReadNode() returns (node: BufferNode?, off: nat, size: nat)
      requires Valid()
      ensures buffList == [] ==> node == null && size == 0
      ensures buffList != [] ==> node == buffList[rNodeIt] && off == cells[rNodeIt].cursor && size == cells[rNodeIt].used
      ensures Sound(Abs()) && node != null ==>
        && off + size <= node.buffer.Length && size <= |Contents(Abs())|
        && node.buffer[off..off + size] == Contents(Abs())[..size]
    {
      node, off, size := null, 0, 0;
      if buffList == [] {
        return;
      }
      hide Rot, Rest, Flat, Used, AllFit, U32, Contents, Tidy;
      node := buffList[rNodeIt];
      assert node.Shows(cells[rNodeIt]);
      off, size := node.readCursor, node.useSize;
      if Sound(Abs()) { BytesFirst(Abs(), size); }
    }

    /** The stored bytes in place, for at most `size` of them in at most `cnt` segments. They
        are what a copying read would hand out. */
    method PeekBuffer(cnt: nat, size: nat) returns (iov: seq<IoVec>)
      requires Valid()
      ensures Points(iov, Peek(cells, rNodeIt, cnt, Min(size, useSize)))
      ensures var segs := Peek(cells, rNodeIt, cnt, Min(size, useSize));
        Sound(Abs()) ==> OnList(cells, segs) && Gather(cells, segs) == ReadOut(Abs(), Total(segs))
    {
      hide Rot, Used, AllFit, U32, Peek, Contents, Tidy, Within, ReadOut, Gather;
      SumBounds(Abs());
      if buffList == [] { UsedOfNone(cells); }
      if Sound(Abs()) { PeekThenMove(Abs(), cnt, size); }
      iov := DataSegments(cnt, if size > useSize then useSize else size);
    }

    /** The segments themselves: the nodes' data from the read node on. */
    method DataSegments(cnt: nat, size: nat) returns (iov: seq<IoVec>)
      requires Valid() && (size == 0 || buffList != [])
      ensures Points(iov, Peek(cells, rNodeIt, cnt, size))
    {
      hide Rot, Used, AllFit, U32, Peek;
      iov := [];
      ghost var segs := Peek(cells, rNodeIt, cnt, size);
      var it: nat := rNodeIt;
      var left: nat := size;
      while |iov| < cnt && left > 0
        invariant |iov| <= cnt && (it < |buffList| || buffList == []) && left <= size
        invariant |iov| <= |segs| && Points(iov, segs[..|iov|])
        invariant segs[|iov|..] == Peek(cells, it, cnt - |iov|, left)
      {
        var node := buffList[it];
        assert node.Shows(cells[it]);
        var len := if node.useSize > left then left else node.useSize;
        PeekMore(cells, it, cnt - |iov|, left);
        ghost var k := |iov|;
        assert segs[k] == segs[k..][0] && segs[k + 1..] == segs[k..][1..] && segs[..k + 1] == segs[..k] + [segs[k]];
        iov := iov + [IoVec(node, node.readCursor, len)];
        left := left - len;
        it := it + 1;
        if it == |buffList| {
          it := 0;
        }
      }
      PeekStops(cells, it, cnt - |iov|, left);
      assert segs[..|iov|] == segs;
    }

    // ---------------------------------------------------------------- growing

    /** `std::list::insert`: the iterators keep their indices here; the caller moves them. */
    method InsertNode(at: nat, newNode: BufferNode, ghost c: Cell)
      requires Mirrors() && buffList != [] && at <= |buffList|
      requires newNode !in Repr && newNode.buffer !in Repr && newNode.Shows(c) && Fits(c)
      modifies this`buffList, this`cells, this`Repr
      ensures Mirrors() && Repr == old(Repr) + {newNode, newNode.buffer}
      ensures buffList == Insert(old(buffList), at, newNode) && cells == Insert(old(cells), at, c)
    {
      InsertFit(cells, at, c);
      buffList := buffList[..at] + [newNode] + buffList[at..];
      cells := Insert(cells, at, c);
      Repr := Repr + {newNode, newNode.buffer};
    }

    /** The read node is the write node and holds data: the new node goes before it. */
    method LinkBefore(newNode: BufferNode)
      requires Mirrors() && buffList != [] && wNodeIt == rNodeIt && cells[wNodeIt].used > 0
      requires newNode !in Repr && newNode.buffer !in Repr && newNode.Shows(Blank())
      modifies this, buffList[wNodeIt], newNode, newNode.buffer
      ensures Mirrors() && Repr == old(Repr) + {newNode, newNode.buffer}
      ensures Abs() == RingQueue.Expand(old(Abs()))
    {
      hide U32, Unwrapped, MovedOut, Insert, AllFit;
      UnwrapsFit(cells[wNodeIt]) by { assert AllFit(cells); FitAt(cells, wNodeIt); }
      ghost var c := cells[wNodeIt];
      MoveWrapped(newNode);
      InsertNode(wNodeIt, newNode, MovedOut(c));
      rNodeIt := rNodeIt + 1;
    }

    /** Otherwise it goes after the write node. */
    method LinkAfter(newNode: BufferNode)
      requires Mirrors() && buffList != [] && !(wNodeIt == rNodeIt && cells[wNodeIt].used > 0)
      requires newNode !in Repr && newNode.buffer !in Repr && newNode.Shows(Blank())
      modifies this
      ensures Mirrors() && Repr == old(Repr) + {newNode, newNode.buffer}
      ensures Abs() == RingQueue.Expand(old(Abs()))
    {
      hide U32, Insert, AllFit;
      InsertNode(wNodeIt + 1, newNode, Blank());
      if wNodeIt < rNodeIt {
        rNodeIt := rNodeIt + 1;
      }
    }

    /** Adds a node: after the write node, or before it when it is also the read node and
        holds data. Fails at 2^20 nodes. */
    method Expand() returns (ret: int)
      requires Valid()
      modifies Repr
      ensures Valid() && fresh(Repr - old(Repr))
      ensures ret == if AtCap(old(Abs())) then -1 else 0
      ensures Abs() == if ret != 0 then old(Abs()) else RingQueue.Expand(old(Abs()))
    {
      if |buffList| * NODE_SIZE >= 0xFFFFFFFF {
        return -1;
      }
      hide Rot, Used, U32, Unwrapped, MovedOut, Insert, AllFit;
      ExpandCounts(Abs());
      var newNode := new BufferNode();
      if buffList == [] {
        ExpandFirst(Abs());
        buffList, cells := [newNode], [Blank()];
        wNodeIt, rNodeIt := 0, 0;
        Repr := Repr + {newNode, newNode.buffer};
      } else {
        assert buffList[wNodeIt].Shows(cells[wNodeIt]);
        hide RingQueue.Expand;
        if wNodeIt == rNodeIt && buffList[wNodeIt].useSize > 0 {
          LinkBefore(newNode);
        } else {
          LinkAfter(newNode);
        }
      }
      ret := 0;
    }

    /** Moves the bytes of the write node that have wrapped to its start to `newNode`. */
    method MoveWrapped(newNode: BufferNode)
      requires Mirrors() && buffList != [] && newNode !in Repr && newNode.buffer !in Repr
      requires newNode.Shows(Blank())
      modifies this`cells, buffList[wNodeIt], newNode, newNode.buffer
      ensures Mirrors()
      ensures var c := old(cells[wNodeIt]);
        cells == old(cells)[wNodeIt := Unwrapped(c)] && newNode.Shows(MovedOut(c))
    {
      hide Rot, U32;
      var node := buffList[wNodeIt];
      assert node.Shows(cells[wNodeIt]);
      UnwrapsFit(cells[wNodeIt]);
      var realUseSize := U32(node.TotalSize() - node.readCursor);
      if realUseSize < node.useSize {
        var moveSize := node.useSize - realUseSize;
        Memcpy(newNode.buffer, 0, node.buffer[..moveSize]);
        newNode.useSize := moveSize;
        node.useSize := realUseSize;
        cells := cells[wNodeIt := Unwrapped(cells[wNodeIt])];
      } else {
        assert cells[wNodeIt := cells[wNodeIt]] == cells;
      }
    }

    /** Makes room for `size` bytes, changing nothing a reader sees. */
    method Reserver(size: nat) returns (ok: bool)
      requires Valid()
      modifies Repr
      ensures Valid() && fresh(Repr - old(Repr))
      ensures Reserved(ok, Abs()) == Grow(old(Abs()), size)
      ensures ok <==> CanHold(old(Abs()), size)
      ensures ok ==> LeftSize(Abs()) >= size
      ensures old(Sound(Abs())) ==> Sound(Abs()) && Contents(Abs()) == old(Contents(Abs()))
    {
      hide Rot, Contents, Used, Room, AllFit, RingQueue.Expand, Tidy, Within, U32;
      ghost var s := Abs();
      ReservesIff(s, size);
      GrowKeeps(s, size);
      while GetLeftSize() < size
        invariant Valid() && fresh(Repr - old(Repr))
        invariant Grow(Abs(), size) == Grow(s, size)
        decreases MAX_NODES - |buffList|
      {
        var ret := Expand();
        if ret != 0 {
          return false;
        }
      }
      return true;
    }

    // ---------------------------------------------------------------- writing

    /** Passes a full write node. */
    method PassFull()
      requires Mirrors() && buffList != []
      modifies this`wNodeIt
      ensures Mirrors() && wNodeIt == PutAt(old(Abs()))
    {
      hide Rot, U32;
      var node := buffList[wNodeIt];
      assert node.Shows(cells[wNodeIt]);
      if node.TotalSize() == node.useSize {
        GetNextWNodeIt();
      }
    }

    /** Copies a prefix of `data`, at most `left` bytes, into the next node with room or to
        the end of this one. */
    method PutNode(data: seq<byte>, left: nat) returns (cpSize: nat)
      requires Mirrors() && buffList != [] && 0 < left <= |data|
      modifies this`wNodeIt, this`cells, buffList, set i | 0 <= i < |buffList| :: buffList[i].buffer
      ensures Mirrors() && Repr == old(Repr) && buffList == old(buffList)
      ensures cpSize == Min(Tail(old(Abs()).cells[PutAt(old(Abs()))]), left)
      ensures Abs() == PutOne(old(Abs()), data, cpSize)
    {
      hide Rot, Store, AllFit, U32, PutAt;
      PassFull();
      var node := buffList[wNodeIt];
      assert node.Shows(cells[wNodeIt]);
      ghost var c := cells[wNodeIt];
      FitAt(cells, wNodeIt);
      cpSize := if left > node.TotalSize() - node.useSize then node.TotalSize() - node.useSize else left;
      StoreIs(c, data[..cpSize]);
      FitSet(cells, wNodeIt, Store(c, data[..cpSize]));
      Memcpy(node.buffer, node.useSize, data[..cpSize]);
      node.useSize := node.useSize + cpSize;
      cells := cells[wNodeIt := Store(c, data[..cpSize])];
    }

    /** The copying loop. */
    method PutAll(data: seq<byte>)
      requires Valid() && buffList != [] && |data| <= Room(cells)
      modifies Repr
      ensures Mirrors() && Repr == old(Repr)
      ensures Abs() == Put(old(Abs()), data, |data|, PutLaps(old(Abs())))
    {
      hide Rot, Room, AllFit, U32, Used, Put, PutOne, PutReaches;
      ghost var g := Abs();
      PutReachesAll(g, |data|);
      var left: nat := |data|;
      ghost var laps: nat := PutLaps(g);
      while 0 < left
        invariant Mirrors() && Repr == old(Repr) && buffList == old(buffList) && left <= |data|
        invariant 0 < left ==> PutReaches(cells, wNodeIt, left, laps)
        invariant Put(Abs(), data, left, laps) == Put(g, data, |data|, PutLaps(g))
        decreases laps
      {
        PutGoesOn(Abs(), data, left, laps);
        var cpSize := PutNode(data, left);
        left := left - cpSize;
        laps := laps - 1;
      }
      PutNothing(Abs(), data, laps);
    }

    /** Copies `data` in. In a sound ring that is ready for it, and when it fits the first
        node with room, it is appended to what a reader sees. */
    method WriteBuffer(data: seq<byte>) returns (ret: nat)
      requires Valid()
      modifies Repr
      ensures Valid() && fresh(Repr - old(Repr))
      ensures Abs() == Write(old(Abs()), data) && ret == Written(old(Abs()), data)
      ensures useSize == U32(old(useSize) + ret)
      ensures old(Sound(Abs()) && Orderly(Abs(), Send(data))) ==>
        Sound(Abs()) && Contents(Abs()) == old(Contents(Abs())) + data[..ret]
    {
      hide Rot, Contents, Used, Room, AllFit, Tidy, Within, U32, Put, Grow, Orderly;
      ghost var s := Abs();
      WriteCounts(s, data);
      if Sound(s) && Orderly(s, Send(data)) { SendQueues(s, data); }
      assert data[..|data|] == data && data[..0] == [];
      GrowKeeps(s, |data|);
      var ok := Reserver(|data|);
      if !ok {
        return 0;
      }
      if buffList == [] {
        return |data|;
      }
      LeftMeans(Abs());
      PutAll(data);
      useSize := U32(useSize + |data|);
      ret := |data|;
    }

    /** `iov` points at the list segments `segs`. */
    ghost predicate Points(iov: seq<IoVec>, segs: seq<Seg>)
      reads this
    {
      && |iov| == |segs|
      && forall j | 0 <= j < |iov| :: segs[j].cell < |buffList|
           && iov[j] == IoVec(buffList[segs[j].cell], segs[j].off, segs[j].len)
    }

    /** Lends free tails for `want` bytes in at most `cnt` segments, growing the ring first.
        Nothing a reader sees changes, and no node is lent twice. */
    method GetWriteBuffer(cnt: nat, want: nat) returns (iov: seq<IoVec>)
      requires Valid()
      modifies Repr
      ensures Valid() && fresh(Repr - old(Repr))
      ensures Abs() == Grow(old(Abs()), Asked(cnt, want)).state
      ensures Points(iov, Segments(old(Abs()), cnt, want))
      ensures forall i, j | 0 <= i < j < |iov| :: iov[i].node != iov[j].node
      ensures old(Sound(Abs())) ==> Sound(Abs()) && Contents(Abs()) == old(Contents(Abs()))
    {
      hide Rot, Contents, Used, Room, AllFit, Tidy, Within, U32, Grow, Lend, Asked;
      var size := AskedSize(cnt, want);
      ghost var s := Abs();
      GrowKeeps(s, size);
      LeftMeans(Grow(s, size).state);
      iov := [];
      var ok := Reserver(size);
      if !ok {
        return [];
      }
      LentOnce(Abs(), cnt, size);
      iov := FreeTails(cnt, size);
    }

    /** The segments themselves: free tails from the write node on. */
    method FreeTails(cnt: nat, size: nat) returns (iov: seq<IoVec>)
      requires Valid() && (size == 0 || buffList != [])
      ensures Points(iov, Lend(cells, wNodeIt, cnt, size))
    {
      hide Rot, Used, AllFit, U32, Lend;
      iov := [];
      ghost var segs := Lend(cells, wNodeIt, cnt, size);
      var it: nat := wNodeIt;
      var left: nat := size;
      while |iov| < cnt && left > 0
        invariant |iov| <= cnt && (it < |buffList| || buffList == []) && left <= size
        invariant |iov| <= |segs| && Points(iov, segs[..|iov|])
        invariant segs[|iov|..] == Lend(cells, it, cnt - |iov|, left)
      {
        var node := buffList[it];
        assert node.Shows(cells[it]);
        TailIs(cells, it);
        var len := if node.TotalSize() - node.useSize > left then left else node.TotalSize() - node.useSize;
        LendMore(cells, it, cnt - |iov|, left);
        ghost var k := |iov|;
        assert segs[k] == segs[k..][0] && segs[k + 1..] == segs[k..][1..] && segs[..k + 1] == segs[..k] + [segs[k]];
        iov := iov + [IoVec(node, node.useSize, len)];
        left := left - len;
        it := it + 1;
        if it == |buffList| {
          it := 0;
        }
      }
      LendStops(cells, it, cnt - |iov|, left);
      assert segs[..|iov|] == segs;
    }

    /** `memcpy` into the memory of node `k`. */
    method PokeNode(k: nat, at: nat, q: seq<byte>)
      requires Mirrors() && k < |buffList| && at + |q| <= NODE_SIZE
      modifies this`cells, buffList[k].buffer
      ensures Mirrors() && cells == old(cells)[k := Poke(old(cells[k]), at, q)]
    {
      hide Rot;
      assert buffList[k].Shows(cells[k]);
      Memcpy(buffList[k].buffer, at, q);
      cells := cells[k := Poke(cells[k], at, q)];
    }

    /** `readv` of `p` into the segments `iov`: the kernel's part of a fill. */
    method Readv(iov: seq<IoVec>, ghost segs: seq<Seg>, p: seq<byte>)
      requires Valid() && Points(iov, segs) && OnList(cells, segs)
      requires forall j | 0 <= j < |segs| :: segs[j].off + segs[j].len <= NODE_SIZE
      modifies Repr
      ensures Valid() && Repr == old(Repr) && buffList == old(buffList)
      ensures Abs() == old(Abs()).(cells := RingWrite.Readv(old(cells), segs, p))
    {
      hide Rot, Used, U32, AllFit;
      ReadvKeeps(Abs(), segs, p);
      var left := p;
      for j := 0 to |iov|
        invariant Mirrors() && Repr == old(Repr) && buffList == old(buffList)
        invariant rNodeIt == old(rNodeIt) && wNodeIt == old(wNodeIt) && useSize == old(useSize)
        invariant OnList(cells, segs[j..])
        invariant RingWrite.Readv(cells, segs[j..], left) == RingWrite.Readv(old(cells), segs, p)
      {
        var a := if iov[j].len <= |left| then iov[j].len else |left|;
        assert segs[j..][0] == segs[j] && segs[j..][1..] == segs[j + 1..];
        ghost var k := segs[j].cell;
        var n: nat :| n < |buffList| && buffList[n] == iov[j].node;
        assert n == k;
        PokeNode(n, iov[j].off, left[..a]);
        left := left[a..];
      }
    }

    /** Declares the next `size` free bytes filled. Every state keeps its accounts. */
    method MoveWritePos(size: nat)
      requires Valid()
      modifies Repr
      ensures Valid() && Repr == old(Repr) && buffList == old(buffList)
      ensures Abs() == MoveWrite(old(Abs()), size)
      ensures useSize == U32(old(useSize) + Min(size, LeftSize(old(Abs()))))
    {
      hide Rot, Used, Room, AllFit, Tidy, Commit, CommitOne, CommitSize;
      ghost var s := Abs();
      MoveWriteCounts(s, size);
      LeftMeans(s);
      var left: nat := if GetLeftSize() > size then size else GetLeftSize();
      ghost var laps: nat := |buffList|;
      if left > 0 { WholeLap(s); }
      while left > 0
        invariant Valid() && Repr == old(Repr) && buffList == old(buffList) && left < WORD
        invariant 0 < left ==> buffList != [] && laps <= |cells| && left <= Room(Rot(cells, wNodeIt)[..laps])
        invariant Commit(Abs(), left, laps) == MoveWrite(s, size)
        decreases laps
      {
        ghost var now := Abs();
        CommitGoesOn(now, left, laps);
        var addSize := CommitNode(left);
        left := left - addSize;
        laps := laps - 1;
      }
      CommitEnds(Abs(), laps);
    }

    /** A fill as a connection performs it: lend, let the kernel read `got` into what was
        lent, and commit. In a sound ring that is ready for it, `got` is appended. */
    method Receive(cnt: nat, want: nat, got: seq<byte>)
      requires Valid() && CanTake(Abs(), cnt, want, |got|)
      modifies Repr
      ensures Valid() && fresh(Repr - old(Repr))
      ensures Abs() == Fill(old(Abs()), cnt, want, got)
      ensures useSize == U32(old(useSize) + |got|)
      ensures old(Sound(Abs()) && Orderly(Abs(), Recv(cnt, want, got))) ==>
        Sound(Abs()) && Contents(Abs()) == old(Contents(Abs())) + got
    {
      hide Rot, Contents, Used, Room, AllFit, Tidy, Within, U32, Grow, Lend, Orderly, RingWrite.Readv, Total, MoveWrite, RingQueue.Segments;
      ghost var s := Abs();
      ghost var op := Recv(cnt, want, got);
      FillCounts(s, cnt, want, got);
      if Sound(s) && Orderly(s, op) {
        StepQueues(s, op);
        assert Contents(Do(s, op)) == [] + Contents(Do(s, op));
      }
      SegmentsInside(s, cnt, want);
      ghost var segs := RingQueue.Segments(s, cnt, want);
      var iov := GetWriteBuffer(cnt, want);
      Readv(iov, segs, got);
      MoveWritePos(|got|);
    }

    /** One iteration of `MoveWritePos`. */
    method CommitNode(left: nat) returns (addSize: nat)
      requires Valid() && buffList != [] && left < WORD
      modifies this`wNodeIt, this`cells, this`useSize, buffList[wNodeIt]
      ensures Mirrors() && buffList == old(buffList) && addSize == CommitSize(old(cells[wNodeIt]), left)
      ensures Abs() == CommitOne(old(Abs()), addSize)
    {
      hide Rot, Used, Room;
      CommitOneKeeps(Abs(), left);
      var node := buffList[wNodeIt];
      assert node.Shows(cells[wNodeIt]);
      addSize := if U32(node.useSize + left) > node.TotalSize() then node.TotalSize() - node.useSize else left;
      useSize := U32(useSize + addSize);
      node.useSize := U32(node.useSize + addSize);
      cells := cells[wNodeIt := cells[wNodeIt].(used := node.useSize)];
      GetNextWNodeIt();
    }
  }

  lemma FitSet(cs: seq<Cell>, i: nat, c: Cell)
    requires AllFit(cs) && i < |cs| && Fits(c)
    ensures AllFit(cs[i := c])
  {
  }

  lemma NothingStored()
    ensures Used([]) == 0 && U32(0) == 0
  {
  }

  lemma UsedOfNone(cs: seq<Cell>)
    requires cs == []
    ensures Used(cs) == 0 && U32(0) == 0
  {
  }

  lemma PeekMore(cells: seq<Cell>, i: nat, cnt: nat, size: nat)
    requires i < |cells| && 0 < cnt && 0 < size
    ensures var len := Min(cells[i].used, size);
      Peek(cells, i, cnt, size) == [Seg(i, cells[i].cursor, len)] + Peek(cells, Next(i, |cells|), cnt - 1, size - len)
  {
  }

  lemma PeekStops(cells: seq<Cell>, i: nat, cnt: nat, size: nat)
    requires (cells == [] || i < |cells|) && (cnt == 0 || size == 0 || cells == [])
    ensures Peek(cells, i, cnt, size) == []
  {
  }

  lemma TailIs(cs: seq<Cell>, i: nat)
    requires AllFit(cs) && i < |cs|
    ensures Tail(cs[i]) == |cs[i].mem| - cs[i].used
  {
  }

  lemma LendMore(cells: seq<Cell>, i: nat, cnt: nat, size: nat)
    requires i < |cells| && 0 < cnt && 0 < size
    ensures var len := Min(Tail(cells[i]), size);
      Lend(cells, i, cnt, size) == [Seg(i, cells[i].used, len)] + Lend(cells, Next(i, |cells|), cnt - 1, size - len)
  {
  }

  lemma LendStops(cells: seq<Cell>, i: nat, cnt: nat, size: nat)
    requires (cells == [] || i < |cells|) && (cnt == 0 || size == 0 || cells == [])
    ensures Lend(cells, i, cnt, size) == []
  {
  }

  lemma LentOnce(s: State, cnt: nat, size: nat)
    requires Accounted(s) && size <= LeftSize(s)
    ensures var segs := Lend(s.cells, s.w, cnt, size);
      && OnList(s.cells, segs)
      && (forall j | 0 <= j < |segs| :: segs[j].off + segs[j].len <= NODE_SIZE)
      && (forall i, j | 0 <= i < j < |segs| :: segs[i].cell != segs[j].cell)
  {
    hide Rot, Lend;
    LendOnList(s.cells, s.w, cnt, size);
    if s.cells != [] {
      WholeLap(s);
      LendsOnce(s.cells, s.w, cnt, size, |s.cells|);
    } else {
      LendStops(s.cells, s.w, cnt, size);
    }
  }

  lemma SegmentsInside(s: State, cnt: nat, want: nat)
    requires Accounted(s)
    ensures var segs := RingQueue.Segments(s, cnt, want);
      forall j | 0 <= j < |segs| :: segs[j].off + segs[j].len <= NODE_SIZE
  {
    hide Rot, Lend;
    var g := Grow(s, Asked(cnt, want));
    GrowKeeps(s, Asked(cnt, want));
    if g.ok { LentOnce(g.state, cnt, Asked(cnt, want)); }
  }

  lemma CommitEnds(s: State, laps: nat)
    requires Indexed(s)
    ensures Commit(s, 0, laps) == s
  {
  }

  /** One iteration of a commit: there is a node left in the lap, and the rest of the
      request fits the rest of the lap. */
  lemma CommitGoesOn(s: State, n: nat, laps: nat)
    requires Accounted(s) && s.cells != [] && 0 < n < WORD && laps <= |s.cells|
    requires n <= Room(Rot(s.cells, s.w)[..laps])
    ensures 0 < laps
    ensures var a := CommitSize(s.cells[s.w], n); var t := CommitOne(s, a);
      && a <= n && Accounted(t)
      && Commit(s, n, laps) == Commit(t, n - a, laps - 1)
      && n - a <= Room(Rot(t.cells, t.w)[..laps - 1])
  {
    hide Rot, CommitOne, CommitSize;
    if laps == 0 { CommitNothing(s, n, laps); }
    CommitOneKeeps(s, n);
    CommitFits(s, n, laps);
  }

  function AskedSize(cnt: nat, want: nat): (size: nat)
    ensures size == Asked(cnt, want)
  {
    if U32(cnt * NODE_SIZE) > want then want else U32(cnt * NODE_SIZE)
  }

  lemma StoreIs(c: Cell, p: seq<byte>)
    requires Fits(c) && |p| <= Tail(c)
    ensures Store(c, p) == Cell(c.mem[..c.used] + p + c.mem[c.used + |p|..], c.cursor, c.used + |p|)
  {
  }

  lemma FitAt(cs: seq<Cell>, i: nat)
    requires AllFit(cs) && i < |cs|
    ensures Fits(cs[i])
  {
  }

  lemma ExpandFirst(s: State)
    requires Indexed(s) && s.cells == []
    ensures RingQueue.Expand(s) == State([Blank()], 0, 0, s.used) && AllFit([Blank()])
  {
  }

  /** A whole lap lies ahead of a read that asks for no more than is stored. */
  lemma LapBegins(s: State, n: nat)
    requires Accounted(s) && s.cells != [] && n <= s.used
    ensures n <= Used(Rot(s.cells, s.r)[..|s.cells|])
  {
    SumBounds(s);
    RotSums(s.cells, s.r);
    assert Rot(s.cells, s.r)[..|s.cells|] == Rot(s.cells, s.r);
  }

  lemma LapEnds(s: State, laps: nat)
    requires Indexed(s)
    ensures Drain(s, 0, laps) == s && CopyOut(s, 0, laps) == []
  {
  }

  /** One iteration of a copying read hands out the node's bytes. */
  lemma CopyGoesOn(s: State, n: nat, laps: nat)
    requires Sound(s) && s.cells != [] && 0 < n <= s.used && 0 < laps
    ensures var v := Min(s.cells[s.r].used, n); var t := DrainOne(s, v);
      && Sound(t) && s.cells[s.r].cursor + v <= |s.cells[s.r].mem|
      && CopyOut(s, n, laps) == Bytes(s.cells[s.r], v) + CopyOut(t, n - v, laps - 1)
  {
    hide Rot, DrainOne, Contents;
    var v := Min(s.cells[s.r].used, n);
    DrainOneKeeps(s, v);
    DrainOneTakes(s, v);
  }

  /** One iteration of a read: there is a node left in the lap, and what is still wanted
      lies in the rest of the lap. */
  lemma LapGoesOn(s: State, n: nat, laps: nat)
    requires Accounted(s) && s.cells != [] && 0 < n <= s.used && laps <= |s.cells|
    requires n <= Used(Rot(s.cells, s.r)[..laps])
    ensures 0 < laps
    ensures var v := Min(s.cells[s.r].used, n); var t := DrainOne(s, v);
      && Accounted(t) && Drain(s, n, laps) == Drain(t, n - v, laps - 1)
      && n - v <= Used(Rot(t.cells, t.r)[..laps - 1])
  {
    hide Rot, DrainOne;
    var v := Min(s.cells[s.r].used, n);
    DrainOneKeeps(s, v);
    if laps == 0 { DrainNothing(s, n, laps); }
    if v < n { LapShrinks(s, laps); }
  }
}
