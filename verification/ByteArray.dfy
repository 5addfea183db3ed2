/** ByteArray: a list of fixed-size blocks with a cursor, which is one flat byte sequence with a cursor. */
module ByteArrays {
  import opened Basics
  import opened ByteBlocks

  class Node {
    const size: nat
    const ptr: array<byte>
    var next: Node?

    constructor (s: nat)
      ensures size == s && ptr.Length == s && fresh(ptr) && next == null
    {
      size := s;
      ptr := new byte[s];
      next := null;
    }
  }

  /** memcpy into a block. */
  method Copy(dst: array<byte>, at: nat, src: seq<byte>)
    requires at + |src| <= dst.Length
    modifies dst
    ensures dst[..] == Splice(old(dst[..]), at, src)
  {
    forall i | 0 <= i < |src| {
      dst[at + i] := src[i];
    }
  }

  /** How an operation ends: as meant, with std::out_of_range, or by following a null pointer. */
  datatype Outcome = Fine | OutOfRange | NullPointer

  // ---- the block list ----

  /** The list of blocks of `b` bytes that hangs together by `next`. */
  predicate Chain(nodes: seq<Node>, b: nat)
    reads nodes
  {
    && (forall i :: 0 <= i < |nodes| ==> nodes[i].size == b && nodes[i].ptr.Length == b)
    && (forall i :: 0 <= i < |nodes| - 1 ==> nodes[i].next == nodes[i + 1])
    && (nodes != [] ==> nodes[|nodes| - 1].next == null)
    && (forall i, j :: 0 <= i < j < |nodes| ==> nodes[i] != nodes[j] && nodes[i].ptr != nodes[j].ptr)
  }

  lemma ChainNext(nodes: seq<Node>, b: nat, k: nat)
    requires Chain(nodes, b) && k < |nodes|
    ensures nodes[k].next == if k < |nodes| - 1 then nodes[k + 1] else null
    ensures nodes[k].size == b == nodes[k].ptr.Length
  {
  }

  /** Position `p` lies in block `k`. */
  predicate InBlock(p: nat, k: nat, b: nat) {
    k * b <= p < k * b + b
  }

  predicate Owned(nodes: seq<Node>, repr: set<object>) {
    forall i :: 0 <= i < |nodes| ==> nodes[i] in repr && nodes[i].ptr in repr
  }

  function Blocks(nodes: seq<Node>, repr: set<object>): (blocks: seq<seq<byte>>)
    requires Owned(nodes, repr)
    reads repr
    ensures |blocks| == |nodes| && forall i :: 0 <= i < |nodes| ==> blocks[i] == nodes[i].ptr[..]
  {
    if nodes == [] then []
    else Blocks(nodes[..|nodes| - 1], repr) + [nodes[|nodes| - 1].ptr[..]]
  }

  class ByteArray {
    const baseSize: nat
    var position: nat
    var capacity: nat
    var size: nat
    var littleEndian: bool
    const root: Node
    var cur: Node?
    ghost var nodes: seq<Node>
    ghost var at: nat  // the number of the block under the cursor
    ghost var repr: set<object>

    ghost predicate List()
      reads this, repr
    {
      && this in repr && Owned(nodes, repr)
      && baseSize > 0 && nodes != [] && nodes[0] == root && Chain(nodes, baseSize)
      && capacity == |nodes| * baseSize
    }

    /** All but the bound on `position`, which `write` passes before it moves `size`. */
    ghost predicate Linked()
      reads this, repr
    {
      && List() && position <= capacity && at <= |nodes|
      && (if at == |nodes| then cur == null && position == capacity
          else cur == nodes[at] && InBlock(position, at, baseSize))
    }

    ghost predicate Valid()
      reads this, repr
    {
      Linked() && position <= size <= capacity
    }

    ghost function Store(): (s: seq<byte>)
      requires Owned(nodes, repr)
      reads this, repr
    {
      Join(Blocks(nodes, repr))
    }

    /** The bytes filled so far: what the array is as one flat sequence. */
    ghost function Filled(): (s: seq<byte>)
      requires Valid()
      reads this, repr
      ensures position <= |s| == size
    {
      StoreLength();
      Store()[..size]
    }

    constructor (base: nat)
      requires base > 0
      ensures Valid() && fresh(repr)
      ensures baseSize == base && capacity == base && !littleEndian && position == size == 0
    {
      var n := new Node(base);
      baseSize, position, capacity, size, littleEndian := base, 0, base, 0, false;
      root, cur, nodes, at, repr := n, n, [n], 0, {this, n, n.ptr};
    }

    /** setIsLittleEndian */
    method SetIsLittleEndian(val: bool)
      requires Valid()
      modifies this`littleEndian
      ensures Valid() && littleEndian == val && Store() == old(Store()) && Filled() == old(Filled())
    {
      hide *;
      ValidHas();
      FilledIs();
      littleEndian := val;
      Resized();
      FilledIs();
    }

    lemma StoreLength()
      requires List()
      ensures |Store()| == capacity
    {
      JoinLength(Blocks(nodes, repr), baseSize);
    }

    /** cur_ is block number position_ / base_size_, and null exactly when the cursor is at the end. */
    lemma CursorBlock()
      requires Valid()
      ensures cur == null <==> position == capacity
      ensures cur != null ==> position / baseSize < |nodes| && cur == nodes[position / baseSize]
      ensures cur != null ==> position % baseSize == position - at * baseSize
    {
      CursorInside();
      if at < |nodes| {
        DivModOf(position, baseSize, at, position - at * baseSize);
      }
    }

    lemma CursorInside()
      requires Linked()
      ensures at < |nodes| <==> position < capacity
    {
      if at < |nodes| {
        MulNext(at, baseSize);
        MulMono(at + 1, |nodes|, baseSize);
      }
    }

    /** The room behind the cursor. */
    function Room(): nat
      requires position <= capacity
      reads this
    {
      capacity - position
    }

    /** Moving the cursor leaves the list and the bytes as they are. */
    twostate lemma CursorMoved()
      requires old(List()) && unchanged(this`nodes, this`capacity, this`repr)
      requires forall o <- repr :: o != this ==> unchanged(o)
      ensures List() && Store() == old(Store())
    {
      hide Join;
      BlocksKept();
    }

    /** The blocks belong to the array and are not the array object itself. */
    twostate lemma BlocksKept()
      requires old(Owned(nodes, repr)) && unchanged(this`nodes, this`repr)
      requires forall o <- repr :: o != this ==> unchanged(o)
      ensures Owned(nodes, repr) && Blocks(nodes, repr) == old(Blocks(nodes, repr))
    {
      forall i | 0 <= i < |nodes|
        ensures nodes[i].ptr[..] == old(nodes[i].ptr[..])
      {
        var n: object, block: object := nodes[i], nodes[i].ptr;
        assert n in repr && n != this && unchanged(n);
        assert block in repr && block != this && unchanged(block);
      }
      assert Blocks(nodes, repr) == old(Blocks(nodes, repr));
    }

    /** What does not touch the array's own memory does not change it. */
    twostate lemma Untouched()
      requires old(Valid()) && unchanged(this) && forall o <- repr :: unchanged(o)
      ensures Valid() && Store() == old(Store()) && Filled() == old(Filled())
    {
    }

    twostate lemma Resized()
      requires old(Linked()) && unchanged(this`nodes, this`capacity, this`repr, this`position, this`cur, this`at)
      requires forall o <- repr :: o != this ==> unchanged(o)
      requires position <= size <= capacity
      ensures Valid() && Store() == old(Store())
    {
      CursorMoved();
    }

    twostate lemma StoreGrows(new n: Node)
      requires old(Owned(nodes, repr)) && Owned(nodes, repr) && nodes == old(nodes) + [n]
      requires forall i :: 0 <= i < |old(nodes)| ==> old(nodes[i].ptr[..]) == old(nodes)[i].ptr[..]
      ensures old(Store()) <= Store()
    {
      hide Join;
      assert Blocks(nodes, repr) == old(Blocks(nodes, repr)) + [n.ptr[..]];
      JoinMore(old(Blocks(nodes, repr)), n.ptr[..]);
    }

    /** One block more at the end of the list. */
    method Append(tmp: Node) returns (n: Node)
      requires List() && tmp == nodes[|nodes| - 1]
      modifies this`nodes, this`capacity, this`repr, tmp
      ensures List() && nodes == old(nodes) + [n] && old(repr) <= repr && fresh(repr - old(repr))
      ensures old(Store()) <= Store() && fresh(n)
    {
      hide Store;
      n := new Node(baseSize);
      tmp.next := n;
      MulNext(|nodes|, baseSize);
      capacity := capacity + baseSize;
      nodes := nodes + [n];
      repr := repr + {n, n.ptr};
      StoreGrows(n);
    }

    /** The last block of the list. */
    method Last() returns (tmp: Node)
      requires List()
      ensures tmp == nodes[|nodes| - 1]
    {
      tmp := root;
      ghost var k := 0;
      while tmp.next != null
        invariant k < |nodes| && tmp == nodes[k]
        decreases |nodes| - k
      {
        ChainNext(nodes, baseSize, k);
        tmp := tmp.next;
        k := k + 1;
      }
      ChainNext(nodes, baseSize, k);
    }

    /** What the cursor is before the list grows: its block is there, or will be the first new one. */
    lemma CursorAhead()
      requires Linked()
      ensures List() && position <= capacity && at <= |nodes| && InBlock(position, at, baseSize)
      ensures at == |nodes| <==> position == capacity
      ensures at < |nodes| ==> cur == nodes[at]
      ensures this in repr && baseSize > 0
    {
      CursorInside();
    }

    lemma Relinked()
      requires List() && position <= capacity && at < |nodes| && InBlock(position, at, baseSize) && cur == nodes[at]
      ensures Linked() && Owned(nodes, repr)
    {
    }

    /** addCapacity: makes room for `n` bytes behind the cursor. */
    method AddCapacity(n: nat)
      requires Valid()
      modifies repr
      ensures Valid() && position == old(position) && size == old(size) && littleEndian == old(littleEndian)
      ensures capacity == Grown(old(capacity), old(position), n, baseSize)
      ensures n <= Room() && old(Store()) <= Store()
      ensures old(repr) <= repr && fresh(repr - old(repr))
    {
      hide *;
      ValidHas();
      StorePrefix();
      GrownNot(capacity, position, n, baseSize);
      if n == 0 {
        return;
      }
      var oldCap := Room();
      if oldCap >= n {
        return;
      }
      var count := CeilDiv(n - oldCap, baseSize);
      RoomAfter(capacity, position, n, baseSize);
      CursorAhead();
      ghost var before := nodes;
      var first := Grow(count);
      assert nodes[at] == if at < |before| then nodes[..|before|][at] else nodes[|before|];
      Attach(oldCap, first);
      ValidAgain();
    }

    lemma StorePrefix()
      requires Owned(nodes, repr)
      ensures Store() <= Store()
    {
    }

    lemma ValidAgain()
      requires Linked() && position <= size <= capacity
      ensures Valid() && Room() == capacity - position
    {
    }

    /** The last step of addCapacity: a cursor at the end moves to the first new block. */
    method Attach(oldCap: nat, first: Node?)
      requires List() && position <= capacity && at < |nodes| && InBlock(position, at, baseSize)
      requires if oldCap == 0 then first == nodes[at] else cur == nodes[at]
      modifies this`cur
      ensures Linked() && Owned(nodes, repr) && Store() == old(Store())
      ensures size == old(size) && position == old(position) && capacity == old(capacity) && repr == old(repr)
      ensures littleEndian == old(littleEndian)
    {
      hide List, Store, Owned, InBlock;
      if oldCap == 0 {
        cur := first;
        CursorMoved();
      }
      Relinked();
    }

    /** The part of addCapacity that appends `count` blocks. */
    method Grow(count: nat) returns (first: Node?)
      requires List()
      modifies this`capacity, this`nodes, this`repr, repr
      ensures List() && |nodes| == |old(nodes)| + count && nodes[..|old(nodes)|] == old(nodes)
      ensures capacity == old(capacity) + count * baseSize
      ensures if count == 0 then first == null else first == nodes[|old(nodes)|]
      ensures old(Store()) <= Store()
      ensures old(repr) <= repr && fresh(repr - old(repr))
      ensures position == old(position) && size == old(size) && littleEndian == old(littleEndian)
      ensures at == old(at) && cur == old(cur)
    {
      hide Chain, Join, Blocks;
      var tmp := Last();
      first := null;
      ghost var before, store := nodes, Store();
      for i := 0 to count
        invariant List() && |nodes| == |before| + i && nodes[..|before|] == before
        invariant tmp == nodes[|nodes| - 1] && capacity == old(capacity) + i * baseSize
        invariant if i == 0 then first == null else first == nodes[|before|]
        invariant store <= Store()
        invariant old(repr) <= repr && fresh(repr - old(repr))
        invariant position == old(position) && size == old(size) && littleEndian == old(littleEndian)
        invariant at == old(at) && cur == old(cur)
      {
        MulNext(|nodes|, baseSize);
        MulNext(i, baseSize);
        tmp := Append(tmp);
        if first == null {
          first := tmp;
        }
      }
    }

    // ---- write ----

    /** A change of one block's bytes is the same change of the store. */
    twostate lemma BlockWritten(new k: nat, new r: nat, new data: seq<byte>)
      requires old(List()) && k < |nodes| && r + |data| <= baseSize
      requires nodes == old(nodes) && capacity == old(capacity) && repr == old(repr)
      requires forall i :: 0 <= i < |nodes| ==> nodes[i].next == old(nodes[i].next)
      requires nodes[k].ptr[..] == Splice(old(nodes[k].ptr[..]), r, data)
      requires forall i :: 0 <= i < |nodes| && i != k ==> nodes[i].ptr[..] == old(nodes[i].ptr[..])
      ensures List() && k * baseSize + r + |data| <= |old(Store())|
      ensures Store() == Splice(old(Store()), k * baseSize + r, data)
    {
      hide Join, Splice;
      JoinSplice(old(Blocks(nodes, repr)), baseSize, k, r, data);
      assert Blocks(nodes, repr) == old(Blocks(nodes, repr))[k := Splice(old(nodes[k].ptr[..]), r, data)];
    }

    /** Where the cursor stands in its block: what cur_shift and cur_left are. */
    ghost predicate AtShift(shift: nat)
      reads this, repr
    {
      Linked() && at < |nodes| && shift < baseSize && position == at * baseSize + shift
    }

    lemma ShiftIs()
      requires Linked() && position < capacity
      ensures AtShift(position % baseSize) && cur != null && cur.size == baseSize && cur.ptr.Length == baseSize
    {
      CursorInside();
      DivModOf(position, baseSize, at, position - at * baseSize);
    }

    lemma AtShiftFacts(shift: nat)
      requires AtShift(shift)
      ensures List() && Linked() && Owned(nodes, repr) && cur != null && cur == nodes[at]
      ensures cur.size == baseSize && cur.ptr.Length == baseSize && cur.ptr in repr && cur in repr && this in repr
      ensures cur.next == if at < |nodes| - 1 then nodes[at + 1] else null
      ensures position < capacity
    {
      CursorInside();
      ChainNext(nodes, baseSize, at);
    }

    lemma OtherBlocks(k: nat)
      requires List() && k < |nodes|
      ensures forall i :: 0 <= i < |nodes| && i != k ==> nodes[i].ptr != nodes[k].ptr
    {
    }

    /** Where the cursor stands `m` bytes further on. */
    lemma AdvancedTo(p: nat, k: nat, shift: nat, m: nat)
      requires List() && k < |nodes| && p == k * baseSize + shift && 0 < m && shift + m <= baseSize
      ensures shift + m < baseSize ==> InBlock(p + m, k, baseSize)
      ensures shift + m == baseSize ==> InBlock(p + m, k + 1, baseSize) && (k + 1 == |nodes| ==> p + m == capacity)
      ensures p + m <= capacity
    {
      MulNext(k, baseSize);
      MulMono(k + 1, |nodes|, baseSize);
    }

    lemma LinkedIs()
      requires List() && position <= capacity && at <= |nodes|
      requires if at == |nodes| then cur == null && position == capacity else cur == nodes[at] && InBlock(position, at, baseSize)
      ensures Linked()
    {
    }

    lemma AtShiftAgain(shift: nat)
      requires Linked() && at < |nodes| && shift < baseSize && position == at * baseSize + shift
      ensures AtShift(shift) && Owned(nodes, repr)
    {
    }

    lemma AtShiftHas(shift: nat)
      requires AtShift(shift)
      ensures position == at * baseSize + shift && at < |nodes| && shift < baseSize && position <= capacity
      ensures InBlock(position, at, baseSize)
    {
    }

    /** memcpy into block `k`. */
    method CopyAt(block: array<byte>, ghost k: nat, shift: nat, bytes: seq<byte>)
      requires List() && k < |nodes| && block == nodes[k].ptr && shift + |bytes| <= baseSize
      modifies block
      ensures List() && k * baseSize + shift + |bytes| <= |old(Store())|
      ensures Store() == Splice(old(Store()), k * baseSize + shift, bytes)
    {
      ChainNext(nodes, baseSize, k);
      OtherBlocks(k);
      hide *;
      Copy(block, shift, bytes);
      BlockWritten(k, shift, bytes);
    }

    /** memcpy into the current block. */
    method CopyIn(shift: nat, bytes: seq<byte>)
      requires AtShift(shift) && shift + |bytes| <= baseSize
      modifies cur.ptr
      ensures AtShift(shift) && Owned(nodes, repr) && position + |bytes| <= |old(Store())|
      ensures Store() == Splice(old(Store()), position, bytes)
    {
      AtShiftFacts(shift);
      AtShiftHas(shift);
      hide *;
      CopyAt(cur.ptr, at, shift, bytes);
      LinkedIs();
      AtShiftAgain(shift);
      assert Store() == Splice(old(Store()), position, bytes);
    }

    /** Where the cursor belongs `m` bytes further on. */
    lemma NextBlock(shift: nat, m: nat)
      requires AtShift(shift) && 0 < m && shift + m <= baseSize && cur != null
      ensures var full := cur.size == shift + m;
              var k, c := if full then at + 1 else at, if full then cur.next else cur;
              && k <= |nodes| && position + m <= capacity
              && if k == |nodes| then c == null && position + m == capacity else c == nodes[k] && InBlock(position + m, k, baseSize)
    {
      AtShiftFacts(shift);
      AtShiftHas(shift);
      AdvancedTo(position, at, shift, m);
    }

    /** The cursor moves `m` bytes on, to the next block when it has reached the end of this one. */
    method Advance(shift: nat, m: nat)
      requires AtShift(shift) && 0 < m && shift + m <= baseSize
      modifies this`position, this`cur, this`at
      ensures Linked() && Owned(nodes, repr) && Store() == old(Store()) && position == old(position) + m
      ensures shift + m == baseSize && position < capacity ==> AtShift(0)
    {
      hide *;
      AtShiftFacts(shift);
      AtShiftHas(shift);
      NextBlock(shift, m);
      label Before:
      if cur.size == shift + m {
        cur, at := cur.next, at + 1;
      }
      position := position + m;
      CursorMoved@Before();
      LinkedIs();
      OwnedIs();
      if shift + m == baseSize && position < capacity {
        CursorInside();
        MulNext(at - 1, baseSize);
        AtShiftAgain(0);
      }
    }

    lemma OwnedIs()
      requires List()
      ensures Owned(nodes, repr)
    {
    }

    /** One turn of the loop of write: bytes that fit into the current block. */
    method Put(shift: nat, bytes: seq<byte>)
      requires AtShift(shift) && bytes != [] && shift + |bytes| <= baseSize
      modifies this`position, this`cur, this`at, cur.ptr
      ensures Linked() && Owned(nodes, repr) && position == old(position) + |bytes|
      ensures old(position) + |bytes| <= |old(Store())| && Store() == Splice(old(Store()), old(position), bytes)
      ensures shift + |bytes| == baseSize && position < capacity ==> AtShift(0) && cur != null && cur.size == baseSize
    {
      hide *;
      AtShiftFacts(shift);
      CopyIn(shift, bytes);
      AtShiftFacts(shift);
      Advance(shift, |bytes|);
      if shift + |bytes| == baseSize && position < capacity {
        AtShiftFacts(0);
      }
    }

    /** write: the bytes go over the store at the cursor, which grows as far as they need. */
    method Write(data: seq<byte>)
      requires Valid()
      modifies repr
      ensures Valid() && littleEndian == old(littleEndian)
      ensures old(repr) <= repr && fresh(repr - old(repr))
      ensures position == old(position) + |data| && size == (if old(size) < position then position else old(size))
      ensures capacity == Grown(old(capacity), old(position), |data|, baseSize)
      ensures Wrote(old(Store()), old(position), data, Store())
      ensures Filled() == Overlay(old(Filled()), old(position), data)
    {
      hide *;
      ValidHas();
      FilledIs();
      StoreLength();
      if |data| == 0 {
        WroteNothing(Store(), position);
        OverlayNothing(Filled(), position);
        GrownNot(capacity, position, 0, baseSize);
        return;
      }
      AddCapacity(|data|);
      ValidHas();
      ghost var store := Store();
      StoreLength();
      WriteLoop(data);
      SpliceWrote(old(Store()), old(position), data, store);
      label Written:
      if position > size {
        size := position;
      }
      Resized@Written();
      FilledIs();
      WriteOverlays(old(Store()), old(size), old(position), data, Store());
    }

    lemma FilledIs()
      requires Valid()
      ensures |Store()| == capacity && Filled() == Store()[..size] && Owned(nodes, repr)
    {
      StoreLength();
    }

    /** The loop of write, in the room made. */
    method WriteLoop(data: seq<byte>)
      requires Linked() && position + |data| <= capacity && data != []
      modifies repr
      ensures Linked() && littleEndian == old(littleEndian) && repr == old(repr) && nodes == old(nodes)
      ensures capacity == old(capacity) && size == old(size) && position == old(position) + |data|
      ensures position <= |old(Store())| && Store() == Splice(old(Store()), old(position), data)
    {
      hide *;
      LinkedHas();
      ghost var start, store, where := position, Store(), repr;
      ShiftIs();
      var curShift: nat := position % baseSize;
      var curLeft := cur.size - curShift;
      var bufPos: nat, left: nat := 0, |data|;
      StoreLength();
      SpliceNothing(store, start);
      while left > 0
        invariant bufPos + left == |data| && position == start + bufPos && position + left <= capacity
        invariant Linked() && Owned(nodes, repr) && repr == where
        invariant left > 0 ==> AtShift(curShift) && curLeft == baseSize - curShift > 0
        invariant start + bufPos <= |store| && Store() == Splice(store, start, data[..bufPos])
        invariant capacity == old(capacity) && size == old(size) && littleEndian == old(littleEndian) && nodes == old(nodes)
      {
        AtShiftFacts(curShift);
        if curLeft >= left {
          Put(curShift, data[bufPos..bufPos + left]);
          SpliceOn(store, start, data, bufPos, left);
          bufPos, left := bufPos + left, 0;
        } else {
          Put(curShift, data[bufPos..bufPos + curLeft]);
          SpliceOn(store, start, data, bufPos, curLeft);
          bufPos, left := bufPos + curLeft, left - curLeft;
          curLeft, curShift := cur.size, 0;
        }
      }
      assert data[..bufPos] == data;
    }

    lemma ValidHas()
      requires Valid()
      ensures Linked() && List() && Owned(nodes, repr) && position <= size <= capacity && baseSize > 0 && this in repr
      ensures Room() == capacity - position
    {
    }

    lemma LinkedHas()
      requires Linked()
      ensures List() && Owned(nodes, repr) && position <= capacity && baseSize > 0 && this in repr
    {
    }

    // ---- read ----

    /** memcpy out of the current block. */
    method CopyOut(shift: nat, n: nat) returns (bytes: seq<byte>)
      requires AtShift(shift) && shift + n <= baseSize
      ensures position + n <= |Store()| && bytes == Store()[position..position + n]
    {
      AtShiftFacts(shift);
      AtShiftHas(shift);
      BlockHas(at, shift, n);
      hide *;
      bytes := cur.ptr[shift..shift + n];
    }

    lemma BlockHas(k: nat, shift: nat, n: nat)
      requires List() && k < |nodes| && shift + n <= baseSize
      ensures k * baseSize + shift + n <= |Store()| && nodes[k].ptr.Length == baseSize
      ensures nodes[k].ptr[shift..shift + n] == Store()[k * baseSize + shift..k * baseSize + shift + n]
    {
      hide Join;
      JoinAt(Blocks(nodes, repr), baseSize, k, shift, shift + n);
      assert Blocks(nodes, repr)[k][shift..shift + n] == nodes[k].ptr[shift..shift + n];
    }

    /** One turn of the loop of read. */
    method Take(shift: nat, n: nat) returns (bytes: seq<byte>)
      requires AtShift(shift) && 0 < n && shift + n <= baseSize
      modifies this`position, this`cur, this`at
      ensures Linked() && Owned(nodes, repr) && Store() == old(Store()) && position == old(position) + n <= |Store()|
      ensures bytes == Store()[old(position)..position]
      ensures shift + n == baseSize && position < capacity ==> AtShift(0) && cur != null && cur.size == baseSize
    {
      hide *;
      AtShiftFacts(shift);
      bytes := CopyOut(shift, n);
      Advance(shift, n);
      if shift + n == baseSize && position < capacity {
        AtShiftFacts(0);
      }
    }

    /** read: the next `n` bytes, or an exception when fewer have been filled. Reading nothing at the very end
        of the capacity follows the null cursor. */
    method Read(n: nat) returns (outcome: Outcome, bytes: seq<byte>)
      requires Valid()
      modifies this`position, this`cur, this`at
      ensures Valid() && Store() == old(Store()) && position <= |Store()|
      ensures outcome == if n > size - old(position) then OutOfRange
                         else if n == 0 && old(position) == capacity then NullPointer else Fine
      ensures if outcome == Fine then position == old(position) + n && bytes == Store()[old(position)..position]
              else position == old(position) && bytes == []
    {
      hide *;
      ValidHas();
      StoreLength();
      CursorInside();
      bytes := [];
      if n > size - position {
        return OutOfRange, [];
      }
      LinkedCursor();
      if cur == null {
        return NullPointer, [];
      }
      bytes := ReadLoop(n);
      outcome := Fine;
      ValidAgain();
    }

    lemma LinkedCursor()
      requires Linked()
      ensures cur == null <==> at == |nodes|
    {
    }

    /** The loop of read. */
    method ReadLoop(n: nat) returns (bytes: seq<byte>)
      requires Linked() && position < capacity && position + n <= capacity
      modifies this`position, this`cur, this`at
      ensures Linked() && Owned(nodes, repr) && Store() == old(Store()) && position == old(position) + n <= |Store()|
      ensures bytes == Store()[old(position)..position]
    {
      hide *;
      LinkedHas();
      ShiftIs();
      ghost var start := position;
      var curShift: nat := position % baseSize;
      var curLeft := cur.size - curShift;
      var left: nat := n;
      bytes := [];
      StoreLength();
      while left > 0
        invariant position + left == start + n && start <= position <= |Store()|
        invariant Linked() && Owned(nodes, repr) && Store() == old(Store())
        invariant left > 0 ==> AtShift(curShift) && curLeft == baseSize - curShift > 0
        invariant bytes == Store()[start..position]
      {
        AtShiftFacts(curShift);
        ghost var mid := position;
        if curLeft >= left {
          var more := Take(curShift, left);
          bytes, left := bytes + more, 0;
        } else {
          var more := Take(curShift, curLeft);
          bytes, left := bytes + more, left - curLeft;
          curLeft, curShift := cur.size, 0;
        }
        assert Store()[start..mid] + Store()[mid..position] == Store()[start..position];
      }
    }

    // ---- setPosition and clear ----

    /** setPosition: anywhere within the capacity; bytes up to there then count as filled. */
    method SetPosition(v: nat) returns (outcome: Outcome)
      requires Valid()
      modifies this`position, this`cur, this`at, this`size
      ensures Valid() && Store() == old(Store())
      ensures outcome == if v > capacity then OutOfRange else Fine
      ensures if outcome == Fine then position == v && size == (if old(size) < v then v else old(size))
              else position == old(position) && size == old(size)
    {
      hide *;
      ValidHas();
      if v > capacity {
        return OutOfRange;
      }
      label Before:
      position := v;
      if position > size {
        size := position;
      }
      cur, at := root, 0;
      Seek(v);
      CursorMoved@Before();
      LinkedIs();
      ValidAgain();
      outcome := Fine;
    }

    /** The walk of setPosition from the first block. */
    method Seek(target: nat)
      requires List() && cur == root && at == 0 && target <= capacity
      modifies this`cur, this`at
      ensures at <= |nodes|
      ensures if at == |nodes| then cur == null && target == capacity else cur == nodes[at] && InBlock(target, at, baseSize)
    {
      ghost var list := nodes;
      var v: nat := target;
      while v > cur.size
        invariant nodes == list && at < |nodes| && cur == nodes[at] && target == at * baseSize + v
        invariant Chain(nodes, baseSize) && baseSize > 0 && capacity == |nodes| * baseSize
        decreases v
      {
        ChainNext(nodes, baseSize, at);
        MulNext(at, baseSize);
        v := v - cur.size;
        cur, at := cur.next, at + 1;
      }
      MulNext(at, baseSize);
      if v == cur.size {
        ChainNext(nodes, baseSize, at);
        cur, at := cur.next, at + 1;
      }
    }

    /** clear: everything is forgotten but the first block. */
    method Clear()
      requires Valid()
      modifies this, root
      ensures Valid() && repr == old(repr) && littleEndian == old(littleEndian)
      ensures position == size == 0 && capacity == baseSize <= |old(Store())| && Store() == old(Store())[..baseSize]
    {
      hide *;
      ValidHas();
      StoreLength();
      RootHas();
      BlockHas(0, 0, baseSize);
      ghost var first := root.ptr[..];
      assert first == root.ptr[0..baseSize] == Store()[..baseSize];
      position, size, capacity := 0, 0, baseSize;
      cur, at, nodes := root, 0, [root];
      root.next := null;
      OneBlockList();
      ValidAgain();
    }

    lemma RootHas()
      requires List()
      ensures nodes != [] && nodes[0] == root && root in repr && root.ptr in repr && this in repr
      ensures root.size == baseSize == root.ptr.Length && 0 * baseSize == 0
    {
    }

    lemma OneBlockList()
      requires nodes == [root] && root.next == null && root.size == baseSize == root.ptr.Length == capacity && baseSize > 0
      requires this in repr && root in repr && root.ptr in repr && position == 0 && at == 0 && cur == root
      ensures Linked() && Owned(nodes, repr) && Store() == root.ptr[..]
    {
      hide Join, Blocks;
      assert nodes[0] == root;
      JoinOne(root.ptr[..]);
      OneBlock();
    }

    lemma OneBlock()
      requires nodes == [root] && Owned(nodes, repr)
      ensures Blocks(nodes, repr) == [root.ptr[..]]
    {
      assert nodes[0] == root && |nodes| == 1;
      hide Blocks;
      var blocks := Blocks(nodes, repr);
      assert blocks[0] == root.ptr[..];
    }

    // ---- scatter and gather ----

    lemma FitsHere(n: nat)
      requires Linked() && position + n <= capacity && 0 < n
      ensures AtShift(position % baseSize) && Fits(at, position % baseSize, n, |nodes|, baseSize)
      ensures cur != null && cur.size == baseSize
    {
      ShiftIs();
    }

    /** The loop of getReadBuffers and getWriteBuffers: the next `n` bytes, block by block. */
    method Views(n: nat) returns (iovs: seq<Iovec>)
      requires Linked() && position + n <= capacity && 0 < n
      ensures AtShift(position % baseSize) && Fits(at, position % baseSize, n, |nodes|, baseSize)
      ensures iovs == Segments(nodes, baseSize, at, position % baseSize, n)
    {
      hide *;
      FitsHere(n);
      LinkedHas();
      var npos: nat := position % baseSize;
      var ncap := cur.size - npos;
      var len: nat, block := n, cur;
      ghost var k: nat := at;
      iovs := [];
      AtShiftFacts(npos);
      AtShiftHas(npos);
      ghost var all := Segments(nodes, baseSize, at, npos, n);
      while len > 0
        invariant Chain(nodes, baseSize)
        invariant len > 0 ==> npos < baseSize && ncap == baseSize - npos && k < |nodes| && block == nodes[k]
        invariant len > 0 ==> Fits(k, npos, len, |nodes|, baseSize)
        invariant all == iovs + if len > 0 then Segments(nodes, baseSize, k, npos, len) else []
        decreases len
      {
        SegmentsStep(nodes, baseSize, k, npos, len);
        if ncap >= len {
          iovs := iovs + [Iovec(block.ptr, npos, len)];
          len := 0;
        } else {
          iovs := iovs + [Iovec(block.ptr, npos, ncap)];
          ChainNext(nodes, baseSize, k);
          len, block, k := len - ncap, block.next, k + 1;
          ChainNext(nodes, baseSize, k);
          ncap, npos := block.size, 0;
        }
      }
    }

    /** getReadBuffers: runs of the blocks that are exactly the next bytes, as many as asked for and filled. */
    method GetReadBuffers(len: nat) returns (n: nat, iovs: seq<Iovec>)
      requires Valid()
      ensures n == Min(len, size - position) && Lengths(iovs) == n
      ensures Inside(iovs, repr) && position + n <= size && Gather(iovs, repr) == Filled()[position..position + n]
    {
      hide *;
      ValidHas();
      FilledIs();
      n := if len > size - position then size - position else len;
      MinIs(len, size - position);
      iovs := [];
      if n == 0 {
        NoSegments(repr);
        return;
      }
      iovs := Views(n);
      AtShiftHas(position % baseSize);
      GatherSegments(at, position % baseSize, n, position);
      ShowsIs(iovs, position, n);
    }

    /** getWriteBuffers: runs of the blocks that are exactly the room for the next `len` bytes. */
    method GetWriteBuffers(len: nat) returns (n: nat, iovs: seq<Iovec>)
      requires Valid()
      modifies repr
      ensures Valid() && position == old(position) && size == old(size) && littleEndian == old(littleEndian)
      ensures capacity == Grown(old(capacity), old(position), len, baseSize)
      ensures old(repr) <= repr && fresh(repr - old(repr))
      ensures old(Store()) <= Store() && Filled() == old(Filled())
      ensures n == len == Lengths(iovs) && position + len <= capacity && Apart(iovs)
      ensures len > 0 ==> AtShift(position % baseSize) && Fits(at, position % baseSize, len, |nodes|, baseSize)
                          && iovs == Segments(nodes, baseSize, at, position % baseSize, len)
      ensures len == 0 ==> iovs == []
    {
      hide *;
      ValidHas();
      FilledIs();
      iovs := [];
      if len == 0 {
        NoSegments(repr);
        GrownNot(capacity, position, 0, baseSize);
        return 0, [];
      }
      AddCapacity(len);
      ValidHas();
      FilledIs();
      iovs := Views(len);
      AtShiftHas(position % baseSize);
      GatherSegments(at, position % baseSize, len, position);
      ShowsIs(iovs, position, len);
      ApartSegments(at, position % baseSize, len);
      n := len;
    }

    /** The runs are the store's bytes from `from` on. */
    ghost predicate Shows(iovs: seq<Iovec>, from: nat, n: nat)
      requires List()
      reads this, repr
    {
      && Inside(iovs, repr) && Lengths(iovs) == n
      && from + n <= |Store()| && Gather(iovs, repr) == Store()[from..from + n]
    }

    lemma ShowsOne(k: nat, shift: nat, m: nat, from: nat)
      requires List() && k < |nodes| && shift + m <= baseSize && from == k * baseSize + shift
      ensures Shows([Iovec(nodes[k].ptr, shift, m)], from, m)
    {
      BlockHas(k, shift, m);
      OneSegment(Iovec(nodes[k].ptr, shift, m), repr);
    }

    lemma ShowsMore(v: Iovec, rest: seq<Iovec>, from: nat, m: nat, n: nat)
      requires List() && Shows([v], from, m) && Shows(rest, from + m, n)
      ensures Shows([v] + rest, from, m + n)
    {
      hide Store;
      assert [v][0] == v;
      FirstSegment(v, rest, repr);
      OneSegment(v, repr);
      assert Store()[from..from + m] + Store()[from + m..from + m + n] == Store()[from..from + m + n];
    }

    /** The runs read in order are the store's bytes. */
    lemma GatherSegments(k: nat, shift: nat, n: nat, from: nat)
      requires List() && shift < baseSize && Fits(k, shift, n, |nodes|, baseSize) && from == k * baseSize + shift
      ensures Shows(Segments(nodes, baseSize, k, shift, n), from, n)
      decreases n
    {
      if n == 0 {
        StoreLength();
        NoSegments(repr);
      } else {
        hide *;
        ListHas();
        SegmentsStep(nodes, baseSize, k, shift, n);
        if n <= baseSize - shift {
          ShowsOne(k, shift, n, from);
        } else {
          var m := baseSize - shift;
          ShowsOne(k, shift, m, from);
          MulNext(k, baseSize);
          GatherSegments(k + 1, 0, n - m, from + m);
          ShowsMore(Iovec(nodes[k].ptr, shift, m), Segments(nodes, baseSize, k + 1, 0, n - m), from, m, n - m);
        }
      }
    }

    lemma ShowsIs(iovs: seq<Iovec>, from: nat, n: nat)
      requires List() && Shows(iovs, from, n)
      ensures Inside(iovs, repr) && Lengths(iovs) == n && from + n <= |Store()| && Gather(iovs, repr) == Store()[from..from + n]
    {
    }

    lemma ListHas()
      requires List()
      ensures Owned(nodes, repr) && baseSize > 0 && Chain(nodes, baseSize) && capacity == |nodes| * baseSize
      ensures forall i :: 0 <= i < |nodes| ==> nodes[i] in repr && nodes[i].ptr in repr && nodes[i].ptr.Length == baseSize
    {
    }

    lemma SegmentBlock(k: nat, shift: nat, n: nat, i: nat)
      requires List() && shift < baseSize && Fits(k, shift, n, |nodes|, baseSize)
      requires i < |Segments(nodes, baseSize, k, shift, n)|
      ensures k + i < |nodes| && Segments(nodes, baseSize, k, shift, n)[i].block == nodes[k + i].ptr
      decreases i
    {
      hide List, Fits;
      ListHas();
      if n > 0 {
        SegmentsStep(nodes, baseSize, k, shift, n);
        if i > 0 {
          SegmentBlock(k + 1, 0, n - (baseSize - shift), i - 1);
        }
      }
    }

    /** No two runs lie in the same block. */
    lemma ApartSegments(k: nat, shift: nat, n: nat)
      requires List() && shift < baseSize && Fits(k, shift, n, |nodes|, baseSize)
      ensures Apart(Segments(nodes, baseSize, k, shift, n))
    {
      hide Segments, Fits;
      var iovs := Segments(nodes, baseSize, k, shift, n);
      forall i, j | 0 <= i < j < |iovs| ensures iovs[i].block != iovs[j].block {
        SegmentBlock(k, shift, n, i);
        SegmentBlock(k, shift, n, j);
      }
    }

    /** What recvmsg does with runs: it fills them in order as far as the bytes it has received go. */
    method Fill(iovs: seq<Iovec>, data: seq<byte>, ghost k0: nat, ghost shift0: nat, ghost n0: nat)
      requires Valid() && shift0 < baseSize && Fits(k0, shift0, n0, |nodes|, baseSize)
      requires iovs == Segments(nodes, baseSize, k0, shift0, n0) && |data| <= n0
      modifies repr
      ensures Valid() && repr == old(repr) && nodes == old(nodes) && littleEndian == old(littleEndian)
      ensures position == old(position) && size == old(size) && capacity == old(capacity)
      ensures at == old(at) && cur == old(cur)
      ensures k0 * baseSize + shift0 + |data| <= |old(Store())|
      ensures Store() == Splice(old(Store()), k0 * baseSize + shift0, data)
    {
      hide *;
      ValidHas();
      LinkedCursorIs();
      FitsIs(k0, shift0, n0, |nodes|, baseSize);
      StoreLength();
      ListHas();
      ghost var from, store := k0 * baseSize + shift0, Store();
      ghost var k: nat, shift: nat, n: nat := k0, shift0, n0;
      var i: nat, done: nat := 0, 0;
      SpliceNothing(store, from);
      while done < |data|
        invariant done <= |data| && i <= |iovs|
        invariant List() && Owned(nodes, repr) && |Store()| == capacity && baseSize > 0
        invariant repr == old(repr) && nodes == old(nodes) && littleEndian == old(littleEndian)
        invariant position == old(position) && size == old(size) && capacity == old(capacity)
        invariant at == old(at) && cur == old(cur)
        invariant from + done <= |store| && Store() == Splice(store, from, data[..done])
        invariant done < |data| ==>
            && shift < baseSize && Fits(k, shift, n, |nodes|, baseSize) && |data| - done <= n
            && k * baseSize + shift == from + done && iovs[i..] == Segments(nodes, baseSize, k, shift, n)
      {
        SegmentsStep(nodes, baseSize, k, shift, n);
        assert iovs[i..][0] == iovs[i] && iovs[i + 1..] == iovs[i..][1..];
        var v := iovs[i];
        var m := if v.len < |data| - done then v.len else |data| - done;
        CopyAt(v.block, k, v.off, data[done..done + m]);
        SpliceOn(store, from, data, done, m);
        StoreLength();
        ListHas();
        MulNext(k, baseSize);
        done, i := done + m, i + 1;
        n, k, shift := n - v.len, k + 1, 0;
      }
      assert data[..done] == data;
      LinkedIs();
      ValidAgain();
    }

    lemma LinkedCursorIs()
      requires Linked()
      ensures at <= |nodes|
      ensures if at == |nodes| then cur == null && position == capacity else cur == nodes[at] && InBlock(position, at, baseSize)
    {
    }
  }

  /** `data` has been written at `at`, in a store that may have grown. */
  predicate Wrote(before: seq<byte>, at: nat, data: seq<byte>, after: seq<byte>) {
    && at <= |before| <= |after| && at + |data| <= |after|
    && after[..at] == before[..at]
    && after[at..at + |data|] == data
    && (at + |data| < |before| ==> after[at + |data|..|before|] == before[at + |data|..])
  }

  /** struct iovec: a run of bytes inside a block. */
  datatype Iovec = Iovec(block: array<byte>, off: nat, len: nat)

  /** `n` bytes from byte `shift` of block `k` on lie within `count` blocks. */
  predicate Fits(k: nat, shift: nat, n: nat, count: nat, b: nat) {
    k * b + shift + n <= count * b
  }

  lemma FitsMore(k: nat, shift: nat, n: nat, count: nat, b: nat)
    requires Fits(k, shift, n, count, b) && shift < b
    ensures 0 < n ==> k < count
    ensures b - shift < n ==> Fits(k + 1, 0, n - (b - shift), count, b)
  {
    MulNext(k, b);
    if count <= k {
      MulMono(count, k, b);
    }
  }

  /** The runs that make up `n` bytes from byte `shift` of block `k` on. */
  function Segments(nodes: seq<Node>, b: nat, k: nat, shift: nat, n: nat): seq<Iovec>
    requires shift < b && Fits(k, shift, n, |nodes|, b)
    decreases n
  {
    FitsMore(k, shift, n, |nodes|, b);
    if n == 0 then []
    else if n <= b - shift then [Iovec(nodes[k].ptr, shift, n)]
    else [Iovec(nodes[k].ptr, shift, b - shift)] + Segments(nodes, b, k + 1, 0, n - (b - shift))
  }

  predicate Inside(iovs: seq<Iovec>, repr: set<object>) {
    forall i :: 0 <= i < |iovs| ==> iovs[i].block in repr && iovs[i].off + iovs[i].len <= iovs[i].block.Length
  }

  predicate Apart(iovs: seq<Iovec>) {
    forall i, j :: 0 <= i < j < |iovs| ==> iovs[i].block != iovs[j].block
  }

  function Lengths(iovs: seq<Iovec>): nat {
    if iovs == [] then 0 else iovs[0].len + Lengths(iovs[1..])
  }

  /** The bytes of the runs one after the other. */
  function Gather(iovs: seq<Iovec>, ghost repr: set<object>): seq<byte>
    requires Inside(iovs, repr)
    reads repr
  {
    if iovs == [] then []
    else iovs[0].block[iovs[0].off..iovs[0].off + iovs[0].len] + Gather(iovs[1..], repr)
  }

  lemma NoSegments(repr: set<object>)
    ensures Inside([], repr) && Lengths([]) == 0 && Gather([], repr) == [] && Apart([])
  {
  }

  lemma FirstSegment(v: Iovec, rest: seq<Iovec>, repr: set<object>)
    requires v.block in repr && v.off + v.len <= v.block.Length && Inside(rest, repr)
    ensures Inside([v] + rest, repr) && Lengths([v] + rest) == v.len + Lengths(rest)
    ensures Gather([v] + rest, repr) == v.block[v.off..v.off + v.len] + Gather(rest, repr)
  {
    assert ([v] + rest)[1..] == rest;
  }

  lemma OneSegment(v: Iovec, repr: set<object>)
    requires v.block in repr && v.off + v.len <= v.block.Length
    ensures Inside([v], repr) && Lengths([v]) == v.len && Gather([v], repr) == v.block[v.off..v.off + v.len]
  {
    NoSegments(repr);
    FirstSegment(v, [], repr);
    assert [v] + [] == [v];
    assert v.block[v.off..v.off + v.len] + [] == v.block[v.off..v.off + v.len];
  }

  lemma FitsIs(k: nat, shift: nat, n: nat, count: nat, b: nat)
    requires Fits(k, shift, n, count, b)
    ensures k * b + shift + n <= count * b
  {
  }

  lemma SegmentsStep(nodes: seq<Node>, b: nat, k: nat, shift: nat, n: nat)
    requires shift < b && Fits(k, shift, n, |nodes|, b) && 0 < n
    ensures k < |nodes|
    ensures n <= b - shift ==> Segments(nodes, b, k, shift, n) == [Iovec(nodes[k].ptr, shift, n)]
    ensures b - shift < n ==>
              && Fits(k + 1, 0, n - (b - shift), |nodes|, b) && k + 1 < |nodes|
              && Segments(nodes, b, k, shift, n)
                 == [Iovec(nodes[k].ptr, shift, b - shift)] + Segments(nodes, b, k + 1, 0, n - (b - shift))
  {
    FitsMore(k, shift, n, |nodes|, b);
    if b - shift < n {
      FitsMore(k + 1, 0, n - (b - shift), |nodes|, b);
    }
  }

  /** A flat byte sequence overwritten, and lengthened if need be, from `at` on. */
  function Overlay(bytes: seq<byte>, at: nat, data: seq<byte>): seq<byte>
    requires at <= |bytes|
  {
    bytes[..at] + data + (if at + |data| < |bytes| then bytes[at + |data|..] else [])
  }

  lemma OverlayNothing(bytes: seq<byte>, at: nat)
    requires at <= |bytes|
    ensures Overlay(bytes, at, []) == bytes
  {
  }

  lemma OverlayMore(bytes: seq<byte>, at: nat, x: seq<byte>, y: seq<byte>)
    requires at <= |bytes|
    ensures at + |x| <= |Overlay(bytes, at, x)|
    ensures Overlay(Overlay(bytes, at, x), at + |x|, y) == Overlay(bytes, at, x + y)
  {
    var one := Overlay(bytes, at, x);
    assert one[..at + |x|] == bytes[..at] + x;
    if at + |x| + |y| < |bytes| {
      assert one[at + |x| + |y|..] == bytes[at + |x| + |y|..];
    }
  }

  /** Writing into the store is writing into the flat sequence of the bytes filled. */
  lemma WriteOverlays(before: seq<byte>, size: nat, at: nat, data: seq<byte>, after: seq<byte>)
    requires Wrote(before, at, data, after) && at <= size <= |before|
    ensures var end := at + |data|;
            after[..if size < end then end else size] == Overlay(before[..size], at, data)
  {
    var end := at + |data|;
    assert before[..size][..at] == before[..at] == after[..at];
    if size <= end {
      assert after[..end] == after[..at] + after[at..end];
    } else {
      WriteInside(before, size, at, data, after);
    }
  }

  lemma WriteInside(before: seq<byte>, size: nat, at: nat, data: seq<byte>, after: seq<byte>)
    requires Wrote(before, at, data, after) && at + |data| < size <= |before|
    ensures after[..size] == before[..at] + data + before[..size][at + |data|..]
  {
    var end := at + |data|;
    var tail, kept := before[end..], after[end..|before|];
    assert after[..size] == after[..at] + after[at..end] + after[end..size];
    assert kept == tail;
    assert after[end..size] == kept[..size - end];
    assert before[..size][end..] == tail[..size - end];
  }

  lemma WroteNothing(store: seq<byte>, at: nat)
    requires at <= |store|
    ensures Wrote(store, at, [], store)
  {
  }

  lemma GrownNot(capacity: nat, position: nat, n: nat, b: nat)
    requires position <= capacity && b > 0
    ensures n <= capacity - position ==> Grown(capacity, position, n, b) == capacity
  {
  }

  lemma SpliceWrote(before: seq<byte>, at: nat, data: seq<byte>, grown: seq<byte>)
    requires before <= grown && at <= |before| && at + |data| <= |grown|
    ensures Wrote(before, at, data, Splice(grown, at, data))
  {
  }

  lemma SpliceOn(store: seq<byte>, at: nat, data: seq<byte>, i: nat, n: nat)
    requires i + n <= |data| && at + i + n <= |store|
    ensures at + i + n <= |Splice(store, at, data[..i])|
    ensures Splice(Splice(store, at, data[..i]), at + i, data[i..i + n]) == Splice(store, at, data[..i + n])
  {
    SpliceMore(store, at, data[..i], data[i..i + n]);
    assert data[..i] + data[i..i + n] == data[..i + n];
  }

  /** What addCapacity makes of the capacity. */
  function Grown(capacity: nat, position: nat, n: nat, b: nat): nat
    requires position <= capacity && b > 0
  {
    if n <= capacity - position then capacity else capacity + CeilDiv(n - (capacity - position), b) * b
  }

  lemma RoomAfter(capacity: nat, position: nat, n: nat, b: nat)
    requires position <= capacity && b > 0 && n > capacity - position
    ensures var count := CeilDiv(n - (capacity - position), b);
            count > 0 && Grown(capacity, position, n, b) == capacity + count * b >= position + n
  {
    CeilDivBounds(n - (capacity - position), b);
  }
}
