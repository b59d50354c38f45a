/**
 The chunked object pool: an intrusive LIFO free list over chunks that are never moved, global indices
 that growth never disturbs, and detection of foreign pointers and double frees by address arithmetic.
 */
module MemPool {
  import opened Types

  /** A pool slot with the object embedded; a pointer to the object is a pointer to its slot. */
  class Node<T> {
    const addr: nat
    var obj: T
    var isFree: bool
    var next: Node?<T>

    constructor (obj: T, addr: nat)
      ensures this.obj == obj && this.addr == addr && isFree && next == null
    {
      this.obj, this.addr, isFree, next := obj, addr, true, null;
    }
  }

  datatype PoolError = ForeignPointer | DoubleFree | OutOfRange

  // ----- chunk layout, as values -----

  /** Global index of each chunk's first slot, and the total: prefix sums of the chunk sizes. */
  ghost predicate GoodOffsets<T>(chunks: seq<seq<Node<T>>>, offsets: seq<nat>, total: nat) {
    && |offsets| == |chunks|
    && (forall c :: 0 <= c < |chunks| ==> |chunks[c]| > 0)
    && (|chunks| > 0 ==> offsets[0] == 0)
    && (forall c :: 0 < c < |chunks| ==> offsets[c] == offsets[c - 1] + |chunks[c - 1]|)
    && total == if |chunks| == 0 then 0 else offsets[|chunks| - 1] + |chunks[|chunks| - 1]|
  }

  /** The coordinates a global index names. */
  ghost predicate Locates<T>(chunks: seq<seq<Node<T>>>, offsets: seq<nat>, c: nat, l: nat, index: nat)
    requires |offsets| == |chunks|
  {
    c < |chunks| && l < |chunks[c]| && offsets[c] + l == index
  }

  lemma {:induction false} OffsetsIncrease<T>(chunks: seq<seq<Node<T>>>, offsets: seq<nat>, total: nat, a: nat, b: nat)
    requires GoodOffsets(chunks, offsets, total) && a < b < |chunks|
    ensures offsets[a] + |chunks[a]| <= offsets[b]
  {
    if a < b - 1 {
      OffsetsIncrease(chunks, offsets, total, a, b - 1);
    }
  }

  /** No two coordinates share a global index. */
  lemma LocationUnique<T>(chunks: seq<seq<Node<T>>>, offsets: seq<nat>, total: nat,
                          c: nat, l: nat, c': nat, l': nat, index: nat)
    requires GoodOffsets(chunks, offsets, total)
    requires Locates(chunks, offsets, c, l, index) && Locates(chunks, offsets, c', l', index)
    ensures c == c' && l == l'
  {
    if c < c' {
      OffsetsIncrease(chunks, offsets, total, c, c');
    } else if c' < c {
      OffsetsIncrease(chunks, offsets, total, c', c);
    }
  }

  /** `slots` lists every slot in the order of the global index. */
  ghost predicate Indexed<T>(chunks: seq<seq<Node<T>>>, offsets: seq<nat>, slots: seq<Node<T>>)
    requires |offsets| == |chunks|
  {
    forall c :: 0 <= c < |chunks| ==> IsStretch(slots, offsets[c], chunks[c])
  }

  ghost predicate IsStretch<T>(slots: seq<Node<T>>, from: nat, chunk: seq<Node<T>>) {
    from + |chunk| <= |slots| && slots[from..from + |chunk|] == chunk
  }

  lemma SlotOf<T>(chunks: seq<seq<Node<T>>>, offsets: seq<nat>, slots: seq<Node<T>>, c: nat, l: nat)
    requires |offsets| == |chunks| && Indexed(chunks, offsets, slots) && c < |chunks| && l < |chunks[c]|
    ensures offsets[c] + l < |slots| && slots[offsets[c] + l] == chunks[c][l]
  {
    assert IsStretch(slots, offsets[c], chunks[c]);
    assert slots[offsets[c]..offsets[c] + |chunks[c]|][l] == slots[offsets[c] + l];
  }

  lemma IndexedGrow<T>(chunks: seq<seq<Node<T>>>, offsets: seq<nat>, slots: seq<Node<T>>, chunk: seq<Node<T>>)
    requires |offsets| == |chunks| && Indexed(chunks, offsets, slots)
    ensures Indexed(chunks + [chunk], offsets + [|slots|], slots + chunk)
  {
    var all, offsets', slots' := chunks + [chunk], offsets + [|slots|], slots + chunk;
    forall c | 0 <= c < |all|
      ensures IsStretch(slots', offsets'[c], all[c])
    {
      if c < |chunks| {
        assert IsStretch(slots, offsets[c], chunks[c]);
        assert slots'[offsets[c]..offsets[c] + |chunks[c]|] == slots[offsets[c]..offsets[c] + |chunks[c]|];
      }
    }
  }

  /** Each chunk is contiguous: slot `l` lies `l` node sizes after the chunk's base. */
  ghost predicate Contiguous<T>(chunk: seq<Node<T>>, nodeSize: nat) {
    forall l :: 0 <= l < |chunk| ==> chunk[l].addr == chunk[0].addr + l * nodeSize
  }

  /** The byte range of a new chunk meets no existing chunk. */
  predicate Apart<T>(chunks: seq<seq<Node<T>>>, base: nat, count: nat, nodeSize: nat)
    requires forall c :: 0 <= c < |chunks| ==> |chunks[c]| > 0
  {
    forall c :: 0 <= c < |chunks| ==>
      || base + count * nodeSize <= chunks[c][0].addr
      || chunks[c][0].addr + |chunks[c]| * nodeSize <= base
  }

  ghost predicate GoodAddresses<T>(chunks: seq<seq<Node<T>>>, nodeSize: nat)
    requires forall c :: 0 <= c < |chunks| ==> |chunks[c]| > 0
  {
    && nodeSize > 0
    && (forall c :: 0 <= c < |chunks| ==> Contiguous(chunks[c], nodeSize))
    && (forall c :: 0 <= c < |chunks| ==> Apart(chunks[..c], chunks[c][0].addr, |chunks[c]|, nodeSize))
  }

  lemma {:induction false} SomeBaseIsApart<T>(chunks: seq<seq<Node<T>>>, count: nat, nodeSize: nat) returns (base: nat)
    requires forall c :: 0 <= c < |chunks| ==> |chunks[c]| > 0
    ensures base > 0 && forall c :: 0 <= c < |chunks| ==> chunks[c][0].addr + |chunks[c]| * nodeSize <= base
  {
    if chunks == [] {
      base := 1;
    } else {
      var n := |chunks| - 1;
      base := SomeBaseIsApart(chunks[..n], count, nodeSize);
      var end := chunks[n][0].addr + |chunks[n]| * nodeSize;
      base := if base < end then end else base;
    }
  }

  lemma OffsetsGrow<T>(chunks: seq<seq<Node<T>>>, offsets: seq<nat>, total: nat, chunk: seq<Node<T>>)
    requires GoodOffsets(chunks, offsets, total) && |chunk| > 0
    ensures GoodOffsets(chunks + [chunk], offsets + [total], total + |chunk|)
  {
  }

  lemma AddressesGrow<T>(chunks: seq<seq<Node<T>>>, nodeSize: nat, chunk: seq<Node<T>>)
    requires forall c :: 0 <= c < |chunks| ==> |chunks[c]| > 0
    requires GoodAddresses(chunks, nodeSize) && |chunk| > 0 && Contiguous(chunk, nodeSize)
    requires Apart(chunks, chunk[0].addr, |chunk|, nodeSize)
    ensures GoodAddresses(chunks + [chunk], nodeSize)
  {
    var all := chunks + [chunk];
    forall c | 0 <= c < |all|
      ensures Contiguous(all[c], nodeSize) && Apart(all[..c], all[c][0].addr, |all[c]|, nodeSize)
    {
      assert all[..c] == chunks[..c];
    }
  }

  lemma MultipleFacts(l: nat, count: nat, nodeSize: nat)
    requires nodeSize > 0
    ensures l * nodeSize % nodeSize == 0 && l * nodeSize / nodeSize == l
    ensures l < count <==> l * nodeSize < count * nodeSize
    ensures l < count ==> (l + 1) * nodeSize <= count * nodeSize
  {
    DivMultiple(l, nodeSize);
    MultipleOrder(l, count, nodeSize);
    if l < count {
      MultipleOrder(l, l + 1, nodeSize);
      MultipleMonotone(l + 1, count, nodeSize);
    }
  }

  lemma DivMultiple(l: nat, n: nat)
    requires n > 0
    ensures l * n % n == 0 && l * n / n == l
  {
    assert l * n == l * n + 0;
    DivUnique(l * n, n, l);
  }

  lemma DivUnique(x: nat, n: nat, q: nat)
    requires n > 0 && q * n <= x < (q + 1) * n
    ensures x / n == q && x % n == x - q * n
  {
    var d := x / n;
    assert x == d * n + x % n;
    if d < q {
      MultipleMonotone(d + 1, q, n);
    } else if d > q {
      MultipleMonotone(q + 1, d, n);
    }
  }

  lemma MultipleMonotone(a: nat, b: nat, n: nat)
    requires a <= b
    ensures a * n <= b * n
  {
    assert b * n == a * n + (b - a) * n;
  }

  lemma MultipleOrder(a: nat, b: nat, n: nat)
    requires n > 0
    ensures a < b <==> a * n < b * n
  {
    if a < b {
      MultipleMonotone(a + 1, b, n);
    } else {
      MultipleMonotone(b, a, n);
    }
  }

  // ----- the free list, as a sequence -----

  /** What follows position `k` of a chain that ends in `tail`. */
  ghost function After<T>(list: seq<Node<T>>, k: nat, tail: Node?<T>): Node?<T>
    requires k < |list|
  {
    if k + 1 < |list| then list[k + 1] else tail
  }

  ghost predicate Linked<T>(head: Node?<T>, list: seq<Node<T>>)
    reads (set n | n in list)`next
  {
    && head == (if list == [] then null else list[0])
    && (forall k :: 0 <= k < |list| ==> list[k].next == After(list, k, null))
  }

  ghost predicate Distinct<T>(s: seq<Node<T>>) {
    forall i, j :: 0 <= i < j < |s| ==> s[i] != s[j]
  }

  lemma DistinctConcat<T>(a: seq<Node<T>>, b: seq<Node<T>>)
    requires Distinct(a) && Distinct(b)
    requires forall i, j :: 0 <= i < |a| && 0 <= j < |b| ==> a[i] != b[j]
    ensures Distinct(a + b)
  {
  }

  lemma LinkedPrepend<T>(chunk: seq<Node<T>>, head: Node?<T>, list: seq<Node<T>>)
    requires chunk != [] && Linked(head, list)
    requires forall l :: 0 <= l < |chunk| ==> chunk[l].next == After(chunk, l, head)
    ensures Linked(chunk[0], chunk + list)
  {
    var all := chunk + list;
    forall k | 0 <= k < |all|
      ensures all[k].next == After(all, k, null)
    {
      if k >= |chunk| {
        assert all[k] == list[k - |chunk|];
      }
    }
  }

  lemma {:induction false} DistinctCount<T>(s: seq<Node<T>>)
    requires Distinct(s)
    ensures |(set n | n in s)| == |s|
  {
    if s != [] {
      var t, last := s[..|s| - 1], s[|s| - 1];
      DistinctCount(t);
      assert (set n | n in s) == (set n | n in t) + {last};
    }
  }

  /** kMaxChunkSize. */
  const MAX_CHUNK: nat := 4000000

  const DEFAULT_CAPACITY: nat := 256

  class MemPool<T(0)> {
    const initialCapacity: nat
    const nodeSize: nat
    var totalCapacity: nat
    var chunks: seq<seq<Node<T>>>
    var chunkOffsets: seq<nat>
    var freeListHead: Node?<T>
    /** Every slot, in the order of the global index. */
    ghost var slots: seq<Node<T>>
    /** The free slots, most recently freed first. */
    ghost var freeList: seq<Node<T>>

    ghost predicate Layout()
      reads this
    {
      && initialCapacity > 0
      && GoodOffsets(chunks, chunkOffsets, totalCapacity) && GoodAddresses(chunks, nodeSize)
      && |slots| == totalCapacity && Distinct(slots)
      && Indexed(chunks, chunkOffsets, slots)
    }

    ghost function Slots(): set<Node<T>>
      reads this
    {
      set n | n in slots
    }

    ghost predicate Valid()
      reads this, Slots()`isFree, Slots()`next
    {
      && Layout()
      && (forall n :: n in freeList ==> n in Slots())
      && Distinct(freeList) && Linked(freeListHead, freeList)
      && (forall n :: n in Slots() ==> (n.isFree <==> n in freeList))
    }

    /** The slots whose objects have been handed out and not returned. */
    ghost function Live(): set<Node<T>>
      reads this, Slots()`isFree
    {
      set n | n in Slots() && !n.isFree
    }

    constructor (initial: nat, nodeSize: nat, blank: T)
      requires nodeSize > 0
      ensures Valid() && fresh(Slots()) && Live() == {}
      ensures totalCapacity == initialCapacity == (if initial > 0 then initial else DEFAULT_CAPACITY)
      ensures this.nodeSize == nodeSize
    {
      initialCapacity := if initial > 0 then initial else DEFAULT_CAPACITY;
      this.nodeSize := nodeSize;
      totalCapacity, chunks, chunkOffsets, freeListHead := 0, [], [], null;
      slots, freeList := [], [];
      new;
      AddChunk(initialCapacity, blank);
    }

    /** Storage for `count` default-constructed nodes, wherever the system allocator finds room. */
    method NewChunk(count: nat, blank: T) returns (chunk: seq<Node<T>>)
      requires Layout() && count > 0
      ensures |chunk| == count && Distinct(chunk) && Contiguous(chunk, nodeSize)
      ensures Apart(chunks, chunk[0].addr, count, nodeSize)
      ensures forall l :: 0 <= l < count ==> fresh(chunk[l]) && chunk[l].isFree && chunk[l].next == null
    {
      ghost var room := SomeBaseIsApart(chunks, count, nodeSize);
      assert Apart(chunks, room, count, nodeSize);
      var base: nat :| Apart(chunks, base, count, nodeSize);
      chunk := [];
      while |chunk| < count
        invariant |chunk| <= count && Distinct(chunk)
        invariant forall l :: 0 <= l < |chunk| ==> chunk[l].addr == base + l * nodeSize
        invariant forall l :: 0 <= l < |chunk| ==> fresh(chunk[l]) && chunk[l].isFree && chunk[l].next == null
      {
        var n := new Node<T>(blank, base + |chunk| * nodeSize);
        chunk := chunk + [n];
      }
    }

    /** Chain a chunk's nodes in order, the last one to `tail`. */
    static method LinkChunk(chunk: seq<Node<T>>, tail: Node?<T>)
      requires chunk != [] && Distinct(chunk)
      modifies (set n | n in chunk)`next
      ensures forall l :: 0 <= l < |chunk| ==> chunk[l].next == After(chunk, l, tail)
    {
      var i := 0;
      while i + 1 < |chunk|
        invariant 0 <= i < |chunk|
        invariant forall l :: 0 <= l < i ==> chunk[l].next == chunk[l + 1]
      {
        chunk[i].next := chunk[i + 1];
        i := i + 1;
      }
      chunk[|chunk| - 1].next := tail;
    }

    /** addChunk: the new slots go in front of the free list, in index order. */
    method AddChunk(count: nat, blank: T)
      requires Valid() && count > 0
      modifies this
      ensures Valid()
      ensures fresh(Slots() - old(Slots()))
      ensures old(slots) <= slots && |slots| == |old(slots)| + count && old(chunks) <= chunks
      ensures freeList == slots[|old(slots)|..] + old(freeList)
    {
      var chunk := NewChunk(count, blank);
      LinkChunk(chunk, freeListHead);
      AttachChunk(chunk);
    }

    lemma SizesPositive()
      requires Layout()
      ensures |chunkOffsets| == |chunks| && forall c :: 0 <= c < |chunks| ==> |chunks[c]| > 0
    {
    }

    method AttachChunk(chunk: seq<Node<T>>)
      requires Valid() && chunk != [] && Distinct(chunk) && Contiguous(chunk, nodeSize)
      requires Apart(chunks, chunk[0].addr, |chunk|, nodeSize)
      requires forall l :: 0 <= l < |chunk| ==> chunk[l] !in Slots() && chunk[l].isFree
      requires forall l :: 0 <= l < |chunk| ==> chunk[l].next == After(chunk, l, freeListHead)
      modifies this
      ensures Valid()
      ensures slots == old(slots) + chunk && freeList == chunk + old(freeList) && chunks == old(chunks) + [chunk]
    {
      hide GoodOffsets, GoodAddresses, Indexed, Distinct, Linked, Contiguous, Apart, After;
      SizesPositive();
      OffsetsGrow(chunks, chunkOffsets, totalCapacity, chunk);
      AddressesGrow(chunks, nodeSize, chunk);
      IndexedGrow(chunks, chunkOffsets, slots, chunk);
      DistinctConcat(slots, chunk);
      DistinctConcat(chunk, freeList);
      LinkedPrepend(chunk, freeListHead, freeList);
      chunks := chunks + [chunk];
      chunkOffsets := chunkOffsets + [totalCapacity];
      freeListHead := chunk[0];
      totalCapacity := totalCapacity + |chunk|;
      slots := slots + chunk;
      freeList := chunk + freeList;
    }

    /** The size the next grow() adds: capacity doubles, up to the chunk cap. */
    function GrowthSize(): nat
      reads this
    {
      Min(MAX_CHUNK, if initialCapacity > totalCapacity then initialCapacity else totalCapacity)
    }

    /** Growing always yields a free slot, and moves nothing. */
    method Grow(blank: T)
      requires Valid()
      modifies this
      ensures Valid()
      ensures fresh(Slots() - old(Slots()))
      ensures old(slots) <= slots && old(chunks) <= chunks
      ensures var wanted := if initialCapacity > old(totalCapacity) then initialCapacity else old(totalCapacity);
              |slots| == |old(slots)| + if wanted > 4_000_000 then 4_000_000 else wanted
      ensures freeList == slots[|old(slots)|..] + old(freeList) && freeList != []
    {
      AddChunk(GrowthSize(), blank);
    }

    /** allocate: pop the free list, growing first when it is empty, and construct `value` in place. */
    method Allocate(value: T) returns (p: Node<T>)
      requires Valid()
      modifies this, Slots()`isFree, Slots()`next, Slots()`obj
      ensures Valid()
      ensures old(slots) <= slots && old(chunks) <= chunks && fresh(Slots() - old(Slots()))
      ensures p !in old(Live()) && Live() == old(Live()) + {p}
      ensures p.obj == value && forall n :: n in old(Slots()) && n != p ==> n.obj == old(n.obj)
    {
      hide GoodOffsets, GoodAddresses, Indexed, Distinct, Linked, After;
      HeadOfFreeList();
      if freeListHead == null {
        Grow(value);
        HeadOfFreeList();
      }
      p := freeListHead;
      PopFreeList(p, value);
    }

    lemma HeadOfFreeList()
      requires Valid()
      ensures freeListHead == null <==> freeList == []
      ensures freeListHead != null ==> freeListHead in Slots()
    {
    }

    method PopFreeList(p: Node<T>, value: T)
      requires Valid() && freeListHead == p
      modifies this`freeListHead, this`freeList, p`next, p`isFree, p`obj
      ensures Valid()
      ensures freeList == old(freeList)[1..]
      ensures p !in old(Live()) && Live() == old(Live()) + {p} && p.obj == value
    {
      assert freeList[0] == p && p in freeList;
      assert freeListHead.next == After(freeList, 0, null);
      freeListHead := p.next;
      freeList := freeList[1..];
      p.next := null;
      p.isFree := false;
      p.obj := value;
    }

    /** deallocateImpl: locate the pointer by address arithmetic, then push its slot on the free list. */
    method Deallocate(p: Node?<T>) returns (r: Result<(), PoolError>)
      requires Valid()
      requires p != null ==> forall n :: n in Slots() && n.addr == p.addr ==> n == p
      modifies this`freeListHead, this`freeList, Slots()`isFree, Slots()`next
      ensures Valid()
      ensures r == if p == null then Ok(())
                   else if p !in old(Slots()) then Err(ForeignPointer)
                   else if p !in old(Live()) then Err(DoubleFree)
                   else Ok(())
      ensures Live() == if p != null then old(Live()) - {p} else old(Live())
      ensures p == null || r.Err? ==> freeList == old(freeList)
      ensures p != null && r.Ok? ==> freeList == [p] + old(freeList)
    {
      if p == null {
        return Ok(());
      }
      var freed := Find(p);
      if freed == null {
        return Err(ForeignPointer);
      }
      if freed.isFree {
        return Err(DoubleFree);
      }
      PushFreeList(freed);
      return Ok(());
    }

    method PushFreeList(p: Node<T>)
      requires Valid() && p in Live()
      modifies this`freeListHead, this`freeList, p`isFree, p`next
      ensures Valid() && freeList == [p] + old(freeList) && Live() == old(Live()) - {p}
    {
      assert p !in freeList;
      DistinctConcat([p], freeList);
      p.next := freeListHead;
      freeListHead := p;
      p.isFree := true;
      freeList := [p] + freeList;
      LinkedPush(p, freeList[1..]);
    }

    lemma LinkedPush(p: Node<T>, list: seq<Node<T>>)
      requires Linked(p.next, list)
      ensures Linked(p, [p] + list)
    {
      var all := [p] + list;
      forall k | 0 <= k < |all|
        ensures all[k].next == After(all, k, null)
      {
        if k > 0 {
          assert all[k] == list[k - 1];
        }
      }
    }

    /** The slot a pointer designates: its byte offset in some chunk is a whole number of nodes. */
    method Find(p: Node<T>) returns (found: Node?<T>)
      requires Layout()
      requires forall n :: n in Slots() && n.addr == p.addr ==> n == p
      ensures found == if p in Slots() then p else null
    {
      var c := 0;
      while c < |chunks|
        invariant 0 <= c <= |chunks|
        invariant forall k :: 0 <= k < c ==> p !in chunks[k]
      {
        var chunk := chunks[c];
        var base := chunk[0].addr;
        ChunkAddresses(c, p);
        if base <= p.addr < base + |chunk| * nodeSize && (p.addr - base) % nodeSize == 0 {
          var idx := (p.addr - base) / nodeSize;
          if idx < |chunk| && chunk[idx].addr == p.addr {
            SlotOf(chunks, chunkOffsets, slots, c, idx);
            return chunk[idx];
          }
        }
        c := c + 1;
      }
      SlotsAreChunks();
      return null;
    }

    /** A slot of chunk `c` sits inside the chunk's address range, a whole number of nodes from its base. */
    lemma ChunkAddresses(c: nat, p: Node<T>)
      requires Layout() && c < |chunks|
      ensures p in chunks[c] ==>
                var off := p.addr - chunks[c][0].addr;
                && 0 <= off < |chunks[c]| * nodeSize && off % nodeSize == 0
                && off / nodeSize < |chunks[c]| && chunks[c][off / nodeSize] == p
    {
      if p in chunks[c] {
        var l :| 0 <= l < |chunks[c]| && chunks[c][l] == p;
        assert Contiguous(chunks[c], nodeSize);
        MultipleFacts(l, |chunks[c]|, nodeSize);
      }
    }

    lemma SlotsAreChunks()
      requires Layout()
      ensures forall n :: n in Slots() ==> exists c :: 0 <= c < |chunks| && n in chunks[c]
    {
      forall i | 0 <= i < |slots|
        ensures exists c :: 0 <= c < |chunks| && slots[i] in chunks[c]
      {
        var c, l := Locate(i);
        SlotOf(chunks, chunkOffsets, slots, c, l);
        assert chunks[c][l] == slots[i];
      }
    }

    lemma Locate(i: nat) returns (c: nat, l: nat)
      requires Layout() && i < totalCapacity
      ensures Locates(chunks, chunkOffsets, c, l, i)
    {
      c := |chunks| - 1;
      while chunkOffsets[c] > i
        invariant 0 <= c < |chunks|
        invariant i < chunkOffsets[c] + |chunks[c]|
      {
        c := c - 1;
      }
      l := i - chunkOffsets[c];
    }

    /** resolveIndex: binary search of the chunk offsets. */
    method ResolveIndex(idx: nat) returns (r: Result<(nat, nat), PoolError>)
      requires Layout()
      ensures idx >= totalCapacity ==> r == Err(OutOfRange)
      ensures idx < totalCapacity ==> r.Ok? && Locates(chunks, chunkOffsets, r.value.0, r.value.1, idx)
      ensures idx < totalCapacity ==>
                forall c: nat, l: nat :: Locates(chunks, chunkOffsets, c, l, idx) ==> r.value == (c, l)
    {
      if idx >= totalCapacity {
        return Err(OutOfRange);
      }
      var lo, hi := 0, |chunks|;
      while lo + 1 < hi
        invariant 0 <= lo < hi <= |chunks|
        invariant chunkOffsets[lo] <= idx
        invariant hi < |chunks| ==> idx < chunkOffsets[hi]
      {
        var mid := lo + (hi - lo) / 2;
        if chunkOffsets[mid] <= idx {
          lo := mid;
        } else {
          hi := mid;
        }
      }
      forall c: nat, l: nat | Locates(chunks, chunkOffsets, c, l, idx)
        ensures (c, l) == (lo, idx - chunkOffsets[lo])
      {
        LocationUnique(chunks, chunkOffsets, totalCapacity, c, l, lo, idx - chunkOffsets[lo], idx);
      }
      return Ok((lo, idx - chunkOffsets[lo]));
    }

    /** get: the object with a global index. */
    method Get(idx: nat) returns (r: Result<Node<T>, PoolError>)
      requires Layout()
      ensures r == if idx < totalCapacity then Ok(slots[idx]) else Err(OutOfRange)
    {
      var at := ResolveIndex(idx);
      if at.Err? {
        return Err(at.error);
      }
      SlotOf(chunks, chunkOffsets, slots, at.value.0, at.value.1);
      return Ok(chunks[at.value.0][at.value.1]);
    }

    /** A pointer into the address range of chunk `c`. */
    ghost predicate Inside(c: nat, addr: nat)
      requires c < |chunks| && |chunks[c]| > 0
      reads this
    {
      chunks[c][0].addr <= addr < chunks[c][0].addr + |chunks[c]| * nodeSize
    }

    /** Whole nodes from the chunk's base to the address, behind the chunks before it. */
    ghost function IndexInside(c: nat, addr: nat): nat
      requires Layout() && c < |chunks| && Inside(c, addr)
      reads this
    {
      QuotientNat(addr - chunks[c][0].addr, nodeSize);
      chunkOffsets[c] + (addr - chunks[c][0].addr) / nodeSize
    }

    lemma IndexOfInside(c: nat, addr: nat)
      requires Layout() && c < |chunks| && Inside(c, addr)
      ensures IndexInside(c, addr) == chunkOffsets[c] + (addr - chunks[c][0].addr) / nodeSize
    {
    }

    /** An address lies in the range of one chunk at most. */
    lemma InsideOnce(c: nat, addr: nat)
      requires Layout() && c < |chunks| && Inside(c, addr)
      ensures forall d: nat :: d < |chunks| && Inside(d, addr) ==> d == c
    {
      forall d: nat | d < |chunks| && Inside(d, addr)
        ensures d == c
      {
        RangesApart(c, d);
      }
    }

    /** getIndex: the chunk whose address range holds the pointer gives its global index. */
    method GetIndex(p: Node<T>) returns (r: Result<nat, PoolError>)
      requires Layout()
      ensures p in Slots() ==> r.Ok? && r.value < |slots| && slots[r.value] == p
      ensures r.Err? ==> r.error == ForeignPointer && p !in Slots()
      ensures r.Err? <==> forall c: nat :: c < |chunks| ==> !Inside(c, p.addr)
      ensures forall c: nat :: c < |chunks| && Inside(c, p.addr) ==> r == Ok(IndexInside(c, p.addr))
    {
      hide GoodOffsets, GoodAddresses, Indexed, Distinct, IndexInside;
      SizesPositive();
      var c := 0;
      while c < |chunks|
        invariant 0 <= c <= |chunks|
        invariant forall k :: 0 <= k < c ==> p !in chunks[k]
        invariant forall k: nat :: k < c ==> !Inside(k, p.addr)
      {
        var base := chunks[c][0].addr;
        RangeFindsIndex(c, p);
        if base <= p.addr < base + |chunks[c]| * nodeSize {
          assert Inside(c, p.addr);
          InsideOnce(c, p.addr);
          IndexOfInside(c, p.addr);
          return Ok(chunkOffsets[c] + (p.addr - base) / nodeSize);
        }
        c := c + 1;
      }
      SlotsAreChunks();
      return Err(ForeignPointer);
    }

    /** For a slot of this pool, being in a chunk's address range and being in the chunk are the same. */
    lemma RangeFindsIndex(c: nat, p: Node<T>)
      requires Layout() && c < |chunks|
      ensures var base := chunks[c][0].addr;
              if base <= p.addr < base + |chunks[c]| * nodeSize then
                (p.addr - base) / nodeSize >= 0
                && (p in Slots() ==>
                      var i := chunkOffsets[c] + (p.addr - base) / nodeSize; i < |slots| && slots[i] == p)
              else p !in chunks[c]
    {
      hide GoodAddresses, Indexed, Distinct, Contiguous, Apart;
      SizesPositive();
      ChunkAddresses(c, p);
      var base := chunks[c][0].addr;
      if base <= p.addr < base + |chunks[c]| * nodeSize {
        InOneChunk(c, p);
        QuotientNat(p.addr - base, nodeSize);
        if p in chunks[c] {
          SlotOf(chunks, chunkOffsets, slots, c, (p.addr - base) / nodeSize);
        }
      }
    }

    lemma QuotientNat(x: nat, n: nat)
      requires n > 0
      ensures x / n >= 0
    {
    }

    /** Chunk address ranges are disjoint, so a slot found in one range belongs to that chunk. */
    lemma InOneChunk(c: nat, p: Node<T>)
      requires Layout() && c < |chunks|
      requires chunks[c][0].addr <= p.addr < chunks[c][0].addr + |chunks[c]| * nodeSize
      ensures p in Slots() ==> p in chunks[c]
    {
      if p in Slots() {
        SlotsAreChunks();
        var d :| 0 <= d < |chunks| && p in chunks[d];
        ChunkAddresses(d, p);
        RangesApart(c, d);
      }
    }

    lemma RangesApart(c: nat, d: nat)
      requires Layout() && c < |chunks| && d < |chunks|
      ensures c != d ==>
                || chunks[c][0].addr + |chunks[c]| * nodeSize <= chunks[d][0].addr
                || chunks[d][0].addr + |chunks[d]| * nodeSize <= chunks[c][0].addr
    {
      if d < c {
        assert Apart(chunks[..c], chunks[c][0].addr, |chunks[c]|, nodeSize);
        assert chunks[..c][d] == chunks[d];
      } else if c < d {
        assert Apart(chunks[..d], chunks[d][0].addr, |chunks[d]|, nodeSize);
        assert chunks[..d][c] == chunks[c];
      }
    }

    /** No two slots of a pool share an address. */
    lemma AddressesDistinct(n: Node<T>, m: Node<T>)
      requires Layout() && n in Slots() && m in Slots() && n.addr == m.addr
      ensures n == m
    {
      SlotsAreChunks();
      var c :| 0 <= c < |chunks| && n in chunks[c];
      ChunkAddresses(c, n);
      InOneChunk(c, m);
      ChunkAddresses(c, m);
    }

    /** Every slot is either free or live: the two counts add up to the capacity. */
    lemma FreePlusLive()
      requires Valid()
      ensures |freeList| + |Live()| == totalCapacity
    {
      var free := set n | n in freeList;
      DistinctCount(freeList);
      DistinctCount(slots);
      assert Slots() == free + Live() && free !! Live();
    }

    /** deallocate by global index. */
    method DeallocateIndex(idx: nat) returns (r: Result<(), PoolError>)
      requires Valid()
      modifies this`freeListHead, this`freeList, Slots()`isFree, Slots()`next
      ensures Valid()
      ensures idx >= totalCapacity ==> r == Err(OutOfRange) && Live() == old(Live())
      ensures idx < totalCapacity ==>
                && r == (if slots[idx] in old(Live()) then Ok(()) else Err(DoubleFree))
                && Live() == old(Live()) - {slots[idx]}
    {
      var at := Get(idx);
      if at.Err? {
        return Err(at.error);
      }
      AddressIsOwn(at.value);
      r := Deallocate(at.value);
    }

    lemma AddressIsOwn(p: Node<T>)
      requires Valid() && p in Slots()
      ensures forall n :: n in Slots() && n.addr == p.addr ==> n == p
    {
      forall n | n in Slots() && n.addr == p.addr
        ensures n == p
      {
        AddressesDistinct(n, p);
      }
    }
  }
}
