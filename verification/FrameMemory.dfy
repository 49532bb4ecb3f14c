/** Frame memory as ranges of addresses: a heap that lends blocks to tags, allocators that move a cursor
    through a block, and the return of everything a tag borrowed. */
module FrameMemory {
  import opened Alignments
  import opened Results

  // --- the heap -------------------------------------------------------------------------------------

  /** A block or large allocation: its header lies at the base, its usable area after it. */
  datatype Block = Block(base: nat, total: nat, header: nat, tag: nat, large: bool)
  {
    function End(): nat { base + total }

    function Usable(): nat { base + header }
  }

  predicate Disjoint(a: Block, b: Block) {
    a.End() <= b.base || b.End() <= a.base
  }

  datatype Config = Config(blockSize: nat, blockAlignment: nat, headerSize: nat)
  {
    function HeaderBytes(): nat
      requires blockAlignment > 0
    {
      AlignUp(headerSize, blockAlignment)
    }

    ghost predicate Valid() {
      IsPowerOfTwo(blockAlignment) && blockAlignment > 0 && Aligned(blockSize, blockAlignment) && headerSize > 0 && blockSize > HeaderBytes()
    }
  }

  /** mFreeList and mUsedList, head first, and mStats. */
  datatype Heap = Heap(free: seq<Block>, used: seq<Block>, freeBlocks: nat, usedBlocks: nat, largeAllocations: nat)

  predicate BlockOk(cfg: Config, b: Block)
    requires cfg.blockAlignment > 0
  {
    && b.total > b.header && Aligned(b.base, cfg.blockAlignment)
    && (!b.large ==> b.total == cfg.blockSize && b.header == cfg.HeaderBytes())
  }

  function LargeCount(used: seq<Block>): nat {
    if used == [] then 0 else (if used[0].large then 1 else 0) + LargeCount(used[1..])
  }

  /** All memory the heap holds is separate, and the statistics are the list lengths. */
  ghost predicate HeapOk(cfg: Config, h: Heap)
    requires cfg.blockAlignment > 0
  {
    && (forall i :: 0 <= i < |h.free| ==> BlockOk(cfg, h.free[i]) && !h.free[i].large)
    && (forall i :: 0 <= i < |h.used| ==> BlockOk(cfg, h.used[i]))
    && (forall i, j :: 0 <= i < j < |h.free| ==> Disjoint(h.free[i], h.free[j]))
    && (forall i, j :: 0 <= i < j < |h.used| ==> Disjoint(h.used[i], h.used[j]))
    && (forall i, j :: 0 <= i < |h.free| && 0 <= j < |h.used| ==> Disjoint(h.free[i], h.used[j]))
    && h.freeBlocks == |h.free| && h.largeAllocations == LargeCount(h.used) && h.usedBlocks + h.largeAllocations == |h.used|
  }

  /** What the backing allocator promises: aligned memory that nobody holds. */
  predicate Fresh(h: Heap, base: nat, total: nat) {
    && (forall i :: 0 <= i < |h.free| ==> h.free[i].End() <= base || base + total <= h.free[i].base)
    && (forall i :: 0 <= i < |h.used| ==> h.used[i].End() <= base || base + total <= h.used[i].base)
  }

  /** AcquireBlock with the head of the free list, or with new memory. */
  function Acquired(cfg: Config, h: Heap, tag: nat, base: nat): Heap
    requires cfg.blockAlignment > 0
  {
    if h.free != [] then
      h.(free := h.free[1..], freeBlocks := if h.freeBlocks > 0 then h.freeBlocks - 1 else 0,
         used := [h.free[0].(tag := tag)] + h.used, usedBlocks := h.usedBlocks + 1)
    else h.(used := [Block(base, cfg.blockSize, cfg.HeaderBytes(), tag, false)] + h.used, usedBlocks := h.usedBlocks + 1)
  }

  lemma AcquiredOk(cfg: Config, h: Heap, tag: nat, base: nat)
    requires cfg.Valid() && HeapOk(cfg, h)
    requires h.free == [] ==> Fresh(h, base, cfg.blockSize) && Aligned(base, cfg.blockAlignment)
    ensures HeapOk(cfg, Acquired(cfg, h, tag, base))
  {
    hide AlignUp, IsPowerOfTwo;
    var g := Acquired(cfg, h, tag, base);
    assert g.used[1..] == h.used;
  }

  function LargeHeader(cfg: Config, alignment: nat): nat
    requires cfg.blockAlignment > 0
  {
    AlignUp(cfg.headerSize, LargeAlignment(cfg, alignment))
  }

  function LargeAlignment(cfg: Config, alignment: nat): nat {
    if alignment > cfg.blockAlignment then alignment else cfg.blockAlignment
  }

  function AcquiredLarge(cfg: Config, h: Heap, tag: nat, size: nat, alignment: nat, base: nat): Heap
    requires cfg.blockAlignment > 0
  {
    h.(used := [Block(base, LargeHeader(cfg, alignment) + size, LargeHeader(cfg, alignment), tag, true)] + h.used,
       largeAllocations := h.largeAllocations + 1)
  }

  lemma AcquiredLargeOk(cfg: Config, h: Heap, tag: nat, size: nat, alignment: nat, base: nat)
    requires cfg.Valid() && HeapOk(cfg, h) && IsPowerOfTwo(alignment) && size > 0
    requires Fresh(h, base, LargeHeader(cfg, alignment) + size) && Aligned(base, LargeAlignment(cfg, alignment))
    ensures HeapOk(cfg, AcquiredLarge(cfg, h, tag, size, alignment, base))
    ensures alignment > 0 && Aligned(base + LargeHeader(cfg, alignment), alignment)
  {
    var wide := LargeAlignment(cfg, alignment);
    AlignedSmaller(base, cfg.blockAlignment, wide);
    AlignUpBounds(cfg.headerSize, wide);
    AlignedSum(base, LargeHeader(cfg, alignment), wide);
    AlignedSmaller(base + LargeHeader(cfg, alignment), alignment, wide);
    hide AlignUp, IsPowerOfTwo;
    var g := AcquiredLarge(cfg, h, tag, size, alignment, base);
    assert g.used[1..] == h.used;
  }

  function Without(used: seq<Block>, i: nat): (r: seq<Block>)
    requires i < |used|
    ensures |r| == |used| - 1 && forall k :: 0 <= k < |r| ==> r[k] == used[if k < i then k else k + 1]
  {
    used[..i] + used[i + 1..]
  }

  /** Takes used block i out; an ordinary one goes to the head of the free list, a large one back to
      the backing allocator. */
  function Unlinked(h: Heap, i: nat): Heap
    requires i < |h.used|
  {
    var b := h.used[i];
    if b.large then
      h.(used := Without(h.used, i), largeAllocations := if h.largeAllocations > 0 then h.largeAllocations - 1 else 0)
    else
      h.(used := Without(h.used, i), free := [b] + h.free,
         freeBlocks := h.freeBlocks + 1, usedBlocks := if h.usedBlocks > 0 then h.usedBlocks - 1 else 0)
  }

  lemma {:induction false} LargeRemoved(used: seq<Block>, i: nat)
    requires i < |used|
    ensures LargeCount(used) == LargeCount(Without(used, i)) + (if used[i].large then 1 else 0)
    ensures LargeCount(used) <= |used| && (!used[i].large ==> LargeCount(used) < |used|)
  {
    var rest := Without(used, i);
    LargeAtMost(used);
    LargeAtMost(rest);
    if i == 0 {
      assert rest == used[1..];
    } else {
      LargeRemoved(used[1..], i - 1);
      assert rest[1..] == Without(used[1..], i - 1);
    }
  }

  lemma {:induction false} LargeAtMost(used: seq<Block>)
    ensures LargeCount(used) <= |used|
  {
    if used != [] { LargeAtMost(used[1..]); }
  }

  lemma UnlinkedOk(cfg: Config, h: Heap, i: nat)
    requires cfg.Valid() && HeapOk(cfg, h) && i < |h.used|
    ensures HeapOk(cfg, Unlinked(h, i))
  {
    hide AlignUp, IsPowerOfTwo, Aligned, BlockOk, Disjoint, LargeCount;
    LargeRemoved(h.used, i);
    var rest := Without(h.used, i);
    DisjointIsMutual(h.used, i);
    var g := Unlinked(h, i);
    assert g.used == rest;
    forall k | 0 <= k < |h.free| ensures Disjoint(h.used[i], h.free[k]) {
      DisjointEitherWay(h.free[k], h.used[i]);
    }
  }

  lemma DisjointEitherWay(a: Block, b: Block)
    ensures Disjoint(a, b) <==> Disjoint(b, a)
  {}

  /** The block at i is apart from all the others, whichever comes first. */
  lemma DisjointIsMutual(used: seq<Block>, i: nat)
    requires i < |used| && forall j, k :: 0 <= j < k < |used| ==> Disjoint(used[j], used[k])
    ensures forall k :: 0 <= k < |Without(used, i)| ==> Disjoint(used[i], Without(used, i)[k])
    ensures forall j, k :: 0 <= j < k < |Without(used, i)| ==> Disjoint(Without(used, i)[j], Without(used, i)[k])
  {}

  /** FreeTag from list position i on. */
  function Freed(h: Heap, tag: nat, i: nat): Heap
    requires i <= |h.used|
    decreases |h.used| - i
  {
    if i == |h.used| then h
    else if h.used[i].tag != tag then Freed(h, tag, i + 1)
    else Freed(Unlinked(h, i), tag, i)
  }

  /** FreeTag releases exactly the tag's blocks: the other used blocks stay, in order, and what goes
      to the free list are the tag's ordinary blocks. */
  lemma {:induction false} FreedOk(cfg: Config, h: Heap, tag: nat, i: nat)
    requires cfg.Valid() && HeapOk(cfg, h) && i <= |h.used| && forall k :: 0 <= k < i ==> h.used[k].tag != tag
    ensures HeapOk(cfg, Freed(h, tag, i))
    ensures Freed(h, tag, i).used == Others(h.used, tag)
    ensures forall b: Block :: b in Freed(h, tag, i).free <==> b in h.free || (b in h.used && b.tag == tag && !b.large)
    decreases |h.used| - i
  {
    hide HeapOk, IsPowerOfTwo;
    if i == |h.used| {
      NoneLeft(h.used, tag);
    } else if h.used[i].tag != tag {
      FreedOk(cfg, h, tag, i + 1);
    } else {
      UnlinkedOk(cfg, h, i);
      var g := Unlinked(h, i);
      FreedOk(cfg, g, tag, i);
      OthersWithout(h.used, tag, i);
      forall b: Block ensures b in g.used || b == h.used[i] <==> b in h.used {
        assert h.used == h.used[..i] + [h.used[i]] + h.used[i + 1..];
      }
    }
  }

  function Others(used: seq<Block>, tag: nat): seq<Block> {
    if used == [] then [] else (if used[0].tag != tag then [used[0]] else []) + Others(used[1..], tag)
  }

  lemma {:induction false} NoneLeft(used: seq<Block>, tag: nat)
    requires forall k :: 0 <= k < |used| ==> used[k].tag != tag
    ensures Others(used, tag) == used
  {
    if used != [] { NoneLeft(used[1..], tag); }
  }

  lemma {:induction false} OthersWithout(used: seq<Block>, tag: nat, i: nat)
    requires i < |used| && used[i].tag == tag
    ensures Others(Without(used, i), tag) == Others(used, tag)
  {
    var rest := Without(used, i);
    if i == 0 {
      assert rest == used[1..];
    } else {
      OthersWithout(used[1..], tag, i - 1);
      assert rest[1..] == Without(used[1..], i - 1);
    }
  }

  lemma {:induction false} OthersAre(used: seq<Block>, tag: nat, b: Block)
    ensures b in Others(used, tag) <==> b in used && b.tag != tag
  {
    if used != [] {
      OthersAre(used[1..], tag, b);
      assert used == [used[0]] + used[1..];
    }
  }

  /** Memory taken up front: a new block at the head of the free list. */
  function Reserved(cfg: Config, h: Heap, base: nat): Heap
    requires cfg.blockAlignment > 0
  {
    h.(free := [Block(base, cfg.blockSize, cfg.HeaderBytes(), 0, false)] + h.free, freeBlocks := h.freeBlocks + 1)
  }

  lemma ReservedOk(cfg: Config, h: Heap, base: nat)
    requires cfg.Valid() && HeapOk(cfg, h) && Fresh(h, base, cfg.blockSize) && Aligned(base, cfg.blockAlignment)
    ensures HeapOk(cfg, Reserved(cfg, h, base))
  {
    hide AlignUp, IsPowerOfTwo;
  }

  // --- bump allocation ------------------------------------------------------------------------------

  /** mTag, mCursor and mEnd; `stale` when the tag was freed while the cursor still pointed into one of
      its blocks. */
  datatype Frame = Frame(tag: nat, cursor: Option<nat>, end: nat, stale: bool)
  {
    predicate Active() { cursor.Some? && !stale }
  }

  datatype Allocation = Allocation(at: nat, size: nat, alignment: nat, tag: nat)
  {
    function End(): nat { at + size }
  }

  datatype Memory = Memory(heap: Heap, frames: seq<Frame>, live: set<Allocation>)

  /** The frame bumps through this used block. */
  predicate Bumps(b: Block, f: Frame) {
    f.cursor.Some? && !b.large && b.tag == f.tag && b.Usable() <= f.cursor.value <= f.end == b.End()
  }

  predicate Holds(b: Block, x: Allocation) {
    b.tag == x.tag && b.Usable() <= x.at && x.End() <= b.End()
  }

  predicate Apart(x: Allocation, y: Allocation) {
    x.End() <= y.at || y.End() <= x.at
  }

  ghost predicate FrameOk(m: Memory, i: nat)
    requires i < |m.frames|
  {
    m.frames[i].Active() ==>
      && (exists b :: b in m.heap.used && Bumps(b, m.frames[i]))
      && (forall x :: x in m.live ==> x.End() <= m.frames[i].cursor.value || m.frames[i].end <= x.at)
  }

  ghost predicate AllocationOk(m: Memory, x: Allocation) {
    x.size > 0 && x.alignment > 0 && Aligned(x.at, x.alignment) && exists b :: b in m.heap.used && Holds(b, x)
  }

  /** Live allocations are aligned, inside a block of their tag, and pairwise apart; each frame bumps
      through a block of its own. */
  ghost predicate MemoryOk(cfg: Config, m: Memory) {
    && cfg.Valid() && HeapOk(cfg, m.heap)
    && (forall i :: 0 <= i < |m.frames| ==> FrameOk(m, i))
    && (forall i, j :: 0 <= i < j < |m.frames| && m.frames[i].Active() && m.frames[j].Active() ==> m.frames[i].end != m.frames[j].end)
    && (forall x :: x in m.live ==> AllocationOk(m, x))
    && (forall x, y :: x in m.live && y in m.live && x != y ==> Apart(x, y))
  }

  lemma BlocksApart(cfg: Config, h: Heap, a: Block, b: Block)
    requires cfg.blockAlignment > 0 && HeapOk(cfg, h) && a in h.used && b in h.used
    ensures a == b || Disjoint(a, b)
  {
    var i :| 0 <= i < |h.used| && h.used[i] == a;
    var j :| 0 <= j < |h.used| && h.used[j] == b;
    if j < i {
      DisjointEitherWay(h.used[j], h.used[i]);
    }
  }

  lemma UsedRoom(cfg: Config, h: Heap, b: Block)
    requires cfg.Valid() && HeapOk(cfg, h) && b in h.used
    ensures b.total > b.header
  {
    var i :| 0 <= i < |h.used| && h.used[i] == b;
    assert BlockOk(cfg, h.used[i]);
  }

  /** A block that is apart from all used blocks is apart from everything live in them. */
  lemma NothingLiveIn(m: Memory, base: nat, end: nat, x: Allocation)
    requires x in m.live && AllocationOk(m, x)
    requires forall b :: b in m.heap.used ==> b.End() <= base || end <= b.base
    ensures x.End() <= base || end <= x.at
  {
    var b :| b in m.heap.used && Holds(b, x);
  }

  /** A block with this tag joins the used list. */
  predicate Joins(h: Heap, g: Heap, b: Block) {
    && g.used == [b] + h.used
    && forall c :: c in h.used ==> c.End() <= b.base || b.End() <= c.base
  }

  /** A large allocation gets memory of its own. */
  lemma LargeKeeps(cfg: Config, m: Memory, g: Heap, b: Block, x: Allocation)
    requires MemoryOk(cfg, m) && HeapOk(cfg, g) && Joins(m.heap, g, b) && b.total > b.header
    requires Holds(b, x) && x.size > 0 && x.alignment > 0 && Aligned(x.at, x.alignment)
    ensures MemoryOk(cfg, Memory(g, m.frames, m.live + {x}))
  {
    hide HeapOk, Aligned, IsPowerOfTwo, Config.Valid;
    var t := Memory(g, m.frames, m.live + {x});
    forall y | y in m.live ensures AllocationOk(t, y) && Apart(x, y) && Apart(y, x) {
      NothingLiveIn(m, b.base, b.End(), y);
      var c :| c in m.heap.used && Holds(c, y);
      assert c in g.used;
    }
    assert b in g.used by { assert g.used[0] == b; }
    forall i | 0 <= i < |t.frames| ensures FrameOk(t, i) {
      assert FrameOk(m, i);
      if t.frames[i].Active() {
        var c :| c in m.heap.used && Bumps(c, m.frames[i]);
        assert c in g.used;
      }
    }
  }

  /** The frame moves on to a fresh block. */
  lemma NewBlockKeeps(cfg: Config, m: Memory, g: Heap, i: nat, b: Block)
    requires MemoryOk(cfg, m) && HeapOk(cfg, g) && Joins(m.heap, g, b) && i < |m.frames| && !m.frames[i].stale
    requires !b.large && b.tag == m.frames[i].tag && b.total > b.header
    ensures MemoryOk(cfg, Memory(g, m.frames[i := m.frames[i].(cursor := Some(b.Usable()), end := b.End())], m.live))
  {
    hide HeapOk, Aligned, IsPowerOfTwo, Config.Valid;
    var t := Memory(g, m.frames[i := m.frames[i].(cursor := Some(b.Usable()), end := b.End())], m.live);
    assert b in g.used by { assert g.used[0] == b; }
    assert Bumps(b, t.frames[i]);
    forall x | x in m.live ensures AllocationOk(t, x) && (x.End() <= b.Usable() || b.End() <= x.at) {
      NothingLiveIn(m, b.base, b.End(), x);
      var c :| c in m.heap.used && Holds(c, x);
      assert c in g.used;
    }
    forall j | 0 <= j < |t.frames| ensures FrameOk(t, j) && (j != i && t.frames[j].Active() ==> t.frames[j].end != b.End()) {
      if j != i && t.frames[j].Active() {
        assert FrameOk(m, j);
        var c :| c in m.heap.used && Bumps(c, m.frames[j]);
        assert c in g.used;
        UsedRoom(cfg, m.heap, c);
      }
    }
  }

  /** The cursor moves past what it hands out. */
  lemma BumpKeeps(cfg: Config, m: Memory, i: nat, x: Allocation)
    requires MemoryOk(cfg, m) && i < |m.frames| && m.frames[i].Active()
    requires x.tag == m.frames[i].tag && m.frames[i].cursor.value <= x.at && x.End() <= m.frames[i].end
    requires x.size > 0 && x.alignment > 0 && Aligned(x.at, x.alignment)
    ensures MemoryOk(cfg, Memory(m.heap, m.frames[i := m.frames[i].(cursor := Some(x.End()))], m.live + {x}))
  {
    hide HeapOk, Aligned, IsPowerOfTwo;
    var t := Memory(m.heap, m.frames[i := m.frames[i].(cursor := Some(x.End()))], m.live + {x});
    assert FrameOk(m, i);
    var b :| b in m.heap.used && Bumps(b, m.frames[i]);
    assert Bumps(b, t.frames[i]) && Holds(b, x);
    forall y | y in m.live ensures AllocationOk(t, y) && Apart(x, y) && Apart(y, x) {
      assert AllocationOk(m, y);
    }
    forall j | 0 <= j < |t.frames| ensures FrameOk(t, j) {
      assert FrameOk(m, j);
      if j != i && m.frames[j].Active() {
        var c :| c in m.heap.used && Bumps(c, m.frames[j]);
        BlocksApart(cfg, m.heap, b, c);
        UsedRoom(cfg, m.heap, b);
      }
    }
  }

  /** Releasing a tag: its allocations are gone, the frames still in its blocks must be given a new
      tag before they allocate again. */
  function Released(m: Memory, tag: nat): Memory {
    Memory(Freed(m.heap, tag, 0),
           seq(|m.frames|, i requires 0 <= i < |m.frames| =>
             if m.frames[i].tag == tag && m.frames[i].cursor.Some? then m.frames[i].(stale := true) else m.frames[i]),
           set x | x in m.live && x.tag != tag)
  }

  lemma ReleasedKeeps(cfg: Config, m: Memory, tag: nat)
    requires MemoryOk(cfg, m)
    ensures MemoryOk(cfg, Released(m, tag))
    ensures Released(m, tag).live == set x | x in m.live && x.tag != tag
    ensures |Released(m, tag).frames| == |m.frames|
    ensures forall i :: 0 <= i < |m.frames| ==>
      && Released(m, tag).frames[i] == m.frames[i].(stale := Released(m, tag).frames[i].stale)
      && (Released(m, tag).frames[i].Active() <==> m.frames[i].Active() && m.frames[i].tag != tag)
  {
    hide HeapOk, Aligned, IsPowerOfTwo, Freed;
    var t := Released(m, tag);
    FreedOk(cfg, m.heap, tag, 0);
    forall b: Block ensures b in t.heap.used <==> b in m.heap.used && b.tag != tag {
      OthersAre(m.heap.used, tag, b);
    }
    forall i | 0 <= i < |t.frames| ensures FrameOk(t, i) {
      assert FrameOk(m, i);
      if t.frames[i].Active() {
        var b :| b in m.heap.used && Bumps(b, m.frames[i]);
        assert b in t.heap.used;
      }
    }
    forall x | x in t.live ensures AllocationOk(t, x) {
      assert AllocationOk(m, x);
      var b :| b in m.heap.used && Holds(b, x);
      assert b in t.heap.used;
    }
  }

  lemma RetaggedKeeps(cfg: Config, m: Memory, i: nat, tag: nat)
    requires MemoryOk(cfg, m) && i < |m.frames|
    ensures MemoryOk(cfg, m.(frames := m.frames[i := Frame(tag, None, 0, false)]))
  {
    hide HeapOk, Aligned, IsPowerOfTwo;
    var t := m.(frames := m.frames[i := Frame(tag, None, 0, false)]);
    forall j | 0 <= j < |t.frames| ensures FrameOk(t, j) {
      assert FrameOk(m, j);
    }
    forall x | x in t.live ensures AllocationOk(t, x) {
      assert AllocationOk(m, x);
    }
  }

  // --- one allocation -------------------------------------------------------------------------------

  const SIZE_MAX := 0xFFFF_FFFF_FFFF_FFFF

  predicate NeedsLarge(cfg: Config, size: nat, alignment: nat)
    requires cfg.blockAlignment > 0
  {
    size > cfg.blockSize - cfg.HeaderBytes() || alignment > cfg.blockAlignment
  }

  /** The rounded cursor leaves room for the request. */
  predicate Fits(f: Frame, size: nat, alignment: nat)
    requires alignment > 0
  {
    f.cursor.Some? && f.end - AlignUp(f.cursor.value, alignment) >= size
  }

  /** What the frame hands out, None for the null pointer, and what becomes of it and of the heap;
      `base` is the memory the backing allocator gives if it is asked. */
  function Served(cfg: Config, h: Heap, f: Frame, size: nat, alignment: nat, base: Option<nat>): (r: (Heap, Frame, Option<nat>))
    requires cfg.blockAlignment > 0
  {
    if size == 0 || alignment == 0 || !IsPowerOfTwo(alignment) then (h, f, None)
    else if NeedsLarge(cfg, size, alignment) then
      if size + LargeHeader(cfg, alignment) > SIZE_MAX || base.None? then (h, f, None)
      else (AcquiredLarge(cfg, h, f.tag, size, alignment, base.value), f, Some(base.value + LargeHeader(cfg, alignment)))
    else if Fits(f, size, alignment) then
      var at := AlignUp(f.cursor.value, alignment);
      (h, f.(cursor := Some(at + size)), Some(at))
    else if h.free == [] && base.None? then (h, f, None)
    else
      var g := Acquired(cfg, h, f.tag, if base.Some? then base.value else 0);
      var at := g.used[0].Usable();
      (g, f.(cursor := Some(at + size), end := g.used[0].End()), Some(at))
  }

  /** Frame i of the memory serves a request. */
  function Allocate(cfg: Config, m: Memory, i: nat, size: nat, alignment: nat, base: Option<nat>): (r: (Memory, Option<nat>))
    requires cfg.blockAlignment > 0 && i < |m.frames|
  {
    var (h, f, at) := Served(cfg, m.heap, m.frames[i], size, alignment, base);
    (Memory(h, m.frames[i := f], if at.None? then m.live else m.live + {Allocation(at.value, size, alignment, f.tag)}), at)
  }

  /** The memory the backing allocator gives is new and aligned as asked. */
  ghost predicate BackingFor(cfg: Config, h: Heap, size: nat, alignment: nat, base: Option<nat>)
    requires cfg.blockAlignment > 0
  {
    base.Some? && alignment > 0 && IsPowerOfTwo(alignment) ==>
      if NeedsLarge(cfg, size, alignment)
      then LargeAlignment(cfg, alignment) > 0 && Aligned(base.value, LargeAlignment(cfg, alignment)) && Fresh(h, base.value, LargeHeader(cfg, alignment) + size)
      else Aligned(base.value, cfg.blockAlignment) && Fresh(h, base.value, cfg.blockSize)
  }

  /** The new allocation is aligned, apart from everything live and owned by the frame's tag;
      everything else stays. */
  lemma AllocateKeeps(cfg: Config, m: Memory, i: nat, size: nat, alignment: nat, base: Option<nat>)
    requires cfg.blockAlignment > 0 && MemoryOk(cfg, m) && i < |m.frames| && !m.frames[i].stale && BackingFor(cfg, m.heap, size, alignment, base)
    ensures var r := Allocate(cfg, m, i, size, alignment, base);
      && MemoryOk(cfg, r.0)
      && (r.1.None? ==> r.0 == m)
      && (r.1.Some? ==> r.0.live == m.live + {Allocation(r.1.value, size, alignment, m.frames[i].tag)}
                        && forall x :: x in m.live ==> Apart(x, Allocation(r.1.value, size, alignment, m.frames[i].tag)))
  {
    hide MemoryOk, HeapOk, IsPowerOfTwo, AlignUp, Acquired, AcquiredLarge, Aligned, Fresh, Apart;
    assert m.frames[i := m.frames[i]] == m.frames;
    if size > 0 && alignment > 0 && IsPowerOfTwo(alignment) {
      if NeedsLarge(cfg, size, alignment) {
        if base.Some? && size + LargeHeader(cfg, alignment) <= SIZE_MAX {
          LargeStep(cfg, m, i, size, alignment, base.value);
        }
      } else if Fits(m.frames[i], size, alignment) {
        BumpStep(cfg, m, i, size, alignment);
      } else if m.heap.free != [] || base.Some? {
        NewBlockStep(cfg, m, i, size, alignment, if base.Some? then base.value else 0);
      }
    }
  }

  lemma LargeStep(cfg: Config, m: Memory, i: nat, size: nat, alignment: nat, base: nat)
    requires MemoryOk(cfg, m) && i < |m.frames| && size > 0 && alignment > 0 && IsPowerOfTwo(alignment)
    requires LargeAlignment(cfg, alignment) > 0 && Aligned(base, LargeAlignment(cfg, alignment)) && Fresh(m.heap, base, LargeHeader(cfg, alignment) + size)
    ensures var x := Allocation(base + LargeHeader(cfg, alignment), size, alignment, m.frames[i].tag);
      && MemoryOk(cfg, Memory(AcquiredLarge(cfg, m.heap, m.frames[i].tag, size, alignment, base), m.frames, m.live + {x}))
      && forall y :: y in m.live ==> Apart(y, x)
  {
    AcquiredLargeOk(cfg, m.heap, m.frames[i].tag, size, alignment, base);
    hide HeapOk, Aligned, IsPowerOfTwo, AlignUp;
    var g := AcquiredLarge(cfg, m.heap, m.frames[i].tag, size, alignment, base);
    var x := Allocation(base + LargeHeader(cfg, alignment), size, alignment, m.frames[i].tag);
    LargeKeeps(cfg, m, g, g.used[0], x);
    forall y | y in m.live ensures Apart(y, x) {
      assert AllocationOk(m, y);
      NothingLiveIn(m, g.used[0].base, g.used[0].End(), y);
    }
  }

  lemma BumpStep(cfg: Config, m: Memory, i: nat, size: nat, alignment: nat)
    requires MemoryOk(cfg, m) && i < |m.frames| && m.frames[i].Active() && size > 0 && alignment > 0 && Fits(m.frames[i], size, alignment)
    ensures var f := m.frames[i];
      var x := Allocation(AlignUp(f.cursor.value, alignment), size, alignment, f.tag);
      && MemoryOk(cfg, Memory(m.heap, m.frames[i := f.(cursor := Some(x.End()))], m.live + {x}))
      && forall y :: y in m.live ==> Apart(y, x)
  {
    var f := m.frames[i];
    AlignUpBounds(f.cursor.value, alignment);
    hide HeapOk, Aligned, IsPowerOfTwo, AlignUp;
    assert FrameOk(m, i);
    BumpKeeps(cfg, m, i, Allocation(AlignUp(f.cursor.value, alignment), size, alignment, f.tag));
  }

  lemma NewBlockStep(cfg: Config, m: Memory, i: nat, size: nat, alignment: nat, base: nat)
    requires MemoryOk(cfg, m) && i < |m.frames| && !m.frames[i].stale && size > 0 && alignment > 0 && IsPowerOfTwo(alignment) && !NeedsLarge(cfg, size, alignment)
    requires m.heap.free == [] ==> Fresh(m.heap, base, cfg.blockSize) && Aligned(base, cfg.blockAlignment)
    ensures var f, g := m.frames[i], Acquired(cfg, m.heap, m.frames[i].tag, base);
      var x := Allocation(g.used[0].Usable(), size, alignment, f.tag);
      && MemoryOk(cfg, Memory(g, m.frames[i := f.(cursor := Some(x.End()), end := g.used[0].End())], m.live + {x}))
      && forall y :: y in m.live ==> Apart(y, x)
  {
    var f, g := m.frames[i], Acquired(cfg, m.heap, m.frames[i].tag, base);
    AcquiredOk(cfg, m.heap, f.tag, base);
    var b := g.used[0];
    BlockStart(cfg, g, alignment);
    AcquiredJoins(cfg, m.heap, f.tag, base);
    hide HeapOk, Aligned, IsPowerOfTwo, AlignUp;
    NewBlockKeeps(cfg, m, g, i, b);
    var t := Memory(g, m.frames[i := f.(cursor := Some(b.Usable()), end := b.End())], m.live);
    var x := Allocation(b.Usable(), size, alignment, f.tag);
    BumpKeeps(cfg, t, i, x);
    assert t.frames[i := t.frames[i].(cursor := Some(x.End()))] == m.frames[i := f.(cursor := Some(x.End()), end := b.End())];
    forall y | y in m.live ensures Apart(y, x) {
      assert AllocationOk(m, y);
      NothingLiveIn(m, b.base, b.End(), y);
    }
  }

  /** Aligning the cursor for a request a block can serve does not leave the block, so the room left is
      not negative. */
  lemma RoundingStays(cfg: Config, m: Memory, i: nat, alignment: nat)
    requires MemoryOk(cfg, m) && i < |m.frames| && m.frames[i].Active() && IsPowerOfTwo(alignment) && 0 < alignment <= cfg.blockAlignment
    ensures AlignUp(m.frames[i].cursor.value, alignment) <= m.frames[i].end
  {
    assert FrameOk(m, i);
    var b :| b in m.heap.used && Bumps(b, m.frames[i]);
    var j :| 0 <= j < |m.heap.used| && m.heap.used[j] == b;
    assert BlockOk(cfg, m.heap.used[j]);
    AlignedSum(b.base, b.total, cfg.blockAlignment);
    AlignedSmaller(b.End(), alignment, cfg.blockAlignment);
    AlignUpWithin(m.frames[i].cursor.value, b.End(), alignment);
  }

  /** The usable area starts aligned to anything up to the block alignment, with room to its end. */
  lemma BlockStart(cfg: Config, g: Heap, alignment: nat)
    requires cfg.Valid() && HeapOk(cfg, g) && g.used != [] && !g.used[0].large && IsPowerOfTwo(alignment) && 0 < alignment <= cfg.blockAlignment
    ensures Aligned(g.used[0].Usable(), alignment) && g.used[0].total == cfg.blockSize && g.used[0].header == cfg.HeaderBytes()
  {
    var b := g.used[0];
    assert BlockOk(cfg, b);
    AlignUpBounds(cfg.headerSize, cfg.blockAlignment);
    AlignedSum(b.base, b.header, cfg.blockAlignment);
    AlignedSmaller(b.Usable(), alignment, cfg.blockAlignment);
  }

  lemma AcquiredJoins(cfg: Config, h: Heap, tag: nat, base: nat)
    requires cfg.Valid() && HeapOk(cfg, h) && (h.free == [] ==> Fresh(h, base, cfg.blockSize))
    ensures var g := Acquired(cfg, h, tag, base);
      Joins(h, g, g.used[0]) && !g.used[0].large && g.used[0].tag == tag && g.used[0].total == cfg.blockSize && g.used[0].header == cfg.HeaderBytes()
  {
    var g := Acquired(cfg, h, tag, base);
    forall c | c in h.used ensures c.End() <= g.used[0].base || g.used[0].End() <= c.base {
      var j :| 0 <= j < |h.used| && h.used[j] == c;
      assert h.free != [] ==> Disjoint(h.free[0], h.used[j]) && BlockOk(cfg, h.free[0]);
    }
  }

  // --- whole runs -----------------------------------------------------------------------------------

  datatype Step =
    | Take(frame: nat, size: nat, alignment: nat, base: Option<nat>)
    | SetTag(frame: nat, tag: nat)
    | FreeTag(tag: nat)
    | Reserve(memory: nat)

  /** A frame whose tag was freed under it is given a tag before it allocates again. */
  ghost predicate Allowed(cfg: Config, m: Memory, step: Step)
    requires cfg.blockAlignment > 0
  {
    match step
    case Take(i, size, alignment, base) => i < |m.frames| && !m.frames[i].stale && BackingFor(cfg, m.heap, size, alignment, base)
    case SetTag(i, _) => i < |m.frames|
    case FreeTag(_) => true
    case Reserve(base) => Fresh(m.heap, base, cfg.blockSize) && Aligned(base, cfg.blockAlignment)
  }

  ghost function Next(cfg: Config, m: Memory, step: Step): Memory
    requires cfg.blockAlignment > 0 && Allowed(cfg, m, step)
  {
    match step
    case Take(i, size, alignment, base) => Allocate(cfg, m, i, size, alignment, base).0
    case SetTag(i, tag) => m.(frames := m.frames[i := Frame(tag, None, 0, false)])
    case FreeTag(tag) => Released(m, tag)
    case Reserve(base) => m.(heap := Reserved(cfg, m.heap, base))
  }

  ghost predicate Run(cfg: Config, m: Memory, steps: seq<Step>, t: Memory)
    requires cfg.blockAlignment > 0
    decreases |steps|
  {
    if steps == [] then m == t else Allowed(cfg, m, steps[0]) && Run(cfg, Next(cfg, m, steps[0]), steps[1..], t)
  }

  lemma StepKeeps(cfg: Config, m: Memory, step: Step)
    requires cfg.blockAlignment > 0 && MemoryOk(cfg, m) && Allowed(cfg, m, step)
    ensures MemoryOk(cfg, Next(cfg, m, step))
  {
    hide MemoryOk, HeapOk, Freed, AlignUp, IsPowerOfTwo;
    match step
    case Take(i, size, alignment, base) => AllocateKeeps(cfg, m, i, size, alignment, base);
    case SetTag(i, tag) => RetaggedKeeps(cfg, m, i, tag);
    case FreeTag(tag) => ReleasedKeeps(cfg, m, tag);
    case Reserve(base) => ReserveKeeps(cfg, m, base);
  }

  lemma ReserveKeeps(cfg: Config, m: Memory, base: nat)
    requires MemoryOk(cfg, m) && Fresh(m.heap, base, cfg.blockSize) && Aligned(base, cfg.blockAlignment)
    ensures MemoryOk(cfg, m.(heap := Reserved(cfg, m.heap, base)))
  {
    hide HeapOk, Aligned, IsPowerOfTwo, AlignUp;
    ReservedOk(cfg, m.heap, base);
    var t := m.(heap := Reserved(cfg, m.heap, base));
    forall j | 0 <= j < |t.frames| ensures FrameOk(t, j) {
      assert FrameOk(m, j);
    }
    forall x | x in t.live ensures AllocationOk(t, x) {
      assert AllocationOk(m, x);
    }
  }

  lemma {:induction false} RunKeeps(cfg: Config, m: Memory, steps: seq<Step>, t: Memory)
    requires cfg.blockAlignment > 0 && MemoryOk(cfg, m) && Run(cfg, m, steps, t)
    ensures MemoryOk(cfg, t)
    decreases |steps|
  {
    hide MemoryOk, Next, Allowed;
    if steps != [] {
      StepKeeps(cfg, m, steps[0]);
      RunKeeps(cfg, Next(cfg, m, steps[0]), steps[1..], t);
    }
  }

  /** Over every interleaving of any number of frame allocators on one heap, live allocations are
      aligned, inside a block of their tag, and pairwise apart, and the statistics are the list
      lengths. The heap starts empty, and every frame allocator without a block. */
  lemma FrameMemorySafe(cfg: Config, start: Memory, steps: seq<Step>, t: Memory)
    requires cfg.Valid() && Run(cfg, start, steps, t)
    requires start.heap == Heap([], [], 0, 0, 0) && start.live == {} && forall i :: 0 <= i < |start.frames| ==> start.frames[i].cursor.None?
    ensures forall x :: x in t.live ==> AllocationOk(t, x)
    ensures forall x, y :: x in t.live && y in t.live && x != y ==> Apart(x, y)
    ensures t.heap.freeBlocks == |t.heap.free| && t.heap.largeAllocations == LargeCount(t.heap.used)
    ensures t.heap.usedBlocks == |t.heap.used| - LargeCount(t.heap.used)
  {
    hide Run, AllocationOk;
    RunKeeps(cfg, start, steps, t);
  }

  // --- the heap and the allocator as objects --------------------------------------------------------

  /** Reserve: blocks taken one at a time until enough are free or the backing allocator has none. */
  function ReservedUpTo(cfg: Config, h: Heap, count: nat, memory: seq<nat>): Heap
    requires cfg.blockAlignment > 0
    decreases |memory|
  {
    if h.freeBlocks >= count || memory == [] then h
    else ReservedUpTo(cfg, Reserved(cfg, h, memory[0]), count, memory[1..])
  }

  class TaggedHeap {
    const config: Config
    var free: seq<Block>
    var used: seq<Block>
    var freeBlocks: nat
    var usedBlocks: nat
    var largeAllocations: nat

    ghost function Contents(): Heap
      reads this
    {
      Heap(free, used, freeBlocks, usedBlocks, largeAllocations)
    }

    ghost predicate Valid()
      reads this
    {
      config.Valid() && HeapOk(config, Contents())
    }

    constructor (config: Config)
      requires config.Valid()
      ensures this.config == config && Contents() == Heap([], [], 0, 0, 0) && Valid()
    {
      this.config := config;
      free, used, freeBlocks, usedBlocks, largeAllocations := [], [], 0, 0, 0;
    }

    /** A free block, or `memory` from the backing allocator. */
    method AcquireBlock(tag: nat, memory: Option<nat>) returns (area: Option<nat>)
      requires Valid()
      requires memory.Some? ==> Fresh(Contents(), memory.value, config.blockSize) && Aligned(memory.value, config.blockAlignment)
      modifies this
      ensures Valid()
      ensures area.None? <==> old(free) == [] && memory.None?
      ensures area.None? ==> Contents() == old(Contents())
      ensures area.Some? ==>
        && Contents() == Acquired(config, old(Contents()), tag, if memory.Some? then memory.value else 0)
        && area.value == used[0].Usable()
      ensures area.Some? && old(free) != [] ==> used == [old(free)[0].(tag := tag)] + old(used) && free == old(free)[1..]
      ensures area.Some? && old(free) == [] ==>
        free == [] && used == [Block(memory.value, config.blockSize, config.HeaderBytes(), tag, false)] + old(used)
    {
      hide HeapOk, AlignUp, Aligned, Fresh;
      ghost var was := Contents();
      var block: Block;
      if free != [] {
        block := free[0];
        free := free[1..];
        freeBlocks := if freeBlocks > 0 then freeBlocks - 1 else 0;
      } else {
        if memory.None? { return None; }
        block := Block(memory.value, config.blockSize, config.HeaderBytes(), 0, false);
      }
      used := [block.(tag := tag)] + used;
      usedBlocks := usedBlocks + 1;
      AcquiredOk(config, was, tag, if memory.Some? then memory.value else 0);
      return Some(used[0].Usable());
    }

    method AcquireLarge(tag: nat, size: nat, alignment: nat, memory: Option<nat>) returns (area: Option<nat>)
      requires Valid()
      requires memory.Some? && alignment > 0 && IsPowerOfTwo(alignment) ==>
        && LargeAlignment(config, alignment) > 0 && Aligned(memory.value, LargeAlignment(config, alignment))
        && Fresh(Contents(), memory.value, LargeHeader(config, alignment) + size)
      modifies this
      ensures Valid()
      ensures area.Some? <==>
        && size > 0 && alignment > 0 && IsPowerOfTwo(alignment) && size + LargeHeader(config, alignment) <= SIZE_MAX && memory.Some?
      ensures area.None? ==> Contents() == old(Contents())
      ensures area.Some? ==>
        && Contents() == AcquiredLarge(config, old(Contents()), tag, size, alignment, memory.value)
        && area.value == memory.value + LargeHeader(config, alignment) && Aligned(area.value, alignment)
    {
      hide HeapOk, AlignUp, Aligned, Fresh, IsPowerOfTwo;
      if size == 0 || alignment == 0 || !IsPowerOfTwo(alignment) { return None; }
      var header := LargeHeader(config, alignment);
      if size + header > SIZE_MAX || memory.None? { return None; }
      AcquiredLargeOk(config, Contents(), tag, size, alignment, memory.value);
      used := [Block(memory.value, header + size, header, tag, true)] + used;
      largeAllocations := largeAllocations + 1;
      return Some(memory.value + header);
    }

    method FreeTag(tag: nat)
      requires Valid()
      modifies this
      ensures Valid()
      ensures Contents() == Freed(old(Contents()), tag, 0)
      ensures used == Others(old(used), tag)
      ensures forall b: Block :: b in free <==> b in old(free) || (b in old(used) && b.tag == tag && !b.large)
    {
      hide HeapOk;
      FreedOk(config, Contents(), tag, 0);
      ghost var was := Contents();
      var i := 0;
      while i < |used|
        invariant i <= |used|
        invariant Freed(Contents(), tag, i) == Freed(was, tag, 0)
        decreases |used| - i
      {
        var header := used[i];
        if header.tag != tag {
          i := i + 1;
        } else {
          used := Without(used, i);
          if header.large {
            largeAllocations := if largeAllocations > 0 then largeAllocations - 1 else 0;
          } else {
            usedBlocks := if usedBlocks > 0 then usedBlocks - 1 else 0;
            free := [header] + free;
            freeBlocks := freeBlocks + 1;
          }
        }
      }
    }

    /** Takes blocks up front, `memory` being what the backing allocator gives in turn. */
    method Reserve(blockCount: nat, memory: seq<nat>) returns (ok: bool)
      modifies this
      requires config.blockAlignment > 0
      ensures Contents() == ReservedUpTo(config, old(Contents()), blockCount, memory)
      ensures ok <==> freeBlocks >= blockCount
      ensures used == old(used) && usedBlocks == old(usedBlocks) && |free| >= |old(free)| && free[|free| - |old(free)|..] == old(free)
      ensures forall i :: 0 <= i < |free| - |old(free)| ==> free[i].base in memory && !free[i].large && free[i].total == config.blockSize
    {
      hide AlignUp;
      var next := 0;
      while freeBlocks < blockCount
        invariant next <= |memory| && used == old(used) && usedBlocks == old(usedBlocks)
        invariant |free| >= |old(free)| && free[|free| - |old(free)|..] == old(free)
        invariant forall i :: 0 <= i < |free| - |old(free)| ==> free[i].base in memory && !free[i].large && free[i].total == config.blockSize
        invariant ReservedUpTo(config, Contents(), blockCount, memory[next..]) == ReservedUpTo(config, old(Contents()), blockCount, memory)
        decreases |memory| - next
      {
        if next == |memory| { return false; }
        free := [Block(memory[next], config.blockSize, config.HeaderBytes(), 0, false)] + free;
        freeBlocks := freeBlocks + 1;
        next := next + 1;
      }
      return true;
    }
  }

  class FrameAllocator {
    const heap: TaggedHeap
    var tag: nat
    var cursor: Option<nat>
    var end: nat

    ghost function Contents(): Frame
      reads this
    {
      Frame(tag, cursor, end, false)
    }

    constructor (heap: TaggedHeap, tag: nat)
      ensures this.heap == heap && Contents() == Frame(tag, None, 0, false)
    {
      this.heap := heap;
      this.tag, cursor, end := tag, None, 0;
    }

    method Allocate(size: nat, alignment: nat, memory: Option<nat>) returns (at: Option<nat>)
      requires heap.Valid() && BackingFor(heap.config, heap.Contents(), size, alignment, memory)
      modifies this, heap
      ensures heap.Valid()
      ensures (heap.Contents(), Contents(), at) == Served(heap.config, old(heap.Contents()), old(Contents()), size, alignment, memory)
      ensures size > 0 && alignment > 0 && IsPowerOfTwo(alignment) && old(cursor).Some? && !NeedsLarge(heap.config, size, alignment) ==>
        var rounded := AlignUp(old(cursor).value, alignment);
        rounded + size <= old(end) ==> at == Some(rounded) && cursor == Some(rounded + size) && heap.Contents() == old(heap.Contents())
      ensures
        var large := size > heap.config.blockSize - heap.config.HeaderBytes() || alignment > heap.config.blockAlignment;
        var fits := alignment > 0 && old(cursor).Some? && AlignUp(old(cursor).value, alignment) + size <= old(end);
        at.Some? <==>
          && size > 0 && alignment > 0 && IsPowerOfTwo(alignment)
          && if large then memory.Some? && size + LargeHeader(heap.config, alignment) <= SIZE_MAX
             else fits || old(heap.free) != [] || memory.Some?
      ensures at.Some? ==>
        var large := size > heap.config.blockSize - heap.config.HeaderBytes() || alignment > heap.config.blockAlignment;
        heap.largeAllocations == old(heap.largeAllocations) + if large then 1 else 0
    {
      hide HeapOk, AlignUp, Aligned, Fresh, IsPowerOfTwo;
      var config := heap.config;
      if size == 0 || alignment == 0 || !IsPowerOfTwo(alignment) { return None; }
      if size > config.blockSize - config.HeaderBytes() || alignment > config.blockAlignment {
        at := heap.AcquireLarge(tag, size, alignment, memory);
        return;
      }
      if cursor.Some? && end - AlignUp(cursor.value, alignment) >= size {
        at := Some(AlignUp(cursor.value, alignment));
      } else {
        ghost var was := heap.Contents();
        at := heap.AcquireBlock(tag, memory);
        if at.None? { return; }
        AcquiredJoins(config, was, tag, if memory.Some? then memory.value else 0);
        end := at.value + (config.blockSize - config.HeaderBytes());
      }
      cursor := Some(at.value + size);
    }

    method SetTag(tag: nat)
      modifies this
      ensures Contents() == Frame(tag, None, 0, false)
    {
      this.tag, cursor, end := tag, None, 0;
    }
  }
}
