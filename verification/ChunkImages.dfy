/** Chunks byte for byte: the rows a layout finds in them, and the copy a world file holds, with
    Transient data at its defaults. */
module ChunkImages {
  import opened Alignments
  import opened Bytes
  import opened Results
  import opened Entities
  import opened Archetypes
  import opened ChunkLayouts

  datatype TypeInfo = TypeInfo(name: seq<byte>, typeId: nat, layoutHash: nat, info: Info, initial: seq<byte>, transient: bool)

  /** A chunk in memory. */
  datatype Chunk = Chunk(count: nat, data: seq<byte>)

  /** The types of a mask in ascending order, from type k on; the position is the type's slot. */
  function Ascending(mask: set<nat>, k: nat, n: nat): (r: seq<nat>)
    requires k <= n
    ensures forall i :: 0 <= i < |r| ==> k <= r[i] < n && r[i] in mask
    ensures forall t :: t in mask && k <= t < n ==> t in r
    ensures forall i, j :: 0 <= i < j < |r| ==> r[i] < r[j]
    decreases n - k
  {
    if k == n then [] else (if k in mask then [k] else []) + Ascending(mask, k + 1, n)
  }

  datatype Types = Types(infos: seq<TypeInfo>)
  {
    predicate Valid() {
      |infos| <= MAX_TYPES && forall t :: 0 <= t < |infos| ==> infos[t].info.Valid() && |infos[t].initial| == infos[t].info.size
    }

    function Slots(mask: set<nat>): seq<nat> {
      Ascending(mask, 0, |infos|)
    }

    function InfosOf(mask: set<nat>): seq<Info> {
      var slots := Slots(mask);
      seq(|slots|, i requires 0 <= i < |slots| => infos[slots[i]].info)
    }

    predicate HasColumn(t: nat) {
      t < |infos| && infos[t].info.PerEntity()
    }
  }

  /** What Compute promises of a layout for this mask (see ChunkLayouts.LayoutSound). */
  ghost predicate LayoutOk(types: Types, mask: set<nat>, chunkSize: nat, l: Layout) {
    && types.Valid() && AllValid(types.InfosOf(mask))
    && Chosen(types.InfosOf(mask), chunkSize, l) && Packed(l.Areas(), chunkSize)
    && l.typeCount == |types.Slots(mask)| && l.enableWords == EnableWords(l.capacity)
  }

  // --- reading a chunk ------------------------------------------------------------------------------

  /** The part of a chunk at an offset; nothing outside the chunk. */
  function Part(data: seq<byte>, at: nat, n: nat): (r: seq<byte>)
    ensures at + n <= |data| ==> |r| == n
  {
    if at + n <= |data| then data[at..at + n] else []
  }

  function EntityAt(data: seq<byte>, at: nat): EntityId {
    EntityId(Number(Part(data, at, 4)), Number(Part(data, at + 4, 4)))
  }

  function PowerOfTwo(k: nat): (r: nat)
    ensures r > 0
  {
    if k == 0 then 1 else 2 * PowerOfTwo(k - 1)
  }

  /** Bit r of a little-endian bit field. */
  predicate Bit(data: seq<byte>, at: nat, r: nat) {
    at + r / 8 < |data| && data[at + r / 8] as nat / PowerOfTwo(r % 8) % 2 == 1
  }

  /** FindColumn. */
  function ColumnIndex(columns: seq<Column>, slot: nat): (r: nat)
    ensures r <= |columns| && (r < |columns| ==> columns[r].slot == slot)
    ensures r == |columns| ==> forall i :: 0 <= i < |columns| ==> columns[i].slot != slot
  {
    if columns == [] then 0 else if columns[0].slot == slot then 0 else 1 + ColumnIndex(columns[1..], slot)
  }

  function SlotOf(slots: seq<nat>, t: nat): (r: nat)
    ensures r <= |slots| && (t in slots <==> r < |slots|) && (r < |slots| ==> slots[r] == t)
  {
    if slots == [] then 0 else if slots[0] == t then 0 else 1 + SlotOf(slots[1..], t)
  }

  function EnableEnd(l: Layout): nat {
    l.enableOffset + l.typeCount * l.enableWords * 8
  }

  function EntityEnd(l: Layout): nat {
    l.entityOffset + l.capacity * ENTITY_BYTES
  }

  /** Where the enable bits of a slot begin. */
  function BitsAt(l: Layout, slot: nat): nat {
    l.enableOffset + slot * l.enableWords * 8
  }

  /** Where row r of a column begins. */
  function ElementAt(column: Column, r: nat): nat {
    column.offset + r * column.elementSize
  }

  lemma ElementStep(column: Column, r: nat, n: nat)
    ensures r < n ==> ElementAt(column, r) + column.elementSize <= ElementAt(column, n)
    ensures r <= n ==> ElementAt(column, r) <= ElementAt(column, n)
    ensures column.offset <= ElementAt(column, r)
  {
    if r < n {
      MulLess(r + 1, n, column.elementSize);
    }
  }

  /** Where the parts of the layout are, and that they are apart. */
  predicate Separated(l: Layout, chunkSize: nat) {
    && EnableEnd(l) <= l.entityOffset
    && (forall k :: 0 <= k < |l.chunkComponents| ==>
         && EnableEnd(l) <= l.chunkComponents[k].offset
         && l.chunkComponents[k].offset + l.chunkComponents[k].size <= l.entityOffset)
    && (forall j, k :: 0 <= j < k < |l.chunkComponents| ==> l.chunkComponents[j].offset + l.chunkComponents[j].size <= l.chunkComponents[k].offset)
    && EntityEnd(l) <= chunkSize
    && (forall k :: 0 <= k < |l.columns| ==>
         && EntityEnd(l) <= l.columns[k].offset
         && ElementAt(l.columns[k], l.capacity) <= chunkSize)
    && (forall j, k :: 0 <= j < k < |l.columns| ==> ElementAt(l.columns[j], l.capacity) <= l.columns[k].offset)
  }

  lemma PackedSeparates(l: Layout, chunkSize: nat)
    requires Packed(l.Areas(), chunkSize)
    ensures Separated(l, chunkSize)
  {
    var areas, n := l.Areas(), |l.chunkComponents|;
    assert areas[1] == Area(Enables, l.enableOffset, l.typeCount * l.enableWords * 8);
    assert areas[2 + n] == Area(Entities, l.entityOffset, l.capacity * ENTITY_BYTES);
    forall k | 0 <= k < n ensures areas[2 + k] == Area(ChunkValue(l.chunkComponents[k].slot), l.chunkComponents[k].offset, l.chunkComponents[k].size) {}
    forall k | 0 <= k < |l.columns|
      ensures areas[3 + n + k] == Area(Elements(l.columns[k].slot), l.columns[k].offset, l.capacity * l.columns[k].elementSize)
    {}
    forall k | 0 <= k < n
      ensures areas[1].End() <= l.chunkComponents[k].offset && l.chunkComponents[k].offset + l.chunkComponents[k].size <= l.entityOffset
    {
      assert areas[2 + k].End() <= areas[2 + n].offset && areas[1].End() <= areas[2 + k].offset;
    }
    forall j, k | 0 <= j < k < n ensures l.chunkComponents[j].offset + l.chunkComponents[j].size <= l.chunkComponents[k].offset {
      assert areas[2 + j].End() <= areas[2 + k].offset;
    }
    forall k | 0 <= k < |l.columns|
      ensures areas[2 + n].End() <= l.columns[k].offset && ElementAt(l.columns[k], l.capacity) <= chunkSize
    {
      assert areas[2 + n].End() <= areas[3 + n + k].offset && areas[3 + n + k].End() <= chunkSize;
    }
    forall j, k | 0 <= j < k < |l.columns| ensures ElementAt(l.columns[j], l.capacity) <= l.columns[k].offset {
      assert areas[3 + n + j].End() <= areas[3 + n + k].offset;
    }
  }

  // --- the columns of a layout ----------------------------------------------------------------------

  lemma {:induction false} ColumnRequestIs(infos: seq<Info>, capacity: nat, k: nat, r: Request)
    requires k <= |infos| && r in ColumnRequests(infos, capacity, k)
    ensures r.owner.Elements? && r.owner.slot < k && infos[r.owner.slot].PerEntity() && r.size == capacity * infos[r.owner.slot].size
  {
    if r in ColumnRequests(infos, capacity, k - 1) {
      ColumnRequestIs(infos, capacity, k - 1, r);
    }
  }

  lemma {:induction false} ChunkRequestIs(infos: seq<Info>, k: nat, r: Request)
    requires k <= |infos| && r in ChunkRequests(infos, k)
    ensures r.owner.ChunkValue? && r.owner.slot < k && infos[r.owner.slot].chunk && r.size == infos[r.owner.slot].size
  {
    if r in ChunkRequests(infos, k - 1) {
      ChunkRequestIs(infos, k - 1, r);
    }
  }

  /** The request behind an area of a layout. */
  lemma AreaRequest(infos: seq<Info>, chunkSize: nat, l: Layout, i: nat)
    requires AllValid(infos) && Chosen(infos, chunkSize, l) && i < |l.Areas()|
    ensures l.Areas()[i].owner.Elements? ==>
      var s := l.Areas()[i].owner.slot; s < |infos| && infos[s].PerEntity() && l.Areas()[i].size == l.capacity * infos[s].size
    ensures l.Areas()[i].owner.ChunkValue? ==>
      var s := l.Areas()[i].owner.slot; s < |infos| && infos[s].chunk && l.Areas()[i].size == infos[s].size
  {
    AllSane(infos, l.capacity);
    hide Fits, Cursor, IsPowerOfTwo, Guess, Layout.Areas;
    var reqs := Requests(infos, l.capacity);
    var r := reqs[i];
    assert l.Areas()[i].owner == r.owner && l.Areas()[i].size == r.size;
    hide PlacedWrapped, Sane;
    assert r in reqs;
    if r in ChunkRequests(infos, |infos|) {
      ChunkRequestIs(infos, |infos|, r);
    } else if r in ColumnRequests(infos, l.capacity, |infos|) {
      ColumnRequestIs(infos, l.capacity, |infos|, r);
    }
  }

  lemma CancelFactor(c: nat, x: nat, y: nat)
    requires c >= 1 && c * x == c * y
    ensures x == y
  {
    MulApart(c, x, y);
    MulApart(c, y, x);
  }

  /** Every column holds elements of its type's size. */
  lemma ColumnIs(types: Types, mask: set<nat>, chunkSize: nat, l: Layout, k: nat)
    requires LayoutOk(types, mask, chunkSize, l) && k < |l.columns|
    ensures l.columns[k].slot < |types.Slots(mask)| && types.HasColumn(types.Slots(mask)[l.columns[k].slot])
    ensures l.columns[k].elementSize == types.infos[types.Slots(mask)[l.columns[k].slot]].info.size
  {
    var i := 3 + |l.chunkComponents| + k;
    assert l.Areas()[i] == Area(Elements(l.columns[k].slot), l.columns[k].offset, l.capacity * l.columns[k].elementSize);
    AreaRequest(types.InfosOf(mask), chunkSize, l, i);
    CancelFactor(l.capacity, l.columns[k].elementSize, types.InfosOf(mask)[l.columns[k].slot].size);
  }

  lemma ComponentIs(types: Types, mask: set<nat>, chunkSize: nat, l: Layout, k: nat)
    requires LayoutOk(types, mask, chunkSize, l) && k < |l.chunkComponents|
    ensures l.chunkComponents[k].slot < |types.Slots(mask)|
    ensures l.chunkComponents[k].size == types.infos[types.Slots(mask)[l.chunkComponents[k].slot]].info.size
  {
    var i := 2 + k;
    assert l.Areas()[i] == Area(ChunkValue(l.chunkComponents[k].slot), l.chunkComponents[k].offset, l.chunkComponents[k].size);
    AreaRequest(types.InfosOf(mask), chunkSize, l, i);
  }

  lemma RequestPlaced(areas: seq<Area>, reqs: seq<Request>, r: Request)
    requires Sane(reqs) && PlacedWrapped(areas, reqs) && r in reqs
    ensures exists i :: 0 <= i < |areas| && areas[i].owner == r.owner
  {
    var i :| 0 <= i < |reqs| && reqs[i] == r;
    assert areas[i].owner == r.owner;
  }

  lemma AreaOfColumn(l: Layout, i: nat)
    requires i < |l.Areas()| && l.Areas()[i].owner.Elements?
    ensures exists k :: 0 <= k < |l.columns| && l.columns[k].slot == l.Areas()[i].owner.slot
  {
    assert l.columns[i - 3 - |l.chunkComponents|].slot == l.Areas()[i].owner.slot;
  }

  /** Every per-entity type has a column. */
  lemma ColumnThere(types: Types, mask: set<nat>, chunkSize: nat, l: Layout, t: nat)
    requires LayoutOk(types, mask, chunkSize, l) && t in mask && types.HasColumn(t)
    ensures SlotOf(types.Slots(mask), t) < |types.Slots(mask)|
    ensures ColumnIndex(l.columns, SlotOf(types.Slots(mask), t)) < |l.columns|
  {
    var infos, slot := types.InfosOf(mask), SlotOf(types.Slots(mask), t);
    assert t in types.Slots(mask);
    EveryTypeOnce(infos, l.capacity, |infos|, slot);
    AllSane(infos, l.capacity);
    var r := Request(Elements(slot), l.capacity * infos[slot].size, CACHE_LINE);
    assert r in Requests(infos, l.capacity);
    RequestPlaced(l.Areas(), Requests(infos, l.capacity), r);
    hide *;
    var i :| 0 <= i < |l.Areas()| && l.Areas()[i].owner == r.owner;
    AreaOfColumn(l, i);
  }

  // --- rows -----------------------------------------------------------------------------------------

  function Element(data: seq<byte>, column: Column, r: nat): seq<byte> {
    Part(data, ElementAt(column, r), column.elementSize)
  }

  function ColumnOf(types: Types, mask: set<nat>, l: Layout, t: nat): Column {
    var k := ColumnIndex(l.columns, SlotOf(types.Slots(mask), t));
    if k < |l.columns| then l.columns[k] else Column(0, 0, 0)
  }

  function BitsOf(types: Types, mask: set<nat>, l: Layout, t: nat): nat {
    BitsAt(l, SlotOf(types.Slots(mask), t))
  }

  /** Row r of a chunk, as GetEntities, GetColumn and IsEnabled find it. */
  function RowAt(types: Types, mask: set<nat>, l: Layout, data: seq<byte>, r: nat): Row {
    Row(EntityAt(data, l.entityOffset + r * ENTITY_BYTES),
        map t | t in mask && types.HasColumn(t) :: Element(data, ColumnOf(types, mask, l, t), r),
        map t | t in mask :: Bit(data, BitsOf(types, mask, l, t), r))
  }

  lemma BitFits(l: Layout, slot: nat, r: nat)
    requires slot < l.typeCount && l.enableWords == EnableWords(l.capacity) && r < l.capacity
    ensures BitsAt(l, slot) + r / 8 < EnableEnd(l)
  {
    MulLess(slot + 1, l.typeCount, l.enableWords * 8);
  }

  // --- the copy a world file holds ------------------------------------------------------------------

  function Overwritten(data: seq<byte>, at: nat, bytes: seq<byte>): (r: seq<byte>)
    ensures |r| == |data|
  {
    if at + |bytes| <= |data| then Patched(data, at, bytes) else data
  }

  /** Rows 0 to count of a column at its default. */
  function ScrubRows(data: seq<byte>, column: Column, initial: seq<byte>, count: nat): (r: seq<byte>)
    ensures |r| == |data|
  {
    if count == 0 then data
    else Overwritten(ScrubRows(data, column, initial, count - 1), ElementAt(column, count - 1), initial)
  }

  /** The first k columns, the Transient ones at their defaults. */
  function ScrubColumns(types: Types, mask: set<nat>, l: Layout, data: seq<byte>, count: nat, k: nat): (r: seq<byte>)
    requires k <= |l.columns|
    ensures |r| == |data|
  {
    if k == 0 then data
    else
      var before := ScrubColumns(types, mask, l, data, count, k - 1);
      var column := l.columns[k - 1];
      if IsTransient(types, mask, column.slot) then ScrubRows(before, column, InitialOf(types, mask, column.slot), count) else before
  }

  predicate IsTransient(types: Types, mask: set<nat>, slot: nat) {
    slot < |types.Slots(mask)| && types.infos[types.Slots(mask)[slot]].transient
  }

  function InitialOf(types: Types, mask: set<nat>, slot: nat): seq<byte> {
    if slot < |types.Slots(mask)| then types.infos[types.Slots(mask)[slot]].initial else []
  }

  /** The first k chunk components likewise. */
  function ScrubComponents(types: Types, mask: set<nat>, l: Layout, data: seq<byte>, k: nat): (r: seq<byte>)
    requires k <= |l.chunkComponents|
    ensures |r| == |data|
  {
    if k == 0 then data
    else
      var before := ScrubComponents(types, mask, l, data, k - 1);
      var component := l.chunkComponents[k - 1];
      if IsTransient(types, mask, component.slot) then Overwritten(before, component.offset, InitialOf(types, mask, component.slot)) else before
  }

  function Scrubbed(types: Types, mask: set<nat>, l: Layout, chunk: Chunk): (r: Chunk)
    ensures r.count == chunk.count && |r.data| == |chunk.data|
  {
    var columns := ScrubColumns(types, mask, l, chunk.data, chunk.count, |l.columns|);
    chunk.(data := ScrubComponents(types, mask, l, columns, |l.chunkComponents|))
  }

  // --- what the copy keeps --------------------------------------------------------------------------

  lemma OverwrittenPart(data: seq<byte>, at: nat, bytes: seq<byte>, p: nat, n: nat)
    requires at + |bytes| <= |data| && p + n <= |data|
    ensures p + n <= at || at + |bytes| <= p ==> Part(Overwritten(data, at, bytes), p, n) == Part(data, p, n)
    ensures Part(Overwritten(data, at, bytes), at, |bytes|) == bytes
  {}

  /** Parts outside the column stay, elements of the rows become the default. */
  lemma {:induction false} ScrubbedRows(data: seq<byte>, column: Column, initial: seq<byte>, count: nat, p: nat, n: nat)
    requires |initial| == column.elementSize && ElementAt(column, count) <= |data| && p + n <= |data|
    ensures p + n <= column.offset || ElementAt(column, count) <= p ==>
      Part(ScrubRows(data, column, initial, count), p, n) == Part(data, p, n)
  {
    hide Part, Overwritten, ElementAt;
    if count > 0 {
      ElementStep(column, count - 1, count);
      ScrubbedRows(data, column, initial, count - 1, p, n);
      OverwrittenPart(ScrubRows(data, column, initial, count - 1), ElementAt(column, count - 1), initial, p, n);
    }
  }

  lemma {:induction false} ScrubbedElement(data: seq<byte>, column: Column, initial: seq<byte>, count: nat, r: nat)
    requires |initial| == column.elementSize && ElementAt(column, count) <= |data| && r < count
    ensures Element(ScrubRows(data, column, initial, count), column, r) == initial
  {
    ElementStep(column, count - 1, count);
    ElementStep(column, r, count);
    if r < count - 1 {
      ScrubbedElement(data, column, initial, count - 1, r);
      ElementStep(column, r, count - 1);
    }
    OverwrittenPart(ScrubRows(data, column, initial, count - 1), ElementAt(column, count - 1), initial,
                    ElementAt(column, r), column.elementSize);
  }

  /** The room a layout has: what the lemmas below need of it, type by type. */
  predicate Roomy(types: Types, mask: set<nat>, l: Layout, chunkSize: nat) {
    && Separated(l, chunkSize)
    && (forall k :: 0 <= k < |l.columns| ==> |InitialOf(types, mask, l.columns[k].slot)| == l.columns[k].elementSize)
    && (forall k :: 0 <= k < |l.chunkComponents| ==> |InitialOf(types, mask, l.chunkComponents[k].slot)| == l.chunkComponents[k].size)
  }

  lemma LayoutRoomy(types: Types, mask: set<nat>, chunkSize: nat, l: Layout)
    requires LayoutOk(types, mask, chunkSize, l)
    ensures Roomy(types, mask, l, chunkSize)
  {
    PackedSeparates(l, chunkSize);
    hide Chosen, AllValid, Packed;
    forall k | 0 <= k < |l.columns| ensures |InitialOf(types, mask, l.columns[k].slot)| == l.columns[k].elementSize {
      ColumnIs(types, mask, chunkSize, l, k);
    }
    forall k | 0 <= k < |l.chunkComponents| ensures |InitialOf(types, mask, l.chunkComponents[k].slot)| == l.chunkComponents[k].size {
      ComponentIs(types, mask, chunkSize, l, k);
    }
  }

  lemma ColumnRoom(types: Types, mask: set<nat>, l: Layout, chunkSize: nat, count: nat, k: nat)
    requires Roomy(types, mask, l, chunkSize) && count <= l.capacity && k < |l.columns|
    ensures EntityEnd(l) <= l.columns[k].offset && EntityEnd(l) <= chunkSize
    ensures ElementAt(l.columns[k], count) <= chunkSize
    ensures forall j :: 0 <= j < k ==> ElementAt(l.columns[j], count) <= l.columns[k].offset
  {
    ElementStep(l.columns[k], count, l.capacity);
    forall j | 0 <= j < k ensures ElementAt(l.columns[j], count) <= l.columns[k].offset {
      ElementStep(l.columns[j], count, l.capacity);
    }
  }

  /** Everything before the columns stays. */
  lemma {:induction false} ColumnsKeepFront(types: Types, mask: set<nat>, l: Layout, data: seq<byte>, count: nat, k: nat, p: nat, n: nat)
    requires Roomy(types, mask, l, |data|) && count <= l.capacity && k <= |l.columns| && p + n <= EntityEnd(l)
    ensures Part(ScrubColumns(types, mask, l, data, count, k), p, n) == Part(data, p, n)
  {
    hide Part, ScrubRows, InitialOf, IsTransient, Separated, ElementAt;
    if k > 0 {
      ColumnsKeepFront(types, mask, l, data, count, k - 1, p, n);
      ColumnRoom(types, mask, l, |data|, count, k - 1);
      hide Roomy;
      ColumnInitial(types, mask, l, |data|, k - 1);
      ScrubbedRows(ScrubColumns(types, mask, l, data, count, k - 1), l.columns[k - 1], InitialOf(types, mask, l.columns[k - 1].slot), count, p, n);
    }
  }

  lemma ColumnInitial(types: Types, mask: set<nat>, l: Layout, chunkSize: nat, k: nat)
    requires Roomy(types, mask, l, chunkSize) && k < |l.columns|
    ensures |InitialOf(types, mask, l.columns[k].slot)| == l.columns[k].elementSize
  {}

  /** An element of column j after the first k columns have been scrubbed. */
  lemma {:induction false} ColumnsScrubbed(types: Types, mask: set<nat>, l: Layout, data: seq<byte>, count: nat, k: nat, j: nat, r: nat)
    requires Roomy(types, mask, l, |data|) && count <= l.capacity && k <= |l.columns| && j < |l.columns| && r < count
    ensures Element(ScrubColumns(types, mask, l, data, count, k), l.columns[j], r) ==
      if j < k && IsTransient(types, mask, l.columns[j].slot) then InitialOf(types, mask, l.columns[j].slot) else Element(data, l.columns[j], r)
  {
    hide Part, ScrubRows, InitialOf, IsTransient, Separated, ElementAt;
    if k > 0 {
      ColumnsScrubbed(types, mask, l, data, count, k - 1, j, r);
      var before, column := ScrubColumns(types, mask, l, data, count, k - 1), l.columns[k - 1];
      ColumnRoom(types, mask, l, |data|, count, k - 1);
      ColumnRoom(types, mask, l, |data|, count, j);
      ColumnInitial(types, mask, l, |data|, k - 1);
      hide Roomy;
      ElementStep(l.columns[j], r, count);
      if j == k - 1 {
        ScrubbedElement(before, column, InitialOf(types, mask, column.slot), count, r);
      } else {
        ScrubbedRows(before, column, InitialOf(types, mask, column.slot), count, ElementAt(l.columns[j], r), l.columns[j].elementSize);
      }
    }
  }

  /** What lies outside the chunk components stays. */
  lemma {:induction false} ComponentsKeep(types: Types, mask: set<nat>, l: Layout, data: seq<byte>, k: nat, p: nat, n: nat)
    requires Roomy(types, mask, l, |data|) && k <= |l.chunkComponents| && p + n <= |data|
    requires p + n <= EnableEnd(l) || l.entityOffset <= p
    ensures Part(ScrubComponents(types, mask, l, data, k), p, n) == Part(data, p, n)
  {
    hide Part, Overwritten, InitialOf, IsTransient;
    if k > 0 {
      ComponentsKeep(types, mask, l, data, k - 1, p, n);
      OverwrittenPart(ScrubComponents(types, mask, l, data, k - 1), l.chunkComponents[k - 1].offset, InitialOf(types, mask, l.chunkComponents[k - 1].slot), p, n);
    }
  }

  lemma {:induction false} ComponentsScrubbed(types: Types, mask: set<nat>, l: Layout, data: seq<byte>, k: nat, j: nat)
    requires Roomy(types, mask, l, |data|) && k <= |l.chunkComponents| && j < |l.chunkComponents|
    ensures var c := l.chunkComponents[j];
      Part(ScrubComponents(types, mask, l, data, k), c.offset, c.size) ==
        if j < k && IsTransient(types, mask, c.slot) then InitialOf(types, mask, c.slot) else Part(data, c.offset, c.size)
  {
    hide Part, Overwritten, InitialOf, IsTransient;
    if k > 0 {
      ComponentsScrubbed(types, mask, l, data, k - 1, j);
      var c, d := l.chunkComponents[j], l.chunkComponents[k - 1];
      OverwrittenPart(ScrubComponents(types, mask, l, data, k - 1), d.offset, InitialOf(types, mask, d.slot), c.offset, c.size);
    }
  }

  /** A row with its Transient values at their defaults. */
  function Refreshed(types: Types, row: Row): Row {
    row.(values := map t | t in row.values :: if t < |types.infos| && types.infos[t].transient then types.infos[t].initial else row.values[t])
  }

  lemma SameBit(a: seq<byte>, b: seq<byte>, at: nat, r: nat)
    requires |a| == |b| && at + r / 8 < |a| && Part(a, at + r / 8, 1) == Part(b, at + r / 8, 1)
    ensures Bit(a, at, r) == Bit(b, at, r)
  {
    assert a[at + r / 8] == Part(a, at + r / 8, 1)[0];
    assert b[at + r / 8] == Part(b, at + r / 8, 1)[0];
  }

  /** Scrubbing leaves everything before the columns that is no chunk component. */
  lemma FrontStays(types: Types, mask: set<nat>, l: Layout, chunk: Chunk, p: nat, n: nat)
    requires Roomy(types, mask, l, |chunk.data|) && chunk.count <= l.capacity
    requires p + n <= EnableEnd(l) || (l.entityOffset <= p && p + n <= EntityEnd(l))
    ensures Part(Scrubbed(types, mask, l, chunk).data, p, n) == Part(chunk.data, p, n)
  {
    var columns := ScrubColumns(types, mask, l, chunk.data, chunk.count, |l.columns|);
    ColumnsKeepFront(types, mask, l, chunk.data, chunk.count, |l.columns|, p, n);
    ComponentsKeep(types, mask, l, columns, |l.chunkComponents|, p, n);
  }

  lemma EntityStays(types: Types, mask: set<nat>, l: Layout, chunk: Chunk, r: nat)
    requires Roomy(types, mask, l, |chunk.data|) && chunk.count <= l.capacity && r < chunk.count
    ensures EntityAt(Scrubbed(types, mask, l, chunk).data, l.entityOffset + r * ENTITY_BYTES) == EntityAt(chunk.data, l.entityOffset + r * ENTITY_BYTES)
  {
    hide Scrubbed, Roomy, Part, Number;
    FrontStays(types, mask, l, chunk, l.entityOffset + r * ENTITY_BYTES, 4);
    FrontStays(types, mask, l, chunk, l.entityOffset + r * ENTITY_BYTES + 4, 4);
  }

  lemma EntityEndAfter(l: Layout)
    ensures l.entityOffset <= EntityEnd(l)
  {}

  lemma ElementStays(types: Types, mask: set<nat>, l: Layout, chunk: Chunk, j: nat, r: nat)
    requires Roomy(types, mask, l, |chunk.data|) && chunk.count <= l.capacity && r < chunk.count && j < |l.columns|
    ensures Element(Scrubbed(types, mask, l, chunk).data, l.columns[j], r) ==
      if IsTransient(types, mask, l.columns[j].slot) then InitialOf(types, mask, l.columns[j].slot) else Element(chunk.data, l.columns[j], r)
  {
    var columns := ScrubColumns(types, mask, l, chunk.data, chunk.count, |l.columns|);
    ColumnsScrubbed(types, mask, l, chunk.data, chunk.count, |l.columns|, j, r);
    ColumnRoom(types, mask, l, |chunk.data|, chunk.count, j);
    ElementStep(l.columns[j], r, chunk.count);
    hide Part, InitialOf, IsTransient, ScrubColumns, ScrubComponents, ElementAt, EntityEnd;
    assert l.entityOffset <= EntityEnd(l) by { EntityEndAfter(l); }
    ComponentsKeep(types, mask, l, columns, |l.chunkComponents|, ElementAt(l.columns[j], r), l.columns[j].elementSize);
  }

  lemma BitStays(types: Types, mask: set<nat>, l: Layout, chunk: Chunk, slot: nat, r: nat)
    requires Roomy(types, mask, l, |chunk.data|) && chunk.count <= l.capacity && r < chunk.count
    requires slot < l.typeCount && l.enableWords == EnableWords(l.capacity)
    ensures Bit(Scrubbed(types, mask, l, chunk).data, BitsAt(l, slot), r) == Bit(chunk.data, BitsAt(l, slot), r)
  {
    BitFits(l, slot, r);
    FrontStays(types, mask, l, chunk, BitsAt(l, slot) + r / 8, 1);
    hide Part, Scrubbed, Bit, EnableEnd, BitsAt;
    SameBit(Scrubbed(types, mask, l, chunk).data, chunk.data, BitsAt(l, slot), r);
  }

  lemma LayoutCounts(types: Types, mask: set<nat>, chunkSize: nat, l: Layout)
    requires LayoutOk(types, mask, chunkSize, l)
    ensures l.typeCount == |types.Slots(mask)| && l.enableWords == EnableWords(l.capacity)
  {}

  predicate ValueCopied(types: Types, mask: set<nat>, l: Layout, a: seq<byte>, b: seq<byte>, r: nat, t: nat)
    requires types.HasColumn(t)
  {
    Element(b, ColumnOf(types, mask, l, t), r) ==
      if types.infos[t].transient then types.infos[t].initial else Element(a, ColumnOf(types, mask, l, t), r)
  }

  predicate BitCopied(types: Types, mask: set<nat>, l: Layout, a: seq<byte>, b: seq<byte>, r: nat, t: nat) {
    Bit(b, BitsOf(types, mask, l, t), r) == Bit(a, BitsOf(types, mask, l, t), r)
  }

  lemma CopiedValue(types: Types, mask: set<nat>, chunkSize: nat, l: Layout, chunk: Chunk, r: nat, t: nat)
    requires LayoutOk(types, mask, chunkSize, l) && |chunk.data| == chunkSize && r < chunk.count <= l.capacity
    requires t in mask && types.HasColumn(t)
    ensures ValueCopied(types, mask, l, chunk.data, Scrubbed(types, mask, l, chunk).data, r, t)
  {
    LayoutRoomy(types, mask, chunkSize, l);
    ColumnThere(types, mask, chunkSize, l, t);
    hide LayoutOk, Roomy, Scrubbed, Element;
    ElementStays(types, mask, l, chunk, ColumnIndex(l.columns, SlotOf(types.Slots(mask), t)), r);
  }

  lemma CopiedBit(types: Types, mask: set<nat>, chunkSize: nat, l: Layout, chunk: Chunk, r: nat, t: nat)
    requires LayoutOk(types, mask, chunkSize, l) && |chunk.data| == chunkSize && r < chunk.count <= l.capacity
    requires t in mask && t < |types.infos|
    ensures BitCopied(types, mask, l, chunk.data, Scrubbed(types, mask, l, chunk).data, r, t)
  {
    LayoutRoomy(types, mask, chunkSize, l);
    LayoutCounts(types, mask, chunkSize, l);
    assert t in types.Slots(mask);
    hide LayoutOk, Roomy, Scrubbed, Bit, BitsAt;
    BitStays(types, mask, l, chunk, SlotOf(types.Slots(mask), t), r);
  }

  lemma RowsAgree(types: Types, mask: set<nat>, l: Layout, a: seq<byte>, b: seq<byte>, r: nat)
    requires EntityAt(b, l.entityOffset + r * ENTITY_BYTES) == EntityAt(a, l.entityOffset + r * ENTITY_BYTES)
    requires forall t :: t in mask && types.HasColumn(t) ==> ValueCopied(types, mask, l, a, b, r, t)
    requires forall t :: t in mask ==> BitCopied(types, mask, l, a, b, r, t)
    ensures RowAt(types, mask, l, b, r) == Refreshed(types, RowAt(types, mask, l, a, r))
  {
    hide Element, Bit, BitsOf, EntityAt, ColumnOf;
    var x, y := Refreshed(types, RowAt(types, mask, l, a, r)), RowAt(types, mask, l, b, r);
    assert y.enabled == x.enabled by {
      forall t | t in mask ensures y.enabled[t] == x.enabled[t] {
        assert BitCopied(types, mask, l, a, b, r, t);
      }
    }
    assert y.values == x.values by {
      forall t | t in mask && types.HasColumn(t) ensures y.values[t] == x.values[t] {
        assert ValueCopied(types, mask, l, a, b, r, t);
      }
    }
  }

  /** Row by row the copy holds what the chunk holds, with Transient values at their defaults; enable
      bits and handles are the chunk's own. */
  lemma CopiedRow(types: Types, mask: set<nat>, chunkSize: nat, l: Layout, chunk: Chunk, r: nat)
    requires LayoutOk(types, mask, chunkSize, l) && |chunk.data| == chunkSize && r < chunk.count <= l.capacity
    requires forall t :: t in mask ==> t < |types.infos|
    ensures RowAt(types, mask, l, Scrubbed(types, mask, l, chunk).data, r) == Refreshed(types, RowAt(types, mask, l, chunk.data, r))
  {
    LayoutRoomy(types, mask, chunkSize, l);
    EntityStays(types, mask, l, chunk, r);
    hide *;
    forall t | t in mask && types.HasColumn(t) ensures ValueCopied(types, mask, l, chunk.data, Scrubbed(types, mask, l, chunk).data, r, t) {
      CopiedValue(types, mask, chunkSize, l, chunk, r, t);
    }
    forall t | t in mask ensures BitCopied(types, mask, l, chunk.data, Scrubbed(types, mask, l, chunk).data, r, t) {
      CopiedBit(types, mask, chunkSize, l, chunk, r, t);
    }
    RowsAgree(types, mask, l, chunk.data, Scrubbed(types, mask, l, chunk).data, r);
  }

  /** The values the chunk holds once, Transient ones at their defaults. */
  lemma CopiedComponent(types: Types, mask: set<nat>, chunkSize: nat, l: Layout, chunk: Chunk, j: nat)
    requires LayoutOk(types, mask, chunkSize, l) && |chunk.data| == chunkSize && chunk.count <= l.capacity && j < |l.chunkComponents|
    ensures var c := l.chunkComponents[j];
      Part(Scrubbed(types, mask, l, chunk).data, c.offset, c.size) ==
        if IsTransient(types, mask, c.slot) then InitialOf(types, mask, c.slot) else Part(chunk.data, c.offset, c.size)
  {
    LayoutRoomy(types, mask, chunkSize, l);
    var columns := ScrubColumns(types, mask, l, chunk.data, chunk.count, |l.columns|);
    ComponentsScrubbed(types, mask, l, columns, |l.chunkComponents|, j);
    hide Chosen, AllValid, Packed, Part, InitialOf, IsTransient, ScrubColumns, ScrubComponents;
    ColumnsKeepFront(types, mask, l, chunk.data, chunk.count, |l.columns|, l.chunkComponents[j].offset, l.chunkComponents[j].size);
  }
}
