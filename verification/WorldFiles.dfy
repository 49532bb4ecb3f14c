/** World files: what Save writes, what Load reads. */
module WorldFiles {
  import opened Bytes
  import opened Results
  import opened Entities
  import opened Archetypes
  import opened ChunkLayouts
  import opened ChunkImages
  import WorldStates

  /** What a world is set up with: its registered types (and their hash), its chunk size, the layouts
      of their sets, and the state size of each managed type. */
  datatype Setup = Setup(types: Types, schemaHash: nat, chunkSize: nat, layouts: set<nat> -> Option<Layout>, stateSizes: map<nat, nat>)
  {
    predicate NumbersFit() {
      && schemaHash < Limit(8) && chunkSize < Limit(4)
      && forall t :: 0 <= t < |types.infos| ==>
        && |types.infos[t].name| < Limit(4) && types.infos[t].typeId < Limit(8) && types.infos[t].layoutHash < Limit(8)
        && types.infos[t].info.size < Limit(4) && types.infos[t].info.alignment < Limit(4)
    }

    ghost predicate LayoutsOk() {
      forall mask: set<nat> :: layouts(mask).Some? ==>
        LayoutOk(types, mask, chunkSize, layouts(mask).value) && forall t :: t in mask ==> t < |types.infos|
    }

    ghost predicate Valid() {
      types.Valid() && NumbersFit() && LayoutsOk()
    }
  }

  datatype StateBlock = StateBlock(typeId: nat, state: seq<byte>)

  /** A managed object; only typed ones have a state block. */
  datatype Managed = Managed(generation: nat, owner: EntityId, block: Option<StateBlock>)

  datatype ByteArchetype = ByteArchetype(mask: set<nat>, prototype: bool, layout: Layout, chunks: seq<Chunk>)

  datatype World = World(version: nat, table: Table, marks: seq<WorldStates.Mark>, archetypes: seq<ByteArchetype>, managed: seq<Option<Managed>>)

  const EMPTY := World(0, Table([], [], 0), [], [], [])

  // --- what is written ------------------------------------------------------------------------------

  const MAGIC: seq<byte> := [79, 89, 73, 87]

  const FORMAT_VERSION: nat := 0

  function Numbers(n: nat, xs: seq<nat>): (r: seq<byte>)
    ensures |r| == n * |xs|
  {
    if xs == [] then [] else Little(n, xs[0]) + Numbers(n, xs[1..])
  }

  function TypeEntry(info: TypeInfo): seq<byte> {
    Little(4, |info.name|) + (info.name + (Little(8, info.typeId) + (Little(8, info.layoutHash) + (Little(4, info.info.size) + Little(4, info.info.alignment)))))
  }

  function TypeTable(infos: seq<TypeInfo>): seq<byte> {
    if infos == [] then [] else TypeEntry(infos[0]) + TypeTable(infos[1..])
  }

  function Header(setup: Setup, version: nat): seq<byte> {
    MAGIC + (Little(4, FORMAT_VERSION) + (Little(8, setup.schemaHash) + (Little(4, setup.chunkSize) + (Little(4, version)
    + (Little(4, |setup.types.infos|) + TypeTable(setup.types.infos))))))
  }

  function MarkCode(mark: WorldStates.Mark): nat {
    match mark
    case Unmarked => 0
    case Prototype => 1
    case Locked => 2
  }

  function GenerationsOf(table: Table): seq<nat> {
    seq(|table.slots|, i requires 0 <= i < |table.slots| => table.slots[i].generation)
  }

  function AliveCodes(table: Table): seq<nat> {
    seq(|table.slots|, i requires 0 <= i < |table.slots| => if table.slots[i].alive then 1 else 0)
  }

  function MarkCodes(table: Table, marks: seq<WorldStates.Mark>): seq<nat> {
    seq(|table.slots|, i requires 0 <= i < |table.slots| => MarkCode(WorldStates.MarkAt(marks, i)))
  }

  function EntityTable(table: Table, marks: seq<WorldStates.Mark>): seq<byte> {
    Little(4, |table.slots|) + (Numbers(4, GenerationsOf(table)) + (Numbers(1, AliveCodes(table)) + Numbers(1, MarkCodes(table, marks))))
  }

  function ChunkBytes(types: Types, mask: set<nat>, l: Layout, chunk: Chunk): seq<byte> {
    Little(4, chunk.count) + Scrubbed(types, mask, l, chunk).data
  }

  function ChunkTable(types: Types, mask: set<nat>, l: Layout, chunks: seq<Chunk>): seq<byte> {
    if chunks == [] then [] else ChunkBytes(types, mask, l, chunks[0]) + ChunkTable(types, mask, l, chunks[1..])
  }

  function ArchetypeBytes(types: Types, a: ByteArchetype): seq<byte> {
    Little(1, if a.prototype then 1 else 0) + (Little(4, |types.Slots(a.mask)|) + (Numbers(2, types.Slots(a.mask))
    + (Little(4, |a.chunks|) + ChunkTable(types, a.mask, a.layout, a.chunks))))
  }

  function ArchetypeTable(types: Types, archetypes: seq<ByteArchetype>): seq<byte> {
    if archetypes == [] then [] else ArchetypeBytes(types, archetypes[0]) + ArchetypeTable(types, archetypes[1..])
  }

  predicate IsTyped(held: Option<Managed>) {
    held.Some? && held.value.block.Some?
  }

  function TypedCount(managed: seq<Option<Managed>>): nat {
    if managed == [] then 0 else (if IsTyped(managed[0]) then 1 else 0) + TypedCount(managed[1..])
  }

  function ManagedBytes(index: nat, held: Managed, block: StateBlock): seq<byte> {
    Little(4, index) + (Little(4, held.generation) + (Little(4, held.owner.index) + (Little(4, held.owner.generation)
    + (Little(8, block.typeId) + (Little(4, |block.state|) + block.state)))))
  }

  /** The typed objects from slot `index` on. */
  function ManagedTable(managed: seq<Option<Managed>>, index: nat): seq<byte>
    requires index <= |managed|
    decreases |managed| - index
  {
    if index == |managed| then []
    else (if IsTyped(managed[index]) then ManagedBytes(index, managed[index].value, managed[index].value.block.value) else [])
         + ManagedTable(managed, index + 1)
  }

  function Saved(setup: Setup, w: World): seq<byte> {
    Header(setup, w.version)
    + (EntityTable(w.table, w.marks)
    + (Little(4, |w.archetypes|)
    + (ArchetypeTable(setup.types, w.archetypes)
    + (Little(4, TypedCount(w.managed)) + ManagedTable(w.managed, 0)))))
  }

  // --- what is read ---------------------------------------------------------------------------------

  datatype Parsed<T> = Parsed(value: T, at: nat) | Bad(error: Error)

  /** Reader::Get. */
  function Get(data: seq<byte>, at: nat, n: nat): Option<nat> {
    if at + n <= |data| then Some(Number(data[at..at + n])) else None
  }

  /** Reader::Take. */
  function Take(data: seq<byte>, at: nat, n: nat): Option<seq<byte>> {
    if at + n <= |data| then Some(data[at..at + n]) else None
  }

  function NumbersOf(n: nat, bytes: seq<byte>, count: nat): (r: seq<nat>)
    requires |bytes| == n * count
    ensures |r| == count
  {
    if count == 0 then [] else NumbersLeft(n, count); [Number(bytes[..n])] + NumbersOf(n, bytes[n..], count - 1)
  }

  lemma NumbersLeft(n: nat, count: nat)
    requires count > 0
    ensures n <= n * count && n * count - n == n * (count - 1)
  {}

  /** One entry of the type table agrees with the registered type. */
  function ReadType(info: TypeInfo, data: seq<byte>, at: nat): Parsed<()> {
    var name := Get(data, at, 4);
    if name.None? || at + 4 + name.value > |data| then Bad(CorruptData)
    else
      var at := at + 4 + name.value;
      var typeId, layoutHash, size, alignment := Get(data, at, 8), Get(data, at + 8, 8), Get(data, at + 16, 4), Get(data, at + 20, 4);
      if typeId.None? || layoutHash.None? || size.None? || alignment.None? then Bad(CorruptData)
      else if typeId.value != info.typeId || layoutHash.value != info.layoutHash || size.value != info.info.size || alignment.value != info.info.alignment
      then Bad(CorruptData)
      else Parsed((), at + 24)
  }

  function ReadTypes(infos: seq<TypeInfo>, data: seq<byte>, at: nat): Parsed<()> {
    if infos == [] then Parsed((), at)
    else
      var r := ReadType(infos[0], data, at);
      if r.Bad? then r else ReadTypes(infos[1..], data, r.at)
  }

  /** The header and the type table; the value is the world version. */
  function ReadHeader(setup: Setup, data: seq<byte>): Parsed<nat> {
    var magic, version, schema, chunkSize, worldVersion := Take(data, 0, 4), Get(data, 4, 4), Get(data, 8, 8), Get(data, 16, 4), Get(data, 20, 4);
    if magic != Some(MAGIC) || version != Some(FORMAT_VERSION) || schema.None? || chunkSize.None? || worldVersion.None? then Bad(CorruptData)
    else if schema.value != setup.schemaHash || chunkSize.value != setup.chunkSize then Bad(CorruptData)
    else if Get(data, 24, 4) != Some(|setup.types.infos|) then Bad(CorruptData)
    else
      var r := ReadTypes(setup.types.infos, data, 28);
      if r.Bad? then Bad(r.error) else Parsed(worldVersion.value, r.at)
  }

  datatype EntityRows = EntityRows(generations: seq<nat>, alive: seq<nat>, marks: seq<nat>)

  predicate RowsOk(rows: EntityRows, n: nat) {
    && |rows.generations| == n && |rows.alive| == n && |rows.marks| == n
    && forall i :: 0 <= i < n ==> rows.generations[i] != 0 && rows.alive[i] <= 1 && rows.marks[i] <= 2 && (rows.alive[i] == 0 ==> rows.marks[i] == 0)
  }

  function ReadTable(data: seq<byte>, at: nat): (r: Parsed<EntityRows>)
    ensures r.Parsed? ==> RowsOk(r.value, |r.value.alive|)
  {
    var capacity := Get(data, at, 4);
    if capacity.None? then Bad(CorruptData)
    else
      var n, at := capacity.value, at + 4;
      var generations, alive, marks := Take(data, at, 4 * n), Take(data, at + 4 * n, 1 * n), Take(data, at + 5 * n, 1 * n);
      if generations.None? || alive.None? || marks.None? then Bad(CorruptData)
      else
        var rows := EntityRows(NumbersOf(4, generations.value, n), NumbersOf(1, alive.value, n), NumbersOf(1, marks.value, n));
        if RowsOk(rows, n) then Parsed(rows, at + 6 * n) else Bad(CorruptData)
  }

  /** EntityRegistry::Restore: the dead indices in descending order. */
  function FreeFrom(alive: seq<nat>, n: nat): seq<nat>
    requires n <= |alive|
  {
    if n == 0 then [] else (if alive[n - 1] == 0 then [n - 1] else []) + FreeFrom(alive, n - 1)
  }

  function Restored(rows: EntityRows): Table
    requires |rows.generations| == |rows.alive|
  {
    var n := |rows.alive|;
    var free := FreeFrom(rows.alive, n);
    Table(seq(n, i requires 0 <= i < n => Slot(rows.generations[i], rows.alive[i] != 0, NOWHERE)), free, if |free| <= n then n - |free| else 0)
  }

  function MarkFrom(code: nat): WorldStates.Mark {
    if code == 0 then WorldStates.Unmarked else if code == 1 then WorldStates.Prototype else WorldStates.Locked
  }

  function MarksFrom(codes: seq<nat>): seq<WorldStates.Mark> {
    seq(|codes|, i requires 0 <= i < |codes| => MarkFrom(codes[i]))
  }

  function ReadMask(types: Types, data: seq<byte>, at: nat, count: nat, mask: set<nat>): Parsed<set<nat>>
    decreases count
  {
    if count == 0 then Parsed(mask, at)
    else
      var value := Get(data, at, 2);
      if value.None? || value.value >= |types.infos| then Bad(CorruptData)
      else ReadMask(types, data, at + 2, count - 1, mask + {value.value})
  }

  /** GetOrCreateArchetype: the archetypes, and the index of the one. */
  function FindArchetype(archetypes: seq<ByteArchetype>, mask: set<nat>, prototype: bool): (r: nat)
    ensures r <= |archetypes|
  {
    if archetypes == [] then 0
    else if archetypes[0].mask == mask && archetypes[0].prototype == prototype then 0
    else 1 + FindArchetype(archetypes[1..], mask, prototype)
  }

  /** The rows of chunk c from row r on are told where they are. */
  function LocateRows(w: World, a: nat, c: nat, r: nat, located: nat): (o: Option<(World, nat)>)
    requires a < |w.archetypes| && c < |w.archetypes[a].chunks| && r <= w.archetypes[a].chunks[c].count
    ensures o.Some? ==> o.value.0 == w.(table := o.value.0.table)
    decreases w.archetypes[a].chunks[c].count - r
  {
    var chunk := w.archetypes[a].chunks[c];
    if r == chunk.count then Some((w, located))
    else
      var e := EntityAt(chunk.data, w.archetypes[a].layout.entityOffset + r * ENTITY_BYTES);
      if !w.table.IsAlive(e) || ((WorldStates.MarkAt(w.marks, e.index) == WorldStates.Prototype) != w.archetypes[a].prototype) then None
      else LocateRows(w.(table := w.table.Relocated(e, Location(a, c, r))), a, c, r + 1, located + 1)
  }

  /** RestoreChunk. */
  predicate Restorable(a: ByteArchetype, rows: nat) {
    && 0 < rows <= a.layout.capacity
    && (a.chunks != [] ==> a.chunks[|a.chunks| - 1].count == a.layout.capacity)
  }

  function ReadChunks(setup: Setup, data: seq<byte>, at: nat, w: World, a: nat, c: nat, count: nat, located: nat): (r: Parsed<(World, nat)>)
    requires a < |w.archetypes| && c <= |w.archetypes[a].chunks|
    decreases count
  {
    if count == 0 then Parsed((w, located), at)
    else
      var rows, bytes := Get(data, at, 4), Take(data, at + 4, setup.chunkSize);
      if rows.None? || bytes.None? then Bad(CorruptData)
      else if !Restorable(w.archetypes[a], rows.value) then Bad(InvalidArgument)
      else
        var next := w.(archetypes := w.archetypes[a := w.archetypes[a].(chunks := w.archetypes[a].chunks + [Chunk(rows.value, bytes.value)])]);
        var found := LocateRows(next, a, c, 0, located);
        if found.None? then Bad(CorruptData)
        else ReadChunks(setup, data, at + 4 + setup.chunkSize, found.value.0, a, c + 1, count - 1, found.value.1)
  }

  function ReadArchetype(setup: Setup, data: seq<byte>, at: nat, w: World, located: nat): (r: Parsed<(World, nat)>) {
    var prototype, typeCount := Get(data, at, 1), Get(data, at + 1, 4);
    if prototype.None? || prototype.value > 1 || typeCount.None? || typeCount.value > MAX_TYPES then Bad(CorruptData)
    else
      var mask := ReadMask(setup.types, data, at + 5, typeCount.value, {});
      if mask.Bad? then Bad(mask.error)
      else
        var a := FindArchetype(w.archetypes, mask.value, prototype.value == 1);
        if a == |w.archetypes| && setup.layouts(mask.value).None? then Bad(InvalidArgument)
        else
          var grown := if a < |w.archetypes| then w
                       else w.(archetypes := w.archetypes + [ByteArchetype(mask.value, prototype.value == 1, setup.layouts(mask.value).value, [])]);
          var chunkCount := Get(data, mask.at, 4);
          if chunkCount.None? then Bad(CorruptData)
          else ReadChunks(setup, data, mask.at + 4, grown, a, 0, chunkCount.value, located)
  }

  function ReadArchetypes(setup: Setup, data: seq<byte>, at: nat, w: World, count: nat, located: nat): (r: Parsed<(World, nat)>)
    decreases count
  {
    if count == 0 then Parsed((w, located), at)
    else
      var r := ReadArchetype(setup, data, at, w, located);
      if r.Bad? then r else ReadArchetypes(setup, data, r.at, r.value.0, count - 1, r.value.1)
  }

  /** ManagedPool::Restore: refused where an object already is. */
  function Placed(managed: seq<Option<Managed>>, index: nat, held: Managed): Option<seq<Option<Managed>>> {
    var grown := if index < |managed| then managed else managed + seq(index + 1 - |managed|, _ => None);
    if grown[index].Some? then None else Some(grown[index := Some(held)])
  }

  function ReadManaged(setup: Setup, data: seq<byte>, at: nat, w: World, count: nat): (r: Parsed<World>)
    decreases count
  {
    if count == 0 then Parsed(w, at)
    else
      var index, generation, ownerIndex, ownerGeneration := Get(data, at, 4), Get(data, at + 4, 4), Get(data, at + 8, 4), Get(data, at + 12, 4);
      var typeId, size := Get(data, at + 16, 8), Get(data, at + 24, 4);
      if index.None? || generation.None? || ownerIndex.None? || ownerGeneration.None? || typeId.None? || size.None? then Bad(CorruptData)
      else
        var bytes, owner := Take(data, at + 28, size.value), EntityId(ownerIndex.value, ownerGeneration.value);
        if bytes.None? || generation.value == 0 || !w.table.IsAlive(owner) then Bad(CorruptData)
        else if typeId.value !in setup.stateSizes || setup.stateSizes[typeId.value] != size.value then Bad(CorruptData)
        else
          var placed := Placed(w.managed, index.value, Managed(generation.value, owner, Some(StateBlock(typeId.value, bytes.value))));
          if placed.None? then Bad(CorruptData)
          else ReadManaged(setup, data, at + 28 + size.value, w.(managed := placed.value), count - 1)
  }

  /** What Load makes of the bytes, in an empty world with this setup that has reached version `was`. */
  function Loaded(setup: Setup, was: nat, data: seq<byte>): Result<World> {
    var header := ReadHeader(setup, data);
    if header.Bad? then Fail(header.error)
    else
      var table := ReadTable(data, header.at);
      if table.Bad? then Fail(table.error)
      else
        var count := Get(data, table.at, 4);
        if count.None? then Fail(CorruptData)
        else
          var w := World(was, Restored(table.value), MarksFrom(table.value.marks), [], []);
          var archetypes := ReadArchetypes(setup, data, table.at + 4, w, count.value, 0);
          if archetypes.Bad? then Fail(archetypes.error)
          else if archetypes.value.1 != archetypes.value.0.table.aliveCount then Fail(CorruptData)
          else
            var managedCount := Get(data, archetypes.at, 4);
            if managedCount.None? then Fail(CorruptData)
            else
              var r := ReadManaged(setup, data, archetypes.at + 4, archetypes.value.0, managedCount.value);
              if r.Bad? then Fail(r.error)
              else if r.at != |data| then Fail(CorruptData)
              else Ok(r.value.(version := header.value))
  }
}
