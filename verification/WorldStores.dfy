/** Save and Load as they run: a writer that appends, a reader that advances, and the world that is
    filled step by step. */
module WorldStores {
  import opened Bytes
  import opened Results
  import opened Entities
  import opened ChunkLayouts
  import opened ChunkImages
  import opened WorldFiles
  import opened WorldRoundTrips
  import WorldStates

  class Writer {
    var out: seq<byte>

    constructor ()
      ensures out == []
    {
      out := [];
    }

    method Put(n: nat, value: nat)
      modifies this
      ensures out == old(out) + Little(n, value)
    {
      out := out + Little(n, value);
    }

    method PutBytes(bytes: seq<byte>)
      modifies this
      ensures out == old(out) + bytes
    {
      out := out + bytes;
    }

    method PutString(text: seq<byte>)
      modifies this
      ensures out == old(out) + (Little(4, |text|) + text)
    {
      Put(4, |text|);
      PutBytes(text);
    }

    method PutAll(n: nat, values: seq<nat>)
      modifies this
      ensures out == old(out) + Numbers(n, values)
    {
      for i := 0 to |values|
        invariant out + Numbers(n, values[i..]) == old(out) + Numbers(n, values)
      {
        assert values[i..][0] == values[i] && values[i..][1..] == values[i + 1..];
        Associate(out, Little(n, values[i]), Numbers(n, values[i + 1..]));
        Put(n, values[i]);
      }
      assert values[|values|..] == [];
    }
  }

  lemma Associate(a: seq<byte>, b: seq<byte>, c: seq<byte>)
    ensures (a + b) + c == a + (b + c)
  {}

  class Reader {
    const data: seq<byte>
    var offset: nat

    constructor (data: seq<byte>)
      ensures this.data == data && offset == 0
    {
      this.data, offset := data, 0;
    }

    method Get(n: nat) returns (value: Option<nat>)
      modifies this
      ensures value == WorldFiles.Get(data, old(offset), n)
      ensures offset == if value.Some? then old(offset) + n else old(offset)
    {
      if offset + n > |data| { return None; }
      value := Some(Number(data[offset..offset + n]));
      offset := offset + n;
    }

    method Take(n: nat) returns (bytes: Option<seq<byte>>)
      modifies this
      ensures bytes == WorldFiles.Take(data, old(offset), n)
      ensures offset == if bytes.Some? then old(offset) + n else old(offset)
    {
      if offset + n > |data| { return None; }
      bytes := Some(data[offset..offset + n]);
      offset := offset + n;
    }
  }

  // --- saving ---------------------------------------------------------------------------------------

  lemma {:induction false} NothingScrubbed(types: Types, mask: set<nat>, l: Layout, data: seq<byte>, count: nat, k: nat)
    requires forall t :: t in mask ==> t >= |types.infos| || !types.infos[t].transient
    ensures k <= |l.columns| ==> ScrubColumns(types, mask, l, data, count, k) == data
    ensures k <= |l.chunkComponents| ==> ScrubComponents(types, mask, l, data, k) == data
  {
    if k > 0 {
      NothingScrubbed(types, mask, l, data, count, k - 1);
    }
  }

  /** The bytes of a chunk as a file holds them. */
  method ChunkCopy(types: Types, mask: set<nat>, l: Layout, chunk: Chunk, hasTransient: bool) returns (scratch: seq<byte>)
    requires hasTransient <==> exists t :: t in mask && t < |types.infos| && types.infos[t].transient
    ensures scratch == Scrubbed(types, mask, l, chunk).data
  {
    hide Overwritten, IsTransient, InitialOf;
    scratch := chunk.data;
    if !hasTransient {
      NothingScrubbed(types, mask, l, chunk.data, chunk.count, |l.columns|);
      NothingScrubbed(types, mask, l, chunk.data, chunk.count, |l.chunkComponents|);
      return;
    }
    for k := 0 to |l.columns|
      invariant scratch == ScrubColumns(types, mask, l, chunk.data, chunk.count, k)
    {
      var column := l.columns[k];
      if IsTransient(types, mask, column.slot) {
        ghost var before := scratch;
        for row := 0 to chunk.count
          invariant scratch == ScrubRows(before, column, InitialOf(types, mask, column.slot), row)
        {
          scratch := Overwritten(scratch, column.offset + row * column.elementSize, InitialOf(types, mask, column.slot));
        }
      }
    }
    ghost var columns := scratch;
    for k := 0 to |l.chunkComponents|
      invariant scratch == ScrubComponents(types, mask, l, columns, k)
    {
      var component := l.chunkComponents[k];
      if IsTransient(types, mask, component.slot) {
        scratch := Overwritten(scratch, component.offset, InitialOf(types, mask, component.slot));
      }
    }
  }

  method PutTypes(writer: Writer, infos: seq<TypeInfo>)
    modifies writer
    ensures writer.out == old(writer.out) + TypeTable(infos)
  {
    hide Little;
    for i := 0 to |infos|
      invariant writer.out + TypeTable(infos[i..]) == old(writer.out) + TypeTable(infos)
    {
      assert infos[i..][0] == infos[i] && infos[i..][1..] == infos[i + 1..];
      Associate(writer.out, TypeEntry(infos[i]), TypeTable(infos[i + 1..]));
      ghost var before := writer.out;
      writer.PutString(infos[i].name);
      writer.Put(8, infos[i].typeId);
      writer.Put(8, infos[i].layoutHash);
      writer.Put(4, infos[i].info.size);
      writer.Put(4, infos[i].info.alignment);
      assert writer.out == before + TypeEntry(infos[i]);
    }
    assert infos[|infos|..] == [];
  }

  method PutEntities(writer: Writer, table: Table, marks: seq<WorldStates.Mark>)
    modifies writer
    ensures writer.out == old(writer.out) + EntityTable(table, marks)
  {
    hide Little, Numbers;
    writer.Put(4, |table.slots|);
    writer.PutAll(4, GenerationsOf(table));
    writer.PutAll(1, AliveCodes(table));
    writer.PutAll(1, MarkCodes(table, marks));
  }

  method HasTransient(types: Types, mask: set<nat>) returns (found: bool)
    ensures found <==> exists t :: t in mask && t < |types.infos| && types.infos[t].transient
  {
    var slots := types.Slots(mask);
    found := false;
    for i := 0 to |slots|
      invariant found <==> exists k :: 0 <= k < i && types.infos[slots[k]].transient
    {
      found := found || types.infos[slots[i]].transient;
    }
    assert forall t :: t in mask && t < |types.infos| ==> t in slots;
  }

  method PutChunks(writer: Writer, types: Types, a: ByteArchetype)
    modifies writer
    ensures writer.out == old(writer.out) + ChunkTable(types, a.mask, a.layout, a.chunks)
  {
    hide Little, Scrubbed;
    var hasTransient := HasTransient(types, a.mask);
    for c := 0 to |a.chunks|
      invariant writer.out + ChunkTable(types, a.mask, a.layout, a.chunks[c..]) == old(writer.out) + ChunkTable(types, a.mask, a.layout, a.chunks)
    {
      assert a.chunks[c..][0] == a.chunks[c] && a.chunks[c..][1..] == a.chunks[c + 1..];
      Associate(writer.out, WorldFiles.ChunkBytes(types, a.mask, a.layout, a.chunks[c]), ChunkTable(types, a.mask, a.layout, a.chunks[c + 1..]));
      ghost var before := writer.out;
      writer.Put(4, a.chunks[c].count);
      var scratch := ChunkCopy(types, a.mask, a.layout, a.chunks[c], hasTransient);
      writer.PutBytes(scratch);
      assert writer.out == before + WorldFiles.ChunkBytes(types, a.mask, a.layout, a.chunks[c]);
    }
    assert a.chunks[|a.chunks|..] == [];
  }

  method PutArchetype(writer: Writer, types: Types, a: ByteArchetype)
    modifies writer
    ensures writer.out == old(writer.out) + ArchetypeBytes(types, a)
  {
    hide Little, Numbers, ChunkTable, Types.Slots;
    writer.Put(1, if a.prototype then 1 else 0);
    writer.Put(4, |types.Slots(a.mask)|);
    writer.PutAll(2, types.Slots(a.mask));
    writer.Put(4, |a.chunks|);
    PutChunks(writer, types, a);
  }

  method PutArchetypes(writer: Writer, types: Types, archetypes: seq<ByteArchetype>)
    modifies writer
    ensures writer.out == old(writer.out) + ArchetypeTable(types, archetypes)
  {
    hide ArchetypeBytes;
    for i := 0 to |archetypes|
      invariant writer.out + ArchetypeTable(types, archetypes[i..]) == old(writer.out) + ArchetypeTable(types, archetypes)
    {
      assert archetypes[i..][0] == archetypes[i] && archetypes[i..][1..] == archetypes[i + 1..];
      Associate(writer.out, ArchetypeBytes(types, archetypes[i]), ArchetypeTable(types, archetypes[i + 1..]));
      PutArchetype(writer, types, archetypes[i]);
    }
    assert archetypes[|archetypes|..] == [];
  }

  method CountTyped(managed: seq<Option<Managed>>) returns (count: nat)
    ensures count == TypedCount(managed)
  {
    count := 0;
    for i := 0 to |managed|
      invariant count + TypedCount(managed[i..]) == TypedCount(managed)
    {
      assert managed[i..][0] == managed[i] && managed[i..][1..] == managed[i + 1..];
      if IsTyped(managed[i]) { count := count + 1; }
    }
    assert managed[|managed|..] == [];
  }

  method PutObject(writer: Writer, index: nat, held: Managed, block: StateBlock)
    modifies writer
    ensures writer.out == old(writer.out) + ManagedBytes(index, held, block)
  {
    hide Little;
    writer.Put(4, index);
    writer.Put(4, held.generation);
    writer.Put(4, held.owner.index);
    writer.Put(4, held.owner.generation);
    writer.Put(8, block.typeId);
    writer.Put(4, |block.state|);
    writer.PutBytes(block.state);
  }

  method PutManaged(writer: Writer, managed: seq<Option<Managed>>)
    modifies writer
    ensures writer.out == old(writer.out) + ManagedTable(managed, 0)
  {
    hide ManagedBytes;
    for i := 0 to |managed|
      invariant writer.out + ManagedTable(managed, i) == old(writer.out) + ManagedTable(managed, 0)
    {
      if IsTyped(managed[i]) {
        var held := managed[i].value;
        Associate(writer.out, ManagedBytes(i, held, held.block.value), ManagedTable(managed, i + 1));
        PutObject(writer, i, held, held.block.value);
      } else {
        assert ManagedTable(managed, i) == ManagedTable(managed, i + 1);
      }
    }
  }

  /** World::Save. */
  method SaveWorld(setup: Setup, w: World) returns (out: seq<byte>)
    ensures out == Saved(setup, w)
  {
    hide Little, TypeTable, EntityTable, ArchetypeTable, ManagedTable;
    var writer := new Writer();
    writer.PutBytes(MAGIC);
    writer.Put(4, FORMAT_VERSION);
    writer.Put(8, setup.schemaHash);
    writer.Put(4, setup.chunkSize);
    writer.Put(4, w.version);
    writer.Put(4, |setup.types.infos|);
    PutTypes(writer, setup.types.infos);
    assert writer.out == Header(setup, w.version);
    PutEntities(writer, w.table, w.marks);
    writer.Put(4, |w.archetypes|);
    PutArchetypes(writer, setup.types, w.archetypes);
    var count := CountTyped(w.managed);
    writer.Put(4, count);
    PutManaged(writer, w.managed);
    return writer.out;
  }

  // --- loading --------------------------------------------------------------------------------------

  method LoadType(reader: Reader, info: TypeInfo) returns (ok: bool)
    modifies reader
    ensures ReadType(info, reader.data, old(reader.offset)) == if ok then Parsed((), reader.offset) else Bad(CorruptData)
  {
    hide Number;
    var nameLength := reader.Get(4);
    if nameLength.None? { return false; }
    var name := reader.Take(nameLength.value);
    if name.None? { return false; }
    var typeId := reader.Get(8);
    if typeId.None? { return false; }
    var layoutHash := reader.Get(8);
    if layoutHash.None? { return false; }
    var size := reader.Get(4);
    if size.None? { return false; }
    var alignment := reader.Get(4);
    if alignment.None? { return false; }
    ok := typeId.value == info.typeId && layoutHash.value == info.layoutHash && size.value == info.info.size && alignment.value == info.info.alignment;
  }

  method LoadHeader(reader: Reader, setup: Setup) returns (version: Option<nat>)
    requires reader.offset == 0
    modifies reader
    ensures ReadHeader(setup, reader.data) == if version.Some? then Parsed(version.value, reader.offset) else Bad(CorruptData)
  {
    hide Number, ReadType;
    var magic := reader.Take(4);
    if magic != Some(MAGIC) { return None; }
    var format := reader.Get(4);
    if format != Some(FORMAT_VERSION) { return None; }
    var schema := reader.Get(8);
    if schema.None? { return None; }
    var chunkSize := reader.Get(4);
    if chunkSize.None? { return None; }
    version := reader.Get(4);
    if version.None? || schema.value != setup.schemaHash || chunkSize.value != setup.chunkSize { return None; }
    var componentCount := reader.Get(4);
    if componentCount != Some(|setup.types.infos|) { return None; }
    var infos := setup.types.infos;
    for i := 0 to |infos|
      invariant ReadTypes(infos[i..], reader.data, reader.offset) == ReadTypes(infos, reader.data, 28)
    {
      assert infos[i..][0] == infos[i] && infos[i..][1..] == infos[i + 1..];
      var ok := LoadType(reader, infos[i]);
      if !ok { return None; }
    }
    assert infos[|infos|..] == [];
  }

  method LoadTable(reader: Reader) returns (rows: Option<EntityRows>)
    modifies reader
    ensures ReadTable(reader.data, old(reader.offset)) == if rows.Some? then Parsed(rows.value, reader.offset) else Bad(CorruptData)
  {
    hide Number, NumbersOf;
    var capacity := reader.Get(4);
    if capacity.None? { return None; }
    var n := capacity.value;
    var generations := reader.Take(4 * n);
    if generations.None? { return None; }
    var alive := reader.Take(1 * n);
    if alive.None? { return None; }
    var marks := reader.Take(1 * n);
    if marks.None? { return None; }
    var table := EntityRows(NumbersOf(4, generations.value, n), NumbersOf(1, alive.value, n), NumbersOf(1, marks.value, n));
    for i := 0 to n
      invariant forall k :: 0 <= k < i ==>
        table.generations[k] != 0 && table.alive[k] <= 1 && table.marks[k] <= 2 && (table.alive[k] == 0 ==> table.marks[k] == 0)
    {
      if table.generations[i] == 0 || table.alive[i] > 1 || table.marks[i] > 2 || (table.alive[i] == 0 && table.marks[i] != 0) {
        return None;
      }
    }
    return Some(table);
  }

  method LoadMask(reader: Reader, types: Types, typeCount: nat) returns (mask: Option<set<nat>>)
    modifies reader
    ensures ReadMask(types, reader.data, old(reader.offset), typeCount, {}) == if mask.Some? then Parsed(mask.value, reader.offset) else Bad(CorruptData)
  {
    hide Number;
    var found: set<nat> := {};
    for t := 0 to typeCount
      invariant ReadMask(types, reader.data, reader.offset, typeCount - t, found) == ReadMask(types, reader.data, old(reader.offset), typeCount, {})
    {
      var value := reader.Get(2);
      if value.None? || value.value >= |types.infos| { return None; }
      found := found + {value.value};
    }
    return Some(found);
  }

  /** The fields of a world that its file holds. */
  class StoredWorld {
    const setup: Setup
    var version: nat
    var table: Table
    var marks: seq<WorldStates.Mark>
    var archetypes: seq<ByteArchetype>
    var managed: seq<Option<Managed>>

    ghost function Contents(): World
      reads this
    {
      World(version, table, marks, archetypes, managed)
    }

    constructor (setup: Setup)
      ensures this.setup == setup && Contents() == EMPTY
    {
      this.setup := setup;
      version, table, marks, archetypes, managed := 0, Table([], [], 0), [], [], [];
    }

    method Clear()
      modifies this
      ensures Contents() == EMPTY.(version := old(version))
    {
      table, marks, archetypes, managed := Table([], [], 0), [], [], [];
    }

    method Save() returns (out: seq<byte>)
      ensures out == Saved(setup, Contents())
    {
      out := SaveWorld(setup, World(version, table, marks, archetypes, managed));
    }

    /** The rows of a chunk just restored learn where they are. */
    method Locate(a: nat, c: nat, located: nat) returns (r: Option<nat>)
      requires a < |archetypes| && c < |archetypes[a].chunks|
      modifies this`table
      ensures match LocateRows(old(Contents()), a, c, 0, located)
              case Some(o) => r == Some(o.1) && Contents() == o.0
              case None => r == None
    {
      hide EntityAt;
      var chunk, count := archetypes[a].chunks[c], located;
      for row := 0 to chunk.count
        invariant LocateRows(Contents(), a, c, row, count) == LocateRows(old(Contents()), a, c, 0, located)
      {
        var e := EntityAt(chunk.data, archetypes[a].layout.entityOffset + row * ENTITY_BYTES);
        if !table.IsAlive(e) || ((WorldStates.MarkAt(marks, e.index) == WorldStates.Prototype) != archetypes[a].prototype) {
          return None;
        }
        table := table.Relocated(e, Location(a, c, row));
        count := count + 1;
      }
      return Some(count);
    }

    method LoadChunks(reader: Reader, a: nat, chunkCount: nat, located: nat) returns (r: Result<nat>)
      requires a < |archetypes|
      modifies this`table, this`archetypes, reader
      ensures match ReadChunks(setup, reader.data, old(reader.offset), old(Contents()), a, 0, chunkCount, located)
              case Parsed(o, at) => r == Ok(o.1) && Contents() == o.0 && reader.offset == at
              case Bad(e) => r == Fail(e)
    {
      hide LocateRows;
      var count := located;
      for c := 0 to chunkCount
        invariant a < |archetypes| && c <= |archetypes[a].chunks|
        invariant ReadChunks(setup, reader.data, reader.offset, Contents(), a, c, chunkCount - c, count)
               == ReadChunks(setup, reader.data, old(reader.offset), old(Contents()), a, 0, chunkCount, located)
      {
        var rows := reader.Get(4);
        if rows.None? { return Fail(CorruptData); }
        var bytes := reader.Take(setup.chunkSize);
        if bytes.None? { return Fail(CorruptData); }
        if !Restorable(archetypes[a], rows.value) { return Fail(InvalidArgument); }
        archetypes := archetypes[a := archetypes[a].(chunks := archetypes[a].chunks + [Chunk(rows.value, bytes.value)])];
        var found := Locate(a, c, count);
        if found.None? { return Fail(CorruptData); }
        count := found.value;
      }
      return Ok(count);
    }

    method LoadArchetype(reader: Reader, located: nat) returns (r: Result<nat>)
      modifies this`table, this`archetypes, reader
      ensures match ReadArchetype(setup, reader.data, old(reader.offset), old(Contents()), located)
              case Parsed(o, at) => r == Ok(o.1) && Contents() == o.0 && reader.offset == at
              case Bad(e) => r == Fail(e)
    {
      hide ReadChunks, ReadMask, FindArchetype, Number;
      var prototype := reader.Get(1);
      if prototype.None? || prototype.value > 1 { return Fail(CorruptData); }
      var typeCount := reader.Get(4);
      if typeCount.None? || typeCount.value > MAX_TYPES { return Fail(CorruptData); }
      var mask := LoadMask(reader, setup.types, typeCount.value);
      if mask.None? { return Fail(CorruptData); }
      var a := FindArchetype(archetypes, mask.value, prototype.value == 1);
      if a == |archetypes| {
        var layout := setup.layouts(mask.value);
        if layout.None? { return Fail(InvalidArgument); }
        archetypes := archetypes + [ByteArchetype(mask.value, prototype.value == 1, layout.value, [])];
      }
      var chunkCount := reader.Get(4);
      if chunkCount.None? { return Fail(CorruptData); }
      r := LoadChunks(reader, a, chunkCount.value, located);
    }

    method LoadArchetypes(reader: Reader, archetypeCount: nat) returns (r: Result<nat>)
      modifies this`table, this`archetypes, reader
      ensures match ReadArchetypes(setup, reader.data, old(reader.offset), old(Contents()), archetypeCount, 0)
              case Parsed(o, at) => r == Ok(o.1) && Contents() == o.0 && reader.offset == at
              case Bad(e) => r == Fail(e)
    {
      hide ReadArchetype;
      var located := 0;
      for a := 0 to archetypeCount
        invariant ReadArchetypes(setup, reader.data, reader.offset, Contents(), archetypeCount - a, located)
               == ReadArchetypes(setup, reader.data, old(reader.offset), old(Contents()), archetypeCount, 0)
      {
        r := LoadArchetype(reader, located);
        if r.Fail? { return; }
        located := r.value;
      }
      return Ok(located);
    }

    method LoadObject(reader: Reader, ghost count: nat) returns (held: Option<(nat, Managed)>)
      requires count > 0
      modifies reader
      ensures
        ReadManaged(setup, reader.data, old(reader.offset), Contents(), count) ==
          if held.None? || Placed(managed, held.value.0, held.value.1).None? then Bad(CorruptData)
          else ReadManaged(setup, reader.data, reader.offset, Contents().(managed := Placed(managed, held.value.0, held.value.1).value), count - 1)
    {
      hide Number, Placed, Table.IsAlive;
      var index := reader.Get(4);
      if index.None? { return None; }
      var generation := reader.Get(4);
      if generation.None? { return None; }
      var ownerIndex := reader.Get(4);
      if ownerIndex.None? { return None; }
      var ownerGeneration := reader.Get(4);
      if ownerGeneration.None? { return None; }
      var typeId := reader.Get(8);
      if typeId.None? { return None; }
      var size := reader.Get(4);
      if size.None? { return None; }
      var bytes := reader.Take(size.value);
      var owner := EntityId(ownerIndex.value, ownerGeneration.value);
      if bytes.None? || generation.value == 0 || !table.IsAlive(owner) { return None; }
      if typeId.value !in setup.stateSizes || setup.stateSizes[typeId.value] != size.value { return None; }
      return Some((index.value, Managed(generation.value, owner, Some(StateBlock(typeId.value, bytes.value)))));
    }

    method LoadManaged(reader: Reader, managedCount: nat) returns (ok: bool)
      modifies this`managed, reader
      ensures match ReadManaged(setup, reader.data, old(reader.offset), old(Contents()), managedCount)
              case Parsed(w, at) => ok && Contents() == w && reader.offset == at
              case Bad(e) => !ok && e == CorruptData
    {
      hide Placed;
      for m := 0 to managedCount
        invariant ReadManaged(setup, reader.data, reader.offset, Contents(), managedCount - m)
               == ReadManaged(setup, reader.data, old(reader.offset), old(Contents()), managedCount)
      {
        var held := LoadObject(reader, managedCount - m);
        if held.None? { return false; }
        var placed := Placed(managed, held.value.0, held.value.1);
        if placed.None? { return false; }
        managed := placed.value;
      }
      return true;
    }

    /** World::Load. A load that fails leaves the world as it was, or cleared. */
    method Load(data: seq<byte>) returns (r: Result<()>)
      modifies this
      ensures old(table.aliveCount) != 0 || old(archetypes) != [] ==> r == Fail(InvalidState)
      ensures old(table.aliveCount) == 0 && old(archetypes) == [] && old(managed) == [] ==>
        match Loaded(setup, old(version), data)
        case Ok(w) => r == Ok(()) && Contents() == w
        case Fail(e) => r == Fail(e)
      ensures r.Fail? ==> Contents() == old(Contents()) || Contents() == EMPTY.(version := old(version))
    {
      hide ReadHeader, ReadTable, ReadArchetypes, ReadManaged, Restored;
      if table.aliveCount != 0 || archetypes != [] { return Fail(InvalidState); }
      var reader := new Reader(data);
      var worldVersion := LoadHeader(reader, setup);
      if worldVersion.None? { return Fail(CorruptData); }
      var rows := LoadTable(reader);
      if rows.None? { return Fail(CorruptData); }
      var archetypeCount := reader.Get(4);
      if archetypeCount.None? { return Fail(CorruptData); }
      table := Restored(rows.value);
      marks := MarksFrom(rows.value.marks);
      var located := LoadArchetypes(reader, archetypeCount.value);
      if located.Fail? {
        Clear();
        return Fail(located.error);
      }
      if located.value != table.aliveCount {
        Clear();
        return Fail(CorruptData);
      }
      var managedCount := reader.Get(4);
      if managedCount.None? {
        Clear();
        return Fail(CorruptData);
      }
      var ok := LoadManaged(reader, managedCount.value);
      if !ok || reader.offset != |data| {
        Clear();
        return Fail(CorruptData);
      }
      version := worldVersion.value;
      return Ok(());
    }
  }
}
