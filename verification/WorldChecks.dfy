/** What Load accepts, whatever the bytes. */
module WorldChecks {
  import opened Bytes
  import opened Results
  import opened Entities
  import opened ChunkLayouts
  import opened ChunkImages
  import opened WorldFiles
  import opened WorldRoundTrips
  import WorldStates

  // --- the header -----------------------------------------------------------------------------------

  lemma GetLies(data: seq<byte>, at: nat, n: nat)
    requires Get(data, at, n).Some?
    ensures Lies(data, at, Little(n, Get(data, at, n).value)) && Get(data, at, n).value < Limit(n)
  {
    LittleOfNumber(data[at..at + n]);
    NumberBelow(data[at..at + n]);
  }

  /** The number is followed by more. */
  lemma GetBefore(data: seq<byte>, at: nat, n: nat, x: nat, rest: seq<byte>)
    requires Get(data, at, n) == Some(x) && Lies(data, at + n, rest)
    ensures Lies(data, at, Little(n, x) + rest)
  {
    GetLies(data, at, n);
    LiesJoin(data, at, Little(n, x), rest);
  }

  lemma TypeAccepted(info: TypeInfo, data: seq<byte>, at: nat) returns (named: TypeInfo)
    requires ReadType(info, data, at).Parsed?
    ensures named == info.(name := named.name) && TypeFits(named)
    ensures Lies(data, at, TypeEntry(named)) && ReadType(info, data, at).at == at + |TypeEntry(named)|
  {
    hide Limit, Little, Lies;
    var length := Get(data, at, 4).value;
    var next := at + 4 + length;
    named := info.(name := data[at + 4..next]);
    GetLies(data, at, 4);
    GetLies(data, next, 8);
    GetLies(data, next + 8, 8);
    GetLies(data, next + 16, 4);
    GetLies(data, next + 20, 4);
    var e4 := Little(4, info.info.alignment);
    GetBefore(data, next + 16, 4, info.info.size, e4);
    GetBefore(data, next + 8, 8, info.layoutHash, Little(4, info.info.size) + e4);
    var e2 := Little(8, info.layoutHash) + (Little(4, info.info.size) + e4);
    GetBefore(data, next, 8, info.typeId, e2);
    NameLies(data, at + 4, length);
    LiesJoin(data, at + 4, named.name, Little(8, info.typeId) + e2);
    GetBefore(data, at, 4, length, named.name + (Little(8, info.typeId) + e2));
  }

  lemma NameLies(data: seq<byte>, at: nat, length: nat)
    requires at + length <= |data|
    ensures Lies(data, at, data[at..at + length])
  {}

  predicate SameButNames(infos: seq<TypeInfo>, named: seq<TypeInfo>) {
    |named| == |infos| && forall i :: 0 <= i < |infos| ==> named[i] == infos[i].(name := named[i].name)
  }

  lemma {:induction false} TypesAccepted(infos: seq<TypeInfo>, data: seq<byte>, at: nat) returns (named: seq<TypeInfo>)
    requires ReadTypes(infos, data, at).Parsed? && at <= |data|
    ensures SameButNames(infos, named) && Lies(data, at, TypeTable(named)) && ReadTypes(infos, data, at).at == at + |TypeTable(named)|
  {
    hide Lies, ReadType, TypeEntry, TypeFits;
    if infos == [] {
      named := [];
      NameLies(data, at, 0);
      assert data[at..at] == [];
    } else {
      var first := TypeAccepted(infos[0], data, at);
      Within(data, at, TypeEntry(first));
      var rest := TypesAccepted(infos[1..], data, at + |TypeEntry(first)|);
      LiesJoin(data, at, TypeEntry(first), TypeTable(rest));
      named := [first] + rest;
      assert named[1..] == rest;
      forall i | 0 <= i < |infos| ensures named[i] == infos[i].(name := named[i].name) {
        if i > 0 {
          assert rest[i - 1] == infos[1..][i - 1].(name := rest[i - 1].name);
        }
      }
    }
  }

  /** A header is accepted only if a world with the same hash, chunk size and types, whatever they are
      called, saves it; HeaderRead is the converse. */
  lemma HeaderAccepted(setup: Setup, data: seq<byte>) returns (named: seq<TypeInfo>)
    requires ReadHeader(setup, data).Parsed?
    ensures SameButNames(setup.types.infos, named)
    ensures var header := ReadHeader(setup, data); var other := setup.(types := setup.types.(infos := named));
      Lies(data, 0, Header(other, header.value)) && header.at == |Header(other, header.value)|
  {
    hide Little, Lies, TypeTable, ReadTypes;
    named := TypesAccepted(setup.types.infos, data, 28);
    var version := ReadHeader(setup, data).value;
    var table := TypeTable(named);
    GetBefore(data, 24, 4, |setup.types.infos|, table);
    var e5 := Little(4, |setup.types.infos|) + table;
    GetBefore(data, 20, 4, version, e5);
    var e4 := Little(4, version) + e5;
    GetBefore(data, 16, 4, setup.chunkSize, e4);
    var e3 := Little(4, setup.chunkSize) + e4;
    GetBefore(data, 8, 8, setup.schemaHash, e3);
    var e2 := Little(8, setup.schemaHash) + e3;
    GetBefore(data, 4, 4, FORMAT_VERSION, e2);
    NameLies(data, 0, 4);
    LiesJoin(data, 0, MAGIC, Little(4, FORMAT_VERSION) + e2);
  }

  // --- the world ------------------------------------------------------------------------------------

  lemma {:induction false} NumbersBelow(n: nat, bytes: seq<byte>, count: nat)
    requires |bytes| == n * count
    ensures forall i :: 0 <= i < count ==> NumbersOf(n, bytes, count)[i] < Limit(n)
  {
    if count > 0 {
      NumbersLeft(n, count);
      NumberBelow(bytes[..n]);
      NumbersBelow(n, bytes[n..], count - 1);
    }
  }

  /** Only entities that are alive have a mark. */
  ghost predicate MarksChecked(table: Table, marks: seq<WorldStates.Mark>) {
    forall i: nat :: WorldStates.MarkAt(marks, i) != WorldStates.Unmarked ==> i < |table.slots| && table.slots[i].alive
  }

  lemma TableAccepted(data: seq<byte>, at: nat)
    requires ReadTable(data, at).Parsed?
    ensures Restored(ReadTable(data, at).value).Valid()
    ensures MarksChecked(Restored(ReadTable(data, at).value), MarksFrom(ReadTable(data, at).value.marks))
  {
    var rows := ReadTable(data, at).value;
    var n := |rows.alive|;
    NumbersBelow(4, Take(data, at + 4, 4 * Get(data, at, 4).value).value, n);
    LimitsAre();
    FreeFromIs(rows.alive, n);
    var free := FreeFrom(rows.alive, n);
    forall k | 0 <= k < |free| ensures free[k] < n && rows.alive[free[k]] == 0 {
      assert free[k] in free;
    }
  }

  /** Rows are only told where they are. */
  lemma {:induction false} LocatedKeeps(w: World, a: nat, c: nat, r: nat, located: nat)
    requires a < |w.archetypes| && c < |w.archetypes[a].chunks| && r <= w.archetypes[a].chunks[c].count
    requires LocateRows(w, a, c, r, located).Some?
    ensures var t := LocateRows(w, a, c, r, located).value.0.table;
      SameSlots(w.table, t) && t.free == w.table.free && t.aliveCount == w.table.aliveCount
    decreases w.archetypes[a].chunks[c].count - r
  {
    var chunk := w.archetypes[a].chunks[c];
    if r < chunk.count {
      var e := EntityAt(chunk.data, w.archetypes[a].layout.entityOffset + r * ENTITY_BYTES);
      LocatedKeeps(w.(table := w.table.Relocated(e, Location(a, c, r))), a, c, r + 1, located + 1);
    }
  }

  /** The set is of registered types and has this layout; every chunk has rows and, but for the last, no
      room for more. */
  predicate ArchetypeChecked(setup: Setup, a: ByteArchetype) {
    && setup.layouts(a.mask) == Some(a.layout) && (forall t :: t in a.mask ==> t < |setup.types.infos|)
    && (forall c :: 0 <= c < |a.chunks| ==> 0 < a.chunks[c].count <= a.layout.capacity && |a.chunks[c].data| == setup.chunkSize)
    && (forall c :: 0 <= c < |a.chunks| - 1 ==> a.chunks[c].count == a.layout.capacity)
  }

  /** Every set of types has one archetype, or one for prototypes and one for others. */
  predicate ArchetypesChecked(setup: Setup, archetypes: seq<ByteArchetype>) {
    && (forall a :: 0 <= a < |archetypes| ==> ArchetypeChecked(setup, archetypes[a]))
    && (forall a, b :: 0 <= a < b < |archetypes| ==> archetypes[a].mask != archetypes[b].mask || archetypes[a].prototype != archetypes[b].prototype)
  }

  /** What the reading of the archetypes keeps. */
  ghost predicate Ordered(setup: Setup, w: World) {
    w.table.Valid() && ArchetypesChecked(setup, w.archetypes) && w.managed == [] && MarksChecked(w.table, w.marks)
  }

  lemma SameSlotsValid(t: Table, u: Table)
    requires t.Valid() && SameSlots(t, u) && u.free == t.free && u.aliveCount == t.aliveCount
    ensures u.Valid() && forall marks :: MarksChecked(t, marks) ==> MarksChecked(u, marks)
  {}

  lemma ChunkAppended(setup: Setup, archetypes: seq<ByteArchetype>, a: nat, chunk: Chunk)
    requires ArchetypesChecked(setup, archetypes) && a < |archetypes| && Restorable(archetypes[a], chunk.count) && |chunk.data| == setup.chunkSize
    ensures ArchetypesChecked(setup, archetypes[a := archetypes[a].(chunks := archetypes[a].chunks + [chunk])])
  {
    var x := archetypes[a].(chunks := archetypes[a].chunks + [chunk]);
    assert ArchetypeChecked(setup, archetypes[a]);
    assert ArchetypeChecked(setup, x);
    hide ArchetypeChecked;
  }

  lemma {:induction false} ChunksAccepted(setup: Setup, data: seq<byte>, at: nat, w: World, a: nat, c: nat, count: nat, located: nat)
    requires Ordered(setup, w) && a < |w.archetypes| && c <= |w.archetypes[a].chunks|
    requires ReadChunks(setup, data, at, w, a, c, count, located).Parsed?
    ensures Ordered(setup, ReadChunks(setup, data, at, w, a, c, count, located).value.0)
    decreases count
  {
    hide ArchetypesChecked, Table.Valid, Restorable, LocateRows, SameSlots, MarksChecked;
    if count > 0 {
      var x := w.archetypes[a];
      var chunk := Chunk(Get(data, at, 4).value, Take(data, at + 4, setup.chunkSize).value);
      var next := w.(archetypes := w.archetypes[a := x.(chunks := x.chunks + [chunk])]);
      ChunkAppended(setup, w.archetypes, a, chunk);
      LocatedKeeps(next, a, c, 0, located);
      var found := LocateRows(next, a, c, 0, located).value;
      SameSlotsValid(next.table, found.0.table);
      ChunksAccepted(setup, data, at + 4 + setup.chunkSize, found.0, a, c + 1, count - 1, found.1);
    }
  }

  lemma {:induction false} MaskAccepted(types: Types, data: seq<byte>, at: nat, count: nat, mask: set<nat>)
    requires ReadMask(types, data, at, count, mask).Parsed? && forall t :: t in mask ==> t < |types.infos|
    ensures forall t :: t in ReadMask(types, data, at, count, mask).value ==> t < |types.infos|
    decreases count
  {
    if count > 0 {
      MaskAccepted(types, data, at + 2, count - 1, mask + {Get(data, at, 2).value});
    }
  }

  lemma {:induction false} FoundArchetype(archetypes: seq<ByteArchetype>, mask: set<nat>, prototype: bool)
    ensures var a := FindArchetype(archetypes, mask, prototype);
      if a < |archetypes| then archetypes[a].mask == mask && archetypes[a].prototype == prototype
      else forall b :: 0 <= b < |archetypes| ==> archetypes[b].mask != mask || archetypes[b].prototype != prototype
  {
    if archetypes != [] {
      FoundArchetype(archetypes[1..], mask, prototype);
      assert forall b :: 0 < b < |archetypes| ==> archetypes[b] == archetypes[1..][b - 1];
    }
  }

  lemma ArchetypeAppended(setup: Setup, archetypes: seq<ByteArchetype>, mask: set<nat>, prototype: bool)
    requires ArchetypesChecked(setup, archetypes) && FindArchetype(archetypes, mask, prototype) == |archetypes|
    requires setup.layouts(mask).Some? && forall t :: t in mask ==> t < |setup.types.infos|
    ensures ArchetypesChecked(setup, archetypes + [ByteArchetype(mask, prototype, setup.layouts(mask).value, [])])
  {
    FoundArchetype(archetypes, mask, prototype);
    assert ArchetypeChecked(setup, ByteArchetype(mask, prototype, setup.layouts(mask).value, []));
    hide ArchetypeChecked;
  }

  lemma {:induction false} ArchetypesAccepted(setup: Setup, data: seq<byte>, at: nat, w: World, count: nat, located: nat)
    requires Ordered(setup, w) && ReadArchetypes(setup, data, at, w, count, located).Parsed?
    ensures Ordered(setup, ReadArchetypes(setup, data, at, w, count, located).value.0)
    decreases count
  {
    hide ReadArchetype, Ordered;
    if count > 0 {
      var r := ReadArchetype(setup, data, at, w, located);
      ArchetypeAccepted(setup, data, at, w, located);
      ArchetypesAccepted(setup, data, r.at, r.value.0, count - 1, r.value.1);
    }
  }

  lemma ArchetypeAccepted(setup: Setup, data: seq<byte>, at: nat, w: World, located: nat)
    requires Ordered(setup, w) && ReadArchetype(setup, data, at, w, located).Parsed?
    ensures Ordered(setup, ReadArchetype(setup, data, at, w, located).value.0)
  {
    hide ArchetypesChecked, Table.Valid, ReadChunks, ReadMask, FindArchetype, MarksChecked;
    var prototype := Get(data, at, 1).value == 1;
    var mask := ReadMask(setup.types, data, at + 5, Get(data, at + 1, 4).value, {});
    MaskAccepted(setup.types, data, at + 5, Get(data, at + 1, 4).value, {});
    var a := FindArchetype(w.archetypes, mask.value, prototype);
    var grown := w;
    if a == |w.archetypes| {
      grown := w.(archetypes := w.archetypes + [ByteArchetype(mask.value, prototype, setup.layouts(mask.value).value, [])]);
      ArchetypeAppended(setup, w.archetypes, mask.value, prototype);
    }
    ChunksAccepted(setup, data, mask.at + 4, grown, a, 0, Get(data, mask.at, 4).value, located);
  }

  /** Every managed object has an id, a live owner and a state of the size of its registered type. */
  predicate ManagedChecked(setup: Setup, table: Table, managed: seq<Option<Managed>>) {
    forall i :: 0 <= i < |managed| && managed[i].Some? ==>
      && managed[i].value.generation != 0 && table.IsAlive(managed[i].value.owner) && managed[i].value.block.Some?
      && var block := managed[i].value.block.value;
         block.typeId in setup.stateSizes && setup.stateSizes[block.typeId] == |block.state|
  }

  lemma {:induction false} ManagedAccepted(setup: Setup, data: seq<byte>, at: nat, w: World, count: nat)
    requires ManagedChecked(setup, w.table, w.managed) && ReadManaged(setup, data, at, w, count).Parsed?
    ensures var v := ReadManaged(setup, data, at, w, count).value;
      v == w.(managed := v.managed) && ManagedChecked(setup, w.table, v.managed)
    decreases count
  {
    if count > 0 {
      var size, typeId := Get(data, at + 24, 4).value, Get(data, at + 16, 8).value;
      var owner := EntityId(Get(data, at + 8, 4).value, Get(data, at + 12, 4).value);
      var held := Managed(Get(data, at + 4, 4).value, owner, Some(StateBlock(typeId, Take(data, at + 28, size).value)));
      var next := w.(managed := Placed(w.managed, Get(data, at, 4).value, held).value);
      hide Get, Take;
      ManagedAccepted(setup, data, at + 28 + size, next, count - 1);
    }
  }

  /** Whatever bytes are accepted, the world they yield has the version of the header, a table of
      entities in order, marks on live entities only, packed chunks in one archetype for each set, and managed objects of registered
      types on live entities. */
  lemma LoadedIsChecked(setup: Setup, was: nat, data: seq<byte>)
    requires Loaded(setup, was, data).Ok?
    ensures ReadHeader(setup, data).Parsed?
    ensures var w := Loaded(setup, was, data).value;
      && w.version == ReadHeader(setup, data).value && w.table.Valid() && MarksChecked(w.table, w.marks)
      && ArchetypesChecked(setup, w.archetypes) && ManagedChecked(setup, w.table, w.managed)
  {
    hide ReadHeader, ReadTable, ReadArchetypes, ReadManaged, ArchetypesChecked, Table.Valid, Restored, MarksChecked, MarksFrom;
    var header := ReadHeader(setup, data);
    TableAccepted(data, header.at);
    var table := ReadTable(data, header.at);
    var w := World(was, Restored(table.value), MarksFrom(table.value.marks), [], []);
    NothingChecked(setup);
    ArchetypesAccepted(setup, data, table.at + 4, w, Get(data, table.at, 4).value, 0);
    var archetypes := ReadArchetypes(setup, data, table.at + 4, w, Get(data, table.at, 4).value, 0);
    ManagedAccepted(setup, data, archetypes.at + 4, archetypes.value.0, Get(data, archetypes.at, 4).value);
  }

  lemma NothingChecked(setup: Setup)
    ensures ArchetypesChecked(setup, [])
  {}
}
