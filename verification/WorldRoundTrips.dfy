/** Loading what was saved: every byte is read, and the world is the one that was saved. */
module WorldRoundTrips {
  import opened Bytes
  import opened Lists
  import opened Results
  import opened Generations
  import opened Entities
  import opened Archetypes
  import opened ChunkLayouts
  import opened ChunkImages
  import opened WorldFiles
  import WorldStates

  // --- numbers --------------------------------------------------------------------------------------

  /** A number that lies at an offset is what Get returns, and what follows it lies after it. */
  lemma GetThen(data: seq<byte>, at: nat, n: nat, x: nat, rest: seq<byte>)
    requires Lies(data, at, Little(n, x) + rest) && x < Limit(n)
    ensures Get(data, at, n) == Some(x) && Lies(data, at + n, rest)
  {
    LiesSplit(data, at, Little(n, x), rest);
    NumberOfLittle(n, x);
  }

  lemma LiesNothing(data: seq<byte>, at: nat, bytes: seq<byte>)
    requires Lies(data, at, bytes)
    ensures Lies(data, at, bytes + [])
  {
    assert bytes + [] == bytes;
  }

  lemma {:induction false} NumbersBack(n: nat, xs: seq<nat>)
    requires forall i :: 0 <= i < |xs| ==> xs[i] < Limit(n)
    ensures NumbersOf(n, Numbers(n, xs), |xs|) == xs
  {
    if xs != [] {
      var bytes := Numbers(n, xs);
      NumbersLeft(n, |xs|);
      NumberOfLittle(n, xs[0]);
      assert bytes[..n] == Little(n, xs[0]) && bytes[n..] == Numbers(n, xs[1..]);
      NumbersBack(n, xs[1..]);
    }
  }

  lemma LimitsAre()
    ensures Limit(1) == 0x100 && Limit(2) == 0x1_0000 && Limit(4) == 0x1_0000_0000
  {
    assert Limit(1) == 256 * Limit(0);
    assert Limit(2) == 256 * Limit(1);
    assert Limit(3) == 256 * Limit(2);
  }

  // --- the header -----------------------------------------------------------------------------------

  predicate TypeFits(info: TypeInfo) {
    |info.name| < Limit(4) && info.typeId < Limit(8) && info.layoutHash < Limit(8) && info.info.size < Limit(4) && info.info.alignment < Limit(4)
  }

  lemma TypeRead(info: TypeInfo, data: seq<byte>, at: nat)
    requires TypeFits(info) && Lies(data, at, TypeEntry(info))
    ensures ReadType(info, data, at) == Parsed((), at + |TypeEntry(info)|)
  {
    hide Limit, Little, Lies, Get;
    var e4 := Little(4, info.info.alignment);
    var e3 := Little(4, info.info.size) + e4;
    var e2 := Little(8, info.layoutHash) + e3;
    var e1 := Little(8, info.typeId) + e2;
    GetThen(data, at, 4, |info.name|, info.name + e1);
    LiesSplit(data, at + 4, info.name, e1);
    var next := at + 4 + |info.name|;
    GetThen(data, next, 8, info.typeId, e2);
    GetThen(data, next + 8, 8, info.layoutHash, e3);
    GetThen(data, next + 16, 4, info.info.size, e4);
    LiesNothing(data, next + 20, e4);
    GetThen(data, next + 20, 4, info.info.alignment, []);
    Within(data, next, e1);
  }

  lemma Within(data: seq<byte>, at: nat, bytes: seq<byte>)
    requires Lies(data, at, bytes)
    ensures at + |bytes| <= |data|
  {}

  lemma {:induction false} TypesRead(infos: seq<TypeInfo>, data: seq<byte>, at: nat)
    requires (forall i :: 0 <= i < |infos| ==> TypeFits(infos[i])) && Lies(data, at, TypeTable(infos))
    ensures ReadTypes(infos, data, at) == Parsed((), at + |TypeTable(infos)|)
  {
    hide Lies, ReadType, TypeEntry, TypeFits;
    if infos != [] {
      LiesSplit(data, at, TypeEntry(infos[0]), TypeTable(infos[1..]));
      TypeRead(infos[0], data, at);
      TypesRead(infos[1..], data, at + |TypeEntry(infos[0])|);
    }
  }

  lemma HeaderRead(setup: Setup, version: nat, data: seq<byte>)
    requires setup.NumbersFit() && |setup.types.infos| <= MAX_TYPES && version < Limit(4) && Lies(data, 0, Header(setup, version))
    ensures ReadHeader(setup, data) == Parsed(version, |Header(setup, version)|)
  {
    FitsSetup(setup);
    LimitsAre();
    hide *;
    HeaderParts(setup, version, data);
    TypesRead(setup.types.infos, data, 28);
    HeaderJoins(setup, version, data);
  }

  /** The numbers of the header, and where the type table lies. */
  lemma HeaderParts(setup: Setup, version: nat, data: seq<byte>)
    requires setup.schemaHash < Limit(8) && setup.chunkSize < Limit(4) && |setup.types.infos| < Limit(4) && version < Limit(4)
    requires Lies(data, 0, Header(setup, version))
    ensures Take(data, 0, 4) == Some(MAGIC) && Get(data, 4, 4) == Some(FORMAT_VERSION) && Get(data, 8, 8) == Some(setup.schemaHash)
    ensures Get(data, 16, 4) == Some(setup.chunkSize) && Get(data, 20, 4) == Some(version) && Get(data, 24, 4) == Some(|setup.types.infos|)
    ensures Lies(data, 28, TypeTable(setup.types.infos)) && |Header(setup, version)| == 28 + |TypeTable(setup.types.infos)|
  {
    LimitsAre();
    hide Limit, Little, Lies, Get, Take, TypeTable;
    var e5 := Little(4, |setup.types.infos|) + TypeTable(setup.types.infos);
    var e4 := Little(4, version) + e5;
    var e3 := Little(4, setup.chunkSize) + e4;
    var e2 := Little(8, setup.schemaHash) + e3;
    var e1 := Little(4, FORMAT_VERSION) + e2;
    LiesSplit(data, 0, MAGIC, e1);
    TakeIs(data, 0, MAGIC);
    GetThen(data, 4, 4, FORMAT_VERSION, e2);
    GetThen(data, 8, 8, setup.schemaHash, e3);
    GetThen(data, 16, 4, setup.chunkSize, e4);
    GetThen(data, 20, 4, version, e5);
    GetThen(data, 24, 4, |setup.types.infos|, TypeTable(setup.types.infos));
  }

  lemma HeaderJoins(setup: Setup, version: nat, data: seq<byte>)
    requires Take(data, 0, 4) == Some(MAGIC) && Get(data, 4, 4) == Some(FORMAT_VERSION) && Get(data, 8, 8) == Some(setup.schemaHash)
    requires Get(data, 16, 4) == Some(setup.chunkSize) && Get(data, 20, 4) == Some(version) && Get(data, 24, 4) == Some(|setup.types.infos|)
    requires ReadTypes(setup.types.infos, data, 28) == Parsed((), 28 + |TypeTable(setup.types.infos)|)
    ensures ReadHeader(setup, data) == Parsed(version, 28 + |TypeTable(setup.types.infos)|)
  {
    hide Take, Get, ReadTypes, TypeTable;
  }

  lemma FitsSetup(setup: Setup)
    requires setup.NumbersFit()
    ensures setup.schemaHash < Limit(8) && setup.chunkSize < Limit(4)
    ensures forall i :: 0 <= i < |setup.types.infos| ==> TypeFits(setup.types.infos[i])
  {}

  lemma TakeIs(data: seq<byte>, at: nat, bytes: seq<byte>)
    requires Lies(data, at, bytes)
    ensures Take(data, at, |bytes|) == Some(bytes)
  {}

  // --- the entity table -----------------------------------------------------------------------------

  function RowsIn(table: Table, marks: seq<WorldStates.Mark>): EntityRows {
    EntityRows(GenerationsOf(table), AliveCodes(table), MarkCodes(table, marks))
  }

  lemma NumbersThen(data: seq<byte>, at: nat, n: nat, xs: seq<nat>, rest: seq<byte>)
    requires Lies(data, at, Numbers(n, xs) + rest) && forall i :: 0 <= i < |xs| ==> xs[i] < Limit(n)
    ensures Take(data, at, n * |xs|) == Some(Numbers(n, xs)) && NumbersOf(n, Numbers(n, xs), |xs|) == xs
    ensures Lies(data, at + n * |xs|, rest)
  {
    hide *;
    LiesSplit(data, at, Numbers(n, xs), rest);
    TakeIs(data, at, Numbers(n, xs));
    NumbersBack(n, xs);
  }

  lemma RowsFit(table: Table, marks: seq<WorldStates.Mark>)
    requires table.Valid()
    requires forall i: nat :: WorldStates.MarkAt(marks, i) != WorldStates.Unmarked ==> i < |table.slots| && table.slots[i].alive
    ensures var rows := RowsIn(table, marks);
      && RowsOk(rows, |table.slots|)
      && forall i :: 0 <= i < |table.slots| ==> rows.generations[i] < Limit(4) && rows.alive[i] < Limit(1) && rows.marks[i] < Limit(1)
  {
    LimitsAre();
  }

  lemma TableRead(table: Table, marks: seq<WorldStates.Mark>, data: seq<byte>, at: nat)
    requires table.Valid() && |table.slots| < Limit(4) && Lies(data, at, EntityTable(table, marks))
    requires forall i: nat :: WorldStates.MarkAt(marks, i) != WorldStates.Unmarked ==> i < |table.slots| && table.slots[i].alive
    ensures ReadTable(data, at) == Parsed(RowsIn(table, marks), at + |EntityTable(table, marks)|)
  {
    RowsFit(table, marks);
    RowsRead(RowsIn(table, marks), |table.slots|, data, at);
  }

  lemma RowsRead(rows: EntityRows, n: nat, data: seq<byte>, at: nat)
    requires RowsOk(rows, n) && n < Limit(4)
    requires forall i :: 0 <= i < n ==> rows.generations[i] < Limit(4) && rows.alive[i] < Limit(1) && rows.marks[i] < Limit(1)
    requires Lies(data, at, Little(4, n) + (Numbers(4, rows.generations) + (Numbers(1, rows.alive) + Numbers(1, rows.marks))))
    ensures ReadTable(data, at) == Parsed(rows, at + 4 + 6 * n)
  {
    hide Limit, Little, Lies, Get, Take, Numbers, NumbersOf;
    var e3 := Numbers(1, rows.marks);
    var e2 := Numbers(1, rows.alive) + e3;
    GetThen(data, at, 4, n, Numbers(4, rows.generations) + e2);
    NumbersThen(data, at + 4, 4, rows.generations, e2);
    NumbersThen(data, at + 4 + 4 * n, 1, rows.alive, e3);
    LiesNothing(data, at + 4 + 5 * n, e3);
    NumbersThen(data, at + 4 + 5 * n, 1, rows.marks, []);
  }

  predicate SameSlots(t: Table, u: Table) {
    |t.slots| == |u.slots| && forall i :: 0 <= i < |t.slots| ==> t.slots[i].generation == u.slots[i].generation && t.slots[i].alive == u.slots[i].alive
  }

  lemma {:induction false} FreeFromIs(alive: seq<nat>, n: nat)
    requires n <= |alive|
    ensures Distinct(FreeFrom(alive, n)) && |FreeFrom(alive, n)| <= n
    ensures forall i: nat :: i in FreeFrom(alive, n) <==> i < n && alive[i] == 0
  {
    if n > 0 {
      FreeFromIs(alive, n - 1);
    }
  }

  lemma SameLength(a: seq<nat>, b: seq<nat>)
    requires Distinct(a) && Distinct(b) && forall i: nat :: i in a <==> i in b
    ensures |a| == |b|
  {
    DistinctBounded(a, ElementsOf(b));
    DistinctBounded(b, ElementsOf(a));
    SetOfList(a);
    SetOfList(b);
  }

  lemma {:induction false} SetOfList(a: seq<nat>)
    ensures |ElementsOf(a)| <= |a|
  {
    if a != [] {
      var last := |a| - 1;
      SetOfList(a[..last]);
      assert a == a[..last] + [a[last]];
      assert ElementsOf(a) == ElementsOf(a[..last]) + {a[last]};
    }
  }

  function ElementsOf(a: seq<nat>): set<nat> {
    set i | i in a
  }

  /** The restored table: the same handles alive, in a table of its own that is in order. */
  lemma RestoredIs(table: Table, marks: seq<WorldStates.Mark>)
    requires table.Valid()
    ensures var t := Restored(RowsIn(table, marks)); t.Valid() && SameSlots(table, t) && t.aliveCount == table.aliveCount
  {
    var rows := RowsIn(table, marks);
    FreeFromIs(rows.alive, |rows.alive|);
    var free := FreeFrom(rows.alive, |rows.alive|);
    SameLength(table.free, free);
    forall k | 0 <= k < |free| ensures free[k] < |rows.alive| && rows.alive[free[k]] == 0 {
      assert free[k] in free;
    }
  }

  lemma MarksAre(table: Table, marks: seq<WorldStates.Mark>, i: nat)
    requires forall k: nat :: WorldStates.MarkAt(marks, k) != WorldStates.Unmarked ==> k < |table.slots| && table.slots[k].alive
    ensures WorldStates.MarkAt(MarksFrom(MarkCodes(table, marks)), i) == WorldStates.MarkAt(marks, i)
  {}

  // --- the world behind the bytes -------------------------------------------------------------------

  function RowsOf(types: Types, a: ByteArchetype, chunk: Chunk): (r: seq<Row>)
    ensures |r| == chunk.count
  {
    seq(chunk.count, r requires 0 <= r < chunk.count => RowAt(types, a.mask, a.layout, chunk.data, r))
  }

  function StorageOf(types: Types, a: ByteArchetype): Storage {
    Storage(a.mask, a.prototype, a.layout.capacity,
            seq(|a.chunks|, c requires 0 <= c < |a.chunks| => RowsOf(types, a, a.chunks[c])))
  }

  /** The rows a world's chunks hold, as the storage theorems know them. */
  function StateOf(types: Types, w: World): WorldStates.State {
    WorldStates.State(w.table, seq(|w.archetypes|, a requires 0 <= a < |w.archetypes| => StorageOf(types, w.archetypes[a])), w.marks)
  }

  function CapacityIn(setup: Setup, mask: set<nat>): nat {
    if setup.layouts(mask).Some? then setup.layouts(mask).value.capacity else 0
  }

  function StorageConfig(setup: Setup): WorldStates.Config {
    WorldStates.Config(seq(|setup.types.infos|, t requires 0 <= t < |setup.types.infos| =>
                         ComponentInfo(setup.types.infos[t].initial, setup.types.infos[t].info.PerEntity())),
                       (mask: set<nat>) => CapacityIn(setup, mask))
  }

  ghost predicate ArchetypeSound(setup: Setup, a: ByteArchetype) {
    && setup.layouts(a.mask) == Some(a.layout) && |a.chunks| < Limit(4)
    && forall c :: 0 <= c < |a.chunks| ==> |a.chunks[c].data| == setup.chunkSize
  }

  /** A typed object has an id and a live owner, and its type is registered with this state size. */
  predicate ManagedSound(setup: Setup, table: Table, held: Managed) {
    held.block.Some? ==>
      && 1 <= held.generation < Limit(4) && table.IsAlive(held.owner)
      && held.block.value.typeId < Limit(8) && |held.block.value.state| < Limit(4)
      && held.block.value.typeId in setup.stateSizes && setup.stateSizes[held.block.value.typeId] == |held.block.value.state|
  }

  /** A world that can be saved: its storage is in order, and its numbers have the widths they have
      in memory. */
  ghost predicate Sound(setup: Setup, w: World) {
    && setup.Valid() && StateOf(setup.types, w).Valid(StorageConfig(setup))
    && w.version < Limit(4) && |w.table.slots| < Limit(4) && |w.archetypes| < Limit(4) && |w.managed| < Limit(4)
    && (forall a :: 0 <= a < |w.archetypes| ==> ArchetypeSound(setup, w.archetypes[a]))
    && (forall i :: 0 <= i < |w.managed| && w.managed[i].Some? ==> ManagedSound(setup, w.table, w.managed[i].value))
  }

  function HandleAt(a: ByteArchetype, c: nat, r: nat): EntityId
    requires c < |a.chunks|
  {
    EntityAt(a.chunks[c].data, a.layout.entityOffset + r * ENTITY_BYTES)
  }

  lemma StateParts(types: Types, w: World, a: nat, c: nat, r: nat)
    requires a < |w.archetypes| && c < |w.archetypes[a].chunks| && r < w.archetypes[a].chunks[c].count
    ensures StateOf(types, w).Held(a, Place(c, r)) && StateOf(types, w).archetypes[a].At(Place(c, r)) == RowAt(types, w.archetypes[a].mask, w.archetypes[a].layout, w.archetypes[a].chunks[c].data, r)
    ensures StateOf(types, w).archetypes[a].At(Place(c, r)).entity == HandleAt(w.archetypes[a], c, r)
  {}

  /** Each row's handle is alive, and its location leads back to the row. */
  lemma RowFacts(setup: Setup, w: World, a: nat, c: nat, r: nat)
    requires Sound(setup, w) && a < |w.archetypes| && c < |w.archetypes[a].chunks| && r < w.archetypes[a].chunks[c].count
    ensures var e := HandleAt(w.archetypes[a], c, r);
      && w.table.IsAlive(e) && w.table.LocationOf(e) == Location(a, c, r)
      && (WorldStates.MarkAt(w.marks, e.index) == WorldStates.Prototype <==> w.archetypes[a].prototype)
  {
    var s, e := StateOf(setup.types, w), HandleAt(w.archetypes[a], c, r);
    StateParts(setup.types, w, a, c, r);
    hide StateOf, RowAt, HandleAt, StorageConfig, Setup.Valid;
    assert s.RowOk(StorageConfig(setup), a, Place(c, r));
    assert s.table == w.table && s.marks == w.marks by { StateFields(setup.types, w); }
    assert s.MarkOk(e);
    assert SameArchetype(w.archetypes[a], s.archetypes[a]) by { StateFields(setup.types, w); }
  }

  predicate SameArchetype(a: ByteArchetype, s: Storage) {
    && s.prototype == a.prototype && s.mask == a.mask && s.capacity == a.layout.capacity && |s.chunks| == |a.chunks|
    && forall c :: 0 <= c < |a.chunks| ==> |s.chunks[c]| == a.chunks[c].count
  }

  lemma StateFields(types: Types, w: World)
    ensures var s := StateOf(types, w);
      && s.table == w.table && s.marks == w.marks && |s.archetypes| == |w.archetypes|
      && forall a :: 0 <= a < |w.archetypes| ==> SameArchetype(w.archetypes[a], s.archetypes[a])
  {}

  /** Each live handle has a row. */
  lemma HandleFacts(setup: Setup, w: World, e: EntityId)
    requires Sound(setup, w) && w.table.IsAlive(e)
    ensures var x := w.table.LocationOf(e);
      && x.archetype < |w.archetypes| && x.chunk < |w.archetypes[x.archetype].chunks| && x.row < w.archetypes[x.archetype].chunks[x.chunk].count
      && HandleAt(w.archetypes[x.archetype], x.chunk, x.row) == e
  {
    var s, x := StateOf(setup.types, w), w.table.LocationOf(e);
    StateFields(setup.types, w);
    assert s.Placed(e);
    StateParts(setup.types, w, x.archetype, x.chunk, x.row);
  }

  lemma ShapeFacts(setup: Setup, w: World, a: nat)
    requires Sound(setup, w) && a < |w.archetypes|
    ensures var x := w.archetypes[a];
      && ArchetypeSound(setup, x) && x.layout.capacity > 0
      && (forall c :: 0 <= c < |x.chunks| ==> 0 < x.chunks[c].count <= x.layout.capacity)
      && (forall c :: 0 <= c < |x.chunks| - 1 ==> x.chunks[c].count == x.layout.capacity)
      && (forall b :: 0 <= b < a ==> w.archetypes[b].mask != x.mask || w.archetypes[b].prototype != x.prototype)
  {
    var s := StateOf(setup.types, w);
    StateFields(setup.types, w);
    hide StateOf, StorageConfig, Setup.Valid;
    assert forall b :: 0 <= b <= a ==> SameArchetype(w.archetypes[b], s.archetypes[b]);
    assert s.ArchetypeOk(StorageConfig(setup), a);
    forall c | 0 <= c < |w.archetypes[a].chunks| ensures 0 < w.archetypes[a].chunks[c].count <= w.archetypes[a].layout.capacity {
      assert |s.archetypes[a].chunks[c]| == w.archetypes[a].chunks[c].count;
    }
    forall c | 0 <= c < |w.archetypes[a].chunks| - 1 ensures w.archetypes[a].chunks[c].count == w.archetypes[a].layout.capacity {
      assert |s.archetypes[a].chunks[c]| == w.archetypes[a].chunks[c].count;
    }
  }

  lemma TableFacts(setup: Setup, w: World)
    requires Sound(setup, w)
    ensures w.table.Valid()
    ensures forall i: nat :: WorldStates.MarkAt(w.marks, i) != WorldStates.Unmarked ==> i < |w.table.slots| && w.table.slots[i].alive
  {
    StateFields(setup.types, w);
    hide StateOf, StorageConfig, Setup.Valid;
  }

  // --- the archetype table --------------------------------------------------------------------------

  function CopiedArchetype(types: Types, a: ByteArchetype): ByteArchetype {
    a.(chunks := CopiedChunks(types, a))
  }

  function CopiedChunks(types: Types, a: ByteArchetype): (r: seq<Chunk>)
    ensures |r| == |a.chunks|
  {
    seq(|a.chunks|, c requires 0 <= c < |a.chunks| => Scrubbed(types, a.mask, a.layout, a.chunks[c]))
  }

  function Copied(types: Types, archetypes: seq<ByteArchetype>): (r: seq<ByteArchetype>)
    ensures |r| == |archetypes|
  {
    seq(|archetypes|, a requires 0 <= a < |archetypes| => CopiedArchetype(types, archetypes[a]))
  }

  /** The position comes before row r of chunk c of archetype a. */
  predicate Before(x: Location, a: nat, c: nat, r: nat) {
    x.archetype < a || (x.archetype == a && (x.chunk < c || (x.chunk == c && x.row < r)))
  }

  /** The table being restored: the handles of the saved one, and the locations up to a position. */
  ghost predicate Following(t: Table, u: Table, a: nat, c: nat, r: nat) {
    && SameSlots(t, u) && u.aliveCount == t.aliveCount && u.Valid()
    && forall e: EntityId :: t.IsAlive(e) && Before(t.LocationOf(e), a, c, r) ==> u.LocationOf(e) == t.LocationOf(e)
  }

  /** One row is told where it is. */
  lemma FollowStep(setup: Setup, w: World, u: Table, a: nat, c: nat, r: nat)
    requires Sound(setup, w) && a < |w.archetypes| && c < |w.archetypes[a].chunks| && r < w.archetypes[a].chunks[c].count
    requires Following(w.table, u, a, c, r)
    ensures var e := HandleAt(w.archetypes[a], c, r);
      u.IsAlive(e) && Following(w.table, u.Relocated(e, Location(a, c, r)), a, c, r + 1)
  {
    var e := HandleAt(w.archetypes[a], c, r);
    RowFacts(setup, w, a, c, r);
    WorldStates.RelocatedTable(u, e, Location(a, c, r));
    var v := u.Relocated(e, Location(a, c, r));
    forall d: EntityId | w.table.IsAlive(d) && Before(w.table.LocationOf(d), a, c, r + 1) ensures v.LocationOf(d) == w.table.LocationOf(d) {
      if w.table.LocationOf(d) == Location(a, c, r) {
        HandleFacts(setup, w, d);
      }
    }
  }

  /** At the end of a chunk, or of an archetype, the next position follows. */
  lemma FollowNext(setup: Setup, w: World, u: Table, a: nat, c: nat, r: nat)
    requires Sound(setup, w) && a < |w.archetypes| && c <= |w.archetypes[a].chunks| && Following(w.table, u, a, c, r)
    ensures c < |w.archetypes[a].chunks| && r == w.archetypes[a].chunks[c].count ==> Following(w.table, u, a, c + 1, 0)
    ensures c == |w.archetypes[a].chunks| && r == 0 ==> Following(w.table, u, a + 1, 0, 0)
  {
    hide Sound;
    forall d: EntityId | w.table.IsAlive(d) && !Before(w.table.LocationOf(d), a, c, r)
      ensures c < |w.archetypes[a].chunks| && r == w.archetypes[a].chunks[c].count ==> !Before(w.table.LocationOf(d), a, c + 1, 0)
      ensures c == |w.archetypes[a].chunks| && r == 0 ==> !Before(w.table.LocationOf(d), a + 1, 0, 0)
    {
      HandleFacts(setup, w, d);
    }
  }

  lemma {:induction false} RowsLocated(setup: Setup, w: World, v: World, a: nat, c: nat, r: nat, located: nat)
    requires Sound(setup, w) && a < |w.archetypes| && c < |w.archetypes[a].chunks| && r <= w.archetypes[a].chunks[c].count
    requires v.marks == MarksFrom(MarkCodes(w.table, w.marks)) && Following(w.table, v.table, a, c, r)
    requires a < |v.archetypes| && c < |v.archetypes[a].chunks| && v.archetypes[a].chunks[c] == Scrubbed(setup.types, w.archetypes[a].mask, w.archetypes[a].layout, w.archetypes[a].chunks[c])
    requires v.archetypes[a].layout == w.archetypes[a].layout && v.archetypes[a].prototype == w.archetypes[a].prototype
    ensures var o := LocateRows(v, a, c, r, located);
      && o.Some? && o.value.1 == located + w.archetypes[a].chunks[c].count - r
      && Following(w.table, o.value.0.table, a, c, w.archetypes[a].chunks[c].count)
    decreases w.archetypes[a].chunks[c].count - r
  {
    hide Sound, Following, Scrubbed, EntityAt;
    if r < w.archetypes[a].chunks[c].count {
      var e := HandleAt(w.archetypes[a], c, r);
      SameHandle(setup, w, a, c, r);
      RowFacts(setup, w, a, c, r);
      FollowStep(setup, w, v.table, a, c, r);
      TableFacts(setup, w);
      MarksAre(w.table, w.marks, e.index);
      RowsLocated(setup, w, v.(table := v.table.Relocated(e, Location(a, c, r))), a, c, r + 1, located + 1);
    }
  }

  lemma SameHandle(setup: Setup, w: World, a: nat, c: nat, r: nat)
    requires Sound(setup, w) && a < |w.archetypes| && c < |w.archetypes[a].chunks| && r < w.archetypes[a].chunks[c].count
    ensures var x := w.archetypes[a];
      EntityAt(Scrubbed(setup.types, x.mask, x.layout, x.chunks[c]).data, x.layout.entityOffset + r * ENTITY_BYTES) == HandleAt(x, c, r)
  {
    hide Sound, Scrubbed, EntityAt, LayoutOk;
    var x := w.archetypes[a];
    ShapeFacts(setup, w, a);
    LayoutFacts(setup, w, a);
    LayoutRoomy(setup.types, x.mask, setup.chunkSize, x.layout);
    EntityStays(setup.types, x.mask, x.layout, x.chunks[c], r);
  }

  lemma LayoutFacts(setup: Setup, w: World, a: nat)
    requires Sound(setup, w) && a < |w.archetypes|
    ensures LayoutOk(setup.types, w.archetypes[a].mask, setup.chunkSize, w.archetypes[a].layout)
    ensures forall t :: t in w.archetypes[a].mask ==> t < |setup.types.infos|
  {
    hide LayoutOk, StateOf, StorageConfig, WorldStates.State.Valid;
    assert ArchetypeSound(setup, w.archetypes[a]);
    LayoutKnown(setup, w.archetypes[a].mask);
  }

  lemma LayoutKnown(setup: Setup, mask: set<nat>)
    requires setup.Valid() && setup.layouts(mask).Some?
    ensures LayoutOk(setup.types, mask, setup.chunkSize, setup.layouts(mask).value) && forall t :: t in mask ==> t < |setup.types.infos|
  {}

  function ChunkRows(chunks: seq<Chunk>): nat {
    if chunks == [] then 0 else chunks[0].count + ChunkRows(chunks[1..])
  }

  function ArchetypeRows(archetypes: seq<ByteArchetype>): nat {
    if archetypes == [] then 0 else ChunkRows(archetypes[0].chunks) + ArchetypeRows(archetypes[1..])
  }

  /** Archetype a of the world being loaded, of which c chunks are there. */
  predicate HasChunks(setup: Setup, w: World, v: World, a: nat, c: nat)
    requires a < |w.archetypes| && c <= |w.archetypes[a].chunks|
  {
    && v.marks == MarksFrom(MarkCodes(w.table, w.marks)) && v.managed == []
    && v.archetypes == Copied(setup.types, w.archetypes)[..a] + [w.archetypes[a].(chunks := CopiedChunks(setup.types, w.archetypes[a])[..c])]
  }

  lemma ChunkEntry(setup: Setup, w: World, a: nat, c: nat, data: seq<byte>, at: nat)
    requires Sound(setup, w) && a < |w.archetypes| && c < |w.archetypes[a].chunks|
    requires Lies(data, at, ChunkTable(setup.types, w.archetypes[a].mask, w.archetypes[a].layout, w.archetypes[a].chunks[c..]))
    ensures Get(data, at, 4) == Some(w.archetypes[a].chunks[c].count)
    ensures Take(data, at + 4, setup.chunkSize) == Some(CopiedChunks(setup.types, w.archetypes[a])[c].data)
    ensures Lies(data, at + 4 + setup.chunkSize, ChunkTable(setup.types, w.archetypes[a].mask, w.archetypes[a].layout, w.archetypes[a].chunks[c + 1..]))
    ensures |ChunkTable(setup.types, w.archetypes[a].mask, w.archetypes[a].layout, w.archetypes[a].chunks[c..])| ==
      4 + setup.chunkSize + |ChunkTable(setup.types, w.archetypes[a].mask, w.archetypes[a].layout, w.archetypes[a].chunks[c + 1..])|
  {
    hide Sound, Scrubbed, Little, Lies, Get, Take, Limit, LayoutOk;
    var x := w.archetypes[a];
    var copy, rest := Scrubbed(setup.types, x.mask, x.layout, x.chunks[c]), ChunkTable(setup.types, x.mask, x.layout, x.chunks[c + 1..]);
    assert x.chunks[c..][0] == x.chunks[c] && x.chunks[c..][1..] == x.chunks[c + 1..];
    ShapeFacts(setup, w, a);
    CapacityFits(setup, w, a);
    var entry := Little(4, x.chunks[c].count) + copy.data;
    LiesSplit(data, at, entry, rest);
    GetThen(data, at, 4, x.chunks[c].count, copy.data);
    TakeIs(data, at + 4, copy.data);
  }

  lemma CapacityFits(setup: Setup, w: World, a: nat)
    requires Sound(setup, w) && a < |w.archetypes|
    ensures w.archetypes[a].layout.capacity < Limit(4)
  {
    LayoutFacts(setup, w, a);
    hide LayoutOk, StateOf, StorageConfig, WorldStates.State.Valid;
    LayoutRoomy(setup.types, w.archetypes[a].mask, setup.chunkSize, w.archetypes[a].layout);
  }

  lemma {:induction false} ChunksRead(setup: Setup, w: World, v: World, a: nat, c: nat, located: nat, data: seq<byte>, at: nat)
    requires Sound(setup, w) && a < |w.archetypes| && c <= |w.archetypes[a].chunks| && HasChunks(setup, w, v, a, c)
    requires Following(w.table, v.table, a, c, 0)
    requires Lies(data, at, ChunkTable(setup.types, w.archetypes[a].mask, w.archetypes[a].layout, w.archetypes[a].chunks[c..]))
    ensures var r := ReadChunks(setup, data, at, v, a, c, |w.archetypes[a].chunks| - c, located);
      && r.Parsed? && r.at == at + |ChunkTable(setup.types, w.archetypes[a].mask, w.archetypes[a].layout, w.archetypes[a].chunks[c..])|
      && r.value.1 == located + ChunkRows(w.archetypes[a].chunks[c..]) && r.value.0.version == v.version
      && HasChunks(setup, w, r.value.0, a, |w.archetypes[a].chunks|) && Following(w.table, r.value.0.table, a + 1, 0, 0)
    decreases |w.archetypes[a].chunks| - c
  {
    hide Sound, Following, Scrubbed, Lies, Get, Take, ChunkTable, CopiedChunks, HasChunks, LocateRows;
    var x := w.archetypes[a];
    FollowNext(setup, w, v.table, a, c, 0);
    if c == |x.chunks| {
      assert x.chunks[c..] == [];
      NoChunks(setup.types, x.mask, x.layout);
    } else {
      ChunkEntry(setup, w, a, c, data, at);
      ShapeFacts(setup, w, a);
      ChunkAdded(setup, w, v, a, c);
      var next := WithChunk(setup, w, v, a, c);
      RowsLocated(setup, w, next, a, c, 0, located);
      var o := LocateRows(next, a, c, 0, located);
      FollowNext(setup, w, o.value.0.table, a, c, x.chunks[c].count);
      TableAside(setup, w, next, o.value.0.table, a, c + 1);
      ChunksRead(setup, w, o.value.0, a, c + 1, o.value.1, data, at + 4 + setup.chunkSize);
      assert x.chunks[c..][0] == x.chunks[c] && x.chunks[c..][1..] == x.chunks[c + 1..];
    }
  }

  lemma TableAside(setup: Setup, w: World, v: World, table: Table, a: nat, c: nat)
    requires a < |w.archetypes| && c <= |w.archetypes[a].chunks| && HasChunks(setup, w, v, a, c)
    ensures HasChunks(setup, w, v.(table := table), a, c)
  {}

  lemma NoChunks(types: Types, mask: set<nat>, l: Layout)
    ensures ChunkTable(types, mask, l, []) == []
  {}

  /** The world with the next chunk, as RestoreChunk leaves it. */
  function WithChunk(setup: Setup, w: World, v: World, a: nat, c: nat): World
    requires a < |w.archetypes| && c < |w.archetypes[a].chunks| && a < |v.archetypes|
  {
    var copy := CopiedChunks(setup.types, w.archetypes[a])[c];
    v.(archetypes := v.archetypes[a := v.archetypes[a].(chunks := v.archetypes[a].chunks + [Chunk(w.archetypes[a].chunks[c].count, copy.data)])])
  }

  lemma ChunkAdded(setup: Setup, w: World, v: World, a: nat, c: nat)
    requires a < |w.archetypes| && c < |w.archetypes[a].chunks| && HasChunks(setup, w, v, a, c)
    ensures WithChunk(setup, w, v, a, c).marks == MarksFrom(MarkCodes(w.table, w.marks))
    ensures a < |v.archetypes| && |v.archetypes[a].chunks| == c && v.archetypes[a].layout == w.archetypes[a].layout
    ensures c > 0 ==> v.archetypes[a].chunks[c - 1].count == w.archetypes[a].chunks[c - 1].count
    ensures HasChunks(setup, w, WithChunk(setup, w, v, a, c), a, c + 1)
    ensures WithChunk(setup, w, v, a, c).archetypes[a].prototype == w.archetypes[a].prototype
    ensures WithChunk(setup, w, v, a, c).archetypes[a].chunks[c] == Scrubbed(setup.types, w.archetypes[a].mask, w.archetypes[a].layout, w.archetypes[a].chunks[c])
  {
    var copies := CopiedChunks(setup.types, w.archetypes[a]);
    assert copies[..c + 1] == copies[..c] + [copies[c]];
    var base := Copied(setup.types, w.archetypes)[..a];
    assert WithChunk(setup, w, v, a, c).archetypes == base + [w.archetypes[a].(chunks := copies[..c + 1])];
  }

  lemma {:induction false} MaskRead(types: Types, data: seq<byte>, at: nat, ts: seq<nat>, rest: seq<byte>, mask: set<nat>)
    requires |types.infos| <= MAX_TYPES && (forall i :: 0 <= i < |ts| ==> ts[i] < |types.infos|) && Lies(data, at, Numbers(2, ts) + rest)
    ensures ReadMask(types, data, at, |ts|, mask) == Parsed(mask + ElementsOf(ts), at + 2 * |ts|) && Lies(data, at + 2 * |ts|, rest)
    decreases |ts|
  {
    LimitsAre();
    hide Limit, Little, Lies, Get;
    if ts == [] {
      assert [] + rest == rest;
      assert mask + ElementsOf(ts) == mask;
    } else {
      assert Numbers(2, ts) + rest == Little(2, ts[0]) + (Numbers(2, ts[1..]) + rest);
      GetThen(data, at, 2, ts[0], Numbers(2, ts[1..]) + rest);
      MaskRead(types, data, at + 2, ts[1..], rest, mask + {ts[0]});
      assert ts == [ts[0]] + ts[1..];
      assert mask + {ts[0]} + ElementsOf(ts[1..]) == mask + ElementsOf(ts);
    }
  }

  lemma SlotsOfMask(types: Types, mask: set<nat>)
    requires |types.infos| <= MAX_TYPES && forall t :: t in mask ==> t < |types.infos|
    ensures ElementsOf(types.Slots(mask)) == mask && |types.Slots(mask)| <= MAX_TYPES
  {
    AscendingShort(mask, 0, |types.infos|);
  }

  lemma {:induction false} AscendingShort(mask: set<nat>, k: nat, n: nat)
    requires k <= n
    ensures |Ascending(mask, k, n)| <= n - k
    decreases n - k
  {
    if k < n { AscendingShort(mask, k + 1, n); }
  }

  lemma {:induction false} NotFound(archetypes: seq<ByteArchetype>, mask: set<nat>, prototype: bool)
    requires forall b :: 0 <= b < |archetypes| ==> archetypes[b].mask != mask || archetypes[b].prototype != prototype
    ensures FindArchetype(archetypes, mask, prototype) == |archetypes|
  {
    if archetypes != [] {
      NotFound(archetypes[1..], mask, prototype);
    }
  }

  /** The first a archetypes are there. */
  predicate HasArchetypes(setup: Setup, w: World, v: World, a: nat)
    requires a <= |w.archetypes|
  {
    && v.marks == MarksFrom(MarkCodes(w.table, w.marks)) && v.managed == []
    && v.archetypes == Copied(setup.types, w.archetypes)[..a]
  }

  /** What lies before the chunks of an archetype. */
  lemma ArchetypeHead(setup: Setup, w: World, a: nat, data: seq<byte>, at: nat)
    requires Sound(setup, w) && a < |w.archetypes| && Lies(data, at, ArchetypeBytes(setup.types, w.archetypes[a]))
    ensures var x, n := w.archetypes[a], |setup.types.Slots(w.archetypes[a].mask)|;
      && Get(data, at, 1) == Some(if x.prototype then 1 else 0) && Get(data, at + 1, 4) == Some(n) && n <= MAX_TYPES
      && ReadMask(setup.types, data, at + 5, n, {}) == Parsed(x.mask, at + 5 + 2 * n)
      && Get(data, at + 5 + 2 * n, 4) == Some(|x.chunks|)
      && Lies(data, at + 9 + 2 * n, ChunkTable(setup.types, x.mask, x.layout, x.chunks))
      && |ArchetypeBytes(setup.types, x)| == 9 + 2 * n + |ChunkTable(setup.types, x.mask, x.layout, x.chunks)|
  {
    hide Sound, Little, Lies, Get, Limit, LayoutOk, ChunkTable, ReadMask, Types.Slots;
    var x, slots := w.archetypes[a], setup.types.Slots(w.archetypes[a].mask);
    ShapeFacts(setup, w, a);
    LayoutFacts(setup, w, a);
    TypesShort(setup, w);
    SlotsOfMask(setup.types, x.mask);
    LimitsAre();
    var e3 := Little(4, |x.chunks|) + ChunkTable(setup.types, x.mask, x.layout, x.chunks);
    var e2 := Numbers(2, slots) + e3;
    GetThen(data, at, 1, if x.prototype then 1 else 0, Little(4, |slots|) + e2);
    GetThen(data, at + 1, 4, |slots|, e2);
    SlotsBelow(setup.types, x.mask);
    MaskRead(setup.types, data, at + 5, slots, e3, {});
    assert {} + x.mask == x.mask;
    GetThen(data, at + 5 + 2 * |slots|, 4, |x.chunks|, ChunkTable(setup.types, x.mask, x.layout, x.chunks));
  }

  lemma SlotsBelow(types: Types, mask: set<nat>)
    ensures forall i :: 0 <= i < |types.Slots(mask)| ==> types.Slots(mask)[i] < |types.infos|
  {}

  lemma TypesShort(setup: Setup, w: World)
    requires Sound(setup, w)
    ensures |setup.types.infos| <= MAX_TYPES
  {}

  lemma ArchetypeRead(setup: Setup, w: World, v: World, a: nat, located: nat, data: seq<byte>, at: nat)
    requires Sound(setup, w) && a < |w.archetypes| && HasArchetypes(setup, w, v, a) && Following(w.table, v.table, a, 0, 0)
    requires Lies(data, at, ArchetypeBytes(setup.types, w.archetypes[a]))
    ensures var r := ReadArchetype(setup, data, at, v, located);
      && r.Parsed? && r.at == at + |ArchetypeBytes(setup.types, w.archetypes[a])| && r.value.1 == located + ChunkRows(w.archetypes[a].chunks)
      && r.value.0.version == v.version && HasArchetypes(setup, w, r.value.0, a + 1) && Following(w.table, r.value.0.table, a + 1, 0, 0)
  {
    hide Sound, Following, Lies, Get, ChunkTable, ReadMask, ReadChunks, LayoutOk, Types.Slots, ArchetypeBytes, CopiedChunks, Setup.Valid;
    var x := w.archetypes[a];
    ArchetypeHead(setup, w, a, data, at);
    ShapeFacts(setup, w, a);
    NotFound(v.archetypes, x.mask, x.prototype);
    var grown := v.(archetypes := v.archetypes + [ByteArchetype(x.mask, x.prototype, x.layout, [])]);
    assert CopiedChunks(setup.types, x)[..0] == [];
    assert x.chunks[0..] == x.chunks;
    ChunksRead(setup, w, grown, a, 0, located, data, at + 9 + 2 * |setup.types.Slots(x.mask)|);
    var all := Copied(setup.types, w.archetypes);
    assert CopiedChunks(setup.types, x)[..|x.chunks|] == CopiedChunks(setup.types, x);
    assert all[..a + 1] == all[..a] + [CopiedArchetype(setup.types, x)];
  }

  lemma {:induction false} ArchetypesRead(setup: Setup, w: World, v: World, a: nat, located: nat, data: seq<byte>, at: nat)
    requires Sound(setup, w) && a <= |w.archetypes| && HasArchetypes(setup, w, v, a) && Following(w.table, v.table, a, 0, 0)
    requires Lies(data, at, ArchetypeTable(setup.types, w.archetypes[a..]))
    ensures var r := ReadArchetypes(setup, data, at, v, |w.archetypes| - a, located);
      && r.Parsed? && r.at == at + |ArchetypeTable(setup.types, w.archetypes[a..])| && r.value.1 == located + ArchetypeRows(w.archetypes[a..])
      && r.value.0.version == v.version && HasArchetypes(setup, w, r.value.0, |w.archetypes|) && Following(w.table, r.value.0.table, |w.archetypes|, 0, 0)
    decreases |w.archetypes| - a
  {
    hide Sound, Following, Lies, ReadArchetype, HasArchetypes, ArchetypeBytes;
    if a == |w.archetypes| {
      assert w.archetypes[a..] == [];
    } else {
      assert w.archetypes[a..][0] == w.archetypes[a] && w.archetypes[a..][1..] == w.archetypes[a + 1..];
      LiesSplit(data, at, ArchetypeBytes(setup.types, w.archetypes[a]), ArchetypeTable(setup.types, w.archetypes[a + 1..]));
      ArchetypeRead(setup, w, v, a, located, data, at);
      var r := ReadArchetype(setup, data, at, v, located);
      ArchetypesRead(setup, w, r.value.0, a + 1, r.value.1, data, r.at);
    }
  }

  // --- as many rows as live entities ----------------------------------------------------------------

  function RowIndices(x: ByteArchetype, c: nat): (r: seq<nat>)
    requires c < |x.chunks|
    ensures |r| == x.chunks[c].count
  {
    seq(x.chunks[c].count, r requires 0 <= r < x.chunks[c].count => HandleAt(x, c, r).index)
  }

  function ChunkIndices(x: ByteArchetype, c: nat): (r: seq<nat>)
    requires c <= |x.chunks|
    ensures |r| == ChunkRows(x.chunks[c..])
    decreases |x.chunks| - c
  {
    if c == |x.chunks| then []
    else
      assert x.chunks[c..][0] == x.chunks[c] && x.chunks[c..][1..] == x.chunks[c + 1..];
      RowIndices(x, c) + ChunkIndices(x, c + 1)
  }

  function AllIndices(archetypes: seq<ByteArchetype>, a: nat): (r: seq<nat>)
    requires a <= |archetypes|
    ensures |r| == ArchetypeRows(archetypes[a..])
    decreases |archetypes| - a
  {
    if a == |archetypes| then []
    else
      assert archetypes[a..][0] == archetypes[a] && archetypes[a..][1..] == archetypes[a + 1..];
      assert archetypes[a].chunks[0..] == archetypes[a].chunks;
      ChunkIndices(archetypes[a], 0) + AllIndices(archetypes, a + 1)
  }

  /** The index is alive, and its location is in chunk c of archetype a. */
  predicate InChunk(t: Table, a: nat, c: nat, i: nat) {
    i < |t.slots| && t.slots[i].alive && t.slots[i].location.archetype == a && t.slots[i].location.chunk == c
  }

  lemma RowIndicesAre(setup: Setup, w: World, a: nat, c: nat)
    requires Sound(setup, w) && a < |w.archetypes| && c < |w.archetypes[a].chunks|
    ensures Distinct(RowIndices(w.archetypes[a], c))
    ensures forall i: nat :: i in RowIndices(w.archetypes[a], c) <==> InChunk(w.table, a, c, i)
  {
    hide Sound, HandleAt;
    var x, indices := w.archetypes[a], RowIndices(w.archetypes[a], c);
    forall r | 0 <= r < |indices| ensures InChunk(w.table, a, c, indices[r]) && w.table.slots[indices[r]].location.row == r {
      RowFacts(setup, w, a, c, r);
    }
    forall i: nat | InChunk(w.table, a, c, i) ensures i in indices {
      TableFacts(setup, w);
      var e := w.table.IdOf(i);
      HandleFacts(setup, w, e);
      assert indices[w.table.LocationOf(e).row] == i;
    }
  }

  lemma {:induction false} ChunkIndicesAre(setup: Setup, w: World, a: nat, c: nat)
    requires Sound(setup, w) && a < |w.archetypes| && c <= |w.archetypes[a].chunks|
    ensures Distinct(ChunkIndices(w.archetypes[a], c))
    ensures forall i: nat :: i in ChunkIndices(w.archetypes[a], c) <==> InArchetype(w.table, a, c, i)
    decreases |w.archetypes[a].chunks| - c
  {
    hide Sound, RowIndices;
    if c < |w.archetypes[a].chunks| {
      RowIndicesAre(setup, w, a, c);
      ChunkIndicesAre(setup, w, a, c + 1);
      JoinDistinct(RowIndices(w.archetypes[a], c), ChunkIndices(w.archetypes[a], c + 1));
    } else {
      forall i: nat | InArchetype(w.table, a, c, i) ensures false {
        TableFacts(setup, w);
        HandleFacts(setup, w, w.table.IdOf(i));
      }
    }
  }

  predicate InArchetype(t: Table, a: nat, c: nat, i: nat) {
    i < |t.slots| && t.slots[i].alive && t.slots[i].location.archetype == a && t.slots[i].location.chunk >= c
  }

  predicate InWorld(t: Table, a: nat, i: nat) {
    i < |t.slots| && t.slots[i].alive && t.slots[i].location.archetype >= a
  }

  lemma JoinDistinct(a: seq<nat>, b: seq<nat>)
    requires Distinct(a) && Distinct(b) && forall i: nat :: !(i in a && i in b)
    ensures Distinct(a + b)
  {
    forall i, j | 0 <= i < j < |a + b| ensures (a + b)[i] != (a + b)[j] {
      if i < |a| <= j {
        assert a[i] in a && b[j - |a|] in b;
      }
    }
  }

  lemma {:induction false} AllIndicesAre(setup: Setup, w: World, a: nat)
    requires Sound(setup, w) && a <= |w.archetypes|
    ensures Distinct(AllIndices(w.archetypes, a))
    ensures forall i: nat :: i in AllIndices(w.archetypes, a) <==> InWorld(w.table, a, i)
    decreases |w.archetypes| - a
  {
    hide Sound, ChunkIndices;
    if a < |w.archetypes| {
      ChunkIndicesAre(setup, w, a, 0);
      AllIndicesAre(setup, w, a + 1);
      JoinDistinct(ChunkIndices(w.archetypes[a], 0), AllIndices(w.archetypes, a + 1));
    } else {
      forall i: nat | InWorld(w.table, a, i) ensures false {
        TableFacts(setup, w);
        HandleFacts(setup, w, w.table.IdOf(i));
      }
    }
  }

  lemma RowsAreLive(setup: Setup, w: World)
    requires Sound(setup, w)
    ensures ArchetypeRows(w.archetypes) == w.table.aliveCount
  {
    hide Sound, AllIndices;
    TableFacts(setup, w);
    AllIndicesAre(setup, w, 0);
    assert w.archetypes[0..] == w.archetypes;
    var all, n := AllIndices(w.archetypes, 0), |w.table.slots|;
    forall i | 0 <= i < |w.table.free| ensures w.table.free[i] !in all {}
    JoinDistinct(w.table.free, all);
    var list := w.table.free + all;
    forall k | 0 <= k < |list| ensures list[k] in Below(n) {
      if k >= |w.table.free| { assert list[k] in all; }
    }
    DistinctBounded(list, Below(n));
    SetOfList(list);
    assert Below(n) <= ElementsOf(list) by {
      forall i: nat | i in Below(n) ensures i in list {
        if w.table.slots[i].alive { assert i in all; }
      }
    }
    SmallerSet(Below(n), ElementsOf(list));
  }

  lemma {:induction false} SmallerSet(a: set<nat>, b: set<nat>)
    requires a <= b
    ensures |a| <= |b|
  {
    if a != {} {
      var x :| x in a;
      SmallerSet(a - {x}, b - {x});
    }
  }

  // --- managed objects ------------------------------------------------------------------------------

  /** The object in a slot, if it is one that files hold. */
  function TypedIn(managed: seq<Option<Managed>>, i: nat): Option<Managed> {
    if i < |managed| && IsTyped(managed[i]) then managed[i] else None
  }

  function SlotIn(managed: seq<Option<Managed>>, i: nat): Option<Managed> {
    if i < |managed| then managed[i] else None
  }

  /** The pool holds the typed objects of the first k slots, each under its own id, and nothing else. */
  ghost predicate SamePool(m: seq<Option<Managed>>, v: seq<Option<Managed>>, k: nat) {
    |v| <= k && forall i: nat :: SlotIn(v, i) == if i < k then TypedIn(m, i) else None
  }

  lemma PoolStep(m: seq<Option<Managed>>, v: seq<Option<Managed>>, k: nat)
    requires SamePool(m, v, k) && k < |m|
    ensures !IsTyped(m[k]) ==> SamePool(m, v, k + 1)
    ensures IsTyped(m[k]) ==> Placed(v, k, m[k].value).Some? && SamePool(m, Placed(v, k, m[k].value).value, k + 1)
  {
    if !IsTyped(m[k]) {
      forall i: nat ensures SlotIn(v, i) == if i < k + 1 then TypedIn(m, i) else None {}
    } else {
      assert SlotIn(v, k) == None;
      var u := Placed(v, k, m[k].value).value;
      forall i: nat ensures SlotIn(u, i) == if i < k + 1 then TypedIn(m, i) else None {
        assert SlotIn(v, i) == if i < k then TypedIn(m, i) else None;
      }
    }
  }

  predicate ManagedFits(k: nat, held: Managed, block: StateBlock) {
    && k < Limit(4) && 1 <= held.generation < Limit(4) && held.owner.index < Limit(4) && held.owner.generation < Limit(4)
    && block.typeId < Limit(8) && |block.state| < Limit(4)
  }

  lemma ManagedEntry(k: nat, held: Managed, block: StateBlock, data: seq<byte>, at: nat)
    requires ManagedFits(k, held, block) && Lies(data, at, ManagedBytes(k, held, block))
    ensures Get(data, at, 4) == Some(k) && Get(data, at + 4, 4) == Some(held.generation)
    ensures Get(data, at + 8, 4) == Some(held.owner.index) && Get(data, at + 12, 4) == Some(held.owner.generation)
    ensures Get(data, at + 16, 8) == Some(block.typeId) && Get(data, at + 24, 4) == Some(|block.state|)
    ensures Take(data, at + 28, |block.state|) == Some(block.state) && |ManagedBytes(k, held, block)| == 28 + |block.state|
  {
    hide Limit, Little, Lies, Get, Take;
    var e5 := Little(4, |block.state|) + block.state;
    var e4 := Little(8, block.typeId) + e5;
    var e3 := Little(4, held.owner.generation) + e4;
    var e2 := Little(4, held.owner.index) + e3;
    var e1 := Little(4, held.generation) + e2;
    GetThen(data, at, 4, k, e1);
    GetThen(data, at + 4, 4, held.generation, e2);
    GetThen(data, at + 8, 4, held.owner.index, e3);
    GetThen(data, at + 12, 4, held.owner.generation, e4);
    GetThen(data, at + 16, 8, block.typeId, e5);
    GetThen(data, at + 24, 4, |block.state|, block.state);
    TakeIs(data, at + 28, block.state);
  }

  lemma ManagedKnown(setup: Setup, w: World, k: nat)
    requires Sound(setup, w) && k < |w.managed| && IsTyped(w.managed[k])
    ensures var held, block := w.managed[k].value, w.managed[k].value.block.value;
      && ManagedFits(k, held, block) && w.table.IsAlive(held.owner)
      && block.typeId in setup.stateSizes && setup.stateSizes[block.typeId] == |block.state|
  {
    TableFacts(setup, w);
    LimitsAre();
    hide StateOf, StorageConfig, WorldStates.State.Valid, Setup.Valid, Limit;
    assert ManagedSound(setup, w.table, w.managed[k].value);
  }

  lemma {:induction false} ManagedRead(setup: Setup, w: World, v: World, k: nat, data: seq<byte>, at: nat)
    requires Sound(setup, w) && k <= |w.managed| && SamePool(w.managed, v.managed, k) && SameSlots(w.table, v.table)
    requires Lies(data, at, ManagedTable(w.managed, k))
    ensures var r := ReadManaged(setup, data, at, v, TypedCount(w.managed[k..]));
      && r.Parsed? && r.at == at + |ManagedTable(w.managed, k)| && r.value == v.(managed := r.value.managed)
      && SamePool(w.managed, r.value.managed, |w.managed|)
    decreases |w.managed| - k
  {
    hide Sound, Lies, Get, Take, SamePool, Placed, ManagedBytes;
    if k == |w.managed| {
      assert w.managed[k..] == [];
    } else {
      assert w.managed[k..][0] == w.managed[k] && w.managed[k..][1..] == w.managed[k + 1..];
      PoolStep(w.managed, v.managed, k);
      if IsTyped(w.managed[k]) {
        var held, block := w.managed[k].value, w.managed[k].value.block.value;
        LiesSplit(data, at, ManagedBytes(k, held, block), ManagedTable(w.managed, k + 1));
        ManagedKnown(setup, w, k);
        ManagedEntry(k, held, block, data, at);
        assert Managed(held.generation, EntityId(held.owner.index, held.owner.generation), Some(StateBlock(block.typeId, block.state))) == held;
        ManagedRead(setup, w, v.(managed := Placed(v.managed, k, held).value), k + 1, data, at + 28 + |block.state|);
      } else {
        assert ManagedTable(w.managed, k) == ManagedTable(w.managed, k + 1);
        ManagedRead(setup, w, v, k + 1, data, at);
      }
    }
  }

  lemma {:induction false} TypedAtMost(managed: seq<Option<Managed>>)
    ensures TypedCount(managed) <= |managed|
  {
    if managed != [] { TypedAtMost(managed[1..]); }
  }

  // --- the round trip -------------------------------------------------------------------------------

  /** What a loaded world shares with the one that was saved: version, handles and their locations,
      marks, every chunk with Transient data at its defaults, and the typed managed objects. */
  ghost predicate Reproduced(setup: Setup, w: World, v: World) {
    && v.version == w.version
    && SameSlots(w.table, v.table) && v.table.Valid() && v.table.aliveCount == w.table.aliveCount
    && (forall e: EntityId :: w.table.IsAlive(e) ==> v.table.LocationOf(e) == w.table.LocationOf(e))
    && (forall i: nat :: WorldStates.MarkAt(v.marks, i) == WorldStates.MarkAt(w.marks, i))
    && v.archetypes == Copied(setup.types, w.archetypes)
    && SamePool(w.managed, v.managed, |w.managed|)
  }

  lemma ReproducedTable(setup: Setup, w: World, u: Table)
    requires Sound(setup, w) && Following(w.table, u, |w.archetypes|, 0, 0)
    ensures SameSlots(w.table, u) && u.Valid() && u.aliveCount == w.table.aliveCount
    ensures forall e: EntityId :: w.table.IsAlive(e) ==> u.LocationOf(e) == w.table.LocationOf(e)
  {
    hide Sound;
    forall e: EntityId | w.table.IsAlive(e) ensures u.LocationOf(e) == w.table.LocationOf(e) {
      HandleFacts(setup, w, e);
    }
  }

  lemma ReproducedMarks(setup: Setup, w: World)
    requires Sound(setup, w)
    ensures forall i: nat :: WorldStates.MarkAt(MarksFrom(MarkCodes(w.table, w.marks)), i) == WorldStates.MarkAt(w.marks, i)
  {
    TableFacts(setup, w);
    hide Sound;
    forall i: nat ensures WorldStates.MarkAt(MarksFrom(MarkCodes(w.table, w.marks)), i) == WorldStates.MarkAt(w.marks, i) {
      MarksAre(w.table, w.marks, i);
    }
  }

  lemma StartFollowing(setup: Setup, w: World)
    requires Sound(setup, w)
    ensures Following(w.table, Restored(RowsIn(w.table, w.marks)), 0, 0, 0)
  {
    TableFacts(setup, w);
    hide Sound;
    RestoredIs(w.table, w.marks);
  }

  lemma SoundNumbers(setup: Setup, w: World)
    requires Sound(setup, w)
    ensures setup.NumbersFit() && |setup.types.infos| <= MAX_TYPES && w.version < Limit(4)
    ensures |w.table.slots| < Limit(4) && |w.archetypes| < Limit(4) && |w.managed| < Limit(4)
  {}

  /** Where the parts of a saved world lie in its bytes. */
  lemma PartsLie(setup: Setup, w: World, data: seq<byte>)
    requires data == Saved(setup, w) && |w.archetypes| < Limit(4) && |w.managed| < Limit(4)
    ensures var h, t := |Header(setup, w.version)|, |EntityTable(w.table, w.marks)|;
      var a := |ArchetypeTable(setup.types, w.archetypes)|;
      && Lies(data, 0, Header(setup, w.version)) && Lies(data, h, EntityTable(w.table, w.marks))
      && Get(data, h + t, 4) == Some(|w.archetypes|) && Lies(data, h + t + 4, ArchetypeTable(setup.types, w.archetypes))
      && Get(data, h + t + 4 + a, 4) == Some(TypedCount(w.managed)) && Lies(data, h + t + 8 + a, ManagedTable(w.managed, 0))
      && |data| == h + t + 8 + a + |ManagedTable(w.managed, 0)|
  {
    hide Limit, Little, Get, Header, EntityTable, ArchetypeTable, ManagedTable;
    assert Lies(data, 0, data) by { assert data[0..|data|] == data; }
    hide Lies;
    TypedAtMost(w.managed);
    var e4 := Little(4, TypedCount(w.managed)) + ManagedTable(w.managed, 0);
    var e3 := ArchetypeTable(setup.types, w.archetypes) + e4;
    var e2 := Little(4, |w.archetypes|) + e3;
    var e1 := EntityTable(w.table, w.marks) + e2;
    LiesSplit(data, 0, Header(setup, w.version), e1);
    LiesSplit(data, |Header(setup, w.version)|, EntityTable(w.table, w.marks), e2);
    var at := |Header(setup, w.version)| + |EntityTable(w.table, w.marks)|;
    GetThen(data, at, 4, |w.archetypes|, e3);
    LiesSplit(data, at + 4, ArchetypeTable(setup.types, w.archetypes), e4);
    GetThen(data, at + 4 + |ArchetypeTable(setup.types, w.archetypes)|, 4, TypedCount(w.managed), ManagedTable(w.managed, 0));
  }

  /** A world file begins with the letters OYIW, format 0, the hash of the registry, the chunk size, the
      version of the world and the number of its types. */
  lemma SavedHeader(setup: Setup, w: World)
    requires Sound(setup, w)
    ensures var data := Saved(setup, w);
      && |data| >= 28 && data[..4] == [79, 89, 73, 87] && Number(data[4..8]) == 0 && Number(data[8..16]) == setup.schemaHash
      && Number(data[16..20]) == setup.chunkSize && Number(data[20..24]) == w.version && Number(data[24..28]) == |setup.types.infos|
  {
    hide Saved, Sound, Setup.NumbersFit, Lies, Header, EntityTable, ArchetypeTable, ManagedTable, Limit, Number, TypeTable;
    var data := Saved(setup, w);
    SoundNumbers(setup, w);
    FitsSetup(setup);
    LimitsAre();
    PartsLie(setup, w, data);
    HeaderParts(setup, w.version, data);
  }

  /** Loading the bytes of a saved world succeeds, reads every byte, and reproduces the world. */
  lemma RoundTrip(setup: Setup, w: World, was: nat)
    requires Sound(setup, w)
    ensures Loaded(setup, was, Saved(setup, w)).Ok? && Reproduced(setup, w, Loaded(setup, was, Saved(setup, w)).value)
  {
    hide Sound, Saved, Lies, Get, Following, Limit, ReadHeader, ReadTable, ReadArchetypes, ReadManaged, Header, EntityTable, ArchetypeTable,
      ManagedTable, Restored, Setup.NumbersFit, Table.Valid, SamePool;
    var data := Saved(setup, w);
    SoundNumbers(setup, w);
    TableFacts(setup, w);
    PartsLie(setup, w, data);
    HeaderRead(setup, w.version, data);
    var h, t := |Header(setup, w.version)|, |EntityTable(w.table, w.marks)|;
    TableRead(w.table, w.marks, data, h);
    var rows := RowsIn(w.table, w.marks);
    var start := World(was, Restored(rows), MarksFrom(rows.marks), [], []);
    StartFollowing(setup, w);
    assert HasArchetypes(setup, w, start, 0);
    assert w.archetypes[0..] == w.archetypes && w.managed[0..] == w.managed;
    ArchetypesRead(setup, w, start, 0, 0, data, h + t + 4);
    var filled := ReadArchetypes(setup, data, h + t + 4, start, |w.archetypes|, 0).value.0;
    ReproducedTable(setup, w, filled.table);
    RowsAreLive(setup, w);
    NothingPooled(w.managed);
    ManagedRead(setup, w, filled, 0, data, h + t + 8 + |ArchetypeTable(setup.types, w.archetypes)|);
    ReproducedMarks(setup, w);
    assert Copied(setup.types, w.archetypes)[..|w.archetypes|] == Copied(setup.types, w.archetypes);
  }

  lemma NothingPooled(m: seq<Option<Managed>>)
    ensures SamePool(m, [], 0)
  {}

  // --- what the loaded world is to its users --------------------------------------------------------

  /** An entity with its Transient values at their defaults. */
  function RefreshedEntity(types: Types, x: WorldStates.Entity): WorldStates.Entity {
    x.(values := map t | t in x.values :: if t < |types.infos| && types.infos[t].transient then types.infos[t].initial else x.values[t])
  }

  /** The same rows in the same places, Transient values at their defaults. */
  lemma SameRows(setup: Setup, w: World, v: World, a: nat, p: Place)
    requires Sound(setup, w) && v.archetypes == Copied(setup.types, w.archetypes)
    ensures var s, t := StateOf(setup.types, w), StateOf(setup.types, v);
      && (t.Held(a, p) <==> s.Held(a, p))
      && (s.Held(a, p) ==> t.archetypes[a].At(p) == Refreshed(setup.types, s.archetypes[a].At(p)))
  {
    hide Sound, Scrubbed, RowAt, Refreshed, LayoutOk;
    HeldIs(setup.types, w, a, p);
    HeldIs(setup.types, v, a, p);
    if StateOf(setup.types, w).Held(a, p) {
      var x := w.archetypes[a];
      ShapeFacts(setup, w, a);
      LayoutFacts(setup, w, a);
      StateParts(setup.types, w, a, p.chunk, p.row);
      StateParts(setup.types, v, a, p.chunk, p.row);
      CopiedRow(setup.types, x.mask, setup.chunkSize, x.layout, x.chunks[p.chunk], p.row);
    }
  }

  lemma HeldIs(types: Types, w: World, a: nat, p: Place)
    ensures StateOf(types, w).Held(a, p) <==> a < |w.archetypes| && p.chunk < |w.archetypes[a].chunks| && p.row < w.archetypes[a].chunks[p.chunk].count
  {}

  lemma RefreshedShape(setup: Setup, w: World, v: World, a: nat, row: Row)
    requires setup.Valid() && a < |w.archetypes| && v.archetypes == Copied(setup.types, w.archetypes)
    requires StateOf(setup.types, w).ShapeOk(StorageConfig(setup), a, row)
    ensures StateOf(setup.types, v).ShapeOk(StorageConfig(setup), a, Refreshed(setup.types, row))
  {
    StateFields(setup.types, w);
    StateFields(setup.types, v);
    assert SameArchetype(w.archetypes[a], StateOf(setup.types, w).archetypes[a]) && SameArchetype(v.archetypes[a], StateOf(setup.types, v).archetypes[a]);
    hide StateOf, Setup.NumbersFit, Setup.LayoutsOk;
  }

  lemma LoadedArchetypes(setup: Setup, w: World, v: World)
    requires Sound(setup, w) && v.archetypes == Copied(setup.types, w.archetypes)
    ensures StateOf(setup.types, v).ArchetypesOk(StorageConfig(setup))
  {
    var s, t := StateOf(setup.types, w), StateOf(setup.types, v);
    StateFields(setup.types, w);
    StateFields(setup.types, v);
    hide StateOf, StorageConfig, Setup.Valid, Scrubbed;
    forall a | 0 <= a < |t.archetypes| ensures t.ArchetypeOk(StorageConfig(setup), a) {
      assert s.ArchetypeOk(StorageConfig(setup), a);
      assert forall b :: 0 <= b <= a ==> SameArchetype(w.archetypes[b], s.archetypes[b]) && SameArchetype(v.archetypes[b], t.archetypes[b]);
      forall c | 0 <= c < |t.archetypes[a].chunks| ensures |t.archetypes[a].chunks[c]| == |s.archetypes[a].chunks[c]| {}
    }
  }

  lemma LoadedRow(setup: Setup, w: World, v: World, a: nat, p: Place)
    requires Sound(setup, w) && Reproduced(setup, w, v) && StateOf(setup.types, v).Held(a, p)
    ensures StateOf(setup.types, v).RowOk(StorageConfig(setup), a, p) && StateOf(setup.types, v).archetypes[a].At(p).entity != INVALID_ENTITY
  {
    var s, t := StateOf(setup.types, w), StateOf(setup.types, v);
    SameRows(setup, w, v, a, p);
    StateFields(setup.types, w);
    StateFields(setup.types, v);
    RefreshedShape(setup, w, v, a, s.archetypes[a].At(p));
    hide StateOf, StorageConfig, Setup.Valid, Copied, SamePool;
    assert s.RowOk(StorageConfig(setup), a, p);
  }

  lemma LoadedPlaced(setup: Setup, w: World, v: World, e: EntityId)
    requires Sound(setup, w) && Reproduced(setup, w, v) && v.table.IsAlive(e)
    ensures w.table.IsAlive(e) && StateOf(setup.types, w).Placed(e) && StateOf(setup.types, v).Placed(e)
    ensures StateOf(setup.types, v).RowOf(e) == Refreshed(setup.types, StateOf(setup.types, w).RowOf(e))
    ensures StateOf(setup.types, v).MarkOk(e) && StateOf(setup.types, v).MarkOf(e) == StateOf(setup.types, w).MarkOf(e)
  {
    var s, t := StateOf(setup.types, w), StateOf(setup.types, v);
    StateFields(setup.types, w);
    StateFields(setup.types, v);
    hide StateOf, StorageConfig, Setup.Valid, Copied, SamePool;
    assert s.Placed(e) && s.MarkOk(e);
    SameRows(setup, w, v, s.HomeOf(e), s.PlaceOf(e));
    assert SameArchetype(w.archetypes[s.HomeOf(e)], s.archetypes[s.HomeOf(e)]);
    assert SameArchetype(v.archetypes[s.HomeOf(e)], t.archetypes[s.HomeOf(e)]);
    SameKinds(setup.types, w.archetypes, s.HomeOf(e));
  }

  lemma SameKinds(types: Types, archetypes: seq<ByteArchetype>, a: nat)
    requires a < |archetypes|
    ensures Copied(types, archetypes)[a].prototype == archetypes[a].prototype && Copied(types, archetypes)[a].mask == archetypes[a].mask
  {}

  /** The loaded world's storage is in order, and to its users it is the saved world with Transient
      values at their defaults. */
  lemma ReloadedView(setup: Setup, w: World, v: World)
    requires Sound(setup, w) && Reproduced(setup, w, v)
    ensures StateOf(setup.types, v).Valid(StorageConfig(setup))
    ensures StateOf(setup.types, w).LivePlaced() && StateOf(setup.types, v).LivePlaced()
    ensures var before, after := StateOf(setup.types, w).View(), StateOf(setup.types, v).View();
      after.Keys == before.Keys && forall e :: e in before ==> after[e] == RefreshedEntity(setup.types, before[e])
  {
    var s, t := StateOf(setup.types, w), StateOf(setup.types, v);
    StateFields(setup.types, w);
    StateFields(setup.types, v);
    LoadedArchetypes(setup, w, v);
    LoadedValid(setup, w, v);
    SoundState(setup, w);
    hide Sound, Reproduced, StateOf, StorageConfig, WorldStates.State.Valid, WorldStates.State.LivePlaced;
    s.ValidPlaced(StorageConfig(setup));
    t.ValidPlaced(StorageConfig(setup));
    LiveSame(setup, w, v);
    assert t.View().Keys == s.View().Keys;
    forall e | e in s.View() ensures t.View()[e] == RefreshedEntity(setup.types, s.View()[e]) {
      LoadedPlaced(setup, w, v, e);
    }
  }

  lemma SoundState(setup: Setup, w: World)
    requires Sound(setup, w)
    ensures StateOf(setup.types, w).Valid(StorageConfig(setup))
  {}

  lemma LiveSame(setup: Setup, w: World, v: World)
    requires Reproduced(setup, w, v)
    ensures forall e: EntityId :: v.table.IsAlive(e) <==> w.table.IsAlive(e)
    ensures StateOf(setup.types, v).Live() == StateOf(setup.types, w).Live()
  {
    StateFields(setup.types, w);
    StateFields(setup.types, v);
    hide StateOf, SamePool, Copied;
    StateOf(setup.types, w).LiveAre();
    StateOf(setup.types, v).LiveAre();
  }

  lemma LoadedValid(setup: Setup, w: World, v: World)
    requires Sound(setup, w) && Reproduced(setup, w, v)
    ensures StateOf(setup.types, v).Valid(StorageConfig(setup))
  {
    var t := StateOf(setup.types, v);
    StateFields(setup.types, v);
    LoadedArchetypes(setup, w, v) by { ReproducedArchetypes(setup, w, v); }
    forall a: nat, p: Place | t.Held(a, p) ensures t.RowOk(StorageConfig(setup), a, p) && t.archetypes[a].At(p).entity != INVALID_ENTITY {
      LoadedRow(setup, w, v, a, p);
    }
    forall e: EntityId | t.table.IsAlive(e) ensures t.Placed(e) && t.MarkOk(e) {
      LoadedPlaced(setup, w, v, e);
    }
    TableFacts(setup, w);
    hide Sound, StateOf, StorageConfig, SamePool, Copied, WorldStates.State.ArchetypesOk, WorldStates.State.RowOk, WorldStates.State.Placed, WorldStates.State.MarkOk;
  }

  lemma ReproducedArchetypes(setup: Setup, w: World, v: World)
    requires Reproduced(setup, w, v)
    ensures v.archetypes == Copied(setup.types, w.archetypes)
  {}
}
