/** What a world stores, and what its two storage primitives keep: putting an entity's row into an
    archetype, and filling the hole a row leaves. */
module WorldStates {
  import opened Bytes
  import opened Results
  import opened Entities
  import opened Archetypes

  datatype Mark = Unmarked | Prototype | Locked

  /** The registered types, and the rows per chunk of each component set; zero when the chunk layout
      cannot be computed, as for a set with an unregistered type. */
  datatype Config = Config(infos: seq<ComponentInfo>, capacityOf: set<nat> -> nat)
  {
    predicate Registered(t: nat) { t < |infos| }

    function Capacity(mask: set<nat>): nat {
      if forall t :: t in mask ==> Registered(t) then capacityOf(mask) else 0
    }

    predicate HasColumn(t: nat) {
      Registered(t) && infos[t].hasColumn
    }

    function Size(t: nat): nat {
      if Registered(t) then |infos[t].initial| else 0
    }
  }

  /** Whether an archetype or a chunk that is needed can be allocated. */
  datatype Memory = Memory(archetype: bool, chunk: bool)

  /** The marks vector only reaches as far as the highest index that was ever marked. */
  function MarkAt(marks: seq<Mark>, i: nat): Mark {
    if i < |marks| then marks[i] else Unmarked
  }

  function Remember(marks: seq<Mark>, i: nat, mark: Mark): seq<Mark> {
    if |marks| <= i && mark == Unmarked then marks
    else (if |marks| <= i then marks + seq(i + 1 - |marks|, _ => Unmarked) else marks)[i := mark]
  }

  lemma RememberAt(marks: seq<Mark>, i: nat, mark: Mark, j: nat)
    ensures MarkAt(Remember(marks, i, mark), j) == if j == i then mark else MarkAt(marks, j)
  {}

  /** What a world is to its users: component values, enable bits and mark. */
  datatype Entity = Entity(values: map<nat, seq<byte>>, enabled: map<nat, bool>, mark: Mark)

  datatype Hole = Full | Hole(archetype: nat, place: Place)

  datatype State = State(table: Table, archetypes: seq<Storage>, marks: seq<Mark>)
  {
    predicate Held(a: nat, p: Place) {
      a < |archetypes| && archetypes[a].Holds(p)
    }

    function PlaceOf(e: EntityId): Place
      requires e.index < |table.slots|
    {
      Place(table.LocationOf(e).chunk, table.LocationOf(e).row)
    }

    function HomeOf(e: EntityId): nat
      requires e.index < |table.slots|
    {
      table.LocationOf(e).archetype
    }

    /** The location of e holds e's row. */
    predicate Placed(e: EntityId) {
      && e.index < |table.slots| && Held(HomeOf(e), PlaceOf(e))
      && archetypes[HomeOf(e)].At(PlaceOf(e)).entity == e
    }

    function RowOf(e: EntityId): Row
      requires Placed(e)
    {
      archetypes[HomeOf(e)].At(PlaceOf(e))
    }

    function MarkOf(e: EntityId): Mark {
      MarkAt(marks, e.index)
    }

    ghost predicate ShapeOk(cfg: Config, a: nat, row: Row)
      requires a < |archetypes|
    {
      && row.enabled.Keys == archetypes[a].mask
      && (forall t :: t in row.values <==> t in archetypes[a].mask && cfg.HasColumn(t))
      && (forall t :: t in row.values ==> |row.values[t]| == cfg.Size(t))
    }

    /** The row belongs to a live entity whose location leads back to it. */
    ghost predicate RowOk(cfg: Config, a: nat, p: Place)
      requires Held(a, p)
    {
      var row := archetypes[a].At(p);
      && ShapeOk(cfg, a, row) && table.IsAlive(row.entity)
      && table.LocationOf(row.entity) == Location(a, p.chunk, p.row)
    }

    predicate ArchetypeOk(cfg: Config, a: nat)
      requires a < |archetypes|
    {
      && archetypes[a].Packed() && archetypes[a].capacity == cfg.Capacity(archetypes[a].mask)
      && forall b :: 0 <= b < a ==> archetypes[b].mask != archetypes[a].mask || archetypes[b].prototype != archetypes[a].prototype
    }

    predicate ArchetypesOk(cfg: Config) {
      forall a :: 0 <= a < |archetypes| ==> ArchetypeOk(cfg, a)
    }

    predicate MarkOk(e: EntityId) {
      e.index < |table.slots| && HomeOf(e) < |archetypes| && (MarkOf(e) == Prototype <==> archetypes[HomeOf(e)].prototype)
    }

    ghost predicate MarksOk() {
      && (forall e: EntityId :: table.IsAlive(e) ==> MarkOk(e))
      && (forall i: nat :: MarkAt(marks, i) != Unmarked ==> i < |table.slots| && table.slots[i].alive)
    }

    /** Everything fits together, except that one entity may be without a row (INVALID_ENTITY when
        there is none) and one row may be a hole. */
    ghost predicate Fits(cfg: Config, hole: Hole, unplaced: EntityId) {
      && table.Valid() && ArchetypesOk(cfg)
      && (hole.Hole? ==> Held(hole.archetype, hole.place))
      && (forall e: EntityId :: table.IsAlive(e) && e != unplaced ==> Placed(e) && (hole.Hole? ==> HomeOf(e) != hole.archetype || PlaceOf(e) != hole.place))
      && (forall a: nat, p: Place :: Held(a, p) && hole != Hole(a, p) ==> RowOk(cfg, a, p) && archetypes[a].At(p).entity != unplaced)
    }

    ghost predicate Valid(cfg: Config) {
      Fits(cfg, Full, INVALID_ENTITY) && MarksOk()
    }

    function EntityOf(e: EntityId): Entity
      requires Placed(e)
    {
      Entity(RowOf(e).values, RowOf(e).enabled, MarkOf(e))
    }

    function Live(): set<EntityId> {
      set i | 0 <= i < |table.slots| && table.slots[i].alive && table.slots[i].generation != 0 :: table.IdOf(i)
    }

    lemma LiveAre()
      ensures forall e: EntityId :: e in Live() <==> table.IsAlive(e)
    {
      forall e: EntityId | table.IsAlive(e) ensures e in Live() {
        assert e == table.IdOf(e.index);
      }
    }

    predicate LivePlaced() {
      forall e :: e in Live() ==> Placed(e)
    }

    lemma ValidTable(cfg: Config)
      requires Valid(cfg)
      ensures table.Valid()
    {}

    /** The map the storage stands for. */
    function View(): map<EntityId, Entity>
      requires LivePlaced()
    {
      map e | e in Live() :: EntityOf(e)
    }

    lemma ValidPlaced(cfg: Config)
      requires Valid(cfg)
      ensures LivePlaced()
      ensures forall e: EntityId :: e in Live() <==> table.IsAlive(e)
    {
      LiveAre();
    }

    // --- primitives -------------------------------------------------------------------------------

    /** Allocate and SetLocation. */
    function Inserted(a: nat, row: Row): State
      requires a < |archetypes| && row.entity.index < |table.slots|
    {
      var p := archetypes[a].NextPlace();
      this.(archetypes := archetypes[a := archetypes[a].Appended(row)],
            table := table.Relocated(row.entity, Location(a, p.chunk, p.row)))
    }

    /** RemoveRow: the moved entity, if there is one, learns its new location. */
    function Filled(a: nat, p: Place): State
      requires Held(a, p) && archetypes[a].Packed()
    {
      var moved := archetypes[a].Moved(p);
      this.(archetypes := archetypes[a := archetypes[a].Without(p)],
            table := if moved.IsValid() && moved.index < |table.slots| then table.Relocated(moved, Location(a, p.chunk, p.row)) else table)
    }

    function Rewritten(a: nat, p: Place, row: Row): State
      requires Held(a, p)
    {
      this.(archetypes := archetypes[a := archetypes[a].Updated(p, row)])
    }
  }

  function EmptyWorld(): State {
    State(Table([], [], 0), [], [])
  }

  // --- what the primitives keep ---------------------------------------------------------------------

  lemma RelocatedTable(t: Table, e: EntityId, location: Location)
    requires t.Valid() && t.IsAlive(e)
    ensures t.Relocated(e, location).Valid()
    ensures forall d: EntityId :: t.Relocated(e, location).IsAlive(d) <==> t.IsAlive(d)
    ensures forall d: EntityId :: t.IsAlive(d) ==> t.Relocated(e, location).LocationOf(d) == if d == e then location else t.LocationOf(d)
  {}

  /** Replacing one archetype by one of the same kind. */
  lemma SameKind(cfg: Config, s: State, t: State, a: nat)
    requires s.ArchetypesOk(cfg) && a < |s.archetypes| == |t.archetypes| && t.archetypes == s.archetypes[a := t.archetypes[a]]
    requires t.archetypes[a].Packed()
    requires t.archetypes[a] == s.archetypes[a].(chunks := t.archetypes[a].chunks)
    ensures t.ArchetypesOk(cfg)
  {
    forall b | 0 <= b < |t.archetypes| ensures t.ArchetypeOk(cfg, b) {
      assert s.ArchetypeOk(cfg, b);
    }
  }

  /** The rows of the other entities, and the archetypes they are in. */
  ghost predicate OthersStay(s: State, t: State, e: EntityId) {
    forall d: EntityId :: s.table.IsAlive(d) && d != e ==>
      s.Placed(d) && t.Placed(d) && t.RowOf(d) == s.RowOf(d) && t.HomeOf(d) == s.HomeOf(d)
  }

  lemma InsertedFits(cfg: Config, s: State, hole: Hole, a: nat, row: Row)
    requires s.Fits(cfg, hole, row.entity) && s.table.IsAlive(row.entity) && a < |s.archetypes| && s.ShapeOk(cfg, a, row)
    ensures s.Inserted(a, row).Fits(cfg, hole, INVALID_ENTITY)
    ensures s.Inserted(a, row).Placed(row.entity) && s.Inserted(a, row).RowOf(row.entity) == row
    ensures s.Inserted(a, row).HomeOf(row.entity) == a
    ensures OthersStay(s, s.Inserted(a, row), row.entity)
  {
    var t, n := s.Inserted(a, row), s.archetypes[a].NextPlace();
    assert s.ArchetypeOk(cfg, a);
    s.archetypes[a].AppendedRows(row);
    RelocatedTable(s.table, row.entity, Location(a, n.chunk, n.row));
    SameKind(cfg, s, t, a);
    forall b: nat, p: Place | t.Held(b, p) && hole != Hole(b, p) ensures t.RowOk(cfg, b, p) {
      if b != a || p != n {
        assert s.Held(b, p) && s.RowOk(cfg, b, p);
        assert t.archetypes[b].At(p) == s.archetypes[b].At(p);
      }
    }
    forall d: EntityId | s.table.IsAlive(d) && d != row.entity
      ensures s.Placed(d) && t.Placed(d) && t.RowOf(d) == s.RowOf(d) && t.HomeOf(d) == s.HomeOf(d)
    {
      assert s.Held(s.HomeOf(d), s.PlaceOf(d));
    }
  }

  lemma FilledTable(cfg: Config, s: State, a: nat, p: Place, unplaced: EntityId)
    requires s.Fits(cfg, Hole(a, p), unplaced)
    ensures s.archetypes[a].Packed() && s.Filled(a, p).table.Valid()
    ensures s.Filled(a, p).archetypes == s.archetypes[a := s.archetypes[a].Without(p)] && s.Filled(a, p).marks == s.marks
    ensures forall e: EntityId :: s.Filled(a, p).table.IsAlive(e) <==> s.table.IsAlive(e)
    ensures |s.Filled(a, p).table.slots| == |s.table.slots|
    ensures forall i :: 0 <= i < |s.table.slots| ==> s.Filled(a, p).table.slots[i] == s.table.slots[i].(location := s.Filled(a, p).table.slots[i].location)
    ensures var last := s.archetypes[a].LastPlace();
      && s.Held(a, last)
      && (p != last ==> s.table.IsAlive(s.archetypes[a].At(last).entity) && s.archetypes[a].At(last).entity != unplaced)
      && forall d: EntityId :: s.table.IsAlive(d) ==>
           s.Filled(a, p).table.LocationOf(d) ==
             if p != last && d == s.archetypes[a].At(last).entity then Location(a, p.chunk, p.row) else s.table.LocationOf(d)
  {
    assert s.ArchetypeOk(cfg, a);
    var last := s.archetypes[a].LastPlace();
    if p != last {
      assert s.Held(a, last) && s.RowOk(cfg, a, last);
      RelocatedTable(s.table, s.archetypes[a].Moved(p), Location(a, p.chunk, p.row));
    }
  }

  lemma FilledRow(cfg: Config, s: State, a: nat, p: Place, unplaced: EntityId, b: nat, q: Place)
    requires s.Fits(cfg, Hole(a, p), unplaced) && s.archetypes[a].Packed() && s.Filled(a, p).Held(b, q)
    ensures s.Filled(a, p).RowOk(cfg, b, q) && s.Filled(a, p).archetypes[b].At(q).entity != unplaced
  {
    FilledTable(cfg, s, a, p, unplaced);
    s.archetypes[a].WithoutRows(p);
    var t, last := s.Filled(a, p), s.archetypes[a].LastPlace();
    assert s.Held(b, q);
    if b == a && q == p {
      assert s.RowOk(cfg, a, last) && t.archetypes[b].At(q) == s.archetypes[a].At(last);
    } else {
      assert s.RowOk(cfg, b, q) && t.archetypes[b].At(q) == s.archetypes[b].At(q);
    }
  }

  lemma FilledFits(cfg: Config, s: State, a: nat, p: Place, unplaced: EntityId)
    requires s.Fits(cfg, Hole(a, p), unplaced)
    ensures s.archetypes[a].Packed() && s.Filled(a, p).Fits(cfg, Full, unplaced)
    ensures OthersStay(s, s.Filled(a, p), unplaced)
  {
    FilledTable(cfg, s, a, p, unplaced);
    var t := s.Filled(a, p);
    s.archetypes[a].WithoutRows(p);
    SameKind(cfg, s, t, a);
    forall b: nat, q: Place | t.Held(b, q) ensures t.RowOk(cfg, b, q) && t.archetypes[b].At(q).entity != unplaced {
      FilledRow(cfg, s, a, p, unplaced, b, q);
    }
    forall d: EntityId | s.table.IsAlive(d) && d != unplaced
      ensures s.Placed(d) && t.Placed(d) && t.RowOf(d) == s.RowOf(d) && t.HomeOf(d) == s.HomeOf(d)
    {
      assert s.Held(s.HomeOf(d), s.PlaceOf(d)) && s.RowOk(cfg, s.HomeOf(d), s.PlaceOf(d));
    }
  }

  lemma RewrittenFits(cfg: Config, s: State, e: EntityId, row: Row)
    requires s.Fits(cfg, Full, INVALID_ENTITY) && s.table.IsAlive(e) && s.Placed(e) && row.entity == e && s.ShapeOk(cfg, s.HomeOf(e), row)
    ensures s.Rewritten(s.HomeOf(e), s.PlaceOf(e), row).Fits(cfg, Full, INVALID_ENTITY)
    ensures OthersStay(s, s.Rewritten(s.HomeOf(e), s.PlaceOf(e), row), e)
    ensures s.Rewritten(s.HomeOf(e), s.PlaceOf(e), row).Placed(e) && s.Rewritten(s.HomeOf(e), s.PlaceOf(e), row).RowOf(e) == row
  {
    var a, p := s.HomeOf(e), s.PlaceOf(e);
    var t := s.Rewritten(a, p, row);
    s.archetypes[a].UpdatedRows(p, row);
    assert s.ArchetypeOk(cfg, a) && s.RowOk(cfg, a, p);
    SameKind(cfg, s, t, a);
    forall b: nat, q: Place | t.Held(b, q) ensures t.RowOk(cfg, b, q) && t.archetypes[b].At(q).entity != INVALID_ENTITY {
      assert s.Held(b, q) && s.RowOk(cfg, b, q);
      if b != a || q != p {
        assert t.archetypes[b].At(q) == s.archetypes[b].At(q);
      }
    }
    forall d: EntityId | s.table.IsAlive(d) && d != e
      ensures s.Placed(d) && t.Placed(d) && t.RowOf(d) == s.RowOf(d) && t.HomeOf(d) == s.HomeOf(d)
    {
      assert s.Held(s.HomeOf(d), s.PlaceOf(d)) && s.RowOk(cfg, s.HomeOf(d), s.PlaceOf(d));
    }
  }

  /** Marks are beside the storage. */
  lemma RemarkedFits(cfg: Config, s: State, marks: seq<Mark>, hole: Hole, unplaced: EntityId)
    requires s.Fits(cfg, hole, unplaced)
    ensures s.(marks := marks).Fits(cfg, hole, unplaced)
    ensures forall e: EntityId :: s.Placed(e) ==>
      s.(marks := marks).Placed(e) && s.(marks := marks).RowOf(e) == s.RowOf(e) && s.(marks := marks).HomeOf(e) == s.HomeOf(e)
  {
    var t := s.(marks := marks);
    forall a | 0 <= a < |t.archetypes| ensures t.ArchetypeOk(cfg, a) { assert s.ArchetypeOk(cfg, a); }
    forall a: nat, p: Place | t.Held(a, p) && hole != Hole(a, p) ensures t.RowOk(cfg, a, p) && t.archetypes[a].At(p).entity != unplaced {
      assert s.Held(a, p) && s.RowOk(cfg, a, p);
    }
    forall e: EntityId | s.table.IsAlive(e) && e != unplaced
      ensures t.Placed(e) && (hole.Hole? ==> t.HomeOf(e) != hole.archetype || t.PlaceOf(e) != hole.place)
    {
      assert s.Placed(e);
    }
  }
}
