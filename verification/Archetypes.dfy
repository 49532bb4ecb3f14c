/** Archetypes: rows of one component set, packed into chunks. */
module Archetypes {
  import opened Bytes
  import opened Entities

  /** A registered component type; tags and chunk components have no column. */
  datatype ComponentInfo = ComponentInfo(initial: seq<byte>, hasColumn: bool)

  /** One row: the entity column, the component columns and the enable bits. */
  datatype Row = Row(entity: EntityId, values: map<nat, seq<byte>>, enabled: map<nat, bool>)

  /** A row as InitializeRow leaves it: defaults, everything enabled. */
  function InitialRow(infos: seq<ComponentInfo>, mask: set<nat>, e: EntityId): Row
    requires forall t :: t in mask ==> t < |infos|
  {
    Row(e, map t | t in mask && infos[t].hasColumn :: infos[t].initial, map t | t in mask :: true)
  }

  /** CopySharedComponents: columns and enable bits both archetypes have. */
  function Share(target: Row, source: Row): Row {
    Row(target.entity,
        map t | t in target.values :: if t in source.values then source.values[t] else target.values[t],
        map t | t in target.enabled :: if t in source.enabled then source.enabled[t] else target.enabled[t])
  }

  datatype Place = Place(chunk: nat, row: nat)

  datatype Storage = Storage(mask: set<nat>, prototype: bool, capacity: nat, chunks: seq<seq<Row>>)
  {
    /** All chunks but the last are full and none is empty. */
    predicate Packed() {
      && capacity > 0
      && (forall c :: 0 <= c < |chunks| ==> 0 < |chunks[c]| <= capacity)
      && (forall c :: 0 <= c < |chunks| - 1 ==> |chunks[c]| == capacity)
    }

    predicate Holds(p: Place) {
      p.chunk < |chunks| && p.row < |chunks[p.chunk]|
    }

    function At(p: Place): Row
      requires Holds(p)
    {
      chunks[p.chunk][p.row]
    }

    predicate NeedsChunk() {
      chunks == [] || |chunks[|chunks| - 1]| == capacity
    }

    function NextPlace(): Place {
      if NeedsChunk() then Place(|chunks|, 0) else Place(|chunks| - 1, |chunks[|chunks| - 1]|)
    }

    function Appended(row: Row): Storage {
      if NeedsChunk() then this.(chunks := chunks + [[row]])
      else this.(chunks := chunks[|chunks| - 1 := chunks[|chunks| - 1] + [row]])
    }

    function Updated(p: Place, row: Row): Storage
      requires Holds(p)
    {
      this.(chunks := chunks[p.chunk := chunks[p.chunk][p.row := row]])
    }

    function LastPlace(): Place
      requires Packed() && chunks != []
    {
      Place(|chunks| - 1, |chunks[|chunks| - 1]| - 1)
    }

    /** The last row is cut off; an emptied chunk is released. */
    function WithoutLast(): Storage
      requires Packed() && chunks != []
    {
      var last := chunks[|chunks| - 1];
      if |last| == 1 then this.(chunks := chunks[..|chunks| - 1])
      else this.(chunks := chunks[|chunks| - 1 := last[..|last| - 1]])
    }

    /** The last row fills the hole. */
    function Without(p: Place): Storage
      requires Packed() && Holds(p)
    {
      (if p == LastPlace() then this else Updated(p, At(LastPlace()))).WithoutLast()
    }

    /** The entity that fills the hole, if another one does. */
    function Moved(p: Place): EntityId
      requires Packed() && Holds(p)
    {
      if p == LastPlace() then INVALID_ENTITY else At(LastPlace()).entity
    }

    // --- rows after an operation ------------------------------------------------------------------

    lemma AppendedRows(row: Row)
      requires Packed()
      ensures Appended(row).Packed() && !Holds(NextPlace())
      ensures forall p :: Appended(row).Holds(p) <==> Holds(p) || p == NextPlace()
      ensures forall p :: Appended(row).Holds(p) ==> Appended(row).At(p) == if p == NextPlace() then row else At(p)
    {}

    lemma UpdatedRows(p: Place, row: Row)
      requires Holds(p)
      ensures Packed() ==> Updated(p, row).Packed()
      ensures forall q :: Updated(p, row).Holds(q) <==> Holds(q)
      ensures forall q :: Holds(q) ==> Updated(p, row).At(q) == if q == p then row else At(q)
    {}

    lemma WithoutLastRows()
      requires Packed() && chunks != []
      ensures WithoutLast().Packed() && Holds(LastPlace())
      ensures forall q :: WithoutLast().Holds(q) <==> Holds(q) && q != LastPlace()
      ensures forall q :: WithoutLast().Holds(q) ==> WithoutLast().At(q) == At(q)
    {}

    lemma WithoutRows(p: Place)
      requires Packed() && Holds(p)
      ensures Without(p).Packed()
      ensures forall q :: Without(p).Holds(q) <==> Holds(q) && q != LastPlace()
      ensures forall q :: Without(p).Holds(q) ==> Without(p).At(q) == if q == p then At(LastPlace()) else At(q)
    {
      if p == LastPlace() {
        WithoutLastRows();
      } else {
        UpdatedRows(p, At(LastPlace()));
        Updated(p, At(LastPlace())).WithoutLastRows();
      }
    }
  }

  function RowCount(chunks: seq<seq<Row>>): nat {
    if chunks == [] then 0 else RowCount(chunks[..|chunks| - 1]) + |chunks[|chunks| - 1]|
  }

  lemma CountAppended(s: Storage, row: Row)
    requires s.Packed()
    ensures RowCount(s.Appended(row).chunks) == RowCount(s.chunks) + 1
  {
    var n := |s.chunks|;
    if s.NeedsChunk() {
      assert s.Appended(row).chunks[..n] == s.chunks;
    } else {
      assert s.Appended(row).chunks[..n - 1] == s.chunks[..n - 1];
    }
  }

  /** A new chunk starts empty and then takes the row. */
  lemma AppendedInSteps(s: Storage, row: Row, chunks: seq<seq<Row>>)
    requires var grown := if s.NeedsChunk() then s.chunks + [[]] else s.chunks;
      chunks == grown[|grown| - 1 := grown[|grown| - 1] + [row]]
    ensures chunks == s.Appended(row).chunks
  {
    if s.NeedsChunk() {
      assert [] + [row] == [row];
      assert chunks == s.chunks + [[row]];
    }
  }

  lemma {:induction false} CountUpdated(s: Storage, p: Place, row: Row)
    requires s.Holds(p)
    ensures RowCount(s.Updated(p, row).chunks) == RowCount(s.chunks)
    decreases |s.chunks|
  {
    var n := |s.chunks| - 1;
    var t := s.(chunks := s.chunks[..n]);
    if p.chunk < n {
      CountUpdated(t, p, row);
      assert s.Updated(p, row).chunks[..n] == t.Updated(p, row).chunks;
    } else {
      assert s.Updated(p, row).chunks[..n] == s.chunks[..n];
    }
  }

  lemma CountWithout(s: Storage, p: Place)
    requires s.Packed() && s.Holds(p)
    ensures RowCount(s.chunks) > 0 && RowCount(s.Without(p).chunks) == RowCount(s.chunks) - 1
  {
    var t := if p == s.LastPlace() then s else s.Updated(p, s.At(s.LastPlace()));
    if p != s.LastPlace() {
      CountUpdated(s, p, s.At(s.LastPlace()));
      s.UpdatedRows(p, s.At(s.LastPlace()));
    }
    var n := |t.chunks| - 1;
    assert t.WithoutLast().chunks[..n] == t.chunks[..n];
  }

  /** mMask, mPrototype, mLayout, mChunks and mEntityCount. */
  class Archetype {
    const mask: set<nat>
    const prototype: bool
    const capacity: nat
    var chunks: seq<seq<Row>>
    var entityCount: nat

    ghost function Contents(): Storage
      reads this
    {
      Storage(mask, prototype, capacity, chunks)
    }

    ghost predicate Valid()
      reads this
    {
      Contents().Packed() && entityCount == RowCount(chunks)
    }

    constructor (mask: set<nat>, prototype: bool, capacity: nat)
      requires capacity > 0
      ensures Contents() == Storage(mask, prototype, capacity, []) && Valid()
    {
      this.mask, this.prototype, this.capacity := mask, prototype, capacity;
      chunks, entityCount := [], 0;
    }

    /** A row for the entity; `memory` says whether a new chunk can be allocated if one is needed. */
    method Allocate(row: Row, memory: bool) returns (ok: bool, place: Place)
      requires Valid()
      modifies this
      ensures Valid() && place == old(Contents().NextPlace())
      ensures ok == (memory || !old(Contents().NeedsChunk()))
      ensures Contents() == if ok then old(Contents().Appended(row)) else old(Contents())
    {
      hide Storage.Packed, RowCount;
      ghost var before := Contents();
      CountAppended(before, row);
      before.AppendedRows(row);
      var needChunk := chunks == [] || |chunks[|chunks| - 1]| == capacity;
      place := if needChunk then Place(|chunks|, 0) else Place(|chunks| - 1, |chunks[|chunks| - 1]|);
      ok := memory || !needChunk;
      if !ok {
        return;
      }
      if needChunk {
        chunks := chunks + [[]];
      }
      chunks := chunks[|chunks| - 1 := chunks[|chunks| - 1] + [row]];
      entityCount := entityCount + 1;
      AppendedInSteps(before, row, chunks);
    }

    /** Takes a row out; the last row fills the hole, and its entity is returned. */
    method Remove(place: Place) returns (moved: EntityId)
      requires Valid() && Contents().Holds(place)
      modifies this
      ensures Valid()
      ensures Contents() == old(Contents().Without(place)) && moved == old(Contents().Moved(place))
    {
      hide RowCount;
      CountWithout(Contents(), place);
      Contents().WithoutRows(place);
      ghost var after := Contents().Without(place).chunks;
      var lastChunk := |chunks| - 1;
      var lastRow := |chunks[lastChunk]| - 1;
      moved := INVALID_ENTITY;
      if place.chunk != lastChunk || place.row != lastRow {
        chunks := chunks[place.chunk := chunks[place.chunk][place.row := chunks[lastChunk][lastRow]]];
        moved := chunks[place.chunk][place.row].entity;
      }
      chunks := chunks[lastChunk := chunks[lastChunk][..lastRow]];
      entityCount := entityCount - 1;
      if chunks[lastChunk] == [] {
        chunks := chunks[..lastChunk];
      }
      assert chunks == after;
    }

    /** Overwrites the columns and bits of a row in place. */
    method Write(place: Place, row: Row)
      requires Valid() && Contents().Holds(place)
      modifies this
      ensures Valid() && Contents() == old(Contents().Updated(place, row))
    {
      CountUpdated(Contents(), place, row);
      chunks := chunks[place.chunk := chunks[place.chunk][place.row := row]];
    }
  }
}
