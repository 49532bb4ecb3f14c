/** Where the arrays of a chunk lie: version counters, enable words, chunk values, handles and the
    per-entity columns, placed by a cursor that wraps at 32 bits. */
module ChunkLayouts {
  import opened Alignments
  import opened Results

  const CACHE_LINE := 64
  const MAX_TYPES := 256
  const ENTITY_BYTES := 8
  const U32 := 0x1_0000_0000

  function Wrap(x: nat): (r: nat)
    ensures r < U32
  {
    x % U32
  }

  /** What the registry knows of a type. A type is held per entity unless it is flagged. */
  datatype Info = Info(size: nat, alignment: nat, tag: bool, chunk: bool)
  {
    predicate PerEntity() { !tag && !chunk }

    predicate Valid() { size < U32 && 0 < alignment < U32 && IsPowerOfTwo(alignment) }
  }

  datatype Owner = Versions | Enables | ChunkValue(slot: nat) | Entities | Elements(slot: nat)

  datatype Request = Request(owner: Owner, size: nat, alignment: nat)

  datatype Area = Area(owner: Owner, offset: nat, size: nat)
  {
    function End(): nat { offset + size }
  }

  datatype ChunkComponent = ChunkComponent(slot: nat, offset: nat, size: nat)

  datatype Column = Column(slot: nat, offset: nat, elementSize: nat)

  datatype Layout = Layout(typeCount: nat, capacity: nat, versionOffset: nat, enableOffset: nat, enableWords: nat,
                           chunkComponents: seq<ChunkComponent>, entityOffset: nat, columns: seq<Column>, usedBytes: nat)
  {
    /** Everything the layout places, in the order it is placed. */
    function Areas(): seq<Area> {
      [Area(Versions, versionOffset, typeCount * 4), Area(Enables, enableOffset, typeCount * enableWords * 8)]
      + ChunkAreas(chunkComponents) + [Area(Entities, entityOffset, capacity * ENTITY_BYTES)] + ColumnAreas(columns, capacity)
    }
  }

  function ChunkAreas(chunkComponents: seq<ChunkComponent>): seq<Area> {
    seq(|chunkComponents|, i requires 0 <= i < |chunkComponents| =>
      Area(ChunkValue(chunkComponents[i].slot), chunkComponents[i].offset, chunkComponents[i].size))
  }

  function ColumnAreas(columns: seq<Column>, capacity: nat): seq<Area> {
    seq(|columns|, i requires 0 <= i < |columns| =>
      Area(Elements(columns[i].slot), columns[i].offset, capacity * columns[i].elementSize))
  }

  // --- what is to be placed -------------------------------------------------------------------------

  function EnableWords(capacity: nat): nat {
    (capacity + 63) / 64
  }

  function ChunkRequests(infos: seq<Info>, k: nat): (r: seq<Request>)
    requires k <= |infos|
  {
    if k == 0 then []
    else ChunkRequests(infos, k - 1)
         + if infos[k - 1].chunk then [Request(ChunkValue(k - 1), infos[k - 1].size, infos[k - 1].alignment)] else []
  }

  function ColumnRequests(infos: seq<Info>, capacity: nat, k: nat): (r: seq<Request>)
    requires k <= |infos|
  {
    if k == 0 then []
    else ColumnRequests(infos, capacity, k - 1)
         + if infos[k - 1].PerEntity() then [Request(Elements(k - 1), capacity * infos[k - 1].size, CACHE_LINE)] else []
  }

  function Requests(infos: seq<Info>, capacity: nat): seq<Request> {
    [Request(Versions, |infos| * 4, 1), Request(Enables, |infos| * EnableWords(capacity) * 8, 8)]
    + ChunkRequests(infos, |infos|)
    + [Request(Entities, capacity * ENTITY_BYTES, CACHE_LINE)]
    + ColumnRequests(infos, capacity, |infos|)
  }

  predicate Sane(reqs: seq<Request>) {
    forall i :: 0 <= i < |reqs| ==> 0 < reqs[i].alignment < U32 && IsPowerOfTwo(reqs[i].alignment)
  }

  lemma {:induction false} RequestsSane(infos: seq<Info>, capacity: nat, k: nat)
    requires k <= |infos| && forall i :: 0 <= i < |infos| ==> infos[i].Valid()
    ensures Sane(ChunkRequests(infos, k)) && Sane(ColumnRequests(infos, capacity, k))
  {
    assert IsPowerOfTwo(64) by {
      assert IsPowerOfTwo(8) by { assert IsPowerOfTwo(2); }
    }
    if k > 0 { RequestsSane(infos, capacity, k - 1); }
  }

  lemma AllSane(infos: seq<Info>, capacity: nat)
    requires forall i :: 0 <= i < |infos| ==> infos[i].Valid()
    ensures Sane(Requests(infos, capacity))
  {
    RequestsSane(infos, capacity, |infos|);
    assert IsPowerOfTwo(8) by { assert IsPowerOfTwo(2); }
    assert IsPowerOfTwo(64);
  }

  // --- where it goes --------------------------------------------------------------------------------

  /** The first byte after the requests, placed one after another without wrap-around. */
  function Cursor(reqs: seq<Request>): nat
    requires Sane(reqs)
  {
    if reqs == [] then 0
    else
      var last := reqs[|reqs| - 1];
      AlignUp(Cursor(reqs[..|reqs| - 1]), last.alignment) + last.size
  }

  function Offset(reqs: seq<Request>, i: nat): nat
    requires Sane(reqs) && i < |reqs|
  {
    AlignUp(Cursor(reqs[..i]), reqs[i].alignment)
  }

  lemma CursorAt(reqs: seq<Request>, i: nat)
    requires Sane(reqs) && i < |reqs|
    ensures Cursor(reqs[..i + 1]) == Offset(reqs, i) + reqs[i].size
    ensures Cursor(reqs[..i]) <= Offset(reqs, i) && Aligned(Offset(reqs, i), reqs[i].alignment)
  {
    assert reqs[..i + 1][..i] == reqs[..i];
    AlignUpBounds(Cursor(reqs[..i]), reqs[i].alignment);
  }

  lemma {:induction false} CursorGrows(reqs: seq<Request>, i: nat, j: nat)
    requires Sane(reqs) && i <= j <= |reqs|
    ensures Cursor(reqs[..i]) <= Cursor(reqs[..j])
    decreases j
  {
    if i < j {
      CursorGrows(reqs, i, j - 1);
      CursorAt(reqs, j - 1);
    }
  }

  /** The areas as 32-bit arithmetic places them. */
  predicate PlacedWrapped(areas: seq<Area>, reqs: seq<Request>)
    requires Sane(reqs)
  {
    |areas| == |reqs| && forall i :: 0 <= i < |reqs| ==> areas[i] == Area(reqs[i].owner, Wrap(Offset(reqs, i)), reqs[i].size)
  }

  /** The areas follow one another and end within the limit. */
  predicate Packed(areas: seq<Area>, limit: nat) {
    && (forall i, j :: 0 <= i < j < |areas| ==> areas[i].End() <= areas[j].offset)
    && (forall i :: 0 <= i < |areas| ==> areas[i].End() <= limit)
  }

  /** Placed without wrap-around, the areas are packed. */
  lemma FittingIsPacked(areas: seq<Area>, reqs: seq<Request>, limit: nat)
    requires Sane(reqs) && PlacedWrapped(areas, reqs) && Cursor(reqs) <= limit < U32
    ensures Packed(areas, limit)
    ensures forall i :: 0 <= i < |areas| ==> Aligned(areas[i].offset, reqs[i].alignment)
  {
    hide IsPowerOfTwo, AlignUp, Aligned, Cursor;
    assert reqs[..|reqs|] == reqs;
    forall i | 0 <= i < |reqs|
      ensures areas[i].offset == Offset(reqs, i) && areas[i].End() <= limit && Aligned(areas[i].offset, reqs[i].alignment)
    {
      CursorAt(reqs, i);
      CursorGrows(reqs, i + 1, |reqs|);
    }
    forall i, j | 0 <= i < j < |areas| ensures areas[i].End() <= areas[j].offset {
      CursorAt(reqs, i);
      CursorAt(reqs, j);
      CursorGrows(reqs, i + 1, j);
    }
  }

  lemma PowerIsPower()
    ensures IsPowerOfTwo(U32)
  {
    assert IsPowerOfTwo(0x100) by { assert IsPowerOfTwo(0x10); PowersMultiply(0x10, 0x10); }
    assert IsPowerOfTwo(0x1_0000) by { PowersMultiply(0x100, 0x100); }
    PowersMultiply(0x1_0000, 0x1_0000);
  }

  lemma PackedAt(areas: seq<Area>, limit: nat, i: nat)
    requires Packed(areas, limit) && i < |areas|
    ensures areas[i].End() <= limit && (i > 0 ==> areas[i - 1].End() <= areas[i].offset)
  {}

  /** Rounding up below the wrap-around stays below it, unless it falls back to zero. */
  lemma StaysBelow(t: nat, a: nat, o: nat)
    requires 0 < a < U32 && IsPowerOfTwo(a) && t < U32 && o == Wrap(AlignUp(t, a)) && t <= o
    ensures o == AlignUp(t, a)
  {
    hide IsPowerOfTwo;
    PowerIsPower();
    PowersDivide(a, U32);
    AlignUpWithin(t, U32, a);
    if AlignUp(t, a) == U32 {
      assert t == 0;
      DivisionUnique(a - 1, 0, a - 1, a);
      assert false;
    }
  }

  /** Areas that are packed in fewer than 2^32 bytes were placed without wrap-around. */
  lemma {:induction false} PackedIsFitting(areas: seq<Area>, reqs: seq<Request>, limit: nat, k: nat)
    requires Sane(reqs) && PlacedWrapped(areas, reqs) && Packed(areas, limit) && limit < U32 && k <= |reqs|
    ensures Cursor(reqs[..k]) <= limit
    ensures k > 0 ==> areas[k - 1].End() == Cursor(reqs[..k])
  {
    if k > 0 {
      PackedIsFitting(areas, reqs, limit, k - 1);
      CursorAt(reqs, k - 1);
      PackedAt(areas, limit, k - 1);
      hide IsPowerOfTwo, Cursor, Packed, AlignUp, Aligned;
      assert k == 1 ==> Cursor(reqs[..0]) == 0 by { EmptyCursor(reqs); }
      StaysBelow(Cursor(reqs[..k - 1]), reqs[k - 1].alignment, areas[k - 1].offset);
    }
  }

  lemma EmptyCursor(reqs: seq<Request>)
    requires Sane(reqs)
    ensures Cursor(reqs[..0]) == 0
  {}

  // --- the stated bound -----------------------------------------------------------------------------

  /** At most this many bytes, alignment included. */
  function Bytes(reqs: seq<Request>): nat {
    if reqs == [] then 0 else Bytes(reqs[..|reqs| - 1]) + reqs[|reqs| - 1].size + reqs[|reqs| - 1].alignment
  }

  lemma {:induction false} BytesAdd(a: seq<Request>, b: seq<Request>)
    ensures Bytes(a + b) == Bytes(a) + Bytes(b)
  {
    if b == [] {
      assert a + b == a;
    } else {
      assert (a + b)[..|a + b| - 1] == a + b[..|b| - 1];
      BytesAdd(a, b[..|b| - 1]);
    }
  }

  lemma {:induction false} CursorWithinBytes(reqs: seq<Request>)
    requires Sane(reqs)
    ensures Cursor(reqs) + |reqs| <= Bytes(reqs)
  {
    if reqs != [] {
      CursorWithinBytes(reqs[..|reqs| - 1]);
      AlignUpBounds(Cursor(reqs[..|reqs| - 1]), reqs[|reqs| - 1].alignment);
    }
  }

  /** What the chunk components take, alignment included. */
  function ChunkBytes(infos: seq<Info>, k: nat): nat
    requires k <= |infos|
  {
    if k == 0 then 0 else ChunkBytes(infos, k - 1) + if infos[k - 1].chunk then infos[k - 1].size + infos[k - 1].alignment else 0
  }

  /** What one entity takes in the columns of the first k types. */
  function ColumnBytes(infos: seq<Info>, k: nat): nat
    requires k <= |infos|
  {
    if k == 0 then 0 else ColumnBytes(infos, k - 1) + if infos[k - 1].PerEntity() then infos[k - 1].size else 0
  }

  lemma {:induction false} ChunkBytesAre(infos: seq<Info>, k: nat)
    requires k <= |infos|
    ensures Bytes(ChunkRequests(infos, k)) == ChunkBytes(infos, k)
  {
    if k > 0 {
      ChunkBytesAre(infos, k - 1);
      var last := ChunkRequests(infos, k)[|ChunkRequests(infos, k - 1)|..];
      BytesAdd(ChunkRequests(infos, k - 1), last);
      assert Bytes([]) == 0;
      assert ChunkRequests(infos, k) == ChunkRequests(infos, k - 1) + last;
    }
  }

  lemma BytesOfNone()
    ensures Bytes([]) == 0
  {}

  lemma BytesOfOne(r: Request)
    ensures Bytes([r]) == r.size + r.alignment
  {
    assert [r][..0] == [];
  }

  lemma Distribute(c: nat, a: nat, b: nat)
    ensures c * (a + b) == c * a + c * b
  {}

  lemma {:induction false} ColumnBytesAre(infos: seq<Info>, capacity: nat, k: nat)
    requires k <= |infos|
    ensures Bytes(ColumnRequests(infos, capacity, k)) <= CACHE_LINE * k + capacity * ColumnBytes(infos, k)
  {
    hide Bytes;
    if k == 0 {
      BytesOfNone();
    } else {
      ColumnBytesAre(infos, capacity, k - 1);
      if infos[k - 1].PerEntity() {
        BytesAdd(ColumnRequests(infos, capacity, k - 1), [Request(Elements(k - 1), capacity * infos[k - 1].size, CACHE_LINE)]);
        BytesOfOne(Request(Elements(k - 1), capacity * infos[k - 1].size, CACHE_LINE));
        Distribute(capacity, ColumnBytes(infos, k - 1), infos[k - 1].size);
      } else {
        assert ColumnRequests(infos, capacity, k) == ColumnRequests(infos, capacity, k - 1);
      }
    }
  }

  /** The bytes one entity takes, and the guess the search for a capacity starts from. */
  function BytesPerEntity(infos: seq<Info>): nat {
    ENTITY_BYTES + ColumnBytes(infos, |infos|)
  }

  function FixedGuess(infos: seq<Info>): nat {
    |infos| * 16 + (|infos| + 2) * CACHE_LINE
  }

  function Guess(infos: seq<Info>, chunkSize: nat): nat
    requires chunkSize > FixedGuess(infos)
  {
    (chunkSize - FixedGuess(infos)) / BytesPerEntity(infos)
  }

  /** What a caller can check before asking for a layout. */
  predicate Bounded(infos: seq<Info>, chunkSize: nat) {
    5 * chunkSize + ChunkBytes(infos, |infos|) < U32
  }

  lemma GuessBounds(infos: seq<Info>, chunkSize: nat, capacity: nat)
    requires chunkSize > FixedGuess(infos) && capacity <= Guess(infos, chunkSize)
    ensures capacity * ENTITY_BYTES + capacity * ColumnBytes(infos, |infos|) + FixedGuess(infos) <= chunkSize
  {
    var room, b := chunkSize - FixedGuess(infos), BytesPerEntity(infos);
    var g := Guess(infos, chunkSize);
    assert g * b <= room;
    assert capacity * b <= g * b by { MulLess(capacity, g, b); }
  }

  lemma MulLess(x: nat, y: nat, b: nat)
    requires x <= y
    ensures x * b <= y * b
  {
    assert y * b == x * b + (y - x) * b;
  }

  /** Under the bound no candidate capacity needs more than 32 bits. */
  lemma BoundedFits(infos: seq<Info>, chunkSize: nat, capacity: nat)
    requires (forall i :: 0 <= i < |infos| ==> infos[i].Valid()) && |infos| <= MAX_TYPES
    requires chunkSize > FixedGuess(infos) && capacity <= Guess(infos, chunkSize) && Bounded(infos, chunkSize)
    ensures Sane(Requests(infos, capacity)) && Cursor(Requests(infos, capacity)) < U32
  {
    hide IsPowerOfTwo, Cursor;
    AllSane(infos, capacity);
    var n := |infos|;
    var reqs := Requests(infos, capacity);
    var head := [Request(Versions, n * 4, 1), Request(Enables, n * EnableWords(capacity) * 8, 8)];
    var middle := [Request(Entities, capacity * ENTITY_BYTES, CACHE_LINE)];
    BytesAdd(head + ChunkRequests(infos, n) + middle, ColumnRequests(infos, capacity, n));
    BytesAdd(head + ChunkRequests(infos, n), middle);
    BytesAdd(head, ChunkRequests(infos, n));
    ChunkBytesAre(infos, n);
    ColumnBytesAre(infos, capacity, n);
    GuessBounds(infos, chunkSize, capacity);
    CursorWithinBytes(reqs);
    assert Bytes(head) == n * 4 + 1 + n * EnableWords(capacity) * 8 + 8 by {
      assert head[..1] == [head[0]] && head[..1][..0] == [];
    }
    assert Bytes(middle) == capacity * ENTITY_BYTES + CACHE_LINE by { assert middle[..0] == []; }
    EnableBytes(n, capacity);
  }

  lemma EnableBytes(n: nat, capacity: nat)
    requires n <= MAX_TYPES
    ensures n * EnableWords(capacity) * 8 <= 32 * capacity + 8 * n
  {
    var w := EnableWords(capacity);
    assert 64 * w <= capacity + 63;
    MulLess(n, MAX_TYPES, w);
    if capacity == 0 {
      assert w == 0;
    } else {
      assert n * (64 * w) <= n * (capacity + 63) by { MulLess(64 * w, capacity + 63, n); }
      assert n * capacity <= 256 * capacity by { MulLess(n, 256, capacity); }
      assert n * (64 * w) == 8 * (n * w * 8);
    }
  }

  // --- the computation ------------------------------------------------------------------------------

  /** Rounding up in 32-bit arithmetic. */
  function AlignUpWrapped(x: nat, alignment: nat): nat
    requires alignment > 0
  {
    var s := Wrap(x + alignment - 1);
    s - s % alignment
  }

  lemma WrapAdd(x: nat, y: nat)
    ensures Wrap(Wrap(x) + y) == Wrap(x + y) && Wrap(Wrap(x) + Wrap(y)) == Wrap(x + y)
  {}

  lemma WrapAlign(x: nat, a: nat)
    requires 0 < a < U32 && IsPowerOfTwo(a)
    ensures AlignUpWrapped(Wrap(x), a) == Wrap(AlignUp(x, a))
  {
    hide IsPowerOfTwo, Wrap;
    PowerIsPower();
    PowersDivide(a, U32);
    var y := x + a - 1;
    assert Wrap(Wrap(x) + a - 1) == Wrap(y) by { WrapAdd(x, a - 1); }
    RemainderOfWrapped(y, a);
    RoundDown(y, a);
    RoundDownWrapped(y, y % a);
  }

  lemma RoundDown(y: nat, a: nat)
    requires a > 0
    ensures y / a * a == y - y % a
  {}

  lemma RoundDownWrapped(y: nat, r: nat)
    requires r <= Wrap(y)
    ensures r <= y && Wrap(y - r) == Wrap(y) - r
  {
    DivisionUnique(y - r, y / U32, Wrap(y) - r, U32);
  }

  lemma RemainderOfWrapped(y: nat, a: nat)
    requires a > 0 && U32 % a == 0
    ensures Wrap(y) % a == y % a <= Wrap(y)
  {
    var s, q := Wrap(y), y / U32;
    var c := U32 / a;
    assert U32 == c * a;
    assert y == U32 * q + s;
    Reassociate(a, c, q);
    assert y == (q * c) * a + s;
    assert y == a * (q * c + s / a) + s % a by {
      Distribute(a, q * c, s / a);
    }
    DivisionUnique(y, q * c + s / a, s % a, a);
  }

  /** The next request in 32-bit arithmetic: its offset, and the cursor after it. */
  lemma Placing(reqs: seq<Request>, r: Request, areas: seq<Area>)
    requires Sane(reqs) && 0 < r.alignment < U32 && IsPowerOfTwo(r.alignment) && PlacedWrapped(areas, reqs)
    ensures Sane(reqs + [r])
    ensures var o := AlignUpWrapped(Wrap(Cursor(reqs)), r.alignment);
      && PlacedWrapped(areas + [Area(r.owner, o, r.size)], reqs + [r])
      && Wrap(o + Wrap(r.size)) == Wrap(Cursor(reqs + [r]))
  {
    hide IsPowerOfTwo, AlignUp, AlignUpWrapped;
    var t := reqs + [r];
    WrapAlign(Cursor(reqs), r.alignment);
    assert t[..|t| - 1] == reqs;
    WrapAdd(AlignUp(Cursor(reqs), r.alignment), r.size);
    forall i | 0 <= i < |reqs| ensures Offset(t, i) == Offset(reqs, i) {
      assert t[..i] == reqs[..i];
    }
  }

  lemma AreasAppended(cc: seq<ChunkComponent>, c: ChunkComponent, columns: seq<Column>, d: Column, capacity: nat)
    ensures ChunkAreas(cc + [c]) == ChunkAreas(cc) + [Area(ChunkValue(c.slot), c.offset, c.size)]
    ensures ColumnAreas(columns + [d], capacity) == ColumnAreas(columns, capacity) + [Area(Elements(d.slot), d.offset, capacity * d.elementSize)]
  {}

  lemma NoAreas(capacity: nat)
    ensures ChunkAreas([]) == [] && ColumnAreas([], capacity) == []
  {}

  ghost predicate AllValid(infos: seq<Info>) {
    forall i :: 0 <= i < |infos| ==> infos[i].Valid()
  }

  /** Everything placed for a candidate capacity. */
  method TryLayout(infos: seq<Info>, capacity: nat) returns (l: Layout)
    requires AllValid(infos) && |infos| <= MAX_TYPES && capacity * ENTITY_BYTES < U32
    ensures l.typeCount == |infos| && l.capacity == capacity && l.enableWords == EnableWords(capacity)
    ensures Sane(Requests(infos, capacity)) && PlacedWrapped(l.Areas(), Requests(infos, capacity))
    ensures l.usedBytes == Wrap(Cursor(Requests(infos, capacity)))
  {
    hide IsPowerOfTwo, AlignUpWrapped, Wrap, PlacedWrapped, Cursor, ChunkAreas, ColumnAreas, Sane;
    AllSane(infos, capacity);
    NoAreas(capacity);
    var n := |infos|;
    var versionOffset := 0;
    var enableOffset := AlignUpWrapped(Wrap(n * 4), 8);
    var words := EnableWords(capacity);
    var offset := Wrap(enableOffset + Wrap(n * words * 8));
    ghost var reqs := [Request(Versions, n * 4, 1), Request(Enables, n * words * 8, 8)];
    ghost var areas := [Area(Versions, 0, n * 4), Area(Enables, enableOffset, n * words * 8)];
    FixedPlaced(n, words);
    var chunkComponents: seq<ChunkComponent> := [];
    for slot := 0 to n
      invariant reqs == [Request(Versions, n * 4, 1), Request(Enables, n * words * 8, 8)] + ChunkRequests(infos, slot)
      invariant areas == [Area(Versions, 0, n * 4), Area(Enables, enableOffset, n * words * 8)] + ChunkAreas(chunkComponents)
      invariant Sane(reqs) && PlacedWrapped(areas, reqs) && offset == Wrap(Cursor(reqs))
    {
      if infos[slot].chunk {
        var info := infos[slot];
        offset := AlignUpWrapped(offset, info.alignment);
        Placing(reqs, Request(ChunkValue(slot), info.size, info.alignment), areas);
        AreasAppended(chunkComponents, ChunkComponent(slot, offset, info.size), [], Column(0, 0, 0), capacity);
        chunkComponents := chunkComponents + [ChunkComponent(slot, offset, info.size)];
        areas := areas + [Area(ChunkValue(slot), offset, info.size)];
        reqs := reqs + [Request(ChunkValue(slot), info.size, info.alignment)];
        offset := Wrap(offset + Wrap(info.size));
      }
    }
    CacheLineIsPower();
    Placing(reqs, Request(Entities, capacity * ENTITY_BYTES, CACHE_LINE), areas);
    var entityOffset := AlignUpWrapped(offset, CACHE_LINE);
    offset := Wrap(entityOffset + Wrap(capacity * ENTITY_BYTES));
    reqs := reqs + [Request(Entities, capacity * ENTITY_BYTES, CACHE_LINE)];
    areas := areas + [Area(Entities, entityOffset, capacity * ENTITY_BYTES)];
    ghost var fixedReqs, fixedAreas := reqs, areas;
    var columns: seq<Column> := [];
    for slot := 0 to n
      invariant reqs == fixedReqs + ColumnRequests(infos, capacity, slot)
      invariant areas == fixedAreas + ColumnAreas(columns, capacity)
      invariant Sane(reqs) && PlacedWrapped(areas, reqs) && offset == Wrap(Cursor(reqs))
    {
      if infos[slot].PerEntity() {
        var info := infos[slot];
        offset := AlignUpWrapped(offset, CACHE_LINE);
        Placing(reqs, Request(Elements(slot), capacity * info.size, CACHE_LINE), areas);
        AreasAppended([], ChunkComponent(0, 0, 0), columns, Column(slot, offset, info.size), capacity);
        columns := columns + [Column(slot, offset, info.size)];
        areas := areas + [Area(Elements(slot), offset, capacity * info.size)];
        reqs := reqs + [Request(Elements(slot), capacity * info.size, CACHE_LINE)];
        offset := Wrap(offset + Wrap(capacity * info.size));
      }
    }
    l := Layout(n, capacity, versionOffset, enableOffset, words, chunkComponents, entityOffset, columns, offset);
    assert reqs == Requests(infos, capacity);
    assert areas == l.Areas();
  }

  lemma CacheLineIsPower()
    ensures IsPowerOfTwo(CACHE_LINE) && IsPowerOfTwo(8)
  {
    assert IsPowerOfTwo(8) by { assert IsPowerOfTwo(2); }
  }

  lemma FixedPlaced(n: nat, words: nat)
    ensures var reqs := [Request(Versions, n * 4, 1), Request(Enables, n * words * 8, 8)];
      var o := AlignUpWrapped(Wrap(n * 4), 8);
      && Sane(reqs) && PlacedWrapped([Area(Versions, 0, n * 4), Area(Enables, o, n * words * 8)], reqs)
      && Wrap(o + Wrap(n * words * 8)) == Wrap(Cursor(reqs))
  {
    CacheLineIsPower();
    FirstPlaced(n);
    hide IsPowerOfTwo, PlacedWrapped, Cursor, Wrap, AlignUpWrapped;
    var first, second := Request(Versions, n * 4, 1), Request(Enables, n * words * 8, 8);
    Placing([first], second, [Area(Versions, 0, n * 4)]);
    assert [first] + [second] == [first, second];
    var o := AlignUpWrapped(Wrap(n * 4), 8);
    assert [Area(Versions, 0, n * 4)] + [Area(Enables, o, n * words * 8)] == [Area(Versions, 0, n * 4), Area(Enables, o, n * words * 8)];
  }

  lemma FirstPlaced(n: nat)
    ensures Sane([Request(Versions, n * 4, 1)]) && PlacedWrapped([Area(Versions, 0, n * 4)], [Request(Versions, n * 4, 1)])
    ensures Wrap(Cursor([Request(Versions, n * 4, 1)])) == Wrap(n * 4)
  {
    var reqs := [Request(Versions, n * 4, 1)];
    assert IsPowerOfTwo(1);
    assert reqs[..0] == [];
    assert Cursor(reqs[..0]) == 0;
    assert Offset(reqs, 0) == 0;
  }

  // --- the search for a capacity --------------------------------------------------------------------

  /** The test of the search: what a candidate needs, as far as 32 bits show it. */
  ghost predicate Fits(infos: seq<Info>, capacity: nat, chunkSize: nat)
    requires AllValid(infos)
  {
    AllSane(infos, capacity);
    Wrap(Cursor(Requests(infos, capacity))) <= chunkSize
  }

  /** What Compute answers with: the largest candidate up to the guess that passes the test. */
  ghost predicate Chosen(infos: seq<Info>, chunkSize: nat, l: Layout)
    requires AllValid(infos)
  {
    AllSane(infos, l.capacity);
    && chunkSize > FixedGuess(infos) && 1 <= l.capacity <= Guess(infos, chunkSize)
    && PlacedWrapped(l.Areas(), Requests(infos, l.capacity)) && l.usedBytes == Wrap(Cursor(Requests(infos, l.capacity)))
    && Fits(infos, l.capacity, chunkSize)
    && forall c :: l.capacity < c <= Guess(infos, chunkSize) ==> !Fits(infos, c, chunkSize)
  }

  function InfosOf(registry: map<nat, Info>, mask: seq<nat>): (r: seq<Info>)
    requires forall i :: 0 <= i < |mask| ==> mask[i] in registry
  {
    seq(|mask|, i requires 0 <= i < |mask| => registry[mask[i]])
  }

  method Compute(registry: map<nat, Info>, mask: seq<nat>, chunkSize: nat) returns (r: Result<Layout>)
    requires |mask| <= MAX_TYPES && chunkSize < U32 && forall t :: t in registry ==> registry[t].Valid()
    ensures (exists i :: 0 <= i < |mask| && mask[i] !in registry) ==> r == Fail(InvalidArgument)
    ensures (forall i :: 0 <= i < |mask| ==> mask[i] in registry) ==>
      var infos := InfosOf(registry, mask);
      && AllValid(infos)
      && (r.Ok? ==> Chosen(infos, chunkSize, r.value))
      && (r.Fail? ==> r == Fail(InvalidArgument))
      && (r.Fail? <==> chunkSize <= FixedGuess(infos) || forall c: nat :: 1 <= c <= Guess(infos, chunkSize) ==> !Fits(infos, c, chunkSize))
  {
    hide IsPowerOfTwo, Requests, PlacedWrapped, Wrap, Info.Valid;
    var unknown := false;
    for i := 0 to |mask|
      invariant unknown <==> exists j :: 0 <= j < i && mask[j] !in registry
    {
      if mask[i] !in registry { unknown := true; }
    }
    if unknown { return Fail(InvalidArgument); }
    var infos := InfosOf(registry, mask);
    var bytesPerEntity := ENTITY_BYTES;
    for k := 0 to |infos|
      invariant bytesPerEntity == ENTITY_BYTES + ColumnBytes(infos, k)
    {
      if infos[k].PerEntity() { bytesPerEntity := bytesPerEntity + infos[k].size; }
    }
    var fixedGuess := |infos| * 16 + (|infos| + 2) * CACHE_LINE;
    if chunkSize <= fixedGuess { return Fail(InvalidArgument); }
    var capacity := (chunkSize - fixedGuess) / bytesPerEntity;
    CandidateFits32(infos, chunkSize);
    var layout: Layout;
    while capacity > 0
      invariant 0 <= capacity <= Guess(infos, chunkSize)
      invariant forall c :: capacity < c <= Guess(infos, chunkSize) ==> !Fits(infos, c, chunkSize)
    {
      layout := TryLayout(infos, capacity);
      if layout.usedBytes <= chunkSize { return Ok(layout); }
      assert !Fits(infos, capacity, chunkSize);
      capacity := capacity - 1;
    }
    return Fail(InvalidArgument);
  }

  lemma CandidateFits32(infos: seq<Info>, chunkSize: nat)
    requires FixedGuess(infos) < chunkSize < U32
    ensures Guess(infos, chunkSize) * ENTITY_BYTES < U32
  {
    GuessBounds(infos, chunkSize, Guess(infos, chunkSize));
  }

  // --- what the layout promises ---------------------------------------------------------------------

  /** The same requests, none of them smaller. */
  ghost predicate NoSmaller(a: seq<Request>, b: seq<Request>) {
    |a| == |b| && forall i :: 0 <= i < |a| ==> a[i].alignment == b[i].alignment && a[i].size <= b[i].size
  }

  lemma AlignUpGrows(x: nat, y: nat, alignment: nat)
    requires x <= y && 0 < alignment
    ensures AlignUp(x, alignment) <= AlignUp(y, alignment)
  {
    AlignUpBounds(y, alignment);
    AlignUpWithin(x, AlignUp(y, alignment), alignment);
  }

  lemma {:induction false} CursorOfLarger(a: seq<Request>, b: seq<Request>)
    requires Sane(a) && Sane(b) && NoSmaller(a, b)
    ensures Cursor(a) <= Cursor(b)
    decreases |a|
  {
    if a != [] {
      var n := |a| - 1;
      CursorOfLarger(a[..n], b[..n]);
      hide IsPowerOfTwo;
      AlignUpGrows(Cursor(a[..n]), Cursor(b[..n]), a[n].alignment);
    }
  }

  lemma {:induction false} ColumnsGrow(infos: seq<Info>, c: nat, d: nat, k: nat)
    requires c <= d && k <= |infos|
    ensures NoSmaller(ColumnRequests(infos, c, k), ColumnRequests(infos, d, k))
  {
    if k > 0 {
      ColumnsGrow(infos, c, d, k - 1);
      MulLess(c, d, infos[k - 1].size);
    }
  }

  /** More entities never end earlier. */
  lemma CapacityGrows(infos: seq<Info>, c: nat, d: nat)
    requires AllValid(infos) && c <= d
    ensures Sane(Requests(infos, c)) && Sane(Requests(infos, d)) && Cursor(Requests(infos, c)) <= Cursor(Requests(infos, d))
  {
    AllSane(infos, c);
    AllSane(infos, d);
    ColumnsGrow(infos, c, d, |infos|);
    MulLess(EnableWords(c), EnableWords(d), |infos|);
    hide IsPowerOfTwo, Cursor;
    assert NoSmaller(Requests(infos, c), Requests(infos, d));
    CursorOfLarger(Requests(infos, c), Requests(infos, d));
  }

  /** No candidate of the search passes its test, whose cursor wraps, without ending inside the chunk. */
  ghost predicate TestHonest(infos: seq<Info>, chunkSize: nat)
    requires AllValid(infos) && chunkSize > FixedGuess(infos)
  {
    forall c: nat :: 1 <= c <= Guess(infos, chunkSize) && Fits(infos, c, chunkSize) ==> EndsInside(infos, c, chunkSize)
  }

  ghost predicate EndsInside(infos: seq<Info>, capacity: nat, chunkSize: nat)
    requires AllValid(infos)
  {
    AllSane(infos, capacity);
    Cursor(Requests(infos, capacity)) <= chunkSize
  }

  /** The areas of the layout Compute answers with are apart, in the chunk and in order exactly when no
      candidate of the search passes the test only because its cursor wrapped. */
  lemma LayoutExact(infos: seq<Info>, chunkSize: nat, l: Layout)
    requires AllValid(infos) && chunkSize < U32 && Chosen(infos, chunkSize, l)
    ensures Packed(l.Areas(), chunkSize) <==> EndsInside(infos, l.capacity, chunkSize)
    ensures Packed(l.Areas(), chunkSize) <==> TestHonest(infos, chunkSize)
  {
    hide IsPowerOfTwo, Requests, PlacedWrapped, Packed, Cursor, Layout.Areas, Guess, Fits;
    AllSane(infos, l.capacity);
    var reqs := Requests(infos, l.capacity);
    assert reqs[..|reqs|] == reqs;
    if Packed(l.Areas(), chunkSize) {
      PackedIsFitting(l.Areas(), reqs, chunkSize, |reqs|);
      forall c: nat | 1 <= c <= Guess(infos, chunkSize) && Fits(infos, c, chunkSize) ensures EndsInside(infos, c, chunkSize) {
        CapacityGrows(infos, c, l.capacity);
      }
    }
    if Cursor(reqs) <= chunkSize {
      FittingIsPacked(l.Areas(), reqs, chunkSize);
    }
  }

  /** No capacity is given away: every larger candidate of the search would end outside the chunk. */
  lemma LargestInside(infos: seq<Info>, chunkSize: nat, l: Layout, c: nat)
    requires AllValid(infos) && chunkSize < U32 && Chosen(infos, chunkSize, l) && l.capacity < c <= Guess(infos, chunkSize)
    ensures Sane(Requests(infos, c)) && Cursor(Requests(infos, c)) > chunkSize
  {
    AllSane(infos, c);
    hide IsPowerOfTwo, Requests, PlacedWrapped, Cursor, Layout.Areas, Guess;
    assert !Fits(infos, c, chunkSize);
    WrapBelow(Cursor(Requests(infos, c)));
  }

  lemma WrapBelow(x: nat)
    ensures Wrap(x) <= x
  {}

  /** Under the bound every layout is sound: all areas apart and inside the chunk, each aligned as
      asked, room for at least one entity, and the bytes in use are what they add up to. */
  lemma LayoutSound(infos: seq<Info>, chunkSize: nat, l: Layout)
    requires AllValid(infos) && |infos| <= MAX_TYPES && chunkSize < U32
    requires Chosen(infos, chunkSize, l) && Bounded(infos, chunkSize)
    ensures l.capacity >= 1 && Packed(l.Areas(), chunkSize) && |l.Areas()| == |Requests(infos, l.capacity)|
    ensures forall i :: 0 <= i < |l.Areas()| ==>
      && l.Areas()[i].owner == Requests(infos, l.capacity)[i].owner && l.Areas()[i].size == Requests(infos, l.capacity)[i].size
      && Requests(infos, l.capacity)[i].alignment > 0 && Aligned(l.Areas()[i].offset, Requests(infos, l.capacity)[i].alignment)
    ensures Sane(Requests(infos, l.capacity)) && l.usedBytes == Cursor(Requests(infos, l.capacity)) <= chunkSize
  {
    hide IsPowerOfTwo, Requests, Packed, Cursor, Layout.Areas, Guess, Bounded, Info.Valid;
    BoundedFits(infos, chunkSize, l.capacity);
    FittingIsPacked(l.Areas(), Requests(infos, l.capacity), chunkSize);
  }

  /** The request of every type: per-entity types have a column, chunk types one value, tags nothing. */
  lemma {:induction false} EveryTypeOnce(infos: seq<Info>, capacity: nat, k: nat, slot: nat)
    requires slot < k <= |infos|
    ensures Request(ChunkValue(slot), infos[slot].size, infos[slot].alignment) in ChunkRequests(infos, k) <==> infos[slot].chunk
    ensures Request(Elements(slot), capacity * infos[slot].size, CACHE_LINE) in ColumnRequests(infos, capacity, k) <==> infos[slot].PerEntity()
    ensures forall r :: r in ChunkRequests(infos, k) ==> r.owner.ChunkValue? && r.owner.slot < k
    ensures forall r :: r in ColumnRequests(infos, capacity, k) ==> r.owner.Elements? && r.owner.slot < k
  {
    if slot < k - 1 {
      EveryTypeOnce(infos, capacity, k - 1, slot);
    } else if slot > 0 {
      EveryTypeOnce(infos, capacity, k - 1, slot - 1);
    }
  }

  /** One chunk component of nearly 2^32 bytes. */
  function Huge(): seq<Info> {
    [Info(0xFFFF_FF80, 64, false, true)]
  }

  lemma HugeRequests()
    ensures Requests(Huge(), 2022) ==
      [Request(Versions, 4, 1), Request(Enables, 256, 8), Request(ChunkValue(0), 0xFFFF_FF80, 64), Request(Entities, 16176, CACHE_LINE)]
  {
    assert ChunkRequests(Huge(), 1) == [Request(ChunkValue(0), 0xFFFF_FF80, 64)];
    assert ColumnRequests(Huge(), 2022, 1) == [];
  }

  lemma HugeCursor()
    ensures AllValid(Huge()) && 16384 > FixedGuess(Huge()) && Guess(Huge(), 16384) == 2022
    ensures Sane(Requests(Huge(), 2022)) && Cursor(Requests(Huge(), 2022)) == U32 + 16368
    ensures var reqs := Requests(Huge(), 2022);
      && |reqs| == 4 && reqs[1].owner == Enables && reqs[1].size == 256 && reqs[3].owner == Entities && reqs[3].size == 16176
      && Offset(reqs, 1) == 8 && Offset(reqs, 3) == U32 + 192
  {
    CacheLineIsPower();
    hide IsPowerOfTwo, Cursor, Requests;
    assert ColumnBytes(Huge(), 1) == 0;
    AllSane(Huge(), 2022);
    var reqs := Requests(Huge(), 2022);
    HugeRequests();
    assert reqs[..4] == reqs;
    EmptyCursor(reqs);
    CursorAt(reqs, 0);
    CursorAt(reqs, 1);
    CursorAt(reqs, 2);
    CursorAt(reqs, 3);
  }

  /** A byte lies in both areas. */
  ghost predicate Overlap(a: Area, b: Area) {
    exists i: nat :: InArea(a, i) && InArea(b, i)
  }

  predicate InArea(a: Area, i: nat) { a.offset <= i < a.End() }

  /** Without the bound the layout can be wrong: the chunk component makes the cursor wrap, the first
      candidate passes the test, and in what Compute answers with the entity column lies over the
      enable bits. */
  lemma WrapOverlaps(l: Layout)
    ensures AllValid(Huge()) && !Bounded(Huge(), 16384) && Guess(Huge(), 16384) == 2022 && Fits(Huge(), 2022, 16384)
    ensures Chosen(Huge(), 16384, l) ==>
      && l.capacity == 2022 && |l.Areas()| == 4
      && l.Areas()[1] == Area(Enables, 8, 256) && l.Areas()[3] == Area(Entities, 192, 16176) && Overlap(l.Areas()[1], l.Areas()[3])
  {
    HugeCursor();
    hide IsPowerOfTwo, Packed, Cursor, Requests, Layout.Areas, Offset;
    if Chosen(Huge(), 16384, l) {
      assert Fits(Huge(), 2022, 16384);
      assert l.capacity == 2022;
      assert Wrap(U32 + 192) == 192;
      assert InArea(l.Areas()[1], 192) && InArea(l.Areas()[3], 192);
    }
  }
}
