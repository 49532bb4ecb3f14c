/** Writing into a chunk: a component value or an enable bit of one row changes that row alone. */
module ChunkWrites {
  import opened Alignments
  import opened Bytes
  import opened Results
  import opened Entities
  import opened Archetypes
  import opened ChunkLayouts
  import opened ChunkImages

  // --- values ---------------------------------------------------------------------------------------

  /** What the lemmas below need of the layout. */
  ghost predicate Laid(types: Types, mask: set<nat>, l: Layout, data: seq<byte>) {
    && Separated(l, |data|) && l.typeCount == |types.Slots(mask)| && l.enableWords == EnableWords(l.capacity)
    && (forall t :: t in mask ==> t < |types.infos|)
  }

  lemma LayoutLaid(types: Types, mask: set<nat>, chunkSize: nat, l: Layout, data: seq<byte>)
    requires LayoutOk(types, mask, chunkSize, l) && |data| == chunkSize && forall t :: t in mask ==> t < |types.infos|
    ensures Laid(types, mask, l, data)
  {
    PackedSeparates(l, chunkSize);
  }

  /** The type has this column of the layout. */
  predicate InColumn(types: Types, mask: set<nat>, l: Layout, t: nat, k: nat) {
    && k == ColumnIndex(l.columns, SlotOf(types.Slots(mask), t)) < |l.columns| && ColumnOf(types, mask, l, t) == l.columns[k]
    && l.columns[k].slot == SlotOf(types.Slots(mask), t) < |types.Slots(mask)|
  }

  lemma ColumnFound(types: Types, mask: set<nat>, chunkSize: nat, l: Layout, t: nat) returns (k: nat)
    requires LayoutOk(types, mask, chunkSize, l) && t in mask && types.HasColumn(t)
    ensures InColumn(types, mask, l, t, k) && l.columns[k].elementSize == types.infos[t].info.size
  {
    ColumnThere(types, mask, chunkSize, l, t);
    k := ColumnIndex(l.columns, SlotOf(types.Slots(mask), t));
    ColumnIs(types, mask, chunkSize, l, k);
  }

  /** Elements of two columns, or of two rows of one, lie apart, behind the handles and inside the chunk. */
  lemma ElementsApart(l: Layout, size: nat, j: nat, r: nat, k: nat, s: nat)
    requires Separated(l, size) && j < |l.columns| && k < |l.columns| && r < l.capacity && s < l.capacity && (j != k || r != s)
    ensures var x, y := l.columns[j], l.columns[k];
      || ElementAt(x, r) + x.elementSize <= ElementAt(y, s)
      || ElementAt(y, s) + y.elementSize <= ElementAt(x, r)
  {
    ElementStep(l.columns[j], r, l.capacity);
    ElementStep(l.columns[k], s, l.capacity);
    ElementStep(l.columns[j], r, s);
    ElementStep(l.columns[k], s, r);
  }

  lemma ElementInside(l: Layout, size: nat, k: nat, r: nat)
    requires Separated(l, size) && k < |l.columns| && r < l.capacity
    ensures EntityEnd(l) <= ElementAt(l.columns[k], r) && ElementAt(l.columns[k], r) + l.columns[k].elementSize <= size
  {
    ElementStep(l.columns[k], r, l.capacity);
  }

  /** Everything in front of the columns stays. */
  lemma FrontUnwritten(types: Types, mask: set<nat>, l: Layout, data: seq<byte>, k: nat, r: nat, value: seq<byte>, s: nat)
    requires Laid(types, mask, l, data) && k < |l.columns| && r < l.capacity && |value| == l.columns[k].elementSize && s < l.capacity
    ensures var after := Overwritten(data, ElementAt(l.columns[k], r), value);
      && EntityAt(after, l.entityOffset + s * ENTITY_BYTES) == EntityAt(data, l.entityOffset + s * ENTITY_BYTES)
      && forall slot: nat :: slot < l.typeCount ==> Bit(after, BitsAt(l, slot), s) == Bit(data, BitsAt(l, slot), s)
  {
    var at := ElementAt(l.columns[k], r);
    var after := Overwritten(data, at, value);
    ElementInside(l, |data|, k, r);
    MulLess(s + 1, l.capacity, ENTITY_BYTES);
    OverwrittenPart(data, at, value, l.entityOffset + s * ENTITY_BYTES, 4);
    OverwrittenPart(data, at, value, l.entityOffset + s * ENTITY_BYTES + 4, 4);
    forall slot: nat | slot < l.typeCount ensures Bit(after, BitsAt(l, slot), s) == Bit(data, BitsAt(l, slot), s) {
      BitFits(l, slot, s);
      OverwrittenPart(data, at, value, BitsAt(l, slot) + s / 8, 1);
      hide Part, Overwritten, Bit;
      SameBit(after, data, BitsAt(l, slot), s);
    }
  }

  lemma ElementWritten(types: Types, mask: set<nat>, l: Layout, data: seq<byte>, j: nat, r: nat, value: seq<byte>, k: nat, s: nat)
    requires Laid(types, mask, l, data) && j < |l.columns| && k < |l.columns| && r < l.capacity && s < l.capacity
    requires |value| == l.columns[j].elementSize
    ensures Element(Overwritten(data, ElementAt(l.columns[j], r), value), l.columns[k], s) ==
      if j == k && r == s then value else Element(data, l.columns[k], s)
  {
    ElementInside(l, |data|, j, r);
    ElementInside(l, |data|, k, s);
    OverwrittenPart(data, ElementAt(l.columns[j], r), value, ElementAt(l.columns[k], s), l.columns[k].elementSize);
    if j != k || r != s {
      ElementsApart(l, |data|, j, r, k, s);
    }
  }

  lemma SlotsThere(types: Types, mask: set<nat>, l: Layout, data: seq<byte>, u: nat)
    requires Laid(types, mask, l, data) && u in mask
    ensures SlotOf(types.Slots(mask), u) < l.typeCount
  {
    assert u in types.Slots(mask);
  }

  /** Row s as it is in `data`, but for the value of type t in row r. */
  predicate ValueSet(types: Types, mask: set<nat>, l: Layout, data: seq<byte>, after: seq<byte>, t: nat, r: nat, value: seq<byte>, s: nat, u: nat) {
    Element(after, ColumnOf(types, mask, l, u), s) == if u == t && s == r then value else Element(data, ColumnOf(types, mask, l, u), s)
  }

  lemma RowSet(types: Types, mask: set<nat>, l: Layout, data: seq<byte>, after: seq<byte>, t: nat, r: nat, value: seq<byte>, s: nat)
    requires EntityAt(after, l.entityOffset + s * ENTITY_BYTES) == EntityAt(data, l.entityOffset + s * ENTITY_BYTES)
    requires forall u :: u in mask ==> BitCopied(types, mask, l, data, after, s, u)
    requires forall u :: u in mask && types.HasColumn(u) ==> ValueSet(types, mask, l, data, after, t, r, value, s, u)
    requires t in mask && types.HasColumn(t)
    ensures var row := RowAt(types, mask, l, data, s);
      RowAt(types, mask, l, after, s) == if s == r then row.(values := row.values[t := value]) else row
  {
    hide Element, Bit, BitsOf, EntityAt, ColumnOf;
    var row, now := RowAt(types, mask, l, data, s), RowAt(types, mask, l, after, s);
    assert now.enabled == row.enabled by {
      forall u | u in mask ensures now.enabled[u] == row.enabled[u] {
        assert BitCopied(types, mask, l, data, after, s, u);
      }
    }
    assert now.values == if s == r then row.values[t := value] else row.values by {
      forall u | u in mask && types.HasColumn(u) ensures now.values[u] == if u == t && s == r then value else row.values[u] {
        assert ValueSet(types, mask, l, data, after, t, r, value, s, u);
      }
    }
  }

  /** Writing a component of a row through its column changes that value of that row: every other value
      of the chunk, every enable bit and every handle stays. */
  lemma WrittenValue(types: Types, mask: set<nat>, chunkSize: nat, l: Layout, data: seq<byte>, t: nat, r: nat, value: seq<byte>, s: nat)
    requires LayoutOk(types, mask, chunkSize, l) && |data| == chunkSize && (forall u :: u in mask ==> u < |types.infos|)
    requires t in mask && types.HasColumn(t) && r < l.capacity && s < l.capacity && |value| == types.infos[t].info.size
    ensures var row := RowAt(types, mask, l, data, s);
      RowAt(types, mask, l, Overwritten(data, ElementAt(ColumnOf(types, mask, l, t), r), value), s) ==
        if s == r then row.(values := row.values[t := value]) else row
  {
    LayoutLaid(types, mask, chunkSize, l, data);
    var j := ColumnFound(types, mask, chunkSize, l, t);
    hide LayoutOk, Laid, Element, Bit, BitsAt, EntityAt, Overwritten, ColumnOf, SlotOf, Types.Slots, ElementAt, RowAt;
    var after := Overwritten(data, ElementAt(l.columns[j], r), value);
    FrontUnwritten(types, mask, l, data, j, r, value, s);
    forall u | u in mask ensures BitCopied(types, mask, l, data, after, s, u) {
      SlotsThere(types, mask, l, data, u);
    }
    forall u | u in mask && types.HasColumn(u) ensures ValueSet(types, mask, l, data, after, t, r, value, s, u) {
      var k := ColumnFound(types, mask, chunkSize, l, u);
      ElementWritten(types, mask, l, data, j, r, value, k, s);
      ColumnsDiffer(types, mask, l, t, j, u, k);
    }
    RowSet(types, mask, l, data, after, t, r, value, s);
  }

  lemma ColumnsDiffer(types: Types, mask: set<nat>, l: Layout, t: nat, j: nat, u: nat, k: nat)
    requires InColumn(types, mask, l, t, j) && InColumn(types, mask, l, u, k)
    ensures j == k <==> t == u
  {}

  // --- enable bits ----------------------------------------------------------------------------------

  /** Bit k of a number set or cleared. */
  function WithBit(b: nat, k: nat, on: bool): nat {
    if k == 0 then 2 * (b / 2) + (if on then 1 else 0) else 2 * WithBit(b / 2, k - 1, on) + b % 2
  }

  /** Bit k of a number. */
  predicate HasBit(b: nat, k: nat) {
    b / PowerOfTwo(k) % 2 == 1
  }

  lemma BitOfHalf(b: nat, k: nat)
    ensures HasBit(b, k + 1) <==> HasBit(b / 2, k)
    ensures HasBit(b, 0) <==> b % 2 == 1
  {
    var p := PowerOfTwo(k);
    var q, r := b / 2 / p, b / 2 % p;
    assert b == 2 * (b / 2) + b % 2 && b / 2 == p * q + r;
    assert b == (2 * p) * q + (2 * r + b % 2);
    DivisionUnique(b, q, 2 * r + b % 2, 2 * p);
  }

  lemma {:induction false} WithBitFits(b: nat, k: nat, on: bool, n: nat)
    requires b < PowerOfTwo(n) && k < n
    ensures WithBit(b, k, on) < PowerOfTwo(n)
  {
    if k > 0 {
      WithBitFits(b / 2, k - 1, on, n - 1);
    }
  }

  /** No other bit changes. */
  lemma {:induction false} BitsOfWithBit(b: nat, k: nat, on: bool, j: nat)
    ensures HasBit(WithBit(b, k, on), j) <==> if j == k then on else HasBit(b, j)
  {
    var x := WithBit(b, k, on);
    BitOfHalf(x, if j > 0 then j - 1 else 0);
    BitOfHalf(b, if j > 0 then j - 1 else 0);
    hide HasBit;
    if k > 0 {
      assert x / 2 == WithBit(b / 2, k - 1, on) && x % 2 == b % 2;
      if j > 0 {
        BitsOfWithBit(b / 2, k - 1, on, j - 1);
      }
    } else {
      assert x / 2 == b / 2;
    }
  }

  lemma ByteLimit()
    ensures PowerOfTwo(8) == 256
  {
    assert PowerOfTwo(4) == 16;
    assert PowerOfTwo(8) == 2 * 2 * 2 * 2 * PowerOfTwo(4);
  }

  /** SetEnabled: the bit of a row in the bit field at an offset. */
  function WithBitAt(data: seq<byte>, at: nat, r: nat, on: bool): (d: seq<byte>)
    requires at + r / 8 < |data|
    ensures |d| == |data|
  {
    ByteLimit();
    WithBitFits(data[at + r / 8] as nat, r % 8, on, 8);
    data[at + r / 8 := WithBit(data[at + r / 8] as nat, r % 8, on)]
  }

  lemma BitWritten(data: seq<byte>, at: nat, r: nat, on: bool, other: nat, s: nat)
    requires at + r / 8 < |data| && other + s / 8 < |data|
    ensures Bit(WithBitAt(data, at, r, on), other, s) ==
      if at + r / 8 == other + s / 8 && r % 8 == s % 8 then on else Bit(data, other, s)
  {
    BitsOfWithBit(data[at + r / 8] as nat, r % 8, on, s % 8);
  }

  lemma BitsStep(l: Layout, j: nat, k: nat)
    requires j < k
    ensures BitsAt(l, j) + l.enableWords * 8 <= BitsAt(l, k)
  {
    MulLess(j + 1, k, l.enableWords);
    assert (j + 1) * l.enableWords == j * l.enableWords + l.enableWords;
  }

  /** Two types, or two rows, have different bits. */
  lemma BitsApart(l: Layout, j: nat, r: nat, k: nat, s: nat)
    requires l.enableWords == EnableWords(l.capacity) && r < l.capacity && s < l.capacity && (j != k || r != s)
    ensures BitsAt(l, j) + r / 8 != BitsAt(l, k) + s / 8 || r % 8 != s % 8
  {
    assert r / 8 < l.enableWords * 8 && s / 8 < l.enableWords * 8;
    hide BitsAt;
    if j < k {
      BitsStep(l, j, k);
    } else if k < j {
      BitsStep(l, k, j);
    }
  }

  /** Enabling or disabling a component of a row changes that bit of that row: every other bit, every
      value and every handle stays. */
  lemma WrittenBit(types: Types, mask: set<nat>, chunkSize: nat, l: Layout, data: seq<byte>, t: nat, r: nat, on: bool, s: nat)
    requires LayoutOk(types, mask, chunkSize, l) && |data| == chunkSize && (forall u :: u in mask ==> u < |types.infos|)
    requires t in mask && r < l.capacity && s < l.capacity
    ensures BitsOf(types, mask, l, t) + r / 8 < |data|
    ensures var row := RowAt(types, mask, l, data, s);
      RowAt(types, mask, l, WithBitAt(data, BitsOf(types, mask, l, t), r, on), s) ==
        if s == r then row.(enabled := row.enabled[t := on]) else row
  {
    LayoutLaid(types, mask, chunkSize, l, data);
    SlotsThere(types, mask, l, data, t);
    BitPlace(types, mask, l, data, t, r);
    hide LayoutOk, Laid, Element, Bit, BitsAt, EntityAt, ColumnOf, SlotOf, Types.Slots, ElementAt, RowAt, WithBitAt, Part;
    var at := BitsOf(types, mask, l, t);
    var after := WithBitAt(data, at, r, on);
    HandleUnchanged(types, mask, l, data, at, r, on, s);
    forall u | u in mask ensures BitSet(types, mask, l, data, after, t, r, on, s, u) {
      SlotsThere(types, mask, l, data, u);
      BitPlace(types, mask, l, data, u, s);
      EnableSet(types, mask, l, data, t, r, on, s, u);
    }
    forall u | u in mask && types.HasColumn(u) ensures Element(after, ColumnOf(types, mask, l, u), s) == Element(data, ColumnOf(types, mask, l, u), s) {
      var k := ColumnFound(types, mask, chunkSize, l, u);
      ElementUnchanged(types, mask, l, data, at, r, on, k, s);
    }
    EnabledRow(types, mask, l, data, after, t, r, on, s);
  }

  predicate BitSet(types: Types, mask: set<nat>, l: Layout, data: seq<byte>, after: seq<byte>, t: nat, r: nat, on: bool, s: nat, u: nat) {
    Bit(after, BitsOf(types, mask, l, u), s) == if u == t && s == r then on else Bit(data, BitsOf(types, mask, l, u), s)
  }

  /** The bit lies in the enable bits, in front of everything else. */
  lemma BitPlace(types: Types, mask: set<nat>, l: Layout, data: seq<byte>, t: nat, r: nat)
    requires Laid(types, mask, l, data) && t in mask && r < l.capacity
    ensures BitsOf(types, mask, l, t) + r / 8 < EnableEnd(l) <= l.entityOffset && EntityEnd(l) <= |data| && EnableEnd(l) <= |data|
  {
    SlotsThere(types, mask, l, data, t);
    BitFits(l, SlotOf(types.Slots(mask), t), r);
    EntityEndAfter(l);
  }

  lemma EnableSet(types: Types, mask: set<nat>, l: Layout, data: seq<byte>, t: nat, r: nat, on: bool, s: nat, u: nat)
    requires Laid(types, mask, l, data) && t in mask && u in mask && r < l.capacity && s < l.capacity
    requires BitsOf(types, mask, l, t) + r / 8 < |data| && BitsOf(types, mask, l, u) + s / 8 < |data|
    ensures BitSet(types, mask, l, data, WithBitAt(data, BitsOf(types, mask, l, t), r, on), t, r, on, s, u)
  {
    var j, k := SlotOf(types.Slots(mask), t), SlotOf(types.Slots(mask), u);
    assert t in types.Slots(mask) && u in types.Slots(mask);
    hide Bit, BitsAt, WithBitAt, Separated, Types.Slots;
    BitWritten(data, BitsAt(l, j), r, on, BitsAt(l, k), s);
    if j != k || r != s {
      BitsApart(l, j, r, k, s);
    }
  }

  lemma HandleUnchanged(types: Types, mask: set<nat>, l: Layout, data: seq<byte>, at: nat, r: nat, on: bool, s: nat)
    requires Laid(types, mask, l, data) && at + r / 8 < EnableEnd(l) <= |data| && s < l.capacity
    ensures EntityAt(WithBitAt(data, at, r, on), l.entityOffset + s * ENTITY_BYTES) == EntityAt(data, l.entityOffset + s * ENTITY_BYTES)
  {
    var p := l.entityOffset + s * ENTITY_BYTES;
    MulLess(s + 1, l.capacity, ENTITY_BYTES);
    hide WithBit, Number;
    assert WithBitAt(data, at, r, on)[p..p + 4] == data[p..p + 4] && WithBitAt(data, at, r, on)[p + 4..p + 8] == data[p + 4..p + 8];
  }

  lemma ElementUnchanged(types: Types, mask: set<nat>, l: Layout, data: seq<byte>, at: nat, r: nat, on: bool, k: nat, s: nat)
    requires Laid(types, mask, l, data) && at + r / 8 < EnableEnd(l) <= |data| && k < |l.columns| && s < l.capacity
    ensures Element(WithBitAt(data, at, r, on), l.columns[k], s) == Element(data, l.columns[k], s)
  {
    ElementInside(l, |data|, k, s);
    EntityEndAfter(l);
    hide WithBit, ElementAt, EntityEnd;
    var p, n := ElementAt(l.columns[k], s), l.columns[k].elementSize;
    assert WithBitAt(data, at, r, on)[p..p + n] == data[p..p + n];
  }

  lemma EnabledRow(types: Types, mask: set<nat>, l: Layout, data: seq<byte>, after: seq<byte>, t: nat, r: nat, on: bool, s: nat)
    requires EntityAt(after, l.entityOffset + s * ENTITY_BYTES) == EntityAt(data, l.entityOffset + s * ENTITY_BYTES)
    requires forall u :: u in mask ==> BitSet(types, mask, l, data, after, t, r, on, s, u)
    requires forall u :: u in mask && types.HasColumn(u) ==> Element(after, ColumnOf(types, mask, l, u), s) == Element(data, ColumnOf(types, mask, l, u), s)
    requires t in mask
    ensures var row := RowAt(types, mask, l, data, s);
      RowAt(types, mask, l, after, s) == if s == r then row.(enabled := row.enabled[t := on]) else row
  {
    hide Element, Bit, BitsOf, EntityAt, ColumnOf;
    var row, now := RowAt(types, mask, l, data, s), RowAt(types, mask, l, after, s);
    assert now.values == row.values;
    assert now.enabled == if s == r then row.enabled[t := on] else row.enabled by {
      forall u | u in mask ensures now.enabled[u] == if u == t && s == r then on else row.enabled[u] {
        assert BitSet(types, mask, l, data, after, t, r, on, s, u);
      }
    }
  }
}
