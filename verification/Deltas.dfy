/** Replication deltas: the fields whose encoding changed, and applying them elsewhere. */
module Deltas {
  import opened Alignments
  import opened Bytes
  import opened Floats
  import opened Results

  // --- numbers on the wire --------------------------------------------------------------------------

  predicate FitsInt32(n: int) {
    -0x8000_0000 <= n < 0x8000_0000
  }

  /** The conversion to 32 bits. */
  function Wrapped(n: int): (r: int)
    ensures FitsInt32(r) && (FitsInt32(n) ==> r == n)
  {
    (n + 0x8000_0000) % 0x1_0000_0000 - 0x8000_0000
  }

  function Int32Bytes(n: int): (r: seq<byte>)
    requires FitsInt32(n)
    ensures |r| == 4
  {
    Little(4, if n < 0 then n + 0x1_0000_0000 else n)
  }

  function Int32Of(b: seq<byte>): (r: int)
    requires |b| == 4
    ensures FitsInt32(r)
  {
    NumberBelow(b);
    var u := Number(b);
    if u >= 0x8000_0000 then u - 0x1_0000_0000 else u
  }

  /** Two's complement, lowest byte first. */
  lemma Int32RoundTrip(n: int)
    requires FitsInt32(n)
    ensures Int32Of(Int32Bytes(n)) == n && Number(Int32Bytes(n)) == n % 0x1_0000_0000
  {
    NumberOfLittle(4, if n < 0 then n + 0x1_0000_0000 else n);
  }

  /** What arrives for x is a grid point within half a step of it exactly when its count fits 32 bits. */
  lemma WithinHalfStep(x: real, step: real)
    requires step > 0.0
    ensures Distance(GridPoint(Int32Of(Int32Bytes(Wrapped(Count(x, step)))), step), x) <= 0.5 * step <==> FitsInt32(Count(x, step))
  {
    hide Int32Of, Int32Bytes, Count, Little, GridPoint, Mul;
    var n := Count(x, step);
    Int32RoundTrip(Wrapped(n));
    CountNear(x, step, n);
    if !FitsInt32(n) {
      WrapsFar(n);
      GridApart(Wrapped(n), n, step, 2);
      TwoSteps(step);
    }
  }

  lemma TwoSteps(step: real)
    ensures GridPoint(2, step) == 2.0 * step
  {}

  /** A count that does not fit arrives 2^32 or more away. */
  lemma WrapsFar(n: int)
    requires !FitsInt32(n)
    ensures Wrapped(n) - n >= 0x1_0000_0000 || n - Wrapped(n) >= 0x1_0000_0000
  {}

  // --- fields ---------------------------------------------------------------------------------------

  function Times(n: nat, size: nat): nat {
    if n == 0 then 0 else size + Times(n - 1, size)
  }

  /** A replicated field: `count` elements of elementSize bytes at `offset`; quantized when it is a
      float with a step. */
  datatype Field = Field(offset: nat, count: nat, elementSize: nat, isFloat: bool, quantize: real, codec: Codec)
  {
    predicate IsQuantized() {
      quantize > 0.0 && isFloat
    }

    function Size(): nat {
      Times(count, elementSize)
    }

    function WireElementSize(): nat {
      if IsQuantized() then 4 else elementSize
    }

    function WireSize(): nat {
      Times(count, WireElementSize())
    }

    /** Whatever number is stored takes the bytes of one element. */
    ghost predicate StoresElements() {
      IsQuantized() ==> codec.Sized() && codec.size == elementSize
    }

    /** The number type is binary floating point. */
    ghost predicate StoresFloats() {
      IsQuantized() ==> codec.FloatLike() && codec.size == elementSize
    }

    /** A number the wire can carry: finite, of a step count that fits 32 bits, and with a grid point
        within the range of the number type. */
    predicate Carries(element: seq<byte>) {
      IsQuantized() ==>
        && codec.Holds(element) && FitsInt32(Count(codec.read(element), quantize))
        && codec.InRange(GridPoint(Count(codec.read(element), quantize), quantize))
    }

    predicate Inside(length: nat) {
      offset + Size() <= length
    }
  }

  /** Both number types of quantized fields are, however their conversions break ties. */
  lemma FloatsQualify(f: Field, format: Format)
    requires format == Float32() || format == Float64()
    requires Reads(f.codec, format) && f.codec.Sized() && f.codec.ToNearest() && f.elementSize == format.bytes
    ensures f.StoresFloats() && f.StoresElements()
  {
    FormatFloatLike(f.codec, format);
  }

  function EncodeElement(f: Field, element: seq<byte>): (r: seq<byte>)
    requires |element| == f.elementSize
    ensures |r| == f.WireElementSize()
  {
    if f.IsQuantized() then Int32Bytes(Wrapped(Count(f.codec.read(element), f.quantize))) else element
  }

  function DecodeElement(f: Field, wire: seq<byte>): seq<byte>
    requires |wire| == f.WireElementSize()
  {
    if f.IsQuantized() then f.codec.write(GridPoint(Int32Of(wire), f.quantize)) else wire
  }

  /** n elements one after another. */
  function Encoded(f: Field, elements: seq<byte>, n: nat): (r: seq<byte>)
    requires |elements| == Times(n, f.elementSize)
    ensures |r| == Times(n, f.WireElementSize())
  {
    if n == 0 then [] else EncodeElement(f, elements[..f.elementSize]) + Encoded(f, elements[f.elementSize..], n - 1)
  }

  function Decoded(f: Field, wire: seq<byte>, n: nat): seq<byte>
    requires |wire| == Times(n, f.WireElementSize())
  {
    if n == 0 then [] else DecodeElement(f, wire[..f.WireElementSize()]) + Decoded(f, wire[f.WireElementSize()..], n - 1)
  }

  function EncodeField(f: Field, value: seq<byte>): (r: seq<byte>)
    requires f.Inside(|value|)
    ensures |r| == f.WireSize()
  {
    Encoded(f, value[f.offset..f.offset + f.Size()], f.count)
  }

  /** DecodeField overwrites the field's bytes and nothing else. */
  function DecodeField(f: Field, wire: seq<byte>, value: seq<byte>): seq<byte>
    requires f.Inside(|value|) && |wire| == f.WireSize()
  {
    value[..f.offset] + Decoded(f, wire, f.count) + value[f.offset + f.Size()..]
  }

  lemma {:induction false} CopiedElements(f: Field, elements: seq<byte>, n: nat)
    requires !f.IsQuantized() && |elements| == Times(n, f.elementSize)
    ensures Encoded(f, elements, n) == elements && Decoded(f, elements, n) == elements
  {
    if n > 0 {
      CopiedElements(f, elements[f.elementSize..], n - 1);
      assert elements == elements[..f.elementSize] + elements[f.elementSize..];
    }
  }

  /** A field that is no float, or has no step, travels as it is. */
  lemma PlainField(f: Field, from: seq<byte>, value: seq<byte>)
    requires !f.isFloat || f.quantize <= 0.0
    requires f.Inside(|from|) && |value| == |from|
    ensures EncodeField(f, from) == from[f.offset..f.offset + f.Size()]
    ensures DecodeField(f, EncodeField(f, from), value) ==
      value[..f.offset] + from[f.offset..f.offset + f.Size()] + value[f.offset + f.Size()..]
  {
    CopiedElements(f, from[f.offset..f.offset + f.Size()], f.count);
  }

  lemma DecodedElement(f: Field, wire: seq<byte>)
    requires f.StoresElements() && |wire| == f.WireElementSize()
    ensures |DecodeElement(f, wire)| == f.elementSize
  {}

  /** What an element arrives as has the same encoding. */
  lemma ElementRoundTrip(f: Field, element: seq<byte>)
    requires |element| == f.elementSize && f.StoresFloats() && f.Carries(element)
    ensures var d := DecodeElement(f, EncodeElement(f, element)); |d| == f.elementSize && EncodeElement(f, d) == EncodeElement(f, element)
  {
    DecodedElement(f, EncodeElement(f, element));
    hide Int32Of, Int32Bytes, Count, GridPoint, Codec.FloatLike;
    if f.IsQuantized() {
      Int32RoundTrip(Count(f.codec.read(element), f.quantize));
      StoredCountsSame(f.codec, element, f.quantize);
    }
  }

  /** The number that arrives is within a step of the one that was sent exactly when the step count fits
      32 bits. */
  lemma ElementNear(f: Field, element: seq<byte>)
    requires f.IsQuantized() && f.StoresFloats() && f.codec.Holds(element)
    requires f.codec.InRange(GridPoint(Wrapped(Count(f.codec.read(element), f.quantize)), f.quantize))
    ensures Distance(f.codec.read(DecodeElement(f, EncodeElement(f, element))), f.codec.read(element)) <= f.quantize <==>
            FitsInt32(Count(f.codec.read(element), f.quantize))
  {
    hide Int32Of, Int32Bytes, Count, GridPoint, Codec.FloatLike, Distance, Wrapped;
    var n := Count(f.codec.read(element), f.quantize);
    Int32RoundTrip(Wrapped(n));
    StoredNear(f.codec, element, f.quantize, Wrapped(n), 0x1_0000_0000);
    WrappedFits(n);
    if !FitsInt32(n) { WrapsFar(n); }
  }

  lemma WrappedFits(n: int)
    ensures FitsInt32(n) ==> Wrapped(n) == n
  {}

  lemma {:induction false} DecodedLength(f: Field, wire: seq<byte>, n: nat)
    requires f.StoresElements() && |wire| == Times(n, f.WireElementSize())
    ensures |Decoded(f, wire, n)| == Times(n, f.elementSize)
  {
    hide DecodeElement, Field.StoresElements;
    if n > 0 {
      DecodedLength(f, wire[f.WireElementSize()..], n - 1);
      DecodedElement(f, wire[..f.WireElementSize()]);
    }
  }

  /** The wire can carry each of n elements. */
  predicate CarriesAll(f: Field, elements: seq<byte>, n: nat)
    requires |elements| == Times(n, f.elementSize)
  {
    n == 0 || (f.Carries(elements[..f.elementSize]) && CarriesAll(f, elements[f.elementSize..], n - 1))
  }

  lemma {:induction false} TimesInside(k: nat, n: nat, size: nat)
    requires k < n
    ensures Times(k, size) + size <= Times(n, size)
  {
    if k > 0 {
      TimesInside(k - 1, n - 1, size);
    }
  }

  /** Element k of n elements of this size. */
  function Nth(elements: seq<byte>, size: nat, n: nat, k: nat): (r: seq<byte>)
    requires |elements| == Times(n, size) && k < n
    ensures |r| == size
  {
    TimesInside(k, n, size);
    elements[Times(k, size)..Times(k, size) + size]
  }

  lemma NthOfRest(elements: seq<byte>, size: nat, n: nat, k: nat)
    requires |elements| == Times(n, size) && k < n
    ensures k == 0 ==> Nth(elements, size, n, k) == elements[..size]
    ensures k > 0 ==> Nth(elements, size, n, k) == Nth(elements[size..], size, n - 1, k - 1)
  {
    TimesInside(k, n, size);
  }

  /** Element k of the wire is the encoding of element k. */
  lemma {:induction false} EncodedEach(f: Field, elements: seq<byte>, n: nat, k: nat)
    requires |elements| == Times(n, f.elementSize) && k < n
    ensures Nth(Encoded(f, elements, n), f.WireElementSize(), n, k) == EncodeElement(f, Nth(elements, f.elementSize, n, k))
  {
    hide EncodeElement, Nth, Field.WireElementSize;
    var wire, rest := Encoded(f, elements, n), elements[f.elementSize..];
    NthOfRest(elements, f.elementSize, n, k);
    NthOfRest(wire, f.WireElementSize(), n, k);
    assert wire[..f.WireElementSize()] == EncodeElement(f, elements[..f.elementSize]);
    assert wire[f.WireElementSize()..] == Encoded(f, rest, n - 1);
    if k > 0 {
      EncodedEach(f, rest, n - 1, k - 1);
    }
  }

  lemma {:induction false} CarriesEach(f: Field, elements: seq<byte>, n: nat)
    requires |elements| == Times(n, f.elementSize)
    ensures CarriesAll(f, elements, n) <==> forall k: nat :: k < n ==> f.Carries(Nth(elements, f.elementSize, n, k))
  {
    hide Nth, Field.Carries;
    if n > 0 {
      var rest := elements[f.elementSize..];
      CarriesEach(f, rest, n - 1);
      NthOfRest(elements, f.elementSize, n, 0);
      forall k: nat | 0 < k < n ensures Nth(elements, f.elementSize, n, k) == Nth(rest, f.elementSize, n - 1, k - 1) {
        NthOfRest(elements, f.elementSize, n, k);
      }
      forall k: nat {:trigger Nth(rest, f.elementSize, n - 1, k)} | k < n - 1
        ensures Nth(rest, f.elementSize, n - 1, k) == Nth(elements, f.elementSize, n, k + 1) {}
    }
  }

  predicate CarriesField(f: Field, value: seq<byte>)
    requires f.Inside(|value|)
  {
    CarriesAll(f, value[f.offset..f.offset + f.Size()], f.count)
  }

  /** What was decoded from an encoding has the size of the field and encodes to it again. */
  lemma {:induction false} DecodedEncodes(f: Field, elements: seq<byte>, n: nat)
    requires f.StoresFloats() && |elements| == Times(n, f.elementSize) && CarriesAll(f, elements, n)
    ensures |Decoded(f, Encoded(f, elements, n), n)| == |elements|
    ensures Encoded(f, Decoded(f, Encoded(f, elements, n), n), n) == Encoded(f, elements, n)
  {
    hide EncodeElement, DecodeElement, Field.StoresFloats, Field.Carries;
    if n > 0 {
      var head, tail := elements[..f.elementSize], elements[f.elementSize..];
      DecodedEncodes(f, tail, n - 1);
      ElementRoundTrip(f, head);
      var w, rest := EncodeElement(f, head), Encoded(f, tail, n - 1);
      assert (w + rest)[..|w|] == w && (w + rest)[|w|..] == rest;
      var d, more := DecodeElement(f, w), Decoded(f, rest, n - 1);
      assert Decoded(f, w + rest, n) == d + more;
      assert (d + more)[..f.elementSize] == d && (d + more)[f.elementSize..] == more;
    }
  }

  // --- components -----------------------------------------------------------------------------------

  predicate Apart(a: Field, b: Field) {
    a.offset + a.Size() <= b.offset || b.offset + b.Size() <= a.offset
  }

  const MAX_FIELDS := 64
  const MAX_FIELD_BYTES := 256

  ghost predicate SchemaOk(fields: seq<Field>, length: nat) {
    && |fields| <= MAX_FIELDS
    && (forall i :: 0 <= i < |fields| ==> fields[i].StoresElements() && fields[i].Inside(length))
    && (forall i, j :: 0 <= i < j < |fields| ==> Apart(fields[i], fields[j]))
  }

  /** Number fields one beside the other, that fill their component: a schema as Build makes it. */
  lemma AdjacentFields(fields: seq<Field>, format: Format)
    requires |fields| <= MAX_FIELDS && (format == Float32() || format == Float64())
    requires forall i :: 0 <= i < |fields| ==>
      && Reads(fields[i].codec, format) && fields[i].codec.Sized() && fields[i].codec.ToNearest()
      && fields[i].count == 1 && fields[i].elementSize == format.bytes && fields[i].offset == i * format.bytes
    ensures SchemaOk(fields, |fields| * format.bytes) && FloatsOk(fields)
  {
    forall i | 0 <= i < |fields|
      ensures fields[i].StoresElements() && fields[i].StoresFloats() && fields[i].Size() == format.bytes
    {
      FloatsQualify(fields[i], format);
      assert Times(1, format.bytes) == format.bytes + Times(0, format.bytes);
    }
    hide Reads;
  }

  ghost predicate FloatsOk(fields: seq<Field>) {
    forall i :: 0 <= i < |fields| ==> fields[i].StoresFloats()
  }

  /** Two values no receiver of the encoding can tell apart. */
  ghost predicate EncodeAlike(fields: seq<Field>, a: seq<byte>, b: seq<byte>)
    requires SchemaOk(fields, |a|) && |a| == |b|
  {
    forall i :: 0 <= i < |fields| ==> EncodeField(fields[i], a) == EncodeField(fields[i], b)
  }

  predicate Covered(fields: seq<Field>, at: nat) {
    exists i :: 0 <= i < |fields| && fields[i].offset <= at < fields[i].offset + fields[i].Size()
  }

  /** Eight bits of the mask, lowest first. */
  function ByteOf(bits: seq<bool>): (r: nat)
    ensures |bits| == 8 ==> r < 256
  {
    BitsBound(bits);
    Binary(bits)
  }

  function Binary(bits: seq<bool>): nat {
    if bits == [] then 0 else (if bits[0] then 1 else 0) + 2 * Binary(bits[1..])
  }

  function Pow2(n: nat): (r: nat)
    ensures r > 0
  {
    if n == 0 then 1 else 2 * Pow2(n - 1)
  }

  lemma {:induction false} BitsBound(bits: seq<bool>)
    ensures Binary(bits) < Pow2(|bits|) && Pow2(8) == 256
  {
    assert Pow2(8) == 2 * 2 * 2 * 2 * Pow2(4);
    if bits != [] {
      BitsBound(bits[1..]);
    }
  }

  function BitsOf(b: nat, n: nat): (r: seq<bool>)
    ensures |r| == n
  {
    if n == 0 then [] else [b % 2 == 1] + BitsOf(b / 2, n - 1)
  }

  lemma {:induction false} BitsRoundTrip(bits: seq<bool>)
    ensures BitsOf(Binary(bits), |bits|) == bits
  {
    if bits != [] {
      BitsRoundTrip(bits[1..]);
      assert Binary(bits) / 2 == Binary(bits[1..]);
      assert bits == [bits[0]] + bits[1..];
    }
  }

  function MaskBytes(bits: seq<bool>): seq<byte>
    requires |bits| % 8 == 0
  {
    if bits == [] then [] else [ByteOf(bits[..8])] + MaskBytes(bits[8..])
  }

  function MaskBits(bytes: seq<byte>): (r: seq<bool>)
    ensures |r| == 8 * |bytes|
  {
    if bytes == [] then [] else BitsOf(bytes[0], 8) + MaskBits(bytes[1..])
  }

  lemma {:induction false} MaskRoundTrip(bits: seq<bool>)
    requires |bits| % 8 == 0
    ensures 8 * |MaskBytes(bits)| == |bits| && MaskBits(MaskBytes(bits)) == bits
    decreases |bits|
  {
    if bits != [] {
      MaskRoundTrip(bits[8..]);
      BitsRoundTrip(bits[..8]);
      assert ([ByteOf(bits[..8])] + MaskBytes(bits[8..]))[1..] == MaskBytes(bits[8..]);
      assert bits == bits[..8] + bits[8..];
    }
  }

  /** Bit i of a mask on the wire: the lowest bit of the first byte is bit 0. */
  predicate Marked(bytes: seq<byte>, i: nat) {
    i / 8 < |bytes| && (bytes[i / 8] as nat / Pow2(i % 8)) % 2 == 1
  }

  lemma {:induction false} BinaryBit(bits: seq<bool>, i: nat)
    requires i < |bits|
    ensures (Binary(bits) / Pow2(i)) % 2 == 1 <==> bits[i]
  {
    if i > 0 {
      BinaryBit(bits[1..], i - 1);
      assert Binary(bits) / 2 == Binary(bits[1..]);
      DivideTwice(Binary(bits), Pow2(i - 1));
    }
  }

  lemma DivideTwice(x: nat, p: nat)
    requires p > 0
    ensures x / (2 * p) == x / 2 / p
  {
    var q := x / 2 / p;
    assert x == 2 * (x / 2) + x % 2 && x / 2 == p * q + x / 2 % p;
    assert x == (2 * p) * q + (2 * (x / 2 % p) + x % 2);
    DivisionUnique(x, q, 2 * (x / 2 % p) + x % 2, 2 * p);
  }

  lemma {:induction false} MaskBit(bits: seq<bool>, i: nat)
    requires |bits| % 8 == 0 && i < |bits|
    ensures Marked(MaskBytes(bits), i) <==> bits[i]
    decreases |bits|
  {
    if i < 8 {
      BinaryBit(bits[..8], i);
    } else {
      MaskBit(bits[8..], i - 8);
      assert (i - 8) / 8 == i / 8 - 1 && (i - 8) % 8 == i % 8;
    }
  }

  // --- one field ------------------------------------------------------------------------------------

  /** Decoding a field leaves every byte outside it, and so every other field, as it was. */
  lemma DecodeFieldFrame(f: Field, wire: seq<byte>, value: seq<byte>)
    requires f.Inside(|value|) && |wire| == f.WireSize() && |Decoded(f, wire, f.count)| == f.Size()
    ensures |DecodeField(f, wire, value)| == |value|
    ensures forall k :: 0 <= k < |value| && !(f.offset <= k < f.offset + f.Size()) ==> DecodeField(f, wire, value)[k] == value[k]
    ensures DecodeField(f, wire, value)[f.offset..f.offset + f.Size()] == Decoded(f, wire, f.count)
  {}

  lemma OtherFieldStays(f: Field, g: Field, wire: seq<byte>, value: seq<byte>)
    requires f.Inside(|value|) && g.Inside(|value|) && |wire| == f.WireSize() && |Decoded(f, wire, f.count)| == f.Size() && Apart(f, g)
    ensures |DecodeField(f, wire, value)| == |value| && EncodeField(g, DecodeField(f, wire, value)) == EncodeField(g, value)
  {
    DecodeFieldFrame(f, wire, value);
    assert DecodeField(f, wire, value)[g.offset..g.offset + g.Size()] == value[g.offset..g.offset + g.Size()];
  }

  lemma FieldRoundTrip(f: Field, from: seq<byte>, value: seq<byte>)
    requires f.Inside(|value|) && f.Inside(|from|) && f.StoresFloats() && CarriesField(f, from)
    ensures |Decoded(f, EncodeField(f, from), f.count)| == f.Size()
    ensures |DecodeField(f, EncodeField(f, from), value)| == |value|
    ensures EncodeField(f, DecodeField(f, EncodeField(f, from), value)) == EncodeField(f, from)
  {
    DecodedEncodes(f, from[f.offset..f.offset + f.Size()], f.count);
    DecodeFieldFrame(f, EncodeField(f, from), value);
  }

  // --- deltas ---------------------------------------------------------------------------------------

  /** Which of the first n fields encode differently. */
  function Changes(fields: seq<Field>, before: seq<byte>, after: seq<byte>, n: nat): (r: seq<bool>)
    requires n <= |fields| && |before| == |after| && forall i :: 0 <= i < |fields| ==> fields[i].Inside(|before|)
    ensures |r| == n && forall i :: 0 <= i < n ==> (r[i] <==> EncodeField(fields[i], before) != EncodeField(fields[i], after))
  {
    seq(n, i requires 0 <= i < n => EncodeField(fields[i], before) != EncodeField(fields[i], after))
  }

  /** The encodings of the changed fields from field n on. */
  function Body(fields: seq<Field>, bits: seq<bool>, after: seq<byte>, n: nat): seq<byte>
    requires n <= |fields| == |bits| && forall i :: 0 <= i < |fields| ==> fields[i].Inside(|after|)
    decreases |fields| - n
  {
    if n == |fields| then [] else (if bits[n] then EncodeField(fields[n], after) else []) + Body(fields, bits, after, n + 1)
  }

  function Padded(bits: seq<bool>): (r: seq<bool>)
    requires |bits| <= MAX_FIELDS
    ensures |r| == MAX_FIELDS && r[..|bits|] == bits
  {
    bits + seq(MAX_FIELDS - |bits|, _ => false)
  }

  /** What a delta holds: the mask, then the changed fields. */
  function Delta(fields: seq<Field>, before: seq<byte>, after: seq<byte>): seq<byte>
    requires |fields| <= MAX_FIELDS && |before| == |after| && forall i :: 0 <= i < |fields| ==> fields[i].Inside(|before|)
  {
    var bits := Changes(fields, before, after, |fields|);
    MaskBytes(Padded(bits)) + Body(fields, bits, after, 0)
  }

  /** Bit i of a delta says whether there is a field i that encodes differently. */
  lemma DeltaMarks(fields: seq<Field>, before: seq<byte>, after: seq<byte>, i: nat)
    requires |fields| <= MAX_FIELDS && |before| == |after| && (forall k :: 0 <= k < |fields| ==> fields[k].Inside(|before|)) && i < MAX_FIELDS
    ensures |Delta(fields, before, after)| >= 8
    ensures Marked(Delta(fields, before, after)[..8], i) <==> i < |fields| && EncodeField(fields[i], before) != EncodeField(fields[i], after)
  {
    var bits := Changes(fields, before, after, |fields|);
    MaskRoundTrip(Padded(bits));
    MaskBit(Padded(bits), i);
    assert Delta(fields, before, after)[..8] == MaskBytes(Padded(bits));
    assert i < |fields| ==> Padded(bits)[i] == Padded(bits)[..|bits|][i];
  }

  /** The mask of a message marks exactly the fields that encode differently. */
  ghost predicate MarksChanges(fields: seq<Field>, before: seq<byte>, after: seq<byte>, message: seq<byte>)
    requires |before| == |after| && forall k :: 0 <= k < |fields| ==> fields[k].Inside(|before|)
  {
    && |message| >= 8
    && forall i: nat :: i < MAX_FIELDS ==>
         (Marked(message[..8], i) <==> i < |fields| && EncodeField(fields[i], before) != EncodeField(fields[i], after))
  }

  lemma DeltaMarksChanges(fields: seq<Field>, before: seq<byte>, after: seq<byte>)
    requires |fields| <= MAX_FIELDS && |before| == |after| && forall k :: 0 <= k < |fields| ==> fields[k].Inside(|before|)
    ensures MarksChanges(fields, before, after, Delta(fields, before, after))
  {
    hide Marked, Delta, EncodeField;
    DeltaMarks(fields, before, after, 0);
    forall i: nat | i < MAX_FIELDS
      ensures Marked(Delta(fields, before, after)[..8], i) <==> i < |fields| && EncodeField(fields[i], before) != EncodeField(fields[i], after)
    {
      DeltaMarks(fields, before, after, i);
    }
  }

  /** Decoding the marked fields from field n on out of what is left of the message; None when it is
      too short. */
  function Applied(fields: seq<Field>, bits: seq<bool>, wire: seq<byte>, value: seq<byte>, n: nat): Option<seq<byte>>
    requires n <= |fields| <= |bits|
    decreases |fields| - n
  {
    if n == |fields| then Some(value)
    else if !bits[n] then Applied(fields, bits, wire, value, n + 1)
    else if |wire| < fields[n].WireSize() || !fields[n].Inside(|value|) then None
    else Applied(fields, bits, wire[fields[n].WireSize()..], DecodeField(fields[n], wire[..fields[n].WireSize()], value), n + 1)
  }

  /** The fields from n on arrive, those before n stay as they are. */
  lemma {:induction false} BodyApplies(fields: seq<Field>, bits: seq<bool>, before: seq<byte>, after: seq<byte>, value: seq<byte>, n: nat) returns (r: seq<byte>)
    requires SchemaOk(fields, |value|) && FloatsOk(fields) && |before| == |after| == |value| && n <= |fields| == |bits|
    requires forall i :: 0 <= i < |fields| && bits[i] ==> CarriesField(fields[i], after)
    requires forall i :: 0 <= i < |fields| ==> (bits[i] <==> EncodeField(fields[i], before) != EncodeField(fields[i], after))
    requires forall i :: 0 <= i < n ==> EncodeField(fields[i], value) == EncodeField(fields[i], after)
    requires forall i :: n <= i < |fields| ==> EncodeField(fields[i], value) == EncodeField(fields[i], before)
    ensures Applied(fields, Padded(bits), Body(fields, bits, after, n), value, n) == Some(r)
    ensures |r| == |value| && EncodeAlike(fields, r, after)
    ensures forall k :: 0 <= k < |value| && !Covered(fields, k) ==> r[k] == value[k]
    decreases |fields| - n
  {
    hide EncodeField, DecodeField, Decoded, Padded, Field.StoresElements, Field.StoresFloats, CarriesField;
    assert Padded(bits)[..|bits|] == bits;
    if n == |fields| {
      r := value;
    } else if !bits[n] {
      assert [] + Body(fields, bits, after, n + 1) == Body(fields, bits, after, n + 1);
      r := BodyApplies(fields, bits, before, after, value, n + 1);
    } else {
      var f := fields[n];
      var wire, rest := EncodeField(f, after), Body(fields, bits, after, n + 1);
      assert (wire + rest)[..f.WireSize()] == wire && (wire + rest)[f.WireSize()..] == rest;
      FieldRoundTrip(f, after, value);
      DecodeFieldFrame(f, wire, value);
      var next := DecodeField(f, wire, value);
      forall i | 0 <= i < |fields| && i != n ensures EncodeField(fields[i], next) == EncodeField(fields[i], value) {
        OtherFieldStays(f, fields[i], wire, value);
      }
      r := BodyApplies(fields, bits, before, after, next, n + 1);
      forall k | 0 <= k < |value| && !Covered(fields, k) ensures r[k] == value[k] {
        assert next[k] == value[k];
      }
    }
  }

  /** Applying the delta from a baseline to a current value, to any value that encodes like the
      baseline, gives one that encodes like the current value, when the wire can carry the fields that
      changed; bytes that are not replicated stay. */
  lemma DeltaCorrect(fields: seq<Field>, baseline: seq<byte>, current: seq<byte>, value: seq<byte>) returns (r: seq<byte>)
    requires SchemaOk(fields, |value|) && FloatsOk(fields) && |baseline| == |current| == |value| && EncodeAlike(fields, value, baseline)
    requires forall i :: 0 <= i < |fields| && EncodeField(fields[i], baseline) != EncodeField(fields[i], current) ==>
      CarriesField(fields[i], current)
    ensures var d := Delta(fields, baseline, current);
      |d| >= 8 && Applied(fields, MaskBits(d[..8]), d[8..], value, 0) == Some(r)
    ensures |r| == |value| && EncodeAlike(fields, r, current)
    ensures forall k :: 0 <= k < |value| && !Covered(fields, k) ==> r[k] == value[k]
  {
    var bits := Changes(fields, baseline, current, |fields|);
    MaskRoundTrip(Padded(bits));
    var m, body := MaskBytes(Padded(bits)), Body(fields, bits, current, 0);
    assert |m| == 8;
    assert (m + body)[..8] == m && (m + body)[8..] == body;
    r := BodyApplies(fields, bits, baseline, current, value, 0);
  }

  // --- the calls ------------------------------------------------------------------------------------

  /** EncodeDelta: refuses a field too large for its scratch space even if it did not change, and an
      output too small for what did. */
  method EncodeDelta(fields: seq<Field>, baseline: seq<byte>, current: seq<byte>, capacity: nat) returns (r: Result<seq<byte>>)
    requires |fields| <= MAX_FIELDS && |baseline| == |current| && forall i :: 0 <= i < |fields| ==> fields[i].Inside(|baseline|)
    ensures r.Ok? ==> r.value == Delta(fields, baseline, current)
    ensures r.Ok? ==> MarksChanges(fields, baseline, current, r.value)
    ensures r.Ok? <==> |Delta(fields, baseline, current)| <= capacity && forall i :: 0 <= i < |fields| ==> fields[i].WireSize() <= MAX_FIELD_BYTES
    ensures r.Fail? ==> r.error == OutOfRange
  {
    hide EncodeField, Padded, MaskBits, MaskBytes, MarksChanges, Changes, Field.WireSize, Field.Inside, Field.Size, Times;
    ghost var bits := Changes(fields, baseline, current, |fields|);
    MaskRoundTrip(Padded(bits));
    BodyFrom(fields, bits, current, 0);
    if capacity < 8 {
      return Fail(OutOfRange);
    }
    var mask: seq<bool> := [];
    var out: seq<byte> := [];
    var index := 0;
    while index < |fields|
      invariant index <= |fields| && mask == bits[..index]
      invariant out + Body(fields, bits, current, index) == Body(fields, bits, current, 0)
      invariant 8 + |out| <= capacity && forall i :: 0 <= i < index ==> fields[i].WireSize() <= MAX_FIELD_BYTES
    {
      var size := fields[index].WireSize();
      if size > MAX_FIELD_BYTES {
        return Fail(OutOfRange);
      }
      var before, after := EncodeField(fields[index], baseline), EncodeField(fields[index], current);
      if before != after {
        if capacity - 8 - |out| < size {
          return Fail(OutOfRange);
        }
        assert out + (after + Body(fields, bits, current, index + 1)) == out + after + Body(fields, bits, current, index + 1);
        out := out + after;
      } else {
        assert [] + Body(fields, bits, current, index + 1) == Body(fields, bits, current, index + 1);
      }
      mask := mask + [before != after];
      index := index + 1;
    }
    assert mask == bits && out + [] == out;
    DeltaMarksChanges(fields, baseline, current);
    return Ok(MaskBytes(Padded(mask)) + out);
  }

  lemma BodyFrom(fields: seq<Field>, bits: seq<bool>, after: seq<byte>, n: nat)
    requires n <= |fields| == |bits| && forall i :: 0 <= i < |fields| ==> fields[i].Inside(|after|)
    ensures [] + Body(fields, bits, after, n) == Body(fields, bits, after, n)
  {}

  /** ApplyDelta, on the component in place. A message that ends too early is an error; the fields
      read before it ends stay written. */
  method ApplyDelta(fields: seq<Field>, message: seq<byte>, value: array<byte>) returns (r: Result<()>)
    requires SchemaOk(fields, value.Length)
    modifies value
    ensures |message| < 8 ==> r == Fail(CorruptData) && value[..] == old(value[..])
    ensures |message| >= 8 ==>
      var applied := Applied(fields, MaskBits(message[..8]), message[8..], old(value[..]), 0);
      && (r == if applied.Some? then Ok(()) else Fail(CorruptData))
      && (applied.Some? ==> value[..] == applied.value)
  {
    hide Field.StoresElements, Decoded, EncodeField;
    if |message| < 8 {
      return Fail(CorruptData);
    }
    var bits := MaskBits(message[..8]);
    var read, index := 8, 0;
    while index < |fields|
      invariant index <= |fields| && 8 <= read <= |message|
      invariant Applied(fields, bits, message[read..], value[..], index) == Applied(fields, bits, message[8..], old(value[..]), 0)
    {
      if bits[index] {
        var f := fields[index];
        var size := f.WireSize();
        if |message| - read < size {
          return Fail(CorruptData);
        }
        var wire := message[read..read + size];
        assert message[read..][..size] == wire && message[read..][size..] == message[read + size..];
        ghost var before := value[..];
        DecodedLength(f, wire, f.count);
        DecodeFieldFrame(f, wire, before);
        Overwrite(value, f.offset, Decoded(f, wire, f.count));
        assert value[..] == DecodeField(f, wire, before);
        read := read + size;
      }
      index := index + 1;
    }
    return Ok(());
  }

  method Overwrite(value: array<byte>, offset: nat, bytes: seq<byte>)
    requires offset + |bytes| <= value.Length
    modifies value
    ensures value[..] == old(value[..offset]) + bytes + old(value[offset + |bytes|..])
  {
    for k := 0 to |bytes|
      invariant value[offset..offset + k] == bytes[..k]
      invariant value[..offset] == old(value[..offset]) && value[offset + k..] == old(value[offset + k..])
    {
      value[offset + k] := bytes[k];
    }
  }
}
