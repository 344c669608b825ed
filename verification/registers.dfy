/**
 The register model shared by both drivers: a device's register file is a map
 from 8-bit addresses to bytes, and a bit field is a descriptor (register,
 lowest bit, width) whose value is read by shifting and masking and written by
 a read-modify-write of the containing byte. A whole-byte register (the
 `UnaryStruct` descriptors) is written without reading it first.
 */
module Registers {
  import opened Python

  type Byte = bv8
  type Addr = a: int | 0 <= a < 256

  /** The register file, indexed by address. */
  type RegisterMap = s: seq<Byte> | |s| == 256 witness seq(256, _ => 0)

  /** The state a driver operation leaves behind, and the exception it raised,
      if any. Register writes made before an exception stay on the chip. */
  datatype Step = Step(regs: RegisterMap, raised: Option<Exception>)

  /** The outcome of constructing a driver: a usable handle, or the exception
      together with the register state the failed construction left behind. */
  datatype Construction<D> = Built(device: D) | Failed(regs: RegisterMap, error: Exception)

  /** 2^n, by its recursive definition. */
  function Power2(n: nat): nat
  {
    if n == 0 then 1 else 2 * Power2(n - 1)
  }

  /** 2^n for the exponents a byte's fields use, as a table the bit-vector
      reasoning can look up directly. */
  function Pow2(n: nat): (p: nat)
    requires n <= 8
  {
    [1, 2, 4, 8, 16, 32, 64, 128, 256][n]
  }

  /** The table holds the powers of two. */
  lemma {:induction false} Pow2IsPower2(n: nat)
    requires n <= 8
    ensures Pow2(n) == Power2(n)
  {
    if n > 0 {
      Pow2IsPower2(n - 1);
      assert Pow2(n) == 2 * Pow2(n - 1);
    }
  }

  /** The byte whose lowest `w` bits are set. */
  function Ones(w: Byte): Byte
    requires w <= 8
  {
    (1 as Byte << w) - 1
  }

  /** Bit `i` of `b` is set. */
  predicate Bit(b: Byte, i: Byte)
    requires i < 8
  {
    (b >> i) & 1 == 1
  }

  /** Bits `lo .. lo + w - 1` lie inside one byte. */
  predicate Span(lo: Byte, w: Byte)
  {
    1 <= w <= 8 && lo <= 8 - w
  }

  /** The `w` bits of `b` starting at bit `lo`, shifted down. */
  function Slice(b: Byte, lo: Byte, w: Byte): Byte
    requires Span(lo, w)
  {
    (b >> lo) & Ones(w)
  }

  /** `b` with bits `lo .. lo + w - 1` replaced by the low bits of `x`. */
  function Place(b: Byte, lo: Byte, w: Byte, x: Byte): Byte
    requires Span(lo, w)
  {
    (b & !(Ones(w) << lo)) | (x << lo)
  }

  lemma FitsInOnes(w: Byte, v: nat)
    requires 1 <= w <= 8 && v < Pow2(w as nat)
    ensures (v as Byte) & !Ones(w) == 0
  {}

  lemma ByteRoundTrip(v: nat)
    requires v < 256
    ensures (v as Byte) as nat == v
  {
    assert v % 256 == v;
  }

  lemma PlaceBits(b: Byte, lo: Byte, w: Byte, x: Byte)
    requires Span(lo, w) && x & !Ones(w) == 0
    ensures Slice(Place(b, lo, w, x), lo, w) == x
    ensures forall i: Byte :: i < 8 && (i < lo || lo + w <= i) ==> (Bit(Place(b, lo, w, x), i) <==> Bit(b, i))
  {}

  lemma PlaceDisjoint(b: Byte, lo: Byte, w: Byte, x: Byte, lo2: Byte, w2: Byte)
    requires Span(lo, w) && Span(lo2, w2) && x & !Ones(w) == 0
    requires lo + w <= lo2 || lo2 + w2 <= lo
    ensures Slice(Place(b, lo, w, x), lo2, w2) == Slice(b, lo2, w2)
  {
    if lo + w <= lo2 {
      PlaceBelow(b, lo, w, x, lo2, w2);
    } else {
      PlaceAbove(b, lo, w, x, lo2, w2);
    }
  }

  lemma PlaceBelow(b: Byte, lo: Byte, w: Byte, x: Byte, lo2: Byte, w2: Byte)
    requires Span(lo, w) && Span(lo2, w2) && x & !Ones(w) == 0
    requires lo + w <= lo2
    ensures Slice(Place(b, lo, w, x), lo2, w2) == Slice(b, lo2, w2)
  {}

  lemma PlaceAbove(b: Byte, lo: Byte, w: Byte, x: Byte, lo2: Byte, w2: Byte)
    requires Span(lo, w) && Span(lo2, w2) && x & !Ones(w) == 0
    requires lo2 + w2 <= lo
    ensures Slice(Place(b, lo, w, x), lo2, w2) == Slice(b, lo2, w2)
  {}

  lemma PlaceSlice(b: Byte, lo: Byte, w: Byte)
    requires Span(lo, w)
    ensures Place(b, lo, w, Slice(b, lo, w)) == b
  {}

  lemma OverwriteBits(b: Byte, lo: Byte, w: Byte, x: Byte, y: Byte)
    requires Span(lo, w) && x & !Ones(w) == 0 && y & !Ones(w) == 0
    ensures Place(Place(b, lo, w, x), lo, w, y) == Place(b, lo, w, y)
  {}

  /** The span of one `Place` is unchanged outside it, as a statement about every other span. */
  lemma PlaceFrame(b: Byte, lo: Byte, w: Byte, x: Byte)
    requires Span(lo, w) && x & !Ones(w) == 0
    ensures forall lo2: Byte, w2: Byte :: Span(lo2, w2) && (lo + w <= lo2 || lo2 + w2 <= lo) ==>
      Slice(Place(b, lo, w, x), lo2, w2) == Slice(b, lo2, w2)
  {
    forall lo2: Byte, w2: Byte | Span(lo2, w2) && (lo + w <= lo2 || lo2 + w2 <= lo)
      ensures Slice(Place(b, lo, w, x), lo2, w2) == Slice(b, lo2, w2)
    {
      PlaceDisjoint(b, lo, w, x, lo2, w2);
    }
  }

  /** A bit-field descriptor: `width` bits of register `reg` starting at bit `lowest`
      (the `RWBits(width, reg, lowest)` and `RWBit(reg, lowest)` descriptors). */
  datatype Field = Field(reg: Addr, lowest: Byte, width: Byte) {
    predicate Valid() { Span(lowest, width) }

    predicate Covers(i: Byte) { lowest <= i < lowest + width }

    /** The two fields share no bit: different registers, or non-overlapping bits. */
    predicate DisjointFrom(g: Field) {
      reg != g.reg || lowest + width <= g.lowest || g.lowest + g.width <= lowest
    }
  }

  type BitField = f: Field | f.Valid() witness Field(0, 0, 1)

  /** Only field `f` of `m` may differ in `r`: every other register, and every
      bit of `f`'s register outside `f`, is the same. */
  ghost predicate OnlyFieldChanged(m: RegisterMap, r: RegisterMap, f: BitField)
  {
    && (forall a: Addr :: a != f.reg ==> r[a] == m[a])
    && (forall i: Byte :: i < 8 && !f.Covers(i) ==> (Bit(r[f.reg], i) <==> Bit(m[f.reg], i)))
  }

  /** The largest value field `f` holds, plus one. */
  function Capacity(f: BitField): nat
  {
    Pow2(f.width as nat)
  }

  function ReadBits(m: RegisterMap, f: BitField): (v: nat)
    ensures v < Capacity(f)
  {
    Slice(m[f.reg], f.lowest, f.width) as nat
  }

  /** Read-modify-write of one field. The value must fit the field: the register
      library's handling of wider values is not part of this model. */
  function WriteBits(m: RegisterMap, f: BitField, v: nat): (r: RegisterMap)
    requires v < Capacity(f)
    ensures ReadBits(r, f) == v
    ensures OnlyFieldChanged(m, r, f)
    ensures forall g: BitField :: g.DisjointFrom(f) ==> ReadBits(r, g) == ReadBits(m, g)
  {
    FitsInOnes(f.width, v);
    ByteRoundTrip(v);
    PlaceBits(m[f.reg], f.lowest, f.width, v as Byte);
    PlaceFrame(m[f.reg], f.lowest, f.width, v as Byte);
    m[f.reg := Place(m[f.reg], f.lowest, f.width, v as Byte)]
  }

  /** A one-bit field read as a boolean (`RWBit`). */
  function ReadFlag(m: RegisterMap, f: BitField): (b: bool)
    requires f.width == 1
    ensures b <==> Bit(m[f.reg], f.lowest)
  {
    ReadBits(m, f) == 1
  }

  /** `RWBit` assignment: sets the bit for `true`, clears it for `false`. */
  function WriteFlag(m: RegisterMap, f: BitField, b: bool): (r: RegisterMap)
    requires f.width == 1
    ensures ReadFlag(r, f) == b
    ensures OnlyFieldChanged(m, r, f)
    ensures forall g: BitField :: g.DisjointFrom(f) ==> ReadBits(r, g) == ReadBits(m, g)
  {
    WriteBits(m, f, if b then 1 else 0)
  }

  /** `UnaryStruct(reg, "<B")` assignment: the whole byte, no read first. */
  function WriteByte(m: RegisterMap, a: Addr, v: nat): (r: RegisterMap)
    requires v < 256
    ensures r[a] as nat == v
    ensures forall a': Addr :: a' != a ==> r[a'] == m[a']
  {
    ByteRoundTrip(v);
    m[a := v as Byte]
  }

  /** Writing a field back with the value just read from it changes nothing. */
  lemma WriteBackIsIdentity(m: RegisterMap, f: BitField)
    ensures WriteBits(m, f, ReadBits(m, f)) == m
  {
    var b := m[f.reg];
    var x := Slice(b, f.lowest, f.width);
    assert (x as nat) as Byte == x;
    PlaceSlice(b, f.lowest, f.width);
    assert WriteBits(m, f, ReadBits(m, f))[f.reg] == b;
  }

  /** A second write to a field overrides the first. */
  lemma WriteBitsOverwrites(m: RegisterMap, f: BitField, v: nat, w: nat)
    requires v < Capacity(f) && w < Capacity(f)
    ensures WriteBits(WriteBits(m, f, v), f, w) == WriteBits(m, f, w)
  {
    FitsInOnes(f.width, v);
    FitsInOnes(f.width, w);
    OverwriteBits(m[f.reg], f.lowest, f.width, v as Byte, w as Byte);
    assert WriteBits(WriteBits(m, f, v), f, w)[f.reg] == WriteBits(m, f, w)[f.reg];
  }

  /** `n` consecutive registers from `start`, as one auto-incrementing read returns them. */
  function Burst(m: RegisterMap, start: Addr, n: nat): (bytes: seq<Byte>)
    requires start + n <= 256
    ensures |bytes| == n
    ensures forall i :: 0 <= i < n ==> bytes[i] == m[start + i]
  {
    m[start..start + n]
  }
}
