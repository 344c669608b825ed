/**
 Decoding of measurement registers shared by both drivers: big-endian byte
 pairs, the six-byte gyroscope burst in X, Y, Z order, and the 16-bit two's
 complement reading that the sensor's output registers hold.
 */
module Samples {
  import opened Registers

  datatype Axes<T> = Axes(x: T, y: T, z: T)

  /** `hi << 8 | lo` for two register bytes. */
  function Be16(hi: Byte, lo: Byte): (v: nat)
    ensures v < 0x1_0000
    ensures v / 256 == hi as nat && v % 256 == lo as nat
  {
    hi as nat * 256 + lo as nat
  }

  /** The two register bytes that hold a 16-bit value, high byte first. */
  function Be16Bytes(v: nat): (bytes: seq<Byte>)
    requires v < 0x1_0000
    ensures |bytes| == 2 && Be16(bytes[0], bytes[1]) == v
  {
    ByteRoundTrip(v / 256);
    ByteRoundTrip(v % 256);
    [(v / 256) as Byte, (v % 256) as Byte]
  }

  /** The X, Y and Z readings in the first six bytes of a burst: pairs (0,1),
      (2,3) and (4,5). */
  function DecodeBurst(burst: seq<Byte>): (a: Axes<nat>)
    requires |burst| >= 6
    ensures a.x < 0x1_0000 && a.y < 0x1_0000 && a.z < 0x1_0000
    ensures a.x / 256 == burst[0] as nat && a.x % 256 == burst[1] as nat
    ensures a.y / 256 == burst[2] as nat && a.y % 256 == burst[3] as nat
    ensures a.z / 256 == burst[4] as nat && a.z % 256 == burst[5] as nat
  {
    Axes(Be16(burst[0], burst[1]), Be16(burst[2], burst[3]), Be16(burst[4], burst[5]))
  }

  function EncodeBurst(a: Axes<nat>): (burst: seq<Byte>)
    requires a.x < 0x1_0000 && a.y < 0x1_0000 && a.z < 0x1_0000
    ensures |burst| == 6
  {
    Be16Bytes(a.x) + Be16Bytes(a.y) + Be16Bytes(a.z)
  }

  lemma NatByteRoundTrip(x: Byte)
    ensures (x as nat) as Byte == x
  {}

  /** Decoding recovers every triple of 16-bit readings ... */
  lemma DecodeEncodeBurst(a: Axes<nat>)
    requires a.x < 0x1_0000 && a.y < 0x1_0000 && a.z < 0x1_0000
    ensures DecodeBurst(EncodeBurst(a)) == a
  {
    var burst := EncodeBurst(a);
    assert burst[0..2] == Be16Bytes(a.x);
    assert burst[2..4] == Be16Bytes(a.y);
    assert burst[4..6] == Be16Bytes(a.z);
  }

  /** ... and no two bursts decode alike: the decoding keeps every byte. */
  lemma EncodeDecodeBurst(burst: seq<Byte>)
    requires |burst| == 6
    ensures EncodeBurst(DecodeBurst(burst)) == burst
  {
    var a := DecodeBurst(burst);
    NatByteRoundTrip(burst[0]);
    NatByteRoundTrip(burst[1]);
    NatByteRoundTrip(burst[2]);
    NatByteRoundTrip(burst[3]);
    NatByteRoundTrip(burst[4]);
    NatByteRoundTrip(burst[5]);
    assert Be16Bytes(a.x) == burst[0..2];
    assert Be16Bytes(a.y) == burst[2..4];
    assert Be16Bytes(a.z) == burst[4..6];
  }

  /** The Python test `(v & 0x8000) == 0x8000` on a 16-bit reading. */
  predicate Bit15Set(v: nat)
    requires v < 0x1_0000
  {
    (v / 0x8000) % 2 == 1
  }

  /** The signed value of a 16-bit two's complement reading. */
  function TwosComplement(v: nat): (s: int)
    requires v < 0x1_0000
    ensures -0x8000 <= s < 0x8000
    ensures (v - s) % 0x1_0000 == 0
    ensures s < 0 <==> Bit15Set(v)
  {
    if Bit15Set(v) then v - 0x1_0000 else v
  }

  /** The 16-bit pattern of a signed value: the inverse of `TwosComplement`. */
  function Unsigned16(s: int): (v: nat)
    requires -0x8000 <= s < 0x8000
    ensures v < 0x1_0000
    ensures (v - s) % 0x1_0000 == 0
  {
    if s < 0 then s + 0x1_0000 else s
  }

  lemma TwosComplementRoundTrip(v: nat, s: int)
    requires v < 0x1_0000 && -0x8000 <= s < 0x8000
    ensures Unsigned16(TwosComplement(v)) == v
    ensures TwosComplement(Unsigned16(s)) == s
  {}

  /** A count divided by a sensitivity in LSB per unit: the rate it stands for. */
  function Scale(count: int, sensitivity: real): (rate: real)
    requires sensitivity > 0.0
    ensures rate * sensitivity == count as real
    ensures rate < 0.0 <==> count < 0
    ensures rate == 0.0 <==> count == 0
  {
    count as real / sensitivity
  }

  /** Each rate times the sensitivity gives back its axis's count. */
  predicate ScaledBy(rates: Axes<real>, counts: Axes<int>, sensitivity: real)
  {
    && rates.x * sensitivity == counts.x as real
    && rates.y * sensitivity == counts.y as real
    && rates.z * sensitivity == counts.z as real
  }

  /** Each rate has the sign of its axis's count. */
  predicate SameSigns(rates: Axes<real>, counts: Axes<int>)
  {
    && (rates.x < 0.0 <==> counts.x < 0)
    && (rates.y < 0.0 <==> counts.y < 0)
    && (rates.z < 0.0 <==> counts.z < 0)
  }

  /** Every axis's count divided by the sensitivity. */
  function ScaleAxes(counts: Axes<int>, sensitivity: real): (rates: Axes<real>)
    requires sensitivity > 0.0
    ensures ScaledBy(rates, counts, sensitivity)
    ensures SameSigns(rates, counts)
  {
    Axes(Scale(counts.x, sensitivity), Scale(counts.y, sensitivity), Scale(counts.z, sensitivity))
  }
}
