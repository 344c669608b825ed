/**
 The Sierra Lobo IAM-20380 driver (`sierralobo_iam20380.py`): a reset that
 puts the chip in low-power cycle mode, a chip-id check, raw and rotation
 readings scaled by a sensitivity chosen from a cached range code, and the
 sleep bit.

 The driver object is its register file plus the cached `_range` code, the
 only state the driver keeps itself. Register contents are inputs: the model
 does not simulate what the chip does in response to a soft reset.
 */
module SierraLobo {
  import opened Python
  import opened Registers
  import opened Layout
  import opened Samples

  /** `_WHO_AM_I`: the tuple of the two identities the comment names,
      IAM-20380 (0xB5) and IAM-20380HT (0xFD). */
  const WhoAmI: Value := Tuple([Int(0xB5), Int(0xFD)])

  /** The identities the chip-id check is evidently meant to accept. */
  const AcceptedChipIds: set<int> := {0xB5, 0xFD}

  const TempOffset := 0x0

  const Range250 := 0x0
  const Range500 := 0x1
  const Range1000 := 0x2
  const Range2000 := 0x3

  /** LSB per dps for each range, as the file declares them. */
  const Sens250: real := 313.0
  const Sens500: real := 65.5
  const Sens1000: real := 32.8
  const Sens2000: real := 16.4

  /** The full-scale rate of each range code, in dps. */
  const FullScaleDps: seq<int> := [250, 500, 1000, 2000]

  /** The largest positive reading a 16-bit two's complement register holds. */
  const MaxCount := 0x7FFF

  datatype Gyro = Gyro(regs: RegisterMap, range: int)

  /** `reset`: soft-reset bit, cached range 250 dps, divider 255, filter
      bypass 0, averaging code 3 and cycle mode on. The full-scale field and
      the sleep bit are never written. */
  function Reset(m: RegisterMap): (g: Gyro)
    ensures ReadFlag(g.regs, RstBit)
    ensures g.range == Range250
    ensures g.regs[SmplrtDivReg] == 255
    ensures ReadBits(g.regs, FchoiceB) == 0
    ensures ReadBits(g.regs, GavgCfg) == 3
    ensures ReadFlag(g.regs, GyroCycle)
    ensures ReadBits(g.regs, FsSel) == ReadBits(m, FsSel)
    ensures ReadFlag(g.regs, SleepBit) == ReadFlag(m, SleepBit)
    ensures forall a: Addr :: a != PwrMgmt1Reg && a != SmplrtDivReg && a != GyroConfigReg && a != LpModeCfgReg ==>
      g.regs[a] == m[a]
    ensures forall i: Byte :: i < 7 ==> (Bit(g.regs[PwrMgmt1Reg], i) <==> Bit(m[PwrMgmt1Reg], i))
    ensures forall i: Byte :: 2 <= i < 8 ==> (Bit(g.regs[GyroConfigReg], i) <==> Bit(m[GyroConfigReg], i))
    ensures forall i: Byte :: i < 4 ==> (Bit(g.regs[LpModeCfgReg], i) <==> Bit(m[LpModeCfgReg], i))
  {
    var m1 := WriteFlag(m, RstBit, true);
    var m2 := WriteByte(m1, SmplrtDivReg, 255);
    var m3 := WriteBits(m2, FchoiceB, 0);
    var m4 := WriteBits(m3, GavgCfg, 3);
    var m5 := WriteFlag(m4, GyroCycle, true);
    Gyro(m5, Range250)
  }

  /** The averaging code 3 that `reset` writes means 2^3 = 8 averages, and the
      divider 255 gives the 3.9 Hz the reset documentation names for
      1 kHz / (1 + divider). */
  lemma ResetMatchesItsDocumentation(m: RegisterMap)
    ensures Power2(ReadBits(Reset(m).regs, GavgCfg)) == 8
    ensures 3.9 < 1000.0 / (1.0 + Reset(m).regs[SmplrtDivReg] as real) < 3.91
  {}

  /** The chip id as `_chip_id` reads it: one unsigned byte, which as an
      integer never equals the tuple `_WHO_AM_I`. */
  function ChipId(m: RegisterMap): (id: int)
    ensures 0 <= id < 256 && m[WhoAmIReg] as int == id
    ensures Int(id) != WhoAmI
  {
    m[WhoAmIReg] as int
  }

  /** `__init__` as written: reset, then `self._chip_id != _WHO_AM_I`. That
      compares an integer with a tuple, which is never equal, so the error
      branch always runs; its message formats the tuple with `#x`, which under
      CPython's formatting rules raises TypeError before the RuntimeError is
      built. No handle is ever returned. */
  function Construct(m: RegisterMap): (c: Construction<Gyro>)
    ensures c.Failed? && c.error == TypeError
    ensures c.regs == Reset(m).regs
  {
    var g := Reset(m);
    if Int(ChipId(g.regs)) != WhoAmI then Failed(g.regs, TypeError) else Built(g)
  }

  /** `__init__` as evidently intended: succeed exactly when the chip id is one
      of the two accepted identities. Reset does not touch the id register, so
      the outcome depends on the id the chip held before. */
  function ConstructIntended(m: RegisterMap): (c: Construction<Gyro>)
    ensures c.Built? <==> m[WhoAmIReg] == 0xB5 || m[WhoAmIReg] == 0xFD
    ensures c.Built? ==> c.device == Reset(m)
    ensures c.Failed? ==> c.error == RuntimeError && c.regs == Reset(m).regs
  {
    var g := Reset(m);
    if ChipId(g.regs) in AcceptedChipIds then Built(g) else Failed(g.regs, RuntimeError)
  }

  /** `raw`: one six-byte burst from GYRO_XOUT_H, decoded as X, Y, Z. */
  function ReadRaw(m: RegisterMap): (a: Axes<nat>)
    ensures a.x < 0x1_0000 && a.y < 0x1_0000 && a.z < 0x1_0000
    ensures a.x / 256 == m[GyroXoutHReg] as nat && a.x % 256 == m[GyroXoutHReg + 1] as nat
    ensures a.y / 256 == m[GyroXoutHReg + 2] as nat && a.y % 256 == m[GyroXoutHReg + 3] as nat
    ensures a.z / 256 == m[GyroXoutHReg + 4] as nat && a.z % 256 == m[GyroXoutHReg + 5] as nat
  {
    DecodeBurst(Burst(m, GyroXoutHReg, 6))
  }

  /** The sign correction `rotation` applies to each axis: a reading with bit
      15 set has 0xFFFF subtracted. The result lies in [-32767, 32767] and is
      one more than the two's complement value for every negative reading. */
  function SignCorrect(v: nat): (s: int)
    requires v < 0x1_0000
    ensures -0x7FFF <= s <= 0x7FFF
    ensures !Bit15Set(v) ==> s == v
    ensures Bit15Set(v) ==> s <= 0 && s == TwosComplement(v) + 1
  {
    if Bit15Set(v) then v - 0xFFFF else v
  }

  /** The readings 0x8000 and 0xFFFF show the correction is one off: the most
      negative reading comes out as -32767, and -1 comes out as 0, the same as
      a zero reading. */
  lemma SignCorrectIsOffByOne()
    ensures SignCorrect(0x8000) == -0x7FFF && TwosComplement(0x8000) == -0x8000
    ensures SignCorrect(0xFFFF) == 0 == SignCorrect(0x0000)
    ensures TwosComplement(0xFFFF) == -1
  {}

  /** The corrected counts of all three axes. */
  function CorrectAxes(raw: Axes<nat>): (c: Axes<int>)
    requires raw.x < 0x1_0000 && raw.y < 0x1_0000 && raw.z < 0x1_0000
    ensures -0x7FFF <= c.x <= 0x7FFF && -0x7FFF <= c.y <= 0x7FFF && -0x7FFF <= c.z <= 0x7FFF
    ensures (c.x < 0 ==> Bit15Set(raw.x)) && (c.y < 0 ==> Bit15Set(raw.y)) && (c.z < 0 ==> Bit15Set(raw.z))
  {
    Axes(SignCorrect(raw.x), SignCorrect(raw.y), SignCorrect(raw.z))
  }

  /** Each corrected count depends on its own axis's reading only. */
  lemma CorrectionIsPerAxis(a: Axes<nat>, b: Axes<nat>)
    requires a.x < 0x1_0000 && a.y < 0x1_0000 && a.z < 0x1_0000
    requires b.x < 0x1_0000 && b.y < 0x1_0000 && b.z < 0x1_0000
    ensures a.x == b.x ==> CorrectAxes(a).x == CorrectAxes(b).x
    ensures a.y == b.y ==> CorrectAxes(a).y == CorrectAxes(b).y
    ensures a.z == b.z ==> CorrectAxes(a).z == CorrectAxes(b).z
  {}

  /** `sensitivity`: the constant for the cached range code; a code outside
      0..3 matches no branch and the property returns None. */
  function Sensitivity(range: int): (s: Option<real>)
    ensures s.Some? <==> 0 <= range <= 3
    ensures s.Some? ==> s.value > 0.0
  {
    if range == Range250 then Some(Sens250)
    else if range == Range500 then Some(Sens500)
    else if range == Range1000 then Some(Sens1000)
    else if range == Range2000 then Some(Sens2000)
    else None
  }

  /** Sensitivity falls strictly as the range code rises. */
  lemma SensitivityStrictlyDecreasing(i: int, j: int)
    requires 0 <= i < j <= 3
    ensures Sensitivity(i).value > Sensitivity(j).value
  {}

  /** The 250 dps constant 313 does not fit the 16-bit reading: at 313 LSB/dps a
      full-scale 250 dps rate needs 78250 counts, more than twice the largest
      reading, while every other range's full scale fits the reading to within
      0.1%. The largest reading at code 0 stands for under 105 dps. */
  lemma Sensitivity250DoesNotFitReading()
    ensures FullScaleDps[0] as real * Sensitivity(Range250).value > 2.0 * MaxCount as real
    ensures MaxCount as real / Sensitivity(Range250).value < 105.0
    ensures forall k :: 1 <= k <= 3 ==>
      32750.0 <= FullScaleDps[k] as real * Sensitivity(k).value <= 32800.0
  {}

  /** The sensitivity table with the 250 dps constant the other ranges imply
      (131 LSB/dps, as the other driver of this chip declares it). */
  function SensitivityCorrected(range: int): (s: Option<real>)
    ensures s.Some? <==> 0 <= range <= 3
    ensures s.Some? ==> 32750.0 <= FullScaleDps[range] as real * s.value <= 32800.0
    ensures range != Range250 ==> s == Sensitivity(range)
  {
    if range == Range250 then Some(131.0) else Sensitivity(range)
  }

  /** `rotation` up to the float division: corrected counts divided by the
      sensitivity of the cached range. With a range code outside 0..3 the
      sensitivity is None and the division raises TypeError. */
  function Rotation(g: Gyro): (r: Result<Axes<real>>)
    ensures r.Ok? <==> 0 <= g.range <= 3
    ensures r.Raised? ==> r.error == TypeError
    ensures r.Ok? ==> ScaledBy(r.value, CorrectAxes(ReadRaw(g.regs)), Sensitivity(g.range).value)
    ensures r.Ok? ==> SameSigns(r.value, CorrectAxes(ReadRaw(g.regs)))
  {
    match Sensitivity(g.range)
    case None => Raised(TypeError)
    case Some(s) => Ok(ScaleAxes(CorrectAxes(ReadRaw(g.regs)), s))
  }

  /** The three readings as two's complement counts. */
  function SignedAxes(raw: Axes<nat>): (c: Axes<int>)
    requires raw.x < 0x1_0000 && raw.y < 0x1_0000 && raw.z < 0x1_0000
    ensures c.x < 0 <==> Bit15Set(raw.x)
    ensures c.y < 0 <==> Bit15Set(raw.y)
    ensures c.z < 0 <==> Bit15Set(raw.z)
  {
    Axes(TwosComplement(raw.x), TwosComplement(raw.y), TwosComplement(raw.z))
  }

  /** `rotation` with both corrections: two's complement counts and the 131
      LSB/dps constant. A rate is negative exactly when its reading has bit 15
      set. */
  function RotationIntended(g: Gyro): (r: Result<Axes<real>>)
    ensures r.Ok? <==> 0 <= g.range <= 3
    ensures r.Raised? ==> r.error == TypeError
    ensures r.Ok? ==> ScaledBy(r.value, SignedAxes(ReadRaw(g.regs)), SensitivityCorrected(g.range).value)
    ensures r.Ok? ==>
      var raw := ReadRaw(g.regs);
      (r.value.x < 0.0 <==> Bit15Set(raw.x)) && (r.value.y < 0.0 <==> Bit15Set(raw.y)) && (r.value.z < 0.0 <==> Bit15Set(raw.z))
  {
    match SensitivityCorrected(g.range)
    case None => Raised(TypeError)
    case Some(s) => Ok(ScaleAxes(SignedAxes(ReadRaw(g.regs)), s))
  }

  /** `temperature`: the unsigned big-endian count from TEMP_OUT_H, less the
      zero offset, over 326.8, plus 25. The count is never sign corrected, so
      the result is never below 25 degrees. */
  function Temperature(m: RegisterMap): (celsius: real)
    ensures celsius >= 25.0
    ensures (celsius - 25.0) * 326.8 == (Be16(m[TempOutHReg], m[TempOutHReg + 1]) - TempOffset) as real
  {
    var burst := Burst(m, TempOutHReg, 2);
    (Be16(burst[0], burst[1]) - TempOffset) as real / 326.8 + 25.0
  }

  /** The `sleep` getter: bit 6 of PWR_MGMT_1. */
  function Sleep(g: Gyro): (asleep: bool)
    ensures asleep <==> Bit(g.regs[PwrMgmt1Reg], 6)
  {
    ReadFlag(g.regs, SleepBit)
  }

  /** The `sleep` setter: only bit 6 of PWR_MGMT_1 changes. */
  function SetSleep(g: Gyro, b: bool): (r: Gyro)
    ensures Sleep(r) == b
    ensures r.range == g.range
    ensures forall a: Addr :: a != PwrMgmt1Reg ==> r.regs[a] == g.regs[a]
    ensures forall i: Byte :: i < 8 && i != 6 ==> (Bit(r.regs[PwrMgmt1Reg], i) <==> Bit(g.regs[PwrMgmt1Reg], i))
  {
    g.(regs := WriteFlag(g.regs, SleepBit, b))
  }

  /** Setting sleep to the value it already has changes nothing, and a second
      setting overrides the first. */
  lemma SleepSetterIdempotent(g: Gyro, b: bool, c: bool)
    ensures SetSleep(g, Sleep(g)) == g
    ensures SetSleep(SetSleep(g, b), c) == SetSleep(g, c)
  {
    WriteBackIsIdentity(g.regs, SleepBit);
    WriteBitsOverwrites(g.regs, SleepBit, if b then 1 else 0, if c then 1 else 0);
  }
}
