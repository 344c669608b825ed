/**
 The second IAM-20380 driver (`iam20380.py`): table-driven setters and getters
 for full scale, sensitivity, low-pass filter, sample-rate divider and
 averaging, a reset that configures them in turn, and a rotation reading with
 a centre-offset correction.

 This driver keeps no state of its own: every getter reads the registers, so
 the driver object is its register file. Setters validate their argument
 before writing; an exception raised part-way through `reset` leaves the
 writes made before it on the chip, which is why operations return a `Step`.

 The three tables open with a triple-quoted string that has no comma after
 it, which Python does not accept; they are modelled by their numeric
 entries, indexed from zero.
 */
module Iam20380 {
  import opened Python
  import opened Registers
  import opened Layout
  import opened Samples

  const ChipIdValue := 0xB5

  /** `_IAM20380_sens`: LSB per dps for each full-scale code. */
  const SensTable: seq<real> := [131.0, 65.5, 32.8, 16.4]
  /** `_IAM20380_fs`: full scale in dps for each full-scale code. */
  const FsTable: seq<int> := [250, 500, 1000, 2000]
  /** `_IAM20380_avgs`: number of averages for each averaging code. */
  const AvgsTable: seq<int> := [1, 2, 4, 8, 16, 32, 64, 128]

  /** The counts are centred by subtracting `1 << 15`. */
  const CentreOffset := 0x8000

  /** A setting of the averaging count the chip can hold: a power of two up to 128. */
  predicate PowerOfTwoUpTo128(v: int)
  {
    exists k: nat :: k < 8 && Power2(k) == v
  }

  /** Entry `k` of the averaging table is 2^k, the count the code `k` selects. */
  lemma AvgsTableIsPowersOfTwo()
    ensures forall k :: 0 <= k < 8 ==> AvgsTable[k] == Power2(k)
  {
    forall k | 0 <= k < 8
      ensures AvgsTable[k] == Power2(k)
    {
      Pow2IsPower2(k);
      if k < 4 {
        assert k == 0 || k == 1 || k == 2 || k == 3;
      } else {
        assert k == 4 || k == 5 || k == 6 || k == 7;
      }
    }
  }

  lemma AvgsTableHoldsThePowersOfTwo(v: int)
    ensures v in AvgsTable <==> PowerOfTwoUpTo128(v)
  {
    AvgsTableIsPowersOfTwo();
    if v in AvgsTable {
      var k := IndexOf(AvgsTable, v);
      assert Power2(k) == v;
    }
  }

  // ---------------------------------------------------------------- fs / sens

  /** The `fs` getter: the full scale the FS_SEL code stands for. */
  function Fs(m: RegisterMap): (dps: int)
    ensures dps in FsTable
  {
    FsTable[ReadBits(m, FsSel)]
  }

  /** The `fs` setter: accepts exactly 250, 500, 1000 and 2000, stores the
      table index in FS_SEL and nothing else; any other value raises
      ValueError before any write. */
  function SetFs(m: RegisterMap, v: int): (s: Step)
    ensures s.raised.None? <==> v in FsTable
    ensures s.raised.Some? ==> s.raised == Some(ValueError) && s.regs == m
    ensures s.raised.None? ==> Fs(s.regs) == v && OnlyFieldChanged(m, s.regs, FsSel)
    ensures s.raised.None? ==> forall g: BitField :: g.DisjointFrom(FsSel) ==> ReadBits(s.regs, g) == ReadBits(m, g)
  {
    if v !in FsTable then Step(m, Some(ValueError))
    else Step(WriteBits(m, FsSel, IndexOf(FsTable, v)), None)
  }

  /** The `sens` property: the constant for the code in FS_SEL, read from the
      register and not from any cache. Each constant times its full scale is
      within 0.1% of 2^15, the size of the signed 16-bit reading. */
  function Sens(m: RegisterMap): (lsbPerDps: real)
    ensures lsbPerDps > 0.0
    ensures 32750.0 <= Fs(m) as real * lsbPerDps <= 32800.0
  {
    SensTable[ReadBits(m, FsSel)]
  }

  /** After `fs = v`, `sens` is the constant paired with `v`. */
  lemma SensFollowsFs(m: RegisterMap, v: int)
    requires v in FsTable
    ensures v == 250 ==> Sens(SetFs(m, v).regs) == 131.0
    ensures v == 500 ==> Sens(SetFs(m, v).regs) == 65.5
    ensures v == 1000 ==> Sens(SetFs(m, v).regs) == 32.8
    ensures v == 2000 ==> Sens(SetFs(m, v).regs) == 16.4
  {}

  /** Setting `fs` to the value it reads changes nothing. */
  lemma FsSetterFixesCurrentValue(m: RegisterMap)
    ensures SetFs(m, Fs(m)) == Step(m, None)
  {
    WriteBackIsIdentity(m, FsSel);
  }

  // ---------------------------------------------------------------- dlpf

  /** The `dlpf` getter. */
  function Dlpf(m: RegisterMap): (code: nat)
    ensures code < 8
  {
    ReadBits(m, DlpfCfg)
  }

  /** The setter's test `value <= 1 | 6 <= value`. `|` binds tighter than the
      comparisons, so this is the chained `value <= 7 <= value`: true for 7 alone. */
  predicate DlpfRejects(v: int)
  {
    var bound := (1 as bv8 | 6 as bv8) as int;
    v <= bound && bound <= v
  }

  lemma DlpfRejectsOnlySeven(v: int)
    ensures DlpfRejects(v) <==> v == 7
  {}

  /** The `dlpf` setter as written: raises ValueError for 7 only and writes
      every other value. A value outside 0..7 reaches the register library
      wider than the field, which this model does not follow. */
  function SetDlpf(m: RegisterMap, v: int): (s: Step)
    ensures s.raised == Some(ValueError) <==> v == 7
    ensures s.raised.None? <==> 0 <= v < 7
    ensures s.raised.None? ==> Dlpf(s.regs) == v && OnlyFieldChanged(m, s.regs, DlpfCfg)
    ensures s.raised.Some? ==> s.regs == m
  {
    if DlpfRejects(v) then Step(m, Some(ValueError))
    else if 0 <= v < 8 then Step(WriteBits(m, DlpfCfg, v), None)
    else Step(m, Some(FieldOverflow))
  }

  /** Codes the check lets through although they are outside 1..6, the range the
      other driver's (commented-out) check allows. */
  lemma SetDlpfAcceptsOutOfRangeCodes(m: RegisterMap)
    ensures SetDlpf(m, 0).raised.None?
    ensures SetDlpf(m, 8).raised != Some(ValueError)
    ensures SetDlpf(m, -1).raised != Some(ValueError)
  {}

  /** The `dlpf` setter with the range check `1 <= value <= 6`, the range the
      other driver's (commented-out) setter checks. Reading the test as a
      logical `or`, `value <= 1 or 6 <= value`, cannot be the intent: it would
      reject the `dlpf = 6` that `reset` writes. */
  function SetDlpfIntended(m: RegisterMap, v: int): (s: Step)
    ensures s.raised.None? <==> 1 <= v <= 6
    ensures s.raised.Some? ==> s.raised == Some(ValueError) && s.regs == m
    ensures s.raised.None? ==> Dlpf(s.regs) == v && OnlyFieldChanged(m, s.regs, DlpfCfg)
  {
    if !(1 <= v <= 6) then Step(m, Some(ValueError))
    else Step(WriteBits(m, DlpfCfg, v), None)
  }

  // ---------------------------------------------------------------- smplrt_div

  /** The `smplrt_div` getter. */
  function SmplrtDiv(m: RegisterMap): (div: nat)
    ensures div < 256
  {
    m[SmplrtDivReg] as nat
  }

  /** The `smplrt_div` setter as written: the test is inverted and there is no
      write, so every value in 0..255 raises ValueError and every other value
      is silently ignored. The register never changes. */
  function SetSmplrtDiv(m: RegisterMap, v: int): (s: Step)
    ensures s.regs == m
    ensures s.raised.Some? <==> 0 <= v <= 255
    ensures s.raised.Some? ==> s.raised == Some(ValueError)
  {
    if 0 <= v <= 255 then Step(m, Some(ValueError)) else Step(m, None)
  }

  /** The `smplrt_div` setter as intended: reject what the register cannot hold,
      write the rest. */
  function SetSmplrtDivIntended(m: RegisterMap, v: int): (s: Step)
    ensures s.raised.None? <==> 0 <= v <= 255
    ensures s.raised.Some? ==> s.raised == Some(ValueError) && s.regs == m
    ensures s.raised.None? ==> SmplrtDiv(s.regs) == v
    ensures s.raised.None? ==> forall a: Addr :: a != SmplrtDivReg ==> s.regs[a] == m[a]
  {
    if !(0 <= v <= 255) then Step(m, Some(ValueError))
    else Step(WriteByte(m, SmplrtDivReg, v), None)
  }

  /** The `odr` property: 1000 over the divider register, a ZeroDivisionError
      when the divider is 0. */
  function Odr(m: RegisterMap): (r: Result<real>)
    ensures r.Ok? <==> SmplrtDiv(m) != 0
    ensures r.Raised? ==> r.error == ZeroDivisionError
    ensures r.Ok? ==> r.value * SmplrtDiv(m) as real == 1000.0 && r.value > 0.0
  {
    var div := SmplrtDiv(m);
    if div == 0 then Raised(ZeroDivisionError) else Ok(Scale(1000, div as real))
  }

  // ---------------------------------------------------------------- avgs

  /** The `avgs` getter: the averaging count, 2 to the power of the stored code. */
  function Avgs(m: RegisterMap): (count: int)
    ensures count == Power2(ReadBits(m, GavgCfg))
    ensures PowerOfTwoUpTo128(count)
  {
    AvgsTableIsPowersOfTwo();
    AvgsTable[ReadBits(m, GavgCfg)]
  }

  /** The `avgs` setter: accepts exactly the powers of two 1..128, stores their
      log2 in G_AVGCFG and nothing else; any other value raises ValueError
      before any write. */
  function SetAvgs(m: RegisterMap, v: int): (s: Step)
    ensures s.raised.None? <==> PowerOfTwoUpTo128(v)
    ensures s.raised.Some? ==> s.raised == Some(ValueError) && s.regs == m
    ensures s.raised.None? ==> Avgs(s.regs) == v && Power2(ReadBits(s.regs, GavgCfg)) == v
    ensures s.raised.None? ==> OnlyFieldChanged(m, s.regs, GavgCfg)
  {
    AvgsTableHoldsThePowersOfTwo(v);
    if v !in AvgsTable then Step(m, Some(ValueError))
    else Step(WriteBits(m, GavgCfg, IndexOf(AvgsTable, v)), None)
  }

  /** 128 averages are stored as code 7, the largest the field holds. */
  lemma Avgs128IsCodeSeven(m: RegisterMap)
    ensures ReadBits(SetAvgs(m, 128).regs, GavgCfg) == 7
  {
    AvgsTableIsPowersOfTwo();
  }

  // ---------------------------------------------------------------- reset / construction

  /** `reset` as written: reset bit, then the whole PWR_MGMT_1 byte set to 0x01,
      which clears bit 7 (reset) and bit 6 (the bit the other driver calls
      sleep; this driver declares no field for it), filter bypass 0, `fs = 250`,
      `dlpf = 6`; then `smplrt_div = 255` raises ValueError, so the divider is
      not written and `avgs = 128` is never reached. */
  function Reset(m: RegisterMap): (s: Step)
    ensures s.raised == Some(ValueError)
    ensures s.regs[PwrMgmt1Reg] == 0x01
    ensures !ReadFlag(s.regs, RstBit) && !ReadFlag(s.regs, SleepBit)
    ensures ReadBits(s.regs, FchoiceB) == 0
    ensures Fs(s.regs) == 250 && Sens(s.regs) == 131.0
    ensures Dlpf(s.regs) == 6
    ensures SmplrtDiv(s.regs) == SmplrtDiv(m)
    ensures ReadBits(s.regs, GavgCfg) == ReadBits(m, GavgCfg)
    ensures forall a: Addr :: a != PwrMgmt1Reg && a != GyroConfigReg && a != ConfigReg ==> s.regs[a] == m[a]
    ensures forall i: Byte :: (i == 2 || 5 <= i < 8) ==> (Bit(s.regs[GyroConfigReg], i) <==> Bit(m[GyroConfigReg], i))
    ensures forall i: Byte :: 3 <= i < 8 ==> (Bit(s.regs[ConfigReg], i) <==> Bit(m[ConfigReg], i))
  {
    var m1 := WriteFlag(m, RstBit, true);
    var m2 := WriteByte(m1, PwrMgmt1Reg, 0x01);
    var m3 := WriteBits(m2, FchoiceB, 0x00);
    var s4 := SetFs(m3, 250);
    if s4.raised.Some? then s4 else
    var s5 := SetDlpf(s4.regs, 6);
    if s5.raised.Some? then s5 else
    var s6 := SetSmplrtDiv(s5.regs, 255);
    if s6.raised.Some? then s6 else
    SetAvgs(s6.regs, 128)
  }

  /** `reset` with the intended divider and filter setters: it completes and
      leaves the documented default configuration. */
  function ResetIntended(m: RegisterMap): (s: Step)
    ensures s.raised == None
    ensures s.regs[PwrMgmt1Reg] == 0x01
    ensures ReadBits(s.regs, FchoiceB) == 0
    ensures Fs(s.regs) == 250 && Sens(s.regs) == 131.0
    ensures Dlpf(s.regs) == 6
    ensures SmplrtDiv(s.regs) == 255
    ensures Avgs(s.regs) == 128
    ensures s.regs[WhoAmIReg] == m[WhoAmIReg]
  {
    var m1 := WriteFlag(m, RstBit, true);
    var m2 := WriteByte(m1, PwrMgmt1Reg, 0x01);
    var m3 := WriteBits(m2, FchoiceB, 0x00);
    var s4 := SetFs(m3, 250);
    if s4.raised.Some? then s4 else
    var s5 := SetDlpfIntended(s4.regs, 6);
    if s5.raised.Some? then s5 else
    var s6 := SetSmplrtDivIntended(s5.regs, 255);
    if s6.raised.Some? then s6 else
    SetAvgs(s6.regs, 128)
  }

  /** `__init__` as written: a chip id other than 0xB5 raises RuntimeError before
      any write; with 0xB5 the reset raises ValueError. No handle is ever
      returned. */
  function Construct(m: RegisterMap): (c: Construction<RegisterMap>)
    ensures c.Failed?
    ensures m[WhoAmIReg] != 0xB5 ==> c == Failed(m, RuntimeError)
    ensures m[WhoAmIReg] == 0xB5 ==> c == Failed(Reset(m).regs, ValueError)
  {
    if m[WhoAmIReg] as int != ChipIdValue then Failed(m, RuntimeError)
    else
      var s := Reset(m);
      if s.raised.Some? then Failed(s.regs, s.raised.value) else Built(s.regs)
  }

  /** `__init__` with the intended reset: a handle exactly when the chip id is
      0xB5, configured with the documented defaults. */
  function ConstructIntended(m: RegisterMap): (c: Construction<RegisterMap>)
    ensures c.Built? <==> m[WhoAmIReg] == 0xB5
    ensures c.Failed? ==> c == Failed(m, RuntimeError)
    ensures c.Built? ==> Fs(c.device) == 250 && SmplrtDiv(c.device) == 255 && Avgs(c.device) == 128 && Dlpf(c.device) == 6
  {
    if m[WhoAmIReg] as int != ChipIdValue then Failed(m, RuntimeError)
    else Built(ResetIntended(m).regs)
  }

  // ---------------------------------------------------------------- measurements

  /** The integer part of `rotation` as written: each big-endian reading of the
      burst at GYRO_XOUT_H less `1 << 15`. A reading is read as offset binary,
      so each count lies in [-32768, 32767] and a zero reading gives -32768. */
  function CentredCounts(m: RegisterMap): (c: Axes<int>)
    ensures -0x8000 <= c.x < 0x8000 && -0x8000 <= c.y < 0x8000 && -0x8000 <= c.z < 0x8000
    ensures c.x + CentreOffset == Be16(m[GyroXoutHReg], m[GyroXoutHReg + 1])
    ensures c.y + CentreOffset == Be16(m[GyroXoutHReg + 2], m[GyroXoutHReg + 3])
    ensures c.z + CentreOffset == Be16(m[GyroXoutHReg + 4], m[GyroXoutHReg + 5])
  {
    var raw := DecodeBurst(Burst(m, GyroXoutHReg, 6));
    Axes(raw.x - CentreOffset, raw.y - CentreOffset, raw.z - CentreOffset)
  }

  /** `rotation` as written scales the centred counts by `sens` but has no
      `return` statement, so the property is always None. */
  function Rotation(m: RegisterMap): (r: Option<Axes<real>>)
    ensures r.None?
  {
    None
  }

  /** A zero reading (bytes 0x00, 0x00), which a two's complement register uses
      for no rotation, centres to the most negative count, the full negative
      scale; the two's complement reading of the same bytes is 0. */
  lemma CentringMisreadsZero(m: RegisterMap)
    requires m[GyroXoutHReg] == 0 && m[GyroXoutHReg + 1] == 0
    ensures CentredCounts(m).x == -0x8000
    ensures TwosComplement(Be16(m[GyroXoutHReg], m[GyroXoutHReg + 1])) == 0
  {}

  /** `rotation` as evidently intended: two's complement counts over `sens`,
      returned. A rate is negative exactly when its reading has bit 15 set. */
  function RotationIntended(m: RegisterMap): (r: Axes<real>)
    ensures
      var raw := DecodeBurst(Burst(m, GyroXoutHReg, 6));
      && ScaledBy(r, Axes(TwosComplement(raw.x), TwosComplement(raw.y), TwosComplement(raw.z)), Sens(m))
      && (r.x < 0.0 <==> Bit15Set(raw.x)) && (r.y < 0.0 <==> Bit15Set(raw.y)) && (r.z < 0.0 <==> Bit15Set(raw.z))
  {
    var raw := DecodeBurst(Burst(m, GyroXoutHReg, 6));
    ScaleAxes(Axes(TwosComplement(raw.x), TwosComplement(raw.y), TwosComplement(raw.z)), Sens(m))
  }

  /** `temperature`: the unsigned big-endian count at TEMP_OUT_H over 326.8,
      plus 25; never below 25 degrees, since the count is not sign corrected. */
  function Temperature(m: RegisterMap): (celsius: real)
    ensures celsius >= 25.0
    ensures (celsius - 25.0) * 326.8 == Be16(m[TempOutHReg], m[TempOutHReg + 1]) as real
  {
    var burst := Burst(m, TempOutHReg, 6);
    Be16(burst[0], burst[1]) as real / 326.8 + 25.0
  }
}
