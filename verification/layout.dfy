/**
 The IAM-20380 register addresses and bit fields that both drivers declare
 identically: the same eight addresses and, where both declare a field, the
 same (register, lowest bit, width).
 */
module Layout {
  import opened Registers

  const SmplrtDivReg: Addr := 0x19
  const ConfigReg: Addr := 0x1A
  const GyroConfigReg: Addr := 0x1B
  const LpModeCfgReg: Addr := 0x1E
  const TempOutHReg: Addr := 0x41
  const GyroXoutHReg: Addr := 0x43
  const PwrMgmt1Reg: Addr := 0x6B
  const WhoAmIReg: Addr := 0x75

  /** Soft reset: bit 7 of PWR_MGMT_1. */
  const RstBit: BitField := Field(PwrMgmt1Reg, 7, 1)
  /** Sleep: bit 6 of PWR_MGMT_1. */
  const SleepBit: BitField := Field(PwrMgmt1Reg, 6, 1)
  /** Full-scale select: bits [4:3] of GYRO_CONFIG. */
  const FsSel: BitField := Field(GyroConfigReg, 3, 2)
  /** Filter bypass: bits [1:0] of GYRO_CONFIG. */
  const FchoiceB: BitField := Field(GyroConfigReg, 0, 2)
  /** Low-pass filter code: bits [2:0] of CONFIG. */
  const DlpfCfg: BitField := Field(ConfigReg, 0, 3)
  /** Averaging code (log2 of the count): bits [6:4] of LP_MODE_CFG. */
  const GavgCfg: BitField := Field(LpModeCfgReg, 4, 3)
  /** Low-power gyro cycle mode: bit 7 of LP_MODE_CFG. */
  const GyroCycle: BitField := Field(LpModeCfgReg, 7, 1)

  /** The fields that share a register share no bit, so writing one never
      changes the other. */
  lemma SharedRegisterFieldsAreDisjoint()
    ensures FsSel.DisjointFrom(FchoiceB) && FchoiceB.DisjointFrom(FsSel)
    ensures GavgCfg.DisjointFrom(GyroCycle) && GyroCycle.DisjointFrom(GavgCfg)
    ensures RstBit.DisjointFrom(SleepBit) && SleepBit.DisjointFrom(RstBit)
  {}

  /** Writing the averaging code never disturbs the cycle-mode bit beside it, and
      the other way round; likewise for the two GYRO_CONFIG fields and the two
      PWR_MGMT_1 bits. */
  lemma NeighbouringFieldsAreIsolated(m: RegisterMap, code: nat, b: bool)
    requires code < 8
    ensures ReadFlag(WriteBits(m, GavgCfg, code), GyroCycle) == ReadFlag(m, GyroCycle)
    ensures ReadBits(WriteFlag(m, GyroCycle, b), GavgCfg) == ReadBits(m, GavgCfg)
    ensures code < 4 ==> ReadBits(WriteBits(m, FsSel, code), FchoiceB) == ReadBits(m, FchoiceB)
    ensures code < 4 ==> ReadBits(WriteBits(m, FchoiceB, code), FsSel) == ReadBits(m, FsSel)
    ensures ReadFlag(WriteFlag(m, RstBit, b), SleepBit) == ReadFlag(m, SleepBit)
    ensures ReadFlag(WriteFlag(m, SleepBit, b), RstBit) == ReadFlag(m, RstBit)
  {}
}
