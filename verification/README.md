# IAM-20380 gyroscope drivers in Dafny

This project models the pure logic of two CircuitPython drivers for the TDK
IAM-20380 3-axis gyroscope and proves properties of it. The two drivers are
`sierralobo_iam20380.py` (module `SierraLobo`) and `iam20380.py` (module
`Iam20380`). They are kept as separate modules because their constants,
checks and corrections differ. Both sit on one shared register model:

- `Python`: the exceptions the drivers raise, `Option`/`Result`, the integer
  and tuple values of the chip-id comparison, and `list.index`.
- `Registers`: the register file is a 256-entry sequence of bytes indexed by
  address.
  - A bit field `(reg, lowest, width)` is read by shift-and-mask. It is
    written by a read-modify-write of its byte; these are the `RWBits`/`RWBit`
    descriptors.
  - A whole-byte register (`UnaryStruct`) is written without being read first.
  - A burst read returns consecutive registers.
  - `Step` pairs the register state after an operation with the exception
    it raised, if any. Writes made before an exception stay on the chip.
- `Layout`: the register addresses and bit fields. The two files use the
  same eight addresses and, where both declare a field, the same (register,
  lowest bit, width). `iam20380.py` declares no sleep or cycle-mode field.
- `Samples`: big-endian byte pairs, the six-byte X/Y/Z burst, and 16-bit two's
  complement. It also holds the division of a count by a sensitivity.

Register contents are inputs. The model does not simulate how the chip
responds to a soft reset or to a who-am-i read. Floating-point values are
modelled as exact `real`s, so the model idealises IEEE floats. The 32.8 in
a sensitivity table is the exact decimal 32.8.

The model follows the code where it departs from what the drivers are
evidently meant to do:

- Sierra Lobo `__init__` never returns a handle (see Findings). Its
  `sensitivity` comes from the cached `_range`, which only `reset` sets.
- In the `iam20380.py` driver, `__init__` checks the chip id (0xB5 only)
  before resetting. `odr` is `1000 / divider`, not `1000 / (1 + divider)`, and
  a zero divider raises `ZeroDivisionError`. `sens` reads FS_SEL every time.
- In the same driver, the three tables start with a triple-quoted string and
  no comma after it, which Python rejects. They are modelled as their numeric
  entries, indexed from zero.

## Model

| member | source | states |
|---|---|---|
| Python.IndexOf | iam20380.py:137 | `list.index`: the first position holding the value, so the table entry there is the value |
| Registers.ReadBits | sierralobo_iam20380.py:78-82 | a field read is always below 2^width |
| Registers.WriteBits | sierralobo_iam20380.py:78-82 | a field write stores `v` (reading the field back gives `v`). Every other register and every bit of the same register outside the field is unchanged. Every field disjoint from it reads the same as before |
| Registers.ReadFlag | sierralobo_iam20380.py:175-177 | an `RWBit` read is true exactly when the descriptor's bit of its register is set |
| Registers.WriteFlag | sierralobo_iam20380.py:84-85 | an `RWBit` assignment reads back as the boolean written, and changes nothing outside its bit |
| Registers.WriteByte | sierralobo_iam20380.py:83 | a `UnaryStruct` assignment stores the whole byte and leaves every other register unchanged |
| Registers.WriteBackIsIdentity | sierralobo_iam20380.py:78-85 | writing a field with the value just read from it leaves the register file unchanged |
| Registers.WriteBitsOverwrites | sierralobo_iam20380.py:78-85 | a second write to a field overrides the first |
| Registers.Burst | sierralobo_iam20380.py:154-156 | a burst read of `n` bytes from `start` gives register `start + i` at position `i` |
| Layout.SharedRegisterFieldsAreDisjoint | sierralobo_iam20380.py:77-85 | FS_SEL and FCHOICE_B on 0x1B, G_AVGCFG and the cycle bit on 0x1E, and the reset and sleep bits on 0x6B share no bit |
| Layout.NeighbouringFieldsAreIsolated | sierralobo_iam20380.py:78-85 | writing any of those fields leaves its neighbour's value unchanged, for every value and every register state |
| Samples.Be16 | sierralobo_iam20380.py:157-159 | `hi << 8 \| lo` lies in 0..65535, with `hi` as its quotient by 256 and `lo` as its remainder |
| Samples.Be16Bytes | sierralobo_iam20380.py:157-159 | splitting a 16-bit value into two bytes and joining them with `Be16` gives the value back |
| Samples.DecodeBurst | sierralobo_iam20380.py:157-159 | X, Y, Z come from byte pairs (0,1), (2,3), (4,5), high byte first, each in 0..65535 |
| Samples.DecodeEncodeBurst | sierralobo_iam20380.py:153-160 | decoding the burst that encodes a triple of 16-bit readings gives the triple back |
| Samples.EncodeDecodeBurst | sierralobo_iam20380.py:153-160 | encoding a decoded six-byte burst gives the bytes back, so decoding loses nothing |
| Samples.TwosComplement | sierralobo_iam20380.py:132 | the signed value of a 16-bit reading: the unique value in [-32768, 32767] congruent to it mod 2^16, negative exactly when bit 15 is set |
| Samples.Unsigned16 | sierralobo_iam20380.py:132 | the 16-bit pattern of a signed value, congruent to it mod 2^16 |
| Samples.TwosComplementRoundTrip | sierralobo_iam20380.py:132-135 | `TwosComplement` and `Unsigned16` are inverse to each other in both directions |
| Samples.Scale | sierralobo_iam20380.py:145-149 | a count over a positive sensitivity: the rate times the sensitivity gives the count back, and the rate has the count's sign |
| Samples.ScaleAxes | sierralobo_iam20380.py:146-149 | the same for all three axes at once |
| SierraLobo.Reset | sierralobo_iam20380.py:95-111 | after `reset`: rst bit 1, SMPLRT_DIV 255, FCHOICE_B 0, G_AVGCFG 3, cycle bit 1, cached range 0. FS_SEL and the sleep bit keep their values. Only 0x19, 0x1B, 0x1E and 0x6B change, and only the written bits within them |
| SierraLobo.ResetMatchesItsDocumentation | sierralobo_iam20380.py:96-110 | the reset's averaging code means 8 averages, and its divider gives 1000/(1+255), about 3.9 Hz, as the docstring says |
| SierraLobo.Construct | sierralobo_iam20380.py:87-93 | construction as written always fails, whatever the chip id, after the reset's writes. The error is TypeError, from formatting a tuple with `#x` under CPython's rules |
| SierraLobo.ChipId | sierralobo_iam20380.py:90 | the `_chip_id` read is one unsigned byte from WHO_AM_I, and as an integer it is never equal to the tuple `_WHO_AM_I` |
| SierraLobo.ConstructIntended | sierralobo_iam20380.py:87-93 | with the intended check, construction succeeds exactly when the id is 0xB5 or 0xFD. It then returns the reset device; otherwise it raises RuntimeError |
| SierraLobo.ReadRaw | sierralobo_iam20380.py:152-160 | `raw`: X from registers 0x43/0x44, Y from 0x45/0x46, Z from 0x47/0x48, big-endian, each in 0..65535 |
| SierraLobo.SignCorrect | sierralobo_iam20380.py:132-143 | the per-axis correction keeps readings with bit 15 clear. Readings with bit 15 set become non-positive, one above their two's complement value. Results lie in [-32767, 32767] |
| SierraLobo.SignCorrectIsOffByOne | sierralobo_iam20380.py:133-135 | 0x8000 maps to -32767 rather than -32768, and 0xFFFF maps to 0, the same as 0x0000 |
| SierraLobo.CorrectAxes | sierralobo_iam20380.py:130-143 | the corrected counts lie in [-32767, 32767], and a negative count comes only from a reading with bit 15 set |
| SierraLobo.CorrectionIsPerAxis | sierralobo_iam20380.py:132-143 | each corrected axis depends only on its own reading |
| SierraLobo.Sensitivity | sierralobo_iam20380.py:162-173 | a positive constant for range codes 0..3, and None for any other code |
| SierraLobo.SensitivityStrictlyDecreasing | sierralobo_iam20380.py:53-56 | 313 > 65.5 > 32.8 > 16.4: sensitivity falls strictly as the code rises |
| SierraLobo.Sensitivity250DoesNotFitReading | sierralobo_iam20380.py:53-61 | 250 dps × 313 exceeds twice the largest reading, and 32767 counts are under 105 dps. For codes 1..3, full scale × sensitivity lies within [32750, 32800] |
| SierraLobo.SensitivityCorrected | sierralobo_iam20380.py:53 | with 131 for code 0, every code's full scale × sensitivity lies within [32750, 32800]. Codes 1..3 keep their constants |
| SierraLobo.Rotation | sierralobo_iam20380.py:125-150 | `rotation` raises TypeError exactly when the cached range has no sensitivity. Otherwise each rate times the sensitivity is that axis's corrected count, with the same sign |
| SierraLobo.SignedAxes | sierralobo_iam20380.py:132-143 | the two's complement counts of the three readings are negative exactly where bit 15 is set |
| SierraLobo.RotationIntended | sierralobo_iam20380.py:125-150 | the corrected rotation: each rate times the corrected sensitivity is the two's complement count, and a rate is negative exactly when its reading has bit 15 set |
| SierraLobo.Temperature | sierralobo_iam20380.py:113-123 | `(count - 0) / 326.8 + 25` from the unsigned count at 0x41/0x42, so the result is never below 25 |
| SierraLobo.Sleep | sierralobo_iam20380.py:175-177 | the `sleep` getter is bit 6 of PWR_MGMT_1 |
| SierraLobo.SetSleep | sierralobo_iam20380.py:179-181 | after `sleep = b` the getter reads `b`. Only bit 6 of 0x6B changes, and the cached range is kept |
| SierraLobo.SleepSetterIdempotent | sierralobo_iam20380.py:175-181 | setting sleep to its current value changes nothing, and a second setting overrides the first |
| Iam20380.AvgsTableIsPowersOfTwo | iam20380.py:51-63 | entry `k` of the averages table is 2^k, with 2^k defined recursively (1, then doubling) |
| Iam20380.AvgsTableHoldsThePowersOfTwo | iam20380.py:51-63 | a value is in the averages table exactly when it is 2^k for some k in 0..7, with 2^k defined recursively |
| Iam20380.Fs | iam20380.py:127-131 | the `fs` getter always yields one of 250, 500, 1000, 2000 |
| Iam20380.SetFs | iam20380.py:133-137 | the `fs` setter succeeds exactly for 250, 500, 1000 and 2000, and the getter then reads the value back; only FS_SEL changes. Any other value raises ValueError with no write |
| Iam20380.Sens | iam20380.py:139-143 | `sens` is positive, and times the current full scale it lies within [32750, 32800] |
| Iam20380.SensFollowsFs | iam20380.py:31-49 | after `fs = v`, `sens` is the constant paired with `v`: 131, 65.5, 32.8 or 16.4 |
| Iam20380.FsSetterFixesCurrentValue | iam20380.py:127-137 | setting `fs` to the value it reads succeeds and changes no register |
| Iam20380.Dlpf | iam20380.py:145-148 | the `dlpf` getter is a 3-bit code |
| Iam20380.DlpfRejectsOnlySeven | iam20380.py:152 | `value <= 1 \| 6 <= value` is the chained `value <= 7 <= value`, true for 7 alone |
| Iam20380.SetDlpf | iam20380.py:150-155 | the `dlpf` setter raises ValueError exactly for 7 and stores every code in 0..6, changing only DLPF_CFG |
| Iam20380.SetDlpfAcceptsOutOfRangeCodes | iam20380.py:152-155 | the check lets 0, 8 and -1 through |
| Iam20380.SetDlpfIntended | iam20380.py:150-155 | with a `1 <= value <= 6` check, the setter stores exactly the codes 1..6 and rejects the rest with no write. That range is the one the other driver's commented-out `dlpf` setter checks. A logical `or` reading of the test, `value <= 1 or 6 <= value`, would reject the `dlpf = 6` that `reset` itself writes, so it cannot be the intent |
| Iam20380.SmplrtDiv | iam20380.py:157-160 | the `smplrt_div` getter is a byte |
| Iam20380.SetSmplrtDiv | iam20380.py:162-165 | the setter never writes. It raises ValueError exactly for 0..255 and silently ignores every other value |
| Iam20380.SetSmplrtDivIntended | iam20380.py:162-165 | the intended setter stores exactly the values 0..255, changes no other register, and raises for the rest |
| Iam20380.Odr | iam20380.py:179-182 | `odr` raises ZeroDivisionError exactly when the divider is 0. Otherwise it is positive, and times the divider it gives 1000 |
| Iam20380.Avgs | iam20380.py:167-171 | the `avgs` getter is 2 to the power of the stored code, by the recursive definition of 2^k, so always a power of two up to 128 |
| Iam20380.SetAvgs | iam20380.py:173-177 | the `avgs` setter succeeds exactly for the powers of two 1..128 and stores their log2; the getter reads the value back, and only G_AVGCFG changes. Other values raise ValueError with no write |
| Iam20380.Avgs128IsCodeSeven | iam20380.py:173-177 | 128 averages are stored as code 7 |
| Iam20380.Reset | iam20380.py:84-94 | `reset` always raises ValueError at the divider. By then PWR_MGMT_1 is 0x01, FCHOICE_B is 0, `fs` is 250 and `dlpf` is 6. The whole-byte write of 0x01 clears bit 7 (reset) and bit 6, the bit the other driver names sleep; this driver declares no sleep field. The divider and averaging code are untouched. Only 0x6B, 0x1B and 0x1A change, and within them bit 2 and bits 5..7 of 0x1B and bits 3..7 of 0x1A keep their values |
| Iam20380.ResetIntended | iam20380.py:84-94 | with the intended setters, `reset` completes with fs 250, sens 131, dlpf 6, divider 255, 128 averages, PWR_MGMT_1 0x01 and FCHOICE_B 0 |
| Iam20380.Construct | iam20380.py:76-82 | construction always fails. An id other than 0xB5 raises RuntimeError before any write; 0xB5 ends in the reset's ValueError |
| Iam20380.ConstructIntended | iam20380.py:76-82 | with the intended reset, construction succeeds exactly for id 0xB5 and yields the default configuration |
| Iam20380.CentredCounts | iam20380.py:112-121 | each axis is its big-endian reading less 1<<15, in [-32768, 32767] |
| Iam20380.Rotation | iam20380.py:107-125 | `rotation` as written returns None |
| Iam20380.CentringMisreadsZero | iam20380.py:118-121 | a zero reading centres to -32768, while its two's complement value is 0 |
| Iam20380.RotationIntended | iam20380.py:107-125 | each rate times `sens` is the two's complement count, and a rate is negative exactly when bit 15 of its reading is set |
| Iam20380.Temperature | iam20380.py:96-105 | `count / 326.8 + 25` from the unsigned count at 0x41/0x42, never below 25 |

## Left out

- I2C transport: `I2CDevice`, the `with` blocks and `write_then_readinto` are not modelled. A burst read is the consecutive registers of the register map, and transport failures are not modelled.
- The device address (defaults 0x68 and 0x00) and `probe=False` only configure the transport. They are not modelled.
- The `adafruit_register` library is not part of this model. Its descriptors are modelled as mask-and-shift read-modify-write (`RWBits`, `RWBit`) and whole-byte writes (`UnaryStruct`).
- Registers.WriteBits: requires the value to fit the field, because the library's handling of wider values is not shown.
- Iam20380.SetDlpf: for values outside 0..7 other than 7 it ends with `FieldOverflow` and keeps the register map as it was. The library's real effect on CONFIG is not modelled.
- `time.sleep(0.020)` in the reset of `iam20380.py` is left out (timing only). The chip's own reaction to soft reset and its who-am-i contents are not modelled either; register contents are inputs.
- SierraLobo.Construct: states TypeError as the exception, following CPython, where a tuple formatted with `#x` raises TypeError. The file declares itself a CircuitPython library. There, the same formatting would fail with ValueError, and the model does not cover that interpreter. In both cases no handle is returned.
- Floating point is modelled as exact `real` arithmetic. This covers temperature, rotation and `odr`.
- SierraLobo.ReadRaw: the decoding is modelled from the registers. As written, `raw` stores into `self._buffer`, which this class never assigns, so the property raises AttributeError.
- SierraLobo.Temperature: the same `_buffer` issue applies here.
- SierraLobo.Rotation: the same `_buffer` issue applies through `raw`.
- The commented-out accessors at the end of `sierralobo_iam20380.py` are not code. They are not modelled.
- The import fallbacks and `micropython.const` are not modelled. `const` is taken as the identity.
- Arguments are modelled as integers (booleans for `sleep`). Python would also accept, for example, `250.0` in `fs = 250.0`, because `250.0 in [250, ...]` holds.

## Findings

| source | as written | input that shows it | evidently intended | confidence | as-written member | corrected member |
|---|---|---|---|---|---|---|
| sierralobo_iam20380.py:135 | a reading with bit 15 set has `0xFFFF` subtracted | 0x8000 gives -32767; 0xFFFF gives 0, the same as 0x0000 | two's complement, `v - 0x10000` | high (not executed) | SierraLobo.SignCorrectIsOffByOne | SierraLobo.RotationIntended |
| sierralobo_iam20380.py:90 | `self._chip_id != _WHO_AM_I` compares an int with a tuple; the message then formats the tuple with `#x` | any chip id, including 0xB5 | accept ids 0xB5 and 0xFD | high (not executed) | SierraLobo.Construct | SierraLobo.ConstructIntended |
| sierralobo_iam20380.py:53 | 313 LSB/dps for 250 dps | range code 0 and X reading 0x7FFF: under 105 dps at a 250 dps full scale | 131 LSB/dps, as in `iam20380.py` | medium (not executed) | SierraLobo.Sensitivity250DoesNotFitReading | SierraLobo.SensitivityCorrected |
| iam20380.py:164-165 | raises for 0..255 and never writes | `smplrt_div = 255` inside `reset` | raise outside 0..255, write otherwise | high (not executed) | Iam20380.SetSmplrtDiv | Iam20380.SetSmplrtDivIntended |
| iam20380.py:82 | `reset` always raises, so construction never returns | a chip with id 0xB5 | a configured handle for id 0xB5 | high (not executed) | Iam20380.Construct | Iam20380.ConstructIntended |
| iam20380.py:152 | `value <= 1 \| 6 <= value` rejects 7 only | 0, 8 and -1 pass the check | reject values outside 1..6 | medium (not executed) | Iam20380.SetDlpfAcceptsOutOfRangeCodes | Iam20380.SetDlpfIntended |
| iam20380.py:107-125 | `rotation` has no `return` | any reading | return the three rates | high (not executed) | Iam20380.Rotation | Iam20380.RotationIntended |
| iam20380.py:119-121 | readings centred by subtracting `1 << 15` | bytes 0x00, 0x00 give -32768 counts (full negative scale) | two's complement counts | medium (not executed) | Iam20380.CentringMisreadsZero | Iam20380.RotationIntended |
