# Seplos BMS telemetry frame decoder, in Dafny

This project models the telemetry decoder of the Seplos BMS component
(`components/seplos_bms/seplos_bms.cpp`) and proves what it does. A frame is a
byte sequence whose first byte is the protocol version (0x21 or 0x25). A
static table maps the version to the byte offsets of thirteen fields. A gate
rejects frames shorter than 8 bytes and unknown versions. The decode pass then
reads big-endian 16-bit fields:

- up to 16 cell voltages, with a running minimum, maximum, their cells and a sum;
- up to 6 temperatures;
- the signed current, the total voltage and the power split into charging
  and discharging parts;
- seven capacity and health fields.

Physical values are fixed-point integers, not floats:

| quantity | unit in the model | source scale |
|---|---|---|
| cell voltage | mV (raw) | x0.001 V |
| temperature | tenths of a degree C, raw - 2731 | (raw - 2731) x 0.1 |
| current | cA, two's-complement raw | x0.01 A |
| total voltage, port voltage | cV (raw) | x0.01 V |
| power | cV x cA | voltage x current |
| residual / battery / rated capacity | cAh (raw) | x0.01 Ah |
| state of charge / health | tenths of a percent (raw) | x0.1 % |
| cycles | count (raw) | x1 |

The scale factors are positive, so minimum and maximum over the raw integers
pick the same cells as over the scaled floats. The sentinels 100 V and -100 V
become 100000 mV and -100000 mV. Every 16-bit value is below both of them in
magnitude, so the first cell read always replaces both sentinels, in the
floats and in the integers alike.

The published outputs are one immutable `Decoder.Telemetry` record of
`Option` fields. `Decoder.OnModbusData` returns it, or a `FrameError`.

Modules, leaves first: `Wrappers` (Option, Result), `Bytes` (frames, 16-bit
reads, the bounded run of 16-bit fields shared by the cell and temperature
loops), `Layouts` (the offset table), `Cells`, `Temperatures`, `Electrical`,
`Capacity`, `Decoder` (gate and decode pass), and `UncheckedReads` (frames on
which the source reads past the end of the frame).

Choices the model makes about the code:

- Line 152 scales the total voltage by 0.01 for both versions. The model
  keeps one unit, cV.
- The offsets are those of `OFFSET_MAP` (lines 32-64): for 0x25 the
  temperature count is at 41 and the current at 54.
- Line 84 has unbalanced parentheses and does not compile as written. The
  model reads `data[i] * 256 + data[i + 1]`, which is evidently meant.
- `Decoder.OnModbusData` decodes with the corrected reads listed under
  "## Findings". The cell count is `Cells.EffectiveCellCount`, which is 0 when
  the count byte is missing. The capacity fields come from
  `Capacity.DecodeCapacity`, which reads each field only when it fits. On the
  frames listed there the model therefore differs from lines 94 and 167. Line
  94 reads past the end of such a frame. Line 167 publishes all seven capacity
  fields unconditionally once line 132 passes. `Cells.CellCountAsWritten` and
  `Capacity.CapacityAsWritten` model those lines as written.

## Model

| member | source | states |
|---|---|---|
| Bytes.U16 | components/seplos_bms/seplos_bms.cpp:83-85 | the 16-bit read is big-endian: the value is below 65536, its high byte is the byte at the offset and its low byte the next one |
| Bytes.ReadU16 | components/seplos_bms/seplos_bms.cpp:164-165 | the bounds-checked read of the guarded capacity publish gives a value exactly when the two bytes fit in the frame, and that value is the big-endian read |
| Bytes.Put16 | components/seplos_bms/seplos_bms.cpp:83-85 | writing a value big-endian at an offset is undone by the 16-bit read there, and no other byte changes |
| Bytes.PutWhatWasRead | components/seplos_bms/seplos_bms.cpp:83-85 | writing back the value just read leaves the frame as it was, so the read loses no byte |
| Bytes.ToInt16 | components/seplos_bms/seplos_bms.cpp:148 | the cast to int16_t gives a value in -32768..32767, equal to the raw value modulo 65536, and negative exactly when the raw value is 0x8000 or above |
| Bytes.Int16RoundTrip | components/seplos_bms/seplos_bms.cpp:148 | every signed 16-bit value survives encoding to its bit pattern and the signed reading back |
| Bytes.ReadRun | components/seplos_bms/seplos_bms.cpp:104-108 | the bounded loop reads min(limit, whole slots left) fields, and field i is the 16-bit value at pos + 2i |
| Bytes.ReadRunOfPrefix | components/seplos_bms/seplos_bms.cpp:104-106 | on a shortened frame the loop reads a prefix of what it reads on the whole frame |
| Layouts.LayoutFor | components/seplos_bms/seplos_bms.cpp:32-64 | the table has a layout for exactly the versions 0x21 and 0x25. Each layout puts the count byte just before its slots and the scalar fields in order without overlap, and its last field ends at byte 73 |
| Layouts.CellSlotsClearOfTemperatures | components/seplos_bms/seplos_bms.cpp:32-64 | all 16 cell slots end before the temperature-count byte only in the 0x25 layout. In 0x21 the 16th slot covers bytes 38-39 |
| Cells.MinCell | components/seplos_bms/seplos_bms.cpp:111-114 | reference definition: the 1-based cell of the first occurrence of the minimum |
| Cells.MaxCell | components/seplos_bms/seplos_bms.cpp:115-118 | reference definition: the 1-based cell of the first occurrence of the maximum |
| Cells.FirstMinUnique | components/seplos_bms/seplos_bms.cpp:111-114 | only one cell is the first occurrence of the minimum |
| Cells.ScanOne | components/seplos_bms/seplos_bms.cpp:109-118 | one loop iteration, with its strict comparisons, keeps the sum and the first-occurrence extremes correct; a tie keeps the earlier cell |
| Cells.StatsOf | components/seplos_bms/seplos_bms.cpp:97-118 | over the voltages read: the sum, and with no voltage the sentinels 100 V / -100 V with cell 0, otherwise the minimum and maximum at the 1-based cells of their first occurrences, bounding every voltage |
| Cells.DecodeCells | components/seplos_bms/seplos_bms.cpp:94-127 | the divisor is the override if non-zero, else the count byte. It reads min(16, count, whole slots left) voltages, voltage i being the 16-bit value at start + 2i, and its statistics are StatsOf of exactly those voltages |
| Cells.ScanCells | components/seplos_bms/seplos_bms.cpp:94-121 | the source's loop over the frame, with break and strict comparisons, computes exactly the reference statistics |
| Cells.ScanVoltages | components/seplos_bms/seplos_bms.cpp:104-120 | the loop with its break reads exactly the run of ReadRun, and leaves the running sum and first-occurrence extremes correct over it |
| Cells.RunComplete | components/seplos_bms/seplos_bms.cpp:104-106 | the loop has read the whole run once it reaches min(16, count) or meets a slot that does not fit |
| Cells.CellStats.AverageMv | components/seplos_bms/seplos_bms.cpp:109-121 | the average is the sum of the voltages read over the effective cell count, not over the number read. It is absent when the count is 0 |
| Cells.AverageWithinExtremes | components/seplos_bms/seplos_bms.cpp:104-121 | when the frame holds a slot for every counted cell and the count is 1 to 16, every counted cell is read and min x count <= sum <= max x count, so the average lies between the extremes |
| Cells.TruncationKeepsDivisor | components/seplos_bms/seplos_bms.cpp:94-121 | a frame cut short after its count byte keeps the average's divisor |
| Cells.TruncationReadsPrefix | components/seplos_bms/seplos_bms.cpp:104-108 | a frame cut short after its count byte yields a prefix of the voltages of the whole frame |
| Cells.EffectiveCellCount | components/seplos_bms/seplos_bms.cpp:94 | corrected count: the override when it is set, else the count byte when it is inside the frame, else 0 |
| Cells.CellCountAsWritten | components/seplos_bms/seplos_bms.cpp:94 | the unchecked read as written: defined only when the override is set or the count byte is inside the frame; the count is zero exactly when the override is unset and the byte is 0 |
| Cells.EffectiveCellCountAgrees | components/seplos_bms/seplos_bms.cpp:94 | wherever the unchecked count read is defined, the checked count equals it |
| Cells.MissingCountByteReadsNoCell | components/seplos_bms/seplos_bms.cpp:94-106 | a frame too short for its count byte holds no cell slot either, so zero as the corrected count reads the same voltages as any count |
| Cells.DeltaNonNegative | components/seplos_bms/seplos_bms.cpp:97-127 | the published spread max - min is non-negative exactly when at least one cell was read. With none read it is the gap between the sentinels, -200000 mV |
| Cells.FourCellExample | components/seplos_bms/seplos_bms.cpp:97-128 | for 3288, 3304, 3316, 3287 mV: minimum 3287 at cell 4, maximum 3316 at cell 3, spread 29 mV, average 13195/4 mV |
| Temperatures.ToDeciCelsius | components/seplos_bms/seplos_bms.cpp:141-142 | one reading per raw 16-bit value: the reading plus 2731 gives back the raw value in tenths of a kelvin, so it lies in -2731..62804 |
| Temperatures.DecodeTemperatures | components/seplos_bms/seplos_bms.cpp:131-143 | nothing when the count byte is outside the frame (the decode ends). Otherwise min(6, count, whole slots left) readings, each the slot's raw value less 2731 |
| Temperatures.StopsAtFirstMissingSlot | components/seplos_bms/seplos_bms.cpp:137-139 | fewer than min(6, count) readings means the next slot does not fit |
| Electrical.SplitPower | components/seplos_bms/seplos_bms.cpp:155-158 | charging = max(0, p) and discharging = abs(min(0, p)). Both are non-negative, at most one is non-zero, and charging - discharging = p |
| Electrical.SplitPowerUnique | components/seplos_bms/seplos_bms.cpp:157-158 | the split is the only pair of non-negative parts, one of them zero, whose difference is the power |
| Electrical.DecodeElectrical | components/seplos_bms/seplos_bms.cpp:147-160 | the current is published iff its field fits, as the signed reading of its bits. Voltage and power are published iff the current was and the voltage field fits. Power is voltage x current, and its split adds back up to it |
| Electrical.PowerExample | components/seplos_bms/seplos_bms.cpp:155-158 | -6.54 A at 52.80 V is a power of -345.312 W, all of it discharging and none charging |
| Electrical.CurrentRoundTrip | components/seplos_bms/seplos_bms.cpp:148 | a signed current written into the current field is decoded back unchanged |
| Capacity.CapacityAsWritten | components/seplos_bms/seplos_bms.cpp:163-176 | the unchecked reads as written: defined only when all seven fields fit, each value below 65536 |
| Capacity.DecodeCapacity | components/seplos_bms/seplos_bms.cpp:163-176 | the guarded reads: each of the seven fields is published exactly when it fits, and is then the raw value at its offset |
| Capacity.GuardedAgreesWithAsWritten | components/seplos_bms/seplos_bms.cpp:164-167 | where the unchecked reads are defined, the guarded reads publish every field with the same value |
| Capacity.AllFitIffFullFrame | components/seplos_bms/seplos_bms.cpp:170-176 | in a well-formed layout all capacity fields fit exactly when the frame has at least 73 bytes |
| Decoder.DecodeTelemetry | components/seplos_bms/seplos_bms.cpp:82-177 | the cell statistics are always published. With the temperature-count byte missing nothing after them is. At most 16 cells and 6 temperatures are published, and every electrical and capacity reading comes from a field inside the frame |
| Decoder.OnModbusData | components/seplos_bms/seplos_bms.cpp:66-80 | under 8 bytes gives TooShort and an unknown first byte gives UnsupportedVersion, with nothing published. A frame is accepted iff it has 8 bytes or more and version 0x21 or 0x25, and is decoded with that version's table layout |
| Decoder.PublishedExactlyWhenFits | components/seplos_bms/seplos_bms.cpp:131-176 | for an accepted frame, with the guarded capacity reads, each electrical and capacity reading is published exactly when its own field fits |
| Decoder.EarlyStopPublishesNoLaterField | components/seplos_bms/seplos_bms.cpp:131-132 | a frame too short for its temperature-count byte publishes the cell statistics and no temperature, electrical or capacity reading |
| Decoder.FullFrameDecodesEverything | components/seplos_bms/seplos_bms.cpp:82-177 | an accepted frame of 73 bytes or more publishes min(16, count) cells, min(6, count) temperatures and every scalar reading |
| UncheckedReads.GateAdmitsFrameWithoutCellCount | components/seplos_bms/seplos_bms.cpp:67-94 | an 8-byte 0x25 frame passes the gate although its cell-count byte (offset 8) is missing. The corrected decode counts zero cells and publishes no average |
| UncheckedReads.GateAdmitsFrameTooShortForCapacity | components/seplos_bms/seplos_bms.cpp:132-176 | a 60-byte 0x21 frame passes the gate and the temperature stop, but lacks six of the capacity fields. The guarded reads publish only the residual capacity |

## Left out

- The `publish_state_` overloads and the sensor objects (lines 231-250). The model returns one `Telemetry` record; an absent sensor only suppresses a publish.
- `dump_config`, `get_setup_priority`, `update` and the request path (lines 179-229). These are configuration and transport.
- Logging and `format_hex_pretty` (lines 68, 75, 90-91, 95, 135). These are diagnostics only.
- Floating point. Values are fixed-point integers in the units above. The average is the exact fraction sum / count, with no IEEE rounding.
- The dead assignment at line 144. It changes no output.
- The type of `override_cell_count_`. It is declared in `seplos_bms.h`, which is not part of this model. The override is modelled as a byte, with 0 meaning "not set", because line 94 stores it into a `uint8_t`.
- Division by a zero cell count (line 121). The source divides 0.0 by 0 and publishes the NaN. The model publishes no average there.

## Findings

| source | as written | input that shows it | evidently intended | confidence | as-written member | corrected member |
|---|---|---|---|---|---|---|
| components/seplos_bms/seplos_bms.cpp:94 | with no override, the cell-count byte is read with no bounds check, but the gate at line 67 only guarantees bytes 0-7 | an 8-byte frame `25 00 00 00 00 00 00 00` with no override: the 0x25 count byte is at offset 8 | read the count byte only when it is inside the frame; a frame without it counts zero cells | medium, not executed | Cells.CellCountAsWritten, UncheckedReads.GateAdmitsFrameWithoutCellCount | Cells.EffectiveCellCount, Cells.MissingCountByteReadsNoCell |
| components/seplos_bms/seplos_bms.cpp:163-167 | the bounds check of the capacity reads is commented out, so all seven fields are read unconditionally | a 60-byte 0x21 frame: byte 38 (temperature count) is inside, so decoding reaches the capacity reads, but battery capacity (offset 61) through port voltage (offset 71) lie past the end | publish a capacity field only when it fits, as the commented-out guard at lines 164-166 does | high, not executed | Capacity.CapacityAsWritten, UncheckedReads.GateAdmitsFrameTooShortForCapacity | Capacity.DecodeCapacity, Capacity.GuardedAgreesWithAsWritten |
