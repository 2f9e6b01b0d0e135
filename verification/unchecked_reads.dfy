/** Frames the gate accepts on which the source reads past the end of the
    frame, and what the corrected decoder publishes for them instead. */
module UncheckedReads {
  import opened Wrappers
  import opened Bytes
  import opened Layouts
  import opened Cells
  import opened Temperatures
  import opened Capacity
  import opened Decoder

  /** Eight bytes, version 0x25: long enough for the gate, one byte short of
      the 0x25 cell-count byte at offset 8. */
  const ShortV25Frame: Frame := [0x25, 0, 0, 0, 0, 0, 0, 0]

  /** Sixty bytes, version 0x21: holds the temperature-count byte, so the
      decode goes on to the capacity reads, but ends before byte 73. */
  const ShortV21Frame: Frame := [0x21] + seq(59, _ => 0)

  /** With no override, the gate lets through a frame whose cell-count byte is
      missing, so the unchecked read of that byte falls outside the frame;
      the corrected count is zero, no cell is read and no average is
      published. */
  lemma GateAdmitsFrameWithoutCellCount()
    ensures OnModbusData(ShortV25Frame, 0).Ok?
    ensures OffsetMap[ProtocolV25].cellCountOffset >= |ShortV25Frame|
    ensures var s := OnModbusData(ShortV25Frame, 0).value.cells;
            s.cellCount == 0 && s.voltagesMv == [] && s.AverageMv().None?
  {
  }

  /** The gate lets through a frame that reaches the capacity reads without
      holding all capacity fields, so the unchecked reads fall outside the
      frame; the guarded reads publish the residual capacity, which fits,
      and omit the six fields that do not. */
  lemma GateAdmitsFrameTooShortForCapacity()
    ensures OnModbusData(ShortV21Frame, 0).Ok?
    ensures DecodeTemperatures(ShortV21Frame, OffsetMap[ProtocolV21]).Some?
    ensures !AllCapacityFieldsFit(ShortV21Frame, OffsetMap[ProtocolV21])
    ensures var c := OnModbusData(ShortV21Frame, 0).value.capacity;
            && c.residualCapacityCah == Some(0)
            && c.batteryCapacityCah.None? && c.socDeciPercent.None? && c.ratedCapacityCah.None?
            && c.cycles.None? && c.sohDeciPercent.None? && c.portVoltageCv.None?
  {
    var l := OffsetMap[ProtocolV21];
    assert U16(ShortV21Frame, l.residualCapacityOffset) == 0;
  }
}
