/** The frame gate and the decode pass it hands accepted frames to. */
module Decoder {
  import opened Wrappers
  import opened Bytes
  import opened Layouts
  import opened Cells
  import opened Temperatures
  import opened Electrical
  import opened Capacity

  /** Frames shorter than this are rejected. */
  const MinFrameLength: nat := 8

  datatype FrameError = TooShort | UnsupportedVersion

  /** Everything one frame publishes. */
  datatype Telemetry = Telemetry(
    cells: CellStats,
    temperaturesDeciC: seq<int>,
    electrical: Readings,
    capacity: Capacity)

  /** The decode pass with the layout of the frame's version: cells first;
      then, only if the temperature-count byte is inside the frame, the
      temperatures, the electrical readings and the capacity fields. Every
      reading it publishes comes from a field inside the frame. */
  function DecodeTelemetry(data: Frame, layout: Layout, overrideCount: byte): (t: Telemetry)
    ensures t.cells == DecodeCells(data, layout, overrideCount)
    ensures |t.cells.voltagesMv| <= MaxCells && |t.temperaturesDeciC| <= MaxTemperatures
    ensures layout.tempSensorCountOffset >= |data| ==>
              t.temperaturesDeciC == [] && t.electrical == NoReadings && t.capacity == NoCapacity
    ensures t.electrical.currentCa.Some? ==> Fits(data, layout.currentOffset)
    ensures t.electrical.totalVoltageCv.Some? ==> Fits(data, layout.totalVoltageOffset)
    ensures t.capacity.residualCapacityCah.Some? ==> Fits(data, layout.residualCapacityOffset)
    ensures t.capacity.batteryCapacityCah.Some? ==> Fits(data, layout.batteryCapacityOffset)
    ensures t.capacity.socDeciPercent.Some? ==> Fits(data, layout.socOffset)
    ensures t.capacity.ratedCapacityCah.Some? ==> Fits(data, layout.ratedCapacityOffset)
    ensures t.capacity.cycles.Some? ==> Fits(data, layout.cyclesOffset)
    ensures t.capacity.sohDeciPercent.Some? ==> Fits(data, layout.sohOffset)
    ensures t.capacity.portVoltageCv.Some? ==> Fits(data, layout.portVoltageOffset)
  {
    var cells := DecodeCells(data, layout, overrideCount);
    match DecodeTemperatures(data, layout)
    case None => Telemetry(cells, [], NoReadings, NoCapacity)
    case Some(temps) => Telemetry(cells, temps, DecodeElectrical(data, layout), DecodeCapacity(data, layout))
  }

  /** The gate: a frame under 8 bytes is rejected as too short, one whose
      first byte names no layout as unsupported, and nothing is published for
      either; any other frame is decoded with the layout its first byte
      selects. */
  function OnModbusData(data: Frame, overrideCount: byte): (r: Result<Telemetry, FrameError>)
    ensures |data| < MinFrameLength ==> r == Err(TooShort)
    ensures |data| >= MinFrameLength && !Supported(data[0]) ==> r == Err(UnsupportedVersion)
    ensures r.Ok? <==> |data| >= MinFrameLength && (data[0] == ProtocolV21 || data[0] == ProtocolV25)
    ensures r.Ok? ==> LayoutFor(data[0]).Some?
                      && r.value == DecodeTelemetry(data, LayoutFor(data[0]).value, overrideCount)
  {
    if |data| < MinFrameLength then Err(TooShort)
    else
      match LayoutFor(data[0])
      case None => Err(UnsupportedVersion)
      case Some(layout) => Ok(DecodeTelemetry(data, layout, overrideCount))
  }

  /** For an accepted frame, each scalar reading is published exactly when its
      own field fits: the layout places the temperature-count byte before all
      of them, so the early stop never hides a field that fits. */
  lemma PublishedExactlyWhenFits(data: Frame, overrideCount: byte)
    requires |data| >= MinFrameLength && Supported(data[0])
    ensures var t := OnModbusData(data, overrideCount).value;
            var l := OffsetMap[data[0]];
            && (t.electrical.currentCa.Some? <==> Fits(data, l.currentOffset))
            && (t.electrical.totalVoltageCv.Some? <==> Fits(data, l.totalVoltageOffset))
            && (t.electrical.powerCvCa.Some? <==> Fits(data, l.totalVoltageOffset))
            && (t.capacity.residualCapacityCah.Some? <==> Fits(data, l.residualCapacityOffset))
            && (t.capacity.batteryCapacityCah.Some? <==> Fits(data, l.batteryCapacityOffset))
            && (t.capacity.socDeciPercent.Some? <==> Fits(data, l.socOffset))
            && (t.capacity.ratedCapacityCah.Some? <==> Fits(data, l.ratedCapacityOffset))
            && (t.capacity.cycles.Some? <==> Fits(data, l.cyclesOffset))
            && (t.capacity.sohDeciPercent.Some? <==> Fits(data, l.sohOffset))
            && (t.capacity.portVoltageCv.Some? <==> Fits(data, l.portVoltageOffset))
  {
    var l := LayoutFor(data[0]).value;
    assert WellFormed(l);
  }

  /** An accepted frame too short for its temperature-count byte publishes
      the cell statistics and nothing after them. */
  lemma EarlyStopPublishesNoLaterField(data: Frame, overrideCount: byte)
    requires |data| >= MinFrameLength && Supported(data[0])
    requires |data| <= OffsetMap[data[0]].tempSensorCountOffset
    ensures var t := OnModbusData(data, overrideCount).value;
            && t.cells == DecodeCells(data, OffsetMap[data[0]], overrideCount)
            && t.temperaturesDeciC == []
            && t.electrical == NoReadings
            && t.capacity == NoCapacity
  {
  }

  /** An accepted frame of at least FullFrameLength bytes publishes every
      reading: min(16, count) cells, min(6, count) temperatures, and all
      electrical and capacity fields. */
  lemma FullFrameDecodesEverything(data: Frame, overrideCount: byte)
    requires |data| >= FullFrameLength && Supported(data[0])
    ensures var t := OnModbusData(data, overrideCount).value;
            var l := OffsetMap[data[0]];
            && |t.cells.voltagesMv| == Min(MaxCells, t.cells.cellCount)
            && |t.temperaturesDeciC| == Min(MaxTemperatures, data[l.tempSensorCountOffset])
            && t.electrical.currentCa.Some? && t.electrical.totalVoltageCv.Some?
            && t.electrical.powerCvCa.Some? && t.electrical.chargingPower.Some?
            && t.electrical.dischargingPower.Some?
            && t.capacity.residualCapacityCah.Some? && t.capacity.batteryCapacityCah.Some?
            && t.capacity.socDeciPercent.Some? && t.capacity.ratedCapacityCah.Some?
            && t.capacity.cycles.Some? && t.capacity.sohDeciPercent.Some?
            && t.capacity.portVoltageCv.Some?
  {
    var l := LayoutFor(data[0]).value;
    assert WellFormed(l);
    SlotsAtLeast(data, l.cellVoltagesStart, MaxCells);
    SlotsAtLeast(data, l.tempSensorsStart, MaxTemperatures);
  }
}
