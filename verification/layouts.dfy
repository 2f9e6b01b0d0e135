/** The per-version table of field offsets, keyed by the frame's first byte. */
module Layouts {
  import opened Wrappers
  import opened Bytes

  /** Byte offsets of every field the decoder reads, for one protocol version. */
  datatype Layout = Layout(
    cellCountOffset: nat,
    cellVoltagesStart: nat,
    tempSensorCountOffset: nat,
    tempSensorsStart: nat,
    currentOffset: nat,
    totalVoltageOffset: nat,
    residualCapacityOffset: nat,
    batteryCapacityOffset: nat,
    socOffset: nat,
    ratedCapacityOffset: nat,
    cyclesOffset: nat,
    sohOffset: nat,
    portVoltageOffset: nat)

  const ProtocolV21: byte := 0x21
  const ProtocolV25: byte := 0x25

  /** At most this many cell voltages and temperatures are decoded per frame. */
  const MaxCells: nat := 16
  const MaxTemperatures: nat := 6

  /** The two known layouts. */
  const OffsetMap: map<byte, Layout> := map[
    ProtocolV21 := Layout(7, 8, 38, 39, 53, 55, 57, 61, 63, 65, 67, 69, 71),
    ProtocolV25 := Layout(8, 9, 41, 42, 54, 56, 58, 61, 63, 65, 67, 69, 71)]

  /** The shortest frame that holds every field of either layout. */
  const FullFrameLength: nat := 73

  /** What the decoder relies on in a layout: each count byte directly precedes
      its slots, the six temperature slots end before the current, the scalar
      fields follow one another without overlap, and the last of them ends at
      FullFrameLength. */
  predicate WellFormed(l: Layout) {
    && l.cellVoltagesStart == l.cellCountOffset + 1
    && l.cellCountOffset < l.tempSensorCountOffset
    && l.tempSensorsStart == l.tempSensorCountOffset + 1
    && l.tempSensorsStart + 2 * MaxTemperatures <= l.currentOffset
    && l.currentOffset + 2 <= l.totalVoltageOffset
    && l.totalVoltageOffset + 2 <= l.residualCapacityOffset
    && l.residualCapacityOffset + 2 <= l.batteryCapacityOffset
    && l.batteryCapacityOffset + 2 <= l.socOffset
    && l.socOffset + 2 <= l.ratedCapacityOffset
    && l.ratedCapacityOffset + 2 <= l.cyclesOffset
    && l.cyclesOffset + 2 <= l.sohOffset
    && l.sohOffset + 2 <= l.portVoltageOffset
    && l.portVoltageOffset + 2 == FullFrameLength
  }

  /** The version byte names a layout in the table. */
  predicate Supported(version: byte) {
    version in OffsetMap
  }

  /** Table lookup: a layout for exactly the two known versions, and every
      layout it hands out is well formed. */
  function LayoutFor(version: byte): (r: Option<Layout>)
    ensures r.Some? <==> version == ProtocolV21 || version == ProtocolV25
    ensures r.Some? <==> Supported(version)
    ensures r.Some? ==> WellFormed(r.value)
  {
    if version in OffsetMap then Some(OffsetMap[version]) else None
  }

  /** End of the sixteenth cell slot. */
  function CellSlotsEnd(l: Layout): nat {
    l.cellVoltagesStart + 2 * MaxCells
  }

  /** All sixteen cell slots end before the temperature-count byte only in the
      0x25 layout; in the 0x21 layout the sixteenth slot covers bytes 38-39,
      which are the temperature count and the first temperature byte. */
  lemma CellSlotsClearOfTemperatures(version: byte)
    requires Supported(version)
    ensures CellSlotsEnd(OffsetMap[version]) <= OffsetMap[version].tempSensorCountOffset
            <==> version == ProtocolV25
  {
  }
}
