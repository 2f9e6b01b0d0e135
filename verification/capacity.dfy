/** The seven capacity and health fields, each a raw 16-bit value: residual,
    battery and rated capacity in centiampere-hours, state of charge and of
    health in tenths of a percent, the cycle count, and the port voltage in
    centivolts. */
module Capacity {
  import opened Wrappers
  import opened Bytes
  import opened Layouts

  datatype Capacity = Capacity(
    residualCapacityCah: Option<nat>,
    batteryCapacityCah: Option<nat>,
    socDeciPercent: Option<nat>,
    ratedCapacityCah: Option<nat>,
    cycles: Option<nat>,
    sohDeciPercent: Option<nat>,
    portVoltageCv: Option<nat>)

  const NoCapacity: Capacity := Capacity(None, None, None, None, None, None, None)

  /** The seven fields as the source reads them, without bounds checks. */
  datatype RawCapacity = RawCapacity(
    residualCapacityCah: nat,
    batteryCapacityCah: nat,
    socDeciPercent: nat,
    ratedCapacityCah: nat,
    cycles: nat,
    sohDeciPercent: nat,
    portVoltageCv: nat)

  /** Every one of the seven fields fits in the frame. */
  predicate AllCapacityFieldsFit(data: Frame, layout: Layout) {
    && Fits(data, layout.residualCapacityOffset)
    && Fits(data, layout.batteryCapacityOffset)
    && Fits(data, layout.socOffset)
    && Fits(data, layout.ratedCapacityOffset)
    && Fits(data, layout.cyclesOffset)
    && Fits(data, layout.sohOffset)
    && Fits(data, layout.portVoltageOffset)
  }

  /** The unchecked reads: defined only when every field fits. */
  function CapacityAsWritten(data: Frame, layout: Layout): (c: RawCapacity)
    requires AllCapacityFieldsFit(data, layout)
    ensures c.residualCapacityCah < U16Limit && c.batteryCapacityCah < U16Limit
    ensures c.socDeciPercent < U16Limit && c.ratedCapacityCah < U16Limit
    ensures c.cycles < U16Limit && c.sohDeciPercent < U16Limit && c.portVoltageCv < U16Limit
  {
    RawCapacity(
      U16(data, layout.residualCapacityOffset),
      U16(data, layout.batteryCapacityOffset),
      U16(data, layout.socOffset),
      U16(data, layout.ratedCapacityOffset),
      U16(data, layout.cyclesOffset),
      U16(data, layout.sohOffset),
      U16(data, layout.portVoltageOffset))
  }

  /** The guarded reads: each field is published exactly when it fits, and
      is then the raw value at its offset; a missing field never affects
      another. */
  function DecodeCapacity(data: Frame, layout: Layout): (c: Capacity)
    ensures c.residualCapacityCah.Some? <==> Fits(data, layout.residualCapacityOffset)
    ensures c.batteryCapacityCah.Some? <==> Fits(data, layout.batteryCapacityOffset)
    ensures c.socDeciPercent.Some? <==> Fits(data, layout.socOffset)
    ensures c.ratedCapacityCah.Some? <==> Fits(data, layout.ratedCapacityOffset)
    ensures c.cycles.Some? <==> Fits(data, layout.cyclesOffset)
    ensures c.sohDeciPercent.Some? <==> Fits(data, layout.sohOffset)
    ensures c.portVoltageCv.Some? <==> Fits(data, layout.portVoltageOffset)
    ensures c.residualCapacityCah.Some? ==> c.residualCapacityCah.value == U16(data, layout.residualCapacityOffset)
    ensures c.batteryCapacityCah.Some? ==> c.batteryCapacityCah.value == U16(data, layout.batteryCapacityOffset)
    ensures c.socDeciPercent.Some? ==> c.socDeciPercent.value == U16(data, layout.socOffset)
    ensures c.ratedCapacityCah.Some? ==> c.ratedCapacityCah.value == U16(data, layout.ratedCapacityOffset)
    ensures c.cycles.Some? ==> c.cycles.value == U16(data, layout.cyclesOffset)
    ensures c.sohDeciPercent.Some? ==> c.sohDeciPercent.value == U16(data, layout.sohOffset)
    ensures c.portVoltageCv.Some? ==> c.portVoltageCv.value == U16(data, layout.portVoltageOffset)
  {
    Capacity(
      ReadU16(data, layout.residualCapacityOffset),
      ReadU16(data, layout.batteryCapacityOffset),
      ReadU16(data, layout.socOffset),
      ReadU16(data, layout.ratedCapacityOffset),
      ReadU16(data, layout.cyclesOffset),
      ReadU16(data, layout.sohOffset),
      ReadU16(data, layout.portVoltageOffset))
  }

  /** Where the unchecked reads are defined, the guarded reads publish every
      field with the same value. */
  lemma GuardedAgreesWithAsWritten(data: Frame, layout: Layout)
    requires AllCapacityFieldsFit(data, layout)
    ensures var c := DecodeCapacity(data, layout);
            var raw := CapacityAsWritten(data, layout);
            c == Capacity(Some(raw.residualCapacityCah), Some(raw.batteryCapacityCah),
                          Some(raw.socDeciPercent), Some(raw.ratedCapacityCah), Some(raw.cycles),
                          Some(raw.sohDeciPercent), Some(raw.portVoltageCv))
  {
  }

  /** In a well-formed layout every field fits exactly when the frame reaches
      FullFrameLength. */
  lemma AllFitIffFullFrame(data: Frame, layout: Layout)
    requires WellFormed(layout)
    ensures AllCapacityFieldsFit(data, layout) <==> |data| >= FullFrameLength
  {
  }
}
