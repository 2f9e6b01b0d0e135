/** Current, total voltage and power. Current is signed centiamperes, total
    voltage centivolts (the same scale for both protocol versions), power
    the product of the two, in centivolt-centiamperes. */
module Electrical {
  import opened Wrappers
  import opened Bytes
  import opened Layouts

  /** Power split into a charging and a discharging part. */
  datatype PowerSplit = PowerSplit(charging: nat, discharging: nat)

  /** The charging part is max(0, p) and the discharging part |min(0, p)|:
      both non-negative, at most one non-zero, and their difference is p. */
  function SplitPower(p: int): (s: PowerSplit)
    ensures s.charging - s.discharging == p
    ensures s.charging == 0 || s.discharging == 0
    ensures s.charging == Max(0, p) && s.discharging == Abs(Min(0, p))
  {
    if p >= 0 then PowerSplit(p, 0) else PowerSplit(0, -p)
  }

  /** The split is the only pair of non-negative parts, one of them zero, whose
      difference is the power. */
  lemma SplitPowerUnique(p: int, charging: nat, discharging: nat)
    requires charging - discharging == p && (charging == 0 || discharging == 0)
    ensures SplitPower(p) == PowerSplit(charging, discharging)
  {
  }

  datatype Readings = Readings(
    currentCa: Option<int>,
    totalVoltageCv: Option<nat>,
    powerCvCa: Option<int>,
    chargingPower: Option<nat>,
    dischargingPower: Option<nat>)

  const NoReadings: Readings := Readings(None, None, None, None, None)

  /** The electrical pass. The current is read when its field fits and is the
      two's-complement reading of it; the voltage and the power are produced
      only when the current was read and the voltage field fits too; the
      power is voltage times current and its split adds back up to it. */
  function DecodeElectrical(data: Frame, layout: Layout): (e: Readings)
    ensures e.currentCa.Some? <==> Fits(data, layout.currentOffset)
    ensures e.currentCa.Some? ==>
              -0x8000 <= e.currentCa.value < 0x8000
              && FromInt16(e.currentCa.value) == U16(data, layout.currentOffset)
    ensures e.totalVoltageCv.Some? <==> Fits(data, layout.currentOffset) && Fits(data, layout.totalVoltageOffset)
    ensures e.totalVoltageCv.Some? ==> e.totalVoltageCv.value == U16(data, layout.totalVoltageOffset)
    ensures e.powerCvCa.Some? <==> e.totalVoltageCv.Some?
    ensures e.chargingPower.Some? <==> e.powerCvCa.Some?
    ensures e.dischargingPower.Some? <==> e.powerCvCa.Some?
    ensures e.powerCvCa.Some? ==>
              && e.powerCvCa.value == e.totalVoltageCv.value * e.currentCa.value
              && e.chargingPower.value - e.dischargingPower.value == e.powerCvCa.value
              && (e.chargingPower.value == 0 || e.dischargingPower.value == 0)
  {
    if !Fits(data, layout.currentOffset) then NoReadings
    else
      var current := ToInt16(U16(data, layout.currentOffset));
      Int16BitsRoundTrip(U16(data, layout.currentOffset));
      if !Fits(data, layout.totalVoltageOffset) then Readings(Some(current), None, None, None, None)
      else
        var voltage := U16(data, layout.totalVoltageOffset);
        var power := voltage * current;
        var split := SplitPower(power);
        Readings(Some(current), Some(voltage), Some(power), Some(split.charging), Some(split.discharging))
  }

  /** A signed current written into a frame's current field is read back. */
  lemma CurrentRoundTrip(data: Frame, layout: Layout, currentCa: int)
    requires Fits(data, layout.currentOffset) && -0x8000 <= currentCa < 0x8000
    ensures DecodeElectrical(Put16(data, layout.currentOffset, FromInt16(currentCa)), layout).currentCa
            == Some(currentCa)
  {
    Int16RoundTrip(currentCa);
  }

  /** -6.54 A at 52.80 V: -345.312 W, all of it discharging. */
  lemma PowerExample()
    ensures SplitPower(5280 * -654) == PowerSplit(0, 3453120)
  {
  }
}
