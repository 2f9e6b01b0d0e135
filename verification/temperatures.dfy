/** Temperature readings in tenths of a degree Celsius: the raw value is in
    tenths of a kelvin, so a reading is raw - 2731. */
module Temperatures {
  import opened Wrappers
  import opened Bytes
  import opened Layouts

  /** 273.1 K in tenths of a kelvin. */
  const KelvinOffsetDeci: nat := 2731

  /** Each raw 16-bit reading in tenths of a kelvin, as tenths of a degree
      Celsius. */
  function ToDeciCelsius(raw: seq<nat>): (t: seq<int>)
    requires forall i :: 0 <= i < |raw| ==> raw[i] < U16Limit
    ensures |t| == |raw|
    ensures forall i :: 0 <= i < |raw| ==> t[i] + KelvinOffsetDeci == raw[i]
    ensures forall i :: 0 <= i < |t| ==> -(KelvinOffsetDeci as int) <= t[i] < U16Limit - KelvinOffsetDeci
  {
    seq(|raw|, i requires 0 <= i < |raw| => raw[i] - KelvinOffsetDeci)
  }

  /** The temperature pass. None when the sensor-count byte lies outside the
      frame, which ends the whole decode. Otherwise at most min(6, count)
      readings, stopping at the first slot that does not fit, each the raw
      value of its slot less 2731. */
  function DecodeTemperatures(data: Frame, layout: Layout): (r: Option<seq<int>>)
    ensures r.None? <==> layout.tempSensorCountOffset >= |data|
    ensures r.Some? ==>
              |r.value| == Min(Min(MaxTemperatures, data[layout.tempSensorCountOffset]),
                               SlotsFrom(data, layout.tempSensorsStart))
    ensures r.Some? ==> forall i :: 0 <= i < |r.value| ==>
              Fits(data, layout.tempSensorsStart + 2 * i)
              && r.value[i] + KelvinOffsetDeci == U16(data, layout.tempSensorsStart + 2 * i)
    ensures r.Some? ==> forall i :: 0 <= i < |r.value| ==>
              -(KelvinOffsetDeci as int) <= r.value[i] < U16Limit - KelvinOffsetDeci
  {
    if layout.tempSensorCountOffset >= |data| then None
    else
      var count := data[layout.tempSensorCountOffset];
      var raw := ReadRun(data, layout.tempSensorsStart, Min(MaxTemperatures, count));
      RawReadingsBelowLimit(data, layout.tempSensorsStart, Min(MaxTemperatures, count));
      ReadingsOfRun(data, layout.tempSensorsStart, Min(MaxTemperatures, count));
      Some(ToDeciCelsius(raw))
  }

  /** Every reading of a run is a 16-bit value. */
  lemma RawReadingsBelowLimit(data: Frame, pos: nat, limit: nat)
    ensures forall i :: 0 <= i < |ReadRun(data, pos, limit)| ==> ReadRun(data, pos, limit)[i] < U16Limit
  {
    var raw := ReadRun(data, pos, limit);
    forall i | 0 <= i < |raw|
      ensures raw[i] < U16Limit
    {
      assert raw[i] == U16(data, pos + 2 * i);
    }
  }

  /** Reading i of a run is the raw value of slot i less 2731. */
  lemma ReadingsOfRun(data: Frame, pos: nat, limit: nat)
    requires forall i :: 0 <= i < |ReadRun(data, pos, limit)| ==> ReadRun(data, pos, limit)[i] < U16Limit
    ensures var t := ToDeciCelsius(ReadRun(data, pos, limit));
            forall i :: 0 <= i < |t| ==> Fits(data, pos + 2 * i) && t[i] + KelvinOffsetDeci == U16(data, pos + 2 * i)
  {
    var raw := ReadRun(data, pos, limit);
    var t := ToDeciCelsius(raw);
    forall i | 0 <= i < |t|
      ensures Fits(data, pos + 2 * i) && t[i] + KelvinOffsetDeci == U16(data, pos + 2 * i)
    {
      assert t[i] + KelvinOffsetDeci == raw[i];
    }
  }

  /** Fewer readings than min(6, count) means the next slot does not fit:
      the loop stops only at a missing slot. */
  lemma StopsAtFirstMissingSlot(data: Frame, layout: Layout)
    requires layout.tempSensorCountOffset < |data|
    requires var r := DecodeTemperatures(data, layout).value;
             |r| < Min(MaxTemperatures, data[layout.tempSensorCountOffset])
    ensures !Fits(data, layout.tempSensorsStart + 2 * |DecodeTemperatures(data, layout).value|)
  {
  }
}
