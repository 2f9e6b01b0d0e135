/** Frames as byte sequences, and the big-endian 16-bit field reads that every
    part of the decoder is built from. */
module Bytes {
  import opened Wrappers

  type byte = b: int | 0 <= b < 256

  /** One frame as handed over by the transport: bytes in wire order. */
  type Frame = seq<byte>

  const U16Limit: nat := 0x1_0000

  function Min(a: int, b: int): int {
    if a <= b then a else b
  }

  function Max(a: int, b: int): int {
    if a >= b then a else b
  }

  function Abs(a: int): nat {
    if a < 0 then -a else a
  }

  /** The two-byte field starting at `pos` lies wholly inside the frame. */
  predicate Fits(data: Frame, pos: nat) {
    pos + 2 <= |data|
  }

  /** The unsigned big-endian 16-bit value at `pos`: high byte first. */
  function U16(data: Frame, pos: nat): (v: nat)
    requires Fits(data, pos)
    ensures v < U16Limit
    ensures v / 256 == data[pos] && v % 256 == data[pos + 1]
  {
    (data[pos] as int) * 256 + data[pos + 1]
  }

  /** The bounds-checked read: a value exactly when the field fits. */
  function ReadU16(data: Frame, pos: nat): (r: Option<nat>)
    ensures r.Some? <==> Fits(data, pos)
    ensures r.Some? ==> r.value == U16(data, pos) && r.value < U16Limit
  {
    if Fits(data, pos) then Some(U16(data, pos)) else None
  }

  /** Writes `v` big-endian at `pos`: the inverse of U16, used to build frames. */
  function Put16(data: Frame, pos: nat, v: nat): (r: Frame)
    requires Fits(data, pos) && v < U16Limit
    ensures |r| == |data|
    ensures U16(r, pos) == v
    ensures forall i :: 0 <= i < |data| && (i < pos || pos + 2 <= i) ==> r[i] == data[i]
  {
    data[..pos] + [v / 256, v % 256] + data[pos + 2..]
  }

  /** Writing back the value just read leaves the frame as it was. */
  lemma PutWhatWasRead(data: Frame, pos: nat)
    requires Fits(data, pos)
    ensures Put16(data, pos, U16(data, pos)) == data
  {
    var r := Put16(data, pos, U16(data, pos));
    forall i | 0 <= i < |data|
      ensures r[i] == data[i]
    {
      if pos <= i < pos + 2 {
        assert U16(r, pos) == U16(data, pos);
      }
    }
  }

  /** Two's-complement reading of a 16-bit pattern (the cast to int16_t). */
  function ToInt16(u: nat): (s: int)
    requires u < U16Limit
    ensures -0x8000 <= s < 0x8000
    ensures (u - s) % U16Limit == 0
    ensures s < 0 <==> u >= 0x8000
  {
    if u < 0x8000 then u else u - U16Limit
  }

  /** The 16-bit pattern of a signed value: the inverse of ToInt16. */
  function FromInt16(s: int): (u: nat)
    requires -0x8000 <= s < 0x8000
    ensures u < U16Limit
    ensures (u - s) % U16Limit == 0
  {
    if s < 0 then s + U16Limit else s
  }

  lemma Int16RoundTrip(s: int)
    requires -0x8000 <= s < 0x8000
    ensures ToInt16(FromInt16(s)) == s
  {
  }

  lemma Int16BitsRoundTrip(u: nat)
    requires u < U16Limit
    ensures FromInt16(ToInt16(u)) == u
  {
  }

  /** How many whole two-byte slots follow `pos` inside the frame. */
  function SlotsFrom(data: Frame, pos: nat): nat {
    if pos <= |data| then (|data| - pos) / 2 else 0
  }

  /** Room for `k` fields from `pos` means at least `k` whole slots. */
  lemma SlotsAtLeast(data: Frame, pos: nat, k: nat)
    requires pos + 2 * k <= |data|
    ensures SlotsFrom(data, pos) >= k
  {
  }

  /** Consecutive 16-bit fields from `pos`, at most `limit` of them, stopping
      at the first one that does not fit: the shape shared by the cell-voltage
      loop and the temperature loop. */
  function ReadRun(data: Frame, pos: nat, limit: nat): (vs: seq<nat>)
    ensures |vs| == Min(limit, SlotsFrom(data, pos))
    ensures forall i :: 0 <= i < |vs| ==> Fits(data, pos + 2 * i) && vs[i] == U16(data, pos + 2 * i)
    decreases limit
  {
    if limit == 0 || !Fits(data, pos) then []
    else [U16(data, pos)] + ReadRun(data, pos + 2, limit - 1)
  }

  /** Cutting the frame short only cuts the run short: what is read from a
      prefix is a prefix of what is read from the whole frame. */
  lemma ReadRunOfPrefix(data: Frame, n: nat, pos: nat, limit: nat)
    requires n <= |data|
    ensures ReadRun(data[..n], pos, limit) <= ReadRun(data, pos, limit)
  {
    var short := ReadRun(data[..n], pos, limit);
    var long := ReadRun(data, pos, limit);
    assert |short| <= |long|;
    forall i | 0 <= i < |short|
      ensures short[i] == long[i]
    {
      assert data[..n][pos + 2 * i] == data[pos + 2 * i];
      assert data[..n][pos + 2 * i + 1] == data[pos + 2 * i + 1];
    }
  }
}
