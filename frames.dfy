/**
 * The notification payloads of the Soehnle Shape200 scale: classification by
 * the leading tag byte, and the fixed-offset decoding of a weight frame into a
 * timestamped weight record.
 *
 * A Rust panic (an out-of-bounds index into the payload, or an impossible
 * date or time handed to chrono's panicking constructors) is modelled as an
 * explicit `Panic` value, never as a precondition.
 */
module Frames {
  import opened Wrappers

  newtype byte = x: int | 0 <= x < 256

  /** Why the driver panics. */
  datatype Panic =
    | IndexOutOfBounds(index: nat, len: nat)  // `value[index]` on a payload of length `len`
    | InvalidDate                             // `NaiveDate::from_ymd` rejected its arguments
    | InvalidTime                             // `NaiveTime::from_hms` rejected its arguments

  // ---------------------------------------------------------------------------
  // Big-endian 16-bit fields

  /** The field `(hi as i32) * 256 + (lo as i32)`; it splits back into its two bytes. */
  function Be16(hi: byte, lo: byte): (n: nat)
    ensures n < 0x1_0000
    ensures n / 256 == hi as int && n % 256 == lo as int
  {
    hi as int * 256 + lo as int
  }

  function HighByte(n: nat): byte
    requires n < 0x1_0000
  {
    (n / 256) as byte
  }

  function LowByte(n: nat): byte {
    (n % 256) as byte
  }

  // ---------------------------------------------------------------------------
  // Calendar validity, as chrono's `from_ymd` and `from_hms` check it

  /** The year range chrono's `NaiveDate` represents. */
  const MinYear: int := -262144
  const MaxYear: int := 262143

  /** Leap years of the proleptic Gregorian calendar. */
  predicate IsLeapYear(y: int) {
    y % 4 == 0 && (y % 100 != 0 || y % 400 == 0)
  }

  function DaysInMonth(y: int, m: int): (n: nat)
    requires 1 <= m <= 12
    ensures 28 <= n <= 31
    ensures n == 29 <==> m == 2 && IsLeapYear(y)
  {
    if m == 2 then (if IsLeapYear(y) then 29 else 28)
    else if m == 4 || m == 6 || m == 9 || m == 11 then 30
    else 31
  }

  predicate ValidDate(y: int, m: int, d: int) {
    MinYear <= y <= MaxYear && 1 <= m <= 12 && 1 <= d <= DaysInMonth(y, m)
  }

  predicate ValidTime(h: int, mi: int, s: int) {
    0 <= h < 24 && 0 <= mi < 60 && 0 <= s < 60
  }

  /** A calendar date and time of day, without time zone. */
  datatype DateTime = DateTime(year: int, month: int, day: int, hour: int, minute: int, second: int)

  predicate ValidDateTime(t: DateTime) {
    ValidDate(t.year, t.month, t.day) && ValidTime(t.hour, t.minute, t.second)
  }

  // ---------------------------------------------------------------------------
  // Records

  /** The one kind of measured value the driver produces: a weight in tenths of a kilogram. */
  datatype Value = Weight(tenths: nat)

  datatype Record = Record(timestamp: DateTime, values: seq<Value>)

  // ---------------------------------------------------------------------------
  // Classification by tag byte

  datatype Tag = WeightTag | ActivityTag | OtherTag | TagPanic(panic: Panic)

  /**
   * `value[0] == 9` selects a weight frame; otherwise `value[0] == 12 && value[1] == 1`
   * (short-circuit) selects an activity frame; anything else is ignored.
   */
  function Classify(value: seq<byte>): (t: Tag)
    ensures t == WeightTag <==> |value| >= 1 && value[0] == 9
    ensures t == ActivityTag <==> |value| >= 2 && value[0] == 12 && value[1] == 1
    ensures t.TagPanic? <==> |value| == 0 || (value[0] == 12 && |value| == 1)
    ensures t.TagPanic? ==> t.panic == IndexOutOfBounds(|value|, |value|)
  {
    if |value| == 0 then TagPanic(IndexOutOfBounds(0, 0))
    else if value[0] == 9 then WeightTag
    else if value[0] == 12 then
      if |value| < 2 then TagPanic(IndexOutOfBounds(1, |value|))
      else if value[1] == 1 then ActivityTag
      else OtherTag
    else OtherTag
  }

  // ---------------------------------------------------------------------------
  // The weight frame

  /** Every field the driver computes from a weight frame, impedances included. */
  datatype WeightFrame = WeightFrame(
    year: nat, month: byte, day: byte,
    hour: byte, minute: byte, second: byte,
    weightTenths: nat, impedance5k: nat, impedance50k: nat)

  /** The 16-bit fields fit their two bytes. */
  predicate InRange(f: WeightFrame) {
    f.year < 0x1_0000 && f.weightTenths < 0x1_0000 &&
    f.impedance5k < 0x1_0000 && f.impedance50k < 0x1_0000
  }

  function Timestamp(f: WeightFrame): DateTime {
    DateTime(f.year, f.month as int, f.day as int, f.hour as int, f.minute as int, f.second as int)
  }

  /**
   * Decodes a weight frame as the driver does, in its order of evaluation:
   * bytes 2-5, then the date check, bytes 6-8, then the time check, then bytes
   * 9-14. The first index past the end, or the first rejected date or time,
   * is the panic.
   */
  function DecodeWeightFrame(value: seq<byte>): (r: Result<WeightFrame, Panic>)
    ensures r.Success? <==>
      |value| >= 15 &&
      ValidDate(Be16(value[2], value[3]), value[4] as int, value[5] as int) &&
      ValidTime(value[6] as int, value[7] as int, value[8] as int)
    ensures r.Success? ==>
      var f := r.value;
      f.year == Be16(value[2], value[3]) &&
      f.month == value[4] && f.day == value[5] &&
      f.hour == value[6] && f.minute == value[7] && f.second == value[8] &&
      f.weightTenths == Be16(value[9], value[10]) &&
      f.impedance5k == Be16(value[11], value[12]) &&
      f.impedance50k == Be16(value[13], value[14])
    ensures r.Success? ==> InRange(r.value) && ValidDateTime(Timestamp(r.value))
    ensures r.Failure? && r.error.IndexOutOfBounds? ==>
      r.error.len == |value| && |value| <= r.error.index < 15
  {
    if |value| < 6 then
      Failure(IndexOutOfBounds(if |value| < 2 then 2 else |value|, |value|))
    else
      var year := Be16(value[2], value[3]);
      if !ValidDate(year, value[4] as int, value[5] as int) then Failure(InvalidDate)
      else if |value| < 9 then Failure(IndexOutOfBounds(|value|, |value|))
      else if !ValidTime(value[6] as int, value[7] as int, value[8] as int) then Failure(InvalidTime)
      else if |value| < 15 then Failure(IndexOutOfBounds(|value|, |value|))
      else
        Success(WeightFrame(
          year, value[4], value[5], value[6], value[7], value[8],
          Be16(value[9], value[10]), Be16(value[11], value[12]), Be16(value[13], value[14])))
  }

  /** The record a decoded weight frame becomes: its timestamp and its weight, nothing else. */
  function ToRecord(f: WeightFrame): Record {
    Record(Timestamp(f), [Weight(f.weightTenths)])
  }

  /** Lays the fields out at the offsets the decoder reads, tag 9 first, byte 1 zero. */
  function EncodeWeightFrame(f: WeightFrame): (v: seq<byte>)
    requires InRange(f)
    ensures |v| == 15 && Classify(v) == WeightTag
  {
    [9, 0, HighByte(f.year), LowByte(f.year), f.month, f.day, f.hour, f.minute, f.second,
     HighByte(f.weightTenths), LowByte(f.weightTenths),
     HighByte(f.impedance5k), LowByte(f.impedance5k),
     HighByte(f.impedance50k), LowByte(f.impedance50k)]
  }

  lemma Be16Split(n: nat)
    requires n < 0x1_0000
    ensures Be16(HighByte(n), LowByte(n)) == n
  {
  }

  /** Encoding a frame with a real date and time and decoding it gives the frame back. */
  lemma DecodeEncode(f: WeightFrame)
    requires InRange(f) && ValidDateTime(Timestamp(f))
    ensures DecodeWeightFrame(EncodeWeightFrame(f)) == Success(f)
  {
    Be16Split(f.year);
    Be16Split(f.weightTenths);
    Be16Split(f.impedance5k);
    Be16Split(f.impedance50k);
  }

  /** A decoded frame re-encodes to tag 9 and to bytes 2-14 it was read from (byte 1 and bytes past 14 are never read). */
  lemma EncodeDecode(value: seq<byte>)
    requires DecodeWeightFrame(value).Success?
    ensures var v := EncodeWeightFrame(DecodeWeightFrame(value).value);
      v[0] == 9 && forall k | 2 <= k < 15 :: v[k] == value[k]
  {
  }

  /** The impedances are computed but never reach the record. */
  lemma RecordDropsImpedance(f: WeightFrame, imp5: nat, imp50: nat)
    ensures ToRecord(f) == ToRecord(f.(impedance5k := imp5, impedance50k := imp50))
    ensures ToRecord(f).values == [Weight(f.weightTenths)]
  {
  }

  /** 2023-01-15 10:30:00, weight bytes [2, 188]: 700 tenths, that is 70.0 kg. */
  lemma SampleWeightFrame()
    ensures DecodeWeightFrame([9, 0, 7, 231, 1, 15, 10, 30, 0, 2, 188, 0, 0, 0, 0])
         == Success(WeightFrame(2023, 1, 15, 10, 30, 0, 700, 0, 0))
    ensures ToRecord(WeightFrame(2023, 1, 15, 10, 30, 0, 700, 0, 0))
         == Record(DateTime(2023, 1, 15, 10, 30, 0), [Weight(700)])
  {
    var f := WeightFrame(2023, 1, 15, 10, 30, 0, 700, 0, 0);
    assert ValidDateTime(Timestamp(f));
    assert EncodeWeightFrame(f) == [9, 0, 7, 231, 1, 15, 10, 30, 0, 2, 188, 0, 0, 0, 0];
    DecodeEncode(f);
  }

  /** Month 13 makes `from_ymd` panic. */
  lemma MonthThirteenPanics()
    ensures DecodeWeightFrame([9, 0, 7, 231, 13, 15, 10, 30, 0, 2, 188, 0, 0, 0, 0]) == Failure(InvalidDate)
  {
  }
}
