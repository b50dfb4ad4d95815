/*
 * Types and pure helpers shared by every infrared builder and parser.
 *
 * An RMT record (`rmt_item32_t`) is modelled as two (level, duration)
 * halves; a duration is a 15-bit tick count.  A record whose 32-bit value is
 * zero marks the end of a transmission.
 */
module IrCommon {
  import opened IrBits

  /** A 15-bit RMT duration field. */
  type Duration = d: nat | d < 0x8000

  datatype Item = Item(level0: bool, duration0: Duration, level1: bool, duration1: Duration)

  /** The record written by `buffer[cursor].val = 0`. */
  const ZeroItem := Item(false, 0, false, 0)

  /** `ending_code_low_ticks`, which every builder sets to the largest 15-bit duration. */
  const EndingLowTicks: Duration := 0x7FFF

  /** The subset of `esp_err_t` the codecs return. */
  datatype Status = Ok | Fail | InvalidArg

  datatype Option<T> = None | Some(value: T)

  /** What `get_scan_code` writes through its out-pointers. */
  datatype ScanCode = ScanCode(address: U32, command: U32, repeat: bool)

  /** A mark followed by a space, both in ticks. */
  datatype Pulse = Pulse(high: Duration, low: Duration)

  /**
   * The tick values of one protocol, as a builder or parser computes them
   * from the microsecond constants.  Fields a family does not use are
   * ignored by that family.
   */
  datatype Timing = Timing(
    lead: Pulse,            // leading_code_{high,low}_ticks
    zero: Pulse,            // payload_logic0_{high,low}_ticks
    one: Pulse,             // payload_logic1_{high,low}_ticks
    repeat: Pulse,          // repeat_code_{high,low}_ticks
    endHigh: Duration,      // ending_code_high_ticks
    message: Pulse,         // message_{high,low}_ticks (Gree, Toshiba)
    newMessageLow: Duration,// new_message_low_ticks (Toshiba parser)
    gap: Pulse)             // msggap_{high,low}_ticks (Sharp)

  // ---------------------------------------------------------------------
  // Records a builder writes

  /** A record that drives the carrier for p.high ticks and idles for p.low ticks. */
  function Mark(inverse: bool, p: Pulse): Item
  {
    Item(!inverse, p.high, inverse, p.low)
  }

  function LogicItem(inverse: bool, t: Timing, bit: bool): Item
  {
    Mark(inverse, if bit then t.one else t.zero)
  }

  /** The records `make_logic1`/`make_logic0` write, one per bit. */
  function LogicItems(inverse: bool, t: Timing, bits: seq<bool>): (r: seq<Item>)
    ensures |r| == |bits|
    ensures forall k :: 0 <= k < |bits| ==> r[k] == LogicItem(inverse, t, bits[k])
  {
    seq(|bits|, k requires 0 <= k < |bits| => LogicItem(inverse, t, bits[k]))
  }

  /** The two records `make_end` writes: the ending mark and the terminator. */
  function EndItems(inverse: bool, t: Timing): seq<Item>
  {
    [Mark(inverse, Pulse(t.endHigh, EndingLowTicks)), ZeroItem]
  }

  /** A leading code, two runs of logic records and `make_end`: the shape of most data frames. */
  function TwoFieldFrame(inverse: bool, t: Timing, first: seq<bool>, second: seq<bool>): (r: seq<Item>)
    ensures |r| == |first| + |second| + 3 && r[|r| - 1] == ZeroItem
  {
    [Mark(inverse, t.lead)] + LogicItems(inverse, t, first) + LogicItems(inverse, t, second) + EndItems(inverse, t)
  }

  /** The data frame with the address, then the command, each least significant bit first. */
  function LsbFrame(inverse: bool, t: Timing, address: nat, addressBits: nat, command: nat, commandBits: nat): (r: seq<Item>)
    ensures |r| == addressBits + commandBits + 3
    ensures r[0] == Mark(inverse, t.lead) && r[|r| - 2] == Mark(inverse, Pulse(t.endHigh, EndingLowTicks)) && r[|r| - 1] == ZeroItem
  {
    TwoFieldFrame(inverse, t, LsbBits(address, addressBits), LsbBits(command, commandBits))
  }

  /** The data frame with two fields sent most significant bit first, from bit `top` down. */
  function MsbFrame(inverse: bool, t: Timing, x: nat, xTop: nat, xBits: nat, y: nat, yTop: nat, yBits: nat): (r: seq<Item>)
    requires xBits <= xTop + 1 && yBits <= yTop + 1
    ensures |r| == xBits + yBits + 3
    ensures r[0] == Mark(inverse, t.lead) && r[|r| - 2] == Mark(inverse, Pulse(t.endHigh, EndingLowTicks)) && r[|r| - 1] == ZeroItem
  {
    TwoFieldFrame(inverse, t, MsbBits(x, xTop, xBits), MsbBits(y, yTop, yBits))
  }

  /** The records `build_repeat_frame` writes: the repeat mark, then `make_end`. */
  function RepeatFrame(inverse: bool, t: Timing): (r: seq<Item>)
    ensures |r| == 3 && r[0] == Mark(inverse, t.repeat) && r[2] == ZeroItem
  {
    [Mark(inverse, t.repeat)] + EndItems(inverse, t)
  }

  // ---------------------------------------------------------------------
  // What a receiver sees

  /**
   * The demodulating IR receiver drives its output low while the carrier is
   * on, so each level arrives complemented; durations are unchanged.
   */
  function Flip(item: Item): Item
  {
    Item(!item.level0, item.duration0, !item.level1, item.duration1)
  }

  function Received(items: seq<Item>): (r: seq<Item>)
    ensures |r| == |items|
    ensures forall k :: 0 <= k < |items| ==> r[k] == Flip(items[k])
  {
    seq(|items|, k requires 0 <= k < |items| => Flip(items[k]))
  }

  // ---------------------------------------------------------------------
  // The duration comparison shared by every parser

  /**
   * A sum or difference of two `uint32_t` values, reduced modulo 2^32 the
   * way unsigned arithmetic wraps; one correction suffices for such operands.
   */
  function Wrap(v: int): (r: U32)
    requires -0x1_0000_0000 < v < 0x2_0000_0000
    ensures r % 0x1_0000_0000 == v % 0x1_0000_0000
  {
    if v < 0 then v + 0x1_0000_0000
    else if v < 0x1_0000_0000 then v
    else v - 0x1_0000_0000
  }

  /** `check_in_range`: `raw < target + margin && raw > target - margin` on `uint32_t`, so both bounds wrap. */
  predicate CheckInRange(raw: U32, target: U32, margin: U32)
    ensures CheckInRange(raw, target, margin) ==> 0 < margin
    ensures raw == target && 0 < margin <= target && target + margin < 0x1_0000_0000 ==> CheckInRange(raw, target, margin)
  {
    raw < Wrap(target + margin) && raw > Wrap(target - margin)
  }

  /** Without wrap-around the comparison is an open interval around the target. */
  lemma CheckInRangeInterval(raw: U32, target: U32, margin: U32)
    requires margin <= target && target + margin < 0x1_0000_0000
    ensures CheckInRange(raw, target, margin) <==> target - margin < raw < target + margin
  {
  }

  /**
   * When the margin exceeds the target (and is at most 2^31), `target -
   * margin` wraps to a huge value and no duration is ever in range.
   */
  lemma CheckInRangeWraps(raw: U32, target: U32, margin: U32)
    requires target < margin <= 0x8000_0000
    ensures !CheckInRange(raw, target, margin)
  {
  }

  /** A margin a template tolerates: positive and no larger than either half. */
  predicate Fits(p: Pulse, margin: U32)
  {
    0 < margin <= p.high && margin <= p.low
  }

  /** Two templates that no margin-window around one can confuse with the other. */
  predicate Separated(p: Pulse, q: Pulse, margin: U32)
  {
    p.high - q.high >= margin || q.high - p.high >= margin ||
    p.low - q.low >= margin || q.low - p.low >= margin
  }

  /** The margin conditions under which every record a builder writes is read back as written. */
  predicate Tolerates(t: Timing, margin: U32)
  {
    Fits(t.lead, margin) && Fits(t.zero, margin) && Fits(t.one, margin) &&
    Separated(t.zero, t.one, margin)
  }

  // ---------------------------------------------------------------------
  // Byte arithmetic used by the builders' protocol checks

  /** `x & 0xFF`. */
  function LowByte(x: nat): nat { x % 256 }

  /** `(x >> 8) & 0xFF`. */
  function HighByte(x: nat): nat { (x / 256) % 256 }

  /** `~b & 0xFF` for a byte b. */
  function NotByte(b: nat): nat
    requires b < 256
  {
    255 - b
  }

  /** The low 16 bits of x are its high byte and its low byte. */
  lemma Low16Bytes(x: nat)
    ensures x % 0x1_0000 == 256 * HighByte(x) + LowByte(x)
  {
    var m := x % 0x1_0000;
    ModUnique(m, 256, m / 256, m % 256);
    ModUnique(x, 256, 256 * (x / 0x1_0000) + m / 256, m % 256);
    ModUnique(x / 256, 256, x / 0x1_0000, m / 256);
  }

  /**
   * `(!flags) & IR_TOOLS_FLAGS_PROTO_EXT`: logical not yields 0 or 1, so the
   * standard-protocol check runs only when no flag at all is set and the
   * mask has bit 0 set.
   */
  predicate ValidationActive(flags: U32, protoExt: U32)
  {
    And(if flags == 0 then 1 else 0, protoExt) != 0
  }

  lemma ValidationActiveIff(flags: U32, protoExt: U32)
    ensures ValidationActive(flags, protoExt) <==> flags == 0 && Bit(protoExt, 0)
  {
    if flags == 0 && protoExt != 0 {
      assert And(1, protoExt) == protoExt % 2 + 2 * And(0, protoExt / 2);
    }
  }
}
