/*
 * Airton: a leading code, a 28-bit address and a 28-bit command, each least
 * significant bit first, and an ending code.  A data frame arrives as 58
 * records.  The builder has no repeat frame and the parser no repeat branch
 * and no check of its out-pointers.
 */
module Airton {
  import opened IrBits
  import opened IrCommon
  import opened IrBuilder
  import opened IrParser

  const DataWords: nat := 58
  const RepeatWords: nat := 2
  /** `repeat_period_ms` as `ir_builder_rmt_new_*` sets it: never set; `calloc` leaves it 0. */
  const RepeatPeriodMs: nat := 0

  /** The records `build_frame` writes: one data frame and the terminator. */
  function Frame(inverse: bool, t: Timing, address: U32, command: U32): (r: seq<Item>)
    ensures |r| == DataWords + 1 && r[DataWords] == ZeroItem
  {
    LsbFrame(inverse, t, address, 28, command, 28)
  }

  /** `build_frame`: no protocol check, the frame is always written. */
  method BuildFrame(b: Builder, address: U32, command: U32) returns (status: Status)
    requires DataWords + 1 <= b.buffer.Length
    modifies b`cursor, b.buffer
    ensures status == Ok && b.cursor == DataWords + 1
    ensures b.buffer[..] == Overwrite(old(b.buffer[..]), 0, Frame(b.inverse, b.timing, address, command))
  {
    b.WriteLsbFrame(address, 28, command, 28);
    return Ok;
  }

  /**
   * `get_scan_code`: every frame is decoded as a data frame, whatever
   * `input` classified it as; a decoded frame becomes the cached code.
   */
  method GetScanCode(p: Parser) returns (status: Status, code: Option<ScanCode>)
    requires DataWords - 1 <= |p.buffer|
    modifies p`cursor, p`lastAddress, p`lastCommand
    ensures status == Ok <==> code.Some?
    ensures status == Ok || status == Fail
    ensures code == LsbDataCode(p.cfg, p.buffer, 28, 28) && p.cursor == (if code.Some? then DataWords - 1 else 1)
    ensures if code.Some?
      then p.lastAddress == code.value.address && p.lastCommand == code.value.command
      else p.lastAddress == old(p.lastAddress) && p.lastCommand == old(p.lastCommand)
  {
    code := p.ReadLsbFrame(28, 28);
    if code.Some? {
      p.lastAddress := code.value.address;
      p.lastCommand := code.value.command;
    }
    status := if code.Some? then Ok else Fail;
  }

  /**
   * `ir_builder_rmt_new_airton`: no builder for a zero buffer size, otherwise a
   * fresh builder that carries this family's repeat period.
   */
  method New(bufferSize: nat, flags: U32, masks: FlagMasks, timing: Timing) returns (r: Option<Builder>)
    ensures r.None? <==> bufferSize == 0
    ensures r.Some? ==> fresh(r.value) && r.value.buffer.Length == bufferSize && r.value.cursor == 0
    ensures r.Some? ==> forall k :: 0 <= k < bufferSize ==> r.value.buffer[k] == ZeroItem
    ensures r.Some? ==> r.value.flags == flags && r.value.inverse == (And(flags, masks.inverse) != 0)
    ensures r.Some? ==> r.value.timing == timing && r.value.repeatPeriodMs == RepeatPeriodMs
  {
    r := NewBuilder(bufferSize, flags, masks, timing, RepeatPeriodMs);
  }

  // ---------------------------------------------------------------------
  // Properties

  /** The parser reads back the low 28 bits of each field of a frame the builder wrote. */
  lemma RoundTrip(cfg: RxConfig, address: U32, command: U32)
    requires Tolerates(cfg.timing, cfg.margin)
    ensures LsbDataCode(cfg, Received(Frame(cfg.inverse, cfg.timing, address, command))[..DataWords], 28, 28) ==
      Some(ScanCode(address % 0x1000_0000, command % 0x1000_0000, false))
  {
    LsbFrameRoundTrip(cfg, address, 28, command, 28, DataWords);
    Pow2Constants();
  }
}
