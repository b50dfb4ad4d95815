/*
 * JVC: a leading code, an 8-bit address and an 8-bit command, each least
 * significant bit first, and an ending code.  A data frame arrives as 18
 * records.  The builder has no repeat frame and the parser no repeat branch.
 */
module Jvc {
  import opened IrBits
  import opened IrCommon
  import opened IrBuilder
  import opened IrParser

  const DataWords: nat := 18
  const RepeatWords: nat := 16
  /** `repeat_period_ms` as `ir_builder_rmt_new_*` sets it. */
  const RepeatPeriodMs: nat := 60

  /** The records `build_frame` writes: one data frame and the terminator. */
  function Frame(inverse: bool, t: Timing, address: U32, command: U32): (r: seq<Item>)
    ensures |r| == DataWords + 1 && r[DataWords] == ZeroItem
  {
    LsbFrame(inverse, t, address, 8, command, 8)
  }

  /** `build_frame`: no protocol check, the frame is always written. */
  method BuildFrame(b: Builder, address: U32, command: U32) returns (status: Status)
    requires DataWords + 1 <= b.buffer.Length
    modifies b`cursor, b.buffer
    ensures status == Ok && b.cursor == DataWords + 1
    ensures b.buffer[..] == Overwrite(old(b.buffer[..]), 0, Frame(b.inverse, b.timing, address, command))
  {
    b.WriteLsbFrame(address, 8, command, 8);
    return Ok;
  }

  /**
   * `get_scan_code`: every frame is decoded as a data frame, whatever
   * `input` classified it as; a decoded frame becomes the cached code.
   */
  method GetScanCode(p: Parser, outputsPresent: bool) returns (status: Status, code: Option<ScanCode>)
    requires outputsPresent ==> DataWords - 1 <= |p.buffer|
    modifies p`cursor, p`lastAddress, p`lastCommand
    ensures status == Ok <==> code.Some?
    ensures !outputsPresent ==> status == InvalidArg && p.cursor == old(p.cursor)
    ensures outputsPresent ==>
      (status == Ok || status == Fail) &&
      code == LsbDataCode(p.cfg, p.buffer, 8, 8) && p.cursor == (if code.Some? then DataWords - 1 else 1)
    ensures if outputsPresent && code.Some?
      then p.lastAddress == code.value.address && p.lastCommand == code.value.command
      else p.lastAddress == old(p.lastAddress) && p.lastCommand == old(p.lastCommand)
  {
    if !outputsPresent {
      return InvalidArg, None;
    }
    code := p.ReadLsbFrame(8, 8);
    if code.Some? {
      p.lastAddress := code.value.address;
      p.lastCommand := code.value.command;
    }
    status := if code.Some? then Ok else Fail;
  }

  /**
   * `ir_builder_rmt_new_jvc`: no builder for a zero buffer size, otherwise a
   * fresh builder that carries this family's repeat period.
   */
  method New(bufferSize: nat, flags: U32, masks: FlagMasks, timing: Timing) returns (r: Option<Builder>)
    ensures r.None? <==> bufferSize == 0
    ensures r.Some? ==> fresh(r.value) && r.value.buffer.Length == bufferSize && r.value.cursor == 0
    ensures r.Some? ==> forall k :: 0 <= k < bufferSize ==> r.value.buffer[k] == ZeroItem
    ensures r.Some? ==> r.value.flags == flags && r.value.inverse == (And(flags, masks.inverse) != 0)
    ensures r.Some? ==> r.value.timing == timing && r.value.repeatPeriodMs == RepeatPeriodMs
  {
    r := NewBuilder(bufferSize, flags, masks, timing, RepeatPeriodMs);
  }

  // ---------------------------------------------------------------------
  // Properties

  /** The parser reads back the low byte of each field of a frame the builder wrote. */
  lemma RoundTrip(cfg: RxConfig, address: U32, command: U32)
    requires Tolerates(cfg.timing, cfg.margin)
    ensures LsbDataCode(cfg, Received(Frame(cfg.inverse, cfg.timing, address, command))[..DataWords], 8, 8) ==
      Some(ScanCode(address % 0x100, command % 0x100, false))
  {
    LsbFrameRoundTrip(cfg, address, 8, command, 8, DataWords);
    Pow2Constants();
  }
}
