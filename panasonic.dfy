/*
 * Panasonic: a leading code, a 16-bit address and a 32-bit command, each
 * least significant bit first, and an ending code.  A data frame arrives as
 * 50 records, a repeat frame as 2.
 */
module Panasonic {
  import opened IrBits
  import opened IrCommon
  import opened IrBuilder
  import opened IrParser

  const DataWords: nat := 50
  const RepeatWords: nat := 2
  /** `repeat_period_ms` as `ir_builder_rmt_new_*` sets it. */
  const RepeatPeriodMs: nat := 110

  /** The standard protocol sends the low byte of both fields as the complement of the byte above it. */
  predicate Standard(address: U32, command: U32)
    ensures Standard(address, command) <==>
      address % 0x1_0000 == 0xFF00 - 255 * LowByte(address) && command % 0x1_0000 == 0xFF00 - 255 * LowByte(command)
  {
    Low16Bytes(address);
    Low16Bytes(command);
    LowByte(address) == NotByte(HighByte(address)) && LowByte(command) == NotByte(HighByte(command))
  }

  /** The records `build_frame` writes: one data frame and the terminator. */
  function Frame(inverse: bool, t: Timing, address: U32, command: U32): (r: seq<Item>)
    ensures |r| == DataWords + 1 && r[DataWords] == ZeroItem
  {
    LsbFrame(inverse, t, address, 16, command, 32)
  }

  /** `build_frame`: check the scan code against the standard protocol when asked to, then write the frame. */
  method BuildFrame(b: Builder, address: U32, command: U32) returns (status: Status)
    requires DataWords + 1 <= b.buffer.Length
    modifies b`cursor, b.buffer
    ensures status == Ok <==> !ValidationActive(b.flags, b.protoExt) || Standard(address, command)
    ensures status != Ok ==> status == InvalidArg && b.cursor == old(b.cursor) && b.buffer[..] == old(b.buffer[..])
    ensures status == Ok ==>
      b.cursor == DataWords + 1 &&
      b.buffer[..] == Overwrite(old(b.buffer[..]), 0, Frame(b.inverse, b.timing, address, command))
  {
    if ValidationActive(b.flags, b.protoExt) {
      var low := LowByte(address);
      var high := HighByte(address);
      if low != NotByte(high) {
        return InvalidArg;
      }
      low := LowByte(command);
      high := HighByte(command);
      if low != NotByte(high) {
        return InvalidArg;
      }
    }
    b.WriteLsbFrame(address, 16, command, 32);
    return Ok;
  }

  /**
   * `get_scan_code`: a repeat frame reports the cached code, a data frame is
   * decoded and becomes the cached code.
   */
  method GetScanCode(p: Parser, outputsPresent: bool) returns (status: Status, code: Option<ScanCode>)
    requires outputsPresent && p.repeat ==> 1 <= |p.buffer|
    requires outputsPresent && !p.repeat ==> DataWords - 1 <= |p.buffer|
    modifies p`cursor, p`lastAddress, p`lastCommand
    ensures status == Ok <==> code.Some?
    ensures !outputsPresent ==> status == InvalidArg && p.cursor == old(p.cursor)
    ensures outputsPresent && status != Ok ==> status == Fail
    ensures outputsPresent && p.repeat ==>
      p.cursor == 1 && code == RepeatCode(p.cfg, p.buffer, old(p.lastAddress), old(p.lastCommand))
    ensures outputsPresent && !p.repeat ==>
      code == LsbDataCode(p.cfg, p.buffer, 16, 32) && p.cursor == (if code.Some? then DataWords - 1 else 1)
    ensures if outputsPresent && !p.repeat && code.Some?
      then p.lastAddress == code.value.address && p.lastCommand == code.value.command
      else p.lastAddress == old(p.lastAddress) && p.lastCommand == old(p.lastCommand)
  {
    if !outputsPresent {
      return InvalidArg, None;
    }
    if p.repeat {
      code := p.ParseRepeat();
    } else {
      code := p.ReadLsbFrame(16, 32);
      if code.Some? {
        p.lastAddress := code.value.address;
        p.lastCommand := code.value.command;
      }
    }
    status := if code.Some? then Ok else Fail;
  }

  /**
   * `ir_builder_rmt_new_panasonic`: no builder for a zero buffer size, otherwise a
   * fresh builder that carries this family's repeat period.
   */
  method New(bufferSize: nat, flags: U32, masks: FlagMasks, timing: Timing) returns (r: Option<Builder>)
    ensures r.None? <==> bufferSize == 0
    ensures r.Some? ==> fresh(r.value) && r.value.buffer.Length == bufferSize && r.value.cursor == 0
    ensures r.Some? ==> forall k :: 0 <= k < bufferSize ==> r.value.buffer[k] == ZeroItem
    ensures r.Some? ==> r.value.flags == flags && r.value.inverse == (And(flags, masks.inverse) != 0)
    ensures r.Some? ==> r.value.timing == timing && r.value.repeatPeriodMs == RepeatPeriodMs
  {
    r := NewBuilder(bufferSize, flags, masks, timing, RepeatPeriodMs);
  }

  // ---------------------------------------------------------------------
  // Properties

  /** The parser reads back the low 16 bits of the address and the whole command of a frame the builder wrote. */
  lemma RoundTrip(cfg: RxConfig, address: U32, command: U32)
    requires Tolerates(cfg.timing, cfg.margin)
    ensures LsbDataCode(cfg, Received(Frame(cfg.inverse, cfg.timing, address, command))[..DataWords], 16, 32) ==
      Some(ScanCode(address % 0x1_0000, command, false))
  {
    LsbFrameRoundTrip(cfg, address, 16, command, 32, DataWords);
    Pow2Constants();
    ModUnique(command, 0x1_0000_0000, 0, command);
  }

  /** A repeat frame the builder wrote is recognised as one and reports the cached code. */
  lemma RepeatRoundTrip(cfg: RxConfig, lastAddress: U32, lastCommand: U32)
    requires Fits(cfg.timing.repeat, cfg.margin)
    ensures var frame := RepeatFrame(cfg.inverse, cfg.timing);
      |frame| - 1 == RepeatWords &&
      RepeatCode(cfg, Received(frame)[..RepeatWords], lastAddress, lastCommand) == Some(ScanCode(lastAddress, lastCommand, true))
  {
    RepeatFrameRecognised(cfg);
  }
}
