/*
 * LEGO: a leading code, a 12-bit command and a 4-bit address, each most
 * significant bit first, and an ending code.  A data frame arrives as 18
 * records.  Neither side handles repeat frames, and the parser checks no
 * out-pointer and keeps no cached code.
 */
module Lego {
  import opened IrBits
  import opened IrCommon
  import opened IrBuilder
  import opened IrParser

  const DataWords: nat := 18
  const RepeatWords: nat := 2
  /** `repeat_period_ms` as `ir_builder_rmt_new_*` sets it: its assignment is commented out, so `calloc` leaves it 0. */
  const RepeatPeriodMs: nat := 0

  /** The records `build_frame` writes: the command before the address, then the terminator. */
  function Frame(inverse: bool, t: Timing, address: U32, command: U32): (r: seq<Item>)
    ensures |r| == DataWords + 1 && r[DataWords] == ZeroItem
  {
    MsbFrame(inverse, t, command, 11, 12, address, 3, 4)
  }

  /** `build_frame`: no protocol check, the frame is always written. */
  method BuildFrame(b: Builder, address: U32, command: U32) returns (status: Status)
    requires DataWords + 1 <= b.buffer.Length
    modifies b`cursor, b.buffer
    ensures status == Ok && b.cursor == DataWords + 1
    ensures b.buffer[..] == Overwrite(old(b.buffer[..]), 0, Frame(b.inverse, b.timing, address, command))
  {
    b.WriteMsbFrame(command, 11, 12, address, 3, 4);
    return Ok;
  }

  /** What `get_scan_code` decodes: the command from records 1-12, the address from records 13-16. */
  function DataCode(cfg: RxConfig, buf: seq<Item>): (r: Option<ScanCode>)
    requires DataWords - 1 <= |buf|
    ensures r.Some? <==> Matches(cfg, buf[0], cfg.timing.lead)
    ensures r.Some? ==> r.value.address < 0x10 && r.value.command < 0x1000 && !r.value.repeat
  {
    Pow2Constants();
    if Matches(cfg, buf[0], cfg.timing.lead) then
      Some(ScanCode(MsbValue(cfg, buf, 13, 3, 4), MsbValue(cfg, buf, 1, 11, 12), false))
    else
      None
  }

  /** `get_scan_code`: every frame is decoded as a data frame; nothing is cached. */
  method GetScanCode(p: Parser) returns (status: Status, code: Option<ScanCode>)
    requires DataWords - 1 <= |p.buffer|
    modifies p`cursor
    ensures status == Ok <==> code.Some?
    ensures status == Ok || status == Fail
    ensures code == DataCode(p.cfg, p.buffer) && p.cursor == (if code.Some? then DataWords - 1 else 1)
  {
    code := None;
    var head := p.ParseHead();
    if head {
      var command := p.ReadMsb(11, 12);
      var address := p.ReadMsb(3, 4);
      code := Some(ScanCode(address, command, false));
    }
    status := if code.Some? then Ok else Fail;
  }

  /**
   * `ir_builder_rmt_new_lego`: no builder for a zero buffer size, otherwise a
   * fresh builder that carries this family's repeat period.
   */
  method New(bufferSize: nat, flags: U32, masks: FlagMasks, timing: Timing) returns (r: Option<Builder>)
    ensures r.None? <==> bufferSize == 0
    ensures r.Some? ==> fresh(r.value) && r.value.buffer.Length == bufferSize && r.value.cursor == 0
    ensures r.Some? ==> forall k :: 0 <= k < bufferSize ==> r.value.buffer[k] == ZeroItem
    ensures r.Some? ==> r.value.flags == flags && r.value.inverse == (And(flags, masks.inverse) != 0)
    ensures r.Some? ==> r.value.timing == timing && r.value.repeatPeriodMs == RepeatPeriodMs
  {
    r := NewBuilder(bufferSize, flags, masks, timing, RepeatPeriodMs);
  }

  // ---------------------------------------------------------------------
  // Properties

  /** Records whose head matches and whose fields read back as the sent bits decode to the low bits of the scan code. */
  lemma DecodeSent(cfg: RxConfig, rx: seq<Item>, address: U32, command: U32)
    requires DataWords - 1 <= |rx| && Matches(cfg, rx[0], cfg.timing.lead)
    requires MsbValue(cfg, rx, 1, 11, 12) == command % Pow2(12) - command % Pow2(0)
    requires MsbValue(cfg, rx, 13, 3, 4) == address % Pow2(4) - address % Pow2(0)
    ensures DataCode(cfg, rx) == Some(ScanCode(address % 0x10, command % 0x1000, false))
  {
    Pow2Constants();
    ModUnique(address, 1, address, 0);
    ModUnique(command, 1, command, 0);
  }

  /** The parser reads back the low 4 bits of the address and the low 12 bits of the command. */
  lemma RoundTrip(cfg: RxConfig, address: U32, command: U32)
    requires Tolerates(cfg.timing, cfg.margin)
    ensures DataCode(cfg, Received(Frame(cfg.inverse, cfg.timing, address, command))[..DataWords]) ==
      Some(ScanCode(address % 0x10, command % 0x1000, false))
  {
    MsbFrameRoundTrip(cfg, command, 11, 12, address, 3, 4, DataWords);
    DecodeSent(cfg, Received(Frame(cfg.inverse, cfg.timing, address, command))[..DataWords], address, command);
  }
}
