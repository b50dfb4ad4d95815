/*
 * LG air conditioners (LGAC): a leading code, the address and the command
 * most significant bit first, and an ending code.  The builder sends bits
 * 15 down to 1 of each field; the parser reads bits 15 down to 0 and
 * expects a data frame of 34 records.  The parser has no repeat branch.
 */
module Lg {
  import opened IrBits
  import opened IrCommon
  import opened IrBuilder
  import opened IrParser

  const DataWords: nat := 34
  const RepeatWords: nat := 2
  /** `repeat_period_ms` as `ir_builder_rmt_new_*` sets it. */
  const RepeatPeriodMs: nat := 110

  /** The records `build_frame` writes: fifteen bits of each field, one short of what the parser reads. */
  function Frame(inverse: bool, t: Timing, address: U32, command: U32): (r: seq<Item>)
    ensures |r| == DataWords - 1 && r[|r| - 1] == ZeroItem
  {
    MsbFrame(inverse, t, address, 15, 15, command, 15, 15)
  }

  /** The frame the parser is written for: sixteen bits of each field. */
  function ParserFrame(inverse: bool, t: Timing, address: U32, command: U32): (r: seq<Item>)
    ensures |r| == DataWords + 1 && r[DataWords] == ZeroItem
  {
    MsbFrame(inverse, t, address, 15, 16, command, 15, 16)
  }

  /**
   * `build_frame`: the address check compares the low byte with itself and
   * never fails; the command check wants equal low and high bytes.
   */
  method BuildFrame(b: Builder, address: U32, command: U32) returns (status: Status)
    requires DataWords - 1 <= b.buffer.Length
    modifies b`cursor, b.buffer
    ensures status == Ok <==> !ValidationActive(b.flags, b.protoExt) || LowByte(command) == HighByte(command)
    ensures status != Ok ==> status == InvalidArg && b.cursor == old(b.cursor) && b.buffer[..] == old(b.buffer[..])
    ensures status == Ok ==>
      b.cursor == DataWords - 1 &&
      b.buffer[..] == Overwrite(old(b.buffer[..]), 0, Frame(b.inverse, b.timing, address, command))
  {
    if ValidationActive(b.flags, b.protoExt) {
      var low := LowByte(address);
      if low != low % 256 {
        return InvalidArg;
      }
      low := LowByte(command);
      var high := HighByte(command);
      if low != high % 256 {
        return InvalidArg;
      }
    }
    b.WriteMsbFrame(address, 15, 15, command, 15, 15);
    return Ok;
  }

  /** What `get_scan_code` decodes: sixteen bits of address from record 1, sixteen of command from record 17. */
  function DataCode(cfg: RxConfig, buf: seq<Item>): (r: Option<ScanCode>)
    requires DataWords - 1 <= |buf|
    ensures r.Some? <==> Matches(cfg, buf[0], cfg.timing.lead)
    ensures r.Some? ==> r.value.address < 0x1_0000 && r.value.command < 0x1_0000 && !r.value.repeat
  {
    Pow2Constants();
    if Matches(cfg, buf[0], cfg.timing.lead) then
      Some(ScanCode(MsbValue(cfg, buf, 1, 15, 16), MsbValue(cfg, buf, 17, 15, 16), false))
    else
      None
  }

  /**
   * `get_scan_code`: the repeat branch is commented out, so every frame is
   * decoded as a data frame; a decoded frame becomes the cached code.
   */
  method GetScanCode(p: Parser, outputsPresent: bool) returns (status: Status, code: Option<ScanCode>)
    requires outputsPresent ==> DataWords - 1 <= |p.buffer|
    modifies p`cursor, p`lastAddress, p`lastCommand
    ensures status == Ok <==> code.Some?
    ensures !outputsPresent ==> status == InvalidArg && p.cursor == old(p.cursor)
    ensures outputsPresent ==>
      (status == Ok || status == Fail) &&
      code == DataCode(p.cfg, p.buffer) && p.cursor == (if code.Some? then DataWords - 1 else 1)
    ensures if outputsPresent && code.Some?
      then p.lastAddress == code.value.address && p.lastCommand == code.value.command
      else p.lastAddress == old(p.lastAddress) && p.lastCommand == old(p.lastCommand)
  {
    if !outputsPresent {
      return InvalidArg, None;
    }
    code := None;
    var head := p.ParseHead();
    if head {
      var address := p.ReadMsb(15, 16);
      var command := p.ReadMsb(15, 16);
      code := Some(ScanCode(address, command, false));
      p.lastAddress := address;
      p.lastCommand := command;
    }
    status := if code.Some? then Ok else Fail;
  }

  /**
   * `ir_builder_rmt_new_lgac`: no builder for a zero buffer size, otherwise a
   * fresh builder that carries this family's repeat period.
   */
  method New(bufferSize: nat, flags: U32, masks: FlagMasks, timing: Timing) returns (r: Option<Builder>)
    ensures r.None? <==> bufferSize == 0
    ensures r.Some? ==> fresh(r.value) && r.value.buffer.Length == bufferSize && r.value.cursor == 0
    ensures r.Some? ==> forall k :: 0 <= k < bufferSize ==> r.value.buffer[k] == ZeroItem
    ensures r.Some? ==> r.value.flags == flags && r.value.inverse == (And(flags, masks.inverse) != 0)
    ensures r.Some? ==> r.value.timing == timing && r.value.repeatPeriodMs == RepeatPeriodMs
  {
    r := NewBuilder(bufferSize, flags, masks, timing, RepeatPeriodMs);
  }

  // ---------------------------------------------------------------------
  // Properties

  /** Clearing bit 0 leaves every higher bit as it was. */
  lemma HigherBitsKept(x: nat, k: nat)
    requires 1 <= k
    ensures Bit(x - x % 2, k) == Bit(x, k)
  {
    ModUnique(x - x % 2, 2, x / 2, 0);
  }

  /** The builder never sends bit 0: scan codes that differ only there give the same frame. */
  lemma BitZeroDropped(inverse: bool, t: Timing, address: U32, command: U32)
    ensures Frame(inverse, t, address, command) == Frame(inverse, t, address - address % 2, command - command % 2)
  {
    forall k | 0 <= k < 15
      ensures MsbBits(address, 15, 15)[k] == MsbBits(address - address % 2, 15, 15)[k]
      ensures MsbBits(command, 15, 15)[k] == MsbBits(command - command % 2, 15, 15)[k]
    {
      HigherBitsKept(address, 15 - k);
      HigherBitsKept(command, 15 - k);
    }
    assert MsbBits(address, 15, 15) == MsbBits(address - address % 2, 15, 15);
    assert MsbBits(command, 15, 15) == MsbBits(command - command % 2, 15, 15);
  }

  /**
   * A received frame of the builder holds 32 records before its terminator,
   * a length `input` takes neither as a data frame (34) nor as a repeat
   * frame (2): `Parser.Input` fails on every frame the builder sends.
   */
  lemma BuiltFrameNotAccepted(inverse: bool, t: Timing, address: U32, command: U32)
    ensures var words := |Received(Frame(inverse, t, address, command))| - 1;
      words == 32 && words != DataWords && words != RepeatWords
  {
  }

  /** Records whose head matches and whose fields read back as the sent bits decode to the low 16 bits. */
  lemma DecodeSent(cfg: RxConfig, rx: seq<Item>, address: U32, command: U32)
    requires DataWords - 1 <= |rx| && Matches(cfg, rx[0], cfg.timing.lead)
    requires MsbValue(cfg, rx, 1, 15, 16) == address % Pow2(16) - address % Pow2(0)
    requires MsbValue(cfg, rx, 17, 15, 16) == command % Pow2(16) - command % Pow2(0)
    ensures DataCode(cfg, rx) == Some(ScanCode(address % 0x1_0000, command % 0x1_0000, false))
  {
    Pow2Constants();
    ModUnique(address, 1, address, 0);
    ModUnique(command, 1, command, 0);
  }

  /** The frame the parser is written for decodes to the low 16 bits of each field. */
  lemma ParserFrameRoundTrip(cfg: RxConfig, address: U32, command: U32)
    requires Tolerates(cfg.timing, cfg.margin)
    ensures DataCode(cfg, Received(ParserFrame(cfg.inverse, cfg.timing, address, command))[..DataWords]) ==
      Some(ScanCode(address % 0x1_0000, command % 0x1_0000, false))
  {
    var rx := Received(ParserFrame(cfg.inverse, cfg.timing, address, command))[..DataWords];
    MsbFrameRoundTrip(cfg, address, 15, 16, command, 15, 16, DataWords);
    assert Matches(cfg, rx[0], cfg.timing.lead);
    assert MsbValue(cfg, rx, 1, 15, 16) == address % Pow2(16) - address % Pow2(0);
    assert MsbValue(cfg, rx, 17, 15, 16) == command % Pow2(16) - command % Pow2(0);
    DecodeSent(cfg, rx, address, command);
  }
}
