/*
 * Sony SIRC: a leading code, a 7-bit command and then a 5-, 8- or 13-bit
 * address, each least significant bit first, chosen at build time by the
 * SONY_12, SONY_15 or SONY_20 configuration.  Neither the data frame nor
 * the repeat frame has an ending code or a terminator.
 */
module Sony {
  import opened IrBits
  import opened IrCommon
  import opened IrBuilder
  import opened IrParser

  /** The build-time configuration `CONFIG_EXAMPLE_IR_PROTOCOL_SONY_{12,15,20}`. */
  datatype Variant = Sony12 | Sony15 | Sony20

  function AddressBits(v: Variant): nat
  {
    match v
    case Sony12 => 5
    case Sony15 => 8
    case Sony20 => 13
  }

  /** `SONY_DATA_FRAME_RMT_WORDS` for each configuration. */
  function DataWords(v: Variant): nat
  {
    match v
    case Sony12 => 13
    case Sony15 => 16
    case Sony20 => 21
  }

  const CommandBits: nat := 7
  const RepeatWords: nat := 2
  /** `repeat_period_ms` as `ir_builder_rmt_new_*` sets it. */
  const RepeatPeriodMs: nat := 45

  /** The records `build_frame` writes: the head, the command, the address, and nothing after them. */
  function Frame(inverse: bool, t: Timing, v: Variant, address: U32, command: U32): (r: seq<Item>)
    ensures |r| == DataWords(v)
  {
    [Mark(inverse, t.lead)] + LogicItems(inverse, t, LsbBits(command, CommandBits)) +
    LogicItems(inverse, t, LsbBits(address, AddressBits(v)))
  }

  /**
   * The record `build_repeat_frame` writes: the repeat mark alone, so the
   * received frame has a length `input` accepts as neither kind of frame.
   */
  function RepeatFrame(inverse: bool, t: Timing): (r: seq<Item>)
    ensures |r| == 1 && r[0] == Mark(inverse, t.repeat)
    ensures |r| != RepeatWords && |r| != DataWords(Sony12) && |r| != DataWords(Sony15) && |r| != DataWords(Sony20)
  {
    [Mark(inverse, t.repeat)]
  }

  /** `build_frame`: no protocol check; the cursor ends right after the last address bit. */
  method BuildFrame(b: Builder, v: Variant, address: U32, command: U32) returns (status: Status)
    requires DataWords(v) <= b.buffer.Length
    modifies b`cursor, b.buffer
    ensures status == Ok && b.cursor == DataWords(v)
    ensures b.buffer[..] == Overwrite(old(b.buffer[..]), 0, Frame(b.inverse, b.timing, v, address, command))
  {
    ghost var before := b.buffer[..];
    b.MakeHead();
    ghost var s1 := b.buffer[..];
    b.EmitLsb(command, CommandBits);
    ghost var s2 := b.buffer[..];
    b.EmitLsb(address, AddressBits(v));
    ThreeRuns(before, [Mark(b.inverse, b.timing.lead)], LogicItems(b.inverse, b.timing, LsbBits(command, CommandBits)),
      LogicItems(b.inverse, b.timing, LsbBits(address, AddressBits(v))), s1, s2, b.buffer[..]);
    return Ok;
  }

  /** `build_repeat_frame`: one record, with no ending code. */
  method BuildRepeatFrame(b: Builder) returns (status: Status)
    requires 1 <= b.buffer.Length
    modifies b`cursor, b.buffer
    ensures status == Ok && b.cursor == 1
    ensures b.buffer[..] == Overwrite(old(b.buffer[..]), 0, RepeatFrame(b.inverse, b.timing))
  {
    b.cursor := 0;
    b.buffer[b.cursor] := Mark(b.inverse, b.timing.repeat);
    b.cursor := b.cursor + 1;
    return Ok;
  }

  /** What the data branch decodes: the command from records 1-7, the address from record 8 on. */
  function DataCode(cfg: RxConfig, buf: seq<Item>, v: Variant): (r: Option<ScanCode>)
    requires DataWords(v) <= |buf|
    ensures r.Some? <==> Matches(cfg, buf[0], cfg.timing.lead)
    ensures r.Some? ==> r.value.address < Pow2(AddressBits(v)) && r.value.command < Pow2(CommandBits) && !r.value.repeat
  {
    if Matches(cfg, buf[0], cfg.timing.lead) then
      Some(ScanCode(LsbValue(cfg, buf, 1 + CommandBits, AddressBits(v)), LsbValue(cfg, buf, 1, CommandBits), false))
    else
      None
  }

  /**
   * `get_scan_code`: a repeat frame reports the cached code, a data frame is
   * decoded and becomes the cached code.
   */
  method GetScanCode(p: Parser, v: Variant, outputsPresent: bool) returns (status: Status, code: Option<ScanCode>)
    requires outputsPresent && p.repeat ==> 1 <= |p.buffer|
    requires outputsPresent && !p.repeat ==> DataWords(v) <= |p.buffer|
    modifies p`cursor, p`lastAddress, p`lastCommand
    ensures status == Ok <==> code.Some?
    ensures !outputsPresent ==> status == InvalidArg && p.cursor == old(p.cursor)
    ensures outputsPresent && status != Ok ==> status == Fail
    ensures outputsPresent && p.repeat ==>
      p.cursor == 1 && code == RepeatCode(p.cfg, p.buffer, old(p.lastAddress), old(p.lastCommand))
    ensures outputsPresent && !p.repeat ==>
      code == DataCode(p.cfg, p.buffer, v) && p.cursor == (if code.Some? then DataWords(v) else 1)
    ensures if outputsPresent && !p.repeat && code.Some?
      then p.lastAddress == code.value.address && p.lastCommand == code.value.command
      else p.lastAddress == old(p.lastAddress) && p.lastCommand == old(p.lastCommand)
  {
    if !outputsPresent {
      return InvalidArg, None;
    }
    if p.repeat {
      code := p.ParseRepeat();
    } else {
      code := None;
      var head := p.ParseHead();
      if head {
        var command := p.ReadLsb(CommandBits);
        var address := p.ReadLsb(AddressBits(v));
        code := Some(ScanCode(address, command, false));
        p.lastAddress := address;
        p.lastCommand := command;
      }
    }
    status := if code.Some? then Ok else Fail;
  }

  /**
   * `ir_builder_rmt_new_sony`: no builder for a zero buffer size, otherwise a
   * fresh builder that carries this family's repeat period.
   */
  method New(bufferSize: nat, flags: U32, masks: FlagMasks, timing: Timing) returns (r: Option<Builder>)
    ensures r.None? <==> bufferSize == 0
    ensures r.Some? ==> fresh(r.value) && r.value.buffer.Length == bufferSize && r.value.cursor == 0
    ensures r.Some? ==> forall k :: 0 <= k < bufferSize ==> r.value.buffer[k] == ZeroItem
    ensures r.Some? ==> r.value.flags == flags && r.value.inverse == (And(flags, masks.inverse) != 0)
    ensures r.Some? ==> r.value.timing == timing && r.value.repeatPeriodMs == RepeatPeriodMs
  {
    r := NewBuilder(bufferSize, flags, masks, timing, RepeatPeriodMs);
  }

  // ---------------------------------------------------------------------
  // Properties

  /** A received data frame starts with the leading code and carries the command, then the address. */
  lemma Layout(cfg: RxConfig, v: Variant, address: U32, command: U32)
    requires Tolerates(cfg.timing, cfg.margin)
    ensures var rx := Received(Frame(cfg.inverse, cfg.timing, v, address, command))[..DataWords(v)];
      Matches(cfg, rx[0], cfg.timing.lead) &&
      ReadBits(cfg, rx, 1, CommandBits) == LsbBits(command, CommandBits) &&
      ReadBits(cfg, rx, 1 + CommandBits, AddressBits(v)) == LsbBits(address, AddressBits(v))
  {
    var t := cfg.timing;
    var head := [Mark(cfg.inverse, t.lead)];
    var commandBits := LsbBits(command, CommandBits);
    var addressBits := LsbBits(address, AddressBits(v));
    var rx := Received(Frame(cfg.inverse, t, v, address, command))[..DataWords(v)];
    ReceivedMarkMatches(cfg, t.lead);
    SegmentCarries(cfg, head, commandBits, LogicItems(cfg.inverse, t, addressBits), DataWords(v));
    ReadCarried(cfg, rx, 1, commandBits);
    assert head + LogicItems(cfg.inverse, t, commandBits) + LogicItems(cfg.inverse, t, addressBits) ==
      head + LogicItems(cfg.inverse, t, commandBits) + LogicItems(cfg.inverse, t, addressBits) + [];
    SegmentCarries(cfg, head + LogicItems(cfg.inverse, t, commandBits), addressBits, [], DataWords(v));
    ReadCarried(cfg, rx, 1 + CommandBits, addressBits);
  }

  /** Records whose head matches and whose fields read back as the sent bits decode to the low bits of the scan code. */
  lemma DecodeSent(cfg: RxConfig, rx: seq<Item>, v: Variant, address: U32, command: U32)
    requires DataWords(v) <= |rx| && Matches(cfg, rx[0], cfg.timing.lead)
    requires ReadBits(cfg, rx, 1, CommandBits) == LsbBits(command, CommandBits)
    requires ReadBits(cfg, rx, 1 + CommandBits, AddressBits(v)) == LsbBits(address, AddressBits(v))
    ensures var code := DataCode(cfg, rx, v);
      code.Some? && !code.value.repeat &&
      code.value.address == address % Pow2(AddressBits(v)) && code.value.command == command % 0x80
  {
    LsbRoundTrip(command, CommandBits);
    LsbRoundTrip(address, AddressBits(v));
    Pow2Constants();
  }

  /**
   * A data frame the builder wrote arrives as exactly the records the parser
   * expects and decodes to the low 7 bits of the command and the low
   * 5, 8 or 13 bits of the address.
   */
  lemma RoundTrip(cfg: RxConfig, v: Variant, address: U32, command: U32)
    requires Tolerates(cfg.timing, cfg.margin)
    ensures var code := DataCode(cfg, Received(Frame(cfg.inverse, cfg.timing, v, address, command))[..DataWords(v)], v);
      code.Some? && !code.value.repeat &&
      code.value.address == address % Pow2(AddressBits(v)) && code.value.command == command % 0x80
  {
    Layout(cfg, v, address, command);
    DecodeSent(cfg, Received(Frame(cfg.inverse, cfg.timing, v, address, command))[..DataWords(v)], v, address, command);
  }
}
