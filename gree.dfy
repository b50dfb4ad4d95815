/*
 * Gree air conditioners: a leading code, a 32-bit address least significant
 * bit first, a three-bit footer 0-1-0, a message space, a 32-bit command
 * least significant bit first, and an ending code.  A data frame arrives as
 * 70 records.  The protocol check and the repeat frame are commented out on
 * both sides, the parser decodes the footer without reporting it, and it
 * keeps no cached code.
 */
module Gree {
  import opened IrBits
  import opened IrCommon
  import opened IrBuilder
  import opened IrParser

  const DataWords: nat := 70
  /** `repeat_period_ms` as `ir_builder_rmt_new_*` sets it: its assignment is commented out, so `calloc` leaves it 0. */
  const RepeatPeriodMs: nat := 0

  /** The bits `make_footer` sends, in order. */
  const FooterBits: seq<bool> := [false, true, false]

  /** The value the parser's footer loop accumulates from those bits. */
  const FooterValue: nat := 2

  /** The records `build_frame` writes, terminator included. */
  function Frame(inverse: bool, t: Timing, address: U32, command: U32): (r: seq<Item>)
    ensures |r| == DataWords + 1 && r[DataWords] == ZeroItem
  {
    [Mark(inverse, t.lead)] + LogicItems(inverse, t, LsbBits(address, 32)) + LogicItems(inverse, t, FooterBits) +
    [Mark(inverse, t.message)] + LogicItems(inverse, t, LsbBits(command, 32)) + EndItems(inverse, t)
  }

  /** `make_footer`: logic 0, logic 1, logic 0 at the cursor. */
  method MakeFooter(b: Builder)
    requires b.cursor + 3 <= b.buffer.Length
    modifies b`cursor, b.buffer
    ensures b.cursor == old(b.cursor) + 3
    ensures b.buffer[..] == Overwrite(old(b.buffer[..]), old(b.cursor), LogicItems(b.inverse, b.timing, FooterBits))
  {
    ghost var start := b.cursor;
    ghost var before := b.buffer[..];
    b.MakeLogic0();
    ghost var s1 := b.buffer[..];
    b.MakeLogic1();
    ghost var s2 := b.buffer[..];
    b.MakeLogic0();
    FooterWritten(before, start, b.inverse, b.timing, s1, s2, b.buffer[..]);
  }

  /** The three records `make_footer` writes one by one are the footer's logic records. */
  lemma FooterWritten(before: seq<Item>, start: nat, inverse: bool, t: Timing, s1: seq<Item>, s2: seq<Item>, s3: seq<Item>)
    requires start + 3 <= |before|
    requires s1 == Overwrite(before, start, [LogicItem(inverse, t, false)])
    requires s2 == Overwrite(s1, start + 1, [LogicItem(inverse, t, true)])
    requires s3 == Overwrite(s2, start + 2, [LogicItem(inverse, t, false)])
    ensures s3 == Overwrite(before, start, LogicItems(inverse, t, FooterBits))
  {
    var zero, one := [LogicItem(inverse, t, false)], [LogicItem(inverse, t, true)];
    OverwriteTwice(before, start, zero, one);
    OverwriteTwice(before, start, zero + one, zero);
    assert LogicItems(inverse, t, FooterBits) == zero + one + zero;
  }

  /** `build_frame`: no protocol check, the frame is always written; the cursor ends after the terminator. */
  method BuildFrame(b: Builder, address: U32, command: U32) returns (status: Status)
    requires DataWords + 1 <= b.buffer.Length
    modifies b`cursor, b.buffer
    ensures status == Ok && b.cursor == DataWords + 1
    ensures b.buffer[..] == Overwrite(old(b.buffer[..]), 0, Frame(b.inverse, b.timing, address, command))
  {
    var inv, t := b.inverse, b.timing;
    ghost var before := b.buffer[..];
    b.MakeHead();
    ghost var s1 := b.buffer[..];
    b.EmitLsb(address, 32);
    ghost var s2 := b.buffer[..];
    MakeFooter(b);
    ThreeRuns(before, [Mark(inv, t.lead)], LogicItems(inv, t, LsbBits(address, 32)), LogicItems(inv, t, FooterBits),
      s1, s2, b.buffer[..]);
    ghost var s3 := b.buffer[..];
    WriteCommand(b, command);
    TailWritten(before, [Mark(inv, t.lead)] + LogicItems(inv, t, LsbBits(address, 32)) + LogicItems(inv, t, FooterBits),
      [Mark(inv, t.message)], LogicItems(inv, t, LsbBits(command, 32)), EndItems(inv, t), s3, b.buffer[..]);
    return Ok;
  }

  /** The second half of `build_frame`: the message space, the command loop and `make_end`, at the cursor. */
  method WriteCommand(b: Builder, command: U32)
    requires b.cursor + 35 <= b.buffer.Length
    modifies b`cursor, b.buffer
    ensures b.cursor == old(b.cursor) + 35
    ensures b.buffer[..] == Overwrite(old(b.buffer[..]), old(b.cursor),
      [Mark(b.inverse, b.timing.message)] + LogicItems(b.inverse, b.timing, LsbBits(command, 32)) + EndItems(b.inverse, b.timing))
  {
    var inv, t := b.inverse, b.timing;
    ghost var start := b.cursor;
    ghost var before := b.buffer[..];
    b.MakeMessageSpace();
    ghost var s1 := b.buffer[..];
    b.EmitLsb(command, 32);
    Extended(before, start, [Mark(inv, t.message)], LogicItems(inv, t, LsbBits(command, 32)), s1, b.buffer[..]);
    ghost var s2 := b.buffer[..];
    b.MakeEnd();
    Extended(before, start, [Mark(inv, t.message)] + LogicItems(inv, t, LsbBits(command, 32)), EndItems(inv, t),
      s2, b.buffer[..]);
  }

  /** A three-part tail written after a head extends it to the whole frame. */
  lemma TailWritten(before: seq<Item>, head: seq<Item>, m: seq<Item>, c: seq<Item>, e: seq<Item>,
                    s: seq<Item>, s2: seq<Item>)
    requires |head| + |m| + |c| + |e| <= |before|
    requires s == Overwrite(before, 0, head)
    requires s2 == Overwrite(s, |head|, m + c + e)
    ensures s2 == Overwrite(before, 0, head + m + c + e)
  {
    Extended(before, 0, head, m + c + e, s, s2);
    assert head + (m + c + e) == head + m + c + e;
  }

  /**
   * What `get_scan_code` decodes: the address from records 1-32 and the
   * command from records 37-68.  The footer (records 33-35) and the message
   * space (record 36) are read but do not affect the result.
   */
  function DataCode(cfg: RxConfig, buf: seq<Item>): (r: Option<ScanCode>)
    requires DataWords - 1 <= |buf|
    ensures r.Some? <==> Matches(cfg, buf[0], cfg.timing.lead)
    ensures r.Some? ==> !r.value.repeat
  {
    if Matches(cfg, buf[0], cfg.timing.lead) then
      Some(ScanCode(LsbValue(cfg, buf, 1, 32), LsbValue(cfg, buf, 37, 32), false))
    else
      None
  }

  /**
   * `get_scan_code`: every frame is decoded as a data frame.  The footer is
   * accumulated and discarded, and a mismatching message space is only
   * logged; nothing is cached.
   */
  method GetScanCode(p: Parser, outputsPresent: bool) returns (status: Status, code: Option<ScanCode>)
    requires outputsPresent ==> DataWords - 1 <= |p.buffer|
    modifies p`cursor
    ensures status == Ok <==> code.Some?
    ensures !outputsPresent ==> status == InvalidArg && p.cursor == old(p.cursor)
    ensures outputsPresent ==>
      (status == Ok || status == Fail) &&
      code == DataCode(p.cfg, p.buffer) && p.cursor == (if code.Some? then DataWords - 1 else 1)
  {
    if !outputsPresent {
      return InvalidArg, None;
    }
    code := None;
    var head := p.ParseHead();
    if head {
      var address := p.ReadLsb(32);
      var footer := p.ReadLsb(3);
      var message := p.ParseMessage();
      var command := p.ReadLsb(32);
      code := Some(ScanCode(address, command, false));
    }
    status := if code.Some? then Ok else Fail;
  }

  /**
   * `ir_builder_rmt_new_gree`: no builder for a zero buffer size, otherwise a
   * fresh builder that carries this family's repeat period.
   */
  method New(bufferSize: nat, flags: U32, masks: FlagMasks, timing: Timing) returns (r: Option<Builder>)
    ensures r.None? <==> bufferSize == 0
    ensures r.Some? ==> fresh(r.value) && r.value.buffer.Length == bufferSize && r.value.cursor == 0
    ensures r.Some? ==> forall k :: 0 <= k < bufferSize ==> r.value.buffer[k] == ZeroItem
    ensures r.Some? ==> r.value.flags == flags && r.value.inverse == (And(flags, masks.inverse) != 0)
    ensures r.Some? ==> r.value.timing == timing && r.value.repeatPeriodMs == RepeatPeriodMs
  {
    r := NewBuilder(bufferSize, flags, masks, timing, RepeatPeriodMs);
  }

  // ---------------------------------------------------------------------
  // Properties

  /** A received data frame carries the address bits right after the leading code. */
  lemma AddressCarried(cfg: RxConfig, address: U32, command: U32)
    requires Tolerates(cfg.timing, cfg.margin)
    ensures var rx := Received(Frame(cfg.inverse, cfg.timing, address, command))[..DataWords];
      Matches(cfg, rx[0], cfg.timing.lead) && ReadBits(cfg, rx, 1, 32) == LsbBits(address, 32)
  {
    var inv, t := cfg.inverse, cfg.timing;
    var rest := LogicItems(inv, t, FooterBits) + [Mark(inv, t.message)] + LogicItems(inv, t, LsbBits(command, 32)) +
      EndItems(inv, t);
    assert Frame(inv, t, address, command) == [Mark(inv, t.lead)] + LogicItems(inv, t, LsbBits(address, 32)) + rest;
    ReceivedMarkMatches(cfg, t.lead);
    SegmentCarries(cfg, [Mark(inv, t.lead)], LsbBits(address, 32), rest, DataWords);
    ReadCarried(cfg, Received(Frame(inv, t, address, command))[..DataWords], 1, LsbBits(address, 32));
  }

  /** A received data frame carries the footer at records 33-35 and the message space at record 36. */
  lemma FooterCarried(cfg: RxConfig, address: U32, command: U32)
    requires Tolerates(cfg.timing, cfg.margin)
    ensures var rx := Received(Frame(cfg.inverse, cfg.timing, address, command))[..DataWords];
      ReadBits(cfg, rx, 33, 3) == FooterBits && rx[36] == Flip(Mark(cfg.inverse, cfg.timing.message))
  {
    var inv, t := cfg.inverse, cfg.timing;
    var head := [Mark(inv, t.lead)] + LogicItems(inv, t, LsbBits(address, 32));
    var rest := [Mark(inv, t.message)] + LogicItems(inv, t, LsbBits(command, 32)) + EndItems(inv, t);
    assert Frame(inv, t, address, command) == head + LogicItems(inv, t, FooterBits) + rest;
    SegmentCarries(cfg, head, FooterBits, rest, DataWords);
    ReadCarried(cfg, Received(Frame(inv, t, address, command))[..DataWords], 33, FooterBits);
  }

  /** A received data frame carries the command bits right after the message space. */
  lemma CommandCarried(cfg: RxConfig, address: U32, command: U32)
    requires Tolerates(cfg.timing, cfg.margin)
    ensures var rx := Received(Frame(cfg.inverse, cfg.timing, address, command))[..DataWords];
      ReadBits(cfg, rx, 37, 32) == LsbBits(command, 32)
  {
    var inv, t := cfg.inverse, cfg.timing;
    var head := [Mark(inv, t.lead)] + LogicItems(inv, t, LsbBits(address, 32)) + LogicItems(inv, t, FooterBits) +
      [Mark(inv, t.message)];
    SegmentCarries(cfg, head, LsbBits(command, 32), EndItems(inv, t), DataWords);
    ReadCarried(cfg, Received(Frame(inv, t, address, command))[..DataWords], 37, LsbBits(command, 32));
  }

  /** The footer bits, read least significant first, are the value 2. */
  lemma FooterDecodes()
    ensures FromLsb(FooterBits) == FooterValue
  {
    assert [false, true, false][..2] == [false, true] && [false, true][..1] == [false] && [false][..0] == [];
    assert FromLsb([false]) == 0;
    assert FromLsb([false, true]) == Pow2(1);
    Pow2Constants();
  }

  /**
   * The footer loop of `get_scan_code` accumulates 2 from a received frame,
   * and the message space matches whenever its template fits the margin.
   */
  lemma FooterAndMessageRead(cfg: RxConfig, address: U32, command: U32)
    requires Tolerates(cfg.timing, cfg.margin) && Fits(cfg.timing.message, cfg.margin)
    ensures var rx := Received(Frame(cfg.inverse, cfg.timing, address, command))[..DataWords];
      LsbValue(cfg, rx, 33, 3) == FooterValue && Matches(cfg, rx[36], cfg.timing.message)
  {
    FooterCarried(cfg, address, command);
    ReceivedMarkMatches(cfg, cfg.timing.message);
    FooterDecodes();
  }

  /** Records whose head matches and whose fields read back as the sent bits decode to the whole scan code. */
  lemma DecodeSent(cfg: RxConfig, rx: seq<Item>, address: U32, command: U32)
    requires DataWords - 1 <= |rx| && Matches(cfg, rx[0], cfg.timing.lead)
    requires ReadBits(cfg, rx, 1, 32) == LsbBits(address, 32)
    requires ReadBits(cfg, rx, 37, 32) == LsbBits(command, 32)
    ensures DataCode(cfg, rx) == Some(ScanCode(address, command, false))
  {
    LsbRoundTrip(address, 32);
    LsbRoundTrip(command, 32);
    Pow2Constants();
    ModUnique(address, 0x1_0000_0000, 0, address);
    ModUnique(command, 0x1_0000_0000, 0, command);
  }

  /** Every 32-bit address and command survive the trip from `build_frame` to `get_scan_code` unchanged. */
  lemma RoundTrip(cfg: RxConfig, address: U32, command: U32)
    requires Tolerates(cfg.timing, cfg.margin)
    ensures DataCode(cfg, Received(Frame(cfg.inverse, cfg.timing, address, command))[..DataWords]) ==
      Some(ScanCode(address, command, false))
  {
    AddressCarried(cfg, address, command);
    CommandCarried(cfg, address, command);
    DecodeSent(cfg, Received(Frame(cfg.inverse, cfg.timing, address, command))[..DataWords], address, command);
  }
}
