/*
 * Sharp: no leading code; five address bits and eight command bits, least
 * significant bit first, an expansion bit and a check bit, then the ending
 * code.  The builder sends this twice, the second time with the command
 * bits and the two trailing bits inverted, each pass followed by a message
 * gap.  The parser reads a single pass and accepts it only when the ten
 * records after the address all read as logic 1.
 */
module Sharp {
  import opened IrBits
  import opened IrCommon
  import opened IrBuilder
  import opened IrParser

  const DataWords: nat := 16
  const RepeatWords: nat := 2
  /** `repeat_period_ms` as `ir_builder_rmt_new_*` sets it. */
  const RepeatPeriodMs: nat := 110
  const AddressBits: nat := 5
  const CommandBits: nat := 8

  /** The width of the command the parser reads: eight command bits, the expansion bit and the check bit. */
  const ParsedCommandBits: nat := 10

  /** The number of records one pass of `build_frame` writes. */
  const PassWords: nat := 18

  /** The value `get_scan_code` compares the command with: the never-read inverted command (0) XOR 0x3FF. */
  const ExpectedCommand: nat := 0x3FF

  /**
   * `x ^ 0xFF` on a `uint32_t`: the low byte complemented, the other bits
   * kept (`InvertLowByteIsXor` relates it to the bitwise definition).
   */
  function InvertLowByte(x: U32): (r: U32)
    ensures r / 256 == x / 256 && r % 256 == 255 - x % 256
  {
    ModUnique(x - x % 256 + (255 - x % 256), 256, x / 256, 255 - x % 256);
    x - x % 256 + (255 - x % 256)
  }

  /** The expansion bit and the check bit of pass j. */
  function TrailerBits(j: nat): (r: seq<bool>)
    ensures |r| == 2
  {
    if j == 0 then [true, false] else [false, true]
  }

  /** The ten bits after the address in pass j: the command, then the expansion and check bits. */
  function CommandRecordsBits(command: nat, j: nat): (r: seq<bool>)
    ensures |r| == ParsedCommandBits
  {
    LsbBits(command, CommandBits) + TrailerBits(j)
  }

  /**
   * The records of pass j: the address and command records, `make_end`, and
   * the message gap, whose first half is whatever `gapBase` held.
   */
  function Pass(inverse: bool, t: Timing, address: nat, command: nat, j: nat, gapBase: Item): (r: seq<Item>)
    ensures |r| == PassWords && r[16] == ZeroItem
  {
    LogicItems(inverse, t, LsbBits(address, AddressBits)) + LogicItems(inverse, t, CommandRecordsBits(command, j)) +
    EndItems(inverse, t) + [SpacegapItem(inverse, t, gapBase)]
  }

  /**
   * The records `build_frame` writes over `before`: the second pass carries
   * `command ^ 0xFF`.  The terminator of the first pass sits at record 16,
   * so a transmission of the buffer stops before the second pass.
   */
  function Frame(inverse: bool, t: Timing, address: U32, command: U32, before: seq<Item>): (r: seq<Item>)
    requires 2 * PassWords <= |before|
    ensures |r| == 2 * PassWords && r[16] == ZeroItem && r[PassWords + 16] == ZeroItem
  {
    Pass(inverse, t, address, command, 0, before[17]) + Pass(inverse, t, address, InvertLowByte(command), 1, before[35])
  }

  /** What the first j passes of the `build_frame` loop have written. */
  function Sent(inverse: bool, t: Timing, address: U32, command: U32, before: seq<Item>, j: nat): (r: seq<Item>)
    requires j <= 2 && 2 * PassWords <= |before|
    ensures |r| == PassWords * j
  {
    if j == 0 then []
    else if j == 1 then Pass(inverse, t, address, command, 0, before[17])
    else Frame(inverse, t, address, command, before)
  }

  /** The `if (j == 0) ... else ...` block of `build_frame`: the expansion and check bits of pass j. */
  method WriteTrailer(b: Builder, j: nat)
    requires b.cursor + 2 <= b.buffer.Length
    modifies b`cursor, b.buffer
    ensures b.cursor == old(b.cursor) + 2
    ensures b.buffer[..] == Overwrite(old(b.buffer[..]), old(b.cursor), LogicItems(b.inverse, b.timing, TrailerBits(j)))
  {
    ghost var start := b.cursor;
    ghost var before := b.buffer[..];
    if j == 0 {
      b.MakeLogic1();
      b.MakeLogic0();
    } else {
      b.MakeLogic0();
      b.MakeLogic1();
    }
    TrailerWritten(before, start, b.inverse, b.timing, j, b.buffer[..]);
  }

  /** The two records of the trailer, written one after the other, are its logic records. */
  lemma TrailerWritten(before: seq<Item>, start: nat, inverse: bool, t: Timing, j: nat, after: seq<Item>)
    requires start + 2 <= |before|
    requires after == Overwrite(Overwrite(before, start, [LogicItem(inverse, t, j == 0)]), start + 1,
      [LogicItem(inverse, t, j != 0)])
    ensures after == Overwrite(before, start, LogicItems(inverse, t, TrailerBits(j)))
  {
    OverwriteTwice(before, start, [LogicItem(inverse, t, j == 0)], [LogicItem(inverse, t, j != 0)]);
    assert LogicItems(inverse, t, TrailerBits(j)) == [LogicItem(inverse, t, j == 0)] + [LogicItem(inverse, t, j != 0)];
  }

  /** The address loop, the command loop and the trailing bits of one pass. */
  method WriteBits(b: Builder, address: U32, command: U32, j: nat)
    requires b.cursor + AddressBits + ParsedCommandBits <= b.buffer.Length
    modifies b`cursor, b.buffer
    ensures b.cursor == old(b.cursor) + AddressBits + ParsedCommandBits
    ensures b.buffer[..] == Overwrite(old(b.buffer[..]), old(b.cursor),
      LogicItems(b.inverse, b.timing, LsbBits(address, AddressBits)) + LogicItems(b.inverse, b.timing, CommandRecordsBits(command, j)))
  {
    var inv, t := b.inverse, b.timing;
    ghost var start := b.cursor;
    ghost var before := b.buffer[..];
    b.EmitLsb(address, AddressBits);
    ghost var s1 := b.buffer[..];
    b.EmitLsb(command, CommandBits);
    Extended(before, start, LogicItems(inv, t, LsbBits(address, AddressBits)),
      LogicItems(inv, t, LsbBits(command, CommandBits)), s1, b.buffer[..]);
    ghost var s2 := b.buffer[..];
    WriteTrailer(b, j);
    BitsWritten(before, start, inv, t, address, command, j, s2, b.buffer[..]);
  }

  /** The command records and the trailer, written after the address records, are the pass's bit records. */
  lemma BitsWritten(before: seq<Item>, start: nat, inverse: bool, t: Timing, address: nat, command: nat, j: nat,
                    s2: seq<Item>, s3: seq<Item>)
    requires start + AddressBits + ParsedCommandBits <= |before|
    requires s2 == Overwrite(before, start,
      LogicItems(inverse, t, LsbBits(address, AddressBits)) + LogicItems(inverse, t, LsbBits(command, CommandBits)))
    requires s3 == Overwrite(s2, start + AddressBits + CommandBits, LogicItems(inverse, t, TrailerBits(j)))
    ensures s3 == Overwrite(before, start,
      LogicItems(inverse, t, LsbBits(address, AddressBits)) + LogicItems(inverse, t, CommandRecordsBits(command, j)))
  {
    var a := LogicItems(inverse, t, LsbBits(address, AddressBits));
    var c := LogicItems(inverse, t, LsbBits(command, CommandBits));
    var tr := LogicItems(inverse, t, TrailerBits(j));
    Extended(before, start, a + c, tr, s2, s3);
    LogicItemsAppend(inverse, t, LsbBits(command, CommandBits), TrailerBits(j));
    assert a + c + tr == a + (c + tr);
  }

  /** One pass of the `build_frame` loop: the bits, `make_end`, and `make_spacegap`. */
  method WritePass(b: Builder, address: U32, command: U32, j: nat)
    requires b.cursor + PassWords <= b.buffer.Length
    modifies b`cursor, b.buffer
    ensures b.cursor == old(b.cursor) + PassWords
    ensures b.buffer[..] == Overwrite(old(b.buffer[..]), old(b.cursor),
      Pass(b.inverse, b.timing, address, command, j, old(b.buffer[..])[old(b.cursor) + 17]))
  {
    var inv, t := b.inverse, b.timing;
    ghost var start := b.cursor;
    ghost var before := b.buffer[..];
    ghost var bits := LogicItems(inv, t, LsbBits(address, AddressBits)) + LogicItems(inv, t, CommandRecordsBits(command, j));
    WriteBits(b, address, command, j);
    ghost var s1 := b.buffer[..];
    b.MakeEnd();
    Extended(before, start, bits, EndItems(inv, t), s1, b.buffer[..]);
    ghost var s2 := b.buffer[..];
    assert s2[start + 17] == before[start + 17];
    b.MakeSpacegap();
    Extended(before, start, bits + EndItems(inv, t), [SpacegapItem(inv, t, before[start + 17])], s2, b.buffer[..]);
  }

  /** Pass j of the loop, written over what the earlier passes wrote, extends it. */
  lemma SentStep(inverse: bool, t: Timing, address: U32, command: U32, before: seq<Item>, j: nat, cmd: nat,
                 mid: seq<Item>, after: seq<Item>)
    requires j < 2 && 2 * PassWords <= |before|
    requires cmd == if j == 0 then command else InvertLowByte(command)
    requires mid == Overwrite(before, 0, Sent(inverse, t, address, command, before, j))
    requires after == Overwrite(mid, PassWords * j, Pass(inverse, t, address, cmd, j, mid[PassWords * j + 17]))
    ensures after == Overwrite(before, 0, Sent(inverse, t, address, command, before, j + 1))
  {
    var pass := Pass(inverse, t, address, cmd, j, before[PassWords * j + 17]);
    assert mid[PassWords * j + 17] == before[PassWords * j + 17];
    Extended(before, 0, Sent(inverse, t, address, command, before, j), pass, mid, after);
    if j == 0 {
      assert [] + pass == pass;
    }
  }

  /**
   * `build_frame`: two passes from record 0, inverting the low byte of the
   * command between them.  No protocol check; the result is always Ok.
   */
  method BuildFrame(b: Builder, address: U32, command: U32) returns (status: Status)
    requires 2 * PassWords <= b.buffer.Length
    modifies b`cursor, b.buffer
    ensures status == Ok && b.cursor == 2 * PassWords
    ensures b.buffer[..] == Overwrite(old(b.buffer[..]), 0, Frame(b.inverse, b.timing, address, command, old(b.buffer[..])))
  {
    ghost var before := b.buffer[..];
    b.cursor := 0;
    var cmd: U32 := command;
    OverwriteNothing(before, 0);
    for j := 0 to 2
      invariant b.cursor == PassWords * j
      invariant j < 2 ==> cmd == if j == 0 then command else InvertLowByte(command)
      invariant b.buffer[..] == Overwrite(before, 0, Sent(b.inverse, b.timing, address, command, before, j))
    {
      WriteNextPass(b, address, command, cmd, j, before);
      cmd := InvertLowByte(cmd);
    }
    return Ok;
  }

  /** The body of the `build_frame` loop for pass j, `cmd` being the command as inverted so far. */
  method WriteNextPass(b: Builder, address: U32, command: U32, cmd: U32, j: nat, ghost before: seq<Item>)
    requires j < 2 && cmd == if j == 0 then command else InvertLowByte(command)
    requires 2 * PassWords <= |before| == b.buffer.Length && b.cursor == PassWords * j
    requires b.buffer[..] == Overwrite(before, 0, Sent(b.inverse, b.timing, address, command, before, j))
    modifies b`cursor, b.buffer
    ensures b.cursor == PassWords * (j + 1)
    ensures b.buffer[..] == Overwrite(before, 0, Sent(b.inverse, b.timing, address, command, before, j + 1))
  {
    ghost var mid := b.buffer[..];
    WritePass(b, address, cmd, j);
    SentStep(b.inverse, b.timing, address, command, before, j, cmd, mid, b.buffer[..]);
  }

  /**
   * What `get_scan_code` decodes: five address bits from record 0 and ten
   * command bits from record 5, accepted only when the command equals 0x3FF.
   */
  function DataCode(cfg: RxConfig, buf: seq<Item>): (r: Option<ScanCode>)
    requires DataWords - 1 <= |buf|
    ensures r.Some? ==> r.value.address < 0x20 && r.value.command == ExpectedCommand && !r.value.repeat
  {
    Pow2Constants();
    var command := LsbValue(cfg, buf, AddressBits, ParsedCommandBits);
    if command == Xor(0, 0x3FF) then
      Some(ScanCode(LsbValue(cfg, buf, 0, AddressBits), command, false))
    else
      None
  }

  /**
   * `get_scan_code`: the cursor is reset before the out-pointers are
   * checked; there is no repeat branch and no leading code; an accepted
   * code becomes the cached code, a rejected one is InvalidArg.
   */
  method GetScanCode(p: Parser, outputsPresent: bool) returns (status: Status, code: Option<ScanCode>)
    requires outputsPresent ==> DataWords - 1 <= |p.buffer|
    modifies p`cursor, p`lastAddress, p`lastCommand
    ensures status == Ok <==> code.Some?
    ensures status == Ok || status == InvalidArg
    ensures !outputsPresent ==> status == InvalidArg && p.cursor == 0
    ensures outputsPresent ==> code == DataCode(p.cfg, p.buffer) && p.cursor == DataWords - 1
    ensures if code.Some?
      then p.lastAddress == code.value.address && p.lastCommand == code.value.command
      else p.lastAddress == old(p.lastAddress) && p.lastCommand == old(p.lastCommand)
  {
    p.cursor := 0;
    if !outputsPresent {
      return InvalidArg, None;
    }
    var address := p.ReadLsb(AddressBits);
    var command := p.ReadLsb(ParsedCommandBits);
    var inverted := 0;
    if command != Xor(inverted, 0x3FF) {
      return InvalidArg, None;
    }
    code := Some(ScanCode(address, command, false));
    p.lastAddress := address;
    p.lastCommand := command;
    status := Ok;
  }

  /**
   * `ir_builder_rmt_new_sharp`: no builder for a zero buffer size, otherwise a
   * fresh builder that carries this family's repeat period.
   */
  method New(bufferSize: nat, flags: U32, masks: FlagMasks, timing: Timing) returns (r: Option<Builder>)
    ensures r.None? <==> bufferSize == 0
    ensures r.Some? ==> fresh(r.value) && r.value.buffer.Length == bufferSize && r.value.cursor == 0
    ensures r.Some? ==> forall k :: 0 <= k < bufferSize ==> r.value.buffer[k] == ZeroItem
    ensures r.Some? ==> r.value.flags == flags && r.value.inverse == (And(flags, masks.inverse) != 0)
    ensures r.Some? ==> r.value.timing == timing && r.value.repeatPeriodMs == RepeatPeriodMs
  {
    r := NewBuilder(bufferSize, flags, masks, timing, RepeatPeriodMs);
  }

  // ---------------------------------------------------------------------
  // Properties

  /** The arithmetic form of the byte inversion is the C operator `^` with 0xFF. */
  lemma InvertLowByteIsXor(x: U32)
    ensures InvertLowByte(x) == Xor(x, 0xFF)
  {
    XorAllOnes(x, 8);
    Pow2Constants();
  }

  /** The ten command records of the second pass are the complement of those of the first. */
  lemma SecondPassInverted(command: U32)
    ensures forall k :: 0 <= k < ParsedCommandBits ==>
      CommandRecordsBits(InvertLowByte(command), 1)[k] == !CommandRecordsBits(command, 0)[k]
  {
    Pow2Constants();
    forall k | 0 <= k < CommandBits
      ensures Bit(InvertLowByte(command), k) == !Bit(command, k)
    {
      InvertLowByteIsXor(command);
      XorBit(command, 0xFF, k);
      AllOnesBit(8, k);
    }
  }

  /** `get_scan_code` accepts exactly the records whose ten command records all read as logic 1. */
  lemma AcceptedIff(cfg: RxConfig, buf: seq<Item>)
    requires DataWords - 1 <= |buf|
    ensures DataCode(cfg, buf).Some? <==> forall k :: AddressBits <= k < DataWords - 1 ==> LogicBit(cfg, buf[k])
  {
    var bits := ReadBits(cfg, buf, AddressBits, ParsedCommandBits);
    FromLsbAllOnes(bits);
    Pow2Constants();
    if forall k :: 0 <= k < ParsedCommandBits ==> bits[k] {
      forall k | AddressBits <= k < DataWords - 1
        ensures LogicBit(cfg, buf[k])
      {
        assert bits[k - AddressBits];
      }
    }
    if forall k :: AddressBits <= k < DataWords - 1 ==> LogicBit(cfg, buf[k]) {
      forall k | 0 <= k < ParsedCommandBits
        ensures bits[k]
      {
        assert LogicBit(cfg, buf[AddressBits + k]);
      }
    }
  }

  /** A received pass, whatever follows it, carries the address bits and then the ten command records. */
  lemma PassCarries(cfg: RxConfig, address: U32, command: U32, j: nat, gap: Item, rest: seq<Item>)
    ensures var rx := Received(Pass(cfg.inverse, cfg.timing, address, command, j, gap) + rest)[..DataWords];
      Carries(cfg, rx, 0, LsbBits(address, AddressBits)) &&
      Carries(cfg, rx, AddressBits, CommandRecordsBits(command, j))
  {
    var inv, t := cfg.inverse, cfg.timing;
    var a := LogicItems(inv, t, LsbBits(address, AddressBits));
    var c := LogicItems(inv, t, CommandRecordsBits(command, j));
    var tail := EndItems(inv, t) + [SpacegapItem(inv, t, gap)] + rest;
    assert Pass(inv, t, address, command, j, gap) + rest == [] + a + (c + tail);
    SegmentCarries(cfg, [], LsbBits(address, AddressBits), c + tail, DataWords);
    assert Pass(inv, t, address, command, j, gap) + rest == a + c + tail;
    SegmentCarries(cfg, a, CommandRecordsBits(command, j), tail, DataWords);
  }

  /** The first pass of a built frame, received up to its terminator, carries the address and the ten command bits. */
  lemma FirstPassRead(cfg: RxConfig, address: U32, command: U32, before: seq<Item>)
    requires Tolerates(cfg.timing, cfg.margin) && 2 * PassWords <= |before|
    ensures var rx := Received(Frame(cfg.inverse, cfg.timing, address, command, before))[..DataWords];
      ReadBits(cfg, rx, 0, AddressBits) == LsbBits(address, AddressBits) &&
      ReadBits(cfg, rx, AddressBits, ParsedCommandBits) == CommandRecordsBits(command, 0)
  {
    var inv, t := cfg.inverse, cfg.timing;
    var frame := Frame(inv, t, address, command, before);
    var rx := Received(frame)[..DataWords];
    PassCarries(cfg, address, command, 0, before[17], Pass(inv, t, address, InvertLowByte(command), 1, before[35]));
    ReadCarried(cfg, rx, 0, LsbBits(address, AddressBits));
    ReadCarried(cfg, rx, AddressBits, CommandRecordsBits(command, 0));
  }

  /**
   * The parser rejects every frame the builder writes: the check bit of the
   * first pass is 0, so the ten command records never read as 0x3FF.
   */
  lemma BuiltFrameRejected(cfg: RxConfig, address: U32, command: U32, before: seq<Item>)
    requires Tolerates(cfg.timing, cfg.margin) && 2 * PassWords <= |before|
    ensures DataCode(cfg, Received(Frame(cfg.inverse, cfg.timing, address, command, before))[..DataWords]).None?
  {
    FirstPassRead(cfg, address, command, before);
    AcceptedIff(cfg, Received(Frame(cfg.inverse, cfg.timing, address, command, before))[..DataWords]);
    assert CommandRecordsBits(command, 0)[9] == false;
  }
}
