/*
 * Toshiba air conditioners: a frame is sent twice, the copies separated by
 * a message space.  Each copy is a leading code followed by the fields most
 * significant bit first: a 24-bit address and a 24-bit command in
 * `build_frame`, a 32-bit address, a 32-bit command and an 8-bit checksum
 * in `build_frame_toshibaAC`.  The parser's second `parse_head` rewinds to
 * record 0, so the "second copy" it compares with is the first copy read
 * again: the copy that follows the message space is never looked at.
 */
module Toshiba {
  import opened IrBits
  import opened IrCommon
  import opened IrBuilder
  import opened IrParser

  /** `TOSHIBAAC_DATA_FRAME_RMT_WORDS`: 148 under `CONFIG_EXAMPLE_IR_PROTOCOL_TOSHIBAAC72`, 100 otherwise. */
  function DataWords(wide: bool): nat
  {
    if wide then 148 else 100
  }

  const RepeatWords: nat := 2
  /** `repeat_period_ms` as `ir_builder_rmt_new_*` sets it: its assignment is commented out, so `calloc` leaves it 0. */
  const RepeatPeriodMs: nat := 0

  /** The records `get_scan_code` reads: the leading code, 48 logic records and the message space. */
  const CopyWords: nat := 50

  /** The records `get_scan_code_toshibaAC` reads: the leading code, 72 logic records and the message space. */
  const AcCopyWords: nat := 74

  /** What `get_scan_code_toshibaAC` reports; its repeat flag is always false. */
  datatype AcCode = AcCode(address: U32, command: U32, checksum: U32)

  /** The bits of one copy of `build_frame`: bits 23..0 of the address, then of the command. */
  function Bits(address: nat, command: nat): (r: seq<bool>)
    ensures |r| == 48
  {
    MsbBits(address, 23, 24) + MsbBits(command, 23, 24)
  }

  /** The bits of one copy of `build_frame_toshibaAC`: bits 31..0 of address and command, bits 7..0 of the checksum. */
  function AcBits(address: nat, command: nat, checksum: nat): (r: seq<bool>)
    ensures |r| == 72
  {
    MsbBits(address, 31, 32) + MsbBits(command, 31, 32) + MsbBits(checksum, 7, 8)
  }

  /** One copy: `make_head` and then the logic records of `bits`. */
  function Copy(inverse: bool, t: Timing, bits: seq<bool>): (r: seq<Item>)
    ensures |r| == |bits| + 1
  {
    [Mark(inverse, t.lead)] + LogicItems(inverse, t, bits)
  }

  /** Both builders' output: a copy, the message space, a second copy and `make_end`. */
  function Frame(inverse: bool, t: Timing, first: seq<bool>, second: seq<bool>): (r: seq<Item>)
    ensures |r| == |first| + |second| + 5 && r[|r| - 1] == ZeroItem
  {
    Copy(inverse, t, first) + [Mark(inverse, t.message)] + Copy(inverse, t, second) + EndItems(inverse, t)
  }

  // ---------------------------------------------------------------------
  // Builder

  /** `make_head` and two bit loops, appended at the cursor. */
  method WriteCopy(b: Builder, address: U32, command: U32)
    requires b.cursor + 49 <= b.buffer.Length
    modifies b`cursor, b.buffer
    ensures b.cursor == old(b.cursor) + 49
    ensures b.buffer[..] == Overwrite(old(b.buffer[..]), old(b.cursor), Copy(b.inverse, b.timing, Bits(address, command)))
  {
    ghost var start := b.cursor;
    ghost var before := b.buffer[..];
    b.AppendHead();
    ghost var s1 := b.buffer[..];
    b.EmitMsb(address, 23, 24);
    ghost var s2 := b.buffer[..];
    b.EmitMsb(command, 23, 24);
    CopyWritten(before, start, b.inverse, b.timing, MsbBits(address, 23, 24), MsbBits(command, 23, 24),
      s1, s2, b.buffer[..]);
  }

  /** `make_head` and three bit loops, appended at the cursor. */
  method WriteAcCopy(b: Builder, address: U32, command: U32, checksum: U32)
    requires b.cursor + 73 <= b.buffer.Length
    modifies b`cursor, b.buffer
    ensures b.cursor == old(b.cursor) + 73
    ensures b.buffer[..] ==
      Overwrite(old(b.buffer[..]), old(b.cursor), Copy(b.inverse, b.timing, AcBits(address, command, checksum)))
  {
    var inv, t := b.inverse, b.timing;
    ghost var start := b.cursor;
    ghost var before := b.buffer[..];
    b.AppendHead();
    ghost var s1 := b.buffer[..];
    b.EmitMsb(address, 31, 32);
    ghost var s2 := b.buffer[..];
    b.EmitMsb(command, 31, 32);
    CopyWritten(before, start, inv, t, MsbBits(address, 31, 32), MsbBits(command, 31, 32), s1, s2, b.buffer[..]);
    ghost var s3 := b.buffer[..];
    b.EmitMsb(checksum, 7, 8);
    CopyExtended(before, start, inv, t, MsbBits(address, 31, 32) + MsbBits(command, 31, 32), MsbBits(checksum, 7, 8),
      s3, b.buffer[..]);
  }

  /** A head and two runs of logic records written one after the other form one copy. */
  lemma CopyWritten(before: seq<Item>, start: nat, inverse: bool, t: Timing, x: seq<bool>, y: seq<bool>,
                    s1: seq<Item>, s2: seq<Item>, s3: seq<Item>)
    requires start + 1 + |x| + |y| <= |before|
    requires s1 == Overwrite(before, start, [Mark(inverse, t.lead)])
    requires s2 == Overwrite(s1, start + 1, LogicItems(inverse, t, x))
    requires s3 == Overwrite(s2, start + 1 + |x|, LogicItems(inverse, t, y))
    ensures s3 == Overwrite(before, start, Copy(inverse, t, x + y))
  {
    var h := [Mark(inverse, t.lead)];
    Extended(before, start, h, LogicItems(inverse, t, x), s1, s2);
    Extended(before, start, h + LogicItems(inverse, t, x), LogicItems(inverse, t, y), s2, s3);
    LogicItemsAppend(inverse, t, x, y);
    assert h + LogicItems(inverse, t, x) + LogicItems(inverse, t, y) == h + (LogicItems(inverse, t, x) + LogicItems(inverse, t, y));
  }

  /** One more run of logic records after a copy extends the copy. */
  lemma CopyExtended(before: seq<Item>, start: nat, inverse: bool, t: Timing, x: seq<bool>, y: seq<bool>,
                     s: seq<Item>, s2: seq<Item>)
    requires start + 1 + |x| + |y| <= |before|
    requires s == Overwrite(before, start, Copy(inverse, t, x))
    requires s2 == Overwrite(s, start + 1 + |x|, LogicItems(inverse, t, y))
    ensures s2 == Overwrite(before, start, Copy(inverse, t, x + y))
  {
    var h := [Mark(inverse, t.lead)];
    Extended(before, start, Copy(inverse, t, x), LogicItems(inverse, t, y), s, s2);
    LogicItemsAppend(inverse, t, x, y);
    assert h + LogicItems(inverse, t, x) + LogicItems(inverse, t, y) == h + (LogicItems(inverse, t, x) + LogicItems(inverse, t, y));
  }

  /**
   * `build_frame`: from record 0, the same 48 bits twice around a message
   * space; no protocol check, the result is always Ok.
   */
  method BuildFrame(b: Builder, address: U32, command: U32) returns (status: Status)
    requires 101 <= b.buffer.Length
    modifies b`cursor, b.buffer
    ensures status == Ok && b.cursor == 101
    ensures b.buffer[..] ==
      Overwrite(old(b.buffer[..]), 0, Frame(b.inverse, b.timing, Bits(address, command), Bits(address, command)))
  {
    var inv, t := b.inverse, b.timing;
    ghost var before := b.buffer[..];
    ghost var copy := Copy(inv, t, Bits(address, command));
    b.cursor := 0;
    WriteCopy(b, address, command);
    ghost var s1 := b.buffer[..];
    b.MakeMessageSpace();
    Extended(before, 0, copy, [Mark(inv, t.message)], s1, b.buffer[..]);
    ghost var s2 := b.buffer[..];
    WriteCopy(b, address, command);
    Extended(before, 0, copy + [Mark(inv, t.message)], copy, s2, b.buffer[..]);
    ghost var s3 := b.buffer[..];
    b.MakeEnd();
    Extended(before, 0, copy + [Mark(inv, t.message)] + copy, EndItems(inv, t), s3, b.buffer[..]);
    return Ok;
  }

  /**
   * `build_frame_toshibaAC`: from record 0, the first copy from `address`,
   * `command` and `checksum`, the message space, and the second copy from
   * the separate arguments `addr`, `cmd` and `cksum`; always Ok.
   */
  method BuildAcFrame(b: Builder, address: U32, command: U32, checksum: U32, addr: U32, cmd: U32, cksum: U32)
    returns (status: Status)
    requires 149 <= b.buffer.Length
    modifies b`cursor, b.buffer
    ensures status == Ok && b.cursor == 149
    ensures b.buffer[..] == Overwrite(old(b.buffer[..]), 0,
      Frame(b.inverse, b.timing, AcBits(address, command, checksum), AcBits(addr, cmd, cksum)))
  {
    var inv, t := b.inverse, b.timing;
    ghost var before := b.buffer[..];
    ghost var first := Copy(inv, t, AcBits(address, command, checksum));
    b.cursor := 0;
    WriteAcCopy(b, address, command, checksum);
    ghost var s1 := b.buffer[..];
    b.MakeMessageSpace();
    Extended(before, 0, first, [Mark(inv, t.message)], s1, b.buffer[..]);
    ghost var s2 := b.buffer[..];
    WriteAcCopy(b, addr, cmd, cksum);
    Extended(before, 0, first + [Mark(inv, t.message)], Copy(inv, t, AcBits(addr, cmd, cksum)), s2, b.buffer[..]);
    ghost var s3 := b.buffer[..];
    b.MakeEnd();
    Extended(before, 0, first + [Mark(inv, t.message)] + Copy(inv, t, AcBits(addr, cmd, cksum)), EndItems(inv, t),
      s3, b.buffer[..]);
    return Ok;
  }

  // ---------------------------------------------------------------------
  // Parser

  /**
   * What `get_scan_code` decodes.  The values compared with the first copy
   * are 0 unless the message space matches, and otherwise the first copy
   * read again, because the second `parse_head` rewinds to record 0.
   */
  function DataCode(cfg: RxConfig, buf: seq<Item>): (r: Option<ScanCode>)
    requires CopyWords <= |buf|
    ensures r.Some? ==> Matches(cfg, buf[0], cfg.timing.lead)
    ensures r.Some? ==> r.value.address < 0x100_0000 && r.value.command < 0x100_0000 && !r.value.repeat
  {
    Pow2Constants();
    if !Matches(cfg, buf[0], cfg.timing.lead) then None
    else
      var addr := MsbValue(cfg, buf, 1, 23, 24);
      var cmd := MsbValue(cfg, buf, 25, 23, 24);
      var again := MessageSpace(cfg, buf[49]) && Matches(cfg, buf[0], cfg.timing.lead);
      var addrR := if again then MsbValue(cfg, buf, 1, 23, 24) else 0;
      var cmdR := if again then MsbValue(cfg, buf, 25, 23, 24) else 0;
      if addr == addrR && cmd == cmdR then Some(ScanCode(addr, cmd, false)) else None
  }

  /** The two decoding loops of `get_scan_code`, run from record 1. */
  method ReadCopy(p: Parser) returns (addr: U32, cmd: U32)
    requires p.cursor == 1 && CopyWords <= |p.buffer|
    modifies p`cursor
    ensures p.cursor == 49
    ensures addr == MsbValue(p.cfg, p.buffer, 1, 23, 24) && cmd == MsbValue(p.cfg, p.buffer, 25, 23, 24)
  {
    addr := p.ReadMsb(23, 24);
    cmd := p.ReadMsb(23, 24);
  }

  /** The three decoding loops of `get_scan_code_toshibaAC`, run from record 1. */
  method ReadAcCopy(p: Parser) returns (addr: U32, cmd: U32, cksum: U32)
    requires p.cursor == 1 && AcCopyWords <= |p.buffer|
    modifies p`cursor
    ensures p.cursor == 73
    ensures addr == MsbValue(p.cfg, p.buffer, 1, 31, 32) && cmd == MsbValue(p.cfg, p.buffer, 33, 31, 32)
    ensures cksum == MsbValue(p.cfg, p.buffer, 65, 7, 8)
  {
    addr := p.ReadMsb(31, 32);
    cmd := p.ReadMsb(31, 32);
    cksum := p.ReadMsb(7, 8);
  }

  /**
   * `get_scan_code`: no null checks and no repeat branch; the decoded code
   * is not cached.
   */
  method GetScanCode(p: Parser) returns (status: Status, code: Option<ScanCode>)
    requires CopyWords <= |p.buffer|
    modifies p`cursor
    ensures status == Ok <==> code.Some?
    ensures status == Ok || status == Fail
    ensures code == DataCode(p.cfg, p.buffer)
    ensures p.cursor == if !Matches(p.cfg, p.buffer[0], p.cfg.timing.lead) then 1
      else if MessageSpace(p.cfg, p.buffer[49]) then 49 else 50
  {
    code := None;
    var head := p.ParseHead();
    if head {
      var addr, cmd := ReadCopy(p);
      var addrR, cmdR := 0, 0;
      var space := p.ParseMessageSpace();
      if space {
        var again := p.ParseHead();
        if again {
          addrR, cmdR := ReadCopy(p);
        }
      }
      if addr == addrR && cmd == cmdR {
        code := Some(ScanCode(addr, cmd, false));
      }
    }
    status := if code.Some? then Ok else Fail;
  }

  /** What `get_scan_code_toshibaAC` decodes, with the same rewinding second read. */
  function AcDataCode(cfg: RxConfig, buf: seq<Item>): (r: Option<AcCode>)
    requires AcCopyWords <= |buf|
    ensures r.Some? ==> Matches(cfg, buf[0], cfg.timing.lead)
    ensures r.Some? ==> r.value.checksum < 0x100
  {
    Pow2Constants();
    if !Matches(cfg, buf[0], cfg.timing.lead) then None
    else
      var addr := MsbValue(cfg, buf, 1, 31, 32);
      var cmd := MsbValue(cfg, buf, 33, 31, 32);
      var cksum := MsbValue(cfg, buf, 65, 7, 8);
      var again := MessageSpace(cfg, buf[73]) && Matches(cfg, buf[0], cfg.timing.lead);
      var addrR := if again then MsbValue(cfg, buf, 1, 31, 32) else 0;
      var cmdR := if again then MsbValue(cfg, buf, 33, 31, 32) else 0;
      var cksumR := if again then MsbValue(cfg, buf, 65, 7, 8) else 0;
      if addr == addrR && cmd == cmdR && cksum == cksumR then Some(AcCode(addr, cmd, cksum)) else None
  }

  /** `get_scan_code_toshibaAC`: like `get_scan_code` with the checksum, and a decoded code is cached. */
  method GetAcScanCode(p: Parser) returns (status: Status, code: Option<AcCode>)
    requires AcCopyWords <= |p.buffer|
    modifies p`cursor, p`lastAddress, p`lastCommand
    ensures status == Ok <==> code.Some?
    ensures status == Ok || status == Fail
    ensures code == AcDataCode(p.cfg, p.buffer)
    ensures p.cursor == if !Matches(p.cfg, p.buffer[0], p.cfg.timing.lead) then 1
      else if MessageSpace(p.cfg, p.buffer[73]) then 73 else 74
    ensures if code.Some?
      then p.lastAddress == code.value.address && p.lastCommand == code.value.command
      else p.lastAddress == old(p.lastAddress) && p.lastCommand == old(p.lastCommand)
  {
    code := None;
    var head := p.ParseHead();
    if head {
      var addr, cmd, cksum := ReadAcCopy(p);
      var addrR, cmdR, cksumR := 0, 0, 0;
      var space := p.ParseMessageSpace();
      if space {
        var again := p.ParseHead();
        if again {
          addrR, cmdR, cksumR := ReadAcCopy(p);
        }
      }
      if addr == addrR && cmd == cmdR && cksum == cksumR {
        code := Some(AcCode(addr, cmd, cksum));
        p.lastAddress := addr;
        p.lastCommand := cmd;
      }
    }
    status := if code.Some? then Ok else Fail;
  }

  /**
   * `ir_builder_rmt_new_toshibaAC`: no builder for a zero buffer size, otherwise a
   * fresh builder that carries this family's repeat period.
   */
  method New(bufferSize: nat, flags: U32, masks: FlagMasks, timing: Timing) returns (r: Option<Builder>)
    ensures r.None? <==> bufferSize == 0
    ensures r.Some? ==> fresh(r.value) && r.value.buffer.Length == bufferSize && r.value.cursor == 0
    ensures r.Some? ==> forall k :: 0 <= k < bufferSize ==> r.value.buffer[k] == ZeroItem
    ensures r.Some? ==> r.value.flags == flags && r.value.inverse == (And(flags, masks.inverse) != 0)
    ensures r.Some? ==> r.value.timing == timing && r.value.repeatPeriodMs == RepeatPeriodMs
  {
    r := NewBuilder(bufferSize, flags, masks, timing, RepeatPeriodMs);
  }

  // ---------------------------------------------------------------------
  // Properties

  /**
   * `get_scan_code` accepts a frame whose leading code matches exactly when
   * the message space matches or the first copy decodes to zeros, and it
   * reports the first copy.
   */
  lemma AcceptedIff(cfg: RxConfig, buf: seq<Item>)
    requires CopyWords <= |buf|
    ensures DataCode(cfg, buf).Some? <==>
      Matches(cfg, buf[0], cfg.timing.lead) &&
      (MessageSpace(cfg, buf[49]) || (MsbValue(cfg, buf, 1, 23, 24) == 0 && MsbValue(cfg, buf, 25, 23, 24) == 0))
    ensures DataCode(cfg, buf).Some? ==>
      DataCode(cfg, buf).value == ScanCode(MsbValue(cfg, buf, 1, 23, 24), MsbValue(cfg, buf, 25, 23, 24), false)
  {
  }

  /** `get_scan_code_toshibaAC` accepts and reports on the same terms. */
  lemma AcAcceptedIff(cfg: RxConfig, buf: seq<Item>)
    requires AcCopyWords <= |buf|
    ensures AcDataCode(cfg, buf).Some? <==>
      Matches(cfg, buf[0], cfg.timing.lead) &&
      (MessageSpace(cfg, buf[73]) ||
       (MsbValue(cfg, buf, 1, 31, 32) == 0 && MsbValue(cfg, buf, 33, 31, 32) == 0 && MsbValue(cfg, buf, 65, 7, 8) == 0))
    ensures AcDataCode(cfg, buf).Some? ==>
      AcDataCode(cfg, buf).value ==
        AcCode(MsbValue(cfg, buf, 1, 31, 32), MsbValue(cfg, buf, 33, 31, 32), MsbValue(cfg, buf, 65, 7, 8))
  {
  }

  /** Two record runs that agree on a range read the same bits there. */
  lemma SameBits(cfg: RxConfig, buf: seq<Item>, buf2: seq<Item>, from: nat, n: nat, len: nat)
    requires from + n <= len <= |buf| && len <= |buf2| && buf[..len] == buf2[..len]
    ensures ReadBits(cfg, buf, from, n) == ReadBits(cfg, buf2, from, n)
  {
    forall k | 0 <= k < n
      ensures ReadBits(cfg, buf, from, n)[k] == ReadBits(cfg, buf2, from, n)[k]
    {
      assert buf[..len][from + k] == buf2[..len][from + k];
    }
  }

  /** Only the first copy and the message space decide what `get_scan_code` reports: the records after record 49 never matter. */
  lemma FirstCopyDecides(cfg: RxConfig, buf: seq<Item>, buf2: seq<Item>)
    requires CopyWords <= |buf| && CopyWords <= |buf2| && buf[..CopyWords] == buf2[..CopyWords]
    ensures DataCode(cfg, buf) == DataCode(cfg, buf2)
  {
    assert buf[0] == buf[..CopyWords][0] && buf[49] == buf[..CopyWords][49];
    SameBits(cfg, buf, buf2, 1, 24, CopyWords);
    SameBits(cfg, buf, buf2, 25, 24, CopyWords);
  }

  /** Only the first copy and the message space decide what `get_scan_code_toshibaAC` reports. */
  lemma AcFirstCopyDecides(cfg: RxConfig, buf: seq<Item>, buf2: seq<Item>)
    requires AcCopyWords <= |buf| && AcCopyWords <= |buf2| && buf[..AcCopyWords] == buf2[..AcCopyWords]
    ensures AcDataCode(cfg, buf) == AcDataCode(cfg, buf2)
  {
    assert buf[0] == buf[..AcCopyWords][0] && buf[73] == buf[..AcCopyWords][73];
    SameBits(cfg, buf, buf2, 1, 32, AcCopyWords);
    SameBits(cfg, buf, buf2, 33, 32, AcCopyWords);
    SameBits(cfg, buf, buf2, 65, 8, AcCopyWords);
  }

  /** A received frame starts with the leading code, carries the first copy's bits, then the message space. */
  lemma FirstCopyCarried(cfg: RxConfig, first: seq<bool>, second: seq<bool>, len: nat)
    requires len == |first| + |second| + 4
    ensures var rx := Received(Frame(cfg.inverse, cfg.timing, first, second))[..len];
      rx[0] == Flip(Mark(cfg.inverse, cfg.timing.lead)) && Carries(cfg, rx, 1, first) &&
      rx[|first| + 1] == Flip(Mark(cfg.inverse, cfg.timing.message))
  {
    var inv, t := cfg.inverse, cfg.timing;
    var rest := [Mark(inv, t.message)] + Copy(inv, t, second) + EndItems(inv, t);
    assert Frame(inv, t, first, second) == [Mark(inv, t.lead)] + LogicItems(inv, t, first) + rest;
    SegmentCarries(cfg, [Mark(inv, t.lead)], first, rest, len);
  }

  /** Under a fitting margin, a received message space is accepted by `parse_message_space`. */
  lemma ReceivedMessageSpace(cfg: RxConfig)
    requires Fits(cfg.timing.message, cfg.margin)
    ensures MessageSpace(cfg, Flip(Mark(cfg.inverse, cfg.timing.message)))
  {
    ReceivedMarkMatches(cfg, cfg.timing.message);
  }

  /** A frame of `build_frame`, received, matches the head and the message space, and reads back both fields. */
  lemma Layout(cfg: RxConfig, address: U32, command: U32)
    requires Tolerates(cfg.timing, cfg.margin) && Fits(cfg.timing.message, cfg.margin)
    ensures var rx := Received(Frame(cfg.inverse, cfg.timing, Bits(address, command), Bits(address, command)))
      [..DataWords(false)];
      Matches(cfg, rx[0], cfg.timing.lead) && MessageSpace(cfg, rx[49]) &&
      ReadBits(cfg, rx, 1, 24) == MsbBits(address, 23, 24) && ReadBits(cfg, rx, 25, 24) == MsbBits(command, 23, 24)
  {
    var rx := Received(Frame(cfg.inverse, cfg.timing, Bits(address, command), Bits(address, command)))
      [..DataWords(false)];
    FirstCopyCarried(cfg, Bits(address, command), Bits(address, command), DataWords(false));
    ReceivedMarkMatches(cfg, cfg.timing.lead);
    ReceivedMessageSpace(cfg);
    CarriesSplit(cfg, rx, 1, MsbBits(address, 23, 24), MsbBits(command, 23, 24));
    ReadCarried(cfg, rx, 1, MsbBits(address, 23, 24));
    ReadCarried(cfg, rx, 25, MsbBits(command, 23, 24));
  }

  /** Records whose head and message space match and whose fields read as the sent bits decode to the low 24 bits. */
  lemma DecodeSent(cfg: RxConfig, rx: seq<Item>, address: U32, command: U32)
    requires CopyWords <= |rx| && Matches(cfg, rx[0], cfg.timing.lead) && MessageSpace(cfg, rx[49])
    requires ReadBits(cfg, rx, 1, 24) == MsbBits(address, 23, 24) && ReadBits(cfg, rx, 25, 24) == MsbBits(command, 23, 24)
    ensures DataCode(cfg, rx) == Some(ScanCode(address % 0x100_0000, command % 0x100_0000, false))
  {
    MsbRoundTrip(address, 23, 24);
    MsbRoundTrip(command, 23, 24);
    Pow2Constants();
  }

  /** A frame of `build_frame` decodes to the low 24 bits of the address and of the command. */
  lemma RoundTrip(cfg: RxConfig, address: U32, command: U32)
    requires Tolerates(cfg.timing, cfg.margin) && Fits(cfg.timing.message, cfg.margin)
    ensures DataCode(cfg, Received(Frame(cfg.inverse, cfg.timing, Bits(address, command), Bits(address, command)))
      [..DataWords(false)]) == Some(ScanCode(address % 0x100_0000, command % 0x100_0000, false))
  {
    Layout(cfg, address, command);
    DecodeSent(cfg, Received(Frame(cfg.inverse, cfg.timing, Bits(address, command), Bits(address, command)))
      [..DataWords(false)], address, command);
  }

  /** A frame of `build_frame_toshibaAC`, received, matches the head and the message space, and reads back the first copy. */
  lemma AcLayout(cfg: RxConfig, address: U32, command: U32, checksum: U32, addr: U32, cmd: U32, cksum: U32)
    requires Tolerates(cfg.timing, cfg.margin) && Fits(cfg.timing.message, cfg.margin)
    ensures var rx := Received(Frame(cfg.inverse, cfg.timing, AcBits(address, command, checksum), AcBits(addr, cmd, cksum)))
      [..DataWords(true)];
      Matches(cfg, rx[0], cfg.timing.lead) && MessageSpace(cfg, rx[73]) &&
      ReadBits(cfg, rx, 1, 32) == MsbBits(address, 31, 32) && ReadBits(cfg, rx, 33, 32) == MsbBits(command, 31, 32) &&
      ReadBits(cfg, rx, 65, 8) == MsbBits(checksum, 7, 8)
  {
    var rx := Received(Frame(cfg.inverse, cfg.timing, AcBits(address, command, checksum), AcBits(addr, cmd, cksum)))
      [..DataWords(true)];
    FirstCopyCarried(cfg, AcBits(address, command, checksum), AcBits(addr, cmd, cksum), DataWords(true));
    ReceivedMarkMatches(cfg, cfg.timing.lead);
    ReceivedMessageSpace(cfg);
    CarriesSplit(cfg, rx, 1, MsbBits(address, 31, 32) + MsbBits(command, 31, 32), MsbBits(checksum, 7, 8));
    CarriesSplit(cfg, rx, 1, MsbBits(address, 31, 32), MsbBits(command, 31, 32));
    ReadCarried(cfg, rx, 1, MsbBits(address, 31, 32));
    ReadCarried(cfg, rx, 33, MsbBits(command, 31, 32));
    ReadCarried(cfg, rx, 65, MsbBits(checksum, 7, 8));
  }

  /** Records whose head and message space match and whose fields read as the sent bits decode to those fields. */
  lemma AcDecodeSent(cfg: RxConfig, rx: seq<Item>, address: U32, command: U32, checksum: U32)
    requires AcCopyWords <= |rx| && Matches(cfg, rx[0], cfg.timing.lead) && MessageSpace(cfg, rx[73])
    requires ReadBits(cfg, rx, 1, 32) == MsbBits(address, 31, 32) && ReadBits(cfg, rx, 33, 32) == MsbBits(command, 31, 32)
    requires ReadBits(cfg, rx, 65, 8) == MsbBits(checksum, 7, 8)
    ensures AcDataCode(cfg, rx) == Some(AcCode(address, command, checksum % 0x100))
  {
    MsbRoundTrip(address, 31, 32);
    MsbRoundTrip(command, 31, 32);
    MsbRoundTrip(checksum, 7, 8);
    Pow2Constants();
    ModUnique(address, 0x1_0000_0000, 0, address);
    ModUnique(command, 0x1_0000_0000, 0, command);
  }

  /**
   * A frame of `build_frame_toshibaAC` decodes to the first copy's address,
   * command and low checksum byte, whatever the second copy holds.
   */
  lemma AcRoundTrip(cfg: RxConfig, address: U32, command: U32, checksum: U32, addr: U32, cmd: U32, cksum: U32)
    requires Tolerates(cfg.timing, cfg.margin) && Fits(cfg.timing.message, cfg.margin)
    ensures AcDataCode(cfg, Received(Frame(cfg.inverse, cfg.timing, AcBits(address, command, checksum), AcBits(addr, cmd, cksum)))
      [..DataWords(true)]) == Some(AcCode(address, command, checksum % 0x100))
  {
    AcLayout(cfg, address, command, checksum, addr, cmd, cksum);
    AcDecodeSent(cfg, Received(Frame(cfg.inverse, cfg.timing, AcBits(address, command, checksum), AcBits(addr, cmd, cksum)))
      [..DataWords(true)], address, command, checksum);
  }
}
