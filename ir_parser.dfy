/*
 * The state every `*_parser_t` shares: the caller's record buffer, a read
 * cursor, the frame kind `input` selected, and the last decoded scan code
 * kept for repeat frames.  The `parse_*` steps below are written identically
 * in every family file; the family modules compose them into `get_scan_code`.
 */
module IrParser {
  import opened IrBits
  import opened IrCommon

  /** What a parser fixes at creation: the tick templates, the tolerance and the idle level. */
  datatype RxConfig = RxConfig(timing: Timing, margin: U32, inverse: bool)

  /**
   * The test every `parse_*` step applies to one record: active level first,
   * idle level second, and both durations within the margin of the template.
   */
  predicate Matches(cfg: RxConfig, item: Item, p: Pulse)
    ensures Matches(cfg, item, p) ==> item.level0 != item.level1 && item != ZeroItem && 0 < cfg.margin
  {
    item.level0 == cfg.inverse && item.level1 != cfg.inverse &&
    CheckInRange(item.duration0, p.high, cfg.margin) &&
    CheckInRange(item.duration1, p.low, cfg.margin)
  }

  /** `parse_logic` recognises the record as logic 0 or as logic 1. */
  predicate Recognised(cfg: RxConfig, item: Item)
  {
    Matches(cfg, item, cfg.timing.zero) || Matches(cfg, item, cfg.timing.one)
  }

  /**
   * The bit a decoding loop ORs in for one record: logic 0 is tried first and
   * contributes nothing, and an unrecognised record contributes nothing either.
   */
  predicate LogicBit(cfg: RxConfig, item: Item)
    ensures LogicBit(cfg, item) ==> Recognised(cfg, item)
    ensures !Recognised(cfg, item) ==> !LogicBit(cfg, item)
    ensures Matches(cfg, item, cfg.timing.zero) ==> !LogicBit(cfg, item)
  {
    !Matches(cfg, item, cfg.timing.zero) && Matches(cfg, item, cfg.timing.one)
  }

  /** The bits a decoding loop sees in the n records from `from` on. */
  function ReadBits(cfg: RxConfig, buf: seq<Item>, from: nat, n: nat): (r: seq<bool>)
    requires from + n <= |buf|
    ensures |r| == n
    ensures forall k :: 0 <= k < n ==> r[k] == LogicBit(cfg, buf[from + k])
  {
    seq(n, k requires 0 <= k < n => LogicBit(cfg, buf[from + k]))
  }

  /** What `for (i = 0; i < n; i++) acc |= logic << i` accumulates. */
  function LsbValue(cfg: RxConfig, buf: seq<Item>, from: nat, n: nat): (r: U32)
    requires n <= 32 && from + n <= |buf|
    ensures r < Pow2(n)
  {
    var bits := ReadBits(cfg, buf, from, n);
    FromLsbBound(bits);
    BelowPow2IsU32(FromLsb(bits), n);
    FromLsb(bits)
  }

  /** What `for (i = top; i > top - n; i--) acc |= logic << i` accumulates. */
  function MsbValue(cfg: RxConfig, buf: seq<Item>, from: nat, top: nat, n: nat): (r: U32)
    requires n <= top + 1 <= 32 && from + n <= |buf|
    ensures r < Pow2(top + 1)
  {
    var bits := ReadBits(cfg, buf, from, n);
    FromMsbBound(bits, top);
    BelowPow2IsU32(FromMsb(bits, top), top + 1);
    FromMsb(bits, top)
  }

  // ---------------------------------------------------------------------
  // What a parser recognises in a frame a builder wrote

  /** Under a fitting margin, a received mark matches the template it was written from. */
  lemma ReceivedMarkMatches(cfg: RxConfig, p: Pulse)
    requires Fits(p, cfg.margin)
    ensures Matches(cfg, Flip(Mark(cfg.inverse, p)), p)
  {
    CheckInRangeInterval(p.high, p.high, cfg.margin);
    CheckInRangeInterval(p.low, p.low, cfg.margin);
  }

  /** A received mark of one template never matches a template separated from it. */
  lemma ReceivedMarkMismatches(cfg: RxConfig, p: Pulse, q: Pulse)
    requires Fits(p, cfg.margin) && Separated(p, q, cfg.margin)
    ensures !Matches(cfg, Flip(Mark(cfg.inverse, q)), p)
  {
    CheckInRangeInterval(q.high, p.high, cfg.margin);
    CheckInRangeInterval(q.low, p.low, cfg.margin);
  }

  /** A received logic record decodes to the bit it was written for. */
  lemma ReceivedLogicBit(cfg: RxConfig, b: bool)
    requires Tolerates(cfg.timing, cfg.margin)
    ensures LogicBit(cfg, Flip(LogicItem(cfg.inverse, cfg.timing, b))) == b
    ensures Recognised(cfg, Flip(LogicItem(cfg.inverse, cfg.timing, b)))
  {
    var t := cfg.timing;
    if b {
      ReceivedMarkMismatches(cfg, t.zero, t.one);
      ReceivedMarkMatches(cfg, t.one);
    } else {
      ReceivedMarkMatches(cfg, t.zero);
    }
  }

  /** The records from `from` on are the received logic records of `bits`. */
  predicate Carries(cfg: RxConfig, buf: seq<Item>, from: nat, bits: seq<bool>)
  {
    from + |bits| <= |buf| &&
    forall k :: 0 <= k < |bits| ==> buf[from + k] == Flip(LogicItem(cfg.inverse, cfg.timing, bits[k]))
  }

  /** A decoding loop over received logic records sees exactly the bits that were sent. */
  lemma ReadCarried(cfg: RxConfig, buf: seq<Item>, from: nat, bits: seq<bool>)
    requires Tolerates(cfg.timing, cfg.margin)
    requires Carries(cfg, buf, from, bits)
    ensures ReadBits(cfg, buf, from, |bits|) == bits
  {
    forall k | 0 <= k < |bits|
      ensures ReadBits(cfg, buf, from, |bits|)[k] == bits[k]
    {
      ReceivedLogicBit(cfg, bits[k]);
    }
  }

  /** Records carrying two runs of bits one after the other carry each run. */
  lemma CarriesSplit(cfg: RxConfig, buf: seq<Item>, from: nat, x: seq<bool>, y: seq<bool>)
    requires Carries(cfg, buf, from, x + y)
    ensures Carries(cfg, buf, from, x) && Carries(cfg, buf, from + |x|, y)
  {
    forall k | 0 <= k < |x|
      ensures buf[from + k] == Flip(LogicItem(cfg.inverse, cfg.timing, x[k]))
    {
      assert (x + y)[k] == x[k];
    }
    forall k | 0 <= k < |y|
      ensures buf[from + |x| + k] == Flip(LogicItem(cfg.inverse, cfg.timing, y[k]))
    {
      assert (x + y)[|x| + k] == y[k];
    }
  }

  /** A frame `prefix + LogicItems(bits) + suffix`, received, carries `bits` right after the prefix. */
  lemma SegmentCarries(cfg: RxConfig, prefix: seq<Item>, bits: seq<bool>, suffix: seq<Item>, len: nat)
    requires |prefix| + |bits| <= len <= |prefix| + |bits| + |suffix|
    ensures Carries(cfg, Received(prefix + LogicItems(cfg.inverse, cfg.timing, bits) + suffix)[..len], |prefix|, bits)
  {
    var frame := prefix + LogicItems(cfg.inverse, cfg.timing, bits) + suffix;
    forall k | 0 <= k < |bits|
      ensures frame[|prefix| + k] == LogicItem(cfg.inverse, cfg.timing, bits[k])
    {
    }
  }

  /** A received repeat frame, terminator dropped, is recognised as one. */
  lemma RepeatFrameRecognised(cfg: RxConfig)
    requires Fits(cfg.timing.repeat, cfg.margin)
    ensures var rx := Received(RepeatFrame(cfg.inverse, cfg.timing));
      |rx| == 3 && rx[2] == Flip(ZeroItem) && Matches(cfg, rx[0], cfg.timing.repeat)
  {
    ReceivedMarkMatches(cfg, cfg.timing.repeat);
  }

  /** What a repeat branch reports: the cached scan code, when the first record is the repeat mark. */
  function RepeatCode(cfg: RxConfig, buf: seq<Item>, lastAddress: U32, lastCommand: U32): (r: Option<ScanCode>)
    requires 1 <= |buf|
    ensures r.Some? <==> Matches(cfg, buf[0], cfg.timing.repeat)
    ensures r.Some? ==> r.value == ScanCode(lastAddress, lastCommand, true)
  {
    if Matches(cfg, buf[0], cfg.timing.repeat) then Some(ScanCode(lastAddress, lastCommand, true)) else None
  }

  /**
   * What the data branch of a family with one head and two LSB-first fields
   * decodes: nothing when the leading code does not match.
   */
  function LsbDataCode(cfg: RxConfig, buf: seq<Item>, addressBits: nat, commandBits: nat): (r: Option<ScanCode>)
    requires addressBits <= 32 && commandBits <= 32 && 1 + addressBits + commandBits <= |buf|
    ensures r.Some? <==> Matches(cfg, buf[0], cfg.timing.lead)
    ensures r.Some? ==> r.value.address < Pow2(addressBits) && r.value.command < Pow2(commandBits) && !r.value.repeat
  {
    if Matches(cfg, buf[0], cfg.timing.lead) then
      Some(ScanCode(LsbValue(cfg, buf, 1, addressBits), LsbValue(cfg, buf, 1 + addressBits, commandBits), false))
    else
      None
  }

  /**
   * A received two-field frame whose terminator was dropped: the leading code
   * matches and the decoding loops see exactly the bits of each field, the
   * second field starting at `mid`.
   */
  lemma TwoFieldRoundTrip(cfg: RxConfig, first: seq<bool>, second: seq<bool>, mid: nat, len: nat)
    requires Tolerates(cfg.timing, cfg.margin) && mid == 1 + |first| && len == |first| + |second| + 2
    ensures var rx := Received(TwoFieldFrame(cfg.inverse, cfg.timing, first, second))[..len];
      Matches(cfg, rx[0], cfg.timing.lead) &&
      ReadBits(cfg, rx, 1, |first|) == first && ReadBits(cfg, rx, mid, |second|) == second
  {
    var t := cfg.timing;
    var frame := TwoFieldFrame(cfg.inverse, t, first, second);
    var rx := Received(frame)[..len];
    ReceivedMarkMatches(cfg, t.lead);
    var rest := LogicItems(cfg.inverse, t, second) + EndItems(cfg.inverse, t);
    assert frame == [Mark(cfg.inverse, t.lead)] + LogicItems(cfg.inverse, t, first) + rest;
    SegmentCarries(cfg, [Mark(cfg.inverse, t.lead)], first, rest, |frame| - 1);
    ReadCarried(cfg, rx, 1, first);
    var head := [Mark(cfg.inverse, t.lead)] + LogicItems(cfg.inverse, t, first);
    SegmentCarries(cfg, head, second, EndItems(cfg.inverse, t), |frame| - 1);
    ReadCarried(cfg, rx, mid, second);
  }

  /** Records whose head matches and whose two fields read as LSB-first bits decode to the low bits of those fields. */
  lemma LsbDecode(cfg: RxConfig, rx: seq<Item>, address: U32, addressBits: nat, command: U32, commandBits: nat)
    requires addressBits <= 32 && commandBits <= 32
    requires 1 + addressBits + commandBits <= |rx| && Matches(cfg, rx[0], cfg.timing.lead)
    requires ReadBits(cfg, rx, 1, addressBits) == LsbBits(address, addressBits)
    requires ReadBits(cfg, rx, 1 + addressBits, commandBits) == LsbBits(command, commandBits)
    ensures var code := LsbDataCode(cfg, rx, addressBits, commandBits);
      code.Some? && !code.value.repeat &&
      code.value.address == address % Pow2(addressBits) && code.value.command == command % Pow2(commandBits)
  {
    LsbRoundTrip(address, addressBits);
    LsbRoundTrip(command, commandBits);
  }

  /**
   * A frame written by `build_frame`, received without its terminator,
   * decodes to the low bits of the fields that were sent.
   */
  lemma LsbFrameRoundTrip(cfg: RxConfig, address: U32, addressBits: nat, command: U32, commandBits: nat, len: nat)
    requires Tolerates(cfg.timing, cfg.margin) && addressBits <= 32 && commandBits <= 32
    requires len == addressBits + commandBits + 2
    ensures var code := LsbDataCode(cfg, Received(LsbFrame(cfg.inverse, cfg.timing, address, addressBits, command, commandBits))[..len], addressBits, commandBits);
      code.Some? && !code.value.repeat &&
      code.value.address == address % Pow2(addressBits) && code.value.command == command % Pow2(commandBits)
  {
    // The frame is spelled out in each call rather than bound to a local:
    // the postcondition then matches the callees' terms syntactically.
    TwoFieldRoundTrip(cfg, LsbBits(address, addressBits), LsbBits(command, commandBits), 1 + addressBits, len);
    LsbDecode(cfg, Received(LsbFrame(cfg.inverse, cfg.timing, address, addressBits, command, commandBits))
      [..len],
      address, addressBits, command, commandBits);
  }

  /** Records whose two fields read as MSB-first bits decode to the bits of those fields that were sent. */
  lemma MsbDecode(cfg: RxConfig, rx: seq<Item>, x: U32, xTop: nat, xBits: nat, y: U32, yTop: nat, yBits: nat)
    requires xBits <= xTop + 1 <= 32 && yBits <= yTop + 1 <= 32 && 1 + xBits + yBits <= |rx|
    requires ReadBits(cfg, rx, 1, xBits) == MsbBits(x, xTop, xBits)
    requires ReadBits(cfg, rx, 1 + xBits, yBits) == MsbBits(y, yTop, yBits)
    ensures MsbValue(cfg, rx, 1, xTop, xBits) == x % Pow2(xTop + 1) - x % Pow2(xTop + 1 - xBits)
    ensures MsbValue(cfg, rx, 1 + xBits, yTop, yBits) == y % Pow2(yTop + 1) - y % Pow2(yTop + 1 - yBits)
  {
    MsbRoundTrip(x, xTop, xBits);
    MsbRoundTrip(y, yTop, yBits);
  }

  /**
   * A frame with two MSB-first fields, received without its terminator:
   * its head matches and each field reads back as the bits that were sent.
   */
  lemma MsbFrameRoundTrip(cfg: RxConfig, x: U32, xTop: nat, xBits: nat, y: U32, yTop: nat, yBits: nat, len: nat)
    requires Tolerates(cfg.timing, cfg.margin)
    requires xBits <= xTop + 1 <= 32 && yBits <= yTop + 1 <= 32 && len == xBits + yBits + 2
    ensures var rx := Received(MsbFrame(cfg.inverse, cfg.timing, x, xTop, xBits, y, yTop, yBits))[..len];
      Matches(cfg, rx[0], cfg.timing.lead) &&
      MsbValue(cfg, rx, 1, xTop, xBits) == x % Pow2(xTop + 1) - x % Pow2(xTop + 1 - xBits) &&
      MsbValue(cfg, rx, 1 + xBits, yTop, yBits) == y % Pow2(yTop + 1) - y % Pow2(yTop + 1 - yBits)
  {
    TwoFieldRoundTrip(cfg, MsbBits(x, xTop, xBits), MsbBits(y, yTop, yBits), 1 + xBits, len);
    MsbDecode(cfg, Received(MsbFrame(cfg.inverse, cfg.timing, x, xTop, xBits, y, yTop, yBits))
      [..len],
      x, xTop, xBits, y, yTop, yBits);
  }

  class Parser {
    const cfg: RxConfig
    /** `*_DATA_FRAME_RMT_WORDS`. */
    const dataWords: nat
    /** `*_REPEAT_FRAME_RMT_WORDS`, absent in the families without repeat frames. */
    const repeatWords: Option<nat>
    /** The records last handed to `input`. */
    var buffer: seq<Item>
    var cursor: nat
    var repeat: bool
    var lastAddress: U32
    var lastCommand: U32

    /** The successful path of `ir_parser_rmt_new_*`: a zeroed parser with the configured timing. */
    constructor (flags: U32, inverseMask: U32, margin: U32, timing: Timing, dataWords: nat, repeatWords: Option<nat>)
      ensures cfg == RxConfig(timing, margin, And(flags, inverseMask) != 0)
      ensures this.dataWords == dataWords && this.repeatWords == repeatWords
      ensures buffer == [] && cursor == 0 && !repeat && lastAddress == 0 && lastCommand == 0
    {
      cfg := RxConfig(timing, margin, And(flags, inverseMask) != 0);
      this.dataWords := dataWords;
      this.repeatWords := repeatWords;
      buffer := [];
      cursor := 0;
      repeat := false;
      lastAddress := 0;
      lastCommand := 0;
    }

    /**
     * `input`: keep the records and classify the frame by its length alone;
     * a length that is neither kind fails and leaves the previous kind.
     */
    method Input(raw: Option<seq<Item>>, length: U32) returns (status: Status)
      modifies this`buffer, this`repeat
      ensures raw.None? ==> status == InvalidArg && buffer == old(buffer) && repeat == old(repeat)
      ensures raw.Some? ==> buffer == raw.value
      ensures raw.Some? && length == dataWords ==> status == Ok && !repeat
      ensures raw.Some? && length != dataWords && repeatWords == Some(length) ==> status == Ok && repeat
      ensures raw.Some? && length != dataWords && repeatWords != Some(length) ==>
        status == Fail && repeat == old(repeat)
    {
      if raw.None? {
        return InvalidArg;
      }
      buffer := raw.value;
      status := Ok;
      if length == dataWords {
        repeat := false;
      } else if repeatWords == Some(length) {
        repeat := true;
      } else {
        status := Fail;
      }
    }

    /** `parse_head`: rewind and test the first record against the leading code. */
    method ParseHead() returns (ok: bool)
      requires 1 <= |buffer|
      modifies this`cursor
      ensures cursor == 1
      ensures ok == Matches(cfg, buffer[0], cfg.timing.lead)
    {
      cursor := 0;
      ok := Matches(cfg, buffer[cursor], cfg.timing.lead);
      cursor := cursor + 1;
    }

    /** `parse_repeat_frame`: rewind and test the first record against the repeat code. */
    method ParseRepeatFrame() returns (ok: bool)
      requires 1 <= |buffer|
      modifies this`cursor
      ensures cursor == 1
      ensures ok == Matches(cfg, buffer[0], cfg.timing.repeat)
    {
      cursor := 0;
      ok := Matches(cfg, buffer[cursor], cfg.timing.repeat);
      cursor := cursor + 1;
    }

    /** The repeat branch of `get_scan_code`: report the cached code if the repeat mark matches. */
    method ParseRepeat() returns (code: Option<ScanCode>)
      requires 1 <= |buffer|
      modifies this`cursor
      ensures cursor == 1
      ensures code == RepeatCode(cfg, buffer, lastAddress, lastCommand)
    {
      code := None;
      var ok := ParseRepeatFrame();
      if ok {
        code := Some(ScanCode(lastAddress, lastCommand, true));
      }
    }

    /**
     * `parse_logic`: logic 0 is tried before logic 1; the value is only
     * meaningful on success, and the cursor advances either way.
     */
    method ParseLogic() returns (status: Status, logic: bool)
      requires cursor < |buffer|
      modifies this`cursor
      ensures cursor == old(cursor) + 1
      ensures status == Ok <==> Recognised(cfg, buffer[old(cursor)])
      ensures status != Ok ==> status == Fail
      ensures status == Ok ==> logic == !Matches(cfg, buffer[old(cursor)], cfg.timing.zero)
    {
      status := Fail;
      logic := false;
      if Matches(cfg, buffer[cursor], cfg.timing.zero) {
        logic := false;
        status := Ok;
      } else if Matches(cfg, buffer[cursor], cfg.timing.one) {
        logic := true;
        status := Ok;
      }
      cursor := cursor + 1;
    }

    /** The data branch of `get_scan_code` in the families with one head and two LSB-first fields. */
    method ReadLsbFrame(addressBits: nat, commandBits: nat) returns (code: Option<ScanCode>)
      requires addressBits <= 32 && commandBits <= 32 && 1 + addressBits + commandBits <= |buffer|
      modifies this`cursor
      ensures code == LsbDataCode(cfg, buffer, addressBits, commandBits)
      ensures cursor == if code.Some? then 1 + addressBits + commandBits else 1
    {
      code := None;
      var head := ParseHead();
      if head {
        var address := ReadLsb(addressBits);
        var command := ReadLsb(commandBits);
        code := Some(ScanCode(address, command, false));
      }
    }

    /** `parse_message` (Gree): test the record at the cursor against the message space. */
    method ParseMessage() returns (ok: bool)
      requires cursor < |buffer|
      modifies this`cursor
      ensures cursor == old(cursor) + 1
      ensures ok == Matches(cfg, buffer[old(cursor)], cfg.timing.message)
    {
      ok := Matches(cfg, buffer[cursor], cfg.timing.message);
      cursor := cursor + 1;
    }

    /**
     * `parse_message_space` (Toshiba): like `parse_message`, but the space
     * may match either the message space or the new-message space.
     */
    method ParseMessageSpace() returns (ok: bool)
      requires cursor < |buffer|
      modifies this`cursor
      ensures cursor == old(cursor) + 1
      ensures ok == MessageSpace(cfg, buffer[old(cursor)])
    {
      var item := buffer[cursor];
      var short := CheckInRange(item.duration1, cfg.timing.message.low, cfg.margin);
      var long := CheckInRange(item.duration1, cfg.timing.newMessageLow, cfg.margin);
      ok := item.level0 == cfg.inverse && item.level1 != cfg.inverse &&
            CheckInRange(item.duration0, cfg.timing.message.high, cfg.margin) &&
            (short || long);
      cursor := cursor + 1;
    }

    /** `for (i = 0; i < n; i++) if (parse_logic(&logic) == ESP_OK) acc |= logic << i`. */
    method ReadLsb(n: nat) returns (acc: U32)
      requires n <= 32 && cursor + n <= |buffer|
      modifies this`cursor
      ensures cursor == old(cursor) + n
      ensures acc == LsbValue(cfg, buffer, old(cursor), n)
    {
      ghost var bits := ReadBits(cfg, buffer, cursor, n);
      ghost var start := cursor;
      var a: nat := 0;
      for i := 0 to n
        invariant cursor == start + i
        invariant a == FromLsb(bits[..i])
      {
        var status, logic := ParseLogic();
        LsbLoopStep(bits, i, a, status == Ok, logic);
        if status == Ok {
          a := Or(a, if logic then Pow2(i) else 0);
        }
      }
      assert bits[..n] == bits;
      FromLsbBound(bits);
      BelowPow2IsU32(a, n);
      acc := a;
    }

    /** `for (i = top; i > top - n; i--) if (parse_logic(&logic) == ESP_OK) acc |= logic << i`. */
    method ReadMsb(top: nat, n: nat) returns (acc: U32)
      requires n <= top + 1 <= 32 && cursor + n <= |buffer|
      modifies this`cursor
      ensures cursor == old(cursor) + n
      ensures acc == MsbValue(cfg, buffer, old(cursor), top, n)
    {
      ghost var bits := ReadBits(cfg, buffer, cursor, n);
      ghost var start := cursor;
      var a: nat := 0;
      var i: int := top;
      while i > top - n
        invariant top - n <= i <= top
        invariant cursor == start + (top - i)
        invariant a == FromMsb(bits[..top - i], top)
      {
        var status, logic := ParseLogic();
        MsbLoopStep(bits, top, top - i, i, a, status == Ok, logic);
        if status == Ok {
          a := Or(a, if logic then Pow2(i) else 0);
        }
        i := i - 1;
      }
      assert bits[..n] == bits;
      FromMsbBound(bits, top);
      BelowPow2IsU32(a, top + 1);
      acc := a;
    }
  }

  /** One iteration of a least-significant-first decoding loop, whether or not the record was recognised. */
  lemma LsbLoopStep(bits: seq<bool>, i: nat, a: nat, ok: bool, logic: bool)
    requires i < |bits| && a == FromLsb(bits[..i]) && (ok && logic) == bits[i]
    ensures (if ok then Or(a, if logic then Pow2(i) else 0) else a) == FromLsb(bits[..i + 1])
  {
    LsbAccumulate(bits, i);
    OrZero(a);
  }

  /** One iteration of a most-significant-first decoding loop, whether or not the record was recognised. */
  lemma MsbLoopStep(bits: seq<bool>, top: nat, k: nat, j: nat, a: nat, ok: bool, logic: bool)
    requires k < |bits| <= top + 1 && k + j == top && a == FromMsb(bits[..k], top) && (ok && logic) == bits[k]
    ensures (if ok then Or(a, if logic then Pow2(j) else 0) else a) == FromMsb(bits[..k + 1], top)
  {
    MsbAccumulate(bits, top, k);
    OrZero(a);
  }

  /** The record `parse_message_space` accepts. */
  predicate MessageSpace(cfg: RxConfig, item: Item)
    ensures MessageSpace(cfg, item) ==> item.level0 != item.level1 && item != ZeroItem && 0 < cfg.margin
    ensures Matches(cfg, item, cfg.timing.message) ==> MessageSpace(cfg, item)
    ensures Matches(cfg, item, Pulse(cfg.timing.message.high, cfg.timing.newMessageLow)) ==> MessageSpace(cfg, item)
  {
    item.level0 == cfg.inverse && item.level1 != cfg.inverse &&
    CheckInRange(item.duration0, cfg.timing.message.high, cfg.margin) &&
    (CheckInRange(item.duration1, cfg.timing.message.low, cfg.margin) ||
     CheckInRange(item.duration1, cfg.timing.newMessageLow, cfg.margin))
  }
}
