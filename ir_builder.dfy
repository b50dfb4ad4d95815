/*
 * The state every `*_builder_t` shares: a record buffer filled in place at a
 * cursor, plus the configuration fixed when the builder is created.  The
 * `make_*` steps below are written identically in every family file; the
 * family modules compose them into frames.
 */
module IrBuilder {
  import opened IrBits
  import opened IrCommon

  /** `s` with the slots at .. at+|items|-1 replaced by `items`. */
  function Overwrite(s: seq<Item>, at: nat, items: seq<Item>): (r: seq<Item>)
    requires at + |items| <= |s|
    ensures |r| == |s|
    ensures forall k :: 0 <= k < |s| ==> r[k] == (if at <= k < at + |items| then items[k - at] else s[k])
  {
    s[..at] + items + s[at + |items|..]
  }

  /** Writing no records changes nothing. */
  lemma OverwriteNothing(s: seq<Item>, at: nat)
    requires at <= |s|
    ensures Overwrite(s, at, []) == s
  {
    assert s[..at] + [] + s[at..] == s;
  }

  /** Writing x and then y right after it is writing x + y. */
  lemma OverwriteTwice(s: seq<Item>, at: nat, x: seq<Item>, y: seq<Item>)
    requires at + |x| + |y| <= |s|
    ensures Overwrite(Overwrite(s, at, x), at + |x|, y) == Overwrite(s, at, x + y)
  {
    var lhs := Overwrite(Overwrite(s, at, x), at + |x|, y);
    var rhs := Overwrite(s, at, x + y);
    assert forall k :: 0 <= k < |s| ==> lhs[k] == rhs[k];
  }

  /** The bit-by-bit record sequence grows by one record per loop iteration. */
  lemma LogicItemsSnoc(inverse: bool, t: Timing, bits: seq<bool>, b: bool)
    ensures LogicItems(inverse, t, bits + [b]) == LogicItems(inverse, t, bits) + [LogicItem(inverse, t, b)]
  {
    assert forall k :: 0 <= k < |bits| + 1 ==>
      LogicItems(inverse, t, bits + [b])[k] == (LogicItems(inverse, t, bits) + [LogicItem(inverse, t, b)])[k];
  }

  /** The logic records of two bit runs are the records of each, back to back. */
  lemma LogicItemsAppend(inverse: bool, t: Timing, x: seq<bool>, y: seq<bool>)
    ensures LogicItems(inverse, t, x + y) == LogicItems(inverse, t, x) + LogicItems(inverse, t, y)
  {
    assert forall k :: 0 <= k < |x| + |y| ==>
      LogicItems(inverse, t, x + y)[k] == (LogicItems(inverse, t, x) + LogicItems(inverse, t, y))[k];
  }

  /** One more logic record written right after the ones already written. */
  lemma EmitStep(before: seq<Item>, start: nat, inverse: bool, t: Timing, bits: seq<bool>, b: bool)
    requires start + |bits| + 1 <= |before|
    ensures Overwrite(Overwrite(before, start, LogicItems(inverse, t, bits)), start + |bits|, [LogicItem(inverse, t, b)]) ==
      Overwrite(before, start, LogicItems(inverse, t, bits + [b]))
  {
    OverwriteTwice(before, start, LogicItems(inverse, t, bits), [LogicItem(inverse, t, b)]);
    LogicItemsSnoc(inverse, t, bits, b);
  }

  /** A run written right after what is already written from slot `at` extends it. */
  lemma Extended(before: seq<Item>, at: nat, written: seq<Item>, x: seq<Item>, s: seq<Item>, s2: seq<Item>)
    requires at + |written| + |x| <= |before|
    requires s == Overwrite(before, at, written)
    requires s2 == Overwrite(s, at + |written|, x)
    ensures s2 == Overwrite(before, at, written + x)
  {
    OverwriteTwice(before, at, written, x);
  }

  /** Three runs of records written back to back from slot 0 are their concatenation written at once. */
  lemma ThreeRuns(before: seq<Item>, h: seq<Item>, x: seq<Item>, y: seq<Item>, s1: seq<Item>, s2: seq<Item>, s3: seq<Item>)
    requires |h| + |x| + |y| <= |before|
    requires s1 == Overwrite(before, 0, h)
    requires s2 == Overwrite(s1, |h|, x)
    requires s3 == Overwrite(s2, |h| + |x|, y)
    ensures s3 == Overwrite(before, 0, h + x + y)
  {
    OverwriteTwice(before, 0, h, x);
    OverwriteTwice(before, 0, h + x, y);
  }

  /** Four runs of records written back to back from slot 0 are their concatenation written at once. */
  lemma FourRuns(before: seq<Item>, h: seq<Item>, x: seq<Item>, y: seq<Item>, e: seq<Item>,
                 s1: seq<Item>, s2: seq<Item>, s3: seq<Item>, s4: seq<Item>)
    requires |h| + |x| + |y| + |e| <= |before|
    requires s1 == Overwrite(before, 0, h)
    requires s2 == Overwrite(s1, |h|, x)
    requires s3 == Overwrite(s2, |h| + |x|, y)
    requires s4 == Overwrite(s3, |h| + |x| + |y|, e)
    ensures s4 == Overwrite(before, 0, h + x + y + e)
  {
    OverwriteTwice(before, 0, h, x);
    OverwriteTwice(before, 0, h + x, y);
    OverwriteTwice(before, 0, h + x + y, e);
  }

  lemma LsbBitsSnoc(x: nat, i: nat)
    ensures LsbBits(x, i + 1) == LsbBits(x, i) + [Bit(x, i)]
  {
  }

  lemma MsbBitsSnoc(x: nat, top: nat, i: nat)
    requires i + 1 <= top + 1
    ensures MsbBits(x, top, i + 1) == MsbBits(x, top, i) + [Bit(x, top - i)]
  {
  }

  /** The values of `IR_TOOLS_FLAGS_PROTO_EXT` and `IR_TOOLS_FLAGS_INVERSE`. */
  datatype FlagMasks = FlagMasks(protoExt: U32, inverse: U32)

  class Builder {
    /** The `rmt_item32_t buffer[buffer_size]` allocated behind the struct. */
    const buffer: array<Item>
    var cursor: nat
    const flags: U32
    const protoExt: U32
    const inverse: bool
    const timing: Timing

    /** `parent.repeat_period_ms`: the interval at which the application re-sends a held key. */
    const repeatPeriodMs: nat

    /** The successful path of `ir_builder_rmt_new_*`: a zeroed buffer and the configured flags. */
    constructor (bufferSize: nat, flags: U32, masks: FlagMasks, timing: Timing, repeatPeriodMs: nat)
      ensures fresh(buffer) && buffer.Length == bufferSize
      ensures forall k :: 0 <= k < bufferSize ==> buffer[k] == ZeroItem
      ensures cursor == 0 && this.flags == flags && protoExt == masks.protoExt
      ensures inverse == (And(flags, masks.inverse) != 0)
      ensures this.timing == timing && this.repeatPeriodMs == repeatPeriodMs
    {
      buffer := new Item[bufferSize](_ => ZeroItem);
      cursor := 0;
      this.flags := flags;
      protoExt := masks.protoExt;
      inverse := And(flags, masks.inverse) != 0;
      this.timing := timing;
      this.repeatPeriodMs := repeatPeriodMs;
    }

    /** `make_head`: restart the frame with the leading code. */
    method MakeHead()
      requires 1 <= buffer.Length
      modifies this`cursor, buffer
      ensures cursor == 1
      ensures buffer[..] == Overwrite(old(buffer[..]), 0, [Mark(inverse, timing.lead)])
    {
      cursor := 0;
      buffer[cursor] := Mark(inverse, timing.lead);
      cursor := cursor + 1;
    }

    /** `make_head` in the Toshiba builder, which appends at the cursor instead of restarting. */
    method AppendHead()
      requires cursor + 1 <= buffer.Length
      modifies this`cursor, buffer
      ensures cursor == old(cursor) + 1
      ensures buffer[..] == Overwrite(old(buffer[..]), old(cursor), [Mark(inverse, timing.lead)])
    {
      buffer[cursor] := Mark(inverse, timing.lead);
      cursor := cursor + 1;
    }

    method MakeLogic0()
      requires cursor + 1 <= buffer.Length
      modifies this`cursor, buffer
      ensures cursor == old(cursor) + 1
      ensures buffer[..] == Overwrite(old(buffer[..]), old(cursor), [LogicItem(inverse, timing, false)])
    {
      buffer[cursor] := Mark(inverse, timing.zero);
      cursor := cursor + 1;
    }

    method MakeLogic1()
      requires cursor + 1 <= buffer.Length
      modifies this`cursor, buffer
      ensures cursor == old(cursor) + 1
      ensures buffer[..] == Overwrite(old(buffer[..]), old(cursor), [LogicItem(inverse, timing, true)])
    {
      buffer[cursor] := Mark(inverse, timing.one);
      cursor := cursor + 1;
    }

    /** `make_end`: the ending mark with the longest space, then the all-zero terminator. */
    method MakeEnd()
      requires cursor + 2 <= buffer.Length
      modifies this`cursor, buffer
      ensures cursor == old(cursor) + 2
      ensures buffer[..] == Overwrite(old(buffer[..]), old(cursor), EndItems(inverse, timing))
    {
      buffer[cursor] := Mark(inverse, Pulse(timing.endHigh, EndingLowTicks));
      cursor := cursor + 1;
      buffer[cursor] := ZeroItem;
      cursor := cursor + 1;
    }

    /** `make_message_space` (Gree, Toshiba): one message-space record. */
    method MakeMessageSpace()
      requires cursor + 1 <= buffer.Length
      modifies this`cursor, buffer
      ensures cursor == old(cursor) + 1
      ensures buffer[..] == Overwrite(old(buffer[..]), old(cursor), [Mark(inverse, timing.message)])
    {
      buffer[cursor] := Mark(inverse, timing.message);
      cursor := cursor + 1;
    }

    /**
     * `make_spacegap` (Sharp): only the second half of the record at the
     * cursor is written; its first half keeps whatever the buffer held.
     */
    method MakeSpacegap()
      requires cursor + 1 <= buffer.Length
      modifies this`cursor, buffer
      ensures cursor == old(cursor) + 1
      ensures buffer[..] == Overwrite(old(buffer[..]), old(cursor), [SpacegapItem(inverse, timing, old(buffer[cursor]))])
    {
      buffer[cursor] := buffer[cursor].(level1 := inverse, duration1 := timing.gap.low);
      cursor := cursor + 1;
    }

    /** The loop body `bit ? make_logic1 : make_logic0` shared by the bit loops. */
    method MakeLogic(bit: bool)
      requires cursor + 1 <= buffer.Length
      modifies this`cursor, buffer
      ensures cursor == old(cursor) + 1
      ensures buffer[..] == Overwrite(old(buffer[..]), old(cursor), [LogicItem(inverse, timing, bit)])
    {
      if bit {
        MakeLogic1();
      } else {
        MakeLogic0();
      }
    }

    /** The loop `for (i = 0; i < n; i++) value & (1 << i) ? make_logic1 : make_logic0`. */
    method EmitLsb(value: U32, n: nat)
      requires cursor + n <= buffer.Length
      modifies this`cursor, buffer
      ensures cursor == old(cursor) + n
      ensures buffer[..] == Overwrite(old(buffer[..]), old(cursor), LogicItems(inverse, timing, LsbBits(value, n)))
    {
      ghost var start := cursor;
      ghost var before := buffer[..];
      for i := 0 to n
        invariant cursor == start + i
        invariant buffer[..] == Overwrite(before, start, LogicItems(inverse, timing, LsbBits(value, i)))
      {
        EmitStep(before, start, inverse, timing, LsbBits(value, i), Bit(value, i));
        LsbBitsSnoc(value, i);
        MakeLogic(Bit(value, i));
      }
    }

    /** The loop `for (i = top; i > top - n; i--) value & (1 << i) ? make_logic1 : make_logic0`. */
    method EmitMsb(value: U32, top: nat, n: nat)
      requires n <= top + 1
      requires cursor + n <= buffer.Length
      modifies this`cursor, buffer
      ensures cursor == old(cursor) + n
      ensures buffer[..] == Overwrite(old(buffer[..]), old(cursor), LogicItems(inverse, timing, MsbBits(value, top, n)))
    {
      ghost var start := cursor;
      ghost var before := buffer[..];
      // `k` counts the bits already sent, so the C index `i` is `top - k`.
      for k := 0 to n
        invariant cursor == start + k
        invariant buffer[..] == Overwrite(before, start, LogicItems(inverse, timing, MsbBits(value, top, k)))
      {
        EmitStep(before, start, inverse, timing, MsbBits(value, top, k), Bit(value, top - k));
        MsbBitsSnoc(value, top, k);
        MakeLogic(Bit(value, top - k));
      }
    }

    /** The body of `build_frame` in the families that send one head, two LSB-first fields and an end. */
    method WriteLsbFrame(address: U32, addressBits: nat, command: U32, commandBits: nat)
      requires addressBits + commandBits + 3 <= buffer.Length
      modifies this`cursor, buffer
      ensures cursor == addressBits + commandBits + 3
      ensures buffer[..] == Overwrite(old(buffer[..]), 0, LsbFrame(inverse, timing, address, addressBits, command, commandBits))
    {
      ghost var before := buffer[..];
      MakeHead();
      ghost var s1 := buffer[..];
      EmitLsb(address, addressBits);
      ghost var s2 := buffer[..];
      EmitLsb(command, commandBits);
      ghost var s3 := buffer[..];
      MakeEnd();
      FourRuns(before, [Mark(inverse, timing.lead)], LogicItems(inverse, timing, LsbBits(address, addressBits)),
        LogicItems(inverse, timing, LsbBits(command, commandBits)), EndItems(inverse, timing), s1, s2, s3, buffer[..]);
      assert LsbFrame(inverse, timing, address, addressBits, command, commandBits) ==
        TwoFieldFrame(inverse, timing, LsbBits(address, addressBits), LsbBits(command, commandBits));
    }

    /** The body of `build_frame` in the families that send one head, two MSB-first fields and an end. */
    method WriteMsbFrame(x: U32, xTop: nat, xBits: nat, y: U32, yTop: nat, yBits: nat)
      requires xBits <= xTop + 1 && yBits <= yTop + 1
      requires xBits + yBits + 3 <= buffer.Length
      modifies this`cursor, buffer
      ensures cursor == xBits + yBits + 3
      ensures buffer[..] == Overwrite(old(buffer[..]), 0, MsbFrame(inverse, timing, x, xTop, xBits, y, yTop, yBits))
    {
      ghost var before := buffer[..];
      MakeHead();
      ghost var s1 := buffer[..];
      EmitMsb(x, xTop, xBits);
      ghost var s2 := buffer[..];
      EmitMsb(y, yTop, yBits);
      ghost var s3 := buffer[..];
      MakeEnd();
      FourRuns(before, [Mark(inverse, timing.lead)], LogicItems(inverse, timing, MsbBits(x, xTop, xBits)),
        LogicItems(inverse, timing, MsbBits(y, yTop, yBits)), EndItems(inverse, timing), s1, s2, s3, buffer[..]);
      assert MsbFrame(inverse, timing, x, xTop, xBits, y, yTop, yBits) ==
        TwoFieldFrame(inverse, timing, MsbBits(x, xTop, xBits), MsbBits(y, yTop, yBits));
    }

    /** `build_repeat_frame` in the families whose repeat frame ends with `make_end`. */
    method BuildRepeatFrame() returns (status: Status)
      requires 3 <= buffer.Length
      modifies this`cursor, buffer
      ensures status == Ok && cursor == 3
      ensures buffer[..] == Overwrite(old(buffer[..]), 0, RepeatFrame(inverse, timing))
    {
      cursor := 0;
      buffer[cursor] := Mark(inverse, timing.repeat);
      cursor := cursor + 1;
      MakeEnd();
      OverwriteTwice(old(buffer[..]), 0, [Mark(inverse, timing.repeat)], EndItems(inverse, timing));
      status := Ok;
    }

    /**
     * `get_result`: hands out the buffer and the number of records written;
     * either out-pointer being null is rejected.
     */
    method GetResult(resultPresent: bool, lengthPresent: bool) returns (status: Status, length: nat)
      ensures status == Ok <==> resultPresent && lengthPresent
      ensures status != Ok ==> status == InvalidArg
      ensures status == Ok ==> length == cursor
    {
      if !(resultPresent && lengthPresent) {
        return InvalidArg, 0;
      }
      return Ok, cursor;
    }
  }

  /**
   * `ir_builder_rmt_new_*`: a zero buffer size is refused with no builder
   * (the C returns NULL); any other size yields a fresh builder.
   */
  method NewBuilder(bufferSize: nat, flags: U32, masks: FlagMasks, timing: Timing, repeatPeriodMs: nat)
    returns (r: Option<Builder>)
    ensures r.None? <==> bufferSize == 0
    ensures r.Some? ==> fresh(r.value) && fresh(r.value.buffer) && r.value.buffer.Length == bufferSize
    ensures r.Some? ==> forall k :: 0 <= k < bufferSize ==> r.value.buffer[k] == ZeroItem
    ensures r.Some? ==> r.value.cursor == 0 && r.value.flags == flags && r.value.protoExt == masks.protoExt
    ensures r.Some? ==> r.value.inverse == (And(flags, masks.inverse) != 0)
    ensures r.Some? ==> r.value.timing == timing && r.value.repeatPeriodMs == repeatPeriodMs
  {
    if bufferSize == 0 {
      return None;
    }
    var b := new Builder(bufferSize, flags, masks, timing, repeatPeriodMs);
    return Some(b);
  }

  /** The record `make_spacegap` leaves at the cursor, given what was there. */
  function SpacegapItem(inverse: bool, t: Timing, previous: Item): (r: Item)
    ensures r.level0 == previous.level0 && r.duration0 == previous.duration0
    ensures r.level1 == inverse && r.duration1 == t.gap.low
  {
    previous.(level1 := inverse, duration1 := t.gap.low)
  }
}
