/*
 * The microsecond templates this model takes from the shared timing
 * header: NEC, Samsung, LGAC and Sony.  The header's RC5 pulse constant and
 * its commented-out Gree block are not modelled (see the README's "Left
 * out" section).  With the RMT counter at 1 MHz a tick is a microsecond, so
 * these are also the tick values the builders and parsers work with.
 * Template fields a protocol does not define are 0; the ending code's space
 * is always `EndingLowTicks`.  The other families take their templates as
 * parameters.
 */
module IrTimings {
  import opened IrBits
  import opened IrCommon
  import opened IrParser

  const NecTiming := Timing(
    lead := Pulse(9000, 4500),
    zero := Pulse(560, 560),
    one := Pulse(560, 1690),
    repeat := Pulse(9000, 2250),
    endHigh := 560,
    message := Pulse(0, 0),
    newMessageLow := 0,
    gap := Pulse(0, 0))

  const SamsungTiming := Timing(
    lead := Pulse(4500, 4500),
    zero := Pulse(560, 560),
    one := Pulse(560, 1690),
    repeat := Pulse(4500, 2250),
    endHigh := 560,
    message := Pulse(0, 0),
    newMessageLow := 0,
    gap := Pulse(0, 0))

  const LgacTiming := Timing(
    lead := Pulse(9000, 4500),
    zero := Pulse(560, 560),
    one := Pulse(560, 1690),
    repeat := Pulse(9000, 2250),
    endHigh := 560,
    message := Pulse(0, 0),
    newMessageLow := 0,
    gap := Pulse(0, 0))

  /** Sony defines no ending code; its `endHigh` is 0 here. */
  const SonyTiming := Timing(
    lead := Pulse(2400, 600),
    zero := Pulse(600, 600),
    one := Pulse(1200, 600),
    repeat := Pulse(2400, 600),
    endHigh := 0,
    message := Pulse(0, 0),
    newMessageLow := 0,
    gap := Pulse(0, 0))

  /** LGAC uses the NEC templates field for field. */
  lemma LgacIsNec()
    ensures LgacTiming == NecTiming
  {
  }

  /** Samsung's logic 0 and logic 1 share the mark and differ only in the space. */
  lemma SamsungLogicBySpace()
    ensures SamsungTiming.zero.high == SamsungTiming.one.high
    ensures SamsungTiming.zero.low < SamsungTiming.one.low
  {
  }

  /** Sony's logic 0 and logic 1 share the space and differ only in the mark. */
  lemma SonyLogicByMark()
    ensures SonyTiming.zero.low == SonyTiming.one.low
    ensures SonyTiming.zero.high < SonyTiming.one.high
  {
  }

  /** The NEC and LGAC templates read back as written exactly for margins of 1 to 560 ticks. */
  lemma NecTolerance(margin: U32)
    ensures Tolerates(NecTiming, margin) <==> 0 < margin <= 560
  {
  }

  /** The Samsung templates read back as written exactly for margins of 1 to 560 ticks. */
  lemma SamsungTolerance(margin: U32)
    ensures Tolerates(SamsungTiming, margin) <==> 0 < margin <= 560
  {
  }

  /** The Sony templates read back as written exactly for margins of 1 to 600 ticks. */
  lemma SonyTolerance(margin: U32)
    ensures Tolerates(SonyTiming, margin) <==> 0 < margin <= 600
  {
  }

  /**
   * Samsung's repeat code (4500/2250) and leading code (4500/4500) differ in
   * the space: under any margin both fit, a received repeat mark is not
   * taken for a leading code.
   */
  lemma SamsungRepeatNotLead(cfg: RxConfig)
    requires cfg.timing == SamsungTiming && 0 < cfg.margin <= 2250
    ensures Matches(cfg, Flip(Mark(cfg.inverse, SamsungTiming.repeat)), SamsungTiming.repeat)
    ensures !Matches(cfg, Flip(Mark(cfg.inverse, SamsungTiming.repeat)), SamsungTiming.lead)
  {
    ReceivedMarkMatches(cfg, SamsungTiming.repeat);
    ReceivedMarkMismatches(cfg, SamsungTiming.lead, SamsungTiming.repeat);
  }

  /**
   * Sony's repeat code equals its leading code, so a record matches one
   * exactly when it matches the other: only the frame length tells the two
   * frames apart.
   */
  lemma SonyRepeatIsLead(cfg: RxConfig, item: Item)
    requires cfg.timing == SonyTiming
    ensures SonyTiming.repeat == SonyTiming.lead
    ensures Matches(cfg, item, cfg.timing.repeat) <==> Matches(cfg, item, cfg.timing.lead)
  {
  }
}
