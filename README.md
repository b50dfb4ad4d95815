# Infrared protocol builders and parsers

This project models the `infrared_tools` component of an ESP32 infrared
remote-control application. For eleven protocol families (Airton, DISH,
Gree, JVC, LEGO, LG air conditioners, Panasonic, Samsung, Sharp, Sony
SIRC, Toshiba air conditioners), a **builder** turns an address and a
command into RMT records. An RMT record (`rmt_item32_t`) is a level and a
15-bit tick count for the mark, then the same for the space. A **parser**
turns received records back into an address, a command and a repeat flag.

Modules:

- `IrBits` models `uint32_t` values as naturals below 2^32. It defines
  their bits, `|`, `&` and `^`, and the bit sequences the loops send least
  or most significant bit first.
- `IrCommon` holds records, timing templates, frame layouts and the
  `check_in_range` comparison. `Received` models reception: the receiver
  reports the opposite levels to those the transmitter drove.
- `IrBuilder` models the builder object as a class.
  - Its fields are the record buffer (an array) and the cursor.
  - Its methods are the shared `make_*` steps and the bit loops.
- `IrParser` models the parser object as a class.
  - Its fields are the received buffer, the cursor, the repeat flag and the
    cached last code.
  - Its methods are `input`, `parse_head`, `parse_logic` and the read loops.
- One module per family holds that family's `build_frame` and
  `get_scan_code`. Each is specified by a frame function on the builder
  side and a decoding function on the parser side.
- `IrTimings` holds the microsecond constants of the shared timing header.

Each builder method is proved to write exactly its frame function's records
over the old buffer contents. Each parser method is proved to return
exactly its decoding function's value. Round-trip lemmas then relate the
two: they say what `get_scan_code` reports for the records `build_frame`
sent, once the receiver has flipped the levels. The hypothesis is a margin
that every template of the family tolerates.

Several round trips are not identities, because the code is not symmetric:

- LG sends 15 bits per field while its parser reads 16. Its 32 data records are a length the parser's `input` rejects.
- Sharp's parser compares with a value its builder never produces.
- Toshiba's parser reads its first copy twice. When the message space does not match, it compares the first copy with zeros, so a frame whose first-copy fields all read 0 is accepted without one.
- Sony's repeat frame has a length no parser accepts.

These behaviours are stated as lemmas about the code as written.

Ticks equal microseconds, because the RMT counter runs at 1 MHz. Timing
templates are parameters (`Timing`) with the header's values in
`IrTimings`. The build-time protocol choices are parameters too: the Sony
width as `Variant`, the Toshiba frame length as `wide`.

## Model

| member | source | states |
|---|---|---|
| IrBits.LsbRoundTrip | components/infrared_tools/src/ir_parser_rmt_samsung.c:152-161 | Accumulating `logic << i` over the bits a builder sends least significant first recovers the value modulo 2^n |
| IrBits.MsbRoundTrip | components/infrared_tools/src/ir_parser_rmt_lg.c:187-196 | Accumulating `logic << i` for i from top down over n bits sent most significant first recovers bits top..top-n+1 of the value, the lower bits being zero |
| IrBits.XorBit | components/infrared_tools/src/ir_builder_rmt_sharp.c:123 | Bit i of `x ^ y` is the exclusive or of the operands' bits |
| IrBits.XorAllOnes | components/infrared_tools/src/ir_builder_rmt_sharp.c:123 | `x ^ (2^n - 1)` keeps the bits above n and replaces the low n bits by their complement |
| IrBits.AllOnesBit | components/infrared_tools/src/ir_parser_rmt_sharp.c:193 | `2^n - 1` (such as 0x3FF) has exactly bits 0..n-1 set |
| IrBits.FromLsbAllOnes | components/infrared_tools/src/ir_parser_rmt_sharp.c:165-193 | A least-significant-first accumulation equals `2^n - 1` exactly when every bit read was 1 |
| IrCommon.LogicItems | components/infrared_tools/src/ir_builder_rmt_samsung.c:112-117 | One logic record per bit, the logic 1 template for a 1 and the logic 0 template for a 0 |
| IrCommon.TwoFieldFrame | components/infrared_tools/src/ir_builder_rmt_samsung.c:110-126 | A leading code, both fields, the ending code and the terminator; the last record is the zero record |
| IrCommon.LsbFrame | components/infrared_tools/src/ir_builder_rmt_samsung.c:98-130 | The LSB-first `build_frame` layout: one record per address and command bit plus three, the leading code first, then the ending code and the zero terminator |
| IrCommon.MsbFrame | components/infrared_tools/src/ir_builder_rmt_lego.c:111-136 | The MSB-first `build_frame` layout: one record per sent bit plus three, the leading code first, then the ending code and the zero terminator |
| IrCommon.RepeatFrame | components/infrared_tools/src/ir_builder_rmt_samsung.c:132-143 | `build_repeat_frame`: three records, the repeat mark first and the zero terminator last |
| IrCommon.Received | components/infrared_tools/src/ir_parser_rmt_samsung.c:55-64 | Reception flips both levels of every record and keeps its durations, the reading the parsers' `level0 == inverse` test assumes |
| IrCommon.Wrap | components/infrared_tools/src/ir_parser_rmt_samsung.c:50-53 | The `uint32_t` sum or difference of the bounds is the true value reduced modulo 2^32 |
| IrCommon.CheckInRange | components/infrared_tools/src/ir_parser_rmt_samsung.c:50-53 | `check_in_range` with `uint32_t` bounds: a zero margin accepts nothing, and for a positive margin that does not wrap the target itself is in range |
| IrCommon.CheckInRangeInterval | components/infrared_tools/src/ir_parser_rmt_samsung.c:50-53 | Without wrap-around, `check_in_range` accepts exactly the open interval (target - margin, target + margin) |
| IrCommon.CheckInRangeWraps | components/infrared_tools/src/ir_parser_rmt_samsung.c:50-53 | A margin larger than the target makes `target - margin` wrap, and then no duration is in range |
| IrCommon.ValidationActiveIff | components/infrared_tools/src/ir_builder_rmt_samsung.c:102 | `!flags & IR_TOOLS_FLAGS_PROTO_EXT` is non-zero exactly when no flag is set and the mask has bit 0 |
| IrBuilder.Builder.constructor | components/infrared_tools/src/ir_builder_rmt_samsung.c:164-206 | A zeroed buffer of the configured size, cursor 0, the inverse flag taken from the flags, the timing templates and the repeat period stored |
| IrBuilder.NewBuilder | components/infrared_tools/src/ir_builder_rmt_samsung.c:164-206 | No builder exactly when the buffer size is zero; otherwise a fresh builder with a zeroed buffer of that size, cursor 0, the inverse flag, the timing templates and the repeat period |
| IrBuilder.Builder.MakeHead | components/infrared_tools/src/ir_builder_rmt_samsung.c:51-61 | Resets the cursor, writes the leading-code record at 0 and leaves the cursor at 1; the rest of the buffer is unchanged |
| IrBuilder.Builder.AppendHead | components/infrared_tools/src/ir_builder_rmt_toshibaAC.c:45-55 | Writes a leading-code record at the cursor without resetting it, and advances the cursor by one |
| IrBuilder.Builder.MakeLogic0 | components/infrared_tools/src/ir_builder_rmt_samsung.c:63-72 | Writes the logic 0 record at the cursor and advances it by one |
| IrBuilder.Builder.MakeLogic1 | components/infrared_tools/src/ir_builder_rmt_samsung.c:74-83 | Writes the logic 1 record at the cursor and advances it by one |
| IrBuilder.Builder.MakeEnd | components/infrared_tools/src/ir_builder_rmt_samsung.c:85-96 | Writes the ending code and the zero terminator and advances the cursor by two |
| IrBuilder.Builder.MakeMessageSpace | components/infrared_tools/src/ir_builder_rmt_gree.c:113-124 | Writes the message-space record at the cursor and advances it by one |
| IrBuilder.Builder.MakeSpacegap | components/infrared_tools/src/ir_builder_rmt_sharp.c:41-51 | Overwrites only the space half of the record at the cursor with the gap space; its mark half keeps what the buffer held; the cursor advances by one |
| IrBuilder.SpacegapItem | components/infrared_tools/src/ir_builder_rmt_sharp.c:41-51 | The gap record keeps the mark half that was in the buffer and gets the idle level with the gap's low duration as its second half |
| IrBuilder.Builder.MakeLogic | components/infrared_tools/src/ir_builder_rmt_samsung.c:113-116 | The bit loops' body writes the logic 1 record for a set bit and the logic 0 record otherwise, and advances the cursor by one |
| IrBuilder.Builder.EmitLsb | components/infrared_tools/src/ir_builder_rmt_samsung.c:112-117 | The LSB-first bit loop writes the logic records of bits 0..n-1 of the value at the cursor and advances it by n |
| IrBuilder.Builder.EmitMsb | components/infrared_tools/src/ir_builder_rmt_lego.c:118-124 | The MSB-first bit loop writes the logic records of bits top down to top-n+1 at the cursor and advances it by n |
| IrBuilder.Builder.WriteLsbFrame | components/infrared_tools/src/ir_builder_rmt_samsung.c:110-126 | The head, both LSB-first fields and the end make exactly `LsbFrame` over the old buffer |
| IrBuilder.Builder.WriteMsbFrame | components/infrared_tools/src/ir_builder_rmt_lego.c:116-132 | The head, both MSB-first fields and the end make exactly `MsbFrame` over the old buffer |
| IrBuilder.Builder.BuildRepeatFrame | components/infrared_tools/src/ir_builder_rmt_samsung.c:132-143 | A repeat frame is the repeat mark, the ending code and the terminator, and the status is OK |
| IrBuilder.Builder.GetResult | components/infrared_tools/src/ir_builder_rmt_samsung.c:145-155 | OK exactly when both out-pointers are present, and then the length is the cursor; otherwise an invalid-argument error |
| IrParser.Matches | components/infrared_tools/src/ir_parser_rmt_samsung.c:55-64 | The record test of every `parse_*` step: a matched record has a mark half and a space half, so the all-zero terminator never matches, and a zero margin matches nothing |
| IrParser.LogicBit | components/infrared_tools/src/ir_parser_rmt_samsung.c:84-101 | The bit each decoding loop ORs into its accumulator for one record: 1 only for a recognised record; a record matching logic 0 reads 0, and so does an unrecognised record, whose `parse_logic` failure the loops ignore |
| IrParser.ReadBits | components/infrared_tools/src/ir_parser_rmt_samsung.c:84-101 | Each bit read is the logic value of the corresponding record, with an unrecognised record counting as 0 |
| IrParser.LsbValue | components/infrared_tools/src/ir_parser_rmt_samsung.c:152-156 | The accumulated value fits in the number of bits read |
| IrParser.MsbValue | components/infrared_tools/src/ir_parser_rmt_lg.c:187-191 | The accumulated value fits below bit top+1 |
| IrParser.ReceivedMarkMatches | components/infrared_tools/src/ir_parser_rmt_samsung.c:55-64 | A received record of a template that the margin fits matches that template |
| IrParser.ReceivedMarkMismatches | components/infrared_tools/src/ir_parser_rmt_samsung.c:104-113 | A received record of one template does not match a template separated from it by the margin |
| IrParser.ReceivedLogicBit | components/infrared_tools/src/ir_parser_rmt_samsung.c:84-101 | A received logic record is recognised and parses back to the bit that was sent |
| IrParser.RepeatFrameRecognised | components/infrared_tools/src/ir_parser_rmt_samsung.c:104-113 | A received repeat frame begins with a record that `parse_repeat_frame` accepts |
| IrParser.RepeatCode | components/infrared_tools/src/ir_parser_rmt_samsung.c:143-149 | A repeat frame reports the cached address and command with the repeat flag exactly when its first record matches the repeat template |
| IrParser.TwoFieldRoundTrip | components/infrared_tools/src/ir_parser_rmt_samsung.c:151-161 | In a received two-field frame the head matches and both fields read back as the bits sent |
| IrParser.LsbDataCode | components/infrared_tools/src/ir_parser_rmt_samsung.c:150-166 | The data branch shared by the LSB-first decoders: a code exactly when the leading code matches, each field below 2 to the power of its width, no repeat flag |
| IrParser.LsbDecode | components/infrared_tools/src/ir_parser_rmt_samsung.c:151-169 | Records whose head matches and whose fields read as the LSB-first bits of two values decode to those values modulo their widths |
| IrParser.LsbFrameRoundTrip | components/infrared_tools/src/ir_parser_rmt_samsung.c:151-169 | Decoding a received `LsbFrame` returns the address and command modulo their widths, not a repeat |
| IrParser.MsbDecode | components/infrared_tools/src/ir_parser_rmt_lg.c:186-196 | Fields read as MSB-first bits decode to the sent bits of each value |
| IrParser.MsbFrameRoundTrip | components/infrared_tools/src/ir_parser_rmt_lego.c:144-163 | Decoding a received `MsbFrame` returns the sent bits of both values |
| IrParser.Parser.constructor | components/infrared_tools/src/ir_parser_rmt_samsung.c:182-214 | The configuration (templates, margin, inverse flag), the frame lengths, an empty buffer and a zeroed cursor, repeat flag and cache |
| IrParser.Parser.Input | components/infrared_tools/src/ir_parser_rmt_samsung.c:116-133 | A null buffer is an invalid argument and changes nothing; otherwise the buffer is stored, and the length selects a data frame, a repeat frame or a failure |
| IrParser.Parser.ParseHead | components/infrared_tools/src/ir_parser_rmt_samsung.c:55-64 | Rewinds to record 0, reports whether it matches the leading code, and leaves the cursor at 1 |
| IrParser.Parser.ParseRepeatFrame | components/infrared_tools/src/ir_parser_rmt_samsung.c:104-113 | Rewinds to record 0, reports whether it matches the repeat code, and leaves the cursor at 1 |
| IrParser.Parser.ParseRepeat | components/infrared_tools/src/ir_parser_rmt_samsung.c:143-149 | The repeat branch of `get_scan_code` yields `RepeatCode` and moves only the cursor |
| IrParser.Parser.ParseLogic | components/infrared_tools/src/ir_parser_rmt_samsung.c:66-101 | OK exactly when the record matches the logic 0 or logic 1 template, with the value 0 when it matches logic 0; the cursor advances either way |
| IrParser.Parser.ReadLsbFrame | components/infrared_tools/src/ir_parser_rmt_samsung.c:151-169 | The data branch of `get_scan_code` yields `LsbDataCode` and leaves the cursor after the fields, or at 1 when the head fails |
| IrParser.Parser.ParseMessage | components/infrared_tools/src/ir_parser_rmt_gree.c:79-88 | Reports whether the record at the cursor matches the message template and advances the cursor |
| IrParser.Parser.ParseMessageSpace | components/infrared_tools/src/ir_parser_rmt_toshibaAC.c:90-99 | Reports whether the record matches the message mark with either the message space or the new-message space, and advances the cursor |
| IrParser.MessageSpace | components/infrared_tools/src/ir_parser_rmt_toshibaAC.c:90-99 | The record `parse_message_space` accepts: never the zero terminator; it takes the message template with either the message low duration or the new-message low duration |
| IrParser.Parser.ReadLsb | components/infrared_tools/src/ir_parser_rmt_samsung.c:152-156 | The LSB-first read loop returns `LsbValue` of the n records at the cursor and advances it by n |
| IrParser.Parser.ReadMsb | components/infrared_tools/src/ir_parser_rmt_lg.c:187-191 | The MSB-first read loop returns `MsbValue` of the n records at the cursor and advances it by n |
| IrTimings.LgacIsNec | components/infrared_tools/include/ir_timings.h:25-68 | The LGAC templates equal the NEC templates field for field |
| IrTimings.SamsungLogicBySpace | components/infrared_tools/include/ir_timings.h:45-54 | Samsung's logic 0 and logic 1 share the mark and differ in the space |
| IrTimings.SonyLogicByMark | components/infrared_tools/include/ir_timings.h:74-82 | Sony's logic 0 and logic 1 share the space and differ in the mark |
| IrTimings.NecTolerance | components/infrared_tools/include/ir_timings.h:25-33 | Every NEC (and LGAC) record reads back as written exactly for margins from 1 to 560 ticks |
| IrTimings.SamsungTolerance | components/infrared_tools/include/ir_timings.h:45-53 | Every Samsung record reads back as written exactly for margins from 1 to 560 ticks |
| IrTimings.SonyTolerance | components/infrared_tools/include/ir_timings.h:74-81 | Every Sony record reads back as written exactly for margins from 1 to 600 ticks |
| IrTimings.SamsungRepeatNotLead | components/infrared_tools/include/ir_timings.h:45-53 | For margins up to 2250, a received Samsung repeat mark matches the repeat template and not the leading code |
| IrTimings.SonyRepeatIsLead | components/infrared_tools/include/ir_timings.h:74-81 | Sony's repeat template is its leading template, so only the frame length tells the two frames apart |
| Airton.Frame | components/infrared_tools/src/ir_builder_rmt_airton.c:84-107 | 58 data records and a zero terminator |
| Airton.BuildFrame | components/infrared_tools/src/ir_builder_rmt_airton.c:84-107 | Writes exactly `Frame` at 0 over the old buffer, leaves the cursor after the terminator, and returns OK |
| Airton.New | components/infrared_tools/src/ir_builder_rmt_airton.c:128-166 | No builder exactly when the buffer size is zero; otherwise a fresh zeroed builder with the flags, the timing templates and the repeat period `repeat_period_ms` (never set, so 0 ms) |
| Airton.GetScanCode | components/infrared_tools/src/ir_parser_rmt_airton.c:126-155 | OK exactly when the head matches; the code is the 28-bit LSB-first address and command; a decoded code is cached, and nothing is cached otherwise |
| Airton.RoundTrip | components/infrared_tools/src/ir_parser_rmt_airton.c:126-155 | A received Airton frame decodes to the address and command modulo 2^28 |
| Dish.Frame | components/infrared_tools/src/ir_builder_rmt_dish.c:85-116 | 18 data records and a zero terminator |
| Dish.BuildFrame | components/infrared_tools/src/ir_builder_rmt_dish.c:85-116 | Writes exactly `Frame` over the old buffer and returns OK |
| Dish.New | components/infrared_tools/src/ir_builder_rmt_dish.c:150-192 | No builder exactly when the buffer size is zero; otherwise a fresh zeroed builder with the flags, the timing templates and the repeat period `repeat_period_ms` (110 ms) |
| Dish.GetScanCode | components/infrared_tools/src/ir_parser_rmt_dish.c:126-165 | A missing out-pointer is an invalid argument; otherwise OK exactly when the head matches, with the 8-bit LSB-first fields; nothing is cached |
| Dish.RoundTrip | components/infrared_tools/src/ir_parser_rmt_dish.c:126-165 | A received DISH frame decodes to the address and command modulo 256 |
| Jvc.Frame | components/infrared_tools/src/ir_builder_rmt_jvc.c:92-117 | 18 data records and a zero terminator |
| Jvc.BuildFrame | components/infrared_tools/src/ir_builder_rmt_jvc.c:92-117 | Writes exactly `Frame` over the old buffer and returns OK |
| Jvc.New | components/infrared_tools/src/ir_builder_rmt_jvc.c:152-194 | No builder exactly when the buffer size is zero; otherwise a fresh zeroed builder with the flags, the timing templates and the repeat period `repeat_period_ms` (60 ms) |
| Jvc.GetScanCode | components/infrared_tools/src/ir_parser_rmt_jvc.c:133-171 | A missing out-pointer is an invalid argument; otherwise OK exactly when the head matches, with the 8-bit fields, and a decoded code is cached |
| Jvc.RoundTrip | components/infrared_tools/src/ir_parser_rmt_jvc.c:133-171 | A received JVC frame decodes to the address and command modulo 256 |
| Lego.Frame | components/infrared_tools/src/ir_builder_rmt_lego.c:111-136 | The 12-bit command then the 4-bit address, MSB first, 18 data records and a terminator |
| Lego.BuildFrame | components/infrared_tools/src/ir_builder_rmt_lego.c:111-136 | Writes exactly `Frame` over the old buffer and returns OK |
| Lego.New | components/infrared_tools/src/ir_builder_rmt_lego.c:170-212 | No builder exactly when the buffer size is zero; otherwise a fresh zeroed builder with the flags, the timing templates and the repeat period `repeat_period_ms` (commented out, so 0 ms) |
| Lego.DataCode | components/infrared_tools/src/ir_parser_rmt_lego.c:136-171 | A code exactly when the head matches, with an address below 16, a command below 4096 and no repeat flag |
| Lego.GetScanCode | components/infrared_tools/src/ir_parser_rmt_lego.c:136-171 | Returns `DataCode`, OK exactly when there is one, and moves only the cursor |
| Lego.DecodeSent | components/infrared_tools/src/ir_parser_rmt_lego.c:136-171 | Records with a matching head and the sent MSB-first fields decode to the address modulo 16 and the command modulo 4096 |
| Lego.RoundTrip | components/infrared_tools/src/ir_parser_rmt_lego.c:136-171 | A received LEGO frame decodes to the address modulo 16 and the command modulo 4096 |
| Lg.Frame | components/infrared_tools/src/ir_builder_rmt_lg.c:124-160 | The builder sends bits 15..1 of each field: 33 records with the terminator |
| Lg.ParserFrame | components/infrared_tools/src/ir_parser_rmt_lg.c:186-196 | The 16-bit-per-field frame the parser reads: 34 data records and a terminator |
| Lg.BuildFrame | components/infrared_tools/src/ir_builder_rmt_lg.c:124-160 | Fails with an invalid argument and no change exactly when validation is active and the command's bytes differ; otherwise writes `Frame` |
| Lg.New | components/infrared_tools/src/ir_builder_rmt_lg.c:194-236 | No builder exactly when the buffer size is zero; otherwise a fresh zeroed builder with the flags, the timing templates and the repeat period `repeat_period_ms` (110 ms) |
| Lg.DataCode | components/infrared_tools/src/ir_parser_rmt_lg.c:186-204 | A code exactly when the head matches, with 16-bit fields and no repeat flag |
| Lg.GetScanCode | components/infrared_tools/src/ir_parser_rmt_lg.c:147-207 | A missing out-pointer is an invalid argument; otherwise returns `DataCode` and caches a decoded code |
| Lg.HigherBitsKept | components/infrared_tools/src/ir_builder_rmt_lg.c:142-155 | Clearing bit 0 leaves every higher bit unchanged |
| Lg.BitZeroDropped | components/infrared_tools/src/ir_builder_rmt_lg.c:142-155 | The built frame does not depend on bit 0 of the address or the command |
| Lg.BuiltFrameNotAccepted | components/infrared_tools/src/ir_parser_rmt_lg.c:128-145 | A received built frame holds 32 records before its terminator, neither the data length (34) nor the repeat length (2) that `input` accepts |
| Lg.DecodeSent | components/infrared_tools/src/ir_parser_rmt_lg.c:186-204 | Records with a matching head and the sent 16-bit MSB-first fields decode to both values modulo 2^16 |
| Lg.ParserFrameRoundTrip | components/infrared_tools/src/ir_parser_rmt_lg.c:186-204 | A received 16-bit-per-field frame decodes to the address and command modulo 2^16 |
| Panasonic.Standard | components/infrared_tools/src/ir_builder_rmt_panasonic.c:97-104 | The standard-protocol check looks only at the low 16 bits: in both fields the high byte is the complement of the low byte |
| Panasonic.Frame | components/infrared_tools/src/ir_builder_rmt_panasonic.c:93-125 | The 16-bit address and 32-bit command LSB first, 50 data records and a terminator |
| Panasonic.BuildFrame | components/infrared_tools/src/ir_builder_rmt_panasonic.c:93-125 | Fails with no change exactly when validation is active and a field breaks the standard byte pattern; otherwise writes `Frame` |
| Panasonic.New | components/infrared_tools/src/ir_builder_rmt_panasonic.c:159-201 | No builder exactly when the buffer size is zero; otherwise a fresh zeroed builder with the flags, the timing templates and the repeat period `repeat_period_ms` (110 ms) |
| Panasonic.GetScanCode | components/infrared_tools/src/ir_parser_rmt_panasonic.c:134-172 | The repeat branch yields `RepeatCode`, the data branch `LsbDataCode` and caches it; a missing out-pointer is an invalid argument |
| Panasonic.RoundTrip | components/infrared_tools/src/ir_parser_rmt_panasonic.c:134-172 | A received Panasonic frame decodes to the address modulo 2^16 and the whole command |
| Panasonic.RepeatRoundTrip | components/infrared_tools/src/ir_builder_rmt_panasonic.c:127-138 | A received repeat frame yields the cached code with the repeat flag |
| Samsung.Standard | components/infrared_tools/src/ir_builder_rmt_samsung.c:102-109 | The standard-protocol check looks only at the low 16 bits: the address's high byte equals its low byte, and the command's high byte is the complement of its low byte |
| Samsung.Frame | components/infrared_tools/src/ir_builder_rmt_samsung.c:98-130 | The 16-bit address and command LSB first, 34 data records and a terminator |
| Samsung.BuildFrame | components/infrared_tools/src/ir_builder_rmt_samsung.c:98-130 | Fails with no change exactly when validation is active and the fields break the standard byte pattern; otherwise writes `Frame` |
| Samsung.New | components/infrared_tools/src/ir_builder_rmt_samsung.c:164-206 | No builder exactly when the buffer size is zero; otherwise a fresh zeroed builder with the flags, the timing templates and the repeat period `repeat_period_ms` (110 ms) |
| Samsung.GetScanCode | components/infrared_tools/src/ir_parser_rmt_samsung.c:135-173 | The repeat branch yields `RepeatCode`, the data branch `LsbDataCode` and caches it; a missing out-pointer is an invalid argument |
| Samsung.RoundTrip | components/infrared_tools/src/ir_parser_rmt_samsung.c:135-173 | A received Samsung frame decodes to the address and command modulo 2^16 |
| Samsung.StandardRoundTrip | components/infrared_tools/src/ir_builder_rmt_samsung.c:102-109 | A frame that passes the standard check decodes to fields whose low bytes are the repeated address byte and the complemented command byte |
| Samsung.RepeatRoundTrip | components/infrared_tools/src/ir_builder_rmt_samsung.c:132-143 | A received repeat frame yields the cached code with the repeat flag |
| Sony.Frame | components/infrared_tools/src/ir_builder_rmt_sony.c:88-162 | The head, the 7-bit command and the variant's address bits LSB first, with no ending code and no terminator |
| Sony.RepeatFrame | components/infrared_tools/src/ir_builder_rmt_sony.c:164-175 | A single repeat mark, a length that `input` accepts neither as a repeat frame nor as a data frame |
| Sony.BuildFrame | components/infrared_tools/src/ir_builder_rmt_sony.c:88-162 | Writes exactly `Frame` for the configured variant and returns OK |
| Sony.BuildRepeatFrame | components/infrared_tools/src/ir_builder_rmt_sony.c:164-175 | Writes exactly `RepeatFrame` and returns OK |
| Sony.New | components/infrared_tools/src/ir_builder_rmt_sony.c:196-238 | No builder exactly when the buffer size is zero; otherwise a fresh zeroed builder with the flags, the timing templates and the repeat period `repeat_period_ms` (45 ms) |
| Sony.DataCode | components/infrared_tools/src/ir_parser_rmt_sony.c:144-206 | A code exactly when the head matches, with the address fitting the variant's width, a 7-bit command and no repeat flag |
| Sony.GetScanCode | components/infrared_tools/src/ir_parser_rmt_sony.c:144-206 | The repeat branch yields `RepeatCode`, the data branch `DataCode` and caches it; a missing out-pointer is an invalid argument |
| Sony.Layout | components/infrared_tools/src/ir_builder_rmt_sony.c:88-162 | In a received Sony frame the head matches and the command and address read back as sent |
| Sony.DecodeSent | components/infrared_tools/src/ir_parser_rmt_sony.c:144-206 | Records with a matching head and the sent fields decode to both values modulo their widths |
| Sony.RoundTrip | components/infrared_tools/src/ir_parser_rmt_sony.c:144-206 | A received Sony frame decodes to the command modulo 2^7 and the address modulo 2^5, 2^8 or 2^13 |
| Gree.Frame | components/infrared_tools/src/ir_builder_rmt_gree.c:142-184 | The head, the 32-bit address, the 0-1-0 footer, the message space, the 32-bit command and the end: 70 data records and a terminator |
| Gree.MakeFooter | components/infrared_tools/src/ir_builder_rmt_gree.c:102-111 | Writes the footer records 0, 1, 0 at the cursor and advances it by three |
| Gree.FooterWritten | components/infrared_tools/src/ir_builder_rmt_gree.c:102-111 | Writing logic 0, logic 1 and logic 0 one after another is writing the footer |
| Gree.BuildFrame | components/infrared_tools/src/ir_builder_rmt_gree.c:142-184 | Writes exactly `Frame` over the old buffer and returns OK |
| Gree.New | components/infrared_tools/src/ir_builder_rmt_gree.c:221-265 | No builder exactly when the buffer size is zero; otherwise a fresh zeroed builder with the flags, the timing templates and the repeat period `repeat_period_ms` (commented out, so 0 ms) |
| Gree.WriteCommand | components/infrared_tools/src/ir_builder_rmt_gree.c:170-180 | Writes the message space, the 32 command records and the ending code at the cursor |
| Gree.TailWritten | components/infrared_tools/src/ir_builder_rmt_gree.c:142-184 | A head written at 0 followed by a tail written right after it is their concatenation written at 0 |
| Gree.DataCode | components/infrared_tools/src/ir_parser_rmt_gree.c:143-190 | A code exactly when the head matches, never a repeat; the footer and message space do not affect it |
| Gree.GetScanCode | components/infrared_tools/src/ir_parser_rmt_gree.c:143-190 | A missing out-pointer is an invalid argument; otherwise returns `DataCode` and moves only the cursor |
| Gree.AddressCarried | components/infrared_tools/src/ir_builder_rmt_gree.c:158-167 | A received Gree frame has a matching head and carries the address bits in records 1-32 |
| Gree.FooterCarried | components/infrared_tools/src/ir_builder_rmt_gree.c:102-111 | A received Gree frame carries the footer bits in records 33-35 |
| Gree.CommandCarried | components/infrared_tools/src/ir_builder_rmt_gree.c:170-180 | A received Gree frame carries the command bits in records 37-68 |
| Gree.FooterDecodes | components/infrared_tools/src/ir_parser_rmt_gree.c:160-164 | The footer bits 0, 1, 0 read LSB first accumulate to 2 |
| Gree.FooterAndMessageRead | components/infrared_tools/src/ir_parser_rmt_gree.c:160-167 | The footer loop reads 2 from a received frame and the message space matches |
| Gree.DecodeSent | components/infrared_tools/src/ir_parser_rmt_gree.c:143-190 | Records with a matching head and the sent fields decode to the whole address and command |
| Gree.RoundTrip | components/infrared_tools/src/ir_parser_rmt_gree.c:143-190 | Every 32-bit address and command come back unchanged |
| Sharp.TrailerBits | components/infrared_tools/src/ir_builder_rmt_sharp.c:111-118 | The expansion and check bits: 1, 0 in the first pass and 0, 1 in the second |
| Sharp.CommandRecordsBits | components/infrared_tools/src/ir_builder_rmt_sharp.c:104-118 | The ten bits after the address: eight command bits and the trailer |
| Sharp.Pass | components/infrared_tools/src/ir_builder_rmt_sharp.c:96-122 | One pass: 5 address bits, the command records, the ending code and terminator, and the gap record |
| Sharp.Frame | components/infrared_tools/src/ir_builder_rmt_sharp.c:88-129 | Two passes, the second with the low byte of the command inverted; both hold a terminator at record 16 of the pass |
| Sharp.Sent | components/infrared_tools/src/ir_builder_rmt_sharp.c:88-129 | The first j passes of the frame, 18 records each |
| Sharp.WriteTrailer | components/infrared_tools/src/ir_builder_rmt_sharp.c:111-118 | Writes the trailer records of pass j at the cursor and advances it by two |
| Sharp.TrailerWritten | components/infrared_tools/src/ir_builder_rmt_sharp.c:111-118 | The two separately written trailer records are the trailer |
| Sharp.WriteBits | components/infrared_tools/src/ir_builder_rmt_sharp.c:96-118 | Writes the address bits and the command records of pass j and advances the cursor by 15 |
| Sharp.BitsWritten | components/infrared_tools/src/ir_builder_rmt_sharp.c:96-118 | Fields written one after another are their concatenation |
| Sharp.WritePass | components/infrared_tools/src/ir_builder_rmt_sharp.c:96-122 | Writes exactly `Pass` at the cursor and advances it by 18 |
| Sharp.SentStep | components/infrared_tools/src/ir_builder_rmt_sharp.c:95-125 | Writing pass j after the first j passes gives the first j+1 passes |
| Sharp.BuildFrame | components/infrared_tools/src/ir_builder_rmt_sharp.c:88-129 | Writes exactly `Frame` over the old buffer, leaves the cursor at 36, and returns OK |
| Sharp.New | components/infrared_tools/src/ir_builder_rmt_sharp.c:163-205 | No builder exactly when the buffer size is zero; otherwise a fresh zeroed builder with the flags, the timing templates and the repeat period `repeat_period_ms` (110 ms) |
| Sharp.WriteNextPass | components/infrared_tools/src/ir_builder_rmt_sharp.c:95-125 | One iteration of the pass loop extends the written prefix by one pass |
| Sharp.DataCode | components/infrared_tools/src/ir_parser_rmt_sharp.c:160-196 | A code has a 5-bit address and the command 0x3FF, never a repeat |
| Sharp.GetScanCode | components/infrared_tools/src/ir_parser_rmt_sharp.c:143-208 | A missing out-pointer is an invalid argument; otherwise returns `DataCode`, OK exactly when there is one (otherwise an invalid-argument error), and caches a decoded code |
| Sharp.InvertLowByte | components/infrared_tools/src/ir_builder_rmt_sharp.c:123 | `command ^= 0xFF`: the low byte complemented, every bit above it kept |
| Sharp.InvertLowByteIsXor | components/infrared_tools/src/ir_builder_rmt_sharp.c:123 | The inversion the builder applies is `command ^ 0xFF` |
| Sharp.SecondPassInverted | components/infrared_tools/src/ir_builder_rmt_sharp.c:104-123 | The second pass's command bits are the complement of the first pass's |
| Sharp.AcceptedIff | components/infrared_tools/src/ir_parser_rmt_sharp.c:165-196 | A frame is accepted exactly when the ten records after the address all read as logic 1 |
| Sharp.PassCarries | components/infrared_tools/src/ir_builder_rmt_sharp.c:96-122 | The received records of a pass carry the address bits at 0 and the command records at 5 |
| Sharp.FirstPassRead | components/infrared_tools/src/ir_parser_rmt_sharp.c:160-169 | Reading a received built frame gives back the address and the first pass's command records |
| Sharp.BuiltFrameRejected | components/infrared_tools/src/ir_parser_rmt_sharp.c:193-196 | No frame the builder sends is accepted: its first pass's trailer has a 0 bit |
| Toshiba.Bits | components/infrared_tools/src/ir_builder_rmt_toshibaAC.c:113-126 | Bits 23..0 of the address then of the command: 48 bits |
| Toshiba.AcBits | components/infrared_tools/src/ir_builder_rmt_toshibaAC.c:156-177 | Bits 31..0 of the address and the command, then bits 7..0 of the checksum: 72 bits |
| Toshiba.Copy | components/infrared_tools/src/ir_builder_rmt_toshibaAC.c:111-126 | A leading code and one logic record per bit |
| Toshiba.Frame | components/infrared_tools/src/ir_builder_rmt_toshibaAC.c:107-145 | The first copy, the message space, the second copy and the end, terminated by the zero record |
| Toshiba.WriteCopy | components/infrared_tools/src/ir_builder_rmt_toshibaAC.c:111-126 | Writes one 24/24-bit copy at the cursor and advances it by 49 |
| Toshiba.WriteAcCopy | components/infrared_tools/src/ir_builder_rmt_toshibaAC.c:154-177 | Writes one 32/32/8-bit copy at the cursor and advances it by 73 |
| Toshiba.CopyWritten | components/infrared_tools/src/ir_builder_rmt_toshibaAC.c:111-126 | A head and two fields written one after another are one copy |
| Toshiba.CopyExtended | components/infrared_tools/src/ir_builder_rmt_toshibaAC.c:154-177 | A copy followed by a further field is the copy of the joined bits |
| Toshiba.BuildFrame | components/infrared_tools/src/ir_builder_rmt_toshibaAC.c:107-145 | Writes exactly `Frame` with the same copy twice, leaves the cursor at 101, and returns OK |
| Toshiba.BuildAcFrame | components/infrared_tools/src/ir_builder_rmt_toshibaAC.c:147-205 | Writes exactly `Frame` with the two 72-bit copies given, leaves the cursor at 149, and returns OK |
| Toshiba.New | components/infrared_tools/src/ir_builder_rmt_toshibaAC.c:226-281 | No builder exactly when the buffer size is zero; otherwise a fresh zeroed builder with the flags, the timing templates and the repeat period `repeat_period_ms` (commented out, so 0 ms) |
| Toshiba.DataCode | components/infrared_tools/src/ir_parser_rmt_toshibaAC.c:139-186 | A code needs a matching head, has 24-bit fields and no repeat flag |
| Toshiba.ReadCopy | components/infrared_tools/src/ir_parser_rmt_toshibaAC.c:149-158 | Reads the 24-bit address and command MSB first, from record 1 to record 49 |
| Toshiba.ReadAcCopy | components/infrared_tools/src/ir_parser_rmt_toshibaAC.c:202-216 | Reads the 32-bit address and command and the 8-bit checksum, from record 1 to record 73 |
| Toshiba.GetScanCode | components/infrared_tools/src/ir_parser_rmt_toshibaAC.c:139-186 | Returns `DataCode`, OK exactly when there is one, and caches nothing; the cursor ends at 1, 49 or 50 |
| Toshiba.AcDataCode | components/infrared_tools/src/ir_parser_rmt_toshibaAC.c:188-249 | A code needs a matching head and has an 8-bit checksum |
| Toshiba.GetAcScanCode | components/infrared_tools/src/ir_parser_rmt_toshibaAC.c:188-249 | Returns `AcDataCode`, OK exactly when there is one, and caches the address and command of a decoded code |
| Toshiba.AcceptedIff | components/infrared_tools/src/ir_parser_rmt_toshibaAC.c:148-184 | Accepted exactly when the head matches and either record 49 is a message space or every first-copy field reads 0; the code reported is the first copy's fields |
| Toshiba.AcAcceptedIff | components/infrared_tools/src/ir_parser_rmt_toshibaAC.c:201-246 | Accepted exactly when the head matches and either record 73 is a message space or every first-copy field reads 0; the code reported is the first copy's fields |
| Toshiba.SameBits | components/infrared_tools/src/ir_parser_rmt_toshibaAC.c:161-171 | Bits read from two buffers that agree on a prefix are the same |
| Toshiba.FirstCopyDecides | components/infrared_tools/src/ir_parser_rmt_toshibaAC.c:160-174 | The decoded code depends only on the first 50 records: the second copy is never looked at |
| Toshiba.AcFirstCopyDecides | components/infrared_tools/src/ir_parser_rmt_toshibaAC.c:217-236 | The decoded code depends only on the first 74 records |
| Toshiba.FirstCopyCarried | components/infrared_tools/src/ir_builder_rmt_toshibaAC.c:107-145 | A received frame carries the first copy's bits after its head |
| Toshiba.ReceivedMessageSpace | components/infrared_tools/src/ir_parser_rmt_toshibaAC.c:90-99 | A received message-space record is accepted by `parse_message_space` |
| Toshiba.Layout | components/infrared_tools/src/ir_builder_rmt_toshibaAC.c:107-145 | In a received frame the head, both fields and the message space read back as sent |
| Toshiba.DecodeSent | components/infrared_tools/src/ir_parser_rmt_toshibaAC.c:139-186 | Records with a matching head and message space and the sent fields decode to both values modulo 2^24 |
| Toshiba.RoundTrip | components/infrared_tools/src/ir_parser_rmt_toshibaAC.c:139-186 | A received frame decodes to the address and command modulo 2^24 |
| Toshiba.AcLayout | components/infrared_tools/src/ir_builder_rmt_toshibaAC.c:147-205 | In a received 72-bit frame the head, the three fields and the message space read back as sent |
| Toshiba.AcDecodeSent | components/infrared_tools/src/ir_parser_rmt_toshibaAC.c:188-249 | Records with a matching head and message space and the sent fields decode to the address, the command and the checksum modulo 256 |
| Toshiba.AcRoundTrip | components/infrared_tools/src/ir_parser_rmt_toshibaAC.c:188-249 | A received 72-bit frame decodes to the first copy's values whatever the second copy holds |

## Left out

- Microsecond-to-tick conversion: it uses floating point. The model takes tick counts as inputs and assumes a 1 MHz counter.
- Allocation failure: the `calloc` failure paths of the `ir_builder_rmt_new_*` and `ir_parser_rmt_new_*` functions are not modelled.
  - The constructors' NULL-configuration check is not modelled either. The zero-buffer-size check is, by `IrBuilder.NewBuilder`.
- `repeat_period_ms` is stored in the builder as a value, which each family's `New` sets to its `RepeatPeriodMs`. The application's transmit loop that uses it is not part of this model.
  - Neither are the `del` functions, which only free memory.
- Logging (`ESP_LOGx`) is not modelled.
- The example application (`main/ir_protocols_main.c`, `components/src/remote.c`) is not part of this model.
- Build-time configuration becomes parameters:
  - Sony's `CONFIG_EXAMPLE_IR_PROTOCOL_SONY_*` becomes `Sony.Variant`.
  - Toshiba's frame length becomes `wide`.
  - The Sony sources test these macros with an `#if`/`#elif` chain that is malformed. The model takes the widths the chain evidently intends.
  - A Sony build with none of the three macros defined is not modelled.
- Functions that nothing calls are not modelled: Sharp's `parse_spacegap` and `parse_repeat_frame`, and LG's `parse_repeat_frame`.
- Gree code that is commented out is not modelled: the repeat frame and the protocol check on both sides.
- Gree.GetScanCode: the footer value and the message-space match are computed but not reported, as in the source, and nothing is cached.
- Aliasing between the caller's buffer and the builder's buffer is not modelled. The parser keeps a copy (`seq`) of the records it was given.
- Shifts that are undefined for `int` in C are modelled as the intended unsigned value: `1 << 31` in the bit loops, and `logic_value << 31`.
- Parser preconditions on buffer length:
  - Each parser's `get_scan_code` requires the buffer to hold the records it reads.
  - The Airton, LEGO, LG, DISH, JVC, Sharp and Toshiba parsers have no repeat branch. A frame of repeat length makes them read past the input, so that case is excluded by `requires`.
- Builder capacity: each builder method requires a buffer large enough for its frame. The source sizes the buffer once, from the configuration.
- Received frames are modelled as the flipped records of the built frame, cut to the length `input` is given:
  - The terminator is not part of the received frame.
  - For Sharp, only the first pass up to its terminator is received.
  - Noise and distorted durations are not modelled.
- Sharp.DataCode: the compared inverted command is 0, because the read of the second frame is commented out. This matches the source as written.
- Toshiba.GetScanCode: the 24-bit parser does not cache its code, matching the source.
  - Neither Toshiba parser has a null check or a repeat branch.
- Toshiba.AcDataCode: the repeat flag written through the out-pointer is always false, so `AcCode` does not carry it.
- The RC5 pulse constant and the commented-out Gree timings are not modelled: no builder or parser in the core uses them.
