# libpixyusb C API façade, modelled in Dafny

This project models the C façade of libpixyusb, the host library for the Pixy
(CMUcam5) vision sensor. The façade sits on top of a command interpreter that
talks to the camera over USB. It consists of:

- the error-text table and `pixy_error`, which scans the table up to its
  sentinel row and falls back to `Undefined error: [<code>]`;
- the `pixy_initialized` flag, set by `pixy_init` and guarding `pixy_command`
  and `pixy_close`;
- the bit layouts used to pack device parameters into one 32-bit command
  argument: LED colour, white-balance gains and exposure gain plus
  compensation;
- the per-command API functions. Each one builds one `pixy_command` call.
  The scalar functions return either the negative command result, unchanged,
  or the device's response word. Three functions differ:
  - `pixy_get_firmware_version` returns `PIXY_ERROR_INVALID_PARAMETER` for a
    null pointer without any call, and 0 on success;
  - `pixy_cam_get_exposure_compensation` returns `PIXY_ERROR_INVALID_PARAMETER`
    for a null pointer after its call, and 0 on success;
  - `pixy_cam_get_white_balance_value` returns the scalar result converted to
    `uint32_t`, so a negative code comes back wrapped modulo 2^32.

The interpreter (`pixyinterpreter.hpp` and the code behind it) is not part of
this model. It is an abstract oracle, `Protocol.Oracle`, which maps a `Call`
(procedure name, typed arguments, output-slot kinds) to a `Reply` (C `int`
return code and the values written to the slots). The model assumes one thing
of it: a non-negative return means every requested slot was written, in order,
with a value of the requested kind. This assumption is the `Conforms`
constraint on the oracle type. With it, the API functions never read a local
that the interpreter left unwritten.

Modules:

- `Protocol`: C integer widths, typed argument values, the call/reply shapes
  and the oracle.
- `Decimal`: the `%d` rendering of a code and a reader that inverts it.
- `Errors`: `PIXY_ERROR_TABLE`, `pixy_error`, and a direct case-by-case
  reference description of the table.
- `Packing`: the three packed layouts and their inverses.
- `Lifecycle`: `pixy_init`, `pixy_command`, `pixy_close`, and runs of them.
- `Api`: the per-command functions.

The numeric values of the `PIXY_ERROR_*` constants are defined in `pixy.h`,
which is not part of this model. They are a parameter, `Errors.ErrorCodes`.
Properties that need them to be negative and pairwise distinct say so
(`Errors.Distinct`).

Two facts about the code are easy to miss:

- `pixy_cam_get_exposure_compensation` issues `cam_getECV` before it checks
  its pointers (pixy.cpp:329-339). Only `pixy_get_firmware_version` refuses
  null pointers before any command (pixy.cpp:438-443).
- `pixy_command` refuses with a literal `-1` while uninitialised, not with one
  of the named error codes (pixy.cpp:117).

## Model

| member | source | states |
|---|---|---|
| Protocol.AsInt32 | src/host/libpixyusb/src/pixy.cpp:190-204 | returning a 32-bit response through `int` gives a non-negative result exactly when the top bit is clear, and the result's bits are the word's bits |
| Protocol.Unsigned | src/host/libpixyusb/src/pixy.cpp:238-252 | the `int` to `uint32_t` conversion is undone by reading the bits back as `int`, and leaves non-negative values unchanged |
| Decimal.IntToDecimal | src/host/libpixyusb/src/pixy.cpp:151 | `%d` output is non-empty, starts with `-` exactly for negative codes, and is otherwise all decimal digits |
| Decimal.NatToDigits | src/host/libpixyusb/src/pixy.cpp:151 | the digits of a magnitude are all decimal digits with no leading zero |
| Decimal.DigitsRoundTrip | src/host/libpixyusb/src/pixy.cpp:151 | reading the printed digits of a magnitude back gives the magnitude |
| Decimal.DecimalRoundTrip | src/host/libpixyusb/src/pixy.cpp:151 | reading the printed code back gives the code, so the fallback message identifies the code |
| Decimal.DecimalInjective | src/host/libpixyusb/src/pixy.cpp:151 | two codes print the same text exactly when they are equal |
| Errors.Undefined | src/host/libpixyusb/src/pixy.cpp:151 | the fallback text is `Undefined error: [`, the code's numeral and `]`, and reading that numeral back gives the code |
| Errors.Table | src/host/libpixyusb/src/pixy.cpp:75-84 | the table has seven text rows followed by a sentinel row with no text |
| Errors.FirstMatchDescribes | src/host/libpixyusb/src/pixy.cpp:141-146 | the first row whose code matches carries the text that the case-by-case description gives for that code |
| Errors.ErrorMessage | src/host/libpixyusb/src/pixy.cpp:133-152 | the sentinel-bounded scan terminates and prints the first matching row's text, or `Undefined error: [<code>]`, followed by a newline, as the direct description says |
| Errors.ListedCodes | src/host/libpixyusb/src/pixy.cpp:75-84 | code 0 gives "Success", and with distinct codes each listed constant gives its own row's text |
| Errors.InvalidParameterUndefined | src/host/libpixyusb/src/pixy.cpp:75-84 | `PIXY_ERROR_INVALID_PARAMETER` has no row, so it prints the fallback text naming its code |
| Errors.UndefinedExactlyWhenUnlisted | src/host/libpixyusb/src/pixy.cpp:141-151 | the fallback is printed exactly for codes that no text row lists, and different codes give different fallback texts |
| Packing.PackRgb | src/host/libpixyusb/src/pixy.cpp:161 | the packed colour is below 2^24, with blue in byte 0, green in byte 1 and red in byte 2 |
| Packing.RgbRoundTrip | src/host/libpixyusb/src/pixy.cpp:161 | shifting and masking the packed colour gives back red, green and blue |
| Packing.RgbPackedWords | src/host/libpixyusb/src/pixy.cpp:161 | a word is a packed colour exactly when it is below 2^24 |
| Packing.RgbExample | src/host/libpixyusb/src/pixy.cpp:161 | (0x12, 0x34, 0x56) packs to 0x00123456 |
| Packing.PackWhiteBalance | src/host/libpixyusb/src/pixy.cpp:260 | the packed gains are below 2^24, with green in byte 0, red in byte 1 and blue in byte 2 |
| Packing.WhiteBalanceVersusRgb | src/host/libpixyusb/src/pixy.cpp:260 | the white-balance layout is the LED layout with the colours rotated, and the two agree exactly when all three gains are equal |
| Packing.PackExposure | src/host/libpixyusb/src/pixy.cpp:311 | the packed exposure is below 2^24, with the gain in byte 0 and the compensation in the bits above it |
| Packing.UnpackExposure | src/host/libpixyusb/src/pixy.cpp:343-344 | the gain is byte 0 of the word, and the compensation is the 16 bits above it: its low byte is byte 1 and its high byte is byte 2 |
| Packing.ExposureRoundTrip | src/host/libpixyusb/src/pixy.cpp:343-344 | unpacking a packed exposure gives back every 8-bit gain and 16-bit compensation |
| Packing.ExposureRepack | src/host/libpixyusb/src/pixy.cpp:343-344 | repacking an unpacked word keeps its low three bytes and clears the top byte |
| Packing.ExposurePackedWords | src/host/libpixyusb/src/pixy.cpp:343-344 | unpacking loses nothing exactly when the top byte of the word is clear |
| Packing.ExposureExample | src/host/libpixyusb/src/pixy.cpp:311 | gain 7 and compensation 300 pack to 76807, which unpacks to the same pair |
| Lifecycle.Init | src/host/libpixyusb/src/pixy.cpp:88-100 | returns the interpreter's init result and sets the flag exactly when that result is 0, never clearing it |
| Lifecycle.Command | src/host/libpixyusb/src/pixy.cpp:112-124 | while uninitialised, returns -1 and reaches no interpreter; otherwise the interpreter gets exactly the call and its reply is returned |
| Lifecycle.Close | src/host/libpixyusb/src/pixy.cpp:126-131 | closes the interpreter exactly when initialised, and never changes the flag |
| Lifecycle.RunInitialized | src/host/libpixyusb/src/pixy.cpp:86-131 | after any sequence of init, command and close calls, the flag is set exactly when it was set before or some init in the sequence returned 0 |
| Lifecycle.NoCommandBeforeInit | src/host/libpixyusb/src/pixy.cpp:112-131 | from program start, until an init succeeds, the interpreter is only asked to init: it never receives a command or a close |
| Api.ScalarCommand | src/host/libpixyusb/src/pixy.cpp:163-171 | a negative command result is returned unchanged; otherwise the result carries the bits of the response slot; before initialisation nothing is sent and the result is -1 |
| Api.ScalarResultOrigin | src/host/libpixyusb/src/pixy.cpp:163-171 | a non-negative result is always the device's response word; a negative one is -1 before init, the interpreter's error, or a response word with its top bit set |
| Api.LedSetRgb | src/host/libpixyusb/src/pixy.cpp:154-172 | sends `led_set` with one INT32 argument from which the colour is recovered byte by byte, and forwards the result |
| Api.LedSetMaxCurrent | src/host/libpixyusb/src/pixy.cpp:174-188 | sends `led_setMaxCurrent` with the current as INT32 and forwards the result |
| Api.LedGetMaxCurrent | src/host/libpixyusb/src/pixy.cpp:190-204 | sends `led_getMaxCurrent` with no argument and forwards the result |
| Api.CamSetAutoWhiteBalance | src/host/libpixyusb/src/pixy.cpp:206-220 | sends `cam_setAWB` with one UINT8 and forwards the result |
| Api.CamGetAutoWhiteBalance | src/host/libpixyusb/src/pixy.cpp:222-236 | sends `cam_getAWB` and forwards the result |
| Api.CamGetWhiteBalanceValue | src/host/libpixyusb/src/pixy.cpp:238-252 | sends `cam_getWBV`; the `uint32_t` result, read back as `int`, obeys the forwarding rule, and on success it is the response word itself |
| Api.CamSetWhiteBalanceValueAsWritten | src/host/libpixyusb/src/pixy.cpp:254-271 | sends the packed gains as one UINT32 under the name `cam_setAWB`, and forwards the result |
| Api.CamSetWhiteBalanceValue | src/host/libpixyusb/src/pixy.cpp:254-271 | the corrected function sends the packed gains under the setter name paired with `cam_getWBV`; its argument's bytes are green, red, blue and 0 |
| Api.CatalogPairs | src/host/libpixyusb/src/pixy.cpp:179-402 | every set/get procedure pair the API uses is named `xxx_set…` / `xxx_get…` with the same suffix |
| Api.WhiteBalanceValueSentAsAutoWhiteBalance | src/host/libpixyusb/src/pixy.cpp:262 | for every input, the as-written setter sends the same procedure name as `pixy_cam_set_auto_white_balance`, with a UINT32 where that one sends a UINT8, and the name is not paired with `cam_getWBV` |
| Api.CamSetAutoExposureCompensation | src/host/libpixyusb/src/pixy.cpp:273-287 | sends `cam_setAEC` with one UINT8 and forwards the result |
| Api.CamGetAutoExposureCompensation | src/host/libpixyusb/src/pixy.cpp:289-303 | sends `cam_getAEC` and forwards the result |
| Api.CamSetExposureCompensation | src/host/libpixyusb/src/pixy.cpp:305-322 | sends `cam_setECV` with one UINT32 that unpacks to the given gain and compensation, and forwards the result |
| Api.CamGetExposureCompensation | src/host/libpixyusb/src/pixy.cpp:324-347 | the command is always issued first; a negative result is returned even with null pointers; then a null pointer gives `PIXY_ERROR_INVALID_PARAMETER` with nothing stored; otherwise the word's gain and compensation fields are stored and 0 is returned |
| Api.ExposureSetThenGet | src/host/libpixyusb/src/pixy.cpp:305-347 | through a device that reports back the word it was sent, getting the exposure after setting it returns 0 and stores exactly the gain and compensation that were set |
| Api.CamSetBrightness | src/host/libpixyusb/src/pixy.cpp:349-363 | sends `cam_setBrightness` with one UINT8 and forwards the result |
| Api.CamGetBrightness | src/host/libpixyusb/src/pixy.cpp:365-379 | sends `cam_getBrightness` and forwards the result |
| Api.RcsGetPosition | src/host/libpixyusb/src/pixy.cpp:381-395 | sends `rcs_getPos` with the channel as UINT8 and forwards the result |
| Api.RcsSetPosition | src/host/libpixyusb/src/pixy.cpp:397-411 | sends `rcs_setPos` with the channel as UINT8 and the position as INT16, and forwards the result |
| Api.RcsSetFrequency | src/host/libpixyusb/src/pixy.cpp:413-427 | sends `rcs_setFreq` with one UINT16 and forwards the result |
| Api.GetFirmwareVersion | src/host/libpixyusb/src/pixy.cpp:429-457 | any null pointer gives `PIXY_ERROR_INVALID_PARAMETER` before any command; a negative command result is returned with nothing stored; otherwise the first three halfwords of the reply buffer are stored as major, minor and build and 0 is returned; a buffer shorter than three halfwords is read past |
| Api.FirmwareStoresOnlyOnSuccess | src/host/libpixyusb/src/pixy.cpp:438-456 | with distinct negative error codes, the version is stored exactly when 0 is returned, and every other return is negative |

## Left out

- `pixy_get_blocks` and `pixy_blocks_are_new` (pixy.cpp:102-110) only pass their arguments through to the interpreter. The interpreter is not part of this model.
- The interpreter's `init`, `send_command`, `get_blocks`, `blocks_are_new` and `close` are in `pixyinterpreter.hpp` and the Chirp protocol code, which are not part of this model. The interpreter is an oracle, and no framing or encoding is invented for it. The result of `init` is a parameter of `Lifecycle.Init`. `close` is recorded as an event, and its effect on the interpreter is not modelled.
- Transport (USB, libusb) and the `va_list` mechanics are not modelled. An argument list is an explicit sequence of tagged values, and output slots are an explicit sequence of slot kinds.
- `printf` output is returned as a string (`Errors.ErrorMessage`). The debug print in `pixy_cam_get_exposure_compensation` (pixy.cpp:341) is dropped because it affects no result.
- The numeric values of `PIXY_ERROR_*` come from `pixy.h`, which is not part of this model. They are symbolic parameters.
- `Api.GetFirmwareVersion`: when the reply buffer holds fewer than three halfwords, `memcpy` reads past it. The model reports this case as `ReadsPastReply` and does not say what values get stored. The `response` and `version_length` outputs are requested but never used, as in the code.
- The global interpreter object is an explicit `Lifecycle.Session` value plus the oracle.
- Concurrent use is not modelled. pixy.cpp does no synchronisation of its own around the global interpreter or the `pixy_initialized` flag.
- The documentation block at pixy.cpp:8-65.

## Findings

| source | as written | input that shows it | evidently intended | confidence | as-written member | corrected member |
|---|---|---|---|---|---|---|
| src/host/libpixyusb/src/pixy.cpp:262 | `pixy_cam_set_white_balance_value` sends its packed gains under the procedure name `cam_setAWB`, which is the auto-white-balance switch that `pixy_cam_set_auto_white_balance` sends with a UINT8 | any call, e.g. red = green = blue = 0x80: the device receives `cam_setAWB` with UINT32 0x00808080 | `cam_setWBV`, the setter paired with the getter `cam_getWBV` (pixy.cpp:243), as every other set/get pair in the file is paired | medium, not executed | Api.CamSetWhiteBalanceValueAsWritten | Api.CamSetWhiteBalanceValue |
