/**
The per-command functions of the libpixyusb C API. Each builds one
pixy_command call (procedure name, typed arguments, output slots) and turns the
reply into its own result. The scalar functions pass a negative command result
back unchanged and otherwise return the device's response slot; the firmware
version and exposure getters return 0 or PIXY_ERROR_INVALID_PARAMETER instead,
and the white-balance-value getter wraps its result to `uint32_t`. Pointer
outputs are modelled as `Pointer` arguments plus the values the function would
store through them.
*/
module Api {
  import opened Protocol
  import opened Lifecycle
  import opened Packing
  import Errors

  /** A caller-supplied output location: null or usable. */
  datatype Pointer = Null | NonNull

  /** The result of a function returning `int`, and the call (if any) that
      reached the interpreter. */
  datatype Outcome = Outcome(ret: Int32, sent: Option<Call>)

  /** The one-response-word calls every scalar function makes. */
  function Scalar(name: string, args: seq<Value>): Call
  {
    Call(name, args, [WordSlot])
  }

  /** The result discipline of the scalar functions, relative to the call they
      make: the call reaches the interpreter only once initialised; before that
      the result is -1; a negative interpreter result is returned unchanged;
      otherwise the result holds the bits of the response word. */
  predicate Forwards(s: Session, oracle: Oracle, call: Call, r: Outcome)
    requires call.slots == [WordSlot]
  {
    if !s.initialized then r == Outcome(-1, None)
    else
      var reply := oracle(call);
      && r.sent == Some(call)
      && (reply.ret < 0 ==> r.ret == reply.ret)
      && (reply.ret >= 0 ==> Unsigned(r.ret) == reply.outs[0].w as int)
  }

  /** The shared body of the scalar functions: issue the command and pick
      the return value or the response slot. */
  function ScalarCommand(s: Session, oracle: Oracle, call: Call): (r: Outcome)
    requires call.slots == [WordSlot]
    ensures Forwards(s, oracle, call, r)
    ensures r.ret >= 0 ==> s.initialized && oracle(call).ret >= 0
  {
    var x := Command(s, oracle, call);
    if x.reply.ret < 0 then Outcome(x.reply.ret, x.sent)
    else Outcome(AsInt32(WordOut(call, x.reply, 0)), x.sent)
  }

  /** A non-negative result is always a device response, never an error; a
      negative one is -1 before initialisation, the interpreter's own error, or
      a response word whose top bit is set. */
  lemma ScalarResultOrigin(s: Session, oracle: Oracle, call: Call)
    requires call.slots == [WordSlot]
    ensures var r := ScalarCommand(s, oracle, call);
      && (r.ret >= 0 ==> r.ret == oracle(call).outs[0].w as int)
      && (r.ret < 0 ==>
            || (!s.initialized && r.ret == -1)
            || (s.initialized && r.ret == oracle(call).ret)
            || (s.initialized && oracle(call).outs[0].w >= 0x8000_0000))
  {
    var r := ScalarCommand(s, oracle, call);
    if s.initialized && oracle(call).ret >= 0 {
      var w := oracle(call).outs[0].w;
      assert r.ret == AsInt32(w);
      if w < 0x8000_0000 {
        assert r.ret == w as int;
      }
    }
  }

  // ----- LED -----

  /** pixy_led_set_RGB: one INT32 argument carrying the packed colour. */
  function LedSetRgb(s: Session, oracle: Oracle, red: bv8, green: bv8, blue: bv8): (r: Outcome)
    ensures Forwards(s, oracle, Scalar("led_set", [Int32Arg(PackRgb(red, green, blue))]), r)
    ensures r.sent.Some? ==>
      && r.sent.value.name == "led_set"
      && |r.sent.value.args| == 1 && r.sent.value.args[0].Int32Arg?
      && UnpackRgb(r.sent.value.args[0].w) == Colour(red, green, blue)
  {
    RgbRoundTrip(red, green, blue);
    ScalarCommand(s, oracle, Scalar("led_set", [Int32Arg(PackRgb(red, green, blue))]))
  }

  /** pixy_led_set_max_current: the current, cast to INT32 (bits unchanged). */
  function LedSetMaxCurrent(s: Session, oracle: Oracle, current: bv32): (r: Outcome)
    ensures Forwards(s, oracle, Scalar("led_setMaxCurrent", [Int32Arg(current)]), r)
  {
    ScalarCommand(s, oracle, Scalar("led_setMaxCurrent", [Int32Arg(current)]))
  }

  function LedGetMaxCurrent(s: Session, oracle: Oracle): (r: Outcome)
    ensures Forwards(s, oracle, Scalar("led_getMaxCurrent", []), r)
  {
    ScalarCommand(s, oracle, Scalar("led_getMaxCurrent", []))
  }

  // ----- white balance -----

  function CamSetAutoWhiteBalance(s: Session, oracle: Oracle, enable: bv8): (r: Outcome)
    ensures Forwards(s, oracle, Scalar("cam_setAWB", [UInt8(enable)]), r)
  {
    ScalarCommand(s, oracle, Scalar("cam_setAWB", [UInt8(enable)]))
  }

  function CamGetAutoWhiteBalance(s: Session, oracle: Oracle): (r: Outcome)
    ensures Forwards(s, oracle, Scalar("cam_getAWB", []), r)
  {
    ScalarCommand(s, oracle, Scalar("cam_getAWB", []))
  }

  /** The result of pixy_cam_get_white_balance_value, which returns `uint32_t`. */
  datatype Outcome32 = Outcome32(value: Uint32, sent: Option<Call>)

  /** pixy_cam_get_white_balance_value: as the other scalar functions, but the
      `int` result is converted to `uint32_t`, so an error comes back wrapped
      modulo 2^32 and the response word comes back as it is. */
  function CamGetWhiteBalanceValue(s: Session, oracle: Oracle): (r: Outcome32)
    ensures var call := Scalar("cam_getWBV", []);
      && Forwards(s, oracle, call, Outcome(Signed(r.value), r.sent))
      && (s.initialized && oracle(call).ret >= 0 ==> r.value == oracle(call).outs[0].w as int)
  {
    var o := ScalarCommand(s, oracle, Scalar("cam_getWBV", []));
    Outcome32(Unsigned(o.ret), o.sent)
  }

  /** pixy_cam_set_white_balance_value as written: the packed gains are sent
      under the procedure name "cam_setAWB". */
  function CamSetWhiteBalanceValueAsWritten(s: Session, oracle: Oracle, red: bv8, green: bv8, blue: bv8): (r: Outcome)
    ensures Forwards(s, oracle, Scalar("cam_setAWB", [UInt32Arg(PackWhiteBalance(red, green, blue))]), r)
  {
    ScalarCommand(s, oracle, Scalar("cam_setAWB", [UInt32Arg(PackWhiteBalance(red, green, blue))]))
  }

  /** pixy_cam_set_white_balance_value as intended: the packed gains go to the
      white-balance-value procedure, the setter paired with "cam_getWBV". */
  function CamSetWhiteBalanceValue(s: Session, oracle: Oracle, red: bv8, green: bv8, blue: bv8): (r: Outcome)
    ensures Forwards(s, oracle, Scalar("cam_setWBV", [UInt32Arg(PackWhiteBalance(red, green, blue))]), r)
    ensures r.sent.Some? ==>
      && Paired(r.sent.value.name, "cam_getWBV")
      && |r.sent.value.args| == 1 && r.sent.value.args[0].UInt32Arg?
      && ByteOf(r.sent.value.args[0].w, 0) == green as bv32
      && ByteOf(r.sent.value.args[0].w, 1) == red as bv32
      && ByteOf(r.sent.value.args[0].w, 2) == blue as bv32
      && ByteOf(r.sent.value.args[0].w, 3) == 0
  {
    ScalarCommand(s, oracle, Scalar("cam_setWBV", [UInt32Arg(PackWhiteBalance(red, green, blue))]))
  }

  /** The naming rule of the device's procedure catalog: a setter is its
      getter's name with "get" replaced by "set". */
  predicate Paired(setter: string, getter: string) {
    && |getter| >= 7
    && getter[4..7] == "get"
    && setter == getter[..4] + "set" + getter[7..]
  }

  /** Every set/get pair the API uses follows the rule, including the
      corrected white-balance-value setter ... */
  lemma CatalogPairs()
    ensures Paired("led_setMaxCurrent", "led_getMaxCurrent")
    ensures Paired("cam_setAWB", "cam_getAWB")
    ensures Paired("cam_setAEC", "cam_getAEC")
    ensures Paired("cam_setECV", "cam_getECV")
    ensures Paired("cam_setBrightness", "cam_getBrightness")
    ensures Paired("rcs_setPos", "rcs_getPos")
    ensures Paired("cam_setWBV", "cam_getWBV")
  {
  }

  /** ... while the setter as written is not paired with "cam_getWBV": it
      reuses the auto-white-balance procedure's name, so for every input the
      device receives the same procedure pixy_cam_set_auto_white_balance
      calls, with a UINT32 in place of its UINT8. */
  lemma WhiteBalanceValueSentAsAutoWhiteBalance(oracle: Oracle, red: bv8, green: bv8, blue: bv8, enable: bv8)
    ensures var wrong := CamSetWhiteBalanceValueAsWritten(Session(true), oracle, red, green, blue).sent;
      var auto := CamSetAutoWhiteBalance(Session(true), oracle, enable).sent;
      && wrong.Some? && auto.Some?
      && wrong.value.name == auto.value.name
      && !Paired(wrong.value.name, "cam_getWBV")
      && wrong.value.args[0].UInt32Arg? && auto.value.args[0].UInt8?
  {
    var wrong := CamSetWhiteBalanceValueAsWritten(Session(true), oracle, red, green, blue).sent;
    assert wrong.value.name == "cam_setAWB";
    assert "cam_getWBV"[..4] + "set" + "cam_getWBV"[7..] == "cam_setWBV";
    assert "cam_setAWB"[7] != "cam_setWBV"[7];
  }

  // ----- exposure -----

  function CamSetAutoExposureCompensation(s: Session, oracle: Oracle, enable: bv8): (r: Outcome)
    ensures Forwards(s, oracle, Scalar("cam_setAEC", [UInt8(enable)]), r)
  {
    ScalarCommand(s, oracle, Scalar("cam_setAEC", [UInt8(enable)]))
  }

  function CamGetAutoExposureCompensation(s: Session, oracle: Oracle): (r: Outcome)
    ensures Forwards(s, oracle, Scalar("cam_getAEC", []), r)
  {
    ScalarCommand(s, oracle, Scalar("cam_getAEC", []))
  }

  /** pixy_cam_set_exposure_compensation: one UINT32 carrying gain and
      compensation. */
  function CamSetExposureCompensation(s: Session, oracle: Oracle, gain: bv8, compensation: bv16): (r: Outcome)
    ensures Forwards(s, oracle, Scalar("cam_setECV", [UInt32Arg(PackExposure(gain, compensation))]), r)
    ensures r.sent.Some? ==>
      && r.sent.value.name == "cam_setECV"
      && |r.sent.value.args| == 1 && r.sent.value.args[0].UInt32Arg?
      && UnpackExposure(r.sent.value.args[0].w) == Exposure(gain, compensation)
  {
    ExposureRoundTrip(gain, compensation);
    ScalarCommand(s, oracle, Scalar("cam_setECV", [UInt32Arg(PackExposure(gain, compensation))]))
  }

  /** The result of pixy_cam_get_exposure_compensation: its return value, the
      values stored through `gain` and `compensation` (if any) and the call. */
  datatype ExposureResult = ExposureResult(ret: Int32, written: Option<Exposure>, sent: Option<Call>)

  const GetExposureCall := Scalar("cam_getECV", [])

  /** pixy_cam_get_exposure_compensation: the command is issued first and a
      negative result returned before the pointers are looked at; then a null
      pointer yields PIXY_ERROR_INVALID_PARAMETER; otherwise both fields of the
      reply word are stored and 0 is returned. Nothing is stored on error. */
  function CamGetExposureCompensation(codes: Errors.ErrorCodes, s: Session, oracle: Oracle,
                                      gain: Pointer, compensation: Pointer): (r: ExposureResult)
    ensures r.sent == (if s.initialized then Some(GetExposureCall) else None)
    ensures !s.initialized ==> r.ret == -1 && r.written.None?
    ensures s.initialized && oracle(GetExposureCall).ret < 0 ==>
      r.ret == oracle(GetExposureCall).ret && r.written.None?
    ensures s.initialized && oracle(GetExposureCall).ret >= 0 && (gain.Null? || compensation.Null?) ==>
      r.ret == codes.invalidParameter && r.written.None?
    ensures s.initialized && oracle(GetExposureCall).ret >= 0 && gain.NonNull? && compensation.NonNull? ==>
      var word := oracle(GetExposureCall).outs[0].w;
      r.ret == 0 && r.written == Some(UnpackExposure(word))
  {
    var x := Command(s, oracle, GetExposureCall);
    if x.reply.ret < 0 then ExposureResult(x.reply.ret, None, x.sent)
    else if gain.Null? || compensation.Null? then ExposureResult(codes.invalidParameter, None, x.sent)
    else
      ExposureResult(0, Some(UnpackExposure(WordOut(GetExposureCall, x.reply, 0))), x.sent)
  }

  /** Setting the exposure and reading it back through a device that reports
      the word it was last sent returns exactly the gain and compensation set. */
  lemma ExposureSetThenGet(codes: Errors.ErrorCodes, s: Session, oracle: Oracle,
                           gain: bv8, compensation: bv16)
    requires s.initialized
    requires oracle(GetExposureCall).ret >= 0
    requires oracle(GetExposureCall).outs[0]
          == Word(CamSetExposureCompensation(s, oracle, gain, compensation).sent.value.args[0].w)
    ensures CamGetExposureCompensation(codes, s, oracle, NonNull, NonNull)
         == ExposureResult(0, Some(Exposure(gain, compensation)), Some(GetExposureCall))
  {
    ExposureRoundTrip(gain, compensation);
  }

  // ----- brightness and servos -----

  function CamSetBrightness(s: Session, oracle: Oracle, brightness: bv8): (r: Outcome)
    ensures Forwards(s, oracle, Scalar("cam_setBrightness", [UInt8(brightness)]), r)
  {
    ScalarCommand(s, oracle, Scalar("cam_setBrightness", [UInt8(brightness)]))
  }

  function CamGetBrightness(s: Session, oracle: Oracle): (r: Outcome)
    ensures Forwards(s, oracle, Scalar("cam_getBrightness", []), r)
  {
    ScalarCommand(s, oracle, Scalar("cam_getBrightness", []))
  }

  function RcsGetPosition(s: Session, oracle: Oracle, channel: bv8): (r: Outcome)
    ensures Forwards(s, oracle, Scalar("rcs_getPos", [UInt8(channel)]), r)
  {
    ScalarCommand(s, oracle, Scalar("rcs_getPos", [UInt8(channel)]))
  }

  /** pixy_rcs_set_position: the position travels as INT16 (bits unchanged). */
  function RcsSetPosition(s: Session, oracle: Oracle, channel: bv8, position: bv16): (r: Outcome)
    ensures Forwards(s, oracle, Scalar("rcs_setPos", [UInt8(channel), Int16(position)]), r)
  {
    ScalarCommand(s, oracle, Scalar("rcs_setPos", [UInt8(channel), Int16(position)]))
  }

  function RcsSetFrequency(s: Session, oracle: Oracle, frequency: bv16): (r: Outcome)
    ensures Forwards(s, oracle, Scalar("rcs_setFreq", [UInt16(frequency)]), r)
  {
    ScalarCommand(s, oracle, Scalar("rcs_setFreq", [UInt16(frequency)]))
  }

  // ----- firmware version -----

  datatype Version = Version(major: bv16, minor: bv16, build: bv16)

  /** What pixy_get_firmware_version does: return a code, storing a version
      or nothing, or copy three halfwords out of a reply buffer that holds
      fewer (the length the device reports is not consulted). */
  datatype VersionOutcome =
    | Returned(ret: Int32, written: Option<Version>)
    | ReadsPastReply

  datatype VersionResult = VersionResult(outcome: VersionOutcome, sent: Option<Call>)

  /** The "version" call: response word, buffer length, buffer pointer. */
  const VersionCall := Call("version", [], [WordSlot, WordSlot, BufferSlot])

  /** pixy_get_firmware_version: null pointers are refused before any command
      is issued; a negative command result is returned with nothing stored;
      otherwise the first three halfwords of the reply buffer are stored as
      major, minor and build and 0 is returned. */
  function GetFirmwareVersion(codes: Errors.ErrorCodes, s: Session, oracle: Oracle,
                              major: Pointer, minor: Pointer, build: Pointer): (r: VersionResult)
    ensures major.Null? || minor.Null? || build.Null? ==>
      r == VersionResult(Returned(codes.invalidParameter, None), None)
    ensures major.NonNull? && minor.NonNull? && build.NonNull? ==>
      r.sent == (if s.initialized then Some(VersionCall) else None)
    ensures major.NonNull? && minor.NonNull? && build.NonNull? && !s.initialized ==>
      r.outcome == Returned(-1, None)
    ensures major.NonNull? && minor.NonNull? && build.NonNull? && s.initialized ==>
      var reply := oracle(VersionCall);
      && (reply.ret < 0 ==> r.outcome == Returned(reply.ret, None))
      && (reply.ret >= 0 ==>
            var buffer := reply.outs[2].data;
            if |buffer| >= 3 then r.outcome == Returned(0, Some(Version(buffer[0], buffer[1], buffer[2])))
            else r.outcome == ReadsPastReply)
  {
    if major.Null? || minor.Null? || build.Null? then
      VersionResult(Returned(codes.invalidParameter, None), None)
    else
      var x := Command(s, oracle, VersionCall);
      if x.reply.ret < 0 then VersionResult(Returned(x.reply.ret, None), x.sent)
      else
        var buffer := x.reply.outs[2].data;
        if |buffer| < 3 then VersionResult(ReadsPastReply, x.sent)
        else VersionResult(Returned(0, Some(Version(buffer[0], buffer[1], buffer[2]))), x.sent)
  }

  /** With distinct negative error codes, the version is stored exactly when 0
      is returned, and every other return is negative. */
  lemma FirmwareStoresOnlyOnSuccess(codes: Errors.ErrorCodes, s: Session, oracle: Oracle,
                                    major: Pointer, minor: Pointer, build: Pointer)
    requires Errors.Distinct(codes)
    ensures var o := GetFirmwareVersion(codes, s, oracle, major, minor, build).outcome;
      o.Returned? ==> o.ret <= 0 && (o.written.Some? <==> o.ret == 0)
  {
    assert Errors.AllCodes(codes)[6] < 0;
  }
}
