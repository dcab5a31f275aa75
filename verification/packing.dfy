/**
The bit layouts the façade uses to pack several device parameters into the one
32-bit argument a command carries. These are a wire contract with the camera:
the LED colour, the white-balance gains (in a different byte order) and the
exposure gain plus compensation.
*/
module Packing {

  /** Byte `k` (0 = least significant) of a word. */
  function ByteOf(w: bv32, k: nat): bv32
    requires k < 4
  {
    if k == 0 then w & 0xFF
    else if k == 1 then (w >> 8) & 0xFF
    else if k == 2 then (w >> 16) & 0xFF
    else w >> 24
  }

  datatype Colour = Colour(red: bv8, green: bv8, blue: bv8)

  /** The two fields of the exposure-compensation setting. */
  datatype Exposure = Exposure(gain: bv8, compensation: bv16)

  // ----- LED colour: blue in byte 0, green in byte 1, red in byte 2 -----

  function PackRgb(red: bv8, green: bv8, blue: bv8): (rgb: bv32)
    ensures rgb < 0x100_0000
    ensures ByteOf(rgb, 0) == blue as bv32
    ensures ByteOf(rgb, 1) == green as bv32
    ensures ByteOf(rgb, 2) == red as bv32
  {
    blue as bv32 + ((green as bv32) << 8) + ((red as bv32) << 16)
  }

  /** Reads the three colour bytes back out of a packed word. */
  function UnpackRgb(rgb: bv32): Colour
  {
    Colour(((rgb >> 16) & 0xFF) as bv8, ((rgb >> 8) & 0xFF) as bv8, (rgb & 0xFF) as bv8)
  }

  lemma RgbRoundTrip(red: bv8, green: bv8, blue: bv8)
    ensures UnpackRgb(PackRgb(red, green, blue)) == Colour(red, green, blue)
  {
  }

  /** Exactly the words below 2^24 are packed colours. */
  lemma RgbPackedWords(rgb: bv32)
    ensures rgb < 0x100_0000 <==>
      (var c := UnpackRgb(rgb); PackRgb(c.red, c.green, c.blue) == rgb)
  {
  }

  // ----- white balance: green in byte 0, red in byte 1, blue in byte 2 -----

  function PackWhiteBalance(red: bv8, green: bv8, blue: bv8): (wb: bv32)
    ensures wb < 0x100_0000
    ensures ByteOf(wb, 0) == green as bv32
    ensures ByteOf(wb, 1) == red as bv32
    ensures ByteOf(wb, 2) == blue as bv32
  {
    green as bv32 + ((red as bv32) << 8) + ((blue as bv32) << 16)
  }

  /** The white-balance layout is the LED layout with the colours rotated,
      and the two layouts agree only on grey (all three gains equal). */
  lemma WhiteBalanceVersusRgb(red: bv8, green: bv8, blue: bv8)
    ensures PackWhiteBalance(red, green, blue) == PackRgb(blue, red, green)
    ensures PackWhiteBalance(red, green, blue) == PackRgb(red, green, blue)
        <==> red == green == blue
  {
  }

  // ----- exposure: gain in byte 0, compensation in bytes 1-2 -----

  function PackExposure(gain: bv8, compensation: bv16): (exposure: bv32)
    ensures exposure < 0x100_0000
    ensures ByteOf(exposure, 0) == gain as bv32
    ensures (exposure >> 8) == compensation as bv32
  {
    gain as bv32 + ((compensation as bv32) << 8)
  }

  /** What pixy_cam_get_exposure_compensation stores through its two outputs. */
  function UnpackExposure(exposure: bv32): (e: Exposure)
    ensures e.gain as bv32 == ByteOf(exposure, 0)
    ensures (e.compensation as bv32) & 0xFF == ByteOf(exposure, 1)
    ensures (e.compensation as bv32) >> 8 == ByteOf(exposure, 2)
  {
    Exposure((exposure & 0xFF) as bv8, (0xFFFF & (exposure >> 8)) as bv16)
  }

  lemma ExposureRoundTrip(gain: bv8, compensation: bv16)
    ensures UnpackExposure(PackExposure(gain, compensation)) == Exposure(gain, compensation)
  {
  }

  /** Unpacking then repacking keeps the low three bytes and clears the top one. */
  lemma ExposureRepack(exposure: bv32)
    ensures var e := UnpackExposure(exposure);
      PackExposure(e.gain, e.compensation) == exposure & 0xFF_FFFF
  {
  }

  /** Unpacking loses nothing exactly when the top byte is clear. */
  lemma ExposurePackedWords(exposure: bv32)
    ensures exposure < 0x100_0000 <==>
      (var e := UnpackExposure(exposure); PackExposure(e.gain, e.compensation) == exposure)
  {
  }

  /** Red 0x12, green 0x34, blue 0x56 packs to 0x00123456. */
  lemma RgbExample()
    ensures PackRgb(0x12, 0x34, 0x56) == 0x0012_3456
  {
  }

  /** Gain 7 and compensation 300 pack to 7 + 300 * 256 and come back unchanged. */
  lemma ExposureExample()
    ensures PackExposure(7, 300) == 76807
    ensures UnpackExposure(76807) == Exposure(7, 300)
  {
  }
}
