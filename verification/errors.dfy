/**
pixy_error: the table of error texts, scanned linearly up to its sentinel
entry, and the fallback text for a code the table does not list. The message
is returned instead of being printed.
*/
module Errors {
  import opened Protocol
  import Decimal

  /** The numeric values of the PIXY_ERROR_* constants. They live in a header
      that is not part of this model, so they are a parameter. */
  datatype ErrorCodes = ErrorCodes(
    usbIo: Int32,
    usbBusy: Int32,
    usbNoDevice: Int32,
    usbNotFound: Int32,
    chirp: Int32,
    invalidCommand: Int32,
    invalidParameter: Int32)

  /** The assumption the library makes of its constants: every code is a
      negative number and no two of them are equal. */
  predicate Distinct(codes: ErrorCodes) {
    var all := AllCodes(codes);
    && (forall i :: 0 <= i < |all| ==> all[i] < 0)
    && (forall i, j :: 0 <= i < j < |all| ==> all[i] != all[j])
  }

  /** The named error constants, in declaration order. */
  function AllCodes(codes: ErrorCodes): seq<Int32> {
    [codes.usbIo, codes.usbBusy, codes.usbNoDevice, codes.usbNotFound,
     codes.chirp, codes.invalidCommand, codes.invalidParameter]
  }

  /** One row of PIXY_ERROR_TABLE; a `None` text is the terminating sentinel. */
  datatype Entry = Entry(error: Int32, text: Option<string>)

  /** The rows of PIXY_ERROR_TABLE, in order, ending with the `{0, 0}` sentinel. */
  function Table(codes: ErrorCodes): (t: seq<Entry>)
    ensures |t| == 8
    ensures t[7].text.None?
    ensures forall i :: 0 <= i < 7 ==> t[i].text.Some?
  {
    [ Entry(0, Some("Success")),
      Entry(codes.usbIo, Some("USB Error: I/O")),
      Entry(codes.usbBusy, Some("USB Error: Busy")),
      Entry(codes.usbNoDevice, Some("USB Error: No device")),
      Entry(codes.usbNotFound, Some("USB Error: Target not found")),
      Entry(codes.chirp, Some("Chirp Protocol Error")),
      Entry(codes.invalidCommand, Some("Pixy Error: Invalid command")),
      Entry(0, None) ]
  }

  /** The text printed for a code absent from the table. */
  function Undefined(code: Int32): (text: string)
    ensures |text| > 19
    ensures text[..18] == "Undefined error: [" && text[|text| - 1] == ']'
    ensures text[18..|text| - 1] == Decimal.IntToDecimal(code)
    ensures Decimal.ParseDecimal(text[18..|text| - 1]) == code
  {
    var digits := Decimal.IntToDecimal(code);
    var text := "Undefined error: [" + digits + "]";
    assert text[18..|text| - 1] == digits;
    Decimal.DecimalRoundTrip(code);
    text
  }

  /** The meaning of the table, stated directly: the text of the first listed
      code equal to `code`, or the fallback. */
  function Describe(codes: ErrorCodes, code: Int32): string {
    if code == 0 then "Success"
    else if code == codes.usbIo then "USB Error: I/O"
    else if code == codes.usbBusy then "USB Error: Busy"
    else if code == codes.usbNoDevice then "USB Error: No device"
    else if code == codes.usbNotFound then "USB Error: Target not found"
    else if code == codes.chirp then "Chirp Protocol Error"
    else if code == codes.invalidCommand then "Pixy Error: Invalid command"
    else Undefined(code)
  }

  /** The line pixy_error writes: scan the table until the sentinel, stop at
      the first row whose code matches, otherwise print the fallback. */
  method ErrorMessage(codes: ErrorCodes, errorCode: Int32) returns (line: string)
    ensures line == Describe(codes, errorCode) + "\n"
  {
    var table := Table(codes);
    var index := 0;
    while table[index].text != None
      invariant 0 <= index <= 7
      invariant forall j :: 0 <= j < index ==> table[j].error != errorCode
      decreases 7 - index
    {
      if table[index].error == errorCode {
        FirstMatchDescribes(codes, errorCode, index);
        return table[index].text.value + "\n";
      }
      index := index + 1;
    }
    assert index == 7;
    assert table[0].error != errorCode && table[1].error != errorCode;
    assert table[2].error != errorCode && table[3].error != errorCode;
    assert table[4].error != errorCode && table[5].error != errorCode;
    assert table[6].error != errorCode;
    return Undefined(errorCode) + "\n";
  }

  /** The row the scan stops at is the one `Describe` picks. */
  lemma FirstMatchDescribes(codes: ErrorCodes, code: Int32, index: nat)
    requires index < 7
    requires Table(codes)[index].error == code
    requires forall j :: 0 <= j < index ==> Table(codes)[j].error != code
    ensures Table(codes)[index].text == Some(Describe(codes, code))
  {
    var t := Table(codes);
    if index > 0 { assert t[0].error != code; }
    if index > 1 { assert t[1].error != code; }
    if index > 2 { assert t[2].error != code; }
    if index > 3 { assert t[3].error != code; }
    if index > 4 { assert t[4].error != code; }
    if index > 5 { assert t[5].error != code; }
  }

  /** A listed code is described by its own row whenever the codes are
      distinct; with distinct codes the first-match rule never matters. */
  lemma ListedCodes(codes: ErrorCodes)
    requires Distinct(codes)
    ensures Describe(codes, 0) == "Success"
    ensures Describe(codes, codes.usbIo) == "USB Error: I/O"
    ensures Describe(codes, codes.usbBusy) == "USB Error: Busy"
    ensures Describe(codes, codes.usbNoDevice) == "USB Error: No device"
    ensures Describe(codes, codes.usbNotFound) == "USB Error: Target not found"
    ensures Describe(codes, codes.chirp) == "Chirp Protocol Error"
    ensures Describe(codes, codes.invalidCommand) == "Pixy Error: Invalid command"
  {
    var all := AllCodes(codes);
    assert all[0] != all[1] && all[0] != all[2] && all[0] != all[3];
    assert all[0] != all[4] && all[0] != all[5];
    assert all[1] != all[2] && all[1] != all[3] && all[1] != all[4] && all[1] != all[5];
    assert all[2] != all[3] && all[2] != all[4] && all[2] != all[5];
    assert all[3] != all[4] && all[3] != all[5] && all[4] != all[5];
    assert forall i :: 0 <= i < 6 ==> all[i] < 0;
  }

  /** PIXY_ERROR_INVALID_PARAMETER has no row: it prints the fallback. */
  lemma InvalidParameterUndefined(codes: ErrorCodes)
    requires Distinct(codes)
    ensures Describe(codes, codes.invalidParameter)
         == "Undefined error: [" + Decimal.IntToDecimal(codes.invalidParameter) + "]"
  {
    var all := AllCodes(codes);
    assert all[6] < 0;
    assert all[0] != all[6] && all[1] != all[6] && all[2] != all[6];
    assert all[3] != all[6] && all[4] != all[6] && all[5] != all[6];
  }

  /** The fallback is used exactly for the codes the table does not list, and
      the fallback text names the code it was given. */
  lemma UndefinedExactlyWhenUnlisted(codes: ErrorCodes, code: Int32)
    ensures Describe(codes, code) == Undefined(code)
        <==> (forall i :: 0 <= i < 7 ==> Table(codes)[i].error != code)
    ensures forall other: Int32 :: Undefined(other) == Undefined(code) ==> other == code
  {
    var t := Table(codes);
    var u := Undefined(code);
    assert u[1] == 'n';
    if forall i :: 0 <= i < 7 ==> t[i].error != code {
      assert t[0].error != code && t[1].error != code && t[2].error != code;
      assert t[3].error != code && t[4].error != code && t[5].error != code;
      assert t[6].error != code;
    }
    forall other: Int32 | Undefined(other) == Undefined(code)
      ensures other == code
    {
    }
  }
}
