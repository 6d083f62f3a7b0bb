/** How a check's numeric status is shown: a label and an icon. */
module Status {
  import opened Text
  import Utf8

  newtype uint32 = x: int | 0 <= x < 0x1_0000_0000

  const Resolved: Bytes := Ascii("Resolved")
  const Warning: Bytes := Ascii("Warning")
  const Critical: Bytes := Ascii("Critical")
  const Undefined: Bytes := Ascii("Undefined")

  const CheckMark: Utf8.Rune := 0x2705    // WHITE HEAVY CHECK MARK
  const WarningSign: Utf8.Rune := 0x26A0  // WARNING SIGN
  const CrossMark: Utf8.Rune := 0x274C    // CROSS MARK

  lemma LabelsDistinct()
    ensures Resolved != Warning && Resolved != Critical && Resolved != Undefined
    ensures Warning != Critical && Warning != Undefined && Critical != Undefined
  {
    assert Resolved[0] as int == 'R' as int;
    assert Critical[0] as int == 'C' as int;
  }

  /** The label of a status; every value outside 0..2 is "Undefined". */
  function StatusString(status: uint32): (r: Bytes)
    ensures r == Resolved <==> status == 0
    ensures r == Warning <==> status == 1
    ensures r == Critical <==> status == 2
    ensures r == Undefined <==> status > 2
  {
    LabelsDistinct();
    match status
    case 0 => Resolved
    case 1 => Warning
    case 2 => Critical
    case _ => Undefined
  }

  /** The icon of a status; every value outside 0..2 shares the Warning icon. */
  function StatusIcon(status: uint32): (r: Utf8.Rune)
    ensures r == CheckMark <==> status == 0
    ensures r == CrossMark <==> status == 2
    ensures r == WarningSign <==> status != 0 && status != 2
    ensures status > 2 ==> r == StatusIcon(1)
  {
    match status
    case 0 => CheckMark
    case 1 => WarningSign
    case 2 => CrossMark
    case _ => WarningSign
  }

  /** The icon as `%c` writes it: three UTF-8 bytes that decode to the icon. */
  function StatusGlyph(status: uint32): (g: Bytes)
    ensures |g| == 3 && Utf8.LeadWidth(g[0]) == 3 && Utf8.Decode(g) == (StatusIcon(status) as int, 3)
  {
    Utf8.DecodeEncodeRune(StatusIcon(status));
    Utf8.EncodeRune(StatusIcon(status))
  }
}
