/** UTF-8 encoding of a rune, as Go's `fmt` writes a rune for the `%c` verb
    (through `utf8.AppendRune`): a rune that is not a Unicode scalar value is
    written as the replacement character U+FFFD. */
module Utf8 {
  import opened Text

  newtype int32 = x: int | -0x8000_0000 <= x < 0x8000_0000

  /** Go's `rune`. */
  type Rune = int32

  const RuneError: Rune := 0xFFFD

  predicate IsScalar(r: Rune) {
    0 <= r <= 0x10FFFF && !(0xD800 <= r <= 0xDFFF)
  }

  /** Number of bytes of the sequence a lead byte starts. */
  function LeadWidth(lead: byte): (w: nat)
    ensures 1 <= w <= 4
  {
    if lead < 0x80 then 1 else if lead < 0xE0 then 2 else if lead < 0xF0 then 3 else 4
  }

  function Cont(b: byte): int {
    b as int - 0x80
  }

  /** Reads back the first encoded character of `b`: the code point and the
      number of bytes it took. */
  function Decode(b: Bytes): (int, nat)
    requires b != [] && LeadWidth(b[0]) <= |b|
  {
    var w := LeadWidth(b[0]);
    var lead := b[0] as int;
    if w == 1 then (lead, 1)
    else if w == 2 then ((lead - 0xC0) * 64 + Cont(b[1]), 2)
    else if w == 3 then ((lead - 0xE0) * 4096 + Cont(b[1]) * 64 + Cont(b[2]), 3)
    else ((lead - 0xF0) * 262144 + Cont(b[1]) * 4096 + Cont(b[2]) * 64 + Cont(b[3]), 4)
  }

  /** The UTF-8 bytes Go writes for `r`: the lead byte carries the high
      bits, each continuation byte the next six (Go's shifts and masks, here
      as quotients and remainders of the non-negative code point). */
  function EncodeRune(r: Rune): (b: Bytes)
    ensures 1 <= |b| <= 4 && LeadWidth(b[0]) == |b|
    ensures |b| == 3 <==> (0x800 <= r <= 0xFFFF || !IsScalar(r))
  {
    var n := r as int;
    if 0 <= n < 0x80 then
      [n as byte]
    else if 0x80 <= n < 0x800 then
      [(0xC0 + n / 64) as byte, (0x80 + n % 64) as byte]
    else if !IsScalar(r) then
      [0xEF, 0xBF, 0xBD]
    else if n < 0x10000 then
      [(0xE0 + n / 4096) as byte, (0x80 + n % 4096 / 64) as byte, (0x80 + n % 4096 % 64) as byte]
    else
      [(0xF0 + n / 262144) as byte, (0x80 + n % 262144 / 4096) as byte,
       (0x80 + n % 262144 % 4096 / 64) as byte, (0x80 + n % 262144 % 4096 % 64) as byte]
  }

  /** Every scalar value decodes back to itself; anything else comes out as
      the replacement character. */
  lemma DecodeEncodeRune(r: Rune)
    ensures IsScalar(r) ==> Decode(EncodeRune(r)) == (r as int, |EncodeRune(r)|)
    ensures !IsScalar(r) ==> Decode(EncodeRune(r)) == (RuneError as int, 3)
  {
    var n := r as int;
    if 0x800 <= n < 0x10000 && IsScalar(r) {
      var r1 := n % 4096;
      assert n == n / 4096 * 4096 + r1;
      assert r1 == r1 / 64 * 64 + r1 % 64;
    } else if 0x10000 <= n <= 0x10FFFF {
      var r1 := n % 262144;
      var r2 := r1 % 4096;
      assert n == n / 262144 * 262144 + r1;
      assert r1 == r1 / 4096 * 4096 + r2;
      assert r2 == r2 / 64 * 64 + r2 % 64;
    }
  }
}
