/** Decoding of a packed 32-bit ARGB colour into its four 8-bit channels
    (WatchfaceUtility.ConvertARGBToColor). The host's colour type is
    represented by the four channel values it is built from. */
module ColorCodec {

  /** The range of the source's signed 32-bit `int`. */
  type Int32 = x: int | -0x8000_0000 <= x < 0x8000_0000

  /** The four channels handed to the host's colour constructor. */
  datatype Argb = Argb(alpha: int, red: int, green: int, blue: int)

  predicate IsByte(v: int) { 0 <= v < 0x100 }

  predicate ChannelsAreBytes(c: Argb) {
    IsByte(c.alpha) && IsByte(c.red) && IsByte(c.green) && IsByte(c.blue)
  }

  /** The two's-complement bit pattern of `x`, read as an unsigned 32-bit number. */
  function Unsigned(x: Int32): (u: int)
    ensures 0 <= u < 0x1_0000_0000
    ensures x >= 0 ==> u == x
    ensures x < 0 ==> u == x + 0x1_0000_0000
  {
    x % 0x1_0000_0000
  }

  /** The signed 32-bit number with the unsigned bit pattern `u`. */
  function Signed(u: int): (x: Int32)
    requires 0 <= u < 0x1_0000_0000
    ensures Unsigned(x) == u
  {
    if u < 0x8000_0000 then u else u - 0x1_0000_0000
  }

  /** `argb >> 24 & 0xFF`, `argb >> 16 & 0xFF`, `argb >> 8 & 0xFF`, `argb & 0xFF`.
      On a signed `int`, `>> k` is the arithmetic shift, which is division by 2^k
      rounded towards minus infinity (Dafny's `/` for a positive divisor), and
      `& 0xFF` keeps the low eight bits of the two's-complement pattern, which is
      the non-negative remainder modulo 256 (Dafny's `%`). Every channel is a byte
      and is the corresponding bit field of the unsigned 32-bit pattern. */
  function ConvertARGBToColor(argb: Int32): (c: Argb)
    ensures ChannelsAreBytes(c)
    ensures c.alpha == Unsigned(argb) / 0x100_0000
    ensures c.red == Unsigned(argb) / 0x1_0000 % 0x100
    ensures c.green == Unsigned(argb) / 0x100 % 0x100
    ensures c.blue == Unsigned(argb) % 0x100
  {
    SignedShiftIsUnsignedShift(argb);
    Argb(argb / 0x100_0000 % 0x100, argb / 0x1_0000 % 0x100, argb / 0x100 % 0x100, argb % 0x100)
  }

  /** Adding 2^32 to a negative pattern moves the quotient by a whole number
      of 256s, so the low byte of the quotient is unchanged. */
  lemma WrapKeepsByte(x: int, d: int, k: int)
    requires d == 0x100 || d == 0x1_0000 || d == 0x100_0000
    requires k * d == 0x1_0000_0000
    ensures (x + 0x1_0000_0000) / d == x / d + k
    ensures ((x + 0x1_0000_0000) / d) % 0x100 == (x / d) % 0x100
  {
    var q, r := x / d, x % d;
    assert x + 0x1_0000_0000 == (q + k) * d + r;
    assert k % 0x100 == 0;
  }

  /** For the shifts the decoder uses, the signed and the unsigned reading of
      the same 32 bits agree on every byte they extract. */
  lemma SignedShiftIsUnsignedShift(argb: Int32)
    ensures argb / 0x100_0000 % 0x100 == Unsigned(argb) / 0x100_0000
    ensures argb / 0x1_0000 % 0x100 == Unsigned(argb) / 0x1_0000 % 0x100
    ensures argb / 0x100 % 0x100 == Unsigned(argb) / 0x100 % 0x100
    ensures argb % 0x100 == Unsigned(argb) % 0x100
  {
    if argb < 0 {
      WrapKeepsByte(argb, 0x100_0000, 0x100);
      WrapKeepsByte(argb, 0x1_0000, 0x1_0000);
      WrapKeepsByte(argb, 0x100, 0x100_0000);
    }
  }

  /** `(a << 24) | (r << 16) | (g << 8) | b` as an unsigned 32-bit value: for
      channels that are bytes the four shifted fields do not overlap, so the
      bitwise or is their sum. */
  function Compose(c: Argb): int {
    c.alpha * 0x100_0000 + c.red * 0x1_0000 + c.green * 0x100 + c.blue
  }

  /** Splitting a number below 2^32 into its four bytes and packing them again
      gives the number back. */
  lemma {:induction false} BytesRecompose(u: int)
    requires 0 <= u < 0x1_0000_0000
    ensures u / 0x100_0000 * 0x100_0000 + u / 0x1_0000 % 0x100 * 0x1_0000
            + u / 0x100 % 0x100 * 0x100 + u % 0x100 == u
  {
    var q8 := u / 0x100;
    var q16 := q8 / 0x100;
    var q24 := q16 / 0x100;
    assert u == q8 * 0x100 + u % 0x100;
    assert q8 == q16 * 0x100 + q8 % 0x100;
    assert q16 == q24 * 0x100 + q16 % 0x100;
    assert q16 == u / 0x1_0000;
    assert q24 == u / 0x100_0000;
  }

  /** Recomposing the decoded channels recovers the input as an unsigned
      32-bit value, and as a signed one once reinterpreted. */
  lemma {:induction false} ComposeAfterDecode(argb: Int32)
    ensures Compose(ConvertARGBToColor(argb)) == Unsigned(argb)
    ensures Signed(Compose(ConvertARGBToColor(argb))) == argb
  {
    BytesRecompose(Unsigned(argb));
  }

  /** Division by a field width splits a number into the part above the
      field and the field itself. */
  lemma SplitAt(hi: int, lo: int, d: int)
    requires d == 0x100 || d == 0x1_0000 || d == 0x100_0000
    requires 0 <= lo < d
    ensures (hi * d + lo) / d == hi
    ensures (hi * d + lo) % d == lo
  {
  }

  /** Decoding the packed value of four bytes gives the same four bytes back. */
  lemma {:induction false} DecodeAfterCompose(c: Argb)
    requires ChannelsAreBytes(c)
    ensures 0 <= Compose(c) < 0x1_0000_0000
    ensures ConvertARGBToColor(Signed(Compose(c))) == c
  {
    var u := Compose(c);
    var ar := c.alpha * 0x100 + c.red;
    var arg := ar * 0x100 + c.green;
    assert u == c.alpha * 0x100_0000 + (c.red * 0x1_0000 + c.green * 0x100 + c.blue);
    SplitAt(c.alpha, c.red * 0x1_0000 + c.green * 0x100 + c.blue, 0x100_0000);
    assert u == ar * 0x1_0000 + (c.green * 0x100 + c.blue);
    SplitAt(ar, c.green * 0x100 + c.blue, 0x1_0000);
    SplitAt(c.alpha, c.red, 0x100);
    assert u == arg * 0x100 + c.blue;
    SplitAt(arg, c.blue, 0x100);
    SplitAt(ar, c.green, 0x100);
  }

  /** Two colours decode to the same channels only if they are the same `int`. */
  lemma {:induction false} DecodeInjective(x: Int32, y: Int32)
    requires ConvertARGBToColor(x) == ConvertARGBToColor(y)
    ensures x == y
  {
    ComposeAfterDecode(x);
    ComposeAfterDecode(y);
  }
}
