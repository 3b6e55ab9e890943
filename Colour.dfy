/** The hex colour helpers `componentToHex`, `rgbToHex` and `hexToRgb`
    (src/aJS-v0.1.js:24-38), on integer channels. */
module Colour {
  import opened Js

  datatype Rgb = Rgb(r: int, g: int, b: int)

  /** The lowercase hexadecimal digit for 0 <= d < 16. */
  function HexDigit(d: nat): (c: char)
    requires d < 16
  {
    if d < 10 then ('0' as int + d) as char else ('a' as int + d - 10) as char
  }

  /** `n.toString(16)` for a natural number: lowercase digits, no padding. */
  function NatToHex(n: nat): (r: string)
    ensures |r| > 0
  {
    if n < 16 then [HexDigit(n)] else NatToHex(n / 16) + [HexDigit(n % 16)]
  }

  /** `c.toString(16)` for an integer. */
  function IntToHex(c: int): string
  {
    if c < 0 then "-" + NatToHex(-c) else NatToHex(c)
  }

  /** `componentToHex`: a one-character result is padded with a leading "0". */
  function ComponentToHex(c: int): string
  {
    var hex := IntToHex(c);
    if |hex| == 1 then "0" + hex else hex
  }

  /** `rgbToHex`. */
  function RgbToHex(r: int, g: int, b: int): string
  {
    "#" + ComponentToHex(r) + ComponentToHex(g) + ComponentToHex(b)
  }

  /** The value of a character the class `[a-f\d]` accepts under the `i`
      flag, or None. */
  function HexValue(c: char): (v: Option<nat>)
    ensures v.Some? ==> v.value < 16
  {
    if '0' <= c <= '9' then Some(c as int - '0' as int)
    else if 'a' <= c <= 'f' then Some(c as int - 'a' as int + 10)
    else if 'A' <= c <= 'F' then Some(c as int - 'A' as int + 10)
    else None
  }

  predicate IsHexDigit(c: char) {
    HexValue(c).Some?
  }

  /** `parseInt(s, 16)` of two hex digits. */
  function PairValue(s: string, i: nat): (v: nat)
    requires i + 1 < |s| && IsHexDigit(s[i]) && IsHexDigit(s[i + 1])
    ensures v < 256
  {
    16 * HexValue(s[i]).value + HexValue(s[i + 1]).value
  }

  /** Six characters the class `[a-f\d]` accepts under the `i` flag. */
  predicate SixHexDigits(d: string) {
    |d| == 6 && forall i :: 0 <= i < 6 ==> IsHexDigit(d[i])
  }

  /** `hex` without its optional leading `#`. */
  function HexBody(hex: string): (body: string)
    ensures hex == body || hex == "#" + body
  {
    if |hex| > 0 && hex[0] == '#' then hex[1..] else hex
  }

  /** `hexToRgb`: the regular expression `^#?([a-f\d]{2})([a-f\d]{2})([a-f\d]{2})$`
      with the `i` flag, and `parseInt(·, 16)` of each pair; null otherwise. */
  function HexToRgb(hex: string): Option<Rgb>
  {
    var body := HexBody(hex);
    if SixHexDigits(body)
    then Some(Rgb(PairValue(body, 0), PairValue(body, 2), PairValue(body, 4)))
    else None
  }

  /** The strings the pattern accepts: an optional `#`, then exactly six hex
      digits of either case. */
  ghost predicate IsHexColour(s: string) {
    exists p: string, d: string :: (p == "" || p == "#") && s == p + d && SixHexDigits(d)
  }

  /** `hexToRgb` returns a colour exactly for the accepted strings, and its
      channels are bytes. */
  lemma HexToRgbAccepts(s: string)
    ensures HexToRgb(s).Some? <==> IsHexColour(s)
    ensures HexToRgb(s).Some? ==> 0 <= HexToRgb(s).value.r < 256 && 0 <= HexToRgb(s).value.g < 256
                                  && 0 <= HexToRgb(s).value.b < 256
  {
    var body := HexBody(s);
    if HexToRgb(s).Some? {
      var p := if s == body then "" else "#";
      assert s == p + body;
    }
    if IsHexColour(s) {
      var p: string, d: string :| (p == "" || p == "#") && s == p + d && SixHexDigits(d);
      if p == "#" {
        assert body == d;
      } else {
        assert s == d;
        assert !IsHexDigit('#');
        assert body == d;
      }
    }
  }

  /** For a byte, `componentToHex` gives exactly two lowercase digits: the
      high and the low nibble. */
  lemma ComponentToHexByte(c: int)
    requires 0 <= c < 256
    ensures ComponentToHex(c) == [HexDigit(c / 16), HexDigit(c % 16)]
  {
    if c >= 16 {
      assert NatToHex(c) == NatToHex(c / 16) + [HexDigit(c % 16)];
      assert NatToHex(c / 16) == [HexDigit(c / 16)];
    }
  }

  lemma HexDigitValue(d: nat)
    requires d < 16
    ensures HexValue(HexDigit(d)) == Some(d)
    ensures 'a' <= HexDigit(d) <= 'f' || '0' <= HexDigit(d) <= '9'
  {
  }

  /** For channels in 0..255, `rgbToHex` writes `#` and six lowercase hex
      digits, two per channel, high nibble first. */
  lemma RgbToHexFormat(r: int, g: int, b: int)
    requires 0 <= r < 256 && 0 <= g < 256 && 0 <= b < 256
    ensures RgbToHex(r, g, b) ==
      ['#', HexDigit(r / 16), HexDigit(r % 16), HexDigit(g / 16), HexDigit(g % 16), HexDigit(b / 16), HexDigit(b % 16)]
  {
    ComponentToHexByte(r);
    ComponentToHexByte(g);
    ComponentToHexByte(b);
  }

  /** Two digits written for a byte read back as that byte. */
  lemma PairRoundTrip(s: string, i: nat, x: int)
    requires 0 <= x < 256 && i + 1 < |s| && s[i] == HexDigit(x / 16) && s[i + 1] == HexDigit(x % 16)
    ensures IsHexDigit(s[i]) && IsHexDigit(s[i + 1]) && PairValue(s, i) == x
  {
    HexDigitValue(x / 16);
    HexDigitValue(x % 16);
  }

  /** `hexToRgb` undoes `rgbToHex` on bytes. */
  lemma HexRoundTrip(r: int, g: int, b: int)
    requires 0 <= r < 256 && 0 <= g < 256 && 0 <= b < 256
    ensures HexToRgb(RgbToHex(r, g, b)) == Some(Rgb(r, g, b))
  {
    RgbToHexFormat(r, g, b);
    var s := RgbToHex(r, g, b);
    var body := s[1..];
    assert HexBody(s) == body;
    PairRoundTrip(body, 0, r);
    PairRoundTrip(body, 2, g);
    PairRoundTrip(body, 4, b);
    assert SixHexDigits(body);
  }

  /** A channel outside 0..255 breaks the six-digit form: 256 prints as
      "100", so the colour is no longer one `hexToRgb` accepts. */
  lemma RgbToHexOutOfRange()
    ensures RgbToHex(256, 0, 0) == "#1000000"
    ensures HexToRgb(RgbToHex(256, 0, 0)).None?
  {
    assert NatToHex(256) == NatToHex(16) + [HexDigit(0)];
    assert NatToHex(16) == NatToHex(1) + [HexDigit(0)];
  }
}
