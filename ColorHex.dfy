/** Decoding a "#RRGGBB" string into integer colour channels (the integer
    part of `Color(hex:)` in Color+Hex.swift): trim what is not alphanumeric
    from both ends, scan a hexadecimal number, and split it into three bytes
    when exactly six characters remain. */
module ColorHex {
  import opened Lists
  import Decimal

  datatype Rgb = Rgb(r: int, g: int, b: int)

  predicate IsAlphanumeric(c: char)
  {
    ('0' <= c <= '9') || ('a' <= c <= 'z') || ('A' <= c <= 'Z')
  }

  predicate NotAlphanumeric(c: char) { !IsAlphanumeric(c) }

  predicate IsHexDigit(c: char)
  {
    ('0' <= c <= '9') || ('a' <= c <= 'f') || ('A' <= c <= 'F')
  }

  predicate AllHex(s: string) { forall i :: 0 <= i < |s| ==> IsHexDigit(s[i]) }

  function HexDigitValue(c: char): (v: nat)
    requires IsHexDigit(c)
    ensures v < 16
  {
    if '0' <= c <= '9' then c as nat - '0' as nat
    else if 'a' <= c <= 'f' then c as nat - 'a' as nat + 10
    else c as nat - 'A' as nat + 10
  }

  /** The value of a string of hexadecimal digits, read from the left. */
  function HexValue(s: string): (v: nat)
    requires AllHex(s)
  {
    if s == [] then 0 else HexValue(s[..|s| - 1]) * 16 + HexDigitValue(s[|s| - 1])
  }

  /** The longest prefix of `s` made of hexadecimal digits. */
  function HexPrefix(s: string): (p: string)
    ensures |p| <= |s| && AllHex(p) && p == s[..|p|]
    ensures |p| < |s| ==> !IsHexDigit(s[|p|])
    ensures AllHex(s) ==> p == s
  {
    if s == [] || !IsHexDigit(s[0]) then [] else [s[0]] + HexPrefix(s[1..])
  }

  /** `Scanner.scanHexInt64`: an optional "0x" or "0X", then as many
      hexadecimal digits as there are; with no digit the scan fails and the
      target keeps its initial 0. */
  function ScanHex(s: string): (v: nat)
    ensures AllHex(s) ==> v == HexValue(s)
  {
    var body := if |s| >= 2 && s[0] == '0' && (s[1] == 'x' || s[1] == 'X') then s[2..] else s;
    HexValue(HexPrefix(body))
  }

  /** `(v >> shift) & 0xFF` on a non-negative value. */
  function Byte(v: nat, shift: nat): (b: nat)
    ensures b < 256
  {
    (v / Pow2(shift)) % 256
  }

  function Pow2(k: nat): (p: nat)
    ensures p >= 1
  {
    if k == 0 then 1 else 2 * Pow2(k - 1)
  }

  /** The channels `Color(hex:)` computes before scaling them to [0, 1]. */
  function Channels(hex: string): (c: Rgb)
    ensures 0 <= c.r < 256 && 0 <= c.g < 256 && 0 <= c.b < 256
    ensures |Trim(hex, NotAlphanumeric)| != 6 ==> c == Rgb(0, 0, 0)
  {
    var t := Trim(hex, NotAlphanumeric);
    if |t| == 6 then
      var v := ScanHex(t);
      Rgb(Byte(v, 16), Byte(v, 8), Byte(v, 0))
    else
      Rgb(0, 0, 0)
  }

  // ---------------------------------------------------------------- lemmas

  lemma {:induction false} HexValueAppend(a: string, b: string)
    requires AllHex(a) && AllHex(b)
    ensures AllHex(a + b)
    ensures HexValue(a + b) == HexValue(a) * Pow16(|b|) + HexValue(b)
  {
    if b == [] {
      assert a + b == a;
    } else {
      var init, ch := b[..|b| - 1], b[|b| - 1];
      assert b == init + [ch];
      assert a + b == (a + init) + [ch];
      HexValueAppend(a, init);
      HexSnoc(a + init, ch);
      HexSnoc(init, ch);
      ShiftHexDigit(HexValue(a), Pow16(|init|), HexValue(init), HexDigitValue(ch));
    }
  }

  /** Appending one digit multiplies by sixteen and adds the digit. */
  lemma HexSnoc(s: string, ch: char)
    requires AllHex(s) && IsHexDigit(ch)
    ensures AllHex(s + [ch]) && HexValue(s + [ch]) == HexValue(s) * 16 + HexDigitValue(ch)
  {
    var t := s + [ch];
    assert t[..|t| - 1] == s;
  }

  /** The arithmetic of appending one hexadecimal digit. */
  lemma ShiftHexDigit(pa: int, q: int, pb: int, d: int)
    ensures (pa * q + pb) * 16 + d == pa * (q * 16) + (pb * 16 + d)
  {
    Decimal.MulAssoc(pa, q, 16);
  }

  function Pow16(k: nat): (p: nat)
    ensures p >= 1
  {
    if k == 0 then 1 else 16 * Pow16(k - 1)
  }

  /** Two hexadecimal digits make one byte. */
  lemma PairValue(s: string)
    requires |s| == 2 && AllHex(s)
    ensures HexValue(s) < 256
    ensures HexValue(s) == HexDigitValue(s[0]) * 16 + HexDigitValue(s[1])
  {
    assert s[..1][..0] == [];
    assert HexValue(s[..1]) == HexDigitValue(s[0]);
    assert HexValue(s) == HexDigitValue(s[0]) * 16 + HexDigitValue(s[1]);
  }

  /** A six-digit value splits into its three digit pairs. */
  lemma SixDigits(t: string)
    requires |t| == 6 && AllHex(t)
    ensures HexValue(t) == HexValue(t[..2]) * 65536 + HexValue(t[2..4]) * 256 + HexValue(t[4..])
  {
    var x, y, z := t[..2], t[2..4], t[4..];
    assert x + y == t[..4];
    assert t[..4] + z == t;
    AppendPair(x, y);
    AppendPair(t[..4], z);
    ThreeBytes(HexValue(x), HexValue(y), HexValue(z));
  }

  /** Appending two hexadecimal digits shifts the value by one byte. */
  lemma AppendPair(a: string, b: string)
    requires AllHex(a) && AllHex(b) && |b| == 2
    ensures AllHex(a + b) && HexValue(a + b) == HexValue(a) * 256 + HexValue(b)
  {
    HexValueAppend(a, b);
    assert Pow16(2) == 256;
  }

  lemma ThreeBytes(a: int, b: int, c: int)
    ensures (a * 256 + b) * 256 + c == a * 65536 + b * 256 + c
  {
  }

  /** For six hexadecimal digits (after trimming), red, green and blue are
      the values of the first, second and third digit pairs. */
  lemma SixDigitChannels(hex: string)
    requires |Trim(hex, NotAlphanumeric)| == 6 && AllHex(Trim(hex, NotAlphanumeric))
    ensures var t := Trim(hex, NotAlphanumeric);
      Channels(hex) == Rgb(HexValue(t[..2]), HexValue(t[2..4]), HexValue(t[4..]))
  {
    var t := Trim(hex, NotAlphanumeric);
    ChannelsOfValue(hex);
    SixDigits(t);
    PairValue(t[..2]);
    PairValue(t[2..4]);
    PairValue(t[4..]);
    ByteSplit(HexValue(t[..2]), HexValue(t[2..4]), HexValue(t[4..]));
  }

  lemma ChannelsOfValue(hex: string)
    requires |Trim(hex, NotAlphanumeric)| == 6 && AllHex(Trim(hex, NotAlphanumeric))
    ensures var v := HexValue(Trim(hex, NotAlphanumeric));
      Channels(hex) == Rgb(Byte(v, 16), Byte(v, 8), Byte(v, 0))
  {
  }

  /** Shifting and masking a value built from three bytes recovers each byte. */
  lemma ByteSplit(r: nat, g: nat, b: nat)
    requires r < 256 && g < 256 && b < 256
    ensures var v := r * 65536 + g * 256 + b;
      Byte(v, 16) == r && Byte(v, 8) == g && Byte(v, 0) == b
  {
    var v := r * 65536 + g * 256 + b;
    assert Pow2(0) == 1;
    assert Pow2(8) == 256;
    assert Pow2(16) == 65536 by { assert Pow2(16) == Pow2(8) * 256 by { Pow2Add(8, 8); } }
    assert v / 65536 == r;
    assert v / 256 == r * 256 + g;
  }

  lemma {:induction false} Pow2Add(a: nat, b: nat)
    ensures Pow2(a + b) == Pow2(a) * Pow2(b)
  {
    if b > 0 {
      Pow2Add(a, b - 1);
      assert Pow2(a + b) == 2 * Pow2(a + (b - 1));
      assert Pow2(b) == 2 * Pow2(b - 1);
      DoubleFactor(Pow2(a), Pow2(b - 1));
    }
  }

  lemma DoubleFactor(p: int, q: int)
    ensures 2 * (p * q) == p * (2 * q)
  {
  }

  /** A "#" followed by six hexadecimal digits decodes to the three digit pairs. */
  lemma HashPrefixedChannels(t: string)
    requires |t| == 6 && AllHex(t)
    ensures Channels("#" + t) == Rgb(HexValue(t[..2]), HexValue(t[2..4]), HexValue(t[4..]))
  {
    var hex := "#" + t;
    assert hex[1..] == t;
    assert TrimStart(hex, NotAlphanumeric) == t;
    assert TrimEnd(t, NotAlphanumeric) == t;
    SixDigitChannels(hex);
  }

  /** "#" followed by three hexadecimal digit pairs decodes to the pairs' values. */
  lemma PairsChannels(x: string, y: string, z: string)
    requires |x| == 2 && |y| == 2 && |z| == 2 && AllHex(x) && AllHex(y) && AllHex(z)
    ensures Channels("#" + x + y + z) == Rgb(HexValue(x), HexValue(y), HexValue(z))
  {
    var t := x + y + z;
    assert "#" + x + y + z == "#" + t;
    assert t[..2] == x && t[2..4] == y && t[4..] == z;
    HashPrefixedChannels(t);
  }

  /** "#FFA0B9", the main pink of the palette, is (255, 160, 185). */
  lemma MainPinkChannels()
    ensures Channels("#FFA0B9") == Rgb(255, 160, 185)
  {
    assert "#FFA0B9" == "#" + "FF" + "A0" + "B9";
    MainPinkPairs();
    PairsChannels("FF", "A0", "B9");
  }

  lemma MainPinkPairs()
    ensures AllHex("FF") && AllHex("A0") && AllHex("B9")
    ensures HexValue("FF") == 255 && HexValue("A0") == 160 && HexValue("B9") == 185
  {
    PairValue("FF");
    PairValue("A0");
    PairValue("B9");
  }
}
