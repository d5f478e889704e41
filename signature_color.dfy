/** `adjustColor` of src/app/tools/signature-maker/page.tsx: a `#rrggbb`
    colour is split into its red, green and blue channels, `amount` is
    added to each channel with the result clamped to 0..255, and the
    channels are written back as `#` and six lower-case hex digits.

    The integer steps follow JavaScript: `parseInt(hex, 16)` reads the
    leading run of hex digits (NaN when there is none), and `>>` and `&`
    first bring their operand to a signed 32-bit integer (NaN becomes 0). */
module SignatureColor {
  import opened Wrappers
  import opened Strings

  // ---------------------------------------------------------------------
  // Hex digits
  // ---------------------------------------------------------------------

  predicate IsHexDigit(c: char) {
    ('0' <= c <= '9') || ('a' <= c <= 'f') || ('A' <= c <= 'F')
  }

  predicate IsLowerHexDigit(c: char) {
    ('0' <= c <= '9') || ('a' <= c <= 'f')
  }

  function HexDigitValue(c: char): (d: nat)
    requires IsHexDigit(c)
    ensures d < 16
  {
    if '0' <= c <= '9' then c as int - '0' as int
    else if 'a' <= c <= 'f' then c as int - 'a' as int + 10
    else c as int - 'A' as int + 10
  }

  /** `Number.prototype.toString(16)` for one digit. */
  function HexChar(d: nat): (c: char)
    requires d < 16
    ensures IsLowerHexDigit(c) && HexDigitValue(c) == d
  {
    if d < 10 then ('0' as int + d) as char else ('a' as int + d - 10) as char
  }

  lemma HexCharOfValue(c: char)
    requires IsLowerHexDigit(c)
    ensures HexChar(HexDigitValue(c)) == c
  {
  }

  predicate AllHex(s: string) {
    forall i :: 0 <= i < |s| ==> IsHexDigit(s[i])
  }

  predicate AllLowerHex(s: string) {
    forall i :: 0 <= i < |s| ==> IsLowerHexDigit(s[i])
  }

  function Pow16(k: nat): (p: nat)
    ensures p >= 1
  {
    if k == 0 then 1 else 16 * Pow16(k - 1)
  }

  /** The number a string of hex digits stands for. */
  function HexValue(s: string): (v: nat)
    requires AllHex(s)
    ensures v < Pow16(|s|)
  {
    if s == [] then 0 else HexValue(s[..|s| - 1]) * 16 + HexDigitValue(s[|s| - 1])
  }

  lemma AllHexConcat(a: string, b: string)
    requires AllHex(a) && AllHex(b)
    ensures AllHex(a + b)
  {
    forall i | 0 <= i < |a + b| ensures IsHexDigit((a + b)[i]) {
      if i >= |a| {
        assert (a + b)[i] == b[i - |a|];
      }
    }
  }

  lemma ShiftStep(x: int, p: int, y: int, d: int)
    ensures (x * p + y) * 16 + d == x * (16 * p) + (y * 16 + d)
  {
  }

  lemma {:induction false} HexValueConcat(a: string, b: string)
    requires AllHex(a) && AllHex(b)
    ensures AllHex(a + b) && HexValue(a + b) == HexValue(a) * Pow16(|b|) + HexValue(b)
  {
    AllHexConcat(a, b);
    if b == [] {
      assert a + b == a;
    } else {
      var b' := b[..|b| - 1];
      var d := HexDigitValue(b[|b| - 1]);
      assert (a + b)[..|a + b| - 1] == a + b';
      assert (a + b)[|a + b| - 1] == b[|b| - 1];
      assert AllHex(b');
      HexValueConcat(a, b');
      assert HexValue(a + b) == HexValue(a + b') * 16 + d;
      assert HexValue(b) == HexValue(b') * 16 + d;
      ShiftStep(HexValue(a), Pow16(|b'|), HexValue(b'), d);
    }
  }

  /** Two lower-case spellings of one number with the same length are the
      same string. */
  lemma {:induction false} LowerHexUnique(a: string, b: string)
    requires AllLowerHex(a) && AllLowerHex(b) && |a| == |b|
    ensures AllHex(a) && AllHex(b)
    ensures HexValue(a) == HexValue(b) ==> a == b
  {
    assert AllHex(a) && AllHex(b) by {
      forall i | 0 <= i < |a| ensures IsHexDigit(a[i]) && IsHexDigit(b[i]) {
        assert IsLowerHexDigit(a[i]) && IsLowerHexDigit(b[i]);
      }
    }
    if a != [] && HexValue(a) == HexValue(b) {
      var a', b' := a[..|a| - 1], b[..|b| - 1];
      var da, db := HexDigitValue(a[|a| - 1]), HexDigitValue(b[|b| - 1]);
      assert HexValue(a') * 16 + da == HexValue(b') * 16 + db;
      DivMod16(HexValue(a'), da);
      DivMod16(HexValue(b'), db);
      assert da == db && HexValue(a') == HexValue(b');
      assert AllLowerHex(a') && AllLowerHex(b');
      LowerHexUnique(a', b');
      HexCharOfValue(a[|a| - 1]);
      HexCharOfValue(b[|b| - 1]);
      assert a == a' + [a[|a| - 1]] && b == b' + [b[|b| - 1]];
    }
  }

  lemma DivMod16(q: nat, r: nat)
    requires r < 16
    ensures (q * 16 + r) / 16 == q && (q * 16 + r) % 16 == r
  {
  }

  /** The hex digits of a number, lower case, without leading zeros. */
  function ToHex(n: nat): (s: string)
    ensures |s| >= 1 && AllLowerHex(s)
    decreases n
  {
    if n < 16 then [HexChar(n)] else ToHex(n / 16) + [HexChar(n % 16)]
  }

  lemma LowerIsHex(s: string)
    requires AllLowerHex(s)
    ensures AllHex(s)
  {
    forall i | 0 <= i < |s| ensures IsHexDigit(s[i]) {
      assert IsLowerHexDigit(s[i]);
    }
  }

  lemma {:induction false} ValueOfToHex(n: nat)
    ensures AllHex(ToHex(n)) && HexValue(ToHex(n)) == n
    decreases n
  {
    LowerIsHex(ToHex(n));
    if n >= 16 {
      var s := ToHex(n);
      ValueOfToHex(n / 16);
      assert s[..|s| - 1] == ToHex(n / 16);
    }
  }

  lemma {:induction false} ToHexLength(n: nat, k: nat)
    requires 1 <= k && n < Pow16(k)
    ensures |ToHex(n)| <= k
  {
    if n >= 16 {
      ToHexLength(n / 16, k - 1);
    }
  }

  function Zeros(m: nat): (s: string)
    ensures |s| == m && AllLowerHex(s)
  {
    if m == 0 then [] else Zeros(m - 1) + ['0']
  }

  lemma {:induction false} ZerosValue(m: nat)
    ensures AllHex(Zeros(m)) && HexValue(Zeros(m)) == 0
  {
    LowerIsHex(Zeros(m));
    if m > 0 {
      ZerosValue(m - 1);
      assert Zeros(m)[..m - 1] == Zeros(m - 1);
    }
  }

  /** `padStart(6, '0')`. */
  function PadStart6(s: string): (r: string)
    ensures |s| <= 6 ==> |r| == 6
    ensures |s| > 6 ==> r == s
  {
    if |s| >= 6 then s else Zeros(6 - |s|) + s
  }

  lemma PadKeepsValue(s: string)
    requires AllLowerHex(s)
    ensures AllLowerHex(PadStart6(s)) && AllHex(PadStart6(s)) && AllHex(s)
    ensures HexValue(PadStart6(s)) == HexValue(s)
  {
    LowerIsHex(s);
    if |s| < 6 {
      ZerosPrefixValue(6 - |s|, s);
    }
  }

  /** Leading zeros change neither the value nor the lower case. */
  lemma ZerosPrefixValue(m: nat, s: string)
    requires AllLowerHex(s)
    ensures AllLowerHex(Zeros(m) + s) && AllHex(Zeros(m) + s) && AllHex(s)
    ensures HexValue(Zeros(m) + s) == HexValue(s)
  {
    var z := Zeros(m);
    LowerIsHex(s);
    ZerosValue(m);
    HexValueConcat(z, s);
    LowerHexConcat(z, s);
    assert HexValue(z) * Pow16(|s|) == 0;
  }

  lemma LowerHexConcat(a: string, b: string)
    requires AllLowerHex(a) && AllLowerHex(b)
    ensures AllLowerHex(a + b)
  {
    forall i | 0 <= i < |a + b| ensures IsLowerHexDigit((a + b)[i]) {
      if i >= |a| {
        assert (a + b)[i] == b[i - |a|];
      }
    }
  }

  // ---------------------------------------------------------------------
  // JavaScript number steps
  // ---------------------------------------------------------------------

  function LeadingHexCount(s: string): (k: nat)
    ensures k <= |s| && AllHex(s[..k]) && (k < |s| ==> !IsHexDigit(s[k]))
  {
    if s == [] || !IsHexDigit(s[0]) then 0
    else
      var k := 1 + LeadingHexCount(s[1..]);
      assert s[..k] == [s[0]] + s[1..][..k - 1];
      k
  }

  /** `parseInt(s, 16)`, None standing for NaN. */
  function ParseHex(s: string): Option<nat> {
    var k := LeadingHexCount(s);
    if k == 0 then None else Some(HexValue(s[..k]))
  }

  /** ToInt32 of a non-negative integer. */
  function ToInt32(n: nat): (x: int)
    ensures -0x8000_0000 <= x < 0x8000_0000
    ensures n < 0x8000_0000 ==> x == n
  {
    var m := n % 0x1_0000_0000;
    if m >= 0x8000_0000 then m - 0x1_0000_0000 else m
  }

  function Clamp(x: int): (c: int)
    ensures 0 <= c <= 255
    ensures 0 <= x <= 255 ==> c == x
  {
    if x < 0 then 0 else if x > 255 then 255 else x
  }

  datatype Rgb = Rgb(r: int, g: int, b: int)

  predicate InRange(c: Rgb) {
    0 <= c.r <= 255 && 0 <= c.g <= 255 && 0 <= c.b <= 255
  }

  /** `num >> 16`, `(num >> 8) & 0xFF` and `num & 0xFF`; an arithmetic
      right shift is floor division and `&` with 0xFF the non-negative
      remainder. */
  function SourceChannels(color: string): Rgb {
    var x := match ParseHex(ReplaceFirst(color, "#", ""))
             case None => 0
             case Some(n) => ToInt32(n);
    Rgb(x / 0x1_0000, (x / 0x100) % 0x100, x % 0x100)
  }

  function AdjustedChannels(color: string, amount: int): (c: Rgb)
    ensures InRange(c)
  {
    var s := SourceChannels(color);
    Rgb(Clamp(s.r + amount), Clamp(s.g + amount), Clamp(s.b + amount))
  }

  /** `'#' + ((r << 16) | (g << 8) | b).toString(16).padStart(6, '0')`; for
      channels in 0..255 the or of the shifted channels is their sum. */
  function Encode(c: Rgb): string
    requires InRange(c)
  {
    "#" + PadStart6(ToHex(Packed(c)))
  }

  /** `(r << 16) | (g << 8) | b` for channels in 0..255. */
  function Packed(c: Rgb): nat
    requires InRange(c)
  {
    c.r * 0x1_0000 + c.g * 0x100 + c.b
  }

  function AdjustColor(color: string, amount: int): string {
    Encode(AdjustedChannels(color, amount))
  }

  // ---------------------------------------------------------------------
  // Properties
  // ---------------------------------------------------------------------

  /** A colour written as `#` and six hex digits. */
  predicate IsHexColor(s: string) {
    |s| == 7 && s[0] == '#' && AllHex(s[1..])
  }

  /** The channels a `#rrggbb` colour spells. */
  function Decode(s: string): Rgb
    requires IsHexColor(s)
  {
    assert AllHex(s[1..3]) && AllHex(s[3..5]) && AllHex(s[5..7]) by {
      assert forall i :: 0 <= i < 2 ==> s[1..3][i] == s[1..][i] && s[3..5][i] == s[1..][i + 2] && s[5..7][i] == s[1..][i + 4];
    }
    Rgb(HexValue(s[1..3]), HexValue(s[3..5]), HexValue(s[5..7]))
  }

  lemma Base256(a: int, b: int, c: int)
    requires 0 <= a <= 255 && 0 <= b <= 255 && 0 <= c <= 255
    ensures var v := a * 0x1_0000 + b * 0x100 + c;
            v / 0x1_0000 == a && (v / 0x100) % 0x100 == b && v % 0x100 == c
  {
    var v := a * 0x1_0000 + b * 0x100 + c;
    assert v == (a * 0x100 + b) * 0x100 + c;
    assert v / 0x100 == a * 0x100 + b;
    assert v == a * 0x1_0000 + (b * 0x100 + c);
  }

  /** The value of six hex digits, read as three two-digit groups. */
  lemma SixDigits(h: string)
    requires |h| == 6 && AllHex(h)
    ensures AllHex(h[..2]) && AllHex(h[2..4]) && AllHex(h[4..])
    ensures HexValue(h) == HexValue(h[..2]) * 0x1_0000 + HexValue(h[2..4]) * 0x100 + HexValue(h[4..])
  {
    var a, b, c := h[..2], h[2..4], h[4..];
    assert AllHex(a) && AllHex(b) && AllHex(c) by {
      assert forall i :: 0 <= i < 2 ==> a[i] == h[i] && b[i] == h[i + 2] && c[i] == h[i + 4];
    }
    assert h == (a + b) + c;
    assert Pow16(2) == 0x100 by {
      assert Pow16(1) == 16;
    }
    HexValueConcat(a, b);
    HexValueConcat(a + b, c);
    Regroup(HexValue(a), HexValue(b), HexValue(c));
  }

  lemma Regroup(x: int, y: int, z: int)
    ensures (x * 0x100 + y) * 0x100 + z == x * 0x1_0000 + y * 0x100 + z
  {
  }

  lemma PowFacts()
    ensures Pow16(2) == 0x100 && Pow16(6) == 0x100_0000
  {
    assert Pow16(1) == 16;
    assert Pow16(4) == Pow16(2) * Pow16(2) by {
      assert Pow16(3) == 16 * Pow16(2);
    }
  }

  lemma PackedBound(c: Rgb)
    requires InRange(c)
    ensures Packed(c) < 0x100_0000
  {
  }

  /** Distinct channel triples pack to distinct values. */
  lemma PackedInjective(c: Rgb, d: Rgb)
    requires InRange(c) && InRange(d) && Packed(c) == Packed(d)
    ensures c == d
  {
    Base256(c.r, c.g, c.b);
    Base256(d.r, d.g, d.b);
  }

  /** The result is always `#` and six lower-case hex digits. */
  lemma EncodeShape(c: Rgb)
    requires InRange(c)
    ensures |Encode(c)| == 7 && Encode(c)[0] == '#' && AllLowerHex(Encode(c)[1..])
    ensures AllHex(Encode(c)[1..]) && HexValue(Encode(c)[1..]) == Packed(c)
  {
    var v := Packed(c);
    PackedBound(c);
    PowFacts();
    ToHexLength(v, 6);
    ValueOfToHex(v);
    PadKeepsValue(ToHex(v));
    assert Encode(c)[1..] == PadStart6(ToHex(v));
  }

  /** The six digits of a `#rrggbb` colour are its packed channels. */
  lemma DecodePacked(s: string)
    requires IsHexColor(s)
    ensures InRange(Decode(s)) && HexValue(s[1..]) == Packed(Decode(s))
  {
    var h := s[1..];
    SixDigits(h);
    PowFacts();
    assert h[..2] == s[1..3] && h[2..4] == s[3..5] && h[4..] == s[5..7];
  }

  /** Reading the result back gives the channels that were written. */
  lemma DecodeEncode(c: Rgb)
    requires InRange(c)
    ensures IsHexColor(Encode(c)) && Decode(Encode(c)) == c
  {
    EncodeShape(c);
    var e := Encode(c);
    DecodePacked(e);
    PackedInjective(Decode(e), c);
  }

  /** For `#rrggbb` the channels are the three digit pairs. */
  lemma ValidColorChannels(color: string)
    requires IsHexColor(color)
    ensures SourceChannels(color) == Decode(color)
  {
    var h := color[1..];
    assert MatchAt(color, "#", 0);
    assert ReplaceFirst(color, "#", "") == h;
    assert LeadingHexCount(h) == 6;
    assert h[..6] == h;
    DecodePacked(color);
    var d := Decode(color);
    Base256(d.r, d.g, d.b);
  }

  /** Each channel of a `#rrggbb` colour moves by `amount` and is clamped. */
  lemma AdjustsEachChannel(color: string, amount: int)
    requires IsHexColor(color)
    ensures var d := Decode(color);
            var e := AdjustColor(color, amount);
            IsHexColor(e) && AllLowerHex(e[1..]) &&
            Decode(e) == Rgb(Clamp(d.r + amount), Clamp(d.g + amount), Clamp(d.b + amount))
  {
    ValidColorChannels(color);
    EncodeShape(AdjustedChannels(color, amount));
    DecodeEncode(AdjustedChannels(color, amount));
  }

  /** A larger amount never gives a darker channel. */
  lemma AdjustMonotone(color: string, a1: int, a2: int)
    requires a1 <= a2
    ensures var c1, c2 := AdjustedChannels(color, a1), AdjustedChannels(color, a2);
            c1.r <= c2.r && c1.g <= c2.g && c1.b <= c2.b
  {
  }

  /** The lower-case spelling of a hex string. */
  function LowerHex(h: string): (r: string)
    requires AllHex(h)
    ensures |r| == |h| && AllLowerHex(r)
  {
    seq(|h|, i requires 0 <= i < |h| => HexChar(HexDigitValue(h[i])))
  }

  lemma {:induction false} LowerHexValue(h: string)
    requires AllHex(h)
    ensures AllHex(LowerHex(h)) && HexValue(LowerHex(h)) == HexValue(h)
  {
    LowerIsHex(LowerHex(h));
    if h != [] {
      var h' := h[..|h| - 1];
      LowerHexValue(h');
      assert LowerHex(h)[..|h| - 1] == LowerHex(h');
    }
  }

  /** Colours with the same channels have the same six-digit value. */
  lemma SameChannelsSameValue(x: string, y: string)
    requires IsHexColor(x) && IsHexColor(y) && Decode(x) == Decode(y)
    ensures HexValue(x[1..]) == HexValue(y[1..])
  {
    DecodePacked(x);
    DecodePacked(y);
  }

  /** Adjusting by 0 only lower-cases the colour. */
  lemma AdjustByZero(color: string)
    requires IsHexColor(color)
    ensures AdjustColor(color, 0) == "#" + LowerHex(color[1..])
  {
    var h := color[1..];
    AdjustsEachChannel(color, 0);
    var e := AdjustColor(color, 0);
    assert Decode(e) == Decode(color);
    SameChannelsSameValue(e, color);
    LowerHexValue(h);
    LowerHexUnique(e[1..], LowerHex(h));
    assert e == [e[0]] + e[1..];
  }
}
