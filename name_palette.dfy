/**
 * generateColorPalette: the palette derived from a name. Colour i is seeded by
 * the UTF-16 code unit at position i mod |name| plus 16 * i.
 */
module NamePalette {
  import opened Color

  /** A UTF-16 code unit, as `charCodeAt` returns it. */
  type CodeUnit = x: int | 0 <= x < 0x1_0000

  /** JavaScript's `%`: the remainder takes the sign of the dividend. */
  function JsRem(a: int, n: int): (r: int)
    requires n > 0
    ensures a >= 0 ==> r == a % n
    ensures a < 0 ==> -n < r <= 0
  {
    if a >= 0 then a % n else -((-a) % n)
  }

  function Seed(name: seq<CodeUnit>, i: nat): (s: int)
    requires |name| > 0
    ensures 16 * i <= s < 0x1_0000 + 16 * i
  {
    name[i % |name|] + 16 * i
  }

  /** Colour i of the palette for `name`: each channel is a byte. */
  function SeededColor(name: seq<CodeUnit>, i: nat): (c: Rgb)
    requires |name| > 0
    ensures InRange(c)
    ensures c.r == Seed(name, i) * 123 % 256
    ensures c.g == Seed(name, i) * 456 % 256
    ensures c.b == Seed(name, i) * 789 % 256
  {
    var seed := Seed(name, i);
    Rgb(JsRem(seed * 123, 256), JsRem(seed * 456, 256), JsRem(seed * 789, 256))
  }

  /** The first `n` colours for `name`, in the order the loop pushes them. */
  function SeededColors(name: seq<CodeUnit>, n: nat): (cs: seq<Rgb>)
    requires |name| > 0
    ensures |cs| == n
  {
    if n == 0 then [] else SeededColors(name, n - 1) + [SeededColor(name, n - 1)]
  }

  /** What generateColorPalette(name, n) returns: the texts of those colours. */
  function SeededPalette(name: seq<CodeUnit>, n: nat): (p: seq<string>)
    requires |name| > 0
    ensures |p| == n
  {
    Texts(SeededColors(name, n))
  }

  /** Models generateColorPalette(name, size). */
  method GenerateColorPalette(name: seq<CodeUnit>, size: int) returns (colors: seq<string>)
    requires |name| > 0
    ensures colors == SeededPalette(name, Count(size))
    ensures |colors| == Count(size)
    ensures forall i :: 0 <= i < |colors| ==> colors[i] == Format(SeededColor(name, i))
  {
    colors := [];
    for i := 0 to Count(size)
      invariant colors == SeededPalette(name, i)
    {
      var seed := name[i % |name|] + i * 16;
      var r := JsRem(seed * 123, 256);
      var g := JsRem(seed * 456, 256);
      var b := JsRem(seed * 789, 256);
      SeedChannels(name, i, seed);
      var color := Format(Rgb(r, g, b));
      TextsAppend(SeededColors(name, i), SeededColor(name, i));
      colors := colors + [color];
    }
    forall k | 0 <= k < |colors| ensures colors[k] == Format(SeededColor(name, k)) {
      SeededPaletteAt(name, Count(size), k);
    }
  }

  /** The loop's channel arithmetic is the colour seeded at i. */
  lemma SeedChannels(name: seq<CodeUnit>, i: nat, seed: int)
    requires |name| > 0 && seed == name[i % |name|] + i * 16
    ensures Rgb(JsRem(seed * 123, 256), JsRem(seed * 456, 256), JsRem(seed * 789, 256)) == SeededColor(name, i)
  {
  }

  /** Colour i is the one seeded at i, whatever the number of colours asked for. */
  lemma {:induction false} SeededColorsAt(name: seq<CodeUnit>, n: nat, i: nat)
    requires |name| > 0 && i < n
    ensures SeededColors(name, n)[i] == SeededColor(name, i)
  {
    if i < n - 1 {
      SeededColorsAt(name, n - 1, i);
    }
  }

  /** Element i of the palette is the text of the colour seeded at i. */
  lemma SeededPaletteAt(name: seq<CodeUnit>, n: nat, i: nat)
    requires |name| > 0 && i < n
    ensures SeededPalette(name, n)[i] == Format(SeededColor(name, i))
  {
    SeededColorsAt(name, n, i);
  }

  lemma {:induction false} SeededColorsPrefix(name: seq<CodeUnit>, n: nat, m: nat)
    requires |name| > 0 && n <= m
    ensures SeededColors(name, m)[..n] == SeededColors(name, n)
    decreases m
  {
    if n < m {
      SeededColorsPrefix(name, n, m - 1);
      var cs := SeededColors(name, m);
      assert cs[..m - 1] == SeededColors(name, m - 1);
      assert cs[..n] == cs[..m - 1][..n];
    }
  }

  /** Asking for fewer colours gives a prefix of the longer palette. */
  lemma SeededPalettePrefix(name: seq<CodeUnit>, n: nat, m: nat)
    requires |name| > 0 && n <= m
    ensures SeededPalette(name, m)[..n] == SeededPalette(name, n)
  {
    SeededColorsPrefix(name, n, m);
    TextsPrefix(SeededColors(name, m), n);
  }

  /** Every text of the palette names a colour with byte channels. */
  lemma {:induction false} SeededPaletteColorTexts(name: seq<CodeUnit>, n: nat)
    requires |name| > 0
    ensures forall i :: 0 <= i < n ==> IsColorText(SeededPalette(name, n)[i]) && IsByteText(SeededPalette(name, n)[i])
  {
    forall i | 0 <= i < n ensures IsColorText(SeededPalette(name, n)[i]) && IsByteText(SeededPalette(name, n)[i]) {
      SeededPaletteAt(name, n, i);
      FormattedIsColorText(SeededColor(name, i));
    }
  }

  lemma {:induction false} ProductAtLeast(m: int, d: int)
    requires m > 0 && d >= 1
    ensures m * d >= m
    decreases d
  {
    if d > 1 {
      ProductAtLeast(m, d - 1);
      assert m * d == m * (d - 1) + m;
    }
  }

  /** Division with remainder has one answer. */
  lemma RemainderUnique(x: int, m: int, k: int, r: int)
    requires m > 0 && 0 <= r < m && x == m * k + r
    ensures x % m == r
  {
    var k0, r0 := x / m, x % m;
    assert m * k0 + r0 == m * k + r;
    assert m * (k - k0) == r0 - r;
    if k > k0 {
      ProductAtLeast(m, k - k0);
    } else if k < k0 {
      ProductAtLeast(m, k0 - k);
    }
  }

  lemma ResidueShift(a: int, m: int, q: int)
    requires m > 0
    ensures (a + m * q) % m == a % m
  {
    assert a == m * (a / m) + a % m;
    assert a + m * q == m * (a / m + q) + a % m;
    RemainderUnique(a + m * q, m, a / m + q, a % m);
  }

  /**
   * Colours repeat with period 16 * |name|: the index comes back to the same
   * code unit and the seed grows by a multiple of 256.
   */
  lemma SeededColorPeriodic(name: seq<CodeUnit>, i: nat)
    requires |name| > 0
    ensures SeededColor(name, i + 16 * |name|) == SeededColor(name, i)
  {
    var L := |name|;
    var j := i + 16 * L;
    ResidueShift(i, L, 16);
    assert j % L == i % L;
    var s := Seed(name, i);
    assert Seed(name, j) == s + 256 * L;
    assert (s + 256 * L) * 123 == s * 123 + 256 * (L * 123);
    assert (s + 256 * L) * 456 == s * 456 + 256 * (L * 456);
    assert (s + 256 * L) * 789 == s * 789 + 256 * (L * 789);
    ResidueShift(s * 123, 256, L * 123);
    ResidueShift(s * 456, 256, L * 456);
    ResidueShift(s * 789, 256, L * 789);
  }

  lemma FormatOfDigits(c: Rgb, dr: string, dg: string, db: string)
    requires c.r >= 0 && c.g >= 0 && c.b >= 0
    requires NatToDecimal(c.r) == dr && NatToDecimal(c.g) == dg && NatToDecimal(c.b) == db
    ensures Format(c) == "rgb(" + dr + ", " + dg + ", " + db + ")"
  {
  }

  // The palette for "Ada" (code units 65, 100, 97): first the colours, then their texts.

  lemma AdaColors()
    ensures SeededColors([65, 100, 97], 4) ==
      [Rgb(59, 200, 85), Rgb(188, 160, 132), Rgb(251, 200, 149), Rgb(75, 72, 69)]
  {
    var ada: seq<CodeUnit> := [65, 100, 97];
    assert SeededColor(ada, 0) == Rgb(59, 200, 85);
    assert SeededColor(ada, 1) == Rgb(188, 160, 132);
    assert SeededColor(ada, 2) == Rgb(251, 200, 149);
    assert SeededColor(ada, 3) == Rgb(75, 72, 69);
  }

  lemma AdaText0()
    ensures Format(Rgb(59, 200, 85)) == "rgb(59, 200, 85)"
  {
    assert NatToDecimal(5) == "5";
    assert NatToDecimal(59) == "59";
    assert NatToDecimal(2) == "2";
    assert NatToDecimal(20) == "20";
    assert NatToDecimal(200) == "200";
    assert NatToDecimal(8) == "8";
    assert NatToDecimal(85) == "85";
    FormatOfDigits(Rgb(59, 200, 85), "59", "200", "85");
  }

  lemma AdaText1()
    ensures Format(Rgb(188, 160, 132)) == "rgb(188, 160, 132)"
  {
    assert NatToDecimal(1) == "1";
    assert NatToDecimal(18) == "18";
    assert NatToDecimal(188) == "188";
    assert NatToDecimal(16) == "16";
    assert NatToDecimal(160) == "160";
    assert NatToDecimal(13) == "13";
    assert NatToDecimal(132) == "132";
    FormatOfDigits(Rgb(188, 160, 132), "188", "160", "132");
  }

  lemma AdaText2()
    ensures Format(Rgb(251, 200, 149)) == "rgb(251, 200, 149)"
  {
    assert NatToDecimal(2) == "2";
    assert NatToDecimal(25) == "25";
    assert NatToDecimal(251) == "251";
    assert NatToDecimal(20) == "20";
    assert NatToDecimal(200) == "200";
    assert NatToDecimal(1) == "1";
    assert NatToDecimal(14) == "14";
    assert NatToDecimal(149) == "149";
    FormatOfDigits(Rgb(251, 200, 149), "251", "200", "149");
  }

  lemma AdaText3()
    ensures Format(Rgb(75, 72, 69)) == "rgb(75, 72, 69)"
  {
    assert NatToDecimal(7) == "7";
    assert NatToDecimal(75) == "75";
    assert NatToDecimal(72) == "72";
    assert NatToDecimal(6) == "6";
    assert NatToDecimal(69) == "69";
    FormatOfDigits(Rgb(75, 72, 69), "75", "72", "69");
  }

  /** The palette for "Ada" with four colours. */
  lemma AdaRegression()
    ensures SeededPalette([65, 100, 97], 4) ==
      ["rgb(59, 200, 85)", "rgb(188, 160, 132)", "rgb(251, 200, 149)", "rgb(75, 72, 69)"]
  {
    AdaColors();
    AdaText0();
    AdaText1();
    AdaText2();
    AdaText3();
  }
}
