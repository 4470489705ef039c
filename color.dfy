/**
 * A colour of the palette and its CSS text form `rgb(r, g, b)`, as written by
 * the template literals of generateColorPalette and generateRandomColorPalette.
 * The parser is the inverse of the formatting: the text of a colour names
 * exactly that colour.
 */
module Color {
  import opened Wrappers

  datatype Rgb = Rgb(r: int, g: int, b: int)

  /** Every channel is a byte value. */
  predicate InRange(c: Rgb) {
    0 <= c.r <= 255 && 0 <= c.g <= 255 && 0 <= c.b <= 255
  }

  predicate IsDigit(ch: char) { '0' <= ch <= '9' }

  predicate AllDigits(s: string) { forall i :: 0 <= i < |s| ==> IsDigit(s[i]) }

  function DigitChar(d: nat): (ch: char)
    requires d < 10
    ensures IsDigit(ch) && ch as int - '0' as int == d
  {
    ('0' as int + d) as char
  }

  /** Decimal digits of `n`, most significant first, without leading zeros. */
  function NatToDecimal(n: nat): (s: string)
    ensures |s| > 0 && AllDigits(s)
    ensures s[0] == '0' ==> n == 0
    decreases n
  {
    if n < 10 then [DigitChar(n)] else NatToDecimal(n / 10) + [DigitChar(n % 10)]
  }

  /** The number a digit string denotes. */
  function DecimalValue(s: string): nat
    requires AllDigits(s)
  {
    if s == [] then 0 else DecimalValue(s[..|s| - 1]) * 10 + (s[|s| - 1] as int - '0' as int)
  }

  lemma {:induction false} DecimalRoundTrip(n: nat)
    ensures DecimalValue(NatToDecimal(n)) == n
    decreases n
  {
    if n >= 10 {
      var s := NatToDecimal(n);
      assert s[..|s| - 1] == NatToDecimal(n / 10);
      DecimalRoundTrip(n / 10);
    }
  }

  /**
   * How JavaScript writes an integral number in a template literal, for
   * magnitudes below 10^21 (larger ones are written in exponent form, which
   * no colour channel reaches).
   */
  function IntToDecimal(n: int): (s: string)
    ensures n >= 0 ==> AllDigits(s) && DecimalValue(s) == n
    ensures n < 0 ==> |s| > 1 && s[0] == '-' && AllDigits(s[1..]) && DecimalValue(s[1..]) == -n
  {
    if n < 0 then
      var d := NatToDecimal(-n);
      DecimalRoundTrip(-n);
      assert ("-" + d)[1..] == d;
      "-" + d
    else
      DecimalRoundTrip(n);
      NatToDecimal(n)
  }

  /**
   * How many times `for (let i = 0; i < size; i++)` runs: the length of the
   * palettes of both generators.
   */
  function Count(size: int): (n: nat)
    ensures size <= 0 ==> n == 0
    ensures size > 0 ==> n == size
  {
    if size > 0 then size else 0
  }

  /** The CSS colour text `rgb(r, g, b)`. */
  function Format(c: Rgb): string {
    "rgb(" + IntToDecimal(c.r) + ", " + IntToDecimal(c.g) + ", " + IntToDecimal(c.b) + ")"
  }

  /** The texts of a list of colours. */
  function Texts(cs: seq<Rgb>): (ts: seq<string>)
    ensures |ts| == |cs|
    ensures forall i :: 0 <= i < |cs| ==> ts[i] == Format(cs[i])
  {
    seq(|cs|, i requires 0 <= i < |cs| => Format(cs[i]))
  }

  lemma TextsAppend(cs: seq<Rgb>, c: Rgb)
    ensures Texts(cs + [c]) == Texts(cs) + [Format(c)]
  {
  }

  lemma TextsPrefix(cs: seq<Rgb>, n: nat)
    requires n <= |cs|
    ensures Texts(cs)[..n] == Texts(cs[..n])
  {
  }

  /** Length of the longest run of digits at the start of `s`. */
  function DigitRun(s: string): (k: nat)
    ensures k <= |s| && AllDigits(s[..k])
    ensures k < |s| ==> !IsDigit(s[k])
  {
    if s != [] && IsDigit(s[0]) then
      var k := 1 + DigitRun(s[1..]);
      assert s[..k] == [s[0]] + s[1..][..k - 1];
      k
    else 0
  }

  /** Reads an optional minus sign and a non-empty run of digits at the start of `s`. */
  function ParseInt(s: string): (r: Option<(int, string)>)
    ensures r.Some? ==> |r.value.1| < |s|
  {
    if s != [] && s[0] == '-' then
      var k := DigitRun(s[1..]);
      if k == 0 then None else Some((-(DecimalValue(s[1..][..k]) as int), s[1..][k..]))
    else
      var k := DigitRun(s);
      if k == 0 then None else Some((DecimalValue(s[..k]), s[k..]))
  }

  /** Consumes the literal `lit` at the start of `s`. */
  function Expect(lit: string, s: string): (r: Option<string>)
    ensures r.Some? <==> lit <= s
    ensures r.Some? ==> s == lit + r.value
  {
    if |lit| <= |s| && s[..|lit|] == lit then Some(s[|lit|..]) else None
  }

  /** Reads a channel value followed by the literal `sep`. */
  function ParseChannel(sep: string, s: string): (r: Option<(int, string)>)
    ensures r.Some? ==> |r.value.1| < |s|
  {
    var (n, rest) :- ParseInt(s);
    var after :- Expect(sep, rest);
    Some((n, after))
  }

  /** Reads one colour text at the start of `s` and returns it with the rest of `s`. */
  function ParseRgbPrefix(s: string): (r: Option<(Rgb, string)>)
    ensures r.Some? ==> |r.value.1| < |s|
  {
    var s1 :- Expect("rgb(", s);
    var (red, s2) :- ParseChannel(", ", s1);
    var (green, s3) :- ParseChannel(", ", s2);
    var (blue, s4) :- ParseChannel(")", s3);
    Some((Rgb(red, green, blue), s4))
  }

  /** Reads a whole colour text. */
  function ParseRgb(s: string): Option<Rgb> {
    var (c, rest) :- ParseRgbPrefix(s);
    if rest == [] then Some(c) else None
  }

  /** `s` reads as a colour whose channels are bytes. */
  predicate IsColorText(s: string) {
    ParseRgb(s).Some? && InRange(ParseRgb(s).value)
  }

  /** `s` is exactly the text `rgb(r, g, b)` written for some colour with byte channels. */
  ghost predicate IsByteText(s: string) {
    exists c :: InRange(c) && s == Format(c)
  }

  lemma {:induction false} DigitRunOfDigits(d: string, t: string)
    requires AllDigits(d)
    requires t == [] || !IsDigit(t[0])
    ensures DigitRun(d + t) == |d|
    decreases |d|
  {
    if d != [] {
      assert (d + t)[1..] == d[1..] + t;
      DigitRunOfDigits(d[1..], t);
    } else {
      assert d + t == t;
    }
  }

  lemma ParseIntOfDecimal(n: int, t: string)
    requires t == [] || !IsDigit(t[0])
    ensures ParseInt(IntToDecimal(n) + t) == Some((n, t))
  {
    if n < 0 {
      var d := NatToDecimal(-n);
      var s := "-" + d + t;
      assert s[1..] == d + t;
      DigitRunOfDigits(d, t);
      assert s[1..][..|d|] == d && s[1..][|d|..] == t;
      DecimalRoundTrip(-n);
    } else {
      var d := NatToDecimal(n);
      var s := d + t;
      assert s[0] == d[0] && IsDigit(d[0]);
      DigitRunOfDigits(d, t);
      assert s[..|d|] == d && s[|d|..] == t;
      DecimalRoundTrip(n);
    }
  }

  lemma ExpectLiteral(lit: string, t: string)
    ensures Expect(lit, lit + t) == Some(t)
  {
    assert (lit + t)[..|lit|] == lit;
  }

  lemma ParseChannelOfDecimal(n: int, sep: string, t: string)
    requires sep != [] && !IsDigit(sep[0])
    ensures ParseChannel(sep, IntToDecimal(n) + (sep + t)) == Some((n, t))
  {
    ParseIntOfDecimal(n, sep + t);
    ExpectLiteral(sep, t);
  }

  lemma Regroup(a: string, b: string, c: string, d: string, e: string, f: string, g: string, t: string)
    ensures a + b + c + d + e + f + g + t == a + (b + (c + (d + (e + (f + (g + t))))))
  {
  }

  /** Reading a colour back from its text, followed by anything, gives the colour and that rest. */
  lemma FormatThenParsePrefix(c: Rgb, t: string)
    ensures ParseRgbPrefix(Format(c) + t) == Some((c, t))
  {
    var s3 := IntToDecimal(c.b) + (")" + t);
    var s2 := IntToDecimal(c.g) + (", " + s3);
    var s1 := IntToDecimal(c.r) + (", " + s2);
    Regroup("rgb(", IntToDecimal(c.r), ", ", IntToDecimal(c.g), ", ", IntToDecimal(c.b), ")", t);
    ExpectLiteral("rgb(", s1);
    ParseChannelOfDecimal(c.r, ", ", s2);
    ParseChannelOfDecimal(c.g, ", ", s3);
    ParseChannelOfDecimal(c.b, ")", t);
  }

  /** The text of a colour names exactly that colour. */
  lemma FormatRoundTrip(c: Rgb)
    ensures ParseRgb(Format(c)) == Some(c)
  {
    FormatThenParsePrefix(c, []);
    assert Format(c) + [] == Format(c);
  }

  /** So two colours with the same text are the same colour. */
  lemma FormatInjective(c: Rgb, d: Rgb)
    requires Format(c) == Format(d)
    ensures c == d
  {
    FormatRoundTrip(c);
    FormatRoundTrip(d);
  }

  lemma FormattedIsColorText(c: Rgb)
    requires InRange(c)
    ensures IsColorText(Format(c)) && IsByteText(Format(c))
  {
    FormatRoundTrip(c);
  }

  /** A colour text never holds a line break. */
  lemma FormatHasNoNewline(c: Rgb)
    ensures '\n' !in Format(c)
  {
    DecimalHasNoNewline(c.r);
    DecimalHasNoNewline(c.g);
    DecimalHasNoNewline(c.b);
  }

  lemma DecimalHasNoNewline(n: int)
    ensures '\n' !in IntToDecimal(n)
  {
    var d := NatToDecimal(if n < 0 then -n else n);
    assert forall i :: 0 <= i < |d| ==> d[i] != '\n';
  }
}
