/**
 * The pure parts of the export actions: the clipboard text
 * (copyPaletteToClipboard), the share message (sharePalette) and the layout
 * and outcome of the watermarked image (exportPaletteAsImage).
 */
module Export {
  import opened Wrappers
  import opened Color
  import NamePalette

  /** Array.prototype.join(sep). */
  function Join(sep: string, parts: seq<string>): string
    decreases |parts|
  {
    if |parts| == 0 then ""
    else if |parts| == 1 then parts[0]
    else parts[0] + sep + Join(sep, parts[1..])
  }

  /** String.prototype.split(d) for a one-character separator. */
  function Split(s: string, d: char): (parts: seq<string>)
    ensures |parts| >= 1
    decreases |s|
  {
    if s == [] then [""]
    else
      var rest := Split(s[1..], d);
      if s[0] == d then [""] + rest else [[s[0]] + rest[0]] + rest[1..]
  }

  /** The text copied to the clipboard: one colour per line. */
  function CopyText(palette: seq<string>): string {
    Join("\n", palette)
  }

  const ShareTitle := "Check out my color palette!"
  const SharePrefix := "Here\U{2019}s a color palette I generated: "

  /** What navigator.share receives; `url` is the page address, a parameter here. */
  datatype ShareData = ShareData(title: string, text: string, url: string)

  /** What the share button does: share, or alert when the browser cannot share. */
  datatype ShareAction = Share(data: ShareData) | Unsupported(alert: string)

  const ShareAlert := "Sharing is not supported on this browser."

  function SharePalette(palette: seq<string>, canShare: bool, url: string): (r: ShareAction)
    ensures r.Share? <==> canShare
    ensures r.Share? ==> r.data.title == ShareTitle && r.data.url == url
    ensures r.Share? ==> r.data.text == SharePrefix + Join(", ", palette)
    ensures r.Unsupported? ==> r.alert == ShareAlert
  {
    if canShare then Share(ShareData(ShareTitle, SharePrefix + Join(", ", palette), url)) else Unsupported(ShareAlert)
  }

  lemma {:induction false} SplitNoSeparator(a: string, d: char)
    requires d !in a
    ensures Split(a, d) == [a]
    decreases |a|
  {
    if a != [] {
      SplitNoSeparator(a[1..], d);
      assert [a[0]] + a[1..] == a;
    }
  }

  lemma {:induction false} SplitAtSeparator(a: string, d: char, b: string)
    requires d !in a
    ensures Split(a + [d] + b, d) == [a] + Split(b, d)
    decreases |a|
  {
    var s := a + [d] + b;
    if a == [] {
      assert s[1..] == b;
    } else {
      assert s[1..] == a[1..] + [d] + b;
      SplitAtSeparator(a[1..], d, b);
      assert [a[0]] + a[1..] == a;
    }
  }

  /** Splitting a join at a separator that no part contains gives the parts back. */
  lemma {:induction false} SplitJoin(parts: seq<string>, d: char)
    requires |parts| >= 1
    requires forall i :: 0 <= i < |parts| ==> d !in parts[i]
    ensures Split(Join([d], parts), d) == parts
    decreases |parts|
  {
    if |parts| == 1 {
      SplitNoSeparator(parts[0], d);
    } else {
      SplitJoin(parts[1..], d);
      SplitAtSeparator(parts[0], d, Join([d], parts[1..]));
      assert [parts[0]] + parts[1..] == parts;
    }
  }

  /** The clipboard text of a palette of colour texts gives the palette back, line by line. */
  lemma CopyTextRoundTrip(cs: seq<Rgb>)
    requires |cs| >= 1
    ensures Split(CopyText(Texts(cs)), '\n') == Texts(cs)
  {
    forall i | 0 <= i < |cs| ensures '\n' !in Texts(cs)[i] {
      FormatHasNoNewline(cs[i]);
    }
    SplitJoin(Texts(cs), '\n');
  }

  /** Copying a name-seeded palette of at least one colour loses nothing. */
  lemma CopySeededRoundTrip(name: seq<NamePalette.CodeUnit>, n: nat)
    requires |name| > 0 && n >= 1
    ensures Split(CopyText(NamePalette.SeededPalette(name, n)), '\n') == NamePalette.SeededPalette(name, n)
  {
    CopyTextRoundTrip(NamePalette.SeededColors(name, n));
  }

  /**
   * Reads colour texts separated by ", ", the form of the share text's list;
   * the empty text is the empty list, as `[].join(", ")` gives "".
   */
  function ParseColorList(s: string): Option<seq<Rgb>>
    decreases |s|
  {
    if s == [] then Some([]) else
    var (c, rest) :- ParseRgbPrefix(s);
    if rest == [] then Some([c])
    else
      var more :- Expect(", ", rest);
      var cs :- ParseColorList(more);
      Some([c] + cs)
  }

  lemma ParseColorListSingle(c: Rgb)
    ensures ParseColorList(Format(c)) == Some([c])
  {
    FormatThenParsePrefix(c, []);
    assert Format(c) + [] == Format(c);
    assert Format(c)[0] == 'r';
  }

  lemma ParseColorListCons(c: Rgb, t: string, rest: seq<Rgb>)
    requires ParseColorList(t) == Some(rest)
    ensures ParseColorList(Format(c) + (", " + t)) == Some([c] + rest)
  {
    FormatThenParsePrefix(c, ", " + t);
    ExpectLiteral(", ", t);
    assert (Format(c) + (", " + t))[0] == 'r';
    assert ", " + t != [];
  }

  /**
   * The colour list in a share text is unambiguous although each colour text
   * itself holds ", ": reading it back gives the colours.
   */
  lemma {:induction false} ParseJoinedColors(cs: seq<Rgb>)
    ensures ParseColorList(Join(", ", Texts(cs))) == Some(cs)
    decreases |cs|
  {
    var ts := Texts(cs);
    if |cs| == 0 {
      assert Join(", ", ts) == [];
    } else if |cs| == 1 {
      assert Join(", ", ts) == ts[0];
      ParseColorListSingle(cs[0]);
      assert cs == [cs[0]];
    } else {
      TextsTail(cs);
      var tail := Join(", ", ts[1..]);
      JoinCons(", ", ts);
      ParseJoinedColors(cs[1..]);
      ParseColorListCons(cs[0], tail, cs[1..]);
      assert [cs[0]] + cs[1..] == cs;
    }
  }

  lemma JoinCons(sep: string, parts: seq<string>)
    requires |parts| >= 2
    ensures Join(sep, parts) == parts[0] + (sep + Join(sep, parts[1..]))
  {
    var a, b, c := parts[0], sep, Join(sep, parts[1..]);
    assert a + b + c == a + (b + c);
  }

  lemma TextsTail(cs: seq<Rgb>)
    requires |cs| >= 1
    ensures Texts(cs)[1..] == Texts(cs[1..])
  {
  }

  /** The shared text names the palette's colours, in order. */
  lemma ShareTextRoundTrip(cs: seq<Rgb>, canShare: bool, url: string)
    ensures !canShare ==> SharePalette(Texts(cs), canShare, url) == Unsupported(ShareAlert)
    ensures canShare ==> SharePalette(Texts(cs), canShare, url).Share?
    ensures canShare ==> SharePalette(Texts(cs), canShare, url).data.title == ShareTitle
    ensures canShare ==> SharePalette(Texts(cs), canShare, url).data.url == url
    ensures canShare ==> Expect(SharePrefix, SharePalette(Texts(cs), canShare, url).data.text).Some?
    ensures canShare ==>
      ParseColorList(Expect(SharePrefix, SharePalette(Texts(cs), canShare, url).data.text).value) == Some(cs)
    ensures canShare && cs == [] ==> SharePalette(Texts(cs), canShare, url).data.text == SharePrefix
  {
    ExpectLiteral(SharePrefix, Join(", ", Texts(cs)));
    ParseJoinedColors(cs);
  }

  // --- Image export ---

  datatype Rect = Rect(x: int, y: int, width: int, height: int)

  predicate Inside(inner: Rect, outer: Rect) {
    outer.x <= inner.x && inner.x + inner.width <= outer.x + outer.width &&
    outer.y <= inner.y && inner.y + inner.height <= outer.y + outer.height
  }

  predicate Disjoint(a: Rect, b: Rect) {
    a.x + a.width <= b.x || b.x + b.width <= a.x ||
    a.y + a.height <= b.y || b.y + b.height <= a.y
  }

  const ColorBoxHeight := 50
  const CanvasWidth := 300
  const CanvasHeight := ColorBoxHeight + 40
  const WatermarkWidth := 270
  const WatermarkHeight := 35
  const RightPadding := 10
  const BottomPadding := 5

  function Canvas(): Rect { Rect(0, 0, CanvasWidth, CanvasHeight) }

  /** The band the colour stripes fill: the full width, ColorBoxHeight high. */
  function SwatchBand(): Rect { Rect(0, 0, CanvasWidth, ColorBoxHeight) }

  /** Where the watermark goes on a canvas of the given size: bottom right, inset by the paddings. */
  function WatermarkRect(canvasWidth: int, canvasHeight: int): (r: Rect)
    ensures r.width == WatermarkWidth && r.height == WatermarkHeight
    ensures canvasWidth - (r.x + r.width) == RightPadding
    ensures canvasHeight - (r.y + r.height) == BottomPadding
  {
    Rect(canvasWidth - WatermarkWidth - RightPadding, canvasHeight - WatermarkHeight - BottomPadding,
         WatermarkWidth, WatermarkHeight)
  }

  /**
   * On the 300 x 90 canvas the watermark sits at (20, 50): inside the canvas,
   * starting exactly at the bottom edge of the swatch band and not overlapping it.
   */
  lemma WatermarkPlacement()
    ensures WatermarkRect(CanvasWidth, CanvasHeight) == Rect(20, 50, 270, 35)
    ensures Inside(WatermarkRect(CanvasWidth, CanvasHeight), Canvas())
    ensures Inside(SwatchBand(), Canvas())
    ensures WatermarkRect(CanvasWidth, CanvasHeight).y == SwatchBand().y + SwatchBand().height
    ensures Disjoint(WatermarkRect(CanvasWidth, CanvasHeight), SwatchBand())
  {
  }

  /** How loading the watermark image ends: onload or onerror. */
  datatype WatermarkLoad = Loaded | LoadError

  /** What the export produces: a PNG download with the watermark drawn, or the failure alert. */
  datatype ImageExport =
    | Download(fileName: string, watermark: Rect)
    | Failed(message: string)

  function ExportPaletteAsImage(load: WatermarkLoad): (r: ImageExport)
    ensures r.Download? <==> load.Loaded?
    ensures r.Download? ==> r.fileName == "palette_with_watermark.png" && Inside(r.watermark, Canvas())
    ensures r.Download? ==> r.watermark == WatermarkRect(CanvasWidth, CanvasHeight)
    ensures r.Failed? ==> r.message == "Failed to load watermark."
  {
    match load
    case Loaded => Download("palette_with_watermark.png", WatermarkRect(CanvasWidth, CanvasHeight))
    case LoadError => Failed("Failed to load watermark.")
  }
}
