# Colour palette generator, modelled in Dafny

This project models the part of the browser colour-palette generator (`script.js`) that has behaviour of its own:

- the palette derived from a name (`generateColorPalette`);
- the random palette (`generateRandomColorPalette` with `getRandomInt`) and the size guard of the randomize button;
- appending a palette to the saved list in local storage (`savePaletteToLocal`);
- the pure parts of the export actions: the clipboard text, the share message, and the placement of the 270×35 watermark on the 300×90 exported image.

Modules, one per component:

- `Wrappers` (wrappers.dfy): an `Option` type.
- `Color` (color.dfy): a colour as an RGB triple and its CSS text `rgb(r, g, b)`. It also has a parser for that text. The parser is there to state what the text means: every colour text reads back as exactly the colour it was made from.
- `NamePalette` (name_palette.dfy): the name-seeded generator, written as the source's counting loop. It is proved against a recursive specification, `SeededColors`/`SeededPalette`. Lemmas cover the element formula, the channel range, prefix stability, periodicity and a fixed regression vector.
- `RandomPalette` (random_palette.dfy): `getRandomInt` as a choice of any integer in `[min, max]`, the random generator loop, the guard (`value || 5`, then reject sizes below 4 and above 16) and the click handler.
- `SavedPalettes` (saved_palettes.dfy): local storage as a class holding a map from key to list of palettes, and `savePaletteToLocal` as a method that reads the list, appends, and writes it back.
- `Export` (export.dfy): `join('\n')` with `split('\n')` (which undoes it for a non-empty list whose parts hold no line break), the share message built from `join(', ')` together with a reader for the joined colour list, the watermark rectangle, and the two outcomes of the image export.

Sizes are modelled as integers. The loop `for (let i = 0; i < size; i++)` runs `max(size, 0)` times (`Color.Count`), so a zero or negative size gives an empty palette. A name is a non-empty sequence of UTF-16 code units.

JavaScript's `%` becomes `JsRem`, which truncates toward zero. Because every seed is non-negative, `JsRem` agrees with Dafny's Euclidean `%` there, and each channel is a byte.

For "Ada" the code computes `65*123 % 256 = 59`, `65*456 % 256 = 200` and `65*789 % 256 = 85`, that is `rgb(59, 200, 85)`. The model follows the code, and `NamePalette.AdaRegression` fixes all four colours for "Ada".

## Model

| member | source | states |
|---|---|---|
| `Color.NatToDecimal` | script.js:43 | the decimal text of a number is a non-empty digit string with no leading zero |
| `Color.IntToDecimal` | script.js:43 | how `${n}` writes an integer of magnitude below 10^21, which includes every channel the program formats: for n >= 0 a digit string denoting n, for n < 0 a minus sign followed by a digit string denoting -n |
| `Color.Format` | script.js:43 | definition of the text `rgb(r, g, b)`; what the text means is established by FormatRoundTrip and FormatInjective |
| `Color.DecimalRoundTrip` | script.js:43 | reading the decimal text back gives the number |
| `Color.FormatThenParsePrefix` | script.js:43 | the text of a colour followed by any rest reads back as that colour and that rest |
| `Color.FormatRoundTrip` | script.js:43 | a colour text reads back as exactly the colour it was made from |
| `Color.FormatInjective` | script.js:43 | two colours with the same text are equal |
| `Color.FormattedIsColorText` | script.js:43 | the text of a colour with byte channels reads back as a colour in range, and is a byte-colour text |
| `Color.FormatHasNoNewline` | script.js:43 | a colour text contains no line break |
| `NamePalette.JsRem` | script.js:40-42 | JavaScript's `%` equals the Euclidean remainder for a non-negative dividend and lies in (-n, 0] otherwise |
| `NamePalette.Seed` | script.js:39 | the seed of colour i lies between 16*i and 16*i + 65535 |
| `NamePalette.SeededColor` | script.js:39-42 | each channel of colour i is seed*123, seed*456 or seed*789 mod 256, and so lies in [0, 255] |
| `NamePalette.SeededColors` | script.js:38-45 | the specification builds exactly n colours |
| `NamePalette.SeededPalette` | script.js:35-48 | the palette for n colours has exactly n texts |
| `NamePalette.GenerateColorPalette` | script.js:35-48 | the loop returns exactly max(size, 0) texts, element i being the text of colour i; the palette is a function of (name, size) alone |
| `NamePalette.SeededColorsAt` | script.js:38-45 | colour i of the specification does not depend on the number of colours asked for |
| `NamePalette.SeededPaletteAt` | script.js:39-44 | element i of the palette is `rgb(r, g, b)` of the channels seeded at i |
| `NamePalette.SeededColorsPrefix` | script.js:38-45 | for n <= m the first n colours for m are the colours for n |
| `NamePalette.SeededPalettePrefix` | script.js:38-45 | for n <= m the first n texts of the palette of m are the palette of n |
| `NamePalette.SeededPaletteColorTexts` | script.js:39-44 | every text of a name-seeded palette is `rgb(r, g, b)` of a colour with byte channels, and reads back as that colour |
| `NamePalette.SeededColorPeriodic` | script.js:39-42 | colour i + 16*\|name\| equals colour i, so palettes longer than 16*\|name\| repeat |
| `NamePalette.AdaColors` | script.js:38-45 | the four colours for code units 65, 100, 97 |
| `NamePalette.AdaRegression` | script.js:35-48 | "Ada" with size 4 gives `rgb(59, 200, 85)`, `rgb(188, 160, 132)`, `rgb(251, 200, 149)`, `rgb(75, 72, 69)` |
| `RandomPalette.GetRandomInt` | script.js:199-201 | the draw is an integer in [min, max] |
| `RandomPalette.GenerateRandomColorPalette` | script.js:51-63 | exactly max(size, 0) texts, each exactly `rgb(r, g, b)` of some colour with byte channels |
| `RandomPalette.RandomizeSize` | script.js:19-24 | an empty field means 5; the size is accepted if and only if it lies in 4..16, and is then used unchanged |
| `RandomPalette.Randomize` | script.js:18-31 | a rejected size shows no palette and gives the alert "Please enter a size between 4 and 16."; an accepted one shows a palette of that many colours (4 to 16), each the text of a colour with byte channels |
| `RandomPalette.ZeroIsRejected` | script.js:19-21 | a typed 0 is not replaced by the default 5 and is rejected |
| `SavedPalettes.LocalStorage.SetItem` | script.js:119 | writes the list under the key and changes no other entry |
| `SavedPalettes.SaveOnto` | script.js:117-119 | definition of the store after one save; what it means is established by SaveAppends |
| `SavedPalettes.SavePaletteToLocal` | script.js:116-121 | the stored list becomes the old list (or []) followed by the palette; no other key changes |
| `SavedPalettes.SaveAppends` | script.js:116-119 | saving grows the list by one, puts the palette last, keeps every earlier palette in place and leaves other keys alone |
| `SavedPalettes.SaveAllAccumulates` | script.js:116-119 | saving palettes one after another leaves the old list followed by them in order |
| `SavedPalettes.SaveTwiceFromEmpty` | script.js:116-119 | saving P1 and then P2 on an empty store leaves [P1, P2] |
| `Export.Join` | script.js:106 | definition of `join(sep)`; SplitJoin shows a newline join of a non-empty list whose parts hold no line break loses nothing, ParseJoinedColors that a ", " join of colour texts loses nothing |
| `Export.CopyText` | script.js:106 | definition of the clipboard text `join('\n')`; its meaning is established by CopyTextRoundTrip |
| `Export.SplitJoin` | script.js:106 | splitting the join of a non-empty list at a separator that no part contains gives the parts back |
| `Export.CopyTextRoundTrip` | script.js:105-106 | the clipboard text of a non-empty palette of colour texts splits back into the palette |
| `Export.CopySeededRoundTrip` | script.js:106 | the clipboard text of a non-empty name-seeded palette splits back into it |
| `Export.ParseJoinedColors` | script.js:125 | the comma-joined colour texts of any palette, the empty one included, read back as the colours, although each text itself contains ", " |
| `Export.ShareTextRoundTrip` | script.js:124-139 | for every palette, the empty one included: without a share capability the alert "Sharing is not supported on this browser." is given; with it, the title and url are passed and the text is the fixed prefix followed by a list that reads back as the palette's colours (for the empty palette, the prefix alone) |
| `Export.WatermarkRect` | script.js:176-179 | the watermark is 270×35 and sits 10 from the right edge and 5 from the bottom edge |
| `Export.WatermarkPlacement` | script.js:157-179 | on the 300×90 canvas the watermark is at (20, 50), inside the canvas, starting at the bottom edge of the 50-high swatch band and not overlapping it |
| `Export.ExportPaletteAsImage` | script.js:171-195 | a download of `palette_with_watermark.png` with the watermark rectangle of the 300×90 canvas (so inside it) if and only if the image loads; otherwise the alert "Failed to load watermark." |

## Left out

- DOM wiring: the submit handler (script.js:3-15), `displayPalette` and the button binding in `showActionButtons` (script.js:66-102). These are UI only. `Randomize` returns the palette that would be displayed, or the alert text, instead of changing the page.
- The closures bind the palette at binding time (script.js:83-101). This is not modelled; each export member takes the palette as a parameter.
- The clipboard write, `navigator.share` and their promise callbacks, alerts and console messages (script.js:108-112, 127-139). These are asynchronous browser APIs. Only the texts are modelled, and the page URL and whether sharing is available are parameters.
- `exportPaletteAsJSON` (script.js:143-149): it relies on `JSON.stringify`, `encodeURIComponent` and an anchor download.
- Canvas drawing, `globalAlpha`, `toDataURL` and the asynchronous loading of the watermark image (script.js:153-195). Only the rectangle and the choice between download and alert are modelled. The wait for `onload`/`onerror` has no timeout, and that is not modelled.
- The stripe positions `i * (canvas.width / palette.length)` (script.js:167): this is floating-point arithmetic.
- `GetRandomInt`: the uniform distribution from `Math.random` is not modelled; any integer of the range may be returned (script.js:200).
- `RandomizeSize`: the conversion of the field's text to a number is not modelled (script.js:19-21). A non-numeric or fractional entry is not represented; a field is either empty or holds an integer.
- `GenerateColorPalette`: an empty name is excluded. The source computes `i % 0`, which is NaN, and produces `rgb(NaN, NaN, NaN)` texts (script.js:39). That is floating-point behaviour.
- `GenerateColorPalette`: the size is an integer. A fractional or non-numeric size, compared as a JavaScript number, is not modelled (script.js:38).
- `IntToDecimal`: JavaScript writes integers of magnitude 10^21 or more in exponent form (`1e+21`). The model always writes plain digits; every channel the program formats lies in 0..255.
- `SeededColor`: channel arithmetic uses unbounded integers. JavaScript numbers are exact only up to 2^53, which `seed * 789` passes only for indices above about 7×10^11.
- `SavePaletteToLocal`: local storage keeps JSON text. The model keeps the decoded list, so it leaves out three things: malformed stored data (`JSON.parse` throws on text that is not JSON; a falsy stored value such as `0` or `null` is replaced by `[]` and overwritten, while a truthy value that is not an array makes `push` throw), storage quota errors, and the success alert (script.js:117-120).
