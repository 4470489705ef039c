/**
 * generateRandomColorPalette, getRandomInt and the size guard of the
 * randomize button's click handler.
 */
module RandomPalette {
  import opened Wrappers
  import opened Color

  /**
   * getRandomInt(min, max): some integer of [min, max]. The uniform draw from
   * Math.random is not modelled; any value of the range may come back.
   */
  method GetRandomInt(min: int, max: int) returns (n: int)
    requires min <= max
    ensures min <= n <= max
  {
    n :| min <= n <= max;
  }

  /** Models generateRandomColorPalette(size). */
  method GenerateRandomColorPalette(size: int) returns (colors: seq<string>)
    ensures |colors| == Count(size)
    ensures forall i :: 0 <= i < |colors| ==> IsByteText(colors[i]) && IsColorText(colors[i])
  {
    colors := [];
    for i := 0 to Count(size)
      invariant |colors| == i
      invariant forall k :: 0 <= k < i ==> IsByteText(colors[k]) && IsColorText(colors[k])
    {
      var r := GetRandomInt(0, 255);
      var g := GetRandomInt(0, 255);
      var b := GetRandomInt(0, 255);
      FormattedIsColorText(Rgb(r, g, b));
      var color := Format(Rgb(r, g, b));
      colors := colors + [color];
    }
  }

  /** The random-size input field: left empty, or holding a number. */
  datatype SizeField = Blank | Entered(value: int)

  const DefaultSize := 5
  const MinSize := 4
  const MaxSize := 16

  /**
   * `value || 5` then the range check: an empty field means 5; a size below 4
   * or above 16 is rejected (None, the alert), and any other is taken as is.
   */
  function RandomizeSize(field: SizeField): (r: Option<int>)
    ensures r.Some? <==> (field.Blank? || MinSize <= field.value <= MaxSize)
    ensures r.Some? ==> MinSize <= r.value <= MaxSize
    ensures field.Blank? ==> r == Some(DefaultSize)
    ensures field.Entered? && r.Some? ==> r.value == field.value
  {
    var size := match field
      case Blank => DefaultSize
      case Entered(n) => n;
    if size < MinSize || size > MaxSize then None else Some(size)
  }

  const SizeAlert := "Please enter a size between 4 and 16."

  /** What a click on the randomize button leads to. */
  datatype RandomizeOutcome =
    | Shown(palette: seq<string>)  // displayed and bound to the action buttons
    | Alerted(message: string)     // nothing generated or displayed

  /** The randomize click handler. */
  method Randomize(field: SizeField) returns (outcome: RandomizeOutcome)
    ensures outcome.Alerted? <==> RandomizeSize(field).None?
    ensures outcome.Alerted? ==> outcome.message == SizeAlert
    ensures outcome.Shown? ==> |outcome.palette| == RandomizeSize(field).value
    ensures outcome.Shown? ==> MinSize <= |outcome.palette| <= MaxSize
    ensures outcome.Shown? ==> forall i :: 0 <= i < |outcome.palette| ==> IsByteText(outcome.palette[i])
  {
    var size := RandomizeSize(field);
    if size.None? {
      return Alerted(SizeAlert);
    }
    var palette := GenerateRandomColorPalette(size.value);
    outcome := Shown(palette);
  }

  /** A typed 0 is a non-empty field, so it is rejected rather than replaced by 5. */
  lemma ZeroIsRejected()
    ensures RandomizeSize(Entered(0)) == None
  {
  }
}
