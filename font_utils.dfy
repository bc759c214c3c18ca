/**
 * The font recognizer's helpers: distinct annotation colours, their
 * assignment to OCR results, and the upload checks on format and size.
 */
module FontUtils {

  import opened Wrappers

  /** A box in image pixels. */
  datatype Location = Location(left: real, top: real, width: real, height: real)

  /** An `hsl(hue, saturation%, lightness%)` colour. */
  datatype Color = Color(hue: real, saturation: int, lightness: int)

  /** An OCR result before a colour is assigned. */
  datatype Block = Block(text: string, location: Location, confidence: Option<real>)

  /** An OCR result as the client shows it. */
  datatype OcrResult = OcrResult(text: string, location: Location, color: Color, confidence: Option<real>)

  /** `x % 360` for a non-negative `x`. */
  function Mod360(x: real): (r: real)
    requires x >= 0.0
    ensures 0.0 <= r < 360.0
  {
    x - 360.0 * ((x / 360.0).Floor as real)
  }

  /** Dividing by a positive number keeps the order. */
  lemma DivLess(a: real, b: real, c: real)
    requires a < b && c > 0.0
    ensures a / c < b / c
  {
    assert (a / c) * c == a && (b / c) * c == b;
  }

  /** The hue of entry `i` out of `count`: `i * (360 / count) % 360`. */
  function Hue(i: nat, count: int): real
    requires i < count
  {
    Mod360(i as real * (360.0 / count as real))
  }

  /** The colour of entry `i` out of `count`: its hue, and saturation and lightness cycling. */
  function ColorAt(i: nat, count: int): Color
    requires i < count
  {
    Color(Hue(i, count), 75 + (i % 3) * 5, 55 + (i % 2) * 5)
  }

  /** What `generateDistinctColors(count)` returns: one colour per index below `count`. */
  function DistinctColors(count: int): seq<Color>
  {
    if count <= 0 then [] else seq(count, i requires 0 <= i < count => ColorAt(i, count))
  }

  /** `generateDistinctColors`: the loop that pushes one colour per index. */
  method GenerateDistinctColors(count: int) returns (colors: seq<Color>)
    ensures colors == DistinctColors(count)
  {
    colors := [];
    var i := 0;
    while i < count
      invariant 0 <= i && (i == 0 || i <= count)
      invariant |colors| == i
      invariant forall j :: 0 <= j < i ==> colors[j] == ColorAt(j, count)
    {
      colors := colors + [ColorAt(i, count)];
      i := i + 1;
    }
  }

  /** As many colours as asked for (none for a count that is not positive), saturation and lightness by index. */
  lemma DistinctColorsShape(count: int)
    ensures |DistinctColors(count)| == if count <= 0 then 0 else count
    ensures forall i :: 0 <= i < |DistinctColors(count)| ==>
      && DistinctColors(count)[i].saturation == 75 + (i % 3) * 5
      && DistinctColors(count)[i].lightness == 55 + (i % 2) * 5
      && 75 <= DistinctColors(count)[i].saturation <= 85
      && 55 <= DistinctColors(count)[i].lightness <= 60
  {
  }

  /** Below 360 the remainder is the number itself. */
  lemma Mod360Small(x: real)
    requires 0.0 <= x < 360.0
    ensures Mod360(x) == x
  {
    assert (x / 360.0).Floor == 0;
  }

  /** Entry `i`'s hue is `i * 360 / count`: the modulo never wraps. */
  lemma HueIsFraction(i: nat, count: int)
    requires i < count
    ensures ColorAt(i, count).hue == i as real * 360.0 / count as real
    ensures 0.0 <= ColorAt(i, count).hue < 360.0
  {
    HueUnfold(i, count);
    FractionBounds(i, count);
    Mod360Small(i as real * (360.0 / count as real));
  }

  lemma HueUnfold(i: nat, count: int)
    requires i < count
    ensures ColorAt(i, count).hue == Mod360(i as real * (360.0 / count as real))
  {
  }

  /** `i * (360 / count)` is `i * 360 / count`, in `[0, 360)`. */
  lemma FractionBounds(i: nat, count: int)
    requires i < count
    ensures i as real * (360.0 / count as real) == i as real * 360.0 / count as real
    ensures 0.0 <= i as real * 360.0 / count as real < 360.0
  {
    MulDiv(i as real, 360.0, count as real);
    assert i as real * 360.0 < 360.0 * count as real;
    DivLess(i as real * 360.0, 360.0 * count as real, count as real);
    CancelDiv(360.0, count as real);
    DivNonneg(i as real * 360.0, count as real);
  }

  lemma DivNonneg(a: real, c: real)
    requires a >= 0.0 && c > 0.0
    ensures a / c >= 0.0
  {
  }

  lemma MulDiv(a: real, b: real, c: real)
    requires c > 0.0
    ensures a * (b / c) == a * b / c
  {
  }

  lemma CancelDiv(a: real, c: real)
    requires c > 0.0
    ensures a * c / c == a
  {
  }

  /** The hues are strictly increasing, so no two colours share one. */
  lemma HuesDistinct(count: int)
    ensures forall i, j :: 0 <= i < j < |DistinctColors(count)| ==> DistinctColors(count)[i].hue < DistinctColors(count)[j].hue
  {
    forall i, j | 0 <= i < j < |DistinctColors(count)|
      ensures DistinctColors(count)[i].hue < DistinctColors(count)[j].hue
    {
      HueIsFraction(i, count);
      HueIsFraction(j, count);
      assert i as real * 360.0 < j as real * 360.0;
      DivLess(i as real * 360.0, j as real * 360.0, count as real);
    }
  }

  /** `assignColorsToOCRResults`: each result keeps its fields and takes the colour of its index. */
  function AssignColors(blocks: seq<Block>): (r: seq<OcrResult>)
    ensures |r| == |blocks|
    ensures forall i :: 0 <= i < |r| ==>
      && r[i].text == blocks[i].text && r[i].location == blocks[i].location
      && r[i].confidence == blocks[i].confidence
      && r[i].color == DistinctColors(|blocks|)[i]
  {
    var colors := DistinctColors(|blocks|);
    seq(|blocks|, i requires 0 <= i < |blocks| => OcrResult(blocks[i].text, blocks[i].location, colors[i], blocks[i].confidence))
  }

  /** `validateImageFormat`: exactly four MIME types are accepted. */
  predicate ValidImageFormat(mimeType: string)
  {
    mimeType in ["image/png", "image/jpeg", "image/jpg", "image/webp"]
  }

  /**
   * The check compares whole MIME types, case and all: an upper-case
   * subtype, a GIF, a bare subtype or a parameter are refused, and every
   * accepted type is an `image/` type.
   */
  lemma ValidImageFormatIsExactMatch(mimeType: string)
    ensures ValidImageFormat(mimeType) ==> |mimeType| >= 9 && mimeType[..6] == "image/"
    ensures !ValidImageFormat("image/PNG") && !ValidImageFormat("IMAGE/png")
    ensures !ValidImageFormat("image/gif") && !ValidImageFormat("png")
    ensures !ValidImageFormat("image/png; charset=binary")
  {
  }

  /** `validateImageSize`: at most `maxSizeMB` mebibytes. */
  predicate ValidImageSize(size: int, maxSizeMB: real)
  {
    size as real <= maxSizeMB * 1024.0 * 1024.0
  }

  /** The limit itself is accepted and one byte more is not. */
  lemma ValidImageSizeBoundary(maxSizeMB: nat)
    ensures ValidImageSize(maxSizeMB * 1048576, maxSizeMB as real)
    ensures !ValidImageSize(maxSizeMB * 1048576 + 1, maxSizeMB as real)
  {
  }
}
