/**
 * `ImageCanvas` of the font recognizer: the region cropped around a
 * selected text block and the hit test that picks the block under a click.
 * Drawing and the pixel data of a crop are left to `render`.
 */
module ImageCanvas {

  import opened Wrappers
  import opened FontUtils

  const Padding := 10.0

  /** A crop rectangle: origin and size. */
  datatype Box = Box(x: real, y: real, w: real, h: real)

  function Max(a: real, b: real): real { if a >= b then a else b }
  function Min(a: real, b: real): real { if a <= b then a else b }

  /** The crop of a block: the block grown by the padding, clipped at the image's edges. */
  function CropBox(loc: Location, naturalWidth: real, naturalHeight: real): Box
  {
    var cropX := Max(0.0, loc.left - Padding);
    var cropY := Max(0.0, loc.top - Padding);
    Box(cropX, cropY, Min(naturalWidth - cropX, loc.width + 2.0 * Padding), Min(naturalHeight - cropY, loc.height + 2.0 * Padding))
  }

  /**
   * The crop never starts left of or above the image and never reaches
   * past its right or bottom edge, is at most the padded block, and covers
   * the whole block when the block lies inside the image.
   */
  lemma CropBoxBounds(loc: Location, naturalWidth: real, naturalHeight: real)
    ensures var b := CropBox(loc, naturalWidth, naturalHeight);
      && b.x >= 0.0 && b.y >= 0.0
      && b.x + b.w <= naturalWidth && b.y + b.h <= naturalHeight
      && b.w <= loc.width + 20.0 && b.h <= loc.height + 20.0
      && b.x >= loc.left - 10.0 && b.y >= loc.top - 10.0
      && (0.0 <= loc.left && loc.left + loc.width <= naturalWidth ==> b.x <= loc.left && loc.left + loc.width <= b.x + b.w)
      && (0.0 <= loc.top && loc.top + loc.height <= naturalHeight ==> b.y <= loc.top && loc.top + loc.height <= b.y + b.h)
  {
  }

  /**
   * `cropSelectedText`: `null` without a canvas or an image, or for an index
   * outside the results; otherwise what `render` makes of the crop (`None`
   * when the temporary canvas has no context or the export throws).
   */
  function CropSelectedText(hasCanvas: bool, image: Option<(real, real)>, results: seq<OcrResult>, index: int,
                            render: Box -> Option<string>): (r: Option<string>)
    ensures !hasCanvas || image.None? || index < 0 || index >= |results| ==> r.None?
    ensures hasCanvas && image.Some? && 0 <= index < |results| ==>
      r == render(CropBox(results[index].location, image.value.0, image.value.1))
  {
    if !hasCanvas || image.None? || index < 0 || index >= |results| then None
    else render(CropBox(results[index].location, image.value.0, image.value.1))
  }

  /** The block contains the point, edges included. */
  predicate Hits(loc: Location, x: real, y: real)
  {
    x >= loc.left && x <= loc.left + loc.width && y >= loc.top && y <= loc.top + loc.height
  }

  /** The loop of `handleCanvasClick`: from the last block to the first, stop at the first that contains the point. */
  method HitTest(results: seq<OcrResult>, x: real, y: real) returns (r: Option<nat>)
    ensures r.Some? ==> r.value < |results| && Hits(results[r.value].location, x, y)
    ensures r.Some? ==> forall j :: r.value < j < |results| ==> !Hits(results[j].location, x, y)
    ensures r.None? ==> forall j :: 0 <= j < |results| ==> !Hits(results[j].location, x, y)
  {
    var i := |results| - 1;
    while i >= 0
      invariant -1 <= i < |results|
      invariant forall j :: i < j < |results| ==> !Hits(results[j].location, x, y)
    {
      var loc := results[i].location;
      if x >= loc.left && x <= loc.left + loc.width && y >= loc.top && y <= loc.top + loc.height {
        return Some(i);
      }
      i := i - 1;
    }
    return None;
  }

  /**
   * `handleCanvasClick` on the point `(x, y)` in image pixels: the call made
   * to `onTextSelect`, if any, with the block's index and its crop.
   */
  method HandleCanvasClick(hasCanvas: bool, image: Option<(real, real)>, results: seq<OcrResult>, x: real, y: real,
                           render: Box -> Option<string>) returns (selected: Option<(nat, Option<string>)>)
    ensures !hasCanvas ==> selected.None?
    ensures selected.Some? ==>
      && selected.value.0 < |results| && Hits(results[selected.value.0].location, x, y)
      && (forall j :: selected.value.0 < j < |results| ==> !Hits(results[j].location, x, y))
      && selected.value.1 == CropSelectedText(hasCanvas, image, results, selected.value.0, render)
    ensures hasCanvas && selected.None? ==> forall j :: 0 <= j < |results| ==> !Hits(results[j].location, x, y)
  {
    if !hasCanvas {
      return None;
    }
    var hit := HitTest(results, x, y);
    if hit.None? {
      return None;
    }
    var cropped := CropSelectedText(hasCanvas, image, results, hit.value, render);
    selected := Some((hit.value, cropped));
  }
}
