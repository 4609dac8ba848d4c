/**
 * The "ghost" image views: crops of the table's snapshot that stand in for
 * the rows above and below the presented row while the transition runs
 * (`makeImageViews`, `makeImageView`, `makeEmptyImageView`).
 *
 * Rendering the snapshot and `CGImage.cropping(to:)` belong to Core Graphics;
 * the snapshot is an input and cropping is an oracle function.
 */
module GhostViews {
  import opened Wrappers
  import opened Geometry

  /** `UIScreen.main.scale`: points to pixels, always positive. */
  type Scale = s: real | s > 0.0 witness 1.0

  /** A `CGImage`, known by its pixel dimensions. */
  datatype Bitmap = Bitmap(width: nat, height: nat)

  /** `CGImage.cropping(to:)`: a crop of the image to a pixel rectangle, or nothing. */
  type Cropper = (Bitmap, Rect) -> Option<Bitmap>

  /** A `UIImageView`: its image (if any) and the size its constraints fix. */
  datatype ImageView = ImageView(image: Option<Bitmap>, size: Size)

  /** The pair of ghost views above and below the presented view (`ImageViews`). */
  datatype ImageViews = ImageViews(top: ImageView, bottom: ImageView)

  /** A rectangle in points converted to pixels: every component times `scale`. */
  function ScaleRect(rect: Rect, scale: real): (pixels: Rect)
    ensures pixels.origin == Point(rect.origin.x * scale, rect.origin.y * scale)
    ensures pixels.size == Size(rect.size.width * scale, rect.size.height * scale)
  {
    Rect(Point(rect.origin.x * scale, rect.origin.y * scale),
         Size(rect.size.width * scale, rect.size.height * scale))
  }

  /** Scaling by the reciprocal undoes a scaling: no information is lost. */
  lemma ScaleRectInverse(rect: Rect, scale: Scale)
    ensures ScaleRect(ScaleRect(rect, scale), 1.0 / scale) == rect
  {
  }

  /**
   * Scaling keeps the band geometry: in pixels the top band still ends where
   * the middle band starts, the bottom band still ends at the (scaled) table
   * height, and for a row of non-negative height the scaled heights still
   * partition the scaled table height.
   */
  lemma ScaledBandsKeepTiling(table: TableGeometry, indexPath: IndexPath, scale: Scale)
    ensures var f := BandFrames(table, indexPath);
      var (t, m, b) := (ScaleRect(f.top, scale), ScaleRect(f.middle, scale), ScaleRect(f.bottom, scale));
      && t.origin == ZeroPoint
      && t.origin.y + t.size.height == m.origin.y
      && b.origin.y + b.size.height == table.frame.Height() * scale
      && (f.middle.size.height >= 0.0 ==>
            t.size.height + m.size.height + b.size.height == table.frame.Height() * scale)
  {
  }

  /** The image view of a crop: `UIImage(cgImage:scale:)` sizes it in points. */
  function ImageViewOf(cropped: Bitmap, scale: Scale): (v: ImageView)
    ensures v.image == Some(cropped)
    ensures v.size.width * scale == cropped.width as real
    ensures v.size.height * scale == cropped.height as real
  {
    ImageView(Some(cropped), Size(cropped.width as real / scale, cropped.height as real / scale))
  }

  /**
   * `makeImageView`: crop the snapshot to the band scaled to pixels; no view
   * when the crop fails.
   */
  function MakeImageView(image: Bitmap, rect: Rect, scale: Scale, crop: Cropper): (r: Option<ImageView>)
    ensures r.None? <==> crop(image, ScaleRect(rect, scale)).None?
    ensures r.Some? ==> r.value.image == crop(image, ScaleRect(rect, scale))
    ensures r.Some? ==> r.value.size.height * scale == r.value.image.value.height as real
  {
    match crop(image, ScaleRect(rect, scale))
    case None => None
    case Some(cropped) => Some(ImageViewOf(cropped, scale))
  }

  /** `makeEmptyImageView`: an image view without image of the given width and zero height. */
  function MakeEmptyImageView(width: nat): (v: ImageView)
    ensures v.image == None
    ensures v.size.height == 0.0 && v.size.width == width as real
  {
    ImageView(None, Size(width as real, 0.0))
  }

  /** `makeImageView` with the placeholder substituted for a failed crop. */
  function GhostView(image: Bitmap, rect: Rect, scale: Scale, crop: Cropper): (v: ImageView)
    ensures crop(image, ScaleRect(rect, scale)).None? ==> v == MakeEmptyImageView(image.width)
    ensures crop(image, ScaleRect(rect, scale)).Some? ==>
      v.image == crop(image, ScaleRect(rect, scale)) && v.size.height * scale == v.image.value.height as real
  {
    match MakeImageView(image, rect, scale, crop)
    case Some(v) => v
    case None => MakeEmptyImageView(image.width)
  }

  /**
   * `makeImageViews`: the top and bottom ghost views cut from one snapshot.
   * A failed crop is never an error: each side falls back on its own to an
   * empty view as wide as the snapshot (in pixels) and zero high.
   */
  function MakeImageViews(image: Bitmap, rects: Frames, scale: Scale, crop: Cropper): (r: ImageViews)
    ensures r.top.image == crop(image, ScaleRect(rects.top, scale))
    ensures r.bottom.image == crop(image, ScaleRect(rects.bottom, scale))
    ensures r.top.image.None? ==> r.top.size == Size(image.width as real, 0.0)
    ensures r.bottom.image.None? ==> r.bottom.size == Size(image.width as real, 0.0)
  {
    ImageViews(GhostView(image, rects.top, scale, crop), GhostView(image, rects.bottom, scale, crop))
  }

  /** A crop that honours the rectangle it is given: its pixel size is the rectangle's. */
  predicate CropsExactly(crop: Cropper, image: Bitmap, pixels: Rect)
  {
    match crop(image, pixels)
    case None => true
    case Some(c) => c.width as real == pixels.size.width && c.height as real == pixels.size.height
  }

  /**
   * When the crop honours its rectangle, a ghost view cut for a band has
   * exactly the band's size in points, so it covers the live content it
   * stands in for.
   */
  lemma GhostViewMatchesBand(image: Bitmap, rect: Rect, scale: Scale, crop: Cropper)
    requires CropsExactly(crop, image, ScaleRect(rect, scale))
    requires crop(image, ScaleRect(rect, scale)).Some?
    ensures GhostView(image, rect, scale, crop).size == rect.size
  {
  }
}
