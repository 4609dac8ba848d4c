/**
 * Rectangle arithmetic of the presenter: the three vertical bands of the table
 * relative to one row (the computed property `frames`) and the insets with
 * which the presented view is pinned to the row's band.
 *
 * `CGFloat` is modelled by `real`, so every fact below is exact.
 */
module Geometry {

  datatype Point = Point(x: real, y: real)

  datatype Size = Size(width: real, height: real)

  /** A `CGRect`: an origin and a size whose components may be negative. */
  datatype Rect = Rect(origin: Point, size: Size) {

    /** `CGRect.height`: the height of the standardized rectangle. */
    function Height(): (h: real)
      ensures h >= 0.0
      ensures h == size.height || h == -size.height
    {
      if size.height >= 0.0 then size.height else -size.height
    }

    /** `CGRect.minY`: the smaller y coordinate of the two horizontal edges. */
    function MinY(): (m: real)
      ensures m <= origin.y && m <= origin.y + size.height
      ensures m == origin.y || m == origin.y + size.height
    {
      if size.height >= 0.0 then origin.y else origin.y + size.height
    }

    /** `CGRect.maxY`: the larger y coordinate of the two horizontal edges. */
    function MaxY(): (m: real)
      ensures m >= origin.y && m >= origin.y + size.height
      ensures m == origin.y || m == origin.y + size.height
    {
      if size.height >= 0.0 then origin.y + size.height else origin.y
    }
  }

  const ZeroPoint := Point(0.0, 0.0)

  /** A row of the table, as Foundation's `IndexPath`. */
  datatype IndexPath = IndexPath(section: nat, row: nat)

  /**
   * What the presenter reads from its table view at the moment of a call:
   * `rectForRow(at:)`, `contentOffset` and `frame`.
   */
  datatype TableGeometry = TableGeometry(
    rectForRow: IndexPath -> Rect,
    contentOffset: Point,
    frame: Rect)

  /** The three bands of the table relative to one row (`Frames`). */
  datatype Frames = Frames(top: Rect, middle: Rect, bottom: Rect)

  /**
   * The computed property `frames`. Converting the row rectangle from the
   * table's coordinates to the table's own coordinates is the identity, so
   * the row rectangle is used as the table reports it.
   */
  function BandFrames(table: TableGeometry, indexPath: IndexPath): (f: Frames)
    // the middle band is the row rectangle moved up by the vertical scroll offset
    ensures f.middle.size == table.rectForRow(indexPath).size
    ensures f.middle.origin.x == table.rectForRow(indexPath).origin.x
    ensures f.middle.origin.y == table.rectForRow(indexPath).origin.y - table.contentOffset.y
    // the top band runs from the origin down to the middle band
    ensures f.top.origin == ZeroPoint
    ensures f.top.origin.y + f.top.size.height == f.middle.origin.y
    // the bottom band runs from the middle band down to the table's bottom edge
    ensures f.bottom.origin == Point(0.0, f.middle.MaxY())
    ensures f.bottom.origin.y + f.bottom.size.height == table.frame.Height()
    // both outer bands take the row's width
    ensures f.top.size.width == f.middle.size.width == f.bottom.size.width
    // for a row of non-negative height the signed heights partition the table
    ensures f.middle.size.height >= 0.0 ==>
      f.top.size.height + f.middle.size.height + f.bottom.size.height == table.frame.Height()
  {
    var cellRect := table.rectForRow(indexPath);
    var middle := Rect(
      Point(cellRect.origin.x, cellRect.origin.y - table.contentOffset.y),
      cellRect.size);
    var top := Rect(ZeroPoint, Size(middle.size.width, middle.origin.y));
    var bottom := Rect(
      Point(0.0, middle.MaxY()),
      Size(middle.size.width, table.frame.Height() - middle.MaxY()));
    Frames(top, middle, bottom)
  }

  /** The row lies inside the table's visible height. */
  predicate RowInsideTable(table: TableGeometry, indexPath: IndexPath)
  {
    var f := BandFrames(table, indexPath);
    f.middle.size.height >= 0.0 && 0.0 <= f.middle.origin.y && f.middle.MaxY() <= table.frame.Height()
  }

  /**
   * For a row inside the table, the standardized bands tile the table once
   * more: their `height`s add up to the table's height and each band's
   * `maxY` is the next band's `minY`.
   */
  lemma BandsTileTable(table: TableGeometry, indexPath: IndexPath)
    requires RowInsideTable(table, indexPath)
    ensures var f := BandFrames(table, indexPath);
      && f.top.Height() + f.middle.Height() + f.bottom.Height() == table.frame.Height()
      && f.top.MinY() == 0.0
      && f.top.MaxY() == f.middle.MinY()
      && f.middle.MaxY() == f.bottom.MinY()
      && f.bottom.MaxY() == table.frame.Height()
  {
  }

  /**
   * A table 800 high, a row at y = 300 of height 120, scrolled by 50: the
   * bands have heights 250, 120 and 430.
   */
  lemma ScrolledRowBands(indexPath: IndexPath)
    ensures var table := TableGeometry(
              _ => Rect(Point(0.0, 300.0), Size(320.0, 120.0)),
              Point(0.0, 50.0),
              Rect(ZeroPoint, Size(320.0, 800.0)));
      var f := BandFrames(table, indexPath);
      && f.top.Height() == 250.0
      && f.middle.origin.y == 250.0 && f.middle.Height() == 120.0
      && f.bottom.Height() == 430.0
  {
  }

  /** The top inset with which the presented view is first pinned. */
  function TopInset(f: Frames): (inset: real)
  {
    f.middle.origin.y
  }

  /**
   * The bottom inset as the source writes it: `frames.bottom.height`, which
   * is the standardized (never negative) height of the bottom band.
   */
  function BottomInsetAsWritten(f: Frames): (d: real)
    ensures d >= 0.0
  {
    f.bottom.Height()
  }

  /**
   * The bottom inset the pinning needs: the signed distance from the row's
   * bottom edge to the table's bottom edge.
   */
  function BottomInset(f: Frames): (inset: real)
  {
    f.bottom.size.height
  }

  /**
   * PureLayout's `autoPinEdge(toSuperviewEdge:withInset:)`: the constraint
   * constant is the inset for the top edge and its negation for the bottom
   * edge.
   */
  function TopConstant(inset: real): (c: real) { inset }

  function BottomConstant(inset: real): (c: real) { -inset }

  /** A vertical interval: where it starts and how high it is. */
  datatype Span = Span(minY: real, height: real)

  /**
   * The vertical span of a view pinned inside a superview of height `height`
   * by a top constant and a bottom constant.
   */
  function PinnedSpan(height: real, topConstant: real, bottomConstant: real): (r: Span)
    ensures r.minY == topConstant
    ensures r.minY + r.height == height + bottomConstant
  {
    Span(topConstant, height + bottomConstant - topConstant)
  }

  /**
   * With the signed bottom inset, the view pinned to the row's band occupies
   * exactly the row's vertical span, wherever the row is.
   */
  lemma PinnedSpanIsRowBand(table: TableGeometry, indexPath: IndexPath)
    requires table.rectForRow(indexPath).size.height >= 0.0
    ensures var f := BandFrames(table, indexPath);
      var span := PinnedSpan(table.frame.Height(),
                             TopConstant(TopInset(f)), BottomConstant(BottomInset(f)));
      span.minY == f.middle.origin.y && span.height == f.middle.size.height
  {
  }

  /** Inside the table the source's bottom inset and the signed one agree. */
  lemma BottomInsetsAgreeInsideTable(table: TableGeometry, indexPath: IndexPath)
    requires RowInsideTable(table, indexPath)
    ensures var f := BandFrames(table, indexPath);
      BottomInsetAsWritten(f) == BottomInset(f)
  {
  }

  /**
   * A row that sticks out 50 points below the bottom of an 800-point table:
   * with the source's inset the view is pinned to a span 50 high instead of
   * the row's 150.
   */
  lemma ClippedRowPinnedTooShort(indexPath: IndexPath)
    ensures var table := TableGeometry(
              _ => Rect(Point(0.0, 700.0), Size(320.0, 150.0)),
              ZeroPoint,
              Rect(ZeroPoint, Size(320.0, 800.0)));
      var f := BandFrames(table, indexPath);
      var span := PinnedSpan(table.frame.Height(),
                             TopConstant(TopInset(f)), BottomConstant(BottomInsetAsWritten(f)));
      && f.middle.size.height == 150.0
      && span.height == 50.0
  {
  }
}
