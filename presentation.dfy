/**
 * The presentation state machine of `ExpandingCellPresenter`, on values:
 * `presentView`, `dismiss` and the completion of an animation as functions
 * from the presenter's state (and what the table reports at the moment of
 * the call) to the next state or a failure.
 */
module Presentation {
  import opened Wrappers
  import opened Geometry
  import opened GhostViews

  /** The three ways `presentView` and `dismiss` throw (`Failure`). */
  datatype PresenterFailure = TableViewHasNoParent | FailedToSnapshot | NotPresented

  /** A caller-supplied view, known by its identity. */
  datatype View = View(id: nat)

  /**
   * The constants of `topConstraint` and `bottomConstraint`; `None` while the
   * constraint does not exist yet.
   */
  datatype Pins = Pins(top: Option<real>, bottom: Option<real>)

  /** What a running animation does when it completes. */
  datatype Completion = RemoveGhosts(views: ImageViews) | RemoveFromSuperview

  /**
   * What one call can observe: the table's geometry, whether the table has
   * a superview, the result of `takeSnapshot(of:)`, the screen scale and
   * the cropping function of Core Graphics.
   */
  datatype Environment = Environment(
    table: TableGeometry,
    tableHasSuperview: bool,
    snapshot: Option<Bitmap>,
    scale: Scale,
    crop: Cropper)

  /**
   * The presenter's state:
   * - presentedView, pins: the private properties of the same names;
   * - hosted: the views added as its subviews by `presentView`;
   * - ghosts: the ghost view pairs currently attached inside it;
   * - inHierarchy: whether it has a superview;
   * - pending: completions of animations still running, oldest first;
   * - forcedLayouts: the constraint constants at each forced `layoutIfNeeded()`.
   */
  datatype PresenterState = PresenterState(
    presentedView: Option<View>,
    pins: Pins,
    hosted: set<View>,
    ghosts: multiset<ImageViews>,
    inHierarchy: bool,
    pending: seq<Completion>,
    forcedLayouts: seq<Pins>)

  /** The state right after `init(tableView:indexPath:)`. */
  const Initial := PresenterState(None, Pins(None, None), {}, multiset{}, false, [], [])

  /**
   * The constants with which the presented view is pinned to the row's band,
   * with the bottom inset as the source computes it (`frames.bottom.height`).
   */
  function RowBandPins(f: Frames): (pins: Pins)
    ensures pins.top == Some(f.middle.origin.y)
    ensures pins.bottom == Some(-f.bottom.Height())
    ensures pins.bottom.value <= 0.0
  {
    Pins(Some(TopConstant(TopInset(f))), Some(BottomConstant(BottomInsetAsWritten(f))))
  }

  /** `constraint?.constant = c`: only an existing constraint takes the new constant. */
  function SetConstant(constraint: Option<real>, c: real): (r: Option<real>)
    ensures r.Some? == constraint.Some?
    ensures r.Some? ==> r.value == c
  {
    if constraint.Some? then Some(c) else None
  }

  /** The pair of ghost views one call cuts from the snapshot it took. */
  function GhostsFor(image: Bitmap, indexPath: IndexPath, env: Environment): (views: ImageViews)
  {
    MakeImageViews(image, BandFrames(env.table, indexPath), env.scale, env.crop)
  }

  /**
   * `presentView(_:animated:)`. It checks for the table's superview before it
   * takes the snapshot and changes nothing when either check fails. On
   * success the view is pinned to the row's band for one forced layout and
   * then released to fill the presenter; the ghost views go away at once, or
   * when the animation completes. Nothing guards against a second call.
   */
  function Present(s: PresenterState, indexPath: IndexPath, env: Environment, view: View, animated: bool)
    : (r: Result<PresenterState, PresenterFailure>)
    ensures !env.tableHasSuperview ==> r == Failure(TableViewHasNoParent)
    ensures env.tableHasSuperview && env.snapshot.None? ==> r == Failure(FailedToSnapshot)
    ensures r.Success? <==> env.tableHasSuperview && env.snapshot.Some?
    ensures r.Success? ==>
      var t := r.value;
      var g := GhostsFor(env.snapshot.value, indexPath, env);
      && t.presentedView == Some(view)
      && t.hosted == s.hosted + {view}
      && t.inHierarchy
      && t.forcedLayouts == s.forcedLayouts + [RowBandPins(BandFrames(env.table, indexPath))]
      && t.pins == Pins(Some(0.0), Some(0.0))
      && t.ghosts == (if animated then s.ghosts + multiset{g} else s.ghosts)
      && t.pending == (if animated then s.pending + [RemoveGhosts(g)] else s.pending)
  {
    if !env.tableHasSuperview then Failure(TableViewHasNoParent)
    else if env.snapshot.None? then Failure(FailedToSnapshot)
    else
      var imageViews := GhostsFor(env.snapshot.value, indexPath, env);
      // the view is pinned to the row's band and the ghost views are attached
      var pinned := RowBandPins(BandFrames(env.table, indexPath));
      var attached := s.ghosts + multiset{imageViews};
      // after the forced layout both constants become 0
      var released := Pins(SetConstant(pinned.top, 0.0), SetConstant(pinned.bottom, 0.0));
      Success(PresenterState(
        Some(view),
        released,
        s.hosted + {view},
        if animated then attached else attached - multiset{imageViews},
        true,
        if animated then s.pending + [RemoveGhosts(imageViews)] else s.pending,
        s.forcedLayouts + [pinned]))
  }

  /**
   * `dismiss(animated:adjustingScrollView:)`. It checks that a view is
   * presented before it takes the snapshot and changes nothing when either
   * check fails. On success fresh ghost views are attached, and the existing
   * constraints take the row's band recomputed from the current geometry;
   * the presenter leaves its superview at once, or when the animation
   * completes. The presented view is never cleared.
   */
  function Dismiss(s: PresenterState, indexPath: IndexPath, env: Environment, animated: bool)
    : (r: Result<PresenterState, PresenterFailure>)
    ensures s.presentedView.None? ==> r == Failure(NotPresented)
    ensures s.presentedView.Some? && env.snapshot.None? ==> r == Failure(FailedToSnapshot)
    ensures r.Success? <==> s.presentedView.Some? && env.snapshot.Some?
    ensures r.Success? ==>
      var t := r.value;
      var f := BandFrames(env.table, indexPath);
      && t.presentedView == s.presentedView
      && t.hosted == s.hosted
      && (s.pins.top.Some? ==> t.pins.top == Some(TopInset(f)))
      && (s.pins.bottom.Some? ==> t.pins.bottom == Some(-BottomInsetAsWritten(f)))
      && (t.pins.top.Some? <==> s.pins.top.Some?)
      && (t.pins.bottom.Some? <==> s.pins.bottom.Some?)
      && t.ghosts == s.ghosts + multiset{GhostsFor(env.snapshot.value, indexPath, env)}
      && t.forcedLayouts == s.forcedLayouts + [s.pins]
      && t.inHierarchy == (animated && s.inHierarchy)
      && t.pending == (if animated then s.pending + [RemoveFromSuperview] else s.pending)
  {
    if s.presentedView.None? then Failure(NotPresented)
    else if env.snapshot.None? then Failure(FailedToSnapshot)
    else
      var imageViews := GhostsFor(env.snapshot.value, indexPath, env);
      var f := BandFrames(env.table, indexPath);
      var collapsed := Pins(SetConstant(s.pins.top, TopConstant(TopInset(f))),
                            SetConstant(s.pins.bottom, BottomConstant(BottomInsetAsWritten(f))));
      Success(s.(
        ghosts := s.ghosts + multiset{imageViews},
        forcedLayouts := s.forcedLayouts + [s.pins],
        pins := collapsed,
        inHierarchy := if animated then s.inHierarchy else false,
        pending := if animated then s.pending + [RemoveFromSuperview] else s.pending))
  }

  /**
   * The oldest running animation completes: its completion block removes its
   * ghost views or removes the presenter from its superview.
   */
  function CompleteAnimation(s: PresenterState): (t: PresenterState)
    ensures |s.pending| > 0 ==> t.pending == s.pending[1..]
    ensures s.pending == [] ==> t == s
    ensures t.presentedView == s.presentedView && t.pins == s.pins && t.hosted == s.hosted
    ensures t.forcedLayouts == s.forcedLayouts
    ensures t.ghosts <= s.ghosts
    ensures t.inHierarchy ==> s.inHierarchy
    ensures |s.pending| > 0 && s.pending[0].RemoveGhosts? ==>
      t.ghosts == s.ghosts - multiset{s.pending[0].views} && t.inHierarchy == s.inHierarchy
    ensures |s.pending| > 0 && s.pending[0].RemoveFromSuperview? ==>
      !t.inHierarchy && t.ghosts == s.ghosts
  {
    if s.pending == [] then s
    else match s.pending[0]
      case RemoveGhosts(views) => s.(ghosts := s.ghosts - multiset{views}, pending := s.pending[1..])
      case RemoveFromSuperview => s.(inHierarchy := false, pending := s.pending[1..])
  }
}
