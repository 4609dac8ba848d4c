# ExpandingCellPresenter in Dafny

`ExpandingCellPresenter` expands one row of a `UITableView` into a full-size
detail view. It computes three vertical bands of the table relative to the row:
the content above the row, the row itself, and the content below it. It crops
"ghost" image views for the outer bands out of a snapshot of the table. It pins
the detail view to the row's band, then releases it to fill the table while the
ghosts slide away. `dismiss` runs the same steps in reverse.

This project models that logic:

- `Geometry` (geometry.dfy): `CGRect` arithmetic over exact reals. It holds
  the computed `frames` (`BandFrames`) and the insets the presented view is
  pinned with.
- `GhostViews` (ghost_views.dfy): scaling a band to pixels, cropping through an
  oracle, and the empty placeholder used when a crop fails.
- `Presentation` (presentation.dfy): `presentView`, `dismiss` and the
  completion of an animation, written as functions on the presenter's state.
- `PresentationProperties` (presentation_properties.dfy): properties that span
  several calls, including invariants over any sequence of calls and
  completions.
- `Presenter` (presenter.dfy): the class `ExpandingCellPresenter`. Its fields
  are the source's private properties plus the view-tree facts the methods
  change. Each method updates them in the source's order and is proved to
  reach the state the matching `Presentation` function computes.

Inputs to each call (`Presentation.Environment`) are read at the moment of the
call, because the source recomputes `frames` on every access:

- the row rectangle the table reports (`rectForRow(at:)`);
- the scroll offset and the table's frame;
- whether the table has a superview;
- the result of the snapshot;
- the screen scale (`UIScreen.main.scale`, positive);
- the crop function of Core Graphics.

Some details of the code a reader may not expect:

- The middle band is not clamped to the table's bounds.
- `dismiss` checks for a presented view before it takes the snapshot.
- `dismiss` never clears `presentedView`, so a second `dismiss` does not throw
  `notPresented` (`SecondDismissDoesNotFail`).
- Nothing stops `presentView` from being called twice (`SecondPresentIsNotGuarded`).
- The ghost views attached by `dismiss` stay subviews of the presenter. They
  leave the screen only because the presenter leaves its superview.

## Model

| member | source | states |
|---|---|---|
| Geometry.BandFrames | ExpandableCellPresenter/UI/ExpandingCellPresenter/ExpandingCellPresenter.swift:49-80 | The middle band is the row rect moved up by the scroll offset, with the same x and size. The top band starts at (0,0) and ends where the middle band starts. The bottom band starts at x=0, y=middle.maxY and ends at the table's height. All three share the row's width. For a row of non-negative height, the signed heights add up to the table's height. |
| Geometry.BandsTileTable | ExpandableCellPresenter/UI/ExpandingCellPresenter/ExpandingCellPresenter.swift:61-77 | For a row inside the table, the standardized heights (`CGRect.height`) also partition the table. Each band's maxY is the next band's minY, from 0 down to the table's height. |
| Geometry.ScrolledRowBands | ExpandableCellPresenter/UI/ExpandingCellPresenter/ExpandingCellPresenter.swift:54-77 | Table height 800, row at y=300 with height 120, scroll offset 50: the bands have heights 250, 120 and 430, and the middle band starts at 250. |
| Geometry.BottomInsetAsWritten | ExpandableCellPresenter/UI/ExpandingCellPresenter/ExpandingCellPresenter.swift:109 | The bottom inset as the source computes it, `frames.bottom.height`, which is never negative. |
| Geometry.PinnedSpan | ExpandableCellPresenter/UI/ExpandingCellPresenter/ExpandingCellPresenter.swift:105-109 | A view pinned with a top constant t and a bottom constant b inside a superview of height H spans vertically from t to H + b. |
| Geometry.PinnedSpanIsRowBand | ExpandableCellPresenter/UI/ExpandingCellPresenter/ExpandingCellPresenter.swift:105-109 | With the signed bottom inset, the view pinned for the first layout spans exactly the row's band, for any row of non-negative height at any position and scroll offset. |
| Geometry.BottomInsetsAgreeInsideTable | ExpandableCellPresenter/UI/ExpandingCellPresenter/ExpandingCellPresenter.swift:109 | When the row lies inside the table, the source's inset equals the signed inset. |
| Geometry.ClippedRowPinnedTooShort | ExpandableCellPresenter/UI/ExpandingCellPresenter/ExpandingCellPresenter.swift:109 | A 150-point row that sticks out 50 points below an 800-point table gets inset 50 from the source's formula. The pinned view is then 50 points high instead of 150. |
| GhostViews.ScaleRect | ExpandableCellPresenter/UI/ExpandingCellPresenter/ExpandingCellPresenter.swift:190-195 | Every component of the rect (origin x and y, width and height) is multiplied by the scale. |
| GhostViews.ScaleRectInverse | ExpandableCellPresenter/UI/ExpandingCellPresenter/ExpandingCellPresenter.swift:189-195 | Scaling a rect to pixels multiplies every component by the same positive factor, so scaling by the reciprocal gives the original rect back. |
| GhostViews.ScaledBandsKeepTiling | ExpandableCellPresenter/UI/ExpandingCellPresenter/ExpandingCellPresenter.swift:189-195 | In pixels, the top band still ends where the middle band starts and the bottom band still ends at the scaled table height. For a row of non-negative height, the scaled heights still partition the scaled height. |
| GhostViews.ImageViewOf | ExpandableCellPresenter/UI/ExpandingCellPresenter/ExpandingCellPresenter.swift:199-201 | The image view of a crop holds the crop, and its size in points times the scale is the crop's pixel size. |
| GhostViews.MakeImageView | ExpandableCellPresenter/UI/ExpandingCellPresenter/ExpandingCellPresenter.swift:188-204 | There is no view exactly when the crop of the snapshot to the scaled band fails. Otherwise the view holds that crop. |
| GhostViews.MakeEmptyImageView | ExpandableCellPresenter/UI/ExpandingCellPresenter/ExpandingCellPresenter.swift:206-211 | The placeholder has no image, the given width and height 0. |
| GhostViews.GhostView | ExpandableCellPresenter/UI/ExpandingCellPresenter/ExpandingCellPresenter.swift:182-183 | A failed crop becomes the placeholder as wide as the snapshot. A successful crop gives the crop's view. |
| GhostViews.MakeImageViews | ExpandableCellPresenter/UI/ExpandingCellPresenter/ExpandingCellPresenter.swift:181-186 | The top and bottom ghosts each hold the crop of their own band. Each one falls back to a zero-height placeholder separately. A failed crop is never an error. |
| GhostViews.GhostViewMatchesBand | ExpandableCellPresenter/UI/ExpandingCellPresenter/ExpandingCellPresenter.swift:197-201 | When the crop has the size of the rect it was given, the ghost view has exactly its band's size in points. |
| Presentation.SetConstant | ExpandableCellPresenter/UI/ExpandingCellPresenter/ExpandingCellPresenter.swift:145-146 | `constraint?.constant = c` sets a constraint that exists to c and leaves a missing one missing. |
| Presentation.RowBandPins | ExpandableCellPresenter/UI/ExpandingCellPresenter/ExpandingCellPresenter.swift:108-109 | The view is first pinned with top constant `frames.middle.origin.y` and bottom constant minus `frames.bottom.height`. That bottom constant is never positive. |
| Presentation.Present | ExpandableCellPresenter/UI/ExpandingCellPresenter/ExpandingCellPresenter.swift:93-133 | With no superview it throws `tableViewHasNoParent`, whatever the snapshot. Otherwise a failed snapshot throws `failedToSnapshot`. It succeeds exactly when both checks pass. On success: the view is presented and hosted; the presenter is in the hierarchy; the single forced layout uses the row-band constants (middle.y and minus `frames.bottom.height`); both constants end at 0. The ghosts are removed at once when not animated, or queued for removal when animated. |
| Presentation.Dismiss | ExpandableCellPresenter/UI/ExpandingCellPresenter/ExpandingCellPresenter.swift:135-162 | With no presented view it throws `notPresented`, whatever the snapshot. Otherwise a failed snapshot throws `failedToSnapshot`. On success: `presentedView` is unchanged (never cleared). Existing constraints take middle.y and minus `frames.bottom.height`, from the geometry at this call. Fresh ghosts are attached. The presenter leaves its superview at once when not animated, or on completion when animated. |
| Presentation.CompleteAnimation | ExpandableCellPresenter/UI/ExpandingCellPresenter/ExpandingCellPresenter.swift:118-161 | The oldest pending completion runs and leaves the queue. A ghost-removal completion removes exactly its ghost pair and leaves the hierarchy flag as it was. A superview-removal completion takes the presenter out of its superview and leaves the ghosts as they were. Presented view, constraints, hosted views and forced layouts do not change. With nothing pending, nothing changes. |
| PresentationProperties.PresentThenDismissRestoresRowBand | ExpandableCellPresenter/UI/ExpandingCellPresenter/ExpandingCellPresenter.swift:105-146 | Dismissing with the geometry present saw restores exactly the constants present first pinned the view with. The view stays presented. A non-animated dismiss removes the overlay. |
| PresentationProperties.AnimatedPresentSettles | ExpandableCellPresenter/UI/ExpandingCellPresenter/ExpandingCellPresenter.swift:118-130 | With no other animation running, an animated present whose animation has completed is in the state a non-animated present reaches. |
| PresentationProperties.AnimatedDismissSettles | ExpandableCellPresenter/UI/ExpandingCellPresenter/ExpandingCellPresenter.swift:150-161 | With no other animation running, an animated dismiss whose animation has completed is in the state a non-animated dismiss reaches. |
| PresentationProperties.ImmediatePresentLeavesNoGhosts | ExpandableCellPresenter/UI/ExpandingCellPresenter/ExpandingCellPresenter.swift:128-132 | A non-animated present from a fresh presenter leaves no ghost attached, no animation pending and the view filling the presenter. |
| PresentationProperties.SecondPresentIsNotGuarded | ExpandableCellPresenter/UI/ExpandingCellPresenter/ExpandingCellPresenter.swift:93-133 | A second present succeeds too. It replaces the presented view and leaves both views as subviews. |
| PresentationProperties.SecondDismissDoesNotFail | ExpandableCellPresenter/UI/ExpandingCellPresenter/ExpandingCellPresenter.swift:135-162 | Dismissing twice does not throw `notPresented` the second time. |
| PresentationProperties.Step | ExpandableCellPresenter/UI/ExpandingCellPresenter/ExpandingCellPresenter.swift:93-162 | One call or completion keeps the presenter consistent: a presented view is hosted and both constraints exist. A call that throws changes nothing. Only `presentView` changes the presented view, and only ever to another view. |
| PresentationProperties.RunKeepsConsistent | ExpandableCellPresenter/UI/ExpandingCellPresenter/ExpandingCellPresenter.swift:93-162 | Any sequence of calls and completions keeps the presenter consistent. |
| PresentationProperties.PresentedViewIsNeverCleared | ExpandableCellPresenter/UI/ExpandingCellPresenter/ExpandingCellPresenter.swift:135-162 | Once a view is presented, it stays presented after any sequence of calls and completions. |
| PresentationProperties.NoPresentationWithoutPresent | ExpandableCellPresenter/UI/ExpandingCellPresenter/ExpandingCellPresenter.swift:93-162 | Without a `presentView` call, no view ever becomes presented. |
| PresentationProperties.DismissBeforePresentFails | ExpandableCellPresenter/UI/ExpandingCellPresenter/ExpandingCellPresenter.swift:136 | `dismiss` after any sequence of calls with no `presentView` among them throws `notPresented`. |
| PresentationProperties.DismissAlwaysAvailableAfterPresent | ExpandableCellPresenter/UI/ExpandingCellPresenter/ExpandingCellPresenter.swift:135-162 | Once a view is presented, every later `dismiss` with a working snapshot succeeds. |
| Presenter.ExpandingCellPresenter.constructor | ExpandableCellPresenter/UI/ExpandingCellPresenter/ExpandingCellPresenter.swift:82-87 | A new presenter has nothing presented, no constraints, no subviews, no superview and no running animation. |
| Presenter.ExpandingCellPresenter.PresentView | ExpandableCellPresenter/UI/ExpandingCellPresenter/ExpandingCellPresenter.swift:93-133 | Performs the present steps on its fields, in the source's order. It returns the failure `Present` gives and leaves the state untouched on failure. On success it reaches `Present`'s state. |
| Presenter.ExpandingCellPresenter.Dismiss | ExpandableCellPresenter/UI/ExpandingCellPresenter/ExpandingCellPresenter.swift:135-162 | Performs the dismiss steps on its fields, in the source's order. It returns the failure `Dismiss` gives and leaves the state untouched on failure. On success it reaches `Dismiss`'s state. |
| Presenter.ExpandingCellPresenter.CompleteAnimation | ExpandableCellPresenter/UI/ExpandingCellPresenter/ExpandingCellPresenter.swift:118-161 | Runs the oldest pending completion block, reaching the state `CompleteAnimation` computes. |

## Left out

- Snapshot rendering (`UIGraphicsBeginImageContextWithOptions`, `layer.render`, the translation by the scroll offset): this is UIKit rasterisation. The snapshot's result is an input, a bitmap known by its pixel size, or nothing.
- `CGImage.cropping(to:)`: Core Graphics is not part of this model. It is an oracle function of the image and the pixel rect.
- Auto Layout solving and PureLayout: only the constants of the top and bottom constraints and the attached views are kept. Pinning the presenter and the view's leading and trailing edges, and the ghosts' alignment, are not modelled. For the bottom edge, PureLayout's constant is taken as the negated inset.
- Animation timing (0.5 s, ease-out curve): animations are queued, and completion is a separate step that runs the oldest one.
- The layout pass inside the animation block: only the forced `layoutIfNeeded()` before the constants change is recorded.
- The default arguments `animated: Bool = true` and `adjustingScrollView: UIScrollView? = nil`: the model always takes `animated` explicitly and has no scroll-view parameter.
- `adjustingScrollView?.setContentOffset(.zero, animated:)`: it changes another view's state only, so it is not modelled.
- Floating-point rounding of `CGFloat`: exact reals are used.
- `tableView.convert(_:to: tableView)` is the identity and is left out. The presenter does not keep the table view; its state arrives with each call.
- `setup()` (`clipsToBounds`) and `init?(coder:)`, which only traps: they have no state to state anything about.
- The list view and the compact content view (ExpandingCellPresenter/UI/ContentView/\*): pure view configuration with no behaviour.
- View identity: ghost views are values, so two equal ghost pairs cannot be told apart. The attached ghosts are a multiset.

## Findings

The state machine (`Presentation`, `Presenter`) pins with the inset as written, `frames.bottom.height`. The corrected, signed inset is `Geometry.BottomInset`, and `Geometry.PinnedSpanIsRowBand` states what it achieves.

| source | as written | input that shows it | evidently intended | confidence | as-written member | corrected member |
|---|---|---|---|---|---|---|
| ExpandableCellPresenter/UI/ExpandingCellPresenter/ExpandingCellPresenter.swift:109 | The bottom inset is `frames.bottom.height`. `CGRect.height` is never negative. Line 146 uses the same expression. | Table height 800, row at y=700 with height 150, no scroll: the bottom band's height is -50, so the inset is 50. The pinned view spans 50 points instead of the row's 150. | Inset `frames.bottom.size.height`, the signed distance from the row to the table's bottom, so the pinned view covers the row. | medium, not executed | Geometry.ClippedRowPinnedTooShort | Geometry.PinnedSpanIsRowBand |
