/**
 * `ExpandingCellPresenter` as an object: its private properties are fields
 * that `PresentView`, `Dismiss` and the animation completions update step by
 * step, in the order of the source. Each method is proved to reach the state
 * the matching function of `Presentation` computes.
 */
module Presenter {
  import opened Wrappers
  import opened Geometry
  import opened GhostViews
  import opened Presentation

  class ExpandingCellPresenter {
    /** The row this presenter expands. */
    const indexPath: IndexPath

    var presentedView: Option<View>
    var topConstraint: Option<real>
    var bottomConstraint: Option<real>
    /** Views added as subviews by `PresentView`. */
    var hostedViews: set<View>
    /** Ghost view pairs attached as subviews. */
    var ghostViews: multiset<ImageViews>
    /** Whether the presenter has a superview. */
    var hasSuperview: bool
    /** Completion blocks of animations still running, oldest first. */
    var pendingCompletions: seq<Completion>
    /** The constraint constants at each forced layout pass. */
    ghost var forcedLayouts: seq<Pins>

    /** The presenter's state as a value. */
    ghost function State(): PresenterState
      reads this
    {
      PresenterState(presentedView, Pins(topConstraint, bottomConstraint), hostedViews,
                     ghostViews, hasSuperview, pendingCompletions, forcedLayouts)
    }

    /** `init(tableView:indexPath:)`: nothing presented, nothing attached. */
    constructor (indexPath: IndexPath)
      ensures this.indexPath == indexPath
      ensures State() == Initial
    {
      this.indexPath := indexPath;
      presentedView := None;
      topConstraint, bottomConstraint := None, None;
      hostedViews := {};
      ghostViews := multiset{};
      hasSuperview := false;
      pendingCompletions := [];
      forcedLayouts := [];
    }

    /** `presentView(_:animated:)`; a thrown failure is returned as `Fail`. */
    method PresentView(view: View, animated: bool, env: Environment) returns (outcome: Outcome<PresenterFailure>)
      modifies this
      ensures match Present(old(State()), indexPath, env, view, animated)
        case Success(t) => outcome == Pass && State() == t
        case Failure(e) => outcome == Fail(e) && State() == old(State())
    {
      if !env.tableHasSuperview {
        return Fail(TableViewHasNoParent);
      }
      if env.snapshot.None? {
        return Fail(FailedToSnapshot);
      }
      var snapshot := env.snapshot.value;
      var imageViews := MakeImageViews(snapshot, BandFrames(env.table, indexPath), env.scale, env.crop);

      // insert the presenter above the table and add the view pinned to the row's band
      hasSuperview := true;
      hostedViews := hostedViews + {view};
      topConstraint := Some(TopConstant(TopInset(BandFrames(env.table, indexPath))));
      bottomConstraint := Some(BottomConstant(BottomInsetAsWritten(BandFrames(env.table, indexPath))));

      ghostViews := ghostViews + multiset{imageViews};
      forcedLayouts := forcedLayouts + [Pins(topConstraint, bottomConstraint)];

      topConstraint := SetConstant(topConstraint, 0.0);
      bottomConstraint := SetConstant(bottomConstraint, 0.0);

      if animated {
        pendingCompletions := pendingCompletions + [RemoveGhosts(imageViews)];
      } else {
        ghostViews := ghostViews - multiset{imageViews};
      }

      presentedView := Some(view);
      outcome := Pass;
    }

    /** `dismiss(animated:adjustingScrollView:)`; a thrown failure is returned as `Fail`. */
    method Dismiss(animated: bool, env: Environment) returns (outcome: Outcome<PresenterFailure>)
      modifies this
      ensures match Presentation.Dismiss(old(State()), indexPath, env, animated)
        case Success(t) => outcome == Pass && State() == t
        case Failure(e) => outcome == Fail(e) && State() == old(State())
    {
      if presentedView.None? {
        return Fail(NotPresented);
      }
      if env.snapshot.None? {
        return Fail(FailedToSnapshot);
      }
      var snapshot := env.snapshot.value;
      var imageViews := MakeImageViews(snapshot, BandFrames(env.table, indexPath), env.scale, env.crop);

      ghostViews := ghostViews + multiset{imageViews};
      forcedLayouts := forcedLayouts + [Pins(topConstraint, bottomConstraint)];

      topConstraint := SetConstant(topConstraint, TopConstant(TopInset(BandFrames(env.table, indexPath))));
      bottomConstraint := SetConstant(bottomConstraint, BottomConstant(BottomInsetAsWritten(BandFrames(env.table, indexPath))));

      if animated {
        pendingCompletions := pendingCompletions + [RemoveFromSuperview];
      } else {
        hasSuperview := false;
      }
      outcome := Pass;
    }

    /** The oldest running animation completes and its completion block runs. */
    method CompleteAnimation()
      modifies this
      ensures State() == Presentation.CompleteAnimation(old(State()))
    {
      if pendingCompletions == [] {
        return;
      }
      var completion := pendingCompletions[0];
      pendingCompletions := pendingCompletions[1..];
      match completion
      case RemoveGhosts(views) =>
        ghostViews := ghostViews - multiset{views};
      case RemoveFromSuperview =>
        hasSuperview := false;
    }
  }
}
