/**
 * Properties of the presentation state machine that relate several calls:
 * the round trip present/dismiss, what an animation settles to, what the
 * lack of guards in the source allows, and invariants over any sequence of
 * calls.
 */
module PresentationProperties {
  import opened Wrappers
  import opened Geometry
  import opened Presentation

  /**
   * Dismissing with the geometry that presenting saw puts the constraints
   * back to the constants the view was first pinned with; a non-animated
   * dismiss also takes the presenter out of the hierarchy. The presented
   * view stays recorded.
   */
  lemma PresentThenDismissRestoresRowBand(
    s: PresenterState, indexPath: IndexPath, view: View,
    presentEnv: Environment, presentAnimated: bool,
    dismissEnv: Environment, dismissAnimated: bool)
    requires Present(s, indexPath, presentEnv, view, presentAnimated).Success?
    requires dismissEnv.snapshot.Some?
    requires BandFrames(dismissEnv.table, indexPath) == BandFrames(presentEnv.table, indexPath)
    ensures var p := Present(s, indexPath, presentEnv, view, presentAnimated).value;
      var d := Dismiss(p, indexPath, dismissEnv, dismissAnimated);
      && d.Success?
      && d.value.pins == p.forcedLayouts[|p.forcedLayouts| - 1]
      && d.value.pins == RowBandPins(BandFrames(presentEnv.table, indexPath))
      && d.value.presentedView == Some(view)
      && (!dismissAnimated ==> !d.value.inHierarchy)
  {
  }

  /**
   * With no other animation running, an animated present that has completed
   * is in the state a non-animated present reaches at once.
   */
  lemma AnimatedPresentSettles(s: PresenterState, indexPath: IndexPath, env: Environment, view: View)
    requires s.pending == []
    requires env.tableHasSuperview && env.snapshot.Some?
    ensures Present(s, indexPath, env, view, true).Success?
    ensures CompleteAnimation(Present(s, indexPath, env, view, true).value)
         == Present(s, indexPath, env, view, false).value
  {
  }

  /**
   * With no other animation running, an animated dismiss that has completed
   * is in the state a non-animated dismiss reaches at once.
   */
  lemma AnimatedDismissSettles(s: PresenterState, indexPath: IndexPath, env: Environment)
    requires s.pending == []
    requires s.presentedView.Some? && env.snapshot.Some?
    ensures Dismiss(s, indexPath, env, true).Success?
    ensures CompleteAnimation(Dismiss(s, indexPath, env, true).value)
         == Dismiss(s, indexPath, env, false).value
  {
  }

  /**
   * A non-animated present from the initial state leaves no ghost view
   * attached and the view filling the presenter (both constants 0).
   */
  lemma ImmediatePresentLeavesNoGhosts(indexPath: IndexPath, env: Environment, view: View)
    requires env.tableHasSuperview && env.snapshot.Some?
    ensures var t := Present(Initial, indexPath, env, view, false);
      && t.Success?
      && t.value.ghosts == multiset{}
      && t.value.pending == []
      && t.value.pins == Pins(Some(0.0), Some(0.0))
      && t.value.inHierarchy
  {
  }

  /**
   * Nothing guards `presentView` against a second call: it succeeds again,
   * replaces the presented view, and the first view stays a subview.
   */
  lemma SecondPresentIsNotGuarded(
    s: PresenterState, indexPath: IndexPath,
    first: View, firstEnv: Environment, firstAnimated: bool,
    second: View, secondEnv: Environment, secondAnimated: bool)
    requires Present(s, indexPath, firstEnv, first, firstAnimated).Success?
    requires secondEnv.tableHasSuperview && secondEnv.snapshot.Some?
    ensures var p := Present(s, indexPath, firstEnv, first, firstAnimated).value;
      var q := Present(p, indexPath, secondEnv, second, secondAnimated);
      && q.Success?
      && q.value.presentedView == Some(second)
      && {first, second} <= q.value.hosted
      && |q.value.forcedLayouts| == |s.forcedLayouts| + 2
  {
  }

  /**
   * `dismiss` never clears the presented view, so dismissing a second time
   * does not throw `notPresented`: with a snapshot it succeeds again.
   */
  lemma SecondDismissDoesNotFail(
    s: PresenterState, indexPath: IndexPath,
    firstEnv: Environment, firstAnimated: bool,
    secondEnv: Environment, secondAnimated: bool)
    requires Dismiss(s, indexPath, firstEnv, firstAnimated).Success?
    requires secondEnv.snapshot.Some?
    ensures Dismiss(Dismiss(s, indexPath, firstEnv, firstAnimated).value, indexPath, secondEnv, secondAnimated).Success?
  {
  }

  /** One call from the outside, or the completion of an animation. */
  datatype Event =
    | PresentCall(view: View, animated: bool, env: Environment)
    | DismissCall(animated: bool, env: Environment)
    | AnimationCompleted

  /** Presented implies: the view is a subview and both constraints exist. */
  predicate Consistent(s: PresenterState)
  {
    s.presentedView.Some? ==>
      s.presentedView.value in s.hosted && s.pins.top.Some? && s.pins.bottom.Some?
  }

  /** The state after one event; a call that throws leaves the state as it was. */
  function Step(s: PresenterState, indexPath: IndexPath, e: Event): (t: PresenterState)
    ensures Consistent(s) ==> Consistent(t)
    ensures s.presentedView.Some? ==> t.presentedView.Some?
    ensures !e.PresentCall? ==> t.presentedView == s.presentedView
    ensures e.PresentCall? && Present(s, indexPath, e.env, e.view, e.animated).Failure? ==> t == s
    ensures e.DismissCall? && Dismiss(s, indexPath, e.env, e.animated).Failure? ==> t == s
  {
    match e
    case PresentCall(view, animated, env) =>
      (match Present(s, indexPath, env, view, animated)
       case Success(t) => t
       case Failure(_) => s)
    case DismissCall(animated, env) =>
      (match Dismiss(s, indexPath, env, animated)
       case Success(t) => t
       case Failure(_) => s)
    case AnimationCompleted => CompleteAnimation(s)
  }

  /** The state after a sequence of events, in order. */
  function Run(s: PresenterState, indexPath: IndexPath, events: seq<Event>): (t: PresenterState)
    decreases |events|
  {
    if events == [] then s else Run(Step(s, indexPath, events[0]), indexPath, events[1..])
  }

  /** Every sequence of calls and completions keeps the presenter consistent. */
  lemma {:induction false} RunKeepsConsistent(s: PresenterState, indexPath: IndexPath, events: seq<Event>)
    requires Consistent(s)
    ensures Consistent(Run(s, indexPath, events))
    decreases |events|
  {
    if events != [] {
      RunKeepsConsistent(Step(s, indexPath, events[0]), indexPath, events[1..]);
    }
  }

  /** Once a view is presented, no later call clears the presented view. */
  lemma {:induction false} PresentedViewIsNeverCleared(s: PresenterState, indexPath: IndexPath, events: seq<Event>)
    requires s.presentedView.Some?
    ensures Run(s, indexPath, events).presentedView.Some?
    decreases |events|
  {
    if events != [] {
      PresentedViewIsNeverCleared(Step(s, indexPath, events[0]), indexPath, events[1..]);
    }
  }

  /** Without a call to `presentView`, no view ever becomes presented. */
  lemma {:induction false} NoPresentationWithoutPresent(s: PresenterState, indexPath: IndexPath, events: seq<Event>)
    requires s.presentedView.None?
    requires forall i :: 0 <= i < |events| ==> !events[i].PresentCall?
    ensures Run(s, indexPath, events).presentedView.None?
    decreases |events|
  {
    if events != [] {
      NoPresentationWithoutPresent(Step(s, indexPath, events[0]), indexPath, events[1..]);
    }
  }

  /**
   * `dismiss` before any `presentView` throws `notPresented`, whatever else
   * happened and whether or not a snapshot would succeed.
   */
  lemma DismissBeforePresentFails(indexPath: IndexPath, events: seq<Event>, env: Environment, animated: bool)
    requires forall i :: 0 <= i < |events| ==> !events[i].PresentCall?
    ensures Dismiss(Run(Initial, indexPath, events), indexPath, env, animated) == Failure(NotPresented)
  {
    NoPresentationWithoutPresent(Initial, indexPath, events);
  }

  /**
   * Once a view is presented, every later `dismiss` with a snapshot succeeds,
   * however many dismissals came before.
   */
  lemma DismissAlwaysAvailableAfterPresent(
    s: PresenterState, indexPath: IndexPath, events: seq<Event>, env: Environment, animated: bool)
    requires s.presentedView.Some?
    requires env.snapshot.Some?
    ensures Dismiss(Run(s, indexPath, events), indexPath, env, animated).Success?
  {
    PresentedViewIsNeverCleared(s, indexPath, events);
  }
}
