/** The gesture handlers of the LeftSwipe container as transitions on a value.
    The component's state is the `show` toggle, the animated drive value
    (translateX), the scroll-enabled flag it shares with the enclosing scroll
    view, the measured width of the hidden left panel and the spring that a
    release may have started. The spring's physics are abstracted to its
    target: a separate Settle event moves the drive value onto the target and
    runs the completion callback, which flips `show`. */
module Gesture {

  datatype Option<T> = None | Some(value: T)

  datatype SwipeState = SwipeState(
    show: bool,              // the useToggle flag: is the left panel revealed
    drive: real,             // the animated value translateX
    scrollEnabled: bool,     // the flag shared with the enclosing scroll view
    leftWidth: real,         // the measured width of the left panel
    pending: Option<real>)   // target of the spring in flight, if any

  /** The events the container reacts to: a layout measurement of the left
      panel, the three pan-responder callbacks, and the end of a spring. */
  datatype Event = Layout(width: real) | Grant | Move(dx: real) | Release(dx: real) | Settle

  /** The state at mount: hidden, drive 0, width not yet measured, no spring. */
  function Initial(scrollEnabled: bool): SwipeState
  {
    SwipeState(false, 0.0, scrollEnabled, 0.0, None)
  }

  /** A sample that drags further closed while the panel is already hidden. */
  predicate Ignored(show: bool, dx: real)
  {
    !show && dx < 0.0
  }

  /** The spring target a release chooses: close when shown, open when hidden. */
  function Target(show: bool, leftWidth: real): real
  {
    if show then 0.0 else leftWidth
  }

  /** The drive value of the rest state that goes with `show`. */
  function RestDrive(show: bool, leftWidth: real): real
  {
    if show then leftWidth else 0.0
  }

  function OnLayout(s: SwipeState, width: real): SwipeState
  {
    s.(leftWidth := width)
  }

  /** onPanResponderGrant: lock the enclosing scroll view on iOS only. */
  function OnGrant(ios: bool, s: SwipeState): SwipeState
  {
    if ios then s.(scrollEnabled := false) else s
  }

  /** onPanResponderMove: track dx one to one unless the sample is ignored. */
  function OnMove(s: SwipeState, dx: real): SwipeState
  {
    if Ignored(s.show, dx) then s else s.(drive := dx)
  }

  /** onPanResponderRelease: unlock on iOS first, then, unless the release is
      ignored, start a spring toward the opposite rest state. */
  function OnRelease(ios: bool, s: SwipeState, dx: real): SwipeState
  {
    var unlocked := if ios then s.(scrollEnabled := true) else s;
    if Ignored(s.show, dx) then unlocked
    else unlocked.(pending := Some(Target(s.show, s.leftWidth)))
  }

  /** The spring reaches its target and its completion callback toggles `show`;
      with no spring in flight there is nothing to complete. */
  function OnSettle(s: SwipeState): SwipeState
  {
    match s.pending
    case None => s
    case Some(t) => s.(drive := t, show := !s.show, pending := None)
  }

  function Step(ios: bool, s: SwipeState, e: Event): SwipeState
  {
    match e
    case Layout(w) => OnLayout(s, w)
    case Grant => OnGrant(ios, s)
    case Move(dx) => OnMove(s, dx)
    case Release(dx) => OnRelease(ios, s, dx)
    case Settle => OnSettle(s)
  }

  /** The state after the events `es`, delivered one at a time in order. */
  function Run(ios: bool, s: SwipeState, es: seq<Event>): SwipeState
    decreases |es|
  {
    if es == [] then s else Run(ios, Step(ios, s, es[0]), es[1..])
  }

  /** The number of springs that complete while the events `es` are delivered. */
  function SpringsCompleted(ios: bool, s: SwipeState, es: seq<Event>): nat
    decreases |es|
  {
    if es == [] then 0
    else (if es[0].Settle? && s.pending.Some? then 1 else 0)
         + SpringsCompleted(ios, Step(ios, s, es[0]), es[1..])
  }

  /** The drag samples of one gesture, as move events. */
  function Moves(dxs: seq<real>): (es: seq<Event>)
    ensures |es| == |dxs|
    ensures forall i :: 0 <= i < |dxs| ==> es[i] == Move(dxs[i])
  {
    if dxs == [] then [] else [Move(dxs[0])] + Moves(dxs[1..])
  }

  /** The events of one complete gesture whose spring, if any, is allowed to
      settle. */
  function GestureEvents(dxs: seq<real>, releaseDx: real): seq<Event>
  {
    [Grant] + Moves(dxs) + [Release(releaseDx), Settle]
  }

  /** A spring in flight always heads for the rest state opposite to `show`. */
  predicate Consistent(s: SwipeState)
  {
    s.pending.Some? ==> s.pending.value == Target(s.show, s.leftWidth)
  }

  /** No spring in flight and the drive value on the rest state of `show`. */
  predicate AtRest(s: SwipeState)
  {
    s.pending.None? && s.drive == RestDrive(s.show, s.leftWidth)
  }

  // ---------------------------------------------------------------------
  // The handlers one at a time

  /** Grant touches only the scroll flag, and only on iOS, where it locks it. */
  lemma GrantLocksOnIos(ios: bool, s: SwipeState)
    ensures OnGrant(ios, s).scrollEnabled == (if ios then false else s.scrollEnabled)
    ensures OnGrant(ios, s).(scrollEnabled := s.scrollEnabled) == s
  {
  }

  /** An ignored move changes nothing; any other move sets the drive value to
      exactly dx, unclamped, and changes nothing else. */
  lemma MoveTracksOrIgnores(s: SwipeState, dx: real)
    ensures Ignored(s.show, dx) ==> OnMove(s, dx) == s
    ensures !Ignored(s.show, dx) ==> OnMove(s, dx).drive == dx
    ensures OnMove(s, dx).(drive := s.drive) == s
  {
  }

  /** On iOS a release unlocks the scroll view whether or not it is ignored;
      elsewhere the flag is untouched. An ignored release starts no spring and
      leaves `show` and the drive value alone. */
  lemma ReleaseUnlocksThenChecks(ios: bool, s: SwipeState, dx: real)
    ensures OnRelease(ios, s, dx).scrollEnabled == (if ios then true else s.scrollEnabled)
    ensures OnRelease(ios, s, dx).show == s.show
    ensures OnRelease(ios, s, dx).drive == s.drive
    ensures Ignored(s.show, dx) ==> OnRelease(ios, s, dx).pending == s.pending
  {
  }

  /** A release that is not ignored toggles rather than thresholds: the target
      is 0 when shown and leftWidth when hidden, whatever the size of dx. */
  lemma ReleaseTargetIgnoresMagnitude(ios: bool, s: SwipeState, dx1: real, dx2: real)
    requires !Ignored(s.show, dx1) && !Ignored(s.show, dx2)
    ensures OnRelease(ios, s, dx1) == OnRelease(ios, s, dx2)
    ensures OnRelease(ios, s, dx1).pending == Some(if s.show then 0.0 else s.leftWidth)
  {
  }

  /** Completing a consistent spring lands on the opposite rest state; with a
      measured width, `show` holds exactly when the drive value is leftWidth,
      and fails exactly when it is 0. */
  lemma SettleLandsAtRest(s: SwipeState)
    requires Consistent(s) && s.pending.Some?
    ensures OnSettle(s).show == !s.show
    ensures AtRest(OnSettle(s))
    ensures s.leftWidth > 0.0 ==>
      (OnSettle(s).show <==> OnSettle(s).drive == s.leftWidth) &&
      (!OnSettle(s).show <==> OnSettle(s).drive == 0.0)
  {
  }

  /** Every step except a re-measurement during a spring keeps a spring
      heading for the rest state opposite to `show`. */
  lemma StepKeepsConsistent(ios: bool, s: SwipeState, e: Event)
    requires Consistent(s)
    requires e.Layout? ==> s.pending.None? || e.width == s.leftWidth
    ensures Consistent(Step(ios, s, e))
  {
  }

  // ---------------------------------------------------------------------
  // Runs of events

  lemma {:induction false} RunAppend(ios: bool, s: SwipeState, a: seq<Event>, b: seq<Event>)
    ensures Run(ios, s, a + b) == Run(ios, Run(ios, s, a), b)
    decreases |a|
  {
    if a == [] {
      assert a + b == b;
    } else {
      assert (a + b)[0] == a[0];
      assert (a + b)[1..] == a[1..] + b;
      RunAppend(ios, Step(ios, s, a[0]), a[1..], b);
    }
  }

  /** `show` changes only when a spring completes: after any run it has flipped
      once per completed spring. */
  lemma {:induction false} ShowFlipsPerCompletion(ios: bool, s: SwipeState, es: seq<Event>)
    ensures Run(ios, s, es).show == (s.show != (SpringsCompleted(ios, s, es) % 2 == 1))
    decreases |es|
  {
    if es != [] {
      ShowFlipsPerCompletion(ios, Step(ios, s, es[0]), es[1..]);
    }
  }

  /** From mount, the panel is revealed exactly when an odd number of springs
      has completed. */
  lemma ParityFromMount(ios: bool, scrollEnabled: bool, es: seq<Event>)
    ensures Run(ios, Initial(scrollEnabled), es).show == (SpringsCompleted(ios, Initial(scrollEnabled), es) % 2 == 1)
  {
    ShowFlipsPerCompletion(ios, Initial(scrollEnabled), es);
  }

  /** Off iOS the container never writes the shared scroll flag. */
  lemma {:induction false} NoScrollWritesOffIos(s: SwipeState, es: seq<Event>)
    ensures Run(false, s, es).scrollEnabled == s.scrollEnabled
    decreases |es|
  {
    if es != [] {
      NoScrollWritesOffIos(Step(false, s, es[0]), es[1..]);
    }
  }

  /** A run in which the panel is re-measured only while no spring is in
      flight keeps every spring heading for the rest state opposite to `show`. */
  lemma {:induction false} RunKeepsConsistent(ios: bool, s: SwipeState, es: seq<Event>)
    requires Consistent(s)
    requires forall i :: 0 <= i < |es| && es[i].Layout? ==> Run(ios, s, es[..i]).pending.None?
    ensures Consistent(Run(ios, s, es))
    decreases |es|
  {
    if es != [] {
      assert es[..0] == [];
      StepKeepsConsistent(ios, s, es[0]);
      var s1 := Step(ios, s, es[0]);
      forall i | 0 <= i < |es[1..]| && es[1..][i].Layout?
        ensures Run(ios, s1, es[1..][..i]).pending.None?
      {
        assert es[..i + 1] == [es[0]] + es[1..][..i];
        RunCons(ios, s, es[0], es[1..][..i]);
      }
      RunKeepsConsistent(ios, s1, es[1..]);
    }
  }

  /** Drag samples move only the drive value. While shown it ends on the last
      sample; while hidden the ignore rule keeps a non-negative drive value
      non-negative, and every value it takes is the old one or a sample. */
  lemma {:induction false} DragMovesOnlyDrive(ios: bool, s: SwipeState, dxs: seq<real>)
    ensures Run(ios, s, Moves(dxs)).(drive := s.drive) == s
    ensures s.show && dxs != [] ==> Run(ios, s, Moves(dxs)).drive == dxs[|dxs| - 1]
    ensures !s.show && s.drive >= 0.0 ==> Run(ios, s, Moves(dxs)).drive >= 0.0
    ensures Run(ios, s, Moves(dxs)).drive == s.drive ||
            exists i :: 0 <= i < |dxs| && Run(ios, s, Moves(dxs)).drive == dxs[i]
    decreases |dxs|
  {
    if dxs != [] {
      var es := Moves(dxs);
      assert es[0] == Move(dxs[0]) && es[1..] == Moves(dxs[1..]);
      var s1 := OnMove(s, dxs[0]);
      DragMovesOnlyDrive(ios, s1, dxs[1..]);
      var r := Run(ios, s1, Moves(dxs[1..]));
      if r.drive != s1.drive {
        var i :| 0 <= i < |dxs[1..]| && r.drive == dxs[1..][i];
        assert r.drive == dxs[i + 1];
      } else if s1.drive != s.drive {
        assert r.drive == dxs[0];
      }
    }
  }

  /** Delivering one event and then the rest. */
  lemma RunCons(ios: bool, s: SwipeState, e: Event, es: seq<Event>)
    ensures Run(ios, s, [e] + es) == Run(ios, Step(ios, s, e), es)
  {
    assert ([e] + es)[0] == e && ([e] + es)[1..] == es;
  }

  /** A gesture's grant and drag samples change only the drive value and, on
      iOS, lock the scroll view for the whole drag. */
  lemma DragPhase(ios: bool, s: SwipeState, dxs: seq<real>)
    ensures var dragged := Run(ios, s, [Grant] + Moves(dxs));
      dragged == s.(drive := dragged.drive, scrollEnabled := if ios then false else s.scrollEnabled) &&
      dragged.drive == Run(ios, OnGrant(ios, s), Moves(dxs)).drive
  {
    RunCons(ios, s, Grant, Moves(dxs));
    DragMovesOnlyDrive(ios, OnGrant(ios, s), dxs);
  }

  /** The release and the settle event that end a gesture. */
  lemma ReleasePhase(ios: bool, s: SwipeState, releaseDx: real)
    ensures Run(ios, s, [Release(releaseDx), Settle]) == OnSettle(OnRelease(ios, s, releaseDx))
  {
    RunCons(ios, s, Release(releaseDx), [Settle]);
    RunCons(ios, OnRelease(ios, s, releaseDx), Settle, []);
  }

  /** A whole gesture is its drag phase followed by its release phase. */
  lemma SwipePhases(ios: bool, s: SwipeState, dxs: seq<real>, releaseDx: real)
    ensures Run(ios, s, GestureEvents(dxs, releaseDx))
         == OnSettle(OnRelease(ios, Run(ios, s, [Grant] + Moves(dxs)), releaseDx))
  {
    RunAppend(ios, s, [Grant] + Moves(dxs), [Release(releaseDx), Settle]);
    ReleasePhase(ios, Run(ios, s, [Grant] + Moves(dxs)), releaseDx);
  }

  /** A gesture whose release is not ignored, started from any state, ends at
      the rest state opposite to the one it started in; on iOS the scroll flag
      is unlocked again, elsewhere it is as it was. */
  lemma SwipeToggles(ios: bool, s: SwipeState, dxs: seq<real>, releaseDx: real)
    requires !Ignored(s.show, releaseDx)
    ensures Run(ios, s, GestureEvents(dxs, releaseDx)).show == !s.show
    ensures AtRest(Run(ios, s, GestureEvents(dxs, releaseDx)))
    ensures Run(ios, s, GestureEvents(dxs, releaseDx)).leftWidth == s.leftWidth
    ensures Run(ios, s, GestureEvents(dxs, releaseDx)).scrollEnabled == (ios || s.scrollEnabled)
  {
    DragPhase(ios, s, dxs);
    SwipePhases(ios, s, dxs, releaseDx);
  }

  /** A gesture from hidden whose release is ignored starts no spring and leaves
      the panel hidden, with the drive value wherever the drag phase left it. */
  lemma IgnoredSwipeStaysHidden(ios: bool, s: SwipeState, dxs: seq<real>, releaseDx: real)
    requires !s.show && s.pending.None?
    requires releaseDx < 0.0
    ensures var r := Run(ios, s, GestureEvents(dxs, releaseDx));
      !r.show && r.pending.None? && r.leftWidth == s.leftWidth &&
      r.scrollEnabled == (ios || s.scrollEnabled) &&
      r.drive == Run(ios, OnGrant(ios, s), Moves(dxs)).drive
  {
    DragPhase(ios, s, dxs);
    SwipePhases(ios, s, dxs, releaseDx);
  }

  /** A hidden panel dragged right and then released left of its start point:
      no spring starts, the panel stays hidden, and the drive value is left at
      the last tracked sample instead of a rest state. */
  lemma IgnoredReleaseStrandsDrive()
    ensures var r := Run(true, OnLayout(Initial(true), 100.0), GestureEvents([30.0, -5.0], -5.0));
            !r.show && r.pending.None? && r.drive == 30.0 && !AtRest(r)
  {
    var s := OnLayout(Initial(true), 100.0);
    IgnoredSwipeStaysHidden(true, s, [30.0, -5.0], -5.0);
    var g := OnGrant(true, s);
    RunCons(true, g, Move(30.0), [Move(-5.0)]);
    RunCons(true, OnMove(g, 30.0), Move(-5.0), []);
    assert Moves([30.0, -5.0]) == [Move(30.0)] + [Move(-5.0)];
  }

  /** With the width never measured the handlers have no guard: a rightward
      swipe still toggles `show`, and the spring's target is 0. */
  lemma UnmeasuredWidthStillToggles()
    ensures var r := Run(false, Initial(true), GestureEvents([50.0], 50.0));
            r.show && r.drive == 0.0
  {
    SwipeToggles(false, Initial(true), [50.0], 50.0);
  }
}
