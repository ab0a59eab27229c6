/** The LeftSwipe container as an object whose handlers update its state in
    place. Each method's new state is the matching transition of the Gesture
    module, so the lemmas proved there hold of the object. */
module Swipe {
  import opened Gesture
  import Interpolation

  class LeftSwipe {
    /** Whether the platform is iOS, the only platform that locks the scroll view. */
    const ios: bool
    var show: bool
    var drive: real
    var scrollEnabled: bool
    var leftWidth: real
    var pending: Option<real>

    /** The object's state as a value. */
    function State(): SwipeState
      reads this
    {
      SwipeState(show, drive, scrollEnabled, leftWidth, pending)
    }

    /** A spring in flight heads for the rest state opposite to `show`. */
    predicate Valid()
      reads this
    {
      Consistent(State())
    }

    /** Mounting: hidden, drive value 0, width not yet measured, no spring; the
        shared scroll flag keeps the value the scroll view gave it. */
    constructor (ios: bool, scrollEnabled: bool)
      ensures this.ios == ios
      ensures State() == Initial(scrollEnabled)
      ensures Valid() && AtRest(State())
    {
      this.ios := ios;
      show := false;
      drive := 0.0;
      this.scrollEnabled := scrollEnabled;
      leftWidth := 0.0;
      pending := None;
    }

    /** The layout callback of the left panel records its measured width. */
    method SetLayout(width: real)
      modifies this
      ensures leftWidth == width
      ensures show == old(show) && drive == old(drive) && scrollEnabled == old(scrollEnabled)
      ensures pending == old(pending)
      ensures State() == Step(ios, old(State()), Layout(width))
      ensures old(Valid()) && pending.None? ==> Valid()
    {
      leftWidth := width;
    }

    /** onPanResponderGrant. */
    method Grant()
      modifies this
      ensures scrollEnabled == (if ios then false else old(scrollEnabled))
      ensures show == old(show) && drive == old(drive) && leftWidth == old(leftWidth)
      ensures pending == old(pending)
      ensures State() == Step(ios, old(State()), Event.Grant)
      ensures old(Valid()) ==> Valid()
    {
      if ios {
        scrollEnabled := false;
      }
    }

    /** onPanResponderMove with the horizontal displacement dx. */
    method Move(dx: real)
      modifies this
      ensures drive == (if Ignored(old(show), dx) then old(drive) else dx)
      ensures show == old(show) && scrollEnabled == old(scrollEnabled) && leftWidth == old(leftWidth)
      ensures pending == old(pending)
      ensures State() == Step(ios, old(State()), Event.Move(dx))
      ensures old(Valid()) ==> Valid()
    {
      if !show && dx < 0.0 {
        return;
      }
      drive := dx;
    }

    /** onPanResponderRelease with the horizontal displacement dx. */
    method Release(dx: real)
      modifies this
      ensures scrollEnabled == (if ios then true else old(scrollEnabled))
      ensures pending == (if Ignored(old(show), dx) then old(pending)
                          else Some(if old(show) then 0.0 else old(leftWidth)))
      ensures show == old(show) && drive == old(drive) && leftWidth == old(leftWidth)
      ensures State() == Step(ios, old(State()), Event.Release(dx))
      ensures Valid() || Ignored(old(show), dx)
    {
      if ios {
        scrollEnabled := true;
      }
      if !show && dx < 0.0 {
        return;
      }
      pending := Some(if show then 0.0 else leftWidth);
    }

    /** The spring in flight reaches its target and its completion callback
        toggles `show`; with no spring in flight nothing happens. */
    method SettleSpring()
      modifies this
      ensures old(pending).Some? ==>
        drive == old(pending).value && show == !old(show) && pending.None?
      ensures old(pending).None? ==> drive == old(drive) && show == old(show) && pending.None?
      ensures scrollEnabled == old(scrollEnabled) && leftWidth == old(leftWidth)
      ensures State() == Step(ios, old(State()), Event.Settle)
      ensures old(Valid()) ==> Valid()
      ensures old(Valid()) && old(pending).Some? ==> AtRest(State())
    {
      if pending.Some? {
        drive := pending.value;
        pending := None;
        show := !show;
      }
    }

    /** The foreground's horizontal translation the renderer reads. */
    method TranslateX() returns (x: real)
      requires leftWidth > 0.0
      ensures x == drive - leftWidth
      ensures Valid() && AtRest(State()) ==> x == (if show then 0.0 else -leftWidth)
    {
      x := Interpolation.RenderOffset(drive, leftWidth);
    }
  }

  /** A client's view: two swipes on iOS with a 100-wide panel reveal and then
      hide the panel again, and leave the scroll view unlocked. */
  method RevealThenHide() returns (c: LeftSwipe)
    ensures !c.show && c.drive == 0.0 && c.scrollEnabled && c.pending.None?
  {
    c := new LeftSwipe(true, true);
    c.SetLayout(100.0);
    c.Grant();
    c.Move(60.0);
    assert !c.scrollEnabled && c.drive == 60.0;
    c.Release(60.0);
    c.SettleSpring();
    assert c.show && c.drive == 100.0;
    c.Grant();
    c.Move(-30.0);
    assert c.drive == -30.0;
    c.Release(-30.0);
    c.SettleSpring();
  }
}
