# LeftSwipe: a swipe-to-reveal gesture controller, modelled in Dafny

`LeftSwipe` is a React Native container. It hides a left panel behind its
foreground content. Dragging the foreground to the right reveals the panel, and
dragging it back hides the panel again. Its state is:

- `show`, a toggle saying whether the panel is revealed;
- the animated drive value `translateX`;
- the `scrollEnabled` flag it shares with the scroll view around it;
- `leftWidth`, the measured width of the left panel.

The pan-responder callbacks work as follows:

- Grant locks the scroll view, on iOS only.
- Move tracks the horizontal displacement `dx` one to one. It ignores a move
  that drags further closed while the panel is hidden.
- Release unlocks the scroll view, on iOS only. Unless the same ignore rule
  applies, it starts a spring toward the opposite rest state: `0` when shown,
  `leftWidth` when hidden.
- When the spring completes, its callback toggles `show`.

The renderer maps the drive value to the foreground's translation through a
two-point interpolation from `[0, leftWidth]` onto `[-leftWidth, 0]`.

The project has three modules:

- `Interpolation` (interpolation.dfy) holds the two-point interpolation and the
  render offset. It proves that the offset is the drive value shifted by
  `-leftWidth`.
- `Gesture` (gesture.dfy) models each handler as a transition on a
  `SwipeState` value, and a run of events as the fold of those transitions. It
  proves the ignore rules, the toggle-not-threshold release, the rest states
  after a spring, the parity of `show`, and the scroll-lock bracketing.
- `Swipe` (left_swipe.dfy) holds the class `LeftSwipe`. Its fields are updated
  in place by `Grant`, `Move`, `Release`, `SettleSpring` and `SetLayout`. Each
  method states its whole new state, and also states that this state is the
  matching `Gesture.Step`.

A spring is modelled only by its target (`pending`). The `Settle` event, or
the `SettleSpring` method, stands for the animation driver finishing the
spring: the drive value lands on the target and `show` flips. The platform
check becomes the constant `ios`. Positions are Dafny `real`s.

Four behaviours of the code that the model makes explicit (line numbers are
in `code_0.71/ch07/ch07_4/src/components/LeftSwipe.tsx`):

- On iOS, release sets `scrollEnabled` back to true (:59) before the ignore
  check (:61), so an ignored release also unlocks the scroll view
  (`Gesture.ReleaseUnlocksThenChecks`).
- A move sets the drive value to the displacement `dx` itself (:56). After a
  100-wide panel is revealed, a drag with `dx = -30` sets the drive value to
  `-30` (`Swipe.RevealThenHide`).
- While `leftWidth` is still 0, nothing guards the release. A rightward swipe
  still toggles `show` to true, with the spring's target at 0 (:66,
  `Gesture.UnmeasuredWidthStillToggles`).
- Suppose the panel is hidden, is dragged right, and is released with a
  negative `dx`. The release is ignored and starts no spring (:53-63), so the
  drive value stays where the drag left it. That is not a rest state, and the
  panel is left partly open (`Gesture.IgnoredReleaseStrandsDrive`). The next
  gesture that is not ignored still ends at rest (`Gesture.SwipeToggles`).

## Model

| member | source | states |
|---|---|---|
| `Interpolation.Interpolate` | code_0.71/ch07/ch07_4/src/components/LeftSwipe.tsx:37-40 | the two-point interpolation passes through both end points and keeps every input on the line through them, extrapolating outside the domain |
| `Interpolation.RenderOffset` | code_0.71/ch07/ch07_4/src/components/LeftSwipe.tsx:35-40 | with a measured width, mapping [0, leftWidth] onto [-leftWidth, 0] is exactly the shift drive - leftWidth |
| `Interpolation.OffsetEndpoints` | code_0.71/ch07/ch07_4/src/components/LeftSwipe.tsx:37-40 | drive 0 hides the panel (offset -leftWidth), drive leftWidth reveals it (offset 0), drives in between stay inside [-leftWidth, 0] |
| `Interpolation.OffsetMonotone` | code_0.71/ch07/ch07_4/src/components/LeftSwipe.tsx:37-40 | the offset strictly increases with the drive value, beyond the domain as well (no clamping) |
| `Gesture.GrantLocksOnIos` | code_0.71/ch07/ch07_4/src/components/LeftSwipe.tsx:48-50 | grant sets the scroll flag to false on iOS, leaves it alone elsewhere, and changes nothing else |
| `Gesture.MoveTracksOrIgnores` | code_0.71/ch07/ch07_4/src/components/LeftSwipe.tsx:51-57 | a move with the panel hidden and dx < 0 changes nothing; any other move sets the drive value to exactly dx, with no clamping; a move changes nothing but the drive value |
| `Gesture.ReleaseUnlocksThenChecks` | code_0.71/ch07/ch07_4/src/components/LeftSwipe.tsx:58-63 | release sets the scroll flag to true on iOS, even when the release is ignored, and leaves it alone elsewhere; it never changes show or the drive value; an ignored release starts no spring |
| `Gesture.ReleaseTargetIgnoresMagnitude` | code_0.71/ch07/ch07_4/src/components/LeftSwipe.tsx:60-67 | every release that is not ignored gives the same result, whatever the size of dx; its spring target is 0 when shown and leftWidth when hidden |
| `Gesture.SettleLandsAtRest` | code_0.71/ch07/ch07_4/src/components/LeftSwipe.tsx:64-67 | completing a spring flips show and lands on the rest state of the new show; with leftWidth > 0, show holds exactly when the drive value is leftWidth and fails exactly when it is 0 |
| `Gesture.StepKeepsConsistent` | code_0.71/ch07/ch07_4/src/components/LeftSwipe.tsx:44-68 | every event except a re-measurement while a spring runs keeps the spring in flight heading for the rest state opposite to show |
| `Gesture.RunKeepsConsistent` | code_0.71/ch07/ch07_4/src/components/LeftSwipe.tsx:44-68 | any run of events keeps that invariant, provided each re-measurement of the panel happens while no spring is in flight |
| `Gesture.ShowFlipsPerCompletion` | code_0.71/ch07/ch07_4/src/components/LeftSwipe.tsx:44-67 | over any run of events, show flips once per completed spring and at no other time |
| `Gesture.ParityFromMount` | code_0.71/ch07/ch07_4/src/components/LeftSwipe.tsx:34-67 | from mount, the panel is revealed exactly when an odd number of springs has completed |
| `Gesture.NoScrollWritesOffIos` | code_0.71/ch07/ch07_4/src/components/LeftSwipe.tsx:48-59 | off iOS, no run of events ever writes the shared scroll flag |
| `Gesture.DragMovesOnlyDrive` | code_0.71/ch07/ch07_4/src/components/LeftSwipe.tsx:51-57 | drag samples change only the drive value; while shown it ends on the last sample; while hidden a non-negative drive value stays non-negative; it always ends on the old value or on one of the samples |
| `Gesture.DragPhase` | code_0.71/ch07/ch07_4/src/components/LeftSwipe.tsx:48-57 | from the grant through every drag sample, the scroll view stays locked on iOS and only the drive value changes |
| `Gesture.SwipeToggles` | code_0.71/ch07/ch07_4/src/components/LeftSwipe.tsx:48-67 | a whole gesture from any state whose release is not ignored ends at the rest state opposite to its starting `show`, with the width unchanged and the scroll view unlocked again on iOS |
| `Gesture.IgnoredSwipeStaysHidden` | code_0.71/ch07/ch07_4/src/components/LeftSwipe.tsx:51-63 | a gesture from hidden with an ignored release starts no spring, keeps the panel hidden and leaves the drive value where the drag left it |
| `Gesture.IgnoredReleaseStrandsDrive` | code_0.71/ch07/ch07_4/src/components/LeftSwipe.tsx:51-63 | dragging a hidden 100-wide panel to 30 and releasing at -5 leaves it hidden with drive value 30, not at rest |
| `Gesture.UnmeasuredWidthStillToggles` | code_0.71/ch07/ch07_4/src/components/LeftSwipe.tsx:33-67 | with the width still 0, a rightward swipe still reveals: show becomes true with the drive value 0 |
| `Swipe.LeftSwipe.constructor` | code_0.71/ch07/ch07_4/src/components/LeftSwipe.tsx:32-44 | at mount the panel is hidden, the drive value is 0, the width is 0 and no spring runs; the scroll flag is the scroll view's |
| `Swipe.LeftSwipe.SetLayout` | code_0.71/ch07/ch07_4/src/components/LeftSwipe.tsx:33-33 | the layout callback stores the measured width and changes nothing else |
| `Swipe.LeftSwipe.Grant` | code_0.71/ch07/ch07_4/src/components/LeftSwipe.tsx:48-50 | the grant handler's whole new state: scroll flag false on iOS, everything else unchanged |
| `Swipe.LeftSwipe.Move` | code_0.71/ch07/ch07_4/src/components/LeftSwipe.tsx:51-57 | the move handler's whole new state: drive value dx unless ignored, everything else unchanged |
| `Swipe.LeftSwipe.Release` | code_0.71/ch07/ch07_4/src/components/LeftSwipe.tsx:58-68 | the release handler's whole new state: scroll flag true on iOS; unless ignored, a spring toward 0 or leftWidth; a release that is not ignored leaves the object consistent |
| `Swipe.LeftSwipe.SettleSpring` | code_0.71/ch07/ch07_4/src/components/LeftSwipe.tsx:64-67 | the spring's end: the drive value becomes the target and show flips, landing at rest; with no spring nothing changes |
| `Swipe.LeftSwipe.TranslateX` | code_0.71/ch07/ch07_4/src/components/LeftSwipe.tsx:35-40 | the rendered translation is drive - leftWidth; at rest it is 0 when shown and -leftWidth when hidden |
| `Swipe.RevealThenHide` | code_0.71/ch07/ch07_4/src/components/LeftSwipe.tsx:48-67 | on iOS with a 100-wide panel, a swipe of 60 reveals the panel (drive value 100); a swipe of -30 sets the drive value to -30 and then hides the panel (drive value 0, scroll view unlocked) |

## Left out

- Spring and timing physics: `Animated.spring` is floating-point and driven by animation frames. The model keeps only the spring's target and a step that reaches it.
- Preemption of a running spring: what the animation library does with a spring still in flight when a new grant or `setValue` arrives is not visible in the code. The model keeps the target until `Settle` and does not claim that the spring is cancelled.
- `Gesture.StepKeepsConsistent` and `Gesture.RunKeepsConsistent`: both exclude a re-measurement of the panel while a spring runs. A re-measurement with no spring in flight is allowed. The spring keeps the width it was started with, so the rest-state link to the new width no longer holds.
- `Interpolation.RenderOffset`: no behaviour is modelled for a width that is still 0. The interpolation domain is then a single point, and the code defines nothing for that case.
- The hooks `useLayout`, `useAnimatedValue`, `useTransformStyle`, `usePanResponder`, `useToggle` and `useScrollEnabled` are not part of this model. They become plain fields and setters. Their initial values are taken as hidden, drive 0 and width 0. React re-rendering and dependency arrays are not modelled.
- JSX rendering, styles and the `Platform.OS` test. The platform is the constructor parameter `ios`.
- Floating-point rounding of positions: the model uses exact reals.
- The other screens of the repository are view composition with no gesture logic: `PersonTransform`, `PersonInterpolate`, `PersonInsideLayout`, `KeyboardAvoid` and `MainNavigator`.
