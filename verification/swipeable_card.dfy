/** The swipe card of the discover page (`src/components/feature/SwipeableCard.tsx`):
    how the end of a drag is classified, where the card is animated to, and
    which swipe it reports. */
module SwipeableCard {
  import opened Wrappers

  datatype Direction = Left | Right

  /** How far (in pixels) or how fast (in pixels per second) a drag must go
      to count as a swipe. */
  const OffsetThreshold: real := 100.0
  const VelocityThreshold: real := 500.0

  /** The end of a drag: a swipe in a direction, or a return to the middle. */
  datatype DragResult = Fling(direction: Direction) | SnapBack

  /** The rightward test is made first, so a drag that passes both tests
      counts as a right swipe. */
  function ClassifyDrag(offset: real, velocity: real): (r: DragResult)
    ensures r == Fling(Right) <==> offset > OffsetThreshold || velocity > VelocityThreshold
    ensures r == Fling(Left) <==>
      !(offset > OffsetThreshold || velocity > VelocityThreshold)
      && (offset < -OffsetThreshold || velocity < -VelocityThreshold)
    ensures r == SnapBack <==>
      -OffsetThreshold <= offset <= OffsetThreshold && -VelocityThreshold <= velocity <= VelocityThreshold
  {
    if offset > OffsetThreshold || velocity > VelocityThreshold then Fling(Right)
    else if offset < -OffsetThreshold || velocity < -VelocityThreshold then Fling(Left)
    else SnapBack
  }

  function Opposite(d: Direction): Direction {
    match d
    case Left => Right
    case Right => Left
  }

  function Mirror(r: DragResult): DragResult {
    match r
    case Fling(d) => Fling(Opposite(d))
    case SnapBack => SnapBack
  }

  /** Left and right are treated alike: mirroring a drag mirrors its result,
      unless the drag points both ways at once (far to one side, fast to the
      other). */
  lemma ClassifyDragSymmetric(offset: real, velocity: real)
    requires !(offset > OffsetThreshold && velocity < -VelocityThreshold)
    requires !(offset < -OffsetThreshold && velocity > VelocityThreshold)
    ensures ClassifyDrag(-offset, -velocity) == Mirror(ClassifyDrag(offset, velocity))
  {
  }

  /** A drag that points both ways is always a right swipe, mirrored or not. */
  lemma ConflictingDragGoesRight(offset: real, velocity: real)
    requires (offset > OffsetThreshold && velocity < -VelocityThreshold)
          || (offset < -OffsetThreshold && velocity > VelocityThreshold)
    ensures ClassifyDrag(offset, velocity) == Fling(Right)
    ensures ClassifyDrag(-offset, -velocity) == Fling(Right)
  {
  }

  /** Where the card is animated to: horizontal position, opacity (as 0 or 1)
      and, when the animation sets it, rotation in degrees. */
  datatype Animation = Animation(x: int, opacity: int, rotate: Option<int>)

  /** What a gesture does: the animation started and the swipes reported to
      the page, in order. */
  datatype Gesture = Gesture(animation: Animation, reported: seq<Direction>)

  function OffScreen(d: Direction): int {
    match d
    case Left => -500
    case Right => 500
  }

  /** `handleDragEnd`: a swipe flies off on its side and is reported once; a
      snap-back returns the card and reports nothing. */
  function DragEnd(offset: real, velocity: real): (g: Gesture)
    ensures ClassifyDrag(offset, velocity).Fling? ==>
      var d := ClassifyDrag(offset, velocity).direction;
      g.reported == [d] && g.animation == Animation(OffScreen(d), 0, None)
    ensures ClassifyDrag(offset, velocity).SnapBack? ==> g.reported == [] && g.animation == Animation(0, 1, None)
  {
    match ClassifyDrag(offset, velocity)
    case Fling(d) => Gesture(Animation(OffScreen(d), 0, None), [d])
    case SnapBack => Gesture(Animation(0, 1, None), [])
  }

  /** `swipe(direction)` of the two buttons: the card flies off tilted by
      ten degrees towards its side, then the swipe is reported once. */
  function ButtonSwipe(d: Direction): (g: Gesture)
    ensures g.reported == [d]
    ensures g.animation.opacity == 0
    ensures g.animation.x == OffScreen(d) && (g.animation.x > 0 <==> d == Right)
    ensures g.animation.rotate.Some? && g.animation.rotate.value * g.animation.x == 5000
  {
    match d
    case Left => Gesture(Animation(-500, 0, Some(-10)), [Left])
    case Right => Gesture(Animation(500, 0, Some(10)), [Right])
  }
}
