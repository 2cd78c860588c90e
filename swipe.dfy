/** How a finished touch gesture on the lightbox is read. */
module Swipe {

  /** Horizontal movements shorter than this many pixels are ignored as noise. */
  const MinSwipeDistance: int := 50

  datatype Gesture = Ignored | ToNext | ToPrevious

  function Abs(x: int): int
  {
    if x < 0 then -x else x
  }

  /** `handleSwipe`'s decision on `distance = endX - startX`: short movements do
      nothing, a leftward swipe goes to the next image, a rightward one to the
      previous image. Every distance gets exactly one of the three readings. */
  function Classify(distance: int): (g: Gesture)
    ensures g == Ignored <==> -MinSwipeDistance < distance < MinSwipeDistance
    ensures g == ToNext <==> distance <= -MinSwipeDistance
    ensures g == ToPrevious <==> distance >= MinSwipeDistance
  {
    if Abs(distance) < MinSwipeDistance then Ignored
    else if distance < 0 then ToNext
    else ToPrevious
  }
}
