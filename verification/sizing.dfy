/** The logical size of the drawing surface chosen by `setCanvasSize`. */
module Sizing {

  /** Space kept free on each side of the surface inside its container. */
  const Pad: int := 20
  const MaxWidth: int := 1200
  const MaxHeight: int := 800
  const FallbackWidth: int := 800
  const FallbackHeight: int := 600

  datatype Size = Size(width: int, height: int)

  /** The container's extent less the padding, capped, with a fallback when nothing is left. */
  function FitDimension(client: int, cap: int, fallback: int): int
  {
    var d := if client - Pad * 2 <= cap then client - Pad * 2 else cap;
    if d > 0 then d else fallback
  }

  /**
   * The logical size for a container of `clientWidth` by `clientHeight` pixels:
   * the container less 20 units of padding per side, at most 1200 by 800, and 800
   * by 600 when the container leaves no room.
   */
  function LogicalSize(clientWidth: int, clientHeight: int): (s: Size)
    ensures 0 < s.width <= MaxWidth && 0 < s.height <= MaxHeight
    ensures 2 * Pad < clientWidth <= MaxWidth + 2 * Pad ==> s.width == clientWidth - 2 * Pad
    ensures clientWidth > MaxWidth + 2 * Pad ==> s.width == MaxWidth
    ensures clientWidth <= 2 * Pad ==> s.width == FallbackWidth
    ensures 2 * Pad < clientHeight <= MaxHeight + 2 * Pad ==> s.height == clientHeight - 2 * Pad
    ensures clientHeight > MaxHeight + 2 * Pad ==> s.height == MaxHeight
    ensures clientHeight <= 2 * Pad ==> s.height == FallbackHeight
  {
    Size(FitDimension(clientWidth, MaxWidth, FallbackWidth), FitDimension(clientHeight, MaxHeight, FallbackHeight))
  }

  /** A larger container never gives a smaller surface, as long as it leaves some room. */
  lemma LogicalSizeMonotone(w1: int, h1: int, w2: int, h2: int)
    requires 2 * Pad < w1 <= w2 && 2 * Pad < h1 <= h2
    ensures LogicalSize(w1, h1).width <= LogicalSize(w2, h2).width
    ensures LogicalSize(w1, h1).height <= LogicalSize(w2, h2).height
  {
  }

  /**
   * Monotonicity needs the room: a container of 40 units falls back to the
   * default size, while one of 41 units leaves a surface of a single unit.
   */
  lemma FallbackIsDiscontinuous(clientWidth: int, clientHeight: int)
    ensures LogicalSize(2 * Pad, clientHeight).width == FallbackWidth
    ensures LogicalSize(2 * Pad + 1, clientHeight).width == 1
    ensures LogicalSize(clientWidth, 2 * Pad).height == FallbackHeight
    ensures LogicalSize(clientWidth, 2 * Pad + 1).height == 1
  {
  }
}
