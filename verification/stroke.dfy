/**
 * Stroke capture, the pure part: points, the stroke's bounding box and the
 * per-mode resolution of the stroke parameters.
 */
module Stroke {
  import opened Common

  /** A pointer position in surface-local logical units. */
  datatype Point = Point(x: real, y: real)

  /** The bounding box `{minX, minY, maxX, maxY}` of the stroke in progress. */
  datatype Box = Box(minX: real, minY: real, maxX: real, maxY: real)
  {
    predicate WellFormed()
    {
      minX <= maxX && minY <= maxY
    }

    predicate Contains(p: Point)
    {
      minX <= p.x <= maxX && minY <= p.y <= maxY
    }

    /** This box lies within `other`. */
    predicate Within(other: Box)
    {
      other.minX <= minX && maxX <= other.maxX && other.minY <= minY && maxY <= other.maxY
    }
  }

  /** The box set up on pointer-down: the single point `p`. */
  function BoxAt(p: Point): (b: Box)
    ensures b.WellFormed() && b.Contains(p)
    ensures forall c: Box :: c.Contains(p) ==> b.Within(c)
  {
    Box(p.x, p.y, p.x, p.y)
  }

  /** One move sample widens the box by componentwise min/max: the least box holding `b` and `p`. */
  function Extend(b: Box, p: Point): (r: Box)
    ensures r.Contains(p) && b.Within(r)
    ensures forall c: Box :: c.Contains(p) && b.Within(c) ==> r.Within(c)
  {
    Box(Min(b.minX, p.x), Min(b.minY, p.y), Max(b.maxX, p.x), Max(b.maxY, p.y))
  }

  /** The box after pointer-down at `ps[0]` and move samples `ps[1..]`. */
  function Bounds(ps: seq<Point>): (b: Box)
    requires |ps| > 0
    ensures b.WellFormed()
    ensures forall i :: 0 <= i < |ps| ==> b.Contains(ps[i])
  {
    if |ps| == 1 then BoxAt(ps[0]) else Extend(Bounds(ps[..|ps| - 1]), ps[|ps| - 1])
  }

  /** The stroke's box is the least box holding every sample: no box that holds them all is smaller. */
  lemma {:induction false} BoundsIsLeast(ps: seq<Point>, c: Box)
    requires |ps| > 0
    requires forall i :: 0 <= i < |ps| ==> c.Contains(ps[i])
    ensures Bounds(ps).Within(c)
  {
    if |ps| > 1 {
      var init := ps[..|ps| - 1];
      forall i | 0 <= i < |init|
        ensures c.Contains(init[i])
      {
        assert init[i] == ps[i];
      }
      BoundsIsLeast(init, c);
    }
  }

  /** Each edge of the stroke's box is attained by a sample: the box is the componentwise min/max. */
  lemma {:induction false} BoundsAttained(ps: seq<Point>)
    requires |ps| > 0
    ensures exists i :: 0 <= i < |ps| && ps[i].x == Bounds(ps).minX
    ensures exists i :: 0 <= i < |ps| && ps[i].y == Bounds(ps).minY
    ensures exists i :: 0 <= i < |ps| && ps[i].x == Bounds(ps).maxX
    ensures exists i :: 0 <= i < |ps| && ps[i].y == Bounds(ps).maxY
  {
    if |ps| > 1 {
      var n := |ps| - 1;
      var init := ps[..n];
      BoundsAttained(init);
      var b := Bounds(init);
      var i0 :| 0 <= i0 < n && init[i0].x == b.minX;
      var i1 :| 0 <= i1 < n && init[i1].y == b.minY;
      var i2 :| 0 <= i2 < n && init[i2].x == b.maxX;
      var i3 :| 0 <= i3 < n && init[i3].y == b.maxY;
      assert ps[i0] == init[i0] && ps[i1] == init[i1] && ps[i2] == init[i2] && ps[i3] == init[i3];
    } else {
      assert ps[0].x == Bounds(ps).minX;
    }
  }

  /** One more sample extends the stroke's box exactly as a `draw` step does. */
  lemma BoundsSnoc(ps: seq<Point>, p: Point)
    requires |ps| > 0
    ensures Bounds(ps + [p]) == Extend(Bounds(ps), p)
  {
    assert (ps + [p])[..|ps|] == ps;
  }

  /** The canvas parameters a segment is stroked with. */
  datatype StrokeStyle = StrokeStyle(color: string, alpha: real, width: int)

  const EraseColor: string := "#ffffff"
  const HighlighterMaxAlpha: real := 0.4
  const HighlighterMinWidth: int := 16

  /**
   * The mode-resolution block of `draw`: the eraser paints opaque white, the
   * highlighter caps the opacity and raises the width, every other mode takes the
   * controls' values as they are.
   */
  function ResolveStyle(mode: string, color: string, alpha: real, width: int): (r: StrokeStyle)
    ensures mode == "erase" ==> r.color == EraseColor && r.alpha == 1.0 && r.width == width
    ensures mode == "highlighter" ==>
              r.color == color &&
              r.alpha <= HighlighterMaxAlpha && (r.alpha == alpha || r.alpha == HighlighterMaxAlpha) &&
              (alpha <= HighlighterMaxAlpha ==> r.alpha == alpha) &&
              r.width >= HighlighterMinWidth && (r.width == width || r.width == HighlighterMinWidth) &&
              (width >= HighlighterMinWidth ==> r.width == width)
    ensures mode != "erase" && mode != "highlighter" ==> r == StrokeStyle(color, alpha, width)
  {
    if mode == "erase" then
      StrokeStyle(EraseColor, 1.0, width)
    else if mode == "highlighter" then
      StrokeStyle(color, Min(alpha, HighlighterMaxAlpha), if width >= HighlighterMinWidth then width else HighlighterMinWidth)
    else
      StrokeStyle(color, alpha, width)
  }

  /** The highlighter with the sliders at opacity 1.0 and width 2 strokes at 0.4 and 16. */
  lemma HighlighterClampsSliders(color: string)
    ensures ResolveStyle("highlighter", color, 1.0, 2) == StrokeStyle(color, 0.4, 16)
  {
  }

  /** Resolving an already resolved style again under the same mode changes nothing. */
  lemma ResolveStyleIdempotent(mode: string, color: string, alpha: real, width: int)
    ensures var r := ResolveStyle(mode, color, alpha, width);
            ResolveStyle(mode, r.color, r.alpha, r.width) == r
  {
  }

  /** One line segment stroked by `draw`: from the path's current point to the new sample. */
  datatype Segment = Segment(from: Point, to: Point, style: StrokeStyle)
}
