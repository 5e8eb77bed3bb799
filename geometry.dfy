/**
 * Canvas arithmetic (src/pages/room/utils/position.ts): grid snapping, clamping a component's
 * top-left corner into the canvas, the bounds test and centring. Coordinates are reals.
 */
module Geometry {

  import opened Design

  const GridSize: real := 8.0

  /** `Math.round`: the nearest integer, halves rounding up. */
  function Round(v: real): (r: int)
    ensures r as real - 0.5 <= v < r as real + 0.5
  {
    (v + 0.5).Floor
  }

  /** `snapToGrid`: the nearest multiple of the grid size. */
  function SnapToGrid(value: real): (r: real)
    ensures (r / GridSize).Floor as real == r / GridSize
    ensures -4.0 < r - value <= 4.0
  {
    var k := Round(value / GridSize);
    k as real * GridSize
  }

  /** A value already on the grid stays put, so snapping twice is snapping once. */
  lemma SnapToGridIdempotent(value: real)
    ensures SnapToGrid(SnapToGrid(value)) == SnapToGrid(value)
  {
    var k := Round(value / GridSize);
    var r := SnapToGrid(value);
    assert r / GridSize == k as real;
    assert Round(k as real) == k;
  }

  /** One axis of `constrainPosition`: `Math.max(0, Math.min(v, canvas - size))`. */
  function ClampAxis(v: real, size: real, canvas: real): (r: real)
    ensures r >= 0.0
    ensures size <= canvas ==> r <= canvas - size
    ensures 0.0 <= v <= canvas - size ==> r == v
    ensures v < 0.0 ==> r == 0.0
    ensures v > canvas - size ==> r == (if canvas - size > 0.0 then canvas - size else 0.0)
  {
    var upper := if v < canvas - size then v else canvas - size;
    if upper > 0.0 then upper else 0.0
  }

  /**
   * `constrainPosition`; the `|| 0` on the sizes is the identity on numbers, since the only falsy
   * one is 0 itself. The two axes are computed independently.
   */
  function Constrain(x: real, y: real, width: real, height: real, canvasWidth: real, canvasHeight: real): (r: Position)
    ensures r.x >= 0.0 && r.y >= 0.0
    ensures width <= canvasWidth ==> r.x <= canvasWidth - width
    ensures height <= canvasHeight ==> r.y <= canvasHeight - height
    ensures 0.0 <= x <= canvasWidth - width ==> r.x == x
    ensures 0.0 <= y <= canvasHeight - height ==> r.y == y
    ensures r == Position(ClampAxis(x, width, canvasWidth), ClampAxis(y, height, canvasHeight))
  {
    Position(ClampAxis(x, width, canvasWidth), ClampAxis(y, height, canvasHeight))
  }

  /** `isWithinBounds`: the whole component lies inside the canvas. */
  predicate IsWithinBounds(p: Position, width: real, height: real, canvasWidth: real, canvasHeight: real): (b: bool)
    ensures b ==> width <= canvasWidth && height <= canvasHeight
    ensures b <==> width <= canvasWidth && height <= canvasHeight &&
                   ClampAxis(p.x, width, canvasWidth) == p.x && ClampAxis(p.y, height, canvasHeight) == p.y
  {
    p.x >= 0.0 && p.y >= 0.0 && p.x + width <= canvasWidth && p.y + height <= canvasHeight
  }

  /** Clamping is idempotent, which is why re-clamping a drop result on move changes nothing. */
  lemma {:induction false} ConstrainIdempotent(x: real, y: real, width: real, height: real, canvasWidth: real, canvasHeight: real)
    ensures var p := Constrain(x, y, width, height, canvasWidth, canvasHeight);
      Constrain(p.x, p.y, width, height, canvasWidth, canvasHeight) == p
  {
    var p := Constrain(x, y, width, height, canvasWidth, canvasHeight);
    ClampAxisIdempotent(x, width, canvasWidth);
    ClampAxisIdempotent(y, height, canvasHeight);
  }

  lemma {:induction false} ClampAxisIdempotent(v: real, size: real, canvas: real)
    ensures ClampAxis(ClampAxis(v, size, canvas), size, canvas) == ClampAxis(v, size, canvas)
  {
    var r := ClampAxis(v, size, canvas);
    if size > canvas {
      assert r == 0.0;
    }
  }

  /** When the component fits, a clamped position is within bounds, and it is a fixpoint exactly then. */
  lemma ConstrainFixesExactlyInBounds(p: Position, width: real, height: real, canvasWidth: real, canvasHeight: real)
    requires width <= canvasWidth && height <= canvasHeight
    ensures IsWithinBounds(Constrain(p.x, p.y, width, height, canvasWidth, canvasHeight), width, height, canvasWidth, canvasHeight)
    ensures Constrain(p.x, p.y, width, height, canvasWidth, canvasHeight) == p <==> IsWithinBounds(p, width, height, canvasWidth, canvasHeight)
  {
  }

  /** The worked example: a 100x50 component at (500, 500) on a 375x667 canvas lands at (275, 500). */
  lemma ConstrainExample()
    ensures Constrain(500.0, 500.0, 100.0, 50.0, 375.0, 667.0) == Position(275.0, 500.0)
  {
  }

  /** The part of a `DOMRect` the drop arithmetic reads. */
  datatype Rect = Rect(left: real, top: real, width: real, height: real)

  /**
   * `calculateDropPosition`: the cursor relative to the canvas origin, clamped into the canvas.
   */
  function CalculateDropPosition(clientOffset: Position, canvasRect: Rect, itemWidth: real, itemHeight: real): (r: Position)
    ensures r.x >= 0.0 && r.y >= 0.0
    ensures itemWidth <= canvasRect.width && itemHeight <= canvasRect.height ==>
      IsWithinBounds(r, itemWidth, itemHeight, canvasRect.width, canvasRect.height)
    ensures var rel := Position(clientOffset.x - canvasRect.left, clientOffset.y - canvasRect.top);
      IsWithinBounds(rel, itemWidth, itemHeight, canvasRect.width, canvasRect.height) ==> r == rel
    ensures r == Constrain(clientOffset.x - canvasRect.left, clientOffset.y - canvasRect.top,
                           itemWidth, itemHeight, canvasRect.width, canvasRect.height)
  {
    var x := clientOffset.x - canvasRect.left;
    var y := clientOffset.y - canvasRect.top;
    Constrain(x, y, itemWidth, itemHeight, canvasRect.width, canvasRect.height)
  }

  /** `calculateCenterPosition`: centred on each axis, pinned to 0 when the component is larger. */
  function CalculateCenterPosition(canvasWidth: real, canvasHeight: real, componentWidth: real, componentHeight: real): (r: Position)
    ensures r.x >= 0.0 && r.y >= 0.0
    ensures componentWidth <= canvasWidth ==> r.x == (canvasWidth - componentWidth) / 2.0
    ensures componentWidth > canvasWidth ==> r.x == 0.0
    ensures componentHeight <= canvasHeight ==> r.y == (canvasHeight - componentHeight) / 2.0
    ensures componentHeight > canvasHeight ==> r.y == 0.0
  {
    var cx := (canvasWidth - componentWidth) / 2.0;
    var cy := (canvasHeight - componentHeight) / 2.0;
    Position(if cx > 0.0 then cx else 0.0, if cy > 0.0 then cy else 0.0)
  }

  /** A centred component that fits is within bounds, with equal margins on both sides. */
  lemma CenteredIsWithinBounds(canvasWidth: real, canvasHeight: real, componentWidth: real, componentHeight: real)
    requires componentWidth <= canvasWidth && componentHeight <= canvasHeight
    ensures var p := CalculateCenterPosition(canvasWidth, canvasHeight, componentWidth, componentHeight);
      IsWithinBounds(p, componentWidth, componentHeight, canvasWidth, canvasHeight) &&
      canvasWidth - (p.x + componentWidth) == p.x && canvasHeight - (p.y + componentHeight) == p.y
  {
  }
}
