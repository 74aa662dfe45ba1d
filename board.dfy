/**
 * Coordinate capture: a pointer position over the board image becomes a
 * point in board-relative coordinates, each clamped to the unit interval
 * (app.js, clamp01 and boardToNormalized).
 */
module Board {

  /** The board image's bounding rectangle on screen. */
  datatype Rect = Rect(left: real, top: real, width: real, height: real)

  /** A board-relative position; (0, 0) is the top left corner of the image. */
  datatype Point = Point(x: real, y: real)

  function Max(a: real, b: real): real { if a >= b then a else b }

  function Min(a: real, b: real): real { if a <= b then a else b }

  /** `Math.max(0, Math.min(1, v))`. */
  function Clamp01(v: real): (r: real)
    ensures 0.0 <= r <= 1.0
    ensures 0.0 <= v <= 1.0 ==> r == v
    ensures v < 0.0 ==> r == 0.0
    ensures v > 1.0 ==> r == 1.0
  {
    Max(0.0, Min(1.0, v))
  }

  lemma Clamp01Idempotent(v: real)
    ensures Clamp01(Clamp01(v)) == Clamp01(v)
  {
  }

  /** Both coordinates lie in [0, 1], the normalised board space. */
  predicate InUnitSquare(p: Point) {
    0.0 <= p.x <= 1.0 && 0.0 <= p.y <= 1.0
  }

  predicate Inside(clientX: real, clientY: real, rect: Rect) {
    rect.left <= clientX <= rect.left + rect.width && rect.top <= clientY <= rect.top + rect.height
  }

  /**
   * The pointer's offset from the rectangle's top left corner as a
   * fraction of its size, clamped to [0, 1] in each coordinate.
   */
  function BoardToNormalized(clientX: real, clientY: real, rect: Rect): (p: Point)
    requires rect.width > 0.0 && rect.height > 0.0
    ensures InUnitSquare(p)
    ensures clientX <= rect.left ==> p.x == 0.0
    ensures clientX >= rect.left + rect.width ==> p.x == 1.0
    ensures clientY <= rect.top ==> p.y == 0.0
    ensures clientY >= rect.top + rect.height ==> p.y == 1.0
  {
    var x := (clientX - rect.left) / rect.width;
    var y := (clientY - rect.top) / rect.height;
    FractionBounds(clientX - rect.left, rect.width);
    FractionBounds(clientY - rect.top, rect.height);
    Point(Clamp01(x), Clamp01(y))
  }

  lemma FractionBounds(d: real, w: real)
    requires w > 0.0
    ensures d <= 0.0 ==> d / w <= 0.0
    ensures d >= w ==> d / w >= 1.0
    ensures 0.0 <= d <= w ==> 0.0 <= d / w <= 1.0 && (d / w) * w == d
  {
  }

  /**
   * Inside the rectangle nothing is clamped, so the captured point maps
   * back to the exact pointer position.
   */
  lemma BoardToNormalizedInverse(clientX: real, clientY: real, rect: Rect)
    requires rect.width > 0.0 && rect.height > 0.0
    requires Inside(clientX, clientY, rect)
    ensures var p := BoardToNormalized(clientX, clientY, rect);
      rect.left + p.x * rect.width == clientX && rect.top + p.y * rect.height == clientY
  {
    FractionBounds(clientX - rect.left, rect.width);
    FractionBounds(clientY - rect.top, rect.height);
  }
}
