/**
 Integer axis-aligned rectangles with the semantics of SDL's `Rect` as the
 game uses it: a top-left corner `(x, y)` and a strictly positive width and
 height. Overflow clamping of the i32 coordinates is not modelled.
 */
module Rects {

  /** A width or height: the Rust `Rect` wrapper takes them as u32 and never
      lets them be zero. */
  type Size = n: int | n > 0 witness 1

  datatype Rect = Rect(x: int, y: int, w: Size, h: Size) {
    function Left(): int { x }
    function Right(): int { x + w }
    function Top(): int { y }
    function Bottom(): int { y + h }
  }

  /** `Rect::new` replaces a zero width or height by 1. */
  function ClampSize(n: nat): (s: Size)
  {
    if n == 0 then 1 else n
  }

  /** `Rect::offset`: move by `(dx, dy)`, keeping the size; the centre
      moves by the same amount. */
  function Offset(r: Rect, dx: int, dy: int): (o: Rect)
    ensures o.w == r.w && o.h == r.h
    ensures Center(o) == (Center(r).0 + dx, Center(r).1 + dy)
  {
    Rect(r.x + dx, r.y + dy, r.w, r.h)
  }

  /** Offsets compose by adding their components, and the zero offset is
      the identity. */
  lemma OffsetComposes(r: Rect, dx1: int, dy1: int, dx2: int, dy2: int)
    ensures Offset(Offset(r, dx1, dy1), dx2, dy2) == Offset(r, dx1 + dx2, dy1 + dy2)
    ensures Offset(r, 0, 0) == r
  {
  }

  /** Moving two rectangles by the same offset changes neither whether they
      intersect nor whether one contains the other. */
  lemma OffsetKeepsRelations(a: Rect, b: Rect, dx: int, dy: int)
    ensures HasIntersection(Offset(a, dx, dy), Offset(b, dx, dy)) <==> HasIntersection(a, b)
    ensures ContainsRect(Offset(a, dx, dy), Offset(b, dx, dy)) <==> ContainsRect(a, b)
  {
  }

  /** `Rect::from_center`: a rectangle of the given size whose corner sits half
      a width left of and half a height above the centre (integer halves). */
  function FromCenter(cx: int, cy: int, width: nat, height: nat): (r: Rect)
    ensures r.w == ClampSize(width) && r.h == ClampSize(height)
    ensures Center(r) == (cx, cy)
  {
    var w := ClampSize(width);
    var h := ClampSize(height);
    Rect(cx - w / 2, cy - h / 2, w, h)
  }

  /** `Rect::center`: the corner plus half the size. */
  function Center(r: Rect): (c: (int, int))
  {
    (r.x + r.w / 2, r.y + r.h / 2)
  }

  /** `Rect::has_intersection` on non-empty rectangles: the half-open
      extents overlap on both axes. */
  predicate HasIntersection(a: Rect, b: Rect)
  {
    a.Left() < b.Right() && b.Left() < a.Right() &&
    a.Top() < b.Bottom() && b.Top() < a.Bottom()
  }

  /** `Rect::contains_rect`: `inner` lies entirely within `outer`; touching
      an edge counts as inside. */
  predicate ContainsRect(outer: Rect, inner: Rect)
  {
    outer.Left() <= inner.Left() && inner.Right() <= outer.Right() &&
    outer.Top() <= inner.Top() && inner.Bottom() <= outer.Bottom()
  }

  lemma IntersectionSymmetric(a: Rect, b: Rect)
    ensures HasIntersection(a, b) <==> HasIntersection(b, a)
  {
  }

  /** Every rectangle meets itself, which is why the pairing of entities
      must never pair an entity with itself. */
  lemma SelfIntersects(r: Rect)
    ensures HasIntersection(r, r)
  {
  }
}
