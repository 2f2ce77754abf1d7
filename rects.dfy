/**
  Axis-aligned rectangles (src/math/Rect.ts, src/math/RectMinMax.ts). A `Rect` keeps its four
  edges and grows in place; a `RectMinMax` keeps two corners in any order and reads its edges
  off them. Coordinates are exact reals.
 */
module Rects {
  import opened Wrappers

  function Min(a: real, b: real): real { if a <= b then a else b }
  function Max(a: real, b: real): real { if a >= b then a else b }

  /** The first constructor argument: another rectangle to copy, or a number. */
  datatype RectArg = Copy(src: Rect) | Number(n: real)

  class Rect {
    var l: real
    var t: real
    var r: real
    var b: real

    constructor(l: real, t: real, r: real, b: real)
      ensures this.l == l && this.t == t && this.r == r && this.b == b
    {
      this.l, this.t, this.r, this.b := l, t, r, b;
    }

    /**
      The overloaded constructor: a copy of a rectangle; nothing (the source throws) when the
      first argument is a number and the second is missing; the four edges when all are given;
      and otherwise the point at the first two, whatever the third says.
     */
    static method Create(first: RectArg, t: Option<real>, r: Option<real>, b: Option<real>) returns (res: Option<Rect>)
      ensures res.Some? ==> fresh(res.value)
      ensures first.Copy? ==> res.Some? && res.value.Edges() == first.src.Edges()
      ensures first.Number? && t.None? ==> res.None?
      ensures first.Number? && t.Some? && r.Some? && b.Some? ==>
        res.Some? && res.value.Edges() == (first.n, t.value, r.value, b.value)
      ensures first.Number? && t.Some? && (r.None? || b.None?) ==>
        res.Some? && res.value.IsPoint(first.n, t.value)
    {
      match first
      case Copy(src) =>
        var c := new Rect(src.l, src.t, src.r, src.b);
        res := Some(c);
      case Number(n) =>
        if t.None? {
          return None;
        }
        var c;
        if r.Some? && b.Some? {
          c := new Rect(n, t.value, r.value, b.value);
        } else {
          c := new Rect(n, t.value, n, t.value);
          c.PointHoldsOnlyItself(n, t.value);
        }
        res := Some(c);
    }

    function Edges(): (real, real, real, real)
      reads this
    {
      (l, t, r, b)
    }

    /** The rectangle is the single point (x, y): no other point is inside it. */
    ghost predicate IsPoint(x: real, y: real)
      reads this
    {
      IsInside(x, y) && forall px, py :: IsInside(px, py) ==> px == x && py == y
    }

    lemma PointHoldsOnlyItself(x: real, y: real)
      requires l == r == x && t == b == y
      ensures IsPoint(x, y)
    {
    }

    /** The getter x: the left edge. */
    function X(): real
      reads this
    {
      l
    }

    /** The getter y: the top edge. */
    function Y(): real
      reads this
    {
      t
    }

    /** width: never negative for a rectangle whose edges are in order. */
    function Width(): (w: real)
      reads this
      ensures l + w == r
      ensures w >= 0.0 <==> l <= r
    {
      r - l
    }

    function Height(): (h: real)
      reads this
      ensures t + h == b
      ensures h >= 0.0 <==> t <= b
    {
      b - t
    }

    /** isInside: the edges belong to the rectangle. */
    predicate IsInside(x: real, y: real)
      reads this
    {
      x >= l && x <= r && y >= t && y <= b
    }

    /** isRectInside: `o` lies within this rectangle. */
    predicate IsRectInside(o: Rect)
      reads this, o
    {
      l <= o.l && o.r <= r && t <= o.t && o.b <= b
    }

    /** unionWithPointF: the smallest growth of the rectangle that takes in (x, y). */
    method UnionWithPointF(x: real, y: real) returns (self: Rect)
      modifies this
      ensures self == this && IsInside(x, y)
      ensures l <= old(l) && t <= old(t) && r >= old(r) && b >= old(b)
      ensures (l == old(l) || l == x) && (t == old(t) || t == y)
      ensures (r == old(r) || r == x) && (b == old(b) || b == y)
    {
      l, t, r, b := Min(l, x), Min(t, y), Max(r, x), Max(b, y);
      self := this;
    }

    /** unionWithRectF: the smallest rectangle holding this one and the given edges. */
    method UnionWithRectF(l': real, t': real, r': real, b': real) returns (self: Rect)
      modifies this
      ensures self == this
      ensures l <= old(l) && t <= old(t) && r >= old(r) && b >= old(b)
      ensures l <= l' && t <= t' && r >= r' && b >= b'
      ensures (l == old(l) || l == l') && (t == old(t) || t == t')
      ensures (r == old(r) || r == r') && (b == old(b) || b == b')
    {
      l, t, r, b := Min(l, l'), Min(t, t'), Max(r, r'), Max(b, b');
      self := this;
    }

    /** unionWithRect: as unionWithRectF with the other rectangle's edges. */
    method UnionWithRect(other: Rect) returns (self: Rect)
      modifies this
      ensures self == this && IsRectInside(other)
      ensures l <= old(l) && t <= old(t) && r >= old(r) && b >= old(b)
      ensures (l == old(l) || l == old(other.l)) && (t == old(t) || t == old(other.t))
      ensures (r == old(r) || r == old(other.r)) && (b == old(b) || b == old(other.b))
    {
      var ol, ot, or, ob := other.l, other.t, other.r, other.b;
      l, t, r, b := Min(l, ol), Min(t, ot), Max(r, or), Max(b, ob);
      self := this;
    }

    /** expand: every edge moves out by `amount`, so the size grows by twice it each way. */
    method Expand(amount: real) returns (self: Rect)
      modifies this
      ensures self == this
      ensures l == old(l) - amount && t == old(t) - amount && r == old(r) + amount && b == old(b) + amount
      ensures Width() == old(Width()) + 2.0 * amount && Height() == old(Height()) + 2.0 * amount
      ensures amount >= 0.0 ==> forall x, y :: old(IsInside(x, y)) ==> IsInside(x, y)
    {
      l, t, r, b := l - amount, t - amount, r + amount, b + amount;
      self := this;
    }

    /** isPointInsideRectFF: the point against a rectangle given by corner and size. */
    static predicate IsPointInsideRectFF(px: real, py: real, rectX: real, rectY: real, rectWidth: real, rectHeight: real)
    {
      px >= rectX && px <= rectX + rectWidth && py >= rectY && py <= rectY + rectHeight
    }

    /** isPointInsideRectFR: the same through the rectangle's corner and size. */
    static predicate IsPointInsideRectFR(px: real, py: real, rect: Rect)
      reads rect
    {
      IsPointInsideRectFF(px, py, rect.X(), rect.Y(), rect.Width(), rect.Height())
    }
  }

  /**
    With exact arithmetic the corner-and-size test is isInside, and the corner (x, y) passes it
    exactly when the edges are in order.
   */
  lemma PointInsideAgrees(px: real, py: real, rect: Rect)
    ensures Rect.IsPointInsideRectFR(px, py, rect) <==> rect.IsInside(px, py)
    ensures Rect.IsPointInsideRectFR(rect.X(), rect.Y(), rect) <==> rect.l <= rect.r && rect.t <= rect.b
  {
  }

  /** isRectInside is reflexive and transitive. */
  lemma RectInsideOrder(a: Rect, b: Rect, c: Rect)
    ensures a.IsRectInside(a)
    ensures a.IsRectInside(b) && b.IsRectInside(c) ==> a.IsRectInside(c)
  {
  }

  /** A rectangle within another keeps every point it holds inside the other. */
  lemma RectInsideKeepsPoints(a: Rect, o: Rect, x: real, y: real)
    requires a.IsRectInside(o) && o.IsInside(x, y)
    ensures a.IsInside(x, y)
  {
  }

  // ---------------------------------------------------------------------------------------------
  // RectMinMax

  /** Two corners in any order. */
  datatype RectMinMax = RectMinMax(x1: real, y1: real, x2: real, y2: real)
  {
    function L(): real { Min(x1, x2) }
    function R(): real { Max(x1, x2) }
    function T(): real { Min(y1, y2) }
    function B(): real { Max(y1, y2) }

    /** width: the distance between the corners' x, which is R - L. */
    function Width(): (w: real)
      ensures w >= 0.0 && w == R() - L()
    {
      if x1 >= x2 then x1 - x2 else x2 - x1
    }

    function Height(): (h: real)
      ensures h >= 0.0 && h == B() - T()
    {
      if y1 >= y2 then y1 - y2 else y2 - y1
    }

    /** The corners swapped on one axis. */
    function SwapX(): RectMinMax { RectMinMax(x2, y1, x1, y2) }
    function SwapY(): RectMinMax { RectMinMax(x1, y2, x2, y1) }
  }

  /** The first constructor argument of a RectMinMax: another one to copy, or a number. */
  datatype MinMaxArg = CopyOf(src: RectMinMax) | Coordinate(n: real)

  /**
    The overloaded constructor: a copy; nothing (the source throws) when the first argument is a
    number and the second is missing; both corners when all are given; otherwise a point.
   */
  function MakeMinMax(first: MinMaxArg, y1: Option<real>, x2: Option<real>, y2: Option<real>): (res: Option<RectMinMax>)
    ensures first.CopyOf? ==> res == Some(first.src)
    ensures first.Coordinate? ==> (res.None? <==> y1.None?)
    ensures first.Coordinate? && y1.Some? && !(x2.Some? && y2.Some?) ==>
      res.Some? && res.value.Width() == 0.0 && res.value.Height() == 0.0 && res.value.L() == first.n && res.value.T() == y1.value
    ensures first.Coordinate? && y1.Some? && x2.Some? && y2.Some? ==>
      res == Some(RectMinMax(first.n, y1.value, x2.value, y2.value))
  {
    match first
    case CopyOf(src) => Some(src)
    case Coordinate(n) =>
      if y1.None? then None
      else if x2.Some? && y2.Some? then Some(RectMinMax(n, y1.value, x2.value, y2.value))
      else Some(RectMinMax(n, y1.value, n, y1.value))
  }

  /** The edges are always in order, whichever way round the corners were given. */
  lemma MinMaxOrdered(m: RectMinMax)
    ensures m.L() <= m.R() && m.T() <= m.B()
    ensures m.L() == m.x1 || m.L() == m.x2
    ensures m.R() == m.x1 || m.R() == m.x2
  {
  }

  /** Swapping the corners on either axis changes none of the derived edges or sizes. */
  lemma SwapInvariant(m: RectMinMax)
    ensures m.SwapX().L() == m.L() && m.SwapX().R() == m.R() && m.SwapX().T() == m.T() && m.SwapX().B() == m.B()
    ensures m.SwapY().L() == m.L() && m.SwapY().R() == m.R() && m.SwapY().T() == m.T() && m.SwapY().B() == m.B()
    ensures m.SwapX().Width() == m.Width() && m.SwapX().Height() == m.Height()
    ensures m.SwapY().Width() == m.Width() && m.SwapY().Height() == m.Height()
  {
  }
}
