/** The rectangle entity: a mutable box with a position, an extent and a
    selection flag, its in-place mutators and its read-only geometry queries. */
module Drawing {
  import opened Types

  // The value-level effect of each mutator, on the `Rect` view of the object.

  /** `setSize(w, h)`: the extent is replaced, nothing else. */
  function Resized(r: Rect, w: real, h: real): Rect {
    r.(size := Size(w, h))
  }

  /** `moveTo(x, y)`: the top-left corner is set absolutely, nothing else. */
  function Moved(r: Rect, x: real, y: real): Rect {
    r.(topLeft := Point(x, y))
  }

  /** `scale(f)`: the four coordinates are multiplied by `f`, the flag is kept. */
  function Scaled(r: Rect, f: real): Rect {
    Rect(Point(r.topLeft.x * f, r.topLeft.y * f), Size(r.size.w * f, r.size.h * f), r.selected)
  }

  class RectFactory {
    var topLeft: Point
    var size: Size
    var selected: bool

    /** The object seen as the plain `Rect` record it implements. */
    function View(): Rect
      reads this
    {
      Rect(topLeft, size, selected)
    }

    /** A rectangle at (startX, startY); the size is taken only when both
        width and height are given (not null), otherwise it is empty. */
    constructor (startX: real, startY: real, width: Option<real>, height: Option<real>)
      ensures topLeft == Point(startX, startY)
      ensures width.Some? && height.Some? ==> size == Size(width.value, height.value)
      ensures width.None? || height.None? ==> size == Size(0.0, 0.0)
      ensures !selected
    {
      topLeft := Point(startX, startY);
      if width.Some? && height.Some? {
        size := Size(width.value, height.value);
      } else {
        size := Size(0.0, 0.0);
      }
      selected := false;
    }

    method SetSize(w: real, h: real)
      modifies this
      ensures size == Size(w, h)
      ensures topLeft == old(topLeft) && selected == old(selected)
      ensures View() == Resized(old(View()), w, h)
    {
      size := Size(w, h);
    }

    /** The midpoint of the box: as far from the left edge as from the right
        one, and as far from the top edge as from the bottom one. */
    function Center(): (c: Point)
      reads this
      ensures c.x - topLeft.x == (topLeft.x + size.w) - c.x
      ensures c.y - topLeft.y == (topLeft.y + size.h) - c.y
    {
      var w, h := size.w / 2.0, size.h / 2.0;
      Point(topLeft.x + w, topLeft.y + h)
    }

    /** Sets the corner absolutely (not by a delta); the extent and the flag stay. */
    method MoveTo(x: real, y: real)
      modifies this
      ensures topLeft == Point(x, y)
      ensures size == old(size) && selected == old(selected)
      ensures View() == Moved(old(View()), x, y)
    {
      topLeft := topLeft.(x := x);
      topLeft := topLeft.(y := y);
    }

    /** Multiplies the corner and the extent by `f` in place; for a positive
        factor a point is hit afterwards exactly when its unscaled
        counterpart was hit before. */
    method Scale(f: real)
      modifies this
      ensures topLeft == Point(old(topLeft.x) * f, old(topLeft.y) * f)
      ensures size == Size(old(size.w) * f, old(size.h) * f)
      ensures selected == old(selected)
      ensures View() == Scaled(old(View()), f)
      ensures f > 0.0 ==> forall x: real, y: real :: old(Hit(x, y)) == Hit(x * f, y * f)
    {
      ghost var x0, y0, w0, h0 := topLeft.x, topLeft.y, size.w, size.h;
      topLeft := topLeft.(x := topLeft.x * f);
      topLeft := topLeft.(y := topLeft.y * f);
      size := size.(w := size.w * f);
      size := size.(h := size.h * f);
      forall x: real, y: real | f > 0.0
        ensures old(Hit(x, y)) == Hit(x * f, y * f)
      {
        assert old(Hit(x, y)) == (x0 <= x <= x0 + w0 && y0 <= y <= y0 + h0);
        ScaledHit(this, Point(x0, y0), Size(w0, h0), f, x, y);
      }
    }

    /** Boundary-inclusive containment of (x, y) in the box. */
    predicate Hit(x: real, y: real)
      reads this
      ensures Hit(x, y) <==> (-size.w / 2.0 <= x - Center().x <= size.w / 2.0
                              && -size.h / 2.0 <= y - Center().y <= size.h / 2.0)
    {
      var br := Point(topLeft.x + size.w, topLeft.y + size.h);
      x >= topLeft.x && x <= br.x && y >= topLeft.y && y <= br.y
    }

    /** The share of the scene's area covered by the box, in percent; 0 when
        the scene has no positive extent. */
    function AreaPercentIn(scene: Size): (p: real)
      reads this
      ensures scene.w <= 0.0 || scene.h <= 0.0 ==> p == 0.0
      ensures scene.w > 0.0 && scene.h > 0.0 ==> p * (scene.w * scene.h) == size.w * size.h * 100.0
    {
      if scene.w > 0.0 && scene.h > 0.0 then
        (size.w * size.h) / (scene.w * scene.h) * 100.0
      else
        0.0
    }
  }

  /** A box whose corner and extent are those of (p, s) multiplied by a
      positive f contains (x * f, y * f) exactly when (p, s) contains (x, y). */
  lemma ScaledHit(r: RectFactory, p: Point, s: Size, f: real, x: real, y: real)
    requires f > 0.0
    requires r.topLeft == Point(p.x * f, p.y * f) && r.size == Size(s.w * f, s.h * f)
    ensures (p.x <= x <= p.x + s.w && p.y <= y <= p.y + s.h) == r.Hit(x * f, y * f)
  {
    ScaleKeepsOrder(x, p.x, s.w, f, r.topLeft.x, r.size.w);
    ScaleKeepsOrder(y, p.y, s.h, f, r.topLeft.y, r.size.h);
  }

  /** Multiplying by a positive factor keeps a point inside or outside a
      closed interval [lo, lo + len]: v lies in it exactly when v * f lies in
      the scaled interval [lo', lo' + len']. */
  lemma ScaleKeepsOrder(v: real, lo: real, len: real, f: real, lo': real, len': real)
    requires f > 0.0 && lo' == lo * f && len' == len * f
    ensures (v >= lo && v <= lo + len) == (v * f >= lo' && v * f <= lo' + len')
  {
  }

  /** With a non-negative extent, all four corners are hit. */
  lemma CornersAreHit(r: RectFactory)
    requires r.size.w >= 0.0 && r.size.h >= 0.0
    ensures r.Hit(r.topLeft.x, r.topLeft.y)
    ensures r.Hit(r.topLeft.x + r.size.w, r.topLeft.y)
    ensures r.Hit(r.topLeft.x, r.topLeft.y + r.size.h)
    ensures r.Hit(r.topLeft.x + r.size.w, r.topLeft.y + r.size.h)
  {
  }

  /** With a non-negative extent, the centre is hit. */
  lemma CenterIsHit(r: RectFactory)
    requires r.size.w >= 0.0 && r.size.h >= 0.0
    ensures r.Hit(r.Center().x, r.Center().y)
  {
  }

  /** A point left of the left edge, right of the right edge, above the top
      edge or below the bottom edge is not hit. */
  lemma OutsideIsNotHit(r: RectFactory, x: real, y: real)
    requires x < r.topLeft.x || x > r.topLeft.x + r.size.w || y < r.topLeft.y || y > r.topLeft.y + r.size.h
    ensures !r.Hit(x, y)
  {
  }

  /** A point one unit outside the middle of each edge is not hit. */
  lemma OneUnitOutsideIsNotHit(r: RectFactory)
    ensures !r.Hit(r.topLeft.x - 1.0, r.Center().y)
    ensures !r.Hit(r.topLeft.x + r.size.w + 1.0, r.Center().y)
    ensures !r.Hit(r.Center().x, r.topLeft.y - 1.0)
    ensures !r.Hit(r.Center().x, r.topLeft.y + r.size.h + 1.0)
  {
  }

  /** The size is not kept non-negative; a box with a negative extent is hit nowhere. */
  lemma NegativeSizeHitsNothing(r: RectFactory, x: real, y: real)
    requires r.size.w < 0.0 || r.size.h < 0.0
    ensures !r.Hit(x, y)
  {
  }

  /** A box exactly the size of a non-empty scene covers 100 percent of it. */
  lemma AreaPercentOfEqualSize(r: RectFactory, scene: Size)
    requires scene.w > 0.0 && scene.h > 0.0
    requires r.size == scene
    ensures r.AreaPercentIn(scene) == 100.0
  {
    ProductBounds(scene.w, scene.h, scene.w, scene.h);
    PercentOfWhole(r.AreaPercentIn(scene), r.size.w * r.size.h, scene.w * scene.h);
  }

  /** A box no larger than the scene in either direction covers between 0
      and 100 percent of it. */
  lemma AreaPercentBounded(r: RectFactory, scene: Size)
    requires 0.0 <= r.size.w <= scene.w && 0.0 <= r.size.h <= scene.h
    ensures 0.0 <= r.AreaPercentIn(scene) <= 100.0
  {
    if scene.w > 0.0 && scene.h > 0.0 {
      ProductBounds(r.size.w, r.size.h, scene.w, scene.h);
      PercentOfWhole(r.AreaPercentIn(scene), r.size.w * r.size.h, scene.w * scene.h);
    }
  }

  /** Products of non-negative factors are monotone in each factor. */
  lemma ProductBounds(a: real, b: real, c: real, d: real)
    requires 0.0 <= a <= c && 0.0 <= b <= d
    ensures 0.0 <= a * b <= c * d
    ensures c > 0.0 && d > 0.0 ==> c * d > 0.0
  {
  }

  /** p is the percentage that the part a makes up of the positive whole s. */
  lemma PercentOfWhole(p: real, a: real, s: real)
    requires s > 0.0 && p * s == a * 100.0 && 0.0 <= a <= s
    ensures 0.0 <= p <= 100.0
    ensures a == s ==> p == 100.0
  {
  }

  /** Setting the same size twice is the same as setting it once. */
  lemma ResizedIdempotent(r: Rect, w: real, h: real)
    ensures Resized(Resized(r, w, h), w, h) == Resized(r, w, h)
  {
  }

  /** Moving twice to the same place is the same as moving once. */
  lemma MovedIdempotent(r: Rect, x: real, y: real)
    ensures Moved(Moved(r, x, y), x, y) == Moved(r, x, y)
  {
  }

  /** Scaling by 1 changes nothing. */
  lemma ScaledByOne(r: Rect)
    ensures Scaled(r, 1.0) == r
  {
  }

  /** Scaling by f and then by g is scaling by f * g. */
  lemma ScaledComposes(r: Rect, f: real, g: real)
    ensures Scaled(Scaled(r, f), g) == Scaled(r, f * g)
  {
  }

  /** Scaling by 2 the box at (1, 1) of size (2, 3) gives the box at (2, 2) of size (4, 6). */
  lemma ScaledByTwoExample(selected: bool)
    ensures Scaled(Rect(Point(1.0, 1.0), Size(2.0, 3.0), selected), 2.0)
         == Rect(Point(2.0, 2.0), Size(4.0, 6.0), selected)
  {
  }
}
