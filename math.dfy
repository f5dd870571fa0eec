/** Points, axis-aligned rectangles, Clamp and Lerp (math.go). Go's
    float64 is modelled as exact `real`; no property below depends on
    rounding. */
module Math {

  datatype FPoint = FPoint(X: real, Y: real)
  {
    function Add(q: FPoint): (r: FPoint)
      ensures r.Sub(q) == this
    {
      FPoint(X + q.X, Y + q.Y)
    }

    function Sub(q: FPoint): FPoint
    {
      FPoint(X - q.X, Y - q.Y)
    }

    /** FPoint.In: unlike FRectangle.Contains, both borders count. */
    predicate In(r: FRectangle)
    {
      r.Min.X <= X <= r.Max.X && r.Min.Y <= Y <= r.Max.Y
    }
  }

  /** A rectangle with `Min` inclusive and `Max` exclusive, as in Go's
      image.Rectangle. */
  datatype FRectangle = FRectangle(Min: FPoint, Max: FPoint)
  {
    function Dx(): real { Max.X - Min.X }

    function Dy(): real { Max.Y - Min.Y }

    /** The point `p` lies inside the rectangle. This is the reading of
        the rectangle as a point set that the comments of math.go use
        ("contains no points", "every point in r is in s"). */
    predicate Contains(p: FPoint)
    {
      Min.X <= p.X < Max.X && Min.Y <= p.Y < Max.Y
    }

    predicate Empty()
    {
      Min.X >= Max.X || Min.Y >= Max.Y
    }

    predicate In(s: FRectangle)
    {
      Empty() || (s.Min.X <= Min.X && Max.X <= s.Max.X && s.Min.Y <= Min.Y && Max.Y <= s.Max.Y)
    }

    predicate Overlaps(s: FRectangle)
    {
      && !Empty() && !s.Empty()
      && Min.X < s.Max.X && s.Min.X < Max.X
      && Min.Y < s.Max.Y && s.Min.Y < Max.Y
    }

    /** Each axis shorter than `2n` collapses to its midpoint; any other
        axis shrinks by `n` on both sides. */
    function Inset(n: real): (r: FRectangle)
      ensures Dx() < 2.0 * n ==> r.Min.X == r.Max.X == (Min.X + Max.X) / 2.0
      ensures Dx() >= 2.0 * n ==> r.Min.X == Min.X + n && r.Max.X == Max.X - n
      ensures Dy() < 2.0 * n ==> r.Min.Y == r.Max.Y == (Min.Y + Max.Y) / 2.0
      ensures Dy() >= 2.0 * n ==> r.Min.Y == Min.Y + n && r.Max.Y == Max.Y - n
      ensures r.Canonical()
    {
      var minX, maxX :=
        if Dx() < 2.0 * n then (Min.X + Max.X) / 2.0 else Min.X + n,
        if Dx() < 2.0 * n then (Min.X + Max.X) / 2.0 else Max.X - n;
      var minY, maxY :=
        if Dy() < 2.0 * n then (Min.Y + Max.Y) / 2.0 else Min.Y + n,
        if Dy() < 2.0 * n then (Min.Y + Max.Y) / 2.0 else Max.Y - n;
      FRectangle(FPoint(minX, minY), FPoint(maxX, maxY))
    }

    /** The largest rectangle inside both; the zero rectangle when they
        share no point. */
    function Intersect(s: FRectangle): (r: FRectangle)
      ensures r.Empty() ==> r == ZeroRect
      ensures !r.Empty() ==> r.In(this) && r.In(s)
      ensures forall p :: r.Contains(p) <==> Contains(p) && s.Contains(p)
    {
      var c := FRectangle(
        FPoint(if Min.X < s.Min.X then s.Min.X else Min.X, if Min.Y < s.Min.Y then s.Min.Y else Min.Y),
        FPoint(if Max.X > s.Max.X then s.Max.X else Max.X, if Max.Y > s.Max.Y then s.Max.Y else Max.Y));
      if c.Empty() then
        NoPointInEmpty(c);
        ZeroRect
      else c
    }

    /** The smallest rectangle containing both; an empty operand is
        ignored. */
    function Union(s: FRectangle): (r: FRectangle)
      ensures Empty() ==> r == s
      ensures !Empty() && s.Empty() ==> r == this
      ensures !Empty() && !s.Empty() ==> In(r) && s.In(r)
      ensures !Empty() && !s.Empty() ==> forall t :: In(t) && s.In(t) ==> r.In(t)
    {
      if Empty() then s
      else if s.Empty() then this
      else
        FRectangle(
          FPoint(if Min.X > s.Min.X then s.Min.X else Min.X, if Min.Y > s.Min.Y then s.Min.Y else Min.Y),
          FPoint(if Max.X < s.Max.X then s.Max.X else Max.X, if Max.Y < s.Max.Y then s.Max.Y else Max.Y))
    }

    predicate Canonical()
    {
      Min.X <= Max.X && Min.Y <= Max.Y
    }

    /** Swaps the coordinates of an axis whose Max is below its Min. */
    function Canon(): (r: FRectangle)
      ensures r.Canonical()
      ensures {r.Min.X, r.Max.X} == {Min.X, Max.X} && {r.Min.Y, r.Max.Y} == {Min.Y, Max.Y}
      ensures Canonical() ==> r == this
    {
      FRectangle(
        FPoint(if Max.X < Min.X then Max.X else Min.X, if Max.Y < Min.Y then Max.Y else Min.Y),
        FPoint(if Max.X < Min.X then Min.X else Max.X, if Max.Y < Min.Y then Min.Y else Max.Y))
    }
  }

  const ZeroRect := FRectangle(FPoint(0.0, 0.0), FPoint(0.0, 0.0))

  /** An empty rectangle holds no point. */
  lemma {:induction false} NoPointInEmpty(r: FRectangle)
    requires r.Empty()
    ensures forall p :: !r.Contains(p)
  {
  }

  /** Empty means "contains no point", both ways. */
  lemma {:induction false} EmptyIffNoPoint(r: FRectangle)
    ensures r.Empty() <==> forall p :: !r.Contains(p)
  {
    if !r.Empty() {
      assert r.Contains(r.Min);
    }
  }

  /** In means "every point of r is a point of s", both ways. */
  lemma {:induction false} InIffSubset(r: FRectangle, s: FRectangle)
    ensures r.In(s) <==> forall p :: r.Contains(p) ==> s.Contains(p)
  {
    if !r.In(s) {
      var y := r.Min.Y;
      if s.Min.X > r.Min.X {
        assert r.Contains(FPoint(r.Min.X, y)) && !s.Contains(FPoint(r.Min.X, y));
      } else if r.Max.X > s.Max.X {
        var x := if r.Min.X < s.Max.X then s.Max.X else r.Min.X;
        assert r.Contains(FPoint(x, y)) && !s.Contains(FPoint(x, y));
      } else if s.Min.Y > r.Min.Y {
        assert r.Contains(FPoint(r.Min.X, r.Min.Y)) && !s.Contains(FPoint(r.Min.X, r.Min.Y));
      } else {
        var y' := if r.Min.Y < s.Max.Y then s.Max.Y else r.Min.Y;
        assert r.Contains(FPoint(r.Min.X, y')) && !s.Contains(FPoint(r.Min.X, y'));
      }
    }
  }

  /** Overlapping is symmetric, fails for an empty operand, and holds
      exactly when the intersection is not empty. */
  lemma {:induction false} OverlapsFacts(r: FRectangle, s: FRectangle)
    ensures r.Overlaps(s) <==> s.Overlaps(r)
    ensures r.Empty() || s.Empty() ==> !r.Overlaps(s)
    ensures r.Overlaps(s) <==> !r.Intersect(s).Empty()
  {
  }

  /** Canon is idempotent. */
  lemma {:induction false} CanonIdempotent(r: FRectangle)
    ensures r.Canon().Canon() == r.Canon()
  {
  }

  /** Inset by zero changes nothing on a canonical rectangle. */
  lemma {:induction false} InsetZero(r: FRectangle)
    requires r.Canonical()
    ensures r.Inset(0.0) == r
  {
  }

  /** A point of the half-open rectangle is In it; a point on the Max
      border is In it without being contained. */
  lemma {:induction false} PointInClosed(p: FPoint, r: FRectangle)
    ensures r.Contains(p) ==> p.In(r)
    ensures p == r.Max && r.Min.X <= r.Max.X && r.Min.Y <= r.Max.Y ==> p.In(r) && !r.Contains(p)
  {
  }

  /** FRectMoveTo: the same size with Min at `pt`. */
  function FRectMoveTo(rect: FRectangle, pt: FPoint): (r: FRectangle)
    ensures r.Min == pt && r.Dx() == rect.Dx() && r.Dy() == rect.Dy()
  {
    FRectangle(pt, FPoint(pt.X + rect.Dx(), pt.Y + rect.Dy()))
  }

  function FRectangleCenter(rect: FRectangle): FPoint
  {
    FPoint((rect.Min.X + rect.Max.X) * 0.5, (rect.Min.Y + rect.Max.Y) * 0.5)
  }

  /** CenterFRectangle: the same size, centred on `(x, y)`. */
  function CenterFRectangle(rect: FRectangle, x: real, y: real): (r: FRectangle)
    ensures r.Dx() == rect.Dx() && r.Dy() == rect.Dy()
    ensures FRectangleCenter(r) == FPoint(x, y)
  {
    var halfW := rect.Dx() * 0.5;
    var halfH := rect.Dy() * 0.5;
    FRectangle(FPoint(x - halfW, y - halfH), FPoint(x + halfW, y + halfH))
  }

  function Lerp(a: real, b: real, t: real): (r: real)
    ensures t == 0.0 ==> r == a
    ensures t == 1.0 ==> r == b
    ensures 0.0 <= t <= 1.0 && a <= b ==> a <= r <= b
  {
    if 0.0 <= t <= 1.0 && a <= b then
      ScaleBetween(b - a, t);
      a + (b - a) * t
    else
      assert t == 0.0 ==> (b - a) * t == 0.0;
      a + (b - a) * t
  }

  lemma {:induction false} ScaleBetween(d: real, t: real)
    requires 0.0 <= d && 0.0 <= t <= 1.0
    ensures 0.0 <= d * t <= d
  {
    assert d * (1.0 - t) >= 0.0;
    assert d * (1.0 - t) == d - d * t;
  }

  /** Clamp first lowers `n` to `maxN`, then raises it to `minN`, so with
      crossed bounds the result is `minN`. */
  function Clamp(n: real, minN: real, maxN: real): (r: real)
    ensures minN <= maxN ==> minN <= r <= maxN
    ensures minN <= n <= maxN ==> r == n
    ensures minN > maxN ==> r == minN
  {
    var lowered := if n < maxN then n else maxN;
    if lowered > minN then lowered else minN
  }

  /** The integer instance of the generic Clamp. */
  function ClampInt(n: int, minN: int, maxN: int): (r: int)
    ensures minN <= maxN ==> minN <= r <= maxN
    ensures minN <= n <= maxN ==> r == n
    ensures minN > maxN ==> r == minN
  {
    var lowered := if n < maxN then n else maxN;
    if lowered > minN then lowered else minN
  }
}
