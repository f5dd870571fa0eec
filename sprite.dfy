/** Addressing one cell of a sprite sheet (sprite.go): cells of
    Width x Height laid out left to right, top to bottom, with Margin
    between them. */
module Sprite {
  import opened GoInt
  import opened Wrappers
  import Math

  datatype Point = Point(X: int, Y: int)

  /** image.Rectangle: Min inclusive, Max exclusive. */
  datatype Rect = Rect(Min: Point, Max: Point)

  /** The sheet's metadata and the bounds of its image. */
  datatype Sheet = Sheet(Width: int, Height: int, Margin: int, Count: int, Bounds: Rect)

  /** What makes SpriteRect panic: an index outside [0, Count), or a
      cell pitch of zero, which Go reports as an integer division by
      zero. */
  datatype SpriteError = IndexOutOfRange(index: int, length: int) | DivideByZero

  /** The number of columns of the sheet, at least one. */
  function ColCount(s: Sheet): (r: int)
    requires s.Width + s.Margin != 0
    ensures r >= 1
  {
    Max(Quot(s.Bounds.Max.X - s.Bounds.Min.X, s.Width + s.Margin), 1)
  }

  /** sprite.go SpriteRect. */
  function SpriteRect(s: Sheet, n: int): (r: Result<Rect, SpriteError>)
    ensures r.Failure? <==> n < 0 || n >= s.Count || s.Width + s.Margin == 0 || s.Height + s.Margin == 0
    ensures (n < 0 || n >= s.Count) ==> r == Failure(IndexOutOfRange(n, s.Count))
    ensures r.Success? ==>
      r.value.Max.X - r.value.Min.X == s.Width && r.value.Max.Y - r.value.Min.Y == s.Height
  {
    if n < 0 || n >= s.Count then Failure(IndexOutOfRange(n, s.Count))
    else if s.Width + s.Margin == 0 || s.Height + s.Margin == 0 then Failure(DivideByZero)
    else
      var w, h := s.Width + s.Margin, s.Height + s.Margin;
      var colCount := ColCount(s);
      var col, row := Rem(n, colCount), Quot(n, colCount);
      var min := Point(col * w + s.Bounds.Min.X, row * h + s.Bounds.Min.Y);
      Success(Rect(min, Point(min.X + s.Width, min.Y + s.Height)))
  }

  /** A valid index lands in column `n % colCount` and row
      `n / colCount`, offset by the image's own Min. */
  lemma {:induction false} SpriteRectCell(s: Sheet, n: int)
    requires 0 <= n < s.Count && s.Width + s.Margin != 0 && s.Height + s.Margin != 0
    ensures var c := ColCount(s);
      SpriteRect(s, n).Success? &&
      SpriteRect(s, n).value.Min ==
        Point((n % c) * (s.Width + s.Margin) + s.Bounds.Min.X, (n / c) * (s.Height + s.Margin) + s.Bounds.Min.Y)
      && 0 <= n % c < c
  {
    NonNegativeAgree(n, ColCount(s));
  }

  /** Distinct valid indices address distinct cells when the pitch is
      positive. */
  lemma {:induction false} SpriteRectDistinct(s: Sheet, n1: int, n2: int)
    requires 0 <= n1 < s.Count && 0 <= n2 < s.Count && n1 != n2
    requires s.Width + s.Margin > 0 && s.Height + s.Margin > 0
    ensures SpriteRect(s, n1).Success? && SpriteRect(s, n2).Success?
    ensures SpriteRect(s, n1).value.Min != SpriteRect(s, n2).value.Min
  {
    SpriteRectCell(s, n1);
    SpriteRectCell(s, n2);
    var c, w, h := ColCount(s), s.Width + s.Margin, s.Height + s.Margin;
    assert n1 == (n1 / c) * c + n1 % c && n2 == (n2 / c) * c + n2 % c;
    if n1 % c != n2 % c {
      MulInjective(n1 % c, n2 % c, w);
    } else {
      MulInjective(n1 / c, n2 / c, h);
    }
  }

  lemma {:induction false} MulInjective(a: int, b: int, k: int)
    requires k > 0 && a != b
    ensures a * k != b * k
  {
    if a < b {
      MulAtLeast(b - a, k);
    } else {
      MulAtLeast(a - b, k);
    }
  }

  /** sprite.go SpriteFRect: the same cell as float coordinates. */
  function SpriteFRect(s: Sheet, n: int): (r: Result<Math.FRectangle, SpriteError>)
    ensures r.Failure? <==> SpriteRect(s, n).Failure?
    ensures r.Success? ==> r.value.Dx() == s.Width as real && r.value.Dy() == s.Height as real
    ensures r.Success? ==> r.value.Min == Math.FPoint(SpriteRect(s, n).value.Min.X as real, SpriteRect(s, n).value.Min.Y as real)
  {
    match SpriteRect(s, n)
    case Failure(e) => Failure(e)
    case Success(ir) =>
      Success(Math.FRectangle(
        Math.FPoint(ir.Min.X as real, ir.Min.Y as real),
        Math.FPoint(ir.Max.X as real, ir.Max.Y as real)))
  }
}
