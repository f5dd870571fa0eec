/** The Bézier curve editor (beziercurve_editor.go): four control points
    edited on screen. The two inner points are kept at a third of their
    distance from the end points (BezierEditorControlPointScale) and
    scaled back when the curve is read out. FPoint.Scale and
    FPoint.LengthSquared are not part of this model's sources; they are
    taken to be scalar multiplication and the squared length. */
module BezierEditor {
  import opened Math
  import opened BezierData

  const ControlPointScale: real := 3.0

  function Scale(p: FPoint, k: real): FPoint
  {
    FPoint(p.X * k, p.Y * k)
  }

  function LengthSquared(p: FPoint): real
  {
    p.X * p.X + p.Y * p.Y
  }

  /** CurveRect: the right 65% of the editor rectangle, inset by one. */
  function CurveRectOf(rect: FRectangle): FRectangle
  {
    FRectangle(FPoint(rect.Max.X - rect.Dx() * 0.65, rect.Min.Y), rect.Max).Inset(1.0)
  }

  predicate NonDegenerate(curve: FRectangle)
  {
    curve.Dx() != 0.0 && curve.Dy() != 0.0
  }

  /** ScreenPosToControlPos: x measured from the left edge in widths, y
      from the middle in half heights, upwards. */
  function ScreenToControl(curve: FRectangle, pos: FPoint): FPoint
    requires NonDegenerate(curve)
  {
    var x := (pos.X - curve.Min.X) / curve.Dx();
    var y := (pos.Y - (curve.Min.Y + curve.Max.Y) * 0.5) / (curve.Dy() * 0.5);
    FPoint(x, -y)
  }

  /** ControlPosToScreenPos. */
  function ControlToScreen(curve: FRectangle, pos: FPoint): FPoint
  {
    FPoint(pos.X * curve.Dx() + curve.Min.X, (-pos.Y) * curve.Dy() * 0.5 + (curve.Min.Y + curve.Max.Y) * 0.5)
  }

  /** The two transforms invert each other on a rectangle with non-zero
      width and height. */
  lemma {:induction false} ScreenControlRoundTrip(curve: FRectangle, p: FPoint)
    requires NonDegenerate(curve)
    ensures ControlToScreen(curve, ScreenToControl(curve, p)) == p
    ensures ScreenToControl(curve, ControlToScreen(curve, p)) == p
  {
    var w, h, mid := curve.Dx(), curve.Dy() * 0.5, (curve.Min.Y + curve.Max.Y) * 0.5;
    assert (p.X - curve.Min.X) / w * w == p.X - curve.Min.X;
    assert (p.Y - mid) / h * h == p.Y - mid;
    assert (p.X * w + curve.Min.X - curve.Min.X) / w == p.X;
    assert ((-p.Y) * h + mid - mid) / h == -p.Y;
  }

  // ---------------------------------------------------------------
  // Reading and writing curve data
  // ---------------------------------------------------------------

  /** The clamps SetToBezierCurveData applies to its argument: the end
      points sit at x = 0 and x = 1 with y in [-1, 1], and the inner
      points have x in [0, 1]. */
  function ClampData(d: seq<FPoint>): (r: seq<FPoint>)
    requires |d| == 4
    ensures |r| == 4
  {
    [FPoint(0.0, Clamp(d[0].Y, -1.0, 1.0)),
     FPoint(Clamp(d[1].X, 0.0, 1.0), d[1].Y),
     FPoint(Clamp(d[2].X, 0.0, 1.0), d[2].Y),
     FPoint(1.0, Clamp(d[3].Y, -1.0, 1.0))]
  }

  /** The editor points SetToBezierCurveData stores: the clamped data
      with each inner point pulled to a third of its offset from its end
      point. */
  function Shrink(d: seq<FPoint>): (r: seq<FPoint>)
    requires |d| == 4
    ensures |r| == 4
    ensures r[0].X == 0.0 && r[3].X == 1.0
    ensures -1.0 <= r[0].Y <= 1.0 && -1.0 <= r[3].Y <= 1.0
    ensures r[0] == ClampData(d)[0] && r[3] == ClampData(d)[3]
    ensures Scale(r[1].Sub(r[0]), ControlPointScale) == ClampData(d)[1].Sub(r[0])
    ensures Scale(r[2].Sub(r[3]), ControlPointScale) == ClampData(d)[2].Sub(r[3])
  {
    var c := ClampData(d);
    [c[0], Scale(c[1].Sub(c[0]), 1.0 / ControlPointScale).Add(c[0]),
     Scale(c[2].Sub(c[3]), 1.0 / ControlPointScale).Add(c[3]), c[3]]
  }

  /** The curve data GetBezierCurveData reads out of editor points: the
      inner points' offsets from their end points scaled back up. */
  function Expand(p: seq<FPoint>): (d: seq<FPoint>)
    requires |p| == 4
    ensures |d| == 4 && d[0] == p[0] && d[3] == p[3]
  {
    [p[0], Scale(p[1].Sub(p[0]), ControlPointScale).Add(p[0]),
     Scale(p[2].Sub(p[3]), ControlPointScale).Add(p[3]), p[3]]
  }

  /** Reading the curve back after setting it gives the data with the
      clamps applied. */
  lemma {:induction false} GetAfterSet(d: seq<FPoint>)
    requires |d| == 4
    ensures Expand(Shrink(d)) == ClampData(d)
  {
    var c, s := ClampData(d), Shrink(d);
    ScaleBack(c[1], c[0]);
    ScaleBack(c[2], c[3]);
  }

  /** Shrinking an offset by the scale and growing it again restores the
      point. */
  lemma {:induction false} ScaleBack(q: FPoint, o: FPoint)
    ensures Scale(Scale(q.Sub(o), 1.0 / ControlPointScale).Add(o).Sub(o), ControlPointScale).Add(o) == q
  {
  }

  // ---------------------------------------------------------------
  // Update
  // ---------------------------------------------------------------

  /** The order in which a press looks for a point to grab. */
  const FocusPriority: seq<int> := [1, 2, 0, 3]

  /** Whether point `i` is drawn within 20 pixels of the cursor. */
  predicate Near(points: seq<FPoint>, curve: FRectangle, cursor: FPoint, i: int)
    requires |points| == 4 && 0 <= i < 4
  {
    LengthSquared(ControlToScreen(curve, points[i]).Sub(cursor)) < 400.0
  }

  /** The first point, in priority order from position `k` on, whose
      screen position is within 20 pixels of the cursor; -1 when none
      is. */
  function PickFocus(points: seq<FPoint>, curve: FRectangle, cursor: FPoint, k: nat): (f: int)
    requires |points| == 4 && k <= 4
    ensures f == -1 <==> forall j :: k <= j < 4 ==> !Near(points, curve, cursor, FocusPriority[j])
    ensures f != -1 ==>
      (exists j :: k <= j < 4 && f == FocusPriority[j] && Near(points, curve, cursor, f) &&
         forall i :: k <= i < j ==> !Near(points, curve, cursor, FocusPriority[i]))
    decreases 4 - k
  {
    if k == 4 then -1
    else
      var i := FocusPriority[k];
      if Near(points, curve, cursor, i) then i
      else PickFocus(points, curve, cursor, k + 1)
  }

  /** The clamping that closes Update: the end points are put back on
      x = 0 and x = 1 with y in [-1, 1], the inner points' x is kept
      within a third of the width from its end, and then each inner point
      follows its end point's movement since `prevP0` and `prevP3`. */
  function ClampPoints(p: seq<FPoint>, prevP0: FPoint, prevP3: FPoint): (r: seq<FPoint>)
    requires |p| == 4
    ensures |r| == 4
    ensures r[0] == FPoint(0.0, Clamp(p[0].Y, -1.0, 1.0)) && r[3] == FPoint(1.0, Clamp(p[3].Y, -1.0, 1.0))
    ensures -1.0 <= r[0].Y <= 1.0 && -1.0 <= r[3].Y <= 1.0
    ensures r[1].Sub(r[0].Sub(prevP0)) == FPoint(Clamp(p[1].X, 0.0, 1.0 / ControlPointScale), p[1].Y)
    ensures r[2].Sub(r[3].Sub(prevP3)) == FPoint(Clamp(p[2].X, 1.0 - 1.0 / ControlPointScale, 1.0), p[2].Y)
  {
    var p0 := FPoint(0.0, Clamp(p[0].Y, -1.0, 1.0));
    var p3 := FPoint(1.0, Clamp(p[3].Y, -1.0, 1.0));
    var p1 := FPoint(Clamp(p[1].X, 0.0, 1.0 / ControlPointScale), p[1].Y);
    var p2 := FPoint(Clamp(p[2].X, 1.0 - 1.0 / ControlPointScale, 1.0), p[2].Y);
    [p0, p1.Add(p0.Sub(prevP0)), p2.Add(p3.Sub(prevP3)), p3]
  }

  /** When the end points did not move, the inner points are only
      clamped, so their x stays inside [0, 1/3] and [2/3, 1]. */
  lemma {:induction false} ClampPointsAtRest(p: seq<FPoint>)
    requires |p| == 4 && p[0] == FPoint(0.0, Clamp(p[0].Y, -1.0, 1.0)) && p[3] == FPoint(1.0, Clamp(p[3].Y, -1.0, 1.0))
    ensures var r := ClampPoints(p, p[0], p[3]);
      0.0 <= r[1].X <= 1.0 / ControlPointScale && 1.0 - 1.0 / ControlPointScale <= r[2].X <= 1.0
      && r[0] == p[0] && r[3] == p[3]
  {
  }

  /** The buttons of the editor that a frame's click can trigger. */
  datatype Clicks = Clicks(snapP0: bool, snapP3: bool, originP1: bool, originP2: bool)

  /** What Update does to the points and the focus, given the cursor and
      the mouse state. A point grabbed by a press follows the cursor while
      the button is held; the snap buttons act only if no point was
      focused at the start of the frame (they are disabled otherwise). */
  function UpdateStep(points: seq<FPoint>, focused: int, curve: FRectangle, cursor: FPoint,
                      justPressed: bool, pressed: bool, clicks: Clicks): (r: (seq<FPoint>, int))
    requires |points| == 4 && -1 <= focused < 4 && NonDegenerate(curve)
    ensures |r.0| == 4 && -1 <= r.1 < 4
    ensures !pressed ==> r.1 == -1
    ensures pressed && !justPressed ==> r.1 == focused
    ensures r.0[0].X == 0.0 && r.0[3].X == 1.0 && -1.0 <= r.0[0].Y <= 1.0 && -1.0 <= r.0[3].Y <= 1.0
  {
    var picked := if justPressed then PickFocus(points, curve, cursor, 0) else -1;
    var f := if picked != -1 then picked else focused;
    var dragged := if f >= 0 then points[f := ScreenToControl(curve, cursor)] else points;
    var enabled := focused < 0;
    var s0 := if enabled && clicks.snapP0 then dragged[0 := FPoint(dragged[0].X, 0.0)] else dragged;
    var s1 := if enabled && clicks.snapP3 then s0[3 := FPoint(s0[3].X, 0.0)] else s0;
    var s2 := if enabled && clicks.originP1 then s1[1 := s1[0]] else s1;
    var s3 := if enabled && clicks.originP2 then s2[2 := s2[3]] else s2;
    (ClampPoints(s3, points[0], points[3]), if pressed then f else -1)
  }

  /** A held point follows the cursor: without clicks, a focused inner
      point ends the frame at the cursor's control position, clamped and
      moved with its end point. */
  lemma {:induction false} DraggedPointFollowsCursor(points: seq<FPoint>, focused: int, curve: FRectangle, cursor: FPoint)
    requires |points| == 4 && focused == 1 && NonDegenerate(curve)
    ensures var r := UpdateStep(points, focused, curve, cursor, false, true, Clicks(false, false, false, false));
      var c := ScreenToControl(curve, cursor);
      r.1 == 1 && r.0[1].Sub(r.0[0].Sub(points[0])) == FPoint(Clamp(c.X, 0.0, 1.0 / ControlPointScale), c.Y)
  {
  }

  class Editor {
    var Rect: FRectangle
    var Points: seq<FPoint>
    var Focused: int

    predicate Valid()
      reads this
    {
      |Points| == 4 && -1 <= Focused < 4
    }

    /** NewBezierEditor: the default curve's points, nothing focused. */
    constructor()
      ensures Valid() && Points == DefaultBezierCurveData.Points && Focused == -1
    {
      Rect := FRectangle(FPoint(0.0, 0.0), FPoint(0.0, 0.0));
      Points := DefaultBezierCurveData.Points;
      Focused := -1;
    }

    function CurveRect(): FRectangle
      reads this
    {
      CurveRectOf(Rect)
    }

    /** GetBezierCurveData: the curve the editor shows, as data. */
    function GetBezierCurveData(): (data: BezierCurveData)
      reads this
      requires Valid()
      ensures data.Valid() && data.Points == Expand(Points)
    {
      BezierCurveData(Expand(Points))
    }

    /** SetToBezierCurveData. */
    method SetToBezierCurveData(data: BezierCurveData)
      requires Valid() && data.Valid()
      modifies this
      ensures Valid() && Points == Shrink(data.Points)
      ensures Rect == old(Rect) && Focused == old(Focused)
      ensures GetBezierCurveData().Points == ClampData(data.Points)
    {
      var p := Shrink(data.Points);
      var i := 0;
      while i < 4
        invariant 0 <= i <= 4 && |Points| == 4
        invariant Points[..i] == p[..i]
        invariant Rect == old(Rect) && Focused == old(Focused)
      {
        Points := Points[i := p[i]];
        i := i + 1;
      }
      assert Points == Points[..4];
      GetAfterSet(data.Points);
    }

    /** Update, for the points and the focus. */
    method Update(cursor: FPoint, justPressed: bool, pressed: bool, clicks: Clicks)
      requires Valid() && NonDegenerate(CurveRect())
      modifies this
      ensures Valid() && Rect == old(Rect)
      ensures (Points, Focused) == UpdateStep(old(Points), old(Focused), CurveRect(), cursor, justPressed, pressed, clicks)
    {
      var step := UpdateStep(Points, Focused, CurveRect(), cursor, justPressed, pressed, clicks);
      Points, Focused := step.0, step.1;
    }
  }
}
