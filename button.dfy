/** The hover/down state and click rule of a button (button.go). The
    cursor position, the state of the left mouse button and the global
    timer are inputs; the OnClick callback is opaque, so Update reports
    whether it would have been called. */
module Button {
  import opened Math
  import opened Input

  datatype ButtonState = Normal | Hover | Down

  /** One frame of BaseButton.Update: the new state, whether OnClick is
      called, and the new auto-repeat map. */
  function UpdateStep(rect: FRectangle, disabled: bool, hasOnClick: bool, repeatOnHold: bool,
                      firstRate: int, repeatRate: int, cursor: FPoint, pressed: bool, justPressed: bool,
                      now: int, m: map<MouseButton, int>)
    : (r: (ButtonState, bool, map<MouseButton, int>))
    ensures disabled ==> r == (Normal, false, m)
    ensures !disabled && !cursor.In(rect) ==> r == (Normal, false, m)
    ensures !disabled && cursor.In(rect) ==> r.0 == (if pressed then Down else Hover)
    ensures !repeatOnHold ==> r.2 == m && (r.1 <==> !disabled && cursor.In(rect) && justPressed && hasOnClick)
    ensures repeatOnHold && !disabled && cursor.In(rect) ==>
      var (fire, m') := RepeatStep(m, Left, pressed, justPressed, now, firstRate, repeatRate);
      r.2 == m' && (r.1 <==> fire && hasOnClick)
  {
    if disabled then (Normal, false, m)
    else if cursor.In(rect) then
      var (fire, m') :=
        if repeatOnHold then RepeatStep(m, Left, pressed, justPressed, now, firstRate, repeatRate)
        else (justPressed, m);
      (if pressed then Down else Hover, fire && hasOnClick, m')
    else (Normal, false, m)
  }

  class BaseButton {
    var Rect: FRectangle
    var Disabled: bool
    /** Whether OnClick is non-nil. */
    var HasOnClick: bool
    var RepeateOnHold: bool
    var FirstRate: int
    var RepeatRate: int
    var State: ButtonState

    constructor(rect: FRectangle, hasOnClick: bool)
      ensures Rect == rect && HasOnClick == hasOnClick && !Disabled && !RepeateOnHold && State == Normal
    {
      Rect := rect;
      HasOnClick := hasOnClick;
      Disabled := false;
      RepeateOnHold := false;
      FirstRate, RepeatRate := 0, 0;
      State := Normal;
    }

    /** button.go BaseButton.Update; `clicked` says whether OnClick ran. */
    method Update(cursor: FPoint, pressed: bool, justPressed: bool, now: int, repeat: MouseRepeat)
      returns (clicked: bool)
      modifies this, repeat
      ensures (State, clicked, repeat.repeatMap) ==
        UpdateStep(old(Rect), old(Disabled), old(HasOnClick), old(RepeateOnHold), old(FirstRate),
                   old(RepeatRate), cursor, pressed, justPressed, now, old(repeat.repeatMap))
      ensures Rect == old(Rect) && Disabled == old(Disabled) && HasOnClick == old(HasOnClick)
      ensures RepeateOnHold == old(RepeateOnHold) && FirstRate == old(FirstRate) && RepeatRate == old(RepeatRate)
    {
      clicked := false;
      if Disabled {
        State := Normal;
        return;
      }
      if cursor.In(Rect) {
        if RepeateOnHold {
          var fire := repeat.HandleMouseButtonRepeat(FirstRate, RepeatRate, Left, pressed, justPressed, now);
          if fire && HasOnClick {
            clicked := true;
          }
        } else {
          if justPressed && HasOnClick {
            clicked := true;
          }
        }
        if pressed {
          State := Down;
        } else {
          State := Hover;
        }
      } else {
        State := Normal;
      }
    }
  }

  /** A click needs an enabled button with a callback and the cursor over
      it, borders included; and a clicked repeat-less button was just
      pressed. */
  lemma {:induction false} ClickNeedsCursor(rect: FRectangle, disabled: bool, hasOnClick: bool, repeatOnHold: bool,
                         firstRate: int, repeatRate: int, cursor: FPoint, pressed: bool, justPressed: bool,
                         now: int, m: map<MouseButton, int>)
    ensures var r := UpdateStep(rect, disabled, hasOnClick, repeatOnHold, firstRate, repeatRate,
                                cursor, pressed, justPressed, now, m);
      r.1 ==> !disabled && hasOnClick && cursor.In(rect) && (pressed || !repeatOnHold)
  {
  }

  /** The state is Down exactly when the button is enabled, the cursor is
      over it and the left button is held. */
  lemma {:induction false} DownIff(rect: FRectangle, disabled: bool, hasOnClick: bool, repeatOnHold: bool,
                firstRate: int, repeatRate: int, cursor: FPoint, pressed: bool, justPressed: bool,
                now: int, m: map<MouseButton, int>)
    ensures var r := UpdateStep(rect, disabled, hasOnClick, repeatOnHold, firstRate, repeatRate,
                                cursor, pressed, justPressed, now, m);
      r.0 == Down <==> !disabled && cursor.In(rect) && pressed
  {
  }
}
