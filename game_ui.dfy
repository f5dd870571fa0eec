/** The top bar of the game screen (game_ui.go): the elapsed-time
    display, the difficulty stepper and the mute button. The wall clock
    is passed in as `now`, in nanoseconds. */
module GameUI {
  import opened Wrappers
  import opened GoInt
  import Sound

  // ---------------------------------------------------------------
  // Timer
  // ---------------------------------------------------------------

  class TimerUI {
    var ticking: bool
    var startTime: int
    var timeStartFrom: int

    constructor()
      ensures !ticking && startTime == 0 && timeStartFrom == 0
    {
      ticking, startTime, timeStartFrom := false, 0, 0;
    }

    /** game_ui.go TimerUI.Start. */
    method Start(now: int)
      modifies this
      ensures ticking && startTime == now && timeStartFrom == old(timeStartFrom)
    {
      ticking := true;
      startTime := now;
    }

    /** game_ui.go TimerUI.Pause: the frozen time is the time since the
        last Start only. */
    method Pause(now: int)
      modifies this
      ensures !ticking && startTime == old(startTime) && timeStartFrom == now - old(startTime)
    {
      ticking := false;
      timeStartFrom := now - startTime;
    }

    /** game_ui.go TimerUI.Reset. */
    method Reset()
      modifies this
      ensures !ticking && timeStartFrom == 0 && startTime == old(startTime)
    {
      ticking := false;
      timeStartFrom := 0;
    }

    /** game_ui.go TimerUI.CurrentTime. */
    function CurrentTime(now: int): (t: int)
      reads this
      ensures t == TimerAt(ticking, startTime, timeStartFrom, now)
    {
      TimerAt(ticking, startTime, timeStartFrom, now)
    }
  }

  /** The time shown for a timer state at `now`. */
  function TimerAt(ticking: bool, startTime: int, timeStartFrom: int, now: int): (t: int)
  {
    if !ticking then timeStartFrom else timeStartFrom + (now - startTime)
  }

  /** A running timer never goes backwards; a stopped one stands still. */
  lemma {:induction false} TimerMonotone(ticking: bool, startTime: int, timeStartFrom: int, now: int, later: int)
    requires now <= later
    ensures TimerAt(ticking, startTime, timeStartFrom, now) <= TimerAt(ticking, startTime, timeStartFrom, later)
    ensures !ticking ==> TimerAt(ticking, startTime, timeStartFrom, now) == TimerAt(ticking, startTime, timeStartFrom, later)
  {
  }

  /** After Reset the timer shows zero at any time; after Start at `t0`
      it shows the time since `t0` plus what it showed when stopped. */
  lemma {:induction false} TimerResetStart(startTime: int, timeStartFrom: int, t0: int, now: int)
    ensures TimerAt(false, startTime, 0, now) == 0
    ensures TimerAt(true, t0, timeStartFrom, now) == timeStartFrom + (now - t0)
  {
  }

  /** Start at s1, Pause at p1, Start at s2, Pause at p2: only the last
      running segment is shown, whatever the first one was. */
  method StartPauseTwice(tu: TimerUI, s1: int, p1: int, s2: int, p2: int, now: int) returns (shown: int)
    modifies tu
    ensures shown == p2 - s2
  {
    tu.Start(s1);
    tu.Pause(p1);
    tu.Start(s2);
    tu.Pause(p2);
    shown := tu.CurrentTime(now);
  }

  // ---------------------------------------------------------------
  // Difficulty stepper
  // ---------------------------------------------------------------

  /** Easy, Medium and Hard. */
  const DifficultySize: int := 3

  /** The left button: one step easier, stopping at the easiest. */
  function StepLeft(d: int): (r: (int, Option<int>))
    ensures r.0 == Max(d - 1, 0)
    ensures r.1 == (if r.0 != d then Some(r.0) else None)
    ensures 0 <= d < DifficultySize ==> 0 <= r.0 < DifficultySize && (r.1.Some? <==> d > 0)
  {
    var next := Max(d - 1, 0);
    (next, if next != d then Some(next) else None)
  }

  /** The right button: one step harder, stopping at the hardest. */
  function StepRight(d: int): (r: (int, Option<int>))
    ensures r.0 == Min(d + 1, DifficultySize - 1)
    ensures r.1 == (if r.0 != d then Some(r.0) else None)
    ensures 0 <= d < DifficultySize ==> 0 <= r.0 < DifficultySize && (r.1.Some? <==> d < DifficultySize - 1)
  {
    var next := Min(d + 1, DifficultySize - 1);
    (next, if next != d then Some(next) else None)
  }

  /** Left undoes right and right undoes left away from the ends. */
  lemma {:induction false} StepsUndo(d: int)
    requires 0 <= d < DifficultySize
    ensures d < DifficultySize - 1 ==> StepLeft(StepRight(d).0).0 == d
    ensures d > 0 ==> StepRight(StepLeft(d).0).0 == d
  {
  }

  class DifficultySelectUI {
    var Difficulty: int
    /** Whether OnDifficultyChange is non-nil. */
    var HasOnDifficultyChange: bool

    constructor(hasCallback: bool)
      ensures Difficulty == 0 && HasOnDifficultyChange == hasCallback
    {
      Difficulty := 0;
      HasOnDifficultyChange := hasCallback;
    }

    /** The left button's OnPress; `changed` is the argument
        OnDifficultyChange is called with, if it is called. */
    method PressLeft() returns (changed: Option<int>)
      modifies this
      ensures Difficulty == StepLeft(old(Difficulty)).0
      ensures changed == (if HasOnDifficultyChange then StepLeft(old(Difficulty)).1 else None)
      ensures HasOnDifficultyChange == old(HasOnDifficultyChange)
    {
      var prevDifficulty := Difficulty;
      Difficulty := Max(Difficulty - 1, 0);
      changed := None;
      if HasOnDifficultyChange && prevDifficulty != Difficulty {
        changed := Some(Difficulty);
      }
    }

    /** The right button's OnPress. */
    method PressRight() returns (changed: Option<int>)
      modifies this
      ensures Difficulty == StepRight(old(Difficulty)).0
      ensures changed == (if HasOnDifficultyChange then StepRight(old(Difficulty)).1 else None)
      ensures HasOnDifficultyChange == old(HasOnDifficultyChange)
    {
      var prevDifficulty := Difficulty;
      Difficulty := Min(Difficulty + 1, DifficultySize - 1);
      changed := None;
      if HasOnDifficultyChange && prevDifficulty != Difficulty {
        changed := Some(Difficulty);
      }
    }
  }

  // ---------------------------------------------------------------
  // Mute button
  // ---------------------------------------------------------------

  /** The tile sprites of the two speaker icons. */
  const SpriteUnmuted: int := 17
  const SpriteMuted: int := 16

  class MuteButtonUI {
    var IsMute: bool
    /** The sprite shown on the button, in every button state. */
    var Image: int

    constructor()
      ensures !IsMute && Image == SpriteUnmuted
    {
      IsMute := false;
      Image := SpriteUnmuted;
    }

    /** The mute button's OnPress. */
    method Press(sm: Sound.SoundManager)
      modifies this, sm
      ensures IsMute == !old(IsMute)
      ensures Image == (if IsMute then SpriteMuted else SpriteUnmuted)
      ensures sm.volume == (if IsMute then 0.0 else 1.0)
      ensures sm.players == old(sm.players) && sm.tmpPlayers == old(sm.tmpPlayers)
      ensures sm.prevVolume == old(sm.prevVolume) && sm.contextReady == old(sm.contextReady)
    {
      IsMute := !IsMute;
      if IsMute {
        Image := SpriteMuted;
        sm.SetGlobalVolume(0.0);
      } else {
        Image := SpriteUnmuted;
        sm.SetGlobalVolume(1.0);
      }
    }
  }
}
