/** Mouse-button auto-repeat (input.go). The global repeat map of the
    game is the field of one MouseRepeat object; the state of the mouse
    and the global timer are passed in by the caller. */
module Input {

  datatype MouseButton = Left | Right | Middle

  /** One frame of HandleMouseButtonRepeat on the repeat map `m`: whether
      it fires, and the new map. */
  function RepeatStep(m: map<MouseButton, int>, b: MouseButton, pressed: bool, justPressed: bool,
                      now: int, firstRate: int, repeatRate: int): (r: (bool, map<MouseButton, int>))
    ensures b in r.1 && r.1 == m[b := r.1[b]]
    ensures !pressed ==> !r.0 && r.1[b] == 0
    ensures pressed && (justPressed || b !in m) ==> r.0 && r.1[b] == now + firstRate
    ensures pressed && !justPressed && b in m ==>
      (r.0 <==> now - m[b] > repeatRate) && r.1[b] == (if r.0 then now else m[b])
  {
    if !pressed then (false, m[b := 0])
    else if justPressed then (true, m[b := now + firstRate])
    else if b !in m then (true, m[b := now + firstRate])
    else if now - m[b] > repeatRate then (true, m[b := now])
    else (false, m)
  }

  class MouseRepeat {
    var repeatMap: map<MouseButton, int>

    constructor()
      ensures repeatMap == map[]
    {
      repeatMap := map[];
    }

    /** input.go HandleMouseButtonRepeat. */
    method HandleMouseButtonRepeat(firstRate: int, repeatRate: int, button: MouseButton,
                                   pressed: bool, justPressed: bool, now: int) returns (fire: bool)
      modifies this
      ensures (fire, repeatMap) == RepeatStep(old(repeatMap), button, pressed, justPressed, now, firstRate, repeatRate)
    {
      if !pressed {
        repeatMap := repeatMap[button := 0];
        return false;
      }
      if justPressed {
        repeatMap := repeatMap[button := now + firstRate];
        return true;
      }
      if button !in repeatMap {
        repeatMap := repeatMap[button := now + firstRate];
        return true;
      } else {
        var time := repeatMap[button];
        if now - time > repeatRate {
          repeatMap := repeatMap[button := now];
          return true;
        }
      }
      return false;
    }
  }

  // ---------------------------------------------------------------
  // Holding the button down over several frames
  // ---------------------------------------------------------------

  /** The frames at `times` with the button held and not just pressed:
      whether each fires, and the final map. */
  function Hold(m: map<MouseButton, int>, b: MouseButton, times: seq<int>, firstRate: int, repeatRate: int)
    : (r: (seq<bool>, map<MouseButton, int>))
    ensures |r.0| == |times|
    decreases |times|
  {
    if times == [] then ([], m)
    else
      var prev := Hold(m, b, times[..|times| - 1], firstRate, repeatRate);
      var step := RepeatStep(prev.1, b, true, false, times[|times| - 1], firstRate, repeatRate);
      (prev.0 + [step.0], step.1)
  }

  /** The index of the last `true`, or -1. */
  function LastTrue(fs: seq<bool>): (r: int)
    ensures -1 <= r < |fs|
    ensures r >= 0 ==> fs[r]
    ensures forall k :: r < k < |fs| ==> !fs[k]
  {
    if fs == [] then -1
    else if fs[|fs| - 1] then |fs| - 1
    else LastTrue(fs[..|fs| - 1])
  }

  /** The map entry in force before frame `j`: the time of the last
      firing frame before it, or the entry the hold started with. */
  function EntryBefore(entry: int, times: seq<int>, fs: seq<bool>, j: int): int
    requires 0 <= j <= |fs| == |times|
  {
    var k := LastTrue(fs[..j]);
    if k < 0 then entry else times[k]
  }

  /** Frames before `j` see the same entry whether or not later frames
      are counted. */
  lemma {:induction false} EntryBeforePrefix(entry: int, times: seq<int>, fs: seq<bool>, n: int, j: int)
    requires 0 <= j <= n <= |fs| == |times|
    ensures EntryBefore(entry, times, fs, j) == EntryBefore(entry, times[..n], fs[..n], j)
  {
    assert fs[..n][..j] == fs[..j];
  }

  /** The entry after the last frame: that frame's time if it fired,
      otherwise the entry before it. */
  lemma {:induction false} EntryBeforeLast(entry: int, times: seq<int>, fs: seq<bool>)
    requires 0 < |fs| == |times|
    ensures EntryBefore(entry, times, fs, |fs|) ==
      if fs[|fs| - 1] then times[|fs| - 1] else EntryBefore(entry, times, fs, |fs| - 1)
  {
    assert fs[..|fs|] == fs;
  }

  /** While the button is held the map entry ends as the time of the
      last firing frame, or as it started if no frame fired. */
  lemma {:induction false} HoldEntry(m: map<MouseButton, int>, b: MouseButton, times: seq<int>,
                                     firstRate: int, repeatRate: int)
    requires b in m
    ensures var r := Hold(m, b, times, firstRate, repeatRate);
      r.1 == m[b := EntryBefore(m[b], times, r.0, |times|)]
    decreases |times|
  {
    if times != [] {
      var n := |times| - 1;
      var init := times[..n];
      HoldEntry(m, b, init, firstRate, repeatRate);
      var prev := Hold(m, b, init, firstRate, repeatRate);
      var r := Hold(m, b, times, firstRate, repeatRate);
      var e := m[b];
      var e0 := EntryBefore(e, init, prev.0, n);
      assert r.0[..n] == prev.0;
      EntryBeforePrefix(e, times, r.0, n, n);
      EntryBeforeLast(e, times, r.0);
      var x := if r.0[n] then times[n] else e0;
      assert r.1 == prev.1[b := x];
      assert prev.1[b := x] == m[b := x];
    }
  }

  /** The first `k` frames of a hold do not depend on the later ones. */
  lemma {:induction false} HoldPrefix(m: map<MouseButton, int>, b: MouseButton, times: seq<int>,
                                      firstRate: int, repeatRate: int, k: int)
    requires 0 <= k <= |times|
    ensures Hold(m, b, times, firstRate, repeatRate).0[..k] == Hold(m, b, times[..k], firstRate, repeatRate).0
    decreases |times|
  {
    if k < |times| {
      var n := |times| - 1;
      HoldPrefix(m, b, times[..n], firstRate, repeatRate, k);
      assert times[..n][..k] == times[..k];
      assert Hold(m, b, times, firstRate, repeatRate).0[..n] == Hold(m, b, times[..n], firstRate, repeatRate).0;
    } else {
      assert times[..k] == times;
    }
  }

  /** While the button is held, frame `j` fires exactly when more than
      `repeatRate` has passed since the entry in force. */
  lemma {:induction false} HoldFires(m: map<MouseButton, int>, b: MouseButton, times: seq<int>,
                  firstRate: int, repeatRate: int, j: int)
    requires b in m && 0 <= j < |times|
    ensures var fs := Hold(m, b, times, firstRate, repeatRate).0;
      fs[j] <==> times[j] - EntryBefore(m[b], times, fs, j) > repeatRate
  {
    var fs := Hold(m, b, times, firstRate, repeatRate).0;
    var upto := times[..j + 1];
    HoldPrefix(m, b, times, firstRate, repeatRate, j + 1);
    HoldPrefix(m, b, times, firstRate, repeatRate, j);
    assert upto[..j] == times[..j];
    var before := Hold(m, b, times[..j], firstRate, repeatRate);
    HoldEntry(m, b, times[..j], firstRate, repeatRate);
    assert fs[j] == fs[..j + 1][j];
    EntryBeforePrefix(m[b], times, fs, j, j);
  }

  /** After a press at `t0`, the first repeat while held comes only once
      more than firstRate + repeatRate has passed. */
  lemma {:induction false} FirstRepeat(m: map<MouseButton, int>, b: MouseButton, t0: int, times: seq<int>,
                    firstRate: int, repeatRate: int, j: int)
    requires 0 <= j < |times|
    ensures var pressedMap := RepeatStep(m, b, true, true, t0, firstRate, repeatRate).1;
      var fs := Hold(pressedMap, b, times, firstRate, repeatRate).0;
      fs[j] && (forall k :: 0 <= k < j ==> !fs[k]) ==> times[j] > t0 + firstRate + repeatRate
  {
    var pressedMap := RepeatStep(m, b, true, true, t0, firstRate, repeatRate).1;
    HoldFires(pressedMap, b, times, firstRate, repeatRate, j);
  }

  /** Two consecutive repeats while held are more than repeatRate
      apart. */
  lemma {:induction false} RepeatSpacing(m: map<MouseButton, int>, b: MouseButton, times: seq<int>,
                      firstRate: int, repeatRate: int, i: int, j: int)
    requires b in m && 0 <= i < j < |times|
    ensures var fs := Hold(m, b, times, firstRate, repeatRate).0;
      fs[i] && fs[j] && (forall k :: i < k < j ==> !fs[k]) ==> times[j] - times[i] > repeatRate
  {
    HoldFires(m, b, times, firstRate, repeatRate, j);
    var fs := Hold(m, b, times, firstRate, repeatRate).0;
    if fs[i] && fs[j] && (forall k :: i < k < j ==> !fs[k]) {
      assert fs[..j][i];
      assert LastTrue(fs[..j]) == i;
    }
  }
}
