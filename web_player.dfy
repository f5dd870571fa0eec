/** The Web Audio player of sound/internalplayer.ts: a play head, the
    audio-context time at which playback last started, and the source
    node currently playing. The audio context is abstract: its clock is
    a `real` that the caller advances, and each created source node is
    a fresh number. Which source nodes still carry the player's 'ended'
    listener is part of the state, because the source relies on that
    listener to notice the end of playback. */
module WebPlayer {
  import opened Wrappers

  /** An AudioBuffer: `Length` sample frames per channel at `SampleRate`
      frames per second. */
  datatype AudioBuffer = AudioBuffer(Channels: seq<seq<real>>, Length: nat, SampleRate: real)
  {
    predicate Valid()
    {
      SampleRate > 0.0 && forall c :: 0 <= c < |Channels| ==> |Channels[c]| == Length
    }

    function Duration(): (d: real)
      ensures SampleRate > 0.0 ==> d >= 0.0
    {
      if SampleRate > 0.0 then Length as real / SampleRate else 0.0
    }
  }

  datatype PlayState = Paused | Playing

  /** Everything a player changes: its state, play head, start time,
      current source node, the source nodes carrying its 'ended'
      listener, and its gain. */
  datatype PlayerView = PlayerView(
    State: PlayState,
    PlayHead: real,
    PlayStartedAt: real,
    Source: Option<nat>,
    Listening: set<nat>,
    Gain: real)

  /** A fresh player: paused at 0 with no source; a new GainNode has
      gain 1. */
  const InitialView := PlayerView(Paused, 0.0, 0.0, None, {}, 1.0)

  function SourceSet(s: Option<nat>): set<nat>
  {
    if s.Some? then {s.value} else {}
  }

  /** play(): a no-op when playing; otherwise starts a new source `src`
      at clock `now` from the play head. */
  function PlayStep(v: PlayerView, now: real, src: nat): (r: PlayerView)
    ensures v.State == Playing ==> r == v
    ensures v.State == Paused ==>
      && r.State == Playing && r.PlayStartedAt == now && r.PlayHead == v.PlayHead
      && r.Source == Some(src) && r.Listening == v.Listening + {src} && r.Gain == v.Gain
  {
    if v.State == Playing then v
    else v.(State := Playing, Source := Some(src), Listening := v.Listening + {src}, PlayStartedAt := now)
  }

  /** pause() as written: stops the source but leaves the 'ended'
      listener attached to it. */
  function PauseAsWritten(v: PlayerView, now: real): (r: PlayerView)
    ensures v.State == Paused ==> r == v
    ensures v.State == Playing ==>
      && r.State == Paused && r.PlayHead == v.PlayHead + (now - v.PlayStartedAt)
      && r.Source == None && r.Listening == v.Listening
  {
    if v.State == Paused then v
    else v.(State := Paused, PlayHead := v.PlayHead + (now - v.PlayStartedAt), Source := None)
  }

  /** pause() with the listener detached before stopping the source, as
      setPosition already does. */
  function PauseStep(v: PlayerView, now: real): (r: PlayerView)
    ensures v.State == Paused ==> r == v
    ensures v.State == Playing ==>
      && r.State == Paused && r.PlayHead == v.PlayHead + (now - v.PlayStartedAt)
      && r.Source == None && r.Listening == v.Listening - SourceSet(v.Source)
  {
    if v.State == Paused then v
    else v.(State := Paused, PlayHead := v.PlayHead + (now - v.PlayStartedAt), Source := None,
            Listening := v.Listening - SourceSet(v.Source))
  }

  /** position(): not clamped to the duration. */
  function Position(v: PlayerView, now: real): real
  {
    if v.State == Playing then now - v.PlayStartedAt + v.PlayHead else v.PlayHead
  }

  function ClampTo(at: real, duration: real): (r: real)
    ensures 0.0 <= duration ==> 0.0 <= r <= duration
    ensures 0.0 <= at <= duration ==> r == at
  {
    var a := if at < 0.0 then 0.0 else at;
    if a > duration then duration else a
  }

  /** setPosition(at): clamps `at` to [0, duration]; while playing it
      replaces the source (moving the listener to the new one `src`)
      and restarts from `at` at clock `now`. */
  function SetPositionStep(v: PlayerView, at: real, duration: real, now: real, src: nat): (r: PlayerView)
    ensures r.State == v.State && r.Gain == v.Gain
    ensures r.PlayHead == ClampTo(at, duration)
    ensures v.State == Paused ==> r == v.(PlayHead := ClampTo(at, duration))
    ensures v.State == Playing ==>
      && r.PlayStartedAt == now && r.Source == Some(src)
      && r.Listening == v.Listening - SourceSet(v.Source) + {src}
  {
    var a := ClampTo(at, duration);
    if v.State == Playing then
      v.(Listening := v.Listening - SourceSet(v.Source) + {src}, Source := Some(src),
         PlayHead := a, PlayStartedAt := now)
    else v.(PlayHead := a)
  }

  /** setVolume: the gain becomes the volume clamped to [0, 1]. */
  function SetVolumeStep(v: PlayerView, volume: real): (r: PlayerView)
    ensures 0.0 <= r.Gain <= 1.0
    ensures 0.0 <= volume <= 1.0 ==> r.Gain == volume
    ensures r == v.(Gain := r.Gain)
  {
    v.(Gain := ClampTo(volume, 1.0))
  }

  /** Source `src` fires 'ended'. The handler runs only while it is
      attached to `src`: if the player was playing it becomes paused at
      the end of the buffer; in every case the source is forgotten. A
      source fires 'ended' once, so its listener is spent. */
  function EndedStep(v: PlayerView, src: nat, duration: real): (r: PlayerView)
    ensures src !in v.Listening ==> r == v
    ensures src in v.Listening && v.State == Playing ==> r.State == Paused && r.PlayHead == duration
    ensures src in v.Listening && v.State == Paused ==> r.State == Paused && r.PlayHead == v.PlayHead
    ensures src in v.Listening ==> r.Source == None && r.Gain == v.Gain
  {
    if src !in v.Listening then v
    else
      var w := if v.State == Playing then v.(State := Paused, PlayHead := duration) else v;
      w.(Source := None, Listening := v.Listening - {src})
  }

  /** Pausing and playing again at the same instant keeps the position. */
  lemma {:induction false} PauseThenPlayKeepsPosition(v: PlayerView, now: real, src: nat)
    ensures Position(PlayStep(PauseStep(v, now), now, src), now) == Position(v, now)
    ensures Position(PlayStep(PauseAsWritten(v, now), now, src), now) == Position(v, now)
  {
  }

  /** While playing, the position grows with the clock at unit rate. */
  lemma {:induction false} PositionAdvances(v: PlayerView, t0: real, t1: real)
    requires v.State == Playing
    ensures Position(v, t1) - Position(v, t0) == t1 - t0
  {
  }

  /** After setPosition the position is the clamped target. */
  lemma {:induction false} SetPositionThenPosition(v: PlayerView, at: real, duration: real, now: real, src: nat)
    requires 0.0 <= duration
    ensures 0.0 <= Position(SetPositionStep(v, at, duration, now, src), now) <= duration
    ensures Position(SetPositionStep(v, at, duration, now, src), now) == ClampTo(at, duration)
  {
  }

  /** A player has a source exactly while playing, and the listener is
      attached at most to that source. */
  predicate ListenerInv(v: PlayerView)
  {
    v.Listening <= SourceSet(v.Source) && (v.State == Playing <==> v.Source.Some?)
  }

  /** Every step of the corrected player keeps ListenerInv. */
  lemma {:induction false} ListenerInvPreserved(v: PlayerView, now: real, src: nat, at: real, duration: real, volume: real, ended: nat)
    requires ListenerInv(v)
    ensures ListenerInv(InitialView)
    ensures ListenerInv(PlayStep(v, now, src))
    ensures ListenerInv(PauseStep(v, now))
    ensures ListenerInv(SetPositionStep(v, at, duration, now, src))
    ensures ListenerInv(SetVolumeStep(v, volume))
    ensures ListenerInv(EndedStep(v, ended, duration))
  {
    if v.State == Paused {
      assert v.Listening == {};
    }
  }

  /** With the invariant, an 'ended' event from any source other than
      the current one changes nothing. */
  lemma {:induction false} StaleEndedIgnored(v: PlayerView, src: nat, duration: real)
    requires ListenerInv(v) && v.Source != Some(src)
    ensures EndedStep(v, src, duration) == v
  {
    assert src !in SourceSet(v.Source);
  }

  /** As written, a pause followed at once by play leaves the stopped
      source's listener attached: when its 'ended' arrives, the player
      reports itself paused at the end of the buffer although the new
      source is playing, and it forgets that source. */
  lemma {:induction false} LateEndedAfterPauseAsWritten()
    ensures var v := PlayStep(PauseAsWritten(PlayStep(InitialView, 0.0, 1), 1.0), 1.0, 2);
      && v.State == Playing && v.Source == Some(2)
      && EndedStep(v, 1, 5.0).State == Paused
      && EndedStep(v, 1, 5.0).Source == None
      && Position(EndedStep(v, 1, 5.0), 1.0) == 5.0
      && Position(v, 1.0) == 1.0
  {
  }

  /** The same sequence with the corrected pause: the late 'ended' is
      ignored. */
  lemma {:induction false} LateEndedAfterPause()
    ensures var v := PlayStep(PauseStep(PlayStep(InitialView, 0.0, 1), 1.0), 1.0, 2);
      && v.State == Playing && v.Source == Some(2)
      && EndedStep(v, 1, 5.0) == v
  {
    var v := PlayStep(PauseStep(PlayStep(InitialView, 0.0, 1), 1.0), 1.0, 2);
    ListenerInvPreserved(InitialView, 0.0, 1, 0.0, 0.0, 0.0, 0);
    ListenerInvPreserved(PlayStep(InitialView, 0.0, 1), 1.0, 1, 0.0, 0.0, 0.0, 0);
    ListenerInvPreserved(PauseStep(PlayStep(InitialView, 0.0, 1), 1.0), 1.0, 2, 0.0, 0.0, 0.0, 0);
    StaleEndedIgnored(v, 1, 5.0);
  }

  /** InternalPlayer's static fields: the id counter and the shared
      audio context, reduced to its clock and the number of source nodes
      created so far (the next source's number). */
  class PlayerStatics {
    var IdCounter: int
    var CurrentTime: real
    var SourceCount: nat

    constructor ()
      ensures IdCounter == 0 && CurrentTime == 0.0 && SourceCount == 0
    {
      IdCounter := 0;
      CurrentTime := 0.0;
      SourceCount := 0;
    }
  }

  class InternalPlayer {
    const Id: int
    const Buffer: AudioBuffer
    var Source: Option<nat>
    var Listening: set<nat>
    var Gain: real
    var PlayHead: real
    var PlayStartedAt: real
    var State: PlayState

    function View(): PlayerView
      reads this
    {
      PlayerView(State, PlayHead, PlayStartedAt, Source, Listening, Gain)
    }

    /** Takes the next id from the shared counter. */
    constructor (buffer: AudioBuffer, statics: PlayerStatics)
      modifies statics
      ensures statics.IdCounter == old(statics.IdCounter) + 1 && Id == statics.IdCounter
      ensures statics.CurrentTime == old(statics.CurrentTime) && statics.SourceCount == old(statics.SourceCount)
      ensures Buffer == buffer && View() == InitialView
    {
      statics.IdCounter := statics.IdCounter + 1;
      Id := statics.IdCounter;
      Buffer := buffer;
      Source := None;
      Listening := {};
      Gain := 1.0;
      PlayHead := 0.0;
      PlayStartedAt := 0.0;
      State := Paused;
    }

    function Duration(): (d: real)
      reads this
      ensures d == Buffer.Duration()
      ensures Buffer.SampleRate > 0.0 ==> d >= 0.0
    {
      Buffer.Duration()
    }

    method Play(statics: PlayerStatics)
      modifies this, statics
      ensures View() == PlayStep(old(View()), statics.CurrentTime, old(statics.SourceCount))
      ensures statics.CurrentTime == old(statics.CurrentTime) && statics.IdCounter == old(statics.IdCounter)
      ensures statics.SourceCount == old(statics.SourceCount) + (if old(State) == Playing then 0 else 1)
    {
      if State == Playing {
        return;
      }
      State := Playing;
      var src := statics.SourceCount;
      statics.SourceCount := statics.SourceCount + 1;
      Source := Some(src);
      Listening := Listening + {src};
      PlayStartedAt := statics.CurrentTime;
    }

    method Pause(statics: PlayerStatics)
      modifies this
      ensures View() == PauseStep(old(View()), statics.CurrentTime)
    {
      if State == Paused {
        return;
      }
      State := Paused;
      PlayHead := PlayHead + (statics.CurrentTime - PlayStartedAt);
      Listening := Listening - SourceSet(Source);
      Source := None;
    }

    function GetPosition(statics: PlayerStatics): (r: real)
      reads this, statics
      ensures r == Position(View(), statics.CurrentTime)
    {
      if State == Playing then statics.CurrentTime - PlayStartedAt + PlayHead else PlayHead
    }

    method SetPosition(at: real, statics: PlayerStatics)
      modifies this, statics
      ensures View() == SetPositionStep(old(View()), at, Duration(), statics.CurrentTime, old(statics.SourceCount))
      ensures statics.CurrentTime == old(statics.CurrentTime) && statics.IdCounter == old(statics.IdCounter)
      ensures statics.SourceCount == old(statics.SourceCount) + (if old(State) == Playing then 1 else 0)
    {
      var a := at;
      if a < 0.0 {
        a := 0.0;
      }
      if a > Duration() {
        a := Duration();
      }
      if State == Playing {
        Listening := Listening - SourceSet(Source);
        Source := None;
        var src := statics.SourceCount;
        statics.SourceCount := statics.SourceCount + 1;
        Source := Some(src);
        Listening := Listening + {src};
        PlayHead := a;
        PlayStartedAt := statics.CurrentTime;
      } else {
        PlayHead := a;
      }
    }

    function Volume(): (v: real)
      reads this
      ensures v == Gain
    {
      Gain
    }

    method SetVolume(volume: real)
      modifies this
      ensures View() == SetVolumeStep(old(View()), volume)
    {
      var v := volume;
      if v < 0.0 {
        v := 0.0;
      }
      if v > 1.0 {
        v := 1.0;
      }
      Gain := v;
    }

    /** The end handler, run when source `src` fires 'ended'. */
    method OnEnded(src: nat)
      modifies this
      ensures View() == EndedStep(old(View()), src, Duration())
    {
      if src !in Listening {
        return;
      }
      if State == Playing {
        State := Paused;
        PlayHead := Duration();
      }
      Source := None;
      Listening := Listening - {src};
    }
  }
}
