/** The audio shim of sound/sound.ts: the table of decoded buffers by
    name, the table of players by id, the player delegates, and the
    once-only resume hook installed by initAudioContext. Promises are
    modelled by their outcome: the caller passes what decoding produced
    and runs the callbacks in the order the event loop would. */
module WebSound {
  import opened Wrappers
  import opened WebPlayer

  // ---------------------------------------------------------------
  // The resume hook
  // ---------------------------------------------------------------

  /** The resume hook's state: whether ON_AUDIO_RESUME has run, and
      whether the three document listeners are still registered. */
  datatype Hook = Hook(Called: bool, Registered: bool)

  const HookInstalled := Hook(false, true)

  /** One run of the resume promise's continuation, with
      `hookDefined` telling whether ON_AUDIO_RESUME is a function at that
      moment. Returns the new state and whether ON_AUDIO_RESUME ran. */
  function OnResumed(h: Hook, hookDefined: bool): (r: (Hook, bool))
    ensures r.1 <==> hookDefined && !h.Called
    ensures r.0.Called <==> h.Called || hookDefined
    ensures r.0.Registered <==> h.Registered && !hookDefined
  {
    if !hookDefined then (h, false)
    else
      var invoked := !h.Called;
      (Hook(true, false), invoked)
  }

  /** The hook states after a sequence of resume continuations, and how
      many times ON_AUDIO_RESUME ran. */
  function RunResumes(h: Hook, events: seq<bool>): (Hook, nat)
    decreases |events|
  {
    if |events| == 0 then (h, 0)
    else
      var (h', invoked) := OnResumed(h, events[0]);
      var (last, n) := RunResumes(h', events[1..]);
      (last, n + (if invoked then 1 else 0))
  }

  /** ON_AUDIO_RESUME runs at most once, however many events arrive, and
      not at all once it has run. */
  lemma {:induction false} ResumeAtMostOnce(h: Hook, events: seq<bool>)
    ensures RunResumes(h, events).1 <= (if h.Called then 0 else 1)
    ensures h.Called ==> RunResumes(h, events).0.Called
    decreases |events|
  {
    if |events| > 0 {
      var (h', invoked) := OnResumed(h, events[0]);
      ResumeAtMostOnce(h', events[1..]);
    }
  }

  /** The listeners go away only once ON_AUDIO_RESUME exists and has
      run. */
  lemma {:induction false} ListenersRemovedOnlyAfterCall(h: Hook, events: seq<bool>)
    requires h.Registered || h.Called
    ensures !RunResumes(h, events).0.Registered ==> RunResumes(h, events).0.Called
    ensures (forall i :: 0 <= i < |events| ==> !events[i]) ==> RunResumes(h, events).0 == h
    decreases |events|
  {
    if |events| > 0 {
      var (h', invoked) := OnResumed(h, events[0]);
      ListenersRemovedOnlyAfterCall(h', events[1..]);
    }
  }

  // ---------------------------------------------------------------
  // Buffers
  // ---------------------------------------------------------------

  /** What AudioContext.decodeAudioData did with a file. */
  datatype DecodeOutcome = Threw | Rejected | Decoded(buffer: AudioBuffer)

  /** AudioContext.createBuffer: fails (NotSupportedError) for zero
      channels, zero length or a sample rate outside [3000, 768000]
      (section 1.4 of the Web Audio API); otherwise every channel holds
      `length` zero samples. */
  function CreateBuffer(channels: nat, length: nat, sampleRate: real): (r: Option<AudioBuffer>)
    ensures r.Some? <==> channels >= 1 && length >= 1 && 3000.0 <= sampleRate <= 768000.0
    ensures r.Some? ==> r.value.Valid() && |r.value.Channels| == channels && r.value.Length == length
  {
    if channels >= 1 && length >= 1 && 3000.0 <= sampleRate <= 768000.0 then
      Some(AudioBuffer(seq(channels, _ => seq(length, _ => 0.0)), length, sampleRate))
    else None
  }

  /** AudioBuffer.copyToChannel(source, c): copies as many samples as fit
      into channel `c` from its start. */
  function CopyToChannel(b: AudioBuffer, source: seq<real>, c: nat): (r: AudioBuffer)
    requires b.Valid() && c < |b.Channels|
    ensures r.Valid() && r.Length == b.Length && r.SampleRate == b.SampleRate && |r.Channels| == |b.Channels|
    ensures forall k :: 0 <= k < |b.Channels| && k != c ==> r.Channels[k] == b.Channels[k]
    ensures forall i :: 0 <= i < b.Length ==>
      r.Channels[c][i] == (if i < |source| then source[i] else b.Channels[c][i])
  {
    var n := if |source| < b.Length then |source| else b.Length;
    b.(Channels := b.Channels[c := source[..n] + b.Channels[c][n..]])
  }

  /** A Float32Array's byteLength. */
  function ByteLength(samples: seq<real>): nat
  {
    4 * |samples|
  }

  /** The frame length newBufferFromUndecodedAudioFile passes to
      createBuffer, as written: the first channel's byteLength. */
  function UndecodedLengthAsWritten(channelDatas: seq<seq<real>>): nat
  {
    if |channelDatas| > 0 then ByteLength(channelDatas[0]) else 0
  }

  /** The frame length evidently intended: the first channel's sample
      count. */
  function UndecodedLength(channelDatas: seq<seq<real>>): nat
  {
    if |channelDatas| > 0 then |channelDatas[0]| else 0
  }

  /** As written, one channel of two samples at 44100 Hz gives a buffer
      of eight frames: four times the duration, the tail silent. */
  lemma {:induction false} UndecodedLengthAsWrittenTooLong()
    ensures UndecodedLengthAsWritten([[0.5, -0.5]]) == 8
    ensures CreateBuffer(1, UndecodedLengthAsWritten([[0.5, -0.5]]), 44100.0).Some?
    ensures CreateBuffer(1, UndecodedLengthAsWritten([[0.5, -0.5]]), 44100.0).value.Duration()
         == 4.0 * CreateBuffer(1, UndecodedLength([[0.5, -0.5]]), 44100.0).value.Duration()
  {
  }

  /** The buffer newBufferFromUndecodedAudioFile builds with the
      intended length: the channels are exactly the given data. */
  lemma {:induction false} UndecodedBufferHoldsChannels(channelDatas: seq<seq<real>>, sampleRate: real)
    requires |channelDatas| >= 1 && |channelDatas[0]| >= 1 && 3000.0 <= sampleRate <= 768000.0
    requires forall c :: 0 <= c < |channelDatas| ==> |channelDatas[c]| == |channelDatas[0]|
    ensures CreateBuffer(|channelDatas|, UndecodedLength(channelDatas), sampleRate).Some?
    ensures var b := FillChannels(CreateBuffer(|channelDatas|, UndecodedLength(channelDatas), sampleRate).value,
                                  channelDatas, |channelDatas|);
      b.Channels == channelDatas && b.Duration() == |channelDatas[0]| as real / sampleRate
  {
    var b0 := CreateBuffer(|channelDatas|, UndecodedLength(channelDatas), sampleRate).value;
    var b := FillChannels(b0, channelDatas, |channelDatas|);
    FillChannelsCopies(b0, channelDatas, |channelDatas|);
    assert forall c :: 0 <= c < |channelDatas| ==> b.Channels[c] == channelDatas[c];
  }

  /** The buffer after copying channels `0..k` in order. */
  function FillChannels(b: AudioBuffer, channelDatas: seq<seq<real>>, k: nat): (r: AudioBuffer)
    requires b.Valid() && k <= |channelDatas| == |b.Channels|
    ensures r.Valid() && r.Length == b.Length && r.SampleRate == b.SampleRate && |r.Channels| == |b.Channels|
  {
    if k == 0 then b else CopyToChannel(FillChannels(b, channelDatas, k - 1), channelDatas[k - 1], k - 1)
  }

  /** Channel `c < k` of FillChannels holds channel `c` of the data,
      clipped or zero-padded to the buffer's length; the others are
      untouched. */
  lemma {:induction false} FillChannelsCopies(b: AudioBuffer, channelDatas: seq<seq<real>>, k: nat)
    requires b.Valid() && k <= |channelDatas| == |b.Channels|
    ensures forall c, i :: 0 <= c < k && 0 <= i < b.Length ==>
      FillChannels(b, channelDatas, k).Channels[c][i] == (if i < |channelDatas[c]| then channelDatas[c][i] else b.Channels[c][i])
    ensures forall c :: k <= c < |b.Channels| ==> FillChannels(b, channelDatas, k).Channels[c] == b.Channels[c]
  {
    if k > 0 {
      FillChannelsCopies(b, channelDatas, k - 1);
    }
  }

  // ---------------------------------------------------------------
  // The shim's tables
  // ---------------------------------------------------------------

  class Shim {
    var AudioBuffers: map<string, AudioBuffer>
    var InternalPlayers: map<int, InternalPlayer>
    const Statics: PlayerStatics

    /** Each player is stored under its own id, no id is above the
        counter, and no player is the shared statics. */
    ghost predicate Valid()
      reads this, Statics, InternalPlayers.Values
    {
      forall id :: id in InternalPlayers ==> InternalPlayers[id].Id == id && id <= Statics.IdCounter
    }

    constructor (statics: PlayerStatics)
      ensures AudioBuffers == map[] && InternalPlayers == map[] && Statics == statics
    {
      AudioBuffers := map[];
      InternalPlayers := map[];
      Statics := statics;
    }

    /** newBufferFromAudioFile: stores the buffer and reports true only
        when decoding succeeded; a synchronous throw or a rejection
        reports false and stores nothing. */
    method NewBufferFromAudioFile(name: string, outcome: DecodeOutcome) returns (success: bool)
      modifies this
      ensures success <==> outcome.Decoded?
      ensures AudioBuffers == if outcome.Decoded? then old(AudioBuffers)[name := outcome.buffer] else old(AudioBuffers)
      ensures InternalPlayers == old(InternalPlayers)
    {
      match outcome {
        case Threw =>
          success := false;
        case Rejected =>
          success := false;
        case Decoded(buffer) =>
          AudioBuffers := AudioBuffers[name := buffer];
          success := true;
      }
    }

    /** newBufferFromUndecodedAudioFile: creates a buffer of
        `channelDatas` channels and copies channel `i` into channel `i`
        in order, then stores it under `name`. A buffer createBuffer
        refuses (no channels, an empty first channel, a bad rate) throws
        before anything is stored. */
    method NewBufferFromUndecodedAudioFile(name: string, channelDatas: seq<seq<real>>, sampleRate: real)
      returns (stored: bool)
      modifies this
      ensures var created := CreateBuffer(|channelDatas|, UndecodedLength(channelDatas), sampleRate);
        && (stored <==> created.Some?)
        && AudioBuffers == if stored then old(AudioBuffers)[name := FillChannels(created.value, channelDatas, |channelDatas|)]
                           else old(AudioBuffers)
      ensures InternalPlayers == old(InternalPlayers)
    {
      var channelLength := 0;
      if |channelDatas| > 0 {
        channelLength := |channelDatas[0]|;
      }
      var created := CreateBuffer(|channelDatas|, channelLength, sampleRate);
      if created.None? {
        return false;
      }
      var buffer := created.value;
      var i := 0;
      while i < |channelDatas|
        invariant 0 <= i <= |channelDatas|
        invariant buffer == FillChannels(created.value, channelDatas, i)
      {
        buffer := CopyToChannel(buffer, channelDatas[i], i);
        i := i + 1;
      }
      AudioBuffers := AudioBuffers[name := buffer];
      stored := true;
    }

    /** newPlayer: a new player on the named buffer, stored under its
        fresh id, which is returned. */
    method NewPlayer(bufferName: string) returns (id: int)
      requires Valid() && bufferName in AudioBuffers
      modifies this, Statics
      ensures Valid()
      ensures id == Statics.IdCounter == old(Statics.IdCounter) + 1
      ensures id !in old(InternalPlayers)
      ensures id in InternalPlayers && fresh(InternalPlayers[id])
      ensures AudioBuffers == old(AudioBuffers)
      ensures InternalPlayers[id].View() == InitialView && InternalPlayers[id].Buffer == AudioBuffers[bufferName]
      ensures InternalPlayers == old(InternalPlayers)[id := InternalPlayers[id]]
    {
      var p := new InternalPlayer(AudioBuffers[bufferName], Statics);
      InternalPlayers := InternalPlayers[p.Id := p];
      id := p.Id;
    }

    /** playerIsPlaying. */
    function PlayerIsPlaying(playerId: int): (r: bool)
      reads this, InternalPlayers.Values
      requires playerId in InternalPlayers
      ensures r <==> InternalPlayers[playerId].State == Playing
    {
      InternalPlayers[playerId].State == Playing
    }

    method PlayerPlay(playerId: int)
      requires playerId in InternalPlayers
      modifies InternalPlayers[playerId], Statics
      ensures InternalPlayers[playerId].View() ==
        PlayStep(old(InternalPlayers[playerId].View()), Statics.CurrentTime, old(Statics.SourceCount))
    {
      InternalPlayers[playerId].Play(Statics);
    }

    method PlayerPause(playerId: int)
      requires playerId in InternalPlayers
      modifies InternalPlayers[playerId]
      ensures InternalPlayers[playerId].View() == PauseStep(old(InternalPlayers[playerId].View()), Statics.CurrentTime)
    {
      InternalPlayers[playerId].Pause(Statics);
    }

    function PlayerDuration(playerId: int): (d: real)
      reads this, InternalPlayers.Values
      requires playerId in InternalPlayers
      ensures d == InternalPlayers[playerId].Buffer.Duration()
    {
      InternalPlayers[playerId].Duration()
    }

    function PlayerPosition(playerId: int): (r: real)
      reads this, InternalPlayers.Values, Statics
      requires playerId in InternalPlayers
      ensures r == Position(InternalPlayers[playerId].View(), Statics.CurrentTime)
    {
      InternalPlayers[playerId].GetPosition(Statics)
    }

    method PlayerSetPosition(playerId: int, at: real)
      requires playerId in InternalPlayers
      modifies InternalPlayers[playerId], Statics
      ensures InternalPlayers[playerId].View() ==
        SetPositionStep(old(InternalPlayers[playerId].View()), at, InternalPlayers[playerId].Duration(),
                        Statics.CurrentTime, old(Statics.SourceCount))
    {
      InternalPlayers[playerId].SetPosition(at, Statics);
    }

    function PlayerVolume(playerId: int): (v: real)
      reads this, InternalPlayers.Values
      requires playerId in InternalPlayers
      ensures v == InternalPlayers[playerId].Gain
    {
      InternalPlayers[playerId].Volume()
    }

    method PlayerSetVolume(playerId: int, volume: real)
      requires playerId in InternalPlayers
      modifies InternalPlayers[playerId]
      ensures InternalPlayers[playerId].View() == SetVolumeStep(old(InternalPlayers[playerId].View()), volume)
    {
      InternalPlayers[playerId].SetVolume(volume);
    }
  }

}
