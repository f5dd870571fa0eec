/** The game's sound manager (sound.go): a global volume, a list of
    long-lived players and, per sound name, a pool of short-lived players
    reused once they stop. The audio backend (oto) is abstract: a player
    records the volume it was last given, whether it is playing and its
    position; the backend ending a sound is not modelled. */
module Sound {
  import opened Math

  /** A pooled player: its own volume, the volume last passed to the
      backend, and the backend's playing flag and position. */
  datatype Player = Player(volume: real, backendVolume: real, playing: bool, position: int)

  /** Player.SetVolume: the clamped volume is stored, and the backend is
      given it scaled by the global volume. */
  function SetPlayerVolume(p: Player, v: real, global: real): (r: Player)
    ensures 0.0 <= r.volume <= 1.0 && (0.0 <= v <= 1.0 ==> r.volume == v)
    ensures r.backendVolume == r.volume * global
    ensures r.playing == p.playing && r.position == p.position
  {
    var clamped := Clamp(v, 0.0, 1.0);
    p.(volume := clamped, backendVolume := clamped * global)
  }

  /** The first player of the pool that is not playing, or -1. */
  function FirstIdle(ps: seq<Player>): (i: int)
    ensures -1 <= i < |ps|
    ensures i >= 0 ==> !ps[i].playing
    ensures forall j :: 0 <= j < |ps| && (i < 0 || j < i) ==> ps[j].playing
  {
    if ps == [] then -1
    else if !ps[0].playing then 0
    else
      var i := FirstIdle(ps[1..]);
      if i < 0 then -1 else i + 1
  }

  /** The pool after PlaySoundBytes: the first idle player is set to the
      volume, rewound and started; with none idle, a new started player
      is appended. */
  function PoolPlay(ps: seq<Player>, v: real, global: real): (r: seq<Player>)
    ensures FirstIdle(ps) >= 0 ==> |r| == |ps|
    ensures FirstIdle(ps) < 0 ==> |r| == |ps| + 1 && r[..|ps|] == ps
    ensures var i := if FirstIdle(ps) >= 0 then FirstIdle(ps) else |ps|;
      && r[i].playing && r[i].position == 0 && r[i].volume == Clamp(v, 0.0, 1.0)
      && r[i].backendVolume == r[i].volume * global
      && forall j :: 0 <= j < |ps| && j != i ==> r[j] == ps[j]
  {
    var i := FirstIdle(ps);
    if i >= 0 then
      ps[i := SetPlayerVolume(ps[i], v, global).(position := 0, playing := true)]
    else
      ps + [SetPlayerVolume(Player(1.0, 1.0, false, 0), v, global).(playing := true)]
  }

  /** The pool grows only when every player in it is busy. */
  lemma {:induction false} PoolGrowsOnlyWhenBusy(ps: seq<Player>, v: real, global: real)
    ensures |PoolPlay(ps, v, global)| > |ps| <==> forall j :: 0 <= j < |ps| ==> ps[j].playing
    ensures |PoolPlay(ps, v, global)| <= |ps| + 1
  {
    if FirstIdle(ps) >= 0 {
      assert !ps[FirstIdle(ps)].playing;
    }
  }

  /** Every player's backend volume is its own volume times `global`. */
  predicate SyncedPlayers(ps: seq<Player>, global: real)
  {
    forall j :: 0 <= j < |ps| ==> ps[j].backendVolume == ps[j].volume * global
  }

  /** Starting a pooled sound keeps a synced pool synced. */
  lemma {:induction false} PoolPlayKeepsSynced(ps: seq<Player>, v: real, global: real)
    requires SyncedPlayers(ps, global)
    ensures SyncedPlayers(PoolPlay(ps, v, global), global)
  {
    var r := PoolPlay(ps, v, global);
    var i := if FirstIdle(ps) >= 0 then FirstIdle(ps) else |ps|;
    assert r[i].backendVolume == r[i].volume * global;
    assert forall j :: 0 <= j < |ps| && j != i ==> r[j] == ps[j];
    assert |r| == |ps| || |r| == |ps| + 1;
    forall j | 0 <= j < |r| && j != i
      ensures r[j].backendVolume == r[j].volume * global
    {
      assert ps[j].backendVolume == ps[j].volume * global;
    }
  }

  /** The backend volume re-applied to one player. */
  function Reapply(p: Player, global: real): (r: Player)
    ensures r.backendVolume == p.volume * global
    ensures r.(backendVolume := p.backendVolume) == p
  {
    p.(backendVolume := p.volume * global)
  }

  /** `ps` is `before` with every player's backend volume re-applied:
      same length, same order, only backendVolume changed. */
  predicate ReappliedFrom(ps: seq<Player>, before: seq<Player>, global: real)
  {
    |ps| == |before| && forall j :: 0 <= j < |ps| ==> ps[j] == Reapply(before[j], global)
  }

  class SoundManager {
    var volume: real
    var prevVolume: real
    var players: seq<Player>
    var tmpPlayers: map<string, seq<Player>>
    var contextReady: bool

    /** Every player, long-lived or pooled, has its backend volume in
        step with the global volume. */
    predicate Synced()
      reads this
    {
      && SyncedPlayers(players, volume)
      && forall k :: k in tmpPlayers ==> SyncedPlayers(tmpPlayers[k], volume)
    }

    /** sound.go InitSound, without the backend context. */
    constructor()
      ensures volume == 1.0 && prevVolume == 1.0 && players == [] && tmpPlayers == map[] && !contextReady
      ensures Synced()
    {
      volume, prevVolume := 1.0, 1.0;
      players, tmpPlayers := [], map[];
      contextReady := false;
    }

    function GlobalVolume(): (v: real)
      reads this
      ensures v == volume
    {
      volume
    }

    /** sound.go SetGlobalVolume. */
    method SetGlobalVolume(v: real)
      modifies this
      ensures volume == Clamp(v, 0.0, 1.0)
      ensures prevVolume == old(prevVolume) && players == old(players)
      ensures tmpPlayers == old(tmpPlayers) && contextReady == old(contextReady)
    {
      volume := Clamp(v, 0.0, 1.0);
    }

    function IsSoundReady(): (ready: bool)
      reads this
      ensures ready == contextReady
    {
      contextReady
    }

    /** sound.go PlaySoundBytes. */
    method PlaySoundBytes(sound: string, v: real)
      modifies this
      ensures !old(contextReady) ==> tmpPlayers == old(tmpPlayers)
      ensures old(contextReady) ==>
        var pool := if sound in old(tmpPlayers) then old(tmpPlayers)[sound] else [];
        tmpPlayers == old(tmpPlayers)[sound := PoolPlay(pool, v, volume)]
      ensures volume == old(volume) && prevVolume == old(prevVolume)
      ensures players == old(players) && contextReady == old(contextReady)
      ensures old(Synced()) ==> Synced()
    {
      if !IsSoundReady() {
        return;
      }
      var pool := if sound in tmpPlayers then tmpPlayers[sound] else [];
      var i := 0;
      while i < |pool|
        invariant 0 <= i <= |pool|
        invariant forall j :: 0 <= j < i ==> pool[j].playing
      {
        if !pool[i].playing {
          assert FirstIdle(pool) == i;
          var p := SetPlayerVolume(pool[i], v, GlobalVolume());
          p := p.(position := 0);
          p := p.(playing := true);
          tmpPlayers := tmpPlayers[sound := pool[i := p]];
          if old(Synced()) {
            PoolPlayKeepsSynced(pool, v, volume);
          }
          return;
        }
        i := i + 1;
      }
      var tmp := Player(1.0, 1.0, false, 0);
      tmp := SetPlayerVolume(tmp, v, GlobalVolume());
      tmp := tmp.(playing := true);
      tmpPlayers := tmpPlayers[sound := pool + [tmp]];
      if old(Synced()) {
        PoolPlayKeepsSynced(pool, v, volume);
      }
    }

    /** sound.go UpdateSound; `readySignal` says whether the backend's
        ready channel can be received from this frame. */
    method UpdateSound(readySignal: bool)
      modifies this
      ensures contextReady == (old(contextReady) || readySignal)
      ensures prevVolume == volume == old(volume)
      ensures old(prevVolume) == old(volume) ==> players == old(players) && tmpPlayers == old(tmpPlayers)
      ensures old(prevVolume) != old(volume) ==> Synced()
      ensures old(prevVolume) != old(volume) ==>
        && ReappliedFrom(players, old(players), volume)
        && tmpPlayers.Keys == old(tmpPlayers).Keys
        && forall k :: k in tmpPlayers ==> ReappliedFrom(tmpPlayers[k], old(tmpPlayers)[k], volume)
      ensures old(Synced()) ==> Synced()
      ensures |players| == |old(players)| && tmpPlayers.Keys == old(tmpPlayers).Keys
      ensures forall j :: 0 <= j < |players| ==> players[j].(backendVolume := old(players)[j].backendVolume) == old(players)[j]
    {
      if !contextReady {
        if readySignal {
          contextReady := true;
        }
      }
      if prevVolume != volume {
        ReapplyAll();
      }
      prevVolume := volume;
    }

    /** The volume loops of UpdateSound. */
    method ReapplyAll()
      modifies this
      ensures Synced()
      ensures volume == old(volume) && prevVolume == old(prevVolume) && contextReady == old(contextReady)
      ensures ReappliedFrom(players, old(players), volume)
      ensures tmpPlayers.Keys == old(tmpPlayers).Keys
      ensures forall k :: k in tmpPlayers ==> ReappliedFrom(tmpPlayers[k], old(tmpPlayers)[k], volume)
      ensures |players| == |old(players)|
      ensures forall j :: 0 <= j < |players| ==> players[j].(backendVolume := old(players)[j].backendVolume) == old(players)[j]
    {
      var i := 0;
      while i < |players|
        invariant 0 <= i <= |players| == |old(players)|
        invariant forall j :: 0 <= j < i ==> players[j] == Reapply(old(players)[j], volume)
        invariant forall j :: i <= j < |players| ==> players[j] == old(players)[j]
        invariant tmpPlayers == old(tmpPlayers) && volume == old(volume)
        invariant prevVolume == old(prevVolume) && contextReady == old(contextReady)
      {
        players := players[i := Reapply(players[i], volume)];
        i := i + 1;
      }
      var todo := tmpPlayers.Keys;
      while todo != {}
        invariant todo <= tmpPlayers.Keys == old(tmpPlayers).Keys
        invariant forall k :: k in tmpPlayers && k !in todo ==> SyncedPlayers(tmpPlayers[k], volume)
        invariant forall k :: k in tmpPlayers && k !in todo ==> ReappliedFrom(tmpPlayers[k], old(tmpPlayers)[k], volume)
        invariant forall k :: k in todo ==> tmpPlayers[k] == old(tmpPlayers)[k]
        invariant SyncedPlayers(players, volume) && |players| == |old(players)|
        invariant forall j :: 0 <= j < |players| ==> players[j] == Reapply(old(players)[j], volume)
        invariant volume == old(volume) && prevVolume == old(prevVolume) && contextReady == old(contextReady)
        decreases todo
      {
        var k :| k in todo;
        var pool := ReapplyPool(tmpPlayers[k], volume);
        tmpPlayers := tmpPlayers[k := pool];
        todo := todo - {k};
      }
    }
  }

  /** The inner loop over one pool. */
  method ReapplyPool(ps: seq<Player>, global: real) returns (r: seq<Player>)
    ensures |r| == |ps| && forall j :: 0 <= j < |ps| ==> r[j] == Reapply(ps[j], global)
    ensures SyncedPlayers(r, global)
  {
    r := ps;
    var i := 0;
    while i < |r|
      invariant 0 <= i <= |r| == |ps|
      invariant forall j :: 0 <= j < i ==> r[j] == Reapply(ps[j], global)
      invariant forall j :: i <= j < |r| ==> r[j] == ps[j]
    {
      r := r[i := Reapply(r[i], global)];
      i := i + 1;
    }
  }
}
