/** The game logic of game.go that sits beside the rendering: particle
    slot reuse, the animation queue, the round-robin player pool, the
    flag count, the instant-win board, tile parity, the rounded-corner
    rule and the highlight list. The callbacks an animation carries
    are opaque; the model records which of them run, in order. */
module Game {
  import opened Wrappers
  import opened GoInt
  import opened Common
  import B = Board
  import M = Math

  // ---------------------------------------------------------------
  // Tile particles
  // ---------------------------------------------------------------

  /** A particle, reduced to its liveness and its board cell; the
      drawing parameters are not modelled. */
  datatype TileParticle = TileParticle(Dead: bool, BoardX: int, BoardY: int)

  /** The first dead slot, if any. */
  function FirstDead(ps: seq<TileParticle>): (r: Option<nat>)
    ensures r.Some? ==> r.value < |ps| && ps[r.value].Dead && forall j :: 0 <= j < r.value ==> !ps[j].Dead
    ensures r.None? ==> forall j :: 0 <= j < |ps| ==> !ps[j].Dead
  {
    if |ps| == 0 then None
    else if ps[0].Dead then Some(0)
    else match FirstDead(ps[1..]) {
      case None => None
      case Some(i) => Some(i + 1)
    }
  }

  /** AppendTileParticle: the new particle takes the first dead slot;
      with none, it is appended. Live particles stay where they are. */
  method AppendTileParticle(particles: seq<TileParticle>, p: TileParticle) returns (r: seq<TileParticle>)
    ensures FirstDead(particles).Some? ==> r == particles[FirstDead(particles).value := p]
    ensures FirstDead(particles).None? ==> r == particles + [p]
    ensures |particles| <= |r| <= |particles| + 1 && p in r
    ensures forall j :: 0 <= j < |particles| && !particles[j].Dead ==> r[j] == particles[j]
  {
    for i := 0 to |particles|
      invariant forall j :: 0 <= j < i ==> !particles[j].Dead
    {
      if particles[i].Dead {
        r := particles[i := p];
        assert FirstDead(particles) == Some(i);
        assert r[i] == p;
        return;
      }
    }
    r := particles + [p];
    assert r[|particles|] == p;
  }

  // ---------------------------------------------------------------
  // The animation queue
  // ---------------------------------------------------------------

  datatype AnimationTag =
    | TagNone
    | TagTileReveal
    | TagAddFlag
    | TagRemoveFlag
    | TagWin
    | TagDefeat
    | TagRetryButtonReveal
    | TagHideBoard
    | TagShowBoard

  /** A CallbackAnimation: an identity for its closures, its tag, and
      whether the optional AfterDone is set. */
  datatype CallbackAnimation = CallbackAnimation(Id: nat, Tag: AnimationTag, HasAfterDone: bool)

  /** A call of one of an animation's closures. */
  datatype Call = Update(id: nat) | Skip(id: nat) | AfterDone(id: nat)

  /** Skipping one animation: Skip, then AfterDone when it is set. */
  function SkipCalls(a: CallbackAnimation): seq<Call>
  {
    [Skip(a.Id)] + (if a.HasAfterDone then [AfterDone(a.Id)] else [])
  }

  /** Skipping a run of animations in order. */
  function SkipTrace(s: seq<CallbackAnimation>): seq<Call>
    decreases |s|
  {
    if |s| == 0 then [] else SkipTrace(s[..|s| - 1]) + SkipCalls(s[|s| - 1])
  }

  /** Skipping `s` then `t` is skipping `s + t`. */
  lemma {:induction false} SkipTraceAppend(s: seq<CallbackAnimation>, t: seq<CallbackAnimation>)
    ensures SkipTrace(s + t) == SkipTrace(s) + SkipTrace(t)
    decreases |t|
  {
    if |t| == 0 {
      assert s + t == s;
    } else {
      var t' := t[..|t| - 1];
      assert (s + t)[..|s + t| - 1] == s + t';
      assert (s + t)[|s + t| - 1] == t[|t| - 1];
      SkipTraceAppend(s, t');
    }
  }

  lemma {:induction false} SkipTraceSnoc(s: seq<CallbackAnimation>, a: CallbackAnimation)
    ensures SkipTrace(s + [a]) == SkipTrace(s) + SkipCalls(a)
  {
    assert (s + [a])[..|s|] == s;
  }

  /** The length of the longest prefix of `s` whose tags are not in
      `tags`. */
  function UntaggedPrefix(s: seq<CallbackAnimation>, tags: seq<AnimationTag>): (k: nat)
    ensures k <= |s|
    ensures forall i :: 0 <= i < k ==> s[i].Tag !in tags
    ensures k < |s| ==> s[k].Tag in tags
  {
    if |s| == 0 || s[0].Tag in tags then 0 else 1 + UntaggedPrefix(s[1..], tags)
  }

  /** Skipping until one of no tags skips everything, and skipping until
      a tag then skipping all is skipping all. */
  lemma {:induction false} SkipUntilTagThenAll(s: seq<CallbackAnimation>, tags: seq<AnimationTag>)
    ensures UntaggedPrefix(s, []) == |s|
    ensures SkipTrace(s[..UntaggedPrefix(s, tags)]) + SkipTrace(s[UntaggedPrefix(s, tags)..]) == SkipTrace(s)
  {
    var k := UntaggedPrefix(s, tags);
    assert s[..k] + s[k..] == s;
    SkipTraceAppend(s[..k], s[k..]);
  }

  /** AnimationQueueUpdate: updates the head animation; when `done`
      (what its Done reported) it is dequeued and its AfterDone runs. */
  method AnimationQueueUpdate(queue: CircularQueue<CallbackAnimation>, done: bool) returns (calls: seq<Call>)
    requires queue.Valid()
    modifies queue
    ensures queue.Valid()
    ensures old(queue.Contents()) == [] ==> calls == [] && queue.Contents() == []
    ensures old(queue.Contents()) != [] ==>
      var a := old(queue.Contents())[0];
      && calls == [Update(a.Id)] + (if done && a.HasAfterDone then [AfterDone(a.Id)] else [])
      && queue.Contents() == if done then old(queue.Contents())[1..] else old(queue.Contents())
  {
    calls := [];
    if !queue.IsEmpty() {
      var anim := queue.At(0);
      calls := calls + [Update(anim.Id)];
      if done {
        var _ := queue.Dequeue();
        if anim.HasAfterDone {
          calls := calls + [AfterDone(anim.Id)];
        }
      }
    }
  }

  /** AnimationQueueSkipAll: empties the queue, skipping every animation
      in FIFO order. */
  method AnimationQueueSkipAll(queue: CircularQueue<CallbackAnimation>) returns (calls: seq<Call>)
    requires queue.Valid()
    modifies queue
    ensures queue.Valid() && queue.Contents() == []
    ensures calls == SkipTrace(old(queue.Contents()))
  {
    calls := [];
    ghost var skipped: seq<CallbackAnimation> := [];
    ghost var all := queue.Contents();
    while !queue.IsEmpty()
      invariant queue.Valid()
      invariant skipped + queue.Contents() == all
      invariant calls == SkipTrace(skipped)
      decreases queue.Length
    {
      var gameAnim := SkipHead(queue, skipped, all);
      SkipTraceSnoc(skipped, gameAnim);
      skipped := skipped + [gameAnim];
      calls := calls + SkipCalls(gameAnim);
    }
    assert skipped == all;
  }

  /** AnimationQueueSkipUntilTag: skips animations from the head until
      one whose tag is in `tags`, which stays queued. */
  method AnimationQueueSkipUntilTag(queue: CircularQueue<CallbackAnimation>, tags: seq<AnimationTag>)
    returns (calls: seq<Call>)
    requires queue.Valid()
    modifies queue
    ensures queue.Valid()
    ensures var k := UntaggedPrefix(old(queue.Contents()), tags);
      && queue.Contents() == old(queue.Contents())[k..]
      && calls == SkipTrace(old(queue.Contents())[..k])
    ensures queue.Contents() == [] || queue.Contents()[0].Tag in tags
  {
    calls := [];
    ghost var skipped: seq<CallbackAnimation> := [];
    ghost var all := queue.Contents();
    while !queue.IsEmpty()
      invariant queue.Valid() && queue.Data == old(queue.Data)
      invariant skipped + queue.Contents() == all
      invariant forall i :: 0 <= i < |skipped| ==> all[i].Tag !in tags
      invariant calls == SkipTrace(skipped)
      decreases |queue.Contents()|
    {
      var gameAnim := queue.At(0);
      if gameAnim.Tag in tags {
        break;
      }
      var head := SkipHead(queue, skipped, all);
      assert head == gameAnim;
      SkipTraceSnoc(skipped, head);
      skipped := skipped + [head];
      calls := calls + SkipCalls(gameAnim);
    }
    UntaggedPrefixIs(all, tags, |skipped|);
    assert skipped == all[..|skipped|];
  }

  /** Dequeues the head of a queue whose contents follow `skipped` in
      `all`. */
  method SkipHead(queue: CircularQueue<CallbackAnimation>, ghost skipped: seq<CallbackAnimation>,
                  ghost all: seq<CallbackAnimation>) returns (head: CallbackAnimation)
    requires queue.Valid() && queue.Length > 0 && skipped + queue.Contents() == all
    modifies queue
    ensures queue.Valid() && queue.Data == old(queue.Data)
    ensures |skipped| < |all| && head == all[|skipped|] && skipped + [head] + queue.Contents() == all
  {
    ghost var rest := queue.Contents();
    head := queue.Dequeue();
    assert rest == [head] + queue.Contents();
  }

  /** UntaggedPrefix is the one length whose prefix is untagged and
      which stops at a tagged animation or at the end. */
  lemma {:induction false} UntaggedPrefixIs(s: seq<CallbackAnimation>, tags: seq<AnimationTag>, j: nat)
    requires j <= |s|
    requires forall i :: 0 <= i < j ==> s[i].Tag !in tags
    requires j == |s| || s[j].Tag in tags
    ensures UntaggedPrefix(s, tags) == j
  {
    if j > 0 {
      UntaggedPrefixIs(s[1..], tags, j - 1);
    }
  }

  // ---------------------------------------------------------------
  // The player pool
  // ---------------------------------------------------------------

  /** A pooled player, reduced to whether it plays, its position and its
      volume. */
  datatype PooledPlayer = PooledPlayer(Playing: bool, Position: real, Volume: real)

  /** The cursor after one Play on a pool of `n` players. */
  function NextCursor(c: int, n: int): (r: int)
    requires 0 <= c < n
    ensures 0 <= r < n && r == (c + 1) % n
  {
    if c + 1 >= n then 0 else c + 1
  }

  /** The cursor after `k` plays. */
  function AdvanceCursor(c: int, n: int, k: nat): (r: int)
    requires 0 <= c < n
    ensures 0 <= r < n
  {
    if k == 0 then c else NextCursor(AdvanceCursor(c, n, k - 1), n)
  }

  /** After `k` plays the cursor has moved `k` slots round the pool, so
      `n` plays use each player exactly once. */
  lemma {:induction false} AdvanceCursorRoundRobin(c: int, n: int, k: nat)
    requires 0 <= c < n
    ensures AdvanceCursor(c, n, k) == (c + k) % n
    ensures k < n ==> forall j :: 0 <= j < k ==> AdvanceCursor(c, n, j) != AdvanceCursor(c, n, k)
  {
    if k > 0 {
      AdvanceCursorRoundRobin(c, n, k - 1);
      ModAddMod(c + k - 1, 1, n);
    }
    if k < n {
      forall j | 0 <= j < k
        ensures AdvanceCursor(c, n, j) != AdvanceCursor(c, n, k)
      {
        AdvanceCursorRoundRobin(c, n, j);
        ModDistinct(c, j, k, n);
      }
    }
  }

  class PlayerPool {
    var pool: seq<PooledPlayer>
    var cursor: int
    var volume: real

    predicate Valid()
      reads this
    {
      0 <= cursor && (cursor < |pool| || cursor == 0)
    }

    /** NewPlayerPool: `size` fresh players at volume 1. */
    constructor (size: nat)
      ensures Valid() && |pool| == size && cursor == 0 && volume == 1.0
      ensures forall i :: 0 <= i < size ==> pool[i] == PooledPlayer(false, 0.0, 1.0)
    {
      pool := seq(size, _ => PooledPlayer(false, 0.0, 1.0));
      cursor := 0;
      volume := 1.0;
    }

    /** SetVolume: clamps to [0, 1] and gives every player that volume. */
    method SetVolume(v: real)
      modifies this
      ensures volume == M.Clamp(v, 0.0, 1.0) && 0.0 <= volume <= 1.0
      ensures |pool| == |old(pool)| && cursor == old(cursor)
      ensures forall i :: 0 <= i < |pool| ==> pool[i] == old(pool)[i].(Volume := volume)
    {
      volume := M.Clamp(v, 0.0, 1.0);
      var i := 0;
      while i < |pool|
        invariant 0 <= i <= |pool| == |old(pool)|
        invariant cursor == old(cursor) && volume == M.Clamp(v, 0.0, 1.0)
        invariant forall j :: 0 <= j < i ==> pool[j] == old(pool)[j].(Volume := volume)
        invariant forall j :: i <= j < |pool| ==> pool[j] == old(pool)[j]
      {
        pool := pool[i := pool[i].(Volume := volume)];
        i := i + 1;
      }
    }

    /** Play: nothing before sound is ready; otherwise restarts the player
        under the cursor and moves the cursor round the pool. */
    method Play(soundReady: bool)
      requires Valid() && (soundReady ==> |pool| > 0)
      modifies this
      ensures Valid() && volume == old(volume)
      ensures !soundReady ==> pool == old(pool) && cursor == old(cursor)
      ensures soundReady ==>
        && pool == old(pool)[old(cursor) := old(pool)[old(cursor)].(Position := 0.0, Playing := true)]
        && cursor == NextCursor(old(cursor), |pool|)
    {
      if !soundReady {
        return;
      }
      pool := pool[cursor := pool[cursor].(Position := 0.0)];
      pool := pool[cursor := pool[cursor].(Playing := true)];
      cursor := cursor + 1;
      if cursor >= |pool| {
        cursor := 0;
      }
    }
  }

  // ---------------------------------------------------------------
  // The board-level operations of Game
  // ---------------------------------------------------------------

  /** The unrevealed cells without a mine. */
  ghost function HiddenSafe(b: B.Board): set<B.Cell>
    reads b, b.Mines, b.Revealed
    requires b.Valid()
  {
    set x, y | 0 <= x < b.Width && 0 <= y < b.Height && !b.Mines[x, y] && !b.Revealed[x, y] :: (x, y)
  }

  /** Column-major order of the `for x { for y }` loops: `(x, y)` comes
      before `(cx, cy)`. */
  predicate ColumnBefore(x: int, y: int, cx: int, cy: int)
  {
    x < cx || (x == cx && y < cy)
  }

  ghost function HiddenSafeBefore(b: B.Board, cx: int, cy: int): set<B.Cell>
    reads b, b.Mines, b.Revealed
    requires b.Valid()
  {
    set x, y | 0 <= x < b.Width && 0 <= y < b.Height && ColumnBefore(x, y, cx, cy)
                && !b.Mines[x, y] && !b.Revealed[x, y] :: (x, y)
  }

  lemma {:induction false} HiddenSafeBeforeStep(b: B.Board, x: int, y: int)
    requires b.Valid() && 0 <= x < b.Width && 0 <= y < b.Height
    ensures |HiddenSafeBefore(b, x, y + 1)| ==
      |HiddenSafeBefore(b, x, y)| + (if !b.Mines[x, y] && !b.Revealed[x, y] then 1 else 0)
  {
    HiddenSafeBeforeNext(b, x, y);
    if !b.Mines[x, y] && !b.Revealed[x, y] {
      assert (x, y) !in HiddenSafeBefore(b, x, y);
    }
  }

  lemma {:induction false} HiddenSafeBeforeNext(b: B.Board, x: int, y: int)
    requires b.Valid() && 0 <= x < b.Width && 0 <= y < b.Height
    ensures HiddenSafeBefore(b, x, y + 1) ==
      HiddenSafeBefore(b, x, y) + (if !b.Mines[x, y] && !b.Revealed[x, y] then {(x, y)} else {})
  {
  }

  lemma {:induction false} HiddenSafeBeforeColumn(b: B.Board, x: int)
    requires b.Valid()
    ensures HiddenSafeBefore(b, x, b.Height) == HiddenSafeBefore(b, x + 1, 0)
  {
  }

  lemma {:induction false} HiddenSafeBeforeAll(b: B.Board)
    requires b.Valid()
    ensures HiddenSafeBefore(b, b.Width, 0) == HiddenSafe(b)
  {
  }

  /** The first loop of SetBoardForInstantWin: counts the unrevealed
      safe cells. */
  method CountHiddenSafe(b: B.Board) returns (tilesToReveal: int)
    requires b.Valid()
    ensures tilesToReveal == |HiddenSafe(b)|
  {
    tilesToReveal := 0;
    for x := 0 to b.Width
      invariant tilesToReveal == |HiddenSafeBefore(b, x, 0)|
    {
      for y := 0 to b.Height
        invariant tilesToReveal == |HiddenSafeBefore(b, x, y)|
      {
        HiddenSafeBeforeStep(b, x, y);
        if !b.Mines[x, y] && !b.Revealed[x, y] {
          tilesToReveal := tilesToReveal + 1;
        }
      }
      HiddenSafeBeforeColumn(b, x);
    }
    HiddenSafeBeforeAll(b);
  }

  /** One step of the reveal loop: reveals an unrevealed safe cell. */
  method RevealCell(b: B.Board, x: int, y: int)
    requires b.Valid() && 0 <= x < b.Width && 0 <= y < b.Height && !b.Mines[x, y] && !b.Revealed[x, y]
    modifies b.Revealed
    ensures b.Valid()
    ensures HiddenSafe(b) == old(HiddenSafe(b)) - {(x, y)} && |HiddenSafe(b)| == |old(HiddenSafe(b))| - 1
    ensures forall x', y' :: 0 <= x' < b.Width && 0 <= y' < b.Height ==>
      b.Revealed[x', y'] == (old(b.Revealed[x', y']) || (x' == x && y' == y))
  {
    ghost var hidden := HiddenSafe(b);
    b.Revealed[x, y] := true;
    assert (x, y) in hidden;
    assert HiddenSafe(b) == hidden - {(x, y)};
  }

  /** The body of the reveal loop: reveals `(x, y)` when it is an
      unrevealed safe cell, keeping `tilesToReveal` the number of those. */
  method RevealIfHidden(b: B.Board, x: int, y: int, tilesToReveal: int) returns (left: int)
    requires b.Valid() && 0 <= x < b.Width && 0 <= y < b.Height && tilesToReveal == |HiddenSafe(b)|
    modifies b.Revealed
    ensures left == |HiddenSafe(b)| && tilesToReveal - 1 <= left <= tilesToReveal
    ensures HiddenSafe(b) <= old(HiddenSafe(b))
    ensures b.Mines[x, y] || b.Revealed[x, y]
    ensures forall x', y' :: 0 <= x' < b.Width && 0 <= y' < b.Height ==>
      b.Revealed[x', y'] == (old(b.Revealed[x', y']) || (x' == x && y' == y && !b.Mines[x, y]))
  {
    left := tilesToReveal;
    if !b.Mines[x, y] && !b.Revealed[x, y] {
      RevealCell(b, x, y);
      left := left - 1;
    }
  }

  /** The part of Game these operations touch. */
  class Game {
    var board: B.Board
    var placedMinesOnBoard: bool
    var mineCount: int

    ghost predicate Valid()
      reads this, board
    {
      board.Valid()
    }

    /** A game on `board` whose mines are not placed yet. */
    constructor (board: B.Board, mineCount: int)
      requires board.Valid()
      ensures Valid() && this.board == board && this.mineCount == mineCount && !placedMinesOnBoard
    {
      this.board := board;
      this.mineCount := mineCount;
      placedMinesOnBoard := false;
    }

    /** FlagCount: the number of flagged cells. */
    method FlagCount() returns (flagCount: int)
      requires Valid()
      ensures flagCount == |B.SetCells(board.Flags, 0, board.Width, 0, board.Height)|
    {
      flagCount := 0;
      for x := 0 to board.Width
        invariant flagCount == B.CountBlock(board.Flags, 0, x, 0, board.Height)
      {
        for y := 0 to board.Height
          invariant flagCount == B.CountBlock(board.Flags, 0, x, 0, board.Height) + B.CountCol(board.Flags, x, 0, y)
        {
          if board.Flags[x, y] {
            flagCount := flagCount + 1;
          }
        }
      }
      B.CountBlockIsCard(board.Flags, 0, board.Width, 0, board.Height);
    }

    /** The two loops of SetBoardForInstantWin: count the unrevealed safe
        cells, then reveal all of them but one, in column-major order. */
    method RevealAllButOne()
      requires Valid()
      modifies board.Revealed
      ensures |HiddenSafe(board)| == Min(|old(HiddenSafe(board))|, 1)
      ensures HiddenSafe(board) <= old(HiddenSafe(board))
      ensures forall x, y :: 0 <= x < board.Width && 0 <= y < board.Height ==>
        (old(board.Revealed[x, y]) ==> board.Revealed[x, y]) &&
        (board.Revealed[x, y] && !old(board.Revealed[x, y]) ==> !board.Mines[x, y])
    {
      var b := board;
      var tilesToReveal := CountHiddenSafe(b);
      ghost var initial := tilesToReveal;

      label revealing:
      for x := 0 to b.Width
        invariant tilesToReveal == |HiddenSafe(b)| && Min(initial, 1) <= tilesToReveal <= initial
        invariant forall x', y' :: 0 <= x' < x && 0 <= y' < b.Height ==> b.Mines[x', y'] || b.Revealed[x', y']
        invariant HiddenSafe(b) <= old(HiddenSafe(b))
        invariant forall x', y' :: 0 <= x' < b.Width && 0 <= y' < b.Height ==>
          (old(b.Revealed[x', y']) ==> b.Revealed[x', y']) &&
          (b.Revealed[x', y'] && !old(b.Revealed[x', y']) ==> !b.Mines[x', y'])
      {
        for y := 0 to b.Height
          invariant tilesToReveal == |HiddenSafe(b)| && Min(initial, 1) <= tilesToReveal <= initial
          invariant forall x', y' :: 0 <= x' < b.Width && 0 <= y' < b.Height && ColumnBefore(x', y', x, y) ==>
            b.Mines[x', y'] || b.Revealed[x', y']
          invariant HiddenSafe(b) <= old(HiddenSafe(b))
          invariant forall x', y' :: 0 <= x' < b.Width && 0 <= y' < b.Height ==>
            (old(b.Revealed[x', y']) ==> b.Revealed[x', y']) &&
            (b.Revealed[x', y'] && !old(b.Revealed[x', y']) ==> !b.Mines[x', y'])
        {
          if tilesToReveal <= 1 {
            break revealing;
          }
          tilesToReveal := RevealIfHidden(b, x, y, tilesToReveal);
        }
      }
    }

    /** SetBoardForInstantWin: places the mines (protecting the
        bottom-right cell) if that has not happened yet, then reveals
        every unrevealed safe cell but one. */
    method SetBoardForInstantWin(perm: seq<int>)
      requires Valid()
      requires !placedMinesOnBoard ==>
        board.Width >= 1 && board.Height >= 1 && B.IsPermutation(perm, board.Width * board.Height - 1)
      modifies this, board.Mines, board.Revealed
      ensures Valid() && board == old(board) && placedMinesOnBoard
      ensures !old(placedMinesOnBoard) ==> B.CandidateCountHolds(board.Width, board.Height, board.Width - 1, board.Height - 1)
      ensures forall x, y :: 0 <= x < board.Width && 0 <= y < board.Height ==>
        board.Mines[x, y] == (old(board.Mines[x, y]) || (!old(placedMinesOnBoard) &&
          (x, y) in B.MineSet(board.Width, board.Height, mineCount, board.Width - 1, board.Height - 1, perm)))
      ensures |HiddenSafe(board)| <= 1
      ensures old(placedMinesOnBoard) ==> |HiddenSafe(board)| == Min(|old(HiddenSafe(board))|, 1)
      ensures (!old(placedMinesOnBoard) && !old(board.Mines[board.Width - 1, board.Height - 1])
               && !old(board.Revealed[board.Width - 1, board.Height - 1])) ==> |HiddenSafe(board)| == 1
      ensures forall x, y :: 0 <= x < board.Width && 0 <= y < board.Height ==>
        (old(board.Revealed[x, y]) ==> board.Revealed[x, y]) &&
        (board.Revealed[x, y] && !old(board.Revealed[x, y]) ==> !board.Mines[x, y])
    {
      if !placedMinesOnBoard {
        board.PlaceMines(mineCount, board.Width - 1, board.Height - 1, perm);
        B.MineSetFacts(board.Width, board.Height, mineCount, board.Width - 1, board.Height - 1, perm);
        if !old(board.Mines[board.Width - 1, board.Height - 1]) && !old(board.Revealed[board.Width - 1, board.Height - 1]) {
          assert (board.Width - 1, board.Height - 1) in HiddenSafe(board);
        }
      }
      placedMinesOnBoard := true;
      RevealAllButOne();
    }
  }

  // ---------------------------------------------------------------
  // Tile parity
  // ---------------------------------------------------------------

  /** IsOddTile, with Go's truncating `%`. */
  function IsOddTile(boardWidth: int, boardHeight: int, x: int, y: int): (odd: bool)
    ensures odd <==> (x + y) % 2 == 1
  {
    IsOddTileParity(x, y);
    if Rem(y, 2) == 0 then Rem(x, 2) != 0 else Rem(x, 2) == 0
  }

  /** The test IsOddTile makes with Go's truncating `%` holds exactly when
      `x + y` is odd, negative coordinates included. */
  lemma {:induction false} IsOddTileParity(x: int, y: int)
    ensures (if Rem(y, 2) == 0 then Rem(x, 2) != 0 else Rem(x, 2) == 0) <==> (x + y) % 2 == 1
  {
    RemTwoEven(x);
    RemTwoEven(y);
    var a, b := x / 2, y / 2;
    assert x == 2 * a + x % 2 && y == 2 * b + y % 2;
    if x % 2 == 1 && y % 2 == 1 {
      DivModUnique(x + y, a + b + 1, 0, 2);
    } else {
      DivModUnique(x + y, a + b, x % 2 + y % 2, 2);
    }
  }

  // ---------------------------------------------------------------
  // Rounded corners
  // ---------------------------------------------------------------

  /** Corner `i` of a tile: 0 top, 1 right, 2 bottom, 3 left, in the
      order of the `isRound` arrays. */
  function RoundCount(s: seq<bool>): (n: nat)
    ensures n <= |s|
  {
    if |s| == 0 then 0 else RoundCount(s[..|s| - 1]) + (if s[|s| - 1] then 1 else 0)
  }

  /** Exactly two rounded corners, facing each other. */
  predicate OppositePair(s: seq<bool>)
  {
    s == [true, false, true, false] || s == [false, true, false, true]
  }

  /** The corners each tile sprite has rounded when drawn unturned. */
  function SpriteCorners(sprite: int): seq<bool>
  {
    if sprite == 20 then [false, false, false, false]
    else if sprite == 21 then [true, false, false, false]
    else if sprite == 22 then [true, true, false, false]
    else if sprite == 23 then [true, true, true, false]
    else [true, true, true, true]
  }

  /** Corners after `t` clockwise quarter turns: each turn moves what
      corner `c - 1` had to corner `c`. */
  function Turned(p: seq<bool>, t: nat): (r: seq<bool>)
    requires |p| == 4
    ensures |r| == 4
  {
    if t == 0 then p else var q := Turned(p, t - 1); [q[3], q[0], q[1], q[2]]
  }

  /** After `t` turns corner `c` shows what corner `c - t` had. */
  lemma {:induction false} TurnedIndex(p: seq<bool>, t: nat, c: int)
    requires |p| == 4 && 0 <= c < 4
    ensures Turned(p, t)[c] == p[(c - t) % 4]
  {
    if t > 0 {
      TurnedIndex(p, t - 1, (c + 3) % 4);
      assert (((c + 3) % 4) - (t - 1)) % 4 == (c - t) % 4 by {
        ModShift(c, t);
      }
    }
  }

  lemma {:induction false} ModShift(c: int, t: int)
    requires 0 <= c < 4
    ensures (((c + 3) % 4) - (t - 1)) % 4 == (c - t) % 4
  {
    if c == 0 {
      assert (c + 3) % 4 - (t - 1) == (c - t) + 4;
    } else {
      assert (c + 3) % 4 - (t - 1) == c - t;
    }
  }

  lemma {:induction false} RoundCountOfFour(s: seq<bool>)
    requires |s| == 4
    ensures RoundCount(s) == (if s[0] then 1 else 0) + (if s[1] then 1 else 0)
                           + (if s[2] then 1 else 0) + (if s[3] then 1 else 0)
  {
    assert s[..3][..2] == s[..2] && s[..2][..1] == s[..1] && s[..1][..0] == [];
    assert RoundCount(s) == RoundCount(s[..3]) + (if s[3] then 1 else 0);
    assert RoundCount(s[..3]) == RoundCount(s[..2]) + (if s[2] then 1 else 0);
    assert RoundCount(s[..2]) == RoundCount(s[..1]) + (if s[1] then 1 else 0);
    assert RoundCount(s[..1]) == (if s[0] then 1 else 0);
  }

  /** The switch of GetRoundTile on the number of rounded corners,
      returning the tile sprite index and the quarter turns. With two
      opposite corners no case matches and it falls through to the
      all-round sprite. */
  function RoundTileSwitch(isRound: seq<bool>, roundCount: int): (r: (int, int))
    requires |isRound| == 4 && 0 <= roundCount <= 4
    ensures 20 <= r.0 <= 24 && 0 <= r.1 <= 3
  {
    if roundCount == 0 then (20, 0)
    else if roundCount == 1 then
      if isRound[0] then (21, 0)
      else if isRound[1] then (21, 1)
      else if isRound[2] then (21, 2)
      else if isRound[3] then (21, 3)
      else (24, 0)
    else if roundCount == 2 then
      if !isRound[0] && !isRound[1] then (22, 2)
      else if !isRound[1] && !isRound[2] then (22, 3)
      else if !isRound[2] && !isRound[3] then (22, 0)
      else if !isRound[3] && !isRound[0] then (22, 1)
      else (24, 0)
    else if roundCount == 3 then
      if !isRound[0] then (23, 1)
      else if !isRound[1] then (23, 2)
      else if !isRound[2] then (23, 3)
      else if !isRound[3] then (23, 0)
      else (24, 0)
    else (24, 0)
  }

  /** The sprite GetRoundTile picks, turned as it says, shows exactly the
      requested rounded corners, except for two opposite corners, which
      get the all-round sprite unturned. */
  lemma {:induction false} RoundTileSwitchCorrect(isRound: seq<bool>)
    requires |isRound| == 4
    ensures var r := RoundTileSwitch(isRound, RoundCount(isRound));
      && (!OppositePair(isRound) ==> r.0 == 20 + RoundCount(isRound) && Turned(SpriteCorners(r.0), r.1) == isRound)
      && (OppositePair(isRound) ==> r == (24, 0))
  {
    var a, b, c, d := isRound[0], isRound[1], isRound[2], isRound[3];
    assert isRound == [a, b, c, d];
    RoundTileCase(a, b, c, d);
  }

  /** RoundTileSwitchCorrect for one assignment of the four corners. */
  lemma {:induction false} RoundTileCase(a: bool, b: bool, c: bool, d: bool)
    ensures var s := [a, b, c, d]; var r := RoundTileSwitch(s, RoundCount(s));
      && (!OppositePair(s) ==> r.0 == 20 + RoundCount(s) && Turned(SpriteCorners(r.0), r.1) == s)
      && (OppositePair(s) ==> r == (24, 0))
  {
    var s := [a, b, c, d];
    RoundCountOfFour(s);
    var n := RoundCount(s);
    if n == 0 {
      assert RoundTileSwitch(s, n) == (20, 0); assert Turned(SpriteCorners(20), 0) == s;
    } else if n == 1 {
      if a { assert RoundTileSwitch(s, n) == (21, 0); assert Turned(SpriteCorners(21), 0) == s; }
      else if b { assert RoundTileSwitch(s, n) == (21, 1); assert Turned(SpriteCorners(21), 1) == s; }
      else if c { assert RoundTileSwitch(s, n) == (21, 2); assert Turned(SpriteCorners(21), 2) == s; }
      else { assert RoundTileSwitch(s, n) == (21, 3); assert Turned(SpriteCorners(21), 3) == s; }
    } else if n == 2 {
      if !a && !b { assert c && d; assert RoundTileSwitch(s, n) == (22, 2); assert Turned(SpriteCorners(22), 2) == s; }
      else if !b && !c { assert a && d; assert RoundTileSwitch(s, n) == (22, 3); assert Turned(SpriteCorners(22), 3) == s; }
      else if !c && !d { assert a && b; assert RoundTileSwitch(s, n) == (22, 0); assert Turned(SpriteCorners(22), 0) == s; }
      else if !d && !a { assert b && c; assert RoundTileSwitch(s, n) == (22, 1); assert Turned(SpriteCorners(22), 1) == s; }
      else { assert OppositePair(s); assert RoundTileSwitch(s, n) == (24, 0); }
    } else if n == 3 {
      if !a { assert b && c && d; assert RoundTileSwitch(s, n) == (23, 1); assert Turned(SpriteCorners(23), 1) == s; }
      else if !b { assert a && c && d; assert RoundTileSwitch(s, n) == (23, 2); assert Turned(SpriteCorners(23), 2) == s; }
      else if !c { assert a && b && d; assert RoundTileSwitch(s, n) == (23, 3); assert Turned(SpriteCorners(23), 3) == s; }
      else { assert RoundTileSwitch(s, n) == (23, 0); assert Turned(SpriteCorners(23), 0) == s; }
    } else {
      assert RoundTileSwitch(s, n) == (24, 0); assert Turned(SpriteCorners(24), 0) == s;
    }
  }

  /** GetRoundTile: counts the rounded corners, then switches on the
      count. */
  method GetRoundTile(isRound: seq<bool>) returns (sprite: int, turns: int)
    requires |isRound| == 4
    ensures 20 <= sprite <= 24 && 0 <= turns <= 3
    ensures !OppositePair(isRound) ==> sprite == 20 + RoundCount(isRound) && Turned(SpriteCorners(sprite), turns) == isRound
    ensures OppositePair(isRound) ==> sprite == 24 && turns == 0
  {
    var roundCount := 0;
    for i := 0 to 4
      invariant roundCount == RoundCount(isRound[..i])
    {
      assert isRound[..i + 1][..i] == isRound[..i];
      if isRound[i] {
        roundCount := roundCount + 1;
      }
    }
    assert isRound[..4] == isRound;
    RoundTileSwitchCorrect(isRound);
    sprite, turns := RoundTileSwitch(isRound, roundCount).0, RoundTileSwitch(isRound, roundCount).1;
  }

  /** Whether the tile at `(x, y)` of the firmly-placed grid exists and
      is firmly placed. */
  function FirmAt(firm: array2<bool>, x: int, y: int): bool
    reads firm
  {
    0 <= x < firm.Length0 && 0 <= y < firm.Length1 && firm[x, y]
  }

  /** The four neighbours' firmness, top, right, bottom, left. */
  function FirmNeighbors(firm: array2<bool>, x: int, y: int): (r: seq<bool>)
    reads firm
    ensures |r| == 4
  {
    [FirmAt(firm, x, y - 1), FirmAt(firm, x + 1, y), FirmAt(firm, x, y + 1), FirmAt(firm, x - 1, y)]
  }

  /** The roundness rule: a firmly placed tile loses corners `i` and
      `i + 1` for every firmly placed neighbour `i`; so corner `j` stays
      round unless neighbour `j` or neighbour `j - 1` is firm. */
  function Roundness(self: bool, nb: seq<bool>): (r: seq<bool>)
    requires |nb| == 4
    ensures |r| == 4
  {
    seq(4, j requires 0 <= j < 4 => !(self && (nb[j] || nb[(j + 3) % 4])))
  }

  /** The roundness block of DrawBoard for the tile at `(x, y)`. */
  method TileRoundness(firm: array2<bool>, x: int, y: int) returns (isRound: seq<bool>)
    requires 0 <= x < firm.Length0 && 0 <= y < firm.Length1
    ensures isRound == Roundness(firm[x, y], FirmNeighbors(firm, x, y))
  {
    isRound := [true, true, true, true];
    ghost var nb := FirmNeighbors(firm, x, y);
    if firm[x, y] {
      for i := 0 to 4
        invariant |isRound| == 4
        invariant forall j :: 0 <= j < 4 ==>
          isRound[j] == !((j < i && nb[j]) || ((j + 3) % 4 < i && nb[(j + 3) % 4]))
      {
        var rx, ry := x, y;
        if i == 0 {
          ry := ry - 1;
        } else if i == 1 {
          rx := rx + 1;
        } else if i == 2 {
          ry := ry + 1;
        } else {
          rx := rx - 1;
        }
        if 0 <= rx < firm.Length0 && 0 <= ry < firm.Length1 {
          if firm[rx, ry] {
            isRound := isRound[i := false];
            isRound := isRound[(i + 1) % 4 := false];
          }
        }
      }
    }
  }

  /** The roundness rule never yields two opposite rounded corners, so
      the fall-through of GetRoundTile is unreachable from DrawBoard. */
  lemma {:induction false} RoundnessNeverOpposite(self: bool, nb: seq<bool>)
    requires |nb| == 4
    ensures !OppositePair(Roundness(self, nb))
  {
    var r := Roundness(self, nb);
    assert r[0] == !(self && (nb[0] || nb[3])) && r[1] == !(self && (nb[1] || nb[0]));
    assert r[2] == !(self && (nb[2] || nb[1])) && r[3] == !(self && (nb[3] || nb[2]));
  }

  // ---------------------------------------------------------------
  // Highlight de-duplication
  // ---------------------------------------------------------------

  const U64: int := 0x1_0000_0000_0000_0000

  /** The triangular number `n(n+1)/2`. */
  function Tri(n: nat): nat
  {
    if n == 0 then 0 else Tri(n - 1) + n
  }

  lemma {:induction false} TriClosedForm(n: nat)
    ensures 2 * Tri(n) == n * (n + 1)
  {
    if n > 0 {
      TriClosedForm(n - 1);
    }
  }

  lemma {:induction false} TriMonotone(s: nat, t: nat)
    requires s <= t
    ensures Tri(s) <= Tri(t)
    decreases t - s
  {
    if s < t {
      TriMonotone(s, t - 1);
    }
  }

  /** Cantor's pairing of two naturals. */
  function Cantor(a: nat, b: nat): nat
  {
    Tri(a + b) + b
  }

  /** Cantor's pairing is injective. */
  lemma {:induction false} CantorInjective(a: nat, b: nat, c: nat, d: nat)
    requires Cantor(a, b) == Cantor(c, d)
    ensures a == c && b == d
  {
    var s, t := a + b, c + d;
    if s < t {
      TriMonotone(s + 1, t);
      assert false;
    } else if t < s {
      TriMonotone(t + 1, s);
      assert false;
    }
  }

  /** `pair` of the highlight modifier, in uint64 arithmetic. */
  function Pair(a: nat, b: nat): nat
    requires a < U64 && b < U64
  {
    var s := (a + b) % U64;
    var p := (s * ((s + 1) % U64)) % U64;
    (p / 2 + b) % U64
  }

  /** For board-sized coordinates no uint64 operation wraps, and `pair`
      is Cantor's pairing. */
  lemma {:induction false} PairIsCantor(a: nat, b: nat)
    requires a + b < 0x1_0000_0000
    ensures Pair(a, b) == Cantor(a, b)
  {
    var s := a + b;
    TriFits(s);
    var sum := (a + b) % U64;
    assert sum == s;
    var p := (sum * ((sum + 1) % U64)) % U64;
    assert p == 2 * Tri(s);
    assert (p / 2 + b) % U64 == Tri(s) + b;
  }

  /** For `s < 2^32`, `s(s+1)` fits in 64 bits and is twice Tri(s). */
  lemma {:induction false} TriFits(s: nat)
    requires s < 0x1_0000_0000
    ensures (s + 1) % U64 == s + 1
    ensures (s * (s + 1)) % U64 == s * (s + 1) == 2 * Tri(s)
    ensures Tri(s) < U64 / 2
  {
    TriClosedForm(s);
    MulMono(s, s + 1, 0x1_0000_0000);
    MulMono(0x1_0000_0000, s, 0x1_0000_0000);
  }

  lemma {:induction false} MulMono(k: nat, m: nat, n: nat)
    requires m <= n
    ensures k * m <= k * n
  {
    assert k * n - k * m == k * (n - m);
  }

  /** Two board cells with the same `pair` are the same cell. */
  lemma {:induction false} PairInjective(a: nat, b: nat, c: nat, d: nat)
    requires a + b < 0x1_0000_0000 && c + d < 0x1_0000_0000
    requires Pair(a, b) == Pair(c, d)
    ensures a == c && b == d
  {
    PairIsCantor(a, b);
    PairIsCantor(c, d);
    CantorInjective(a, b, c, d);
  }

  /** highlightTile's bookkeeping: records the cell's `pair` unless it is
      already listed. The list stays free of duplicates. */
  method HighlightTile(hlTiles: seq<nat>, x: int, y: int) returns (r: seq<nat>)
    requires 0 <= x < U64 && 0 <= y < U64
    ensures r == hlTiles || r == hlTiles + [Pair(x, y)]
    ensures forall e :: e in r <==> e in hlTiles || e == Pair(x, y)
    ensures B.Distinct(hlTiles) ==> B.Distinct(r)
  {
    var pairN := Pair(x, y);
    for i := 0 to |hlTiles|
      invariant forall j :: 0 <= j < i ==> hlTiles[j] != pairN
    {
      if hlTiles[i] == pairN {
        return hlTiles;
      }
    }
    r := hlTiles + [pairN];
  }
}
