/**
 * src/games/bugsequence/scenes/game.ts: the bug sequence game. A round
 * reveals a few active bugs one after another; the player must then click
 * them in the same order. A bug clicked out of order hides the bugs found
 * so far again; the last bug of the sequence scores the round. The bugs'
 * callbacks are modelled by `armed`: the game's own callbacks are set on
 * the active bugs when the reveal is over and replaced by the grid's
 * tween-only callbacks at the next shuffle.
 */
module BugSequenceGames {
  import opened Wrappers
  import opened Levels
  import opened Contexts
  import opened GameBases
  import opened Permutations
  import opened BugsGrids
  import Utils
  import Js
  import Clocks
  import ResultsDialogs

  /** What a click on a bug did. */
  datatype BugClick = Ignored | Accepted(completed: bool) | Rejected

  class BugSequenceGame {
    const base: GameBase
    const grid: BugsGrid
    /** The game's callbacks are set on the current active bugs. */
    var armed: bool
    /** How many active bugs, from the first, are found. */
    ghost var progress: nat

    /**
     * The grid is consistent and can be shuffled again, and the revealed
     * bugs are exactly the first `progress` active bugs.
     */
    ghost predicate Valid()
      reads this, grid, grid.revealed
    {
      && grid.Valid() && grid.Fits() && !grid.resetFlag
      && progress <= |grid.activeBugs|
      && (forall k :: 0 <= k < |grid.activeBugs| ==> (grid.revealed[grid.activeBugs[k]] <==> k < progress))
      && (forall b :: 0 <= b < grid.revealed.Length && b !in grid.activeBugs ==> !grid.revealed[b])
    }

    /** The scene with its grid, as `onCreate` builds it; no callback is set before the first reveal. */
    constructor (context: Context, grid: BugsGrid)
      requires grid.Valid() && grid.Fits() && !grid.resetFlag
      requires forall b :: 0 <= b < grid.revealed.Length ==> !grid.revealed[b]
      ensures fresh(base) && base.context == context && base.score == 0
      ensures this.grid == grid && !armed
      ensures Valid()
    {
      base := new GameBase(context);
      this.grid := grid;
      armed := false;
      progress := 0;
    }

    /**
     * `allBugsRevealed`: whether every active bug is revealed, which under
     * the invariant means the whole sequence is found.
     */
    method AllBugsRevealed() returns (all: bool)
      requires Valid()
      ensures all <==> forall k :: 0 <= k < |grid.activeBugs| ==> grid.revealed[grid.activeBugs[k]]
      ensures all <==> progress == |grid.activeBugs|
    {
      var activeBugs := grid.activeBugs;
      for i := 0 to |activeBugs|
        invariant forall k :: 0 <= k < i ==> grid.revealed[activeBugs[k]]
      {
        if !grid.revealed[activeBugs[i]] {
          return false;
        }
      }
      if |activeBugs| > 0 {
        assert grid.revealed[activeBugs[|activeBugs| - 1]];
      }
      return true;
    }

    /** The next bug of the sequence is revealed; `all` tells whether it was the last. */
    method Accept(b: nat) returns (all: bool)
      requires Valid() && progress < |grid.activeBugs| && b == grid.activeBugs[progress]
      modifies this, grid.revealed
      ensures Valid() && armed == old(armed)
      ensures progress == old(progress) + 1 && grid.revealed[b]
      ensures all <==> progress == |grid.activeBugs|
    {
      ActiveBugsDistinct(grid.children, grid.activeBugs, grid.bugCount);
      grid.revealed[b] := true;
      progress := progress + 1;
      all := AllBugsRevealed();
    }

    /**
     * A click on bug b. Before the game's callbacks are set, and on a bug
     * that is not active or already revealed, it changes nothing. Otherwise
     * the bug is accepted exactly when it is the next one of the sequence
     * (the first, or the one after a revealed bug); `completed` tells
     * whether it was the last.
     */
    method ClickBug(b: nat) returns (v: BugClick)
      requires Valid() && b < grid.bugCount
      modifies this, grid.revealed
      ensures Valid() && armed == old(armed)
      ensures v.Accepted? <==> old(armed) && old(progress) < |grid.activeBugs| && b == grid.activeBugs[old(progress)]
      ensures v.Rejected? <==> old(armed) && b in grid.activeBugs && Utils.IndexOf(grid.activeBugs, b) > old(progress)
      ensures v.Accepted? ==> progress == old(progress) + 1 && grid.revealed[b]
      ensures v.Accepted? ==> (v.completed <==> progress == |grid.activeBugs|)
      ensures !v.Accepted? ==> progress == old(progress) && grid.revealed[..] == old(grid.revealed[..])
    {
      ActiveBugsDistinct(grid.children, grid.activeBugs, grid.bugCount);
      var activeBugs := grid.activeBugs;
      if !armed || b !in activeBugs || grid.revealed[b] {
        if armed && b in activeBugs {
          assert Utils.IndexOf(activeBugs, b) < progress;
        }
        return Ignored;
      }
      var bugIndex := Utils.IndexOf(activeBugs, b);
      assert bugIndex >= progress;
      if bugIndex == 0 || grid.revealed[activeBugs[bugIndex - 1]] {
        assert bugIndex == progress;
        var all := Accept(b);
        return Accepted(all);
      }
      assert bugIndex > progress;
      v := Rejected;
    }

    /**
     * The end of a wrong click, after the wrong-result overlay: every
     * revealed active bug is hidden again, so the sequence starts over.
     */
    method WrongResultShown()
      requires Valid()
      modifies this, grid.revealed
      ensures Valid() && progress == 0 && armed == old(armed)
      ensures forall b :: 0 <= b < grid.revealed.Length ==> !grid.revealed[b]
    {
      var activeBugs := grid.activeBugs;
      for i := 0 to |activeBugs|
        invariant forall k :: 0 <= k < i ==> !grid.revealed[activeBugs[k]]
        invariant forall k :: i <= k < |activeBugs| ==> grid.revealed[activeBugs[k]] == old(grid.revealed[activeBugs[k]])
        invariant forall c :: 0 <= c < grid.revealed.Length && c !in activeBugs ==> !grid.revealed[c]
        invariant armed == old(armed) && grid.activeBugs == activeBugs
      {
        if grid.revealed[activeBugs[i]] {
          grid.revealed[activeBugs[i]] := false;
        }
      }
      forall c | 0 <= c < grid.revealed.Length ensures !grid.revealed[c] {
        if c in activeBugs {
          var k :| 0 <= k < |activeBugs| && activeBugs[k] == c;
        }
      }
      progress := 0;
    }

    /** `completeRound`, after its pause: the round's score is added. */
    method CompleteRound() returns (newScore: int)
      modifies base
      ensures base.score == old(base.score) + old(base.roundScore) && newScore == base.score
      ensures base.roundScore == old(base.roundScore) && base.currentLevel == old(base.currentLevel)
    {
      newScore := base.AddScore(base.roundScore);
    }

    /**
     * `startNewRound`, given the engine's shuffle of the grid: the round is
     * worth the level's award again, new active bugs are chosen, all bugs
     * are hidden and the old callbacks are gone.
     */
    method StartNewRound(p: seq<nat>)
      requires Valid() && base.currentLevel.Some? && IsPermutation(p, grid.bugCount)
      modifies this, base, grid, grid.revealed
      ensures Valid() && !armed && progress == 0
      ensures base.score == old(base.score) && base.currentLevel == old(base.currentLevel)
      ensures base.roundScore == base.currentLevel.value.awardPoints
      ensures grid.children == Permute(old(grid.children), p)
      ensures grid.activeBugs == grid.children[..ActiveCount(grid.activeBugsCount, grid.bugCount)]
      ensures forall b :: 0 <= b < grid.revealed.Length ==> !grid.revealed[b]
      ensures grid.isRevealingActiveBugs == old(grid.isRevealingActiveBugs)
    {
      base.roundScore := base.currentLevel.value.awardPoints;
      var shuffled := grid.ShuffleBugs(p);
      armed := false;
      progress := 0;
    }

    /**
     * The start of `revealBugsAsync`, run when the grid has slid in: in
     * every round after the first the clock is paused first. When a reveal
     * is already running, `revealActiveBugsAsync` returns at once and the
     * callbacks are set straight away.
     */
    method BeginReveal(firstRound: bool) returns (started: bool)
      requires Valid()
      modifies this, grid, base.clock
      ensures Valid()
      ensures started <==> !old(grid.isRevealingActiveBugs)
      ensures armed == (old(armed) || !started)
      ensures progress == old(progress) && grid.isRevealingActiveBugs
      ensures !firstRound ==> base.clock.event == if old(base.clock.event).Some? then Some(old(base.clock.event).value.(paused := true)) else None
      ensures firstRound ==> base.clock.event == old(base.clock.event)
      ensures base.clock.value == old(base.clock.value)
    {
      if !firstRound {
        base.clock.SetPaused(true);
      }
      started := grid.StartReveal();
      if !started {
        armed := true;
      }
    }

    /**
     * The rest of `revealBugsAsync`, once every active bug was shown: the
     * game's callbacks are set on the active bugs and the clock starts in
     * the first round and resumes in the later ones.
     */
    method RevealFinished(firstRound: bool)
      requires Valid()
      modifies this, grid, base.clock
      ensures Valid() && armed && progress == old(progress)
      ensures !grid.isRevealingActiveBugs
      ensures firstRound ==> base.clock.event == Some(Clocks.TimerEvent(false, false))
      ensures !firstRound ==> base.clock.event == if old(base.clock.event).Some? then Some(old(base.clock.event).value.(paused := false)) else None
      ensures base.clock.value == old(base.clock.value)
    {
      grid.FinishReveal();
      armed := true;
      if firstRound {
        base.clock.Start();
      } else {
        base.clock.SetPaused(false);
      }
    }

    /** `showGameResults`, the clock's completion handler. */
    method ShowGameResults() returns (view: Result<ResultsDialogs.ResultsView>)
      modifies base.clock
      ensures view == ResultsDialogs.ShowModal(base.context.levels, base.context.sessionData, base.score)
    {
      view := base.ShowGameResults();
    }
  }

  /**
   * `onCreate`'s `addBugsGrid`, given the level's grid configuration and
   * the engine's first shuffle: a sequence longer than a non-empty grid
   * makes the grid's constructor throw.
   */
  method CreateGame(context: Context, config: BugsGridConfig, p: seq<nat>) returns (r: Result<BugSequenceGame>)
    requires IsPermutation(p, BugCount(Js.NumberOr(config.rows, DefaultRows), Js.NumberOr(config.columns, DefaultColumns)))
    modifies config
    ensures r.Failure? ==> r.error == MissingBugError
    ensures r.Success? ==> fresh(r.value) && r.value.Valid() && !r.value.armed && r.value.base.score == 0
    ensures var count := Js.NumberOr(old(config.activeBugsCount), DefaultActiveBugsCount);
      var n := BugCount(Js.NumberOr(old(config.rows), DefaultRows), Js.NumberOr(old(config.columns), DefaultColumns));
      r.Success? <==> n == 0 || count <= n
  {
    var g :- BugsGrids.Create(config, p);
    var game := new BugSequenceGame(context, g);
    r := Success(game);
  }
}
