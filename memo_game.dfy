/**
 * src/games/memo/scenes/game.ts: the memo game. A round deals the cards in
 * pairs, shows their fronts for a while and turns them over; the player
 * opens two cards at a time. Two different cards with the same front stay
 * revealed, any other second pick turns both back and costs a life, and
 * the round is scored once every card is revealed. Each pick is modelled
 * as one step: the pauses inside `checkPrevCard` are not interleaved with
 * other picks.
 */
module MemoGames {
  import opened Wrappers
  import opened Levels
  import opened Contexts
  import opened GameBases
  import opened Healthbars
  import opened Permutations
  import opened CardsGrids
  import Utils
  import ResultsDialogs

  /** What a pick did: nothing, a matched pair, a first card left open, or a wrong second card. */
  datatype Pick = Ignored | Matched | Pending | Mismatched(healthOver: bool)

  /** 1 when the card is revealed with front t. */
  function RevealedAs(c: Card, t: int): nat {
    if c.revealed && c.texture == t then 1 else 0
  }

  /** The number of revealed cards with front t. */
  function RevealedWith(cs: seq<Card>, t: int): nat
    decreases |cs|
  {
    if |cs| == 0 then 0 else RevealedWith(cs[..|cs| - 1], t) + RevealedAs(cs[|cs| - 1], t)
  }

  lemma {:induction false} RevealedUpdate(cs: seq<Card>, i: nat, c: Card, t: int)
    requires i < |cs|
    ensures RevealedWith(cs[i := c], t) == RevealedWith(cs, t) - RevealedAs(cs[i], t) + RevealedAs(c, t)
    decreases |cs|
  {
    var n := |cs| - 1;
    if i < n {
      assert cs[i := c][..n] == cs[..n][i := c];
      RevealedUpdate(cs[..n], i, c, t);
    } else {
      assert cs[i := c][..n] == cs[..n];
    }
  }

  lemma {:induction false} NoneRevealed(cs: seq<Card>, t: int)
    requires forall i :: 0 <= i < |cs| ==> !cs[i].revealed
    ensures RevealedWith(cs, t) == 0
    decreases |cs|
  {
    if |cs| > 0 {
      NoneRevealed(cs[..|cs| - 1], t);
    }
  }

  /** Changing a card but not its revealed flag or its front changes no count. */
  lemma SameCounts(cs: seq<Card>, i: nat, c: Card)
    requires i < |cs| && c.revealed == cs[i].revealed && c.texture == cs[i].texture
    ensures forall t :: RevealedWith(cs[i := c], t) == RevealedWith(cs, t)
  {
    forall t ensures RevealedWith(cs[i := c], t) == RevealedWith(cs, t) {
      RevealedUpdate(cs, i, c, t);
    }
  }

  /** Revealing two unrevealed cards with the same front adds two to that front's count and nothing to the others. */
  lemma RevealPair(cs: seq<Card>, i: nat, j: nat)
    requires i < |cs| && j < |cs| && i != j
    requires !cs[i].revealed && !cs[j].revealed && cs[i].texture == cs[j].texture
    ensures var after := cs[i := cs[i].(revealed := true)][j := cs[j].(revealed := true)];
      forall t :: RevealedWith(after, t) == RevealedWith(cs, t) + (if t == cs[i].texture then 2 else 0)
  {
    var mid := cs[i := cs[i].(revealed := true)];
    forall t ensures RevealedWith(mid[j := cs[j].(revealed := true)], t) == RevealedWith(cs, t) + (if t == cs[i].texture then 2 else 0) {
      RevealedUpdate(cs, i, cs[i].(revealed := true), t);
      RevealedUpdate(mid, j, cs[j].(revealed := true), t);
    }
  }

  /** The revealed cards come in pairs: every front is revealed an even number of times. */
  ghost predicate PairedCounts(cs: seq<Card>) {
    forall t :: RevealedWith(cs, t) % 2 == 0
  }

  class MemoGame {
    const base: GameBase
    const grid: CardsGrid
    /** `_lastCard`: the card opened first and waiting for its partner. */
    var lastCard: Option<nat>

    /**
     * The grid is consistent, the pending card is not revealed and the
     * revealed cards come in pairs: every front is revealed an even number
     * of times.
     */
    ghost predicate Valid()
      reads this, grid, grid.cards, base, base.healthbar
    {
      && grid.Valid() && base.healthbar.Valid()
      && (lastCard.Some? ==> lastCard.value < grid.cards.Length && !grid.cards[lastCard.value].revealed)
      && PairedCounts(grid.cards[..])
    }

    /**
     * The scene and its `onCreate`: the grid is built from the level's
     * card count, and from its row count for both the rows and the
     * columns; no card is pending.
     */
    constructor (context: Context, cards: Option<int>, rows: Option<int>, randoms: seq<Utils.Random>, p: seq<nat>)
      requires ValidRandoms(randoms)
      requires |randoms| == RandomsNeeded(CardCount(cards, rows, rows))
      requires IsPermutation(p, CardCount(cards, rows, rows))
      ensures fresh(base) && fresh(grid) && base.context == context && base.score == 0
      ensures grid.cardCount == CardCount(cards, rows, rows)
      ensures lastCard == None && Valid()
    {
      base := new GameBase(context);
      var config := new CardsGridConfig(cards, rows, rows);
      grid := new CardsGrid(config, randoms, p);
      lastCard := None;
      new;
      forall t ensures RevealedWith(grid.cards[..], t) == 0 {
        NoneRevealed(grid.cards[..], t);
      }
    }

    /** The `every` test of `checkPrevCard`. */
    method AllCardsRevealed() returns (all: bool)
      ensures all <==> forall c :: 0 <= c < grid.cards.Length ==> grid.cards[c].revealed
    {
      for i := 0 to grid.cards.Length
        invariant forall c :: 0 <= c < i ==> grid.cards[c].revealed
      {
        if !grid.cards[i].revealed {
          return false;
        }
      }
      return true;
    }

    /** The `forEach` that clears every card's revealed flag once the round is won. */
    method ResetRevealed()
      modifies grid.cards
      ensures forall c :: 0 <= c < grid.cards.Length ==> grid.cards[c] == old(grid.cards[c]).(revealed := false)
    {
      for i := 0 to grid.cards.Length
        invariant forall c :: 0 <= c < i ==> grid.cards[c] == old(grid.cards[c]).(revealed := false)
        invariant forall c :: i <= c < grid.cards.Length ==> grid.cards[c] == old(grid.cards[c])
      {
        grid.cards[i] := grid.cards[i].(revealed := false);
      }
    }

    /** Puts card c in place of card i when both have the same revealed flag and front; the pairs stay paired. */
    method SetCard(i: nat, c: Card)
      requires i < grid.cards.Length && PairedCounts(grid.cards[..])
      requires c.revealed == grid.cards[i].revealed && c.texture == grid.cards[i].texture
      modifies grid.cards
      ensures grid.cards[..] == old(grid.cards[..])[i := c]
      ensures PairedCounts(grid.cards[..])
    {
      ghost var before := grid.cards[..];
      SameCounts(before, i, c);
      grid.cards[i] := c;
      assert grid.cards[..] == before[i := c];
      assert forall t :: RevealedWith(grid.cards[..], t) == RevealedWith(before, t);
    }

    /** Marks two different unrevealed cards with the same front as revealed; the pairs stay paired. */
    method RevealMatch(i: nat, j: nat)
      requires i < grid.cards.Length && j < grid.cards.Length && i != j && PairedCounts(grid.cards[..])
      requires !grid.cards[i].revealed && !grid.cards[j].revealed && grid.cards[i].texture == grid.cards[j].texture
      modifies grid.cards
      ensures grid.cards[..] == old(grid.cards[..])[i := old(grid.cards[i]).(revealed := true)][j := old(grid.cards[j]).(revealed := true)]
      ensures PairedCounts(grid.cards[..])
    {
      ghost var before := grid.cards[..];
      RevealPair(before, i, j);
      grid.cards[i] := grid.cards[i].(revealed := true);
      grid.cards[j] := grid.cards[j].(revealed := true);
      assert grid.cards[..] == before[i := before[i].(revealed := true)][j := before[j].(revealed := true)];
    }

    /**
     * `checkPrevCard` after card id was turned: a different pending card
     * with the same front makes a revealed pair; any other pending card,
     * the picked card itself included, is turned back with the picked one
     * and costs a life, which shows the results when it was the last; with
     * no pending card the picked one becomes pending.
     */
    method CheckPrevCard(id: nat) returns (v: Pick, results: Option<Result<ResultsDialogs.ResultsView>>)
      requires Valid() && id < grid.cards.Length && !grid.cards[id].revealed
      modifies this, grid.cards, base.healthbar, base.clock
      ensures Valid()
      ensures v != Ignored
      ensures v.Pending? <==> old(lastCard).None?
      ensures v.Pending? ==> lastCard == Some(id) && grid.cards[..] == old(grid.cards[..])
      ensures v.Matched? <==>
        old(lastCard).Some? && old(lastCard).value != id && old(grid.cards[lastCard.value]).texture == old(grid.cards[id]).texture
      ensures v.Matched? ==>
        grid.cards[..] == old(grid.cards[..])[old(lastCard).value := old(grid.cards[lastCard.value]).(revealed := true)][id := old(grid.cards[id]).(revealed := true)]
      ensures v.Mismatched? ==>
        && old(lastCard).Some?
        && grid.cards[..] == old(grid.cards[..])[old(lastCard).value := Apply(FlipBack, old(grid.cards[lastCard.value]))][id := Apply(FlipBack, old(grid.cards[..])[old(lastCard).value := Apply(FlipBack, old(grid.cards[lastCard.value]))][id])]
        && base.healthbar.health == KillStep(old(base.healthbar.health)).health
        && v.healthOver == KillStep(old(base.healthbar.health)).healthOver
      ensures v.Matched? || v.Mismatched? ==> lastCard == None
      ensures !v.Mismatched? ==> base.healthbar.health == old(base.healthbar.health)
      ensures results.Some? <==> v.Mismatched? && v.healthOver
      ensures results.Some? ==> results.value == ResultsDialogs.ShowModal(base.context.levels, base.context.sessionData, base.score)
    {
      results := None;
      if lastCard.Some? && lastCard.value != id && grid.cards[lastCard.value].texture == grid.cards[id].texture {
        RevealMatch(lastCard.value, id);
        lastCard := None;
        v := Matched;
      } else if lastCard.Some? {
        var last := lastCard.value;
        SetCard(last, Apply(FlipBack, grid.cards[last]));
        SetCard(id, Apply(FlipBack, grid.cards[id]));
        var _, over := base.healthbar.KillHealth();
        if over {
          var view := base.ShowGameResults();
          results := Some(view);
        }
        lastCard := None;
        v := Mismatched(over);
      } else {
        lastCard := Some(id);
        v := Pending;
      }
    }

    /** The end of `checkPrevCard`: when every card is revealed, all are cleared and `completeRound` adds the round's score. */
    method CompleteIfAllRevealed() returns (completed: bool)
      requires Valid()
      modifies grid.cards, base
      ensures Valid() && lastCard == old(lastCard)
      ensures completed <==> forall c :: 0 <= c < grid.cards.Length ==> old(grid.cards[c]).revealed
      ensures completed ==> forall c :: 0 <= c < grid.cards.Length ==> grid.cards[c] == old(grid.cards[c]).(revealed := false)
      ensures !completed ==> grid.cards[..] == old(grid.cards[..])
      ensures base.score == old(base.score) + (if completed then old(base.roundScore) else 0)
      ensures base.roundScore == old(base.roundScore) && base.currentLevel == old(base.currentLevel)
    {
      completed := AllCardsRevealed();
      if completed {
        ResetRevealed();
        forall t ensures RevealedWith(grid.cards[..], t) == 0 {
          NoneRevealed(grid.cards[..], t);
        }
        var _ := base.AddScore(base.roundScore);
      }
    }

    /**
     * A pick of card id: the card's `pointerup` handler, which ignores a
     * disabled or revealed card and otherwise turns the card and runs
     * `checkPrevCard`. The round is completed, with its score added, when
     * the pick leaves every card revealed, which only a match can do.
     */
    method PickCard(id: nat) returns (v: Pick, completed: bool, results: Option<Result<ResultsDialogs.ResultsView>>)
      requires Valid() && id < grid.cards.Length
      modifies this, grid.cards, base, base.healthbar, base.clock
      ensures Valid()
      ensures v.Ignored? <==> !old(grid.cards[id]).interactive || old(grid.cards[id]).revealed
      ensures v.Ignored? ==> grid.cards[..] == old(grid.cards[..]) && lastCard == old(lastCard) && !completed
      ensures v.Pending? <==> !v.Ignored? && old(lastCard).None?
      ensures v.Pending? ==> lastCard == Some(id) && grid.cards[id].frontUp == !old(grid.cards[id]).frontUp
      ensures v.Matched? <==>
        && !v.Ignored? && old(lastCard).Some? && old(lastCard).value != id
        && old(grid.cards[lastCard.value]).texture == old(grid.cards[id]).texture
      ensures v.Matched? && !completed ==> grid.cards[old(lastCard).value].revealed && grid.cards[id].revealed
      ensures v.Mismatched? ==> old(lastCard).Some? && !grid.cards[old(lastCard).value].frontUp && !grid.cards[id].frontUp
      ensures v.Matched? || v.Mismatched? ==> lastCard == None
      ensures v.Mismatched? ==>
        && base.healthbar.health == KillStep(old(base.healthbar.health)).health
        && v.healthOver == KillStep(old(base.healthbar.health)).healthOver
      ensures !v.Mismatched? ==> base.healthbar.health == old(base.healthbar.health)
      ensures results.Some? <==> v.Mismatched? && v.healthOver
      ensures results.Some? ==> results.value == ResultsDialogs.ShowModal(base.context.levels, base.context.sessionData, old(base.score))
      ensures completed ==> v.Matched?
      ensures completed ==> forall c :: 0 <= c < grid.cards.Length ==> !grid.cards[c].revealed
      ensures base.score == old(base.score) + (if completed then old(base.roundScore) else 0)
      ensures base.roundScore == old(base.roundScore) && base.currentLevel == old(base.currentLevel)
    {
      var card := grid.cards[id];
      if !card.interactive || card.revealed {
        return Ignored, false, None;
      }
      SetCard(id, card.(frontUp := !card.frontUp));
      v, results := CheckPrevCard(id);
      if !v.Matched? {
        assert !grid.cards[id].revealed;
      }
      completed := CompleteIfAllRevealed();
    }

    /**
     * `startNewRound` up to the slide-in: the round is worth the level's
     * award again, the clock pauses, the cards are dealt anew and shown
     * front up, and clicks are off. The callers start a round with no card
     * revealed.
     */
    method StartNewRound(randoms: seq<Utils.Random>, p: seq<nat>)
      requires Valid() && base.currentLevel.Some?
      requires ValidRandoms(randoms) && |randoms| == RandomsNeeded(grid.cardCount) && IsPermutation(p, grid.cardCount)
      requires forall c :: 0 <= c < grid.cards.Length ==> !grid.cards[c].revealed
      modifies base, base.clock, grid, grid.cards
      ensures Valid()
      ensures base.score == old(base.score) && base.currentLevel == old(base.currentLevel)
      ensures base.roundScore == base.currentLevel.value.awardPoints
      ensures base.clock.event == if old(base.clock.event).Some? then Some(old(base.clock.event).value.(paused := true)) else None
      ensures grid.children == Permute(old(grid.children), p)
      ensures grid.ChildTextures() == Permute(Dealt(grid.cardCount, randoms), p)
      ensures forall c :: 0 <= c < grid.cards.Length ==> grid.cards[c].frontUp && !grid.cards[c].interactive && !grid.cards[c].revealed
    {
      base.roundScore := base.currentLevel.value.awardPoints;
      base.clock.Pause();
      grid.ShuffleCards(randoms, p);
      var textures := grid.ChildTextures();
      grid.ApplyAll(FrontFace);
      grid.ApplyAll(Disable);
      assert grid.ChildTextures() == textures;
      forall t ensures RevealedWith(grid.cards[..], t) == 0 {
        NoneRevealed(grid.cards[..], t);
      }
    }

    /** The end of the round's slide-in, after the viewing time: the cards turn over, take clicks again and the clock resumes. */
    method RoundShown()
      requires Valid()
      modifies grid.cards, base.clock
      ensures Valid()
      ensures forall c :: 0 <= c < grid.cards.Length ==>
        && !grid.cards[c].frontUp && grid.cards[c].interactive
        && grid.cards[c].revealed == old(grid.cards[c]).revealed && grid.cards[c].texture == old(grid.cards[c]).texture
      ensures base.clock.event == if old(base.clock.event).Some? then Some(old(base.clock.event).value.(paused := false)) else None
    {
      var before := grid.cards[..];
      grid.ApplyAll(FlipBack);
      grid.ApplyAll(Enable);
      forall t ensures RevealedWith(grid.cards[..], t) == RevealedWith(before, t) {
        SameRevealed(before, grid.cards[..], t);
      }
      base.clock.Resume();
    }

    /** `onDispose`: the score goes back to 0, the clock is reset and no card is pending. */
    method OnDispose()
      modifies this, base, base.clock
      ensures lastCard == None && base.score == 0
    {
      base.OnDispose();
      lastCard := None;
    }
  }

  lemma {:induction false} SameRevealed(a: seq<Card>, b: seq<Card>, t: int)
    requires |a| == |b|
    requires forall i :: 0 <= i < |a| ==> a[i].revealed == b[i].revealed && a[i].texture == b[i].texture
    ensures RevealedWith(b, t) == RevealedWith(a, t)
    decreases |a|
  {
    if |a| > 0 {
      SameRevealed(a[..|a| - 1], b[..|b| - 1], t);
    }
  }
}
