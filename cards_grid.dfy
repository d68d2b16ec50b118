/**
 * src/games/memo/objects/cardsGrid.ts and card.ts: the grid of memo cards.
 * Cards are identified by their index in creation order (`_cards`);
 * `children` is the grid sizer's child order, which the engine's shuffle
 * reorders in place. A card's front texture `card_N` is the number N. The
 * flip animation is not modelled: a flip turns the card at once.
 */
module CardsGrids {
  import opened Wrappers
  import Js
  import Utils
  import opened Permutations
  import BugsGrids

  const DefaultWidth: int := 100
  const DefaultHeight: int := 100
  const DefaultCards: int := 4
  const DefaultRevealDuration: int := 1000
  /** The front textures are `card_1` to `card_67`. */
  const MinTexture: int := 1
  const MaxTexture: int := 67
  /** The texture each card is created with. */
  const InitialTexture: int := 1

  /** `CardsGridConfig` without the position. */
  class CardsGridConfig {
    var width: Option<int>
    var height: Option<int>
    var cards: Option<int>
    var rows: Option<int>
    var columns: Option<int>
    var revealDuration: Option<int>

    constructor (cards: Option<int>, rows: Option<int>, columns: Option<int>)
      ensures this.cards == cards && this.rows == rows && this.columns == columns
      ensures width == None && height == None && revealDuration == None
    {
      this.cards := cards;
      this.rows := rows;
      this.columns := columns;
      width := None;
      height := None;
      revealDuration := None;
    }
  }

  /**
   * `getValidConfig`: falsy fields take their defaults; the rows and the
   * columns default to half the card count, after that count took its own
   * default.
   */
  method GetValidConfig(config: CardsGridConfig)
    modifies config
    ensures config.width == Some(Js.NumberOr(old(config.width), DefaultWidth))
    ensures config.height == Some(Js.NumberOr(old(config.height), DefaultHeight))
    ensures config.cards == Some(Js.NumberOr(old(config.cards), DefaultCards))
    ensures config.rows == Some(Js.NumberOr(old(config.rows), config.cards.value / 2))
    ensures config.columns == Some(Js.NumberOr(old(config.columns), config.cards.value / 2))
    ensures config.revealDuration == Some(Js.NumberOr(old(config.revealDuration), DefaultRevealDuration))
  {
    if Js.FalsyNumber(config.width) {
      config.width := Some(DefaultWidth);
    }
    if Js.FalsyNumber(config.height) {
      config.height := Some(DefaultHeight);
    }
    if Js.FalsyNumber(config.cards) {
      config.cards := Some(DefaultCards);
    }
    if Js.FalsyNumber(config.rows) {
      config.rows := Some(config.cards.value / 2);
    }
    if Js.FalsyNumber(config.columns) {
      config.columns := Some(config.cards.value / 2);
    }
    if Js.FalsyNumber(config.revealDuration) {
      config.revealDuration := Some(DefaultRevealDuration);
    }
  }

  /** The number of cards the grid sizer creates for the given configuration: one per cell. */
  function CardCount(cards: Option<int>, rows: Option<int>, columns: Option<int>): nat {
    var half := Js.NumberOr(cards, DefaultCards) / 2;
    BugsGrids.GridCells(Js.NumberOr(rows, half), Js.NumberOr(columns, half))
  }

  /** A card: which face is up (`face === 0` is the front), `isRevealed`, whether it takes clicks, and its front texture. */
  datatype Card = Card(frontUp: bool, revealed: bool, interactive: bool, texture: int)

  /** The bulk operations of the grid, each applied to every card. */
  datatype CardOp = FlipBack | FlipOpen | Disable | Enable | BackFace | FrontFace

  /**
   * One card under one bulk operation: `flipBack` and `setBackFace` end
   * with the back up, `flipOpen` and `setFrontFace` with the front up, and
   * `disableInteractive`/`setInteractive` switch clicks off and on. No
   * operation touches the texture or the revealed flag.
   */
  function Apply(op: CardOp, card: Card): (r: Card)
    ensures r.texture == card.texture && r.revealed == card.revealed
    ensures (op.FlipBack? || op.BackFace?) ==> !r.frontUp && r.interactive == card.interactive
    ensures (op.FlipOpen? || op.FrontFace?) ==> r.frontUp && r.interactive == card.interactive
    ensures op.Disable? ==> !r.interactive && r.frontUp == card.frontUp
    ensures op.Enable? ==> r.interactive && r.frontUp == card.frontUp
  {
    match op
    case FlipBack => card.(frontUp := false)
    case BackFace => card.(frontUp := false)
    case FlipOpen => card.(frontUp := true)
    case FrontFace => card.(frontUp := true)
    case Disable => card.(interactive := false)
    case Enable => card.(interactive := true)
  }

  /** Every bulk operation is idempotent: doing it twice is doing it once. */
  lemma ApplyIdempotent(op: CardOp, card: Card)
    ensures Apply(op, Apply(op, card)) == Apply(op, card)
  {
  }

  /** The draws `shuffleCards` makes for k children: the one before the loop and one for every even index. */
  function RandomsNeeded(k: nat): nat {
    1 + (k + 1) / 2
  }

  predicate ValidRandoms(randoms: seq<Utils.Random>) {
    forall j :: 0 <= j < |randoms| ==> randoms[j].Valid()
  }

  /**
   * The texture the k-th child receives: even indices draw a new one and
   * odd indices reuse it, so child k takes draw 1 + k/2 (draw 0, made
   * before the loop, is always overwritten or unused).
   */
  function DealtTexture(randoms: seq<Utils.Random>, k: nat): (t: int)
    requires ValidRandoms(randoms) && 1 + k / 2 < |randoms|
    ensures MinTexture <= t <= MaxTexture
  {
    Utils.GetRandom(MinTexture, MaxTexture, randoms[1 + k / 2].num, randoms[1 + k / 2].den)
  }

  /** The textures of the children in their order before the final shuffle. */
  function Dealt(n: nat, randoms: seq<Utils.Random>): (r: seq<int>)
    requires ValidRandoms(randoms) && |randoms| == RandomsNeeded(n)
    ensures |r| == n
  {
    seq(n, k requires 0 <= k < n => DealtTexture(randoms, k))
  }

  /** Children 2k and 2k+1 share a texture, and every texture is one of the 67. */
  lemma DealtInPairs(n: nat, randoms: seq<Utils.Random>)
    requires ValidRandoms(randoms) && |randoms| == RandomsNeeded(n)
    ensures forall k :: 0 <= k < n ==> MinTexture <= Dealt(n, randoms)[k] <= MaxTexture
    ensures forall k :: 0 <= k && 2 * k + 1 < n ==> Dealt(n, randoms)[2 * k] == Dealt(n, randoms)[2 * k + 1]
  {
    forall k | 0 <= k && 2 * k + 1 < n ensures Dealt(n, randoms)[2 * k] == Dealt(n, randoms)[2 * k + 1] {
      assert (2 * k) / 2 == k && (2 * k + 1) / 2 == k;
    }
  }

  /** A sequence made of equal neighbours 2k, 2k+1 holds every value an even number of times. */
  lemma {:induction false} PairedEvenCounts(d: seq<int>)
    requires |d| % 2 == 0
    requires forall k :: 0 <= k && 2 * k + 1 < |d| ==> d[2 * k] == d[2 * k + 1]
    ensures forall t :: multiset(d)[t] % 2 == 0
    decreases |d|
  {
    if |d| > 0 {
      var m := |d| - 2;
      var front := d[..m];
      forall k | 0 <= k && 2 * k + 1 < |front| ensures front[2 * k] == front[2 * k + 1] {
        assert d[2 * k] == d[2 * k + 1];
      }
      PairedEvenCounts(front);
      assert d[m] == d[m + 1] by {
        assert m == 2 * (m / 2);
      }
      assert d == front + [d[m], d[m]];
      assert multiset(d) == multiset(front) + multiset{d[m], d[m]};
      forall t ensures multiset(d)[t] % 2 == 0 {
        if t == d[m] {
          assert multiset(d)[t] == multiset(front)[t] + 2;
        } else {
          assert multiset(d)[t] == multiset(front)[t];
        }
      }
    }
  }

  /** With an even number of children, every texture is dealt an even number of times. */
  lemma DealtEvenCounts(n: nat, randoms: seq<Utils.Random>)
    requires ValidRandoms(randoms) && |randoms| == RandomsNeeded(n)
    requires n % 2 == 0
    ensures forall t :: multiset(Dealt(n, randoms))[t] % 2 == 0
  {
    DealtInPairs(n, randoms);
    PairedEvenCounts(Dealt(n, randoms));
  }

  /** The textures of the cards cs listed by order. */
  function TexturesOf(cs: seq<Card>, order: seq<nat>): (r: seq<int>)
    requires forall k :: 0 <= k < |order| ==> order[k] < |cs|
    ensures |r| == |order| && forall k :: 0 <= k < |order| ==> r[k] == cs[order[k]].texture
  {
    seq(|order|, k requires 0 <= k < |order| => cs[order[k]].texture)
  }

  class CardsGrid {
    const cardCount: nat
    const revealDuration: int
    /** `_cards`, in creation order. */
    const cards: array<Card>
    /** The grid sizer's children. */
    var children: seq<nat>

    ghost predicate Valid()
      reads this
    {
      cards.Length == cardCount && IsPermutation(children, cardCount)
    }

    /** The textures of the children, in child order. */
    ghost function ChildTextures(): (r: seq<int>)
      requires Valid()
      reads this, cards
      ensures |r| == cardCount
    {
      TexturesOf(cards[..], children)
    }

    /**
     * The constructor: one card per cell, each showing its front,
     * unrevealed, clickable and with texture `card_1`; then `shuffleCards`.
     */
    constructor (config: CardsGridConfig, randoms: seq<Utils.Random>, p: seq<nat>)
      requires ValidRandoms(randoms)
      requires |randoms| == RandomsNeeded(CardCount(config.cards, config.rows, config.columns))
      requires IsPermutation(p, CardCount(config.cards, config.rows, config.columns))
      modifies config
      ensures config.cards == Some(Js.NumberOr(old(config.cards), DefaultCards))
      ensures config.rows == Some(Js.NumberOr(old(config.rows), config.cards.value / 2))
      ensures config.columns == Some(Js.NumberOr(old(config.columns), config.cards.value / 2))
      ensures cardCount == CardCount(old(config.cards), old(config.rows), old(config.columns))
      ensures revealDuration == Js.NumberOr(old(config.revealDuration), DefaultRevealDuration)
      ensures fresh(cards) && Valid()
      ensures forall c :: 0 <= c < cards.Length ==> cards[c].frontUp && !cards[c].revealed && cards[c].interactive
      ensures ChildTextures() == Permute(Dealt(cardCount, randoms), p)
    {
      GetValidConfig(config);
      var n := BugsGrids.GridCells(config.rows.value, config.columns.value);
      cardCount := n;
      revealDuration := config.revealDuration.value;
      cards := new Card[n](_ => Card(true, false, true, InitialTexture));
      children := seq(n, i requires 0 <= i < n => i);
      new;
      ShuffleCards(randoms, p);
    }

    /**
     * `shuffleCards`: the children in their current order receive the
     * textures in pairs, then the children are shuffled. Nothing but the
     * textures changes on the cards.
     */
    method ShuffleCards(randoms: seq<Utils.Random>, p: seq<nat>)
      requires Valid() && ValidRandoms(randoms) && |randoms| == RandomsNeeded(cardCount)
      requires IsPermutation(p, cardCount)
      modifies this, cards
      ensures Valid()
      ensures children == Permute(old(children), p)
      ensures ChildTextures() == Permute(Dealt(cardCount, randoms), p)
      ensures forall c :: 0 <= c < cards.Length ==> cards[c] == old(cards[c]).(texture := cards[c].texture)
    {
      DealTextures(randoms);
      var dealt := Dealt(cardCount, randoms);
      PermuteDistinct(children, p);
      var before := children;
      children := Permute(children, p);
      forall k | 0 <= k < cardCount ensures ChildTextures()[k] == Permute(dealt, p)[k] {
        assert children[k] == before[p[k]];
      }
    }

    /** The loop of `shuffleCards`: the children, in their current order, receive the textures in pairs. */
    method DealTextures(randoms: seq<Utils.Random>)
      requires Valid() && ValidRandoms(randoms) && |randoms| == RandomsNeeded(cardCount)
      modifies cards
      ensures forall k :: 0 <= k < cardCount ==> cards[children[k]].texture == Dealt(cardCount, randoms)[k]
      ensures forall c :: 0 <= c < cards.Length ==> cards[c] == old(cards[c]).(texture := cards[c].texture)
    {
      var randIndex := Utils.GetRandom(MinTexture, MaxTexture, randoms[0].num, randoms[0].den);
      var next := 1;
      for i := 0 to |children|
        invariant next == RandomsNeeded(i)
        invariant i % 2 == 1 ==> randIndex == DealtTexture(randoms, i - 1)
        invariant forall k :: 0 <= k < i ==> cards[children[k]].texture == DealtTexture(randoms, k)
        invariant forall c :: 0 <= c < cards.Length ==>
          cards[c].frontUp == old(cards[c]).frontUp && cards[c].revealed == old(cards[c]).revealed && cards[c].interactive == old(cards[c]).interactive
      {
        if i % 2 == 0 {
          assert next == 1 + i / 2;
          randIndex := Utils.GetRandom(MinTexture, MaxTexture, randoms[next].num, randoms[next].den);
          next := next + 1;
        } else {
          assert (i - 1) / 2 == i / 2;
        }
        assert randIndex == DealtTexture(randoms, i);
        cards[children[i]] := cards[children[i]].(texture := randIndex);
      }
    }

    /** One of the bulk operations (`flipBackCards`, `flipOpenCards`, `disableCards`, `enableCards`, `setBackFaces`, `setFrontFaces`) on every card. */
    method ApplyAll(op: CardOp)
      modifies cards
      ensures forall c :: 0 <= c < cards.Length ==> cards[c] == Apply(op, old(cards[c]))
    {
      for i := 0 to cards.Length
        invariant forall c :: 0 <= c < i ==> cards[c] == Apply(op, old(cards[c]))
        invariant forall c :: i <= c < cards.Length ==> cards[c] == old(cards[c])
      {
        cards[i] := Apply(op, cards[i]);
      }
    }
  }

  /** After the final shuffle the grid still holds every texture an even number of times when the card count is even. */
  lemma ShuffledEvenCounts(n: nat, randoms: seq<Utils.Random>, p: seq<nat>)
    requires ValidRandoms(randoms) && |randoms| == RandomsNeeded(n) && IsPermutation(p, n)
    requires n % 2 == 0
    ensures forall t :: multiset(Permute(Dealt(n, randoms), p))[t] % 2 == 0
  {
    DealtEvenCounts(n, randoms);
    PermutePreservesMultiset(Dealt(n, randoms), p);
  }
}
