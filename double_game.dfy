/**
 * src/games/double/scenes/game.ts: the Double game. Each round puts five
 * objects on each of two plates; exactly one texture is on both plates,
 * and the player must select its two objects one after the other. The
 * engine's shuffle of the nine textures is a given permutation, and the
 * awaited wrong-result overlay is taken as part of the click.
 */
module DoubleGames {
  import opened Wrappers
  import opened Levels
  import opened Contexts
  import opened GameBases
  import opened Permutations
  import opened Plates
  import Clocks
  import ResultsDialogs

  /** The textures `1..9` a level loads. */
  const ObjectKinds: seq<int> := [1, 2, 3, 4, 5, 6, 7, 8, 9]

  /** How many shuffled textures `addObjects` uses. */
  const KindCount: nat := 9

  /** The shuffled `indexes` of `addObjects`, given the engine's shuffle p. */
  function Indexes(p: seq<nat>): (r: seq<int>)
    requires IsPermutation(p, KindCount)
    ensures |r| == KindCount
    ensures forall i :: 0 <= i < KindCount ==> r[i] == p[i] + 1
  {
    Permute(ObjectKinds, p)
  }

  /** Plate 1's new objects: the first five shuffled textures, with identities from firstId. */
  function Board1(p: seq<nat>, firstId: nat): (r: seq<Sprite>)
    requires IsPermutation(p, KindCount)
    ensures |r| == 5
    ensures forall i :: 0 <= i < 5 ==> r[i] == NewSprite(firstId + i, p[i] + 1)
  {
    seq(5, i requires 0 <= i < 5 => NewSprite(firstId + i, Indexes(p)[i]))
  }

  /** Plate 2's new objects: the last four shuffled textures and a second object with the fifth. */
  function Board2(p: seq<nat>, firstId: nat): (r: seq<Sprite>)
    requires IsPermutation(p, KindCount)
    ensures |r| == 5
    ensures forall j :: 0 <= j < 4 ==> r[j] == NewSprite(firstId + 5 + j, p[5 + j] + 1)
    ensures r[4] == NewSprite(firstId + 9, p[4] + 1)
  {
    var first := seq(4, j requires 0 <= j < 4 => NewSprite(firstId + 5 + j, Indexes(p)[5 + j]));
    first + [NewSprite(firstId + 9, Indexes(p)[4])]
  }

  /**
   * The shape of a round: the ten objects are new, shown, unselected and
   * have distinct identities; the textures are among the nine loaded ones;
   * no plate holds a texture twice; and an object of plate 1 shares its
   * texture with an object of plate 2 exactly when both are the fifth.
   */
  lemma BoardShape(p: seq<nat>, firstId: nat)
    requires IsPermutation(p, KindCount)
    ensures var b := Board1(p, firstId) + Board2(p, firstId);
      && (forall k :: 0 <= k < 10 ==> b[k].id == firstId + k && b[k].visible && !b[k].selected)
      && (forall k :: 0 <= k < 10 ==> 1 <= b[k].texture <= 9)
    ensures forall i, j :: 0 <= i < j < 5 ==> Board1(p, firstId)[i].texture != Board1(p, firstId)[j].texture
    ensures forall i, j :: 0 <= i < j < 5 ==> Board2(p, firstId)[i].texture != Board2(p, firstId)[j].texture
    ensures forall i, j :: 0 <= i < 5 && 0 <= j < 5 ==>
      (Board1(p, firstId)[i].texture == Board2(p, firstId)[j].texture <==> i == 4 && j == 4)
  {
  }

  /**
   * What the intended `contains` answers on a new round: of plate 1's
   * objects, only the fifth has a texture plate 2 holds.
   */
  lemma SharedTexture(p: seq<nat>, firstId: nat, i: nat)
    requires IsPermutation(p, KindCount) && i < 5
    ensures HasTexture(Board2(p, firstId), Board1(p, firstId)[i].texture) <==> i == 4
  {
    BoardShape(p, firstId);
    if i == 4 {
      assert Board2(p, firstId)[4].texture == Board1(p, firstId)[4].texture;
    }
  }

  /** An identity above all others keeps a list of identities distinct wherever it goes in. */
  lemma FreshId(a: seq<nat>, b: seq<nat>, x: nat)
    requires Distinct(a + b)
    requires forall k :: 0 <= k < |a| ==> a[k] < x
    requires forall k :: 0 <= k < |b| ==> b[k] < x
    ensures Distinct(a + [x] + b)
  {
    var s := a + [x] + b;
    forall i, j | 0 <= i < j < |s| ensures s[i] != s[j] {
      if j < |a| {
        assert s[i] == (a + b)[i] && s[j] == (a + b)[j];
      } else if j == |a| {
        assert s[i] == a[i];
      } else if i < |a| {
        assert s[i] == (a + b)[i] && s[j] == (a + b)[j - 1];
      } else if i == |a| {
        assert s[j] == b[j - |a| - 1];
      } else {
        assert s[i] == (a + b)[i - 1] && s[j] == (a + b)[j - 1];
      }
    }
  }

  /** Appending the next element of s to a prefix of s extends the prefix by one. */
  lemma AppendNext(o: seq<Sprite>, s: seq<Sprite>, i: nat)
    requires i < |s|
    ensures o + s[..i] + [s[i]] == o + s[..i + 1]
  {
    assert s[..i + 1] == s[..i] + [s[i]];
  }

  /** What a click on an object did. */
  datatype Click = Ignored | Matched(newScore: int) | Mismatched | Selected

  /** The scene's reference to an object: its identity and its texture key. */
  datatype Handle = Handle(id: nat, texture: int)

  /** The identities of a list of objects. */
  function Ids(objects: seq<Sprite>): (r: seq<nat>)
    ensures |r| == |objects| && forall k :: 0 <= k < |r| ==> r[k] == objects[k].id
  {
    seq(|objects|, k requires 0 <= k < |objects| => objects[k].id)
  }

  class DoubleGame {
    const base: GameBase
    const plate1: Plate
    const plate2: Plate
    /** `_lastSelectedObject`; the object it names may be destroyed already. */
    var lastSelected: Option<Handle>
    /** The identity the next new object gets. */
    var nextId: nat

    /** The plates are two, every object has its own identity, and every reference names an object made. */
    ghost predicate Valid()
      reads this, plate1, plate2
    {
      && plate1 != plate2
      && Distinct(Ids(plate1.objects + plate2.objects))
      && (forall k :: 0 <= k < |plate1.objects| ==> plate1.objects[k].id < nextId)
      && (forall k :: 0 <= k < |plate2.objects| ==> plate2.objects[k].id < nextId)
      && (lastSelected.Some? ==> lastSelected.value.id < nextId)
    }

    /** The scene as `onCreate` leaves it: two empty plates, hidden until the first round. */
    constructor (context: Context)
      ensures fresh(base) && base.context == context && base.score == 0
      ensures fresh(plate1) && fresh(plate2)
      ensures plate1.objects == [] && plate2.objects == [] && !plate1.visible && !plate2.visible
      ensures lastSelected == None
      ensures Valid()
    {
      base := new GameBase(context);
      var p1 := new Plate();
      var p2 := new Plate();
      p1.SetVisible(false);
      p2.SetVisible(false);
      plate1 := p1;
      plate2 := p2;
      lastSelected := None;
      nextId := 0;
    }

    /** A new object with a fresh identity goes on plate 1 or plate 2. */
    method AddNew(onFirst: bool, texture: int)
      requires Valid()
      modifies this, plate1, plate2
      ensures Valid() && nextId == old(nextId) + 1 && lastSelected == old(lastSelected)
      ensures onFirst ==> plate1.objects == old(plate1.objects) + [NewSprite(old(nextId), texture)] && plate2.objects == old(plate2.objects)
      ensures !onFirst ==> plate2.objects == old(plate2.objects) + [NewSprite(old(nextId), texture)] && plate1.objects == old(plate1.objects)
      ensures plate1.visible == old(plate1.visible) && plate2.visible == old(plate2.visible)
    {
      var all := plate1.objects + plate2.objects;
      var obj := NewSprite(nextId, texture);
      if onFirst {
        assert Ids(all) == Ids(plate1.objects) + Ids(plate2.objects);
        FreshId(Ids(plate1.objects), Ids(plate2.objects), nextId);
        plate1.AddObject(obj);
        assert Ids(plate1.objects + plate2.objects) == Ids(old(plate1.objects)) + [obj.id] + Ids(plate2.objects);
      } else {
        FreshId(Ids(all), [], nextId);
        plate2.AddObject(obj);
        assert Ids(plate1.objects + plate2.objects) == Ids(all) + [obj.id] + [];
      }
      nextId := nextId + 1;
    }

    /**
     * The body of `addObjects`' loop for the i-th shuffled texture: the
     * first five go on plate 1, the next four on plate 2.
     */
    method AddShuffled(p: seq<nat>, firstId: nat, i: nat)
      requires Valid() && IsPermutation(p, KindCount) && i < 9 && nextId == firstId + i
      modifies this, plate1, plate2
      ensures Valid() && nextId == old(nextId) + 1 && lastSelected == old(lastSelected)
      ensures i < 5 ==> plate1.objects == old(plate1.objects) + [Board1(p, firstId)[i]] && plate2.objects == old(plate2.objects)
      ensures i >= 5 ==> plate2.objects == old(plate2.objects) + [Board2(p, firstId)[i - 5]] && plate1.objects == old(plate1.objects)
      ensures plate1.visible == old(plate1.visible) && plate2.visible == old(plate2.visible)
    {
      var indexes := Indexes(p);
      if i >= 0 && i <= 4 {
        AddNew(true, indexes[i]);
      } else if i >= 5 && i <= 8 {
        AddNew(false, indexes[i]);
      }
    }

    /**
     * `addObjects`, given the engine's shuffle: the first five shuffled
     * textures go on plate 1, the last four and a second object with the
     * fifth on plate 2.
     */
    method AddObjects(p: seq<nat>)
      requires Valid() && IsPermutation(p, KindCount)
      modifies this, plate1, plate2
      ensures Valid() && nextId == old(nextId) + 10 && lastSelected == old(lastSelected)
      ensures plate1.objects == old(plate1.objects) + Board1(p, old(nextId))
      ensures plate2.objects == old(plate2.objects) + Board2(p, old(nextId))
      ensures plate1.visible == old(plate1.visible) && plate2.visible == old(plate2.visible)
    {
      var firstId := nextId;
      var b1, b2 := Board1(p, firstId), Board2(p, firstId);
      ghost var o1, o2 := plate1.objects, plate2.objects;
      for i := 0 to 9
        invariant Valid() && nextId == firstId + i && lastSelected == old(lastSelected)
        invariant plate1.objects == o1 + b1[..if i < 5 then i else 5]
        invariant plate2.objects == o2 + b2[..if i < 5 then 0 else i - 5]
        invariant plate1.visible == old(plate1.visible) && plate2.visible == old(plate2.visible)
      {
        AddShuffled(p, firstId, i);
        if i < 5 {
          AppendNext(o1, b1, i);
        } else {
          AppendNext(o2, b2, i - 5);
        }
      }
      AddNew(false, Indexes(p)[4]);
      AppendNext(o2, b2, 4);
      assert b1[..5] == b1 && b2[..5] == b2;
    }

    /**
     * `startNewRound`, given the engine's shuffle: the round is worth the
     * level's award again, the ten new objects are on the plates and the
     * plates are shown.
     */
    method StartNewRound(p: seq<nat>)
      requires Valid() && base.currentLevel.Some? && IsPermutation(p, KindCount)
      modifies this, base, plate1, plate2
      ensures Valid() && nextId == old(nextId) + 10 && lastSelected == old(lastSelected)
      ensures base.score == old(base.score) && base.currentLevel == old(base.currentLevel)
      ensures base.roundScore == base.currentLevel.value.awardPoints
      ensures plate1.objects == old(plate1.objects) + Board1(p, old(nextId))
      ensures plate2.objects == old(plate2.objects) + Board2(p, old(nextId))
      ensures plate1.visible && plate2.visible
    {
      base.roundScore := base.currentLevel.value.awardPoints;
      AddObjects(p);
      plate1.SetVisible(true);
      plate2.SetVisible(true);
    }

    /** `onBegin`: the first round starts, and so does the clock. */
    method Begin(p: seq<nat>)
      requires Valid() && base.currentLevel.Some? && IsPermutation(p, KindCount)
      modifies this, base, plate1, plate2, base.clock
      ensures Valid() && lastSelected == old(lastSelected)
      ensures base.currentLevel == old(base.currentLevel)
      ensures base.roundScore == base.currentLevel.value.awardPoints && base.score == old(base.score)
      ensures plate1.objects == old(plate1.objects) + Board1(p, old(nextId))
      ensures plate2.objects == old(plate2.objects) + Board2(p, old(nextId))
      ensures base.clock.event == Some(Clocks.TimerEvent(false, false))
    {
      StartNewRound(p);
      base.clock.Start();
    }

    /** A change made to one object through the scene's reference to it, on whichever plate holds it. */
    method ChangeEverywhere(id: nat, c: Change)
      requires Valid()
      modifies plate1, plate2
      ensures Valid()
      ensures plate1.objects == Changed(old(plate1.objects), id, c) && plate2.objects == Changed(old(plate2.objects), id, c)
      ensures plate1.visible == old(plate1.visible) && plate2.visible == old(plate2.visible)
    {
      plate1.ChangeObject(id, c);
      plate2.ChangeObject(id, c);
      assert Ids(plate1.objects + plate2.objects) == Ids(old(plate1.objects) + old(plate2.objects));
    }

    /** The second click of a pair: both objects get the same change and the selection is forgotten. */
    method SettlePair(prevId: nat, id: nat, c: Change)
      requires Valid()
      modifies this, plate1, plate2
      ensures Valid() && nextId == old(nextId) && lastSelected == None
      ensures plate1.objects == Changed(Changed(old(plate1.objects), prevId, c), id, c)
      ensures plate2.objects == Changed(Changed(old(plate2.objects), prevId, c), id, c)
      ensures plate1.visible == old(plate1.visible) && plate2.visible == old(plate2.visible)
    {
      ChangeEverywhere(prevId, c);
      ChangeEverywhere(id, c);
      lastSelected := None;
    }

    /**
     * A click on the i-th object of plate 1 (`onFirst`) or plate 2: the
     * `pointerup` handler and `checkPrevObject`. A hidden object receives
     * no click. Otherwise the object is selected; a different object,
     * selected before, with the same texture completes the round: both are
     * hidden and deselected and the round's score is added. A different
     * object with another texture deselects both, at no cost. With no
     * earlier selection, or a second click on the same object, the object
     * becomes the selection.
     */
    method ClickObject(onFirst: bool, i: nat) returns (v: Click)
      requires Valid()
      requires i < |(if onFirst then plate1 else plate2).objects|
      modifies this, base, plate1, plate2
      ensures Valid() && nextId == old(nextId)
      ensures var obj := (if onFirst then old(plate1.objects) else old(plate2.objects))[i];
        && (v.Ignored? <==> !obj.visible || !(if onFirst then old(plate1.visible) else old(plate2.visible)))
        && (v.Matched? <==> !v.Ignored? && old(lastSelected).Some? && old(lastSelected).value.id != obj.id && old(lastSelected).value.texture == obj.texture)
        && (v.Mismatched? <==> !v.Ignored? && old(lastSelected).Some? && old(lastSelected).value.id != obj.id && old(lastSelected).value.texture != obj.texture)
        && (v.Selected? ==> lastSelected == Some(Handle(obj.id, obj.texture)))
        && (v.Ignored? ==> plate1.objects == old(plate1.objects) && plate2.objects == old(plate2.objects) && lastSelected == old(lastSelected))
        && (v.Matched? || v.Mismatched? ==> lastSelected == None)
        && (v.Matched? ==>
              && plate1.objects == Changed(Changed(Changed(old(plate1.objects), obj.id, Select), old(lastSelected).value.id, HideReset), obj.id, HideReset)
              && plate2.objects == Changed(Changed(Changed(old(plate2.objects), obj.id, Select), old(lastSelected).value.id, HideReset), obj.id, HideReset))
        && (v.Mismatched? ==>
              && plate1.objects == Changed(Changed(Changed(old(plate1.objects), obj.id, Select), old(lastSelected).value.id, Reset), obj.id, Reset)
              && plate2.objects == Changed(Changed(Changed(old(plate2.objects), obj.id, Select), old(lastSelected).value.id, Reset), obj.id, Reset))
        && (v.Selected? ==>
              && plate1.objects == Changed(old(plate1.objects), obj.id, Select)
              && plate2.objects == Changed(old(plate2.objects), obj.id, Select))
    ensures v.Matched? ==> base.score == old(base.score) + old(base.roundScore) && v.newScore == base.score
    ensures !v.Matched? ==> base.score == old(base.score)
    ensures base.roundScore == old(base.roundScore) && base.currentLevel == old(base.currentLevel)
    ensures plate1.visible == old(plate1.visible) && plate2.visible == old(plate2.visible)
    {
      var plate := if onFirst then plate1 else plate2;
      var obj := plate.objects[i];
      if !obj.visible || !plate.visible {
        return Ignored;
      }
      ChangeEverywhere(obj.id, Select);
      if lastSelected.Some? && lastSelected.value.id != obj.id && lastSelected.value.texture == obj.texture {
        SettlePair(lastSelected.value.id, obj.id, HideReset);
        var newScore := base.AddScore(base.roundScore);
        v := Matched(newScore);
      } else if lastSelected.Some? && lastSelected.value.id != obj.id {
        SettlePair(lastSelected.value.id, obj.id, Reset);
        v := Mismatched;
      } else {
        lastSelected := Some(Handle(obj.id, obj.texture));
        v := Selected;
      }
    }

    /**
     * The end of `completeRound`, once the plates have slid out: both are
     * emptied and the next round starts.
     */
    method RoundCleared(p: seq<nat>)
      requires Valid() && base.currentLevel.Some? && IsPermutation(p, KindCount)
      modifies this, base, plate1, plate2
      ensures Valid() && lastSelected == old(lastSelected)
      ensures base.currentLevel == old(base.currentLevel)
      ensures base.roundScore == base.currentLevel.value.awardPoints && base.score == old(base.score)
      ensures plate1.objects == Board1(p, old(nextId)) && plate2.objects == Board2(p, old(nextId))
      ensures plate1.visible && plate2.visible
    {
      plate1.RemoveAllObjects();
      plate2.RemoveAllObjects();
      StartNewRound(p);
    }

    /** `showGameResults`, the clock's completion handler: the plates are emptied and the results shown. */
    method ShowGameResults() returns (view: Result<ResultsDialogs.ResultsView>)
      requires Valid()
      modifies plate1, plate2, base.clock
      ensures Valid() && plate1.objects == [] && plate2.objects == []
      ensures view == ResultsDialogs.ShowModal(base.context.levels, base.context.sessionData, base.score)
    {
      plate1.RemoveAllObjects();
      plate2.RemoveAllObjects();
      view := base.ShowGameResults();
    }

    /** `onDispose`: the score is cleared, the clock reset and the selection forgotten. */
    method OnDispose()
      requires Valid()
      modifies this, base, base.clock
      ensures Valid() && lastSelected == None && base.score == 0
      ensures base.roundScore == old(base.roundScore) && base.currentLevel == old(base.currentLevel)
    {
      base.OnDispose();
      lastSelected := None;
    }
  }

  /**
   * On a new round, two distinct objects the player can pair (same
   * texture) are exactly the fifth object of plate 1 and the last object
   * of plate 2.
   */
  lemma OnlyPairOfRound(p: seq<nat>, firstId: nat, onFirst1: bool, i: nat, onFirst2: bool, j: nat)
    requires IsPermutation(p, KindCount) && i < 5 && j < 5
    requires (onFirst1, i) != (onFirst2, j)
    ensures var a := (if onFirst1 then Board1(p, firstId) else Board2(p, firstId))[i];
      var b := (if onFirst2 then Board1(p, firstId) else Board2(p, firstId))[j];
      a.texture == b.texture <==> onFirst1 != onFirst2 && i == 4 && j == 4
  {
    BoardShape(p, firstId);
  }
}
