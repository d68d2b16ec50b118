/**
 * src/games/double/objects/plate.ts and spriteObject.ts: a plate is a
 * container of sprite objects, and a sprite object is a clickable image
 * with a texture and a selected flag. An object is known by its identity
 * (`id`), as the scene compares objects by reference. A texture
 * `<level>_object_N` is the number N: every object of a game has the same
 * level. Positions, sizes, tweens and the overlap resolution are not
 * modelled.
 */
module Plates {

  /** A sprite object: its identity, its texture, whether it is shown, and `_selected`. */
  datatype Sprite = Sprite(id: nat, texture: int, visible: bool, selected: bool)

  /** A new sprite object: shown and not selected. */
  function NewSprite(id: nat, texture: int): (s: Sprite)
    ensures s.id == id && s.texture == texture && s.visible && !s.selected
  {
    Sprite(id, texture, true, false)
  }

  /**
   * What the scene does to one object: `pointerup` selects it, `resetState`
   * deselects it, and a found pair is hidden and deselected.
   */
  datatype Change = Select | Reset | HideReset

  function Apply(s: Sprite, c: Change): (r: Sprite)
    ensures r.id == s.id && r.texture == s.texture
    ensures r.selected <==> c == Select
    ensures r.visible <==> s.visible && c != HideReset
  {
    match c
    case Select => s.(selected := true)
    case Reset => s.(selected := false)
    case HideReset => s.(visible := false, selected := false)
  }

  /** The change c made to the object with identity id, wherever it is in the list. */
  function Changed(objects: seq<Sprite>, id: nat, c: Change): (r: seq<Sprite>)
    ensures |r| == |objects|
    ensures forall k :: 0 <= k < |r| ==> r[k].id == objects[k].id && r[k].texture == objects[k].texture
    ensures forall k :: 0 <= k < |r| && objects[k].id != id ==> r[k] == objects[k]
    ensures forall k :: 0 <= k < |r| && objects[k].id == id ==> r[k] == Apply(objects[k], c)
  {
    seq(|objects|, k requires 0 <= k < |objects| => if objects[k].id == id then Apply(objects[k], c) else objects[k])
  }

  /** Whether some object of the list has texture t: what `contains` is meant to answer. */
  predicate HasTexture(objects: seq<Sprite>, t: int) {
    exists k :: 0 <= k < |objects| && objects[k].texture == t
  }

  /**
   * The engine's `removeBetween(start, end)` on a container's children:
   * the children from start up to, but not including, end are removed when
   * 0 <= start < end <= length; any other range removes nothing.
   */
  function RemoveBetween<T>(list: seq<T>, start: int, end: int): (r: seq<T>)
    ensures 0 <= start < end <= |list| ==> |r| == |list| - (end - start)
    ensures !(0 <= start < end <= |list|) ==> r == list
    ensures forall k :: 0 <= k < |r| && 0 <= start <= k ==> 0 <= k + (|list| - |r|) < |list| && r[k] == list[k + (|list| - |r|)]
    ensures forall k :: 0 <= k < |r| && k < start ==> r[k] == list[k]
  {
    if 0 <= start < end <= |list| then list[..start] + list[end..] else list
  }

  /**
   * `removeAllObjects` as written: with the background rectangle as child 0,
   * the range from 1 to `length - 1` stops before the last child, so the
   * last object stays on the plate.
   */
  lemma RemoveAllKeepsLast<T>(background: T, objects: seq<T>)
    requires |objects| > 0
    ensures RemoveBetween([background] + objects, 1, |[background] + objects| - 1) == [background, objects[|objects| - 1]]
  {
    var list := [background] + objects;
    var r := RemoveBetween(list, 1, |list| - 1);
    assert |r| == 2;
    assert r[1] == list[|list| - 1];
  }

  class Plate {
    /** `getObjects`: the container's list without its background rectangle. */
    var objects: seq<Sprite>
    /** The container's visibility. */
    var visible: bool

    /** A plate holds no object when it is built. */
    constructor ()
      ensures objects == [] && visible
    {
      objects := [];
      visible := true;
    }

    method SetVisible(value: bool)
      modifies this
      ensures visible == value && objects == old(objects)
    {
      visible := value;
    }

    /** `addObject`: the object goes into the container, after the others. */
    method AddObject(obj: Sprite)
      modifies this
      ensures objects == old(objects) + [obj] && visible == old(visible)
    {
      objects := objects + [obj];
    }

    /** `removeAllObjects` as intended: every object but the background goes and is destroyed. */
    method RemoveAllObjects()
      modifies this
      ensures objects == [] && visible == old(visible)
    {
      objects := [];
    }

    /**
     * `removeAllObjects` as written: the background stays, and so does the
     * last object, because the engine's end index is exclusive.
     */
    method RemoveAllObjectsAsWritten()
      modifies this
      ensures |old(objects)| > 0 ==> objects == [old(objects)[|old(objects)| - 1]]
      ensures |old(objects)| == 0 ==> objects == []
      ensures visible == old(visible)
    {
      var background := NewSprite(0, 0);
      var children := [background] + objects;
      children := RemoveBetween(children, 1, |children| - 1);
      if |objects| > 0 {
        RemoveAllKeepsLast(background, objects);
      }
      objects := children[1..];
    }

    /** The scene changes the object with identity id, when it is on this plate. */
    method ChangeObject(id: nat, c: Change)
      modifies this
      ensures objects == Changed(old(objects), id, c) && visible == old(visible)
    {
      objects := Changed(objects, id, c);
    }

    /**
     * `contains` as written: the `return true` sits inside the `forEach`
     * callback, and `forEach` drops what its callback returns, so the loop
     * goes on after a match and the method answers false.
     */
    method ContainsAsWritten(obj: Sprite) returns (b: bool)
      ensures !b
    {
      var items := objects;
      var i := 0;
      while i < |items|
        invariant 0 <= i <= |items|
      {
        var found := items[i].texture == obj.texture;
        i := i + 1;
      }
      return false;
    }

    /** `contains` as intended: whether an object on the plate has the object's texture. */
    method Contains(obj: Sprite) returns (b: bool)
      ensures b <==> HasTexture(objects, obj.texture)
    {
      var items := objects;
      for i := 0 to |items|
        invariant forall k :: 0 <= k < i ==> items[k].texture != obj.texture
      {
        if items[i].texture == obj.texture {
          return true;
        }
      }
      return false;
    }

    /**
     * The discrepancy: asked about one of its own objects, the plate
     * answers false as written although it holds that texture.
     */
    method ContainsCounterexample(i: nat) returns (asWritten: bool, intended: bool)
      requires i < |objects|
      ensures HasTexture(objects, objects[i].texture)
      ensures !asWritten && intended
    {
      asWritten := ContainsAsWritten(objects[i]);
      intended := Contains(objects[i]);
    }
  }
}
