/**
 * `MathUtils.getRandom` and `ArrayUtils` of src/core/utils.ts.
 *
 * `Math.random()` is a parameter: the fraction num/den with 0 <= num < den
 * stands for the value it returned.
 */
module Utils {
  import opened Wrappers

  /** One value `Math.random()` returned, as the fraction num/den. */
  datatype Random = Random(num: nat, den: nat) {
    predicate Valid() {
      num < den
    }
  }

  /** `Math.floor(random * (max - min + 1)) + min`; Dafny's `/` on a positive divisor is the floor. */
  function GetRandom(min: int, max: int, num: nat, den: nat): (r: int)
    requires num < den
    ensures min <= max ==> min <= r <= max
  {
    var steps := num * (max - min + 1) / den;
    assert min <= max ==> 0 <= steps <= max - min by {
      if min <= max {
        FloorFractionBelow(num, den, max - min + 1);
      }
    }
    steps + min
  }

  lemma FloorFractionBelow(num: nat, den: nat, k: nat)
    requires num < den
    ensures 0 <= num * k / den
    ensures k > 0 ==> num * k / den < k
  {
    if k > 0 {
      assert num * k < den * k;
    }
  }

  /** `Array.prototype.indexOf`: the first index holding x, or -1. */
  function IndexOf<T(==)>(s: seq<T>, x: T): (i: int)
    ensures -1 <= i < |s|
    ensures i == -1 <==> x !in s
    ensures 0 <= i ==> s[i] == x && x !in s[..i]
  {
    if |s| == 0 then -1
    else if s[0] == x then 0
    else
      var j := IndexOf(s[1..], x);
      assert s[1..][..if j < 0 then 0 else j] == s[1..if j < 0 then 1 else j + 1];
      if j == -1 then -1 else j + 1
  }

  /**
   * `array.splice(start, 1)`: a negative start counts from the end (and
   * stops at 0), a start at or past the end removes nothing.
   */
  function SpliceOne<T>(s: seq<T>, start: int): (r: seq<T>)
    ensures var k := if start < 0 then (if |s| + start < 0 then 0 else |s| + start) else start;
      if k < |s| then r == s[..k] + s[k + 1..] else r == s
  {
    var k := if start < 0 then (if |s| + start < 0 then 0 else |s| + start) else start;
    if k < |s| then s[..k] + s[k + 1..] else s
  }

  /** The array that `removeFromArray(item, array)` leaves behind. */
  function RemoveFromArray<T(==)>(s: seq<T>, item: T): seq<T> {
    SpliceOne(s, IndexOf(s, item))
  }

  /** An item that is present loses its first occurrence; the rest keep their order. */
  lemma RemovePresent<T>(s: seq<T>, item: T)
    requires item in s
    ensures exists i ::
              && 0 <= i < |s| && s[i] == item && item !in s[..i]
              && RemoveFromArray(s, item) == s[..i] + s[i + 1..]
  {
    var i := IndexOf(s, item);
    assert 0 <= i < |s| && s[i] == item && item !in s[..i];
  }

  /** An absent item: indexOf gives -1, and the splice removes the last element. */
  lemma RemoveAbsent<T>(s: seq<T>, item: T)
    requires item !in s
    ensures |s| > 0 ==> RemoveFromArray(s, item) == s[..|s| - 1]
    ensures |s| == 0 ==> RemoveFromArray(s, item) == []
  {
  }

  /** A non-empty array always shrinks by exactly one element, an empty one stays empty. */
  lemma RemoveLength<T>(s: seq<T>, item: T)
    ensures |s| > 0 ==> |RemoveFromArray(s, item)| == |s| - 1
    ensures |s| == 0 ==> RemoveFromArray(s, item) == []
    ensures multiset(RemoveFromArray(s, item)) <= multiset(s)
  {
    var i := IndexOf(s, item);
    var k := if i < 0 then |s| - 1 else i;
    if 0 <= k < |s| {
      assert s == s[..k] + [s[k]] + s[k + 1..];
    }
  }

  /** A JavaScript array that the program changes in place. */
  class JsArray<T(==)> {
    var items: seq<T>

    constructor (init: seq<T>)
      ensures items == init
    {
      items := init;
    }

    /** `ArrayUtils.removeFromArray(item, this)`. */
    method Remove(item: T)
      modifies this
      ensures items == RemoveFromArray(old(items), item)
    {
      var index := IndexOf(items, item);
      items := SpliceOne(items, index);
    }
  }

  /**
   * `getRandomItem`: the element at `getRandom(0, length - 1)`; on an
   * empty array that index is 0 and the result is `undefined`.
   */
  function GetRandomItem<T>(s: seq<T>, num: nat, den: nat): (r: Option<T>)
    requires num < den
    ensures |s| == 0 <==> r.None?
    ensures r.Some? ==> r.value in s
  {
    var i := GetRandom(0, |s| - 1, num, den);
    if 0 <= i < |s| then Some(s[i]) else None
  }
}
