/**
 * src/games/anagram/anagram.ts: the anagram test and the word shuffle.
 * Fetching the word list is left out; the engine's shuffle is a given
 * permutation and `GetRandom` over the alphabet a given index.
 */
module Anagrams {
  import Js
  import opened Permutations

  /** The characters of `\w`. */
  predicate IsWordChar(c: char) {
    ('A' <= c <= 'Z') || ('a' <= c <= 'z') || ('0' <= c <= '9') || c == '_'
  }

  /** `replace(/[^\w]/g, "")`: drops every character outside `\w` and keeps the order of the rest. */
  function Strip(s: string): (r: string)
    ensures |r| <= |s|
    ensures forall i :: 0 <= i < |r| ==> IsWordChar(r[i])
    ensures forall c :: IsWordChar(c) ==> multiset(r)[c] == multiset(s)[c]
    ensures forall c :: !IsWordChar(c) ==> multiset(r)[c] == 0
    decreases |s|
  {
    if |s| == 0 then []
    else
      assert s == [s[0]] + s[1..];
      (if IsWordChar(s[0]) then [s[0]] else []) + Strip(s[1..])
  }

  lemma {:induction false} StripConcat(a: string, b: string)
    ensures Strip(a + b) == Strip(a) + Strip(b)
    decreases |a|
  {
    if |a| > 0 {
      assert (a + b)[1..] == a[1..] + b;
      StripConcat(a[1..], b);
    } else {
      assert a + b == b;
    }
  }

  /** The two steps `check` applies to each word: strip, then lower-case. */
  function Normalize(s: string): (r: string)
    ensures |r| <= |s|
    ensures forall i :: 0 <= i < |r| ==> IsWordChar(r[i]) && !Js.IsUpperAscii(r[i])
  {
    Js.Lower(Strip(s))
  }

  lemma LowerConcat(a: string, b: string)
    ensures Js.Lower(a + b) == Js.Lower(a) + Js.Lower(b)
  {
    var l := Js.Lower(a + b);
    var r := Js.Lower(a) + Js.Lower(b);
    forall i | 0 <= i < |l| ensures l[i] == r[i] {
      if i >= |a| {
        assert (a + b)[i] == b[i - |a|];
      }
    }
  }

  lemma NormalizeConcat(a: string, b: string)
    ensures Normalize(a + b) == Normalize(a) + Normalize(b)
  {
    StripConcat(a, b);
    LowerConcat(Strip(a), Strip(b));
  }

  /** Normalising is idempotent: a normalised word has nothing more to strip or lower. */
  lemma {:induction false} NormalizeIdempotent(s: string)
    ensures Normalize(Normalize(s)) == Normalize(s)
  {
    var n := Normalize(s);
    forall i | 0 <= i < |n| ensures IsWordChar(n[i]) {
      assert IsWordChar(Strip(s)[i]);
    }
    StripWordChars(n);
    Js.LowerIdempotent(Strip(s));
  }

  lemma {:induction false} StripWordChars(s: string)
    requires forall i :: 0 <= i < |s| ==> IsWordChar(s[i])
    ensures Strip(s) == s
    decreases |s|
  {
    if |s| > 0 {
      StripWordChars(s[1..]);
    }
  }

  /** Words with the same letters, counted with multiplicity, normalise to words with the same letters. */
  lemma {:induction false} NormalizeKeepsMultiset(a: string, b: string)
    requires multiset(a) == multiset(b)
    ensures multiset(Normalize(a)) == multiset(Normalize(b))
    decreases |a|
  {
    if |a| == 0 {
      assert |multiset(b)| == 0;
      assert b == [];
    } else {
      var x := a[0];
      assert x in multiset(b);
      var k :| 0 <= k < |b| && b[k] == x;
      var rest := b[..k] + b[k + 1..];
      assert b == b[..k] + [x] + b[k + 1..];
      assert a == [x] + a[1..];
      assert multiset(b) == multiset(b[..k]) + multiset{x} + multiset(b[k + 1..]);
      assert multiset(a) == multiset{x} + multiset(a[1..]);
      assert multiset(rest) == multiset(b[..k]) + multiset(b[k + 1..]);
      assert multiset(rest) == multiset(b) - multiset{x};
      assert multiset(a[1..]) == multiset(a) - multiset{x};
      NormalizeKeepsMultiset(a[1..], rest);
      NormalizeConcat([x], a[1..]);
      NormalizeConcat(b[..k], b[k + 1..]);
      NormalizeConcat(b[..k] + [x], b[k + 1..]);
      NormalizeConcat(b[..k], [x]);
    }
  }

  /** Every character of a occurs in b exactly as often as in a; b may hold more. */
  predicate CountsAgree(a: string, b: string) {
    forall c :: c in multiset(a) ==> multiset(a)[c] == multiset(b)[c]
  }

  /**
   * `getCharMap`: each character of the string maps to the number of its
   * occurrences (`charMap[char] + 1 || 1` starts a new key at 1).
   */
  method GetCharMap(str: string) returns (charMap: map<char, nat>)
    ensures forall c :: c in charMap <==> c in str
    ensures forall c :: c in charMap ==> charMap[c] == multiset(str)[c]
  {
    charMap := map[];
    for i := 0 to |str|
      invariant forall c :: c in charMap <==> c in str[..i]
      invariant forall c :: c in charMap ==> charMap[c] == multiset(str[..i])[c]
    {
      var ch := str[i];
      assert str[..i + 1] == str[..i] + [ch];
      charMap := charMap[ch := if ch in charMap then charMap[ch] + 1 else 1];
    }
    assert str[..|str|] == str;
  }

  /**
   * `check`: after normalising both words, every character of the first
   * must occur equally often in the second. Only the first word's
   * characters are visited, so the test is one-directional.
   */
  method Check(word1: string, word2: string) returns (b: bool)
    ensures b <==> CountsAgree(Normalize(word1), Normalize(word2))
  {
    var w1 := Normalize(word1);
    var w2 := Normalize(word2);
    var charMapA := GetCharMap(w1);
    var charMapB := GetCharMap(w2);
    CharMapsAgree(w1, w2, charMapA, charMapB);
    var keys := charMapA.Keys;
    while keys != {}
      invariant keys <= charMapA.Keys
      invariant forall c :: c in charMapA && c !in keys ==> c in charMapB && charMapA[c] == charMapB[c]
      decreases keys
    {
      var c :| c in keys;
      if c !in charMapB || charMapA[c] != charMapB[c] {
        return false;
      }
      keys := keys - {c};
    }
    return true;
  }

  /** Two character maps agree on the first one's keys exactly when the strings' counts do. */
  lemma CharMapsAgree(a: string, b: string, mapA: map<char, nat>, mapB: map<char, nat>)
    requires forall c :: c in mapA <==> c in a
    requires forall c :: c in mapA ==> mapA[c] == multiset(a)[c]
    requires forall c :: c in mapB <==> c in b
    requires forall c :: c in mapB ==> mapB[c] == multiset(b)[c]
    ensures (forall c :: c in mapA ==> c in mapB && mapA[c] == mapB[c]) <==> CountsAgree(a, b)
  {
    if forall c :: c in mapA ==> c in mapB && mapA[c] == mapB[c] {
      forall c | c in multiset(a) ensures multiset(a)[c] == multiset(b)[c] {
        assert c in a;
      }
    }
    if CountsAgree(a, b) {
      forall c | c in mapA ensures c in mapB && mapA[c] == mapB[c] {
        assert c in multiset(a);
        assert c in multiset(b);
      }
    }
  }

  /** A rearrangement of the first word, in any case and with any punctuation moved, is accepted. */
  lemma PermutationAccepted(word1: string, word2: string)
    requires multiset(word1) == multiset(word2)
    ensures CountsAgree(Normalize(word1), Normalize(word2))
    ensures CountsAgree(Normalize(word2), Normalize(word1))
  {
    NormalizeKeepsMultiset(word1, word2);
  }

  /**
   * Letters the second word has on top of the first, and the first lacks,
   * are ignored: the test passes one way and fails the other.
   */
  lemma ExtraLettersIgnored(word: string, extra: string)
    requires forall i :: 0 <= i < |Normalize(extra)| ==> Normalize(extra)[i] !in Normalize(word)
    ensures CountsAgree(Normalize(word), Normalize(word + extra))
    ensures |Normalize(extra)| > 0 ==> !CountsAgree(Normalize(word + extra), Normalize(word))
  {
    NormalizeConcat(word, extra);
    var w, e := Normalize(word), Normalize(extra);
    assert multiset(w + e) == multiset(w) + multiset(e);
    if |e| > 0 {
      assert e[0] in multiset(w + e);
      assert e[0] !in multiset(w);
    }
  }

  lemma MultisetIncludedEqual(a: multiset<char>, b: multiset<char>)
    requires a <= b && |a| == |b|
    ensures a == b
  {
    assert |b - a| == |b| - |a| by {
      assert b == (b - a) + a;
    }
    assert b - a == multiset{};
    assert b == (b - a) + a;
  }

  /**
   * Between words whose normalised forms have the same length, the
   * one-directional test is exactly multiset equality of the normalised
   * forms, so it is symmetric there.
   */
  lemma SameLengthIsAnagram(word1: string, word2: string)
    requires |Normalize(word1)| == |Normalize(word2)|
    ensures CountsAgree(Normalize(word1), Normalize(word2)) <==> multiset(Normalize(word1)) == multiset(Normalize(word2))
  {
    var a := multiset(Normalize(word1));
    var b := multiset(Normalize(word2));
    if CountsAgree(Normalize(word1), Normalize(word2)) {
      assert a <= b by {
        forall c ensures a[c] <= b[c] {
          if c in a {
            assert a[c] == b[c];
          }
        }
      }
      MultisetIncludedEqual(a, b);
    }
  }

  const EnglishChars: string := "abcdefghijklmnopqrstuvwxyz"

  /**
   * What `shuffle` returns, given the engine's permutation p of the word's
   * characters and the index of the random letter: the permuted word, with
   * its last character replaced when asked (an empty word stays empty).
   */
  function ShuffledWord(word: string, replaceLastChar: bool, p: seq<nat>, randChar: nat): (r: string)
    requires IsPermutation(p, |word|) && randChar < |EnglishChars|
    ensures |r| == |word|
    ensures replaceLastChar && |word| > 0 ==> 'a' <= r[|r| - 1] <= 'z'
  {
    var s := Permute(word, p);
    if replaceLastChar && |s| > 0 then s[..|s| - 1] + [EnglishChars[randChar]] else s
  }

  /** `shuffle(word, replaceLastChar)` over a character array. */
  method Shuffle(word: string, replaceLastChar: bool, p: seq<nat>, randChar: nat) returns (r: string)
    requires IsPermutation(p, |word|) && randChar < |EnglishChars|
    ensures r == ShuffledWord(word, replaceLastChar, p, randChar)
  {
    var n := |word|;
    var charsArr: array<char> := new char[n](i requires 0 <= i < n => word[i]);
    var shuffled := Permute(charsArr[..], p);
    forall i | 0 <= i < charsArr.Length {
      charsArr[i] := shuffled[i];
    }
    if replaceLastChar && charsArr.Length > 0 {
      charsArr[charsArr.Length - 1] := EnglishChars[randChar];
    }
    r := charsArr[..];
  }

  /** Without replacement the shuffle is a rearrangement, so `check` accepts it in both directions. */
  lemma ShufflePermutes(word: string, p: seq<nat>, randChar: nat)
    requires IsPermutation(p, |word|) && randChar < |EnglishChars|
    ensures var r := ShuffledWord(word, false, p, randChar);
      && |r| == |word| && multiset(r) == multiset(word)
      && CountsAgree(Normalize(r), Normalize(word)) && CountsAgree(Normalize(word), Normalize(r))
  {
    PermutePreservesMultiset(word, p);
    PermutationAccepted(word, ShuffledWord(word, false, p, randChar));
  }

  /**
   * With replacement a non-empty word keeps its length, all but the last
   * character are the permuted word's, and the last is a letter a-z.
   */
  lemma ShuffleReplacesLast(word: string, p: seq<nat>, randChar: nat)
    requires IsPermutation(p, |word|) && randChar < |EnglishChars|
    requires |word| > 0
    ensures var r := ShuffledWord(word, true, p, randChar);
      && |r| == |word|
      && r[..|r| - 1] == Permute(word, p)[..|word| - 1]
      && 'a' <= r[|r| - 1] <= 'z'
  {
  }
}
