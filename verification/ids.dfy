/**
 Service, alias and parameter ids. Every entry point of the container
 normalises an id to lower case before it touches one of its maps, so two
 ids that differ only in ASCII letter case name the same entry.
 */
module Ids {

  predicate IsUpper(ch: char) {
    'A' <= ch <= 'Z'
  }

  /** ASCII lower-casing of one character; everything else is left alone. */
  function LowerChar(ch: char): (r: char)
    ensures !IsUpper(r)
    ensures r == ch <==> !IsUpper(ch)
    ensures IsUpper(ch) ==> r as int - ch as int == 'a' as int - 'A' as int
  {
    if IsUpper(ch) then (ch as int + ('a' as int - 'A' as int)) as char else ch
  }

  /** An id that normalisation leaves untouched. */
  predicate IsKey(s: string) {
    forall i :: 0 <= i < |s| ==> !IsUpper(s[i])
  }

  /** The normalised form of an id (ASCII `strtolower`). */
  function Lower(s: string): (r: string)
    ensures |r| == |s|
    ensures forall i :: 0 <= i < |s| ==> r[i] == LowerChar(s[i])
    ensures IsKey(r)
  {
    if s == [] then [] else [LowerChar(s[0])] + Lower(s[1..])
  }

  /** `x` and `y` are the same character, or the upper- and lower-case forms of one ASCII letter. */
  predicate SameLetter(x: char, y: char) {
    || x == y
    || (IsUpper(x) && y as int == x as int + ('a' as int - 'A' as int))
    || (IsUpper(y) && x as int == y as int + ('a' as int - 'A' as int))
  }

  /** Reference definition: two ids are one key when they agree letter by letter up to ASCII case. */
  predicate EqualIgnoringCase(a: string, b: string) {
    |a| == |b| && forall i :: 0 <= i < |a| ==> SameLetter(a[i], b[i])
  }

  /** Lower-casing identifies exactly the characters that are the same letter up to case. */
  lemma LowerCharSameIff(x: char, y: char)
    ensures LowerChar(x) == LowerChar(y) <==> SameLetter(x, y)
  {
  }

  /** Normalising a normalised id changes nothing. */
  lemma LowerIdempotent(s: string)
    ensures Lower(Lower(s)) == Lower(s)
  {
  }

  /** Ids already in lower case are their own key. */
  lemma LowerOfKey(s: string)
    requires IsKey(s)
    ensures Lower(s) == s
  {
  }

  /** Normalisation identifies exactly the ids that are equal ignoring ASCII case. */
  lemma SameKeyIffEqualIgnoringCase(a: string, b: string)
    ensures Lower(a) == Lower(b) <==> EqualIgnoringCase(a, b)
  {
    forall i | 0 <= i < |a| && i < |b|
      ensures LowerChar(a[i]) == LowerChar(b[i]) <==> SameLetter(a[i], b[i])
    {
      LowerCharSameIff(a[i], b[i]);
    }
    if EqualIgnoringCase(a, b) {
      assert forall i :: 0 <= i < |a| ==> Lower(a)[i] == Lower(b)[i];
    }
    if Lower(a) == Lower(b) {
      assert forall i :: 0 <= i < |a| ==> LowerChar(a[i]) == Lower(a)[i] == Lower(b)[i] == LowerChar(b[i]);
    }
  }
}
