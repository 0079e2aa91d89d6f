/**
 * The string operations the list handler uses for its name filter:
 * `toLowerCase` (restricted to ASCII) and `includes` (substring search).
 */
module Text {

  /** True for the ASCII capital letters 'A' to 'Z'. */
  predicate IsUpper(c: char) {
    'A' <= c <= 'Z'
  }

  /** The ASCII lower-case form of one character; every other character is kept. */
  function LowerChar(c: char): char {
    if IsUpper(c) then (c as int + 32) as char else c
  }

  /** `String.prototype.toLowerCase`, on the ASCII range. */
  function ToLower(s: string): (r: string)
    ensures |r| == |s|
    ensures forall i :: 0 <= i < |s| ==> r[i] == LowerChar(s[i])
    ensures forall i :: 0 <= i < |r| ==> !IsUpper(r[i])
  {
    seq(|s|, i requires 0 <= i < |s| => LowerChar(s[i]))
  }

  /** Lower-casing twice is lower-casing once. */
  lemma ToLowerIdempotent(s: string)
    ensures ToLower(ToLower(s)) == ToLower(s)
  {
  }

  /** `needle` occurs in `hay` starting at position `i`. */
  ghost predicate OccursAt(hay: string, needle: string, i: int) {
    0 <= i && i + |needle| <= |hay| && hay[i..i + |needle|] == needle
  }

  /** `String.prototype.includes`: does `needle` occur somewhere in `hay`? */
  function Includes(hay: string, needle: string): (r: bool)
    ensures |needle| == 0 ==> r
    ensures r ==> |needle| <= |hay|
    decreases |hay|
  {
    if |hay| < |needle| then false
    else hay[..|needle|] == needle || Includes(hay[1..], needle)
  }

  /** The search finds `needle` exactly when it occurs at some position of `hay`. */
  lemma {:induction false} IncludesIff(hay: string, needle: string)
    ensures Includes(hay, needle) <==> exists i :: OccursAt(hay, needle, i)
    decreases |hay|
  {
    if |hay| < |needle| {
      assert forall i :: !OccursAt(hay, needle, i);
    } else if hay[..|needle|] == needle {
      assert OccursAt(hay, needle, 0);
    } else {
      IncludesIff(hay[1..], needle);
      if Includes(hay[1..], needle) {
        var j :| OccursAt(hay[1..], needle, j);
        assert hay[1..][j..j + |needle|] == hay[j + 1..j + 1 + |needle|];
        assert OccursAt(hay, needle, j + 1);
      } else {
        forall i | OccursAt(hay, needle, i)
          ensures false
        {
          if i != 0 {
            assert hay[1..][i - 1..i - 1 + |needle|] == hay[i..i + |needle|];
            assert OccursAt(hay[1..], needle, i - 1);
          }
        }
      }
    }
  }

  /** The case-insensitive name match of the list handler. */
  function NameMatches(name: string, needle: string): (r: bool)
    ensures r <==> exists i :: OccursAt(ToLower(name), ToLower(needle), i)
  {
    var hay, low := ToLower(name), ToLower(needle);
    IncludesIff(hay, low);
    Includes(hay, low)
  }

  /** A match does not depend on the case of either string. */
  lemma NameMatchesIgnoresCase(name: string, needle: string)
    ensures NameMatches(name, needle) == NameMatches(ToLower(name), needle)
    ensures NameMatches(name, needle) == NameMatches(name, ToLower(needle))
  {
    ToLowerIdempotent(name);
    ToLowerIdempotent(needle);
  }

  /** The query "dune" finds the book called "Dune Messiah". */
  lemma NameMatchesExample()
    ensures NameMatches("Dune Messiah", "dune")
  {
  }
}
