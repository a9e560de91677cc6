/** The string operations the search filters use: `toLowerCase` on ASCII
    letters and substring containment. */
module Text {

  function LowerChar(c: char): char
  {
    if 'A' <= c <= 'Z' then (c as int + 32) as char else c
  }

  /** `toLowerCase`, letter by letter. */
  function Lower(s: string): (r: string)
    ensures |r| == |s|
    ensures forall i :: 0 <= i < |s| ==> r[i] == LowerChar(s[i])
  {
    if s == [] then [] else Lower(s[..|s| - 1]) + [LowerChar(s[|s| - 1])]
  }

  /** `needle` occurs in `hay` starting at position `i`. */
  predicate IsAt(hay: string, needle: string, i: int)
  {
    0 <= i <= |hay| - |needle| && hay[i..i + |needle|] == needle
  }

  /** `hay.includes(needle)`. */
  predicate Includes(hay: string, needle: string)
  {
    exists i :: 0 <= i <= |hay| && IsAt(hay, needle, i)
  }

  /** Case-insensitive containment: both sides lower-cased. */
  predicate IncludesIgnoringCase(hay: string, needle: string)
  {
    Includes(Lower(hay), Lower(needle))
  }

  /** Every string includes the empty string, whatever its case. */
  lemma EmptyIsIncluded(hay: string)
    ensures Includes(hay, "")
    ensures IncludesIgnoringCase(hay, "")
  {
    assert IsAt(hay, "", 0);
    assert Lower("") == "";
    assert IsAt(Lower(hay), Lower(""), 0);
  }

  /** Lower-casing is idempotent, so a lower-case needle may be given either
      way. */
  lemma LowerIdempotent(s: string)
    ensures Lower(Lower(s)) == Lower(s)
  {
  }

  /** A string includes itself, ignoring case. */
  lemma IncludesItself(s: string)
    ensures IncludesIgnoringCase(s, s)
  {
    assert IsAt(Lower(s), Lower(s), 0);
  }
}
